/** The JavaScript string operations the core relies on, over `seq<char>`:
    `split` and `join` on a one-character separator, `includes`, the
    string form of `replace` (first occurrence only) and the decimal
    rendering of a non-negative integer in a template literal. */
module Text {

  /** Index of the first `c` in `s`. */
  function IndexOf(s: string, c: char): (i: nat)
    requires c in s
    ensures i < |s| && s[i] == c && c !in s[..i]
  {
    if s[0] == c then 0 else 1 + IndexOf(s[1..], c)
  }

  /** `s.split(sep)`: the pieces between the separators, in order; never empty. */
  function Split(s: string, sep: char): (parts: seq<string>)
    ensures |parts| >= 1
    ensures forall k :: 0 <= k < |parts| ==> sep !in parts[k]
    decreases |s|
  {
    if sep !in s then [s]
    else
      var i := IndexOf(s, sep);
      [s[..i]] + Split(s[i + 1..], sep)
  }

  /** `parts.join(sep)`; the join of no parts is "". */
  function Join(parts: seq<string>, sep: char): string
  {
    if |parts| == 0 then ""
    else if |parts| == 1 then parts[0]
    else parts[0] + [sep] + Join(parts[1..], sep)
  }

  lemma IndexOfAfterFree(a: string, c: char, rest: string)
    requires c !in a
    ensures c in a + [c] + rest && IndexOf(a + [c] + rest, c) == |a|
  {
    var s := a + [c] + rest;
    assert s[|a|] == c;
  }

  /** Splitting at a first separator that follows a separator-free piece. */
  lemma SplitAtFirst(a: string, sep: char, rest: string)
    requires sep !in a
    ensures Split(a + [sep] + rest, sep) == [a] + Split(rest, sep)
  {
    var s := a + [sep] + rest;
    IndexOfAfterFree(a, sep, rest);
    assert s[..|a|] == a;
    assert s[|a| + 1..] == rest;
  }

  /** A text holding the separator is its first piece, the separator and
      the rest, and splits into that piece followed by the rest's parts. */
  lemma SplitAtSeparator(s: string, sep: char)
    requires sep in s
    ensures var i := IndexOf(s, sep);
            && s == s[..i] + [sep] + s[i + 1..]
            && Split(s, sep) == [s[..i]] + Split(s[i + 1..], sep)
  {
  }

  /** A text holding the separator splits into at least two parts. */
  lemma SplitAtSeparatorHasTwo(s: string, sep: char)
    requires sep in s
    ensures |Split(s, sep)| >= 2
  {
    SplitAtSeparator(s, sep);
  }

  /** Joining a first part in front of at least one more. */
  lemma JoinCons(x: string, parts: seq<string>, sep: char)
    requires |parts| >= 1
    ensures Join([x] + parts, sep) == x + [sep] + Join(parts, sep)
  {
    assert ([x] + parts)[0] == x;
    assert ([x] + parts)[1..] == parts;
  }

  /** Joining a last part behind at least one more. */
  lemma {:induction false} JoinSnoc(parts: seq<string>, x: string, sep: char)
    requires |parts| >= 1
    ensures Join(parts + [x], sep) == Join(parts, sep) + [sep] + x
    decreases |parts|
  {
    if |parts| == 1 {
      assert parts + [x] == [parts[0]] + [x];
      JoinCons(parts[0], [x], sep);
    } else {
      var tail := parts[1..];
      assert parts + [x] == [parts[0]] + (tail + [x]);
      assert parts == [parts[0]] + tail;
      JoinCons(parts[0], tail + [x], sep);
      JoinSnoc(tail, x, sep);
      JoinCons(parts[0], tail, sep);
    }
  }

  /** `join` undoes `split`. */
  lemma {:induction false} JoinSplit(s: string, sep: char)
    ensures Join(Split(s, sep), sep) == s
    decreases |s|
  {
    if sep in s {
      var i := IndexOf(s, sep);
      var rest := s[i + 1..];
      SplitAtSeparator(s, sep);
      JoinSplit(rest, sep);
      JoinCons(s[..i], Split(rest, sep), sep);
    }
  }

  /** `split` undoes `join` of separator-free parts. */
  lemma {:induction false} SplitJoin(parts: seq<string>, sep: char)
    requires |parts| >= 1
    requires forall k :: 0 <= k < |parts| ==> sep !in parts[k]
    ensures Split(Join(parts, sep), sep) == parts
  {
    if |parts| > 1 {
      SplitJoin(parts[1..], sep);
      SplitAtFirst(parts[0], sep, Join(parts[1..], sep));
      assert parts == [parts[0]] + parts[1..];
    }
  }

  /** A trailing separator-free piece is the last part of the split. */
  lemma {:induction false} SplitAppendLast(p: string, sep: char, seg: string)
    requires sep !in seg
    ensures Split(p + [sep] + seg, sep) == Split(p, sep) + [seg]
    decreases |p|
  {
    if sep !in p {
      SplitAtFirst(p, sep, seg);
    } else {
      var i := IndexOf(p, sep);
      var a := p[..i];
      var prest := p[i + 1..];
      assert p == a + [sep] + prest;
      assert p + [sep] + seg == a + [sep] + (prest + [sep] + seg);
      SplitAtFirst(a, sep, prest + [sep] + seg);
      SplitAtFirst(a, sep, prest);
      SplitAppendLast(prest, sep, seg);
      calc {
        Split(p + [sep] + seg, sep);
        [a] + Split(prest + [sep] + seg, sep);
        [a] + (Split(prest, sep) + [seg]);
        ([a] + Split(prest, sep)) + [seg];
        Split(p, sep) + [seg];
      }
    }
  }

  /** `s.includes(w)`. */
  predicate Contains(s: string, w: string)
    decreases |s|
  {
    w <= s || (|s| > 0 && Contains(s[1..], w))
  }

  lemma {:induction false} ContainsInMiddle(a: string, w: string, b: string)
    ensures Contains(a + w + b, w)
    decreases |a|
  {
    if |a| > 0 {
      assert (a + w + b)[1..] == a[1..] + w + b;
      ContainsInMiddle(a[1..], w, b);
    } else {
      assert a + w + b == w + b;
    }
  }

  /** The same, with the word inside the second of two pieces. */
  lemma ContainsInSecondPiece(a: string, b: string, w: string, c: string)
    ensures Contains(a + (b + w + c), w)
  {
    assert a + (b + w + c) == (a + b) + w + c;
    ContainsInMiddle(a + b, w, c);
  }

  /** A word holding a character the text lacks never occurs in it. */
  lemma {:induction false} NotContainsMissingChar(s: string, w: string, c: char)
    requires c in w && c !in s
    ensures !Contains(s, w)
    decreases |s|
  {
    if |s| > 0 {
      NotContainsMissingChar(s[1..], w, c);
    }
  }

  /** An occurrence of a word that ends in `c` lies wholly before any
      `c`-free tail. */
  lemma {:induction false} ContainsBeforeFreeTail(x: string, e: string, w: string, c: char)
    requires |w| > 0 && w[|w| - 1] == c && c !in e
    requires Contains(x + e, w)
    ensures Contains(x, w)
    decreases |x|
  {
    if |x| == 0 {
      assert x + e == e;
      NotContainsMissingChar(e, w, c);
    } else if w <= x + e {
      assert w == x[..|w|];
    } else {
      assert (x + e)[1..] == x[1..] + e;
      ContainsBeforeFreeTail(x[1..], e, w, c);
    }
  }

  /** `s.replace(pat, repl)` with a string pattern: only the first occurrence
      is replaced; with no occurrence `s` comes back unchanged. */
  function ReplaceFirst(s: string, pat: string, repl: string): string
    decreases |s|
  {
    if pat <= s then repl + s[|pat|..]
    else if |s| == 0 then s
    else [s[0]] + ReplaceFirst(s[1..], pat, repl)
  }

  /** A pattern at the very start is the occurrence replaced. */
  lemma ReplaceFirstAtStart(pat: string, rest: string, repl: string)
    ensures ReplaceFirst(pat + rest, pat, repl) == repl + rest
  {
    assert pat <= pat + rest;
    assert (pat + rest)[|pat|..] == rest;
  }

  lemma {:induction false} ReplaceFirstAbsent(s: string, pat: string, repl: string)
    requires !Contains(s, pat)
    ensures ReplaceFirst(s, pat, repl) == s
    decreases |s|
  {
    if |s| > 0 {
      ReplaceFirstAbsent(s[1..], pat, repl);
    }
  }

  function DigitChar(d: nat): (c: char)
    requires d < 10
    ensures '0' <= c <= '9'
  {
    ('0' as int + d) as char
  }

  /** The decimal text of `n`, as a template literal renders a non-negative integer. */
  function DecimalString(n: nat): (r: string)
    ensures |r| >= 1
    ensures forall k :: 0 <= k < |r| ==> '0' <= r[k] <= '9'
    decreases n
  {
    if n < 10 then [DigitChar(n)] else DecimalString(n / 10) + [DigitChar(n % 10)]
  }
}
