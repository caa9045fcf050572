/** The string and path helpers of `src/utils/index.ts` (and the identical
    `replaceAllSpacesByUnderlines` copy in `src/utils/utils.ts`). */
module Utils {
  import opened Text

  /** `replaceAllSpacesByUnderlines(text, lowerCase)`: every space becomes an
      underscore. The `lowerCase` flag only calls `toLowerCase()` and throws
      the result away, so it has no effect. */
  function ReplaceAllSpacesByUnderlines(text: string, lowerCase: bool): (r: string)
    ensures |r| == |text|
    ensures forall k :: 0 <= k < |text| ==> r[k] == (if text[k] == ' ' then '_' else text[k])
  {
    if text == "" then ""
    else [if text[0] == ' ' then '_' else text[0]] + ReplaceAllSpacesByUnderlines(text[1..], lowerCase)
  }

  /** No space survives, and nothing but spaces is changed. */
  lemma NoSpacesLeft(text: string, lowerCase: bool)
    ensures ' ' !in ReplaceAllSpacesByUnderlines(text, lowerCase)
    ensures ' ' !in text ==> ReplaceAllSpacesByUnderlines(text, lowerCase) == text
  {
  }

  lemma ReplaceSpacesIdempotent(text: string, lowerCase: bool)
    ensures var once := ReplaceAllSpacesByUnderlines(text, lowerCase);
            ReplaceAllSpacesByUnderlines(once, lowerCase) == once
  {
    NoSpacesLeft(ReplaceAllSpacesByUnderlines(text, lowerCase), lowerCase);
  }

  lemma LowerCaseFlagIgnored(text: string)
    ensures ReplaceAllSpacesByUnderlines(text, true) == ReplaceAllSpacesByUnderlines(text, false)
  {
  }

  /** `toLowerCase()` on one character, for the ASCII capitals. */
  function LowerChar(c: char): (r: char)
    ensures !('A' <= r <= 'Z')
    ensures ('A' <= c <= 'Z') || r == c
  {
    if 'A' <= c <= 'Z' then (c as int + 32) as char else c
  }

  /** The helper with the lower-cased text kept, as its flag evidently
      intends: spaces become underscores and, with the flag, capitals
      become small letters. */
  function ReplaceAllSpacesByUnderlinesLowered(text: string, lowerCase: bool): (r: string)
    ensures |r| == |text|
    ensures ' ' !in r
    ensures lowerCase ==> forall k :: 0 <= k < |r| ==> !('A' <= r[k] <= 'Z')
    ensures !lowerCase ==> r == ReplaceAllSpacesByUnderlines(text, false)
  {
    var result := ReplaceAllSpacesByUnderlines(text, lowerCase);
    NoSpacesLeft(text, lowerCase);
    if lowerCase then seq(|result|, k requires 0 <= k < |result| => LowerChar(result[k])) else result
  }

  /** On a text without capitals the flag changes nothing, so the code as
      written and the corrected helper agree there and only there. */
  lemma LoweringDiffersOnlyOnCapitals(text: string)
    ensures ReplaceAllSpacesByUnderlinesLowered(text, true) == ReplaceAllSpacesByUnderlines(text, true)
            <==> forall k :: 0 <= k < |text| ==> !('A' <= text[k] <= 'Z')
  {
    var written := ReplaceAllSpacesByUnderlines(text, true);
    var lowered := ReplaceAllSpacesByUnderlinesLowered(text, true);
    if forall k :: 0 <= k < |text| ==> !('A' <= text[k] <= 'Z') {
      assert forall k :: 0 <= k < |text| ==> lowered[k] == written[k];
    } else {
      var k :| 0 <= k < |text| && 'A' <= text[k] <= 'Z';
      assert written[k] == text[k];
      assert lowered[k] != written[k];
    }
  }

  /** The value of the `k`-th name of a destructuring `[a, b] = parts`:
      the part if there is one, else `undefined`, which a template literal
      writes as the text "undefined". */
  function DestructuredText(parts: seq<string>, k: nat): string
  {
    if k < |parts| then parts[k] else "undefined"
  }

  /** `<first dot-part>_<N>x<N>.<second dot-part>` of one path segment. */
  function ThumbnailName(segment: string, thumbSize: nat): string
  {
    var dotParts := Split(segment, '.');
    var size := DecimalString(thumbSize);
    dotParts[0] + "_" + size + "x" + size + "." + DestructuredText(dotParts, 1)
  }

  /** The text after the last `/`, or the whole text when it has none. */
  function LastSegment(path: string): string
  {
    var parts := Split(path, '/');
    parts[|parts| - 1]
  }

  /** The directory part of a path: everything up to and including its
      last `/`, or "/" when it has none. */
  function Directory(path: string): string
  {
    var parts := Split(path, '/');
    if |parts| > 1 then Join(parts[..|parts| - 1], '/') + "/" else "/"
  }

  /** A path with a `/` is its directory followed by its last segment; a
      path without one is its own last segment, under the directory "/". */
  lemma PathIsDirectoryAndSegment(path: string)
    ensures '/' in path ==> path == Directory(path) + LastSegment(path)
    ensures '/' !in path ==> Directory(path) == "/" && LastSegment(path) == path
  {
    var parts := Split(path, '/');
    if '/' in path {
      PathWithSlashShape(path, parts);
      var front := Join(parts[..|parts| - 1], '/');
      assert Directory(path) == front + "/";
      assert LastSegment(path) == parts[|parts| - 1];
      assert path == (front + "/") + parts[|parts| - 1];
    } else {
      PathWithoutSlashShape(path);
      assert parts == [path];
    }
  }

  /** `getImageThumbnail(imagePathAndName, thumbSize)`: the directory is
      kept (a missing `/` is supplied) and the last segment is replaced by
      its thumbnail name. */
  function GetImageThumbnail(imagePathAndName: string, thumbSize: nat): (r: string)
    ensures r == Directory(imagePathAndName) + ThumbnailName(LastSegment(imagePathAndName), thumbSize)
  {
    var splitPath := Split(imagePathAndName, '/');
    var n := |splitPath|;
    Join(splitPath[..n - 1], '/') + "/" + ThumbnailName(splitPath[n - 1], thumbSize)
  }

  /** A path holding a `/` is the join of all but its last segment, a `/`,
      and that segment. */
  lemma PathWithSlashShape(path: string, parts: seq<string>)
    requires '/' in path && parts == Split(path, '/')
    ensures |parts| > 1
    ensures path == Join(parts[..|parts| - 1], '/') + "/" + parts[|parts| - 1]
  {
    SplitAtSeparatorHasTwo(path, '/');
    var front := parts[..|parts| - 1];
    var seg := parts[|parts| - 1];
    assert parts == front + [seg];
    JoinSnoc(front, seg, '/');
    JoinSplit(path, '/');
  }

  /** A path without `/` is its only segment. */
  lemma PathWithoutSlashShape(path: string)
    requires '/' !in path
    ensures Split(path, '/') == [path]
  {
  }

  /** Everything before the last `/` is kept verbatim; only the last segment
      is rewritten. */
  lemma {:induction false} ThumbnailKeepsDirectory(dir: string, segment: string, thumbSize: nat)
    requires '/' !in segment
    ensures GetImageThumbnail(dir + "/" + segment, thumbSize) == dir + "/" + ThumbnailName(segment, thumbSize)
  {
    SplitAppendLast(dir, '/', segment);
    var splitPath := Split(dir + "/" + segment, '/');
    assert splitPath[..|splitPath| - 1] == Split(dir, '/');
    JoinSplit(dir, '/');
  }

  /** The same, for a path below any fixed prefix. */
  lemma ThumbnailUnderPrefix(root: string, dir: string, segment: string, thumbSize: nat)
    requires '/' !in segment
    ensures GetImageThumbnail(root + (dir + "/" + segment), thumbSize)
            == root + (dir + "/" + ThumbnailName(segment, thumbSize))
  {
    var thumb := ThumbnailName(segment, thumbSize);
    var path := root + (dir + "/" + segment);
    calc {
      GetImageThumbnail(path, thumbSize);
      { assert path == (root + dir) + "/" + segment;
        ThumbnailKeepsDirectory(root + dir, segment, thumbSize); }
      (root + dir) + "/" + thumb;
      root + (dir + "/" + thumb);
    }
  }

  /** A name with no `/` gets an empty directory: the result begins with `/`. */
  lemma ThumbnailOfBareName(name: string, thumbSize: nat)
    requires '/' !in name
    ensures GetImageThumbnail(name, thumbSize) == "/" + ThumbnailName(name, thumbSize)
  {
  }

  /** A dot-free piece followed by nothing or by a dot is the first
      dot-part of the text. */
  lemma FirstDotPart(ext: string, tail: string)
    requires '.' !in ext
    requires tail == "" || tail[0] == '.'
    ensures Split(ext + tail, '.')[0] == ext
  {
    if tail == "" {
      assert ext + tail == ext;
    } else {
      assert ext + tail == ext + ['.'] + tail[1..];
      SplitAtFirst(ext, '.', tail[1..]);
    }
  }

  /** The first two dot-parts of `stem.ext<tail>`, whatever dot-parts the
      tail holds. */
  lemma DotParts(stem: string, ext: string, tail: string)
    requires '.' !in stem && '.' !in ext
    requires tail == "" || tail[0] == '.'
    ensures Split(stem + "." + ext + tail, '.')[0] == stem
    ensures DestructuredText(Split(stem + "." + ext + tail, '.'), 1) == ext
  {
    var rest := ext + tail;
    assert stem + "." + ext + tail == stem + ['.'] + rest;
    SplitAtFirst(stem, '.', rest);
    FirstDotPart(ext, tail);
  }

  /** The new segment is the first dot-part, the size marker and the second
      dot-part; dot-parts after the second are dropped. */
  lemma ThumbnailNameOfDottedSegment(stem: string, ext: string, tail: string, thumbSize: nat)
    requires '.' !in stem && '.' !in ext
    requires tail == "" || tail[0] == '.'
    ensures var size := DecimalString(thumbSize);
            ThumbnailName(stem + "." + ext + tail, thumbSize) == stem + "_" + size + "x" + size + "." + ext
  {
    DotParts(stem, ext, tail);
  }

  /** A segment with no `.` yields the extension text "undefined". */
  lemma ThumbnailNameOfUndottedSegment(segment: string, thumbSize: nat)
    requires '.' !in segment
    ensures var size := DecimalString(thumbSize);
            ThumbnailName(segment, thumbSize) == segment + "_" + size + "x" + size + ".undefined"
  {
  }

  /** Every thumbnail of size 200 carries the `_200x200` marker that the
      image listing uses to skip thumbnails. */
  lemma DecimalTwoHundred()
    ensures DecimalString(200) == "200"
  {
    assert DecimalString(2) == "2";
    assert DecimalString(20) == "20";
  }

  /** Every size-200 segment name is its first dot-part, the marker and the
      rest. */
  lemma ThumbnailNameMarker(segment: string)
    ensures ThumbnailName(segment, 200)
            == Split(segment, '.')[0] + "_200x200" + ("." + DestructuredText(Split(segment, '.'), 1))
  {
    DecimalTwoHundred();
  }

  /** Every thumbnail of size 200 carries the `_200x200` marker that the
      image listing uses to skip thumbnails. */
  lemma ThumbnailCarriesMarker(imagePathAndName: string)
    ensures Contains(GetImageThumbnail(imagePathAndName, 200), "_200x200")
  {
    var splitPath := Split(imagePathAndName, '/');
    var n := |splitPath|;
    var segment := splitPath[n - 1];
    var dir := Join(splitPath[..n - 1], '/') + "/";
    assert GetImageThumbnail(imagePathAndName, 200) == dir + ThumbnailName(segment, 200);
    ThumbnailNameMarker(segment);
    ContainsInSecondPiece(dir, Split(segment, '.')[0], "_200x200", "." + DestructuredText(Split(segment, '.'), 1));
  }
}
