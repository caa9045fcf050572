/** `encodeURIComponent` as ECMAScript defines it for well-formed strings:
    the unreserved characters `A-Z a-z 0-9 - _ . ! ~ * ' ( )` are kept,
    every other character is replaced by the `%XX` escapes (upper-case hex)
    of its UTF-8 bytes. */
module UriEncoding {

  predicate Unreserved(c: char)
  {
    ('A' <= c <= 'Z') || ('a' <= c <= 'z') || ('0' <= c <= '9')
    || c == '-' || c == '_' || c == '.' || c == '!' || c == '~'
    || c == '*' || c == '\'' || c == '(' || c == ')'
  }

  function HexDigit(d: nat): (c: char)
    requires d < 16
    ensures ('0' <= c <= '9') || ('A' <= c <= 'F')
  {
    if d < 10 then ('0' as int + d) as char else ('A' as int + d - 10) as char
  }

  /** The UTF-8 bytes of a code point. */
  function Utf8(cp: nat): (bytes: seq<nat>)
    requires cp < 0x11_0000
    ensures 1 <= |bytes| <= 4
    ensures forall k :: 0 <= k < |bytes| ==> bytes[k] < 256
  {
    if cp < 0x80 then [cp]
    else if cp < 0x800 then [0xC0 + cp / 64, 0x80 + cp % 64]
    else if cp < 0x1_0000 then [0xE0 + cp / 4096, 0x80 + (cp / 64) % 64, 0x80 + cp % 64]
    else [0xF0 + cp / 262144, 0x80 + (cp / 4096) % 64, 0x80 + (cp / 64) % 64, 0x80 + cp % 64]
  }

  function PercentEscapes(bytes: seq<nat>): (r: string)
    requires forall k :: 0 <= k < |bytes| ==> bytes[k] < 256
    ensures |r| == 3 * |bytes|
    ensures forall k :: 0 <= k < |r| ==> r[k] == '%' || ('0' <= r[k] <= '9') || ('A' <= r[k] <= 'F')
  {
    if bytes == [] then ""
    else ['%', HexDigit(bytes[0] / 16), HexDigit(bytes[0] % 16)] + PercentEscapes(bytes[1..])
  }

  function EncodeChar(c: char): string
  {
    if Unreserved(c) then [c] else PercentEscapes(Utf8(c as int))
  }

  /** `encodeURIComponent(s)`: its output never holds a `/`, and it leaves a
      string of unreserved characters as it is. */
  function EncodeURIComponent(s: string): (r: string)
    ensures '/' !in r
    ensures (forall k :: 0 <= k < |s| ==> Unreserved(s[k])) ==> r == s
  {
    if s == "" then "" else EncodeChar(s[0]) + EncodeURIComponent(s[1..])
  }

  /** A path separator inside a component is escaped as `%2F`. */
  lemma SlashEscaped()
    ensures EncodeChar('/') == "%2F"
  {
  }
}
