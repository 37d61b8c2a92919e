/** The string operations the text parsers use, on ASCII characters. Both Venus parsers share them. */
module Text {
  import opened Wrappers
  import opened Bytes

  /** `decode("ascii", errors="ignore")`. */
  function AsciiIgnore(b: seq<byte>): string {
    if b == [] then "" else (if b[0] < 0x80 then [b[0] as char] else "") + AsciiIgnore(b[1..])
  }

  /** The ASCII characters that `str.strip()` removes. */
  predicate IsSpace(c: char) {
    9 as char <= c <= 13 as char || 28 as char <= c <= 32 as char
  }

  function StripLeft(s: string, drop: char -> bool): string {
    if s != "" && drop(s[0]) then StripLeft(s[1..], drop) else s
  }

  function StripRight(s: string, drop: char -> bool): string {
    if s != "" && drop(s[|s| - 1]) then StripRight(s[..|s| - 1], drop) else s
  }

  function Strip(s: string): string {
    StripRight(StripLeft(s, IsSpace), IsSpace)
  }

  function StripNul(s: string): string {
    StripRight(StripLeft(s, c => c == 0 as char), c => c == 0 as char)
  }

  /** `s.split(sep, 1)` if sep occurs in s. */
  function SplitOnce(s: string, sep: char): Option<(string, string)> {
    if s == "" then None
    else if s[0] == sep then Some(("", s[1..]))
    else
      match SplitOnce(s[1..], sep)
      case None => None
      case Some(kv) => Some(([s[0]] + kv.0, kv.1))
  }

  /** `s.split(sep)`: never empty. */
  function Split(s: string, sep: char): (r: seq<string>)
    ensures 0 < |r|
    decreases |s|
  {
    if s == "" then [""]
    else
      var rest := Split(s[1..], sep);
      if s[0] == sep then [""] + rest else [[s[0]] + rest[0]] + rest[1..]
  }

  function Decimal(n: nat): string {
    if n < 10 then [(n + 48) as char] else Decimal(n / 10) + [(n % 10 + 48) as char]
  }
}
