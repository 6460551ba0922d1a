/** Python's strings: sequences of code points, lone surrogates included. */
module PythonText {
  type CodePoint = c: int | 0 <= c < 0x110000

  type Text = seq<CodePoint>

  predicate IsSurrogate(c: CodePoint) {
    0xD800 <= c < 0xE000
  }

  /** What `encode("utf-8", errors="strict")` accepts. */
  predicate IsUnicode(t: Text) {
    forall i | 0 <= i < |t| :: !IsSurrogate(t[i])
  }

  /** UTF-8 of one code point (section 3 of RFC 3629). */
  function EncodePoint(c: CodePoint): seq<int> {
    if c < 0x80 then [c]
    else if c < 0x800 then [0xC0 + c / 0x40, 0x80 + c % 0x40]
    else if c < 0x1_0000 then [0xE0 + c / 0x40 / 0x40, 0x80 + c / 0x40 % 0x40, 0x80 + c % 0x40]
    else [0xF0 + c / 0x40 / 0x40 / 0x40, 0x80 + c / 0x40 / 0x40 % 0x40, 0x80 + c / 0x40 % 0x40, 0x80 + c % 0x40]
  }

  function Utf8(t: Text): seq<int> {
    if t == [] then [] else EncodePoint(t[0]) + Utf8(t[1..])
  }
}
