/** UTF-8 encoding of Unicode scalar values (Dafny characters), as Kotlin's
    `String.toByteArray()` and JavaScript's URI encoding produce it. */
module Utf8 {

  type Byte = b: int | 0 <= b < 256

  /** The UTF-8 bytes of one character. */
  function EncodeChar(c: char): (r: seq<Byte>)
    ensures 1 <= |r| <= 4
    ensures (c as int < 0x80) <==> |r| == 1
    ensures c as int < 0x80 ==> r == [c as int]
    ensures |r| > 1 ==> forall i | 0 <= i < |r| :: r[i] >= 0x80
  {
    var cp := c as int;
    if cp < 0x80 then [cp]
    else if cp < 0x800 then [0xC0 + cp / 64, 0x80 + cp % 64]
    else if cp < 0x10000 then [0xE0 + cp / 4096, 0x80 + (cp / 64) % 64, 0x80 + cp % 64]
    else [0xF0 + cp / 262144, 0x80 + (cp / 4096) % 64, 0x80 + (cp / 64) % 64, 0x80 + cp % 64]
  }

  /** The UTF-8 bytes of a string. */
  function Encode(s: string): (r: seq<Byte>)
    ensures |s| <= |r| <= 4 * |s|
    ensures (forall i | 0 <= i < |s| :: s[i] as int < 0x80) ==> |r| == |s| && forall i | 0 <= i < |s| :: r[i] == s[i] as int
  {
    if s == [] then []
    else
      var front := s[..|s| - 1];
      assert forall i | 0 <= i < |front| :: front[i] == s[i];
      Encode(front) + EncodeChar(s[|s| - 1])
  }

}
