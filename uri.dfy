/** ECMAScript `encodeURIComponent` over well-formed strings: the unreserved
    characters stay, every other character becomes the `%XX` escapes of its
    UTF-8 bytes, with upper-case hexadecimal digits. */
module UriComponent {
  import Utf8
  import opened Text
  import Seqs

  /** The characters `encodeURIComponent` leaves as they are. */
  predicate IsUnreserved(c: char) {
    ('A' <= c <= 'Z') || ('a' <= c <= 'z') || ('0' <= c <= '9')
    || c == '-' || c == '_' || c == '.' || c == '!' || c == '~' || c == '*' || c == '\'' || c == '(' || c == ')'
  }

  predicate IsUpperHex(c: char) {
    ('0' <= c <= '9') || ('A' <= c <= 'F')
  }

  /** A character that can appear in the output of `encodeURIComponent`. */
  predicate IsEncodedChar(c: char) {
    IsUnreserved(c) || c == '%'
  }

  function HexDigit(d: nat): (c: char)
    requires d < 16
    ensures IsUpperHex(c)
  {
    "0123456789ABCDEF"[d]
  }

  function PercentByte(b: Utf8.Byte): (r: string)
    ensures |r| == 3 && r[0] == '%' && IsUpperHex(r[1]) && IsUpperHex(r[2])
  {
    ['%', HexDigit(b / 16), HexDigit(b % 16)]
  }

  function PercentBytes(bs: seq<Utf8.Byte>): (r: string)
    ensures |r| == 3 * |bs|
    ensures forall i | 0 <= i < |r| :: IsEncodedChar(r[i])
  {
    if bs == [] then "" else PercentByte(bs[0]) + PercentBytes(bs[1..])
  }

  function EncodeChar(c: char): (r: string)
    ensures 1 <= |r|
    ensures IsUnreserved(c) ==> r == [c]
    ensures !IsUnreserved(c) ==> r[0] == '%'
    ensures forall i | 0 <= i < |r| :: IsEncodedChar(r[i])
  {
    if IsUnreserved(c) then [c] else PercentBytes(Utf8.EncodeChar(c))
  }

  /** `encodeURIComponent(s)`. */
  function Encode(s: string): (r: string)
    ensures |s| <= |r|
    ensures forall i | 0 <= i < |r| :: IsEncodedChar(r[i])
    ensures '/' !in r
    ensures (forall i | 0 <= i < |s| :: IsUnreserved(s[i])) ==> r == s
  {
    if s == [] then ""
    else
      var front := s[..|s| - 1];
      var e := Encode(front);
      var t := EncodeChar(s[|s| - 1]);
      EncodeStep(s, e, t);
      e + t
  }

  /** One character more: the encoding of the front, then that of the last
      character, keeps every property of the encoding. */
  lemma EncodeStep(s: string, e: string, t: string)
    requires s != []
    requires |s| - 1 <= |e| && 1 <= |t|
    requires forall i | 0 <= i < |e| :: IsEncodedChar(e[i])
    requires forall i | 0 <= i < |t| :: IsEncodedChar(t[i])
    requires (forall i | 0 <= i < |s| - 1 :: IsUnreserved(s[i])) ==> e == s[..|s| - 1]
    requires IsUnreserved(s[|s| - 1]) ==> t == [s[|s| - 1]]
    ensures |s| <= |e + t|
    ensures forall i | 0 <= i < |e + t| :: IsEncodedChar((e + t)[i])
    ensures '/' !in e + t
    ensures (forall i | 0 <= i < |s| :: IsUnreserved(s[i])) ==> e + t == s
  {
    assert forall i | 0 <= i < |t| :: (e + t)[|e| + i] == t[i];
    if forall i | 0 <= i < |s| :: IsUnreserved(s[i]) {
      assert s == s[..|s| - 1] + [s[|s| - 1]];
    }
  }

  /** `encodeURIComponent("/")` is `"%2F"`. */
  lemma EncodeSlash()
    ensures Encode("/") == "%2F"
  {
    assert "/"[..0] == "";
  }

  /** A key encoded segment by segment: every `/`-piece passed through
      `encodeURIComponent`, joined again with `/` (`encodeKeyPreserveSlash`
      of the catalog worker, the `encoded` key of `joinPublicUrl`). */
  function EncodeKeyPreserveSlash(key: string): string {
    var parts := Split(key, '/');
    Join(EncodeEach(parts), '/')
  }

  function EncodeEach(parts: seq<string>): seq<string> {
    Seqs.Map(parts, Encode)
  }

  /** The result splits at `/` into exactly the encoded segments of the key,
      so it has as many `/` as the key. */
  lemma EncodeKeySegments(key: string)
    ensures Split(EncodeKeyPreserveSlash(key), '/') == EncodeEach(Split(key, '/'))
    ensures Count(EncodeKeyPreserveSlash(key), '/') == Count(key, '/')
  {
    var enc := EncodeEach(Split(key, '/'));
    SplitJoin(enc, '/');
    SplitCount(EncodeKeyPreserveSlash(key), '/');
    SplitCount(key, '/');
  }

  /** A key made only of characters that need no escaping, and `/`, is
      unchanged. */
  lemma EncodeKeyOfPlainKey(key: string)
    requires forall i | 0 <= i < |key| :: key[i] == '/' || IsUnreserved(key[i])
    ensures EncodeKeyPreserveSlash(key) == key
  {
    var parts := Split(key, '/');
    var enc := EncodeEach(parts);
    forall j | 0 <= j < |parts| ensures enc[j] == parts[j] {
      PartsOfPlainKey(parts, '/', j);
    }
    assert enc == parts;
  }

  /** Each piece of a split is free of the separator, so every character of
      a piece is a character of the joined text other than the separator. */
  lemma {:induction false} PartsOfPlainKey(parts: seq<string>, c: char, j: nat)
    requires j < |parts| && |parts| >= 1
    requires forall i | 0 <= i < |Join(parts, c)| :: Join(parts, c)[i] == c || IsUnreserved(Join(parts, c)[i])
    requires forall i | 0 <= i < |parts| :: c !in parts[i]
    ensures Encode(parts[j]) == parts[j]
    decreases |parts|
  {
    var s := Join(parts, c);
    var p := parts[j];
    if |parts| == 1 {
      assert s == p;
    } else {
      var front := parts[..|parts| - 1];
      var head := Join(front, c);
      assert s == head + [c] + parts[|parts| - 1];
      if j == |parts| - 1 {
        forall i | 0 <= i < |p| ensures IsUnreserved(p[i]) {
          assert s[|head| + 1 + i] == p[i];
        }
      } else {
        forall i | 0 <= i < |head| ensures head[i] == c || IsUnreserved(head[i]) {
          assert s[i] == head[i];
        }
        PartsOfPlainKey(front, c, j);
      }
    }
  }
}
