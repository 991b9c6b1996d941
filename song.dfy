/** The song record shared by search, catalog and favourites (Song.kt), and
    its id: the lower-case hex rendering of the SHA-1 digest of
    `melodyUrl|midiUrl`.  SHA-1 itself is a parameter. */
module SongModel {
  import Utf8

  /** A Kotlin `Byte`: signed, -128 .. 127. */
  type SByte = b: int | -128 <= b < 128

  datatype Song = Song(id: string, title: string, melodyUrl: string, midiUrl: string, queryTitle: string)

  /** The constructor call without `queryTitle`: it defaults to the title. */
  function NewSong(id: string, title: string, melodyUrl: string, midiUrl: string): Song {
    Song(id, title, melodyUrl, midiUrl, title)
  }

  predicate IsLowerHex(c: char) {
    ('0' <= c <= '9') || ('a' <= c <= 'f')
  }

  function HexLower(d: nat): (c: char)
    requires d < 16
    ensures IsLowerHex(c)
  {
    "0123456789abcdef"[d]
  }

  function HexValue(c: char): (d: nat)
    requires IsLowerHex(c)
    ensures d < 16
  {
    if c <= '9' then c as int - '0' as int else c as int - 'a' as int + 10
  }

  lemma HexRoundTrip(d: nat)
    requires d < 16
    ensures HexValue(HexLower(d)) == d
  {
  }

  /** `"%02x".format(b)`: a negative byte is printed as b + 256. */
  function HexByte(b: SByte): (r: string)
    ensures |r| == 2 && IsLowerHex(r[0]) && IsLowerHex(r[1])
  {
    var u := (b as int) % 256;
    [HexLower(u / 16), HexLower(u % 16)]
  }

  /** The digest bytes rendered back to back. */
  function Hex(bytes: seq<SByte>): (r: string)
    ensures |r| == 2 * |bytes|
    ensures forall i | 0 <= i < |r| :: IsLowerHex(r[i])
  {
    if bytes == [] then "" else HexByte(bytes[0]) + Hex(bytes[1..])
  }

  /** Reads two hex characters back as a signed byte. */
  function UnhexByte(hi: char, lo: char): SByte
    requires IsLowerHex(hi) && IsLowerHex(lo)
  {
    var u := 16 * HexValue(hi) + HexValue(lo);
    if u >= 128 then u - 256 else u
  }

  function Unhex(s: string): seq<SByte>
    requires |s| % 2 == 0 && forall i | 0 <= i < |s| :: IsLowerHex(s[i])
  {
    if s == [] then [] else [UnhexByte(s[0], s[1])] + Unhex(s[2..])
  }

  lemma UnhexHexByte(b: SByte)
    ensures UnhexByte(HexByte(b)[0], HexByte(b)[1]) == b
  {
    HexRoundTrip(((b as int) % 256) / 16);
    HexRoundTrip(((b as int) % 256) % 16);
  }

  /** Reading the id back gives the digest: the rendering loses nothing. */
  lemma {:induction false} UnhexHex(bytes: seq<SByte>)
    ensures Unhex(Hex(bytes)) == bytes
  {
    if bytes != [] {
      var r := Hex(bytes);
      UnhexHexByte(bytes[0]);
      assert r[2..] == Hex(bytes[1..]);
      UnhexHex(bytes[1..]);
    }
  }

  /** Distinct digests give distinct ids. */
  lemma HexInjective(a: seq<SByte>, b: seq<SByte>)
    requires Hex(a) == Hex(b)
    ensures a == b
  {
    UnhexHex(a);
    UnhexHex(b);
  }

  /** The text that is hashed: the two URLs joined by `|`. */
  function IdSource(melodyUrl: string, midiUrl: string): string {
    melodyUrl + "|" + midiUrl
  }

  /** `Song.makeId`: hex of SHA-1 over the UTF-8 bytes of `melodyUrl|midiUrl`. */
  function MakeId(melodyUrl: string, midiUrl: string, sha1: seq<Utf8.Byte> -> seq<SByte>): (id: string)
  {
    Hex(sha1(Utf8.Encode(IdSource(melodyUrl, midiUrl))))
  }

  /** The id is lower-case hex, two characters per digest byte (40 for a
      20-byte SHA-1 digest), and it reads back as the digest. */
  lemma MakeIdShape(melodyUrl: string, midiUrl: string, sha1: seq<Utf8.Byte> -> seq<SByte>)
    ensures var digest := sha1(Utf8.Encode(IdSource(melodyUrl, midiUrl)));
            var id := MakeId(melodyUrl, midiUrl, sha1);
            && |id| == 2 * |digest|
            && (forall i | 0 <= i < |id| :: IsLowerHex(id[i]))
            && Unhex(id) == digest
  {
    UnhexHex(sha1(Utf8.Encode(IdSource(melodyUrl, midiUrl))));
  }

  /** Two pairs of URLs share an id exactly when their digests agree. */
  lemma MakeIdDigest(m1: string, x1: string, m2: string, x2: string, sha1: seq<Utf8.Byte> -> seq<SByte>)
    ensures MakeId(m1, x1, sha1) == MakeId(m2, x2, sha1)
            <==> sha1(Utf8.Encode(IdSource(m1, x1))) == sha1(Utf8.Encode(IdSource(m2, x2)))
  {
    if MakeId(m1, x1, sha1) == MakeId(m2, x2, sha1) {
      HexInjective(sha1(Utf8.Encode(IdSource(m1, x1))), sha1(Utf8.Encode(IdSource(m2, x2))));
    }
  }
}
