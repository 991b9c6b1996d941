/** The older catalog worker (app/src/worker.js): `/catalog` lists both
    buckets with the same limit, joins them on the extension-less file name
    of the keys, and returns the songs sorted by title; every other path is
    404.  The bucket listings and the collation behind `localeCompare` are
    parameters. */
module SongsWorker {
  import opened Wrappers
  import opened Text
  import UriComponent
  import opened Http
  import JsString
  import Seqs
  import Sorting

  const DefaultLimit := 500
  const MaxLimit := 1000

  datatype Env = Env(melodyPublicBase: string, midiPublicBase: string)

  datatype SongEntry = SongEntry(title: string, melodyUrl: string, midiUrl: string)

  /** `Response.json({ songs })`, or the text `Not Found`. */
  datatype Body = Songs(songs: seq<SongEntry>) | Text(text: string)

  const JsonHeaders := [("content-type", "application/json")]

  // ---------------------------------------------------------------------
  // Key helpers

  /** `lastName`: the last `/`-piece, or the whole key when that piece is
      empty. */
  function LastName(key: string): string {
    var p := Split(key, '/');
    if p[|p| - 1] != "" then p[|p| - 1] else key
  }

  /** The name is the text after the last `/` unless that is empty, in which
      case (a key ending in `/`, or the empty key) the key itself is kept. */
  lemma LastNameShape(key: string)
    ensures SubstringAfterLast(key, '/') != "" ==> LastName(key) == SubstringAfterLast(key, '/') && '/' !in LastName(key)
    ensures SubstringAfterLast(key, '/') == "" ==> LastName(key) == key
    ensures '/' !in key ==> LastName(key) == key
  {
  }

  /** `stripExt`: cut at the last `.` only when it is not the first
      character. */
  function StripExt(name: string): string {
    var i := LastIndexOf(name, '.');
    if i > 0 then name[..i] else name
  }

  /** `name.ext` is `name` for a non-empty name (which may hold dots) and a
      dot-free extension (which may be empty); a dot-free name and a name
      whose only dot comes first, such as `.mid`, are unchanged. */
  lemma StripExtShape(name: string, ext: string)
    requires name != [] && '.' !in ext
    ensures StripExt(name + "." + ext) == name
    ensures '.' !in ext ==> StripExt(ext) == ext
    ensures StripExt("." + ext) == "." + ext
  {
    assert name + "." + ext == name + ['.'] + ext;
    LastIndexOfSplit(name, '.', ext);
    assert "." + ext == [] + ['.'] + ext;
    LastIndexOfSplit([], '.', ext);
    assert LastIndexOf(ext, '.') < 0;
  }

  /** The join key of an object: its extension-less file name. */
  function BaseOf(key: string): string {
    StripExt(LastName(key))
  }

  function CleanBase(base: string): string {
    if EndsWith(base, "/") then base[..|base| - 1] else base
  }

  /** `joinPublicUrl`: the base without one trailing `/`, a `/`, and the key
      encoded segment by segment. */
  function JoinPublicUrl(base: string, key: string): string {
    CleanBase(base) + "/" + UriComponent.EncodeKeyPreserveSlash(key)
  }

  /** With or without its own trailing slash, a base followed by the key
      gives the same URL, and exactly one `/` then separates a base that does
      not end in `/` from the encoded key. */
  lemma JoinPublicUrlShape(base: string, key: string)
    requires !EndsWith(base, "/")
    ensures JoinPublicUrl(base + "/", key) == JoinPublicUrl(base, key)
    ensures JoinPublicUrl(base, key) == base + "/" + UriComponent.EncodeKeyPreserveSlash(key)
  {
    assert EndsWith(base + "/", "/");
    assert (base + "/")[..|base|] == base;
  }

  // ---------------------------------------------------------------------
  // The limit rule

  /** `Math.min(parseInt(limit || "500", 10), 1000)`: `None` is `NaN`, which
      `Math.min` passes on. */
  function Limit(param: Option<string>): Option<int> {
    var p := JsString.ParseInt(OrDefault(param, "500"));
    if p.None? then None else Some(if p.value <= MaxLimit then p.value else MaxLimit)
  }

  lemma DefaultLimitText()
    ensures JsString.ParseInt("500") == Some(DefaultLimit)
  {
    assert NatToString(500) == "500" by {
      assert NatToString(5) == "5";
      assert NatToString(50) == "50";
    }
    JsString.ParseIntOfNatToString(500);
  }

  /** A missing or empty limit is 500; a number limit is never above 1000,
      and a decimal one up to 1000 is taken as it is. */
  lemma LimitRule(param: Option<string>)
    ensures param.None? || param == Some("") ==> Limit(param) == Some(DefaultLimit)
    ensures Limit(param).Some? ==> Limit(param).value <= MaxLimit
    ensures Limit(param).None? <==> JsString.ParseInt(OrDefault(param, "500")).None?
  {
    DefaultLimitText();
  }

  lemma LimitOfDecimal(n: int)
    ensures Limit(Some(IntToString(n))) == Some(if n <= MaxLimit then n else MaxLimit)
  {
    JsString.ParseIntOfIntToString(n);
  }

  // ---------------------------------------------------------------------
  // The join

  function Identity(k: string): string { k }

  /** The melody map: each melody key under its base, later keys winning. */
  function MelodyMap(keys: seq<string>): map<string, string> {
    Seqs.LastWins(keys, BaseOf, Identity)
  }

  /** A base is in the melody map exactly when some melody key has it, and
      it maps to the last such key. */
  lemma MelodyMapLastWins(keys: seq<string>)
    ensures forall b :: b in MelodyMap(keys) <==> exists j | 0 <= j < |keys| :: BaseOf(keys[j]) == b
    ensures forall b | b in MelodyMap(keys) ::
              exists j | 0 <= j < |keys| :: && BaseOf(keys[j]) == b && MelodyMap(keys)[b] == keys[j]
                                            && forall k | j < k < |keys| :: BaseOf(keys[k]) != b
  {
    Seqs.LastWinsShape(keys, BaseOf, Identity);
  }

  /** The song a MIDI key gives, if a non-empty melody key shares its base. */
  function SongFor(key: string, melodyMap: map<string, string>, env: Env): Option<SongEntry> {
    var base := BaseOf(key);
    if base in melodyMap && melodyMap[base] != "" then
      Some(SongEntry(base, JoinPublicUrl(env.melodyPublicBase, melodyMap[base]), JoinPublicUrl(env.midiPublicBase, key)))
    else None
  }

  function SongOf(melodyMap: map<string, string>, env: Env): string -> Option<SongEntry> {
    k => SongFor(k, melodyMap, env)
  }

  /** The songs the second loop pushes, in MIDI order. */
  function Unsorted(midiKeys: seq<string>, melodyMap: map<string, string>, env: Env): seq<SongEntry> {
    Seqs.FilterMap(midiKeys, SongOf(melodyMap, env))
  }

  /** `localeCompare(a.title, b.title) <= 0`, for a collation `le`. */
  function ByTitle(le: (string, string) -> bool): (SongEntry, SongEntry) -> bool {
    (a: SongEntry, b: SongEntry) => le(a.title, b.title)
  }

  lemma ByTitleIsTotalPreorder(le: (string, string) -> bool)
    requires Sorting.IsTotalPreorder(le)
    ensures Sorting.IsTotalPreorder(ByTitle(le))
  {
    var f := ByTitle(le);
    forall x: SongEntry, y: SongEntry, z: SongEntry | f(x, y) && f(y, z) ensures f(x, z) {
      assert le(x.title, y.title) && le(y.title, z.title);
    }
    forall x: SongEntry, y: SongEntry ensures f(x, y) || f(y, x) {
      assert le(x.title, y.title) || le(y.title, x.title);
    }
  }

  /** The songs of a melody listing and a MIDI listing, sorted by title. */
  function SongsOf(melodyKeys: seq<string>, midiKeys: seq<string>, env: Env, le: (string, string) -> bool): seq<SongEntry>
    requires Sorting.IsTotalPreorder(le)
  {
    ByTitleIsTotalPreorder(le);
    Sorting.SortBy(Unsorted(midiKeys, MelodyMap(melodyKeys), env), ByTitle(le))
  }

  /** Every song comes from a MIDI key whose base some non-empty melody key
      shares; the melody URL is that of the last such melody key; every such
      MIDI key gives a song; and the songs are in title order, those with
      equal titles in the order of their MIDI keys. */
  lemma SongsShape(melodyKeys: seq<string>, midiKeys: seq<string>, env: Env, le: (string, string) -> bool)
    requires Sorting.IsTotalPreorder(le)
    ensures var songs := SongsOf(melodyKeys, midiKeys, env, le);
            var mm := MelodyMap(melodyKeys);
            && |songs| <= |midiKeys|
            && Sorting.IsSorted(songs, ByTitle(le))
            && (forall z :: Sorting.Equivalents(songs, ByTitle(le), z)
                              == Sorting.Equivalents(Unsorted(midiKeys, mm, env), ByTitle(le), z))
            && (forall s | s in songs :: exists i | 0 <= i < |midiKeys| :: SongFor(midiKeys[i], mm, env) == Some(s))
            && (forall i | 0 <= i < |midiKeys| && SongFor(midiKeys[i], mm, env).Some? ::
                  SongFor(midiKeys[i], mm, env).value in songs)
  {
    ByTitleIsTotalPreorder(le);
    var mm := MelodyMap(melodyKeys);
    var u := Unsorted(midiKeys, mm, env);
    Seqs.FilterMapShape(midiKeys, SongOf(mm, env));
    var songs := SongsOf(melodyKeys, midiKeys, env, le);
    Sorting.SortByStable(u, ByTitle(le));
    assert multiset(songs) == multiset(u);
    forall s | s in songs ensures s in u {
      assert s in multiset(songs);
    }
    forall s | s in u ensures s in songs {
      assert s in multiset(u);
    }
  }

  // ---------------------------------------------------------------------
  // The handler

  /** The worker's answer; `melodyList` and `midiList` are the two buckets'
      `list({ limit })` calls and `le` is the collation. */
  function Answer(req: Request, env: Env, melodyList: Option<int> -> seq<string>, midiList: Option<int> -> seq<string>,
                  le: (string, string) -> bool): Response<Body>
    requires Sorting.IsTotalPreorder(le)
  {
    if req.path == "/catalog" then
      var limit := Limit(QueryGet(req.query, "limit"));
      Response(200, JsonHeaders, Songs(SongsOf(melodyList(limit), midiList(limit), env, le)))
    else Response(404, [], Text("Not Found"))
  }

  /** `/catalog` gets the sorted song list of the two listings taken with
      the same limit, whatever the method; any other path gets 404. */
  lemma Routing(req: Request, env: Env, melodyList: Option<int> -> seq<string>, midiList: Option<int> -> seq<string>,
                le: (string, string) -> bool)
    requires Sorting.IsTotalPreorder(le)
    ensures var r := Answer(req, env, melodyList, midiList, le);
            && (req.path == "/catalog" <==> r.status == 200)
            && (r.status == 200 ==> r.body.Songs? && Sorting.IsSorted(r.body.songs, ByTitle(le)))
            && (req.path != "/catalog" <==> r == Response(404, [], Text("Not Found")))
  {
    if req.path == "/catalog" {
      var limit := Limit(QueryGet(req.query, "limit"));
      SongsShape(melodyList(limit), midiList(limit), env, le);
    }
  }

  /** The first loop: `melodyMap.set(base, key)`. */
  method BuildMelodyMap(keys: seq<string>) returns (m: map<string, string>)
    ensures m == MelodyMap(keys)
  {
    m := map[];
    for i := 0 to |keys|
      invariant m == MelodyMap(keys[..i])
    {
      assert keys[..i + 1][..i] == keys[..i];
      m := m[BaseOf(keys[i]) := keys[i]];
    }
    assert keys[..|keys|] == keys;
  }

  /** The second loop: `songs.push` for each MIDI key with a melody. */
  method BuildSongs(keys: seq<string>, melodyMap: map<string, string>, env: Env) returns (songs: seq<SongEntry>)
    ensures songs == Unsorted(keys, melodyMap, env)
  {
    songs := [];
    for i := 0 to |keys|
      invariant songs == Unsorted(keys[..i], melodyMap, env)
    {
      assert keys[..i + 1][..i] == keys[..i];
      var base := BaseOf(keys[i]);
      if base !in melodyMap || melodyMap[base] == "" {
        continue;
      }
      var melodyKey := melodyMap[base];
      songs := songs + [SongEntry(base, JoinPublicUrl(env.melodyPublicBase, melodyKey), JoinPublicUrl(env.midiPublicBase, keys[i]))];
    }
    assert keys[..|keys|] == keys;
  }

  /** The `fetch` handler. */
  method Fetch(req: Request, env: Env, melodyList: Option<int> -> seq<string>, midiList: Option<int> -> seq<string>,
               le: (string, string) -> bool)
    returns (r: Response<Body>)
    requires Sorting.IsTotalPreorder(le)
    ensures r == Answer(req, env, melodyList, midiList, le)
  {
    if req.path == "/catalog" {
      var limit := Limit(QueryGet(req.query, "limit"));
      var mel := melodyList(limit);
      var mid := midiList(limit);
      var melodyMap := BuildMelodyMap(mel);
      var songs := BuildSongs(mid, melodyMap, env);
      ByTitleIsTotalPreorder(le);
      songs := Sorting.SortBy(songs, ByTitle(le));
      return Response(200, JsonHeaders, Songs(songs));
    }
    return Response(404, [], Text("Not Found"));
  }
}
