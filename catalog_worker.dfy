/** The catalog worker (app/src/index.ts): it answers CORS preflights,
    serves `/catalog` by joining one page of the melody bucket with the MIDI
    bucket on the base title of the object keys, and answers everything
    else with 404.  The two bucket listings are parameters. */
module CatalogWorker {
  import opened Wrappers
  import opened Text
  import UriComponent
  import opened Http
  import JsString
  import Seqs

  const DefaultLimit := 200
  const MaxLimit := 1000

  /** The public base URLs of the two buckets. */
  datatype Env = Env(melodyPublicBase: string, midiPublicBase: string)

  /** One page of a bucket listing: the object keys, in listing order. */
  datatype Listing = Listing(keys: seq<string>, truncated: bool, cursor: Option<string>)

  datatype MidiRef = MidiRef(key: string, url: string)
  datatype Item = Item(title: string, key: string, melodyUrl: string, midiUrl: string)

  /** What the worker sends back: nothing (preflight), the catalog JSON, or
      the text `Not found`. */
  datatype Body = NoBody | Catalog(items: seq<Item>, truncated: bool, cursor: Option<string>) | Text(text: string)

  const PreflightHeaders := [("access-control-allow-origin", "*"),
                             ("access-control-allow-methods", "GET,OPTIONS"),
                             ("access-control-allow-headers", "content-type")]
  const JsonHeaders := [("content-type", "application/json; charset=utf-8"),
                        ("access-control-allow-origin", "*"),
                        ("cache-control", "public, max-age=30")]

  // ---------------------------------------------------------------------
  // Key helpers

  /** `last.replace(/\.[^.]+$/, "")`: a final dot followed by at least one
      character is cut off together with that suffix. */
  function StripExtension(last: string): string {
    var i := LastIndexOf(last, '.');
    if 0 <= i < |last| - 1 then last[..i] else last
  }

  /** `baseTitleFromKey`: the last `/`-segment without its extension (the
      last piece of `Split(key, '/')`, which is the text after the last `/`). */
  function BaseTitleFromKey(key: string): string {
    StripExtension(SubstringAfterLast(key, '/'))
  }

  /** A key `dir/name.ext` with a non-empty, dot-free extension has base
      title `name`; the name may itself contain dots, or be empty. */
  lemma BaseTitleOfPathKey(dir: string, name: string, ext: string)
    requires '/' !in name && '/' !in ext && '.' !in ext && ext != []
    ensures BaseTitleFromKey(dir + "/" + name + "." + ext) == name
    ensures BaseTitleFromKey(name + "." + ext) == name
  {
    var last := name + "." + ext;
    assert dir + "/" + name + "." + ext == dir + ['/'] + last;
    assert '/' !in last;
    SubstringAfterLastSplit(dir, '/', last);
    assert name + "." + ext == name + ['.'] + ext;
    LastIndexOfSplit(name, '.', ext);
    assert last[..|name|] == name;
  }

  /** A last segment with no dot, or whose only dot is its final character,
      is kept whole. */
  lemma BaseTitleKeepsBareName(dir: string, name: string)
    requires '/' !in name
    requires '.' !in name || LastIndexOf(name, '.') == |name| - 1
    ensures BaseTitleFromKey(dir + "/" + name) == name
    ensures '.' !in name ==> BaseTitleFromKey(name) == name
  {
    assert dir + "/" + name == dir + ['/'] + name;
    SubstringAfterLastSplit(dir, '/', name);
  }

  /** The base title never contains `/` and is a prefix of the last segment. */
  lemma BaseTitleShape(key: string)
    ensures var last := SubstringAfterLast(key, '/');
            var t := BaseTitleFromKey(key);
            '/' !in t && |t| <= |last| && t == last[..|t|]
  {
  }

  /** `urlJoin`: the base, a `/` unless it already ends with one, and the
      encoded key. */
  function UrlJoin(base: string, key: string): string {
    var b := if EndsWith(base, "/") then base else base + "/";
    b + UriComponent.EncodeKeyPreserveSlash(key)
  }

  /** The URL starts with the base, has exactly one `/` between the base
      (without a trailing slash of its own) and the encoded key, and a base
      written without its trailing slash gives the same URL as the base with
      it. */
  lemma UrlJoinShape(base: string, key: string)
    ensures var b := UrlJoin(base, key)[..|UrlJoin(base, key)| - |UriComponent.EncodeKeyPreserveSlash(key)|];
            && |UriComponent.EncodeKeyPreserveSlash(key)| <= |UrlJoin(base, key)|
            && UrlJoin(base, key) == b + UriComponent.EncodeKeyPreserveSlash(key)
            && EndsWith(b, "/") && b[..|base|] == base
            && (b == base <==> EndsWith(base, "/"))
            && (b != base ==> b == base + "/")
    ensures !EndsWith(base, "/") ==> UrlJoin(base + "/", key) == UrlJoin(base, key)
  {
    assert EndsWith(base + "/", "/");
  }

  // ---------------------------------------------------------------------
  // The limit rule

  /** `Math.min(parseInt(limit ?? "200", 10) || 200, 1000)`: `NaN` and 0 fall
      back to 200, anything above 1000 is cut to 1000. */
  function Limit(param: Option<string>): int {
    var p := JsString.ParseInt(if param.Some? then param.value else "200");
    var v := if p.None? || p.value == 0 then DefaultLimit else p.value;
    if v <= MaxLimit then v else MaxLimit
  }

  /** The limit is never above 1000, and it is 200 when the parameter is
      missing, unreadable or 0. */
  lemma LimitRule(param: Option<string>)
    ensures Limit(param) <= MaxLimit
    ensures param.None? ==> Limit(param) == DefaultLimit
    ensures param.Some? && (JsString.ParseInt(param.value).None? || JsString.ParseInt(param.value) == Some(0))
            ==> Limit(param) == DefaultLimit
  {
    DefaultLimitText();
  }

  lemma DefaultLimitText()
    ensures JsString.ParseInt("200") == Some(DefaultLimit)
  {
    assert NatToString(200) == "200" by {
      assert NatToString(2) == "2";
      assert NatToString(20) == "20";
    }
    JsString.ParseIntOfNatToString(200);
  }

  /** A decimal limit from 1 to 1000 is taken as it is, a larger one is cut
      to 1000, and 0 means the default. */
  lemma LimitOfDecimal(n: int)
    ensures n == 0 ==> Limit(Some(IntToString(n))) == DefaultLimit
    ensures n != 0 && n <= MaxLimit ==> Limit(Some(IntToString(n))) == n
    ensures n > MaxLimit ==> Limit(Some(IntToString(n))) == MaxLimit
  {
    JsString.ParseIntOfIntToString(n);
  }

  // ---------------------------------------------------------------------
  // The join

  function MidiRefOf(base: string): string -> MidiRef {
    k => MidiRef(k, UrlJoin(base, k))
  }

  /** The map the first loop builds: each MIDI key under its base title,
      later keys overwriting earlier ones. */
  function MidiMap(keys: seq<string>, base: string): map<string, MidiRef> {
    Seqs.LastWins(keys, BaseTitleFromKey, MidiRefOf(base))
  }

  /** A title is in the map exactly when some MIDI key has it, and it maps
      to the last such key and its URL. */
  lemma MidiMapLastWins(keys: seq<string>, base: string)
    ensures forall t :: t in MidiMap(keys, base) <==> exists j | 0 <= j < |keys| :: BaseTitleFromKey(keys[j]) == t
    ensures forall t | t in MidiMap(keys, base) ::
              exists j | 0 <= j < |keys| :: && BaseTitleFromKey(keys[j]) == t
                                            && MidiMap(keys, base)[t] == MidiRef(keys[j], UrlJoin(base, keys[j]))
                                            && forall k | j < k < |keys| :: BaseTitleFromKey(keys[k]) != t
  {
    Seqs.LastWinsShape(keys, BaseTitleFromKey, MidiRefOf(base));
  }

  /** The item of a melody key, if its base title has a MIDI file. */
  function ItemFor(key: string, midiMap: map<string, MidiRef>, melodyBase: string): Option<Item> {
    var title := BaseTitleFromKey(key);
    if title in midiMap then Some(Item(title, key, UrlJoin(melodyBase, key), midiMap[title].url)) else None
  }

  function ItemOf(midiMap: map<string, MidiRef>, melodyBase: string): string -> Option<Item> {
    k => ItemFor(k, midiMap, melodyBase)
  }

  /** The items the second loop builds, in melody order. */
  function Items(keys: seq<string>, midiMap: map<string, MidiRef>, melodyBase: string): seq<Item> {
    Seqs.FilterMap(keys, ItemOf(midiMap, melodyBase))
  }

  /** Every item comes from a melody key whose base title has a MIDI entry,
      carries that title and the entry's URL, and every such melody key
      gives an item; keys without a MIDI match are skipped. */
  lemma ItemsShape(keys: seq<string>, midiMap: map<string, MidiRef>, melodyBase: string)
    ensures |Items(keys, midiMap, melodyBase)| <= |keys|
    ensures forall it | it in Items(keys, midiMap, melodyBase) ::
              && it.title in midiMap && it.midiUrl == midiMap[it.title].url
              && it.title == BaseTitleFromKey(it.key)
              && it.melodyUrl == UrlJoin(melodyBase, it.key)
              && it.key in keys
    ensures forall i | 0 <= i < |keys| && BaseTitleFromKey(keys[i]) in midiMap ::
              ItemFor(keys[i], midiMap, melodyBase).value in Items(keys, midiMap, melodyBase)
  {
    Seqs.FilterMapShape(keys, ItemOf(midiMap, melodyBase));
  }

  /** The `/catalog` answer for a melody page and a MIDI listing. */
  function CatalogBody(melody: Listing, midi: Listing, env: Env): Body {
    var midiMap := MidiMap(midi.keys, env.midiPublicBase);
    Catalog(Items(melody.keys, midiMap, env.melodyPublicBase), melody.truncated, melody.cursor)
  }

  /** The worker's answer to a request; `melodyList(limit, cursor)` and
      `midiList(limit)` are the two buckets' `list` calls. */
  function Answer(req: Request, env: Env, melodyList: (int, Option<string>) -> Listing, midiList: int -> Listing): Response<Body> {
    if req.verb == "OPTIONS" then Response(204, PreflightHeaders, NoBody)
    else if req.path == "/catalog" then
      var limit := Limit(QueryGet(req.query, "limit"));
      var cursor := QueryGet(req.query, "cursor");
      Response(200, JsonHeaders, CatalogBody(melodyList(limit, cursor), midiList(MaxLimit), env))
    else Response(404, [], Text("Not found"))
  }

  /** Routing: a preflight on any path gets 204, `/catalog` gets the JSON
      catalog of the page the limit and cursor ask for, and every other path
      gets 404. */
  lemma Routing(req: Request, env: Env, melodyList: (int, Option<string>) -> Listing, midiList: int -> Listing)
    ensures var r := Answer(req, env, melodyList, midiList);
            && (req.verb == "OPTIONS" <==> r.status == 204)
            && (req.verb != "OPTIONS" && req.path == "/catalog" <==> r.status == 200)
            && (r.status == 200 ==> r.body.Catalog? && ("content-type", "application/json; charset=utf-8") in r.headers)
            && (req.verb != "OPTIONS" && req.path != "/catalog" <==> r == Response(404, [], Text("Not found")))
  {
  }

  /** The first loop: `midiMap.set` for every MIDI object. */
  method BuildMidiMap(keys: seq<string>, base: string) returns (m: map<string, MidiRef>)
    ensures m == MidiMap(keys, base)
  {
    m := map[];
    for i := 0 to |keys|
      invariant m == MidiMap(keys[..i], base)
    {
      Seqs.LastWinsSnoc(keys, i, BaseTitleFromKey, MidiRefOf(base));
      var title := BaseTitleFromKey(keys[i]);
      m := m[title := MidiRef(keys[i], UrlJoin(base, keys[i]))];
    }
    assert keys[..|keys|] == keys;
  }

  /** The second loop: `items.push` for every melody object with a match. */
  method BuildItems(keys: seq<string>, midiMap: map<string, MidiRef>, melodyBase: string) returns (items: seq<Item>)
    ensures items == Items(keys, midiMap, melodyBase)
  {
    items := [];
    for i := 0 to |keys|
      invariant items == Items(keys[..i], midiMap, melodyBase)
    {
      assert keys[..i + 1][..i] == keys[..i];
      var title := BaseTitleFromKey(keys[i]);
      if title !in midiMap {
        continue;
      }
      items := items + [Item(title, keys[i], UrlJoin(melodyBase, keys[i]), midiMap[title].url)];
    }
    assert keys[..|keys|] == keys;
  }

  /** The `fetch` handler. */
  method Fetch(req: Request, env: Env, melodyList: (int, Option<string>) -> Listing, midiList: int -> Listing)
    returns (r: Response<Body>)
    ensures r == Answer(req, env, melodyList, midiList)
  {
    if req.verb == "OPTIONS" {
      return Response(204, PreflightHeaders, NoBody);
    }
    if req.path == "/catalog" {
      var limit := Limit(QueryGet(req.query, "limit"));
      var cursor := QueryGet(req.query, "cursor");
      var melodyListed := melodyList(limit, cursor);
      var midiListed := midiList(MaxLimit);
      var midiMap := BuildMidiMap(midiListed.keys, env.midiPublicBase);
      var items := BuildItems(melodyListed.keys, midiMap, env.melodyPublicBase);
      return Response(200, JsonHeaders, Catalog(items, melodyListed.truncated, melodyListed.cursor));
    }
    return Response(404, [], Text("Not found"));
  }
}
