/** The search worker (r2-music-search/src/worker.ts): `/search` checks the
    query and the bucket name, lists the chosen bucket and returns the
    objects whose lower-cased key contains the lower-cased query, each with
    its public URL; every other path is a 404 JSON error.  The two bucket
    listings (`list({ limit: 1000 })`) are parameters. */
module SearchWorker {
  import opened Wrappers
  import opened Text
  import UriComponent
  import opened Http
  import JsString
  import Seqs

  datatype Env = Env(melodyPublicBase: string, midiPublicBase: string)

  /** A listed object: its key and size. */
  datatype Obj = Obj(key: string, size: int)

  datatype MatchOut = MatchOut(key: string, size: int, url: string)

  /** The JSON bodies: an error with an optional message, or the results. */
  datatype Body = Error(error: string, message: Option<string>)
                | Results(bucket: string, query: string, matches: seq<MatchOut>)

  /** `corsHeaders({ "Content-Type": "application/json" })`. */
  const JsonHeaders := [("Access-Control-Allow-Origin", "*"),
                        ("Access-Control-Allow-Methods", "GET, OPTIONS"),
                        ("Access-Control-Allow-Headers", "Content-Type"),
                        ("Content-Type", "application/json")]

  const NotFound := Error("Not found", Some("Use /search?bucket=melody|midi&q=keyword"))
  const MissingQuery := Error("Missing query parameter 'q'", None)
  const InvalidBucket := Error("Invalid bucket", Some("bucket must be 'melody' or 'midi'"))

  /** The trailing-slash fix of `publicBase`. */
  function EnsureSlash(base: string): string {
    if EndsWith(base, "/") then base else base + "/"
  }

  /** After the fix the base ends with `/`, it only ever adds that one
      character, and it is idempotent. */
  lemma EnsureSlashShape(base: string)
    ensures EndsWith(EnsureSlash(base), "/")
    ensures EnsureSlash(base) == base || EnsureSlash(base) == base + "/"
    ensures EnsureSlash(EnsureSlash(base)) == EnsureSlash(base)
  {
  }

  /** The match an object gives: its key, size and URL when the lower-cased
      key contains the lower-cased query. */
  function MatchFor(o: Obj, queryLower: string, publicBase: string): Option<MatchOut> {
    if Contains(Lower(o.key), queryLower)
    then Some(MatchOut(o.key, o.size, publicBase + UriComponent.Encode(o.key)))
    else None
  }

  function MatchOf(queryLower: string, publicBase: string): Obj -> Option<MatchOut> {
    o => MatchFor(o, queryLower, publicBase)
  }

  /** The `filter` and `map` over the listing. */
  function Matches(objects: seq<Obj>, q: string, publicBase: string): seq<MatchOut> {
    Seqs.FilterMap(objects, MatchOf(Lower(q), publicBase))
  }

  /** Every match is an object whose lower-cased key contains the
      lower-cased query, with the URL `publicBase + encodeURIComponent(key)`;
      every such object is matched; and matching is done object by object,
      so listing order is kept. */
  lemma MatchesShape(objects: seq<Obj>, q: string, publicBase: string)
    ensures |Matches(objects, q, publicBase)| <= |objects|
    ensures forall m | m in Matches(objects, q, publicBase) ::
              && Obj(m.key, m.size) in objects
              && Contains(Lower(m.key), Lower(q))
              && m.url == publicBase + UriComponent.Encode(m.key)
    ensures forall i | 0 <= i < |objects| && Contains(Lower(objects[i].key), Lower(q)) ::
              MatchOut(objects[i].key, objects[i].size, publicBase + UriComponent.Encode(objects[i].key))
                in Matches(objects, q, publicBase)
    ensures forall a: seq<Obj>, b: seq<Obj> {:trigger Matches(a + b, q, publicBase)} ::
              Matches(a + b, q, publicBase) == Matches(a, q, publicBase) + Matches(b, q, publicBase)
  {
    var f := MatchOf(Lower(q), publicBase);
    Seqs.FilterMapShape(objects, f);
    forall m | m in Matches(objects, q, publicBase)
      ensures Obj(m.key, m.size) in objects
    {
      var i :| 0 <= i < |objects| && f(objects[i]) == Some(m);
      assert objects[i] == Obj(m.key, m.size);
    }
    forall a: seq<Obj>, b: seq<Obj> ensures Matches(a + b, q, publicBase) == Matches(a, q, publicBase) + Matches(b, q, publicBase) {
      Seqs.FilterMapAppend(a, b, f);
    }
  }

  /** `handleSearch`. */
  function HandleSearch(req: Request, env: Env, melodyObjects: seq<Obj>, midiObjects: seq<Obj>): Response<Body> {
    var bucketName := OrDefault(QueryGet(req.query, "bucket"), "melody");
    var q := JsString.Trim(OrDefault(QueryGet(req.query, "q"), ""));
    if q == "" then Response(400, JsonHeaders, MissingQuery)
    else if bucketName != "melody" && bucketName != "midi" then Response(400, JsonHeaders, InvalidBucket)
    else
      var publicBase := EnsureSlash(if bucketName == "melody" then env.melodyPublicBase else env.midiPublicBase);
      var objects := if bucketName == "melody" then melodyObjects else midiObjects;
      Response(200, JsonHeaders, Results(bucketName, q, Matches(objects, q, publicBase)))
  }

  /** The `fetch` handler: only `/search` is served. */
  function Fetch(req: Request, env: Env, melodyObjects: seq<Obj>, midiObjects: seq<Obj>): Response<Body> {
    if req.path == "/search" then HandleSearch(req, env, melodyObjects, midiObjects)
    else Response(404, JsonHeaders, NotFound)
  }

  /** The answers, in the order the handler checks them: a path other than
      `/search` is 404; a query that is missing or white space after
      trimming is 400 whatever the bucket; a bucket other than `melody` or
      `midi` is 400; every other request is answered with 200. */
  lemma FetchStatus(req: Request, env: Env, melodyObjects: seq<Obj>, midiObjects: seq<Obj>)
    ensures var r := Fetch(req, env, melodyObjects, midiObjects);
            var bucketName := OrDefault(QueryGet(req.query, "bucket"), "melody");
            var raw := OrDefault(QueryGet(req.query, "q"), "");
            && (req.path != "/search" ==> r == Response(404, JsonHeaders, NotFound))
            && (req.path == "/search" && JsString.IsJsBlank(raw) ==> r == Response(400, JsonHeaders, MissingQuery))
            && (req.path == "/search" && !JsString.IsJsBlank(raw) && bucketName != "melody" && bucketName != "midi"
                ==> r == Response(400, JsonHeaders, InvalidBucket))
            && (r.status == 200 <==>
                  req.path == "/search" && !JsString.IsJsBlank(raw) && (bucketName == "melody" || bucketName == "midi"))
  {
    JsString.TrimEmptyIffBlank(OrDefault(QueryGet(req.query, "q"), ""));
  }

  /** A 200 answer carries the bucket name (`melody` when missing or
      empty), the non-empty trimmed query, and the matches from that bucket
      against its slash-terminated public base. */
  lemma FetchResults(req: Request, env: Env, melodyObjects: seq<Obj>, midiObjects: seq<Obj>)
    requires Fetch(req, env, melodyObjects, midiObjects).status == 200
    ensures var r := Fetch(req, env, melodyObjects, midiObjects);
            var bucketName := OrDefault(QueryGet(req.query, "bucket"), "melody");
            var q := JsString.Trim(OrDefault(QueryGet(req.query, "q"), ""));
            var base := EnsureSlash(if bucketName == "melody" then env.melodyPublicBase else env.midiPublicBase);
            && EndsWith(base, "/")
            && q != ""
            && r.body == Results(bucketName, q, Matches(if bucketName == "melody" then melodyObjects else midiObjects, q, base))
  {
    EnsureSlashShape(env.melodyPublicBase);
    EnsureSlashShape(env.midiPublicBase);
  }

  /** A missing or empty `bucket` means the melody bucket. */
  lemma DefaultBucket(req: Request, env: Env, melodyObjects: seq<Obj>, midiObjects: seq<Obj>)
    requires QueryGet(req.query, "bucket").None? || QueryGet(req.query, "bucket") == Some("")
    requires req.path == "/search"
    ensures var r := Fetch(req, env, melodyObjects, midiObjects);
            r.status == 200 ==> r.body.bucket == "melody"
                                && r.body.matches == Matches(melodyObjects, r.body.query, EnsureSlash(env.melodyPublicBase))
  {
  }
}
