/**
 * The request both entry points send: `buildUrl` layers the upstream API's
 * base URI as the `server` parameter onto the proxy URL and then appends a
 * second, separately encoded block of address parameters; `createGetRequest`
 * makes a GET request for that URL with the municipality number and the API
 * key as headers. The two programs (cmd/roaf and the older top-level roaf.go)
 * carry the same code for both.
 *
 * The query is built as `Encode(server block) + Encode(address block)`, with no
 * "&" in between. A query parser therefore reads the address block's first
 * piece, `gatekode=...`, as part of the last piece of the server block; when
 * `server` is the last key of that block, as it is for a proxy URL with no
 * query of its own, the `server` value is the base URI followed by
 * "gatekode=" and the street code.
 */
module RoafRequest {
  import opened Wrappers
  import opened GoStrings
  import opened GoUrl
  import opened GoHttp

  /** The process environment. `os.Getenv` gives "" for a variable that is not set. */
  type Env = map<GoString, GoString>

  function Getenv(env: Env, name: GoString): GoString {
    if name in env then env[name] else []
  }

  // The variables the program reads.
  const NORKART_PROXY: GoString := "NORKART_PROXY"
  const ROAF_BASEURI: GoString := "ROAF_BASEURI"
  const ROAF_KOMMNR: GoString := "ROAF_KOMMNR"
  const ROAF_GATENAVN: GoString := "ROAF_GATENAVN"
  const ROAF_HUSNR: GoString := "ROAF_HUSNR"
  const ROAF_GATEKODE: GoString := "ROAF_GATEKODE"
  const ROAF_APPKEY: GoString := "ROAF_APPKEY"

  function Proxy(env: Env): GoString { Getenv(env, NORKART_PROXY) }
  function BaseUri(env: Env): GoString { Getenv(env, ROAF_BASEURI) }
  function Kommunenr(env: Env): GoString { Getenv(env, ROAF_KOMMNR) }
  function Gatenavn(env: Env): GoString { Getenv(env, ROAF_GATENAVN) }
  function Husnr(env: Env): GoString { Getenv(env, ROAF_HUSNR) }
  function Gatekode(env: Env): GoString { Getenv(env, ROAF_GATEKODE) }
  function AppKey(env: Env): GoString { Getenv(env, ROAF_APPKEY) }

  // The query parameters.
  const SERVER: GoString := "server"
  const GATEKODE: GoString := "gatekode"
  const GATENAVN: GoString := "gatenavn"
  const HUSNR: GoString := "husnr"
  const KOMMUNENR: GoString := "kommunenr"

  // The request headers, as the program names them and as they are filed.
  const KOMMUNENR_HEADER: GoString := "Kommunenr"
  const APPKEY_HEADER: GoString := "RenovasjonAppKey"
  const APPKEY_FILED: GoString := "Renovasjonappkey"

  // ---------------------------------------------------------------------------
  // The two query blocks.

  /** The proxy URL's own query with `server` set to the upstream base URI. */
  function ServerValues(base: Url, env: Env): Values {
    Set(Query(base), SERVER, BaseUri(env))
  }

  /** `params` after its four `Add` calls. */
  function AddressValues(kommunenr: GoString, gatenavn: GoString, husnr: GoString, gatekode: GoString): Values {
    Add(Add(Add(Add(map[], KOMMUNENR, kommunenr), GATENAVN, gatenavn), HUSNR, husnr), GATEKODE, gatekode)
  }

  function Piece(key: GoString, value: GoString): GoString {
    key + "=" + QueryEscape(value)
  }

  /** The address block as it goes on the wire: keys in ascending order, values escaped. */
  function AddressBlock(gatekode: GoString, gatenavn: GoString, husnr: GoString, kommunenr: GoString): GoString {
    Join('&', [Piece(GATEKODE, gatekode), Piece(GATENAVN, gatenavn), Piece(HUSNR, husnr), Piece(KOMMUNENR, kommunenr)])
  }

  /** `k` sorts no later than "server" in Go's string order. */
  predicate NotAfterServer(k: GoString) {
    LessEq(k, SERVER)
  }

  /** The raw query `buildUrl` leaves on the proxy URL. */
  function BuiltQuery(base: Url, env: Env): GoString {
    Encode(ServerValues(base, env)) + AddressBlock(Gatekode(env), Gatenavn(env), Husnr(env), Kommunenr(env))
  }

  // ---------------------------------------------------------------------------
  // The operations.

  /**
   * `buildUrl`. `parse` stands for `url.Parse`; its failure is the
   * `os.Exit(1)` path, here None. Otherwise only the raw query of the parsed
   * proxy URL changes: the re-encoded proxy query with `server` set, then the
   * address block appended to it.
   */
  method BuildUrl(env: Env, parse: GoString -> Option<Url>) returns (r: Option<Url>)
    ensures parse(Proxy(env)).None? <==> r.None?
    ensures r.Some? ==> r.value.rest == parse(Proxy(env)).value.rest
    ensures r.Some? ==> r.value.rawQuery == BuiltQuery(parse(Proxy(env)).value, env)
  {
    var parsed := parse(Proxy(env));
    if parsed.None? {
      return None;
    }
    var base := parsed.value;
    var q := Query(base);
    q := Set(q, SERVER, BaseUri(env));
    base := base.(rawQuery := Encode(q));

    var params: Values := map[];
    params := Add(params, KOMMUNENR, Kommunenr(env));
    params := Add(params, GATENAVN, Gatenavn(env));
    params := Add(params, HUSNR, Husnr(env));
    params := Add(params, GATEKODE, Gatekode(env));

    AddressBlockEncoding(Kommunenr(env), Gatenavn(env), Husnr(env), Gatekode(env));
    base := base.(rawQuery := base.rawQuery + Encode(params));
    return Some(base);
  }

  /**
   * `createGetRequest`: a GET request for the URL, with the two headers filed
   * under their canonical names ("RenovasjonAppKey" becomes
   * "Renovasjonappkey"), each holding the one configured value, and readable
   * back under the names the program uses.
   */
  method CreateGetRequest(uri: Url, env: Env) returns (req: GoHttp.Request)
    ensures req.verb == "GET" && req.url == uri
    ensures req.header == map[KOMMUNENR_HEADER := [Kommunenr(env)], APPKEY_FILED := [AppKey(env)]]
    ensures HeaderValues(req.header, KOMMUNENR_HEADER) == [Kommunenr(env)]
    ensures HeaderValues(req.header, APPKEY_HEADER) == [AppKey(env)]
  {
    HeaderNames();
    req := NewRequest("GET", uri);
    HeaderAddNew(req.header, KOMMUNENR_HEADER, Kommunenr(env));
    req := req.(header := HeaderAdd(req.header, KOMMUNENR_HEADER, Kommunenr(env)));
    HeaderAddNew(req.header, APPKEY_HEADER, AppKey(env));
    req := req.(header := HeaderAdd(req.header, APPKEY_HEADER, AppKey(env)));
  }

  // ---------------------------------------------------------------------------
  // Properties.

  /** "Kommunenr" is already canonical; "RenovasjonAppKey" is filed as "Renovasjonappkey"; the two differ. */
  lemma HeaderNames()
    ensures CanonicalHeaderKey(KOMMUNENR_HEADER) == KOMMUNENR_HEADER
    ensures CanonicalHeaderKey(APPKEY_HEADER) == APPKEY_FILED
    ensures KOMMUNENR_HEADER != APPKEY_FILED
  {
    assert KOMMUNENR_HEADER[0] != APPKEY_FILED[0];
  }

  /** The four address keys in the order `Encode` puts them, each kept as it is by escaping. */
  lemma AddressKeys()
    ensures StrictlySorted([GATEKODE, GATENAVN, HUSNR, KOMMUNENR])
    ensures PlainKey(GATEKODE) && PlainKey(GATENAVN) && PlainKey(HUSNR) && PlainKey(KOMMUNENR)
  {
  }

  /** Encoding the address parameters gives the address block: one piece per key, sorted. */
  lemma AddressBlockEncoding(kommunenr: GoString, gatenavn: GoString, husnr: GoString, gatekode: GoString)
    ensures Encode(AddressValues(kommunenr, gatenavn, husnr, gatekode)) == AddressBlock(gatekode, gatenavn, husnr, kommunenr)
  {
    AddressKeys();
    AddFour(KOMMUNENR, kommunenr, GATENAVN, gatenavn, HUSNR, husnr, GATEKODE, gatekode);
    EncodeFour(GATEKODE, gatekode, GATENAVN, gatenavn, HUSNR, husnr, KOMMUNENR, kommunenr);
  }

  /** The server block alone reads back as the proxy's query with `server` replaced. */
  lemma ServerBlockReadsBack(base: Url, env: Env)
    ensures ParseQuery(Encode(ServerValues(base, env))) == Set(Query(base), SERVER, BaseUri(env))
  {
    ParseEncode(ServerValues(base, env));
  }

  /**
   * How the built query reads back, for a proxy URL whose own query keys all
   * sort no later than `server`: every proxy parameter survives, `server` holds
   * the base URI followed by "gatekode=" and the street code, and the other
   * three address parameters are added as parameters of their own.
   */
  lemma BuiltQueryReadsBack(base: Url, env: Env)
    requires forall k :: k in Query(base) ==> NotAfterServer(k)
    ensures ParseQuery(BuiltQuery(base, env)) ==
      Add(Add(Add(Set(Query(base), SERVER, BaseUri(env) + GATEKODE + "=" + Gatekode(env)),
        GATENAVN, Gatenavn(env)), HUSNR, Husnr(env)), KOMMUNENR, Kommunenr(env))
  {
    AddressKeys();
    ServerKey();
    GluedQuery(Query(base), SERVER, BaseUri(env), GATEKODE, Gatekode(env), GATENAVN, Gatenavn(env),
      HUSNR, Husnr(env), KOMMUNENR, Kommunenr(env));
  }

  lemma ServerKey()
    ensures PlainKey(SERVER)
  {
  }

  /** With no query on the proxy URL the built query is the server piece and the address block, back to back. */
  lemma BuiltQueryOfPlainProxy(base: Url, env: Env)
    requires Query(base) == map[]
    ensures BuiltQuery(base, env) ==
      Piece(SERVER, BaseUri(env)) + AddressBlock(Gatekode(env), Gatenavn(env), Husnr(env), Kommunenr(env))
  {
    ServerKey();
    EncodeOne(Query(base), SERVER, BaseUri(env));
  }

  /**
   * With no query on the proxy URL the built query reads back as four
   * parameters: `server` with "gatekode=" and the street code run into it,
   * and the other three address parameters.
   */
  lemma PlainProxyReadsBack(base: Url, env: Env)
    requires Query(base) == map[]
    ensures ParseQuery(BuiltQuery(base, env)) ==
      map[SERVER := [BaseUri(env) + GATEKODE + "=" + Gatekode(env)], GATENAVN := [Gatenavn(env)],
          HUSNR := [Husnr(env)], KOMMUNENR := [Kommunenr(env)]]
  {
    BuiltQueryReadsBack(base, env);
    KeysDistinct();
    AddThreeNew(Set(Query(base), SERVER, SeamValue(BaseUri(env), GATEKODE, Gatekode(env))),
      GATENAVN, Gatenavn(env), HUSNR, Husnr(env), KOMMUNENR, Kommunenr(env));
  }

  /** "server" and the four address keys are five different keys. */
  lemma KeysDistinct()
    ensures SERVER != GATEKODE && SERVER != GATENAVN && SERVER != HUSNR && SERVER != KOMMUNENR
    ensures GATEKODE != GATENAVN && GATEKODE != HUSNR && GATEKODE != KOMMUNENR
    ensures GATENAVN != HUSNR && GATENAVN != KOMMUNENR && HUSNR != KOMMUNENR
  {
    assert SERVER[0] != GATEKODE[0] && SERVER[0] != HUSNR[0] && SERVER[0] != KOMMUNENR[0];
    assert GATEKODE[4] != GATENAVN[4] && GATEKODE[0] != HUSNR[0] && GATEKODE[0] != KOMMUNENR[0];
    assert GATENAVN[0] != HUSNR[0] && GATENAVN[0] != KOMMUNENR[0] && HUSNR[0] != KOMMUNENR[0];
  }

  /** For values that escaping keeps, the address block is the four `key=value` pieces as written. */
  lemma AddressBlockOfPlainValues(gatekode: GoString, gatenavn: GoString, husnr: GoString, kommunenr: GoString)
    requires forall i :: 0 <= i < |gatekode| ==> Unreserved(gatekode[i])
    requires forall i :: 0 <= i < |gatenavn| ==> Unreserved(gatenavn[i])
    requires forall i :: 0 <= i < |husnr| ==> Unreserved(husnr[i])
    requires forall i :: 0 <= i < |kommunenr| ==> Unreserved(kommunenr[i])
    ensures AddressBlock(gatekode, gatenavn, husnr, kommunenr) ==
      Join('&', [GATEKODE + "=" + gatekode, GATENAVN + "=" + gatenavn, HUSNR + "=" + husnr, KOMMUNENR + "=" + kommunenr])
  {
    PlainText(gatekode);
    PlainText(gatenavn);
    PlainText(husnr);
    PlainText(kommunenr);
  }

  // ---------------------------------------------------------------------------
  // The proofs, on keys given as parameters.

  /** A non-empty key every byte of which escaping keeps. */
  predicate PlainKey(k: GoString) {
    k != [] && forall i :: 0 <= i < |k| ==> Unreserved(k[i])
  }

  lemma EncodeOne(q: Values, key: GoString, value: GoString)
    requires q == map[] && PlainKey(key)
    ensures Encode(Set(q, key, value)) == Piece(key, value)
  {
    var s := Set(q, key, value);
    assert s == map[key := [value]];
    assert StrictlySorted([key]);
    SortedListUnique([key], s.Keys);
    PlainText(key);
    assert Pieces([key], s) == [Piece(key, value)];
  }

  /** Four `Add` calls on distinct keys, starting from no parameters. */
  lemma AddFour(a: GoString, x: GoString, b: GoString, y: GoString, c: GoString, z: GoString, d: GoString, w: GoString)
    requires a != b && a != c && a != d && b != c && b != d && c != d
    ensures Add(Add(Add(Add(map[], a, x), b, y), c, z), d, w) == map[d := [w], b := [y], c := [z], a := [x]]
  {
    var m0: Values := map[];
    AddNew(m0, a, x);
    var m1 := m0[a := [x]];
    AddNew(m1, b, y);
    var m2 := m1[b := [y]];
    AddNew(m2, c, z);
    var m3 := m2[c := [z]];
    AddNew(m3, d, w);
    var m4 := m3[d := [w]];
    var rhs := map[d := [w], b := [y], c := [z], a := [x]];
    assert m4.Keys == rhs.Keys;
  }

  /** Three `Add` calls on distinct keys new to `v`. */
  lemma AddThreeNew(v: Values, a: GoString, x: GoString, b: GoString, y: GoString, c: GoString, z: GoString)
    requires a !in v && b !in v && c !in v && a != b && a != c && b != c
    ensures Add(Add(Add(v, a, x), b, y), c, z) == v[a := [x]][b := [y]][c := [z]]
  {
    AddNew(v, a, x);
    AddNew(v[a := [x]], b, y);
    AddNew(v[a := [x]][b := [y]], c, z);
  }

  lemma AddNew(v: Values, k: GoString, x: GoString)
    requires k !in v
    ensures Add(v, k, x) == v[k := [x]]
  {
    assert Get(v, k) == [];
    assert Get(v, k) + [x] == [x];
  }

  lemma EncodeFour(k1: GoString, v1: GoString, k2: GoString, v2: GoString, k3: GoString, v3: GoString, k4: GoString, v4: GoString)
    requires PlainKey(k1) && PlainKey(k2) && PlainKey(k3) && PlainKey(k4)
    requires StrictlySorted([k1, k2, k3, k4])
    ensures Encode(map[k1 := [v1], k2 := [v2], k3 := [v3], k4 := [v4]]) ==
      Join('&', [Piece(k1, v1), Piece(k2, v2), Piece(k3, v3), Piece(k4, v4)])
  {
    var v := map[k1 := [v1], k2 := [v2], k3 := [v3], k4 := [v4]];
    SortedFour(k1, k2, k3, k4, v);
    MapFour(k1, v1, k2, v2, k3, v3, k4, v4);
    EncodeListed(k1, v1, k2, v2, k3, v3, k4, v4, v);
  }

  lemma MapFour(k1: GoString, v1: GoString, k2: GoString, v2: GoString, k3: GoString, v3: GoString, k4: GoString, v4: GoString)
    requires k1 != k2 && k1 != k3 && k1 != k4 && k2 != k3 && k2 != k4 && k3 != k4
    ensures var v := map[k1 := [v1], k2 := [v2], k3 := [v3], k4 := [v4]];
      v[k1] == [v1] && v[k2] == [v2] && v[k3] == [v3] && v[k4] == [v4]
  {
  }

  lemma EncodeListed(k1: GoString, v1: GoString, k2: GoString, v2: GoString, k3: GoString, v3: GoString, k4: GoString, v4: GoString, v: Values)
    requires k1 in v && k2 in v && k3 in v && k4 in v
    requires v[k1] == [v1] && v[k2] == [v2] && v[k3] == [v3] && v[k4] == [v4]
    requires SortedList(v.Keys) == [k1, k2, k3, k4]
    requires PlainKey(k1) && PlainKey(k2) && PlainKey(k3) && PlainKey(k4)
    ensures Encode(v) == Join('&', [Piece(k1, v1), Piece(k2, v2), Piece(k3, v3), Piece(k4, v4)])
  {
    PiecesFour(k1, v1, k2, v2, k3, v3, k4, v4, v);
  }

  lemma PiecesFour(k1: GoString, v1: GoString, k2: GoString, v2: GoString, k3: GoString, v3: GoString, k4: GoString, v4: GoString, v: Values)
    requires PlainKey(k1) && PlainKey(k2) && PlainKey(k3) && PlainKey(k4)
    requires k1 in v && k2 in v && k3 in v && k4 in v
    requires v[k1] == [v1] && v[k2] == [v2] && v[k3] == [v3] && v[k4] == [v4]
    ensures Pieces([k1, k2, k3, k4], v) == [Piece(k1, v1), Piece(k2, v2), Piece(k3, v3), Piece(k4, v4)]
  {
    PiecesOne(k1, v1, v);
    PiecesOne(k2, v2, v);
    PiecesOne(k3, v3, v);
    PiecesOne(k4, v4, v);
    var a, b, c, d := [k1], [k2], [k3], [k4];
    PiecesAppend(c, d, v);
    PiecesAppend(b, c + d, v);
    PiecesAppend(a, b + (c + d), v);
    assert a + (b + (c + d)) == [k1, k2, k3, k4];
    assert [Piece(k1, v1)] + ([Piece(k2, v2)] + ([Piece(k3, v3)] + [Piece(k4, v4)])) ==
      [Piece(k1, v1), Piece(k2, v2), Piece(k3, v3), Piece(k4, v4)];
  }

  lemma SortedFour(k1: GoString, k2: GoString, k3: GoString, k4: GoString, v: Values)
    requires StrictlySorted([k1, k2, k3, k4])
    requires v.Keys == {k1, k2, k3, k4}
    ensures SortedList(v.Keys) == [k1, k2, k3, k4]
    ensures k1 != k2 && k1 != k3 && k1 != k4 && k2 != k3 && k2 != k4 && k3 != k4
  {
    var keys := [k1, k2, k3, k4];
    assert keys[0] != keys[1] && keys[0] != keys[2] && keys[0] != keys[3];
    assert keys[1] != keys[2] && keys[1] != keys[3] && keys[2] != keys[3];
    SortedListUnique(keys, v.Keys);
  }

  lemma PiecesOne(k: GoString, x: GoString, v: Values)
    requires PlainKey(k) && k in v && v[k] == [x]
    ensures Pieces([k], v) == [Piece(k, x)]
  {
    PlainText(k);
    assert [k][1..] == [];
    assert [x][1..] == [];
  }

  lemma GluedQuery(q: Values, key: GoString, uri: GoString, k1: GoString, v1: GoString, k2: GoString, v2: GoString,
                   k3: GoString, v3: GoString, k4: GoString, v4: GoString)
    requires NoEmptyLists(q)
    requires forall k :: k in q ==> LessEq(k, key)
    requires PlainKey(key) && PlainKey(k1) && PlainKey(k2) && PlainKey(k3) && PlainKey(k4)
    ensures ParseQuery(Encode(Set(q, key, uri)) + Join('&', [Piece(k1, v1), Piece(k2, v2), Piece(k3, v3), Piece(k4, v4)])) ==
      Add(Add(Add(Set(q, key, SeamValue(uri, k1, v1)), k2, v2), k3, v3), k4, v4)
  {
    var head, r := ServerHead(q, key, uri);
    var block := [Piece(k1, v1), Piece(k2, v2), Piece(k3, v3), Piece(k4, v4)];
    BlockAfterHead(head, block, r, key, uri, k1, v1, k2, v2, k3, v3, k4, v4);
    var x := SeamValue(uri, k1, v1);
    assert r[key := [x]] == Set(q, key, x);
  }

  /** The server block split before its last piece, and what the pieces before it read back as. */
  lemma ServerHead(q: Values, key: GoString, uri: GoString) returns (head: seq<GoString>, r: Values)
    requires NoEmptyLists(q)
    requires forall k :: k in q ==> LessEq(k, key)
    requires PlainKey(key)
    ensures Encode(Set(q, key, uri)) == Join('&', head + [Piece(key, uri)])
    ensures forall i :: 0 <= i < |head| ==> head[i] != [] && '&' !in head[i]
    ensures AddPieces(map[], head) == r && key !in r
    ensures forall x :: r[key := [x]] == Set(q, key, x)
  {
    var s := Set(q, key, uri);
    var init := ServerBlockPieces(q, key, uri);
    head := Pieces(init, s);
    PiecesAreJoinable(init, s);
    r := HeadReadsBack(q, key, uri, init);
  }

  /** The address block written after the pieces `head` and the piece of `key`. */
  lemma BlockAfterHead(head: seq<GoString>, block: seq<GoString>, r: Values, key: GoString, uri: GoString,
                       k1: GoString, v1: GoString, k2: GoString, v2: GoString, k3: GoString, v3: GoString, k4: GoString, v4: GoString)
    requires forall i :: 0 <= i < |head| ==> head[i] != [] && '&' !in head[i]
    requires AddPieces(map[], head) == r && key !in r
    requires PlainKey(key) && PlainKey(k1) && PlainKey(k2) && PlainKey(k3) && PlainKey(k4)
    requires |block| == 4 && block[0] == Piece(k1, v1) && block[1] == Piece(k2, v2) && block[2] == Piece(k3, v3) && block[3] == Piece(k4, v4)
    ensures ParseQuery(Join('&', head + [Piece(key, uri)]) + Join('&', block)) ==
      Add(Add(Add(r[key := [SeamValue(uri, k1, v1)]], k2, v2), k3, v3), k4, v4)
  {
    var glued := Piece(key, uri) + Piece(k1, v1);
    PieceJoinable(key, uri);
    PieceJoinable(k1, v1);
    PieceJoinable(k2, v2);
    PieceJoinable(k3, v3);
    PieceJoinable(k4, v4);
    GluedParse(head, Piece(key, uri), block);
    ReplaceFirst(glued, block);
    ReadTail(r, key, uri, k1, v1, k2, v2, k3, v3, k4, v4);
  }

  lemma PieceJoinable(key: GoString, value: GoString)
    requires PlainKey(key)
    ensures Piece(key, value) != [] && '&' !in Piece(key, value)
  {
  }

  /** The pieces of a block written straight after another block: the two pieces at the seam become one. */
  lemma GluedParse(head: seq<GoString>, last: GoString, block: seq<GoString>)
    requires block != []
    requires forall i :: 0 <= i < |head| ==> head[i] != [] && '&' !in head[i]
    requires last + block[0] != [] && '&' !in last + block[0]
    requires forall i :: 1 <= i < |block| ==> block[i] != [] && '&' !in block[i]
    ensures ParseQuery(Join('&', head + [last]) + Join('&', block)) ==
      AddPieces(AddPieces(map[], head), [last + block[0]] + block[1..])
  {
    var tail := [last + block[0]] + block[1..];
    GlueLast(head, last, block);
    forall i | 0 <= i < |tail|
      ensures tail[i] != [] && '&' !in tail[i]
    {
      if i > 0 {
        assert tail[i] == block[i];
      }
    }
    SplitParts(head, tail);
    AddPiecesConcat(map[], head, tail);
  }

  /** The server block is the pieces of the other keys followed by the piece of `key`. */
  lemma ServerBlockPieces(q: Values, key: GoString, uri: GoString) returns (init: seq<GoString>)
    requires forall k :: k in q ==> LessEq(k, key)
    requires PlainKey(key)
    ensures var keys := SortedList(Set(q, key, uri).Keys); |keys| > 0 && init == keys[..|keys| - 1]
    ensures key !in init
    ensures forall i :: 0 <= i < |init| ==> init[i] in Set(q, key, uri)
    ensures Encode(Set(q, key, uri)) == Join('&', Pieces(init, Set(q, key, uri)) + [Piece(key, uri)])
  {
    var s := Set(q, key, uri);
    var keys := SortedList(s.Keys);
    KeyLast(q, key, uri);
    init := keys[..|keys| - 1];
    SplitLastKey(keys, s, key, uri);
  }

  lemma SplitLastKey(keys: seq<GoString>, s: Values, key: GoString, uri: GoString)
    requires keys != [] && keys[|keys| - 1] == key
    requires forall i :: 0 <= i < |keys| ==> keys[i] in s
    requires s[key] == [uri] && PlainKey(key)
    ensures var init := keys[..|keys| - 1];
      (forall i :: 0 <= i < |init| ==> init[i] in s) && Pieces(keys, s) == Pieces(init, s) + [Piece(key, uri)]
  {
    var init := keys[..|keys| - 1];
    assert keys == init + [key];
    forall i | 0 <= i < |init|
      ensures init[i] in s
    {
      assert init[i] == keys[i];
    }
    LastPieces(init, s, key, uri);
  }

  lemma LastPieces(init: seq<GoString>, s: Values, key: GoString, uri: GoString)
    requires forall i :: 0 <= i < |init| ==> init[i] in s
    requires key in s && s[key] == [uri] && PlainKey(key)
    ensures Pieces(init + [key], s) == Pieces(init, s) + [Piece(key, uri)]
  {
    PiecesAppend(init, [key], s);
    PiecesOne(key, uri, s);
  }

  /** Two joined lists back to back, the second non-empty. */
  lemma GlueLast(head: seq<GoString>, last: GoString, block: seq<GoString>)
    requires block != []
    ensures Join('&', head + [last]) + Join('&', block) == Join('&', head + ([last + block[0]] + block[1..]))
  {
    JoinGlue('&', head, last, block);
    ConcatAssoc(head, [last + block[0]], block[1..]);
  }

  lemma SplitParts(head: seq<GoString>, tail: seq<GoString>)
    requires forall i :: 0 <= i < |head| ==> head[i] != [] && '&' !in head[i]
    requires forall i :: 0 <= i < |tail| ==> tail[i] != [] && '&' !in tail[i]
    ensures Split(Join('&', head + tail), '&') == head + tail
  {
    var parts := head + tail;
    forall i | 0 <= i < |parts|
      ensures parts[i] != [] && '&' !in parts[i]
    {
      if i >= |head| {
        assert parts[i] == tail[i - |head|];
      }
    }
    SplitJoin('&', parts);
  }

  /** When no key of `q` sorts after `key`, `key` is the last key the block lists. */
  lemma KeyLast(q: Values, key: GoString, uri: GoString)
    requires forall k :: k in q ==> LessEq(k, key)
    ensures |SortedList(Set(q, key, uri).Keys)| > 0
    ensures var keys := SortedList(Set(q, key, uri).Keys);
      keys[|keys| - 1] == key && key !in keys[..|keys| - 1]
  {
    var s := Set(q, key, uri);
    var keys := SortedList(s.Keys);
    LessEqReflexive(key);
    assert forall x :: x in keys ==> LessEq(x, key);
    LastOfSorted(keys, key);
  }

  /** A key no listed key sorts after is the last of a strictly sorted list, and occurs only there. */
  lemma LastOfSorted(keys: seq<GoString>, key: GoString)
    requires StrictlySorted(keys) && key in keys
    requires forall x :: x in keys ==> LessEq(x, key)
    ensures keys[|keys| - 1] == key && key !in keys[..|keys| - 1]
  {
    var n := |keys|;
    var i :| 0 <= i < n && keys[i] == key;
    if i < n - 1 {
      var last := keys[n - 1];
      assert LessEq(keys[i], last) && keys[i] != last;
      assert LessEq(last, key);
      LessEqAntisymmetric(last, key);
      assert false;
    }
    var init := keys[..n - 1];
    forall j | 0 <= j < |init|
      ensures init[j] != key
    {
      assert init[j] == keys[j] && keys[j] != keys[n - 1];
    }
  }

  /** The empty parameter set, named so that the lemmas below share one term for it rather than each writing a fresh `map[]`. */
  function Empty(): Values { map[] }

  /** The pieces before the last one read back as the proxy's other parameters. */
  lemma HeadReadsBack(q: Values, key: GoString, uri: GoString, init: seq<GoString>) returns (r: Values)
    requires NoEmptyLists(q)
    requires var keys := SortedList(Set(q, key, uri).Keys); |keys| > 0 && init == keys[..|keys| - 1]
    requires key !in init
    ensures forall i :: 0 <= i < |init| ==> init[i] in Set(q, key, uri)
    ensures AddPieces(map[], Pieces(init, Set(q, key, uri))) == r
    ensures key !in r
    ensures forall x :: r[key := [x]] == Set(q, key, x)
  {
    var s := Set(q, key, uri);
    InitKeys(q, key, uri, init);
    ReadPieces(Empty(), init, s);
    r := Empty() + (map k | k in init :: s[k]);
    forall x
      ensures r[key := [x]] == Set(q, key, x)
    {
      OthersKept(q, key, uri, x, init, r);
    }
  }

  lemma InitKeys(q: Values, key: GoString, uri: GoString, init: seq<GoString>)
    requires NoEmptyLists(q)
    requires var keys := SortedList(Set(q, key, uri).Keys); |keys| > 0 && init == keys[..|keys| - 1]
    requires key !in init
    ensures forall i :: 0 <= i < |init| ==> init[i] in Set(q, key, uri) && Set(q, key, uri)[init[i]] != [] && init[i] !in Empty()
    ensures forall i, j :: 0 <= i < j < |init| ==> init[i] != init[j]
    ensures forall k :: k in init <==> k in q && k != key
  {
    var s := Set(q, key, uri);
    var keys := SortedList(s.Keys);
    assert forall i, j :: 0 <= i < j < |keys| ==> keys[i] != keys[j];
    assert forall k :: k in keys <==> k in q || k == key;
    assert NoEmptyLists(s);
    PrefixKeys(keys, init, s, q, key);
  }

  lemma PrefixKeys(keys: seq<GoString>, init: seq<GoString>, s: Values, q: Values, key: GoString)
    requires |keys| > 0 && init == keys[..|keys| - 1] && key !in init
    requires forall i, j :: 0 <= i < j < |keys| ==> keys[i] != keys[j]
    requires forall k :: k in keys <==> k in q || k == key
    requires forall k :: k in keys <==> k in s
    requires NoEmptyLists(s)
    ensures forall i :: 0 <= i < |init| ==> init[i] in s && s[init[i]] != [] && init[i] !in Empty()
    ensures forall i, j :: 0 <= i < j < |init| ==> init[i] != init[j]
    ensures forall k :: k in init <==> k in q && k != key
  {
    assert keys == init + [keys[|keys| - 1]];
    assert keys[|keys| - 1] == key by {
      assert key in keys;
      var j :| 0 <= j < |keys| && keys[j] == key;
      assert j == |keys| - 1;
    }
    forall i | 0 <= i < |init|
      ensures init[i] in s && s[init[i]] != [] && init[i] !in Empty()
    {
      assert init[i] == keys[i];
    }
    forall i, j | 0 <= i < j < |init|
      ensures init[i] != init[j]
    {
      assert init[i] == keys[i] && init[j] == keys[j];
    }
    forall k
      ensures k in init <==> k in q && k != key
    {
      if k in q && k != key {
        assert k in keys;
        var i :| 0 <= i < |keys| && keys[i] == k;
        assert i != |keys| - 1;
        assert init[i] == k;
      }
      if k in init {
        var i :| 0 <= i < |init| && init[i] == k;
        assert keys[i] == k;
      }
    }
  }

  lemma OthersKept(q: Values, key: GoString, uri: GoString, x: GoString, init: seq<GoString>, r: Values)
    requires forall k :: k in init <==> k in q && k != key
    requires r == Empty() + (map k | k in init :: Set(q, key, uri)[k])
    ensures r[key := [x]] == Set(q, key, x)
  {
    var lhs, rhs := r[key := [x]], Set(q, key, x);
    assert lhs.Keys == rhs.Keys;
    forall k | k in lhs
      ensures lhs[k] == rhs[k]
    {
    }
  }

  /** The glued piece and the three remaining pieces. */
  lemma ReadTail(r: Values, key: GoString, uri: GoString, k1: GoString, v1: GoString, k2: GoString, v2: GoString,
                 k3: GoString, v3: GoString, k4: GoString, v4: GoString)
    requires key !in r
    requires PlainKey(key) && PlainKey(k1) && PlainKey(k2) && PlainKey(k3) && PlainKey(k4)
    ensures AddPieces(r, [Piece(key, uri) + Piece(k1, v1), Piece(k2, v2), Piece(k3, v3), Piece(k4, v4)]) ==
      Add(Add(Add(r[key := [SeamValue(uri, k1, v1)]], k2, v2), k3, v3), k4, v4)
  {
    var p1, p2, p3, p4 := Piece(key, uri) + Piece(k1, v1), Piece(k2, v2), Piece(k3, v3), Piece(k4, v4);
    var t3: seq<GoString> := [p4];
    var t2 := [p3] + t3;
    var t1 := [p2] + t2;
    assert [p1, p2, p3, p4] == [p1] + t1;
    var r1 := r[key := [SeamValue(uri, k1, v1)]];
    ReadGluedPiece(r, key, uri, k1, v1);
    AddPiecesCons(r, p1, t1);
    assert AddPieces(r, [p1, p2, p3, p4]) == AddPieces(r1, t1);
    ReadPlainPiece(r1, k2, v2);
    var r2 := Add(r1, k2, v2);
    AddPiecesCons(r1, p2, t2);
    assert AddPieces(r1, t1) == AddPieces(r2, t2);
    ReadPlainPiece(r2, k3, v3);
    var r3 := Add(r2, k3, v3);
    AddPiecesCons(r2, p3, t3);
    assert AddPieces(r2, t2) == AddPieces(r3, t3);
    ReadPlainPiece(r3, k4, v4);
    AddPiecesCons(r3, p4, []);
    assert t3 == [p4] + [];
    assert AddPieces(r3, t3) == AddPieces(Add(r3, k4, v4), []);
  }

  lemma ReadPlainPiece(v: Values, key: GoString, value: GoString)
    requires PlainKey(key)
    ensures AddPiece(v, Piece(key, value)) == Add(v, key, value)
  {
    PlainText(key);
    ReadPiece(v, key, value);
  }

  /** The value the parser reads for the piece of `key` with the piece `k1=v1` run into it. */
  function SeamValue(uri: GoString, k1: GoString, v1: GoString): GoString {
    uri + k1 + "=" + v1
  }

  /** A piece with the next piece run into it: one parameter, whose value holds the second key, "=" and value. */
  lemma ReadGluedPiece(r: Values, key: GoString, uri: GoString, k1: GoString, v1: GoString)
    requires key !in r
    requires PlainKey(key) && PlainKey(k1)
    ensures AddPiece(r, Piece(key, uri) + Piece(k1, v1)) == r[key := [SeamValue(uri, k1, v1)]]
  {
    var value := QueryEscape(uri) + (k1 + "=") + QueryEscape(v1);
    GluedPieceShape(key, uri, k1, v1);
    PlainText(key);
    CutAtFirst(key, '=', value);
    UnescapeGlued(uri, k1, v1);
    AddNew(r, key, SeamValue(uri, k1, v1));
  }

  lemma GluedPieceShape(key: GoString, uri: GoString, k1: GoString, v1: GoString)
    ensures Piece(key, uri) + Piece(k1, v1) == key + ['='] + (QueryEscape(uri) + (k1 + "=") + QueryEscape(v1))
  {
    var eq: GoString := "=";
    assert eq == ['='];
    Regroup(key, eq, QueryEscape(uri), k1 + eq, QueryEscape(v1));
  }

  lemma UnescapeGlued(uri: GoString, k1: GoString, v1: GoString)
    requires PlainKey(k1)
    ensures QueryUnescape(QueryEscape(uri) + (k1 + "=") + QueryEscape(v1)) == Some(SeamValue(uri, k1, v1))
  {
    var eq: GoString := "=";
    UnescapeOther('=');
    assert eq == ['='];
    PlainText(k1);
    UnescapeConcat(k1, eq);
    UnescapeEscape(uri);
    UnescapeEscape(v1);
    UnescapeConcat(QueryEscape(uri), k1 + eq);
    UnescapeConcat(QueryEscape(uri) + (k1 + eq), QueryEscape(v1));
    ConcatAssoc(uri, k1, eq);
  }
}
