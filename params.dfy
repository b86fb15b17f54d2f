/**
 * Connection parameters.
 *
 * The Go code carries session parameters as `url.Values` and as the query
 * strings that `url.Values.Encode` and `url.ParseQuery` convert them to and
 * from. Here a set of parameters is a map from name to value (only the first
 * value of a name is ever read), `EncodeParams` writes the names in sorted
 * order as `name=value` joined by '&', and `DecodeParams` reads such text
 * back. Percent-escaping is not modelled, so the round trip holds for names
 * free of '&' and '=' and values free of '&' -- the text that escaping would
 * otherwise guarantee.
 */
module Params {
  import opened Text

  type Params = map<string, string>

  // ---------------------------------------------------------------------
  // url.Values.Encode

  /** One `name=value` piece of a query string. */
  function Pair(name: string, value: string): (piece: string)
    ensures |piece| == |name| + 1 + |value|
    ensures piece[|name|] == '='
  {
    name + "=" + value
  }

  /** The pieces for `names`, in that order. */
  function Pairs(p: Params, names: seq<string>): (pieces: seq<string>)
    requires forall k :: k in names ==> k in p
    ensures |pieces| == |names|
    ensures forall i :: 0 <= i < |names| ==> pieces[i] == Pair(names[i], p[names[i]])
  {
    if names == [] then [] else [Pair(names[0], p[names[0]])] + Pairs(p, names[1..])
  }

  /** url.Values.Encode: the pieces sorted by name, joined by '&'. */
  function EncodeParams(p: Params): string {
    Join(Pairs(p, SortedKeys(p.Keys)), '&')
  }

  // ---------------------------------------------------------------------
  // url.ParseQuery followed by Values.Get

  /** The name of a piece: the text before its first '='. */
  function PieceName(piece: string): string {
    Before(piece, '=')
  }

  /** The value of a piece: the text after its first '=', or "" when it has none. */
  function PieceValue(piece: string): string {
    var name := Before(piece, '=');
    if |name| < |piece| then piece[|name| + 1..] else ""
  }

  /**
   * Pieces to parameters: empty pieces are skipped and, as Values.Get reads
   * the first value of a name, an earlier piece wins over a later one.
   */
  function DecodePieces(pieces: seq<string>): (p: Params)
    ensures forall k :: k in p ==> exists i :: 0 <= i < |pieces| && pieces[i] != "" && PieceName(pieces[i]) == k
  {
    if pieces == [] then map[]
    else
      var rest := DecodePieces(pieces[1..]);
      if pieces[0] == "" then rest
      else rest[PieceName(pieces[0]) := PieceValue(pieces[0])]
  }

  function DecodeParams(query: string): Params {
    DecodePieces(Split(query, '&'))
  }

  /** The parameters whose text survives encoding without escaping. */
  predicate Encodable(p: Params) {
    forall k :: k in p ==> '&' !in k && '=' !in k && '&' !in p[k]
  }

  /** A piece written by Pair reads back as its name and value. */
  lemma PairReadsBack(name: string, value: string)
    requires '=' !in name
    ensures PieceName(Pair(name, value)) == name
    ensures PieceValue(Pair(name, value)) == value
  {
    assert Pair(name, value) == name + ("=" + value);
    BeforeOfFreePrefix(name, "=" + value, '=');
    assert Pair(name, value)[|name| + 1..] == value;
  }

  /** The first piece for `names` is decoded last, so it wins over the rest. */
  lemma DecodePiecesCons(p: Params, names: seq<string>)
    requires Encodable(p)
    requires names != [] && forall k :: k in names ==> k in p
    ensures forall k :: k in names[1..] ==> k in p
    ensures DecodePieces(Pairs(p, names)) == DecodePieces(Pairs(p, names[1..]))[names[0] := p[names[0]]]
  {
    var n := names[0];
    assert forall k :: k in names[1..] ==> k in names;
    PairReadsBack(n, p[n]);
    var pieces := Pairs(p, names);
    assert pieces[0] == Pair(n, p[n]) != "";
    assert pieces[1..] == Pairs(p, names[1..]);
  }

  /** Adding the head of `names` to the comprehension over its tail. */
  lemma MapCons(p: Params, names: seq<string>)
    requires names != [] && forall k :: k in names ==> k in p
    ensures forall k :: k in names[1..] ==> k in p
    ensures (map k | k in names[1..] :: p[k])[names[0] := p[names[0]]] == map k | k in names :: p[k]
  {
    assert forall k :: k in names <==> k == names[0] || k in names[1..];
  }

  /** Decoding the pieces for `names` gives exactly those names with their values. */
  lemma {:induction false} DecodePairs(p: Params, names: seq<string>)
    requires Encodable(p)
    requires forall k :: k in names ==> k in p
    ensures DecodePieces(Pairs(p, names)) == map k | k in names :: p[k]
    decreases |names|
  {
    if names != [] {
      DecodePiecesCons(p, names);
      DecodePairs(p, names[1..]);
      MapCons(p, names);
    }
  }

  /** No piece of encodable parameters holds the '&' that separates pieces. */
  lemma PiecesHaveNoAmpersand(p: Params, names: seq<string>)
    requires Encodable(p)
    requires forall k :: k in names ==> k in p
    ensures forall i :: 0 <= i < |names| ==> '&' !in Pairs(p, names)[i]
  {
    forall i | 0 <= i < |names| ensures '&' !in Pairs(p, names)[i] {
      var n := names[i];
      assert n in p;
      assert Pairs(p, names)[i] == n + "=" + p[n];
    }
  }

  /** The comprehension over a sequence holding exactly the keys of `p` is `p` itself. */
  lemma MapOverAllKeys(p: Params, names: seq<string>)
    requires forall k :: k in p <==> k in names
    ensures (map k | k in names :: p[k]) == p
  {
  }

  /** ParseQuery reads back what Encode wrote. */
  lemma DecodeEncode(p: Params)
    requires Encodable(p)
    ensures DecodeParams(EncodeParams(p)) == p
  {
    var names := SortedKeys(p.Keys);
    var pieces := Pairs(p, names);
    assert EncodeParams(p) == Join(pieces, '&');
    if p == map[] {
      assert names == [] && pieces == [];
      assert Split("", '&') == [""];
      assert DecodePieces([""]) == map[];
    } else {
      assert |pieces| >= 1;
      PiecesHaveNoAmpersand(p, names);
      SplitJoin(pieces, '&');
      assert DecodeParams(EncodeParams(p)) == DecodePieces(pieces);
      DecodePairs(p, names);
      MapOverAllKeys(p, names);
    }
  }

  /** A single `name=value` piece decodes to that one parameter. */
  lemma DecodeOnePair(n: string, v: string)
    requires '&' !in n && '=' !in n && '&' !in v
    ensures DecodeParams(Pair(n, v)) == map[n := v]
  {
    assert '&' !in Pair(n, v);
    SplitNoSep(Pair(n, v), '&');
    PairReadsBack(n, v);
    assert DecodePieces([Pair(n, v)]) == DecodePieces([])[n := v];
  }

  /** Two pieces joined by '&' decode to both parameters, the first winning on a shared name. */
  lemma DecodeTwoPairs(n1: string, v1: string, n2: string, v2: string)
    requires '&' !in n1 && '=' !in n1 && '&' !in v1
    requires '&' !in n2 && '=' !in n2 && '&' !in v2
    ensures DecodeParams(Pair(n1, v1) + "&" + Pair(n2, v2)) == map[n2 := v2][n1 := v1]
  {
    var a, b := Pair(n1, v1), Pair(n2, v2);
    assert '&' !in a && '&' !in b;
    SplitNoSep(b, '&');
    SplitHead(a, '&', b);
    assert Split(a + "&" + b, '&') == [a, b];
    PairReadsBack(n1, v1);
    PairReadsBack(n2, v2);
    assert [a, b][1..] == [b];
    assert DecodePieces([b]) == DecodePieces([])[n2 := v2];
  }

  /** Distinct encodable parameters never encode to the same text. */
  lemma EncodeInjective(p: Params, q: Params)
    requires Encodable(p) && Encodable(q)
    ensures EncodeParams(p) == EncodeParams(q) ==> p == q
  {
    DecodeEncode(p);
    DecodeEncode(q);
  }

  // ---------------------------------------------------------------------
  // buildParamString (instance.go:105-115)

  /** Values.Set for every parameter of `m`, one at a time, over `v0`. */
  method SetAll(v0: Params, m: Params) returns (v: Params)
    ensures v == v0 + m
  {
    v := v0;
    var todo := m.Keys;
    while todo != {}
      invariant todo <= m.Keys
      invariant v == v0 + map k | k in m.Keys - todo :: m[k]
      decreases |todo|
    {
      var name :| name in todo;
      ghost var done := map k | k in m.Keys - todo :: m[k];
      v := v[name := m[name]];
      todo := todo - {name};
      assert (map k | k in m.Keys - todo :: m[k]) == done[name := m[name]];
    }
    assert (map k | k in m.Keys - todo :: m[k]) == m;
  }

  /**
   * Start from every default, then set every caller parameter: the names of
   * both, the caller's value on a collision, the default's otherwise.
   */
  method MergeParams(defaults: Params, overrides: Params) returns (v: Params)
    ensures v.Keys == defaults.Keys + overrides.Keys
    ensures forall k :: k in overrides ==> v[k] == overrides[k]
    ensures forall k :: k in defaults && k !in overrides ==> v[k] == defaults[k]
    ensures v == defaults + overrides
  {
    v := SetAll(map[], defaults);
    assert map[] + defaults == defaults;
    v := SetAll(v, overrides);
  }

  /** The merged parameters stay encodable when both sides are. */
  lemma MergeEncodable(defaults: Params, overrides: Params)
    requires Encodable(defaults) && Encodable(overrides)
    ensures Encodable(defaults + overrides)
  {
    forall k | k in defaults + overrides
      ensures '&' !in k && '=' !in k && '&' !in (defaults + overrides)[k]
    {
      if k in overrides {
        assert (defaults + overrides)[k] == overrides[k];
      } else {
        assert (defaults + overrides)[k] == defaults[k];
      }
    }
  }

  // ---------------------------------------------------------------------
  // Cache keys (instance.go:139)

  /** The key of the pool cache: "schema?params". */
  function CacheKey(schema: string, fullParams: string): (key: string)
    ensures HasPrefix(key, schema + "?")
  {
    assert (schema + "?" + fullParams)[..|schema| + 1] == schema + "?";
    schema + "?" + fullParams
  }

  /** A '?'-free schema name and the parameters can be read back from the key. */
  lemma CacheKeyParts(schema: string, fullParams: string)
    requires '?' !in schema
    ensures Before(CacheKey(schema, fullParams), '?') == schema
    ensures CacheKey(schema, fullParams)[|schema| + 1..] == fullParams
  {
    assert CacheKey(schema, fullParams) == schema + ("?" + fullParams);
    BeforeOfFreePrefix(schema, "?" + fullParams, '?');
  }

  /** Requests for different schemas or different merged parameters get different keys. */
  lemma DistinctRequestsDistinctKeys(s1: string, p1: Params, s2: string, p2: Params)
    requires '?' !in s1 && '?' !in s2
    requires Encodable(p1) && Encodable(p2)
    requires s1 != s2 || p1 != p2
    ensures CacheKey(s1, EncodeParams(p1)) != CacheKey(s2, EncodeParams(p2))
  {
    CacheKeyParts(s1, EncodeParams(p1));
    CacheKeyParts(s2, EncodeParams(p2));
    EncodeInjective(p1, p2);
  }
}
