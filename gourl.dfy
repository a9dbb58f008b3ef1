/**
 * The part of Go's `net/url` package the program uses: query escaping
 * (`QueryEscape`, `QueryUnescape`), `url.Values` with `Set`, `Add` and `Encode`,
 * and `ParseQuery`, which `URL.Query()` calls and whose error it drops.
 *
 * Escaping works byte by byte: letters, digits and "-_.~" are kept, a space
 * becomes "+", every other byte becomes "%" and two upper-case hex digits.
 * `Encode` lists the keys in Go's string order and writes `key=value` for each
 * value of each key, joined by "&". `ParseQuery` splits on "&", skips empty
 * pieces and pieces holding ";", cuts each piece at its first "=", unescapes
 * both halves, skips the piece if either does not unescape, and appends the
 * value to the key's list.
 */
module GoUrl {
  import opened Wrappers
  import opened GoStrings

  // ---------------------------------------------------------------------------
  // Escaping.

  predicate Unreserved(c: Byte) {
    'a' <= c <= 'z' || 'A' <= c <= 'Z' || '0' <= c <= '9' || c == '-' || c == '_' || c == '.' || c == '~'
  }

  predicate IsHex(c: Byte) {
    '0' <= c <= '9' || 'a' <= c <= 'f' || 'A' <= c <= 'F'
  }

  function Unhex(c: Byte): (d: nat)
    requires IsHex(c)
    ensures d < 16
  {
    if '0' <= c <= '9' then c as int - '0' as int
    else if 'a' <= c <= 'f' then c as int - 'a' as int + 10
    else c as int - 'A' as int + 10
  }

  /** The upper-case hex digit Go writes for `d`. */
  function HexChar(d: nat): (c: Byte)
    requires d < 16
    ensures IsHex(c) && Unhex(c) == d
  {
    if d < 10 then (d + '0' as int) as char else (d - 10 + 'A' as int) as char
  }

  function EscapeByte(c: Byte): (r: GoString)
    ensures '&' !in r && '=' !in r && ';' !in r
  {
    if Unreserved(c) then [c]
    else if c == ' ' then "+"
    else ['%', HexChar(c as int / 16), HexChar(c as int % 16)]
  }

  /** `url.QueryEscape`. The result never holds the bytes that delimit a query. */
  function QueryEscape(s: GoString): (r: GoString)
    ensures '&' !in r && '=' !in r && ';' !in r
    decreases |s|
  {
    if s == [] then [] else EscapeByte(s[0]) + QueryEscape(s[1..])
  }

  /** `url.QueryUnescape`: None where Go reports a malformed "%" escape. */
  function QueryUnescape(s: GoString): Option<GoString>
    decreases |s|
  {
    if s == [] then Some([])
    else if s[0] == '%' then
      if |s| >= 3 && IsHex(s[1]) && IsHex(s[2]) then
        var rest :- QueryUnescape(s[3..]);
        Some([(16 * Unhex(s[1]) + Unhex(s[2])) as char] + rest)
      else None
    else
      var rest :- QueryUnescape(s[1..]);
      Some([if s[0] == '+' then ' ' else s[0]] + rest)
  }

  /** Unescaping undoes escaping, for every byte string. */
  lemma {:induction false} UnescapeEscape(s: GoString)
    ensures QueryUnescape(QueryEscape(s)) == Some(s)
    decreases |s|
  {
    if s != [] {
      var c := s[0];
      UnescapeEscape(s[1..]);
      var e := EscapeByte(c);
      UnescapeConcat(e, QueryEscape(s[1..]));
      if !Unreserved(c) && c != ' ' {
        assert 16 * (c as int / 16) + c as int % 16 == c as int;
        assert e[3..] == [];
      } else {
        assert e[1..] == [];
      }
      assert s == [c] + s[1..];
    }
  }

  /** Unescaping a concatenation of two well-formed pieces unescapes each piece. */
  lemma {:induction false} UnescapeConcat(a: GoString, b: GoString)
    requires QueryUnescape(a).Some? && QueryUnescape(b).Some?
    ensures QueryUnescape(a + b) == Some(QueryUnescape(a).value + QueryUnescape(b).value)
    decreases |a|
  {
    if a == [] {
      assert a + b == b;
      assert QueryUnescape(a) == Some([]);
      assert [] + QueryUnescape(b).value == QueryUnescape(b).value;
    } else if a[0] == '%' {
      UnescapeConcat(a[3..], b);
      assert (a + b)[0] == '%' && (a + b)[1] == a[1] && (a + b)[2] == a[2];
      assert (a + b)[3..] == a[3..] + b;
      var c: Byte := (16 * Unhex(a[1]) + Unhex(a[2])) as char;
      var ra, rb := QueryUnescape(a[3..]).value, QueryUnescape(b).value;
      assert QueryUnescape(a) == Some([c] + ra);
      assert QueryUnescape(a + b) == Some([c] + (ra + rb));
      ConcatAssoc([c], ra, rb);
    } else {
      UnescapeConcat(a[1..], b);
      assert (a + b)[0] == a[0];
      assert (a + b)[1..] == a[1..] + b;
      var c := if a[0] == '+' then ' ' else a[0];
      var ra, rb := QueryUnescape(a[1..]).value, QueryUnescape(b).value;
      assert QueryUnescape(a) == Some([c] + ra);
      assert QueryUnescape(a + b) == Some([c] + (ra + rb));
      ConcatAssoc([c], ra, rb);
    }
  }

  /** A byte other than "%" and "+" unescapes to itself. */
  lemma UnescapeOther(c: Byte)
    requires c != '%' && c != '+'
    ensures QueryUnescape([c]) == Some([c])
  {
    var s := [c];
    assert s[1..] == [];
    assert QueryUnescape(s[1..]) == Some([]);
    assert [c] + [] == [c];
  }

  /** Bytes that need no escaping and are not "+" or "%" pass through both directions unchanged. */
  lemma {:induction false} PlainText(s: GoString)
    requires forall i :: 0 <= i < |s| ==> Unreserved(s[i])
    ensures QueryEscape(s) == s
    ensures QueryUnescape(s) == Some(s)
    decreases |s|
  {
    if s != [] {
      PlainText(s[1..]);
      assert s == [s[0]] + s[1..];
    }
  }

  // ---------------------------------------------------------------------------
  // url.Values: every key maps to the list of its values.

  type Values = map<GoString, seq<GoString>>

  function Get(v: Values, key: GoString): seq<GoString> {
    if key in v then v[key] else []
  }

  /** `Values.Set`: `key` ends up with the one value `value`, whatever it had before. */
  function Set(v: Values, key: GoString, value: GoString): Values {
    v[key := [value]]
  }

  /** `Values.Add`: `value` is appended to the list of `key`. */
  function Add(v: Values, key: GoString, value: GoString): Values {
    v[key := Get(v, key) + [value]]
  }

  /** Every key listed has at least one value: true of everything ParseQuery builds. */
  predicate NoEmptyLists(v: Values) {
    forall k :: k in v ==> v[k] != []
  }

  /** The `key=value` pieces of one key, in the order of its values. */
  function KeyPieces(escapedKey: GoString, values: seq<GoString>): (r: seq<GoString>)
    ensures |r| == |values|
    decreases |values|
  {
    if values == [] then []
    else [escapedKey + "=" + QueryEscape(values[0])] + KeyPieces(escapedKey, values[1..])
  }

  /** The pieces of the listed keys, key after key. */
  function Pieces(keys: seq<GoString>, v: Values): seq<GoString>
    requires forall i :: 0 <= i < |keys| ==> keys[i] in v
    decreases |keys|
  {
    if keys == [] then []
    else KeyPieces(QueryEscape(keys[0]), v[keys[0]]) + Pieces(keys[1..], v)
  }

  lemma {:induction false} PiecesAppend(a: seq<GoString>, b: seq<GoString>, v: Values)
    requires forall i :: 0 <= i < |a| ==> a[i] in v
    requires forall i :: 0 <= i < |b| ==> b[i] in v
    ensures Pieces(a + b, v) == Pieces(a, v) + Pieces(b, v)
    decreases |a|
  {
    if a == [] {
      assert a + b == b;
    } else {
      assert (a + b)[0] == a[0] && (a + b)[1..] == a[1..] + b;
      PiecesAppend(a[1..], b, v);
    }
  }

  /** `Values.Encode`: the pieces in ascending key order, joined by "&". */
  function Encode(v: Values): GoString {
    Join('&', Pieces(SortedList(v.Keys), v))
  }

  // ---------------------------------------------------------------------------
  // URLs.

  /**
   * A parsed `url.URL`. Only `RawQuery` is read or written by the program;
   * `rest` stands for every other field (scheme, host, path, fragment, ...),
   * which are carried along unchanged.
   */
  datatype Url = Url(rest: GoString, rawQuery: GoString)

  /** `URL.Query()`. */
  function Query(u: Url): Values {
    ParseQuery(u.rawQuery)
  }

  // ---------------------------------------------------------------------------
  // ParseQuery.

  /** One piece of a query, as ParseQuery handles it. */
  function AddPiece(v: Values, piece: GoString): Values {
    if ';' in piece || piece == [] then v
    else
      var (key, value, _) := Cut(piece, '=');
      match (QueryUnescape(key), QueryUnescape(value))
      case (Some(k), Some(x)) => Add(v, k, x)
      case _ => v
  }

  function AddPieces(v: Values, pieces: seq<GoString>): Values
    decreases |pieces|
  {
    if pieces == [] then v else AddPieces(AddPiece(v, pieces[0]), pieces[1..])
  }

  /** `url.ParseQuery`, with its error dropped as `URL.Query()` drops it. */
  function ParseQuery(query: GoString): (r: Values)
    ensures NoEmptyLists(r)
  {
    AddPiecesKeepsLists(map[], Split(query, '&'));
    AddPieces(map[], Split(query, '&'))
  }

  lemma {:induction false} AddPiecesKeepsLists(v: Values, pieces: seq<GoString>)
    requires NoEmptyLists(v)
    ensures NoEmptyLists(AddPieces(v, pieces))
    decreases |pieces|
  {
    if pieces != [] {
      AddPiecesKeepsLists(AddPiece(v, pieces[0]), pieces[1..]);
    }
  }

  lemma {:induction false} AddPiecesConcat(v: Values, a: seq<GoString>, b: seq<GoString>)
    ensures AddPieces(v, a + b) == AddPieces(AddPieces(v, a), b)
    decreases |a|
  {
    if a == [] {
      assert a + b == b;
    } else {
      AddPiecesConcat(AddPiece(v, a[0]), a[1..], b);
      assert (a + b)[1..] == a[1..] + b;
    }
  }

  /** A piece that Encode writes reads back as that key and value. */
  lemma ReadPiece(v: Values, key: GoString, value: GoString)
    ensures AddPiece(v, QueryEscape(key) + "=" + QueryEscape(value)) == Add(v, key, value)
  {
    var piece := QueryEscape(key) + "=" + QueryEscape(value);
    CutAtFirst(QueryEscape(key), '=', QueryEscape(value));
    UnescapeEscape(key);
    UnescapeEscape(value);
    assert ';' !in piece by {
      assert piece == QueryEscape(key) + ['='] + QueryEscape(value);
    }
  }

  lemma {:induction false} ReadKeyPieces(v: Values, key: GoString, values: seq<GoString>)
    ensures AddPieces(v, KeyPieces(QueryEscape(key), values))
         == if values == [] then v else v[key := Get(v, key) + values]
    decreases |values|
  {
    if values != [] {
      var ek := QueryEscape(key);
      var p0, rest := ek + "=" + QueryEscape(values[0]), KeyPieces(ek, values[1..]);
      assert KeyPieces(ek, values) == [p0] + rest;
      AddPiecesCons(v, p0, rest);
      ReadPiece(v, key, values[0]);
      ReadKeyPieces(Add(v, key, values[0]), key, values[1..]);
      AddThenAppend(v, key, values);
    }
  }

  lemma AddPiecesCons(v: Values, p: GoString, rest: seq<GoString>)
    ensures AddPieces(v, [p] + rest) == AddPieces(AddPiece(v, p), rest)
  {
    assert ([p] + rest)[1..] == rest;
  }

  lemma AddThenAppend(v: Values, key: GoString, values: seq<GoString>)
    requires values != []
    ensures (if values[1..] == [] then Add(v, key, values[0])
             else Add(v, key, values[0])[key := Get(Add(v, key, values[0]), key) + values[1..]])
         == v[key := Get(v, key) + values]
  {
    if values[1..] == [] {
      assert values == [values[0]];
    } else {
      assert Get(v, key) + [values[0]] + values[1..] == Get(v, key) + values;
    }
  }

  /** Reading back the pieces of keys that are new to `v` adds those keys with their lists. */
  lemma {:induction false} ReadPieces(v: Values, keys: seq<GoString>, w: Values)
    requires forall i :: 0 <= i < |keys| ==> keys[i] in w && w[keys[i]] != [] && keys[i] !in v
    requires forall i, j :: 0 <= i < j < |keys| ==> keys[i] != keys[j]
    ensures AddPieces(v, Pieces(keys, w)) == v + (map k | k in keys :: w[k])
    decreases |keys|
  {
    if keys != [] {
      var k0 := keys[0];
      var first, others := KeyPieces(QueryEscape(k0), w[k0]), Pieces(keys[1..], w);
      assert Pieces(keys, w) == first + others;
      AddPiecesConcat(v, first, others);
      ReadKeyPieces(v, k0, w[k0]);
      assert Get(v, k0) == [];
      assert [] + w[k0] == w[k0];
      var v' := v[k0 := w[k0]];
      assert AddPieces(v, first) == v';
      forall i | 0 <= i < |keys[1..]|
        ensures keys[1..][i] in w && w[keys[1..][i]] != [] && keys[1..][i] !in v'
      {
        assert keys[1..][i] == keys[i + 1];
      }
      forall i, j | 0 <= i < j < |keys[1..]|
        ensures keys[1..][i] != keys[1..][j]
      {
        assert keys[1..][i] == keys[i + 1] && keys[1..][j] == keys[j + 1];
      }
      ReadPieces(v', keys[1..], w);
      UnionStep(v, keys, w);
    }
  }

  lemma UnionStep(v: Values, keys: seq<GoString>, w: Values)
    requires keys != []
    requires forall i :: 0 <= i < |keys| ==> keys[i] in w
    ensures v[keys[0] := w[keys[0]]] + (map k | k in keys[1..] :: w[k]) == v + (map k | k in keys :: w[k])
  {
    var lhs := v[keys[0] := w[keys[0]]] + (map k | k in keys[1..] :: w[k]);
    var rhs := v + (map k | k in keys :: w[k]);
    assert forall k :: k in keys <==> k == keys[0] || k in keys[1..] by {
      assert keys == [keys[0]] + keys[1..];
    }
    assert lhs.Keys == rhs.Keys;
    forall k | k in lhs
      ensures lhs[k] == rhs[k]
    {
    }
  }

  lemma PiecesAreJoinable(keys: seq<GoString>, w: Values)
    requires forall i :: 0 <= i < |keys| ==> keys[i] in w
    ensures forall i :: 0 <= i < |Pieces(keys, w)| ==> Pieces(keys, w)[i] != [] && '&' !in Pieces(keys, w)[i]
  {
    forall i | 0 <= i < |Pieces(keys, w)|
      ensures Pieces(keys, w)[i] != [] && '&' !in Pieces(keys, w)[i]
    {
      PieceShape(keys, w, i);
    }
  }

  lemma {:induction false} PieceShape(keys: seq<GoString>, w: Values, i: nat)
    requires forall j :: 0 <= j < |keys| ==> keys[j] in w
    requires i < |Pieces(keys, w)|
    ensures exists k, x :: Pieces(keys, w)[i] == QueryEscape(k) + "=" + QueryEscape(x)
    decreases |keys|
  {
    var kp := KeyPieces(QueryEscape(keys[0]), w[keys[0]]);
    if i < |kp| {
      KeyPieceShape(keys[0], w[keys[0]], i);
    } else {
      PieceShape(keys[1..], w, i - |kp|);
    }
  }

  lemma {:induction false} KeyPieceShape(key: GoString, values: seq<GoString>, i: nat)
    requires i < |values|
    ensures KeyPieces(QueryEscape(key), values)[i] == QueryEscape(key) + "=" + QueryEscape(values[i])
    decreases |values|
  {
    if i > 0 {
      KeyPieceShape(key, values[1..], i - 1);
    }
  }

  /** A map rebuilt key by key from a listing of its keys; stated for any key and value type so that ParseEncode need not compare strings. */
  lemma RebuildMap<K, V>(keys: seq<K>, v: map<K, V>)
    requires forall k :: k in keys <==> k in v
    ensures map[] + (map k | k in keys :: v[k]) == v
  {
  }

  /** ParseQuery undoes Encode, for every set of values without an empty list. */
  lemma ParseEncode(v: Values)
    requires NoEmptyLists(v)
    ensures ParseQuery(Encode(v)) == v
  {
    var keys := SortedList(v.Keys);
    PiecesAreJoinable(keys, v);
    SplitJoin('&', Pieces(keys, v));
    ReadPieces(map[], keys, v);
    RebuildMap(keys, v);
  }
}
