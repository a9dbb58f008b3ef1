/**
 * The part of Go's `net/http` package the program uses: an outgoing request
 * with its header map. `Header.Add` files a value under the canonical form of
 * the key (`textproto.CanonicalMIMEHeaderKey`): when every byte of the key is a
 * token byte, the first letter and every letter after "-" are upper-cased and
 * all other letters lower-cased; a key with any other byte is kept as it is.
 */
module GoHttp {
  import opened GoStrings
  import opened GoUrl

  predicate HeaderFieldByte(c: Byte) {
    'a' <= c <= 'z' || 'A' <= c <= 'Z' || '0' <= c <= '9' || c in "!#$%&'*+-.^_`|~"
  }

  predicate IsLower(c: Byte) { 'a' <= c <= 'z' }

  predicate IsUpper(c: Byte) { 'A' <= c <= 'Z' }

  function ToLower(c: Byte): (r: Byte)
    ensures !IsUpper(r)
  {
    if IsUpper(c) then (c as int + 32) as char else c
  }

  function ToUpper(c: Byte): (r: Byte)
    ensures !IsLower(r)
  {
    if IsLower(c) then (c as int - 32) as char else c
  }

  function LowerAll(s: GoString): (r: GoString)
    ensures |r| == |s|
  {
    seq(|s|, i requires 0 <= i < |s| => ToLower(s[i]))
  }

  /** The case of byte `i`: upper at the start of the key and after "-", lower elsewhere. */
  function CaseAt(s: GoString, i: nat): Byte
    requires i < |s|
  {
    if i == 0 || s[i - 1] == '-' then ToUpper(s[i]) else ToLower(s[i])
  }

  /** The case-fixing pass of the canonicalisation, byte by byte. */
  function Canonicalize(s: GoString): (r: GoString)
    ensures |r| == |s|
  {
    seq(|s|, i requires 0 <= i < |s| => CaseAt(s, i))
  }

  predicate AllHeaderFieldBytes(s: GoString) {
    forall i :: 0 <= i < |s| ==> HeaderFieldByte(s[i])
  }

  /** `textproto.CanonicalMIMEHeaderKey`. */
  function CanonicalHeaderKey(s: GoString): (r: GoString)
    ensures |r| == |s|
  {
    if AllHeaderFieldBytes(s) then Canonicalize(s) else s
  }

  type Header = map<GoString, seq<GoString>>

  /** `Header.Add`: the value is appended under the canonical key. */
  function HeaderAdd(h: Header, key: GoString, value: GoString): Header {
    var k := CanonicalHeaderKey(key);
    h[k := (if k in h then h[k] else []) + [value]]
  }

  lemma HeaderAddNew(h: Header, key: GoString, value: GoString)
    requires CanonicalHeaderKey(key) !in h
    ensures HeaderAdd(h, key, value) == h[CanonicalHeaderKey(key) := [value]]
  {
    assert [] + [value] == [value];
  }

  /** `Header.Values`: the values filed under the canonical form of `key`. */
  function HeaderValues(h: Header, key: GoString): seq<GoString> {
    var k := CanonicalHeaderKey(key);
    if k in h then h[k] else []
  }

  datatype Request = Request(verb: GoString, url: Url, header: Header)

  /** `http.NewRequest` without a body: the request starts with an empty header. */
  function NewRequest(verb: GoString, url: Url): Request {
    Request(verb, url, map[])
  }

  // ---------------------------------------------------------------------------
  // Properties of the canonical form.

  lemma CanonicalizeKeepsBytes(s: GoString)
    requires AllHeaderFieldBytes(s)
    ensures AllHeaderFieldBytes(Canonicalize(s))
    ensures LowerAll(Canonicalize(s)) == LowerAll(s)
  {
    forall i | 0 <= i < |s|
      ensures HeaderFieldByte(Canonicalize(s)[i]) && ToLower(Canonicalize(s)[i]) == ToLower(s[i])
    {
      assert HeaderFieldByte(s[i]);
    }
  }

  lemma CanonicalizeIdempotent(s: GoString)
    ensures Canonicalize(Canonicalize(s)) == Canonicalize(s)
  {
    var r := Canonicalize(s);
    forall i | 0 <= i < |s|
      ensures Canonicalize(r)[i] == r[i]
    {
      if i > 0 {
        assert r[i - 1] == '-' <==> s[i - 1] == '-';
      }
    }
  }

  /** Canonicalising twice is canonicalising once. */
  lemma CanonicalIdempotent(s: GoString)
    ensures CanonicalHeaderKey(CanonicalHeaderKey(s)) == CanonicalHeaderKey(s)
  {
    if AllHeaderFieldBytes(s) {
      CanonicalizeKeepsBytes(s);
      CanonicalizeIdempotent(s);
    }
  }

  /** The canonical key differs from the key only in the case of its letters. */
  lemma CanonicalIgnoresCase(s: GoString)
    ensures LowerAll(CanonicalHeaderKey(s)) == LowerAll(s)
  {
    if AllHeaderFieldBytes(s) {
      CanonicalizeKeepsBytes(s);
    }
  }
}
