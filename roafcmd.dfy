/**
 * cmd/roaf's `parseResponse`: the decoded calendar is printed either as one
 * JSON document of the whole list, after every record has been enriched in
 * place, or as one text line per record, in the order of the response.
 */
module RoafCmd {
  import opened Wrappers
  import opened GoStrings
  import opened GoFmt
  import opened Iroaf

  /** The list the enrich loop leaves behind: every record with its name filled in. */
  function EnrichedList(rs: seq<Fraksjon>): seq<Fraksjon> {
    seq(|rs|, i requires 0 <= i < |rs| => Enriched(rs[i]))
  }

  /**
   * `for i := range datolst { datolst[i].Enrich() }`: each slot is enriched in
   * place, in index order.
   */
  method EnrichAll(a: array<Fraksjon>)
    modifies a
    ensures a[..] == EnrichedList(old(a[..]))
  {
    var i := 0;
    while i < a.Length
      invariant 0 <= i <= a.Length
      invariant forall j :: 0 <= j < i ==> a[j] == Enriched(old(a[j]))
      invariant forall j :: i <= j < a.Length ==> a[j] == old(a[j])
    {
      Enrich(a, i);
      i := i + 1;
    }
  }

  /**
   * `parseResponse`. `decoded` is what `json.Unmarshal` makes of the response
   * body, None where it reports an error; `marshal` stands for `json.Marshal`
   * of the list, None where it reports an error. A decode error exits with
   * status 1 before anything is printed. In JSON mode the enriched list is
   * printed as one line, or nothing when marshalling fails (the error value
   * is built and dropped). In text mode each record is printed with `%s`, one
   * line per record, in response order.
   */
  method ParseResponse(decoded: Option<seq<Fraksjon>>, jsonOutput: bool, marshal: seq<Fraksjon> -> Option<GoString>)
    returns (out: Outcome)
    ensures decoded.None? ==> out == Outcome([], 1)
    ensures decoded.Some? ==> out.exitCode == 0
    ensures decoded.Some? && jsonOutput ==>
      out.stdout == (if marshal(EnrichedList(decoded.value)).Some? then [marshal(EnrichedList(decoded.value)).value] else [])
    ensures decoded.Some? && !jsonOutput ==>
      |out.stdout| == |decoded.value| &&
      forall i :: 0 <= i < |decoded.value| ==> out.stdout[i] == Display(decoded.value[i])
  {
    if decoded.None? {
      return Outcome([], 1);
    }
    var rs := decoded.value;
    var datolst := new Fraksjon[|rs|](i requires 0 <= i < |rs| => rs[i]);
    assert datolst[..] == rs;
    if jsonOutput {
      EnrichAll(datolst);
      var j := marshal(datolst[..]);
      if j.None? {
        return Outcome([], 0);
      }
      return Outcome([j.value], 0);
    }
    var lines := TextLines(datolst, Display);
    return Outcome(lines, 0);
  }

  /**
   * `for i := range datolst { fmt.Printf("%s\n", datolst[i]) }`: the lines
   * printed, in order. `show` is what the `%s` verb makes of one record;
   * `ParseResponse` passes `Display`.
   */
  method TextLines(a: array<Fraksjon>, show: Fraksjon -> GoString) returns (lines: seq<GoString>)
    ensures |lines| == a.Length
    ensures forall k :: 0 <= k < a.Length ==> lines[k] == show(a[k])
  {
    lines := [];
    var i := 0;
    while i < a.Length
      invariant 0 <= i <= a.Length
      invariant |lines| == i
      invariant forall k :: 0 <= k < i ==> lines[k] == show(a[k])
    {
      lines := lines + [show(a[i])];
      i := i + 1;
    }
  }

  // ---------------------------------------------------------------------------
  // Properties.

  /**
   * Enriching the list keeps its length, order, codes and dates, sets every
   * name from the table ("" for an unknown code), and enriching again changes
   * nothing.
   */
  lemma EnrichedListProperties(rs: seq<Fraksjon>)
    ensures |EnrichedList(rs)| == |rs|
    ensures forall i :: 0 <= i < |rs| ==>
      EnrichedList(rs)[i].id == rs[i].id && EnrichedList(rs)[i].dates == rs[i].dates &&
      EnrichedList(rs)[i].name == Lookup(rs[i].id).0
    ensures EnrichedList(EnrichedList(rs)) == EnrichedList(rs)
  {
    var e := EnrichedList(rs);
    forall i | 0 <= i < |rs|
      ensures e[i].id == rs[i].id && e[i].dates == rs[i].dates && e[i].name == Lookup(rs[i].id).0
      ensures EnrichedList(e)[i] == e[i]
    {
      EnrichedProperties(rs[i]);
    }
  }

  /**
   * The text lines do not depend on the stored names: printing the enriched
   * list would give the same lines as printing the list as decoded.
   */
  lemma TextLinesIgnoreNames(rs: seq<Fraksjon>)
    ensures forall i :: 0 <= i < |rs| ==> Display(EnrichedList(rs)[i]) == Display(rs[i])
  {
    forall i | 0 <= i < |rs|
      ensures Display(EnrichedList(rs)[i]) == Display(rs[i])
    {
      EnrichedProperties(rs[i]);
    }
  }
}
