/**
 * internal/iroaf: the waste fractions ("fraksjoner") the collection calendar
 * reports, their fixed codes and display names, and how one record is shown as
 * a text line, enriched with its name, and turned into JSON.
 */
module Iroaf {
  import opened Wrappers
  import opened GoStrings
  import opened GoTime
  import opened GoFmt

  /** A fraction code as the provider numbers them. */
  type FraksjonsType = int

  const REST: FraksjonsType := 1
  const PAPIR: FraksjonsType := 2
  const METALL: FraksjonsType := 4
  const MATAVFALL: FraksjonsType := 17

  /** The display name of each known code; code 3 is left unused, as the provider does. */
  const FrakStrings: map<FraksjonsType, GoString> := map[
    REST := "Restavfall",
    PAPIR := "Papp/Papir",
    MATAVFALL := "Matavfall",
    METALL := "Metall og glass"
  ]

  /** One element of the provider's response, possibly enriched with its name. */
  datatype Fraksjon = Fraksjon(id: FraksjonsType, name: GoString, dates: seq<GoString>)

  /**
   * The comma-ok lookup `fstring, ok := frakStrings[id]`: the name and true for
   * a known code; Go's zero value "" and false for any other.
   */
  function Lookup(id: FraksjonsType): (r: (GoString, bool))
    ensures r.1 <==> id == REST || id == PAPIR || id == METALL || id == MATAVFALL
    ensures r.1 <==> r.0 != []
    ensures r.1 ==> r.0 == FrakStrings[id]
  {
    if id in FrakStrings then (FrakStrings[id], true) else ("", false)
  }

  /**
   * `Fraksjon.String`: the name, ": " and the date of the first pickup, or ""
   * when that date does not parse. Go indexes `TommeDatoer[0]` unguarded and
   * panics on an empty list, so the function needs a first date. An unknown
   * code does not stop it: the name part is then empty.
   */
  function String(f: Fraksjon): (r: GoString)
    requires |f.dates| > 0
    ensures ParseLayout(f.dates[0]).None? ==> r == []
    ensures ParseLayout(f.dates[0]).Some? ==>
      |f.dates[0]| >= 10 && r == Lookup(f.id).0 + ": " + f.dates[0][..10]
  {
    match ParseLayout(f.dates[0])
    case None => []
    case Some(t) =>
      DateOfParse(f.dates[0]);
      Lookup(f.id).0 + ": " + FormatDate(t)
  }

  /**
   * What `fmt`'s `%s` prints for a record: its `String`, or, when `String`
   * panics on an empty date list, the panic text `fmt` recovers into.
   */
  function Display(f: Fraksjon): GoString {
    if |f.dates| == 0 then IndexPanic else String(f)
  }

  /** The record `Enrich` leaves behind. */
  function Enriched(f: Fraksjon): Fraksjon {
    f.(name := Lookup(f.id).0)
  }

  /**
   * `(*Fraksjon).Enrich` called on the slice element `a[i]`: the pointer
   * receiver is that slot of the array. The name is overwritten with the
   * table's name for the code, or "" for an unknown code; nothing else changes.
   */
  method Enrich(a: array<Fraksjon>, i: nat)
    requires i < a.Length
    modifies a
    ensures a[i].id == old(a[i].id) && a[i].dates == old(a[i].dates)
    ensures a[i].name == Lookup(old(a[i].id)).0
    ensures forall j :: 0 <= j < a.Length && j != i ==> a[j] == old(a[j])
  {
    var (fstring, _) := Lookup(a[i].id);
    a[i] := a[i].(name := fstring);
  }

  datatype JsonError = UnknownFraksjonId(id: FraksjonsType)

  /**
   * `Fraksjon.JSON`: an error for an unknown code, otherwise the encoding of
   * a copy of the record with its name filled in. `marshal` stands for
   * `json.Marshal`, which cannot fail on this struct of an int, a string and a
   * list of strings. The receiver is a value, so the caller's record is not
   * touched.
   */
  function JSON(f: Fraksjon, marshal: Fraksjon -> GoString): (r: Result<GoString, JsonError>)
    ensures r.Failure? <==> Lookup(f.id).1 == false
    ensures r.Failure? ==> r.error == UnknownFraksjonId(f.id)
    ensures r.Success? ==> r.value == marshal(Enriched(f))
  {
    if f.id !in FrakStrings then Failure(UnknownFraksjonId(f.id))
    else Success(marshal(f.(name := FrakStrings[f.id])))
  }

  // ---------------------------------------------------------------------------
  // Properties.

  /** The codes are the provider's, with 3 skipped, and exactly four of them have names. */
  lemma CodeTable()
    ensures REST == 1 && PAPIR == 2 && METALL == 4 && MATAVFALL == 17
    ensures FrakStrings.Keys == {1, 2, 4, 17} && |FrakStrings| == 4
    ensures 3 !in FrakStrings
    ensures FrakStrings[REST] == "Restavfall" && FrakStrings[PAPIR] == "Papp/Papir"
    ensures FrakStrings[METALL] == "Metall og glass" && FrakStrings[MATAVFALL] == "Matavfall"
  {
    assert FrakStrings.Keys == {1, 2, 4, 17};
  }

  /** Different codes have different names. */
  lemma NamesDistinct(a: FraksjonsType, b: FraksjonsType)
    requires a in FrakStrings && b in FrakStrings && a != b
    ensures FrakStrings[a] != FrakStrings[b]
  {
  }

  /** A known code and a parsable first date give "<name>: YYYY-MM-DD". */
  lemma StringKnown(f: Fraksjon)
    requires |f.dates| > 0 && f.id in FrakStrings && ParseLayout(f.dates[0]).Some?
    ensures String(f) == FrakStrings[f.id] + ": " + FormatDate(ParseLayout(f.dates[0]).value)
  {
    DateOfParse(f.dates[0]);
  }

  /** An unknown code still gives a line, with the name part empty: ": YYYY-MM-DD". */
  lemma StringUnknown(f: Fraksjon)
    requires |f.dates| > 0 && f.id !in FrakStrings && ParseLayout(f.dates[0]).Some?
    ensures String(f) == ": " + f.dates[0][..10]
  {
    assert Lookup(f.id).0 == [];
    assert [] + ": " + f.dates[0][..10] == ": " + f.dates[0][..10];
  }

  /** The line depends on the code and the first date only: a stored name, later dates do not matter. */
  lemma StringUsesIdAndFirstDate(f: Fraksjon, g: Fraksjon)
    requires |f.dates| > 0 && |g.dates| > 0
    requires f.id == g.id && f.dates[0] == g.dates[0]
    ensures String(f) == String(g)
  {
  }

  /** Enrich keeps the code and the dates, sets the name from the table, and is idempotent. */
  lemma EnrichedProperties(f: Fraksjon)
    ensures Enriched(f).id == f.id && Enriched(f).dates == f.dates
    ensures f.id in FrakStrings ==> Enriched(f).name == FrakStrings[f.id]
    ensures f.id !in FrakStrings ==> Enriched(f).name == []
    ensures Enriched(Enriched(f)) == Enriched(f)
    ensures |f.dates| > 0 ==> String(Enriched(f)) == String(f)
  {
  }

  /** The provider's usual timestamp parses. */
  lemma ExampleParses()
    ensures ParseLayout("2024-01-15T06:00:00") == Some(DateTime(2024, 1, 15, 6, 0, 0))
  {
    var t := DateTime(2024, 1, 15, 6, 0, 0);
    ParseFormat(t);
    ExampleFormats();
  }

  lemma ExampleFormats()
    ensures FormatLayout(DateTime(2024, 1, 15, 6, 0, 0)) == "2024-01-15T06:00:00"
  {
    var t := DateTime(2024, 1, 15, 6, 0, 0);
    ExampleDate();
    assert Pad2(6) == "06" && Pad2(0) == "00";
    var date: GoString := "2024-01-15";
    assert FormatLayout(t) == date + "T" + "06" + ":" + "00" + ":" + "00";
  }

  lemma ExampleDate()
    ensures FormatDate(DateTime(2024, 1, 15, 6, 0, 0)) == "2024-01-15"
  {
    assert Pad2(20) == "20" && Pad2(24) == "24";
    assert Pad4(2024) == "2024";
    assert Pad2(1) == "01" && Pad2(15) == "15";
  }

  /** A bare date does not match the layout, so the line is empty. */
  lemma StringExampleDateOnly(f: Fraksjon)
    requires f.dates == ["2024-01-15"]
    ensures String(f) == ""
  {
    var s: GoString := "2024-01-15";
    assert ParseDateChunks(s) == Some((2024, 1, 15, []));
  }
}
