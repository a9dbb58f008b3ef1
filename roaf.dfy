/**
 * The older top-level program roaf.go: its own record without a name, whose
 * `String` prints the date only, and a `parseResponse` that prints records 0
 * and 1 under fixed labels.
 */
module Roaf {
  import opened Wrappers
  import opened GoStrings
  import opened GoTime
  import opened GoFmt
  import Iroaf

  /** One element of the provider's response, as roaf.go declares it. */
  datatype Fraksjon = Fraksjon(id: int, dates: seq<GoString>)

  /**
   * `Fraksjon.String`: the date of the first pickup, or "" when it does not
   * parse. Go indexes `TommeDatoer[0]` unguarded, so a first date is needed.
   */
  function String(f: Fraksjon): (r: GoString)
    requires |f.dates| > 0
    ensures ParseLayout(f.dates[0]).None? ==> r == []
    ensures ParseLayout(f.dates[0]).Some? ==> |f.dates[0]| >= 10 && r == f.dates[0][..10]
  {
    match ParseLayout(f.dates[0])
    case None => []
    case Some(t) =>
      DateOfParse(f.dates[0]);
      FormatDate(t)
  }

  /** What `%s` prints for a record: its `String`, or the recovered panic text for an empty date list. */
  function Display(f: Fraksjon): GoString {
    if |f.dates| == 0 then IndexPanic else String(f)
  }

  const RESTAVFALL_LABEL: GoString := "Restavfall: "
  const PAPIR_LABEL: GoString := "Papp/Papir: "

  /**
   * `parseResponse`. A decode error exits with status 1 before anything is
   * printed. Otherwise record 0 is printed under "Restavfall: " and record 1
   * under "Papp/Papir: ", whatever their codes; a response with fewer records
   * panics at the first missing index, after the lines before it (exit
   * status 2).
   */
  method ParseResponse(decoded: Option<seq<Fraksjon>>) returns (out: Outcome)
    ensures decoded.None? ==> out == Outcome([], 1)
    ensures decoded.Some? && |decoded.value| == 0 ==> out == Outcome([], 2)
    ensures decoded.Some? && |decoded.value| == 1 ==>
      out == Outcome([RESTAVFALL_LABEL + Display(decoded.value[0])], 2)
    ensures decoded.Some? && |decoded.value| >= 2 ==>
      out == Outcome([RESTAVFALL_LABEL + Display(decoded.value[0]), PAPIR_LABEL + Display(decoded.value[1])], 0)
  {
    if decoded.None? {
      return Outcome([], 1);
    }
    var datolst := decoded.value;
    var stdout: seq<GoString> := [];
    if |datolst| <= 0 {
      return Outcome(stdout, 2);
    }
    stdout := stdout + [RESTAVFALL_LABEL + Display(datolst[0])];
    if |datolst| <= 1 {
      return Outcome(stdout, 2);
    }
    stdout := stdout + [PAPIR_LABEL + Display(datolst[1])];
    return Outcome(stdout, 0);
  }

  // ---------------------------------------------------------------------------
  // Properties.

  /**
   * The old line is the date part of the new one: for the same code and dates,
   * internal/iroaf's `String` is the table name, ": " and roaf.go's `String`
   * when the date parses, and both are "" when it does not.
   */
  lemma StringIsDatePart(f: Fraksjon, name: GoString)
    requires |f.dates| > 0
    ensures ParseLayout(f.dates[0]).Some? ==>
      Iroaf.String(Iroaf.Fraksjon(f.id, name, f.dates)) == Iroaf.Lookup(f.id).0 + ": " + String(f)
    ensures ParseLayout(f.dates[0]).None? ==>
      Iroaf.String(Iroaf.Fraksjon(f.id, name, f.dates)) == String(f) == []
  {
  }

  /** The labels are fixed: the code of a record changes nothing it prints. */
  lemma DisplayIgnoresId(f: Fraksjon, id: int)
    ensures Display(f.(id := id)) == Display(f)
  {
  }
}
