/**
 * What the program's process leaves behind: the lines it writes to standard
 * output and its exit status, and the one piece of `fmt` behaviour the
 * presentation depends on.
 */
module GoFmt {
  import opened GoStrings

  /**
   * The program's observable result. Exit status 0 is a normal return from
   * `main`, 1 is `os.Exit(1)`, 2 is a run-time panic nobody recovers.
   */
  datatype Outcome = Outcome(stdout: seq<GoString>, exitCode: nat)

  /**
   * `fmt` recovers a panic raised inside a value's `String` method and prints
   * this in place of the value. It is what `%s` yields for a record whose
   * `String` indexes `TommeDatoer[0]` of an empty list.
   */
  const IndexPanic: GoString :=
    var verb: GoString := "%!s(PANIC=";
    var origin: GoString := "String method: ";
    var kind: GoString := "runtime error: ";
    var bounds: GoString := "index out of range ";
    var detail: GoString := "[0] with length 0)";
    verb + origin + kind + bounds + detail
}
