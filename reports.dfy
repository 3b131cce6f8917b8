/**
 * Error values and the error-accumulation algebra of the archiver:
 * `fuseErr`, `Report`, `ReportMsg`, `WrapErr`, `CombineReports` and
 * `Report.AsText` (main.go:47-108).
 */
module Reports {
  import opened Wrappers

  /** A Go `error`: nil, or the text its `Error()` method returns. */
  type Error = Option<string>

  predicate IsSuffix(suffix: string, s: string) {
    |suffix| <= |s| && s[|s| - |suffix|..] == suffix
  }

  /**
   * Fuses two independent errors into one. Neither message is lost:
   * the first stays at the front, the second at the back.
   */
  function FuseErr(err: Error, err2: Error): (r: Error)
    ensures r.None? <==> err.None? && err2.None?
    ensures err.Some? ==> r.Some? && err.value <= r.value
    ensures err2.Some? ==> r.Some? && IsSuffix(err2.value, r.value)
  {
    if err.None? then err2
    else if err2.None? then err
    else Some(err.value + "; " + err2.value)
  }

  /**
   * A failure report: a leaf (a message with an optional underlying error)
   * or the combination of two reports. In the source a combined report
   * holds a list, but only `CombineReports` builds one and always with
   * exactly two members.
   */
  datatype Report =
    | Leaf(message: string, err: Error)
    | Combined(first: Report, second: Report)

  function ReportMsg(message: string): Report {
    Leaf(message, None)
  }

  /** `WrapErr` panics on a nil error; here the error is a required string. */
  function WrapErr(err: string, message: string): Report {
    Leaf(message, Some(err))
  }

  /** The text one leaf contributes to the final report. */
  function LeafText(message: string, err: Error): (s: string)
    ensures "ERROR: " <= s && |s| > 0 && s[|s| - 1] == '\n'
  {
    if err.Some? then "ERROR: " + message + " - " + err.value + "\n"
    else "ERROR: " + message + "\n"
  }

  /**
   * The human-readable text of a report: the leaf texts in order. Every
   * report renders as a non-empty text that starts with "ERROR: " and
   * ends with a newline.
   */
  function AsText(r: Report): (s: string)
    ensures "ERROR: " <= s
    ensures s[|s| - 1] == '\n'
  {
    match r
    case Leaf(message, err) => LeafText(message, err)
    case Combined(first, second) => AsText(first) + AsText(second)
  }

  /** The text of an optional report; nil renders as nothing. */
  function TextOf(r: Option<Report>): string {
    if r.Some? then AsText(r.value) else ""
  }

  /**
   * Combines two optional reports: nil is the identity on both sides and
   * the text of the combination is the first text followed by the second.
   */
  function CombineReports(r1: Option<Report>, r2: Option<Report>): (r: Option<Report>)
    ensures r.None? <==> r1.None? && r2.None?
    ensures TextOf(r) == TextOf(r1) + TextOf(r2)
  {
    if r1.None? then r2
    else if r2.None? then r1
    else Some(Combined(r1.value, r2.value))
  }

  /** The leaves of a report, left to right: the ordered list of failure causes. */
  function Leaves(r: Report): (ls: seq<Report>)
    ensures |ls| > 0
    ensures forall i :: 0 <= i < |ls| ==> ls[i].Leaf?
  {
    match r
    case Leaf(_, _) => [r]
    case Combined(first, second) => Leaves(first) + Leaves(second)
  }

  function ConcatTexts(rs: seq<Report>): string {
    if rs == [] then "" else AsText(rs[0]) + ConcatTexts(rs[1..])
  }

  lemma {:induction false} ConcatTextsAppend(a: seq<Report>, b: seq<Report>)
    ensures ConcatTexts(a + b) == ConcatTexts(a) + ConcatTexts(b)
  {
    if a == [] {
      assert a + b == b;
    } else {
      assert (a + b)[0] == a[0];
      assert (a + b)[1..] == a[1..] + b;
      ConcatTextsAppend(a[1..], b);
    }
  }

  /** A report's text is exactly the texts of its failure causes, in order. */
  lemma {:induction false} AsTextIsLeafTexts(r: Report)
    ensures AsText(r) == ConcatTexts(Leaves(r))
  {
    match r
    case Leaf(_, _) =>
    case Combined(first, second) =>
      AsTextIsLeafTexts(first);
      AsTextIsLeafTexts(second);
      ConcatTextsAppend(Leaves(first), Leaves(second));
  }

  /** Combining is associative as far as the reported text goes. */
  lemma CombineReportsAssociative(a: Option<Report>, b: Option<Report>, c: Option<Report>)
    ensures TextOf(CombineReports(CombineReports(a, b), c))
         == TextOf(CombineReports(a, CombineReports(b, c)))
  {
  }
}
