/** Written output as a sequence of lines. Terminal colours are kept as an
    enumeration on the painted part of a line; the escape codes aurora
    writes are not modelled. */
module Lines {
  import opened Strs
  import Reports

  datatype Color = Plain | Red | Yellow | Cyan | Green | Blue | White

  /** `head` painted in `color`, followed by uncoloured `tail`. */
  datatype Line = Line(head: string, color: Color, tail: string)

  function Text(l: Line): string {
    l.head + l.tail
  }

  function PlainLine(s: string): Line {
    Line(s, Plain, "")
  }

  /** aurora.NewAurora(enabled).Colorize: no colour when disabled. */
  function Paint(head: string, color: Color, enabled: bool, tail: string): Line {
    Line(head, if enabled then color else Plain, tail)
  }

  /** The summary shared by the standard, Azure DevOps and buffering
      formatters: "%v test%s, %v passed, %v warning%s, %v failure%s,
      %v exception%s", where "passed" is never pluralised. */
  function SummaryText(tests: nat, passed: nat, warnings: nat, failures: nat, exceptions: nat): string {
    NatToString(tests) + " test" + Reports.Plural(tests) + ", "
    + NatToString(passed) + " passed, "
    + NatToString(warnings) + " warning" + Reports.Plural(warnings) + ", "
    + NatToString(failures) + " failure" + Reports.Plural(failures) + ", "
    + NatToString(exceptions) + " exception" + Reports.Plural(exceptions)
  }

  /** Red on failures, else yellow on warnings, else cyan on exceptions,
      else green. */
  function SummaryColor(failures: nat, warnings: nat, exceptions: nat): (c: Color)
    ensures c == Red <==> failures > 0
    ensures c == Yellow <==> failures == 0 && warnings > 0
    ensures c == Cyan <==> failures == 0 && warnings == 0 && exceptions > 0
    ensures c == Green <==> failures == 0 && warnings == 0 && exceptions == 0
  {
    if failures > 0 then Red
    else if warnings > 0 then Yellow
    else if exceptions > 0 then Cyan
    else Green
  }
}
