/**
 * The summary step (src/steps/Summary.tsx): the answers, then a choice between creating the
 * VM and cancelling.
 */
module SummaryStep {
  import opened Wizard

  const Choices := [Choice("Create this VM", "confirm"), Choice("Cancel", "cancel")]

  /** What a choice does: hand an update to `onNext`, or end the process. */
  datatype Outcome = Advance(update: Update) | ExitProcess(status: int)

  /** Confirm sends the empty update; anything else exits with status 0 and sends nothing. */
  function OnSelect(value: string): (o: Outcome)
    ensures o.Advance? <==> value == "confirm"
    ensures o.Advance? ==> o.update.Keys == Owned(SummaryStep)
    ensures (value == Choices[0].value ==> o.Advance?) && (value == Choices[1].value ==> o.ExitProcess?)
    ensures o.ExitProcess? ==> o.status == 0
  {
    if value == "confirm" then Advance(map[]) else ExitProcess(0)
  }

  /** The ISO line: the chosen volume id, or "(none)" when there is none or it is empty. */
  function IsoLine(answers: Answers): (line: string)
    ensures IsoField in answers && answers[IsoField].TextValue? && answers[IsoField].text != "" ==>
              line == answers[IsoField].text
    ensures line == "(none)" <== IsoField !in answers || answers[IsoField] in {Undefined, TextValue("")}
  {
    TextOr(answers, IsoField, "(none)")
  }
}
