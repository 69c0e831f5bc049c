/**
 * What the wizard steps (the files under src/steps) share: the VM fields they fill in, the partial
 * update each step hands to `onNext`, and the select-list entries they offer.
 */
module Wizard {
  import opened JsText

  /** The fields of the wizard's VM state. */
  datatype VmField = VmidField | NameField | CoresField | MemoryField | DiskField | StorageField | BridgeField | IsoField

  /** A field value: a number, the number NaN, a string, or `undefined`. */
  datatype FieldValue = IntValue(number: int) | NaNValue | TextValue(text: string) | Undefined

  /** The answers gathered so far; a field is missing until a step sets it. */
  type Answers = map<VmField, FieldValue>

  /** The argument of one `onNext` call. */
  type Update = map<VmField, FieldValue>

  datatype StepName = IdentityStep | ComputeStep | StorageStep | NetworkStep | IsoStep | SummaryStep

  /** The fields each step's update may carry. */
  function Owned(step: StepName): set<VmField> {
    match step
    case IdentityStep => {VmidField, NameField}
    case ComputeStep => {CoresField, MemoryField, DiskField}
    case StorageStep => {StorageField}
    case NetworkStep => {BridgeField}
    case IsoStep => {IsoField}
    case SummaryStep => {}
  }

  /** No two steps own a common field. */
  lemma OwnedDisjoint(a: StepName, b: StepName)
    requires a != b
    ensures Owned(a) !! Owned(b)
  {
  }

  /**
   * Updates of two different steps commute: merging them into the answers in either order
   * gives the same answers, so no step can overwrite another step's field.
   */
  lemma UpdatesCommute(answers: Answers, a: StepName, ua: Update, b: StepName, ub: Update)
    requires a != b && ua.Keys <= Owned(a) && ub.Keys <= Owned(b)
    ensures answers + ua + ub == answers + ub + ua
    ensures forall f :: f in ub.Keys ==> (answers + ua + ub)[f] == ub[f]
    ensures forall f :: f in ua.Keys ==> (answers + ub + ua)[f] == ua[f]
  {
    OwnedDisjoint(a, b);
    var left := answers + ua + ub;
    var right := answers + ub + ua;
    assert left.Keys == right.Keys;
    forall f | f in left.Keys
      ensures left[f] == right[f]
    {
      if f in ua.Keys {
        assert f !in ub.Keys;
      }
    }
  }

  /** A select-list entry. */
  datatype Choice<V> = Choice(caption: string, value: V)

  /** `state.<field>?.toString() || fallback` for a numeric field: NaN prints as "NaN". */
  function NumberText(answers: Answers, f: VmField, fallback: string): string {
    if f !in answers then fallback
    else match answers[f]
      case IntValue(n) => IntToString(n)
      case NaNValue => "NaN"
      case _ => fallback
  }

  /** `state.<field> || fallback` for a string field. */
  function TextOr(answers: Answers, f: VmField, fallback: string): string {
    if f in answers && answers[f].TextValue? && answers[f].text != "" then answers[f].text else fallback
  }
}
