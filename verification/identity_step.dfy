/**
 * The identity step (src/steps/Identity.tsx): the VM id, then the VM name. When the step
 * opens it asks the node for the next free id and offers it; the id is checked for range and
 * then for availability on the node before the name is asked.
 */
module IdentityStep {
  import opened Wrappers
  import opened JsText
  import opened Validators
  import opened Wizard
  import Proxmox

  datatype SubStep = VmidEntry | NameEntry

  const InvalidVmid := "Invalid VM ID"
  const VmidInUse := "VM ID already in use"
  const InvalidName := "Invalid VM name"
  const LookupFailed := "Failed to get next VM ID"

  /** `id.toString()` of what getNextVmid resolved to: NaN prints as "NaN". */
  function IdText(id: Option<int>): string {
    if id.Some? then IntToString(id.value) else "NaN"
  }

  /**
   * The vmid field once the lookup resolved, as the effect is written: its test reads the
   * value the field had when the step opened, not the value it has now.
   */
  function FilledVmidAsWritten(openedWith: string, current: string, idText: string): string {
    if openedWith == "" then idText else current
  }

  /** The vmid field once the lookup resolved: the fetched id fills it only while it is still empty. */
  function FilledVmid(current: string, idText: string): string {
    if current == "" then idText else current
  }

  /**
   * The fill never replaces what is in the field: text already there stays, an empty field
   * takes the fetched id. So an id that passed both checks is the one sent with the name.
   */
  lemma FillKeepsTypedId(current: string, idText: string)
    ensures current != "" ==> FilledVmid(current, idText) == current
    ensures current == "" ==> FilledVmid(current, idText) == idText
    ensures IsValidVmid(current) ==> FilledVmid(current, idText) == current
  {
    if IsValidVmid(current) {
      assert ParseInt(current).Some?;
    }
  }

  /**
   * As written, a step opened with an empty field, where the user typed 150 and passed both
   * checks before the lookup came back with 100, has its field replaced by 100 (or by "NaN",
   * which is no valid id at all), and that is the id sent with the name.
   */
  lemma StaleFillReplacesCheckedId()
    ensures IsValidVmid("150")
    ensures FilledVmidAsWritten("", "150", "100") == "100"
    ensures !IsValidVmid(FilledVmidAsWritten("", "150", "NaN"))
    ensures FilledVmid("150", "100") == "150"
  {
    assert NatToString(15) == NatToString(1) + "5" == "15";
    assert IntToString(150) == NatToString(15) + "0" == "150";
    VmidAcceptsExactly(150, []);
    assert IntToString(150) + [] == IntToString(150);
    assert LeadingWhiteSpace("NaN") == 0;
    assert DigitCount("NaN") == 0;
  }

  /** An update within the validators' ranges. */
  predicate InRange(u: Update) {
    && u.Keys == Owned(IdentityStep)
    && u[VmidField].IntValue? && 0 < u[VmidField].number < MaxVmidExclusive
    && u[NameField].TextValue? && IsValidVmName(u[NameField].text)
  }

  /**
   * `{vmid: parseInt(vmid, 10), name}`: the id is NaN when no integer leads the text, and it
   * is in range whenever the text passes the id check.
   */
  function IdentityUpdate(vmid: string, name: string): (u: Update)
    ensures u.Keys == Owned(IdentityStep) && u[NameField] == TextValue(name)
    ensures u[VmidField].IntValue? <==> ParseInt(vmid).Some?
    ensures u[VmidField].IntValue? ==> u[VmidField].number == ParseInt(vmid).value
    ensures ParseInt(vmid).None? ==> u[VmidField] == NaNValue
    ensures IsValidVmid(vmid) && IsValidVmName(name) ==> InRange(u)
  {
    var id := if ParseInt(vmid).Some? then IntValue(ParseInt(vmid).value) else NaNValue;
    map[VmidField := id, NameField := TextValue(name)]
  }

  /** The id sent for a field holding a printed id is that id; for a field holding "NaN" it is NaN. */
  lemma IdentityUpdateOfPrinted(n: int, name: string)
    ensures IdentityUpdate(IntToString(n), name) == map[VmidField := IntValue(n), NameField := TextValue(name)]
    ensures IdentityUpdate("NaN", name) == map[VmidField := NaNValue, NameField := TextValue(name)]
  {
    ParseIntOfPrinted(n, []);
    assert IntToString(n) + [] == IntToString(n);
    assert LeadingWhiteSpace("NaN") == 0;
    assert DigitCount("NaN") == 0;
  }

  class IdentityForm {
    /** The id field's text when the step opened: the lookup's fill tests this, not the field. */
    const openedWith: string
    var defaultVmid: string
    var vmid: string
    var name: string
    var step: SubStep
    var error: string
    var emitted: seq<Update>
    /** The id text that last passed the range and availability checks. */
    ghost var checked: string

    /**
     * The name is asked only after some id passed both checks. The id on the name sub-step
     * is that id, unless the step opened with an empty field and the lookup's fill replaced
     * it afterwards with the fetched id. Every update carries the two fields and a valid name.
     */
    ghost predicate Valid()
      reads this
    {
      && (step == NameEntry ==> IsValidVmid(checked))
      && (step == NameEntry && vmid != checked ==> openedWith == "" && vmid == defaultVmid)
      && forall i :: 0 <= i < |emitted| ==>
           && emitted[i].Keys == Owned(IdentityStep)
           && emitted[i][NameField].TextValue? && IsValidVmName(emitted[i][NameField].text)
    }

    constructor (state: Answers)
      ensures Valid()
      ensures openedWith == NumberText(state, VmidField, "") && vmid == openedWith
      ensures defaultVmid == "" && name == TextOr(state, NameField, "")
      ensures step == VmidEntry && error == "" && emitted == []
    {
      openedWith := NumberText(state, VmidField, "");
      defaultVmid := "";
      vmid := NumberText(state, VmidField, "");
      name := TextOr(state, NameField, "");
      step := VmidEntry;
      error := "";
      emitted := [];
      checked := "";
    }

    /**
     * The effect run when the step opens: the next id is offered as the default and fills the
     * field when the field was empty at opening, whatever it holds now; a failed lookup only
     * sets the message, and the step goes on.
     */
    method LoadNextVmid(node: Proxmox.Node)
      requires Valid()
      modifies this, node
      ensures Valid()
      ensures node.log == old(node.log) + [Proxmox.NextIdQuery]
      ensures match Proxmox.NextVmidFrom(node.respond(old(node.log), Proxmox.NextIdQuery))
              case Ok(id) =>
                && defaultVmid == IdText(id) && error == old(error)
                && vmid == FilledVmidAsWritten(openedWith, old(vmid), IdText(id))
              case Err(_) =>
                defaultVmid == old(defaultVmid) && vmid == old(vmid) && error == LookupFailed
      ensures name == old(name) && step == old(step) && emitted == old(emitted)
    {
      var id := Proxmox.GetNextVmid(node);
      match id {
        case Ok(n) =>
          var idText := IdText(n);
          defaultVmid := idText;
          if openedWith == "" {
            vmid := idText;
          }
        case Err(_) =>
          error := LookupFailed;
      }
    }

    /** Typing into the input on screen. */
    method Edit(text: string)
      requires Valid()
      modifies this
      ensures Valid()
      ensures vmid == (if step == VmidEntry then text else old(vmid))
      ensures name == (if step == NameEntry then text else old(name))
      ensures defaultVmid == old(defaultVmid) && step == old(step) && error == old(error) && emitted == old(emitted)
    {
      if step == VmidEntry {
        vmid := text;
      } else {
        name := text;
      }
    }

    /**
     * Enter on the current field. An id must pass the range check, then `qm status` must
     * fail on the node, before the name is asked; a name must pass its check before the
     * update is sent, with whatever the id field then holds. Every refusal stays on the
     * sub-step with its message.
     */
    method Submit(node: Proxmox.Node)
      requires Valid()
      modifies this, node
      ensures Valid()
      ensures vmid == old(vmid) && name == old(name) && defaultVmid == old(defaultVmid)
      ensures old(step) == VmidEntry && !IsValidVmid(vmid) ==>
                node.log == old(node.log) && step == VmidEntry && error == InvalidVmid && emitted == old(emitted)
      ensures old(step) == VmidEntry && IsValidVmid(vmid) ==>
                var query := Proxmox.StatusQuery(ParseInt(vmid).value);
                && node.log == old(node.log) + [query]
                && emitted == old(emitted)
                && if node.respond(old(node.log), query).Failed?
                   then step == NameEntry && error == ""
                   else step == VmidEntry && error == VmidInUse
      ensures old(step) == NameEntry ==>
                node.log == old(node.log) && step == NameEntry &&
                if IsValidVmName(name)
                then error == old(error) && emitted == old(emitted) + [IdentityUpdate(vmid, name)]
                else error == InvalidName && emitted == old(emitted)
    {
      if step == VmidEntry {
        if !IsValidVmid(vmid) {
          error := InvalidVmid;
          return;
        }
        var available := Proxmox.IsVmidAvailable(node, ParseInt(vmid).value);
        if !available {
          error := VmidInUse;
          return;
        }
        error := "";
        step := NameEntry;
        checked := vmid;
      } else {
        if !IsValidVmName(name) {
          error := InvalidName;
          return;
        }
        emitted := emitted + [IdentityUpdate(vmid, name)];
      }
    }
  }

  /**
   * A step opened with no id and a name already answered, where an id `qm status` reports
   * free is typed and submitted, asks for the name.
   */
  method OpenAndCheck(node: Proxmox.Node, typed: nat, name: string) returns (form: IdentityForm)
    requires 0 < typed < MaxVmidExclusive
    requires node.respond(node.log, Proxmox.StatusQuery(typed)).Failed?
    modifies node
    ensures fresh(form) && form.Valid()
    ensures form.openedWith == "" && form.step == NameEntry && form.emitted == [] && form.name == TextOr(map[NameField := TextValue(name)], NameField, "")
    ensures node.log == old(node.log) + [Proxmox.StatusQuery(typed)]
  {
    var typedText := IntToString(typed);
    assert IsValidVmid(typedText) && ParseInt(typedText) == Some(typed) by {
      VmidAcceptsExactly(typed, []);
      ParseIntOfPrinted(typed, []);
      assert typedText + [] == typedText;
    }
    form := new IdentityForm(map[NameField := TextValue(name)]);
    form.Edit(typedText);
    form.Submit(node);
  }

  /** On the name sub-step of a step opened with no id, a lookup answering an id puts that id in the field. */
  method FillFromLookup(form: IdentityForm, node: Proxmox.Node, fetched: nat)
    requires form.Valid() && form.openedWith == "" && form.step == NameEntry
    requires node.respond(node.log, Proxmox.NextIdQuery) == Proxmox.Succeeded(IntToString(fetched))
    modifies form, node
    ensures form.Valid() && form.step == NameEntry && form.vmid == IntToString(fetched)
    ensures form.name == old(form.name) && form.emitted == old(form.emitted)
    ensures node.log == old(node.log) + [Proxmox.NextIdQuery]
  {
    assert Proxmox.NextVmidFrom(Proxmox.Succeeded(IntToString(fetched))) == Ok(Some(fetched)) by {
      Proxmox.NextVmidReadsPrintedId(fetched, "", "");
      assert "" + IntToString(fetched) + "" == IntToString(fetched);
    }
    form.LoadNextVmid(node);
  }

  /**
   * The stale fill on the step itself: opened with no id and a name, an id typed and found
   * free on the node, then the lookup answering another id. The update sent with the name carries the
   * fetched id, about which `qm status` was never asked.
   */
  method StaleFillSendsUncheckedId(node: Proxmox.Node, typed: nat, fetched: nat, name: string)
    returns (sent: Update)
    requires 0 < typed < MaxVmidExclusive && IsValidVmName(name)
    requires node.respond(node.log, Proxmox.StatusQuery(typed)).Failed?
    requires node.respond(node.log + [Proxmox.StatusQuery(typed)], Proxmox.NextIdQuery) ==
             Proxmox.Succeeded(IntToString(fetched))
    modifies node
    ensures sent == map[VmidField := IntValue(fetched), NameField := TextValue(name)]
    ensures node.log == old(node.log) + [Proxmox.StatusQuery(typed), Proxmox.NextIdQuery]
  {
    var form := OpenAndCheck(node, typed, name);
    FillFromLookup(form, node, fetched);
    form.Submit(node);
    IdentityUpdateOfPrinted(fetched, name);
    sent := form.emitted[0];
  }
}
