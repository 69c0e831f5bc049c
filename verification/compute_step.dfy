/**
 * The compute step (src/steps/Compute.tsx): three text fields asked one after another,
 * cores, then memory, then disk size. A submit either moves on or stays with an error; only
 * the disk sub-step hands an update to `onNext`.
 */
module ComputeStep {
  import opened Wrappers
  import opened JsText
  import opened Validators
  import opened Wizard

  datatype SubStep = CoresEntry | MemoryEntry | DiskEntry

  const InvalidCores := "Invalid CPU count"
  const InvalidMemory := "Invalid memory size"
  const InvalidDisk := "Invalid disk size"

  /** An update whose three fields are numbers within the validators' ranges. */
  predicate InRange(u: Update) {
    && u.Keys == Owned(ComputeStep)
    && u[CoresField].IntValue? && 1 <= u[CoresField].number <= MaxCores
    && u[MemoryField].IntValue? && MinMemoryMb <= u[MemoryField].number <= MaxMemoryMb
    && u[DiskField].IntValue? && 1 <= u[DiskField].number <= MaxDiskGb
  }

  /** `{cores, memoryMb, diskGb}`, each text read with parseInt: within range once the three checks passed. */
  function ComputeUpdate(cores: string, memory: string, diskSize: string): (u: Update)
    requires IsValidCores(cores) && IsValidMemory(memory) && IsValidDiskSize(diskSize)
    ensures InRange(u)
    ensures u[CoresField] == IntValue(ParseInt(cores).value)
    ensures u[MemoryField] == IntValue(ParseInt(memory).value)
    ensures u[DiskField] == IntValue(ParseInt(diskSize).value)
  {
    map[CoresField := IntValue(ParseInt(cores).value),
        MemoryField := IntValue(ParseInt(memory).value),
        DiskField := IntValue(ParseInt(diskSize).value)]
  }

  /** Typing the printed form of an accepted number gives that number back in the update. */
  lemma ComputeUpdateOfPrinted(c: int, m: int, d: int)
    requires 1 <= c <= MaxCores && MinMemoryMb <= m <= MaxMemoryMb && 1 <= d <= MaxDiskGb
    ensures IsValidCores(IntToString(c)) && IsValidMemory(IntToString(m)) && IsValidDiskSize(IntToString(d))
    ensures ComputeUpdate(IntToString(c), IntToString(m), IntToString(d)) ==
            map[CoresField := IntValue(c), MemoryField := IntValue(m), DiskField := IntValue(d)]
  {
    ParseIntOfPrinted(c, []);
    ParseIntOfPrinted(m, []);
    ParseIntOfPrinted(d, []);
    assert IntToString(c) + [] == IntToString(c);
    assert IntToString(m) + [] == IntToString(m);
    assert IntToString(d) + [] == IntToString(d);
  }

  class ComputeForm {
    var cores: string
    var memory: string
    var diskSize: string
    var step: SubStep
    var error: string
    /** The arguments of the `onNext` calls made so far. */
    var emitted: seq<Update>

    /** A field is left only once it passed its check, and every update sent is within range. */
    ghost predicate Valid()
      reads this
    {
      && (step != CoresEntry ==> IsValidCores(cores))
      && (step == DiskEntry ==> IsValidMemory(memory))
      && forall i :: 0 <= i < |emitted| ==> InRange(emitted[i])
    }

    /** The fields start from the answers already given, else from 2 cores, 2048 MB and 20 GB. */
    constructor (state: Answers)
      ensures Valid()
      ensures cores == NumberText(state, CoresField, "2")
      ensures memory == NumberText(state, MemoryField, "2048")
      ensures diskSize == NumberText(state, DiskField, "20")
      ensures step == CoresEntry && error == "" && emitted == []
    {
      cores := NumberText(state, CoresField, "2");
      memory := NumberText(state, MemoryField, "2048");
      diskSize := NumberText(state, DiskField, "20");
      step := CoresEntry;
      error := "";
      emitted := [];
    }

    /** Typing into the input on screen, which is the current sub-step's field. */
    method Edit(text: string)
      requires Valid()
      modifies this
      ensures Valid()
      ensures cores == (if step == CoresEntry then text else old(cores))
      ensures memory == (if step == MemoryEntry then text else old(memory))
      ensures diskSize == (if step == DiskEntry then text else old(diskSize))
      ensures step == old(step) && error == old(error) && emitted == old(emitted)
    {
      match step {
        case CoresEntry => cores := text;
        case MemoryEntry => memory := text;
        case DiskEntry => diskSize := text;
      }
    }

    /**
     * Enter on the current field: an invalid value stays put with that field's message; a
     * valid cores or memory value moves one sub-step on and clears the message; a valid disk
     * size sends the update and leaves the message as it was.
     */
    method Submit()
      requires Valid()
      modifies this
      ensures Valid()
      ensures cores == old(cores) && memory == old(memory) && diskSize == old(diskSize)
      ensures old(step) == CoresEntry ==>
                if IsValidCores(cores) then step == MemoryEntry && error == "" && emitted == old(emitted)
                else step == CoresEntry && error == InvalidCores && emitted == old(emitted)
      ensures old(step) == MemoryEntry ==>
                if IsValidMemory(memory) then step == DiskEntry && error == "" && emitted == old(emitted)
                else step == MemoryEntry && error == InvalidMemory && emitted == old(emitted)
      ensures old(step) == DiskEntry ==>
                step == DiskEntry &&
                if IsValidDiskSize(diskSize)
                then error == old(error) && emitted == old(emitted) + [ComputeUpdate(cores, memory, diskSize)]
                else error == InvalidDisk && emitted == old(emitted)
    {
      match step {
        case CoresEntry =>
          if !IsValidCores(cores) {
            error := InvalidCores;
            return;
          }
          error := "";
          step := MemoryEntry;
        case MemoryEntry =>
          if !IsValidMemory(memory) {
            error := InvalidMemory;
            return;
          }
          error := "";
          step := DiskEntry;
        case DiskEntry =>
          if !IsValidDiskSize(diskSize) {
            error := InvalidDisk;
            return;
          }
          emitted := emitted + [ComputeUpdate(cores, memory, diskSize)];
      }
    }
  }
}
