/**
 * The storage step (src/steps/Storage.tsx): one option per pool the node reports, a message
 * when the lookup fails or finds nothing, and `{storage}` for the chosen pool.
 */
module StorageStep {
  import opened JsText
  import opened Wizard
  import Proxmox

  const LoadFailed := "Failed to load storage pools"
  const NoPools := "No available storage pools found"

  /** One option per pool, in order: labelled `name (type)`, valued by the name. */
  function StorageOptions(items: seq<Proxmox.Storage>): (options: seq<Choice<string>>)
    ensures |options| == |items|
    ensures forall i :: 0 <= i < |items| ==>
              options[i] == Choice(items[i].name + " (" + items[i].storageType + ")", items[i].name)
  {
    seq(|items|, i requires 0 <= i < |items| =>
          Choice(items[i].name + " (" + items[i].storageType + ")", items[i].name))
  }

  /**
   * Every pool offered comes from a line of the listing whose first field is its name, whose
   * third field is `active` and whose sixth field mentions `images`.
   */
  lemma OfferedPoolsAreDiskCapable(lines: seq<string>, i: nat)
    requires i < |Proxmox.StorageRows(lines)|
    ensures exists j :: 0 <= j < |lines| && Proxmox.IsStorageRow(lines[j]) &&
                        SplitWs(lines[j])[0] == StorageOptions(Proxmox.StorageRows(lines))[i].value
  {
    var pools := Proxmox.StorageRows(lines);
    var pool := pools[i];
    Proxmox.StorageRowsMembership(lines, pool);
    var j :| 0 <= j < |lines| && Proxmox.IsStorageRow(lines[j]) && Proxmox.RowStorage(lines[j]) == pool;
    assert SplitWs(lines[j])[0] == StorageOptions(pools)[i].value;
  }

  /** What the step shows. */
  datatype Screen = Loading | Failure(message: string) | Empty(message: string) | Choose(options: seq<Choice<string>>)

  class StoragePicker {
    var loading: bool
    var error: string
    var options: seq<Choice<string>>
    var emitted: seq<Update>

    constructor ()
      ensures loading && error == "" && options == [] && emitted == []
    {
      loading := true;
      error := "";
      options := [];
      emitted := [];
    }

    /** The screen, by precedence: loading, then the error, then an empty list, then the choice. */
    function View(): (s: Screen)
      reads this
      ensures s.Choose? <==> !loading && error == "" && options != []
    {
      if loading then Loading
      else if error != "" then Failure(error)
      else if options == [] then Empty(NoPools)
      else Choose(options)
    }

    /** The effect run when the step opens. */
    method Load(node: Proxmox.Node)
      modifies this, node
      ensures node.log == old(node.log) + [Proxmox.StorageStatusQuery]
      ensures !loading && emitted == old(emitted)
      ensures match node.respond(old(node.log), Proxmox.StorageStatusQuery)
              case Succeeded(out) => options == StorageOptions(Proxmox.StorageStatusRows(out)) && error == old(error)
              case Failed(_) => options == old(options) && error == LoadFailed
    {
      var r := Proxmox.GetStorages(node);
      match r {
        case Ok(items) =>
          options := StorageOptions(items);
        case Err(_) =>
          error := LoadFailed;
      }
      loading := false;
    }

    /** Picking an entry of the list on screen sends `{storage: value}`. */
    method Select(i: nat)
      requires View().Choose? && i < |options|
      modifies this
      ensures loading == old(loading) && error == old(error) && options == old(options)
      ensures emitted == old(emitted) + [map[StorageField := TextValue(options[i].value)]]
    {
      emitted := emitted + [map[StorageField := TextValue(options[i].value)]];
    }
  }
}
