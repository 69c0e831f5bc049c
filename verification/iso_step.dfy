/**
 * The installation-image step (src/steps/Iso.tsx): the images on storage `local`, behind a
 * leading "(No ISO)" entry, and `{isoVolid}` for the choice, undefined for no image.
 */
module IsoStep {
  import opened Wrappers
  import opened Wizard
  import Proxmox

  /** The storage searched for images: fixed. */
  const IsoStorage := "local"

  const NoIso: Choice<Option<string>> := Choice("(No ISO)", None)

  /** One option per image, in order, labelled by its file name and valued by its volume id. */
  function IsoChoices(isos: seq<Proxmox.IsoFile>): (options: seq<Choice<Option<string>>>)
    ensures |options| == |isos|
    ensures forall i :: 0 <= i < |isos| ==> options[i] == Choice(isos[i].filename, Some(isos[i].volid))
  {
    seq(|isos|, i requires 0 <= i < |isos| => Choice(isos[i].filename, Some(isos[i].volid)))
  }

  /** What getIsoFiles resolves to: the listed images, or none when `pvesm list` fails. */
  function Listed(r: Proxmox.CommandResult): seq<Proxmox.IsoFile> {
    match r
    case Succeeded(out) => Proxmox.IsoListRows(out)
    case Failed(_) => []
  }

  /**
   * "(No ISO)" is offered alone exactly when the listing failed or found no image; the
   * `.catch` branch never runs, since getIsoFiles turns a failure into no images.
   */
  lemma OnlyNoIsoIffNothingListed(r: Proxmox.CommandResult)
    ensures [NoIso] + IsoChoices(Listed(r)) == [NoIso] <==> r.Failed? || Proxmox.IsoListRows(r.stdout) == []
  {
    var offered := [NoIso] + IsoChoices(Listed(r));
    assert |offered| == 1 + |Listed(r)|;
    if Listed(r) == [] {
      assert offered == [NoIso];
    }
  }

  /** The update a choice sends: the volume id, or undefined for "(No ISO)". */
  function IsoUpdate(value: Option<string>): (u: Update)
    ensures u.Keys == Owned(IsoStep)
    ensures u[IsoField] == if value.Some? then TextValue(value.value) else Undefined
  {
    map[IsoField := if value.Some? then TextValue(value.value) else Undefined]
  }

  datatype Screen = Loading | Choose(options: seq<Choice<Option<string>>>)

  class IsoPicker {
    var loading: bool
    var options: seq<Choice<Option<string>>>
    var emitted: seq<Update>

    /** Once loaded, the list starts with "(No ISO)". */
    ghost predicate Valid()
      reads this
    {
      !loading ==> |options| >= 1 && options[0] == NoIso
    }

    constructor ()
      ensures Valid() && loading && options == [] && emitted == []
    {
      loading := true;
      options := [];
      emitted := [];
    }

    /** Loading, then the list, which once loaded starts with "(No ISO)". */
    function View(): (s: Screen)
      reads this
      ensures s.Loading? <==> loading
      ensures s.Choose? ==> s.options == options
      ensures s.Choose? && Valid() ==> |s.options| >= 1 && s.options[0] == NoIso
    {
      if loading then Loading else Choose(options)
    }

    /** The effect run when the step opens: list `local`, then put "(No ISO)" in front. */
    method Load(node: Proxmox.Node)
      modifies this, node
      ensures Valid() && !loading && emitted == old(emitted)
      ensures node.log == old(node.log) + [Proxmox.IsoListQuery(IsoStorage)]
      ensures options == [NoIso] + IsoChoices(Listed(node.respond(old(node.log), Proxmox.IsoListQuery(IsoStorage))))
    {
      var isos := Proxmox.GetIsoFiles(node, IsoStorage);
      var list := IsoChoices(isos);
      list := [NoIso] + list;
      options := list;
      loading := false;
    }

    /** Picking an entry of the list on screen sends `{isoVolid: value}`. */
    method Select(i: nat)
      requires View().Choose? && i < |options|
      modifies this
      ensures loading == old(loading) && options == old(options)
      ensures emitted == old(emitted) + [IsoUpdate(options[i].value)]
    {
      emitted := emitted + [IsoUpdate(options[i].value)];
    }
  }
}
