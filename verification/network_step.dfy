/**
 * The network step (src/steps/Network.tsx): the node's name, then its bridges, one option per
 * bridge, and `{bridge}` for the chosen one.
 */
module NetworkStep {
  import opened Wrappers
  import opened Wizard
  import Proxmox

  /** One option per bridge, in order, labelled and valued by its name. */
  function BridgeOptions(bridges: seq<Proxmox.Bridge>): (options: seq<Choice<string>>)
    ensures |options| == |bridges|
    ensures forall i :: 0 <= i < |bridges| ==> options[i] == Choice(bridges[i].name, bridges[i].name)
  {
    seq(|bridges|, i requires 0 <= i < |bridges| => Choice(bridges[i].name, bridges[i].name))
  }

  const FallbackOptions := [Choice("vmbr0", "vmbr0")]

  /**
   * Whatever fails in the lookup, the step offers the single option vmbr0: getBridges falls
   * back by itself, so the effect's own fallback is never needed.
   */
  lemma FailureOffersVmbr0(r: Proxmox.CommandResult, decode: string -> Option<seq<Proxmox.BridgeEntry>>)
    requires r.Failed? || decode(r.stdout).None?
    ensures BridgeOptions(Proxmox.BridgesFrom(r, decode)) == FallbackOptions
  {
  }

  datatype Screen = Loading | Failure(message: string) | Choose(options: seq<Choice<string>>)

  class NetworkPicker {
    var loading: bool
    var error: string
    var options: seq<Choice<string>>
    var emitted: seq<Update>

    /** Nothing ever sets the error. */
    ghost predicate Valid()
      reads this
    {
      error == ""
    }

    constructor ()
      ensures Valid() && loading && options == [] && emitted == []
    {
      loading := true;
      error := "";
      options := [];
      emitted := [];
    }

    /** Loading first, then the error when there is one, else the bridges to choose from. */
    function View(): (s: Screen)
      reads this
      ensures s.Loading? <==> loading
      ensures s.Failure? <==> !loading && error != ""
      ensures s.Choose? ==> s.options == options
    {
      if loading then Loading
      else if error != "" then Failure(error)
      else Choose(options)
    }

    /** The error screen cannot be reached. */
    lemma NoFailureScreen()
      requires Valid()
      ensures !View().Failure?
    {
    }

    /** The effect run when the step opens: `hostname`, then the bridges of that node. */
    method Load(node: Proxmox.Node, decode: string -> Option<seq<Proxmox.BridgeEntry>>)
      requires Valid()
      modifies this, node
      ensures Valid() && !loading && emitted == old(emitted)
      ensures var name := Proxmox.NodeNameFrom(node.respond(old(node.log), Proxmox.HostnameQuery));
              var history := old(node.log) + [Proxmox.HostnameQuery];
              && node.log == history + [Proxmox.BridgeQuery(name)]
              && options == BridgeOptions(Proxmox.BridgesFrom(node.respond(history, Proxmox.BridgeQuery(name)), decode))
    {
      var name := Proxmox.GetNodeName(node);
      var bridges := Proxmox.GetBridges(node, name, decode);
      options := BridgeOptions(bridges);
      loading := false;
    }

    /** Picking an entry of the list on screen sends `{bridge: value}`. */
    method Select(i: nat)
      requires View().Choose? && i < |options|
      modifies this
      ensures loading == old(loading) && error == old(error) && options == old(options)
      ensures emitted == old(emitted) + [map[BridgeField := TextValue(options[i].value)]]
    {
      emitted := emitted + [map[BridgeField := TextValue(options[i].value)]];
    }
  }
}
