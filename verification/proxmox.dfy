/**
 * The Proxmox command layer (src/lib/proxmox.ts): every query runs one external program on
 * the node and turns its output, or its failure, into a value. The node is a log of the
 * commands issued so far and a response function that says what each command gives after
 * a given history; the text parsers are pure functions of the captured output.
 */
module Proxmox {
  import opened Wrappers
  import opened JsText

  /** One invocation: program and argument vector. */
  datatype Command = Command(program: string, args: seq<string>)

  /** A command's standard output, or the message of the error thrown on a non-zero exit. */
  datatype CommandResult = Succeeded(stdout: string) | Failed(message: string)

  class Node {
    /** Every command issued, oldest first. */
    var log: seq<Command>
    /** What a command gives when issued after the given history. */
    const respond: (seq<Command>, Command) -> CommandResult

    constructor (respond: (seq<Command>, Command) -> CommandResult)
      ensures log == [] && this.respond == respond
    {
      log := [];
      this.respond := respond;
    }

    /** `execa(program, args)`. */
    method Run(cmd: Command) returns (r: CommandResult)
      modifies this
      ensures log == old(log) + [cmd]
      ensures r == respond(old(log), cmd)
    {
      r := respond(log, cmd);
      log := log + [cmd];
    }
  }

  // ---------------------------------------------------------------- simple queries

  const WhichQm := Command("which", ["qm"])
  const NextIdQuery := Command("pvesh", ["get", "/cluster/nextid"])
  const StorageStatusQuery := Command("pvesm", ["status"])
  const HostnameQuery := Command("hostname", [])

  function StatusQuery(vmid: int): Command {
    Command("qm", ["status", IntToString(vmid)])
  }

  function BridgeQuery(node: string): Command {
    Command("pvesh", ["get", "/nodes/" + node + "/network", "--type", "bridge"])
  }

  function IsoListQuery(storage: string): Command {
    Command("pvesm", ["list", storage])
  }

  /** isProxmoxNode: the node has `qm` exactly when `which qm` succeeds. */
  method IsProxmoxNode(node: Node) returns (b: bool)
    modifies node
    ensures node.log == old(node.log) + [WhichQm]
    ensures b <==> node.respond(old(node.log), WhichQm).Succeeded?
  {
    var r := node.Run(WhichQm);
    b := r.Succeeded?;
  }

  const NextIdError := "Failed to get next VM ID. Are you on a Proxmox node?"

  /**
   * getNextVmid: the trimmed output read with parseInt (None stands for NaN), or the fixed
   * error when the query fails.
   */
  function NextVmidFrom(r: CommandResult): (id: Result<Option<int>, string>)
    ensures id.Err? <==> r.Failed?
    ensures id.Err? ==> id.error == NextIdError
  {
    match r
    case Succeeded(out) => Ok(ParseInt(Trim(out)))
    case Failed(_) => Err(NextIdError)
  }

  /** A node that prints its next id with surrounding white space is read as that id. */
  lemma NextVmidReadsPrintedId(n: nat, before: string, after: string)
    requires AllWhiteSpace(before) && AllWhiteSpace(after)
    ensures NextVmidFrom(Succeeded(before + IntToString(n) + after)) == Ok(Some(n))
  {
    var printed := IntToString(n);
    var out := before + printed + after;
    TrimOfPadded(before, printed, after);
    ParseIntOfPrinted(n, []);
    assert printed + [] == printed;
  }

  method GetNextVmid(node: Node) returns (id: Result<Option<int>, string>)
    modifies node
    ensures node.log == old(node.log) + [NextIdQuery]
    ensures id == NextVmidFrom(node.respond(old(node.log), NextIdQuery))
  {
    var r := node.Run(NextIdQuery);
    id := NextVmidFrom(r);
  }

  /** isVmidAvailable: the id is free exactly when `qm status <id>` fails, whatever the reason. */
  method IsVmidAvailable(node: Node, vmid: int) returns (free: bool)
    modifies node
    ensures node.log == old(node.log) + [StatusQuery(vmid)]
    ensures free <==> node.respond(old(node.log), StatusQuery(vmid)).Failed?
  {
    var r := node.Run(StatusQuery(vmid));
    free := r.Failed?;
  }

  /** getNodeName: the trimmed output of `hostname`, or "localhost" when it fails. */
  function NodeNameFrom(r: CommandResult): (name: string)
    ensures r.Failed? ==> name == "localhost"
    ensures r.Succeeded? ==> name == [] || (!IsWhiteSpace(name[0]) && !IsWhiteSpace(name[|name| - 1]))
  {
    match r
    case Succeeded(out) => TrimNoEdgeSpace(out); Trim(out)
    case Failed(_) => "localhost"
  }

  /** A node that prints its host name with surrounding white space is known by that name. */
  lemma NodeNameReadsHostname(before: string, host: string, after: string)
    requires AllWhiteSpace(before) && AllWhiteSpace(after)
    requires host != [] && !IsWhiteSpace(host[0]) && !IsWhiteSpace(host[|host| - 1])
    ensures NodeNameFrom(Succeeded(before + host + after)) == host
  {
    TrimOfPadded(before, host, after);
  }

  method GetNodeName(node: Node) returns (name: string)
    modifies node
    ensures node.log == old(node.log) + [HostnameQuery]
    ensures name == NodeNameFrom(node.respond(old(node.log), HostnameQuery))
  {
    var r := node.Run(HostnameQuery);
    name := NodeNameFrom(r);
  }

  // ---------------------------------------------------------------- storages

  /** A storage pool that can hold VM disks. */
  datatype Storage = Storage(name: string, storageType: string, available: bool, content: seq<string>)

  const StorageListError := "Failed to get storage list"

  /**
   * A `pvesm status` line that yields a pool: not blank, its third field is `active` and
   * its sixth field mentions `images`.
   */
  predicate IsStorageRow(line: string) {
    Trim(line) != [] &&
    var parts := SplitWs(line);
    |parts| > 5 && parts[2] == "active" && Contains(parts[5], "images")
  }

  function RowStorage(line: string): Storage
    requires IsStorageRow(line)
  {
    var parts := SplitWs(line);
    Storage(parts[0], parts[1], true, Split(parts[5], ','))
  }

  /** The pools the lines yield, in line order. */
  function StorageRows(lines: seq<string>): seq<Storage> {
    if lines == [] then []
    else
      var line := Last(lines);
      StorageRows(lines[..|lines| - 1]) + (if IsStorageRow(line) then [RowStorage(line)] else [])
  }

  /** The pools of a whole `pvesm status` output: every line after the header. */
  function StorageStatusRows(stdout: string): seq<Storage> {
    StorageRows(Split(stdout, '\n')[1..])
  }

  lemma {:induction false} StorageRowsAppend(a: seq<string>, b: seq<string>)
    ensures StorageRows(a + b) == StorageRows(a) + StorageRows(b)
    decreases |b|
  {
    if b != [] {
      var front := b[..|b| - 1];
      assert (a + b)[..|a + b| - 1] == a + front;
      StorageRowsAppend(a, front);
    } else {
      assert a + b == a;
    }
  }

  /** A pool is listed exactly when some line yields it. */
  lemma StorageRowsMembership(lines: seq<string>, s: Storage)
    ensures s in StorageRows(lines) <==>
            exists j :: 0 <= j < |lines| && IsStorageRow(lines[j]) && RowStorage(lines[j]) == s
  {
    if s in StorageRows(lines) {
      var j := StorageRowSource(lines, s);
    }
    if exists j :: 0 <= j < |lines| && IsStorageRow(lines[j]) && RowStorage(lines[j]) == s {
      var j :| 0 <= j < |lines| && IsStorageRow(lines[j]) && RowStorage(lines[j]) == s;
      StorageRowListed(lines, j);
    }
  }

  /** Every listed pool comes from a line. */
  lemma {:induction false} StorageRowSource(lines: seq<string>, s: Storage) returns (j: nat)
    requires s in StorageRows(lines)
    ensures j < |lines| && IsStorageRow(lines[j]) && RowStorage(lines[j]) == s
  {
    if lines != [] {
      var front := lines[..|lines| - 1];
      var last := Last(lines);
      assert StorageRows(lines) == StorageRows(front) + (if IsStorageRow(last) then [RowStorage(last)] else []);
      if s in StorageRows(front) {
        j := StorageRowSource(front, s);
        assert lines[j] == front[j];
      } else {
        j := |lines| - 1;
      }
    }
  }

  /** Every line that yields a pool has it listed. */
  lemma {:induction false} StorageRowListed(lines: seq<string>, j: nat)
    requires j < |lines| && IsStorageRow(lines[j])
    ensures RowStorage(lines[j]) in StorageRows(lines)
  {
    var front := lines[..|lines| - 1];
    var last := Last(lines);
    assert StorageRows(lines) == StorageRows(front) + (if IsStorageRow(last) then [RowStorage(last)] else []);
    if j < |lines| - 1 {
      assert front[j] == lines[j];
      StorageRowListed(front, j);
    }
  }

  /** Every listed pool is available, and its content list, joined back, mentions `images`. */
  lemma {:induction false} StorageRowsDiskCapable(lines: seq<string>, s: Storage)
    requires s in StorageRows(lines)
    ensures s.available && |s.content| >= 1 && Contains(Join(s.content, ','), "images")
  {
    var j := StorageRowSource(lines, s);
    RowStorageDiskCapable(lines[j]);
  }

  /** A pool read from a line is available and its content list, joined back, mentions `images`. */
  lemma RowStorageDiskCapable(line: string)
    requires IsStorageRow(line)
    ensures RowStorage(line).available && Contains(Join(RowStorage(line).content, ','), "images")
  {
    JoinSplit(SplitWs(line)[5], ',');
  }

  /** The first line is never read as a pool, whatever it holds. */
  lemma StorageHeaderIgnored(header: string, body: string)
    requires '\n' !in header
    ensures StorageStatusRows(header + "\n" + body) == StorageRows(Split(body, '\n'))
  {
    SplitAfterFirst(header, body, '\n');
  }

  /**
   * A line of space-separated fields yields the pool named by its first field exactly when
   * the third field is `active` and the sixth mentions `images`; the content list is the
   * sixth field split on commas.
   */
  lemma StatusRowKeptIff(fields: seq<string>)
    requires |fields| >= 6
    requires forall i :: 0 <= i < |fields| ==> fields[i] != [] && NoWhiteSpace(fields[i])
    ensures StorageRows([Join(fields, ' ')]) ==
            if fields[2] == "active" && Contains(fields[5], "images")
            then [Storage(fields[0], fields[1], true, Split(fields[5], ','))]
            else []
  {
    var line := Join(fields, ' ');
    SplitWsJoin(fields);
    JoinStartsWith(fields, ' ');
    TrimEmptyIffBlank(line);
    assert line[0] == fields[0][0];
    var none: seq<string> := [];
    assert [line][..0] == none;
  }

  /** The parsing loop of getStorages. */
  method ParseStorageStatus(stdout: string) returns (storages: seq<Storage>)
    ensures storages == StorageStatusRows(stdout)
  {
    var lines := Split(stdout, '\n')[1..];
    storages := [];
    var i := 0;
    while i < |lines|
      invariant 0 <= i <= |lines|
      invariant storages == StorageRows(lines[..i])
    {
      var line := lines[i];
      assert StorageRows(lines[..i + 1]) ==
             StorageRows(lines[..i]) + (if IsStorageRow(line) then [RowStorage(line)] else []) by {
        assert lines[..i + 1][..i] == lines[..i];
        assert Last(lines[..i + 1]) == line;
      }
      if Trim(line) != [] {
        var parts := SplitWs(line);
        if |parts| > 5 && parts[2] == "active" && Contains(parts[5], "images") {
          storages := storages + [Storage(parts[0], parts[1], true, Split(parts[5], ','))];
        }
      }
      i := i + 1;
    }
    assert lines[..i] == lines;
  }

  /** getStorages: the parsed pools, or the fixed error when `pvesm status` fails. */
  method GetStorages(node: Node) returns (r: Result<seq<Storage>, string>)
    modifies node
    ensures node.log == old(node.log) + [StorageStatusQuery]
    ensures r == match node.respond(old(node.log), StorageStatusQuery)
                 case Succeeded(out) => Ok(StorageStatusRows(out))
                 case Failed(_) => Err(StorageListError)
  {
    var out := node.Run(StorageStatusQuery);
    match out {
      case Succeeded(stdout) =>
        var storages := ParseStorageStatus(stdout);
        r := Ok(storages);
      case Failed(_) =>
        r := Err(StorageListError);
    }
  }

  // ---------------------------------------------------------------- bridges

  /** The JSON values the `active` field of a bridge can hold. */
  datatype JsonValue = JNumber(number: int) | JString(text: string) | JBool(flag: bool) | JNull | JMissing

  /** One object of the `pvesh get /nodes/<node>/network` array. */
  datatype BridgeEntry = BridgeEntry(iface: string, active: JsonValue)

  datatype Bridge = Bridge(name: string, active: bool)

  const FallbackBridges := [Bridge("vmbr0", true)]

  /**
   * getBridges: each entry of the decoded array, active only when its `active` field is the
   * number 1; the single bridge vmbr0 when the query fails or its output is not such an
   * array. `decode` is JSON.parse followed by the array check `map` relies on.
   */
  function BridgesFrom(r: CommandResult, decode: string -> Option<seq<BridgeEntry>>): (bridges: seq<Bridge>)
    ensures r.Failed? ==> bridges == FallbackBridges
    ensures r.Succeeded? && decode(r.stdout).None? ==> bridges == FallbackBridges
    ensures r.Succeeded? && decode(r.stdout).Some? ==>
              |bridges| == |decode(r.stdout).value| &&
              forall i :: 0 <= i < |bridges| ==>
                bridges[i].name == decode(r.stdout).value[i].iface &&
                (bridges[i].active <==> decode(r.stdout).value[i].active == JNumber(1))
  {
    if r.Failed? then FallbackBridges
    else
      var data := decode(r.stdout);
      if data.None? then FallbackBridges
      else seq(|data.value|, i requires 0 <= i < |data.value| =>
                 Bridge(data.value[i].iface, data.value[i].active == JNumber(1)))
  }

  /** `"active": true` is not 1: such a bridge is listed as inactive; an empty array gives no bridge. */
  lemma BridgeActiveIsNumericOne(out: string, decode: string -> Option<seq<BridgeEntry>>, iface: string)
    ensures decode(out) == Some([BridgeEntry(iface, JBool(true))]) ==>
              BridgesFrom(Succeeded(out), decode) == [Bridge(iface, false)]
    ensures decode(out) == Some([]) ==> BridgesFrom(Succeeded(out), decode) == []
  {
  }

  method GetBridges(node: Node, nodeName: string, decode: string -> Option<seq<BridgeEntry>>)
    returns (bridges: seq<Bridge>)
    modifies node
    ensures node.log == old(node.log) + [BridgeQuery(nodeName)]
    ensures bridges == BridgesFrom(node.respond(old(node.log), BridgeQuery(nodeName)), decode)
  {
    var r := node.Run(BridgeQuery(nodeName));
    bridges := BridgesFrom(r, decode);
  }

  // ---------------------------------------------------------------- ISO files

  /** An ISO image on a storage; `size` None stands for NaN. */
  datatype IsoFile = IsoFile(volid: string, filename: string, size: Option<int>)

  /** `path.split('/').pop() || path`: the last path segment, or the whole path when that is empty. */
  function FileNameOf(path: string): (name: string)
    ensures name == [] ==> path == []
  {
    var last := Last(Split(path, '/'));
    if last != [] then last else path
  }

  /** The name after the last slash; a path ending in a slash, or without one, names itself. */
  lemma FileNameOfPath(dir: string, name: string)
    requires '/' !in name
    ensures FileNameOf(dir + "/" + name) == if name == [] then dir + "/" + name else name
    ensures FileNameOf(name) == name
  {
    LastPieceAfter(dir, name, '/');
    SplitWord(name, [], '/');
    assert name + [] == name;
  }

  predicate IsIsoRow(line: string) {
    Contains(line, ".iso")
  }

  /** An ISO line: first field the volume id, third field read as the size. */
  function RowIso(line: string): IsoFile {
    var parts := SplitWs(line);
    var volid := parts[0];
    IsoFile(volid, FileNameOf(volid), if |parts| > 2 then ParseInt(parts[2]) else None)
  }

  function IsoRows(lines: seq<string>): seq<IsoFile> {
    if lines == [] then []
    else
      var line := Last(lines);
      IsoRows(lines[..|lines| - 1]) + (if IsIsoRow(line) then [RowIso(line)] else [])
  }

  /** The images of a whole `pvesm list` output: every line after the header. */
  function IsoListRows(stdout: string): seq<IsoFile> {
    IsoRows(Split(stdout, '\n')[1..])
  }

  lemma {:induction false} IsoRowsAppend(a: seq<string>, b: seq<string>)
    ensures IsoRows(a + b) == IsoRows(a) + IsoRows(b)
    decreases |b|
  {
    if b != [] {
      var front := b[..|b| - 1];
      assert (a + b)[..|a + b| - 1] == a + front;
      IsoRowsAppend(a, front);
    } else {
      assert a + b == a;
    }
  }

  /** An image is listed exactly when some line mentioning `.iso` yields it. */
  lemma {:induction false} IsoRowsMembership(lines: seq<string>, iso: IsoFile)
    ensures iso in IsoRows(lines) <==>
            exists j :: 0 <= j < |lines| && IsIsoRow(lines[j]) && RowIso(lines[j]) == iso
  {
    if lines != [] {
      var front := lines[..|lines| - 1];
      IsoRowsMembership(front, iso);
      if exists j :: 0 <= j < |lines| && IsIsoRow(lines[j]) && RowIso(lines[j]) == iso {
        var j :| 0 <= j < |lines| && IsIsoRow(lines[j]) && RowIso(lines[j]) == iso;
        if j < |lines| - 1 {
          assert front[j] == lines[j];
        }
      }
      if iso in IsoRows(front) {
        var j :| 0 <= j < |front| && IsIsoRow(front[j]) && RowIso(front[j]) == iso;
        assert lines[j] == front[j];
      }
    }
  }

  /**
   * A line `<volid> <format> <n> ...` whose volume id mentions `.iso` yields that volume,
   * named by its last path segment, with size n.
   */
  lemma IsoRowRoundTrip(volid: string, format: string, n: nat, rest: seq<string>)
    requires Contains(volid, ".iso") && NoWhiteSpace(volid)
    requires format != [] && NoWhiteSpace(format)
    requires forall i :: 0 <= i < |rest| ==> rest[i] != [] && NoWhiteSpace(rest[i])
    ensures IsoRows([Join([volid, format, IntToString(n)] + rest, ' ')]) ==
            [IsoFile(volid, FileNameOf(volid), Some(n))]
  {
    var line := Join([volid, format, IntToString(n)] + rest, ' ');
    IsoLineFields(volid, format, n, rest);
    ParseIntOfPrinted(n, []);
    assert IntToString(n) + [] == IntToString(n);
    assert RowIso(line) == IsoFile(volid, FileNameOf(volid), Some(n));
    var none: seq<string> := [];
    assert [line][..0] == none;
    assert IsoRows([line]) == IsoRows(none) + [RowIso(line)];
  }

  /** The fields of such a line are read back, and the line mentions `.iso`. */
  lemma IsoLineFields(volid: string, format: string, n: nat, rest: seq<string>)
    requires Contains(volid, ".iso") && NoWhiteSpace(volid)
    requires format != [] && NoWhiteSpace(format)
    requires forall i :: 0 <= i < |rest| ==> rest[i] != [] && NoWhiteSpace(rest[i])
    ensures var fields := [volid, format, IntToString(n)] + rest;
            SplitWs(Join(fields, ' ')) == fields && IsIsoRow(Join(fields, ' '))
  {
    var fields := [volid, format, IntToString(n)] + rest;
    assert volid != [] by {
      assert !Contains([], ".iso");
    }
    assert SplitWs(Join(fields, ' ')) == fields by {
      IsoFieldsWellFormed(volid, format, n, rest);
      SplitWsJoin(fields);
    }
    assert IsIsoRow(Join(fields, ' ')) by {
      var after := [' '] + Join(fields[1..], ' ');
      assert Join(fields, ' ') == volid + after;
      ContainsExtended(volid, ".iso", after);
    }
  }

  /** Every field of such a line is a non-empty word. */
  lemma IsoFieldsWellFormed(volid: string, format: string, n: nat, rest: seq<string>)
    requires volid != [] && NoWhiteSpace(volid)
    requires format != [] && NoWhiteSpace(format)
    requires forall i :: 0 <= i < |rest| ==> rest[i] != [] && NoWhiteSpace(rest[i])
    ensures var fields := [volid, format, IntToString(n)] + rest;
            forall i :: 0 <= i < |fields| ==> fields[i] != [] && NoWhiteSpace(fields[i])
  {
    var fields := [volid, format, IntToString(n)] + rest;
    var digits := IntToString(n);
    assert digits == NatToString(n);
    assert NoWhiteSpace(digits) by {
      forall k | 0 <= k < |digits|
        ensures !IsWhiteSpace(digits[k])
      {
        assert IsDigit(digits[k]);
      }
    }
    forall i | 0 <= i < |fields|
      ensures fields[i] != [] && NoWhiteSpace(fields[i])
    {
      if i >= 3 {
        assert fields[i] == rest[i - 3];
      }
    }
  }

  /** The parsing loop of getIsoFiles. */
  method ParseIsoList(stdout: string) returns (isos: seq<IsoFile>)
    ensures isos == IsoListRows(stdout)
  {
    var lines := Split(stdout, '\n')[1..];
    isos := [];
    var i := 0;
    while i < |lines|
      invariant 0 <= i <= |lines|
      invariant isos == IsoRows(lines[..i])
    {
      var line := lines[i];
      assert lines[..i + 1][..i] == lines[..i];
      if Contains(line, ".iso") {
        var parts := SplitWs(line);
        var volid := parts[0];
        var filename := FileNameOf(volid);
        var size := if |parts| > 2 then ParseInt(parts[2]) else None;
        isos := isos + [IsoFile(volid, filename, size)];
      }
      i := i + 1;
    }
    assert lines[..i] == lines;
  }

  /** getIsoFiles: the parsed images, or none at all when `pvesm list` fails. */
  method GetIsoFiles(node: Node, storage: string) returns (isos: seq<IsoFile>)
    modifies node
    ensures node.log == old(node.log) + [IsoListQuery(storage)]
    ensures isos == match node.respond(old(node.log), IsoListQuery(storage))
                    case Succeeded(out) => IsoListRows(out)
                    case Failed(_) => []
  {
    var out := node.Run(IsoListQuery(storage));
    match out {
      case Succeeded(stdout) =>
        isos := ParseIsoList(stdout);
      case Failed(_) =>
        isos := [];
    }
  }

  // ---------------------------------------------------------------- VM creation

  /** The wizard's finished answers. */
  datatype VmState = VmState(
    vmid: int,
    name: string,
    cores: int,
    memoryMb: int,
    diskGb: int,
    storage: string,
    bridge: string,
    isoVolid: Option<string>)

  /** `if (isoVolid)`: present and non-empty. */
  predicate AttachesIso(s: VmState) {
    s.isoVolid.Some? && s.isoVolid.value != ""
  }

  function CreateCommand(s: VmState): Command {
    Command("qm", ["create", IntToString(s.vmid), "--name", s.name, "--cores", IntToString(s.cores),
                   "--memory", IntToString(s.memoryMb), "--net0", "virtio,bridge=" + s.bridge])
  }

  function DiskCommand(s: VmState): Command {
    Command("qm", ["set", IntToString(s.vmid), "--scsi0", s.storage + ":" + IntToString(s.diskGb)])
  }

  function BootCommand(s: VmState): Command {
    Command("qm", ["set", IntToString(s.vmid), "--boot", "order=scsi0"])
  }

  function IsoCommand(s: VmState): Command
    requires AttachesIso(s)
  {
    Command("qm", ["set", IntToString(s.vmid), "--ide2", s.isoVolid.value + ",media=cdrom"])
  }

  /** The commands createVm issues when every one succeeds. */
  function CreatePlan(s: VmState): seq<Command> {
    [CreateCommand(s), DiskCommand(s), BootCommand(s)] + (if AttachesIso(s) then [IsoCommand(s)] else [])
  }

  /** The commands actually issued, and the message of the one that failed, if any. */
  datatype PlanRun = PlanRun(issued: seq<Command>, failure: Option<string>)

  /** Running commands one after another; the first failure ends the run. */
  function RunPlan(respond: (seq<Command>, Command) -> CommandResult, history: seq<Command>, plan: seq<Command>): PlanRun
    decreases |plan|
  {
    if plan == [] then PlanRun([], None)
    else
      match respond(history, plan[0])
      case Failed(m) => PlanRun([plan[0]], Some(m))
      case Succeeded(_) =>
        var rest := RunPlan(respond, history + [plan[0]], plan[1..]);
        PlanRun([plan[0]] + rest.issued, rest.failure)
  }

  /** A run issues a prefix of the plan, all of it when nothing failed and at least one command when something did. */
  lemma {:induction false} RunPlanIssuesPrefix(respond: (seq<Command>, Command) -> CommandResult,
                                               history: seq<Command>, plan: seq<Command>)
    ensures var o := RunPlan(respond, history, plan);
            && |o.issued| <= |plan| && o.issued == plan[..|o.issued|]
            && (o.failure.None? ==> o.issued == plan)
            && (o.failure.Some? ==> |o.issued| >= 1)
    decreases |plan|
  {
    if plan != [] && respond(history, plan[0]).Succeeded? {
      RunPlanIssuesPrefix(respond, history + [plan[0]], plan[1..]);
      var rest := RunPlan(respond, history + [plan[0]], plan[1..]);
      assert plan[..1 + |rest.issued|] == [plan[0]] + plan[1..][..|rest.issued|];
      assert [plan[0]] + plan[1..] == plan;
    }
  }

  /** Every issued command succeeded, except the last one of a failed run. */
  lemma {:induction false} RunPlanEarlierSucceeded(respond: (seq<Command>, Command) -> CommandResult,
                                                   history: seq<Command>, plan: seq<Command>, i: nat)
    requires var o := RunPlan(respond, history, plan);
             i < |o.issued| && (o.failure.None? || i < |o.issued| - 1)
    ensures i < |plan| && respond(history + plan[..i], plan[i]).Succeeded?
    decreases |plan|
  {
    var o := RunPlan(respond, history, plan);
    assert plan != [];
    if i == 0 {
      assert history + plan[..0] == history;
    } else {
      var h := history + [plan[0]];
      var rest := RunPlan(respond, h, plan[1..]);
      assert o == PlanRun([plan[0]] + rest.issued, rest.failure);
      RunPlanEarlierSucceeded(respond, h, plan[1..], i - 1);
      assert plan[..i] == [plan[0]] + plan[1..][..i - 1];
      assert history + plan[..i] == h + plan[1..][..i - 1];
    }
  }

  /** A failed run ends with the command that failed, and its message is the run's failure. */
  lemma {:induction false} RunPlanFailureIsLast(respond: (seq<Command>, Command) -> CommandResult,
                                                history: seq<Command>, plan: seq<Command>)
    requires RunPlan(respond, history, plan).failure.Some?
    ensures var o := RunPlan(respond, history, plan);
            && 1 <= |o.issued| <= |plan|
            && respond(history + plan[..|o.issued| - 1], plan[|o.issued| - 1]) == Failed(o.failure.value)
    decreases |plan|
  {
    var o := RunPlan(respond, history, plan);
    var r0 := respond(history, plan[0]);
    if r0.Failed? {
      assert o == PlanRun([plan[0]], Some(r0.message));
      assert history + plan[..0] == history;
    } else {
      var h := history + [plan[0]];
      var rest := RunPlan(respond, h, plan[1..]);
      assert o == PlanRun([plan[0]] + rest.issued, rest.failure);
      RunPlanFailureIsLast(respond, h, plan[1..]);
      var k := |rest.issued|;
      assert |o.issued| - 1 == k;
      assert plan[k] == plan[1..][k - 1];
      assert history + plan[..k] == h + plan[1..][..k - 1] by {
        assert plan[..k] == [plan[0]] + plan[1..][..k - 1];
      }
    }
  }

  function CreateError(message: string): string {
    "VM creation failed: " + message
  }

  /**
   * createVm: create, attach the disk, set the boot order, and attach the image when one was
   * chosen; the first failure is rethrown with the creation prefix and nothing is undone.
   */
  method CreateVm(node: Node, s: VmState) returns (r: Result<(), string>)
    modifies node
    ensures var o := RunPlan(node.respond, old(node.log), CreatePlan(s));
            && node.log == old(node.log) + o.issued
            && r == if o.failure.Some? then Err(CreateError(o.failure.value)) else Ok(())
  {
    var attach: seq<Command> := if AttachesIso(s) then [IsoCommand(s)] else [];
    r := RunCreation(node, CreateCommand(s), DiskCommand(s), BootCommand(s), attach);
  }

  /**
   * The try block of createVm, whatever its commands: three awaited commands and an optional
   * fourth, the first failure rethrown with the creation prefix.
   */
  method RunCreation(node: Node, create: Command, disk: Command, boot: Command, attach: seq<Command>)
    returns (r: Result<(), string>)
    requires |attach| <= 1
    modifies node
    ensures var o := RunPlan(node.respond, old(node.log), [create, disk, boot] + attach);
            && node.log == old(node.log) + o.issued
            && r == if o.failure.Some? then Err(CreateError(o.failure.value)) else Ok(())
  {
    ghost var h := node.log;
    assert [create, disk, boot] + attach == [create] + ([disk] + ([boot] + attach));
    var out := node.Run(create);
    if out.Failed? {
      RunPlanStops(node.respond, h, create, [disk] + ([boot] + attach));
      return Err(CreateError(out.message));
    }
    RunPlanGoesOn(node.respond, h, create, [disk] + ([boot] + attach));
    h := node.log;
    out := node.Run(disk);
    if out.Failed? {
      RunPlanStops(node.respond, h, disk, [boot] + attach);
      return Err(CreateError(out.message));
    }
    RunPlanGoesOn(node.respond, h, disk, [boot] + attach);
    h := node.log;
    out := node.Run(boot);
    if out.Failed? {
      RunPlanStops(node.respond, h, boot, attach);
      return Err(CreateError(out.message));
    }
    RunPlanGoesOn(node.respond, h, boot, attach);
    if attach != [] {
      h := node.log;
      assert attach == [attach[0]] + [];
      out := node.Run(attach[0]);
      if out.Failed? {
        RunPlanStops(node.respond, h, attach[0], []);
        return Err(CreateError(out.message));
      }
      RunPlanGoesOn(node.respond, h, attach[0], []);
    }
    r := Ok(());
  }

  /** A run whose first command fails issues only that command and fails with its message. */
  lemma RunPlanStops(respond: (seq<Command>, Command) -> CommandResult, history: seq<Command>,
                     first: Command, rest: seq<Command>)
    requires respond(history, first).Failed?
    ensures RunPlan(respond, history, [first] + rest) == PlanRun([first], Some(respond(history, first).message))
  {
    assert ([first] + rest)[0] == first;
  }

  /** A run whose first command succeeds issues it, then runs the rest after it. */
  lemma RunPlanGoesOn(respond: (seq<Command>, Command) -> CommandResult, history: seq<Command>,
                      first: Command, rest: seq<Command>)
    requires respond(history, first).Succeeded?
    ensures var o := RunPlan(respond, history + [first], rest);
            RunPlan(respond, history, [first] + rest) == PlanRun([first] + o.issued, o.failure)
  {
    assert ([first] + rest)[1..] == rest;
  }

  /**
   * What createVm issues: a prefix of the plan, all of it `qm` commands on the new id, at most
   * four with an image and three without; when nothing fails, exactly the plan.
   */
  lemma CreateVmCommands(respond: (seq<Command>, Command) -> CommandResult, history: seq<Command>, s: VmState)
    ensures var o := RunPlan(respond, history, CreatePlan(s));
            && |o.issued| <= (if AttachesIso(s) then 4 else 3)
            && o.issued == CreatePlan(s)[..|o.issued|]
            && (forall c :: c in o.issued ==> c.program == "qm" && |c.args| >= 2 && c.args[1] == IntToString(s.vmid))
            && (o.failure.None? ==> o.issued == CreatePlan(s))
  {
    RunPlanIssuesPrefix(respond, history, CreatePlan(s));
    var o := RunPlan(respond, history, CreatePlan(s));
    forall c | c in o.issued
      ensures c.program == "qm" && |c.args| >= 2 && c.args[1] == IntToString(s.vmid)
    {
      assert c in CreatePlan(s);
    }
  }
}
