/**
 * `iso delete` (src/commands/iso-delete.tsx): find an image on any storage by file name,
 * volume id or file name in any letter case, then ask the node to delete it.
 */
module IsoDelete {
  import opened Wrappers
  import opened JsText
  import opened IsoCatalog

  /** The test given to `find`: the exact file name, the exact volume id, or the file name ignoring case. */
  predicate Matches(iso: StoredIso, name: string) {
    iso.filename == name || iso.volid == name || ToLower(iso.filename) == ToLower(name)
  }

  /** The exact file-name test adds nothing: a file name equal to the name is equal ignoring case. */
  lemma MatchesIgnoringCase(iso: StoredIso, name: string)
    ensures Matches(iso, name) <==> iso.volid == name || ToLower(iso.filename) == ToLower(name)
  {
  }

  /** Names that differ only in the case of ASCII letters find the same images by file name. */
  lemma CaseOfNameIrrelevant(iso: StoredIso, name: string, other: string)
    requires ToLower(name) == ToLower(other) && iso.volid != name && iso.volid != other
    ensures Matches(iso, name) <==> Matches(iso, other)
  {
  }

  /** `isos.find(...)`, as the index of the image found. */
  function FindMatch(isos: seq<StoredIso>, name: string): (r: Option<nat>)
    ensures r.Some? ==> r.value < |isos| && Matches(isos[r.value], name)
    ensures r.Some? ==> forall j :: 0 <= j < r.value ==> !Matches(isos[j], name)
    ensures r.None? <==> forall j :: 0 <= j < |isos| ==> !Matches(isos[j], name)
  {
    if isos == [] then None
    else if Matches(isos[0], name) then Some(0)
    else
      match FindMatch(isos[1..], name)
      case None => None
      case Some(i) => Some(i + 1)
  }

  /** Images listed after the first match do not change which one is found. */
  lemma {:induction false} FindMatchIgnoresLater(isos: seq<StoredIso>, more: seq<StoredIso>, name: string)
    requires FindMatch(isos, name).Some?
    ensures FindMatch(isos + more, name) == FindMatch(isos, name)
  {
    if !Matches(isos[0], name) {
      assert (isos + more)[1..] == isos[1..] + more;
      FindMatchIgnoresLater(isos[1..], more, name);
    }
  }

  datatype Status = Finding | Deleting | Success | NotFound | Failure

  datatype Screen =
    | FindingScreen
    | NotFoundScreen(message: string)
    | DeletingScreen(message: string)
    | FailureScreen(message: string)
    | SuccessScreen(message: string)

  class IsoDeleteCommand {
    const name: string
    var status: Status
    var error: string
    var volid: string
    /** The volume ids the node was asked to delete. */
    var deletions: seq<string>

    /** At most one image is deleted, and only once it was found; its volume id is the one shown. */
    ghost predicate Valid()
      reads this
    {
      && (status == Finding || status == NotFound ==> deletions == [])
      && (status == Deleting || status == Success ==> deletions == [volid])
      && (status == Failure ==> deletions == [] || deletions == [volid])
    }

    constructor (name: string)
      ensures Valid()
      ensures this.name == name && status == Finding && error == "" && volid == "" && deletions == []
    {
      this.name := name;
      status := Finding;
      error := "";
      volid := "";
      deletions := [];
    }

    /**
     * The listing settles: a failed listing shows its message; no match shows "not found"
     * and deletes nothing; otherwise the first match is deleted by its volume id.
     */
    method Find(listed: Result<seq<StoredIso>, string>)
      requires Valid() && status == Finding
      modifies this
      ensures Valid()
      ensures listed.Err? ==> status == Failure && error == listed.error && deletions == [] && volid == old(volid)
      ensures listed.Ok? ==>
                match FindMatch(listed.value, name)
                case None => status == NotFound && deletions == [] && volid == old(volid) && error == old(error)
                case Some(i) =>
                  && status == Deleting && volid == listed.value[i].volid
                  && deletions == [listed.value[i].volid] && error == old(error)
    {
      match listed {
        case Err(e) =>
          error := e;
          status := Failure;
        case Ok(isos) =>
          var found := FindMatch(isos, name);
          if found.None? {
            status := NotFound;
            return;
          }
          volid := isos[found.value].volid;
          status := Deleting;
          deletions := deletions + [volid];
      }
    }

    /** The deletion settles. */
    method Finished(result: Result<(), string>)
      requires Valid() && status == Deleting
      modifies this
      ensures Valid()
      ensures result.Ok? ==> status == Success && error == old(error)
      ensures result.Err? ==> status == Failure && error == result.error
      ensures volid == old(volid) && deletions == old(deletions)
    {
      match result {
        case Ok(_) =>
          status := Success;
        case Err(e) =>
          error := e;
          status := Failure;
      }
    }

    /** What the command shows for its current state. */
    function View(): (s: Screen)
      reads this
      ensures s.NotFoundScreen? <==> status == NotFound
      ensures s.SuccessScreen? <==> status == Success
      ensures s.NotFoundScreen? ==> |s.message| == 15 + |name| && s.message[15..] == name
    {
      match status
      case Finding => FindingScreen
      case NotFound => NotFoundScreen("ISO not found: " + name)
      case Deleting => DeletingScreen("Deleting " + volid + "...")
      case Failure => FailureScreen("Failed to delete ISO: " + error)
      case Success => SuccessScreen("ISO deleted: " + volid)
    }
  }
}
