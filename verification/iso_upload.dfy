/**
 * `iso upload` (src/commands/iso-upload.tsx): resolve the target storage the same way as a
 * download, send a local image file to it, then show the volume id.
 */
module IsoUpload {
  import opened Wrappers
  import opened ConfigStore
  import opened IsoTarget
  import Proxmox

  /** One `uploadIso(file, storage)` call. */
  datatype UploadRequest = UploadRequest(file: string, storage: string)

  datatype Screen =
    | CheckingScreen
    | UploadingScreen(message: string)
    | FailureScreen(message: string)
    | SuccessScreen(volid: string, notice: Option<string>)

  function UploadingMessage(file: string, target: string): (message: string)
    ensures |message| == 17 + |Proxmox.FileNameOf(file)| + |target|
    ensures message[..10] == "Uploading " && message[|message| - |target| - 3..] == target + "..."
    ensures file != [] ==> |message| > 17 + |target|
  {
    "Uploading " + Proxmox.FileNameOf(file) + " to " + target + "..."
  }

  /** The file named in the progress line is the part after the last slash of the path given. */
  lemma UploadingNamesFile(dir: string, name: string, target: string)
    requires '/' !in name && name != []
    ensures UploadingMessage(dir + "/" + name, target) == "Uploading " + name + " to " + target + "..."
    ensures UploadingMessage(name, target) == "Uploading " + name + " to " + target + "..."
  {
    Proxmox.FileNameOfPath(dir, name);
  }

  class IsoUploadCommand {
    const file: string
    const storage: Option<string>
    var status: TransferStatus
    var error: string
    var volid: string
    var targetStorage: string
    var savedPreference: bool
    /** The uploads requested from the node. */
    var requests: seq<UploadRequest>
    /** Every status shown so far. */
    ghost var statusLog: seq<TransferStatus>

    /** The status follows the allowed path, and the file is sent once, to the shown target. */
    ghost predicate Valid()
      reads this
    {
      && StatusPath(statusLog) && statusLog[|statusLog| - 1] == status
      && |requests| <= 1
      && (status == Checking ==> requests == [] && !savedPreference)
      && (status == Transferring || status == Success ==> requests == [UploadRequest(file, targetStorage)])
    }

    constructor (file: string, storage: Option<string>)
      ensures Valid()
      ensures this.file == file && this.storage == storage
      ensures status == Checking && error == "" && volid == "" && !savedPreference
      ensures targetStorage == storage.GetOr("") && requests == []
    {
      this.file := file;
      this.storage := storage;
      status := Checking;
      error := "";
      volid := "";
      targetStorage := storage.GetOr("");
      savedPreference := false;
      requests := [];
      statusLog := [Checking];
    }

    /** The first part of the effect: resolve the target, then send the file. */
    method Start(store: Store, discovered: Result<seq<string>, string>)
      requires Valid() && status == Checking
      modifies this, store
      ensures Valid()
      ensures var r := Resolve(storage, Load(old(store.file), store.legacy, store.writable).config,
                               discovered, store.writable, store.writeError);
              && store.file == FileAfter(storage, old(store.file), store.legacy, store.writable, r)
              && match r
                 case Ok(t) =>
                   && status == Transferring && targetStorage == t.storage && savedPreference == t.saved
                   && requests == [UploadRequest(file, t.storage)] && error == old(error)
                 case Err(e) =>
                   && status == Error && error == e && requests == []
                   && targetStorage == old(targetStorage) && !savedPreference
      ensures volid == old(volid)
    {
      var r := ResolveTarget(store, storage, discovered);
      match r {
        case Ok(t) =>
          savedPreference := t.saved;
          targetStorage := t.storage;
          status := Transferring;
          statusLog := statusLog + [Transferring];
          requests := requests + [UploadRequest(file, t.storage)];
        case Err(e) =>
          error := e;
          status := Error;
          statusLog := statusLog + [Error];
      }
    }

    /** The upload settles: the volume id on success, the message on failure. */
    method Finished(result: Result<string, string>)
      requires Valid() && status == Transferring
      modifies this
      ensures Valid()
      ensures result.Ok? ==> status == Success && volid == result.value && error == old(error)
      ensures result.Err? ==> status == Error && error == result.error && volid == old(volid)
      ensures requests == old(requests) && targetStorage == old(targetStorage)
      ensures savedPreference == old(savedPreference)
    {
      match result {
        case Ok(v) =>
          volid := v;
          status := Success;
          statusLog := statusLog + [Success];
        case Err(e) =>
          error := e;
          status := Error;
          statusLog := statusLog + [Error];
      }
    }

    /** What the command shows for its current state. */
    function View(): (s: Screen)
      reads this
      ensures s.SuccessScreen? <==> status == Success
      ensures s.SuccessScreen? ==> (s.notice.Some? <==> savedPreference)
      ensures s.FailureScreen? <==> status == Error
    {
      match status
      case Checking => CheckingScreen
      case Transferring => UploadingScreen(UploadingMessage(file, targetStorage))
      case Error => FailureScreen("Failed to upload ISO: " + error)
      case Success => SuccessScreen(volid, if savedPreference then Some(SavedNotice(targetStorage)) else None)
    }
  }
}
