/**
 * Where an uploaded or downloaded image goes (src/commands/iso-download.tsx and
 * src/commands/iso-upload.tsx resolve it the same way): the storage given on the command
 * line, else the saved default, else the first ISO-capable storage the node reports, which
 * is then saved as the default when preferences may be saved.
 */
module IsoTarget {
  import opened Wrappers
  import opened ConfigStore

  const NoIsoStorage := "No ISO-capable storage found"

  /** A present, non-empty string: what `if (!storageToUse)` lets through. */
  predicate Truthy(s: Option<string>) {
    s.Some? && s.value != ""
  }

  /** The line shown after a transfer whose target was saved as the default. */
  function SavedNotice(storage: string): string {
    "Saved " + storage + " as default ISO storage"
  }

  /** The storage chosen, and whether it was saved as the default on the way. */
  datatype Target = Target(storage: string, saved: bool)

  /**
   * The resolution, given the config every load in it sees, what the ISO-capable storage
   * lookup gives (used only when nothing else decides), and whether the settings file can
   * be written. A failed lookup, an empty one, or a failed save ends it with that error.
   */
  function Resolve(explicit: Option<string>, loaded: Config, discovered: Result<seq<string>, string>,
                   writable: bool, writeError: string): (r: Result<Target, string>)
    ensures r.Err? ==> !Truthy(explicit) && !Truthy(IsoStorageIn(loaded))
    ensures r.Ok? && r.value.saved ==>
              && !Truthy(explicit) && !Truthy(IsoStorageIn(loaded)) && SavesPreferences(loaded) && writable
              && discovered.Ok? && discovered.value != [] && r.value.storage == discovered.value[0]
    ensures Truthy(explicit) ==> r == Ok(Target(explicit.value, false))
  {
    if Truthy(explicit) then Ok(Target(explicit.value, false))
    else if Truthy(IsoStorageIn(loaded)) then Ok(Target(IsoStorageIn(loaded).value, false))
    else
      match discovered
      case Err(e) => Err(e)
      case Ok(names) =>
        if names == [] then Err(NoIsoStorage)
        else if !SavesPreferences(loaded) then Ok(Target(names[0], false))
        else if writable then Ok(Target(names[0], true))
        else Err(writeError)
  }

  /**
   * The order of precedence: an explicit storage wins, then the saved default, then the
   * first storage found; with none of the three the resolution fails with the fixed message.
   */
  lemma ResolvePrecedence(explicit: Option<string>, loaded: Config, discovered: Result<seq<string>, string>,
                          writable: bool, writeError: string)
    ensures var r := Resolve(explicit, loaded, discovered, writable, writeError);
            && (Truthy(explicit) ==> r == Ok(Target(explicit.value, false)))
            && (!Truthy(explicit) && Truthy(IsoStorageIn(loaded)) ==> r == Ok(Target(IsoStorageIn(loaded).value, false)))
            && (!Truthy(explicit) && !Truthy(IsoStorageIn(loaded)) && discovered == Ok([]) ==> r == Err(NoIsoStorage))
            && (r.Ok? && !Truthy(explicit) && !Truthy(IsoStorageIn(loaded)) ==>
                  discovered.Ok? && discovered.value != [] && r.value.storage == discovered.value[0])
  {
  }

  /**
   * A choice is saved only when it came from the lookup and preferences may be saved; and
   * when those hold and the file is writable, it is saved.
   */
  lemma SavedOnlyWhenDiscovered(explicit: Option<string>, loaded: Config, discovered: Result<seq<string>, string>,
                                writable: bool, writeError: string)
    ensures var r := Resolve(explicit, loaded, discovered, writable, writeError);
            (r.Ok? && r.value.saved) <==>
              (!Truthy(explicit) && !Truthy(IsoStorageIn(loaded)) && discovered.Ok? && discovered.value != [] &&
               SavesPreferences(loaded) && writable)
  {
  }

  /**
   * Once a found storage is saved, the next resolution without an explicit storage picks the
   * same storage from the config, without needing the lookup and without saving again.
   */
  lemma SavedChoiceIsReused(loaded: Config, discovered: Result<seq<string>, string>,
                            later: Result<seq<string>, string>, writeError: string)
    requires var r := Resolve(None, loaded, discovered, true, writeError); r.Ok? && r.value.saved
    requires discovered.value[0] != ""
    ensures var r := Resolve(None, loaded, discovered, true, writeError);
            Resolve(None, WithDefault(loaded, IsoStorage, Text(r.value.storage)), later, true, writeError) ==
              Ok(Target(r.value.storage, false))
  {
    var r := Resolve(None, loaded, discovered, true, writeError);
    SetDefaultChangesOneKey(loaded, IsoStorage, Text(r.value.storage), IsoStorage);
  }

  /** The status of an upload or a download: checking, transferring, then success or error. */
  datatype TransferStatus = Checking | Transferring | Success | Error

  /** The moves the status can make. */
  predicate Advances(a: TransferStatus, b: TransferStatus) {
    || (a == Checking && (b == Transferring || b == Error))
    || (a == Transferring && (b == Success || b == Error))
  }

  /** The statuses a command has shown, in order, starting from checking. */
  predicate StatusPath(log: seq<TransferStatus>) {
    && |log| >= 1 && log[0] == Checking
    && forall i :: 0 < i < |log| ==> Advances(log[i - 1], log[i])
  }

  /**
   * A command never goes back to checking, shows nothing after success or an error, and
   * reaches success only from transferring, which it reached from checking.
   */
  lemma StatusPathShape(log: seq<TransferStatus>)
    requires StatusPath(log)
    ensures forall i :: 0 < i < |log| ==> log[i] != Checking
    ensures forall i :: 0 <= i < |log| - 1 ==> log[i] != Success && log[i] != Error
    ensures log[|log| - 1] == Success ==> log == [Checking, Transferring, Success]
  {
    forall i | 0 < i < |log|
      ensures log[i] != Checking
    {
      assert Advances(log[i - 1], log[i]);
    }
    forall i | 0 <= i < |log| - 1
      ensures log[i] != Success && log[i] != Error
    {
      assert Advances(log[i], log[i + 1]);
    }
    if log[|log| - 1] == Success {
      var k := |log| - 1;
      assert Advances(log[k - 1], log[k]);
      assert Advances(log[k - 2], log[k - 1]);
    }
  }

  /** The settings file after the resolution. */
  function FileAfter(explicit: Option<string>, file: ConfigFile, legacy: LegacyFile, writable: bool,
                     r: Result<Target, string>): ConfigFile
  {
    if Truthy(explicit) then file
    else if r.Ok? && r.value.saved then Document(Some(WithDefault(Load(file, legacy, writable).config, IsoStorage, Text(r.value.storage))))
    else Load(file, legacy, writable).file
  }

  /**
   * The resolution as the commands run it, with `storageToUse` reassigned step by step. The
   * config is loaded afresh by each helper; loading is idempotent, so all see the same one.
   */
  method ResolveTarget(store: Store, explicit: Option<string>, discovered: Result<seq<string>, string>)
    returns (r: Result<Target, string>)
    modifies store
    ensures var loaded := Load(old(store.file), store.legacy, store.writable).config;
            r == Resolve(explicit, loaded, discovered, store.writable, store.writeError)
    ensures store.file == FileAfter(explicit, old(store.file), store.legacy, store.writable, r)
  {
    ghost var loaded := Load(store.file, store.legacy, store.writable);
    var storageToUse := explicit;
    var saved := false;
    if !Truthy(storageToUse) {
      storageToUse := store.GetIsoStoragePreference();
      LoadIdempotent(old(store.file), store.legacy, store.writable);
      if !Truthy(storageToUse) {
        match discovered {
          case Err(e) =>
            return Err(e);
          case Ok(names) =>
            if names == [] {
              return Err(NoIsoStorage);
            }
            storageToUse := Some(names[0]);
            var save := store.ShouldSavePreferences();
            if save {
              var written := store.SetIsoStoragePreference(names[0]);
              if written.Err? {
                return Err(written.error);
              }
              saved := true;
            }
        }
      }
    }
    r := Ok(Target(storageToUse.GetOr(""), saved));
  }
}
