/**
 * The persistent settings of the tool (src/lib/config.ts): one YAML file of defaults and UI
 * switches, a one-time migration from the older JSON file, and the whole-file
 * read-modify-write helpers getDefault / setDefault / shouldSavePreferences.
 *
 * The two files are modelled as already-parsed slots: what YAML or JSON parsing produced,
 * or that reading failed. Whether writes to the configuration directory succeed is a
 * property of the environment (`writable`), not something the tool decides.
 */
module ConfigStore {
  import opened Wrappers

  /** The keys of `defaults`. */
  datatype DefaultKey = IsoStorage | VmStorage | Bridge | Cores | Memory | Disk

  datatype DefaultValue = Text(text: string) | Number(number: int)

  /** The declared type of each key: the storages and the bridge are strings, the sizes numbers. */
  predicate Fits(k: DefaultKey, v: DefaultValue) {
    if k == IsoStorage || k == VmStorage || k == Bridge then v.Text? else v.Number?
  }

  /** `Config['defaults']`: every field optional. */
  datatype Defaults = Defaults(
    isoStorage: Option<string>,
    vmStorage: Option<string>,
    bridge: Option<string>,
    cores: Option<int>,
    memory: Option<int>,
    disk: Option<int>)

  const NoDefaults := Defaults(None, None, None, None, None, None)

  /** `Config['ui']`. */
  datatype Ui = Ui(savePreferences: Option<bool>)

  /** `Config`: `{}` is `Config(None, None)`. */
  datatype Config = Config(defaults: Option<Defaults>, ui: Option<Ui>)

  const EmptyConfig := Config(None, None)

  function TextOf(o: Option<string>): Option<DefaultValue> {
    if o.Some? then Some(Text(o.value)) else None
  }

  function NumberOf(o: Option<int>): Option<DefaultValue> {
    if o.Some? then Some(Number(o.value)) else None
  }

  /** `defaults[key]`. */
  function Get(d: Defaults, k: DefaultKey): (v: Option<DefaultValue>)
    ensures v.Some? ==> Fits(k, v.value)
  {
    match k
    case IsoStorage => TextOf(d.isoStorage)
    case VmStorage => TextOf(d.vmStorage)
    case Bridge => TextOf(d.bridge)
    case Cores => NumberOf(d.cores)
    case Memory => NumberOf(d.memory)
    case Disk => NumberOf(d.disk)
  }

  /** `defaults[key] = value`: that key now holds the value and every other key is as it was. */
  function Set(d: Defaults, k: DefaultKey, v: DefaultValue): (d': Defaults)
    requires Fits(k, v)
    ensures Get(d', k) == Some(v)
    ensures forall k' :: k' != k ==> Get(d', k') == Get(d, k')
  {
    match k
    case IsoStorage => d.(isoStorage := Some(v.text))
    case VmStorage => d.(vmStorage := Some(v.text))
    case Bridge => d.(bridge := Some(v.text))
    case Cores => d.(cores := Some(v.number))
    case Memory => d.(memory := Some(v.number))
    case Disk => d.(disk := Some(v.number))
  }

  /** `config.defaults?.[key]`. */
  function DefaultIn(c: Config, k: DefaultKey): Option<DefaultValue> {
    if c.defaults.Some? then Get(c.defaults.value, k) else None
  }

  /** `config.defaults?.isoStorage`. */
  function IsoStorageIn(c: Config): Option<string> {
    if c.defaults.Some? then c.defaults.value.isoStorage else None
  }

  /** The config setDefault writes: `defaults` created when missing, then one key assigned. */
  function WithDefault(c: Config, k: DefaultKey, v: DefaultValue): Config
    requires Fits(k, v)
  {
    Config(Some(Set(c.defaults.GetOr(NoDefaults), k, v)), c.ui)
  }

  /** `config.ui?.savePreferences !== false`. */
  function SavesPreferences(c: Config): (save: bool)
    ensures !save <==> c.ui == Some(Ui(Some(false)))
  {
    !(c.ui.Some? && c.ui.value.savePreferences == Some(false))
  }

  /** The new-format file as the tool finds it. `Document(None)` is an empty or falsy YAML document. */
  datatype ConfigFile = Absent | Unreadable | Document(doc: Option<Config>)

  /**
   * The legacy JSON file: missing; unreadable, not JSON, or the JSON `null` (whose field read
   * throws); or the `isoStorage` field of the parsed value, absent for any value without one.
   */
  datatype LegacyFile = NoLegacy | LegacyUnreadable | LegacyJson(isoStorage: Option<string>)

  /** migrateLegacyConfig: what the legacy file becomes in the new format, if it can be read. */
  function Migrate(legacy: LegacyFile): Option<Config> {
    match legacy
    case LegacyJson(iso) =>
      var defaults := if iso.Some? && iso.value != "" then NoDefaults.(isoStorage := iso) else NoDefaults;
      Some(Config(Some(defaults), Some(Ui(Some(true)))))
    case _ => None
  }

  /** What loadConfig returns and what the new-format file is afterwards. */
  datatype Loaded = Loaded(config: Config, file: ConfigFile)

  /**
   * loadConfig: an existing file is read and never migrated over; an unreadable one gives `{}`;
   * a missing one is replaced by the migrated legacy settings when they exist and can be saved.
   * Nothing here fails: every problem degrades to `{}`.
   */
  function Load(file: ConfigFile, legacy: LegacyFile, writable: bool): (r: Loaded)
    ensures file != Absent ==> r.file == file
    ensures r.file != file ==> file == Absent && writable && r.file == Document(Some(r.config))
    ensures r.file != file ==> Migrate(legacy) == Some(r.config)
    ensures file == Absent && (Migrate(legacy).None? || !writable) ==> r == Loaded(EmptyConfig, Absent)
    ensures file == Absent && Migrate(legacy).Some? && writable ==> r.file != file
    ensures file.Document? ==> r.config == file.doc.GetOr(EmptyConfig)
    ensures file.Unreadable? ==> r.config == EmptyConfig
  {
    match file
    case Document(doc) => Loaded(doc.GetOr(EmptyConfig), file)
    case Unreadable => Loaded(EmptyConfig, file)
    case Absent =>
      var migrated := Migrate(legacy);
      if migrated.Some? && writable then Loaded(migrated.value, Document(migrated))
      else Loaded(EmptyConfig, file)
  }

  /** Loading twice is loading once: the second load finds what the first one left and writes nothing. */
  lemma LoadIdempotent(file: ConfigFile, legacy: LegacyFile, writable: bool)
    ensures var first := Load(file, legacy, writable);
            Load(first.file, legacy, writable) == first
  {
  }

  /**
   * With only a legacy file holding `isoStorage`, loadConfig returns
   * `{defaults: {isoStorage}, ui: {savePreferences: true}}` (isoStorage only when non-empty),
   * saves it when it can, and the next load reads that file back; if the save fails the
   * result is `{}` and nothing is written.
   */
  lemma LegacyMigration(iso: Option<string>, writable: bool)
    ensures var r := Load(Absent, LegacyJson(iso), writable);
            var expected := Config(Some(NoDefaults.(isoStorage := if iso == Some("") then None else iso)),
                                   Some(Ui(Some(true))));
            && (writable ==> r.config == expected && r.file == Document(Some(expected)))
            && (!writable ==> r == Loaded(EmptyConfig, Absent))
            && Load(r.file, LegacyJson(iso), writable).config == r.config
            && DefaultIn(r.config, IsoStorage) == (if writable && iso.Some? && iso.value != "" then Some(Text(iso.value)) else None)
  {
  }

  /** setDefault changes one key: the others and `ui` are untouched. */
  lemma SetDefaultChangesOneKey(c: Config, k: DefaultKey, v: DefaultValue, other: DefaultKey)
    requires Fits(k, v)
    ensures DefaultIn(WithDefault(c, k, v), k) == Some(v)
    ensures other != k ==> DefaultIn(WithDefault(c, k, v), other) == DefaultIn(c, other)
    ensures WithDefault(c, k, v).ui == c.ui
    ensures SavesPreferences(WithDefault(c, k, v)) == SavesPreferences(c)
  {
    if c.defaults.None? {
      assert Get(NoDefaults, other) == None;
    }
  }

  /**
   * getDefault after a successful setDefault gives the value back, whatever the files held
   * before: the write leaves a document that the next load reads as it is.
   */
  lemma SetThenGet(file: ConfigFile, legacy: LegacyFile, k: DefaultKey, v: DefaultValue)
    requires Fits(k, v)
    ensures var written := WithDefault(Load(file, legacy, true).config, k, v);
            DefaultIn(Load(Document(Some(written)), legacy, true).config, k) == Some(v)
  {
    var written := WithDefault(Load(file, legacy, true).config, k, v);
    SetDefaultChangesOneKey(Load(file, legacy, true).config, k, v, k);
  }

  /** The two files the tool reads, and whether it may write the new one. */
  class Store {
    var file: ConfigFile
    const legacy: LegacyFile
    const writable: bool
    /** The error a failed write throws. */
    const writeError: string

    constructor (file: ConfigFile, legacy: LegacyFile, writable: bool, writeError: string)
      ensures this.file == file && this.legacy == legacy
      ensures this.writable == writable && this.writeError == writeError
    {
      this.file := file;
      this.legacy := legacy;
      this.writable := writable;
      this.writeError := writeError;
    }

    /** The config loadConfig would return now. */
    function Current(): Config
      reads this
    {
      Load(file, legacy, writable).config
    }

    /** saveConfig: writes the whole config, or throws and leaves the file alone. */
    method SaveConfig(c: Config) returns (r: Result<(), string>)
      modifies this
      ensures r == if writable then Ok(()) else Err(writeError)
      ensures file == if writable then Document(Some(c)) else old(file)
    {
      if writable {
        file := Document(Some(c));
        r := Ok(());
      } else {
        r := Err(writeError);
      }
    }

    /** migrateLegacyConfig, built the way the source builds it: an object, then one optional field. */
    method MigrateLegacyConfig() returns (m: Option<Config>)
      ensures m == Migrate(legacy)
    {
      match legacy {
        case LegacyJson(iso) =>
          var defaults := NoDefaults;
          if iso.Some? && iso.value != "" {
            defaults := defaults.(isoStorage := iso);
          }
          m := Some(Config(Some(defaults), Some(Ui(Some(true)))));
        case _ =>
          m := None;
      }
    }

    /** loadConfig. */
    method LoadConfig() returns (c: Config)
      modifies this
      ensures c == Load(old(file), legacy, writable).config
      ensures file == Load(old(file), legacy, writable).file
    {
      match file {
        case Document(doc) =>
          c := doc.GetOr(EmptyConfig);
        case Unreadable =>
          c := EmptyConfig;
        case Absent =>
          var migrated := MigrateLegacyConfig();
          c := EmptyConfig;
          if migrated.Some? {
            var saved := SaveConfig(migrated.value);
            if saved.Ok? {
              c := migrated.value;
            }
          }
      }
    }

    /** getDefault. */
    method GetDefault(k: DefaultKey) returns (v: Option<DefaultValue>)
      modifies this
      ensures v == DefaultIn(Load(old(file), legacy, writable).config, k)
      ensures file == Load(old(file), legacy, writable).file
    {
      var c := LoadConfig();
      v := if c.defaults.Some? then Get(c.defaults.value, k) else None;
    }

    /** setDefault: load, assign one key, save the whole config; a failed save throws. */
    method SetDefault(k: DefaultKey, v: DefaultValue) returns (r: Result<(), string>)
      requires Fits(k, v)
      modifies this
      ensures r == if writable then Ok(()) else Err(writeError)
      ensures file == if writable then Document(Some(WithDefault(Load(old(file), legacy, writable).config, k, v)))
                      else old(file)
    {
      var c := LoadConfig();
      if c.defaults.None? {
        c := c.(defaults := Some(NoDefaults));
      }
      c := c.(defaults := Some(Set(c.defaults.value, k, v)));
      r := SaveConfig(c);
    }

    /** shouldSavePreferences. */
    method ShouldSavePreferences() returns (save: bool)
      modifies this
      ensures save == SavesPreferences(Load(old(file), legacy, writable).config)
      ensures file == Load(old(file), legacy, writable).file
    {
      var c := LoadConfig();
      save := c.ui.None? || c.ui.value.savePreferences != Some(false);
    }

    /** getIsoStoragePreference. */
    method GetIsoStoragePreference() returns (storage: Option<string>)
      modifies this
      ensures storage == IsoStorageIn(Load(old(file), legacy, writable).config)
      ensures file == Load(old(file), legacy, writable).file
    {
      var v := GetDefault(IsoStorage);
      storage := if v.Some? then Some(v.value.text) else None;
    }

    /** setIsoStoragePreference. */
    method SetIsoStoragePreference(storage: string) returns (r: Result<(), string>)
      modifies this
      ensures r == if writable then Ok(()) else Err(writeError)
      ensures file == if writable then Document(Some(WithDefault(Load(old(file), legacy, writable).config, IsoStorage, Text(storage))))
                      else old(file)
    {
      r := SetDefault(IsoStorage, Text(storage));
    }
  }
}
