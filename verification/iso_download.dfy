/**
 * `iso download` (src/commands/iso-download.tsx): resolve the target storage, ask the node to
 * fetch the image from a URL while showing its progress, then show the volume id.
 */
module IsoDownload {
  import opened Wrappers
  import opened JsText
  import opened ConfigStore
  import opened IsoCatalog
  import opened IsoTarget

  type Percent = p: int | 0 <= p <= 100

  const DefaultBarWidth := 30

  /** `Math.round(percent / 100 * width)`: the nearest whole cell count, halves rounded up. */
  function Filled(percent: Percent, width: nat): (f: nat)
    ensures f <= width
    ensures 100 * f - percent * width <= 50 && percent * width - 100 * f < 50
  {
    ProductBounds(percent, width);
    (2 * percent * width + 100) / 200
  }

  lemma ProductBounds(p: int, w: nat)
    requires 0 <= p <= 100
    ensures 0 <= p * w <= 100 * w
  {
    assert (100 - p) * w >= 0;
  }

  /** More progress never shows fewer filled cells; 0% shows none and 100% fills the bar. */
  lemma FilledMonotone(p: Percent, q: Percent, width: nat)
    requires p <= q
    ensures Filled(p, width) <= Filled(q, width)
    ensures Filled(0, width) == 0 && Filled(100, width) == width
  {
    assert p * width <= q * width;
  }

  /** The bar: filled cells, then empty ones, `width` cells in all. */
  function Bar(percent: Percent, width: nat): (bar: string)
    ensures |bar| == width
    ensures forall i :: 0 <= i < |bar| ==> bar[i] == (if i < Filled(percent, width) then '█' else '░')
  {
    var filled := Filled(percent, width);
    Repeat('█', filled) + Repeat('░', width - filled)
  }

  lemma {:induction false} ShortNumber(n: nat)
    requires n < 1000
    ensures |NatToString(n)| <= 3
  {
    if n >= 10 {
      assert NatToString(n) == NatToString(n / 10) + [DigitChar(n % 10)];
      if n / 10 >= 10 {
        assert NatToString(n / 10) == NatToString(n / 10 / 10) + [DigitChar(n / 10 % 10)];
        assert |NatToString(n / 10 / 10)| == 1;
      }
    }
  }

  /** `percent.toString().padStart(3)`: always three characters, the number at the right. */
  function PercentLabel(percent: Percent): (text: string)
    ensures |text| == 3
    ensures text[3 - |IntToString(percent)|..] == IntToString(percent)
    ensures forall i :: 0 <= i < 3 - |IntToString(percent)| ==> text[i] == ' '
  {
    ShortNumber(percent);
    PadStart(IntToString(percent), 3)
  }

  /** formatBytes: "0 B" for nothing, else the count in its unit. */
  function DownloadBytes(bytes: nat): (t: ByteText)
    ensures t.Fixed? <==> bytes == 0
    ensures t.Fixed? ==> t.text == "0 B"
    ensures t.Scaled? ==> Pow1024(t.unit) <= bytes < Pow1024(t.unit + 1)
  {
    if bytes == 0 then Fixed("0 B") else ScaledBytes(bytes)
  }

  /** `filename || url.split('/').pop() || 'download.iso'`. */
  function DisplayName(url: string, filename: Option<string>): (name: string)
    ensures name != []
  {
    if filename.Some? && filename.value != "" then filename.value
    else
      var last := Last(Split(url, '/'));
      if last != "" then last else "download.iso"
  }

  /**
   * A given file name wins; otherwise the name after the URL's last slash, or
   * "download.iso" when the URL ends in a slash.
   */
  lemma DisplayNameOfUrl(base: string, name: string, filename: Option<string>)
    requires '/' !in name
    ensures filename.Some? && filename.value != "" ==> DisplayName(base + "/" + name, filename) == filename.value
    ensures DisplayName(base + "/" + name, None) == if name != "" then name else "download.iso"
  {
    LastPieceAfter(base, name, '/');
  }

  /** What the progress callback reports; speed and ETA come ready-made from the downloader. */
  datatype Progress = Progress(percent: Percent, speed: string, eta: string, downloaded: nat, total: nat)

  const NoProgress := Progress(0, "", "", 0, 0)

  /**
   * The speed, then " • ETA: " and the ETA when there is one: an empty speed or ETA shows
   * nothing.
   */
  function RateLine(p: Progress): (line: string)
    ensures |line| >= |p.speed| && line[..|p.speed|] == p.speed
    ensures p.eta == "" ==> line == p.speed
    ensures p.eta != "" ==> |line| == |p.speed| + 8 + |p.eta| && line[|line| - |p.eta|..] == p.eta
    ensures p.eta != "" ==> line[|p.speed|..|p.speed| + 8] == " • ETA: "
  {
    p.speed + (if p.eta != "" then " • ETA: " + p.eta else "")
  }

  /** The byte counts line, shown only once the total is known. */
  function BytesLine(p: Progress): (line: Option<(ByteText, ByteText)>)
    ensures line.Some? <==> p.total > 0
    ensures line.Some? ==> line.value.1.Scaled?
  {
    if p.total > 0 then Some((DownloadBytes(p.downloaded), DownloadBytes(p.total))) else None
  }

  /** One `downloadIso(url, storage, filename)` call. */
  datatype DownloadRequest = DownloadRequest(url: string, storage: string, filename: Option<string>)

  datatype Screen =
    | CheckingScreen
    | DownloadingScreen(name: string, target: string, bar: string, percent: string, rate: string,
                        bytes: Option<(ByteText, ByteText)>)
    | FailureScreen(message: string)
    | SuccessScreen(volid: string, notice: Option<string>)

  class IsoDownloadCommand {
    const url: string
    const storage: Option<string>
    const filename: Option<string>
    var status: TransferStatus
    var error: string
    var volid: string
    var targetStorage: string
    var savedPreference: bool
    var progress: Progress
    /** The downloads requested from the node. */
    var requests: seq<DownloadRequest>
    /** Every status shown so far. */
    ghost var statusLog: seq<TransferStatus>

    /** The status follows the allowed path, and a download is requested once, to the shown target. */
    ghost predicate Valid()
      reads this
    {
      && StatusPath(statusLog) && statusLog[|statusLog| - 1] == status
      && |requests| <= 1
      && (status == Checking ==> requests == [] && !savedPreference)
      && (status == Transferring || status == Success ==> requests == [DownloadRequest(url, targetStorage, filename)])
    }

    constructor (url: string, storage: Option<string>, filename: Option<string>)
      ensures Valid()
      ensures this.url == url && this.storage == storage && this.filename == filename
      ensures status == Checking && error == "" && volid == "" && !savedPreference
      ensures targetStorage == storage.GetOr("") && progress == NoProgress && requests == []
    {
      this.url := url;
      this.storage := storage;
      this.filename := filename;
      status := Checking;
      error := "";
      volid := "";
      targetStorage := storage.GetOr("");
      savedPreference := false;
      progress := NoProgress;
      requests := [];
      statusLog := [Checking];
    }

    /** The first part of the effect: resolve the target, then request the download. */
    method Start(store: Store, discovered: Result<seq<string>, string>)
      requires Valid() && status == Checking
      modifies this, store
      ensures Valid()
      ensures var r := Resolve(storage, Load(old(store.file), store.legacy, store.writable).config,
                               discovered, store.writable, store.writeError);
              && store.file == FileAfter(storage, old(store.file), store.legacy, store.writable, r)
              && match r
                 case Ok(t) =>
                   && status == Transferring && targetStorage == t.storage && savedPreference == t.saved
                   && requests == [DownloadRequest(url, t.storage, filename)] && error == old(error)
                 case Err(e) =>
                   && status == Error && error == e && requests == []
                   && targetStorage == old(targetStorage) && !savedPreference
      ensures volid == old(volid) && progress == old(progress)
    {
      var r := ResolveTarget(store, storage, discovered);
      match r {
        case Ok(t) =>
          savedPreference := t.saved;
          targetStorage := t.storage;
          status := Transferring;
          statusLog := statusLog + [Transferring];
          requests := requests + [DownloadRequest(url, t.storage, filename)];
        case Err(e) =>
          error := e;
          status := Error;
          statusLog := statusLog + [Error];
      }
    }

    /** The progress callback. */
    method Progressed(p: Progress)
      requires Valid() && status == Transferring
      modifies this
      ensures Valid() && progress == p
      ensures status == old(status) && error == old(error) && volid == old(volid) && requests == old(requests)
      ensures targetStorage == old(targetStorage) && savedPreference == old(savedPreference) && statusLog == old(statusLog)
    {
      progress := p;
    }

    /** The download settles: the volume id on success, the message on failure. */
    method Finished(result: Result<string, string>)
      requires Valid() && status == Transferring
      modifies this
      ensures Valid()
      ensures result.Ok? ==> status == Success && volid == result.value && error == old(error)
      ensures result.Err? ==> status == Error && error == result.error && volid == old(volid)
      ensures requests == old(requests) && targetStorage == old(targetStorage)
      ensures savedPreference == old(savedPreference) && progress == old(progress)
    {
      match result {
        case Ok(v) =>
          volid := v;
          status := Success;
          statusLog := statusLog + [Success];
        case Err(e) =>
          error := e;
          status := Error;
          statusLog := statusLog + [Error];
      }
    }

    /** What the command shows for its current state. */
    function View(): (s: Screen)
      reads this
      ensures s.DownloadingScreen? <==> status == Transferring
      ensures s.DownloadingScreen? ==>
                && s.name == DisplayName(url, filename) && s.target == targetStorage
                && |s.bar| == DefaultBarWidth && s.rate == RateLine(progress)
                && (s.bytes.Some? <==> progress.total > 0)
      ensures s.SuccessScreen? <==> status == Success
      ensures s.SuccessScreen? ==> (s.notice.Some? <==> savedPreference)
      ensures s.FailureScreen? <==> status == Error
    {
      match status
      case Checking => CheckingScreen
      case Transferring =>
        DownloadingScreen(DisplayName(url, filename), targetStorage, Bar(progress.percent, DefaultBarWidth),
                          PercentLabel(progress.percent), RateLine(progress), BytesLine(progress))
      case Error => FailureScreen("✗ Failed to download ISO: " + error)
      case Success => SuccessScreen(volid, if savedPreference then Some(SavedNotice(targetStorage)) else None)
    }
  }
}
