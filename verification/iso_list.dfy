/**
 * `iso list` (src/commands/iso-list.tsx): every image on every storage, sorted by file name
 * and laid out in three padded columns with a count underneath.
 */
module IsoList {
  import opened Wrappers
  import opened JsText
  import opened IsoCatalog

  // ---------------------------------------------------------------- ordering by file name

  /** The order `localeCompare` puts file names in, taken as plain character-code order. */
  predicate NameLeq(a: string, b: string)
    decreases |a|
  {
    a == [] || (b != [] && (a[0] < b[0] || (a[0] == b[0] && NameLeq(a[1..], b[1..]))))
  }

  /** Any two names are ordered one way or the other. */
  lemma {:induction false} NameLeqTotal(a: string, b: string)
    ensures NameLeq(a, b) || NameLeq(b, a)
    decreases |a|
  {
    if a != [] && b != [] && a[0] == b[0] {
      NameLeqTotal(a[1..], b[1..]);
    }
  }

  lemma {:induction false} NameLeqTransitive(a: string, b: string, c: string)
    requires NameLeq(a, b) && NameLeq(b, c)
    ensures NameLeq(a, c)
    decreases |a|
  {
    if a != [] && a[0] == b[0] && b[0] == c[0] {
      NameLeqTransitive(a[1..], b[1..], c[1..]);
    }
  }

  /** Each image's file name is at most the next one's. */
  predicate SortedByName(isos: seq<StoredIso>) {
    forall i :: 0 < i < |isos| ==> NameLeq(isos[i - 1].filename, isos[i].filename)
  }

  /** Placing one image before the first image whose name is not smaller. */
  function Insert(iso: StoredIso, sorted: seq<StoredIso>): (r: seq<StoredIso>)
    requires SortedByName(sorted)
    ensures SortedByName(r)
    ensures multiset(r) == multiset(sorted) + multiset{iso}
    ensures |r| == |sorted| + 1 && (r[0] == iso || (sorted != [] && r[0] == sorted[0]))
  {
    if sorted == [] then [iso]
    else if NameLeq(iso.filename, sorted[0].filename) then [iso] + sorted
    else
      var rest := Insert(iso, sorted[1..]);
      NameLeqTotal(iso.filename, sorted[0].filename);
      assert sorted == [sorted[0]] + sorted[1..];
      [sorted[0]] + rest
  }

  /** `data.sort((a, b) => a.filename.localeCompare(b.filename))`. */
  function SortByName(isos: seq<StoredIso>): (r: seq<StoredIso>)
    ensures SortedByName(r)
    ensures multiset(r) == multiset(isos)
  {
    if isos == [] then []
    else
      assert isos == [isos[0]] + isos[1..];
      Insert(isos[0], SortByName(isos[1..]))
  }

  /** In the sorted listing every earlier name is at most every later one, not only the next one. */
  lemma {:induction false} SortedPairwise(isos: seq<StoredIso>, i: nat, j: nat)
    requires SortedByName(isos) && i <= j < |isos|
    ensures NameLeq(isos[i].filename, isos[j].filename)
    decreases j - i
  {
    if i == j {
      NameLeqReflexive(isos[i].filename);
    } else {
      SortedPairwise(isos, i, j - 1);
      NameLeqTransitive(isos[i].filename, isos[j - 1].filename, isos[j].filename);
    }
  }

  lemma {:induction false} NameLeqReflexive(a: string)
    ensures NameLeq(a, a)
    decreases |a|
  {
    if a != [] {
      NameLeqReflexive(a[1..]);
    }
  }

  /** Sorting keeps the same images: the count in the footer is the count listed. */
  lemma SortKeepsImages(isos: seq<StoredIso>)
    ensures |SortByName(isos)| == |isos|
    ensures forall x :: x in isos <==> x in SortByName(isos)
  {
    var r := SortByName(isos);
    assert |r| == |multiset(r)| == |multiset(isos)| == |isos|;
    forall x
      ensures x in isos <==> x in r
    {
      assert x in isos <==> x in multiset(isos);
      assert x in r <==> x in multiset(r);
    }
  }

  // ---------------------------------------------------------------- the table

  /** formatBytes of this command: "-" for no size or zero; a negative size reads "NaN undefined". */
  function ListSize(size: Option<int>): (t: ByteText)
    ensures t == Fixed("-") <==> size.None? || size.value == 0
    ensures t.Scaled? <==> size.Some? && size.value > 0
    ensures t.Scaled? ==> Pow1024(t.unit) <= size.value < Pow1024(t.unit + 1)
  {
    match size
    case None => Fixed("-")
    case Some(n) =>
      if n == 0 then Fixed("-")
      else if n < 0 then Fixed("NaN undefined")
      else ScaledBytes(n)
  }

  /** `Math.max(floor, ...lengths)`. */
  function Widest(lengths: seq<nat>, floor: nat): (w: nat)
    ensures w >= floor && forall i :: 0 <= i < |lengths| ==> lengths[i] <= w
    ensures w == floor || exists i :: 0 <= i < |lengths| && lengths[i] == w
  {
    if lengths == [] then floor
    else
      var w := Widest(lengths[..|lengths| - 1], floor);
      var last := lengths[|lengths| - 1];
      if last > w then last else w
  }

  function NameLengths(isos: seq<StoredIso>): (r: seq<nat>)
    ensures |r| == |isos| && forall i :: 0 <= i < |isos| ==> r[i] == |isos[i].filename|
  {
    seq(|isos|, i requires 0 <= i < |isos| => |isos[i].filename|)
  }

  function StorageLengths(isos: seq<StoredIso>): (r: seq<nat>)
    ensures |r| == |isos| && forall i :: 0 <= i < |isos| ==> r[i] == |isos[i].storage|
  {
    seq(|isos|, i requires 0 <= i < |isos| => |isos[i].storage|)
  }

  const SizeWidth := 12

  /** The name column: the longest file name, at least 30, and a two-space gap. */
  function NameWidth(isos: seq<StoredIso>): (w: nat)
    ensures w >= 32 && forall i :: 0 <= i < |isos| ==> |isos[i].filename| + 2 <= w
    ensures w == 32 || exists i :: 0 <= i < |isos| && |isos[i].filename| + 2 == w
  {
    Widest(NameLengths(isos), 30) + 2
  }

  /** The storage column: the longest storage name, at least 10, and a two-space gap. */
  function StorageWidth(isos: seq<StoredIso>): (w: nat)
    ensures w >= 12 && forall i :: 0 <= i < |isos| ==> |isos[i].storage| + 2 <= w
    ensures w == 12 || exists i :: 0 <= i < |isos| && |isos[i].storage| + 2 == w
  {
    Widest(StorageLengths(isos), 10) + 2
  }

  datatype Row = Row(name: string, storage: string, size: ByteText)

  function Header(isos: seq<StoredIso>): string {
    PadEnd("NAME", NameWidth(isos)) + PadEnd("STORAGE", StorageWidth(isos)) + "SIZE"
  }

  function RowOf(iso: StoredIso, nameWidth: nat, storageWidth: nat): Row {
    Row(PadEnd(iso.filename, nameWidth), PadEnd(iso.storage, storageWidth), ListSize(iso.size))
  }

  function Rows(isos: seq<StoredIso>): (rows: seq<Row>)
    ensures |rows| == |isos|
    ensures forall i :: 0 <= i < |isos| ==> rows[i] == RowOf(isos[i], NameWidth(isos), StorageWidth(isos))
  {
    seq(|isos|, i requires 0 <= i < |isos| => RowOf(isos[i], NameWidth(isos), StorageWidth(isos)))
  }

  /**
   * The rows line up: every row's name cell is exactly as wide as the name column and its
   * storage cell as wide as the storage column, each cell being its text followed by at
   * least two spaces.
   */
  lemma RowCellsAlign(isos: seq<StoredIso>, i: nat)
    requires i < |isos|
    ensures var row := Rows(isos)[i];
            && |row.name| == NameWidth(isos) && row.name[..|isos[i].filename|] == isos[i].filename
            && |row.storage| == StorageWidth(isos) && row.storage[..|isos[i].storage|] == isos[i].storage
            && row.name[|row.name| - 2..] == "  " && row.storage[|row.storage| - 2..] == "  "
  {
    assert NameLengths(isos)[i] == |isos[i].filename|;
    assert StorageLengths(isos)[i] == |isos[i].storage|;
    var row := Rows(isos)[i];
    PaddedCell(isos[i].filename, NameWidth(isos));
    PaddedCell(isos[i].storage, StorageWidth(isos));
  }

  /** A cell padded to a width at least two more than its text: the text, then at least two spaces. */
  lemma PaddedCell(text: string, width: nat)
    requires |text| + 2 <= width
    ensures var cell := PadEnd(text, width);
            |cell| == width && cell[..|text|] == text && cell[width - 2..] == "  "
  {
    var cell := PadEnd(text, width);
    assert cell[width - 2..] == [cell[width - 2], cell[width - 1]];
  }

  /** The header's titles start where the rows' cells start. */
  lemma HeaderAligns(isos: seq<StoredIso>)
    ensures var header := Header(isos);
            && |header| == NameWidth(isos) + StorageWidth(isos) + 4
            && header[..4] == "NAME" && header[NameWidth(isos)..NameWidth(isos) + 7] == "STORAGE"
  {
    var nameCell := PadEnd("NAME", NameWidth(isos));
    var storageCell := PadEnd("STORAGE", StorageWidth(isos));
    var header := Header(isos);
    assert header == nameCell + storageCell + "SIZE";
    assert header[..4] == nameCell[..4];
    assert header[NameWidth(isos)..NameWidth(isos) + 7] == storageCell[..7];
  }

  /** `${n} ISO${n !== 1 ? 's' : ''}`. */
  function Footer(n: nat): (text: string)
    ensures |text| >= |IntToString(n)| + 4 && text[..|IntToString(n)|] == IntToString(n)
    ensures text[|IntToString(n)|..|IntToString(n)| + 4] == " ISO"
    ensures text[|text| - 1] == 's' <==> n != 1
    ensures |text| == |IntToString(n)| + (if n == 1 then 4 else 5)
  {
    IntToString(n) + " ISO" + (if n != 1 then "s" else "")
  }

  // ---------------------------------------------------------------- the command

  datatype Screen =
    | LoadingScreen
    | ErrorScreen(message: string)
    | EmptyScreen
    | Table(header: string, rows: seq<Row>, footer: string)

  class IsoListCommand {
    var isos: seq<StoredIso>
    var loading: bool
    var error: string

    /** Once loaded without error, the images are kept sorted by file name. */
    ghost predicate Valid()
      reads this
    {
      SortedByName(isos)
    }

    constructor ()
      ensures Valid() && isos == [] && loading && error == ""
    {
      isos := [];
      loading := true;
      error := "";
    }

    /** The listing settles: its images sorted by file name, or its message. */
    method Load(listed: Result<seq<StoredIso>, string>)
      requires Valid() && loading
      modifies this
      ensures Valid() && !loading
      ensures listed.Ok? ==> isos == SortByName(listed.value) && error == old(error)
      ensures listed.Ok? ==> multiset(isos) == multiset(listed.value)
      ensures listed.Err? ==> isos == old(isos) && error == listed.error
    {
      match listed {
        case Ok(data) =>
          isos := SortByName(data);
        case Err(e) =>
          error := e;
      }
      loading := false;
    }

    /**
     * What the command shows: the loading line, then the error if its message is not empty,
     * then "No ISOs found" for an empty listing, else the table.
     */
    function View(): (s: Screen)
      reads this
      ensures s.ErrorScreen? <==> !loading && error != ""
      ensures s.EmptyScreen? <==> !loading && error == "" && isos == []
      ensures s.Table? ==> |s.rows| == |isos| && s.footer == Footer(|isos|)
    {
      if loading then LoadingScreen
      else if error != "" then ErrorScreen("Error: " + error)
      else if isos == [] then EmptyScreen
      else Table(Header(isos), Rows(isos), Footer(|isos|))
    }
  }
}
