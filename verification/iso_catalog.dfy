/**
 * What the ISO commands share: the image records the node-wide listing returns, and the
 * choice of a unit when a byte count is shown (`formatBytes` in src/commands/iso-download.tsx
 * and src/commands/iso-list.tsx).
 */
module IsoCatalog {
  import opened Wrappers

  /** An image as the node-wide listing reports it; `size` None stands for NaN. */
  datatype StoredIso = StoredIso(volid: string, filename: string, size: Option<int>, storage: string)

  /** `1024 ** i`. */
  function Pow1024(i: nat): (p: nat)
    ensures p >= 1
  {
    if i == 0 then 1 else 1024 * Pow1024(i - 1)
  }

  /** `Math.floor(Math.log(bytes) / Math.log(1024))` for a positive count: the largest i with 1024^i <= bytes. */
  function UnitIndex(bytes: nat): (i: nat)
    requires bytes >= 1
    ensures Pow1024(i) <= bytes < Pow1024(i + 1)
  {
    if bytes < 1024 then 0
    else
      var i := 1 + UnitIndex(bytes / 1024);
      assert Pow1024(i) == 1024 * Pow1024(i - 1) <= 1024 * (bytes / 1024) <= bytes;
      assert bytes < 1024 * (bytes / 1024 + 1) <= 1024 * Pow1024(i);
      i
  }

  /** `sizes[i]`: past TB the array has no entry and the text reads "undefined". */
  function UnitName(i: nat): string {
    if i < 5 then ["B", "KB", "MB", "GB", "TB"][i] else "undefined"
  }

  /**
   * A byte count as shown: a fixed text, or a count scaled to the unit with index `unit`
   * (the one-decimal number in front of the unit is floating point and not modelled).
   */
  datatype ByteText = Fixed(text: string) | Scaled(unit: nat, unitName: string)

  /** The scaled form of a positive count. */
  function ScaledBytes(bytes: nat): ByteText
    requires bytes >= 1
  {
    Scaled(UnitIndex(bytes), UnitName(UnitIndex(bytes)))
  }

  /** The unit grows with the count: a count at least 1024 times another is in a higher unit. */
  lemma {:induction false} UnitIndexMonotone(a: nat, b: nat)
    requires 1 <= a <= b
    ensures UnitIndex(a) <= UnitIndex(b)
    ensures b >= 1024 * a ==> UnitIndex(a) < UnitIndex(b)
  {
    var i, j := UnitIndex(a), UnitIndex(b);
    if j < i {
      PowMonotone(j + 1, i);
    }
    if b >= 1024 * a {
      assert b >= Pow1024(i + 1);
    }
  }

  lemma {:induction false} PowMonotone(i: nat, j: nat)
    requires i <= j
    ensures Pow1024(i) <= Pow1024(j)
    decreases j
  {
    if i < j {
      PowMonotone(i, j - 1);
    }
  }

  /** Kilobytes, megabytes, gigabytes: the unit boundaries sit at powers of 1024. */
  lemma UnitBoundaries()
    ensures UnitIndex(1) == 0 && UnitName(0) == "B"
    ensures UnitIndex(1023) == 0 && UnitIndex(1024) == 1 && UnitName(1) == "KB"
    ensures UnitIndex(1048576) == 2 && UnitName(2) == "MB"
  {
    assert UnitIndex(1024) == 1 + UnitIndex(1);
    assert UnitIndex(1048576) == 1 + UnitIndex(1024);
  }
}
