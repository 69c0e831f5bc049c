/**
 * The input checks of the wizard (src/lib/validators.ts): each numeric check parses its text
 * with parseInt(s, 10) and tests a range; the name check tests the length.
 */
module Validators {
  import opened Wrappers
  import opened JsText

  const MaxVmidExclusive := 999999999
  const MaxCores := 128
  const MinMemoryMb := 64
  const MaxMemoryMb := 1048576
  const MaxDiskGb := 999999

  predicate IsValidVmid(vmid: string) {
    var n := ParseInt(vmid);
    n.Some? && n.value > 0 && n.value < MaxVmidExclusive
  }

  predicate IsValidVmName(name: string) {
    |name| > 0 && |name| < 64
  }

  predicate IsValidCores(cores: string) {
    var n := ParseInt(cores);
    n.Some? && n.value > 0 && n.value <= MaxCores
  }

  predicate IsValidMemory(memory: string) {
    var n := ParseInt(memory);
    n.Some? && n.value >= MinMemoryMb && n.value <= MaxMemoryMb
  }

  predicate IsValidDiskSize(size: string) {
    var n := ParseInt(size);
    n.Some? && n.value > 0 && n.value <= MaxDiskGb
  }

  /**
   * A VM id typed as the decimal text of n, possibly followed by text that does not start
   * with a digit ("12abc", "12 ", "12.5"), is accepted exactly when 0 < n < 999999999.
   */
  lemma VmidAcceptsExactly(n: int, rest: string)
    requires rest == [] || !IsDigit(rest[0])
    ensures IsValidVmid(IntToString(n) + rest) <==> 0 < n < MaxVmidExclusive
  {
    ParseIntOfPrinted(n, rest);
  }

  /** A core count written as n (then any non-digit text) is accepted exactly when 1 <= n <= 128. */
  lemma CoresAcceptsExactly(n: int, rest: string)
    requires rest == [] || !IsDigit(rest[0])
    ensures IsValidCores(IntToString(n) + rest) <==> 1 <= n <= MaxCores
  {
    ParseIntOfPrinted(n, rest);
  }

  /** A memory size written as n (then any non-digit text) is accepted exactly when 64 <= n <= 1048576. */
  lemma MemoryAcceptsExactly(n: int, rest: string)
    requires rest == [] || !IsDigit(rest[0])
    ensures IsValidMemory(IntToString(n) + rest) <==> MinMemoryMb <= n <= MaxMemoryMb
  {
    ParseIntOfPrinted(n, rest);
  }

  /** A disk size written as n (then any non-digit text) is accepted exactly when 1 <= n <= 999999. */
  lemma DiskSizeAcceptsExactly(n: int, rest: string)
    requires rest == [] || !IsDigit(rest[0])
    ensures IsValidDiskSize(IntToString(n) + rest) <==> 1 <= n <= MaxDiskGb
  {
    ParseIntOfPrinted(n, rest);
  }

  /** The cores boundaries: 128 passes, 129 and 0 do not. */
  lemma CoresBoundaries()
    ensures IsValidCores("128") && !IsValidCores("129") && !IsValidCores("0")
  {
    assert NatToString(12) == NatToString(1) + "2";
    var s := IntToString(128);
    assert s == NatToString(12) + "8" == "128";
    CoresAcceptsExactly(128, []);
    assert s + [] == s;
    var t := IntToString(129);
    assert t == NatToString(12) + "9" == "129";
    CoresAcceptsExactly(129, []);
    assert t + [] == t;
    var z := IntToString(0);
    assert z == "0";
    CoresAcceptsExactly(0, []);
    assert z + [] == z;
  }

  /** parseInt judges by the leading integer: "12abc" counts as 12 cores and "  8" as 8. */
  lemma CoresJudgedByPrefix()
    ensures IsValidCores("12abc") && IsValidCores("  8")
  {
    assert NatToString(12) == NatToString(1) + "2" == "12";
    CoresAcceptsExactly(12, "abc");
    assert IntToString(12) + "abc" == "12abc";
    var e := IntToString(8);
    assert e == "8";
    CoresAcceptsExactly(8, []);
    assert e + [] == e;
    ParseIntSkipsWhiteSpace("  ", "8");
    assert "  " + "8" == "  8";
  }

  /** The memory boundaries: 64 passes and 63 does not. */
  lemma MemoryBoundaries()
    ensures IsValidMemory("64") && !IsValidMemory("63")
  {
    var s := IntToString(64);
    assert s == NatToString(6) + "4" == "64";
    MemoryAcceptsExactly(64, []);
    assert s + [] == s;
    var t := IntToString(63);
    assert t == NatToString(6) + "3" == "63";
    MemoryAcceptsExactly(63, []);
    assert t + [] == t;
  }

  /**
   * Text whose first non-blank character is neither a sign nor a digit parses to NaN, so
   * every numeric check refuses it; so does a lone sign.
   */
  lemma NoLeadingIntegerRejected(w: string, s: string)
    requires AllWhiteSpace(w)
    requires s == [] || (!IsWhiteSpace(s[0]) && !IsDigit(s[0]) && s[0] != '-' && s[0] != '+')
             || (|s| >= 1 && (s[0] == '-' || s[0] == '+') && (|s| == 1 || !IsDigit(s[1])))
    ensures ParseInt(w + s) == None
    ensures !IsValidVmid(w + s) && !IsValidCores(w + s) && !IsValidMemory(w + s) && !IsValidDiskSize(w + s)
  {
    ParseIntSkipsWhiteSpace(w, s);
    if s != [] {
      assert LeadingWhiteSpace(s) == 0;
    }
  }

  /** The empty name and every name of 64 or more characters are refused; 1 to 63 characters pass. */
  lemma VmNameBoundaries(name: string)
    ensures IsValidVmName(name) <==> 1 <= |name| <= 63
    ensures !IsValidVmName("")
  {
  }
}
