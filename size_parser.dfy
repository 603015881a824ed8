/**
 * `parseSizeToBytes` (App.tsx): the byte count behind a size label such as "12.7MB",
 * used only as a sort key. The leading number that `parseFloat` extracts from the label
 * is given alongside it (`None` for NaN).
 */
module SizeParser {
  import opened Wrappers
  import opened Strings

  const KB: nat := 1024
  const MB: nat := 1024 * 1024
  const GB: nat := 1024 * 1024 * 1024

  /** The multiplier chosen by the upper-cased label: GB first, then MB, then KB, else 1. */
  function UnitFactor(sizeStr: string): nat
  {
    var unit := Upper(sizeStr);
    if Contains(unit, "GB") then GB
    else if Contains(unit, "MB") then MB
    else if Contains(unit, "KB") then KB
    else 1
  }

  function ParseSizeToBytes(num: Option<real>, sizeStr: string): (r: real)
    ensures num == None ==> r == 0.0
    ensures num.Some? && num.value >= 0.0 ==> r >= 0.0
  {
    match num
    case None => 0.0
    case Some(n) => n * UnitFactor(sizeStr) as real
  }

  /** Units are recognised whatever their case: a label parses as its upper-cased form. */
  lemma CaseInsensitive(num: Option<real>, sizeStr: string)
    ensures ParseSizeToBytes(num, sizeStr) == ParseSizeToBytes(num, Upper(sizeStr))
  {
    UpperIdempotent(sizeStr);
  }

  /** A label without a unit letter G, M or K (in either case) is read as a plain byte count. */
  predicate Unitless(s: string)
  {
    forall i :: 0 <= i < |s| ==> UpperChar(s[i]) != 'G' && UpperChar(s[i]) != 'M' && UpperChar(s[i]) != 'K'
  }

  /** The upper-cased form of a unitless label contains none of the unit letters. */
  lemma UnitlessUpper(digits: string)
    requires Unitless(digits)
    ensures 'G' !in Upper(digits) && 'M' !in Upper(digits) && 'K' !in Upper(digits)
  {
    var u := Upper(digits);
    forall i | 0 <= i < |u| ensures u[i] != 'G' && u[i] != 'M' && u[i] != 'K' {
      assert u[i] == UpperChar(digits[i]);
    }
  }

  /** Appending an upper-case unit to a label appends it unchanged to the upper-cased label. */
  lemma UpperWithUnit(digits: string, unit: string)
    requires unit == "GB" || unit == "MB" || unit == "KB"
    ensures Upper(digits + unit) == Upper(digits) + unit
  {
    UpperAppend(digits, unit);
    assert Upper(unit) == [UpperChar(unit[0]), UpperChar(unit[1])];
  }

  /** "GB" is tested first, so any label ending in "GB" is read in gigabytes, whatever precedes it. */
  lemma GigabyteFactor(s: string)
    ensures UnitFactor(s + "GB") == GB
  {
    UpperWithUnit(s, "GB");
    ContainsSuffix(Upper(s), "GB");
  }

  lemma MegabyteFactor(digits: string)
    requires Unitless(digits)
    ensures UnitFactor(digits + "MB") == MB
  {
    var u := Upper(digits);
    UnitlessUpper(digits);
    UpperWithUnit(digits, "MB");
    ContainsSuffix(u, "MB");
    NotContainsWithoutFirst(u + "MB", "GB");
  }

  lemma KilobyteFactor(digits: string)
    requires Unitless(digits)
    ensures UnitFactor(digits + "KB") == KB
  {
    var u := Upper(digits);
    UnitlessUpper(digits);
    UpperWithUnit(digits, "KB");
    ContainsSuffix(u, "KB");
    NotContainsWithoutFirst(u + "KB", "GB");
    NotContainsWithoutFirst(u + "KB", "MB");
  }

  lemma BareFactor(digits: string)
    requires Unitless(digits)
    ensures UnitFactor(digits) == 1
  {
    var u := Upper(digits);
    UnitlessUpper(digits);
    NotContainsWithoutFirst(u, "GB");
    NotContainsWithoutFirst(u, "MB");
    NotContainsWithoutFirst(u, "KB");
  }

  /**
   * For a positive number, the same digits read larger with a larger unit:
   * "2GB" > "2MB" > "2KB" > "2", with the exact factors 1024^3, 1024^2, 1024 and 1.
   */
  lemma UnitsOrdered(n: real, digits: string)
    requires n > 0.0 && Unitless(digits)
    ensures ParseSizeToBytes(Some(n), digits + "GB") == n * GB as real
    ensures ParseSizeToBytes(Some(n), digits + "MB") == n * MB as real
    ensures ParseSizeToBytes(Some(n), digits + "KB") == n * KB as real
    ensures ParseSizeToBytes(Some(n), digits) == n
    ensures n * GB as real > n * MB as real > n * KB as real > n
  {
    GigabyteFactor(digits);
    MegabyteFactor(digits);
    KilobyteFactor(digits);
    BareFactor(digits);
  }
}
