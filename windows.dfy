/**
 * The Windows backend (src/windows.rs). The version comes from the OS version
 * facility, the name from the registry value `ProductName`. Windows 11 reports
 * major version 10 like Windows 10, so it is told apart by its build number,
 * and a stale "Windows 10" product name is patched to "Windows 11".
 *
 * Querying the OS version and the registry is not modelled: their outcomes
 * are the parameters `v` and `productName` (`None` when the registry key could
 * not be opened or the value could not be read).
 */
module Windows {
  import opened Wrappers
  import opened Strings
  import opened Os

  /** An unsigned 32-bit number, the width of the version fields. */
  type u32 = n: nat | n < 0x1_0000_0000

  /** The part of the OS version record the backend uses. */
  datatype OsVersion = OsVersion(major: u32, build: u32)

  /** The first build number of a Windows 11 release. */
  const Windows11Build: u32 := 22000

  /** The version order: by major version first, then by build number. */
  predicate AtLeast(v: OsVersion, w: OsVersion)
  {
    v.major > w.major || (v.major == w.major && v.build >= w.build)
  }

  /** The version order is transitive. */
  lemma AtLeastTransitive(u: OsVersion, v: OsVersion, w: OsVersion)
    requires AtLeast(u, v) && AtLeast(v, w)
    ensures AtLeast(u, w)
  {
  }

  /** The first Windows 11 release: major version 10, build 22000. */
  const FirstWindows11 := OsVersion(10, Windows11Build)

  /**
   * `is_windows_11`: a major version above 10, or 10 with a Windows 11 build
   * number. That is, the version is at or after the first Windows 11 release.
   */
  predicate IsWindows11(v: OsVersion): (b: bool)
    ensures b <==> AtLeast(v, FirstWindows11)
  {
    if v.major > 10 then true
    else if v.major == 10 && v.build >= Windows11Build then true
    else false
  }

  /** Every version that is not Windows 11 comes strictly before the first Windows 11 release. */
  lemma NotWindows11Before(v: OsVersion)
    ensures !IsWindows11(v) <==> AtLeast(FirstWindows11, v) && v != FirstWindows11
  {
  }

  /** A later build of the same major version stays Windows 11; so does a later major version. */
  lemma IsWindows11Monotone(v: OsVersion, w: OsVersion)
    requires IsWindows11(v)
    requires AtLeast(w, v)
    ensures IsWindows11(w)
  {
    AtLeastTransitive(w, v, FirstWindows11);
  }

  /**
   * `os_version`: "11" for Windows 11, otherwise the decimal major version.
   * The answer is "11" exactly for Windows 11, and it is always a decimal
   * numeral without a leading zero.
   */
  function OsVersionString(v: OsVersion): (r: string)
    ensures r == "11" <==> IsWindows11(v)
    ensures |r| >= 1 && forall k :: 0 <= k < |r| ==> '0' <= r[k] <= '9'
    ensures |r| > 1 ==> r[0] != '0'
    ensures !IsWindows11(v) ==> ParseDecimal(r) == v.major
  {
    if IsWindows11(v) then
      "11"
    else
      ParseNatToString(v.major);
      var s := NatToString(v.major);
      s
  }

  /**
   * Before Windows 11 the version string is `major.to_string()`: a numeral
   * without a leading zero is fixed by its value.
   */
  lemma OsVersionStringIsToString(v: OsVersion)
    requires !IsWindows11(v)
    ensures OsVersionString(v) == NatToString(v.major)
  {
    NatToStringParseDecimal(OsVersionString(v));
  }

  const Windows10Prefix := "Windows 10"

  /**
   * The product name as reported: on Windows 11 a name that begins with
   * "Windows 10" gets character 9 (the "0") replaced by "1"; any other name is
   * kept. The result has the same length and differs at most at index 9.
   */
  function PatchedName(v: OsVersion, name: string): (r: string)
    ensures |r| == |name|
    ensures forall k :: 0 <= k < |name| && k != 9 ==> r[k] == name[k]
    ensures IsWindows11(v) && Windows10Prefix <= name ==> "Windows 11" <= r
    ensures !(IsWindows11(v) && Windows10Prefix <= name) ==> r == name
  {
    if IsWindows11(v) && Windows10Prefix <= name then
      name[..9] + "1" + name[10..]
    else
      name
  }

  /** On Windows 11 the reported name never begins with "Windows 10". */
  lemma PatchedNameNotWindows10(v: OsVersion, name: string)
    requires IsWindows11(v)
    ensures !(Windows10Prefix <= PatchedName(v, name))
  {
    var r := PatchedName(v, name);
    if Windows10Prefix <= name {
      assert r[9] == '1' != Windows10Prefix[9];
    }
  }

  /** Patching a name twice is patching it once. */
  lemma PatchedNameIdempotent(v: OsVersion, name: string)
    ensures PatchedName(v, PatchedName(v, name)) == PatchedName(v, name)
  {
    if IsWindows11(v) {
      PatchedNameNotWindows10(v, name);
    }
  }

  /**
   * `os_name`: nothing when the registry read failed; otherwise the product
   * name, patched in place when the host is Windows 11.
   */
  method OsName(v: OsVersion, productName: Option<string>) returns (name: Option<string>)
    ensures productName.None? <==> name.None?
    ensures productName.Some? ==> name == Some(PatchedName(v, productName.value))
  {
    if productName.None? {
      return None;
    }
    var value := productName.value;
    if IsWindows11(v) && Windows10Prefix <= value {
      value := value[..9] + "1" + value[10..];
    }
    name := Some(value);
  }

  /**
   * `get_os_info()`: always of kind `Windows` with a version; the name is
   * the registry's product name as `OsName` reports it.
   */
  method GetOsInfo(v: OsVersion, productName: Option<string>) returns (info: OsInfo)
    ensures info.kind == OsKind.Windows
    ensures info.version == Some(OsVersionString(v))
    ensures productName.None? ==> info.name.None?
    ensures productName.Some? ==> info.name == Some(PatchedName(v, productName.value))
  {
    var name := OsName(v, productName);
    info := OsInfo(OsKind.Windows, name, Some(OsVersionString(v)));
  }

  /** A Windows 10 build keeps its version "10" and its "Windows 10" name. */
  lemma ExampleWindows10()
    ensures OsVersionString(OsVersion(10, 19045)) == "10"
    ensures PatchedName(OsVersion(10, 19045), "Windows 10 Home") == "Windows 10 Home"
  {
    assert NatToString(1) == "1";
  }

  /** A Windows 11 build reporting "Windows 10 Pro" is reported as version "11", "Windows 11 Pro". */
  lemma ExampleWindows11()
    ensures OsVersionString(OsVersion(10, 22631)) == "11"
    ensures PatchedName(OsVersion(10, 22631), "Windows 10 Pro") == "Windows 11 Pro"
  {
  }
}
