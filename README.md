# os_name in Dafny

A model of the `os_name` library, which reports the host operating system
as an `OsInfo` record: a kind (`Linux`, `Macos` or `Windows`), an optional
name and an optional version. The model covers the two backends whose logic
is deterministic once their data has been read.

- `Os` (os.dfy): the result shape `OsKind` / `OsInfo` of src/lib.rs.
- `Wrappers` (wrappers.dfy): `Option`, standing for Rust's `Option`.
- `Strings` (strings.dfy): the Rust string operations the backends rely on.
  These are `strip_prefix`, `replace(c, "")`, `lines()` and `u32::to_string`.
  Each comes with a partner lemma: a round trip or a concatenation law.
- `Linux` (linux.dfy): the scan of `/etc/os-release`.
  - `Scan` is the reference definition of the scan.
  - `ParseLines` is the source's `for` loop, proved equal to `Scan`.
  - `Raw` and `GetOsInfo` add the fallback for an unreadable file.
  - Lemmas state that the last line for a key wins, that a missing key gives
    `None`, and that lines with different keys commute.
  - Reading the file is the parameter `contents: Option<string>`, where
    `None` means the open or the read failed.
- `Windows` (windows.dfy): the Windows 11 rule (`IsWindows11`), the version
  string, and the in-place patch of a stale "Windows 10" product name.
  - `OsName` is the method that patches the name in place.
  - `PatchedName` is the function that specifies it.
  - The OS version query is the parameter `v: OsVersion`.
  - The registry read is the parameter `productName: Option<string>`, where
    `None` means the key could not be opened or the value could not be read.

Where descriptions of the library and its code disagree, the model follows
the code:
- The macOS backend reports no name at all (src/macos.rs:10). It has no
  version-to-marketing-name table.
- The Linux scan depends on line order: the last `NAME=` line and the last
  `VERSION_ID=` line win.

## Model

The table lists the functions, methods and lemmas that carry a contract.
The datatypes carry none and are listed here instead:
- `Os.OsKind` and `Os.OsInfo` are the result record of src/lib.rs:20-32.
- `Linux.OsInfoRaw` is the name/version pair of src/linux.rs:19-22.
- `Windows.OsVersion` is the part of the OS version record that
  src/windows.rs:16-48 reads.

| member | source | states |
|---|---|---|
| `Strings.StripPrefix` | src/linux.rs:36-38 | the result is present exactly when the line begins with the prefix, and prefix + result is the line |
| `Strings.RemoveAll` | src/linux.rs:37-39 | the result holds no `"` and is no longer than the input |
| `Strings.RemoveAllConcat` | src/linux.rs:37 | deleting quotes distributes over concatenation, so the remaining characters keep their order |
| `Strings.RemoveAllUnchanged` | src/linux.rs:37 | removing quotes leaves a value unchanged exactly when it holds none, so removing them twice is the same as removing them once |
| `Strings.Lines` | src/linux.rs:35 | the empty text is the only text with no lines |
| `Strings.LinesHaveNoLineFeed` | src/linux.rs:35 | no line contains a line feed |
| `Strings.LinesOfUnlines` | src/linux.rs:35 | cutting lines that were joined with line feeds gives the same lines back, for lines without a line feed or a trailing carriage return |
| `Strings.LinesOfJoinCrLf` | src/linux.rs:35 | cutting lines joined with "\r\n" gives the same lines back, because exactly one carriage return before each line feed is dropped; a line that itself ends with a carriage return keeps it |
| `Strings.ExampleLines` | src/linux.rs:35 | `"a\r\nb\r"` gives the lines `"a"` and `"b\r"`: a carriage return is dropped before a line feed but kept at the very end |
| `Strings.UnlinesOfLines` | src/linux.rs:35 | joining the lines of a text with no carriage return gives the text back, plus a final line feed if it had none |
| `Strings.NatToString` | src/windows.rs:20 | the rendering is non-empty and all decimal digits; it has one digit exactly below 10 and begins with '0' exactly for 0 |
| `Strings.ParseNatToString` | src/windows.rs:20 | reading the decimal rendering of n back gives n |
| `Strings.ParseDecimalPositive` | src/windows.rs:20 | digits that do not begin with '0' denote a positive number |
| `Strings.NatToStringParseDecimal` | src/windows.rs:20 | every numeral without a leading zero is the rendering of its value, so the rendering of a number is the only such numeral for it |
| `Linux.Step` | src/linux.rs:36-40 | a `NAME=` line replaces only the name and a `VERSION_ID=` line replaces only the version, each with the unquoted rest of the line; otherwise each field keeps its old value |
| `Linux.StepOtherLine` | src/linux.rs:35-41 | a line carrying neither key, such as `PRETTY_NAME=...`, leaves both fields unchanged |
| `Linux.Scan` | src/linux.rs:33-41 | a name or version the scan reports never contains `"` |
| `Linux.ScanField` | src/linux.rs:33-43 | a field is `None` exactly when no line begins with its key; otherwise it is the unquoted value of the last line that does |
| `Linux.ScanSnoc` | src/linux.rs:35-41 | scanning one more line is one more turn of the loop body on the earlier result |
| `Linux.StepCommute` | src/linux.rs:36-40 | two lines that do not share a key give the same result in either order |
| `Linux.ScanSwap` | src/linux.rs:35-41 | swapping two adjacent lines that do not share a key leaves the result unchanged |
| `Linux.Unquote` | src/linux.rs:37 | removing the quotes of `"v"` gives `v` when `v` has no quotes |
| `Linux.QuotedValue` | src/linux.rs:36-39 | the value of `KEY="v"` is `v` when `v` has no quotes |
| `Linux.ExampleRelease` | src/linux.rs:33-43 | `NAME="Foo Linux"`, an unrelated line and `VERSION_ID="9.1"` give name `Foo Linux` and version `9.1` |
| `Linux.ParseLines` | src/linux.rs:33-43 | the loop over the lines computes exactly the reference scan `Scan` |
| `Linux.Raw` | src/linux.rs:24-44 | the result is absent exactly when the file could not be read; otherwise it is the scan of the file's lines |
| `Linux.GetOsInfo` | src/linux.rs:5-17 | kind is always `Linux`; both fields are `None` when the file could not be read, else they are the scan's fields |
| `Windows.AtLeastTransitive` | src/windows.rs:41-43 | the version order (by major version, then by build) is transitive |
| `Windows.IsWindows11` | src/windows.rs:37-48 | holds exactly when the version is at or after the first Windows 11 release (major 10, build 22000) in the version order |
| `Windows.NotWindows11Before` | src/windows.rs:37-48 | a version is not Windows 11 exactly when it comes strictly before major 10, build 22000 |
| `Windows.IsWindows11Monotone` | src/windows.rs:41-47 | a version at or after a Windows 11 version is Windows 11 too |
| `Windows.OsVersionString` | src/windows.rs:16-22 | the version is "11" exactly on Windows 11; it is always a decimal numeral without a leading zero, and otherwise its value is the major version |
| `Windows.OsVersionStringIsToString` | src/windows.rs:20 | before Windows 11 the version string is the canonical decimal rendering of the major version |
| `Windows.PatchedName` | src/windows.rs:30-34 | the name keeps its length and every character except index 9; on Windows 11 a "Windows 10" name becomes "Windows 11..."; otherwise it is unchanged |
| `Windows.PatchedNameNotWindows10` | src/windows.rs:30-31 | on Windows 11 the reported name never begins with "Windows 10" |
| `Windows.PatchedNameIdempotent` | src/windows.rs:30-31 | patching an already patched name changes nothing |
| `Windows.OsName` | src/windows.rs:24-35 | no name when the registry read fails; otherwise the product name patched in place as `PatchedName` specifies |
| `Windows.GetOsInfo` | src/windows.rs:6-14 | kind is always `Windows` and a version is always present; the name is `None` exactly when the registry read fails, else the patched product name |
| `Windows.ExampleWindows10` | src/windows.rs:16-35 | major 10, build 19045 gives version "10" and leaves "Windows 10 Home" unchanged |
| `Windows.ExampleWindows11` | src/windows.rs:16-35 | major 10, build 22631 gives version "11" and turns "Windows 10 Pro" into "Windows 11 Pro" |

## Left out

- The macOS backend (src/macos.rs) is not part of this model. It is a foreign
  `sysctlbyname` call with unsafe buffers, and it reports no name.
- Reading `/etc/os-release` (src/linux.rs:25-31), the OS version query
  (src/windows.rs:7) and the registry reads (src/windows.rs:25-28) are I/O.
  Their outcomes are parameters.
- Selecting a backend per build target and the serde derives in src/lib.rs
  are build glue. src/lib.rs does not re-export the Linux `get_os_info`; the
  model keeps it as `Linux.GetOsInfo`.
- The unit tests check fields of the live host, which cannot be stated
  without a host.
- `Windows.OsVersion` keeps only the major and build numbers. The minor
  and service-pack numbers of the version record are never read by the
  backend. The record's type comes from the `windows_version` crate, which
  is not part of this model.
- Strings are sequences of characters, not UTF-8 bytes. The byte range
  `9..10` of `replace_range` equals character index 9 because "Windows 10"
  is ASCII.
