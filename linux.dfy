/**
 * The Linux backend (src/linux.rs). The text of `/etc/os-release` is scanned
 * line by line: a line beginning with `NAME=` sets the name and a line
 * beginning with `VERSION_ID=` sets the version, each to the rest of the line
 * with every double quote deleted; a later line overrides an earlier one.
 *
 * Reading the file is not modelled: its outcome is the parameter `contents`,
 * `None` when the file could not be opened or read.
 */
module Linux {
  import opened Wrappers
  import opened Strings
  import opened Os

  const NameKey := "NAME="
  const VersionKey := "VERSION_ID="

  /** The two fields gathered from the release file before they become an `OsInfo`. */
  datatype OsInfoRaw = OsInfoRaw(name: Option<string>, version: Option<string>)

  /** The two keys the scan looks for, and the field each one fills. */
  datatype Key = Name | VersionId

  function KeyPrefix(key: Key): string
  {
    match key
    case Name => NameKey
    case VersionId => VersionKey
  }

  function Field(raw: OsInfoRaw, key: Key): Option<string>
  {
    match key
    case Name => raw.name
    case VersionId => raw.version
  }

  /** The value a key line carries: the rest of the line without double quotes. */
  function Value(line: string, key: Key): string
    requires KeyPrefix(key) <= line
  {
    RemoveAll(line[|KeyPrefix(key)|..], '"')
  }

  /** A line that begins with `key`. */
  predicate IsKeyLine(line: string, key: Key)
  {
    KeyPrefix(key) <= line
  }

  /**
   * One turn of the loop body: the `NAME=` test first, then `VERSION_ID=`.
   * Because no line begins with both keys, each field is replaced exactly when
   * the line begins with that field's key and is otherwise left alone.
   */
  function Step(acc: OsInfoRaw, line: string): (r: OsInfoRaw)
    ensures r.name == if IsKeyLine(line, Name) then Some(Value(line, Name)) else acc.name
    ensures r.version ==
              if IsKeyLine(line, VersionId) then Some(Value(line, VersionId)) else acc.version
  {
    assert NameKey[0] != VersionKey[0];
    match StripPrefix(line, NameKey)
    case Some(s) => acc.(name := Some(RemoveAll(s, '"')))
    case None =>
      match StripPrefix(line, VersionKey)
      case Some(s) => acc.(version := Some(RemoveAll(s, '"')))
      case None => acc
  }

  /** A line that carries neither key leaves both fields alone. */
  lemma StepOtherLine(acc: OsInfoRaw, line: string)
    requires !IsKeyLine(line, Name) && !IsKeyLine(line, VersionId)
    ensures Step(acc, line) == acc
  {
  }

  /** Neither field is known before the first line. */
  const Unknown := OsInfoRaw(None, None)

  /**
   * The result of the scan over `lines`, in order. Every value it reports is
   * free of double quotes.
   */
  function Scan(lines: seq<string>): (r: OsInfoRaw)
    ensures r.name.Some? ==> '"' !in r.name.value
    ensures r.version.Some? ==> '"' !in r.version.value
  {
    if lines == [] then Unknown
    else Step(Scan(lines[..|lines| - 1]), lines[|lines| - 1])
  }

  /** Scanning one more line is one more step. */
  lemma ScanSnoc(lines: seq<string>, line: string)
    ensures Scan(lines + [line]) == Step(Scan(lines), line)
  {
    assert (lines + [line])[..|lines|] == lines;
  }

  /**
   * The last line for a key wins: a field is absent exactly when no line
   * carries its key, and otherwise it is the value of the last line that does.
   */
  lemma {:induction false} ScanField(lines: seq<string>, key: Key)
    ensures Field(Scan(lines), key).None? <==>
            forall i :: 0 <= i < |lines| ==> !IsKeyLine(lines[i], key)
    ensures forall i :: 0 <= i < |lines| && IsKeyLine(lines[i], key) &&
                        (forall j :: i < j < |lines| ==> !IsKeyLine(lines[j], key)) ==>
                        Field(Scan(lines), key) == Some(Value(lines[i], key))
  {
    if lines != [] {
      var n := |lines|;
      var init, last := lines[..n - 1], lines[n - 1];
      assert lines == init + [last];
      ScanSnoc(init, last);
      ScanField(init, key);
      if !IsKeyLine(last, key) {
        assert Field(Scan(lines), key) == Field(Scan(init), key);
        assert forall i :: 0 <= i < n - 1 ==> init[i] == lines[i];
      }
    }
  }

  /** No line begins with the same key as another (the order between them is free). */
  predicate DistinctKeys(a: string, b: string)
  {
    forall key :: !(IsKeyLine(a, key) && IsKeyLine(b, key))
  }

  /** Moving the last element of `s` out of a concatenation. */
  lemma SplitLast<T>(u: seq<T>, s: seq<T>)
    requires s != []
    ensures u + s == (u + s[..|s| - 1]) + [s[|s| - 1]]
  {
    assert s == s[..|s| - 1] + [s[|s| - 1]];
  }

  /** Two steps for lines that carry different keys can be taken in either order. */
  lemma StepCommute(x: OsInfoRaw, a: string, b: string)
    requires DistinctKeys(a, b)
    ensures Step(Step(x, a), b) == Step(Step(x, b), a)
  {
  }

  /** Two lines that carry different keys commute, wherever they stand. */
  lemma {:induction false} ScanSwap(p: seq<string>, a: string, b: string, s: seq<string>)
    requires DistinctKeys(a, b)
    ensures Scan(p + [a, b] + s) == Scan(p + [b, a] + s)
  {
    if s == [] {
      var x := Scan(p);
      assert p + [a, b] + s == p + [a, b] && p + [b, a] + s == p + [b, a];
      SplitLast(p, [a, b]);
      SplitLast(p, [b, a]);
      ScanSnoc(p, a);
      ScanSnoc(p + [a], b);
      ScanSnoc(p, b);
      ScanSnoc(p + [b], a);
      StepCommute(x, a, b);
    } else {
      var k := |s| - 1;
      ScanSwap(p, a, b, s[..k]);
      SplitLast(p + [a, b], s);
      SplitLast(p + [b, a], s);
      ScanSnoc(p + [a, b] + s[..k], s[k]);
      ScanSnoc(p + [b, a] + s[..k], s[k]);
    }
  }

  /**
   * The loop of `raw()` over the lines of the release file, keeping the name
   * and version found so far.
   */
  method ParseLines(lines: seq<string>) returns (raw: OsInfoRaw)
    ensures raw == Scan(lines)
  {
    var name: Option<string> := None;
    var version: Option<string> := None;
    for i := 0 to |lines|
      invariant OsInfoRaw(name, version) == Scan(lines[..i])
    {
      var line := lines[i];
      assert lines[..i + 1][..i] == lines[..i];
      var s := StripPrefix(line, NameKey);
      if s.Some? {
        name := Some(RemoveAll(s.value, '"'));
      } else {
        var t := StripPrefix(line, VersionKey);
        if t.Some? {
          version := Some(RemoveAll(t.value, '"'));
        }
      }
    }
    assert lines[..|lines|] == lines;
    raw := OsInfoRaw(name, version);
  }

  /** `raw()`: nothing when the file could not be read, else the scan of its lines. */
  method Raw(contents: Option<string>) returns (raw: Option<OsInfoRaw>)
    ensures contents.None? <==> raw.None?
    ensures contents.Some? ==> raw == Some(Scan(Lines(contents.value)))
  {
    if contents.None? {
      return None;
    }
    var parsed := ParseLines(Lines(contents.value));
    raw := Some(parsed);
  }

  /**
   * `get_os_info()`: always of kind `Linux`; both fields absent when the file
   * could not be read, else the fields the scan found.
   */
  method GetOsInfo(contents: Option<string>) returns (info: OsInfo)
    ensures info.kind == OsKind.Linux
    ensures contents.None? ==> info.name.None? && info.version.None?
    ensures contents.Some? ==>
              info.name == Scan(Lines(contents.value)).name &&
              info.version == Scan(Lines(contents.value)).version
  {
    var raw := Raw(contents);
    var name, version;
    if raw.Some? {
      name, version := raw.value.name, raw.value.version;
    } else {
      name, version := None, None;
    }
    info := OsInfo(OsKind.Linux, name, version);
  }

  /** Deleting the quotes of `"v"` gives `v` when `v` holds none. */
  lemma Unquote(v: string)
    requires '"' !in v
    ensures RemoveAll(['"'] + v + ['"'], '"') == v
  {
    var q := ['"'];
    assert RemoveAll(q, '"') == [];
    RemoveAllConcat(q + v, q, '"');
    RemoveAllConcat(q, v, '"');
    RemoveAllUnchanged(v, '"');
  }

  /** The value of a quoted key line is what stands between the quotes. */
  lemma QuotedValue(line: string, key: Key, v: string)
    requires line == KeyPrefix(key) + "\"" + v + "\""
    requires '"' !in v
    ensures IsKeyLine(line, key) && Value(line, key) == v
  {
    var p := KeyPrefix(key);
    assert line == p + (['"'] + v + ['"']);
    assert line[|p|..] == ['"'] + v + ['"'];
    Unquote(v);
  }

  /** The first two lines of the example below: a quoted name and an unrelated key. */
  lemma ExampleNameLines()
    ensures Scan(["NAME=\"Foo Linux\"", "PRETTY_NAME=\"Foo\""]) == OsInfoRaw(Some("Foo Linux"), None)
  {
    var l1, l2 := "NAME=\"Foo Linux\"", "PRETTY_NAME=\"Foo\"";
    QuotedValue(l1, Name, "Foo Linux");
    assert l2[0] != NameKey[0] && l2[0] != VersionKey[0];
    assert !IsKeyLine(l2, Name) && !IsKeyLine(l2, VersionId);
    var empty: seq<string> := [];
    ScanSnoc(empty, l1);
    assert empty + [l1] == [l1];
    ScanSnoc([l1], l2);
    assert [l1] + [l2] == [l1, l2];
  }

  /**
   * A release file with both keys quoted and an unrelated `PRETTY_NAME=` line
   * in between yields the unquoted name and version.
   */
  lemma ExampleRelease()
    ensures Scan(["NAME=\"Foo Linux\"", "PRETTY_NAME=\"Foo\"", "VERSION_ID=\"9.1\""]) ==
            OsInfoRaw(Some("Foo Linux"), Some("9.1"))
  {
    var l1, l2, l3 := "NAME=\"Foo Linux\"", "PRETTY_NAME=\"Foo\"", "VERSION_ID=\"9.1\"";
    ExampleNameLines();
    QuotedValue(l3, VersionId, "9.1");
    assert l3[0] != NameKey[0];
    ScanSnoc([l1, l2], l3);
    assert [l1, l2] + [l3] == [l1, l2, l3];
  }
}
