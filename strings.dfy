/**
 * The few operations of Rust's string library that the backends rely on:
 * `str::strip_prefix`, `str::replace(c, "")`, `str::lines` and the decimal
 * rendering of an unsigned integer (`u32::to_string`).
 */
module Strings {
  import opened Wrappers

  // ---------------------------------------------------------------------------
  // strip_prefix

  /** `s.strip_prefix(prefix)`: what follows `prefix` when `s` begins with it. */
  function StripPrefix(s: string, prefix: string): (r: Option<string>)
    ensures r.Some? <==> prefix <= s
    ensures r.Some? ==> prefix + r.value == s
  {
    if prefix <= s then
      assert s == s[..|prefix|] + s[|prefix|..];
      Some(s[|prefix|..])
    else
      None
  }

  // ---------------------------------------------------------------------------
  // replace(c, "")

  /** `s.replace(c, "")`: every occurrence of `c` deleted, the rest kept in order. */
  function RemoveAll(s: string, c: char): (r: string)
    ensures c !in r
    ensures |r| <= |s|
  {
    if s == [] then [] else (if s[0] == c then [] else [s[0]]) + RemoveAll(s[1..], c)
  }

  /** A string changes exactly when it holds `c`; so deleting twice is deleting once. */
  lemma {:induction false} RemoveAllUnchanged(s: string, c: char)
    ensures RemoveAll(s, c) == s <==> c !in s
  {
    if s != [] {
      RemoveAllUnchanged(s[1..], c);
      assert s == [s[0]] + s[1..];
      if s[0] == c {
        assert |RemoveAll(s, c)| < |s|;
      }
    }
  }

  /** Deleting a character distributes over concatenation, so order is kept. */
  lemma {:induction false} RemoveAllConcat(a: string, b: string, c: char)
    ensures RemoveAll(a + b, c) == RemoveAll(a, c) + RemoveAll(b, c)
  {
    if a == [] {
      assert a + b == b;
    } else {
      assert (a + b)[0] == a[0];
      assert (a + b)[1..] == a[1..] + b;
      RemoveAllConcat(a[1..], b, c);
    }
  }

  // ---------------------------------------------------------------------------
  // lines

  /** Position of the first line feed in `s`, or `|s|` when there is none. */
  function NewlineIndex(s: string): (i: nat)
    ensures i <= |s|
    ensures i < |s| ==> s[i] == '\n'
    ensures '\n' !in s[..i]
  {
    if s == [] || s[0] == '\n' then 0
    else
      var i := 1 + NewlineIndex(s[1..]);
      assert s[..i] == [s[0]] + s[1..][..i - 1];
      i
  }

  /** A line ended by "\r\n" loses its carriage return as well as its line feed. */
  function DropCarriageReturn(line: string): string
  {
    if |line| > 0 && line[|line| - 1] == '\r' then line[..|line| - 1] else line
  }

  /**
   * `data.lines()`: the text cut at every line feed. A final line without a
   * line feed is kept as it is, a final line feed does not open an empty
   * line, and the empty text has no lines.
   */
  function Lines(data: string): (ls: seq<string>)
    ensures data == [] <==> ls == []
    decreases |data|
  {
    if data == [] then []
    else
      var i := NewlineIndex(data);
      if i == |data| then [data]
      else [DropCarriageReturn(data[..i])] + Lines(data[i + 1..])
  }

  /** No line holds a line feed. */
  lemma {:induction false} LinesHaveNoLineFeed(data: string)
    ensures forall k :: 0 <= k < |Lines(data)| ==> '\n' !in Lines(data)[k]
    decreases |data|
  {
    if data != [] {
      var i := NewlineIndex(data);
      if i < |data| {
        var head := data[..i];
        assert '\n' !in DropCarriageReturn(head) by {
          if |head| > 0 && head[|head| - 1] == '\r' {
            assert DropCarriageReturn(head) == head[..|head| - 1];
            assert forall c :: c in head[..|head| - 1] ==> c in head;
          }
        }
        LinesHaveNoLineFeed(data[i + 1..]);
      }
    }
  }

  /** The inverse of `Lines`: every line followed by a line feed. */
  function Unlines(ls: seq<string>): string
  {
    if ls == [] then [] else ls[0] + "\n" + Unlines(ls[1..])
  }

  /** A line whose text `Lines` gives back unchanged. */
  predicate PlainLine(line: string)
  {
    '\n' !in line && (line == [] || line[|line| - 1] != '\r')
  }

  /** Cutting the joined lines gives the same lines back. */
  lemma {:induction false} LinesOfUnlines(ls: seq<string>)
    requires forall k :: 0 <= k < |ls| ==> PlainLine(ls[k])
    ensures Lines(Unlines(ls)) == ls
  {
    if ls != [] {
      var head, rest := ls[0], Unlines(ls[1..]);
      var data := head + "\n" + rest;
      assert data == Unlines(ls);
      assert data[|head|] == '\n';
      assert forall j :: 0 <= j < |head| ==> data[j] == head[j];
      var i := NewlineIndex(data);
      assert i == |head|;
      assert data[..i] == head;
      assert data[i + 1..] == rest;
      LinesOfUnlines(ls[1..]);
    }
  }

  /** Lines each followed by "\r\n", as a text written on Windows ends its lines. */
  function JoinCrLf(ls: seq<string>): string
  {
    if ls == [] then [] else ls[0] + "\r\n" + JoinCrLf(ls[1..])
  }

  /**
   * Cutting lines joined with "\r\n" gives the same lines back: the carriage
   * return before each line feed is dropped, and only that one, so a line that
   * itself ends with a carriage return keeps it.
   */
  lemma {:induction false} LinesOfJoinCrLf(ls: seq<string>)
    requires forall k :: 0 <= k < |ls| ==> '\n' !in ls[k]
    ensures Lines(JoinCrLf(ls)) == ls
  {
    if ls != [] {
      var head, rest := ls[0], JoinCrLf(ls[1..]);
      var line := head + "\r";
      var data := line + "\n" + rest;
      assert data == JoinCrLf(ls);
      assert data[|line|] == '\n';
      assert forall j :: 0 <= j < |line| ==> data[j] == line[j] != '\n';
      var i := NewlineIndex(data);
      assert i == |line|;
      assert data[..i] == line;
      assert data[i + 1..] == rest;
      assert DropCarriageReturn(line) == head;
      LinesOfJoinCrLf(ls[1..]);
    }
  }

  /** A carriage return is dropped before a line feed and kept at the very end. */
  lemma ExampleLines()
    ensures Lines("a\r\nb\r") == ["a", "b\r"]
  {
    var data := "a\r\nb\r";
    assert NewlineIndex(data) == 2;
    assert data[..2] == "a\r" && data[3..] == "b\r";
    assert NewlineIndex("b\r") == 2;
    assert Lines("b\r") == ["b\r"];
    assert DropCarriageReturn("a\r") == "a";
    assert Lines(data) == [DropCarriageReturn(data[..2])] + Lines(data[3..]);
  }

  /** A text in which no carriage return occurs. */
  predicate NoCarriageReturn(data: string)
  {
    forall k :: 0 <= k < |data| ==> data[k] != '\r'
  }

  /** A text is what comes before position `i`, the character there, and the rest. */
  lemma SplitAt(s: string, i: nat)
    requires i < |s|
    ensures s == s[..i] + [s[i]] + s[i + 1..]
  {
  }

  /** The first line of a text that holds a line feed, and the text after it. */
  lemma LinesSplit(data: string)
    requires data != [] && NewlineIndex(data) < |data|
    ensures data == data[..NewlineIndex(data)] + "\n" + data[NewlineIndex(data) + 1..]
    ensures Lines(data) ==
            [DropCarriageReturn(data[..NewlineIndex(data)])] + Lines(data[NewlineIndex(data) + 1..])
  {
    var i := NewlineIndex(data);
    SplitAt(data, i);
  }

  /** The parts of a text without carriage returns have none either. */
  lemma NoCarriageReturnParts(head: string, tail: string)
    requires NoCarriageReturn(head + "\n" + tail)
    ensures NoCarriageReturn(head) && NoCarriageReturn(tail)
  {
    var data := head + "\n" + tail;
    forall k | 0 <= k < |head| ensures head[k] != '\r' { assert head[k] == data[k]; }
    forall k | 0 <= k < |tail| ensures tail[k] != '\r' { assert tail[k] == data[|head| + 1 + k]; }
  }

  /** The text with a line feed added at its end unless it already has one. */
  function Terminated(data: string): string
  {
    if data == [] || data[|data| - 1] == '\n' then data else data + "\n"
  }

  /** Terminating the text after a first line terminates the whole text. */
  lemma TerminatedAfterLine(head: string, tail: string)
    ensures head + "\n" + Terminated(tail) == Terminated(head + "\n" + tail)
  {
    var data := head + "\n" + tail;
    if tail != [] {
      assert data[|data| - 1] == tail[|tail| - 1];
      assert data + "\n" == head + "\n" + (tail + "\n");
    } else {
      assert data == head + "\n";
    }
  }

  /**
   * Joining the lines of a text without carriage returns gives the text back,
   * with a line feed added at its end when it did not have one.
   */
  lemma {:induction false} UnlinesOfLines(data: string)
    requires NoCarriageReturn(data)
    ensures Unlines(Lines(data)) == Terminated(data)
    decreases |data|
  {
    if data != [] {
      var i := NewlineIndex(data);
      if i == |data| {
        assert Unlines([data]) == data + "\n" + Unlines([]);
      } else {
        var head, tail := data[..i], data[i + 1..];
        LinesSplit(data);
        NoCarriageReturnParts(head, tail);
        assert DropCarriageReturn(head) == head;
        UnlinesOfLines(tail);
        TerminatedAfterLine(head, tail);
      }
    }
  }

  // ---------------------------------------------------------------------------
  // decimal rendering of an unsigned integer

  /** The character of the decimal digit `d`. */
  function DigitChar(d: nat): (c: char)
    requires d < 10
    ensures '0' <= c <= '9'
  {
    ('0' as int + d) as char
  }

  /** `n.to_string()` for an unsigned integer: decimal, no sign, no leading zero. */
  function NatToString(n: nat): (s: string)
    ensures |s| >= 1
    ensures forall k :: 0 <= k < |s| ==> '0' <= s[k] <= '9'
    ensures |s| == 1 <==> n < 10
    ensures s[0] == '0' <==> n == 0
  {
    if n < 10 then [DigitChar(n)] else NatToString(n / 10) + [DigitChar(n % 10)]
  }

  /** The number a string of decimal digits denotes. */
  function ParseDecimal(s: string): nat
    requires forall k :: 0 <= k < |s| ==> '0' <= s[k] <= '9'
  {
    if s == [] then 0
    else 10 * ParseDecimal(s[..|s| - 1]) + (s[|s| - 1] as int - '0' as int)
  }

  /** A decimal numeral as `to_string` writes it: digits only, no leading zero. */
  predicate Canonical(s: string)
  {
    |s| >= 1 && (forall k :: 0 <= k < |s| ==> '0' <= s[k] <= '9') && (|s| > 1 ==> s[0] != '0')
  }

  /** Digits that do not begin with '0' denote a positive number. */
  lemma {:induction false} ParseDecimalPositive(s: string)
    requires |s| >= 1 && s[0] != '0'
    requires forall k :: 0 <= k < |s| ==> '0' <= s[k] <= '9'
    ensures ParseDecimal(s) > 0
  {
    if |s| > 1 {
      var t := s[..|s| - 1];
      assert t[0] == s[0];
      ParseDecimalPositive(t);
    }
  }

  /**
   * Every canonical numeral is the rendering of the number it denotes, so two
   * canonical numerals with the same value are the same string.
   */
  lemma {:induction false} NatToStringParseDecimal(s: string)
    requires Canonical(s)
    ensures NatToString(ParseDecimal(s)) == s
  {
    var n := ParseDecimal(s);
    var t, c := s[..|s| - 1], s[|s| - 1];
    var d := c as int - '0' as int;
    if |s| == 1 {
      assert t == [];
      assert n == 10 * ParseDecimal(t) + d;
      assert DigitChar(d) == c;
      assert s == [c];
    } else {
      assert t[0] == s[0];
      ParseDecimalPositive(t);
      NatToStringParseDecimal(t);
      assert n / 10 == ParseDecimal(t) && n % 10 == d;
      assert DigitChar(d) == c;
      assert s == t + [c];
    }
  }

  /** Reading back the rendering of `n` gives `n`: the rendering loses nothing. */
  lemma {:induction false} ParseNatToString(n: nat)
    ensures ParseDecimal(NatToString(n)) == n
  {
    if n >= 10 {
      var s := NatToString(n);
      assert s[..|s| - 1] == NatToString(n / 10);
      ParseNatToString(n / 10);
    }
  }
}
