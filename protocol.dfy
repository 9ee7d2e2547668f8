/** The serial wire protocol: decoding a raw line, removing its terminator,
    and classifying the text as a sensor reading, an error report or a
    malformed line.  Everything here is a pure function of its input. */
module Protocol {
  import opened Values

  /** A byte as delivered by the serial device. */
  type Byte = b: int | 0 <= b < 256

  // ---------------------------------------------------------------------
  // The ASCII codec (the handler's default encoding)

  predicate IsAscii(raw: seq<Byte>) {
    forall i :: 0 <= i < |raw| ==> raw[i] < 128
  }

  predicate IsAsciiText(s: string) {
    forall i :: 0 <= i < |s| ==> s[i] as int < 128
  }

  /** Decoding under ASCII fails exactly when some byte has its high bit set;
      otherwise each byte becomes the character with the same code. */
  function AsciiDecode(raw: seq<Byte>): (r: Option<string>)
    ensures r.Some? <==> IsAscii(raw)
    ensures r.Some? ==> |r.value| == |raw| && IsAsciiText(r.value)
    ensures r.Some? ==> forall i :: 0 <= i < |raw| ==> r.value[i] as int == raw[i]
  {
    if IsAscii(raw) then Some(seq(|raw|, i requires 0 <= i < |raw| => raw[i] as char)) else None
  }

  /** The inverse of AsciiDecode, used to state what a line of text looks
      like on the wire. */
  function AsciiEncode(s: string): (raw: seq<Byte>)
    requires IsAsciiText(s)
    ensures |raw| == |s| && IsAscii(raw)
    ensures forall i :: 0 <= i < |s| ==> raw[i] == s[i] as int
  {
    seq(|s|, i requires 0 <= i < |s| => s[i] as int)
  }

  lemma DecodeEncode(s: string)
    requires IsAsciiText(s)
    ensures AsciiDecode(AsciiEncode(s)) == Some(s)
  {
    var d := AsciiDecode(AsciiEncode(s));
    assert d.Some?;
    assert d.value == s by {
      forall i | 0 <= i < |s| ensures d.value[i] == s[i] {
        assert d.value[i] as int == s[i] as int;
      }
    }
  }

  lemma EncodeDecode(raw: seq<Byte>)
    requires IsAscii(raw)
    ensures AsciiDecode(raw).Some? && AsciiEncode(AsciiDecode(raw).value) == raw
  {
  }

  // ---------------------------------------------------------------------
  // Line terminators

  predicate StartsWith(s: string, prefix: string) {
    |prefix| <= |s| && s[..|prefix|] == prefix
  }

  predicate EndsWith(s: string, suffix: string) {
    |suffix| <= |s| && s[|s| - |suffix|..] == suffix
  }

  /** Removes one trailing "\r\n", or failing that one trailing "\n".
      The result is a prefix of the input and what was cut is a terminator. */
  function StripTerminator(s: string): (r: string)
    ensures r <= s
    ensures s[|r|..] in {"", "\n", "\r\n"}
    ensures s[|r|..] == "" ==> !EndsWith(s, "\n")
    ensures EndsWith(s, "\r\n") ==> s[|r|..] == "\r\n"
  {
    if EndsWith(s, "\r\n") then s[..|s| - 2]
    else if EndsWith(s, "\n") then s[..|s| - 1]
    else assert s[|s|..] == ""; s
  }

  /** Both terminators give the same line, and a line that has none is left
      alone, so a line is read back exactly as the sender wrote it. */
  lemma TerminatorAgnostic(body: string)
    requires body == [] || body[|body| - 1] != '\r'
    ensures StripTerminator(body + "\r\n") == body
    ensures StripTerminator(body + "\n") == body
    ensures !EndsWith(body, "\n") ==> StripTerminator(body) == body
  {
    var crlf := body + "\r\n";
    assert crlf[|crlf| - 2..] == "\r\n";
    assert crlf[..|crlf| - 2] == body;
    var lf := body + "\n";
    assert lf[|lf| - 1..] == "\n";
    assert lf[..|lf| - 1] == body;
    if |body| > 0 {
      assert lf[|lf| - 2] == body[|body| - 1];
    }
    assert !EndsWith(lf, "\r\n");
  }

  // ---------------------------------------------------------------------
  // Splitting on a separator, with a bound on the number of splits

  /** The first position of `c` in `s`, if any. */
  function IndexOf(s: string, c: char): Option<nat>
  {
    if s == [] then None
    else if s[0] == c then Some(0)
    else match IndexOf(s[1..], c)
      case None => None
      case Some(i) => Some(i + 1)
  }

  /** IndexOf finds `c` exactly when `s` holds it, and then finds its
      first occurrence. */
  lemma {:induction false} IndexOfFirst(s: string, c: char)
    ensures IndexOf(s, c).None? <==> c !in s
    ensures IndexOf(s, c).Some? ==>
      var k := IndexOf(s, c).value; k < |s| && s[k] == c && c !in s[..k]
  {
    if s != [] && s[0] != c {
      IndexOfFirst(s[1..], c);
      assert s == [s[0]] + s[1..];
      if IndexOf(s[1..], c).Some? {
        var i := IndexOf(s[1..], c).value;
        assert s[..i + 1] == [s[0]] + s[1..][..i];
      }
    }
  }

  /** The parts glued back together with the separator between them. */
  function Join(parts: seq<string>, sep: char): string
  {
    if |parts| == 0 then ""
    else if |parts| == 1 then parts[0]
    else parts[0] + [sep] + Join(parts[1..], sep)
  }

  /** The shape of a split: between one and `maxsplit + 1` parts, only the
      last of which may hold the separator, and only when all `maxsplit`
      splits were made. */
  predicate Separated(parts: seq<string>, sep: char, maxsplit: nat) {
    && 1 <= |parts| <= maxsplit + 1
    && (forall i :: 0 <= i < |parts| - 1 ==> sep !in parts[i])
    && (|parts| <= maxsplit ==> sep !in parts[|parts| - 1])
  }

  lemma SeparatedCons(head: string, rest: seq<string>, sep: char, maxsplit: nat)
    requires maxsplit > 0 && sep !in head && Separated(rest, sep, maxsplit - 1)
    ensures Separated([head] + rest, sep, maxsplit)
  {
    var parts := [head] + rest;
    forall i | 0 <= i < |parts| - 1 ensures sep !in parts[i] {
      if i > 0 {
        assert parts[i] == rest[i - 1];
      }
    }
  }

  lemma SeparatedTail(parts: seq<string>, sep: char, maxsplit: nat)
    requires |parts| >= 2 && Separated(parts, sep, maxsplit)
    ensures maxsplit > 0 && sep !in parts[0] && Separated(parts[1..], sep, maxsplit - 1)
  {
    var tail := parts[1..];
    forall i | 0 <= i < |tail| - 1 ensures sep !in tail[i] {
      assert tail[i] == parts[i + 1];
    }
  }

  /** Splits `s` at the first `maxsplit` occurrences of `sep`, from the left,
      as Python's `str.split(sep, maxsplit)` does.  The parts have the shape
      of a split; JoinOfSplit shows that they glue back to `s`. */
  function Split(s: string, sep: char, maxsplit: nat): (parts: seq<string>)
    ensures Separated(parts, sep, maxsplit)
    decreases maxsplit
  {
    if maxsplit == 0 then [s]
    else
      IndexOfFirst(s, sep);
      match IndexOf(s, sep)
      case None => [s]
      case Some(i) =>
        var rest := Split(s[i + 1..], sep, maxsplit - 1);
        SeparatedCons(s[..i], rest, sep, maxsplit);
        [s[..i]] + rest
  }

  /** Splitting loses nothing: joining the parts with the separator gives
      the original string back. */
  lemma {:induction false} JoinOfSplit(s: string, sep: char, maxsplit: nat)
    ensures Join(Split(s, sep, maxsplit), sep) == s
    decreases maxsplit
  {
    if maxsplit > 0 {
      IndexOfFirst(s, sep);
      match IndexOf(s, sep)
      case None =>
        SplitWithoutSeparator(s, sep, maxsplit);
      case Some(i) =>
        var head, tail := s[..i], s[i + 1..];
        var rest := Split(tail, sep, maxsplit - 1);
        calc {
          Join(Split(s, sep, maxsplit), sep);
          == { SplitStep(s, sep, maxsplit, i); }
          Join([head] + rest, sep);
          == { JoinCons([head] + rest, sep); assert ([head] + rest)[1..] == rest; }
          head + [sep] + Join(rest, sep);
          == { JoinOfSplit(tail, sep, maxsplit - 1); }
          head + [sep] + tail;
          == { assert s[i] == sep; }
          s;
        }
    }
  }

  /** Joining at least two parts puts the separator after the first. */
  lemma JoinCons(parts: seq<string>, sep: char)
    requires |parts| >= 2
    ensures Join(parts, sep) == parts[0] + [sep] + Join(parts[1..], sep)
  {
  }

  lemma JoinThree(a: string, b: string, c: string, sep: char)
    ensures Join([a, b, c], sep) == a + [sep] + b + [sep] + c
  {
    var parts := [a, b, c];
    JoinCons(parts, sep);
    assert parts[1..] == [b, c];
    JoinCons([b, c], sep);
    assert [b, c][1..] == [c];
  }

  /** In `head + [sep] + rest` with no separator in `head`, the first
      separator is the one right after `head`. */
  lemma IndexOfAfterHead(head: string, rest: string, sep: char)
    requires sep !in head
    ensures IndexOf(head + [sep] + rest, sep) == Some(|head|)
  {
    var s := head + [sep] + rest;
    IndexOfFirst(s, sep);
    assert s[|head|] == sep;
    assert s[..|head|] == head;
  }

  /** One step of Split when a separator is found and splits remain. */
  lemma SplitStep(s: string, sep: char, maxsplit: nat, i: nat)
    requires maxsplit > 0 && IndexOf(s, sep) == Some(i) && i < |s|
    ensures Split(s, sep, maxsplit) == [s[..i]] + Split(s[i + 1..], sep, maxsplit - 1)
  {
  }

  /** The parts Split produces are the only ones it can produce: splitting
      the join of parts that respect Split's shape gives those parts back. */
  lemma {:induction false} SplitOfJoin(parts: seq<string>, sep: char, maxsplit: nat)
    requires Separated(parts, sep, maxsplit)
    ensures Split(Join(parts, sep), sep, maxsplit) == parts
    decreases |parts|
  {
    if |parts| == 1 {
      SplitWithoutSeparator(parts[0], sep, maxsplit);
    } else {
      var head, tail := parts[0], parts[1..];
      assert parts == [head] + tail;
      SeparatedTail(parts, sep, maxsplit);
      assert Split(Join(tail, sep), sep, maxsplit - 1) == tail by {
        SplitOfJoin(tail, sep, maxsplit - 1);
      }
      SplitJoinCons(parts, sep, maxsplit);
    }
  }

  /** A string without the separator is not split, whatever the bound. */
  lemma SplitWithoutSeparator(s: string, sep: char, maxsplit: nat)
    requires maxsplit > 0 ==> sep !in s
    ensures Split(s, sep, maxsplit) == [s]
  {
    IndexOfFirst(s, sep);
  }

  /** Split of a join of two or more parts peels off the first part. */
  lemma SplitJoinCons(parts: seq<string>, sep: char, maxsplit: nat)
    requires |parts| >= 2 && maxsplit > 0 && sep !in parts[0]
    ensures Split(Join(parts, sep), sep, maxsplit)
         == [parts[0]] + Split(Join(parts[1..], sep), sep, maxsplit - 1)
  {
    var head, rest := parts[0], Join(parts[1..], sep);
    JoinCons(parts, sep);
    IndexOfAfterHead(head, rest, sep);
    var s := head + [sep] + rest;
    assert s[..|head|] == head;
    assert s[|head| + 1..] == rest;
    SplitStep(s, sep, maxsplit, |head|);
  }

  // ---------------------------------------------------------------------
  // Classification

  /** A decoded, terminator-free line, classified. */
  datatype Line =
    | SensorReading(sensor: string, value: string)
    | ErrorReport(message: string)
    | Malformed

  /** A line starting with "error" is an error report carrying the whole line.
      Any other line is split on its first two spaces; three fields whose
      first is "sensor" make a reading, anything else is malformed. */
  function Classify(line: string): (r: Line)
    ensures r.ErrorReport? <==> StartsWith(line, "error")
    ensures r.ErrorReport? ==> r.message == line
    ensures r.SensorReading? ==> ' ' !in r.sensor && line == "sensor " + r.sensor + " " + r.value
  {
    if StartsWith(line, "error") then ErrorReport(line)
    else
      var fields := Split(line, ' ', 2);
      if |fields| == 3 && fields[0] == "sensor" then
        JoinOfSplit(line, ' ', 2);
        JoinThree(fields[0], fields[1], fields[2], ' ');
        assert fields == [fields[0], fields[1], fields[2]];
        SensorReading(fields[1], fields[2])
      else Malformed
  }

  /** Every line of the shape "sensor <id> <value>", whose id has no space,
      is a reading of that id; the value keeps any further spaces. Together
      with Classify's contract this makes the shape an exact characterisation. */
  lemma SensorLineClassified(sensor: string, value: string)
    requires ' ' !in sensor
    ensures Classify("sensor " + sensor + " " + value) == SensorReading(sensor, value)
  {
    var line := "sensor " + sensor + " " + value;
    assert line[0] == 's';
    assert !StartsWith(line, "error");
    var fields := ["sensor", sensor, value];
    JoinThree("sensor", sensor, value, ' ');
    assert Join(fields, ' ') == line;
    assert ' ' !in "sensor";
    assert Separated(fields, ' ', 2);
    SplitOfJoin(fields, ' ', 2);
  }

  /** A line with no space at all that is not an error report is malformed. */
  lemma SpacelessLineMalformed(line: string)
    requires ' ' !in line
    requires !StartsWith(line, "error")
    ensures Classify(line) == Malformed
  {
  }
}
