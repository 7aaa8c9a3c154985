// The agent-side tailer of the command outbox: the saved cursor (written
// as a decimal integer, read back with Python's int()), one polling cycle
// over the outbox file (seek, read, split into lines, print each command),
// and the state the script keeps between cycles. The file is text, the
// cursor a byte offset; the JSON decoder is a parameter.

module PiInbox {
  import opened Common
  import opened BotsOutput

  // ---------------------------------------------------------------------
  // The saved offset.

  /** Digits in groups: digits, with single underscores only between two digits. */
  predicate Grouped(d: string)
  {
    d != [] && IsDigit(d[0]) && IsDigit(d[|d| - 1]) &&
    (forall i | 0 <= i < |d| :: IsDigit(d[i]) || d[i] == '_') &&
    SingleUnderscores(d)
  }

  /** No two underscores in a row. */
  predicate SingleUnderscores(d: string)
    decreases |d|
  {
    |d| < 2 || (!(d[0] == '_' && d[1] == '_') && SingleUnderscores(d[1..]))
  }

  lemma {:induction false} DigitsSingleUnderscores(d: string)
    requires forall i | 0 <= i < |d| :: IsDigit(d[i])
    ensures SingleUnderscores(d)
    decreases |d|
  {
    if |d| >= 2 {
      DigitsSingleUnderscores(d[1..]);
    }
  }

  /** The digits of a group run, underscores dropped. */
  function Ungrouped(d: string): (r: string)
    requires forall i | 0 <= i < |d| :: IsDigit(d[i]) || d[i] == '_'
    ensures forall i | 0 <= i < |r| :: IsDigit(r[i])
    ensures |r| <= |d|
    ensures (forall i | 0 <= i < |d| :: IsDigit(d[i])) ==> r == d
  {
    if d == [] then []
    else if d[0] == '_' then Ungrouped(d[1..])
    else [d[0]] + Ungrouped(d[1..])
  }

  /**
   * Python's `int(s)` in base 10 on a stripped string: an optional sign,
   * then grouped ASCII digits; anything else raises `ValueError` (None).
   */
  function ParsePyInt(s: string): (r: Option<int>)
    ensures r.Some? ==> s != [] && IsDigit(s[|s| - 1])
  {
    var neg := s != [] && s[0] == '-';
    var digits := if s != [] && (s[0] == '-' || s[0] == '+') then s[1..] else s;
    if !Grouped(digits) then None
    else
      assert digits[|digits| - 1] == s[|s| - 1];
      var v: int := DigitsValue(Ungrouped(digits));
      Some(if neg then -v else v)
  }

  /** `str(n)` for an integer. */
  function PyStr(n: int): (r: string)
    ensures r != [] && IsDigit(r[|r| - 1])
    ensures n >= 0 ==> r == DecimalString(n)
  {
    if n < 0 then "-" + DecimalString(-n) else DecimalString(n)
  }

  /** What the script finds at the state path. */
  datatype StateFile = NoState | Unreadable | Holds(text: string)

  /**
   * `load_offset`: the stripped contents read as an integer, "" read as 0;
   * a missing or unreadable file, or contents that are not an integer,
   * give 0. It never fails.
   */
  function LoadOffset(st: StateFile): (r: int)
    ensures r != 0 ==> st.Holds? && ParsePyInt(PyStrip(st.text)) == Some(r)
    ensures !st.Holds? ==> r == 0
  {
    match st
    case NoState => 0
    case Unreadable => 0
    case Holds(text) =>
      var s := PyStrip(text);
      if s == [] then 0
      else match ParsePyInt(s)
        case None => 0
        case Some(n) => n
  }

  lemma PyStrStripped(n: int)
    ensures PyStrip(PyStr(n)) == PyStr(n)
  {
    var s := PyStr(n);
    assert !PyIsSpace(s[0]);
    assert PyStripStart(s) == s;
    assert !PyIsSpace(s[|s| - 1]);
  }

  /** `int(str(n)) == n`. */
  lemma PyStrParses(n: int)
    ensures ParsePyInt(PyStr(n)) == Some(n)
  {
    var m: nat := if n < 0 then -n else n;
    var d := DecimalString(m);
    DecimalStringValue(m);
    DigitsGrouped(d);
    if n < 0 {
      ParseNegative(d);
    } else {
      ParseUnsigned(d);
    }
  }

  lemma ParseUnsigned(d: string)
    requires Grouped(d) && IsDigit(d[0])
    ensures var v: int := DigitsValue(Ungrouped(d)); ParsePyInt(d) == Some(v)
  {
  }

  lemma ParseNegative(d: string)
    requires Grouped(d)
    ensures var v: int := DigitsValue(Ungrouped(d)); ParsePyInt("-" + d) == Some(-v)
  {
    var s := "-" + d;
    assert s[0] == '-' && s[1..] == d;
  }

  lemma DigitsGrouped(d: string)
    requires d != [] && forall i | 0 <= i < |d| :: IsDigit(d[i])
    ensures Grouped(d) && Ungrouped(d) == d
  {
    DigitsSingleUnderscores(d);
  }

  /** An offset the script saved is the offset it loads after a restart. */
  lemma SavedOffsetReloads(n: int)
    ensures LoadOffset(Holds(PyStr(n))) == n
  {
    PyStrStripped(n);
    PyStrParses(n);
  }

  /** Contents that are not an integer are read as offset 0. */
  lemma GarbageReadsZero(text: string)
    requires ParsePyInt(PyStrip(text)).None?
    ensures LoadOffset(Holds(text)) == 0
  {
  }

  // ---------------------------------------------------------------------
  // Lines.

  /** The line boundaries of Python's `str.splitlines`. */
  predicate IsLineBreak(c: char)
  {
    c == '\n' || c == '\r' || c == '\U{0B}' || c == '\U{0C}' || ('\U{1C}' <= c <= '\U{1E}')
    || c == '\U{85}' || c == '\U{2028}' || c == '\U{2029}'
  }

  function FindBreak(s: string): (r: Option<nat>)
    ensures r.None? ==> forall j | 0 <= j < |s| :: !IsLineBreak(s[j])
    ensures r.Some? ==> r.value < |s| && IsLineBreak(s[r.value])
    ensures r.Some? ==> forall j | 0 <= j < r.value :: !IsLineBreak(s[j])
  {
    if s == [] then None
    else if IsLineBreak(s[0]) then Some(0)
    else match FindBreak(s[1..])
      case None => None
      case Some(i) => Some(i + 1)
  }

  /** A line without boundary characters. */
  predicate IsLine(l: string)
  {
    forall j | 0 <= j < |l| :: !IsLineBreak(l[j])
  }

  /**
   * `str.splitlines()`: the text cut at every boundary, "\r\n" counting as
   * one, with no empty line after a final boundary. Reading the file in
   * text mode first turns "\r\n" and "\r" into "\n", which gives the same
   * lines.
   */
  function SplitLines(s: string): (r: seq<string>)
    ensures forall i | 0 <= i < |r| :: IsLine(r[i])
    ensures r == [] <==> s == []
    ensures IsLine(s) && s != [] ==> r == [s]
    decreases |s|
  {
    if s == [] then []
    else match FindBreak(s)
      case None => [s]
      case Some(i) =>
        var w := if s[i] == '\r' && i + 1 < |s| && s[i + 1] == '\n' then 2 else 1;
        [s[..i]] + SplitLines(s[i + w..])
  }

  /** Lines written one after another, each ended by "\n". */
  function Terminated(ls: seq<string>): (r: string)
    ensures |r| >= |ls|
  {
    if ls == [] then [] else ls[0] + "\n" + Terminated(ls[1..])
  }

  /** Splitting lines written with "\n" after each gives them back. */
  lemma {:induction false} SplitTerminated(ls: seq<string>)
    requires forall i | 0 <= i < |ls| :: IsLine(ls[i])
    ensures SplitLines(Terminated(ls)) == ls
  {
    if ls != [] {
      var s := Terminated(ls);
      var l := ls[0];
      assert s == l + "\n" + Terminated(ls[1..]);
      FindBreakAfter(l, '\n', Terminated(ls[1..]));
      assert s[|l| + 1..] == Terminated(ls[1..]);
      assert s[..|l|] == l;
      SplitTerminated(ls[1..]);
    }
  }

  lemma FindBreakAfter(l: string, c: char, rest: string)
    requires IsLine(l) && IsLineBreak(c)
    ensures FindBreak(l + [c] + rest) == Some(|l|)
  {
    var s := l + [c] + rest;
    var r := FindBreak(s);
    assert s[|l|] == c;
    assert forall j | 0 <= j < |l| :: s[j] == l[j];
  }

  // ---------------------------------------------------------------------
  // Printing the commands.

  /**
   * What `json.loads` makes of a line: an error, a value that is not an
   * object, or an object whose fields are given as Python's `str()` of
   * their values (so a JSON null shows as "None").
   */
  datatype Json = Malformed | NotObject | Object(fields: map<string, string>)

  /** `entry.get(key)` shown with `str()`: a missing key shows as "None". */
  function Field(fields: map<string, string>, key: string): (r: string)
    ensures key in fields ==> r == fields[key]
    ensures key !in fields ==> r == "None"
  {
    if key in fields then fields[key] else "None"
  }

  /** The line printed for a command. */
  function Render(fields: map<string, string>): (r: string)
    ensures StartsWith(r, "[pi:" + Field(fields, "target") + "] ")
    ensures EndsWith(r, ", ts=" + Field(fields, "ts") + ")")
  {
    var head := "[pi:" + Field(fields, "target") + "] ";
    var tail := ", ts=" + Field(fields, "ts") + ")";
    var r := head + Field(fields, "text") + " (did=" + Field(fields, "did") + tail;
    assert r[..|head|] == head;
    assert r[|r| - |tail|..] == tail;
    r
  }

  /** `not line.strip()`. */
  predicate Blank(line: string)
  {
    forall j | 0 <= j < |line| :: PyIsSpace(line[j])
  }

  /** The printed lines, or the lines printed before a line stopped the script. */
  datatype Printout = Printout(lines: seq<string>, crash: Option<string>)

  const ATTRIBUTE_ERROR: string := "AttributeError: object has no attribute 'get'"
  const NEGATIVE_SEEK: string := "ValueError: negative seek position"
  const DECODE_ERROR: string := "UnicodeDecodeError: 'utf-8' codec can't decode"

  /**
   * The loop over the lines as written: blank lines and lines that are not
   * JSON are skipped, but a JSON value that is not an object reaches
   * `entry.get` and raises, ending the script after what was printed so far.
   */
  function PrintAsWritten(lines: seq<string>, parse: string -> Json): (r: Printout)
    ensures |r.lines| <= |lines|
  {
    if lines == [] then Printout([], None)
    else
      var l := lines[0];
      if Blank(l) then PrintAsWritten(lines[1..], parse)
      else match parse(l)
        case Malformed => PrintAsWritten(lines[1..], parse)
        case NotObject => Printout([], Some(ATTRIBUTE_ERROR))
        case Object(f) =>
          var rest := PrintAsWritten(lines[1..], parse);
          Printout([Render(f)] + rest.lines, rest.crash)
  }

  /** What one line prints once non-object values are skipped like malformed ones. */
  function PrintOne(line: string, parse: string -> Json): (r: seq<string>)
    ensures |r| <= 1
    ensures Blank(line) ==> r == []
    ensures r != [] ==> parse(line).Object? && r == [Render(parse(line).fields)]
  {
    if Blank(line) then []
    else match parse(line)
      case Object(f) => [Render(f)]
      case _ => []
  }

  /** The loop over the lines with every line that is not a JSON object skipped. */
  function Print(lines: seq<string>, parse: string -> Json): (r: seq<string>)
    ensures |r| <= |lines|
  {
    if lines == [] then [] else PrintOne(lines[0], parse) + Print(lines[1..], parse)
  }

  /** A line that prints: not blank, and a JSON object. */
  predicate NoNonObject(lines: seq<string>, parse: string -> Json)
  {
    forall i | 0 <= i < |lines| :: !Blank(lines[i]) ==> !parse(lines[i]).NotObject?
  }

  /** Where no line is a non-object JSON value, the loop as written prints the same and does not crash. */
  lemma {:induction false} PrintAgrees(lines: seq<string>, parse: string -> Json)
    requires NoNonObject(lines, parse)
    ensures PrintAsWritten(lines, parse) == Printout(Print(lines, parse), None)
  {
    if lines != [] {
      assert NoNonObject(lines[1..], parse) by {
        forall i | 0 <= i < |lines[1..]| && !Blank(lines[1..][i])
          ensures !parse(lines[1..][i]).NotObject?
        {
          assert lines[1..][i] == lines[i + 1];
        }
      }
      PrintAgrees(lines[1..], parse);
    }
  }

  /** The commands of two runs of lines are printed in file order. */
  lemma {:induction false} PrintAppend(a: seq<string>, b: seq<string>, parse: string -> Json)
    ensures Print(a + b, parse) == Print(a, parse) + Print(b, parse)
    decreases |a|
  {
    if a == [] {
      assert a + b == b;
    } else {
      assert (a + b)[0] == a[0] && (a + b)[1..] == a[1..] + b;
      PrintAppend(a[1..], b, parse);
    }
  }

  lemma PrintSnoc(lines: seq<string>, i: nat, parse: string -> Json)
    requires i < |lines|
    ensures Print(lines[..i + 1], parse) == Print(lines[..i], parse) + PrintOne(lines[i], parse)
  {
    assert lines[..i + 1] == lines[..i] + [lines[i]];
    PrintAppend(lines[..i], [lines[i]], parse);
    assert [lines[i]][1..] == [];
  }

  /** Commands written one per line are each printed, in order. */
  lemma {:induction false} EveryObjectPrinted(fs: seq<map<string, string>>, ls: seq<string>, parse: string -> Json)
    requires |fs| == |ls|
    requires forall i | 0 <= i < |ls| :: !Blank(ls[i]) && parse(ls[i]) == Object(fs[i])
    ensures |Print(ls, parse)| == |ls|
    ensures forall i | 0 <= i < |ls| :: Print(ls, parse)[i] == Render(fs[i])
  {
    if ls != [] {
      EveryObjectPrinted(fs[1..], ls[1..], parse);
      var rest := Print(ls[1..], parse);
      assert Print(ls, parse) == [Render(fs[0])] + rest;
      forall i | 0 <= i < |ls|
        ensures Print(ls, parse)[i] == Render(fs[i])
      {
        if i > 0 {
          assert Print(ls, parse)[i] == rest[i - 1];
        }
      }
    }
  }

  // ---------------------------------------------------------------------
  // One polling cycle.

  /** The outbox as the script finds it: its directory missing, or a file holding text (created empty if absent). */
  datatype Outbox = NoDirectory | File(text: string)

  /** The seek and read: nothing, a failure that ends the script, or the data from the offset and the new offset. */
  datatype ReadResult = Unreached | Failed(error: string) | Data(data: string, end: nat)

  /**
   * Open with "a+", take the end position, start over from 0 when the file
   * is shorter than the offset, seek, read to the end. A negative offset
   * fails the seek; an offset inside a character fails the decoding.
   */
  function ReadFrom(file: Outbox, offset: int): (r: ReadResult)
    ensures file.NoDirectory? <==> r.Unreached?
    ensures r.Data? ==> r.end == ByteLen(file.text)
  {
    match file
    case NoDirectory => Unreached
    case File(text) =>
      var end := ByteLen(text);
      var start := if end < offset then 0 else offset;
      if start < 0 then Failed(NEGATIVE_SEEK)
      else match BoundaryIndex(text, start)
        case None => Failed(DECODE_ERROR)
        case Some(k) => Data(text[k..], end)
  }

  /** A cycle's outcome: skipped, ended by an exception after some output, or done with the new offset. */
  datatype PollOutcome =
    | Skipped
    | Crashed(printed: seq<string>, error: string)
    | Polled(printed: seq<string>, offset: nat)

  /** One cycle of `main` as written. */
  function PollAsWritten(file: Outbox, offset: int, parse: string -> Json): (o: PollOutcome)
    ensures file.NoDirectory? <==> o.Skipped?
    ensures o.Polled? ==> o.offset == ByteLen(file.text)
  {
    match ReadFrom(file, offset)
    case Unreached => Skipped
    case Failed(e) => Crashed([], e)
    case Data(d, end) =>
      var p := PrintAsWritten(SplitLines(d), parse);
      if p.crash.Some? then Crashed(p.lines, p.crash.value) else Polled(p.lines, end)
  }

  /** One cycle with non-object lines skipped. */
  function Poll(file: Outbox, offset: int, parse: string -> Json): (o: PollOutcome)
    ensures file.NoDirectory? <==> o.Skipped?
    ensures o.Polled? ==> o.offset == ByteLen(file.text)
    ensures o.Crashed? ==> o.printed == [] && (o.error == NEGATIVE_SEEK || o.error == DECODE_ERROR)
  {
    match ReadFrom(file, offset)
    case Unreached => Skipped
    case Failed(e) => Crashed([], e)
    case Data(d, end) => Polled(Print(SplitLines(d), parse), end)
  }

  /** A single line holding a JSON value that is not an object stops the script as written; the corrected cycle skips it. */
  lemma NonObjectLineCrashes(line: string, parse: string -> Json)
    requires IsLine(line) && !Blank(line) && parse(line) == NotObject
    ensures PollAsWritten(File(line + "\n"), 0, parse) == Crashed([], ATTRIBUTE_ERROR)
    ensures Poll(File(line + "\n"), 0, parse) == Polled([], ByteLen(line + "\n"))
  {
    var text := line + "\n";
    assert text[0..] == text;
    SplitTerminated([line]);
    assert Terminated([line]) == text;
  }

  /** Where no line is a non-object JSON value, both cycles agree. */
  lemma PollAgrees(file: Outbox, offset: int, parse: string -> Json)
    requires ReadFrom(file, offset).Data? ==> NoNonObject(SplitLines(ReadFrom(file, offset).data), parse)
    ensures PollAsWritten(file, offset, parse) == Poll(file, offset, parse)
  {
    var r := ReadFrom(file, offset);
    if r.Data? {
      PrintAgrees(SplitLines(r.data), parse);
    }
  }

  /** Text appended after a cycle is exactly what the next cycle prints; it never fails. */
  lemma AppendedCommandsPrinted(text: string, more: string, parse: string -> Json)
    ensures Poll(File(text + more), ByteLen(text), parse) ==
      Polled(Print(SplitLines(more), parse), ByteLen(text + more))
  {
    var s := text + more;
    assert s[..|text|] == text;
    ByteLenAppend(text, more);
    BoundaryIndexComplete(s, ByteLen(text), |text|);
    assert s[|text|..] == more;
  }

  /** A cycle over an unchanged file prints nothing and keeps the offset. */
  lemma UnchangedFilePrintsNothing(text: string, parse: string -> Json)
    ensures Poll(File(text), ByteLen(text), parse) == Polled([], ByteLen(text))
  {
    AppendedCommandsPrinted(text, [], parse);
    assert text + [] == text;
  }

  /** A file shorter than the offset, truncated or replaced, is printed from its start. */
  lemma ShrunkFileFromStart(text: string, offset: int, parse: string -> Json)
    requires ByteLen(text) < offset
    ensures Poll(File(text), offset, parse) == Polled(Print(SplitLines(text), parse), ByteLen(text))
  {
    assert text[0..] == text;
  }

  /** A negative offset, which only a hand-edited state file holds, fails the seek. */
  lemma NegativeOffsetFails(text: string, offset: int, parse: string -> Json)
    requires offset < 0
    ensures Poll(File(text), offset, parse) == Crashed([], NEGATIVE_SEEK)
  {
  }

  // ---------------------------------------------------------------------
  // The script's state.

  /** The offset in memory, the state file, and what has been printed. */
  datatype Snapshot = Snapshot(offset: int, state: StateFile, out: seq<string>)

  /** The state after a cycle: a crash keeps the offset and the state file; a completed cycle saves the new offset. */
  function After(s: Snapshot, o: PollOutcome): (r: Snapshot)
    ensures o.Skipped? ==> r == s
    ensures o.Crashed? ==> r == s.(out := s.out + o.printed)
    ensures o.Polled? ==> r == Snapshot(o.offset, Holds(PyStr(o.offset)), s.out + o.printed)
  {
    match o
    case Skipped => s
    case Crashed(p, _) => s.(out := s.out + p)
    case Polled(p, end) => Snapshot(end, Holds(PyStr(end)), s.out + p)
  }

  /** After a completed cycle a restart loads the offset the cycle reached. */
  lemma RestartResumes(s: Snapshot, o: PollOutcome)
    requires o.Polled?
    ensures LoadOffset(After(s, o).state) == After(s, o).offset
  {
    SavedOffsetReloads(o.offset);
  }

  /** The tailer process. */
  class Tailer {
    var offset: int
    var state: StateFile
    var out: seq<string>

    function Current(): Snapshot
      reads this
    {
      Snapshot(offset, state, out)
    }

    /** Start-up: the offset comes from the state file. */
    constructor (state: StateFile)
      ensures offset == LoadOffset(state) && this.state == state && out == []
    {
      offset := LoadOffset(state);
      this.state := state;
      out := [];
    }

    /** `save_offset`: the state file is replaced in one step by the offset's decimal form. */
    method SaveOffset()
      modifies this
      ensures state == Holds(PyStr(offset))
      ensures offset == old(offset) && out == old(out)
    {
      state := Holds(PyStr(offset));
    }

    /** One cycle; an exception that ends the script is returned. */
    method PollOnce(file: Outbox, parse: string -> Json) returns (crash: Option<string>)
      modifies this
      ensures Current() == After(old(Current()), Poll(file, old(offset), parse))
      ensures crash.Some? <==> Poll(file, old(offset), parse).Crashed?
    {
      var r := ReadFrom(file, offset);
      match r {
        case Unreached =>
          return None;
        case Failed(e) =>
          return Some(e);
        case Data(data, end) =>
          var lines := SplitLines(data);
          var printed := PrintLines(lines, parse);
          out := out + printed;
          offset := end;
          SaveOffset();
          return None;
      }
    }
  }

  /** The loop over the lines of one cycle. */
  method PrintLines(lines: seq<string>, parse: string -> Json) returns (printed: seq<string>)
    ensures printed == Print(lines, parse)
  {
    printed := [];
    for i := 0 to |lines|
      invariant printed == Print(lines[..i], parse)
    {
      PrintSnoc(lines, i, parse);
      var line := lines[i];
      var one := [];
      if !Blank(line) {
        var entry := parse(line);
        if entry.Object? {
          one := [Render(entry.fields)];
        }
      }
      printed := printed + one;
    }
    assert lines[..|lines|] == lines;
  }
}
