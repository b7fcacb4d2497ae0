/**
 * The schedule file: printed by `printCurrentScheduleToFile` and the `printToFile` methods, read back by
 * `setSchedulableAddresses` and `reconstituteSchedule` (src/serializer/logger.cpp, serializertypes.cpp).
 */
module ScheduleText {
  import opened SerializerTypes
  import opened Numerals

  const MAX_READ_SIZE: nat := 256

  datatype Entry =
    | Sched(chosen: ThrID, caller: ThrID, desc: string, id: nat, enabled: seq<ThrID>)
    | Signal(chosen: ThrID, caller: ThrID, id: nat, cond: nat, onCond: seq<ThrID>)

  // ---------------------------------------------------------------- text

  function Line(key: string, value: string): string {
    key + ":" + value + "\n"
  }

  function List(ts: seq<ThrID>): string {
    if ts == [] then "" else Decimal(ts[0]) + "," + List(ts[1..])
  }

  function Underscored(s: string): (r: string)
    ensures |r| == |s|
    ensures forall i :: 0 <= i < |s| ==> r[i] == if s[i] == ' ' then '_' else s[i]
  {
    seq(|s|, i requires 0 <= i < |s| => if s[i] == ' ' then '_' else s[i])
  }

  /** The constructor of a schedule record replaces the blanks of its description. */
  method ChangeSpacesToUnderscores(s: string) returns (r: string)
    ensures r == Underscored(s)
  {
    r := s;
    for i := 0 to |s|
      invariant |r| == |s|
      invariant forall k :: 0 <= k < |s| ==> r[k] == if k < i && s[k] == ' ' then '_' else s[k]
    {
      if r[i] == ' ' {
        r := r[..i] + "_" + r[i + 1..];
      }
    }
  }

  function EntryText(e: Entry): string {
    match e
    case Sched(chosen, caller, desc, id, enabled) =>
      "SCHED\n" + (Line("chosen", Decimal(chosen)) + (Line("caller", Decimal(caller)) +
        (Line("typstr", desc) + (Line("idaddr", Pointer(id)) + Line("enable", List(enabled))))))
    case Signal(chosen, caller, id, cond, onCond) =>
      "SIGNAL\n" + (Line("signalled", Decimal(chosen)) + (Line("caller", Decimal(caller)) +
        (Line("idaddr", Pointer(id)) + (Line("cond", Pointer(cond)) + Line("oncond", List(onCond))))))
  }

  function EntriesText(es: seq<Entry>): string {
    if es == [] then "" else EntryText(es[0]) + EntriesText(es[1..])
  }

  function AddressLines(addrs: seq<nat>): string {
    if addrs == [] then "" else Pointer(addrs[0]) + "\n" + AddressLines(addrs[1..])
  }

  function AddressText(all: bool, addrs: seq<nat>): string {
    "begin_addr_list\n" + ((if all then "all\n" else AddressLines(addrs)) + "end_addr_list\n")
  }

  // ---------------------------------------------------------------- the lists of threads

  /** The numbers in front of the commas. */
  function ReadList(s: string, from: nat): (ts: seq<ThrID>)
    requires from <= |s|
    decreases |s|, |s| - from
  {
    if from == |s| then []
    else if s[from] == ',' then [Atoi(s[..from])] + ReadList(s[from + 1..], 0)
    else ReadList(s, from + 1)
  }

  lemma {:induction false} ReadsFirst(number: string, rest: string, from: nat)
    requires from <= |number| && forall i :: 0 <= i < |number| ==> number[i] != ','
    ensures ReadList(number + "," + rest, from) == [Atoi(number)] + ReadList(rest, 0)
    decreases |number| - from
  {
    hide Atoi;
    var s := number + "," + rest;
    if from == |number| {
      assert s[from] == ',' && s[..from] == number && s[from + 1..] == rest;
    } else {
      assert s[from] == number[from];
      ReadsFirst(number, rest, from + 1);
    }
  }

  lemma DecimalReads(n: int)
    ensures Atoi(Decimal(n)) == n
    ensures forall i :: 0 <= i < |Decimal(n)| ==> Decimal(n)[i] != ',' && Decimal(n)[i] != '\n'
  {
    AtoiReads(n, 0, "");
    assert Blanks(0) + Decimal(n) + "" == Decimal(n);
    DigitsPlain(if n < 0 then -n else n, 10);
  }

  /** A printed list holds its threads in order, each closed by a comma, on one line. */
  lemma {:induction false} ListReads(ts: seq<ThrID>)
    ensures ReadList(List(ts), 0) == ts && OneLine(List(ts)) && (ts == [] <==> List(ts) == "")
    decreases |ts|
  {
    hide Atoi, Decimal;
    if ts != [] {
      DecimalReads(ts[0]);
      ListReads(ts[1..]);
      ReadsFirst(Decimal(ts[0]), List(ts[1..]), 0);
    }
  }

  /** A scheduling record as it stands in the file. */
  lemma WrittenSchedule()
    ensures EntryText(Sched(2, 1, "Lock", 255, [0, 2])) ==
      "SCHED\n" + "chosen:2\n" + "caller:1\n" + "typstr:Lock\n" + "idaddr:0xff\n" + "enable:0,2,\n"
  {
    hide List, Digits;
    SmallNumerals();
    assert Line("chosen", "2") == "chosen:2\n";
    assert Line("caller", "1") == "caller:1\n";
    assert Line("typstr", "Lock") == "typstr:Lock\n";
    assert Line("idaddr", "0xff") == "idaddr:0xff\n";
    assert Line("enable", "0,2,") == "enable:0,2,\n";
    hide Line;
  }

  /** A signal record as it stands in the file. */
  lemma WrittenSignal()
    ensures EntryText(Signal(3, 1, 255, 10, [0, 2])) ==
      "SIGNAL\n" + "signalled:3\n" + "caller:1\n" + "idaddr:0xff\n" + "cond:0xa\n" + "oncond:0,2,\n"
  {
    hide List, Digits;
    SmallNumerals();
    assert Line("signalled", "3") == "signalled:3\n";
    assert Line("caller", "1") == "caller:1\n";
    assert Line("idaddr", "0xff") == "idaddr:0xff\n";
    assert Line("cond", "0xa") == "cond:0xa\n";
    assert Line("oncond", "0,2,") == "oncond:0,2,\n";
    hide Line;
  }

  lemma SmallNumerals()
    ensures Digits(1, 10) == "1" && Digits(2, 10) == "2" && Digits(3, 10) == "3"
    ensures Pointer(255) == "0xff" && Pointer(10) == "0xa" && List([0, 2]) == "0,2,"
  {
    assert Digits(255, 16) == "ff";
    assert [0, 2][1..] == [2] && [2][1..] == [];
  }

  // ---------------------------------------------------------------- reading lines

  /** `fgets`: up to the end of the line, but no more than the buffer holds. */
  function TakeLine(f: string, room: nat): (r: (string, string))
    ensures r.0 + r.1 == f && (f != "" && room > 0 ==> |r.0| > 0)
    decreases |f|
  {
    if f == "" || room == 0 then ("", f)
    else if f[0] == '\n' then ("\n", f[1..])
    else
      var (line, rest) := TakeLine(f[1..], room - 1);
      ([f[0]] + line, rest)
  }

  ghost predicate OneLine(s: string) {
    forall i :: 0 <= i < |s| ==> s[i] != '\n'
  }

  lemma {:induction false} TakesLine(s: string, rest: string, room: nat)
    requires OneLine(s) && |s| < room
    ensures TakeLine(s + "\n" + rest, room) == (s + "\n", rest)
    decreases |s|
  {
    var f := s + "\n" + rest;
    if s == "" {
      assert f[0] == '\n' && f[1..] == rest;
    } else {
      assert f[0] == s[0] && f[1..] == s[1..] + "\n" + rest;
      TakesLine(s[1..], rest, room - 1);
      assert [s[0]] + (s[1..] + "\n") == s + "\n";
    }
  }

  /** `setWhitespaceToColon`: everything up to the first colon becomes blank. */
  function Blanked(s: string): string {
    if s == "" then "" else if s[0] == ':' then " " + s[1..] else " " + Blanked(s[1..])
  }

  method SetWhitespaceToColon(buffer: array<char>)
    modifies buffer
    ensures buffer[..] == Blanked(old(buffer[..]))
  {
    ghost var start := buffer[..];
    var i := 0;
    while i < buffer.Length
      invariant i <= buffer.Length
      invariant forall k :: 0 <= k < i ==> buffer[k] == ' ' && start[k] != ':'
      invariant forall k :: i <= k < buffer.Length ==> buffer[k] == start[k]
    {
      if buffer[i] == ':' {
        buffer[i] := ' ';
        BlankedTo(start, i);
        assert buffer[..] == Blanks(i + 1) + start[i + 1..];
        return;
      }
      buffer[i] := ' ';
      i := i + 1;
    }
    BlankedTo(start, i);
    assert buffer[..] == Blanks(i);
  }

  lemma {:induction false} BlankedTo(s: string, k: nat)
    requires k <= |s| && (k < |s| ==> s[k] == ':') && forall i :: 0 <= i < k ==> s[i] != ':'
    ensures Blanked(s) == if k < |s| then Blanks(k + 1) + s[k + 1..] else Blanks(k)
    decreases |s|
  {
    if k < |s| {
      assert s[..k] + ":" + s[k + 1..] == s;
      BlankedKey(s[..k], s[k + 1..]);
    } else if s != "" {
      BlankedTo(s[1..], k - 1);
      assert Blanks(k) == " " + Blanks(k - 1);
    }
  }

  lemma {:induction false} BlankedKey(key: string, value: string)
    requires forall i :: 0 <= i < |key| ==> key[i] != ':'
    ensures Blanked(key + ":" + value) == Blanks(|key| + 1) + value
    decreases |key|
  {
    var s := key + ":" + value;
    if key == "" {
      assert s[0] == ':' && s[1..] == value && Blanks(1) == " ";
    } else {
      assert s[0] == key[0] && s[1..] == key[1..] + ":" + value;
      BlankedKey(key[1..], value);
      assert Blanks(|key| + 1) == " " + Blanks(|key|);
    }
  }

  function DropSpace(s: string): string {
    if s != "" && IsSpace(s[|s| - 1]) then DropSpace(s[..|s| - 1]) else s
  }

  /** `trimWhitespace` */
  function Trimmed(s: string): string {
    DropSpace(SkipSpace(s))
  }

  ghost predicate NoSpace(s: string) {
    forall i :: 0 <= i < |s| ==> !IsSpace(s[i])
  }

  lemma TrimsValue(blanks: nat, d: string)
    requires NoSpace(d)
    ensures Trimmed(Blanks(blanks) + d + "\n") == d
  {
    var text := d + "\n";
    assert Blanks(blanks) + d + "\n" == Blanks(blanks) + text;
    if d == "" {
      SkipAll(blanks);
      assert text == "\n";
    } else {
      assert text[0] == d[0];
      SkipBlanks(blanks, text);
      assert text[..|text| - 1] == d && text[|text| - 1] == '\n';
      assert DropSpace(text) == DropSpace(d) && DropSpace(d) == d;
    }
  }

  lemma {:induction false} SkipAll(n: nat)
    ensures SkipSpace(Blanks(n) + "\n") == ""
    decreases n
  {
    var s := Blanks(n) + "\n";
    if n == 0 {
      assert s == "\n" && s[1..] == "";
    } else {
      assert s[1..] == Blanks(n - 1) + "\n";
      SkipAll(n - 1);
    }
  }

  // ---------------------------------------------------------------- what a file must satisfy

  /** The line is complete in the read buffer. */
  ghost predicate Fits(key: string, value: string) {
    |Line(key, value)| < MAX_READ_SIZE && OneLine(key) && OneLine(value)
    && forall i :: 0 <= i < |key| ==> key[i] != ':'
  }

  /** Every line fits, and the description has no white space but blanks, which were replaced. */
  ghost predicate Readable(e: Entry) {
    match e
    case Sched(chosen, caller, desc, id, enabled) =>
      && Fits("chosen", Decimal(chosen)) && Fits("caller", Decimal(caller)) && Fits("typstr", desc)
      && Fits("idaddr", Pointer(id)) && Fits("enable", List(enabled)) && NoSpace(desc)
    case Signal(chosen, caller, id, cond, onCond) =>
      && Fits("signalled", Decimal(chosen)) && Fits("caller", Decimal(caller)) && Fits("idaddr", Pointer(id))
      && Fits("cond", Pointer(cond)) && Fits("oncond", List(onCond))
  }

  /** What is read back: the lists of threads are not. */
  function Stripped(e: Entry): Entry {
    match e
    case Sched(chosen, caller, desc, id, _) => Sched(chosen, caller, desc, id, [])
    case Signal(chosen, caller, id, cond, _) => Signal(chosen, caller, id, cond, [])
  }

  predicate StartsWith(s: string, prefix: string) {
    |prefix| <= |s| && s[..|prefix|] == prefix
  }

  predicate IsEnd(line: string) {
    || StartsWith(line, "end_log") || StartsWith(line, "thrille assert") || StartsWith(line, "program deadlock")
    || StartsWith(line, "segfault") || StartsWith(line, "program assert")
  }

  /** The log may end with any of the markers, or just end. */
  ghost predicate EndsLog(tail: string) {
    tail == "" || IsEnd(TakeLine(tail, MAX_READ_SIZE - 1).0)
  }

  class Readfile {
    var rest: string

    constructor (text: string)
      ensures rest == text
    {
      rest := text;
    }

    method Fgets() returns (line: string)
      modifies this
      ensures (line, rest) == TakeLine(old(rest), MAX_READ_SIZE - 1)
    {
      var r := TakeLine(rest, MAX_READ_SIZE - 1);
      line, rest := r.0, r.1;
    }

    /** A line's value, with the key blanked out. */
    method NextValue(ghost key: string, ghost value: string, ghost tail: string) returns (text: string)
      requires Fits(key, value) && rest == Line(key, value) + tail
      modifies this
      ensures text == Blanks(|key| + 1) + value + "\n" && rest == tail
    {
      ghost var s := key + ":" + value;
      assert rest == s + "\n" + tail;
      TakesLine(s, tail, MAX_READ_SIZE - 1);
      var line := Fgets();
      var buffer := new char[|line|](i requires 0 <= i < |line| => line[i]);
      assert buffer[..] == line;
      SetWhitespaceToColon(buffer);
      text := buffer[..];
      assert line == key + ":" + (value + "\n");
      BlankedKey(key, value + "\n");
      assert Blanks(|key| + 1) + (value + "\n") == Blanks(|key| + 1) + value + "\n";
    }

    method ParseThrID(ghost key: string, ghost n: ThrID, ghost tail: string) returns (t: ThrID)
      requires Fits(key, Decimal(n)) && rest == Line(key, Decimal(n)) + tail
      modifies this
      ensures t == n && rest == tail
    {
      var text := NextValue(key, Decimal(n), tail);
      AtoiReads(n, |key| + 1, "\n");
      t := Atoi(text);
    }

    method ParseString(ghost key: string, ghost value: string, ghost tail: string) returns (d: string)
      requires Fits(key, value) && NoSpace(value) && rest == Line(key, value) + tail
      modifies this
      ensures d == value && rest == tail
    {
      var text := NextValue(key, value, tail);
      TrimsValue(|key| + 1, value);
      d := Trimmed(text);
    }

    method ParsePointer(ghost key: string, ghost p: nat, ghost tail: string) returns (a: nat)
      requires Fits(key, Pointer(p)) && rest == Line(key, Pointer(p)) + tail
      modifies this
      ensures a == p && rest == tail
    {
      var text := NextValue(key, Pointer(p), tail);
      PointerHasNoSpace(p);
      TrimsValue(|key| + 1, Pointer(p));
      StrtoulReads(p, 0, "");
      assert Blanks(0) + Pointer(p) + "" == Pointer(p);
      a := Strtoul(Trimmed(text));
    }

    method SkipLine(ghost key: string, ghost value: string, ghost tail: string)
      requires Fits(key, value) && rest == Line(key, value) + tail
      modifies this
      ensures rest == tail
    {
      assert rest == (key + ":" + value) + "\n" + tail;
      TakesLine(key + ":" + value, tail, MAX_READ_SIZE - 1);
      var line := Fgets();
    }

    method ReadSched(ghost e: Entry, ghost tail: string) returns (r: Entry)
      requires e.Sched? && Readable(e) && rest == Body(e) + tail
      modifies this
      ensures r == Stripped(e) && rest == tail
    {
      hide Line, Fits, Decimal, Pointer, List, NoSpace;
      ghost var enable := Line("enable", List(e.enabled));
      ghost var id := Line("idaddr", Pointer(e.id)) + enable;
      ghost var typ := Line("typstr", e.desc) + id;
      ghost var call := Line("caller", Decimal(e.caller)) + typ;
      Regroup(Line("chosen", Decimal(e.chosen)), call, tail);
      var chosen := ParseThrID("chosen", e.chosen, call + tail);
      Regroup(Line("caller", Decimal(e.caller)), typ, tail);
      var caller := ParseThrID("caller", e.caller, typ + tail);
      Regroup(Line("typstr", e.desc), id, tail);
      var desc := ParseString("typstr", e.desc, id + tail);
      Regroup(Line("idaddr", Pointer(e.id)), enable, tail);
      var idaddr := ParsePointer("idaddr", e.id, enable + tail);
      SkipLine("enable", List(e.enabled), tail);
      var description := ChangeSpacesToUnderscores(desc);
      UnderscoredClean(desc);
      r := Sched(chosen, caller, description, idaddr, []);
    }

    method ReadSignal(ghost e: Entry, ghost tail: string) returns (r: Entry)
      requires e.Signal? && Readable(e) && rest == Body(e) + tail
      modifies this
      ensures r == Stripped(e) && rest == tail
    {
      hide Line, Fits, Decimal, Pointer, List;
      ghost var oncond := Line("oncond", List(e.onCond));
      ghost var cond := Line("cond", Pointer(e.cond)) + oncond;
      ghost var id := Line("idaddr", Pointer(e.id)) + cond;
      ghost var call := Line("caller", Decimal(e.caller)) + id;
      Regroup(Line("signalled", Decimal(e.chosen)), call, tail);
      var chosen := ParseThrID("signalled", e.chosen, call + tail);
      Regroup(Line("caller", Decimal(e.caller)), id, tail);
      var caller := ParseThrID("caller", e.caller, id + tail);
      Regroup(Line("idaddr", Pointer(e.id)), cond, tail);
      var idaddr := ParsePointer("idaddr", e.id, cond + tail);
      Regroup(Line("cond", Pointer(e.cond)), oncond, tail);
      var condaddr := ParsePointer("cond", e.cond, oncond + tail);
      SkipLine("oncond", List(e.onCond), tail);
      r := Signal(chosen, caller, idaddr, condaddr, []);
    }

    /** Reading a printed schedule returns its decisions, whichever marker ends the log. */
    method ReconstituteSchedule(ghost es: seq<Entry>, ghost tail: string) returns (schedule: seq<Entry>)
      requires rest == EntriesText(es) + tail && EndsLog(tail)
      requires forall i :: 0 <= i < |es| ==> Readable(es[i])
      modifies this
      ensures |schedule| == |es| && forall i :: 0 <= i < |es| ==> schedule[i] == Stripped(es[i])
    {
      hide TakeLine, EntryText, EntriesText, Readable, IsEnd, EndsLog, StartsWith, Stripped, Body;
      schedule := [];
      ghost var k := 0;
      assert es[0..] == es;
      while true
        invariant k == |schedule| <= |es| && rest == EntriesText(es[k..]) + tail
        invariant forall i :: 0 <= i < k ==> schedule[i] == Stripped(es[i])
        decreases |es| - k
      {
        ghost var e, after := NextHeader(es, k, tail);
        var line := Fgets();
        if line == "" || IsEnd(line) {
          break;
        }
        var r;
        if StartsWith(line, "SCHED") {
          r := ReadSched(e, after);
        } else {
          assert StartsWith(line, "SIGNAL");
          r := ReadSignal(e, after);
        }
        schedule := schedule + [r];
        k := k + 1;
      }
    }

    /** Reading the printed address list returns the same set, or that every address is meant. */
    method SetSchedulableAddresses(ghost all: bool, ghost addrs: seq<nat>, ghost tail: string)
      returns (scheduleAll: bool, found: set<nat>)
      requires rest == AddressText(all, addrs) + tail
      requires forall i :: 0 <= i < |addrs| ==> |Pointer(addrs[i])| + 1 < MAX_READ_SIZE
      modifies this
      ensures rest == tail && scheduleAll == all
      ensures found == if all then {} else set i | 0 <= i < |addrs| :: addrs[i]
    {
      hide TakeLine, AddressLines, Pointer, StartsWith, Strtoul;
      scheduleAll, found := false, {};
      FirstLine(all, addrs, tail);
      var line := Fgets();
      assert StartsWith(line, "begin_addr_list");
      ghost var k := 0;
      assert addrs[0..] == addrs;
      while true
        invariant !scheduleAll && k <= |addrs| && (all ==> k == 0)
        invariant rest == (if all then "all\n" else AddressLines(addrs[k..])) + "end_addr_list\n" + tail
        invariant found == set i | 0 <= i < k :: addrs[i]
        decreases |addrs| - k
      {
        NextAddress(all, addrs, k, tail);
        line := Fgets();
        if StartsWith(line, "end_addr_list") {
          break;
        }
        if StartsWith(line, "all") {
          LastLine(tail);
          line := Fgets();
          assert StartsWith(line, "end_addr_list");
          scheduleAll := true;
          break;
        }
        found := found + {Strtoul(line)};
        k := k + 1;
      }
    }
  }

  lemma PointerHasNoSpace(p: nat)
    ensures NoSpace(Pointer(p))
  {
    if p > 0 {
      DigitsPlain(p, 16);
    }
  }

  lemma Regroup(a: string, b: string, c: string)
    ensures (a + b) + c == a + (b + c)
  {
  }

  lemma UnderscoredClean(s: string)
    requires NoSpace(s)
    ensures Underscored(s) == s
  {
  }

  /** An entry behind its first line. */
  function Body(e: Entry): string {
    match e
    case Sched(chosen, caller, desc, id, enabled) =>
      Line("chosen", Decimal(chosen)) + (Line("caller", Decimal(caller)) +
        (Line("typstr", desc) + (Line("idaddr", Pointer(id)) + Line("enable", List(enabled)))))
    case Signal(chosen, caller, id, cond, onCond) =>
      Line("signalled", Decimal(chosen)) + (Line("caller", Decimal(caller)) +
        (Line("idaddr", Pointer(id)) + (Line("cond", Pointer(cond)) + Line("oncond", List(onCond)))))
  }

  function Header(e: Entry): string {
    if e.Sched? then "SCHED" else "SIGNAL"
  }

  lemma EntryIs(e: Entry)
    ensures EntryText(e) == Header(e) + "\n" + Body(e)
  {
    hide Line, Decimal, Pointer, List;
    Regroup(Header(e), "\n", Body(e));
  }

  /** The next line is the header of the next entry, or ends the log. */
  lemma NextHeader(es: seq<Entry>, k: nat, tail: string) returns (e: Entry, after: string)
    requires k <= |es| && EndsLog(tail) && forall i :: 0 <= i < |es| ==> Readable(es[i])
    ensures var (line, rest) := TakeLine(EntriesText(es[k..]) + tail, MAX_READ_SIZE - 1);
            if k == |es| then line == "" || IsEnd(line)
            else
              && e == es[k] && Readable(e) && line != "" && !IsEnd(line)
              && StartsWith(line, Header(e)) && (StartsWith(line, "SCHED") <==> e.Sched?)
              && rest == Body(e) + after && after == EntriesText(es[k + 1..]) + tail
  {
    if k == |es| {
      assert EntriesText(es[k..]) + tail == tail;
      e, after := Signal(0, 0, 0, 0, []), "";
    } else {
      e, after := es[k], EntriesText(es[k + 1..]) + tail;
      HeaderLine(e, EntriesText(es[k + 1..]), tail);
      assert es[k..][1..] == es[k + 1..];
    }
  }

  lemma HeaderLine(e: Entry, more: string, tail: string)
    ensures var (line, rest) := TakeLine(EntryText(e) + more + tail, MAX_READ_SIZE - 1);
            && line == Header(e) + "\n" && rest == Body(e) + (more + tail)
            && line != "" && !IsEnd(line) && StartsWith(line, Header(e)) && (StartsWith(line, "SCHED") <==> e.Sched?)
  {
    EntryIs(e);
    hide EntryText, Body;
    assert EntryText(e) + more + tail == Header(e) + "\n" + (Body(e) + (more + tail));
    TakesLine(Header(e), Body(e) + (more + tail), MAX_READ_SIZE - 1);
    hide TakeLine;
    HeaderIsNoEnd(e);
  }

  lemma HeaderIsNoEnd(e: Entry)
    ensures var line := Header(e) + "\n";
            !IsEnd(line) && StartsWith(line, Header(e)) && (StartsWith(line, "SCHED") <==> e.Sched?)
  {
    var line := Header(e) + "\n";
    assert line[0] == 'S';
    assert line[1] == if e.Sched? then 'C' else 'I';
    FirstLetter(line, "end_log");
    FirstLetter(line, "thrille assert");
    FirstLetter(line, "program deadlock");
    FirstLetter(line, "segfault");
    FirstLetter(line, "program assert");
    assert line[..|Header(e)|] == Header(e);
    if !e.Sched? {
      assert line[..5][1] == 'I';
    }
  }

  lemma FirstLetter(line: string, prefix: string)
    requires line != "" && prefix != "" && line[0] != prefix[0]
    ensures !StartsWith(line, prefix)
  {
    if |prefix| <= |line| {
      assert line[..|prefix|][0] == line[0];
    }
  }

  // ---------------------------------------------------------------- address lists

  lemma LineWith(s: string, tail: string, first: char)
    requires OneLine(s) && |s| < MAX_READ_SIZE - 1 && s != "" && s[0] == first
    ensures var (line, rest) := TakeLine(s + "\n" + tail, MAX_READ_SIZE - 1);
            line == s + "\n" && rest == tail && line[0] == first && StartsWith(line, s)
  {
    TakesLine(s, tail, MAX_READ_SIZE - 1);
    assert (s + "\n")[..|s|] == s;
  }

  lemma FirstLine(all: bool, addrs: seq<nat>, tail: string)
    ensures var (line, rest) := TakeLine(AddressText(all, addrs) + tail, MAX_READ_SIZE - 1);
            && StartsWith(line, "begin_addr_list")
            && rest == (if all then "all\n" else AddressLines(addrs)) + "end_addr_list\n" + tail
  {
    hide TakeLine, AddressLines;
    var body := if all then "all\n" else AddressLines(addrs);
    var after := body + "end_addr_list\n" + tail;
    assert AddressText(all, addrs) + tail == "begin_addr_list" + "\n" + after;
    LineWith("begin_addr_list", after, 'b');
  }

  lemma LastLine(tail: string)
    ensures var (line, rest) := TakeLine("end_addr_list\n" + tail, MAX_READ_SIZE - 1);
            && StartsWith(line, "end_addr_list") && rest == tail
  {
    hide TakeLine;
    LineWith("end_addr_list", tail, 'e');
    assert "end_addr_list" + "\n" + tail == "end_addr_list\n" + tail;
  }

  lemma NextAddress(all: bool, addrs: seq<nat>, k: nat, tail: string)
    requires k <= |addrs| && forall i :: 0 <= i < |addrs| ==> |Pointer(addrs[i])| + 1 < MAX_READ_SIZE
    ensures var (line, rest) := TakeLine((if all then "all\n" else AddressLines(addrs[k..])) + "end_addr_list\n" + tail,
                                         MAX_READ_SIZE - 1);
            if all then !StartsWith(line, "end_addr_list") && StartsWith(line, "all") && rest == "end_addr_list\n" + tail
            else if k == |addrs| then StartsWith(line, "end_addr_list") && rest == tail
            else
              && !StartsWith(line, "end_addr_list") && !StartsWith(line, "all") && Strtoul(line) == addrs[k]
              && rest == AddressLines(addrs[k + 1..]) + "end_addr_list\n" + tail
  {
    hide TakeLine, Pointer, StartsWith, Strtoul;
    if all {
      var after := "end_addr_list\n" + tail;
      assert "all\n" + "end_addr_list\n" + tail == "all" + "\n" + after;
      LineWith("all", after, 'a');
      FirstLetter("all" + "\n", "end_addr_list");
    } else if k == |addrs| {
      assert AddressLines(addrs[k..]) + "end_addr_list\n" + tail == "end_addr_list\n" + tail;
      LastLine(tail);
    } else {
      var p, after := Pointer(addrs[k]), AddressLines(addrs[k + 1..]) + "end_addr_list\n" + tail;
      assert addrs[k..][1..] == addrs[k + 1..];
      assert AddressLines(addrs[k..]) + "end_addr_list\n" + tail == p + "\n" + after;
      hide AddressLines;
      PointerLine(addrs[k], after);
    }
  }

  lemma PointerLine(a: nat, after: string)
    requires |Pointer(a)| + 1 < MAX_READ_SIZE
    ensures var (line, rest) := TakeLine(Pointer(a) + "\n" + after, MAX_READ_SIZE - 1);
            && !StartsWith(line, "end_addr_list") && !StartsWith(line, "all") && Strtoul(line) == a && rest == after
  {
    hide TakeLine, Strtoul, StartsWith;
    var p := Pointer(a);
    PointerHasNoSpace(a);
    assert p[0] == if a == 0 then '(' else '0';
    LineWith(p, after, p[0]);
    FirstLetter(p + "\n", "end_addr_list");
    FirstLetter(p + "\n", "all");
    StrtoulReads(a, 0, "\n");
    assert Blanks(0) + p + "\n" == p + "\n";
  }

  // ---------------------------------------------------------------- printing

  /** `printCurrentScheduleToFile` and `cleanClose`. */
  method PrintSchedule(all: bool, addrs: seq<nat>, es: seq<Entry>) returns (text: string)
    ensures text == AddressText(all, addrs) + (EntriesText(es) + "end_log\n")
  {
    hide EntryText, Pointer;
    text := "begin_addr_list\n";
    if all {
      text := text + "all\n";
    } else {
      assert addrs[0..] == addrs;
      for i := 0 to |addrs|
        invariant text + AddressLines(addrs[i..]) == "begin_addr_list\n" + AddressLines(addrs)
      {
        assert addrs[i..][1..] == addrs[i + 1..];
        Regroup(text, Pointer(addrs[i]) + "\n", AddressLines(addrs[i + 1..]));
        text := text + (Pointer(addrs[i]) + "\n");
      }
      assert text + "" == text;
    }
    text := text + "end_addr_list\n";
    assert text == AddressText(all, addrs);
    ghost var start := text;
    assert es[0..] == es;
    for i := 0 to |es|
      invariant text + EntriesText(es[i..]) == start + EntriesText(es)
    {
      assert es[i..][1..] == es[i + 1..];
      Regroup(text, EntryText(es[i]), EntriesText(es[i + 1..]));
      text := text + EntryText(es[i]);
    }
    assert text + "" == text;
    Regroup(start, EntriesText(es), "end_log\n");
    text := text + "end_log\n";
  }

  /** What is written when a run ends: normally, by a failed assertion, a deadlock or a fault. */
  predicate IsMarker(s: string) {
    s == "end_log" || s == "thrille assert" || s == "program deadlock" || s == "segfault" || s == "program assert"
  }

  lemma {:induction false} TakesPrefix(s: string, more: string, room: nat)
    requires OneLine(s) && |s| <= room
    ensures StartsWith(TakeLine(s + more, room).0, s)
    decreases |s|
  {
    if s != "" {
      var f := s + more;
      assert f[0] == s[0] && f[1..] == s[1..] + more;
      TakesPrefix(s[1..], more, room - 1);
      var line := TakeLine(f[1..], room - 1).0;
      assert ([f[0]] + line)[..|s|] == [s[0]] + line[..|s| - 1];
      assert s == [s[0]] + s[1..];
    }
  }

  /** Any marker ends the log, whatever is written behind it. */
  lemma MarkerEnds(marker: string, more: string)
    requires IsMarker(marker)
    ensures EndsLog(marker + more)
  {
    hide TakeLine, StartsWith;
    TakesPrefix(marker, more, MAX_READ_SIZE - 1);
  }

  /** Printing a schedule and reading it back returns the addresses and the decisions. */
  method PrintThenParse(all: bool, addrs: seq<nat>, es: seq<Entry>)
    returns (scheduleAll: bool, found: set<nat>, schedule: seq<Entry>)
    requires forall i :: 0 <= i < |addrs| ==> |Pointer(addrs[i])| + 1 < MAX_READ_SIZE
    requires forall i :: 0 <= i < |es| ==> Readable(es[i])
    ensures scheduleAll == all && found == if all then {} else set i | 0 <= i < |addrs| :: addrs[i]
    ensures |schedule| == |es| && forall i :: 0 <= i < |es| ==> schedule[i] == Stripped(es[i])
  {
    hide AddressText, EntriesText, Readable, Pointer, EndsLog;
    var text := PrintSchedule(all, addrs, es);
    var file := new Readfile(text);
    scheduleAll, found := file.SetSchedulableAddresses(all, addrs, EntriesText(es) + "end_log\n");
    MarkerEnds("end_log", "\n");
    assert "end_log" + "\n" == "end_log\n";
    schedule := file.ReconstituteSchedule(es, "end_log\n");
  }
}
