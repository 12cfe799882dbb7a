/** The text form of traces: the writer, the reader, and the proof that reading undoes writing. */
module TraceText {
  import opened Numerals
  import T = TraceModel
  import V = TraceValidation
  import Bits

  const LINE_CAPACITY: nat := 1024
  const UINT_MAX: nat := 0xFFFF_FFFF
  const MAGIC: string := "MEMX_TRACE"
  const COLUMNS: string := "sequence" + "," + ("thread" + "," + ("operation" + "," + ("address" + "," + ("size" + "," + "handle"))))

  // ----- C strings

  /** Index of the first c, or the length. */
  function IndexOf(s: string, c: char): (i: nat)
    ensures i <= |s| && (forall j :: 0 <= j < i ==> s[j] != c) && (i < |s| ==> s[i] == c)
  {
    if s == "" || s[0] == c then 0 else 1 + IndexOf(s[1..], c)
  }

  /** What strlen and strcmp see of a buffer. */
  function CString(s: string): string { s[..IndexOf(s, '\0')] }

  function TrimLeft(s: string): string { SkipSpace(s) }

  function TrimRight(s: string): string { if s != "" && IsSpace(s[|s| - 1]) then TrimRight(s[..|s| - 1]) else s }

  function Trim(s: string): string { TrimRight(TrimLeft(s)) }

  /** Text without blanks, commas, equal signs or nulls. */
  predicate Plain(s: string) { forall i :: 0 <= i < |s| ==> !IsSpace(s[i]) && s[i] != ',' && s[i] != '\0' && s[i] != '=' }

  // ----- fields

  /** split_csv: at most n trimmed fields; what follows the n-th is ignored. */
  function Fields(s: string, n: nat): seq<string>
    requires n >= 1
    decreases n
  {
    var i := IndexOf(s, ',');
    if i == |s| then [Trim(s)]
    else [Trim(s[..i])] + if n == 1 then [] else Fields(s[i + 1..], n - 1)
  }

  /** The splitting loop. */
  method SplitCsv(line: string, capacity: nat) returns (fields: seq<string>)
    requires capacity >= 1
    ensures fields == Fields(line, capacity)
  {
    hide Fields, Trim, IndexOf;
    fields := [];
    var cursor := line;
    while |fields| < capacity
      invariant |fields| < capacity ==> fields + Fields(cursor, capacity - |fields|) == Fields(line, capacity)
      invariant |fields| <= capacity && (|fields| == capacity ==> fields == Fields(line, capacity))
    {
      FieldsUnfold(cursor, capacity - |fields|);
      var comma := IndexOf(cursor, ',');
      ghost var before := fields;
      fields := fields + [Trim(cursor[..comma])];
      if comma == |cursor| {
        assert cursor[..comma] == cursor;
        break;
      }
      cursor := cursor[comma + 1..];
      FieldsJoin(before, fields[|before|], Fields(line, capacity), cursor, capacity);
    }
  }

  lemma FieldsUnfold(s: string, n: nat)
    requires n >= 1
    ensures var i := IndexOf(s, ',');
            Fields(s, n) == if i == |s| then [Trim(s)] else [Trim(s[..i])] + if n == 1 then [] else Fields(s[i + 1..], n - 1)
  {
    hide Trim, IndexOf;
  }

  lemma FieldsJoin(before: seq<string>, field: string, all: seq<string>, cursor: string, capacity: nat)
    requires |before| < capacity
    requires before + ([field] + if capacity - |before| == 1 then [] else Fields(cursor, capacity - |before| - 1)) == all
    ensures |before| + 1 < capacity ==> before + [field] + Fields(cursor, capacity - |before| - 1) == all
    ensures |before| + 1 == capacity ==> before + [field] == all
  {
    hide Fields;
  }

  // ----- events

  function OperationName(op: T.Operation): string {
    match op
    case Insert => "INSERT"
    case Lookup => "LOOKUP"
    case Retire => "RETIRE"
    case Remove => "REMOVE"
    case Quiescent => "QUIESCENT"
    case Unknown => "UNKNOWN"
  }

  function ParseOperation(s: string): Option<T.Operation> {
    if s == "INSERT" then Some(T.Insert)
    else if s == "LOOKUP" then Some(T.Lookup)
    else if s == "RETIRE" then Some(T.Retire)
    else if s == "REMOVE" then Some(T.Remove)
    else if s == "QUIESCENT" then Some(T.Quiescent)
    else None
  }

  /** parse_event_line: six fields, each in its own range. */
  function ParseEvent(m: T.Machine, line: string): Option<T.Event> {
    var f := Fields(line, 6);
    if |f| != 6 then None
    else
      match (ParseU64(f[0]), ParseUpTo(f[1], UINT_MAX), ParseOperation(f[2]),
             ParseUpTo(f[3], m.WordMax()), ParseUpTo(f[4], m.WordMax()), ParseUpTo(f[5], m.WordMax()))
      case (Some(sequence), Some(thread), Some(op), Some(address), Some(size), Some(handle)) =>
        Some(T.Event(sequence, thread, op, address, size, handle))
      case _ => None
  }

  function EventLine(e: T.Event): string {
    Dec(e.sequence) + "," + (Dec(e.thread) + "," + (OperationName(e.operation) + "," +
      ("0x" + Hex(e.address) + "," + (Dec(e.size) + "," + ("0x" + Hex(e.handle))))))
  }

  // ----- the reader

  datatype Reader = Reader(magic: bool, columns: bool, trace: T.Trace)

  datatype LineResult = Accepted(reader: Reader) | Refused(status: V.Status)

  /** memx_trace_init. */
  function EmptyTrace(): T.Trace { T.Trace(1, 21, 12, []) }

  function HeaderLine(trace: T.Trace, line: string): Option<T.Trace> {
    var i := IndexOf(line, '=');
    if i == |line| then None
    else
      var name := Trim(line[..i]);
      match ParseUpTo(Trim(line[i + 1..]), UINT_MAX)
      case None => None
      case Some(v) =>
        if name == "version" then Some(trace.(version := v))
        else if name == "region_shift" then Some(trace.(regionShift := v))
        else if name == "granule_shift" then Some(trace.(granuleShift := v))
        else None
  }

  /** One line of the reading loop; room is the number of events memory can be had for. */
  function ReadLine(m: T.Machine, room: nat, r: Reader, chunk: string): LineResult {
    var line := Trim(CString(chunk));
    if line == "" || line[0] == '#' then Accepted(r)
    else if !r.magic then if line == MAGIC then Accepted(r.(magic := true)) else Refused(V.FormatError)
    else if !r.columns && '=' in line then
      match HeaderLine(r.trace, line)
      case None => Refused(V.FormatError)
      case Some(t) => Accepted(r.(trace := t))
    else if !r.columns then if line == COLUMNS then Accepted(r.(columns := true)) else Refused(V.FormatError)
    else
      match ParseEvent(m, line)
      case None => Refused(V.FormatError)
      case Some(e) =>
        if |r.trace.events| >= room then Refused(V.MemoryError)
        else Accepted(r.(trace := r.trace.(events := r.trace.events + [e])))
  }

  /** What one call of fgets delivers: through the next newline, or as much as the buffer holds. */
  function Chunk(text: string): (n: nat)
    requires text != ""
    ensures 0 < n <= |text|
  {
    var i := IndexOf(text, '\n');
    var line := if i < |text| then i + 1 else |text|;
    if line <= LINE_CAPACITY - 1 then line else LINE_CAPACITY - 1
  }

  /** The check for lines that do not fit: no newline before the string ends, and the end of the file not met. */
  predicate Truncated(text: string, chunk: string) {
    '\n' !in CString(chunk) && !(|chunk| == |text| && |chunk| < LINE_CAPACITY - 1 && '\n' !in chunk)
  }

  datatype Scan = Done(reader: Reader, lines: nat) | Stopped(status: V.Status, line: nat)

  /** The reading loop from line number n + 1 on. */
  function ScanText(m: T.Machine, room: nat, r: Reader, text: string, n: nat): Scan
    decreases |text|
  {
    if text == "" then Done(r, n)
    else
      var chunk := text[..Chunk(text)];
      if Truncated(text, chunk) then Stopped(V.FormatError, n + 1)
      else
        match ReadLine(m, room, r, chunk)
        case Refused(status) => Stopped(status, n + 1)
        case Accepted(next) => ScanText(m, room, next, text[Chunk(text)..], n + 1)
  }

  /** What the lifecycle validator accepts. */
  ghost predicate Acceptable(m: T.Machine, t: T.Trace, tableGranted: bool) {
    T.LifecycleValid(m, t) && T.PossibleLive(t.granuleShift, t.events) <= V.MaxGranules() && tableGranted
  }

  /** Event i is the first one of the wrong shape. */
  ghost predicate FirstIllShaped(m: T.Machine, t: T.Trace, i: nat) {
    i < |t.events| && !T.EventGood(m, t, i) && forall j: nat :: j < i ==> T.EventGood(m, t, j)
  }

  /**
   The line reported for a trace that was scanned but not accepted is an event number counted
   from one: the first ill-shaped event, else the first one the live map rejects, and the
   first event for a bad header or a lack of memory.
   */
  ghost predicate Reported(m: T.Machine, t: T.Trace, status: V.Status, line: nat) {
    match status
    case SemanticError =>
      if !T.HeaderShape(m, t) then line == 1
      else if !T.StructureGood(m, t) then line > 0 && FirstIllShaped(m, t, line - 1)
      else line > 0 && T.FirstRejected(m, t.granuleShift, t.events, line - 1)
    case MemoryError => T.StructureGood(m, t) && line == 1
    case _ => false
  }

  function StartReader(): Reader { Reader(false, false, EmptyTrace()) }

  /** The whole text was read and both fixed lines were seen. */
  predicate Scanned(s: Scan) { s.Done? && s.reader.magic && s.reader.columns }

  /**
   memx_trace_read_file on the contents of a file: a trace is returned exactly when the text
   scans, names version 1 and is lifecycle-valid. The error line is that of the scan, or the
   first rejected event plus one.
   */
  method Read(m: T.Machine, text: string, room: nat, hash: nat -> nat, tableGranted: bool)
    returns (status: V.Status, trace: T.Trace, errorLine: nat)
    requires m.wordLog >= 2
    ensures var s := ScanText(m, room, StartReader(), text, 0);
            && (s.Stopped? ==> status == s.status && errorLine == s.line)
            && (s.Done? && !Scanned(s) ==> status == V.FormatError && errorLine == s.lines)
            && (Scanned(s) && s.reader.trace.version != 1 ==> status == V.VersionError && errorLine == s.lines)
            && (Scanned(s) && s.reader.trace.version == 1 ==>
                  && (status == V.Ok <==> Acceptable(m, s.reader.trace, tableGranted))
                  && (status == V.Ok ==> trace == s.reader.trace && errorLine == 0)
                  && (status != V.Ok ==> Reported(m, s.reader.trace, status, errorLine))
                  && (status == V.MemoryError <==>
                        T.StructureGood(m, s.reader.trace)
                        && (T.PossibleLive(s.reader.trace.granuleShift, s.reader.trace.events) > V.MaxGranules() || !tableGranted)))
            && (status == V.Ok ==> Scanned(s) && trace.version == 1)
  {
    hide ReadLine, Truncated, Chunk, T.LifecycleValid, T.PossibleLive, T.StructureGood, T.FirstRejected, T.EventGood;
    trace := EmptyTrace();
    var r, rest, lineNumber := StartReader(), text, 0;
    while rest != ""
      invariant ScanText(m, room, StartReader(), text, 0) == ScanText(m, room, r, rest, lineNumber)
      decreases |rest|
    {
      var size := Chunk(rest);
      var line := rest[..size];
      lineNumber := lineNumber + 1;
      if Truncated(rest, line) { return V.FormatError, trace, lineNumber; }
      var next := ReadLine(m, room, r, line);
      if next.Refused? {
        RefusedStatus(m, room, r, line);
        return next.status, trace, lineNumber;
      }
      r := next.reader;
      rest := rest[size..];
    }
    if !r.magic || !r.columns { return V.FormatError, trace, lineNumber; }
    if r.trace.version != 1 { return V.VersionError, trace, lineNumber; }
    var errorEvent;
    status, errorEvent := V.ValidateLifecycle(m, r.trace, hash, tableGranted);
    errorLine := errorEvent + 1;
    Structured(m, r.trace);
    if status == V.Ok { trace, errorLine := r.trace, 0; }
  }

  lemma Structured(m: T.Machine, t: T.Trace)
    ensures T.StructureGood(m, t) ==> T.HeaderShape(m, t)
  {
  }

  lemma RefusedStatus(m: T.Machine, room: nat, r: Reader, chunk: string)
    ensures var x := ReadLine(m, room, r, chunk); x.Refused? ==> x.status != V.Ok
  {
  }

  // ----- the writer

  function HeaderText(t: T.Trace): string {
    (MAGIC + "\n") + (("version=" + Dec(t.version) + "\n") + (("region_shift=" + Dec(t.regionShift) + "\n") +
      (("granule_shift=" + Dec(t.granuleShift) + "\n") + (COLUMNS + "\n"))))
  }

  function EventText(events: seq<T.Event>): string {
    if events == [] then "" else (EventLine(events[0]) + "\n") + EventText(events[1..])
  }

  function TraceTextOf(t: T.Trace): string { HeaderText(t) + EventText(t.events) }

  /** memx_trace_write_file: only lifecycle-valid traces are written. */
  method Write(m: T.Machine, t: T.Trace, hash: nat -> nat, tableGranted: bool) returns (status: V.Status, text: string)
    requires m.wordLog >= 2
    ensures status == V.Ok <==> T.LifecycleValid(m, t) && T.PossibleLive(t.granuleShift, t.events) <= V.MaxGranules() && tableGranted
    ensures status == V.Ok ==> text == TraceTextOf(t)
  {
    hide T.LifecycleValid, T.PossibleLive, EventLine, HeaderText;
    text := "";
    var errorEvent;
    status, errorEvent := V.ValidateLifecycle(m, t, hash, tableGranted);
    if status != V.Ok { return; }
    text := HeaderText(t);
    var i := 0;
    assert t.events[0..] == t.events;
    while i < |t.events|
      invariant i <= |t.events| && text + EventText(t.events[i..]) == TraceTextOf(t)
    {
      assert t.events[i..][1..] == t.events[i + 1..];
      Regroup(text, EventLine(t.events[i]) + "\n", EventText(t.events[i + 1..]));
      text := text + (EventLine(t.events[i]) + "\n");
      i := i + 1;
    }
    assert t.events[i..] == [];
  }

  lemma Regroup(a: string, b: string, c: string)
    ensures a + (b + c) == (a + b) + c
  {
  }

  // ----- reading undoes writing

  /** Numbers that fit the fields of the text format. */
  predicate Printable(t: T.Trace) {
    && t.version <= UINT_MAX && t.regionShift <= UINT_MAX && t.granuleShift <= UINT_MAX
    && forall i :: 0 <= i < |t.events| ==> EventPrintable(t.events[i])
  }

  predicate EventPrintable(e: T.Event) {
    e.sequence <= ULL_MAX && e.thread <= UINT_MAX && !e.operation.Unknown?
  }

  lemma {:induction false} TrimPlain(s: string)
    requires s == "" || (!IsSpace(s[0]) && !IsSpace(s[|s| - 1]))
    ensures Trim(s) == s && Trim(s + "\n") == s
  {
    if s == "" {
      assert s + "\n" == "\n" && "\n"[1..] == "";
      assert SkipSpace("\n") == SkipSpace("");
    } else {
      assert SkipSpace(s + "\n") == s + "\n";
      assert (s + "\n")[..|s|] == s;
    }
  }

  lemma {:induction false} IndexAt(s: string, rest: string, c: char)
    requires c !in s
    ensures IndexOf(s + [c] + rest, c) == |s|
    ensures IndexOf(s, c) == |s|
  {
    var all := s + [c] + rest;
    assert all[|s|] == c;
    assert forall j :: 0 <= j < |s| ==> all[j] == s[j];
  }

  /** A plain field followed by a comma is the first field. */
  lemma FieldFirst(a: string, rest: string, n: nat)
    requires Plain(a) && n >= 2
    ensures Fields(a + "," + rest, n) == [a] + Fields(rest, n - 1)
  {
    var s := a + "," + rest;
    IndexAt(a, rest, ',');
    assert s[..|a|] == a && s[|a| + 1..] == rest;
    TrimPlain(a);
  }

  lemma FieldLast(a: string, n: nat)
    requires Plain(a) && n >= 1
    ensures Fields(a, n) == [a]
  {
    IndexAt(a, "", ',');
    TrimPlain(a);
  }

  lemma DecPlain(n: nat)
    ensures Plain(Dec(n)) && Dec(n) != "" && Dec(n)[0] != '#'
  {
    DecValue(n);
  }

  lemma HexPlain(n: nat)
    ensures Plain("0x" + Hex(n))
  {
    HexValue(n);
  }

  /** An event line is read back as its event. */
  lemma EventReads(m: T.Machine, e: T.Event)
    requires T.Typed(m, e) && EventPrintable(e) && m.WordMax() <= ULL_MAX
    ensures ParseEvent(m, EventLine(e)) == Some(e)
  {
    hide Fields, Dec, Hex, ParseU64, Bits.Pow2, Plain;
    DecPlain(e.sequence);
    DecPlain(e.thread);
    NamePlain(e.operation);
    HexPlain(e.address);
    DecPlain(e.size);
    HexPlain(e.handle);
    var last := "0x" + Hex(e.handle);
    FieldLast(last, 1);
    FieldFirst(Dec(e.size), last, 2);
    var five := Dec(e.size) + "," + last;
    FieldFirst("0x" + Hex(e.address), five, 3);
    var four := "0x" + Hex(e.address) + "," + five;
    FieldFirst(OperationName(e.operation), four, 4);
    var three := OperationName(e.operation) + "," + four;
    FieldFirst(Dec(e.thread), three, 5);
    var two := Dec(e.thread) + "," + three;
    FieldFirst(Dec(e.sequence), two, 6);
    DecReads(e.sequence);
    DecReads(e.thread);
    HexReads(e.address);
    DecReads(e.size);
    HexReads(e.handle);
  }

  lemma NamePlain(op: T.Operation)
    requires !op.Unknown?
    ensures Plain(OperationName(op)) && ParseOperation(OperationName(op)) == Some(op) && |OperationName(op)| <= 9
  {
  }

  // ----- lines

  /** A line the reader sees whole: it fits, holds neither newline nor null, and has no blanks at its ends. */
  predicate Line(s: string) {
    && s != "" && |s| + 1 <= LINE_CAPACITY - 1 && !IsSpace(s[0]) && !IsSpace(s[|s| - 1])
    && forall i :: 0 <= i < |s| ==> s[i] != '\n' && s[i] != '\0'
  }

  lemma LineChunk(s: string, rest: string)
    requires Line(s)
    ensures var text := (s + "\n") + rest;
            && text != "" && Chunk(text) == |s| + 1 && text[..|s| + 1] == s + "\n" && text[|s| + 1..] == rest
            && !Truncated(text, s + "\n")
    ensures Trim(CString(s + "\n")) == s
  {
    var chunk := s + "\n";
    IndexAt(s, rest, '\n');
    assert (s + ['\n']) + rest == chunk + rest;
    assert chunk[|s|] == '\n';
    assert '\0' !in chunk;
    IndexAt(chunk, "", '\0');
    assert CString(chunk) == chunk;
    TrimPlain(s);
  }

  /** Scanning a text that starts with a whole line. */
  lemma ScanLine(m: T.Machine, room: nat, r: Reader, s: string, rest: string, n: nat, next: Reader)
    requires Line(s) && ReadLine(m, room, r, s + "\n") == Accepted(next)
    ensures ScanText(m, room, r, (s + "\n") + rest, n) == ScanText(m, room, next, rest, n + 1)
  {
    hide ReadLine, Chunk, Truncated;
    LineChunk(s, rest);
  }

  lemma PlainLine(s: string)
    requires Plain(s) && s != "" && |s| <= 200
    ensures Line(s)
  {
  }

  lemma CommaLine(a: string, b: string)
    requires Plain(a) && a != "" && Line(b) && |a| + 1 + |b| + 1 <= LINE_CAPACITY - 1
    ensures Line(a + "," + b) && (a + "," + b)[0] == a[0]
  {
    var s := a + "," + b;
    assert s[|s| - 1] == b[|b| - 1];
  }

  lemma EventLineIsLine(e: T.Event)
    requires EventPrintable(e) && e.address <= ULL_MAX && e.size <= ULL_MAX && e.handle <= ULL_MAX
    ensures Line(EventLine(e)) && EventLine(e)[0] != '#'
  {
    hide Dec, Hex, Plain, Line;
    DecPlain(e.sequence);
    DecPlain(e.thread);
    NamePlain(e.operation);
    HexPlain(e.address);
    DecPlain(e.size);
    HexPlain(e.handle);
    WordLengths(e.sequence);
    WordLengths(e.thread);
    WordLengths(e.address);
    WordLengths(e.size);
    WordLengths(e.handle);
    var one := "0x" + Hex(e.handle);
    PlainLine(one);
    CommaLine(Dec(e.size), one);
    var two := Dec(e.size) + "," + one;
    CommaLine("0x" + Hex(e.address), two);
    var three := "0x" + Hex(e.address) + "," + two;
    CommaLine(OperationName(e.operation), three);
    var four := OperationName(e.operation) + "," + three;
    CommaLine(Dec(e.thread), four);
    CommaLine(Dec(e.sequence), Dec(e.thread) + "," + four);
  }

  /** Scanning the event lines appends the events. */
  lemma {:induction false} EventsScan(m: T.Machine, room: nat, r: Reader, events: seq<T.Event>, n: nat)
    requires m.WordMax() <= ULL_MAX && r.magic && r.columns && |r.trace.events| + |events| <= room
    requires forall i :: 0 <= i < |events| ==> T.Typed(m, events[i]) && EventPrintable(events[i])
    ensures ScanText(m, room, r, EventText(events), n) == Done(r.(trace := r.trace.(events := r.trace.events + events)), n + |events|)
    decreases |events|
  {
    hide EventLine, ParseEvent, ReadLine, Line, ScanText, EventPrintable, T.Typed, T.Machine.WordMax;
    EventTextIs(events);
    if events == [] {
      ScanEmpty(m, room, r, n);
      assert r.trace.events + events == r.trace.events;
    } else {
      var e := events[0];
      var next := r.(trace := r.trace.(events := r.trace.events + [e]));
      EventReadsLine(m, room, r, e);
      ScanLine(m, room, r, EventLine(e), EventText(events[1..]), n, next);
      EventsScan(m, room, next, events[1..], n + 1);
      assert r.trace.events + [e] + events[1..] == r.trace.events + events;
    }
  }

  lemma ScanEmpty(m: T.Machine, room: nat, r: Reader, n: nat)
    ensures ScanText(m, room, r, "", n) == Done(r, n)
  {
  }

  lemma EventTextIs(events: seq<T.Event>)
    ensures EventText(events) == if events == [] then "" else (EventLine(events[0]) + "\n") + EventText(events[1..])
  {
  }

  lemma EventReadsLine(m: T.Machine, room: nat, r: Reader, e: T.Event)
    requires T.Typed(m, e) && EventPrintable(e) && m.WordMax() <= ULL_MAX && r.magic && r.columns && |r.trace.events| < room
    ensures Line(EventLine(e))
    ensures ReadLine(m, room, r, EventLine(e) + "\n") == Accepted(r.(trace := r.trace.(events := r.trace.events + [e])))
  {
    hide EventLine, ParseEvent, Line;
    EventLineIsLine(e);
    EventReads(m, e);
    LineTrims(EventLine(e));
  }

  lemma LineTrims(s: string)
    requires Line(s)
    ensures Trim(CString(s + "\n")) == s && s != ""
  {
    LineChunk(s, "");
  }

  /** The two sides of a header line. */
  lemma HeaderParts(name: string, v: nat)
    requires Plain(name) && name != "" && |name| <= 20 && v <= UINT_MAX
    ensures var line := name + "=" + Dec(v);
            && Line(line) && line[0] == name[0] && '=' in line
            && IndexOf(line, '=') == |name| < |line| && Trim(line[..|name|]) == name && Trim(line[|name| + 1..]) == Dec(v)
    ensures ParseUpTo(Dec(v), UINT_MAX) == Some(v)
  {
    hide Dec, ParseU64;
    var line := name + "=" + Dec(v);
    DecPlain(v);
    WordLengths(v);
    DecReads(v);
    assert line[|line| - 1] == Dec(v)[|Dec(v)| - 1];
    IndexAt(name, Dec(v), '=');
    assert line[|name|] == '=';
    assert line[..|name|] == name && line[|name| + 1..] == Dec(v);
    TrimPlain(name);
    TrimPlain(Dec(v));
  }

  lemma HeaderNames()
    ensures Plain("version") && Plain("region_shift") && Plain("granule_shift")
  {
  }

  /** A header line sets its field. */
  lemma HeaderReads(m: T.Machine, room: nat, r: Reader, name: string, v: nat, next: T.Trace)
    requires r.magic && !r.columns && v <= UINT_MAX
    requires (name == "version" && next == r.trace.(version := v)) || (name == "region_shift" && next == r.trace.(regionShift := v))
             || (name == "granule_shift" && next == r.trace.(granuleShift := v))
    ensures Line(name + "=" + Dec(v))
    ensures ReadLine(m, room, r, name + "=" + Dec(v) + "\n") == Accepted(r.(trace := next))
  {
    hide Dec, ParseUpTo, ParseEvent, Line, Trim, IndexOf, Plain;
    HeaderNames();
    HeaderParts(name, v);
    LineTrims(name + "=" + Dec(v));
  }

  lemma NoEquals(a: string, b: string)
    requires Plain(a) && '=' !in b
    ensures '=' !in a + "," + b
  {
  }

  lemma ColumnNames()
    ensures Plain("sequence") && Plain("thread") && Plain("operation") && Plain("address") && Plain("size") && Plain("handle")
    ensures '=' !in "handle"
  {
  }

  lemma MagicPlain()
    ensures Plain(MAGIC)
  {
  }

  lemma FixedLines()
    ensures Line(MAGIC) && Line(COLUMNS) && '=' !in COLUMNS && COLUMNS[0] != '#' && MAGIC[0] != '#'
  {
    hide Plain, Line;
    ColumnNames();
    MagicPlain();
    PlainLine(MAGIC);
    PlainLine("handle");
    CommaLine("size", "handle");
    var two := "size" + "," + "handle";
    NoEquals("size", "handle");
    CommaLine("address", two);
    NoEquals("address", two);
    var three := "address" + "," + two;
    CommaLine("operation", three);
    NoEquals("operation", three);
    var four := "operation" + "," + three;
    CommaLine("thread", four);
    NoEquals("thread", four);
    var five := "thread" + "," + four;
    CommaLine("sequence", five);
    NoEquals("sequence", five);
  }

  /**
   Reading undoes writing: the text of a printable trace scans back to the same version, shifts
   and events, with both fixed lines seen.
   */
  lemma RoundTrip(m: T.Machine, t: T.Trace, room: nat)
    requires T.TypedTrace(m, t) && Printable(t) && m.WordMax() <= ULL_MAX && |t.events| <= room
    ensures ScanText(m, room, StartReader(), TraceTextOf(t), 0) == Done(Reader(true, true, t), 5 + |t.events|)
  {
    hide ReadLine, ScanText, EventText, Line, Dec, Bits.Pow2;
    var body := EventText(t.events);
    var r1 := Reader(true, false, EmptyTrace());
    var r2 := r1.(trace := EmptyTrace().(version := t.version));
    var r3 := r2.(trace := r2.trace.(regionShift := t.regionShift));
    var r4 := r3.(trace := r3.trace.(granuleShift := t.granuleShift));
    var r5 := r4.(columns := true);
    var columnsText := COLUMNS + "\n";
    var granuleText := "granule_shift=" + Dec(t.granuleShift) + "\n";
    var regionText := "region_shift=" + Dec(t.regionShift) + "\n";
    var versionText := "version=" + Dec(t.version) + "\n";
    HeaderJoins(t, body, versionText, regionText, granuleText, columnsText);
    FixedReads(m, room, r4);
    FixedLines();
    ScanLine(m, room, StartReader(), MAGIC, versionText + (regionText + (granuleText + (columnsText + body))), 0, r1);
    HeaderReads(m, room, r1, "version", t.version, r2.trace);
    assert "version" + "=" == "version=";
    ScanLine(m, room, r1, "version=" + Dec(t.version), regionText + (granuleText + (columnsText + body)), 1, r2);
    HeaderReads(m, room, r2, "region_shift", t.regionShift, r3.trace);
    assert "region_shift" + "=" == "region_shift=";
    ScanLine(m, room, r2, "region_shift=" + Dec(t.regionShift), granuleText + (columnsText + body), 2, r3);
    HeaderReads(m, room, r3, "granule_shift", t.granuleShift, r4.trace);
    assert "granule_shift" + "=" == "granule_shift=";
    ScanLine(m, room, r3, "granule_shift=" + Dec(t.granuleShift), columnsText + body, 3, r4);
    ScanLine(m, room, r4, COLUMNS, body, 4, r5);
    EventsScan(m, room, r5, t.events, 5);
    assert [] + t.events == t.events;
  }

  lemma HeaderJoins(t: T.Trace, body: string, v: string, r: string, g: string, c: string)
    requires v == "version=" + Dec(t.version) + "\n" && r == "region_shift=" + Dec(t.regionShift) + "\n"
    requires g == "granule_shift=" + Dec(t.granuleShift) + "\n" && c == COLUMNS + "\n" && body == EventText(t.events)
    ensures TraceTextOf(t) == (MAGIC + "\n") + (v + (r + (g + (c + body))))
  {
    hide Dec, EventText;
    Regroup(g, c, body);
    Regroup(r, g + c, body);
    Regroup(v, r + (g + c), body);
    Regroup(MAGIC + "\n", v + (r + (g + c)), body);
  }

  lemma FixedReads(m: T.Machine, room: nat, r: Reader)
    requires r.magic && !r.columns
    ensures ReadLine(m, room, StartReader(), MAGIC + "\n") == Accepted(Reader(true, false, EmptyTrace()))
    ensures ReadLine(m, room, r, COLUMNS + "\n") == Accepted(r.(columns := true))
  {
    hide ParseEvent, HeaderLine;
    FixedLines();
    LineTrims(MAGIC);
    LineTrims(COLUMNS);
  }

  /** Every lifecycle-valid trace within limits that is written reads back as itself. */
  method WriteThenRead(m: T.Machine, t: T.Trace, hash: nat -> nat) returns (status: V.Status, again: T.Trace)
    requires m.wordLog >= 2 && m.WordMax() <= ULL_MAX && T.TypedTrace(m, t) && Printable(t)
    ensures status == V.Ok <==> T.LifecycleValid(m, t) && T.PossibleLive(t.granuleShift, t.events) <= V.MaxGranules()
    ensures status == V.Ok ==> again == t
  {
    hide T.LifecycleValid, T.PossibleLive, TraceTextOf, ScanText, Printable, T.TypedTrace, Bits.Pow2;
    again := t;
    var text;
    status, text := Write(m, t, hash, true);
    if status != V.Ok { return; }
    RoundTrip(m, t, |t.events|);
    VersionOne(m, t);
    var errorLine;
    status, again, errorLine := Read(m, text, |t.events|, hash, true);
  }

  lemma VersionOne(m: T.Machine, t: T.Trace)
    requires T.LifecycleValid(m, t)
    ensures t.version == 1
  {
  }
}
