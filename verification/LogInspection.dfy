/** The discovery of session logs: reading a JSON-lines file through a head and a tail window,
    inspecting a Copilot CLI log, and choosing the latest session. */
module LogInspection {
  import opened Options

  type Byte = b: int | 0 <= b < 256

  const LF: Byte := 10
  const CR: Byte := 13

  /** A value found under a key. `Falsy` stands for a missing key and for every value that is
      false in a condition but no string. */
  datatype Field = Text(text: string) | Falsy | OtherTruthy

  datatype Data = NotAnObject | Object(sessionId: Field, startTime: Field)

  datatype Kind = SessionShutdown | SessionStart | SessionResume | UserMessage | AssistantMessage | OtherKind

  datatype Record = Record(kind: Kind, data: Data, timestamp: Field)

  datatype Header = Header(sessionId: string, timestamp: int)

  /** Decoding one line: None when it is no JSON or no JSON object. The empty line is no JSON. */
  type Decoder = f: seq<Byte> -> Option<Record> | f([]) == None witness (line: seq<Byte>) => None

  /** Reading an ISO timestamp. */
  type Clock = string -> Option<int>

  // ---- lines ----------------------------------------------------------------------------

  predicate IsBreak(b: Byte) {
    b == LF || b == CR
  }

  /** The position of the first line break from `i` on, or the length. */
  function BreakFrom(bytes: seq<Byte>, i: nat): (n: nat)
    requires i <= |bytes|
    ensures i <= n <= |bytes|
    decreases |bytes| - i
  {
    if i < |bytes| && !IsBreak(bytes[i]) then BreakFrom(bytes, i + 1) else i
  }

  function FirstBreak(bytes: seq<Byte>): (n: nat)
    ensures n <= |bytes|
  {
    BreakFrom(bytes, 0)
  }

  lemma {:induction false} BreakFromIsFirst(bytes: seq<Byte>, i: nat)
    requires i <= |bytes|
    ensures var n := BreakFrom(bytes, i);
            (n < |bytes| ==> IsBreak(bytes[n])) && forall k :: i <= k < n ==> !IsBreak(bytes[k])
    decreases |bytes| - i
  {
    if i < |bytes| && !IsBreak(bytes[i]) {
      BreakFromIsFirst(bytes, i + 1);
    }
  }

  /** `bytes.splitlines()`: a CR directly before an LF makes one break with it, and no empty
      line follows the last break. */
  function SplitLines(bytes: seq<Byte>): seq<seq<Byte>>
    decreases |bytes|
  {
    if bytes == [] then []
    else
      var n := FirstBreak(bytes);
      if n == |bytes| then [bytes]
      else if bytes[n] == CR && n + 1 < |bytes| && bytes[n + 1] == LF
      then [bytes[..n]] + SplitLines(bytes[n + 2..])
      else [bytes[..n]] + SplitLines(bytes[n + 1..])
  }

  function One(decode: Decoder, line: seq<Byte>): seq<Record> {
    if decode(line).Some? then [decode(line).value] else []
  }

  /** The lines that decode, in order. */
  function Decoded(decode: Decoder, lines: seq<seq<Byte>>): seq<Record> {
    if lines == [] then [] else One(decode, lines[0]) + Decoded(decode, lines[1..])
  }

  function Records(decode: Decoder, bytes: seq<Byte>): seq<Record> {
    Decoded(decode, SplitLines(bytes))
  }

  // ---- the bounded reader ------------------------------------------------------------------

  function TailStart(size: nat, limit: nat): (start: nat)
    ensures start <= size
  {
    if size <= limit then 0 else size - limit
  }

  function HeadWindow(file: seq<Byte>, limit: nat): seq<Byte> {
    if |file| <= limit then file else file[..limit]
  }

  function TailWindow(file: seq<Byte>, limit: nat): seq<Byte> {
    file[TailStart(|file|, limit)..]
  }

  /** The records of the head window, then, in a file longer than the limit, those of the tail
      window: an overlap is read twice. */
  function Seen(decode: Decoder, file: seq<Byte>, limit: nat): seq<Record> {
    if |file| <= limit then Records(decode, file)
    else Records(decode, HeadWindow(file, limit)) + Records(decode, TailWindow(file, limit))
  }

  lemma {:induction false} DecodedAppend(decode: Decoder, lines: seq<seq<Byte>>, more: seq<seq<Byte>>)
    ensures Decoded(decode, lines + more) == Decoded(decode, lines) + Decoded(decode, more)
    decreases |lines|
  {
    if lines == [] {
      assert lines + more == more;
    } else {
      assert (lines + more)[1..] == lines[1..] + more;
      DecodedAppend(decode, lines[1..], more);
    }
  }

  class BoundedJsonlRecordReader {
    const byteLimit: nat

    constructor (byteLimit: nat)
      ensures this.byteLimit == byteLimit
    {
      this.byteLimit := byteLimit;
    }

    /** `read`: the two windows, line by line. */
    method Read(decode: Decoder, file: seq<Byte>) returns (records: seq<Record>)
      ensures records == Seen(decode, file, byteLimit)
    {
      var head := HeadWindow(file, byteLimit);
      var tailStart := TailStart(|file|, byteLimit);
      var tail := file[tailStart..];
      var chunks := if tailStart == 0 then [head] else [head, tail];
      records := [];
      var c := 0;
      while c < |chunks|
        invariant 0 <= c <= |chunks|
        invariant c == 0 ==> records == []
        invariant c == 1 ==> records == Records(decode, head)
        invariant c == 2 ==> records == Records(decode, head) + Records(decode, tail)
      {
        records := ReadLines(decode, SplitLines(chunks[c]), records);
        c := c + 1;
      }
    }

    /** The inner loop of `read`. */
    method ReadLines(decode: Decoder, lines: seq<seq<Byte>>, before: seq<Record>) returns (records: seq<Record>)
      ensures records == before + Decoded(decode, lines)
    {
      records := before;
      var i := 0;
      while i < |lines|
        invariant 0 <= i <= |lines|
        invariant records == before + Decoded(decode, lines[..i])
      {
        assert lines[..i + 1] == lines[..i] + [lines[i]];
        DecodedAppend(decode, lines[..i], [lines[i]]);
        var value := decode(lines[i]);
        if value.Some? {
          records := records + [value.value];
        }
        i := i + 1;
      }
      assert lines[..i] == lines;
    }
  }

  // ---- windows against the whole file ---------------------------------------------------------

  /** The records when every break byte ends a line: what CR LF adds is an empty line. */
  function Pieces(decode: Decoder, bytes: seq<Byte>): seq<Record>
    decreases |bytes|
  {
    var n := FirstBreak(bytes);
    if n == |bytes| then One(decode, bytes)
    else One(decode, bytes[..n]) + Pieces(decode, bytes[n + 1..])
  }

  /** An LF after a CR changes no record, so windows may be cut between the two. */
  lemma {:induction false} RecordsArePieces(decode: Decoder, bytes: seq<Byte>)
    ensures Records(decode, bytes) == Pieces(decode, bytes)
    decreases |bytes|
  {
    var n := FirstBreak(bytes);
    if bytes == [] {
      assert One(decode, bytes) == [];
    } else if n == |bytes| {
      assert Decoded(decode, [bytes]) == One(decode, bytes) + Decoded(decode, []);
    } else if bytes[n] == CR && n + 1 < |bytes| && bytes[n + 1] == LF {
      RecordsArePieces(decode, bytes[n + 2..]);
      var rest := bytes[n + 1..];
      assert FirstBreak(rest) == 0;
      assert rest[..0] == [] && rest[1..] == bytes[n + 2..];
      assert Pieces(decode, rest) == Pieces(decode, bytes[n + 2..]);
      DecodedFirst(decode, bytes[..n], SplitLines(bytes[n + 2..]));
    } else {
      RecordsArePieces(decode, bytes[n + 1..]);
      DecodedFirst(decode, bytes[..n], SplitLines(bytes[n + 1..]));
    }
  }

  lemma DecodedFirst(decode: Decoder, line: seq<Byte>, lines: seq<seq<Byte>>)
    ensures Decoded(decode, [line] + lines) == One(decode, line) + Decoded(decode, lines)
  {
    assert ([line] + lines)[1..] == lines;
  }

  /** What stands after the last break. */
  function LastFragment(bytes: seq<Byte>): seq<Byte>
    decreases |bytes|
  {
    var n := FirstBreak(bytes);
    if n == |bytes| then bytes else LastFragment(bytes[n + 1..])
  }

  /** What stands before the first break. */
  function FirstFragment(bytes: seq<Byte>): seq<Byte> {
    bytes[..FirstBreak(bytes)]
  }

  /** The records of the lines that end with a break. */
  function Ended(decode: Decoder, bytes: seq<Byte>): seq<Record>
    decreases |bytes|
  {
    var n := FirstBreak(bytes);
    if n == |bytes| then [] else One(decode, bytes[..n]) + Ended(decode, bytes[n + 1..])
  }

  /** The records after the first break. */
  function AfterFirst(decode: Decoder, bytes: seq<Byte>): seq<Record> {
    var n := FirstBreak(bytes);
    if n == |bytes| then [] else Pieces(decode, bytes[n + 1..])
  }

  lemma FirstBreakUnique(bytes: seq<Byte>, n: nat)
    requires n <= |bytes| && (n < |bytes| ==> IsBreak(bytes[n]))
    requires forall i :: 0 <= i < n ==> !IsBreak(bytes[i])
    ensures FirstBreak(bytes) == n
  {
    BreakFromIsFirst(bytes, 0);
    assert FirstBreak(bytes) < |bytes| ==> IsBreak(bytes[FirstBreak(bytes)]);
  }

  lemma {:induction false} PiecesByLast(decode: Decoder, bytes: seq<Byte>)
    ensures Pieces(decode, bytes) == Ended(decode, bytes) + One(decode, LastFragment(bytes))
    decreases |bytes|
  {
    var n := FirstBreak(bytes);
    if n < |bytes| {
      PiecesByLast(decode, bytes[n + 1..]);
    }
  }

  lemma PiecesByFirst(decode: Decoder, bytes: seq<Byte>)
    ensures Pieces(decode, bytes) == One(decode, FirstFragment(bytes)) + AfterFirst(decode, bytes)
  {
    if FirstBreak(bytes) == |bytes| {
      assert FirstFragment(bytes) == bytes;
    }
  }

  lemma FirstBreakOfJoin(a: seq<Byte>, b: seq<Byte>)
    ensures FirstBreak(a + b) == if FirstBreak(a) < |a| then FirstBreak(a) else |a| + FirstBreak(b)
  {
    BreakFromIsFirst(a, 0);
    BreakFromIsFirst(b, 0);
    var n := if FirstBreak(a) < |a| then FirstBreak(a) else |a| + FirstBreak(b);
    forall i | 0 <= i < n ensures !IsBreak((a + b)[i]) {
      assert (a + b)[i] == if i < |a| then a[i] else b[i - |a|];
    }
    FirstBreakUnique(a + b, n);
  }

  lemma TakeOfJoin<T>(a: seq<T>, b: seq<T>, k: nat, n: nat)
    requires k <= |b| && n == |a| + k
    ensures (a + b)[..n] == a + b[..k]
  {
  }

  lemma DropOfJoin<T>(a: seq<T>, b: seq<T>, k: nat, n: nat)
    requires k <= |b| && n == |a| + k
    ensures (a + b)[n..] == b[k..]
  {
  }

  lemma FirstOfJoin(a: seq<Byte>, b: seq<Byte>)
    requires FirstBreak(a) == |a|
    ensures FirstFragment(a + b) == a + FirstFragment(b)
  {
    FirstBreakOfJoin(a, b);
    TakeOfJoin(a, b, FirstBreak(b), FirstBreak(a + b));
  }

  lemma AfterFirstIs(decode: Decoder, bytes: seq<Byte>, n: nat, rest: seq<Byte>)
    requires n < |bytes| && FirstBreak(bytes) == n && bytes[n + 1..] == rest
    ensures AfterFirst(decode, bytes) == Pieces(decode, rest)
  {
  }

  lemma AfterFirstOfJoin(decode: Decoder, a: seq<Byte>, b: seq<Byte>, joined: seq<Byte>)
    requires joined == a + b && FirstBreak(a) == |a|
    ensures AfterFirst(decode, joined) == AfterFirst(decode, b)
  {
    var m, n := FirstBreak(b), FirstBreak(joined);
    FirstBreakOfJoin(a, b);
    if m < |b| {
      DropOfJoin(a, b, m + 1, n + 1);
      AfterFirstIs(decode, joined, n, b[m + 1..]);
    }
  }

  /** Cutting anywhere only splits the line that the cut falls in. */
  lemma {:induction false} PiecesOfJoin(decode: Decoder, a: seq<Byte>, b: seq<Byte>, joined: seq<Byte>)
    requires joined == a + b
    ensures Pieces(decode, joined)
         == Ended(decode, a) + (One(decode, LastFragment(a) + FirstFragment(b)) + AfterFirst(decode, b))
    decreases |a|
  {
    var n := FirstBreak(a);
    if n == |a| {
      PiecesByFirst(decode, joined);
      FirstOfJoin(a, b);
      AfterFirstOfJoin(decode, a, b, joined);
    } else {
      FirstBreakOfJoin(a, b);
      assert joined[..n] == a[..n];
      PiecesOfJoin(decode, a[n + 1..], b, joined[n + 1..]);
    }
  }

  /** The line that the cut falls in: harmless for the part before the cut when that part of
      the line does not decode, or is the whole line. */
  predicate HeadCutHarmless(decode: Decoder, a: seq<Byte>, b: seq<Byte>) {
    decode(LastFragment(a)).None? || FirstFragment(b) == []
  }

  predicate TailCutHarmless(decode: Decoder, a: seq<Byte>, b: seq<Byte>) {
    decode(FirstFragment(b)).None? || LastFragment(a) == []
  }

  predicate IsSuffix<T(==)>(s: seq<T>, whole: seq<T>) {
    |s| <= |whole| && whole[|whole| - |s|..] == s
  }

  lemma SuffixOfSum<T>(front: seq<T>, middle: seq<T>, s: seq<T>)
    ensures IsSuffix(s, front + (middle + s))
    ensures IsSuffix(middle + s, front + (middle + s))
  {
  }

  /** The head's records are a prefix of the file's records. */
  lemma HeadRecords(decode: Decoder, a: seq<Byte>, b: seq<Byte>)
    requires HeadCutHarmless(decode, a, b)
    ensures Records(decode, a) <= Records(decode, a + b)
  {
    RecordsArePieces(decode, a);
    RecordsArePieces(decode, a + b);
    PiecesByLast(decode, a);
    PiecesOfJoin(decode, a, b, a + b);
    if FirstFragment(b) == [] {
      assert LastFragment(a) + FirstFragment(b) == LastFragment(a);
    } else {
      assert One(decode, LastFragment(a)) == [];
    }
  }

  /** The tail's records are a suffix of the file's records. */
  lemma TailRecords(decode: Decoder, a: seq<Byte>, b: seq<Byte>)
    requires TailCutHarmless(decode, a, b)
    ensures IsSuffix(Records(decode, b), Records(decode, a + b))
  {
    RecordsArePieces(decode, b);
    RecordsArePieces(decode, a + b);
    TailPieces(decode, a, b);
  }

  lemma TailPieces(decode: Decoder, a: seq<Byte>, b: seq<Byte>)
    requires TailCutHarmless(decode, a, b)
    ensures IsSuffix(Pieces(decode, b), Pieces(decode, a + b))
  {
    PiecesByFirst(decode, b);
    PiecesOfJoin(decode, a, b, a + b);
    var cut := One(decode, LastFragment(a) + FirstFragment(b));
    SuffixOfSum(Ended(decode, a), cut, AfterFirst(decode, b));
    if LastFragment(a) == [] {
      assert LastFragment(a) + FirstFragment(b) == FirstFragment(b);
    } else {
      assert One(decode, FirstFragment(b)) == [];
      assert [] + AfterFirst(decode, b) == AfterFirst(decode, b);
    }
  }

  // ---- inspecting a Copilot CLI log --------------------------------------------------------------

  predicate Lifecycle(kind: Kind) {
    kind != OtherKind
  }

  predicate Opens(kind: Kind) {
    kind == SessionStart || kind == SessionResume
  }

  predicate Truthy(f: Field) {
    f.OtherTruthy? || (f.Text? && f.text != "")
  }

  /** `_header` over `data.startTime or record.timestamp`. */
  function HeaderOf(clock: Clock, r: Record): Option<Header> {
    if r.data.NotAnObject? then None
    else
      var session := r.data.sessionId;
      var time := if Truthy(r.data.startTime) then r.data.startTime else r.timestamp;
      if !(session.Text? && session.text != "") then None
      else if !(time.Text? && time.text != "") then None
      else match clock(time.text)
           case None => None
           case Some(t) => Some(Header(session.text, t))
  }

  /** Every start and resume record carries an object. */
  predicate OpensCarryObjects(records: seq<Record>) {
    forall r :: r in records && Opens(r.kind) ==> r.data.Object?
  }

  /** The header of the first start or resume record that has a valid one. */
  function FirstHeader(clock: Clock, records: seq<Record>): Option<Header> {
    if records == [] then None
    else if Opens(records[0].kind) && HeaderOf(clock, records[0]).Some? then HeaderOf(clock, records[0])
    else FirstHeader(clock, records[1..])
  }

  /** The last lifecycle record is a shutdown. */
  predicate Terminal(records: seq<Record>) {
    if records == [] then false
    else
      var last := records[|records| - 1];
      if Lifecycle(last.kind) then last.kind.SessionShutdown? else Terminal(records[..|records| - 1])
  }

  datatype Inspected = Inspected(sessionId: string, timestamp: int, terminal: bool)

  function Inspection(clock: Clock, records: seq<Record>): Option<Inspected> {
    if !OpensCarryObjects(records) then None
    else match FirstHeader(clock, records)
         case None => None
         case Some(h) => Some(Inspected(h.sessionId, h.timestamp, Terminal(records)))
  }

  lemma {:induction false} FirstHeaderAppend(clock: Clock, records: seq<Record>, more: seq<Record>)
    ensures FirstHeader(clock, records + more)
         == if FirstHeader(clock, records).Some? then FirstHeader(clock, records) else FirstHeader(clock, more)
    decreases |records|
  {
    if records == [] {
      assert records + more == more;
    } else {
      assert (records + more)[1..] == records[1..] + more;
      FirstHeaderAppend(clock, records[1..], more);
    }
  }

  predicate HasLifecycle(records: seq<Record>) {
    exists r :: r in records && Lifecycle(r.kind)
  }

  lemma {:induction false} TerminalAppend(records: seq<Record>, more: seq<Record>)
    ensures Terminal(records + more) == if HasLifecycle(more) then Terminal(more) else Terminal(records)
    decreases |more|
  {
    if more == [] {
      assert records + more == records;
    } else {
      var last := more[|more| - 1];
      var init := more[..|more| - 1];
      assert (records + more)[..|records + more| - 1] == records + init;
      TerminalAppend(records, init);
      assert last in more;
      forall r | r in init ensures r in more {
      }
      if !Lifecycle(last.kind) && HasLifecycle(more) {
        var r :| r in more && Lifecycle(r.kind);
        assert r in init;
      }
    }
  }

  class CopilotCliAdapter {
    const reader: BoundedJsonlRecordReader

    constructor (reader: BoundedJsonlRecordReader)
      ensures this.reader == reader
    {
      this.reader := reader;
    }

    /** `inspect`: the first valid header, and whether the last lifecycle record seen is a
        shutdown; None once a start or resume record carries no object. */
    method Inspect(decode: Decoder, clock: Clock, file: seq<Byte>) returns (result: Option<Inspected>)
      ensures result == Inspection(clock, Seen(decode, file, reader.byteLimit))
    {
      var records := reader.Read(decode, file);
      var terminal := false;
      var header: Option<Header> := None;
      var i := 0;
      while i < |records|
        invariant 0 <= i <= |records|
        invariant OpensCarryObjects(records[..i])
        invariant header == FirstHeader(clock, records[..i])
        invariant terminal == Terminal(records[..i])
      {
        var record := records[i];
        assert records[..i + 1] == records[..i] + [record];
        assert record in records;
        FirstHeaderAppend(clock, records[..i], [record]);
        TerminalAppend(records[..i], [record]);
        OneRecord(clock, record);
        i := i + 1;
        if record.kind.SessionShutdown? {
          terminal := true;
          continue;
        }
        if Opens(record.kind) || record.kind.UserMessage? || record.kind.AssistantMessage? {
          terminal := false;
        }
        if !Opens(record.kind) {
          continue;
        }
        if record.data.NotAnObject? {
          return None;
        }
        var parsed := HeaderOf(clock, record);
        if header.None? && parsed.Some? {
          header := parsed;
        }
      }
      assert records[..i] == records;
      result := if header.None? then None
                else Some(Inspected(header.value.sessionId, header.value.timestamp, terminal));
    }
  }

  lemma OneRecord(clock: Clock, record: Record)
    ensures HasLifecycle([record]) <==> Lifecycle(record.kind)
    ensures Lifecycle(record.kind) ==> (Terminal([record]) <==> record.kind.SessionShutdown?)
    ensures FirstHeader(clock, [record]) == if Opens(record.kind) then HeaderOf(clock, record) else None
  {
    assert record in [record];
    assert [record][1..] == [];
  }

  // ---- the bounded inspection against the whole log ----------------------------------------------

  /** The inspection without windows. */
  function WholeInspection(decode: Decoder, clock: Clock, file: seq<Byte>): Option<Inspected> {
    Inspection(clock, Records(decode, file))
  }

  /** Neither window is cut inside a line whose visible part still decodes. */
  predicate CutsHarmless(decode: Decoder, file: seq<Byte>, limit: nat) {
    |file| > limit ==>
      && HeadCutHarmless(decode, file[..limit], file[limit..])
      && TailCutHarmless(decode, file[..|file| - limit], file[|file| - limit..])
  }

  lemma WindowsAreEnds(decode: Decoder, file: seq<Byte>, limit: nat)
    requires CutsHarmless(decode, file, limit) && |file| > limit
    ensures Records(decode, HeadWindow(file, limit)) <= Records(decode, file)
    ensures IsSuffix(Records(decode, TailWindow(file, limit)), Records(decode, file))
  {
    var cut := |file| - limit;
    assert file[..limit] + file[limit..] == file;
    assert file[..cut] + file[cut..] == file;
    HeadRecords(decode, file[..limit], file[limit..]);
    TailRecords(decode, file[..cut], file[cut..]);
  }

  /** The records that neither window shows. */
  function Between(all: seq<Record>, head: seq<Record>, tail: seq<Record>): seq<Record> {
    if |head| + |tail| <= |all| then all[|head|..|all| - |tail|] else []
  }

  /** The hidden records do not change the state that the head shows. */
  predicate LeavesState(head: seq<Record>, hidden: seq<Record>) {
    HasLifecycle(hidden) ==> Terminal(hidden) == Terminal(head)
  }

  /** When every start and resume record carries an object and the head window holds a valid
      header, the two windows, overlapping or not, show the session, time and state of the
      whole log, provided the tail window holds a lifecycle record; without one, exactly when
      the records between the windows leave the state as it was. */
  lemma BoundedInspectionIsWhole(decode: Decoder, clock: Clock, file: seq<Byte>, limit: nat)
    requires CutsHarmless(decode, file, limit)
    requires OpensCarryObjects(Records(decode, file))
    requires FirstHeader(clock, Records(decode, HeadWindow(file, limit))).Some?
    ensures WholeInspection(decode, clock, file).Some?
    ensures
      var all, head := Records(decode, file), Records(decode, HeadWindow(file, limit));
      var tail := Records(decode, TailWindow(file, limit));
      Inspection(clock, Seen(decode, file, limit)) == WholeInspection(decode, clock, file)
      <==> |file| <= limit || HasLifecycle(tail) || LeavesState(head, Between(all, head, tail))
  {
    if |file| > limit {
      WindowsAreEnds(decode, file, limit);
      var head := Records(decode, HeadWindow(file, limit));
      var tail := Records(decode, TailWindow(file, limit));
      EndsDecide(clock, Records(decode, file), head, tail);
    }
  }

  lemma EndsDecide(clock: Clock, all: seq<Record>, head: seq<Record>, tail: seq<Record>)
    requires head <= all && IsSuffix(tail, all)
    requires OpensCarryObjects(all) && FirstHeader(clock, head).Some?
    ensures Inspection(clock, all).Some? && Inspection(clock, head + tail).Some?
    ensures Inspection(clock, head + tail) == Inspection(clock, all)
        <==> HasLifecycle(tail) || LeavesState(head, Between(all, head, tail))
  {
    var rest := all[|head|..];
    var front := all[..|all| - |tail|];
    assert all == head + rest && all == front + tail;
    FirstHeaderAppend(clock, head, rest);
    FirstHeaderAppend(clock, head, tail);
    TerminalAppend(front, tail);
    TerminalAppend(head, tail);
    TerminalAppend(head, rest);
    if !HasLifecycle(tail) {
      HiddenDecides(all, head, tail);
    }
  }

  /** With no lifecycle record in the tail, what stands after the head is decided by the records
      between the windows. */
  lemma HiddenDecides(all: seq<Record>, head: seq<Record>, tail: seq<Record>)
    requires head <= all && IsSuffix(tail, all) && !HasLifecycle(tail)
    ensures
      var rest, hidden := all[|head|..], Between(all, head, tail);
      && (HasLifecycle(rest) <==> HasLifecycle(hidden))
      && Terminal(rest) == Terminal(hidden)
  {
    var rest, hidden := all[|head|..], Between(all, head, tail);
    if |head| + |tail| <= |all| {
      assert rest == hidden + tail;
      TerminalAppend(hidden, tail);
      assert forall r :: r in rest <==> r in hidden || r in tail;
    } else {
      assert forall r :: r in rest ==> r in tail by {
        assert rest == tail[|head| + |tail| - |all|..];
      }
      NoLifecycleIsOpen(rest);
    }
  }

  lemma NoLifecycleIsOpen(records: seq<Record>)
    requires !HasLifecycle(records)
    ensures !Terminal(records)
  {
    assert [] + records == records;
    TerminalAppend([], records);
  }

  // ---- a shutdown that neither window shows --------------------------------------------------------

  predicate IsLine(line: seq<Byte>) {
    line != [] && forall i :: 0 <= i < |line| ==> !IsBreak(line[i])
  }

  /** Without a lifecycle record in the tail window a session that was shut down in between is
      reported as still open, whatever the lines look like. */
  lemma UnseenShutdown(
      decode: Decoder, clock: Clock, line1: seq<Byte>, line2: seq<Byte>, line3: seq<Byte>, start: Record)
    requires IsLine(line1) && IsLine(line2) && IsLine(line3) && |line1| == |line3|
    requires decode(line1) == Some(start) && start.kind == SessionStart && HeaderOf(clock, start).Some?
    requires decode(line2) == Some(Record(SessionShutdown, NotAnObject, Falsy))
    requires decode(line3) == Some(Record(OtherKind, NotAnObject, Falsy))
    ensures var file, limit := line1 + [LF] + (line2 + [LF] + (line3 + [LF])), |line1| + 1;
            && CutsHarmless(decode, file, limit)
            && WholeInspection(decode, clock, file).Some? && WholeInspection(decode, clock, file).value.terminal
            && Inspection(clock, Seen(decode, file, limit)).Some?
            && !Inspection(clock, Seen(decode, file, limit)).value.terminal
  {
    var shutdown := Record(SessionShutdown, NotAnObject, Falsy);
    var other := Record(OtherKind, NotAnObject, Falsy);
    ThreeLines(decode, line1, line2, line3);
    ThreeLinesCut(decode, line1, line2, line3);
    HiddenShutdown(clock, start, shutdown, other);
  }

  lemma HiddenShutdown(clock: Clock, start: Record, shutdown: Record, other: Record)
    requires start.kind == SessionStart && HeaderOf(clock, start).Some?
    requires shutdown.kind == SessionShutdown && other.kind == OtherKind
    ensures var seen := Inspection(clock, [start] + [other]);
            var whole := Inspection(clock, [start] + ([shutdown] + [other]));
            seen.Some? && whole.Some? && whole.value.terminal && !seen.value.terminal
  {
    OneRecord(clock, start);
    OneRecord(clock, shutdown);
    OneRecord(clock, other);
    FirstHeaderAppend(clock, [start], [shutdown] + [other]);
    FirstHeaderAppend(clock, [start], [other]);
    TerminalAppend([shutdown], [other]);
    TerminalAppend([start], [shutdown] + [other]);
    TerminalAppend([start], [other]);
    assert shutdown in [shutdown] + [other];
  }

  lemma ThreeLines(decode: Decoder, line1: seq<Byte>, line2: seq<Byte>, line3: seq<Byte>)
    requires IsLine(line1) && IsLine(line2) && IsLine(line3)
    ensures Records(decode, line3 + [LF]) == One(decode, line3)
    ensures Records(decode, line1 + [LF]) == One(decode, line1)
    ensures Records(decode, line1 + [LF] + (line2 + [LF] + (line3 + [LF])))
         == One(decode, line1) + (One(decode, line2) + One(decode, line3))
  {
    assert line3 + [LF] == line3 + [LF] + [] && line1 + [LF] == line1 + [LF] + [];
    LineThenRest(decode, line3, []);
    LineThenRest(decode, line1, []);
    LineThenRest(decode, line2, line3 + [LF]);
    LineThenRest(decode, line1, line2 + [LF] + (line3 + [LF]));
  }

  lemma ThreeLinesCut(decode: Decoder, line1: seq<Byte>, line2: seq<Byte>, line3: seq<Byte>)
    requires |line1| == |line3|
    ensures var file, limit := line1 + [LF] + (line2 + [LF] + (line3 + [LF])), |line1| + 1;
            && CutsHarmless(decode, file, limit)
            && Seen(decode, file, limit) == Records(decode, line1 + [LF]) + Records(decode, line3 + [LF])
  {
    var file, limit := line1 + [LF] + (line2 + [LF] + (line3 + [LF])), |line1| + 1;
    assert file[..limit] == line1 + [LF];
    assert file[..|file| - limit] == (line1 + [LF] + line2) + [LF];
    assert file[|file| - limit..] == line3 + [LF];
    EndsWithBreak(line1);
    EndsWithBreak(line1 + [LF] + line2);
  }

  /** After a break no fragment is left. */
  lemma {:induction false} EndsWithBreak(bytes: seq<Byte>)
    ensures LastFragment(bytes + [LF]) == []
    decreases |bytes|
  {
    FirstBreakOfJoin(bytes, [LF]);
    var n := FirstBreak(bytes);
    if n < |bytes| {
      assert (bytes + [LF])[n + 1..] == bytes[n + 1..] + [LF];
      EndsWithBreak(bytes[n + 1..]);
    }
  }

  lemma LineThenRest(decode: Decoder, line: seq<Byte>, rest: seq<Byte>)
    requires IsLine(line)
    ensures Records(decode, line + [LF] + rest) == One(decode, line) + Records(decode, rest)
  {
    var bytes := line + [LF] + rest;
    forall i | 0 <= i < |line| ensures !IsBreak(bytes[i]) {
      assert bytes[i] == line[i];
    }
    FirstBreakUnique(bytes, |line|);
    assert bytes[..|line|] == line && bytes[|line| + 1..] == rest;
    DecodedFirst(decode, line, SplitLines(rest));
  }
}
