/** What reading and inspecting a log mean, without the loops: lines read back from a text that was
    put together from lines, the records that a bounded reader sees, and what the inspection reports. */
module LogReading {
  import opened Options
  import opened LogInspection

  // ---- lines read back ---------------------------------------------------------------------------

  /** A line with the break that ends it. */
  datatype EndedLine = EndedLine(line: seq<Byte>, end: seq<Byte>)

  predicate IsEnd(end: seq<Byte>) {
    end == [10] || end == [13] || end == [13, 10]
  }

  predicate Unbroken(line: seq<Byte>) {
    forall i :: 0 <= i < |line| ==> line[i] != 10 && line[i] != 13
  }

  /** The lines one after the other, and then a line without an end. */
  function Together(lines: seq<EndedLine>, rest: seq<Byte>): seq<Byte> {
    if lines == [] then rest else lines[0].line + (lines[0].end + Together(lines[1..], rest))
  }

  /** Lines hold no break, each end is one, and an end CR is not followed by an LF, which would belong
      to it. */
  predicate WellEnded(lines: seq<EndedLine>, rest: seq<Byte>)
    decreases |lines|
  {
    Unbroken(rest)
    && (lines == []
        || (&& Unbroken(lines[0].line) && IsEnd(lines[0].end) && WellEnded(lines[1..], rest)
            && (lines[0].end == [13] ==>
                  Together(lines[1..], rest) == [] || Together(lines[1..], rest)[0] != 10)))
  }

  function Lines(lines: seq<EndedLine>): seq<seq<Byte>> {
    if lines == [] then [] else [lines[0].line] + Lines(lines[1..])
  }

  lemma SplitFirst(line: seq<Byte>, end: seq<Byte>, more: seq<Byte>, whole: seq<Byte>)
    requires Unbroken(line) && IsEnd(end) && (end == [13] ==> more == [] || more[0] != 10)
    requires whole == line + (end + more)
    ensures SplitLines(whole) == [line] + SplitLines(more)
  {
    var n := |line|;
    assert whole[n] == end[0] && forall i :: 0 <= i < n ==> whole[i] == line[i];
    FirstBreakUnique(whole, n);
    assert whole[..n] == line;
    if |end| == 2 {
      assert whole[n + 1] == 10 && whole[n + 2..] == more;
    } else {
      assert whole[n + 1..] == more;
      if n + 1 < |whole| {
        assert whole[n + 1] == more[0];
      }
    }
  }

  /** Lines that were put together, with any ends, are read back one by one; what stands after the last
      end is a line of its own unless it is empty. */
  lemma {:induction false} LinesAreReadBack(lines: seq<EndedLine>, rest: seq<Byte>)
    requires WellEnded(lines, rest)
    ensures SplitLines(Together(lines, rest)) == Lines(lines) + if rest == [] then [] else [rest]
    decreases |lines|
  {
    if lines == [] {
      if rest != [] {
        FirstBreakUnique(rest, |rest|);
      }
    } else {
      LinesAreReadBack(lines[1..], rest);
      SplitFirst(lines[0].line, lines[0].end, Together(lines[1..], rest), Together(lines, rest));
    }
  }

  // ---- records -----------------------------------------------------------------------------------

  /** The records of some lines are those of the lines that decode, in order. */
  lemma {:induction false} DecodedSplit(decode: Decoder, lines: seq<seq<Byte>>, k: nat)
    requires k < |lines|
    ensures
      Decoded(decode, lines)
      == Decoded(decode, lines[..k])
         + ((if decode(lines[k]).Some? then [decode(lines[k]).value] else []) + Decoded(decode, lines[k + 1..]))
  {
    assert lines == lines[..k] + ([lines[k]] + lines[k + 1..]);
    DecodedAppend(decode, lines[..k], [lines[k]] + lines[k + 1..]);
    DecodedFirst(decode, lines[k], lines[k + 1..]);
  }

  /** A log within the limit is read whole, a longer one at both ends. */
  lemma SeenIs(decode: Decoder, file: seq<Byte>, limit: nat)
    ensures |file| <= limit ==> Seen(decode, file, limit) == Records(decode, file)
    ensures |file| > limit ==>
              Seen(decode, file, limit) == Records(decode, file[..limit]) + Records(decode, file[|file| - limit..])
  {
  }

  // ---- the inspection ----------------------------------------------------------------------------

  /** The record is one of a running session. */
  predicate Running(r: Record) {
    r.kind == SessionStart || r.kind == SessionResume || r.kind == UserMessage || r.kind == AssistantMessage
  }

  /** A shutdown with no record of a running session after it. */
  predicate OverAt(records: seq<Record>, i: nat) {
    i < |records| && records[i].kind == SessionShutdown && forall j :: i < j < |records| ==> !Running(records[j])
  }

  ghost predicate Over(records: seq<Record>) {
    exists i :: OverAt(records, i)
  }

  /** A session is reported as over exactly when there is one. */
  lemma {:induction false} TerminalIff(records: seq<Record>)
    ensures Terminal(records) <==> Over(records)
    decreases |records|
  {
    if records != [] {
      var last := records[|records| - 1];
      TerminalIff(records[..|records| - 1]);
      if last.kind == SessionShutdown {
        assert OverAt(records, |records| - 1);
      } else if !Running(last) {
        OverWithoutLast(records);
      }
    }
  }

  lemma OverWithoutLast(records: seq<Record>)
    requires records != [] && !Running(records[|records| - 1]) && records[|records| - 1].kind != SessionShutdown
    ensures Over(records) <==> Over(records[..|records| - 1])
  {
    var front := records[..|records| - 1];
    if i: nat :| OverAt(records, i) {
      assert OverAt(front, i);
    }
    if i: nat :| OverAt(front, i) {
      forall j | i < j < |records| ensures !Running(records[j]) {
        if j < |front| {
          assert front[j] == records[j];
        }
      }
      assert OverAt(records, i);
    }
  }

  /** The start time of a record: its data's when that is there, else the record's own. */
  function StartOf(r: Record): Field
    requires r.data.Object?
  {
    match r.data.startTime
    case Text(text) => if text != "" then r.data.startTime else r.timestamp
    case OtherTruthy => r.data.startTime
    case Falsy => r.timestamp
  }

  /** A record gives a header exactly when it carries an object with a session id, and a start time that
      the clock can read. */
  lemma HeaderIff(clock: Clock, r: Record, session: string, time: int)
    ensures HeaderOf(clock, r) == Some(Header(session, time))
       <==> && r.data.Object? && r.data.sessionId == Field.Text(session) && session != ""
            && StartOf(r).Text? && StartOf(r).text != "" && clock(StartOf(r).text) == Some(time)
  {
  }

  /** The header reported is that of the first start or resume record that gives one. */
  lemma {:induction false} FirstHeaderIff(clock: Clock, records: seq<Record>, h: Header)
    ensures FirstHeader(clock, records) == Some(h)
       <==> exists i :: FirstAt(clock, records, i, h)
    decreases |records|
  {
    if records != [] {
      FirstHeaderIff(clock, records[1..], h);
      if GivesHeader(clock, records[0]) {
        FirstIsFirst(clock, records, h);
      } else {
        FirstIsLater(clock, records, h);
      }
    }
  }

  predicate GivesHeader(clock: Clock, r: Record) {
    (r.kind == SessionStart || r.kind == SessionResume) && HeaderOf(clock, r).Some?
  }

  predicate FirstAt(clock: Clock, records: seq<Record>, i: nat, h: Header) {
    i < |records| && GivesHeader(clock, records[i]) && HeaderOf(clock, records[i]) == Some(h)
    && forall j :: 0 <= j < i ==> !GivesHeader(clock, records[j])
  }

  lemma FirstIsFirst(clock: Clock, records: seq<Record>, h: Header)
    requires records != [] && GivesHeader(clock, records[0])
    ensures (exists i :: FirstAt(clock, records, i, h)) <==> HeaderOf(clock, records[0]) == Some(h)
  {
    if HeaderOf(clock, records[0]) == Some(h) {
      assert FirstAt(clock, records, 0, h);
    }
    forall i: nat | FirstAt(clock, records, i, h) ensures i == 0 {
      assert !(0 < i);
    }
  }

  lemma FirstIsLater(clock: Clock, records: seq<Record>, h: Header)
    requires records != [] && !GivesHeader(clock, records[0])
    ensures (exists i :: FirstAt(clock, records, i, h)) <==> exists i :: FirstAt(clock, records[1..], i, h)
  {
    if i: nat :| FirstAt(clock, records, i, h) {
      assert i > 0 && records[1..][i - 1] == records[i];
      assert forall j :: 0 <= j < i - 1 ==> records[1..][j] == records[j + 1];
      assert FirstAt(clock, records[1..], i - 1, h);
    }
    if i: nat :| FirstAt(clock, records[1..], i, h) {
      forall j | 0 <= j < i + 1 ensures !GivesHeader(clock, records[j]) {
        if j > 0 {
          assert records[1..][j - 1] == records[j];
        }
      }
      assert FirstAt(clock, records, i + 1, h);
    }
  }

  /** The inspection reports that header with whether the session is over, unless a start or resume
      record carries no object. */
  lemma InspectionIff(clock: Clock, records: seq<Record>, session: string, time: int, over: bool)
    ensures Inspection(clock, records) == Some(Inspected(session, time, over))
       <==> && (forall r :: r in records && (r.kind == SessionStart || r.kind == SessionResume) ==> r.data.Object?)
            && (exists i :: FirstAt(clock, records, i, Header(session, time)))
            && (over <==> Over(records))
  {
    FirstHeaderIff(clock, records, Header(session, time));
    TerminalIff(records);
  }
}
