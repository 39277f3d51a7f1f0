/** Prose blocks are the maximal runs of non-blank lines. A file is accepted when each
    block and the sum over its blocks stay within the complexity limits. */
module ProseBlocks {
  import opened BracketWork

  const MAX_WORK_PER_BLOCK := 1_000_000
  const MAX_WORK_PER_FILE := 2_000_000

  /** The characters that Python's `strip` removes. */
  predicate IsSpace(c: char) {
    var code := c as int;
    || 0x09 <= code <= 0x0D || 0x1C <= code <= 0x20 || code == 0x85 || code == 0xA0
    || code == 0x1680 || 0x2000 <= code <= 0x200A || code == 0x2028 || code == 0x2029
    || code == 0x202F || code == 0x205F || code == 0x3000
  }

  predicate Blank(line: string) {
    forall i :: 0 <= i < |line| ==> IsSpace(line[i])
  }

  function Join(lines: seq<string>): string {
    if lines == [] then ""
    else if |lines| == 1 then lines[0]
    else Join(lines[..|lines| - 1]) + "\n" + lines[|lines| - 1]
  }

  /** Lines lo, ..., hi - 1. */
  datatype Run = Run(lo: nat, hi: nat)

  datatype Block = Block(startLine: nat, text: string)

  predicate Within(lines: seq<string>, run: Run) {
    run.lo < run.hi <= |lines|
  }

  function BlockOf(lines: seq<string>, run: Run): Block
    requires Within(lines, run)
  {
    Block(run.lo + 1, Join(lines[run.lo..run.hi]))
  }

  /** A run that no blank line interrupts and that cannot be made longer. */
  ghost predicate Maximal(lines: seq<string>, run: Run) {
    && Within(lines, run)
    && (forall k :: run.lo <= k < run.hi ==> !Blank(lines[k]))
    && (run.lo > 0 ==> Blank(lines[run.lo - 1]))
    && (run.hi < |lines| ==> Blank(lines[run.hi]))
  }

  // ---- grouping ----------------------------------------------------------------------------

  /** The runs closed so far and the first line of the open one; no run is open when
      `open` is the number of lines read. */
  datatype Scan = Scan(done: seq<Run>, open: nat)

  function ScanOf(lines: seq<string>): (scan: Scan)
    ensures scan.open <= |lines|
    ensures forall i :: 0 <= i < |scan.done| ==> Within(lines, scan.done[i])
  {
    if lines == [] then Scan([], 0)
    else
      var n := |lines| - 1;
      var before := ScanOf(lines[..n]);
      if Blank(lines[n]) then Scan(if before.open < n then before.done + [Run(before.open, n)] else before.done, n + 1)
      else before
  }

  function Runs(lines: seq<string>): (runs: seq<Run>)
    ensures forall i :: 0 <= i < |runs| ==> Within(lines, runs[i])
  {
    var scan := ScanOf(lines);
    if scan.open < |lines| then scan.done + [Run(scan.open, |lines|)] else scan.done
  }

  lemma ScanNext(lines: seq<string>, i: nat)
    requires i < |lines|
    ensures ScanOf(lines[..i + 1])
         == var before := ScanOf(lines[..i]);
            if !Blank(lines[i]) then before
            else Scan(if before.open < i then before.done + [Run(before.open, i)] else before.done, i + 1)
  {
    assert lines[..i + 1][..i] == lines[..i];
  }

  /** The closed runs, as blocks. */
  predicate AreBlocksOf(lines: seq<string>, runs: seq<Run>, blocks: seq<Block>) {
    |blocks| == |runs| && forall k :: 0 <= k < |runs| ==> Within(lines, runs[k]) && blocks[k] == BlockOf(lines, runs[k])
  }

  lemma OneMoreBlock(lines: seq<string>, runs: seq<Run>, blocks: seq<Block>, run: Run)
    requires AreBlocksOf(lines, runs, blocks) && Within(lines, run)
    ensures AreBlocksOf(lines, runs + [run], blocks + [BlockOf(lines, run)])
  {
  }

  method MarkdownProseBlocks(lines: seq<string>) returns (blocks: seq<Block>)
    ensures AreBlocksOf(lines, Runs(lines), blocks)
  {
    blocks := [];
    var blockLines: seq<string> := [];
    var blockStart := 1;
    ghost var scan := Scan([], 0);
    var i := 0;
    while i < |lines|
      invariant 0 <= i <= |lines|
      invariant scan == ScanOf(lines[..i]) && scan.open <= i
      invariant AreBlocksOf(lines, scan.done, blocks)
      invariant blockLines == lines[scan.open..i]
      invariant blockLines != [] ==> blockStart == scan.open + 1
    {
      ScanNext(lines, i);
      if Blank(lines[i]) {
        if blockLines != [] {
          OneMoreBlock(lines, scan.done, blocks, Run(scan.open, i));
          blocks := blocks + [Block(blockStart, Join(blockLines))];
          blockLines := [];
          scan := Scan(scan.done + [Run(scan.open, i)], i + 1);
        } else {
          scan := Scan(scan.done, i + 1);
        }
      } else {
        if blockLines == [] {
          blockStart := i + 1;
        }
        assert lines[scan.open..i + 1] == lines[scan.open..i] + [lines[i]];
        blockLines := blockLines + [lines[i]];
      }
      i := i + 1;
    }
    assert lines[..i] == lines;
    if blockLines != [] {
      OneMoreBlock(lines, scan.done, blocks, Run(scan.open, i));
      blocks := blocks + [Block(blockStart, Join(blockLines))];
    }
  }

  // ---- the blocks are exactly the maximal runs ------------------------------------------------

  ghost predicate ScanOk(lines: seq<string>, scan: Scan) {
    && scan.open <= |lines|
    && (forall i :: 0 <= i < |scan.done| ==> Maximal(lines, scan.done[i]) && scan.done[i].hi < |lines|)
    && (forall i :: 0 <= i < |scan.done| ==> scan.done[i].hi < scan.open)
    && (forall i, j :: 0 <= i < j < |scan.done| ==> scan.done[i].hi < scan.done[j].lo)
    && (forall k :: scan.open <= k < |lines| ==> !Blank(lines[k]))
    && (scan.open > 0 ==> Blank(lines[scan.open - 1]))
    && (forall k :: 0 <= k < scan.open && !Blank(lines[k]) ==> InSome(scan.done, k))
  }

  predicate InSome(runs: seq<Run>, k: nat) {
    exists i :: 0 <= i < |runs| && runs[i].lo <= k < runs[i].hi
  }

  lemma MaximalStays(front: seq<string>, last: string, run: Run)
    requires Maximal(front, run) && run.hi < |front|
    ensures Maximal(front + [last], run)
  {
  }

  lemma InSomeStays(runs: seq<Run>, more: Run, k: nat)
    requires InSome(runs, k)
    ensures InSome(runs + [more], k)
  {
    var i :| 0 <= i < |runs| && runs[i].lo <= k < runs[i].hi;
    assert (runs + [more])[i] == runs[i];
  }

  lemma {:induction false} ScanIsOk(lines: seq<string>)
    ensures ScanOk(lines, ScanOf(lines))
    decreases |lines|
  {
    if lines != [] {
      var n := |lines| - 1;
      ScanIsOk(lines[..n]);
      assert lines == lines[..n] + [lines[n]];
      ScanStep(lines[..n], lines[n]);
    }
  }

  lemma ClosingCovers(front: seq<string>, scan: Scan, closed: Run)
    requires ScanOk(front, scan) && closed == Run(scan.open, |front|)
    ensures forall k :: 0 <= k < |front| && !Blank(front[k]) ==> InSome(scan.done + [closed], k)
  {
    forall k | 0 <= k < |front| && !Blank(front[k]) ensures InSome(scan.done + [closed], k) {
      if k < scan.open {
        InSomeStays(scan.done, closed, k);
      } else {
        assert (scan.done + [closed])[|scan.done|] == closed;
      }
    }
  }

  lemma DoneStays(front: seq<string>, last: string, scan: Scan)
    requires ScanOk(front, scan)
    ensures forall i :: 0 <= i < |scan.done| ==> Maximal(front + [last], scan.done[i])
  {
    forall i | 0 <= i < |scan.done| ensures Maximal(front + [last], scan.done[i]) {
      MaximalStays(front, last, scan.done[i]);
    }
  }

  lemma OpenRunGrows(front: seq<string>, last: string, scan: Scan)
    requires ScanOk(front, scan) && !Blank(last)
    ensures ScanOk(front + [last], scan)
  {
    DoneStays(front, last, scan);
    assert forall k :: 0 <= k < |front| ==> (front + [last])[k] == front[k];
  }

  lemma BlankIsSkipped(front: seq<string>, last: string, scan: Scan)
    requires ScanOk(front, scan) && Blank(last) && scan.open == |front|
    ensures ScanOk(front + [last], Scan(scan.done, |front| + 1))
  {
    DoneStays(front, last, scan);
    assert forall k :: 0 <= k < |front| ==> (front + [last])[k] == front[k];
  }

  lemma BlankClosesRun(front: seq<string>, last: string, scan: Scan)
    requires ScanOk(front, scan) && Blank(last) && scan.open < |front|
    ensures ScanOk(front + [last], Scan(scan.done + [Run(scan.open, |front|)], |front| + 1))
  {
    var lines, closed := front + [last], Run(scan.open, |front|);
    DoneStays(front, last, scan);
    assert forall k :: 0 <= k < |front| ==> lines[k] == front[k];
    assert Maximal(lines, closed);
    ClosingCovers(front, scan, closed);
  }

  lemma ScanStep(front: seq<string>, last: string)
    requires ScanOk(front, ScanOf(front))
    ensures ScanOk(front + [last], ScanOf(front + [last]))
  {
    var scan := ScanOf(front);
    assert (front + [last])[..|front|] == front;
    if !Blank(last) {
      OpenRunGrows(front, last, scan);
    } else if scan.open < |front| {
      BlankClosesRun(front, last, scan);
    } else {
      BlankIsSkipped(front, last, scan);
    }
  }

  /** Every block is a maximal run, the blocks are in order, and every maximal run is a block. */
  lemma RunsAreTheMaximalRuns(lines: seq<string>)
    ensures forall i :: 0 <= i < |Runs(lines)| ==> Maximal(lines, Runs(lines)[i])
    ensures forall i, j :: 0 <= i < j < |Runs(lines)| ==> Runs(lines)[i].hi < Runs(lines)[j].lo
    ensures forall run :: Maximal(lines, run) ==> run in Runs(lines)
  {
    ScanIsOk(lines);
    RunsAreMaximal(lines);
    forall run | Maximal(lines, run) ensures run in Runs(lines) {
      MaximalIsARun(lines, run);
    }
  }

  lemma RunsAreMaximal(lines: seq<string>)
    requires ScanOk(lines, ScanOf(lines))
    ensures forall i :: 0 <= i < |Runs(lines)| ==> Maximal(lines, Runs(lines)[i])
    ensures forall i, j :: 0 <= i < j < |Runs(lines)| ==> Runs(lines)[i].hi < Runs(lines)[j].lo
  {
  }

  lemma MaximalIsARun(lines: seq<string>, run: Run)
    requires ScanOk(lines, ScanOf(lines)) && Maximal(lines, run)
    ensures run in Runs(lines)
  {
    assert !Blank(lines[run.lo]);
    var i := CoveredBy(lines, run.lo);
    OverlappingMaximalRunsAgree(lines, run, Runs(lines)[i], run.lo);
  }

  lemma CoveredBy(lines: seq<string>, k: nat) returns (i: nat)
    requires ScanOk(lines, ScanOf(lines)) && k < |lines| && !Blank(lines[k])
    ensures i < |Runs(lines)| && Runs(lines)[i].lo <= k < Runs(lines)[i].hi && Maximal(lines, Runs(lines)[i])
  {
    var scan := ScanOf(lines);
    if k < scan.open {
      i :| 0 <= i < |scan.done| && scan.done[i].lo <= k < scan.done[i].hi;
      assert Runs(lines)[i] == scan.done[i];
    } else {
      i := |scan.done|;
    }
  }

  lemma OverlappingMaximalRunsAgree(lines: seq<string>, r1: Run, r2: Run, k: nat)
    requires Maximal(lines, r1) && Maximal(lines, r2) && r1.lo <= k < r1.hi && r2.lo <= k < r2.hi
    ensures r1 == r2
  {
    assert r1.lo == 0 || Blank(lines[r1.lo - 1]);
    assert r2.lo == 0 || Blank(lines[r2.lo - 1]);
    assert r1.hi == |lines| || Blank(lines[r1.hi]);
    assert r2.hi == |lines| || Blank(lines[r2.hi]);
  }

  // ---- the sum over blocks ---------------------------------------------------------------------

  function BlockWork(lines: seq<string>, run: Run): nat
    requires Within(lines, run)
  {
    DepthSum(Join(lines[run.lo..run.hi]))
  }

  function SumWork(lines: seq<string>, runs: seq<Run>): nat
    requires forall i :: 0 <= i < |runs| ==> Within(lines, runs[i])
  {
    if runs == [] then 0 else SumWork(lines, runs[..|runs| - 1]) + BlockWork(lines, runs[|runs| - 1])
  }

  lemma SumWorkSnoc(lines: seq<string>, runs: seq<Run>, last: Run)
    requires Within(lines, last) && forall i :: 0 <= i < |runs| ==> Within(lines, runs[i])
    ensures forall i :: 0 <= i < |runs + [last]| ==> Within(lines, (runs + [last])[i])
    ensures SumWork(lines, runs + [last]) == SumWork(lines, runs) + BlockWork(lines, last)
  {
    assert (runs + [last])[..|runs|] == runs;
  }

  lemma {:induction false} SumWorkLocal(front: seq<string>, last: string, runs: seq<Run>)
    requires forall i :: 0 <= i < |runs| ==> Within(front, runs[i])
    ensures forall i :: 0 <= i < |runs| ==> Within(front + [last], runs[i])
    ensures SumWork(front + [last], runs) == SumWork(front, runs)
    decreases |runs|
  {
    if runs != [] {
      var run := runs[|runs| - 1];
      assert (front + [last])[run.lo..run.hi] == front[run.lo..run.hi];
      SumWorkLocal(front, last, runs[..|runs| - 1]);
    }
  }

  lemma {:induction false} JoinConcat(a: seq<string>, b: seq<string>)
    requires a != [] && b != []
    ensures Join(a + b) == Join(a) + "\n" + Join(b)
    decreases |b|
  {
    var n := |b| - 1;
    if n == 0 {
      assert (a + b)[..|a|] == a;
    } else {
      assert (a + b)[..|a| + n] == a + b[..n];
      JoinConcat(a, b[..n]);
    }
  }

  /** The work of the runs closed within the first `i` lines. */
  function ClosedWork(lines: seq<string>, i: nat): nat
    requires i <= |lines|
  {
    SumWork(lines[..i], ScanOf(lines[..i]).done)
  }

  /** The first line of the open run after `i` lines. */
  function OpenAt(lines: seq<string>, i: nat): (open: nat)
    requires i <= |lines|
    ensures open <= i
  {
    ScanOf(lines[..i]).open
  }

  function WorkOf(lines: seq<string>): nat {
    DepthSum(Join(lines))
  }

  lemma OpenNext(lines: seq<string>, i: nat)
    requires i < |lines|
    ensures OpenAt(lines, i + 1) == if Blank(lines[i]) then i + 1 else OpenAt(lines, i)
  {
    ScanNext(lines, i);
  }

  /** A blank line closes the open run, if there is one; no other line adds to the closed work. */
  lemma ClosedWorkNext(lines: seq<string>, i: nat)
    requires i < |lines|
    ensures ClosedWork(lines, i + 1)
         == ClosedWork(lines, i)
            + if Blank(lines[i]) && OpenAt(lines, i) < i then WorkOf(lines[OpenAt(lines, i)..i]) else 0
  {
    var front, next, before := lines[..i], lines[..i + 1], ScanOf(lines[..i]);
    assert next == front + [lines[i]];
    ScanNext(lines, i);
    SumWorkLocal(front, lines[i], before.done);
    if Blank(lines[i]) && before.open < i {
      SumWorkSnoc(next, before.done, Run(before.open, i));
      assert next[before.open..i] == lines[before.open..i];
    }
  }

  lemma WorkUpToOpen(lines: seq<string>, i: nat)
    requires i <= |lines|
    ensures WorkOf(lines[..OpenAt(lines, i)]) + WorkOf(lines[OpenAt(lines, i)..i]) <= WorkOf(lines[..i])
  {
    var front, open := lines[..i], OpenAt(lines, i);
    UpToOpenRun(front);
    assert front[..open] == lines[..open] && front[open..] == lines[open..i];
  }

  lemma WorkNext(lines: seq<string>, i: nat)
    requires i < |lines|
    ensures WorkOf(lines[..i]) <= WorkOf(lines[..i + 1])
  {
    assert lines[..i + 1] == lines[..i] + [lines[i]];
    AppendingLineKeepsWork(lines[..i], lines[i]);
  }

  /** The work of the closed runs is at most that of the lines before the open run. */
  lemma {:induction false} ClosedWorkBound(lines: seq<string>, i: nat)
    requires i <= |lines|
    ensures ClosedWork(lines, i) <= WorkOf(lines[..OpenAt(lines, i)])
  {
    if i > 0 {
      ClosedWorkBound(lines, i - 1);
      ClosedWorkStep(lines, i - 1);
    }
  }

  lemma ClosedWorkStep(lines: seq<string>, i: nat)
    requires i < |lines| && ClosedWork(lines, i) <= WorkOf(lines[..OpenAt(lines, i)])
    ensures ClosedWork(lines, i + 1) <= WorkOf(lines[..OpenAt(lines, i + 1)])
  {
    OpenNext(lines, i);
    ClosedWorkNext(lines, i);
    WorkUpToOpen(lines, i);
    WorkNext(lines, i);
  }

  lemma AppendingLineKeepsWork(front: seq<string>, last: string)
    ensures DepthSum(Join(front)) <= DepthSum(Join(front + [last]))
  {
    if front != [] {
      JoinConcat(front, [last]);
      SplittingNeverRaises(Join(front), last);
    }
  }

  /** The lines before the open run and the open run together need no more than the whole. */
  lemma UpToOpenRun(lines: seq<string>)
    ensures
      var open := ScanOf(lines).open;
      DepthSum(Join(lines[..open])) + DepthSum(Join(lines[open..])) <= DepthSum(Join(lines))
  {
    var open := ScanOf(lines).open;
    assert lines == lines[..open] + lines[open..];
    if lines[..open] != [] && lines[open..] != [] {
      JoinConcat(lines[..open], lines[open..]);
      SplittingNeverRaises(Join(lines[..open]), Join(lines[open..]));
    } else if lines[..open] == [] {
      assert lines[open..] == lines;
    } else {
      assert lines[..open] == lines;
    }
  }

  lemma WorkOfRuns(lines: seq<string>)
    ensures SumWork(lines, Runs(lines)) <= ClosedWork(lines, |lines|) + WorkOf(lines[OpenAt(lines, |lines|)..|lines|])
  {
    var scan := ScanOf(lines);
    assert lines[..|lines|] == lines;
    if scan.open < |lines| {
      SumWorkSnoc(lines, scan.done, Run(scan.open, |lines|));
    }
  }

  /** The per-file sum never exceeds the estimate of the joined text. */
  lemma FileSumAtMostWhole(lines: seq<string>)
    ensures SumWork(lines, Runs(lines)) <= WorkOf(lines)
  {
    ClosedWorkBound(lines, |lines|);
    WorkUpToOpen(lines, |lines|);
    WorkOfRuns(lines);
    assert lines[..|lines|] == lines;
  }

  // ---- accepting a file -----------------------------------------------------------------------------

  datatype Verdict =
    | Accepted
    | BlockTooComplex(startLine: nat, work: nat)
    | FileTooComplex(total: nat)

  predicate BlockFits(lines: seq<string>, run: Run)
    requires Within(lines, run)
  {
    BlockWork(lines, run) * LINK_PROCESSOR_COUNT <= MAX_WORK_PER_BLOCK
  }

  ghost predicate AllFit(lines: seq<string>, runs: seq<Run>) {
    forall i :: 0 <= i < |runs| ==> Within(lines, runs[i]) && BlockFits(lines, runs[i])
  }

  /** The first run that does not fit. */
  ghost predicate FirstMisfit(lines: seq<string>, runs: seq<Run>, i: nat) {
    i < |runs| && Within(lines, runs[i]) && !BlockFits(lines, runs[i]) && AllFit(lines, runs[..i])
  }

  /** Accepted exactly when every block and their sum are within the limits; otherwise the
      first block beyond its limit is reported, or the sum. */
  ghost predicate RightVerdict(lines: seq<string>, runs: seq<Run>, verdict: Verdict)
    requires forall i :: 0 <= i < |runs| ==> Within(lines, runs[i])
  {
    match verdict
    case Accepted =>
      AllFit(lines, runs) && SumWork(lines, runs) * LINK_PROCESSOR_COUNT <= MAX_WORK_PER_FILE
    case BlockTooComplex(startLine, work) =>
      exists i: nat :: FirstMisfit(lines, runs, i) && startLine == runs[i].lo + 1
                  && work == BlockWork(lines, runs[i]) * LINK_PROCESSOR_COUNT
    case FileTooComplex(total) =>
      && AllFit(lines, runs)
      && total == SumWork(lines, runs) * LINK_PROCESSOR_COUNT && total > MAX_WORK_PER_FILE
  }

  /** The loop over the blocks of a file. */
  method CheckBlocks(ghost lines: seq<string>, ghost runs: seq<Run>, blocks: seq<Block>) returns (verdict: Verdict)
    requires AreBlocksOf(lines, runs, blocks)
    ensures RightVerdict(lines, runs, verdict)
  {
    var fileWork := 0;
    var i := 0;
    while i < |blocks|
      invariant 0 <= i <= |blocks|
      invariant fileWork == SumWork(lines, runs[..i]) * LINK_PROCESSOR_COUNT
      invariant AllFit(lines, runs[..i])
    {
      var blockWork := MarkdownBracketWork(blocks[i].text);
      assert blockWork == BlockWork(lines, runs[i]) * LINK_PROCESSOR_COUNT;
      if blockWork > MAX_WORK_PER_BLOCK {
        assert FirstMisfit(lines, runs, i);
        return BlockTooComplex(blocks[i].startLine, blockWork);
      }
      assert runs[..i + 1] == runs[..i] + [runs[i]];
      SumWorkSnoc(lines, runs[..i], runs[i]);
      fileWork := fileWork + blockWork;
      i := i + 1;
    }
    assert runs[..i] == runs;
    if fileWork > MAX_WORK_PER_FILE {
      return FileTooComplex(fileWork);
    }
    return Accepted;
  }

  /** `_validate_markdown_complexity` on the lines of one file. */
  method ValidateMarkdownComplexity(lines: seq<string>) returns (verdict: Verdict)
    ensures RightVerdict(lines, Runs(lines), verdict)
  {
    var blocks := MarkdownProseBlocks(lines);
    verdict := CheckBlocks(lines, Runs(lines), blocks);
  }

  /** The verdicts exclude each other, so a file is accepted exactly when it meets the limits. */
  lemma AcceptedIffWithinLimits(lines: seq<string>, verdict: Verdict)
    requires RightVerdict(lines, Runs(lines), verdict)
    ensures verdict.Accepted?
       <==> AllFit(lines, Runs(lines)) && SumWork(lines, Runs(lines)) * LINK_PROCESSOR_COUNT <= MAX_WORK_PER_FILE
  {
  }

  lemma {:induction false} BlockAtMostSum(lines: seq<string>, runs: seq<Run>, i: nat)
    requires i < |runs| && forall k :: 0 <= k < |runs| ==> Within(lines, runs[k])
    ensures BlockWork(lines, runs[i]) <= SumWork(lines, runs)
    decreases |runs|
  {
    if i < |runs| - 1 {
      BlockAtMostSum(lines, runs[..|runs| - 1], i);
    }
  }

  /** A file whose text as a whole is within the block limit is accepted, however it falls into blocks. */
  lemma WholeWithinLimitIsAccepted(lines: seq<string>)
    requires DepthSum(Join(lines)) * LINK_PROCESSOR_COUNT <= MAX_WORK_PER_BLOCK
    ensures AllFit(lines, Runs(lines))
    ensures SumWork(lines, Runs(lines)) * LINK_PROCESSOR_COUNT <= MAX_WORK_PER_FILE
  {
    FileSumAtMostWhole(lines);
    forall i | 0 <= i < |Runs(lines)| ensures BlockFits(lines, Runs(lines)[i]) {
      BlockAtMostSum(lines, Runs(lines), i);
    }
  }

  lemma ScaledBound(a: nat, b: nat, c: nat)
    requires a <= b
    ensures a * c <= b * c
  {
  }

  /** No text of up to 815 characters is ever rejected. */
  lemma ShortTextsAreAccepted(text: string)
    requires |text| <= 815
    ensures DepthSum(text) * LINK_PROCESSOR_COUNT <= MAX_WORK_PER_BLOCK
  {
    QuadraticBound(text);
    ScaledBound(|text|, 815, |text| + 1);
  }

  /** One line of 816 opening brackets is. */
  lemma ShortestRejectedText()
    ensures |Opening(816)| == 816 && DepthSum(Opening(816)) * LINK_PROCESSOR_COUNT > MAX_WORK_PER_BLOCK
  {
    BoundIsReached(816);
  }

  // ---- a file of fitting blocks that is too much ---------------------------------------------------

  lemma OpeningIsNotBlank(n: nat)
    requires n > 0
    ensures Opening(n) != "" && !Blank(Opening(n)) && Blank("")
  {
    assert Opening(n)[|Opening(n)| - 1] == '[';
  }

  lemma OneLineRun(lines: seq<string>, run: Run)
    requires Within(lines, run) && run.hi == run.lo + 1
    ensures BlockWork(lines, run) == DepthSum(lines[run.lo])
  {
    assert lines[run.lo..run.hi] == [lines[run.lo]];
  }

  lemma RunsOfThree(line: string)
    requires !Blank(line) && Blank("")
    ensures Runs([line, "", line, "", line]) == [Run(0, 1), Run(2, 3), Run(4, 5)]
  {
    var lines := [line, "", line, "", line];
    ScanNext(lines, 0);
    ScanNext(lines, 1);
    ScanNext(lines, 2);
    ScanNext(lines, 3);
    ScanNext(lines, 4);
    assert lines[..0] == [] && lines[..5] == lines;
  }

  /** Three lines of 815 opening brackets, with blank lines in between: every block fits, the file does
      not. */
  lemma FittingBlocksCanBeTooMuch(lines: seq<string>)
    requires lines == [Opening(815), "", Opening(815), "", Opening(815)]
    ensures AllFit(lines, Runs(lines)) && SumWork(lines, Runs(lines)) * LINK_PROCESSOR_COUNT > MAX_WORK_PER_FILE
  {
    OpeningIsNotBlank(815);
    RunsOfThree(Opening(815));
    BoundIsReached(815);
    var runs := Runs(lines);
    forall i | 0 <= i < |runs| ensures BlockWork(lines, runs[i]) == DepthSum(Opening(815)) {
      OneLineRun(lines, runs[i]);
    }
    ThreeWorks(lines, runs);
  }

  lemma ThreeWorks(lines: seq<string>, runs: seq<Run>)
    requires |runs| == 3 && forall i :: 0 <= i < |runs| ==> Within(lines, runs[i])
    ensures SumWork(lines, runs)
         == BlockWork(lines, runs[0]) + BlockWork(lines, runs[1]) + BlockWork(lines, runs[2])
  {
    assert runs[..2][..1] == [runs[0]] && runs[..2] == [runs[0]] + [runs[1]] && runs == runs[..2] + [runs[2]];
    SumWorkSnoc(lines, [], runs[0]);
    SumWorkSnoc(lines, [runs[0]], runs[1]);
    SumWorkSnoc(lines, runs[..2], runs[2]);
    assert [] + [runs[0]] == [runs[0]];
  }

  // ---- the verdict in terms of the maximal runs ----------------------------------------------------

  /** Three times the estimate of the run's joined lines. */
  function RunEstimate(lines: seq<string>, run: Run): nat
    requires Within(lines, run)
  {
    3 * DepthSum(Join(lines[run.lo..run.hi]))
  }

  /** A file is accepted exactly when the estimate of no maximal run exceeds a million and the estimates
      together do not exceed two. */
  lemma AcceptedIffRunsFit(lines: seq<string>, verdict: Verdict)
    requires RightVerdict(lines, Runs(lines), verdict)
    ensures verdict.Accepted?
       <==> && (forall run :: Maximal(lines, run) ==> RunEstimate(lines, run) <= 1_000_000)
            && 3 * SumWork(lines, Runs(lines)) <= 2_000_000
  {
    AcceptedIffWithinLimits(lines, verdict);
    RunsAreTheMaximalRuns(lines);
    if AllFit(lines, Runs(lines)) {
      forall run | Maximal(lines, run) ensures RunEstimate(lines, run) <= 1_000_000 {
        var i :| 0 <= i < |Runs(lines)| && Runs(lines)[i] == run;
        assert BlockFits(lines, Runs(lines)[i]);
      }
    }
    if forall run :: Maximal(lines, run) ==> RunEstimate(lines, run) <= 1_000_000 {
      forall i | 0 <= i < |Runs(lines)| ensures BlockFits(lines, Runs(lines)[i]) {
        assert Maximal(lines, Runs(lines)[i]);
      }
    }
  }

  /** The block reported is the first maximal run whose estimate exceeds a million, by its first line,
      counted from one, and with that estimate. */
  lemma ReportedBlockIsFirst(lines: seq<string>, verdict: Verdict) returns (run: Run)
    requires RightVerdict(lines, Runs(lines), verdict) && verdict.BlockTooComplex?
    ensures Maximal(lines, run) && verdict.startLine == run.lo + 1
    ensures verdict.work == RunEstimate(lines, run) && verdict.work > 1_000_000
    ensures forall other :: Maximal(lines, other) && other.lo < run.lo ==> RunEstimate(lines, other) <= 1_000_000
  {
    RunsAreTheMaximalRuns(lines);
    var i: nat :| FirstMisfit(lines, Runs(lines), i) && verdict.startLine == Runs(lines)[i].lo + 1
                  && verdict.work == BlockWork(lines, Runs(lines)[i]) * LINK_PROCESSOR_COUNT;
    run := Runs(lines)[i];
    forall other | Maximal(lines, other) && other.lo < run.lo ensures RunEstimate(lines, other) <= 1_000_000 {
      var j :| 0 <= j < |Runs(lines)| && Runs(lines)[j] == other;
      EarlierRunComesFirst(lines, Runs(lines), j, i);
      assert Runs(lines)[..i][j] == other && BlockFits(lines, other);
    }
  }

  lemma EarlierRunComesFirst(lines: seq<string>, runs: seq<Run>, j: nat, i: nat)
    requires forall k :: 0 <= k < |runs| ==> Within(lines, runs[k])
    requires forall k, l :: 0 <= k < l < |runs| ==> runs[k].hi < runs[l].lo
    requires i < |runs| && j < |runs| && runs[j].lo < runs[i].lo
    ensures j < i
  {
    assert runs[i].lo < runs[i].hi;
  }
}
