/** The estimate of how much work Markdown's link processors do on a text. The stack
    algorithm adds up the distances from each unescaped opening bracket to its closing
    one (or to the end); that is the bracket depth summed over all positions. */
module BracketWork {

  const LINK_PROCESSOR_COUNT := 3

  // ---- the reference: depth by position ------------------------------------------------

  /** Length of the run of backslashes at the end of the text. */
  function BackslashRun(text: string): nat {
    if text == "" || text[|text| - 1] != '\\' then 0 else 1 + BackslashRun(text[..|text| - 1])
  }

  /** A character after the text is escaped when an odd run of backslashes precedes it. */
  predicate EscapesNext(text: string) {
    BackslashRun(text) % 2 == 1
  }

  /** Open unescaped brackets after the text. */
  function Depth(text: string): nat {
    if text == "" then 0
    else
      var front, last := text[..|text| - 1], text[|text| - 1];
      if last == '[' && !EscapesNext(front) then Depth(front) + 1
      else if last == ']' && !EscapesNext(front) && Depth(front) > 0 then Depth(front) - 1
      else Depth(front)
  }

  /** The depth summed over all positions. */
  function DepthSum(text: string): nat {
    if text == "" then 0 else DepthSum(text[..|text| - 1]) + Depth(text)
  }

  // ---- the algorithm --------------------------------------------------------------------

  /** Distances from the openers to position `at`. */
  function Gaps(openers: seq<nat>, at: nat): int {
    if openers == [] then 0 else Gaps(openers[..|openers| - 1], at) + at - openers[|openers| - 1]
  }

  lemma {:induction false} GapsLater(openers: seq<nat>, at: nat)
    ensures Gaps(openers, at + 1) == Gaps(openers, at) + |openers|
    decreases |openers|
  {
    if openers != [] {
      GapsLater(openers[..|openers| - 1], at);
    }
  }

  lemma GapsPush(openers: seq<nat>, at: nat)
    ensures Gaps(openers + [at], at) == Gaps(openers, at)
  {
    assert (openers + [at])[..|openers|] == openers;
  }

  method MarkdownBracketWork(text: string) returns (estimate: int)
    ensures estimate == DepthSum(text) * LINK_PROCESSOR_COUNT
  {
    var openers: seq<nat> := [];
    var work := 0;
    var backslashRun := 0;
    var index := 0;
    while index < |text|
      invariant 0 <= index <= |text|
      invariant backslashRun == BackslashRun(text[..index])
      invariant |openers| == Depth(text[..index])
      invariant work + Gaps(openers, index) == DepthSum(text[..index])
    {
      var character := text[index];
      ghost var now := text[..index + 1];
      assert now[..index] == text[..index] && now[index] == character;
      GapsLater(openers, index);
      if character == '\\' {
        backslashRun := backslashRun + 1;
      } else {
        var escaped := backslashRun % 2 == 1;
        backslashRun := 0;
        if character == '[' && !escaped {
          GapsPush(openers, index);
          openers := openers + [index];
          GapsLater(openers, index);
        } else if character == ']' && !escaped && openers != [] {
          work := work + index - openers[|openers| - 1];
          openers := openers[..|openers| - 1];
          GapsLater(openers, index);
        }
      }
      index := index + 1;
    }
    assert text[..index] == text;
    work := work + Gaps(openers, |text|);
    estimate := work * LINK_PROCESSOR_COUNT;
  }

  // ---- bounds ----------------------------------------------------------------------------

  lemma {:induction false} DepthAtMostLength(text: string)
    ensures Depth(text) <= |text|
    decreases |text|
  {
    if text != "" {
      DepthAtMostLength(text[..|text| - 1]);
    }
  }

  /** The work grows at most quadratically. */
  lemma {:induction false} QuadraticBound(text: string)
    ensures 2 * DepthSum(text) <= |text| * (|text| + 1)
    decreases |text|
  {
    if text != "" {
      var n := |text|;
      QuadraticBound(text[..n - 1]);
      DepthAtMostLength(text);
      assert n * (n + 1) == (n - 1) * n + 2 * n;
    }
  }

  function Opening(n: nat): string {
    if n == 0 then "" else Opening(n - 1) + "["
  }

  lemma OneMoreOpening(text: string)
    requires BackslashRun(text) == 0
    ensures BackslashRun(text + "[") == 0
    ensures Depth(text + "[") == Depth(text) + 1
    ensures DepthSum(text + "[") == DepthSum(text) + Depth(text) + 1
  {
    assert (text + "[")[..|text|] == text;
  }

  lemma NextTriangle(n: int)
    ensures n * (n + 1) == (n - 1) * n + 2 * n
  {
  }

  /** Unclosed brackets reach the bound, so it cannot be improved. */
  lemma {:induction false} BoundIsReached(n: nat)
    ensures |Opening(n)| == n && BackslashRun(Opening(n)) == 0 && Depth(Opening(n)) == n
    ensures 2 * DepthSum(Opening(n)) == n * (n + 1)
  {
    OpeningSum(n);
    TriangleTwice(n);
  }

  function Triangle(n: nat): nat {
    if n == 0 then 0 else Triangle(n - 1) + n
  }

  lemma {:induction false} TriangleTwice(n: nat)
    ensures 2 * Triangle(n) == n * (n + 1)
  {
    if n > 0 {
      TriangleTwice(n - 1);
      NextTriangle(n);
    }
  }

  lemma {:induction false} OpeningSum(n: nat)
    ensures |Opening(n)| == n && BackslashRun(Opening(n)) == 0 && Depth(Opening(n)) == n
    ensures DepthSum(Opening(n)) == Triangle(n)
  {
    if n > 0 {
      OpeningSum(n - 1);
      OneMoreOpening(Opening(n - 1));
    }
  }

  // ---- splitting ---------------------------------------------------------------------------

  /** Behind a newline a text keeps its own escapes and can only be deeper. */
  lemma {:induction false} BehindNewline(a: string, b: string)
    ensures BackslashRun(a + "\n" + b) == BackslashRun(b)
    ensures Depth(a + "\n" + b) >= Depth(b)
    ensures DepthSum(a + "\n" + b) >= DepthSum(a) + DepthSum(b)
    decreases |b|
  {
    var whole := a + "\n" + b;
    if b == "" {
      assert whole == a + "\n" && whole[..|a|] == a;
    } else {
      var n := |b| - 1;
      assert whole[..|a| + 1 + n] == a + "\n" + b[..n];
      assert whole[|whole| - 1] == b[n];
      BehindNewline(a, b[..n]);
    }
  }

  /** Splitting a text at a newline never raises the estimate. */
  lemma SplittingNeverRaises(a: string, b: string)
    ensures DepthSum(a) + DepthSum(b) <= DepthSum(a + "\n" + b)
  {
    BehindNewline(a, b);
  }

  // ---- which brackets count ------------------------------------------------------------------------

  function Slashes(n: nat): string {
    seq(n, _ => '\\')
  }

  lemma {:induction false} RunOfSlashes(text: string, n: nat)
    requires text == "" || text[|text| - 1] != '\\'
    ensures BackslashRun(text + Slashes(n)) == n
    ensures Depth(text + Slashes(n)) == Depth(text)
  {
    var longer := text + Slashes(n);
    if n == 0 {
      assert longer == text;
    } else {
      assert longer[..|longer| - 1] == text + Slashes(n - 1);
      RunOfSlashes(text, n - 1);
    }
  }

  /** A bracket counts when an even number of backslashes stands before it: then an opening one makes
      the text after it deeper, and a closing one less deep, down to zero. Nothing else does. */
  lemma BracketCountsIffEven(text: string, n: nat, c: char)
    requires text == "" || text[|text| - 1] != '\\'
    ensures
      var before := text + Slashes(n);
      Depth(before + [c])
      == if c == '[' && n % 2 == 0 then Depth(text) + 1
         else if c == ']' && n % 2 == 0 && Depth(text) > 0 then Depth(text) - 1
         else Depth(text)
  {
    RunOfSlashes(text, n);
    var before := text + Slashes(n);
    assert (before + [c])[..|before|] == before;
  }
}
