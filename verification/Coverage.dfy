/**
 Recovery coverage: which source lines a parse accounted for, and the lines it did not,
 compressed into at most sixteen line ranges. Lines are numbered from one.
 */
module Coverage {

  const MAX_RANGES: nat := 16

  datatype Range = Range(startLine: nat, endLine: nat)

  datatype Coverage = Coverage(
    complete: bool, sourceLineCount: nat, coveredLineCount: nat, unmatchedLineCount: nat,
    unmatchedRanges: seq<Range>, truncated: bool)

  /** Mark every line of the range that exists; a range may start before or end behind the source. */
  method Mark(covered: array<bool>, startLine: int, endLine: int)
    modifies covered
    ensures forall i :: 0 <= i < covered.Length ==>
      covered[i] == (old(covered[i]) || startLine <= i + 1 <= endLine)
  {
    var line := if startLine < 1 then 1 else startLine;
    ghost var first := line;
    var last := if covered.Length < endLine then covered.Length else endLine;
    while line <= last
      invariant first <= line && (line == first || line <= last + 1)
      invariant forall i :: 0 <= i < covered.Length ==>
        covered[i] == (old(covered[i]) || first <= i + 1 < line)
    {
      covered[line - 1] := true;
      line := line + 1;
    }
  }

  // ---- what is unmatched, and its maximal runs ---------------------------------------------

  /** Line `n` holds something and was not accounted for. */
  predicate Unmatched(covered: seq<bool>, blank: seq<bool>, n: int)
    requires |covered| == |blank|
  {
    1 <= n <= |covered| && !covered[n - 1] && !blank[n - 1]
  }

  function UnmatchedUpTo(covered: seq<bool>, blank: seq<bool>, n: nat): set<int>
    requires |covered| == |blank| && n <= |covered|
  {
    set line | 1 <= line <= n && Unmatched(covered, blank, line)
  }

  predicate Ascending(lines: seq<int>) { forall i, j :: 0 <= i < j < |lines| ==> lines[i] < lines[j] }

  predicate Inside(r: Range, n: int) { r.startLine <= n <= r.endLine }

  ghost predicate Covers(ranges: seq<Range>, n: int) { exists k :: 0 <= k < |ranges| && Inside(ranges[k], n) }

  /** Sorted, non-empty, and never touching each other. */
  ghost predicate Separate(ranges: seq<Range>) {
    && (forall k :: 0 <= k < |ranges| ==> ranges[k].startLine <= ranges[k].endLine)
    && (forall j, k :: 0 <= j < k < |ranges| ==> ranges[j].endLine + 1 < ranges[k].startLine)
  }

  /** A maximal run of lines with property `p`. */
  ghost predicate MaximalRun(r: Range, p: int -> bool) {
    && r.startLine <= r.endLine && (forall n :: Inside(r, n) ==> p(n))
    && !p(r.startLine - 1) && !p(r.endLine + 1)
  }

  /** The ranges are exactly the first maximal runs: nothing before the end of the last one is missing. */
  ghost predicate FirstRuns(ranges: seq<Range>, p: int -> bool) {
    && Separate(ranges) && (forall k :: 0 <= k < |ranges| ==> MaximalRun(ranges[k], p))
    && (forall n :: ranges != [] && n <= ranges[|ranges| - 1].endLine && p(n) ==> Covers(ranges, n))
  }

  /** The lines of `lines`, as a property. */
  function Among(lines: seq<int>): int -> bool { (n: int) => n in lines }

  method CollectUnmatched(covered: array<bool>, blank: seq<bool>) returns (lines: seq<int>)
    requires covered.Length == |blank|
    ensures Ascending(lines) && forall n :: n in lines <==> Unmatched(covered[..], blank, n)
  {
    lines := [];
    for i := 0 to covered.Length
      invariant forall n :: n in lines <==> n <= i && Unmatched(covered[..], blank, n)
      invariant Ascending(lines) && (forall k :: 0 <= k < |lines| ==> lines[k] <= i)
    {
      if !covered[i] && !blank[i] { lines := lines + [i + 1]; }
    }
  }

  // ---- runs, and their bounded compression ------------------------------------------------------

  /** A neighbour extends the last range, anything else opens a new one. */
  function AddLine(ranges: seq<Range>, line: nat): seq<Range> {
    if ranges != [] && ranges[|ranges| - 1].endLine == line - 1
    then ranges[..|ranges| - 1] + [Range(ranges[|ranges| - 1].startLine, line)]
    else ranges + [Range(line, line)]
  }

  /** All runs of some lines, however many there are. */
  function Runs(lines: seq<nat>): seq<Range> {
    if lines == [] then [] else AddLine(Runs(lines[..|lines| - 1]), lines[|lines| - 1])
  }

  function FirstOf(ranges: seq<Range>): seq<Range> {
    if |ranges| > MAX_RANGES then ranges[..MAX_RANGES] else ranges
  }

  lemma AddLineSeparate(ranges: seq<Range>, line: nat)
    requires Separate(ranges) && (ranges != [] ==> ranges[|ranges| - 1].endLine < line)
    ensures Separate(AddLine(ranges, line)) && AddLine(ranges, line) != []
    ensures AddLine(ranges, line)[|AddLine(ranges, line)| - 1].endLine == line
  {
  }

  lemma AddLineCovers(ranges: seq<Range>, line: nat, n: int)
    requires Separate(ranges)
    ensures Covers(AddLine(ranges, line), n) <==> Covers(ranges, n) || n == line
  {
    var next, last := AddLine(ranges, line), |AddLine(ranges, line)| - 1;
    if n == line { assert Inside(next[last], n); }
    if k :| 0 <= k < |ranges| && Inside(ranges[k], n) { assert Inside(next[k], n); }
    if n != line && Covers(next, n) {
      var k :| 0 <= k < |next| && Inside(next[k], n);
      assert Inside(ranges[k], n);
    }
  }

  /** Runs are separate and cover exactly their lines. */
  lemma {:induction false} RunsAreExact(lines: seq<nat>)
    requires Ascending(lines)
    ensures Separate(Runs(lines))
    ensures (forall n :: Covers(Runs(lines), n) <==> n in lines)
    ensures lines != [] ==> Runs(lines) != [] && Runs(lines)[|Runs(lines)| - 1].endLine == lines[|lines| - 1]
  {
    if lines != [] {
      hide AddLine, Separate, Covers;
      var front, last := lines[..|lines| - 1], lines[|lines| - 1];
      RunsAreExact(front);
      assert front != [] ==> front[|front| - 1] == lines[|lines| - 2];
      AddLineSeparate(Runs(front), last);
      assert forall n :: n in lines <==> n in front || n == last;
      forall n ensures Covers(Runs(lines), n) <==> n in lines { AddLineCovers(Runs(front), last, n); }
    }
  }

  /** The bounded compression of one more line is the bounded form of one more line. */
  lemma BoundedStep(lines: seq<nat>, line: nat)
    requires Ascending(lines + [line])
    ensures var runs := Runs(lines); var first := FirstOf(runs);
      && Runs(lines + [line]) == AddLine(runs, line)
      && (if first != [] && first[|first| - 1].endLine == line - 1
          then FirstOf(AddLine(runs, line)) == first[..|first| - 1] + [Range(first[|first| - 1].startLine, line)]
               && |AddLine(runs, line)| == |runs| <= MAX_RANGES
          else if |first| < MAX_RANGES
          then FirstOf(AddLine(runs, line)) == first + [Range(line, line)] && |runs| < MAX_RANGES
          else FirstOf(AddLine(runs, line)) == first && |AddLine(runs, line)| > MAX_RANGES)
  {
    assert (lines + [line])[..|lines|] == lines;
    assert forall k :: 0 <= k < |lines| ==> lines[k] == (lines + [line])[k];
    RunsAreExact(lines);
    assert lines != [] ==> lines[|lines| - 1] == (lines + [line])[|lines| - 1];
    BoundedAdd(Runs(lines), line);
  }

  lemma BoundedAdd(runs: seq<Range>, line: nat)
    requires Separate(runs) && (runs != [] ==> runs[|runs| - 1].endLine < line)
    ensures var first := FirstOf(runs);
      if first != [] && first[|first| - 1].endLine == line - 1
      then FirstOf(AddLine(runs, line)) == first[..|first| - 1] + [Range(first[|first| - 1].startLine, line)]
           && |AddLine(runs, line)| == |runs| <= MAX_RANGES
      else if |first| < MAX_RANGES
      then FirstOf(AddLine(runs, line)) == first + [Range(line, line)] && |runs| < MAX_RANGES
      else FirstOf(AddLine(runs, line)) == first && |AddLine(runs, line)| > MAX_RANGES
  {
    if |runs| > MAX_RANGES {
      assert runs[MAX_RANGES - 1].endLine + 1 < runs[|runs| - 1].startLine <= runs[|runs| - 1].endLine;
      assert AddLine(runs, line)[..MAX_RANGES] == runs[..MAX_RANGES];
    }
  }

  /** Compress ascending line numbers; beyond the sixteenth range a line is only noted as missing. */
  method CompressLines(lines: seq<nat>) returns (ranges: seq<Range>, truncated: bool)
    requires Ascending(lines)
    ensures ranges == FirstOf(Runs(lines)) && (truncated <==> |Runs(lines)| > MAX_RANGES)
  {
    ranges, truncated := [], false;
    for i := 0 to |lines|
      invariant ranges == FirstOf(Runs(lines[..i])) && (truncated <==> |Runs(lines[..i])| > MAX_RANGES)
    {
      var line := lines[i];
      assert lines[..i + 1] == lines[..i] + [line];
      BoundedStep(lines[..i], line);
      if ranges != [] && ranges[|ranges| - 1].endLine == line - 1 {
        ranges := ranges[..|ranges| - 1] + [Range(ranges[|ranges| - 1].startLine, line)];
      } else if |ranges| < MAX_RANGES {
        ranges := ranges + [Range(line, line)];
      } else {
        truncated := true;
      }
    }
    assert lines[..|lines|] == lines;
  }

  // ---- theorems ----------------------------------------------------------------------------------

  lemma RunIsMaximal(ranges: seq<Range>, p: int -> bool, k: nat)
    requires Separate(ranges) && k < |ranges| && forall n :: Covers(ranges, n) <==> p(n)
    ensures MaximalRun(ranges[k], p)
  {
    var r := ranges[k];
    forall n | Inside(r, n) ensures p(n) { assert Covers(ranges, n); }
    NeighboursUncovered(ranges, k, r.startLine - 1);
    NeighboursUncovered(ranges, k, r.endLine + 1);
  }

  lemma NeighboursUncovered(ranges: seq<Range>, k: nat, n: int)
    requires Separate(ranges) && k < |ranges| && n in {ranges[k].startLine - 1, ranges[k].endLine + 1}
    ensures !Covers(ranges, n)
  {
    forall j | 0 <= j < |ranges| ensures !Inside(ranges[j], n) {
      if j < k { assert ranges[j].endLine + 1 < ranges[k].startLine; }
      if k < j { assert ranges[k].endLine + 1 < ranges[j].startLine; }
    }
  }

  /** Up to the end of any of them, separate exact ranges miss nothing. */
  lemma FirstRangesAreFirst(ranges: seq<Range>, p: int -> bool, m: nat)
    requires Separate(ranges) && m <= |ranges| && forall n :: Covers(ranges, n) <==> p(n)
    ensures FirstRuns(ranges[..m], p)
    ensures m < |ranges| ==> p(ranges[m].startLine) && !Covers(ranges[..m], ranges[m].startLine)
  {
    forall k | 0 <= k < m ensures MaximalRun(ranges[..m][k], p) { RunIsMaximal(ranges, p, k); }
    forall n | m > 0 && n <= ranges[m - 1].endLine && p(n) ensures Covers(ranges[..m], n) {
      assert Covers(ranges, n);
      assert forall j :: m <= j < |ranges| ==> ranges[m - 1].endLine < ranges[j].startLine;
      var k :| 0 <= k < |ranges| && Inside(ranges[k], n);
      assert Inside(ranges[..m][k], n);
    }
    if m < |ranges| {
      assert Inside(ranges[m], ranges[m].startLine);
      assert forall j :: 0 <= j < m ==> ranges[..m][j].endLine + 1 < ranges[m].startLine;
    }
  }

  lemma {:induction false} AscendingSize(lines: seq<int>)
    requires Ascending(lines)
    ensures |set n | n in lines| == |lines|
  {
    if lines != [] {
      var front, last := lines[..|lines| - 1], lines[|lines| - 1];
      AscendingSize(front);
      assert (set n | n in lines) == (set n | n in front) + {last};
      assert forall n :: n in front ==> n < last;
    }
  }

  /** What the finished report says about a source, its covered lines and its blank lines. */
  ghost predicate Exact(covered: seq<bool>, blank: seq<bool>, decoded: bool, r: Coverage)
    requires |covered| == |blank|
  {
    var unmatched := UnmatchedUpTo(covered, blank, |covered|);
    && r.sourceLineCount == |covered| && r.unmatchedLineCount == |unmatched|
    && r.coveredLineCount + r.unmatchedLineCount == r.sourceLineCount
    && (r.complete <==> decoded && unmatched == {})
    && |r.unmatchedRanges| <= MAX_RANGES
    && FirstRuns(r.unmatchedRanges, (n: int) => n in unmatched)
    && (!r.truncated ==> forall n :: Covers(r.unmatchedRanges, n) <==> n in unmatched)
    && (r.truncated <==> exists n :: n in unmatched && !Covers(r.unmatchedRanges, n))
    && (r.truncated ==> |r.unmatchedRanges| == MAX_RANGES)
  }

  /** Report coverage of a source whose lines are known to be blank or not. */
  method ReportCoverage(covered: array<bool>, blank: seq<bool>, decoded: bool) returns (r: Coverage)
    requires covered.Length == |blank|
    ensures Exact(covered[..], blank, decoded, r)
  {
    var lines := CollectUnmatched(covered, blank);
    ghost var unmatched := UnmatchedUpTo(covered[..], blank, covered.Length);
    assert forall n :: n in lines <==> n in unmatched;
    assert forall i :: 0 <= i < |lines| ==> lines[i] in lines;
    var ranges, truncated := CompressLines(lines);
    CountMatches(lines, unmatched, covered.Length);
    r := Coverage(decoded && |lines| == 0, covered.Length, covered.Length - |lines|, |lines|, ranges, truncated);
    RunsAreExact(lines);
    FirstRangesAreFirst(Runs(lines), (n: int) => n in unmatched, |ranges|);
    assert Runs(lines)[..|ranges|] == ranges;
  }

  lemma CountMatches(lines: seq<int>, unmatched: set<int>, total: nat)
    requires Ascending(lines) && (forall n :: n in lines <==> n in unmatched)
    requires forall n :: n in unmatched ==> 1 <= n <= total
    ensures |lines| == |unmatched| <= total
  {
    AscendingSize(lines);
    assert (set n | n in lines) == unmatched;
    BoundedSize(unmatched, total);
  }

  lemma {:induction false} BoundedSize(s: set<int>, total: nat)
    requires forall n :: n in s ==> 1 <= n <= total
    ensures |s| <= total
  {
    if total == 0 {
      assert forall n :: n !in s;
      assert s == {};
    } else {
      BoundedSize(s - {total as int}, total - 1);
    }
  }
}
