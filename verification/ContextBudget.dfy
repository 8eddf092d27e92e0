/** Fitting evidence into a character budget by leaving out its middle
    (core/context_budget.py). */
module ContextBudget {

  const OMITTED := "\n...[omitted middle fragment]...\n"

  datatype Budgeted =
    | Evidence(text: string, originalChars: nat, selectedChars: nat, truncated: bool)
    | BadMaximum | BadRatio | TooSmallForMarker

  predicate IsBreak(c: char) { c == '\r' || c == '\n' }

  function RStripBreaks(t: string): string {
    if t == "" || !IsBreak(t[|t| - 1]) then t else RStripBreaks(t[..|t| - 1])
  }

  function LStripBreaks(t: string): string {
    if t == "" || !IsBreak(t[0]) then t else LStripBreaks(t[1..])
  }

  /** The last newline, or -1. */
  function LastNewline(t: string): (i: int)
    ensures -1 <= i < |t| && (i >= 0 ==> t[i] == '\n') && forall j :: i < j < |t| ==> t[j] != '\n'
  {
    if t == "" then -1 else if t[|t| - 1] == '\n' then |t| - 1 else LastNewline(t[..|t| - 1])
  }

  /** The first newline, or -1. */
  function FirstNewline(t: string): (i: int)
    ensures -1 <= i < |t| && (i >= 0 ==> t[i] == '\n')
    ensures forall j :: 0 <= j < (if i < 0 then |t| else i) ==> t[j] != '\n'
  {
    if t == "" then -1
    else if t[0] == '\n' then 0
    else
      var rest := FirstNewline(t[1..]);
      assert forall j :: 0 < j < |t| ==> t[j] == t[1..][j - 1];
      if rest < 0 then -1 else rest + 1
  }

  function Prefix(t: string, n: nat): string { if n <= |t| then t[..n] else t }

  function Suffix(t: string, n: nat): string { if n <= |t| then t[|t| - n..] else t }

  function PreferHeadLine(value: string, limit: nat): string {
    var candidate := Prefix(value, limit);
    var boundary := LastNewline(candidate);
    if boundary > limit / 2 then candidate[..boundary + 1] else candidate
  }

  function PreferTailLine(value: string, limit: int): string {
    if limit <= 0 then ""
    else
      var candidate := Suffix(value, limit);
      var boundary := FirstNewline(candidate);
      if 0 <= boundary < limit / 2 then candidate[boundary + 1..] else candidate
  }

  function Select(evidence: string, omitted: string, maxChars: nat, headChars: nat, tailChars: int): string {
    var selected := RStripBreaks(PreferHeadLine(evidence, headChars)) + omitted
                    + LStripBreaks(PreferTailLine(evidence, tailChars));
    if |selected| > maxChars then selected[..maxChars] else selected
  }

  /** A product, however it is rounded: with a ratio between zero and one it is between zero and
      the other factor. */
  ghost predicate Rounds(times: (nat, real) -> real) {
    forall n, ratio :: 0.0 < ratio < 1.0 ==> 0.0 <= times(n, ratio) <= n as real
  }

  function FitBudget(
    evidence: string, omitted: string, maxChars: int, headRatio: real, times: (nat, real) -> real): Budgeted
    requires Rounds(times)
  {
    if maxChars <= 0 then BadMaximum
    else if !(0.0 < headRatio < 1.0) then BadRatio
    else if |evidence| <= maxChars then Evidence(evidence, |evidence|, |evidence|, false)
    else if maxChars < |omitted| then TooSmallForMarker
    else
      var content := maxChars - |omitted|;
      var headChars := times(content, headRatio).Floor;
      var selected := Select(evidence, omitted, maxChars, headChars, content - headChars);
      Evidence(selected, |evidence|, |selected|, true)
  }

  function ApplyBudget(evidence: string, maxChars: int, headRatio: real, times: (nat, real) -> real): Budgeted
    requires Rounds(times)
  {
    FitBudget(evidence, OMITTED, maxChars, headRatio, times)
  }

  /** The selection keeps the text before p and from q on. */
  ghost predicate KeepsEnds(evidence: string, omitted: string, selected: string, p: int, q: int) {
    0 <= p <= q <= |evidence| && selected == evidence[..p] + omitted + evidence[q..]
  }

  lemma HeadIsPrefix(value: string, limit: nat)
    requires limit <= |value|
    ensures var head := PreferHeadLine(value, limit);
            && |head| <= limit && head == value[..|head|] && limit / 2 <= |head|
            && (head == value[..limit] || (|head| > 0 && head[|head| - 1] == '\n'))
  {
    var candidate := value[..limit];
    assert forall i :: 0 <= i < limit ==> candidate[i] == value[i];
  }

  /** Where the tail begins. */
  lemma TailStart(value: string, limit: nat) returns (k: nat)
    requires 0 < limit <= |value|
    ensures |value| - limit <= k <= |value| && limit - limit / 2 <= |value| - k
    ensures PreferTailLine(value, limit) == value[k..]
  {
    hide FirstNewline;
    k := |value| - limit;
    var boundary := FirstNewline(value[k..]);
    if 0 <= boundary < limit / 2 {
      TailOfTail(value, k, boundary + 1);
      k := k + (boundary + 1);
    }
  }

  lemma TailIsSuffix(value: string, limit: int)
    requires limit <= |value|
    ensures var tail := PreferTailLine(value, limit);
            && |tail| <= (if limit <= 0 then 0 else limit) && tail == value[|value| - |tail|..]
            && (limit > 0 ==> limit - limit / 2 <= |tail|)
  {
    if limit > 0 {
      var k := TailStart(value, limit);
      hide PreferTailLine;
      var tail := PreferTailLine(value, limit);
      assert |tail| == |value| - k;
      assert |value| - |tail| == k;
    }
  }

  lemma TailOfTail(t: string, i: nat, j: nat)
    requires i + j <= |t|
    ensures t[i..][j..] == t[i + j..]
  {
  }

  lemma {:induction false} LStripFrom(t: string, from: nat) returns (q: nat)
    requires from <= |t|
    ensures from <= q <= |t| && LStripBreaks(t[from..]) == t[q..]
    ensures forall i :: from <= i < q ==> IsBreak(t[i])
    decreases |t| - from
  {
    if from < |t| && IsBreak(t[from]) {
      TailOfTail(t, from, 1);
      q := LStripFrom(t, from + 1);
    } else {
      q := from;
    }
  }

  lemma {:induction false} RStripTo(t: string, end: nat) returns (p: nat)
    requires end <= |t|
    ensures p <= end && RStripBreaks(t[..end]) == t[..p]
    ensures forall i :: p <= i < end ==> IsBreak(t[i])
    decreases end
  {
    if end > 0 && IsBreak(t[end - 1]) {
      assert t[..end][..end - 1] == t[..end - 1];
      p := RStripTo(t, end - 1);
    } else {
      p := end;
    }
  }

  lemma KeptHead(evidence: string, limit: nat) returns (p: nat)
    requires limit <= |evidence|
    ensures p <= limit && RStripBreaks(PreferHeadLine(evidence, limit)) == evidence[..p]
    ensures forall i :: p <= i < limit / 2 ==> IsBreak(evidence[i])
  {
    hide PreferHeadLine, RStripBreaks, IsBreak;
    HeadIsPrefix(evidence, limit);
    p := RStripTo(evidence, |PreferHeadLine(evidence, limit)|);
  }

  lemma KeptTail(evidence: string, limit: nat) returns (q: nat)
    requires limit <= |evidence|
    ensures |evidence| - limit <= q <= |evidence|
    ensures LStripBreaks(PreferTailLine(evidence, limit)) == evidence[q..]
    ensures forall i :: |evidence| - limit + limit / 2 <= i < q ==> IsBreak(evidence[i])
  {
    hide PreferTailLine, LStripBreaks, IsBreak;
    TailIsSuffix(evidence, limit);
    q := LStripFrom(evidence, |evidence| - |PreferTailLine(evidence, limit)|);
  }

  /** Whatever the split, the selection is a prefix of the evidence, the marker, and a suffix,
      which do not overlap; it fits the limit, so that nothing is cut from it; and each side
      falls short of its share by at most half and the line breaks at the joint. */
  lemma SelectionKeepsEnds(evidence: string, omitted: string, maxChars: nat, headChars: nat, tailChars: nat)
    requires |omitted| + headChars + tailChars == maxChars < |evidence|
    ensures var selected := Select(evidence, omitted, maxChars, headChars, tailChars);
            && |selected| <= maxChars
            && exists p, q ::
                 && KeepsEnds(evidence, omitted, selected, p, q)
                 && p <= headChars && |evidence| - tailChars <= q
                 && (forall i :: p <= i < headChars / 2 ==> IsBreak(evidence[i]))
                 && (forall i :: |evidence| - tailChars + tailChars / 2 <= i < q ==> IsBreak(evidence[i]))
  {
    hide PreferHeadLine, PreferTailLine, RStripBreaks, LStripBreaks;
    var p := KeptHead(evidence, headChars);
    var q := KeptTail(evidence, tailChars);
    assert KeepsEnds(evidence, omitted, Select(evidence, omitted, maxChars, headChars, tailChars), p, q);
  }

  ghost predicate EndsKept(evidence: string, omitted: string, selected: string) {
    exists p, q :: KeepsEnds(evidence, omitted, selected, p, q)
  }

  lemma SplitKeepsEnds(evidence: string, omitted: string, maxChars: nat, headChars: nat)
    requires |omitted| <= maxChars < |evidence| && headChars <= maxChars - |omitted|
    ensures var selected := Select(evidence, omitted, maxChars, headChars, maxChars - |omitted| - headChars);
            |selected| <= maxChars && EndsKept(evidence, omitted, selected)
  {
    hide Select, KeepsEnds;
    SelectionKeepsEnds(evidence, omitted, maxChars, headChars, maxChars - |omitted| - headChars);
  }

  lemma TruncatedIsKept(
    evidence: string, omitted: string, maxChars: int, headRatio: real, times: (nat, real) -> real)
    requires Rounds(times) && 0 < maxChars < |evidence| && 0.0 < headRatio < 1.0 && |omitted| <= maxChars
    ensures var r := FitBudget(evidence, omitted, maxChars, headRatio, times);
            && r.Evidence? && r.truncated && r.originalChars == |evidence|
            && r.selectedChars == |r.text| <= maxChars && EndsKept(evidence, omitted, r.text)
  {
    SplitKeepsEnds(evidence, omitted, maxChars, times(maxChars - |omitted|, headRatio).Floor);
  }

  lemma FitIsKept(evidence: string, omitted: string, maxChars: int, headRatio: real, times: (nat, real) -> real)
    requires Rounds(times)
    ensures var r := FitBudget(evidence, omitted, maxChars, headRatio, times);
            && (r.BadMaximum? <==> maxChars <= 0)
            && (r.BadRatio? <==> maxChars > 0 && !(0.0 < headRatio < 1.0))
            && (r.TooSmallForMarker? <==>
                 0.0 < headRatio < 1.0 && 0 < maxChars < |evidence| && maxChars < |omitted|)
            && (r.Evidence? ==>
                 && r.selectedChars == |r.text| <= maxChars && r.originalChars == |evidence|
                 && (r.truncated <==> |evidence| > maxChars) && (!r.truncated ==> r.text == evidence)
                 && (r.truncated ==> EndsKept(evidence, omitted, r.text)))
  {
    if 0 < maxChars < |evidence| && 0.0 < headRatio < 1.0 && |omitted| <= maxChars {
      TruncatedIsKept(evidence, omitted, maxChars, headRatio, times);
    }
  }

  /** The result fits the limit; it is the evidence itself exactly when that fits; otherwise both
      ends are kept around the marker.  The refusals are exactly the bad arguments. */
  lemma BudgetIsKept(evidence: string, maxChars: int, headRatio: real, times: (nat, real) -> real)
    requires Rounds(times)
    ensures var r := ApplyBudget(evidence, maxChars, headRatio, times);
            && (r.BadMaximum? <==> maxChars <= 0)
            && (r.BadRatio? <==> maxChars > 0 && !(0.0 < headRatio < 1.0))
            && (r.TooSmallForMarker? <==>
                 0.0 < headRatio < 1.0 && 0 < maxChars < |evidence| && maxChars < |OMITTED|)
            && (r.Evidence? ==>
                 && r.selectedChars == |r.text| <= maxChars && r.originalChars == |evidence|
                 && (r.truncated <==> |evidence| > maxChars) && (!r.truncated ==> r.text == evidence)
                 && (r.truncated ==> EndsKept(evidence, OMITTED, r.text)))
  {
    FitIsKept(evidence, OMITTED, maxChars, headRatio, times);
    hide FitBudget, EndsKept, OMITTED;
  }

  // ---- exactly which characters are kept ----

  /** The head ends after its last newline past the middle of its share, or else at its share. */
  ghost predicate HeadEnds(t: string, share: nat, end: nat)
    requires share <= |t|
  {
    if exists i :: share / 2 < i < share && t[i] == '\n'
    then share / 2 + 1 < end <= share && t[end - 1] == '\n' && forall i :: end <= i < share ==> t[i] != '\n'
    else end == share
  }

  /** The tail begins after the first newline before the middle of its share, or else with it. */
  ghost predicate TailStarts(t: string, share: nat, start: nat)
    requires share <= |t|
  {
    var first := |t| - share;
    if exists i :: first <= i < first + share / 2 && t[i] == '\n'
    then && first < start <= first + share / 2 && t[start - 1] == '\n'
         && forall i :: first <= i < start - 1 ==> t[i] != '\n'
    else start == first
  }

  /** Without the carriage returns and newlines at its end. */
  ghost predicate StripsTo(t: string, end: nat, p: nat)
    requires end <= |t|
  {
    && p <= end && (forall i :: p <= i < end ==> t[i] == '\r' || t[i] == '\n')
    && (p > 0 ==> t[p - 1] != '\r' && t[p - 1] != '\n')
  }

  /** Without the carriage returns and newlines at its start. */
  ghost predicate StripsFrom(t: string, start: nat, q: nat) {
    && start <= q <= |t| && (forall i :: start <= i < q ==> t[i] == '\r' || t[i] == '\n')
    && (q < |t| ==> t[q] != '\r' && t[q] != '\n')
  }

  lemma HeadIs(t: string, share: nat) returns (end: nat)
    requires share <= |t|
    ensures end <= share && HeadEnds(t, share, end) && PreferHeadLine(t, share) == t[..end]
  {
    hide LastNewline;
    var candidate := t[..share];
    assert forall i :: 0 <= i < share ==> candidate[i] == t[i];
    var boundary := LastNewline(candidate);
    end := if boundary > share / 2 then boundary + 1 else share;
    if boundary > share / 2 { assert t[boundary] == '\n'; }
  }

  lemma TailIs(t: string, share: nat) returns (start: nat)
    requires share <= |t|
    ensures |t| - share <= start <= |t| && TailStarts(t, share, start) && PreferTailLine(t, share) == t[start..]
  {
    hide FirstNewline;
    start := |t| - share;
    if share > 0 {
      var candidate := t[start..];
      assert forall i :: start <= i < |t| ==> candidate[i - start] == t[i];
      var boundary := FirstNewline(candidate);
      if 0 <= boundary < share / 2 {
        TailOfTail(t, start, boundary + 1);
        start := start + (boundary + 1);
        assert t[start - 1] == candidate[boundary];
      }
    }
  }

  lemma {:induction false} RStripIs(t: string, end: nat) returns (p: nat)
    requires end <= |t|
    ensures StripsTo(t, end, p) && RStripBreaks(t[..end]) == t[..p]
    decreases end
  {
    if end > 0 && (t[end - 1] == '\r' || t[end - 1] == '\n') {
      assert t[..end][..end - 1] == t[..end - 1];
      p := RStripIs(t, end - 1);
    } else {
      p := end;
    }
  }

  lemma {:induction false} LStripIs(t: string, start: nat) returns (q: nat)
    requires start <= |t|
    ensures StripsFrom(t, start, q) && LStripBreaks(t[start..]) == t[q..]
    decreases |t| - start
  {
    if start < |t| && (t[start] == '\r' || t[start] == '\n') {
      TailOfTail(t, start, 1);
      q := LStripIs(t, start + 1);
    } else {
      q := start;
    }
  }

  /** A selection, character for character. */
  lemma SelectionIs(evidence: string, omitted: string, maxChars: nat, head: nat, tail: nat)
    returns (end: nat, p: nat, start: nat, q: nat)
    requires |omitted| + head + tail == maxChars < |evidence|
    ensures HeadEnds(evidence, head, end) && TailStarts(evidence, tail, start)
    ensures end <= |evidence| && start <= |evidence| && StripsTo(evidence, end, p) && StripsFrom(evidence, start, q)
    ensures p <= |evidence| && q <= |evidence|
    ensures Select(evidence, omitted, maxChars, head, tail) == evidence[..p] + omitted + evidence[q..]
  {
    end := HeadIs(evidence, head);
    start := TailIs(evidence, tail);
    p := RStripIs(evidence, end);
    q := LStripIs(evidence, start);
    hide PreferHeadLine, PreferTailLine, RStripBreaks, LStripBreaks, HeadEnds, TailStarts;
  }

  /** Truncated evidence: the head's share is the ratio of what the marker leaves, rounded down, and
      the tail's share is the rest. */
  lemma TruncationIs(evidence: string, omitted: string, maxChars: nat, headRatio: real, times: (nat, real) -> real)
    returns (end: nat, p: nat, start: nat, q: nat)
    requires Rounds(times) && 0.0 < headRatio < 1.0 && 0 < maxChars < |evidence| && |omitted| <= maxChars
    ensures var share := times(maxChars - |omitted|, headRatio).Floor;
            && 0 <= share <= maxChars - |omitted| && HeadEnds(evidence, share, end)
            && TailStarts(evidence, maxChars - |omitted| - share, start)
    ensures end <= |evidence| && start <= |evidence| && StripsTo(evidence, end, p) && StripsFrom(evidence, start, q)
    ensures p <= |evidence| && q <= |evidence|
    ensures FitBudget(evidence, omitted, maxChars, headRatio, times) ==
            Evidence(evidence[..p] + omitted + evidence[q..], |evidence|, p + |omitted| + (|evidence| - q), true)
  {
    hide Select, HeadEnds, TailStarts, StripsTo, StripsFrom;
    var share := times(maxChars - |omitted|, headRatio).Floor;
    end, p, start, q := SelectionIs(evidence, omitted, maxChars, share, maxChars - |omitted| - share);
  }
}
