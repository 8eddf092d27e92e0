/** Trace files as bytes: line splitting, the record codec, analysis and repair of one file
    (core/state_integrity.py:501-537) and the lines a scan reads (core/execution_trace.py:855-915).

    A byte is written as one character.  JSON and the trace schema are a pair of functions. */
module TraceLines {
  import opened Options

  type Bytes = string

  const MAX_TRACE_CHARS := 262_144
  const MAX_RECOVERY_RECORDS := 1_000

  /** `encode` renders a terminal trace on one line, `parse` is JSON decoding followed by
      the schema checks of `from_safe_dict`. */
  datatype Codec<!T> = Codec(encode: T -> Bytes, parse: Bytes -> Option<T>) {
    predicate Good(payload: Bytes) {
      |payload| <= MAX_TRACE_CHARS && parse(payload).Some?
    }
  }

  // ---- lines ----

  predicate LineFree(s: Bytes) { '\n' !in s && '\r' !in s }

  function LineLength(s: Bytes): (n: nat)
    requires s != ""
    ensures 1 <= n <= |s|
  {
    if s[0] == '\n' then 1
    else if s[0] == '\r' then (if |s| > 1 && s[1] == '\n' then 2 else 1)
    else if |s| == 1 then 1
    else 1 + LineLength(s[1..])
  }

  /** `bytes.splitlines(keepends=True)`: lines end at LF, CR or CR LF. */
  function SplitKeep(s: Bytes): seq<Bytes> {
    if s == "" then [] else [s[..LineLength(s)]] + SplitKeep(s[LineLength(s)..])
  }

  /** One line without its terminator, as `splitlines()` returns it. */
  function Chomp(line: Bytes): Bytes {
    var n := |line|;
    if n >= 2 && line[n - 2] == '\r' && line[n - 1] == '\n' then line[..n - 2]
    else if n >= 1 && (line[n - 1] == '\n' || line[n - 1] == '\r') then line[..n - 1]
    else line
  }

  function SplitLines(s: Bytes): seq<Bytes> {
    if s == "" then [] else [Chomp(s[..LineLength(s)])] + SplitLines(s[LineLength(s)..])
  }

  /** `rstrip(b"\r\n")`. */
  function StripBreaks(line: Bytes): Bytes {
    if line != "" && (line[|line| - 1] == '\n' || line[|line| - 1] == '\r')
    then StripBreaks(line[..|line| - 1]) else line
  }

  predicate Blank(s: Bytes) {
    forall i :: 0 <= i < |s| ==> s[i] in " \t\n\r\U{B}\U{C}"
  }

  /** The lines `payloads`, each with a final LF. */
  function Render(payloads: seq<Bytes>): Bytes {
    if payloads == [] then "" else payloads[0] + "\n" + Render(payloads[1..])
  }

  lemma {:induction false} StripLineFree(s: Bytes)
    requires LineFree(s)
    ensures StripBreaks(s) == s
    ensures StripBreaks(s + "\n") == s && StripBreaks(s + "\r") == s && StripBreaks(s + "\r\n") == s
    ensures Chomp(s) == s && Chomp(s + "\n") == s && Chomp(s + "\r") == s && Chomp(s + "\r\n") == s
  {
    assert s != "" ==> s[|s| - 1] in s;
    assert StripBreaks(s) == s;
    assert (s + "\n")[..|s|] == s && (s + "\r")[..|s|] == s;
    assert (s + "\r\n")[..|s| + 1] == s + "\r" && (s + "\r\n")[..|s|] == s;
    assert |s| >= 1 ==> (s + "\n")[|s| - 1] in s;
    assert |s| >= 2 ==> s[|s| - 2] in s;
  }

  function TextLength(s: Bytes): (k: nat)
    ensures k <= |s|
  {
    if s == "" || s[0] == '\n' || s[0] == '\r' then 0 else 1 + TextLength(s[1..])
  }

  function Terminator(s: Bytes): Bytes
    requires s == "" || s[0] == '\n' || s[0] == '\r'
  {
    if s == "" then "" else if s[0] == '\n' then "\n"
    else if |s| > 1 && s[1] == '\n' then "\r\n" else "\r"
  }

  lemma {:induction false} LineEnds(s: Bytes)
    requires s != ""
    ensures var k := TextLength(s);
            && LineFree(s[..k])
            && (k == |s| || s[k] == '\n' || s[k] == '\r')
            && LineLength(s) == k + |Terminator(s[k..])|
    decreases |s|
  {
    if s[0] != '\n' && s[0] != '\r' {
      var k := TextLength(s[1..]);
      assert TextLength(s) == 1 + k;
      if |s| == 1 {
        assert s[..1] == s;
      } else {
        LineEnds(s[1..]);
        assert s[..k + 1] == [s[0]] + s[1..][..k];
        assert s[k + 1..] == s[1..][k..];
      }
    }
  }

  /** A split line is line-free text and at most one terminator; only the last line can
      lack a terminator. */
  lemma FirstLine(s: Bytes)
    requires s != ""
    ensures var line := s[..LineLength(s)];
            var k := TextLength(s);
            && (k == |s| || s[k] == '\n' || s[k] == '\r')
            && LineFree(s[..k])
            && line == s[..k] + Terminator(s[k..])
            && (line == s[..k] ==> line == s)
  {
    hide LineFree, LineLength, TextLength, Terminator;
    LineEnds(s);
    var k := TextLength(s);
    TerminatorStarts(s[k..]);
    PrefixJoins(s, k, Terminator(s[k..]));
  }

  lemma PrefixJoins(s: Bytes, k: nat, end: Bytes)
    requires k <= |s| && end <= s[k..]
    ensures s[..k + |end|] == s[..k] + end
    ensures s[..k] + end == s[..k] ==> end == ""
  {
    if s[..k] + end == s[..k] { assert |end| == 0; }
  }

  lemma TerminatorStarts(s: Bytes)
    requires s == "" || s[0] == '\n' || s[0] == '\r'
    ensures Terminator(s) <= s && (Terminator(s) == "" ==> s == "")
  {
  }

  /** `splitlines()` and `rstrip` agree on the text of a line. */
  lemma StripEnded(line: Bytes, text: Bytes, end: Bytes)
    requires LineFree(text) && line == text + end
    requires end == "" || end == "\n" || end == "\r" || end == "\r\n"
    ensures StripBreaks(line) == text && Chomp(line) == text
  {
    StripLineFree(text);
    if end == "" { assert line == text; }
    else if end == "\n" { assert line == text + "\n"; }
    else if end == "\r" { assert line == text + "\r"; }
    else { assert line == text + "\r\n"; }
  }

  lemma {:induction false} SplitAgrees(s: Bytes)
    ensures |SplitKeep(s)| == |SplitLines(s)|
    ensures forall i :: 0 <= i < |SplitLines(s)| ==> LineFree(SplitLines(s)[i])
    ensures forall i :: 0 <= i < |SplitLines(s)| ==> StripBreaks(SplitKeep(s)[i]) == SplitLines(s)[i]
    decreases |s|
  {
    hide LineFree, StripBreaks, LineLength, TextLength;
    if s != "" {
      var n, k := LineLength(s), TextLength(s);
      FirstLine(s);
      StripEnded(s[..n], s[..k], Terminator(s[k..]));
      var keep, text := SplitKeep(s[n..]), SplitLines(s[n..]);
      SplitAgrees(s[n..]);
      assert SplitKeep(s) == [s[..n]] + keep && SplitLines(s) == [s[..k]] + text;
    }
  }

  lemma {:induction false} SplitRenderedLine(p: Bytes, rest: Bytes)
    requires LineFree(p)
    ensures LineLength(p + "\n" + rest) == |p| + 1
    decreases |p|
  {
    var s := p + "\n" + rest;
    if p == "" {
    } else {
      assert s[0] in p;
      SplitRenderedLine(p[1..], rest);
      assert s[1..] == p[1..] + "\n" + rest;
    }
  }

  lemma {:induction false} SplitUnterminated(p: Bytes)
    requires LineFree(p) && p != ""
    ensures LineLength(p) == |p|
    decreases |p|
  {
    assert p[0] in p;
    if |p| > 1 { SplitUnterminated(p[1..]); }
  }

  function Ended(payloads: seq<Bytes>): seq<Bytes> {
    seq(|payloads|, i requires 0 <= i < |payloads| => payloads[i] + "\n")
  }

  lemma SplitStep(p: Bytes, rest: Bytes)
    requires LineFree(p)
    ensures SplitLines(p + "\n" + rest) == [p] + SplitLines(rest)
    ensures SplitKeep(p + "\n" + rest) == [p + "\n"] + SplitKeep(rest)
  {
    var s := p + "\n" + rest;
    SplitRenderedLine(p, rest);
    StripLineFree(p);
    assert s[..|p| + 1] == p + "\n" && s[|p| + 1..] == rest;
  }

  lemma SplitTail(tail: Bytes)
    requires LineFree(tail)
    ensures SplitLines(tail) == SplitKeep(tail) == if tail == "" then [] else [tail]
  {
    if tail != "" {
      SplitUnterminated(tail);
      StripLineFree(tail);
      assert tail[..|tail|] == tail && tail[|tail|..] == "";
    }
  }

  /** Splitting undoes rendering, whatever unterminated text follows. */
  lemma {:induction false} SplitRender(payloads: seq<Bytes>, tail: Bytes)
    requires forall p :: p in payloads ==> LineFree(p)
    requires LineFree(tail)
    ensures SplitLines(Render(payloads) + tail) == payloads + (if tail == "" then [] else [tail])
    ensures SplitKeep(Render(payloads) + tail) == Ended(payloads) + (if tail == "" then [] else [tail])
    decreases |payloads|
  {
    hide LineFree, SplitLines, SplitKeep;
    var s := Render(payloads) + tail;
    if payloads == [] {
      assert s == tail;
      SplitTail(tail);
    } else {
      var p := payloads[0];
      var rest := Render(payloads[1..]) + tail;
      SplitRender(payloads[1..], tail);
      assert s == p + "\n" + rest;
      SplitStep(p, rest);
      assert payloads == [p] + payloads[1..];
      assert Ended(payloads) == [p + "\n"] + Ended(payloads[1..]);
    }
  }

  lemma SplitRendered(payloads: seq<Bytes>)
    requires forall p :: p in payloads ==> LineFree(p)
    ensures SplitLines(Render(payloads)) == payloads && |SplitKeep(Render(payloads))| == |payloads|
  {
    SplitRender(payloads, "");
    assert Render(payloads) + "" == Render(payloads);
    assert payloads + [] == payloads;
  }

  lemma {:induction false} RenderAppend(a: seq<Bytes>, b: seq<Bytes>)
    ensures Render(a + b) == Render(a) + Render(b)
    decreases |a|
  {
    if a == [] {
      assert a + b == b;
    } else {
      RenderAppend(a[1..], b);
      assert (a + b)[1..] == a[1..] + b;
    }
  }
}
