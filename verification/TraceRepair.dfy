/** Analysis and repair of one trace file (core/state_integrity.py:501-537). */
module TraceRepair {
  import opened Options
  import opened TraceLines

  datatype Analysis = Analysis(
    original: Bytes, repaired: Bytes,
    torn: bool, corrupt: bool, limitReached: bool, oversized: bool)

  predicate Keep<T>(c: Codec<T>, payload: Bytes) { !Blank(payload) && c.Good(payload) }

  predicate Bad<T>(c: Codec<T>, payload: Bytes) { !Blank(payload) && !c.Good(payload) }

  function Kept<T>(c: Codec<T>, lines: seq<Bytes>): seq<Bytes> {
    if lines == [] then []
    else
      var n := |lines| - 1;
      Kept(c, lines[..n]) + (if Keep(c, lines[n]) then [lines[n]] else [])
  }

  /** The valid records of a file, oldest first. */
  function Records<T>(c: Codec<T>, s: Bytes): seq<T> { Parsed(c, Kept(c, SplitLines(s))) }

  function Parsed<T>(c: Codec<T>, payloads: seq<Bytes>): seq<T> {
    if payloads == [] then []
    else
      var n := |payloads| - 1;
      Parsed(c, payloads[..n]) +
      match c.parse(payloads[n]) case Some(t) => [t] case None => []
  }

  predicate Torn(s: Bytes) { s != "" && s[|s| - 1] != '\n' }

  predicate Corrupt<T>(c: Codec<T>, lines: seq<Bytes>, torn: bool) {
    exists i :: 0 <= i < |lines| && Bad(c, lines[i]) && !(torn && i == |lines| - 1)
  }

  function Analyze<T>(c: Codec<T>, s: Bytes, maximum: nat): Analysis {
    if |s| > maximum then Analysis("", "", false, true, false, true)
    else if |SplitKeep(s)| > MAX_RECOVERY_RECORDS then Analysis(s, s, false, false, true, false)
    else
      var lines := SplitLines(s);
      Analysis(s, Render(Kept(c, lines)), Torn(s), Corrupt(c, lines, Torn(s)), false, false)
  }

  lemma {:induction false} LastLine(s: Bytes)
    requires s != ""
    ensures var lines := SplitKeep(s);
            lines != [] && lines[|lines| - 1] != "" &&
            lines[|lines| - 1][|lines[|lines| - 1]| - 1] == s[|s| - 1]
    decreases |s|
  {
    hide LineLength;
    var n := LineLength(s);
    if n < |s| {
      LastLine(s[n..]);
      LastByteOfRest(s, n);
      LastOfRest(s[..n], SplitKeep(s[n..]));
      assert SplitKeep(s) == [s[..n]] + SplitKeep(s[n..]);
      hide SplitKeep;
    } else {
      assert s[..n] == s && s[n..] == "";
    }
  }

  method AnalyzeTrace<T>(c: Codec<T>, file: Option<Bytes>, maximum: nat) returns (analysis: Option<Analysis>)
    ensures file.None? ==> analysis == None
    ensures file.Some? ==> analysis == Some(Analyze(c, file.value, maximum))
  {
    hide Kept, Corrupt, Render, SplitLines, LineLength, StripBreaks;
    if file.None? { return None; }
    var original := file.value;
    if |original| > maximum { return Some(Analysis("", "", false, true, false, true)); }
    var lines := SplitKeep(original);
    if |lines| > MAX_RECOVERY_RECORDS {
      return Some(Analysis(original, original, false, false, true, false));
    }
    var torn := lines != [] && EndsOpen(lines[|lines| - 1]);
    if original != "" { LastLine(original); }
    SplitAgrees(original);
    var repaired, corrupt := SiftLines(c, lines, SplitLines(original), torn);
    return Some(Analysis(original, Render(repaired), torn, corrupt, false, false));
  }

  predicate EndsOpen(line: Bytes) { line == "" || line[|line| - 1] != '\n' }

  method SiftLines<T>(c: Codec<T>, lines: seq<Bytes>, ghost texts: seq<Bytes>, torn: bool)
    returns (repaired: seq<Bytes>, corrupt: bool)
    requires |lines| == |texts|
    requires forall i :: 0 <= i < |lines| ==> StripBreaks(lines[i]) == texts[i]
    ensures repaired == Kept(c, texts)
    ensures corrupt == Corrupt(c, texts, torn)
  {
    corrupt := false;
    repaired := [];
    for index := 0 to |lines|
      invariant repaired == Kept(c, texts[..index])
      invariant corrupt <==> exists i :: 0 <= i < index && Bad(c, texts[i]) && !(torn && i == |texts| - 1)
    {
      var finalTorn := torn && index == |lines| - 1;
      var payload := StripBreaks(lines[index]);
      assert texts[..index + 1][..index] == texts[..index];
      if Blank(payload) {
      } else if |payload| > MAX_TRACE_CHARS || c.parse(payload).None? {
        if !finalTorn { corrupt := true; }
      } else {
        repaired := repaired + [payload];
      }
    }
    assert texts[..|lines|] == texts;
  }

  // ---- what repair keeps ----

  lemma {:induction false} KeptAppend<T>(c: Codec<T>, a: seq<Bytes>, b: seq<Bytes>)
    ensures Kept(c, a + b) == Kept(c, a) + Kept(c, b)
    decreases |b|
  {
    if b == [] {
      assert a + b == a;
    } else {
      var n := |b| - 1;
      KeptAppend(c, a, b[..n]);
      assert (a + b)[..|a| + n] == a + b[..n];
    }
  }

  lemma {:induction false} KeptKeeps<T>(c: Codec<T>, lines: seq<Bytes>)
    ensures forall p :: p in Kept(c, lines) ==> p in lines && Keep(c, p)
    ensures |Kept(c, lines)| <= |lines|
    decreases |lines|
  {
    if lines != [] { KeptKeeps(c, lines[..|lines| - 1]); }
  }

  lemma {:induction false} KeptAll<T>(c: Codec<T>, payloads: seq<Bytes>)
    requires forall p :: p in payloads ==> Keep(c, p)
    ensures Kept(c, payloads) == payloads
    decreases |payloads|
  {
    if payloads != [] {
      var n := |payloads| - 1;
      forall p | p in payloads[..n] ensures Keep(c, p) { assert p in payloads; }
      KeptAll(c, payloads[..n]);
      assert payloads[n] in payloads;
      assert payloads == payloads[..n] + [payloads[n]];
    }
  }

  lemma RepairedLines<T>(c: Codec<T>, s: Bytes)
    ensures var kept := Kept(c, SplitLines(s));
            && SplitLines(Render(kept)) == kept && |SplitKeep(Render(kept))| == |kept|
            && (forall p :: p in kept ==> LineFree(p) && Keep(c, p))
            && Kept(c, kept) == kept && |kept| <= |SplitKeep(s)|
            && !Torn(Render(kept))
  {
    var lines := SplitLines(s);
    var kept := Kept(c, lines);
    SplitAgrees(s);
    KeptKeeps(c, lines);
    forall p | p in kept ensures LineFree(p) && Keep(c, p) {
      var i :| 0 <= i < |lines| && lines[i] == p;
    }
    SplitRendered(kept);
    KeptAll(c, kept);
    RenderEnds(kept);
  }

  lemma {:induction false} RenderEnds(payloads: seq<Bytes>)
    ensures !Torn(Render(payloads))
    decreases |payloads|
  {
    if payloads != [] { RenderEnds(payloads[1..]); }
  }

  /** Repair keeps exactly the valid records, in order, and leaves no other line behind. */
  lemma RepairKeepsRecords<T>(c: Codec<T>, s: Bytes)
    ensures var fixed := Render(Kept(c, SplitLines(s)));
            && Records(c, fixed) == Records(c, s)
            && (forall l :: l in SplitLines(fixed) ==> Keep(c, l) && l in SplitLines(s))
  {
    RepairedLines(c, s);
    KeptKeeps(c, SplitLines(s));
  }

  lemma {:induction false} KeptOne<T>(c: Codec<T>, payloads: seq<Bytes>, last: Bytes)
    requires forall p :: p in payloads ==> Keep(c, p)
    ensures Kept(c, payloads + [last]) == payloads + (if Keep(c, last) then [last] else [])
  {
    KeptAll(c, payloads);
    assert (payloads + [last])[..|payloads|] == payloads;
  }

  /** Analysing a repaired file finds nothing to repair, exactly when the repaired file still
      fits the size limit; otherwise it is oversized. */
  lemma RepairIsIdempotent<T>(c: Codec<T>, s: Bytes, maximum: nat)
    requires |s| <= maximum && |SplitKeep(s)| <= MAX_RECOVERY_RECORDS
    ensures var fixed := Analyze(c, s, maximum).repaired;
            Analyze(c, fixed, maximum) ==
              if |fixed| <= maximum then Analysis(fixed, fixed, false, false, false, false)
              else Analysis("", "", false, true, false, true)
  {
    var kept := Kept(c, SplitLines(s));
    var fixed := Render(kept);
    RepairedLines(c, s);
    assert Analyze(c, s, maximum).repaired == fixed;
    if |fixed| <= maximum {
      assert !Corrupt(c, kept, false) by {
        forall i | 0 <= i < |kept| ensures !Bad(c, kept[i]) { assert kept[i] in kept; }
      }
    }
  }

  /** The file ends, without any line break, in a valid record. */
  predicate ValidUnended<T>(c: Codec<T>, s: Bytes) {
    && s != "" && s[|s| - 1] != '\n' && s[|s| - 1] != '\r'
    && Keep(c, SplitLines(s)[|SplitLines(s)| - 1])
  }

  lemma OnlyLineUnended<T>(c: Codec<T>, s: Bytes, k: nat)
    requires s != "" && k <= |s| && SplitLines(s) == [s[..k]] + SplitLines("")
    requires k == |s| || s[k] == '\n' || s[k] == '\r'
    requires s == s[..k] + Terminator(s[k..]) && LineFree(s[..k])
    ensures ValidUnended(c, s) <==> k == |s| && Keep(c, s[..k])
  {
    hide Keep;
    assert SplitLines(s) == [s[..k]];
    if k == |s| { assert s[..k] == s && s[|s| - 1] in s; }
  }

  lemma SplitNonEmpty(s: Bytes)
    requires s != ""
    ensures SplitLines(s) != []
  {
  }

  lemma LastOfRest(text: Bytes, tail: seq<Bytes>)
    requires tail != []
    ensures ([text] + tail)[|tail|] == tail[|tail| - 1]
  {
  }

  lemma LastByteOfRest(s: Bytes, n: nat)
    requires n < |s|
    ensures s[n..] != "" && s[n..][|s[n..]| - 1] == s[|s| - 1]
  {
  }

  lemma UnendedInRest<T>(c: Codec<T>, s: Bytes, text: Bytes, n: nat)
    requires 0 < n < |s| && SplitLines(s) == [text] + SplitLines(s[n..])
    ensures ValidUnended(c, s) <==> ValidUnended(c, s[n..])
  {
    hide Keep, SplitLines;
    LastByteOfRest(s, n);
    var rest := s[n..];
    SplitNonEmpty(rest);
    var tail := SplitLines(rest);
    LastOfRest(text, tail);
    var lines := SplitLines(s);
    assert |lines| - 1 == |tail|;
    assert lines[|lines| - 1] == tail[|tail| - 1];
  }

  /** Repair never grows a file, except by the one LF an unended valid record lacks. */
  lemma {:induction false} RepairLength<T>(c: Codec<T>, s: Bytes)
    ensures |Render(Kept(c, SplitLines(s)))| <= |s| + (if ValidUnended(c, s) then 1 else 0)
    decreases |s|
  {
    if s != "" {
      hide LineLength, TextLength, StripBreaks, LineFree, Keep, Render, Kept, ValidUnended, Terminator;
      var n, k := LineLength(s), TextLength(s);
      var line, text, rest := s[..n], s[..k], s[n..];
      FirstLine(s);
      StripEnded(line, text, Terminator(s[k..]));
      RepairFirstLine(c, text, SplitLines(rest));
      assert SplitLines(s) == [text] + SplitLines(rest);
      RepairLength(c, rest);
      if rest == "" {
        assert line == s;
        OnlyLineUnended(c, s, k);
      } else {
        assert line != text;
        UnendedInRest(c, s, text, n);
      }
    }
  }

  lemma RepairFirstLine<T>(c: Codec<T>, text: Bytes, tail: seq<Bytes>)
    ensures |Render(Kept(c, [text] + tail))| ==
            |Render(Kept(c, tail))| + if Keep(c, text) then |text| + 1 else 0
  {
    KeptAppend(c, [text], tail);
    assert Kept(c, [text][..0]) == [];
    RenderAppend(Kept(c, [text]), Kept(c, tail));
    if Keep(c, text) {
      assert Kept(c, [text]) == [text];
      assert Render([text]) == text + "\n" + Render([]);
    }
  }

  /** A concrete file that repair makes longer, so that a limit equal to its size makes the
      repaired file oversized. */
  lemma RepairCanOutgrowTheLimit<T>(c: Codec<T>, payload: Bytes)
    requires LineFree(payload) && payload != "" && Keep(c, payload)
    ensures var a := Analyze(c, payload, |payload|);
            && a.torn && !a.corrupt && a.repaired == payload + "\n"
            && Analyze(c, a.repaired, |payload|).oversized
  {
    SplitRender([], payload);
    assert Render([]) + payload == payload;
    assert SplitLines(payload) == [payload] && |SplitKeep(payload)| == 1;
    assert Kept(c, [payload][..0]) == [];
    assert Kept(c, [payload]) == [payload];
    assert payload[|payload| - 1] in payload;
    assert Render([payload]) == payload + "\n";
    forall i | 0 <= i < |SplitLines(payload)| ensures !Bad(c, SplitLines(payload)[i]) {}
  }
}
