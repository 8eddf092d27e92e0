/** What readers see over every run of the trace store, also one that is never tended
    (core/execution_trace.py:799-910, core/state_integrity.py:815-883). */
module TraceReads {
  import opened Options
  import opened TraceLines
  import opened TraceRepair
  import opened TraceStore
  import opened TraceScan
  import opened TraceFiles
  import opened TraceLog

  // ---- the shape of a file ----

  /** Text left by one or more writes that were cut before their line end. */
  ghost predicate Glue<T(!new)>(c: Codec<T>, g: Bytes) {
    exists pieces: seq<Bytes> :: pieces != [] && g == Joined(pieces) && AllPieces(c, pieces)
  }

  function Joined(pieces: seq<Bytes>): Bytes {
    if pieces == [] then "" else Joined(pieces[..|pieces| - 1]) + pieces[|pieces| - 1]
  }

  ghost predicate AllPieces<T(!new)>(c: Codec<T>, pieces: seq<Bytes>) {
    forall i :: 0 <= i < |pieces| ==> pieces[i] != "" && exists t :: pieces[i] <= c.encode(t)
  }

  /** What a reader gets from glued text with more text behind it, if that happens to parse. */
  ghost predicate FromGlue<T(!new)>(c: Codec<T>, record: T) {
    exists g, t, n: nat :: Parses(c, g, t, n) && c.parse(g + c.encode(t)[..n]) == Some(record)
  }

  ghost predicate Parses<T(!new)>(c: Codec<T>, g: Bytes, t: T, n: nat) {
    Glue(c, g) && 0 < n <= |c.encode(t)| && Keep(c, g + c.encode(t)[..n])
  }

  /** Text glued together from cut writes and more text never parses. */
  ghost predicate Unglued<T(!new)>(c: Codec<T>) { forall g, t, n: nat :: !Parses(c, g, t, n) }

  /** A codec of two records that has both properties. */
  function TwoRecords(): Codec<bool> {
    Codec(t => if t then "[1]" else "[0]",
          s => if s == "[1]" then Some(true) else if s == "[0]" then Some(false) else None)
  }

  lemma TwoRecordsUnglued()
    ensures Unglued(TwoRecords())
  {
    var c := TwoRecords();
    forall g, t, n: nat ensures !Parses(c, g, t, n) {
      if Glue(c, g) && 0 < n <= |c.encode(t)| {
        GlueIsText(c, g);
        assert (g + c.encode(t)[..n])[|g|] == '[';
      }
    }
  }

  lemma TwoRecordsLawful()
    ensures Lawful(TwoRecords())
  {
    var c := TwoRecords();
    forall t ensures c.parse(c.encode(t)) == Some(t) && LineFree(c.encode(t)) && !Blank(c.encode(t)) {
      assert c.encode(t)[0] == '[';
    }
    forall t, n: nat | n < |c.encode(t)| ensures c.parse(c.encode(t)[..n]).None? {
      assert |c.encode(t)[..n]| < 3;
    }
  }

  lemma GlueIsText<T(!new)>(c: Codec<T>, g: Bytes)
    requires Glue(c, g)
    ensures g != ""
  {
  }

  // ---- what explains what is read ----

  ghost predicate Subsequence<T>(part: seq<T>, whole: seq<T>)
    decreases |whole|
  {
    part == [] ||
    (whole != [] &&
     (|| (part[|part| - 1] == whole[|whole| - 1] && Subsequence(part[..|part| - 1], whole[..|whole| - 1]))
      || Subsequence(part, whole[..|whole| - 1])))
  }

  /** Apart from records that come from glued text, `part` is a subsequence of `whole`. */
  ghost predicate Explained<T(!new)>(c: Codec<T>, part: seq<T>, whole: seq<T>)
    decreases |part| + |whole|
  {
    || part == []
    || (FromGlue(c, part[|part| - 1]) && Explained(c, part[..|part| - 1], whole))
    || ( && whole != []
         && (|| (part[|part| - 1] == whole[|whole| - 1] && Explained(c, part[..|part| - 1], whole[..|whole| - 1]))
             || Explained(c, part, whole[..|whole| - 1])))
  }

  lemma {:induction false} ExplainsJoin<T(!new)>(c: Codec<T>, a: seq<T>, b: seq<T>, e: seq<T>, d: seq<T>)
    requires Explained(c, a, b) && Explained(c, e, d)
    ensures Explained(c, a + e, b + d)
    decreases |e| + |d|
  {
    hide FromGlue;
    if e == [] && d == [] {
      assert a + e == a && b + d == b;
    } else if e != [] && FromGlue(c, e[|e| - 1]) && Explained(c, e[..|e| - 1], d) {
      ExplainsJoin(c, a, b, e[..|e| - 1], d);
      assert (a + e)[..|a + e| - 1] == a + e[..|e| - 1];
    } else {
      var d' := d[..|d| - 1];
      assert (b + d)[..|b + d| - 1] == b + d';
      if e == [] || Explained(c, e, d') {
        ExplainsJoin(c, a, b, e, d');
      } else {
        ExplainsJoin(c, a, b, e[..|e| - 1], d');
        assert (a + e)[..|a + e| - 1] == a + e[..|e| - 1];
      }
    }
  }

  lemma {:induction false} ExplainsSelf<T(!new)>(c: Codec<T>, a: seq<T>)
    ensures Explained(c, a, a)
    decreases |a|
  {
    hide FromGlue;
    if a != [] { ExplainsSelf(c, a[..|a| - 1]); }
  }

  lemma {:induction false} ExplainsTransitive<T(!new)>(c: Codec<T>, a: seq<T>, b: seq<T>, d: seq<T>)
    requires Explained(c, a, b) && Explained(c, b, d)
    ensures Explained(c, a, d)
    decreases |a| + |b| + |d|
  {
    hide FromGlue;
    if a != [] {
      var a' := a[..|a| - 1];
      if FromGlue(c, a[|a| - 1]) && Explained(c, a', b) {
        ExplainsTransitive(c, a', b, d);
      } else {
        var b' := b[..|b| - 1];
        if FromGlue(c, b[|b| - 1]) && Explained(c, b', d) {
          ExplainsTransitive(c, if Explained(c, a, b') then a else a', b', d);
        } else if Explained(c, b, d[..|d| - 1]) {
          ExplainsTransitive(c, a, b, d[..|d| - 1]);
        } else {
          ExplainsTransitive(c, if Explained(c, a, b') then a else a', b', d[..|d| - 1]);
        }
      }
    }
  }

  lemma ExplainsLonger<T(!new)>(c: Codec<T>, a: seq<T>, more: seq<T>)
    ensures Explained(c, a, a + more)
  {
    ExplainsSelf(c, a);
    ExplainsJoin(c, a, a, [], more);
    assert a + [] == a;
  }

  lemma ExplainsGlued<T(!new)>(c: Codec<T>, a: seq<T>, b: seq<T>, record: T)
    requires Explained(c, a, b) && FromGlue(c, record)
    ensures Explained(c, a + [record], b)
  {
    assert (a + [record])[..|a|] == a;
  }

  /** If glued text never parses, only the subsequence is left. */
  lemma {:induction false} ExplainedIsSubsequence<T(!new)>(c: Codec<T>, part: seq<T>, whole: seq<T>)
    requires Unglued(c) && Explained(c, part, whole)
    ensures Subsequence(part, whole)
    decreases |whole|
  {
    if part != [] {
      assert !FromGlue(c, part[|part| - 1]);
      hide FromGlue, Unglued;
      if Explained(c, part, whole[..|whole| - 1]) {
        ExplainedIsSubsequence(c, part, whole[..|whole| - 1]);
      } else {
        ExplainedIsSubsequence(c, part[..|part| - 1], whole[..|whole| - 1]);
      }
    }
  }

  // ---- one write ----

  ghost predicate ShapedBy<T(!new)>(c: Codec<T>, s: Bytes, lines: seq<Bytes>, tail: Bytes) {
    && s == Render(lines) + tail && (forall l :: l in lines ==> LineFree(l))
    && LineFree(tail) && (tail == "" || Glue(c, tail))
  }

  /** Every file is lines and possibly some glued text. */
  ghost predicate Shaped<T(!new)>(c: Codec<T>, s: Bytes) {
    exists lines, tail :: ShapedBy(c, s, lines, tail)
  }

  function Read<T>(c: Codec<T>, lines: seq<Bytes>): seq<T> { Parsed(c, Kept(c, lines)) }

  /** What a reader gets from one line. */
  function KeptRecord<T>(c: Codec<T>, l: Bytes): seq<T> { if Keep(c, l) then [c.parse(l).value] else [] }

  lemma ReadOneMore<T>(c: Codec<T>, lines: seq<Bytes>, l: Bytes)
    ensures Read(c, lines + [l]) == Read(c, lines) + KeptRecord(c, l)
  {
    hide Blank;
    assert (lines + [l])[..|lines|] == lines;
    var kept := Kept(c, lines);
    if Keep(c, l) {
      assert (kept + [l])[..|kept|] == kept;
    } else {
      assert kept + [] == kept;
    }
  }

  lemma RecordsOfShaped<T(!new)>(c: Codec<T>, s: Bytes, lines: seq<Bytes>, tail: Bytes)
    requires ShapedBy(c, s, lines, tail)
    ensures Records(c, s) == Read(c, lines) + KeptRecord(c, tail)
  {
    SplitRender(lines, tail);
    ReadOneMore(c, lines, tail);
    if tail == "" {
      assert Blank(tail);
      assert lines + [] == lines;
    }
  }

  lemma PiecesOneMore<T(!new)>(c: Codec<T>, pieces: seq<Bytes>, piece: Bytes, t: T)
    requires AllPieces(c, pieces) && piece != "" && piece <= c.encode(t)
    ensures AllPieces(c, pieces + [piece]) && Joined(pieces + [piece]) == Joined(pieces) + piece
  {
    assert (pieces + [piece])[..|pieces|] == pieces;
  }

  lemma GlueOneMore<T(!new)>(c: Codec<T>, tail: Bytes, t: T, n: nat)
    requires 0 < n <= |c.encode(t)| && (tail == "" || Glue(c, tail))
    ensures Glue(c, tail + c.encode(t)[..n])
  {
    var pieces: seq<Bytes> := [];
    if tail == "" {
      assert Joined([]) == "" && AllPieces(c, []);
    } else {
      pieces :| pieces != [] && tail == Joined(pieces) && AllPieces(c, pieces);
    }
    hide AllPieces, Joined;
    PiecesOneMore(c, pieces, c.encode(t)[..n], t);
    assert pieces + [c.encode(t)[..n]] != [];
  }

  /** Some of a line was written: what is read afterwards is what was read before, possibly
      without its last record, and with the new record at most if its text is complete. */
  lemma WritingReads<T(!new)>(c: Codec<T>, s: Bytes, t: T, n: nat)
    requires Lawful(c) && Shaped(c, s) && Recordable(c, t) && n <= |c.encode(t)| + 1
    ensures var after := s + (c.encode(t) + "\n")[..n];
            && Shaped(c, after)
            && Explained(c, Records(c, after), Records(c, s) + if n >= |c.encode(t)| then [t] else [])
  {
    var lines, tail :| ShapedBy(c, s, lines, tail);
    var line := c.encode(t);
    if n == 0 {
      assert (line + "\n")[..n] == "" && s + "" == s;
      ExplainsLonger(c, Records(c, s), if n >= |line| then [t] else []);
    } else if n <= |line| {
      assert (line + "\n")[..n] == line[..n];
      CutTextReads(c, s, lines, tail, t, n);
    } else {
      assert (line + "\n")[..n] == line + "\n";
      WholeLineReads(c, s, lines, tail, t);
    }
  }

  lemma FreshTextReads<T(!new)>(c: Codec<T>, t: T, n: nat)
    requires Lawful(c) && Recordable(c, t) && 0 < n <= |c.encode(t)|
    ensures LineFree(c.encode(t)[..n])
    ensures KeptRecord(c, c.encode(t)[..n]) == if n == |c.encode(t)| then [t] else []
  {
    CutTail(c, t, n);
    if n == |c.encode(t)| { assert c.encode(t)[..n] == c.encode(t); }
  }

  lemma GluedTextReads<T(!new)>(c: Codec<T>, read: seq<T>, tail: Bytes, t: T, n: nat, more: seq<T>)
    requires Glue(c, tail) && 0 < n <= |c.encode(t)|
    ensures Explained(c, read + KeptRecord(c, tail + c.encode(t)[..n]), read + KeptRecord(c, tail) + more)
  {
    var l, open := tail + c.encode(t)[..n], KeptRecord(c, tail);
    ExplainsLonger(c, read, open + more);
    assert read + (open + more) == read + open + more;
    if Keep(c, l) {
      assert Parses(c, tail, t, n);
      ExplainsGlued(c, read, read + open + more, c.parse(l).value);
    } else {
      assert read + [] == read;
    }
  }

  lemma TailReads<T(!new)>(c: Codec<T>, s: Bytes, lines: seq<Bytes>, tail: Bytes, t: T, n: nat)
    requires Lawful(c) && ShapedBy(c, s, lines, tail) && Recordable(c, t) && 0 < n <= |c.encode(t)|
    ensures var l := tail + c.encode(t)[..n];
            && LineFree(l)
            && Explained(c, Read(c, lines) + KeptRecord(c, l),
                         Records(c, s) + if n == |c.encode(t)| then [t] else [])
  {
    RecordsOfShaped(c, s, lines, tail);
    FreshTextReads(c, t, n);
    var more := if n == |c.encode(t)| then [t] else [];
    hide Lawful, Explained, Records, Read, Render, Glue, Keep;
    if tail == "" {
      assert "" + c.encode(t)[..n] == c.encode(t)[..n];
      assert KeptRecord(c, "") == [] by { NothingKept(c); }
      assert Records(c, s) == Read(c, lines) + [] == Read(c, lines);
      ExplainsSelf(c, Read(c, lines) + more);
    } else {
      GluedTextReads(c, Read(c, lines), tail, t, n, more);
    }
  }

  lemma NothingKept<T>(c: Codec<T>)
    ensures KeptRecord(c, "") == []
  {
    assert Blank("");
  }

  lemma CutTextReads<T(!new)>(c: Codec<T>, s: Bytes, lines: seq<Bytes>, tail: Bytes, t: T, n: nat)
    requires Lawful(c) && ShapedBy(c, s, lines, tail) && Recordable(c, t) && 0 < n <= |c.encode(t)|
    ensures var after := s + c.encode(t)[..n];
            && Shaped(c, after)
            && Explained(c, Records(c, after), Records(c, s) + if n >= |c.encode(t)| then [t] else [])
  {
    hide Lawful, Explained, Keep, Records, Read, Render, Glue;
    var after := s + c.encode(t)[..n];
    TailReads(c, s, lines, tail, t, n);
    GlueOneMore(c, tail, t, n);
    assert after == Render(lines) + (tail + c.encode(t)[..n]);
    assert ShapedBy(c, after, lines, tail + c.encode(t)[..n]);
    RecordsOfShaped(c, after, lines, tail + c.encode(t)[..n]);
  }

  lemma LineOneMore<T(!new)>(c: Codec<T>, s: Bytes, lines: seq<Bytes>, tail: Bytes, text: Bytes)
    requires ShapedBy(c, s, lines, tail) && LineFree(tail + text)
    ensures ShapedBy(c, s + (text + "\n"), lines + [tail + text], "")
  {
    hide LineFree, Glue;
    var l := tail + text;
    assert LineFree("") by { LineFreeEmpty(); }
    RenderAppend(lines, [l]);
    assert Render([l]) == l + "\n" + Render([]);
    assert s + (text + "\n") == Render(lines + [l]) + "";
  }

  lemma LineFreeEmpty()
    ensures LineFree("")
  {
  }

  lemma EncodedIsText<T(!new)>(c: Codec<T>, t: T)
    requires Lawful(c)
    ensures c.encode(t) != ""
  {
    assert !Blank(c.encode(t));
  }

  lemma LinesRead<T(!new)>(c: Codec<T>, s: Bytes, lines: seq<Bytes>, l: Bytes)
    requires ShapedBy(c, s, lines + [l], "")
    ensures Shaped(c, s)
    ensures Records(c, s) == Read(c, lines) + KeptRecord(c, l)
  {
    RecordsOfShaped(c, s, lines + [l], "");
    assert !Keep(c, "") by { assert Blank(""); }
    ReadOneMore(c, lines, l);
    hide Read, Records, ShapedBy;
    assert Read(c, lines + [l]) + [] == Read(c, lines + [l]);
  }

  lemma WholeLineReads<T(!new)>(c: Codec<T>, s: Bytes, lines: seq<Bytes>, tail: Bytes, t: T)
    requires Lawful(c) && ShapedBy(c, s, lines, tail) && Recordable(c, t)
    ensures var after := s + (c.encode(t) + "\n");
            && Shaped(c, after) && Explained(c, Records(c, after), Records(c, s) + [t])
  {
    hide Lawful, Explained, Records, Render, Glue, Blank, LineFree, ShapedBy, Kept, Read;
    var text := c.encode(t);
    EncodedIsText(c, t);
    assert text[..|text|] == text;
    TailReads(c, s, lines, tail, t, |text|);
    LineOneMore(c, s, lines, tail, text);
    LinesRead(c, s + (text + "\n"), lines, tail + text);
  }

  // ---- the store ----

  ghost predicate AllShaped<T(!new)>(c: Codec<T>, files: Files, backups: nat) {
    forall i :: i in files ==> i <= backups && Shaped(c, files[i])
  }

  lemma {:induction false} LogOfLess<T(!new)>(c: Codec<T>, a: Files, b: Files, n: nat, more: seq<T>)
    requires n > 0 && Explained(c, FileRecords(c, b, 0), FileRecords(c, a, 0) + more)
    requires forall i: nat :: 0 < i < n ==> Explained(c, FileRecords(c, b, i), FileRecords(c, a, i))
    ensures Explained(c, LogTo(c, b, n), LogTo(c, a, n) + more)
    decreases n
  {
    hide FileRecords;
    if n == 1 {
      assert LogTo(c, b, 1) == FileRecords(c, b, 0) + [] && LogTo(c, a, 1) == FileRecords(c, a, 0) + [];
      assert LogTo(c, b, 1) == FileRecords(c, b, 0) && LogTo(c, a, 1) == FileRecords(c, a, 0);
    } else {
      LogOfLess(c, a, b, n - 1, more);
      ExplainsJoin(
        c, FileRecords(c, b, n - 1), FileRecords(c, a, n - 1), LogTo(c, b, n - 1), LogTo(c, a, n - 1) + more);
      assert FileRecords(c, a, n - 1) + (LogTo(c, a, n - 1) + more) == LogTo(c, a, n) + more;
    }
  }

  /** What a store holds is explained by the history, and all its files are lines and glue. */
  ghost predicate ReadsFrom<T(!new)>(c: Codec<T>, files: Files, backups: nat, history: seq<T>) {
    AllShaped(c, files, backups) && Explained(c, LogTo(c, files, backups + 1), history)
  }

  lemma ReadsLess<T(!new)>(c: Codec<T>, a: Files, b: Files, backups: nat, history: seq<T>, more: seq<T>)
    requires ReadsFrom(c, a, backups, history) && AllShaped(c, b, backups)
    requires Explained(c, FileRecords(c, b, 0), FileRecords(c, a, 0) + more)
    requires forall i: nat :: 0 < i <= backups ==> Explained(c, FileRecords(c, b, i), FileRecords(c, a, i))
    ensures ReadsFrom(c, b, backups, history + more)
  {
    hide FileRecords, LogTo;
    LogOfLess(c, a, b, backups + 1, more);
    ExplainsSelf(c, more);
    ExplainsJoin(c, LogTo(c, a, backups + 1), history, more, more);
    ExplainsTransitive(c, LogTo(c, b, backups + 1), LogTo(c, a, backups + 1) + more, history + more);
  }

  lemma {:induction false} RotationReads<T(!new)>(c: Codec<T>, files: Files, backups: nat, history: seq<T>, n: nat)
    requires ReadsFrom(c, files, backups, history) && n <= backups + 1
    ensures ReadsFrom(c, RotateSteps(files, backups, n), backups, history)
    decreases n
  {
    if n == 1 {
      UnlinkReads(c, files, backups, history);
    } else if n > 1 {
      RotationReads(c, files, backups, history, n - 1);
      StepsLeaveAHole(files, backups, n - 1);
      MoveReads(c, RotateSteps(files, backups, n - 1), backups - (n - 1), backups, history);
    }
  }

  lemma UnlinkReads<T(!new)>(c: Codec<T>, files: Files, backups: nat, history: seq<T>)
    requires ReadsFrom(c, files, backups, history)
    ensures ReadsFrom(c, files - {backups}, backups, history)
  {
    forall i: nat ensures Explained(c, FileRecords(c, files - {backups}, i), FileRecords(c, files, i)) {
      ExplainsSelf(c, FileRecords(c, files, i));
    }
    assert FileRecords(c, files, 0) + [] == FileRecords(c, files, 0) && history + [] == history;
    hide Shaped, Explained, Records;
    ReadsLess(c, files, files - {backups}, backups, history, []);
  }

  lemma MoveReads<T(!new)>(c: Codec<T>, files: Files, i: nat, backups: nat, history: seq<T>)
    requires ReadsFrom(c, files, backups, history) && i < backups && i + 1 !in files
    ensures ReadsFrom(c, Move(files, i), backups, history)
  {
    hide Shaped, Explained, LogTo;
    MoveKeepsLog(c, files, i, backups + 1);
  }

  lemma RoomReads<T(!new)>(c: Codec<T>, files: Files, x: Setting, t: T, history: seq<T>)
    requires ReadsFrom(c, files, x.backups, history)
    ensures ReadsFrom(c, Room(c, files, x, t), x.backups, history)
  {
    hide ReadsFrom, MustRotate, RotateSteps;
    if MustRotate(c, files, x.maximum, t) { RotationReads(c, files, x.backups, history, x.backups + 1); }
  }

  lemma EmptyIsShaped<T(!new)>(c: Codec<T>)
    ensures Shaped(c, "") && Records(c, "") == []
  {
    assert Render([]) + "" == "";
    assert ShapedBy(c, "", [], "");
    EmptyIsWellFormed(c);
  }

  lemma WriteReads<T(!new)>(c: Codec<T>, files: Files, backups: nat, t: T, n: nat, history: seq<T>)
    requires Lawful(c) && ReadsFrom(c, files, backups, history)
    requires Recordable(c, t) && n <= |c.encode(t)| + 1
    ensures ReadsFrom(c, AppendBytes(files, (c.encode(t) + "\n")[..n]), backups,
                      history + if n >= |c.encode(t)| then [t] else [])
  {
    EmptyIsShaped(c);
    WritingReads(c, Active(files), t, n);
    hide Shaped, Explained, Records, Lawful, LogTo;
    ActiveReads(
      c, files, (c.encode(t) + "\n")[..n], backups, if n >= |c.encode(t)| then [t] else [], history);
  }

  lemma ActiveReads<T(!new)>(
    c: Codec<T>, files: Files, bytes: Bytes, backups: nat, more: seq<T>, history: seq<T>)
    requires ReadsFrom(c, files, backups, history) && Shaped(c, Active(files) + bytes)
    requires Explained(c, Records(c, Active(files) + bytes), Records(c, Active(files)) + more)
    ensures ReadsFrom(c, AppendBytes(files, bytes), backups, history + more)
  {
    EmptyIsShaped(c);
    hide Shaped, Explained, Records, LogTo;
    var after := AppendBytes(files, bytes);
    assert FileRecords(c, files, 0) == Records(c, Active(files));
    forall i: nat | i > 0 ensures Explained(c, FileRecords(c, after, i), FileRecords(c, files, i)) {
      ExplainsSelf(c, FileRecords(c, files, i));
    }
    ReadsLess(c, files, after, backups, history, more);
  }

  lemma RecordReads<T(!new)>(c: Codec<T>, log: Log<T>, x: Setting, t: T, fault: Fault)
    requires Lawful(c) && ReadsFrom(c, log.files, x.backups, log.history)
    ensures var next := NextLog(c, log, x, Record(t, fault)); ReadsFrom(c, next.files, x.backups, next.history)
  {
    var full := MustRotate(c, log.files, x.maximum, t);
    hide ReadsFrom, MustRotate, RotateSteps, Lawful;
    if !Recordable(c, t) {
    } else if full && fault.InRotation? && fault.n <= x.backups {
      RotationReads(c, log.files, x.backups, log.history, fault.n);
    } else {
      RoomReads(c, log.files, x, t, log.history);
      var line := c.encode(t) + "\n";
      var n := if fault.Cut? && fault.length < |line| then fault.length else |line|;
      if !fault.OnOpen? {
        WriteReads(c, Room(c, log.files, x, t), x.backups, t, n, log.history);
        assert Written(c, t, fault) == line[..n];
        assert log.history + [] == log.history;
      }
    }
  }

  lemma RepairedIsShaped<T(!new)>(
    c: Codec<T>, s: Bytes, i: nat, maximum: nat, q: Quarantine, digest: Bytes -> nat, faults: set<(nat, RepairOp)>)
    requires Shaped(c, s)
    ensures var after := FileAfter(c, Some(s), maximum, FateOf(c, Some(s), i, maximum, q, digest, faults));
            after.Some? ==> Shaped(c, after.value)
  {
    hide Shaped, Render, Kept, SplitLines, FateOf, FileAfter;
    FateChoices(c, s, i, maximum, q, digest, faults);
    RenderedIsShaped(c, s);
  }

  lemma RenderedIsShaped<T(!new)>(c: Codec<T>, s: Bytes)
    ensures Shaped(c, Render(Kept(c, SplitLines(s))))
  {
    var kept := Kept(c, SplitLines(s));
    RepairedLines(c, s);
    hide SplitLines, Kept, Glue, Keep;
    assert Render(kept) + "" == Render(kept);
    assert ShapedBy(c, Render(kept), kept, "");
  }

  lemma RepairReads<T(!new)>(
    c: Codec<T>, files: Files, x: Setting, q: Quarantine, faults: set<(nat, RepairOp)>, history: seq<T>)
    requires ReadsFrom(c, files, x.backups, history)
    ensures ReadsFrom(c, RepairStore(c, files, x, q, faults), x.backups, history)
  {
    var after := RepairStore(c, files, x, q, faults);
    forall i: nat ensures Explained(c, FileRecords(c, after, i), FileRecords(c, files, i)) {
      RepairKeepsOrMoves(c, files, i, x.scanned, x.maximum, q, x.digest, faults);
      ExplainsSelf(c, FileRecords(c, files, i));
    }
    hide Explained, FileRecords, FateOf, FileAfter, Shaped;
    forall i | i in after ensures i <= x.backups && Shaped(c, after[i]) {
      RepairFilesLookup(c, files, i, x.scanned, x.maximum, q, x.digest, faults);
      RepairedIsShaped(c, files[i], i, x.maximum, q, x.digest, faults);
    }
    hide RepairStore;
    assert FileRecords(c, files, 0) + [] == FileRecords(c, files, 0) && history + [] == history;
    ReadsLess(c, files, after, x.backups, history, []);
  }

  lemma EmptyReads<T(!new)>(c: Codec<T>, backups: nat)
    ensures ReadsFrom(c, map[], backups, [])
  {
    EmptyLogRefines(c, backups);
  }

  lemma NextReads<T(!new)>(c: Codec<T>, log: Log<T>, x: Setting, e: LogEvent<T>)
    requires Lawful(c) && ReadsFrom(c, log.files, x.backups, log.history)
    ensures var next := NextLog(c, log, x, e); ReadsFrom(c, next.files, x.backups, next.history)
  {
    hide ReadsFrom, Lawful;
    match e
    case Record(t, fault) => RecordReads(c, log, x, t, fault);
    case Repair(q, faults) => RepairReads(c, log.files, x, q, faults, log.history);
  }

  /** Over every run, with cut writes that nobody repairs, refused repairs, files moved away and
      failures of any step, all that the store holds was recorded, in order and not twice, but
      for records that come from glued pieces of lines which happen to parse. */
  lemma {:induction false} EveryRunIsExplained<T(!new)>(
    c: Codec<T>, log: Log<T>, x: Setting, events: seq<LogEvent<T>>)
    requires Lawful(c) && ReadsFrom(c, log.files, x.backups, log.history)
    ensures var end := RunLog(c, log, x, events); ReadsFrom(c, end.files, x.backups, end.history)
    decreases |events|
  {
    hide ReadsFrom, Lawful, NextLog;
    if events != [] {
      NextReads(c, log, x, events[0]);
      EveryRunIsExplained(c, NextLog(c, log, x, events[0]), x, events[1..]);
    }
  }

  /** If glued text never parses, what a store that began empty holds after any run is a
      subsequence of what was recorded. */
  lemma EveryRunReadsHistory<T(!new)>(c: Codec<T>, x: Setting, events: seq<LogEvent<T>>)
    requires Lawful(c) && Unglued(c)
    ensures var end := RunLog(c, Log(map[], []), x, events);
            Subsequence(LogTo(c, end.files, x.backups + 1), end.history)
  {
    EmptyReads(c, x.backups);
    EveryRunIsExplained(c, Log(map[], []), x, events);
    var end := RunLog(c, Log(map[], []), x, events);
    ExplainedIsSubsequence(c, LogTo(c, end.files, x.backups + 1), end.history);
  }
}
