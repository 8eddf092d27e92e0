/** Replacing the generated block of a managed document (tools/doc_builders.py). */
module GeneratedBlock {
  import opened Strings

  // ---- markers ----

  function StartMarker(id: string): string { "<!-- VEGA DOCGEN START: " + id + " -->" }

  function EndMarker(id: string): string { "<!-- VEGA DOCGEN END: " + id + " -->" }

  /** The pattern document ids are checked against, `[a-z][a-z0-9_-]*`. */
  predicate ValidId(id: string) {
    && id != "" && 'a' <= id[0] <= 'z'
    && forall i :: 0 <= i < |id| ==>
         'a' <= id[i] <= 'z' || '0' <= id[i] <= '9' || id[i] == '_' || id[i] == '-'
  }

  /** An id is a small letter and then small letters, digits, underscores and hyphens. */
  lemma ValidIdIs(id: string)
    ensures ValidId(id) <==>
            && |id| > 0 && id[0] in LETTERS
            && forall i :: 0 < i < |id| ==> id[i] in LETTERS || id[i] in DIGITS || id[i] == '_' || id[i] == '-'
  {
    forall c: char ensures ('a' <= c <= 'z' <==> c in LETTERS) && ('0' <= c <= '9' <==> c in DIGITS) {
      LetterIs(c);
      DigitIs(c);
    }
    hide LETTERS, DIGITS;
  }

  /** Where a marker says what it marks, and for which id. */
  lemma MarkersShow(id: string)
    ensures var s, e := StartMarker(id), EndMarker(id);
            && s[17..24] == "START: " && s[24..24 + |id|] == id && e[17..22] == "END: " && e[22..22 + |id|] == id
            && s[..17] == e[..17] && s[24 + |id|..] == e[22 + |id|..]
  {
  }

  /** A marker opens with its only '<', is on one line, and does not end in whitespace. */
  predicate Tag(m: string) {
    && |m| >= 2 && m[0] == '<' && EndsSolid(m)
    && forall i :: 0 < i < |m| ==> m[i] != '<' && m[i] != '\n'
  }

  /** A pair of markers, neither of which begins with the other. */
  predicate Tags(s: string, e: string) { Tag(s) && Tag(e) && !(s <= e) && !(e <= s) }

  lemma MarkersAreTags(id: string)
    requires ValidId(id)
    ensures Tags(StartMarker(id), EndMarker(id))
  {
    var s, e := StartMarker(id), EndMarker(id);
    assert s[17] == 'S' && e[17] == 'E';
  }

  // ---- merging ----

  datatype Merged = Document(text: string) | InvalidMarkers | OutOfOrder

  function Block(s: string, e: string, body: string): string { s + "\n" + RStrip(body) + "\n" + e }

  /** The markers on lines of their own, and between them the body up to its last solid character. */
  lemma BlockHolds(s: string, e: string, body: string)
    ensures var block := Block(s, e, body);
            var end := |block| - |e| - 1;
            && |s| < end && block[..|s| + 1] == s + "\n" && block[end..] == "\n" + e
            && block[|s| + 1..end] <= body && EndsSolid(block[|s| + 1..end])
            && AllSpace(body[end - |s| - 1..])
  {
    var block := Block(s, e, body);
    assert block[|s| + 1..|block| - |e| - 1] == RStrip(body);
  }

  function JoinParts(parts: seq<string>): string {
    if parts == [] then ""
    else if |parts| == 1 then parts[0]
    else parts[0] + "\n\n" + JoinParts(parts[1..])
  }

  /** What is kept around the block of a document. */
  datatype Frame = Frame(prefix: string, suffix: string)

  function Parts(f: Frame, block: string): seq<string> {
    (if f.prefix != "" then [f.prefix] else []) + [block] + (if f.suffix != "" then [f.suffix] else [])
  }

  function Merge(t: string, s: string, e: string, body: string): Merged
    requires s != "" && e != ""
  {
    var block := Block(s, e, body);
    var starts, ends := Count(t, s), Count(t, e);
    if starts == 0 && ends == 0 then
      var base := RStrip(t);
      Document(if base != "" then base + "\n\n" + block + "\n" else block + "\n")
    else if starts != 1 || ends != 1 then InvalidMarkers
    else
      var start, end := Index(t, s), Index(t, e);
      if end < start then OutOfOrder
      else
        var prefix := RStrip(t[..start]);
        var suffix := Strip(t[if end + |e| <= |t| then end + |e| else |t|..]);
        Document(RStrip(JoinParts(Parts(Frame(prefix, suffix), block))) + "\n")
  }

  // ---- the frame of a document: the text around its block ----

  /** t has one start marker, one end marker after it, and the frame is what is around them,
      without the whitespace at the joints; or t has no marker, and all of it comes before. */
  ghost predicate Framed(t: string, s: string, e: string, f: Frame) {
    || (!Occurs(t, s) && !Occurs(t, e) && f == Frame(RStrip(t), ""))
    || exists i, j :: 0 <= i <= j && OnlyAt(t, s, i) && OnlyAt(t, e, j)
         && f == Frame(RStrip(t[..i]), Strip(t[j + |e|..]))
  }

  ghost predicate OnlyAt(t: string, m: string, i: int) {
    At(t, m, i) && forall k :: At(t, m, k) ==> k == i
  }

  function Lead(prefix: string): string { if prefix == "" then "" else prefix + "\n\n" }

  function Trail(suffix: string): string { if suffix == "" then "" else "\n" + suffix + "\n" }

  function Compose(f: Frame, block: string): string { Lead(f.prefix) + block + "\n" + Trail(f.suffix) }

  /** Two occurrences of a tag do not overlap. */
  lemma TagsDoNotOverlap(t: string, m: string, n: string, i: int, j: int)
    requires Tag(m) && Tag(n) && At(t, m, i) && At(t, n, j) && i < j
    ensures i + |m| <= j
  {
    assert t[j..j + |n|][0] == t[j];
    forall k | i < k < i + |m| ensures t[k] != '<' { assert t[i..i + |m|][k - i] == t[k]; }
  }

  lemma {:induction false} CountOne(t: string, m: string)
    requires Tag(m)
    ensures Count(t, m) == 1 <==> OnlyAt(t, m, Index(t, m))
    decreases |t|
  {
    hide At;
    forall k | At(t, m, k) ensures 0 <= k <= |t| - |m| { AtBounds(t, m, k); }
    if |t| >= |m| {
      AtBounds(t, m, 0);
      if t[..|m|] == m {
        CountPositive(t[|m|..], m);
        OnlyFirst(t, m);
      } else {
        CountOne(t[1..], m);
        OnlyShift(t, m, Index(t[1..], m));
      }
    }
  }

  lemma OnlyFirst(t: string, m: string)
    requires Tag(m) && At(t, m, 0)
    ensures OnlyAt(t, m, 0) <==> !Occurs(t[|m|..], m)
  {
    hide At;
    AtBounds(t, m, 0);
    if k :| At(t, m, k) && k != 0 {
      AtBounds(t, m, k);
      TagsDoNotOverlap(t, m, m, 0, k);
      AtShift(t, m, |m|, k - |m|);
    }
    if k :| At(t[|m|..], m, k) {
      AtBounds(t[|m|..], m, k);
      AtShift(t, m, |m|, k);
    }
  }

  lemma OnlyShift(t: string, m: string, i: nat)
    requires m != "" && t != "" && !At(t, m, 0)
    ensures OnlyAt(t[1..], m, i) <==> OnlyAt(t, m, i + 1)
  {
    hide At;
    AtShift(t, m, 1, i);
    forall k | At(t, m, k) ensures k >= 1 && At(t[1..], m, k - 1) {
      AtBounds(t, m, k);
      AtShift(t, m, 1, k - 1);
    }
    forall k | At(t[1..], m, k) ensures At(t, m, k + 1) {
      AtBounds(t[1..], m, k);
      AtShift(t, m, 1, k);
    }
  }

  // ---- occurrences in composed text ----

  predicate Lined(pre: string) { pre == "" || pre[|pre| - 1] == '\n' }

  /** After a complete line no marker straddles the joint. */
  lemma OccursAfter(pre: string, rest: string, m: string, i: int)
    requires Tag(m) && Lined(pre)
    ensures At(pre + rest, m, i) <==> At(pre, m, i) || At(rest, m, i - |pre|)
  {
    var t := pre + rest;
    if 0 <= i <= |t| - |m| {
      if i + |m| <= |pre| {
        assert t[i..i + |m|] == pre[i..i + |m|];
      } else if i >= |pre| {
        assert t[i..i + |m|] == rest[i - |pre|..i - |pre| + |m|];
      } else {
        assert t[i..i + |m|][|pre| - 1 - i] == '\n';
      }
    }
  }

  function Line(x: string): string { x + "\n" }

  lemma OccursInLine(x: string, m: string, i: int)
    requires Tag(m)
    ensures At(Line(x), m, i) <==> At(x, m, i)
  {
    var t := Line(x);
    if 0 <= i <= |x| - |m| { assert t[i..i + |m|] == x[i..i + |m|]; }
    if i == |t| - |m| && i >= 0 { assert t[i..i + |m|][|m| - 1] == '\n'; }
  }

  lemma OccursInTag(n: string, m: string, i: int)
    requires Tag(m) && Tag(n) && (m == n || (!(m <= n) && !(n <= m)))
    ensures At(n, m, i) <==> i == 0 && m == n
  {
    if At(n, m, i) { assert n[i..i + |m|][0] == n[i]; }
  }

  lemma NoneInLine(x: string, m: string)
    requires Tag(m) && !Occurs(x, m)
    ensures !Occurs(Line(x), m) && !Occurs("\n" + x, m)
  {
    forall i ensures !At(Line(x), m, i) { OccursInLine(x, m, i); }
    forall i ensures !At("\n" + x, m, i) { OccursAfter("\n", x, m, i); }
  }

  lemma LeadIsLines(prefix: string)
    ensures Lined(Lead(prefix)) && (prefix != "" ==> Lead(prefix) == Line(Line(prefix)))
  {
  }

  lemma TrailIsLines(suffix: string)
    ensures suffix != "" ==> Trail(suffix) == "\n" + Line(suffix)
  {
  }

  lemma NoneAround(f: Frame, m: string)
    requires Tag(m) && !Occurs(f.prefix, m) && !Occurs(f.suffix, m)
    ensures !Occurs(Lead(f.prefix), m) && !Occurs(Trail(f.suffix), m)
  {
    LeadIsLines(f.prefix);
    TrailIsLines(f.suffix);
    NoneInLine(f.prefix, m);
    NoneInLine(Line(f.prefix), m);
    NoneInLine(f.suffix, m);
    NoneInLine(Line(f.suffix), m);
  }

  ghost predicate Clean(f: Frame, s: string, e: string) {
    && EndsSolid(f.prefix) && StartsSolid(f.suffix) && EndsSolid(f.suffix)
    && !Occurs(f.prefix, s) && !Occurs(f.prefix, e) && !Occurs(f.suffix, s) && !Occurs(f.suffix, e)
  }

  lemma OccursInPieces(a: string, b: string, c: string, d: string, z: string, m: string, i: int)
    requires Tag(m) && Lined(a)
    ensures At(a + (Line(b) + (Line(c) + (Line(d) + z))), m, i) <==>
            || At(a, m, i) || At(b, m, i - |a|) || At(c, m, i - |a| - |b| - 1)
            || At(d, m, i - |a| - |b| - |c| - 2) || At(z, m, i - |a| - |b| - |c| - |d| - 3)
  {
    hide At, Tag;
    var j := i - |a|;
    var k := j - |b| - 1;
    var l := k - |c| - 1;
    OccursAfter(a, Line(b) + (Line(c) + (Line(d) + z)), m, i);
    OccursAfter(Line(b), Line(c) + (Line(d) + z), m, j);
    OccursAfter(Line(c), Line(d) + z, m, k);
    OccursAfter(Line(d), z, m, l);
    OccursInLine(b, m, j);
    OccursInLine(c, m, k);
    OccursInLine(d, m, l);
  }

  lemma ComposePieces(lead: string, s: string, b: string, e: string, trail: string)
    ensures lead + (s + "\n" + b + "\n" + e) + "\n" + trail == lead + (Line(s) + (Line(b) + (Line(e) + trail)))
  {
  }

  function MarkerPlace(f: Frame, s: string, body: string, first: bool): nat {
    |Lead(f.prefix)| + if first then 0 else |s| + |RStrip(body)| + 2
  }

  /** Where a marker occurs in a composed document: at its place, or inside the body. */
  lemma OccursInCompose(f: Frame, s: string, e: string, body: string, m: string, i: int)
    requires Tags(s, e) && Clean(f, s, e) && (m == s || m == e)
    ensures At(Compose(f, Block(s, e, body)), m, i) <==>
            i == MarkerPlace(f, s, body, m == s) || At(RStrip(body), m, i - |Lead(f.prefix)| - |s| - 1)
  {
    var b, lead, trail := RStrip(body), Lead(f.prefix), Trail(f.suffix);
    NoneAround(f, m);
    LeadIsLines(f.prefix);
    ComposePieces(lead, s, b, e, trail);
    OccursInPieces(lead, s, b, e, trail, m, i);
    OccursInTag(s, m, i - |lead|);
    OccursInTag(e, m, i - |lead| - |s| - |b| - 2);
  }

  lemma Slices(a: string, mid: string, z: string)
    ensures (a + mid + z)[..|a|] == a && (a + mid + z)[|a| + |mid|..] == z
  {
  }

  lemma ComposeSplits(lead: string, block: string, trail: string)
    ensures lead + block + "\n" + trail == lead + block + ("\n" + trail)
  {
  }

  lemma RStripLead(prefix: string)
    requires EndsSolid(prefix)
    ensures RStrip(Lead(prefix)) == prefix
  {
    if prefix != "" {
      assert Lead(prefix) == prefix + "\n\n";
      RStripOf(prefix, "\n\n");
    }
  }

  lemma ComposeSlices(f: Frame, s: string, e: string, body: string)
    requires EndsSolid(f.prefix) && StartsSolid(f.suffix) && EndsSolid(f.suffix)
    ensures var u, i, j := Compose(f, Block(s, e, body)), MarkerPlace(f, s, body, true), MarkerPlace(f, s, body, false);
            && i <= j && j + |e| <= |u|
            && RStrip(u[..i]) == f.prefix && Strip(u[j + |e|..]) == f.suffix
  {
    hide RStrip, Strip, Lead, Trail;
    var lead, block, after := Lead(f.prefix), Block(s, e, body), "\n" + Trail(f.suffix);
    assert |block| == |s| + |RStrip(body)| + 2 + |e|;
    ComposeSplits(lead, block, Trail(f.suffix));
    assert Compose(f, block) == lead + block + after;
    Slices(lead, block, after);
    RStripLead(f.prefix);
    StripTrail(f.suffix);
  }

  lemma StripTrail(suffix: string)
    requires StartsSolid(suffix) && EndsSolid(suffix)
    ensures Strip("\n" + Trail(suffix)) == suffix
  {
    if suffix == "" {
      assert "\n" + Trail(suffix) == "\n";
      LStripOf("\n", "");
      assert "\n" + "" == "\n";
    } else {
      assert "\n" + Trail(suffix) == "\n\n" + Line(suffix);
      LStripOf("\n\n", Line(suffix));
      RStripOf(suffix, "\n");
    }
  }

  lemma ComposeIsFramed(f: Frame, s: string, e: string, body: string)
    requires Tags(s, e) && Clean(f, s, e) && !Occurs(RStrip(body), s) && !Occurs(RStrip(body), e)
    ensures Framed(Compose(f, Block(s, e, body)), s, e, f)
  {
    hide At, Compose, Block, MarkerPlace, RStrip, Strip, Tag;
    var u, i, j := Compose(f, Block(s, e, body)), MarkerPlace(f, s, body, true), MarkerPlace(f, s, body, false);
    forall k ensures At(u, s, k) <==> k == i { OccursInCompose(f, s, e, body, s, k); }
    forall k ensures At(u, e, k) <==> k == j { OccursInCompose(f, s, e, body, e, k); }
    ComposeSlices(f, s, e, body);
    assert OnlyAt(u, s, i) && OnlyAt(u, e, j);
  }

  // ---- merging composes ----

  lemma JoinTwo(a: string, b: string)
    ensures JoinParts([a, b]) == a + "\n\n" + b
  {
    assert [a, b][1..] == [b];
  }

  lemma JoinThree(a: string, b: string, c: string)
    ensures JoinParts([a, b, c]) == a + "\n\n" + (b + "\n\n" + c)
  {
    assert [a, b, c][1..] == [b, c];
    JoinTwo(b, c);
  }

  lemma JoinedParts(f: Frame, block: string)
    ensures JoinParts(Parts(f, block)) + "\n" == Compose(f, block)
  {
    if f.prefix == "" && f.suffix == "" {
      assert Parts(f, block) == [block];
    } else if f.prefix == "" {
      assert Parts(f, block) == [block, f.suffix];
      JoinTwo(block, f.suffix);
      ComposedWithSuffix("", block, f.suffix);
    } else if f.suffix == "" {
      assert Parts(f, block) == [f.prefix, block];
      JoinTwo(f.prefix, block);
    } else {
      assert Parts(f, block) == [f.prefix, block, f.suffix];
      JoinThree(f.prefix, block, f.suffix);
      ComposedWithSuffix(f.prefix + "\n\n", block, f.suffix);
    }
  }

  lemma ComposedWithSuffix(lead: string, block: string, suffix: string)
    ensures lead + block + "\n" + ("\n" + suffix + "\n") == lead + (block + "\n\n" + suffix) + "\n"
    ensures block + "\n" + ("\n" + suffix + "\n") == block + "\n\n" + suffix + "\n"
  {
  }

  lemma JoinEndsSolid(f: Frame, block: string)
    requires EndsSolid(f.suffix) && block != "" && EndsSolid(block)
    ensures RStrip(JoinParts(Parts(f, block))) == JoinParts(Parts(f, block))
  {
    var text := JoinParts(Parts(f, block));
    JoinedParts(f, block);
    ComposeEnd(f, block);
    assert text == Compose(f, block)[..|Compose(f, block)| - 1];
  }

  lemma ComposeEnd(f: Frame, block: string)
    requires EndsSolid(f.suffix) && block != "" && EndsSolid(block)
    ensures |Compose(f, block)| > 0 && EndsSolid(Compose(f, block)[..|Compose(f, block)| - 1])
  {
    var u := Compose(f, block);
    if f.suffix == "" {
      assert u == Lead(f.prefix) + block + "\n";
      assert u[|u| - 2] == block[|block| - 1];
    } else {
      assert u == Lead(f.prefix) + block + "\n\n" + f.suffix + "\n";
      assert u[|u| - 2] == f.suffix[|f.suffix| - 1];
    }
  }

  lemma BlockEndsSolid(s: string, e: string, body: string)
    requires Tag(e)
    ensures Block(s, e, body) != "" && EndsSolid(Block(s, e, body))
  {
  }

  lemma MergeWithout(t: string, s: string, e: string, body: string)
    requires Tags(s, e) && !Occurs(t, s) && !Occurs(t, e)
    ensures Merge(t, s, e, body) == Document(Compose(Frame(RStrip(t), ""), Block(s, e, body)))
  {
    CountPositive(t, s);
    CountPositive(t, e);
    var base, block := RStrip(t), Block(s, e, body);
    assert Compose(Frame(base, ""), block) == Lead(base) + block + "\n";
    assert "" + block == block;
  }

  lemma MergeWithin(t: string, s: string, e: string, body: string, i: int, j: int)
    requires Tags(s, e) && OnlyAt(t, s, i) && OnlyAt(t, e, j)
    ensures i <= j ==>
              Merge(t, s, e, body) ==
              Document(Compose(Frame(RStrip(t[..i]), Strip(t[j + |e|..])), Block(s, e, body)))
    ensures j < i ==> Merge(t, s, e, body) == OutOfOrder
  {
    hide At, Compose, Block, RStrip, Strip, JoinParts, Parts;
    OnlyAtIndex(t, s, i);
    OnlyAtIndex(t, e, j);
    CountOne(t, s);
    CountOne(t, e);
    AtBounds(t, s, i);
    AtBounds(t, e, j);
    if i <= j {
      var f := Frame(RStrip(t[..i]), Strip(t[j + |e|..]));
      BlockEndsSolid(s, e, body);
      StripStripped(t[j + |e|..]);
      JoinEndsSolid(f, Block(s, e, body));
      JoinedParts(f, Block(s, e, body));
    }
  }

  /** A document with a frame is merged into the frame around the new block; a document without
      one is refused, as out of order exactly if its two markers are there once but swapped. */
  lemma MergeIsCompose(t: string, s: string, e: string, body: string)
    requires Tags(s, e)
    ensures Merge(t, s, e, body).Document? <==> exists f :: Framed(t, s, e, f)
    ensures forall f :: Framed(t, s, e, f) ==> Merge(t, s, e, body) == Document(Compose(f, Block(s, e, body)))
    ensures Merge(t, s, e, body) == OutOfOrder <==> exists i, j :: j < i && OnlyAt(t, s, i) && OnlyAt(t, e, j)
  {
    hide At, Merge, Compose, Block, RStrip, Strip, Tag;
    forall i | OnlyAt(t, s, i) ensures 0 <= i <= |t| { AtBounds(t, s, i); }
    forall j | OnlyAt(t, e, j) ensures 0 <= j <= |t| - |e| { AtBounds(t, e, j); }
    forall f | Framed(t, s, e, f) ensures Merge(t, s, e, body) == Document(Compose(f, Block(s, e, body))) {
      if !Occurs(t, s) && !Occurs(t, e) {
        MergeWithout(t, s, e, body);
      } else {
        var i, j :| 0 <= i <= j && OnlyAt(t, s, i) && OnlyAt(t, e, j)
                    && f == Frame(RStrip(t[..i]), Strip(t[j + |e|..]));
        MergeWithin(t, s, e, body, i, j);
      }
    }
    if i, j :| OnlyAt(t, s, i) && OnlyAt(t, e, j) {
      MergeWithin(t, s, e, body, i, j);
      if i <= j { assert Framed(t, s, e, Frame(RStrip(t[..i]), Strip(t[j + |e|..]))); }
    } else if !Occurs(t, s) && !Occurs(t, e) {
      MergeWithout(t, s, e, body);
      assert Framed(t, s, e, Frame(RStrip(t), ""));
    } else {
      MergeOtherwise(t, s, e, body);
    }
  }

  lemma MergeOtherwise(t: string, s: string, e: string, body: string)
    requires Tags(s, e) && (Occurs(t, s) || Occurs(t, e))
    requires !OnlyAt(t, s, Index(t, s)) || !OnlyAt(t, e, Index(t, e))
    ensures Merge(t, s, e, body) == InvalidMarkers
  {
    hide At, Compose, Block, RStrip, Strip, JoinParts, Parts;
    CountPositive(t, s);
    CountPositive(t, e);
    CountOne(t, s);
    CountOne(t, e);
  }

  lemma OnlyAtIndex(t: string, m: string, i: int)
    requires m != "" && OnlyAt(t, m, i)
    ensures Index(t, m) == i
  {
    IndexIsFirst(t, m);
  }

  // ---- the laws of merging ----

  lemma OccursInStripped(t: string, r: string, at: nat, m: string)
    requires at + |r| <= |t| && t[at..at + |r|] == r
    ensures forall k :: At(r, m, k) ==> At(t, m, k + at)
  {
    forall k | At(r, m, k) ensures At(t, m, k + at) {
      var slice := t[k + at..k + at + |m|];
      forall x | 0 <= x < |m| ensures slice[x] == m[x] {
        assert r[k..k + |m|][x] == r[k + x] == t[at..at + |r|][k + x];
      }
    }
  }

  lemma StripIsSlice(t: string) returns (at: nat)
    ensures at + |Strip(t)| <= |t| && t[at..at + |Strip(t)|] == Strip(t)
  {
    at := |t| - |LStrip(t)|;
    LStripIsSuffix(t);
    hide LStrip, RStrip;
    var l, n := LStrip(t), |Strip(t)|;
    assert Strip(t) == l[..n];
    SliceOfTail(t, at, n);
  }

  lemma SliceOfTail(t: string, at: nat, n: nat)
    requires at + n <= |t|
    ensures t[at..][..n] == t[at..at + n]
  {
  }

  lemma FrameIsClean(t: string, s: string, e: string, f: Frame)
    requires Tags(s, e) && Framed(t, s, e, f)
    ensures Clean(f, s, e)
  {
    if !Occurs(t, s) && !Occurs(t, e) {
      OccursInStripped(t, f.prefix, 0, s);
      OccursInStripped(t, f.prefix, 0, e);
    } else {
      var i, j :| 0 <= i <= j && OnlyAt(t, s, i) && OnlyAt(t, e, j)
                  && f == Frame(RStrip(t[..i]), Strip(t[j + |e|..]));
      PrefixIsClean(t, s, e, i, j);
      SuffixIsClean(t, s, e, i, j);
    }
  }

  lemma NoneInPart(t: string, r: string, at: nat, m: string, i: int)
    requires OnlyAt(t, m, i) && m != "" && at + |r| <= |t| && t[at..at + |r|] == r
    requires i < at || at + |r| <= i
    ensures !Occurs(r, m)
  {
    OccursInStripped(t, r, at, m);
  }

  lemma PrefixIsClean(t: string, s: string, e: string, i: int, j: int)
    requires Tags(s, e) && OnlyAt(t, s, i) && OnlyAt(t, e, j) && i <= j
    ensures !Occurs(RStrip(t[..i]), s) && !Occurs(RStrip(t[..i]), e)
  {
    var r := RStrip(t[..i]);
    assert r == t[..i][..|r|] == t[0..|r|];
    NoneInPart(t, r, 0, s, i);
    NoneInPart(t, r, 0, e, j);
  }

  lemma SuffixIsClean(t: string, s: string, e: string, i: int, j: int)
    requires Tags(s, e) && OnlyAt(t, s, i) && OnlyAt(t, e, j) && i <= j
    ensures var r := Strip(t[j + |e|..]); StartsSolid(r) && EndsSolid(r) && !Occurs(r, s) && !Occurs(r, e)
  {
    AtBounds(t, e, j);
    hide At, Strip;
    var rest := t[j + |e|..];
    StripStripped(rest);
    assert t[j + |e|..j + |e| + |rest|] == rest;
    NoneInPart(t, rest, j + |e|, s, i);
    NoneInPart(t, rest, j + |e|, e, j);
    NoneInStrip(rest, s);
    NoneInStrip(rest, e);
  }

  lemma NoneInStrip(t: string, m: string)
    requires !Occurs(t, m)
    ensures !Occurs(Strip(t), m)
  {
    var at := StripIsSlice(t);
    OccursInStripped(t, Strip(t), at, m);
  }

  lemma TailIsSpace(t: string)
    ensures forall i :: |RStrip(t)| <= i < |t| ==> IsSpace(t[i])
  {
    var r := RStrip(t);
    forall i | |r| <= i < |t| ensures IsSpace(t[i]) { assert t[|r|..][i - |r|] == t[i]; }
  }

  /** A tag is found in a body exactly when it is found after the body's trailing whitespace
      is cut. */
  lemma OccursInRStrip(body: string, m: string)
    requires Tag(m)
    ensures Occurs(RStrip(body), m) <==> Occurs(body, m)
  {
    var r := RStrip(body);
    assert body[0..|r|] == r;
    OccursInStripped(body, r, 0, m);
    if k :| At(r, m, k) { assert At(body, m, k); }
    if k :| At(body, m, k) {
      TailIsSpace(body);
      assert body[k..k + |m|][|m| - 1] == body[k + |m| - 1];
      assert r[k..k + |m|] == body[k..k + |m|];
      assert At(r, m, k);
    }
  }

  /** The last body wins: merging again replaces the block and keeps everything else.  With the
      same body twice this is idempotence. */
  lemma LastBodyWins(t: string, s: string, e: string, first: string, second: string)
    requires Tags(s, e) && Merge(t, s, e, first).Document? && !Occurs(first, s) && !Occurs(first, e)
    ensures Merge(Merge(t, s, e, first).text, s, e, second) == Merge(t, s, e, second)
  {
    MergeIsCompose(t, s, e, first);
    MergeIsCompose(t, s, e, second);
    var f :| Framed(t, s, e, f);
    var u := Merge(t, s, e, first).text;
    OccursInRStrip(first, s);
    OccursInRStrip(first, e);
    FrameIsClean(t, s, e, f);
    ComposeIsFramed(f, s, e, first);
    MergeIsCompose(u, s, e, second);
  }

  /** The output of a merge can be merged again exactly when the body had no marker in it. */
  lemma OutputMergesAgain(t: string, s: string, e: string, first: string, second: string)
    requires Tags(s, e) && Merge(t, s, e, first).Document?
    ensures Merge(Merge(t, s, e, first).text, s, e, second).Document? <==> !Occurs(first, s) && !Occurs(first, e)
  {
    MergeIsCompose(t, s, e, first);
    MergeIsCompose(t, s, e, second);
    if !Occurs(first, s) && !Occurs(first, e) {
      LastBodyWins(t, s, e, first, second);
    } else {
      var f :| Framed(t, s, e, f);
      FrameIsClean(t, s, e, f);
      var m := if Occurs(first, s) then s else e;
      OccursInRStrip(first, m);
      var k :| At(RStrip(first), m, k);
      TwiceIsRefused(f, s, e, first, second, m, k);
    }
  }

  lemma TwiceIsRefused(f: Frame, s: string, e: string, first: string, second: string, m: string, k: int)
    requires Tags(s, e) && Clean(f, s, e) && (m == s || m == e) && At(RStrip(first), m, k)
    ensures !Merge(Compose(f, Block(s, e, first)), s, e, second).Document?
  {
    AtBounds(RStrip(first), m, k);
    hide At, Merge, Compose, Block, RStrip, Strip, Lead, Count, Index;
    var u := Compose(f, Block(s, e, first));
    var i, j := MarkerPlace(f, s, first, m == s), k + |Lead(f.prefix)| + |s| + 1;
    OccursInCompose(f, s, e, first, m, i);
    OccursInCompose(f, s, e, first, m, j);
    assert At(u, m, i) && At(u, m, j) && i != j;
    MergeIsCompose(u, s, e, second);
  }
}
