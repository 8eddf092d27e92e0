/** Searching the chunks of all documents for query terms (rag/document_search.py). */
module DocumentSearch {
  import opened Strings
  import opened DocumentChunks

  datatype Document = Document(name: string, chunks: seq<Chunk>)

  datatype Hit = Hit(document: string, chunkId: nat, score: nat, text: string)

  /** How text is read: lower-casing, and which characters `[\w#./-]` matches. */
  datatype Reading = Reading(lower: string -> string, word: char -> bool)

  // ---- query terms ----

  function RunLength(text: string, word: char -> bool): (n: nat)
    ensures n <= |text| && (forall i :: 0 <= i < n ==> word(text[i])) && (n < |text| ==> !word(text[n]))
  {
    if text == "" || !word(text[0]) then 0 else 1 + RunLength(text[1..], word)
  }

  predicate Terms(terms: seq<string>) { forall i :: 0 <= i < |terms| ==> terms[i] != "" }

  /** `re.findall`: the runs of word characters, from the left. */
  function Runs(text: string, word: char -> bool): (terms: seq<string>)
    ensures Terms(terms)
    decreases |text|
  {
    if text == "" then []
    else if !word(text[0]) then Runs(text[1..], word)
    else
      var n := RunLength(text, word);
      [text[..n]] + Runs(text[n..], word)
  }

  function QueryTerms(query: string, x: Reading): (terms: seq<string>)
    ensures Terms(terms)
  {
    Runs(x.lower(query), x.word)
  }

  ghost predicate MaximalRun(text: string, i: int, j: int, word: char -> bool) {
    && 0 <= i < j <= |text| && (forall k :: i <= k < j ==> word(text[k]))
    && (i > 0 ==> !word(text[i - 1])) && (j < |text| ==> !word(text[j]))
  }

  ghost predicate IsMaximalRun(text: string, t: string, word: char -> bool) {
    exists i, j :: MaximalRun(text, i, j, word) && text[i..j] == t
  }

  /** The runs of a text without its first n characters, if no run goes on there. */
  lemma RunOfRest(text: string, n: nat, i: nat, j: nat, word: char -> bool)
    requires n <= i < j <= |text|
    requires i == n > 0 ==> !word(text[n - 1]) || !word(text[n])
    ensures MaximalRun(text[n..], i - n, j - n, word) <==> MaximalRun(text, i, j, word)
    ensures text[n..][i - n..j - n] == text[i..j]
  {
    var rest := text[n..];
    assert |rest| == |text| - n && forall k :: n <= k < |text| ==> rest[k - n] == text[k];
    assert forall k :: 0 <= k < |rest| ==> rest[k] == text[k + n];
  }

  predicate StartsWith(text: string, n: nat, word: char -> bool) {
    text != "" && n == if word(text[0]) then RunLength(text, word) else 1
  }

  lemma FirstRun(text: string, i: nat, j: nat, n: nat, word: char -> bool)
    requires StartsWith(text, n, word) && MaximalRun(text, i, j, word) && i < n
    ensures word(text[0]) && i == 0 && j == n
  {
  }

  lemma FirstOrLater(text: string, n: nat, t: string, word: char -> bool)
    requires StartsWith(text, n, word)
    ensures IsMaximalRun(text, t, word) <==> (word(text[0]) && t == text[..n]) || IsMaximalRun(text[n..], t, word)
  {
    if word(text[0]) { assert MaximalRun(text, 0, n, word) && text[0..n] == text[..n]; }
    hide MaximalRun;
    if i, j :| MaximalRun(text[n..], i, j, word) && text[n..][i..j] == t {
      RunInText(text[n..], i, j, word);
      RunOfRest(text, n, n + i, n + j, word);
    }
    if i, j :| MaximalRun(text, i, j, word) && text[i..j] == t {
      RunInText(text, i, j, word);
      if i < n { FirstRun(text, i, j, n, word); } else { RunOfRest(text, n, i, j, word); }
    }
  }

  lemma RunInText(text: string, i: int, j: int, word: char -> bool)
    requires MaximalRun(text, i, j, word)
    ensures 0 <= i < j <= |text|
  {
  }

  /** The terms are exactly the longest stretches of word characters. */
  lemma {:induction false} TermsAreMaximalRuns(text: string, word: char -> bool)
    ensures forall t :: t in Runs(text, word) <==> IsMaximalRun(text, t, word)
    decreases |text|
  {
    if text != "" {
      var n := if word(text[0]) then RunLength(text, word) else 1;
      TermsAreMaximalRuns(text[n..], word);
      forall t ensures t in Runs(text, word) <==> IsMaximalRun(text, t, word) {
        FirstOrLater(text, n, t, word);
        hide IsMaximalRun;
      }
    }
  }

  /** The terms are the maximal runs of a text, each once, in the order of their positions. */
  ghost predicate Lists(text: string, terms: seq<string>, starts: seq<nat>, word: char -> bool) {
    |starts| == |terms| && RunsAt(text, terms, starts, word) && Increasing(starts) && Covers(text, starts, word)
  }

  ghost predicate RunsAt(text: string, terms: seq<string>, starts: seq<nat>, word: char -> bool)
    requires |starts| == |terms|
  {
    forall k :: 0 <= k < |terms| ==> IsRunAt(text, starts[k], terms[k], word)
  }

  ghost predicate Increasing(starts: seq<nat>) {
    forall a, b :: 0 <= a < b < |starts| ==> starts[a] < starts[b]
  }

  ghost predicate Covers(text: string, starts: seq<nat>, word: char -> bool) {
    forall i, j :: MaximalRun(text, i, j, word) ==> i in starts
  }

  ghost predicate IsRunAt(text: string, i: nat, t: string, word: char -> bool) {
    MaximalRun(text, i, i + |t|, word) && text[i..i + |t|] == t
  }

  function Later(starts: seq<nat>, n: nat): (r: seq<nat>)
    ensures |r| == |starts| && forall k :: 0 <= k < |r| ==> r[k] == starts[k] + n
  {
    seq(|starts|, k requires 0 <= k < |starts| => starts[k] + n)
  }

  lemma RunLater(text: string, n: nat, i: nat, t: string, word: char -> bool)
    requires StartsWith(text, n, word) && IsRunAt(text[n..], i, t, word)
    ensures IsRunAt(text, i + n, t, word)
  {
    RunOfRest(text, n, n + i, n + i + |t|, word);
  }

  lemma RunEarlier(text: string, n: nat, i: int, j: int, word: char -> bool)
    requires StartsWith(text, n, word) && MaximalRun(text, i, j, word)
    ensures i < n ==> word(text[0]) && i == 0
    ensures i >= n ==> MaximalRun(text[n..], i - n, j - n, word)
  {
    if i < n { FirstRun(text, i, j, n, word); } else { RunOfRest(text, n, i, j, word); }
  }

  lemma FirstIsRun(text: string, n: nat, word: char -> bool)
    requires StartsWith(text, n, word) && word(text[0])
    ensures IsRunAt(text, 0, text[..n], word)
  {
    assert text[0..0 + n] == text[..n];
  }

  lemma InLater(starts: seq<nat>, n: nat, i: nat)
    requires i >= n && i - n in starts
    ensures i in Later(starts, n)
  {
    var k :| 0 <= k < |starts| && starts[k] == i - n;
    assert Later(starts, n)[k] == i;
  }

  lemma RunsAtLater(text: string, n: nat, terms: seq<string>, starts: seq<nat>, word: char -> bool)
    requires StartsWith(text, n, word) && |starts| == |terms| && RunsAt(text[n..], terms, starts, word)
    ensures RunsAt(text, terms, Later(starts, n), word)
  {
    hide IsRunAt, StartsWith;
    forall k | 0 <= k < |terms| ensures IsRunAt(text, Later(starts, n)[k], terms[k], word) {
      RunLater(text, n, starts[k], terms[k], word);
    }
  }

  lemma CoversLater(text: string, n: nat, starts: seq<nat>, word: char -> bool)
    requires StartsWith(text, n, word) && Covers(text[n..], starts, word)
    ensures Covers(text, if word(text[0]) then [0] + Later(starts, n) else Later(starts, n), word)
  {
    hide MaximalRun, Later;
    forall i, j | MaximalRun(text, i, j, word)
      ensures i in (if word(text[0]) then [0] + Later(starts, n) else Later(starts, n))
    {
      RunInText(text, i, j, word);
      RunEarlier(text, n, i, j, word);
      if i >= n { InLater(starts, n, i); }
    }
  }

  lemma ListsLater(text: string, n: nat, terms: seq<string>, starts: seq<nat>, word: char -> bool)
    requires StartsWith(text, n, word) && Lists(text[n..], terms, starts, word)
    ensures if word(text[0]) then Lists(text, [text[..n]] + terms, [0] + Later(starts, n), word)
            else Lists(text, terms, Later(starts, n), word)
  {
    RunsAtLater(text, n, terms, starts, word);
    CoversLater(text, n, starts, word);
    if word(text[0]) { FirstIsRun(text, n, word); }
    hide MaximalRun, IsRunAt, Covers;
  }

  lemma {:induction false} RunsAreListed(text: string, word: char -> bool) returns (starts: seq<nat>)
    ensures Lists(text, Runs(text, word), starts, word)
    decreases |text|
  {
    if text == "" {
      starts := [];
    } else {
      var n := if word(text[0]) then RunLength(text, word) else 1;
      var rest := RunsAreListed(text[n..], word);
      ListsLater(text, n, Runs(text[n..], word), rest, word);
      starts := if word(text[0]) then [0] + Later(rest, n) else Later(rest, n);
      hide Lists;
    }
  }

  /** The terms of a query are the longest stretches of word characters of its lower-cased form,
      from the left, every one as often as it is there. */
  lemma QueryTermsAreListed(query: string, x: Reading) returns (starts: seq<nat>)
    ensures Lists(x.lower(query), QueryTerms(query, x), starts, x.word)
  {
    starts := RunsAreListed(x.lower(query), x.word);
  }

  lemma OneRun(text: string, word: char -> bool)
    requires text != "" && forall c :: word(c)
    ensures Runs(text, word) == [text]
  {
    assert RunLength(text, word) == |text| && text[..|text|] == text && text[|text|..] == "";
  }

  // ---- hits ----

  function Score(text: string, terms: seq<string>): nat
    requires Terms(terms)
  {
    if terms == [] then 0 else Score(text, terms[..|terms| - 1]) + Count(text, terms[|terms| - 1])
  }

  function ChunkHits(name: string, chunks: seq<Chunk>, terms: seq<string>, lower: string -> string): seq<Hit>
    requires Terms(terms)
  {
    if chunks == [] then []
    else
      var c := chunks[|chunks| - 1];
      var score := Score(lower(c.text), terms);
      ChunkHits(name, chunks[..|chunks| - 1], terms, lower) + if score > 0 then [Hit(name, c.id, score, c.text)] else []
  }

  function Hits(documents: seq<Document>, terms: seq<string>, lower: string -> string): seq<Hit>
    requires Terms(terms)
  {
    if documents == [] then []
    else
      var d := documents[|documents| - 1];
      Hits(documents[..|documents| - 1], terms, lower) + ChunkHits(d.name, d.chunks, terms, lower)
  }

  // ---- ordering ----

  /** Where a hit goes: after every hit scored at least as high. */
  function InsertHit(sorted: seq<Hit>, h: Hit): seq<Hit> {
    if sorted == [] || sorted[|sorted| - 1].score >= h.score then sorted + [h]
    else InsertHit(sorted[..|sorted| - 1], h) + [sorted[|sorted| - 1]]
  }

  /** The stable sort by falling score. */
  function Ranked(hits: seq<Hit>): seq<Hit> {
    if hits == [] then [] else InsertHit(Ranked(hits[..|hits| - 1]), hits[|hits| - 1])
  }

  ghost predicate Falling(hits: seq<Hit>) {
    forall i, j :: 0 <= i < j < |hits| ==> hits[i].score >= hits[j].score
  }

  function WithScore(hits: seq<Hit>, score: nat): seq<Hit> {
    if hits == [] then []
    else WithScore(hits[..|hits| - 1], score) + if hits[|hits| - 1].score == score then [hits[|hits| - 1]] else []
  }

  lemma {:induction false} InsertAdds(sorted: seq<Hit>, h: Hit)
    ensures multiset(InsertHit(sorted, h)) == multiset(sorted) + multiset{h}
    ensures |InsertHit(sorted, h)| == |sorted| + 1
    decreases |sorted|
  {
    if sorted != [] && sorted[|sorted| - 1].score < h.score {
      InsertAdds(sorted[..|sorted| - 1], h);
      assert sorted == sorted[..|sorted| - 1] + [sorted[|sorted| - 1]];
    }
  }

  lemma {:induction false} InsertKeepsFalling(sorted: seq<Hit>, h: Hit, low: nat)
    requires Falling(sorted) && AllFrom(sorted, low) && h.score >= low
    ensures Falling(InsertHit(sorted, h)) && AllFrom(InsertHit(sorted, h), low)
    decreases |sorted|
  {
    if sorted != [] && sorted[|sorted| - 1].score < h.score {
      var n := |sorted| - 1;
      InsertKeepsFalling(sorted[..n], h, sorted[n].score);
      FallingAppend(InsertHit(sorted[..n], h), sorted[n]);
    } else {
      FallingAppend(sorted, h);
    }
  }

  ghost predicate AllFrom(hits: seq<Hit>, low: nat) {
    forall i :: 0 <= i < |hits| ==> hits[i].score >= low
  }

  lemma FallingAppend(hits: seq<Hit>, h: Hit)
    requires Falling(hits) && (hits == [] || hits[|hits| - 1].score >= h.score)
    ensures Falling(hits + [h])
  {
  }

  lemma WithScoreLast(hits: seq<Hit>, h: Hit, score: nat)
    ensures WithScore(hits + [h], score) == WithScore(hits, score) + if h.score == score then [h] else []
  {
    assert (hits + [h])[..|hits|] == hits;
  }

  /** Inserting puts a hit behind those with its own score. */
  lemma {:induction false} InsertIsStable(sorted: seq<Hit>, h: Hit, score: nat)
    ensures WithScore(InsertHit(sorted, h), score) == WithScore(sorted, score) + if h.score == score then [h] else []
    decreases |sorted|
  {
    hide WithScore;
    if sorted != [] && sorted[|sorted| - 1].score < h.score {
      var n := |sorted| - 1;
      InsertIsStable(sorted[..n], h, score);
      WithScoreLast(InsertHit(sorted[..n], h), sorted[n], score);
      WithScoreLast(sorted[..n], sorted[n], score);
      assert sorted == sorted[..n] + [sorted[n]];
    } else {
      WithScoreLast(sorted, h, score);
    }
  }

  /** The ranking is the hits in falling order of score, and hits of one score stay in the order
      in which they were found. */
  lemma {:induction false} RankingIsStable(hits: seq<Hit>)
    ensures Falling(Ranked(hits)) && multiset(Ranked(hits)) == multiset(hits) && |Ranked(hits)| == |hits|
    ensures forall score :: WithScore(Ranked(hits), score) == WithScore(hits, score)
    decreases |hits|
  {
    hide InsertHit;
    if hits != [] {
      hide Falling;
      var n := |hits| - 1;
      RankingIsStable(hits[..n]);
      InsertAdds(Ranked(hits[..n]), hits[n]);
      InsertKeepsFalling(Ranked(hits[..n]), hits[n], 0);
      assert hits == hits[..n] + [hits[n]];
      forall score ensures WithScore(Ranked(hits), score) == WithScore(hits, score) {
        InsertIsStable(Ranked(hits[..n]), hits[n], score);
      }
    }
  }

  /** Python's `hits[:limit]`, for a limit of either sign. */
  function Cut(hits: seq<Hit>, limit: int): seq<Hit> {
    if limit >= |hits| then hits
    else if limit >= 0 then hits[..limit]
    else if -limit <= |hits| then hits[..|hits| + limit]
    else []
  }

  function Search(documents: seq<Document>, query: string, limit: int, x: Reading): seq<Hit> {
    var terms := QueryTerms(query, x);
    if terms == [] then [] else Cut(Ranked(Hits(documents, terms, x.lower)), limit)
  }

  method ScoreText(text: string, terms: seq<string>) returns (score: nat)
    requires Terms(terms)
    ensures score == Score(text, terms)
  {
    score := 0;
    for k := 0 to |terms|
      invariant score == Score(text, terms[..k])
    {
      assert terms[..k + 1][..k] == terms[..k];
      score := score + Count(text, terms[k]);
    }
    assert terms[..|terms|] == terms;
  }

  method SortHits(hits: seq<Hit>) returns (sorted: seq<Hit>)
    ensures sorted == Ranked(hits)
  {
    sorted := [];
    for k := 0 to |hits|
      invariant sorted == Ranked(hits[..k])
    {
      assert hits[..k + 1][..k] == hits[..k];
      sorted := InsertHit(sorted, hits[k]);
    }
    assert hits[..|hits|] == hits;
  }

  method SearchDocuments(documents: seq<Document>, query: string, limit: int, x: Reading)
    returns (results: seq<Hit>)
    ensures results == Search(documents, query, limit, x)
  {
    var terms := QueryTerms(query, x);
    if terms == [] { return []; }
    results := [];
    for d := 0 to |documents|
      invariant results == Hits(documents[..d], terms, x.lower)
    {
      var document := documents[d];
      assert documents[..d + 1][..d] == documents[..d];
      ghost var before := results;
      for k := 0 to |document.chunks|
        invariant results == before + ChunkHits(document.name, document.chunks[..k], terms, x.lower)
      {
        var c := document.chunks[k];
        assert document.chunks[..k + 1][..k] == document.chunks[..k];
        var score := ScoreText(x.lower(c.text), terms);
        if score <= 0 { continue; }
        results := results + [Hit(document.name, c.id, score, c.text)];
      }
      assert document.chunks[..|document.chunks|] == document.chunks;
    }
    assert documents[..|documents|] == documents;
    results := SortHits(results);
    results := Cut(results, limit);
  }

  // ---- what a search finds ----

  lemma {:induction false} ScorePositive(text: string, terms: seq<string>)
    requires Terms(terms)
    ensures Score(text, terms) > 0 <==> exists k :: 0 <= k < |terms| && Occurs(text, terms[k])
    decreases |terms|
  {
    if terms != [] {
      var n := |terms| - 1;
      ScorePositive(text, terms[..n]);
      CountPositive(text, terms[n]);
      if k :| 0 <= k < n && Occurs(text, terms[..n][k]) { assert Occurs(text, terms[k]); }
      if k :| 0 <= k < |terms| && Occurs(text, terms[k]) && k < n { assert Occurs(text, terms[..n][k]); }
    }
  }

  /** The score of a chunk is the sum over the terms of the occurrences of each, which `Strings`
      counts without overlap. */
  lemma {:induction false} ScoreAdds(text: string, some: seq<string>, more: seq<string>)
    requires Terms(some) && Terms(more)
    ensures Score(text, some + more) == Score(text, some) + Score(text, more)
    ensures forall t :: t != "" ==> Score(text, [t]) == Count(text, t)
    decreases |more|
  {
    hide Count;
    forall t | t != "" ensures Score(text, [t]) == Count(text, t) {
      assert [t][..0] == [];
    }
    if more == [] {
      assert some + more == some;
    } else {
      assert (some + more)[..|some + more| - 1] == some + more[..|more| - 1];
      ScoreAdds(text, some, more[..|more| - 1]);
    }
  }

  lemma OneDocument(d: Document, terms: seq<string>, lower: string -> string)
    requires Terms(terms)
    ensures Hits([d], terms, lower) == ChunkHits(d.name, d.chunks, terms, lower)
  {
    hide ChunkHits;
    assert [d][..0] == [];
  }

  lemma LastChunk(name: string, chunks: seq<Chunk>, c: Chunk, terms: seq<string>, lower: string -> string)
    requires Terms(terms)
    ensures ChunkHits(name, chunks + [c], terms, lower) ==
            ChunkHits(name, chunks, terms, lower) + Scored(name, c, Score(lower(c.text), terms))
  {
    hide Score;
    assert (chunks + [c])[..|chunks|] == chunks;
  }

  function Scored(name: string, c: Chunk, score: nat): seq<Hit> {
    if score > 0 then [Hit(name, c.id, score, c.text)] else []
  }

  lemma LastDocument(documents: seq<Document>, d: Document, terms: seq<string>, lower: string -> string)
    requires Terms(terms)
    ensures Hits(documents + [d], terms, lower) ==
            Hits(documents, terms, lower) + ChunkHits(d.name, d.chunks, terms, lower)
  {
    hide ChunkHits;
    assert (documents + [d])[..|documents|] == documents;
  }

  /** The hits come document by document and chunk by chunk, one for each chunk with a positive
      score: these laws leave no choice. */
  lemma HitsInOrder(
    documents: seq<Document>, name: string, chunks: seq<Chunk>, c: Chunk, terms: seq<string>,
    lower: string -> string)
    requires Terms(terms)
    ensures Hits(documents + [Document(name, chunks)], terms, lower) ==
            Hits(documents, terms, lower) + Hits([Document(name, chunks)], terms, lower)
    ensures Hits([Document(name, chunks + [c])], terms, lower) ==
            Hits([Document(name, chunks)], terms, lower) + Scored(name, c, Score(lower(c.text), terms))
    ensures Hits([Document(name, [])], terms, lower) == [] && Hits([], terms, lower) == []
  {
    OneDocument(Document(name, chunks + [c]), terms, lower);
    OneDocument(Document(name, chunks), terms, lower);
    OneDocument(Document(name, []), terms, lower);
    LastDocument(documents, Document(name, chunks), terms, lower);
    LastChunk(name, chunks, c, terms, lower);
    hide Score, Scored;
  }

  ghost predicate FoundAt(
    documents: seq<Document>, terms: seq<string>, lower: string -> string, h: Hit, d: int, k: int, t: int)
  {
    && 0 <= d < |documents| && 0 <= k < |documents[d].chunks| && 0 <= t < |terms|
    && Occurs(lower(documents[d].chunks[k].text), terms[t])
    && h.document == documents[d].name && h.chunkId == documents[d].chunks[k].id
    && h.text == documents[d].chunks[k].text
  }

  ghost predicate Found(documents: seq<Document>, terms: seq<string>, lower: string -> string, h: Hit) {
    exists d, k, t :: FoundAt(documents, terms, lower, h, d, k, t)
  }

  lemma {:induction false} ChunkIsHit(
    name: string, chunks: seq<Chunk>, terms: seq<string>, lower: string -> string, k: nat)
    requires Terms(terms) && k < |chunks| && Score(lower(chunks[k].text), terms) > 0
    ensures var c := chunks[k];
            Hit(name, c.id, Score(lower(c.text), terms), c.text) in ChunkHits(name, chunks, terms, lower)
    decreases |chunks|
  {
    if k < |chunks| - 1 { ChunkIsHit(name, chunks[..|chunks| - 1], terms, lower, k); }
  }

  lemma {:induction false} DocumentIsHit(
    documents: seq<Document>, terms: seq<string>, lower: string -> string, d: nat, h: Hit)
    requires Terms(terms) && d < |documents| && h in ChunkHits(documents[d].name, documents[d].chunks, terms, lower)
    ensures h in Hits(documents, terms, lower)
    decreases |documents|
  {
    if d < |documents| - 1 { DocumentIsHit(documents[..|documents| - 1], terms, lower, d, h); }
  }

  /** The lower-cased form of a stretch is made of those of its two parts. */
  predicate Joins(text: string, lower: string -> string, i: nat, j: nat, k: nat)
    requires i <= j <= k <= |text|
  {
    lower(text[i..k]) == lower(text[i..j]) + lower(text[j..k])
  }

  /** Each character of this text is lower-cased on its own, to one or more characters. */
  ghost predicate CharacterWise(text: string, lower: string -> string) {
    && (forall i: nat, j: nat, k: nat :: i <= j <= k <= |text| ==> Joins(text, lower, i, j, k))
    && (forall i :: 0 <= i < |text| ==> lower([text[i]]) != "")
  }

  /** Where the lower-cased form of a stretch lies. */
  lemma LowerSlice(text: string, lower: string -> string, i: nat, j: nat)
    requires CharacterWise(text, lower) && i <= j <= |text|
    ensures var a, b := |lower(text[..i])|, |lower(text[..j])|;
            a <= b <= |lower(text)| && lower(text)[a..b] == lower(text[i..j])
  {
    assert Joins(text, lower, 0, i, j) && Joins(text, lower, 0, j, |text|);
    assert text[0..i] == text[..i] && text[0..j] == text[..j] && text[0..|text|] == text;
  }

  lemma {:induction false} LowerIsLonger(text: string, lower: string -> string, i: nat, j: nat)
    requires CharacterWise(text, lower) && i <= j <= |text|
    ensures |lower(text[i..j])| >= j - i
    decreases j
  {
    if i < j {
      LowerIsLonger(text, lower, i, j - 1);
      assert Joins(text, lower, i, j - 1, j) && text[j - 1..j] == [text[j - 1]];
    }
  }

  /** How many characters it takes to reach position i of the lower-cased text. */
  lemma {:induction false} Reach(text: string, lower: string -> string, n: nat, i: nat) returns (p: nat)
    requires CharacterWise(text, lower) && n <= |text| && i < |lower(text[..n])|
    ensures p < n && |lower(text[..p])| <= i < |lower(text[..p + 1])|
    decreases n
  {
    LowerOfNothing(text, lower);
    if n > 0 && i >= |lower(text[..n - 1])| {
      p := n - 1;
    } else {
      p := Reach(text, lower, n - 1, i);
    }
  }

  lemma LowerOfNothing(text: string, lower: string -> string)
    requires CharacterWise(text, lower)
    ensures lower(text[..0]) == ""
  {
    assert Joins(text, lower, 0, 0, 0);
    assert text[0..0] == text[..0];
    assert |lower(text[..0])| == |lower(text[..0])| + |lower(text[..0])|;
  }

  /** What a stretch of the lower-cased text comes from is no longer than it. */
  lemma Origin(text: string, lower: string -> string, i: nat, m: nat) returns (p: nat, q: nat)
    requires CharacterWise(text, lower) && 0 < m && i + m <= |lower(text)|
    ensures p < q <= |text| && q - p <= m
    ensures |lower(text[..p])| <= i && i + m <= |lower(text[..q])|
  {
    assert text[..|text|] == text;
    p := Reach(text, lower, |text|, i);
    var last := Reach(text, lower, |text|, i + m - 1);
    q := last + 1;
    if last > p {
      LowerSlice(text, lower, p + 1, last);
      LowerIsLonger(text, lower, p + 1, last);
    } else if last < p {
      LowerSlice(text, lower, last + 1, p);
      assert false;
    }
  }

  /** A document cut into chunks and containing a query term of at most overlap + 1 characters
      yields a hit of that document whose chunk contains the term. */
  lemma ShortTermIsFound(
    documents: seq<Document>, d: nat, content: string, size: nat, overlap: nat,
    query: string, x: Reading, term: string)
    requires overlap < size && d < |documents| && documents[d].chunks == ChunksFrom(content, size, overlap, 0, 0)
    requires CharacterWise(content, x.lower) && term in QueryTerms(query, x) && |term| <= overlap + 1
    requires Occurs(x.lower(content), term)
    ensures exists h :: h in Hits(documents, QueryTerms(query, x), x.lower) && h.score > 0
              && h.document == documents[d].name && Occurs(x.lower(h.text), term)
  {
    var terms, chunks := QueryTerms(query, x), documents[d].chunks;
    var k := TermInChunk(content, size, overlap, x.lower, term);
    var text := chunks[k].text;
    ScorePositive(x.lower(text), terms);
    ChunkIsHit(documents[d].name, chunks, terms, x.lower, k);
    var h := Hit(documents[d].name, chunks[k].id, Score(x.lower(text), terms), text);
    DocumentIsHit(documents, terms, x.lower, d, h);
  }

  lemma TermInChunk(content: string, size: nat, overlap: nat, lower: string -> string, term: string) returns (k: nat)
    requires overlap < size && CharacterWise(content, lower)
    requires 0 < |term| <= overlap + 1 && Occurs(lower(content), term)
    ensures var chunks := ChunksFrom(content, size, overlap, 0, 0);
            k < |chunks| && Occurs(lower(chunks[k].text), term)
  {
    var chunks := ChunksFrom(content, size, overlap, 0, 0);
    var i :| At(lower(content), term, i);
    var p, q := Origin(content, lower, i, |term|);
    ShortStretchInOneChunk(content, size, overlap, 0, 0, p, q);
    k :| 0 <= k < |chunks| && chunks[k].start <= p && q <= chunks[k].end;
    ChunkAt(content, size, overlap, 0, 0, k);
    var c := chunks[k];
    LowerSlice(content, lower, c.start, c.end);
    LowerSlice(content, lower, c.start, p);
    LowerSlice(content, lower, q, c.end);
    AtInSlice(lower(content), term, i, |lower(content[..c.start])|, |lower(content[..c.end])|);
  }

  // ---- a letter that is not lower-cased on its own ----

  const CAPITAL_ALPHA := '\U{0391}'

  const ALPHA := '\U{03B1}'

  const CAPITAL_SIGMA := '\U{03A3}'

  const SIGMA := '\U{03C3}'

  const FINAL_SIGMA := '\U{03C2}'

  /** Lower-casing of a word of these letters: a capital sigma that ends the word becomes a final
      sigma. */
  function LowerWord(text: string): string {
    seq(|text|, i requires 0 <= i < |text| =>
      if text[i] == CAPITAL_SIGMA then (if 0 < i == |text| - 1 then FINAL_SIGMA else SIGMA)
      else if text[i] == CAPITAL_ALPHA then ALPHA else text[i])
  }

  const GREEK := Reading(LowerWord, c => true)

  // ---- text without that letter ----

  function Spelled(text: string, letter: char -> string): string {
    if text == "" then "" else Spelled(text[..|text| - 1], letter) + letter(text[|text| - 1])
  }

  lemma {:induction false} SpelledJoins(a: string, b: string, letter: char -> string)
    ensures Spelled(a + b, letter) == Spelled(a, letter) + Spelled(b, letter)
    decreases |b|
  {
    if b == "" {
      assert a + b == a;
    } else {
      assert (a + b)[..|a + b| - 1] == a + b[..|b| - 1];
      SpelledJoins(a, b[..|b| - 1], letter);
    }
  }

  /** Text without a capital sigma is lower-cased letter by letter, to one or more characters. */
  ghost predicate LetterWise(lower: string -> string, letter: char -> string) {
    && (forall c :: letter(c) != "")
    && forall text :: CAPITAL_SIGMA !in text ==> lower(text) == Spelled(text, letter)
  }

  lemma StretchIsSpelled(text: string, lower: string -> string, letter: char -> string, i: nat, k: nat)
    requires LetterWise(lower, letter) && CAPITAL_SIGMA !in text && i <= k <= |text|
    ensures lower(text[i..k]) == Spelled(text[i..k], letter)
  {
    assert forall c :: c in text[i..k] ==> c in text;
  }

  lemma LetterIsSpelled(lower: string -> string, letter: char -> string, c: char)
    requires LetterWise(lower, letter) && c != CAPITAL_SIGMA
    ensures lower([c]) == letter(c) != ""
  {
    assert [c][..0] == "" && Spelled([c], letter) == Spelled("", letter) + letter(c);
  }

  /** For such a lower-casing, every text without that letter meets the condition above. */
  lemma SigmaFreeIsCharacterWise(text: string, lower: string -> string, letter: char -> string)
    requires LetterWise(lower, letter) && CAPITAL_SIGMA !in text
    ensures CharacterWise(text, lower)
  {
    hide LetterWise, Spelled;
    forall i: nat, j: nat, k: nat | i <= j <= k <= |text| ensures Joins(text, lower, i, j, k) {
      StretchIsSpelled(text, lower, letter, i, k);
      StretchIsSpelled(text, lower, letter, i, j);
      StretchIsSpelled(text, lower, letter, j, k);
      SpelledJoins(text[i..j], text[j..k], letter);
      assert text[i..j] + text[j..k] == text[i..k];
    }
    forall i | 0 <= i < |text| ensures lower([text[i]]) != "" {
      LetterIsSpelled(lower, letter, text[i]);
    }
  }

  /** The lower-casing of words above is such a one. */
  lemma WordsAreLetterWise()
    ensures LetterWise(LowerWord, c => if c == CAPITAL_ALPHA then [ALPHA] else [c])
  {
    forall text | CAPITAL_SIGMA !in text
      ensures LowerWord(text) == Spelled(text, c => if c == CAPITAL_ALPHA then [ALPHA] else [c])
    {
      WordIsSpelled(text, c => if c == CAPITAL_ALPHA then [ALPHA] else [c]);
    }
  }

  lemma WordLast(text: string)
    requires text != "" && CAPITAL_SIGMA !in text
    ensures var n := |text| - 1;
            LowerWord(text) == LowerWord(text[..n]) + [if text[n] == CAPITAL_ALPHA then ALPHA else text[n]]
  {
    assert forall i :: 0 <= i < |text| ==> text[i] in text;
  }

  lemma {:induction false} WordIsSpelled(text: string, letter: char -> string)
    requires CAPITAL_SIGMA !in text && forall c :: letter(c) == if c == CAPITAL_ALPHA then [ALPHA] else [c]
    ensures LowerWord(text) == Spelled(text, letter)
    decreases |text|
  {
    if text != "" {
      var n := |text| - 1;
      assert text[n] in text && forall c :: c in text[..n] ==> c in text;
      WordLast(text);
      hide LowerWord;
      WordIsSpelled(text[..n], letter);
    }
  }

  // ---- a term that is missed ----

  lemma {:induction false} NoHits(documents: seq<Document>, terms: seq<string>, lower: string -> string)
    requires Terms(terms)
    requires forall d, k, t :: 0 <= d < |documents| && 0 <= k < |documents[d].chunks| && 0 <= t < |terms| ==>
               !Occurs(lower(documents[d].chunks[k].text), terms[t])
    ensures Hits(documents, terms, lower) == []
  {
    var hits := Hits(documents, terms, lower);
    if hits != [] {
      HitsAreFound(documents, terms, lower, hits[0]);
      assert false;
    }
  }

  lemma Lowered()
    ensures LowerWord([CAPITAL_ALPHA, CAPITAL_SIGMA]) == [ALPHA, FINAL_SIGMA]
    ensures LowerWord([CAPITAL_SIGMA, CAPITAL_ALPHA]) == [SIGMA, ALPHA]
    ensures LowerWord([CAPITAL_ALPHA, CAPITAL_SIGMA, CAPITAL_ALPHA]) == [ALPHA, SIGMA, ALPHA]
    ensures LowerWord([ALPHA, SIGMA]) == [ALPHA, SIGMA]
  {
  }

  lemma OccursInEqual(t: string, m: string)
    requires |t| == |m|
    ensures Occurs(t, m) <==> t == m
  {
    assert t[0..|m|] == t;
    if t == m { assert At(t, m, 0); }
  }

  lemma ThreeLetters(size: nat, overlap: nat)
    requires size == 2 && overlap == 1
    ensures var text := [CAPITAL_ALPHA, CAPITAL_SIGMA, CAPITAL_ALPHA];
            ChunksFrom(text, size, overlap, 0, 0) == [Chunk(0, text[..2], 0, 2), Chunk(1, text[1..], 1, 3)]
  {
    var text := [CAPITAL_ALPHA, CAPITAL_SIGMA, CAPITAL_ALPHA];
    ChunksUnfold(text, size, overlap, 0, 0);
    ChunksUnfold(text, size, overlap, 1, 1);
    assert text[0..2] == text[..2] && text[1..3] == text[1..];
  }

  /** Such a letter at the end of a chunk hides a term that is short enough and occurs in the
      document. */
  lemma FinalSigmaIsMissed(name: string)
    ensures var text, query := [CAPITAL_ALPHA, CAPITAL_SIGMA, CAPITAL_ALPHA], [ALPHA, SIGMA];
            && QueryTerms(query, GREEK) == [query] && Occurs(GREEK.lower(text), query)
            && Hits([Document(name, ChunksFrom(text, 2, 1, 0, 0))], [query], GREEK.lower) == []
  {
    var text, query := [CAPITAL_ALPHA, CAPITAL_SIGMA, CAPITAL_ALPHA], [ALPHA, SIGMA];
    Lowered();
    OneRun(query, GREEK.word);
    assert At(GREEK.lower(text), query, 0);
    ThreeLetters(2, 1);
    assert text[..2] == [CAPITAL_ALPHA, CAPITAL_SIGMA] && text[1..] == [CAPITAL_SIGMA, CAPITAL_ALPHA];
    OccursInEqual([ALPHA, FINAL_SIGMA], query);
    OccursInEqual([SIGMA, ALPHA], query);
    assert [ALPHA, FINAL_SIGMA][1] != query[1] && [SIGMA, ALPHA][0] != query[0];
    NoHits([Document(name, ChunksFrom(text, 2, 1, 0, 0))], [query], GREEK.lower);
  }

  lemma AtInSlice(t: string, m: string, i: int, a: nat, b: nat)
    requires At(t, m, i) && a <= i && i + |m| <= b <= |t|
    ensures At(t[a..b], m, i - a)
  {
    forall x | 0 <= x < |m| ensures t[a..b][i - a..i - a + |m|][x] == m[x] {
      assert t[i..i + |m|][x] == t[i + x] == t[a..b][i - a + x];
    }
  }

  /** Every hit is a chunk in which some term occurs, and is scored. */
  lemma {:induction false} HitsAreFound(documents: seq<Document>, terms: seq<string>, lower: string -> string, h: Hit)
    requires Terms(terms) && h in Hits(documents, terms, lower)
    ensures Found(documents, terms, lower, h) && h.score == Score(lower(h.text), terms) > 0
    decreases |documents|
  {
    var n := |documents| - 1;
    if h in Hits(documents[..n], terms, lower) {
      HitsAreFound(documents[..n], terms, lower, h);
      var d, k, t :| FoundAt(documents[..n], terms, lower, h, d, k, t);
      assert FoundAt(documents, terms, lower, h, d, k, t);
    } else {
      var k := HitIsChunk(documents[n].name, documents[n].chunks, terms, lower, h);
      ScorePositive(lower(h.text), terms);
      var t :| 0 <= t < |terms| && Occurs(lower(h.text), terms[t]);
      assert FoundAt(documents, terms, lower, h, n, k, t);
    }
  }

  lemma {:induction false} HitIsChunk(
    name: string, chunks: seq<Chunk>, terms: seq<string>, lower: string -> string, h: Hit)
    returns (k: nat)
    requires Terms(terms) && h in ChunkHits(name, chunks, terms, lower)
    ensures k < |chunks| && h == Hit(name, chunks[k].id, Score(lower(chunks[k].text), terms), chunks[k].text)
    ensures h.score > 0
    decreases |chunks|
  {
    var n := |chunks| - 1;
    if h in ChunkHits(name, chunks[..n], terms, lower) {
      k := HitIsChunk(name, chunks[..n], terms, lower, h);
    } else {
      k := n;
    }
  }

  lemma Dominates(ranked: seq<Hit>, n: nat)
    requires Falling(ranked) && n <= |ranked|
    ensures forall a, b :: a in ranked[..n] && b in ranked[n..] ==> a.score >= b.score
  {
    forall a, b | a in ranked[..n] && b in ranked[n..] ensures a.score >= b.score {
      var i :| 0 <= i < n && ranked[..n][i] == a;
      var j :| 0 <= j < |ranked| - n && ranked[n..][j] == b;
      assert ranked[i] == a && ranked[n + j] == b;
    }
  }

  lemma CutIsPrefix(hits: seq<Hit>, limit: int)
    ensures Cut(hits, limit) == hits[..|Cut(hits, limit)|]
  {
  }

  lemma NoTermsNoHits(documents: seq<Document>, lower: string -> string)
    ensures Hits(documents, [], lower) == []
  {
    NoHits(documents, [], lower);
  }

  /** A search returns a prefix of the stable ranking of all hits, of the length Python's slice
      has for either sign of the limit, so that no hit left out has a higher score than one
      returned. */
  lemma SearchReturnsBest(documents: seq<Document>, query: string, limit: int, x: Reading)
    ensures var hits := Hits(documents, QueryTerms(query, x), x.lower);
            var returned := Search(documents, query, limit, x);
            && |returned| == (if limit >= |hits| then |hits| else if limit >= 0 then limit
                              else if |hits| + limit > 0 then |hits| + limit else 0)
            && exists omitted ::
                 && returned + omitted == Ranked(hits) && multiset(returned + omitted) == multiset(hits)
                 && forall a, b :: a in returned && b in omitted ==> a.score >= b.score
  {
    NoTermsNoHits(documents, x.lower);
    hide Hits, WithScore, Falling, QueryTerms, InsertHit;
    var hits, returned := Hits(documents, QueryTerms(query, x), x.lower), Search(documents, query, limit, x);
    var ranked := Ranked(hits);
    RankingIsStable(hits);
    CutIsPrefix(ranked, limit);
    Dominates(ranked, |returned|);
    assert ranked == returned + ranked[|returned|..];
  }
}
