/** The string operations shared by block merging and document search: Python's count, index,
    rstrip and strip. */
module Strings {

  /** m occurs in t at position i. */
  predicate At(t: string, m: string, i: int) {
    0 <= i <= |t| - |m| && t[i..i + |m|] == m
  }

  ghost predicate Occurs(t: string, m: string) { exists i :: At(t, m, i) }

  /** Non-overlapping occurrences, scanned from the left; m is not empty. */
  function Count(t: string, m: string): nat
    requires m != ""
  {
    if |t| < |m| then 0
    else if t[..|m|] == m then 1 + Count(t[|m|..], m)
    else Count(t[1..], m)
  }

  /** The first occurrence, or the length of t if there is none. */
  function Index(t: string, m: string): (i: nat)
    requires m != ""
    ensures i <= |t|
  {
    if |t| < |m| then |t|
    else if t[..|m|] == m then 0
    else 1 + Index(t[1..], m)
  }

  lemma AtBounds(t: string, m: string, i: int)
    ensures At(t, m, i) ==> 0 <= i <= |t| - |m|
    ensures |m| <= |t| ==> (At(t, m, 0) <==> t[..|m|] == m)
  {
  }

  lemma AtShift(t: string, m: string, k: nat, i: int)
    requires k <= |t| && i >= 0
    ensures At(t[k..], m, i) <==> At(t, m, i + k)
  {
    if i + k <= |t| - |m| { assert t[k..][i..i + |m|] == t[i + k..i + k + |m|]; }
  }

  /** The count is positive exactly when m occurs. */
  lemma {:induction false} CountPositive(t: string, m: string)
    requires m != ""
    ensures Count(t, m) > 0 <==> Occurs(t, m)
    decreases |t|
  {
    hide At;
    if |t| < |m| {
      if i :| At(t, m, i) { AtBounds(t, m, i); }
    } else {
      AtBounds(t, m, 0);
      if t[..|m|] != m {
        CountPositive(t[1..], m);
        if i :| At(t[1..], m, i) {
          AtBounds(t[1..], m, i);
          AtShift(t, m, 1, i);
        }
        if i :| At(t, m, i) {
          AtBounds(t, m, i);
          AtShift(t, m, 1, i - 1);
        }
      }
    }
  }

  /** There are k occurrences of m in t that do not overlap. */
  ghost predicate Packs(t: string, m: string, k: nat) {
    k == 0 || exists i :: At(t, m, i) && Packs(t[i + |m|..], m, k - 1)
  }

  lemma CountUnfold(t: string, m: string)
    requires m != ""
    ensures Count(t, m) ==
            if |t| < |m| then 0 else if t[..|m|] == m then 1 + Count(t[|m|..], m) else Count(t[1..], m)
  {
  }

  lemma Dropped(t: string, a: nat, b: nat)
    requires a + b <= |t|
    ensures t[a..][b..] == t[a + b..]
  {
  }

  /** Dropping the first d characters loses no more than that: not the count of the rest, and at
      most one occurrence when there are no more than |m| of them. */
  ghost predicate DropsTo(t: string, m: string, d: nat)
    requires m != "" && d <= |t|
  {
    Count(t[d..], m) <= Count(t, m) && (d <= |m| ==> Count(t, m) <= 1 + Count(t[d..], m))
  }

  lemma DropFromShort(t: string, m: string, d: nat)
    requires m != "" && d <= |t| < |m|
    ensures DropsTo(t, m, d)
  {
    CountUnfold(t, m);
    CountUnfold(t[d..], m);
    hide Count;
  }

  lemma DropFromOther(t: string, m: string, d: nat)
    requires m != "" && 0 < d <= |t| && |t| >= |m| && t[..|m|] != m && DropsTo(t[1..], m, d - 1)
    ensures DropsTo(t, m, d)
  {
    CountUnfold(t, m);
    hide Count;
    Dropped(t, 1, d - 1);
  }

  lemma DropFromMatch(t: string, m: string, d: nat)
    requires m != "" && 0 < d <= |t| && |t| >= |m| && t[..|m|] == m
    requires d >= |m| ==> DropsTo(t[|m|..], m, d - |m|)
    requires d < |m| ==> DropsTo(t[d..], m, |m| - d)
    ensures DropsTo(t, m, d)
  {
    CountUnfold(t, m);
    hide Count;
    if d >= |m| { Dropped(t, |m|, d - |m|); } else { Dropped(t, d, |m| - d); }
  }

  lemma {:induction false} CountDrop(t: string, m: string, d: nat)
    requires m != "" && d <= |t|
    ensures DropsTo(t, m, d)
    decreases |t|
  {
    if d == 0 {
      assert t[0..] == t;
    } else {
      hide DropsTo;
      if |t| < |m| {
        DropFromShort(t, m, d);
      } else if t[..|m|] != m {
        CountDrop(t[1..], m, d - 1);
        DropFromOther(t, m, d);
      } else {
        if d >= |m| { CountDrop(t[|m|..], m, d - |m|); } else { CountDrop(t[d..], m, |m| - d); }
        DropFromMatch(t, m, d);
      }
    }
  }

  lemma AfterMatch(t: string, m: string, i: nat)
    requires m != "" && |m| + i <= |t| && t[..|m|] == m
    ensures 1 + Count(t[i + |m|..], m) <= Count(t, m)
  {
    CountDrop(t[|m|..], m, i);
    CountUnfold(t, m);
    hide Count;
    Dropped(t, |m|, i);
  }

  lemma AfterOther(t: string, m: string, i: nat)
    requires m != "" && 0 < i && |m| + i <= |t| && t[..|m|] != m
    requires 1 + Count(t[1..][i - 1 + |m|..], m) <= Count(t[1..], m)
    ensures 1 + Count(t[i + |m|..], m) <= Count(t, m)
  {
    CountUnfold(t, m);
    hide Count;
    Dropped(t, 1, i - 1 + |m|);
  }

  lemma {:induction false} CountAfter(t: string, m: string, i: nat)
    requires m != "" && At(t, m, i)
    ensures i + |m| <= |t| && 1 + Count(t[i + |m|..], m) <= Count(t, m)
    decreases |t|
  {
    AtBounds(t, m, i);
    AtBounds(t, m, 0);
    hide Count, At;
    if t[..|m|] == m {
      AfterMatch(t, m, i);
    } else {
      AtShift(t, m, 1, i - 1);
      CountAfter(t[1..], m, i - 1);
      AfterOther(t, m, i);
    }
  }

  lemma PackAt(t: string, m: string, i: int, k: nat)
    requires k > 0 && At(t, m, i) && Packs(t[i + |m|..], m, k - 1)
    ensures Packs(t, m, k)
  {
  }

  lemma PackedAt(t: string, m: string, k: nat) returns (i: nat)
    requires k > 0 && Packs(t, m, k)
    ensures At(t, m, i) && i + |m| <= |t| && Packs(t[i + |m|..], m, k - 1)
  {
    i :| At(t, m, i) && Packs(t[i + |m|..], m, k - 1);
  }

  lemma PackLater(t: string, m: string, k: nat)
    requires t != "" && Packs(t[1..], m, k)
    ensures Packs(t, m, k)
  {
    if k > 0 {
      var i := PackedAt(t[1..], m, k);
      AtShift(t, m, 1, i);
      Dropped(t, 1, i + |m|);
      hide At, Packs;
      PackAt(t, m, i + 1, k);
    }
  }

  lemma {:induction false} CountPacks(t: string, m: string, k: nat)
    requires m != "" && k <= Count(t, m)
    ensures Packs(t, m, k)
    decreases |t|
  {
    if k > 0 {
      CountUnfold(t, m);
      AtBounds(t, m, 0);
      hide Count, At, Packs;
      if t[..|m|] == m {
        CountPacks(t[|m|..], m, k - 1);
        PackAt(t, m, 0, k);
      } else {
        CountPacks(t[1..], m, k);
        PackLater(t, m, k);
      }
    }
  }

  /** The scan finds as many occurrences as there can be without overlap. */
  lemma {:induction false} CountIsGreatest(t: string, m: string, k: nat)
    requires m != ""
    ensures k <= Count(t, m) <==> Packs(t, m, k)
    decreases k
  {
    if k <= Count(t, m) { CountPacks(t, m, k); }
    hide Count, At;
    if k > 0 && Packs(t, m, k) {
      var i := PackedAt(t, m, k);
      CountIsGreatest(t[i + |m|..], m, k - 1);
      CountAfter(t, m, i);
    }
  }

  lemma {:induction false} IndexIsFirst(t: string, m: string)
    requires m != ""
    ensures Occurs(t, m) ==> At(t, m, Index(t, m))
    ensures forall i :: At(t, m, i) ==> Index(t, m) <= i
    decreases |t|
  {
    hide At;
    forall i | At(t, m, i) ensures 0 <= i <= |t| - |m| { AtBounds(t, m, i); }
    if |t| >= |m| {
      AtBounds(t, m, 0);
      if t[..|m|] != m {
        IndexIsFirst(t[1..], m);
        forall i | At(t, m, i) ensures At(t[1..], m, i - 1) { AtShift(t, m, 1, i - 1); }
        if Occurs(t[1..], m) { AtShift(t, m, 1, Index(t[1..], m)); }
      }
    }
  }

  // ---- whitespace ----

  /** The characters `str.strip` removes. */
  predicate IsSpace(c: char) {
    || '\t' <= c <= '\r' || '\U{1C}' <= c <= ' ' || c == '\U{85}' || c == '\U{A0}' || c == '\U{1680}'
    || '\U{2000}' <= c <= '\U{200A}' || c == '\U{2028}' || c == '\U{2029}' || c == '\U{202F}'
    || c == '\U{205F}' || c == '\U{3000}'
  }

  predicate AllSpace(t: string) { forall i :: 0 <= i < |t| ==> IsSpace(t[i]) }

  predicate EndsSolid(t: string) { t == "" || !IsSpace(t[|t| - 1]) }

  predicate StartsSolid(t: string) { t == "" || !IsSpace(t[0]) }

  function RStrip(t: string): (r: string)
    ensures r <= t && EndsSolid(r) && AllSpace(t[|r|..])
  {
    if t == "" || !IsSpace(t[|t| - 1]) then t else RStrip(t[..|t| - 1])
  }

  function LStrip(t: string): (r: string)
    ensures |r| <= |t| && StartsSolid(r)
  {
    if t == "" || !IsSpace(t[0]) then t else LStrip(t[1..])
  }

  lemma {:induction false} LStripIsSuffix(t: string)
    ensures t[|t| - |LStrip(t)|..] == LStrip(t)
    decreases |t|
  {
    hide IsSpace;
    if t != "" && IsSpace(t[0]) {
      LStripIsSuffix(t[1..]);
      var n := |t| - |LStrip(t)|;
      assert t[1..][n - 1..] == t[n..];
    }
  }

  function Strip(t: string): string { RStrip(LStrip(t)) }

  lemma {:induction false} RStripOf(r: string, space: string)
    requires EndsSolid(r) && AllSpace(space)
    ensures RStrip(r + space) == r
    decreases |space|
  {
    var t := r + space;
    if space == "" {
      assert t == r;
    } else {
      assert t[..|t| - 1] == r + space[..|space| - 1];
      RStripOf(r, space[..|space| - 1]);
    }
  }

  lemma {:induction false} LStripOf(space: string, r: string)
    requires StartsSolid(r) && AllSpace(space)
    ensures LStrip(space + r) == r
    decreases |space|
  {
    var t := space + r;
    if space == "" {
      assert t == r;
    } else {
      assert t[1..] == space[1..] + r;
      LStripOf(space[1..], r);
    }
  }

  lemma StripStripped(t: string)
    ensures StartsSolid(Strip(t)) && EndsSolid(Strip(t))
  {
    var l := LStrip(t);
    var r := RStrip(l);
    if r != "" { assert r[0] == l[0]; }
  }

  lemma SolidIsStripped(t: string)
    requires StartsSolid(t) && EndsSolid(t)
    ensures Strip(t) == t
  {
    assert t + "" == t && "" + t == t;
    LStripOf("", t);
    RStripOf(t, "");
  }

  /** Stripping text again changes nothing. */
  lemma StripTwice(t: string)
    ensures Strip(Strip(t)) == Strip(t)
  {
    StripStripped(t);
    SolidIsStripped(Strip(t));
  }

  lemma StripPadded(before: string, t: string, after: string)
    requires StartsSolid(t) && EndsSolid(t) && t != "" && AllSpace(before) && AllSpace(after)
    ensures Strip(before + t + after) == t
  {
    assert before + t + after == before + (t + after);
    LStripOf(before, t + after);
    RStripOf(t, after);
  }

  // ---- letter case ----

  function LowerChar(c: char): char { if 'A' <= c <= 'Z' then (c as int + 32) as char else c }

  function UpperChar(c: char): char { if 'a' <= c <= 'z' then (c as int - 32) as char else c }

  predicate Ascii(t: string) { forall i :: 0 <= i < |t| ==> t[i] < '\U{80}' }

  function LowerAscii(t: string): string { seq(|t|, i requires 0 <= i < |t| => LowerChar(t[i])) }

  function UpperAscii(t: string): string { seq(|t|, i requires 0 <= i < |t| => UpperChar(t[i])) }

  const LETTERS := "abcdefghijklmnopqrstuvwxyz"

  const DIGITS := "0123456789"

  lemma LetterIs(c: char)
    ensures 'a' <= c <= 'z' <==> c in LETTERS
  {
    if 'a' <= c <= 'z' {
      assert LETTERS[c as int - 'a' as int] == c;
    }
  }

  lemma DigitIs(c: char)
    ensures '0' <= c <= '9' <==> c in DIGITS
  {
    if '0' <= c <= '9' {
      assert DIGITS[c as int - '0' as int] == c;
    }
  }
}
