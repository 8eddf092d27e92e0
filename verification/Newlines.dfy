/** Newline handling of the patch tools: `str.replace`, `str.count`, detection and
    normalisation of line endings (tools/patch_tools.py:82-108). */
module Newlines {
  import opened Strings

  datatype Newline = CRLF | LF | CR

  function Ending(newline: Newline): string {
    match newline
    case CRLF => "\r\n"
    case LF => "\n"
    case CR => "\r"
  }

  /** `str.replace`: leftmost, non-overlapping occurrences. */
  function Replace(s: string, sought: string, put: string): string
    requires sought != ""
    decreases |s|
  {
    if |s| < |sought| then s
    else if s[..|sought|] == sought then put + Replace(s[|sought|..], sought, put)
    else [s[0]] + Replace(s[1..], sought, put)
  }

  function UnifyLines(text: string): string {
    Replace(Replace(text, "\r\n", "\n"), "\r", "\n")
  }

  function Normalize(text: string, newline: Newline): string {
    Replace(UnifyLines(text), "\n", Ending(newline))
  }

  function Detect(text: string): Newline {
    var crlf := Count(text, "\r\n");
    var remaining := Replace(text, "\r\n", "");
    var lf := Count(remaining, "\n");
    var cr := Count(remaining, "\r");
    if crlf == 0 && lf == 0 && cr == 0 then LF
    else if lf <= crlf && cr <= crlf then CRLF
    else if cr <= lf then LF
    else CR
  }

  // ---- one-character replacement ----

  lemma {:induction false} ReplaceAbsent(s: string, sought: string, put: string)
    requires sought != ""
    requires exists i :: 0 <= i < |sought| && sought[i] !in s
    ensures Replace(s, sought, put) == s
    ensures Count(s, sought) == 0
    decreases |s|
  {
    if |s| >= |sought| {
      var i :| 0 <= i < |sought| && sought[i] !in s;
      assert s[..|sought|] != sought by { assert s[..|sought|][i] in s; }
      assert sought[i] !in s[1..];
      ReplaceAbsent(s[1..], sought, put);
    }
  }

  lemma {:induction false} ReplaceKeepsOthers(s: string, sought: string, put: string, c: char)
    requires sought != "" && c !in sought && c !in put
    ensures c in Replace(s, sought, put) <==> c in s
    decreases |s|
  {
    if |s| >= |sought| {
      if s[..|sought|] == sought {
        ReplaceKeepsOthers(s[|sought|..], sought, put, c);
        assert s == sought + s[|sought|..];
      } else {
        ReplaceKeepsOthers(s[1..], sought, put, c);
        assert s == [s[0]] + s[1..];
      }
    }
  }

  lemma {:induction false} ReplaceCharRemoves(s: string, c: char, put: string)
    requires c !in put
    ensures c !in Replace(s, [c], put)
    decreases |s|
  {
    if s != "" {
      ReplaceCharRemoves(s[1..], c, put);
      assert s[..1] == [s[0]];
    }
  }

  /** The unified form has no carriage return left. */
  lemma UnifiedHasNoCarriageReturn(text: string)
    ensures '\r' !in UnifyLines(text)
  {
    ReplaceCharRemoves(Replace(text, "\r\n", "\n"), '\r', "\n");
  }

  lemma {:induction false} CharRoundTrip(u: string, a: char, b: char)
    requires b !in u
    ensures Replace(Replace(u, [a], [b]), [b], [a]) == u
    decreases |u|
  {
    if u != "" {
      CharRoundTrip(u[1..], a, b);
      assert u[..1] == [u[0]];
      var v := Replace(u, [a], [b]);
      var x := if u[0] == a then b else u[0];
      assert v == [x] + Replace(u[1..], [a], [b]);
      assert v[..1] == [x] && v[1..] == Replace(u[1..], [a], [b]);
      assert u == [u[0]] + u[1..];
    }
  }

  lemma {:induction false} CrlfRoundTrip(u: string)
    requires '\r' !in u
    ensures Replace(Replace(u, "\n", "\r\n"), "\r\n", "\n") == u
    ensures Count(Replace(u, "\n", "\r\n"), "\r\n") == Count(u, "\n")
    decreases |u|
  {
    if u != "" {
      CrlfRoundTrip(u[1..]);
      assert u[..1] == [u[0]] && u == [u[0]] + u[1..];
      var rest := Replace(u[1..], "\n", "\r\n");
      var v := Replace(u, "\n", "\r\n");
      if u[0] == '\n' {
        assert v == "\r\n" + rest;
        assert v[..2] == "\r\n" && v[2..] == rest;
      } else {
        assert v == [u[0]] + rest;
        assert v[1..] == rest;
        assert |v| >= 2 ==> v[..2][0] == u[0];
      }
    }
  }

  /** Writing a unified text with any line ending and unifying again gives it back. */
  lemma UnifyInvertsEnding(u: string, newline: Newline)
    requires '\r' !in u
    ensures UnifyLines(Replace(u, "\n", Ending(newline))) == u
  {
    var v := Replace(u, "\n", Ending(newline));
    match newline
    case CRLF =>
      CrlfRoundTrip(u);
      ReplaceAbsent(u, "\r", "\n") by { assert "\r"[0] !in u; }
    case LF =>
      CharIdentity(u, '\n');
      ReplaceAbsent(u, "\r\n", "\n") by { assert "\r\n"[0] !in u; }
      ReplaceAbsent(u, "\r", "\n") by { assert "\r"[0] !in u; }
    case CR =>
      ReplaceCharRemoves(u, '\n', "\r");
      ReplaceAbsent(v, "\r\n", "\n") by { assert "\r\n"[1] !in v; }
      CharRoundTrip(u, '\n', '\r');
  }

  lemma {:induction false} CharIdentity(u: string, c: char)
    ensures Replace(u, [c], [c]) == u
    decreases |u|
  {
    if u != "" {
      CharIdentity(u[1..], c);
      assert u[..1] == [u[0]] && u == [u[0]] + u[1..];
    }
  }

  /** Normalisation forgets every earlier choice of line ending; with `first == second`
      this is the idempotence on which the stored-hash check of a patch rests. */
  lemma NormalizeAbsorbs(text: string, first: Newline, second: Newline)
    ensures Normalize(Normalize(text, first), second) == Normalize(text, second)
  {
    UnifiedHasNoCarriageReturn(text);
    UnifyInvertsEnding(UnifyLines(text), first);
  }

  lemma NormalizeKeepsChar(text: string, newline: Newline, c: char)
    requires c != '\r' && c != '\n'
    ensures c in Normalize(text, newline) <==> c in text
  {
    ReplaceKeepsOthers(text, "\r\n", "\n", c);
    ReplaceKeepsOthers(Replace(text, "\r\n", "\n"), "\r", "\n", c);
    ReplaceKeepsOthers(UnifyLines(text), "\n", Ending(newline), c);
  }

  lemma {:induction false} CountChar(s: string, c: char)
    ensures Count(s, [c]) > 0 <==> c in s
    decreases |s|
  {
    if s != "" {
      CountChar(s[1..], c);
      assert s[..1] == [s[0]] && s == [s[0]] + s[1..];
    }
  }

  lemma {:induction false} CrlfRemoval(u: string)
    requires '\r' !in u
    ensures '\r' !in Replace(Replace(u, "\n", "\r\n"), "\r\n", "")
    ensures '\n' !in Replace(Replace(u, "\n", "\r\n"), "\r\n", "")
    decreases |u|
  {
    if u != "" {
      CrlfRemoval(u[1..]);
      assert u[..1] == [u[0]] && u == [u[0]] + u[1..];
      var rest := Replace(u[1..], "\n", "\r\n");
      var v := Replace(u, "\n", "\r\n");
      if u[0] == '\n' {
        assert v == "\r\n" + rest;
        assert v[..2] == "\r\n" && v[2..] == rest;
      } else {
        assert v == [u[0]] + rest;
        assert v[1..] == rest;
        assert |v| >= 2 ==> v[..2][0] == u[0];
      }
    }
  }

  /** A normalised text is detected as having the line ending it was normalised to
      (LF when it has no line break at all), so a later proposal keeps the file's style. */
  lemma DetectNormalized(text: string, newline: Newline)
    ensures Detect(Normalize(text, newline)) ==
            if '\n' in UnifyLines(text) then newline else LF
  {
    var u := UnifyLines(text);
    UnifiedHasNoCarriageReturn(text);
    CountChar(u, '\n');
    var v := Normalize(text, newline);
    match newline
    case CRLF =>
      CrlfRoundTrip(u);
      CrlfRemoval(u);
      CountChar(Replace(v, "\r\n", ""), '\n');
      CountChar(Replace(v, "\r\n", ""), '\r');
    case LF =>
      CharIdentity(u, '\n');
      ReplaceAbsent(u, "\r\n", "") by { assert "\r\n"[0] !in u; }
      CountChar(u, '\r');
    case CR =>
      ReplaceCharRemoves(u, '\n', "\r");
      ReplaceAbsent(v, "\r\n", "") by { assert "\r\n"[1] !in v; }
      CountChar(v, '\n');
      CharRoundTrip(u, '\n', '\r');
      CountChar(v, '\r');
      if '\r' !in v { ReplaceAbsent(v, "\r", "\n") by { assert "\r"[0] !in v; } }
      if '\n' !in u { ReplaceAbsent(u, "\n", "\r") by { assert "\n"[0] !in u; } }
  }
}
