/** When noise hides what follows it from the scanner, as a grammar of quotes and backslashes. */
module Noise {
  import opened JsonScan

  /** One character of a string literal: an ordinary one, or a backslash and any character. */
  predicate IsLetter(u: string) {
    || (|u| == 1 && u[0] != '"' && u[0] != '\\')
    || (|u| == 2 && u[0] == '\\')
  }

  /** What can stand between the quotes of a string literal. */
  ghost predicate InsideString(s: string)
    decreases |s|
  {
    s == "" || exists k | 0 <= k < |s| :: InsideString(s[..k]) && IsLetter(s[k..])
  }

  /** A single character other than a quote, or a whole string literal. */
  ghost predicate IsPiece(p: string) {
    || (|p| == 1 && p[0] != '"')
    || (|p| >= 2 && p[0] == '"' && p[|p| - 1] == '"' && InsideString(p[1..|p| - 1]))
  }

  /** Every quote outside string literals opens one that is closed. */
  ghost predicate QuotesClosed(s: string)
    decreases |s|
  {
    s == "" || exists k | 0 <= k < |s| :: QuotesClosed(s[..k]) && IsPiece(s[k..])
  }

  /** A string literal is open from character `k` on. */
  ghost predicate OpenFrom(s: string, k: int) {
    0 <= k < |s| && QuotesClosed(s[..k]) && s[k] == '"' && InsideString(s[k + 1..])
  }

  /** A string literal is open and the last character is a backslash that takes the next one with it. */
  ghost predicate OpenBefore(s: string) {
    s != "" && s[|s| - 1] == '\\' && var most := s[..|s| - 1]; exists k :: OpenFrom(most, k)
  }

  // ------------------------------------------------------------------------------------ literals run to their end

  lemma LetterRun(st: Scan, u: string)
    requires st.inStr && !st.escape && IsLetter(u)
    ensures Run(st, u) == st
  {
    RunOne(st, u[0]);
    if |u| == 1 {
      assert u == [u[0]];
    } else {
      assert u[..1] == [u[0]];
    }
  }

  lemma {:induction false} InsideRun(st: Scan, s: string)
    requires st.inStr && !st.escape && InsideString(s)
    ensures Run(st, s) == st
    decreases |s|
  {
    if s != "" {
      var k :| 0 <= k < |s| && InsideString(s[..k]) && IsLetter(s[k..]);
      InsideRun(st, s[..k]);
      LetterRun(st, s[k..]);
      RunConcat(st, s[..k], s[k..]);
      assert s == s[..k] + s[k..];
    }
  }

  lemma PieceRun(st: Scan, p: string)
    requires !st.inStr && !st.escape && IsPiece(p)
    ensures !Run(st, p).inStr && !Run(st, p).escape
  {
    if |p| == 1 {
      assert p == [p[0]];
      RunOne(st, p[0]);
    } else {
      var inner := p[1..|p| - 1];
      assert p[..|p| - 1] == ['"'] + inner;
      RunOne(st, '"');
      RunConcat(st, ['"'], inner);
      InsideRun(st.(inStr := true), inner);
    }
  }

  lemma {:induction false} ClosedRun(s: string)
    requires QuotesClosed(s)
    ensures !Run(OUTSIDE, s).inStr && !Run(OUTSIDE, s).escape
    decreases |s|
  {
    if s != "" {
      var k :| 0 <= k < |s| && QuotesClosed(s[..k]) && IsPiece(s[k..]);
      ClosedRun(s[..k]);
      PieceRun(Run(OUTSIDE, s[..k]), s[k..]);
      RunConcat(OUTSIDE, s[..k], s[k..]);
      assert s == s[..k] + s[k..];
    }
  }

  // ------------------------------------------------------------------------------------ the state is what was read

  lemma PieceEnds(s: string, k: int)
    requires 0 <= k < |s| && QuotesClosed(s[..k]) && IsPiece(s[k..])
    ensures QuotesClosed(s)
  {
  }

  lemma LetterEnds(s: string, most: string, k: int, m: int)
    requires most <= s && OpenFrom(most, k) && k < m < |s|
    requires InsideString(s[k + 1..m]) && IsLetter(s[m..])
    ensures OpenFrom(s, k)
  {
    var inner := s[k + 1..];
    assert s[..k] == most[..k] && inner[..m - k - 1] == s[k + 1..m] && inner[m - k - 1..] == s[m..];
  }

  lemma QuotedPiece(s: string, k: int)
    requires 0 <= k < |s| - 1 && s[k] == '"' && s[|s| - 1] == '"' && InsideString(s[..|s| - 1][k + 1..])
    ensures IsPiece(s[k..])
  {
    var p := s[k..];
    assert p[0] == s[k] && p[|p| - 1] == s[|s| - 1] && p[1..|p| - 1] == s[..|s| - 1][k + 1..];
  }

  lemma QuoteEnds(s: string, k: int)
    requires s != "" && OpenFrom(s[..|s| - 1], k) && s[|s| - 1] == '"'
    ensures QuotesClosed(s)
  {
    var most, p := s[..|s| - 1], s[k..];
    QuotedPiece(s, k);
    assert s[..k] == most[..k];
    PieceEnds(s, k);
  }

  /** The text read so far, by the state it leaves. */
  ghost predicate ReadAs(s: string, r: Scan) {
    if !r.inStr then !r.escape && QuotesClosed(s)
    else if !r.escape then exists k :: OpenFrom(s, k)
    else OpenBefore(s)
  }

  lemma OneMore(most: string, c: char)
    ensures var s := most + [c]; s[..|most|] == most && s[|most|..] == [c] && s[|most| + 1..] == ""
  {
  }

  // Outside strings: a quote opens one.
  lemma ReadOutside(most: string, c: char, r: Scan)
    requires !r.inStr && ReadAs(most, r)
    ensures ReadAs(most + [c], Next(r, c))
  {
    var s := most + [c];
    OneMore(most, c);
    if c == '"' { assert OpenFrom(s, |most|); } else { PieceEnds(s, |most|); }
  }

  // Inside a string: a quote ends it, a backslash waits for its character.
  lemma ReadInside(most: string, c: char, r: Scan)
    requires r.inStr && !r.escape && ReadAs(most, r)
    ensures ReadAs(most + [c], Next(r, c))
  {
    var s := most + [c];
    OneMore(most, c);
    var k :| OpenFrom(most, k);
    if c == '"' {
      QuoteEnds(s, k);
    } else if c != '\\' {
      assert s[k + 1..|most|] == most[k + 1..];
      LetterEnds(s, most, k, |most|);
    }
  }

  // After a backslash: any character completes the letter.
  lemma ReadEscaped(most: string, c: char, r: Scan)
    requires r.inStr && r.escape && ReadAs(most, r)
    ensures ReadAs(most + [c], Next(r, c))
  {
    var s, n := most + [c], |most| - 1;
    var less := most[..n];
    var k :| OpenFrom(less, k);
    assert less == s[..n] && s[n..] == ['\\', c] && s[k + 1..n] == less[k + 1..];
    LetterEnds(s, less, k, n);
  }

  lemma {:induction false} ReadSoFar(s: string)
    ensures ReadAs(s, Run(OUTSIDE, s))
    decreases |s|
  {
    if s != "" {
      var most, c := s[..|s| - 1], s[|s| - 1];
      var r := Run(OUTSIDE, most);
      ReadSoFar(most);
      assert s == most + [c];
      if !r.inStr {
        ReadOutside(most, c, r);
      } else if !r.escape {
        ReadInside(most, c, r);
      } else {
        ReadEscaped(most, c, r);
      }
    }
  }

  /** Text leaves the scanner outside strings exactly when its quotes are closed. */
  lemma OutsideIffClosed(s: string)
    ensures !Run(OUTSIDE, s).inStr <==> QuotesClosed(s)
  {
    ReadSoFar(s);
    if QuotesClosed(s) { ClosedRun(s); }
  }

  /** An object behind brace-free noise is found if and only if every string literal of the noise is closed. */
  lemma FoundIffClosed(noise: string, v: Json)
    requires (forall c | c in noise :: c != '{') && IsObject(v)
    ensures ChunksAre(noise + Written(v), [Written(v)]) <==> QuotesClosed(noise)
  {
    FoundIffQuotesClosed(noise, v);
    OutsideIffClosed(noise);
  }

  /** From output polluted by brace-free noise with closed literals exactly the objects are returned, in order. */
  lemma RecoversFromNoise(lead: string, parts: seq<(Json, string)>)
    requires (forall c | c in lead :: c != '{') && QuotesClosed(lead)
    requires forall p | p in parts :: IsObject(p.0) && (forall c | c in p.1 :: c != '{') && QuotesClosed(p.1)
    ensures ChunksAre(Polluted(lead, parts), ObjectTexts(parts))
  {
    OutsideIffClosed(lead);
    forall p | p in parts ensures Harmless(p.1) { OutsideIffClosed(p.1); }
    RecoversObjects(lead, parts);
  }
}
