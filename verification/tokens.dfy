/**
 * Whitespace tokenisation as done by Go's `strings.Fields`: the input is cut
 * at every maximal run of white space, and the runs themselves are dropped.
 * There is no quoting and no escaping.
 */
module Tokens {

  /** Go's `unicode.IsSpace`: the Latin-1 spaces and the Unicode White_Space set. */
  predicate IsSpace(c: char)
  {
    c == '\t' || c == '\n' || c == '\U{000B}' || c == '\U{000C}' || c == '\r' || c == ' '
    || c == '\U{0085}' || c == '\U{00A0}' || c == '\U{1680}'
    || ('\U{2000}' <= c <= '\U{200A}')
    || c == '\U{2028}' || c == '\U{2029}' || c == '\U{202F}' || c == '\U{205F}' || c == '\U{3000}'
  }

  /** Below U+0080 the white space is exactly tab, newline, vertical tab, form feed, carriage return and blank. */
  lemma IsSpaceAscii(c: char)
    requires c < '\U{0080}'
    ensures IsSpace(c) <==> c in "\t\n\U{000B}\U{000C}\r "
  {
  }

  predicate NoSpace(w: string)
  {
    forall i :: 0 <= i < |w| ==> !IsSpace(w[i])
  }

  predicate AllSpace(w: string)
  {
    forall i :: 0 <= i < |w| ==> IsSpace(w[i])
  }

  /** A token `strings.Fields` can produce: non-empty and free of white space. */
  predicate IsField(w: string)
  {
    w != [] && NoSpace(w)
  }

  predicate AllFields(ws: seq<string>)
  {
    forall i :: 0 <= i < |ws| ==> IsField(ws[i])
  }

  /** Length of the run of non-space characters that starts `s`. */
  function WordLength(s: string): (n: nat)
    ensures n <= |s|
    ensures NoSpace(s[..n])
    ensures n < |s| ==> IsSpace(s[n])
  {
    if s == [] || IsSpace(s[0]) then 0 else 1 + WordLength(s[1..])
  }

  /** The tokens of `s`, left to right (Go's `strings.Fields`). */
  function Fields(s: string): seq<string>
    decreases |s|
  {
    if s == [] then []
    else if IsSpace(s[0]) then Fields(s[1..])
    else
      var n := WordLength(s);
      [s[..n]] + Fields(s[n..])
  }

  /** The white-space runs around the tokens of `s`: before the first, between each pair, after the last. */
  function Gaps(s: string): seq<string>
    decreases |s|
  {
    if s == [] then [[]]
    else if IsSpace(s[0]) then
      var g := Gaps(s[1..]);
      [[s[0]] + g[0]] + g[1..]
    else
      [[]] + Gaps(s[WordLength(s)..])
  }

  /** `gaps[0] + words[0] + gaps[1] + ... + words[k-1] + gaps[k]`. */
  function Assemble(gaps: seq<string>, words: seq<string>): string
    requires |gaps| == |words| + 1
  {
    if words == [] then gaps[0] else gaps[0] + words[0] + Assemble(gaps[1..], words[1..])
  }

  lemma AssembleCons(g0: string, w: string, gaps: seq<string>, words: seq<string>)
    requires |gaps| == |words| + 1
    ensures Assemble([g0] + gaps, [w] + words) == g0 + w + Assemble(gaps, words)
  {
    assert ([g0] + gaps)[1..] == gaps;
    assert ([w] + words)[1..] == words;
  }

  /** Gaps that are all white space, with every gap between two tokens non-empty. */
  predicate Separators(gaps: seq<string>, words: seq<string>)
  {
    |gaps| == |words| + 1
    && (forall i :: 0 <= i < |gaps| ==> AllSpace(gaps[i]))
    && (forall i :: 0 < i < |words| ==> gaps[i] != [])
  }

  function Concat(ws: seq<string>): string
  {
    if ws == [] then [] else ws[0] + Concat(ws[1..])
  }

  /** `s` with every white-space character deleted, order kept. */
  function RemoveSpaces(s: string): string
  {
    if s == [] then [] else (if IsSpace(s[0]) then [] else [s[0]]) + RemoveSpaces(s[1..])
  }

  /** `ws` joined with one blank between neighbours (Go's `strings.Join(ws, " ")`). */
  function JoinBlank(ws: seq<string>): string
  {
    if ws == [] then [] else if |ws| == 1 then ws[0] else ws[0] + " " + JoinBlank(ws[1..])
  }

  // ---------------------------------------------------------------------------
  // Shape of the tokens

  lemma {:induction false} FieldsAreFields(s: string)
    ensures AllFields(Fields(s))
    decreases |s|
  {
    if s == [] {
    } else if IsSpace(s[0]) {
      FieldsAreFields(s[1..]);
    } else {
      var n := WordLength(s);
      FieldsAreFields(s[n..]);
    }
  }

  lemma {:induction false} RemoveSpacesSplit(s: string, k: nat)
    requires k <= |s|
    requires NoSpace(s[..k])
    ensures RemoveSpaces(s) == s[..k] + RemoveSpaces(s[k..])
    decreases k
  {
    if k > 0 {
      assert !IsSpace(s[..k][0]);
      assert s[1..][..k - 1] == s[1..k];
      RemoveSpacesSplit(s[1..], k - 1);
      assert s[1..][k - 1..] == s[k..];
      assert s[..k] == [s[0]] + s[1..k];
    }
  }

  /** Concatenating the tokens gives back the input without its white space. */
  lemma {:induction false} FieldsConcat(s: string)
    ensures Concat(Fields(s)) == RemoveSpaces(s)
    decreases |s|
  {
    if s == [] {
    } else if IsSpace(s[0]) {
      FieldsConcat(s[1..]);
    } else {
      var n := WordLength(s);
      FieldsConcat(s[n..]);
      RemoveSpacesSplit(s, n);
      assert Fields(s)[1..] == Fields(s[n..]);
    }
  }

  /** No tokens exactly when the input holds nothing but white space. */
  lemma {:induction false} FieldsEmptyIff(s: string)
    ensures Fields(s) == [] <==> AllSpace(s)
    decreases |s|
  {
    if s != [] {
      FieldsEmptyIff(s[1..]);
      if IsSpace(s[0]) {
        if AllSpace(s[1..]) {
          forall i | 0 <= i < |s| ensures IsSpace(s[i]) {
            if i > 0 { assert s[i] == s[1..][i - 1]; }
          }
        } else {
          var i :| 0 <= i < |s[1..]| && !IsSpace(s[1..][i]);
          assert !IsSpace(s[i + 1]);
        }
      }
    }
  }

  // ---------------------------------------------------------------------------
  // The tokens are exactly the maximal white-space-free runs

  /** What `GapsShape` states of one input. */
  predicate GapsFit(s: string)
  {
    Separators(Gaps(s), Fields(s))
    && Assemble(Gaps(s), Fields(s)) == s
    && (s != [] && !IsSpace(s[0]) ==> Gaps(s)[0] == [])
    && (s != [] && IsSpace(s[0]) ==> Gaps(s)[0] != [])
  }

  lemma GapsStepSpace(s: string)
    requires s != [] && IsSpace(s[0])
    requires GapsFit(s[1..])
    ensures GapsFit(s)
  {
    var t := s[1..];
    var g := Gaps(t);
    assert Gaps(s) == [[s[0]] + g[0]] + g[1..];
    assert Fields(s) == Fields(t);
    SpaceStep(s[0], t, g, Fields(t));
    assert [s[0]] + t == s;
  }

  lemma SpaceStep(c: char, t: string, g: seq<string>, ws: seq<string>)
    requires IsSpace(c)
    requires Separators(g, ws) && Assemble(g, ws) == t
    ensures Separators([[c] + g[0]] + g[1..], ws)
    ensures Assemble([[c] + g[0]] + g[1..], ws) == [c] + t
  {
    var g' := [[c] + g[0]] + g[1..];
    forall i | 0 <= i < |g'| ensures AllSpace(g'[i]) {
      if i == 0 {
        forall j | 0 <= j < |g'[0]| ensures IsSpace(g'[0][j]) {
          if j > 0 { assert g'[0][j] == g[0][j - 1]; }
        }
      } else {
        assert g'[i] == g[i];
      }
    }
    forall i | 0 < i < |ws| ensures g'[i] != [] {
      assert g'[i] == g[i];
    }
    if ws == [] {
      assert Assemble(g', ws) == [c] + g[0];
    } else {
      assert g'[1..] == g[1..];
      assert Assemble(g', ws) == ([c] + g[0]) + ws[0] + Assemble(g[1..], ws[1..]);
      assert Assemble(g, ws) == g[0] + ws[0] + Assemble(g[1..], ws[1..]);
    }
  }

  lemma GapsStepWord(s: string)
    requires s != [] && !IsSpace(s[0])
    requires GapsFit(s[WordLength(s)..])
    ensures GapsFit(s)
  {
    var n := WordLength(s);
    var t := s[n..];
    assert s == s[..n] + t;
    FieldsAreFields(t);
    WordTail(s);
    UnfoldWord(s);
    WordFit(s, s[..n], t, Gaps(s), Fields(s), Gaps(t), Fields(t));
  }

  /** After a leading token the rest is empty or opens with a non-empty gap. */
  lemma WordTail(s: string)
    requires s != [] && !IsSpace(s[0])
    requires GapsFit(s[WordLength(s)..])
    ensures s[WordLength(s)..] != [] ==> Gaps(s[WordLength(s)..])[0] != []
  {
    var t := s[WordLength(s)..];
    assert t != [] ==> IsSpace(t[0]);
  }

  /** `WordStep` restated for the unfolded `Gaps` and `Fields` of an input starting with a token. */
  lemma WordFit(s: string, w: string, t: string, gs: seq<string>, fs: seq<string>, g: seq<string>, ws: seq<string>)
    requires gs == [[]] + g && fs == [w] + ws && s == w + t
    requires Separators(g, ws) && AllFields(ws) && Assemble(g, ws) == t
    requires t != [] ==> g[0] != []
    ensures Separators(gs, fs) && Assemble(gs, fs) == s && gs[0] == []
  {
    WordStep(w, t, g, ws);
  }

  /** One step of `Gaps` and `Fields` over a leading token. */
  lemma UnfoldWord(s: string)
    requires s != [] && !IsSpace(s[0])
    ensures Gaps(s) == [[]] + Gaps(s[WordLength(s)..])
    ensures Fields(s) == [s[..WordLength(s)]] + Fields(s[WordLength(s)..])
  {
  }

  lemma WordStep(w: string, t: string, g: seq<string>, ws: seq<string>)
    requires Separators(g, ws) && AllFields(ws) && Assemble(g, ws) == t
    requires t != [] ==> g[0] != []
    ensures Separators([[]] + g, [w] + ws)
    ensures Assemble([[]] + g, [w] + ws) == w + t
  {
    var g', ws' := [[]] + g, [w] + ws;
    forall i | 0 < i < |ws'| ensures g'[i] != [] {
      assert g'[i] == g[i - 1];
      if i == 1 {
        assert t != [] by {
          assert Assemble(g, ws) == g[0] + ws[0] + Assemble(g[1..], ws[1..]);
          assert IsField(ws[0]);
        }
      }
    }
    forall i | 0 <= i < |g'| ensures AllSpace(g'[i]) {
      if i > 0 { assert g'[i] == g[i - 1]; }
    }
    AssembleCons([], w, g, ws);
  }

  /** Every input is its tokens laid out between white-space gaps, as `Separators` describes. */
  lemma {:induction false} GapsShape(s: string)
    ensures GapsFit(s)
    decreases |s|
  {
    if s == [] {
    } else if IsSpace(s[0]) {
      GapsShape(s[1..]);
      GapsStepSpace(s);
    } else {
      GapsShape(s[WordLength(s)..]);
      GapsStepWord(s);
    }
  }

  lemma {:induction false} NoSpaceAppend(w: string, g: string)
    requires NoSpace(w) && w != []
    requires g != [] ==> IsSpace(g[0])
    ensures WordLength(w + g) == |w|
    decreases |w|
  {
    if |w| > 1 {
      assert (w + g)[1..] == w[1..] + g;
      NoSpaceAppend(w[1..], g);
    } else {
      assert (w + g)[1..] == g;
    }
  }

  lemma {:induction false} FieldsOfSpacePrefix(g: string, t: string)
    requires AllSpace(g)
    ensures Fields(g + t) == Fields(t)
    decreases |g|
  {
    if g != [] {
      assert (g + t)[0] == g[0] && IsSpace(g[0]);
      assert AllSpace(g[1..]) by {
        forall i | 0 <= i < |g[1..]| ensures IsSpace(g[1..][i]) { assert g[1..][i] == g[i + 1]; }
      }
      assert (g + t)[1..] == g[1..] + t;
      FieldsOfSpacePrefix(g[1..], t);
      assert Fields(g + t) == Fields((g + t)[1..]);
    } else {
      assert g + t == t;
    }
  }

  /**
   * Any input laid out as white-space gaps around white-space-free tokens,
   * with a non-empty gap between neighbours, tokenises to exactly those tokens.
   */
  lemma {:induction false} FieldsOfAssemble(gaps: seq<string>, words: seq<string>)
    requires Separators(gaps, words)
    requires AllFields(words)
    ensures Fields(Assemble(gaps, words)) == words
    decreases |words|
  {
    if words == [] {
      FieldsOfSpacePrefix(gaps[0], []);
      assert gaps[0] + [] == gaps[0];
    } else {
      var rest := Assemble(gaps[1..], words[1..]);
      assert Separators(gaps[1..], words[1..]) by {
        forall i | 0 <= i < |gaps[1..]| ensures AllSpace(gaps[1..][i]) {
          assert gaps[1..][i] == gaps[i + 1];
        }
        forall i | 0 < i < |words[1..]| ensures gaps[1..][i] != [] {
          assert gaps[1..][i] == gaps[i + 1];
        }
      }
      assert AllFields(words[1..]) by {
        forall i | 0 <= i < |words[1..]| ensures IsField(words[1..][i]) {
          assert words[1..][i] == words[i + 1];
        }
      }
      FieldsOfAssemble(gaps[1..], words[1..]);
      var w := words[0];
      assert IsField(w);
      assert rest != [] ==> IsSpace(rest[0]) by {
        if |words| > 1 {
          assert gaps[1] != [] && AllSpace(gaps[1]);
          assert rest == gaps[1] + (words[1] + Assemble(gaps[2..], words[2..]));
        } else {
          assert rest == gaps[1];
        }
      }
      var u := w + rest;
      NoSpaceAppend(w, rest);
      assert u[..|w|] == w && u[|w|..] == rest;
      assert Fields(u) == [w] + Fields(rest);
      assert Assemble(gaps, words) == gaps[0] + u;
      FieldsOfSpacePrefix(gaps[0], u);
    }
  }

  /** Round trip: blank-joined tokens tokenise back to the same tokens. */
  lemma {:induction false} FieldsOfJoinBlank(ws: seq<string>)
    requires AllFields(ws)
    ensures Fields(JoinBlank(ws)) == ws
    decreases |ws|
  {
    if |ws| == 1 {
      NoSpaceAppend(ws[0], []);
      assert ws[0] + [] == ws[0];
      assert ws[0][|ws[0]|..] == [];
    } else if |ws| > 1 {
      assert AllFields(ws[1..]) by {
        forall i | 0 <= i < |ws[1..]| ensures IsField(ws[1..][i]) {
          assert ws[1..][i] == ws[i + 1];
        }
      }
      FieldsOfJoinBlank(ws[1..]);
      var rest := " " + JoinBlank(ws[1..]);
      NoSpaceAppend(ws[0], rest);
      var u := ws[0] + rest;
      assert JoinBlank(ws) == u;
      assert u[..|ws[0]|] == ws[0] && u[|ws[0]|..] == rest;
      assert rest[1..] == JoinBlank(ws[1..]);
      assert Fields(rest) == Fields(JoinBlank(ws[1..]));
    }
  }
}
