/** Whitespace normalisation of evidence text: `re.sub(r"\s+", " ", value).strip()`. */
module Text {
  import opened PrefixCode

  const SPACE: CodePoint := 0x20

  /** What Python's `str` patterns and `str.strip` treat as whitespace. */
  predicate IsSpace(c: CodePoint) {
    || 0x09 <= c <= 0x0D || 0x1C <= c <= 0x20 || c == 0x85 || c == 0xA0 || c == 0x1680
    || 0x2000 <= c <= 0x200A || c == 0x2028 || c == 0x2029 || c == 0x202F || c == 0x205F || c == 0x3000
  }

  /** Of the ASCII characters: tab, the four line and page breaks after it, the four separators, and
      the blank. */
  lemma AsciiSpaces(c: CodePoint)
    requires c < 128
    ensures IsSpace(c) <==> c in {9, 10, 11, 12, 13, 28, 29, 30, 31, 32}
  {
  }

  function LeadingSpaces(s: seq<CodePoint>): (n: nat)
    ensures n <= |s| && (n < |s| ==> !IsSpace(s[n]))
  {
    if s == [] || !IsSpace(s[0]) then 0 else 1 + LeadingSpaces(s[1..])
  }

  function LeadingWord(s: seq<CodePoint>): (n: nat)
    ensures n <= |s| && (n < |s| ==> IsSpace(s[n])) && forall i :: 0 <= i < n ==> !IsSpace(s[i])
  {
    if s == [] || IsSpace(s[0]) then 0 else 1 + LeadingWord(s[1..])
  }

  /** The substitution: every run of whitespace becomes one space. */
  function Collapse(s: seq<CodePoint>): seq<CodePoint>
    decreases |s|
  {
    if s == [] then []
    else if IsSpace(s[0]) then [SPACE] + Collapse(s[LeadingSpaces(s)..])
    else [s[0]] + Collapse(s[1..])
  }

  function StripLeft(s: seq<CodePoint>): seq<CodePoint> { s[LeadingSpaces(s)..] }

  function StripRight(s: seq<CodePoint>): seq<CodePoint> {
    if s == [] || !IsSpace(s[|s| - 1]) then s else StripRight(s[..|s| - 1])
  }

  /** `_normalized`. */
  function Normalize(s: seq<CodePoint>): seq<CodePoint> { StripRight(StripLeft(Collapse(s))) }

  /** The maximal runs of characters that are not whitespace, in order. */
  function Words(s: seq<CodePoint>): seq<seq<CodePoint>>
    decreases |s|
  {
    if s == [] then []
    else if IsSpace(s[0]) then Words(s[1..])
    else
      var n := LeadingWord(s);
      [s[..n]] + Words(s[n..])
  }

  function Join(ws: seq<seq<CodePoint>>): seq<CodePoint> {
    if |ws| == 0 then [] else if |ws| == 1 then ws[0] else ws[0] + [0x20] + Join(ws[1..])
  }

  predicate IsWord(w: seq<CodePoint>) { w != [] && forall i :: 0 <= i < |w| ==> !IsSpace(w[i]) }

  predicate AreWords(ws: seq<seq<CodePoint>>) { forall i :: 0 <= i < |ws| ==> IsWord(ws[i]) }

  lemma {:induction false} WordsAreWords(s: seq<CodePoint>)
    ensures AreWords(Words(s))
    decreases |s|
  {
    if s != [] {
      if IsSpace(s[0]) {
        WordsAreWords(s[1..]);
      } else {
        WordsAreWords(s[LeadingWord(s)..]);
      }
    }
  }

  lemma {:induction false} SkipSpaces(s: seq<CodePoint>)
    ensures Words(s) == Words(s[LeadingSpaces(s)..])
  {
    if s != [] && IsSpace(s[0]) {
      SkipSpaces(s[1..]);
      assert s[LeadingSpaces(s)..] == s[1..][LeadingSpaces(s[1..])..];
    }
  }

  /** Reading back a text that starts with a word. */
  lemma WordsOfWordThen(w: seq<CodePoint>, rest: seq<CodePoint>)
    requires IsWord(w) && (rest == [] || IsSpace(rest[0]))
    ensures Words(w + rest) == [w] + Words(rest)
  {
    var s := w + rest;
    assert s[|w|..] == rest && s[..|w|] == w;
    assert forall i :: 0 <= i < |w| ==> s[i] == w[i];
    assert rest != [] ==> s[|w|] == rest[0];
    assert LeadingWord(s) == |w|;
  }

  lemma {:induction false} WordsOfJoin(ws: seq<seq<CodePoint>>)
    requires AreWords(ws)
    ensures Words(Join(ws)) == ws
  {
    if |ws| == 1 {
      WordsOfWordThen(ws[0], []);
      assert ws[0] + [] == ws[0];
    } else if |ws| > 1 {
      var rest := [SPACE] + Join(ws[1..]);
      WordsOfWordThen(ws[0], rest);
      assert Join(ws) == ws[0] + rest;
      assert rest[1..] == Join(ws[1..]);
      WordsOfJoin(ws[1..]);
    }
  }

  lemma {:induction false} CollapseWord(w: seq<CodePoint>, rest: seq<CodePoint>)
    requires forall i :: 0 <= i < |w| ==> !IsSpace(w[i])
    ensures Collapse(w + rest) == w + Collapse(rest)
  {
    if w == [] {
      assert w + rest == rest;
    } else {
      assert (w + rest)[1..] == w[1..] + rest;
      CollapseWord(w[1..], rest);
    }
  }

  function Trailing(s: seq<CodePoint>): seq<CodePoint> {
    if s != [] && IsSpace(s[|s| - 1]) then [SPACE] else []
  }

  lemma TrailingOfSuffix(s: seq<CodePoint>, n: nat)
    requires n < |s|
    ensures Trailing(s) == Trailing(s[n..])
  {
    assert s[n..][|s| - n - 1] == s[|s| - 1];
  }

  lemma JoinCons(w: seq<CodePoint>, ws: seq<seq<CodePoint>>, tail: seq<CodePoint>)
    requires ws != []
    ensures Join([w] + ws) + tail == w + ([SPACE] + (Join(ws) + tail))
  {
    assert ([w] + ws)[1..] == ws;
  }

  /** A text that does not start with whitespace collapses to its words, one space apart,
      and one more space if it ends with whitespace. */
  lemma {:induction false} CollapseJoinsWords(s: seq<CodePoint>)
    requires s == [] || !IsSpace(s[0])
    ensures Collapse(s) == Join(Words(s)) + Trailing(s)
    decreases |s|
  {
    if s != [] {
      var n := LeadingWord(s);
      var w, u := s[..n], s[n..];
      assert s == w + u;
      CollapseWord(w, u);
      if u == [] {
        assert !IsSpace(s[n - 1]);
        assert Words(u) == [] && Collapse(u) == [];
      } else {
        CollapseAfterWord(w, u);
        TrailingOfSuffix(s, n);
      }
    }
  }

  lemma {:induction false} CollapseAfterWord(w: seq<CodePoint>, u: seq<CodePoint>)
    requires u != [] && IsSpace(u[0])
    ensures w + Collapse(u) == Join([w] + Words(u)) + Trailing(u)
    decreases |u|, 0
  {
    var v := u[LeadingSpaces(u)..];
    SkipSpaces(u);
    assert Collapse(u) == [SPACE] + Collapse(v);
    CollapseJoinsWords(v);
    if v == [] {
      AllSpaces(u);
      assert Join([w]) == w;
    } else {
      TrailingOfSuffix(u, LeadingSpaces(u));
      assert Words(v) != [];
      JoinCons(w, Words(v), Trailing(v));
    }
  }

  lemma {:induction false} AllSpaces(u: seq<CodePoint>)
    requires LeadingSpaces(u) == |u|
    ensures forall i :: 0 <= i < |u| ==> IsSpace(u[i])
  {
    if u != [] {
      AllSpaces(u[1..]);
    }
  }

  lemma {:induction false} JoinEnds(ws: seq<seq<CodePoint>>)
    requires AreWords(ws) && ws != []
    ensures Join(ws) != [] && !IsSpace(Join(ws)[0]) && !IsSpace(Join(ws)[|Join(ws)| - 1])
  {
    if |ws| > 1 {
      JoinEnds(ws[1..]);
    }
  }

  lemma StripLeftOf(c: seq<CodePoint>)
    requires c == [] || !IsSpace(c[0])
    ensures StripLeft(c) == c && StripLeft([SPACE] + c) == c
  {
    assert ([SPACE] + c)[1..] == c;
  }

  lemma StripLeftOfCollapse(s: seq<CodePoint>)
    ensures StripLeft(Collapse(s)) == Collapse(s[LeadingSpaces(s)..])
  {
    if s == [] || !IsSpace(s[0]) {
      StripLeftOf(Collapse(s));
    } else {
      StripLeftOf(Collapse(s[LeadingSpaces(s)..]));
    }
  }

  lemma StripRightOf(j: seq<CodePoint>, tail: seq<CodePoint>)
    requires j == [] || !IsSpace(j[|j| - 1])
    requires tail == [] || tail == [SPACE]
    ensures StripRight(j + tail) == j
  {
    if tail == [] {
      assert j + tail == j;
    } else {
      assert (j + tail)[..|j|] == j;
    }
  }

  lemma StrippedCollapse(s: seq<CodePoint>)
    ensures StripLeft(Collapse(s)) == Join(Words(s)) + Trailing(s[LeadingSpaces(s)..])
  {
    SkipSpaces(s);
    StripLeftOfCollapse(s);
    CollapseJoinsWords(s[LeadingSpaces(s)..]);
  }

  lemma JoinEndsInWord(ws: seq<seq<CodePoint>>)
    requires AreWords(ws)
    ensures Join(ws) == [] || !IsSpace(Join(ws)[|Join(ws)| - 1])
  {
    if ws != [] {
      JoinEnds(ws);
    }
  }

  /** Normalising keeps the words and nothing else: one space between neighbours. */
  lemma NormalizeJoinsWords(s: seq<CodePoint>)
    ensures Normalize(s) == Join(Words(s))
  {
    StrippedCollapse(s);
    WordsAreWords(s);
    JoinEndsInWord(Words(s));
    StripRightOf(Join(Words(s)), Trailing(s[LeadingSpaces(s)..]));
  }

  /** Normalising twice is normalising once, so the digest of stored text is stable. */
  lemma NormalizeIdempotent(s: seq<CodePoint>)
    ensures Normalize(Normalize(s)) == Normalize(s)
  {
    NormalizeJoinsWords(s);
    NormalizeJoinsWords(Normalize(s));
    WordsAreWords(s);
    WordsOfJoin(Words(s));
  }

  /** Two texts normalise alike exactly when they have the same words: this is what
      deduplication takes as "the same content". */
  lemma SameNormalFormIffSameWords(s: seq<CodePoint>, t: seq<CodePoint>)
    ensures Normalize(s) == Normalize(t) <==> Words(s) == Words(t)
  {
    NormalizeJoinsWords(s);
    NormalizeJoinsWords(t);
    WordsAreWords(s);
    WordsAreWords(t);
    WordsOfJoin(Words(s));
    WordsOfJoin(Words(t));
  }
}
