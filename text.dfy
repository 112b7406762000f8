/**
 * Name clean-up (apps/web/lib/text.ts): `sanitizeName` trims and collapses
 * every run of whitespace to one space; `normalizeName` also folds accents
 * and case, for comparing names.
 */
module Text {
  import opened JsString

  /** `s.replace(/\s+/g, " ")`: every maximal run of whitespace becomes one space. */
  function CollapseSpaces(s: string): (r: string)
    decreases |s|
  {
    if s == [] then []
    else if IsSpace(s[0]) then [' '] + CollapseSpaces(TrimStart(s))
    else [s[0]] + CollapseSpaces(s[1..])
  }

  /** Every whitespace character is a plain space, and no two are adjacent. */
  predicate Collapsed(s: string) {
    forall i | 0 <= i < |s| :: IsSpace(s[i]) ==> s[i] == ' ' && (i + 1 < |s| ==> !IsSpace(s[i + 1]))
  }

  /** The text with all whitespace removed: what a name says, apart from its spacing. */
  function Letters(s: string): (r: string)
    ensures NoSpace(r)
  {
    if s == [] then []
    else if IsSpace(s[0]) then Letters(s[1..])
    else [s[0]] + Letters(s[1..])
  }

  /** `sanitizeName`: `input.trim().replace(/\s+/g, " ")`. */
  function SanitizeName(input: string): string {
    CollapseSpaces(Trim(input))
  }

  /** The Unicode combining diacritical marks, U+0300 to U+036F. */
  predicate IsCombiningMark(c: char) {
    0x300 <= c as int <= 0x36F
  }

  function StripMarks(s: string): (r: string)
    ensures forall i | 0 <= i < |r| :: !IsCombiningMark(r[i])
  {
    if s == [] then []
    else if IsCombiningMark(s[0]) then StripMarks(s[1..])
    else [s[0]] + StripMarks(s[1..])
  }

  /**
   * `normalizeName`: sanitize, decompose (NFKD, given as `nfkd`), drop the
   * combining marks and lower-case.
   */
  function NormalizeName(input: string, nfkd: string -> string): string {
    ToLower(StripMarks(nfkd(SanitizeName(input))))
  }

  // ---------------------------------------------------------------------------
  // Properties of CollapseSpaces

  lemma {:induction false} CollapseEdges(s: string)
    ensures |CollapseSpaces(s)| == 0 <==> s == []
    ensures s != [] && !IsSpace(s[0]) ==> CollapseSpaces(s)[0] == s[0]
    ensures s != [] && !IsSpace(s[|s| - 1]) ==>
      CollapseSpaces(s)[|CollapseSpaces(s)| - 1] == s[|s| - 1]
    decreases |s|
  {
    if s == [] {
    } else if IsSpace(s[0]) {
      var t := TrimStart(s);
      CollapseEdges(t);
      if !IsSpace(s[|s| - 1]) {
        assert t != [] && t[|t| - 1] == s[|s| - 1];
      }
    } else {
      CollapseEdges(s[1..]);
    }
  }

  lemma {:induction false} CollapseIsCollapsed(s: string)
    ensures Collapsed(CollapseSpaces(s))
    decreases |s|
  {
    if s == [] {
    } else if IsSpace(s[0]) {
      var t := TrimStart(s);
      CollapseIsCollapsed(t);
      CollapseEdges(t);
      var r := CollapseSpaces(s);
      assert r == [' '] + CollapseSpaces(t);
      forall i | 0 <= i < |r| && IsSpace(r[i])
        ensures r[i] == ' ' && (i + 1 < |r| ==> !IsSpace(r[i + 1]))
      {
        if i > 0 {
          assert r[i] == CollapseSpaces(t)[i - 1];
          if i + 1 < |r| { assert r[i + 1] == CollapseSpaces(t)[i]; }
        }
      }
    } else {
      CollapseIsCollapsed(s[1..]);
      var r := CollapseSpaces(s);
      assert r == [s[0]] + CollapseSpaces(s[1..]);
      forall i | 0 <= i < |r| && IsSpace(r[i])
        ensures r[i] == ' ' && (i + 1 < |r| ==> !IsSpace(r[i + 1]))
      {
        assert i > 0;
        assert r[i] == CollapseSpaces(s[1..])[i - 1];
        if i + 1 < |r| { assert r[i + 1] == CollapseSpaces(s[1..])[i]; }
      }
    }
  }

  lemma CollapsedTail(s: string)
    requires Collapsed(s) && s != []
    ensures Collapsed(s[1..])
  {
    var t := s[1..];
    forall i | 0 <= i < |t| && IsSpace(t[i])
      ensures t[i] == ' ' && (i + 1 < |t| ==> !IsSpace(t[i + 1]))
    {
      assert t[i] == s[i + 1];
      if i + 1 < |t| { assert t[i + 1] == s[i + 2]; }
    }
  }

  /** Text that is already collapsed is left as it is. */
  lemma {:induction false} CollapseFixesCollapsed(s: string)
    requires Collapsed(s)
    ensures CollapseSpaces(s) == s
    decreases |s|
  {
    if s != [] {
      CollapsedTail(s);
      CollapseFixesCollapsed(s[1..]);
      if IsSpace(s[0]) {
        assert s[0] == ' ';
        assert |s| > 1 ==> !IsSpace(s[1]);
        assert TrimStart(s) == TrimStart(s[1..]);
        assert TrimStart(s[1..]) == s[1..];
      }
    }
  }

  /** Text that has no whitespace is left as it is. */
  lemma CollapseNoSpace(s: string)
    requires NoSpace(s)
    ensures CollapseSpaces(s) == s
  {
    CollapseFixesCollapsed(s);
  }

  /** A run of whitespace on its own becomes a single space. */
  lemma CollapseOfSpaces(w: string)
    requires w != [] && forall i | 0 <= i < |w| :: IsSpace(w[i])
    ensures CollapseSpaces(w) == " "
  {
    AllSpaceTrimStart(w);
  }

  lemma CollapseSpaceHead(s: string)
    requires s != [] && IsSpace(s[0])
    ensures CollapseSpaces(s) == [' '] + CollapseSpaces(TrimStart(s))
  {
  }

  lemma CollapseWordHead(s: string)
    requires s != [] && !IsSpace(s[0])
    ensures CollapseSpaces(s) == [s[0]] + CollapseSpaces(s[1..])
  {
  }

  /** Text that is empty or ends in a non-space character collapses apart from what follows it. */
  lemma {:induction false} CollapseAppendAfterWord(a: string, b: string)
    requires a == [] || !IsSpace(a[|a| - 1])
    ensures CollapseSpaces(a + b) == CollapseSpaces(a) + CollapseSpaces(b)
    decreases |a|
  {
    if a == [] {
      assert a + b == b;
    } else {
      var ab := a + b;
      AppendHead(a, b);
      if IsSpace(a[0]) {
        var t := TrimStart(a);
        assert t != [];
        assert t[|t| - 1] == a[|a| - 1];
        TrimStartAppend(a, b);
        CollapseAppendAfterWord(t, b);
        CollapseSpaceHead(ab);
        CollapseSpaceHead(a);
        JoinAssoc([' '], CollapseSpaces(t), CollapseSpaces(b));
      } else {
        CollapseAppendAfterWord(a[1..], b);
        CollapseWordHead(ab);
        CollapseWordHead(a);
        JoinAssoc([a[0]], CollapseSpaces(a[1..]), CollapseSpaces(b));
      }
    }
  }

  /** Text collapses apart from what follows it when that is empty or starts with a non-space character. */
  lemma {:induction false} CollapseAppendBeforeWord(a: string, b: string)
    requires b == [] || !IsSpace(b[0])
    ensures CollapseSpaces(a + b) == CollapseSpaces(a) + CollapseSpaces(b)
    decreases |a|
  {
    if a == [] {
      assert a + b == b;
    } else if b == [] {
      assert a + b == a;
    } else {
      var ab := a + b;
      AppendHead(a, b);
      if IsSpace(a[0]) {
        var t := TrimStart(a);
        CollapseSpaceHead(ab);
        CollapseSpaceHead(a);
        if t == [] {
          TrimStartPrefix(a, b);
          assert CollapseSpaces(t) == [];
        } else {
          TrimStartAppend(a, b);
          CollapseAppendBeforeWord(t, b);
          JoinAssoc([' '], CollapseSpaces(t), CollapseSpaces(b));
        }
      } else {
        CollapseAppendBeforeWord(a[1..], b);
        CollapseWordHead(ab);
        CollapseWordHead(a);
        JoinAssoc([a[0]], CollapseSpaces(a[1..]), CollapseSpaces(b));
      }
    }
  }

  /** A maximal whitespace run, whatever its length and characters, becomes exactly one space. */
  lemma CollapseRun(a: string, w: string, b: string)
    requires a == [] || !IsSpace(a[|a| - 1])
    requires w != [] && forall i | 0 <= i < |w| :: IsSpace(w[i])
    requires b == [] || !IsSpace(b[0])
    ensures CollapseSpaces(a + w + b) == CollapseSpaces(a) + " " + CollapseSpaces(b)
  {
    var wb := w + b;
    JoinAssoc(a, w, b);
    CollapseAppendAfterWord(a, wb);
    CollapseAppendBeforeWord(w, b);
    CollapseOfSpaces(w);
    JoinAssoc(CollapseSpaces(a), " ", CollapseSpaces(b));
  }

  lemma {:induction false} LettersAppend(a: string, b: string)
    ensures Letters(a + b) == Letters(a) + Letters(b)
  {
    if a != [] {
      assert (a + b)[0] == a[0];
      assert (a + b)[1..] == a[1..] + b;
      LettersAppend(a[1..], b);
    } else {
      assert a + b == b;
    }
  }

  lemma {:induction false} LettersOfSpaces(s: string)
    requires forall i | 0 <= i < |s| :: IsSpace(s[i])
    ensures Letters(s) == []
  {
    if s != [] { LettersOfSpaces(s[1..]); }
  }

  lemma {:induction false} CollapseKeepsLetters(s: string)
    ensures Letters(CollapseSpaces(s)) == Letters(s)
    decreases |s|
  {
    if s == [] {
    } else if IsSpace(s[0]) {
      var t := TrimStart(s);
      CollapseKeepsLetters(t);
      var p := s[..|s| - |t|];
      SpacePrefixSplit(s, p, t);
      LettersAppend(p, t);
      LettersOfSpaces(p);
      LettersAppend([' '], CollapseSpaces(t));
    } else {
      CollapseKeepsLetters(s[1..]);
      LettersAppend([s[0]], CollapseSpaces(s[1..]));
    }
  }

  lemma {:induction false} TrimStartKeepsLetters(s: string)
    ensures Letters(TrimStart(s)) == Letters(s)
  {
    if s != [] && IsSpace(s[0]) { TrimStartKeepsLetters(s[1..]); }
  }

  lemma {:induction false} TrimEndKeepsLetters(s: string)
    ensures Letters(TrimEnd(s)) == Letters(s)
  {
    if s != [] && IsSpace(s[|s| - 1]) {
      var p := s[..|s| - 1];
      TrimEndKeepsLetters(p);
      assert s == p + [s[|s| - 1]];
      LettersAppend(p, [s[|s| - 1]]);
    }
  }

  lemma {:induction false} AllSpacesTrimEmpty(s: string)
    ensures Trim(s) == [] <==> forall i | 0 <= i < |s| :: IsSpace(s[i])
  {
    var t := TrimStart(s);
    if forall i | 0 <= i < |s| :: IsSpace(s[i]) {
      assert t == [];
    }
  }

  // ---------------------------------------------------------------------------
  // Properties of sanitizeName

  /** The result has no leading or trailing whitespace. */
  lemma SanitizeNameEdges(input: string)
    ensures var r := SanitizeName(input);
      r == [] || (!IsSpace(r[0]) && !IsSpace(r[|r| - 1]))
  {
    CollapseEdges(Trim(input));
  }

  /** Every whitespace run inside the name became exactly one space. */
  lemma SanitizeNameCollapsed(input: string)
    ensures Collapsed(SanitizeName(input))
  {
    CollapseIsCollapsed(Trim(input));
  }

  /** Between two words of the name, each whitespace run becomes exactly one space. */
  lemma SanitizeNameRun(a: string, w: string, b: string)
    requires a != [] && !IsSpace(a[0]) && !IsSpace(a[|a| - 1])
    requires w != [] && forall i | 0 <= i < |w| :: IsSpace(w[i])
    requires b != [] && !IsSpace(b[0]) && !IsSpace(b[|b| - 1])
    ensures SanitizeName(a + w + b) == SanitizeName(a) + " " + SanitizeName(b)
  {
    var s := a + w + b;
    assert s[0] == a[0] && s[|s| - 1] == b[|b| - 1];
    CollapseRun(a, w, b);
  }

  /** Whitespace around the name is dropped, whatever the name. */
  lemma SanitizeNameTrims(before: string, s: string, after: string)
    requires forall i | 0 <= i < |before| :: IsSpace(before[i])
    requires forall i | 0 <= i < |after| :: IsSpace(after[i])
    ensures SanitizeName(before + s + after) == SanitizeName(s)
  {
    assert before + s + after == before + (s + after);
    TrimStartAfterSpaces(before, s + after);
    var t := TrimStart(s);
    if t == [] {
      TrimStartAfterSpaces(s, after);
      AllSpaceTrimStart(after);
    } else {
      TrimStartAppend(s, after);
      TrimEndBeforeSpaces(t, after);
    }
  }

  /** A single word is its own sanitized name. */
  lemma SanitizeNameOfWord(s: string)
    requires NoSpace(s)
    ensures SanitizeName(s) == s
  {
    CollapseNoSpace(s);
  }

  /** Two words with whitespace around and between them give the words joined by one space. */
  lemma SanitizeNameTwoWords(before: string, a: string, w: string, b: string, after: string)
    requires forall i | 0 <= i < |before| :: IsSpace(before[i])
    requires a != [] && NoSpace(a)
    requires w != [] && forall i | 0 <= i < |w| :: IsSpace(w[i])
    requires b != [] && NoSpace(b)
    requires forall i | 0 <= i < |after| :: IsSpace(after[i])
    ensures SanitizeName(before + a + w + b + after) == a + " " + b
  {
    assert before + a + w + b + after == before + (a + w + b) + after;
    SanitizeNameTrims(before, a + w + b, after);
    SanitizeNameRun(a, w, b);
    SanitizeNameOfWord(a);
    SanitizeNameOfWord(b);
  }

  /** `sanitizeName("  Novo   Projeto  ")` is `"Novo Projeto"`. */
  lemma SanitizeNameExample(input: string)
    requires input == "  Novo   Projeto  "
    ensures SanitizeName(input) == "Novo Projeto"
  {
    var edge, a, w, b := "  ", "Novo", "   ", "Projeto";
    assert input == edge + a + w + b + edge;
    SanitizeNameTwoWords(edge, a, w, b, edge);
    JoinedExample();
  }

  lemma JoinedExample()
    ensures "Novo" + " " + "Projeto" == "Novo Projeto"
  {
  }

  /** Only whitespace is removed: the other characters survive, in order. */
  lemma SanitizeNameKeepsLetters(input: string)
    ensures Letters(SanitizeName(input)) == Letters(input)
  {
    CollapseKeepsLetters(Trim(input));
    TrimStartKeepsLetters(input);
    TrimEndKeepsLetters(TrimStart(input));
  }

  /** The result is empty exactly when the input is empty or all whitespace. */
  lemma SanitizeNameEmpty(input: string)
    ensures SanitizeName(input) == [] <==> forall i | 0 <= i < |input| :: IsSpace(input[i])
  {
    var t := Trim(input);
    assert SanitizeName(input) == CollapseSpaces(t);
    CollapseEdges(t);
    AllSpacesTrimEmpty(input);
  }

  /** Sanitizing twice is the same as sanitizing once. */
  lemma SanitizeNameIdempotent(input: string)
    ensures SanitizeName(SanitizeName(input)) == SanitizeName(input)
  {
    var r := SanitizeName(input);
    SanitizeNameEdges(input);
    SanitizeNameCollapsed(input);
    assert Trim(r) == r;
    CollapseFixesCollapsed(r);
  }

  /** The normalized name holds no combining mark and no upper-case ASCII letter. */
  lemma NormalizeNameShape(input: string, nfkd: string -> string)
    ensures var r := NormalizeName(input, nfkd);
      forall i | 0 <= i < |r| :: !IsCombiningMark(r[i]) && !('A' <= r[i] <= 'Z')
  {
    var stripped := StripMarks(nfkd(SanitizeName(input)));
    var r := ToLower(stripped);
    forall i | 0 <= i < |r| ensures !IsCombiningMark(r[i]) && !('A' <= r[i] <= 'Z') {
      assert r[i] == LowerChar(stripped[i]);
      assert !IsCombiningMark(stripped[i]);
    }
  }

  /**
   * `normalizeName("  São   João  ")` is `"sao joao"`, given that NFKD
   * decomposes each "ã" into "a" and the combining tilde U+0303.
   */
  lemma NormalizeNameExample(input: string, nfkd: string -> string)
    requires input == "  S\U{e3}o   Jo\U{e3}o  "
    requires nfkd("S\U{e3}o Jo\U{e3}o") == "Sa\U{303}o Joa\U{303}o"
    ensures NormalizeName(input, nfkd) == "sao joao"
  {
    var edge, a, w, b := "  ", "S\U{e3}o", "   ", "Jo\U{e3}o";
    assert input == edge + a + w + b + edge;
    SanitizeNameTwoWords(edge, a, w, b, edge);
    AccentedJoin();
    StripTildes(nfkd(SanitizeName(input)));
    LowerExample();
  }

  lemma AccentedJoin()
    ensures "S\U{e3}o" + " " + "Jo\U{e3}o" == "S\U{e3}o Jo\U{e3}o"
  {
  }

  lemma StripTildes(s: string)
    requires s == "Sa\U{303}o Joa\U{303}o"
    ensures StripMarks(s) == "Sao Joao"
  {
    assert s == "Sa" + ['\U{303}'] + "o " + ("Joa" + ['\U{303}'] + "o");
    StripTwoMarked("Sa", "o ", "Joa", "o", '\U{303}');
    TildesJoin();
  }

  lemma TildesJoin()
    ensures "Sa" + "o " + ("Joa" + "o") == "Sao Joao"
  {
  }

  /** Two words, each with one combining mark inside, lose exactly their marks. */
  lemma StripTwoMarked(a1: string, b1: string, a2: string, b2: string, m: char)
    requires forall i | 0 <= i < |a1| :: !IsCombiningMark(a1[i])
    requires forall i | 0 <= i < |b1| :: !IsCombiningMark(b1[i])
    requires forall i | 0 <= i < |a2| :: !IsCombiningMark(a2[i])
    requires forall i | 0 <= i < |b2| :: !IsCombiningMark(b2[i])
    requires IsCombiningMark(m)
    ensures StripMarks(a1 + [m] + b1 + (a2 + [m] + b2)) == a1 + b1 + (a2 + b2)
  {
    var x, y := a1 + [m] + b1, a2 + [m] + b2;
    StripWordMark(a1, m, b1);
    StripWordMark(a2, m, b2);
    StripMarksAppend(x, y);
  }

  /** A combining mark between two unmarked texts is dropped. */
  lemma StripWordMark(a: string, m: char, b: string)
    requires forall i | 0 <= i < |a| :: !IsCombiningMark(a[i])
    requires IsCombiningMark(m)
    requires forall i | 0 <= i < |b| :: !IsCombiningMark(b[i])
    ensures StripMarks(a + [m] + b) == a + b
  {
    var mb := [m] + b;
    JoinAssoc(a, [m], b);
    StripMarksAppend(a, mb);
    assert mb[0] == m && mb[1..] == b;
    StripMarksNone(a);
    StripMarksNone(b);
  }

  /** Marks are dropped from each part of a text independently. */
  lemma {:induction false} StripMarksAppend(a: string, b: string)
    ensures StripMarks(a + b) == StripMarks(a) + StripMarks(b)
  {
    if a == [] {
      assert a + b == b;
    } else {
      AppendHead(a, b);
      StripMarksAppend(a[1..], b);
      if !IsCombiningMark(a[0]) {
        JoinAssoc([a[0]], StripMarks(a[1..]), StripMarks(b));
      }
    }
  }

  /** Text without combining marks is left as it is. */
  lemma {:induction false} StripMarksNone(s: string)
    requires forall i | 0 <= i < |s| :: !IsCombiningMark(s[i])
    ensures StripMarks(s) == s
  {
    if s != [] {
      StripMarksNone(s[1..]);
    }
  }

  lemma LowerExample()
    ensures ToLower("Sao Joao") == "sao joao"
  {
  }

  /** `normalizeName` depends on its input only through `sanitizeName`. */
  lemma NormalizeNameOfSanitized(input: string, nfkd: string -> string)
    ensures NormalizeName(SanitizeName(input), nfkd) == NormalizeName(input, nfkd)
  {
    SanitizeNameIdempotent(input);
  }
}
