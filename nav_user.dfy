/**
 * The user's avatar in the sidebar (apps/web/components/sidebar/nav-user.tsx):
 * the initials shown in place of a picture, and the fallbacks for a missing
 * name or a blank picture address. Upper-casing covers ASCII letters only.
 */
module NavUser {
  import opened Wrappers
  import opened JsString

  /** `s.split(/\s+/)`: the pieces between maximal runs of whitespace. */
  function SplitWs(s: string): (parts: seq<string>)
    ensures |parts| >= 1
    decreases |s|
  {
    if s == [] then [""]
    else if IsSpace(s[0]) then [""] + SplitWs(TrimStart(s))
    else
      var rest := SplitWs(s[1..]);
      [[s[0]] + rest[0]] + rest[1..]
  }

  /** `.filter(Boolean)` on strings: the non-empty ones. */
  function NonEmpty(parts: seq<string>): (r: seq<string>)
    ensures forall i | 0 <= i < |r| :: r[i] != ""
  {
    if parts == [] then []
    else if parts[0] == "" then NonEmpty(parts[1..])
    else [parts[0]] + NonEmpty(parts[1..])
  }

  /** `parts.slice(0, 2).map((p) => p[0]?.toUpperCase()).filter(Boolean).join("")`, for non-empty parts. */
  function FirstLetters(parts: seq<string>): string
    requires forall i | 0 <= i < |parts| :: parts[i] != ""
  {
    if |parts| == 0 then ""
    else if |parts| == 1 then [UpperChar(parts[0][0])]
    else [UpperChar(parts[0][0]), UpperChar(parts[1][0])]
  }

  /** `getInitials(name)`, where `None` stands for `null` and `undefined`. */
  function GetInitials(name: Option<string>): string {
    var cleaned := Trim(name.GetOr(""));
    if cleaned == "" then "U"
    else
      var letters := FirstLetters(NonEmpty(SplitWs(cleaned)));
      if letters == "" then "U" else letters
  }

  /** `user.name ?? "Usuário"`. */
  function DisplayName(name: Option<string>): string {
    name.GetOr("Usuário")
  }

  /** `user.avatar?.trim() ? user.avatar : undefined`. */
  function AvatarSrc(avatar: Option<string>): Option<string> {
    if avatar.Some? && Trim(avatar.value) != "" then avatar else None
  }

  // ---------------------------------------------------------------------------
  // Lemmas

  /** A missing, empty or blank name gives "U". */
  lemma InitialsFallback(name: Option<string>)
    requires name.None? || Trim(name.value) == ""
    ensures GetInitials(name) == "U"
  {
  }

  /** A one-word name gives its upper-cased first letter. */
  lemma OneWordInitial(w: string)
    requires w != "" && NoSpace(w)
    ensures GetInitials(Some(w)) == [UpperChar(w[0])]
  {
    SplitWsWord(w, "");
    assert w + "" == w;
    NonEmptyKeeps(w, []);
  }

  /**
   * A name made of a word, whitespace, a second word and anything after a
   * further space gives the upper-cased first letters of the two words: the
   * words after the second are ignored.
   */
  lemma TwoWordInitials(w1: string, sep: string, w2: string, rest: string)
    requires w1 != "" && NoSpace(w1) && w2 != "" && NoSpace(w2)
    requires sep != "" && forall i | 0 <= i < |sep| :: IsSpace(sep[i])
    requires rest == "" || IsSpace(rest[0])
    ensures GetInitials(Some(w1 + sep + w2 + rest)) == [UpperChar(w1[0]), UpperChar(w2[0])]
  {
    TrimmedName(w1, sep, w2, rest);
    WordsOf(w1, sep, w2, TrimEnd(rest));
  }

  /** The pieces of `w1 sep w2 tail` begin with the two words. */
  lemma WordsOf(w1: string, sep: string, w2: string, tail: string)
    requires w1 != "" && NoSpace(w1) && w2 != "" && NoSpace(w2)
    requires sep != "" && forall i | 0 <= i < |sep| :: IsSpace(sep[i])
    requires tail == "" || IsSpace(tail[0])
    ensures FirstLetters(NonEmpty(SplitWs(w1 + (sep + (w2 + tail))))) == [UpperChar(w1[0]), UpperChar(w2[0])]
  {
    SplitWsWord(w2, tail);
    assert (w2 + tail)[0] == w2[0];
    SpacesThenWord(sep, w2 + tail);
    assert (sep + (w2 + tail))[0] == sep[0];
    SplitWsWord(w1, sep + (w2 + tail));
    var later := SplitWs(tail)[1..];
    assert SplitWs(w1 + (sep + (w2 + tail))) == [w1] + ([w2] + later);
    NonEmptyKeeps(w1, [w2] + later);
    NonEmptyKeeps(w2, later);
  }

  /** The name as `trim` leaves it. */
  lemma TrimmedName(w1: string, sep: string, w2: string, rest: string)
    requires w1 != "" && NoSpace(w1) && w2 != "" && NoSpace(w2)
    requires rest == "" || IsSpace(rest[0])
    ensures Trim(w1 + sep + w2 + rest) == w1 + (sep + (w2 + TrimEnd(rest)))
    ensures TrimEnd(rest) == "" || IsSpace(TrimEnd(rest)[0])
  {
    var head := w1 + sep + w2;
    assert head[0] == w1[0] && head[|head| - 1] == w2[|w2| - 1];
    TrimAroundWord(head, rest);
    Regroup(w1, sep, w2, TrimEnd(rest));
  }

  /** Text that begins and ends with non-space characters keeps them under `trim`. */
  lemma TrimAroundWord(head: string, rest: string)
    requires head != "" && !IsSpace(head[0]) && !IsSpace(head[|head| - 1])
    ensures Trim(head + rest) == head + TrimEnd(rest)
  {
    assert (head + rest)[0] == head[0];
    TrimEndSuffix(head, rest);
  }

  lemma Regroup(a: string, b: string, c: string, d: string)
    ensures a + b + c + d == a + (b + (c + d))
  {
  }

  /** A word followed by nothing or by whitespace is the first piece. */
  lemma {:induction false} SplitWsWord(w: string, t: string)
    requires w != "" && NoSpace(w)
    requires t == "" || IsSpace(t[0])
    ensures SplitWs(w + t) == [w] + SplitWs(t)[1..]
    ensures SplitWs(t)[0] == ""
  {
    assert (w + t)[0] == w[0];
    if |w| == 1 {
      assert (w + t)[1..] == t;
      assert [w[0]] + "" == w;
    } else {
      SplitWsWord(w[1..], t);
      assert (w + t)[1..] == w[1..] + t;
      assert [w[0]] + w[1..] == w;
    }
  }

  /** Whitespace followed by a word contributes one empty piece. */
  lemma SpacesThenWord(sep: string, t: string)
    requires sep != "" && forall i | 0 <= i < |sep| :: IsSpace(sep[i])
    requires t != "" && !IsSpace(t[0])
    ensures SplitWs(sep + t) == [""] + SplitWs(t)
  {
    TrimStartPrefix(sep, t);
    AllSpaceTrimStart(sep);
  }

  lemma NonEmptyKeeps(w: string, parts: seq<string>)
    requires w != ""
    ensures NonEmpty([w] + parts) == [w] + NonEmpty(parts)
  {
    assert ([w] + parts)[1..] == parts;
  }

  /** Without a name the display name is "Usuário", and a blank picture address counts as none. */
  lemma ProfileFallbacks(name: Option<string>, avatar: Option<string>)
    ensures name.None? ==> DisplayName(name) == "Usuário"
    ensures name.Some? ==> DisplayName(name) == name.value
    ensures AvatarSrc(avatar).Some? <==> avatar.Some? && Trim(avatar.value) != ""
    ensures AvatarSrc(avatar).Some? ==> AvatarSrc(avatar) == avatar
  {
  }

  /**
   * The avatar's initials are taken from the displayed name: without a name
   * they come from "Usuário" and are "U"; with one, from the name itself.
   */
  lemma InitialsOfShownName(name: Option<string>)
    ensures name.None? ==> GetInitials(Some(DisplayName(name))) == "U"
    ensures name.Some? ==> GetInitials(Some(DisplayName(name))) == GetInitials(name)
  {
    if name.None? {
      OneWordInitial("Usuário");
    }
  }
}
