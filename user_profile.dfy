/**
 * The user menu's initials (apps/web/components/layout/UserProfile.tsx,
 * `getInitials`): from the name, or else the e-mail address, split at single
 * spaces. Upper-casing covers ASCII letters only.
 */
module UserProfile {
  import opened Wrappers
  import opened JsString

  /** `name || email || ""`, where `None` stands for `null` and `undefined`. */
  function InitialsSource(name: Option<string>, email: Option<string>): string {
    if name.Some? && name.value != "" then name.value
    else if email.Some? && email.value != "" then email.value
    else ""
  }

  /** `s.charAt(0)`: the first character, or "" for the empty string. */
  function CharAt0(s: string): string {
    if s == "" then "" else [s[0]]
  }

  /** `getInitials(name, email)`. */
  function GetInitials(name: Option<string>, email: Option<string>): string {
    var source := InitialsSource(name, email);
    if source == "" then "U"
    else
      var parts := Split(source, ' ');
      var first := parts[0];
      var second := if |parts| > 1 then parts[1] else "";
      ToUpper(CharAt0(first) + CharAt0(second))
  }

  /** The name is used when non-empty; otherwise a non-empty e-mail address; otherwise nothing, giving "U". */
  lemma SourceChoice(name: Option<string>, email: Option<string>)
    ensures name.Some? && name.value != "" ==> InitialsSource(name, email) == name.value
    ensures (name.None? || name.value == "") && email.Some? && email.value != "" ==> InitialsSource(name, email) == email.value
    ensures (name.None? || name.value == "") && (email.None? || email.value == "") ==>
      InitialsSource(name, email) == "" && GetInitials(name, email) == "U"
  {
  }

  /** A source without spaces gives its first letter, upper-cased. */
  lemma OnePieceInitial(name: string, email: Option<string>)
    requires name != "" && ' ' !in name
    ensures GetInitials(Some(name), email) == [UpperChar(name[0])]
  {
    SplitNone(name, ' ');
  }

  /** "a b…" gives the upper-cased first letters of the first two pieces; later pieces are ignored. */
  lemma TwoPieceInitials(a: string, b: string, rest: string, email: Option<string>)
    requires a != "" && b != "" && ' ' !in a && ' ' !in b
    requires rest == "" || rest[0] == ' '
    ensures GetInitials(Some(a + " " + b + rest), email) == [UpperChar(a[0]), UpperChar(b[0])]
  {
    var source := a + " " + b + rest;
    assert source == a + [' '] + (b + rest);
    SplitHead(a, ' ', b + rest);
    if rest == "" {
      assert b + rest == b;
      SplitNone(b, ' ');
    } else {
      assert b + rest == b + [' '] + rest[1..];
      SplitHead(b, ' ', rest[1..]);
    }
  }

  /**
   * A source of spaces only is non-empty, so it does not fall back to "U":
   * " " gives the empty string.
   */
  lemma SpaceOnlyGivesEmpty(email: Option<string>)
    ensures GetInitials(Some(" "), email) == ""
  {
    assert " " == [] + [' '] + [];
    SplitHead([], ' ', []);
  }
}
