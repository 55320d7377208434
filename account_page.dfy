/** The account page (app/account/page.js): the profile form that fills its empty fields from
    the signed-in user, and the e-mail pattern its e-mail field must match. */
module AccountPage {
  import opened Common

  // ---------------------------------------------------------------------------------------
  // Hydration

  /** The fill-only-if-empty rule: a non-empty value from the user fills an empty field; a
      field that already holds text is never overwritten. */
  function Fill(current: string, incoming: Option<string>): (r: string)
    ensures current != "" ==> r == current
    ensures current == "" ==> r == incoming.GetOr("")
  {
    if incoming.Some? && incoming.value != "" && current == "" then incoming.value else current
  }

  /** Once a field holds text, later user data never changes it: hydration is one-shot. */
  lemma FillOnce(current: string, first: Option<string>, later: Option<string>)
    requires Fill(current, first) != ""
    ensures Fill(Fill(current, first), later) == Fill(current, first)
  {
  }

  class AccountForm {
    var name: string
    var email: string

    constructor ()
      ensures name == "" && email == ""
    {
      name, email := "", "";
    }

    /** The hydration effect: with a user, fill the empty fields from its name and e-mail. */
    method Hydrate(user: Option<User>)
      modifies this`name, this`email
      ensures user.None? ==> name == old(name) && email == old(email)
      ensures user.Some? ==> name == Fill(old(name), user.value.name) && email == Fill(old(email), user.value.email)
    {
      if user.Some? {
        if user.value.name.Some? && user.value.name.value != "" && name == "" {
          name := user.value.name.value;
        }
        if user.value.email.Some? && user.value.email.value != "" && email == "" {
          email := user.value.email.value;
        }
      }
    }
  }

  // ---------------------------------------------------------------------------------------
  // The e-mail pattern: a case-insensitive `local@domain.tld`

  /** A letter in either case (the pattern's `i` flag folds only ASCII letters). */
  predicate Letter(c: char) {
    'a' <= Lower(c) <= 'z'
  }

  predicate Digit(c: char) {
    '0' <= c <= '9'
  }

  predicate LocalChar(c: char) {
    Letter(c) || Digit(c) || c == '.' || c == '_' || c == '%' || c == '+' || c == '-'
  }

  predicate DomainChar(c: char) {
    Letter(c) || Digit(c) || c == '.' || c == '-'
  }

  /** `s` is one or more local characters, '@' at `at`, one or more domain characters, '.' at
      `dot`, and two or more letters to the end. */
  predicate EmailAt(s: string, at: int, dot: int) {
    0 < at && at + 1 < dot && dot + 2 < |s|
    && s[at] == '@' && s[dot] == '.'
    && (forall i :: 0 <= i < at ==> LocalChar(s[i]))
    && (forall i :: at < i < dot ==> DomainChar(s[i]))
    && (forall i :: dot < i < |s| ==> Letter(s[i]))
  }

  /** What the pattern accepts: some way of cutting the string into those pieces. */
  ghost predicate MatchesEmailPattern(s: string) {
    exists at, dot :: EmailAt(s, at, dot)
  }

  /** The validator without a search: the only possible cut is at the first '@' (no other
      piece may hold one) and the last '.' (the top-level domain holds none). */
  function ValidEmail(s: string): (ok: bool)
    ensures ok ==> '@' in s && '.' in s
  {
    var at := IndexOf(s, '@');
    var dot := LastIndexOf(s, '.');
    at.Some? && dot.Some? && EmailAt(s, at.value, dot.value)
  }

  lemma IndexOfAt(s: string, c: char, k: nat)
    requires k < |s| && s[k] == c && c !in s[..k]
    ensures IndexOf(s, c) == Some(k)
  {
    var r := IndexOf(s, c).value;
    forall j | 0 <= j < r ensures s[j] != c {
      assert s[j] == s[..r][j];
    }
    forall j | 0 <= j < k ensures s[j] != c {
      assert s[j] == s[..k][j];
    }
  }

  lemma LastIndexOfAt(s: string, c: char, k: nat)
    requires k < |s| && s[k] == c && c !in s[k + 1..]
    ensures LastIndexOf(s, c) == Some(k)
  {
    var r := LastIndexOf(s, c).value;
    forall j | r < j < |s| ensures s[j] != c {
      assert s[j] == s[r + 1..][j - r - 1];
    }
    forall j | k < j < |s| ensures s[j] != c {
      assert s[j] == s[k + 1..][j - k - 1];
    }
  }

  /** The validator accepts exactly the strings the pattern describes. */
  lemma ValidEmailMatchesPattern(s: string)
    ensures ValidEmail(s) <==> MatchesEmailPattern(s)
  {
    if MatchesEmailPattern(s) {
      var at, dot :| EmailAt(s, at, dot);
      forall i | 0 <= i < at ensures s[..at][i] != '@' {
        assert LocalChar(s[i]);
      }
      IndexOfAt(s, '@', at);
      var tld := s[dot + 1..];
      forall i | 0 <= i < |tld| ensures tld[i] != '.' {
        assert Letter(s[dot + 1 + i]);
      }
      LastIndexOfAt(s, '.', dot);
    }
  }

  /** The e-mail field's message: required first, then the pattern. */
  function EmailError(s: string): (r: Option<string>)
    ensures r.None? <==> MatchesEmailPattern(s)
    ensures s == "" ==> r == Some("Email is required")
  {
    ValidEmailMatchesPattern(s);
    if s == "" then Some("Email is required")
    else if !ValidEmail(s) then Some("Invalid email address")
    else None
  }
}
