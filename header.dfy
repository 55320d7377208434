/** The page header (components/Header.js): the avatar initials and the name shown in the
    account menu. */
module Header {
  import opened Common

  /** A missing name or e-mail, or one that trims to nothing, is falsy in the header's tests. */
  predicate Blank(s: Option<string>) {
    s.None? || Trim(s.value) == []
  }

  /** `s.charAt(0).toUpperCase()`: the upper-cased first character, or nothing for "". */
  function FirstUpper(s: string): (r: string)
    ensures |r| <= 1 && (r == [] <==> s == [])
    ensures s != [] ==> r == [Upper(s[0])]
  {
    if s == [] then [] else [Upper(s[0])]
  }

  /** For a trimmed name with a space: the first part starts with the name's first character,
      and the last part starts right after the last space. */
  lemma FullNameParts(t: string)
    requires t != [] && !IsSpace(t[0]) && !IsSpace(t[|t| - 1]) && ' ' in t
    ensures var parts := Split(t, ' ');
      |parts| > 1 && parts[0] != [] && parts[0][0] == t[0]
      && LastIndexOf(t, ' ').value + 1 < |t|
      && parts[|parts| - 1] != [] && parts[|parts| - 1][0] == t[LastIndexOf(t, ' ').value + 1]
  {
    var parts := Split(t, ' ');
    SplitFirst(t, ' ');
    SplitLast(t, ' ');
    var last := parts[|parts| - 1];
    var k := LastIndexOf(t, ' ').value;
    // The last part is a space-free suffix preceded by a space, so that space is the last one.
    assert ' ' !in last;
    assert |last| < |t|;
    var p := |t| - |last| - 1;
    forall i | p < i < |t| ensures t[i] != ' ' {
      assert t[i] == last[i - (p + 1)];
    }
    forall i | k < i < |t| ensures t[i] != ' ' {
      assert t[i] == t[k + 1..][i - (k + 1)];
    }
    assert k == p;
  }

  /** The initials of a trimmed, non-empty name: the first letters of its first and last
      space-separated parts, or of the name alone when it has no space. */
  function NameInitials(t: string): (r: string)
    requires t != [] && !IsSpace(t[0]) && !IsSpace(t[|t| - 1])
    ensures 1 <= |r| <= 2
  {
    var parts := Split(t, ' ');
    if |parts| > 1 then
      FullNameParts(t);
      FirstUpper(parts[0]) + FirstUpper(parts[|parts| - 1])
    else FirstUpper(t)
  }

  /** A name with a space gives the upper-cased first letter of the name and that of the text
      after its last space: two characters. */
  lemma {:induction false} NameInitialsOfFullName(t: string)
    requires t != [] && !IsSpace(t[0]) && !IsSpace(t[|t| - 1]) && ' ' in t
    ensures LastIndexOf(t, ' ').value + 1 < |t|
    ensures NameInitials(t) == [Upper(t[0]), Upper(t[LastIndexOf(t, ' ').value + 1])]
  {
    FullNameParts(t);
  }

  /** getInitials. */
  function Initials(user: Option<User>): (r: string)
    ensures user.None? ==> r == "U"
    ensures |r| <= 2
    ensures r == [] <==> user.Some? && Blank(user.value.name) && Blank(user.value.email) && user.value.empId == []
  {
    if user.None? then "U"
    else
      var u := user.value;
      if !Blank(u.name) then NameInitials(Trim(u.name.value))
      else if !Blank(u.email) then FirstUpper(Trim(u.email.value))
      else FirstUpper(u.empId)
  }

  /** A trimmed name with a space gives the upper-cased first letter of the name and that of
      the text after its last space. */
  lemma InitialsOfFullName(u: User)
    requires !Blank(u.name) && ' ' in Trim(u.name.value)
    ensures var t := Trim(u.name.value);
      LastIndexOf(t, ' ').value + 1 < |t|
      && Initials(Some(u)) == [Upper(t[0]), Upper(t[LastIndexOf(t, ' ').value + 1])]
  {
    NameInitialsOfFullName(Trim(u.name.value));
  }

  /** A name without a space gives its upper-cased first letter alone. */
  lemma InitialsOfSingleName(u: User)
    requires !Blank(u.name) && ' ' !in Trim(u.name.value)
    ensures Initials(Some(u)) == [Upper(Trim(u.name.value)[0])]
  {
  }

  /** Without a usable name the e-mail's first letter is used, and without either the id's. */
  lemma InitialsWithoutName(u: User)
    requires Blank(u.name)
    ensures !Blank(u.email) ==> Initials(Some(u)) == [Upper(Trim(u.email.value)[0])]
    ensures Blank(u.email) && u.empId != [] ==> Initials(Some(u)) == [Upper(u.empId[0])]
  {
  }

  /** `user?.name || \`User ${user?.empId}\``: the name, or "User " and the id. */
  function DisplayName(u: User): (r: string)
    ensures r != []
    ensures u.name.Some? && u.name.value != [] ==> r == u.name.value
    ensures u.name.None? || u.name.value == [] ==> r == "User " + u.empId
  {
    StrOr(u.name, "User " + u.empId)
  }
}
