/** UCS@school role strings, `role:context_type:context`. */
module SchoolRoles {
  import opened Options
  import opened Names

  datatype Role = Role(role: string, contextType: string, context: string)

  predicate NoColon(s: string) {
    ':' !in s
  }

  /** A part matched by `[^:]+` */
  predicate IsPart(s: string) {
    s != [] && NoColon(s)
  }

  function FirstColon(s: string): (i: nat)
    ensures i <= |s| && NoColon(s[..i])
    ensures i < |s| ==> s[i] == ':'
  {
    if s == [] || s[0] == ':' then 0
    else
      var i := FirstColon(s[1..]);
      assert s[..i + 1] == [s[0]] + s[1..][..i];
      i + 1
  }

  lemma {:induction false} FirstColonIs(s: string, rest: string)
    requires NoColon(s)
    ensures FirstColon(s + ":" + rest) == |s| && FirstColon(s) == |s|
  {
    if s != [] {
      FirstColonIs(s[1..], rest);
      assert (s + ":" + rest)[1..] == s[1..] + ":" + rest;
    }
  }

  /** `ucsschool_role_regex().search` */
  function Parse(s: string): Option<Role> {
    var i := FirstColon(s);
    if i == |s| then None
    else
      var rest := s[i + 1..];
      var j := FirstColon(rest);
      if j == |rest| || !IsPart(s[..i]) || !IsPart(rest[..j]) || !IsPart(rest[j + 1..]) then None
      else Some(Role(s[..i], rest[..j], rest[j + 1..]))
  }

  function Text(role: Role): string {
    role.role + ":" + role.contextType + ":" + role.context
  }

  /** The pattern matches exactly the texts of three non-empty parts without a colon. */
  lemma ParseIsInverse(s: string, role: Role)
    ensures Parse(s) == Some(role) <==>
            s == Text(role) && IsPart(role.role) && IsPart(role.contextType) && IsPart(role.context)
  {
    if Parse(s).Some? {
      TextOfParsed(s);
    }
    if s == Text(role) && IsPart(role.role) && IsPart(role.contextType) && IsPart(role.context) {
      ParsedText(role);
    }
  }

  lemma TextOfParsed(s: string)
    requires Parse(s).Some?
    ensures var role := Parse(s).value;
      s == Text(role) && IsPart(role.role) && IsPart(role.contextType) && IsPart(role.context)
  {
    var i := FirstColon(s);
    var rest := s[i + 1..];
    var j := FirstColon(rest);
    assert rest == rest[..j] + ":" + rest[j + 1..];
    assert s == s[..i] + ":" + rest;
  }

  lemma ParsedText(role: Role)
    requires IsPart(role.role) && IsPart(role.contextType) && IsPart(role.context)
    ensures Parse(Text(role)) == Some(role)
  {
    var tail := role.contextType + ":" + role.context;
    assert Text(role) == role.role + ":" + tail;
    SplitAtColon(role.role, tail);
    SplitAtColon(role.contextType, role.context);
  }

  lemma SplitAtColon(s: string, rest: string)
    requires NoColon(s)
    ensures var whole := s + ":" + rest;
      && FirstColon(whole) == |s| < |whole|
      && whole[..|s|] == s && whole[|s| + 1..] == rest
  {
    FirstColonIs(s, rest);
  }

  /** The roles that these strings give a user in the handled schools, which are in lower
      case. */
  function RolesAt(roles: seq<string>, handled: set<string>): set<string> {
    set text | text in roles && RoleAt(text, handled).Some? :: RoleAt(text, handled).value
  }

  function RoleAt(text: string, handled: set<string>): Option<string> {
    match Parse(text)
    case None => None
    case Some(role) =>
      if role.contextType == "school" && Lower(role.context) in handled then Some(role.role) else None
  }

  /** The text gives a role in a school. */
  ghost predicate GivesRole(text: string, role: string, school: string) {
    text == role + ":school:" + school && IsPart(role) && IsPart(school)
  }

  /** Among the texts is one that gives the role in a handled school. */
  ghost predicate HasRole(roles: seq<string>, handled: set<string>, role: string) {
    exists text, school :: text in roles && GivesRole(text, role, school) && Lower(school) in handled
  }

  lemma GivenRole(text: string, role: string, school: string)
    ensures Parse(text) == Some(Role(role, "school", school)) <==> GivesRole(text, role, school)
  {
    assert Text(Role(role, "school", school)) == role + ":school:" + school;
    assert IsPart("school");
    ParseIsInverse(text, Role(role, "school", school));
  }

  /** The roles are those that some text gives in a handled school. */
  lemma {:induction false} RolesAtIs(roles: seq<string>, handled: set<string>)
    ensures forall role :: role in RolesAt(roles, handled) <==> HasRole(roles, handled, role)
  {
    forall role ensures role in RolesAt(roles, handled) <==> HasRole(roles, handled, role) {
      if role in RolesAt(roles, handled) {
        var text :| text in roles && RoleAt(text, handled) == Some(role);
        GivenRole(text, role, Parse(text).value.context);
      }
      if HasRole(roles, handled, role) {
        var text, school :| text in roles && GivesRole(text, role, school) && Lower(school) in handled;
        GivenRole(text, role, school);
        assert RoleAt(text, handled) == Some(role);
      }
    }
  }
}
