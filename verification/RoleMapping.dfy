/** Attribute mappings by role: what the configuration check demands of them, and which one
    is used for a user. */
module RoleMapping {
  import opened Options
  import opened DeepMerge
  import opened Names
  import opened SchoolRoles

  /** `d.get(key, {})` of a dictionary of dictionaries */
  function GetDict(d: Json, key: string): Json
    requires d.Dict?
  {
    if key in d.entries then d.entries[key] else Dict(map[])
  }

  /** The roles' mappings are dictionaries. */
  predicate IsMapping(mapping: Json) {
    mapping.Dict? && forall key :: key in mapping.entries ==> mapping.entries[key].Dict?
  }

  predicate Has(mapping: Json, key: string, attribute: string)
    requires IsMapping(mapping)
  {
    attribute in GetDict(mapping, key).entries
  }

  /** Configured for a role, or for all users if the role has no mapping or an empty one. */
  predicate ConfiguredFor(mapping: Json, key: string, attribute: string)
    requires IsMapping(mapping)
  {
    || (GetDict(mapping, key) == Dict(map[]) && Has(mapping, "users", attribute))
    || Has(mapping, key, attribute)
  }

  const GUARDIAN := "ucsschoolLegalGuardian"
  const WARD := "ucsschoolLegalWard"

  /** `has_required_attr_combination`, for the mapping of the Kelvin plugin */
  predicate Accepted(mapping: Json)
    requires IsMapping(mapping)
  {
    ConfiguredFor(mapping, "users_student", GUARDIAN) <==> ConfiguredFor(mapping, "users_legal_guardian", WARD)
  }

  /** The key of the mapping that is used for a user with these roles. */
  function KeyFor(mapping: Json, roles: set<string>): string
    requires IsMapping(mapping)
  {
    if "school_admin" in roles && "users_school_admin" in mapping.entries then "users_school_admin"
    else if "staff" in roles && "users_staff" in mapping.entries then "users_staff"
    else if "teacher" in roles && "users_teacher" in mapping.entries then "users_teacher"
    else if "legal_guardian" in roles && "users_legal_guardian" in mapping.entries then "users_legal_guardian"
    else if "student" in roles && "users_student" in mapping.entries then "users_student"
    else "users"
  }

  /** `_get_role_specific_mapping`; `None` is a `KeyError`. */
  function RoleSpecific(mapping: Json, roles: seq<string>, handled: set<string>): Option<Json>
    requires IsMapping(mapping)
  {
    var key := KeyFor(mapping, RolesAt(roles, handled));
    if key in mapping.entries then Some(mapping.entries[key]) else None
  }

  /** The roles that have a mapping of their own, the first one first. */
  const ROLE_ORDER := ["school_admin", "staff", "teacher", "legal_guardian", "student"]

  /** The user has this role in a handled school, and there is a mapping for it. */
  ghost predicate MayDecide(mapping: Json, roles: seq<string>, handled: set<string>, i: nat)
    requires mapping.Dict? && i < |ROLE_ORDER|
  {
    HasRole(roles, handled, ROLE_ORDER[i]) && "users_" + ROLE_ORDER[i] in mapping.entries
  }

  /** Of a user's roles the first one with a mapping decides, and without any that of all users is
      used. */
  lemma {:induction false} FirstRoleDecides(mapping: Json, roles: seq<string>, handled: set<string>, i: nat)
    requires IsMapping(mapping) && i <= |ROLE_ORDER|
    requires forall j: nat :: j < i ==> !MayDecide(mapping, roles, handled, j)
    requires i < |ROLE_ORDER| ==> MayDecide(mapping, roles, handled, i)
    ensures var key := if i < |ROLE_ORDER| then "users_" + ROLE_ORDER[i] else "users";
      RoleSpecific(mapping, roles, handled) == if key in mapping.entries then Some(mapping.entries[key]) else None
  {
    RolesAtIs(roles, handled);
    assert "users_" + ROLE_ORDER[0] == "users_school_admin" && "users_" + ROLE_ORDER[1] == "users_staff";
    assert "users_" + ROLE_ORDER[2] == "users_teacher" && "users_" + ROLE_ORDER[3] == "users_legal_guardian";
    assert "users_" + ROLE_ORDER[4] == "users_student";
    assert i > 0 ==> !MayDecide(mapping, roles, handled, 0);
    assert i > 1 ==> !MayDecide(mapping, roles, handled, 1);
    assert i > 2 ==> !MayDecide(mapping, roles, handled, 2);
    assert i > 3 ==> !MayDecide(mapping, roles, handled, 3);
    assert i > 4 ==> !MayDecide(mapping, roles, handled, 4);
  }

  predicate Maps(used: Option<Json>, attribute: string) {
    used.Some? && used.value.Dict? && attribute in used.value.entries
  }

  /** The mapping of the role is there but empty, and so hides that of all users. */
  predicate EmptyHides(mapping: Json, key: string, attribute: string)
    requires IsMapping(mapping)
  {
    key in mapping.entries && mapping.entries[key] == Dict(map[]) && Has(mapping, "users", attribute)
  }

  /** For an accepted configuration, students get their guardians mapped exactly when
      guardians get their wards mapped, unless just one of the two mappings is explicitly
      empty and hides that of all users. */
  lemma BothOrNone(mapping: Json, student: seq<string>, guardian: seq<string>, handled: set<string>)
    requires IsMapping(mapping) && Accepted(mapping)
    requires RolesAt(student, handled) == {"student"} && RolesAt(guardian, handled) == {"legal_guardian"}
    ensures (Maps(RoleSpecific(mapping, student, handled), GUARDIAN) <==> Maps(RoleSpecific(mapping, guardian, handled), WARD))
       <==> (EmptyHides(mapping, "users_student", GUARDIAN) <==> EmptyHides(mapping, "users_legal_guardian", WARD))
  {
    UsedBySingleRole(mapping, student, handled, "student", "users_student", GUARDIAN);
    UsedBySingleRole(mapping, guardian, handled, "legal_guardian", "users_legal_guardian", WARD);
  }

  /** The selector differs from the check only for a mapping that hides that of all users. */
  lemma UsedBySingleRole(mapping: Json, roles: seq<string>, handled: set<string>, role: string, key: string, attribute: string)
    requires IsMapping(mapping) && RolesAt(roles, handled) == {role}
    requires (role == "student" && key == "users_student") || (role == "legal_guardian" && key == "users_legal_guardian")
    ensures Maps(RoleSpecific(mapping, roles, handled), attribute) <==>
            ConfiguredFor(mapping, key, attribute) && !EmptyHides(mapping, key, attribute)
  {
    assert KeyFor(mapping, {role}) == if key in mapping.entries then key else "users";
    assert GetDict(mapping, key) == Dict(map[]) ==> attribute !in GetDict(mapping, key).entries;
  }

  /** With such a mapping the two do differ: this configuration is accepted, but no student
      gets guardians while guardians get wards. */
  lemma EmptyMappingDiffers() returns (mapping: Json, student: seq<string>, guardian: seq<string>, handled: set<string>)
    ensures IsMapping(mapping) && Accepted(mapping)
    ensures RolesAt(student, handled) == {"student"} && RolesAt(guardian, handled) == {"legal_guardian"}
    ensures !Maps(RoleSpecific(mapping, student, handled), GUARDIAN)
    ensures Maps(RoleSpecific(mapping, guardian, handled), WARD)
  {
    var both := Dict(map[GUARDIAN := Str("legal_guardians"), WARD := Str("legal_wards")]);
    mapping := Dict(map["users" := both, "users_student" := Dict(map[])]);
    student, guardian, handled := ["student" + ":school:demo"], ["legal_guardian" + ":school:demo"], {"demo"};
    SingleRole("student");
    SingleRole("legal_guardian");
    assert Has(mapping, "users", GUARDIAN) && Has(mapping, "users", WARD);
    HiddenForStudents(mapping, student, guardian, handled);
  }

  lemma HiddenForStudents(mapping: Json, student: seq<string>, guardian: seq<string>, handled: set<string>)
    requires IsMapping(mapping) && Has(mapping, "users", GUARDIAN) && Has(mapping, "users", WARD)
    requires EmptyHides(mapping, "users_student", GUARDIAN) && "users_legal_guardian" !in mapping.entries
    requires RolesAt(student, handled) == {"student"} && RolesAt(guardian, handled) == {"legal_guardian"}
    ensures Accepted(mapping)
    ensures !Maps(RoleSpecific(mapping, student, handled), GUARDIAN)
    ensures Maps(RoleSpecific(mapping, guardian, handled), WARD)
  {
    UsedBySingleRole(mapping, student, handled, "student", "users_student", GUARDIAN);
    UsedBySingleRole(mapping, guardian, handled, "legal_guardian", "users_legal_guardian", WARD);
  }

  lemma SingleRole(role: string)
    requires IsPart(role)
    ensures RolesAt([role + ":school:demo"], {"demo"}) == {role}
  {
    var text := role + ":school:demo";
    var parsed := Role(role, "school", "demo");
    assert Text(parsed) == text by {
      assert role + ":" + "school" + ":" + "demo" == role + ":school:demo";
    }
    assert Lower("demo") == "demo";
    ParsedText(parsed);
    assert Parse(text) == Some(parsed);
    assert text in [text] && RoleAt(text, {"demo"}) == Some(role);
  }
}
