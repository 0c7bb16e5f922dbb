/** The schools of a user on the target. */
module SchoolChoice {
  import opened Options
  import opened Listener
  import opened Ordering
  import opened Names
  import opened LowerCaseKeys
  import opened UserTarget

  function AsSet(schools: seq<string>): set<string> {
    set school | school in schools
  }

  /** `ListenerUserAddModifyObject.school`; `ou` is what the pattern finds in the DN. */
  method School(ou: Option<string>, schools: seq<string>) returns (school: string)
    requires schools != []
    ensures IsPrimary(ou, schools, school)
  {
    if ou.Some? && ou.value in schools {
      return ou.value;
    }
    var names := SortNames(AsSet(schools));
    SortedNamesDistinct(AsSet(schools));
    assert schools[0] in AsSet(schools) && schools[0] in names;
    forall other | other in schools && other != names[0] ensures Less(names[0], other) {
      FirstIsLeast(AsSet(schools), other);
    }
    school := names[0];
    assert school in names;
  }

  /** The school in the DN if the user is in it, else the first in alphabetical order. */
  ghost predicate IsPrimary(ou: Option<string>, schools: seq<string>, school: string) {
    && school in schools
    && (if ou.Some? && ou.value in schools then school == ou.value
        else forall other :: other in schools && other != school ==> Less(school, other))
  }

  lemma FirstIsLeast(names: set<string>, name: string)
    requires name in names
    ensures SortedNames(names) != [] && (name != SortedNames(names)[0] ==> Less(SortedNames(names)[0], name))
  {
    SortedNamesDistinct(names);
    LessIsStrictTotal();
    var s := SortedNames(names);
    var i :| 0 <= i < |s| && s[i] == name;
  }

  /** The names of the schools on the target in lower case, as `user_has_schools` compares them */
  method ApiSchools(target: seq<(string, string)>) returns (schools: set<string>)
    ensures schools == Lowered(target).Keys
  {
    schools := {};
    for i := 0 to |target|
      invariant schools == Lowered(target[..i]).Keys
    {
      assert target[..i + 1][..i] == target[..i];
      schools := schools + {Lower(target[i].0)};
    }
    assert target[..|target|] == target;
  }

  /** The target's name of the primary school if it is known there, otherwise of the first known
      school in alphabetical order. */
  ghost predicate IsChosen(known: map<string, string>, primary: string, schools: seq<string>, chosen: string) {
    exists school ::
      && school in schools && Lower(school) in known && chosen == known[Lower(school)]
      && (Lower(primary) in known ==> school == primary)
      && (Lower(primary) !in known ==>
            forall other :: other in schools && Lower(other) in known && other != school ==> Less(school, other))
  }

  /** `_handle_attr_school`, for a user with primary school `school` */
  method HandleAttrSchool(target: seq<(string, string)>, school: string, schools: seq<string>) returns (chosen: Option<string>)
    requires school in schools
    ensures chosen == None <==> forall s :: s in schools ==> Lower(s) !in Lowered(target)
    ensures chosen.Some? ==> IsChosen(Lowered(target), school, schools, chosen.value)
  {
    var known := LowerKeys(target);
    var names := SortNames(AsSet([school] + schools));
    assert AsSet([school] + schools) == AsSet(schools);
    var tried := RemoveAndInsert(names, school);
    for i := 0 to |tried|
      invariant forall j :: 0 <= j < i ==> Lower(tried[j]) !in known
    {
      if Lower(tried[i]) in known {
        FirstKnownIsChosen(known, school, schools, tried, i);
        return Some(known[Lower(tried[i])]);
      }
    }
    chosen := None;
    forall s | s in schools ensures Lower(s) !in known {
      assert s in AsSet(schools) && s in tried;
    }
  }

  /** `schools.remove(school)` and `schools.insert(0, school)` */
  method RemoveAndInsert(names: seq<string>, school: string) returns (tried: seq<string>)
    requires Ascending(Less, names) && school in names
    ensures tried != [] && tried[0] == school && Ascending(Less, tried[1..])
    ensures forall name :: name in tried <==> name in names
  {
    var i := 0;
    while names[i] != school
      invariant 0 <= i < |names| && school !in names[..i]
      decreases |names| - i
    {
      i := i + 1;
      assert exists j :: 0 <= j < |names| && names[j] == school;
    }
    tried := [school] + names[..i] + names[i + 1..];
    assert tried[1..] == names[..i] + names[i + 1..];
    assert names == names[..i] + [school] + names[i + 1..];
  }

  lemma FirstKnownIsChosen(known: map<string, string>, school: string, schools: seq<string>, tried: seq<string>, i: nat)
    requires tried != [] && tried[0] == school && Ascending(Less, tried[1..])
    requires forall s :: s in tried <==> s in schools
    requires i < |tried| && Lower(tried[i]) in known && forall j :: 0 <= j < i ==> Lower(tried[j]) !in known
    ensures IsChosen(known, school, schools, known[Lower(tried[i])])
  {
    assert tried[i] in tried;
    if Lower(school) in known {
      assert i == 0;
    } else {
      forall other | other in schools && Lower(other) in known && other != tried[i] ensures Less(tried[i], other) {
        var j :| 0 <= j < |tried| && tried[j] == other;
        assert j > i > 0;
        assert Less(tried[1..][i - 1], tried[1..][j - 1]);
      }
    }
  }

  /** The target's names of those of the schools that it knows, in order. */
  function KnownIn(known: map<string, string>, names: seq<string>): seq<string> {
    if names == [] then []
    else
      var rest := KnownIn(known, names[..|names| - 1]);
      var name := names[|names| - 1];
      if Lower(name) in known then rest + [known[Lower(name)]] else rest
  }

  /** `_handle_attr_schools` */
  method HandleAttrSchools(target: seq<(string, string)>, school: string, schools: seq<string>)
    returns (all: Option<seq<string>>)
    requires school in schools
    ensures var known := KnownIn(Lowered(target), SortedNames(AsSet(schools)));
      all == if known == [] then None else Some(known)
  {
    var res: seq<string> := [];
    var known := LowerKeys(target);
    assert AsSet([school] + schools) == AsSet(schools);
    var names := SortNames(AsSet([school] + schools));
    for i := 0 to |names|
      invariant res == KnownIn(known, names[..i])
    {
      assert names[..i + 1][..i] == names[..i];
      if Lower(names[i]) in known {
        res := res + [known[Lower(names[i])]];
      }
    }
    assert names[..|names|] == names;
    all := if res != [] then Some(res) else None;
  }

  lemma {:induction false} KnownInContains(known: map<string, string>, names: seq<string>, id: string)
    ensures id in KnownIn(known, names) <==> exists name :: name in names && Lower(name) in known && known[Lower(name)] == id
  {
    if names != [] {
      KnownInContains(known, names[..|names| - 1], id);
      assert names == names[..|names| - 1] + [names[|names| - 1]];
    }
  }

  /** A user with a known school gets both attributes, and the one school is among all of them;
      a user without one gets neither. */
  lemma ChoiceIsConsistent(known: map<string, string>, primary: string, schools: seq<string>, chosen: string)
    requires primary in schools
    ensures KnownIn(known, SortedNames(AsSet(schools))) != [] <==> exists school :: school in schools && Lower(school) in known
    ensures IsChosen(known, primary, schools, chosen) ==> chosen in KnownIn(known, SortedNames(AsSet(schools)))
  {
    var names := SortedNames(AsSet(schools));
    SortedNamesDistinct(AsSet(schools));
    forall school | school in schools && Lower(school) in known
      ensures known[Lower(school)] in KnownIn(known, names)
    {
      assert school in AsSet(schools);
      KnownInContains(known, names, known[Lower(school)]);
    }
    if KnownIn(known, names) != [] {
      KnownInContains(known, names, KnownIn(known, names)[0]);
    }
  }

  /** The handler creates or updates exactly those users whose schools it can map, so that mapping
      the school attributes never raises for a user that it got so far with. */
  lemma SchoolsCanBeMapped(target: seq<(string, string)>, env: Env, obj: ListenerObject, primary: string)
    requires obj.IsUserChange() && primary in obj.data.schools && env.schools == Lowered(target).Keys
    ensures HasSchools(env, obj) <==> KnownIn(Lowered(target), SortedNames(AsSet(obj.data.schools))) != []
  {
    ChoiceIsConsistent(Lowered(target), primary, obj.data.schools, primary);
  }

  /** The choice is determined by the schools, whatever their order and case on the target. */
  lemma ChosenIsUnique(known: map<string, string>, primary: string, schools: seq<string>, one: string, two: string)
    requires IsChosen(known, primary, schools, one) && IsChosen(known, primary, schools, two)
    ensures one == two
  {
    LessIsStrictTotal();
  }
}
