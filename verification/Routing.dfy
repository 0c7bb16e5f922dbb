/** Which school authorities an object of the in queue is sent to. */
module Routing {
  import opened Options
  import opened Listener
  import opened OldData
  import opened Names

  datatype Authority = Authority(name: string, active: bool, plugins: set<string>)

  /** `mapping` has lower case school names as keys; `authorities` are the
      configurations of the registered out queues. */
  datatype RoutingConfig = RoutingConfig(mapping: map<string, string>, authorities: seq<Authority>)

  const KELVIN := "kelvin"
  const KELVIN_PARTIAL := "kelvin-partial-group-sync"

  predicate KelvinActive(cfg: RoutingConfig) {
    exists i :: 0 <= i < |cfg.authorities| && "kelvin" in cfg.authorities[i].plugins && cfg.authorities[i].active
  }

  predicate MappedTo(mapping: map<string, string>, school: string, name: string) {
    Lower(school) in mapping && mapping[Lower(school)] == name
  }

  /** Some of `schools` belongs to the authority called `name`. */
  ghost predicate SomeMappedTo(mapping: map<string, string>, schools: seq<string>, name: string) {
    exists school :: school in schools && MappedTo(mapping, school, name)
  }

  /** The schools in the `old_data` of a user event. */
  function OldSchools(obj: ListenerObject): seq<string> {
    if obj.Other? then []
    else match obj.previous
         case Some(UserSnapshot(schools, _, _)) => schools
         case _ => []
  }

  function CurrentSchools(obj: ListenerObject): seq<string> {
    if obj.IsUserChange() then obj.data.schools else []
  }

  /** A user event goes to `name` if it has now, or had before, a school there. */
  ghost predicate IsUserTarget(cfg: RoutingConfig, obj: ListenerObject, name: string) {
    && KelvinActive(cfg) && obj.IsUser()
    && (SomeMappedTo(cfg.mapping, CurrentSchools(obj), name) || SomeMappedTo(cfg.mapping, OldSchools(obj), name))
  }

  /** `UserDistributionImpl.school_authorities_to_distribute_to` */
  method UserAuthorities(cfg: RoutingConfig, obj: ListenerObject) returns (names: set<string>)
    ensures forall name :: name in names <==> IsUserTarget(cfg, obj, name)
  {
    names := {};
    var kelvin := exists i :: 0 <= i < |cfg.authorities| && KELVIN in cfg.authorities[i].plugins && cfg.authorities[i].active;
    if !kelvin || !obj.IsUser() {
      return;
    }
    if obj.AddMod? {
      names := AddMapped(cfg.mapping, obj.data.schools, names);
    }
    names := AddMapped(cfg.mapping, OldSchools(obj), names);
  }

  method AddMapped(mapping: map<string, string>, schools: seq<string>, before: set<string>)
    returns (names: set<string>)
    ensures forall name :: name in names <==> name in before || SomeMappedTo(mapping, schools, name)
  {
    names := before;
    for i := 0 to |schools|
      invariant forall name :: name in names <==> name in before || SomeMappedTo(mapping, schools[..i], name)
    {
      ghost var shorter := names;
      if Lower(schools[i]) in mapping {
        names := names + {mapping[Lower(schools[i])]};
      }
      forall name ensures SomeMappedTo(mapping, schools[..i + 1], name) <==>
                          SomeMappedTo(mapping, schools[..i], name) || MappedTo(mapping, schools[i], name)
      {
        assert schools[..i + 1] == schools[..i] + [schools[i]];
        assert forall school :: school in schools[..i + 1] <==> school in schools[..i] || school == schools[i];
      }
    }
    assert schools[..|schools|] == schools;
  }

  function GroupOu(obj: ListenerObject): Option<string> {
    match obj
    case AddMod(_, Group(ou, _), _) => ou
    case Remove(_, false, ou, _) => ou
    case _ => None
  }

  /** The school belongs to an authority of this name that is configured for the plugin. */
  ghost predicate IsServed(cfg: RoutingConfig, plugin: string, ou: string, name: string) {
    && MappedTo(cfg.mapping, ou, name)
    && exists i :: 0 <= i < |cfg.authorities| && cfg.authorities[i].name == name && plugin in cfg.authorities[i].plugins
  }

  /** A class event goes to the authority of the school of the class, even if that is not active. */
  ghost predicate IsGroupTarget(cfg: RoutingConfig, plugin: string, obj: ListenerObject, name: string) {
    match obj
    case AddMod(_, Group(Some(ou), _), _) => IsServed(cfg, plugin, ou, name)
    case Remove(_, false, Some(ou), _) => IsServed(cfg, plugin, ou, name)
    case _ => false
  }

  /** `GroupDistributionImplBase.school_authorities_to_distribute_to` */
  method GroupAuthorities(cfg: RoutingConfig, plugin: string, obj: ListenerObject) returns (names: set<string>)
    ensures forall name :: name in names <==> IsGroupTarget(cfg, plugin, obj, name)
  {
    names := {};
    var ou := GroupOu(obj);
    if ou == None {
      return;
    }
    var ours := set i | 0 <= i < |cfg.authorities| && plugin in cfg.authorities[i].plugins :: cfg.authorities[i].name;
    var filtered := map school | school in cfg.mapping && cfg.mapping[school] in ours :: cfg.mapping[school];
    if Lower(ou.value) in filtered {
      names := {filtered[Lower(ou.value)]};
    }
  }

  /** The union over all distribution plugins. */
  ghost predicate IsTarget(cfg: RoutingConfig, obj: ListenerObject, name: string) {
    || IsUserTarget(cfg, obj, name)
    || IsGroupTarget(cfg, KELVIN, obj, name)
    || IsGroupTarget(cfg, KELVIN_PARTIAL, obj, name)
  }

  method Authorities(cfg: RoutingConfig, obj: ListenerObject) returns (names: set<string>)
    ensures forall name :: name in names <==> IsTarget(cfg, obj, name)
  {
    names := UserAuthorities(cfg, obj);
    var kelvin := GroupAuthorities(cfg, KELVIN, obj);
    var partial := GroupAuthorities(cfg, KELVIN_PARTIAL, obj);
    names := names + kelvin + partial;
  }

  /** Who gets an event: for a user the authorities of its present and former schools while some
      active authority uses the Kelvin plugin, for a class that of its school, for others nobody. */
  lemma {:induction false} TargetsAre(cfg: RoutingConfig, obj: ListenerObject, name: string)
    ensures IsTarget(cfg, obj, name) <==>
            match obj
            case AddMod(_, User(schools, _, _, _), previous) =>
              KelvinActive(cfg) && (SomeMappedTo(cfg.mapping, schools, name) || WasMappedTo(cfg.mapping, previous, name))
            case Remove(_, true, _, previous) => KelvinActive(cfg) && WasMappedTo(cfg.mapping, previous, name)
            case AddMod(_, Group(ou, _), _) => ou.Some? && IsClassTarget(cfg, ou.value, name)
            case Remove(_, false, ou, _) => ou.Some? && IsClassTarget(cfg, ou.value, name)
            case Other(_, _) => false
  {
    assert !SomeMappedTo(cfg.mapping, [], name);
    match obj
    case AddMod(_, Group(Some(ou), _), _) => ServedByEither(cfg, ou, name);
    case Remove(_, false, Some(ou), _) => ServedByEither(cfg, ou, name);
    case _ =>
  }

  lemma ServedByEither(cfg: RoutingConfig, ou: string, name: string)
    ensures IsServed(cfg, KELVIN, ou, name) || IsServed(cfg, KELVIN_PARTIAL, ou, name) <==> IsClassTarget(cfg, ou, name)
  {
    forall i | 0 <= i < |cfg.authorities| && cfg.authorities[i].name == name
      ensures KELVIN in cfg.authorities[i].plugins || KELVIN_PARTIAL in cfg.authorities[i].plugins <==> IsServedBy(cfg, i, name)
    {
    }
  }

  /** Some of the schools in the `old_data` of a user belongs to the authority. */
  ghost predicate WasMappedTo(mapping: map<string, string>, previous: Option<Snapshot>, name: string) {
    previous.Some? && previous.value.UserSnapshot? && SomeMappedTo(mapping, previous.value.schools, name)
  }

  ghost predicate IsClassTarget(cfg: RoutingConfig, ou: string, name: string) {
    MappedTo(cfg.mapping, ou, name) && exists i :: IsServedBy(cfg, i, name)
  }

  predicate IsServedBy(cfg: RoutingConfig, i: int, name: string) {
    && 0 <= i < |cfg.authorities| && cfg.authorities[i].name == name
    && ("kelvin" in cfg.authorities[i].plugins || "kelvin-partial-group-sync" in cfg.authorities[i].plugins)
  }

  // ---- hand-over ----------------------------------------------------------

  /** Users and groups do not share ids. */
  ghost predicate KindsAgree(log: seq<Logged>) {
    forall i, j :: 0 <= i < |log| && 0 <= j < |log| && log[i].obj.id == log[j].obj.id ==>
      log[i].obj.IsUser() == log[j].obj.IsUser()
  }

  /** Every authority that a user's schools are mapped to after one change is a target of
      the user's next event, be it a change or a removal: none keeps a stale account. */
  lemma HandOverIsComplete(cfg: RoutingConfig, log: seq<Logged>, i: int, j: int, name: string)
    requires KelvinActive(cfg)
    requires Attached(log) && KindsAgree(log)
    requires 0 <= i < j < |log| && TimesAscend(log[..j], log[j].time)
    requires log[i].obj.IsUserChange() && SomeMappedTo(cfg.mapping, log[i].obj.data.schools, name)
    requires log[j].obj.id == log[i].obj.id
    requires forall k :: i < k < j ==> log[k].obj.id != log[i].obj.id
    ensures IsTarget(cfg, log[j].obj, name)
  {
    var id := log[i].obj.id;
    assert log[j].obj.IsUser();
    assert IsLatestChange(log[..j], id, i);
    ExistingObjectIsRemembered(log[..j], id, i, log[j].time);
    assert OldSchools(log[j].obj) == log[i].obj.data.schools;
  }

  /** A user removal that is sent anywhere carries `old_data`. */
  lemma SentRemovalHasOldData(cfg: RoutingConfig, obj: ListenerObject, name: string)
    requires obj.Remove? && obj.IsUser() && IsTarget(cfg, obj, name)
    ensures obj.previous.Some? && obj.previous.value.UserSnapshot?
    ensures SomeMappedTo(cfg.mapping, obj.previous.value.schools, name)
  {
    assert GroupOu(obj) == None;
    assert !SomeMappedTo(cfg.mapping, [], name);
  }
}
