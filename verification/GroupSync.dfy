/** The partial group sync: class members are merged, so that protected users on the target
    stay as they are there. */
module GroupSyncs {
  import opened SchoolRoles

  /** What is fixed while groups are synced: the roles of the users in LDAP, the schools of the
      authority in lower case, and the roles to ignore. */
  datatype SyncRules = SyncRules(ldap: map<string, seq<string>>, handled: set<string>, ignored: set<string>)

  /** `_check_user_ignore` */
  predicate CheckUserIgnore(rules: SyncRules, roles: seq<string>) {
    !(rules.ignored !! RolesAt(roles, rules.handled))
  }

  /** Users that LDAP does not know, or that have an ignored role in a handled school. */
  ghost predicate Protected(rules: SyncRules, user: string) {
    user in rules.ldap ==> exists role :: role in rules.ignored && HasRole(rules.ldap[user], rules.handled, role)
  }

  lemma IgnoredIsProtected(rules: SyncRules)
    ensures forall user :: user in rules.ldap ==> (CheckUserIgnore(rules, rules.ldap[user]) <==> Protected(rules, user))
  {
    forall user | user in rules.ldap ensures CheckUserIgnore(rules, rules.ldap[user]) <==> Protected(rules, user) {
      RolesAtIs(rules.ldap[user], rules.handled);
    }
  }

  ghost function ProtectedOf(rules: SyncRules, users: set<string>): set<string> {
    set user | user in users && Protected(rules, user)
  }

  /** The members to set on the target: of the local ones those that are not protected, of the
      remote ones those that are. */
  ghost function Merge(rules: SyncRules, local: set<string>, remote: set<string>): set<string> {
    (local - ProtectedOf(rules, local)) + ProtectedOf(rules, remote)
  }

  predicate AreInLdap(rules: SyncRules, users: set<string>) {
    users <= rules.ldap.Keys
  }

  /** `_handle_attr_users`.  A local member that LDAP does not know is `None`, whose user name
      cannot be read. */
  method HandleAttrUsers(rules: SyncRules, localUsernames: seq<string>, remoteUsernames: seq<string>)
    returns (raised: bool, users: set<string>)
    ensures raised <==> !AreInLdap(rules, set user | user in localUsernames)
    ensures !raised ==> forall user ::
      user in users <==> user in if Protected(rules, user) then remoteUsernames else localUsernames
  {
    IgnoredIsProtected(rules);
    users := {};
    var localIgnoreUsers: seq<string> := [];
    for i := 0 to |localUsernames|
      invariant forall j :: 0 <= j < i ==> localUsernames[j] in rules.ldap
      invariant forall user :: user in localIgnoreUsers <==> user in localUsernames[..i] && Protected(rules, user)
    {
      var user := localUsernames[i];
      if user !in rules.ldap {
        return true, users;
      }
      assert localUsernames[..i + 1] == localUsernames[..i] + [user];
      if CheckUserIgnore(rules, rules.ldap[user]) {
        localIgnoreUsers := localIgnoreUsers + [user];
      }
    }
    assert localUsernames[..|localUsernames|] == localUsernames;
    var remoteUsers: seq<string>, remoteUnknownUsernames: seq<string> := [], [];
    for i := 0 to |remoteUsernames|
      invariant forall user :: user in remoteUsers <==> user in remoteUsernames[..i] && user in rules.ldap
      invariant forall user :: user in remoteUnknownUsernames <==> user in remoteUsernames[..i] && user !in rules.ldap
    {
      var user := remoteUsernames[i];
      assert remoteUsernames[..i + 1] == remoteUsernames[..i] + [user];
      if user in rules.ldap {
        remoteUsers := remoteUsers + [user];
      } else {
        remoteUnknownUsernames := remoteUnknownUsernames + [user];
      }
    }
    assert remoteUsernames[..|remoteUsernames|] == remoteUsernames;
    var remoteKeepUsers := set user | user in remoteUsers && user in rules.ldap && CheckUserIgnore(rules, rules.ldap[user]);
    raised := false;
    users := ((set user | user in localUsernames) - (set user | user in localIgnoreUsers))
           + remoteKeepUsers + (set user | user in remoteUnknownUsernames);
  }

  // ---- runs --------------------------------------------------------------------

  /** The members of a class on both sides, and what may happen to them. */
  datatype Members = Members(local: set<string>, remote: set<string>)

  datatype Change = LocalEdit(users: set<string>) | RemoteEdit(users: set<string>) | Sync

  /** A sync that raises sends nothing. */
  ghost function Next(rules: SyncRules, members: Members, event: Change): Members {
    match event
    case LocalEdit(users) => members.(local := users)
    case RemoteEdit(users) => members.(remote := users)
    case Sync =>
      if AreInLdap(rules, members.local) then members.(remote := Merge(rules, members.local, members.remote)) else members
  }

  ghost function After(rules: SyncRules, start: Members, events: seq<Change>): Members {
    if events == [] then start
    else Next(rules, After(rules, start, events[..|events| - 1]), events[|events| - 1])
  }

  /** The members that the target side itself set last. */
  function LastRemoteEdit(start: Members, events: seq<Change>): set<string> {
    if events == [] then start.remote
    else if events[|events| - 1].RemoteEdit? then events[|events| - 1].users
    else LastRemoteEdit(start, events[..|events| - 1])
  }

  /** The members from which the unprotected part of the target comes: those that were local at
      the last successful sync, unless the target side has set its members since. */
  ghost function LastSource(rules: SyncRules, start: Members, events: seq<Change>): set<string> {
    if events == [] then start.remote
    else
      var before := After(rules, start, events[..|events| - 1]);
      match events[|events| - 1]
      case RemoteEdit(users) => users
      case Sync => if AreInLdap(rules, before.local) then before.local else LastSource(rules, start, events[..|events| - 1])
      case LocalEdit(_) => LastSource(rules, start, events[..|events| - 1])
  }

  /** After any edits and syncs the target has the protected members that were last set there,
      and the other members of the last sync or edit. */
  lemma {:induction false} TwoWayMerge(rules: SyncRules, start: Members, events: seq<Change>)
    ensures var remote := After(rules, start, events).remote;
      && ProtectedOf(rules, remote) == ProtectedOf(rules, LastRemoteEdit(start, events))
      && remote - ProtectedOf(rules, remote) ==
         LastSource(rules, start, events) - ProtectedOf(rules, LastSource(rules, start, events))
  {
    if events != [] {
      TwoWayMerge(rules, start, events[..|events| - 1]);
      var before := After(rules, start, events[..|events| - 1]);
      if events[|events| - 1].Sync? {
        MergedParts(rules, before.local, before.remote);
      }
    }
  }

  lemma MergedParts(rules: SyncRules, local: set<string>, remote: set<string>)
    ensures var merged := Merge(rules, local, remote);
      && ProtectedOf(rules, merged) == ProtectedOf(rules, remote)
      && merged - ProtectedOf(rules, merged) == local - ProtectedOf(rules, local)
  {
  }

  /** A sync, after anything that happened before, leaves the unprotected members as they are
      locally and the protected ones as they were on the target, and a second sync changes
      nothing. */
  lemma SyncIsStable(rules: SyncRules, start: Members, events: seq<Change>)
    requires AreInLdap(rules, After(rules, start, events).local)
    ensures var before := After(rules, start, events);
      var synced := After(rules, start, events + [Sync]);
      && synced.local == before.local
      && (forall user :: user in synced.remote <==> user in (if Protected(rules, user) then before.remote else before.local))
      && After(rules, start, events + [Sync, Sync]) == synced
  {
    assert (events + [Sync])[..|events|] == events;
    assert (events + [Sync, Sync])[..|events| + 1] == events + [Sync];
    var before := After(rules, start, events);
    var merged := Merge(rules, before.local, before.remote);
    MergedParts(rules, before.local, before.remote);
    assert Merge(rules, before.local, merged) == merged;
  }
}
