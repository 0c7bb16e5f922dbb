/** What a target holds after all events for it were handled in order. */
module Convergence {
  import opened Options
  import opened Listener
  import opened OldData
  import opened Routing
  import opened UserTarget

  // ---- the events of a run ------------------------------------------------

  /** Every user event for the authority `name` from index `since` on, handled in order from
      an empty target. */
  ghost function TargetAfter(cfg: RoutingConfig, env: Env, log: seq<Logged>, since: nat, name: string): Target {
    if |log| <= since then EMPTY
    else
      var before, last := TargetAfter(cfg, env, log[..|log| - 1], since, name), log[|log| - 1].obj;
      if IsUserTarget(cfg, last, name) then Handle(before, env, last, NoTrouble).target else before
  }

  const EMPTY := Target(map[], 0)

  /** The latest event of a user, if it is not older than `since`. */
  ghost function Latest(log: seq<Logged>, since: nat, id: string): Option<ListenerObject> {
    if |log| <= since then None
    else
      var last := log[|log| - 1].obj;
      if last.IsUser() && last.id == id then Some(last) else Latest(log[..|log| - 1], since, id)
  }

  lemma {:induction false} LatestSince(log: seq<Logged>, since: nat, id: string)
    ensures Latest(log, since, id).Some? ==> Latest(log, 0, id) == Latest(log, since, id)
  {
    if |log| > since {
      LatestSince(log[..|log| - 1], since, id);
    }
  }

  /** The user belongs to the authority: its latest event since then is a change with a
      school mapped there. */
  ghost predicate Belongs(cfg: RoutingConfig, log: seq<Logged>, since: nat, name: string, id: string) {
    && Latest(log, since, id).Some?
    && Latest(log, since, id).value.IsUserChange()
    && SomeMappedTo(cfg.mapping, Latest(log, since, id).value.data.schools, name)
  }

  /** A user that belongs to an authority: the data of its latest event, and the attributes that
      were sent since it came to belong there, each as it was sent last. */
  datatype Member = Member(data: Data, attrs: map<string, string>)

  /** The account is that of the user as of its latest change. */
  ghost predicate AccountOf(account: Account, member: Member)
    requires member.data.User?
  {
    HasIdentity(account, member.data.recordUid, member.data.sourceUid) && account.attrs == member.attrs
  }

  // ---- assumptions --------------------------------------------------------

  predicate SameIdentity(x: ListenerObject, y: ListenerObject) {
    && x.IsUserChange() && y.IsUserChange()
    && x.data.recordUid == y.data.recordUid && x.data.sourceUid == y.data.sourceUid
  }

  /** Every change carries an identity pair that no other user ever has. */
  ghost predicate IdentitiesUnique(log: seq<Logged>) {
    && (forall i :: 0 <= i < |log| && log[i].obj.IsUserChange() ==>
          log[i].obj.data.recordUid != "" && log[i].obj.data.sourceUid != "")
    && (forall i, j :: 0 <= i < |log| && 0 <= j < |log| && SameIdentity(log[i].obj, log[j].obj) ==>
          log[i].obj.id == log[j].obj.id)
  }

  /** The schools on the target are those mapped to its authority. */
  ghost predicate SchoolsAgree(cfg: RoutingConfig, env: Env, name: string) {
    forall school :: school in env.schools <==> school in cfg.mapping && cfg.mapping[school] == name
  }

  ghost predicate Assumed(cfg: RoutingConfig, env: Env, log: seq<Logged>, name: string, now: int) {
    && KelvinActive(cfg)
    && SchoolsAgree(cfg, env, name)
    && Attached(log) && TimesAscend(log, now)
    && KindsAgree(log) && IdentitiesUnique(log)
  }

  // ---- the proof ----------------------------------------------------------

  function AttrsOf(members: map<string, Member>, id: string): map<string, string> {
    if id in members then members[id].attrs else map[]
  }

  /** The users that belong to the authority after one more event. */
  ghost function WithEvent(cfg: RoutingConfig, before: map<string, Member>, obj: ListenerObject, name: string)
    : map<string, Member>
  {
    if !obj.IsUser() then before
    else if obj.IsUserChange() && SomeMappedTo(cfg.mapping, obj.data.schools, name) then
      before[obj.id := Member(obj.data, AttrsOf(before, obj.id) + obj.data.body)]
    else before - {obj.id}
  }

  /** The users that belong to the authority. */
  ghost function Members(cfg: RoutingConfig, log: seq<Logged>, since: nat, name: string): map<string, Member> {
    if |log| <= since then map[]
    else WithEvent(cfg, Members(cfg, log[..|log| - 1], since, name), log[|log| - 1].obj, name)
  }

  lemma {:induction false} MembersBelong(cfg: RoutingConfig, log: seq<Logged>, since: nat, name: string, id: string)
    ensures id in Members(cfg, log, since, name) <==> Belongs(cfg, log, since, name, id)
    ensures id in Members(cfg, log, since, name) ==>
      Members(cfg, log, since, name)[id].data == Latest(log, since, id).value.data
  {
    if |log| > since {
      MembersBelong(cfg, log[..|log| - 1], since, name, id);
    }
  }

  /** The event at `i` is a change of the user, and since then the user always belonged to the
      authority. */
  ghost predicate IsKept(cfg: RoutingConfig, log: seq<Logged>, name: string, id: string, i: nat) {
    && i < |log| && log[i].obj.IsUserChange() && log[i].obj.id == id
    && forall j :: i <= j < |log| && log[j].obj.IsUser() && log[j].obj.id == id ==>
         log[j].obj.IsUserChange() && SomeMappedTo(cfg.mapping, log[j].obj.data.schools, name)
  }

  lemma {:induction false} KeptBelongs(cfg: RoutingConfig, log: seq<Logged>, since: nat, name: string, id: string, i: nat)
    requires since <= i && IsKept(cfg, log, name, id, i)
    ensures id in Members(cfg, log, since, name)
  {
    var n := |log| - 1;
    if i < n && !(log[n].obj.IsUser() && log[n].obj.id == id) {
      assert forall j :: 0 <= j < n ==> log[..n][j] == log[j];
      KeptBelongs(cfg, log[..n], since, name, id, i);
    }
  }

  /** The attributes of a member are those that some event carried after which it always stayed a
      member, and those of its latest event have the values of that event. */
  lemma {:induction false} AttributesAreSent(cfg: RoutingConfig, log: seq<Logged>, since: nat, name: string, id: string)
    requires id in Members(cfg, log, since, name)
    ensures var member := Members(cfg, log, since, name)[id];
      && member.data.User?
      && (forall k :: k in member.attrs <==>
            exists i :: since <= i && IsKept(cfg, log, name, id, i) && k in log[i].obj.data.body)
      && (forall k :: k in member.data.body ==> k in member.attrs && member.attrs[k] == member.data.body[k])
  {
    var n := |log| - 1;
    var init, last := log[..n], log[n].obj;
    var before := Members(cfg, init, since, name);
    forall i: nat | since <= i ensures i < n ==> (IsKept(cfg, log, name, id, i) <==>
      IsKept(cfg, init, name, id, i) && (last.IsUser() && last.id == id ==>
        last.IsUserChange() && SomeMappedTo(cfg.mapping, last.data.schools, name)))
    {
      assert forall j :: 0 <= j < n ==> init[j] == log[j];
    }
    if id in before {
      AttributesAreSent(cfg, init, since, name, id);
    }
    forall i: nat | since <= i && IsKept(cfg, init, name, id, i) ensures id in before {
      KeptBelongs(cfg, init, since, name, id, i);
    }
  }

  /** Exactly when a member has no attribute but those of its latest event: if that carries all
      attributes that were sent since the user came to belong there. */
  lemma AttributesAreLatestIff(cfg: RoutingConfig, log: seq<Logged>, since: nat, name: string, id: string)
    requires id in Members(cfg, log, since, name)
    ensures var member := Members(cfg, log, since, name)[id];
      && member.data.User?
      && (member.attrs == member.data.body <==>
            forall i: nat, k :: since <= i && IsKept(cfg, log, name, id, i) && k in log[i].obj.data.body ==>
              k in member.data.body)
  {
    AttributesAreSent(cfg, log, since, name, id);
    var member := Members(cfg, log, since, name)[id];
    if forall i: nat, k :: since <= i && IsKept(cfg, log, name, id, i) && k in log[i].obj.data.body ==> k in member.data.body {
      assert forall k :: k in member.attrs <==> k in member.data.body;
    }
  }

  /** An attribute that the user no longer has stays on the target. */
  lemma AttributeStays(cfg: RoutingConfig, name: string, id: string, uid: string)
    requires cfg.mapping == map["demo" := name]
    ensures var first := AddMod(id, User(["demo"], uid, uid, map["phone" := "1"]), None);
      var second := AddMod(id, User(["demo"], uid, uid, map[]), Some(UserSnapshot(["demo"], uid, uid)));
      var members := Members(cfg, [Logged("1", first, 0), Logged("2", second, 0)], 0, name);
      id in members && members[id].data.body == map[] && members[id].attrs == map["phone" := "1"]
  {
    var first := AddMod(id, User(["demo"], uid, uid, map["phone" := "1"]), None);
    var second := AddMod(id, User(["demo"], uid, uid, map[]), Some(UserSnapshot(["demo"], uid, uid)));
    var log := [Logged("1", first, 0), Logged("2", second, 0)];
    assert "demo" in first.data.schools && Names.Lower("demo") == "demo" && MappedTo(cfg.mapping, "demo", name);
    assert SomeMappedTo(cfg.mapping, first.data.schools, name);
    assert log[..1] == [Logged("1", first, 0)] && log[..1][..0] == [];
    assert AttrsOf(map[], id) + first.data.body == first.data.body == first.data.body + second.data.body;
    assert Members(cfg, log[..1], 0, name) == map[id := Member(first.data, first.data.body)];
  }

  /** Which account belongs to which user. */
  datatype Book = Book(handles: map<string, nat>, owners: map<nat, string>)

  /** The members have one account each, and there are no other accounts. */
  ghost predicate Corresponds(target: Target, members: map<string, Member>, book: Book) {
    && Valid(target)
    && book.owners.Keys == target.accounts.Keys
    && book.handles.Keys == members.Keys
    && (forall id :: id in members ==>
          && members[id].data.User?
          && book.handles[id] in book.owners && book.owners[book.handles[id]] == id
          && AccountOf(target.accounts[book.handles[id]], members[id]))
    && (forall h :: h in book.owners ==> book.owners[h] in book.handles && book.handles[book.owners[h]] == h)
  }

  lemma AssumedOfPrefix(cfg: RoutingConfig, env: Env, log: seq<Logged>, name: string, now: int)
    requires Assumed(cfg, env, log, name, now) && log != []
    ensures Assumed(cfg, env, log[..|log| - 1], name, log[|log| - 1].time)
  {
    var init := log[..|log| - 1];
    forall i | 0 <= i < |init| ensures init[..i] == log[..i] {}
    assert Attached(init);
  }

  lemma {:induction false} LatestIsLogged(log: seq<Logged>, since: nat, id: string) returns (i: nat)
    requires Latest(log, since, id).Some?
    ensures since <= i < |log| && log[i].obj == Latest(log, since, id).value && log[i].obj.id == id && log[i].obj.IsUser()
    ensures forall j :: i < j < |log| ==> !(log[j].obj.IsUser() && log[j].obj.id == id)
  {
    var n := |log| - 1;
    if log[n].obj.IsUser() && log[n].obj.id == id {
      i := n;
    } else {
      i := LatestIsLogged(log[..n], since, id);
    }
  }

  /** What the event after `log` finds in its old data. */
  lemma OldDataOfNext(log: seq<Logged>, now: int, id: string, found: Option<Snapshot>)
    requires TimesAscend(log, now) && KindsAgree(log)
    requires found == Get(DbOf(log), id, now)
    ensures found.Some? ==> exists a :: IsLatestChange(log, id, a) && found.value == SnapshotOf(log[a].obj.data)
    ensures Latest(log, 0, id).Some? && Latest(log, 0, id).value.IsUserChange() ==>
            found == Some(SnapshotOf(Latest(log, 0, id).value.data))
  {
    EntriesAreLatestChanges(log, id);
    if Latest(log, 0, id).Some? && Latest(log, 0, id).value.IsUserChange() {
      var i := LatestIsLogged(log, 0, id);
      assert forall j :: 0 <= j < |log| && log[j].obj.id == log[i].obj.id ==> log[j].obj.IsUser();
      assert IsLatestChange(log, id, i);
      ExistingObjectIsRemembered(log, id, i, now);
    }
  }

  /** Only a user's own account can have an identity pair that the user ever had. */
  lemma OnlyOwnAccount(cfg: RoutingConfig, target: Target, log: seq<Logged>, n: nat, since: nat, name: string,
          book: Book, k: nat)
    requires n <= |log| && k < |log|
    requires Corresponds(target, Members(cfg, log[..n], since, name), book) && IdentitiesUnique(log)
    requires log[k].obj.IsUserChange()
    ensures forall h :: h in Find(target, log[k].obj.data.recordUid, log[k].obj.data.sourceUid) ==>
      book.owners[h] == log[k].obj.id
  {
    forall h | h in Find(target, log[k].obj.data.recordUid, log[k].obj.data.sourceUid)
      ensures book.owners[h] == log[k].obj.id
    {
      var id := book.owners[h];
      MembersBelong(cfg, log[..n], since, name, id);
      var i := LatestIsLogged(log[..n], since, id);
      assert SameIdentity(log[i].obj, log[k].obj);
    }
  }

  /** `obj` is what is looked up for the last event of `log`: the event itself, or the
      removal that its handler makes of it. */
  ghost predicate IsLookedUp(log: seq<Logged>, obj: ListenerObject) {
    && log != [] && obj.IsUser()
    && var last := log[|log| - 1].obj;
    && last.IsUser()
    && (obj == last || (last.IsUserChange() && obj == RemovalOf(last)))
    && (obj.Remove? ==> obj.previous.Some?)
  }

  /** The last event of `log` is looked up under an identity pair that its user had in
      the event at `k`: the one before, if that is where the old data came from. */
  lemma LookupIdentity(cfg: RoutingConfig, env: Env, log: seq<Logged>, name: string, now: int, obj: ListenerObject)
    returns (k: nat)
    requires Assumed(cfg, env, log, name, now) && IsLookedUp(log, obj)
    ensures k < |log| && log[k].obj.IsUserChange() && log[k].obj.id == obj.id
    ensures SearchParams(env, obj) == Params(log[k].obj.data.recordUid, log[k].obj.data.sourceUid)
    ensures var latest := Latest(log[..|log| - 1], 0, obj.id);
      latest.Some? && latest.value.IsUserChange() ==> SnapshotOf(latest.value.data) == SnapshotOf(log[k].obj.data)
  {
    var n := |log| - 1;
    var init, last := log[..n], log[n].obj;
    AssumedOfPrefix(cfg, env, log, name, now);
    OldDataOfNext(init, log[n].time, obj.id, last.previous);
    if last.previous.Some? {
      var a :| IsLatestChange(init, obj.id, a) && last.previous.value == SnapshotOf(init[a].obj.data);
      assert log[a].obj.IsUser() == log[n].obj.IsUser();
      assert init[a] == log[a] && log[a].obj.IsUserChange();
      k := a;
    } else {
      k := n;
    }
  }

  /** The search for the next event of a user finds its account if there is one. */
  lemma SearchFindsAccount(cfg: RoutingConfig, env: Env, target: Target, log: seq<Logged>, since: nat,
                           name: string, now: int, book: Book, obj: ListenerObject)
    requires Assumed(cfg, env, log, name, now) && IsLookedUp(log, obj)
    requires Corresponds(target, Members(cfg, log[..|log| - 1], since, name), book)
    ensures SearchFor(target, env, obj) == if obj.id in book.handles then Found(book.handles[obj.id]) else Absent
  {
    var k := LookupIdentity(cfg, env, log, name, now, obj);
    var data := log[k].obj.data;
    OnlyOwnAccount(cfg, target, log, |log| - 1, since, name, book, k);
    MembersBelong(cfg, log[..|log| - 1], since, name, obj.id);
    LatestSince(log[..|log| - 1], since, obj.id);
    if obj.id in book.handles {
      assert Find(target, data.recordUid, data.sourceUid) == {book.handles[obj.id]};
    } else {
      assert Find(target, data.recordUid, data.sourceUid) == {};
    }
  }

  /** A user that belongs to the authority is not overlooked by routing. */
  lemma MemberIsRouted(cfg: RoutingConfig, env: Env, log: seq<Logged>, since: nat, name: string, now: int)
    requires log != [] && Assumed(cfg, env, log, name, now)
    requires log[|log| - 1].obj.IsUser() && log[|log| - 1].obj.id in Members(cfg, log[..|log| - 1], since, name)
    ensures IsUserTarget(cfg, log[|log| - 1].obj, name)
  {
    var n := |log| - 1;
    AssumedOfPrefix(cfg, env, log, name, now);
    MembersBelong(cfg, log[..n], since, name, log[n].obj.id);
    LatestSince(log[..n], since, log[n].obj.id);
    OldDataOfNext(log[..n], log[n].time, log[n].obj.id, log[n].obj.previous);
    assert OldSchools(log[n].obj) == Latest(log[..n], 0, log[n].obj.id).value.data.schools;
  }

  lemma HasSchoolsIsMapped(cfg: RoutingConfig, env: Env, obj: ListenerObject, name: string)
    requires obj.IsUserChange() && SchoolsAgree(cfg, env, name)
    ensures HasSchools(env, obj) <==> SomeMappedTo(cfg.mapping, obj.data.schools, name)
  {
    if HasSchools(env, obj) {
      var school :| school in obj.data.schools && Names.Lower(school) in env.schools;
      assert MappedTo(cfg.mapping, school, name);
    }
  }

  /** The event that gives a user the account `h`, or keeps it there. */
  lemma StepStored(before: Target, after: Target, members: map<string, Member>, book: Book,
                   obj: ListenerObject, h: nat, member: Member)
    requires Corresponds(before, members, book) && Valid(after)
    requires if obj.id in members then h == book.handles[obj.id] else h !in before.accounts
    requires after.accounts.Keys == before.accounts.Keys + {h}
    requires forall g :: g in before.accounts && g != h ==> after.accounts[g] == before.accounts[g]
    requires member.data.User? && AccountOf(after.accounts[h], member)
    ensures Corresponds(after, members[obj.id := member], Book(book.handles[obj.id := h], book.owners[h := obj.id]))
  {
    forall id | id in members && id != obj.id
      ensures book.handles[id] != h && AccountOf(after.accounts[book.handles[id]], members[id])
    {
      assert book.owners[book.handles[id]] == id;
    }
  }

  /** The event after which a user has no account. */
  lemma StepDropped(before: Target, after: Target, members: map<string, Member>, book: Book, id: string)
    returns (book': Book)
    requires Corresponds(before, members, book)
    requires after == before.(accounts := if id in members then before.accounts - {book.handles[id]} else before.accounts)
    ensures Corresponds(after, members - {id}, book')
  {
    book' := if id in members then Book(book.handles - {id}, book.owners - {book.handles[id]}) else book;
    assert id !in members ==> members - {id} == members;
  }

  /** The account that a change is stored in. */
  lemma StoredAccount(target: Target, env: Env, obj: ListenerObject, h: nat)
    requires Valid(target) && obj.IsUserChange() && HasSchools(env, obj)
    requires obj.data.recordUid != "" && obj.data.sourceUid != ""
    requires SearchFor(target, env, obj) == if h in target.accounts then Found(h) else Absent
    requires h in target.accounts || h == target.next
    ensures var after := Handle(target, env, obj, NoTrouble).target;
      && Valid(after) && after.accounts.Keys == target.accounts.Keys + {h}
      && (forall g :: g in target.accounts && g != h ==> after.accounts[g] == target.accounts[g])
      && HasIdentity(after.accounts[h], obj.data.recordUid, obj.data.sourceUid)
      && after.accounts[h].attrs == (if h in target.accounts then target.accounts[h].attrs else map[]) + obj.data.body
  {
    assert map[] + obj.data.body == obj.data.body;
  }

  /** A change that is stored. */
  lemma StoreConverges(cfg: RoutingConfig, env: Env, log: seq<Logged>, since: nat, name: string, now: int, book: Book)
    returns (book': Book)
    requires |log| > since && Assumed(cfg, env, log, name, now)
    requires Corresponds(TargetAfter(cfg, env, log[..|log| - 1], since, name),
                         Members(cfg, log[..|log| - 1], since, name), book)
    requires var last := log[|log| - 1].obj; last.IsUserChange() && IsUserTarget(cfg, last, name) && HasSchools(env, last)
    ensures Corresponds(TargetAfter(cfg, env, log, since, name), Members(cfg, log, since, name), book')
  {
    var init, last := log[..|log| - 1], log[|log| - 1].obj;
    var members, target := Members(cfg, init, since, name), TargetAfter(cfg, env, init, since, name);
    HasSchoolsIsMapped(cfg, env, last, name);
    SearchFindsAccount(cfg, env, target, log, since, name, now, book, last);
    var h := if last.id in members then book.handles[last.id] else target.next;
    StoredAccount(target, env, last, h);
    var member := Member(last.data, AttrsOf(members, last.id) + last.data.body);
    StepStored(target, TargetAfter(cfg, env, log, since, name), members, book, last, h, member);
    book' := Book(book.handles[last.id := h], book.owners[h := last.id]);
  }

  /** A removal, or a change that is handled as one. */
  lemma RemoveConverges(cfg: RoutingConfig, env: Env, log: seq<Logged>, since: nat, name: string, now: int, book: Book)
    returns (book': Book)
    requires |log| > since && Assumed(cfg, env, log, name, now)
    requires Corresponds(TargetAfter(cfg, env, log[..|log| - 1], since, name),
                         Members(cfg, log[..|log| - 1], since, name), book)
    requires var last := log[|log| - 1].obj;
      last.IsUser() && IsUserTarget(cfg, last, name) && (last.IsUserChange() ==> !HasSchools(env, last))
    ensures Corresponds(TargetAfter(cfg, env, log, since, name), Members(cfg, log, since, name), book')
  {
    var init, last := log[..|log| - 1], log[|log| - 1].obj;
    var members, target := Members(cfg, init, since, name), TargetAfter(cfg, env, init, since, name);
    if last.IsUserChange() {
      HasSchoolsIsMapped(cfg, env, last, name);
    }
    var removal := if last.IsUserChange() then RemovalOf(last) else last;
    SearchFindsAccount(cfg, env, target, log, since, name, now, book, removal);
    book' := StepDropped(target, TargetAfter(cfg, env, log, since, name), members, book, last.id);
  }

  /** Handling one more event keeps the correspondence. */
  lemma StepConverges(cfg: RoutingConfig, env: Env, log: seq<Logged>, since: nat, name: string, now: int, book: Book)
    returns (book': Book)
    requires |log| > since && Assumed(cfg, env, log, name, now)
    requires Corresponds(TargetAfter(cfg, env, log[..|log| - 1], since, name),
                         Members(cfg, log[..|log| - 1], since, name), book)
    ensures Corresponds(TargetAfter(cfg, env, log, since, name), Members(cfg, log, since, name), book')
  {
    var init, last := log[..|log| - 1], log[|log| - 1].obj;
    if !last.IsUser() {
      book' := book;
    } else if !IsUserTarget(cfg, last, name) {
      if last.id in Members(cfg, init, since, name) {
        MemberIsRouted(cfg, env, log, since, name, now);
        assert false;
      }
      book' := StepDropped(TargetAfter(cfg, env, init, since, name), TargetAfter(cfg, env, log, since, name),
                           Members(cfg, init, since, name), book, last.id);
    } else if last.IsUserChange() && HasSchools(env, last) {
      book' := StoreConverges(cfg, env, log, since, name, now, book);
    } else {
      book' := RemoveConverges(cfg, env, log, since, name, now, book);
    }
  }

  lemma {:induction false} Converges(cfg: RoutingConfig, env: Env, log: seq<Logged>, since: nat, name: string, now: int)
    returns (book: Book)
    requires Assumed(cfg, env, log, name, now)
    ensures Corresponds(TargetAfter(cfg, env, log, since, name), Members(cfg, log, since, name), book)
    decreases |log|
  {
    if |log| <= since {
      book := Book(map[], map[]);
    } else {
      AssumedOfPrefix(cfg, env, log, name, now);
      var before := Converges(cfg, env, log[..|log| - 1], since, name, log[|log| - 1].time);
      book := StepConverges(cfg, env, log, since, name, now, before);
    }
  }
}
