/** What the pipeline guarantees in every reachable state, for every interleaving of
    arrivals, preprocessing, distribution and handling. */
module PipelineTheorems {
  import opened Options
  import opened Listener
  import opened OldData
  import opened Routing
  import opened UserTarget
  import opened Convergence
  import opened Names
  import opened Directories
  import opened OutQueues
  import opened Fifo
  import opened Pipeline
  import opened PipelineInvariant

  // ---- what arrives is what is logged -------------------------------------

  /** The arrivals that can be loaded. */
  ghost function Accepted(arrived: seq<Arrival>): seq<Arrival> {
    if arrived == [] then []
    else
      var last := arrived[|arrived| - 1];
      Accepted(arrived[..|arrived| - 1]) + if last.content.Json? then [last] else []
  }

  /** A logged event as it arrived, without its `old_data`. */
  ghost function Bare(e: Logged): Arrival {
    Arrival(e.stem, Json(match e.obj
                         case AddMod(id, data, _) => AddMod(id, data, None)
                         case Remove(id, isUser, ou, _) => Remove(id, isUser, ou, None)
                         case Other(id, udmType) => e.obj))
  }

  ghost function BareLog(log: seq<Logged>): seq<Arrival> {
    seq(|log|, i requires 0 <= i < |log| => Bare(log[i]))
  }

  /** The log is the loadable arrivals in order of arrival: preprocessing neither loses nor
      reorders nor changes an event, except for its `old_data`. */
  lemma {:induction false} LogIsAccepted(actions: seq<Action>, s: State)
    requires Reaches(actions, s)
    ensures s.taken <= |s.arrived|
    ensures BareLog(s.log) == Accepted(s.arrived[..s.taken])
  {
    if actions != [] {
      var n := |actions| - 1;
      var before: State :| Reaches(actions[..n], before) && Enabled(before, actions[n])
        && s == Apply(before, actions[n]);
      LogIsAccepted(actions[..n], before);
      Reachable(actions[..n], before, "");
      if actions[n].PreprocessNext? {
        TakingKeepsAccepted(before, actions[n].passwords);
      } else {
        OthersKeepAccepted(before, actions[n]);
      }
    }
  }

  lemma OthersKeepAccepted(s: State, a: Action)
    requires Enabled(s, a) && !a.PreprocessNext? && s.taken <= |s.arrived|
    ensures var s' := Apply(s, a);
      s'.log == s.log && s'.taken == s.taken && s.arrived <= s'.arrived && s'.arrived[..s.taken] == s.arrived[..s.taken]
  {
  }

  lemma TakingKeepsAccepted(s: State, passwords: bool)
    requires InInv(s) && Enabled(s, PreprocessNext(passwords))
    requires BareLog(s.log) == Accepted(s.arrived[..s.taken])
    ensures var s' := Apply(s, PreprocessNext(passwords));
      s'.taken <= |s'.arrived| && BareLog(s'.log) == Accepted(s'.arrived[..s'.taken])
  {
    NextNew(s);
    match s.arrived[s.taken].content
    case Garbage(_) =>
      GarbageIs(s, passwords);
      AcceptedOneMore(s.arrived, s.taken);
    case Json(obj) =>
      PreprocessIs(s, passwords, obj);
      AcceptedEvent(s, obj);
  }

  lemma AcceptedEvent(s: State, obj: ListenerObject)
    requires s.taken < |s.arrived| && IsUnprocessed(s.arrived[s.taken]) && s.arrived[s.taken].content == Json(obj)
    requires BareLog(s.log) == Accepted(s.arrived[..s.taken])
    ensures BareLog(s.log + [NextLogged(s, obj)]) == Accepted(s.arrived[..s.taken + 1])
  {
    AcceptedOneMore(s.arrived, s.taken);
    BareOneMore(s.log, NextLogged(s, obj));
    BareOfPreprocessed(s.arrived[s.taken], s.db, obj, s.now);
  }

  lemma AcceptedOneMore(arrived: seq<Arrival>, n: nat)
    requires n < |arrived|
    ensures Accepted(arrived[..n + 1]) == Accepted(arrived[..n]) + if arrived[n].content.Json? then [arrived[n]] else []
  {
    assert arrived[..n + 1][..n] == arrived[..n];
  }

  lemma BareOneMore(log: seq<Logged>, e: Logged)
    ensures BareLog(log + [e]) == BareLog(log) + [Bare(e)]
  {
  }

  lemma BareOfPreprocessed(a: Arrival, db: Db, obj: ListenerObject, now: int)
    requires IsUnprocessed(a) && a.content == Json(obj)
    ensures Bare(Logged(a.stem, WithOld(db, obj, now), now)) == a
  {
  }

  // ---- old data -----------------------------------------------------------

  /** The `old_data` of every event of a run is the object's history. */
  lemma {:induction false} OldDataIsHistory(actions: seq<Action>, s: State, i: nat)
    requires Reaches(actions, s) && i < |s.log| && !s.log[i].obj.Other?
    ensures IsHistory(s.log[..i], s.log[i].obj.id, s.log[i].time, s.log[i].obj.previous)
  {
    Reachable(actions, s, "");
    AttachedIsHistory(s.log, i);
  }

  // ---- order and completeness ---------------------------------------------

  /** Which names may follow which: larger ones whose order the rename keeps, among them all
      larger names that do not continue the earlier one. */
  lemma PrecedesIff(s: string, t: string)
    ensures IsJson(NewName(s)) && IsJson(NewName(t))
    ensures Precedes(s, t) <==> s != t && Less(NewName(s), NewName(t)) && RenameKeepsOrder(NewName(s), NewName(t))
    ensures Less(s, t) && !(s <= t) ==> Precedes(s, t)
  {
    StemOfAppended(s);
    StemOfAppended(t);
    if s == t {
      LessIrreflexive(NewName(s));
    } else {
      RenameOrder(NewName(s), NewName(t));
    }
    if Less(s, t) && !(s <= t) {
      if t <= s {
        PrefixIsNotGreater(s, t);
        assert false;
      }
      ApartDecides(s, t, READY, READY);
      ApartDecides(s, t, ".json", ".json");
    }
  }

  lemma {:induction false} PrefixIsNotGreater(s: string, t: string)
    requires t <= s
    ensures !Less(s, t)
  {
    if t != "" {
      PrefixIsNotGreater(s[1..], t[1..]);
    }
  }

  /** The files of an out queue, after those it handled, are exactly the events sent to it while
      it is registered, by the routing at the time of each: for each type in order of arrival,
      without loss and without repetition. */
  lemma ExactlyOnceInOrder(actions: seq<Action>, s: State, q: string, rank: int)
    requires Reaches(actions, s) && q in s.tasks
    ensures q in s.world.outs && s.tasks[q].since <= |s.sent| && AreSent(s.sent, s.log)
    ensures s.world.outs[q].files == FilesOf(s.tasks[q].pending)
    ensures OfRank(s.tasks[q].handled, rank) + OfRank(s.tasks[q].pending, rank) == OfRank(RoutedTo(s, q), rank)
  {
    Reachable(actions, s, q);
  }

  /** The event was sent to the queue after it was registered. */
  ghost predicate IsSentFor(sent: seq<Sent>, since: nat, q: string, i: int, e: Event) {
    since <= i < |sent| && sent[i].event == e && IsTarget(sent[i].routing, e.obj, q)
  }

  /** What a queue has handled and what waits in it are exactly the events sent to it; those of
      one type stand in the order of their names, each once. */
  lemma {:induction false} DeliveredExactlyOnce(actions: seq<Action>, s: State, q: string)
    requires Reaches(actions, s) && q in s.tasks
    ensures var all := s.tasks[q].handled + s.tasks[q].pending;
      && (forall e :: e in all <==> exists i :: IsSentFor(s.sent, s.tasks[q].since, q, i, e))
      && (forall k, l :: 0 <= k < l < |all| && SameType(all[k].obj, all[l].obj) ==> Less(all[k].name, all[l].name))
  {
    var routed, all := RoutedTo(s, q), s.tasks[q].handled + s.tasks[q].pending;
    AllOfRank(actions, s, q);
    TypesAscend(all, routed);
    forall e ensures e in routed <==> exists i :: IsSentFor(s.sent, s.tasks[q].since, q, i, e) {
      InRouted(s.sent, s.tasks[q].since, q, e);
    }
  }

  lemma AllOfRank(actions: seq<Action>, s: State, q: string)
    requires Reaches(actions, s) && q in s.tasks
    ensures NamesAscend(RoutedTo(s, q))
    ensures forall rank :: OfRank(s.tasks[q].handled + s.tasks[q].pending, rank) == OfRank(RoutedTo(s, q), rank)
  {
    Reachable(actions, s, q);
    InInvSentAscends(s);
    RoutedAscends(s.sent, s.tasks[q].since, q);
    forall rank ensures OfRank(s.tasks[q].handled + s.tasks[q].pending, rank) == OfRank(RoutedTo(s, q), rank) {
      OfRankOfBoth(s.tasks[q].handled, s.tasks[q].pending, rank);
    }
  }

  /** Events whose types each are as in an ascending sequence. */
  lemma {:induction false} TypesAscend(all: seq<Event>, routed: seq<Event>)
    requires NamesAscend(routed) && forall rank :: OfRank(all, rank) == OfRank(routed, rank)
    ensures forall e :: e in all <==> e in routed
    ensures forall k, l :: 0 <= k < l < |all| && SameType(all[k].obj, all[l].obj) ==> Less(all[k].name, all[l].name)
  {
    forall e ensures e in all <==> e in routed {
      OfRankMembers(all, e.obj.Rank());
      OfRankMembers(routed, e.obj.Rank());
    }
    forall k, l | 0 <= k < l < |all| && SameType(all[k].obj, all[l].obj) ensures Less(all[k].name, all[l].name) {
      RankIsTypeOrder(all[k].obj, all[l].obj);
      var a, b := OfRankKeepsOrder(all, all[k].obj.Rank(), k, l);
      OfRankAscends(routed, all[k].obj.Rank());
    }
  }

  lemma {:induction false} InRouted(sent: seq<Sent>, since: nat, q: string, e: Event)
    ensures e in Routed(sent, since, q) <==> exists i :: IsSentFor(sent, since, q, i, e)
  {
    if |sent| > since {
      var n := |sent| - 1;
      InRouted(sent[..n], since, q, e);
      assert Load(Json(sent[n].event.obj)) == Some(sent[n].event.obj);
      assert IsSentFor(sent, since, q, n, sent[n].event) <==> IsSentTo(sent[n], q);
      assert forall i :: since <= i < n ==> (IsSentFor(sent[..n], since, q, i, e) <==> IsSentFor(sent, since, q, i, e));
      assert e in Routed(sent, since, q) <==> e in Routed(sent[..n], since, q) || (e == sent[n].event && IsSentTo(sent[n], q));
    }
  }

  /** An event that left the in queue is handled by an out queue, or waits in it, if and only if
      it is meant for it by the routing at that time. */
  lemma {:induction false} EventIsDelivered(actions: seq<Action>, s: State, q: string, i: nat)
    requires Reaches(actions, s) && q in s.tasks && s.tasks[q].since <= i < |s.sent|
    ensures s.sent[i].event in s.tasks[q].handled || s.sent[i].event in s.tasks[q].pending <==>
            IsTarget(s.sent[i].routing, s.sent[i].event.obj, q)
  {
    DeliveredExactlyOnce(actions, s, q);
    Reachable(actions, s, q);
    InInvSentAscends(s);
    var e := s.sent[i].event;
    assert e in s.tasks[q].handled + s.tasks[q].pending <==> exists j :: IsSentFor(s.sent, s.tasks[q].since, q, j, e);
    if j :| IsSentFor(s.sent, s.tasks[q].since, q, j, e) {
      LessIrreflexive(e.name);
      assert j == i;
    }
    assert IsTarget(s.sent[i].routing, e.obj, q) ==> IsSentFor(s.sent, s.tasks[q].since, q, i, e);
  }

  /** The change or removal of a class reaches the authority of its school. */
  lemma ClassIsDelivered(actions: seq<Action>, s: State, q: string, i: nat, ou: string)
    requires Reaches(actions, s) && q in s.tasks && s.tasks[q].since <= i < |s.sent|
    requires match s.sent[i].event.obj
             case AddMod(_, Group(Some(school), _), _) => school == ou
             case Remove(_, false, Some(school), _) => school == ou
             case _ => false
    ensures s.sent[i].event in s.tasks[q].handled || s.sent[i].event in s.tasks[q].pending <==>
            IsClassTarget(s.sent[i].routing, ou, q)
  {
    EventIsDelivered(actions, s, q, i);
    TargetsAre(s.sent[i].routing, s.sent[i].event.obj, q);
  }

  /** Every out queue handles the events of one type in order of arrival. */
  lemma HandledInOrderOfArrival(actions: seq<Action>, s: State, q: string, i: nat, j: nat) returns (k: nat, l: nat)
    requires Reaches(actions, s) && q in s.tasks && i < j < |s.tasks[q].handled|
    requires SameType(s.tasks[q].handled[i].obj, s.tasks[q].handled[j].obj)
    ensures k < l < |s.arrived|
    ensures s.tasks[q].handled[i].name == ReadyOf(s.arrived[k].stem)
    ensures s.tasks[q].handled[j].name == ReadyOf(s.arrived[l].stem)
  {
    var handled := s.tasks[q].handled;
    var rank := handled[i].obj.Rank();
    RankIsTypeOrder(handled[i].obj, handled[j].obj);
    ExactlyOnceInOrder(actions, s, q, rank);
    Reachable(actions, s, q);
    InInvSentAscends(s);
    RoutedAscends(s.sent, s.tasks[q].since, q);
    var a, b := OfRankKeepsOrder(handled, rank, i, j);
    HandledIsRouted(RoutedTo(s, q), OfRank(handled, rank), rank, a, b);
    k := ArrivalOf(s, q, handled[i]);
    l := ArrivalOf(s, q, handled[j]);
    if l <= k {
      LaterIsGreater(s.arrived, l, k);
      NotBothWays(handled[i].name, handled[j].name);
      assert false;
    }
  }

  lemma HandledIsRouted(routed: seq<Event>, handled: seq<Event>, rank: int, i: nat, j: nat)
    requires NamesAscend(routed) && handled <= OfRank(routed, rank) && i < j < |handled|
    ensures handled[i] in routed && handled[j] in routed && Less(handled[i].name, handled[j].name)
  {
    OfRankAscends(routed, rank);
    OfRankMembers(routed, rank);
    assert OfRank(routed, rank)[i] in routed && OfRank(routed, rank)[j] in routed;
  }

  lemma NotBothWays(a: string, b: string)
    requires Less(a, b)
    ensures a != b && !Less(b, a)
  {
    LessIrreflexive(a);
    Flip(a, b);
  }

  /** An event of a queue was sent after the queue was registered, and is one of the log. */
  lemma SentAt(s: State, q: string, e: Event) returns (i: nat)
    requires InInv(s) && q in s.tasks && e in RoutedTo(s, q)
    ensures s.tasks[q].since <= i < |s.sent| && i < |s.log| && e == EventOf(s.log[i]) && IsSentTo(s.sent[i], q)
  {
    InInvSentAscends(s);
    RoutedAscends(s.sent, s.tasks[q].since, q);
    i :| s.tasks[q].since <= i < |s.sent| && s.sent[i].event == e && IsSentTo(s.sent[i], q);
  }

  lemma ArrivalOf(s: State, q: string, e: Event) returns (k: nat)
    requires InInv(s) && q in s.tasks && e in RoutedTo(s, q)
    ensures k < |s.arrived| && e.name == ReadyOf(s.arrived[k].stem)
  {
    var i := SentAt(s, q, e);
    assert IsTaken(s.log[i].stem, s.arrived, s.taken);
    k :| 0 <= k < s.taken && k < |s.arrived| && s.arrived[k].stem == s.log[i].stem;
  }

  lemma LaterIsGreater(arrived: seq<Arrival>, l: nat, k: nat)
    requires StemsAscend(arrived)
    requires l <= k < |arrived|
    ensures l == k || Less(ReadyOf(arrived[l].stem), ReadyOf(arrived[k].stem))
  {
    if l < k {
      assert Precedes(arrived[l].stem, arrived[k].stem);
    }
  }

  /** A scan task never ends because a file cannot be loaded. */
  lemma {:induction false} ScanNeverRaises(actions: seq<Action>, s: State, q: string)
    requires Reaches(actions, s) && q in s.tasks
    ensures q in s.world.outs && Loadable(s.world.outs[q])
    ensures Enabled(s, ListOut(q)) ==> Apply(s, ListOut(q)).tasks[q].running
  {
    ReachableOut(actions, s, q);
    ListedOut(RoutedTo(s, q), s.world.outs[q], s.tasks[q]);
  }

  /** Every removal of a user that is, or was, in an out queue has the user's `old_data`. */
  lemma {:induction false} RemovalsHaveOldData(actions: seq<Action>, s: State, q: string, e: Event)
    requires Reaches(actions, s) && q in s.tasks && (e in s.tasks[q].pending || e in s.tasks[q].handled)
    requires e.obj.Remove? && e.obj.IsUser()
    ensures e.obj.previous.Some? && e.obj.previous.value.UserSnapshot?
  {
    Reachable(actions, s, q);
    var rank := e.obj.Rank();
    OfRankMembers(s.tasks[q].handled, rank);
    OfRankMembers(RoutedTo(s, q), rank);
    assert OfRank(s.tasks[q].handled, rank) + OfRank(s.tasks[q].pending, rank) == OfRank(RoutedTo(s, q), rank);
    assert e in RoutedTo(s, q);
    var i := SentAt(s, q, e);
    SentRemovalHasOldData(s.sent[i].routing, e.obj, q);
  }

  /** A pass plans to handle the user files of its listing; the group files if there are no user
      files; and files of other types only if there is neither. */
  lemma PassHandlesFirstType(actions: seq<Action>, s: State, q: string)
    requires Reaches(actions, s) && Enabled(s, ListOut(q))
    ensures AreFirstType(s.world.outs[q], Listing(s, q).tasks[q].plan)
  {
    ScanNeverRaises(actions, s, q);
    LowestIsOfFirstType(s.world.outs[q]);
  }

  // ---- convergence --------------------------------------------------------

  lemma {:induction false} ReplayUsers(env: Env, start: Target, events: seq<Event>)
    ensures Replay(env, start, OfRank(events, 0)) == Replay(env, start, events)
  {
    if events != [] {
      var n := |events| - 1;
      ReplayUsers(env, start, events[..n]);
      if events[n].obj.Rank() == 0 {
        ReplayOneMore(env, start, OfRank(events[..n], 0), events[n]);
      } else {
        assert OfRank(events, 0) == OfRank(events[..n], 0);
        OnlyUsersMatter(Replay(env, start, events[..n]), env, events[n].obj);
      }
    }
  }

  lemma OnlyUsersMatter(target: Target, env: Env, obj: ListenerObject)
    requires obj.Rank() != 0
    ensures Handle(target, env, obj, NoTrouble).target == target
  {
  }

  lemma UserTargets(cfg: RoutingConfig, obj: ListenerObject, q: string)
    requires obj.IsUser()
    ensures q in TargetsOf(cfg)(Json(obj)) <==> IsUserTarget(cfg, obj, q)
  {
    assert Load(Json(obj)) == Some(obj);
  }

  /** Users were routed by this mapping since then, though authorities may have come and gone. */
  ghost predicate UsersRoutedBy(cfg: RoutingConfig, sent: seq<Sent>, since: nat) {
    KelvinActive(cfg) && forall i :: since <= i < |sent| ==> RoutesUsersBy(cfg, sent[i].routing)
  }

  ghost predicate RoutesUsersBy(cfg: RoutingConfig, routing: RoutingConfig) {
    routing.mapping == cfg.mapping && KelvinActive(routing)
  }

  lemma {:induction false} RoutedReplay(cfg: RoutingConfig, env: Env, sent: seq<Sent>, log: seq<Logged>, since: nat, q: string)
    requires |sent| == |log| && AreSent(sent, log) && UsersRoutedBy(cfg, sent, since)
    ensures Replay(env, EMPTY, OfRank(Routed(sent, since, q), 0)) == TargetAfter(cfg, env, log, since, q)
  {
    if |log| > since {
      var n := |log| - 1;
      RoutedReplay(cfg, env, sent[..n], log[..n], since, q);
      RoutedStep(cfg, env, Routed(sent[..n], since, q), sent[n], q);
    }
  }

  lemma RoutedStep(cfg: RoutingConfig, env: Env, routed: seq<Event>, x: Sent, q: string)
    requires KelvinActive(cfg) && RoutesUsersBy(cfg, x.routing)
    ensures var events := routed + if IsSentTo(x, q) then [x.event] else [];
      Replay(env, EMPTY, OfRank(events, 0)) ==
      if IsUserTarget(cfg, x.event.obj, q)
      then Handle(Replay(env, EMPTY, OfRank(routed, 0)), env, x.event.obj, NoTrouble).target
      else Replay(env, EMPTY, OfRank(routed, 0))
  {
    Append(routed, x.event);
    assert routed + [] == routed;
    if x.event.obj.IsUser() {
      UserTargets(x.routing, x.event.obj, q);
      ReplayOneMore(env, EMPTY, OfRank(routed, 0), x.event);
    } else {
      assert OfRank(routed, 0) + [] == OfRank(routed, 0);
    }
  }

  /** No user file waits in the queue. */
  ghost predicate UsersDrained(dir: Dir) {
    forall name :: name in dir.files ==> RankOf(dir.files[name]) != 0
  }

  /** The queue was registered with an empty target, holds no user file, and nothing failed. */
  ghost predicate IsDrained(s: State, q: string) {
    && q in s.tasks && q in s.world.outs
    && s.tasks[q].start == EMPTY && s.tasks[q].clean && UsersDrained(s.world.outs[q])
  }

  /** A drained queue without failures has brought its target to the state that handling
      all events sent to it in order yields. */
  lemma DrainedTarget(cfg: RoutingConfig, actions: seq<Action>, s: State, q: string)
    requires Reaches(actions, s) && IsDrained(s, q)
    requires UsersRoutedBy(cfg, s.sent, s.tasks[q].since)
    ensures s.tasks[q].since <= |s.sent| <= |s.log|
    ensures s.tasks[q].target == TargetAfter(cfg, s.tasks[q].env, s.log[..|s.sent|], s.tasks[q].since, q)
  {
    Reachable(actions, s, q);
    var task, routed := s.tasks[q], RoutedTo(s, q);
    FilesOfAre(task.pending);
    forall e | e in task.pending ensures e.obj.Rank() != 0 {
      var i :| 0 <= i < |task.pending| && task.pending[i] == e;
      assert RankOf(s.world.outs[q].files[e.name]) == e.obj.Rank();
    }
    OfRankIsEmpty(task.pending, 0);
    assert OfRank(task.handled, 0) + OfRank(task.pending, 0) == OfRank(routed, 0);
    assert OfRank(task.handled, 0) == OfRank(routed, 0);
    ReplayUsers(task.env, EMPTY, task.handled);
    RoutedReplay(cfg, task.env, s.sent, s.log[..|s.sent|], task.since, q);
  }

  ghost predicate IsAccountOf(account: Account, members: map<string, Member>, id: string) {
    id in members && members[id].data.User? && AccountOf(account, members[id])
  }

  ghost predicate HasAccount(target: Target, members: map<string, Member>, id: string) {
    exists h :: h in target.accounts && IsAccountOf(target.accounts[h], members, id)
  }

  ghost predicate HasOwner(target: Target, members: map<string, Member>, h: nat)
    requires h in target.accounts
  {
    exists id :: IsAccountOf(target.accounts[h], members, id)
  }

  ghost predicate NoTwins(target: Target) {
    forall g, h :: g in target.accounts && h in target.accounts && g != h ==>
      !HasIdentity(target.accounts[g], target.accounts[h].recordUid, target.accounts[h].sourceUid)
  }

  /** The target has one account for each member, under the identity pair and with the
      attributes of the member's latest event, and no other accounts. */
  ghost predicate IsConverged(target: Target, members: map<string, Member>) {
    && (forall id {:trigger HasAccount(target, members, id)} :: id in members ==> HasAccount(target, members, id))
    && (forall h {:trigger HasOwner(target, members, h)} :: h in target.accounts ==> HasOwner(target, members, h))
    && NoTwins(target)
  }

  lemma OwnersDiffer(cfg: RoutingConfig, target: Target, log: seq<Logged>, since: nat, q: string, book: Book, g: nat, h: nat)
    requires Corresponds(target, Members(cfg, log, since, q), book) && IdentitiesUnique(log)
    requires g in target.accounts && h in target.accounts && g != h
    ensures !HasIdentity(target.accounts[g], target.accounts[h].recordUid, target.accounts[h].sourceUid)
  {
    var x, y := book.owners[g], book.owners[h];
    MembersBelong(cfg, log, since, q, x);
    MembersBelong(cfg, log, since, q, y);
    var i := LatestIsLogged(log, since, x);
    var j := LatestIsLogged(log, since, y);
    assert SameIdentity(log[i].obj, log[j].obj) ==> x == y;
  }

  lemma MemberHasAccount(target: Target, members: map<string, Member>, book: Book, id: string)
    requires Corresponds(target, members, book) && id in members
    ensures HasAccount(target, members, id)
  {
    assert IsAccountOf(target.accounts[book.handles[id]], members, id);
  }

  lemma AccountHasOwner(target: Target, members: map<string, Member>, book: Book, h: nat)
    requires Corresponds(target, members, book) && h in target.accounts
    ensures HasOwner(target, members, h)
  {
    assert IsAccountOf(target.accounts[h], members, book.owners[h]);
  }

  lemma NoTwinsIn(cfg: RoutingConfig, target: Target, log: seq<Logged>, since: nat, q: string, book: Book)
    requires Corresponds(target, Members(cfg, log, since, q), book) && IdentitiesUnique(log)
    ensures NoTwins(target)
  {
    forall g, h | g in target.accounts && h in target.accounts && g != h
      ensures !HasIdentity(target.accounts[g], target.accounts[h].recordUid, target.accounts[h].sourceUid)
    {
      OwnersDiffer(cfg, target, log, since, q, book, g, h);
    }
  }

  lemma CorrespondsIsConverged(cfg: RoutingConfig, target: Target, log: seq<Logged>, since: nat, q: string, book: Book)
    requires Corresponds(target, Members(cfg, log, since, q), book) && IdentitiesUnique(log)
    ensures IsConverged(target, Members(cfg, log, since, q))
  {
    var members := Members(cfg, log, since, q);
    NoTwinsIn(cfg, target, log, since, q, book);
    forall id {:trigger HasAccount(target, members, id)} | id in members ensures HasAccount(target, members, id) {
      MemberHasAccount(target, members, book, id);
    }
    forall h {:trigger HasOwner(target, members, h)} | h in target.accounts ensures HasOwner(target, members, h) {
      AccountHasOwner(target, members, book, h);
    }
  }

  lemma AssumedForSent(cfg: RoutingConfig, env: Env, log: seq<Logged>, sent: nat, q: string, now: int)
    requires sent <= |log| && Assumed(cfg, env, log, q, now)
    ensures Assumed(cfg, env, log[..sent], q, now)
  {
    forall i | 0 <= i < sent ensures log[..sent][..i] == log[..i] {}
  }

  /** End to end: in every reachable state, once an out queue holds no user file and nothing
      failed, its target has converged to the events sent since it was registered. */
  lemma {:induction false} TargetConverges(cfg: RoutingConfig, actions: seq<Action>, s: State, q: string)
    requires Reaches(actions, s) && IsDrained(s, q)
    requires UsersRoutedBy(cfg, s.sent, s.tasks[q].since)
    requires SchoolsAgree(cfg, s.tasks[q].env, q)
    requires KindsAgree(s.log) && IdentitiesUnique(s.log)
    ensures s.tasks[q].since <= |s.sent| <= |s.log|
    ensures IsConverged(s.tasks[q].target, Members(cfg, s.log[..|s.sent|], s.tasks[q].since, q))
  {
    DrainedTarget(cfg, actions, s, q);
    Reachable(actions, s, q);
    var log, task := s.log[..|s.sent|], s.tasks[q];
    assert KelvinActive(cfg);
    AssumedForSent(cfg, task.env, s.log, |s.sent|, q, s.now);
    var book := Converges(cfg, task.env, log, task.since, q, s.now);
    CorrespondsIsConverged(cfg, task.target, log, task.since, q, book);
  }

  /** The users that belong to the authority by the files that arrived: those whose latest
      event is a change with a school mapped there. */
  ghost function ArrivedMembers(cfg: RoutingConfig, arrived: seq<Arrival>, q: string): map<string, Member> {
    if arrived == [] then map[]
    else WithContent(cfg, ArrivedMembers(cfg, arrived[..|arrived| - 1], q), arrived[|arrived| - 1].content, q)
  }

  ghost function WithContent(cfg: RoutingConfig, before: map<string, Member>, content: Content, q: string)
    : map<string, Member>
  {
    match content
    case Garbage(_) => before
    case Json(obj) => WithEvent(cfg, before, obj, q)
  }

  lemma ArrivedOneMoreMember(cfg: RoutingConfig, arrived: seq<Arrival>, a: Arrival, q: string)
    ensures ArrivedMembers(cfg, arrived + [a], q) == WithContent(cfg, ArrivedMembers(cfg, arrived, q), a.content, q)
  {
    assert (arrived + [a])[..|arrived|] == arrived;
  }

  lemma {:induction false} AcceptedMembers(cfg: RoutingConfig, arrived: seq<Arrival>, q: string)
    ensures ArrivedMembers(cfg, Accepted(arrived), q) == ArrivedMembers(cfg, arrived, q)
  {
    if arrived != [] {
      var init, last := arrived[..|arrived| - 1], arrived[|arrived| - 1];
      AcceptedMembers(cfg, init, q);
      if last.content.Json? {
        ArrivedOneMoreMember(cfg, Accepted(init), last, q);
      } else {
        assert Accepted(arrived) == Accepted(init);
      }
    }
  }

  lemma {:induction false} LoggedMembers(cfg: RoutingConfig, log: seq<Logged>, q: string)
    ensures ArrivedMembers(cfg, BareLog(log), q) == Members(cfg, log, 0, q)
  {
    if log != [] {
      var n := |log| - 1;
      LoggedMembers(cfg, log[..n], q);
      assert BareLog(log)[..n] == BareLog(log[..n]);
    }
  }

  /** Everything that arrived has gone through the in queue. */
  predicate InQueueDrained(s: State) {
    s.taken == |s.arrived| && |s.sent| == |s.log|
  }

  /** What the host is trusted with: users and groups do not share ids, and every change of a
      user carries an identity pair that no other user ever has. */
  ghost predicate HostAgrees(arrived: seq<Arrival>) {
    && (forall a, b :: a in arrived && b in arrived && SameObject(a, b) ==> a.content.obj.IsUser() == b.content.obj.IsUser())
    && (forall a :: a in arrived && a.content.Json? && a.content.obj.IsUserChange() ==>
          a.content.obj.data.recordUid != "" && a.content.obj.data.sourceUid != "")
    && (forall a, b :: a in arrived && b in arrived && SamePair(a, b) ==> SameObject(a, b))
  }

  predicate SameObject(a: Arrival, b: Arrival) {
    a.content.Json? && b.content.Json? && a.content.obj.id == b.content.obj.id
  }

  predicate SamePair(a: Arrival, b: Arrival) {
    a.content.Json? && b.content.Json? && SameIdentity(a.content.obj, b.content.obj)
  }

  lemma {:induction false} AcceptedArrived(arrived: seq<Arrival>)
    ensures forall a :: a in Accepted(arrived) ==> a in arrived
  {
    if arrived != [] {
      AcceptedArrived(arrived[..|arrived| - 1]);
      assert arrived == arrived[..|arrived| - 1] + [arrived[|arrived| - 1]];
    }
  }

  lemma LoggedAgrees(log: seq<Logged>, arrived: seq<Arrival>)
    requires HostAgrees(arrived) && BareLog(log) == Accepted(arrived)
    ensures KindsAgree(log) && IdentitiesUnique(log)
  {
    AcceptedArrived(arrived);
    forall i | 0 <= i < |log| ensures Bare(log[i]) in arrived {
      assert BareLog(log)[i] == Bare(log[i]) && BareLog(log)[i] in BareLog(log);
    }
  }

  /** Once the in queue is drained as well, the target of an authority that was registered before
      anything was sent holds exactly its users according to the files that the host wrote. */
  lemma PipelineConverges(cfg: RoutingConfig, actions: seq<Action>, s: State, q: string)
    requires Reaches(actions, s) && InQueueDrained(s)
    requires IsDrained(s, q) && s.tasks[q].since == 0 && UsersRoutedBy(cfg, s.sent, 0)
    requires SchoolsAgree(cfg, s.tasks[q].env, q) && HostAgrees(s.arrived)
    ensures IsConverged(s.tasks[q].target, ArrivedMembers(cfg, s.arrived, q))
  {
    LogIsAccepted(actions, s);
    assert s.arrived[..s.taken] == s.arrived && s.log[..|s.sent|] == s.log;
    LoggedAgrees(s.log, s.arrived);
    TargetConverges(cfg, actions, s, q);
    LoggedMembers(cfg, s.log, q);
    AcceptedMembers(cfg, s.arrived, q);
  }
}
