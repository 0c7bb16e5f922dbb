/** The pipeline never gets stuck: from every reachable state it can bring a target in line. */
module PipelineProgress {
  import opened Listener
  import opened Routing
  import opened UserTarget
  import opened Convergence
  import opened Names
  import opened Directories
  import opened OutQueues
  import opened Fifo
  import opened Inbox
  import opened Pipeline
  import opened PipelineInvariant
  import opened PipelineTheorems

  /** These actions are enabled one after the other, and lead from `s` to `s'`. */
  ghost predicate Follows(s: State, actions: seq<Action>, s': State)
    decreases |actions|
  {
    if actions == [] then s' == s
    else Enabled(s, actions[0]) && Follows(Apply(s, actions[0]), actions[1..], s')
  }

  lemma FollowsFrom(s: State, a: Action, rest: seq<Action>, s': State)
    requires Enabled(s, a) && Follows(Apply(s, a), rest, s')
    ensures Follows(s, [a] + rest, s')
  {
    assert ([a] + rest)[1..] == rest;
  }

  lemma {:induction false} FollowsBoth(s0: State, first: seq<Action>, s1: State, second: seq<Action>, s2: State)
    requires Follows(s0, first, s1) && Follows(s1, second, s2)
    ensures Follows(s0, first + second, s2)
    decreases |first|
  {
    if first == [] {
      assert first + second == second;
    } else {
      FollowsBoth(Apply(s0, first[0]), first[1..], s1, second, s2);
      assert (first + second)[1..] == first[1..] + second;
    }
  }

  lemma {:induction false} ReachesFollowing(actions: seq<Action>, s: State, more: seq<Action>, s': State)
    requires Reaches(actions, s) && Follows(s, more, s')
    ensures Reaches(actions + more, s')
    decreases |more|
  {
    if more == [] {
      assert actions + more == actions;
    } else {
      ReachesOneMore(actions, s, more[0]);
      ReachesFollowing(actions + [more[0]], Apply(s, more[0]), more[1..], s');
      FirstAndRest(actions, more);
    }
  }

  lemma FirstAndRest(actions: seq<Action>, more: seq<Action>)
    requires more != []
    ensures actions + [more[0]] + more[1..] == actions + more
  {
  }

  lemma {:induction false} ReachesOneMore(actions: seq<Action>, s: State, a: Action)
    requires Reaches(actions, s) && Enabled(s, a)
    ensures Reaches(actions + [a], Apply(s, a))
  {
    var longer := actions + [a];
    assert longer[..|longer| - 1] == actions && longer[|longer| - 1] == a;
  }

  predicate NothingArrives(actions: seq<Action>) {
    forall i :: 0 <= i < |actions| ==> !actions[i].Arrive?
  }

  /** Nothing arrives, is registered, stopped or rerouted, and no handler fails. */
  ghost predicate GoesOn(s: State, s': State, q: string) {
    && s'.arrived == s.arrived && s'.routing == s.routing
    && s.sent <= s'.sent && (forall i :: |s.sent| <= i < |s'.sent| ==> s'.sent[i].routing == s.routing)
    && IsRunning(s, q) && IsRunning(s', q)
    && s'.tasks[q].env == s.tasks[q].env && s'.tasks[q].since == s.tasks[q].since
    && s'.tasks[q].start == s.tasks[q].start && s'.tasks[q].clean == s.tasks[q].clean
  }

  lemma GoesOnLonger(s0: State, s1: State, s2: State, q: string)
    requires GoesOn(s0, s1, q) && GoesOn(s1, s2, q)
    ensures GoesOn(s0, s2, q)
  {
    forall i | |s0.sent| <= i < |s2.sent| ensures s2.sent[i].routing == s0.routing {
      assert i < |s1.sent| ==> s2.sent[i] == s1.sent[i];
    }
  }

  ghost predicate Continues(s: State, more: seq<Action>, s': State, q: string) {
    Follows(s, more, s') && NothingArrives(more) && GoesOn(s, s', q)
  }

  lemma ContinuesFrom(s: State, a: Action, rest: seq<Action>, s': State, q: string)
    requires Enabled(s, a) && !a.Arrive? && GoesOn(s, Apply(s, a), q) && Continues(Apply(s, a), rest, s', q)
    ensures Continues(s, [a] + rest, s', q)
  {
    FollowsFrom(s, a, rest, s');
    GoesOnLonger(s, Apply(s, a), s', q);
  }

  lemma ContinuesBoth(s0: State, first: seq<Action>, s1: State, second: seq<Action>, s2: State, q: string)
    requires Continues(s0, first, s1, q) && Continues(s1, second, s2, q)
    ensures Continues(s0, first + second, s2, q)
  {
    FollowsBoth(s0, first, s1, second, s2);
    GoesOnLonger(s0, s1, s2, q);
  }

  // ---- the in queue -------------------------------------------------------

  /** What the in queue task does next. */
  function NextIn(s: State): Action {
    match s.task
    case Preprocessing(plan) => if plan == [] then ListReady else PreprocessNext(false)
    case Distributing(plan) => if plan == [] then ListNew else DistributeNext
  }

  /** How much the in queue still has to do, and how far the next listing is that finds some. */
  function Work(s: State): int {
    2 * (|s.arrived| - s.taken) + |s.log| - |s.sent|
  }

  function Distance(s: State): nat {
    match s.task
    case Preprocessing(plan) => if plan != [] then 0 else if |s.sent| < |s.log| then 1 else 2
    case Distributing(plan) => if plan != [] then 0 else if s.taken < |s.arrived| then 1 else 2
  }

  /** A listing finds everything that waits. */
  lemma ListsAll(s: State)
    requires InInv(s)
    ensures Enabled(s, ListNew) ==> |Apply(s, ListNew).task.plan| == |s.arrived| - s.taken
    ensures Enabled(s, ListReady) ==> |Apply(s, ListReady).task.plan| == |s.log| - |s.sent|
  {
    var files, log, waiting := s.world.inbox.files, LogFiles(s.log), Items(s.arrived[s.taken..]);
    ListsRaw(Less, IsReady, files, log, |s.sent|, waiting);
    ListsReady(Less, IsReady, files, log, |s.sent|, waiting);
    SortedNamesUnique(NewFiles(s.world.inbox), FileNames(RawFiles(waiting)));
    SortedNamesUnique(ReadyFiles(s.world.inbox), FileNames(log[|s.sent|..]));
  }

  lemma ListingGoesOn(s: State, q: string)
    requires InInv(s) && IsRunning(s, q) && !InQueueDrained(s) && s.task.plan == []
    ensures Enabled(s, NextIn(s))
    ensures var s' := Apply(s, NextIn(s)); GoesOn(s, s', q) && Work(s') == Work(s) && Distance(s') < Distance(s)
  {
    ListsAll(s);
  }

  lemma PreprocessingGoesOn(s: State, q: string)
    requires InInv(s) && IsRunning(s, q) && Enabled(s, PreprocessNext(false))
    ensures var s' := Apply(s, PreprocessNext(false)); GoesOn(s, s', q) && Work(s') < Work(s)
  {
  }

  lemma DistributingGoesOn(s: State, q: string)
    requires InInv(s) && IsRunning(s, q) && Enabled(s, DistributeNext)
    ensures var s' := Apply(s, DistributeNext); GoesOn(s, s', q) && Work(s') < Work(s)
  {
    NextReady(s);
    DistributeIs(s);
    DistributeOutIs(s, q);
  }

  lemma InTaskGoesOn(s: State, q: string)
    requires InInv(s) && IsRunning(s, q) && !InQueueDrained(s)
    ensures Enabled(s, NextIn(s))
    ensures var s' := Apply(s, NextIn(s));
      && InInv(s') && GoesOn(s, s', q)
      && (Work(s') < Work(s) || (Work(s') == Work(s) && Distance(s') < Distance(s)))
  {
    if s.task.plan == [] {
      ListingGoesOn(s, q);
    } else if s.task.Preprocessing? {
      PreprocessingGoesOn(s, q);
    } else {
      DistributingGoesOn(s, q);
    }
    InStepKeepsIn(s, NextIn(s));
  }

  lemma {:induction false} DrainIn(s: State, q: string) returns (more: seq<Action>, s': State)
    requires InInv(s) && IsRunning(s, q)
    ensures Continues(s, more, s', q) && InQueueDrained(s')
    decreases Work(s), Distance(s)
  {
    if InQueueDrained(s) {
      more, s' := [], s;
    } else {
      var a := NextIn(s);
      InTaskGoesOn(s, q);
      more, s' := DrainIn(Apply(s, a), q);
      ContinuesFrom(s, a, more, s', q);
      more := [a] + more;
    }
  }

  // ---- an out queue -------------------------------------------------------

  lemma {:induction false} FewerWithout(events: seq<Event>, e: Event)
    requires e in events
    ensures |Without(events, e.name)| < |events|
  {
    var n := |events| - 1;
    NotMoreWithout(events[..n], e.name);
    if events[n].name != e.name {
      FewerWithout(events[..n], e);
    }
  }

  lemma {:induction false} NotMoreWithout(events: seq<Event>, name: string)
    ensures |Without(events, name)| <= |events|
  {
    if events != [] {
      NotMoreWithout(events[..|events| - 1], name);
    }
  }

  /** A listing of a queue that has files finds some. */
  lemma ListOutFinds(s: State, q: string)
    requires Inv(s, q) && IsRunning(s, q) && s.tasks[q].plan == [] && s.tasks[q].pending != []
    ensures Enabled(s, ListOut(q))
    ensures var s' := Apply(s, ListOut(q));
      GoesOn(s, s', q) && s'.tasks[q].pending == s.tasks[q].pending && s'.tasks[q].plan != []
  {
    ListedOut(RoutedTo(s, q), s.world.outs[q], s.tasks[q]);
    var rank := LowestIsFirstType(s.tasks[q].pending, s.world.outs[q]);
  }

  lemma HandlingGoesOn(s: State, q: string)
    requires Inv(s, q) && IsRunning(s, q) && s.tasks[q].plan != []
    ensures Enabled(s, HandleNext(q, NoTrouble))
    ensures var s' := Apply(s, HandleNext(q, NoTrouble));
      GoesOn(s, s', q) && |s'.tasks[q].pending| < |s.tasks[q].pending|
  {
    var rank, e := NextPlanned(RoutedTo(s, q), s.world.outs[q], s.tasks[q]);
    OfRankMembers(s.tasks[q].pending, rank);
    assert OfRank(s.tasks[q].pending, rank)[0] in OfRank(s.tasks[q].pending, rank);
    FewerWithout(s.tasks[q].pending, e);
  }

  /** What the task of the queue does next. */
  function NextOut(s: State, q: string): Action
    requires q in s.tasks
  {
    if s.tasks[q].plan == [] then ListOut(q) else HandleNext(q, NoTrouble)
  }

  predicate IsShorter(task: OutTask, than: OutTask) {
    || |task.pending| < |than.pending|
    || (task.pending == than.pending && task.plan != [] && than.plan == [])
  }

  lemma OutTaskGoesOn(s: State, q: string)
    requires Inv(s, q) && IsRunning(s, q) && InQueueDrained(s) && s.tasks[q].pending != []
    ensures Enabled(s, NextOut(s, q))
    ensures var s' := Apply(s, NextOut(s, q));
      Inv(s', q) && InQueueDrained(s') && GoesOn(s, s', q) && IsShorter(s'.tasks[q], s.tasks[q])
  {
    if s.tasks[q].plan == [] {
      ListOutFinds(s, q);
    } else {
      HandlingGoesOn(s, q);
    }
    StepKeeps(s, NextOut(s, q), q);
    OutStepKeepsDrained(s, NextOut(s, q));
  }

  lemma {:induction false} DrainOut(s: State, q: string) returns (more: seq<Action>, s': State)
    requires Inv(s, q) && IsRunning(s, q) && InQueueDrained(s)
    ensures Continues(s, more, s', q) && InQueueDrained(s') && s'.tasks[q].pending == []
    decreases |s.tasks[q].pending|, if s.tasks[q].plan == [] then 1 else 0
  {
    if s.tasks[q].pending == [] {
      more, s' := [], s;
    } else {
      var a := NextOut(s, q);
      OutTaskGoesOn(s, q);
      more, s' := DrainOut(Apply(s, a), q);
      ContinuesFrom(s, a, more, s', q);
      more := [a] + more;
    }
  }

  lemma OutStepKeepsDrained(s: State, a: Action)
    requires Enabled(s, a) && (a.ListOut? || a.HandleNext?) && InQueueDrained(s)
    ensures InQueueDrained(Apply(s, a))
  {
  }

  // ---- the whole pipeline -------------------------------------------------

  /** From every reachable state in which the task of a queue is running, the pipeline can, with
      nothing else arriving, work off the in queue and then that queue. */
  lemma {:induction false} CanDrain(actions: seq<Action>, s: State, q: string) returns (more: seq<Action>, s': State)
    requires Reaches(actions, s) && IsRunning(s, q)
    ensures Reaches(actions + more, s') && NothingArrives(more) && GoesOn(s, s', q)
    ensures InQueueDrained(s') && s'.world.outs[q].files == map[]
  {
    Reachable(actions, s, q);
    var first, middle := DrainIn(s, q);
    ReachesFollowing(actions, s, first, middle);
    Reachable(actions + first, middle, q);
    var second;
    second, s' := DrainOut(middle, q);
    ContinuesBoth(s, first, middle, second, s', q);
    more := first + second;
    ReachesFollowing(actions, s, more, s');
    ReachableOut(actions + more, s', q);
  }

  /** So from every reachable state the target of an authority can be brought in line with the
      events since it was registered, whatever has happened to the other authorities; and with all
      files that arrived, if it was there from the start. */
  lemma {:induction false} CanConverge(cfg: RoutingConfig, actions: seq<Action>, s: State, q: string)
    returns (more: seq<Action>, s': State)
    requires Reaches(actions, s) && IsRunning(s, q) && s.tasks[q].start == EMPTY && s.tasks[q].clean
    requires UsersRoutedBy(cfg, s.sent, s.tasks[q].since) && RoutesUsersBy(cfg, s.routing)
    requires SchoolsAgree(cfg, s.tasks[q].env, q) && HostAgrees(s.arrived)
    ensures Reaches(actions + more, s') && NothingArrives(more) && IsRunning(s', q) && InQueueDrained(s')
    ensures IsConverged(s'.tasks[q].target, Members(cfg, s'.log, s.tasks[q].since, q))
    ensures s.tasks[q].since == 0 ==> IsConverged(s'.tasks[q].target, ArrivedMembers(cfg, s.arrived, q))
  {
    more, s' := CanDrain(actions, s, q);
    LogIsAccepted(actions + more, s');
    assert s'.arrived[..s'.taken] == s.arrived && s'.log[..|s'.sent|] == s'.log;
    LoggedAgrees(s'.log, s.arrived);
    TargetConverges(cfg, actions + more, s', q);
    if s.tasks[q].since == 0 {
      PipelineConverges(cfg, actions + more, s', q);
    }
  }

  // ---- authorities ----------------------------------------------------------

  /** An out queue has a directory exactly while it is registered. */
  lemma {:induction false} RegisteredHaveDirs(actions: seq<Action>, s: State)
    requires Reaches(actions, s)
    ensures s.world.outs.Keys == s.tasks.Keys
  {
    if actions != [] {
      var n := |actions| - 1;
      var before: State :| Reaches(actions[..n], before) && Enabled(before, actions[n]) && s == Apply(before, actions[n]);
      RegisteredHaveDirs(actions[..n], before);
      StepKeepsDirs(before, actions[n]);
    }
  }

  lemma StepKeepsDirs(s: State, a: Action)
    requires Enabled(s, a) && s.world.outs.Keys == s.tasks.Keys
    ensures Apply(s, a).world.outs.Keys == Apply(s, a).tasks.Keys
  {
  }

  /** A queue can be registered and started whenever nothing is being distributed.  Stopping it and
      deleting it again leaves everything as it was. */
  lemma {:induction false} UnregisterUndoesRegister(actions: seq<Action>, s: State, q: string, env: Env, target: Target)
    requires Reaches(actions, s) && !IsDistributing(s) && q !in s.tasks
    ensures Reaches(actions + [Register(q, env, target), Start(q, env), Stop(q, target), Unregister(q)], s)
  {
    RegisteredHaveDirs(actions, s);
    var started := Registered(actions, s, q, env, target);
    StopAndUnregister(actions + [Register(q, env, target), Start(q, env)], started, q, s);
    assert actions + [Register(q, env, target), Start(q, env)] + [Stop(q, target), Unregister(q)] ==
      actions + [Register(q, env, target), Start(q, env), Stop(q, target), Unregister(q)];
  }

  lemma StopAndUnregister(actions: seq<Action>, s: State, q: string, before: State)
    requires Reaches(actions, s) && IsRunning(s, q) && !IsDistributing(s)
    requires s.(tasks := s.tasks - {q}, world := s.world.(outs := s.world.outs - {q})) == before
    ensures Reaches(actions + [Stop(q, s.tasks[q].target), Unregister(q)], before)
  {
    var stop := Stop(q, s.tasks[q].target);
    var stopped := Apply(s, stop);
    assert stopped.tasks - {q} == s.tasks - {q};
    ReachesOneMore(actions, s, stop);
    ReachesOneMore(actions + [stop], stopped, Unregister(q));
    assert actions + [stop] + [Unregister(q)] == actions + [stop, Unregister(q)];
  }

  lemma Registered(actions: seq<Action>, s: State, q: string, env: Env, target: Target) returns (s': State)
    requires Reaches(actions, s) && !IsDistributing(s) && q !in s.tasks
    ensures Reaches(actions + [Register(q, env, target), Start(q, env)], s')
    ensures s' == s.(tasks := s.tasks[q := OutTask([], target, true, env, |s.sent|, target, [], [], true)],
                     world := s.world.(outs := s.world.outs[q := Dir(map[], map[])]))
  {
    var middle := Apply(s, Register(q, env, target));
    s' := Apply(middle, Start(q, env));
    ReachesOneMore(actions, s, Register(q, env, target));
    ReachesOneMore(actions + [Register(q, env, target)], middle, Start(q, env));
    assert actions + [Register(q, env, target)] + [Start(q, env)] == actions + [Register(q, env, target), Start(q, env)];
  }

  /** Stopping a task and starting it again loses nothing but its listing. */
  lemma {:induction false} StopAndStart(actions: seq<Action>, s: State, q: string)
    requires Reaches(actions, s) && IsRunning(s, q)
    ensures Reaches(actions + [Stop(q, s.tasks[q].target), Start(q, s.tasks[q].env)],
              s.(tasks := s.tasks[q := s.tasks[q].(plan := [])]))
  {
    var stop, start := Stop(q, s.tasks[q].target), Start(q, s.tasks[q].env);
    ReachesOneMore(actions, s, stop);
    ReachesOneMore(actions + [stop], Apply(s, stop), start);
    assert actions + [stop] + [start] == actions + [stop, start];
    assert Apply(Apply(s, stop), start).tasks == s.tasks[q := s.tasks[q].(plan := [])];
  }

  /** The task does not run, and nothing else about the queue has changed. */
  ghost predicate IsStopped(task: OutTask, before: OutTask) {
    && !task.running && task.target == before.target && task.clean == before.clean
    && task.pending == before.pending && task.handled == before.handled && task.since == before.since
  }

  lemma Associates(actions: seq<Action>, first: seq<Action>, rest: seq<Action>)
    ensures actions + first + rest == actions + (first + rest)
  {
  }

  lemma StopOne(actions: seq<Action>, s: State, q: string) returns (more: seq<Action>, task: OutTask)
    requires Reaches(actions, s) && q in s.tasks && s.tasks[q].running
    ensures Reaches(actions + more, s.(tasks := s.tasks[q := task])) && IsStopped(task, s.tasks[q])
  {
    var stop := Stop(q, s.tasks[q].target);
    RegisteredHaveDirs(actions, s);
    ReachesOneMore(actions, s, stop);
    more, task := [stop], Apply(s, stop).tasks[q];
  }

  lemma {:induction false} StopAll(actions: seq<Action>, s: State, todo: set<string>) returns (more: seq<Action>, s': State)
    requires Reaches(actions, s) && todo <= s.tasks.Keys
    requires forall q :: q in s.tasks && s.tasks[q].running ==> q in todo
    ensures Reaches(actions + more, s') && s' == s.(tasks := s'.tasks) && s'.tasks.Keys == s.tasks.Keys
    ensures forall q :: q in s.tasks ==> IsStopped(s'.tasks[q], s.tasks[q])
    decreases |todo|
  {
    if todo == {} {
      more, s' := [], s;
      assert actions + [] == actions;
    } else {
      var q :| q in todo;
      if s.tasks[q].running {
        var first, task := StopOne(actions, s, q);
        var rest;
        rest, s' := StopAll(actions + first, s.(tasks := s.tasks[q := task]), todo - {q});
        more := first + rest;
        Associates(actions, first, rest);
      } else {
        more, s' := StopAll(actions, s, todo - {q});
      }
    }
  }

  /** The service can be restarted at any time: all tasks are stopped, the files stay, and the in
      queue starts with its ready files. */
  lemma {:induction false} CanRestart(actions: seq<Action>, s: State) returns (more: seq<Action>, s': State)
    requires Reaches(actions, s)
    ensures Reaches(actions + more, s') && s'.world == s.world && s'.tasks.Keys == s.tasks.Keys
    ensures forall q :: q in s.tasks ==> IsStopped(s'.tasks[q], s.tasks[q])
    ensures s'.task == Preprocessing([]) && (s.tasks != map[] ==> Enabled(s', ListReady))
  {
    RegisteredHaveDirs(actions, s);
    more, s' := StopAll(actions, s, s.tasks.Keys);
    ReachesOneMore(actions + more, s', Restart);
    assert actions + more + [Restart] == actions + (more + [Restart]);
    more, s' := more + [Restart], Apply(s', Restart);
  }

  lemma ReachesBoth(actions: seq<Action>, first: seq<Action>, rest: seq<Action>, s: State)
    requires Reaches(actions + first + rest, s) && NothingArrives(first) && NothingArrives(rest)
    ensures Reaches(actions + (first + rest), s) && NothingArrives(first + rest)
  {
    assert actions + first + rest == actions + (first + rest);
  }

  lemma RoutedAndRegistered(cfg: RoutingConfig, actions: seq<Action>, s: State, q: string, env: Env)
    returns (more: seq<Action>, s': State)
    requires Reaches(actions, s) && !IsDistributing(s) && q !in s.tasks && KelvinActive(cfg)
    ensures Reaches(actions + more, s') && NothingArrives(more)
    ensures UsersRoutedBy(cfg, s'.sent, |s.sent|) && RoutesUsersBy(cfg, s'.routing)
    ensures s'.arrived == s.arrived && IsRunning(s', q)
    ensures s'.tasks[q] == OutTask([], EMPTY, true, env, |s.sent|, EMPTY, [], [], true)
  {
    var routed := Apply(s, Route(cfg));
    ReachesOneMore(actions, s, Route(cfg));
    s' := Registered(actions + [Route(cfg)], routed, q, env, EMPTY);
    more := [Route(cfg), Register(q, env, EMPTY), Start(q, env)];
    assert actions + [Route(cfg)] + [Register(q, env, EMPTY), Start(q, env)] == actions + more;
  }

  /** In every reachable state in which nothing is being distributed, users can be routed as wanted
      and a new authority be registered, and its target brought in line with what is still to be
      sent. */
  lemma {:induction false} NewAuthorityConverges(cfg: RoutingConfig, actions: seq<Action>, s: State, q: string, env: Env)
    returns (more: seq<Action>, s': State)
    requires Reaches(actions, s) && !IsDistributing(s) && q !in s.tasks && KelvinActive(cfg)
    requires SchoolsAgree(cfg, env, q) && HostAgrees(s.arrived)
    ensures Reaches(actions + more, s') && NothingArrives(more) && IsRunning(s', q) && InQueueDrained(s')
    ensures IsConverged(s'.tasks[q].target, Members(cfg, s'.log, |s.sent|, q))
  {
    var first, started := RoutedAndRegistered(cfg, actions, s, q, env);
    var rest;
    rest, s' := CanConverge(cfg, actions + first, started, q);
    more := first + rest;
    ReachesBoth(actions, first, rest, s');
  }
}
