/** What every reachable state of the pipeline satisfies. */
module PipelineInvariant {
  import opened Options
  import opened Listener
  import opened OldData
  import opened Routing
  import opened UserTarget
  import opened Ordering
  import opened Names
  import opened Directories
  import opened OutQueues
  import opened Fifo
  import opened Inbox
  import opened Pipeline

  // ---- names --------------------------------------------------------------

  lemma NewIsNotReady(stem: string)
    ensures IsReady(NewName(stem)) <==> EndsWith(stem, "_ready")
    ensures IsReady(ReadyOf(stem))
    ensures ReadyName(NewName(stem)) == ReadyOf(stem) && Stem(NewName(stem)) == stem
  {
    StemOfAppended(stem);
    var n := |stem|;
    assert NewName(stem)[..n] == stem && NewName(stem)[n..] == ".json";
    if n == 6 {
      assert stem[n - 6..] == stem;
    }
    if n >= 6 {
      assert NewName(stem)[n + 5 - 11..] == stem[n - 6..] + ".json";
      assert READY == "_ready" + ".json";
      if IsReady(NewName(stem)) {
        assert stem[n - 6..] == (stem[n - 6..] + ".json")[..6] == READY[..6] == "_ready";
      }
    } else if n == 5 {
      assert NewName(stem) == READY <==> stem + ".json" == "_read" + "y.json" by { assert READY == "_read" + "y.json"; }
      assert NewName(stem)[5] == '.';
    }
  }

  // ---- the in queue -------------------------------------------------------

  function ItemOf(a: Arrival): Item { Item(NewName(a.stem), ReadyOf(a.stem), a.content) }

  ghost function Items(waiting: seq<Arrival>): seq<Item> {
    seq(|waiting|, i requires 0 <= i < |waiting| => ItemOf(waiting[i]))
  }

  function FileOf(e: Logged): File { File(ReadyOf(e.stem), Json(e.obj)) }

  ghost function LogFiles(log: seq<Logged>): seq<File> {
    seq(|log|, i requires 0 <= i < |log| => FileOf(log[i]))
  }

  ghost predicate Unprocessed(waiting: seq<Arrival>) {
    forall i :: 0 <= i < |waiting| ==> IsUnprocessed(waiting[i])
  }

  ghost predicate InPlan(task: InTask, ready: seq<File>, waiting: seq<Item>) {
    match task
    case Preprocessing(plan) => plan <= FileNames(RawFiles(waiting))
    case Distributing(plan) => plan <= FileNames(ready)
  }

  /** The log is the history of the database. */
  ghost predicate IsLog(log: seq<Logged>, db: Db, now: int) {
    db == DbOf(log) && Attached(log) && TimesAscend(log, now)
  }

  ghost predicate StemsAscend(arrived: seq<Arrival>) {
    forall i, j {:trigger Precedes(arrived[i].stem, arrived[j].stem)} :: 0 <= i < j < |arrived| ==>
      Precedes(arrived[i].stem, arrived[j].stem)
  }

  /** Arrivals have ascending stems, and every event of the log is one that was taken. */
  ghost predicate HasArrived(log: seq<Logged>, arrived: seq<Arrival>, taken: nat) {
    && StemsAscend(arrived)
    && (forall i :: 0 <= i < |log| ==> IsTaken(log[i].stem, arrived, taken))
  }

  ghost predicate IsTaken(stem: string, arrived: seq<Arrival>, taken: nat) {
    exists k :: 0 <= k < taken && k < |arrived| && arrived[k].stem == stem
  }

  /** The first events of the log are those that were sent, in order. */
  ghost predicate AreSent(sent: seq<Sent>, log: seq<Logged>) {
    && |sent| <= |log|
    && forall i :: 0 <= i < |sent| ==> sent[i].event == EventOf(log[i])
  }

  ghost predicate InInv(s: State) {
    && s.taken <= |s.arrived| && AreSent(s.sent, s.log)
    && HasArrived(s.log, s.arrived, s.taken)
    && Unprocessed(s.arrived[s.taken..])
    && InboxInv(Less, IsReady, s.world.inbox.files, LogFiles(s.log), |s.sent|, Items(s.arrived[s.taken..]))
    && InPlan(s.task, LogFiles(s.log)[|s.sent|..], Items(s.arrived[s.taken..]))
    && IsLog(s.log, s.db, s.now)
  }

  // ---- the out queues -----------------------------------------------------

  ghost predicate IsSentTo(e: Sent, q: string) {
    q in TargetsOf(e.routing)(Json(e.event.obj))
  }

  /** The events sent to the authority `q` from index `since` on, by the routing at the time
      of each. */
  ghost function Routed(sent: seq<Sent>, since: nat, q: string): seq<Event> {
    if |sent| <= since then []
    else
      var last := sent[|sent| - 1];
      Routed(sent[..|sent| - 1], since, q) + if IsSentTo(last, q) then [last.event] else []
  }

  /** The events sent to an authority since it was registered. */
  ghost function RoutedTo(s: State, q: string): seq<Event>
    requires q in s.tasks
  {
    Routed(s.sent, s.tasks[q].since, q)
  }

  ghost function Replay(env: Env, start: Target, events: seq<Event>): Target {
    if events == [] then start
    else Handle(Replay(env, start, events[..|events| - 1]), env, events[|events| - 1].obj, NoTrouble).target
  }

  /** The queue lost, repeated and reordered nothing of any type: what was handled followed
      by what waits is what was sent. */
  ghost predicate NothingLost(routed: seq<Event>, handled: seq<Event>, pending: seq<Event>) {
    forall rank :: OfRank(handled, rank) + OfRank(pending, rank) == OfRank(routed, rank)
  }

  ghost predicate IsPlan(plan: seq<string>, pending: seq<Event>) {
    exists rank :: plan <= EventNames(OfRank(pending, rank))
  }

  ghost predicate OutInv(routed: seq<Event>, dir: Dir, task: OutTask) {
    && NamesAscend(task.pending)
    && (forall e :: e in task.pending ==> e in routed)
    && dir.files == FilesOf(task.pending)
    && NothingLost(routed, task.handled, task.pending)
    && IsPlan(task.plan, task.pending)
    && (task.clean ==> task.target == Replay(task.env, task.start, task.handled))
  }

  ghost predicate OutInvAt(s: State, q: string) {
    q in s.tasks ==>
      && q in s.world.outs && s.tasks[q].since <= |s.sent|
      && OutInv(RoutedTo(s, q), s.world.outs[q], s.tasks[q])
  }

  ghost predicate Inv(s: State, q: string) {
    InInv(s) && OutInvAt(s, q)
  }

  // ---- steps of the in queue ----------------------------------------------

  lemma LessIsIrreflexive()
    ensures Irreflexive(Less)
  {
    forall x ensures !Less(x, x) { LessIrreflexive(x); }
  }

  lemma ItemsOneMore(waiting: seq<Arrival>, a: Arrival)
    ensures Items(waiting + [a]) == Items(waiting) + [ItemOf(a)]
  {
  }

  lemma RawNamesRest(arrived: seq<Arrival>, taken: nat)
    requires taken < |arrived|
    ensures var names := FileNames(RawFiles(Items(arrived[taken..])));
      names[0] == NewName(arrived[taken].stem) && names[1..] == FileNames(RawFiles(Items(arrived[taken + 1..])))
    ensures Items(arrived[taken..])[0] == ItemOf(arrived[taken])
  {
    ItemsRest(arrived, taken);
  }

  lemma ItemsRest(arrived: seq<Arrival>, taken: nat)
    requires taken < |arrived|
    ensures Items(arrived[taken..])[1..] == Items(arrived[taken + 1..])
    ensures Items(arrived[taken..])[0] == ItemOf(arrived[taken])
  {
  }

  lemma LogFilesOneMore(log: seq<Logged>, e: Logged)
    ensures LogFiles(log + [e]) == LogFiles(log) + [FileOf(e)]
  {
  }

  /** An arrival comes after everything seen before. */
  lemma ArrivalIsLast(log: seq<Logged>, arrived: seq<Arrival>, taken: nat, a: Arrival)
    requires taken <= |arrived| && HasArrived(log, arrived, taken)
    requires ComesAfter(arrived, a.stem)
    requires Ordered(Less, LogFiles(log), Items(arrived[taken..]))
    ensures Ordered(Less, LogFiles(log), Items(arrived[taken..]) + [ItemOf(a)])
  {
    var waiting := Items(arrived[taken..]);
    forall i | 0 <= i < |waiting| ensures Less(waiting[i].raw, NewName(a.stem)) && Less(waiting[i].ready, ReadyOf(a.stem)) {
      assert Precedes(arrived[taken + i].stem, a.stem);
    }
    forall i | 0 <= i < |log| ensures Less(LogFiles(log)[i].name, ReadyOf(a.stem)) {
      assert IsTaken(log[i].stem, arrived, taken);
      var k :| 0 <= k < taken && k < |arrived| && arrived[k].stem == log[i].stem;
      assert Precedes(arrived[k].stem, a.stem);
    }
  }

  lemma ArrivedOneMore(log: seq<Logged>, arrived: seq<Arrival>, taken: nat, a: Arrival)
    requires taken <= |arrived| && HasArrived(log, arrived, taken)
    requires ComesAfter(arrived, a.stem)
    ensures HasArrived(log, arrived + [a], taken)
  {
    var arrived' := arrived + [a];
    forall i | 0 <= i < |log| ensures IsTaken(log[i].stem, arrived', taken) {
      assert IsTaken(log[i].stem, arrived, taken);
      var k :| 0 <= k < taken && k < |arrived| && arrived[k].stem == log[i].stem;
      assert arrived'[k].stem == log[i].stem;
    }
  }

  lemma ArriveKeeps(s: State, a: Arrival)
    requires InInv(s) && MayArrive(s, a)
    ensures InInv(Apply(s, Arrive(a)))
  {
    var waiting := s.arrived[s.taken..];
    assert (s.arrived + [a])[s.taken..] == waiting + [a];
    ItemsOneMore(waiting, a);
    LessIsIrreflexive();
    NewIsNotReady(a.stem);
    ArrivalIsLast(s.log, s.arrived, s.taken, a);
    ArrivedOneMore(s.log, s.arrived, s.taken, a);
    Arrives(Less, IsReady, s.world.inbox.files, LogFiles(s.log), |s.sent|, Items(waiting), ItemOf(a));
  }

  /** A listing of the in queue is in order of arrival. */
  lemma ListKeeps(s: State, a: Action)
    requires InInv(s) && Enabled(s, a) && (a.ListNew? || a.ListReady?)
    ensures InInv(Apply(s, a))
  {
    var files, log, waiting := s.world.inbox.files, LogFiles(s.log), Items(s.arrived[s.taken..]);
    ListsRaw(Less, IsReady, files, log, |s.sent|, waiting);
    ListsReady(Less, IsReady, files, log, |s.sent|, waiting);
    if a.ListNew? {
      SortedNamesUnique(NewFiles(s.world.inbox), FileNames(RawFiles(waiting)));
    } else {
      SortedNamesUnique(ReadyFiles(s.world.inbox), FileNames(log[|s.sent|..]));
    }
  }

  // ---- preprocessing ------------------------------------------------------

  /** The next file to preprocess is that of the first waiting arrival. */
  lemma NextNew(s: State)
    requires InInv(s) && Enabled(s, PreprocessNext(true))
    ensures s.taken < |s.arrived|
    ensures var a := s.arrived[s.taken];
      && IsUnprocessed(a)
      && s.task.plan[0] == NewName(a.stem)
      && NewName(a.stem) in s.world.inbox.files && s.world.inbox.files[NewName(a.stem)] == a.content
    ensures s.task.plan[1..] <= FileNames(RawFiles(Items(s.arrived[s.taken + 1..])))
  {
    var waiting := Items(s.arrived[s.taken..]);
    var names := FileNames(RawFiles(waiting));
    assert s.task.plan[0] == names[0];
    FirstEntries(s.world.inbox.files, LogFiles(s.log), |s.sent|, waiting);
    RawNamesRest(s.arrived, s.taken);
    assert IsUnprocessed(s.arrived[s.taken..][0]);
  }

  lemma TakenOneMore(log: seq<Logged>, arrived: seq<Arrival>, taken: nat, e: Logged)
    requires HasArrived(log, arrived, taken) && taken < |arrived| && e.stem == arrived[taken].stem
    ensures HasArrived(log, arrived, taken + 1) && HasArrived(log + [e], arrived, taken + 1)
  {
    var log' := log + [e];
    forall i | 0 <= i < |log| ensures IsTaken(log[i].stem, arrived, taken + 1) {
      assert IsTaken(log[i].stem, arrived, taken);
      var k :| 0 <= k < taken && k < |arrived| && arrived[k].stem == log[i].stem;
    }
    assert IsTaken(e.stem, arrived, taken + 1);
    assert forall i :: 0 <= i < |log'| ==> log'[i] == if i < |log| then log[i] else e;
  }

  /** A file that cannot be loaded is discarded, and its arrival forgotten. */
  lemma PreprocessGarbageKeeps(s: State, passwords: bool)
    requires InInv(s) && Enabled(s, PreprocessNext(passwords))
    requires s.taken < |s.arrived| && Load(s.arrived[s.taken].content) == None
    ensures InInv(Apply(s, PreprocessNext(passwords)))
    ensures Apply(s, PreprocessNext(passwords)).log == s.log
    ensures Apply(s, PreprocessNext(passwords)).world.outs == s.world.outs
  {
    NextNew(s);
    GarbageIs(s, passwords);
    InboxDropped(s.world.inbox.files, s.log, |s.sent|, s.arrived, s.taken);
    TakenOneMore(s.log, s.arrived, s.taken, Logged(s.arrived[s.taken].stem, Other("", ""), 0));
  }

  lemma GarbageIs(s: State, passwords: bool)
    requires Enabled(s, PreprocessNext(passwords)) && s.taken < |s.arrived|
    requires var a := s.arrived[s.taken];
      && Load(a.content) == None && s.task.plan[0] == NewName(a.stem)
      && NewName(a.stem) in s.world.inbox.files && s.world.inbox.files[NewName(a.stem)] == a.content
    ensures var s' := Apply(s, PreprocessNext(passwords));
      && s'.world.inbox.files == s.world.inbox.files - {NewName(s.arrived[s.taken].stem)}
      && s' == s.(world := World(s'.world.inbox, s.world.outs), task := Preprocessing(s.task.plan[1..]), taken := s.taken + 1)
  {
  }

  lemma InboxDropped(files: map<string, Content>, log: seq<Logged>, sent: nat, arrived: seq<Arrival>, taken: nat)
    requires taken < |arrived|
    requires InboxInv(Less, IsReady, files, LogFiles(log), sent, Items(arrived[taken..]))
    ensures InboxInv(Less, IsReady, files - {NewName(arrived[taken].stem)}, LogFiles(log), sent, Items(arrived[taken + 1..]))
  {
    ItemsRest(arrived, taken);
    Removes(Less, IsReady, files, LogFiles(log), sent, Items(arrived[taken..]));
  }

  /** What preprocessing adds to the log. */
  function NextLogged(s: State, obj: ListenerObject): Logged
    requires s.taken < |s.arrived|
  {
    Logged(s.arrived[s.taken].stem, WithOld(s.db, obj, s.now), s.now)
  }

  lemma LogOneMore(log: seq<Logged>, db: Db, now: int, stem: string, obj: ListenerObject)
    requires IsLog(log, db, now)
    ensures IsLog(log + [Logged(stem, WithOld(db, obj, now), now)], DbAfter(db, obj, now), now)
  {
    var e := Logged(stem, WithOld(db, obj, now), now);
    assert (log + [e])[..|log|] == log;
    assert DbAfter(db, obj, now) == DbAfter(db, e.obj, now);
    AttachedOneMore(log, e);
  }

  lemma AttachedOneMore(log: seq<Logged>, e: Logged)
    requires Attached(log) && (!e.obj.Other? ==> e.obj.previous == Get(DbOf(log), e.obj.id, e.time))
    ensures Attached(log + [e])
  {
    var log', n := log + [e], |log|;
    assert log'[..n] == log;
    forall i | 0 <= i < |log'| && !log'[i].obj.Other?
      ensures log'[i].obj.previous == Get(DbOf(log'[..i]), log'[i].obj.id, log'[i].time)
    {
      assert i < n ==> log'[..i] == log[..i];
    }
  }

  /** The file content after preprocessing is the object with its `old_data`, whether or
      not the file had to be written again. */
  lemma PreprocessedFiles(dir: Dir, db: Db, now: int, a: Arrival, obj: ListenerObject, passwords: bool)
    requires a.content == Json(obj) && IsUnprocessed(a)
    requires NewName(a.stem) in dir.files && dir.files[NewName(a.stem)] == Json(obj)
    ensures PreprocessedDir(dir, db, NewName(a.stem), now, passwords, true).files
         == (dir.files - {NewName(a.stem)})[ReadyOf(a.stem) := Json(WithOld(db, obj, now))]
  {
    NewIsNotReady(a.stem);
    var obj' := WithOld(db, obj, now);
    assert !IsChanged(obj', passwords) ==> obj' == obj;
  }

  lemma PreprocessIs(s: State, passwords: bool, obj: ListenerObject)
    requires Enabled(s, PreprocessNext(passwords)) && s.taken < |s.arrived|
    requires var a := s.arrived[s.taken];
      && a.content == Json(obj) && IsUnprocessed(a) && s.task.plan[0] == NewName(a.stem)
      && NewName(a.stem) in s.world.inbox.files && s.world.inbox.files[NewName(a.stem)] == Json(obj)
    ensures var a, s' := s.arrived[s.taken], Apply(s, PreprocessNext(passwords));
      && s'.world.inbox.files == (s.world.inbox.files - {NewName(a.stem)})[ReadyOf(a.stem) := Json(WithOld(s.db, obj, s.now))]
      && s' == s.(world := World(s'.world.inbox, s.world.outs), task := Preprocessing(s.task.plan[1..]), taken := s.taken + 1,
                  db := DbAfter(s.db, obj, s.now), log := s.log + [NextLogged(s, obj)])
  {
    NewIsNotReady(s.arrived[s.taken].stem);
    PreprocessedFiles(s.world.inbox, s.db, s.now, s.arrived[s.taken], obj, passwords);
  }

  lemma PreprocessObjectKeeps(s: State, passwords: bool, obj: ListenerObject)
    requires InInv(s) && Enabled(s, PreprocessNext(passwords))
    requires s.taken < |s.arrived| && s.arrived[s.taken].content == Json(obj)
    ensures InInv(Apply(s, PreprocessNext(passwords)))
    ensures Apply(s, PreprocessNext(passwords)).log == s.log + [NextLogged(s, obj)]
    ensures Apply(s, PreprocessNext(passwords)).world.outs == s.world.outs
  {
    NextNew(s);
    PreprocessIs(s, passwords, obj);
    MovedToReady(s, Apply(s, PreprocessNext(passwords)), obj);
  }

  lemma MovedToReady(s: State, s': State, obj: ListenerObject)
    requires InInv(s) && s.taken < |s.arrived| && s.task.Preprocessing? && s.task.plan != []
    requires s.task.plan[1..] <= FileNames(RawFiles(Items(s.arrived[s.taken + 1..])))
    requires var a := s.arrived[s.taken];
      && s'.world.inbox.files == (s.world.inbox.files - {NewName(a.stem)})[ReadyOf(a.stem) := Json(WithOld(s.db, obj, s.now))]
      && s' == s.(world := s'.world, task := Preprocessing(s.task.plan[1..]), taken := s.taken + 1,
                  db := DbAfter(s.db, obj, s.now), log := s.log + [NextLogged(s, obj)])
    ensures InInv(s')
  {
    var e := NextLogged(s, obj);
    LogOneMore(s.log, s.db, s.now, e.stem, obj);
    TakenOneMore(s.log, s.arrived, s.taken, e);
    InboxMoved(s.world.inbox.files, s.log, |s.sent|, s.arrived, s.taken, e);
  }

  lemma InboxMoved(files: map<string, Content>, log: seq<Logged>, sent: nat, arrived: seq<Arrival>, taken: nat, e: Logged)
    requires taken < |arrived| && e.stem == arrived[taken].stem
    requires InboxInv(Less, IsReady, files, LogFiles(log), sent, Items(arrived[taken..]))
    ensures InboxInv(Less, IsReady, (files - {NewName(e.stem)})[ReadyOf(e.stem) := Json(e.obj)],
                     LogFiles(log + [e]), sent, Items(arrived[taken + 1..]))
  {
    ItemsRest(arrived, taken);
    LogFilesOneMore(log, e);
    LessIsIrreflexive();
    Readies(Less, IsReady, files, LogFiles(log), sent, Items(arrived[taken..]), Json(e.obj));
  }

  lemma {:induction false} PreprocessKeeps(s: State, passwords: bool)
    requires InInv(s) && Enabled(s, PreprocessNext(passwords))
    ensures InInv(Apply(s, PreprocessNext(passwords)))
    ensures s.log <= Apply(s, PreprocessNext(passwords)).log
    ensures Apply(s, PreprocessNext(passwords)).world.outs == s.world.outs
  {
    NextNew(s);
    match s.arrived[s.taken].content
    case Garbage(_) => PreprocessGarbageKeeps(s, passwords);
    case Json(obj) => PreprocessObjectKeeps(s, passwords, obj);
  }

  // ---- distributing -------------------------------------------------------

  /** The next file to distribute is that of the first event that was not sent. */
  lemma NextReady(s: State)
    requires InInv(s) && Enabled(s, DistributeNext)
    ensures |s.sent| < |s.log|
    ensures var e := s.log[|s.sent|];
      && s.task.plan[0] == ReadyOf(e.stem)
      && ReadyOf(e.stem) in s.world.inbox.files && s.world.inbox.files[ReadyOf(e.stem)] == Json(e.obj)
    ensures s.task.plan[1..] <= FileNames(LogFiles(s.log)[|s.sent| + 1..])
  {
    var files := LogFiles(s.log);
    assert s.task.plan[0] == FileNames(files[|s.sent|..])[0];
    FirstEntries(s.world.inbox.files, files, |s.sent|, Items(s.arrived[s.taken..]));
    NamesRest(files, |s.sent|);
  }

  lemma NamesRest(files: seq<File>, n: nat)
    requires n < |files|
    ensures var names := FileNames(files[n..]);
      names != [] && names[0] == files[n].name && names[1..] == FileNames(files[n + 1..])
  {
  }

  lemma DistributeKeepsIn(s: State)
    requires InInv(s) && Enabled(s, DistributeNext)
    ensures InInv(Apply(s, DistributeNext))
  {
    NextReady(s);
    DistributeIs(s);
    MovedToOuts(s, Apply(s, DistributeNext));
  }

  lemma MovedToOuts(s: State, s': State)
    requires InInv(s) && |s.sent| < |s.log| && s.task.Distributing? && s.task.plan != []
    requires s.task.plan[1..] <= FileNames(LogFiles(s.log)[|s.sent| + 1..])
    requires var e := s.log[|s.sent|];
      && s'.world.inbox.files == s.world.inbox.files - {ReadyOf(e.stem)}
      && s' == s.(world := s'.world, task := Distributing(s.task.plan[1..]), tasks := s'.tasks,
                  sent := s.sent + [Sent(EventOf(e), s.routing)])
    ensures InInv(s')
  {
    OneMoreSent(s.sent, s.log, s.routing);
    InboxSent(s.world.inbox.files, s.log, |s.sent|, Items(s.arrived[s.taken..]));
    assert |s'.sent| == |s.sent| + 1;
  }

  lemma InboxSent(files: map<string, Content>, log: seq<Logged>, n: nat, waiting: seq<Item>)
    requires n < |log| && InboxInv(Less, IsReady, files, LogFiles(log), n, waiting)
    ensures InboxInv(Less, IsReady, files - {ReadyOf(log[n].stem)}, LogFiles(log), n + 1, waiting)
  {
    Sends(Less, IsReady, files, LogFiles(log), n, waiting);
  }

  lemma OneMoreSent(sent: seq<Sent>, log: seq<Logged>, routing: RoutingConfig)
    requires AreSent(sent, log) && |sent| < |log|
    ensures AreSent(sent + [Sent(EventOf(log[|sent|]), routing)], log)
  {
  }

  /** What distributing the next event does, but for the out queues. */
  lemma DistributeIs(s: State)
    requires Enabled(s, DistributeNext) && |s.sent| < |s.log|
    requires var e := s.log[|s.sent|];
      && s.task.plan[0] == ReadyOf(e.stem)
      && ReadyOf(e.stem) in s.world.inbox.files && s.world.inbox.files[ReadyOf(e.stem)] == Json(e.obj)
    ensures var e, s' := s.log[|s.sent|], Apply(s, DistributeNext);
      && s'.world.inbox.files == s.world.inbox.files - {ReadyOf(e.stem)}
      && s' == s.(world := s'.world, task := Distributing(s.task.plan[1..]), tasks := s'.tasks,
                  sent := s.sent + [Sent(EventOf(e), s.routing)])
  {
  }

  // ---- steps of the out queues --------------------------------------------

  ghost predicate LogAscends(log: seq<Logged>) {
    forall i, j :: 0 <= i < j < |log| ==> Less(ReadyOf(log[i].stem), ReadyOf(log[j].stem))
  }

  lemma InInvLogAscends(s: State)
    requires InInv(s)
    ensures LogAscends(s.log)
  {
    forall i, j | 0 <= i < j < |s.log| ensures Less(ReadyOf(s.log[i].stem), ReadyOf(s.log[j].stem)) {
      assert Less(LogFiles(s.log)[i].name, LogFiles(s.log)[j].name);
    }
  }

  ghost predicate SentAscends(sent: seq<Sent>) {
    forall i, j :: 0 <= i < j < |sent| ==> Less(sent[i].event.name, sent[j].event.name)
  }

  lemma InInvSentAscends(s: State)
    requires InInv(s)
    ensures SentAscends(s.sent)
    ensures forall i :: 0 <= i < |s.sent| < |s.log| ==> Less(s.sent[i].event.name, ReadyOf(s.log[|s.sent|].stem))
  {
    InInvLogAscends(s);
  }

  ghost predicate IsRouted(sent: seq<Sent>, since: nat, q: string, e: Event) {
    exists i :: since <= i < |sent| && sent[i].event == e && IsSentTo(sent[i], q)
  }

  /** The events for a queue are those sent to it, in the order of sending. */
  lemma {:induction false} RoutedAscends(sent: seq<Sent>, since: nat, q: string)
    requires SentAscends(sent)
    ensures NamesAscend(Routed(sent, since, q))
    ensures forall e :: e in Routed(sent, since, q) ==> IsRouted(sent, since, q, e)
  {
    if |sent| > since {
      var n := |sent| - 1;
      RoutedAscends(sent[..n], since, q);
      var init, routed := Routed(sent[..n], since, q), Routed(sent, since, q);
      forall e | e in init ensures IsRouted(sent, since, q, e) && Less(e.name, sent[n].event.name) {
        var i :| since <= i < n && sent[..n][i].event == e && IsSentTo(sent[..n][i], q);
        assert sent[i].event == e;
      }
      forall i, j | 0 <= i < j < |routed| ensures Less(routed[i].name, routed[j].name) {
        if j == |init| {
          assert init[i] in init;
        }
      }
    }
  }

  lemma RoutedOneMore(sent: seq<Sent>, x: Sent, since: nat, q: string)
    requires since <= |sent|
    ensures Routed(sent + [x], since, q) == Routed(sent, since, q) + if IsSentTo(x, q) then [x.event] else []
  {
    assert (sent + [x])[..|sent|] == sent;
  }

  /** A copy arrives in an out queue. */
  lemma CopyKeeps(routed: seq<Event>, dir: Dir, task: OutTask, e: Event)
    requires OutInv(routed, dir, task)
    requires forall r :: r in routed ==> Less(r.name, e.name)
    ensures OutInv(routed + [e], WithFile(dir, e.name, Json(e.obj)), task.(pending := task.pending + [e]))
  {
    Append(task.pending, e);
    NamesWith(task.pending, e);
    LostWith(routed, task.handled, task.pending, e);
    PlanWith(task.plan, task.pending, e);
  }

  lemma NamesWith(events: seq<Event>, e: Event)
    requires NamesAscend(events) && forall r :: r in events ==> Less(r.name, e.name)
    ensures NamesAscend(events + [e])
  {
  }

  lemma LostWith(routed: seq<Event>, handled: seq<Event>, pending: seq<Event>, e: Event)
    requires NothingLost(routed, handled, pending)
    ensures NothingLost(routed + [e], handled, pending + [e])
  {
    Append(pending, e);
    Append(routed, e);
  }

  lemma PlanWith(plan: seq<string>, pending: seq<Event>, e: Event)
    requires IsPlan(plan, pending)
    ensures IsPlan(plan, pending + [e])
  {
    var rank :| plan <= EventNames(OfRank(pending, rank));
    Append(pending, e);
    assert EventNames(OfRank(pending, rank)) <= EventNames(OfRank(pending + [e], rank));
  }

  /** What distributing the next event does to an out queue. */
  lemma DistributeOutIs(s: State, q: string)
    requires Enabled(s, DistributeNext) && |s.sent| < |s.log| && q in s.tasks && q in s.world.outs
    requires var e := s.log[|s.sent|];
      && s.task.plan[0] == ReadyOf(e.stem)
      && ReadyOf(e.stem) in s.world.inbox.files && s.world.inbox.files[ReadyOf(e.stem)] == Json(e.obj)
    ensures var e, s' := s.log[|s.sent|], Apply(s, DistributeNext);
      && q in s'.tasks && q in s'.world.outs
      && if IsSentTo(Sent(EventOf(e), s.routing), q)
         then && s'.world.outs[q] == WithFile(s.world.outs[q], ReadyOf(e.stem), Json(e.obj))
              && s'.tasks[q] == s.tasks[q].(pending := s.tasks[q].pending + [EventOf(e)])
         else s'.world.outs[q] == s.world.outs[q] && s'.tasks[q] == s.tasks[q]
  {
  }

  lemma {:induction false} DistributeKeepsOut(s: State, q: string)
    requires Inv(s, q) && Enabled(s, DistributeNext)
    ensures OutInvAt(Apply(s, DistributeNext), q)
  {
    NextReady(s);
    InInvSentAscends(s);
    if q in s.tasks {
      DistributeIs(s);
      DistributeOutIs(s, q);
      OneMoreKeepsOut(s, Apply(s, DistributeNext), q, Sent(EventOf(s.log[|s.sent|]), s.routing));
    }
  }

  lemma OneMoreKeepsOut(s: State, s': State, q: string, x: Sent)
    requires OutInvAt(s, q) && q in s.tasks && q in s'.tasks && q in s'.world.outs
    requires SentAscends(s.sent) && forall i :: 0 <= i < |s.sent| ==> Less(s.sent[i].event.name, x.event.name)
    requires s'.sent == s.sent + [x]
    requires if IsSentTo(x, q)
      then && s'.world.outs[q] == WithFile(s.world.outs[q], x.event.name, Json(x.event.obj))
           && s'.tasks[q] == s.tasks[q].(pending := s.tasks[q].pending + [x.event])
      else s'.world.outs[q] == s.world.outs[q] && s'.tasks[q] == s.tasks[q]
    ensures OutInvAt(s', q)
  {
    RoutedOneMore(s.sent, x, s.tasks[q].since, q);
    SentKeepsOut(s.sent, x, s.world.outs[q], s.tasks[q], q);
    assert RoutedTo(s, q) + [] == RoutedTo(s, q);
  }

  /** An event that is sent keeps the invariant of a queue, whether it goes there or not. */
  lemma SentKeepsOut(sent: seq<Sent>, x: Sent, dir: Dir, task: OutTask, q: string)
    requires OutInv(Routed(sent, task.since, q), dir, task)
    requires SentAscends(sent) && forall i :: 0 <= i < |sent| ==> Less(sent[i].event.name, x.event.name)
    ensures IsSentTo(x, q) ==>
      OutInv(Routed(sent, task.since, q) + [x.event],
             WithFile(dir, x.event.name, Json(x.event.obj)), task.(pending := task.pending + [x.event]))
  {
    RoutedAscends(sent, task.since, q);
    if IsSentTo(x, q) {
      CopyKeeps(Routed(sent, task.since, q), dir, task, x.event);
    }
  }

  lemma ListedOut(routed: seq<Event>, dir: Dir, task: OutTask)
    requires OutInv(routed, dir, task)
    ensures Loadable(dir)
    ensures OutInv(routed, dir, task.(plan := Lowest(TotalOrder(Ranks(dir)))))
  {
    FilesOfAre(task.pending);
    forall name | name in dir.files ensures Load(dir.files[name]).Some? {
      var i :| 0 <= i < |task.pending| && EventNames(task.pending)[i] == name;
    }
    if task.pending == [] {
      EntriesAreEvents(task.pending, dir);
      assert TotalOrder(Ranks(dir)) == [] by {
        if TotalOrder(Ranks(dir)) != [] {
          HasElement(TotalOrder(Ranks(dir)));
          assert false;
        }
      }
    } else {
      var rank := LowestIsFirstType(task.pending, dir);
    }
  }

  /** The next file of a plan is that of the first waiting event of its type. */
  lemma NextPlanned(routed: seq<Event>, dir: Dir, task: OutTask) returns (rank: int, e: Event)
    requires OutInv(routed, dir, task) && task.plan != []
    ensures OfRank(task.pending, rank) != [] && OfRank(task.pending, rank)[0] == e
    ensures task.plan <= EventNames(OfRank(task.pending, rank)) && task.plan[0] == e.name
    ensures e.name in dir.files && dir.files[e.name] == Json(e.obj)
  {
    rank :| task.plan <= EventNames(OfRank(task.pending, rank));
    e := OfRank(task.pending, rank)[0];
    assert task.plan[0] == EventNames(OfRank(task.pending, rank))[0];
    OfRankMembers(task.pending, rank);
    assert e in task.pending;
    FilesOfAre(task.pending);
  }

  lemma ReplayOneMore(env: Env, start: Target, events: seq<Event>, e: Event)
    ensures Replay(env, start, events + [e]) == Handle(Replay(env, start, events), env, e.obj, NoTrouble).target
  {
    assert (events + [e])[..|events|] == events;
  }

  /** The target after handling a loadable file without failure. */
  lemma HandledTarget(state: Handled, env: Env, name: string, trouble: Trouble, obj: ListenerObject)
    requires name in state.dir.files && state.dir.files[name] == Json(obj)
    ensures HandleFile(state, env, name, trouble).dir.files == state.dir.files - {name}
    ensures HandleFile(state, env, name, trouble).target == Handle(state.target, env, obj, trouble).target
  {
  }

  /** One type when the first waiting event of its type is handled. */
  lemma OneTypeStep(handled: seq<Event>, pending: seq<Event>, rank: int, e: Event, r: int)
    requires NamesAscend(pending)
    requires OfRank(pending, rank) != [] && OfRank(pending, rank)[0] == e
    ensures OfRank(handled + [e], r) + OfRank(Without(pending, e.name), r) == OfRank(handled, r) + OfRank(pending, r)
  {
    OfRankMembers(pending, rank);
    assert e in OfRank(pending, rank);
    Append(handled, e);
    RemoveFirst(pending, rank, e.name, r);
  }

  lemma HandledOut(routed: seq<Event>, dir: Dir, task: OutTask, rank: int, e: Event, after: OutTask, dir': Dir)
    requires OutInv(routed, dir, task) && task.plan != []
    requires OfRank(task.pending, rank) != [] && OfRank(task.pending, rank)[0] == e
    requires task.plan <= EventNames(OfRank(task.pending, rank)) && task.plan[0] == e.name
    requires dir'.files == dir.files - {e.name}
    requires after.clean ==> after.target == Replay(after.env, after.start, after.handled)
    requires after.plan == task.plan[1..]
    requires after.pending == Without(task.pending, e.name) && after.handled == task.handled + [e]
    ensures OutInv(routed, dir', after)
  {
    WithoutAscends(task.pending, e.name);
    WithoutMembers(task.pending, e.name);
    WithoutFiles(task.pending, e.name);
    assert NothingLost(routed, after.handled, after.pending) by {
      forall r ensures OfRank(after.handled, r) + OfRank(after.pending, r) == OfRank(routed, r) {
        OneTypeStep(task.handled, task.pending, rank, e, r);
      }
    }
    PlanStep(task.plan, task.pending, rank, e);
  }

  lemma PlanStep(plan: seq<string>, pending: seq<Event>, rank: int, e: Event)
    requires NamesAscend(pending) && plan != []
    requires OfRank(pending, rank) != [] && OfRank(pending, rank)[0] == e
    requires plan <= EventNames(OfRank(pending, rank))
    ensures IsPlan(plan[1..], Without(pending, e.name))
  {
    RemoveFirst(pending, rank, e.name, rank);
    var rest := OfRank(Without(pending, e.name), rank);
    assert EventNames(rest) == EventNames(OfRank(pending, rank))[1..];
  }

  /** What an out queue does keeps its invariant. */
  lemma OutStepKeeps(s: State, a: Action)
    requires Enabled(s, a) && (a.ListOut? || a.HandleNext?) && Inv(s, a.authority)
    ensures OutInvAt(Apply(s, a), a.authority)
  {
    var q := a.authority;
    var routed, dir, task := RoutedTo(s, q), s.world.outs[q], s.tasks[q];
    match a
    case ListOut(_) =>
      ListedOut(routed, dir, task);
    case HandleNext(_, trouble) =>
      var rank, e := NextPlanned(routed, dir, task);
      HandledTarget(Handled(dir, task.target), task.env, e.name, trouble, e.obj);
      ReplayOneMore(task.env, task.start, task.handled, e);
      var s' := HandleFirst(s, q, trouble);
      HandledOut(routed, dir, task, rank, e, s'.tasks[q], s'.world.outs[q]);
  }

  // ---- steps of the RPC server --------------------------------------------

  predicate IsServerStep(a: Action) {
    a.Route? || a.Register? || a.Unregister? || a.Start? || a.Stop? || a.Restart?
  }

  /** A queue is as it was, or new, or gone, or its task starts its work anew. */
  lemma ServerStepKeepsOut(s: State, a: Action, q: string)
    requires OutInvAt(s, q) && Enabled(s, a) && IsServerStep(a)
    ensures OutInvAt(Apply(s, a), q)
  {
    if q in s.tasks {
      NoPlan(s.tasks[q].pending);
    }
    if a.Register? && a.authority == q {
      NewOut(a.env, a.target, |s.sent|);
    }
  }

  lemma NoPlan(pending: seq<Event>)
    ensures IsPlan([], pending)
  {
    assert [] <= EventNames(OfRank(pending, 0));
  }

  lemma NewOut(env: Env, target: Target, since: nat)
    ensures OutInv([], EMPTY_DIR, NewTask(env, target, since))
  {
    NoPlan([]);
  }

  // ---- all steps ----------------------------------------------------------

  /** What one queue does to the others. */
  lemma OtherOutsKeep(s: State, a: Action, q: string)
    requires OutInvAt(s, q) && Enabled(s, a)
    requires (a.ListOut? || a.HandleNext?) && a.authority != q
    ensures OutInvAt(Apply(s, a), q)
  {
  }

  predicate IsInStep(a: Action) {
    a.Arrive? || a.Tick? || a.ListNew? || a.ListReady? || a.PreprocessNext?
  }

  lemma InStepKeepsOut(s: State, a: Action, q: string)
    requires OutInvAt(s, q) && Enabled(s, a) && IsInStep(a)
    ensures OutInvAt(Apply(s, a), q)
  {
    var s' := Apply(s, a);
    assert s'.tasks == s.tasks && s'.world.outs == s.world.outs && s'.sent == s.sent;
  }

  lemma InStepKeepsIn(s: State, a: Action)
    requires InInv(s) && Enabled(s, a)
    ensures InInv(Apply(s, a))
  {
    match a
    case Arrive(arrival) => ArriveKeeps(s, arrival);
    case Tick(_) =>
    case Restart =>
    case ListNew => ListKeeps(s, a);
    case PreprocessNext(passwords) => PreprocessKeeps(s, passwords);
    case ListReady => ListKeeps(s, a);
    case DistributeNext => DistributeKeepsIn(s);
    case _ => InInvFrame(s, Apply(s, a));
  }

  /** The in queue is not concerned by what the out queues and the server do. */
  lemma InInvFrame(s: State, s': State)
    requires InInv(s)
    requires s' == s.(world := s'.world, tasks := s'.tasks, routing := s'.routing) && s'.world.inbox == s.world.inbox
    ensures InInv(s')
  {
  }

  lemma {:induction false} StepKeeps(s: State, a: Action, q: string)
    requires Inv(s, q) && Enabled(s, a)
    ensures Inv(Apply(s, a), q)
  {
    InStepKeepsIn(s, a);
    if a.DistributeNext? {
      DistributeKeepsOut(s, q);
    } else if IsInStep(a) {
      InStepKeepsOut(s, a, q);
    } else if IsServerStep(a) {
      ServerStepKeepsOut(s, a, q);
    } else if a.authority == q {
      OutStepKeeps(s, a);
    } else {
      OtherOutsKeep(s, a, q);
    }
  }

  lemma InitInInv()
    ensures InInv(INIT)
  {
  }

  /** Every reachable state satisfies the invariants of the in queue and of each out queue
      that is registered then. */
  lemma {:induction false} Reachable(actions: seq<Action>, s: State, q: string)
    requires Reaches(actions, s)
    ensures Inv(s, q)
  {
    if actions == [] {
      InitInInv();
    } else {
      var n := |actions| - 1;
      var before: State :| Reaches(actions[..n], before) && Enabled(before, actions[n])
        && s == Apply(before, actions[n]);
      Reachable(actions[..n], before, q);
      StepKeeps(before, actions[n], q);
    }
  }

  lemma ReachableOut(actions: seq<Action>, s: State, q: string)
    requires Reaches(actions, s) && q in s.tasks
    ensures q in s.world.outs && s.tasks[q].since <= |s.sent|
    ensures OutInv(RoutedTo(s, q), s.world.outs[q], s.tasks[q])
  {
    Reachable(actions, s, q);
  }
}
