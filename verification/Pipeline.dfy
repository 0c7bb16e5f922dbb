/** The whole replication pipeline as a state machine.  One step is what the asyncio
    thread does between two points where another task may run.  Between the steps of the
    queues, authorities come and go, their tasks stop and start, the routing changes, and
    the service restarts. */
module Pipeline {
  import opened Options
  import opened Listener
  import opened OldData
  import opened Routing
  import opened UserTarget
  import opened Names
  import opened Directories
  import opened OutQueues
  import opened Fifo

  /** The in queue task works through a sorted listing of one kind of files. */
  datatype InTask = Preprocessing(plan: seq<string>) | Distributing(plan: seq<string>)

  /** The scan task of an out queue: the rest of the listing it works through, and the
      system it talks to.  It is not `running` after it was stopped or a listing raised.

      History: the queue was registered with the target `start` after `since` events had been
      sent; `pending` and `handled` are the events copied to it that were not, or were, handled;
      `clean` says that no handler failed or was interrupted, all with the same environment. */
  datatype OutTask = OutTask(
    plan: seq<string>, target: Target, running: bool, env: Env,
    since: nat, start: Target, pending: seq<Event>, handled: seq<Event>, clean: bool)

  datatype Arrival = Arrival(stem: string, content: Content)

  /** An event that left the in queue, and the routing at that time. */
  datatype Sent = Sent(event: Event, routing: RoutingConfig)

  /** History: `arrived` are all arrivals, of which `taken` have been preprocessed; `log`
      are the preprocessed events, of which `sent` have been distributed. */
  datatype State = State(
    now: int, world: World, db: Db, task: InTask, routing: RoutingConfig, tasks: map<string, OutTask>,
    arrived: seq<Arrival>, taken: nat, log: seq<Logged>, sent: seq<Sent>)

  datatype Action =
    | Arrive(arrival: Arrival)
    | Tick(time: int)
    | ListNew
    | PreprocessNext(passwords: bool)
    | ListReady
    | DistributeNext
    | ListOut(authority: string)
    | HandleNext(authority: string, trouble: Trouble)
    | Route(routing: RoutingConfig)
    | Register(authority: string, env: Env, target: Target)
    | Unregister(authority: string)
    | Start(authority: string, env: Env)
    | Stop(authority: string, target: Target)
    | Restart

  const EMPTY_DIR := Dir(map[], map[])

  /** At first no authority is registered and no school is mapped. */
  const INIT := State(0, World(EMPTY_DIR, map[]), map[], Preprocessing([]), RoutingConfig(map[], []), map[], [], 0, [], [])

  /** A queue that is registered when `since` events have been sent. */
  function NewTask(env: Env, target: Target, since: nat): OutTask {
    OutTask([], target, false, env, since, target, [], [], true)
  }

  function NewName(stem: string): string { stem + ".json" }

  function ReadyOf(stem: string): string { stem + READY }

  function EventOf(e: Logged): Event { Event(ReadyOf(e.stem), e.obj) }

  /** Later file names are larger, and stay so when they become ready. */
  predicate Precedes(s: string, t: string) {
    Less(NewName(s), NewName(t)) && Less(ReadyOf(s), ReadyOf(t))
  }

  /** The host writes events without `old_data`, under names not taken for ready ones. */
  predicate IsUnprocessed(arrival: Arrival) {
    && !EndsWith(arrival.stem, "_ready")
    && match arrival.content
       case Json(AddMod(_, _, previous)) => previous == None
       case Json(Remove(_, _, _, previous)) => previous == None
       case _ => true
  }

  predicate ComesAfter(arrived: seq<Arrival>, stem: string) {
    forall i {:trigger Precedes(arrived[i].stem, stem)} :: 0 <= i < |arrived| ==> Precedes(arrived[i].stem, stem)
  }

  predicate MayArrive(s: State, arrival: Arrival) {
    IsUnprocessed(arrival) && ComesAfter(s.arrived, arrival.stem)
  }

  /** The in queue is in the middle of `distribute`, which knows the queues from its start. */
  predicate IsDistributing(s: State) {
    s.task.Distributing? && s.task.plan != []
  }

  predicate IsRunning(s: State, q: string) {
    q in s.tasks && q in s.world.outs && s.tasks[q].running
  }

  /** When an action may happen; without any out queue nothing is distributed.  A task that is
      stopped in the middle of a file leaves the target as its handler got it, and the file.  The
      service restarts when all tasks of out queues have been stopped, and distributes first. */
  predicate Enabled(s: State, a: Action) {
    match a
    case Arrive(arrival) => MayArrive(s, arrival)
    case Tick(time) => s.now <= time
    case ListNew => s.task == Distributing([]) || (s.task == Preprocessing([]) && s.world.outs == map[])
    case PreprocessNext(_) => s.task.Preprocessing? && s.task.plan != []
    case ListReady => s.task == Preprocessing([]) && s.world.outs != map[]
    case DistributeNext => IsDistributing(s)
    case ListOut(q) => IsRunning(s, q) && s.tasks[q].plan == []
    case HandleNext(q, _) => IsRunning(s, q) && s.tasks[q].plan != []
    case Route(_) => true
    case Register(q, _, _) => !IsDistributing(s) && q !in s.tasks
    case Unregister(q) => !IsDistributing(s) && q in s.tasks
    case Start(q, _) => q in s.tasks && !s.tasks[q].running
    case Stop(q, target) => IsRunning(s, q) && (s.tasks[q].plan == [] ==> target == s.tasks[q].target)
    case Restart => forall q :: q in s.tasks ==> !s.tasks[q].running
  }

  ghost function Preprocess(s: State, passwords: bool): State
    requires s.task.Preprocessing? && s.task.plan != []
  {
    var name := s.task.plan[0];
    var rest := s.(task := Preprocessing(s.task.plan[1..]), taken := s.taken + 1,
                   world := s.world.(inbox := PreprocessedDir(s.world.inbox, s.db, name, s.now, passwords, true)));
    if name !in s.world.inbox.files || Load(s.world.inbox.files[name]) == None then rest
    else
      var obj := Load(s.world.inbox.files[name]).value;
      rest.(db := DbAfter(s.db, obj, s.now), log := s.log + [Logged(Stem(name), WithOld(s.db, obj, s.now), s.now)])
  }

  ghost function Distribute(s: State): State
    requires IsDistributing(s)
  {
    var name, targets := s.task.plan[0], TargetsOf(s.routing);
    var rest := s.(task := Distributing(s.task.plan[1..]), world := DistributeFile(targets, s.world, name));
    if name !in s.world.inbox.files || Load(s.world.inbox.files[name]) == None then rest
    else
      var content := s.world.inbox.files[name];
      var event := Event(name, Load(content).value);
      rest.(sent := s.sent + [Sent(event, s.routing)],
            tasks := map q | q in s.tasks ::
              if q in s.world.outs && q in targets(content)
              then s.tasks[q].(pending := s.tasks[q].pending + [event]) else s.tasks[q])
  }

  ghost function Listing(s: State, q: string): State
    requires q in s.tasks && q in s.world.outs
  {
    var task, dir := s.tasks[q], s.world.outs[q];
    s.(tasks := s.tasks[q := if Loadable(dir) then task.(plan := Lowest(TotalOrder(Ranks(dir)))) else task.(running := false)])
  }

  ghost function HandleFirst(s: State, q: string, trouble: Trouble): State
    requires q in s.tasks && q in s.world.outs && s.tasks[q].plan != []
  {
    var task, dir := s.tasks[q], s.world.outs[q];
    var name := task.plan[0];
    var rest := task.(plan := task.plan[1..]);
    if name !in dir.files || Load(dir.files[name]) == None then
      s.(tasks := s.tasks[q := rest], world := s.world.(outs := s.world.outs[q := Discard(dir, name)]))
    else
      var event := Event(name, Load(dir.files[name]).value);
      var after := HandleFile(Handled(dir, task.target), task.env, name, trouble);
      s.(world := s.world.(outs := s.world.outs[q := after.dir]),
         tasks := s.tasks[q := rest.(target := after.target, pending := Without(task.pending, name),
                                     handled := task.handled + [event], clean := task.clean && trouble == NoTrouble)])
  }

  /** The task after it was stopped, or was started again. */
  function Stopped(task: OutTask, target: Target): OutTask {
    task.(running := false, plan := [], target := target, clean := task.clean && target == task.target)
  }

  function StartedAgain(task: OutTask, env: Env): OutTask {
    task.(running := true, plan := [], env := env, clean := task.clean && env == task.env)
  }

  ghost function Apply(s: State, a: Action): State
    requires Enabled(s, a)
  {
    match a
    case Arrive(arrival) =>
      s.(arrived := s.arrived + [arrival],
         world := s.world.(inbox := WithFile(s.world.inbox, NewName(arrival.stem), arrival.content)))
    case Tick(time) => s.(now := time)
    case ListNew => s.(task := Preprocessing(SortedNames(NewFiles(s.world.inbox))))
    case PreprocessNext(passwords) => Preprocess(s, passwords)
    case ListReady => s.(task := Distributing(SortedNames(ReadyFiles(s.world.inbox))))
    case DistributeNext => Distribute(s)
    case ListOut(q) => Listing(s, q)
    case HandleNext(q, trouble) => HandleFirst(s, q, trouble)
    case Route(routing) => s.(routing := routing)
    case Register(q, env, target) =>
      s.(tasks := s.tasks[q := NewTask(env, target, |s.sent|)],
         world := s.world.(outs := s.world.outs[q := EMPTY_DIR]))
    case Unregister(q) => s.(tasks := s.tasks - {q}, world := s.world.(outs := s.world.outs - {q}))
    case Start(q, env) => s.(tasks := s.tasks[q := StartedAgain(s.tasks[q], env)])
    case Stop(q, target) => s.(tasks := s.tasks[q := Stopped(s.tasks[q], target)])
    case Restart => s.(task := Preprocessing([]))
  }

  /** The states that some sequence of enabled actions leads to. */
  ghost predicate Reaches(actions: seq<Action>, s: State) {
    if actions == [] then s == INIT
    else
      var n := |actions| - 1;
      exists before: State :: Reaches(actions[..n], before) && Enabled(before, actions[n])
        && s == Apply(before, actions[n])
  }
}
