/** The in queue: preprocessing files and distributing them to the out queues. */
module InQueues {
  import opened Options
  import opened Listener
  import opened OldData
  import opened Routing
  import opened Ordering
  import opened Names
  import opened Directories
  import opened OutQueues

  /** When the process is stopped, counted in file operations of `distribute`. */
  datatype Stop = Never | After(operations: nat)

  /** A file that was copied to the out queue of a school authority. */
  datatype Copy = Copy(authority: string, name: string, content: Content)

  /** The out queue holds the copy. */
  ghost predicate IsThere(outs: map<string, Dir>, copy: Copy) {
    copy.authority in outs && HasFile(outs[copy.authority].files, copy.name, copy.content)
  }

  /** `distribute` may lose sight of a file only after every registered target got a copy, and
      has it. */
  ghost predicate Accounted(targets: Targets, name: string, content: Content, after: World, delivered: set<Copy>) {
    || HasFile(after.inbox.files, name, content)
    || forall a :: a in after.outs && a in targets(content) ==>
         Copy(a, name, content) in delivered && IsThere(after.outs, Copy(a, name, content))
  }

  /** A copy that `distribute` may make of a file in `dir`. */
  ghost predicate IsDue(targets: Targets, dir: Dir, copy: Copy) {
    copy.name in dir.files && dir.files[copy.name] == copy.content && copy.authority in targets(copy.content)
  }

  /** What is found out while one file is preprocessed: the time, whether it gets passwords
      attached, and whether saving it succeeds. */
  datatype Moment = Moment(now: int, passwords: bool, saves: bool)

  /** The in queue and the old-data database after preprocessing some files in order. */
  ghost function PreprocessAll(dir: Dir, db: Db, names: seq<string>, moments: nat -> Moment): (Dir, Db) {
    if names == [] then (dir, db)
    else
      var n := |names| - 1;
      var before := PreprocessAll(dir, db, names[..n], moments);
      (PreprocessedDir(before.0, before.1, names[n], moments(n).now, moments(n).passwords, moments(n).saves),
       if names[n] in before.0.files then DbAfterFile(before.1, before.0.files[names[n]], moments(n).now) else before.1)
  }

  class InQueue {
    const mapping: map<string, string>
    const outQueues: seq<OutQueue>
    const handler: ListenerObjectHandler
    var dir: Dir
    var head: string
    /** Every copy made so far. */
    ghost var delivered: set<Copy>

    constructor (mapping: map<string, string>, outQueues: seq<OutQueue>, handler: ListenerObjectHandler, dir: Dir)
      ensures this.mapping == mapping && this.outQueues == outQueues && this.handler == handler
      ensures this.dir == dir && head == "" && delivered == {}
    {
      this.mapping, this.outQueues, this.handler := mapping, outQueues, handler;
      this.dir := dir;
      head := "";
      delivered := {};
    }

    ghost predicate Valid() {
      forall i, j :: 0 <= i < j < |outQueues| ==> outQueues[i].authority.name != outQueues[j].authority.name
    }

    function Cfg(): RoutingConfig {
      RoutingConfig(mapping, seq(|outQueues|, i requires 0 <= i < |outQueues| => outQueues[i].authority))
    }

    /** The directories of the out queues by name. */
    ghost function Outs(): map<string, Dir>
      requires Valid()
      reads outQueues
    {
      map i | 0 <= i < |outQueues| :: outQueues[i].authority.name := outQueues[i].dir
    }

    ghost function State(): World
      requires Valid()
      reads this`dir, outQueues
    {
      World(dir, Outs())
    }

    /** `preprocess_file`, and discarding the file if that fails. */
    method PreprocessFile(name: string, now: int, passwords: bool, saves: bool)
      requires name in dir.files
      modifies this`dir, handler
      ensures dir == PreprocessedDir(old(dir), old(handler.db), name, now, passwords, saves)
      ensures handler.db == DbAfterFile(old(handler.db), old(dir.files[name]), now)
    {
      var obj := Load(dir.files[name]);
      if obj == None {
        dir := Discard(dir, name);
        return;
      }
      var changed, obj' := false, obj.value;
      if obj.value.AddMod? {
        obj', changed := handler.PreprocessAddMod(obj.value, now, passwords);
      }
      if obj.value.Remove? {
        obj', changed := handler.PreprocessRemove(obj.value, now);
      }
      if changed {
        if !saves {
          dir := Discard(dir, name);
          return;
        }
        dir := dir.(files := dir.files[name := Json(obj')]);
      }
      var content := dir.files[name];
      dir := dir.(files := (dir.files - {name})[ReadyName(name) := content]);
      assert dir.files == PreprocessedDir(old(dir), old(handler.db), name, now, passwords, saves).files;
    }

    /** The loop of `distribute_loop` over the new files. */
    method PreprocessNew(names: seq<string>, moments: nat -> Moment)
      requires forall name :: name in names ==> name in dir.files && !IsReady(name)
      requires forall i, j :: 0 <= i < j < |names| ==> names[i] != names[j]
      modifies this`dir, handler
      ensures (dir, handler.db) == PreprocessAll(old(dir), old(handler.db), names, moments)
    {
      ghost var dir0, db0 := dir, handler.db;
      for i := 0 to |names|
        invariant (dir, handler.db) == PreprocessAll(dir0, db0, names[..i], moments)
      {
        assert names[..i + 1][..i] == names[..i];
        StillThere(dir0, db0, names, i, moments);
        var moment := moments(i);
        PreprocessFile(names[i], moment.now, moment.passwords, moment.saves);
      }
      assert names[..|names|] == names;
    }

    /** One round of `distribute_loop`: the new files are preprocessed, and then, if there are out
        queues, the ready files are distributed.  With out queues nothing is left after a round
        that nothing disturbs, without them every file waits ready. */
    method DistributeLoop(moments: nat -> Moment)
      requires Valid()
      modifies this`dir, this`head, this`delivered, handler, outQueues
      ensures var listed := Listed(old(State()));
        var preprocessed := PreprocessAll(listed.inbox, old(handler.db), SortedNames(NewFiles(listed.inbox)), moments);
        var world := World(preprocessed.0, old(Outs()));
        && handler.db == preprocessed.1
        && State() == if |outQueues| == 0 then world
                      else DistributeAll(TargetsOf(Cfg()), Listed(world), SortedNames(ReadyFiles(Listed(world).inbox)))
      ensures if |outQueues| == 0 then NewFiles(dir) == {} else dir.files == map[]
    {
      PreprocessRound(moments);
      if |outQueues| > 0 {
        DistributeRound();
      }
    }

    method DistributeRound()
      requires Valid() && NewFiles(dir) == {}
      modifies this`dir, this`head, this`delivered, outQueues
      ensures State() == DistributeAll(TargetsOf(Cfg()), Listed(old(State())),
          SortedNames(ReadyFiles(Listed(old(State())).inbox)))
      ensures dir.files == map[]
    {
      NothingLeft(TargetsOf(Cfg()), State());
      var stopped := Distribute(Never);
    }

    method PreprocessRound(moments: nat -> Moment)
      modifies this`dir, handler
      ensures var listed := DiscardedAll(old(dir), NonJson(old(dir)));
        (dir, handler.db) == PreprocessAll(listed, old(handler.db), SortedNames(NewFiles(listed)), moments)
      ensures NewFiles(dir) == {}
    {
      var names;
      dir, names := QueueFiles(dir);
      NewNamesSorted(dir);
      SortedNamesDistinct(NewFiles(dir));
      NoneNewAfterAll(dir, handler.db, SortedNames(NewFiles(dir)), moments);
      PreprocessNew(NewNames(names), moments);
    }

    method FindQueue(name: string) returns (found: Option<OutQueue>)
      requires Valid()
      ensures found.None? ==> name !in Outs()
      ensures found.Some? ==> found.value in outQueues && found.value.authority.name == name
    {
      for i := 0 to |outQueues|
        invariant forall k :: 0 <= k < i ==> outQueues[k].authority.name != name
      {
        if outQueues[i].authority.name == name {
          return Some(outQueues[i]);
        }
      }
      return None;
    }

    /** `shutil.copy2` to the directory of an out queue */
    method CopyTo(q: OutQueue, name: string)
      requires Valid() && q in outQueues && name in dir.files
      modifies q`dir, this`delivered
      ensures Outs() == old(Outs())[q.authority.name := WithFile(old(q.dir), name, dir.files[name])]
      ensures delivered == old(delivered) + {Copy(q.authority.name, name, dir.files[name])}
    {
      q.dir := q.dir.(files := q.dir.files[name := dir.files[name]]);
      delivered := delivered + {Copy(q.authority.name, name, dir.files[name])};
      assert forall i :: 0 <= i < |outQueues| && outQueues[i].authority.name == q.authority.name ==> outQueues[i] == q;
    }

    /** Copies the file to the out queue of `name`'s authority, unless that is unknown. */
    method CopyToAuthority(a: string, name: string, stop: Stop) returns (stopped: bool, stop': Stop)
      requires Valid() && name in dir.files
      modifies this`delivered, outQueues
      ensures stop.Never? ==> !stopped && stop'.Never?
      ensures stopped || a !in old(Outs()) ==> Outs() == old(Outs()) && delivered == old(delivered)
      ensures !stopped && a in old(Outs()) ==>
        && Outs() == old(Outs())[a := WithFile(old(Outs())[a], name, dir.files[name])]
        && delivered == old(delivered) + {Copy(a, name, dir.files[name])}
    {
      stopped, stop' := false, stop;
      var q := FindQueue(a);
      if q.Some? {
        stopped := stop == After(0);
        if !stopped {
          assert forall i :: 0 <= i < |outQueues| && outQueues[i].authority.name == a ==> outQueues[i] == q.value;
          CopyTo(q.value, name);
          stop' := Spend(stop);
        }
      }
    }

    /** Copies the file to the out queues of `names`, in any order; `done` are those it got to. */
    method CopyAll(names: set<string>, name: string, stop: Stop) returns (stopped: bool, stop': Stop, ghost done: set<string>)
      requires Valid() && name in dir.files
      modifies this`delivered, outQueues
      ensures stop.Never? ==> !stopped && stop'.Never?
      ensures done <= names && (!stopped ==> done == names)
      ensures Outs() == CopiedTo(old(Outs()), done, name, dir.files[name])
      ensures delivered == old(delivered) + Copies(Outs().Keys, done, name, dir.files[name])
    {
      stopped, stop', done := false, stop, {};
      var todo := names;
      ghost var outs, content := Outs(), dir.files[name];
      assert outs == CopiedTo(outs, {}, name, content);
      while todo != {}
        invariant todo <= names && done == names - todo && !stopped
        invariant stop.Never? ==> stop'.Never?
        invariant Outs() == CopiedTo(outs, done, name, content)
        invariant delivered == old(delivered) + Copies(outs.Keys, done, name, content)
        decreases todo
      {
        var a :| a in todo;
        stopped, stop' := CopyToAuthority(a, name, stop');
        if stopped {
          return;
        }
        CopyOneMore(outs, Outs(), done, a, name, content);
        todo := todo - {a};
        done := done + {a};
      }
    }

    /** Copies the file to the out queues of `names` and deletes it, or discards it. */
    method DistributeTo(names: set<string>, name: string, stop: Stop)
      returns (stopped: bool, stop': Stop, ghost done: set<string>)
      requires Valid() && name in dir.files
      modifies this`dir, this`delivered, outQueues
      ensures stop.Never? ==> !stopped && stop'.Never?
      ensures done <= names && (!stopped ==> done == names)
      ensures Outs() == CopiedTo(old(Outs()), done, name, old(dir.files)[name])
      ensures delivered == old(delivered) + Copies(Outs().Keys, done, name, old(dir.files)[name])
      ensures dir == if stopped then old(dir) else if names == {} then Discard(old(dir), name) else Unlink(old(dir), name)
    {
      stopped, stop', done := CopyAll(names, name, stop);
      stopped := stopped || stop' == After(0);
      if stopped {
        return;
      }
      if names == {} {
        dir := Discard(dir, name);
      } else {
        dir := Unlink(dir, name);
      }
      stop' := Spend(stop');
    }

    /** One iteration of `distribute`, which may be stopped before any file operation. */
    method DistributeOne(name: string, stop: Stop) returns (stopped: bool, stop': Stop)
      requires Valid() && name in dir.files
      modifies this`dir, this`delivered, outQueues
      ensures stop.Never? ==> !stopped && stop'.Never?
      ensures !stopped ==> State() == DistributeFile(TargetsOf(Cfg()), old(State()), name)
      ensures stopped ==> dir == old(dir)
      ensures IsSafe(TargetsOf(Cfg()), old(State()), State(), old(delivered), delivered)
    {
      var obj := Load(dir.files[name]);
      var names: set<string> := {};
      if obj.Some? {
        names := Authorities(Cfg(), obj.value);
      }
      ghost var done;
      stopped, stop', done := DistributeTo(names, name, stop);
      AfterDistribution(TargetsOf(Cfg()), old(State()), State(), names, done, name, old(delivered), delivered);
    }

    /** `distribute`, stopped at any point or not at all. */
    method Distribute(stop: Stop) returns (stopped: bool)
      requires Valid()
      modifies this`dir, this`head, this`delivered, outQueues
      ensures stop.Never? ==> !stopped
      ensures IsSafe(TargetsOf(Cfg()), Listed(old(State())), State(), old(delivered), delivered)
      ensures !stopped ==>
        State() == DistributeAll(TargetsOf(Cfg()), Listed(old(State())), SortedNames(ReadyFiles(Listed(old(State())).inbox)))
      ensures !stopped ==> ReadyFiles(dir) == {}
    {
      ghost var listed := Listed(State());
      var ready := ListReady();
      assert State() == listed;
      stopped := DistributeReady(ready, stop);
      if !stopped {
        head := "";
      }
    }

    /** The ready files in the order of their names. */
    method ListReady() returns (ready: seq<string>)
      requires Valid()
      modifies this`dir
      ensures State() == Listed(old(State())) && ready == SortedNames(ReadyFiles(dir))
      ensures forall name :: name in ready <==> name in ReadyFiles(dir)
      ensures forall i, j :: 0 <= i < j < |ready| ==> ready[i] != ready[j]
    {
      var names;
      dir, names := QueueFiles(dir);
      ReadyNamesSorted(dir);
      SortedNamesDistinct(ReadyFiles(dir));
      ready := ReadyNames(names);
    }

    /** The loop of `distribute` over the ready files. */
    method DistributeReady(ready: seq<string>, stop: Stop) returns (stopped: bool)
      requires Valid()
      requires forall name :: name in ready <==> name in ReadyFiles(dir)
      requires forall i, j :: 0 <= i < j < |ready| ==> ready[i] != ready[j]
      modifies this`dir, this`head, this`delivered, outQueues
      ensures stop.Never? ==> !stopped
      ensures IsSafe(TargetsOf(Cfg()), old(State()), State(), old(delivered), delivered)
      ensures !stopped ==> State() == DistributeAll(TargetsOf(Cfg()), old(State()), ready)
      ensures !stopped ==> ReadyFiles(dir) == {}
    {
      ghost var targets, before, delivered0 := TargetsOf(Cfg()), State(), delivered;
      SafeStart(targets, before, delivered);
      var stop' := stop;
      stopped := false;
      for i := 0 to |ready|
        invariant stop.Never? ==> stop'.Never?
        invariant IsSafe(targets, before, State(), delivered0, delivered)
        invariant State() == DistributeAll(targets, before, ready[..i])
      {
        stopped, stop' := DistributeNth(ready, i, stop', targets, before, delivered0);
        if stopped {
          return;
        }
      }
      assert ready[..|ready|] == ready;
      NoneReadyAfterAll(targets, before, ready);
    }

    /** One more file, after those before it. */
    method DistributeNth(ready: seq<string>, i: nat, stop: Stop,
          ghost targets: Targets, ghost before: World, ghost delivered0: set<Copy>)
      returns (stopped: bool, stop': Stop)
      requires Valid() && targets == TargetsOf(Cfg()) && i < |ready|
      requires forall name :: name in ready ==> name in before.inbox.files
      requires forall i, j :: 0 <= i < j < |ready| ==> ready[i] != ready[j]
      requires IsSafe(targets, before, State(), delivered0, delivered)
      requires State() == DistributeAll(targets, before, ready[..i])
      modifies this`dir, this`head, this`delivered, outQueues
      ensures stop.Never? ==> !stopped && stop'.Never?
      ensures IsSafe(targets, before, State(), delivered0, delivered)
      ensures !stopped ==> State() == DistributeAll(targets, before, ready[..i + 1])
    {
      ghost var middle, delivered1 := State(), delivered;
      DistributeAllFiles(targets, before, ready, i);
      head := ready[i];
      stopped, stop' := DistributeOne(ready[i], stop);
      SafeTransitive(targets, before, middle, State(), delivered0, delivered1, delivered);
      if !stopped {
        DistributeOneMore(targets, before, ready, i, State());
      }
    }

    /** Any number of runs of `distribute` that are stopped at any point, and one that
        is not: in the end every ready file has been delivered to all its targets. */
    method DistributeWithStops(stops: seq<nat>)
      requires Valid()
      modifies this`dir, this`head, this`delivered, outQueues
      ensures IsSafe(TargetsOf(Cfg()), Listed(old(State())), State(), old(delivered), delivered)
      ensures ReadyFiles(dir) == {}
    {
      ghost var before, delivered0 := Listed(State()), delivered;
      SafeStart(TargetsOf(Cfg()), before, delivered);
      for i := 0 to |stops|
        invariant IsSafe(TargetsOf(Cfg()), before, Listed(State()), delivered0, delivered)
      {
        var stopped := DistributeAgain(After(stops[i]), before, delivered0);
      }
      var stopped := DistributeAgain(Never, before, delivered0);
    }

    method DistributeAgain(stop: Stop, ghost before: World, ghost delivered0: set<Copy>) returns (stopped: bool)
      requires Valid() && NonJson(before.inbox) == {}
      requires IsSafe(TargetsOf(Cfg()), before, Listed(State()), delivered0, delivered)
      modifies this`dir, this`head, this`delivered, outQueues
      ensures IsSafe(TargetsOf(Cfg()), before, State(), delivered0, delivered) && Listed(State()) == State()
      ensures stop.Never? ==> ReadyFiles(dir) == {}
    {
      stopped := Distribute(stop);
      SafeTransitive(TargetsOf(Cfg()), before, Listed(old(State())), State(), delivered0, old(delivered), delivered);
      SafeListed(TargetsOf(Cfg()), before, State(), delivered0, delivered);
    }
  }

  function ReadyNames(names: seq<string>): seq<string> {
    if names == [] then []
    else (if IsReady(names[0]) then [names[0]] else []) + ReadyNames(names[1..])
  }

  function NewNames(names: seq<string>): seq<string> {
    if names == [] then []
    else (if !IsReady(names[0]) then [names[0]] else []) + NewNames(names[1..])
  }

  lemma NewNamesSorted(dir: Dir)
    ensures NewNames(SortedNames(dir.files.Keys)) == SortedNames(NewFiles(dir))
  {
    LessIsStrictTotal();
    var names := SortedNames(dir.files.Keys);
    NewNamesAre(names);
    SortedNamesUnique(NewFiles(dir), NewNames(names));
  }

  lemma {:induction false} NewNamesAre(names: seq<string>)
    requires Ascending(Less, names)
    ensures Ascending(Less, NewNames(names))
    ensures forall name :: name in NewNames(names) <==> name in names && !IsReady(name)
  {
    if names != [] {
      NewNamesAre(names[1..]);
      assert names == [names[0]] + names[1..];
      var rest := NewNames(names[1..]);
      forall j | 0 <= j < |rest| ensures Less(names[0], rest[j]) {
        assert rest[j] in names[1..];
        var k :| 0 <= k < |names[1..]| && names[1..][k] == rest[j];
        assert names[k + 1] == rest[j];
      }
    }
  }

  /** Preprocessing takes each of the new files, and leaves the others as they are or ready. */
  lemma {:induction false} PreprocessAllFiles(dir: Dir, db: Db, names: seq<string>, moments: nat -> Moment)
    requires forall name :: name in names ==> !IsReady(name)
    ensures NewFiles(PreprocessAll(dir, db, names, moments).0) == NewFiles(dir) - (set name | name in names)
  {
    if names != [] {
      var n := |names| - 1;
      PreprocessAllFiles(dir, db, names[..n], moments);
      assert names == names[..n] + [names[n]];
      var before := PreprocessAll(dir, db, names[..n], moments);
      OneLessNew(before.0, before.1, names[n], moments(n));
    }
  }

  lemma OneLessNew(dir: Dir, db: Db, name: string, moment: Moment)
    requires !IsReady(name)
    ensures NewFiles(PreprocessedDir(dir, db, name, moment.now, moment.passwords, moment.saves)) == NewFiles(dir) - {name}
  {
    assert IsReady(ReadyName(name));
  }

  lemma StillThere(dir: Dir, db: Db, names: seq<string>, i: nat, moments: nat -> Moment)
    requires i < |names| && forall name :: name in names ==> name in dir.files && !IsReady(name)
    requires forall i, j :: 0 <= i < j < |names| ==> names[i] != names[j]
    ensures names[i] in PreprocessAll(dir, db, names[..i], moments).0.files
  {
    PreprocessAllFiles(dir, db, names[..i], moments);
    forall j | 0 <= j < i ensures names[..i][j] != names[i] {
      assert names[..i][j] == names[j];
    }
    assert names[i] in names && names[i] in NewFiles(dir);
    assert names[i] in NewFiles(PreprocessAll(dir, db, names[..i], moments).0);
  }

  /** Distributing a directory without new files empties it. */
  lemma NothingLeft(targets: Targets, world: World)
    requires NewFiles(world.inbox) == {}
    ensures DistributeAll(targets, Listed(world), SortedNames(ReadyFiles(Listed(world).inbox))).inbox.files == map[]
  {
    var listed := Listed(world);
    var ready := SortedNames(ReadyFiles(listed.inbox));
    SortedNamesDistinct(ReadyFiles(listed.inbox));
    DistributeAllFiles(targets, listed, ready, |ready|);
    assert ready[..|ready|] == ready;
    forall name | name in listed.inbox.files ensures exists k :: 0 <= k < |ready| && ready[k] == name {
      assert name in NewFiles(world.inbox) || IsReady(name);
      assert name in ready;
    }
  }

  lemma NoneNewAfterAll(dir: Dir, db: Db, names: seq<string>, moments: nat -> Moment)
    requires forall name :: name in names <==> name in NewFiles(dir)
    ensures NewFiles(PreprocessAll(dir, db, names, moments).0) == {}
  {
    PreprocessAllFiles(dir, db, names, moments);
  }

  lemma CopyOneMore(outs: map<string, Dir>, after: map<string, Dir>, done: set<string>, a: string, name: string,
          content: Content)
    requires a !in done
    requires after == if a in outs then CopiedTo(outs, done, name, content)[a := WithFile(outs[a], name, content)]
                      else CopiedTo(outs, done, name, content)
    ensures after == CopiedTo(outs, done + {a}, name, content)
    ensures Copies(outs.Keys, done + {a}, name, content) ==
            Copies(outs.Keys, done, name, content) + if a in outs then {Copy(a, name, content)} else {}
  {
  }

  /** All copies for the authorities in `names` that are registered. */
  ghost function Copies(registered: set<string>, names: set<string>, name: string, content: Content): set<Copy> {
    set a | a in names && a in registered :: Copy(a, name, content)
  }

  function Spend(stop: Stop): Stop {
    match stop
    case Never => Never
    case After(n) => After(if n == 0 then 0 else n - 1)
  }

  /** Nothing enters or changes in an out queue but files of the in queue that are due there. */
  ghost predicate OnlyDueCopies(targets: Targets, before: World, after: World, delivered: set<Copy>, delivered': set<Copy>) {
    && delivered <= delivered'
    && (forall copy :: copy in delivered' - delivered ==> IsDue(targets, before.inbox, copy) && IsThere(after.outs, copy))
    && before.outs.Keys == after.outs.Keys
    && forall a :: a in after.outs ==> OnlyDue(targets, before.inbox, a, before.outs[a], after.outs[a])
  }

  ghost predicate OnlyDue(targets: Targets, inbox: Dir, a: string, before: Dir, after: Dir) {
    && after.trash == before.trash
    && before.files.Keys <= after.files.Keys
    && forall name :: name in after.files ==>
         || IsDue(targets, inbox, Copy(a, name, after.files[name]))
         || (name in before.files && after.files[name] == before.files[name])
  }

  /** The world after listing the in queue. */
  ghost function Listed(world: World): World {
    world.(inbox := DiscardedAll(world.inbox, NonJson(world.inbox)))
  }

  /** What holds between any two points of a distribution: files leave the in queue only
      when they are accounted for, and only due copies enter the out queues. */
  ghost predicate IsSafe(targets: Targets, before: World, after: World, delivered: set<Copy>, delivered': set<Copy>) {
    && OnlyDueCopies(targets, before, after, delivered, delivered')
    && (forall name :: name in after.inbox.files ==>
          name in before.inbox.files && after.inbox.files[name] == before.inbox.files[name])
    && (forall name :: name in before.inbox.files ==>
          Accounted(targets, name, before.inbox.files[name], after, delivered'))
  }

  lemma SafeStart(targets: Targets, world: World, delivered: set<Copy>)
    ensures IsSafe(targets, world, world, delivered, delivered)
  {
    forall a | a in world.outs ensures OnlyDue(targets, world.inbox, a, world.outs[a], world.outs[a]) {}
  }

  lemma SafeTransitive(targets: Targets, w0: World, w1: World, w2: World, d0: set<Copy>, d1: set<Copy>, d2: set<Copy>)
    requires IsSafe(targets, w0, w1, d0, d1) && IsSafe(targets, w1, w2, d1, d2)
    ensures IsSafe(targets, w0, w2, d0, d2)
  {
    forall a | a in w2.outs ensures OnlyDue(targets, w0.inbox, a, w0.outs[a], w2.outs[a]) {
      assert OnlyDue(targets, w0.inbox, a, w0.outs[a], w1.outs[a]) && OnlyDue(targets, w1.inbox, a, w1.outs[a], w2.outs[a]);
    }
    forall copy | copy in d2 - d0 ensures IsDue(targets, w0.inbox, copy) && IsThere(w2.outs, copy) {
      if copy !in d2 - d1 {
        assert copy in d1 - d0;
        CopyStays(targets, w0, w1, w2, copy);
      }
    }
    forall name | name in w0.inbox.files ensures Accounted(targets, name, w0.inbox.files[name], w2, d2) {
      AccountedStays(targets, w0, w1, w2, d0, d1, d2, name);
    }
  }

  /** A copy is not replaced by another file. */
  lemma CopyStays(targets: Targets, w0: World, w1: World, w2: World, copy: Copy)
    requires HasFile(w0.inbox.files, copy.name, copy.content) && IsThere(w1.outs, copy) && copy.authority in w2.outs
    requires forall name :: name in w1.inbox.files ==> name in w0.inbox.files && w1.inbox.files[name] == w0.inbox.files[name]
    requires OnlyDue(targets, w1.inbox, copy.authority, w1.outs[copy.authority], w2.outs[copy.authority])
    ensures IsThere(w2.outs, copy)
  {
  }

  lemma AccountedStays(targets: Targets, w0: World, w1: World, w2: World,
          d0: set<Copy>, d1: set<Copy>, d2: set<Copy>, name: string)
    requires IsSafe(targets, w0, w1, d0, d1) && IsSafe(targets, w1, w2, d1, d2) && name in w0.inbox.files
    ensures Accounted(targets, name, w0.inbox.files[name], w2, d2)
  {
    var content := w0.inbox.files[name];
    assert Accounted(targets, name, content, w1, d1);
    if name in w1.inbox.files {
      assert Accounted(targets, name, content, w2, d2);
    } else {
      forall a | a in w2.outs && a in targets(content)
        ensures Copy(a, name, content) in d2 && IsThere(w2.outs, Copy(a, name, content))
      {
        CopyStays(targets, w0, w1, w2, Copy(a, name, content));
      }
    }
  }

  lemma AfterDistribution(targets: Targets, before: World, after: World, names: set<string>, done: set<string>, name: string,
                          delivered: set<Copy>, delivered': set<Copy>)
    requires name in before.inbox.files
    requires var content := before.inbox.files[name];
      && (forall a :: a in names <==> a in targets(content))
      && done <= names
      && after.outs == CopiedTo(before.outs, done, name, content)
      && delivered' == delivered + Copies(after.outs.Keys, done, name, content)
      && (after.inbox == before.inbox ||
          (done == names && after.inbox == if names == {} then Discard(before.inbox, name) else Unlink(before.inbox, name)))
    ensures IsSafe(targets, before, after, delivered, delivered')
    ensures after.inbox != before.inbox ==> after == DistributeFile(targets, before, name)
  {
    var content := before.inbox.files[name];
    forall a | a in after.outs ensures OnlyDue(targets, before.inbox, a, before.outs[a], after.outs[a]) {}
    forall copy | copy in Copies(after.outs.Keys, done, name, content) ensures IsThere(after.outs, copy) {}
    if after.inbox != before.inbox {
      assert targets(content) == iset{} <==> names == {};
      assert after.outs == CopiedTo(before.outs, (set a | a in before.outs && a in targets(content)), name, content);
      assert names == {} ==> after.outs == before.outs;
    }
  }

  lemma SafeListed(targets: Targets, before: World, world: World, delivered: set<Copy>, delivered': set<Copy>)
    requires IsSafe(targets, before, world, delivered, delivered') && NonJson(before.inbox) == {}
    ensures Listed(world) == world
  {
    assert forall name :: name in NonJson(world.inbox) ==> name in NonJson(before.inbox);
    NothingToDiscard(world.inbox);
  }

  lemma {:induction false} ReadyNamesAre(names: seq<string>)
    requires Ascending(Less, names)
    ensures Ascending(Less, ReadyNames(names))
    ensures forall name :: name in ReadyNames(names) <==> name in names && IsReady(name)
  {
    if names != [] {
      ReadyNamesAre(names[1..]);
      assert forall name :: name in names <==> name == names[0] || name in names[1..];
      assert forall name :: name in names[1..] ==> Less(names[0], name);
      forall i | 0 <= i < |ReadyNames(names[1..])| ensures Less(names[0], ReadyNames(names[1..])[i]) {
        assert ReadyNames(names[1..])[i] in ReadyNames(names[1..]);
      }
    }
  }

  lemma ReadyNamesSorted(dir: Dir)
    ensures ReadyNames(SortedNames(dir.files.Keys)) == SortedNames(ReadyFiles(dir))
  {
    LessIsStrictTotal();
    var names := SortedNames(dir.files.Keys);
    ReadyNamesAre(names);
    SortedNamesUnique(ReadyFiles(dir), ReadyNames(names));
  }

  /** Distributing removes exactly the distributed files from the in queue. */
  lemma {:induction false} DistributeAllFiles(targets: Targets, world: World, names: seq<string>, n: nat)
    requires n <= |names|
    requires forall name :: name in names ==> name in world.inbox.files
    requires forall i, j :: 0 <= i < j < |names| ==> names[i] != names[j]
    ensures DistributeAll(targets, world, names[..n]).inbox.files == world.inbox.files - (set k | 0 <= k < n :: names[k])
    ensures n < |names| ==> names[n] in DistributeAll(targets, world, names[..n]).inbox.files
  {
    if n > 0 {
      DistributeAllFiles(targets, world, names, n - 1);
      assert names[..n][..n - 1] == names[..n - 1];
    }
  }

  lemma DistributeOneMore(targets: Targets, world: World, names: seq<string>, n: nat, after: World)
    requires n < |names| && after == DistributeFile(targets, DistributeAll(targets, world, names[..n]), names[n])
    ensures after == DistributeAll(targets, world, names[..n + 1])
  {
    assert names[..n + 1][..n] == names[..n];
  }

  lemma NoneReadyAfterAll(targets: Targets, world: World, ready: seq<string>)
    requires forall name :: name in ready <==> name in ReadyFiles(world.inbox)
    requires forall i, j :: 0 <= i < j < |ready| ==> ready[i] != ready[j]
    ensures ReadyFiles(DistributeAll(targets, world, ready).inbox) == {}
  {
    DistributeAllFiles(targets, world, ready, |ready|);
    assert ready[..|ready|] == ready;
    assert (set k | 0 <= k < |ready| :: ready[k]) == ReadyFiles(world.inbox);
  }
}
