/** The out queue: handling files by object type and name. */
module OutQueues {
  import opened Options
  import opened Listener
  import opened Routing
  import opened UserTarget
  import opened Ordering
  import opened Names
  import opened Directories

  /** All files in the order of one sort by (rank, name). */
  ghost function TotalOrder(ranks: map<string, int>): seq<Ranked> {
    BeforeIsStrictTotal();
    Sorted(Before, Pairs(ranks))
  }

  ghost function HandleAll(state: Handled, env: Env, order: seq<string>, troubles: string -> Trouble): Handled {
    if order == [] then state
    else
      var name := order[|order| - 1];
      HandleFile(HandleAll(state, env, order[..|order| - 1], troubles), env, name, troubles(name))
  }

  lemma {:induction false} HandleAllFiles(state: Handled, env: Env, order: seq<string>, troubles: string -> Trouble)
    ensures HandleAll(state, env, order, troubles).dir.files == state.dir.files - (set name | name in order)
  {
    if order != [] {
      var n := |order| - 1;
      HandleAllFiles(state, env, order[..n], troubles);
      assert forall name :: name in order <==> name in order[..n] || name == order[n];
    }
  }

  ghost function NamesOf(entries: seq<Ranked>): seq<string> {
    seq(|entries|, i requires 0 <= i < |entries| => entries[i].name)
  }

  // ---- what the order is ----------------------------------------------------

  /** The object in a file that can be loaded. */
  function ObjectIn(dir: Dir, name: string): ListenerObject
    requires name in dir.files && dir.files[name].Json?
  {
    dir.files[name].obj
  }

  ghost predicate IsUserFile(dir: Dir, name: string) {
    name in dir.files && dir.files[name].Json? && dir.files[name].obj.IsUser()
  }

  ghost predicate IsGroupFile(dir: Dir, name: string) {
    name in dir.files && dir.files[name].Json? && !dir.files[name].obj.IsUser() && !dir.files[name].obj.Other?
  }

  /** Exactly the files of the directory, users before groups and groups before all others, and
      those of one type by name. */
  ghost predicate InOrder(dir: Dir, names: seq<string>)
    requires Loadable(dir)
  {
    && (forall name :: name in names <==> name in dir.files)
    && forall i, j :: 0 <= i < j < |names| ==>
         names[i] in dir.files && names[j] in dir.files && IsEarlier(dir, names[i], names[j])
  }

  ghost predicate IsEarlier(dir: Dir, name: string, other: string)
    requires Loadable(dir) && name in dir.files && other in dir.files
  {
    || ComesFirst(ObjectIn(dir, name), ObjectIn(dir, other))
    || (SameType(ObjectIn(dir, name), ObjectIn(dir, other)) && Less(name, other))
  }

  /** All user files of the directory if there are any, else all group files if there are any,
      else all files, by name. */
  ghost predicate AreFirstType(dir: Dir, names: seq<string>) {
    && Ascending(Less, names)
    && (if exists name :: IsUserFile(dir, name) then forall name :: name in names <==> IsUserFile(dir, name)
        else if exists name :: IsGroupFile(dir, name) then forall name :: name in names <==> IsGroupFile(dir, name)
        else forall name :: name in names <==> name in dir.files)
  }

  lemma EntriesAreFiles(dir: Dir, entries: seq<Ranked>)
    requires entries == TotalOrder(Ranks(dir))
    ensures Ascending(Before, entries)
    ensures forall i :: 0 <= i < |entries| ==>
      entries[i].name in dir.files && entries[i].rank == RankOf(dir.files[entries[i].name])
    ensures forall name :: name in dir.files ==> exists i :: 0 <= i < |entries| && entries[i].name == name
  {
    var ranks := Ranks(dir);
    assert forall e :: e in entries <==> e in Pairs(ranks);
    forall i | 0 <= i < |entries|
      ensures entries[i].name in dir.files && entries[i].rank == RankOf(dir.files[entries[i].name])
    {
      assert entries[i] in entries;
      InPairs(ranks, entries[i]);
    }
    forall name | name in dir.files ensures exists i :: 0 <= i < |entries| && entries[i].name == name {
      InPairs(ranks, Ranked(ranks[name], name));
      var i :| 0 <= i < |entries| && entries[i] == Ranked(ranks[name], name);
    }
  }

  /** Sorting by rank and name is sorting by type and name. */
  lemma TotalOrderIsInOrder(dir: Dir)
    requires Loadable(dir)
    ensures InOrder(dir, NamesOf(TotalOrder(Ranks(dir))))
  {
    var entries := TotalOrder(Ranks(dir));
    var names := NamesOf(entries);
    EntriesAreFiles(dir, entries);
    forall i, j | 0 <= i < j < |names| ensures IsEarlier(dir, names[i], names[j]) {
      assert Before(entries[i], entries[j]);
      RankIsTypeOrder(ObjectIn(dir, names[i]), ObjectIn(dir, names[j]));
    }
    forall name | name in dir.files ensures name in names {
      var i :| 0 <= i < |entries| && entries[i].name == name;
      assert names[i] == name;
    }
  }

  /** The entries that have the rank of the first one. */
  ghost predicate IsFirstRank(entries: seq<Ranked>, n: nat) {
    && n <= |entries| && (entries != [] ==> n > 0)
    && (forall k :: 0 <= k < n ==> entries[k].rank <= entries[0].rank)
    && (n < |entries| ==> entries[n].rank > entries[0].rank)
  }

  /** Where the loop over the entries of the first rank ends. */
  ghost predicate IsLastOfRank(entries: seq<Ranked>, n: nat) {
    && n <= |entries| && (entries != [] ==> n > 0)
    && (n > 0 ==> entries[n - 1].rank <= entries[0].rank)
    && (n < |entries| ==> entries[n].rank > entries[0].rank)
  }

  lemma LastOfFirstRank(dir: Dir, n: nat)
    requires IsLastOfRank(TotalOrder(Ranks(dir)), n)
    ensures IsFirstRank(TotalOrder(Ranks(dir)), n)
  {
    var entries := TotalOrder(Ranks(dir));
    EntriesAreFiles(dir, entries);
    forall k | 0 <= k < n ensures entries[k].rank <= entries[0].rank {
      assert k < n - 1 ==> Before(entries[k], entries[n - 1]);
    }
  }

  lemma FirstRankIsFirstType(dir: Dir, n: nat)
    requires Loadable(dir) && IsFirstRank(TotalOrder(Ranks(dir)), n)
    ensures AreFirstType(dir, NamesOf(TotalOrder(Ranks(dir))[..n]))
  {
    var entries := TotalOrder(Ranks(dir));
    var names := NamesOf(entries[..n]);
    EntriesAreFiles(dir, entries);
    forall i, j | 0 <= i < j < n ensures Less(names[i], names[j]) {
      assert Before(entries[i], entries[j]) && (i > 0 ==> Before(entries[0], entries[i]));
    }
    forall name | name in names ensures name in dir.files {
      var k :| 0 <= k < n && names[k] == name;
      assert entries[k].name in dir.files;
    }
    if entries != [] {
      forall name | name in dir.files ensures IsOfFirstType(dir, names, entries[0].name, name) {
        InFirstRank(dir, n, name);
      }
      FirstTypeIs(dir, names, entries[0].name);
    }
  }

  lemma InFirstRank(dir: Dir, n: nat, name: string)
    requires Loadable(dir) && IsFirstRank(TotalOrder(Ranks(dir)), n) && name in dir.files
    ensures var entries := TotalOrder(Ranks(dir));
      && entries != [] && entries[0].name in dir.files
      && (name in NamesOf(entries[..n]) <==> SameType(ObjectIn(dir, name), ObjectIn(dir, entries[0].name)))
      && !ComesFirst(ObjectIn(dir, name), ObjectIn(dir, entries[0].name))
  {
    var entries := TotalOrder(Ranks(dir));
    EntriesAreFiles(dir, entries);
    var i :| 0 <= i < |entries| && entries[i].name == name;
    RankIsTypeOrder(ObjectIn(dir, name), ObjectIn(dir, entries[0].name));
    assert i > 0 ==> Before(entries[0], entries[i]);
    assert n <= i && n < i ==> Before(entries[n], entries[i]);
    var names := NamesOf(entries[..n]);
    if i < n {
      assert names[i] == name;
    } else {
      forall k | 0 <= k < n ensures names[k] != name {
        assert entries[k].rank < entries[i].rank;
      }
    }
  }

  lemma FirstTypeIs(dir: Dir, names: seq<string>, first: string)
    requires Loadable(dir) && Ascending(Less, names) && first in dir.files
    requires forall name :: name in names ==> name in dir.files
    requires forall name :: name in dir.files ==> IsOfFirstType(dir, names, first, name)
    ensures AreFirstType(dir, names)
  {
    assert IsOfFirstType(dir, names, first, first);
    if exists name :: IsUserFile(dir, name) {
      var user :| IsUserFile(dir, user);
      assert IsOfFirstType(dir, names, first, user);
      forall name ensures name in names <==> IsUserFile(dir, name) {
        assert name in dir.files ==> IsOfFirstType(dir, names, first, name);
      }
    } else if exists name :: IsGroupFile(dir, name) {
      var group :| IsGroupFile(dir, group);
      assert IsOfFirstType(dir, names, first, group);
      assert !IsUserFile(dir, first);
      forall name ensures name in names <==> IsGroupFile(dir, name) {
        assert name in dir.files ==> IsOfFirstType(dir, names, first, name) && !IsUserFile(dir, name);
      }
    } else {
      assert !IsUserFile(dir, first) && !IsGroupFile(dir, first);
      forall name | name in dir.files ensures name in names {
        assert IsOfFirstType(dir, names, first, name) && !IsUserFile(dir, name) && !IsGroupFile(dir, name);
      }
    }
  }

  ghost predicate IsOfFirstType(dir: Dir, names: seq<string>, first: string, name: string)
    requires Loadable(dir) && first in dir.files && name in dir.files
  {
    && (name in names <==> SameType(ObjectIn(dir, name), ObjectIn(dir, first)))
    && !ComesFirst(ObjectIn(dir, name), ObjectIn(dir, first))
  }

  class OutQueue {
    const authority: Authority
    const dispatcher: UserDispatcher
    var dir: Dir
    var head: string

    constructor (authority: Authority, dispatcher: UserDispatcher, dir: Dir)
      ensures this.authority == authority && this.dispatcher == dispatcher && this.dir == dir && head == ""
    {
      this.authority := authority;
      this.dispatcher := dispatcher;
      this.dir := dir;
      head := "";
    }

    ghost function State(): Handled
      reads this, dispatcher
    {
      Handled(dir, dispatcher.State())
    }

    /** The (rank, name) pairs in order.  One file that cannot be loaded makes the
        listing, and with it the whole scan task, fail. */
    method RankedList(names: seq<string>) returns (raised: bool, entries: seq<Ranked>)
      requires names == SortedNames(dir.files.Keys)
      ensures raised <==> !Loadable(dir)
      ensures !raised ==> entries == TotalOrder(Ranks(dir)) && InOrder(dir, NamesOf(entries))
    {
      SortedNamesDistinct(dir.files.Keys);
      var ranks: map<string, int> := map[];
      for i := 0 to |names|
        invariant forall k :: 0 <= k < i ==> names[k] in dir.files && Load(dir.files[names[k]]).Some?
        invariant forall name :: name in ranks <==> name in names[..i]
        invariant forall name :: name in ranks ==> name in dir.files && ranks[name] == RankOf(dir.files[name])
      {
        assert names[i] in dir.files;
        var obj := Load(dir.files[names[i]]);
        if obj == None {
          return true, [];
        }
        assert names[..i + 1] == names[..i] + [names[i]];
        ranks := ranks[names[i] := obj.value.Rank()];
      }
      assert names[..|names|] == names;
      assert ranks == Ranks(dir);
      assert Loadable(dir) by {
        forall name | name in dir.files ensures Load(dir.files[name]).Some? {
          var k :| 0 <= k < |names| && names[k] == name;
        }
      }
      BeforeIsStrictTotal();
      entries := Sort(Before, Pairs(ranks));
      raised := false;
      SortedIsUnique(Before, Pairs(ranks), entries, TotalOrder(ranks));
      TotalOrderIsInOrder(dir);
    }

    /** `handle` and the `unlink` after it; `trouble` is what goes wrong in handlers. */
    method HandleOne(name: string, trouble: Trouble)
      requires name in dir.files
      modifies this`dir, dispatcher
      ensures State() == HandleFile(old(State()), dispatcher.env, name, trouble)
    {
      var obj := Load(dir.files[name]);
      if obj == None {
        dir := Discard(dir, name);
      } else {
        var outcome := dispatcher.HandleListenerObject(obj.value, trouble);
        if outcome != Done {
          dir := Discard(dir, name);
        }
      }
      dir := Unlink(dir, name);
    }

    /** One iteration of the loop over the listed files. */
    method HandleNext(name: string, troubles: string -> Trouble, ghost start: Handled, ghost total: seq<Ranked>,
            ghost done: seq<string>)
      requires Progress(start, State(), dispatcher.env, total, done, troubles)
      requires |done| < |total| && name == total[|done|].name
      modifies this, dispatcher
      ensures Progress(start, State(), dispatcher.env, total, done + [name], troubles)
    {
      head := name;
      NextFile(start, State(), dispatcher.env, total, done, troubles);
      HandleOne(name, troubles(name));
    }

    /** Handles the files of the lowest rank.  The ghost parameters say that `paths` is the
        part of the total order that follows what was `done`. */
    method HandleLowest(paths: seq<Ranked>, troubles: string -> Trouble, ghost start: Handled, ghost total: seq<Ranked>,
            ghost done: seq<string>)
      returns (handled: seq<string>)
      requires Progress(start, State(), dispatcher.env, total, done, troubles)
      requires paths == total[|done|..] && paths == TotalOrder(Ranks(dir)) && Loadable(dir)
      modifies this, dispatcher
      ensures Progress(start, State(), dispatcher.env, total, done + handled, troubles)
      ensures IsFirstRank(paths, |handled|) && AreFirstType(old(dir), handled)
    {
      handled := [];
      assert done + [] == done;
      while |handled| < |paths| && paths[|handled|].rank <= paths[0].rank
        invariant |handled| <= |paths|
        invariant handled != [] ==> paths[|handled| - 1].rank <= paths[0].rank
        invariant Progress(start, State(), dispatcher.env, total, done + handled, troubles)
      {
        var path := paths[|handled|];
        HandleNext(path.name, troubles, start, total, done + handled);
        OneMoreHandled(done, handled, path.name);
        handled := handled + [path.name];
      }
      HandledIsFirstType(old(dir), start, State(), dispatcher.env, total, done, handled, troubles);
      head := "";
    }

    /** One pass of the scan loop: lists the directory, which discards files that are not JSON,
        and handles the lowest rank. */
    method Pass(troubles: string -> Trouble, ghost start: Handled, ghost total: seq<Ranked>, ghost done: seq<string>)
      returns (raised: bool, handled: seq<string>)
      requires total == TotalOrder(Ranks(start.dir))
      requires Progress(start, AfterListing(State()), dispatcher.env, total, done, troubles)
      modifies this, dispatcher
      ensures raised <==> !Loadable(AfterListing(old(State())).dir)
      ensures raised ==> State() == AfterListing(old(State())) && handled == []
      ensures Progress(start, State(), dispatcher.env, total, done + handled, troubles)
      ensures AfterListing(State()) == State()
      ensures !raised && |done| < |total| ==> handled != []
      ensures !raised ==> AreFirstType(AfterListing(old(State())).dir, handled)
    {
      var names, paths;
      dir, names := QueueFiles(dir);
      ListedOnce(old(State()));
      raised, paths := RankedList(names);
      if raised {
        handled := [];
        assert done + [] == done;
      } else {
        RemainingFiles(start, State(), dispatcher.env, total, done, troubles);
        handled := HandleLowest(paths, troubles, start, total, done);
        StaysListed(start, AfterListing(old(State())), State(), dispatcher.env, done, handled, troubles);
      }
    }

    /** The scan loop when nothing arrives: passes until the directory is empty. */
    method Drain(troubles: string -> Trouble) returns (raised: bool, order: seq<string>)
      modifies this, dispatcher
      ensures raised <==> !Loadable(AfterListing(old(State())).dir)
      ensures !raised ==> dir.files == map[]
      ensures order == if raised then [] else NamesOf(TotalOrder(Ranks(AfterListing(old(State())).dir)))
      ensures !raised ==> InOrder(AfterListing(old(State())).dir, order)
      ensures State() == HandleAll(AfterListing(old(State())), dispatcher.env, order, troubles)
    {
      ghost var start := AfterListing(State());
      ghost var total := TotalOrder(Ranks(start.dir));
      TotalOrderNames(start.dir);
      ListedOnce(State());
      order := [];
      raised := false;
      while !raised && dir.files != map[]
        invariant Progress(start, AfterListing(State()), dispatcher.env, total, order, troubles)
        invariant Loadable(start.dir) || order == []
        invariant raised ==> order == [] && !Loadable(start.dir) && State() == start
        decreases !raised, |total| - |order|, NonJson(dir)
      {
        RemainingFiles(start, AfterListing(State()), dispatcher.env, total, order, troubles);
        var handled;
        raised, handled := Pass(troubles, start, total, order);
        order := order + handled;
      }
      if !raised {
        NothingToDiscard(dir);
        RemainingFiles(start, State(), dispatcher.env, total, order, troubles);
        TotalOrderIsInOrder(start.dir);
      }
    }
  }

  /** The directory is listed, which discards the files that are not JSON. */
  ghost function AfterListing(state: Handled): Handled {
    state.(dir := DiscardedAll(state.dir, NonJson(state.dir)))
  }

  /** Handling files leaves a listed directory listed. */
  lemma StaysListed(start: Handled, before: Handled, after: Handled, env: Env, done: seq<string>,
          handled: seq<string>, troubles: string -> Trouble)
    requires before == HandleAll(start, env, done, troubles) && NonJson(before.dir) == {}
    requires after == HandleAll(start, env, done + handled, troubles)
    ensures AfterListing(after) == after
  {
    HandleAllFiles(start, env, done, troubles);
    HandleAllFiles(start, env, done + handled, troubles);
    forall name | name in after.dir.files ensures name in before.dir.files {
      assert name !in done + handled;
    }
    assert forall name :: name in NonJson(after.dir) ==> name in NonJson(before.dir);
    NothingToDiscard(after.dir);
  }

  lemma ListedOnce(state: Handled)
    ensures NonJson(AfterListing(state).dir) == {} && AfterListing(AfterListing(state)) == AfterListing(state)
  {
    NothingToDiscard(AfterListing(state).dir);
  }

  /** The entries name different files of the directory. */
  ghost predicate NamesFiles(total: seq<Ranked>, dir: Dir) {
    && (forall i :: 0 <= i < |total| ==> total[i].name in dir.files)
    && (forall i, j :: 0 <= i < j < |total| ==> total[i].name != total[j].name)
  }

  /** The first files of the total order have been handled, and no others. */
  ghost predicate Progress(start: Handled, state: Handled, env: Env, total: seq<Ranked>, order: seq<string>,
          troubles: string -> Trouble) {
    && NamesFiles(total, start.dir)
    && |order| <= |total|
    && order == NamesOf(total)[..|order|]
    && state == HandleAll(start, env, order, troubles)
  }

  lemma OneMoreHandled(done: seq<string>, handled: seq<string>, name: string)
    ensures done + handled + [name] == done + (handled + [name])
  {
  }

  lemma HandledIsFirstType(dir: Dir, start: Handled, state: Handled, env: Env, total: seq<Ranked>, done: seq<string>,
          handled: seq<string>, troubles: string -> Trouble)
    requires Progress(start, state, env, total, done + handled, troubles)
    requires Loadable(dir) && total[|done|..] == TotalOrder(Ranks(dir))
    requires IsLastOfRank(total[|done|..], |handled|)
    ensures IsFirstRank(total[|done|..], |handled|) && AreFirstType(dir, handled)
  {
    forall k | 0 <= k < |handled| ensures handled[k] == total[|done|..][k].name {
      assert (done + handled)[|done| + k] == handled[k];
    }
    assert handled == NamesOf(total[|done|..][..|handled|]);
    LastOfFirstRank(dir, |handled|);
    FirstRankIsFirstType(dir, |handled|);
  }

  lemma NextFile(start: Handled, state: Handled, env: Env, total: seq<Ranked>, order: seq<string>, troubles: string -> Trouble)
    requires Progress(start, state, env, total, order, troubles) && |order| < |total|
    ensures var name := total[|order|].name;
      name in state.dir.files &&
      Progress(start, HandleFile(state, env, name, troubles(name)), env, total, order + [name], troubles)
  {
    var name := total[|order|].name;
    HandleAllFiles(start, env, order, troubles);
    assert forall k :: 0 <= k < |order| ==> order[k] == total[k].name;
    assert (order + [name])[..|order|] == order;
    assert order + [name] == NamesOf(total)[..|order| + 1];
  }

  lemma SortedPairs(ranks: map<string, int>, entries: seq<Ranked>)
    requires IsSorted(Before, Pairs(ranks), entries)
    ensures entries == TotalOrder(ranks)
  {
    BeforeIsStrictTotal();
    SortedIsUnique(Before, Pairs(ranks), entries, TotalOrder(ranks));
  }

  lemma RestOfPairs(elements: set<Ranked>, entries: seq<Ranked>, n: nat)
    requires IsSorted(Before, elements, entries) && n <= |entries|
    ensures IsSorted(Before, elements - (set e | e in entries[..n]), entries[n..])
  {
    BeforeIsStrictTotal();
    RestIsSorted(Before, elements, entries, n);
  }

  lemma InPairs(ranks: map<string, int>, e: Ranked)
    ensures e in Pairs(ranks) <==> e.name in ranks && e.rank == ranks[e.name]
  {
    if e.name in ranks && e.rank == ranks[e.name] {
      assert e == Ranked(ranks[e.name], e.name);
    }
  }

  lemma PairsWithout(ranks: map<string, int>, gone: seq<Ranked>)
    requires forall e :: e in gone ==> e in Pairs(ranks)
    ensures Pairs(ranks - (set name | name in NamesOf(gone))) == Pairs(ranks) - (set e | e in gone)
  {
    forall name ensures name in NamesOf(gone) <==> name in ranks && Ranked(ranks[name], name) in gone {
      if name in NamesOf(gone) {
        var k :| 0 <= k < |gone| && NamesOf(gone)[k] == name;
        assert gone[k] in gone;
      }
      if name in ranks && Ranked(ranks[name], name) in gone {
        var k :| 0 <= k < |gone| && gone[k] == Ranked(ranks[name], name);
        assert NamesOf(gone)[k] == name;
      }
    }
    forall e ensures e in Pairs(ranks - (set name | name in NamesOf(gone))) <==> e in Pairs(ranks) && e !in gone {
      InPairs(ranks, e);
      InPairs(ranks - (set name | name in NamesOf(gone)), e);
    }
  }

  /** A total order names each file once. */
  lemma TotalOrderNames(dir: Dir)
    ensures NamesFiles(TotalOrder(Ranks(dir)), dir)
    ensures TotalOrder(Ranks(dir)) == [] ==> dir.files == map[]
  {
    var ranks := Ranks(dir);
    var total := TotalOrder(ranks);
    assert forall e :: e in total <==> e in Pairs(ranks);
    forall i | 0 <= i < |total| ensures total[i].name in dir.files && total[i].rank == ranks[total[i].name] {
      assert total[i] in Pairs(ranks);
    }
    forall i, j | 0 <= i < j < |total| ensures total[i].name != total[j].name {
      assert Before(total[i], total[j]);
      LessIrreflexive(total[i].name);
    }
    if dir.files != map[] {
      var name :| name in dir.files;
      InPairs(ranks, Ranked(ranks[name], name));
    }
  }

  /** What is left after some progress is listed as the rest of the total order. */
  lemma RemainingFiles(start: Handled, state: Handled, env: Env, total: seq<Ranked>, order: seq<string>,
          troubles: string -> Trouble)
    requires Progress(start, state, env, total, order, troubles)
    requires total == TotalOrder(Ranks(start.dir))
    ensures TotalOrder(Ranks(state.dir)) == total[|order|..]
    ensures Loadable(start.dir) ==> Loadable(state.dir)
    ensures order == [] ==> state == start
    ensures state.dir.files == map[] <==> |order| == |total|
  {
    var ranks, rest := Ranks(start.dir), Ranks(state.dir);
    var gone := total[..|order|];
    assert order == NamesOf(gone);
    HandleAllFiles(start, env, order, troubles);
    assert rest == ranks - (set name | name in order);
    assert forall e :: e in gone ==> e in total;
    PairsWithout(ranks, gone);
    RestOfPairs(Pairs(ranks), total, |order|);
    SortedPairs(rest, total[|order|..]);
    TotalOrderNames(state.dir);
    if |order| < |total| {
      assert total[|order|..][0].name in state.dir.files;
    }
    forall name | name in state.dir.files ensures name in start.dir.files && state.dir.files[name] == start.dir.files[name] {}
  }
}
