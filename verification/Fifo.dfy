/** The events waiting in an out queue as a list, and how its files reflect them. */
module Fifo {
  import opened Listener
  import opened Ordering
  import opened Names
  import opened Directories
  import opened OutQueues

  /** A listener file: its name in an out queue and its object. */
  datatype Event = Event(name: string, obj: ListenerObject)

  ghost predicate NamesAscend(events: seq<Event>) {
    forall i, j :: 0 <= i < j < |events| ==> Less(events[i].name, events[j].name)
  }

  ghost function EventNames(events: seq<Event>): seq<string> {
    seq(|events|, i requires 0 <= i < |events| => events[i].name)
  }

  /** The files of a queue in which `events` wait. */
  ghost function FilesOf(events: seq<Event>): map<string, Content> {
    if events == [] then map[]
    else FilesOf(events[..|events| - 1])[events[|events| - 1].name := Json(events[|events| - 1].obj)]
  }

  /** The events of one type, in order. */
  ghost function OfRank(events: seq<Event>, rank: int): seq<Event> {
    if events == [] then []
    else
      var last := events[|events| - 1];
      OfRank(events[..|events| - 1], rank) + if last.obj.Rank() == rank then [last] else []
  }

  ghost function Without(events: seq<Event>, name: string): seq<Event> {
    if events == [] then []
    else
      var last := events[|events| - 1];
      if last.name == name then Without(events[..|events| - 1], name) else Without(events[..|events| - 1], name) + [last]
  }

  lemma {:induction false} FilesOfAre(events: seq<Event>)
    requires NamesAscend(events)
    ensures forall name :: name in FilesOf(events) <==> name in EventNames(events)
    ensures forall i :: 0 <= i < |events| ==>
      events[i].name in FilesOf(events) && FilesOf(events)[events[i].name] == Json(events[i].obj)
  {
    if events != [] {
      var n := |events| - 1;
      FilesOfAre(events[..n]);
      assert EventNames(events) == EventNames(events[..n]) + [events[n].name];
      forall i | 0 <= i < n ensures events[i].name != events[n].name && events[..n][i] == events[i] {
        LessIrreflexive(events[n].name);
      }
    }
  }

  lemma {:induction false} OfRankMembers(events: seq<Event>, rank: int)
    ensures forall e :: e in OfRank(events, rank) <==> e in events && e.obj.Rank() == rank
  {
    if events != [] {
      var n := |events| - 1;
      OfRankMembers(events[..n], rank);
      assert forall e :: e in events <==> e in events[..n] || e == events[n];
    }
  }

  lemma {:induction false} OfRankAscends(events: seq<Event>, rank: int)
    requires NamesAscend(events)
    ensures NamesAscend(OfRank(events, rank))
  {
    if events != [] {
      var n := |events| - 1;
      OfRankAscends(events[..n], rank);
      OfRankMembers(events[..n], rank);
      var init := OfRank(events[..n], rank);
      forall i | 0 <= i < |init| ensures Less(init[i].name, events[n].name) {
        assert init[i] in events[..n];
        var k :| 0 <= k < n && events[..n][k] == init[i];
        assert Less(events[k].name, events[n].name);
      }
    }
  }

  lemma {:induction false} OfRankIsEmpty(events: seq<Event>, rank: int)
    requires forall e :: e in events ==> e.obj.Rank() != rank
    ensures OfRank(events, rank) == []
  {
    OfRankMembers(events, rank);
    if OfRank(events, rank) != [] {
      HasElement(OfRank(events, rank));
      assert false;
    }
  }

  /** Appending an event. */
  lemma Append(events: seq<Event>, e: Event)
    ensures FilesOf(events + [e]) == FilesOf(events)[e.name := Json(e.obj)]
    ensures forall rank :: OfRank(events + [e], rank) == OfRank(events, rank) + if e.obj.Rank() == rank then [e] else []
  {
    assert (events + [e])[..|events|] == events;
  }

  lemma BelowLast(events: seq<Event>)
    requires NamesAscend(events) && events != []
    ensures forall i :: 0 <= i < |events| - 1 ==>
      Less(events[i].name, events[|events| - 1].name) && events[i].name != events[|events| - 1].name
  {
    LessIrreflexive(events[|events| - 1].name);
  }

  lemma {:induction false} NothingWithout(events: seq<Event>, name: string)
    requires forall i :: 0 <= i < |events| ==> events[i].name != name
    ensures Without(events, name) == events
  {
    if events != [] {
      var n := |events| - 1;
      NothingWithout(events[..n], name);
      assert events == events[..n] + [events[n]];
    }
  }

  lemma {:induction false} WithoutMembers(events: seq<Event>, name: string)
    ensures forall e :: e in Without(events, name) <==> e in events && e.name != name
  {
    if events != [] {
      var n := |events| - 1;
      WithoutMembers(events[..n], name);
      assert forall e :: e in events <==> e in events[..n] || e == events[n];
    }
  }

  lemma {:induction false} WithoutAscends(events: seq<Event>, name: string)
    requires NamesAscend(events)
    ensures NamesAscend(Without(events, name))
  {
    if events != [] {
      var n := |events| - 1;
      WithoutAscends(events[..n], name);
      WithoutMembers(events[..n], name);
      if events[n].name != name {
        AscendsWith(events, Without(events[..n], name));
      }
    }
  }

  lemma AscendsWith(events: seq<Event>, some: seq<Event>)
    requires NamesAscend(events) && events != [] && NamesAscend(some)
    requires forall e :: e in some ==> e in events[..|events| - 1]
    ensures NamesAscend(some + [events[|events| - 1]])
  {
    var n := |events| - 1;
    forall i | 0 <= i < |some| ensures Less(some[i].name, events[n].name) {
      assert some[i] in some && some[i] in events[..n];
      var k :| 0 <= k < n && events[..n][k] == some[i];
      assert Less(events[k].name, events[n].name);
    }
  }

  lemma {:induction false} NotInFiles(events: seq<Event>, name: string)
    requires forall i :: 0 <= i < |events| ==> events[i].name != name
    ensures name !in FilesOf(events)
  {
    if events != [] {
      NotInFiles(events[..|events| - 1], name);
    }
  }

  lemma {:induction false} WithoutFiles(events: seq<Event>, name: string)
    requires NamesAscend(events)
    ensures FilesOf(Without(events, name)) == FilesOf(events) - {name}
  {
    if events != [] {
      WithoutFiles(events[..|events| - 1], name);
      BelowLast(events);
      WithoutLast(events, name);
    }
  }

  lemma WithoutLast(events: seq<Event>, name: string)
    requires events != []
    requires forall i :: 0 <= i < |events| - 1 ==> events[i].name != events[|events| - 1].name
    requires FilesOf(Without(events[..|events| - 1], name)) == FilesOf(events[..|events| - 1]) - {name}
    ensures FilesOf(Without(events, name)) == FilesOf(events) - {name}
  {
    var init, last := events[..|events| - 1], events[|events| - 1];
    assert FilesOf(events) == FilesOf(init)[last.name := Json(last.obj)];
    if last.name == name {
      NothingWithout(init, name);
      NotInFiles(init, name);
      PutAndDrop(FilesOf(init), name, Json(last.obj));
    } else {
      Append(Without(init, name), last);
      PutOther(FilesOf(init), name, last.name, Json(last.obj));
    }
  }

  lemma PutAndDrop(files: map<string, Content>, name: string, content: Content)
    requires name !in files
    ensures files[name := content] - {name} == files
  {
  }

  lemma PutOther(files: map<string, Content>, name: string, other: string, content: Content)
    requires name != other
    ensures (files - {name})[other := content] == files[other := content] - {name}
  {
  }

  /** Removing the first event of type `rank` leaves the other types alone. */
  lemma {:induction false} RemoveFirst(events: seq<Event>, rank: int, name: string, other: int)
    requires NamesAscend(events)
    requires OfRank(events, rank) != [] && OfRank(events, rank)[0].name == name
    ensures OfRank(Without(events, name), other) == if other == rank then OfRank(events, rank)[1..] else OfRank(events, other)
  {
    var n := |events| - 1;
    var init, last := events[..n], events[n];
    if OfRank(init, rank) != [] {
      FirstIsBelowLast(events, rank);
      RemoveFirst(init, rank, name, other);
      Append(Without(init, name), last);
      assert Without(events, name) == Without(init, name) + [last];
    } else {
      BelowLast(events);
      NothingWithout(init, name);
      assert Without(events, name) == init;
    }
  }

  lemma FirstIsBelowLast(events: seq<Event>, rank: int)
    requires NamesAscend(events) && events != []
    requires OfRank(events[..|events| - 1], rank) != []
    ensures OfRank(events, rank)[0] == OfRank(events[..|events| - 1], rank)[0]
    ensures OfRank(events, rank)[0].name != events[|events| - 1].name
  {
    var init := events[..|events| - 1];
    BelowLast(events);
    OfRankMembers(init, rank);
    assert OfRank(init, rank)[0] in init;
  }

  // ---- listing ------------------------------------------------------------

  /** What a pass of the scan loop handles: the entries of the lowest rank. */
  ghost function Lowest(entries: seq<Ranked>): seq<string> {
    if entries == [] then [] else NamesOf(UpToRank(entries, entries[0].rank))
  }

  ghost function UpToRank(entries: seq<Ranked>, rank: int): seq<Ranked> {
    if entries == [] || entries[0].rank > rank then [] else [entries[0]] + UpToRank(entries[1..], rank)
  }

  lemma {:induction false} UpToRankIs(entries: seq<Ranked>, rank: int)
    requires Ascending(Before, entries)
    ensures Ascending(Before, UpToRank(entries, rank))
    ensures forall e :: e in UpToRank(entries, rank) <==> e in entries && e.rank <= rank
  {
    if entries != [] {
      UpToRankIs(entries[1..], rank);
      assert entries == [entries[0]] + entries[1..];
      assert forall e :: e in entries[1..] ==> Before(entries[0], e);
      if entries[0].rank <= rank {
        var rest := UpToRank(entries[1..], rank);
        forall i | 0 <= i < |rest| ensures Before(entries[0], rest[i]) {
          assert rest[i] in rest;
        }
      }
    }
  }

  lemma {:induction false} UpToRankIsPrefix(entries: seq<Ranked>, rank: int)
    ensures var n := |UpToRank(entries, rank)|;
      && n <= |entries| && UpToRank(entries, rank) == entries[..n]
      && (forall k :: 0 <= k < n ==> entries[k].rank <= rank)
      && (n < |entries| ==> entries[n].rank > rank)
  {
    if entries != [] && entries[0].rank <= rank {
      UpToRankIsPrefix(entries[1..], rank);
      var n := |UpToRank(entries[1..], rank)|;
      assert entries[..n + 1] == [entries[0]] + entries[1..][..n];
      assert forall k :: 0 < k < |entries| ==> entries[k] == entries[1..][k - 1];
    }
  }

  /** The listing that a pass works through is that of the first type. */
  lemma LowestIsOfFirstType(dir: Dir)
    requires Loadable(dir)
    ensures AreFirstType(dir, Lowest(TotalOrder(Ranks(dir))))
  {
    var entries := TotalOrder(Ranks(dir));
    if entries == [] {
      FirstRankIsFirstType(dir, 0);
    } else {
      UpToRankIsPrefix(entries, entries[0].rank);
      FirstRankIsFirstType(dir, |UpToRank(entries, entries[0].rank)|);
    }
  }

  lemma {:induction false} OfRankOfBoth(first: seq<Event>, second: seq<Event>, rank: int)
    ensures OfRank(first + second, rank) == OfRank(first, rank) + OfRank(second, rank)
  {
    if second == [] {
      assert first + [] == first;
    } else {
      var n := |second| - 1;
      OfRankOfBoth(first, second[..n], rank);
      assert (first + second)[..|first| + n] == first + second[..n];
    }
  }

  /** Two events of one type keep their order. */
  lemma {:induction false} OfRankKeepsOrder(events: seq<Event>, rank: int, i: nat, j: nat) returns (a: nat, b: nat)
    requires i < j < |events| && events[i].obj.Rank() == events[j].obj.Rank() == rank
    ensures a < b < |OfRank(events, rank)|
    ensures OfRank(events, rank)[a] == events[i] && OfRank(events, rank)[b] == events[j]
  {
    var init := events[..|events| - 1];
    if j < |init| {
      a, b := OfRankKeepsOrder(init, rank, i, j);
    } else {
      OfRankMembers(init, rank);
      assert init[i] in OfRank(init, rank);
      a :| 0 <= a < |OfRank(init, rank)| && OfRank(init, rank)[a] == init[i];
      b := |OfRank(init, rank)|;
    }
  }

  function RankedEvent(e: Event): Ranked {
    Ranked(e.obj.Rank(), e.name)
  }

  /** The entries of a directory are those of the events that wait in it. */
  lemma EntriesAreEvents(events: seq<Event>, dir: Dir)
    requires NamesAscend(events) && dir.files == FilesOf(events)
    ensures Ascending(Before, TotalOrder(Ranks(dir)))
    ensures forall i :: 0 <= i < |events| ==> RankedEvent(events[i]) in TotalOrder(Ranks(dir))
    ensures forall p :: p in TotalOrder(Ranks(dir)) ==> exists i :: 0 <= i < |events| && RankedEvent(events[i]) == p
  {
    var ranks := Ranks(dir);
    FilesOfAre(events);
    assert forall p :: p in TotalOrder(ranks) <==> p in Pairs(ranks);
    forall i | 0 <= i < |events| ensures RankedEvent(events[i]) in TotalOrder(ranks) {
      InPairs(ranks, RankedEvent(events[i]));
    }
    forall p | p in TotalOrder(ranks) ensures exists i :: 0 <= i < |events| && RankedEvent(events[i]) == p {
      InPairs(ranks, p);
      assert p.name in EventNames(events);
      var i :| 0 <= i < |events| && EventNames(events)[i] == p.name;
      assert RankedEvent(events[i]) == p;
    }
  }

  /** The entries up to the lowest rank name the events of that rank, in order. */
  lemma LowestNames(events: seq<Event>, entries: seq<Ranked>, rank: int)
    requires NamesAscend(events) && Ascending(Before, entries)
    requires forall i :: 0 <= i < |events| ==> RankedEvent(events[i]) in entries && rank <= events[i].obj.Rank()
    requires forall p :: p in entries ==> exists i :: 0 <= i < |events| && RankedEvent(events[i]) == p
    ensures NamesOf(UpToRank(entries, rank)) == EventNames(OfRank(events, rank))
  {
    var low, typed := UpToRank(entries, rank), OfRank(events, rank);
    UpToRankIs(entries, rank);
    OfRankAscends(events, rank);
    LowestSameNames(events, entries, rank);
    var names := set name | name in NamesOf(low);
    assert Ascending(Less, NamesOf(low)) by {
      forall i, j | 0 <= i < j < |low| ensures Less(low[i].name, low[j].name) {
        assert Before(low[i], low[j]);
      }
    }
    SortedNamesUnique(names, NamesOf(low));
    SortedNamesUnique(names, EventNames(typed));
  }

  lemma LowestSameNames(events: seq<Event>, entries: seq<Ranked>, rank: int)
    requires Ascending(Before, entries)
    requires forall i :: 0 <= i < |events| ==> RankedEvent(events[i]) in entries && rank <= events[i].obj.Rank()
    requires forall p :: p in entries ==> exists i :: 0 <= i < |events| && RankedEvent(events[i]) == p
    ensures forall name :: name in NamesOf(UpToRank(entries, rank)) <==> name in EventNames(OfRank(events, rank))
  {
    forall name ensures name in NamesOf(UpToRank(entries, rank)) <==> name in EventNames(OfRank(events, rank)) {
      if name in NamesOf(UpToRank(entries, rank)) {
        LowestIsOfRank(events, entries, rank, name);
      }
      if name in EventNames(OfRank(events, rank)) {
        OfRankIsLowest(events, entries, rank, name);
      }
    }
  }

  lemma {:induction false} LowestIsOfRank(events: seq<Event>, entries: seq<Ranked>, rank: int, name: string)
    requires Ascending(Before, entries) && name in NamesOf(UpToRank(entries, rank))
    requires forall i :: 0 <= i < |events| ==> rank <= events[i].obj.Rank()
    requires forall p :: p in entries ==> exists i :: 0 <= i < |events| && RankedEvent(events[i]) == p
    ensures name in EventNames(OfRank(events, rank))
  {
    var low, typed := UpToRank(entries, rank), OfRank(events, rank);
    UpToRankIs(entries, rank);
    OfRankMembers(events, rank);
    var k :| 0 <= k < |low| && NamesOf(low)[k] == name;
    assert low[k] in low;
    var i :| 0 <= i < |events| && RankedEvent(events[i]) == low[k];
    assert events[i] in typed;
    var j :| 0 <= j < |typed| && typed[j] == events[i];
    assert EventNames(typed)[j] == name;
  }

  lemma {:induction false} OfRankIsLowest(events: seq<Event>, entries: seq<Ranked>, rank: int, name: string)
    requires Ascending(Before, entries) && name in EventNames(OfRank(events, rank))
    requires forall i :: 0 <= i < |events| ==> RankedEvent(events[i]) in entries
    ensures name in NamesOf(UpToRank(entries, rank))
  {
    var low, typed := UpToRank(entries, rank), OfRank(events, rank);
    UpToRankIs(entries, rank);
    OfRankMembers(events, rank);
    var j :| 0 <= j < |typed| && EventNames(typed)[j] == name;
    assert typed[j] in typed;
    var i :| 0 <= i < |events| && events[i] == typed[j];
    assert RankedEvent(events[i]) in low;
    var k :| 0 <= k < |low| && low[k] == RankedEvent(events[i]);
    assert NamesOf(low)[k] == name;
  }

  /** The lowest entries of a directory are the waiting events of the lowest type present,
      in order. */
  lemma LowestIsFirstType(events: seq<Event>, dir: Dir) returns (rank: int)
    requires NamesAscend(events) && dir.files == FilesOf(events) && events != []
    ensures Lowest(TotalOrder(Ranks(dir))) == EventNames(OfRank(events, rank))
    ensures forall i :: 0 <= i < |events| ==> rank <= events[i].obj.Rank()
    ensures OfRank(events, rank) != []
  {
    var entries := TotalOrder(Ranks(dir));
    EntriesAreEvents(events, dir);
    assert RankedEvent(events[0]) in entries;
    rank := entries[0].rank;
    forall i | 0 <= i < |events| ensures rank <= events[i].obj.Rank() {
      var p := RankedEvent(events[i]);
      var k :| 0 <= k < |entries| && entries[k] == p;
      assert k > 0 ==> Before(entries[0], entries[k]);
    }
    LowestNames(events, entries, rank);
    assert entries[0] in entries;
    var i :| 0 <= i < |events| && RankedEvent(events[i]) == entries[0];
    OfRankMembers(events, rank);
    assert events[i] in OfRank(events, rank);
  }
}
