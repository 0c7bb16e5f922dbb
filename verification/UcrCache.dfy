/** Reading UCR values through a cache that is cleared when the file is newer. */
module UcrCaches {
  import opened Options

  /** A UCR value or default; `Undefined` is `None`. */
  datatype Value = Undefined | Text(s: string) | Number(n: int) | Flag(b: bool)

  /** The lines of the UCR database that match `UCR_REGEX`, and its modification time. */
  datatype Database = Database(lines: seq<(string, string)>, mtime: real)

  /** The value in the first line for the variable, or the default. */
  function Scan(lines: seq<(string, string)>, ucr: string, default: Value): Value {
    if lines == [] then default
    else if lines[0].0 == ucr then Text(lines[0].1)
    else Scan(lines[1..], ucr, default)
  }

  /** What the cache takes for the same value, as Python's `==` does: `True` is 1. */
  function KeyOf(value: Value): Value {
    match value
    case Flag(b) => Number(if b then 1 else 0)
    case _ => value
  }

  predicate Same(x: Value, y: Value) {
    || x == y
    || (x in {Flag(true), Number(1)} && y in {Flag(true), Number(1)})
    || (x in {Flag(false), Number(0)} && y in {Flag(false), Number(0)})
  }

  lemma SameKey(x: Value, y: Value)
    ensures KeyOf(x) == KeyOf(y) <==> Same(x, y)
  {
  }

  type Cached = map<(string, Value), Value>

  function Forget(cache: Cached, evicted: set<(string, Value)>): Cached {
    cache - evicted
  }

  /** The state of `_ucr_db_mtime` and of the cache after `get_ucrv`, and what it returns;
      `evicted` are the entries that the bounded cache drops. */
  function Read(file: Option<Database>, mtime: real, cache: Cached, ucr: string, default: Value, evicted: set<(string, Value)>)
    : (real, Cached, Value)
  {
    if file == None then (mtime, cache, default)
    else
      var cleared := if mtime < file.value.mtime then map[] else cache;
      var newest := if mtime < file.value.mtime then file.value.mtime else mtime;
      var key := (ucr, KeyOf(default));
      if key in cleared then (newest, Forget(cleared, evicted), cleared[key])
      else
        var value := Scan(file.value.lines, ucr, default);
        (newest, Forget(cleared[key := value], evicted), value)
  }

  class UcrCache {
    var mtime: real
    var cache: Cached

    constructor ()
      ensures mtime == 0.0 && cache == map[]
    {
      mtime := 0.0;
      cache := map[];
    }

    method GetUcrv(file: Option<Database>, ucr: string, default: Value, evicted: set<(string, Value)>) returns (value: Value)
      modifies this
      ensures (mtime, cache, value) == Read(file, old(mtime), old(cache), ucr, default, evicted)
    {
      if file == None {
        return default;
      }
      if mtime < file.value.mtime {
        mtime := file.value.mtime;
        cache := map[];
      }
      var key := (ucr, KeyOf(default));
      if key in cache {
        value := cache[key];
      } else {
        value := ScanLines(file.value.lines, ucr, default);
        cache := cache[key := value];
      }
      cache := Forget(cache, evicted);
    }

    static method ScanLines(lines: seq<(string, string)>, ucr: string, default: Value) returns (value: Value)
      ensures value == Scan(lines, ucr, default)
    {
      for i := 0 to |lines|
        invariant Scan(lines, ucr, default) == Scan(lines[i..], ucr, default)
      {
        assert lines[i..][0] == lines[i] && lines[i..][1..] == lines[i + 1..];
        if lines[i].0 == ucr {
          return Text(lines[i].1);
        }
      }
      value := default;
    }
  }

  // ---- interleavings of writes and reads ------------------------------------

  datatype Access =
    | Write(file: Database)
    | Remove
    | Get(ucr: string, default: Value, evicted: set<(string, Value)>)

  /** `newest`: the modification time of the last write */
  datatype State = State(file: Option<Database>, newest: Option<real>, mtime: real, cache: Cached)

  const START := State(None, None, 0.0, map[])

  function Next(state: State, event: Access): State {
    match event
    case Write(file) => state.(file := Some(file), newest := Some(file.mtime))
    case Remove => state.(file := None)
    case Get(ucr, default, evicted) =>
      var (mtime, cache, _) := Read(state.file, state.mtime, state.cache, ucr, default, evicted);
      state.(mtime := mtime, cache := cache)
  }

  function After(events: seq<Access>): State {
    if events == [] then START else Next(After(events[..|events| - 1]), events[|events| - 1])
  }

  /** Every write has a modification time after the epoch and after that of the write before. */
  predicate TimesIncrease(events: seq<Access>) {
    events != [] ==>
      var before, event := After(events[..|events| - 1]), events[|events| - 1];
      && TimesIncrease(events[..|events| - 1])
      && (event.Write? ==> event.file.mtime >= 0.0 && (before.newest.Some? ==> before.newest.value < event.file.mtime))
  }

  ghost predicate Coherent(state: State) {
    && (state.newest == None ==> state.file == None && state.cache == map[] && state.mtime == 0.0)
    && (state.newest.Some? ==> 0.0 <= state.newest.value && state.mtime <= state.newest.value)
    && (state.file.Some? ==> state.newest == Some(state.file.value.mtime))
    && (state.file.Some? && state.mtime == state.file.value.mtime ==>
          forall key :: key in state.cache ==> KeyOf(state.cache[key]) == Scan(state.file.value.lines, key.0, key.1))
  }

  lemma {:induction false} ScanOfKey(lines: seq<(string, string)>, ucr: string, default: Value)
    ensures KeyOf(Scan(lines, ucr, default)) == Scan(lines, ucr, KeyOf(default))
  {
    if lines != [] && lines[0].0 != ucr {
      ScanOfKey(lines[1..], ucr, default);
    }
  }

  lemma {:induction false} RunIsCoherent(events: seq<Access>)
    requires TimesIncrease(events)
    ensures Coherent(After(events))
  {
    if events != [] {
      var state, event := After(events[..|events| - 1]), events[|events| - 1];
      RunIsCoherent(events[..|events| - 1]);
      if event.Get? && state.file.Some? {
        ScanOfKey(state.file.value.lines, event.ucr, event.default);
      }
    }
  }

  /** What a scan of the file that is there now gives. */
  function Uncached(file: Option<Database>, ucr: string, default: Value): Value {
    match file
    case None => default
    case Some(f) => Scan(f.lines, ucr, default)
  }

  /** The value that a read returns. */
  function ReadValue(state: State, ucr: string, default: Value, evicted: set<(string, Value)>): Value {
    Read(state.file, state.mtime, state.cache, ucr, default, evicted).2
  }

  /** If every write raises the modification time, then after any writes and reads, whatever the
      cache dropped, a read returns what an uncached scan would, or a value that is equal to it;
      the very same unless the default is one of those that equal another one. */
  lemma ReadsAreCurrent(events: seq<Access>, ucr: string, default: Value, evicted: set<(string, Value)>)
    requires TimesIncrease(events)
    ensures var state := After(events);
      && Same(ReadValue(state, ucr, default, evicted), Uncached(state.file, ucr, default))
      && (!default.Flag? && default != Number(0) && default != Number(1) ==>
            ReadValue(state, ucr, default, evicted) == Uncached(state.file, ucr, default))
  {
    RunIsCoherent(events);
    var state := After(events);
    if state.file.Some? {
      ScanOfKey(state.file.value.lines, ucr, default);
      ScanIs(state.file.value.lines, ucr, default);
    }
  }

  lemma {:induction false} ScanIs(lines: seq<(string, string)>, ucr: string, default: Value)
    ensures Scan(lines, ucr, default) == default || Scan(lines, ucr, default).Text?
  {
    if lines != [] && lines[0].0 != ucr {
      ScanIs(lines[1..], ucr, default);
    }
  }

  /** A read with the default `True` can return 1. */
  lemma TrueCanBeOne(ucr: string, time: real)
    requires time >= 0.0
    ensures var events := [Write(Database([], time)), Get(ucr, Number(1), {})];
      && TimesIncrease(events)
      && ReadValue(After(events), ucr, Flag(true), {}) == Number(1)
      && Uncached(After(events).file, ucr, Flag(true)) == Flag(true)
  {
    var write, get := Write(Database([], time)), Get(ucr, Number(1), {});
    AfterOneMore([], write);
    AfterOneMore([write], get);
    assert [] + [write] == [write] && [write] + [get] == [write, get];
    assert TimesIncrease([write, get][..1]) by {
      assert [write, get][..1] == [write] && [write][..0] == [];
    }
  }

  lemma AfterOneMore(events: seq<Access>, event: Access)
    ensures After(events + [event]) == Next(After(events), event)
  {
    assert (events + [event])[..|events|] == events;
  }

  /** Exactly when the next read notices that the file was written after a read: if the cache
      dropped the value, if the modification time was raised, or if the value is the same. */
  lemma WriteIsNoticedIff(events: seq<Access>, ucr: string, default: Value, evicted: set<(string, Value)>, file: Database)
    requires TimesIncrease(events) && After(events).file.Some? && file.mtime >= 0.0
    ensures var state, after := After(events), After(events + [Get(ucr, default, evicted)] + [Write(file)]);
      Same(ReadValue(after, ucr, default, {}), Uncached(after.file, ucr, default)) <==>
      || (ucr, KeyOf(default)) in evicted
      || state.file.value.mtime < file.mtime
      || Same(Scan(file.lines, ucr, default), Scan(state.file.value.lines, ucr, default))
  {
    var state := After(events);
    AfterOneMore(events, Get(ucr, default, evicted));
    AfterOneMore(events + [Get(ucr, default, evicted)], Write(file));
    RunIsCoherent(events);
    ScanOfKey(state.file.value.lines, ucr, default);
  }

  /** A write that leaves the modification time as it is goes unnoticed. */
  lemma SameTimeIsStale(ucr: string, one: string, two: string, time: real)
    requires one != two && time >= 0.0
    ensures var events := [Write(Database([(ucr, one)], time)), Get(ucr, Undefined, {}), Write(Database([(ucr, two)], time))];
      var state := After(events);
      && ReadValue(state, ucr, Undefined, {}) == Text(one)
      && Uncached(state.file, ucr, Undefined) == Text(two)
  {
    var first, get, second := Write(Database([(ucr, one)], time)), Get(ucr, Undefined, {}), Write(Database([(ucr, two)], time));
    AfterOneMore([], first);
    AfterOneMore([first], get);
    AfterOneMore([first, get], second);
    assert [] + [first] == [first] && [first] + [get] == [first, get] && [first, get] + [second] == [first, get, second];
  }
}
