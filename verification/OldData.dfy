/** The history of previous object data that the in queue attaches to events. */
module OldData {
  import opened Options
  import opened Listener

  datatype OldEntry = OldEntry(snapshot: Snapshot, expires: Option<int>)
  type Db = map<string, OldEntry>

  /** Seconds an entry is kept after the removal of its object. */
  const WEEK := 7 * 24 * 3600

  // ---- the key value store ------------------------------------------------

  predicate Alive(entry: OldEntry, now: int) {
    entry.expires.None? || now < entry.expires.value
  }

  function Get(db: Db, id: string, now: int): Option<Snapshot> {
    if id in db && Alive(db[id], now) then Some(db[id].snapshot) else None
  }

  function Set(db: Db, id: string, snapshot: Snapshot): Db {
    db[id := OldEntry(snapshot, None)]
  }

  function Touch(db: Db, id: string, now: int, expire: int): Db {
    if id in db && Alive(db[id], now)
    then db[id := OldEntry(db[id].snapshot, Some(now + expire))]
    else db
  }

  // ---- preprocessing ------------------------------------------------------

  /** The database after `preprocess_add_mod_object` or `preprocess_remove_object`. */
  function DbAfter(db: Db, obj: ListenerObject, now: int): Db {
    match obj
    case AddMod(id, data, _) => Set(db, id, SnapshotOf(data))
    case Remove(id, _, _, _) => if Get(db, id, now).Some? then Touch(db, id, now, WEEK) else db
    case Other(_, _) => db
  }

  /** The object with the `old_data` that preprocessing gives it. */
  function WithOld(db: Db, obj: ListenerObject, now: int): ListenerObject {
    match obj
    case AddMod(id, data, _) => AddMod(id, data, Get(db, id, now))
    case Remove(id, isUser, ou, _) => Remove(id, isUser, ou, Get(db, id, now))
    case Other(_, _) => obj
  }

  /** The hooks of the user and the group listener object handler, which share one database. */
  class ListenerObjectHandler {
    var db: Db

    constructor ()
      ensures db == map[]
    {
      db := map[];
    }

    /** `changed` says whether the object has to be saved back to its file;
        `passwords` whether LDAP knows password hashes of the user. */
    method PreprocessAddMod(obj: ListenerObject, now: int, passwords: bool)
      returns (result: ListenerObject, changed: bool)
      requires obj.AddMod?
      modifies this
      ensures db == DbAfter(old(db), obj, now)
      ensures result == WithOld(old(db), obj, now)
      ensures changed <==> result.previous.Some? || (obj.data.User? && passwords)
    {
      result := AddMod(obj.id, obj.data, Get(db, obj.id, now));
      db := Set(db, obj.id, SnapshotOf(obj.data));
      changed := result.previous.Some?;
      if obj.data.User? {
        changed := changed || passwords;
      }
    }

    method PreprocessRemove(obj: ListenerObject, now: int) returns (result: ListenerObject, changed: bool)
      requires obj.Remove?
      modifies this
      ensures db == DbAfter(old(db), obj, now)
      ensures result == WithOld(old(db), obj, now)
      ensures changed <==> result.previous.Some?
    {
      result := Remove(obj.id, obj.isUser, obj.ou, Get(db, obj.id, now));
      changed := result.previous.Some?;
      if changed {
        db := Touch(db, obj.id, now, WEEK);
      }
    }
  }

  // ---- runs ---------------------------------------------------------------

  /** A preprocessed event: its in-queue stem, the object as saved and the time. */
  datatype Logged = Logged(stem: string, obj: ListenerObject, time: int)

  ghost function DbOf(log: seq<Logged>): Db {
    if log == [] then map[]
    else var last := log[|log| - 1]; DbAfter(DbOf(log[..|log| - 1]), last.obj, last.time)
  }

  ghost predicate TimesAscend(log: seq<Logged>, now: int) {
    && (forall i, j :: 0 <= i <= j < |log| ==> log[i].time <= log[j].time)
    && (forall i :: 0 <= i < |log| ==> log[i].time <= now)
  }

  predicate IsChange(e: Logged, id: string) { e.obj.AddMod? && e.obj.id == id }

  predicate IsRemove(e: Logged, id: string) { e.obj.Remove? && e.obj.id == id }

  /** The latest add or modify event of `id` is the one at `a`. */
  ghost predicate IsLatestChange(log: seq<Logged>, id: string, a: int) {
    && 0 <= a < |log| && IsChange(log[a], id)
    && forall i :: a < i < |log| ==> !IsChange(log[i], id)
  }

  /** What is remembered of an object: the schools and the identity pair of a user, and the
      members of a group. */
  ghost predicate Remembers(snapshot: Snapshot, data: Data) {
    && (data.User? ==> snapshot == UserSnapshot(data.schools, data.recordUid, data.sourceUid))
    && (data.Group? ==> snapshot == GroupSnapshot(data.users))
  }

  /** The removal at `i` is followed by another one, or by `now`, within a week of 604800 seconds. */
  ghost predicate FollowedInTime(log: seq<Logged>, id: string, i: int, now: int)
    requires 0 <= i < |log|
  {
    now < log[i].time + 604800 ||
    exists j :: i < j < |log| && IsRemove(log[j], id) && log[j].time < log[i].time + 604800
  }

  ghost predicate KeptAlive(log: seq<Logged>, id: string, a: int, now: int)
    requires 0 <= a < |log|
  {
    forall i :: a < i < |log| && IsRemove(log[i], id) ==> FollowedInTime(log, id, i, now)
  }

  /** The declarative account of what preprocessing finds for `id` at time `now`. */
  ghost predicate IsHistory(log: seq<Logged>, id: string, now: int, found: Option<Snapshot>) {
    match found
    case Some(snapshot) =>
      exists a :: IsLatestChange(log, id, a) && KeptAlive(log, id, a, now) && Remembers(snapshot, log[a].obj.data)
    case None =>
      forall a :: IsLatestChange(log, id, a) ==> !KeptAlive(log, id, a, now)
  }

  /** Every event carries what the database held when it was preprocessed. */
  ghost predicate Attached(log: seq<Logged>) {
    forall i :: 0 <= i < |log| && !log[i].obj.Other? ==>
      log[i].obj.previous == Get(DbOf(log[..i]), log[i].obj.id, log[i].time)
  }

  lemma {:induction false} EntriesAreLatestChanges(log: seq<Logged>, id: string)
    ensures id in DbOf(log) <==> exists a :: IsLatestChange(log, id, a)
    ensures forall a :: IsLatestChange(log, id, a) ==> Remembers(DbOf(log)[id].snapshot, log[a].obj.data)
  {
    if log != [] {
      var init, last := log[..|log| - 1], log[|log| - 1];
      EntriesAreLatestChanges(init, id);
      if IsChange(last, id) {
        assert IsLatestChange(log, id, |log| - 1);
        assert forall a :: IsLatestChange(log, id, a) ==> a == |log| - 1;
      } else {
        assert forall a :: IsLatestChange(log, id, a) ==> IsLatestChange(init, id, a);
        assert forall a :: IsLatestChange(init, id, a) ==> IsLatestChange(log, id, a);
      }
    }
  }

  /** The entry of an object is alive exactly as long as no removal after its latest
      change is left alone for a week. */
  lemma {:induction false} AliveWhileFollowed(log: seq<Logged>, id: string, a: int, now: int)
    requires TimesAscend(log, now)
    requires IsLatestChange(log, id, a)
    ensures id in DbOf(log)
    ensures Alive(DbOf(log)[id], now) <==> KeptAlive(log, id, a, now)
  {
    EntriesAreLatestChanges(log, id);
    var init, last := log[..|log| - 1], log[|log| - 1];
    if a < |log| - 1 {
      assert IsLatestChange(init, id, a);
      if IsRemove(last, id) {
        AliveWhileFollowed(init, id, a, last.time);
        RemoveExtends(log, id, a, now);
      } else {
        AliveWhileFollowed(init, id, a, now);
        IgnoreOthers(log, id, a, now);
      }
    }
  }

  lemma RemoveExtends(log: seq<Logged>, id: string, a: int, now: int)
    requires TimesAscend(log, now)
    requires 0 <= a < |log| - 1 && IsRemove(log[|log| - 1], id)
    ensures KeptAlive(log, id, a, now) <==>
            KeptAlive(log[..|log| - 1], id, a, log[|log| - 1].time) && now < log[|log| - 1].time + WEEK
  {
    var n := |log| - 1;
    var init := log[..n];
    if KeptAlive(log, id, a, now) {
      assert FollowedInTime(log, id, n, now);
      forall i | a < i < n && IsRemove(init[i], id) ensures FollowedInTime(init, id, i, log[n].time) {
        assert FollowedInTime(log, id, i, now);
        if !(log[n].time < log[i].time + WEEK) {
          var j :| i < j < |log| && IsRemove(log[j], id) && log[j].time < log[i].time + WEEK;
          assert init[j] == log[j];
        }
      }
    }
    if KeptAlive(init, id, a, log[n].time) && now < log[n].time + WEEK {
      forall i | a < i < |log| && IsRemove(log[i], id) ensures FollowedInTime(log, id, i, now) {
        if i < n {
          assert FollowedInTime(init, id, i, log[n].time);
          if !(log[n].time < log[i].time + WEEK) {
            var j :| i < j < n && IsRemove(init[j], id) && init[j].time < init[i].time + WEEK;
            assert log[j] == init[j];
          }
        }
      }
    }
  }

  lemma IgnoreOthers(log: seq<Logged>, id: string, a: int, now: int)
    requires 0 <= a < |log| - 1 && !IsRemove(log[|log| - 1], id)
    ensures KeptAlive(log, id, a, now) <==> KeptAlive(log[..|log| - 1], id, a, now)
  {
    var n := |log| - 1;
    var init := log[..n];
    forall i | a < i < n && IsRemove(log[i], id)
      ensures FollowedInTime(log, id, i, now) <==> FollowedInTime(init, id, i, now)
    {
      assert forall j :: i < j < n ==> init[j] == log[j];
      if exists j :: i < j < |log| && IsRemove(log[j], id) && log[j].time < log[i].time + WEEK {
        var j :| i < j < |log| && IsRemove(log[j], id) && log[j].time < log[i].time + WEEK;
        assert init[j] == log[j];
      }
    }
    if KeptAlive(log, id, a, now) {
      forall i | a < i < n && IsRemove(init[i], id) ensures FollowedInTime(init, id, i, now) {
        assert IsRemove(log[i], id);
      }
    }
  }

  /** What the database returns is the history, for every run. */
  lemma GetIsHistory(log: seq<Logged>, id: string, now: int)
    requires TimesAscend(log, now)
    ensures IsHistory(log, id, now, Get(DbOf(log), id, now))
  {
    EntriesAreLatestChanges(log, id);
    forall a | IsLatestChange(log, id, a)
      ensures Alive(DbOf(log)[id], now) <==> KeptAlive(log, id, a, now)
    {
      AliveWhileFollowed(log, id, a, now);
    }
  }

  /** In every run the `old_data` of an event is the snapshot of the latest earlier add
      or modify event of the same object; it is missing exactly when there is none or
      a later removal was left alone for a week. */
  lemma AttachedIsHistory(log: seq<Logged>, i: int)
    requires Attached(log) && 0 <= i < |log| && TimesAscend(log, log[|log| - 1].time)
    requires !log[i].obj.Other?
    ensures IsHistory(log[..i], log[i].obj.id, log[i].time, log[i].obj.previous)
  {
    assert TimesAscend(log[..i], log[i].time);
    GetIsHistory(log[..i], log[i].obj.id, log[i].time);
  }

  /** An add or modify event clears a pending expiry. */
  lemma ChangeClearsExpiry(log: seq<Logged>, id: string)
    requires log != [] && IsChange(log[|log| - 1], id)
    ensures id in DbOf(log) && DbOf(log)[id].expires == None
  {
  }

  /** While an object exists, that is unless its latest event is a removal, the next
      event carries the snapshot of that latest event. */
  lemma ExistingObjectIsRemembered(log: seq<Logged>, id: string, a: int, now: int)
    requires TimesAscend(log, now)
    requires IsLatestChange(log, id, a)
    requires forall i :: a < i < |log| ==> !IsRemove(log[i], id)
    ensures Get(DbOf(log), id, now).Some? && Remembers(Get(DbOf(log), id, now).value, log[a].obj.data)
  {
    AliveWhileFollowed(log, id, a, now);
    EntriesAreLatestChanges(log, id);
  }
}
