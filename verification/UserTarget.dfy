/** Applying user events to a target system through its Kelvin API. */
module UserTarget {
  import opened Options
  import opened Listener
  import opened Names

  /** A user account on the target; `attrs` are the attributes other than the identity pair. */
  datatype Account = Account(recordUid: string, sourceUid: string, attrs: map<string, string>)

  /** Accounts under the handles that the target gave them, and the next handle. */
  datatype Target = Target(accounts: map<nat, Account>, next: nat)

  /** What the handler knows besides the object: the lower case names of the schools on
      the target, and the configured default source UID. */
  datatype Env = Env(schools: set<string>, defaultSource: string)

  datatype Error = KeyError | UniquenessError | NotHandled | MappingError | RequestError

  /** What can go wrong besides: mapping the attributes, changing the account on the target, or
      something before either, as asking for its schools. */
  datatype Trouble = NoTrouble | MappingFails | ChangeFails | RequestFails
  datatype Outcome = Done | Raised(error: Error)
  datatype Result = Result(target: Target, outcome: Outcome)

  ghost predicate Valid(target: Target) {
    forall h :: h in target.accounts ==> h < target.next
  }

  // ---- searching ----------------------------------------------------------

  datatype Params = NoParams | Params(recordUid: string, sourceUid: string)

  function OldUid(obj: ListenerObject, record: bool): string
    requires !obj.Other?
  {
    match obj.previous
    case Some(UserSnapshot(_, recordUid, sourceUid)) => if record then recordUid else sourceUid
    case _ => ""
  }

  /** `search_params`: the identity pair of the old data, where present, before that of
      the object.  For a removal without either, a key is missing. */
  function SearchParams(env: Env, obj: ListenerObject): Params
    requires obj.IsUser()
  {
    var oldRecord, oldSource := OldUid(obj, true), OldUid(obj, false);
    if obj.Remove? then
      if oldRecord == "" || oldSource == "" then NoParams else Params(oldRecord, oldSource)
    else
      var recordUid := if oldRecord != "" then oldRecord else obj.data.recordUid;
      var sourceUid := if oldSource != "" then oldSource else obj.data.sourceUid;
      Params(recordUid, if sourceUid != "" then sourceUid else env.defaultSource)
  }

  /** The first of the candidates that is not empty, or the last one. */
  ghost predicate IsFirstGiven(candidates: seq<string>, s: string) {
    exists i :: 0 <= i < |candidates| && candidates[i] == s && (s != "" || i == |candidates| - 1)
      && forall j :: 0 <= j < i ==> candidates[j] == ""
  }

  ghost predicate HasUserData(previous: Option<Snapshot>) {
    previous.Some? && previous.value.UserSnapshot?
  }

  /** The identity pair that a user is searched by: after a change that of the old data, then the
      new one, and at last the default source; for a removal that of the old data alone. */
  lemma {:induction false} SearchedPair(env: Env, obj: ListenerObject)
    requires obj.IsUser()
    ensures var params := SearchParams(env, obj);
      && (obj.AddMod? && HasUserData(obj.previous) ==>
            && params.Params?
            && IsFirstGiven([obj.previous.value.recordUid, obj.data.recordUid], params.recordUid)
            && IsFirstGiven([obj.previous.value.sourceUid, obj.data.sourceUid, env.defaultSource], params.sourceUid))
      && (obj.AddMod? && !HasUserData(obj.previous) ==>
            && params.Params? && params.recordUid == obj.data.recordUid
            && IsFirstGiven([obj.data.sourceUid, env.defaultSource], params.sourceUid))
      && (obj.Remove? ==>
            if HasUserData(obj.previous) && obj.previous.value.recordUid != "" && obj.previous.value.sourceUid != ""
            then params == Params(obj.previous.value.recordUid, obj.previous.value.sourceUid)
            else params == NoParams)
  {
    if obj.AddMod? {
      var params := SearchParams(env, obj);
      if HasUserData(obj.previous) {
        FirstGiven([obj.previous.value.recordUid, obj.data.recordUid], if obj.previous.value.recordUid != "" then 0 else 1);
        FirstGiven([obj.previous.value.sourceUid, obj.data.sourceUid, env.defaultSource],
          if obj.previous.value.sourceUid != "" then 0 else if obj.data.sourceUid != "" then 1 else 2);
      } else {
        FirstGiven([obj.data.sourceUid, env.defaultSource], if obj.data.sourceUid != "" then 0 else 1);
      }
    }
  }

  lemma FirstGiven(candidates: seq<string>, i: nat)
    requires i < |candidates| && (candidates[i] != "" || i == |candidates| - 1)
    requires forall j :: 0 <= j < i ==> candidates[j] == ""
    ensures IsFirstGiven(candidates, candidates[i])
  {
  }

  predicate HasIdentity(account: Account, recordUid: string, sourceUid: string) {
    account.recordUid == recordUid && account.sourceUid == sourceUid
  }

  ghost function Find(target: Target, recordUid: string, sourceUid: string): set<nat> {
    set h | h in target.accounts && HasIdentity(target.accounts[h], recordUid, sourceUid)
  }

  datatype Search = MissingData | Failed(error: Error) | Absent | Found(handle: nat)

  /** `exists_on_target` */
  ghost function SearchFor(target: Target, env: Env, obj: ListenerObject): (r: Search)
    requires obj.IsUser()
    ensures r.Found? ==> r.handle in target.accounts
  {
    match SearchParams(env, obj)
    case NoParams => Failed(KeyError)
    case Params(recordUid, sourceUid) =>
      var found := Find(target, recordUid, sourceUid);
      if recordUid == "" || sourceUid == "" then MissingData
      else if found == {} then Absent
      else if |found| > 1 then Failed(UniquenessError)
      else var h :| h in found; Found(h)
  }

  // ---- the operations as functions of the target --------------------------

  /** `user_has_schools`: one of the user's schools is known on the target. */
  predicate HasSchools(env: Env, obj: ListenerObject)
    requires obj.IsUserChange()
  {
    exists school :: school in obj.data.schools && Lower(school) in env.schools
  }

  /** The removal that `handle_has_no_schools` makes of a change. */
  function RemovalOf(obj: ListenerObject): (r: ListenerObject)
    requires obj.IsUserChange()
    ensures r.Remove? && r.IsUser()
  {
    Remove(obj.id, true, None, if obj.previous.Some? then obj.previous else Some(SnapshotOf(obj.data)))
  }

  /** An account made of a request body. */
  function NewAccount(obj: ListenerObject): Account
    requires obj.IsUserChange()
  {
    Account(obj.data.recordUid, obj.data.sourceUid, obj.data.body)
  }

  /** Attributes that are not sent keep their value. */
  function Modified(account: Account, obj: ListenerObject): Account
    requires obj.IsUserChange()
  {
    Account(
      if obj.data.recordUid != "" then obj.data.recordUid else account.recordUid,
      if obj.data.sourceUid != "" then obj.data.sourceUid else account.sourceUid,
      account.attrs + obj.data.body)
  }

  ghost function CreateOrUpdate(target: Target, env: Env, obj: ListenerObject, trouble: Trouble): Result
    requires obj.IsUserChange()
  {
    if trouble.MappingFails? then Result(target, Raised(MappingError))
    else match SearchFor(target, env, obj)
         case Found(h) =>
           if trouble.ChangeFails? then Result(target, Raised(RequestError))
           else Result(target.(accounts := target.accounts[h := Modified(target.accounts[h], obj)]), Done)
         case Absent =>
           if trouble.ChangeFails? then Result(target, Raised(RequestError))
           else Result(Target(target.accounts[target.next := NewAccount(obj)], target.next + 1), Done)
         case MissingData => Result(target, Done)
         case Failed(error) => Result(target, Raised(error))
  }

  /** Updating an account writes what the event carries and keeps all else. */
  lemma {:induction false} UpdatedAccount(target: Target, env: Env, obj: ListenerObject, h: nat)
    requires obj.IsUserChange() && SearchFor(target, env, obj) == Found(h)
    ensures var after := CreateOrUpdate(target, env, obj, NoTrouble).target;
      && after.accounts.Keys == target.accounts.Keys
      && (forall other :: other in target.accounts && other != h ==> after.accounts[other] == target.accounts[other])
      && IsFirstGiven([obj.data.recordUid, target.accounts[h].recordUid], after.accounts[h].recordUid)
      && IsFirstGiven([obj.data.sourceUid, target.accounts[h].sourceUid], after.accounts[h].sourceUid)
      && after.accounts[h].attrs.Keys == target.accounts[h].attrs.Keys + obj.data.body.Keys
      && (forall key :: key in obj.data.body ==> after.accounts[h].attrs[key] == obj.data.body[key])
      && (forall key :: key in target.accounts[h].attrs && key !in obj.data.body ==>
            after.accounts[h].attrs[key] == target.accounts[h].attrs[key])
  {
    FirstGiven([obj.data.recordUid, target.accounts[h].recordUid], if obj.data.recordUid != "" then 0 else 1);
    FirstGiven([obj.data.sourceUid, target.accounts[h].sourceUid], if obj.data.sourceUid != "" then 0 else 1);
  }

  /** A user without schools on the target is removed under its old identity, or under the one in
      the event if it has no old data. */
  lemma RemovedPair(env: Env, obj: ListenerObject, recordUid: string, sourceUid: string)
    requires obj.IsUserChange() && recordUid != "" && sourceUid != ""
    ensures SearchParams(env, RemovalOf(obj)) == Params(recordUid, sourceUid) <==>
            match obj.previous
            case None => recordUid == obj.data.recordUid && sourceUid == obj.data.sourceUid
            case Some(UserSnapshot(_, r, s)) => recordUid == r && sourceUid == s
            case Some(_) => false
  {
  }

  ghost function HandleRemove(target: Target, env: Env, obj: ListenerObject, trouble: Trouble): Result
    requires obj.Remove? && obj.IsUser()
  {
    match SearchFor(target, env, obj)
    case Found(h) =>
      if trouble.ChangeFails? then Result(target, Raised(RequestError))
      else Result(target.(accounts := target.accounts - {h}), Done)
    case Failed(error) => Result(target, Raised(error))
    case _ => Result(target, Done)
  }

  /** `handle_listener_object`; groups do not concern the accounts. */
  ghost function Handle(target: Target, env: Env, obj: ListenerObject, trouble: Trouble): (r: Result)
    ensures r.outcome != Done ==> r.target == target
  {
    if trouble.RequestFails? then Result(target, Raised(RequestError))
    else if obj.IsUserChange() then
      if HasSchools(env, obj)
      then CreateOrUpdate(target, env, obj, trouble)
      else HandleRemove(target, env, RemovalOf(obj), trouble)
    else if obj.IsUser() then HandleRemove(target, env, obj, trouble)
    else Result(target, if obj.Other? then Raised(NotHandled) else if trouble == NoTrouble then Done else Raised(RequestError))
  }

  // ---- the dispatcher -----------------------------------------------------

  /** The dispatcher of one school authority together with the target it talks to. */
  class UserDispatcher {
    const env: Env
    var accounts: map<nat, Account>
    var next: nat

    ghost function State(): Target
      reads this
    {
      Target(accounts, next)
    }

    constructor (env: Env)
      ensures this.env == env && State() == Target(map[], 0)
    {
      this.env := env;
      accounts, next := map[], 0;
    }

    /** `UserResource.search`: all accounts with the identity pair. */
    method FetchMatches(recordUid: string, sourceUid: string) returns (matches: seq<nat>)
      ensures forall h :: h in matches <==> h in Find(State(), recordUid, sourceUid)
      ensures |matches| == |Find(State(), recordUid, sourceUid)|
    {
      matches := [];
      var todo := accounts.Keys;
      ghost var found, seen: set<nat> := Find(State(), recordUid, sourceUid), {};
      assert found - todo == {};
      while todo != {}
        invariant todo <= accounts.Keys && seen == found - todo
        invariant forall h :: h in matches <==> h in seen
        invariant |matches| == |seen|
        decreases todo
      {
        var h :| h in todo;
        OneLessToDo(found, todo, h);
        todo := todo - {h};
        if HasIdentity(accounts[h], recordUid, sourceUid) {
          matches := matches + [h];
          seen := seen + {h};
        }
      }
      assert seen == found;
    }

    method ExistsOnTarget(obj: ListenerObject) returns (search: Search)
      requires obj.IsUser()
      ensures search == SearchFor(State(), env, obj)
    {
      match SearchParams(env, obj)
      case NoParams =>
        search := Failed(KeyError);
      case Params(recordUid, sourceUid) =>
        if recordUid == "" || sourceUid == "" {
          return MissingData;
        }
        var matches := FetchMatches(recordUid, sourceUid);
        ghost var found := Find(State(), recordUid, sourceUid);
        if |matches| == 1 {
          assert matches[0] in found;
          SingletonHasOne(found, matches[0]);
          search := Found(matches[0]);
        } else if |matches| > 1 {
          search := Failed(UniquenessError);
        } else {
          assert found == {};
          search := Absent;
        }
    }

    method DoCreateOrUpdate(obj: ListenerObject, trouble: Trouble) returns (outcome: Outcome)
      requires obj.IsUserChange()
      modifies this
      ensures Result(State(), outcome) == CreateOrUpdate(old(State()), env, obj, trouble)
    {
      if trouble.MappingFails? {
        return Raised(MappingError);
      }
      var search := ExistsOnTarget(obj);
      match search
      case Found(h) =>
        if trouble.ChangeFails? {
          return Raised(RequestError);
        }
        accounts := accounts[h := Modified(accounts[h], obj)];
        outcome := Done;
      case Absent =>
        if trouble.ChangeFails? {
          return Raised(RequestError);
        }
        accounts := accounts[next := NewAccount(obj)];
        next := next + 1;
        outcome := Done;
      case MissingData =>
        outcome := Done;
      case Failed(error) =>
        outcome := Raised(error);
    }

    method DoRemove(obj: ListenerObject, trouble: Trouble) returns (outcome: Outcome)
      requires obj.Remove? && obj.IsUser()
      modifies this
      ensures Result(State(), outcome) == HandleRemove(old(State()), env, obj, trouble)
    {
      var search := ExistsOnTarget(obj);
      match search
      case Found(h) =>
        if trouble.ChangeFails? {
          return Raised(RequestError);
        }
        accounts := accounts - {h};
        outcome := Done;
      case Failed(error) =>
        outcome := Raised(error);
      case _ =>
        outcome := Done;
    }

    method HandleListenerObject(obj: ListenerObject, trouble: Trouble) returns (outcome: Outcome)
      modifies this
      ensures Result(State(), outcome) == Handle(old(State()), env, obj, trouble)
    {
      if trouble.RequestFails? {
        return Raised(RequestError);
      }
      if obj.IsUserChange() {
        var hasSchools := UserHasSchools(obj);
        if hasSchools {
          outcome := DoCreateOrUpdate(obj, trouble);
        } else {
          outcome := DoRemove(RemovalOf(obj), trouble);
        }
      } else if obj.IsUser() {
        outcome := DoRemove(obj, trouble);
      } else {
        outcome := if obj.Other? then Raised(NotHandled) else if trouble == NoTrouble then Done else Raised(RequestError);
      }
    }

    method UserHasSchools(obj: ListenerObject) returns (result: bool)
      requires obj.IsUserChange()
      ensures result <==> HasSchools(env, obj)
    {
      var current: seq<string> := [];
      for i := 0 to |obj.data.schools|
        invariant current != [] <==> exists k :: 0 <= k < i && Lower(obj.data.schools[k]) in env.schools
      {
        if Lower(obj.data.schools[i]) in env.schools {
          current := current + [obj.data.schools[i]];
        }
      }
      result := current != [];
    }
  }

  lemma OneLessToDo(found: set<nat>, todo: set<nat>, h: nat)
    requires h in todo
    ensures h !in found - todo
    ensures found - (todo - {h}) == if h in found then (found - todo) + {h} else found - todo
  {
  }

  lemma SingletonHasOne(s: set<nat>, h: nat)
    requires h in s && |s| == 1
    ensures s == {h}
  {
    assert |s - {h}| == 0;
  }
}
