module Options {
  datatype Option<+T> = None | Some(value: T)
}

/** Listener objects: what the JSON files in the queues contain. */
module Listener {
  import opened Options

  /** The `old_data` entries kept for users and for groups.  An absent or empty
      `record_uid` or `source_uid` is the empty string; the code only asks
      whether they are truthy. */
  datatype Snapshot =
    | UserSnapshot(schools: seq<string>, recordUid: string, sourceUid: string)
    | GroupSnapshot(users: seq<string>)

  /** The `object` of an add or modify event.  `body` is the request body that
      `map_attributes` makes of a user, without the two identifiers; `ou` is what the
      school class pattern finds in the DN of a group. */
  datatype Data =
    | User(schools: seq<string>, recordUid: string, sourceUid: string, body: map<string, string>)
    | Group(ou: Option<string>, users: seq<string>)

  /** `Other` stands for objects of types that only custom plugins load. */
  datatype ListenerObject =
    | AddMod(id: string, data: Data, previous: Option<Snapshot>)
    | Remove(id: string, isUser: bool, ou: Option<string>, previous: Option<Snapshot>)
    | Other(id: string, udmType: string)
  {
    predicate IsUser() {
      (AddMod? && data.User?) || (Remove? && isUser)
    }

    predicate IsUserChange() {
      AddMod? && data.User?
    }

    /** `queue_sort_order.index(udm_object_type)`, or 999 for other types */
    function Rank(): int {
      if IsUser() then 0 else if Other? then 999 else 1
    }
  }

  /** Users come first, then groups, and objects of other types last. */
  ghost predicate ComesFirst(x: ListenerObject, y: ListenerObject) {
    (x.IsUser() && !y.IsUser()) || (!x.Other? && y.Other?)
  }

  ghost predicate SameType(x: ListenerObject, y: ListenerObject) {
    (x.IsUser() <==> y.IsUser()) && (x.Other? <==> y.Other?)
  }

  lemma RankIsTypeOrder(x: ListenerObject, y: ListenerObject)
    ensures x.Rank() < y.Rank() <==> ComesFirst(x, y)
    ensures x.Rank() == y.Rank() <==> SameType(x, y)
  {
  }

  function SnapshotOf(data: Data): Snapshot {
    match data
    case User(schools, recordUid, sourceUid, _) => UserSnapshot(schools, recordUid, sourceUid)
    case Group(_, users) => GroupSnapshot(users)
  }

  /** A file that no `get_listener_object` hook can load, or the JSON text of an object. */
  datatype Content = Garbage(text: string) | Json(obj: ListenerObject)

  function Load(content: Content): Option<ListenerObject> {
    match content
    case Garbage(_) => None
    case Json(obj) => Some(obj)
  }
}
