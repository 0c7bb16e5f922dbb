/** From the attributes of a user to the request body for the Kelvin API. */
module AttributeMapping {
  import opened Options
  import opened DeepMerge
  import DictUpdate

  /** The attributes that the Kelvin API has by name. */
  const KELVIN_ATTRIBUTES := {
    "name", "birthday", "disabled", "email", "expiration_date", "firstname", "lastname", "password",
    "record_uid", "roles", "school", "school_classes", "schools", "source_uid", "legal_wards",
    "legal_guardians", "ucsschool_roles"
  }
  const UDM_PROPERTIES := "udm_properties"
  const PASSWORD_HASHES := "kelvin_password_hashes"

  /** What a `_handle_attr_*` method does: raise `SkipAttribute`, raise anything else, or
      return a value. */
  datatype Fetched = Skipped | Raised | Got(value: Json)

  /** One item of the configured mapping. */
  datatype MappingItem = MappingItem(here: string, there: string)

  /** What a user event gives: the results of the special methods, by attribute, and the
      attributes themselves. */
  datatype Source = Source(special: map<string, Fetched>, attributes: map<string, Json>)

  /** `_handle_none_value` */
  function NoneValue(here: string): Fetched {
    if here == "birthday" || here == "userexpiry" then Got(Null)
    else if here == "ucsschoolLegalGuardian" || here == "ucsschoolLegalWard" then Got(Strs([]))
    else Skipped
  }

  function Fetch(source: Source, here: string): Fetched {
    var value :=
      if here in source.special then source.special[here]
      else if here in source.attributes then Got(source.attributes[here])
      else Got(Null);
    if value == Got(Null) then NoneValue(here) else value
  }

  /** The value of the special method for the attribute if there is one, and of the attribute itself
      otherwise; `Null` if it is missing. */
  ghost predicate HasValue(source: Source, here: string, value: Json) {
    if here in source.special then source.special[here] == Got(value)
    else if here in source.attributes then source.attributes[here] == value
    else value == Null
  }

  /** What is sent for an attribute: its value, if there is one.  Without one `Null` is sent for two
      attributes, the empty list for two others, and nothing for all the rest. */
  ghost predicate Gives(source: Source, here: string, value: Json) {
    || (value != Null && HasValue(source, here, value))
    || (HasValue(source, here, Null) && here in {"birthday", "userexpiry"} && value == Null)
    || (HasValue(source, here, Null) && here in {"ucsschoolLegalGuardian", "ucsschoolLegalWard"} && value == Strs([]))
  }

  /** The special method raises something other than `SkipAttribute`. */
  ghost predicate Raises(source: Source, here: string) {
    here in source.special && source.special[here] == Raised
  }

  lemma FetchIs(source: Source, here: string)
    ensures forall value :: Fetch(source, here) == Got(value) <==> Gives(source, here, value)
    ensures Fetch(source, here) == Raised <==> Raises(source, here)
  {
  }

  /** `_update_for_mapping_data`; `names` are the attributes at the top level. */
  function UpdateFor(names: set<string>, there: string, value: Json): (r: Json)
    ensures r.Dict?
  {
    if there in names then Dict(map[there := value])
    else Dict(map[UDM_PROPERTIES := Dict(map[there := value])])
  }

  /** `recursive_dict_update(res, updater)`, where `None` stands for an exception. */
  function Update(res: Option<Json>, updater: Json): (r: Option<Json>)
    requires (res.Some? ==> res.value.Dict?) && updater.Dict?
    ensures r.Some? ==> r.value.Dict?
  {
    if res.Some? && Mergeable(res.value, updater) then Some(Merged(res.value, updater, true)) else None
  }

  /** The request body that the items of the mapping make, in order. */
  function Mapped(names: set<string>, source: Source, entries: seq<MappingItem>): (r: Option<Json>)
    ensures r.Some? ==> r.value.Dict?
  {
    if entries == [] then Some(Dict(map[]))
    else
      var res := Mapped(names, source, entries[..|entries| - 1]);
      var entry := entries[|entries| - 1];
      match Fetch(source, entry.here)
      case Skipped => res
      case Raised => None
      case Got(value) => Update(res, UpdateFor(names, entry.there, value))
  }

  method MapAttributes(names: set<string>, source: Source, entries: seq<MappingItem>)
    returns (raised: bool, res: DictUpdate.PyDict)
    ensures raised <==> Mapped(names, source, entries) == None
    ensures fresh(res.repr) && res.Valid()
    ensures !raised ==> Mapped(names, source, entries) == Some(res.View())
  {
    raised := false;
    res := new DictUpdate.PyDict();
    for i := 0 to |entries|
      invariant !raised && fresh(res.repr) && res.Valid()
      invariant Mapped(names, source, entries[..i]) == Some(res.View())
    {
      assert entries[..i + 1][..i] == entries[..i];
      var entry := entries[i];
      match Fetch(source, entry.here) {
        case Skipped =>
        case Raised =>
          FailureStays(names, source, entries, i + 1);
          return true, res;
        case Got(value) =>
          raised := UpdateBody(names, res, entry.there, value, res.View());
          if raised {
            FailureStays(names, source, entries, i + 1);
            return;
          }
      }
    }
    assert entries[..|entries|] == entries;
  }

  method UpdateBody(names: set<string>, res: DictUpdate.PyDict, there: string, value: Json, ghost body: Json)
    returns (raised: bool)
    requires res.Valid() && res.View() == body
    modifies res.repr
    ensures res.Valid() && fresh(res.repr - old(res.repr))
    ensures raised <==> Update(Some(body), UpdateFor(names, there, value)) == None
    ensures !raised ==> Update(Some(body), UpdateFor(names, there, value)) == Some(res.View())
  {
    ghost var update := UpdateFor(names, there, value);
    var updater := DictUpdate.FromJson(UpdateFor(names, there, value));
    raised := DictUpdate.RecursiveDictUpdate(res, updater, true, body, update);
  }

  lemma {:induction false} FailureStays(names: set<string>, source: Source, entries: seq<MappingItem>, n: nat)
    requires n <= |entries| && Mapped(names, source, entries[..n]) == None
    ensures Mapped(names, source, entries) == None
    decreases |entries|
  {
    if n < |entries| {
      assert entries[..|entries| - 1][..n] == entries[..n];
      FailureStays(names, source, entries[..|entries| - 1], n);
    } else {
      assert entries[..n] == entries;
    }
  }

  // ---- one slot for each attribute of the target ---------------------------

  /** The request body that has exactly these values. */
  function Nested(names: set<string>, slots: map<string, Json>): (r: Json)
    ensures r.Dict?
  {
    var others := Others(names, slots);
    Dict(if others == map[] then Named(names, slots) else Named(names, slots)[UDM_PROPERTIES := Dict(others)])
  }

  function Named(names: set<string>, slots: map<string, Json>): map<string, Json> {
    map there | there in slots && there in names :: slots[there]
  }

  function Others(names: set<string>, slots: map<string, Json>): map<string, Json> {
    map there | there in slots && there !in names :: slots[there]
  }

  /** The new value of one slot, unless a dict meets something that cannot be merged. */
  function Combine(slots: map<string, Json>, there: string, value: Json): Option<Json> {
    if there in slots && slots[there].Dict? then
      if value.Dict? && Mergeable(slots[there], value) then Some(Merged(slots[there], value, true)) else None
    else Some(value)
  }

  function Put(slots: Option<map<string, Json>>, there: string, value: Json): Option<map<string, Json>> {
    if slots == None then None
    else
      var combined := Combine(slots.value, there, value);
      if combined == None then None else Some(slots.value[there := combined.value])
  }

  /** The slots that the items of the mapping fill, in order. */
  function Slots(source: Source, entries: seq<MappingItem>): Option<map<string, Json>> {
    if entries == [] then Some(map[])
    else
      WithItem(Slots(source, entries[..|entries| - 1]), source, entries[|entries| - 1])
  }

  function WithItem(slots: Option<map<string, Json>>, source: Source, entry: MappingItem): Option<map<string, Json>> {
    match Fetch(source, entry.here)
    case Skipped => slots
    case Raised => None
    case Got(value) => Put(slots, entry.there, value)
  }

  /** Updating one key of a dictionary. */
  lemma UpdateOneKey(res: Json, k: string, value: Json)
    requires res.Dict?
    ensures Mergeable(res, Dict(map[k := value])) <==>
            (k in res.entries && res.entries[k].Dict? ==> value.Dict? && Mergeable(res.entries[k], value))
    ensures Mergeable(res, Dict(map[k := value])) ==>
            Merged(res, Dict(map[k := value]), true) == Dict(res.entries[k :=
              if k in res.entries && res.entries[k].Dict? then Merged(res.entries[k], value, true) else value])
  {
    var updater := Dict(map[k := value]);
    assert Mergeable(res, updater) <==> MergeableAt(res, updater, k);
    if Mergeable(res, updater) {
      var after := if k in res.entries && res.entries[k].Dict? then Merged(res.entries[k], value, true) else value;
      forall j ensures j in Merged(res, updater, true).entries <==> j in res.entries[k := after]
               ensures j in res.entries[k := after] ==> Merged(res, updater, true).entries[j] == res.entries[k := after][j]
      {
        MergedKey(res, updater, true, j);
      }
      assert Merged(res, updater, true).entries == res.entries[k := after];
    }
  }

  lemma NestedPut(names: set<string>, slots: map<string, Json>, there: string, value: Json)
    requires UDM_PROPERTIES !in names
    ensures there in names ==>
      Nested(names, slots[there := value]).entries == Nested(names, slots).entries[there := value]
    ensures there !in names ==>
      Nested(names, slots[there := value]).entries ==
      Nested(names, slots).entries[UDM_PROPERTIES := Dict(Others(names, slots)[there := value])]
  {
    var after := slots[there := value];
    if there in names {
      assert Others(names, after) == Others(names, slots);
      assert Named(names, after) == Named(names, slots)[there := value];
    } else {
      assert there in Others(names, after);
      assert Others(names, after) == Others(names, slots)[there := value];
      assert Named(names, after) == Named(names, slots);
    }
  }

  /** Merging one attribute into the nested body is writing one slot. */
  lemma UpdateIsPut(names: set<string>, slots: map<string, Json>, there: string, value: Json)
    requires UDM_PROPERTIES !in names
    ensures Update(Some(Nested(names, slots)), UpdateFor(names, there, value)) ==
            match Put(Some(slots), there, value) { case None => None case Some(after) => Some(Nested(names, after)) }
  {
    var res := Nested(names, slots);
    var combined := Combine(slots, there, value);
    if combined.Some? {
      NestedPut(names, slots, there, combined.value);
    }
    if there in names {
      UpdateOneKey(res, there, value);
    } else {
      UpdateOneKey(Dict(Others(names, slots)), there, value);
      UpdateOneKey(res, UDM_PROPERTIES, Dict(map[there := value]));
      if Others(names, slots) == map[] && combined.Some? {
        assert map[there := value] == Others(names, slots)[there := value];
      }
    }
  }

  /** The nested body holds the slots: each Kelvin attribute at the top level, every other
      one among the UDM properties, and nothing else. */
  lemma {:induction false} MappedIsNested(names: set<string>, source: Source, entries: seq<MappingItem>)
    requires UDM_PROPERTIES !in names
    ensures Mapped(names, source, entries) ==
            match Slots(source, entries) { case None => None case Some(slots) => Some(Nested(names, slots)) }
  {
    if entries != [] {
      var first, entry := entries[..|entries| - 1], entries[|entries| - 1];
      MappedIsNested(names, source, first);
      var before := Slots(source, first);
      if before.Some? && Fetch(source, entry.here).Got? {
        UpdateIsPut(names, before.value, entry.there, Fetch(source, entry.here).value);
      }
    }
  }

  // ---- what ends up in the slots --------------------------------------------

  /** The items for one attribute of the target. */
  function ItemsFor(entries: seq<MappingItem>, there: string): (r: seq<MappingItem>)
    ensures forall entry :: entry in r ==> entry in entries && entry.there == there
  {
    if entries == [] then []
    else
      var rest := ItemsFor(entries[..|entries| - 1], there);
      if entries[|entries| - 1].there == there then rest + [entries[|entries| - 1]] else rest
  }

  /** The slots do not influence each other: the value of each is that made by its own items
      alone, and the mapping fails exactly when the items of some slot do. */
  lemma SlotsAreIndependent(source: Source, entries: seq<MappingItem>)
    ensures Slots(source, entries).Some? <==> forall there :: Slots(source, ItemsFor(entries, there)).Some?
    ensures Slots(source, entries).Some? ==> forall there :: SameSlot(source, entries, there)
  {
    if Slots(source, entries).Some? {
      forall there ensures SameSlot(source, entries, there) && Slots(source, ItemsFor(entries, there)).Some? {
        OwnItemsSuffice(source, entries, there);
      }
    } else {
      var there := FailingSlot(source, entries);
      assert !Slots(source, ItemsFor(entries, there)).Some?;
    }
  }

  lemma {:induction false} OwnItemsSuffice(source: Source, entries: seq<MappingItem>, there: string)
    requires Slots(source, entries).Some?
    ensures SameSlot(source, entries, there)
  {
    if entries != [] {
      var first, entry := entries[..|entries| - 1], entries[|entries| - 1];
      OwnItemsSuffice(source, first, there);
      OwnItemsEnd(entries, there);
      if entry.there == there {
        WithItemAgrees(Slots(source, first).value, Slots(source, ItemsFor(first, there)).value, source, entry);
      } else {
        assert ItemsFor(entries, there) == ItemsFor(first, there);
      }
    }
  }

  /** Two sets of slots that agree on the slot of an item agree on it after the item. */
  lemma WithItemAgrees(one: map<string, Json>, two: map<string, Json>, source: Source, entry: MappingItem)
    requires entry.there in one <==> entry.there in two
    requires entry.there in one ==> one[entry.there] == two[entry.there]
    ensures var left, right := WithItem(Some(one), source, entry), WithItem(Some(two), source, entry);
      && (left.Some? <==> right.Some?)
      && (left.Some? ==>
            && (entry.there in left.value <==> entry.there in right.value)
            && (entry.there in left.value ==> left.value[entry.there] == right.value[entry.there]))
  {
  }

  lemma OwnItemsEnd(entries: seq<MappingItem>, there: string)
    requires entries != []
    ensures entries[|entries| - 1].there == there ==>
      var own := ItemsFor(entries, there);
      own != [] && own[|own| - 1] == entries[|entries| - 1] && own[..|own| - 1] == ItemsFor(entries[..|entries| - 1], there)
  {
  }

  lemma {:induction false} FailingSlot(source: Source, entries: seq<MappingItem>) returns (there: string)
    requires Slots(source, entries) == None
    ensures Slots(source, ItemsFor(entries, there)) == None
  {
    var first, entry := entries[..|entries| - 1], entries[|entries| - 1];
    if Slots(source, first) == None {
      there := FailingSlot(source, first);
    } else {
      there := entry.there;
      OwnItemsSuffice(source, first, there);
      WithItemAgrees(Slots(source, first).value, Slots(source, ItemsFor(first, there)).value, source, entry);
    }
    OwnItemsEnd(entries, there);
  }

  ghost predicate SameSlot(source: Source, entries: seq<MappingItem>, there: string)
    requires Slots(source, entries).Some?
  {
    var all, own := Slots(source, entries).value, Slots(source, ItemsFor(entries, there));
    && own.Some?
    && (there in all <==> there in own.value)
    && (there in all ==> all[there] == own.value[there])
  }

  /** Items that share a target attribute carry plain values, not dictionaries. */
  ghost predicate SharePlainValues(source: Source, entries: seq<MappingItem>) {
    forall i, j :: 0 <= i < j < |entries| && entries[i].there == entries[j].there
      && Fetch(source, entries[i].here).Got? && Fetch(source, entries[j].here).Got?
      ==> !Fetch(source, entries[i].here).value.Dict?
  }

  /** The value of the last item for the attribute that was not skipped. */
  function LastValue(source: Source, entries: seq<MappingItem>, there: string): Option<Json> {
    if entries == [] then None
    else
      var entry := entries[|entries| - 1];
      if entry.there == there && Fetch(source, entry.here).Got? then Some(Fetch(source, entry.here).value)
      else LastValue(source, entries[..|entries| - 1], there)
  }

  ghost predicate SomeRaises(source: Source, entries: seq<MappingItem>) {
    exists i :: 0 <= i < |entries| && Raises(source, entries[i].here)
  }

  /** Then the only failures are those of the special methods, and in every slot the last
      item that was not skipped wins. */
  lemma {:induction false} LastWins(source: Source, entries: seq<MappingItem>)
    requires SharePlainValues(source, entries)
    ensures Slots(source, entries) == None <==> SomeRaises(source, entries)
    ensures Slots(source, entries).Some? ==>
      forall there :: SlotIs(Slots(source, entries).value, there, LastValue(source, entries, there))
  {
    if entries != [] {
      var n := |entries| - 1;
      var first, entry := entries[..n], entries[n];
      assert SharePlainValues(source, first) by {
        assert forall i :: 0 <= i < n ==> first[i] == entries[i];
      }
      LastWins(source, first);
      if Fetch(source, entry.here) == Raised {
        assert SomeRaises(source, entries);
      } else if SomeRaises(source, first) {
        var i :| 0 <= i < n && Fetch(source, first[i].here) == Raised;
        assert Fetch(source, entries[i].here) == Raised;
      } else {
        assert !SomeRaises(source, entries) by {
          forall i | 0 <= i < n ensures Fetch(source, entries[i].here) != Raised {
            assert first[i] == entries[i];
          }
        }
        assert SlotIs(Slots(source, first).value, entry.there, LastValue(source, first, entry.there));
        if Fetch(source, entry.here).Got? {
          LastValueIsEarlier(source, entries, entry.there);
        }
        forall there ensures SlotIs(Slots(source, entries).value, there, LastValue(source, entries, there)) {
          assert SlotIs(Slots(source, first).value, there, LastValue(source, first, there));
        }
      }
    }
  }

  ghost predicate SlotIs(slots: map<string, Json>, there: string, value: Option<Json>) {
    (there in slots <==> value.Some?) && (there in slots ==> slots[there] == value.value)
  }

  lemma {:induction false} LastValueIsEarlier(source: Source, entries: seq<MappingItem>, there: string)
    requires entries != [] && SharePlainValues(source, entries)
    requires entries[|entries| - 1].there == there && Fetch(source, entries[|entries| - 1].here).Got?
    ensures var last := LastValue(source, entries[..|entries| - 1], there); last.Some? ==> !last.value.Dict?
  {
    var first := entries[..|entries| - 1];
    if LastValue(source, first, there).Some? {
      var i := LastIndex(source, first, there);
      assert entries[i] == first[i];
    }
  }

  lemma {:induction false} LastIndex(source: Source, entries: seq<MappingItem>, there: string) returns (i: nat)
    requires LastValue(source, entries, there).Some?
    ensures i < |entries| && entries[i].there == there
    ensures Fetch(source, entries[i].here) == Got(LastValue(source, entries, there).value)
  {
    i := |entries| - 1;
    if !(entries[i].there == there && Fetch(source, entries[i].here).Got?) {
      i := LastIndex(source, entries[..|entries| - 1], there);
    }
  }

  // ---- the complete request body ---------------------------------------------

  /** Where the request body holds an attribute of the target. */
  function PathOf(names: set<string>, there: string): seq<string> {
    if there in names then [there] else ["udm_properties", there]
  }

  /** The body with the password hashes, which are an object of their own. */
  function RequestBody(names: set<string>, source: Source, entries: seq<MappingItem>, hashes: Option<Json>): Option<Json> {
    var res := Mapped(names, source, entries);
    if hashes == None then res else Update(res, Dict(map[PASSWORD_HASHES := hashes.value]))
  }

  /** The request body by attribute: the last item wins, the password hashes are added, and
      there is nothing else in it. */
  lemma RequestBodyByPath(names: set<string>, source: Source, entries: seq<MappingItem>, hashes: Option<Json>)
    requires UDM_PROPERTIES !in names && PASSWORD_HASHES !in names && SharePlainValues(source, entries)
    ensures RequestBody(names, source, entries, hashes) == None <==> SomeRaises(source, entries)
    ensures var body := RequestBody(names, source, entries, hashes);
      body.Some? ==>
      && (forall there :: Lookup(body.value, PathOf(names, there)) == LastValue(source, entries, there))
      && Lookup(body.value, ["kelvin_password_hashes"]) == hashes
      && body.value.entries.Keys <= names + {"udm_properties", "kelvin_password_hashes"}
  {
    LastWins(source, entries);
    MappedIsNested(names, source, entries);
    var slots := Slots(source, entries);
    if slots.Some? {
      if hashes.Some? {
        UpdateOneKey(Nested(names, slots.value), PASSWORD_HASHES, hashes.value);
      }
      var body := RequestBody(names, source, entries, hashes).value;
      forall there ensures Lookup(body, PathOf(names, there)) == LastValue(source, entries, there) {
        assert SlotIs(slots.value, there, LastValue(source, entries, there));
        BodyHasSlots(names, source, entries, hashes, there);
      }
    }
  }

  lemma BodyHasSlots(names: set<string>, source: Source, entries: seq<MappingItem>, hashes: Option<Json>, there: string)
    requires UDM_PROPERTIES !in names && PASSWORD_HASHES !in names
    requires RequestBody(names, source, entries, hashes).Some?
    ensures var slots := Slots(source, entries);
      && slots.Some?
      && Lookup(RequestBody(names, source, entries, hashes).value, PathOf(names, there)) ==
         if there in slots.value then Some(slots.value[there]) else None
  {
    MappedIsNested(names, source, entries);
    var slots := Slots(source, entries).value;
    if hashes.Some? {
      UpdateOneKey(Nested(names, slots), PASSWORD_HASHES, hashes.value);
    }
    NestedLookup(names, slots, there);
    SameBelow(Nested(names, slots), RequestBody(names, source, entries, hashes).value, PathOf(names, there));
  }

  /** An attribute of the target for which there is one item has in the body just what that item
      gives, even if that is `None`, and is missing if it gives nothing. */
  lemma {:induction false} OneItem(names: set<string>, source: Source, entries: seq<MappingItem>, hashes: Option<Json>, i: nat)
    requires UDM_PROPERTIES !in names && PASSWORD_HASHES !in names && i < |entries|
    requires forall j :: 0 <= j < |entries| && entries[j].there == entries[i].there ==> j == i
    requires RequestBody(names, source, entries, hashes).Some?
    ensures var body := RequestBody(names, source, entries, hashes).value;
      forall value :: Lookup(body, PathOf(names, entries[i].there)) == Some(value) <==> Gives(source, entries[i].here, value)
  {
    var there := entries[i].there;
    BodyHasSlots(names, source, entries, hashes, there);
    SlotsAreIndependent(source, entries);
    assert SameSlot(source, entries, there);
    OnlyItemFor(entries, i);
    OneSlot(source, entries[i]);
    FetchIs(source, entries[i].here);
  }

  lemma {:induction false} OnlyItemFor(entries: seq<MappingItem>, i: nat)
    requires i < |entries| && forall j :: 0 <= j < |entries| && entries[j].there == entries[i].there ==> j == i
    ensures ItemsFor(entries, entries[i].there) == [entries[i]]
  {
    var n := |entries| - 1;
    if i < n {
      OnlyItemFor(entries[..n], i);
    } else {
      NoItemFor(entries[..n], entries[i].there);
    }
  }

  lemma {:induction false} NoItemFor(entries: seq<MappingItem>, there: string)
    requires forall j :: 0 <= j < |entries| ==> entries[j].there != there
    ensures ItemsFor(entries, there) == []
  {
    if entries != [] {
      NoItemFor(entries[..|entries| - 1], there);
    }
  }

  lemma OneSlot(source: Source, entry: MappingItem)
    ensures Slots(source, [entry]) ==
            match Fetch(source, entry.here)
            case Skipped => Some(map[])
            case Raised => None
            case Got(value) => Some(map[entry.there := value])
  {
    assert [entry][..0] == [];
    assert Slots(source, []) == Some(map[]);
  }

  lemma NestedLookup(names: set<string>, slots: map<string, Json>, there: string)
    requires UDM_PROPERTIES !in names
    ensures Lookup(Nested(names, slots), PathOf(names, there)) == if there in slots then Some(slots[there]) else None
  {
    var body, path := Nested(names, slots), PathOf(names, there);
    if there in names {
      assert path[1..] == [];
    } else {
      assert path[1..] == [there] && path[1..][1..] == [];
      assert there in slots <==> there in Others(names, slots);
      var others := Dict(Others(names, slots));
      assert Lookup(others, [there]) == if there in slots then Some(slots[there]) else None by {
        assert there in others.entries ==> Lookup(others.entries[there], [there][1..]) == Some(others.entries[there]);
      }
      if UDM_PROPERTIES in body.entries {
        assert Lookup(body, path) == Lookup(others, path[1..]);
      }
    }
  }

  lemma SameBelow(before: Json, after: Json, path: seq<string>)
    requires before.Dict? && after.Dict? && path != []
    requires path[0] in before.entries <==> path[0] in after.entries
    requires path[0] in before.entries ==> before.entries[path[0]] == after.entries[path[0]]
    ensures Lookup(before, path) == Lookup(after, path)
  {
  }

  /** The two reserved keys are no Kelvin attributes. */
  lemma ReservedKeys()
    ensures UDM_PROPERTIES !in KELVIN_ATTRIBUTES && PASSWORD_HASHES !in KELVIN_ATTRIBUTES
  {
    assert |UDM_PROPERTIES| == 14 && |PASSWORD_HASHES| == 22;
  }
}
