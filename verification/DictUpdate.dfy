/** `recursive_dict_update` as the program runs it: on mutable, nested dictionaries. */
module DictUpdate {
  import opened Options
  import opened DeepMerge

  /** A Python value: a reference to a dictionary, or anything else. */
  datatype Value = Leaf(json: Json) | Node(dict: PyDict)

  class PyDict {
    var entries: map<string, Value>
    /** this dictionary and all those below it */
    ghost var repr: set<PyDict>

    /** A tree: no dictionary is reachable along two paths. */
    ghost predicate Valid()
      reads this, repr
      decreases repr
    {
      && this in repr
      && (forall k {:trigger ValidAt(k)} :: k in entries ==> ValidAt(k))
      && (forall j, k {:trigger ApartAt(j, k)} :: j in entries && k in entries && j != k ==>
          ValidAt(j) && ValidAt(k) && ApartAt(j, k))
    }

    ghost predicate ApartAt(j: string, k: string)
      requires j in entries && k in entries
      reads this, if entries[j].Node? then {entries[j].dict} else {}, if entries[k].Node? then {entries[k].dict} else {}
    {
      ReprAt(j) !! ReprAt(k)
    }

    constructor ()
      ensures entries == map[] && repr == {this} && Valid()
    {
      entries := map[];
      repr := {this};
    }

    constructor Single(k: string, value: Value)
      requires match value case Leaf(json) => !json.Dict? case Node(d) => d.Valid()
      ensures Valid() && entries == map[k := value]
      ensures repr == {this} + if value.Node? then value.dict.repr else {}
      ensures ViewAt(k) == match value case Leaf(json) => json case Node(d) => d.View()
    {
      entries := map[k := value];
      repr := {this} + if value.Node? then value.dict.repr else {};
      new;
      assert value.Node? ==> value.dict in value.dict.repr;
      assert ValidAt(k);
    }

    ghost predicate ValidAt(k: string)
      requires k in entries && this in repr
      reads this, repr
      decreases repr, 0
    {
      match entries[k]
      case Leaf(json) => !json.Dict?
      case Node(d) => d in repr && d in d.repr && d.repr <= repr - {this} && d.Valid()
    }

    /** `d[key] = value` where no dictionary was. */
    method SetLeaf(key: string, value: Json)
      requires Valid() && key in entries && entries[key].Leaf? && !value.Dict?
      modifies this`entries
      ensures Valid() && entries == old(entries)[key := Leaf(value)]
      ensures View().entries == old(View()).entries[key := value]
    {
      ghost var before := View().entries;
      entries := entries[key := Leaf(value)];
      forall k | k in entries ensures ValidAt(k) {
        assert old(ValidAt(k));
      }
      forall j, k | j in entries && k in entries && j != k ensures ApartAt(j, k) {
        assert old(ValidAt(j)) && old(ValidAt(k)) && old(ApartAt(j, k));
      }
      forall k | k in entries && k != key ensures ViewAt(k) == before[k] {
        assert old(ValidAt(k)) && old(ViewAt(k)) == before[k];
        assert entries[k].Node? ==> unchanged(entries[k].dict.repr);
      }
      assert View().entries == before[key := value];
    }

    /** The dictionaries below key `k`. */
    ghost function ReprAt(k: string): set<PyDict>
      reads this, if k in entries && entries[k].Node? then {entries[k].dict} else {}
    {
      if k in entries && entries[k].Node? then entries[k].dict.repr else {}
    }

    /** The value of the whole tree. */
    ghost function View(): (r: Json)
      requires Valid()
      reads this, repr
      ensures r.Dict? && r.entries.Keys == entries.Keys
      decreases repr
    {
      Dict(map k | k in entries :: ViewAt(k))
    }

    /** The value, if this is a tree. */
    ghost function Value(): Option<Json>
      reads this, repr
    {
      if Valid() then Some(View()) else None
    }

    ghost function ViewAt(k: string): (r: Json)
      requires k in entries && Valid()
      reads this, repr
      ensures r.Dict? <==> entries[k].Node?
      decreases repr, 0
    {
      assert ValidAt(k);
      match entries[k]
      case Leaf(json) => json
      case Node(d) => d.View()
    }
  }

  /** A key that is still as it was: its value, its dictionaries and their contents. */
  twostate predicate SameAt(d: PyDict, k: string)
    requires old(d.Valid()) && d.Valid()
    reads d, d.repr
  {
    && (k in d.entries <==> old(k in d.entries))
    && (k in d.entries ==>
          && d.entries[k] == old(d.entries[k])
          && (d.entries[k].Node? ==> assert d.ValidAt(k); d.entries[k].dict.repr == old(d.entries[k].dict.repr))
          && d.ViewAt(k) == old(d.ViewAt(k)))
  }

  /** `ori[k] = v` where no dictionary was: the dictionaries of `v` are then shared with
      the updater. */
  method Put(ori: PyDict, updater: PyDict, k: string)
    requires ori.Valid() && updater.Valid() && k in updater.entries
    requires !(k in ori.entries && ori.entries[k].Node?)
    requires updater.ReprAt(k) !! ori.repr && ori !in updater.repr
    modifies ori
    ensures ori.Valid() && ori.repr == old(ori.repr) + updater.ReprAt(k)
    ensures ori.entries == old(ori.entries)[k := updater.entries[k]]
    ensures ori.ViewAt(k) == updater.ViewAt(k)
    ensures forall j :: j != k ==> SameAt(ori, j)
  {
    assert updater.ValidAt(k);
    forall j | j in ori.entries ensures ori.ValidAt(j) {}
    label before:
    ori.entries := ori.entries[k := updater.entries[k]];
    ori.repr := ori.repr + updater.ReprAt(k);
    forall j | j in ori.entries ensures ori.ValidAt(j) {
      if j == k {
        assert ori.entries[k].Node? ==> ori.entries[k].dict in updater.ReprAt(k);
      } else {
        assert old(ori.ValidAt(j));
        assert ori.entries[j].Node? ==> unchanged@before(ori.entries[j].dict.repr);
      }
    }
    forall i, j | i in ori.entries && j in ori.entries && i != j ensures ori.ApartAt(i, j) {
      if i != k && j != k {
        assert old(ori.ApartAt(i, j));
      } else {
        var other := if i == k then j else i;
        assert old(ori.ValidAt(other));
        assert ori.ReprAt(other) <= old(ori.repr) && ori.ReprAt(k) == updater.ReprAt(k);
      }
    }
  }

  /** Key `k` has in `d` what it has in `o`. */
  ghost predicate HasAt(d: Json, o: Json, k: string)
    requires d.Dict? && o.Dict?
  {
    && (k in d.entries <==> k in o.entries)
    && (k in d.entries ==> d.entries[k] == o.entries[k])
  }

  /** Key `k` has been updated. */
  ghost predicate UpdatedAt(d: Json, o: Json, u: Json, none: bool, k: string)
    requires d.Dict? && o.Dict? && u.Dict? && k in u.entries
  {
    && MergeableAt(o, u, k)
    && (k in d.entries <==> k in o.entries || k in TakenKeys(u, none))
    && (k in d.entries ==> d.entries[k] == Result(o, u, none, k))
  }

  /** `MergedAt`, from what is known of `k` alone. */
  ghost function Result(o: Json, u: Json, none: bool, k: string): Json
    requires o.Dict? && u.Dict? && k in u.entries && MergeableAt(o, u, k)
  {
    if k in o.entries && o.entries[k].Dict? then Merged(o.entries[k], u.entries[k], none)
    else if u.entries[k].Null? && !none && k in o.entries then o.entries[k]
    else u.entries[k]
  }

  /** The body of the loop over the items of the updater. */
  method UpdateKey(ori: PyDict, updater: PyDict, k: string, none: bool, ghost o: Json, ghost u: Json) returns (raised: bool)
    requires ori.Valid() && updater.Valid() && k in updater.entries
    requires ({ori} + ori.ReprAt(k)) !! updater.repr && updater.ReprAt(k) !! ori.repr
    requires o.Dict? && HasAt(ori.View(), o, k) && u == updater.View()
    modifies ori, ori.ReprAt(k)
    ensures ori.Valid() && ori.repr <= old(ori.repr) + updater.ReprAt(k)
    ensures forall j :: j != k ==> HasAt(ori.View(), old(ori.View()), j) && ori.ReprAt(j) == old(ori.ReprAt(j))
    ensures raised <==> !MergeableAt(o, u, k)
    ensures !raised ==> UpdatedAt(ori.View(), o, u, none, k)
    ensures raised ==> k in ori.entries && k in o.entries && PartialAt(o, u, none, k, ori.ViewAt(k))
    decreases updater.repr, 2
  {
    assert updater.ValidAt(k);
    if k in ori.entries && ori.entries[k].Node? {
      assert ori.ValidAt(k);
      if updater.entries[k].Leaf? {
        return true;
      }
      raised := UpdateBelow(ori, updater, k, none, o.entries[k], u.entries[k]);
      forall j | j in ori.entries && j != k ensures SameAt(ori, j) {
        assert old(ori.ValidAt(j)) && old(ori.ValidAt(k)) && old(ori.ApartAt(j, k));
        assert ori.ValidAt(j);
        assert ori.entries[j].Node? ==> unchanged(ori.entries[j].dict.repr);
      }
    } else {
      if updater.entries[k] != Leaf(Null) || none {
        Put(ori, updater, k);
      }
      raised := false;
    }
    forall j | j != k ensures HasAt(ori.View(), old(ori.View()), j) && ori.ReprAt(j) == old(ori.ReprAt(j)) {
      assert SameAt(ori, j);
    }
  }

  method UpdateBelow(ori: PyDict, updater: PyDict, k: string, none: bool, ghost o: Json, ghost u: Json) returns (raised: bool)
    requires ori.Valid() && updater.Valid() && k in updater.entries && k in ori.entries
    requires ori.entries[k].Node? && updater.entries[k].Node?
    requires ({ori} + ori.ReprAt(k)) !! updater.repr && updater.ReprAt(k) !! ori.repr
    requires o == ori.ViewAt(k) && u == updater.ViewAt(k)
    modifies ori, ori.ReprAt(k)
    ensures ori.Valid() && ori.repr <= old(ori.repr) + updater.ReprAt(k)
    ensures ori.entries == old(ori.entries)
    ensures raised <==> !Mergeable(o, u)
    ensures !raised ==> ori.ViewAt(k) == Merged(o, u, none)
    ensures Partial(o, u, none, ori.ViewAt(k))
    decreases updater.repr, 1
  {
    assert updater.ValidAt(k) && ori.ValidAt(k);
    raised := UpdateChild(ori, updater, k, none, o, u);
    assert ori.ValidAt(k) by { assert old(ori.ValidAt(k)); }
    forall j | j in ori.entries && j != k ensures ori.ValidAt(j) && ori.ApartAt(j, k) && ori.ApartAt(k, j) {
      assert old(ori.ValidAt(j)) && old(ori.ApartAt(j, k)) && old(ori.ApartAt(k, j));
      assert ori.entries[j].Node? ==> unchanged(ori.entries[j].dict.repr);
    }
    forall i, j | i in ori.entries && j in ori.entries && i != j && i != k && j != k ensures ori.ApartAt(i, j) {
      assert old(ori.ValidAt(i)) && old(ori.ValidAt(j)) && old(ori.ApartAt(i, j)) && old(ori.ApartAt(i, k))
          && old(ori.ApartAt(j, k));
    }
  }

  /** The recursive call. */
  method UpdateChild(ori: PyDict, updater: PyDict, k: string, none: bool, ghost o: Json, ghost u: Json) returns (raised: bool)
    requires ori.Valid() && updater.Valid() && k in updater.entries && k in ori.entries
    requires ori.entries[k].Node? && updater.entries[k].Node?
    requires ({ori} + ori.ReprAt(k)) !! updater.repr && updater.ReprAt(k) !! ori.repr
    requires o == ori.ViewAt(k) && u == updater.ViewAt(k)
    modifies ori`repr, ori.ReprAt(k)
    ensures ori.repr == old(ori.repr) + ori.ReprAt(k)
    ensures ori.entries == old(ori.entries) && ori.ReprAt(k) <= old(ori.ReprAt(k)) + updater.ReprAt(k)
    ensures ori.entries[k].dict.Valid()
    ensures raised <==> !Mergeable(o, u)
    ensures !raised ==> ori.entries[k].dict.View() == Merged(o, u, none)
    ensures Partial(o, u, none, ori.entries[k].dict.View())
    decreases updater.repr, 0
  {
    assert updater.ValidAt(k) && ori.ValidAt(k);
    raised := RecursiveDictUpdate(ori.entries[k].dict, updater.entries[k].dict, none, o, u);
    ori.repr := ori.repr + ori.entries[k].dict.repr;
  }

  method RecursiveDictUpdate(ori: PyDict, updater: PyDict, none: bool, ghost o: Json, ghost u: Json) returns (raised: bool)
    requires ori.Valid() && updater.Valid() && ori.repr !! updater.repr
    requires o == ori.View() && u == updater.View()
    modifies ori.repr
    ensures ori.Valid() && ori.repr <= old(ori.repr) + updater.repr
    ensures raised <==> !Mergeable(o, u)
    ensures !raised ==> ori.View() == Merged(o, u, none)
    ensures Partial(o, u, none, ori.View())
    decreases updater.repr, 4
  {
    var todo := updater.entries.Keys;
    forall j ensures ori.ReprAt(j) <= ori.repr && (j in ori.entries ==> ori.ValidAt(j)) {
      Inside(ori, j);
    }
    forall j ensures updater.ReprAt(j) <= updater.repr && (j in updater.entries ==> updater.ValidAt(j)) {
      Inside(updater, j);
    }
    while todo != {}
      invariant todo <= updater.entries.Keys
      invariant ori.Valid() && ori.repr <= old(ori.repr) + updater.repr
      invariant Apart(ori, updater, todo, old(ori.repr))
      invariant InProgress(ori.View(), o, u, none, todo)
      decreases todo
    {
      var k :| k in todo;
      ghost var before := ori.View();
      raised := UpdateItem(ori, updater, k, none, o, u, todo, old(ori.repr));
      if raised {
        KeyRaised(before, o, u, none, todo, k, ori.View());
        return;
      }
      KeyUpdated(before, o, u, none, todo, k, ori.View());
      todo := todo - {k};
    }
    raised := false;
    AllUpdated(ori.View(), o, u, none);
  }

  /** The keys in `todo` of the two dictionaries have no dictionary in common. */
  ghost predicate Apart(ori: PyDict, updater: PyDict, todo: set<string>, footprint: set<PyDict>)
    requires ori.Valid() && updater.Valid()
    reads ori, ori.repr, updater, updater.repr
  {
    && ori in footprint && footprint !! updater.repr
    && forall j :: j in todo ==>
         && (j in ori.entries ==> ori.ValidAt(j)) && (j in updater.entries ==> updater.ValidAt(j))
         && updater.ReprAt(j) !! ori.repr && ori.ReprAt(j) <= footprint
  }

  lemma Inside(d: PyDict, j: string)
    requires d.Valid()
    ensures d.ReprAt(j) <= d.repr && (j in d.entries ==> d.ValidAt(j))
  {
    assert j in d.entries ==> d.ValidAt(j);
  }

  method UpdateItem(ori: PyDict, updater: PyDict, k: string, none: bool, ghost o: Json, ghost u: Json,
                    ghost todo: set<string>, ghost footprint: set<PyDict>)
    returns (raised: bool)
    requires ori.Valid() && updater.Valid() && k in todo && todo <= updater.entries.Keys
    requires Apart(ori, updater, todo, footprint)
    requires o.Dict? && HasAt(ori.View(), o, k) && u == updater.View()
    modifies footprint
    ensures ori.Valid() && ori.repr <= old(ori.repr) + updater.repr
    ensures Apart(ori, updater, todo - {k}, footprint)
    ensures forall j :: j != k ==> HasAt(ori.View(), old(ori.View()), j)
    ensures raised <==> !MergeableAt(o, u, k)
    ensures !raised ==> UpdatedAt(ori.View(), o, u, none, k)
    ensures raised ==> k in ori.entries && k in o.entries && PartialAt(o, u, none, k, ori.ViewAt(k))
    decreases updater.repr, 3
  {
    Inside(updater, k);
    raised := UpdateKey(ori, updater, k, none, o, u);
    forall j | j in todo - {k} ensures j in ori.entries ==> ori.ValidAt(j) {
      Inside(ori, j);
    }
    forall j | j in todo - {k} ensures updater.ReprAt(j) !! ori.repr {
      assert updater.ValidAt(j) && updater.ApartAt(j, k);
    }
  }

  /** The keys in `todo` are still as in `o`, those of the updater not in `todo` are updated. */
  ghost predicate InProgress(d: Json, o: Json, u: Json, none: bool, todo: set<string>)
    requires d.Dict? && o.Dict? && u.Dict?
  {
    && (forall j :: j in todo || j !in u.entries ==> HasAt(d, o, j))
    && (forall j :: j in u.entries && j !in todo ==> UpdatedAt(d, o, u, none, j))
  }

  lemma KeyUpdated(before: Json, o: Json, u: Json, none: bool, todo: set<string>, k: string, after: Json)
    requires before.Dict? && after.Dict? && o.Dict? && u.Dict? && k in u.entries
    requires InProgress(before, o, u, none, todo)
    requires forall j :: j != k ==> HasAt(after, before, j)
    requires UpdatedAt(after, o, u, none, k)
    ensures InProgress(after, o, u, none, todo - {k})
  {
    forall j | j in u.entries && j !in todo - {k} ensures UpdatedAt(after, o, u, none, j) {
      assert j != k ==> HasAt(after, before, j) && UpdatedAt(before, o, u, none, j);
    }
    forall j | j in todo - {k} || j !in u.entries ensures HasAt(after, o, j) {
      assert HasAt(after, before, j) && HasAt(before, o, j);
    }
  }

  lemma KeyRaised(before: Json, o: Json, u: Json, none: bool, todo: set<string>, k: string, after: Json)
    requires before.Dict? && after.Dict? && o.Dict? && u.Dict? && k in u.entries
    requires InProgress(before, o, u, none, todo)
    requires forall j :: j != k ==> HasAt(after, before, j)
    requires k in after.entries && k in o.entries && PartialAt(o, u, none, k, after.entries[k])
    requires !MergeableAt(o, u, k)
    ensures !Mergeable(o, u) && Partial(o, u, none, after)
  {
    forall j | j in after.entries && j != k
      ensures PartialAt(o, u, none, j, after.entries[j]) && (j in o.entries || j in TakenKeys(u, none))
    {
      assert HasAt(after, before, j);
      if j in todo || j !in u.entries {
        assert HasAt(before, o, j);
      } else {
        UpdatedIsPartial(before, o, u, none, j);
      }
    }
    forall j | j in o.entries ensures j in after.entries {
      assert j != k ==> HasAt(after, before, j);
      assert if j in todo || j !in u.entries then HasAt(before, o, j) else UpdatedAt(before, o, u, none, j);
    }
  }

  lemma UpdatedIsPartial(d: Json, o: Json, u: Json, none: bool, k: string)
    requires d.Dict? && o.Dict? && u.Dict? && k in u.entries && UpdatedAt(d, o, u, none, k)
    ensures k in d.entries ==> PartialAt(o, u, none, k, d.entries[k])
  {
    if k in o.entries && o.entries[k].Dict? {
      MergedIsPartial(o.entries[k], u.entries[k], none);
    }
  }

  lemma AllUpdated(d: Json, o: Json, u: Json, none: bool)
    requires d.Dict? && o.Dict? && u.Dict? && InProgress(d, o, u, none, {})
    ensures Mergeable(o, u) && d == Merged(o, u, none) && Partial(o, u, none, d)
  {
    forall k | k in u.entries ensures MergeableAt(o, u, k) {
      assert UpdatedAt(d, o, u, none, k);
    }
    var r := Merged(o, u, none);
    forall k ensures (k in d.entries <==> k in r.entries) && (k in d.entries ==> d.entries[k] == r.entries[k]) {
      MergedKey(o, u, none, k);
      assert if k in u.entries then UpdatedAt(d, o, u, none, k) else HasAt(d, o, k);
    }
    assert d.entries == r.entries;
    MergedIsPartial(o, u, none);
  }

  /** A new tree with this value. */
  method FromJson(j: Json) returns (d: PyDict)
    requires j.Dict?
    ensures d.Valid() && fresh(d.repr) && d.View() == j
    decreases j, 2
  {
    d := new PyDict();
    var todo := j.entries.Keys;
    while todo != {}
      invariant todo <= j.entries.Keys
      invariant d.Valid() && fresh(d.repr)
      invariant d.View() == Dict(map k | k in j.entries && k !in todo :: j.entries[k])
      decreases todo
    {
      var k :| k in todo;
      AddKey(d, j, k);
      todo := todo - {k};
    }
  }

  method AddKey(d: PyDict, j: Json, k: string)
    requires j.Dict? && k in j.entries && d.Valid() && k !in d.entries
    modifies d
    ensures d.Valid() && fresh(d.repr - old(d.repr))
    ensures d.View() == Dict(old(d.View()).entries[k := j.entries[k]])
    decreases j, 1
  {
    ghost var before := d.View();
    var single := SingleKey(j, k);
    Inside(single, k);
    assert d.View() == before && d !in single.repr;
    label built:
    Put(d, single, k);
    assert unchanged@built(single.repr);
    forall i | i != k ensures HasAt(d.View(), before, i) {
      assert SameAt@built(d, i);
    }
    assert d.View().entries[k] == single.ViewAt(k) == j.entries[k];
    OneKeyChanged(before, d.View(), k);
  }

  lemma OneKeyChanged(before: Json, after: Json, k: string)
    requires before.Dict? && after.Dict? && k in after.entries
    requires forall i :: i != k ==> HasAt(after, before, i)
    ensures after.entries == before.entries[k := after.entries[k]]
  {
    forall i ensures i in after.entries <==> i in before.entries[k := after.entries[k]]
             ensures i in after.entries ==> after.entries[i] == before.entries[k := after.entries[k]][i]
    {
      assert i != k ==> HasAt(after, before, i);
    }
  }

  method SingleKey(j: Json, k: string) returns (single: PyDict)
    requires j.Dict? && k in j.entries
    ensures single.Valid() && fresh(single.repr) && k in single.entries && single.ViewAt(k) == j.entries[k]
    decreases j, 0
  {
    if j.entries[k].Dict? {
      var below := FromJson(j.entries[k]);
      single := new PyDict.Single(k, Node(below));
    } else {
      single := new PyDict.Single(k, Leaf(j.entries[k]));
    }
  }

  /** The value of a tree. */
  method ToJson(d: PyDict) returns (j: Json)
    requires d.Valid()
    ensures j == d.View()
    decreases d.repr
  {
    var entries: map<string, Json> := map[];
    var todo := d.entries.Keys;
    while todo != {}
      invariant todo <= d.entries.Keys && entries.Keys == d.entries.Keys - todo
      invariant forall k :: k in entries ==> entries[k] == d.ViewAt(k)
      decreases todo
    {
      var k :| k in todo;
      todo := todo - {k};
      assert d.ValidAt(k);
      match d.entries[k]
      case Leaf(json) => entries := entries[k := json];
      case Node(below) =>
        var value := ToJson(below);
        entries := entries[k := value];
    }
    j := Dict(entries);
    assert d.View().entries == entries;
  }
}
