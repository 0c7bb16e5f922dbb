/** Dictionaries with their keys in lower case: the school mapping, and the schools that a
    target knows.  Keys are compared in lower case, so keys that differ only by case clash. */
module LowerCaseKeys {
  import opened Names

  /** `{k.lower(): v for k, v in items}`; of clashing items the last wins. */
  function Lowered(items: seq<(string, string)>): map<string, string> {
    if items == [] then map[]
    else Lowered(items[..|items| - 1])[Lower(items[|items| - 1].0) := items[|items| - 1].1]
  }

  method LowerKeys(items: seq<(string, string)>) returns (d: map<string, string>)
    ensures d == Lowered(items)
  {
    d := map[];
    for i := 0 to |items|
      invariant d == Lowered(items[..i])
    {
      assert items[..i + 1][..i] == items[..i];
      d := d[Lower(items[i].0) := items[i].1];
    }
    assert items[..|items|] == items;
  }

  /** The keys are those of the items, and each value is that of some item. */
  lemma {:induction false} LoweredKeys(items: seq<(string, string)>, key: string)
    ensures key in Lowered(items) <==> exists item :: item in items && Lower(item.0) == key
    ensures key in Lowered(items) ==> exists item :: item in items && Lower(item.0) == key && item.1 == Lowered(items)[key]
  {
    if items != [] {
      var first, last := items[..|items| - 1], items[|items| - 1];
      LoweredKeys(first, key);
      assert items == first + [last];
    }
  }

  /** Two keys that differ only by case have different values. */
  ghost predicate Clash(items: seq<(string, string)>) {
    exists a, b :: a in items && b in items && ClashOf(a, b)
  }

  predicate ClashOf(a: (string, string), b: (string, string)) {
    Lower(a.0) == Lower(b.0) && a.1 != b.1
  }

  ghost predicate SameItems(s: seq<(string, string)>, t: seq<(string, string)>) {
    multiset(s) == multiset(t)
  }

  /** The order of the items, which saving and loading changes because files are written with
      sorted keys, does not matter if and only if no keys clash. */
  lemma OrderMattersIffClash(items: seq<(string, string)>)
    ensures !Clash(items) <==> forall s, t :: SameItems(s, items) && SameItems(t, items) ==> Lowered(s) == Lowered(t)
  {
    if Clash(items) {
      var s, t := ClashingOrders(items);
    } else {
      forall s, t | SameItems(s, items) && SameItems(t, items) ensures Lowered(s) == Lowered(t) {
        forall key
          ensures (key in Lowered(s) <==> key in Lowered(t)) && (key in Lowered(s) ==> Lowered(s)[key] == Lowered(t)[key])
        {
          SameValues(items, s, t, key);
        }
      }
    }
  }

  lemma ClashingOrders(items: seq<(string, string)>) returns (s: seq<(string, string)>, t: seq<(string, string)>)
    requires Clash(items)
    ensures SameItems(s, items) && SameItems(t, items) && Lowered(s) != Lowered(t)
  {
    var a, b :| a in items && b in items && ClashOf(a, b);
    RemovedItem(items, a);
    RemovedItem(Removed(items, a), b);
    var rest := Removed(Removed(items, a), b);
    s, t := rest + [a] + [b], rest + [b] + [a];
    assert s[..|s| - 1] == rest + [a] && t[..|t| - 1] == rest + [b];
    assert Lowered(s)[Lower(b.0)] == b.1 && Lowered(t)[Lower(a.0)] == a.1;
  }

  lemma SameValues(items: seq<(string, string)>, s: seq<(string, string)>, t: seq<(string, string)>, key: string)
    requires !Clash(items) && SameItems(s, items) && SameItems(t, items)
    ensures key in Lowered(s) <==> key in Lowered(t)
    ensures key in Lowered(s) ==> Lowered(s)[key] == Lowered(t)[key]
  {
    LoweredKeys(s, key);
    LoweredKeys(t, key);
    assert forall item ::
      && (item in s <==> item in multiset(s)) && (item in t <==> item in multiset(t))
      && (item in items <==> item in multiset(items));
    if key in Lowered(s) && key in Lowered(t) {
      var a :| a in s && Lower(a.0) == key && a.1 == Lowered(s)[key];
      var b :| b in t && Lower(b.0) == key && b.1 == Lowered(t)[key];
      assert !ClashOf(a, b);
    }
  }

  function Removed(items: seq<(string, string)>, item: (string, string)): seq<(string, string)>
  {
    if items == [] then [] else if items[0] == item then items[1..] else [items[0]] + Removed(items[1..], item)
  }

  lemma {:induction false} RemovedItem(items: seq<(string, string)>, item: (string, string))
    requires item in items
    ensures multiset(items) == multiset(Removed(items, item)) + multiset{item}
    ensures forall other :: other != item ==> (other in items <==> other in Removed(items, item))
  {
    assert items == [items[0]] + items[1..];
    if items[0] != item {
      RemovedItem(items[1..], item);
    }
  }

  // ---- saving and loading -----------------------------------------------------

  type Item = (string, string)

  /** The keys of a JSON object are distinct. */
  ghost predicate DistinctKeys(items: seq<Item>) {
    forall i, j :: 0 <= i < j < |items| ==> items[i].0 != items[j].0
  }

  /** What the items are when the file is read again: it is written with sorted keys. */
  ghost predicate IsReloaded(items: seq<Item>, loaded: seq<Item>) {
    && (forall i, j :: 0 <= i < j < |loaded| ==> Less(loaded[i].0, loaded[j].0))
    && (forall item :: item in loaded <==> item in items)
  }

  /** No later item has the same key up to case. */
  predicate IsLast(items: seq<Item>, i: nat)
    requires i < |items|
  {
    forall j :: i < j < |items| ==> Lower(items[j].0) != Lower(items[i].0)
  }

  /** No item has a larger key that is the same up to case. */
  predicate IsGreatest(items: seq<Item>, i: nat)
    requires i < |items|
  {
    forall j :: 0 <= j < |items| && Lower(items[j].0) == Lower(items[i].0) ==> !Less(items[i].0, items[j].0)
  }

  /** Among keys that differ only by case, the last one and the largest have the same value. */
  ghost predicate LastIsGreatest(items: seq<Item>) {
    forall i, j :: 0 <= i < |items| && 0 <= j < |items| && IsLast(items, i) && IsGreatest(items, j) ==>
      (Lower(items[i].0) == Lower(items[j].0) ==> items[i].1 == items[j].1)
  }

  lemma {:induction false} LastWins(items: seq<Item>, key: string)
    ensures key in Lowered(items) <==> exists i :: 0 <= i < |items| && Lower(items[i].0) == key
    ensures forall i :: 0 <= i < |items| && IsLast(items, i) && Lower(items[i].0) == key ==>
      key in Lowered(items) && Lowered(items)[key] == items[i].1
  {
    if items != [] {
      var n := |items| - 1;
      LastWins(items[..n], key);
      assert forall i :: 0 <= i < n ==> items[..n][i] == items[i];
      if Lower(items[n].0) == key {
        forall i | 0 <= i < |items| && IsLast(items, i) && Lower(items[i].0) == key ensures i == n {}
      } else {
        forall i | 0 <= i < n && IsLast(items, i) && Lower(items[i].0) == key ensures IsLast(items[..n], i) {}
      }
    }
  }

  lemma {:induction false} LastOf(items: seq<Item>, k: nat) returns (i: nat)
    requires k < |items|
    ensures k <= i < |items| && IsLast(items, i) && Lower(items[i].0) == Lower(items[k].0)
    decreases |items| - k
  {
    if IsLast(items, k) {
      i := k;
    } else {
      var j :| k < j < |items| && Lower(items[j].0) == Lower(items[k].0);
      i := LastOf(items, j);
    }
  }

  lemma EarlierIsNotGreater(items: seq<Item>, k: nat, i: nat)
    requires forall i, j :: 0 <= i < j < |items| ==> Less(items[i].0, items[j].0)
    requires k <= i < |items|
    ensures !Less(items[i].0, items[k].0)
  {
    LessIrreflexive(items[i].0);
    if k < i && Less(items[i].0, items[k].0) {
      LessTransitive(items[i].0, items[k].0, items[i].0);
    }
  }

  /** The last item of a sorted file for a key is the one that is greatest in any order. */
  lemma LastLoadedIsGreatest(items: seq<Item>, loaded: seq<Item>, i: nat) returns (j: nat)
    requires IsReloaded(items, loaded)
    requires i < |loaded| && IsLast(loaded, i)
    ensures j < |items| && items[j] == loaded[i] && IsGreatest(items, j)
  {
    assert loaded[i] in items;
    j :| 0 <= j < |items| && items[j] == loaded[i];
    forall k | 0 <= k < |items| && Lower(items[k].0) == Lower(items[j].0) ensures !Less(items[j].0, items[k].0) {
      assert items[k] in loaded;
      var l :| 0 <= l < |loaded| && loaded[l] == items[k];
      EarlierIsNotGreater(loaded, l, i);
    }
  }

  lemma GreatestIsUnique(items: seq<Item>, i: nat, j: nat)
    requires DistinctKeys(items) && i < |items| && j < |items|
    requires IsGreatest(items, i) && IsGreatest(items, j) && Lower(items[i].0) == Lower(items[j].0)
    ensures i == j
  {
    if i != j {
      LessTotal(items[i].0, items[j].0);
    }
  }

  /** Saving and loading keep the mapping if and only if, among keys that differ only by case,
      the last one has the value of the largest. */
  lemma {:induction false} ReloadKeepsIff(items: seq<Item>, loaded: seq<Item>)
    requires DistinctKeys(items) && IsReloaded(items, loaded)
    ensures Lowered(loaded) == Lowered(items) <==> LastIsGreatest(items)
  {
    forall i, j | 0 <= i < |items| && 0 <= j < |items| && IsLast(items, i) && IsGreatest(items, j)
        && Lower(items[i].0) == Lower(items[j].0)
      ensures var key := Lower(items[i].0);
        key in Lowered(items) && key in Lowered(loaded)
        && Lowered(items)[key] == items[i].1 && Lowered(loaded)[key] == items[j].1
    {
      LastWins(items, Lower(items[i].0));
      ReloadedValue(items, loaded, j);
    }
    if LastIsGreatest(items) {
      forall key
        ensures key in Lowered(loaded) <==> key in Lowered(items)
        ensures key in Lowered(items) ==> Lowered(loaded)[key] == Lowered(items)[key]
      {
        SameKeys(items, loaded, key);
        if key in Lowered(items) {
          LastWins(items, key);
          var k :| 0 <= k < |items| && Lower(items[k].0) == key;
          var i := LastOf(items, k);
          var j := GreatestOf(items, loaded, i);
        }
      }
    }
  }

  lemma SameKeys(items: seq<Item>, loaded: seq<Item>, key: string)
    requires IsReloaded(items, loaded)
    ensures key in Lowered(loaded) <==> key in Lowered(items)
  {
    LoweredKeys(items, key);
    LoweredKeys(loaded, key);
  }

  lemma GreatestOf(items: seq<Item>, loaded: seq<Item>, i: nat) returns (j: nat)
    requires DistinctKeys(items) && IsReloaded(items, loaded) && i < |items|
    ensures j < |items| && IsGreatest(items, j) && Lower(items[j].0) == Lower(items[i].0)
  {
    assert items[i] in loaded;
    var k :| 0 <= k < |loaded| && loaded[k] == items[i];
    var l := LastOf(loaded, k);
    j := LastLoadedIsGreatest(items, loaded, l);
  }

  lemma ReloadedValue(items: seq<Item>, loaded: seq<Item>, j: nat)
    requires DistinctKeys(items) && IsReloaded(items, loaded) && j < |items| && IsGreatest(items, j)
    ensures Lower(items[j].0) in Lowered(loaded) && Lowered(loaded)[Lower(items[j].0)] == items[j].1
  {
    assert items[j] in loaded;
    var k :| 0 <= k < |loaded| && loaded[k] == items[j];
    var l := LastOf(loaded, k);
    var m := LastLoadedIsGreatest(items, loaded, l);
    GreatestIsUnique(items, j, m);
    LastWins(loaded, Lower(items[j].0));
  }

  /** A mapping that reloading changes: both items are for the school `demo`. */
  lemma ReloadCanChange()
    ensures var items, loaded := [("demo", "one"), ("DEMO", "two")], [("DEMO", "two"), ("demo", "one")];
      && DistinctKeys(items) && IsReloaded(items, loaded)
      && Lowered(items) == map["demo" := "two"] && Lowered(loaded) == map["demo" := "one"]
  {
    var items, loaded := [("demo", "one"), ("DEMO", "two")], [("DEMO", "two"), ("demo", "one")];
    assert Lower("demo") == Lower("DEMO") == "demo";
    LoweredPair("demo", "one", "DEMO", "two");
    LoweredPair("DEMO", "two", "demo", "one");
  }

  lemma LoweredPair(key: string, value: string, key2: string, value2: string)
    requires Lower(key) == Lower(key2)
    ensures Lowered([(key, value), (key2, value2)]) == map[Lower(key2) := value2]
  {
    var items := [(key, value), (key2, value2)];
    assert items[..1] == [(key, value)] && items[..1][..0] == [];
    assert Lowered(items[..1]) == map[][Lower(key) := value];
  }
}
