/** Nested dictionaries, and updating one in place with another. */
module DeepMerge {
  import opened Options

  datatype Json =
    | Null
    | Bool(b: bool)
    | Str(s: string)
    | Secret(s: string)
    | Strs(items: seq<string>)
    | Dict(entries: map<string, Json>)

  /** `recursive_dict_update` does not raise: nowhere does a present non-dict, `None`
      included, meet a dict of `ori`. */
  predicate Mergeable(ori: Json, updater: Json)
    requires ori.Dict? && updater.Dict?
    decreases updater, 1
  {
    forall k :: k in updater.entries ==> MergeableAt(ori, updater, k)
  }

  predicate MergeableAt(ori: Json, updater: Json, k: string)
    requires ori.Dict? && updater.Dict? && k in updater.entries
    decreases updater, 0
  {
    k in ori.entries && ori.entries[k].Dict? ==>
      updater.entries[k].Dict? && Mergeable(ori.entries[k], updater.entries[k])
  }

  /** The value at key `k` after the update. */
  function MergedAt(ori: Json, updater: Json, none: bool, k: string): Json
    requires ori.Dict? && updater.Dict? && Mergeable(ori, updater)
    requires k in ori.entries || k in updater.entries
    decreases updater, 0
  {
    if k !in updater.entries then ori.entries[k]
    else if k in ori.entries && ori.entries[k].Dict? then
      assert MergeableAt(ori, updater, k);
      Merged(ori.entries[k], updater.entries[k], none)
    else if updater.entries[k].Null? && !none && k in ori.entries then ori.entries[k]
    else updater.entries[k]
  }

  /** The keys of the updater that are present in the result in any case. */
  function TakenKeys(updater: Json, none: bool): set<string>
    requires updater.Dict?
  {
    set k | k in updater.entries && (none || !updater.entries[k].Null?)
  }

  /** The dictionary after a successful `recursive_dict_update`; `none` says whether
      `None` values are taken over. */
  function Merged(ori: Json, updater: Json, none: bool): (r: Json)
    requires ori.Dict? && updater.Dict? && Mergeable(ori, updater)
    ensures r.Dict?
    decreases updater, 1
  {
    Dict(map k | k in ori.entries.Keys + TakenKeys(updater, none) :: MergedAt(ori, updater, none, k))
  }

  /** What an update that raised may leave behind: some keys are still as they were, some
      have been updated, and one below which it raised has been updated in part. */
  ghost predicate Partial(ori: Json, updater: Json, none: bool, after: Json)
    requires ori.Dict? && updater.Dict?
    decreases updater, 1
  {
    && after.Dict?
    && ori.entries.Keys <= after.entries.Keys <= ori.entries.Keys + TakenKeys(updater, none)
    && forall k :: k in after.entries ==> PartialAt(ori, updater, none, k, after.entries[k])
  }

  ghost predicate PartialAt(ori: Json, updater: Json, none: bool, k: string, value: Json)
    requires ori.Dict? && updater.Dict?
    decreases updater, 0
  {
    || (k in ori.entries && value == ori.entries[k])
    || (k in updater.entries
        && if k in ori.entries && ori.entries[k].Dict?
           then updater.entries[k].Dict? && Partial(ori.entries[k], updater.entries[k], none, value)
           else value == updater.entries[k])
  }

  // ---- laws by path -------------------------------------------------------

  /** The value at a path of keys, if there is one. */
  function Lookup(j: Json, path: seq<string>): Option<Json> {
    if path == [] then Some(j)
    else if j.Dict? && path[0] in j.entries then Lookup(j.entries[path[0]], path[1..])
    else None
  }

  lemma LookupOne(j: Json, a: string)
    ensures Lookup(j, [a]) == if j.Dict? && a in j.entries then Some(j.entries[a]) else None
  {
    assert [a][1..] == [];
  }

  lemma LookupTwo(j: Json, a: string, b: string)
    ensures Lookup(j, [a, b]) ==
            if j.Dict? && a in j.entries && j.entries[a].Dict? && b in j.entries[a].entries
            then Some(j.entries[a].entries[b]) else None
  {
    assert [a, b][1..] == [b];
    if j.Dict? && a in j.entries {
      LookupOne(j.entries[a], b);
    }
  }

  /** At this path a dict of `ori` would be replaced by a value that is not a dict. */
  ghost predicate ClashesAt(ori: Json, updater: Json, path: seq<string>) {
    Lookup(ori, path).Some? && Lookup(ori, path).value.Dict? && Lookup(updater, path).Some?
        && !Lookup(updater, path).value.Dict?
  }

  /** The update succeeds if and only if no path clashes. */
  lemma {:induction false} MergeableByPath(ori: Json, updater: Json)
    requires ori.Dict? && updater.Dict?
    ensures Mergeable(ori, updater) <==> !exists path :: ClashesAt(ori, updater, path)
    decreases updater
  {
    if exists path :: ClashesAt(ori, updater, path) {
      var path :| ClashesAt(ori, updater, path);
      ClashBlocks(ori, updater, path);
    }
    if !Mergeable(ori, updater) {
      var path := FindClash(ori, updater);
    }
  }

  lemma {:induction false} ClashBlocks(ori: Json, updater: Json, path: seq<string>)
    requires ori.Dict? && updater.Dict? && ClashesAt(ori, updater, path)
    ensures !Mergeable(ori, updater)
    decreases path
  {
    var k := path[0];
    assert MergeableAt(ori, updater, k) || !MergeableAt(ori, updater, k);
    assert Lookup(ori, path) == Lookup(ori.entries[k], path[1..]);
    assert Lookup(updater, path) == Lookup(updater.entries[k], path[1..]);
    if updater.entries[k].Dict? {
      assert path[1..] != [];
      ClashBlocks(ori.entries[k], updater.entries[k], path[1..]);
    }
  }

  lemma {:induction false} FindClash(ori: Json, updater: Json) returns (path: seq<string>)
    requires ori.Dict? && updater.Dict? && !Mergeable(ori, updater)
    ensures ClashesAt(ori, updater, path)
    decreases updater
  {
    var k :| k in updater.entries && !MergeableAt(ori, updater, k);
    if updater.entries[k].Dict? {
      var rest := FindClash(ori.entries[k], updater.entries[k]);
      path := [k] + rest;
    } else {
      path := [k];
    }
  }

  /** What the update does at one path: a value that `updater` does not mention stays, two
      dicts are merged, `None` is ignored unless it is wanted, and everything else is
      replaced. */
  ghost predicate IsOverride(ori: Json, updater: Json, none: bool, path: seq<string>, r: Option<Json>) {
    match (Lookup(ori, path), Lookup(updater, path))
    case (o, None) => r == o
    case (Some(Dict(_)), Some(Dict(_))) =>
      r.Some? && Mergeable(Lookup(ori, path).value, Lookup(updater, path).value)
      && r == Some(Merged(Lookup(ori, path).value, Lookup(updater, path).value, none))
    case (o, Some(Null)) => r == (if none || !InDicts(ori, path) then Some(Null) else o)
    case (_, u) => r == u
  }

  /** The value at the path, or its place, is in a dict of `ori`. */
  predicate InDicts(ori: Json, path: seq<string>) {
    path == [] || (Lookup(ori, path[..|path| - 1]).Some? && Lookup(ori, path[..|path| - 1]).value.Dict?)
  }

  /** The effect of a successful update, for every path. */
  lemma {:induction false} MergedByPath(ori: Json, updater: Json, none: bool, path: seq<string>)
    requires ori.Dict? && updater.Dict? && Mergeable(ori, updater)
    ensures IsOverride(ori, updater, none, path, Lookup(Merged(ori, updater, none), path))
    decreases path
  {
    if path != [] {
      var k, rest := path[0], path[1..];
      var init := path[..|path| - 1];
      assert k in updater.entries ==> MergeableAt(ori, updater, k);
      if rest != [] {
        assert init[0] == k && init[1..] == rest[..|rest| - 1];
        assert Lookup(ori, init) == if k in ori.entries then Lookup(ori.entries[k], init[1..]) else None;
      }
      if k in ori.entries && k in updater.entries && ori.entries[k].Dict? {
        MergedByPath(ori.entries[k], updater.entries[k], none, rest);
      } else if rest != [] && !(k in ori.entries && ori.entries[k].Dict?) {
        assert k in ori.entries ==> Lookup(ori.entries[k], init[1..]) == if init[1..] == [] then Some(ori.entries[k]) else None;
        assert !InDicts(ori, path);
        assert k in updater.entries && Lookup(updater.entries[k], rest).Some? ==> updater.entries[k].Dict?;
      } else if rest == [] {
        assert InDicts(ori, path) by { assert init == []; }
      }
    }
  }

  /** The path leaves the dictionaries of the updater at a key that they do not have. */
  predicate NotIn(updater: Json, path: seq<string>) {
    path != [] && updater.Dict? &&
    (path[0] in updater.entries ==> NotIn(updater.entries[path[0]], path[1..]))
  }

  /** Whether it raises or not, an update changes nothing at the paths that the updater does
      not have. */
  lemma {:induction false} PartialFrames(ori: Json, updater: Json, none: bool, after: Json, path: seq<string>)
    requires ori.Dict? && updater.Dict? && Partial(ori, updater, none, after)
    requires NotIn(updater, path)
    ensures Lookup(after, path) == Lookup(ori, path)
    decreases path
  {
    var k, rest := path[0], path[1..];
    if k in after.entries {
      assert PartialAt(ori, updater, none, k, after.entries[k]);
      if k in updater.entries {
        if k in ori.entries && ori.entries[k].Dict? {
          if after.entries[k] != ori.entries[k] {
            PartialFrames(ori.entries[k], updater.entries[k], none, after.entries[k], rest);
          }
        } else {
          NotInLookup(updater.entries[k], rest);
        }
      }
    }
  }

  lemma {:induction false} NotInLookup(updater: Json, path: seq<string>)
    requires NotIn(updater, path)
    ensures Lookup(updater, path) == None
    decreases path
  {
    if path[0] in updater.entries {
      NotInLookup(updater.entries[path[0]], path[1..]);
    }
  }

  /** A completed update is a special case. */
  lemma {:induction false} MergedIsPartial(ori: Json, updater: Json, none: bool)
    requires ori.Dict? && updater.Dict? && Mergeable(ori, updater)
    ensures Partial(ori, updater, none, Merged(ori, updater, none))
    decreases updater
  {
    forall k | k in ori.entries && ori.entries[k].Dict? && k in updater.entries
      ensures MergeableAt(ori, updater, k)
      ensures Partial(ori.entries[k], updater.entries[k], none, Merged(ori.entries[k], updater.entries[k], none))
    {
      assert MergeableAt(ori, updater, k);
      MergedIsPartial(ori.entries[k], updater.entries[k], none);
    }
  }

  // ---- algebra ------------------------------------------------------------

  /** The result at one key. */
  lemma MergedKey(ori: Json, updater: Json, none: bool, k: string)
    requires ori.Dict? && updater.Dict? && Mergeable(ori, updater)
    ensures var r := Merged(ori, updater, none).entries;
      && (k in r <==> k in ori.entries || k in TakenKeys(updater, none))
      && (k in r ==> r[k] == MergedAt(ori, updater, none, k))
    ensures k in updater.entries ==> MergeableAt(ori, updater, k)
  {
  }

  /** Updating twice with the same dictionary changes nothing more. */
  lemma {:induction false} Idempotent(ori: Json, updater: Json, none: bool)
    requires ori.Dict? && updater.Dict? && Mergeable(ori, updater)
    ensures Mergeable(Merged(ori, updater, none), updater)
    ensures Merged(Merged(ori, updater, none), updater, none) == Merged(ori, updater, none)
    decreases updater
  {
    var once := Merged(ori, updater, none);
    forall k | k in updater.entries && k in once.entries && once.entries[k].Dict?
      ensures MergeableAt(once, updater, k)
      ensures Merged(once.entries[k], updater.entries[k], none) == once.entries[k]
    {
      MergedKey(ori, updater, none, k);
      if k in ori.entries && ori.entries[k].Dict? {
        Idempotent(ori.entries[k], updater.entries[k], none);
      } else {
        MergeSelf(updater.entries[k], none);
      }
    }
    forall k | k in updater.entries ensures MergeableAt(once, updater, k) {}
    forall k ensures k in Merged(once, updater, none).entries <==> k in once.entries
             ensures k in once.entries ==> Merged(once, updater, none).entries[k] == once.entries[k]
    {
      MergedKey(ori, updater, none, k);
      MergedKey(once, updater, none, k);
    }
    assert Merged(once, updater, none).entries == once.entries;
  }

  lemma {:induction false} MergeSelf(j: Json, none: bool)
    requires j.Dict?
    ensures Mergeable(j, j) && Merged(j, j, none) == j
    decreases j
  {
    forall k | k in j.entries && j.entries[k].Dict?
      ensures MergeableAt(j, j, k) && Merged(j.entries[k], j.entries[k], none) == j.entries[k]
    {
      MergeSelf(j.entries[k], none);
    }
    assert Merged(j, j, none).entries == j.entries;
  }

  /** Updating with `first` and then with `second` succeeds exactly when updating with
      their merge does, where `None` values must not be dropped from the merge. */
  lemma {:induction false} ComposedSucceeds(ori: Json, first: Json, second: Json, none: bool)
    requires ori.Dict? && first.Dict? && second.Dict? && Mergeable(ori, first)
    ensures Mergeable(Merged(ori, first, none), second) <==>
            Mergeable(first, second) && Mergeable(ori, Merged(first, second, true))
    decreases first
  {
    var once := Merged(ori, first, none);
    forall k | k in second.entries
      ensures MergeableAt(once, second, k) ==> MergeableAt(first, second, k)
    {
      MergedKey(ori, first, none, k);
      if k in ori.entries && ori.entries[k].Dict? && k in first.entries && second.entries[k].Dict? {
        ComposedSucceeds(ori.entries[k], first.entries[k], second.entries[k], none);
      }
    }
    if Mergeable(first, second) {
      var kept := Merged(first, second, true);
      forall k | k in kept.entries
        ensures k in second.entries ==> (MergeableAt(once, second, k) <==> MergeableAt(ori, kept, k))
        ensures k !in second.entries ==> MergeableAt(ori, kept, k)
      {
        MergedKey(ori, first, none, k);
        MergedKey(first, second, true, k);
        if k in ori.entries && ori.entries[k].Dict? && k in first.entries && k in second.entries && second.entries[k].Dict? {
          ComposedSucceeds(ori.entries[k], first.entries[k], second.entries[k], none);
        }
      }
      forall k | k in second.entries ensures k in kept.entries { MergedKey(first, second, true, k); }
    }
  }

  /** The whole law, also where the first update raises: updating in sequence succeeds exactly
      when the first update does, the two can be merged, and updating with their merge
      succeeds, where `None` values must not be dropped from the merge. */
  lemma {:induction false} SequenceSucceeds(ori: Json, first: Json, second: Json, none: bool)
    requires ori.Dict? && first.Dict? && second.Dict?
    ensures Mergeable(ori, first) && Mergeable(Merged(ori, first, none), second) <==>
            Mergeable(ori, first) && Mergeable(first, second) && Mergeable(ori, Merged(first, second, true))
  {
    if Mergeable(ori, first) {
      ComposedSucceeds(ori, first, second, none);
    }
  }

  /** Where updating with the merge succeeds, updating in sequence does if and only if the
      first update succeeds and no dropped `None` would have raised. */
  lemma MergeSucceedsInSequence(ori: Json, first: Json, second: Json, none: bool)
    requires ori.Dict? && first.Dict? && second.Dict?
    requires Mergeable(first, second) && Mergeable(ori, Merged(first, second, none))
    ensures Mergeable(ori, first) && Mergeable(Merged(ori, first, none), second) <==>
            Mergeable(ori, first) && (none || Mergeable(ori, Merged(first, second, true)))
  {
    SequenceSucceeds(ori, first, second, none);
  }

  /** Dropping `None` values keeps a merge acceptable. */
  lemma {:induction false} DroppingNoneIsMergeable(ori: Json, first: Json, second: Json)
    requires ori.Dict? && first.Dict? && second.Dict? && Mergeable(first, second)
    requires Mergeable(ori, first) && Mergeable(ori, Merged(first, second, true))
    ensures Mergeable(ori, Merged(first, second, false))
    decreases first
  {
    var kept, dropped := Merged(first, second, true), Merged(first, second, false);
    forall k | k in dropped.entries ensures MergeableAt(ori, dropped, k) {
      MergedKey(first, second, true, k);
      MergedKey(first, second, false, k);
      assert k in kept.entries && MergeableAt(ori, kept, k);
      if k in ori.entries && ori.entries[k].Dict? && k in first.entries && k in second.entries {
        assert MergeableAt(ori, first, k);
        DroppingNoneIsMergeable(ori.entries[k], first.entries[k], second.entries[k]);
      }
    }
  }

  /** Updating with `first` and then with `second` is updating with their merge. */
  lemma {:induction false} Composes(ori: Json, first: Json, second: Json, none: bool)
    requires ori.Dict? && first.Dict? && second.Dict?
    requires Mergeable(ori, first) && Mergeable(Merged(ori, first, none), second)
    ensures Mergeable(first, second) && Mergeable(ori, Merged(first, second, none))
    ensures Merged(Merged(ori, first, none), second, none) == Merged(ori, Merged(first, second, none), none)
    decreases first
  {
    ComposedSucceeds(ori, first, second, none);
    if !none {
      DroppingNoneIsMergeable(ori, first, second);
    }
    var once, both := Merged(ori, first, none), Merged(first, second, none);
    var left, right := Merged(once, second, none), Merged(ori, both, none);
    forall k ensures k in left.entries <==> k in right.entries
             ensures k in left.entries ==> left.entries[k] == right.entries[k]
    {
      MergedKey(ori, first, none, k);
      MergedKey(first, second, none, k);
      MergedKey(once, second, none, k);
      MergedKey(ori, both, none, k);
      if k in ori.entries && ori.entries[k].Dict? && k in first.entries && k in second.entries {
        Composes(ori.entries[k], first.entries[k], second.entries[k], none);
      }
    }
    assert left.entries == right.entries;
  }

  /** With `None` values dropped, the merge of two updates can be acceptable where their
      sequence raises: the second one has a `None` where `ori` has a dict. */
  lemma DroppingNoneHidesClash()
    ensures var ori, first, second := Dict(map["a" := Dict(map[])]), Dict(map[]), Dict(map["a" := Null]);
      && Mergeable(ori, first) && !Mergeable(Merged(ori, first, false), second)
      && Mergeable(first, second) && Mergeable(ori, Merged(first, second, false))
  {
    var ori, first, second := Dict(map["a" := Dict(map[])]), Dict(map[]), Dict(map["a" := Null]);
    assert Mergeable(ori, first);
    assert Merged(ori, first, false).entries["a"] == Dict(map[]);
    assert !MergeableAt(Merged(ori, first, false), second, "a");
  }

  /** The merge can also be acceptable, whatever becomes of `None`, where the first update
      raises: its clash is replaced by the second one before it meets `ori`. */
  lemma MergeHidesFirstClash(none: bool)
    ensures var ori, first, second := Dict(map["a" := Dict(map[])]), Dict(map["a" := Str("x")]), Dict(map["a" := Dict(map[])]);
      && !Mergeable(ori, first)
      && Mergeable(first, second) && Mergeable(ori, Merged(first, second, none))
  {
    var ori, first, second := Dict(map["a" := Dict(map[])]), Dict(map["a" := Str("x")]), Dict(map["a" := Dict(map[])]);
    assert !MergeableAt(ori, first, "a");
    assert Mergeable(first, second);
    var merged := Merged(first, second, none);
    MergedKey(first, second, none, "a");
    assert merged.entries["a"] == Dict(map[]);
    forall k | k in merged.entries ensures MergeableAt(ori, merged, k) {
      assert k == "a";
    }
  }
}
