/** Sorting, and the order of file names.

    Python's `list.sort()` is used on paths, on (class, path) pairs and on queue
    names.  All three are strict total orders, for which an ascending list is
    determined by its set of elements alone. */
module Ordering {

  ghost predicate StrictTotal<T(!new)>(lt: (T, T) -> bool) {
    && (forall x :: !lt(x, x))
    && (forall x, y, z :: lt(x, y) && lt(y, z) ==> lt(x, z))
    && (forall x, y :: x != y ==> lt(x, y) || lt(y, x))
  }

  ghost predicate Ascending<T>(lt: (T, T) -> bool, s: seq<T>) {
    forall i, j :: 0 <= i < j < |s| ==> lt(s[i], s[j])
  }

  /** `s` is what sorting the elements of `elements` yields. */
  ghost predicate IsSorted<T(!new)>(lt: (T, T) -> bool, elements: set<T>, s: seq<T>) {
    Ascending(lt, s) && forall x :: x in s <==> x in elements
  }

  lemma {:induction false} SortedIsUnique<T(!new)>(lt: (T, T) -> bool, elements: set<T>, s: seq<T>, t: seq<T>)
    requires StrictTotal(lt)
    requires IsSorted(lt, elements, s) && IsSorted(lt, elements, t)
    ensures s == t
    decreases |s|
  {
    if s == [] {
      if t != [] {
        HasElement(t);
        assert false;
      }
    } else {
      assert s[0] in t && t[0] in s;
      assert s[0] == t[0];
      var rest := elements - {s[0]};
      assert IsSorted(lt, rest, s[1..]) by { DropFirst(lt, elements, s); }
      assert IsSorted(lt, rest, t[1..]) by { DropFirst(lt, elements, t); }
      SortedIsUnique(lt, rest, s[1..], t[1..]);
    }
  }

  lemma HasElement<T>(s: seq<T>)
    requires s != []
    ensures exists x :: x in s
  {
    assert s[0] in s;
  }

  lemma DropFirst<T(!new)>(lt: (T, T) -> bool, elements: set<T>, s: seq<T>)
    requires StrictTotal(lt)
    requires IsSorted(lt, elements, s) && s != []
    ensures IsSorted(lt, elements - {s[0]}, s[1..])
  {
    forall x ensures x in s[1..] <==> x in elements - {s[0]} {
      if x in s[1..] {
        var i :| 0 <= i < |s[1..]| && s[1..][i] == x;
        assert s[i + 1] == x && lt(s[0], s[i + 1]);
      }
      if x in elements - {s[0]} {
        var i :| 0 <= i < |s| && s[i] == x;
        assert s[1..][i - 1] == x;
      }
    }
  }

  /** The rest of a sorted list is the sorted list of the rest. */
  lemma RestIsSorted<T(!new)>(lt: (T, T) -> bool, elements: set<T>, s: seq<T>, n: nat)
    requires StrictTotal(lt) && IsSorted(lt, elements, s) && n <= |s|
    ensures IsSorted(lt, elements - (set x | x in s[..n]), s[n..])
  {
    var rest := elements - (set x | x in s[..n]);
    forall x ensures x in s[n..] <==> x in rest {
      if x in s[n..] {
        var i :| 0 <= i < |s[n..]| && s[n..][i] == x;
        assert s[n + i] == x;
        assert forall j :: 0 <= j < n ==> lt(s[j], s[n + i]);
        assert forall j :: 0 <= j < |s[..n]| ==> s[..n][j] == s[j] != x;
      }
      if x in rest {
        var i :| 0 <= i < |s| && s[i] == x;
        assert forall j :: 0 <= j < n ==> s[j] in s[..n];
        assert s[n..][i - n] == x;
      }
    }
  }

  function Insert<T(!new)>(lt: (T, T) -> bool, x: T, s: seq<T>): (r: seq<T>)
    requires StrictTotal(lt) && Ascending(lt, s) && x !in s
    ensures Ascending(lt, r)
    ensures forall y :: y in r <==> y == x || y in s
    ensures |r| == |s| + 1
  {
    if s == [] || lt(x, s[0]) then
      assert forall y :: y in [x] + s <==> y == x || y in s;
      [x] + s
    else
      assert s[0] in s;
      var rest := Insert(lt, x, s[1..]);
      assert lt(s[0], x);
      assert forall y :: y in s[1..] ==> lt(s[0], y);
      assert forall i :: 0 <= i < |rest| ==> rest[i] in rest && lt(s[0], rest[i]);
      assert forall y :: y in [s[0]] + rest <==> y == s[0] || y in rest;
      assert s == [s[0]] + s[1..];
      [s[0]] + rest
  }

  /** A listing of the directory in any order, sorted afterwards. */
  method Sort<T(!new,==)>(lt: (T, T) -> bool, elements: set<T>) returns (s: seq<T>)
    requires StrictTotal(lt)
    ensures IsSorted(lt, elements, s)
  {
    s := [];
    var todo := elements;
    while todo != {}
      invariant todo <= elements
      invariant IsSorted(lt, elements - todo, s)
      decreases todo
    {
      var x :| x in todo;
      s := Insert(lt, x, s);
      todo := todo - {x};
    }
  }

  lemma {:induction false} SortedExists<T(!new)>(lt: (T, T) -> bool, elements: set<T>) returns (s: seq<T>)
    requires StrictTotal(lt)
    ensures IsSorted(lt, elements, s)
    decreases elements
  {
    if elements == {} {
      s := [];
    } else {
      var x :| x in elements;
      var rest := SortedExists(lt, elements - {x});
      s := Insert(lt, x, rest);
    }
  }

  /** The one ascending list of `elements`. */
  ghost function Sorted<T(!new)>(lt: (T, T) -> bool, elements: set<T>): (s: seq<T>)
    requires StrictTotal(lt)
    ensures IsSorted(lt, elements, s)
  {
    assert exists s :: IsSorted(lt, elements, s) by { var s := SortedExists(lt, elements); }
    var s :| IsSorted(lt, elements, s);
    s
  }
}

/** File names of the in and out queues. */
module Names {
  import opened Ordering

  // ---- string order -------------------------------------------------------

  predicate Less(a: string, b: string) {
    if b == "" then false
    else if a == "" then true
    else if a[0] == b[0] then Less(a[1..], b[1..])
    else a[0] < b[0]
  }

  lemma {:induction false} LessIrreflexive(a: string)
    ensures !Less(a, a)
  {
    if a != "" { LessIrreflexive(a[1..]); }
  }

  lemma {:induction false} LessTransitive(a: string, b: string, c: string)
    requires Less(a, b) && Less(b, c)
    ensures Less(a, c)
  {
    if a != "" && a[0] == b[0] && b[0] == c[0] {
      LessTransitive(a[1..], b[1..], c[1..]);
    }
  }

  lemma {:induction false} LessTotal(a: string, b: string)
    requires a != b
    ensures Less(a, b) || Less(b, a)
  {
    if a != "" && b != "" && a[0] == b[0] {
      assert a[1..] != b[1..] by {
        assert a == [a[0]] + a[1..] && b == [b[0]] + b[1..];
      }
      LessTotal(a[1..], b[1..]);
    }
  }

  lemma LessIsStrictTotal()
    ensures StrictTotal(Less)
  {
    forall a ensures !Less(a, a) { LessIrreflexive(a); }
    forall a, b, c | Less(a, b) && Less(b, c) ensures Less(a, c) { LessTransitive(a, b, c); }
    forall a, b | a != b ensures Less(a, b) || Less(b, a) { LessTotal(a, b); }
  }

  /** `list.sort()` of file names */
  ghost function SortedNames(names: set<string>): seq<string> {
    LessIsStrictTotal();
    Sorted(Less, names)
  }

  lemma SortedNamesUnique(names: set<string>, s: seq<string>)
    requires IsSorted(Less, names, s)
    ensures s == SortedNames(names)
  {
    LessIsStrictTotal();
    SortedIsUnique(Less, names, s, SortedNames(names));
  }

  lemma SortedNamesDistinct(names: set<string>)
    ensures forall name :: name in SortedNames(names) <==> name in names
    ensures forall i, j :: 0 <= i < j < |SortedNames(names)| ==> SortedNames(names)[i] != SortedNames(names)[j]
  {
    var s := SortedNames(names);
    forall i, j | 0 <= i < j < |s| ensures s[i] != s[j] {
      assert Less(s[i], s[j]);
      LessIrreflexive(s[i]);
    }
  }

  method SortNames(names: set<string>) returns (s: seq<string>)
    ensures s == SortedNames(names)
  {
    LessIsStrictTotal();
    s := Sort(Less, names);
    SortedNamesUnique(names, s);
  }

  // ---- the `_ready` rename ------------------------------------------------

  predicate EndsWith(name: string, suffix: string) {
    |suffix| <= |name| && name[|name| - |suffix|..] == suffix
  }

  function LowerChar(c: char): char {
    if 'A' <= c <= 'Z' then c - 'A' + 'a' else c
  }

  function Lower(s: string): (r: string)
    ensures |r| == |s|
  {
    seq(|s|, i requires 0 <= i < |s| => LowerChar(s[i]))
  }

  /** The ASCII capitals become the letters 32 code points later, and nothing else changes. */
  lemma LowerIs(s: string, i: nat)
    requires i < |s|
    ensures Lower(s)[i] as int == s[i] as int + if 'A' <= s[i] <= 'Z' then 32 else 0
    ensures Lower(Lower(s)) == Lower(s)
  {
    assert forall j :: 0 <= j < |s| ==> Lower(Lower(s))[j] == Lower(s)[j];
  }

  const READY := "_ready.json"

  predicate IsJson(name: string) { EndsWith(Lower(name), ".json") }

  predicate IsReady(name: string) { EndsWith(name, READY) }

  /** `name.rsplit(".", 1)[0]` */
  function Stem(name: string): string {
    StemBefore(name, |name|)
  }

  function StemBefore(name: string, end: nat): string
    requires end <= |name|
  {
    if end == 0 then name
    else if name[end - 1] == '.' then name[..end - 1]
    else StemBefore(name, end - 1)
  }

  function ReadyName(name: string): string {
    Stem(name) + READY
  }

  /** For a name that `queue_files` lists, the extension is the last five characters. */
  lemma StemOfJson(name: string)
    requires IsJson(name)
    ensures Stem(name) == name[..|name| - 5]
  {
    var n := |name|;
    var extension := Lower(name)[n - 5..];
    assert extension == ".json";
    assert extension[0] == LowerChar(name[n - 5]);
    assert extension[1] == LowerChar(name[n - 4]);
    assert extension[2] == LowerChar(name[n - 3]);
    assert extension[3] == LowerChar(name[n - 2]);
    assert extension[4] == LowerChar(name[n - 1]);
    assert Stem(name) == StemBefore(name, n - 1) == StemBefore(name, n - 2)
        == StemBefore(name, n - 3) == StemBefore(name, n - 4);
  }

  lemma LowerAppend(a: string, b: string)
    ensures Lower(a + b) == Lower(a) + Lower(b)
  {
  }

  lemma StemOfAppended(stem: string)
    ensures IsJson(stem + ".json") && Stem(stem + ".json") == stem
    ensures ReadyName(stem + ".json") == stem + READY
    ensures IsJson(stem + READY)
  {
    LowerAppend(stem, ".json");
    assert Lower(".json") == ".json";
    StemOfJson(stem + ".json");
    LowerAppend(stem + "_ready", ".json");
    assert stem + READY == (stem + "_ready") + ".json";
  }

  /** Two listed names get the same ready name exactly when they differ at most in
      the case of their extension. */
  lemma ReadyNameCollides(a: string, b: string)
    requires IsJson(a) && IsJson(b)
    ensures ReadyName(a) == ReadyName(b) <==> a[..|a| - 5] == b[..|b| - 5]
  {
    StemOfJson(a);
    StemOfJson(b);
    var s, t := a[..|a| - 5], b[..|b| - 5];
    if s + READY == t + READY {
      assert |s| == |t|;
      assert (s + READY)[..|s|] == s && (t + READY)[..|t|] == t;
    }
  }

  /** Such names exist: the second rename overwrites the file of the first one. */
  lemma ReadyNameOverwrites()
    ensures IsJson("x.json") && IsJson("x.JSON") && ReadyName("x.json") == ReadyName("x.JSON")
  {
    assert Lower("x.json") == Lower("x.JSON") == "x.json";
    ReadyNameCollides("x.json", "x.JSON");
    assert "x.json"[..1] == "x.JSON"[..1];
  }

  /** Neither name is a prefix of the other: their order is decided inside both. */
  predicate Apart(s: string, t: string) { !(s <= t) && !(t <= s) }

  lemma {:induction false} ApartDecides(s: string, t: string, x: string, y: string)
    requires Apart(s, t)
    ensures Less(s + x, t + y) <==> Less(s, t)
    ensures s + x != t + y
  {
    assert s != "" && t != "";
    assert (s + x)[0] == s[0] && (t + y)[0] == t[0];
    if s[0] == t[0] {
      assert Apart(s[1..], t[1..]) by {
        assert s == [s[0]] + s[1..] && t == [t[0]] + t[1..];
      }
      ApartDecides(s[1..], t[1..], x, y);
      assert (s + x)[1..] == s[1..] + x && (t + y)[1..] == t[1..] + y;
      assert s + x == [s[0]] + (s[1..] + x) && t + y == [t[0]] + (t[1..] + y);
    }
  }

  lemma {:induction false} SamePrefix(s: string, x: string, y: string)
    ensures Less(s + x, s + y) <==> Less(x, y)
  {
    if s == "" {
      assert s + x == x && s + y == y;
    } else {
      SamePrefix(s[1..], x, y);
      assert (s + x)[1..] == s[1..] + x && (s + y)[1..] == s[1..] + y;
      SameFirst(s + x, s + y);
    }
  }

  lemma SameFirst(a: string, b: string)
    requires a != "" && b != "" && a[0] == b[0]
    ensures Less(a, b) <==> Less(a[1..], b[1..])
  {
  }

  /** The extension of a listed name, in whatever case, and its letters. */
  function Extension(name: string): string
    requires IsJson(name)
  {
    name[|name| - 5..]
  }

  lemma NameParts(name: string)
    requires IsJson(name)
    ensures |Extension(name)| == 5 && Extension(name)[0] == '.'
    ensures name == Stem(name) + Extension(name)
  {
    StemOfJson(name);
    var n := |name|;
    assert Lower(name)[n - 5..] == ".json";
    assert Lower(name)[n - 5..][0] == LowerChar(name[n - 5]);
  }

  /** Whether a name with extension `x` and one with a stem that continues by `c + r` and
      extension `y` keep their order when both become ready: the `.` after the shorter stem
      turns into `_`. */
  predicate ContinuationKeepsOrder(x: string, c: char, r: string, y: string)
    requires x != ""
  {
    if c == '.' then !Less(x[1..], r + y)
    else if c == '_' then Less(READY[1..], r + READY)
    else c < '.' || '_' < c
  }

  /** Whether the rename keeps the order of two listed files. */
  predicate RenameKeepsOrder(a: string, b: string)
    requires IsJson(a) && IsJson(b)
  {
    var s, t := Stem(a), Stem(b);
    if s < t then ContinuationKeepsOrder(Extension(a), t[|s|], t[|s| + 1..], Extension(b))
    else if t < s then ContinuationKeepsOrder(Extension(b), s[|t|], s[|t| + 1..], Extension(a))
    else true
  }

  lemma ContinuedOrder(s: string, x: string, c: char, r: string, y: string)
    requires x != ""
    ensures Less(s + x, s + [c] + r + y) <==> (if c == x[0] then Less(x[1..], r + y) else x[0] < c)
  {
    var tail := r + y;
    Regroup(s, [c], r, y);
    SamePrefix(s, x, [c] + tail);
    FirstDecides(x, c, tail);
  }

  lemma Regroup(s: string, c: string, r: string, y: string)
    ensures s + c + r + y == s + (c + (r + y))
  {
  }

  lemma FirstDecides(x: string, c: char, tail: string)
    requires x != ""
    ensures Less(x, [c] + tail) <==> (if c == x[0] then Less(x[1..], tail) else x[0] < c)
  {
    assert ([c] + tail)[1..] == tail && ([c] + tail)[0] == c;
  }

  /** Exactly when becoming ready keeps the order of two files, for all names that
      `queue_files` lists and that do not become ready under the same name. */
  lemma RenameOrder(a: string, b: string)
    requires IsJson(a) && IsJson(b) && Stem(a) != Stem(b)
    ensures (Less(a, b) <==> Less(ReadyName(a), ReadyName(b))) <==> RenameKeepsOrder(a, b)
  {
    var s, t := Stem(a), Stem(b);
    NameParts(a);
    NameParts(b);
    if s < t {
      RenameOrderOfContinuation(a, b);
    } else if t < s {
      RenameOrderOfContinuation(b, a);
      SuffixKeepsDistinct(s, t, READY);
      Flip(a, b);
      Flip(ReadyName(a), ReadyName(b));
    } else {
      assert Apart(s, t);
      ApartDecides(s, t, Extension(a), Extension(b));
      ApartDecides(s, t, READY, READY);
    }
  }

  lemma RenameOrderOfContinuation(a: string, b: string)
    requires IsJson(a) && IsJson(b) && Stem(a) < Stem(b)
    ensures (Less(a, b) <==> Less(ReadyName(a), ReadyName(b))) <==> RenameKeepsOrder(a, b)
  {
    var s, t := Stem(a), Stem(b);
    NameParts(a);
    NameParts(b);
    var c, r := t[|s|], t[|s| + 1..];
    assert t == s + [c] + r;
    ContinuationOrder(s, Extension(a), c, r, Extension(b));
  }

  lemma ContinuationOrder(s: string, x: string, c: char, r: string, y: string)
    requires x != "" && x[0] == '.'
    ensures (Less(s + x, s + [c] + r + y) <==> Less(s + READY, s + [c] + r + READY)) <==> ContinuationKeepsOrder(x, c, r, y)
  {
    ContinuedOrder(s, x, c, r, y);
    ContinuedOrder(s, READY, c, r, READY);
  }

  lemma SuffixKeepsDistinct(s: string, t: string, x: string)
    ensures s + x == t + x ==> s == t
  {
    if s + x == t + x {
      assert |s| == |t|;
      assert s == (s + x)[..|s|] && t == (t + x)[..|t|];
    }
  }

  lemma {:induction false} Flip(a: string, b: string)
    ensures a != b ==> (Less(a, b) <==> !Less(b, a))
  {
    LessIrreflexive(a);
    if Less(a, b) && Less(b, a) {
      LessTransitive(a, b, a);
    }
    if a != b {
      LessTotal(a, b);
    }
  }

  /** The order is not kept for a stem that another one continues with a digit. */
  lemma RenameCanSwap()
    ensures Less("7" + ".json", "70" + ".json") && Less("70" + READY, "7" + READY)
  {
    ContinuedOrder("7", ".json", '0', "", ".json");
    ContinuedOrder("7", READY, '0', "", READY);
    assert "7" + ['0'] + "" == "70";
    Flip("7" + READY, "70" + READY);
  }

  /** The case of the extension matters where a stem continues the other one with a dot. */
  lemma CaseOfExtensionMatters()
    ensures IsJson("x" + ".JSON") && IsJson("x.a" + ".json") && IsJson("x" + ".json")
    ensures Less("x" + ".JSON", "x.a" + ".json") && !Less("x" + READY, "x.a" + READY)
    ensures !Less("x" + ".json", "x.a" + ".json")
  {
    LowerAppend("x", ".JSON");
    LowerAppend("x", ".json");
    LowerAppend("x.a", ".json");
    assert Lower(".JSON") == Lower(".json") == ".json";
    assert "x" + ['.'] + "a" == "x.a";
    ContinuedOrder("x", ".JSON", '.', "a", ".json");
    ContinuedOrder("x", ".json", '.', "a", ".json");
    ContinuedOrder("x", READY, '.', "a", READY);
    assert ".JSON"[1..] == "JSON" && ".json"[1..] == "json" && "a" + ".json" == "a.json";
  }
}
