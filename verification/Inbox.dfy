/** The in queue directory as two lists: the ready files, and the arrivals that were not
    preprocessed yet.  The order of names and the ready mark are left abstract here. */
module Inbox {
  import opened Listener
  import opened Ordering

  datatype File = File(name: string, content: Content)

  /** An arrived file with its name now and after it became ready. */
  datatype Item = Item(raw: string, ready: string, content: Content)

  type Order = (string, string) -> bool

  ghost function RawFiles(waiting: seq<Item>): seq<File> {
    seq(|waiting|, i requires 0 <= i < |waiting| => File(waiting[i].raw, waiting[i].content))
  }

  ghost function Entries(ready: seq<File>, waiting: seq<Item>): seq<File> {
    ready + RawFiles(waiting)
  }

  ghost function FileNames(files: seq<File>): seq<string> {
    seq(|files|, i requires 0 <= i < |files| => files[i].name)
  }

  ghost predicate Irreflexive(lt: Order) {
    forall x :: !lt(x, x)
  }

  /** Names ascend in the order of arrival. */
  ghost predicate Ordered(lt: Order, log: seq<File>, waiting: seq<Item>) {
    && (forall i, j :: 0 <= i < j < |log| ==> lt(log[i].name, log[j].name))
    && (forall i, j :: 0 <= i < j < |waiting| ==>
          lt(waiting[i].raw, waiting[j].raw) && lt(waiting[i].ready, waiting[j].ready))
    && (forall i, j :: 0 <= i < |log| && 0 <= j < |waiting| ==> lt(log[i].name, waiting[j].ready))
  }

  ghost predicate Marked(isReady: string -> bool, log: seq<File>, waiting: seq<Item>) {
    && (forall i :: 0 <= i < |log| ==> isReady(log[i].name))
    && (forall i :: 0 <= i < |waiting| ==> !isReady(waiting[i].raw) && isReady(waiting[i].ready))
  }

  ghost predicate Distinct(entries: seq<File>) {
    forall i, j :: 0 <= i < j < |entries| ==> entries[i].name != entries[j].name
  }

  /** The directory has exactly these files. */
  ghost predicate Holds(files: map<string, Content>, entries: seq<File>) {
    && Distinct(entries)
    && (forall i :: 0 <= i < |entries| ==> entries[i].name in files && files[entries[i].name] == entries[i].content)
    && (forall name :: name in files ==> exists i :: 0 <= i < |entries| && entries[i].name == name)
  }

  ghost predicate InboxInv(lt: Order, isReady: string -> bool, files: map<string, Content>,
                           log: seq<File>, sent: nat, waiting: seq<Item>) {
    && sent <= |log|
    && Ordered(lt, log, waiting) && Marked(isReady, log, waiting)
    && Holds(files, Entries(log[sent..], waiting))
  }

  lemma EntriesDistinct(lt: Order, isReady: string -> bool, log: seq<File>, sent: nat, waiting: seq<Item>)
    requires Irreflexive(lt) && sent <= |log|
    requires Ordered(lt, log, waiting) && Marked(isReady, log, waiting)
    ensures Distinct(Entries(log[sent..], waiting))
  {
    var entries, n := Entries(log[sent..], waiting), |log| - sent;
    forall i, j | 0 <= i < j < |entries| ensures entries[i].name != entries[j].name {
      if j < n {
        assert lt(log[sent + i].name, log[sent + j].name);
      } else if n <= i {
        assert lt(waiting[i - n].raw, waiting[j - n].raw);
      }
    }
  }

  /** `longer` is `shorter` with `file` put in at `k`. */
  ghost predicate IsInserted(shorter: seq<File>, longer: seq<File>, k: nat, file: File) {
    && |longer| == |shorter| + 1 && k < |longer| && longer[k] == file
    && (forall i :: 0 <= i < k ==> longer[i] == shorter[i])
    && (forall i :: k <= i < |shorter| ==> longer[i + 1] == shorter[i])
  }

  lemma HoldsWithout(files: map<string, Content>, shorter: seq<File>, longer: seq<File>, k: nat, file: File)
    requires Holds(files, longer) && IsInserted(shorter, longer, k, file)
    ensures Holds(files - {file.name}, shorter)
  {
    forall i | 0 <= i < |shorter|
      ensures shorter[i].name in files && shorter[i].name != file.name && files[shorter[i].name] == shorter[i].content
    {
      assert shorter[i] == longer[if i < k then i else i + 1];
    }
    DistinctWithout(shorter, longer, k, file);
    forall name | name in files && name != file.name ensures exists i :: 0 <= i < |shorter| && shorter[i].name == name {
      var i :| 0 <= i < |longer| && longer[i].name == name;
      assert shorter[if i < k then i else i - 1].name == name;
    }
  }

  lemma DistinctWithout(shorter: seq<File>, longer: seq<File>, k: nat, file: File)
    requires Distinct(longer) && IsInserted(shorter, longer, k, file)
    ensures Distinct(shorter)
  {
    forall i, j | 0 <= i < j < |shorter| ensures shorter[i].name != shorter[j].name {
      assert longer[if i < k then i else i + 1].name != longer[if j < k then j else j + 1].name;
    }
  }

  lemma HoldsWith(files: map<string, Content>, shorter: seq<File>, longer: seq<File>, k: nat, file: File)
    requires Holds(files, shorter) && IsInserted(shorter, longer, k, file) && Distinct(longer)
    ensures Holds(files[file.name := file.content], longer)
  {
    var files' := files[file.name := file.content];
    forall i | 0 <= i < |longer| ensures longer[i].name in files' && files'[longer[i].name] == longer[i].content {
      if i != k {
        assert longer[i] == shorter[if i < k then i else i - 1];
        assert longer[i].name != longer[k].name;
      }
    }
    CoversWith(files, shorter, longer, k, file);
  }

  lemma CoversWith(files: map<string, Content>, shorter: seq<File>, longer: seq<File>, k: nat, file: File)
    requires IsInserted(shorter, longer, k, file)
    requires forall name :: name in files ==> exists i :: 0 <= i < |shorter| && shorter[i].name == name
    ensures forall name :: name in files || name == file.name ==> exists i :: 0 <= i < |longer| && longer[i].name == name
  {
    forall name | name in files || name == file.name ensures exists i :: 0 <= i < |longer| && longer[i].name == name {
      if name == file.name {
        assert longer[k].name == name;
      } else {
        var i :| 0 <= i < |shorter| && shorter[i].name == name;
        assert longer[if i < k then i else i + 1].name == name;
      }
    }
  }

  /** A new file arrives. */
  lemma Arrives(lt: Order, isReady: string -> bool, files: map<string, Content>, log: seq<File>, sent: nat,
          waiting: seq<Item>, a: Item)
    requires Irreflexive(lt) && InboxInv(lt, isReady, files, log, sent, waiting)
    requires Ordered(lt, log, waiting + [a]) && Marked(isReady, log, waiting + [a])
    ensures InboxInv(lt, isReady, files[a.raw := a.content], log, sent, waiting + [a])
  {
    EntriesDistinct(lt, isReady, log, sent, waiting + [a]);
    var shorter, longer := Entries(log[sent..], waiting), Entries(log[sent..], waiting + [a]);
    HoldsWith(files, shorter, longer, |shorter|, File(a.raw, a.content));
  }

  lemma OrderedRest(lt: Order, log: seq<File>, waiting: seq<Item>)
    requires Ordered(lt, log, waiting) && waiting != []
    ensures Ordered(lt, log, waiting[1..])
  {
  }

  /** The first waiting file is removed. */
  lemma Removes(lt: Order, isReady: string -> bool, files: map<string, Content>, log: seq<File>, sent: nat, waiting: seq<Item>)
    requires InboxInv(lt, isReady, files, log, sent, waiting) && waiting != []
    ensures InboxInv(lt, isReady, files - {waiting[0].raw}, log, sent, waiting[1..])
  {
    var shorter, longer := Entries(log[sent..], waiting[1..]), Entries(log[sent..], waiting);
    OrderedRest(lt, log, waiting);
    HoldsWithout(files, shorter, longer, |log| - sent, File(waiting[0].raw, waiting[0].content));
  }

  /** The first waiting file becomes the last ready one. */
  lemma Readies(lt: Order, isReady: string -> bool, files: map<string, Content>, log: seq<File>, sent: nat,
          waiting: seq<Item>, content: Content)
    requires Irreflexive(lt) && InboxInv(lt, isReady, files, log, sent, waiting) && waiting != []
    ensures InboxInv(lt, isReady, (files - {waiting[0].raw})[waiting[0].ready := content],
                     log + [File(waiting[0].ready, content)], sent, waiting[1..])
  {
    var file := File(waiting[0].ready, content);
    var rest, log' := waiting[1..], log + [file];
    Removes(lt, isReady, files, log, sent, waiting);
    OrderedMoves(lt, log, waiting, content);
    EntriesDistinct(lt, isReady, log', sent, rest);
    assert log'[sent..] == log[sent..] + [file];
    HoldsWith(files - {waiting[0].raw}, Entries(log[sent..], rest), Entries(log'[sent..], rest), |log| - sent, file);
  }

  lemma OrderedMoves(lt: Order, log: seq<File>, waiting: seq<Item>, content: Content)
    requires Ordered(lt, log, waiting) && waiting != []
    ensures Ordered(lt, log + [File(waiting[0].ready, content)], waiting[1..])
  {
  }

  /** The first ready file is removed. */
  lemma Sends(lt: Order, isReady: string -> bool, files: map<string, Content>, log: seq<File>, sent: nat, waiting: seq<Item>)
    requires InboxInv(lt, isReady, files, log, sent, waiting) && sent < |log|
    ensures InboxInv(lt, isReady, files - {log[sent].name}, log, sent + 1, waiting)
  {
    HoldsWithout(files, Entries(log[sent + 1..], waiting), Entries(log[sent..], waiting), 0, log[sent]);
  }

  lemma ReadyComeFirst(isReady: string -> bool, log: seq<File>, sent: nat, waiting: seq<Item>, i: nat)
    requires sent <= |log| && Marked(isReady, log, waiting) && i < |Entries(log[sent..], waiting)|
    ensures isReady(Entries(log[sent..], waiting)[i].name) <==> i < |log| - sent
    ensures i >= |log| - sent ==> Entries(log[sent..], waiting)[i] == RawFiles(waiting)[i - (|log| - sent)]
  {
  }

  /** Listing the files that are not ready yields the waiting ones, in order. */
  lemma ListsRaw(lt: Order, isReady: string -> bool, files: map<string, Content>, log: seq<File>, sent: nat, waiting: seq<Item>)
    requires InboxInv(lt, isReady, files, log, sent, waiting)
    ensures IsSorted(lt, (set name | name in files && !isReady(name)), FileNames(RawFiles(waiting)))
  {
    var entries, names, n := Entries(log[sent..], waiting), FileNames(RawFiles(waiting)), |log| - sent;
    forall i | 0 <= i < |names| ensures names[i] in files && !isReady(names[i]) {
      assert entries[n + i].name == names[i];
    }
    forall name | name in files && !isReady(name) ensures name in names {
      var i :| 0 <= i < |entries| && entries[i].name == name;
      ReadyComeFirst(isReady, log, sent, waiting, i);
      assert names[i - n] == name;
    }
    forall i, j | 0 <= i < j < |names| ensures lt(names[i], names[j]) {
      assert lt(waiting[i].raw, waiting[j].raw);
    }
  }

  /** Listing the ready files yields the logged ones that were not sent, in order. */
  lemma ListsReady(lt: Order, isReady: string -> bool, files: map<string, Content>, log: seq<File>, sent: nat,
          waiting: seq<Item>)
    requires InboxInv(lt, isReady, files, log, sent, waiting)
    ensures IsSorted(lt, (set name | name in files && isReady(name)), FileNames(log[sent..]))
  {
    var entries, names, n := Entries(log[sent..], waiting), FileNames(log[sent..]), |log| - sent;
    forall i | 0 <= i < |names| ensures names[i] in files && isReady(names[i]) {
      assert entries[i].name == names[i];
    }
    forall name | name in files && isReady(name) ensures name in names {
      var i :| 0 <= i < |entries| && entries[i].name == name;
      ReadyComeFirst(isReady, log, sent, waiting, i);
      assert names[i] == name;
    }
    forall i, j | 0 <= i < j < |names| ensures lt(names[i], names[j]) {
      assert lt(log[sent + i].name, log[sent + j].name);
    }
  }

  /** The next file of either listing. */
  lemma FirstEntries(files: map<string, Content>, log: seq<File>, sent: nat, waiting: seq<Item>)
    requires sent <= |log| && Holds(files, Entries(log[sent..], waiting))
    ensures waiting != [] ==> waiting[0].raw in files && files[waiting[0].raw] == waiting[0].content
    ensures sent < |log| ==> log[sent].name in files && files[log[sent].name] == log[sent].content
  {
    var entries := Entries(log[sent..], waiting);
    assert waiting != [] ==> entries[|log| - sent].name == waiting[0].raw;
    assert sent < |log| ==> entries[0] == log[sent];
  }
}
