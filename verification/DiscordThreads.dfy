/**
  backend/app/channels/discord.py: the map from channels to their Discord threads, the
  reverse index that is kept beside it, and the splitting of long messages.
 */
module DiscordThreads {
  import opened OrderedDicts
  import opened Wrappers

  // The map and its reverse index

  type Threads = Dict<string, string>

  /** `_active_threads` and `_active_thread_ids`. */
  datatype Index = Index(active: Threads, ids: set<string>)

  function Values(d: Threads): set<string> {
    set i | 0 <= i < |d| :: d[i].value
  }

  ghost predicate Agrees(s: Index) {
    Unique(s.active) && s.ids == Values(s.active)
  }

  /** Another channel maps to this thread. */
  predicate HeldElsewhere(d: Threads, channel: string, id: string) {
    exists i :: 0 <= i < |d| && d[i].key != channel && d[i].value == id
  }

  /** No two channels share a thread. */
  ghost predicate Separate(d: Threads) {
    forall i, j :: 0 <= i < j < |d| ==> d[i].value != d[j].value
  }

  function Recorded(s: Index, channel: string, id: string): Index {
    var prev := Get(s.active, channel);
    var kept := if prev.Some? && prev.value != "" then s.ids - {prev.value} else s.ids;
    Index(Put(s.active, channel, id), kept + {id})
  }

  /** Storing the items of a file one after the other, on top of what is there. */
  function Filled(s: Index, items: Threads): Index
    decreases |items|
  {
    if items == [] then s
    else Filled(Index(Put(s.active, items[0].key, items[0].value), s.ids + {items[0].value}), items[1..])
  }

  /** The thread file: absent, not readable as JSON, or the items of a dictionary. */
  datatype File = Missing | Unreadable | Mapping(items: Threads)

  ghost predicate GoodFile(file: File) {
    file.Mapping? ==> Unique(file.items)
  }

  function Loaded(s: Index, file: File): Index {
    if file.Mapping? then Filled(Index([], {}), file.items) else s
  }

  class ThreadIndex {
    var active: Threads
    var ids: set<string>
    var file: File

    ghost function State(): Index
      reads this
    {
      Index(active, ids)
    }

    constructor (file: File)
      ensures State() == Index([], {}) && this.file == file
    {
      active, ids := [], {};
      this.file := file;
    }

    method RecordThreadMapping(channel: string, id: string)
      modifies this`active, this`ids
      ensures State() == old(Recorded(State(), channel, id))
    {
      var oldId := Get(active, channel);
      active := Put(active, channel, id);
      if oldId.Some? && oldId.value != "" {
        ids := ids - {oldId.value};
      }
      ids := ids + {id};
    }

    method LoadActiveThreads()
      requires GoodFile(file)
      modifies this`active, this`ids
      ensures State() == old(Loaded(State(), file))
      ensures file.Mapping? ==> active == file.items && ids == Values(file.items) && Agrees(State())
    {
      if !file.Mapping? {
        return;
      }
      var data := file.items;
      active := [];
      ids := {};
      var i := 0;
      while i < |data|
        modifies this`active, this`ids
        invariant 0 <= i <= |data|
        invariant Filled(Index([], {}), data) == Filled(State(), data[i..])
      {
        assert data[i..][0] == data[i] && data[i..][1..] == data[i + 1..];
        active := Put(active, data[i].key, data[i].value);
        ids := ids + {data[i].value};
        i := i + 1;
      }
      FilledIsTheFile(data);
    }

    /** A failed write may leave anything in the file. */
    method PersistThreadMappings(failure: Option<File>)
      modifies this`file
      ensures file == if failure.Some? then failure.value else Mapping(active)
    {
      var snapshot := active;
      file := if failure.Some? then failure.value else Mapping(snapshot);
    }
  }

  lemma {:induction false} FilledAppends(s: Index, items: Threads)
    requires Unique(s.active + items)
    ensures Filled(s, items) == Index(s.active + items, s.ids + Values(items))
    decreases |items|
  {
    if items == [] {
      assert s.active + items == s.active;
    } else {
      var item, rest := items[0], items[1..];
      var d := s.active + items;
      assert forall i :: 0 <= i < |s.active| ==> d[i] == s.active[i];
      assert d[|s.active|] == item;
      assert !Has(s.active, item.key);
      PutSpec(s.active, item.key, item.value);
      assert d == s.active + [item] + rest;
      FilledAppends(Index(Put(s.active, item.key, item.value), s.ids + {item.value}), rest);
      assert Values(items) == {item.value} + Values(rest) by {
        assert forall i :: 0 <= i < |rest| ==> rest[i] == items[i + 1];
      }
    }
  }

  lemma FilledIsTheFile(items: Threads)
    requires Unique(items)
    ensures Filled(Index([], {}), items) == Index(items, Values(items))
  {
    assert [] + items == items;
    FilledAppends(Index([], {}), items);
  }

  /** What was persisted is what is loaded: the map in its order, and an index that agrees with it. */
  lemma PersistThenLoad(s: Index, before: Index)
    requires Agrees(s)
    ensures Loaded(before, Mapping(s.active)) == s
  {
    FilledIsTheFile(s.active);
  }

  // When recording keeps the index

  lemma {:induction false} ValuesAfterPut(d: Threads, channel: string, id: string)
    requires Unique(d)
    ensures forall v :: v in Values(Put(d, channel, id)) <==> v == id || HeldElsewhere(d, channel, v)
  {
    PutSpec(d, channel, id);
    var p := Put(d, channel, id);
    forall v | v in Values(p) ensures v == id || HeldElsewhere(d, channel, v) {
      var i :| 0 <= i < |p| && p[i].value == v;
      GetAt(p, i);
      if p[i].key != channel {
        assert Get(d, p[i].key) == Some(v);
      }
    }
    forall v | v == id || HeldElsewhere(d, channel, v) ensures v in Values(p) {
      if v == id {
        assert Get(p, channel) == Some(id);
      } else {
        var i :| 0 <= i < |d| && d[i].key != channel && d[i].value == v;
        GetAt(d, i);
        assert Get(p, d[i].key) == Some(v);
      }
    }
  }

  /**
    Recording keeps the index exactly if the replaced thread id, when there is one, is the
    new id or belongs to this channel alone. (An empty id is never dropped from the index.)
   */
  lemma RecordKeepsIndexExactlyIf(s: Index, channel: string, id: string)
    requires Agrees(s)
    ensures Agrees(Recorded(s, channel, id))
       <==> (Get(s.active, channel).Some? ==>
               var prev := Get(s.active, channel).value;
               prev == id || (prev == "" <==> HeldElsewhere(s.active, channel, prev)))
  {
    var r := Recorded(s, channel, id);
    PutSpec(s.active, channel, id);
    forall v ensures v == id || Get(s.active, channel) != Some(v) ==> (v in r.ids <==> v in Values(r.active)) {
      IndexedAfter(s, channel, id, v);
    }
    if Get(s.active, channel).Some? {
      IndexedAfter(s, channel, id, Get(s.active, channel).value);
    }
  }

  /** After a record only the replaced id can be in one collection and not in the other. */
  lemma IndexedAfter(s: Index, channel: string, id: string, v: string)
    requires Agrees(s)
    ensures var r, prev := Recorded(s, channel, id), Get(s.active, channel);
      if v != id && prev == Some(v)
      then (v in r.ids <==> v == "") && (v in Values(r.active) <==> HeldElsewhere(s.active, channel, v))
      else v in r.ids <==> v in Values(r.active)
  {
    ValuesAfterPut(s.active, channel, id);
    InValues(s.active, channel, v);
  }

  lemma InValues(d: Threads, channel: string, v: string)
    requires Unique(d)
    ensures v in Values(d) <==> Get(d, channel) == Some(v) || HeldElsewhere(d, channel, v)
  {
  }

  // Whole runs

  datatype Op =
    | Record(channel: string, id: string)
    | Load
    | Persist(failure: Option<File>)

  function Apply(s: Index, file: File, op: Op): (Index, File) {
    match op
    case Record(channel, id) => (Recorded(s, channel, id), file)
    case Load => (Loaded(s, file), file)
    case Persist(failure) => (s, if failure.Some? then failure.value else Mapping(s.active))
  }

  function Run(s: Index, file: File, ops: seq<Op>): (Index, File)
    decreases |ops|
  {
    if ops == [] then (s, file)
    else
      var (t, f) := Apply(s, file, ops[0]);
      Run(t, f, ops[1..])
  }

  /** Each recorded id is a real one that no other channel holds; failed writes leave no foreign mapping. */
  ghost predicate FreshRun(s: Index, file: File, ops: seq<Op>)
    decreases |ops|
  {
    ops == [] ||
    (&& (ops[0].Record? ==> ops[0].id != "" && !HeldElsewhere(s.active, ops[0].channel, ops[0].id))
     && (ops[0].Persist? && ops[0].failure.Some? ==> !ops[0].failure.value.Mapping?)
     && (var (t, f) := Apply(s, file, ops[0]);
         FreshRun(t, f, ops[1..])))
  }

  ghost predicate GoodThreads(d: Threads) {
    Unique(d) && Separate(d) && "" !in Values(d)
  }

  ghost predicate Good(s: Index, file: File) {
    Agrees(s) && GoodThreads(s.active) && (file.Mapping? ==> GoodThreads(file.items))
  }

  lemma RecordKeepsGood(s: Index, channel: string, id: string)
    requires Agrees(s) && GoodThreads(s.active) && id != "" && !HeldElsewhere(s.active, channel, id)
    ensures Agrees(Recorded(s, channel, id)) && GoodThreads(Put(s.active, channel, id))
  {
    var d, p := s.active, Put(s.active, channel, id);
    PutSpec(d, channel, id);
    ValuesAfterPut(d, channel, id);
    if Get(d, channel).Some? {
      var prev := Get(d, channel).value;
      InValues(d, channel, prev);
    }
    RecordKeepsIndexExactlyIf(s, channel, id);
    forall i, j | 0 <= i < j < |p| ensures p[i].value != p[j].value {
      GetAt(p, i);
      GetAt(p, j);
      PutSeparates(d, channel, id, p[i].key, p[j].key);
    }
    forall v | HeldElsewhere(d, channel, v) ensures v in Values(d) {
    }
  }

  lemma PutSeparates(d: Threads, channel: string, id: string, a: string, b: string)
    requires Unique(d) && Separate(d) && !HeldElsewhere(d, channel, id) && a != b
    requires Get(Put(d, channel, id), a).Some? && Get(Put(d, channel, id), b).Some?
    ensures Get(Put(d, channel, id), a) != Get(Put(d, channel, id), b)
  {
    PutSpec(d, channel, id);
    if a != channel && b != channel {
      GetsDiffer(d, a, b);
    }
  }

  lemma GetsDiffer(d: Threads, a: string, b: string)
    requires Separate(d) && a != b && Get(d, a).Some? && Get(d, b).Some?
    ensures Get(d, a) != Get(d, b)
  {
  }

  /** Over every run of loads, persists and records of fresh ids the index is the set of values. */
  lemma {:induction false} RunKeepsIndex(s: Index, file: File, ops: seq<Op>)
    requires Good(s, file) && FreshRun(s, file, ops)
    ensures Good(Run(s, file, ops).0, Run(s, file, ops).1)
    decreases |ops|
  {
    if ops != [] {
      var (t, f) := Apply(s, file, ops[0]);
      match ops[0]
      case Record(channel, id) =>
        RecordKeepsGood(s, channel, id);
        RunKeepsIndex(t, f, ops[1..]);
      case Load =>
        if file.Mapping? {
          FilledIsTheFile(file.items);
        }
        RunKeepsIndex(t, f, ops[1..]);
      case Persist(failure) =>
        RunKeepsIndex(t, f, ops[1..]);
    }
  }

  /** Two channels that share a thread: replacing it in one makes the index forget the other. */
  lemma SharedThreadBreaksIndex(a: string, b: string, shared: string, id: string)
    requires a != b && shared != "" && id != shared
    ensures var d := [Item(a, shared), Item(b, shared)];
      Agrees(Loaded(Index([], {}), Mapping(d))) && !Agrees(Recorded(Loaded(Index([], {}), Mapping(d)), a, id))
  {
    var d := [Item(a, shared), Item(b, shared)];
    FilledIsTheFile(d);
    assert d[1].key == b;
    RecordKeepsIndexExactlyIf(Index(d, Values(d)), a, id);
  }

  // Recording while the file is being loaded

  /**
    The `p`th step of a load as the other thread sees it: the map is emptied, then the set, then
    each item goes into the map and its thread into the set.
   */
  function LoadStep(s: Index, items: Threads, p: nat): Index
    requires p < 2 + 2 * |items|
  {
    if p == 0 then s.(active := [])
    else if p == 1 then s.(ids := {})
    else
      var item := items[(p - 2) / 2];
      if p % 2 == 0 then s.(active := Put(s.active, item.key, item.value)) else s.(ids := s.ids + {item.value})
  }

  /** How many items the first `p` steps have put into the map, and into the set. */
  function Stored(p: nat): nat {
    if p < 2 then 0 else (p - 1) / 2
  }

  function Added(p: nat): nat {
    if p < 2 then 0 else (p - 2) / 2
  }

  function LoadUpTo(s: Index, items: Threads, p: nat): Index
    requires p <= 2 + 2 * |items|
  {
    if p == 0 then s else LoadStep(LoadUpTo(s, items, p - 1), items, p - 1)
  }

  function LoadFrom(s: Index, items: Threads, p: nat): Index
    requires p <= 2 + 2 * |items|
    decreases 2 + 2 * |items| - p
  {
    if p == 2 + 2 * |items| then s else LoadFrom(LoadStep(s, items, p), items, p + 1)
  }

  /** A load with a record after its first `p` steps. */
  function LoadWithRecord(s: Index, items: Threads, p: nat, channel: string, id: string): Index
    requires p <= 2 + 2 * |items|
  {
    LoadFrom(Recorded(LoadUpTo(s, items, p), channel, id), items, p)
  }

  function PutAll(d: Threads, items: Threads): Threads
    decreases |items|
  {
    if items == [] then d else PutAll(Put(d, items[0].key, items[0].value), items[1..])
  }

  lemma {:induction false} PutAllSpec(d: Threads, items: Threads, k: string)
    requires Unique(d) && Unique(items)
    ensures Unique(PutAll(d, items))
    ensures Get(PutAll(d, items), k) == if Has(items, k) then Get(items, k) else Get(d, k)
    decreases |items|
  {
    if items != [] {
      HeadAbsent(items);
      HasTail(items, k);
      PutSpec(d, items[0].key, items[0].value);
      PutAllSpec(Put(d, items[0].key, items[0].value), items[1..], k);
    }
  }

  /** Filling an empty map gives the items themselves. */
  lemma PutAllFromEmpty(items: Threads)
    requires Unique(items)
    ensures PutAll([], items) == items
  {
    FilledIsPutAll(Index([], {}), items);
    FilledIsTheFile(items);
  }

  lemma {:induction false} FilledIsPutAll(s: Index, items: Threads)
    ensures Filled(s, items).active == PutAll(s.active, items)
    decreases |items|
  {
    if items != [] {
      FilledIsPutAll(Index(Put(s.active, items[0].key, items[0].value), s.ids + {items[0].value}), items[1..]);
    }
  }

  lemma ValuesOfTail(items: Threads, b: nat)
    requires b < |items|
    ensures Values(items[b..]) == {items[b].value} + Values(items[b + 1..])
    ensures Values(items[..b + 1]) == Values(items[..b]) + {items[b].value}
  {
    var t, u := items[b..], items[b + 1..];
    assert t[0] == items[b] && forall i :: 0 <= i < |u| ==> u[i] == t[i + 1];
    var x, y := items[..b], items[..b + 1];
    assert y[b] == items[b] && forall i :: 0 <= i < b ==> x[i] == y[i];
  }

  function Midway(items: Threads, stored: nat, added: nat): Index
    requires stored <= |items| && added <= |items|
  {
    Index(items[..stored], Values(items[..added]))
  }

  lemma Cleared(s: Index, items: Threads)
    ensures LoadUpTo(s, items, 2) == Index([], {})
  {
    assert LoadUpTo(s, items, 1) == LoadStep(LoadUpTo(s, items, 0), items, 0);
    assert LoadUpTo(s, items, 2) == LoadStep(LoadUpTo(s, items, 1), items, 1);
  }

  /** The state after the clears, while the items come in. */
  lemma {:induction false} LoadedSoFar(s: Index, items: Threads, p: nat)
    requires Unique(items) && 2 <= p <= 2 + 2 * |items|
    ensures LoadUpTo(s, items, p) == Midway(items, Stored(p), Added(p))
  {
    if p > 2 {
      LoadedSoFar(s, items, p - 1);
      OneStepMore(items, p - 1);
    } else {
      Cleared(s, items);
    }
  }

  lemma OneStepMore(items: Threads, p: nat)
    requires Unique(items) && 2 <= p < 2 + 2 * |items|
    ensures LoadStep(Midway(items, Stored(p), Added(p)), items, p) == Midway(items, Stored(p + 1), Added(p + 1))
  {
    var k := (p - 2) / 2;
    if p % 2 == 0 {
      assert Stored(p) == k == Added(p) == Added(p + 1) && Stored(p + 1) == k + 1;
      PrefixPut(items, k);
    } else {
      assert Stored(p) == k + 1 == Stored(p + 1) && Added(p) == k && Added(p + 1) == k + 1;
      ValuesOfTail(items, k);
    }
  }

  lemma PrefixPut(items: Threads, k: nat)
    requires Unique(items) && k < |items|
    ensures Put(items[..k], items[k].key, items[k].value) == items[..k + 1]
  {
    assert forall i :: 0 <= i < k ==> items[..k][i].key != items[k].key;
    PutPlaces(items[..k], items[k].key, items[k].value);
    assert items[..k] + [Item(items[k].key, items[k].value)] == items[..k + 1];
  }

  /** What the rest of the fill does to any state. */
  lemma {:induction false} FillsTheRest(s: Index, items: Threads, p: nat)
    requires 2 <= p <= 2 + 2 * |items|
    ensures LoadFrom(s, items, p) == Index(PutAll(s.active, items[Stored(p)..]), s.ids + Values(items[Added(p)..]))
    decreases 2 + 2 * |items| - p
  {
    if p < 2 + 2 * |items| {
      var k := (p - 2) / 2;
      FillsTheRest(LoadStep(s, items, p), items, p + 1);
      ValuesOfTail(items, k);
      if p % 2 == 0 {
        assert Stored(p) == k == Added(p) == Added(p + 1) && Stored(p + 1) == k + 1;
        assert items[k..][0] == items[k] && items[k..][1..] == items[k + 1..];
      } else {
        assert Stored(p) == k + 1 == Stored(p + 1) && Added(p) == k && Added(p + 1) == k + 1;
      }
    } else {
      assert items[|items|..] == [] && Values([]) == {};
    }
  }

  /** Undisturbed, the steps do what the load promises. */
  lemma LoadAlone(s: Index, items: Threads)
    requires Unique(items)
    ensures LoadFrom(s, items, 0) == Loaded(s, Mapping(items))
  {
    assert LoadFrom(s, items, 0) == LoadFrom(LoadStep(LoadStep(s, items, 0), items, 1), items, 2);
    FillsTheRest(Index([], {}), items, 2);
    FilledIsTheFile(items);
    PutAllFromEmpty(items);
    assert items[0..] == items;
  }

  /** Map and set after a load with a record in it. */
  lemma RecordedLoad(s: Index, items: Threads, p: nat, channel: string, id: string)
    requires Unique(items) && p <= 2 + 2 * |items|
    ensures var r, a, b := LoadWithRecord(s, items, p, channel, id), Stored(p), Added(p);
      if p == 0 then r == Index(items, Values(items))
      else if p == 1 then r == Index(PutAll(Put([], channel, id), items), Values(items))
      else
        var mid := Recorded(Index(items[..a], Values(items[..b])), channel, id);
        r == Index(PutAll(mid.active, items[a..]), mid.ids + Values(items[b..]))
  {
    if p == 0 {
      LoadAlone(Recorded(s, channel, id), items);
      FilledIsTheFile(items);
    } else if p == 1 {
      var mid := Recorded(LoadUpTo(s, items, 1), channel, id);
      assert LoadUpTo(s, items, 1) == LoadStep(LoadUpTo(s, items, 0), items, 0);
      assert LoadFrom(mid, items, 1) == LoadFrom(mid.(ids := {}), items, 2);
      FillsTheRest(mid.(ids := {}), items, 2);
      assert items[0..] == items;
    } else {
      LoadedSoFar(s, items, p);
      FillsTheRest(Recorded(LoadUpTo(s, items, p), channel, id), items, p);
    }
  }

  lemma SplitHas(items: Threads, a: nat, q: string)
    requires a <= |items|
    ensures Has(items, q) <==> Has(items[..a], q) || Has(items[a..], q)
  {
    if Has(items, q) {
      var j :| 0 <= j < |items| && items[j].key == q;
      assert if j < a then items[..a][j].key == q else items[a..][j - a].key == q;
    }
    if Has(items[a..], q) {
      var j :| 0 <= j < |items[a..]| && items[a..][j].key == q;
      assert items[a + j].key == q;
    }
  }

  lemma SplitGet(items: Threads, a: nat, q: string)
    requires Unique(items) && a <= |items|
    ensures Get(items, q) == if Has(items[a..], q) then Get(items[a..], q) else Get(items[..a], q)
    ensures Has(items[a..], q) ==> Get(items[..a], q) == None
  {
    SuffixSpec(items, a);
    SplitHas(items, a, q);
    if Has(items[a..], q) {
      var j :| 0 <= j < |items[a..]| && items[a..][j].key == q;
      assert items[a + j].key == q;
    } else if Has(items[..a], q) {
      var j :| 0 <= j < a && items[..a][j] == Item(q, Get(items[..a], q).value);
      assert items[j] == items[..a][j];
      GetAt(items, j);
    }
  }

  lemma SplitValues(items: Threads, b: nat)
    requires b <= |items|
    ensures Values(items) == Values(items[..b]) + Values(items[b..])
  {
    forall v | v in Values(items) ensures v in Values(items[..b]) || v in Values(items[b..]) {
      var j :| 0 <= j < |items| && items[j].value == v;
      assert if j < b then items[..b][j].value == v else items[b..][j - b].value == v;
    }
    forall v | v in Values(items[b..]) ensures v in Values(items) {
      var j :| 0 <= j < |items[b..]| && items[b..][j].value == v;
      assert items[b + j].value == v;
    }
  }

  /** The map after the load: the file's, but for the recorded channel. */
  lemma RecordedMap(s: Index, items: Threads, p: nat, channel: string, id: string, q: string)
    requires Unique(items) && p <= 2 + 2 * |items|
    ensures var d := LoadWithRecord(s, items, p, channel, id).active;
      && Unique(d)
      && Get(d, q) == if q == channel && p > 0 && !Has(items[Stored(p)..], channel) then Some(id) else Get(items, q)
  {
    RecordedLoad(s, items, p, channel, id);
    var a := Stored(p);
    var start := items[..a];
    assert items[0..] == items && items[..0] == [];
    SuffixSpec(items, a);
    assert Unique(start) by {
      assert forall i :: 0 <= i < |start| ==> start[i] == items[i];
    }
    PutSpec(start, channel, id);
    PutAllSpec(Put(start, channel, id), items[a..], q);
    SplitGet(items, a, q);
  }

  lemma HeldIsGot(d: Threads, channel: string, v: string)
    requires Unique(d)
    ensures HeldElsewhere(d, channel, v) <==> exists q :: q != channel && Get(d, q) == Some(v)
  {
    if HeldElsewhere(d, channel, v) {
      var i :| 0 <= i < |d| && d[i].key != channel && d[i].value == v;
      GetAt(d, i);
    }
  }

  lemma SameElsewhere(s: Index, items: Threads, p: nat, channel: string, id: string, v: string)
    requires Unique(items) && p <= 2 + 2 * |items|
    ensures HeldElsewhere(LoadWithRecord(s, items, p, channel, id).active, channel, v) <==> HeldElsewhere(items, channel, v)
  {
    var d := LoadWithRecord(s, items, p, channel, id).active;
    RecordedMap(s, items, p, channel, id, channel);
    HeldIsGot(d, channel, v);
    HeldIsGot(items, channel, v);
    forall q | q != channel ensures Get(d, q) == Get(items, q) {
      RecordedMap(s, items, p, channel, id, q);
    }
  }

  /** Whether the index still agrees, told from the file and the moment of the record alone. */
  ghost predicate IndexSurvives(items: Threads, p: nat, channel: string, id: string)
    requires p <= 2 + 2 * |items|
  {
    if p == 0 then true
    else if p == 1 then Has(items, channel) || id in Values(items)
    else if Has(items[Stored(p)..], channel) then id in Values(items)
    else
      Get(items, channel).Some? ==>
        var prev := Get(items, channel).value;
        prev == id || (HeldElsewhere(items, channel, prev) <==> prev == "" || prev in Values(items[Added(p)..]))
  }

  /** One id in the map and in the set of a load with a record. */
  lemma IndexedAfterLoad(s: Index, items: Threads, p: nat, channel: string, id: string, v: string)
    requires Unique(items) && 0 < p <= 2 + 2 * |items|
    ensures var r := LoadWithRecord(s, items, p, channel, id);
      var kept := !Has(items[Stored(p)..], channel);
      && (v in Values(r.active) <==>
            HeldElsewhere(items, channel, v) || (if kept then v == id else Get(items, channel) == Some(v)))
      && (v in r.ids <==>
            if p > 1 && kept && Get(items, channel) == Some(v) && v != "" then v == id || v in Values(items[Added(p)..])
            else v in Values(items) || (p > 1 && v == id))
  {
    var r := LoadWithRecord(s, items, p, channel, id);
    RecordedMap(s, items, p, channel, id, channel);
    SameElsewhere(s, items, p, channel, id, v);
    InValues(r.active, channel, v);
    InValues(items, channel, v);
    RecordedLoad(s, items, p, channel, id);
    SplitValues(items, Added(p));
    SplitGet(items, Stored(p), channel);
  }

  /**
    For a record at any moment of a load, with any channel and any id: map and index agree after
    the load exactly if `IndexSurvives`.
   */
  lemma LoadWithRecordKeepsIndexExactlyIf(s: Index, items: Threads, p: nat, channel: string, id: string)
    requires Unique(items) && p <= 2 + 2 * |items|
    ensures Agrees(LoadWithRecord(s, items, p, channel, id)) <==> IndexSurvives(items, p, channel, id)
  {
    var r := LoadWithRecord(s, items, p, channel, id);
    if p == 0 {
      RecordedLoad(s, items, p, channel, id);
    } else {
      RecordedMap(s, items, p, channel, id, channel);
      assert items[0..] == items;
      if IndexSurvives(items, p, channel, id) {
        forall v ensures v in r.ids <==> v in Values(r.active) {
          IndexedAfterLoad(s, items, p, channel, id, v);
          InValues(items, channel, v);
        }
      } else {
        var v := if p == 1 || Has(items[Stored(p)..], channel) then id else Get(items, channel).value;
        IndexedAfterLoad(s, items, p, channel, id, v);
        InValues(items, channel, v);
      }
    }
  }

  /** The record itself survives a load exactly unless the file's own item for the channel comes after it. */
  lemma RecordSurvivesLoadExactlyIf(s: Index, items: Threads, p: nat, channel: string, id: string)
    requires Unique(items) && p <= 2 + 2 * |items|
    ensures Get(LoadWithRecord(s, items, p, channel, id).active, channel) == Some(id)
       <==> (p > 0 && !Has(items[Stored(p)..], channel)) || Get(items, channel) == Some(id)
  {
    RecordedMap(s, items, p, channel, id, channel);
  }

  /**
    A thread just created, and a file whose channels do not share threads: the index is wrong
    exactly when the record falls between the clears and the channel is not in the file, or when
    it falls into the fill before the channel's own item is through.
   */
  lemma FreshRecordDuringLoad(s: Index, items: Threads, p: nat, channel: string, id: string)
    requires GoodThreads(items) && id !in Values(items) && p <= 2 + 2 * |items|
    ensures Agrees(LoadWithRecord(s, items, p, channel, id))
       <==> p == 0 || (if p == 1 then Has(items, channel) else !Has(items[Added(p)..], channel))
  {
    LoadWithRecordKeepsIndexExactlyIf(s, items, p, channel, id);
    if p > 1 && Get(items, channel).Some? {
      var prev := Get(items, channel).value;
      SplitGet(items, Added(p), channel);
      SplitGet(items, Stored(p), channel);
      AloneInFile(items, Added(p), channel);
    }
  }

  lemma AloneInFile(items: Threads, b: nat, channel: string)
    requires Unique(items) && Separate(items) && b <= |items| && Get(items, channel).Some?
    ensures var prev := Get(items, channel).value;
      && prev in Values(items)
      && !HeldElsewhere(items, channel, prev)
      && (prev in Values(items[b..]) <==> Has(items[b..], channel))
  {
    var prev := Get(items, channel).value;
    var i :| 0 <= i < |items| && items[i] == Item(channel, prev);
    if prev in Values(items[b..]) {
      var j :| 0 <= j < |items[b..]| && items[b..][j].value == prev;
      assert items[b + j].value == prev;
      assert b + j == i;
    }
    if Has(items[b..], channel) {
      var j :| 0 <= j < |items[b..]| && items[b..][j].key == channel;
      assert items[b + j].key == channel;
      assert b + j == i;
    }
  }

  /** Between the clears, in particular: what the channel is mapped to, unknown to the index. */
  lemma RecordBetweenClearsBreaks(s: Index, items: Threads, channel: string, id: string)
    requires Unique(items)
    ensures var r := LoadWithRecord(s, items, 1, channel, id);
      && (Agrees(r) <==> Has(items, channel) || id in Values(items))
      && (!Agrees(r) ==> Get(r.active, channel) == Some(id) && id !in r.ids)
  {
    LoadWithRecordKeepsIndexExactlyIf(s, items, 1, channel, id);
    RecordedMap(s, items, 1, channel, id, channel);
    RecordedLoad(s, items, 1, channel, id);
    assert items[0..] == items;
  }

  /** A record before the load clears the map is forgotten unless the file already held it. */
  lemma RecordBeforeLoadIsForgotten(s: Index, items: Threads, channel: string, id: string)
    requires Unique(items)
    ensures var r := LoadWithRecord(s, items, 0, channel, id);
      r == Loaded(s, Mapping(items)) && Get(r.active, channel) == Get(items, channel)
  {
    RecordedLoad(s, items, 0, channel, id);
    FilledIsTheFile(items);
  }

  // Splitting a message

  const MAX_MESSAGE_LEN := 2000

  /** `s.rfind("\n")`. */
  function LastNewline(s: string): (i: int)
    ensures -1 <= i < |s|
  {
    if s == "" then -1
    else if s[|s| - 1] == '\n' then |s| - 1
    else LastNewline(s[..|s| - 1])
  }

  lemma {:induction false} LastNewlineSpec(s: string)
    ensures LastNewline(s) >= 0 ==> s[LastNewline(s)] == '\n'
    ensures forall j :: LastNewline(s) < j < |s| ==> s[j] != '\n'
  {
    if s != "" && s[|s| - 1] != '\n' {
      LastNewlineSpec(s[..|s| - 1]);
    }
  }

  function CutAt(s: string): (n: nat)
    requires |s| > MAX_MESSAGE_LEN
    ensures 0 < n <= MAX_MESSAGE_LEN
  {
    var i := LastNewline(s[..MAX_MESSAGE_LEN]);
    if i <= 0 then MAX_MESSAGE_LEN else i
  }

  /** The cut is at the last newline that leaves a piece that fits and is not empty, or at the limit. */
  lemma CutAtSpec(s: string)
    requires |s| > MAX_MESSAGE_LEN
    ensures var n := CutAt(s);
      && (n < MAX_MESSAGE_LEN ==> s[n] == '\n' && forall j :: n < j < MAX_MESSAGE_LEN ==> s[j] != '\n')
      && (n == MAX_MESSAGE_LEN ==> forall j :: 0 < j < MAX_MESSAGE_LEN ==> s[j] != '\n')
  {
    LastNewlineSpec(s[..MAX_MESSAGE_LEN]);
  }

  /** How many newlines `s` begins with. */
  function LeadingNewlines(s: string): (k: nat)
    ensures k <= |s|
    ensures forall j :: 0 <= j < k ==> s[j] == '\n'
    ensures k < |s| ==> s[k] != '\n'
  {
    if s != "" && s[0] == '\n' then 1 + LeadingNewlines(s[1..]) else 0
  }

  /** `s.lstrip("\n")`. */
  function DropNewlines(s: string): string {
    s[LeadingNewlines(s)..]
  }

  /** What is left after the first cut. */
  function Left(s: string): (r: string)
    requires |s| > MAX_MESSAGE_LEN
    ensures |r| < |s|
  {
    DropNewlines(s[CutAt(s)..])
  }

  function Chunks(s: string): seq<string>
    decreases |s|
  {
    if |s| <= MAX_MESSAGE_LEN then (if s == "" then [] else [s])
    else [s[..CutAt(s)]] + Chunks(Left(s))
  }

  predicate Pending(cut: seq<string>, remaining: string, text: string) {
    cut + Chunks(remaining) == Chunks(text)
  }

  lemma CutOnce(cut: seq<string>, remaining: string, text: string)
    requires Pending(cut, remaining, text) && |remaining| > MAX_MESSAGE_LEN
    ensures Pending(cut + [remaining[..CutAt(remaining)]], Left(remaining), text)
  {
  }

  method SplitText(text: string) returns (chunks: seq<string>)
    ensures chunks == if text == "" then [""] else Chunks(text)
  {
    if text == "" {
      return [""];
    }
    chunks := [];
    var remaining := text;
    while |remaining| > MAX_MESSAGE_LEN
      invariant Pending(chunks, remaining, text)
      decreases |remaining|
    {
      CutOnce(chunks, remaining, text);
      var splitAt := LastNewline(remaining[..MAX_MESSAGE_LEN]);
      if splitAt <= 0 {
        splitAt := MAX_MESSAGE_LEN;
      }
      assert splitAt == CutAt(remaining);
      chunks := chunks + [remaining[..splitAt]];
      remaining := DropNewlines(remaining[splitAt..]);
    }
    if remaining != "" {
      chunks := chunks + [remaining];
    }
  }

  /** What stands between the chunks in the text. */
  function Gaps(s: string): seq<string>
    decreases |s|
  {
    if |s| <= MAX_MESSAGE_LEN then (if s == "" then [] else [""])
    else [s[CutAt(s)..|s| - |Left(s)|]] + Gaps(Left(s))
  }

  function Interleave(chunks: seq<string>, gaps: seq<string>): string
    requires |chunks| == |gaps|
  {
    if chunks == [] then "" else chunks[0] + gaps[0] + Interleave(chunks[1..], gaps[1..])
  }

  predicate Newlines(s: string) {
    forall c :: c in s ==> c == '\n'
  }

  /** Chunks are not empty and fit; a text that fits is one chunk. */
  lemma {:induction false} ChunksFit(text: string)
    ensures forall i :: 0 <= i < |Chunks(text)| ==> 0 < |Chunks(text)[i]| <= MAX_MESSAGE_LEN
    ensures text != "" ==> Chunks(text) != [] && Chunks(text)[0][0] == text[0]
    ensures 0 < |text| <= MAX_MESSAGE_LEN ==> Chunks(text) == [text]
    decreases |text|
  {
    if |text| > MAX_MESSAGE_LEN {
      ChunksFit(Left(text));
    }
  }

  /** A text cut at `n`: a piece, the newlines after it, and the rest. */
  lemma CutTwice(text: string, n: nat)
    requires n <= |text|
    ensures var m := n + LeadingNewlines(text[n..]);
      && DropNewlines(text[n..]) == text[m..] && m == |text| - |DropNewlines(text[n..])|
      && text[..n] + text[n..m] + text[m..] == text && Newlines(text[n..m])
  {
    var m := n + LeadingNewlines(text[n..]);
    assert text[..n] + text[n..m] == text[..m];
    assert text[..m] + text[m..] == text;
  }

  /**
    The text is the chunks with the gaps between them. Gaps are runs of newlines, and whole
    ones: no chunk after a cut begins with a newline.
   */
  lemma {:induction false} ChunksHoldTheText(text: string)
    ensures |Gaps(text)| == |Chunks(text)| && Interleave(Chunks(text), Gaps(text)) == text
    ensures forall i :: 0 <= i < |Gaps(text)| ==> Newlines(Gaps(text)[i])
    ensures forall i :: 0 < i < |Chunks(text)| ==> Chunks(text)[i] != "" && Chunks(text)[i][0] != '\n'
    decreases |text|
  {
    if |text| > MAX_MESSAGE_LEN {
      var left := Left(text);
      ChunksHoldTheText(left);
      ChunksFit(left);
      CutTwice(text, CutAt(text));
      var chunks, gaps := Chunks(text), Gaps(text);
      assert chunks[1..] == Chunks(left) && gaps[1..] == Gaps(left);
      assert forall i :: 0 < i < |chunks| ==> chunks[i] == Chunks(left)[i - 1];
    } else if text != "" {
      assert Interleave([text], [""]) == text + "" + Interleave([], []);
    }
  }

  /** Nothing is lost exactly if no newline stands at a cut. */
  lemma {:induction false} SplittingLosesNothingExactlyIf(text: string)
    ensures Interleave(Chunks(text), seq(|Chunks(text)|, _ => "")) == text
       <==> forall i :: 0 <= i < |Gaps(text)| ==> Gaps(text)[i] == ""
  {
    ChunksHoldTheText(text);
    InterleaveLength(Chunks(text), Gaps(text));
  }

  lemma {:induction false} InterleaveLength(chunks: seq<string>, gaps: seq<string>)
    requires |chunks| == |gaps|
    ensures var bare := seq(|chunks|, _ => "");
      && |Interleave(chunks, bare)| <= |Interleave(chunks, gaps)|
      && (|Interleave(chunks, bare)| == |Interleave(chunks, gaps)| <==> gaps == bare)
  {
    if chunks != [] {
      InterleaveLength(chunks[1..], gaps[1..]);
      var bare: seq<string> := seq(|chunks|, _ => "");
      assert bare[1..] == seq(|chunks[1..]|, _ => "");
      assert gaps == [gaps[0]] + gaps[1..];
      assert bare == [""] + bare[1..];
    }
  }
}
