/**
  Deduplication of redelivered inbound messages: an insertion-ordered map of the keys accepted
  recently, evicted from the front by age and by number.
 */
module InboundDedupe {
  import opened Wrappers
  import opened OrderedDicts

  const TTL_SECONDS: real := 600.0
  const MAX_ENTRIES: nat := 4096

  datatype Key = Key(channel: string, workspace: string, chat: string, message: string)

  type Recent = Dict<Key, real>

  predicate Expired(at: real, now: real) {
    now - at > TTL_SECONDS
  }

  // What the code does

  /** Pops expired entries from the front until a live one is met. */
  function EvictFront(d: Recent, now: real): Recent {
    if d != [] && Expired(d[0].value, now) then EvictFront(d[1..], now) else d
  }

  function Trim(d: Recent): Recent {
    if |d| <= MAX_ENTRIES then d else d[|d| - MAX_ENTRIES..]
  }

  function Pruned(d: Recent, now: real): Recent {
    Trim(EvictFront(d, now))
  }

  predicate IsDuplicate(d: Recent, key: Key, now: real) {
    Has(Pruned(d, now), key)
  }

  function Received(d: Recent, key: Key, now: real): Recent {
    if IsDuplicate(d, key, now) then Pruned(d, now) else Pruned(d, now) + [Item(key, now)]
  }

  class Deduper {
    var recent: Recent

    constructor ()
      ensures recent == []
    {
      recent := [];
    }

    /** `_is_duplicate_inbound`; a message without a key is never a duplicate. */
    method CheckDuplicate(key: Option<Key>, now: real) returns (duplicate: bool)
      requires Unique(recent)
      modifies this
      ensures Unique(recent)
      ensures key.None? ==> !duplicate && recent == old(recent)
      ensures key.Some? ==>
        duplicate == IsDuplicate(old(recent), key.value, now) && recent == Received(old(recent), key.value, now)
    {
      if key.None? {
        return false;
      }
      while recent != []
        invariant EvictFront(recent, now) == EvictFront(old(recent), now)
        invariant |recent| <= |old(recent)| && recent == old(recent)[|old(recent)| - |recent|..]
        decreases |recent|
      {
        if !Expired(recent[0].value, now) {
          break;
        }
        recent := recent[1..];
      }
      ghost var live := recent;
      while |recent| > MAX_ENTRIES
        invariant |recent| <= |live| && recent == live[|live| - |recent|..]
        invariant |recent| >= MAX_ENTRIES || recent == live
      {
        recent := recent[1..];
      }
      assert live == EvictFront(old(recent), now) && recent == Trim(live);
      ghost var n := PrunedIsSuffix(old(recent), now);
      SuffixSpec(old(recent), n);
      if Get(recent, key.value).Some? {
        return true;
      }
      PutSpec(recent, key.value, now);
      recent := Put(recent, key.value, now);
      return false;
    }

    /** `_release_inbound_dedupe_key`. */
    method Release(key: Option<Key>)
      requires Unique(recent)
      modifies this
      ensures Unique(recent)
      ensures recent == if key.Some? then Drop(old(recent), key.value) else old(recent)
    {
      if key.Some? {
        DropSpec(recent, key.value);
        recent := Drop(recent, key.value);
      }
    }
  }

  // The front is enough

  /** What a full scan would keep. */
  function Scan(d: Recent, now: real): Recent {
    if d == [] then []
    else if Expired(d[0].value, now) then Scan(d[1..], now)
    else [d[0]] + Scan(d[1..], now)
  }

  ghost predicate Chronological(d: Recent, clock: real) {
    && (forall i :: 0 <= i < |d| ==> d[i].value <= clock)
    && (forall i, j :: 0 <= i < j < |d| ==> d[i].value <= d[j].value)
  }

  ghost predicate Good(d: Recent, clock: real) {
    Unique(d) && Chronological(d, clock) && |d| <= MAX_ENTRIES + 1
  }

  lemma {:induction false} NothingExpired(d: Recent, now: real)
    requires forall i :: 0 <= i < |d| ==> !Expired(d[i].value, now)
    ensures Scan(d, now) == d
  {
    if d != [] {
      NothingExpired(d[1..], now);
    }
  }

  /** In chronological order, popping from the front removes exactly what a full scan would. */
  lemma {:induction false} EvictingIsScanning(d: Recent, now: real)
    requires Chronological(d, now)
    ensures EvictFront(d, now) == Scan(d, now)
  {
    if d != [] {
      if Expired(d[0].value, now) {
        EvictingIsScanning(d[1..], now);
      } else {
        NothingExpired(d, now);
      }
    }
  }

  lemma {:induction false} EvictedIsSuffix(d: Recent, now: real) returns (n: nat)
    ensures n <= |d| && EvictFront(d, now) == d[n..]
    ensures forall i :: 0 <= i < n ==> Expired(d[i].value, now)
    ensures n < |d| ==> !Expired(d[n].value, now)
  {
    n := 0;
    if d != [] && Expired(d[0].value, now) {
      var m := EvictedIsSuffix(d[1..], now);
      n := m + 1;
      assert d[1..][m..] == d[n..];
      assert forall i :: 0 < i < |d| ==> d[i] == d[1..][i - 1];
    }
  }

  /** Pruning keeps the newest entries; one is lost only if it is expired or too many are newer. */
  lemma PrunedIsSuffix(d: Recent, now: real) returns (n: nat)
    ensures n <= |d| && Pruned(d, now) == d[n..] && |d| - n <= MAX_ENTRIES
    ensures forall i :: 0 <= i < n ==> Expired(d[i].value, now) || |d| - i > MAX_ENTRIES
    ensures n < |d| && Chronological(d, now) ==> !Expired(d[n].value, now)
  {
    var m := EvictedIsSuffix(d, now);
    n := if |d| - m <= MAX_ENTRIES then m else |d| - MAX_ENTRIES;
    assert Trim(d[m..]) == d[n..];
  }

  lemma SuffixIsChronological(d: Recent, n: nat, clock: real)
    requires Chronological(d, clock) && n <= |d|
    ensures Chronological(d[n..], clock)
  {
  }

  /** Every message handled keeps the keys unique, in chronological order and within the bound. */
  lemma ReceivedIsGood(d: Recent, clock: real, key: Key, now: real)
    requires Good(d, clock) && clock <= now
    ensures Good(Received(d, key, now), now)
  {
    var n := PrunedIsSuffix(d, now);
    SuffixSpec(d, n);
    SuffixIsChronological(d, n, clock);
    var p := Pruned(d, now);
    var r := Received(d, key, now);
    if !IsDuplicate(d, key, now) {
      AppendIsUnique(p, Item(key, now));
      assert forall i :: 0 <= i < |p| ==> r[i] == p[i];
      assert Chronological(r, now);
    }
  }

  lemma AppendIsUnique(d: Recent, x: Item<Key, real>)
    requires Unique(d) && !Has(d, x.key)
    ensures Unique(d + [x])
  {
  }

  lemma {:induction false} DroppedIsGood(d: Recent, clock: real, key: Key)
    requires Good(d, clock)
    ensures Good(Drop(d, key), clock)
    decreases |d|
  {
    DropSpec(d, key);
    if d != [] && d[0].key != key {
      assert forall i :: 0 <= i < |d[1..]| ==> d[1..][i] == d[i + 1];
      DroppedIsGood(d[1..], clock, key);
      var p := Drop(d, key);
      assert p[1..] == Drop(d[1..], key);
      forall j | 0 < j < |p| ensures p[0].value <= p[j].value {
        assert p[j] == p[1..][j - 1];
        DroppedIsOld(d[1..], key, j - 1);
      }
      assert forall i, j :: 0 < i < j < |p| ==> p[i] == p[1..][i - 1] && p[j] == p[1..][j - 1];
      assert forall i :: 0 < i < |p| ==> p[i] == p[1..][i - 1];
    }
  }

  lemma {:induction false} DroppedIsOld(d: Recent, key: Key, j: nat)
    requires j < |Drop(d, key)|
    ensures exists i :: 0 <= i < |d| && d[i] == Drop(d, key)[j]
  {
    if d[0].key == key {
      assert d[j + 1] == Drop(d, key)[j];
    } else if j == 0 {
      assert d[0] == Drop(d, key)[j];
    } else {
      DroppedIsOld(d[1..], key, j - 1);
      var i :| 0 <= i < |d[1..]| && d[1..][i] == Drop(d[1..], key)[j - 1];
      assert d[i + 1] == Drop(d, key)[j];
    }
  }

  // What a run remembers

  datatype Event = Receive(key: Key, now: real) | Release(key: Key)

  function After(d: Recent, e: Event): Recent {
    match e
    case Receive(key, now) => Received(d, key, now)
    case Release(key) => Drop(d, key)
  }

  predicate Accepts(d: Recent, e: Event) {
    e.Receive? && !IsDuplicate(d, e.key, e.now)
  }

  function RunFrom(d: Recent, events: seq<Event>): Recent
    decreases |events|
  {
    if events == [] then d else RunFrom(After(d, events[0]), events[1..])
  }

  /** How many messages the run accepts. */
  function Acceptances(d: Recent, events: seq<Event>): nat
    decreases |events|
  {
    if events == [] then 0
    else (if Accepts(d, events[0]) then 1 else 0) + Acceptances(After(d, events[0]), events[1..])
  }

  /** The run neither accepts nor releases `key`. */
  predicate LeavesAlone(d: Recent, events: seq<Event>, key: Key)
    decreases |events|
  {
    events == [] ||
    ((events[0].key == key ==> events[0].Receive? && !Accepts(d, events[0])) &&
     LeavesAlone(After(d, events[0]), events[1..], key))
  }

  /** The clock readings never decrease. */
  predicate Ticking(events: seq<Event>, clock: real) {
    events == [] ||
    (if events[0].Receive? then clock <= events[0].now && Ticking(events[1..], events[0].now)
     else Ticking(events[1..], clock))
  }

  function LastTick(events: seq<Event>, clock: real): real {
    if events == [] then clock
    else LastTick(events[1..], if events[0].Receive? then events[0].now else clock)
  }

  lemma {:induction false} RunIsGood(d: Recent, clock: real, events: seq<Event>)
    requires Good(d, clock) && Ticking(events, clock)
    ensures Good(RunFrom(d, events), LastTick(events, clock)) && clock <= LastTick(events, clock)
    decreases |events|
  {
    if events != [] {
      match events[0]
      case Receive(key, now) =>
        ReceivedIsGood(d, clock, key, now);
        RunIsGood(Received(d, key, now), now, events[1..]);
      case Release(key) =>
        DroppedIsGood(d, clock, key);
        RunIsGood(Drop(d, key), clock, events[1..]);
    }
  }

  /** The entries newer than `key`'s own. */
  function Later(d: Recent, key: Key): Recent {
    if d == [] then [] else if d[0].key == key then d[1..] else Later(d[1..], key)
  }

  lemma {:induction false} LaterAt(d: Recent, i: nat)
    requires Unique(d) && i < |d|
    ensures Later(d, d[i].key) == d[i + 1..]
  {
    if i > 0 {
      HeadAbsent(d);
      assert d[0].key != d[i].key && d[1..][i - 1] == d[i];
      LaterAt(d[1..], i - 1);
      assert d[1..][i..] == d[i + 1..];
    }
  }

  lemma IndexOfKey(d: Recent, key: Key, at: real) returns (i: nat)
    requires Unique(d) && Get(d, key) == Some(at)
    ensures i < |d| && d[i] == Item(key, at) && Later(d, key) == d[i + 1..]
  {
    i :| 0 <= i < |d| && d[i] == Item(key, at);
    LaterAt(d, i);
  }

  lemma SuffixAt(d: Recent, n: nat, i: nat)
    requires Unique(d) && n <= i < |d|
    ensures Unique(d[n..]) && Get(d[n..], d[i].key) == Some(d[i].value) && Later(d[n..], d[i].key) == d[i + 1..]
  {
    var rest, j := d[n..], i - n;
    assert rest[j] == d[i] && rest[j + 1..] == d[i + 1..];
    assert Unique(rest) by {
      SuffixSpec(d, n);
    }
    GetAt(rest, j);
    LaterAt(rest, j);
  }

  /** Pruning keeps a key exactly if it has not expired and fewer newer entries are there than the map may hold. */
  lemma KeptExactlyIf(d: Recent, clock: real, now: real, key: Key, at: real)
    requires Good(d, clock) && clock <= now && Get(d, key) == Some(at)
    ensures var p := Pruned(d, now);
      && (Has(p, key) <==> !Expired(at, now) && |Later(d, key)| < MAX_ENTRIES)
      && (Has(p, key) ==> Get(p, key) == Some(at) && Later(p, key) == Later(d, key))
  {
    var n := PrunedIsSuffix(d, now);
    var i := IndexOfKey(d, key, at);
    if n <= i {
      SuffixAt(d, n, i);
    } else {
      forall j | 0 <= j < |d[n..]| ensures d[n..][j].key != key {
        assert d[n..][j] == d[n + j];
      }
    }
  }

  lemma {:induction false} LaterAppended(d: Recent, x: Item<Key, real>, key: Key)
    requires Has(d, key)
    ensures Later(d + [x], key) == Later(d, key) + [x]
  {
    HasTail(d, key);
    assert (d + [x])[1..] == d[1..] + [x] && (d + [x])[0] == d[0];
    if d[0].key != key {
      LaterAppended(d[1..], x, key);
    }
  }

  /** Of the newer entries just those that are released go away. */
  lemma {:induction false} LaterDropped(d: Recent, other: Key, key: Key)
    requires Unique(d) && other != key && Has(d, key)
    ensures Later(Drop(d, other), key) == Drop(Later(d, key), other)
  {
    HasTail(d, key);
    HeadAbsent(d);
    if d[0].key == other {
      DropSize(Later(d[1..], key), other);
      AbsentLater(d[1..], other, key);
    } else if d[0].key != key {
      assert Drop(d, other)[0] == d[0] && Drop(d, other)[1..] == Drop(d[1..], other);
      LaterDropped(d[1..], other, key);
    }
  }

  lemma {:induction false} AbsentLater(d: Recent, other: Key, key: Key)
    requires !Has(d, other)
    ensures !Has(Later(d, key), other)
  {
    if d != [] {
      HasTail(d, other);
      if d[0].key != key {
        AbsentLater(d[1..], other, key);
      }
    }
  }

  /** A message that comes while the map is full of entries newer than `key`'s. */
  predicate Overflows(d: Recent, events: seq<Event>, key: Key)
    decreases |events|
  {
    events != [] &&
    ((events[0].Receive? && Has(d, key) && |Later(d, key)| >= MAX_ENTRIES) || Overflows(After(d, events[0]), events[1..], key))
  }

  /** What is not there is not remembered until it is accepted. */
  lemma {:induction false} StaysForgotten(d: Recent, clock: real, events: seq<Event>, key: Key)
    requires Good(d, clock) && Ticking(events, clock) && LeavesAlone(d, events, key) && !Has(d, key)
    ensures !Has(RunFrom(d, events), key)
    decreases |events|
  {
    if events != [] {
      var e := events[0];
      match e {
        case Receive(k, now) =>
          ReceivedIsGood(d, clock, k, now);
          var n := PrunedIsSuffix(d, now);
          assert forall i :: 0 <= i < |Pruned(d, now)| ==> Pruned(d, now)[i] == d[n + i];
          assert !Has(After(d, e), key);
          StaysForgotten(After(d, e), now, events[1..], key);
        case Release(k) =>
          DroppedIsGood(d, clock, k);
          DropSpec(d, k);
          assert Get(Drop(d, k), key).None?;
          StaysForgotten(After(d, e), clock, events[1..], key);
      }
    }
  }

  lemma AnotherReceived(d: Recent, clock: real, e: Event, key: Key, at: real)
    requires Good(d, clock) && e.Receive? && clock <= e.now && Get(d, key) == Some(at)
    requires e.key == key ==> !Accepts(d, e)
    ensures Has(After(d, e), key) <==> !Expired(at, e.now) && |Later(d, key)| < MAX_ENTRIES
    ensures Has(After(d, e), key) ==>
      && Get(After(d, e), key) == Some(at)
      && Later(After(d, e), key) == Later(d, key) + (if Accepts(d, e) then [Item(e.key, e.now)] else [])
  {
    KeptExactlyIf(d, clock, e.now, key, at);
    var p := Pruned(d, e.now);
    if Accepts(d, e) {
      var x := Item(e.key, e.now);
      PutPlaces(p, e.key, e.now);
      PutGet(p, e.key, e.now, key);
      assert p + [x] == Put(p, e.key, e.now);
      if Has(p, key) {
        LaterAppended(p, x, key);
      }
    } else {
      assert Later(p, key) + [] == Later(p, key);
    }
  }

  lemma {:induction false} RunKeepsExactly(d: Recent, clock: real, events: seq<Event>, key: Key, at: real)
    requires Good(d, clock) && Ticking(events, clock) && LeavesAlone(d, events, key) && Get(d, key) == Some(at)
    ensures var r := RunFrom(d, events);
      if Has(r, key) then Get(r, key) == Some(at) && !Overflows(d, events, key)
      else Expired(at, LastTick(events, clock)) || Overflows(d, events, key)
    decreases |events|
  {
    if events != [] {
      var e, after := events[0], After(d, events[0]);
      if e.Receive? {
        ReceivedIsGood(d, clock, e.key, e.now);
        AnotherReceived(d, clock, e, key, at);
        RunIsGood(after, e.now, events[1..]);
        if Has(after, key) {
          RunKeepsExactly(after, e.now, events[1..], key, at);
        } else {
          StaysForgotten(after, e.now, events[1..], key);
        }
      } else {
        DroppedIsGood(d, clock, e.key);
        DropSpec(d, e.key);
        RunKeepsExactly(after, clock, events[1..], key, at);
      }
    }
  }

  lemma {:induction false} OverflowsAppended(d: Recent, events: seq<Event>, e: Event, key: Key)
    requires e.Receive?
    ensures Overflows(d, events + [e], key) <==>
      Overflows(d, events, key) || (Has(RunFrom(d, events), key) && |Later(RunFrom(d, events), key)| >= MAX_ENTRIES)
    decreases |events|
  {
    if events == [] {
      assert [] + [e] == [e] && [e][1..] == [];
      assert !Overflows(After(d, e), [], key);
    } else {
      assert (events + [e])[1..] == events[1..] + [e];
      OverflowsAppended(After(d, events[0]), events[1..], e, key);
    }
  }

  lemma AbsentFromPruned(d: Recent, clock: real, now: real, key: Key)
    requires Good(d, clock) && clock <= now && !Has(d, key)
    ensures !Has(Pruned(d, now), key)
  {
    var n := PrunedIsSuffix(d, now);
    assert forall i :: 0 <= i < |Pruned(d, now)| ==> Pruned(d, now)[i] == d[n + i];
  }

  /** From any good map that remembers the key. */
  lemma RedeliveryFrom(d: Recent, at: real, between: seq<Event>, key: Key, now: real)
    requires Good(d, at) && Get(d, key) == Some(at)
    requires Ticking(between, at) && LastTick(between, at) <= now && LeavesAlone(d, between, key)
    ensures Accepts(RunFrom(d, between), Receive(key, now)) <==>
      now - at > TTL_SECONDS || Overflows(d, between + [Receive(key, now)], key)
  {
    RunIsGood(d, at, between);
    RunKeepsExactly(d, at, between, key, at);
    var r := RunFrom(d, between);
    OverflowsAppended(d, between, Receive(key, now), key);
    if Has(r, key) {
      KeptExactlyIf(r, LastTick(between, at), now, key, at);
    } else {
      AbsentFromPruned(r, LastTick(between, at), now, key);
    }
  }

  /** What a run remembers of a message it has just accepted. */
  lemma AcceptedIsLast(before: seq<Event>, start: real, key: Key, at: real)
    requires Ticking(before, start) && LastTick(before, start) <= at
    requires Accepts(RunFrom([], before), Receive(key, at))
    ensures var d := Received(RunFrom([], before), key, at);
      Good(d, at) && Get(d, key) == Some(at) && Later(d, key) == []
  {
    RunIsGood([], start, before);
    ReceivedIsGood(RunFrom([], before), LastTick(before, start), key, at);
    var d := Received(RunFrom([], before), key, at);
    assert d[|d| - 1] == Item(key, at);
    GetAt(d, |d| - 1);
    LaterAt(d, |d| - 1);
  }

  /**
    In any run from an empty map with a clock that never goes back: after a key is accepted at
    `at`, and while it is neither accepted again nor released, a redelivery is accepted if and
    only if more than the TTL has passed or a message, the redelivery included, has come while
    the map was full of newer entries.
   */
  lemma AcceptedAgainExactlyIf(before: seq<Event>, start: real, key: Key, at: real, between: seq<Event>, now: real)
    requires Ticking(before, start) && LastTick(before, start) <= at
    requires Accepts(RunFrom([], before), Receive(key, at))
    requires var d := Received(RunFrom([], before), key, at);
      Ticking(between, at) && LastTick(between, at) <= now && LeavesAlone(d, between, key)
    ensures var d := Received(RunFrom([], before), key, at);
      Accepts(RunFrom(d, between), Receive(key, now)) <==>
      now - at > TTL_SECONDS || Overflows(d, between + [Receive(key, now)], key)
  {
    AcceptedIsLast(before, start, key, at);
    RedeliveryFrom(Received(RunFrom([], before), key, at), at, between, key, now);
  }

  /** Fewer acceptances than the map holds do not overflow it. */
  lemma {:induction false} FewDoNotOverflow(d: Recent, clock: real, events: seq<Event>, key: Key, at: real)
    requires Good(d, clock) && Ticking(events, clock) && LeavesAlone(d, events, key) && Get(d, key) == Some(at)
    requires |Later(d, key)| + Acceptances(d, events) < MAX_ENTRIES
    ensures !Overflows(d, events, key)
    ensures Has(RunFrom(d, events), key) ==> |Later(RunFrom(d, events), key)| < MAX_ENTRIES
    decreases |events|
  {
    if events != [] {
      var e, after := events[0], After(d, events[0]);
      if e.Receive? {
        ReceivedIsGood(d, clock, e.key, e.now);
        AnotherReceived(d, clock, e, key, at);
        if Has(after, key) {
          FewDoNotOverflow(after, e.now, events[1..], key, at);
        } else {
          StaysForgotten(after, e.now, events[1..], key);
          ForgottenDoesNotOverflow(after, e.now, events[1..], key);
        }
      } else {
        DroppedIsGood(d, clock, e.key);
        DropSpec(d, e.key);
        LaterDropped(d, e.key, key);
        DropSize(Later(d, key), e.key);
        FewDoNotOverflow(after, clock, events[1..], key, at);
      }
    }
  }

  lemma {:induction false} ForgottenDoesNotOverflow(d: Recent, clock: real, events: seq<Event>, key: Key)
    requires Good(d, clock) && Ticking(events, clock) && LeavesAlone(d, events, key) && !Has(d, key)
    ensures !Overflows(d, events, key)
    decreases |events|
  {
    if events != [] {
      var e := events[0];
      LeavesAloneFirst(d, events, key);
      StaysForgotten(d, clock, [e], key);
      assert RunFrom(d, [e]) == RunFrom(After(d, e), []) == After(d, e);
      if e.Receive? {
        ReceivedIsGood(d, clock, e.key, e.now);
        ForgottenDoesNotOverflow(After(d, e), e.now, events[1..], key);
      } else {
        DroppedIsGood(d, clock, e.key);
        ForgottenDoesNotOverflow(After(d, e), clock, events[1..], key);
      }
    }
  }

  lemma LeavesAloneFirst(d: Recent, events: seq<Event>, key: Key)
    requires events != [] && LeavesAlone(d, events, key)
    ensures LeavesAlone(d, [events[0]], key)
  {
    assert LeavesAlone(After(d, events[0]), [], key);
  }

  /** In particular, while fewer other messages are accepted than the map holds, the TTL alone decides. */
  lemma AcceptedAgainExactlyAfterTtl(before: seq<Event>, start: real, key: Key, at: real, between: seq<Event>, now: real)
    requires Ticking(before, start) && LastTick(before, start) <= at
    requires Accepts(RunFrom([], before), Receive(key, at))
    requires var d := Received(RunFrom([], before), key, at);
      Ticking(between, at) && LastTick(between, at) <= now &&
      LeavesAlone(d, between, key) && Acceptances(d, between) < MAX_ENTRIES
    ensures Accepts(RunFrom(Received(RunFrom([], before), key, at), between), Receive(key, now)) <==>
            now - at > TTL_SECONDS
  {
    AcceptedAgainExactlyIf(before, start, key, at, between, now);
    AcceptedIsLast(before, start, key, at);
    var d := Received(RunFrom([], before), key, at);
    FewDoNotOverflow(d, at, between, key, at);
    OverflowsAppended(d, between, Receive(key, now), key);
  }
}
