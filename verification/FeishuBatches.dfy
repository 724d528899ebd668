/**
  Feishu's batching of file messages. Arrivals append to a pending batch, expire it or open a
  new one under a lock; a timer per opened batch flushes it later. The steps below are the
  locked sections and the hand-overs between the Lark thread and the event loop, in any order.
 */
module FeishuBatches {
  import opened Wrappers
  import opened Text

  datatype File = Image(key: string) | Document(key: string) | Unkeyed

  /** The placeholder the text holds for a file. */
  function Placeholder(f: File): string {
    match f
    case Image(_) => "[image]"
    case Document(_) => "[file]"
    case Unkeyed => ""
  }

  datatype Message = Message(id: string, text: string, files: seq<File>)

  /** The file messages that are batched: one file, and its placeholder as the whole text. */
  predicate Batchable(m: Message) {
    |m.files| == 1 && !m.files[0].Unkeyed? && m.text == Placeholder(m.files[0])
  }

  datatype Sender = Sender(chat: string, user: string)

  /** The serial numbers batches in the order they were opened; the code itself has no such field. */
  datatype Batch = Batch(
    serial: nat,
    anchor: string,
    createdAt: real,
    messageIds: seq<string>,
    textParts: seq<string>,
    text: string,
    files: seq<File>,
    batchedIds: seq<string>)

  const WINDOW_SECONDS: real := 0.75

  function NonEmpty(parts: seq<string>): seq<string> {
    if parts == [] then []
    else (if parts[0] == "" then [] else [parts[0]]) + NonEmpty(parts[1..])
  }

  function Opened(serial: nat, m: Message, now: real): Batch {
    Batch(serial, m.id, now, [m.id], [m.text], m.text, m.files, [m.id])
  }

  function Extended(b: Batch, m: Message): Batch {
    var ids := b.messageIds + [m.id];
    var parts := b.textParts + [m.text];
    b.(messageIds := ids,
       textParts := parts,
       text := Join("\n\n", NonEmpty(parts)),
       files := b.files + m.files,
       batchedIds := ids)
  }

  /** The pending batches after an arrival, and the batch that expired, if any. */
  function Queued(pending: map<Sender, Batch>, serial: nat, key: Sender, m: Message, now: real)
    : (map<Sender, Batch>, bool, Option<Batch>)
  {
    if key in pending && now - pending[key].createdAt <= WINDOW_SECONDS then
      (pending[key := Extended(pending[key], m)], false, None)
    else
      (pending[key := Opened(serial, m, now)], true, if key in pending then Some(pending[key]) else None)
  }

  function Popped(pending: map<Sender, Batch>, key: Sender, anchor: Option<string>)
    : (map<Sender, Batch>, Option<Batch>)
  {
    if key !in pending || (anchor.Some? && pending[key].anchor != anchor.value) then (pending, None)
    else (pending - {key}, Some(pending[key]))
  }

  /** The two sections that run under the channel's thread lock. */
  class PendingBatches {
    var pending: map<Sender, Batch>
    var nextSerial: nat

    constructor ()
      ensures pending == map[] && nextSerial == 0
    {
      pending, nextSerial := map[], 0;
    }

    method Queue(key: Sender, m: Message, now: real) returns (schedule: bool, expired: Option<Batch>)
      modifies this
      ensures (pending, schedule, expired) == Queued(old(pending), old(nextSerial), key, m, now)
      ensures nextSerial == if schedule then old(nextSerial) + 1 else old(nextSerial)
    {
      schedule, expired := false, None;
      if key in pending {
        var batch := pending[key];
        if now - batch.createdAt <= WINDOW_SECONDS {
          batch := batch.(messageIds := batch.messageIds + [m.id]);
          batch := batch.(textParts := batch.textParts + [m.text]);
          batch := batch.(text := Join("\n\n", NonEmpty(batch.textParts)));
          batch := batch.(files := batch.files + m.files);
          batch := batch.(batchedIds := batch.messageIds);
          pending := pending[key := batch];
          return;
        }
        expired := Some(batch);
      }
      pending := pending[key := Batch(nextSerial, m.id, now, [m.id], [m.text], m.text, m.files, [m.id])];
      nextSerial := nextSerial + 1;
      schedule := true;
    }

    method Pop(key: Sender, anchor: Option<string>) returns (batch: Option<Batch>)
      modifies this`pending
      ensures (pending, batch) == Popped(old(pending), key, anchor)
    {
      batch := None;
      if key !in pending {
        return;
      }
      if anchor.Some? && pending[key].anchor != anchor.value {
        return;
      }
      batch := Some(pending[key]);
      pending := pending - {key};
    }
  }

  // The protocol

  /** A timer knows the sender and the anchor; the serial only tells whose timer it is. */
  datatype Timer = Timer(serial: nat, key: Sender, anchor: string)

  datatype Arrival = Arrival(message: Message, at: real)

  /** What one batch has gathered and what it last looked like, kept for the statements only. */
  datatype Record = Record(key: Sender, members: seq<Arrival>, batch: Batch)

  /** A batch outside the pending map: of an expired one the dispatch is still to be scheduled. */
  datatype Held = Held(batch: Batch, scheduled: bool)

  /** Where a batch is. */
  datatype Place =
    | Pending
    | InHand(id: nat)         // popped by a timer, or expired and in the hands of a queue call
    | Sent
    | Dropped                 // its dispatch could not be scheduled: the event loop was down
    | Failed                  // its dispatch raised before it was published

  predicate Gone(p: Place) {
    p.Dropped? || p.Failed?
  }

  datatype State = State(
    pending: map<Sender, Batch>,
    flushes: map<nat, Timer>,   // timers that queue calls past the locked section still have to schedule
    timers: map<nat, Timer>,
    hands: map<nat, Held>,
    sent: seq<Batch>,
    nextId: nat,
    // histories
    arrived: seq<(Sender, Arrival)>,
    log: seq<Record>,
    place: seq<Place>,
    untimed: set<nat>)          // batches whose timer could not be scheduled

  datatype Action =
    | Arrive(key: Sender, message: Message, now: real)
    | ScheduleFlush(call: nat, loopUp: bool)
    | SchedulePrepare(hand: nat, loopUp: bool)
    | Fire(timer: nat)
    | Dispatch(hand: nat)
    | Fail(hand: nat)             // looking up the connection identity raises, or is cancelled

  function Init(): State {
    State(map[], map[], map[], map[], [], 0, [], [], [], {})
  }

  predicate Enabled(s: State, a: Action) {
    match a
    case Arrive(_, m, _) => Batchable(m)
    case ScheduleFlush(c, _) => c in s.flushes
    case SchedulePrepare(h, _) => h in s.hands && !s.hands[h].scheduled
    case Fire(t) => t in s.timers
    case Dispatch(h) => h in s.hands && s.hands[h].scheduled
    case Fail(h) => h in s.hands && s.hands[h].scheduled
  }

  function Move(place: seq<Place>, serial: nat, p: Place): seq<Place> {
    if serial < |place| then place[serial := p] else place
  }

  function Extend(log: seq<Record>, serial: nat, x: Arrival): seq<Record> {
    if serial < |log| then
      var r := log[serial];
      log[serial := Record(r.key, r.members + [x], Extended(r.batch, x.message))]
    else log
  }

  /** `b` passes into somebody's hands. */
  function TakeInHand(s: State, b: Batch, scheduled: bool): State {
    s.(hands := s.hands[s.nextId := Held(b, scheduled)],
       place := Move(s.place, b.serial, InHand(s.nextId)),
       nextId := s.nextId + 1)
  }

  /** The pending batch of the sender still takes messages. */
  predicate Joins(s: State, key: Sender, now: real) {
    key in s.pending && now - s.pending[key].createdAt <= WINDOW_SECONDS
  }

  function Append(s: State, key: Sender, x: Arrival): State
    requires key in s.pending
  {
    s.(pending := s.pending[key := Extended(s.pending[key], x.message)],
       arrived := s.arrived + [(key, x)],
       log := Extend(s.log, s.pending[key].serial, x))
  }

  function OpenNew(s: State, key: Sender, x: Arrival): State {
    s.(pending := s.pending[key := Opened(|s.log|, x.message, x.at)],
       flushes := s.flushes[s.nextId := Timer(|s.log|, key, x.message.id)],
       arrived := s.arrived + [(key, x)],
       log := s.log + [Record(key, [x], Opened(|s.log|, x.message, x.at))],
       place := s.place + [Pending],
       nextId := s.nextId + 1)
  }

  /** The sender's batch leaves the pending map. */
  function Take(s: State, key: Sender, scheduled: bool): State
    requires key in s.pending
  {
    TakeInHand(s.(pending := s.pending - {key}), s.pending[key], scheduled)
  }

  function Reopen(s: State, key: Sender, x: Arrival): State {
    if key !in s.pending then OpenNew(s, key, x) else OpenNew(Take(s, key, false), key, x)
  }

  function OnArrive(s: State, key: Sender, x: Arrival): State {
    if Joins(s, key, x.at) then Append(s, key, x) else Reopen(s, key, x)
  }

  function OnScheduleFlush(s: State, c: nat, loopUp: bool): State
    requires c in s.flushes
  {
    var s1 := s.(flushes := s.flushes - {c});
    if loopUp then s1.(timers := s.timers[s.nextId := s.flushes[c]], nextId := s.nextId + 1)
    else s1.(untimed := s.untimed + {s.flushes[c].serial})
  }

  /** Nobody holds the batch any more. */
  function Discard(s: State, h: nat, p: Place): State
    requires h in s.hands
  {
    s.(hands := s.hands - {h}, place := Move(s.place, s.hands[h].batch.serial, p))
  }

  function OnSchedulePrepare(s: State, h: nat, loopUp: bool): State
    requires h in s.hands
  {
    if loopUp then s.(hands := s.hands[h := Held(s.hands[h].batch, true)])
    else Discard(s, h, Dropped)
  }

  /** The sender and the anchor of a timer still name a pending batch. */
  predicate Pops(s: State, t: Timer) {
    t.key in s.pending && s.pending[t.key].anchor == t.anchor
  }

  function OnFire(s: State, t: nat): State
    requires t in s.timers
  {
    var s1 := s.(timers := s.timers - {t});
    if Pops(s, s.timers[t]) then Take(s1, s.timers[t].key, true) else s1
  }

  function OnDispatch(s: State, h: nat): State
    requires h in s.hands
  {
    var b := s.hands[h].batch;
    s.(hands := s.hands - {h}, sent := s.sent + [b], place := Move(s.place, b.serial, Sent))
  }

  function Step(s: State, a: Action): State
    requires Enabled(s, a)
  {
    match a
    case Arrive(key, m, now) => OnArrive(s, key, Arrival(m, now))
    case ScheduleFlush(c, loopUp) => OnScheduleFlush(s, c, loopUp)
    case SchedulePrepare(h, loopUp) => OnSchedulePrepare(s, h, loopUp)
    case Fire(t) => OnFire(s, t)
    case Dispatch(h) => OnDispatch(s, h)
    case Fail(h) => Discard(s, h, Failed)
  }

  /** The protocol's steps change the pending map exactly as the two locked sections do. */
  lemma StepsAreLockedSections(s: State, key: Sender, x: Arrival, t: nat)
    ensures OnArrive(s, key, x).pending == Queued(s.pending, |s.log|, key, x.message, x.at).0
    ensures t in s.timers ==>
      OnFire(s, t).pending == Popped(s.pending, s.timers[t].key, Some(s.timers[t].anchor)).0
  {
    assert (s.pending - {key})[key := Opened(|s.log|, x.message, x.at)]
        == s.pending[key := Opened(|s.log|, x.message, x.at)];
  }

  function Exec(s: State, acts: seq<Action>): Option<State>
    decreases |acts|
  {
    if acts == [] then Some(s)
    else if Enabled(s, acts[0]) then Exec(Step(s, acts[0]), acts[1..])
    else None
  }

  // A batch is the in-order aggregate of what it gathered

  function Ids(xs: seq<Arrival>): seq<string> {
    seq(|xs|, i requires 0 <= i < |xs| => xs[i].message.id)
  }

  function Texts(xs: seq<Arrival>): seq<string> {
    seq(|xs|, i requires 0 <= i < |xs| => xs[i].message.text)
  }

  function Files(xs: seq<Arrival>): seq<File> {
    if xs == [] then [] else Files(xs[..|xs| - 1]) + xs[|xs| - 1].message.files
  }

  /** The batch that the members make, told from the members alone. */
  function Aggregate(serial: nat, xs: seq<Arrival>): Batch
    requires xs != []
  {
    Batch(serial, xs[0].message.id, xs[0].at, Ids(xs), Texts(xs), Join("\n\n", Texts(xs)), Files(xs), Ids(xs))
  }

  /** The `n`-th record: every member is close enough to the first, and the batch is their aggregate. */
  ghost predicate GoodRecord(n: nat, r: Record) {
    && r.members != []
    && (forall i :: 0 <= i < |r.members| ==> Batchable(r.members[i].message))
    && (forall i :: 0 <= i < |r.members| ==> r.members[i].at - r.members[0].at <= WINDOW_SECONDS)
    && r.batch == Aggregate(n, r.members)
  }

  ghost predicate GoodLog(log: seq<Record>) {
    forall n :: 0 <= n < |log| ==> GoodRecord(n, log[n])
  }

  lemma {:induction false} NonEmptyKeeps(parts: seq<string>)
    requires forall i :: 0 <= i < |parts| ==> parts[i] != ""
    ensures NonEmpty(parts) == parts
  {
    if parts != [] {
      NonEmptyKeeps(parts[1..]);
    }
  }

  lemma OneMoreMember(xs: seq<Arrival>, x: Arrival)
    ensures Ids(xs + [x]) == Ids(xs) + [x.message.id]
    ensures Texts(xs + [x]) == Texts(xs) + [x.message.text]
    ensures Files(xs + [x]) == Files(xs) + x.message.files
  {
    assert (xs + [x])[..|xs|] == xs;
  }

  /** Extending the aggregate of some members gives the aggregate of one more. */
  lemma ExtendedIsAggregate(n: nat, r: Record, x: Arrival)
    requires GoodRecord(n, r) && Batchable(x.message) && x.at - r.batch.createdAt <= WINDOW_SECONDS
    ensures GoodRecord(n, Record(r.key, r.members + [x], Extended(r.batch, x.message)))
  {
    OneMoreMember(r.members, x);
    var texts := Texts(r.members + [x]);
    forall i | 0 <= i < |texts| ensures texts[i] != "" {
      assert Batchable((r.members + [x])[i].message);
    }
    NonEmptyKeeps(texts);
  }

  lemma OpenedIsAggregate(n: nat, key: Sender, x: Arrival)
    requires Batchable(x.message)
    ensures GoodRecord(n, Record(key, [x], Opened(n, x.message, x.at)))
  {
    var xs := [x];
    assert Ids(xs) == [x.message.id] && Texts(xs) == [x.message.text];
    assert xs[..0] == [];
    assert Files(xs) == x.message.files;
  }

  // What every step keeps

  /** A batch in a container is as its record says. */
  ghost predicate Faithful(s: State, b: Batch) {
    b.serial < |s.log| && b == s.log[b.serial].batch
  }

  ghost predicate PendingGood(s: State) {
    && (forall k :: k in s.pending ==> Faithful(s, s.pending[k]) && s.log[s.pending[k].serial].key == k)
    // a pending batch is its sender's newest
    && (forall k, n :: k in s.pending && s.pending[k].serial < n < |s.log| ==> s.log[n].key != k)
  }

  ghost predicate HeldGood(s: State) {
    && (forall c :: c in s.flushes ==> c < s.nextId)
    && (forall t :: t in s.timers ==> t < s.nextId)
    && (forall h :: h in s.hands ==> h < s.nextId && Faithful(s, s.hands[h].batch))
    && (forall i :: 0 <= i < |s.sent| ==> Faithful(s, s.sent[i]))
  }

  /** Container `p` holds batch `n`. */
  ghost predicate Holds(s: State, n: nat, p: Place) {
    match p
    case Pending => exists k :: k in s.pending && s.pending[k].serial == n
    case InHand(h) => h in s.hands && s.hands[h].batch.serial == n
    case Sent => exists i :: 0 <= i < |s.sent| && s.sent[i].serial == n
    case Dropped => false
    case Failed => false
  }

  /** Each batch is in exactly one container, or lost; and it was sent at most once. */
  ghost predicate Placed(s: State) {
    && |s.place| == |s.log|
    && (forall n, p :: 0 <= n < |s.log| ==> (Holds(s, n, p) <==> p == s.place[n] && !Gone(p)))
    && (forall i, j :: 0 <= i < j < |s.sent| ==> s.sent[i].serial != s.sent[j].serial)
  }

  /** A pending batch has its timer, or a call that will schedule it, unless the event loop was down. */
  ghost predicate Timed(s: State) {
    forall k :: k in s.pending ==>
      || s.pending[k].serial in s.untimed
      || Timer(s.pending[k].serial, k, s.pending[k].anchor) in s.flushes.Values
      || Timer(s.pending[k].serial, k, s.pending[k].anchor) in s.timers.Values
  }

  /** Everything a sender's batches have gathered, batch after batch. */
  function Gathered(log: seq<Record>, key: Sender): seq<Arrival> {
    if log == [] then []
    else Gathered(log[..|log| - 1], key) + (if log[|log| - 1].key == key then log[|log| - 1].members else [])
  }

  function ArrivedFrom(arrived: seq<(Sender, Arrival)>, key: Sender): seq<Arrival> {
    if arrived == [] then []
    else
      var (k, x) := arrived[|arrived| - 1];
      ArrivedFrom(arrived[..|arrived| - 1], key) + (if k == key then [x] else [])
  }

  /** Per sender, the batches cut the arrivals into consecutive pieces. */
  ghost predicate Ordered(s: State) {
    forall key :: Gathered(s.log, key) == ArrivedFrom(s.arrived, key)
  }

  ghost predicate Inv(s: State) {
    GoodLog(s.log) && PendingGood(s) && HeldGood(s) && Placed(s) && Timed(s) && Ordered(s)
  }

  /** The numbering alone: all that placing the batches needs. */
  ghost predicate Numbered(s: State) {
    && (forall k :: k in s.pending ==> s.pending[k].serial < |s.log|)
    && (forall k, l :: k in s.pending && l in s.pending && k != l ==> s.pending[k].serial != s.pending[l].serial)
    && (forall h :: h in s.hands ==> h < s.nextId && s.hands[h].batch.serial < |s.log|)
    && (forall i :: 0 <= i < |s.sent| ==> s.sent[i].serial < |s.log|)
  }

  lemma GoodIsNumbered(s: State)
    requires PendingGood(s) && HeldGood(s)
    ensures Numbered(s)
  {
  }

  lemma MovedIsPlaced(s: State, s': State, m: nat, p: Place)
    requires Placed(s) && m < |s.log| && s'.log == s.log && s'.place == s.place[m := p]
    requires forall n, q :: 0 <= n < |s.log| && n != m ==> (Holds(s', n, q) <==> Holds(s, n, q))
    requires forall q :: Holds(s', m, q) <==> q == p && !Gone(q)
    requires forall i, j :: 0 <= i < j < |s'.sent| ==> s'.sent[i].serial != s'.sent[j].serial
    ensures Placed(s')
  {
  }

  lemma DispatchPlaced(s: State, h: nat)
    requires Numbered(s) && Placed(s) && h in s.hands
    ensures Placed(OnDispatch(s, h))
  {
    var s' := OnDispatch(s, h);
    var m := s.hands[h].batch.serial;
    assert Holds(s, m, InHand(h));
    forall i | 0 <= i < |s.sent| ensures s.sent[i].serial != m {
      assert Holds(s, s.sent[i].serial, Sent);
    }
    assert s'.sent[|s.sent|].serial == m;
    forall n, q | 0 <= n < |s.log|
      ensures Holds(s', n, q) <==> if n == m then q == Sent else Holds(s, n, q)
    {
      if q == Sent && Holds(s, n, q) {
        var i :| 0 <= i < |s.sent| && s.sent[i].serial == n;
        assert s'.sent[i].serial == n;
      }
      assert q != Sent && q != InHand(h) ==> (Holds(s', n, q) <==> Holds(s, n, q));
    }
    MovedIsPlaced(s, s', m, Sent);
  }

  lemma SchedulePlaced(s: State, h: nat)
    requires Placed(s) && h in s.hands
    ensures Placed(OnSchedulePrepare(s, h, true))
  {
    assert forall n, q :: Holds(OnSchedulePrepare(s, h, true), n, q) <==> Holds(s, n, q);
  }

  lemma DiscardPlaced(s: State, h: nat, p: Place)
    requires Numbered(s) && Placed(s) && h in s.hands && Gone(p)
    ensures Placed(Discard(s, h, p))
  {
    var s' := Discard(s, h, p);
    var m := s.hands[h].batch.serial;
    assert Holds(s, m, InHand(h));
    forall n, q | 0 <= n < |s.log| ensures Holds(s', n, q) <==> n != m && Holds(s, n, q) {
      assert q != InHand(h) ==> (Holds(s', n, q) <==> Holds(s, n, q));
    }
    MovedIsPlaced(s, s', m, p);
  }

  lemma TakePlaced(s: State, key: Sender, scheduled: bool)
    requires Numbered(s) && Placed(s) && key in s.pending
    ensures Placed(Take(s, key, scheduled))
  {
    var s' := Take(s, key, scheduled);
    var m, p := s.pending[key].serial, InHand(s.nextId);
    assert Holds(s, m, Pending);
    forall n, q | 0 <= n < |s.log|
      ensures Holds(s', n, q) <==> if n == m then q == p else Holds(s, n, q)
    {
      assert q != Pending && q != p ==> (Holds(s', n, q) <==> Holds(s, n, q));
      if q == Pending && n != m && Holds(s, n, q) {
        var k :| k in s.pending && s.pending[k].serial == n;
        assert k in s'.pending;
      }
    }
    MovedIsPlaced(s, s', m, p);
  }

  /** A batch opened for a sender without one is pending under a new number. */
  lemma OpenPlaced(s: State, key: Sender, x: Arrival)
    requires Numbered(s) && Placed(s) && key !in s.pending
    ensures Placed(OpenNew(s, key, x))
  {
    var s' := OpenNew(s, key, x);
    forall n, q | 0 <= n < |s'.log| ensures Holds(s', n, q) <==> q == s'.place[n] && !Gone(q) {
      if n < |s.log| {
        assert q != Pending ==> (Holds(s', n, q) <==> Holds(s, n, q));
        if q == Pending && Holds(s, n, q) {
          var k :| k in s.pending && s.pending[k].serial == n;
          assert k in s'.pending && s'.pending[k].serial == n;
        }
        if q == Pending && Holds(s', n, q) {
          var k :| k in s'.pending && s'.pending[k].serial == n;
          assert k in s.pending && s.pending[k].serial == n;
        }
      } else {
        assert s'.pending[key].serial == n;
      }
    }
  }

  lemma AppendPlaced(s: State, key: Sender, x: Arrival)
    requires Placed(s) && key in s.pending
    ensures Placed(Append(s, key, x))
  {
    var s' := Append(s, key, x);
    forall n, q | 0 <= n < |s.log| ensures Holds(s', n, q) <==> Holds(s, n, q) {
      if q == Pending && Holds(s, n, q) {
        var k :| k in s.pending && s.pending[k].serial == n;
        assert s'.pending[k].serial == n;
      }
      if q == Pending && Holds(s', n, q) {
        var k :| k in s'.pending && s'.pending[k].serial == n;
        assert s.pending[k].serial == n;
      }
    }
  }

  lemma ForgetTimers(s: State, s': State)
    requires Placed(s) && s'.pending == s.pending && s'.hands == s.hands && s'.sent == s.sent
    requires s'.log == s.log && s'.place == s.place
    ensures Placed(s')
  {
    assert forall n, q :: Holds(s', n, q) <==> Holds(s, n, q);
  }

  // Contents

  lemma AppendContents(s: State, key: Sender, x: Arrival)
    requires PendingGood(s) && HeldGood(s) && Placed(s) && key in s.pending
    ensures PendingGood(Append(s, key, x)) && HeldGood(Append(s, key, x))
  {
    var m := s.pending[key].serial;
    var s' := Append(s, key, x);
    assert Holds(s, m, Pending);
    assert forall n :: 0 <= n < |s.log| && n != m ==> s'.log[n] == s.log[n];
    forall h | h in s.hands ensures Faithful(s', s.hands[h].batch) {
      assert Holds(s, s.hands[h].batch.serial, InHand(h));
    }
    forall i | 0 <= i < |s.sent| ensures Faithful(s', s.sent[i]) {
      assert Holds(s, s.sent[i].serial, Sent);
    }
  }

  lemma OpenContents(s: State, key: Sender, x: Arrival)
    requires PendingGood(s) && HeldGood(s) && key !in s.pending
    ensures PendingGood(OpenNew(s, key, x)) && HeldGood(OpenNew(s, key, x))
  {
    var s' := OpenNew(s, key, x);
    assert forall n :: 0 <= n < |s.log| ==> s'.log[n] == s.log[n];
    assert forall b :: Faithful(s, b) ==> Faithful(s', b);
  }

  lemma TakeContents(s: State, key: Sender, scheduled: bool)
    requires PendingGood(s) && HeldGood(s) && key in s.pending
    ensures PendingGood(Take(s, key, scheduled)) && HeldGood(Take(s, key, scheduled))
  {
    var s' := Take(s, key, scheduled);
    assert forall b :: Faithful(s, b) ==> Faithful(s', b);
  }

  // Timers

  function TimerOf(s: State, k: Sender): Timer
    requires k in s.pending
  {
    Timer(s.pending[k].serial, k, s.pending[k].anchor)
  }

  lemma OpenTimed(s: State, key: Sender, x: Arrival)
    requires HeldGood(s) && Timed(s) && key !in s.pending
    ensures Timed(OpenNew(s, key, x))
  {
    var s' := OpenNew(s, key, x);
    assert s'.flushes[s.nextId] == TimerOf(s', key);
    forall k | k in s.pending && TimerOf(s, k) in s.flushes.Values ensures TimerOf(s', k) in s'.flushes.Values {
      var c :| c in s.flushes && s.flushes[c] == TimerOf(s, k);
      assert s'.flushes[c] == TimerOf(s', k);
    }
  }

  lemma AppendTimed(s: State, key: Sender, x: Arrival)
    requires Timed(s) && key in s.pending
    ensures Timed(Append(s, key, x))
  {
  }

  lemma ScheduleFlushTimed(s: State, c: nat, loopUp: bool)
    requires HeldGood(s) && Timed(s) && c in s.flushes
    ensures Timed(OnScheduleFlush(s, c, loopUp))
  {
    var s' := OnScheduleFlush(s, c, loopUp);
    forall k | k in s.pending && s.pending[k].serial !in s'.untimed
      ensures TimerOf(s, k) in s'.flushes.Values || TimerOf(s, k) in s'.timers.Values
    {
      if TimerOf(s, k) in s.flushes.Values {
        var d :| d in s.flushes && s.flushes[d] == TimerOf(s, k);
        if d == c {
          assert s'.timers[s.nextId] == TimerOf(s, k);
        } else {
          assert s'.flushes[d] == TimerOf(s, k);
        }
      } else {
        var t :| t in s.timers && s.timers[t] == TimerOf(s, k);
        assert s'.timers[t] == TimerOf(s, k);
      }
    }
  }

  lemma FireTimed(s: State, t: nat)
    requires Timed(s) && t in s.timers
    ensures Timed(OnFire(s, t))
  {
    var s' := OnFire(s, t);
    forall k | k in s'.pending && s.pending[k].serial !in s.untimed
      ensures TimerOf(s, k) in s'.flushes.Values || TimerOf(s, k) in s'.timers.Values
    {
      if TimerOf(s, k) !in s.flushes.Values {
        var u :| u in s.timers && s.timers[u] == TimerOf(s, k);
        assert u != t;
        assert s'.timers[u] == TimerOf(s, k);
      }
    }
  }

  // Order

  lemma {:induction false} GatheredUnchanged(log: seq<Record>, n: nat, r: Record, key: Sender)
    requires n < |log| && r.key == log[n].key != key
    ensures Gathered(log[n := r], key) == Gathered(log, key)
  {
    var l := |log| - 1;
    if n < l {
      assert log[n := r][..l] == log[..l][n := r];
      GatheredUnchanged(log[..l], n, r, key);
    } else {
      assert log[n := r][..l] == log[..l];
    }
  }

  /** Extending a sender's newest record appends to what the sender has gathered. */
  lemma {:induction false} GatheredExtends(log: seq<Record>, n: nat, x: Arrival)
    requires n < |log| && forall i :: n < i < |log| ==> log[i].key != log[n].key
    ensures Gathered(Extend(log, n, x), log[n].key) == Gathered(log, log[n].key) + [x]
  {
    var l := |log| - 1;
    var log' := Extend(log, n, x);
    if n < l {
      assert log'[..l] == Extend(log[..l], n, x);
      GatheredExtends(log[..l], n, x);
    } else {
      assert log'[..l] == log[..l];
      var before := Gathered(log[..l], log[n].key);
      assert before + (log[n].members + [x]) == before + log[n].members + [x];
    }
  }

  lemma AppendOrdered(s: State, key: Sender, x: Arrival)
    requires PendingGood(s) && Ordered(s) && key in s.pending
    ensures Ordered(Append(s, key, x))
  {
    var s' := Append(s, key, x);
    var m := s.pending[key].serial;
    assert s'.arrived[..|s.arrived|] == s.arrived;
    forall k ensures Gathered(s'.log, k) == ArrivedFrom(s'.arrived, k) {
      if k == key {
        GatheredExtends(s.log, m, x);
      } else {
        GatheredUnchanged(s.log, m, s'.log[m], k);
      }
    }
  }

  lemma OpenOrdered(s: State, key: Sender, x: Arrival)
    requires Ordered(s)
    ensures Ordered(Reopen(s, key, x))
  {
  }

  // The invariant

  lemma OpenKeeps(s: State, key: Sender, x: Arrival)
    requires PendingGood(s) && HeldGood(s) && Placed(s) && Timed(s) && key !in s.pending
    ensures var s' := OpenNew(s, key, x); PendingGood(s') && HeldGood(s') && Placed(s') && Timed(s')
  {
    GoodIsNumbered(s);
    OpenPlaced(s, key, x);
    OpenContents(s, key, x);
    OpenTimed(s, key, x);
  }

  lemma TakeKeeps(s: State, key: Sender, scheduled: bool)
    requires PendingGood(s) && HeldGood(s) && Placed(s) && Timed(s) && key in s.pending
    ensures var s' := Take(s, key, scheduled); PendingGood(s') && HeldGood(s') && Placed(s') && Timed(s')
  {
    GoodIsNumbered(s);
    TakePlaced(s, key, scheduled);
    TakeContents(s, key, scheduled);
  }

  lemma FireKeeps(s: State, t: nat)
    requires Inv(s) && t in s.timers
    ensures Inv(OnFire(s, t))
  {
    FireTimed(s, t);
    var s1 := s.(timers := s.timers - {t});
    ForgetTimers(s, s1);
    assert PendingGood(s1) && HeldGood(s1);
    if Pops(s, s.timers[t]) {
      PopKeeps(s1, s.timers[t].key);
    }
  }

  lemma PopKeeps(s: State, key: Sender)
    requires PendingGood(s) && HeldGood(s) && Placed(s) && key in s.pending
    ensures var s' := Take(s, key, true); PendingGood(s') && HeldGood(s') && Placed(s')
  {
    GoodIsNumbered(s);
    TakePlaced(s, key, true);
    TakeContents(s, key, true);
  }

  lemma ArriveGoodLog(s: State, key: Sender, x: Arrival)
    requires GoodLog(s.log) && PendingGood(s) && Batchable(x.message)
    ensures GoodLog(OnArrive(s, key, x).log)
  {
    if Joins(s, key, x.at) {
      var m := s.pending[key].serial;
      ExtendedIsAggregate(m, s.log[m], x);
    } else {
      OpenedIsAggregate(|s.log|, key, x);
    }
  }

  lemma AppendKeeps(s: State, key: Sender, x: Arrival)
    requires PendingGood(s) && HeldGood(s) && Placed(s) && Timed(s) && key in s.pending
    ensures var s' := Append(s, key, x); PendingGood(s') && HeldGood(s') && Placed(s') && Timed(s')
  {
    AppendPlaced(s, key, x);
    AppendContents(s, key, x);
    AppendTimed(s, key, x);
  }

  lemma ReopenKeeps(s: State, key: Sender, x: Arrival)
    requires PendingGood(s) && HeldGood(s) && Placed(s) && Timed(s)
    ensures var s' := Reopen(s, key, x); PendingGood(s') && HeldGood(s') && Placed(s') && Timed(s')
  {
    if key !in s.pending {
      OpenKeeps(s, key, x);
    } else {
      TakeKeeps(s, key, false);
      OpenKeeps(Take(s, key, false), key, x);
    }
  }

  lemma ArriveKeeps(s: State, key: Sender, x: Arrival)
    requires Inv(s) && Batchable(x.message)
    ensures Inv(OnArrive(s, key, x))
  {
    ArriveGoodLog(s, key, x);
    if Joins(s, key, x.at) {
      AppendOrdered(s, key, x);
      AppendKeeps(s, key, x);
    } else {
      OpenOrdered(s, key, x);
      ReopenKeeps(s, key, x);
    }
  }

  lemma FlushContents(s: State, c: nat, loopUp: bool)
    requires PendingGood(s) && HeldGood(s) && c in s.flushes
    ensures PendingGood(OnScheduleFlush(s, c, loopUp)) && HeldGood(OnScheduleFlush(s, c, loopUp))
  {
  }

  lemma FlushKeeps(s: State, c: nat, loopUp: bool)
    requires Inv(s) && c in s.flushes
    ensures Inv(OnScheduleFlush(s, c, loopUp))
  {
    FlushContents(s, c, loopUp);
    ForgetTimers(s, OnScheduleFlush(s, c, loopUp));
    ScheduleFlushTimed(s, c, loopUp);
  }

  lemma DiscardKeeps(s: State, h: nat, p: Place)
    requires Inv(s) && h in s.hands && Gone(p)
    ensures Inv(Discard(s, h, p))
  {
    GoodIsNumbered(s);
    DiscardPlaced(s, h, p);
  }

  lemma ScheduleContents(s: State, h: nat)
    requires PendingGood(s) && HeldGood(s) && Timed(s) && h in s.hands
    ensures var s' := OnSchedulePrepare(s, h, true); PendingGood(s') && HeldGood(s') && Timed(s')
  {
  }

  lemma PrepareKeeps(s: State, h: nat, loopUp: bool)
    requires Inv(s) && h in s.hands
    ensures Inv(OnSchedulePrepare(s, h, loopUp))
  {
    if loopUp {
      ScheduleContents(s, h);
      SchedulePlaced(s, h);
    } else {
      DiscardKeeps(s, h, Dropped);
    }
  }

  lemma DispatchContents(s: State, h: nat)
    requires PendingGood(s) && HeldGood(s) && h in s.hands
    ensures PendingGood(OnDispatch(s, h)) && HeldGood(OnDispatch(s, h))
  {
    var s', b := OnDispatch(s, h), s.hands[h].batch;
    assert forall c :: Faithful(s, c) ==> Faithful(s', c);
    assert forall i :: 0 <= i < |s'.sent| ==> s'.sent[i] == if i < |s.sent| then s.sent[i] else b;
  }

  lemma DispatchTimed(s: State, h: nat)
    requires Timed(s) && h in s.hands
    ensures Timed(OnDispatch(s, h))
  {
  }

  lemma DispatchKeeps(s: State, h: nat)
    requires Inv(s) && h in s.hands
    ensures Inv(OnDispatch(s, h))
  {
    GoodIsNumbered(s);
    DispatchPlaced(s, h);
    DispatchContents(s, h);
    DispatchTimed(s, h);
  }

  lemma StepKeepsInv(s: State, a: Action)
    requires Inv(s) && Enabled(s, a)
    ensures Inv(Step(s, a))
  {
    match a
    case Arrive(key, m, now) => ArriveKeeps(s, key, Arrival(m, now));
    case ScheduleFlush(c, loopUp) => FlushKeeps(s, c, loopUp);
    case SchedulePrepare(h, loopUp) => PrepareKeeps(s, h, loopUp);
    case Fire(t) => FireKeeps(s, t);
    case Dispatch(h) => DispatchKeeps(s, h);
    case Fail(h) => DiscardKeeps(s, h, Failed);
  }

  lemma {:induction false} RunKeepsInv(s: State, acts: seq<Action>)
    requires Inv(s) && Exec(s, acts).Some?
    ensures Inv(Exec(s, acts).value)
    decreases |acts|
  {
    if acts != [] {
      StepKeepsInv(s, acts[0]);
      RunKeepsInv(Step(s, acts[0]), acts[1..]);
    }
  }

  // What the invariant is worth

  /**
    After any run, every batch is in exactly one container (pending, in one hand, or sent once)
    or was lost because the event loop was down or its preparation raised, and it is the in-order
    aggregate of its members, all within the window of the first; per sender the batches cut the
    arrivals into consecutive pieces.
   */
  lemma EveryMessageIsInOnePlace(acts: seq<Action>)
    requires Exec(Init(), acts).Some?
    ensures var s := Exec(Init(), acts).value;
      && |s.place| == |s.log|
      && (forall n, p :: 0 <= n < |s.log| ==> (Holds(s, n, p) <==> p == s.place[n] && !Gone(p)))
      && (forall i, j :: 0 <= i < j < |s.sent| ==> s.sent[i].serial != s.sent[j].serial)
      && GoodLog(s.log)
      && (forall i :: 0 <= i < |s.sent| ==>
            s.sent[i].serial < |s.log| && s.sent[i] == Aggregate(s.sent[i].serial, s.log[s.sent[i].serial].members))
      && (forall key :: Gathered(s.log, key) == ArrivedFrom(s.arrived, key))
  {
    RunKeepsInv(Init(), acts);
  }

  /** No step remains but arrivals. */
  predicate Quiet(s: State) {
    s.flushes == map[] && s.timers == map[] && s.hands == map[]
  }

  predicate LoopUp(acts: seq<Action>) {
    forall i :: 0 <= i < |acts| ==>
      (acts[i].ScheduleFlush? || acts[i].SchedulePrepare? ==> acts[i].loopUp)
  }

  /** The batches that a step loses. */
  function LostBy(s: State, a: Action): set<nat>
    requires Enabled(s, a)
  {
    match a
    case SchedulePrepare(h, loopUp) => if loopUp then {} else {s.hands[h].batch.serial}
    case Fail(h) => {s.hands[h].batch.serial}
    case _ => {}
  }

  /** The batches that a run loses: their hand-over found the loop down, or their preparation raised. */
  function LostIn(s: State, acts: seq<Action>): set<nat>
    decreases |acts|
  {
    if acts == [] || !Enabled(s, acts[0]) then {}
    else LostBy(s, acts[0]) + LostIn(Step(s, acts[0]), acts[1..])
  }

  function GoneAt(place: seq<Place>): set<nat> {
    set n: nat | n < |place| && Gone(place[n])
  }

  lemma StepLoses(s: State, a: Action)
    requires Numbered(s) && Placed(s) && Enabled(s, a)
    ensures GoneAt(Step(s, a).place) == GoneAt(s.place) + LostBy(s, a)
  {
    match a
    case Arrive(key, m, now) => ArriveLoses(s, key, Arrival(m, now));
    case ScheduleFlush(c, loopUp) =>
    case SchedulePrepare(h, loopUp) =>
      HeldIsThere(s, h);
    case Fire(t) => FireLoses(s, t);
    case Dispatch(h) => HeldIsThere(s, h);
    case Fail(h) => HeldIsThere(s, h);
  }

  lemma HeldIsThere(s: State, h: nat)
    requires Numbered(s) && Placed(s) && h in s.hands
    ensures s.hands[h].batch.serial < |s.place| && s.place[s.hands[h].batch.serial] == InHand(h)
  {
    assert Holds(s, s.hands[h].batch.serial, InHand(h));
  }

  lemma PendingIsThere(s: State, key: Sender)
    requires Numbered(s) && Placed(s) && key in s.pending
    ensures s.pending[key].serial < |s.place| && s.place[s.pending[key].serial] == Pending
  {
    assert Holds(s, s.pending[key].serial, Pending);
  }

  lemma ArriveLoses(s: State, key: Sender, x: Arrival)
    requires Numbered(s) && Placed(s)
    ensures GoneAt(OnArrive(s, key, x).place) == GoneAt(s.place)
  {
    if key in s.pending {
      PendingIsThere(s, key);
    }
  }

  lemma FireLoses(s: State, t: nat)
    requires Numbered(s) && Placed(s) && t in s.timers
    ensures GoneAt(OnFire(s, t).place) == GoneAt(s.place)
  {
    if s.timers[t].key in s.pending {
      PendingIsThere(s, s.timers[t].key);
    }
  }

  lemma {:induction false} RunLoses(s: State, acts: seq<Action>)
    requires Inv(s) && Exec(s, acts).Some?
    ensures GoneAt(Exec(s, acts).value.place) == GoneAt(s.place) + LostIn(s, acts)
    decreases |acts|
  {
    if acts != [] {
      GoodIsNumbered(s);
      StepLoses(s, acts[0]);
      StepKeepsInv(s, acts[0]);
      RunLoses(Step(s, acts[0]), acts[1..]);
    }
  }

  lemma {:induction false} LoopUpTimesAll(s: State, acts: seq<Action>)
    requires s.untimed == {} && LoopUp(acts) && Exec(s, acts).Some?
    ensures Exec(s, acts).value.untimed == {}
    decreases |acts|
  {
    if acts != [] {
      assert forall i :: 0 <= i < |acts[1..]| ==> acts[1..][i] == acts[i + 1];
      LoopUpTimesAll(Step(s, acts[0]), acts[1..]);
    }
  }

  /**
    Once no timer, queue call or hand is left, a batch has been sent exactly if it has left the
    pending map and the run has not lost it: its hand-over found the event loop up and its
    preparation did not raise. It was sent only once, and it is still pending only if its timer
    could not be scheduled.
   */
  lemma SentExactlyIf(acts: seq<Action>, n: nat)
    requires Exec(Init(), acts).Some? && Quiet(Exec(Init(), acts).value) && n < |Exec(Init(), acts).value.log|
    ensures var s := Exec(Init(), acts).value;
      && (Holds(s, n, Sent) <==> !Holds(s, n, Pending) && n !in LostIn(Init(), acts))
      && (Holds(s, n, Pending) ==> n in s.untimed)
      && (forall i, j :: 0 <= i < j < |s.sent| ==> s.sent[i].serial != s.sent[j].serial)
  {
    var s := Exec(Init(), acts).value;
    RunKeepsInv(Init(), acts);
    RunLoses(Init(), acts);
    assert n in LostIn(Init(), acts) <==> Gone(s.place[n]);
    assert Holds(s, n, s.place[n]) <==> !Gone(s.place[n]);
    assert s.flushes.Values == {} && s.timers.Values == {};
  }

  predicate NoFailure(acts: seq<Action>) {
    forall i :: 0 <= i < |acts| ==> !acts[i].Fail?
  }

  lemma {:induction false} FailuresLose(s: State, acts: seq<Action>)
    requires Exec(s, acts).Some? && LoopUp(acts)
    ensures LostIn(s, acts) == {} <==> NoFailure(acts)
    decreases |acts|
  {
    if acts != [] {
      assert forall i :: 0 <= i < |acts[1..]| ==> acts[1..][i] == acts[i + 1];
      assert forall i :: 0 < i < |acts| ==> acts[i] == acts[1..][i - 1];
      FailuresLose(Step(s, acts[0]), acts[1..]);
      assert LostBy(s, acts[0]) == {} <==> !acts[0].Fail?;
    }
  }

  /**
    While the event loop runs, once no timer, queue call or hand is left every arrived message
    has been sent, exactly once and in a batch that is the in-order aggregate of its members, if
    and only if no preparation raised.
   */
  lemma AllSentExactlyIf(acts: seq<Action>)
    requires Exec(Init(), acts).Some? && LoopUp(acts) && Quiet(Exec(Init(), acts).value)
    ensures var s := Exec(Init(), acts).value;
      && s.pending == map[]
      && ((forall n :: 0 <= n < |s.log| ==> Holds(s, n, Sent)) <==> NoFailure(acts))
      && (forall i, j :: 0 <= i < j < |s.sent| ==> s.sent[i].serial != s.sent[j].serial)
      && (forall key :: Gathered(s.log, key) == ArrivedFrom(s.arrived, key))
  {
    var s := Exec(Init(), acts).value;
    RunKeepsInv(Init(), acts);
    LoopUpTimesAll(Init(), acts);
    FailuresLose(Init(), acts);
    RunLoses(Init(), acts);
    assert s.flushes.Values == {} && s.timers.Values == {};
    assert s.pending == map[];
    forall n: nat | n < |s.log| ensures Holds(s, n, Sent) <==> n !in LostIn(Init(), acts) {
      SentExactlyIf(acts, n);
    }
    if x :| x in LostIn(Init(), acts) {
      assert x in GoneAt(s.place);
    }
  }

  // Draining

  function Unscheduled(s: State): set<nat> {
    set h | h in s.hands && !s.hands[h].scheduled
  }

  /** How many steps other than arrivals can still follow, at most. */
  function Remaining(s: State): nat {
    3 * |s.flushes| + 2 * |s.timers| + |s.hands| + |Unscheduled(s)|
  }

  lemma RemovedSize<V>(m: map<nat, V>, k: nat)
    requires k in m
    ensures |m - {k}| == |m| - 1
  {
  }

  lemma AddedSize<V>(m: map<nat, V>, k: nat, v: V)
    ensures |m[k := v]| <= |m| + 1
  {
  }

  lemma FewerUnscheduled(s: State, s': State, gone: set<nat>)
    requires Unscheduled(s') == Unscheduled(s) - gone
    ensures |Unscheduled(s')| <= |Unscheduled(s)|
    ensures gone * Unscheduled(s) != {} ==> |Unscheduled(s')| < |Unscheduled(s)|
  {
  }

  lemma ScheduleFlushDrains(s: State, c: nat, loopUp: bool)
    requires c in s.flushes
    ensures Remaining(OnScheduleFlush(s, c, loopUp)) < Remaining(s)
  {
  }

  lemma SchedulePrepareDrains(s: State, h: nat, loopUp: bool)
    requires h in s.hands && !s.hands[h].scheduled
    ensures Remaining(OnSchedulePrepare(s, h, loopUp)) < Remaining(s)
  {
    var s' := OnSchedulePrepare(s, h, loopUp);
    RemovedSize(s.hands, h);
    assert loopUp ==> s'.hands.Keys == s.hands.Keys && |s'.hands.Keys| == |s.hands.Keys|;
    assert h in {h} * Unscheduled(s);
    FewerUnscheduled(s, s', {h});
  }

  lemma FireDrains(s: State, t: nat)
    requires s.nextId !in s.hands && t in s.timers
    ensures Remaining(OnFire(s, t)) < Remaining(s)
  {
    RemovedSize(s.timers, t);
    if Pops(s, s.timers[t]) {
      AddedSize(s.hands, s.nextId, Held(s.pending[s.timers[t].key], true));
    }
    assert Unscheduled(OnFire(s, t)) == Unscheduled(s);
  }

  lemma DispatchDrains(s: State, h: nat)
    requires h in s.hands && s.hands[h].scheduled
    ensures Remaining(OnDispatch(s, h)) < Remaining(s)
  {
    RemovedSize(s.hands, h);
    FewerUnscheduled(s, OnDispatch(s, h), {});
  }

  lemma FailDrains(s: State, h: nat)
    requires h in s.hands && s.hands[h].scheduled
    ensures Remaining(Discard(s, h, Failed)) < Remaining(s)
  {
    RemovedSize(s.hands, h);
    FewerUnscheduled(s, Discard(s, h, Failed), {});
  }

  lemma StepDrains(s: State, a: Action)
    requires HeldGood(s) && Enabled(s, a) && !a.Arrive?
    ensures Remaining(Step(s, a)) < Remaining(s)
  {
    match a
    case ScheduleFlush(c, loopUp) => ScheduleFlushDrains(s, c, loopUp);
    case SchedulePrepare(h, loopUp) => SchedulePrepareDrains(s, h, loopUp);
    case Fire(t) => FireDrains(s, t);
    case Dispatch(h) => DispatchDrains(s, h);
    case Fail(h) => FailDrains(s, h);
  }

  /** Unless all is quiet, some step other than an arrival can be taken. */
  lemma CanGoOn(s: State)
    requires !Quiet(s)
    ensures exists a: Action :: !a.Arrive? && Enabled(s, a)
  {
    if s.flushes != map[] {
      var c :| c in s.flushes;
      assert Enabled(s, ScheduleFlush(c, true));
    } else if s.timers != map[] {
      var t :| t in s.timers;
      assert Enabled(s, Fire(t));
    } else {
      var h :| h in s.hands;
      assert Enabled(s, if s.hands[h].scheduled then Dispatch(h) else SchedulePrepare(h, true));
    }
  }

  predicate NoArrivals(acts: seq<Action>) {
    acts == [] || (!acts[0].Arrive? && NoArrivals(acts[1..]))
  }

  /** Once arrivals stop, a run takes boundedly many steps. */
  lemma {:induction false} RunsDrain(s: State, acts: seq<Action>)
    requires Inv(s) && Exec(s, acts).Some?
    requires NoArrivals(acts)
    ensures |acts| <= Remaining(s)
    decreases |acts|
  {
    if acts != [] {
      StepKeepsInv(s, acts[0]);
      StepDrains(s, acts[0]);
      RunsDrain(Step(s, acts[0]), acts[1..]);
    }
  }

  // The order in which a sender's batches are sent

  /** The batches of a sender, in the order they were sent. */
  function SentSerials(log: seq<Record>, sent: seq<Batch>, key: Sender): seq<nat> {
    if sent == [] then []
    else
      var l := |sent| - 1;
      var n := sent[l].serial;
      SentSerials(log, sent[..l], key) + (if n < |log| && log[n].key == key then [n] else [])
  }

  /** The batches of a sender but those in `gone`, in the order they were opened. */
  function OpenedBut(log: seq<Record>, key: Sender, gone: set<nat>): seq<nat> {
    if log == [] then []
    else
      var l := |log| - 1;
      OpenedBut(log[..l], key, gone) + (if log[l].key == key && l !in gone then [l] else [])
  }

  /** What they have gathered. */
  function GatheredBut(log: seq<Record>, key: Sender, gone: set<nat>): seq<Arrival> {
    if log == [] then []
    else
      var l := |log| - 1;
      GatheredBut(log[..l], key, gone) + (if log[l].key == key && l !in gone then log[l].members else [])
  }

  predicate Increasing(xs: seq<nat>) {
    forall i, j :: 0 <= i < j < |xs| ==> xs[i] < xs[j]
  }

  /** What the given batches gathered, one after the other. */
  function MembersOf(log: seq<Record>, xs: seq<nat>): seq<Arrival> {
    if xs == [] then []
    else
      var l := |xs| - 1;
      MembersOf(log, xs[..l]) + (if xs[l] < |log| then log[xs[l]].members else [])
  }

  predicate SentInOrder(s: State, key: Sender) {
    Increasing(SentSerials(s.log, s.sent, key))
  }

  /** The step sends a batch of the sender while an older one is held that does not get lost. */
  ghost predicate Overtakes(s: State, a: Action, key: Sender, gone: set<nat>) {
    && a.Dispatch? && a.hand in s.hands
    && IsOf(s, s.hands[a.hand].batch.serial, key)
    && exists h :: h in s.hands && Overtaken(s, h, s.hands[a.hand].batch.serial, key, gone)
  }

  predicate Overtaken(s: State, h: nat, m: nat, key: Sender, gone: set<nat>)
    requires h in s.hands
  {
    var n := s.hands[h].batch.serial;
    n < m && IsOf(s, n, key) && n !in gone
  }

  predicate IsOf(s: State, n: nat, key: Sender) {
    n < |s.log| && s.log[n].key == key
  }

  /** No step of the run overtakes a batch of the sender other than those in `gone`. */
  ghost predicate InTurn(s: State, acts: seq<Action>, key: Sender, gone: set<nat>)
    decreases |acts|
  {
    acts == [] ||
    (Enabled(s, acts[0]) && !Overtakes(s, acts[0], key, gone) && InTurn(Step(s, acts[0]), acts[1..], key, gone))
  }

  lemma {:induction false} SentSerialsSpec(log: seq<Record>, sent: seq<Batch>, key: Sender, x: nat)
    ensures x in SentSerials(log, sent, key) <==>
      x < |log| && log[x].key == key && exists i :: 0 <= i < |sent| && sent[i].serial == x
  {
    if sent != [] {
      var l := |sent| - 1;
      SentSerialsSpec(log, sent[..l], key, x);
      assert forall i :: 0 <= i < l ==> sent[..l][i] == sent[i];
    }
  }

  lemma {:induction false} OpenedButSpec(log: seq<Record>, key: Sender, gone: set<nat>)
    ensures forall x: nat :: x in OpenedBut(log, key, gone) <==> x < |log| && log[x].key == key && x !in gone
    ensures Increasing(OpenedBut(log, key, gone))
  {
    if log != [] {
      var l := |log| - 1;
      OpenedButSpec(log[..l], key, gone);
      var xs, ys := OpenedBut(log[..l], key, gone), OpenedBut(log, key, gone);
      assert forall i :: 0 <= i < |xs| ==> xs[i] in xs;
      forall x: nat ensures x in ys <==> x < |log| && log[x].key == key && x !in gone {
        assert x in ys <==> x in xs || (x == l && log[l].key == key && l !in gone);
        assert x < l ==> log[..l][x] == log[x];
      }
    }
  }

  lemma {:induction false} SameSerials(log: seq<Record>, log': seq<Record>, sent: seq<Batch>, key: Sender)
    requires |log| <= |log'| && forall n :: 0 <= n < |log| ==> log'[n].key == log[n].key
    requires forall i :: 0 <= i < |sent| ==> sent[i].serial < |log|
    ensures SentSerials(log', sent, key) == SentSerials(log, sent, key)
  {
    if sent != [] {
      SameSerials(log, log', sent[..|sent| - 1], key);
    }
  }

  /** Increasing sequences are told by their elements. */
  lemma {:induction false} IncreasingUnique(a: seq<nat>, b: seq<nat>)
    requires Increasing(a) && Increasing(b) && forall x: nat :: x in a <==> x in b
    ensures a == b
    decreases |a|
  {
    if b != [] {
      assert b[0] in a;
    }
    if a != [] {
      assert a[0] in b;
      var m, n := a[|a| - 1], b[|b| - 1];
      assert m in b && n in a;
      var c, d := a[..|a| - 1], b[..|b| - 1];
      assert a == c + [m] && b == d + [n];
      WithoutLast(a);
      WithoutLast(b);
      assert m == n;
      IncreasingUnique(c, d);
    }
  }

  lemma WithoutLast(a: seq<nat>)
    requires Increasing(a) && a != []
    ensures var l := |a| - 1;
      && Increasing(a[..l]) && (forall x: nat :: x in a[..l] <==> x in a && x != a[l])
      && forall x: nat :: x in a ==> x <= a[l]
  {
    var l := |a| - 1;
    assert a == a[..l] + [a[l]];
    assert forall i :: 0 <= i < l ==> a[..l][i] == a[i];
  }

  lemma {:induction false} MembersOfPrefix(log: seq<Record>, l: nat, xs: seq<nat>)
    requires l <= |log| && forall i :: 0 <= i < |xs| ==> xs[i] < l
    ensures MembersOf(log[..l], xs) == MembersOf(log, xs)
  {
    if xs != [] {
      MembersOfPrefix(log, l, xs[..|xs| - 1]);
    }
  }

  lemma MembersOfPlus(log: seq<Record>, xs: seq<nat>, n: nat)
    requires n < |log|
    ensures MembersOf(log, xs + [n]) == MembersOf(log, xs) + log[n].members
  {
    assert (xs + [n])[..|xs|] == xs;
  }

  lemma {:induction false} GatheredIsMembers(log: seq<Record>, key: Sender, gone: set<nat>)
    ensures GatheredBut(log, key, gone) == MembersOf(log, OpenedBut(log, key, gone))
  {
    if log != [] {
      var l := |log| - 1;
      var xs := OpenedBut(log[..l], key, gone);
      GatheredIsMembers(log[..l], key, gone);
      OpenedAreOld(log, l, key, gone);
      MembersOfPrefix(log, l, xs);
      MembersOfPlus(log, xs, l);
      assert GatheredBut(log[..l], key, gone) + [] == GatheredBut(log[..l], key, gone) && xs + [] == xs;
    }
  }

  lemma OpenedAreOld(log: seq<Record>, l: nat, key: Sender, gone: set<nat>)
    requires l <= |log|
    ensures var xs := OpenedBut(log[..l], key, gone); forall i :: 0 <= i < |xs| ==> xs[i] < l
  {
    var xs := OpenedBut(log[..l], key, gone);
    OpenedButSpec(log[..l], key, gone);
    assert forall i :: 0 <= i < |xs| ==> xs[i] in xs;
  }

  lemma {:induction false} GatheredButNone(log: seq<Record>, key: Sender)
    ensures GatheredBut(log, key, {}) == Gathered(log, key)
  {
    if log != [] {
      GatheredButNone(log[..|log| - 1], key);
    }
  }

  predicate OutOfHands(p: Place) {
    p.Sent? || Gone(p)
  }

  /** `n` is an older batch of the sender than `x`, and does not get lost. */
  predicate Older(log: seq<Record>, key: Sender, n: nat, x: nat, gone: set<nat>) {
    n < x && n < |log| && log[n].key == key && n !in gone
  }

  /** Older batches than the sent ones are out of everybody's hands. */
  ghost predicate Caught(log: seq<Record>, place: seq<Place>, xs: seq<nat>, key: Sender, gone: set<nat>)
    requires |place| == |log|
  {
    forall x: nat, n: nat :: x in xs && Older(log, key, n, x, gone) ==> OutOfHands(place[n])
  }

  /** A batch was sent before an older one that is still held. */
  ghost predicate Passed(log: seq<Record>, place: seq<Place>, xs: seq<nat>, key: Sender, gone: set<nat>)
    requires |place| == |log|
  {
    exists x: nat, n: nat :: x in xs && Older(log, key, n, x, gone) && place[n].InHand?
  }

  /** Other steps than dispatches: batches keep their sender, nothing sent or lost comes back. */
  ghost predicate Settles(log: seq<Record>, place: seq<Place>, log': seq<Record>, place': seq<Place>)
    requires |place| == |log|
  {
    && |log| <= |log'| == |place'|
    && (forall n :: 0 <= n < |log| ==> log'[n].key == log[n].key)
    && (forall n :: 0 <= n < |log| && OutOfHands(place[n]) ==> place'[n] == place[n])
  }

  ghost predicate HandsStay(place: seq<Place>, place': seq<Place>, gone: set<nat>) {
    forall n :: 0 <= n < |place| && place[n].InHand? && n !in gone ==> n < |place'| && place'[n].InHand?
  }

  lemma CaughtSettles(log: seq<Record>, place: seq<Place>, log': seq<Record>, place': seq<Place>, xs: seq<nat>, key: Sender, gone: set<nat>)
    requires |place| == |log| && Settles(log, place, log', place')
    requires forall x :: x in xs ==> x < |log|
    ensures Caught(log, place, xs, key, gone) ==> Caught(log', place', xs, key, gone)
  {
    forall x: nat, n: nat | x in xs && Older(log', key, n, x, gone) && Caught(log, place, xs, key, gone) ensures OutOfHands(place'[n]) {
      assert Older(log, key, n, x, gone);
    }
  }

  lemma PassedSettles(log: seq<Record>, place: seq<Place>, log': seq<Record>, place': seq<Place>, xs: seq<nat>, key: Sender, gone: set<nat>)
    requires |place| == |log| && Settles(log, place, log', place') && HandsStay(place, place', gone)
    ensures Passed(log, place, xs, key, gone) ==> Passed(log', place', xs, key, gone)
  {
    if Passed(log, place, xs, key, gone) {
      var x: nat, n: nat :| x in xs && Older(log, key, n, x, gone) && place[n].InHand?;
      assert Older(log', key, n, x, gone);
    }
  }

  /** Sending `m` after `xs`. */
  function Plus(log: seq<Record>, xs: seq<nat>, key: Sender, m: nat): seq<nat>
    requires m < |log|
  {
    if log[m].key == key then xs + [m] else xs
  }

  lemma CaughtPlus(log: seq<Record>, place: seq<Place>, xs: seq<nat>, key: Sender, m: nat, gone: set<nat>)
    requires |place| == |log| && m < |log| && place[m].InHand? && m !in gone
    requires Increasing(xs) && Caught(log, place, xs, key, gone) && m !in xs
    requires log[m].key == key ==> forall n: nat :: Older(log, key, n, m, gone) ==> OutOfHands(place[n])
    ensures Increasing(Plus(log, xs, key, m)) && Caught(log, place[m := Sent], Plus(log, xs, key, m), key, gone)
  {
    if log[m].key == key {
      forall i | 0 <= i < |xs| ensures xs[i] < m {
        assert xs[i] in xs;
        assert m < xs[i] ==> Older(log, key, m, xs[i], gone);
      }
    }
    forall x: nat, n: nat | x in Plus(log, xs, key, m) && Older(log, key, n, x, gone) ensures OutOfHands(place[m := Sent][n]) {
      assert x in xs || (x == m && log[m].key == key);
    }
  }

  /** An order that is lost stays lost. */
  lemma LostPlus(log: seq<Record>, place: seq<Place>, xs: seq<nat>, key: Sender, m: nat, gone: set<nat>)
    requires |place| == |log| && m < |log|
    requires !Increasing(xs) || Passed(log, place, xs, key, gone)
    ensures !Increasing(Plus(log, xs, key, m)) || Passed(log, place[m := Sent], Plus(log, xs, key, m), key, gone)
  {
    var ys := Plus(log, xs, key, m);
    if !Increasing(xs) {
      var i, j :| 0 <= i < j < |xs| && xs[i] >= xs[j];
      assert ys[i] == xs[i] && ys[j] == xs[j];
    } else {
      var x: nat, n: nat :| x in xs && Older(log, key, n, x, gone) && place[n].InHand?;
      if n == m {
        var i :| 0 <= i < |xs| && xs[i] == x;
        assert ys[i] == x && ys[|xs|] == m;
      } else {
        assert x in ys && place[m := Sent][n].InHand?;
      }
    }
  }

  // The steps

  /** All that a step other than a dispatch may do to the places, the hands in `gone` left aside. */
  ghost predicate Calm(s: State, s': State, gone: set<nat>)
    requires |s.place| == |s.log|
  {
    Settles(s.log, s.place, s'.log, s'.place) && HandsStay(s.place, s'.place, gone) && s'.sent == s.sent
  }

  lemma TakeSettles(s: State, key: Sender, scheduled: bool, gone: set<nat>)
    requires Placed(s) && key in s.pending && s.pending[key].serial < |s.log|
    ensures Calm(s, Take(s, key, scheduled), gone)
  {
    assert Holds(s, s.pending[key].serial, Pending);
  }

  lemma OpenSettles(s: State, key: Sender, x: Arrival, gone: set<nat>)
    requires |s.place| == |s.log|
    ensures Calm(s, OpenNew(s, key, x), gone)
  {
  }

  lemma AppendSettles(s: State, key: Sender, x: Arrival, gone: set<nat>)
    requires |s.place| == |s.log| && key in s.pending
    ensures Calm(s, Append(s, key, x), gone)
  {
  }

  lemma ArriveSettles(s: State, key: Sender, x: Arrival, gone: set<nat>)
    requires Placed(s) && (key in s.pending ==> s.pending[key].serial < |s.log|)
    ensures Calm(s, OnArrive(s, key, x), gone)
  {
    if Joins(s, key, x.at) {
      AppendSettles(s, key, x, gone);
    } else if key in s.pending {
      TakeSettles(s, key, false, gone);
      OpenSettles(Take(s, key, false), key, x, gone);
    } else {
      OpenSettles(s, key, x, gone);
    }
  }

  lemma FireSettles(s: State, t: nat, gone: set<nat>)
    requires Placed(s) && t in s.timers && forall k :: k in s.pending ==> s.pending[k].serial < |s.log|
    ensures Calm(s, OnFire(s, t), gone)
  {
    var s1 := s.(timers := s.timers - {t});
    ForgetTimers(s, s1);
    if Pops(s, s.timers[t]) {
      TakeSettles(s1, s.timers[t].key, true, gone);
    }
  }

  lemma DiscardSettles(s: State, h: nat, p: Place, gone: set<nat>)
    requires Numbered(s) && Placed(s) && h in s.hands && Gone(p) && s.hands[h].batch.serial in gone
    ensures Calm(s, Discard(s, h, p), gone)
  {
    HeldIsThere(s, h);
  }

  lemma StepSettles(s: State, a: Action, gone: set<nat>)
    requires Numbered(s) && Placed(s) && Enabled(s, a) && !a.Dispatch? && LostBy(s, a) <= gone
    ensures Calm(s, Step(s, a), gone)
  {
    match a
    case Arrive(key, m, now) => ArriveSettles(s, key, Arrival(m, now), gone);
    case ScheduleFlush(c, loopUp) =>
    case SchedulePrepare(h, loopUp) =>
      if !loopUp {
        DiscardSettles(s, h, Dropped, gone);
      }
    case Fire(t) => FireSettles(s, t, gone);
    case Fail(h) => DiscardSettles(s, h, Failed, gone);
  }

  /** The batch in hand was not sent before, and is the next of its sender. */
  lemma DispatchSerials(s: State, h: nat, key: Sender)
    requires Numbered(s) && Placed(s) && h in s.hands
    ensures var m, s', xs := s.hands[h].batch.serial, OnDispatch(s, h), SentSerials(s.log, s.sent, key);
      && m < |s.log| && s.place[m] == InHand(h) && m !in xs
      && s'.log == s.log && s'.place == s.place[m := Sent]
      && SentSerials(s'.log, s'.sent, key) == Plus(s.log, xs, key, m)
  {
    var m := s.hands[h].batch.serial;
    assert Holds(s, m, InHand(h));
    SentSerialsSpec(s.log, s.sent, key, m);
    assert !Holds(s, m, Sent);
    assert OnDispatch(s, h).sent[..|s.sent|] == s.sent;
  }

  /** What is older than a batch in hand is out of hands or in another hand. */
  lemma OlderThanHeld(s: State, m: nat, key: Sender, n: nat, gone: set<nat>)
    requires PendingGood(s) && Placed(s) && m < |s.log| && s.log[m].key == key && Older(s.log, key, n, m, gone)
    ensures OutOfHands(s.place[n]) || (s.place[n].InHand? && s.place[n].id in s.hands && s.hands[s.place[n].id].batch.serial == n)
  {
    var p := s.place[n];
    assert Holds(s, n, p) <==> !Gone(p);
  }

  /** In every reachable state, with the numbering made explicit. */
  ghost predicate Reached(s: State) {
    PendingGood(s) && Numbered(s) && Placed(s)
  }

  function SerialsOf(s: State, key: Sender): seq<nat> {
    SentSerials(s.log, s.sent, key)
  }

  ghost predicate OnTime(s: State, key: Sender, gone: set<nat>)
    requires |s.place| == |s.log|
  {
    Increasing(SerialsOf(s, key)) && Caught(s.log, s.place, SerialsOf(s, key), key, gone)
  }

  ghost predicate Disordered(s: State, key: Sender, gone: set<nat>)
    requires |s.place| == |s.log|
  {
    !Increasing(SerialsOf(s, key)) || Passed(s.log, s.place, SerialsOf(s, key), key, gone)
  }

  /** `gone` holds what the step loses, and not what it sends. */
  predicate Fits(s: State, a: Action, gone: set<nat>)
    requires Enabled(s, a)
  {
    LostBy(s, a) <= gone && (a.Dispatch? ==> s.hands[a.hand].batch.serial !in gone)
  }

  lemma DispatchInTurn(s: State, h: nat, key: Sender, gone: set<nat>)
    requires Reached(s) && h in s.hands && s.hands[h].batch.serial !in gone
    requires !Overtakes(s, Dispatch(h), key, gone) && OnTime(s, key, gone)
    ensures |OnDispatch(s, h).place| == |OnDispatch(s, h).log| && OnTime(OnDispatch(s, h), key, gone)
  {
    var m := s.hands[h].batch.serial;
    DispatchSerials(s, h, key);
    if s.log[m].key == key {
      forall n: nat | Older(s.log, key, n, m, gone) ensures OutOfHands(s.place[n]) {
        OlderThanHeld(s, m, key, n, gone);
        assert s.place[n].InHand? ==> Overtaken(s, s.place[n].id, m, key, gone);
      }
    }
    CaughtPlus(s.log, s.place, SerialsOf(s, key), key, m, gone);
  }

  lemma SerialsSettle(s: State, s': State, key: Sender)
    requires Numbered(s) && |s.place| == |s.log| && Settles(s.log, s.place, s'.log, s'.place) && s'.sent == s.sent
    ensures SerialsOf(s', key) == SerialsOf(s, key)
    ensures forall x :: x in SerialsOf(s, key) ==> x < |s.log|
  {
    SameSerials(s.log, s'.log, s.sent, key);
    forall x | x in SerialsOf(s, key) ensures x < |s.log| {
      SentSerialsSpec(s.log, s.sent, key, x);
    }
  }

  lemma StepOnTime(s: State, a: Action, key: Sender, gone: set<nat>)
    requires Reached(s) && Enabled(s, a) && Fits(s, a, gone) && !Overtakes(s, a, key, gone) && OnTime(s, key, gone)
    ensures var s' := Step(s, a); |s'.place| == |s'.log| && OnTime(s', key, gone)
  {
    if a.Dispatch? {
      DispatchInTurn(s, a.hand, key, gone);
    } else {
      StepSettles(s, a, gone);
      SerialsSettle(s, Step(s, a), key);
      CaughtSettles(s.log, s.place, Step(s, a).log, Step(s, a).place, SerialsOf(s, key), key, gone);
    }
  }

  lemma StepDisordered(s: State, a: Action, key: Sender, gone: set<nat>)
    requires Reached(s) && Enabled(s, a) && Fits(s, a, gone) && Disordered(s, key, gone)
    ensures var s' := Step(s, a); |s'.place| == |s'.log| && Disordered(s', key, gone)
  {
    if a.Dispatch? {
      DispatchSerials(s, a.hand, key);
      LostPlus(s.log, s.place, SerialsOf(s, key), key, s.hands[a.hand].batch.serial, gone);
    } else {
      StepSettles(s, a, gone);
      SerialsSettle(s, Step(s, a), key);
      PassedSettles(s.log, s.place, Step(s, a).log, Step(s, a).place, SerialsOf(s, key), key, gone);
    }
  }

  lemma OvertakingDisorders(s: State, a: Action, key: Sender, gone: set<nat>)
    requires Reached(s) && Enabled(s, a) && Overtakes(s, a, key, gone)
    ensures var s' := Step(s, a); |s'.place| == |s'.log| && Disordered(s', key, gone)
  {
    DispatchSerials(s, a.hand, key);
    var s', m := Step(s, a), s.hands[a.hand].batch.serial;
    var h :| h in s.hands && Overtaken(s, h, m, key, gone);
    var n := s.hands[h].batch.serial;
    assert Holds(s, n, InHand(h));
    assert Older(s'.log, key, n, m, gone) && s'.place[n].InHand?;
  }

  lemma InvIsReached(s: State)
    requires Inv(s)
    ensures Reached(s)
  {
    GoodIsNumbered(s);
  }

  /** What has been sent or lost stays so. */
  lemma StepEnds(s: State, a: Action, n: nat)
    requires Numbered(s) && Placed(s) && Enabled(s, a) && n < |s.place| && OutOfHands(s.place[n])
    ensures n < |Step(s, a).place| && Step(s, a).place[n] == s.place[n]
  {
    if a.Dispatch? {
      HeldIsThere(s, a.hand);
    } else {
      StepSettles(s, a, LostBy(s, a));
    }
  }

  lemma {:induction false} RunEnds(s: State, acts: seq<Action>, n: nat)
    requires Inv(s) && Exec(s, acts).Some? && n < |s.place| && OutOfHands(s.place[n])
    ensures n < |Exec(s, acts).value.place| && Exec(s, acts).value.place[n] == s.place[n]
    decreases |acts|
  {
    if acts != [] {
      InvIsReached(s);
      StepEnds(s, acts[0], n);
      StepKeepsInv(s, acts[0]);
      RunEnds(Step(s, acts[0]), acts[1..], n);
    }
  }

  lemma SentIsSent(s: State, h: nat)
    requires Numbered(s) && Placed(s) && h in s.hands
    ensures var m := s.hands[h].batch.serial;
      m < |OnDispatch(s, h).place| && OnDispatch(s, h).place[m] == Sent
  {
    HeldIsThere(s, h);
  }

  lemma LostIsGone(s: State, a: Action, m: nat)
    requires Numbered(s) && Placed(s) && Enabled(s, a) && m in LostBy(s, a)
    ensures m < |Step(s, a).place| && Gone(Step(s, a).place[m])
  {
    StepLoses(s, a);
    assert m in GoneAt(Step(s, a).place);
  }

  /** What a run has lost at its end is what its steps lose. */
  lemma FirstFits(s: State, acts: seq<Action>, gone: set<nat>)
    requires Inv(s) && acts != [] && Exec(s, acts).Some? && gone == GoneAt(Exec(s, acts).value.place)
    ensures Fits(s, acts[0], gone)
  {
    var a := acts[0];
    InvIsReached(s);
    StepKeepsInv(s, a);
    if a.Dispatch? {
      SentIsSent(s, a.hand);
      RunEnds(Step(s, a), acts[1..], s.hands[a.hand].batch.serial);
    }
    forall m | m in LostBy(s, a) ensures m in gone {
      LostIsGone(s, a, m);
      RunEnds(Step(s, a), acts[1..], m);
    }
  }

  lemma {:induction false} RunOrder(s: State, acts: seq<Action>, key: Sender, gone: set<nat>)
    requires Inv(s) && Exec(s, acts).Some? && gone == GoneAt(Exec(s, acts).value.place)
    ensures |s.place| == |s.log| && |Exec(s, acts).value.place| == |Exec(s, acts).value.log|
    ensures OnTime(s, key, gone) && InTurn(s, acts, key, gone) ==> OnTime(Exec(s, acts).value, key, gone)
    ensures Disordered(s, key, gone) || !InTurn(s, acts, key, gone) ==> Disordered(Exec(s, acts).value, key, gone)
    decreases |acts|
  {
    if acts != [] {
      var a := acts[0];
      InvIsReached(s);
      FirstFits(s, acts, gone);
      StepKeepsInv(s, a);
      RunOrder(Step(s, a), acts[1..], key, gone);
      if Overtakes(s, a, key, gone) {
        OvertakingDisorders(s, a, key, gone);
      } else if OnTime(s, key, gone) {
        StepOnTime(s, a, key, gone);
      }
      if Disordered(s, key, gone) {
        StepDisordered(s, a, key, gone);
      }
    }
  }

  lemma NoneHeld(s: State, xs: seq<nat>, key: Sender, gone: set<nat>)
    requires Placed(s) && s.hands == map[]
    ensures !Passed(s.log, s.place, xs, key, gone)
  {
    forall x: nat, n: nat | x in xs && Older(s.log, key, n, x, gone) ensures !s.place[n].InHand? {
      assert Holds(s, n, s.place[n]) <==> !Gone(s.place[n]);
    }
  }

  /**
    A drained run has sent a sender's batches in the order in which they were opened exactly if no
    dispatch took place while an older batch of that sender, other than those that the run lost,
    was in somebody's hands.
   */
  lemma SentInOrderExactlyIf(acts: seq<Action>, key: Sender)
    requires Exec(Init(), acts).Some? && Quiet(Exec(Init(), acts).value)
    ensures SentInOrder(Exec(Init(), acts).value, key) <==> InTurn(Init(), acts, key, LostIn(Init(), acts))
  {
    var s, gone := Exec(Init(), acts).value, LostIn(Init(), acts);
    RunKeepsInv(Init(), acts);
    RunLoses(Init(), acts);
    assert GoneAt(s.place) == gone;
    RunOrder(Init(), acts, key, gone);
    NoneHeld(s, SerialsOf(s, key), key, gone);
  }

  function PendingSerials(s: State): set<nat> {
    set k | k in s.pending :: s.pending[k].serial
  }

  /**
    In that case the sender's messages were sent exactly as they arrived, batch by batch, but for
    the batches that were lost or are still pending.
   */
  lemma SentAsArrived(acts: seq<Action>, key: Sender)
    requires Exec(Init(), acts).Some? && Quiet(Exec(Init(), acts).value)
    requires InTurn(Init(), acts, key, LostIn(Init(), acts))
    ensures var s := Exec(Init(), acts).value;
      && MembersOf(s.log, SentSerials(s.log, s.sent, key)) == GatheredBut(s.log, key, LostIn(Init(), acts) + PendingSerials(s))
      && (LoopUp(acts) && NoFailure(acts) ==>
            MembersOf(s.log, SentSerials(s.log, s.sent, key)) == ArrivedFrom(s.arrived, key))
  {
    var s, gone := Exec(Init(), acts).value, LostIn(Init(), acts) + PendingSerials(Exec(Init(), acts).value);
    SentInOrderExactlyIf(acts, key);
    forall n: nat | n < |s.log| ensures Holds(s, n, Sent) <==> n !in gone {
      SentExactlyIf(acts, n);
      assert Holds(s, n, Pending) <==> n in PendingSerials(s);
    }
    OrderedIsGathered(s, key, gone);
    if LoopUp(acts) && NoFailure(acts) {
      AllSentExactlyIf(acts);
      FailuresLose(Init(), acts);
      assert gone == {};
      GatheredButNone(s.log, key);
    }
  }

  lemma OrderedIsGathered(s: State, key: Sender, gone: set<nat>)
    requires SentInOrder(s, key) && forall n: nat :: n < |s.log| ==> (Holds(s, n, Sent) <==> n !in gone)
    ensures MembersOf(s.log, SentSerials(s.log, s.sent, key)) == GatheredBut(s.log, key, gone)
  {
    OpenedButSpec(s.log, key, gone);
    forall x: nat ensures x in SentSerials(s.log, s.sent, key) <==> x in OpenedBut(s.log, key, gone) {
      SentSerialsSpec(s.log, s.sent, key, x);
      assert x < |s.log| ==> (Holds(s, x, Sent) <==> x !in gone);
    }
    IncreasingUnique(SentSerials(s.log, s.sent, key), OpenedBut(s.log, key, gone));
    GatheredIsMembers(s.log, key, gone);
  }

  // A run in which a preparation raises

  ghost predicate RunsTo(acts: seq<Action>, s: State) {
    Exec(Init(), acts) == Some(s) && LoopUp(acts)
  }

  lemma {:induction false} ExecOneMore(s: State, acts: seq<Action>, a: Action)
    requires Exec(s, acts).Some? && Enabled(Exec(s, acts).value, a)
    ensures Exec(s, acts + [a]) == Some(Step(Exec(s, acts).value, a))
    decreases |acts|
  {
    if acts == [] {
      assert [] + [a] == [a] && [a][1..] == [];
      assert Exec(s, [a]) == Exec(Step(s, a), []);
    } else {
      assert (acts + [a])[1..] == acts[1..] + [a];
      ExecOneMore(Step(s, acts[0]), acts[1..], a);
    }
  }

  lemma Onward(acts: seq<Action>, s: State, a: Action) returns (acts': seq<Action>, s': State)
    requires RunsTo(acts, s) && Enabled(s, a) && (a.ScheduleFlush? || a.SchedulePrepare? ==> a.loopUp)
    ensures s' == Step(s, a) && RunsTo(acts', s')
  {
    acts', s' := acts + [a], Step(s, a);
    ExecOneMore(Init(), acts, a);
  }

  lemma OneOpened(key: Sender, m0: Message) returns (acts: seq<Action>, s: State)
    requires Batchable(m0)
    ensures RunsTo(acts, s) && s.sent == [] && s.nextId == 2 && |s.log| == 1 && s.log[0].key == key && s.hands == map[]
    ensures s.pending == map[key := Opened(0, m0, 0.0)] && s.flushes == map[] && s.timers == map[1 := Timer(0, key, m0.id)]
    ensures s.place == [Pending] && s.arrived == [(key, Arrival(m0, 0.0))]
  {
    acts, s := [], Init();
    acts, s := Onward(acts, s, Arrive(key, m0, 0.0));
    acts, s := Onward(acts, s, ScheduleFlush(0, true));
  }

  /** With the loop up all the time, a preparation that raises loses its batch and all its messages. */
  lemma PreparationCanLose(key: Sender, m0: Message)
    requires Batchable(m0)
    ensures exists acts, s ::
      && RunsTo(acts, s) && Quiet(s)
      && s.sent == [] && s.place == [Failed] && s.arrived == [(key, Arrival(m0, 0.0))]
  {
    var acts, s := OneOpened(key, m0);
    acts, s := Onward(acts, s, Fire(1));
    assert s.hands == map[2 := Held(Opened(0, m0, 0.0), true)] && s.timers == map[];
    assert s.place == [InHand(2)];
    acts, s := Onward(acts, s, Fail(2));
    assert s.hands == map[] && s.place == [Failed];
  }
}
