/**
  Feishu's batching with a clock: a timer fires no earlier than its sleep allows, and a batch in
  hand remembers since when.
 */
module FeishuTiming {
  import opened Wrappers
  import opened FeishuBatches

  datatype Timed = Timed(
    state: State,
    clock: real,
    due: map<nat, real>,        // when a timer's sleep is over
    since: map<nat, real>)      // when a batch came into somebody's hands

  /** A step and its moment. */
  datatype Tick = Tick(action: Action, at: real)

  predicate CanTick(t: Timed, k: Tick) {
    && Enabled(t.state, k.action) && t.clock <= k.at
    && (k.action.Arrive? ==> k.action.now == k.at)
    && (k.action.Fire? ==> k.action.timer in t.due && t.due[k.action.timer] <= k.at)
  }

  function Ticked(t: Timed, k: Tick): Timed
    requires CanTick(t, k)
  {
    var s, s' := t.state, Step(t.state, k.action);
    Timed(s', k.at,
          if k.action.ScheduleFlush? && k.action.loopUp then t.due[s.nextId := k.at + WINDOW_SECONDS] else t.due,
          if s.nextId in s'.hands then t.since[s.nextId := k.at] else t.since)
  }

  function Begin(start: real): Timed {
    Timed(Init(), start, map[], map[])
  }

  function Run(t: Timed, ticks: seq<Tick>): Option<Timed>
    decreases |ticks|
  {
    if ticks == [] then Some(t)
    else if CanTick(t, ticks[0]) then Run(Ticked(t, ticks[0]), ticks[1..])
    else None
  }

  function Actions(ticks: seq<Tick>): seq<Action> {
    if ticks == [] then [] else [ticks[0].action] + Actions(ticks[1..])
  }

  /** A timed run is a run. */
  lemma {:induction false} RunIsExec(t: Timed, ticks: seq<Tick>)
    requires Run(t, ticks).Some?
    ensures Exec(t.state, Actions(ticks)) == Some(Run(t, ticks).value.state)
    decreases |ticks|
  {
    if ticks != [] {
      assert Actions(ticks)[0] == ticks[0].action && Actions(ticks)[1..] == Actions(ticks[1..]);
      RunIsExec(Ticked(t, ticks[0]), ticks[1..]);
    }
  }

  // What a caller can see to

  /** No arrival of the sender carries the id of a message that has opened a batch of it. */
  predicate NewId(s: State, a: Action, key: Sender) {
    a.Arrive? && a.key == key ==> forall n :: 0 <= n < |s.log| && s.log[n].key == key ==> s.log[n].batch.anchor != a.message.id
  }

  /** Every batch of the sender in somebody's hands got there less than a window ago. */
  ghost predicate Prompt(t: Timed, at: real, key: Sender) {
    forall h :: h in t.state.hands && h in t.since && IsOf(t.state, t.state.hands[h].batch.serial, key) ==>
      at < t.since[h] + WINDOW_SECONDS
  }

  ghost predicate PromptRun(t: Timed, ticks: seq<Tick>, key: Sender)
    decreases |ticks|
  {
    ticks == [] ||
    (CanTick(t, ticks[0]) && Prompt(t, ticks[0].at, key) && NewId(t.state, ticks[0].action, key)
     && PromptRun(Ticked(t, ticks[0]), ticks[1..], key))
  }

  // What every timed step keeps

  ghost predicate Past(log: seq<Record>, clock: real, key: Sender) {
    forall n :: 0 <= n < |log| && log[n].key == key ==> log[n].batch.createdAt <= clock
  }

  ghost predicate OwnAnchors(log: seq<Record>, key: Sender) {
    forall m, n :: 0 <= m < n < |log| && log[m].key == key && log[n].key == key ==> log[m].batch.anchor != log[n].batch.anchor
  }

  /** The timer was scheduled for the batch. */
  predicate For(log: seq<Record>, x: Timer, key: Sender) {
    x.key == key ==> x.serial < |log| && log[x.serial].key == key && log[x.serial].batch.anchor == x.anchor
  }

  ghost predicate FlushesGood(log: seq<Record>, flushes: map<nat, Timer>, key: Sender) {
    forall c :: c in flushes ==> For(log, flushes[c], key)
  }

  ghost predicate TimersGood(log: seq<Record>, timers: map<nat, Timer>, due: map<nat, real>, key: Sender) {
    forall x :: x in timers && timers[x].key == key ==>
      && For(log, timers[x], key)
      && x in due && due[x] >= log[timers[x].serial].batch.createdAt + WINDOW_SECONDS
  }

  /** A batch is taken a window after it was opened at the earliest, and before its sender's next is opened. */
  ghost predicate HandGood(log: seq<Record>, since: map<nat, real>, clock: real, h: nat, n: nat, key: Sender) {
    n < |log| && log[n].key == key ==>
      && h in since
      && log[n].batch.createdAt + WINDOW_SECONDS <= since[h] <= clock
      && forall m :: n < m < |log| && log[m].key == key ==> since[h] <= log[m].batch.createdAt
  }

  ghost predicate HandsGood(log: seq<Record>, hands: map<nat, Held>, since: map<nat, real>, clock: real, key: Sender) {
    forall h :: h in hands ==> HandGood(log, since, clock, h, hands[h].batch.serial, key)
  }

  ghost predicate TimedInv(t: Timed, key: Sender) {
    var s := t.state;
    && Inv(s) && Past(s.log, t.clock, key) && OwnAnchors(s.log, key)
    && FlushesGood(s.log, s.flushes, key) && TimersGood(s.log, s.timers, t.due, key)
    && HandsGood(s.log, s.hands, t.since, t.clock, key)
  }

  /** The log grows by batches opened at `clock`; a batch keeps its sender, its anchor and its time. */
  ghost predicate LogKept(log: seq<Record>, log': seq<Record>, clock: real) {
    && |log| <= |log'|
    && (forall n :: 0 <= n < |log| ==>
          log'[n].key == log[n].key && log'[n].batch.anchor == log[n].batch.anchor && log'[n].batch.createdAt == log[n].batch.createdAt)
    && (forall n :: |log| <= n < |log'| ==> log'[n].batch.createdAt == clock)
  }

  lemma TimersStay(log: seq<Record>, log': seq<Record>, clock: real, timers: map<nat, Timer>, due: map<nat, real>, key: Sender)
    requires LogKept(log, log', clock) && TimersGood(log, timers, due, key)
    ensures TimersGood(log', timers, due, key)
  {
  }

  lemma FlushesStay(log: seq<Record>, log': seq<Record>, clock: real, flushes: map<nat, Timer>, key: Sender)
    requires LogKept(log, log', clock) && FlushesGood(log, flushes, key)
    ensures FlushesGood(log', flushes, key)
  {
  }

  lemma HandStays(log: seq<Record>, log': seq<Record>, since: map<nat, real>, since': map<nat, real>, clock: real, at: real,
                  h: nat, n: nat, key: Sender)
    requires LogKept(log, log', at) && clock <= at && n < |log| && HandGood(log, since, clock, h, n, key)
    requires h in since ==> h in since' && since'[h] == since[h]
    ensures HandGood(log', since', at, h, n, key)
  {
  }

  /** The hands that were there stay good, whoever's they are. */
  lemma HandsStayGood(log: seq<Record>, log': seq<Record>, hands: map<nat, Held>, hands': map<nat, Held>,
                      since: map<nat, real>, since': map<nat, real>, clock: real, at: real, key: Sender)
    requires LogKept(log, log', at) && clock <= at && HandsGood(log, hands, since, clock, key)
    requires forall h :: h in hands ==> hands[h].batch.serial < |log|
    requires forall h :: h in hands' ==> h in hands && hands'[h].batch.serial == hands[h].batch.serial
    requires forall h :: h in hands' && h in since ==> h in since' && since'[h] == since[h]
    ensures HandsGood(log', hands', since', at, key)
  {
    forall h | h in hands' ensures HandGood(log', since', at, h, hands'[h].batch.serial, key) {
      assert HandGood(log, since, clock, h, hands[h].batch.serial, key);
      HandStays(log, log', since, since', clock, at, h, hands[h].batch.serial, key);
    }
  }

  lemma OneMoreHand(log: seq<Record>, hands: map<nat, Held>, since: map<nat, real>, clock: real, h: nat, held: Held, at: real, key: Sender)
    requires HandsGood(log, hands, since, clock, key) && h !in hands
    requires HandGood(log, since[h := at], clock, h, held.batch.serial, key)
    ensures HandsGood(log, hands[h := held], since[h := at], clock, key)
  {
    forall g | g in hands ensures HandGood(log, since[h := at], clock, g, hands[g].batch.serial, key) {
      assert HandGood(log, since, clock, g, hands[g].batch.serial, key);
    }
  }

  // Arrivals

  lemma AppendLog(s: State, key: Sender, x: Arrival)
    requires key in s.pending
    ensures LogKept(s.log, Append(s, key, x).log, x.at)
  {
  }

  lemma OpenLog(s: State, key: Sender, x: Arrival)
    ensures LogKept(s.log, Reopen(s, key, x).log, x.at)
  {
  }

  lemma NoNewHand(t: Timed, s': State, at: real, key: Sender)
    requires TimedInv(t, key) && t.clock <= at && LogKept(t.state.log, s'.log, at)
    requires forall h :: h in s'.hands ==> h in t.state.hands && s'.hands[h].batch.serial == t.state.hands[h].batch.serial
    ensures HandsGood(s'.log, s'.hands, t.since, at, key)
  {
    var s := t.state;
    assert forall h :: h in s.hands ==> Faithful(s, s.hands[h].batch);
    HandsStayGood(s.log, s'.log, s.hands, s'.hands, t.since, t.since, t.clock, at, key);
  }

  lemma ExpiredIsGood(t: Timed, key: Sender, k: Sender, x: Arrival)
    requires TimedInv(t, key) && t.clock <= x.at && k in t.state.pending && !Joins(t.state, k, x.at)
    ensures var s' := Reopen(t.state, k, x);
      HandGood(s'.log, t.since[t.state.nextId := x.at], x.at, t.state.nextId, t.state.pending[k].serial, key)
  {
    var s, b := t.state, t.state.pending[k];
    OpenLog(s, k, x);
    assert Faithful(s, b) && s.log[b.serial].key == k;
  }

  /** A batch that expires is taken when its sender's next is opened. */
  lemma ExpiredHand(t: Timed, key: Sender, k: Sender, x: Arrival)
    requires TimedInv(t, key) && t.clock <= x.at && k in t.state.pending && !Joins(t.state, k, x.at)
    ensures var s' := Reopen(t.state, k, x);
      HandsGood(s'.log, s'.hands, t.since[t.state.nextId := x.at], x.at, key)
  {
    var s, s' := t.state, Reopen(t.state, k, x);
    OpenLog(s, k, x);
    assert forall h :: h in s.hands ==> Faithful(s, s.hands[h].batch) && h < s.nextId;
    HandsStayGood(s.log, s'.log, s.hands, s.hands, t.since, t.since, t.clock, x.at, key);
    ExpiredIsGood(t, key, k, x);
    OneMoreHand(s'.log, s.hands, t.since, x.at, s.nextId, Held(s.pending[k], false), x.at, key);
  }

  lemma PastStays(log: seq<Record>, log': seq<Record>, clock: real, at: real, key: Sender)
    requires LogKept(log, log', at) && clock <= at && Past(log, clock, key)
    ensures Past(log', at, key)
  {
  }

  /** A new batch of the sender is opened by a message with a new id. */
  lemma AnchorsStay(s: State, key: Sender, k: Sender, x: Arrival)
    requires OwnAnchors(s.log, key) && NewId(s, Arrive(k, x.message, x.at), key)
    ensures OwnAnchors(OnArrive(s, k, x).log, key)
  {
  }

  lemma OpenFlushes(s: State, key: Sender, k: Sender, x: Arrival)
    requires FlushesGood(s.log, s.flushes, key)
    ensures FlushesGood(Reopen(s, k, x).log, Reopen(s, k, x).flushes, key)
  {
    OpenLog(s, k, x);
    FlushesStay(s.log, Reopen(s, k, x).log, x.at, s.flushes, key);
  }

  lemma ArriveLog(s: State, k: Sender, x: Arrival)
    ensures LogKept(s.log, OnArrive(s, k, x).log, x.at)
  {
    if Joins(s, k, x.at) {
      AppendLog(s, k, x);
    } else {
      OpenLog(s, k, x);
    }
  }

  lemma ArriveHands(t: Timed, key: Sender, k: Tick)
    requires TimedInv(t, key) && CanTick(t, k) && k.action.Arrive?
    ensures var t' := Ticked(t, k); HandsGood(t'.state.log, t'.state.hands, t'.since, t'.clock, key)
  {
    var s, x := t.state, Arrival(k.action.message, k.at);
    ArriveLog(s, k.action.key, x);
    assert s.nextId !in s.hands;
    if !Joins(s, k.action.key, x.at) && k.action.key in s.pending {
      ExpiredHand(t, key, k.action.key, x);
    } else {
      NoNewHand(t, OnArrive(s, k.action.key, x), k.at, key);
    }
  }

  lemma ArriveTimers(t: Timed, key: Sender, k: Tick)
    requires TimedInv(t, key) && CanTick(t, k) && k.action.Arrive?
    ensures var t' := Ticked(t, k);
      TimersGood(t'.state.log, t'.state.timers, t'.due, key) && FlushesGood(t'.state.log, t'.state.flushes, key)
  {
    var s, x := t.state, Arrival(k.action.message, k.at);
    var s' := OnArrive(s, k.action.key, x);
    ArriveLog(s, k.action.key, x);
    TimersStay(s.log, s'.log, k.at, s.timers, t.due, key);
    FlushesStay(s.log, s'.log, k.at, s.flushes, key);
    if !Joins(s, k.action.key, x.at) {
      OpenFlushes(s, key, k.action.key, x);
    }
  }

  lemma ArriveTicked(t: Timed, key: Sender, k: Tick)
    requires TimedInv(t, key) && CanTick(t, k) && k.action.Arrive? && NewId(t.state, k.action, key)
    ensures TimedInv(Ticked(t, k), key)
  {
    var x := Arrival(k.action.message, k.at);
    StepKeepsInv(t.state, k.action);
    ArriveLog(t.state, k.action.key, x);
    PastStays(t.state.log, Ticked(t, k).state.log, t.clock, k.at, key);
    AnchorsStay(t.state, key, k.action.key, x);
    ArriveHands(t, key, k);
    ArriveTimers(t, key, k);
  }

  // Timers

  /** The timer's sleep begins after its batch was opened. */
  lemma FlushTicked(t: Timed, key: Sender, k: Tick)
    requires TimedInv(t, key) && CanTick(t, k) && k.action.ScheduleFlush?
    ensures TimedInv(Ticked(t, k), key)
  {
    var s, c := t.state, k.action.call;
    StepKeepsInv(s, k.action);
    assert s.nextId !in s.hands && s.nextId !in s.timers;
    assert For(s.log, s.flushes[c], key);
    NoNewHand(t, Ticked(t, k).state, k.at, key);
  }

  /** With anchors of its own, a sender's batch is popped by its own timer. */
  lemma PoppedByItsOwn(t: Timed, key: Sender, x: nat)
    requires TimedInv(t, key) && x in t.state.timers && t.state.timers[x].key == key && Pops(t.state, t.state.timers[x])
    ensures t.state.pending[key].serial == t.state.timers[x].serial
    ensures x in t.due && t.due[x] >= t.state.log[t.state.timers[x].serial].batch.createdAt + WINDOW_SECONDS
  {
    var s := t.state;
    assert Faithful(s, s.pending[key]) && s.log[s.pending[key].serial].key == key;
    assert For(s.log, s.timers[x], key);
  }

  lemma PoppedHand(t: Timed, key: Sender, k: Tick)
    requires TimedInv(t, key) && CanTick(t, k) && k.action.Fire? && Pops(t.state, t.state.timers[k.action.timer])
    ensures HandsGood(t.state.log, Step(t.state, k.action).hands, t.since[t.state.nextId := k.at], k.at, key)
  {
    var s, x := t.state, t.state.timers[k.action.timer];
    var b := s.pending[x.key];
    NoNewHand(t, s, k.at, key);
    assert Faithful(s, b) && s.log[b.serial].key == x.key;
    if x.key == key {
      PoppedByItsOwn(t, key, k.action.timer);
    }
    assert HandGood(s.log, t.since[s.nextId := k.at], k.at, s.nextId, b.serial, key);
    OneMoreHand(s.log, s.hands, t.since, k.at, s.nextId, Held(b, true), k.at, key);
  }

  lemma FireTicked(t: Timed, key: Sender, k: Tick)
    requires TimedInv(t, key) && CanTick(t, k) && k.action.Fire?
    ensures TimedInv(Ticked(t, k), key)
  {
    var s := t.state;
    StepKeepsInv(s, k.action);
    assert s.nextId !in s.hands;
    if Pops(s, s.timers[k.action.timer]) {
      PoppedHand(t, key, k);
    } else {
      NoNewHand(t, Ticked(t, k).state, k.at, key);
    }
  }

  // Hands

  lemma HandStep(s: State, a: Action)
    requires Enabled(s, a) && (a.SchedulePrepare? || a.Dispatch? || a.Fail?)
    ensures var s' := Step(s, a);
      && s'.log == s.log && s'.flushes == s.flushes && s'.timers == s.timers
      && forall h :: h in s'.hands ==> h in s.hands && s'.hands[h].batch.serial == s.hands[h].batch.serial
  {
  }

  lemma HandTicked(t: Timed, key: Sender, k: Tick)
    requires TimedInv(t, key) && CanTick(t, k) && (k.action.SchedulePrepare? || k.action.Dispatch? || k.action.Fail?)
    ensures TimedInv(Ticked(t, k), key)
  {
    StepKeepsInv(t.state, k.action);
    HandStep(t.state, k.action);
    assert t.state.nextId !in t.state.hands;
    var t' := Ticked(t, k);
    assert t'.since == t.since && t'.due == t.due;
    NoNewHand(t, t'.state, k.at, key);
  }

  lemma TickKeepsInv(t: Timed, key: Sender, k: Tick)
    requires TimedInv(t, key) && CanTick(t, k) && NewId(t.state, k.action, key)
    ensures TimedInv(Ticked(t, k), key)
  {
    match k.action
    case Arrive(_, _, _) => ArriveTicked(t, key, k);
    case ScheduleFlush(_, _) => FlushTicked(t, key, k);
    case Fire(_) => FireTicked(t, key, k);
    case _ => HandTicked(t, key, k);
  }

  /** What is overtaken has been in hand for a window at least. */
  lemma OvertakenWaited(t: Timed, key: Sender, h: nat, g: nat, gone: set<nat>)
    requires TimedInv(t, key) && h in t.state.hands && g in t.state.hands
    requires IsOf(t.state, t.state.hands[g].batch.serial, key) && Overtaken(t.state, h, t.state.hands[g].batch.serial, key, gone)
    ensures h in t.since && t.since[h] + WINDOW_SECONDS <= t.clock
  {
    var s := t.state;
    assert HandGood(s.log, t.since, t.clock, h, s.hands[h].batch.serial, key);
    assert HandGood(s.log, t.since, t.clock, g, s.hands[g].batch.serial, key);
  }

  lemma PromptMeansInTurn(t: Timed, key: Sender, k: Tick, gone: set<nat>)
    requires TimedInv(t, key) && CanTick(t, k) && Prompt(t, k.at, key)
    ensures !Overtakes(t.state, k.action, key, gone)
  {
    var s := t.state;
    if k.action.Dispatch? && IsOf(s, s.hands[k.action.hand].batch.serial, key) {
      forall h | h in s.hands ensures !Overtaken(s, h, s.hands[k.action.hand].batch.serial, key, gone) {
        if Overtaken(s, h, s.hands[k.action.hand].batch.serial, key, gone) {
          OvertakenWaited(t, key, h, k.action.hand, gone);
        }
      }
    }
  }

  lemma {:induction false} PromptRunIsInTurn(t: Timed, ticks: seq<Tick>, key: Sender, gone: set<nat>)
    requires TimedInv(t, key) && PromptRun(t, ticks, key)
    ensures InTurn(t.state, Actions(ticks), key, gone)
    decreases |ticks|
  {
    if ticks != [] {
      assert Actions(ticks)[0] == ticks[0].action && Actions(ticks)[1..] == Actions(ticks[1..]);
      PromptMeansInTurn(t, key, ticks[0], gone);
      TickKeepsInv(t, key, ticks[0]);
      PromptRunIsInTurn(Ticked(t, ticks[0]), ticks[1..], key, gone);
    }
  }

  /**
    If every batch of a sender is prepared within a window of coming into somebody's hands, and no
    message id of the sender comes twice, a drained run sends the sender's batches in order, and
    all its messages as they arrived but for those in batches that were lost or are pending.
   */
  lemma PromptPreparationKeepsOrder(start: real, ticks: seq<Tick>, key: Sender)
    requires PromptRun(Begin(start), ticks, key) && Run(Begin(start), ticks).Some?
    requires Quiet(Run(Begin(start), ticks).value.state)
    ensures var s := Run(Begin(start), ticks).value.state;
      && SentInOrder(s, key)
      && MembersOf(s.log, SentSerials(s.log, s.sent, key))
         == GatheredBut(s.log, key, LostIn(Init(), Actions(ticks)) + PendingSerials(s))
  {
    RunIsExec(Begin(start), ticks);
    PromptRunIsInTurn(Begin(start), ticks, key, LostIn(Init(), Actions(ticks)));
    SentInOrderExactlyIf(Actions(ticks), key);
    SentAsArrived(Actions(ticks), key);
  }

  // The bound is sharp

  ghost predicate Reaches(ticks: seq<Tick>, t: Timed) {
    Run(Begin(0.0), ticks) == Some(t) && LoopUp(Actions(ticks)) && NoFailure(Actions(ticks))
  }

  lemma {:induction false} ActionsAppend(ticks: seq<Tick>, k: Tick)
    ensures Actions(ticks + [k]) == Actions(ticks) + [k.action]
  {
    if ticks == [] {
      assert [] + [k] == [k] && [k][1..] == [];
    } else {
      assert (ticks + [k])[1..] == ticks[1..] + [k];
      ActionsAppend(ticks[1..], k);
    }
  }

  lemma {:induction false} RunOneMore(t: Timed, ticks: seq<Tick>, k: Tick)
    requires Run(t, ticks).Some? && CanTick(Run(t, ticks).value, k)
    ensures Run(t, ticks + [k]) == Some(Ticked(Run(t, ticks).value, k))
    decreases |ticks|
  {
    if ticks == [] {
      assert [] + [k] == [k] && [k][1..] == [];
      assert Run(t, [k]) == Run(Ticked(t, k), []);
    } else {
      assert (ticks + [k])[1..] == ticks[1..] + [k];
      RunOneMore(Ticked(t, ticks[0]), ticks[1..], k);
    }
  }

  lemma Then(ticks: seq<Tick>, t: Timed, a: Action, at: real) returns (ticks': seq<Tick>, t': Timed)
    requires Reaches(ticks, t) && CanTick(t, Tick(a, at))
    requires (a.ScheduleFlush? || a.SchedulePrepare? ==> a.loopUp) && !a.Fail?
    ensures t' == Ticked(t, Tick(a, at)) && Reaches(ticks', t')
  {
    var k := Tick(a, at);
    ticks', t' := ticks + [k], Ticked(t, k);
    RunOneMore(Begin(0.0), ticks, k);
    ActionsAppend(ticks, k);
  }

  lemma OneOpenedAt(key: Sender, m0: Message) returns (ticks: seq<Tick>, t: Timed)
    requires Batchable(m0)
    ensures Reaches(ticks, t) && t.clock == 0.0 && t.since == map[] && t.due == map[1 := WINDOW_SECONDS]
    ensures t.state.sent == [] && t.state.nextId == 2 && t.state.hands == map[] && t.state.flushes == map[]
    ensures |t.state.log| == 1 && t.state.log[0].key == key
    ensures t.state.pending == map[key := Opened(0, m0, 0.0)] && t.state.timers == map[1 := Timer(0, key, m0.id)]
  {
    ticks, t := [], Begin(0.0);
    ticks, t := Then(ticks, t, Arrive(key, m0, 0.0), 0.0);
    ticks, t := Then(ticks, t, ScheduleFlush(0, true), 0.0);
  }

  /** The first batch expires when the second one is opened. */
  lemma SecondOpenedAt(key: Sender, m0: Message, m1: Message) returns (ticks: seq<Tick>, t: Timed)
    requires Batchable(m0) && Batchable(m1)
    ensures Reaches(ticks, t) && t.clock == 1.0 && t.since == map[2 := 1.0] && t.due == map[1 := WINDOW_SECONDS]
    ensures t.state.sent == [] && t.state.nextId == 4 && t.state.flushes == map[3 := Timer(1, key, m1.id)]
    ensures t.state.hands == map[2 := Held(Opened(0, m0, 0.0), false)]
    ensures |t.state.log| == 2 && t.state.log[0].key == key && t.state.log[1].key == key
    ensures t.state.pending == map[key := Opened(1, m1, 1.0)] && t.state.timers == map[1 := Timer(0, key, m0.id)]
  {
    ticks, t := OneOpenedAt(key, m0);
    ticks, t := Then(ticks, t, Arrive(key, m1, 1.0), 1.0);
  }

  lemma BothScheduled(key: Sender, m0: Message, m1: Message) returns (ticks: seq<Tick>, t: Timed)
    requires Batchable(m0) && Batchable(m1)
    ensures Reaches(ticks, t) && t.clock == 1.0 && t.since == map[2 := 1.0]
    ensures t.due == map[1 := WINDOW_SECONDS, 4 := 1.0 + WINDOW_SECONDS]
    ensures t.state.sent == [] && t.state.nextId == 5 && t.state.flushes == map[]
    ensures t.state.hands == map[2 := Held(Opened(0, m0, 0.0), true)]
    ensures |t.state.log| == 2 && t.state.log[0].key == key && t.state.log[1].key == key
    ensures t.state.pending == map[key := Opened(1, m1, 1.0)]
    ensures t.state.timers == map[1 := Timer(0, key, m0.id), 4 := Timer(1, key, m1.id)]
  {
    ticks, t := SecondOpenedAt(key, m0, m1);
    ticks, t := Then(ticks, t, SchedulePrepare(2, true), 1.0);
    assert t.state.hands == map[2 := Held(Opened(0, m0, 0.0), true)] && t.since == map[2 := 1.0];
    ticks, t := Then(ticks, t, ScheduleFlush(3, true), 1.0);
  }

  lemma BothInHand(key: Sender, m0: Message, m1: Message) returns (ticks: seq<Tick>, t: Timed)
    requires Batchable(m0) && Batchable(m1)
    ensures Reaches(ticks, t) && t.clock == 1.0 + WINDOW_SECONDS
    ensures t.due == map[1 := WINDOW_SECONDS, 4 := 1.0 + WINDOW_SECONDS]
    ensures t.since == map[2 := 1.0, 5 := 1.0 + WINDOW_SECONDS]
    ensures t.state.sent == [] && t.state.pending == map[] && t.state.flushes == map[] && t.state.nextId == 6
    ensures t.state.hands == map[2 := Held(Opened(0, m0, 0.0), true), 5 := Held(Opened(1, m1, 1.0), true)]
    ensures |t.state.log| == 2 && t.state.log[0].key == key && t.state.log[1].key == key
    ensures t.state.timers == map[1 := Timer(0, key, m0.id)]
  {
    ticks, t := BothScheduled(key, m0, m1);
    ticks, t := Then(ticks, t, Fire(4), 1.0 + WINDOW_SECONDS);
  }

  lemma SecondSent(key: Sender, m0: Message, m1: Message) returns (ticks: seq<Tick>, t: Timed)
    requires Batchable(m0) && Batchable(m1)
    ensures Reaches(ticks, t) && t.clock == 1.0 + WINDOW_SECONDS
    ensures t.due == map[1 := WINDOW_SECONDS, 4 := 1.0 + WINDOW_SECONDS]
    ensures t.since == map[2 := 1.0, 5 := 1.0 + WINDOW_SECONDS]
    ensures t.state.sent == [Opened(1, m1, 1.0)] && t.state.pending == map[] && t.state.flushes == map[] && t.state.nextId == 6
    ensures t.state.hands == map[2 := Held(Opened(0, m0, 0.0), true)]
    ensures |t.state.log| == 2 && t.state.log[0].key == key && t.state.log[1].key == key
    ensures t.state.timers == map[1 := Timer(0, key, m0.id)]
  {
    ticks, t := BothInHand(key, m0, m1);
    ticks, t := Then(ticks, t, Dispatch(5), 1.0 + WINDOW_SECONDS);
  }

  /**
    For every preparation that takes a window or longer there is a drained run, with the event
    loop up and no failure, in which it is overtaken: the second of two batches is sent first.
   */
  lemma OvertakingHappens(key: Sender, m0: Message, m1: Message, delay: real)
    requires Batchable(m0) && Batchable(m1) && delay >= WINDOW_SECONDS
    ensures exists ticks, t ::
      && Reaches(ticks, t) && Quiet(t.state) && SentSerials(t.state.log, t.state.sent, key) == [1, 0]
      && 2 in t.since && t.clock - t.since[2] == delay
      && t.state.sent == [Opened(1, m1, 1.0), Opened(0, m0, 0.0)]
  {
    var ticks, t := SecondSent(key, m0, m1);
    ticks, t := Then(ticks, t, Dispatch(2), 1.0 + delay);
    assert t.state.sent == [Opened(1, m1, 1.0), Opened(0, m0, 0.0)] && t.state.hands == map[];
    ticks, t := Then(ticks, t, Fire(1), 1.0 + delay);
    SentTwo(t.state.log, t.state.sent, key);
  }

  lemma SentTwo(log: seq<Record>, sent: seq<Batch>, key: Sender)
    requires |sent| == 2 && sent[0].serial == 1 && sent[1].serial == 0
    requires |log| == 2 && log[0].key == key && log[1].key == key
    ensures SentSerials(log, sent, key) == [1, 0]
  {
    var one := sent[..1];
    assert one[..0] == [] && one[0].serial == 1;
    assert SentSerials(log, one, key) == SentSerials(log, [], key) + [1];
  }
}
