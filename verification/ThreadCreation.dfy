/**
  `_get_or_create_thread` under every interleaving of its tasks. A step is the code between
  two awaits; each read or write of the mapping and each lock operation is one step. The lock
  registry is pruned by every task that leaves the guarded region.
 */
module ThreadCreation {
  import opened Wrappers
  import opened ChannelStores

  type TaskId = nat
  type LockId = nat
  type ThreadId = nat

  /** The fields of an inbound message that route it. An empty string is a missing id. */
  datatype Message = Message(conversation: Conversation, connection: string, owner: string)

  /**
    Where a thread id is kept: the connection repository or the channel store. To both a missing
    topic and an empty one are the same; the lock's key tells them apart.
   */
  datatype Slot =
    | InRepository(connection: string, chat: string, topic: Option<string>)
    | InStore(key: string)

  /** Where a message is looked up, where a thread made for it is saved, and its registry key. */
  datatype Route = Route(lookup: Slot, save: Slot, lock: Conversation)

  function RouteOf(m: Message, hasRepository: bool): Route {
    var inRepository := InRepository(m.connection, m.conversation.chat, Normal(m.conversation.topic));
    var inStore := InStore(Key(m.conversation));
    Route(
      if m.connection != "" && hasRepository then inRepository else inStore,
      if m.connection != "" && m.owner != "" && hasRepository then inRepository else inStore,
      m.conversation)
  }

  /** The routes of the messages in play, one task each. */
  type Traffic = map<TaskId, Route>

  function TrafficOf(messages: map<TaskId, Message>, hasRepository: bool): Traffic {
    map t | t in messages :: RouteOf(messages[t], hasRepository)
  }

  datatype Pc =
    | Idle
    | Missed                                    // first lookup found nothing
    | Waiting(lock: LockId)
    | Inside(lock: LockId)
    | Missing(lock: LockId)                     // second lookup found nothing
    | Found(lock: LockId, id: ThreadId)         // second lookup found a thread
    | Created(lock: LockId, id: ThreadId)       // created, not yet saved
    | Kept(lock: LockId, id: ThreadId)          // created and saved
    | Done(id: ThreadId, created: bool)
    | Failed

  datatype State = State(
    pc: map<TaskId, Pc>,
    saved: map<Slot, ThreadId>,
    registry: map<Conversation, LockId>,
    holder: map<LockId, TaskId>,
    nextLock: LockId,
    nextThread: ThreadId,
    made: map<TaskId, ThreadId>)                // every creation so far, by its maker

  datatype Action =
    | Lookup(task: TaskId)
    | Enter(task: TaskId)
    | Acquire(task: TaskId)
    | Recheck(task: TaskId)
    | Create(task: TaskId)
    | Save(task: TaskId)
    | Leave(task: TaskId)
    | Fail(task: TaskId)                        // the pending await raises or is cancelled

  predicate HasLock(p: Pc) {
    p.Inside? || p.Missing? || p.Found? || p.Created? || p.Kept?
  }

  /** Past the point where a thread id is known. */
  predicate KnowsId(p: Pc) {
    p.Found? || p.Created? || p.Kept? || p.Done?
  }

  /** What a task that made a thread has come to. */
  predicate HasMade(p: Pc) {
    p.Created? || p.Kept? || (p.Done? && p.created)
  }

  predicate Enabled(w: Traffic, s: State, a: Action) {
    var t := a.task;
    t in w && t in s.pc &&
    match a
    case Lookup(_) => s.pc[t].Idle?
    case Enter(_) => s.pc[t].Missed?
    case Acquire(_) => s.pc[t].Waiting? && s.pc[t].lock !in s.holder
    case Recheck(_) => s.pc[t].Inside?
    case Create(_) => s.pc[t].Missing?
    case Save(_) => s.pc[t].Created?
    case Leave(_) => s.pc[t].Found? || s.pc[t].Kept?
    case Fail(_) => !s.pc[t].Done? && !s.pc[t].Failed?
  }

  function Step(w: Traffic, s: State, a: Action): State
    requires Enabled(w, s, a)
  {
    var t := a.task;
    match a
    case Lookup(_) =>
      var slot := w[t].lookup;
      s.(pc := s.pc[t := if slot in s.saved then Done(s.saved[slot], false) else Missed])
    case Enter(_) =>
      var key := w[t].lock;
      if key in s.registry then s.(pc := s.pc[t := Waiting(s.registry[key])])
      else s.(pc := s.pc[t := Waiting(s.nextLock)],
              registry := s.registry[key := s.nextLock],
              nextLock := s.nextLock + 1)
    case Acquire(_) =>
      s.(pc := s.pc[t := Inside(s.pc[t].lock)], holder := s.holder[s.pc[t].lock := t])
    case Recheck(_) =>
      var slot := w[t].lookup;
      s.(pc := s.pc[t := if slot in s.saved then Found(s.pc[t].lock, s.saved[slot]) else Missing(s.pc[t].lock)])
    case Create(_) =>
      s.(pc := s.pc[t := Created(s.pc[t].lock, s.nextThread)],
         nextThread := s.nextThread + 1,
         made := s.made[t := s.nextThread])
    case Save(_) =>
      s.(pc := s.pc[t := Kept(s.pc[t].lock, s.pc[t].id)], saved := s.saved[w[t].save := s.pc[t].id])
    case Leave(_) =>
      s.(pc := s.pc[t := Done(s.pc[t].id, s.pc[t].Kept?)],
         holder := s.holder - {s.pc[t].lock},
         registry := s.registry - {w[t].lock})
    case Fail(_) =>
      // Before the guarded region nothing is cleaned up; inside it, the lock is released
      // if held and the registry entry is dropped.
      if s.pc[t].Idle? || s.pc[t].Missed? then s.(pc := s.pc[t := Failed])
      else s.(pc := s.pc[t := Failed],
              holder := if HasLock(s.pc[t]) then s.holder - {s.pc[t].lock} else s.holder,
              registry := s.registry - {w[t].lock})
  }

  function Init(w: Traffic, saved: map<Slot, ThreadId>, nextThread: ThreadId): State {
    State(map t | t in w :: Idle, saved, map[], map[], 0, nextThread, map[])
  }

  /** Runs the actions in order; `None` when one of them is not enabled. */
  function Exec(w: Traffic, s: State, acts: seq<Action>): Option<State>
    decreases |acts|
  {
    if acts == [] then Some(s)
    else if Enabled(w, s, acts[0]) then Exec(w, Step(w, s, acts[0]), acts[1..])
    else None
  }

  predicate FailsOnly(acts: seq<Action>, failing: set<TaskId>) {
    forall i :: 0 <= i < |acts| && acts[i].Fail? ==> acts[i].task in failing
  }

  /** Two tasks of one conversation never make two threads and never return different ids. */
  ghost predicate OneThreadEach(w: Traffic, s: State) {
    forall t, u :: t in w && u in w && w[t].lookup == w[u].lookup ==>
      && (t in s.made && u in s.made ==> t == u)
      && (t in s.pc && u in s.pc && s.pc[t].Done? && s.pc[u].Done? ==> s.pc[t].id == s.pc[u].id)
  }

  /** The slot is shared by at least two tasks. */
  ghost predicate Shared(w: Traffic, t: TaskId) {
    t in w && exists u :: u in w && u != t && w[u].lookup == w[t].lookup
  }

  /** `v` is looked up in `t`'s slot, uses `t`'s lock and is saved in `t`'s slot: all three or none. */
  predicate Consistent(w: Traffic, t: TaskId, v: TaskId)
    requires t in w && v in w
  {
    && (w[v].lookup == w[t].lookup <==> w[v].lock == w[t].lock)
    && (w[v].lookup == w[t].lookup <==> w[v].save == w[t].lookup)
  }

  /** Every message agrees with every slot that two or more messages are looked up in. */
  ghost predicate Isolated(w: Traffic) {
    forall t, v :: Shared(w, t) && v in w ==> Consistent(w, t, v)
  }

  /** Only tasks that share their slot with no other fail. */
  ghost predicate FailsAlone(w: Traffic, failing: set<TaskId>) {
    forall t :: t in failing ==> !Shared(w, t)
  }

  /** The step is no failure of a task that shares its slot. */
  ghost predicate Harmless(w: Traffic, a: Action) {
    a.Fail? ==> !Shared(w, a.task)
  }

  // Safety: isolated traffic in which no task that shares its slot fails

  ghost predicate LocksAgree(w: Traffic, s: State) {
    && s.pc.Keys == w.Keys
    && (forall t :: t in s.pc && HasLock(s.pc[t]) ==> s.pc[t].lock in s.holder && s.holder[s.pc[t].lock] == t)
    && (forall l :: l in s.holder ==>
          s.holder[l] in s.pc && HasLock(s.pc[s.holder[l]]) && s.pc[s.holder[l]].lock == l)
  }

  /** Until a shared slot is filled, everyone at its lock uses the one lock in the registry. */
  ghost predicate UnsavedShareLock(w: Traffic, s: State)
    requires s.pc.Keys == w.Keys
  {
    forall t :: t in s.pc && Shared(w, t) && w[t].lookup !in s.saved ==>
      && !s.pc[t].Found? && !s.pc[t].Kept? && !s.pc[t].Done?
      && (s.pc[t].Waiting? || HasLock(s.pc[t]) ==>
            w[t].lock in s.registry && s.registry[w[t].lock] == s.pc[t].lock)
  }

  /** Once a shared slot is filled, nobody is creating for it and everyone reads the same id. */
  ghost predicate SavedIsFinal(w: Traffic, s: State)
    requires s.pc.Keys == w.Keys
  {
    forall t :: t in s.pc && Shared(w, t) && w[t].lookup in s.saved ==>
      && !s.pc[t].Missing? && !s.pc[t].Created?
      && (KnowsId(s.pc[t]) ==> s.pc[t].id == s.saved[w[t].lookup])
  }

  ghost predicate OneMaker(w: Traffic, s: State) {
    && (forall t :: t in s.made ==> t in s.pc && t in w)
    && (forall t :: t in s.made && Shared(w, t) ==> HasMade(s.pc[t]))
    && (forall t, u :: t in s.made && u in s.made && w[t].lookup == w[u].lookup ==> t == u)
  }

  ghost predicate Inv(w: Traffic, s: State) {
    LocksAgree(w, s) && UnsavedShareLock(w, s) && SavedIsFinal(w, s) && OneMaker(w, s)
  }

  lemma SharedPair(w: Traffic, t: TaskId, u: TaskId)
    requires t in w && u in w && t != u && w[t].lookup == w[u].lookup
    ensures Shared(w, t) && Shared(w, u)
  {
  }

  /** While a shared slot is empty, at most one of its tasks is in the guarded region. */
  lemma OneInside(w: Traffic, s: State, t: TaskId, u: TaskId)
    requires Isolated(w) && Inv(w, s)
    requires t in s.pc && u in s.pc && t != u && w[t].lookup == w[u].lookup
    requires w[t].lookup !in s.saved && HasLock(s.pc[t])
    ensures !HasLock(s.pc[u])
  {
    SharedPair(w, t, u);
    assert Consistent(w, t, u);
  }

  lemma ReleaseKeepsLocks(w: Traffic, s: State, a: Action)
    requires LocksAgree(w, s) && Enabled(w, s, a) && (a.Leave? || a.Fail?)
    ensures LocksAgree(w, Step(w, s, a))
  {
    var t, s' := a.task, Step(w, s, a);
    assert s'.holder == if HasLock(s.pc[t]) then s.holder - {s.pc[t].lock} else s.holder;
    forall u | u in s'.pc && HasLock(s'.pc[u])
      ensures s'.pc[u].lock in s'.holder && s'.holder[s'.pc[u].lock] == u
    {
      assert u != t && s'.pc[u] == s.pc[u];
    }
  }

  lemma StepKeepsLocks(w: Traffic, s: State, a: Action)
    requires LocksAgree(w, s) && Enabled(w, s, a)
    ensures LocksAgree(w, Step(w, s, a))
  {
    if a.Leave? || a.Fail? {
      ReleaseKeepsLocks(w, s, a);
    } else if !a.Acquire? {
      var t, s' := a.task, Step(w, s, a);
      assert s'.holder == s.holder && HasLock(s'.pc[t]) == HasLock(s.pc[t]);
      assert HasLock(s.pc[t]) ==> s'.pc[t].lock == s.pc[t].lock;
    }
  }

  /** A task that creates for a shared slot is the first to do so. */
  lemma OnlyMaker(w: Traffic, s: State, t: TaskId, u: TaskId)
    requires Isolated(w) && Inv(w, s) && t in s.pc && s.pc[t].Missing?
    requires u in s.made && w[u].lookup == w[t].lookup
    ensures u == t
  {
    if u != t {
      SharedPair(w, t, u);
      if w[t].lookup !in s.saved {
        OneInside(w, s, t, u);
      }
    }
  }

  lemma CreateKeepsOneMaker(w: Traffic, s: State, t: TaskId)
    requires Isolated(w) && Inv(w, s) && Enabled(w, s, Create(t))
    ensures OneMaker(w, Step(w, s, Create(t)))
  {
    forall u | u in s.made && w[u].lookup == w[t].lookup ensures u == t {
      OnlyMaker(w, s, t, u);
    }
  }

  lemma StepKeepsOneMaker(w: Traffic, s: State, a: Action)
    requires Isolated(w) && Inv(w, s) && Enabled(w, s, a) && Harmless(w, a)
    ensures OneMaker(w, Step(w, s, a))
  {
    if a.Create? {
      CreateKeepsOneMaker(w, s, a.task);
    } else {
      assert Step(w, s, a).made == s.made;
      MakersGoOn(w, s, a);
    }
  }

  lemma MakerGoesOn(w: Traffic, s: State, a: Action)
    requires Enabled(w, s, a) && !a.Fail? && HasMade(s.pc[a.task])
    ensures HasMade(Step(w, s, a).pc[a.task])
  {
  }

  lemma MakersGoOn(w: Traffic, s: State, a: Action)
    requires OneMaker(w, s) && Enabled(w, s, a) && Harmless(w, a) && !a.Create?
    ensures OneMaker(w, Step(w, s, a))
  {
    var s' := Step(w, s, a);
    assert s'.made == s.made;
    forall t | t in s.made ensures t in s'.pc && (Shared(w, t) ==> HasMade(s'.pc[t])) {
      if t != a.task {
        OthersStay(w, s, a, t);
      } else if Shared(w, t) {
        MakerGoesOn(w, s, a);
      }
    }
  }

  /** Waiting or at work, on the lock that is in the registry. */
  ghost predicate AtTheLock(w: Traffic, s: State, t: TaskId)
    requires t in w && t in s.pc
  {
    && !s.pc[t].Found? && !s.pc[t].Kept? && !s.pc[t].Done?
    && (s.pc[t].Waiting? || HasLock(s.pc[t]) ==> w[t].lock in s.registry && s.registry[w[t].lock] == s.pc[t].lock)
  }

  lemma ActorUnsaved(w: Traffic, s: State, a: Action)
    requires Isolated(w) && Inv(w, s) && Enabled(w, s, a) && Harmless(w, a)
    requires Shared(w, a.task) && w[a.task].lookup !in Step(w, s, a).saved
    ensures AtTheLock(w, Step(w, s, a), a.task)
  {
    assert Consistent(w, a.task, a.task);
    assert w[a.task].lookup !in s.saved;
    assert !a.Leave? && !a.Save?;
  }

  /** While the slot stays empty nobody at its lock leaves, so the registry keeps the lock. */
  lemma SameSlotUnsaved(w: Traffic, s: State, a: Action, t: TaskId)
    requires Isolated(w) && Inv(w, s) && Enabled(w, s, a) && Harmless(w, a)
    requires t in s.pc && Shared(w, t) && w[t].lookup == w[a.task].lookup
    requires w[t].lookup !in Step(w, s, a).saved
    ensures t in Step(w, s, a).pc && AtTheLock(w, Step(w, s, a), t)
  {
    if t == a.task {
      ActorUnsaved(w, s, a);
    } else {
      assert Consistent(w, t, a.task);
      SharedPair(w, t, a.task);
      assert w[t].lookup !in s.saved;
      assert AtTheLock(w, s, t);
      BystanderUnsaved(w, s, a, t);
    }
  }

  lemma BystanderUnsaved(w: Traffic, s: State, a: Action, t: TaskId)
    requires Inv(w, s) && Enabled(w, s, a) && Harmless(w, a) && t != a.task
    requires Shared(w, t) && Shared(w, a.task) && w[t].lookup == w[a.task].lookup && w[t].lookup !in s.saved
    ensures Step(w, s, a).pc[t] == s.pc[t]
    ensures w[t].lock in s.registry ==>
      w[t].lock in Step(w, s, a).registry && Step(w, s, a).registry[w[t].lock] == s.registry[w[t].lock]
  {
    assert !a.Leave?;
  }

  /** A step leaves the registry's other locks alone. */
  lemma OtherLocksStay(w: Traffic, s: State, a: Action, key: Conversation)
    requires Enabled(w, s, a) && key != w[a.task].lock && key in s.registry
    ensures key in Step(w, s, a).registry && Step(w, s, a).registry[key] == s.registry[key]
  {
  }

  lemma OtherSlotUnsaved(w: Traffic, s: State, a: Action, t: TaskId)
    requires LocksAgree(w, s) && Enabled(w, s, a) && Harmless(w, a) && t in s.pc
    requires w[t].lookup != w[a.task].lookup && Consistent(w, t, a.task)
    requires w[t].lookup !in Step(w, s, a).saved
    ensures Step(w, s, a).pc[t] == s.pc[t] && w[t].lookup !in s.saved
    ensures w[t].lock in s.registry ==>
      w[t].lock in Step(w, s, a).registry && Step(w, s, a).registry[w[t].lock] == s.registry[w[t].lock]
  {
    OthersStay(w, s, a, t);
    if w[t].lock in s.registry {
      OtherLocksStay(w, s, a, w[t].lock);
    }
  }

  lemma StepKeepsUnsaved(w: Traffic, s: State, a: Action)
    requires Isolated(w) && Inv(w, s) && Enabled(w, s, a) && Harmless(w, a)
    ensures LocksAgree(w, Step(w, s, a))
    ensures UnsavedShareLock(w, Step(w, s, a))
  {
    StepKeepsLocks(w, s, a);
    var s' := Step(w, s, a);
    forall t | t in s'.pc && Shared(w, t) && w[t].lookup !in s'.saved ensures AtTheLock(w, s', t) {
      assert Consistent(w, t, a.task);
      if w[t].lookup == w[a.task].lookup {
        SameSlotUnsaved(w, s, a, t);
      } else {
        OtherSlotUnsaved(w, s, a, t);
        assert AtTheLock(w, s, t);
      }
    }
  }

  ghost predicate Settled(w: Traffic, s: State, t: TaskId)
    requires t in w && t in s.pc && w[t].lookup in s.saved
  {
    !s.pc[t].Missing? && !s.pc[t].Created? && (KnowsId(s.pc[t]) ==> s.pc[t].id == s.saved[w[t].lookup])
  }

  lemma ActorSettled(w: Traffic, s: State, a: Action)
    requires Isolated(w) && Inv(w, s) && Enabled(w, s, a) && Harmless(w, a)
    requires Shared(w, a.task) && w[a.task].lookup in Step(w, s, a).saved
    ensures Settled(w, Step(w, s, a), a.task)
  {
    assert Consistent(w, a.task, a.task);
  }

  /** A step leaves the other tasks where they are. */
  lemma OthersStay(w: Traffic, s: State, a: Action, t: TaskId)
    requires Enabled(w, s, a) && t in s.pc && t != a.task
    ensures t in Step(w, s, a).pc && Step(w, s, a).pc[t] == s.pc[t]
    ensures !a.Save? ==> Step(w, s, a).saved == s.saved
  {
  }

  lemma BystanderOfSave(w: Traffic, s: State, a: TaskId, t: TaskId)
    requires Isolated(w) && Inv(w, s) && Enabled(w, s, Save(a))
    requires t in s.pc && t != a && Shared(w, t) && w[t].lookup in s.saved[w[a].save := s.pc[a].id]
    ensures Settled(w, s.(saved := s.saved[w[a].save := s.pc[a].id]), t)
  {
    assert Consistent(w, t, a);
    if w[t].lookup == w[a].lookup {
      SharedPair(w, t, a);
      assert w[t].lookup !in s.saved;
      OneInside(w, s, a, t);
      assert AtTheLock(w, s, t);
    }
  }

  lemma BystanderSettled(w: Traffic, s: State, a: Action, t: TaskId)
    requires Isolated(w) && Inv(w, s) && Enabled(w, s, a) && Harmless(w, a)
    requires t in s.pc && t != a.task && Shared(w, t) && w[t].lookup in Step(w, s, a).saved
    ensures t in Step(w, s, a).pc && Settled(w, Step(w, s, a), t)
  {
    OthersStay(w, s, a, t);
    if a.Save? {
      BystanderOfSave(w, s, a.task, t);
    }
  }

  lemma StepKeepsSaved(w: Traffic, s: State, a: Action)
    requires Isolated(w) && Inv(w, s) && Enabled(w, s, a) && Harmless(w, a)
    ensures LocksAgree(w, Step(w, s, a))
    ensures SavedIsFinal(w, Step(w, s, a))
  {
    StepKeepsLocks(w, s, a);
    var s' := Step(w, s, a);
    forall t | t in s'.pc && Shared(w, t) && w[t].lookup in s'.saved ensures Settled(w, s', t) {
      if t == a.task {
        ActorSettled(w, s, a);
      } else {
        BystanderSettled(w, s, a, t);
      }
    }
  }

  lemma {:induction false} RunKeepsInv(w: Traffic, s: State, failing: set<TaskId>, acts: seq<Action>)
    requires Isolated(w) && FailsAlone(w, failing) && FailsOnly(acts, failing)
    requires Inv(w, s) && Exec(w, s, acts).Some?
    ensures Inv(w, Exec(w, s, acts).value)
    decreases |acts|
  {
    if acts != [] {
      assert Harmless(w, acts[0]);
      StepKeepsUnsaved(w, s, acts[0]);
      StepKeepsSaved(w, s, acts[0]);
      StepKeepsOneMaker(w, s, acts[0]);
      assert forall i :: 0 <= i < |acts[1..]| ==> acts[1..][i] == acts[i + 1];
      RunKeepsInv(w, Step(w, s, acts[0]), failing, acts[1..]);
    }
  }

  /**
    Isolated traffic is safe over every interleaving in which only tasks fail that share their
    slot with no other, from any stored mappings, although every finishing task drops the lock
    from the registry.
   */
  lemma IsolatedTrafficIsSafe(w: Traffic, saved: map<Slot, ThreadId>, nextThread: ThreadId,
                              failing: set<TaskId>, acts: seq<Action>)
    requires Isolated(w) && FailsAlone(w, failing) && FailsOnly(acts, failing)
    requires Exec(w, Init(w, saved, nextThread), acts).Some?
    ensures OneThreadEach(w, Exec(w, Init(w, saved, nextThread), acts).value)
  {
    RunKeepsInv(w, Init(w, saved, nextThread), failing, acts);
    var s := Exec(w, Init(w, saved, nextThread), acts).value;
    forall t, u | t in s.pc && u in s.pc && w[t].lookup == w[u].lookup && s.pc[t].Done? && s.pc[u].Done?
      ensures s.pc[t].id == s.pc[u].id
    {
      if t != u {
        SharedPair(w, t, u);
      }
    }
  }

  // Necessity: traffic that is not isolated has a failure-free run that breaks the promise

  lemma {:induction false} ExecAppend(w: Traffic, s: State, a: seq<Action>, b: seq<Action>)
    requires Exec(w, s, a).Some?
    ensures Exec(w, s, a + b) == Exec(w, Exec(w, s, a).value, b)
    decreases |a|
  {
    if a == [] {
      assert a + b == b;
    } else {
      assert (a + b)[1..] == a[1..] + b;
      ExecAppend(w, Step(w, s, a[0]), a[1..], b);
    }
  }

  /** `s` is reached from an empty mapping by `acts`, in which only tasks of `failing` fail. */
  ghost predicate Reached(w: Traffic, acts: seq<Action>, s: State, failing: set<TaskId>) {
    Exec(w, Init(w, map[], 0), acts) == Some(s) && FailsOnly(acts, failing)
  }

  ghost predicate Reachable(w: Traffic, s: State, failing: set<TaskId>) {
    exists acts :: Reached(w, acts, s, failing)
  }

  lemma Start(w: Traffic, failing: set<TaskId>) returns (s: State)
    ensures Reachable(w, s, failing)
    ensures s.pc.Keys == w.Keys && forall t :: t in w ==> s.pc[t].Idle?
    ensures s.saved == map[] && s.registry == map[] && s.holder == map[] && s.made == map[]
    ensures s.nextLock == 0 && s.nextThread == 0
  {
    s := Init(w, map[], 0);
    assert Reached(w, [], s, failing);
  }

  lemma Next(w: Traffic, s: State, failing: set<TaskId>, a: Action) returns (s': State)
    requires Reachable(w, s, failing) && Enabled(w, s, a) && (a.Fail? ==> a.task in failing)
    ensures s' == Step(w, s, a) && Reachable(w, s', failing)
  {
    s' := Step(w, s, a);
    var acts :| Reached(w, acts, s, failing);
    ExecAppend(w, Init(w, map[], 0), acts, [a]);
    assert Exec(w, s, [a]) == Exec(w, s', []);
    assert Reached(w, acts + [a], s', failing);
  }

  predicate CanRace(w: Traffic, s: State, t: TaskId) {
    && t in w && t in s.pc && s.pc[t].Idle?
    && w[t].lookup !in s.saved && w[t].lock !in s.registry && s.nextLock !in s.holder
  }

  lemma LockFresh(w: Traffic, s: State, failing: set<TaskId>, t: TaskId) returns (s': State)
    requires Reachable(w, s, failing) && CanRace(w, s, t)
    ensures Reachable(w, s', failing)
    ensures s' == s.(
      pc := s.pc[t := Inside(s.nextLock)],
      registry := s.registry[w[t].lock := s.nextLock],
      holder := s.holder[s.nextLock := t],
      nextLock := s.nextLock + 1)
  {
    s' := Next(w, s, failing, Lookup(t));
    s' := Next(w, s', failing, Enter(t));
    s' := Next(w, s', failing, Acquire(t));
    assert s'.pc == s.pc[t := Inside(s.nextLock)];
  }

  /** A task that finds neither a mapping nor a lock goes straight through to a creation. */
  lemma Race(w: Traffic, s: State, failing: set<TaskId>, t: TaskId) returns (s': State)
    requires Reachable(w, s, failing) && CanRace(w, s, t)
    ensures Reachable(w, s', failing)
    ensures s' == s.(
      pc := s.pc[t := Created(s.nextLock, s.nextThread)],
      registry := s.registry[w[t].lock := s.nextLock],
      holder := s.holder[s.nextLock := t],
      nextLock := s.nextLock + 1,
      nextThread := s.nextThread + 1,
      made := s.made[t := s.nextThread])
  {
    s' := LockFresh(w, s, failing, t);
    s' := Next(w, s', failing, Recheck(t));
    s' := Next(w, s', failing, Create(t));
    assert s'.pc == s.pc[t := Created(s.nextLock, s.nextThread)];
  }

  /** A racing task that saves its thread and leaves: only the mapping and its id remain. */
  lemma RaceAndLeave(w: Traffic, s: State, failing: set<TaskId>, t: TaskId) returns (s': State)
    requires Reachable(w, s, failing) && CanRace(w, s, t)
    ensures Reachable(w, s', failing)
    ensures s' == s.(
      pc := s.pc[t := Done(s.nextThread, true)],
      saved := s.saved[w[t].save := s.nextThread],
      nextLock := s.nextLock + 1,
      nextThread := s.nextThread + 1,
      made := s.made[t := s.nextThread])
  {
    s' := Race(w, s, failing, t);
    s' := Next(w, s', failing, Save(t));
    s' := Next(w, s', failing, Leave(t));
    assert s'.pc == s.pc[t := Done(s.nextThread, true)];
    assert s'.holder == s.holder && s'.registry == s.registry;
  }

  /** Some failure-free run from an empty mapping breaks the promise. */
  ghost predicate Breaks(w: Traffic) {
    exists s :: Reachable(w, s, {}) && !OneThreadEach(w, s)
  }

  lemma MadeTwice(w: Traffic, s: State, t: TaskId, u: TaskId)
    requires Reachable(w, s, {}) && t != u && t in w && u in w && w[t].lookup == w[u].lookup
    requires t in s.made && u in s.made
    ensures Breaks(w)
  {
  }

  /** The second task never sees a thread that the first saved somewhere else. */
  lemma SavedElsewhereBreaks(w: Traffic, t: TaskId, u: TaskId)
    requires t in w && u in w && t != u && w[t].lookup == w[u].lookup
    requires w[t].save != w[t].lookup
    ensures Breaks(w)
  {
    var s := Start(w, {});
    s := RaceAndLeave(w, s, {}, t);
    s := Race(w, s, {}, u);
    MadeTwice(w, s, t, u);
  }

  /** Two locks for one slot do not exclude each other. */
  lemma TwoLocksBreak(w: Traffic, t: TaskId, u: TaskId)
    requires t in w && u in w && t != u && w[t].lookup == w[u].lookup
    requires w[t].lock != w[u].lock
    ensures Breaks(w)
  {
    var s := Start(w, {});
    s := Race(w, s, {}, t);
    s := Race(w, s, {}, u);
    MadeTwice(w, s, t, u);
  }

  /** A task waiting on a free lock goes straight through to a creation. */
  lemma CreateAfterWaiting(w: Traffic, s: State, failing: set<TaskId>, t: TaskId) returns (s': State)
    requires Reachable(w, s, failing) && t in w && t in s.pc && s.pc[t].Waiting?
    requires s.pc[t].lock !in s.holder && w[t].lookup !in s.saved
    ensures Reachable(w, s', failing)
    ensures s' == s.(
      pc := s.pc[t := Created(s.pc[t].lock, s.nextThread)],
      holder := s.holder[s.pc[t].lock := t],
      nextThread := s.nextThread + 1,
      made := s.made[t := s.nextThread])
  {
    s' := Next(w, s, failing, Acquire(t));
    s' := Next(w, s', failing, Recheck(t));
    s' := Next(w, s', failing, Create(t));
    assert s'.pc == s.pc[t := Created(s.pc[t].lock, s.nextThread)];
  }

  /** Both the waiter on a dropped lock and a newcomer with a fresh lock create a thread. */
  lemma BothCreate(w: Traffic, s: State, failing: set<TaskId>, t: TaskId, u: TaskId) returns (s': State)
    requires Reachable(w, s, failing) && CanRace(w, s, u)
    requires t in w && t in s.pc && t != u && s.pc[t].Waiting?
    requires s.pc[t].lock !in s.holder && s.pc[t].lock != s.nextLock && w[t].lookup == w[u].lookup
    ensures Reachable(w, s', failing)
    ensures s'.made == s.made[t := s.nextThread][u := s.nextThread + 1]
  {
    s' := CreateAfterWaiting(w, s, failing, t);
    s' := Race(w, s', failing, u);
  }

  /**
    `v` belongs to another slot but shares the lock: it drops the registry entry on its way out
    while `t` is still waiting on that lock, so `u` mints a second lock.
   */
  lemma SharedLockBreaks(w: Traffic, t: TaskId, u: TaskId, v: TaskId)
    requires t in w && u in w && t != u && w[t].lookup == w[u].lookup
    requires v in w && w[v].lookup != w[t].lookup && w[v].lock == w[t].lock
    requires w[t].lock == w[u].lock && w[v].save != w[t].lookup
    ensures Breaks(w)
  {
    var s := Start(w, {});
    s := Race(w, s, {}, v);
    s := Next(w, s, {}, Save(v));
    s := Next(w, s, {}, Lookup(t));
    s := Next(w, s, {}, Enter(t));
    s := Next(w, s, {}, Leave(v));
    s := BothCreate(w, s, {}, t, u);
    MadeTwice(w, s, t, u);
  }

  /** `v` overwrites the slot with another thread, so `u` returns a different id than `t` did. */
  lemma OverwriteBreaks(w: Traffic, t: TaskId, u: TaskId, v: TaskId)
    requires t in w && u in w && t != u && w[t].lookup == w[u].lookup
    requires w[t].save == w[t].lookup
    requires v in w && w[v].lookup != w[t].lookup && w[v].save == w[t].lookup
    ensures Breaks(w)
  {
    var s := Start(w, {});
    s := RaceAndLeave(w, s, {}, t);
    s := RaceAndLeave(w, s, {}, v);
    s := Next(w, s, {}, Lookup(u));
    assert s.pc[t] == Done(0, true) && s.pc[u] == Done(1, false);
  }

  /**
    The exact condition: every failure-free run keeps the promise if and only if the traffic is
    isolated.
   */
  lemma OneThreadExactlyWhenIsolated(w: Traffic)
    ensures Isolated(w) <==> !Breaks(w)
  {
    if Isolated(w) && Breaks(w) {
      var s :| Reachable(w, s, {}) && !OneThreadEach(w, s);
      var acts :| Reached(w, acts, s, {});
      IsolatedTrafficIsSafe(w, map[], 0, {}, acts);
    }
    if !Isolated(w) {
      var t, v :| Shared(w, t) && v in w && !Consistent(w, t, v);
      var u :| u in w && u != t && w[u].lookup == w[t].lookup;
      if w[t].save != w[t].lookup {
        SavedElsewhereBreaks(w, t, u);
      } else if w[v].lookup == w[t].lookup {
        if w[v].lock != w[t].lock {
          TwoLocksBreak(w, t, v);
        } else {
          SavedElsewhereBreaks(w, v, t);
        }
      } else if w[v].save == w[t].lookup {
        OverwriteBreaks(w, t, u, v);
      } else if w[u].lock != w[t].lock {
        TwoLocksBreak(w, t, u);
      } else {
        SharedLockBreaks(w, t, u, v);
      }
    }
  }

  /** Some run from an empty mapping, in which only tasks of `failing` fail, breaks the promise. */
  ghost predicate BreaksWith(w: Traffic, failing: set<TaskId>) {
    exists s :: Reachable(w, s, failing) && !OneThreadEach(w, s)
  }

  lemma MoreMayFail(w: Traffic, failing: set<TaskId>)
    requires Breaks(w)
    ensures BreaksWith(w, failing)
  {
    var s :| Reachable(w, s, {}) && !OneThreadEach(w, s);
    var acts :| Reached(w, acts, s, {});
    assert Reached(w, acts, s, failing);
  }

  /** A racing task that fails before it saves: only its creation remains. */
  lemma RaceAndFail(w: Traffic, s: State, failing: set<TaskId>, t: TaskId) returns (s': State)
    requires Reachable(w, s, failing) && CanRace(w, s, t) && t in failing
    ensures Reachable(w, s', failing)
    ensures s' == s.(
      pc := s.pc[t := Failed],
      nextLock := s.nextLock + 1,
      nextThread := s.nextThread + 1,
      made := s.made[t := s.nextThread])
  {
    s' := Race(w, s, failing, t);
    s' := Next(w, s', failing, Fail(t));
    assert s'.pc == s.pc[t := Failed];
    assert s'.holder == s.holder && s'.registry == s.registry;
  }

  /** A task that shares its slot creates a thread and fails before it is saved. */
  lemma SharerFailsAfterCreating(w: Traffic, failing: set<TaskId>, t: TaskId)
    requires t in failing && Shared(w, t)
    ensures BreaksWith(w, failing)
  {
    var u :| u in w && u != t && w[u].lookup == w[t].lookup;
    var s := Start(w, failing);
    s := RaceAndFail(w, s, failing, t);
    s := Race(w, s, failing, u);
    MadeTwiceWith(w, s, failing, t, u);
  }

  lemma MadeTwiceWith(w: Traffic, s: State, failing: set<TaskId>, t: TaskId, u: TaskId)
    requires Reachable(w, s, failing) && t != u && t in w && u in w && w[t].lookup == w[u].lookup
    requires t in s.made && u in s.made
    ensures BreaksWith(w, failing)
  {
  }

  /**
    With failures: every run in which only tasks of `failing` fail keeps the promise if and only
    if the traffic is isolated and none of these tasks shares its slot with another.
   */
  lemma OneThreadExactlyWhenFailuresAreAlone(w: Traffic, failing: set<TaskId>)
    ensures Isolated(w) && FailsAlone(w, failing) <==> !BreaksWith(w, failing)
  {
    OneThreadExactlyWhenIsolated(w);
    if Isolated(w) && FailsAlone(w, failing) {
      forall s | Reachable(w, s, failing) ensures OneThreadEach(w, s) {
        var acts :| Reached(w, acts, s, failing);
        IsolatedTrafficIsSafe(w, map[], 0, failing, acts);
      }
    } else if Isolated(w) {
      var t :| t in failing && Shared(w, t);
      SharerFailsAfterCreating(w, failing, t);
    } else {
      MoreMayFail(w, failing);
    }
  }

  /**
    Two users bound through different connections in one chat and topic share a lock but not a
    slot, so one user's task can make the other user's two messages create two threads.
   */
  lemma BoundUsersInOneChatBreak(messages: map<TaskId, Message>, t: TaskId, u: TaskId, v: TaskId)
    requires {t, u, v} <= messages.Keys && t != u
    requires messages[t].conversation == messages[u].conversation == messages[v].conversation
    requires messages[t].connection == messages[u].connection != messages[v].connection
    requires messages[t].connection != "" && messages[v].connection != ""
    ensures Breaks(TrafficOf(messages, true))
  {
    var w := TrafficOf(messages, true);
    SharedPair(w, t, u);
    assert !Consistent(w, t, v);
    OneThreadExactlyWhenIsolated(w);
  }

  /** A connection without an owner is looked up in the repository but saved in the store. */
  lemma OwnerlessConnectionBreaks(messages: map<TaskId, Message>, t: TaskId, u: TaskId)
    requires {t, u} <= messages.Keys && t != u
    requires messages[t] == messages[u] && messages[t].connection != "" && messages[t].owner == ""
    ensures Breaks(TrafficOf(messages, true))
  {
    var w := TrafficOf(messages, true);
    SharedPair(w, t, u);
    assert !Consistent(w, t, t);
    OneThreadExactlyWhenIsolated(w);
  }

  /** Unbound messages, with colon-free ids and topics that are missing or not empty, are isolated. */
  lemma UnboundTrafficIsIsolated(messages: map<TaskId, Message>, hasRepository: bool)
    requires forall t :: t in messages ==>
      && ColonFree(messages[t].conversation) && messages[t].conversation.topic != Some("")
      && (hasRepository ==> messages[t].connection == "")
    ensures Isolated(TrafficOf(messages, hasRepository))
  {
    var w := TrafficOf(messages, hasRepository);
    forall t, v | Shared(w, t) && v in w ensures Consistent(w, t, v) {
      KeysSeparateConversations(messages[t].conversation, messages[v].conversation);
    }
  }

  // Isolation, told from the fields of the messages

  predicate Bound(m: Message, hasRepository: bool) {
    m.connection != "" && hasRepository
  }

  /** The two messages belong to one stored conversation. */
  predicate SameSlot(a: Message, b: Message, hasRepository: bool) {
    if Bound(a, hasRepository) then
      && Bound(b, hasRepository) && a.connection == b.connection
      && a.conversation.chat == b.conversation.chat && Normal(a.conversation.topic) == Normal(b.conversation.topic)
    else !Bound(b, hasRepository) && SameConversation(a.conversation, b.conversation)
  }

  /** Looked up in the repository, saved in the store. */
  predicate Ownerless(m: Message, hasRepository: bool) {
    Bound(m, hasRepository) && m.owner == ""
  }

  /**
    What a conversation with two messages or more asks for: an owner for every connection; one
    spelling of channel, chat and topic, which no other conversation uses; and no connection
    without an owner that is saved under the conversation's key.
   */
  predicate Agreeing(a: Message, b: Message, hasRepository: bool) {
    && !Ownerless(a, hasRepository)
    && (SameSlot(a, b, hasRepository) <==> a.conversation == b.conversation)
    && !(Ownerless(b, hasRepository) && !Bound(a, hasRepository) && SameConversation(a.conversation, b.conversation))
  }

  ghost predicate IsolatedFields(messages: map<TaskId, Message>, hasRepository: bool) {
    forall t, u, v :: t in messages && u in messages && v in messages && t != u
                      && SameSlot(messages[t], messages[u], hasRepository) ==>
      Agreeing(messages[t], messages[v], hasRepository)
  }

  lemma SlotsByFields(a: Message, b: Message, hasRepository: bool)
    requires ColonFree(a.conversation) && ColonFree(b.conversation)
    ensures RouteOf(a, hasRepository).lookup == RouteOf(b, hasRepository).lookup <==> SameSlot(a, b, hasRepository)
    ensures RouteOf(b, hasRepository).save == RouteOf(a, hasRepository).lookup <==>
      if Ownerless(b, hasRepository) then !Bound(a, hasRepository) && SameConversation(a.conversation, b.conversation)
      else SameSlot(a, b, hasRepository)
  {
    KeysSeparateConversations(a.conversation, b.conversation);
  }

  /** For colon-free ids: the messages' routes are isolated exactly if their fields say so. */
  lemma IsolatedByFields(messages: map<TaskId, Message>, hasRepository: bool)
    requires forall t :: t in messages ==> ColonFree(messages[t].conversation)
    ensures Isolated(TrafficOf(messages, hasRepository)) <==> IsolatedFields(messages, hasRepository)
  {
    var w := TrafficOf(messages, hasRepository);
    if IsolatedFields(messages, hasRepository) {
      forall t, v | Shared(w, t) && v in w ensures Consistent(w, t, v) {
        var u :| u in w && u != t && w[u].lookup == w[t].lookup;
        SlotsByFields(messages[t], messages[u], hasRepository);
        FieldsGiveConsistency(messages, hasRepository, t, u, v);
      }
    }
    if Isolated(w) {
      forall t, u, v | t in messages && u in messages && v in messages && t != u
                       && SameSlot(messages[t], messages[u], hasRepository)
        ensures Agreeing(messages[t], messages[v], hasRepository)
      {
        ConsistencyGivesFields(messages, hasRepository, t, u, v);
      }
    }
  }

  lemma ConsistencyGivesFields(messages: map<TaskId, Message>, hasRepository: bool, t: TaskId, u: TaskId, v: TaskId)
    requires Isolated(TrafficOf(messages, hasRepository)) && t in messages && u in messages && v in messages && t != u
    requires forall a :: a in messages ==> ColonFree(messages[a].conversation)
    requires SameSlot(messages[t], messages[u], hasRepository)
    ensures Agreeing(messages[t], messages[v], hasRepository)
  {
    var w := TrafficOf(messages, hasRepository);
    SlotsByFields(messages[t], messages[u], hasRepository);
    SharedPair(w, t, u);
    assert Consistent(w, t, v) && Consistent(w, t, t);
    SlotsByFields(messages[t], messages[v], hasRepository);
    SlotsByFields(messages[t], messages[t], hasRepository);
  }

  lemma FieldsGiveConsistency(messages: map<TaskId, Message>, hasRepository: bool, t: TaskId, u: TaskId, v: TaskId)
    requires IsolatedFields(messages, hasRepository) && {t, u, v} <= messages.Keys && t != u
    requires forall a :: a in messages ==> ColonFree(messages[a].conversation)
    requires SameSlot(messages[t], messages[u], hasRepository)
    ensures Consistent(TrafficOf(messages, hasRepository), t, v)
  {
    SlotsByFields(messages[t], messages[v], hasRepository);
    if SameSlot(messages[t], messages[v], hasRepository) && v != t {
      assert SameSlot(messages[v], messages[t], hasRepository);
      assert Agreeing(messages[v], messages[t], hasRepository);
    }
  }

  /** `t` and `u` each made a thread although `v`, the only task that failed, made none. */
  ghost predicate DuplicatedByFailureOf(w: Traffic, s: State, t: TaskId, u: TaskId, v: TaskId) {
    Reachable(w, s, {v}) && t in s.made && u in s.made && v !in s.made && s.made[t] != s.made[u]
  }

  /**
    Isolation is not enough once a task fails in the guarded region: it drops the lock that
    others wait on before anything is saved. Any three tasks of one conversation have such a run.
   */
  lemma OneFailureBreaks(w: Traffic, t: TaskId, u: TaskId, v: TaskId)
    requires {t, u, v} <= w.Keys && t != u && t != v && u != v
    requires w[t].lookup == w[u].lookup == w[v].lookup
    requires w[t].lock == w[u].lock == w[v].lock
    ensures exists s :: DuplicatedByFailureOf(w, s, t, u, v)
  {
    var s := Start(w, {v});
    s := Next(w, s, {v}, Lookup(v));
    s := Next(w, s, {v}, Enter(v));
    s := Next(w, s, {v}, Acquire(v));
    s := Next(w, s, {v}, Lookup(t));
    s := Next(w, s, {v}, Enter(t));
    s := Next(w, s, {v}, Fail(v));
    s := BothCreate(w, s, {v}, t, u);
    assert DuplicatedByFailureOf(w, s, t, u, v);
  }

  // Nobody waits for ever, failures included

  lemma {:induction false} RunKeepsLocks(w: Traffic, s: State, acts: seq<Action>)
    requires LocksAgree(w, s) && Exec(w, s, acts).Some?
    ensures LocksAgree(w, Exec(w, s, acts).value)
    decreases |acts|
  {
    if acts != [] {
      StepKeepsLocks(w, s, acts[0]);
      RunKeepsLocks(w, Step(w, s, acts[0]), acts[1..]);
    }
  }

  /** After any run, failures included, some task can move unless all have finished. */
  lemma NoDeadlock(w: Traffic, saved: map<Slot, ThreadId>, nextThread: ThreadId, acts: seq<Action>, t: TaskId)
    requires Exec(w, Init(w, saved, nextThread), acts).Some?
    requires var s := Exec(w, Init(w, saved, nextThread), acts).value;
      t in s.pc && !s.pc[t].Done? && !s.pc[t].Failed?
    ensures exists a: Action :: !a.Fail? && Enabled(w, Exec(w, Init(w, saved, nextThread), acts).value, a)
  {
    var s := Exec(w, Init(w, saved, nextThread), acts).value;
    RunKeepsLocks(w, Init(w, saved, nextThread), acts);
    var x := if s.pc[t].Waiting? && s.pc[t].lock in s.holder then s.holder[s.pc[t].lock] else t;
    var a := match s.pc[x]
      case Idle => Lookup(x)
      case Missed => Enter(x)
      case Waiting(_) => Acquire(x)
      case Inside(_) => Recheck(x)
      case Missing(_) => Create(x)
      case Created(_, _) => Save(x)
      case _ => Leave(x);
    assert Enabled(w, s, a);
  }
}
