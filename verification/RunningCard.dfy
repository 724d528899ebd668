/**
  Feishu's running card of one source message: tasks that create it, callbacks that forget the
  tasks, and sends that wait for it, patch it or fall back to a reply, in any interleaving.
  The dictionaries are keyed by source message, so one message is the whole story.
 */
module RunningCard {
  import opened Wrappers

  type TaskId = nat
  type SendId = nat
  type CardId = nat

  datatype Task =
    | Creating
    | Returned(card: Option<CardId>)
    | Raised

  datatype Send =
    | Awaiting(task: TaskId, isFinal: bool)    // for a task found in flight
    | AwaitingOwn(task: TaskId)                // for the creation it asked for itself
    | Patching(card: CardId, isFinal: bool)
    | Replying                                 // a final text sent as a reply of its own
    | Over

  datatype State = State(
    cardId: Option<CardId>,       // _running_card_ids
    taskRef: Option<TaskId>,      // _running_card_tasks
    tasks: map<TaskId, Task>,
    sends: map<SendId, Send>,
    nextTask: TaskId,
    nextSend: SendId,
    // histories
    created: seq<CardId>,         // running cards the platform has made and told the id of
    untold: nat,                  // those whose id has not come back
    patched: seq<CardId>,         // the target of every update
    finals: nat)                  // final texts that have been dealt with

  datatype Action =
    | Ensure                                        // _ensure_running_card_started
    | Return(task: TaskId, card: Option<CardId>)    // the creation call returns, with or without an id
    | Raise(task: TaskId)
    | Lose(task: TaskId, raises: bool)              // the card is made, but the call raises or returns no id
    | Callback(task: TaskId)                        // _finalize_running_card_task
    | Begin(isFinal: bool)                          // _send_card_message up to its first await
    | Resume(send: SendId)                          // an awaited task is over
    | Patch(send: SendId, ok: bool)                 // _update_card returns or raises
    | Reply(send: SendId, ok: bool)                 // _reply_card returns or raises

  function Init(): State {
    State(None, None, map[], map[], 0, 0, [], 0, [], 0)
  }

  predicate Finished(s: State, t: TaskId) {
    t in s.tasks && !s.tasks[t].Creating?
  }

  predicate Enabled(s: State, a: Action) {
    match a
    case Ensure => true
    case Return(t, card) => t in s.tasks && s.tasks[t].Creating? && (card.Some? ==> card.value !in s.created)
    case Raise(t) => t in s.tasks && s.tasks[t].Creating?
    case Lose(t, _) => t in s.tasks && s.tasks[t].Creating?
    case Callback(t) => Finished(s, t)
    case Begin(_) => true
    case Resume(i) => i in s.sends && (s.sends[i].Awaiting? || s.sends[i].AwaitingOwn?) && Finished(s, s.sends[i].task)
    case Patch(i, _) => i in s.sends && s.sends[i].Patching?
    case Reply(i, _) => i in s.sends && s.sends[i].Replying?
  }

  /** Starts a creation unless the card exists or a task is registered. */
  function Ensured(s: State): State {
    if s.cardId.Some? || s.taskRef.Some? then s
    else s.(tasks := s.tasks[s.nextTask := Creating], taskRef := Some(s.nextTask), nextTask := s.nextTask + 1)
  }

  function Began(s: State, isFinal: bool): State {
    var i := s.nextSend;
    var s1 := s.(nextSend := i + 1);
    if s.cardId.Some? then s1.(sends := s.sends[i := Patching(s.cardId.value, isFinal)])
    else if s.taskRef.Some? then s1.(sends := s.sends[i := Awaiting(s.taskRef.value, isFinal)])
    else if isFinal then s1.(sends := s.sends[i := Replying])
    else Ensured(s1).(sends := s.sends[i := AwaitingOwn(s.nextTask)])
  }

  function Resumed(s: State, i: SendId): State
    requires Enabled(s, Resume(i))
  {
    var send := s.sends[i];
    var next :=
      if send.AwaitingOwn? || s.tasks[send.task].Raised? then Over
      else match s.tasks[send.task].card
        case Some(card) => Patching(card, send.isFinal)
        case None => if send.isFinal then Replying else Over;
    s.(sends := s.sends[i := next])
  }

  function FinalDone(s: State, i: SendId): State {
    s.(sends := s.sends[i := Over], cardId := None, finals := s.finals + 1)
  }

  function AfterPatch(s: State, i: SendId, ok: bool): State
    requires Enabled(s, Patch(i, ok))
  {
    var send := s.sends[i];
    var s1 := s.(patched := s.patched + [send.card]);
    if !send.isFinal then s1.(sends := s.sends[i := Over])
    else if ok then FinalDone(s1, i)
    else s1.(sends := s.sends[i := Replying])
  }

  function Step(s: State, a: Action): State
    requires Enabled(s, a)
  {
    match a
    case Ensure => Ensured(s)
    case Return(t, card) =>
      var s1 := s.(tasks := s.tasks[t := Returned(card)]);
      if card.None? then s1 else s1.(cardId := card, created := s.created + [card.value])
    case Raise(t) => s.(tasks := s.tasks[t := Raised])
    case Lose(t, raises) => s.(tasks := s.tasks[t := if raises then Raised else Returned(None)], untold := s.untold + 1)
    case Callback(t) => if s.taskRef == Some(t) then s.(taskRef := None) else s
    case Begin(isFinal) => Began(s, isFinal)
    case Resume(i) => Resumed(s, i)
    case Patch(i, ok) => AfterPatch(s, i, ok)
    case Reply(i, ok) => if ok then FinalDone(s, i) else s.(sends := s.sends[i := Over])
  }

  function Exec(s: State, acts: seq<Action>): Option<State>
    decreases |acts|
  {
    if acts == [] then Some(s)
    else if Enabled(s, acts[0]) then Exec(Step(s, acts[0]), acts[1..])
    else None
  }

  // Safety

  ghost predicate OneCreation(s: State) {
    && (forall t :: t in s.tasks ==> t < s.nextTask)
    && (forall t :: t in s.tasks && s.tasks[t].Creating? ==> s.taskRef == Some(t) && s.cardId.None?)
    && (s.taskRef.Some? ==> s.taskRef.value in s.tasks)
    && (forall i :: i in s.sends ==> i < s.nextSend)
    && (forall i :: i in s.sends && (s.sends[i].Awaiting? || s.sends[i].AwaitingOwn?) ==> s.sends[i].task in s.tasks)
  }

  /** Each final text makes room for at most one more card. */
  predicate FewCards(s: State) {
    |s.created| <= s.finals + (if s.cardId.Some? then 1 else 0)
  }

  /** Cards are patched only if they were created as running cards. */
  ghost predicate RealTargets(s: State) {
    && (s.cardId.Some? ==> s.cardId.value in s.created)
    && (forall t :: t in s.tasks && s.tasks[t].Returned? && s.tasks[t].card.Some? ==> s.tasks[t].card.value in s.created)
    && (forall i :: i in s.sends && s.sends[i].Patching? ==> s.sends[i].card in s.created)
    && (forall i :: 0 <= i < |s.patched| ==> s.patched[i] in s.created)
  }

  /** Before the first final text the card that exists is the one everybody uses. */
  ghost predicate CardStays(s: State) {
    s.finals == 0 ==> (s.created == [] <==> s.cardId.None?)
  }

  ghost predicate Inv(s: State) {
    OneCreation(s) && FewCards(s) && RealTargets(s) && CardStays(s)
  }

  lemma BeganKeepsInv(s: State, isFinal: bool)
    requires Inv(s)
    ensures Inv(Began(s, isFinal))
  {
  }

  lemma ReturnKeepsInv(s: State, t: TaskId, card: Option<CardId>)
    requires Inv(s) && Enabled(s, Return(t, card))
    ensures Inv(Step(s, Return(t, card)))
  {
  }

  lemma ResumedKeepsInv(s: State, i: SendId)
    requires Inv(s) && Enabled(s, Resume(i))
    ensures Inv(Resumed(s, i))
  {
  }

  lemma AfterPatchKeepsInv(s: State, i: SendId, ok: bool)
    requires Inv(s) && Enabled(s, Patch(i, ok))
    ensures Inv(AfterPatch(s, i, ok))
  {
  }

  lemma StepKeepsInv(s: State, a: Action)
    requires Inv(s) && Enabled(s, a)
    ensures Inv(Step(s, a))
  {
    match a
    case Begin(isFinal) => BeganKeepsInv(s, isFinal);
    case Return(t, card) => ReturnKeepsInv(s, t, card);
    case Resume(i) => ResumedKeepsInv(s, i);
    case Patch(i, ok) => AfterPatchKeepsInv(s, i, ok);
    case _ =>
  }

  lemma {:induction false} RunKeepsInv(s: State, acts: seq<Action>)
    requires Inv(s) && Exec(s, acts).Some?
    ensures Inv(Exec(s, acts).value)
    decreases |acts|
  {
    if acts != [] {
      StepKeepsInv(s, acts[0]);
      RunKeepsInv(Step(s, acts[0]), acts[1..]);
    }
  }

  /**
    In every interleaving: at most one creation is in flight; the cards with a known id outnumber
    the final texts dealt with by at most one; before the first of these there is one at most, and
    every update so far went to it, as will every update that is about to be made.
   */
  lemma OneCardPerMessage(acts: seq<Action>)
    requires Exec(Init(), acts).Some?
    ensures var s := Exec(Init(), acts).value;
      && (forall t, u :: t in s.tasks && u in s.tasks && s.tasks[t].Creating? && s.tasks[u].Creating? ==> t == u)
      && |s.created| <= s.finals + 1
      && (forall i :: 0 <= i < |s.patched| ==> s.patched[i] in s.created)
      && (s.finals == 0 && s.created != [] ==>
            && s.created == [s.created[0]] && s.cardId == Some(s.created[0])
            && (forall i :: 0 <= i < |s.patched| ==> s.patched[i] == s.created[0])
            && (forall i :: i in s.sends && s.sends[i].Patching? ==> s.sends[i].card == s.created[0])
            && (forall t :: t in s.tasks ==> !s.tasks[t].Creating?))
  {
    RunKeepsInv(Init(), acts);
  }

  /** No send waits for ever: what it waits for is over or can still return. */
  lemma NoSendIsStuck(acts: seq<Action>, i: SendId)
    requires Exec(Init(), acts).Some? && i in Exec(Init(), acts).value.sends
    requires !Exec(Init(), acts).value.sends[i].Over?
    ensures var s := Exec(Init(), acts).value;
      || Enabled(s, Resume(i)) || Enabled(s, Patch(i, true)) || Enabled(s, Reply(i, true))
      || (s.sends[i].task in s.tasks && Enabled(s, Raise(s.sends[i].task)) && Enabled(s, Return(s.sends[i].task, None)))
  {
    RunKeepsInv(Init(), acts);
  }

  // When a message has one card

  ghost predicate InFlight(s: State) {
    exists t :: t in s.tasks && s.tasks[t].Creating?
  }

  /** The running cards that the chat shows. */
  function Cards(s: State): nat {
    |s.created| + s.untold
  }

  /**
    A call that starts a creation although a card has been made. After a final text, which takes
    the card down, the manager's run no longer calls, since it publishes the final text last and
    waits for each of its messages; `_prepare_inbound` does, for a message that the platform
    delivers again, since it starts a creation before the manager drops the duplicate. Before a
    final text, any update does that comes after a creation whose card's id was lost.
   */
  predicate Late(s: State, a: Action) {
    Cards(s) > 0 && s.cardId.None? && s.taskRef.None? && (a.Ensure? || a == Begin(false))
  }

  /** Two cards, or one and another in the making. */
  ghost predicate Two(s: State) {
    Cards(s) >= 2 || (Cards(s) == 1 && InFlight(s))
  }

  ghost predicate EverTwo(s: State, acts: seq<Action>)
    decreases |acts|
  {
    Two(s) || (acts != [] && Enabled(s, acts[0]) && EverTwo(Step(s, acts[0]), acts[1..]))
  }

  predicate HasLate(s: State, acts: seq<Action>)
    decreases |acts|
  {
    acts != [] && Enabled(s, acts[0]) && (Late(s, acts[0]) || HasLate(Step(s, acts[0]), acts[1..]))
  }

  /** Starting a creation is what a call does that finds neither a card nor a task. */
  lemma CallsStart(s: State, a: Action)
    requires Inv(s) && (a.Ensure? || a == Begin(false))
    ensures InFlight(Step(s, a)) <==> InFlight(s) || (s.cardId.None? && s.taskRef.None?)
  {
    var s' := Step(s, a);
    if s.cardId.None? && s.taskRef.None? {
      assert s'.tasks[s.nextTask].Creating?;
    } else {
      assert s'.tasks == s.tasks;
    }
  }

  lemma OthersStartNone(s: State, a: Action)
    requires Enabled(s, a) && !a.Ensure? && a != Begin(false)
    ensures InFlight(Step(s, a)) ==> InFlight(s)
    ensures Cards(Step(s, a)) != Cards(s) ==>
      InFlight(s) && Cards(Step(s, a)) == Cards(s) + 1 && (a.Return? || a.Lose?)
  {
    var s' := Step(s, a);
    if t :| t in s'.tasks && s'.tasks[t].Creating? {
      assert t in s.tasks && s.tasks[t].Creating?;
    }
    if a.Return? || a.Lose? {
      assert s.tasks[a.task].Creating?;
    }
  }

  /** One creation at most is in flight, so none is after it has returned. */
  lemma ReturnEndsFlight(s: State, a: Action)
    requires Inv(s) && Enabled(s, a) && (a.Return? || a.Lose?)
    ensures !InFlight(Step(s, a))
  {
  }

  lemma StepTwo(s: State, a: Action)
    requires Inv(s) && Enabled(s, a) && !Two(s)
    ensures Two(Step(s, a)) <==> Late(s, a)
  {
    if a.Ensure? || a == Begin(false) {
      CallsStart(s, a);
      assert Cards(Step(s, a)) == Cards(s);
    } else {
      OthersStartNone(s, a);
      if a.Return? || a.Lose? {
        ReturnEndsFlight(s, a);
      }
    }
  }

  lemma {:induction false} EverTwoFrom(s: State, acts: seq<Action>)
    requires Inv(s) && Exec(s, acts).Some? && !Two(s)
    ensures EverTwo(s, acts) <==> HasLate(s, acts)
    decreases |acts|
  {
    if acts != [] {
      StepKeepsInv(s, acts[0]);
      StepTwo(s, acts[0]);
      if !Two(Step(s, acts[0])) {
        EverTwoFrom(Step(s, acts[0]), acts[1..]);
      }
    }
  }

  /**
    A message gets a second card, or is about to, exactly if some call finds neither a card nor a
    task although a card has been made.
   */
  lemma SecondCardExactlyIf(acts: seq<Action>)
    requires Exec(Init(), acts).Some?
    ensures EverTwo(Init(), acts) <==> HasLate(Init(), acts)
    ensures !HasLate(Init(), acts) ==> Cards(Exec(Init(), acts).value) <= 1
  {
    EverTwoFrom(Init(), acts);
    LastOfRun(Init(), acts);
  }

  lemma {:induction false} LastOfRun(s: State, acts: seq<Action>)
    requires Exec(s, acts).Some?
    ensures Two(Exec(s, acts).value) ==> EverTwo(s, acts)
    decreases |acts|
  {
    if acts != [] {
      LastOfRun(Step(s, acts[0]), acts[1..]);
    }
  }

  /** The late call needs only its own creation to return for the second card to be there. */
  lemma LateCallMakesAnotherCard(acts: seq<Action>, a: Action, card: CardId)
    requires Exec(Init(), acts).Some? && Late(Exec(Init(), acts).value, a) && card !in Exec(Init(), acts).value.created
    ensures var s := Exec(Init(), acts).value;
      && Enabled(s, a) && Enabled(Step(s, a), Return(s.nextTask, Some(card)))
      && Step(Step(s, a), Return(s.nextTask, Some(card))).created == s.created + [card]
  {
  }

  predicate Tells(acts: seq<Action>) {
    forall i :: 0 <= i < |acts| ==> !acts[i].Lose?
  }

  lemma {:induction false} NoneUntold(s: State, acts: seq<Action>)
    requires Exec(s, acts).Some? && Tells(acts)
    ensures Exec(s, acts).value.untold == s.untold
    decreases |acts|
  {
    if acts != [] {
      assert forall i :: 0 <= i < |acts[1..]| ==> acts[1..][i] == acts[i + 1];
      NoneUntold(Step(s, acts[0]), acts[1..]);
    }
  }

  /** Before the first final text, a call is late exactly if all that was made are cards whose id was lost. */
  lemma LateBeforeFinalExactlyIf(acts: seq<Action>, a: Action)
    requires Exec(Init(), acts).Some? && Exec(Init(), acts).value.finals == 0
    requires a.Ensure? || a == Begin(false)
    ensures var s := Exec(Init(), acts).value;
      Late(s, a) <==> s.untold > 0 && s.cardId.None? && s.taskRef.None?
  {
    RunKeepsInv(Init(), acts);
  }

  /** So if no id is lost, the card is the only one until the final text. */
  lemma OneCardUntilFinal(acts: seq<Action>)
    requires Exec(Init(), acts).Some? && Tells(acts) && Exec(Init(), acts).value.finals == 0
    ensures Cards(Exec(Init(), acts).value) <= 1
  {
    RunKeepsInv(Init(), acts);
    NoneUntold(Init(), acts);
  }

  // When a card outlives the final text

  /** After a final text a card is registered, or about to be. */
  ghost predicate Hanging(s: State) {
    s.finals > 0 && (s.cardId.Some? || InFlight(s))
  }

  /** A step that deals with a final text. */
  predicate EndsFinal(s: State, a: Action) {
    Enabled(s, a) && Step(s, a).finals > s.finals
  }

  /** A call that starts a creation after a final text, or a final text dealt with during a creation. */
  ghost predicate Untimely(s: State, a: Action) {
    || (s.finals > 0 && s.cardId.None? && s.taskRef.None? && (a.Ensure? || a == Begin(false)))
    || (EndsFinal(s, a) && InFlight(s))
  }

  ghost predicate EverHanging(s: State, acts: seq<Action>)
    decreases |acts|
  {
    Hanging(s) || (acts != [] && Enabled(s, acts[0]) && EverHanging(Step(s, acts[0]), acts[1..]))
  }

  ghost predicate HasUntimely(s: State, acts: seq<Action>)
    decreases |acts|
  {
    acts != [] && Enabled(s, acts[0]) && (Untimely(s, acts[0]) || HasUntimely(Step(s, acts[0]), acts[1..]))
  }

  lemma FinalTakesTheCardDown(s: State, a: Action)
    requires EndsFinal(s, a)
    ensures Step(s, a).cardId.None? && Step(s, a).tasks == s.tasks
  {
  }

  lemma StepHanging(s: State, a: Action)
    requires Inv(s) && Enabled(s, a) && !Hanging(s)
    ensures Hanging(Step(s, a)) <==> Untimely(s, a)
  {
    if a.Ensure? || a == Begin(false) {
      CallsStart(s, a);
      assert Step(s, a).finals == s.finals && Step(s, a).cardId == s.cardId;
    } else if EndsFinal(s, a) {
      FinalTakesTheCardDown(s, a);
    } else {
      OthersStartNone(s, a);
      assert Step(s, a).finals == s.finals;
      assert Step(s, a).cardId.Some? && s.cardId.None? ==> InFlight(s);
    }
  }

  lemma {:induction false} EverHangingFrom(s: State, acts: seq<Action>)
    requires Inv(s) && Exec(s, acts).Some? && !Hanging(s)
    ensures EverHanging(s, acts) <==> HasUntimely(s, acts)
    decreases |acts|
  {
    if acts != [] {
      StepKeepsInv(s, acts[0]);
      StepHanging(s, acts[0]);
      if !Hanging(Step(s, acts[0])) {
        EverHangingFrom(Step(s, acts[0]), acts[1..]);
      }
    }
  }

  /**
    After a final text a card is registered, or about to be, at some moment of a run exactly if
    some step of it is untimely.
   */
  lemma CardOutlivesFinalExactlyIf(acts: seq<Action>)
    requires Exec(Init(), acts).Some?
    ensures EverHanging(Init(), acts) <==> HasUntimely(Init(), acts)
  {
    EverHangingFrom(Init(), acts);
  }

  // What is left behind

  ghost predicate Reachable(s: State) {
    exists acts :: Exec(Init(), acts) == Some(s)
  }

  lemma {:induction false} ExecAppend(s: State, acts: seq<Action>, a: Action)
    requires Exec(s, acts).Some? && Enabled(Exec(s, acts).value, a)
    ensures Exec(s, acts + [a]) == Some(Step(Exec(s, acts).value, a))
    decreases |acts|
  {
    if acts == [] {
      assert Exec(s, [a]) == Exec(Step(s, a), []);
    } else {
      assert (acts + [a])[1..] == acts[1..] + [a];
      ExecAppend(Step(s, acts[0]), acts[1..], a);
    }
  }

  lemma Next(s: State, a: Action) returns (s': State)
    requires Reachable(s) && Enabled(s, a)
    ensures s' == Step(s, a) && Reachable(s')
  {
    s' := Step(s, a);
    var acts :| Exec(Init(), acts) == Some(s);
    ExecAppend(Init(), acts, a);
  }

  lemma Start() returns (s: State)
    ensures s == Init() && Reachable(s)
  {
    s := Init();
    assert Exec(Init(), []) == Some(s);
  }

  /** The card of a finished conversation is still registered as running, and no step is left to take it down. */
  predicate Leftover(s: State) {
    && s.finals > 0 && s.cardId.Some?
    && (forall t :: t in s.tasks ==> !s.tasks[t].Creating?)
    && (forall i :: i in s.sends ==> s.sends[i].Over?)
  }

  function Open(s: State): set<SendId> {
    set i | i in s.sends && !s.sends[i].Over?
  }

  predicate NoCalls(acts: seq<Action>) {
    forall i :: 0 <= i < |acts| ==> !acts[i].Ensure? && !acts[i].Begin?
  }

  /** `t` is reached from `s` by answers to the calls under way, without a new call or another final text. */
  ghost predicate Winds(s: State, acts: seq<Action>, t: State) {
    Exec(s, acts) == Some(t) && NoCalls(acts) && t.finals == s.finals
  }

  lemma WindOn(s: State, acts: seq<Action>, t: State, a: Action) returns (acts': seq<Action>, t': State)
    requires Winds(s, acts, t) && Enabled(t, a) && !a.Ensure? && !a.Begin? && Step(t, a).finals == t.finals
    ensures t' == Step(t, a) && Winds(s, acts', t')
  {
    acts', t' := acts + [a], Step(t, a);
    ExecAppend(s, acts, a);
  }

  /** Every send can be brought to its end without touching the registered card. */
  lemma {:induction false} SendsCanEnd(s: State, acts: seq<Action>, t: State) returns (acts': seq<Action>, t': State)
    requires Inv(t) && Winds(s, acts, t) && !InFlight(t)
    ensures Winds(s, acts', t') && t'.cardId == t.cardId && t'.tasks == t.tasks && Open(t') == {}
    decreases |Open(t)|
  {
    acts', t' := acts, t;
    if i :| i in Open(t) {
      acts', t' := SendCanEnd(s, acts, t, i);
      assert Open(t') == Open(t) - {i};
      acts', t' := SendsCanEnd(s, acts', t');
    }
  }

  lemma SendCanEnd(s: State, acts: seq<Action>, t: State, i: SendId) returns (acts': seq<Action>, t': State)
    requires Inv(t) && Winds(s, acts, t) && !InFlight(t) && i in Open(t)
    ensures Winds(s, acts', t') && Inv(t') && t'.cardId == t.cardId && t'.tasks == t.tasks && t'.sends == t.sends[i := Over]
  {
    acts', t' := acts, t;
    if t.sends[i].Awaiting? || t.sends[i].AwaitingOwn? {
      acts', t' := ResumeOn(s, acts, t, i);
    }
    acts', t' := AwaitedCanEnd(s, acts', t', i);
  }

  lemma AwaitedCanEnd(s: State, acts: seq<Action>, t: State, i: SendId) returns (acts': seq<Action>, t': State)
    requires Inv(t) && Winds(s, acts, t) && i in t.sends && !t.sends[i].Awaiting? && !t.sends[i].AwaitingOwn?
    ensures Winds(s, acts', t') && Inv(t') && t'.cardId == t.cardId && t'.tasks == t.tasks && t'.sends == t.sends[i := Over]
  {
    acts', t' := acts, t;
    if t.sends[i].Patching? {
      acts', t' := PatchOn(s, acts, t, i);
    }
    if t'.sends[i].Replying? {
      acts', t' := ReplyOn(s, acts', t', i);
    }
    assert t'.sends == t.sends[i := Over];
  }

  /** An update that fails. */
  lemma PatchOn(s: State, acts: seq<Action>, t: State, i: SendId) returns (acts': seq<Action>, t': State)
    requires Inv(t) && Winds(s, acts, t) && i in t.sends && t.sends[i].Patching?
    ensures Winds(s, acts', t') && Inv(t') && t'.cardId == t.cardId && t'.tasks == t.tasks
    ensures t'.sends == t.sends[i := if t.sends[i].isFinal then Replying else Over]
  {
    AfterPatchKeepsInv(t, i, false);
    acts', t' := WindOn(s, acts, t, Patch(i, false));
  }

  /** A reply that fails. */
  lemma ReplyOn(s: State, acts: seq<Action>, t: State, i: SendId) returns (acts': seq<Action>, t': State)
    requires Inv(t) && Winds(s, acts, t) && i in t.sends && t.sends[i].Replying?
    ensures Winds(s, acts', t') && Inv(t') && t'.cardId == t.cardId && t'.tasks == t.tasks
    ensures t'.sends == t.sends[i := Over]
  {
    StepKeepsInv(t, Reply(i, false));
    acts', t' := WindOn(s, acts, t, Reply(i, false));
  }

  lemma ResumeOn(s: State, acts: seq<Action>, t: State, i: SendId) returns (acts': seq<Action>, t': State)
    requires Inv(t) && Winds(s, acts, t) && !InFlight(t) && i in t.sends && (t.sends[i].Awaiting? || t.sends[i].AwaitingOwn?)
    ensures Winds(s, acts', t') && Inv(t') && t'.cardId == t.cardId && t'.tasks == t.tasks
    ensures i in t'.sends && t'.sends == t.sends[i := t'.sends[i]] && !t'.sends[i].Awaiting? && !t'.sends[i].AwaitingOwn?
  {
    assert Finished(t, t.sends[i].task);
    ResumedKeepsInv(t, i);
    acts', t' := WindOn(s, acts, t, Resume(i));
  }

  /** Without calls and final texts nothing begins to hang. */
  lemma {:induction false} WindingHangsNothing(s: State, acts: seq<Action>)
    requires Inv(s) && Exec(s, acts).Some? && NoCalls(acts) && !Hanging(s)
    requires Exec(s, acts).value.finals == s.finals
    ensures !Hanging(Exec(s, acts).value)
    decreases |acts|
  {
    if acts != [] {
      var t := Step(s, acts[0]);
      assert forall i :: 0 <= i < |acts[1..]| ==> acts[1..][i] == acts[i + 1];
      StepKeepsInv(s, acts[0]);
      StepHanging(s, acts[0]);
      FinalsGrow(t, acts[1..]);
      assert t.finals >= s.finals;
      WindingHangsNothing(t, acts[1..]);
    }
  }

  lemma {:induction false} FinalsGrow(s: State, acts: seq<Action>)
    requires Exec(s, acts).Some?
    ensures Exec(s, acts).value.finals >= s.finals
    decreases |acts|
  {
    if acts != [] {
      FinalsGrow(Step(s, acts[0]), acts[1..]);
    }
  }

  lemma HangingIsLeft(s: State) returns (acts: seq<Action>, t: State)
    requires Inv(s) && Hanging(s)
    ensures Winds(s, acts, t) && Leftover(t)
  {
    acts, t := [], s;
    if task :| task in s.tasks && s.tasks[task].Creating? {
      var card := FreshCard(s.created);
      ReturnKeepsInv(s, task, Some(card));
      ReturnEndsFlight(s, Return(task, Some(card)));
      acts, t := WindOn(s, acts, t, Return(task, Some(card)));
    }
    assert !InFlight(t);
    acts, t := SendsCanEnd(s, acts, t);
    forall i | i in t.sends ensures t.sends[i].Over? {
      assert i !in Open(t);
    }
    assert !InFlight(t);
  }

  /** A card can be left over, without any further call or final text, exactly if it hangs. */
  lemma HangingCanBeLeft(s: State)
    requires Reachable(s)
    ensures Hanging(s) <==> exists acts, t :: Winds(s, acts, t) && Leftover(t)
  {
    var before :| Exec(Init(), before) == Some(s);
    RunKeepsInv(Init(), before);
    if Hanging(s) {
      var acts, t := HangingIsLeft(s);
    } else {
      forall acts, t | Winds(s, acts, t) ensures !Leftover(t) {
        WindingHangsNothing(s, acts);
      }
    }
  }

  lemma {:induction false} FreshCard(cards: seq<CardId>) returns (card: CardId)
    ensures card !in cards
    ensures forall c :: c in cards ==> c < card
  {
    card := 0;
    if cards != [] {
      var l := |cards| - 1;
      var other := FreshCard(cards[..l]);
      card := if other > cards[l] then other else cards[l] + 1;
      assert forall c :: c in cards ==> c in cards[..l] || c == cards[l];
    }
  }

  /** An update that comes after the final text makes a second card, which nobody takes down. */
  lemma LateUpdateMakesASecondCard()
    ensures exists s :: Reachable(s) && Leftover(s) && |s.created| == 2
  {
    var s := CardTakenDown();
    s := Next(s, Begin(false));
    s := Next(s, Return(1, Some(8)));
    s := Next(s, Resume(1));
  }

  /** A card that was made and taken down by the final text. */
  lemma CardTakenDown() returns (s: State)
    ensures Reachable(s) && s.created == [7] && s.finals == 1 && s.cardId.None? && s.taskRef.None?
    ensures s.tasks == map[0 := Returned(Some(7))] && s.sends == map[0 := Over] && s.nextTask == 1 && s.nextSend == 1
  {
    s := Start();
    s := Next(s, Ensure);
    s := Next(s, Return(0, Some(7)));
    s := Next(s, Callback(0));
    s := Next(s, Begin(true));
    s := Next(s, Patch(0, true));
  }

  /** A creation whose call raises although the card was made: the next update makes a second card. */
  lemma LostIdMakesASecondCard()
    ensures exists s :: Reachable(s) && s.finals == 0 && Cards(s) == 2 && s.cardId.Some?
  {
    var s := Start();
    s := Next(s, Ensure);
    s := Next(s, Lose(0, true));
    s := Next(s, Callback(0));
    s := Next(s, Begin(false));
    s := Next(s, Return(1, Some(7)));
  }

  /** A final text sent as a reply can be dealt with before a creation begun meanwhile returns. */
  lemma CreationOutlivesFinal()
    ensures exists s :: Reachable(s) && Leftover(s) && |s.created| == 1
  {
    var s := Start();
    s := Next(s, Begin(true));
    s := Next(s, Ensure);
    s := Next(s, Reply(0, true));
    s := Next(s, Return(0, Some(7)));
  }
}
