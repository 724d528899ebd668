/**
  A streamed reply: chunks, each a delta or a snapshot, are merged into one buffer per message
  id; updates are throttled by time and by growth; one final message closes the run.
 */
module StreamReplies {
  import opened Wrappers

  // Merging

  predicate EndsWith(s: string, t: string) {
    |t| <= |s| && s[|s| - |t|..] == t
  }

  /** `_merge_stream_text`. */
  function Merge(existing: string, chunk: string): string {
    if chunk == "" then existing
    else if existing == "" || chunk == existing then chunk
    else if existing <= chunk then chunk
    else if EndsWith(existing, chunk) then existing
    else existing + chunk
  }

  /** A merge loses neither the old text nor the chunk, and merging the chunk again changes nothing. */
  lemma MergeKeepsBoth(existing: string, chunk: string)
    ensures existing <= Merge(existing, chunk) && EndsWith(Merge(existing, chunk), chunk)
    ensures Merge(Merge(existing, chunk), chunk) == Merge(existing, chunk)
  {
  }

  /** Exactly when a delta is appended: unless it looks like a snapshot or like a repetition. */
  lemma MergeAppendsExactlyWhen(existing: string, chunk: string)
    ensures Merge(existing, chunk) == existing + chunk <==>
            chunk == "" || existing == "" || (!(existing <= chunk) && !EndsWith(existing, chunk))
  {
  }

  function MergeAll(existing: string, chunks: seq<string>): string
    decreases |chunks|
  {
    if chunks == [] then existing else MergeAll(Merge(existing, chunks[0]), chunks[1..])
  }

  /** A stream of growing snapshots ends at the last one. */
  lemma {:induction false} SnapshotsEndAtTheLast(existing: string, snapshots: seq<string>)
    requires snapshots != [] && existing <= snapshots[0]
    requires forall i :: 0 < i < |snapshots| ==> snapshots[i - 1] <= snapshots[i]
    ensures MergeAll(existing, snapshots) == snapshots[|snapshots| - 1]
    decreases |snapshots|
  {
    assert Merge(existing, snapshots[0]) == snapshots[0];
    var rest := snapshots[1..];
    if rest == [] {
      assert MergeAll(snapshots[0], rest) == snapshots[0];
    } else {
      assert snapshots[0] <= snapshots[1] == rest[0];
      assert forall i :: 0 < i < |rest| ==> rest[i] == snapshots[i + 1] && rest[i - 1] == snapshots[i];
      SnapshotsEndAtTheLast(snapshots[0], rest);
    }
  }

  function Concat(deltas: seq<string>): string {
    if deltas == [] then "" else deltas[0] + Concat(deltas[1..])
  }

  /** No delta looks like a snapshot of what came before or like a repetition of its end. */
  predicate PlainDeltas(existing: string, deltas: seq<string>)
    decreases |deltas|
  {
    deltas == [] ||
    ((deltas[0] == "" || existing == "" || (!(existing <= deltas[0]) && !EndsWith(existing, deltas[0]))) &&
     PlainDeltas(existing + deltas[0], deltas[1..]))
  }

  /** Plain deltas end at their concatenation. */
  lemma {:induction false} DeltasConcatenate(existing: string, deltas: seq<string>)
    requires PlainDeltas(existing, deltas)
    ensures MergeAll(existing, deltas) == existing + Concat(deltas)
    decreases |deltas|
  {
    if deltas != [] {
      MergeAppendsExactlyWhen(existing, deltas[0]);
      DeltasConcatenate(existing + deltas[0], deltas[1..]);
      assert existing + deltas[0] + Concat(deltas[1..]) == existing + (deltas[0] + Concat(deltas[1..]));
    }
  }

  // Accumulating

  datatype Chunk =
    | Plain(text: string)                                     // the payload is a string
    | Message(isTool: bool, text: string, id: Option<string>) // a mapping, with its text and id extracted
    | Other

  const DEFAULT_ID := "__default__"

  function IdOr(id: Option<string>, current: Option<string>): string {
    if id.Some? && id.value != "" then id.value
    else if current.Some? && current.value != "" then current.value
    else DEFAULT_ID
  }

  function BufferOf(buffers: map<string, string>, id: string): string {
    if id in buffers then buffers[id] else ""
  }

  /** The buffer a chunk goes to, if any. */
  function Target(current: Option<string>, c: Chunk): Option<string> {
    match c
    case Plain(_) => Some(IdOr(None, current))
    case Message(isTool, text, id) => if isTool || text == "" then None else Some(IdOr(id, current))
    case Other => None
  }

  function Merged(buffers: map<string, string>, id: string, text: string)
    : (map<string, string>, Option<string>, Option<string>)
  {
    var merged := Merge(BufferOf(buffers, id), text);
    (buffers[id := merged], Some(merged), Some(id))
  }

  /** `_accumulate_stream_text`: the buffers, the text to show and the current message id. */
  function Accumulate(buffers: map<string, string>, current: Option<string>, c: Chunk)
    : (map<string, string>, Option<string>, Option<string>)
  {
    match c
    case Plain(text) => Merged(buffers, IdOr(None, current), text)
    case Message(isTool, text, messageId) =>
      if isTool || text == "" then (buffers, None, current)
      else Merged(buffers, IdOr(messageId, current), text)
    case Other => (buffers, None, current)
  }

  /** `after` is `before` with the buffer `id` extended by a text that ends in `text`. */
  predicate ExtendsOnly(before: map<string, string>, after: map<string, string>, id: string, text: string) {
    && after.Keys == before.Keys + {id}
    && BufferOf(before, id) <= after[id] && EndsWith(after[id], text)
    && forall k :: k in before && k != id ==> after[k] == before[k]
  }

  /** A chunk extends its own buffer and leaves the others alone. */
  lemma AccumulateTouchesOneBuffer(buffers: map<string, string>, current: Option<string>, c: Chunk)
    ensures var (buffers', shown, current') := Accumulate(buffers, current, c);
      var target := Target(current, c);
      if target.None? then buffers' == buffers && shown == None && current' == current
      else ExtendsOnly(buffers, buffers', target.value, c.text) && shown == Some(buffers'[target.value]) && current' == target
  {
  }

  // Throttling

  const MIN_INTERVAL_SECONDS: real := 1.0
  const MIN_CHARS: nat := 60

  /** Something the stream yields, and the clock reading used if an update is considered. */
  datatype Event =
    | Chunked(chunk: Chunk, at: real)
    | Values(response: string, clarifies: bool, unresolved: string, resolved: string, at: real)
    | Ignored(at: real)

  datatype Update = Update(text: string, at: real)

  datatype Loop = Loop(
    buffers: map<string, string>,
    current: Option<string>,
    latest: string,
    values: Option<Event>,
    published: string,
    publishedAt: real,
    updates: seq<Update>)

  function Start(): Loop {
    Loop(map[], None, "", None, "", 0.0, [])
  }

  function Absorbed(l: Loop, e: Event): Loop {
    match e
    case Chunked(c, _) =>
      var (buffers, shown, current) := Accumulate(l.buffers, l.current, c);
      l.(buffers := buffers, current := current,
         latest := if shown.Some? && shown.value != "" then shown.value else l.latest)
    case Values(response, clarifies, _, _, _) =>
      l.(values := Some(e), latest := if clarifies && response != "" then response else l.latest)
    case Ignored(_) => l
  }

  predicate Due(l: Loop, at: real) {
    && l.latest != "" && l.latest != l.published
    && (l.published == "" || at - l.publishedAt >= MIN_INTERVAL_SECONDS || |l.latest| - |l.published| >= MIN_CHARS)
  }

  function Published(l: Loop, at: real): Loop {
    if Due(l, at) then l.(published := l.latest, publishedAt := at, updates := l.updates + [Update(l.latest, at)])
    else l
  }

  function OnEvent(l: Loop, e: Event): Loop {
    Published(Absorbed(l, e), e.at)
  }

  function RunAll(l: Loop, events: seq<Event>): Loop
    decreases |events|
  {
    if events == [] then l else RunAll(OnEvent(l, events[0]), events[1..])
  }

  datatype Ending = Finished | Busy | Failed

  datatype Outbound = Outbound(text: string, isFinal: bool)

  const CURSOR := " \U{2589}"
  const BUSY_MESSAGE := "This conversation is already processing another request. Please wait for it to finish and try again."
  const ERROR_MESSAGE := "An error occurred while processing your request. Please try again."
  const EMPTY_MESSAGE := "(No response from agent)"

  function Appended(text: string, more: string): string {
    if more == "" then text else if text == "" then more else text + "\n\n" + more
  }

  /** The response with the file names appended, before any fallback. */
  function Response(l: Loop): string {
    match l.values
    case Some(Values(response, _, unresolved, resolved, _)) => Appended(Appended(response, unresolved), resolved)
    case _ => l.latest
  }

  function Shown(updates: seq<Update>): seq<Outbound> {
    seq(|updates|, i requires 0 <= i < |updates| => Outbound(updates[i].text + CURSOR, false))
  }

  /** The final text is never empty; it is a fallback exactly when there is no response. */
  ghost predicate ClosesRun(l: Loop, ending: Ending, text: string) {
    && text != ""
    && (Response(l) != "" ==> text == Response(l))
    && (Response(l) == "" && ending.Busy? ==> text == BUSY_MESSAGE)
    && (Response(l) == "" && ending.Failed? ==> text == ERROR_MESSAGE)
    && (Response(l) == "" && ending.Finished? ==> text == if l.latest != "" then l.latest else EMPTY_MESSAGE)
  }

  /** The text of the final message. */
  method FinalText(ghost l: Loop, values: Option<Event>, latest: string, ending: Ending) returns (response: string)
    requires l.values == values && l.latest == latest && (values.Some? ==> values.value.Values?)
    ensures ClosesRun(l, ending, response)
  {
    response := latest;
    var attachments := "";
    if values.Some? {
      response := Appended(Appended(values.value.response, values.value.unresolved), values.value.resolved);
      attachments := values.value.resolved;
    }
    assert response == Response(l);
    if response == "" {
      if attachments != "" {
        response := attachments;
      } else if ending.Busy? {
        response := BUSY_MESSAGE;
      } else if ending.Failed? {
        response := ERROR_MESSAGE;
      } else {
        response := if latest != "" then latest else EMPTY_MESSAGE;
      }
    }
  }

  /**
    `_handle_streaming_chat`: the loop over the stream and the `finally` that closes it. Every
    run publishes the throttled updates and then exactly one final message.
   */
  method HandleStreamingChat(events: seq<Event>, ending: Ending) returns (out: seq<Outbound>)
    ensures var l := RunAll(Start(), events);
      && |out| == |l.updates| + 1
      && out[..|out| - 1] == Shown(l.updates)
      && out[|out| - 1].isFinal
      && ClosesRun(l, ending, out[|out| - 1].text)
  {
    out := [];
    var buffers: map<string, string> := map[];
    var current: Option<string> := None;
    var latest, published, publishedLen, publishedAt := "", "", 0, 0.0;
    var values: Option<Event> := None;
    ghost var updates: seq<Update> := [];
    for i := 0 to |events|
      invariant publishedLen == |published|
      invariant values.Some? ==> values.value.Values?
      invariant RunAll(Loop(buffers, current, latest, values, published, publishedAt, updates), events[i..])
             == RunAll(Start(), events)
      invariant out == Shown(updates)
    {
      var e := events[i];
      ghost var before := Loop(buffers, current, latest, values, published, publishedAt, updates);
      assert events[i..][0] == e && events[i..][1..] == events[i + 1..];
      if e.Chunked? {
        var (newBuffers, accumulated, newCurrent) := Accumulate(buffers, current, e.chunk);
        buffers, current := newBuffers, newCurrent;
        if accumulated.Some? && accumulated.value != "" {
          latest := accumulated.value;
        }
      } else if e.Values? {
        values := Some(e);
        if e.clarifies && e.response != "" && e.response != latest {
          latest := e.response;
        }
      }
      assert Absorbed(before, e) == Loop(buffers, current, latest, values, published, publishedAt, updates);
      if latest == "" || latest == published {
        continue;
      }
      var newChars := |latest| - publishedLen;
      if published != "" && e.at - publishedAt < MIN_INTERVAL_SECONDS && newChars < MIN_CHARS {
        continue;
      }
      out := out + [Outbound(latest + CURSOR, false)];
      updates := updates + [Update(latest, e.at)];
      assert out == Shown(updates);
      published, publishedLen, publishedAt := latest, |latest|, e.at;
    }
    assert events[|events|..] == [];
    ghost var l := Loop(buffers, current, latest, values, published, publishedAt, updates);
    assert l == RunAll(Start(), events);
    var response := FinalText(l, values, latest, ending);
    ghost var shown := out;
    out := out + [Outbound(response, true)];
    assert out[..|out| - 1] == shown;
  }

  // How many updates a run publishes

  /** Neighbouring updates differ, and are a second apart or at least sixty characters longer. */
  ghost predicate Spaced(us: seq<Update>) {
    forall i :: 0 < i < |us| ==>
      && us[i].text != us[i - 1].text
      && us[i - 1].at <= us[i].at
      && (us[i].at - us[i - 1].at >= MIN_INTERVAL_SECONDS || |us[i].text| - |us[i - 1].text| >= MIN_CHARS)
  }

  predicate Ticking(events: seq<Event>, clock: real) {
    events == [] || (clock <= events[0].at && Ticking(events[1..], events[0].at))
  }

  ghost predicate LoopInv(l: Loop, clock: real) {
    && Spaced(l.updates)
    && (l.updates == [] ==> l.published == "")
    && (l.updates != [] ==>
          l.published != "" && l.publishedAt <= clock && l.updates[|l.updates| - 1] == Update(l.published, l.publishedAt))
  }

  lemma PublishKeepsSpacing(l: Loop, clock: real, at: real)
    requires LoopInv(l, clock) && clock <= at
    ensures LoopInv(Published(l, at), at)
  {
    if Due(l, at) {
      var us, us' := l.updates, Published(l, at).updates;
      assert forall i :: 0 <= i < |us| ==> us'[i] == us[i];
    }
  }

  lemma {:induction false} RunIsSpaced(l: Loop, events: seq<Event>, clock: real)
    requires LoopInv(l, clock) && Ticking(events, clock)
    ensures Spaced(RunAll(l, events).updates)
    decreases |events|
  {
    if events != [] {
      var e := events[0];
      PublishKeepsSpacing(Absorbed(l, e), clock, e.at);
      RunIsSpaced(OnEvent(l, e), events[1..], e.at);
    }
  }

  /** By how much, in all, updates were shorter than the ones before them. */
  function Shrinkage(us: seq<Update>): nat {
    if |us| < 2 then 0
    else
      var a, b := us[|us| - 2].text, us[|us| - 1].text;
      Shrinkage(us[..|us| - 1]) + (if |a| > |b| then |a| - |b| else 0)
  }

  lemma {:induction false} SpacingBounds(us: seq<Update>)
    requires us != [] && Spaced(us)
    ensures 60.0 * (|us| - 1) as real <=
            60.0 * (us[|us| - 1].at - us[0].at) + (|us[|us| - 1].text| - |us[0].text| + Shrinkage(us)) as real
  {
    if |us| > 1 {
      var init := us[..|us| - 1];
      SpacingBounds(init);
    }
  }

  /**
    Every run, whatever its ids: the number of updates is bounded by the time, the length of the
    last update and the text given up on the way.
   */
  lemma UpdatesAreBounded(events: seq<Event>, clock: real)
    requires Ticking(events, clock)
    ensures var us := RunAll(Start(), events).updates;
      Spaced(us) && (us != [] ==>
        60.0 * (|us| - 1) as real <= 60.0 * (us[|us| - 1].at - us[0].at) + (|us[|us| - 1].text| + Shrinkage(us)) as real)
  {
    RunIsSpaced(Start(), events, clock);
    var us := RunAll(Start(), events).updates;
    if us != [] {
      SpacingBounds(us);
    }
  }

  /** No clarification replaces the text. */
  predicate NoClarification(events: seq<Event>) {
    events == [] || (!(events[0].Values? && events[0].clarifies && events[0].response != "") && NoClarification(events[1..]))
  }

  /** The text shown is the one buffer, and updates only ever grew. */
  ghost predicate Growing(l: Loop, id: string) {
    && (l.latest == "" || l.latest == BufferOf(l.buffers, id))
    && l.published <= l.latest
    && (l.updates != [] ==> l.updates[|l.updates| - 1].text == l.published)
    && Shrinkage(l.updates) == 0
  }

  lemma AbsorbGrows(l: Loop, e: Event, id: string)
    requires Growing(l, id) && Absorbed(l, e).buffers.Keys <= {id} && NoClarification([e])
    ensures Growing(Absorbed(l, e), id) && l.buffers.Keys <= Absorbed(l, e).buffers.Keys
  {
    if e.Chunked? {
      AccumulateTouchesOneBuffer(l.buffers, l.current, e.chunk);
      var target := Target(l.current, e.chunk);
      if target.Some? {
        assert target.value in Absorbed(l, e).buffers;
      }
    }
  }

  lemma PublishGrows(l: Loop, at: real, id: string)
    requires Growing(l, id)
    ensures Growing(Published(l, at), id)
  {
  }

  lemma {:induction false} BuffersRemain(l: Loop, events: seq<Event>)
    ensures l.buffers.Keys <= RunAll(l, events).buffers.Keys
    decreases |events|
  {
    if events != [] {
      if events[0].Chunked? {
        AccumulateTouchesOneBuffer(l.buffers, l.current, events[0].chunk);
      }
      BuffersRemain(OnEvent(l, events[0]), events[1..]);
    }
  }

  lemma {:induction false} RunGrows(l: Loop, events: seq<Event>, id: string)
    requires Growing(l, id) && NoClarification(events) && RunAll(l, events).buffers.Keys <= {id}
    ensures Growing(RunAll(l, events), id)
    decreases |events|
  {
    if events != [] {
      BuffersRemain(OnEvent(l, events[0]), events[1..]);
      AbsorbGrows(l, events[0], id);
      PublishGrows(Absorbed(l, events[0]), events[0].at, id);
      RunGrows(OnEvent(l, events[0]), events[1..], id);
    }
  }

  /** A reply in one buffer without clarifications: one update, one a second and one per sixty characters. */
  lemma OneReplyIsThrottled(events: seq<Event>, clock: real, id: string)
    requires Ticking(events, clock) && NoClarification(events)
    requires RunAll(Start(), events).buffers.Keys <= {id}
    ensures var l := RunAll(Start(), events);
      l.updates != [] ==>
        |l.updates| as real <=
        1.0 + (l.updates[|l.updates| - 1].at - l.updates[0].at) + |l.latest| as real / 60.0
  {
    RunGrows(Start(), events, id);
    UpdatesAreBounded(events, clock);
  }
}
