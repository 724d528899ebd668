/**
  Telegram sends of many keys in one event loop: each stands at an await while the others go on,
  and registering one key's message may forget another key's entry in mid-edit. A step is the
  code between two awaits, or the moment at which Telegram carries an edit out. The manager's
  messages for one key follow one another; running replies of the same key come at any time,
  since a message that is delivered again gets one before it is recognised.
 */
module TelegramInterleaving {
  import opened Wrappers
  import T = Telegram

  type EntryId = nat

  /** A chunk of a final text, put in place by writing it or, if so, by trusting a stale entry. */
  datatype Settlement = Settlement(chunk: string, stale: bool)

  /** A message in the chats: who sent it, what it shows, and the chunk that a final text left in it. */
  datatype Post = Post(key: string, text: string, final: Option<Settlement>)

  /**
    A dictionary held by `_stream_messages`, and by reference by sends under way. `stale` records
    that an edit failed unclearly and that nothing has brought the entry back in step since.
   */
  datatype Entry = Entry(key: string, messageId: nat, lastText: string, stale: bool)

  /** Where the manager's message for a key stands. */
  datatype Op =
    | Starting(text: string)                                   // the first message is on its way
    | Editing(entry: EntryId, text: string, done: bool)        // `done` once Telegram has carried it out
    | Falling(entry: EntryId, text: string)                    // the message sent after a failed edit
    | Closing(entry: EntryId, chunks: seq<string>, done: bool) // the edit with the first chunk of a final text
    | Following(chunks: seq<string>, ids: seq<nat>)            // the messages that hold the chunks so far

  /** What the sends of one key work on; `running` counts its running replies under way. */
  datatype View = View(posts: seq<Post>, entries: seq<Entry>, stream: Option<EntryId>, op: Option<Op>, running: nat)

  datatype Action =
    | Running
    | RunningAnswer(outcome: T.Outcome)
    | Update(text: string, early: bool)
    | Final(text: string)
    | CarryOut
    | Answer(outcome: T.Outcome)
    | Follow(outcome: T.Outcome)
    | End
    | GiveUp                                                   // the last try has raised

  function EntryAt(v: View, o: EntryId): Entry {
    if o < |v.entries| then v.entries[o] else Entry("", 0, "", false)
  }

  function Shown(v: View, o: EntryId): string {
    var m := EntryAt(v, o).messageId;
    if 1 <= m <= |v.posts| then v.posts[m - 1].text else ""
  }

  function WithEntry(v: View, o: EntryId, e: Entry): View {
    if o < |v.entries| then v.(entries := v.entries[o := e]) else v
  }

  function WithPost(v: View, o: EntryId, text: string, final: Option<Settlement>): View {
    var m := EntryAt(v, o).messageId;
    if 1 <= m <= |v.posts| then v.(posts := v.posts[m - 1 := v.posts[m - 1].(text := text, final := final)]) else v
  }

  /** An accepted or unclear request was carried out. */
  predicate Made(o: T.Outcome) {
    o.Accepted? || o.Unclear?
  }

  function Posted(v: View, p: Post, o: T.Outcome): View {
    if Made(o) then v.(posts := v.posts + [p]) else v
  }

  predicate IsEdit(op: Op) {
    op.Editing? || op.Closing?
  }

  predicate OnEntry(op: Op) {
    op.Editing? || op.Closing? || op.Falling?
  }

  function EditText(op: Op): string
    requires IsEdit(op)
  {
    match op
    case Editing(_, text, _) => text
    case Closing(_, chunks, _) => if chunks == [] then "" else chunks[0]
  }

  predicate Enabled(v: View, a: Action) {
    match a
    case Running => true
    case RunningAnswer(o) => v.running > 0 && !o.NotModified?
    case Update(_, _) => v.op.None?
    case Final(_) => v.op.None?
    case CarryOut => v.op.Some? && IsEdit(v.op.value) && !v.op.value.done
    case Answer(o) => v.op.Some? && !v.op.value.Following? && CanAnswer(v, v.op.value, o)
    case Follow(o) => v.op.Some? && v.op.value.Following? && |v.op.value.ids| < |v.op.value.chunks| && !o.NotModified?
    case End => v.op.Some? && v.op.value.Following? && |v.op.value.ids| == |v.op.value.chunks|
    case GiveUp => v.op.Some? && v.op.value.Following? && |v.op.value.ids| < |v.op.value.chunks|
  }

  /** An edit is answered after it was carried out, or was not and never will be. */
  predicate CanAnswer(v: View, op: Op, o: T.Outcome) {
    if IsEdit(op) then
      if op.done then Made(o)
      else o.RateLimited? || o.Refused? || (o.NotModified? && Shown(v, op.entry) == EditText(op))
    else !o.NotModified?
  }

  /** `_send_stream_update` up to its first await; `early` says that the interval is not over. */
  function Updated(v: View, text: string, early: bool): View {
    match v.stream
    case None => v.(op := Some(Starting(text)))
    case Some(o) =>
      if early || EntryAt(v, o).lastText == text then v
      else v.(op := Some(Editing(o, text, false)))
  }

  /** `send` of a final text takes the entry out; a first chunk that the entry says is shown needs no edit. */
  function Finalized(v: View, text: string): View {
    match v.stream
    case None => v.(op := Some(Following([text], [])))
    case Some(o) =>
      var v1, chunks, e := v.(stream := None), T.Split(text), EntryAt(v, o);
      if e.lastText != chunks[0] then v1.(op := Some(Closing(o, chunks, false)))
      else WithPost(v1, o, Shown(v, o), Some(Settlement(chunks[0], e.stale))).(op := Some(Following(chunks, [e.messageId])))
  }

  function CarriedOut(v: View, op: Op): View
    requires IsEdit(op)
  {
    var v1 := WithPost(v, op.entry, EditText(op), None);
    match op
    case Editing(entry, text, _) => v1.(op := Some(Editing(entry, text, true)))
    case Closing(entry, chunks, _) => v1.(op := Some(Closing(entry, chunks, true)))
  }

  /** A new message, if accepted, becomes the entry of its key. */
  function Started(v: View, key: string, text: string, o: T.Outcome): View {
    var v1 := Posted(v, Post(key, text, None), o);
    if !o.Accepted? then v1
    else v1.(entries := v.entries + [Entry(key, |v1.posts|, text, false)], stream := Some(|v.entries|))
  }

  function Edited(v: View, entry: EntryId, text: string, o: T.Outcome): View {
    match o
    case Accepted => WithEntry(v, entry, EntryAt(v, entry).(lastText := text, stale := false)).(op := None)
    case NotModified => WithEntry(v, entry, EntryAt(v, entry).(lastText := text, stale := false)).(op := None)
    case RateLimited => v.(op := None)
    case Refused => v.(op := Some(Falling(entry, text)))
    case Unclear => WithEntry(v, entry, EntryAt(v, entry).(stale := true)).(op := Some(Falling(entry, text)))
  }

  function Fallen(v: View, key: string, entry: EntryId, text: string, o: T.Outcome): View {
    var v1 := Posted(v, Post(key, text, None), o).(op := None);
    if !o.Accepted? then v1
    else WithEntry(v1, entry, Entry(key, |v1.posts|, text, false))
  }

  /** After a rate limit the edit may be tried again; after another failure a fresh message follows. */
  function Closed(v: View, entry: EntryId, chunks: seq<string>, o: T.Outcome): View
    requires chunks != []
  {
    if o.Accepted? || o.NotModified? then
      WithPost(v, entry, Shown(v, entry), Some(Settlement(chunks[0], false)))
      .(op := Some(Following(chunks, [EntryAt(v, entry).messageId])))
    else if o.RateLimited? then v
    else v.(op := Some(Following(chunks, [])))
  }

  function Answered(v: View, key: string, op: Op, o: T.Outcome): View {
    match op
    case Starting(text) => Started(v.(op := None), key, text, o)
    case Editing(entry, text, _) => Edited(v, entry, text, o)
    case Falling(entry, text) => Fallen(v, key, entry, text, o)
    case Closing(entry, chunks, _) => if chunks == [] then v else Closed(v, entry, chunks, o)
    case Following(_, _) => v
  }

  /** The next chunk in a message of its own. */
  function Followed(v: View, key: string, chunks: seq<string>, ids: seq<nat>, o: T.Outcome): View
    requires |ids| < |chunks|
  {
    var chunk := chunks[|ids|];
    if o.Accepted? then
      v.(posts := v.posts + [Post(key, chunk, Some(Settlement(chunk, false)))],
         op := Some(Following(chunks, ids + [|v.posts| + 1])))
    else Posted(v, Post(key, chunk, None), o)
  }

  function Acted(v: View, key: string, a: Action): View
    requires Enabled(v, a)
  {
    match a
    case Running => v.(running := v.running + 1)
    case RunningAnswer(o) => Started(v.(running := v.running - 1), key, T.RUNNING_TEXT, o)
    case Update(text, early) => Updated(v, text, early)
    case Final(text) => Finalized(v, text)
    case CarryOut => CarriedOut(v, v.op.value)
    case Answer(o) => Answered(v, key, v.op.value, o)
    case Follow(o) => Followed(v, key, v.op.value.chunks, v.op.value.ids, o)
    case End => v.(op := None)
    case GiveUp => v.(op := None)
  }

  // The whole channel

  datatype State = State(
    posts: seq<Post>,
    entries: seq<Entry>,
    streams: map<string, EntryId>,
    ops: map<string, Op>,
    running: map<string, nat>)

  function Lookup<V>(m: map<string, V>, key: string): Option<V> {
    if key in m then Some(m[key]) else None
  }

  function Stored<V>(m: map<string, V>, key: string, v: Option<V>): map<string, V> {
    match v
    case Some(x) => m[key := x]
    case None => m - {key}
  }

  function ViewOf(s: State, key: string): View {
    View(s.posts, s.entries, Lookup(s.streams, key), Lookup(s.ops, key), if key in s.running then s.running[key] else 0)
  }

  /** The step of one key; if it registers a message, entries of other keys may be forgotten for it. */
  datatype Move = Move(key: string, action: Action, forgotten: set<string>)

  function Step(s: State, m: Move): State
    requires Enabled(ViewOf(s, m.key), m.action)
  {
    var v := Acted(ViewOf(s, m.key), m.key, m.action);
    var kept := if |v.entries| > |s.entries| then s.streams - m.forgotten else s.streams;
    State(v.posts, v.entries, Stored(kept, m.key, v.stream), Stored(s.ops, m.key, v.op), s.running[m.key := v.running])
  }

  function Run(s: State, moves: seq<Move>): Option<State>
    decreases |moves|
  {
    if moves == [] then Some(s)
    else if !Enabled(ViewOf(s, moves[0].key), moves[0].action) then None
    else Run(Step(s, moves[0]), moves[1..])
  }

  const INIT := State([], [], map[], map[], map[])

  // What every step keeps

  /** The key's own entry, for a message of its own that no final text has settled. */
  predicate Own(v: View, key: string, o: EntryId) {
    && o < |v.entries| && v.entries[o].key == key
    && 1 <= v.entries[o].messageId <= |v.posts|
    && v.posts[v.entries[o].messageId - 1].key == key
    && v.posts[v.entries[o].messageId - 1].final.None?
  }

  /** An edit of the entry was carried out and has not been answered yet. */
  predicate InFlight(v: View, o: EntryId) {
    v.op.Some? && v.op.value.Editing? && v.op.value.done && v.op.value.entry == o
  }

  /** The entry says what its message shows. */
  predicate Right(v: View, o: EntryId) {
    Shown(v, o) == EntryAt(v, o).lastText
  }

  /** The tracked entry is the given one, or one for another message. */
  predicate Aside(v: View, o: EntryId) {
    v.stream.Some? && v.stream.value != o ==> EntryAt(v, v.stream.value).messageId != EntryAt(v, o).messageId
  }

  /** The chunks so far stand in the messages, oldest first; only the first can have been trusted. */
  ghost predicate Placed(posts: seq<Post>, key: string, chunks: seq<string>, ids: seq<nat>) {
    && |ids| <= |chunks|
    && (forall i :: 0 <= i < |ids| ==> 1 <= ids[i] <= |posts| && posts[ids[i] - 1].key == key)
    && (forall i :: 0 <= i < |ids| ==> posts[ids[i] - 1].final.Some? && posts[ids[i] - 1].final.value.chunk == chunks[i])
    && (forall i :: 0 < i < |ids| ==> !posts[ids[i] - 1].final.value.stale)
    && (forall i, j :: 0 <= i < j < |ids| ==> ids[i] < ids[j])
  }

  ghost predicate OpGood(v: View, key: string, op: Op) {
    match op
    case Starting(_) => true
    case Editing(o, text, done) =>
      && Own(v, key, o) && Aside(v, o)
      && EntryAt(v, o).lastText != text && (done ==> Shown(v, o) == text)
    case Falling(o, text) => Own(v, key, o) && Aside(v, o)
    case Closing(o, chunks, done) =>
      && chunks != [] && Own(v, key, o) && Aside(v, o) && v.stream != Some(o)
      && (done ==> Shown(v, o) == chunks[0])
    case Following(chunks, ids) => Placed(v.posts, key, chunks, ids)
  }

  /** The entry is right exactly if no edit of it is in flight and none has left it stale. */
  predicate StreamGood(v: View, key: string, o: EntryId) {
    Own(v, key, o) && (Right(v, o) <==> !InFlight(v, o) && !EntryAt(v, o).stale)
  }

  ghost predicate Good(v: View, key: string) {
    && (v.op.Some? ==> OpGood(v, key, v.op.value))
    && (v.stream.Some? ==> StreamGood(v, key, v.stream.value))
  }

  /** The message shows the chunk that a final text left in it exactly if it was not trusted to a stale entry. */
  predicate Settled(p: Post) {
    p.final.Some? ==> (p.text == p.final.value.chunk <==> !p.final.value.stale)
  }

  ghost predicate AllSettled(posts: seq<Post>) {
    forall i :: 0 <= i < |posts| ==> Settled(posts[i])
  }

  /** What has been settled stays, and only posts and entries of the key change. */
  ghost predicate Leaves(v: View, w: View, key: string) {
    && |v.posts| <= |w.posts| && |v.entries| <= |w.entries|
    && (forall i :: 0 <= i < |v.posts| && (v.posts[i].key != key || v.posts[i].final.Some?) ==> w.posts[i] == v.posts[i])
    && (forall o :: 0 <= o < |v.entries| && v.entries[o].key != key ==> w.entries[o] == v.entries[o])
  }

  ghost predicate Kept(v: View, w: View, key: string) {
    Good(w, key) && Leaves(v, w, key) && (AllSettled(v.posts) ==> AllSettled(w.posts))
  }

  /** A message written for an entry of the key: nobody else's changes, nor does the key's other one. */
  lemma WithPostSpec(v: View, key: string, o: EntryId, text: string, final: Option<Settlement>)
    requires Own(v, key, o) && (final.Some? ==> (text == final.value.chunk <==> !final.value.stale))
    ensures var w := WithPost(v, o, text, final);
      && Leaves(v, w, key) && (AllSettled(v.posts) ==> AllSettled(w.posts))
      && w == v.(posts := w.posts) && |w.posts| == |v.posts| && Shown(w, o) == text
      && w.posts[v.entries[o].messageId - 1] == Post(key, text, final)
      && (final.None? ==> Own(w, key, o))
  {
  }

  lemma WithPostAside(v: View, key: string, o: EntryId, text: string, final: Option<Settlement>, p: EntryId)
    requires Own(v, key, o) && Own(v, key, p) && v.entries[p].messageId != v.entries[o].messageId
    ensures var w := WithPost(v, o, text, final); Own(w, key, p) && Shown(w, p) == Shown(v, p)
  {
  }

  /** Other sends of the key go on with the same messages and entries. */
  lemma IdleKeeps(v: View, key: string, op: Option<Op>, running: nat)
    requires Good(v, key)
    requires op == v.op || (!(v.op.Some? && v.op.value.Editing? && v.op.value.done) && op.None?)
    ensures Kept(v, v.(op := op, running := running), key)
  {
  }

  lemma UpdatedKeeps(v: View, key: string, text: string, early: bool)
    requires Good(v, key) && v.op.None?
    ensures Kept(v, Updated(v, text, early), key)
  {
  }

  lemma FinalizedKeeps(v: View, key: string, text: string)
    requires Good(v, key) && v.op.None?
    ensures Kept(v, Finalized(v, text), key)
  {
    if v.stream.Some? {
      var o, chunks := v.stream.value, T.Split(text);
      if v.entries[o].lastText == chunks[0] {
        WithPostSpec(v.(stream := None), key, o, Shown(v, o), Some(Settlement(chunks[0], v.entries[o].stale)));
      }
    }
  }

  lemma EditingCarried(v: View, key: string, o: EntryId, text: string)
    requires Good(v, key) && v.op == Some(Editing(o, text, false))
    ensures Good(WithPost(v, o, text, None).(op := Some(Editing(o, text, true))), key)
  {
    var w := WithPost(v, o, text, None).(op := Some(Editing(o, text, true)));
    WithPostSpec(v, key, o, text, None);
    assert w.entries == v.entries && w.stream == v.stream && Shown(w, o) == text && Own(w, key, o);
    assert OpGood(w, key, w.op.value);
    if v.stream.Some? && v.stream.value != o {
      WithPostAside(v, key, o, text, None, v.stream.value);
      assert Shown(w, v.stream.value) == Shown(v, v.stream.value) && Own(w, key, v.stream.value);
    }
  }

  lemma ClosingCarried(v: View, key: string, o: EntryId, chunks: seq<string>)
    requires Good(v, key) && v.op == Some(Closing(o, chunks, false))
    ensures chunks != [] && Good(WithPost(v, o, chunks[0], None).(op := Some(Closing(o, chunks, true))), key)
  {
    var w := WithPost(v, o, chunks[0], None).(op := Some(Closing(o, chunks, true)));
    WithPostSpec(v, key, o, chunks[0], None);
    assert w.entries == v.entries && w.stream == v.stream && Shown(w, o) == chunks[0] && Own(w, key, o);
    assert OpGood(w, key, w.op.value);
    if v.stream.Some? {
      WithPostAside(v, key, o, chunks[0], None, v.stream.value);
      assert Shown(w, v.stream.value) == Shown(v, v.stream.value) && Own(w, key, v.stream.value);
    }
  }

  lemma CarriedOutKeeps(v: View, key: string)
    requires Good(v, key) && Enabled(v, CarryOut)
    ensures Kept(v, CarriedOut(v, v.op.value), key)
  {
    WithPostSpec(v, key, v.op.value.entry, EditText(v.op.value), None);
    match v.op.value
    case Editing(o, text, _) => EditingCarried(v, key, o, text);
    case Closing(o, chunks, _) => ClosingCarried(v, key, o, chunks);
  }

  /** More messages and entries. */
  predicate Grown(v: View, w: View) {
    v.posts <= w.posts && v.entries <= w.entries
  }

  lemma GrownOwn(v: View, w: View, key: string, o: EntryId)
    requires Grown(v, w) && Own(v, key, o)
    ensures Own(w, key, o) && EntryAt(w, o) == EntryAt(v, o) && Shown(w, o) == Shown(v, o)
    ensures EntryAt(v, o).messageId <= |v.posts|
  {
  }

  lemma GrownOpGood(v: View, w: View, key: string)
    requires Good(v, key) && Grown(v, w) && w.op == v.op && w.op.Some?
    requires w.stream == v.stream || (w.stream.Some? && EntryAt(w, w.stream.value).messageId > |v.posts| && w.stream.value >= |v.entries|)
    ensures OpGood(w, key, w.op.value)
  {
    if OnEntry(v.op.value) {
      GrownOwn(v, w, key, v.op.value.entry);
      if v.stream.Some? {
        GrownOwn(v, w, key, v.stream.value);
      }
    }
  }

  lemma GrownLeaves(v: View, w: View, key: string)
    requires Grown(v, w) && forall i :: |v.posts| <= i < |w.posts| ==> Settled(w.posts[i])
    ensures Leaves(v, w, key) && (AllSettled(v.posts) ==> AllSettled(w.posts))
  {
  }

  lemma StartedKeeps(v: View, key: string, text: string, o: T.Outcome)
    requires Good(v, key) && !o.NotModified?
    ensures Kept(v, Started(v, key, text, o), key)
  {
    var w := Started(v, key, text, o);
    GrownLeaves(v, w, key);
    if w.op.Some? {
      GrownOpGood(v, w, key);
    }
    if v.stream.Some? {
      GrownOwn(v, w, key, v.stream.value);
    }
  }

  lemma RunningAnswerKeeps(v: View, key: string, o: T.Outcome)
    requires Good(v, key) && v.running > 0 && !o.NotModified?
    ensures Kept(v, Started(v.(running := v.running - 1), key, T.RUNNING_TEXT, o), key)
  {
    var u := v.(running := v.running - 1);
    IdleKeeps(v, key, v.op, v.running - 1);
    StartedKeeps(u, key, T.RUNNING_TEXT, o);
    assert u.posts == v.posts && u.entries == v.entries;
  }

  lemma PlacedMore(posts: seq<Post>, key: string, chunks: seq<string>, ids: seq<nat>)
    requires Placed(posts, key, chunks, ids) && |ids| < |chunks|
    ensures var more := posts + [Post(key, chunks[|ids|], Some(Settlement(chunks[|ids|], false)))];
      Placed(more, key, chunks, ids + [|posts| + 1])
  {
  }

  lemma ChunkPosted(v: View, key: string, chunks: seq<string>, ids: seq<nat>)
    requires Good(v, key) && v.op == Some(Following(chunks, ids)) && |ids| < |chunks|
    ensures Kept(v, Followed(v, key, chunks, ids, T.Accepted), key)
  {
    var w := Followed(v, key, chunks, ids, T.Accepted);
    GrownLeaves(v, w, key);
    PlacedMore(v.posts, key, chunks, ids);
    if v.stream.Some? {
      GrownOwn(v, w, key, v.stream.value);
    }
  }

  lemma ChunkNotPosted(v: View, key: string, p: Post, o: T.Outcome)
    requires Good(v, key) && v.op.Some? && v.op.value.Following? && Settled(p)
    ensures Kept(v, Posted(v, p, o), key)
  {
    var w := Posted(v, p, o);
    GrownLeaves(v, w, key);
    GrownOpGood(v, w, key);
    if v.stream.Some? {
      GrownOwn(v, w, key, v.stream.value);
    }
  }

  lemma FollowedKeeps(v: View, key: string, o: T.Outcome)
    requires Good(v, key) && Enabled(v, Follow(o))
    ensures Kept(v, Followed(v, key, v.op.value.chunks, v.op.value.ids, o), key)
  {
    var chunks, ids := v.op.value.chunks, v.op.value.ids;
    if o.Accepted? {
      ChunkPosted(v, key, chunks, ids);
    } else {
      ChunkNotPosted(v, key, Post(key, chunks[|ids|], None), o);
    }
  }

  /** The entry itself is rewritten, for the same message. */
  lemma WithEntrySpec(v: View, key: string, o: EntryId, lastText: string, stale: bool)
    requires Own(v, key, o)
    ensures var e := v.entries[o].(lastText := lastText, stale := stale);
      var w := WithEntry(v, o, e);
      && Leaves(v, w, key) && w == v.(entries := w.entries) && |w.entries| == |v.entries|
      && Own(w, key, o) && EntryAt(w, o) == e && Shown(w, o) == Shown(v, o)
      && forall p: nat :: Own(v, key, p) && p != o ==> Own(w, key, p) && EntryAt(w, p) == EntryAt(v, p) && Shown(w, p) == Shown(v, p)
  {
  }

  lemma EditLearned(v: View, key: string, o: EntryId, text: string)
    requires Good(v, key) && v.op.Some? && v.op.value.Editing? && v.op.value.entry == o && v.op.value.text == text
    requires Shown(v, o) == text
    ensures Kept(v, WithEntry(v, o, EntryAt(v, o).(lastText := text, stale := false)).(op := None), key)
  {
    WithEntrySpec(v, key, o, text, false);
  }

  lemma EditUnclear(v: View, key: string, o: EntryId, text: string)
    requires Good(v, key) && v.op == Some(Editing(o, text, true))
    ensures Kept(v, WithEntry(v, o, EntryAt(v, o).(stale := true)).(op := Some(Falling(o, text))), key)
  {
    WithEntrySpec(v, key, o, EntryAt(v, o).lastText, true);
  }

  lemma EditFailed(v: View, key: string, o: EntryId, text: string, op: Option<Op>)
    requires Good(v, key) && v.op == Some(Editing(o, text, false)) && (op == None || op == Some(Falling(o, text)))
    ensures Kept(v, v.(op := op), key)
  {
  }

  lemma EditedKeeps(v: View, key: string, o: T.Outcome)
    requires Good(v, key) && v.op.Some? && v.op.value.Editing? && Enabled(v, Answer(o))
    ensures Kept(v, Edited(v, v.op.value.entry, v.op.value.text, o), key)
  {
    var entry, text := v.op.value.entry, v.op.value.text;
    match o
    case Accepted => EditLearned(v, key, entry, text);
    case NotModified => EditLearned(v, key, entry, text);
    case RateLimited => EditFailed(v, key, entry, text, None);
    case Refused => EditFailed(v, key, entry, text, Some(Falling(entry, text)));
    case Unclear => EditUnclear(v, key, entry, text);
  }

  lemma FallenKeeps(v: View, key: string, o: T.Outcome)
    requires Good(v, key) && v.op.Some? && v.op.value.Falling? && Enabled(v, Answer(o))
    ensures Kept(v, Fallen(v, key, v.op.value.entry, v.op.value.text, o), key)
  {
  }

  /** The first chunk is in place. */
  lemma ClosedWell(v: View, key: string, o: EntryId, chunks: seq<string>)
    requires Good(v, key) && v.op.Some? && v.op.value.Closing? && v.op.value.entry == o && v.op.value.chunks == chunks
    requires chunks != [] && Shown(v, o) == chunks[0]
    ensures var mark := Some(Settlement(chunks[0], false));
      Kept(v, WithPost(v, o, Shown(v, o), mark).(op := Some(Following(chunks, [EntryAt(v, o).messageId]))), key)
  {
    var mark := Some(Settlement(chunks[0], false));
    var w := WithPost(v, o, Shown(v, o), mark).(op := Some(Following(chunks, [EntryAt(v, o).messageId])));
    WithPostSpec(v, key, o, Shown(v, o), mark);
    assert OpGood(w, key, w.op.value);
    if v.stream.Some? {
      WithPostAside(v, key, o, Shown(v, o), mark, v.stream.value);
      assert Shown(w, v.stream.value) == Shown(v, v.stream.value) && Own(w, key, v.stream.value);
    }
  }

  lemma ClosedKeeps(v: View, key: string, o: T.Outcome)
    requires Good(v, key) && v.op.Some? && v.op.value.Closing? && Enabled(v, Answer(o))
    ensures v.op.value.chunks != [] && Kept(v, Closed(v, v.op.value.entry, v.op.value.chunks, o), key)
  {
    if o.Accepted? || o.NotModified? {
      ClosedWell(v, key, v.op.value.entry, v.op.value.chunks);
    }
  }

  lemma AnsweredKeeps(v: View, key: string, o: T.Outcome)
    requires Good(v, key) && Enabled(v, Answer(o))
    ensures Kept(v, Answered(v, key, v.op.value, o), key)
  {
    match v.op.value
    case Starting(text) => StartedKeeps(v.(op := None), key, text, o);
    case Editing(_, _, _) => EditedKeeps(v, key, o);
    case Falling(_, _) => FallenKeeps(v, key, o);
    case Closing(_, _, _) => ClosedKeeps(v, key, o);
  }

  /** What may come while the manager's message for the key is under way. */
  lemma RunningKeeps(v: View, key: string, a: Action)
    requires Good(v, key) && Enabled(v, a) && (a.Running? || a.RunningAnswer?)
    ensures Kept(v, Acted(v, key, a), key)
  {
    match a
    case Running => IdleKeeps(v, key, v.op, v.running + 1);
    case RunningAnswer(o) => RunningAnswerKeeps(v, key, o);
  }

  lemma BeginKeeps(v: View, key: string, a: Action)
    requires Good(v, key) && Enabled(v, a) && (a.Update? || a.Final?)
    ensures Kept(v, Acted(v, key, a), key)
  {
    match a
    case Update(text, early) => UpdatedKeeps(v, key, text, early);
    case Final(text) => FinalizedKeeps(v, key, text);
  }

  lemma GoOnKeeps(v: View, key: string, a: Action)
    requires Good(v, key) && Enabled(v, a) && (a.CarryOut? || a.Answer? || a.Follow? || a.End? || a.GiveUp?)
    ensures Kept(v, Acted(v, key, a), key)
  {
    match a
    case CarryOut => CarriedOutKeeps(v, key);
    case Answer(o) => AnsweredKeeps(v, key, o);
    case Follow(o) => FollowedKeeps(v, key, o);
    case End => IdleKeeps(v, key, None, v.running);
    case GiveUp => IdleKeeps(v, key, None, v.running);
  }

  /** A step of a key keeps its own entry good and touches nothing of another key and nothing settled. */
  lemma ActedKeeps(v: View, key: string, a: Action)
    requires Good(v, key) && Enabled(v, a)
    ensures Kept(v, Acted(v, key, a), key)
  {
    if a.Running? || a.RunningAnswer? {
      RunningKeeps(v, key, a);
    } else if a.Update? || a.Final? {
      BeginKeeps(v, key, a);
    } else {
      GoOnKeeps(v, key, a);
    }
  }

  lemma OtherOwn(v: View, w: View, mover: string, key: string, o: EntryId)
    requires Leaves(v, w, mover) && key != mover && Own(v, key, o)
    ensures Own(w, key, o) && EntryAt(w, o) == EntryAt(v, o) && Shown(w, o) == Shown(v, o)
  {
  }

  lemma OtherPlaced(v: View, w: View, mover: string, key: string, chunks: seq<string>, ids: seq<nat>)
    requires Leaves(v, w, mover) && Placed(v.posts, key, chunks, ids)
    ensures Placed(w.posts, key, chunks, ids)
  {
    forall i | 0 <= i < |ids| ensures w.posts[ids[i] - 1] == v.posts[ids[i] - 1] {
    }
  }

  lemma OtherOp(v: View, w: View, mover: string, key: string)
    requires Good(v, key) && v.op.Some? && Leaves(v, w, mover) && key != mover
    requires w.op == v.op && (w.stream == v.stream || w.stream.None?)
    ensures OpGood(w, key, w.op.value)
  {
    if OnEntry(v.op.value) {
      OtherOwn(v, w, mover, key, v.op.value.entry);
      if v.stream.Some? {
        OtherOwn(v, w, mover, key, v.stream.value);
      }
    } else if v.op.value.Following? {
      OtherPlaced(v, w, mover, key, v.op.value.chunks, v.op.value.ids);
    }
  }

  /** Another key's step, even one that forgets this key's entry. */
  lemma OthersStayGood(v: View, w: View, mover: string, key: string, stream: Option<EntryId>)
    requires Good(v, key) && Leaves(v, w, mover) && key != mover
    requires stream == v.stream || stream.None?
    ensures Good(View(w.posts, w.entries, stream, v.op, v.running), key)
  {
    var now := View(w.posts, w.entries, stream, v.op, v.running);
    if v.op.Some? {
      OtherOp(v, now, mover, key);
    }
    if stream.Some? {
      OtherOwn(v, now, mover, key, stream.value);
    }
  }

  ghost predicate Inv(s: State) {
    (forall k :: Good(ViewOf(s, k), k)) && AllSettled(s.posts)
  }

  lemma StepShowsOwn(s: State, m: Move)
    requires Enabled(ViewOf(s, m.key), m.action)
    ensures ViewOf(Step(s, m), m.key) == Acted(ViewOf(s, m.key), m.key, m.action)
  {
    var w := Acted(ViewOf(s, m.key), m.key, m.action);
    var kept := if |w.entries| > |s.entries| then s.streams - m.forgotten else s.streams;
    assert Lookup(Stored(kept, m.key, w.stream), m.key) == w.stream;
    assert Lookup(Stored(s.ops, m.key, w.op), m.key) == w.op;
  }

  /** The view of another key, with its entry kept or forgotten. */
  lemma StepShowsOther(s: State, m: Move, key: string)
    requires Enabled(ViewOf(s, m.key), m.action) && key != m.key
    ensures var v, w, v' := ViewOf(s, key), Acted(ViewOf(s, m.key), m.key, m.action), ViewOf(Step(s, m), key);
      v' == View(w.posts, w.entries, v'.stream, v.op, v.running) && (v'.stream == v.stream || v'.stream.None?)
  {
    var w := Acted(ViewOf(s, m.key), m.key, m.action);
    assert Lookup(Stored(s.ops, m.key, w.op), key) == Lookup(s.ops, key);
  }

  lemma StepKeepsGood(s: State, m: Move, key: string)
    requires Enabled(ViewOf(s, m.key), m.action)
    requires Good(ViewOf(s, m.key), m.key) && Good(ViewOf(s, key), key)
    ensures Good(ViewOf(Step(s, m), key), key)
  {
    var v := ViewOf(s, m.key);
    var w := Acted(v, m.key, m.action);
    ActedKeeps(v, m.key, m.action);
    if key == m.key {
      StepShowsOwn(s, m);
    } else {
      StepShowsOther(s, m, key);
      OthersStayGood(ViewOf(s, key), w, m.key, key, ViewOf(Step(s, m), key).stream);
    }
  }

  lemma StepKeepsInv(s: State, m: Move)
    requires Inv(s) && Enabled(ViewOf(s, m.key), m.action)
    ensures Inv(Step(s, m))
    ensures Leaves(ViewOf(s, m.key), ViewOf(Step(s, m), m.key), m.key)
  {
    forall k ensures Good(ViewOf(Step(s, m), k), k) {
      StepKeepsGood(s, m, k);
    }
    ActedKeeps(ViewOf(s, m.key), m.key, m.action);
    StepShowsOwn(s, m);
  }

  lemma {:induction false} RunKeepsInv(s: State, moves: seq<Move>)
    requires Inv(s) && Run(s, moves).Some?
    ensures Inv(Run(s, moves).value)
    decreases |moves|
  {
    if moves != [] {
      StepKeepsInv(s, moves[0]);
      RunKeepsInv(Step(s, moves[0]), moves[1..]);
    }
  }

  /**
    Over every interleaving of the sends of any number of keys, entries being forgotten at any
    time: a tracked entry is right exactly if no edit of it is in flight and none has left it
    stale; and a message that a final text took as delivered shows its chunk exactly if the text
    was not trusted to a stale entry.
   */
  lemma CacheIsRightExactlyIf(moves: seq<Move>, key: string)
    requires Run(INIT, moves).Some?
    ensures var s := Run(INIT, moves).value;
      && AllSettled(s.posts)
      && (key in s.streams ==>
            var v, o := ViewOf(s, key), s.streams[key];
            Own(v, key, o) && (Right(v, o) <==> !InFlight(v, o) && !v.entries[o].stale))
  {
    RunKeepsInv(INIT, moves);
    assert Good(ViewOf(Run(INIT, moves).value, key), key);
  }

  /** A final text whose first chunk the entry says is shown: it is, exactly if the entry is not stale. */
  lemma SkippedChunkIsShownExactlyIf(moves: seq<Move>, key: string, text: string)
    requires Run(INIT, moves).Some? && key in Run(INIT, moves).value.streams && key !in Run(INIT, moves).value.ops
    requires var s := Run(INIT, moves).value; EntryAt(ViewOf(s, key), s.streams[key]).lastText == T.Split(text)[0]
    ensures var s := Run(INIT, moves).value;
      var e := EntryAt(ViewOf(s, key), s.streams[key]);
      var s' := Step(s, Move(key, Final(text), {}));
      && 1 <= e.messageId <= |s'.posts|
      && s'.posts[e.messageId - 1].final == Some(Settlement(T.Split(text)[0], e.stale))
      && (s'.posts[e.messageId - 1].text == T.Split(text)[0] <==> !e.stale)
      && s'.ops[key] == Following(T.Split(text), [e.messageId])
  {
    CacheIsRightExactlyIf(moves, key);
  }

  /**
    When a final text is through, its chunks stand in order in messages of its key, oldest first;
    each is shown, but for a first one that was trusted to a stale entry.
   */
  lemma DeliveredInOrder(moves: seq<Move>, key: string)
    requires Run(INIT, moves).Some? && Enabled(ViewOf(Run(INIT, moves).value, key), End)
    ensures var s := Run(INIT, moves).value;
      var chunks, ids := s.ops[key].chunks, s.ops[key].ids;
      && |ids| == |chunks|
      && (forall i, j :: 0 <= i < j < |ids| ==> ids[i] < ids[j])
      && (forall i :: 0 <= i < |ids| ==> 1 <= ids[i] <= |s.posts| && s.posts[ids[i] - 1].key == key)
      && (forall i :: 0 < i < |ids| ==> s.posts[ids[i] - 1].text == chunks[i])
      && (ids != [] ==>
            && s.posts[ids[0] - 1].final.Some?
            && (s.posts[ids[0] - 1].text == chunks[0] <==> !s.posts[ids[0] - 1].final.value.stale))
  {
    RunKeepsInv(INIT, moves);
    var s := Run(INIT, moves).value;
    assert Good(ViewOf(s, key), key);
    PlacedShow(s.posts, key, s.ops[key].chunks, s.ops[key].ids);
  }

  lemma PlacedShow(posts: seq<Post>, key: string, chunks: seq<string>, ids: seq<nat>)
    requires Placed(posts, key, chunks, ids) && AllSettled(posts)
    ensures forall i :: 0 < i < |ids| ==> posts[ids[i] - 1].text == chunks[i]
    ensures ids != [] ==> (posts[ids[0] - 1].text == chunks[0] <==> !posts[ids[0] - 1].final.value.stale)
  {
    forall i | 0 <= i < |ids| ensures Settled(posts[ids[i] - 1]) {
    }
  }

  /** What a final text has settled is never changed again, whatever is sent afterwards. */
  lemma {:induction false} SettledStays(s: State, moves: seq<Move>, i: nat)
    requires Inv(s) && Run(s, moves).Some? && i < |s.posts| && s.posts[i].final.Some?
    ensures var s' := Run(s, moves).value; i < |s'.posts| && s'.posts[i] == s.posts[i]
    decreases |moves|
  {
    if moves != [] {
      StepKeepsInv(s, moves[0]);
      SettledStays(Step(s, moves[0]), moves[1..], i);
    }
  }

  // Runs in which no stream edit of the key fails unclearly

  predicate Fresh(s: State, key: string) {
    forall o :: 0 <= o < |s.entries| && s.entries[o].key == key ==> !s.entries[o].stale
  }

  predicate ClearFor(moves: seq<Move>, key: string) {
    forall i :: 0 <= i < |moves| && moves[i].key == key && moves[i].action.Answer? ==> !moves[i].action.outcome.Unclear?
  }

  lemma StepStaysFresh(s: State, m: Move, key: string)
    requires Inv(s) && Enabled(ViewOf(s, m.key), m.action) && Fresh(s, key) && ClearFor([m], key)
    ensures Fresh(Step(s, m), key)
  {
    assert m == [m][0];
    assert Good(ViewOf(s, m.key), m.key);
  }

  lemma {:induction false} RunStaysFresh(s: State, moves: seq<Move>, key: string)
    requires Inv(s) && Run(s, moves).Some? && Fresh(s, key) && ClearFor(moves, key)
    ensures Fresh(Run(s, moves).value, key)
    decreases |moves|
  {
    if moves != [] {
      StepKeepsInv(s, moves[0]);
      StepStaysFresh(s, moves[0], key);
      assert forall i :: 0 <= i < |moves[1..]| ==> moves[1..][i] == moves[i + 1];
      RunStaysFresh(Step(s, moves[0]), moves[1..], key);
    }
  }

  /**
    As long as none of a key's own requests fails unclearly, its entry is right at every moment
    but that of an unanswered edit, whatever happens to the other keys.
   */
  lemma ClearKeysAreRight(moves: seq<Move>, key: string)
    requires Run(INIT, moves).Some? && ClearFor(moves, key)
    ensures var s := Run(INIT, moves).value;
      key in s.streams ==>
        (Right(ViewOf(s, key), s.streams[key]) <==> !InFlight(ViewOf(s, key), s.streams[key]))
  {
    CacheIsRightExactlyIf(moves, key);
    RunStaysFresh(INIT, moves, key);
  }

  // A final text that is never written

  ghost predicate Reached(s: State) {
    exists moves :: Run(INIT, moves) == Some(s)
  }

  lemma {:induction false} RunOneMore(s: State, moves: seq<Move>, m: Move)
    requires Run(s, moves).Some? && Enabled(ViewOf(Run(s, moves).value, m.key), m.action)
    ensures Run(s, moves + [m]) == Some(Step(Run(s, moves).value, m))
    decreases |moves|
  {
    if moves == [] {
      assert [] + [m] == [m] && [m][1..] == [];
      assert Run(s, [m]) == Run(Step(s, m), []);
    } else {
      assert (moves + [m])[1..] == moves[1..] + [m];
      RunOneMore(Step(s, moves[0]), moves[1..], m);
    }
  }

  /** The key's own view is all that its steps look at. */
  lemma Next(s: State, key: string, a: Action) returns (s': State, w: View)
    requires Reached(s) && Enabled(ViewOf(s, key), a)
    ensures Reached(s') && w == ViewOf(s', key) == Acted(ViewOf(s, key), key, a)
  {
    var moves :| Run(INIT, moves) == Some(s);
    var m := Move(key, a, {});
    s' := Step(s, m);
    w := ViewOf(s', key);
    StepShowsOwn(s, m);
    RunOneMore(INIT, moves, m);
  }

  /** A message that shows `a`, tracked with that text. */
  lemma FirstShown(key: string, a: string) returns (s: State, v: View)
    ensures Reached(s) && v == ViewOf(s, key)
    ensures v == View([Post(key, a, None)], [Entry(key, 1, a, false)], Some(0), None, 0)
  {
    s := INIT;
    assert Run(INIT, []) == Some(s);
    s, v := Next(s, key, Update(a, false));
    s, v := Next(s, key, Answer(T.Accepted));
  }

  /** An edit to `b` that is carried out but reports an error, and a refused message in its place. */
  lemma LeftStale(key: string, a: string, b: string) returns (s: State, v: View)
    requires a != b
    ensures Reached(s) && v == ViewOf(s, key)
    ensures v == View([Post(key, b, None)], [Entry(key, 1, a, true)], Some(0), None, 0)
  {
    s, v := FirstShown(key, a);
    s, v := Next(s, key, Update(b, false));
    assert v.op == Some(Editing(0, b, false));
    s, v := Next(s, key, CarryOut);
    assert v.posts == [Post(key, b, None)] && v.op == Some(Editing(0, b, true));
    s, v := Next(s, key, Answer(T.Unclear));
    assert v.entries == [Entry(key, 1, a, true)] && v.op == Some(Falling(0, b));
    s, v := Next(s, key, Answer(T.Refused));
  }

  /** A final text equal to a stale entry is taken as delivered, and its message shows something else. */
  lemma StaleFinalIsNotWritten(key: string, a: string, b: string)
    requires a != b && |a| <= T.MAX_MESSAGE_LENGTH
    ensures exists s ::
      && Reached(s) && Enabled(ViewOf(s, key), End)
      && ViewOf(s, key).op == Some(Following([a], [1])) && s.posts == [Post(key, b, Some(Settlement(a, true)))]
  {
    var s, v := LeftStale(key, a, b);
    s, v := Next(s, key, Final(a));
    assert T.Split(a) == [a];
    assert v.posts == [Post(key, b, Some(Settlement(a, true)))];
  }
}
