/**
  Telegram delivery: streamed replies edited in place, a cache of what each streamed message
  shows, and a final text delivered by editing, splitting and retrying. The bot's answers are
  arbitrary within the contract of `Bot`.
 */
module Telegram {
  import opened Wrappers
  import opened OrderedDicts

  const MAX_MESSAGE_LENGTH: nat := 4096
  const EDIT_MIN_INTERVAL_SECONDS: real := 1.0
  const EDIT_GROUP_MIN_INTERVAL_SECONDS: real := 3.0
  const MAX_TRACKED_STREAMS: nat := 256

  // Splitting

  /** `_split_message`. */
  function Split(text: string): seq<string> {
    if |text| <= MAX_MESSAGE_LENGTH then [text]
    else [text[..MAX_MESSAGE_LENGTH]] + Split(text[MAX_MESSAGE_LENGTH..])
  }

  function Concat(chunks: seq<string>): string {
    if chunks == [] then "" else chunks[0] + Concat(chunks[1..])
  }

  /** The chunks hold the text; all are full but the last, which is empty only for the empty text. */
  lemma {:induction false} SplitHoldsTheText(text: string)
    ensures Split(text) != [] && Concat(Split(text)) == text
    ensures forall i :: 0 <= i < |Split(text)| - 1 ==> |Split(text)[i]| == MAX_MESSAGE_LENGTH
    ensures var last := Split(text)[|Split(text)| - 1];
      |last| <= MAX_MESSAGE_LENGTH && (last == "" ==> text == "")
    decreases |text|
  {
    if |text| <= MAX_MESSAGE_LENGTH {
      assert Concat([text]) == text + Concat([]);
    } else {
      var rest := text[MAX_MESSAGE_LENGTH..];
      SplitHoldsTheText(rest);
      assert Split(text)[1..] == Split(rest);
      assert forall i :: 0 < i < |Split(text)| ==> Split(text)[i] == Split(rest)[i - 1];
    }
  }

  predicate Fit(chunks: seq<string>) {
    forall i :: 0 <= i < |chunks| ==> |chunks[i]| <= MAX_MESSAGE_LENGTH
  }

  lemma SplitFits(text: string)
    ensures Split(text) != [] && Fit(Split(text))
  {
  }

  // The remote side

  /** A message as the chat shows it. Its id is its place in the list, counted from one. */
  datatype Post = Post(text: string, replyTo: Option<nat>)

  datatype Outcome =
    | Accepted
    | NotModified          // only for edits: the message already shows the text
    | RateLimited          // carries a retry_after
    | Refused
    | Unclear              // an error came back although the request was carried out

  datatype Call =
    | SendCall(text: string, outcome: Outcome)
    | EditCall(text: string, outcome: Outcome)

  /** Telegram as the code assumes it; only the bot changes its messages. */
  class Bot {
    var posts: seq<Post>
    var log: seq<Call>

    method SendMessage(text: string, replyTo: Option<nat>) returns (o: Outcome)
      modifies this
      ensures !o.NotModified?
      ensures log == old(log) + [SendCall(text, o)]
      ensures posts == if o.Accepted? || o.Unclear? then old(posts) + [Post(text, replyTo)] else old(posts)
    {
      o := *;
      if o.NotModified? {
        o := Refused;
      }
      if o.Accepted? || o.Unclear? {
        posts := posts + [Post(text, replyTo)];
      }
      log := log + [SendCall(text, o)];
    }

    method EditMessageText(id: nat, text: string) returns (o: Outcome)
      modifies this
      ensures log == old(log) + [EditCall(text, o)]
      ensures o.Accepted? || o.Unclear? ==>
        1 <= id <= |old(posts)| && posts == old(posts)[id - 1 := old(posts)[id - 1].(text := text)]
      ensures o.NotModified? ==> Shows(old(posts), id, text)
      ensures !(o.Accepted? || o.Unclear?) ==> posts == old(posts)
    {
      o := *;
      if o.NotModified? && !Shows(posts, id, text) {
        o := Refused;
      }
      if o.Accepted? || o.Unclear? {
        if 1 <= id <= |posts| {
          posts := posts[id - 1 := posts[id - 1].(text := text)];
        } else {
          o := Refused;
        }
      }
      log := log + [EditCall(text, o)];
    }
  }

  // The channel

  const RUNNING_TEXT := "Working on it..."

  datatype Stream = Stream(messageId: nat, lastEditAt: real, lastText: string)

  /** What a streamed message shows of a text: all of it, or a full message that ends in an ellipsis. */
  function Display(text: string): (d: string)
    ensures |d| <= MAX_MESSAGE_LENGTH
    ensures |text| <= MAX_MESSAGE_LENGTH <==> d == text
  {
    if |text| > MAX_MESSAGE_LENGTH then text[..MAX_MESSAGE_LENGTH - 1] + ['\U{2026}'] else text
  }

  function KeepNewest<T>(s: seq<T>, n: nat): seq<T> {
    if |s| <= n then s else s[|s| - n..]
  }

  predicate Shows(posts: seq<Post>, id: nat, text: string) {
    1 <= id <= |posts| && posts[id - 1].text == text
  }

  /** Distinct keys track distinct messages that exist, and not too many of them. */
  ghost predicate Tracks(streams: Dict<string, Stream>, count: nat) {
    && Unique(streams)
    && |streams| <= MAX_TRACKED_STREAMS
    && (forall k :: Get(streams, k).Some? ==> 1 <= Get(streams, k).value.messageId <= count)
    && (forall k, l :: Get(streams, k).Some? && Get(streams, l).Some? && k != l ==>
          Get(streams, k).value.messageId != Get(streams, l).value.messageId)
  }

  /** The cache is right: each tracked message shows its `lastText`. */
  ghost predicate CacheRight(streams: Dict<string, Stream>, posts: seq<Post>) {
    forall k :: Get(streams, k).Some? ==> Shows(posts, Get(streams, k).value.messageId, Get(streams, k).value.lastText)
  }

  /** The cache is right for every key but one. */
  ghost predicate OthersRight(streams: Dict<string, Stream>, posts: seq<Post>, key: string) {
    forall k :: k != key && Get(streams, k).Some? ==>
      Shows(posts, Get(streams, k).value.messageId, Get(streams, k).value.lastText)
  }

  function Registered(streams: Dict<string, Stream>, key: string, stream: Stream): Dict<string, Stream> {
    KeepNewest(Drop(streams, key), MAX_TRACKED_STREAMS - 1) + [Item(key, stream)]
  }

  /** Forgetting a key and the oldest entries changes none of the entries that stay. */
  lemma ForgettingKeeps(streams: Dict<string, Stream>, count: nat, key: string)
    requires Tracks(streams, count)
    ensures var kept := KeepNewest(Drop(streams, key), MAX_TRACKED_STREAMS - 1);
      && Tracks(kept, count) && |kept| < MAX_TRACKED_STREAMS && Get(kept, key) == None
      && forall k :: Get(kept, k).Some? ==> Get(kept, k) == Get(streams, k)
  {
    DropSpec(streams, key);
    var dropped := Drop(streams, key);
    var kept := KeepNewest(dropped, MAX_TRACKED_STREAMS - 1);
    SuffixSpec(dropped, |dropped| - |kept|);
    assert Get(kept, key) == None by {
      assert Get(dropped, key) == None;
    }
  }

  /** Registering the newest message keeps the tracking and the cache right. */
  lemma RegisteredTracks(streams: Dict<string, Stream>, posts: seq<Post>, key: string, stream: Stream)
    requires posts != [] && Tracks(streams, |posts| - 1)
    requires stream.messageId == |posts| && Shows(posts, stream.messageId, stream.lastText)
    ensures Registered(streams, key, stream) == Put(KeepNewest(Drop(streams, key), MAX_TRACKED_STREAMS - 1), key, stream)
    ensures Tracks(Registered(streams, key, stream), |posts|)
    ensures Get(Registered(streams, key, stream), key) == Some(stream)
    ensures CacheRight(streams, posts) ==> CacheRight(Registered(streams, key, stream), posts)
  {
    ForgettingKeeps(streams, |posts| - 1, key);
    PutSpec(KeepNewest(Drop(streams, key), MAX_TRACKED_STREAMS - 1), key, stream);
  }

  /** Rewriting a tracked entry, for the same message or for the newest one. */
  lemma PutTracks(streams: Dict<string, Stream>, posts: seq<Post>, key: string, stream: Stream)
    requires Tracks(streams, |posts|) && Get(streams, key).Some?
    requires stream.messageId == Get(streams, key).value.messageId ||
             (stream.messageId == |posts| && posts != [] && Tracks(streams, |posts| - 1))
    ensures Tracks(Put(streams, key, stream), |posts|)
    ensures Get(Put(streams, key, stream), key) == Some(stream)
    ensures Shows(posts, stream.messageId, stream.lastText) && OthersRight(streams, posts, key) ==>
            CacheRight(Put(streams, key, stream), posts)
  {
    PutSpec(streams, key, stream);
  }

  lemma PostingShows(posts: seq<Post>, more: seq<Post>, id: nat, text: string)
    requires id <= |posts|
    ensures Shows(posts + more, id, text) <==> Shows(posts, id, text)
  {
  }

  /** Sending one more message changes nothing that is tracked. */
  lemma PostingKeeps(streams: Dict<string, Stream>, posts: seq<Post>, p: Post)
    requires Tracks(streams, |posts|)
    ensures Tracks(streams, |posts + [p]|)
    ensures CacheRight(streams, posts) <==> CacheRight(streams, posts + [p])
  {
    forall k | Get(streams, k).Some?
      ensures Shows(posts + [p], Get(streams, k).value.messageId, Get(streams, k).value.lastText)
         <==> Shows(posts, Get(streams, k).value.messageId, Get(streams, k).value.lastText)
    {
      PostingShows(posts, [p], Get(streams, k).value.messageId, Get(streams, k).value.lastText);
    }
  }

  lemma RewritingShows(posts: seq<Post>, i: nat, p: Post, id: nat, text: string)
    requires i < |posts| && id != i + 1
    ensures Shows(posts[i := p], id, text) <==> Shows(posts, id, text)
  {
  }

  /** Nobody else tracks the message of `key`. */
  ghost predicate AloneWith(streams: Dict<string, Stream>, key: string, id: nat) {
    forall k :: k != key && Get(streams, k).Some? ==> Get(streams, k).value.messageId != id
  }

  lemma TracksAlone(streams: Dict<string, Stream>, count: nat, key: string)
    requires Tracks(streams, count) && Get(streams, key).Some?
    ensures AloneWith(streams, key, Get(streams, key).value.messageId)
  {
    forall k | k != key && Get(streams, k).Some?
      ensures Get(streams, k).value.messageId != Get(streams, key).value.messageId
    {
    }
  }

  /** Rewriting a message of one key leaves the others' messages alone. */
  lemma RewritingKeepsOthers(streams: Dict<string, Stream>, posts: seq<Post>, key: string, i: nat, p: Post)
    requires i < |posts| && AloneWith(streams, key, i + 1)
    ensures OthersRight(streams, posts[i := p], key) <==> OthersRight(streams, posts, key)
  {
    forall k | k != key && Get(streams, k).Some?
      ensures Shows(posts[i := p], Get(streams, k).value.messageId, Get(streams, k).value.lastText)
         <==> Shows(posts, Get(streams, k).value.messageId, Get(streams, k).value.lastText)
    {
      RewritingShows(posts, i, p, Get(streams, k).value.messageId, Get(streams, k).value.lastText);
    }
  }

  /** Editing the message of one key leaves the others' messages alone. */
  lemma EditKeepsOthers(streams: Dict<string, Stream>, posts: seq<Post>, key: string, p: Post)
    requires Tracks(streams, |posts|) && Get(streams, key).Some?
    ensures var posts' := posts[Get(streams, key).value.messageId - 1 := p];
      OthersRight(streams, posts', key) <==> OthersRight(streams, posts, key)
  {
    TracksAlone(streams, |posts|, key);
    RewritingKeepsOthers(streams, posts, key, Get(streams, key).value.messageId - 1, p);
  }

  /** The message of `key` with another text. */
  function Edited(streams: Dict<string, Stream>, posts: seq<Post>, key: string, text: string): seq<Post>
    requires Get(streams, key).Some? && 1 <= Get(streams, key).value.messageId <= |posts|
  {
    var i := Get(streams, key).value.messageId - 1;
    posts[i := posts[i].(text := text)]
  }

  /** An edit whose error hides that it was carried out: the cache is wrong about this message only. */
  lemma EditUnclear(streams: Dict<string, Stream>, posts: seq<Post>, key: string, text: string)
    requires Tracks(streams, |posts|) && Get(streams, key).Some? && Get(streams, key).value.lastText != text
    ensures var posts' := Edited(streams, posts, key, text);
      && !CacheRight(streams, posts')
      && (CacheRight(streams, posts) ==> OthersRight(streams, posts', key))
  {
  }

  /** An accepted edit, with the cache brought up to date. */
  lemma EditAccepted(streams: Dict<string, Stream>, posts: seq<Post>, key: string, text: string, at: real)
    requires Tracks(streams, |posts|) && Get(streams, key).Some?
    ensures var posts' := Edited(streams, posts, key, text);
      var streams' := Put(streams, key, Stream(Get(streams, key).value.messageId, at, text));
      && Tracks(streams', |posts'|) && Get(streams', key).Some? && ShownAs(streams', posts', key, text, at)
      && (CacheRight(streams, posts) ==> CacheRight(streams', posts'))
  {
    var posts' := Edited(streams, posts, key, text);
    EditKeepsOthers(streams, posts, key, posts'[Get(streams, key).value.messageId - 1]);
    PutTracks(streams, posts', key, Stream(Get(streams, key).value.messageId, at, text));
  }

  /** The message already shows the text, and the cache learns it. */
  lemma EditNotNeeded(streams: Dict<string, Stream>, posts: seq<Post>, key: string, text: string)
    requires Tracks(streams, |posts|) && Get(streams, key).Some? && Shows(posts, Get(streams, key).value.messageId, text)
    ensures var streams' := Put(streams, key, Get(streams, key).value.(lastText := text));
      && Tracks(streams', |posts|) && Get(streams', key).Some?
      && (CacheRight(streams, posts) ==> CacheRight(streams', posts))
  {
    PutTracks(streams, posts, key, Get(streams, key).value.(lastText := text));
  }

  /** The messages `ids`, oldest first, show the chunks in order. */
  ghost predicate Delivered(posts: seq<Post>, chunks: seq<string>, ids: seq<nat>) {
    && |ids| == |chunks|
    && (forall i :: 0 <= i < |ids| ==> Shows(posts, ids[i], chunks[i]))
    && (forall i, j :: 0 <= i < j < |ids| ==> ids[i] < ids[j])
  }

  /** The ids are those of existing messages, oldest first. */
  ghost predicate InPlace(posts: seq<Post>, ids: seq<nat>) {
    && (forall i :: 0 <= i < |ids| ==> 1 <= ids[i] <= |posts|)
    && (forall i, j :: 0 <= i < j < |ids| ==> ids[i] < ids[j])
  }

  /** The cache is right about the message, or the chunk differs from what the cache says. */
  predicate WillShow(posts: seq<Post>, stream: Stream, chunk: string) {
    Shows(posts, stream.messageId, stream.lastText) || chunk != stream.lastText
  }

  /** Of the old messages only `id` may show another text. */
  ghost predicate OnlyRewrites(before: seq<Post>, after: seq<Post>, id: nat) {
    |before| <= |after| && forall i :: 0 <= i < |before| && i != id - 1 ==> after[i] == before[i]
  }

  lemma RewritesThenPosts(before: seq<Post>, middle: seq<Post>, after: seq<Post>, id: nat)
    requires OnlyRewrites(before, middle, id) && middle <= after
    ensures OnlyRewrites(before, after, id)
  {
  }

  lemma FirstDelivered(posts: seq<Post>, chunks: seq<string>, ids: seq<nat>)
    requires chunks != [] && |ids| == 1
    ensures Delivered(posts, chunks[..1], ids) <==> Shows(posts, ids[0], chunks[0])
  {
  }

  /** So far the messages `ids` carry the first chunks, as far as the cache was right about the first one. */
  ghost predicate Delivering(before: seq<Post>, posts: seq<Post>, stream: Stream, chunks: seq<string>, ids: seq<nat>) {
    && 1 <= |ids| <= |chunks| && InPlace(posts, ids)
    && (Delivered(posts, chunks[..|ids|], ids) <==> WillShow(before, stream, chunks[0]))
    && (ids[0] == stream.messageId || ids[0] > |before|)
    && OnlyRewrites(before, posts, stream.messageId)
  }

  lemma DeliveringMore(before: seq<Post>, middle: seq<Post>, after: seq<Post>, stream: Stream, chunks: seq<string>, ids: seq<nat>)
    requires Delivering(before, middle, stream, chunks, ids)
    requires middle < after && |ids| < |chunks| && Shows(after, |after|, chunks[|ids|])
    ensures Delivering(before, after, stream, chunks, ids + [|after|])
  {
  }

  predicate ShortCalls(calls: seq<Call>) {
    forall i :: 0 <= i < |calls| ==> |calls[i].text| <= MAX_MESSAGE_LENGTH
  }

  lemma PostingMoreKeeps(streams: Dict<string, Stream>, before: seq<Post>, after: seq<Post>)
    requires Tracks(streams, |before|) && before <= after
    ensures Tracks(streams, |after|) && (CacheRight(streams, before) ==> CacheRight(streams, after))
  {
  }

  /** Rewriting a message that is not tracked keeps the cache right. */
  lemma RewriteKeeps(streams: Dict<string, Stream>, before: seq<Post>, after: seq<Post>, id: nat)
    requires Tracks(streams, |before|) && |before| == |after| && OnlyRewrites(before, after, id)
    requires forall k :: Get(streams, k).Some? ==> Get(streams, k).value.messageId != id
    ensures CacheRight(streams, before) ==> CacheRight(streams, after)
  {
  }

  lemma CallsSplit(a: seq<Call>, b: seq<Call>, c: seq<Call>)
    requires a <= b <= c
    ensures NoUnclear(c[|a|..]) <==> NoUnclear(b[|a|..]) && NoUnclear(c[|b|..])
    ensures ShortCalls(c[|a|..]) <==> ShortCalls(b[|a|..]) && ShortCalls(c[|b|..])
  {
  }

  predicate NoUnclear(calls: seq<Call>) {
    forall i :: 0 <= i < |calls| ==> !calls[i].outcome.Unclear?
  }

  class TelegramChannel {
    const bot: Bot
    var streams: Dict<string, Stream>
    var lastBotMessage: map<string, nat>

    constructor (bot: Bot)
      ensures this.bot == bot && Valid() && Agrees() && streams == [] && lastBotMessage == map[]
    {
      this.bot := bot;
      streams := [];
      lastBotMessage := map[];
    }

    ghost predicate Valid()
      reads this, bot
    {
      Tracks(streams, |bot.posts|)
    }

    ghost predicate Agrees()
      reads this, bot
    {
      CacheRight(streams, bot.posts)
    }

    /** The message just sent becomes the newest tracked one; the oldest are forgotten beyond the limit. */
    method RegisterStream(key: string, lastText: string, lastEditAt: real)
      requires bot.posts != [] && Tracks(streams, |bot.posts| - 1)
      requires bot.posts[|bot.posts| - 1].text == lastText
      modifies this`streams
      ensures Valid() && (old(Agrees()) ==> Agrees())
      ensures streams == Registered(old(streams), key, Stream(|bot.posts|, lastEditAt, lastText))
      ensures Get(streams, key) == Some(Stream(|bot.posts|, lastEditAt, lastText))
    {
      streams := Drop(streams, key);
      ghost var rest := streams;
      while |streams| >= MAX_TRACKED_STREAMS
        invariant |streams| <= |rest|
        invariant streams == rest[|rest| - |streams|..]
        invariant |streams| >= MAX_TRACKED_STREAMS - 1 || streams == rest
        decreases |streams|
      {
        streams := streams[1..];
      }
      assert streams == KeepNewest(rest, MAX_TRACKED_STREAMS - 1);
      var stream := Stream(|bot.posts|, lastEditAt, lastText);
      streams := Put(streams, key, stream);
      RegisteredTracks(old(streams), bot.posts, key, stream);
    }

    /** `_send_running_reply`; without an application or with a malformed chat id nothing is sent. */
    method SendRunningReply(running: bool, chatId: Option<int>, key: string, replyTo: nat)
      requires Valid()
      modifies this`streams, bot
      ensures Valid() && (old(Agrees()) ==> Agrees())
      ensures !running || chatId.None? ==> bot.log == old(bot.log) && bot.posts == old(bot.posts) && streams == old(streams)
      ensures running && chatId.Some? ==>
        && |bot.log| == |old(bot.log)| + 1 && old(bot.log) <= bot.log
        && bot.log[|old(bot.log)|].text == RUNNING_TEXT
        && streams == if bot.log[|old(bot.log)|].outcome.Accepted?
                      then Registered(old(streams), key, Stream(|bot.posts|, 0.0, RUNNING_TEXT))
                      else old(streams)
    {
      if !running || chatId.None? {
        return;
      }
      PostingKeeps(streams, bot.posts, Post(RUNNING_TEXT, Some(replyTo)));
      var o := bot.SendMessage(RUNNING_TEXT, Some(replyTo));
      if o.Accepted? {
        RegisterStream(key, RUNNING_TEXT, 0.0);
      }
    }

    /**
      `_send_stream_update`. The cache stays right except in one case: an edit that was carried
      out reports an error and the message sent in its place is not accepted.
     */
    method SendStreamUpdate(chatId: int, key: string, text: string, replyTo: Option<nat>, now: real, later: real)
      requires Valid()
      modifies this`streams, bot
      ensures Valid()
      ensures old(bot.log) <= bot.log
      ensures forall i :: |old(bot.log)| <= i < |bot.log| ==> bot.log[i].text == Display(text)
      ensures old(Agrees()) ==> (Agrees() <==> !LostTrack(bot.log[|old(bot.log)|..]))
      ensures Held(old(streams), chatId, key, text, now) ==>
              bot.log == old(bot.log) && bot.posts == old(bot.posts) && streams == old(streams)
      ensures bot.log != old(bot.log) && bot.log[|bot.log| - 1].outcome.Accepted? ==>
        ShownAs(streams, bot.posts, key, Display(text), later)
    {
      if text == "" {
        return;
      }
      var display := Display(text);
      var tracked := Get(streams, key);
      if tracked.None? {
        PostingKeeps(streams, bot.posts, Post(display, replyTo));
        var o := bot.SendMessage(display, replyTo);
        if o.Accepted? {
          RegisterStream(key, display, later);
        }
        return;
      }
      var stream := tracked.value;
      var minInterval := if chatId < 0 then EDIT_GROUP_MIN_INTERVAL_SECONDS else EDIT_MIN_INTERVAL_SECONDS;
      if now - stream.lastEditAt < minInterval || display == stream.lastText {
        return;
      }
      EditStream(key, display, replyTo, later);
    }

    /** The rest of `_send_stream_update` for a tracked message that is due for another text. */
    method EditStream(key: string, display: string, replyTo: Option<nat>, later: real)
      requires Valid() && Get(streams, key).Some? && Get(streams, key).value.lastText != display
      modifies this`streams, bot
      ensures Valid()
      ensures old(bot.log) < bot.log
      ensures forall i :: |old(bot.log)| <= i < |bot.log| ==> bot.log[i].text == display
      ensures old(Agrees()) ==> (Agrees() <==> !LostTrack(bot.log[|old(bot.log)|..]))
      ensures bot.log[|bot.log| - 1].outcome.Accepted? ==> ShownAs(streams, bot.posts, key, display, later)
    {
      ghost var before := bot.log;
      var o := TryEdit(key, display, later);
      if o.Refused? || o.Unclear? {
        SendInstead(key, display, replyTo, later);
        assert bot.log[|before|..] == [EditCall(display, o), bot.log[|before| + 1]];
      } else {
        assert bot.log[|before|..] == [EditCall(display, o)];
      }
    }

    /** The edit itself. An edit that failed unclearly leaves a message that the cache is wrong about. */
    method TryEdit(key: string, display: string, later: real) returns (o: Outcome)
      requires Valid() && Get(streams, key).Some? && Get(streams, key).value.lastText != display
      modifies this`streams, bot
      ensures Valid() && Get(streams, key).Some?
      ensures bot.log == old(bot.log) + [EditCall(display, o)]
      ensures o.Accepted? ==> ShownAs(streams, bot.posts, key, display, later)
      ensures !o.Unclear? ==> old(Agrees()) ==> Agrees()
      ensures o.Unclear? ==> !Agrees()
      ensures o.Unclear? && old(Agrees()) ==> OthersRight(streams, bot.posts, key)
    {
      var stream := Get(streams, key).value;
      EditUnclear(streams, bot.posts, key, display);
      EditAccepted(streams, bot.posts, key, display, later);
      o := bot.EditMessageText(stream.messageId, display);
      if o.NotModified? {
        EditNotNeeded(streams, bot.posts, key, display);
        streams := Put(streams, key, stream.(lastText := display));
      } else if o.Accepted? {
        streams := Put(streams, key, Stream(stream.messageId, later, display));
      }
    }

    /** The fallback of a failed stream edit: a new message takes the stream over. */
    method SendInstead(key: string, display: string, replyTo: Option<nat>, later: real)
      requires Valid() && Get(streams, key).Some?
      modifies this`streams, bot
      ensures Valid()
      ensures |bot.log| == |old(bot.log)| + 1 && old(bot.log) <= bot.log
      ensures bot.log[|old(bot.log)|].text == display
      ensures bot.log[|old(bot.log)|].outcome.Accepted? ==>
        ShownAs(streams, bot.posts, key, display, later) &&
        (old(OthersRight(streams, bot.posts, key)) ==> Agrees())
      ensures !bot.log[|old(bot.log)|].outcome.Accepted? ==>
        streams == old(streams) && (Agrees() <==> old(Agrees()))
    {
      var stream := Get(streams, key).value;
      PostingKeeps(streams, bot.posts, Post(display, replyTo));
      var sent := bot.SendMessage(display, replyTo);
      if sent.Accepted? {
        PutTracks(streams, bot.posts, key, Stream(|bot.posts|, later, display));
        streams := Put(streams, key, Stream(|bot.posts|, later, display));
      }
    }

    /** `_edit_final_chunk`: one more try after a rate limit. */
    method EditFinalChunk(messageId: nat, text: string) returns (edited: bool)
      modifies bot
      ensures edited ==> Shows(bot.posts, messageId, text)
      ensures bot.posts == old(bot.posts) ||
        (1 <= messageId <= |old(bot.posts)| &&
         bot.posts == old(bot.posts)[messageId - 1 := old(bot.posts)[messageId - 1].(text := text)])
      ensures old(bot.log) <= bot.log && 1 <= |bot.log| - |old(bot.log)| <= 2
      ensures |bot.log| == |old(bot.log)| + 2 <==> bot.log[|old(bot.log)|].outcome.RateLimited?
      ensures edited <==> bot.log[|bot.log| - 1].outcome.Accepted? || bot.log[|bot.log| - 1].outcome.NotModified?
      ensures forall i :: |old(bot.log)| <= i < |bot.log| ==> bot.log[i].text == text
      ensures !edited && NoUnclear(bot.log[|old(bot.log)|..]) ==> bot.posts == old(bot.posts)
    {
      for attempt := 0 to 2
        invariant bot.posts == old(bot.posts)
        invariant old(bot.log) <= bot.log && |bot.log| == |old(bot.log)| + attempt
        invariant attempt > 0 ==> bot.log[|old(bot.log)|] == EditCall(text, RateLimited)
      {
        var o := bot.EditMessageText(messageId, text);
        assert bot.log[|old(bot.log)|..][attempt] == EditCall(text, o);
        if o.Accepted? || o.NotModified? {
          return true;
        }
        if o.RateLimited? && attempt == 0 {
          continue;
        }
        return false;
      }
      return false;
    }

    /** `_send_new_message` under the retry policy; no id means that the last error was raised. */
    method SendNewMessage(chatKey: string, text: string, maxRetries: nat) returns (id: Option<nat>)
      modifies this`lastBotMessage, bot
      ensures old(bot.posts) <= bot.posts && old(bot.log) <= bot.log
      ensures forall i :: |old(bot.log)| <= i < |bot.log| ==> bot.log[i].text == text
      ensures var replyTo := if chatKey in old(lastBotMessage) then Some(old(lastBotMessage)[chatKey]) else None;
        forall i :: |old(bot.posts)| <= i < |bot.posts| ==> bot.posts[i] == Post(text, replyTo)
      ensures id.Some? ==> id.value == |bot.posts| > |old(bot.posts)| && lastBotMessage == old(lastBotMessage)[chatKey := id.value]
      ensures id.None? ==> lastBotMessage == old(lastBotMessage) && |bot.log| == |old(bot.log)| + maxRetries
      ensures NoUnclear(bot.log[|old(bot.log)|..]) ==>
        |bot.posts| == |old(bot.posts)| + (if id.Some? then 1 else 0)
      ensures id.Some? <==> bot.log != old(bot.log) && bot.log[|bot.log| - 1].outcome.Accepted?
    {
      var replyTo := if chatKey in lastBotMessage then Some(lastBotMessage[chatKey]) else None;
      for attempt := 0 to maxRetries
        invariant old(bot.posts) <= bot.posts && old(bot.log) <= bot.log
        invariant |bot.log| == |old(bot.log)| + attempt
        invariant forall i :: |old(bot.log)| <= i < |bot.log| ==>
          bot.log[i].text == text && !bot.log[i].outcome.Accepted?
        invariant forall i :: |old(bot.posts)| <= i < |bot.posts| ==> bot.posts[i] == Post(text, replyTo)
        invariant NoUnclear(bot.log[|old(bot.log)|..]) ==> bot.posts == old(bot.posts)
        invariant lastBotMessage == old(lastBotMessage)
      {
        ghost var calls := bot.log[|old(bot.log)|..];
        var o := bot.SendMessage(text, replyTo);
        assert bot.log[|old(bot.log)|..] == calls + [SendCall(text, o)];
        assert NoUnclear(calls + [SendCall(text, o)]) ==> NoUnclear(calls) && !o.Unclear? by {
          assert forall i :: 0 <= i < |calls| ==> (calls + [SendCall(text, o)])[i] == calls[i];
          assert (calls + [SendCall(text, o)])[|calls|] == SendCall(text, o);
        }
        if o.Accepted? {
          lastBotMessage := lastBotMessage[chatKey := |bot.posts|];
          return Some(|bot.posts|);
        }
      }
      return None;
    }

    /** A fresh message for one chunk. */
    method DeliverChunk(chatKey: string, chunk: string) returns (ok: bool)
      requires Valid() && |chunk| <= MAX_MESSAGE_LENGTH
      modifies this`lastBotMessage, bot
      ensures Valid() && (old(Agrees()) ==> Agrees())
      ensures old(bot.posts) <= bot.posts && old(bot.log) <= bot.log && ShortCalls(bot.log[|old(bot.log)|..])
      ensures ok ==> |bot.posts| > |old(bot.posts)| && Shows(bot.posts, |bot.posts|, chunk)
      ensures ok ==> chatKey in lastBotMessage && lastBotMessage[chatKey] == |bot.posts|
      ensures NoUnclear(bot.log[|old(bot.log)|..]) ==> |bot.posts| == |old(bot.posts)| + (if ok then 1 else 0)
    {
      var id := SendNewMessage(chatKey, chunk, 3);
      PostingMoreKeeps(streams, old(bot.posts), bot.posts);
      ok := id.Some?;
    }

    /**
      `_finalize_stream_message` for a message taken out of the tracking. When nothing was
      raised, the edited (or fresh) message and its follow-ups show the chunks in order, exactly
      if the cache was right about the message or the first chunk differs from what it said.
     */
    method FinalizeStream(chatKey: string, stream: Stream, text: string) returns (ok: bool, ghost ids: seq<nat>)
      requires Valid() && 1 <= stream.messageId <= |bot.posts|
      requires forall k :: Get(streams, k).Some? ==> Get(streams, k).value.messageId != stream.messageId
      modifies this`lastBotMessage, bot
      ensures Valid() && (old(Agrees()) ==> Agrees())
      ensures old(bot.log) <= bot.log && ShortCalls(bot.log[|old(bot.log)|..])
      ensures ok ==> |ids| == |Split(text)|
      ensures ok ==> (Delivered(bot.posts, Split(text), ids) <==> WillShow(old(bot.posts), stream, Split(text)[0]))
      ensures ok ==> (ids[0] == stream.messageId || ids[0] > |old(bot.posts)|)
      ensures ok ==> chatKey in lastBotMessage && lastBotMessage[chatKey] == ids[|ids| - 1]
      ensures OnlyRewrites(old(bot.posts), bot.posts, stream.messageId)
      ensures ok && NoUnclear(bot.log[|old(bot.log)|..]) ==>
        |bot.posts| == |old(bot.posts)| + |ids| - (if ids[0] == stream.messageId then 1 else 0)
    {
      var chunks := Split(text);
      SplitFits(text);
      ok, ids := DeliverAll(chatKey, stream, chunks);
    }

    method DeliverAll(chatKey: string, stream: Stream, chunks: seq<string>) returns (ok: bool, ghost ids: seq<nat>)
      requires Valid() && 1 <= stream.messageId <= |bot.posts|
      requires forall k :: Get(streams, k).Some? ==> Get(streams, k).value.messageId != stream.messageId
      requires chunks != [] && Fit(chunks)
      modifies this`lastBotMessage, bot
      ensures Valid() && (old(Agrees()) ==> Agrees())
      ensures old(bot.log) <= bot.log && ShortCalls(bot.log[|old(bot.log)|..])
      ensures ok ==> |ids| == |chunks|
      ensures ok ==> (Delivered(bot.posts, chunks, ids) <==> WillShow(old(bot.posts), stream, chunks[0]))
      ensures ok ==> (ids[0] == stream.messageId || ids[0] > |old(bot.posts)|)
      ensures ok ==> chatKey in lastBotMessage && lastBotMessage[chatKey] == ids[|ids| - 1]
      ensures OnlyRewrites(old(bot.posts), bot.posts, stream.messageId)
      ensures ok && NoUnclear(bot.log[|old(bot.log)|..]) ==>
        |bot.posts| == |old(bot.posts)| + |ids| - (if ids[0] == stream.messageId then 1 else 0)
    {
      ok, ids := DeliverFirst(chatKey, stream, chunks[0]);
      if !ok {
        return;
      }
      FirstDelivered(bot.posts, chunks, ids);
      ghost var log1 := bot.log;
      ok, ids := DeliverRest(chatKey, stream, chunks, old(bot.posts), ids);
      CallsSplit(old(bot.log), log1, bot.log);
      assert chunks[..|chunks|] == chunks;
    }

    /** The follow-ups after the first chunk. */
    method DeliverRest(chatKey: string, stream: Stream, chunks: seq<string>, ghost before: seq<Post>, ghost first: seq<nat>)
      returns (ok: bool, ghost ids: seq<nat>)
      requires Valid() && Fit(chunks)
      requires |first| == 1 && Delivering(before, bot.posts, stream, chunks, first)
      requires chatKey in lastBotMessage && lastBotMessage[chatKey] == first[0]
      modifies this`lastBotMessage, bot
      ensures Valid() && (old(Agrees()) ==> Agrees())
      ensures old(bot.log) <= bot.log && ShortCalls(bot.log[|old(bot.log)|..])
      ensures OnlyRewrites(before, bot.posts, stream.messageId)
      ensures ok ==> |ids| == |chunks| && ids[0] == first[0] && Delivering(before, bot.posts, stream, chunks, ids)
      ensures ok ==> chatKey in lastBotMessage && lastBotMessage[chatKey] == ids[|ids| - 1]
      ensures ok && NoUnclear(bot.log[|old(bot.log)|..]) ==> |bot.posts| == |old(bot.posts)| + |ids| - 1
    {
      ok, ids := true, first;
      for n := 1 to |chunks|
        invariant Valid() && (old(Agrees()) ==> Agrees())
        invariant old(bot.log) <= bot.log && ShortCalls(bot.log[|old(bot.log)|..])
        invariant ok && |ids| == n && ids[0] == first[0] && Delivering(before, bot.posts, stream, chunks, ids)
        invariant chatKey in lastBotMessage && lastBotMessage[chatKey] == ids[n - 1]
        invariant NoUnclear(bot.log[|old(bot.log)|..]) ==> |bot.posts| == |old(bot.posts)| + n - 1
      {
        ghost var log1, posts1 := bot.log, bot.posts;
        ok := DeliverChunk(chatKey, chunks[n]);
        CallsSplit(old(bot.log), log1, bot.log);
        if !ok {
          RewritesThenPosts(before, posts1, bot.posts, stream.messageId);
          return;
        }
        DeliveringMore(before, posts1, bot.posts, stream, chunks, ids);
        ids := ids + [|bot.posts|];
      }
    }

    /** The first chunk: already shown as far as the cache knows, edited in, or sent as a fresh message. */
    method DeliverFirst(chatKey: string, stream: Stream, chunk: string) returns (ok: bool, ghost ids: seq<nat>)
      requires Valid() && 1 <= stream.messageId <= |bot.posts| && |chunk| <= MAX_MESSAGE_LENGTH
      requires forall k :: Get(streams, k).Some? ==> Get(streams, k).value.messageId != stream.messageId
      modifies this`lastBotMessage, bot
      ensures Valid() && (old(Agrees()) ==> Agrees())
      ensures old(bot.log) <= bot.log && ShortCalls(bot.log[|old(bot.log)|..])
      ensures ok ==> |ids| == 1 && InPlace(bot.posts, ids)
      ensures ok ==> (Shows(bot.posts, ids[0], chunk) <==> WillShow(old(bot.posts), stream, chunk))
      ensures ok ==> (ids[0] == stream.messageId || ids[0] > |old(bot.posts)|)
      ensures ok ==> chatKey in lastBotMessage && lastBotMessage[chatKey] == ids[0]
      ensures OnlyRewrites(old(bot.posts), bot.posts, stream.messageId)
      ensures ok && NoUnclear(bot.log[|old(bot.log)|..]) ==>
        |bot.posts| == |old(bot.posts)| + |ids| - (if ids[0] == stream.messageId then 1 else 0)
    {
      var edited := true;
      if chunk != stream.lastText {
        edited := EditFinalChunk(stream.messageId, chunk);
        RewriteKeeps(streams, old(bot.posts), bot.posts, stream.messageId);
      }
      if edited {
        lastBotMessage := lastBotMessage[chatKey := stream.messageId];
        return true, [stream.messageId];
      }
      ghost var log1 := bot.log;
      ok := DeliverChunk(chatKey, chunk);
      ids := [|bot.posts|];
      CallsSplit(old(bot.log), log1, bot.log);
    }

    /**
      `send`. A final text for a tracked stream is delivered in chunks; without a tracked stream
      it is sent whole, whatever its length.
     */
    method Send(running: bool, chatId: Option<int>, chatKey: string, key: string, replyTo: Option<nat>,
                text: string, isFinal: bool, maxRetries: nat, now: real, later: real)
      returns (ok: bool, ghost ids: seq<nat>)
      requires Valid()
      modifies this, bot
      ensures Valid()
      ensures old(bot.log) <= bot.log
      ensures !running || chatId.None? ==>
        bot.log == old(bot.log) && bot.posts == old(bot.posts) && streams == old(streams) && ok
      ensures old(Agrees()) && NoUnclear(bot.log[|old(bot.log)|..]) ==> Agrees()
      ensures running && chatId.Some? && isFinal ==> streams == Drop(old(streams), key)
      ensures old(Agrees()) && running && chatId.Some? && isFinal && old(Get(streams, key)).Some? ==>
        ShortCalls(bot.log[|old(bot.log)|..]) && (ok ==> Delivered(bot.posts, Split(text), ids))
      ensures running && chatId.Some? && isFinal && old(Get(streams, key)).None? ==>
        (ok ==> Delivered(bot.posts, [text], ids)) &&
        forall i :: |old(bot.log)| <= i < |bot.log| ==> bot.log[i].text == text
    {
      ok, ids := true, [];
      if !running || chatId.None? {
        return;
      }
      if !isFinal {
        SendStreamUpdate(chatId.value, key, text, replyTo, now, later);
        return;
      }
      var stream := Get(streams, key);
      DropSpec(streams, key);
      ghost var before := streams;
      streams := Drop(streams, key);
      if stream.Some? {
        ok, ids := FinalizeStream(chatKey, stream.value, text);
        return;
      }
      var id := SendNewMessage(chatKey, text, maxRetries);
      PostingMoreKeeps(streams, old(bot.posts), bot.posts);
      ok, ids := id.Some?, [|bot.posts|];
    }
  }

  /** An edit was carried out but reported an error, and the fallback message was not accepted. */
  predicate LostTrack(calls: seq<Call>) {
    |calls| == 2 && calls[0].outcome.Unclear? && !calls[1].outcome.Accepted?
  }

  /** An empty, too early or unchanged update. */
  predicate Held(streams: Dict<string, Stream>, chatId: int, key: string, text: string, now: real) {
    text == "" ||
    (Get(streams, key).Some? &&
     var stream := Get(streams, key).value;
     || now - stream.lastEditAt < (if chatId < 0 then EDIT_GROUP_MIN_INTERVAL_SECONDS else EDIT_MIN_INTERVAL_SECONDS)
     || stream.lastText == Display(text))
  }

  predicate ShownAs(streams: Dict<string, Stream>, posts: seq<Post>, key: string, text: string, at: real) {
    Get(streams, key).Some? &&
    var stream := Get(streams, key).value;
    stream.lastText == text && stream.lastEditAt == at && Shows(posts, stream.messageId, text)
  }
}
