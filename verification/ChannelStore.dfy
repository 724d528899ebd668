/** The store that maps IM conversations to DeerFlow threads, keyed by flat strings. */
module ChannelStores {
  import opened Wrappers
  import opened OrderedDicts

  /** A conversation as its callers name it. A missing topic and an empty one are the same to the store. */
  datatype Conversation = Conversation(channel: string, chat: string, topic: Option<string>)

  datatype Entry = Entry(threadId: string, userId: string, createdAt: real, updatedAt: real)

  datatype Row = Row(conversation: Conversation, entry: Entry)

  function Normal(topic: Option<string>): Option<string> {
    if topic == Some("") then None else topic
  }

  function Key(c: Conversation): string {
    if c.topic.Some? && c.topic.value != "" then c.channel + ":" + c.chat + ":" + c.topic.value
    else c.channel + ":" + c.chat
  }

  /** Where the first colon of `s` stands, or the length of `s`. */
  function FirstColon(s: string): (i: nat)
    ensures i <= |s|
    ensures i < |s| ==> s[i] == ':'
    ensures ':' !in s[..i]
  {
    if s == "" || s[0] == ':' then 0
    else
      var i := 1 + FirstColon(s[1..]);
      assert s[..i] == [s[0]] + s[1..][..i - 1];
      i
  }

  /** `key.split(":", 2)` read back as channel, chat and topic. */
  function Parts(key: string): Conversation {
    var i := FirstColon(key);
    if i == |key| then Conversation(key, "", None)
    else
      var rest := key[i + 1..];
      var j := FirstColon(rest);
      if j == |rest| then Conversation(key[..i], rest, None)
      else Conversation(key[..i], rest[..j], Some(rest[j + 1..]))
  }

  predicate ColonFree(c: Conversation) {
    ':' !in c.channel && ':' !in c.chat
  }

  predicate SameConversation(a: Conversation, b: Conversation) {
    a.channel == b.channel && a.chat == b.chat && Normal(a.topic) == Normal(b.topic)
  }

  lemma {:induction false} FirstColonAfter(a: string, b: string)
    requires ':' !in a
    ensures FirstColon(a + ":" + b) == |a|
    ensures FirstColon(a) == |a|
  {
    if a != "" {
      assert (a + ":" + b)[1..] == a[1..] + ":" + b;
      FirstColonAfter(a[1..], b);
    }
  }

  lemma CutAtFirstColon(a: string, b: string)
    requires ':' !in a
    ensures var s := a + ":" + b;
      FirstColon(s) == |a| < |s| && s[..|a|] == a && s[|a| + 1..] == b
  {
    FirstColonAfter(a, b);
  }

  lemma PartsOfBare(channel: string, chat: string)
    requires ':' !in channel && ':' !in chat
    ensures Parts(channel + ":" + chat) == Conversation(channel, chat, None)
  {
    CutAtFirstColon(channel, chat);
    FirstColonAfter(chat, "");
  }

  lemma PartsWithTopic(channel: string, chat: string, topic: string)
    requires ':' !in channel && ':' !in chat
    ensures Parts(channel + ":" + chat + ":" + topic) == Conversation(channel, chat, Some(topic))
  {
    Regrouped(channel, chat, topic);
    CutAtFirstColon(channel, chat + ":" + topic);
    CutAtFirstColon(chat, topic);
    PartsAtColons(channel + ":" + (chat + ":" + topic), channel, chat + ":" + topic, chat, topic);
  }

  lemma Regrouped(a: string, b: string, c: string)
    ensures a + ":" + b + ":" + c == a + ":" + (b + ":" + c)
  {
  }

  lemma PartsAtColons(key: string, channel: string, rest: string, chat: string, topic: string)
    requires FirstColon(key) == |channel| < |key| && key[..|channel|] == channel && key[|channel| + 1..] == rest
    requires FirstColon(rest) == |chat| < |rest| && rest[..|chat|] == chat && rest[|chat| + 1..] == topic
    ensures Parts(key) == Conversation(channel, chat, Some(topic))
  {
  }

  lemma PartsAreColonFree(key: string)
    ensures ColonFree(Parts(key))
  {
    var i := FirstColon(key);
    if i == |key| {
      assert key[..i] == key;
    } else {
      var rest := key[i + 1..];
      assert rest[..|rest|] == rest;
    }
  }

  /** Splitting a stored key gives back the conversation exactly if neither its channel nor its chat holds a colon. */
  lemma PartsOfKey(c: Conversation)
    ensures Parts(Key(c)) == Conversation(c.channel, c.chat, Normal(c.topic)) <==> ColonFree(c)
  {
    PartsAreColonFree(Key(c));
    if ColonFree(c) {
      if Normal(c.topic).Some? {
        PartsWithTopic(c.channel, c.chat, c.topic.value);
      } else {
        PartsOfBare(c.channel, c.chat);
      }
    }
  }

  /** Two colon-free conversations share a key exactly when they are the same conversation. */
  lemma KeysSeparateConversations(a: Conversation, b: Conversation)
    requires ColonFree(a) && ColonFree(b)
    ensures Key(a) == Key(b) <==> SameConversation(a, b)
  {
    PartsOfKey(a);
    PartsOfKey(b);
  }

  /** A colon inside a chat id makes two different conversations share one entry. */
  lemma ColonsCollide(channel: string, chat: string, topic: string)
    requires topic != ""
    ensures Key(Conversation(channel, chat + ":" + topic, None)) == Key(Conversation(channel, chat, Some(topic)))
  {
  }

  /** Cutting a text at one of its colons. */
  lemma CutAtColon(s: string) returns (a: string, b: string)
    requires ':' in s
    ensures s == a + ":" + b
  {
    var j :| 0 <= j < |s| && s[j] == ':';
    a, b := s[..j], s[j + 1..];
  }

  /** A conversation with the same key, told differently. */
  lemma OtherReading(c: Conversation) returns (o: Conversation)
    requires Normal(c.topic).Some? || !ColonFree(c)
    ensures !SameConversation(o, c) && Key(o) == Key(c)
  {
    if Normal(c.topic).Some? {
      o := Conversation(c.channel, c.chat + ":" + c.topic.value, None);
      ColonsCollide(c.channel, c.chat, c.topic.value);
    } else if ':' in c.chat {
      var a, b := CutAtColon(c.chat);
      o := Conversation(c.channel + ":" + a, b, None);
      assert |o.channel| > |c.channel|;
      assert Key(o) == c.channel + ":" + (a + ":" + b);
    } else {
      var a, b := CutAtColon(c.channel);
      o := Conversation(a, b + ":" + c.chat, None);
      assert |o.channel| < |c.channel|;
      assert Key(o) == a + ":" + b + ":" + c.chat;
    }
  }

  lemma TopicAfterColon(o: Conversation)
    requires Normal(o.topic).Some?
    ensures var i := |o.channel| + 1 + |o.chat|; i < |Key(o)| && Key(o)[i] == ':'
  {
  }

  /** A key with a single colon has a single reading. */
  lemma OneReading(c: Conversation, o: Conversation)
    requires ColonFree(c) && Normal(c.topic).None? && Key(o) == Key(c)
    ensures SameConversation(o, c)
  {
    var key := c.channel + ":" + c.chat;
    var i := |o.channel|;
    assert forall k :: 0 <= k < |key| && key[k] == ':' ==> k == |c.channel|;
    assert Key(o)[i] == ':';
    if Normal(o.topic).Some? {
      TopicAfterColon(o);
    } else {
      assert key == o.channel + ":" + o.chat;
      assert key[..i] == o.channel == c.channel && key[i + 1..] == o.chat == c.chat;
    }
  }

  /** Another conversation shares the key exactly if there is a topic, or a colon in an id. */
  lemma SharesItsKeyExactlyIf(c: Conversation)
    ensures (exists o :: !SameConversation(o, c) && Key(o) == Key(c)) <==> Normal(c.topic).Some? || !ColonFree(c)
  {
    if Normal(c.topic).Some? || !ColonFree(c) {
      var o := OtherReading(c);
    } else {
      forall o | Key(o) == Key(c) ensures SameConversation(o, c) {
        OneReading(c, o);
      }
    }
  }

  // What the operations do to the dictionary

  function View(d: Dict<string, Entry>, c: Conversation): Option<Entry> {
    Get(d, Key(c))
  }

  function Recorded(d: Dict<string, Entry>, c: Conversation, threadId: string, userId: string, now: real)
    : Dict<string, Entry>
  {
    var existing := View(d, c);
    Put(d, Key(c), Entry(threadId, userId, if existing.Some? then existing.value.createdAt else now, now))
  }

  predicate UnderChat(key: string, prefix: string) {
    key == prefix || prefix + ":" <= key
  }

  function WithoutChat(d: Dict<string, Entry>, prefix: string): Dict<string, Entry> {
    if d == [] then []
    else if UnderChat(d[0].key, prefix) then WithoutChat(d[1..], prefix)
    else [d[0]] + WithoutChat(d[1..], prefix)
  }

  function Listed(d: Dict<string, Entry>, channel: string): seq<Row> {
    if d == [] then []
    else
      var c := Parts(d[0].key);
      if channel != "" && c.channel != channel then Listed(d[1..], channel)
      else [Row(c, d[0].value)] + Listed(d[1..], channel)
  }

  /** The keys are unique and each was made from a colon-free conversation. */
  ghost predicate WellFormed(d: Dict<string, Entry>) {
    && Unique(d)
    && forall i :: 0 <= i < |d| ==> MadeFromConversation(d[i].key)
  }

  ghost predicate MadeFromConversation(key: string) {
    exists c :: ColonFree(c) && key == Key(c)
  }

  // The store as a table of conversations

  /** Setting a mapping changes that conversation only, and keeps its creation time. */
  lemma SetRefinesTable(d: Dict<string, Entry>, c: Conversation, threadId: string, userId: string, now: real)
    requires WellFormed(d) && ColonFree(c)
    ensures var e := Recorded(d, c, threadId, userId, now);
      && WellFormed(e)
      && (forall o :: ColonFree(o) && !SameConversation(o, c) ==> View(e, o) == View(d, o))
      && (View(d, c).Some? ==> View(e, c) == Some(Entry(threadId, userId, View(d, c).value.createdAt, now)))
      && (View(d, c).None? ==> View(e, c) == Some(Entry(threadId, userId, now, now)))
  {
    var e := Recorded(d, c, threadId, userId, now);
    var v := Get(e, Key(c));
    PutSpec(d, Key(c), Entry(threadId, userId, if View(d, c).Some? then View(d, c).value.createdAt else now, now));
    forall o | ColonFree(o) && !SameConversation(o, c) ensures View(e, o) == View(d, o) {
      KeysSeparateConversations(o, c);
    }
    forall i | 0 <= i < |e| ensures MadeFromConversation(e[i].key) {
      GetAt(e, i);
      if e[i].key != Key(c) {
        var j :| 0 <= j < |d| && d[j].key == e[i].key;
        assert MadeFromConversation(d[j].key);
      }
    }
  }

  /** Removing one topic leaves every other conversation alone. */
  lemma RemoveTopicRefinesTable(d: Dict<string, Entry>, c: Conversation)
    requires WellFormed(d) && ColonFree(c)
    ensures var e := Drop(d, Key(c));
      && WellFormed(e)
      && forall o :: ColonFree(o) ==> View(e, o) == if SameConversation(o, c) then None else View(d, o)
  {
    var e := Drop(d, Key(c));
    DropSpec(d, Key(c));
    forall o | ColonFree(o) ensures View(e, o) == if SameConversation(o, c) then None else View(d, o) {
      KeysSeparateConversations(o, c);
    }
    forall i | 0 <= i < |e| ensures MadeFromConversation(e[i].key) {
      GetAt(e, i);
      var j :| 0 <= j < |d| && d[j].key == e[i].key;
      assert MadeFromConversation(d[j].key);
    }
  }

  /** A key lies under a chat's prefix exactly when it belongs to that chat, topics included. */
  lemma UnderChatIsTheChat(o: Conversation, channel: string, chat: string)
    requires ColonFree(o) && ':' !in channel && ':' !in chat
    ensures UnderChat(Key(o), Key(Conversation(channel, chat, None))) <==> o.channel == channel && o.chat == chat
  {
    var base := Conversation(channel, chat, None);
    var prefix := Key(base);
    KeysSeparateConversations(o, base);
    if prefix + ":" <= Key(o) {
      var rest := Key(o)[|prefix| + 1..];
      assert Key(o) == channel + ":" + chat + ":" + rest;
      PartsWithTopic(channel, chat, rest);
      PartsOfKey(o);
    }
  }

  lemma {:induction false} WithoutChatSpec(d: Dict<string, Entry>, prefix: string)
    requires Unique(d)
    ensures Unique(WithoutChat(d, prefix))
    ensures forall k :: Get(WithoutChat(d, prefix), k) == if UnderChat(k, prefix) then None else Get(d, k)
  {
    if d != [] {
      HeadAbsent(d);
      WithoutChatSpec(d[1..], prefix);
      var p := WithoutChat(d, prefix);
      if !UnderChat(d[0].key, prefix) {
        assert p[1..] == WithoutChat(d[1..], prefix);
        forall j | 0 < j < |p| ensures p[0].key != p[j].key {
          assert p[j] == p[1..][j - 1];
          GetAt(p[1..], j - 1);
        }
        assert forall i, j :: 0 < i < j < |p| ==> p[i] == p[1..][i - 1] && p[j] == p[1..][j - 1];
      }
    }
  }

  /** Removing a chat without a topic removes exactly that chat's conversations. */
  lemma RemoveChatRefinesTable(d: Dict<string, Entry>, channel: string, chat: string)
    requires WellFormed(d) && ':' !in channel && ':' !in chat
    ensures var e := WithoutChat(d, Key(Conversation(channel, chat, None)));
      && WellFormed(e)
      && forall o :: ColonFree(o) ==>
           View(e, o) == if o.channel == channel && o.chat == chat then None else View(d, o)
  {
    var prefix := Key(Conversation(channel, chat, None));
    var e := WithoutChat(d, prefix);
    WithoutChatSpec(d, prefix);
    forall o | ColonFree(o)
      ensures View(e, o) == if o.channel == channel && o.chat == chat then None else View(d, o)
    {
      UnderChatIsTheChat(o, channel, chat);
    }
    forall i | 0 <= i < |e| ensures MadeFromConversation(e[i].key) {
      GetAt(e, i);
      var j :| 0 <= j < |d| && d[j].key == e[i].key;
      assert MadeFromConversation(d[j].key);
    }
  }

  /** Listing shows exactly the stored conversations of the channel asked for, with their entries. */
  lemma {:induction false} ListingShowsTheTable(d: Dict<string, Entry>, channel: string, c: Conversation, e: Entry)
    requires WellFormed(d) && ColonFree(c) && Normal(c.topic) == c.topic
    ensures Row(c, e) in Listed(d, channel) <==> View(d, c) == Some(e) && (channel == "" || c.channel == channel)
  {
    if d != [] {
      HeadAbsent(d);
      assert forall i :: 0 <= i < |d[1..]| ==> d[1..][i] == d[i + 1];
      assert WellFormed(d[1..]);
      ListingShowsTheTable(d[1..], channel, c, e);
      assert MadeFromConversation(d[0].key);
      var h :| ColonFree(h) && d[0].key == Key(h);
      PartsOfKey(h);
      KeysSeparateConversations(h, c);
    }
  }

  class ChannelStore {
    var data: Dict<string, Entry>

    constructor ()
      ensures data == []
    {
      data := [];
    }

    method GetThreadId(c: Conversation) returns (threadId: Option<string>)
      ensures threadId == match View(data, c) case None => None case Some(e) => Some(e.threadId)
    {
      var entry := Get(data, Key(c));
      threadId := if entry.Some? then Some(entry.value.threadId) else None;
    }

    method SetThreadId(c: Conversation, threadId: string, userId: string, now: real)
      modifies this
      ensures data == Recorded(old(data), c, threadId, userId, now)
    {
      var key := Key(c);
      var existing := Get(data, key);
      var createdAt := if existing.Some? then existing.value.createdAt else now;
      data := Put(data, key, Entry(threadId, userId, createdAt, now));
    }

    /** A topic that is given, even an empty one, removes a single key; no topic removes the whole chat. */
    method Remove(c: Conversation) returns (removed: bool)
      requires Unique(data)
      modifies this
      ensures c.topic.Some? ==> data == Drop(old(data), Key(c)) && removed == Has(old(data), Key(c))
      ensures c.topic.None? ==> data == WithoutChat(old(data), Key(c)) && removed == (data != old(data))
    {
      var key := Key(c);
      if c.topic.Some? {
        DropSpec(data, key);
        if Get(data, key).Some? {
          data := Drop(data, key);
          return true;
        }
        return false;
      }
      var keep: Dict<string, Entry> := [];
      removed := false;
      for i := 0 to |data|
        invariant data == old(data)
        invariant keep == WithoutChat(data[..i], key)
        invariant !removed ==> keep == data[..i]
        invariant removed ==> |keep| < i
      {
        WithoutChatSnoc(data[..i], data[i], key);
        assert data[..i + 1] == data[..i] + [data[i]];
        if UnderChat(data[i].key, key) {
          removed := true;
        } else {
          keep := keep + [data[i]];
        }
      }
      assert data[..|data|] == data;
      if !removed {
        return;
      }
      data := keep;
    }

    method ListEntries(channel: string) returns (rows: seq<Row>)
      ensures rows == Listed(data, channel)
    {
      rows := [];
      for i := 0 to |data|
        invariant rows + Listed(data[i..], channel) == Listed(data, channel)
      {
        var c := Parts(data[i].key);
        assert data[i..][1..] == data[i + 1..];
        if !(channel != "" && c.channel != channel) {
          rows := rows + [Row(c, data[i].value)];
        }
      }
    }
  }

  lemma {:induction false} WithoutChatSnoc(d: Dict<string, Entry>, x: Item<string, Entry>, prefix: string)
    ensures WithoutChat(d + [x], prefix) == WithoutChat(d, prefix) + (if UnderChat(x.key, prefix) then [] else [x])
  {
    if d != [] {
      assert (d + [x])[1..] == d[1..] + [x];
      WithoutChatSnoc(d[1..], x, prefix);
    } else {
      assert d + [x] == [x];
    }
  }
}
