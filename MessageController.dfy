/**
 * controllers/messageController.js: sending a message, listing the messages of
 * a conversation, deleting a message, reacting to it and marking it read.
 */
module MessageController {
  import opened Common
  import opened Schema
  import opened Db

  /** The fields `sendMessage` reads from `req.body`; `None` is an absent field. */
  datatype SendMessageBody = SendMessageBody(
    conversationId: Option<ConversationId>,
    text: Option<string>,
    messageType: Option<string>,
    attachments: Option<seq<AttachmentDoc>>)

  /**
   * The two request checks of `sendMessage`, in the order the handler makes
   * them: a conversation id is required, and a message whose trimmed text is
   * empty must carry at least one attachment.
   */
  function CheckSendBody(body: SendMessageBody): (r: Option<string>)
    ensures r.None? <==>
      body.conversationId.Some? && (!AllSpace(body.text.GetOr("")) || body.attachments.GetOr([]) != [])
    ensures body.conversationId.None? ==> r == Some("Conversation ID is required")
    ensures body.conversationId.Some? && r.Some? ==> r == Some("Message must contain text or attachments")
  {
    if body.conversationId.None? then Some("Conversation ID is required")
    else if Trim(body.text.GetOr("")) == [] && body.attachments.GetOr([]) == [] then
      Some("Message must contain text or attachments")
    else None
  }

  /** One `conversationUpdated` event per room, in order. */
  function UpdateNotices(rooms: seq<UserId>, c: Conversation): seq<Event> {
    seq(|rooms|, i requires 0 <= i < |rooms| => Emit(rooms[i], ConversationUpdated(c)))
  }

  /** The `forEach` over the populated participants that emits `conversationUpdated` to each. */
  method NotifyParticipants(rooms: seq<UserId>, c: Conversation) returns (notices: seq<Event>)
    ensures notices == UpdateNotices(rooms, c)
  {
    notices := [];
    for i := 0 to |rooms|
      invariant notices == UpdateNotices(rooms[..i], c)
    {
      notices := notices + [Emit(rooms[i], ConversationUpdated(c))];
    }
    assert rooms[..|rooms|] == rooms;
  }

  /** The message `sendMessage` would store, if the schema accepts it. */
  function MessageToStore(id: MessageId, caller: UserId, body: SendMessageBody, now: Time): Option<Message>
    requires body.conversationId.Some?
  {
    CastMessage(id, body.conversationId.value, caller, Some(Trim(body.text.GetOr(""))),
                Some(body.messageType.GetOr("text")), body.attachments.GetOr([]), now)
  }

  /**
   * `sendMessage`: validate, look the conversation up, store the message,
   * point the conversation's `lastMessage` at it, then emit `receiveMessage`
   * to the conversation's room and `conversationUpdated` to each participant's
   * room. Any failure happens before the first write, so it leaves the store
   * and the event log as they were. The unread counters are not touched.
   */
  method SendMessage(db: Store, caller: UserId, body: SendMessageBody, now: Time) returns (r: Reply<Message>)
    requires db.Valid()
    modifies db
    ensures db.Valid()
    ensures CheckSendBody(body).Some? ==> r == Err(400, CheckSendBody(body).value)
    ensures CheckSendBody(body).None? && body.conversationId.value !in old(db.conversations) ==>
      r == Err(404, "Conversation not found")
    ensures CheckSendBody(body).None? && body.conversationId.value in old(db.conversations) ==>
      (r.Ok? <==> old(MessageToStore(db.nextId, caller, body, now)).Some?)
    ensures CheckSendBody(body).None? && body.conversationId.value in old(db.conversations)
            && old(MessageToStore(db.nextId, caller, body, now)).None? ==>
      r.Err? && r.status == 500
    ensures !r.Ok? ==> unchanged(db)
    ensures r.Ok? ==> CheckSendBody(body).None? && body.conversationId.value in old(db.conversations)
    ensures r.Ok? ==>
      var cid := body.conversationId.value;
      var conv := old(db.conversations)[cid].(lastMessage := Some(r.value.id), updatedAt := now);
      var shown := PopulatedConversation(conv, db.users, db.messages);
      && r.status == 201
      && Some(r.value) == old(MessageToStore(db.nextId, caller, body, now))
      && r.value.id !in old(db.messages)
      && db.messages == old(db.messages)[r.value.id := r.value]
      && db.conversations == old(db.conversations)[cid := conv]
      && db.users == old(db.users) && db.requests == old(db.requests)
      && db.events == old(db.events) + [Emit(cid, ReceiveMessage(r.value, shown))]
                      + UpdateNotices(shown.participants, shown)
  {
    var check := CheckSendBody(body);
    if check.Some? {
      return Err(400, check.value);
    }
    var cid := body.conversationId.value;
    if cid !in db.conversations {
      return Err(404, "Conversation not found");
    }
    var cast := MessageToStore(db.nextId, caller, body, now);
    if cast.None? {
      return Err(500, "Message validation failed");
    }
    Deliver(db, cid, cast.value, now);
    r := Ok(201, cast.value);
  }

  /**
   * The writes of `sendMessage` once its checks have passed: store the
   * message under a fresh id, make it the conversation's last message, and
   * emit the events.
   */
  method Deliver(db: Store, cid: ConversationId, message: Message, now: Time)
    requires db.Valid() && cid in db.conversations
    requires message.id == db.nextId && OneReactionPerUser(message.reactions)
    modifies db
    ensures db.Valid()
    ensures
      var conv := old(db.conversations)[cid].(lastMessage := Some(message.id), updatedAt := now);
      var shown := PopulatedConversation(conv, db.users, db.messages);
      && message.id !in old(db.messages)
      && db.messages == old(db.messages)[message.id := message]
      && db.conversations == old(db.conversations)[cid := conv]
      && db.users == old(db.users) && db.requests == old(db.requests)
      && db.events == old(db.events) + [Emit(cid, ReceiveMessage(message, shown))]
                      + UpdateNotices(shown.participants, shown)
  {
    var id := db.NewId();
    db.SaveMessage(message);

    var conv := db.conversations[cid].(lastMessage := Some(id), updatedAt := now);
    db.SaveConversation(conv);

    var shown := PopulatedConversation(conv, db.users, db.messages);
    var notices := NotifyParticipants(shown.participants, shown);
    db.Publish([Emit(cid, ReceiveMessage(message, shown))] + notices);
  }

  /**
   * `getMessages`: 404 for an unknown conversation, 403 for a caller who is
   * not one of its participants; otherwise every message of the conversation,
   * each once, oldest first.
   */
  method GetMessages(db: Store, caller: UserId, cid: ConversationId) returns (r: Reply<seq<Message>>)
    requires db.Valid()
    ensures cid !in db.conversations ==> r == Err(404, "Conversation not found")
    ensures cid in db.conversations && caller !in db.conversations[cid].participants ==>
      r == Err(403, "You are not a participant of this conversation")
    ensures r.Ok? <==> cid in db.conversations && caller in db.conversations[cid].participants
    ensures r.Ok? ==>
      && r.status == 200
      && (forall i | 0 <= i < |r.value| ::
            r.value[i].id in db.messages && db.messages[r.value[i].id] == r.value[i]
            && r.value[i].conversationId == cid)
      && (forall k | k in db.messages && db.messages[k].conversationId == cid :: db.messages[k] in r.value)
      && (forall i, j | 0 <= i < j < |r.value| :: r.value[i].id != r.value[j].id)
      && (forall i, j | 0 <= i < j < |r.value| :: r.value[i].createdAt <= r.value[j].createdAt)
  {
    if cid !in db.conversations {
      return Err(404, "Conversation not found");
    }
    if caller !in db.conversations[cid].participants {
      return Err(403, "You are not a participant of this conversation");
    }
    var m := db.messages;
    var ids := FindSorted(m, (x: Message) => x.conversationId == cid, (x: Message) => x.createdAt);
    var found := seq(|ids|, i requires 0 <= i < |ids| => m[ids[i]]);
    forall k | k in m && m[k].conversationId == cid
      ensures m[k] in found
    {
      var i :| 0 <= i < |ids| && ids[i] == k;
      assert found[i] == m[k];
    }
    r := Ok(200, found);
  }

  /**
   * `deleteMessage`: 404 for an unknown message, 403 unless the caller sent
   * it (the message then stays stored); otherwise the message is removed and
   * `messageDeleted` goes to its conversation's room. The conversation's
   * `lastMessage` is left as it was, even when it named this message.
   */
  method DeleteMessage(db: Store, caller: UserId, mid: MessageId) returns (r: Reply<string>)
    requires db.Valid()
    modifies db
    ensures db.Valid()
    ensures mid !in old(db.messages) ==> r == Err(404, "Message not found") && unchanged(db)
    ensures mid in old(db.messages) && old(db.messages)[mid].senderId != caller ==>
      r == Err(403, "Not authorized to delete this message") && unchanged(db)
    ensures mid in old(db.messages) && old(db.messages)[mid].senderId == caller ==>
      var cid := old(db.messages)[mid].conversationId;
      && r == Ok(200, "Message deleted successfully")
      && db.messages == old(db.messages) - {mid}
      && db.conversations == old(db.conversations) && db.users == old(db.users)
      && db.requests == old(db.requests) && db.nextId == old(db.nextId)
      && db.events == old(db.events) + [Emit(cid, MessageDeleted(mid, cid))]
  {
    if mid !in db.messages {
      return Err(404, "Message not found");
    }
    var message := db.messages[mid];
    if message.senderId != caller {
      return Err(403, "Not authorized to delete this message");
    }
    db.RemoveMessage(mid);
    db.Publish([Emit(message.conversationId, MessageDeleted(mid, message.conversationId))]);
    r := Ok(200, "Message deleted successfully");
  }

  // ---------------------------------------------------------------------------
  // Reactions
  // ---------------------------------------------------------------------------

  predicate HasReaction(rs: seq<Reaction>, u: UserId) {
    exists i | 0 <= i < |rs| :: rs[i].userId == u
  }

  /** `reactions.findIndex(r => r.userId == u)`: the first reaction of `u`, or -1 when there is none. */
  function FirstIndexOf(rs: seq<Reaction>, u: UserId): (i: int)
    ensures -1 <= i < |rs|
    ensures i == -1 <==> !HasReaction(rs, u)
    ensures i >= 0 ==> rs[i].userId == u && forall j | 0 <= j < i :: rs[j].userId != u
  {
    if rs == [] then -1
    else if rs[0].userId == u then 0
    else
      var k := FirstIndexOf(rs[1..], u);
      HasReactionTail(rs, u);
      assert k >= 0 ==> forall j | 0 < j < k + 1 :: rs[j] == rs[1..][j - 1];
      if k == -1 then -1 else k + 1
  }

  lemma HasReactionTail(rs: seq<Reaction>, u: UserId)
    requires rs != [] && rs[0].userId != u
    ensures HasReaction(rs, u) <==> HasReaction(rs[1..], u)
  {
    if HasReaction(rs, u) {
      var i :| 0 <= i < |rs| && rs[i].userId == u;
      assert rs[1..][i - 1] == rs[i];
    }
    if HasReaction(rs[1..], u) {
      var i :| 0 <= i < |rs[1..]| && rs[1..][i].userId == u;
      assert rs[i + 1] == rs[1..][i];
    }
  }

  /**
   * The reaction list after `u` reacts with `emoji`: the first reaction of
   * `u` gets the new emoji in place (keeping its position and `createdAt`), or,
   * when `u` has none, a new reaction is appended. Every other reaction is kept.
   */
  function Upsert(rs: seq<Reaction>, u: UserId, emoji: string, now: Time): (r: seq<Reaction>)
    ensures HasReaction(r, u)
    ensures !HasReaction(rs, u) ==> r == rs + [Reaction(u, emoji, now)]
    ensures HasReaction(rs, u) ==>
      && |r| == |rs|
      && (forall i | 0 <= i < |rs| :: r[i].userId == rs[i].userId && r[i].createdAt == rs[i].createdAt)
      && (forall i | 0 <= i < |rs| && rs[i].userId != u :: r[i] == rs[i])
  {
    var idx := FirstIndexOf(rs, u);
    if idx == -1 then
      var r := rs + [Reaction(u, emoji, now)];
      assert r[|rs|].userId == u;
      r
    else
      var r := rs[idx := rs[idx].(emoji := emoji)];
      assert r[idx].userId == u;
      r
  }

  /** A reaction list has one first reaction of each user. */
  lemma FirstIndexUnique(rs: seq<Reaction>, u: UserId, i: nat, k: nat)
    requires i < |rs| && rs[i].userId == u && forall j | 0 <= j < i :: rs[j].userId != u
    requires k < |rs| && rs[k].userId == u && forall j | 0 <= j < k :: rs[j].userId != u
    ensures i == k
  {
  }

  /**
   * Reacting keeps the schema-level promise of the handler's `findIndex`
   * logic: still one reaction per user, and the reacting user's carries the new emoji.
   */
  lemma UpsertKeepsOneReactionPerUser(rs: seq<Reaction>, u: UserId, emoji: string, now: Time)
    requires OneReactionPerUser(rs)
    ensures OneReactionPerUser(Upsert(rs, u, emoji, now))
    ensures forall i | 0 <= i < |Upsert(rs, u, emoji, now)| && Upsert(rs, u, emoji, now)[i].userId == u ::
      Upsert(rs, u, emoji, now)[i].emoji == emoji
  {
    var r := Upsert(rs, u, emoji, now);
    var idx := FirstIndexOf(rs, u);
    forall i | 0 <= i < |r| && r[i].userId == u
      ensures r[i].emoji == emoji
    {
    }
    forall i, j | 0 <= i < j < |r|
      ensures r[i].userId != r[j].userId
    {
      if idx == -1 && j == |rs| {
        assert r[i] == rs[i];
      }
    }
  }

  /** Reacting again with the same emoji changes nothing more. */
  lemma {:induction false} UpsertIdempotent(rs: seq<Reaction>, u: UserId, emoji: string, t1: Time, t2: Time)
    ensures Upsert(Upsert(rs, u, emoji, t1), u, emoji, t2) == Upsert(rs, u, emoji, t1)
  {
    var r := Upsert(rs, u, emoji, t1);
    var idx := FirstIndexOf(rs, u);
    var k := if idx == -1 then |rs| else idx;
    assert r[k].userId == u && r[k].emoji == emoji;
    assert forall j | 0 <= j < k :: r[j] == rs[j];
    var k' := FirstIndexOf(r, u);
    FirstIndexUnique(r, u, k, k');
    assert r[k := r[k].(emoji := emoji)] == r;
  }

  /**
   * `findIndex` done the way the handler does it: the first reaction of `u`,
   * or -1 when there is none.
   */
  method FindReactionIndex(rs: seq<Reaction>, u: UserId) returns (idx: int)
    ensures idx == FirstIndexOf(rs, u)
    ensures idx == -1 <==> !HasReaction(rs, u)
    ensures idx >= 0 ==> idx < |rs| && rs[idx].userId == u && forall j | 0 <= j < idx :: rs[j].userId != u
  {
    var i := 0;
    while i < |rs|
      invariant 0 <= i <= |rs|
      invariant forall j | 0 <= j < i :: rs[j].userId != u
    {
      if rs[i].userId == u {
        FirstIndexUnique(rs, u, i, FirstIndexOf(rs, u));
        return i;
      }
      i := i + 1;
    }
    return -1;
  }

  /** Replacing the emoji at the index `findIndex` returns is exactly `Upsert`. */
  lemma UpsertAtFirstIndex(rs: seq<Reaction>, u: UserId, emoji: string, now: Time, idx: nat)
    requires idx < |rs| && rs[idx].userId == u
    requires forall j | 0 <= j < idx :: rs[j].userId != u
    ensures Upsert(rs, u, emoji, now) == rs[idx := rs[idx].(emoji := emoji)]
  {
    FirstIndexUnique(rs, u, idx, FirstIndexOf(rs, u));
  }

  /** The message after `u` reacts with `emoji`, as `save()` stores it. */
  function Reacted(m: Message, u: UserId, emoji: string, now: Time): Message {
    SavedMessage(m, m.(reactions := Upsert(m.reactions, u, emoji, now)), now)
  }

  /**
   * `reactToMessage`: 404 for an unknown message; an absent or empty emoji
   * fails the schema's `required` check on save (500, nothing stored);
   * otherwise the reaction list becomes `Upsert(...)` and `messageReaction`,
   * carrying only the changed reaction, goes to the conversation's room.
   */
  method ReactToMessage(db: Store, caller: UserId, mid: MessageId, emoji: Option<string>, now: Time)
    returns (r: Reply<Message>)
    requires db.Valid()
    modifies db
    ensures db.Valid()
    ensures mid !in old(db.messages) ==> r == Err(404, "Message not found") && unchanged(db)
    ensures mid in old(db.messages) && !RequiredString(emoji) ==>
      r == Err(500, "Error reacting to message") && unchanged(db)
    ensures mid in old(db.messages) && RequiredString(emoji) ==>
      var m := Reacted(old(db.messages)[mid], caller, emoji.value, now);
      && r == Ok(200, m)
      && db.messages == old(db.messages)[mid := m]
      && db.conversations == old(db.conversations) && db.users == old(db.users)
      && db.requests == old(db.requests) && db.nextId == old(db.nextId)
      && db.events == old(db.events) + [Emit(m.conversationId, MessageReaction(mid, caller, emoji.value))]
  {
    if mid !in db.messages {
      return Err(404, "Message not found");
    }
    var message := db.messages[mid];
    var rs := message.reactions;
    var idx := FindReactionIndex(rs, caller);
    if !RequiredString(emoji) {
      return Err(500, "Error reacting to message");
    }
    var updated: seq<Reaction>;
    if idx > -1 {
      updated := rs[idx := rs[idx].(emoji := emoji.value)];
      UpsertAtFirstIndex(rs, caller, emoji.value, now, idx);
    } else {
      updated := rs + [Reaction(caller, emoji.value, now)];
    }
    var saved := SavedMessage(message, message.(reactions := updated), now);
    db.SaveMessage(saved);
    db.Publish([Emit(saved.conversationId, MessageReaction(mid, caller, emoji.value))]);
    r := Ok(200, saved);
  }

  // ---------------------------------------------------------------------------
  // Read status
  // ---------------------------------------------------------------------------

  /** The message after `status[u] = 'read'`, as `save()` stores it. */
  function MarkedRead(m: Message, u: UserId, now: Time): (r: Message)
    ensures u in r.status && r.status[u] == "read"
    ensures forall k | k in m.status && k != u :: k in r.status && r.status[k] == m.status[k]
    ensures forall k | k in r.status :: k in m.status || k == u
    ensures r.(status := m.status, updatedAt := m.updatedAt) == m
  {
    SavedMessage(m, m.(status := m.status[u := "read"]), now)
  }

  /** Marking a message read twice for the same user leaves it as the first mark did. */
  lemma MarkedReadIdempotent(m: Message, u: UserId, t1: Time, t2: Time)
    ensures MarkedRead(MarkedRead(m, u, t1), u, t2) == MarkedRead(m, u, t1)
  {
    var m1 := MarkedRead(m, u, t1);
    assert m1.status[u := "read"] == m1.status;
  }

  /**
   * `markMessageAsRead`: 404 for an unknown message; otherwise `status[userId]`
   * becomes 'read' (for the user named in the request body, whoever calls)
   * and `messageStatusUpdated` goes to the conversation's room.
   */
  method MarkMessageAsRead(db: Store, mid: MessageId, userId: UserId, now: Time) returns (r: Reply<string>)
    requires db.Valid()
    modifies db
    ensures db.Valid()
    ensures mid !in old(db.messages) ==> r == Err(404, "Message not found") && unchanged(db)
    ensures mid in old(db.messages) ==>
      var m := MarkedRead(old(db.messages)[mid], userId, now);
      && r == Ok(200, "Message marked as read")
      && db.messages == old(db.messages)[mid := m]
      && db.conversations == old(db.conversations) && db.users == old(db.users)
      && db.requests == old(db.requests) && db.nextId == old(db.nextId)
      && db.events == old(db.events) + [Emit(m.conversationId, MessageStatusUpdated(mid, userId, "read"))]
  {
    if mid !in db.messages {
      return Err(404, "Message not found");
    }
    var message := db.messages[mid];
    var saved := SavedMessage(message, message.(status := message.status[userId := "read"]), now);
    db.SaveMessage(saved);
    db.Publish([Emit(saved.conversationId, MessageStatusUpdated(mid, userId, "read"))]);
    r := Ok(200, "Message marked as read");
  }
}
