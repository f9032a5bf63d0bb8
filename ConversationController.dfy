/**
 * controllers/conversationController.js: listing the caller's conversations,
 * creating one, renaming it and resetting the caller's unread counter.
 */
module ConversationController {
  import opened Common
  import opened Schema
  import opened Db

  /**
   * `getConversations`: every conversation the caller takes part in, each
   * once, most recently updated first, with participants and last message
   * populated.
   */
  method GetConversations(db: Store, caller: UserId) returns (r: Reply<seq<Conversation>>)
    requires db.Valid()
    ensures r.Ok? && r.status == 200
    ensures forall i | 0 <= i < |r.value| ::
      var k := r.value[i].id;
      k in db.conversations && caller in db.conversations[k].participants
      && r.value[i] == PopulatedConversation(db.conversations[k], db.users, db.messages)
    ensures forall k | k in db.conversations && caller in db.conversations[k].participants ::
      PopulatedConversation(db.conversations[k], db.users, db.messages) in r.value
    ensures forall i, j | 0 <= i < j < |r.value| :: r.value[i].id != r.value[j].id
    ensures forall i, j | 0 <= i < j < |r.value| :: r.value[i].updatedAt >= r.value[j].updatedAt
  {
    var m, users, messages := db.conversations, db.users, db.messages;
    var ids := FindSorted(m, (c: Conversation) => caller in c.participants, (c: Conversation) => -c.updatedAt);
    var found := seq(|ids|, i requires 0 <= i < |ids| => PopulatedConversation(m[ids[i]], users, messages));
    forall i | 0 <= i < |found|
      ensures found[i].id == ids[i] && ids[i] in m && caller in m[ids[i]].participants
    {
      assert m[ids[i]].id == ids[i];
    }
    forall k | k in m && caller in m[k].participants
      ensures PopulatedConversation(m[k], users, messages) in found
    {
      var i :| 0 <= i < |ids| && ids[i] == k;
      assert found[i] == PopulatedConversation(m[k], users, messages);
    }
    forall i, j | 0 <= i < j < |found|
      ensures found[i].id != found[j].id && found[i].updatedAt >= found[j].updatedAt
    {
      assert m[ids[i]].id == ids[i] && m[ids[j]].id == ids[j];
    }
    r := Ok(200, found);
  }

  // ---------------------------------------------------------------------------
  // createConversation
  // ---------------------------------------------------------------------------

  /** The body of `createConversation`; `None` is an absent field. */
  datatype CreateBody = CreateBody(participants: Option<seq<UserId>>, kind: Option<string>)

  /** `{ type: 'private', participants: { $all: ps } }`: a private conversation holding every one of `ps`. */
  predicate PrivateWithAll(c: Conversation, ps: seq<UserId>) {
    c.kind == Private && forall x | x in ps :: x in c.participants
  }

  /**
   * `createConversation`: absent or empty participants are refused (400).
   * The caller joins the list if missing, and `type` defaults to 'group'.
   * A private request for two people that already share a private conversation
   * gets that conversation back (200). Otherwise the new conversation is stored
   * and returned with its participants populated (201). A `type` outside the
   * enum fails validation; the handler rethrows, so it escapes as `Thrown`.
   */
  method CreateConversation(db: Store, caller: UserId, body: CreateBody, now: Time) returns (r: Reply<Conversation>)
    requires db.Valid()
    modifies db
    ensures db.Valid()
    ensures body.participants.None? || body.participants.value == [] ==>
      r == Err(400, "Participants are required") && unchanged(db)
    ensures r.Ok? ==> body.participants.Some? && body.participants.value != []
    ensures r.Ok? && r.status == 200 ==>
      && unchanged(db)
      && body.kind.GetOr("group") == "private"
      && |Adjoin(body.participants.value, caller)| == 2
      && r.value.id in db.conversations && r.value == db.conversations[r.value.id]
      && PrivateWithAll(r.value, Adjoin(body.participants.value, caller))
    ensures r.Ok? && r.status == 201 ==>
      var ps := Adjoin(body.participants.value, caller);
      var stored := CastConversation(r.value.id, ps, Some(body.kind.GetOr("group")), caller, now);
      && stored.Some?
      && r.value == PopulatedConversation(stored.value, db.users, db.messages)
      && r.value.id !in old(db.conversations)
      && db.conversations == old(db.conversations)[r.value.id := stored.value]
      && db.users == old(db.users) && db.messages == old(db.messages)
      && db.requests == old(db.requests) && db.events == old(db.events)
      && !(body.kind.GetOr("group") == "private" && |ps| == 2
           && exists k | k in old(db.conversations) :: PrivateWithAll(old(db.conversations)[k], ps))
    ensures r.Ok? ==> r.status == 200 || r.status == 201
    ensures r.Err? ==> r.status == 400 && (body.participants.None? || body.participants.value == [])
    ensures r.Thrown? ==>
      && ParseConversationType(body.kind.GetOr("group")).None?
      && unchanged(db)
    ensures (body.participants.Some? && body.participants.value != []
             && ParseConversationType(body.kind.GetOr("group")).Some?) ==> r.Ok?
    ensures (body.participants.Some? && body.participants.value != []
             && ParseConversationType(body.kind.GetOr("group")).None?) ==> r.Thrown?
  {
    if body.participants.None? || body.participants.value == [] {
      return Err(400, "Participants are required");
    }
    var ps := Adjoin(body.participants.value, caller);
    var kind := body.kind.GetOr("group");

    if kind == "private" && |ps| == 2 {
      if k :| k in db.conversations && PrivateWithAll(db.conversations[k], ps) {
        return Ok(200, db.conversations[k]);
      }
    }

    var cast := CastConversation(db.nextId, ps, Some(kind), caller, now);
    if cast.None? {
      return Thrown("Conversation validation failed");
    }
    var id := db.NewId();
    db.SaveConversation(cast.value);
    r := Ok(201, PopulatedConversation(cast.value, db.users, db.messages));
  }

  // ---------------------------------------------------------------------------
  // updateConversation
  // ---------------------------------------------------------------------------

  /** A JavaScript truthy string: present and not empty. */
  predicate Truthy(v: Option<string>) {
    v.Some? && v.value != ""
  }

  /**
   * The conversation after `updateConversation` as the code is written. The
   * schema is strict and declares neither `name` nor `avatar`, so the two
   * assignments set no path: the document is not modified, `save()` writes
   * nothing and `updatedAt` stays.
   */
  function RenamedAsWritten(c: Conversation, name: Option<string>, avatar: Option<string>, now: Time)
    : (r: Conversation)
    ensures r == c
  {
    SavedConversation(c, c, now)
  }

  /**
   * The conversation after `updateConversation` as intended: a truthy `name`
   * or `avatar` replaces the stored one, anything else is kept, and the
   * timestamp moves only when something changed.
   */
  function Renamed(c: Conversation, name: Option<string>, avatar: Option<string>, now: Time): (r: Conversation)
    ensures r.name == (if Truthy(name) then name else c.name)
    ensures r.avatar == (if Truthy(avatar) then avatar else c.avatar)
    ensures r.updatedAt == (if r.name == c.name && r.avatar == c.avatar then c.updatedAt else now)
    ensures r.(name := c.name, avatar := c.avatar, updatedAt := c.updatedAt) == c
  {
    var n := if Truthy(name) then name else c.name;
    var a := if Truthy(avatar) then avatar else c.avatar;
    SavedConversation(c, c.(name := n, avatar := a), now)
  }

  /** Renaming to a new name shows the name; the code as written loses it. */
  lemma RenameLost(c: Conversation, name: string, now: Time)
    requires name != "" && c.name != Some(name)
    ensures Renamed(c, Some(name), None, now).name == Some(name)
    ensures RenamedAsWritten(c, Some(name), None, now).name != Some(name)
  {
  }

  /** Applying the same rename twice is applying it once. */
  lemma RenamedIdempotent(c: Conversation, name: Option<string>, avatar: Option<string>, t1: Time, t2: Time)
    ensures Renamed(Renamed(c, name, avatar, t1), name, avatar, t2) == Renamed(c, name, avatar, t1)
  {
  }

  /**
   * `updateConversation`: 404 for an unknown id; otherwise the stored
   * conversation becomes `Renamed(...)` and is returned. No participant check
   * is made: any caller may rename any conversation.
   */
  method UpdateConversation(db: Store, cid: ConversationId, name: Option<string>, avatar: Option<string>, now: Time)
    returns (r: Reply<Conversation>)
    requires db.Valid()
    modifies db
    ensures db.Valid()
    ensures cid !in old(db.conversations) ==> r == Err(404, "Conversation not found") && unchanged(db)
    ensures cid in old(db.conversations) ==>
      var c := Renamed(old(db.conversations)[cid], name, avatar, now);
      && r == Ok(200, c)
      && db.conversations == old(db.conversations)[cid := c]
      && db.users == old(db.users) && db.messages == old(db.messages)
      && db.requests == old(db.requests) && db.events == old(db.events) && db.nextId == old(db.nextId)
  {
    if cid !in db.conversations {
      return Err(404, "Conversation not found");
    }
    var conversation := db.conversations[cid];
    var updated := conversation;
    if Truthy(name) {
      updated := updated.(name := name);
    }
    if Truthy(avatar) {
      updated := updated.(avatar := avatar);
    }
    var saved := SavedConversation(conversation, updated, now);
    db.SaveConversation(saved);
    r := Ok(200, saved);
  }

  // ---------------------------------------------------------------------------
  // markAsRead
  // ---------------------------------------------------------------------------

  /** The conversation after `unreadCount.set(user, 0)` and `save()`. */
  function ReadBy(c: Conversation, u: UserId, now: Time): (r: Conversation)
    ensures u in r.unreadCount && r.unreadCount[u] == 0
    ensures forall k | k in c.unreadCount && k != u :: k in r.unreadCount && r.unreadCount[k] == c.unreadCount[k]
    ensures forall k | k in r.unreadCount :: k in c.unreadCount || k == u
    ensures r.(unreadCount := c.unreadCount, updatedAt := c.updatedAt) == c
    ensures (u in c.unreadCount && c.unreadCount[u] == 0) ==> r == c
  {
    SavedConversation(c, c.(unreadCount := c.unreadCount[u := 0]), now)
  }

  /**
   * `markAsRead`: 404 for an unknown id; otherwise the caller's unread
   * counter becomes 0. Whether the caller takes part in the conversation is
   * not checked.
   */
  method MarkAsRead(db: Store, caller: UserId, cid: ConversationId, now: Time) returns (r: Reply<string>)
    requires db.Valid()
    modifies db
    ensures db.Valid()
    ensures cid !in old(db.conversations) ==> r == Err(404, "Conversation not found") && unchanged(db)
    ensures cid in old(db.conversations) ==>
      && r == Ok(200, "Marked as read successfully")
      && db.conversations == old(db.conversations)[cid := ReadBy(old(db.conversations)[cid], caller, now)]
      && db.users == old(db.users) && db.messages == old(db.messages)
      && db.requests == old(db.requests) && db.events == old(db.events) && db.nextId == old(db.nextId)
  {
    if cid !in db.conversations {
      return Err(404, "Conversation not found");
    }
    var conversation := db.conversations[cid];
    var saved := SavedConversation(conversation, conversation.(unreadCount := conversation.unreadCount[caller := 0]), now);
    db.SaveConversation(saved);
    r := Ok(200, "Marked as read successfully");
  }
}
