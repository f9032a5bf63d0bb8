/**
 * The state the controllers work on: each MongoDB collection becomes a map
 * from id to record, and every `io.to(room).emit(name, payload)` becomes an
 * event appended to a log. ObjectIds are handed out by a counter, so a new
 * record's id is never in use.
 *
 * This module is the stand-in for Mongoose and socket.io, not a file of the
 * repository; its queries are what the controllers ask of the database
 * (`find` with a filter, then `sort`).
 */
module Db {
  import opened Common
  import opened Schema

  /** The payload of a socket.io event; the variant is the event name. */
  datatype Payload =
    | ReceiveMessage(message: Message, conversation: Conversation)   // "receiveMessage"
    | ConversationUpdated(conversation: Conversation)                 // "conversationUpdated"
    | MessageDeleted(messageId: MessageId, conversationId: ConversationId) // "messageDeleted"
    | MessageReaction(messageId: MessageId, userId: UserId, emoji: string) // "messageReaction"
    | MessageStatusUpdated(messageId: MessageId, userId: UserId, status: string) // "messageStatusUpdated"
    | NewFriend(friendId: UserId)                                     // "newFriend"
    | FriendRemoved(friendId: UserId)                                 // "friendRemoved"
    | UserStatusChanged(userId: UserId, status: string, lastSeen: Time) // "userStatusChanged"
    | NewFriendRequest(requestId: RequestId, senderId: UserId)        // "newFriendRequest"
    | FriendRequestAccepted(requestId: RequestId, receiverId: UserId) // "friendRequestAccepted"

  /** `io.to(room).emit(...)`: rooms are named by a user id or a conversation id. */
  datatype Event = Emit(room: Id, payload: Payload)

  /** Every key is below the id counter and is the record's own id. */
  ghost predicate UsersIndexed(m: map<UserId, User>, next: nat) {
    forall k | k in m :: k < next && m[k].id == k
  }
  ghost predicate ConversationsIndexed(m: map<ConversationId, Conversation>, next: nat) {
    forall k | k in m :: k < next && m[k].id == k
  }
  ghost predicate MessagesIndexed(m: map<MessageId, Message>, next: nat) {
    forall k | k in m :: k < next && m[k].id == k
  }
  ghost predicate RequestsIndexed(m: map<RequestId, FriendRequest>, next: nat) {
    forall k | k in m :: k < next && m[k].id == k
  }

  /** No stored message carries two reactions from the same user. */
  ghost predicate ReactionsUnique(m: map<MessageId, Message>) {
    forall k | k in m :: OneReactionPerUser(m[k].reactions)
  }

  class Store {
    var users: map<UserId, User>
    var conversations: map<ConversationId, Conversation>
    var messages: map<MessageId, Message>
    var requests: map<RequestId, FriendRequest>
    var events: seq<Event>
    var nextId: nat

    /** The invariant every controller keeps: indexes, the unique indexes of the schemas, one reaction per user, symmetric friends lists. */
    ghost predicate Valid()
      reads this
    {
      && UsersIndexed(users, nextId)
      && ConversationsIndexed(conversations, nextId)
      && MessagesIndexed(messages, nextId)
      && RequestsIndexed(requests, nextId)
      && UniqueEmails(users)
      && FriendsSymmetric(users)
      && UniquePairs(requests)
      && ReactionsUnique(messages)
    }

    constructor ()
      ensures Valid()
      ensures users == map[] && conversations == map[] && messages == map[] && requests == map[]
      ensures events == [] && nextId == 0
    {
      users, conversations, messages, requests := map[], map[], map[], map[];
      events, nextId := [], 0;
    }

    /** A fresh ObjectId. */
    method NewId() returns (id: Id)
      requires Valid()
      modifies this`nextId
      ensures Valid()
      ensures id == old(nextId) && nextId == id + 1
      ensures id !in users && id !in conversations && id !in messages && id !in requests
    {
      id := nextId;
      nextId := nextId + 1;
    }

    /** `message.save()`: the message is stored under its own id. */
    method SaveMessage(m: Message)
      requires Valid() && m.id < nextId && OneReactionPerUser(m.reactions)
      modifies this`messages
      ensures Valid()
      ensures messages == old(messages)[m.id := m]
    {
      messages := messages[m.id := m];
    }

    /** `message.remove()`: the message is gone. */
    method RemoveMessage(id: MessageId)
      requires Valid()
      modifies this`messages
      ensures Valid()
      ensures messages == old(messages) - {id}
    {
      messages := messages - {id};
    }

    /** `conversation.save()`: the conversation is stored under its own id. */
    method SaveConversation(c: Conversation)
      requires Valid() && c.id < nextId
      modifies this`conversations
      ensures Valid()
      ensures conversations == old(conversations)[c.id := c]
    {
      conversations := conversations[c.id := c];
    }

    /** `request.save()`, against the unique index on (sender, receiver). */
    method SaveRequest(q: FriendRequest)
      requires Valid() && q.id < nextId && UniquePairs(requests[q.id := q])
      modifies this`requests
      ensures Valid()
      ensures requests == old(requests)[q.id := q]
    {
      requests := requests[q.id := q];
    }

    /** `User.findByIdAndUpdate` of a change that leaves the id, the email and the friends list as they were. */
    method SaveUser(u: User)
      requires Valid() && u.id in users
      requires u.email == users[u.id].email && u.friends == users[u.id].friends
      modifies this`users
      ensures Valid()
      ensures users == old(users)[u.id := u]
    {
      users := users[u.id := u];
    }

    /** The saves of users' friend lists, taken together, when they keep the user invariants. */
    method SaveUsers(us: map<UserId, User>)
      requires Valid()
      requires UsersIndexed(us, nextId) && UniqueEmails(us) && FriendsSymmetric(us)
      modifies this`users
      ensures Valid()
      ensures users == us
    {
      users := us;
    }

    /** `io.to(room).emit(...)`, one call per event, in order. */
    method Publish(evs: seq<Event>)
      requires Valid()
      modifies this`events
      ensures Valid()
      ensures events == old(events) + evs
    {
      events := events + evs;
    }

    /**
     * `new User({...}).save()` against the unique index on `email`: a duplicate
     * email is refused (MongoDB's duplicate-key error) and nothing is stored.
     */
    method InsertUser(username: Option<string>, email: Option<string>, password: Option<string>, now: Time)
      returns (r: Option<User>)
      requires Valid()
      modifies this
      ensures Valid()
      ensures old(NewUser(nextId, username, email, password, now)).None? ==> r.None? && unchanged(this)
      ensures email.Some? && EmailTaken(old(users), email.value) ==> r.None? && unchanged(this)
      ensures r.Some? ==>
        && old(NewUser(nextId, username, email, password, now)) == r
        && !EmailTaken(old(users), r.value.email)
        && users == old(users)[r.value.id := r.value] && nextId == old(nextId) + 1
        && conversations == old(conversations) && messages == old(messages)
        && requests == old(requests) && events == old(events)
    {
      var candidate := NewUser(nextId, username, email, password, now);
      if candidate.None? || EmailTaken(users, candidate.value.email) {
        return None;
      }
      var u := candidate.value;
      var id := NewId();
      users := users[id := u];
      r := Some(u);
    }
  }

  // ---------------------------------------------------------------------------
  // populate(path): references replaced by the records they name
  // ---------------------------------------------------------------------------

  /** `populate("participants")`: the ids that still name a user, in order; the others are dropped. */
  function Populated(ps: seq<UserId>, users: map<UserId, User>): (r: seq<UserId>)
    ensures |r| <= |ps|
    ensures forall x :: x in r <==> x in ps && x in users
  {
    if ps == [] then []
    else (if ps[0] in users then [ps[0]] else []) + Populated(ps[1..], users)
  }

  /**
   * A conversation as `populate("participants").populate("lastMessage")`
   * returns it: participants that no longer name a user are dropped, and a
   * `lastMessage` that no longer names a message becomes null. Nothing else differs.
   */
  function PopulatedConversation(c: Conversation, users: map<UserId, User>, messages: map<MessageId, Message>)
    : (r: Conversation)
    ensures forall x :: x in r.participants <==> x in c.participants && x in users
    ensures r.lastMessage.Some? <==> c.lastMessage.Some? && c.lastMessage.value in messages
    ensures r.lastMessage.Some? ==> r.lastMessage == c.lastMessage
    ensures r.(participants := c.participants, lastMessage := c.lastMessage) == c
  {
    c.(participants := Populated(c.participants, users),
       lastMessage := if c.lastMessage.Some? && c.lastMessage.value in messages then c.lastMessage else None)
  }

  // ---------------------------------------------------------------------------
  // find(filter).sort(key): the ids of the matching records, in key order
  // ---------------------------------------------------------------------------

  /** Every id is stored and the keys of their records never decrease. */
  ghost predicate Ascending<V>(ids: seq<Id>, m: map<Id, V>, key: V -> int) {
    && (forall i | 0 <= i < |ids| :: ids[i] in m)
    && (forall i, j | 0 <= i < j < |ids| :: key(m[ids[i]]) <= key(m[ids[j]]))
  }

  /** Where `k` goes: after every id whose key is not greater than its own, before the others. */
  function InsertPosition<V>(ids: seq<Id>, k: Id, m: map<Id, V>, key: V -> int): (p: nat)
    requires k in m && Ascending(ids, m, key)
    ensures p <= |ids|
    ensures forall i | 0 <= i < p :: key(m[ids[i]]) <= key(m[k])
    ensures forall i | p <= i < |ids| :: key(m[k]) < key(m[ids[i]])
  {
    if ids == [] || key(m[k]) < key(m[ids[0]]) then 0
    else 1 + InsertPosition(ids[1..], k, m, key)
  }

  function Shifted(ids: seq<Id>, k: Id, p: nat, i: nat): Id
    requires p <= |ids| && i <= |ids|
  {
    if i < p then ids[i] else if i == p then k else ids[i - 1]
  }

  /** Inserting `k` at position `p` shifts the ids from `p` on by one place. */
  lemma InsertedAt(ids: seq<Id>, k: Id, p: nat)
    requires p <= |ids|
    ensures |ids[..p] + [k] + ids[p..]| == |ids| + 1
    ensures forall i | 0 <= i <= |ids| :: (ids[..p] + [k] + ids[p..])[i] == Shifted(ids, k, p, i)
  {
  }

  /** Inserting at the insert position keeps the ids sorted. */
  lemma {:induction false} InsertKeepsAscending<V>(ids: seq<Id>, k: Id, p: nat, m: map<Id, V>, key: V -> int)
    requires k in m && Ascending(ids, m, key)
    requires p == InsertPosition(ids, k, m, key)
    ensures Ascending(ids[..p] + [k] + ids[p..], m, key)
  {
    var r := ids[..p] + [k] + ids[p..];
    InsertedAt(ids, k, p);
    forall i, j | 0 <= i < j < |r|
      ensures key(m[r[i]]) <= key(m[r[j]])
    {
      if j < p {
        assert key(m[ids[i]]) <= key(m[ids[j]]);
      } else if j == p {
        assert key(m[ids[i]]) <= key(m[k]);
      } else if i < p {
        assert key(m[ids[i]]) <= key(m[ids[j - 1]]);
      } else if i == p {
        assert key(m[k]) < key(m[ids[j - 1]]);
      } else {
        assert key(m[ids[i - 1]]) <= key(m[ids[j - 1]]);
      }
    }
  }

  /** Inserting a new id anywhere keeps the ids distinct. */
  lemma {:induction false} InsertKeepsDistinct(ids: seq<Id>, k: Id, p: nat)
    requires Distinct(ids) && k !in ids && p <= |ids|
    ensures Distinct(ids[..p] + [k] + ids[p..])
  {
    var r := ids[..p] + [k] + ids[p..];
    InsertedAt(ids, k, p);
    forall i, j | 0 <= i < j < |r|
      ensures r[i] != r[j]
    {
      if j < p {
        assert ids[i] != ids[j];
      } else if i < p && j > p {
        assert ids[i] != ids[j - 1];
      } else if i > p {
        assert ids[i - 1] != ids[j - 1];
      }
    }
  }

  /** Putting a new id at its insert position keeps the ids sorted and distinct. */
  lemma InsertAtPosition<V>(ids: seq<Id>, k: Id, p: nat, m: map<Id, V>, key: V -> int)
    requires k in m && Ascending(ids, m, key) && Distinct(ids) && k !in ids
    requires p == InsertPosition(ids, k, m, key)
    ensures Ascending(ids[..p] + [k] + ids[p..], m, key)
    ensures Distinct(ids[..p] + [k] + ids[p..])
  {
    InsertKeepsAscending(ids, k, p, m, key);
    InsertKeepsDistinct(ids, k, p);
  }

  lemma InsertedMembers(ids: seq<Id>, k: Id, p: nat)
    requires p <= |ids|
    ensures forall x :: x in ids[..p] + [k] + ids[p..] <==> x in ids || x == k
  {
    assert ids == ids[..p] + ids[p..];
  }

  /**
   * `find(filter).sort(key)` over one collection: exactly the ids whose
   * record passes `keep`, each once, in ascending key order (records with
   * equal keys come in no promised order).
   */
  method FindSorted<V>(m: map<Id, V>, keep: V -> bool, key: V -> int) returns (ids: seq<Id>)
    ensures Ascending(ids, m, key)
    ensures forall k :: k in ids <==> k in m && keep(m[k])
    ensures Distinct(ids)
  {
    ids := [];
    var todo := m.Keys;
    while todo != {}
      invariant todo <= m.Keys
      invariant Ascending(ids, m, key)
      invariant forall k :: k in ids <==> k in m && k !in todo && keep(m[k])
      invariant Distinct(ids)
      decreases todo
    {
      var k :| k in todo;
      if keep(m[k]) {
        var p := InsertPosition(ids, k, m, key);
        InsertAtPosition(ids, k, p, m, key);
        InsertedMembers(ids, k, p);
        ids := ids[..p] + [k] + ids[p..];
      }
      todo := todo - {k};
    }
  }
}
