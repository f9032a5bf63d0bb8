/**
 * controllers/chatController.js, `getConversations`: one entry per person the
 * user has chatted with, built from the user's messages newest first. The
 * query over the Chat collection is the database's; models/Chat.js is not
 * part of this model, so its documents are described by the fields the
 * handler reads.
 */
module ChatController {
  import opened Common

  /** A user as the populates select it: `_id`, `name`, `email`, `image`. */
  datatype ChatUser = ChatUser(id: UserId, name: Option<string>, email: Option<string>, image: Option<string>)

  /** A chat message after both populates; a user that no longer exists is `None`. */
  datatype ChatMessage = ChatMessage(
    id: MessageId, sender: Option<ChatUser>, receiver: Option<ChatUser>, message: string, createdAt: Time)

  /** One value of the `conversations` map. */
  datatype Entry = Entry(id: MessageId, user: ChatUser, lastMessage: string, timestamp: Time)

  const ListError: string := "Lỗi khi lấy danh sách hội thoại"

  /**
   * Handling message `m` throws a TypeError: the sender's `_id` is read
   * first, and the receiver's only when the sender is the user.
   */
  predicate Throws(m: ChatMessage, u: UserId) {
    m.sender.None? || (m.sender.value.id == u && m.receiver.None?)
  }

  /** The other party: the receiver when the user sent the message, the sender otherwise. */
  function OtherParty(m: ChatMessage, u: UserId): (p: ChatUser)
    requires !Throws(m, u)
    ensures m.sender.value.id == u ==> p == m.receiver.value
    ensures m.sender.value.id != u ==> p == m.sender.value
  {
    if m.sender.value.id == u then m.receiver.value else m.sender.value
  }

  /** The entry message `m` makes. */
  function EntryOf(m: ChatMessage, u: UserId): (e: Entry)
    requires !Throws(m, u)
    ensures e.user == OtherParty(m, u) && e.id == m.id
    ensures e.lastMessage == m.message && e.timestamp == m.createdAt
  {
    Entry(m.id, OtherParty(m, u), m.message, m.createdAt)
  }

  /** Message `i` is handled without error and is with party `p`. */
  predicate With(msgs: seq<ChatMessage>, u: UserId, i: int, p: UserId) {
    0 <= i < |msgs| && !Throws(msgs[i], u) && OtherParty(msgs[i], u).id == p
  }

  /** Message `i` is the first message with party `p`. */
  predicate FirstWith(msgs: seq<ChatMessage>, u: UserId, p: UserId, i: int) {
    With(msgs, u, i, p) && forall j | 0 <= j < i :: !With(msgs, u, j, p)
  }

  /** Some entry is for party `p`. */
  predicate Covered(entries: seq<Entry>, p: UserId) {
    exists k :: 0 <= k < |entries| && entries[k].user.id == p
  }

  /** Entry `e` is the one the first message with its party makes. */
  ghost predicate Justified(msgs: seq<ChatMessage>, u: UserId, e: Entry) {
    exists i :: FirstWith(msgs, u, e.user.id, i) && e == EntryOf(msgs[i], u)
  }

  /** `conversations.has(p)`. */
  function Has(entries: seq<Entry>, p: UserId): (r: bool)
    ensures r <==> Covered(entries, p)
  {
    if entries == [] then false
    else if entries[|entries| - 1].user.id == p then true
    else
      var r := Has(entries[..|entries| - 1], p);
      assert r ==> Covered(entries, p) by {
        if r {
          var k :| 0 <= k < |entries| - 1 && entries[..|entries| - 1][k].user.id == p;
          assert entries[k].user.id == p;
        }
      }
      assert Covered(entries, p) ==> r by {
        if Covered(entries, p) {
          var k :| 0 <= k < |entries| && entries[k].user.id == p;
          assert entries[..|entries| - 1][k].user.id == p;
        }
      }
      r
  }

  /**
   * After the first `n` messages, none of which threw, `entries` holds one
   * entry per party met so far, made by that party's first message, in the
   * order of those first messages.
   */
  ghost predicate Grouped(msgs: seq<ChatMessage>, u: UserId, n: nat, entries: seq<Entry>, firsts: seq<nat>) {
    && n <= |msgs|
    && |firsts| == |entries|
    && (forall j | 0 <= j < n :: !Throws(msgs[j], u))
    && (forall k1, k2 | 0 <= k1 < k2 < |entries| :: entries[k1].user.id != entries[k2].user.id)
    && (forall k | 0 <= k < |entries| ::
         firsts[k] < n && FirstWith(msgs, u, entries[k].user.id, firsts[k]) && entries[k] == EntryOf(msgs[firsts[k]], u))
    && (forall k1, k2 | 0 <= k1 < k2 < |entries| :: firsts[k1] < firsts[k2])
    && (forall j | 0 <= j < n :: Covered(entries, OtherParty(msgs[j], u).id))
  }

  /** A message with a party already met changes nothing. */
  lemma {:induction false} SeenStep(msgs: seq<ChatMessage>, u: UserId, n: nat, entries: seq<Entry>, firsts: seq<nat>)
    requires n < |msgs| && !Throws(msgs[n], u) && Covered(entries, OtherParty(msgs[n], u).id)
    requires Grouped(msgs, u, n, entries, firsts)
    ensures Grouped(msgs, u, n + 1, entries, firsts)
  {
  }

  /** The first message with a party adds its entry at the end. */
  lemma {:induction false} NewPartyStep(msgs: seq<ChatMessage>, u: UserId, n: nat, entries: seq<Entry>, firsts: seq<nat>)
    requires n < |msgs| && !Throws(msgs[n], u) && !Covered(entries, OtherParty(msgs[n], u).id)
    requires Grouped(msgs, u, n, entries, firsts)
    ensures Grouped(msgs, u, n + 1, entries + [EntryOf(msgs[n], u)], firsts + [n])
  {
    var p := OtherParty(msgs[n], u).id;
    var entries', firsts' := entries + [EntryOf(msgs[n], u)], firsts + [n];
    forall j | 0 <= j < n
      ensures !With(msgs, u, j, p)
    {
    }
    assert FirstWith(msgs, u, p, n);
    forall k | 0 <= k < |entries'|
      ensures firsts'[k] < n + 1 && FirstWith(msgs, u, entries'[k].user.id, firsts'[k])
      ensures entries'[k] == EntryOf(msgs[firsts'[k]], u)
    {
      if k < |entries| {
        assert entries'[k] == entries[k] && firsts'[k] == firsts[k];
      }
    }
    forall k1, k2 | 0 <= k1 < k2 < |entries'|
      ensures entries'[k1].user.id != entries'[k2].user.id
      ensures firsts'[k1] < firsts'[k2]
    {
      assert entries'[k1] == entries[k1] && firsts'[k1] == firsts[k1];
      if k2 < |entries| {
        assert entries'[k2] == entries[k2] && firsts'[k2] == firsts[k2];
      }
    }
    forall j | 0 <= j < n + 1
      ensures Covered(entries', OtherParty(msgs[j], u).id)
    {
      if j < n {
        assert Covered(entries, OtherParty(msgs[j], u).id);
        var k :| 0 <= k < |entries| && entries[k].user.id == OtherParty(msgs[j], u).id;
        assert entries'[k] == entries[k];
      } else {
        assert entries'[|entries|].user.id == p;
      }
    }
  }

  /** A conversation partner has one first message. */
  lemma FirstWithUnique(msgs: seq<ChatMessage>, u: UserId, p: UserId, i: int, i': int)
    requires FirstWith(msgs, u, p, i) && FirstWith(msgs, u, p, i')
    ensures i == i'
  {
  }

  /** Once every message is grouped, the entries are the ones the handler promises. */
  lemma {:induction false} GroupedAll(msgs: seq<ChatMessage>, u: UserId, entries: seq<Entry>, firsts: seq<nat>)
    requires Grouped(msgs, u, |msgs|, entries, firsts)
    ensures forall k | 0 <= k < |entries| :: Justified(msgs, u, entries[k])
    ensures forall k1, k2, i1, i2 |
      0 <= k1 < k2 < |entries| && FirstWith(msgs, u, entries[k1].user.id, i1)
      && FirstWith(msgs, u, entries[k2].user.id, i2) :: i1 < i2
  {
    forall k | 0 <= k < |entries|
      ensures Justified(msgs, u, entries[k])
    {
      assert FirstWith(msgs, u, entries[k].user.id, firsts[k]);
    }
    forall k1, k2, i1, i2 |
      0 <= k1 < k2 < |entries| && FirstWith(msgs, u, entries[k1].user.id, i1)
      && FirstWith(msgs, u, entries[k2].user.id, i2)
      ensures i1 < i2
    {
      FirstWithUnique(msgs, u, entries[k1].user.id, i1, firsts[k1]);
      FirstWithUnique(msgs, u, entries[k2].user.id, i2, firsts[k2]);
    }
  }

  /**
   * The grouping of `getConversations` over the user's messages `msgs`,
   * newest first. A message whose sender, or whose receiver when the user
   * sent it, no longer exists makes the handler throw: 500. Otherwise there
   * is one entry per other party, made by the first message with that party
   * and never overwritten, in the order of those first messages.
   */
  method GroupByOtherParty(msgs: seq<ChatMessage>, u: UserId) returns (r: Reply<seq<Entry>>)
    ensures r.Ok? || r.Err?
    ensures r.Err? <==> exists i | 0 <= i < |msgs| :: Throws(msgs[i], u)
    ensures r.Err? ==> r == Err(500, ListError)
    ensures r.Ok? ==>
      && r.status == 200
      && (forall k1, k2 | 0 <= k1 < k2 < |r.value| :: r.value[k1].user.id != r.value[k2].user.id)
      && (forall i | 0 <= i < |msgs| :: !Throws(msgs[i], u) && Covered(r.value, OtherParty(msgs[i], u).id))
      && (forall k | 0 <= k < |r.value| :: Justified(msgs, u, r.value[k]))
      && (forall k1, k2, i1, i2 |
           0 <= k1 < k2 < |r.value| && FirstWith(msgs, u, r.value[k1].user.id, i1)
           && FirstWith(msgs, u, r.value[k2].user.id, i2) :: i1 < i2)
  {
    var conversations: seq<Entry> := [];
    ghost var firsts: seq<nat> := [];
    for i := 0 to |msgs|
      invariant Grouped(msgs, u, i, conversations, firsts)
    {
      var msg := msgs[i];
      if Throws(msg, u) {
        return Err(500, ListError);
      }
      var other := OtherParty(msg, u);
      if !Has(conversations, other.id) {
        NewPartyStep(msgs, u, i, conversations, firsts);
        conversations := conversations + [Entry(msg.id, other, msg.message, msg.createdAt)];
        firsts := firsts + [i];
      } else {
        SeenStep(msgs, u, i, conversations, firsts);
      }
    }
    GroupedAll(msgs, u, conversations, firsts);
    r := Ok(200, conversations);
  }

  /**
   * The messages come newest first, so the entry of each party shows that
   * party's newest message.
   */
  lemma {:induction false} NewestFirstGivesNewest(msgs: seq<ChatMessage>, u: UserId, e: Entry)
    requires forall i, j | 0 <= i < j < |msgs| :: msgs[i].createdAt >= msgs[j].createdAt
    requires Justified(msgs, u, e)
    ensures forall j | With(msgs, u, j, e.user.id) :: msgs[j].createdAt <= e.timestamp
  {
    var i :| FirstWith(msgs, u, e.user.id, i) && e == EntryOf(msgs[i], u);
    forall j | With(msgs, u, j, e.user.id)
      ensures msgs[j].createdAt <= e.timestamp
    {
      assert !(j < i);
    }
  }
}
