/**
 * routes/messageRoute.js, `GET /message/:userId`: one summary per
 * conversation the user has written in, holding the text and time of the
 * newest message. The query (`senderId: userId`, newest first) is the
 * database's; the handler's fold over its result is modelled here.
 */
module MessageRoute {
  import opened Common
  import opened Schema

  /**
   * The populated sender of an entry: its `_id`, `email` and `avatar`. The
   * populate also selects `name`, which models/User.js does not declare
   * (it has `username`), so that field is always undefined and omitted.
   */
  datatype Sender = Sender(id: UserId, email: string, avatar: Option<string>)

  /** One value of `conversationsMap`, together with its key. */
  datatype Summary = Summary(conversationId: ConversationId, user: Sender, lastMessage: string, timestamp: Time)

  /** `message.senderId` after `populate`: `None` when the sender no longer exists. */
  function SenderOf(m: Message, users: map<UserId, User>): (r: Option<Sender>)
    ensures r.Some? <==> m.senderId in users
    ensures r.Some? ==> r.value.id == m.senderId
  {
    if m.senderId in users then Some(Sender(m.senderId, users[m.senderId].email, users[m.senderId].avatar)) else None
  }

  /** Message `i` is not skipped by the fold (its sender exists) and belongs to conversation `c`. */
  predicate InConversation(msgs: seq<Message>, users: map<UserId, User>, i: int, c: ConversationId) {
    0 <= i < |msgs| && msgs[i].senderId in users && msgs[i].conversationId == c
  }

  /** Message `i` is the first message of conversation `c` the fold sees. */
  predicate FirstOf(msgs: seq<Message>, users: map<UserId, User>, c: ConversationId, i: int) {
    InConversation(msgs, users, i, c) && forall j | 0 <= j < i :: !InConversation(msgs, users, j, c)
  }

  /**
   * Among the first `n` messages, message `i` is the one the fold keeps for
   * conversation `c`: none of them is newer, and those before it are older.
   */
  predicate NewestOf(msgs: seq<Message>, users: map<UserId, User>, n: int, c: ConversationId, i: int) {
    && i < n
    && InConversation(msgs, users, i, c)
    && (forall j | 0 <= j < n && InConversation(msgs, users, j, c) :: msgs[j].createdAt <= msgs[i].createdAt)
    && (forall j | 0 <= j < i && InConversation(msgs, users, j, c) :: msgs[j].createdAt < msgs[i].createdAt)
  }

  /** The summary the fold builds from the first message `f` and the kept message `k` of a conversation. */
  function SummaryOf(msgs: seq<Message>, users: map<UserId, User>, f: nat, k: nat): (s: Summary)
    requires f < |msgs| && k < |msgs| && msgs[f].senderId in users
    ensures s.conversationId == msgs[f].conversationId && s.user.id == msgs[f].senderId
    ensures s.lastMessage == msgs[k].text && s.timestamp == msgs[k].createdAt
  {
    Summary(msgs[f].conversationId, SenderOf(msgs[f], users).value, msgs[k].text, msgs[k].createdAt)
  }

  /** Some entry belongs to conversation `c`. */
  predicate Covered(entries: seq<Summary>, c: ConversationId) {
    exists k :: 0 <= k < |entries| && entries[k].conversationId == c
  }

  /**
   * Entry `e` is what the handler promises for its conversation: the user of
   * the conversation's first message and the text and time of its newest.
   */
  ghost predicate Justified(msgs: seq<Message>, users: map<UserId, User>, e: Summary) {
    exists f, n :: FirstOf(msgs, users, e.conversationId, f)
      && NewestOf(msgs, users, |msgs|, e.conversationId, n)
      && e == SummaryOf(msgs, users, f, n)
  }

  /** `conversationsMap.has(c)`: the position of `c`'s entry, if any. */
  function Lookup(entries: seq<Summary>, c: ConversationId): (r: Option<nat>)
    ensures r.Some? ==> r.value < |entries| && entries[r.value].conversationId == c
    ensures r.None? ==> forall k | 0 <= k < |entries| :: entries[k].conversationId != c
  {
    if entries == [] then None
    else if entries[|entries| - 1].conversationId == c then Some(|entries| - 1)
    else Lookup(entries[..|entries| - 1], c)
  }

  /**
   * Entry `e` is the fold's entry for its conversation after the first `n`
   * messages: `f` is the conversation's first message and `kept` the newest
   * one so far.
   */
  ghost predicate EntryOk(msgs: seq<Message>, users: map<UserId, User>, n: nat, e: Summary, f: nat, kept: nat) {
    && f < n
    && FirstOf(msgs, users, e.conversationId, f)
    && NewestOf(msgs, users, n, e.conversationId, kept)
    && e == SummaryOf(msgs, users, f, kept)
  }

  /**
   * After the first `n` messages, `entries` is what the fold has built:
   * entry `k` belongs to the conversation whose first message is `firsts[k]`
   * and shows message `kept[k]`, the newest of that conversation so far.
   */
  ghost predicate Folded(msgs: seq<Message>, users: map<UserId, User>, n: nat,
                         entries: seq<Summary>, firsts: seq<nat>, kept: seq<nat>) {
    && n <= |msgs|
    && |firsts| == |entries| && |kept| == |entries|
    && (forall k1, k2 | 0 <= k1 < k2 < |entries| :: entries[k1].conversationId != entries[k2].conversationId)
    && (forall k | 0 <= k < |entries| :: EntryOk(msgs, users, n, entries[k], firsts[k], kept[k]))
    && (forall k1, k2 | 0 <= k1 < k2 < |entries| :: firsts[k1] < firsts[k2])
    && (forall j | 0 <= j < n && msgs[j].senderId in users :: Covered(entries, msgs[j].conversationId))
  }

  /** A message outside an entry's conversation leaves the entry as it is. */
  lemma EntryUntouched(msgs: seq<Message>, users: map<UserId, User>, n: nat, e: Summary, f: nat, kept: nat)
    requires n < |msgs| && !InConversation(msgs, users, n, e.conversationId)
    requires EntryOk(msgs, users, n, e, f, kept)
    ensures EntryOk(msgs, users, n + 1, e, f, kept)
  {
  }

  /** A message of the entry's conversation that is not newer leaves the entry as it is. */
  lemma EntryNotNewer(msgs: seq<Message>, users: map<UserId, User>, n: nat, e: Summary, f: nat, kept: nat)
    requires n < |msgs| && InConversation(msgs, users, n, e.conversationId) && msgs[n].createdAt <= e.timestamp
    requires EntryOk(msgs, users, n, e, f, kept)
    ensures EntryOk(msgs, users, n + 1, e, f, kept)
  {
  }

  /** A strictly newer message of the entry's conversation becomes its kept message. */
  lemma EntryNewer(msgs: seq<Message>, users: map<UserId, User>, n: nat, e: Summary, f: nat, kept: nat)
    requires n < |msgs| && InConversation(msgs, users, n, e.conversationId) && msgs[n].createdAt > e.timestamp
    requires EntryOk(msgs, users, n, e, f, kept)
    ensures EntryOk(msgs, users, n + 1, e.(lastMessage := msgs[n].text, timestamp := msgs[n].createdAt), f, n)
  {
  }

  /** The first message of a conversation makes its entry. */
  lemma EntryOpened(msgs: seq<Message>, users: map<UserId, User>, n: nat)
    requires n < |msgs| && FirstOf(msgs, users, msgs[n].conversationId, n)
    ensures EntryOk(msgs, users, n + 1, SummaryOf(msgs, users, n, n), n, n)
  {
  }

  /** A message whose sender is missing leaves the fold as it is. */
  lemma SkipStep(msgs: seq<Message>, users: map<UserId, User>, n: nat,
                 entries: seq<Summary>, firsts: seq<nat>, kept: seq<nat>)
    requires n < |msgs| && msgs[n].senderId !in users
    requires Folded(msgs, users, n, entries, firsts, kept)
    ensures Folded(msgs, users, n + 1, entries, firsts, kept)
  {
    forall k | 0 <= k < |entries|
      ensures EntryOk(msgs, users, n + 1, entries[k], firsts[k], kept[k])
    {
      EntryUntouched(msgs, users, n, entries[k], firsts[k], kept[k]);
    }
  }

  /** Opening an entry for a new conversation keeps every entry right, the new one included. */
  lemma {:induction false} OpenEntries(msgs: seq<Message>, users: map<UserId, User>, n: nat,
                 entries: seq<Summary>, firsts: seq<nat>, kept: seq<nat>)
    requires n < |msgs| && msgs[n].senderId in users
    requires forall j | 0 <= j < n && msgs[j].senderId in users :: Covered(entries, msgs[j].conversationId)
    requires forall k | 0 <= k < |entries| :: entries[k].conversationId != msgs[n].conversationId
    requires |firsts| == |entries| && |kept| == |entries|
    requires forall k | 0 <= k < |entries| :: EntryOk(msgs, users, n, entries[k], firsts[k], kept[k])
    ensures var entries', firsts', kept' := entries + [SummaryOf(msgs, users, n, n)], firsts + [n], kept + [n];
      forall k | 0 <= k < |entries'| :: EntryOk(msgs, users, n + 1, entries'[k], firsts'[k], kept'[k])
  {
    var c := msgs[n].conversationId;
    var entries', firsts', kept' := entries + [SummaryOf(msgs, users, n, n)], firsts + [n], kept + [n];
    forall j | 0 <= j < n
      ensures !InConversation(msgs, users, j, c)
    {
    }
    EntryOpened(msgs, users, n);
    forall k | 0 <= k < |entries'|
      ensures EntryOk(msgs, users, n + 1, entries'[k], firsts'[k], kept'[k])
    {
      if k < |entries| {
        assert entries'[k] == entries[k] && firsts'[k] == firsts[k] && kept'[k] == kept[k];
        EntryUntouched(msgs, users, n, entries[k], firsts[k], kept[k]);
      }
    }
  }

  /** Opening an entry for the conversation of message `n` covers it and every one covered before. */
  lemma {:induction false} OpenCovers(msgs: seq<Message>, users: map<UserId, User>, n: nat, entries: seq<Summary>, e: Summary)
    requires n < |msgs| && e.conversationId == msgs[n].conversationId
    requires forall j | 0 <= j < n && msgs[j].senderId in users :: Covered(entries, msgs[j].conversationId)
    ensures forall j | 0 <= j < n + 1 && msgs[j].senderId in users :: Covered(entries + [e], msgs[j].conversationId)
  {
    var entries' := entries + [e];
    forall j | 0 <= j < n + 1 && msgs[j].senderId in users
      ensures Covered(entries', msgs[j].conversationId)
    {
      if j < n {
        assert Covered(entries, msgs[j].conversationId);
        var k :| 0 <= k < |entries| && entries[k].conversationId == msgs[j].conversationId;
        assert entries'[k] == entries[k];
      } else {
        assert entries'[|entries|].conversationId == msgs[n].conversationId;
      }
    }
  }

  /** The first message of a conversation opens a new entry at the end. */
  lemma {:induction false} OpenStep(msgs: seq<Message>, users: map<UserId, User>, n: nat,
                 entries: seq<Summary>, firsts: seq<nat>, kept: seq<nat>)
    requires n < |msgs| && msgs[n].senderId in users
    requires forall k | 0 <= k < |entries| :: entries[k].conversationId != msgs[n].conversationId
    requires Folded(msgs, users, n, entries, firsts, kept)
    ensures Folded(msgs, users, n + 1, entries + [SummaryOf(msgs, users, n, n)], firsts + [n], kept + [n])
  {
    var entries', firsts' := entries + [SummaryOf(msgs, users, n, n)], firsts + [n];
    OpenEntries(msgs, users, n, entries, firsts, kept);
    OpenCovers(msgs, users, n, entries, SummaryOf(msgs, users, n, n));
    forall k1, k2 | 0 <= k1 < k2 < |entries'|
      ensures entries'[k1].conversationId != entries'[k2].conversationId
      ensures firsts'[k1] < firsts'[k2]
    {
      assert entries'[k1] == entries[k1] && firsts'[k1] == firsts[k1];
      assert EntryOk(msgs, users, n, entries[k1], firsts[k1], kept[k1]);
      if k2 < |entries| {
        assert entries'[k2] == entries[k2] && firsts'[k2] == firsts[k2];
      }
    }
  }

  /** A strictly newer message of the conversation of entry `k` replaces its text and time. */
  lemma {:induction false} NewerStep(msgs: seq<Message>, users: map<UserId, User>, n: nat,
                   entries: seq<Summary>, firsts: seq<nat>, kept: seq<nat>, k: nat)
    requires n < |msgs| && msgs[n].senderId in users
    requires k < |entries| && entries[k].conversationId == msgs[n].conversationId
    requires msgs[n].createdAt > entries[k].timestamp
    requires Folded(msgs, users, n, entries, firsts, kept)
    ensures Folded(msgs, users, n + 1,
                   entries[k := entries[k].(lastMessage := msgs[n].text, timestamp := msgs[n].createdAt)],
                   firsts, kept[k := n])
  {
    var entries' := entries[k := entries[k].(lastMessage := msgs[n].text, timestamp := msgs[n].createdAt)];
    var kept' := kept[k := n];
    forall k' | 0 <= k' < |entries'|
      ensures entries'[k'].conversationId == entries[k'].conversationId
    {
    }
    forall k' | 0 <= k' < |entries'|
      ensures EntryOk(msgs, users, n + 1, entries'[k'], firsts[k'], kept'[k'])
    {
      if k' != k {
        EntryUntouched(msgs, users, n, entries[k'], firsts[k'], kept[k']);
      } else {
        EntryNewer(msgs, users, n, entries[k], firsts[k], kept[k]);
      }
    }
    forall j | 0 <= j < n + 1 && msgs[j].senderId in users
      ensures Covered(entries', msgs[j].conversationId)
    {
      if j < n {
        assert Covered(entries, msgs[j].conversationId);
        var k' :| 0 <= k' < |entries| && entries[k'].conversationId == msgs[j].conversationId;
        assert entries'[k'].conversationId == msgs[j].conversationId;
      } else {
        assert entries'[k].conversationId == msgs[j].conversationId;
      }
    }
  }

  /** A message of the conversation of entry `k` that is not newer changes nothing. */
  lemma {:induction false} NotNewerStep(msgs: seq<Message>, users: map<UserId, User>, n: nat,
                   entries: seq<Summary>, firsts: seq<nat>, kept: seq<nat>, k: nat)
    requires n < |msgs| && msgs[n].senderId in users
    requires k < |entries| && entries[k].conversationId == msgs[n].conversationId
    requires msgs[n].createdAt <= entries[k].timestamp
    requires Folded(msgs, users, n, entries, firsts, kept)
    ensures Folded(msgs, users, n + 1, entries, firsts, kept)
  {
    forall k' | 0 <= k' < |entries|
      ensures EntryOk(msgs, users, n + 1, entries[k'], firsts[k'], kept[k'])
    {
      if k' != k {
        EntryUntouched(msgs, users, n, entries[k'], firsts[k'], kept[k']);
      } else {
        EntryNotNewer(msgs, users, n, entries[k], firsts[k], kept[k]);
      }
    }
    forall j | 0 <= j < n + 1 && msgs[j].senderId in users
      ensures Covered(entries, msgs[j].conversationId)
    {
      if j == n {
        assert entries[k].conversationId == msgs[j].conversationId;
      }
    }
  }

  /** Once every message is folded, the entries are the ones the handler promises. */
  lemma {:induction false} FoldedAll(msgs: seq<Message>, users: map<UserId, User>,
                  entries: seq<Summary>, firsts: seq<nat>, kept: seq<nat>)
    requires Folded(msgs, users, |msgs|, entries, firsts, kept)
    ensures forall k | 0 <= k < |entries| :: Justified(msgs, users, entries[k])
    ensures forall k1, k2, f1, f2 |
      0 <= k1 < k2 < |entries| && FirstOf(msgs, users, entries[k1].conversationId, f1)
      && FirstOf(msgs, users, entries[k2].conversationId, f2) :: f1 < f2
  {
    forall k | 0 <= k < |entries|
      ensures Justified(msgs, users, entries[k])
    {
      assert EntryOk(msgs, users, |msgs|, entries[k], firsts[k], kept[k]);
    }
    forall k1, k2, f1, f2 |
      0 <= k1 < k2 < |entries| && FirstOf(msgs, users, entries[k1].conversationId, f1)
      && FirstOf(msgs, users, entries[k2].conversationId, f2)
      ensures f1 < f2
    {
      assert EntryOk(msgs, users, |msgs|, entries[k1], firsts[k1], kept[k1]);
      assert EntryOk(msgs, users, |msgs|, entries[k2], firsts[k2], kept[k2]);
      FirstUnique(msgs, users, entries[k1].conversationId, f1, firsts[k1]);
      FirstUnique(msgs, users, entries[k2].conversationId, f2, firsts[k2]);
    }
  }

  /**
   * The fold of the handler over the messages `msgs` of the query. Messages
   * whose sender is missing are skipped. There is one entry per conversation
   * among the others, in the order of each conversation's first message. The
   * user is the sender of that first message. The text and time are those of
   * the conversation's newest message, the earliest of them on a tie.
   */
  method LatestPerConversation(msgs: seq<Message>, users: map<UserId, User>) returns (entries: seq<Summary>)
    ensures forall k1, k2 | 0 <= k1 < k2 < |entries| :: entries[k1].conversationId != entries[k2].conversationId
    ensures forall i | 0 <= i < |msgs| && msgs[i].senderId in users :: Covered(entries, msgs[i].conversationId)
    ensures forall k | 0 <= k < |entries| :: Justified(msgs, users, entries[k])
    ensures forall k1, k2, f1, f2 |
      0 <= k1 < k2 < |entries| && FirstOf(msgs, users, entries[k1].conversationId, f1)
      && FirstOf(msgs, users, entries[k2].conversationId, f2) :: f1 < f2
  {
    entries := [];
    ghost var firsts: seq<nat> := [];
    ghost var kept: seq<nat> := [];
    for i := 0 to |msgs|
      invariant Folded(msgs, users, i, entries, firsts, kept)
    {
      entries, firsts, kept := FoldMessage(msgs, users, i, entries, firsts, kept);
    }
    FoldedAll(msgs, users, entries, firsts, kept);
  }

  /**
   * One turn of the handler's loop, on message `i`: skip it when its sender
   * is missing, open an entry for a new conversation, or keep the newer of
   * the entry's message and this one.
   */
  method FoldMessage(msgs: seq<Message>, users: map<UserId, User>, i: nat,
                     entries: seq<Summary>, ghost firsts: seq<nat>, ghost kept: seq<nat>)
    returns (entries': seq<Summary>, ghost firsts': seq<nat>, ghost kept': seq<nat>)
    requires i < |msgs| && Folded(msgs, users, i, entries, firsts, kept)
    ensures Folded(msgs, users, i + 1, entries', firsts', kept')
  {
    entries', firsts', kept' := entries, firsts, kept;
    var message := msgs[i];
    var sender := SenderOf(message, users);
    if sender.None? {
      SkipStep(msgs, users, i, entries, firsts, kept);
      return;
    }
    var conversationId := message.conversationId;
    var found := Lookup(entries, conversationId);
    if found.None? {
      OpenStep(msgs, users, i, entries, firsts, kept);
      var entry := Summary(conversationId, sender.value, message.text, message.createdAt);
      assert entry == SummaryOf(msgs, users, i, i);
      entries' := entries + [entry];
      firsts' := firsts + [i];
      kept' := kept + [i];
    } else {
      var k := found.value;
      var current := entries[k];
      if message.createdAt > current.timestamp {
        NewerStep(msgs, users, i, entries, firsts, kept, k);
        entries' := entries[k := current.(lastMessage := message.text, timestamp := message.createdAt)];
        kept' := kept[k := i];
      } else {
        NotNewerStep(msgs, users, i, entries, firsts, kept, k);
      }
    }
  }

  /** A conversation has one first message. */
  lemma FirstUnique(msgs: seq<Message>, users: map<UserId, User>, c: ConversationId, f: int, g: int)
    requires FirstOf(msgs, users, c, f) && FirstOf(msgs, users, c, g)
    ensures f == g
  {
  }

  /**
   * The query sorts newest first. On such input the kept message of every
   * conversation is its first one, so the entry shows the first message
   * the fold meets.
   */
  lemma {:induction false} NewestFirstKeepsFirst(msgs: seq<Message>, users: map<UserId, User>, c: ConversationId, f: nat, n: nat)
    requires forall i, j | 0 <= i < j < |msgs| :: msgs[i].createdAt >= msgs[j].createdAt
    requires FirstOf(msgs, users, c, f) && NewestOf(msgs, users, |msgs|, c, n)
    ensures n == f
  {
  }

  /** With the query's filter, every entry's user is the requested user. */
  lemma OwnMessagesOnly(msgs: seq<Message>, users: map<UserId, User>, u: UserId, entries: seq<Summary>)
    requires forall i | 0 <= i < |msgs| :: msgs[i].senderId == u
    requires forall k | 0 <= k < |entries| ::
      exists f, n :: FirstOf(msgs, users, entries[k].conversationId, f)
        && NewestOf(msgs, users, |msgs|, entries[k].conversationId, n)
        && entries[k] == SummaryOf(msgs, users, f, n)
    ensures forall k | 0 <= k < |entries| :: entries[k].user.id == u
  {
  }
}
