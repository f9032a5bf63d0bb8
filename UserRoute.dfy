/**
 * routes/userRoute.js, `GET /chat/users/:userId`: the users someone has
 * exchanged messages with. controllers/userController.js `getChatUsers`
 * builds the same set with the same loop.
 */
module UserRoute {
  import opened Common

  /**
   * The two fields the handler selects from each message. models/Message.js
   * declares no `receiverId`; the handler relies on the stored documents
   * carrying one.
   */
  datatype DirectMessage = DirectMessage(senderId: UserId, receiverId: UserId)

  /** `{ $or: [{ senderId: u }, { receiverId: u }] }`. */
  predicate Involves(m: DirectMessage, u: UserId) {
    m.senderId == u || m.receiverId == u
  }

  /** `x` is someone other than `u` on a message that involves `u`. */
  predicate IsPartner(msgs: seq<DirectMessage>, u: UserId, x: UserId) {
    x != u && exists i | 0 <= i < |msgs| :: Involves(msgs[i], u) && (msgs[i].senderId == x || msgs[i].receiverId == x)
  }

  /**
   * The `userIds` set: for every message of the query, its sender and its
   * receiver, unless that is the requested user. The requested user is
   * never in it, and every other party of every such message is.
   */
  method ChatPartners(u: UserId, msgs: seq<DirectMessage>) returns (ids: set<UserId>)
    ensures u !in ids
    ensures forall x :: x in ids <==> IsPartner(msgs, u, x)
  {
    ids := {};
    for i := 0 to |msgs|
      invariant u !in ids
      invariant forall x :: x in ids <==> IsPartner(msgs[..i], u, x)
    {
      var m := msgs[i];
      if Involves(m, u) {
        if m.senderId != u {
          ids := ids + {m.senderId};
        }
        if m.receiverId != u {
          ids := ids + {m.receiverId};
        }
      }
      PartnerOfPrefix(msgs, u, i);
    }
    assert msgs[..|msgs|] == msgs;
  }

  /** Extending the considered messages by one adds exactly that message's other parties. */
  lemma PartnerOfPrefix(msgs: seq<DirectMessage>, u: UserId, i: nat)
    requires i < |msgs|
    ensures forall x :: IsPartner(msgs[..i + 1], u, x) <==>
      IsPartner(msgs[..i], u, x)
      || (x != u && Involves(msgs[i], u) && (msgs[i].senderId == x || msgs[i].receiverId == x))
  {
    var p, q := msgs[..i], msgs[..i + 1];
    assert q == p + [msgs[i]];
    forall x | IsPartner(p, u, x)
      ensures IsPartner(q, u, x)
    {
      var j :| 0 <= j < |p| && Involves(p[j], u) && (p[j].senderId == x || p[j].receiverId == x);
      assert q[j] == p[j];
    }
    forall x | x != u && Involves(msgs[i], u) && (msgs[i].senderId == x || msgs[i].receiverId == x)
      ensures IsPartner(q, u, x)
    {
      assert q[i] == msgs[i];
    }
  }

  // ---------------------------------------------------------------------------
  // The handler over messages as models/Message.js stores them
  // ---------------------------------------------------------------------------

  const ServerError: string := "Server error"

  /**
   * The handler as written, over the messages the schema can store: a saved
   * message never has a `receiverId`, so the query matches exactly the
   * messages `u` sent (`senders` lists the sender of every stored message),
   * and reading `message.receiverId.toString()` on the first of them throws
   * a TypeError that the `catch` turns into 500. With no such message the
   * set stays empty.
   */
  function ChatUsersAsWritten(u: UserId, senders: seq<UserId>): (r: Reply<set<UserId>>)
    ensures r.Ok? <==> u !in senders
    ensures r.Ok? ==> r == Ok(200, {})
    ensures !r.Ok? ==> r == Err(500, ServerError)
  {
    if u in senders then Err(500, ServerError) else Ok(200, {})
  }

  /**
   * A user who has sent one message to someone else gets that person listed
   * when messages carry their receiver, and a 500 from the handler as written.
   */
  lemma {:induction false} ReceiverlessMessageFails(u: UserId, x: UserId)
    requires x != u
    ensures IsPartner([DirectMessage(u, x)], u, x)
    ensures ChatUsersAsWritten(u, [u]) == Err(500, ServerError)
  {
    assert Involves([DirectMessage(u, x)][0], u);
  }
}
