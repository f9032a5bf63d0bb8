/**
 * controllers/userController.js: the friend graph (adding and removing
 * friends, the friend-request life cycle), presence status, the chat-partner
 * lookup and the pagination of the user list.
 *
 * Every handler here runs behind middlewares/authMiddleware.js, which
 * answers 401 unless the token names a stored user; the caller is therefore
 * a stored user whenever a handler runs.
 */
module UserController {
  import opened Common
  import opened Schema
  import opened Db
  import UserRoute

  // ---------------------------------------------------------------------------
  // Friends lists
  // ---------------------------------------------------------------------------

  /** `list.filter(id => id !== x)`: every occurrence of `x` is dropped, the rest kept in order. */
  function Without(s: seq<UserId>, x: UserId): (r: seq<UserId>)
    ensures forall y :: y in r <==> y in s && y != x
    ensures |r| <= |s|
    ensures x !in s ==> r == s
    ensures Distinct(s) ==> Distinct(r)
  {
    if s == [] then []
    else
      var rest := Without(s[1..], x);
      assert Distinct(s) ==> s[0] !in s[1..];
      if s[0] == x then rest else [s[0]] + rest
  }

  /** `doc.friends.push(x); doc.save()`: the save sends a `$push`, which appends to the stored list. */
  function Pushed(users: map<UserId, User>, k: UserId, x: UserId): (r: map<UserId, User>)
    requires k in users
    ensures r.Keys == users.Keys
    ensures r[k].friends == users[k].friends + [x]
    ensures forall j | j in users && j != k :: r[j] == users[j]
    ensures r[k].(friends := users[k].friends) == users[k]
  {
    users[k := users[k].(friends := users[k].friends + [x])]
  }

  /**
   * Both friends lists once `a` and `b` are friends. Both documents are
   * loaded first; each joins the other's list unless its loaded list
   * already holds the other, and each save appends to the stored list. So
   * for two users each appears at most once on the other's list, while a
   * user befriending itself is appended twice, once by each save.
   */
  function Befriended(users: map<UserId, User>, a: UserId, b: UserId): (r: map<UserId, User>)
    requires a in users && b in users
    ensures r.Keys == users.Keys
    ensures forall k, y | k in users ::
      y in r[k].friends <==> y in users[k].friends || (k == a && y == b) || (k == b && y == a)
    ensures forall k | k in users :: r[k].(friends := users[k].friends) == users[k]
    ensures forall k | k in users && k != a && k != b :: r[k] == users[k]
    ensures a != b ==>
      r[a].friends == Adjoin(users[a].friends, b) && r[b].friends == Adjoin(users[b].friends, a)
    ensures a == b ==>
      r[a].friends == if a in users[a].friends then users[a].friends else users[a].friends + [a, a]
  {
    var afterA := if b !in users[a].friends then Pushed(users, a, b) else users;
    if a !in users[b].friends then Pushed(afterA, b, a) else afterA
  }

  /** Befriending keeps the friends relation symmetric. */
  lemma BefriendedKeepsSymmetry(users: map<UserId, User>, a: UserId, b: UserId)
    requires a in users && b in users && FriendsSymmetric(users)
    ensures FriendsSymmetric(Befriended(users, a, b))
  {
  }

  /**
   * Befriending two users puts neither on a list twice; a user befriending
   * itself, not yet on its own list, ends up on it twice.
   */
  lemma BefriendedKeepsDistinct(users: map<UserId, User>, a: UserId, b: UserId)
    requires a in users && b in users && FriendListsDistinct(users)
    ensures FriendListsDistinct(Befriended(users, a, b)) <==> a != b || a in users[a].friends
  {
    var r := Befriended(users, a, b);
    if a != b || a in users[a].friends {
      forall k | k in r
        ensures Distinct(r[k].friends)
      {
        assert Distinct(users[k].friends);
      }
    } else {
      var l := users[a].friends;
      assert r[a].friends[|l|] == a == r[a].friends[|l| + 1];
    }
  }

  /** Accepting the same pair twice changes nothing more: no list gains a repeat. */
  lemma {:induction false} BefriendedIdempotent(users: map<UserId, User>, a: UserId, b: UserId)
    requires a in users && b in users
    ensures Befriended(Befriended(users, a, b), a, b) == Befriended(users, a, b)
  {
    var r := Befriended(users, a, b);
    var r2 := Befriended(r, a, b);
    forall k | k in r
      ensures r2[k] == r[k]
    {
      if k == a || k == b {
        assert b in r[a].friends && a in r[b].friends;
      }
    }
  }

  /** Both friends lists once `a` and `b` are no longer friends, as intended. */
  function Unfriended(users: map<UserId, User>, a: UserId, b: UserId): (r: map<UserId, User>)
    requires a in users && b in users
    ensures r.Keys == users.Keys
    ensures forall k, y | k in users ::
      y in r[k].friends <==> y in users[k].friends && !(k == a && y == b) && !(k == b && y == a)
    ensures forall k | k in users :: r[k].(friends := users[k].friends) == users[k]
  {
    users[a := users[a].(friends := Without(users[a].friends, b))]
         [b := users[b].(friends := Without(users[b].friends, a))]
  }

  /** Unfriending keeps the friends relation symmetric. */
  lemma UnfriendedKeepsSymmetry(users: map<UserId, User>, a: UserId, b: UserId)
    requires a in users && b in users && FriendsSymmetric(users)
    ensures FriendsSymmetric(Unfriended(users, a, b))
  {
  }

  /** Unfriending keeps the lists free of repeats. */
  lemma UnfriendedKeepsDistinct(users: map<UserId, User>, a: UserId, b: UserId)
    requires a in users && b in users && FriendListsDistinct(users)
    ensures FriendListsDistinct(Unfriended(users, a, b))
  {
    var r := Unfriended(users, a, b);
    forall k | k in r
      ensures Distinct(r[k].friends)
    {
      assert Distinct(users[k].friends);
    }
  }

  /**
   * The two unconditional push-and-save pairs of `addFriend`, each save
   * appending to the stored list, befriend the pair when neither lists the
   * other yet (a user adding itself included); they keep the friends
   * relation symmetric and the user and email indexes intact.
   */
  lemma PushesBefriend(users: map<UserId, User>, a: UserId, b: UserId)
    requires a in users && b in users && b !in users[a].friends && a !in users[b].friends
    ensures Pushed(Pushed(users, a, b), b, a) == Befriended(users, a, b)
    ensures FriendsSymmetric(users) ==> FriendsSymmetric(Befriended(users, a, b))
    ensures forall next: nat | UsersIndexed(users, next) && UniqueEmails(users) ::
      UsersIndexed(Befriended(users, a, b), next) && UniqueEmails(Befriended(users, a, b))
  {
    if FriendsSymmetric(users) {
      BefriendedKeepsSymmetry(users, a, b);
    }
    forall next: nat | UsersIndexed(users, next) && UniqueEmails(users)
      ensures UsersIndexed(Befriended(users, a, b), next) && UniqueEmails(Befriended(users, a, b))
    {
      FriendsOnlyChange(users, Befriended(users, a, b), next);
    }
  }

  /** Changing nothing but friends lists keeps the user index and the unique email index. */
  lemma FriendsOnlyChange(before: map<UserId, User>, after: map<UserId, User>, next: nat)
    requires after.Keys == before.Keys
    requires forall k | k in before :: after[k].(friends := before[k].friends) == before[k]
    requires UsersIndexed(before, next) && UniqueEmails(before)
    ensures UsersIndexed(after, next) && UniqueEmails(after)
  {
    forall k | k in after
      ensures after[k].id == before[k].id && after[k].email == before[k].email
    {
      assert after[k].(friends := before[k].friends) == before[k];
    }
  }

  /**
   * The users after `removeFriend` as the code is written: the friend's list
   * is filtered against `req.user._id`, an ObjectId, with `!==` on a string,
   * so nothing is ever dropped from it and only the caller's list changes.
   */
  function UnfriendedAsWritten(users: map<UserId, User>, a: UserId, b: UserId): (r: map<UserId, User>)
    requires a in users
    ensures r.Keys == users.Keys
    ensures forall y :: y in r[a].friends <==> y in users[a].friends && y != b
    ensures forall k | k in users && k != a :: r[k] == users[k]
  {
    users[a := users[a].(friends := Without(users[a].friends, b))]
  }

  /** Removing a friend as written leaves the other user still listing the caller. */
  lemma UnfriendedAsWrittenBreaksSymmetry(users: map<UserId, User>, a: UserId, b: UserId)
    requires a in users && b in users && a != b
    requires FriendsSymmetric(users) && b in users[a].friends
    ensures !FriendsSymmetric(UnfriendedAsWritten(users, a, b))
    ensures FriendsSymmetric(Unfriended(users, a, b))
  {
    var r := UnfriendedAsWritten(users, a, b);
    assert a in r[b].friends && b !in r[a].friends;
    UnfriendedKeepsSymmetry(users, a, b);
  }

  /** The messages of the TypeErrors thrown by reading a method of the undefined `friends`. */
  const UndefinedIncludes: string := "Cannot read properties of undefined (reading 'includes')"
  const UndefinedForEach: string := "Cannot read properties of undefined (reading 'forEach')"

  /**
   * The reply of `addFriend` as the schema is written: models/User.js
   * declares no `friends` path, so the caller's `user.friends` is undefined
   * and reading `includes` from it throws before any write; the handler
   * answers 500 for every known target. `removeFriend` likewise throws at
   * its first `filter`, before any write; `acceptFriendRequest` and
   * `updateStatus` throw only after a write, as modelled below.
   */
  function AddFriendAsWritten(users: map<UserId, User>, friendId: UserId): (r: Reply<FriendRequest>)
    ensures friendId !in users ==> r == Err(404, "User not found")
    ensures friendId in users ==> r == Err(500, UndefinedIncludes)
  {
    if friendId !in users then Err(404, "User not found")
    else Err(500, UndefinedIncludes)
  }

  /** As written, no one can ever be added as a friend. */
  lemma AddFriendAsWrittenNeverSucceeds(users: map<UserId, User>, friendId: UserId)
    ensures !AddFriendAsWritten(users, friendId).Ok?
  {
  }

  /** A handler as written: its reply, the collection it had written when it answered, and the events it sent. */
  datatype Outcome<T, S> = Outcome(reply: Reply<T>, state: S, events: seq<Event>)

  /**
   * `acceptFriendRequest` as the schema is written. The request is saved
   * 'accepted' first. When both users exist, `sender.friends` is undefined
   * and reading `includes` from it throws: 500, with the request already
   * accepted, no list changed and no event sent. When either user is
   * missing the block is skipped and the handler answers as intended. The
   * user collection is only read.
   */
  function AcceptFriendRequestAsWritten(requests: map<RequestId, FriendRequest>, users: map<UserId, User>,
                                        rid: RequestId, userId: UserId, now: Time)
    : (o: Outcome<FriendRequest, map<RequestId, FriendRequest>>)
    ensures rid !in requests ==> o == Outcome(Err(404, "Friend request not found"), requests, [])
    ensures rid in requests && requests[rid].receiver != userId ==>
      o == Outcome(Err(403, "Not authorized to accept this request"), requests, [])
    ensures rid in requests && requests[rid].receiver == userId ==>
      && o.state == requests[rid := WithStatus(requests[rid], Accepted, now)]
      && o.state[rid].status == Accepted
    ensures rid in requests && requests[rid].receiver == userId
            && requests[rid].sender in users && requests[rid].receiver in users ==>
      o.reply == Err(500, UndefinedIncludes) && o.events == []
    ensures rid in requests && requests[rid].receiver == userId
            && (requests[rid].sender !in users || requests[rid].receiver !in users) ==>
      && o.reply == Ok(200, WithStatus(requests[rid], Accepted, now))
      && o.events == [Emit(requests[rid].sender, FriendRequestAccepted(rid, userId))]
  {
    if rid !in requests then Outcome(Err(404, "Friend request not found"), requests, [])
    else if requests[rid].receiver != userId then
      Outcome(Err(403, "Not authorized to accept this request"), requests, [])
    else
      var saved := WithStatus(requests[rid], Accepted, now);
      var written := requests[rid := saved];
      if requests[rid].sender in users && requests[rid].receiver in users then
        Outcome(Err(500, UndefinedIncludes), written, [])
      else
        Outcome(Ok(200, saved), written, [Emit(requests[rid].sender, FriendRequestAccepted(rid, userId))])
  }

  /**
   * As written, accepting a request between two existing users answers 500
   * although the request is stored as accepted; the friends lists and the
   * event that the corrected `AcceptFriendRequest` produces never happen.
   */
  lemma AcceptWrittenThenFails(requests: map<RequestId, FriendRequest>, users: map<UserId, User>,
                               rid: RequestId, userId: UserId, now: Time)
    requires rid in requests && requests[rid].receiver == userId
    requires requests[rid].sender in users && requests[rid].receiver in users
    ensures var o := AcceptFriendRequestAsWritten(requests, users, rid, userId, now);
      && o.reply.Err? && o.reply.status == 500
      && rid in o.state && o.state[rid].status == Accepted
      && o.events == []
  {
  }

  /**
   * `updateStatus` as the schema is written: `findByIdAndUpdate` stores the
   * new status and `lastSeen` first; then `user.friends` is undefined and
   * reading `forEach` from it throws, so the handler answers 500 with the
   * status already changed and no friend told.
   */
  function UpdateStatusAsWritten(users: map<UserId, User>, caller: UserId, status: Option<string>, now: Time)
    : (o: Outcome<User, map<UserId, User>>)
    requires caller in users
    ensures !ValidPresence(status) ==> o == Outcome(Err(400, "Invalid status"), users, [])
    ensures ValidPresence(status) ==>
      && o.reply == Err(500, UndefinedForEach)
      && o.state == users[caller := users[caller].(status := status.value, lastSeen := Some(now))]
      && o.events == []
  {
    if !ValidPresence(status) then Outcome(Err(400, "Invalid status"), users, [])
    else
      Outcome(Err(500, UndefinedForEach),
              users[caller := users[caller].(status := status.value, lastSeen := Some(now))], [])
  }

  /** As written, a valid status change answers 500 although the new status is stored. */
  lemma StatusWrittenThenFails(users: map<UserId, User>, caller: UserId, s: string, now: Time)
    requires caller in users && ValidPresence(Some(s))
    ensures var o := UpdateStatusAsWritten(users, caller, Some(s), now);
      && o.reply.Err? && o.reply.status == 500
      && o.state[caller].status == s && o.state[caller].lastSeen == Some(now)
      && o.events == []
  {
  }

  // ---------------------------------------------------------------------------
  // addFriend / removeFriend
  // ---------------------------------------------------------------------------

  /**
   * `addFriend`, with `friends` declared as a list of user ids: 404 for an
   * unknown target, 400 when they are already friends or a request exists
   * either way; otherwise an accepted request is stored, each joins the
   * other's list, and `newFriend` goes to the target's room.
   */
  method AddFriend(db: Store, caller: UserId, friendId: UserId, now: Time) returns (r: Reply<FriendRequest>)
    requires db.Valid() && caller in db.users
    modifies db
    ensures db.Valid()
    ensures friendId !in old(db.users) ==> r == Err(404, "User not found") && unchanged(db)
    ensures friendId in old(db.users) && friendId in old(db.users)[caller].friends ==>
      r == Err(400, "Already friends") && unchanged(db)
    ensures (friendId in old(db.users) && friendId !in old(db.users)[caller].friends
             && old(RequestBetween(db.requests, caller, friendId))) ==>
      r == Err(400, "Friend request already exists") && unchanged(db)
    ensures r.Ok? <==>
      friendId in old(db.users) && friendId !in old(db.users)[caller].friends
      && !old(RequestBetween(db.requests, caller, friendId))
    ensures r.Ok? ==>
      && r.status == 200
      && r.value == NewRequest(r.value.id, caller, friendId, Some(Accepted), now)
      && r.value.id !in old(db.requests)
      && db.requests == old(db.requests)[r.value.id := r.value]
      && db.users == Befriended(old(db.users), caller, friendId)
      && db.conversations == old(db.conversations) && db.messages == old(db.messages)
      && db.events == old(db.events) + [Emit(friendId, NewFriend(caller))]
  {
    if friendId !in db.users {
      return Err(404, "User not found");
    }
    if friendId in db.users[caller].friends {
      return Err(400, "Already friends");
    }
    if RequestBetween(db.requests, caller, friendId) {
      return Err(400, "Friend request already exists");
    }
    var request := Befriend(db, caller, friendId, now);
    r := Ok(200, request);
  }

  /** The writes of `addFriend` once its checks have passed. */
  method Befriend(db: Store, caller: UserId, friendId: UserId, now: Time) returns (request: FriendRequest)
    requires db.Valid() && caller in db.users && friendId in db.users
    requires friendId !in db.users[caller].friends && !RequestBetween(db.requests, caller, friendId)
    modifies db`nextId, db`requests, db`users, db`events
    ensures db.Valid()
    ensures request == NewRequest(request.id, caller, friendId, Some(Accepted), now)
    ensures request.id !in old(db.requests)
    ensures db.requests == old(db.requests)[request.id := request]
    ensures db.users == Befriended(old(db.users), caller, friendId)
    ensures db.events == old(db.events) + [Emit(friendId, NewFriend(caller))]
  {
    var id := db.NewId();
    request := NewRequest(id, caller, friendId, Some(Accepted), now);
    AddRequestKeepsPairsUnique(db.requests, request);
    db.SaveRequest(request);
    PushFriends(db, caller, friendId);
    db.Publish([Emit(friendId, NewFriend(caller))]);
  }

  /** The two `friends.push` and `save()` pairs of `addFriend`, each save appending to the stored list. */
  method PushFriends(db: Store, caller: UserId, friendId: UserId)
    requires db.Valid() && caller in db.users && friendId in db.users
    requires friendId !in db.users[caller].friends
    modifies db`users
    ensures db.Valid()
    ensures db.users == Befriended(old(db.users), caller, friendId)
  {
    assert caller !in db.users[friendId].friends;
    PushesBefriend(db.users, caller, friendId);
    var users := Pushed(db.users, caller, friendId);
    users := Pushed(users, friendId, caller);
    db.SaveUsers(users);
  }

  /**
   * The start of the message of Mongoose's `VersionError`, thrown by a
   * `save()` whose document was replaced in the database after it was loaded.
   */
  const StaleSaveMessage: string := "No matching document found"

  /**
   * `removeFriend`, with the friend's list filtered against the caller's id
   * as intended: 404 for an unknown target; otherwise each leaves the other's
   * list, nothing else leaves any list, and `friendRemoved` goes to the
   * target's room. A user removing themself from their own list loads two
   * copies of the same document: the first save replaces the list and bumps
   * its version, so the second save, from the stale copy, throws and the
   * handler answers 500 with the list already saved and no event.
   */
  method RemoveFriend(db: Store, caller: UserId, friendId: UserId) returns (r: Reply<string>)
    requires db.Valid() && caller in db.users
    modifies db
    ensures db.Valid()
    ensures friendId !in old(db.users) ==> r == Err(404, "User not found") && unchanged(db)
    ensures friendId in old(db.users) ==>
      && db.users == Unfriended(old(db.users), caller, friendId)
      && db.conversations == old(db.conversations) && db.messages == old(db.messages)
      && db.requests == old(db.requests) && db.nextId == old(db.nextId)
    ensures friendId in old(db.users) && !(friendId == caller && caller in old(db.users)[caller].friends) ==>
      && r == Ok(200, "Friend removed successfully")
      && db.events == old(db.events) + [Emit(friendId, FriendRemoved(caller))]
    ensures friendId == caller && caller in old(db.users)[caller].friends ==>
      && r == Err(500, StaleSaveMessage)
      && caller !in db.users[caller].friends
      && db.events == old(db.events)
  {
    if friendId !in db.users {
      return Err(404, "User not found");
    }
    var friend := db.users[friendId];
    var user := db.users[caller];
    var stale := friendId == caller && caller in user.friends;
    user := user.(friends := Without(user.friends, friendId));
    friend := friend.(friends := Without(friend.friends, caller));
    var users := db.users[caller := user][friendId := friend];
    assert users == Unfriended(db.users, caller, friendId);
    FriendsOnlyChange(db.users, users, db.nextId);
    UnfriendedKeepsSymmetry(db.users, caller, friendId);
    db.SaveUsers(users);
    if stale {
      return Err(500, StaleSaveMessage);
    }
    db.Publish([Emit(friendId, FriendRemoved(caller))]);
    r := Ok(200, "Friend removed successfully");
  }

  // ---------------------------------------------------------------------------
  // updateStatus
  // ---------------------------------------------------------------------------

  /** The presence values `updateStatus` accepts. */
  predicate ValidPresence(status: Option<string>) {
    status == Some("online") || status == Some("offline")
  }

  /** One `userStatusChanged` event per friend, in list order. */
  function StatusNotices(friends: seq<UserId>, u: UserId, status: string, at: Time): seq<Event> {
    seq(|friends|, i requires 0 <= i < |friends| => Emit(friends[i], UserStatusChanged(u, status, at)))
  }

  /** The `forEach` over the friends list that tells each friend about the new status. */
  method NotifyFriends(friends: seq<UserId>, u: UserId, status: string, at: Time) returns (notices: seq<Event>)
    ensures notices == StatusNotices(friends, u, status, at)
  {
    notices := [];
    for i := 0 to |friends|
      invariant notices == StatusNotices(friends[..i], u, status, at)
    {
      notices := notices + [Emit(friends[i], UserStatusChanged(u, status, at))];
    }
    assert friends[..|friends|] == friends;
  }

  /**
   * `updateStatus`: anything but 'online' or 'offline' is refused (400,
   * nothing changes); otherwise the caller's status is set, `lastSeen`
   * becomes now, and each friend is told.
   */
  method UpdateStatus(db: Store, caller: UserId, status: Option<string>, now: Time) returns (r: Reply<User>)
    requires db.Valid() && caller in db.users
    modifies db
    ensures db.Valid()
    ensures !ValidPresence(status) ==> r == Err(400, "Invalid status") && unchanged(db)
    ensures ValidPresence(status) ==>
      var u := old(db.users)[caller].(status := status.value, lastSeen := Some(now));
      && r == Ok(200, u)
      && db.users == old(db.users)[caller := u]
      && db.conversations == old(db.conversations) && db.messages == old(db.messages)
      && db.requests == old(db.requests) && db.nextId == old(db.nextId)
      && db.events == old(db.events) + StatusNotices(u.friends, caller, status.value, now)
  {
    if !ValidPresence(status) {
      return Err(400, "Invalid status");
    }
    var user := db.users[caller].(status := status.value, lastSeen := Some(now));
    db.SaveUser(user);
    var notices := NotifyFriends(user.friends, caller, status.value, now);
    db.Publish(notices);
    r := Ok(200, user);
  }

  // ---------------------------------------------------------------------------
  // getChatUsers
  // ---------------------------------------------------------------------------

  /**
   * `getChatUsers`: the stored users among the other parties of the messages
   * that involve `u`. `direct` is the message collection as the handler
   * reads it (sender and receiver of each document).
   */
  method GetChatUsers(db: Store, u: UserId, direct: seq<UserRoute.DirectMessage>) returns (r: Reply<map<UserId, User>>)
    ensures r.Ok? && r.status == 200
    ensures u !in r.value
    ensures forall x :: x in r.value <==> x in db.users && UserRoute.IsPartner(direct, u, x)
    ensures forall x | x in r.value :: r.value[x] == db.users[x]
  {
    var ids := UserRoute.ChatPartners(u, direct);
    var users := db.users;
    r := Ok(200, map x | x in ids && x in users :: users[x]);
  }

  // ---------------------------------------------------------------------------
  // The friend-request life cycle
  // ---------------------------------------------------------------------------

  /** A request after `status = s` and `save()`: the timestamp moves only when the status changed. */
  function WithStatus(req: FriendRequest, s: FriendStatus, now: Time): (r: FriendRequest)
    ensures r.status == s
    ensures r.updatedAt == if s == req.status then req.updatedAt else now
    ensures r.(status := req.status, updatedAt := req.updatedAt) == req
  {
    Saved(req, req.(status := s), req.(status := s, updatedAt := now))
  }

  /**
   * `sendFriendRequest`: 400 when a request exists either way; otherwise a
   * pending request from `senderId` to `receiverId` is stored and
   * `newFriendRequest` goes to the receiver's room. Neither id is checked
   * against the caller or the user collection.
   */
  method SendFriendRequest(db: Store, senderId: UserId, receiverId: UserId, now: Time) returns (r: Reply<FriendRequest>)
    requires db.Valid()
    modifies db
    ensures db.Valid()
    ensures old(RequestBetween(db.requests, senderId, receiverId)) ==>
      r == Err(400, "Friend request already exists") && unchanged(db)
    ensures !old(RequestBetween(db.requests, senderId, receiverId)) ==>
      && r.Ok? && r.status == 201
      && r.value == NewRequest(r.value.id, senderId, receiverId, None, now)
      && r.value.status == Pending
      && r.value.id !in old(db.requests)
      && db.requests == old(db.requests)[r.value.id := r.value]
      && db.users == old(db.users) && db.conversations == old(db.conversations)
      && db.messages == old(db.messages)
      && db.events == old(db.events) + [Emit(receiverId, NewFriendRequest(r.value.id, senderId))]
  {
    if RequestBetween(db.requests, senderId, receiverId) {
      return Err(400, "Friend request already exists");
    }
    var id := db.NewId();
    var request := NewRequest(id, senderId, receiverId, None, now);
    AddRequestKeepsPairsUnique(db.requests, request);
    db.SaveRequest(request);
    db.Publish([Emit(receiverId, NewFriendRequest(id, senderId))]);
    r := Ok(201, request);
  }

  /**
   * `acceptFriendRequest`: 404 for an unknown request, 403 unless `userId`
   * is its receiver (nothing changes); otherwise the status becomes
   * accepted, sender and receiver join each other's lists when both exist
   * (as `Befriended` states), and `friendRequestAccepted` goes to the sender's room.
   * The current status is not checked: a rejected request can be accepted.
   */
  method AcceptFriendRequest(db: Store, rid: RequestId, userId: UserId, now: Time) returns (r: Reply<FriendRequest>)
    requires db.Valid()
    modifies db
    ensures db.Valid()
    ensures rid !in old(db.requests) ==> r == Err(404, "Friend request not found") && unchanged(db)
    ensures rid in old(db.requests) && old(db.requests)[rid].receiver != userId ==>
      r == Err(403, "Not authorized to accept this request") && unchanged(db)
    ensures rid in old(db.requests) && old(db.requests)[rid].receiver == userId ==>
      var req := old(db.requests)[rid];
      var saved := WithStatus(req, Accepted, now);
      && r == Ok(200, saved)
      && db.requests == old(db.requests)[rid := saved]
      && db.users == (if req.sender in old(db.users) && req.receiver in old(db.users)
                      then Befriended(old(db.users), req.sender, req.receiver) else old(db.users))
      && db.conversations == old(db.conversations) && db.messages == old(db.messages)
      && db.nextId == old(db.nextId)
      && db.events == old(db.events) + [Emit(req.sender, FriendRequestAccepted(rid, userId))]
  {
    if rid !in db.requests {
      return Err(404, "Friend request not found");
    }
    var request := db.requests[rid];
    if request.receiver != userId {
      return Err(403, "Not authorized to accept this request");
    }
    var saved := WithStatus(request, Accepted, now);
    ResaveKeepsPairsUnique(db.requests, rid, saved);
    db.SaveRequest(saved);
    var s, t := request.sender, request.receiver;
    if s in db.users && t in db.users {
      AddIfMissing(db, s, t);
    }
    db.Publish([Emit(s, FriendRequestAccepted(rid, userId))]);
    r := Ok(200, saved);
  }

  /**
   * The guarded `friends.push` and `save()` pairs of `acceptFriendRequest`:
   * both users are loaded first, each guard reads its loaded document, and
   * each save appends to the stored list.
   */
  method AddIfMissing(db: Store, s: UserId, t: UserId)
    requires db.Valid() && s in db.users && t in db.users
    modifies db`users
    ensures db.Valid()
    ensures db.users == Befriended(old(db.users), s, t)
  {
    var sender, receiver := db.users[s], db.users[t];
    var users := db.users;
    if t !in sender.friends {
      users := Pushed(users, s, t);
    }
    if s !in receiver.friends {
      users := Pushed(users, t, s);
    }
    assert users == Befriended(db.users, s, t);
    FriendsOnlyChange(db.users, users, db.nextId);
    BefriendedKeepsSymmetry(db.users, s, t);
    db.SaveUsers(users);
  }

  /**
   * `rejectFriendRequest`: 404 for an unknown request, 403 unless `userId`
   * is its receiver (nothing changes); otherwise the status becomes
   * rejected. No list changes and no event is sent.
   */
  method RejectFriendRequest(db: Store, rid: RequestId, userId: UserId, now: Time) returns (r: Reply<FriendRequest>)
    requires db.Valid()
    modifies db
    ensures db.Valid()
    ensures rid !in old(db.requests) ==> r == Err(404, "Friend request not found") && unchanged(db)
    ensures rid in old(db.requests) && old(db.requests)[rid].receiver != userId ==>
      r == Err(403, "Not authorized to reject this request") && unchanged(db)
    ensures rid in old(db.requests) && old(db.requests)[rid].receiver == userId ==>
      var saved := WithStatus(old(db.requests)[rid], Rejected, now);
      && r == Ok(200, saved)
      && db.requests == old(db.requests)[rid := saved]
      && db.users == old(db.users) && db.conversations == old(db.conversations)
      && db.messages == old(db.messages) && db.nextId == old(db.nextId) && db.events == old(db.events)
  {
    if rid !in db.requests {
      return Err(404, "Friend request not found");
    }
    var request := db.requests[rid];
    if request.receiver != userId {
      return Err(403, "Not authorized to reject this request");
    }
    var saved := WithStatus(request, Rejected, now);
    ResaveKeepsPairsUnique(db.requests, rid, saved);
    db.SaveRequest(saved);
    r := Ok(200, saved);
  }

  // ---------------------------------------------------------------------------
  // getAllUsers pagination
  // ---------------------------------------------------------------------------

  /** `parseInt(x) || d`: an unparsable value (`None`, NaN in the source) or 0 falls back to `d`. */
  function OrDefault(v: Option<int>, d: int): int {
    if v.None? || v.value == 0 then d else v.value
  }

  /** `Math.ceil(n / d)` for a non-zero divisor: the least integer at or above the quotient. */
  function CeilDiv(n: nat, d: int): (q: int)
    requires d != 0
    ensures d > 0 ==> (q - 1) * d < n <= q * d
    ensures d < 0 ==> q * d <= n < (q - 1) * d
  {
    if d > 0 then (n + d - 1) / d else -(n / -d)
  }

  datatype Pagination = Pagination(page: int, limit: int, skip: int, total: nat, totalPages: int)

  /**
   * The pagination of `getAllUsers`: `page` defaults to 1 and `limit` to 10,
   * `skip = (page - 1) * limit` and `totalPages = ceil(total / limit)`.
   */
  function Paginate(page: Option<int>, limit: Option<int>, total: nat): (p: Pagination)
    ensures p.page == OrDefault(page, 1) && p.page != 0
    ensures p.limit == OrDefault(limit, 10) && p.limit != 0
    ensures p.skip == (p.page - 1) * p.limit
    ensures p.total == total
    ensures p.limit > 0 ==> (p.totalPages - 1) * p.limit < total <= p.totalPages * p.limit
  {
    var pg := OrDefault(page, 1);
    var lim := OrDefault(limit, 10);
    Pagination(pg, lim, (pg - 1) * lim, total, CeilDiv(total, lim))
  }

  /**
   * With a positive limit the pages cover the list: user number `i` of
   * `total` sits on page `i / limit + 1`, which is one of the `totalPages`
   * pages and whose window `[skip, skip + limit)` holds it.
   */
  lemma {:induction false} PagesCoverAll(limit: Option<int>, total: nat, i: nat)
    requires OrDefault(limit, 10) > 0 && i < total
    ensures
      var lim := OrDefault(limit, 10);
      var p := Paginate(Some(i / lim + 1), limit, total);
      && 1 <= p.page <= p.totalPages
      && p.skip <= i < p.skip + p.limit
  {
    var lim := OrDefault(limit, 10);
    var q := i / lim;
    var p := Paginate(Some(q + 1), limit, total);
    var t := p.totalPages;
    assert p.page == q + 1 && p.limit == lim;
    assert p.skip == q * lim;
    DivBounds(i, lim);
    assert total <= t * lim;
    LessByFactor(q, t, lim);
  }

  /** The quotient's multiple lies within one divisor below the dividend. */
  lemma DivBounds(i: nat, d: int)
    requires d > 0
    ensures (i / d) * d <= i < (i / d) * d + d
  {
  }

  /** `q * d < t * d` with a positive `d` means `q < t`. */
  lemma LessByFactor(q: int, t: int, d: int)
    requires d > 0 && q * d < t * d
    ensures q < t
  {
    if t <= q {
      MulMonotone(t, q, d);
    }
  }

  lemma MulMonotone(a: int, b: int, c: nat)
    requires a <= b
    ensures a * c <= b * c
  {
  }
}
