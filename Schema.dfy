/**
 * The four Mongoose schemas (models/Message.js, models/Conversation.js,
 * models/Friend.js, models/User.js) as datatypes.
 *
 * A field the schema marks `required` is a plain (non-optional) field of the
 * record; an ObjectId reference is an `Id`. What Mongoose checks when a
 * document is saved (a required string must be non-empty, an enum must hold
 * one of its listed values) and what it fills in (defaults, `timestamps`) is
 * written out in the `New...` and `Cast...` functions: they return `None`
 * exactly where `save()` would reject the document with a validation error.
 */
module Schema {
  import opened Common

  /** Mongoose's `required` check on a String path: present and non-empty. */
  predicate RequiredString(v: Option<string>) {
    v.Some? && v.value != ""
  }

  /**
   * `save()` on a fetched document of a schema with `timestamps: true`: an
   * unmodified document is not written and keeps its `updatedAt`; a modified
   * one is written as `stamped`, the changed document with `updatedAt` set
   * to the time of the save.
   */
  function Saved<T(==)>(before: T, after: T, stamped: T): (r: T)
    ensures after == before ==> r == before
    ensures after != before ==> r == stamped
  {
    if after == before then before else stamped
  }

  // ---------------------------------------------------------------------------
  // models/Message.js
  // ---------------------------------------------------------------------------

  datatype MessageType = Text | Image | Video | Audio | File | Emoji

  function MessageTypeName(t: MessageType): string {
    match t
    case Text => "text"
    case Image => "image"
    case Video => "video"
    case Audio => "audio"
    case File => "file"
    case Emoji => "emoji"
  }

  /** The `messageType` enum: only the six listed names are accepted. */
  function ParseMessageType(s: string): (r: Option<MessageType>)
    ensures r.Some? ==> MessageTypeName(r.value) == s
    ensures r.None? ==> forall t: MessageType :: MessageTypeName(t) != s
  {
    if s == "text" then Some(Text)
    else if s == "image" then Some(Image)
    else if s == "video" then Some(Video)
    else if s == "audio" then Some(Audio)
    else if s == "file" then Some(File)
    else if s == "emoji" then Some(Emoji)
    else None
  }

  datatype AttachmentType = ImageAttachment | VideoAttachment | AudioAttachment | FileAttachment

  function AttachmentTypeName(t: AttachmentType): string {
    match t
    case ImageAttachment => "image"
    case VideoAttachment => "video"
    case AudioAttachment => "audio"
    case FileAttachment => "file"
  }

  /** The attachment `type` enum: image, video, audio or file. */
  function ParseAttachmentType(s: string): (r: Option<AttachmentType>)
    ensures r.Some? ==> AttachmentTypeName(r.value) == s
    ensures r.None? ==> forall t: AttachmentType :: AttachmentTypeName(t) != s
  {
    if s == "image" then Some(ImageAttachment)
    else if s == "video" then Some(VideoAttachment)
    else if s == "audio" then Some(AudioAttachment)
    else if s == "file" then Some(FileAttachment)
    else None
  }

  datatype Reaction = Reaction(userId: UserId, emoji: string, createdAt: Time)

  datatype Attachment = Attachment(
    url: string,
    kind: AttachmentType,
    thumbnailUrl: Option<string>,
    name: Option<string>,
    size: Option<int>)

  datatype EmojiData = EmojiData(emoji: Option<string>, skinTone: Option<string>, isCustomEmoji: bool)

  datatype Message = Message(
    id: MessageId,
    conversationId: ConversationId,
    senderId: UserId,
    text: string,
    messageType: MessageType,
    attachments: seq<Attachment>,
    status: map<UserId, string>,
    reactions: seq<Reaction>,
    emojiData: EmojiData,
    createdAt: Time,
    updatedAt: Time)

  /** An attachment as it arrives in a request body, before validation. */
  datatype AttachmentDoc = AttachmentDoc(
    url: Option<string>,
    kind: Option<string>,
    thumbnailUrl: Option<string>,
    name: Option<string>,
    size: Option<int>)

  /** A reaction sub-document: `userId` and a non-empty `emoji` are required; `createdAt` defaults to now. */
  function NewReaction(userId: UserId, emoji: Option<string>, now: Time): (r: Option<Reaction>)
    ensures r.Some? <==> RequiredString(emoji)
    ensures r.Some? ==> r.value.userId == userId && r.value.emoji == emoji.value && r.value.createdAt == now
  {
    if RequiredString(emoji) then Some(Reaction(userId, emoji.value, now)) else None
  }

  /** An attachment sub-document: a non-empty `url` and a `type` from the enum are required. */
  function CastAttachment(d: AttachmentDoc): (r: Option<Attachment>)
    ensures r.Some? <==> RequiredString(d.url) && d.kind.Some? && ParseAttachmentType(d.kind.value).Some?
    ensures r.Some? ==>
      && r.value.url == d.url.value
      && AttachmentTypeName(r.value.kind) == d.kind.value
      && r.value.thumbnailUrl == d.thumbnailUrl && r.value.name == d.name && r.value.size == d.size
  {
    if RequiredString(d.url) && d.kind.Some? then
      match ParseAttachmentType(d.kind.value)
      case Some(k) => Some(Attachment(d.url.value, k, d.thumbnailUrl, d.name, d.size))
      case None => None
    else None
  }

  /** The `attachments` array validates when every element does, and keeps their order. */
  function CastAttachments(ds: seq<AttachmentDoc>): (r: Option<seq<Attachment>>)
    ensures r.Some? <==> forall i | 0 <= i < |ds| :: CastAttachment(ds[i]).Some?
    ensures r.Some? ==> |r.value| == |ds| && forall i | 0 <= i < |ds| :: CastAttachment(ds[i]) == Some(r.value[i])
  {
    if ds == [] then Some([])
    else
      var head, rest := CastAttachment(ds[0]), CastAttachments(ds[1..]);
      if head.Some? && rest.Some? then Some([head.value] + rest.value)
      else
        assert head.None? || exists i | 1 <= i < |ds| :: CastAttachment(ds[i]).None? by {
          if rest.None? {
            var j :| 0 <= j < |ds| - 1 && CastAttachment(ds[1..][j]).None?;
            assert ds[1..][j] == ds[j + 1];
          }
        }
        None
  }

  const NoEmojiData := EmojiData(None, None, false)

  /**
   * A new message document as `save()` stores it: `text` defaults to '',
   * `messageType` to 'text' and must be in the enum, the attachments must
   * validate, `status` starts as an empty map, `reactions` as an empty list,
   * `emojiData.isCustomEmoji` as false, and both timestamps are `now`.
   */
  function CastMessage(
    id: MessageId, conversationId: ConversationId, senderId: UserId,
    text: Option<string>, messageType: Option<string>, attachments: seq<AttachmentDoc>, now: Time)
    : (r: Option<Message>)
    ensures r.Some? <==>
      && (messageType.None? || ParseMessageType(messageType.value).Some?)
      && CastAttachments(attachments).Some?
    ensures r.Some? ==>
      && r.value.id == id && r.value.conversationId == conversationId && r.value.senderId == senderId
      && r.value.text == text.GetOr("")
      && MessageTypeName(r.value.messageType) == messageType.GetOr("text")
      && Some(r.value.attachments) == CastAttachments(attachments)
      && |r.value.attachments| == |attachments|
      && r.value.status == map[] && r.value.reactions == []
      && !r.value.emojiData.isCustomEmoji
      && r.value.createdAt == now && r.value.updatedAt == now
  {
    var kind := if messageType.None? then Some(Text) else ParseMessageType(messageType.value);
    match (kind, CastAttachments(attachments))
    case (Some(k), Some(atts)) =>
      Some(Message(id, conversationId, senderId, text.GetOr(""), k, atts, map[], [], NoEmojiData, now, now))
    case _ => None
  }

  /**
   * `save()` on a fetched message: with `timestamps: true` Mongoose refreshes
   * `updatedAt` only when the document was modified.
   */
  function SavedMessage(before: Message, after: Message, now: Time): (r: Message)
    ensures r.updatedAt == if after == before then before.updatedAt else now
    ensures r.(updatedAt := after.updatedAt) == after
  {
    Saved(before, after, after.(updatedAt := now))
  }

  /** At most one reaction per user on a message. */
  predicate OneReactionPerUser(rs: seq<Reaction>) {
    forall i, j | 0 <= i < j < |rs| :: rs[i].userId != rs[j].userId
  }

  // ---------------------------------------------------------------------------
  // models/Conversation.js
  // ---------------------------------------------------------------------------

  datatype ConversationType = Private | Group

  function ConversationTypeName(t: ConversationType): string {
    match t
    case Private => "private"
    case Group => "group"
  }

  /** The conversation `type` enum: 'private' or 'group'. */
  function ParseConversationType(s: string): (r: Option<ConversationType>)
    ensures r.Some? ==> ConversationTypeName(r.value) == s
    ensures r.None? ==> forall t: ConversationType :: ConversationTypeName(t) != s
  {
    if s == "private" then Some(Private)
    else if s == "group" then Some(Group)
    else None
  }

  /**
   * A conversation. `name` and `avatar` are not declared by the schema; they
   * are the fields controllers/conversationController.js:92-93 means to set.
   */
  datatype Conversation = Conversation(
    id: ConversationId,
    participants: seq<UserId>,
    kind: ConversationType,
    createdBy: UserId,
    lastMessage: Option<MessageId>,
    unreadCount: map<UserId, int>,
    name: Option<string>,
    avatar: Option<string>,
    createdAt: Time,
    updatedAt: Time)

  /** `save()` on a fetched conversation: `updatedAt` is refreshed only when something changed. */
  function SavedConversation(before: Conversation, after: Conversation, now: Time): (r: Conversation)
    ensures r.updatedAt == if after == before then before.updatedAt else now
    ensures r.(updatedAt := after.updatedAt) == after
  {
    Saved(before, after, after.(updatedAt := now))
  }

  /**
   * A new conversation document as `save()` stores it: `type` defaults to
   * 'private' and must be in the enum, `createdBy` is required (an id here),
   * there is no `lastMessage` yet and `unreadCount` starts empty.
   */
  function CastConversation(
    id: ConversationId, participants: seq<UserId>, kind: Option<string>, createdBy: UserId, now: Time)
    : (r: Option<Conversation>)
    ensures r.Some? <==> kind.None? || ParseConversationType(kind.value).Some?
    ensures r.Some? ==>
      && r.value.id == id && r.value.participants == participants && r.value.createdBy == createdBy
      && ConversationTypeName(r.value.kind) == kind.GetOr("private")
      && r.value.lastMessage.None? && r.value.unreadCount == map[]
      && r.value.name.None? && r.value.avatar.None?
      && r.value.createdAt == now && r.value.updatedAt == now
  {
    var k := if kind.None? then Some(Private) else ParseConversationType(kind.value);
    match k
    case Some(t) => Some(Conversation(id, participants, t, createdBy, None, map[], None, None, now, now))
    case None => None
  }

  // ---------------------------------------------------------------------------
  // models/Friend.js
  // ---------------------------------------------------------------------------

  datatype FriendStatus = Pending | Accepted | Rejected

  datatype FriendRequest = FriendRequest(
    id: RequestId,
    sender: UserId,
    receiver: UserId,
    status: FriendStatus,
    createdAt: Time,
    updatedAt: Time)

  /** A new friend request: `status` is 'pending' unless the caller sets it. */
  function NewRequest(id: RequestId, sender: UserId, receiver: UserId, status: Option<FriendStatus>, now: Time)
    : (r: FriendRequest)
    ensures r.sender == sender && r.receiver == receiver
    ensures status.None? ==> r.status == Pending
    ensures status.Some? ==> r.status == status.value
    ensures r.createdAt == now && r.updatedAt == now
  {
    FriendRequest(id, sender, receiver, status.GetOr(Pending), now, now)
  }

  /** The unique index on (sender, receiver): no two requests share an ordered pair. */
  ghost predicate UniquePairs(reqs: map<RequestId, FriendRequest>) {
    forall a, b | a in reqs && b in reqs && a != b ::
      reqs[a].sender != reqs[b].sender || reqs[a].receiver != reqs[b].receiver
  }

  /** `Friend.findOne({$or: [{sender: a, receiver: b}, {sender: b, receiver: a}]})` finds something. */
  predicate RequestBetween(reqs: map<RequestId, FriendRequest>, a: UserId, b: UserId) {
    exists k | k in reqs ::
      (reqs[k].sender == a && reqs[k].receiver == b) || (reqs[k].sender == b && reqs[k].receiver == a)
  }

  /** Saving a request again with the same sender and receiver keeps the pairs unique. */
  lemma ResaveKeepsPairsUnique(reqs: map<RequestId, FriendRequest>, k: RequestId, q: FriendRequest)
    requires UniquePairs(reqs) && k in reqs
    requires q.sender == reqs[k].sender && q.receiver == reqs[k].receiver
    ensures UniquePairs(reqs[k := q])
  {
  }

  /** A store without a request between `a` and `b` keeps its pairs unique when one is added. */
  lemma {:induction false} AddRequestKeepsPairsUnique(reqs: map<RequestId, FriendRequest>, r: FriendRequest)
    requires UniquePairs(reqs)
    requires r.id !in reqs
    requires !RequestBetween(reqs, r.sender, r.receiver)
    ensures UniquePairs(reqs[r.id := r])
  {
    var reqs' := reqs[r.id := r];
    forall a, b | a in reqs' && b in reqs' && a != b
      ensures reqs'[a].sender != reqs'[b].sender || reqs'[a].receiver != reqs'[b].receiver
    {
      if a == r.id {
        assert b in reqs;
      } else if b == r.id {
        assert a in reqs;
      }
    }
  }

  // ---------------------------------------------------------------------------
  // models/User.js
  // ---------------------------------------------------------------------------

  /**
   * A user. `friends` is not declared by the schema; controllers/userController.js
   * reads and writes it (lines 56, 82-83, 122-123, 212, 342-347).
   */
  datatype User = User(
    id: UserId,
    username: string,
    email: string,
    password: string,
    avatar: Option<string>,
    status: string,
    lastSeen: Option<Time>,
    friends: seq<UserId>,
    createdAt: Time,
    updatedAt: Time)

  /**
   * A new user document: `username`, `email` and `password` are required,
   * `status` defaults to 'offline', both dates default to now.
   */
  function NewUser(id: UserId, username: Option<string>, email: Option<string>, password: Option<string>, now: Time)
    : (r: Option<User>)
    ensures r.Some? <==> RequiredString(username) && RequiredString(email) && RequiredString(password)
    ensures r.Some? ==>
      && r.value.id == id && r.value.username == username.value && r.value.email == email.value
      && r.value.status == "offline" && r.value.lastSeen.None? && r.value.friends == []
      && r.value.createdAt == now && r.value.updatedAt == now
  {
    if RequiredString(username) && RequiredString(email) && RequiredString(password) then
      Some(User(id, username.value, email.value, password.value, None, "offline", None, [], now, now))
    else None
  }

  /** The unique index on `email`. */
  ghost predicate UniqueEmails(users: map<UserId, User>) {
    forall a, b | a in users && b in users && a != b :: users[a].email != users[b].email
  }

  predicate EmailTaken(users: map<UserId, User>, email: string) {
    exists k | k in users :: users[k].email == email
  }

  /** No friends list names the same user twice. */
  ghost predicate FriendListsDistinct(users: map<UserId, User>) {
    forall k | k in users :: Distinct(users[k].friends)
  }

  /** The friends relation is symmetric: each friend of a user lists that user back. */
  ghost predicate FriendsSymmetric(users: map<UserId, User>) {
    forall a, b | a in users && b in users[a].friends :: b in users && a in users[b].friends
  }
}
