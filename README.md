# Chat App Server — a Dafny model of its controllers

This project models the request handlers of an Express/Mongoose/socket.io
chat server:

- sending, listing, deleting, reacting to and reading messages;
- creating, listing, renaming and reading conversations;
- the friend graph and the friend-request life cycle;
- presence status and the user-list pagination;
- validating, optimising, uploading and cleaning up media files;
- the summary folds that group a user's messages by conversation or by the other party.

The database becomes the class `Db.Store`. Each collection (users,
conversations, messages, friend requests) is a `map` field keyed by id. Every
`io.to(room).emit(...)` appends one `Emit(room, payload)` to the store's
`events` log. The handlers become methods that change the store. Each method
states its reply (`Ok(status, body)`, `Err(status, message)`, or `Thrown` for
an exception the handler rethrows), what the store holds afterwards, and the
invariant `Valid()` it keeps:

- every record sits under its own id;
- ids are below the next fresh id;
- e-mails are unique;
- friend lists are symmetric: a user lists another iff the other lists them back;
- each message has at most one reaction per user;
- a friend-request pair (sender, receiver) occurs at most once.

The Mongoose schemas become datatypes with cast functions. The casts model
required fields, enums, defaults and the `timestamps` option: `updatedAt`
moves only when a save changes the document.

Anything outside the process becomes a parameter carrying its outcome:

- the file system, sharp, ffmpeg and Cloudinary (`MediaEnv`, `ImageProbe`, `CloudResult`);
- the clock (`now`);
- the callbacks and file operations of the file helpers (`attempt`, `openOk`, `statOk`, `readOk`, `processOk`).

The authentication middleware (middlewares/authMiddleware.js:18-25) loads
`req.user` before any handler runs. It refuses the request when the user does
not exist. That is why handlers that act on the caller's own record require
`caller in db.users`.

Modules, one per source file plus shared vocabulary:

- `Common`: ids, `Option`, `Result`, `Reply`, JavaScript `trim` and `includes`.
- `Schema`: the Message, Conversation, Friend and User models.
- `Db`: the store, the event payloads, populate and sorted find.
- `MessageController`, `ConversationController`, `UserController`, `MediaController`, `ChatController`.
- `FileUtils`.
- `MessageRoute`, `UserRoute`.

## Model

| member | source | states |
|---|---|---|
| Common.Adjoin | controllers/conversationController.js:41-43 | the caller is a participant afterwards; it is appended at the end only when absent, the existing entries keep their order, and no repeat is introduced |
| Common.AdjoinIdempotent | controllers/userController.js:341-350 | adding an id that is already present changes nothing, so a repeated accept cannot duplicate a friend |
| Common.Trim | controllers/messageController.js:25-26 | `trim()` removes exactly the leading and trailing ECMAScript white space; the result is empty iff the text is all white space |
| Common.TrimIdempotent | controllers/messageController.js:25 | trimming the stored text again changes nothing |
| Common.NotIncludedWithoutFirstChar | controllers/mediaController.js:182 | `includes` of a non-empty pattern fails on a text lacking its first character, which is why the other upload messages map to 500 |
| Schema.ParseMessageType | models/Message.js:23-27 | `messageType` is accepted iff it names one of text, image, video, audio, file, emoji |
| Schema.ParseAttachmentType | models/Message.js:10-16 | an attachment type is accepted iff it names one of image, video, audio, file |
| Schema.NewReaction | models/Message.js:4-8 | a reaction is valid iff its emoji is a non-empty string; it keeps the user and emoji and is stamped with the creation time |
| Schema.CastAttachment | models/Message.js:10-16 | an attachment casts iff `url` is a non-empty string and `type` is one of the four enum values; the fields are kept |
| Schema.CastAttachments | models/Message.js:28 | a list casts iff every attachment casts, element by element and in order |
| Schema.CastMessage | models/Message.js:17-42 | a message saves iff conversation and sender are present, the type is in the enum and every attachment casts; the attachments stored are exactly the cast ones, in order; `text` defaults to '', `messageType` to 'text', `status` to an empty map, `reactions` to [], `isCustomEmoji` to false, and both timestamps to now |
| Schema.SavedMessage | models/Message.js:41 | saving leaves every field as assigned and moves `updatedAt` to now exactly when the document changed |
| Schema.ParseConversationType | models/Conversation.js:11-15 | the type is accepted iff it is 'private' or 'group' |
| Schema.CastConversation | models/Conversation.js:5-32 | a conversation saves iff its type is absent or in the enum; the type defaults to 'private', `lastMessage` is absent, `unreadCount` starts empty, `createdBy` and participants are kept |
| Schema.SavedConversation | models/Conversation.js:30-32 | saving moves `updatedAt` to now exactly when the document changed |
| Schema.NewRequest | models/Friend.js:4-18 | a request keeps its sender and receiver, is 'pending' unless a status is given, and is stamped with the creation time |
| Schema.AddRequestKeepsPairsUnique | models/Friend.js:24 | inserting a request whose (sender, receiver) pair is not yet stored keeps every ordered pair unique |
| Schema.NewUser | models/User.js:5-14 | a user saves iff username, email and password are non-empty strings; status defaults to 'offline' and both dates to now |
| Db.Store.InsertUser | models/User.js:7 | a user whose e-mail is already taken, or who misses a required field, is refused with the store unchanged; otherwise exactly that user is added under a fresh id |
| Db.Store.SaveMessage | controllers/messageController.js:43 | `message.save()` stores the message under its id and keeps every store invariant |
| Db.Store.RemoveMessage | controllers/messageController.js:123 | `message.remove()` drops exactly that message |
| Db.Store.SaveConversation | controllers/conversationController.js:65 | `conversation.save()` stores the conversation under its id and keeps every store invariant |
| Db.Store.SaveRequest | controllers/userController.js:79 | `friendRequest.save()` stores the request under its id when no other request has the same pair |
| Db.Store.SaveUser | controllers/userController.js:201-208 | `User.findByIdAndUpdate` of fields other than id, e-mail and friends replaces that user and keeps every store invariant |
| Db.Store.SaveUsers | controllers/userController.js:85-86 | saving friend lists that stay symmetric, with ids and e-mails intact, keeps every store invariant |
| Db.Store.Publish | controllers/messageController.js:58 | `io.to(room).emit(...)` appends the events, in order |
| Db.Populated | controllers/conversationController.js:12 | populate keeps exactly the participants that still exist |
| Db.PopulatedConversation | controllers/conversationController.js:12-13 | populating replaces only participants and `lastMessage`; a dangling `lastMessage` becomes absent |
| Db.InsertPosition | controllers/conversationController.js:14 | the insertion point splits a sorted list into keys not above and keys above the new one |
| Db.InsertAtPosition | controllers/conversationController.js:14 | inserting there keeps the list sorted and free of repeats |
| Db.FindSorted | controllers/conversationController.js:9-14 | `find(filter).sort(key)`: exactly the matching ids, each once, in ascending key order |
| MessageController.CheckSendBody | controllers/messageController.js:20-28 | the body passes iff a conversation id is given and the trimmed text is non-empty or there are attachments; otherwise the two 400 messages, the missing id first |
| MessageController.NotifyParticipants | controllers/messageController.js:63-67 | one `conversationUpdated` per participant, in participant order |
| MessageController.SendMessage | controllers/messageController.js:6-74 | 400 or 404, or 500 when the schema rejects the message, each with no write; on success 201 with the trimmed message under a fresh id, the conversation's `lastMessage` set to it and `updatedAt` refreshed with `unreadCount` untouched, then `receiveMessage` to the conversation room followed by one `conversationUpdated` per participant |
| MessageController.Deliver | controllers/messageController.js:43-67 | the writes after the checks: the message stored under a fresh id, the conversation's `lastMessage` and `updatedAt` set, users and requests untouched, then `receiveMessage` and one `conversationUpdated` per participant |
| MessageController.GetMessages | controllers/messageController.js:78-100 | 404 for an unknown conversation, 403 for a non-participant; otherwise every message of that conversation, each once, in ascending `createdAt` |
| MessageController.DeleteMessage | controllers/messageController.js:103-136 | 404 for an unknown message, 403 unless the caller sent it (nothing removed); otherwise exactly that message is removed and `messageDeleted` emitted |
| MessageController.Upsert | controllers/messageController.js:151-161 | the user ends with a reaction; an existing reaction keeps its place, owner and date and takes the new emoji, other reactions are untouched; otherwise one reaction is appended |
| MessageController.HasReactionTail | controllers/messageController.js:151-153 | a reaction by another user at the head does not affect whether the user has reacted |
| MessageController.UpsertKeepsOneReactionPerUser | controllers/messageController.js:155-161 | at most one reaction per user is preserved, and the user's reaction carries the new emoji |
| MessageController.UpsertIdempotent | controllers/messageController.js:155-161 | reacting twice with the same emoji is reacting once |
| MessageController.FirstIndexOf | controllers/messageController.js:151-153 | the first index holding the user's reaction, and -1 iff the user has none |
| MessageController.FindReactionIndex | controllers/messageController.js:151-153 | the `findIndex` loop returns the first index holding the user's reaction, -1 iff there is none |
| MessageController.UpsertAtFirstIndex | controllers/messageController.js:155-158 | overwriting the emoji at the index `findIndex` returns is the upsert |
| MessageController.ReactToMessage | controllers/messageController.js:139-179 | 404 for an unknown message; an invalid emoji fails validation on save, giving 500 with nothing stored; otherwise the upsert is saved and `messageReaction` with only the changed reaction is emitted to the conversation room |
| MessageController.MarkedRead | controllers/messageController.js:192 | `status[user]` becomes 'read'; every other entry and every other field is unchanged |
| MessageController.MarkedReadIdempotent | controllers/messageController.js:192 | marking as read twice is marking once |
| MessageController.MarkMessageAsRead | controllers/messageController.js:182-206 | 404 for an unknown message; otherwise the read mark is saved and `messageStatusUpdated` emitted |
| ConversationController.GetConversations | controllers/conversationController.js:4-22 | exactly the conversations listing the caller, populated, each once, by `updatedAt` descending |
| ConversationController.CreateConversation | controllers/conversationController.js:25-78 | 400 when participants are missing or empty; the caller is adjoined; a private pair that already exists is returned with 200 and nothing created; a 400 happens only for missing or empty participants, and with participants a bad type is always rethrown, with nothing stored; otherwise 201 with the new conversation (type defaulting to 'group', `createdBy` the caller) populated |
| ConversationController.RenamedAsWritten | controllers/conversationController.js:92-93 | as written, assigning `name`/`avatar` to a document whose schema lacks them leaves it unchanged |
| ConversationController.Renamed | controllers/conversationController.js:92-93 | `name` and `avatar` change only to truthy values, all other fields are kept, `updatedAt` moves only on a change |
| ConversationController.RenameLost | controllers/conversationController.js:92-93 | a new name is kept by the corrected update and lost by the update as written |
| ConversationController.RenamedIdempotent | controllers/conversationController.js:92-93 | applying the same update twice is applying it once |
| ConversationController.UpdateConversation | controllers/conversationController.js:81-101 | 404 for an unknown conversation; otherwise the renamed conversation is saved and returned, with nothing else changed |
| ConversationController.ReadBy | controllers/conversationController.js:115 | the caller's unread count becomes 0, every other count is kept, and a count already 0 leaves the conversation unchanged |
| ConversationController.MarkAsRead | controllers/conversationController.js:104-122 | 404 for an unknown conversation; otherwise only the caller's count is reset |
| UserRoute.ChatPartners | routes/userRoute.js:23-31 | the set holds exactly the other parties of the messages that involve the user, never the user |
| UserRoute.PartnerOfPrefix | routes/userRoute.js:24-30 | one more message adds exactly its parties other than the user |
| UserRoute.ChatUsersAsWritten | routes/userRoute.js:9-48 | with messages stored by models/Message.js, which keep no receiver, the handler answers 500 iff the user has sent a message, and otherwise an empty list |
| UserRoute.ReceiverlessMessageFails | routes/userRoute.js:28 | one sent message lists its receiver when messages carry one, and gives 500 as written |
| UserController.Without | controllers/userController.js:122 | `filter(id !== x)` removes every occurrence of `x` and nothing else |
| UserController.Pushed | controllers/userController.js:82-86 | a saved push appends the id to that user's stored list and changes nothing else |
| UserController.Befriended | controllers/userController.js:341-350 | two distinct users each gain the other once unless already listed; a user befriending themself, not yet listed, is appended twice, one per save; nothing else changes |
| UserController.BefriendedKeepsSymmetry | controllers/userController.js:341-350 | befriending keeps the friend relation symmetric |
| UserController.BefriendedKeepsDistinct | controllers/userController.js:341-350 | befriending keeps friend lists free of repeats exactly when the two users differ or the user already lists themself |
| UserController.BefriendedIdempotent | controllers/userController.js:341-350 | accepting twice adds no duplicate |
| UserController.Unfriended | controllers/userController.js:122-123 | each of the two users loses the other, and nothing else changes |
| UserController.UnfriendedKeepsSymmetry | controllers/userController.js:122-123 | the corrected removal keeps the relation symmetric |
| UserController.UnfriendedKeepsDistinct | controllers/userController.js:122-123 | removal keeps friend lists free of repeats |
| UserController.PushesBefriend | controllers/userController.js:82-86 | pushing each id onto the other's list, when neither lists the other, is befriending (a self-add appends twice), and keeps symmetry, ids and unique e-mails |
| UserController.FriendsOnlyChange | controllers/userController.js:82-86 | changing only friend lists keeps ids and unique e-mails |
| UserController.UnfriendedAsWritten | controllers/userController.js:123 | as written the friend's list is filtered with a string-to-ObjectId `!==`, so it keeps the caller |
| UserController.UnfriendedAsWrittenBreaksSymmetry | controllers/userController.js:122-123 | as written, removing a friend breaks symmetry; the corrected removal keeps it |
| UserController.AddFriendAsWritten | controllers/userController.js:43-107 | with the User schema as written, `friends` is undefined, so an existing target gives 500 and an unknown one 404 |
| UserController.AddFriendAsWrittenNeverSucceeds | controllers/userController.js:56 | as written `addFriend` never succeeds |
| UserController.AcceptFriendRequestAsWritten | controllers/userController.js:323-361 | as written: 404 and 403 with nothing written; otherwise the request is saved 'accepted', then 500 with no event when both users exist, or 200 and `friendRequestAccepted` when one is missing |
| UserController.AcceptWrittenThenFails | controllers/userController.js:337-342 | as written, accepting a request between two existing users answers 500 although the request is stored as accepted, with no list changed and no event |
| UserController.UpdateStatusAsWritten | controllers/userController.js:193-224 | as written: 400 for a bad status with nothing written; otherwise status and `lastSeen` are stored, then 500 with no event |
| UserController.StatusWrittenThenFails | controllers/userController.js:201-212 | as written, a valid status change answers 500 although the new status is stored |
| UserController.AddFriend | controllers/userController.js:43-107 | 404 for an unknown target; 400 when already friends or a request exists in either direction; otherwise 200 with a new 'accepted' request, both users befriended, and `newFriend` emitted to the target |
| UserController.Befriend | controllers/userController.js:72-94 | the writes of `addFriend`: an accepted request under a fresh id, both users befriended, `newFriend` emitted, conversations and messages untouched |
| UserController.PushFriends | controllers/userController.js:82-86 | the two unconditional pushes give the befriended users and keep every store invariant |
| UserController.RemoveFriend | controllers/userController.js:110-138 | 404 for an unknown target; otherwise the corrected removal is saved; then 200 and `friendRemoved` to the target, except that a user removing themself from their own list gets 500 from the stale second save and no event |
| UserController.NotifyFriends | controllers/userController.js:212-218 | one `userStatusChanged` per friend, in list order |
| UserController.UpdateStatus | controllers/userController.js:193-224 | any status but 'online'/'offline' gives 400 with no change; otherwise status and `lastSeen` are set and every friend is notified |
| UserController.GetChatUsers | controllers/userController.js:245-284 | exactly the stored users among the other parties of the user's messages, never the user |
| UserController.WithStatus | controllers/userController.js:337 | a request takes the new status, keeps all else, and `updatedAt` moves only on a change |
| UserController.SendFriendRequest | controllers/userController.js:287-320 | 400 when a request exists in either direction; otherwise 201 with a new 'pending' request and `newFriendRequest` emitted to the receiver |
| UserController.AcceptFriendRequest | controllers/userController.js:323-361 | 404 for an unknown request, 403 for anyone but its receiver (nothing changed); otherwise 'accepted', both users (when both exist) befriended as `Befriended` states, and `friendRequestAccepted` emitted to the sender |
| UserController.AddIfMissing | controllers/userController.js:341-350 | the guarded pushes, each guard reading the loaded document, give the befriended users and keep every store invariant |
| UserController.RejectFriendRequest | controllers/userController.js:363-379 | 404 for an unknown request, 403 for anyone but its receiver; otherwise 'rejected' and nothing else changed |
| UserController.CeilDiv | controllers/userController.js:428 | `Math.ceil(n / d)` for either sign of `d` |
| UserController.Paginate | controllers/userController.js:396-435 | `page` defaults to 1 and `limit` to 10 (also for 0), `skip = (page-1)*limit`, and for a positive limit `totalPages` is the least count of pages holding `total` users |
| UserController.PagesCoverAll | controllers/userController.js:398-401 | every user index lies on exactly the page numbered from its position, and that page is within `1..totalPages` |
| FileUtils.ValidateFileMetadata | utils/fileUtils.js:110-143 | a missing file gives exactly the no-file error; otherwise only the size error for the limit in use and the type error can appear, each at most once: the size error iff size exceeds the limit, the type error iff the type is not allowed, size first; `isValid` iff no error; the defaults are 10 MiB and seven types |
| FileUtils.ValidateBoundary | utils/fileUtils.js:131-133 | exactly 10 MiB passes, one byte more fails |
| FileUtils.Backoff | utils/fileUtils.js:78-80 | the wait after failed call `j` is `delay * 2^j` |
| FileUtils.BackoffDoubles | utils/fileUtils.js:78-80 | the first wait is `delay` and each later wait is twice the one before |
| FileUtils.RetryWithBackoff | utils/fileUtils.js:70-85 | at most `maxRetries` calls; the first success is returned; waits double after each failure except the last; when all fail the last error is thrown |
| FileUtils.OffsetIsProduct | utils/fileUtils.js:43 | the offset of chunk `i` is `i * CHUNK_SIZE`, the position passed to `read` |
| FileUtils.ChunkCount | utils/fileUtils.js:38 | no chunk exactly for an empty file; otherwise the last chunk starts inside the file and the chunks' offsets reach its end |
| FileUtils.ChunkCountIsCeil | utils/fileUtils.js:38 | the count is `Math.ceil(size / CHUNK_SIZE)`: the least `c` with `c * CHUNK_SIZE >= size` |
| FileUtils.ChunkInFile | utils/fileUtils.js:38-43 | every chunk index below the count starts inside the file |
| FileUtils.ChunkAt | utils/fileUtils.js:42-43 | chunk `i` holds the bytes from offset `i * CHUNK_SIZE` on, at most `CHUNK_SIZE` of them, and exactly that many when the file has them |
| FileUtils.JoinedStep | utils/fileUtils.js:41-45 | appending the chunk read at the next offset extends the bytes read so far by exactly that chunk, keeping them a prefix of the file |
| FileUtils.ReadStep | utils/fileUtils.js:41-45 | each iteration keeps every chunk at its own offset with its index and the total, and the chunks together a prefix of the file |
| FileUtils.ReadAll | utils/fileUtils.js:38-45 | after `totalChunks` reads the chunks join to the whole file |
| FileUtils.ProcessFileInChunks | utils/fileUtils.js:35-49 | chunks are read and processed in increasing order, each read at its offset with its index and the total, until a read or a call fails, a failed read processing nothing; the run throws iff some chunk below the count fails to read or to process; the chunks of a full run join to the file; the handle is closed once the `try` is entered |
| MediaController.SameLimitsAsFileUtils | controllers/mediaController.js:14-17 | the upload limits equal the file helper's defaults: 10 MiB and the same seven types |
| MediaController.ValidateFile | controllers/mediaController.js:20-34 | a file passes iff present, at most 10 MiB and of an allowed type; missing, too large and bad type give their messages in that order |
| MediaController.UploadErrorStatus | controllers/mediaController.js:182 | 413 exactly when the message contains 'quá lớn', 500 otherwise |
| MediaController.ValidationStatus | controllers/mediaController.js:182 | a validation failure gives 413 iff the file is too large |
| MediaController.TooLargeIs413 | controllers/mediaController.js:182 | the size message is answered with 413 |
| MediaController.NoFileIs500 | controllers/mediaController.js:182 | the missing-file message is answered with 500 |
| MediaController.BadTypeIs500 | controllers/mediaController.js:182 | the bad-type message is answered with 500 |
| MediaController.OptimizedPath | controllers/mediaController.js:69 | the output path inserts 'optimized-' before the base name and differs from the input |
| MediaController.OptimizeImage | controllers/mediaController.js:61-108 | the input path is kept, with no deletion, when the image is under 1 MiB or any step fails; otherwise the optimised path is returned for deletion |
| MediaController.FilesToDelete | controllers/mediaController.js:156-160 | the original is listed iff it is to be deleted, the processed path iff it differs, the thumbnail iff present; nothing empty, at most three |
| MediaController.Upload | controllers/mediaController.js:111-185 | validation failure stops before any file work; a failure deletes nothing; success holds iff the file is valid, the cloud upload succeeds, and no thumbnail was wanted or its upload succeeded; a failed upload or thumbnail upload ends with its message; on success the media carries the upload's fields and the thumbnail URL when one was uploaded, and the files deleted are the `filesToDelete` list |
| MediaController.UnoptimisedImageIsKept | controllers/mediaController.js:156-160 | an image that was not optimised is not deleted, and with a working upload it succeeds with the upload's fields and no thumbnail |
| MediaController.OptimisedImageCleansUp | controllers/mediaController.js:156-168 | after an optimised upload the original and the optimised copy are deleted |
| MediaController.VideoCleansUp | controllers/mediaController.js:131-168 | a video whose thumbnail was made and uploaded answers with the thumbnail's URL and deletes both the original and the thumbnail |
| MediaController.VideoThumbnailUploadFails | controllers/mediaController.js:148-153 | a video whose thumbnail upload fails ends with that failure and deletes no file |
| MediaController.VideoWithoutThumbnail | controllers/mediaController.js:131-168 | a video without a thumbnail still succeeds, with no thumbnail URL, and deletes only its original |
| MediaController.ProcessUpload | controllers/mediaController.js:116-168 | the step-by-step reassignments compute the upload outcome |
| MediaController.UploadMedia | controllers/mediaController.js:111-185 | 200 with the media, or the error status with the message; a too-large file gives 413 |
| MediaController.EntryFor | controllers/mediaController.js:194-270 | a file yields media iff its upload succeeds, otherwise an error entry naming the file |
| MediaController.UploadMultipleMedia | controllers/mediaController.js:188-278 | 400 with no files; otherwise one entry per file, in input order, a failure isolated to its own entry |
| MediaController.ProcessEntry | controllers/mediaController.js:194-270 | one turn of the batch loop yields that file's entry |
| MessageRoute.SenderOf | routes/messageRoute.js:26-30 | a message has a sender exactly when its sender still exists |
| MessageRoute.Lookup | routes/messageRoute.js:35 | finds the entry of a conversation, or reports that none exists |
| MessageRoute.LatestPerConversation | routes/messageRoute.js:23-57 | one entry per conversation among messages with an existing sender, each made by the conversation's first message and showing its newest one (ties keep the first seen), in order of first appearance |
| MessageRoute.FoldMessage | routes/messageRoute.js:25-55 | one turn of the loop (skip, open an entry, or keep the newer message) preserves what the fold has built |
| MessageRoute.FirstUnique | routes/messageRoute.js:35-46 | a conversation has one first message |
| MessageRoute.NewestFirstKeepsFirst | routes/messageRoute.js:47-54 | on newest-first input, the newest message is the first one |
| MessageRoute.OwnMessagesOnly | routes/messageRoute.js:14-16 | when only the user's messages are considered, every entry's sender is the user |
| ChatController.OtherParty | controllers/chatController.js:21-23 | the receiver when the user sent the message, otherwise the sender |
| ChatController.Has | controllers/chatController.js:25 | `Map.has`: some entry is for the party |
| ChatController.GroupByOtherParty | controllers/chatController.js:5-39 | 500 iff some message lacks its sender, or its receiver when the user sent it; otherwise one entry per other party, made by that party's first message and never overwritten, in order of first appearance |
| ChatController.NewestFirstGivesNewest | controllers/chatController.js:13 | on newest-first input, each entry shows that party's newest message |

## Left out

- Socket.io connection handlers, route wiring, Swagger documents, the seed script and authentication (bcrypt, jwt) are outside the model. The middleware's guarantee appears only as the `caller in db.users` precondition.
- Database queries become map reads. The model leaves out search by `$regex`, projections such as `select('-password')`, `countDocuments`, and invalid ObjectId strings. Their cast errors are 500s, except in `createConversation`, whose `catch` rethrows them (controllers/conversationController.js:74-77), an outcome `Thrown` would model.
- `GetConversations` and `GetMessages` do not model the `catch` for a failed query, since a map read cannot fail.
- MessageController.GetMessages: the order of messages with equal `createdAt` is not stated. The database does not fix it either.
- MessageController.GetMessages: the `populate('senderId', 'username avatar')` is left out (controllers/messageController.js:94). The messages carry the bare sender id, where the source shows the sender's `username` and `avatar`, or null for a deleted sender.
- MessageController.SendMessage: the `populate('senderId', 'username avatar')` of the saved message is left out. `receiveMessage` and the 201 body carry the stored message with the bare sender id.
- MessageController.SendMessage: a JSON `null` text is not representable here. It gets past the destructuring default, `text.trim()` throws, and the handler answers 500 (controllers/messageController.js:8, 25).
- MessageController.DeleteMessage and MessageController.ReactToMessage emit to the room named by the conversation id. The source passes the ObjectId `message.conversationId` to `io.to` (controllers/messageController.js:126, 166), unlike the `.toString()` at :196; whether socket.io matches that room is not modelled.
- MessageController.MarkMessageAsRead: the body's `userId` is modelled as a present string. A missing or non-string `userId` makes `status.set` throw and gives 500 (controllers/messageController.js:184, 192).
- MessageController.DeleteMessage: the Cloudinary `destroy` of a `media` field is left out, because models/Message.js declares no `media`. `message.remove()` is modelled as deleting the document; that method exists only in Mongoose versions before 7, and the version in use is not part of this model.
- MessageController.ReactToMessage: a failed save is modelled only for an invalid emoji.
- ConversationController.UpdateConversation: routes/conversationRoute.js binds `:id` while the handler reads `conversationId`. The model takes the id the handler intends to read.
- ConversationController.CreateConversation: a `participants` value that is not an array is not representable here.
- UserController.GetChatUsers and UserRoute.ChatPartners model the query result over messages that carry a receiver. The as-written behaviour is in the Findings.
- UserRoute.ChatUsersAsWritten assumes Mongoose's `strictQuery` is off, so the `receiverId` clause of the filter is kept and matches nothing. With `strictQuery` on (the Mongoose 6 default), that clause is dropped, every message of any sender matches, and any stored message gives 500. The Mongoose version in use is not part of this model.
- UserController.Paginate: `parseInt`, `skip` and `limit` are kept as arithmetic only. A negative page or limit is passed on as written; the database's reaction to it is not modelled.
- UserController.SendFriendRequest: it takes sender and receiver from the body as given. Missing or malformed ids are not modelled.
- UserController.AcceptFriendRequest: the two `User.findById` calls are modelled as map reads. A deleted user leaves the friend lists unchanged.
- UserController.AcceptFriendRequest, UserController.AddFriend and UserController.Befriended: a user who befriends themself (a request from a user to themself, or `addFriend` of one's own id) is listed twice on their own list, because the two loaded documents each push and save. So the store invariant keeps friend lists symmetric but does not forbid repeats.
- UserController.RemoveFriend: the 500 of a self-removal carries only the start of Mongoose's `VersionError` message; the document id, version and modified paths it names are not modelled, nor is `__v` itself.
- UserController.AcceptFriendRequest and UserController.UpdateStatus model the handlers with `friends` declared. As written they write first and then throw; see AcceptFriendRequestAsWritten, UpdateStatusAsWritten and the Findings.
- The `users` search handler (controllers/userController.js:14-22) and `getAllUsers`' query are left out. Only the pagination arithmetic is modelled.
- The thumbnail helper (ffmpeg), sharp's resizing, Cloudinary upload and destroy, and `fs.unlink` are left out. Their outcomes are parameters, and the list of files to delete is returned rather than unlinked; a failed unlink is not modelled.
- MediaController.OptimizedPath does not normalise the way `path.join` does: it keeps `.` segments, `..` segments and repeated `/`. For `./a.jpg` the source gives `optimized-a.jpg` and the model `./optimized-a.jpg`; for a path without such segments, such as multer's `uploads/<name>`, they agree.
- `getMediaInfo` and `deleteMedia` (controllers/mediaController.js:281-327) only forward to Cloudinary and are left out.
- `setTimeout` waits are recorded as numbers, not slept.
- SHA-256 hashing, stream helpers and `cleanupTempFiles` (utils/fileUtils.js:18-27, 57-61, 92-102) are left out.
- FileUtils.ValidateFileMetadata returns error kinds, not their message strings.
- ChatController.GroupByOtherParty: the error's `details` text is left out, and so is the Chat model itself. Its messages are described by the fields the handler reads.
- MessageRoute.LatestPerConversation: each entry also carries its conversation id, the key of the handler's `Map`, which the response (`Array.from(map.values())`) does not include.
- MessageRoute.LatestPerConversation: the user's `name` field is omitted from the sender summary. The User schema has `username` and no `name`, so it is always absent.
- The User record carries a `friends` list although models/User.js declares none. The corrected operations need it; see the Findings.
- The Conversation record carries `name` and `avatar` although models/Conversation.js declares neither; see the Findings.

## Findings

| source | as written | input that shows it | evidently intended | confidence | as-written member | corrected member |
|---|---|---|---|---|---|---|
| controllers/userController.js:123 | the friend's list is filtered by comparing each id's string form, `id.toString()`, with the ObjectId `req.user._id` using `!==`, which is always true, so the caller stays in the friend's list | two users who are friends; the first removes the second | both users lose each other, keeping friendship symmetric | not executed | UserController.UnfriendedAsWrittenBreaksSymmetry | UserController.UnfriendedKeepsSymmetry |
| models/User.js:5-14 | the User schema declares no `friends`, so `user.friends.includes(friendId)` at controllers/userController.js:56 reads a property of undefined | any existing target of `addFriend` | users carry a friend list that add, accept, remove and status updates maintain | not executed | UserController.AddFriendAsWrittenNeverSucceeds | UserController.AddFriend |
| controllers/conversationController.js:92-93 | `name` and `avatar` are assigned but models/Conversation.js declares neither, so a strict schema does not save them | an update with a non-empty name | the supplied truthy fields are stored | not executed | ConversationController.RenameLost | ConversationController.UpdateConversation |
| routes/userRoute.js:28 | `message.receiverId.toString()` is read although models/Message.js declares no `receiverId`, so it throws on the first matched message (also controllers/userController.js:264) | a user who has sent one message | the user's chat partners are listed | not executed | UserRoute.ReceiverlessMessageFails | UserRoute.ChatPartners |
| controllers/userController.js:337-342 | the request is saved 'accepted' before `sender.friends.includes(...)` reads a property of the undefined `friends` | a pending request between two existing users, accepted by its receiver | both users join each other's lists, `friendRequestAccepted` is sent and 200 answered | not executed | UserController.AcceptWrittenThenFails | UserController.AcceptFriendRequest |
| controllers/userController.js:201-212 | `findByIdAndUpdate` stores the new status before `user.friends.forEach` reads a property of the undefined `friends` | any user setting the status 'online' | the friends are told of the change and the user is returned | not executed | UserController.StatusWrittenThenFails | UserController.UpdateStatus |
