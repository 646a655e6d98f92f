# A verified model of a social backend's messaging, notification and profile core

The system is an HTTP and WebSocket backend for a small social network. Users
befriend each other, exchange direct and group messages, and receive
notifications. This project models the core of that backend in Dafny:

- **Conversations** (`conversation.dfy`). A participant row moves from PENDING
  to ACCEPTED, or is deleted on reject. Reading messages pages backwards from a
  cursor, newest first, and returns the page oldest first. The same read marks
  the page's unread messages as seen, resets the reader's unread counter and
  sends a `MESSAGES_SEEN` frame to the other ACCEPTED members.
- **Notification service** (`notification_service.dfy`). For each social event
  it decides who gets a live WebSocket frame and which durable notification
  record is written. The events are: a friend came online or went offline, a
  friend request was received or accepted, and a message request was received
  or accepted.
- **Notification handlers** (`notification_controller.dfy`). These create a
  record, list a user's records page by page with totals, mark one or all
  records read, and count the unread ones.
- **Profiles** (`profile.dfy`). A visitor sees a profile field only when its
  privacy level discloses it to them. The privacy update is a merge. The
  profile update checks lengths, then trims each text field or stores null.
- **Middleware** (`validation.dfy`, `auth.dfy`). These are the signup and login
  body checks, and Bearer-token authentication.

The shared state is a `Store` class in `store.dfy`. Its fields are the tables
(users with a username index, friendships, conversations, participants,
messages, notifications with the store's id counter), the registry of live
sockets `wsClients`, and the log `sent` of every frame delivered. Handlers are
methods on a `Store` whose `modifies` clauses name the fields they write.
`Store.Valid()` is the invariant every handler keeps:

- each user row sits under its own id, and usernames form an index;
- every participant row belongs to a conversation whose roster lists it;
- no roster lists a user twice;
- unread counters are never negative;
- message ids are unique, and notification ids are unique.

A socket is open when its `readyState` is 1. Its `send` may throw. The
store's `create` of a notification may fail; this is the `persistFails`
parameter. Each handler reads the clock once, as `now`.

Behaviour of the code that the model keeps as written:

- **A failing send stops the presence loop.** In the presence notifications,
  a `send` that throws leaves the loop at once, because the `try` wraps the
  whole loop. The remaining friends get no frame (`Backend.Fanout`,
  `Backend.FanoutStopsAtThrow`).
- **A failing send skips the record.** In the four request notifications, a
  throwing `send` also skips the durable record that would have followed it
  (`NotificationService.SendThenRecord`).
- **Marking an already-read notification re-stamps it.** Marking a single
  notification read sets `isRead` again and sets `readAt` to the new time, even
  when the row was already read.
- **`seenBy` is a boolean.** In `MESSAGES_SEEN`, `seenBy` is the comparison of
  the conversation's type name with the reader's id, so it is a boolean
  (`Conversations.SeenEvent`).
- **Stamping comes before sending.** In `getMessages`, the seen stamps and the
  counter reset are written before the frames are sent. A send that throws
  therefore turns the reply into a 500 after those writes.

## Model

| member | source | states |
|---|---|---|
| Common.Take | src/controllers/notificationController.ts:61 | the first `n` elements, or all of them when there are fewer: a prefix of length min(n, size) |
| Common.Drop | src/controllers/notificationController.ts:60 | the elements after the first `n`, in order: position i of the result is position n + i of the input |
| Common.Reverse | src/controllers/conversation/conversationController.ts:171 | the same elements in the opposite order: position i holds the element at size - 1 - i |
| Common.SortDesc | src/controllers/notificationController.ts:57-59 | a permutation of the rows (same elements, same multiplicities) sorted by key, largest first |
| Common.WindowFacts | src/controllers/notificationController.ts:55-61 | a window `[skip, skip + limit)` of a descending arrangement of the rows is still descending and holds only rows |
| Common.SortedPermutationUnique | src/controllers/notificationController.ts:57-59 | a descending arrangement equals every strictly descending arrangement of the same elements, so without equal keys the sort order is unique |
| Backend.Send | src/services/notificationService.ts:120-132 | one step of "if the socket is open, send": a frame is logged exactly when the target's socket is open and its send does not throw, and a throwing send is reported |
| Backend.SendAll | src/services/notificationService.ts:35-50 | the send loop over a list of targets leaves the frame log extended by exactly `Fanout` of the targets and reports whether a send threw |
| Backend.FanoutSound | src/services/notificationService.ts:35-50 | every frame a send loop delivers is the event itself, goes to one of the listed targets whose socket is open and does not throw, and there are at most as many frames as targets |
| Backend.FanoutComplete | src/services/notificationService.ts:35-50 | when no open target's send throws, the loop does not throw and the recipients are exactly the open targets, in list order, each once |
| Backend.FanoutStopsAtThrow | src/services/notificationService.ts:35-53 | once a send has thrown, targets later in the list are never reached |
| Backend.FanoutSnoc | src/controllers/conversation/conversationController.ts:151-165 | extending a send loop by one more target appends exactly that target's step |
| Backend.FreshId | src/controllers/notificationController.ts:18-31 | the id given to a newly created record is longer than every id handed out before, so it is new |
| Notifications.Materialize | src/controllers/notificationController.ts:18-31 | the created row copies each given field, defaults the priority to MEDIUM, and starts unread with no read time |
| Notifications.CreateNotification | src/controllers/notificationController.ts:5-39 | on success exactly one row is appended under a fresh id and returned; when the store's create fails the result is null and the table is unchanged |
| Notifications.Matching | src/controllers/notificationController.ts:50-53 | a row is selected exactly when it belongs to the user and, with `unreadOnly` = 'true', is unread |
| Notifications.MatchingCount | src/controllers/notificationController.ts:74-76 | the number of rows listed is the number of table positions whose row passes the filter, duplicates included |
| Notifications.UnreadCount | src/controllers/notificationController.ts:170-195 | the count is the number of table positions holding an unread row of the user; it is zero exactly when every row of the user is read, and never exceeds the table size |
| Notifications.CeilDiv | src/controllers/notificationController.ts:93 | `pages` pages of `limit` rows hold all `total` rows and one page fewer would not (the ceiling of the quotient) |
| Notifications.Skip | src/controllers/notificationController.ts:48 | the skip is negative exactly when the page is below 1 and the limit positive |
| Notifications.Ordered | src/controllers/notificationController.ts:55-61 | the listed rows are a permutation of the matching rows, sorted by creation time, newest first |
| Notifications.ListNotifications | src/controllers/notificationController.ts:41-106 | the listing fails with 500 exactly when the skip is negative; otherwise it returns at most `limit` of the user's matching rows newest first, the total of matching rows, the user's unread count, and a page count that is null exactly for a zero limit and otherwise the ceiling of total over limit |
| Notifications.ListingAt | src/controllers/notificationController.ts:55-97 | a successful listing's rows are the window `[skip, skip + limit)` of the ordered matching rows; its total is the number of table positions that pass the filter, with the other promised totals |
| Notifications.PageIsSlice | src/controllers/notificationController.ts:46-61 | under the model's order among equal `createdAt` (table order), page `p` (from 1) is exactly the slice `[(p-1)*limit, p*limit)` of the ordered matching rows, cut at the end; see `PageOfTieFreeOrder` for the store's own orders |
| Notifications.PageOfTieFreeOrder | src/controllers/notificationController.ts:55-61 | when the matching rows have pairwise different `createdAt`, every descending order the store may return gives the same page as the model: the window `[skip, skip + limit)` of that order |
| Notifications.UnreadCountIgnoresFilter | src/controllers/notificationController.ts:78-83 | the reported unread count does not depend on the `unreadOnly` filter |
| Notifications.MarkAllRead | src/controllers/notificationController.ts:114-124 | mark-all changes exactly the user's unread rows, setting them read with `readAt` = now, and leaves every other row as it was |
| Notifications.MarkOneRead | src/controllers/notificationController.ts:145-153 | marking one row read changes only the row with that id, setting it read with `readAt` = now |
| Notifications.MarkAsRead | src/controllers/notificationController.ts:108-168 | `markAll` or the id 'all' marks all the user's unread rows and reports how many were unread; otherwise a row the caller does not own is a 404 with no change, and an owned row is marked read |
| Notifications.MarkAllLeavesNoneUnread | src/controllers/notificationController.ts:114-129 | after mark-all the user has no unread notification |
| Notifications.MarkAllKeepsOthersUnread | src/controllers/notificationController.ts:115-119 | mark-all does not change any other user's unread count |
| Notifications.MarkOneIdempotentRead | src/controllers/notificationController.ts:145-153 | marking a row read again keeps it read, and no other row changes |
| Notifications.KeepsIds | src/controllers/notificationController.ts:115-153 | rewriting rows in place without touching their ids keeps ids unique and bounded by the counter |
| NotificationService.NameFallback | src/services/notificationService.ts:126 | the shown name is the display name when it is set and non-empty, else the username; it is the name the four request outcomes put in their frames (`senderName`, `accepterName`) and at the head of their record bodies |
| NotificationService.Truncate | src/services/notificationService.ts:264-266 | a truncated text is the original when it fits, and otherwise its first `n` characters followed by "..." |
| NotificationService.PreviewBound | src/services/notificationService.ts:257 | the live message preview has at most 53 characters, starts with the message's own first characters, and is the message itself when it has at most 50 |
| NotificationService.InviteNoteBounds | src/services/notificationService.ts:264-284 | the record's body cuts the message at 80 characters plus "...", and its metadata preview keeps at most the first 100 |
| NotificationService.SendThenRecord | src/services/notificationService.ts:120-149 | the record is written exactly when the live send did not throw, whether or not the target was connected |
| NotificationService.Befrienders | src/services/notificationService.ts:22-33 | the friends told about presence are exactly the users whose friendship row names the user as `friendId` |
| NotificationService.PresenceOutcome | src/services/notificationService.ts:5-54 | presence changes write no record; an unknown user, or one whose online privacy is 'private', produces nothing; every frame is the presence event and goes to a befriending user with an open socket |
| NotificationService.PresenceReachesEveryOpenFriend | src/services/notificationService.ts:35-50 | when no send throws, the recipients are exactly the open targets of the friendship rows naming the user, in table order: one frame per friendship row |
| NotificationService.NotifyFriendsPresence | src/services/notificationService.ts:5-105 | the frame log grows by exactly the presence outcome, and nothing else changes |
| NotificationService.NotifyFriendsUserOnline | src/services/notificationService.ts:5-54 | as `NotifyFriendsPresence` with the FRIEND_ONLINE frame |
| NotificationService.NotifyFriendsUserOffline | src/services/notificationService.ts:56-105 | as `NotifyFriendsPresence` with the FRIEND_OFFLINE frame |
| NotificationService.FriendRequestReceivedOutcome | src/services/notificationService.ts:107-153 | an unknown sender produces nothing; a receiver whose open socket throws gets nothing and no record; an open receiver that does not throw gets exactly one FRIEND_REQUEST_RECEIVED frame with the sender's id, shown name, username and the request id; unless the send throws, the record is `FriendRequestReceivedInput` of the sender, so a closed socket still gets it |
| NotificationService.FriendRequestReceivedInput | src/services/notificationService.ts:134-149 | the record is addressed to the receiver, comes from the sender, is about the request, has MEDIUM priority, reads '<shown name> sent you a friend request', and it has related type 'friend_request' and link '/friends/requests', and its metadata has exactly the keys senderUsername, senderDisplayName and requestId, holding the sender's username, display name (or null) and the request id |
| NotificationService.NotifyFriendRequestReceived | src/services/notificationService.ts:107-153 | the frame log and the notification table grow by exactly that outcome |
| NotificationService.FriendRequestAcceptedOutcome | src/services/notificationService.ts:155-200 | an unknown accepter produces nothing; a sender whose open socket throws gets nothing and no record; an open sender that does not throw gets exactly one FRIEND_REQUEST_ACCEPTED frame with the accepter's id, shown name and username; unless the send throws, the record is `FriendRequestAcceptedInput` of the accepter |
| NotificationService.FriendRequestAcceptedInput | src/services/notificationService.ts:183-196 | the record is addressed to the original sender, comes from the accepter, has no related id, related type 'friend_request', link '/friends' and MEDIUM priority, reads '<shown name> accepted your friend request', and its metadata has exactly the keys accepterUsername and accepterDisplayName, holding the accepter's username and display name (or null) |
| NotificationService.NotifyFriendRequestAccepted | src/services/notificationService.ts:155-200 | the frame log and the notification table grow by exactly that outcome |
| NotificationService.ConversationRequestOutcome | src/services/notificationService.ts:202-289 | nothing happens unless the sender exists, is not already a friend of the receiver, and the receiver's row is PENDING; then a receiver whose open socket throws gets nothing and no record; an open receiver that does not throw gets exactly one CONVERSATION_REQUEST_RECEIVED frame whose preview is the message cut at 50 characters plus '...' (`Truncate(content, 50)`, at most 53 characters); unless the send throws, the record is `ConversationInviteInput` |
| NotificationService.SilentUnlessRequest | src/services/notificationService.ts:218-245 | each of the three early returns (unknown sender, sender already a friend, receiver's row missing or not PENDING) sends nothing and records nothing |
| NotificationService.ConversationInviteInput | src/services/notificationService.ts:263-285 | the record is addressed to the receiver, comes from the sender, is about the conversation, has related type 'conversation', HIGH priority and the conversation's inbox link; its body is the shown name, ': ' and the message cut at 80; its metadata holds the sender's username and display name (or null), the conversation id, the first 100 characters as preview, and the message-request flag |
| NotificationService.NotifyConversationRequestReceived | src/services/notificationService.ts:202-289 | the frame log and the notification table grow by exactly that outcome |
| NotificationService.ConversationAcceptedOutcome | src/services/notificationService.ts:291-343 | an unknown accepter produces nothing; an inviter whose open socket throws gets nothing and no record; an open inviter that does not throw gets exactly one CONVERSATION_REQUEST_ACCEPTED frame with the accepter's id, shown name, username and the conversation; unless the send throws, the record is `ConversationAcceptedInput` |
| NotificationService.ConversationAcceptedInput | src/services/notificationService.ts:323-339 | the record is addressed to the inviter, comes from the accepter, is about the conversation, has related type 'conversation', MEDIUM priority and the inbox link, reads '<shown name> accepted your message request', and its metadata has exactly the keys accepterUsername, accepterDisplayName and conversationId, holding the accepter's username, display name (or null) and the conversation id |
| NotificationService.NotifyConversationRequestAccepted | src/services/notificationService.ts:291-343 | the frame log and the notification table grow by exactly that outcome |
| NotificationService.AtMostOneRecord | src/services/notificationService.ts:134-149 | each event writes at most one record, and writes one exactly when it asks for one and the store's create succeeds |
| NotificationService.OfflineReceiverStillRecorded | src/services/notificationService.ts:248-285 | a receiver with no open socket gets no frame but still gets the durable record of a message request |
| Conversations.UserConversations | src/controllers/conversation/conversationController.ts:5-49 | a conversation is listed exactly when the user has a participant row in it, whatever its status |
| Conversations.OthersAccepted | src/controllers/conversation/conversationController.ts:143-149 | the members told are exactly the roster's other users whose row is ACCEPTED |
| Conversations.FirstOtherAccepted | src/controllers/conversation/conversationController.ts:238-240 | the first listed other ACCEPTED member is the first roster entry that qualifies |
| Conversations.Visible | src/controllers/conversation/conversationController.ts:78-87 | a message is fetched exactly when it belongs to the conversation, is not deleted for all, and is older than the cursor when one is given |
| Conversations.NewestFirst | src/controllers/conversation/conversationController.ts:91-100 | the page holds min(`limit`, number shown) of the conversation's shown messages, no message more often than the table holds it, newest first |
| Conversations.StoreFetchIsNewestFirst | src/controllers/conversation/conversationController.ts:91-100 | when the shown messages have pairwise different `createdAt`, the page of every descending order the store may return is the model's page |
| Conversations.ShortPageIsWhole | src/controllers/conversation/conversationController.ts:91-100 | when at most `limit` messages are fetchable, the page holds all of them |
| Conversations.PageIsNewest | src/controllers/conversation/conversationController.ts:91-100 | no fetchable message left off the page is newer than one on it |
| Conversations.Unread | src/controllers/conversation/conversationController.ts:106-108 | a page message is unread exactly when someone else sent it and it has no `seenAt` |
| Conversations.ToMark | src/controllers/conversation/conversationController.ts:103-108 | messages are marked only when marking is asked for ('true' or left out) and the reader has ACCEPTED; then exactly the page's unread ones |
| Conversations.StampAll | src/controllers/conversation/conversationController.ts:111-116 | every row keeps its place, and a row is stamped with `seenAt` = now exactly when its id is among the given ids |
| Conversations.MarkedExactlyUnread | src/controllers/conversation/conversationController.ts:110-116 | stamping changes exactly the table rows that are unread on the page, and only their `seenAt`, from null to now |
| Conversations.StampedPageHasNoUnread | src/controllers/conversation/conversationController.ts:119-123 | once a page's unread messages are stamped, none of the page is unread |
| Conversations.FetchAfterStamp | src/controllers/conversation/conversationController.ts:91-123 | fetching from the stamped table gives the stamped page, because filtering and ordering ignore `seenAt` |
| Conversations.SecondFetchMarksNothing | src/controllers/conversation/conversationController.ts:102-126 | under the model's order among equal `createdAt` (which fixes the page), repeating the same read right after a marking read marks nothing |
| Conversations.SecondStoreFetchMarksNothing | src/controllers/conversation/conversationController.ts:91-126 | when the shown messages have pairwise different `createdAt`, a second read after a marking read marks nothing, whichever descending orders the store returns to the two reads |
| Conversations.ReturnedOldestFirst | src/controllers/conversation/conversationController.ts:171 | the reply lists the page oldest first, the page reversed |
| Conversations.ResetUnread | src/controllers/conversation/conversationController.ts:129-137 | the counter reset keeps the status, brings a non-negative counter to 0, and never raises it |
| Conversations.SeenEvent | src/controllers/conversation/conversationController.ts:154-163 | the seen frame names the conversation and carries exactly the marked ids and their number |
| Conversations.SeenFramesReachAcceptedOthers | src/controllers/conversation/conversationController.ts:143-165 | seen frames go only to other ACCEPTED members with an open socket; when no send throws, every such member gets one, in roster order |
| Conversations.GetMessages | src/controllers/conversation/conversationController.ts:52-181 | a reader without a row gets 404 and nothing changes; otherwise the marked messages are stamped, the counter is reset when any were marked, the seen frames are sent, and the reply is 500 if a send threw, else the stamped page oldest first with `canReply` exactly when the reader has ACCEPTED |
| Conversations.MarkSeen | src/controllers/conversation/conversationController.ts:110-165 | the writes of a marking read: stamps, counter reset, then the seen frames |
| Conversations.InviteCheck | src/controllers/conversation/conversationController.ts:198-210 | an answer to an invitation proceeds exactly when the caller's row is PENDING; with no row it is 404, with a row not PENDING 400 |
| Conversations.AcceptNotifyTarget | src/controllers/conversation/conversationController.ts:224-249 | accepting notifies someone exactly in a DIRECT conversation with another ACCEPTED member, and then the first such member in roster order |
| Conversations.AcceptConversationInvite | src/controllers/conversation/conversationController.ts:184-263 | a refused check changes nothing: the rows, the frames sent, the notification table and its id counter stay as they were; otherwise the row becomes ACCEPTED and the inviter, if any, receives exactly the conversation-accepted outcome |
| Conversations.AcceptRow | src/controllers/conversation/conversationController.ts:212-222 | only the caller's row changes, to ACCEPTED |
| Conversations.RejectConversationInvite | src/controllers/conversation/conversationController.ts:265-314 | a refused check changes nothing; otherwise exactly the caller's row is deleted |
| Conversations.AcceptOnlyOnce | src/controllers/conversation/conversationController.ts:205-222 | after an accept, a second accept of the same row is refused with 400 and every other row is unchanged |
| Conversations.RejectLeavesNoRow | src/controllers/conversation/conversationController.ts:279-300 | after a reject the caller is no longer in the conversation and a second answer gets 404 |
| Profiles.GetProfileByUsername | src/controllers/profileController.ts:5-103 | an unknown username is a 404; the owner sees the whole row with presence; anyone else sees the base fields, and each guarded field (email, date of birth, last online, online, social links) is present exactly when its privacy level is 'public', or 'friends_only' for a friend, and the value is there |
| Profiles.DisclosureOrder | src/controllers/profileController.ts:62-96 | a friend sees every field a stranger sees; 'friends_only' shows a field to friends alone; a level other than 'public' or 'friends_only' hides it from every visitor |
| Profiles.MergePrivacy | src/controllers/profileController.ts:118-128 | each privacy level sent with a truthy value replaces the stored one, and every other level is kept |
| Profiles.MergeIdempotent | src/controllers/profileController.ts:118-128 | sending the same privacy settings twice gives the same result as sending them once |
| Profiles.UpdatePrivacySettings | src/controllers/profileController.ts:105-146 | an unknown user is a 500 with no change; otherwise exactly that user's privacy becomes the merge, which is returned |
| Profiles.SkipSpaceFrom | src/controllers/profileController.ts:232 | the scan stops at the first character that is not white space |
| Profiles.SkipSpaceBack | src/controllers/profileController.ts:232 | the backward scan stops after the last character that is not white space |
| Profiles.Trim | src/controllers/profileController.ts:232-243 | the trimmed text is a slice of the original with only white space cut from either end, and it neither starts nor ends with white space |
| Profiles.TrimIdempotent | src/controllers/profileController.ts:232-243 | trimming twice gives the same as trimming once |
| Profiles.ApplyText | src/controllers/profileController.ts:232-243 | a field left out keeps the stored value; null, or text that is blank after trimming, stores null; other text is stored trimmed |
| Profiles.LengthError | src/controllers/profileController.ts:166-181 | the update is refused for length exactly when the trimmed display name exceeds 100 characters or the bio exceeds 500, and the display name is checked first |
| Profiles.StoredLengthsBounded | src/controllers/profileController.ts:166-181 | a display name or bio that passed the checks is stored with at most 100 or 500 characters |
| Profiles.ApplyProfile | src/controllers/profileController.ts:229-244 | the update leaves the id, username, email, privacy, creation time, last-online time and online total untouched |
| Profiles.EmptyUpdateIsIdentity | src/controllers/profileController.ts:231-244 | an update that leaves every field out changes nothing |
| Profiles.UpdateProfile | src/controllers/profileController.ts:148-277 | a length error, then a URL or date error, is a 400 with no change; an unknown user is a 500; otherwise exactly that user's row is updated and returned |
| Validation.ValidateSignup | src/middleware/validation.ts:4-24 | signup passes exactly when the username has at least 3 characters and the password at least 6; the username is checked first, each with its own 400 message |
| Validation.ValidateLogin | src/middleware/validation.ts:26-45 | login passes exactly when both username and password are non-empty; the username is checked first |
| Validation.SignupImpliesLogin | src/middleware/validation.ts:4-45 | credentials that pass signup validation also pass login validation |
| Validation.LoginIsLaxer | src/middleware/validation.ts:4-45 | of the bodies login accepts, signup refuses exactly those with a username shorter than 3 or a password shorter than 6 characters |
| Auth.Split | src/middleware/auth.ts:24 | splitting on a separator yields at least one part and no part contains the separator |
| Auth.JoinSplit | src/middleware/auth.ts:24 | joining the parts of a split with the separator gives the string back |
| Auth.SplitJoin | src/middleware/auth.ts:24 | splitting separator-free parts joined by the separator gives the parts back |
| Auth.Token | src/middleware/auth.ts:16-24 | the token of a "Bearer " header is the text after the prefix up to the next space or the end, and contains no space |
| Auth.Authenticate | src/middleware/auth.ts:12-36 | a missing header or one without the "Bearer " prefix is a 401 "No token provided"; a token that fails verification is a 401 "Invalid token"; in both cases the request is unchanged; otherwise the decoded claims are set on the request and the chain continues |

## Left out

- `friendController` and the routes that call the notification service are
  not part of this model. The service operations are modelled on their own.
- Redis presence: `isUserOnline` becomes the `online` parameter of
  `Profiles.GetProfileByUsername`.
- JWT signing and verification: `verifyToken` becomes a function from token to
  claims (None when it throws).
- Password hashing, `userController`, the WebSocket server and the route
  tables are not part of this model.
- The clock: each handler reads the clock several times; the model uses one
  `now` per call.
- Profiles.UpdateProfile: the URL checks of the social links and the
  date-of-birth checks use `new URL` and `Date`. They are the
  `urlOrDateError` parameter: the 400 message they would give, or None. The
  `updatedAt` column the store refreshes is not modelled. A date of birth comes
  in parsed, so the empty string (stored as null by the code) is given as null.
- Notifications.ListNotifications: `page` and `limit` arrive parsed. `NaN`
  from an unparsable query value is not modelled. A negative `limit` (a
  backward `take` in the store) is not modelled: `limit` is a natural number.
  The store's rejection of a negative `skip` is the 500 reply.
- Conversations.GetMessages: `limit` arrives parsed, as a natural number.
  `cursor` arrives as a time.
- Conversations.UserConversations: the order by the conversations' `updatedAt`
  and the included rows are not modelled; it states which conversations are
  listed, as a set.
- Store failures other than the modelled ones (the 500 replies of each
  handler's `catch`) are not modelled, except the failed `create` of a
  notification and the failing `update` for an unknown user.
- Request bodies: text fields are strings or absent. Non-string JSON values
  (numbers, arrays) given for them are not modelled.
- Notifications.MarkAsRead: `markAll` arrives as its JavaScript truthiness, a
  boolean. Which JSON values are truthy is not modelled; any truthy value,
  the string "false" included, selects mark-all.
- Query defaults: `page` = '1' and `limit` = '20' in `getUserNotifications`,
  and `limit` = 10 and `markAsSeen` = 'true' in `getMessages`, apply before
  the values reach the model. Only the `markAsSeen` default is modelled
  (`Conversations.SeenRequested`); `page` and `limit` arrive already filled in
  and parsed.
- Text length: JavaScript's `length` and `substring` count UTF-16 code units,
  while the model counts characters (Unicode scalar values). For text outside
  the Basic Multilingual Plane, such as emoji, the model measures and cuts
  differently from the code, and it cannot split a surrogate pair as
  `substring` can. The members this affects are listed below.
- Validation.ValidateSignup: the minima of 3 and 6 are counted in characters,
  not UTF-16 units.
- Profiles.LengthError: the limits of 100 and 500 are counted in characters,
  not UTF-16 units, so a bio of 300 emoji passes here but not in the code.
- Profiles.StoredLengthsBounded: its bounds are in characters, not UTF-16 units.
- NotificationService.Truncate: cuts after `n` characters, not `n` UTF-16 units.
- NotificationService.PreviewBound: its 50 and 53 are characters, not UTF-16 units.
- NotificationService.InviteNoteBounds: its 80 and 100 are characters, not UTF-16 units.
- NotificationService.ConversationRequestOutcome: the preview is cut at 50
  characters, not 50 UTF-16 units.
- NotificationService.ConversationInviteInput: the body and metadata cuts are
  in characters, not UTF-16 units.
- Common.SortDesc: `orderBy: { createdAt: 'desc' }` fixes no order among rows
  with equal `createdAt`, and two runs of the same query may order them
  differently. The model fixes one order, table order among ties. What
  follows from the order holds for the store only when no two candidate rows
  share a `createdAt` (`Common.SortedPermutationUnique`,
  `Notifications.PageOfTieFreeOrder`, `Conversations.StoreFetchIsNewestFirst`).
- PageIsSlice: holds for the model's tie order. With equal `createdAt` across
  a page boundary the store may show a row on two pages or on none, so "pages
  partition the rows" is promised only without ties.
- SecondFetchMarksNothing: holds for the model's tie order. With a tie at the
  `take` boundary the store's second fetch may return a tied message the first
  did not stamp and mark it; without ties the second fetch marks nothing.
- Profiles.Trim: white space is the set `String.prototype.trim` removes,
  written out as characters. There is no Unicode normalisation.
- Profiles.ApplyProfile: states which columns are untouched; the value of each
  updated column is stated by `Profiles.ApplyText`.
- Conversations.SeenEvent: `seenBy` keeps only the boolean the code computes.
