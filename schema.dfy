/** The rows of the relational store and the frames pushed over live sockets.
    Field names follow the store's columns; nullable columns are `Option`s. */
module Schema {
  import opened Common

  type UserId = string
  type ConvId = string
  type MsgId = string
  type NotifId = string

  // ----- users -----------------------------------------------------------------

  /** The seven privacy columns. Each holds a free string; the handlers give
      meaning only to "public", "friends_only" and "private". */
  datatype Privacy = Privacy(
    online: string,
    lastOnline: string,
    tab: string,
    email: string,
    dob: string,
    socialMedia: string,
    friendsList: string)

  datatype Social = Social(
    twitter: Option<string>,
    linkedin: Option<string>,
    instagram: Option<string>,
    github: Option<string>,
    website: Option<string>,
    telegram: Option<string>,
    snapchat: Option<string>,
    discord: Option<string>)

  /** Every column of a user row except the password hash. */
  datatype Account = Account(
    id: UserId,
    username: string,
    email: Option<string>,
    displayName: Option<string>,
    bio: Option<string>,
    dateOfBirth: Option<Time>,
    avatarUrl: Option<string>,
    createdAt: Time,
    updatedAt: Time,
    lastOnlineAt: Option<Time>,
    totalOnlineSeconds: int,
    privacy: Privacy,
    social: Social)

  /** A user row: the password hash and everything else. */
  datatype User = User(password: string, acct: Account)

  /** A friendship row: `userId` lists `friendId` among its friends. */
  datatype Friendship = Friendship(userId: UserId, friendId: UserId)

  // ----- conversations ---------------------------------------------------------

  datatype ConversationKind = Direct | Group

  /** The string the store keeps in `conversation.type`. */
  function KindName(k: ConversationKind): string
  {
    match k
    case Direct => "DIRECT"
    case Group => "GROUP"
  }

  /** A conversation row. `roster` is the order in which the store lists the
      conversation's participant rows; a user whose row was deleted may stay in it. */
  datatype Conversation = Conversation(kind: ConversationKind, roster: seq<UserId>)

  datatype ParticipantStatus = Pending | Accepted

  /** A conversation-participant row, keyed by (conversation, user). */
  datatype Participant = Participant(status: ParticipantStatus, unreadCount: int)

  datatype Message = Message(
    id: MsgId,
    conversationId: ConvId,
    senderId: UserId,
    content: string,
    createdAt: Time,
    seenAt: Option<Time>,
    deletedForAll: bool)

  // ----- notifications ---------------------------------------------------------

  datatype NotificationType =
    | FriendRequestReceivedNote
    | FriendRequestAcceptedNote
    | ConversationInvite
    | ConversationAccepted
    | SystemNotification

  datatype Priority = Low | Medium | High

  /** The JSON values the handlers put into a notification's `metadata`. */
  datatype MetaValue = MStr(s: string) | MNull | MBool(b: bool)

  function MetaOf(s: Option<string>): MetaValue
  {
    if s.Some? then MStr(s.value) else MNull
  }

  datatype Notification = Notification(
    id: NotifId,
    userId: UserId,
    kind: NotificationType,
    title: string,
    body: string,
    fromUserId: Option<UserId>,
    relatedId: Option<string>,
    relatedType: Option<string>,
    actionUrl: Option<string>,
    priority: Priority,
    metadata: Option<map<string, MetaValue>>,
    isRead: bool,
    readAt: Option<Time>,
    createdAt: Time)

  // ----- live sockets ----------------------------------------------------------

  /** A registered socket: its `readyState` (1 is OPEN) and whether `send`
      throws on it, which the model takes as given. */
  datatype Socket = Socket(readyState: int, sendThrows: bool)

  /** The `wsClients[u] && wsClients[u].readyState === 1` test. */
  predicate IsOpen(ws: map<UserId, Socket>, u: UserId)
  {
    u in ws && ws[u].readyState == 1
  }

  /** The JSON frames `{ type, data }` the handlers send; `timestamp` and
      `seenAt` are the caller's clock value. */
  datatype Event =
    | FriendOnline(userId: UserId, username: string, displayName: Option<string>, timestamp: Time)
    | FriendOffline(userId: UserId, username: string, displayName: Option<string>, timestamp: Time)
    | FriendRequestReceived(senderId: UserId, senderName: string, senderUsername: string, requestId: string, timestamp: Time)
    | FriendRequestAccepted(accepterId: UserId, accepterName: string, accepterUsername: string, timestamp: Time)
    | ConversationRequestReceived(senderId: UserId, senderName: string, senderUsername: string, conversationId: ConvId, messagePreview: string, timestamp: Time)
    | ConversationRequestAccepted(accepterId: UserId, accepterName: string, accepterUsername: string, conversationId: ConvId, timestamp: Time)
    | MessagesSeen(conversationId: ConvId, seenBy: bool, seenAt: Time, messageCount: nat, messageIds: seq<MsgId>)

  /** One frame that reached the socket of `to`. */
  datatype Push = Push(to: UserId, event: Event)

  function Recipients(ps: seq<Push>): (r: seq<UserId>)
    ensures |r| == |ps|
    ensures forall i :: 0 <= i < |ps| ==> r[i] == ps[i].to
  {
    if ps == [] then [] else [ps[0].to] + Recipients(ps[1..])
  }
}
