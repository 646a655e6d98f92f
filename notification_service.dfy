/** The fan-out rules for social events: who receives a live frame, and which
    events leave a durable notification record. Every `notify…` operation
    catches its own errors, so none of them fails its caller; a `send` that
    throws ends the operation where it stands, and the record that would
    have followed it is not written. */
module NotificationService {
  import opened Common
  import opened Schema
  import opened Backend
  import opened Notifications

  // ----- display strings -------------------------------------------------------

  /** `user.displayName || user.username`. */
  function NameOf(a: Account): string
  {
    if Truthy(a.displayName) then a.displayName.value else a.username
  }

  /** The shown name is the display name when one is set and non-empty, and
      the username otherwise; it is never empty for a non-empty username. */
  lemma NameFallback(a: Account)
    ensures Truthy(a.displayName) ==> NameOf(a) == a.displayName.value
    ensures !Truthy(a.displayName) ==> NameOf(a) == a.username
    ensures a.username != "" ==> NameOf(a) != ""
  {
  }

  /** `s.length > n ? s.substring(0, n) + '...' : s`. */
  function Truncate(s: string, n: nat): (r: string)
    ensures |r| <= n + 3
    ensures |s| <= n ==> r == s
    ensures |s| > n ==> |r| == n + 3 && r[..n] == s[..n] && r[n..] == "..."
  {
    if |s| > n then s[..n] + "..." else s
  }

  /** The live preview of a message request is at most 53 characters, its
      first characters are the message's own, and a message too long to fit
      is always shortened. */
  lemma PreviewBound(content: string)
    ensures |Truncate(content, 50)| <= 53
    ensures |content| <= 50 ==> Truncate(content, 50) == content
    ensures |content| > 50 ==> Truncate(content, 50)[..50] == content[..50]
    ensures |content| > 53 ==> |Truncate(content, 50)| < |content|
  {
  }

  // ----- what one event produces --------------------------------------------------

  /** The frames an event delivers, and the record it asks `createNotification`
      to write (None when it writes none). */
  datatype Outcome = Outcome(pushes: seq<Push>, note: Option<NotificationInput>)

  const Nothing := Outcome([], None)

  /** One frame to `target` (if its socket is open) followed by the record
      `note`, which a throwing `send` skips. */
  function SendThenRecord(ws: map<UserId, Socket>, target: UserId, ev: Event, note: NotificationInput): (o: Outcome)
    ensures o.pushes == SendStep(ws, target, ev).pushes
    ensures o.note.Some? <==> !SendStep(ws, target, ev).threw
    ensures o.note.Some? ==> o.note.value == note
  {
    var step := SendStep(ws, target, ev);
    if step.threw then Outcome([], None) else Outcome(step.pushes, Some(note))
  }

  /** The rows `createNotification` adds for `note`: one, unless there is no
      note or the store's `create` fails. */
  function Recorded(note: Option<NotificationInput>, next: nat, persistFails: bool, now: Time): (r: seq<Notification>)
  {
    if note.Some? && !persistFails then [Materialize(note.value, FreshId(next), now)] else []
  }

  /** The store after an event: its frames appended to those sent, its record
      (if any) appended to the notification table, nothing else changed. */
  twostate predicate Delivered(st: Store, o: Outcome, persistFails: bool, now: Time)
    reads st
  {
    var rec := Recorded(o.note, old(st.nextNotificationId), persistFails, now);
    && st.sent == old(st.sent) + o.pushes
    && st.notifications == old(st.notifications) + rec
    && st.nextNotificationId == old(st.nextNotificationId) + |rec|
  }

  // ----- presence ------------------------------------------------------------------

  /** The `user` side of each friendship whose `friendId` is `u`, in table order. */
  function Befrienders(fs: seq<Friendship>, u: UserId): (r: seq<UserId>)
    ensures forall x :: x in r <==> Friendship(x, u) in fs
  {
    if fs == [] then []
    else
      (if fs[0].friendId == u then [fs[0].userId] else []) + Befrienders(fs[1..], u)
  }

  /** The frame announcing that `a` came online (`online`) or went offline. */
  function PresenceEvent(a: Account, online: bool, now: Time): Event
  {
    if online then FriendOnline(a.id, a.username, a.displayName, now)
    else FriendOffline(a.id, a.username, a.displayName, now)
  }

  /** `notifyFriendsUserOnline` / `notifyFriendsUserOffline`: nothing for an
      unknown user or one whose online status is private; otherwise the
      frame to every befriending user, in table order. Never a record. */
  function PresenceOutcome(users: map<UserId, User>, fs: seq<Friendship>, ws: map<UserId, Socket>,
                           u: UserId, online: bool, now: Time): (o: Outcome)
    ensures o.note.None?
    ensures u !in users || users[u].acct.privacy.online == "private" ==> o == Nothing
    ensures forall p :: p in o.pushes ==>
              u in users && p.event == PresenceEvent(users[u].acct, online, now)
              && Friendship(p.to, u) in fs && IsOpen(ws, p.to)
  {
    if u !in users || users[u].acct.privacy.online == "private" then Nothing
    else
      var ev := PresenceEvent(users[u].acct, online, now);
      FanoutSound(ws, Befrienders(fs, u), ev);
      Outcome(Fanout(ws, Befrienders(fs, u), ev).pushes, None)
  }

  /** When no open socket throws, every befriending user whose socket is open
      gets exactly one frame, in table order. */
  lemma PresenceReachesEveryOpenFriend(users: map<UserId, User>, fs: seq<Friendship>, ws: map<UserId, Socket>,
                                       u: UserId, online: bool, now: Time)
    requires u in users && users[u].acct.privacy.online != "private"
    requires SendsSucceed(ws, Befrienders(fs, u))
    ensures Recipients(PresenceOutcome(users, fs, ws, u, online, now).pushes) == OpenTargets(ws, Befrienders(fs, u))
  {
    FanoutComplete(ws, Befrienders(fs, u), PresenceEvent(users[u].acct, online, now));
  }

  method NotifyFriendsPresence(st: Store, u: UserId, online: bool, now: Time)
    requires st.Valid()
    modifies st`sent
    ensures st.Valid()
    ensures Delivered(st, PresenceOutcome(st.users, st.friendships, st.wsClients, u, online, now), false, now)
  {
    if u !in st.users {
      return;
    }
    var user := st.users[u].acct;
    if user.privacy.online == "private" {
      return;
    }
    var friends := Befrienders(st.friendships, u);
    var _ := SendAll(st, friends, PresenceEvent(user, online, now));
  }

  method NotifyFriendsUserOnline(st: Store, u: UserId, now: Time)
    requires st.Valid()
    modifies st`sent
    ensures st.Valid()
    ensures Delivered(st, PresenceOutcome(st.users, st.friendships, st.wsClients, u, true, now), false, now)
  {
    NotifyFriendsPresence(st, u, true, now);
  }

  method NotifyFriendsUserOffline(st: Store, u: UserId, now: Time)
    requires st.Valid()
    modifies st`sent
    ensures st.Valid()
    ensures Delivered(st, PresenceOutcome(st.users, st.friendships, st.wsClients, u, false, now), false, now)
  {
    NotifyFriendsPresence(st, u, false, now);
  }

  // ----- friend requests ------------------------------------------------------------

  /** The record of a friend request: addressed to the receiver, from the
      sender, about the request, and opening with the sender's shown name. */
  function FriendRequestReceivedInput(sender: Account, receiverId: UserId, senderId: UserId, requestId: string)
    : (n: NotificationInput)
    ensures n.userId == receiverId && n.kind == FriendRequestReceivedNote && n.title == "New Friend Request"
    ensures n.body == NameOf(sender) + " sent you a friend request"
    ensures n.fromUserId == Some(senderId) && n.relatedId == Some(requestId) && n.priority == Some(Medium)
    ensures n.metadata.Some? && n.metadata.value.Keys == {"senderUsername", "senderDisplayName", "requestId"}
    ensures n.metadata.Some? && n.metadata.value["senderUsername"] == MStr(sender.username)
    ensures n.metadata.Some? && n.metadata.value["senderDisplayName"] == MetaOf(sender.displayName)
    ensures n.metadata.Some? && n.metadata.value["requestId"] == MStr(requestId)
    ensures n.relatedType == Some("friend_request") && n.actionUrl == Some("/friends/requests")
  {
    NotificationInput(
      receiverId, FriendRequestReceivedNote, "New Friend Request",
      NameOf(sender) + " sent you a friend request",
      Some(senderId), Some(requestId), Some("friend_request"), Some("/friends/requests"), Some(Medium),
      Some(map["senderUsername" := MStr(sender.username),
               "senderDisplayName" := MetaOf(sender.displayName),
               "requestId" := MStr(requestId)]))
  }

  /** `notifyFriendRequestReceived`: nothing for an unknown sender; otherwise a
      frame to the receiver if connected, then a MEDIUM-priority
      friend-request-received record for the receiver. */
  function FriendRequestReceivedOutcome(users: map<UserId, User>, ws: map<UserId, Socket>,
                                        receiverId: UserId, senderId: UserId, requestId: string, now: Time): (o: Outcome)
    ensures senderId !in users ==> o == Nothing
    ensures forall p :: p in o.pushes ==> p.to == receiverId && IsOpen(ws, receiverId)
    ensures senderId in users && IsOpen(ws, receiverId) && ws[receiverId].sendThrows ==> o == Nothing
    ensures senderId in users && IsOpen(ws, receiverId) && !ws[receiverId].sendThrows ==>
              var s := users[senderId].acct;
              o.pushes == [Push(receiverId, FriendRequestReceived(s.id, NameOf(s), s.username, requestId, now))]
    ensures senderId in users && !(IsOpen(ws, receiverId) && ws[receiverId].sendThrows) ==>
              o.note == Some(FriendRequestReceivedInput(users[senderId].acct, receiverId, senderId, requestId))
  {
    if senderId !in users then Nothing
    else
      var s := users[senderId].acct;
      SendThenRecord(ws, receiverId,
        FriendRequestReceived(s.id, NameOf(s), s.username, requestId, now),
        FriendRequestReceivedInput(s, receiverId, senderId, requestId))
  }

  method NotifyFriendRequestReceived(st: Store, receiverId: UserId, senderId: UserId, requestId: string,
                                     now: Time, persistFails: bool)
    requires st.Valid()
    modifies st`sent, st`notifications, st`nextNotificationId
    ensures st.Valid()
    ensures Delivered(st, FriendRequestReceivedOutcome(old(st.users), old(st.wsClients), receiverId, senderId, requestId, now),
                      persistFails, now)
  {
    if senderId !in st.users {
      return;
    }
    var sender := st.users[senderId].acct;
    var threw := Send(st, receiverId, FriendRequestReceived(sender.id, NameOf(sender), sender.username, requestId, now));
    if threw {
      return;
    }
    var _ := CreateNotification(st, FriendRequestReceivedInput(sender, receiverId, senderId, requestId), now, persistFails);
  }

  /** The record of an accepted friend request: addressed to the original
      sender, from the accepter, opening with the accepter's shown name. */
  function FriendRequestAcceptedInput(accepter: Account, senderId: UserId, accepterId: UserId): (n: NotificationInput)
    ensures n.userId == senderId && n.kind == FriendRequestAcceptedNote && n.title == "Friend Request Accepted"
    ensures n.body == NameOf(accepter) + " accepted your friend request"
    ensures n.fromUserId == Some(accepterId) && n.relatedId.None? && n.priority == Some(Medium)
    ensures n.metadata.Some? && n.metadata.value.Keys == {"accepterUsername", "accepterDisplayName"}
    ensures n.metadata.Some? && n.metadata.value["accepterUsername"] == MStr(accepter.username)
    ensures n.metadata.Some? && n.metadata.value["accepterDisplayName"] == MetaOf(accepter.displayName)
    ensures n.relatedType == Some("friend_request") && n.actionUrl == Some("/friends")
  {
    NotificationInput(
      senderId, FriendRequestAcceptedNote, "Friend Request Accepted",
      NameOf(accepter) + " accepted your friend request",
      Some(accepterId), None, Some("friend_request"), Some("/friends"), Some(Medium),
      Some(map["accepterUsername" := MStr(accepter.username),
               "accepterDisplayName" := MetaOf(accepter.displayName)]))
  }

  /** `notifyFriendRequestAccepted`: nothing for an unknown accepter; otherwise
      a frame to the original sender if connected, then a MEDIUM-priority
      friend-request-accepted record for the sender. */
  function FriendRequestAcceptedOutcome(users: map<UserId, User>, ws: map<UserId, Socket>,
                                        senderId: UserId, accepterId: UserId, now: Time): (o: Outcome)
    ensures accepterId !in users ==> o == Nothing
    ensures forall p :: p in o.pushes ==> p.to == senderId && IsOpen(ws, senderId)
    ensures accepterId in users && IsOpen(ws, senderId) && ws[senderId].sendThrows ==> o == Nothing
    ensures accepterId in users && IsOpen(ws, senderId) && !ws[senderId].sendThrows ==>
              var a := users[accepterId].acct;
              o.pushes == [Push(senderId, FriendRequestAccepted(a.id, NameOf(a), a.username, now))]
    ensures accepterId in users && !(IsOpen(ws, senderId) && ws[senderId].sendThrows) ==>
              o.note == Some(FriendRequestAcceptedInput(users[accepterId].acct, senderId, accepterId))
  {
    if accepterId !in users then Nothing
    else
      var a := users[accepterId].acct;
      SendThenRecord(ws, senderId,
        FriendRequestAccepted(a.id, NameOf(a), a.username, now),
        FriendRequestAcceptedInput(a, senderId, accepterId))
  }

  method NotifyFriendRequestAccepted(st: Store, senderId: UserId, accepterId: UserId, now: Time, persistFails: bool)
    requires st.Valid()
    modifies st`sent, st`notifications, st`nextNotificationId
    ensures st.Valid()
    ensures Delivered(st, FriendRequestAcceptedOutcome(old(st.users), old(st.wsClients), senderId, accepterId, now),
                      persistFails, now)
  {
    if accepterId !in st.users {
      return;
    }
    var accepter := st.users[accepterId].acct;
    var threw := Send(st, senderId, FriendRequestAccepted(accepter.id, NameOf(accepter), accepter.username, now));
    if threw {
      return;
    }
    var _ := CreateNotification(st, FriendRequestAcceptedInput(accepter, senderId, accepterId), now, persistFails);
  }

  // ----- conversation requests ------------------------------------------------------------

  /** The record of a message request: addressed to the receiver, from the
      sender, about the conversation, its body the sender's shown name and the
      message cut at 80 characters, its metadata preview cut at 100. */
  function ConversationInviteInput(sender: Account, receiverId: UserId, senderId: UserId, c: ConvId, content: string)
    : (n: NotificationInput)
    ensures n.userId == receiverId && n.kind == ConversationInvite && n.title == "New Message Request"
    ensures n.body == NameOf(sender) + ": " + Truncate(content, 80)
    ensures n.fromUserId == Some(senderId) && n.relatedId == Some(c) && n.priority == Some(High)
    ensures n.relatedType == Some("conversation") && n.actionUrl == Some("/inbox?conversation=" + c)
    ensures n.metadata.Some?
            && n.metadata.value.Keys
               == {"senderUsername", "senderDisplayName", "conversationId", "messagePreview", "isMessageRequest"}
            && n.metadata.value["messagePreview"] == MStr(Take(content, 100))
            && n.metadata.value["isMessageRequest"] == MBool(true)
    ensures n.metadata.Some? && "senderUsername" in n.metadata.value
            && n.metadata.value["senderUsername"] == MStr(sender.username)
            && n.metadata.value["senderDisplayName"] == MetaOf(sender.displayName)
            && n.metadata.value["conversationId"] == MStr(c)
  {
    NotificationInput(
      receiverId, ConversationInvite, "New Message Request",
      NameOf(sender) + ": " + Truncate(content, 80),
      Some(senderId), Some(c), Some("conversation"), Some("/inbox?conversation=" + c), Some(High),
      Some(map["senderUsername" := MStr(sender.username),
               "senderDisplayName" := MetaOf(sender.displayName),
               "conversationId" := MStr(c),
               "messagePreview" := MStr(Take(content, 100)),
               "isMessageRequest" := MBool(true)]))
  }

  /** The three situations in which a first message is not a message request:
      unknown sender, sender already lists the receiver as a friend, or the
      receiver's participant row is missing or no longer pending. */
  predicate IsMessageRequest(users: map<UserId, User>, fs: seq<Friendship>,
                             ps: map<(ConvId, UserId), Participant>,
                             receiverId: UserId, senderId: UserId, c: ConvId)
  {
    && senderId in users
    && Friendship(senderId, receiverId) !in fs
    && (c, receiverId) in ps && ps[(c, receiverId)].status == Pending
  }

  /** Each of the three early returns of `notifyConversationRequestReceived`
      sends nothing and records nothing. */
  lemma SilentUnlessRequest(users: map<UserId, User>, fs: seq<Friendship>,
                            ps: map<(ConvId, UserId), Participant>, ws: map<UserId, Socket>,
                            receiverId: UserId, senderId: UserId, c: ConvId, content: string, now: Time)
    ensures var o := ConversationRequestOutcome(users, fs, ps, ws, receiverId, senderId, c, content, now);
            && (senderId !in users ==> o == Nothing)
            && (Friendship(senderId, receiverId) in fs ==> o == Nothing)
            && ((c, receiverId) !in ps || ps[(c, receiverId)].status != Pending ==> o == Nothing)
  {
  }

  /** `notifyConversationRequestReceived`. */
  function ConversationRequestOutcome(users: map<UserId, User>, fs: seq<Friendship>,
                                      ps: map<(ConvId, UserId), Participant>, ws: map<UserId, Socket>,
                                      receiverId: UserId, senderId: UserId, c: ConvId, content: string,
                                      now: Time): (o: Outcome)
    ensures !IsMessageRequest(users, fs, ps, receiverId, senderId, c) ==> o == Nothing
    ensures forall p :: p in o.pushes ==>
              p.to == receiverId && IsOpen(ws, receiverId)
              && p.event.ConversationRequestReceived? && |p.event.messagePreview| <= 53
    ensures (IsMessageRequest(users, fs, ps, receiverId, senderId, c)
             && IsOpen(ws, receiverId) && ws[receiverId].sendThrows) ==> o == Nothing
    ensures (IsMessageRequest(users, fs, ps, receiverId, senderId, c)
             && IsOpen(ws, receiverId) && !ws[receiverId].sendThrows) ==>
              var s := users[senderId].acct;
              o.pushes == [Push(receiverId, ConversationRequestReceived(s.id, NameOf(s), s.username, c,
                                                                        Truncate(content, 50), now))]
    ensures (IsMessageRequest(users, fs, ps, receiverId, senderId, c)
             && !(IsOpen(ws, receiverId) && ws[receiverId].sendThrows)) ==>
              o.note == Some(ConversationInviteInput(users[senderId].acct, receiverId, senderId, c, content))
  {
    if !IsMessageRequest(users, fs, ps, receiverId, senderId, c) then Nothing
    else
      var s := users[senderId].acct;
      SendThenRecord(ws, receiverId,
        ConversationRequestReceived(s.id, NameOf(s), s.username, c, Truncate(content, 50), now),
        ConversationInviteInput(s, receiverId, senderId, c, content))
  }

  /** The record's body cuts the message at 80 characters, its metadata at 100. */
  lemma InviteNoteBounds(sender: Account, receiverId: UserId, senderId: UserId, c: ConvId, content: string)
    ensures var n := ConversationInviteInput(sender, receiverId, senderId, c, content);
            && n.body == NameOf(sender) + ": " + Truncate(content, 80)
            && |n.body| <= |NameOf(sender)| + 2 + 83
            && n.metadata.Some? && "messagePreview" in n.metadata.value
            && n.metadata.value["messagePreview"] == MStr(Take(content, 100))
            && |Take(content, 100)| <= 100
  {
  }

  method NotifyConversationRequestReceived(st: Store, receiverId: UserId, senderId: UserId, c: ConvId,
                                           content: string, now: Time, persistFails: bool)
    requires st.Valid()
    modifies st`sent, st`notifications, st`nextNotificationId
    ensures st.Valid()
    ensures Delivered(st, ConversationRequestOutcome(old(st.users), old(st.friendships), old(st.participants),
                                                    old(st.wsClients), receiverId, senderId, c, content, now),
                      persistFails, now)
  {
    if senderId !in st.users {
      return;
    }
    var sender := st.users[senderId].acct;
    if Friendship(senderId, receiverId) in st.friendships {
      return;
    }
    if (c, receiverId) !in st.participants || st.participants[(c, receiverId)].status != Pending {
      return;
    }
    var threw := Send(st, receiverId,
      ConversationRequestReceived(sender.id, NameOf(sender), sender.username, c, Truncate(content, 50), now));
    if threw {
      return;
    }
    var _ := CreateNotification(st, ConversationInviteInput(sender, receiverId, senderId, c, content), now, persistFails);
  }

  /** The record of an accepted message request: addressed to the inviter,
      from the accepter, about the conversation. */
  function ConversationAcceptedInput(accepter: Account, senderId: UserId, accepterId: UserId, c: ConvId)
    : (n: NotificationInput)
    ensures n.userId == senderId && n.kind == ConversationAccepted && n.title == "Message Request Accepted"
    ensures n.body == NameOf(accepter) + " accepted your message request"
    ensures n.fromUserId == Some(accepterId) && n.relatedId == Some(c) && n.priority == Some(Medium)
    ensures n.relatedType == Some("conversation") && n.actionUrl == Some("/inbox?conversation=" + c)
    ensures n.metadata.Some? && n.metadata.value.Keys == {"accepterUsername", "accepterDisplayName", "conversationId"}
    ensures n.metadata.Some? && n.metadata.value["accepterUsername"] == MStr(accepter.username)
    ensures n.metadata.Some? && n.metadata.value["accepterDisplayName"] == MetaOf(accepter.displayName)
    ensures n.metadata.Some? && n.metadata.value["conversationId"] == MStr(c)
  {
    NotificationInput(
      senderId, ConversationAccepted, "Message Request Accepted",
      NameOf(accepter) + " accepted your message request",
      Some(accepterId), Some(c), Some("conversation"), Some("/inbox?conversation=" + c), Some(Medium),
      Some(map["accepterUsername" := MStr(accepter.username),
               "accepterDisplayName" := MetaOf(accepter.displayName),
               "conversationId" := MStr(c)]))
  }

  /** `notifyConversationRequestAccepted`: nothing for an unknown accepter;
      otherwise a frame to the inviter if connected, then a MEDIUM-priority
      conversation-accepted record for the inviter. */
  function ConversationAcceptedOutcome(users: map<UserId, User>, ws: map<UserId, Socket>,
                                       senderId: UserId, accepterId: UserId, c: ConvId, now: Time): (o: Outcome)
    ensures accepterId !in users ==> o == Nothing
    ensures forall p :: p in o.pushes ==>
              p.to == senderId && IsOpen(ws, senderId) && p.event.ConversationRequestAccepted?
    ensures accepterId in users && IsOpen(ws, senderId) && ws[senderId].sendThrows ==> o == Nothing
    ensures accepterId in users && IsOpen(ws, senderId) && !ws[senderId].sendThrows ==>
              var a := users[accepterId].acct;
              o.pushes == [Push(senderId, ConversationRequestAccepted(a.id, NameOf(a), a.username, c, now))]
    ensures accepterId in users && !(IsOpen(ws, senderId) && ws[senderId].sendThrows) ==>
              o.note == Some(ConversationAcceptedInput(users[accepterId].acct, senderId, accepterId, c))
  {
    if accepterId !in users then Nothing
    else
      var a := users[accepterId].acct;
      SendThenRecord(ws, senderId,
        ConversationRequestAccepted(a.id, NameOf(a), a.username, c, now),
        ConversationAcceptedInput(a, senderId, accepterId, c))
  }

  method NotifyConversationRequestAccepted(st: Store, senderId: UserId, accepterId: UserId, c: ConvId,
                                           now: Time, persistFails: bool)
    requires st.Valid()
    modifies st`sent, st`notifications, st`nextNotificationId
    ensures st.Valid()
    ensures Delivered(st, ConversationAcceptedOutcome(old(st.users), old(st.wsClients), senderId, accepterId, c, now),
                      persistFails, now)
  {
    if accepterId !in st.users {
      return;
    }
    var accepter := st.users[accepterId].acct;
    var threw := Send(st, senderId,
      ConversationRequestAccepted(accepter.id, NameOf(accepter), accepter.username, c, now));
    if threw {
      return;
    }
    var _ := CreateNotification(st, ConversationAcceptedInput(accepter, senderId, accepterId, c), now, persistFails);
  }

  // ----- across events --------------------------------------------------------------

  /** Each event writes at most one record, and a record is written whenever
      the event applies and the live send did not throw — whether or not the
      target was connected. */
  lemma AtMostOneRecord(o: Outcome, next: nat, persistFails: bool, now: Time)
    ensures |Recorded(o.note, next, persistFails, now)| <= 1
    ensures |Recorded(o.note, next, persistFails, now)| == 1 <==> o.note.Some? && !persistFails
  {
  }

  /** An offline target still gets the durable record of a message request. */
  lemma OfflineReceiverStillRecorded(users: map<UserId, User>, fs: seq<Friendship>,
                                     ps: map<(ConvId, UserId), Participant>, ws: map<UserId, Socket>,
                                     receiverId: UserId, senderId: UserId, c: ConvId, content: string, now: Time)
    requires IsMessageRequest(users, fs, ps, receiverId, senderId, c)
    requires !IsOpen(ws, receiverId)
    ensures var o := ConversationRequestOutcome(users, fs, ps, ws, receiverId, senderId, c, content, now);
            o.pushes == [] && o.note.Some? && o.note.value.kind == ConversationInvite
  {
  }
}
