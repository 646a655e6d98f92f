/** The state every handler works on: the store's tables, the registry of live
    sockets (`wsClients`) and the frames delivered over them so far. */
module Backend {
  import opened Common
  import opened Schema

  /** Message ids are unique in the message table. */
  predicate UniqueMessageIds(s: seq<Message>)
  {
    forall i, j :: 0 <= i < j < |s| ==> s[i].id != s[j].id
  }

  /** Notification ids are unique in the notification table. */
  predicate UniqueNotificationIds(s: seq<Notification>)
  {
    forall i, j :: 0 <= i < j < |s| ==> s[i].id != s[j].id
  }

  /** The id the store hands to the notification it creates as its `n`-th; it
      is longer than every id handed out before, hence new. */
  function FreshId(n: nat): (id: NotifId)
    ensures |id| == n + 1
  {
    seq(n + 1, _ => '#')
  }

  // ----- delivering one event to many sockets ------------------------------------

  datatype FanoutResult = FanoutResult(pushes: seq<Push>, threw: bool)

  /** What one `if (ws && ws.readyState === 1) ws.send(...)` step does for `t`. */
  function SendStep(ws: map<UserId, Socket>, t: UserId, ev: Event): FanoutResult
  {
    if !IsOpen(ws, t) then FanoutResult([], false)
    else if ws[t].sendThrows then FanoutResult([], true)
    else FanoutResult([Push(t, ev)], false)
  }

  /** Sending `ev` to each of `targets` in order: closed sockets are skipped, and
      the first `send` that throws ends the loop (the exception leaves it). */
  function Fanout(ws: map<UserId, Socket>, targets: seq<UserId>, ev: Event): FanoutResult
  {
    if targets == [] then FanoutResult([], false)
    else
      var first := SendStep(ws, targets[0], ev);
      if first.threw then first
      else
        var rest := Fanout(ws, targets[1..], ev);
        FanoutResult(first.pushes + rest.pushes, rest.threw)
  }

  /** The targets whose socket is open, in order. */
  function OpenTargets(ws: map<UserId, Socket>, targets: seq<UserId>): (r: seq<UserId>)
    ensures forall t :: t in r ==> t in targets && IsOpen(ws, t)
  {
    if targets == [] then []
    else (if IsOpen(ws, targets[0]) then [targets[0]] else []) + OpenTargets(ws, targets[1..])
  }

  /** No open socket among the targets throws. */
  predicate SendsSucceed(ws: map<UserId, Socket>, targets: seq<UserId>)
  {
    forall i :: 0 <= i < |targets| && IsOpen(ws, targets[i]) ==> !ws[targets[i]].sendThrows
  }

  /** Extending the loop by one target appends that target's step. */
  lemma {:induction false} FanoutSnoc(ws: map<UserId, Socket>, ts: seq<UserId>, t: UserId, ev: Event)
    requires !Fanout(ws, ts, ev).threw
    ensures Fanout(ws, ts + [t], ev)
         == FanoutResult(Fanout(ws, ts, ev).pushes + SendStep(ws, t, ev).pushes, SendStep(ws, t, ev).threw)
  {
    if ts == [] {
      assert [t][1..] == [];
    } else {
      assert (ts + [t])[1..] == ts[1..] + [t];
      FanoutSnoc(ws, ts[1..], t, ev);
    }
  }

  /** Once a send has thrown, later targets are never reached. */
  lemma {:induction false} FanoutStopsAtThrow(ws: map<UserId, Socket>, ts: seq<UserId>, more: seq<UserId>, ev: Event)
    requires Fanout(ws, ts, ev).threw
    ensures Fanout(ws, ts + more, ev) == Fanout(ws, ts, ev)
  {
    assert ts != [];
    assert (ts + more)[0] == ts[0];
    if !SendStep(ws, ts[0], ev).threw {
      assert (ts + more)[1..] == ts[1..] + more;
      FanoutStopsAtThrow(ws, ts[1..], more, ev);
    }
  }

  /** Every delivered frame is `ev`, for an open target. */
  lemma {:induction false} FanoutSound(ws: map<UserId, Socket>, ts: seq<UserId>, ev: Event)
    ensures forall p :: p in Fanout(ws, ts, ev).pushes ==>
              p.event == ev && p.to in ts && IsOpen(ws, p.to) && !ws[p.to].sendThrows
    ensures |Fanout(ws, ts, ev).pushes| <= |ts|
  {
    if ts != [] {
      FanoutSound(ws, ts[1..], ev);
    }
  }

  /** When no send throws, every open target gets exactly one frame, in order,
      and nothing is reported thrown. */
  lemma {:induction false} FanoutComplete(ws: map<UserId, Socket>, ts: seq<UserId>, ev: Event)
    requires SendsSucceed(ws, ts)
    ensures !Fanout(ws, ts, ev).threw
    ensures Recipients(Fanout(ws, ts, ev).pushes) == OpenTargets(ws, ts)
    ensures forall p :: p in Fanout(ws, ts, ev).pushes ==> p.event == ev
  {
    if ts != [] {
      assert SendsSucceed(ws, ts[1..]) by {
        forall i | 0 <= i < |ts[1..]| && IsOpen(ws, ts[1..][i]) ensures !ws[ts[1..][i]].sendThrows {
          assert ts[1..][i] == ts[i + 1];
        }
      }
      FanoutComplete(ws, ts[1..], ev);
      var first := SendStep(ws, ts[0], ev);
      var rest := Fanout(ws, ts[1..], ev);
      assert Recipients(first.pushes + rest.pushes) == Recipients(first.pushes) + Recipients(rest.pushes);
    }
  }

  // ----- sending over the registry --------------------------------------------------

  /** `const ws = wsClients[t]; if (ws && ws.readyState === 1) ws.send(frame)`. */
  method Send(st: Store, t: UserId, ev: Event) returns (threw: bool)
    modifies st`sent
    ensures st.sent == old(st.sent) + SendStep(st.wsClients, t, ev).pushes
    ensures threw == SendStep(st.wsClients, t, ev).threw
  {
    threw := false;
    if t in st.wsClients && st.wsClients[t].readyState == 1 {
      if st.wsClients[t].sendThrows {
        threw := true;
      } else {
        st.sent := st.sent + [Push(t, ev)];
      }
    }
  }

  /** The same frame to each of `targets` in turn; a `send` that throws leaves
      the loop at once, as the exception does in the handlers. */
  method SendAll(st: Store, targets: seq<UserId>, ev: Event) returns (threw: bool)
    modifies st`sent
    ensures st.sent == old(st.sent) + Fanout(st.wsClients, targets, ev).pushes
    ensures threw == Fanout(st.wsClients, targets, ev).threw
  {
    threw := false;
    var i := 0;
    while i < |targets|
      invariant 0 <= i <= |targets|
      invariant !Fanout(st.wsClients, targets[..i], ev).threw
      invariant st.sent == old(st.sent) + Fanout(st.wsClients, targets[..i], ev).pushes
    {
      FanoutSnoc(st.wsClients, targets[..i], targets[i], ev);
      assert targets[..i + 1] == targets[..i] + [targets[i]];
      threw := Send(st, targets[i], ev);
      if threw {
        FanoutStopsAtThrow(st.wsClients, targets[..i + 1], targets[i + 1..], ev);
        assert targets[..i + 1] + targets[i + 1..] == targets;
        return;
      }
      i := i + 1;
    }
    assert targets[..i] == targets;
  }

  // ----- the state ----------------------------------------------------------------

  /** Each user row sits under its own id, and `usernames` is the unique index on its username. */
  ghost predicate AccountsIndexed(users: map<UserId, User>, usernames: map<string, UserId>)
  {
    && (forall id :: id in users ==> users[id].acct.id == id)
    && (forall n :: n in usernames ==> usernames[n] in users && users[usernames[n]].acct.username == n)
    && (forall id :: id in users ==> users[id].acct.username in usernames && usernames[users[id].acct.username] == id)
  }

  /** Every participant row belongs to an existing conversation whose roster
      names its user; rosters list no one twice; unread counters are never negative. */
  ghost predicate ParticipantsListed(participants: map<(ConvId, UserId), Participant>,
                                     conversations: map<ConvId, Conversation>)
  {
    && (forall k :: k in participants ==> k.0 in conversations && k.1 in conversations[k.0].roster)
    && (forall c :: c in conversations ==> Distinct(conversations[c].roster))
    && (forall k :: k in participants ==> participants[k].unreadCount >= 0)
  }

  /** Notification ids are unique and none is longer than the id counter. */
  ghost predicate NotificationsNumbered(notifications: seq<Notification>, next: nat)
  {
    && UniqueNotificationIds(notifications)
    && (forall i :: 0 <= i < |notifications| ==> |notifications[i].id| <= next)
  }


  class Store {
    /** user table, keyed by id, and the unique index on `username` */
    var users: map<UserId, User>
    var usernames: map<string, UserId>
    /** friendship table, in the store's order */
    var friendships: seq<Friendship>
    var conversations: map<ConvId, Conversation>
    /** conversation-participant table, keyed by (conversation, user) */
    var participants: map<(ConvId, UserId), Participant>
    /** message table, in the store's order */
    var messages: seq<Message>
    /** notification table, in the store's order, and the store's id counter */
    var notifications: seq<Notification>
    var nextNotificationId: nat
    /** the live-socket registry */
    var wsClients: map<UserId, Socket>
    /** every frame delivered so far, oldest first */
    var sent: seq<Push>

    ghost predicate Valid()
      reads this
    {
      && AccountsIndexed(users, usernames)
      && ParticipantsListed(participants, conversations)
      && UniqueMessageIds(messages)
      && NotificationsNumbered(notifications, nextNotificationId)
    }

    constructor ()
      ensures Valid()
      ensures users == map[] && usernames == map[] && friendships == [] && conversations == map[]
      ensures participants == map[] && messages == [] && notifications == [] && nextNotificationId == 0
      ensures wsClients == map[] && sent == []
    {
      users, usernames, friendships, conversations := map[], map[], [], map[];
      participants, messages, notifications, nextNotificationId := map[], [], [], 0;
      wsClients, sent := map[], [];
    }
  }
}
