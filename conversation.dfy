/** A conversation participant's life cycle and the reading of messages:
    paging backwards from a cursor, marking the page seen, resetting the
    reader's unread counter and telling the other members; and the two
    answers to an invitation, accept (PENDING to ACCEPTED) and reject (the
    row is deleted). */
module Conversations {
  import opened Common
  import opened Schema
  import opened Backend
  import opened Notifications
  import opened NotificationService

  // ----- membership ------------------------------------------------------------------

  /** `getUserConversations`: the conversations in which `u` has a row, of any status. */
  function UserConversations(ps: map<(ConvId, UserId), Participant>, u: UserId): (r: set<ConvId>)
    ensures forall c :: c in r <==> (c, u) in ps
  {
    set k | k in ps && k.1 == u :: k.0
  }

  /** The other ACCEPTED members of `c`, in the order the store lists them. */
  function OthersAccepted(ps: map<(ConvId, UserId), Participant>, roster: seq<UserId>, c: ConvId, u: UserId)
    : (r: seq<UserId>)
    ensures forall x :: x in r <==> x in roster && x != u && (c, x) in ps && ps[(c, x)].status == Accepted
  {
    if roster == [] then []
    else
      var x := roster[0];
      (if x != u && (c, x) in ps && ps[(c, x)].status == Accepted then [x] else [])
      + OthersAccepted(ps, roster[1..], c, u)
  }

  /** The first listed other ACCEPTED member is the first in the roster to qualify. */
  lemma {:induction false} FirstOtherAccepted(ps: map<(ConvId, UserId), Participant>, roster: seq<UserId>, c: ConvId, u: UserId)
    requires OthersAccepted(ps, roster, c, u) != []
    ensures exists i :: 0 <= i < |roster| && roster[i] == OthersAccepted(ps, roster, c, u)[0]
              && forall j :: 0 <= j < i ==>
                   !(roster[j] != u && (c, roster[j]) in ps && ps[(c, roster[j])].status == Accepted)
  {
    var x := roster[0];
    if !(x != u && (c, x) in ps && ps[(c, x)].status == Accepted) {
      FirstOtherAccepted(ps, roster[1..], c, u);
      var i :| 0 <= i < |roster[1..]| && roster[1..][i] == OthersAccepted(ps, roster[1..], c, u)[0]
               && forall j :: 0 <= j < i ==>
                    !(roster[1..][j] != u && (c, roster[1..][j]) in ps && ps[(c, roster[1..][j])].status == Accepted);
      assert roster[i + 1] == OthersAccepted(ps, roster, c, u)[0];
      forall j | 0 <= j < i + 1
        ensures !(roster[j] != u && (c, roster[j]) in ps && ps[(c, roster[j])].status == Accepted)
      {
        if j > 0 { assert roster[j] == roster[1..][j - 1]; }
      }
    }
  }

  // ----- paging ---------------------------------------------------------------------

  function SentAt(m: Message): int { m.createdAt }

  /** `where: { conversationId, deletedForAll: false, createdAt: { lt: cursor } }`. */
  predicate Shown(m: Message, c: ConvId, cursor: Option<Time>)
  {
    m.conversationId == c && !m.deletedForAll && (cursor.Some? ==> m.createdAt < cursor.value)
  }

  function Visible(msgs: seq<Message>, c: ConvId, cursor: Option<Time>): (r: seq<Message>)
    ensures |r| <= |msgs|
    ensures forall m :: m in r <==> m in msgs && Shown(m, c, cursor)
  {
    if msgs == [] then []
    else (if Shown(msgs[0], c, cursor) then [msgs[0]] else []) + Visible(msgs[1..], c, cursor)
  }

  /** `findMany({ where, orderBy: { createdAt: 'desc' }, take: limit })`: the
      `limit` newest of the conversation's shown messages (all of them when
      fewer are shown), each as often as the table holds it, newest first. */
  function NewestFirst(msgs: seq<Message>, c: ConvId, cursor: Option<Time>, limit: nat): (r: seq<Message>)
    ensures |r| == if limit < |Visible(msgs, c, cursor)| then limit else |Visible(msgs, c, cursor)|
    ensures multiset(r) <= multiset(Visible(msgs, c, cursor))
    ensures SortedDesc(r, SentAt)
    ensures forall m :: m in r ==> m in msgs && Shown(m, c, cursor)
  {
    var sorted := SortDesc(Visible(msgs, c, cursor), SentAt);
    WindowFacts(Visible(msgs, c, cursor), sorted, 0, limit, SentAt);
    assert Drop(sorted, 0) == sorted;
    var r := Take(sorted, limit);
    assert sorted == r + sorted[|r|..];
    assert multiset(sorted) == multiset(r) + multiset(sorted[|r|..]);
    r
  }

  /** The store may return messages with equal `createdAt` in any order. When
      the shown messages have pairwise different creation times, the page of
      every order the store may choose is the model's page. */
  lemma StoreFetchIsNewestFirst(msgs: seq<Message>, c: ConvId, cursor: Option<Time>, limit: nat,
                                storeOrder: seq<Message>)
    requires multiset(storeOrder) == multiset(Visible(msgs, c, cursor))
    requires StrictlyDesc(storeOrder, SentAt)
    ensures Take(storeOrder, limit) == NewestFirst(msgs, c, cursor, limit)
  {
    SortedPermutationUnique(SortDesc(Visible(msgs, c, cursor), SentAt), storeOrder, SentAt);
  }

  /** When no more than `limit` messages are shown, the page holds all of them. */
  lemma ShortPageIsWhole(msgs: seq<Message>, c: ConvId, cursor: Option<Time>, limit: nat)
    requires |Visible(msgs, c, cursor)| <= limit
    ensures multiset(NewestFirst(msgs, c, cursor, limit)) == multiset(Visible(msgs, c, cursor))
  {
  }

  /** No shown message left off the page is newer than one on it. */
  lemma PageIsNewest(msgs: seq<Message>, c: ConvId, cursor: Option<Time>, limit: nat)
    ensures var r := NewestFirst(msgs, c, cursor, limit);
            forall m, x :: m in Visible(msgs, c, cursor) && m !in r && x in r ==> x.createdAt >= m.createdAt
  {
    var v := Visible(msgs, c, cursor);
    var sorted := SortDesc(v, SentAt);
    var r := Take(sorted, limit);
    forall m, x | m in v && m !in r && x in r ensures x.createdAt >= m.createdAt {
      assert m in multiset(sorted);
      var k :| 0 <= k < |sorted| && sorted[k] == m;
      var j :| 0 <= j < |r| && r[j] == x;
      assert k >= |r|;
      assert sorted[j] == x;
      assert SentAt(sorted[j]) >= SentAt(sorted[k]);
    }
  }

  // ----- seen-marking ----------------------------------------------------------------

  /** `markAsSeen` defaults to 'true'; only that exact string asks for marking. */
  predicate SeenRequested(markAsSeen: Option<string>)
  {
    markAsSeen.None? || markAsSeen.value == "true"
  }

  /** The page's messages from someone other than `u` that nobody has seen yet. */
  function Unread(page: seq<Message>, u: UserId): (r: seq<Message>)
    ensures |r| <= |page|
    ensures forall m :: m in r <==> m in page && m.senderId != u && m.seenAt.None?
  {
    if page == [] then []
    else
      (if page[0].senderId != u && page[0].seenAt.None? then [page[0]] else []) + Unread(page[1..], u)
  }

  function Ids(ms: seq<Message>): (r: seq<MsgId>)
    ensures |r| == |ms|
    ensures forall i :: 0 <= i < |ms| ==> r[i] == ms[i].id
  {
    if ms == [] then [] else [ms[0].id] + Ids(ms[1..])
  }

  /** `updateMany({ where: { id: { in: ids } }, data: { seenAt } })` on one row. */
  function Stamp(m: Message, ids: seq<MsgId>, now: Time): Message
  {
    if m.id in ids then m.(seenAt := Some(now)) else m
  }

  function StampAll(ms: seq<Message>, ids: seq<MsgId>, now: Time): (r: seq<Message>)
    ensures |r| == |ms|
    ensures forall i :: 0 <= i < |ms| ==> r[i] == Stamp(ms[i], ids, now)
  {
    if ms == [] then [] else [Stamp(ms[0], ids, now)] + StampAll(ms[1..], ids, now)
  }

  /** Stamping with no ids changes nothing. */
  lemma StampNothing(ms: seq<Message>, now: Time)
    ensures StampAll(ms, [], now) == ms
  {
    assert forall i :: 0 <= i < |ms| ==> StampAll(ms, [], now)[i] == ms[i];
  }

  /** In a table with unique ids, stamping the page's unread messages changes
      exactly those rows, and changes only their `seenAt`, from null to `now`. */
  lemma MarkedExactlyUnread(msgs: seq<Message>, page: seq<Message>, u: UserId, now: Time)
    requires UniqueMessageIds(msgs)
    requires forall m :: m in page ==> m in msgs
    ensures var after := StampAll(msgs, Ids(Unread(page, u)), now);
            forall i :: 0 <= i < |msgs| ==>
              && (after[i] != msgs[i] <==> msgs[i] in Unread(page, u))
              && (after[i] != msgs[i] ==> msgs[i].seenAt.None? && after[i] == msgs[i].(seenAt := Some(now)))
  {
    var unread := Unread(page, u);
    var ids := Ids(unread);
    forall i | 0 <= i < |msgs|
      ensures msgs[i].id in ids <==> msgs[i] in unread
    {
      if msgs[i].id in ids {
        var k :| 0 <= k < |ids| && ids[k] == msgs[i].id;
        var w := unread[k];
        assert w in msgs;
        var j :| 0 <= j < |msgs| && msgs[j] == w;
        assert msgs[j].id == msgs[i].id;
        assert i == j;
      }
      if msgs[i] in unread {
        var k :| 0 <= k < |unread| && unread[k] == msgs[i];
        assert ids[k] == msgs[i].id;
      }
    }
  }

  /** Filtering and ordering do not look at `seenAt`, so they commute with stamping. */
  lemma {:induction false} VisibleStamp(msgs: seq<Message>, c: ConvId, cursor: Option<Time>, ids: seq<MsgId>, now: Time)
    ensures Visible(StampAll(msgs, ids, now), c, cursor) == StampAll(Visible(msgs, c, cursor), ids, now)
  {
    if msgs != [] {
      VisibleStamp(msgs[1..], c, cursor, ids, now);
      assert StampAll(msgs, ids, now)[1..] == StampAll(msgs[1..], ids, now);
    }
  }

  lemma {:induction false} InsertStamp(x: Message, s: seq<Message>, ids: seq<MsgId>, now: Time)
    ensures Insert(Stamp(x, ids, now), StampAll(s, ids, now), SentAt) == StampAll(Insert(x, s, SentAt), ids, now)
  {
    var ss := StampAll(s, ids, now);
    if s == [] {
      StampCons(x, s, ids, now);
    } else {
      assert ss == [Stamp(s[0], ids, now)] + StampAll(s[1..], ids, now) by { StampCons(s[0], s[1..], ids, now); }
      var sx := Stamp(x, ids, now);
      if x.createdAt < s[0].createdAt {
        assert Insert(x, s, SentAt) == [s[0]] + Insert(x, s[1..], SentAt);
        assert Insert(sx, ss, SentAt) == [ss[0]] + Insert(sx, ss[1..], SentAt);
        InsertStamp(x, s[1..], ids, now);
        StampCons(s[0], Insert(x, s[1..], SentAt), ids, now);
      } else {
        assert Insert(x, s, SentAt) == [x] + s;
        assert Insert(sx, ss, SentAt) == [sx] + ss;
        StampCons(x, s, ids, now);
      }
    }
  }

  lemma StampCons(a: Message, t: seq<Message>, ids: seq<MsgId>, now: Time)
    ensures StampAll([a] + t, ids, now) == [Stamp(a, ids, now)] + StampAll(t, ids, now)
  {
    assert ([a] + t)[1..] == t;
  }

  lemma {:induction false} SortStamp(s: seq<Message>, ids: seq<MsgId>, now: Time)
    ensures SortDesc(StampAll(s, ids, now), SentAt) == StampAll(SortDesc(s, SentAt), ids, now)
  {
    if s != [] {
      SortStamp(s[1..], ids, now);
      assert StampAll(s, ids, now)[1..] == StampAll(s[1..], ids, now);
      InsertStamp(s[0], SortDesc(s[1..], SentAt), ids, now);
    }
  }

  lemma TakeStamp(s: seq<Message>, n: nat, ids: seq<MsgId>, now: Time)
    ensures Take(StampAll(s, ids, now), n) == StampAll(Take(s, n), ids, now)
  {
  }

  /** Fetching again from the stamped table gives the stamped page. */
  lemma FetchAfterStamp(msgs: seq<Message>, c: ConvId, cursor: Option<Time>, limit: nat, ids: seq<MsgId>, now: Time)
    ensures NewestFirst(StampAll(msgs, ids, now), c, cursor, limit) == StampAll(NewestFirst(msgs, c, cursor, limit), ids, now)
  {
    VisibleStamp(msgs, c, cursor, ids, now);
    SortStamp(Visible(msgs, c, cursor), ids, now);
    TakeStamp(SortDesc(Visible(msgs, c, cursor), SentAt), limit, ids, now);
  }

  /** Once a page's unread messages are stamped, none of it is unread. */
  lemma StampedPageHasNoUnread(page: seq<Message>, u: UserId, now: Time)
    ensures Unread(StampAll(page, Ids(Unread(page, u)), now), u) == []
  {
    var unread := Unread(page, u);
    var ids := Ids(unread);
    var page' := StampAll(page, ids, now);
    forall i | 0 <= i < |page'| ensures !(page'[i].senderId != u && page'[i].seenAt.None?) {
      if page[i] in unread {
        var k :| 0 <= k < |unread| && unread[k] == page[i];
        assert ids[k] == page[i].id;
      }
    }
    NothingUnread(page', u);
  }

  lemma {:induction false} NothingUnread(page: seq<Message>, u: UserId)
    requires forall i :: 0 <= i < |page| ==> !(page[i].senderId != u && page[i].seenAt.None?)
    ensures Unread(page, u) == []
  {
    if page != [] {
      assert !(page[0].senderId != u && page[0].seenAt.None?);
      NothingUnread(page[1..], u);
    }
  }

  /** After a fetch that marked its page, the same fetch finds nothing left to
      mark: the second call changes no message. */
  lemma SecondFetchMarksNothing(msgs: seq<Message>, c: ConvId, cursor: Option<Time>, limit: nat, u: UserId, now: Time)
    ensures var ids := Ids(Unread(NewestFirst(msgs, c, cursor, limit), u));
            Unread(NewestFirst(StampAll(msgs, ids, now), c, cursor, limit), u) == []
  {
    var ids := Ids(Unread(NewestFirst(msgs, c, cursor, limit), u));
    FetchAfterStamp(msgs, c, cursor, limit, ids, now);
    StampedPageHasNoUnread(NewestFirst(msgs, c, cursor, limit), u, now);
  }

  /** The same for the orders the store may return: when the shown messages
      have pairwise different `createdAt`, a second read after a marking read
      finds nothing to mark, whichever descending orders the two reads get. */
  lemma SecondStoreFetchMarksNothing(msgs: seq<Message>, c: ConvId, cursor: Option<Time>, limit: nat, u: UserId,
                                     now: Time, first: seq<Message>, second: seq<Message>)
    requires multiset(first) == multiset(Visible(msgs, c, cursor)) && StrictlyDesc(first, SentAt)
    requires var ids := Ids(Unread(Take(first, limit), u));
             multiset(second) == multiset(Visible(StampAll(msgs, ids, now), c, cursor))
             && StrictlyDesc(second, SentAt)
    ensures Unread(Take(second, limit), u) == []
  {
    StoreFetchIsNewestFirst(msgs, c, cursor, limit, first);
    var ids := Ids(Unread(Take(first, limit), u));
    StoreFetchIsNewestFirst(StampAll(msgs, ids, now), c, cursor, limit, second);
    SecondFetchMarksNothing(msgs, c, cursor, limit, u, now);
  }

  /** The reply lists the page oldest first. */
  lemma ReturnedOldestFirst(page: seq<Message>, ids: seq<MsgId>, now: Time)
    requires SortedDesc(page, SentAt)
    ensures var out := Reverse(StampAll(page, ids, now));
            && |out| == |page|
            && (forall i, j :: 0 <= i < j < |out| ==> SentAt(out[i]) <= SentAt(out[j]))
            && (forall i :: 0 <= i < |out| ==> out[i].id == page[|page| - 1 - i].id)
  {
    var s := StampAll(page, ids, now);
    assert SortedDesc(s, SentAt) by {
      forall i, j | 0 <= i < j < |s| ensures SentAt(s[i]) >= SentAt(s[j]) {
        assert SentAt(s[i]) == SentAt(page[i]) && SentAt(s[j]) == SentAt(page[j]);
      }
    }
    ReverseAscending(s, SentAt);
  }

  // ----- the unread counter ------------------------------------------------------------

  /** `updateMany({ where: { conversationId, userId, unreadCount: { gt: 0 } }, data: { unreadCount: 0 } })`. */
  function ResetUnread(p: Participant): (q: Participant)
    ensures q.status == p.status
    ensures p.unreadCount >= 0 ==> q.unreadCount == 0
    ensures q.unreadCount <= p.unreadCount
  {
    if p.unreadCount > 0 then p.(unreadCount := 0) else p
  }

  // ----- getMessages ------------------------------------------------------------------

  /** A successful reply: the page oldest first, and whether the caller may reply. */
  datatype MessagePage = MessagePage(data: seq<Message>, canReply: bool)

  /** The frame telling the other members what `u` has just seen. */
  function SeenEvent(c: ConvId, kind: ConversationKind, u: UserId, now: Time, ids: seq<MsgId>): (ev: Event)
    ensures ev.MessagesSeen? && ev.conversationId == c && ev.messageIds == ids && ev.messageCount == |ids|
  {
    MessagesSeen(c, KindName(kind) == u, now, |ids|, ids)
  }

  /** The messages the call marks: the page's unread ones when marking was asked
      for and the caller has accepted, none otherwise. */
  function ToMark(page: seq<Message>, p: Participant, u: UserId, markAsSeen: Option<string>): (r: seq<Message>)
    ensures SeenRequested(markAsSeen) && p.status == Accepted ==> r == Unread(page, u)
    ensures !(SeenRequested(markAsSeen) && p.status == Accepted) ==> r == []
  {
    if SeenRequested(markAsSeen) && p.status == Accepted then Unread(page, u) else []
  }

  method GetMessages(st: Store, c: ConvId, u: UserId, limit: nat, cursor: Option<Time>,
                     markAsSeen: Option<string>, now: Time) returns (r: Reply<MessagePage>)
    requires st.Valid()
    modifies st`messages, st`participants, st`sent
    ensures st.Valid()
    ensures (c, u) !in old(st.participants) ==>
              && r == Fail(404, "Conversation not found")
              && st.messages == old(st.messages) && st.participants == old(st.participants)
              && st.sent == old(st.sent)
    ensures (c, u) in old(st.participants) ==>
              var p := old(st.participants)[(c, u)];
              var page := NewestFirst(old(st.messages), c, cursor, limit);
              var marked := ToMark(page, p, u, markAsSeen);
              var ids := Ids(marked);
              var fan := if marked == [] then FanoutResult([], false)
                         else Fanout(st.wsClients, OthersAccepted(st.participants, st.conversations[c].roster, c, u),
                                     SeenEvent(c, st.conversations[c].kind, u, now, ids));
              && st.messages == StampAll(old(st.messages), ids, now)
              && st.participants == (if marked == [] then old(st.participants)
                                     else old(st.participants)[(c, u) := ResetUnread(p)])
              && st.sent == old(st.sent) + fan.pushes
              && r == (if fan.threw then Fail(500, "Internal server error")
                       else Ok(MessagePage(Reverse(StampAll(page, ids, now)), p.status == Accepted)))
  {
    if (c, u) !in st.participants {
      return Fail(404, "Conversation not found");
    }
    var p := st.participants[(c, u)];
    var page := NewestFirst(st.messages, c, cursor, limit);
    var messages := page;
    StampNothing(st.messages, now);
    StampNothing(page, now);
    var marked := ToMark(page, p, u, markAsSeen);
    if |marked| > 0 {
      var ids := Ids(marked);
      messages := StampAll(page, ids, now);
      var threw := MarkSeen(st, c, u, marked, now);
      if threw {
        return Fail(500, "Internal server error");
      }
    }
    r := Ok(MessagePage(Reverse(messages), p.status == Accepted));
  }

  /** The writes of a fetch that found `marked` unread: stamp them, reset the
      caller's counter, tell the other ACCEPTED members. */
  method MarkSeen(st: Store, c: ConvId, u: UserId, marked: seq<Message>, now: Time) returns (threw: bool)
    requires st.Valid() && (c, u) in st.participants
    modifies st`messages, st`participants, st`sent
    ensures st.Valid()
    ensures st.messages == StampAll(old(st.messages), Ids(marked), now)
    ensures st.participants == old(st.participants)[(c, u) := ResetUnread(old(st.participants)[(c, u)])]
    ensures var fan := Fanout(st.wsClients, OthersAccepted(st.participants, st.conversations[c].roster, c, u),
                              SeenEvent(c, st.conversations[c].kind, u, now, Ids(marked)));
            st.sent == old(st.sent) + fan.pushes && threw == fan.threw
  {
    var ids := Ids(marked);
    var conv := st.conversations[c];
    StampAndReset(st, c, u, ids, now);
    threw := SendAll(st, OthersAccepted(st.participants, conv.roster, c, u), SeenEvent(c, conv.kind, u, now, ids));
  }

  /** The two table writes of a fetch that marked messages seen. */
  method StampAndReset(st: Store, c: ConvId, u: UserId, ids: seq<MsgId>, now: Time)
    requires st.Valid() && (c, u) in st.participants
    modifies st`messages, st`participants
    ensures st.Valid()
    ensures st.messages == StampAll(old(st.messages), ids, now)
    ensures st.participants == old(st.participants)[(c, u) := ResetUnread(old(st.participants)[(c, u)])]
  {
    StampKeepsIds(st.messages, ids, now);
    ResetKeepsListed(st.participants, st.conversations, (c, u));
    st.messages := StampAll(st.messages, ids, now);
    st.participants := st.participants[(c, u) := ResetUnread(st.participants[(c, u)])];
  }

  lemma ResetKeepsListed(ps: map<(ConvId, UserId), Participant>, convs: map<ConvId, Conversation>, k: (ConvId, UserId))
    requires ParticipantsListed(ps, convs) && k in ps
    ensures ParticipantsListed(ps[k := ResetUnread(ps[k])], convs)
  {
  }

  lemma StampKeepsIds(msgs: seq<Message>, ids: seq<MsgId>, now: Time)
    requires UniqueMessageIds(msgs)
    ensures UniqueMessageIds(StampAll(msgs, ids, now))
  {
    var after := StampAll(msgs, ids, now);
    assert forall i :: 0 <= i < |msgs| ==> after[i].id == msgs[i].id;
  }

  /** The MESSAGES_SEEN frames go to other ACCEPTED members with an open socket
      only, and each carries exactly the marked ids and their number; when no
      send throws, every such member gets one, in roster order. */
  lemma SeenFramesReachAcceptedOthers(ps: map<(ConvId, UserId), Participant>, conv: Conversation,
                                      ws: map<UserId, Socket>, c: ConvId, u: UserId, now: Time, marked: seq<Message>)
    ensures var others := OthersAccepted(ps, conv.roster, c, u);
            var fan := Fanout(ws, others, SeenEvent(c, conv.kind, u, now, Ids(marked)));
            && (forall p :: p in fan.pushes ==>
                  p.to != u && (c, p.to) in ps && ps[(c, p.to)].status == Accepted && IsOpen(ws, p.to)
                  && p.event.MessagesSeen? && p.event.messageIds == Ids(marked)
                  && p.event.messageCount == |marked|)
            && (SendsSucceed(ws, others) ==> Recipients(fan.pushes) == OpenTargets(ws, others))
  {
    var others := OthersAccepted(ps, conv.roster, c, u);
    var ev := SeenEvent(c, conv.kind, u, now, Ids(marked));
    FanoutSound(ws, others, ev);
    if SendsSucceed(ws, others) {
      FanoutComplete(ws, others, ev);
    }
  }

  // ----- invitations ------------------------------------------------------------------

  /** The shared guard of accept and reject: 404 without a row, 400 unless PENDING. */
  function InviteCheck(ps: map<(ConvId, UserId), Participant>, c: ConvId, u: UserId): (r: Option<(int, string)>)
    ensures r.None? <==> (c, u) in ps && ps[(c, u)].status == Pending
    ensures (c, u) !in ps ==> r == Some((404, "Conversation not found"))
    ensures (c, u) in ps && ps[(c, u)].status != Pending ==> r == Some((400, "Invitation is not pending"))
  {
    if (c, u) !in ps then Some((404, "Conversation not found"))
    else if ps[(c, u)].status != Pending then Some((400, "Invitation is not pending"))
    else None
  }

  /** Whom accepting notifies: in a DIRECT conversation, the first other
      ACCEPTED member, if there is one; in a GROUP, nobody. */
  function AcceptNotifyTarget(ps: map<(ConvId, UserId), Participant>, conv: Conversation, c: ConvId, u: UserId)
    : (r: Option<UserId>)
    ensures r.Some? <==>
              conv.kind == Direct
              && exists x :: x in conv.roster && x != u && (c, x) in ps && ps[(c, x)].status == Accepted
    ensures r.Some? ==>
              r.value != u && (c, r.value) in ps && ps[(c, r.value)].status == Accepted
              && exists i :: 0 <= i < |conv.roster| && conv.roster[i] == r.value
                   && forall j :: 0 <= j < i ==>
                        !(conv.roster[j] != u && (c, conv.roster[j]) in ps && ps[(c, conv.roster[j])].status == Accepted)
  {
    var others := OthersAccepted(ps, conv.roster, c, u);
    if conv.kind == Direct && |others| > 0 then
      FirstOtherAccepted(ps, conv.roster, c, u);
      assert others[0] in others;
      Some(others[0])
    else
      assert forall x :: x in conv.roster && x != u && (c, x) in ps && ps[(c, x)].status == Accepted ==> x in others;
      None
  }

  method AcceptConversationInvite(st: Store, c: ConvId, u: UserId, now: Time, persistFails: bool)
      returns (r: Reply<string>)
    requires st.Valid()
    modifies st`participants, st`sent, st`notifications, st`nextNotificationId
    ensures st.Valid()
    ensures InviteCheck(old(st.participants), c, u).Some? ==>
              var e := InviteCheck(old(st.participants), c, u).value;
              && r == Fail(e.0, e.1)
              && st.participants == old(st.participants) && st.sent == old(st.sent)
              && st.notifications == old(st.notifications)
              && st.nextNotificationId == old(st.nextNotificationId)
    ensures InviteCheck(old(st.participants), c, u).None? ==>
              var target := AcceptNotifyTarget(st.participants, st.conversations[c], c, u);
              && st.participants == old(st.participants)[(c, u) := old(st.participants)[(c, u)].(status := Accepted)]
              && Delivered(st, if target.Some?
                               then ConversationAcceptedOutcome(old(st.users), old(st.wsClients), target.value, u, c, now)
                               else Nothing, persistFails, now)
              && r == Ok("Invitation accepted")
  {
    var check := InviteCheck(st.participants, c, u);
    if check.Some? {
      return Fail(check.value.0, check.value.1);
    }
    AcceptRow(st, c, u);
    var conv := st.conversations[c];
    var others := OthersAccepted(st.participants, conv.roster, c, u);
    if |others| > 0 && conv.kind == Direct {
      NotifyConversationRequestAccepted(st, others[0], u, c, now, persistFails);
    }
    r := Ok("Invitation accepted");
  }

  /** `update({ data: { status: 'ACCEPTED' } })` on the caller's row. */
  method AcceptRow(st: Store, c: ConvId, u: UserId)
    requires st.Valid() && (c, u) in st.participants
    modifies st`participants
    ensures st.Valid()
    ensures st.participants == old(st.participants)[(c, u) := old(st.participants)[(c, u)].(status := Accepted)]
  {
    var ps := st.participants;
    assert ParticipantsListed(ps[(c, u) := ps[(c, u)].(status := Accepted)], st.conversations);
    st.participants := ps[(c, u) := ps[(c, u)].(status := Accepted)];
  }

  method RejectConversationInvite(st: Store, c: ConvId, u: UserId) returns (r: Reply<string>)
    requires st.Valid()
    modifies st`participants
    ensures st.Valid()
    ensures InviteCheck(old(st.participants), c, u).Some? ==>
              var e := InviteCheck(old(st.participants), c, u).value;
              r == Fail(e.0, e.1) && st.participants == old(st.participants)
    ensures InviteCheck(old(st.participants), c, u).None? ==>
              st.participants == old(st.participants) - {(c, u)} && r == Ok("Invitation rejected")
  {
    var check := InviteCheck(st.participants, c, u);
    if check.Some? {
      return Fail(check.value.0, check.value.1);
    }
    st.participants := st.participants - {(c, u)};
    r := Ok("Invitation rejected");
  }

  // ----- the participant state machine --------------------------------------------------

  /** Status only moves forward: accepting a pending row succeeds once, and a
      second accept of the same row is refused with 400 and changes nothing. */
  lemma AcceptOnlyOnce(ps: map<(ConvId, UserId), Participant>, c: ConvId, u: UserId)
    requires InviteCheck(ps, c, u).None?
    ensures var ps' := ps[(c, u) := ps[(c, u)].(status := Accepted)];
            InviteCheck(ps', c, u) == Some((400, "Invitation is not pending"))
            && forall k :: k in ps && k != (c, u) ==> k in ps' && ps'[k] == ps[k]
  {
  }

  /** After a reject the caller is no participant at all: reading the
      conversation answers 404, as for a stranger. */
  lemma RejectLeavesNoRow(ps: map<(ConvId, UserId), Participant>, c: ConvId, u: UserId)
    requires InviteCheck(ps, c, u).None?
    ensures var ps' := ps - {(c, u)};
            c !in UserConversations(ps', u)
            && InviteCheck(ps', c, u) == Some((404, "Conversation not found"))
            && forall k :: k in ps && k != (c, u) ==> k in ps' && ps'[k] == ps[k]
  {
  }
}
