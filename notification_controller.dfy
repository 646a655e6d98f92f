/** The notification table's handlers: creating a record, listing a user's
    records page by page, marking one or all of them read, and counting the
    unread ones. */
module Notifications {
  import opened Common
  import opened Schema
  import opened Backend

  /** The argument object of `createNotification`; `priority` may be omitted. */
  datatype NotificationInput = NotificationInput(
    userId: UserId,
    kind: NotificationType,
    title: string,
    body: string,
    fromUserId: Option<UserId>,
    relatedId: Option<string>,
    relatedType: Option<string>,
    actionUrl: Option<string>,
    priority: Option<Priority>,
    metadata: Option<map<string, MetaValue>>)

  /** The row the store creates from `input`, under id `id` at time `now`. */
  function Materialize(input: NotificationInput, id: NotifId, now: Time): (n: Notification)
    ensures n.id == id && n.userId == input.userId && n.kind == input.kind
    ensures n.title == input.title && n.body == input.body
    ensures n.fromUserId == input.fromUserId && n.relatedId == input.relatedId
    ensures n.relatedType == input.relatedType && n.actionUrl == input.actionUrl
    ensures n.metadata == input.metadata
    ensures input.priority.None? ==> n.priority == Medium
    ensures input.priority.Some? ==> n.priority == input.priority.value
    ensures !n.isRead && n.readAt.None? && n.createdAt == now
  {
    Notification(
      id, input.userId, input.kind, input.title, input.body,
      input.fromUserId, input.relatedId, input.relatedType, input.actionUrl,
      if input.priority.Some? then input.priority.value else Medium,
      input.metadata, false, None, now)
  }

  /** `createNotification`: one new row at the end of the table, or, when the
      store's `create` fails (`persistFails`), no change and `null`. */
  method CreateNotification(st: Store, input: NotificationInput, now: Time, persistFails: bool)
      returns (r: Option<Notification>)
    requires st.Valid()
    modifies st`notifications, st`nextNotificationId
    ensures st.Valid()
    ensures persistFails ==>
              (r.None? && st.notifications == old(st.notifications)
               && st.nextNotificationId == old(st.nextNotificationId))
    ensures !persistFails ==>
              (r == Some(Materialize(input, FreshId(old(st.nextNotificationId)), now))
               && st.notifications == old(st.notifications) + [r.value]
               && st.nextNotificationId == old(st.nextNotificationId) + 1)
  {
    if persistFails {
      return None;
    }
    var n := Materialize(input, FreshId(st.nextNotificationId), now);
    st.notifications := st.notifications + [n];
    st.nextNotificationId := st.nextNotificationId + 1;
    r := Some(n);
  }

  // ----- queries -----------------------------------------------------------------

  function CreatedAt(n: Notification): int { n.createdAt }

  /** The filter of `getUserNotifications`: the caller's rows, and only unread ones under `unreadOnly`. */
  predicate Selected(n: Notification, u: UserId, unreadOnly: bool)
  {
    n.userId == u && (unreadOnly ==> !n.isRead)
  }

  /** The rows matching `{ userId, ...(unreadOnly ? { isRead: false } : {}) }`, in table order. */
  function Matching(t: seq<Notification>, u: UserId, unreadOnly: bool): (r: seq<Notification>)
    ensures |r| <= |t|
    ensures forall n :: n in r <==> n in t && Selected(n, u, unreadOnly)
  {
    if t == [] then []
    else
      (if Selected(t[0], u, unreadOnly) then [t[0]] else [])
      + Matching(t[1..], u, unreadOnly)
  }

  lemma {:induction false} MatchingSnoc(t: seq<Notification>, x: Notification, u: UserId, unreadOnly: bool)
    ensures Matching(t + [x], u, unreadOnly)
         == Matching(t, u, unreadOnly) + (if Selected(x, u, unreadOnly) then [x] else [])
  {
    if t == [] {
      assert [] + [x] == [x];
      assert [x][1..] == [];
    } else {
      assert (t + [x])[0] == t[0];
      assert (t + [x])[1..] == t[1..] + [x];
      MatchingSnoc(t[1..], x, u, unreadOnly);
    }
  }

  /** The table positions whose row the filter selects. */
  function Positions(t: seq<Notification>, u: UserId, unreadOnly: bool): set<int>
  {
    set i | 0 <= i < |t| && Selected(t[i], u, unreadOnly)
  }

  lemma PositionsSnoc(s: seq<Notification>, x: Notification, u: UserId, unreadOnly: bool)
    ensures Positions(s + [x], u, unreadOnly)
         == Positions(s, u, unreadOnly) + (if Selected(x, u, unreadOnly) then {|s|} else {})
    ensures |s| !in Positions(s, u, unreadOnly)
  {
    var t := s + [x];
    assert forall i :: 0 <= i < |s| ==> t[i] == s[i];
  }

  /** The number of rows listed is the number of table positions whose row is selected. */
  lemma {:induction false} MatchingCount(t: seq<Notification>, u: UserId, unreadOnly: bool)
    ensures |Matching(t, u, unreadOnly)| == |Positions(t, u, unreadOnly)|
  {
    if t == [] {
      assert Positions(t, u, unreadOnly) == {};
    } else {
      var s := t[..|t| - 1];
      var x := t[|t| - 1];
      assert t == s + [x];
      MatchingSnoc(s, x, u, unreadOnly);
      MatchingCount(s, u, unreadOnly);
      PositionsSnoc(s, x, u, unreadOnly);
    }
  }

  /** `prisma.notification.count({ where: { userId, isRead: false } })`: the
      number of the caller's unread rows. */
  function UnreadCount(t: seq<Notification>, u: UserId): (count: nat)
    ensures count <= |t|
    ensures count == |Positions(t, u, true)|
    ensures count == 0 <==> forall i :: 0 <= i < |t| && t[i].userId == u ==> t[i].isRead
  {
    MatchingCount(t, u, true);
    NoUnreadPositions(t, u);
    |Matching(t, u, true)|
  }

  /** The caller has no unread position exactly when all of their rows are read. */
  lemma NoUnreadPositions(t: seq<Notification>, u: UserId)
    ensures |Positions(t, u, true)| == 0 <==> forall i :: 0 <= i < |t| && t[i].userId == u ==> t[i].isRead
  {
    if i :| 0 <= i < |t| && t[i].userId == u && !t[i].isRead {
      assert i in Positions(t, u, true);
    }
  }

  /** `pages` pages of `limit` rows hold `total` rows, and one page fewer would not. */
  predicate CoversExactly(pages: nat, limit: nat, total: nat)
  {
    pages * limit >= total && (pages > 0 ==> (pages - 1) * limit < total)
  }

  /** `Math.ceil(total / limit)` for a positive `limit`. */
  function CeilDiv(total: nat, limit: nat): (pages: nat)
    requires limit > 0
    ensures CoversExactly(pages, limit, total)
  {
    if total == 0 then 0
    else if total <= limit then 1
    else
      var rest := CeilDiv(total - limit, limit);
      assert (rest + 1) * limit == rest * limit + limit;
      rest + 1
  }

  /** `skip = (pageNum - 1) * limitNum`: negative exactly for a page below 1 with a positive limit. */
  function Skip(page: int, limit: nat): (skip: int)
    ensures skip < 0 <==> page < 1 && limit > 0
  {
    NonNegativeProduct(page - 1, limit);
    NegativeProduct(page - 1, limit);
    (page - 1) * limit
  }

  /** The caller's matching rows, `orderBy: { createdAt: 'desc' }`. */
  function Ordered(t: seq<Notification>, u: UserId, unreadOnly: Option<string>): (r: seq<Notification>)
    ensures multiset(r) == multiset(Matching(t, u, unreadOnly == Some("true")))
    ensures SortedDesc(r, CreatedAt)
  {
    SortDesc(Matching(t, u, unreadOnly == Some("true")), CreatedAt)
  }

  /** The body of a successful listing. `pages` is None where the division
      by a zero `limit` gives Infinity or NaN, both serialised as null. */
  datatype Listing = Listing(
    notifications: seq<Notification>,
    total: nat,
    page: int,
    limit: nat,
    pages: Option<nat>,
    unreadCount: nat)

  /** What a successful listing promises: at most `limit` of the caller's
      matching rows, newest first, with the totals over all of them. */
  predicate ListingMeets(t: seq<Notification>, u: UserId, limit: nat, unreadOnly: Option<string>, l: Listing)
  {
    && |l.notifications| <= limit
    && SortedDesc(l.notifications, CreatedAt)
    && (forall n :: n in l.notifications ==> n in t && Selected(n, u, unreadOnly == Some("true")))
    && l.total == |Matching(t, u, unreadOnly == Some("true"))|
    && l.unreadCount == UnreadCount(t, u)
    && (limit == 0 <==> l.pages.None?)
    && (l.pages.Some? ==> CoversExactly(l.pages.value, limit, l.total))
  }

  /** `getUserNotifications` with `page` and `limit` already parsed. */
  function ListNotifications(t: seq<Notification>, u: UserId, page: int, limit: nat, unreadOnly: Option<string>)
    : (r: Reply<Listing>)
    ensures r.Fail? <==> page < 1 && limit > 0
    ensures r.Fail? ==> r.status == 500
    ensures r.Ok? ==> r.value.page == page && r.value.limit == limit && ListingMeets(t, u, limit, unreadOnly, r.value)
  {
    var skip := Skip(page, limit);
    if skip < 0 then Fail(500, "Failed to fetch notifications")
    else Ok(ListingAt(t, u, page, limit, unreadOnly, skip))
  }

  /** The listing body for a non-negative `skip`. */
  function ListingAt(t: seq<Notification>, u: UserId, page: int, limit: nat, unreadOnly: Option<string>, skip: nat)
    : (l: Listing)
    ensures l.page == page && l.limit == limit
    ensures l.notifications == Take(Drop(Ordered(t, u, unreadOnly), skip), limit)
    ensures l.total == |Positions(t, u, unreadOnly == Some("true"))|
    ensures ListingMeets(t, u, limit, unreadOnly, l)
  {
    var rows := Matching(t, u, unreadOnly == Some("true"));
    var ordered := Ordered(t, u, unreadOnly);
    WindowFacts(rows, ordered, skip, limit, CreatedAt);
    MatchingCount(t, u, unreadOnly == Some("true"));
    Listing(Take(Drop(ordered, skip), limit), |rows|, page, limit,
            if limit == 0 then None else Some(CeilDiv(|rows|, limit)),
            UnreadCount(t, u))
  }

  /** Pages partition the ordered rows: page `p` (from 1) is the slice
      `[(p-1)*limit, p*limit)` of the descending order, cut at its end. */
  lemma {:induction false} PageIsSlice(t: seq<Notification>, u: UserId, page: int, limit: nat, unreadOnly: Option<string>)
    requires page >= 1 && limit > 0
    ensures ListNotifications(t, u, page, limit, unreadOnly).Ok?
    ensures var ordered := Ordered(t, u, unreadOnly);
            var lo := Skip(page, limit);
            lo <= |ordered| ==>
              ListNotifications(t, u, page, limit, unreadOnly).value.notifications
              == ordered[lo..if lo + limit <= |ordered| then lo + limit else |ordered|]
  {
    var lo := Skip(page, limit);
    ListedWindow(t, u, page, limit, unreadOnly);
    if lo <= |Ordered(t, u, unreadOnly)| {
      WindowIsSlice(Ordered(t, u, unreadOnly), lo, limit);
    }
  }

  /** The store may return rows with equal `createdAt` in any order. When the
      caller's matching rows have pairwise different creation times, every
      order the store may choose is the model's, so the page is the same. */
  lemma PageOfTieFreeOrder(t: seq<Notification>, u: UserId, page: int, limit: nat, unreadOnly: Option<string>,
                           storeOrder: seq<Notification>)
    requires Skip(page, limit) >= 0
    requires multiset(storeOrder) == multiset(Matching(t, u, unreadOnly == Some("true")))
    requires StrictlyDesc(storeOrder, CreatedAt)
    ensures ListNotifications(t, u, page, limit, unreadOnly).Ok?
    ensures ListNotifications(t, u, page, limit, unreadOnly).value.notifications
         == Take(Drop(storeOrder, Skip(page, limit)), limit)
  {
    ListedWindow(t, u, page, limit, unreadOnly);
    SortedPermutationUnique(Ordered(t, u, unreadOnly), storeOrder, CreatedAt);
  }

  /** A successful listing shows the window `[skip, skip + limit)` of the descending order. */
  lemma ListedWindow(t: seq<Notification>, u: UserId, page: int, limit: nat, unreadOnly: Option<string>)
    requires Skip(page, limit) >= 0
    ensures ListNotifications(t, u, page, limit, unreadOnly).Ok?
    ensures ListNotifications(t, u, page, limit, unreadOnly).value.notifications
         == Take(Drop(Ordered(t, u, unreadOnly), Skip(page, limit)), limit)
  {
  }

  lemma WindowIsSlice<T>(s: seq<T>, lo: nat, limit: nat)
    requires lo <= |s|
    ensures Take(Drop(s, lo), limit) == s[lo..if lo + limit <= |s| then lo + limit else |s|]
  {
    var items := Take(Drop(s, lo), limit);
    var hi := if lo + limit <= |s| then lo + limit else |s|;
    assert |items| == hi - lo;
    assert forall i :: 0 <= i < |items| ==> items[i] == s[lo + i];
  }

  lemma NonNegativeProduct(a: int, b: int)
    ensures a >= 0 && b >= 0 ==> a * b >= 0
  {
  }

  lemma NegativeProduct(a: int, b: int)
    ensures a < 0 && b > 0 ==> a * b < 0
  {
  }

  /** The unread count does not depend on the `unreadOnly` filter. */
  lemma UnreadCountIgnoresFilter(t: seq<Notification>, u: UserId, page: int, limit: nat, a: Option<string>, b: Option<string>)
    requires page >= 1 || limit == 0
    ensures ListNotifications(t, u, page, limit, a).value.unreadCount
         == ListNotifications(t, u, page, limit, b).value.unreadCount
  {
  }

  // ----- marking read ---------------------------------------------------------------

  /** `updateMany({ where: { userId, isRead: false }, data: { isRead: true, readAt } })`. */
  function MarkAllRead(t: seq<Notification>, u: UserId, now: Time): (r: seq<Notification>)
    ensures |r| == |t|
    ensures forall i :: 0 <= i < |t| ==>
              r[i] == if t[i].userId == u && !t[i].isRead then t[i].(isRead := true, readAt := Some(now)) else t[i]
  {
    if t == [] then []
    else
      [if t[0].userId == u && !t[0].isRead then t[0].(isRead := true, readAt := Some(now)) else t[0]]
      + MarkAllRead(t[1..], u, now)
  }

  /** `update({ where: { id }, data: { isRead: true, readAt } })`. */
  function MarkOneRead(t: seq<Notification>, id: NotifId, now: Time): (r: seq<Notification>)
    ensures |r| == |t|
    ensures forall i :: 0 <= i < |t| ==>
              r[i] == if t[i].id == id then t[i].(isRead := true, readAt := Some(now)) else t[i]
  {
    if t == [] then []
    else
      [if t[0].id == id then t[0].(isRead := true, readAt := Some(now)) else t[0]]
      + MarkOneRead(t[1..], id, now)
  }

  /** The caller's row with this id, if any (`findFirst({ where: { id, userId } })`). */
  predicate Owns(t: seq<Notification>, u: UserId, id: NotifId)
  {
    exists i :: 0 <= i < |t| && t[i].id == id && t[i].userId == u
  }

  /** What `markAsRead` reports: how many rows mark-all changed, or one row marked. */
  datatype Marked = MarkedAll(count: nat) | MarkedOne

  /** `markAsRead`: mark-all (by the `markAll` flag or the id "all"), or mark one
      row the caller owns, or 404. */
  method MarkAsRead(st: Store, u: UserId, id: NotifId, markAll: bool, now: Time) returns (r: Reply<Marked>)
    requires st.Valid()
    modifies st`notifications
    ensures st.Valid()
    ensures (markAll || id == "all") ==>
              r == Ok(MarkedAll(UnreadCount(old(st.notifications), u)))
              && st.notifications == MarkAllRead(old(st.notifications), u, now)
    ensures !(markAll || id == "all") && !Owns(old(st.notifications), u, id) ==>
              r == Fail(404, "Notification not found") && st.notifications == old(st.notifications)
    ensures !(markAll || id == "all") && Owns(old(st.notifications), u, id) ==>
              r == Ok(MarkedOne) && st.notifications == MarkOneRead(old(st.notifications), id, now)
  {
    if markAll || id == "all" {
      var count := UnreadCount(st.notifications, u);
      KeepsIds(st.notifications, MarkAllRead(st.notifications, u, now), st.nextNotificationId);
      st.notifications := MarkAllRead(st.notifications, u, now);
      return Ok(MarkedAll(count));
    }
    if !Owns(st.notifications, u, id) {
      return Fail(404, "Notification not found");
    }
    KeepsIds(st.notifications, MarkOneRead(st.notifications, id, now), st.nextNotificationId);
    st.notifications := MarkOneRead(st.notifications, id, now);
    r := Ok(MarkedOne);
  }

  /** Rewriting rows in place without touching their ids keeps the table's id invariants. */
  lemma KeepsIds(t: seq<Notification>, t': seq<Notification>, next: nat)
    requires |t'| == |t| && forall i :: 0 <= i < |t| ==> t'[i].id == t[i].id
    requires UniqueNotificationIds(t)
    requires forall i :: 0 <= i < |t| ==> |t[i].id| <= next
    ensures UniqueNotificationIds(t')
    ensures forall i :: 0 <= i < |t'| ==> |t'[i].id| <= next
  {
  }

  // ----- properties of marking ------------------------------------------------------

  /** Mark-all leaves the caller with nothing unread. */
  lemma {:induction false} MarkAllLeavesNoneUnread(t: seq<Notification>, u: UserId, now: Time)
    ensures UnreadCount(MarkAllRead(t, u, now), u) == 0
  {
    if t != [] {
      MarkAllLeavesNoneUnread(t[1..], u, now);
      assert MarkAllRead(t, u, now)[1..] == MarkAllRead(t[1..], u, now);
    }
  }

  /** Mark-all does not change another user's unread count. */
  lemma {:induction false} MarkAllKeepsOthersUnread(t: seq<Notification>, u: UserId, v: UserId, now: Time)
    requires v != u
    ensures UnreadCount(MarkAllRead(t, u, now), v) == UnreadCount(t, v)
  {
    if t != [] {
      MarkAllKeepsOthersUnread(t[1..], u, v, now);
      assert MarkAllRead(t, u, now)[1..] == MarkAllRead(t[1..], u, now);
    }
  }

  /** Marking one row read changes nothing but that row, and repeating it keeps it read. */
  lemma MarkOneIdempotentRead(t: seq<Notification>, id: NotifId, now: Time, later: Time)
    ensures forall i :: 0 <= i < |t| && t[i].id == id ==>
              MarkOneRead(MarkOneRead(t, id, now), id, later)[i].isRead
    ensures forall i :: 0 <= i < |t| && t[i].id != id ==> MarkOneRead(t, id, now)[i] == t[i]
  {
  }
}
