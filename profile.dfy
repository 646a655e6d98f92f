/** Profiles: what a visitor may see of another user, and the two updates a
    user makes to their own row — privacy levels and profile fields. */
module Profiles {
  import opened Common
  import opened Schema
  import opened Backend

  // ----- visibility -------------------------------------------------------------------

  /** A field under privacy level `level` is shown to this visitor: the level
      is "public", or "friends_only" and the visitor is a friend. Any other
      value, "private" included, hides it. */
  predicate Disclosed(level: string, isFriend: bool)
  {
    level == "public" || (level == "friends_only" && isFriend)
  }

  /** A friend sees whatever a stranger sees; 'friends_only' shows a field to
      friends alone; any other level than 'public' or 'friends_only' (such as
      'private') hides it from everyone but the owner. */
  lemma DisclosureOrder(level: string, isFriend: bool)
    ensures Disclosed(level, false) ==> Disclosed(level, true)
    ensures level == "friends_only" ==> (Disclosed(level, isFriend) <==> isFriend)
    ensures level != "public" && level != "friends_only" ==> !Disclosed(level, isFriend)
  {
  }

  /** What `getProfileByUsername` answers. The owner sees the whole row (less
      the password hash) with the presence flag; anyone else sees the base
      fields, and each guarded field is `Some` exactly when it is included. */
  datatype ProfileView =
    | OwnProfile(account: Account, presence: bool)
    | PublicProfile(
        id: UserId, username: string, displayName: Option<string>, createdAt: Time,
        avatarUrl: Option<string>, bio: Option<string>, totalOnlineSeconds: int,
        email: Option<string>,
        dateOfBirth: Option<Time>,
        lastOnlineAt: Option<Option<Time>>,
        isOnline: Option<bool>,
        socialMedia: Option<Social>)

  /** `getProfileByUsername`. `online` is the presence store's answer for the
      profile's owner, consulted only where the profile shows it. */
  method GetProfileByUsername(st: Store, username: string, requesterId: Option<UserId>, online: bool)
      returns (r: Reply<ProfileView>)
    requires st.Valid()
    ensures username !in st.usernames ==> r == Fail(404, "User not found")
    ensures username in st.usernames && requesterId == Some(st.usernames[username]) ==>
              r == Ok(OwnProfile(st.users[st.usernames[username]].acct, online))
    ensures username in st.usernames && requesterId != Some(st.usernames[username]) ==>
              var a := st.users[st.usernames[username]].acct;
              var friend := requesterId.Some? && Friendship(requesterId.value, a.id) in st.friendships;
              && r.Ok? && r.value.PublicProfile?
              && r.value.id == a.id && r.value.username == a.username && r.value.displayName == a.displayName
              && r.value.bio == a.bio && r.value.avatarUrl == a.avatarUrl && r.value.createdAt == a.createdAt
              && r.value.totalOnlineSeconds == a.totalOnlineSeconds
              && (r.value.email.Some? <==> Truthy(a.email) && Disclosed(a.privacy.email, friend))
              && (r.value.email.Some? ==> r.value.email == a.email)
              && (r.value.dateOfBirth.Some? <==> a.dateOfBirth.Some? && Disclosed(a.privacy.dob, friend))
              && (r.value.dateOfBirth.Some? ==> r.value.dateOfBirth == a.dateOfBirth)
              && (r.value.lastOnlineAt.Some? <==> Disclosed(a.privacy.lastOnline, friend))
              && (r.value.lastOnlineAt.Some? ==> r.value.lastOnlineAt.value == a.lastOnlineAt)
              && (r.value.isOnline.Some? <==> Disclosed(a.privacy.online, friend))
              && (r.value.isOnline.Some? ==> r.value.isOnline.value == online)
              && (r.value.socialMedia.Some? <==> Disclosed(a.privacy.socialMedia, friend))
              && (r.value.socialMedia.Some? ==> r.value.socialMedia.value == a.social)
  {
    if username !in st.usernames {
      return Fail(404, "User not found");
    }
    var user := st.users[st.usernames[username]].acct;
    if requesterId == Some(user.id) {
      return Ok(OwnProfile(user, online));
    }
    var isFriend := false;
    if requesterId.Some? {
      isFriend := Friendship(requesterId.value, user.id) in st.friendships;
    }
    // Each guarded field is added to the base object only when its level discloses it.
    var email := if Truthy(user.email) && Disclosed(user.privacy.email, isFriend) then user.email else None;
    var dob := if user.dateOfBirth.Some? && Disclosed(user.privacy.dob, isFriend) then user.dateOfBirth else None;
    var lastOnline := if Disclosed(user.privacy.lastOnline, isFriend) then Some(user.lastOnlineAt) else None;
    var isOnline := if Disclosed(user.privacy.online, isFriend) then Some(online) else None;
    var social := if Disclosed(user.privacy.socialMedia, isFriend) then Some(user.social) else None;
    var profile := PublicProfile(user.id, user.username, user.displayName, user.createdAt,
                                 user.avatarUrl, user.bio, user.totalOnlineSeconds,
                                 email, dob, lastOnline, isOnline, social);
    r := Ok(profile);
  }

  // ----- privacy settings ---------------------------------------------------------------

  datatype PrivacyField = OnlineField | LastOnlineField | TabField | EmailField | DobField | SocialMediaField | FriendsListField

  function Level(p: Privacy, f: PrivacyField): string
  {
    match f
    case OnlineField => p.online
    case LastOnlineField => p.lastOnline
    case TabField => p.tab
    case EmailField => p.email
    case DobField => p.dob
    case SocialMediaField => p.socialMedia
    case FriendsListField => p.friendsList
  }

  /** The seven privacy values of the request body; None for undefined or null. */
  datatype PrivacyInput = PrivacyInput(
    online: Option<string>, lastOnline: Option<string>, tab: Option<string>, email: Option<string>,
    dob: Option<string>, socialMedia: Option<string>, friendsList: Option<string>)

  function Requested(i: PrivacyInput, f: PrivacyField): Option<string>
  {
    match f
    case OnlineField => i.online
    case LastOnlineField => i.lastOnline
    case TabField => i.tab
    case EmailField => i.email
    case DobField => i.dob
    case SocialMediaField => i.socialMedia
    case FriendsListField => i.friendsList
  }

  function Pick(requested: Option<string>, current: string): string
  {
    if Truthy(requested) then requested.value else current
  }

  /** The `...(x && { x })` spread: a truthy value replaces the stored level,
      anything else leaves it. */
  function MergePrivacy(p: Privacy, i: PrivacyInput): (r: Privacy)
    ensures forall f :: Truthy(Requested(i, f)) ==> Level(r, f) == Requested(i, f).value
    ensures forall f :: !Truthy(Requested(i, f)) ==> Level(r, f) == Level(p, f)
  {
    Privacy(Pick(i.online, p.online), Pick(i.lastOnline, p.lastOnline), Pick(i.tab, p.tab),
            Pick(i.email, p.email), Pick(i.dob, p.dob), Pick(i.socialMedia, p.socialMedia),
            Pick(i.friendsList, p.friendsList))
  }

  /** Sending the same settings twice is the same as sending them once. */
  lemma MergeIdempotent(p: Privacy, i: PrivacyInput)
    ensures MergePrivacy(MergePrivacy(p, i), i) == MergePrivacy(p, i)
  {
  }

  /** `updatePrivacySettings`. An unknown user makes the store's `update` throw: 500. */
  method UpdatePrivacySettings(st: Store, u: UserId, i: PrivacyInput) returns (r: Reply<Privacy>)
    requires st.Valid()
    modifies st`users
    ensures st.Valid()
    ensures u !in old(st.users) ==> r == Fail(500, "Internal server error") && st.users == old(st.users)
    ensures u in old(st.users) ==>
              var row := old(st.users)[u];
              var p := MergePrivacy(row.acct.privacy, i);
              && st.users == old(st.users)[u := row.(acct := row.acct.(privacy := p))]
              && r == Ok(p)
  {
    if u !in st.users {
      return Fail(500, "Internal server error");
    }
    var row := st.users[u];
    var p := MergePrivacy(row.acct.privacy, i);
    st.users := st.users[u := row.(acct := row.acct.(privacy := p))];
    r := Ok(p);
  }

  // ----- profile fields ----------------------------------------------------------------

  /** The characters `String.prototype.trim` removes: white space and line terminators. */
  predicate IsSpace(ch: char)
  {
    || ch == '\t' || ch == '\n' || ch == '\U{000B}' || ch == '\U{000C}' || ch == '\r' || ch == ' '
    || ch == '\U{00A0}' || ch == '\U{1680}' || '\U{2000}' <= ch <= '\U{200A}'
    || ch == '\U{2028}' || ch == '\U{2029}' || ch == '\U{202F}' || ch == '\U{205F}'
    || ch == '\U{3000}' || ch == '\U{FEFF}'
  }

  /** The first index at or after `i` that is not white space (`|s|` if none). */
  function SkipSpaceFrom(s: string, i: nat): (k: nat)
    requires i <= |s|
    ensures i <= k <= |s|
    ensures forall m :: i <= m < k ==> IsSpace(s[m])
    ensures k < |s| ==> !IsSpace(s[k])
    decreases |s| - i
  {
    if i < |s| && IsSpace(s[i]) then SkipSpaceFrom(s, i + 1) else i
  }

  /** The end of `s[lo..j]` once trailing white space is cut off. */
  function SkipSpaceBack(s: string, lo: nat, j: nat): (k: nat)
    requires lo <= j <= |s|
    ensures lo <= k <= j
    ensures forall m :: k <= m < j ==> IsSpace(s[m])
    ensures k > lo ==> !IsSpace(s[k - 1])
  {
    if j > lo && IsSpace(s[j - 1]) then SkipSpaceBack(s, lo, j - 1) else j
  }

  function TrimFrom(s: string): nat
  {
    SkipSpaceFrom(s, 0)
  }

  function TrimTo(s: string): nat
  {
    SkipSpaceBack(s, TrimFrom(s), |s|)
  }

  /** `s.trim()`: the slice of `s` left when white space is cut from both ends. */
  function Trim(s: string): (r: string)
    ensures TrimFrom(s) <= TrimTo(s) <= |s| && r == s[TrimFrom(s)..TrimTo(s)]
    ensures forall k :: 0 <= k < TrimFrom(s) ==> IsSpace(s[k])
    ensures forall k :: TrimTo(s) <= k < |s| ==> IsSpace(s[k])
    ensures r != [] ==> !IsSpace(r[0]) && !IsSpace(r[|r| - 1])
  {
    s[TrimFrom(s)..TrimTo(s)]
  }

  /** A body field: left out (`undefined`), `null`, or given. */
  datatype Field<+T> = Undefined | Null | Given(value: T)

  /** `...(x !== undefined && { x: x?.trim() || null })` for one text column. */
  function ApplyText(current: Option<string>, f: Field<string>): (r: Option<string>)
    ensures f.Undefined? ==> r == current
    ensures f.Null? ==> r.None?
    ensures f.Given? ==> (r.None? <==> Trim(f.value) == "")
    ensures f.Given? && r.Some? ==> r.value == Trim(f.value) && !IsSpace(r.value[0]) && !IsSpace(r.value[|r.value| - 1])
  {
    match f
    case Undefined => current
    case Null => None
    case Given(s) => if Trim(s) == "" then None else Some(Trim(s))
  }

  /** Applying the same text twice stores the same value as applying it once. */
  lemma {:induction false} TrimIdempotent(s: string)
    ensures Trim(Trim(s)) == Trim(s)
  {
    var t := Trim(s);
    if t != [] {
      assert TrimFrom(t) == 0;
      assert TrimTo(t) == |t|;
    }
  }

  datatype ProfileInput = ProfileInput(
    displayName: Field<string>, bio: Field<string>, dateOfBirth: Field<Time>,
    twitter: Field<string>, linkedin: Field<string>, instagram: Field<string>, github: Field<string>,
    website: Field<string>, telegram: Field<string>, snapchat: Field<string>, discord: Field<string>,
    avatarUrl: Field<string>)

  predicate DisplayNameTooLong(i: ProfileInput)
  {
    i.displayName.Given? && i.displayName.value != "" && |Trim(i.displayName.value)| > 100
  }

  predicate BioTooLong(i: ProfileInput)
  {
    i.bio.Given? && i.bio.value != "" && |i.bio.value| > 500
  }

  /** The length checks of `updateProfile`, display name first: the 400
      message, or None when both pass. */
  function LengthError(i: ProfileInput): (r: Option<string>)
    ensures r.None? <==> !DisplayNameTooLong(i) && !BioTooLong(i)
    ensures DisplayNameTooLong(i) ==> r == Some("Display name too long")
    ensures !DisplayNameTooLong(i) && BioTooLong(i) ==> r == Some("Bio too long")
  {
    if DisplayNameTooLong(i) then Some("Display name too long")
    else if BioTooLong(i) then Some("Bio too long")
    else None
  }

  /** A stored display name or bio never exceeds what the checks allowed: one
      that passes the length checks is stored with at most 100 (display name)
      or 500 (bio) characters. */
  lemma StoredLengthsBounded(a: Account, i: ProfileInput)
    requires LengthError(i).None?
    ensures i.displayName.Given? ==> (ApplyText(a.displayName, i.displayName).Some? ==>
              |ApplyText(a.displayName, i.displayName).value| <= 100)
    ensures i.bio.Given? ==> (ApplyText(a.bio, i.bio).Some? ==> |ApplyText(a.bio, i.bio).value| <= 500)
  {
    if i.bio.Given? && ApplyText(a.bio, i.bio).Some? {
      assert |Trim(i.bio.value)| <= |i.bio.value|;
    }
  }

  function ApplyDate(current: Option<Time>, f: Field<Time>): Option<Time>
  {
    match f
    case Undefined => current
    case Null => None
    case Given(t) => Some(t)
  }

  /** The row after the `update` of `updateProfile`. */
  function ApplyProfile(a: Account, i: ProfileInput): (b: Account)
    ensures b.id == a.id && b.username == a.username && b.email == a.email && b.privacy == a.privacy
    ensures b.createdAt == a.createdAt && b.lastOnlineAt == a.lastOnlineAt
    ensures b.totalOnlineSeconds == a.totalOnlineSeconds
  {
    a.(displayName := ApplyText(a.displayName, i.displayName),
       bio := ApplyText(a.bio, i.bio),
       dateOfBirth := ApplyDate(a.dateOfBirth, i.dateOfBirth),
       avatarUrl := ApplyText(a.avatarUrl, i.avatarUrl),
       social := Social(
         ApplyText(a.social.twitter, i.twitter), ApplyText(a.social.linkedin, i.linkedin),
         ApplyText(a.social.instagram, i.instagram), ApplyText(a.social.github, i.github),
         ApplyText(a.social.website, i.website), ApplyText(a.social.telegram, i.telegram),
         ApplyText(a.social.snapchat, i.snapchat), ApplyText(a.social.discord, i.discord)))
  }

  /** An update that leaves every field undefined changes nothing. */
  lemma EmptyUpdateIsIdentity(a: Account)
    ensures ApplyProfile(a, ProfileInput(Undefined, Undefined, Undefined, Undefined, Undefined, Undefined,
                                         Undefined, Undefined, Undefined, Undefined, Undefined, Undefined)) == a
  {
  }

  /** `updateProfile`. `urlOrDateError` stands for the URL and date-of-birth
      checks, which run after the length checks: the 400 message they
      produce, or None when they pass. */
  method UpdateProfile(st: Store, u: UserId, i: ProfileInput, urlOrDateError: Option<string>)
      returns (r: Reply<Account>)
    requires st.Valid()
    modifies st`users
    ensures st.Valid()
    ensures LengthError(i).Some? ==> r == Fail(400, LengthError(i).value) && st.users == old(st.users)
    ensures LengthError(i).None? && urlOrDateError.Some? ==>
              r == Fail(400, urlOrDateError.value) && st.users == old(st.users)
    ensures LengthError(i).None? && urlOrDateError.None? && u !in old(st.users) ==>
              r == Fail(500, "Internal server error") && st.users == old(st.users)
    ensures LengthError(i).None? && urlOrDateError.None? && u in old(st.users) ==>
              var row := old(st.users)[u];
              st.users == old(st.users)[u := row.(acct := ApplyProfile(row.acct, i))]
              && r == Ok(ApplyProfile(row.acct, i))
  {
    var err := LengthError(i);
    if err.Some? {
      return Fail(400, err.value);
    }
    if urlOrDateError.Some? {
      return Fail(400, urlOrDateError.value);
    }
    if u !in st.users {
      return Fail(500, "Internal server error");
    }
    var row := st.users[u];
    var updated := ApplyProfile(row.acct, i);
    st.users := st.users[u := row.(acct := updated)];
    r := Ok(updated);
  }
}
