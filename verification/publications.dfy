/** The publication queue of main.py: `add_to_queue`, the three `publish_*` methods, one
    pass of the `scheduler` loop, and the `/done` routing of the upload conversation.
    Every remote effect (decryption, login, uploads, the video-duration probe and the
    notification) is a parameter collected in `World`. */
module Publications {
  import opened Wrappers
  import opened Lifecycle
  import opened Accounts

  datatype ContentType = Post | Story | Reel | OtherContent(name: string)

  datatype MediaType = Photo | Video | OtherMedia(name: string)

  /** The text stored in `error_message`, by the exception it came from. */
  datatype PublishError =
    | NoClient                                // 'Failed to get Instagram client'
    | AccountMissing(username: string)        // AccountNotFoundError
    | UploadFailed(message: string)           // any exception of an upload call
    | NoMediaPath                             // IndexError of media_paths[0]
    | VideoTooLong(duration: int, limit: int) // ValidationError of publish_reel
    | NotificationFailed(message: string)     // exception of send_publish_notification

  /** A row of the `publications` table; `media_paths` is its decoded JSON list. */
  datatype Publication = Publication(
    id: nat,
    accountUsername: string,
    contentType: ContentType,
    mediaType: MediaType,
    mediaPaths: seq<string>,
    caption: Option<string>,
    publishTime: int,
    status: Status,
    createdAt: int,
    publishedAt: Option<int>,
    errorMessage: Option<PublishError>)

  datatype Db = Db(accounts: seq<Account>, publications: seq<Publication>)

  predicate IsDue(p: Publication, now: int)
  {
    Due(p.status, p.publishTime, now)
  }

  /** Outcomes of everything the model does not see. `login(id, k)` is attempt `k` of
      the login made for publication `id`, `upload(id, k)` its `k`-th upload call,
      `duration(path)` what `get_video_duration` reports, and `notification(id)` the
      exception `send_publish_notification` raised for it, if any. */
  datatype World = World(
    decrypt: string -> Option<string>,
    login: (nat, nat) -> Attempt<string>,
    upload: (nat, nat) -> Attempt<string>,
    duration: string -> int,
    notification: nat -> Option<string>)

  /** The upload calls of the remote client. */
  datatype UploadCall =
    | PhotoUpload(path: string)
    | VideoUpload(path: string)
    | AlbumUpload(paths: seq<string>)
    | PhotoToStory(path: string)
    | VideoToStory(path: string)
    | ClipUpload(path: string)

  /** The per-account counter a content type bumps. */
  datatype Counter = Posts | Stories | Reels

  function CounterFor(t: ContentType): Option<Counter>
  {
    match t
    case Post => Some(Posts)
    case Story => Some(Stories)
    case Reel => Some(Reels)
    case OtherContent(_) => None
  }

  function CounterOf(a: Account, c: Counter): nat
  {
    match c
    case Posts => a.postsCount
    case Stories => a.storiesCount
    case Reels => a.reelsCount
  }

  function Bumped(a: Account, c: Counter): Account
  {
    match c
    case Posts => a.(postsCount := a.postsCount + 1)
    case Stories => a.(storiesCount := a.storiesCount + 1)
    case Reels => a.(reelsCount := a.reelsCount + 1)
  }

  /** `account.<counter> += 1` on the row(s) holding `username`. */
  function BumpCounter(accounts: seq<Account>, username: string, c: Counter): (r: seq<Account>)
    ensures |r| == |accounts|
    ensures forall j :: 0 <= j < |r| ==>
      r[j] == (if accounts[j].username == username then Bumped(accounts[j], c) else accounts[j])
  {
    seq(|accounts|, j requires 0 <= j < |accounts| =>
      if accounts[j].username == username then Bumped(accounts[j], c) else accounts[j])
  }

  /** One greater than every id in use: the autoincrement key of a new row. */
  function NextId(pubs: seq<Publication>): (id: nat)
    ensures forall j :: 0 <= j < |pubs| ==> pubs[j].id < id
  {
    if pubs == [] then 1
    else var rest := NextId(pubs[1..]); if pubs[0].id < rest then rest else pubs[0].id + 1
  }

  datatype Enqueued = Enqueued(db: Db, pub: Publication)

  /** `add_to_queue`: a new queued row whose time is the given one or, when none is
      given, the current time. */
  function AddToQueue(db: Db, contentType: ContentType, mediaType: MediaType, mediaPaths: seq<string>,
                      caption: Option<string>, publishTime: Option<int>, username: string,
                      now: int): (r: Enqueued)
    ensures r.db.accounts == db.accounts
    ensures r.db.publications == db.publications + [r.pub]
    ensures forall j :: 0 <= j < |db.publications| ==> db.publications[j].id != r.pub.id
    ensures r.pub.status == Queued && r.pub.publishedAt.None? && r.pub.errorMessage.None?
    ensures publishTime.Some? ==> r.pub.publishTime == publishTime.value
    ensures publishTime.None? ==> r.pub.publishTime == now
    ensures r.pub.accountUsername == username && r.pub.contentType == contentType
    ensures r.pub.mediaType == mediaType && r.pub.mediaPaths == mediaPaths && r.pub.caption == caption
  {
    var time := match publishTime case Some(t) => t case None => now;
    var p := Publication(NextId(db.publications), username, contentType, mediaType, mediaPaths,
                         caption, time, Queued, now, None, None);
    Enqueued(Db(db.accounts, db.publications + [p]), p)
  }

  /** What one `publish_*` call did: the row afterwards, the account table afterwards,
      the upload calls made, and whether it returned True. */
  datatype PublishOutcome = PublishOutcome(pub: Publication, accounts: seq<Account>,
                                           uploads: seq<UploadCall>, published: bool)

  function Fail(p: Publication, e: PublishError): Publication
  {
    p.(status := Failed, errorMessage := Some(e))
  }

  function Succeed(p: Publication, now: int): Publication
  {
    p.(status := Published, publishedAt := Some(now))
  }

  /** The first call in `k..n` of publication `id` that raises. */
  function FirstRaising(w: World, id: nat, k: nat, n: nat): (r: Option<nat>)
    requires k <= n
    decreases n - k
    ensures r.Some? ==> k <= r.value < n && w.upload(id, r.value).Raises?
    ensures r.Some? ==> forall j :: k <= j < r.value ==> w.upload(id, j).Returns?
    ensures r.None? ==> forall j :: k <= j < n ==> w.upload(id, j).Returns?
  {
    if k == n then None
    else if w.upload(id, k).Raises? then Some(k)
    else FirstRaising(w, id, k + 1, n)
  }

  /** Runs the planned upload calls in order with a client in hand; the first one that
      raises fails the row, otherwise it is published and one counter moves. */
  function RunUploads(p: Publication, accounts: seq<Account>, calls: seq<UploadCall>, c: Counter,
                      w: World, now: int): (r: PublishOutcome)
    ensures r.published <==> forall j :: 0 <= j < |calls| ==> w.upload(p.id, j).Returns?
  {
    match FirstRaising(w, p.id, 0, |calls|)
    case Some(j) => PublishOutcome(Fail(p, UploadFailed(w.upload(p.id, j).error)), accounts, calls[..j + 1], false)
    case None => PublishOutcome(Succeed(p, now), BumpCounter(accounts, p.accountUsername, c), calls, true)
  }

  /** The login attempts made for publication `id`, whatever login call is planned. */
  function LoginOf(w: World, id: nat): (LoginCall, nat) -> Attempt<string>
  {
    (c: LoginCall, k: nat) => w.login(id, k)
  }

  /** `get_account_client` for a publication. */
  function Lookup(p: Publication, accounts: seq<Account>, w: World, now: int): ClientLookup
  {
    GetAccountClient(accounts, p.accountUsername, w.decrypt, LoginOf(w, p.id), now)
  }

  /** A publication gets a client exactly when its account has an active row whose
      stored password decrypts and whose login succeeds within three attempts. */
  lemma LookupReadyIff(p: Publication, accounts: seq<Account>, w: World, now: int)
    ensures Lookup(p, accounts, w, now).ClientReady? <==>
      && HasActive(accounts, p.accountUsername)
      && w.decrypt(accounts[ActiveIndexOf(accounts, p.accountUsername).value].encryptedPassword).Some?
      && LoggedIn(InitClient(None, None, LoginOf(w, p.id))).Some?
  {
  }

  /** How one row of the account table may change under a publish attempt for
      `username`: other rows do not change; the row of `username` changes at most in
      `last_used` (set to now) and, when `bump` names a counter, that counter by one. */
  predicate RowEffect(before: Account, after: Account, username: string, bump: Option<Counter>, now: int)
  {
    if before.username != username then after == before
    else
      && (after.lastUsed == before.lastUsed || after.lastUsed == Some(now))
      && (bump.Some? ==> after.lastUsed == Some(now))
      && after.(lastUsed := before.lastUsed) == (if bump.Some? then Bumped(before, bump.value) else before)
  }

  /** The promise every `publish_*` method keeps: the row ends `published` with
      `published_at` stamped, or `failed` with an error message, nothing else in it
      changes; the account rows change as `RowEffect` allows, with exactly the content
      type's counter bumped on success; and success needs an active account. */
  predicate Settled(p: Publication, before: seq<Account>, r: PublishOutcome, c: Counter, now: int)
  {
    && (r.published ==> r.pub == Succeed(p, now))
    && (!r.published ==> r.pub.errorMessage.Some? && r.pub == Fail(p, r.pub.errorMessage.value))
    && (r.published ==> HasActive(before, p.accountUsername))
    && |r.accounts| == |before|
    && forall j :: 0 <= j < |before| ==>
         RowEffect(before[j], r.accounts[j], p.accountUsername, if r.published then Some(c) else None, now)
  }

  /** The upload call(s) `publish_post` makes: one photo or video upload for a single
      path, an album upload otherwise (also for an empty list), and none for a media
      type that is neither photo nor video. */
  function PostUploads(mediaType: MediaType, paths: seq<string>): seq<UploadCall>
  {
    match mediaType
    case Photo => if |paths| == 1 then [PhotoUpload(paths[0])] else [AlbumUpload(paths)]
    case Video => if |paths| == 1 then [VideoUpload(paths[0])] else [AlbumUpload(paths)]
    case OtherMedia(_) => []
  }

  /** The story upload calls: one per path, photo or video by the row's media type. */
  function StoryUploads(mediaType: MediaType, paths: seq<string>): (r: seq<UploadCall>)
    ensures mediaType.OtherMedia? ==> r == []
    ensures !mediaType.OtherMedia? ==> |r| == |paths|
    ensures mediaType == Photo ==> forall j :: 0 <= j < |r| ==> r[j] == PhotoToStory(paths[j])
    ensures mediaType == Video ==> forall j :: 0 <= j < |r| ==> r[j] == VideoToStory(paths[j])
  {
    match mediaType
    case Photo => seq(|paths|, j requires 0 <= j < |paths| => PhotoToStory(paths[j]))
    case Video => seq(|paths|, j requires 0 <= j < |paths| => VideoToStory(paths[j]))
    case OtherMedia(_) => []
  }

  /** Facts about a lookup that found a client, under the unique-username constraint. */
  lemma ReadyRowEffect(p: Publication, accounts: seq<Account>, w: World, now: int)
    requires UniqueUsernames(accounts)
    requires Lookup(p, accounts, w, now).ClientReady?
    ensures var after := Lookup(p, accounts, w, now).accounts;
      && |after| == |accounts|
      && HasActive(accounts, p.accountUsername)
      && (forall j :: 0 <= j < |accounts| && accounts[j].username != p.accountUsername ==> after[j] == accounts[j])
      && (forall j :: 0 <= j < |accounts| && accounts[j].username == p.accountUsername ==>
            after[j] == accounts[j].(lastUsed := Some(now)))
  {
    var after := Lookup(p, accounts, w, now).accounts;
    var i :| 0 <= i < |accounts| && accounts[i].username == p.accountUsername && accounts[i].isActive
             && after == accounts[i := accounts[i].(lastUsed := Some(now))];
    assert forall j :: 0 <= j < |accounts| && accounts[j].username == p.accountUsername ==> j == i;
  }

  /** Uploads run after a successful lookup settle the row as `publish_*` promises. */
  lemma RunUploadsSettled(p: Publication, accounts: seq<Account>, calls: seq<UploadCall>, c: Counter,
                          w: World, now: int)
    requires UniqueUsernames(accounts)
    requires Lookup(p, accounts, w, now).ClientReady?
    ensures Settled(p, accounts, RunUploads(p, Lookup(p, accounts, w, now).accounts, calls, c, w, now), c, now)
  {
    ReadyRowEffect(p, accounts, w, now);
  }

  /** A failure after a successful lookup (the reel checks) settles the row too. */
  lemma ReadyFailureSettled(p: Publication, accounts: seq<Account>, e: PublishError, c: Counter,
                            w: World, now: int)
    requires UniqueUsernames(accounts)
    requires Lookup(p, accounts, w, now).ClientReady?
    ensures Settled(p, accounts, PublishOutcome(Fail(p, e), Lookup(p, accounts, w, now).accounts, [], false), c, now)
  {
    ReadyRowEffect(p, accounts, w, now);
  }

  /** `publish_post`. */
  function PublishPost(p: Publication, accounts: seq<Account>, w: World, now: int): (r: PublishOutcome)
    requires UniqueUsernames(accounts)
    ensures r.published <==>
      Lookup(p, accounts, w, now).ClientReady? && forall j :: 0 <= j < |PostUploads(p.mediaType, p.mediaPaths)| ==> w.upload(p.id, j).Returns?
    ensures Settled(p, accounts, r, Posts, now)
    ensures r.published ==> r.uploads == PostUploads(p.mediaType, p.mediaPaths)
    ensures r.published ==> forall j :: 0 <= j < |r.uploads| ==> w.upload(p.id, j).Returns?
    ensures !HasActive(accounts, p.accountUsername) ==>
      r == PublishOutcome(Fail(p, AccountMissing(p.accountUsername)), accounts, [], false)
  {
    match Lookup(p, accounts, w, now)
    case AccountNotFound => PublishOutcome(Fail(p, AccountMissing(p.accountUsername)), accounts, [], false)
    case ClientUnavailable => PublishOutcome(Fail(p, NoClient), accounts, [], false)
    case ClientReady(_, ready) =>
      RunUploadsSettled(p, accounts, PostUploads(p.mediaType, p.mediaPaths), Posts, w, now);
      RunUploads(p, ready, PostUploads(p.mediaType, p.mediaPaths), Posts, w, now)
  }

  /** `publish_story`: one story upload per path, stopping at the first that raises. */
  function PublishStory(p: Publication, accounts: seq<Account>, w: World, now: int): (r: PublishOutcome)
    requires UniqueUsernames(accounts)
    ensures r.published <==>
      Lookup(p, accounts, w, now).ClientReady? && forall j :: 0 <= j < |StoryUploads(p.mediaType, p.mediaPaths)| ==> w.upload(p.id, j).Returns?
    ensures Settled(p, accounts, r, Stories, now)
    ensures r.published ==> r.uploads == StoryUploads(p.mediaType, p.mediaPaths)
    ensures r.published ==> forall j :: 0 <= j < |r.uploads| ==> w.upload(p.id, j).Returns?
    ensures !HasActive(accounts, p.accountUsername) ==>
      r == PublishOutcome(Fail(p, AccountMissing(p.accountUsername)), accounts, [], false)
  {
    match Lookup(p, accounts, w, now)
    case AccountNotFound => PublishOutcome(Fail(p, AccountMissing(p.accountUsername)), accounts, [], false)
    case ClientUnavailable => PublishOutcome(Fail(p, NoClient), accounts, [], false)
    case ClientReady(_, ready) =>
      RunUploadsSettled(p, accounts, StoryUploads(p.mediaType, p.mediaPaths), Stories, w, now);
      RunUploads(p, ready, StoryUploads(p.mediaType, p.mediaPaths), Stories, w, now)
  }

  /** `publish_reel`: the first path is the video; a missing path or a video longer than
      `max_video_duration` fails the row before any upload. */
  function PublishReel(p: Publication, accounts: seq<Account>, maxVideoDuration: int, w: World,
                       now: int): (r: PublishOutcome)
    requires UniqueUsernames(accounts)
    ensures r.published <==>
      && Lookup(p, accounts, w, now).ClientReady? && |p.mediaPaths| > 0
      && w.duration(p.mediaPaths[0]) <= maxVideoDuration && w.upload(p.id, 0).Returns?
    ensures Settled(p, accounts, r, Reels, now)
    ensures r.published ==> |p.mediaPaths| > 0 && r.uploads == [ClipUpload(p.mediaPaths[0])]
    ensures r.published ==> w.duration(p.mediaPaths[0]) <= maxVideoDuration && w.upload(p.id, 0).Returns?
    ensures |p.mediaPaths| > 0 && w.duration(p.mediaPaths[0]) > maxVideoDuration ==>
      !r.published && r.uploads == []
    ensures !HasActive(accounts, p.accountUsername) ==>
      r == PublishOutcome(Fail(p, AccountMissing(p.accountUsername)), accounts, [], false)
  {
    match Lookup(p, accounts, w, now)
    case AccountNotFound => PublishOutcome(Fail(p, AccountMissing(p.accountUsername)), accounts, [], false)
    case ClientUnavailable => PublishOutcome(Fail(p, NoClient), accounts, [], false)
    case ClientReady(_, ready) =>
      if |p.mediaPaths| == 0 then
        ReadyFailureSettled(p, accounts, NoMediaPath, Reels, w, now);
        PublishOutcome(Fail(p, NoMediaPath), ready, [], false)
      else if w.duration(p.mediaPaths[0]) > maxVideoDuration then
        ReadyFailureSettled(p, accounts, VideoTooLong(w.duration(p.mediaPaths[0]), maxVideoDuration), Reels, w, now);
        PublishOutcome(Fail(p, VideoTooLong(w.duration(p.mediaPaths[0]), maxVideoDuration)), ready, [], false)
      else
        RunUploadsSettled(p, accounts, [ClipUpload(p.mediaPaths[0])], Reels, w, now);
        RunUploads(p, ready, [ClipUpload(p.mediaPaths[0])], Reels, w, now)
  }

  /** The scheduler's `if content_type == ...` chain: a content type it does not know
      is not dispatched at all. */
  function Dispatch(p: Publication, accounts: seq<Account>, maxVideoDuration: int, w: World,
                    now: int): (r: PublishOutcome)
    requires UniqueUsernames(accounts)
    ensures CounterFor(p.contentType).Some? ==> Settled(p, accounts, r, CounterFor(p.contentType).value, now)
    ensures p.contentType.OtherContent? ==> r == PublishOutcome(p, accounts, [], false)
    ensures p.contentType == Post ==> var o := PublishPost(p, accounts, w, now);
      r.published == o.published && r.accounts == o.accounts
    ensures p.contentType == Story ==> var o := PublishStory(p, accounts, w, now);
      r.published == o.published && r.accounts == o.accounts
    ensures p.contentType == Reel ==> var o := PublishReel(p, accounts, maxVideoDuration, w, now);
      r.published == o.published && r.accounts == o.accounts
  {
    match p.contentType
    case Post => PublishPost(p, accounts, w, now)
    case Story => PublishStory(p, accounts, w, now)
    case Reel => PublishReel(p, accounts, maxVideoDuration, w, now)
    case OtherContent(_) => PublishOutcome(p, accounts, [], false)
  }

  /** Only status, `published_at` and `error_message` of a row are written by the
      scheduler. */
  predicate SameRequest(before: Publication, after: Publication)
  {
    after.(status := before.status, publishedAt := before.publishedAt, errorMessage := before.errorMessage) == before
  }

  /** One due publication inside the scheduler's loop: dispatch, then the notification,
      whose exception the loop's `except` turns into `failed` whatever the dispatch
      did. The account table is the dispatch's. */
  function ProcessDue(p: Publication, accounts: seq<Account>, maxVideoDuration: int, w: World,
                      now: int): (r: PublishOutcome)
    requires p.status == Queued
    requires UniqueUsernames(accounts)
    ensures SameRequest(p, r.pub)
    ensures CounterFor(p.contentType).Some? ==> r.pub.status == Published || r.pub.status == Failed
    ensures r.pub.status == Published ==>
      r.published && r.pub.publishedAt == Some(now) && w.notification(p.id).None?
    ensures r.pub.status == Failed ==> r.pub.errorMessage.Some?
    ensures w.notification(p.id).Some? ==>
      r.pub.status == Failed && r.pub.errorMessage == Some(NotificationFailed(w.notification(p.id).value))
    ensures p.contentType.OtherContent? && w.notification(p.id).None? ==> r.pub == p && !r.published
    ensures r.published ==> CounterFor(p.contentType).Some? && HasActive(accounts, p.accountUsername)
    ensures |r.accounts| == |accounts|
    ensures forall j :: 0 <= j < |accounts| ==>
      RowEffect(accounts[j], r.accounts[j], p.accountUsername,
                if r.published then CounterFor(p.contentType) else None, now)
    ensures var d := Dispatch(p, accounts, maxVideoDuration, w, now);
      r.published == d.published && r.accounts == d.accounts
      && (w.notification(p.id).None? ==> r.pub == d.pub)
  {
    var d := Dispatch(p, accounts, maxVideoDuration, w, now);
    match w.notification(p.id)
    case None => d
    case Some(e) => d.(pub := Fail(d.pub, NotificationFailed(e)))
  }

  /** Two account tables that agree on everything a login reads: usernames, active
      flags and stored passwords, row by row. */
  predicate SameLogins(a: seq<Account>, b: seq<Account>)
  {
    && |a| == |b|
    && forall j :: 0 <= j < |a| ==>
         a[j].username == b[j].username && a[j].isActive == b[j].isActive
         && a[j].encryptedPassword == b[j].encryptedPassword
  }

  lemma {:induction false} ActiveIndexFrame(a: seq<Account>, b: seq<Account>, username: string)
    requires SameLogins(a, b)
    ensures ActiveIndexOf(a, username) == ActiveIndexOf(b, username)
  {
    if |a| > 0 {
      assert SameLogins(a[1..], b[1..]);
      ActiveIndexFrame(a[1..], b[1..], username);
    }
  }

  /** Whether a lookup finds a client depends only on what logins read. */
  lemma LookupFrame(p: Publication, a: seq<Account>, b: seq<Account>, w: World, now: int)
    requires SameLogins(a, b)
    ensures Lookup(p, a, w, now).ClientReady? <==> Lookup(p, b, w, now).ClientReady?
    ensures Lookup(p, a, w, now).AccountNotFound? <==> Lookup(p, b, w, now).AccountNotFound?
  {
    ActiveIndexFrame(a, b, p.accountUsername);
    match ActiveIndexOf(a, p.accountUsername)
    case None =>
    case Some(i) => assert a[i].encryptedPassword == b[i].encryptedPassword;
  }

  /** The row a run of uploads leaves does not depend on the account table. */
  lemma RunUploadsFrame(p: Publication, a: seq<Account>, b: seq<Account>, calls: seq<UploadCall>,
                        c: Counter, w: World, now: int)
    ensures RunUploads(p, a, calls, c, w, now).pub == RunUploads(p, b, calls, c, w, now).pub
    ensures RunUploads(p, a, calls, c, w, now).published == RunUploads(p, b, calls, c, w, now).published
  {
  }

  /** Whether `publish_post` succeeds, and the row it leaves, do not depend on last-used
      times or counters; likewise for the story and reel lemmas below. */
  lemma PublishPostFrame(p: Publication, a: seq<Account>, b: seq<Account>, w: World, now: int)
    requires UniqueUsernames(a) && UniqueUsernames(b) && SameLogins(a, b)
    ensures PublishPost(p, a, w, now).pub == PublishPost(p, b, w, now).pub
    ensures PublishPost(p, a, w, now).published == PublishPost(p, b, w, now).published
  {
    LookupFrame(p, a, b, w, now);
    var la := Lookup(p, a, w, now);
    if la.ClientReady? {
      RunUploadsFrame(p, la.accounts, Lookup(p, b, w, now).accounts, PostUploads(p.mediaType, p.mediaPaths), Posts, w, now);
    }
  }

  lemma PublishStoryFrame(p: Publication, a: seq<Account>, b: seq<Account>, w: World, now: int)
    requires UniqueUsernames(a) && UniqueUsernames(b) && SameLogins(a, b)
    ensures PublishStory(p, a, w, now).pub == PublishStory(p, b, w, now).pub
    ensures PublishStory(p, a, w, now).published == PublishStory(p, b, w, now).published
  {
    LookupFrame(p, a, b, w, now);
    var la := Lookup(p, a, w, now);
    if la.ClientReady? {
      RunUploadsFrame(p, la.accounts, Lookup(p, b, w, now).accounts, StoryUploads(p.mediaType, p.mediaPaths), Stories, w, now);
    }
  }

  lemma PublishReelFrame(p: Publication, a: seq<Account>, b: seq<Account>, maxVideoDuration: int,
                         w: World, now: int)
    requires UniqueUsernames(a) && UniqueUsernames(b) && SameLogins(a, b)
    ensures PublishReel(p, a, maxVideoDuration, w, now).pub == PublishReel(p, b, maxVideoDuration, w, now).pub
    ensures PublishReel(p, a, maxVideoDuration, w, now).published == PublishReel(p, b, maxVideoDuration, w, now).published
  {
    LookupFrame(p, a, b, w, now);
    var la := Lookup(p, a, w, now);
    if la.ClientReady? && |p.mediaPaths| > 0 {
      RunUploadsFrame(p, la.accounts, Lookup(p, b, w, now).accounts, [ClipUpload(p.mediaPaths[0])], Reels, w, now);
    }
  }

  /** The dispatch's row and verdict do not depend on last-used times or counters. */
  lemma DispatchFrame(p: Publication, a: seq<Account>, b: seq<Account>, maxVideoDuration: int,
                      w: World, now: int)
    requires UniqueUsernames(a) && UniqueUsernames(b) && SameLogins(a, b)
    ensures Dispatch(p, a, maxVideoDuration, w, now).pub == Dispatch(p, b, maxVideoDuration, w, now).pub
    ensures Dispatch(p, a, maxVideoDuration, w, now).published == Dispatch(p, b, maxVideoDuration, w, now).published
  {
    match p.contentType
    case Post => PublishPostFrame(p, a, b, w, now);
    case Story => PublishStoryFrame(p, a, b, w, now);
    case Reel => PublishReelFrame(p, a, b, maxVideoDuration, w, now);
    case OtherContent(_) =>
  }

  /** How a due row ends does not depend on last-used times or counters, so processing
      earlier rows of the same tick does not change it. */
  lemma ProcessDueFrame(p: Publication, a: seq<Account>, b: seq<Account>, maxVideoDuration: int,
                        w: World, now: int)
    requires p.status == Queued
    requires UniqueUsernames(a) && UniqueUsernames(b) && SameLogins(a, b)
    ensures ProcessDue(p, a, maxVideoDuration, w, now).pub == ProcessDue(p, b, maxVideoDuration, w, now).pub
    ensures ProcessDue(p, a, maxVideoDuration, w, now).published == ProcessDue(p, b, maxVideoDuration, w, now).published
  {
    DispatchFrame(p, a, b, maxVideoDuration, w, now);
  }

  /** A row effect keeps what logins read, and moves counter `c` by one exactly when it
      is the bumped counter of the publication's account. */
  lemma RowEffectCounters(before: Account, after: Account, username: string, bump: Option<Counter>, now: int)
    requires RowEffect(before, after, username, bump, now)
    ensures after.username == before.username && after.isActive == before.isActive
    ensures after.encryptedPassword == before.encryptedPassword
    ensures forall c: Counter ::
      CounterOf(after, c) == CounterOf(before, c) + (if before.username == username && bump == Some(c) then 1 else 0)
  {
    if before.username == username {
      var reset := after.(lastUsed := before.lastUsed);
      assert reset.username == after.username && reset.isActive == after.isActive;
      assert reset.encryptedPassword == after.encryptedPassword;
      assert forall c: Counter :: CounterOf(reset, c) == CounterOf(after, c);
    }
  }

  /** The number of due rows among `pubs` of content counter `c` for `username` whose
      publish call succeeded. */
  function Successes(pubs: seq<Publication>, username: string, c: Counter, accounts: seq<Account>,
                     maxVideoDuration: int, w: World, now: int): nat
    requires UniqueUsernames(accounts)
  {
    if pubs == [] then 0
    else
      var last := pubs[|pubs| - 1];
      Successes(pubs[..|pubs| - 1], username, c, accounts, maxVideoDuration, w, now)
      + (if IsDue(last, now) && last.accountUsername == username && CounterFor(last.contentType) == Some(c)
            && ProcessDue(last, accounts, maxVideoDuration, w, now).published
         then 1 else 0)
  }

  /** The account table after the scheduler has looked at `p`: processed if due,
      untouched otherwise. */
  function TableAfter(p: Publication, accounts: seq<Account>, maxVideoDuration: int, w: World, now: int): seq<Account>
    requires UniqueUsernames(accounts)
  {
    if IsDue(p, now) then ProcessDue(p, accounts, maxVideoDuration, w, now).accounts else accounts
  }

  /** The counter the scheduler's look at `p` bumps, if any. */
  function BumpAfter(p: Publication, accounts: seq<Account>, maxVideoDuration: int, w: World, now: int): Option<Counter>
    requires UniqueUsernames(accounts)
  {
    if IsDue(p, now) && ProcessDue(p, accounts, maxVideoDuration, w, now).published
    then CounterFor(p.contentType) else None
  }

  /** Each row of the table changes as `RowEffect` allows under that bump. */
  lemma TableAfterRows(p: Publication, accounts: seq<Account>, maxVideoDuration: int, w: World, now: int)
    requires UniqueUsernames(accounts)
    ensures var next := TableAfter(p, accounts, maxVideoDuration, w, now);
      && |next| == |accounts|
      && forall j :: 0 <= j < |accounts| ==>
           RowEffect(accounts[j], next[j], p.accountUsername, BumpAfter(p, accounts, maxVideoDuration, w, now), now)
  {
  }

  /** The logins survive the scheduler's look at one row. */
  lemma TableAfterLogins(p: Publication, accounts: seq<Account>, maxVideoDuration: int, w: World, now: int)
    requires UniqueUsernames(accounts)
    ensures var next := TableAfter(p, accounts, maxVideoDuration, w, now);
      SameLogins(accounts, next) && UniqueUsernames(next)
  {
    var next := TableAfter(p, accounts, maxVideoDuration, w, now);
    var bump := BumpAfter(p, accounts, maxVideoDuration, w, now);
    TableAfterRows(p, accounts, maxVideoDuration, w, now);
    forall j | 0 <= j < |accounts|
      ensures next[j].username == accounts[j].username && next[j].isActive == accounts[j].isActive
      ensures next[j].encryptedPassword == accounts[j].encryptedPassword
    {
      RowEffectCounters(accounts[j], next[j], p.accountUsername, bump, now);
    }
  }

  /** An account row that differs from `before` only in what a publish writes: the
      three counters, and `last_used`, which is either kept or stamped `now`. */
  predicate UsageOnly(before: Account, after: Account, now: int)
  {
    && after.(lastUsed := before.lastUsed, postsCount := before.postsCount,
              storiesCount := before.storiesCount, reelsCount := before.reelsCount) == before
    && (after.lastUsed == before.lastUsed || after.lastUsed == Some(now))
  }

  /** The scheduler's look at one row changes each account row only in its usage. */
  lemma TableAfterUsage(p: Publication, accounts: seq<Account>, maxVideoDuration: int, w: World, now: int)
    requires UniqueUsernames(accounts)
    ensures var next := TableAfter(p, accounts, maxVideoDuration, w, now);
      |next| == |accounts| && forall j :: 0 <= j < |accounts| ==> UsageOnly(accounts[j], next[j], now)
  {
    var next := TableAfter(p, accounts, maxVideoDuration, w, now);
    var bump := BumpAfter(p, accounts, maxVideoDuration, w, now);
    TableAfterRows(p, accounts, maxVideoDuration, w, now);
    forall j | 0 <= j < |accounts|
      ensures UsageOnly(accounts[j], next[j], now)
    {
      assert RowEffect(accounts[j], next[j], p.accountUsername, bump, now);
    }
  }

  /** `UsageOnly`, row by row. */
  predicate TableUsageOnly(before: seq<Account>, after: seq<Account>, now: int)
  {
    |after| == |before| && forall j :: 0 <= j < |before| ==> UsageOnly(before[j], after[j], now)
  }

  /** A table changed only in its usage since `start` stays so after the scheduler's
      look at one more row. */
  lemma TableAfterUsageFrom(start: seq<Account>, p: Publication, accounts: seq<Account>, maxVideoDuration: int,
                            w: World, now: int)
    requires UniqueUsernames(accounts) && TableUsageOnly(start, accounts, now)
    ensures TableUsageOnly(start, TableAfter(p, accounts, maxVideoDuration, w, now), now)
  {
    TableAfterUsage(p, accounts, maxVideoDuration, w, now);
  }

  /** The account table after processing the due rows among the first `i` rows: the
      logins are those of the table the pass began with, and each counter has grown by
      the successes so far. */
  predicate TickCounters(db: Db, accounts: seq<Account>, i: nat, maxVideoDuration: int, w: World, now: int)
    requires UniqueUsernames(db.accounts) && i <= |db.publications| && |accounts| == |db.accounts|
  {
    forall j, c: Counter :: 0 <= j < |db.accounts| ==>
      CounterOf(accounts[j], c) == CounterOf(db.accounts[j], c)
        + Successes(db.publications[..i], db.accounts[j].username, c, db.accounts, maxVideoDuration, w, now)
  }

  /** Looking at row `i` against the current table moves the counters from their
      value after `i` rows to their value after `i + 1` rows. */
  lemma TickCountersStep(db: Db, accounts: seq<Account>, i: nat, maxVideoDuration: int, w: World, now: int)
    requires UniqueUsernames(db.accounts) && i < |db.publications|
    requires SameLogins(db.accounts, accounts) && UniqueUsernames(accounts)
    requires TickCounters(db, accounts, i, maxVideoDuration, w, now)
    ensures var next := TableAfter(db.publications[i], accounts, maxVideoDuration, w, now);
      |next| == |db.accounts| && TickCounters(db, next, i + 1, maxVideoDuration, w, now)
  {
    var p := db.publications[i];
    var next := TableAfter(p, accounts, maxVideoDuration, w, now);
    var bump := BumpAfter(p, accounts, maxVideoDuration, w, now);
    TableAfterRows(p, accounts, maxVideoDuration, w, now);
    if IsDue(p, now) {
      ProcessDueFrame(p, accounts, db.accounts, maxVideoDuration, w, now);
    }
    forall j, c: Counter | 0 <= j < |db.accounts|
      ensures CounterOf(next[j], c) == CounterOf(db.accounts[j], c)
        + Successes(db.publications[..i + 1], db.accounts[j].username, c, db.accounts, maxVideoDuration, w, now)
    {
      SuccessesStep(db.publications, i, db.accounts[j].username, c, db.accounts, maxVideoDuration, w, now);
      RowEffectCounters(accounts[j], next[j], p.accountUsername, bump, now);
    }
  }

  /** Extending the prefix by one row adds that row's success, if any. */
  lemma SuccessesStep(pubs: seq<Publication>, i: nat, username: string, c: Counter, accounts: seq<Account>,
                      maxVideoDuration: int, w: World, now: int)
    requires UniqueUsernames(accounts) && i < |pubs|
    ensures Successes(pubs[..i + 1], username, c, accounts, maxVideoDuration, w, now)
      == Successes(pubs[..i], username, c, accounts, maxVideoDuration, w, now)
         + (if IsDue(pubs[i], now) && pubs[i].accountUsername == username && CounterFor(pubs[i].contentType) == Some(c)
               && ProcessDue(pubs[i], accounts, maxVideoDuration, w, now).published
            then 1 else 0)
  {
    assert pubs[..i + 1][..i] == pubs[..i];
  }

  /** One pass of the `scheduler` loop of main.py: every row that was due when the pass
      began is processed, and no other row is touched. The query sets no order; this
      loop takes table order, and nothing stated below depends on it. Each processed
      row ends as `ProcessDue` says (`published` or `failed` for the three known content
      types); the account table keeps its logins, and each account's counter of each
      content type grows by the number of its successful publishes of that type; no
      account field other than the counters and `last_used` changes, and `last_used`
      either keeps its value or is stamped `now`. */
  method SchedulerTick(db: Db, maxVideoDuration: int, w: World, now: int) returns (after: Db)
    requires UniqueUsernames(db.accounts)
    ensures |after.publications| == |db.publications|
    ensures forall i :: 0 <= i < |db.publications| ==>
      after.publications[i] == (if IsDue(db.publications[i], now)
                                then ProcessDue(db.publications[i], db.accounts, maxVideoDuration, w, now).pub
                                else db.publications[i])
    ensures forall i :: 0 <= i < |db.publications| ==>
      (IsDue(db.publications[i], now) && !db.publications[i].contentType.OtherContent? ==>
         after.publications[i].status == Published || after.publications[i].status == Failed)
    ensures SameLogins(db.accounts, after.accounts) && UniqueUsernames(after.accounts)
    ensures forall j, c: Counter :: 0 <= j < |db.accounts| ==>
      CounterOf(after.accounts[j], c) == CounterOf(db.accounts[j], c)
        + Successes(db.publications, db.accounts[j].username, c, db.accounts, maxVideoDuration, w, now)
    ensures TableUsageOnly(db.accounts, after.accounts, now)
  {
    var pubs := db.publications;
    var accounts := db.accounts;
    var i := 0;
    while i < |pubs|
      invariant 0 <= i <= |pubs| == |db.publications|
      invariant forall k :: i <= k < |pubs| ==> pubs[k] == db.publications[k]
      invariant forall k :: 0 <= k < i ==>
        pubs[k] == (if IsDue(db.publications[k], now)
                    then ProcessDue(db.publications[k], db.accounts, maxVideoDuration, w, now).pub
                    else db.publications[k])
      invariant SameLogins(db.accounts, accounts) && UniqueUsernames(accounts)
      invariant TickCounters(db, accounts, i, maxVideoDuration, w, now)
      invariant TableUsageOnly(db.accounts, accounts, now)
    {
      var p := pubs[i];
      TickCountersStep(db, accounts, i, maxVideoDuration, w, now);
      TableAfterLogins(p, accounts, maxVideoDuration, w, now);
      TableAfterUsageFrom(db.accounts, p, accounts, maxVideoDuration, w, now);
      if IsDue(p, now) {
        var r := ProcessDue(p, accounts, maxVideoDuration, w, now);
        ProcessDueFrame(p, accounts, db.accounts, maxVideoDuration, w, now);
        pubs := pubs[i := r.pub];
        accounts := r.accounts;
      }
      i := i + 1;
    }
    assert db.publications[..i] == db.publications;
    after := Db(accounts, pubs);
  }

  /** A queued row is due at every time from its publish time on, so a row enqueued
      without a time is picked up by the next pass. */
  lemma EnqueuedIsDue(db: Db, contentType: ContentType, mediaType: MediaType, mediaPaths: seq<string>,
                      caption: Option<string>, publishTime: Option<int>, username: string,
                      now: int, later: int)
    requires publishTime.None? ==> now <= later
    requires publishTime.Some? ==> publishTime.value <= later
    ensures IsDue(AddToQueue(db, contentType, mediaType, mediaPaths, caption, publishTime, username, now).pub, later)
  {
  }

  /** A post whose media type is neither photo nor video makes no upload call, yet ends
      `published` once a client is obtained. */
  lemma PostOfUnknownMediaPublishesWithoutUpload(p: Publication, accounts: seq<Account>, w: World, now: int)
    requires UniqueUsernames(accounts)
    requires p.mediaType.OtherMedia?
    requires Lookup(p, accounts, w, now).ClientReady?
    ensures PublishPost(p, accounts, w, now).published
    ensures PublishPost(p, accounts, w, now).uploads == []
  {
  }

  /** The end-to-end case: a post for an active account, due a second ago, with a login
      and an upload that both succeed and a quiet notification, is `published` after
      one pass, stamped now, and its account's post counter grows by one. */
  lemma PostPublishedEndToEnd(accounts: seq<Account>, i: nat, p: Publication, maxVideoDuration: int,
                              w: World, now: int)
    requires UniqueUsernames(accounts)
    requires i < |accounts| && accounts[i].isActive && accounts[i].username == p.accountUsername
    requires p.contentType == Post && p.mediaType == Photo && |p.mediaPaths| == 1
    requires p.status == Queued && p.publishTime == now - 1
    requires w.decrypt(accounts[i].encryptedPassword).Some?
    requires w.login(p.id, 0).Returns? && w.upload(p.id, 0).Returns? && w.notification(p.id).None?
    ensures IsDue(p, now)
    ensures var r := ProcessDue(p, accounts, maxVideoDuration, w, now);
      && r.pub.status == Published && r.pub.publishedAt == Some(now)
      && r.accounts[i].postsCount == accounts[i].postsCount + 1
      && r.accounts[i].storiesCount == accounts[i].storiesCount
      && r.accounts[i].reelsCount == accounts[i].reelsCount
      && r.uploads == [PhotoUpload(p.mediaPaths[0])]
  {
    assert HasActive(accounts, p.accountUsername);
    var remote := LoginOf(w, p.id);
    assert Retry.Retry(3, 1, k => remote(PasswordLogin, k)).outcome.Returns?;
    var r := ProcessDue(p, accounts, maxVideoDuration, w, now);
    assert r.published;
    RowEffectCounters(accounts[i], r.accounts[i], p.accountUsername, Some(Posts), now);
  }

  /** Where `/done` leads the upload conversation. */
  datatype DoneStep = NothingUploaded | AskCaption | AskPublishTime

  /** `handle_done_upload`: with no uploaded file the user is told so; posts and reels
      go on to the caption, anything else (a story, or no content type) straight to the
      publish time. */
  function DoneUpload(uploaded: Option<seq<string>>, contentType: Option<string>): (r: DoneStep)
    ensures r == NothingUploaded <==> uploaded.None? || uploaded.value == []
    ensures r == AskCaption <==>
      uploaded.Some? && uploaded.value != [] && (contentType == Some("post") || contentType == Some("reel"))
    ensures contentType == Some("story") ==> r != AskCaption
  {
    if uploaded.None? || uploaded.value == [] then NothingUploaded
    else if contentType.Some? && contentType.value in ["post", "reel"] then AskCaption
    else AskPublishTime
  }
}
