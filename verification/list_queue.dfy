/** The single-process bot of insta_bot.py: two in-memory lists, `post_queue` and
    `stories_queue`, of items appended by the conversation, picked in insertion order
    by the scheduler, and cancellable from the end. Upload calls are parameters. */
module ListQueue {
  import opened Wrappers
  import opened Lifecycle
  import Text

  /** An item's `content`: one downloaded file, or a list of them (`isinstance(...,
      list)` tells them apart when publishing). */
  datatype Content = Single(path: string) | Album(paths: seq<string>)

  /** A queue item; `publishedAt` is the `published_at` key, absent until published. */
  datatype Item = Item(content: Content, caption: Option<string>, publishTime: int, status: Status,
                       publishedAt: Option<int>)

  datatype Queues = Queues(posts: seq<Item>, stories: seq<Item>)

  predicate ItemDue(item: Item, now: int)
  {
    Due(item.status, item.publishTime, now)
  }

  datatype Added = Added(queues: Queues, item: Item)

  /** `add_to_queue`: builds a queued item (time defaults to now) and appends it to the
      post list for 'post', to the story list for 'story', and to neither otherwise; the
      item is returned in every case. */
  function AddToQueue(q: Queues, queueType: string, content: Content, caption: Option<string>,
                      publishTime: Option<int>, now: int): (r: Added)
    ensures r.item.content == content && r.item.caption == caption
    ensures r.item.status == Queued && r.item.publishedAt.None?
    ensures r.item.publishTime == (if publishTime.Some? then publishTime.value else now)
    ensures queueType == "post" ==> r.queues.posts == q.posts + [r.item] && r.queues.stories == q.stories
    ensures queueType == "story" ==> r.queues.stories == q.stories + [r.item] && r.queues.posts == q.posts
    ensures queueType != "post" && queueType != "story" ==> r.queues == q
  {
    var time := match publishTime case Some(t) => t case None => now;
    var item := Item(content, caption, time, Queued, None);
    if queueType == "post" then Added(q.(posts := q.posts + [item]), item)
    else if queueType == "story" then Added(q.(stories := q.stories + [item]), item)
    else Added(q, item)
  }

  /** The first due item at or after position `k`. */
  function FirstDueFrom(queue: seq<Item>, k: nat, now: int): (r: Option<nat>)
    requires k <= |queue|
    decreases |queue| - k
    ensures r.Some? ==> k <= r.value < |queue| && ItemDue(queue[r.value], now)
    ensures r.Some? ==> forall j :: k <= j < r.value ==> !ItemDue(queue[j], now)
    ensures r.None? ==> forall j :: k <= j < |queue| ==> !ItemDue(queue[j], now)
  {
    if k == |queue| then None
    else if ItemDue(queue[k], now) then Some(k)
    else FirstDueFrom(queue, k + 1, now)
  }

  /** `get_next_item`: the position of the first item, in insertion order, that is queued
      and whose time has come; any type other than 'post' reads the story list. */
  function NextItem(q: Queues, queueType: string, now: int): (r: Option<nat>)
    ensures var queue := if queueType == "post" then q.posts else q.stories;
      && (r.Some? ==> r.value < |queue| && ItemDue(queue[r.value], now)
                      && forall j :: 0 <= j < r.value ==> !ItemDue(queue[j], now))
      && (r.None? <==> forall j :: 0 <= j < |queue| ==> !ItemDue(queue[j], now))
  {
    FirstDueFrom(if queueType == "post" then q.posts else q.stories, 0, now)
  }

  /** The two upload calls the bot makes. */
  datatype Call = PhotoUpload(path: string, caption: Option<string>) | StoryUpload(path: string)

  function Paths(c: Content): seq<string>
  {
    match c
    case Single(p) => [p]
    case Album(ps) => ps
  }

  /** The calls `publish_post` makes: one `photo_upload` per file, each with the caption. */
  function PostCalls(item: Item): (r: seq<Call>)
    ensures |r| == |Paths(item.content)|
    ensures forall j :: 0 <= j < |r| ==> r[j] == PhotoUpload(Paths(item.content)[j], item.caption)
  {
    var ps := Paths(item.content);
    seq(|ps|, j requires 0 <= j < |ps| => PhotoUpload(ps[j], item.caption))
  }

  /** The calls `publish_story` makes: one `photo_upload_to_story` per file. */
  function StoryCalls(item: Item): (r: seq<Call>)
    ensures |r| == |Paths(item.content)|
    ensures forall j :: 0 <= j < |r| ==> r[j] == StoryUpload(Paths(item.content)[j])
  {
    var ps := Paths(item.content);
    seq(|ps|, j requires 0 <= j < |ps| => StoryUpload(ps[j]))
  }

  /** The first of the calls `k..n` that raises, by `upload(j)` for call `j`. */
  function FirstFailure(upload: nat -> Attempt<string>, k: nat, n: nat): (r: Option<nat>)
    requires k <= n
    decreases n - k
    ensures r.Some? ==> k <= r.value < n && upload(r.value).Raises?
    ensures r.Some? ==> forall j :: k <= j < r.value ==> upload(j).Returns?
    ensures r.None? <==> forall j :: k <= j < n ==> upload(j).Returns?
  {
    if k == n then None
    else if upload(k).Raises? then Some(k)
    else FirstFailure(upload, k + 1, n)
  }

  /** What a publish call did: the item afterwards, the calls made, its return value. */
  datatype Publishing = Publishing(item: Item, made: seq<Call>, ok: bool)

  /** `publish_post` / `publish_story` with the planned calls: every call made in order up
      to the first that raises; success marks the item published and stamps it, an
      exception marks it failed and leaves the rest of it alone. */
  function Publish(item: Item, calls: seq<Call>, upload: nat -> Attempt<string>, now: int): (r: Publishing)
    ensures r.ok <==> forall j :: 0 <= j < |calls| ==> upload(j).Returns?
    ensures r.ok ==> r.item == item.(status := Published, publishedAt := Some(now)) && r.made == calls
    ensures !r.ok ==> r.item == item.(status := Failed)
    ensures !r.ok ==> 0 < |r.made| <= |calls| && r.made == calls[..|r.made|] && upload(|r.made| - 1).Raises?
  {
    match FirstFailure(upload, 0, |calls|)
    case None => Publishing(item.(status := Published, publishedAt := Some(now)), calls, true)
    case Some(j) => Publishing(item.(status := Failed), calls[..j + 1], false)
  }

  /** One pass of the loop body of `scheduler`. */
  datatype Tick = Tick(queues: Queues, made: seq<Call>)

  /** The scheduler's loop body: the first due post is published, then the first due
      story. When a published post has no caption, logging `caption[:20]` raises after the
      publish and the loop's `except` skips the story step of that pass. */
  function ListTick(q: Queues, postUpload: nat -> Attempt<string>, storyUpload: nat -> Attempt<string>,
                    now: int): (r: Tick)
    ensures NextItem(q, "post", now).None? ==> r.queues.posts == q.posts
    ensures NextItem(q, "post", now).Some? ==>
      var i := NextItem(q, "post", now).value;
      SameExcept(q.posts, r.queues.posts, i)
      && (r.queues.posts[i].status == Published || r.queues.posts[i].status == Failed)
    ensures NextItem(q, "story", now).None? ==> r.queues.stories == q.stories
    ensures NextItem(q, "story", now).Some? ==>
      var i := NextItem(q, "story", now).value;
      SameExcept(q.stories, r.queues.stories, i)
      && (r.queues.stories[i] == q.stories[i]
          || r.queues.stories[i].status == Published || r.queues.stories[i].status == Failed)
    ensures NextItem(q, "post", now).Some? ==>
      var i := NextItem(q, "post", now).value;
      r.queues.posts[i].status == Published && q.posts[i].caption.None? ==> r.queues.stories == q.stories
    ensures NextItem(q, "post", now).Some? ==>
      var i := NextItem(q, "post", now).value;
      r.queues.posts[i] == Publish(q.posts[i], PostCalls(q.posts[i]), postUpload, now).item
    ensures NextItem(q, "story", now).Some? ==>
      var i := NextItem(q, "story", now).value;
      (NextItem(q, "post", now).None?
       || !Publish(q.posts[NextItem(q, "post", now).value], PostCalls(q.posts[NextItem(q, "post", now).value]),
                   postUpload, now).ok
       || q.posts[NextItem(q, "post", now).value].caption.Some?)
      ==> r.queues.stories[i] == Publish(q.stories[i], StoryCalls(q.stories[i]), storyUpload, now).item
  {
    var (afterPosts, postCalls, storyStep) :=
      match NextItem(q, "post", now)
      case None => (q.posts, [], true)
      case Some(i) =>
        var p := Publish(q.posts[i], PostCalls(q.posts[i]), postUpload, now);
        (q.posts[i := p.item], p.made, !(p.ok && q.posts[i].caption.None?));
    if !storyStep then Tick(Queues(afterPosts, q.stories), postCalls)
    else
      match NextItem(q, "story", now)
      case None => Tick(Queues(afterPosts, q.stories), postCalls)
      case Some(i) =>
        var s := Publish(q.stories[i], StoryCalls(q.stories[i]), storyUpload, now);
        Tick(Queues(afterPosts, q.stories[i := s.item]), postCalls + s.made)
  }

  /** All positions of `a` and `b` but `k` hold the same item. */
  predicate SameExcept(a: seq<Item>, b: seq<Item>, k: nat)
  {
    |a| == |b| && forall j :: 0 <= j < |a| && j != k ==> a[j] == b[j]
  }

  /** Counting the items each pass moves out of `queued`: at most one post and one story. */
  function QueuedCount(queue: seq<Item>): (n: nat)
    ensures n <= |queue|
  {
    if queue == [] then 0
    else QueuedCount(queue[..|queue| - 1]) + (if queue[|queue| - 1].status == Queued then 1 else 0)
  }

  lemma {:induction false} QueuedCountUpdate(queue: seq<Item>, i: nat, item: Item)
    requires i < |queue|
    ensures QueuedCount(queue[i := item]) + (if queue[i].status == Queued then 1 else 0)
      == QueuedCount(queue) + (if item.status == Queued then 1 else 0)
  {
    if i < |queue| - 1 {
      assert queue[i := item][..|queue| - 1] == queue[..|queue| - 1][i := item];
      QueuedCountUpdate(queue[..|queue| - 1], i, item);
    } else {
      assert queue[i := item][..|queue| - 1] == queue[..|queue| - 1];
    }
  }

  /** Each pass publishes or fails at most one post and at most one story. */
  lemma ListTickAtMostOneEach(q: Queues, postUpload: nat -> Attempt<string>,
                              storyUpload: nat -> Attempt<string>, now: int)
    ensures var r := ListTick(q, postUpload, storyUpload, now);
      && QueuedCount(q.posts) - 1 <= QueuedCount(r.queues.posts) <= QueuedCount(q.posts)
      && QueuedCount(q.stories) - 1 <= QueuedCount(r.queues.stories) <= QueuedCount(q.stories)
  {
    var r := ListTick(q, postUpload, storyUpload, now);
    if NextItem(q, "post", now).Some? {
      var i := NextItem(q, "post", now).value;
      assert r.queues.posts == q.posts[i := r.queues.posts[i]];
      QueuedCountUpdate(q.posts, i, r.queues.posts[i]);
    }
    if NextItem(q, "story", now).Some? {
      var i := NextItem(q, "story", now).value;
      assert r.queues.stories == q.stories[i := r.queues.stories[i]];
      QueuedCountUpdate(q.stories, i, r.queues.stories[i]);
    }
  }

  /** The reply `cancel_last` gives. */
  datatype Cancelled = PostRemoved | StoryRemoved | NothingToCancel

  datatype Cancellation = Cancellation(queues: Queues, reply: Cancelled)

  /** `cancel_last`: drops the last post if it is still queued, otherwise the last story
      if it is still queued, otherwise nothing. */
  function CancelLast(q: Queues): (r: Cancellation)
    ensures r.queues.posts <= q.posts && r.queues.stories <= q.stories
    ensures |q.posts| + |q.stories| - 1 <= |r.queues.posts| + |r.queues.stories| <= |q.posts| + |q.stories|
    ensures |r.queues.posts| < |q.posts| ==> q.posts[|q.posts| - 1].status == Queued
    ensures |r.queues.stories| < |q.stories| ==> q.stories[|q.stories| - 1].status == Queued
    ensures r.reply == PostRemoved <==> |r.queues.posts| < |q.posts|
    ensures r.reply == StoryRemoved <==> |r.queues.stories| < |q.stories|
    ensures |q.posts| > 0 && q.posts[|q.posts| - 1].status == Queued ==> r.reply == PostRemoved
    ensures |q.stories| > 0 && q.stories[|q.stories| - 1].status == Queued ==> r.reply != NothingToCancel
  {
    if |q.posts| > 0 && q.posts[|q.posts| - 1].status == Queued then
      Cancellation(q.(posts := q.posts[..|q.posts| - 1]), PostRemoved)
    else if |q.stories| > 0 && q.stories[|q.stories| - 1].status == Queued then
      Cancellation(q.(stories := q.stories[..|q.stories| - 1]), StoryRemoved)
    else Cancellation(q, NothingToCancel)
  }

  /** Cancel undoes the last add of a post. */
  lemma CancelUndoesAddPost(q: Queues, content: Content, caption: Option<string>,
                            publishTime: Option<int>, now: int)
    ensures CancelLast(AddToQueue(q, "post", content, caption, publishTime, now).queues)
      == Cancellation(q, PostRemoved)
  {
    var a := AddToQueue(q, "post", content, caption, publishTime, now).queues;
    assert a.posts[..|a.posts| - 1] == q.posts;
  }

  /** Cancel undoes the last add of a story only when no queued post sits at the end of
      the post list, which is tried first. */
  lemma CancelUndoesAddStory(q: Queues, content: Content, publishTime: Option<int>, now: int)
    requires |q.posts| == 0 || q.posts[|q.posts| - 1].status != Queued
    ensures CancelLast(AddToQueue(q, "story", content, None, publishTime, now).queues)
      == Cancellation(q, StoryRemoved)
  {
    var a := AddToQueue(q, "story", content, None, publishTime, now).queues;
    assert a.stories[..|a.stories| - 1] == q.stories;
  }

  /** The content `handle_time` queues for the uploaded files: the one file itself when
      there is exactly one, the whole list otherwise. */
  function Pack(media: seq<string>): (c: Content)
    ensures Paths(c) == media
    ensures c.Single? <==> |media| == 1
  {
    if |media| == 1 then Single(media[0]) else Album(media)
  }

  /** Packing then publishing uploads every file once, in upload order. */
  lemma PackedPostUploadsEachFile(media: seq<string>, caption: Option<string>, time: int)
    ensures var item := Item(Pack(media), caption, time, Queued, None);
      PostCalls(item) == seq(|media|, j requires 0 <= j < |media| => PhotoUpload(media[j], caption))
  {
  }

  /** The conversation data `handle_time` reads. `postCaption` is None when the key is
      absent, which makes the caption ''. */
  datatype Conversation = Conversation(awaitingPostTime: bool, postMedia: seq<string>,
                                       postCaption: Option<string>,
                                       awaitingStoryTime: bool, storyMedia: seq<string>)

  datatype TimeReply = BadTime | PostQueued(count: nat) | StoryQueued(count: nat) | NothingPending

  datatype TimeStep = TimeStep(queues: Queues, reply: TimeReply)

  /** `handle_time`: the lower-cased text 'now' means the current time, anything else goes
      to the date parser, whose ValueError (None here) is answered and changes nothing. A
      pending post is queued before a pending story. */
  function HandleTime(q: Queues, text: string, talk: Conversation, parse: string -> Option<int>,
                      now: int): (r: TimeStep)
    ensures Text.Lower(text) != "now" && parse(Text.Lower(text)).None? ==> r == TimeStep(q, BadTime)
    ensures r.reply.PostQueued? <==> talk.awaitingPostTime && r.reply != BadTime
    ensures r.reply.StoryQueued? <==> !talk.awaitingPostTime && talk.awaitingStoryTime && r.reply != BadTime
    ensures r.reply == BadTime <==> Text.Lower(text) != "now" && parse(Text.Lower(text)).None?
    ensures r.reply.PostQueued? ==>
      && |r.queues.posts| == |q.posts| + 1 && r.queues.stories == q.stories
      && r.queues.posts[..|q.posts|] == q.posts
      && r.reply.count == |r.queues.posts|
      && var item := r.queues.posts[|q.posts|];
         item.content == Pack(talk.postMedia) && Paths(item.content) == talk.postMedia
         && item.status == Queued && item.publishedAt.None?
         && item.caption == Some(if talk.postCaption.Some? then talk.postCaption.value else "")
         && item.publishTime == (if Text.Lower(text) == "now" then now else parse(Text.Lower(text)).value)
    ensures r.reply.StoryQueued? ==>
      && |r.queues.stories| == |q.stories| + 1 && r.queues.posts == q.posts
      && r.queues.stories[..|q.stories|] == q.stories
      && r.reply.count == |r.queues.stories|
      && var item := r.queues.stories[|q.stories|];
         item.content == Pack(talk.storyMedia) && Paths(item.content) == talk.storyMedia
         && item.status == Queued && item.publishedAt.None? && item.caption.None?
         && item.publishTime == (if Text.Lower(text) == "now" then now else parse(Text.Lower(text)).value)
    ensures r.reply == NothingPending ==> r.queues == q
  {
    var lowered := Text.Lower(text);
    var time: Option<int> := if lowered == "now" then Some(now) else parse(lowered);
    match time
    case None => TimeStep(q, BadTime)
    case Some(t) =>
      if talk.awaitingPostTime then
        var caption := if talk.postCaption.Some? then talk.postCaption.value else "";
        var added := AddToQueue(q, "post", Pack(talk.postMedia), Some(caption), Some(t), now);
        assert added.queues.posts[..|q.posts|] == q.posts;
        TimeStep(added.queues, PostQueued(|added.queues.posts|))
      else if talk.awaitingStoryTime then
        var added := AddToQueue(q, "story", Pack(talk.storyMedia), None, Some(t), now);
        assert added.queues.stories[..|q.stories|] == q.stories;
        TimeStep(added.queues, StoryQueued(|added.queues.stories|))
      else TimeStep(q, NothingPending)
  }

  /** A post queued by `handle_time` is later uploaded file by file, every uploaded file
      once and in upload order, each with the conversation's caption. */
  lemma QueuedPostUploadsItsMedia(q: Queues, text: string, talk: Conversation, parse: string -> Option<int>,
                                  now: int)
    requires talk.awaitingPostTime && (Text.Lower(text) == "now" || parse(Text.Lower(text)).Some?)
    ensures var r := HandleTime(q, text, talk, parse, now);
      && r.reply.PostQueued?
      && var item := r.queues.posts[|q.posts|];
         PostCalls(item) == seq(|talk.postMedia|, j requires 0 <= j < |talk.postMedia| =>
                                  PhotoUpload(talk.postMedia[j], item.caption))
  {
  }
}
