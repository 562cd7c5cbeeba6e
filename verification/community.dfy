/**
 The community feed: a filter of the stored posts by the selected
 community ("All" shows every post), and post creation behind a moderation
 check. The moderation verdict, the new post's id and the clock are inputs.
 */
module Community {
  import opened Types
  import opened Seqs
  import opened Constants
  import opened Storage

  /** The pseudo-community that shows every post. */
  const ALL: string := "All"

  /** The view: the displayed posts, the selected community, and the
      create-post dialog with its two inputs. */
  datatype Feed = Feed(posts: seq<Post>, active: string, showModal: bool, title: string, content: string)

  /** The posts displayed for a community, in stored order. */
  function Visible(all: seq<Post>, active: string): (r: seq<Post>)
    ensures active == ALL ==> r == all
    ensures active != ALL ==> forall k :: 0 <= k < |r| ==> r[k].community == active
    ensures active != ALL ==> forall p ::
      multiset(r)[p] == (if p.community == active then multiset(all)[p] else 0)
  {
    if active == ALL then all
    else Filter(all, (p: Post) => p.community == active)
  }

  /** The filter keeps stored order: the visible part of two stretches of
      posts is the visible part of the first followed by that of the second. */
  lemma VisibleAppend(a: seq<Post>, b: seq<Post>, active: string)
    ensures Visible(a + b, active) == Visible(a, active) + Visible(b, active)
  {
    if active != ALL {
      FilterAppend(a, b, (p: Post) => p.community == active);
    }
  }

  /** A (re)load of the feed, as on opening it or on a timer tick. */
  function Load(st: Store, f: Feed): (r: Feed)
    ensures r.posts == Visible(GetPosts(st), f.active)
    ensures r.(posts := f.posts) == f
  {
    f.(posts := Visible(GetPosts(st), f.active))
  }

  /** The community a new post is filed under. */
  function TargetCommunity(active: string): (c: string)
    ensures active == ALL ==> c == COMMUNITIES[0]
    ensures active != ALL ==> c == active
  {
    if active == ALL then COMMUNITIES[0] else active
  }

  function NewPost(author: User, f: Feed, id: string, now: int): (p: Post)
    ensures p.id == id && p.userId == author.id && p.userName == author.name
    ensures p.community == TargetCommunity(f.active)
    ensures p.title == f.title && p.content == f.content
    ensures p.imageUrl == None && p.upvotes == 0 && p.timestamp == now && p.comments == []
  {
    Post(id, author.id, author.name, TargetCommunity(f.active), f.title, f.content, None, 0, now, [])
  }

  datatype Created = Created(store: Store, feed: Feed)

  /** Submitting the dialog: both inputs must be non-empty and the moderation
      verdict must be "safe"; then the post is stored in front of the others,
      shown in front of the displayed ones, and the dialog is closed and
      cleared. A blocked post leaves the dialog open with its text. */
  function HandleCreatePost(st: Store, f: Feed, author: User, isSafe: bool, id: string, now: int): (r: Created)
    ensures f.title == "" || f.content == "" ==> r == Created(st, f)
    ensures !isSafe ==> r == Created(st, f)
    ensures f.title != "" && f.content != "" && isSafe ==>
      var p := NewPost(author, f, id, now);
      && GetPosts(r.store) == [p] + GetPosts(st)
      && r.store.(posts := st.posts) == st
      && r.feed.posts == [p] + f.posts
      && r.feed == Feed(r.feed.posts, f.active, false, "", "")
  {
    if f.title == "" || f.content == "" then Created(st, f)
    else if !isSafe then Created(st, f)
    else
      var p := NewPost(author, f, id, now);
      Created(AddPost(st, p), f.(posts := [p] + f.posts, showModal := false, title := "", content := ""))
  }

  /** The optimistic update agrees with the next reload: if the feed showed
      what the store held, then after a successful post it again shows exactly
      what the store holds, with the new post on top. */
  lemma CreatedPostMatchesReload(st: Store, f: Feed, author: User, isSafe: bool, id: string, now: int)
    requires f.posts == Visible(GetPosts(st), f.active)
    ensures var r := HandleCreatePost(st, f, author, isSafe, id, now);
      r.feed.posts == Visible(GetPosts(r.store), f.active)
  {
  }

  /** A single post of the selected community (or any post under "All") is
      shown as it is. */
  lemma VisibleSingle(p: Post, active: string)
    requires active == ALL || p.community == active
    ensures Visible([p], active) == [p]
  {
    if active != ALL {
      FilterAll([p], (x: Post) => x.community == active);
    }
  }

  /** The handler prepends to the feed it captured when the dialog was
      submitted, not to a fresh read: a visible post that another tab stored
      while the moderation verdict was awaited is in the store but missing
      from the feed until the next reload. */
  lemma CreatedPostDropsConcurrentPost(st: Store, f: Feed, author: User, q: Post, id: string, now: int)
    requires f.posts == Visible(GetPosts(st), f.active)
    requires f.title != "" && f.content != ""
    requires f.active == ALL || q.community == f.active
    ensures var r := HandleCreatePost(AddPost(st, q), f, author, true, id, now);
      && q in GetPosts(r.store)
      && r.feed.posts != Visible(GetPosts(r.store), f.active)
  {
    var p := NewPost(author, f, id, now);
    var mid := AddPost(st, q);
    var r := HandleCreatePost(mid, f, author, true, id, now);
    var rest := GetPosts(st);
    assert r.store == AddPost(mid, p);
    assert GetPosts(r.store) == [p] + ([q] + rest);
    assert GetPosts(r.store)[1] == q;
    assert r.feed.posts == [p] + f.posts;
    VisibleAppend([p], [q] + rest, f.active);
    VisibleAppend([q], rest, f.active);
    VisibleSingle(p, f.active);
    VisibleSingle(q, f.active);
    assert |Visible(GetPosts(r.store), f.active)| == |r.feed.posts| + 1;
  }
}
