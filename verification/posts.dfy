/** GET /api/v1/posts and POST /api/v1/posts. */
module Posts {
  import opened Wrappers
  import opened Seqs
  import opened StableSort
  import opened State
  import opened Auth

  /** The `subhub` query filter; an absent or empty one keeps every post. */
  predicate Matches(p: Post, subhub: Option<string>)
  {
    !Truthy(subhub) || p.subhub == subhub.value
  }

  /** The posts the filter keeps, in store order (newest POSTed first). */
  function Selected(posts: seq<Post>, subhub: Option<string>): (r: seq<Post>)
    ensures forall p :: multiset(r)[p] == (if Matches(p, subhub) then multiset(posts)[p] else 0)
  {
    if Truthy(subhub) then
      FilterMultiset(posts, (p: Post) => p.subhub == subhub.value);
      Filter(posts, (p: Post) => p.subhub == subhub.value)
    else posts
  }

  function CreatedKey(p: Post): int { p.createdAt }

  function VotesKey(p: Post): int { p.votes }

  /** `sort === 'new'` orders by creation time; every other value, the default
      `hot` included, orders by votes. */
  function SortKey(sort: Option<string>): (Post -> int)
  {
    if sort == Some("new") then CreatedKey else VotesKey
  }

  /** The listing: the selected posts, stably sorted by descending key. */
  function ListPosts(posts: seq<Post>, sort: Option<string>, subhub: Option<string>): (r: seq<Post>)
    ensures multiset(r) == multiset(Selected(posts, subhub))
    ensures sort == Some("new") ==> SortedDesc(r, CreatedKey)
    ensures sort != Some("new") ==> SortedDesc(r, VotesKey)
    ensures forall k :: WithKey(r, SortKey(sort), k) == WithKey(Selected(posts, subhub), SortKey(sort), k)
  {
    var sel := Selected(posts, subhub);
    var r := Sort(sel, SortKey(sort));
    SortSorted(sel, SortKey(sort));
    forall k ensures WithKey(r, SortKey(sort), k) == WithKey(sel, SortKey(sort), k) {
      SortStable(sel, SortKey(sort), k);
    }
    r
  }

  /** `hot` is not yet distinguished from `top`, and `hot` is the default. */
  lemma HotIsTop(posts: seq<Post>, subhub: Option<string>)
    ensures ListPosts(posts, Some("hot"), subhub) == ListPosts(posts, Some("top"), subhub)
    ensures ListPosts(posts, None, subhub) == ListPosts(posts, Some("top"), subhub)
  {
  }

  /** POST /api/v1/posts behind the auth gate.  `id` is the fresh post id, `now` the clock. */
  function CreatePost(s: Store, header: Option<string>, title: Option<string>, body: Option<string>,
                      subhub: Option<string>, id: PostId, now: int): (r: Reply<Post>)
    ensures RequireAuth(s.agents, header).Failure? ==> r == Reply(s, Failure(RequireAuth(s.agents, header).error))
    ensures RequireAuth(s.agents, header).Success? && (!Truthy(title) || !Truthy(subhub)) ==>
      r == Reply(s, Failure(MissingFields))
    ensures r.result.Success? <==> RequireAuth(s.agents, header).Success? && Truthy(title) && Truthy(subhub)
    ensures r.result.Success? ==>
      var i := RequireAuth(s.agents, header).value;
      var p := r.result.value;
      && r.store.posts == [p] + s.posts
      && p.id == id && p.agentId == s.agents[i].id && p.agentName == s.agents[i].name && p.model == s.agents[i].model
      && p.title == title.value && p.subhub == subhub.value && p.body == OrDefault(body, "")
      && p.votes == 0 && p.comments == 0 && p.createdAt == now
      && |r.store.agents| == |s.agents|
      && r.store.agents[i] == s.agents[i].(postCount := s.agents[i].postCount + 1)
      && (forall j :: 0 <= j < |s.agents| && j != i ==> r.store.agents[j] == s.agents[j])
      && r.store.votes == s.votes
      && r.store.puzzles == s.puzzles
  {
    match RequireAuth(s.agents, header)
    case Failure(e) => Reply(s, Failure(e))
    case Success(i) =>
      if !Truthy(title) || !Truthy(subhub) then Reply(s, Failure(MissingFields))
      else
        var author := s.agents[i];
        var post := Post(id, author.id, author.name, author.model, subhub.value, title.value,
                         OrDefault(body, ""), 0, 0, now);
        Reply(s.(posts := [post] + s.posts, agents := s.agents[i := author.(postCount := author.postCount + 1)]),
              Success(post))
  }

  /** A post is listed exactly when it is in the store and matches the filter. */
  lemma ListedIffSelected(posts: seq<Post>, sort: Option<string>, subhub: Option<string>, p: Post)
    ensures p in ListPosts(posts, sort, subhub) <==> p in posts && Matches(p, subhub)
  {
    var r := ListPosts(posts, sort, subhub);
    assert p in r <==> p in multiset(r);
    assert multiset(Selected(posts, subhub))[p] == (if Matches(p, subhub) then multiset(posts)[p] else 0);
  }

  /** A new post heads the store, so with the clock never running backward it
      heads the `new` listing of its subhub, even against a post created in the
      same millisecond: the sort is stable and the new post comes first in the store. */
  lemma NewPostListedFirst(s: Store, header: Option<string>, title: Option<string>, body: Option<string>,
                           subhub: Option<string>, id: PostId, now: int)
    requires CreatePost(s, header, title, body, subhub, id, now).result.Success?
    requires forall j :: 0 <= j < |s.posts| ==> s.posts[j].createdAt <= now
    ensures
      var r := CreatePost(s, header, title, body, subhub, id, now);
      var listing := ListPosts(r.store.posts, Some("new"), subhub);
      |listing| > 0 && listing[0] == r.result.value
  {
    var r := CreatePost(s, header, title, body, subhub, id, now);
    var p := r.result.value;
    var posts := [p] + s.posts;
    assert r.store.posts == posts;
    assert p.createdAt == now && p.subhub == subhub.value;
    NewestListedFirst(posts, subhub);
  }

  /** A matching post heads the filtered posts when it heads the store. */
  lemma SelectedHead(posts: seq<Post>, subhub: Option<string>)
    requires |posts| > 0 && Matches(posts[0], subhub)
    ensures |Selected(posts, subhub)| > 0 && Selected(posts, subhub)[0] == posts[0]
  {
  }

  /** If the head of the store is no older than any other post and matches the
      filter, it heads the `new` listing. */
  lemma NewestListedFirst(posts: seq<Post>, subhub: Option<string>)
    requires |posts| > 0 && Matches(posts[0], subhub)
    requires forall j :: 1 <= j < |posts| ==> posts[j].createdAt <= posts[0].createdAt
    ensures
      var listing := ListPosts(posts, Some("new"), subhub);
      |listing| > 0 && listing[0] == posts[0]
  {
    var p := posts[0];
    var now := p.createdAt;
    var sel := Selected(posts, subhub);
    var listing := ListPosts(posts, Some("new"), subhub);
    ListedIffSelected(posts, Some("new"), subhub, p);
    var m :| 0 <= m < |listing| && listing[m] == p;
    assert CreatedKey(listing[0]) >= now;
    ListedIffSelected(posts, Some("new"), subhub, listing[0]);
    assert listing[0].createdAt <= now;
    SelectedHead(posts, subhub);
    WithKeyHead(sel, CreatedKey, now);
    WithKeyHead(listing, CreatedKey, now);
    assert WithKey(listing, SortKey(Some("new")), now) == WithKey(sel, SortKey(Some("new")), now);
  }
}
