/**
 * The read-only feed handlers: the general feed (index.js:797-831), the
 * teacher and admin feeds that merge a dedicated partition with same-typed
 * general posts (index.js:1052-1160), and the per-author activity feed that
 * merges all three partitions and attaches the original of each repost
 * (index.js:1382-1518).
 *
 * A store query `.find(filter).sort({ createdAt: -1 }).limit(n)` is
 * `Take(Newest(Filter(partition, filter)), n)`; the in-memory
 * `.sort((a, b) => bTime - aTime)` is the same stable sort on
 * `createdAt || 0`.
 */
module Feed {
  import opened Types
  import opened Seqs
  import opened Ordering
  import opened ObjectIds
  import opened Params

  /** A feed entry: the post with its author's public profile (`attachUsersToPosts`). */
  datatype FeedItem = FeedItem(post: Post, user: Option<UserPublic>)

  function AttachUser(users: map<string, Profile>, p: Post): (item: FeedItem)
    ensures item.post == p
    ensures item.user.Some? <==> p.email != "" && p.email in users
    ensures item.user.Some? ==> item.user.value == ToUserPublic(users[p.email])
  {
    FeedItem(p, if p.email != "" && p.email in users then Some(ToUserPublic(users[p.email])) else None)
  }

  function ItemPost(item: FeedItem): Post {
    item.post
  }

  function ItemTime(item: FeedItem): int {
    Time(item.post)
  }

  /** Newest first, stable: `.sort({ createdAt: -1 })` and the in-memory comparator alike. */
  function Newest(s: seq<Post>): seq<Post> {
    SortDesc(s, Time)
  }

  /** `.limit(limit)` / `.slice(0, limit)` when the request is paginated. */
  function Paged<T>(s: seq<T>, pg: Pagination): seq<T> {
    if pg.paginated then Take(s, pg.limit) else s
  }

  /** The post with its type defaulted (`postType: normalizePostType(post, fallback)`). */
  function WithType(p: Post, fallback: string): Post {
    p.(postType := NormalizePostType(p.postType, fallback))
  }

  /** `attachUsersToPosts` as a mapping function. */
  function Attach(users: map<string, Profile>): Post -> FeedItem {
    p => AttachUser(users, p)
  }

  /** The per-item type defaulting of a feed. */
  function Norm(fallback: string): Post -> Post {
    p => WithType(p, fallback)
  }

  /** Attaching authors keeps a newest-first order newest first. */
  lemma AttachSorted(users: map<string, Profile>, s: seq<Post>)
    requires SortedDesc(s, Time)
    ensures SortedDesc(MapSeq(s, Attach(users)), ItemTime)
  {
    var r := MapSeq(s, Attach(users));
    forall i, j | 0 <= i < j < |r|
      ensures ItemTime(r[i]) >= ItemTime(r[j])
    {
      assert r[i].post == s[i] && r[j].post == s[j];
      assert Time(s[i]) >= Time(s[j]);
    }
  }

  lemma PagedSorted<T>(s: seq<T>, pg: Pagination, key: T -> int)
    requires SortedDesc(s, key)
    ensures SortedDesc(Paged(s, pg), key)
    ensures pg.paginated ==> |Paged(s, pg)| <= pg.limit
  {
  }

  lemma PagedSubset<T>(s: seq<T>, pg: Pagination)
    ensures forall i :: 0 <= i < |Paged(s, pg)| ==> Paged(s, pg)[i] in s
  {
  }

  /** An item of a sorted image of `s` under `f` is the image of an item of `s`. */
  lemma MappedIndex<T, U>(s: seq<T>, f: T -> U, key: U -> int, x: U) returns (k: nat)
    requires x in SortDesc(MapSeq(s, f), key)
    ensures k < |s| && x == f(s[k])
  {
    var m := MapSeq(s, f);
    assert x in multiset(m);
    k :| 0 <= k < |m| && m[k] == x;
  }

  /** An item of a sorted sequence is an item of the input. */
  lemma InNewest(s: seq<Post>, x: Post)
    requires x in Newest(s)
    ensures x in s
  {
    assert x in multiset(Newest(s));
  }

  /** Which posts the general feed's store filter admits. */
  predicate ListFilter(pg: Pagination, p: Post) {
    && (pg.feedType == "teacher" ==> p.postType == "teacher")
    && (pg.feedType == "admin" ==> p.postType == "admin")
    && CreatedBefore(pg.cursor, p.createdAt)
  }

  function ListMatch(pg: Pagination): Post -> bool {
    p => ListFilter(pg, p)
  }

  /** GET /posts: the posts partition, filtered by type and cursor, newest first, limited when paginated. */
  function ListPosts(posts: seq<Post>, users: map<string, Profile>, pg: Pagination): (r: seq<FeedItem>)
    ensures pg.paginated ==> |r| <= pg.limit
    ensures SortedDesc(r, ItemTime)
    ensures forall i :: 0 <= i < |r| ==> r[i].post in posts && ListFilter(pg, r[i].post)
    ensures !pg.paginated ==> forall k :: 0 <= k < |posts| && ListFilter(pg, posts[k]) ==> exists i :: 0 <= i < |r| && r[i].post == posts[k]
  {
    ListPostsFacts(posts, pg);
    var page := Paged(Newest(Filter(posts, ListMatch(pg))), pg);
    AttachSorted(users, page);
    MapSeq(page, Attach(users))
  }

  lemma ListPostsFacts(posts: seq<Post>, pg: Pagination)
    ensures var page := Paged(Newest(Filter(posts, ListMatch(pg))), pg);
            && SortedDesc(page, Time)
            && (pg.paginated ==> |page| <= pg.limit)
            && (forall i :: 0 <= i < |page| ==> page[i] in posts && ListFilter(pg, page[i]))
            && (!pg.paginated ==> forall k :: 0 <= k < |posts| && ListFilter(pg, posts[k]) ==> posts[k] in page)
  {
    var matching := Filter(posts, ListMatch(pg));
    var sorted := Newest(matching);
    var page := Paged(sorted, pg);
    PagedSorted(sorted, pg, Time);
    forall i | 0 <= i < |page|
      ensures page[i] in posts && ListFilter(pg, page[i])
    {
      PagedSubset(sorted, pg);
      InNewest(matching, page[i]);
      FilterMember(posts, ListMatch(pg), page[i]);
    }
    if !pg.paginated {
      forall k | 0 <= k < |posts| && ListFilter(pg, posts[k])
        ensures posts[k] in page
      {
        FilterKeeps(posts, ListMatch(pg), posts[k]);
        assert posts[k] in multiset(matching);
      }
    }
  }

  function InCursor(pg: Pagination): Post -> bool {
    (p: Post) => CreatedBefore(pg.cursor, p.createdAt)
  }

  function TypedInCursor(pg: Pagination, feedType: string): Post -> bool {
    (p: Post) => p.postType == feedType && CreatedBefore(pg.cursor, p.createdAt)
  }

  /** All posts a typed feed may show, before any limit: the partition's, then the typed general posts. */
  function TypedUnion(partition: seq<Post>, posts: seq<Post>, feedType: string, pg: Pagination): seq<Post> {
    Filter(partition, InCursor(pg)) + Filter(posts, TypedInCursor(pg, feedType))
  }

  /** The merged, re-sorted and sliced page of a typed feed, before authors are attached. */
  function TypedPage(partition: seq<Post>, posts: seq<Post>, feedType: string, pg: Pagination): seq<Post> {
    var legacy := Paged(Newest(Filter(partition, InCursor(pg))), pg);
    var typed := Paged(Newest(Filter(posts, TypedInCursor(pg, feedType))), pg);
    Paged(Newest(MapSeq(legacy + typed, Norm(feedType))), pg)
  }

  /** `x` is a post the typed feed may show, with its type defaulted to the feed type. */
  predicate FromUnion(x: Post, partition: seq<Post>, posts: seq<Post>, feedType: string, pg: Pagination) {
    exists p :: p in TypedUnion(partition, posts, feedType, pg) && x == WithType(p, feedType)
  }

  /**
   * GET /teacher/announcements (`feedType` "teacher", partition announcements)
   * and GET /admin/notices ("admin", notices): each source is queried newest
   * first and limited on its own, the two are concatenated, every item's type
   * defaulted to the feed type, the whole sorted again and sliced.
   */
  function TypedFeed(partition: seq<Post>, posts: seq<Post>, feedType: string, users: map<string, Profile>, pg: Pagination): (r: seq<FeedItem>)
    requires feedType != ""
    ensures pg.paginated ==> |r| <= pg.limit
    ensures SortedDesc(r, ItemTime)
    ensures forall i :: 0 <= i < |r| ==> r[i].post.postType != "" && FromUnion(r[i].post, partition, posts, feedType, pg)
    ensures !pg.paginated ==> multiset(MapSeq(r, ItemPost)) == multiset(MapSeq(TypedUnion(partition, posts, feedType, pg), Norm(feedType)))
  {
    var page := TypedPage(partition, posts, feedType, pg);
    TypedPageFacts(partition, posts, feedType, pg);
    AttachSorted(users, page);
    MapInverse(page, Attach(users), ItemPost);
    TypedPageWhole(partition, posts, feedType, pg);
    MapSeq(page, Attach(users))
  }

  /** Unpaginated, the typed page holds every post of the union, typed, and nothing else. */
  lemma TypedPageWhole(partition: seq<Post>, posts: seq<Post>, feedType: string, pg: Pagination)
    ensures !pg.paginated ==> multiset(TypedPage(partition, posts, feedType, pg)) == multiset(MapSeq(TypedUnion(partition, posts, feedType, pg), Norm(feedType)))
  {
    if !pg.paginated {
      var a := Filter(partition, InCursor(pg));
      var b := Filter(posts, TypedInCursor(pg, feedType));
      var norm := Norm(feedType);
      assert TypedPage(partition, posts, feedType, pg) == Newest(MapSeq(Newest(a) + Newest(b), norm));
      NormKeeps(feedType);
      MapConcat(Newest(a), Newest(b), norm);
      MapConcat(a, b, norm);
      MapNewestMultiset(a, norm);
      MapNewestMultiset(b, norm);
    }
  }

  /** Sorting before a time-keeping map does not change which items the map yields. */
  lemma MapNewestMultiset(a: seq<Post>, norm: Post -> Post)
    requires forall y :: Time(norm(y)) == Time(y)
    ensures multiset(MapSeq(Newest(a), norm)) == multiset(MapSeq(a, norm))
  {
    SortMap(a, norm, Time, Time);
  }

  lemma TypedPageFacts(partition: seq<Post>, posts: seq<Post>, feedType: string, pg: Pagination)
    requires feedType != ""
    ensures var page := TypedPage(partition, posts, feedType, pg);
            && SortedDesc(page, Time)
            && (pg.paginated ==> |page| <= pg.limit)
            && forall i :: 0 <= i < |page| ==> page[i].postType != "" && FromUnion(page[i], partition, posts, feedType, pg)
  {
    var a := Filter(partition, InCursor(pg));
    var b := Filter(posts, TypedInCursor(pg, feedType));
    var legacy := Paged(Newest(a), pg);
    var typed := Paged(Newest(b), pg);
    var mapped := MapSeq(legacy + typed, Norm(feedType));
    var merged := Newest(mapped);
    var page := Paged(merged, pg);
    assert page == TypedPage(partition, posts, feedType, pg);
    PagedSorted(merged, pg, Time);
    PagedSubset(merged, pg);
    forall i | 0 <= i < |page|
      ensures page[i].postType != "" && FromUnion(page[i], partition, posts, feedType, pg)
    {
      TypedPageItem(a, b, legacy, typed, pg, feedType, page[i]);
      assert TypedUnion(partition, posts, feedType, pg) == a + b;
    }
  }

  lemma TypedPageItem(a: seq<Post>, b: seq<Post>, legacy: seq<Post>, typed: seq<Post>, pg: Pagination, feedType: string, x: Post)
    requires feedType != ""
    requires legacy == Paged(Newest(a), pg) && typed == Paged(Newest(b), pg)
    requires x in Newest(MapSeq(legacy + typed, Norm(feedType)))
    ensures x.postType != "" && exists p :: p in a + b && x == WithType(p, feedType)
  {
    var mapped := MapSeq(legacy + typed, Norm(feedType));
    assert x in multiset(mapped);
    var k :| 0 <= k < |mapped| && mapped[k] == x;
    var q := (legacy + typed)[k];
    assert x == WithType(q, feedType);
    TypedSourceMember(a, b, legacy, typed, pg, q);
  }

  lemma TypedSourceMember(a: seq<Post>, b: seq<Post>, legacy: seq<Post>, typed: seq<Post>, pg: Pagination, q: Post)
    requires legacy == Paged(Newest(a), pg) && typed == Paged(Newest(b), pg)
    requires q in legacy + typed
    ensures q in a + b
  {
    PagedSubset(Newest(a), pg);
    PagedSubset(Newest(b), pg);
    if q in legacy {
      InNewest(a, q);
    } else {
      InNewest(b, q);
    }
  }

  /**
   * With distinct creation times among the posts a typed feed may show, the
   * paginated feed is exactly the newest `limit` of them: limiting each
   * source before the merge loses nothing.
   */
  lemma TypedFeedTopN(partition: seq<Post>, posts: seq<Post>, feedType: string, users: map<string, Profile>, pg: Pagination)
    requires feedType != "" && pg.paginated
    requires KeyInjective(TypedUnion(partition, posts, feedType, pg), Time)
    ensures TypedFeed(partition, posts, feedType, users, pg)
         == MapSeq(Take(Newest(MapSeq(TypedUnion(partition, posts, feedType, pg), Norm(feedType))), pg.limit), Attach(users))
  {
    TypedPageTopN(partition, posts, feedType, pg);
  }

  lemma TypedPageTopN(partition: seq<Post>, posts: seq<Post>, feedType: string, pg: Pagination)
    requires pg.paginated
    requires KeyInjective(TypedUnion(partition, posts, feedType, pg), Time)
    ensures TypedPage(partition, posts, feedType, pg)
         == Take(Newest(MapSeq(TypedUnion(partition, posts, feedType, pg), Norm(feedType))), pg.limit)
  {
    var a := Filter(partition, InCursor(pg));
    var b := Filter(posts, TypedInCursor(pg, feedType));
    assert TypedUnion(partition, posts, feedType, pg) == a + b;
    assert TypedPage(partition, posts, feedType, pg)
        == Take(Newest(MapSeq(Take(Newest(a), pg.limit) + Take(Newest(b), pg.limit), Norm(feedType))), pg.limit);
    NormKeeps(feedType);
    PreLimitedMapped(a, b, pg.limit, Norm(feedType));
  }

  lemma NormKeeps(fallback: string)
    ensures forall y :: Time(Norm(fallback)(y)) == Time(y)
  {
  }

  /**
   * Limiting two sources before merging them, under a map that keeps
   * creation times, loses nothing when those times are distinct.
   */
  lemma PreLimitedMapped(a: seq<Post>, b: seq<Post>, n: nat, norm: Post -> Post)
    requires KeyInjective(a + b, Time)
    requires forall y :: Time(norm(y)) == Time(y)
    ensures Take(Newest(MapSeq(Take(Newest(a), n) + Take(Newest(b), n), norm)), n)
         == Take(Newest(MapSeq(a + b, norm)), n)
  {
    var pre := Take(Newest(a), n) + Take(Newest(b), n);
    SortMap(pre, norm, Time, Time);
    TakeMap(Newest(pre), norm, n);
    PreLimitedMerge2(a, b, n, Time);
    TakeMap(Newest(a + b), norm, n);
    SortMap(a + b, norm, Time, Time);
  }

  /** A per-author activity entry: the post with its author, and the original it reposts when found. */
  datatype ActivityItem = ActivityItem(item: FeedItem, original: Option<FeedItem>)

  function ActivityTime(a: ActivityItem): int {
    Time(a.item.post)
  }

  function ActivityPost(a: ActivityItem): Post {
    a.item.post
  }

  /** The store filter of GET /user/profile/:email: `{ email }` and, with a cursor, `createdAt < cursor`. */
  predicate ByAuthor(email: string, pg: Pagination, p: Post) {
    p.email == email && CreatedBefore(pg.cursor, p.createdAt)
  }

  function AuthorMatch(email: string, pg: Pagination): Post -> bool {
    p => ByAuthor(email, pg, p)
  }

  /** One partition's part of the activity feed: queried newest first, limited when paginated, typed. */
  function AuthorPart(part: seq<Post>, email: string, pg: Pagination, fallback: string): seq<Post> {
    MapSeq(Paged(Newest(Filter(part, AuthorMatch(email, pg))), pg), Norm(fallback))
  }

  /** `allPosts`: the posts part, then the announcements part, then the notices part. */
  function AuthorPosts(posts: seq<Post>, announcements: seq<Post>, notices: seq<Post>, email: string, pg: Pagination): seq<Post> {
    AuthorPart(posts, email, pg, "general") + AuthorPart(announcements, email, pg, "teacher") + AuthorPart(notices, email, pg, "admin")
  }

  function RepostField(): Post -> string {
    (p: Post) => p.repostOf
  }

  function ValidId(): string -> bool {
    s => IsValid(s)
  }

  /** `new ObjectId(id).toString()` for an id already known to be valid; other strings are kept. */
  function Canonical(s: string): string {
    match Parse(s)
    case Some(c) => c
    case None => s
  }

  /** The ids of the originals to fetch: distinct non-empty `repostOf` values that are valid ids, parsed. */
  function OriginalIds(all: seq<Post>): seq<string> {
    MapSeq(Filter(Dedupe(Filter(MapSeq(all, RepostField()), NonBlank)), ValidId()), Canonical)
  }

  function IdIn(ids: seq<string>): Post -> bool {
    (p: Post) => p.id in ids
  }

  /** `find({ _id: { $in: ids } })` on each partition, concatenated in partition order. */
  function FetchOriginals(posts: seq<Post>, announcements: seq<Post>, notices: seq<Post>, ids: seq<string>): seq<Post> {
    Filter(posts, IdIn(ids)) + Filter(announcements, IdIn(ids)) + Filter(notices, IdIn(ids))
  }

  /**
   * `originalMap[id]`, the map filled by `forEach` over the originals: a
   * later document with the same id overwrites an earlier one, so the
   * lookup finds the last.
   */
  function LastWithId(s: seq<Post>, id: string): (r: Option<Post>)
    ensures r.Some? ==> r.value in s && r.value.id == id
    ensures r.None? <==> forall k :: 0 <= k < |s| ==> s[k].id != id
  {
    if s == [] then None
    else if s[|s| - 1].id == id then Some(s[|s| - 1])
    else LastWithId(s[..|s| - 1], id)
  }

  /** The document found is the last with the id: no later document carries it. */
  lemma {:induction false} LastWithIdIsLast(s: seq<Post>, id: string)
    requires LastWithId(s, id).Some?
    ensures exists k :: 0 <= k < |s| && s[k] == LastWithId(s, id).value && forall j :: k < j < |s| ==> s[j].id != id
  {
    var n := |s| - 1;
    if s[n].id == id {
      assert s[n] == LastWithId(s, id).value;
    } else {
      var p := s[..n];
      LastWithIdIsLast(p, id);
      var k :| 0 <= k < |p| && p[k] == LastWithId(p, id).value && forall j :: k < j < |p| ==> p[j].id != id;
      assert s[k] == p[k];
      forall j | k < j < |s|
        ensures s[j].id != id
      {
        if j < n {
          assert s[j] == p[j];
        }
      }
    }
  }

  /** The entry for one post: author attached, and the original attached when the post reposts one that was fetched. */
  function Enrich(users: map<string, Profile>, originals: seq<Post>, p: Post): ActivityItem {
    var original :=
      if p.repostOf == "" then None
      else
        match LastWithId(originals, p.repostOf)
        case Some(o) => Some(AttachUser(users, o))
        case None => None;
    ActivityItem(AttachUser(users, p), original)
  }

  function EnrichWith(users: map<string, Profile>, originals: seq<Post>): Post -> ActivityItem {
    p => Enrich(users, originals, p)
  }

  /** The originals the activity feed of `all` can attach. */
  function OriginalsFor(posts: seq<Post>, announcements: seq<Post>, notices: seq<Post>, all: seq<Post>): seq<Post> {
    FetchOriginals(posts, announcements, notices, OriginalIds(all))
  }

  /**
   * GET /user/profile/:email: the author's documents from all three
   * partitions (each limited when paginated), typed by partition, enriched,
   * sorted newest first and sliced.
   */
  function UserActivity(posts: seq<Post>, announcements: seq<Post>, notices: seq<Post>, email: string, users: map<string, Profile>, pg: Pagination): (r: seq<ActivityItem>)
    ensures pg.paginated ==> |r| <= pg.limit
    ensures SortedDesc(r, ActivityTime)
    ensures forall i :: 0 <= i < |r| ==> ActivityEntry(posts, announcements, notices, email, pg, r[i])
    ensures !pg.paginated ==> multiset(MapSeq(r, ActivityPost)) == multiset(AuthorUnion(posts, announcements, notices, email, pg))
  {
    var all := AuthorPosts(posts, announcements, notices, email, pg);
    var originals := OriginalsFor(posts, announcements, notices, all);
    var sorted := SortDesc(MapSeq(all, EnrichWith(users, originals)), ActivityTime);
    ActivityFacts(posts, announcements, notices, email, users, pg);
    PagedSorted(sorted, pg, ActivityTime);
    PagedSubset(sorted, pg);
    EnrichedPosts(all, EnrichWith(users, originals));
    AuthorPostsWhole(posts, announcements, notices, email, pg);
    Paged(sorted, pg)
  }

  /** The posts behind the sorted, enriched entries are the posts enriched. */
  lemma EnrichedPosts(all: seq<Post>, enrich: Post -> ActivityItem)
    requires forall y :: enrich(y).item.post == y
    ensures multiset(MapSeq(SortDesc(MapSeq(all, enrich), ActivityTime), ActivityPost)) == multiset(all)
  {
    assert forall y :: ActivityTime(enrich(y)) == Time(y);
    SortMap(all, enrich, Time, ActivityTime);
    MapInverse(Newest(all), enrich, ActivityPost);
  }

  /** Unpaginated, the three partition queries together hold every typed document of the author. */
  lemma AuthorPostsWhole(posts: seq<Post>, announcements: seq<Post>, notices: seq<Post>, email: string, pg: Pagination)
    ensures !pg.paginated ==> multiset(AuthorPosts(posts, announcements, notices, email, pg)) == multiset(AuthorUnion(posts, announcements, notices, email, pg))
  {
    NormKeeps("general");
    NormKeeps("teacher");
    NormKeeps("admin");
    MapNewestMultiset(Filter(posts, AuthorMatch(email, pg)), Norm("general"));
    MapNewestMultiset(Filter(announcements, AuthorMatch(email, pg)), Norm("teacher"));
    MapNewestMultiset(Filter(notices, AuthorMatch(email, pg)), Norm("admin"));
  }

  /** What every activity entry satisfies: by the author, typed, and any original is the document it reposts. */
  predicate ActivityEntry(posts: seq<Post>, announcements: seq<Post>, notices: seq<Post>, email: string, pg: Pagination, x: ActivityItem) {
    && ByAuthor(email, pg, x.item.post) && x.item.post.postType != ""
    && (x.original.Some? ==>
          && x.item.post.repostOf != ""
          && x.original.value.post.id == x.item.post.repostOf
          && x.original.value.post in posts + announcements + notices)
  }

  lemma ActivityFacts(posts: seq<Post>, announcements: seq<Post>, notices: seq<Post>, email: string, users: map<string, Profile>, pg: Pagination)
    ensures var all := AuthorPosts(posts, announcements, notices, email, pg);
            var sorted := SortDesc(MapSeq(all, EnrichWith(users, OriginalsFor(posts, announcements, notices, all))), ActivityTime);
            forall x :: x in sorted ==> ActivityEntry(posts, announcements, notices, email, pg, x)
  {
    var all := AuthorPosts(posts, announcements, notices, email, pg);
    var originals := OriginalsFor(posts, announcements, notices, all);
    var mapped := MapSeq(all, EnrichWith(users, originals));
    forall x | x in SortDesc(mapped, ActivityTime)
      ensures ActivityEntry(posts, announcements, notices, email, pg, x)
    {
      var k := MappedIndex(all, EnrichWith(users, originals), ActivityTime, x);
      EnrichEntry(posts, announcements, notices, email, users, pg, all, originals, all[k]);
    }
  }

  lemma EnrichEntry(posts: seq<Post>, announcements: seq<Post>, notices: seq<Post>, email: string, users: map<string, Profile>, pg: Pagination,
                    all: seq<Post>, originals: seq<Post>, p: Post)
    requires all == AuthorPosts(posts, announcements, notices, email, pg)
    requires originals == OriginalsFor(posts, announcements, notices, all)
    requires p in all
    ensures ActivityEntry(posts, announcements, notices, email, pg, Enrich(users, originals, p))
  {
    AuthorPostsMember(posts, announcements, notices, email, pg, p);
    var x := Enrich(users, originals, p);
    if x.original.Some? {
      var o := LastWithId(originals, p.repostOf);
      assert o.Some? && x.original.value.post == o.value;
      OriginalsFrom(posts, announcements, notices, OriginalIds(all), o.value);
    }
  }

  lemma AuthorPostsMember(posts: seq<Post>, announcements: seq<Post>, notices: seq<Post>, email: string, pg: Pagination, p: Post)
    requires p in AuthorPosts(posts, announcements, notices, email, pg)
    ensures ByAuthor(email, pg, p) && p.postType != ""
  {
    if p in AuthorPart(posts, email, pg, "general") {
      AuthorPartMember(posts, email, pg, "general", p);
    } else if p in AuthorPart(announcements, email, pg, "teacher") {
      AuthorPartMember(announcements, email, pg, "teacher", p);
    } else {
      AuthorPartMember(notices, email, pg, "admin", p);
    }
  }

  lemma AuthorPartMember(part: seq<Post>, email: string, pg: Pagination, fallback: string, p: Post)
    requires fallback != ""
    requires p in AuthorPart(part, email, pg, fallback)
    ensures ByAuthor(email, pg, p) && p.postType != ""
  {
    var matching := Filter(part, AuthorMatch(email, pg));
    var page := Paged(Newest(matching), pg);
    var k :| 0 <= k < |page| && MapSeq(page, Norm(fallback))[k] == p;
    PagedSubset(Newest(matching), pg);
    InNewest(matching, page[k]);
    FilterMember(part, AuthorMatch(email, pg), page[k]);
  }

  lemma OriginalsFrom(posts: seq<Post>, announcements: seq<Post>, notices: seq<Post>, ids: seq<string>, o: Post)
    requires o in FetchOriginals(posts, announcements, notices, ids)
    ensures o in posts + announcements + notices
  {
    if o in Filter(posts, IdIn(ids)) {
      FilterMember(posts, IdIn(ids), o);
    } else if o in Filter(announcements, IdIn(ids)) {
      FilterMember(announcements, IdIn(ids), o);
    } else {
      FilterMember(notices, IdIn(ids), o);
    }
  }

  /** Everything the activity feed may show, before any limit: the author's documents of each partition, typed. */
  function AuthorUnion(posts: seq<Post>, announcements: seq<Post>, notices: seq<Post>, email: string, pg: Pagination): seq<Post> {
    MapSeq(Filter(posts, AuthorMatch(email, pg)), Norm("general"))
      + MapSeq(Filter(announcements, AuthorMatch(email, pg)), Norm("teacher"))
      + MapSeq(Filter(notices, AuthorMatch(email, pg)), Norm("admin"))
  }

  /**
   * With distinct creation times among the author's documents, the
   * paginated activity feed shows exactly the newest `limit` of them:
   * limiting each partition's query before the merge loses nothing.
   */
  lemma ActivityTopN(posts: seq<Post>, announcements: seq<Post>, notices: seq<Post>, email: string, users: map<string, Profile>, pg: Pagination)
    requires pg.paginated
    requires KeyInjective(AuthorUnion(posts, announcements, notices, email, pg), Time)
    ensures MapSeq(UserActivity(posts, announcements, notices, email, users, pg), ActivityPost)
         == Take(Newest(AuthorUnion(posts, announcements, notices, email, pg)), pg.limit)
  {
    var n := pg.limit;
    var t0 := MapSeq(Filter(posts, AuthorMatch(email, pg)), Norm("general"));
    var t1 := MapSeq(Filter(announcements, AuthorMatch(email, pg)), Norm("teacher"));
    var t2 := MapSeq(Filter(notices, AuthorMatch(email, pg)), Norm("admin"));
    var all := AuthorPosts(posts, announcements, notices, email, pg);
    AuthorPartTopN(posts, email, pg, "general");
    AuthorPartTopN(announcements, email, pg, "teacher");
    AuthorPartTopN(notices, email, pg, "admin");
    assert all == Take(Newest(t0), n) + Take(Newest(t1), n) + Take(Newest(t2), n);
    PreLimitedMerge3(t0, t1, t2, n, Time);
    var enrich := EnrichWith(users, OriginalsFor(posts, announcements, notices, all));
    EnrichedNewest(all, enrich, n);
  }

  /** A typed, limited partition query is the newest `limit` of the typed matches. */
  lemma AuthorPartTopN(part: seq<Post>, email: string, pg: Pagination, fallback: string)
    requires pg.paginated
    ensures AuthorPart(part, email, pg, fallback)
         == Take(Newest(MapSeq(Filter(part, AuthorMatch(email, pg)), Norm(fallback))), pg.limit)
  {
    var a := Filter(part, AuthorMatch(email, pg));
    NormKeeps(fallback);
    SortMap(a, Norm(fallback), Time, Time);
    TakeMap(Newest(a), Norm(fallback), pg.limit);
  }

  /** Enriching posts keeps their times, and the entry's post is the post enriched. */
  lemma EnrichedNewest(all: seq<Post>, enrich: Post -> ActivityItem, n: nat)
    requires forall y :: enrich(y).item.post == y
    ensures MapSeq(Take(SortDesc(MapSeq(all, enrich), ActivityTime), n), ActivityPost) == Take(Newest(all), n)
  {
    assert forall y :: ActivityTime(enrich(y)) == Time(y);
    SortMap(all, enrich, Time, ActivityTime);
    TakeMap(Newest(all), enrich, n);
    MapInverse(Take(Newest(all), n), enrich, ActivityPost);
  }

  /**
   * The converse of the original-attachment guarantee: an entry that reposts
   * a canonical id some partition holds always comes with its original.
   */
  lemma ActivityAttachesOriginal(posts: seq<Post>, announcements: seq<Post>, notices: seq<Post>, email: string, users: map<string, Profile>, pg: Pagination, i: nat, q: Post)
    requires i < |UserActivity(posts, announcements, notices, email, users, pg)|
    requires IsCanonical(UserActivity(posts, announcements, notices, email, users, pg)[i].item.post.repostOf)
    requires q in posts + announcements + notices
    requires q.id == UserActivity(posts, announcements, notices, email, users, pg)[i].item.post.repostOf
    ensures UserActivity(posts, announcements, notices, email, users, pg)[i].original.Some?
  {
    var all := AuthorPosts(posts, announcements, notices, email, pg);
    var originals := OriginalsFor(posts, announcements, notices, all);
    var enrich := EnrichWith(users, originals);
    var sorted := SortDesc(MapSeq(all, enrich), ActivityTime);
    var x := UserActivity(posts, announcements, notices, email, users, pg)[i];
    PagedSubset(sorted, pg);
    var k := MappedIndex(all, enrich, ActivityTime, x);
    var id := all[k].repostOf;
    assert x == Enrich(users, originals, all[k]);
    RepostIdFetched(all, k);
    OriginalFetched(posts, announcements, notices, OriginalIds(all), q);
  }

  /** A canonical `repostOf` of an entry is among the ids whose originals are fetched. */
  lemma RepostIdFetched(all: seq<Post>, k: nat)
    requires k < |all| && IsCanonical(all[k].repostOf)
    ensures all[k].repostOf in OriginalIds(all)
  {
    var id := all[k].repostOf;
    var fields := MapSeq(all, RepostField());
    assert fields[k] == id;
    FilterKeeps(fields, NonBlank, id);
    var distinct := Dedupe(Filter(fields, NonBlank));
    DedupeKeeps(Filter(fields, NonBlank), id);
    assert IsValid(id);
    FilterKeeps(distinct, ValidId(), id);
    ParseCanonical(id);
    MapKeeps(Filter(distinct, ValidId()), Canonical, id);
  }

  lemma OriginalFetched(posts: seq<Post>, announcements: seq<Post>, notices: seq<Post>, ids: seq<string>, q: Post)
    requires q in posts + announcements + notices && q.id in ids
    ensures q in FetchOriginals(posts, announcements, notices, ids)
  {
    if q in posts {
      FilterKeeps(posts, IdIn(ids), q);
    } else if q in announcements {
      FilterKeeps(announcements, IdIn(ids), q);
    } else {
      FilterKeeps(notices, IdIn(ids), q);
    }
  }
}
