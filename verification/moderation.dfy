/**
 * The admin report queues: GET /admin/reported-posts (index.js:1791-1859)
 * and GET /admin/reported-comments (index.js:1862-1948).
 *
 * Both handlers read every report, group them by target in a `for` loop
 * that fills the `grouped` dictionary (a count and the latest report time
 * per target), list the targets in the dictionary's key order, optionally
 * keep only one of them, sort them by latest report (newest first), slice a
 * page, and hydrate the page's ids with the stored documents.
 *
 * A report's `target` is the reported post id for a post report and the
 * reported comment id for a comment report. A JavaScript object lists
 * integer-like keys first, in ascending order, and its other keys in
 * insertion order. Report targets are meant to be ObjectId strings, which
 * are never integer-like unless all 24 characters are decimal digits;
 * `GroupReports` keeps insertion order for every key in `order` beside the
 * map.
 */
module Moderation {
  import opened Types
  import opened Seqs
  import opened Ordering
  import opened ObjectIds
  import opened Params
  import opened Feed

  /** The entry of one target in `grouped`: how many reports, and the latest report time. */
  datatype Group = Group(count: nat, latest: nat)

  function Target(): Report -> string {
    (r: Report) => r.target
  }

  /** The report targets, one per report, in storage order. */
  function Targets(reports: seq<Report>): seq<string> {
    MapSeq(reports, Target())
  }

  function About(t: string): Report -> bool {
    (r: Report) => r.target == t
  }

  /** The latest time among the reports on `t`; None when `t` has none. */
  function LatestOf(reports: seq<Report>, t: string): Option<nat> {
    if reports == [] then None
    else
      var prev := LatestOf(reports[..|reports| - 1], t);
      var r := reports[|reports| - 1];
      if r.target != t then prev
      else
        match prev
        case None => Some(r.reportedAt)
        case Some(l) => Some(if r.reportedAt > l then r.reportedAt else l)
  }

  /** The latest time exists exactly for reported targets, bounds every report on the target, and is one of them. */
  lemma {:induction false} LatestIsMax(reports: seq<Report>, t: string)
    ensures LatestOf(reports, t).Some? <==> t in Targets(reports)
    ensures LatestOf(reports, t).Some? ==>
              forall i :: 0 <= i < |reports| && reports[i].target == t ==> reports[i].reportedAt <= LatestOf(reports, t).value
    ensures LatestOf(reports, t).Some? ==>
              exists i :: 0 <= i < |reports| && reports[i].target == t && reports[i].reportedAt == LatestOf(reports, t).value
  {
    if reports != [] {
      var n := |reports| - 1;
      var prefix := reports[..n];
      LatestIsMax(prefix, t);
      assert Targets(reports) == Targets(prefix) + [reports[n].target];
      forall i | 0 <= i < n
        ensures reports[i] == prefix[i]
      {
      }
    }
  }

  /** The dictionary the grouping loop builds: one entry per reported target. */
  function Summaries(reports: seq<Report>): map<string, Group> {
    map t | t in Targets(reports) :: Group(Count(reports, About(t)), LatestOf(reports, t).GetOr(0))
  }

  /** Each entry counts exactly the reports on its target and holds the latest of their times. */
  lemma SummariesFacts(reports: seq<Report>, t: string)
    ensures t in Summaries(reports) <==> t in Targets(reports)
    ensures t in Summaries(reports) ==>
              && Summaries(reports)[t].count == |Filter(reports, About(t))|
              && Summaries(reports)[t].count >= 1
              && (forall i :: 0 <= i < |reports| && reports[i].target == t ==> reports[i].reportedAt <= Summaries(reports)[t].latest)
              && (exists i :: 0 <= i < |reports| && reports[i].target == t && reports[i].reportedAt == Summaries(reports)[t].latest)
  {
    LatestIsMax(reports, t);
    if t in Targets(reports) {
      var k :| 0 <= k < |reports| && Targets(reports)[k] == t;
      FilterKeeps(reports, About(t), reports[k]);
    }
  }

  lemma CountStep(reports: seq<Report>, i: nat, t: string)
    requires i < |reports|
    ensures Count(reports[..i + 1], About(t)) == Count(reports[..i], About(t)) + (if reports[i].target == t then 1 else 0)
  {
    assert reports[..i + 1] == reports[..i] + [reports[i]];
    FilterConcat(reports[..i], [reports[i]], About(t));
  }

  lemma PrefixStep(reports: seq<Report>, i: nat)
    requires i < |reports|
    ensures reports[..i + 1][..i] == reports[..i]
    ensures reports[..i + 1][i] == reports[i]
    ensures Targets(reports[..i + 1]) == Targets(reports[..i]) + [reports[i].target]
  {
  }

  /** One iteration of the grouping loop on the dictionary. */
  function AddReport(grouped: map<string, Group>, r: Report): map<string, Group> {
    var entered := if r.target in grouped then grouped else grouped[r.target := Group(0, r.reportedAt)];
    var g := entered[r.target];
    entered[r.target := Group(g.count + 1, if r.reportedAt > g.latest then r.reportedAt else g.latest)]
  }

  /** `grouped` holds one entry per target of `reports`, counting its reports and holding the latest time. */
  ghost predicate GroupsOf(reports: seq<Report>, grouped: map<string, Group>) {
    && (forall t :: t in grouped <==> t in Targets(reports))
    && (forall t :: t in grouped ==> grouped[t].count == Count(reports, About(t)) && LatestOf(reports, t) == Some(grouped[t].latest))
  }

  lemma CountAbsent(reports: seq<Report>, t: string)
    requires t !in Targets(reports)
    ensures Count(reports, About(t)) == 0
  {
    FilterFacts(reports, About(t));
    if Filter(reports, About(t)) != [] {
      var x := Filter(reports, About(t))[0];
      MapKeeps(reports, Target(), x);
    }
  }

  lemma LatestStep(reports: seq<Report>, i: nat, t: string)
    requires i < |reports|
    ensures LatestOf(reports[..i + 1], t) ==
              if reports[i].target != t then LatestOf(reports[..i], t)
              else match LatestOf(reports[..i], t)
                   case None => Some(reports[i].reportedAt)
                   case Some(l) => Some(if reports[i].reportedAt > l then reports[i].reportedAt else l)
  {
    assert reports[..i + 1][..i] == reports[..i];
  }

  /** Adding report i to the dictionary of the first i reports gives the dictionary of the first i + 1. */
  lemma AddReportStep(reports: seq<Report>, i: nat, grouped: map<string, Group>)
    requires i < |reports| && GroupsOf(reports[..i], grouped)
    ensures GroupsOf(reports[..i + 1], AddReport(grouped, reports[i]))
  {
    var r := reports[i];
    var next := AddReport(grouped, r);
    PrefixStep(reports, i);
    forall t | t in next
      ensures next[t].count == Count(reports[..i + 1], About(t))
      ensures LatestOf(reports[..i + 1], t) == Some(next[t].latest)
    {
      CountStep(reports, i, t);
      LatestStep(reports, i, t);
      if t == r.target && t !in grouped {
        CountAbsent(reports[..i], t);
        LatestIsMax(reports[..i], t);
      }
    }
  }

  /** The dictionary after the loop has read `reports`, one report at a time. */
  function Grouped(reports: seq<Report>): map<string, Group> {
    if reports == [] then map[] else AddReport(Grouped(reports[..|reports| - 1]), reports[|reports| - 1])
  }

  /** The loop's dictionary is the summary of the reports: a count and the latest time per target. */
  lemma {:induction false} GroupedSummaries(reports: seq<Report>)
    ensures Grouped(reports) == Summaries(reports)
  {
    if reports == [] {
      assert Targets(reports) == [];
    } else {
      var n := |reports| - 1;
      assert reports[..n] == reports[..n];
      GroupedSummaries(reports[..n]);
      SummariesGroups(reports[..n]);
      AddReportStep(reports, n, Grouped(reports[..n]));
      assert reports[..n + 1] == reports;
      GroupsOfSummaries(reports, Grouped(reports));
    }
  }

  lemma SummariesGroups(reports: seq<Report>)
    ensures GroupsOf(reports, Summaries(reports))
  {
    forall t | t in Summaries(reports)
      ensures LatestOf(reports, t) == Some(Summaries(reports)[t].latest)
    {
      LatestIsMax(reports, t);
    }
  }

  /** The dictionary after the loop has read the first `i` reports. */
  function GroupedUpTo(reports: seq<Report>, i: nat): map<string, Group>
    requires i <= |reports|
  {
    if i == 0 then map[] else AddReport(GroupedUpTo(reports, i - 1), reports[i - 1])
  }

  /** The key order after the loop has read the first `i` reports: each target at its first report. */
  function OrderUpTo(reports: seq<Report>, i: nat): seq<string>
    requires i <= |reports|
  {
    if i == 0 then []
    else
      var o := OrderUpTo(reports, i - 1);
      if reports[i - 1].target in o then o else o + [reports[i - 1].target]
  }

  /** After `i` reports the loop's dictionary is the fold of the prefix. */
  lemma {:induction false} GroupedUpToPrefix(reports: seq<Report>, i: nat)
    requires i <= |reports|
    ensures GroupedUpTo(reports, i) == Grouped(reports[..i])
  {
    if i > 0 {
      GroupedUpToPrefix(reports, i - 1);
      PrefixStep(reports, i - 1);
    }
  }

  /** After `i` reports the loop's key order is the first-occurrence order of the prefix's targets. */
  lemma {:induction false} OrderUpToPrefix(reports: seq<Report>, i: nat)
    requires i <= |reports|
    ensures OrderUpTo(reports, i) == Dedupe(Targets(reports[..i]))
  {
    if i > 0 {
      OrderUpToPrefix(reports, i - 1);
      DedupeStep(reports, i - 1);
    }
  }

  /** The dictionary has an entry for a target exactly when the key order lists it. */
  lemma KeysAgree(reports: seq<Report>, i: nat, t: string)
    requires i <= |reports|
    ensures t in GroupedUpTo(reports, i) <==> t in OrderUpTo(reports, i)
  {
    GroupedUpToPrefix(reports, i);
    OrderUpToPrefix(reports, i);
    GroupedSummaries(reports[..i]);
  }

  lemma DedupeStep(reports: seq<Report>, i: nat)
    requires i < |reports|
    ensures var prev := Dedupe(Targets(reports[..i]));
            Dedupe(Targets(reports[..i + 1])) == if reports[i].target in prev then prev else prev + [reports[i].target]
  {
    PrefixStep(reports, i);
    var s := Targets(reports[..i + 1]);
    assert s[..|s| - 1] == Targets(reports[..i]);
  }

  lemma GroupsOfSummaries(reports: seq<Report>, grouped: map<string, Group>)
    requires GroupsOf(reports, grouped)
    ensures grouped == Summaries(reports)
  {
    forall t | t in grouped
      ensures grouped[t] == Summaries(reports)[t]
    {
    }
  }

  /**
   * The grouping loop (index.js:1800-1808, index.js:1871-1883): the first
   * report on a target creates its entry with that report's time, every
   * report adds one to the count and raises `latest` when it is later.
   */
  method GroupReports(reports: seq<Report>) returns (grouped: map<string, Group>, order: seq<string>)
    ensures grouped == Summaries(reports)
    ensures order == Dedupe(Targets(reports))
  {
    grouped := map[];
    order := [];
    var i := 0;
    while i < |reports|
      invariant 0 <= i <= |reports|
      invariant grouped == GroupedUpTo(reports, i)
      invariant order == OrderUpTo(reports, i)
    {
      var r := reports[i];
      KeysAgree(reports, i, r.target);
      var entered := grouped;
      if r.target !in grouped {
        entered := grouped[r.target := Group(0, r.reportedAt)];
        order := order + [r.target];
      }
      var g := entered[r.target];
      grouped := entered[r.target := Group(g.count + 1, if r.reportedAt > g.latest then r.reportedAt else g.latest)];
      i := i + 1;
    }
    GroupedUpToPrefix(reports, |reports|);
    OrderUpToPrefix(reports, |reports|);
    assert reports[..|reports|] == reports;
    GroupedSummaries(reports);
  }

  /** The key the queue sorts by: the target's latest report time. */
  function LatestKey(grouped: map<string, Group>): string -> int {
    (t: string) => if t in grouped then grouped[t].latest else 0
  }

  function Is(only: string): string -> bool {
    (t: string) => t == only
  }

  /**
   * `if (postId) postIds = postIds.filter((id) => id === postId)`: a
   * non-empty string keeps that one target; an absent or empty value keeps
   * all; a non-string value (a repeated query key) matches no target.
   */
  function Narrow(order: seq<string>, only: QueryValue): seq<string> {
    match only
    case Missing => order
    case Text(s) => if s == "" then order else Filter(order, Is(s))
    case NotText => []
  }

  predicate Selected(only: QueryValue, t: string) {
    only.Missing? || (only.Text? && (only.s == "" || only.s == t))
  }

  /** The queue's target ids, newest latest report first; `total` is their number. */
  function QueueIds(order: seq<string>, grouped: map<string, Group>, only: QueryValue): seq<string> {
    SortDesc(Narrow(order, only), LatestKey(grouped))
  }

  /**
   * The queue lists every selected target once, and only those, ordered by
   * latest report time, newest first.
   */
  lemma QueueIdsFacts(order: seq<string>, grouped: map<string, Group>, only: QueryValue)
    requires NoDuplicates(order)
    ensures var ids := QueueIds(order, grouped, only);
            && NoDuplicates(ids)
            && (forall t :: t in ids <==> t in order && Selected(only, t))
            && (forall i, j :: 0 <= i < j < |ids| ==> LatestKey(grouped)(ids[i]) >= LatestKey(grouped)(ids[j]))
  {
    var narrowed := Narrow(order, only);
    var ids := QueueIds(order, grouped, only);
    if only.Text? && only.s != "" {
      FilterFacts(order, Is(only.s));
      NoDuplicatesFilter(order, Is(only.s));
    }
    assert NoDuplicates(narrowed);
    assert multiset(ids) == multiset(narrowed);
    NoDuplicatesPermutation(narrowed, ids);
    forall t
      ensures t in ids <==> t in narrowed
    {
      assert t in ids <==> t in multiset(ids);
      assert t in narrowed <==> t in multiset(narrowed);
    }
  }

  lemma {:induction false} NoDuplicatesFilter(s: seq<string>, keep: string -> bool)
    requires NoDuplicates(s)
    ensures NoDuplicates(Filter(s, keep))
  {
    if s != [] {
      NoDuplicatesFilter(s[1..], keep);
      FilterFacts(s[1..], keep);
      assert s[0] !in s[1..];
    }
  }

  /** A permutation of a sequence without repeats has no repeats. */
  lemma NoDuplicatesPermutation(s: seq<string>, t: seq<string>)
    requires NoDuplicates(s) && multiset(s) == multiset(t)
    ensures NoDuplicates(t)
  {
    forall x | x in multiset(s)
      ensures multiset(s)[x] == 1
    {
      OccursOnce(s, x);
    }
    forall i, j | 0 <= i < j < |t|
      ensures t[i] != t[j]
    {
      if t[i] == t[j] {
        TwoOccurrences(t, i, j);
      }
    }
  }

  lemma TwoOccurrences(t: seq<string>, i: nat, j: nat)
    requires i < j < |t| && t[i] == t[j]
    ensures multiset(t)[t[i]] >= 2
  {
    assert t == t[..i] + [t[i]] + t[i + 1..j] + [t[j]] + t[j + 1..];
  }

  lemma {:induction false} OccursOnce(s: seq<string>, x: string)
    requires NoDuplicates(s) && x in s
    ensures multiset(s)[x] == 1
  {
    if s[0] == x {
      assert x !in s[1..];
      assert s == [s[0]] + s[1..];
    } else {
      OccursOnce(s[1..], x);
      assert s == [s[0]] + s[1..];
    }
  }

  /** `Number(page)` / `Number(limit)`, with the destructuring defaults for an absent key. */
  function QueryNumber(v: Option<JsNumber>, default: int): JsNumber {
    match v
    case None => Finite(default)
    case Some(n) => n
  }

  /**
   * `postIds.slice(skip, skip + Number(limit))` with
   * `skip = (Number(page) - 1) * Number(limit)` (index.js:1820-1821). A
   * non-finite page or limit makes both bounds non-finite or NaN, and every
   * such slice is empty.
   */
  function QueuePage<T>(ids: seq<T>, page: Option<JsNumber>, limit: Option<JsNumber>): seq<T> {
    match (QueryNumber(page, 1), QueryNumber(limit, 20))
    case (Finite(p), Finite(l)) =>
      var skip := (p - 1) * l;
      JsSlice(ids, skip, skip + l)
    case _ => []
  }

  function Min(a: int, b: int): int {
    if a <= b then a else b
  }

  /** Page `p` of size `l` is the slice [(p-1)·l, p·l) of the ids, clipped to their length. */
  lemma QueuePageSlice<T>(ids: seq<T>, p: int, l: int)
    requires p >= 1 && l >= 1
    ensures var from := Min((p - 1) * l, |ids|);
            QueuePage(ids, Some(Finite(p)), Some(Finite(l))) == ids[from..Min(p * l, |ids|)]
  {
    var skip := (p - 1) * l;
    PageBounds(p, l);
    JsSliceNonNegative(ids, skip, skip + l);
  }

  lemma PageBounds(p: int, l: int)
    requires p >= 1 && l >= 1
    ensures 0 <= (p - 1) * l && (p - 1) * l + l == p * l
  {
    assert (p - 1) * l + l == p * l by {
      assert (p - 1) * l == p * l - l;
    }
  }

  /**
   * An absent page is page 1 and an absent limit is 20, so without either
   * the queue shows the first twenty ids; a non-finite page or limit shows
   * none.
   */
  lemma QueuePageDefaults<T>(ids: seq<T>, page: Option<JsNumber>, limit: Option<JsNumber>)
    ensures QueuePage(ids, None, limit) == QueuePage(ids, Some(Finite(1)), limit)
    ensures QueuePage(ids, page, None) == QueuePage(ids, page, Some(Finite(20)))
    ensures QueuePage(ids, None, None) == Take(ids, 20)
    ensures page == Some(NotFinite) || limit == Some(NotFinite) ==> QueuePage(ids, page, limit) == []
  {
    QueuePageSlice(ids, 1, 20);
  }

  /** Pages 1 to k, one after the other. */
  function Pages<T>(ids: seq<T>, l: int, k: nat): seq<T> {
    if k == 0 then [] else Pages(ids, l, k - 1) + QueuePage(ids, Some(Finite(k)), Some(Finite(l)))
  }

  /** Paging neither skips nor repeats an id: the first k pages are the first k·l ids. */
  lemma {:induction false} PagesCover<T>(ids: seq<T>, l: int, k: nat)
    requires l >= 1
    ensures Pages(ids, l, k) == ids[..Min(k * l, |ids|)]
  {
    if k > 0 {
      PagesCover(ids, l, k - 1);
      QueuePageSlice(ids, k, l);
      var a := Min((k - 1) * l, |ids|);
      var b := Min(k * l, |ids|);
      PageBounds(k, l);
      assert ids[..a] + ids[a..b] == ids[..b];
    }
  }

  /** The summary of an item's author shown in the queues: `{ name, userType }`, or null. */
  datatype AuthorSummary = AuthorSummary(name: string, userType: string)

  function AuthorSummaryOf(users: map<string, Profile>, email: string): (u: Option<AuthorSummary>)
    ensures u.Some? <==> email in users
  {
    if email in users then Some(AuthorSummary(users[email].name, users[email].userType)) else None
  }

  /** `grouped[id]?.count || 0` */
  function QueuedCount(grouped: map<string, Group>, id: string): nat {
    if id in grouped then grouped[id].count else 0
  }

  /** `pageIds.filter(ObjectId.isValid).map((id) => new ObjectId(id))`, as canonical strings. */
  function PageObjectIds(pageIds: seq<string>): seq<string> {
    MapSeq(Filter(pageIds, ValidId()), Canonical)
  }

  lemma PageObjectIdsMember(pageIds: seq<string>, id: string)
    ensures id in PageObjectIds(pageIds) <==> exists k :: 0 <= k < |pageIds| && IsValid(pageIds[k]) && Parse(pageIds[k]) == Some(id)
  {
    var valid := Filter(pageIds, ValidId());
    FilterFacts(pageIds, ValidId());
    if id in PageObjectIds(pageIds) {
      var j :| 0 <= j < |valid| && Canonical(valid[j]) == id;
      assert valid[j] in pageIds;
    }
    if exists k :: 0 <= k < |pageIds| && IsValid(pageIds[k]) && Parse(pageIds[k]) == Some(id) {
      var k :| 0 <= k < |pageIds| && IsValid(pageIds[k]) && Parse(pageIds[k]) == Some(id);
      assert ValidId()(pageIds[k]);
      assert pageIds[k] in valid;
      MapKeeps(valid, Canonical, pageIds[k]);
    }
  }

  /** A reported-post queue entry: the stored post with `reportCount` replaced, and its author. */
  datatype QueuedPost = QueuedPost(post: Post, user: Option<AuthorSummary>)

  function HydratePost(grouped: map<string, Group>, users: map<string, Profile>): Post -> QueuedPost {
    (p: Post) => QueuedPost(p.(reportCount := QueuedCount(grouped, p.id)), AuthorSummaryOf(users, p.email))
  }

  /**
   * The hydration of index.js:1823-1850: the documents of each partition
   * whose id is one of the page's valid ids, in partition and storage order,
   * each with its report count from `grouped` and its author.
   */
  function ReportedPosts(posts: seq<Post>, announcements: seq<Post>, notices: seq<Post>,
                         grouped: map<string, Group>, users: map<string, Profile>, pageIds: seq<string>): seq<QueuedPost> {
    MapSeq(FetchOriginals(posts, announcements, notices, PageObjectIds(pageIds)), HydratePost(grouped, users))
  }

  predicate PostOnPage(pageIds: seq<string>, p: Post) {
    exists k :: 0 <= k < |pageIds| && IsValid(pageIds[k]) && Parse(pageIds[k]) == Some(p.id)
  }

  /**
   * Every entry is a stored document named by the page, counted from the
   * grouped reports; and every stored document the page names is an entry.
   */
  lemma ReportedPostsFacts(posts: seq<Post>, announcements: seq<Post>, notices: seq<Post>,
                           grouped: map<string, Group>, users: map<string, Profile>, pageIds: seq<string>)
    ensures var items := ReportedPosts(posts, announcements, notices, grouped, users, pageIds);
            && (forall i :: 0 <= i < |items| ==>
                  && items[i].post.(reportCount := 0) in MapSeq(posts + announcements + notices, ZeroCount())
                  && PostOnPage(pageIds, items[i].post)
                  && items[i].post.reportCount == QueuedCount(grouped, items[i].post.id)
                  && items[i].user == AuthorSummaryOf(users, items[i].post.email))
            && (forall p :: p in posts + announcements + notices && PostOnPage(pageIds, p) ==>
                  HydratePost(grouped, users)(p) in items)
  {
    var ids := PageObjectIds(pageIds);
    var fetched := FetchOriginals(posts, announcements, notices, ids);
    var items := ReportedPosts(posts, announcements, notices, grouped, users, pageIds);
    var all := posts + announcements + notices;
    forall i | 0 <= i < |items|
      ensures items[i].post.(reportCount := 0) in MapSeq(all, ZeroCount())
      ensures PostOnPage(pageIds, items[i].post)
    {
      var p := fetched[i];
      assert items[i] == HydratePost(grouped, users)(p);
      OriginalsFrom(posts, announcements, notices, ids, p);
      FetchedId(posts, announcements, notices, ids, p);
      PageObjectIdsMember(pageIds, p.id);
      MapKeeps(all, ZeroCount(), p);
      assert ZeroCount()(p) == items[i].post.(reportCount := 0);
    }
    forall p | p in all && PostOnPage(pageIds, p)
      ensures HydratePost(grouped, users)(p) in items
    {
      PageObjectIdsMember(pageIds, p.id);
      OriginalFetched(posts, announcements, notices, ids, p);
      MapKeeps(fetched, HydratePost(grouped, users), p);
    }
  }

  function ZeroCount(): Post -> Post {
    (p: Post) => p.(reportCount := 0)
  }

  lemma FetchedId(posts: seq<Post>, announcements: seq<Post>, notices: seq<Post>, ids: seq<string>, o: Post)
    requires o in FetchOriginals(posts, announcements, notices, ids)
    ensures o.id in ids
  {
    if o in Filter(posts, IdIn(ids)) {
      FilterMember(posts, IdIn(ids), o);
    } else if o in Filter(announcements, IdIn(ids)) {
      FilterMember(announcements, IdIn(ids), o);
    } else {
      FilterMember(notices, IdIn(ids), o);
    }
  }

  /**
   * GET /admin/reported-posts: the grouped reports, the selected and sorted
   * target ids, their number, and the hydrated page.
   */
  method ReportedPostsQueue(reports: seq<Report>, posts: seq<Post>, announcements: seq<Post>, notices: seq<Post>,
                            users: map<string, Profile>, only: QueryValue, page: Option<JsNumber>, limit: Option<JsNumber>)
    returns (items: seq<QueuedPost>, total: nat)
    ensures var ids := QueueIds(Dedupe(Targets(reports)), Summaries(reports), only);
            && total == |ids|
            && items == ReportedPosts(posts, announcements, notices, Summaries(reports), users, QueuePage(ids, page, limit))
  {
    var grouped, order := GroupReports(reports);
    var ids := QueueIds(order, grouped, only);
    total := |ids|;
    var pageIds := QueuePage(ids, page, limit);
    items := ReportedPosts(posts, announcements, notices, grouped, users, pageIds);
  }

  /** A reported-comment queue entry: the comment, its report count, its post (or null) and its author. */
  datatype QueuedComment = QueuedComment(comment: Comment, reportCount: nat, post: Option<Post>, user: Option<AuthorSummary>)

  function CommentIdIn(ids: seq<string>): Comment -> bool {
    (c: Comment) => c.id in ids
  }

  function CommentPostId(): Comment -> string {
    (c: Comment) => c.postId
  }

  /** The ids of the posts to fetch: distinct non-empty post ids of the page's comments that are valid, parsed. */
  function CommentPostIds(found: seq<Comment>): seq<string> {
    MapSeq(Filter(Dedupe(Filter(MapSeq(found, CommentPostId()), NonBlank)), ValidId()), Canonical)
  }

  /** `postMap[c.postId] || null`: the map is keyed by canonical id and looked up with the raw post id. */
  function HydrateComment(grouped: map<string, Group>, users: map<string, Profile>, fetched: seq<Post>): Comment -> QueuedComment {
    (c: Comment) => QueuedComment(c, QueuedCount(grouped, c.id), LastWithId(fetched, c.postId), AuthorSummaryOf(users, c.email))
  }

  /** The hydration of index.js:1898-1939. */
  function ReportedComments(comments: seq<Comment>, posts: seq<Post>, announcements: seq<Post>, notices: seq<Post>,
                            grouped: map<string, Group>, users: map<string, Profile>, pageIds: seq<string>): seq<QueuedComment> {
    var found := Filter(comments, CommentIdIn(PageObjectIds(pageIds)));
    var fetched := FetchOriginals(posts, announcements, notices, CommentPostIds(found));
    MapSeq(found, HydrateComment(grouped, users, fetched))
  }

  /**
   * Every entry is a stored comment the page names, with its count; an
   * attached post is a stored document with exactly the comment's post id;
   * and when the comment's post id is canonical and some partition holds
   * that post, a post is attached.
   */
  lemma ReportedCommentsFacts(comments: seq<Comment>, posts: seq<Post>, announcements: seq<Post>, notices: seq<Post>,
                              grouped: map<string, Group>, users: map<string, Profile>, pageIds: seq<string>, i: nat)
    requires i < |ReportedComments(comments, posts, announcements, notices, grouped, users, pageIds)|
    ensures var x := ReportedComments(comments, posts, announcements, notices, grouped, users, pageIds)[i];
            && x.comment in comments
            && (exists k :: 0 <= k < |pageIds| && IsValid(pageIds[k]) && Parse(pageIds[k]) == Some(x.comment.id))
            && x.reportCount == QueuedCount(grouped, x.comment.id)
            && x.user == AuthorSummaryOf(users, x.comment.email)
            && (x.post.Some? ==> x.post.value in posts + announcements + notices && x.post.value.id == x.comment.postId)
            && ((IsCanonical(x.comment.postId) && exists q :: q in posts + announcements + notices && q.id == x.comment.postId)
                ==> x.post.Some?)
  {
    var ids := PageObjectIds(pageIds);
    var found := Filter(comments, CommentIdIn(ids));
    var fetched := FetchOriginals(posts, announcements, notices, CommentPostIds(found));
    var c := found[i];
    var x := HydrateComment(grouped, users, fetched)(c);
    assert ReportedComments(comments, posts, announcements, notices, grouped, users, pageIds)[i] == x;
    FilterMember(comments, CommentIdIn(ids), c);
    PageObjectIdsMember(pageIds, c.id);
    if x.post.Some? {
      OriginalsFrom(posts, announcements, notices, CommentPostIds(found), x.post.value);
    }
    if IsCanonical(c.postId) && (exists q :: q in posts + announcements + notices && q.id == c.postId) {
      var q :| q in posts + announcements + notices && q.id == c.postId;
      CommentPostIdFetched(found, i);
      OriginalFetched(posts, announcements, notices, CommentPostIds(found), q);
    }
  }

  lemma CommentPostIdFetched(found: seq<Comment>, k: nat)
    requires k < |found| && IsCanonical(found[k].postId)
    ensures found[k].postId in CommentPostIds(found)
  {
    var id := found[k].postId;
    var fields := MapSeq(found, CommentPostId());
    assert fields[k] == id;
    FilterKeeps(fields, NonBlank, id);
    DedupeKeeps(Filter(fields, NonBlank), id);
    assert IsValid(id);
    FilterKeeps(Dedupe(Filter(fields, NonBlank)), ValidId(), id);
    ParseCanonical(id);
    MapKeeps(Filter(Dedupe(Filter(fields, NonBlank)), ValidId()), Canonical, id);
  }

  /** GET /admin/reported-comments: as the post queue, over comment reports and comments. */
  method ReportedCommentsQueue(commentReports: seq<Report>, comments: seq<Comment>, posts: seq<Post>, announcements: seq<Post>,
                               notices: seq<Post>, users: map<string, Profile>, only: QueryValue,
                               page: Option<JsNumber>, limit: Option<JsNumber>)
    returns (items: seq<QueuedComment>, total: nat)
    ensures var ids := QueueIds(Dedupe(Targets(commentReports)), Summaries(commentReports), only);
            && total == |ids|
            && items == ReportedComments(comments, posts, announcements, notices, Summaries(commentReports), users,
                                         QueuePage(ids, page, limit))
  {
    var grouped, order := GroupReports(commentReports);
    var ids := QueueIds(order, grouped, only);
    total := |ids|;
    items := ReportedComments(comments, posts, announcements, notices, grouped, users, QueuePage(ids, page, limit));
  }
}
