/**
 * The read-only count endpoints over the ledgers: a user's votes
 * (index.js:1242-1259), one post's vote tallies (index.js:1262-1287), and
 * the grouped vote, comment and repost counts (index.js:1289-1380).
 *
 * A `$group` stage emits one document per distinct key; the store does not
 * promise an order, and the model lists the groups in the order of each
 * key's first occurrence.
 */
module Tallies {
  import opened Types
  import opened Seqs
  import opened Votes

  /** The `{ postId: { $in: ids } }` match, which is skipped when `ids` is empty. */
  predicate IdMatches(ids: seq<string>, postId: string) {
    ids == [] || postId in ids
  }

  function UserVote(email: string, ids: seq<string>): Vote -> bool {
    (v: Vote) => v.userEmail == email && IdMatches(ids, v.postId)
  }

  /** GET /votes: the requesting user's votes, restricted to the requested post ids when there are any. */
  function UserVotes(votes: seq<Vote>, email: string, ids: seq<string>): (r: seq<Vote>)
    ensures forall i :: 0 <= i < |r| ==> r[i] in votes && r[i].userEmail == email && IdMatches(ids, r[i].postId)
    ensures forall k :: 0 <= k < |votes| && votes[k].userEmail == email && IdMatches(ids, votes[k].postId) ==> votes[k] in r
  {
    FilterFacts(votes, UserVote(email, ids));
    Filter(votes, UserVote(email, ids))
  }

  /** Under the ledger's invariant a voter's vote counts at most once. */
  lemma {:induction false} OneVotePerVoter(votes: seq<Vote>, postId: string, email: string)
    requires UniqueVotes(votes)
    ensures Count(votes, Voter(postId, email)) <= 1
  {
    if votes != [] {
      var rest := votes[1..];
      assert UniqueVotes(rest);
      OneVotePerVoter(rest, postId, email);
      assert votes == [votes[0]] + rest;
      FilterConcat([votes[0]], rest, Voter(postId, email));
      if Key(votes[0]) == (postId, email) {
        forall k | 0 <= k < |rest|
          ensures !Voter(postId, email)(rest[k])
        {
          assert Key(votes[k + 1]) != Key(votes[0]);
        }
        NoneKept(rest, Voter(postId, email));
      }
    }
  }

  function Voter(postId: string, email: string): Vote -> bool {
    (v: Vote) => Key(v) == (postId, email)
  }

  lemma {:induction false} NoneKept<T>(s: seq<T>, keep: T -> bool)
    requires forall k :: 0 <= k < |s| ==> !keep(s[k])
    ensures Count(s, keep) == 0
  {
    if s != [] {
      NoneKept(s[1..], keep);
    }
  }

  datatype PostTally = PostTally(upvotes: nat, downvotes: nat)

  /**
   * GET /votes/:postId: the number of "upvote" and of "downvote" documents
   * filed under the post id as sent; votes of any other type are counted in
   * neither.
   */
  function PostVoteCounts(votes: seq<Vote>, postId: string): (r: PostTally)
    ensures r.upvotes == Tally(votes, postId, "upvote") && r.downvotes == Tally(votes, postId, "downvote")
    ensures r.upvotes + r.downvotes <= Count(votes, VotesOn(postId))
  {
    TallySplit(votes, postId);
    PostTally(Tally(votes, postId, "upvote"), Tally(votes, postId, "downvote"))
  }

  function VotesOn(postId: string): Vote -> bool {
    (v: Vote) => v.postId == postId
  }

  /** Upvotes and downvotes are disjoint, so together they never exceed the post's votes. */
  lemma {:induction false} TallySplit(votes: seq<Vote>, postId: string)
    ensures Tally(votes, postId, "upvote") + Tally(votes, postId, "downvote") <= Count(votes, VotesOn(postId))
  {
    if votes != [] {
      TallySplit(votes[1..], postId);
      assert votes == [votes[0]] + votes[1..];
      FilterConcat([votes[0]], votes[1..], VotesOf(postId, "upvote"));
      FilterConcat([votes[0]], votes[1..], VotesOf(postId, "downvote"));
      FilterConcat([votes[0]], votes[1..], VotesOn(postId));
    }
  }

  datatype VoteGroup = VoteGroup(postId: string, upvotes: nat, downvotes: nat)

  function VotePost(v: Vote): string {
    v.postId
  }

  function PostIn(ids: seq<string>): Vote -> bool {
    (v: Vote) => IdMatches(ids, v.postId)
  }

  function GroupOf(votes: seq<Vote>): string -> VoteGroup {
    p => VoteGroup(p, Tally(votes, p, "upvote"), Tally(votes, p, "downvote"))
  }

  /**
   * GET /voteCounts: one group per post id that has votes (among the
   * requested ids when there are any), with that post's upvotes and
   * downvotes.
   */
  function VoteCounts(votes: seq<Vote>, ids: seq<string>): seq<VoteGroup> {
    var matched := Filter(votes, PostIn(ids));
    MapSeq(Dedupe(MapSeq(matched, VotePost)), GroupOf(matched))
  }

  /**
   * The groups are exactly the voted posts, once each, and each group's
   * tallies are that post's tallies over the whole ledger: the id filter
   * removes other posts' votes only.
   */
  lemma VoteCountsFacts(votes: seq<Vote>, ids: seq<string>)
    ensures var r := VoteCounts(votes, ids);
            && (forall i, j :: 0 <= i < j < |r| ==> r[i].postId != r[j].postId)
            && (forall i :: 0 <= i < |r| ==>
                  && IdMatches(ids, r[i].postId)
                  && r[i].upvotes == Tally(votes, r[i].postId, "upvote")
                  && r[i].downvotes == Tally(votes, r[i].postId, "downvote"))
            && (forall k :: 0 <= k < |votes| && IdMatches(ids, votes[k].postId) ==>
                  exists i :: 0 <= i < |r| && r[i].postId == votes[k].postId)
  {
    var matched := Filter(votes, PostIn(ids));
    var keys := Dedupe(MapSeq(matched, VotePost));
    var r := VoteCounts(votes, ids);
    forall i | 0 <= i < |r|
      ensures IdMatches(ids, r[i].postId)
      ensures r[i].upvotes == Tally(votes, r[i].postId, "upvote")
      ensures r[i].downvotes == Tally(votes, r[i].postId, "downvote")
    {
      VoteGroupExact(votes, ids, keys[i]);
    }
    forall k | 0 <= k < |votes| && IdMatches(ids, votes[k].postId)
      ensures exists i :: 0 <= i < |r| && r[i].postId == votes[k].postId
    {
      VoteCountsCover(votes, ids, k);
    }
  }

  /** The grouped counts of GET /voteCounts agree with GET /votes/:postId for every post they list. */
  lemma VoteCountsAgree(votes: seq<Vote>, ids: seq<string>, i: nat)
    requires i < |VoteCounts(votes, ids)|
    ensures var g := VoteCounts(votes, ids)[i];
            PostTally(g.upvotes, g.downvotes) == PostVoteCounts(votes, g.postId)
  {
    VoteCountsFacts(votes, ids);
  }

  /** A vote that passes the id filter has its post's entry among the counts. */
  lemma VoteCountsCover(votes: seq<Vote>, ids: seq<string>, k: nat)
    requires k < |votes| && IdMatches(ids, votes[k].postId)
    ensures exists i :: 0 <= i < |VoteCounts(votes, ids)| && VoteCounts(votes, ids)[i].postId == votes[k].postId
  {
    var matched := Filter(votes, PostIn(ids));
    var keys := Dedupe(MapSeq(matched, VotePost));
    var r := VoteCounts(votes, ids);
    FilterKeeps(votes, PostIn(ids), votes[k]);
    MapKeeps(matched, VotePost, votes[k]);
    DedupeKeeps(MapSeq(matched, VotePost), votes[k].postId);
    var i :| 0 <= i < |keys| && keys[i] == votes[k].postId;
    assert r[i].postId == keys[i];
  }

  /** A grouped post id passed the id filter, and its group counts over the whole ledger. */
  lemma VoteGroupExact(votes: seq<Vote>, ids: seq<string>, p: string)
    requires p in Dedupe(MapSeq(Filter(votes, PostIn(ids)), VotePost))
    ensures IdMatches(ids, p)
    ensures Tally(Filter(votes, PostIn(ids)), p, "upvote") == Tally(votes, p, "upvote")
    ensures Tally(Filter(votes, PostIn(ids)), p, "downvote") == Tally(votes, p, "downvote")
  {
    var matched := Filter(votes, PostIn(ids));
    var m := MapSeq(matched, VotePost);
    var k :| 0 <= k < |m| && m[k] == p;
    FilterMember(votes, PostIn(ids), matched[k]);
    FilterOfFilter(votes, PostIn(ids), VotesOf(p, "upvote"));
    FilterOfFilter(votes, PostIn(ids), VotesOf(p, "downvote"));
  }

  /** Pre-filtering by a condition every counted item meets anyway does not change a count. */
  lemma {:induction false} FilterOfFilter<T>(s: seq<T>, outer: T -> bool, inner: T -> bool)
    requires forall x :: inner(x) ==> outer(x)
    ensures Count(Filter(s, outer), inner) == Count(s, inner)
  {
    if s != [] {
      var rest := Filter(s[1..], outer);
      FilterOfFilter(s[1..], outer, inner);
      assert Filter(s, inner) == (if inner(s[0]) then [s[0]] else []) + Filter(s[1..], inner);
      if outer(s[0]) {
        assert Filter(s, outer) == [s[0]] + rest;
        assert ([s[0]] + rest)[1..] == rest;
      } else {
        assert !inner(s[0]);
        assert Filter(s, outer) == rest;
      }
    }
  }

  /** A `{ _id: key, count }` group. */
  datatype KeyCount = KeyCount(key: string, count: nat)

  function Occurrences(keys: seq<string>): string -> KeyCount {
    k => KeyCount(k, Count(keys, Same(k)))
  }

  function Same(k: string): string -> bool {
    x => x == k
  }

  /** `$group: { _id: key, count: { $sum: 1 } }` over a sequence of keys. */
  function GroupCounts(keys: seq<string>): seq<KeyCount> {
    MapSeq(Dedupe(keys), Occurrences(keys))
  }

  /** Each key gets one group, holding the number of its occurrences, and no other group exists. */
  lemma GroupCountsFacts(keys: seq<string>)
    ensures var r := GroupCounts(keys);
            && (forall i, j :: 0 <= i < j < |r| ==> r[i].key != r[j].key)
            && (forall i :: 0 <= i < |r| ==> r[i].key in keys && r[i].count == Count(keys, Same(r[i].key)) && r[i].count > 0)
            && (forall k :: 0 <= k < |keys| ==> exists i :: 0 <= i < |r| && r[i].key == keys[k])
  {
    var d := Dedupe(keys);
    var r := GroupCounts(keys);
    forall i | 0 <= i < |r|
      ensures r[i].key in keys && r[i].count == Count(keys, Same(r[i].key)) && r[i].count > 0
    {
      assert r[i] == Occurrences(keys)(d[i]);
      FilterKeeps(keys, Same(d[i]), d[i]);
    }
    forall k | 0 <= k < |keys|
      ensures exists i :: 0 <= i < |r| && r[i].key == keys[k]
    {
      var i :| 0 <= i < |d| && d[i] == keys[k];
      assert r[i].key == d[i];
    }
  }

  function CommentPost(c: Comment): string {
    c.postId
  }

  function CommentIn(ids: seq<string>): Comment -> bool {
    (c: Comment) => IdMatches(ids, c.postId)
  }

  /** GET /commentCounts: the number of comments per post id, among the requested ids when there are any. */
  function CommentCounts(comments: seq<Comment>, ids: seq<string>): seq<KeyCount> {
    GroupCounts(MapSeq(Filter(comments, CommentIn(ids)), CommentPost))
  }

  function CommentOn(postId: string): Comment -> bool {
    (c: Comment) => c.postId == postId
  }

  /**
   * Each group is a post id (among the requested ones when there are any)
   * with the number of comments filed under it in the whole collection;
   * every commented post id passing the filter has exactly one group.
   */
  lemma CommentCountsFacts(comments: seq<Comment>, ids: seq<string>)
    ensures var r := CommentCounts(comments, ids);
            && (forall i, j :: 0 <= i < j < |r| ==> r[i].key != r[j].key)
            && (forall i :: 0 <= i < |r| ==>
                  IdMatches(ids, r[i].key) && r[i].count == Count(comments, CommentOn(r[i].key)) && r[i].count > 0)
            && (forall k :: 0 <= k < |comments| && IdMatches(ids, comments[k].postId) ==>
                  exists i :: 0 <= i < |r| && r[i].key == comments[k].postId)
  {
    var matched := Filter(comments, CommentIn(ids));
    var keys := MapSeq(matched, CommentPost);
    GroupCountsFacts(keys);
    var r := CommentCounts(comments, ids);
    forall i | 0 <= i < |r|
      ensures IdMatches(ids, r[i].key) && r[i].count == Count(comments, CommentOn(r[i].key))
    {
      var k :| 0 <= k < |keys| && keys[k] == r[i].key;
      FilterMember(comments, CommentIn(ids), matched[k]);
      CountKeys(matched, r[i].key, CommentPost, CommentOn(r[i].key));
      FilterOfFilter(comments, CommentIn(ids), CommentOn(r[i].key));
    }
    forall k | 0 <= k < |comments| && IdMatches(ids, comments[k].postId)
      ensures exists i :: 0 <= i < |r| && r[i].key == comments[k].postId
    {
      FilterKeeps(comments, CommentIn(ids), comments[k]);
      MapKeeps(matched, CommentPost, comments[k]);
    }
  }

  /** Counting a key among the keys an `on`-test reads off the records counts the records that pass it. */
  lemma {:induction false} CountKeys<T>(s: seq<T>, key: string, f: T -> string, on: T -> bool)
    requires forall x :: on(x) <==> f(x) == key
    ensures Count(MapSeq(s, f), Same(key)) == Count(s, on)
  {
    if s != [] {
      CountKeys(s[1..], key, f, on);
      assert s == [s[0]] + s[1..];
      MapCons(s[0], s[1..], f);
      FilterConcat([f(s[0])], MapSeq(s[1..], f), Same(key));
      FilterConcat([s[0]], s[1..], on);
    }
  }

  function RepostOfPost(p: Post): string {
    p.repostOf
  }

  /** `{ repostOf: { $exists: true, $ne: null } }`, narrowed to the requested ids when there are any. */
  function IsRepostOf(ids: seq<string>): Post -> bool {
    (p: Post) => p.repostOf != "" && IdMatches(ids, p.repostOf)
  }

  /** GET /repostCounts: the number of reposts per root id in the posts partition. */
  function RepostCounts(posts: seq<Post>, ids: seq<string>): seq<KeyCount> {
    GroupCounts(MapSeq(Filter(posts, IsRepostOf(ids)), RepostOfPost))
  }

  function RepostOn(root: string): Post -> bool {
    (p: Post) => p.repostOf == root
  }

  /** A root passing the filter is counted alike among the filtered reposts' roots and over the whole partition. */
  lemma RepostCountExact(posts: seq<Post>, ids: seq<string>, root: string)
    requires root != "" && IdMatches(ids, root)
    ensures Count(MapSeq(Filter(posts, IsRepostOf(ids)), RepostOfPost), Same(root)) == Count(posts, RepostOn(root))
  {
    CountKeys(Filter(posts, IsRepostOf(ids)), root, RepostOfPost, RepostOn(root));
    FilterOfFilter(posts, IsRepostOf(ids), RepostOn(root));
  }

  /** Each group's root passed the filter, is reposted by some post, and counts every repost of it in the partition. */
  lemma RepostGroupsExact(posts: seq<Post>, ids: seq<string>)
    ensures var r := RepostCounts(posts, ids);
            forall i :: 0 <= i < |r| ==>
              && r[i].key != "" && IdMatches(ids, r[i].key) && r[i].count == Count(posts, RepostOn(r[i].key))
              && exists k :: 0 <= k < |posts| && posts[k].repostOf == r[i].key
  {
    var reposts := Filter(posts, IsRepostOf(ids));
    var keys := MapSeq(reposts, RepostOfPost);
    var r := RepostCounts(posts, ids);
    forall i | 0 <= i < |r|
      ensures r[i].key != "" && IdMatches(ids, r[i].key) && r[i].count == Count(posts, RepostOn(r[i].key))
      ensures exists k :: 0 <= k < |posts| && posts[k].repostOf == r[i].key
    {
      var d := Dedupe(keys);
      assert r[i] == Occurrences(keys)(d[i]);
      var k :| 0 <= k < |keys| && keys[k] == d[i];
      FilterMember(posts, IsRepostOf(ids), reposts[k]);
      RepostCountExact(posts, ids, d[i]);
    }
  }

  /** Every repost passing the filter has a group under its root. */
  lemma RepostsCovered(posts: seq<Post>, ids: seq<string>)
    ensures var r := RepostCounts(posts, ids);
            forall k :: 0 <= k < |posts| && posts[k].repostOf != "" && IdMatches(ids, posts[k].repostOf) ==>
              exists i :: 0 <= i < |r| && r[i].key == posts[k].repostOf
  {
    var reposts := Filter(posts, IsRepostOf(ids));
    GroupCountsFacts(MapSeq(reposts, RepostOfPost));
    var r := RepostCounts(posts, ids);
    forall k | 0 <= k < |posts| && posts[k].repostOf != "" && IdMatches(ids, posts[k].repostOf)
      ensures exists i :: 0 <= i < |r| && r[i].key == posts[k].repostOf
    {
      FilterKeeps(posts, IsRepostOf(ids), posts[k]);
      MapKeeps(reposts, RepostOfPost, posts[k]);
    }
  }

  /**
   * Each group is a root id (among the requested ones when there are any)
   * that some post reposts, with the number of posts in the partition
   * reposting it; the roots are distinct, and every repost passing the
   * filter is counted under its root.
   */
  lemma RepostCountsFacts(posts: seq<Post>, ids: seq<string>)
    ensures var r := RepostCounts(posts, ids);
            && (forall i, j :: 0 <= i < j < |r| ==> r[i].key != r[j].key)
            && (forall i :: 0 <= i < |r| ==>
                  r[i].key != "" && IdMatches(ids, r[i].key) && r[i].count == Count(posts, RepostOn(r[i].key)) && r[i].count > 0)
            && (forall i :: 0 <= i < |r| ==> exists k :: 0 <= k < |posts| && posts[k].repostOf == r[i].key)
            && (forall k :: 0 <= k < |posts| && posts[k].repostOf != "" && IdMatches(ids, posts[k].repostOf) ==>
                  exists i :: 0 <= i < |r| && r[i].key == posts[k].repostOf)
  {
    GroupCountsFacts(MapSeq(Filter(posts, IsRepostOf(ids)), RepostOfPost));
    RepostGroupsExact(posts, ids);
    RepostsCovered(posts, ids);
  }
}
