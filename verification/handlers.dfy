/**
 * The state-changing route handlers of index.js over the content store,
 * each as a function from the store before the request to the store after
 * it, the HTTP reply and the realtime emits.
 *
 * The store holds the three post partitions, votes, comments, post reports,
 * comment reports and the user profiles (keyed by email). The identity of
 * the requester (`req.user.email`) has already been established by the
 * authentication middleware; a fresh ObjectId and the current time are
 * inputs. Storage calls never fail here; the only failures modelled are the
 * `new ObjectId(id)` constructor throwing on a malformed id, which some
 * handlers reach after a write.
 */
module Handlers {
  import opened Types
  import opened Seqs
  import opened Text
  import opened ObjectIds
  import opened Params
  import opened Ordering
  import opened Partitions
  import opened Votes
  import opened Realtime

  datatype State = State(
    posts: seq<Post>,
    announcements: seq<Post>,
    notices: seq<Post>,
    votes: seq<Vote>,
    comments: seq<Comment>,
    reports: seq<Report>,
    commentReports: seq<Report>,
    users: map<string, Profile>
  )

  /** The partitions in the order the handlers search them. */
  function Parts(s: State): seq<seq<Post>> {
    [s.posts, s.announcements, s.notices]
  }

  function WithPartition(s: State, k: nat, part: seq<Post>): (r: State)
    requires k < 3
    ensures Parts(r) == Parts(s)[k := part]
  {
    if k == 0 then s.(posts := part) else if k == 1 then s.(announcements := part) else s.(notices := part)
  }

  /** A handler's effect: the store afterwards, the reply, and the emits in the order they happen. */
  datatype Outcome = Outcome(state: State, reply: Reply, events: seq<Broadcast>)

  function Unchanged(s: State, status: int, message: string): Outcome {
    Outcome(s, Reply(status, message), [])
  }

  /** `io.to(`user:${email}`).emit(...)`, guarded by `if (email)`. */
  function UserEmit(event: string, email: string, payload: Payload): seq<Broadcast> {
    if email != "" then [Broadcast(event, {UserRoom(email)}, payload)] else []
  }

  /** `userDoc?.userType === "admin"` for the requester's profile. */
  predicate IsAdmin(users: map<string, Profile>, email: string) {
    email in users && users[email].userType == "admin"
  }

  /** The ownership rule of the edit and delete handlers: the author, or an admin. */
  predicate MayModify(users: map<string, Profile>, author: string, email: string) {
    author == email || IsAdmin(users, email)
  }

  function RemoveAt<T>(s: seq<T>, i: nat): (r: seq<T>)
    requires i < |s|
    ensures |r| == |s| - 1
    ensures forall j :: 0 <= j < i ==> r[j] == s[j]
    ensures forall j :: i <= j < |r| ==> r[j] == s[j + 1]
  {
    s[..i] + s[i + 1..]
  }

  // ---------------------------------------------------------------------
  // Post creation (index.js:608-795)
  // ---------------------------------------------------------------------

  /** The post a repost request names: the first document of the posts partition with that id. */
  function RepostTarget(posts: seq<Post>, repostOf: string): Option<nat> {
    if IsValid(repostOf) then IndexOfId(posts, Parse(repostOf).value) else None
  }

  /**
   * The `repostOf` stored for a repost request (index.js:624-636): when the
   * named post is found in the posts partition, its own `repostOf` if it
   * has one, else its id; otherwise (not found, or a malformed id whose
   * exception is caught) the value sent.
   */
  function RepostRoot(posts: seq<Post>, repostOf: string): (root: string)
    ensures RepostTarget(posts, repostOf).None? ==> root == repostOf
    ensures RepostTarget(posts, repostOf).Some? ==>
              var target := posts[RepostTarget(posts, repostOf).value];
              && (target.repostOf != "" ==> root == target.repostOf)
              && (target.repostOf == "" ==> root == Parse(repostOf).value)
  {
    match RepostTarget(posts, repostOf)
    case None => repostOf
    case Some(i) => if posts[i].repostOf != "" then posts[i].repostOf else posts[i].id
  }

  /** POST /user/post (index.js:608-689). */
  function CreatePost(s: State, email: string, content: string, photo: string, postType: string, repostOf: string,
                      newId: string, now: nat): Outcome {
    if content == "" && photo == "" && repostOf == "" then
      Unchanged(s, 400, "Either content or photo is required")
    else
      var root := if repostOf != "" then RepostRoot(s.posts, repostOf) else "";
      var kind := if postType != "" then postType else "general";
      var post := Post(newId, email, content, photo, kind, root, Some(now), None, 0);
      var created := PostEvent(newId, kind, email);
      Outcome(
        s.(posts := s.posts + [post]),
        Reply(201, "Post Created Successfully"),
        EmitFeedEvent("post:created", created, kind)
          + (if root != "" then EmitFeedEvent("repost:created", RepostEvent(root, newId), kind) else [])
          + UserEmit("post:created", email, created))
  }

  /** The announcement and notice routes: a typed post in the partition of that type, never a repost. */
  function Publish(s: State, k: nat, message: string, email: string, content: string, photo: string, newId: string, now: nat): Outcome
    requires k == 1 || k == 2
  {
    if content == "" && photo == "" then
      Unchanged(s, 400, "Either content or photo is required")
    else
      var kind := Fallback(k);
      var post := Post(newId, email, content, photo, kind, "", Some(now), None, 0);
      var created := PostEvent(newId, kind, email);
      Outcome(
        WithPartition(s, k, Parts(s)[k] + [post]),
        Reply(201, message),
        EmitFeedEvent("post:created", created, kind) + UserEmit("post:created", email, created))
  }

  /** POST /teacher/announcement (index.js:693-741). */
  function CreateAnnouncement(s: State, email: string, content: string, photo: string, newId: string, now: nat): Outcome {
    Publish(s, 1, "announcement Created Successfully", email, content, photo, newId, now)
  }

  /** POST /admin/notice (index.js:745-793). */
  function CreateNotice(s: State, email: string, content: string, photo: string, newId: string, now: nat): Outcome {
    Publish(s, 2, "notice Created Successfully", email, content, photo, newId, now)
  }

  /** What every creation route does: reject an empty request untouched, or append one post of the route's type. */
  lemma CreateFacts(s: State, email: string, content: string, photo: string, postType: string, repostOf: string, newId: string, now: nat)
    ensures var o := CreatePost(s, email, content, photo, postType, repostOf, newId, now);
            && (o.reply.status == 400 <==> content == "" && photo == "" && repostOf == "")
            && (o.reply.status == 400 ==> o.state == s && o.events == [])
            && (o.reply.status != 400 ==>
                  && o.reply == Reply(201, "Post Created Successfully")
                  && o.state == s.(posts := s.posts + [o.state.posts[|s.posts|]])
                  && o.state.posts[|s.posts|].id == newId
                  && o.state.posts[|s.posts|].postType != ""
                  && (o.state.posts[|s.posts|].repostOf != "" <==> repostOf != ""))
    ensures var o := CreateAnnouncement(s, email, content, photo, newId, now);
            && (o.reply.status == 400 <==> content == "" && photo == "")
            && (o.reply.status != 400 ==>
                  o.state == s.(announcements := s.announcements + [Post(newId, email, content, photo, "teacher", "", Some(now), None, 0)]))
    ensures var o := CreateNotice(s, email, content, photo, newId, now);
            && (o.reply.status == 400 <==> content == "" && photo == "")
            && (o.reply.status != 400 ==>
                  o.state == s.(notices := s.notices + [Post(newId, email, content, photo, "admin", "", Some(now), None, 0)]))
  {
    var o := CreatePost(s, email, content, photo, postType, repostOf, newId, now);
    if repostOf != "" {
      RootNonEmpty(s.posts, repostOf);
    }
  }

  lemma RootNonEmpty(posts: seq<Post>, repostOf: string)
    requires repostOf != ""
    ensures RepostRoot(posts, repostOf) != ""
  {
    if RepostTarget(posts, repostOf).Some? {
      assert |Parse(repostOf).value| == 24;
    }
  }

  /** Where the stored `repostOf` of a post leads: the post of the posts partition it resolves to, if any. */
  predicate Flat(posts: seq<Post>) {
    forall i :: 0 <= i < |posts| && posts[i].repostOf != "" ==>
      match RepostTarget(posts, posts[i].repostOf)
      case None => true
      case Some(j) => posts[j].repostOf == ""
  }

  predicate CanonicalIds(posts: seq<Post>) {
    forall i :: 0 <= i < |posts| ==> IsCanonical(posts[i].id)
  }

  /** No stored post has the id, and no stored or requested reference resolves to it. */
  predicate FreshId(posts: seq<Post>, repostOf: string, newId: string) {
    && (forall i :: 0 <= i < |posts| ==> posts[i].id != newId && RepostTarget([Post(newId, "", "", "", "", "", None, None, 0)], posts[i].repostOf).None?)
    && RepostTarget([Post(newId, "", "", "", "", "", None, None, 0)], repostOf).None?
  }

  lemma {:induction false} IndexOfIdAppend(s: seq<Post>, p: Post, id: string)
    ensures IndexOfId(s + [p], id) ==
              if IndexOfId(s, id).Some? then IndexOfId(s, id) else if p.id == id then Some(|s|) else None
  {
    if s != [] {
      assert (s + [p])[1..] == s[1..] + [p];
      IndexOfIdAppend(s[1..], p, id);
    }
  }

  /** A reference that does not resolve to the new id resolves in the grown partition as it did before. */
  lemma TargetAppend(posts: seq<Post>, p: Post, ref: string)
    requires RepostTarget([Post(p.id, "", "", "", "", "", None, None, 0)], ref).None?
    ensures RepostTarget(posts + [p], ref) == RepostTarget(posts, ref)
  {
    if IsValid(ref) {
      IndexOfIdAppend(posts, p, Parse(ref).value);
    }
  }

  /**
   * Repost chains never grow past one step: when every stored repost
   * points at an original (or at nothing the posts partition holds), the
   * same holds after any POST /user/post, because a repost of a repost
   * stores the root.
   */
  lemma CreateKeepsFlat(s: State, email: string, content: string, photo: string, postType: string, repostOf: string,
                        newId: string, now: nat)
    requires Flat(s.posts) && CanonicalIds(s.posts) && FreshId(s.posts, repostOf, newId)
    ensures Flat(CreatePost(s, email, content, photo, postType, repostOf, newId, now).state.posts)
  {
    var o := CreatePost(s, email, content, photo, postType, repostOf, newId, now);
    if o.state != s {
      var posts := o.state.posts;
      var np := posts[|s.posts|];
      assert posts == s.posts + [np];
      forall i | 0 <= i < |posts| && posts[i].repostOf != ""
        ensures match RepostTarget(posts, posts[i].repostOf)
                case None => true
                case Some(j) => posts[j].repostOf == ""
      {
        if i < |s.posts| {
          TargetAppend(s.posts, np, posts[i].repostOf);
        } else {
          NewRepostFlat(s.posts, np, repostOf);
        }
      }
    }
  }

  lemma NewRepostFlat(posts: seq<Post>, np: Post, repostOf: string)
    requires Flat(posts) && CanonicalIds(posts) && FreshId(posts, repostOf, np.id)
    requires repostOf != "" && np.repostOf == RepostRoot(posts, repostOf)
    ensures match RepostTarget(posts + [np], np.repostOf)
            case None => true
            case Some(j) => (posts + [np])[j].repostOf == ""
  {
    match RepostTarget(posts, repostOf)
    case None =>
      TargetAppend(posts, np, repostOf);
    case Some(j) =>
      if posts[j].repostOf != "" {
        TargetAppend(posts, np, posts[j].repostOf);
      } else {
        var id := posts[j].id;
        ParseCanonical(id);
        IndexOfIdAppend(posts, np, id);
      }
  }

  // ---------------------------------------------------------------------
  // Reading, editing and deleting one post (index.js:834-1048)
  // ---------------------------------------------------------------------

  /** GET /posts/:postId (index.js:834-870): the first document with the id, in partition order. */
  function GetPost(s: State, postId: string): (r: (Reply, Option<Post>))
    ensures r.1.Some? <==> r.0 == Reply(200, "OK")
  {
    if !IsValid(postId) then (Reply(400, "Invalid post ID"), None)
    else
      match Locate(Parts(s), Parse(postId).value)
      case None => (Reply(404, "Post not found"), None)
      case Some(loc) => (Reply(200, "OK"), Some(Parts(s)[loc.part][loc.index]))
  }

  /** Any spelling of an id finds the document whose canonical id it denotes, and the same one. */
  lemma GetPostFacts(s: State, postId: string)
    ensures GetPost(s, postId).1.Some? ==> GetPost(s, postId).1.value.id == Parse(postId).value
    ensures GetPost(s, postId).1.Some? ==> GetPost(s, postId).1.value in s.posts + s.announcements + s.notices
    ensures IsValid(postId) ==> GetPost(s, postId) == GetPost(s, Parse(postId).value)
  {
    if IsValid(postId) {
      ParseIdempotent(postId);
      match Locate(Parts(s), Parse(postId).value)
      case None =>
      case Some(loc) =>
        var p := Parts(s)[loc.part][loc.index];
        assert p in Parts(s)[loc.part];
    }
  }

  /**
   * The update of PATCH /posts/:postId (index.js:918-924): the content
   * trimmed (cleared when absent), the edit time set, and the photo replaced
   * by an upload, else cleared on request, else kept.
   */
  function Edited(post: Post, content: string, removePhoto: bool, photoURL: string, now: nat): Post {
    post.(content := Trim(content), updatedAt := Some(now),
          photo := if photoURL != "" then photoURL else if removePhoto then "" else post.photo)
  }

  /** PATCH /posts/:postId (index.js:874-969). */
  function EditPost(s: State, postId: string, email: string, content: string, removePhoto: bool, photoURL: string, now: nat): Outcome {
    if !IsValid(postId) then Unchanged(s, 400, "Invalid post ID")
    else
      match Locate(Parts(s), Parse(postId).value)
      case None => Unchanged(s, 404, "Post not found")
      case Some(loc) =>
        var post := Parts(s)[loc.part][loc.index];
        if !MayModify(s.users, post.email, email) then Unchanged(s, 403, "Unauthorized to edit this post")
        else
          var edited := Edited(post, content, removePhoto, photoURL, now);
          var kind := NormalizePostType(edited.postType, Fallback(loc.part));
          var payload := PostEvent(edited.id, kind, post.email);
          Outcome(
            WithPartition(s, loc.part, Parts(s)[loc.part][loc.index := edited]),
            Reply(200, "Post updated successfully"),
            EmitFeedEvent("post:updated", payload, kind) + UserEmit("post:updated", post.email, payload))
  }

  /** The post a post-id request is about: the first document with its canonical id, in partition order. */
  function Found(s: State, postId: string): Option<Loc> {
    if IsValid(postId) then Locate(Parts(s), Parse(postId).value) else None
  }

  function At(s: State, loc: Loc): Post
    requires loc.part < 3 && loc.index < |Parts(s)[loc.part]|
  {
    Parts(s)[loc.part][loc.index]
  }

  /**
   * Only the author or an admin edits: any other requester gets 403 and
   * the store is untouched; a successful edit rewrites exactly the found
   * document, with the edit's fields, and nothing else.
   */
  lemma EditPostFacts(s: State, postId: string, email: string, content: string, removePhoto: bool, photoURL: string, now: nat)
    ensures var o := EditPost(s, postId, email, content, removePhoto, photoURL, now);
            && (o.reply.status == 403 <==> Found(s, postId).Some? && !MayModify(s.users, At(s, Found(s, postId).value).email, email))
            && (o.reply.status != 200 ==> o.state == s && o.events == [])
            && (o.reply.status == 200 <==> Found(s, postId).Some? && MayModify(s.users, At(s, Found(s, postId).value).email, email))
            && (o.reply.status == 200 ==>
                  var loc := Found(s, postId).value;
                  var edited := o.state.posts + o.state.announcements + o.state.notices;
                  && Parts(o.state) == Parts(s)[loc.part := Parts(s)[loc.part][loc.index := Edited(At(s, loc), content, removePhoto, photoURL, now)]]
                  && o.state.users == s.users && o.state.votes == s.votes && o.state.comments == s.comments
                  && o.state.reports == s.reports && o.state.commentReports == s.commentReports)
  {
  }

  /** `deleteMany({ postId })` on votes, comments and post reports: by the id exactly as sent. */
  function VoteNotOn(postId: string): Vote -> bool {
    (v: Vote) => v.postId != postId
  }

  function CommentNotOn(postId: string): Comment -> bool {
    (c: Comment) => c.postId != postId
  }

  function ReportNotOn(postId: string): Report -> bool {
    (r: Report) => r.postId != postId
  }

  /** DELETE /posts/:postId (index.js:972-1048). */
  function DeletePost(s: State, postId: string, email: string): Outcome {
    if !IsValid(postId) then Unchanged(s, 400, "Invalid post ID")
    else
      match Locate(Parts(s), Parse(postId).value)
      case None => Unchanged(s, 404, "Post not found")
      case Some(loc) =>
        var post := Parts(s)[loc.part][loc.index];
        if !MayModify(s.users, post.email, email) then Unchanged(s, 403, "Unauthorized to delete this post")
        else
          var cleared := s.(votes := Filter(s.votes, VoteNotOn(postId)),
                            comments := Filter(s.comments, CommentNotOn(postId)),
                            reports := Filter(s.reports, ReportNotOn(postId)));
          var kind := NormalizePostType(post.postType, Fallback(loc.part));
          var payload := PostEvent(postId, kind, post.email);
          Outcome(
            WithPartition(cleared, loc.part, RemoveAt(Parts(s)[loc.part], loc.index)),
            Reply(200, "Post, votes, and comments deleted successfully"),
            EmitFeedEvent("post:deleted", payload, kind) + UserEmit("post:deleted", post.email, payload))
  }

  /**
   * Only the author or an admin deletes; a refused request changes nothing.
   * A successful delete removes the found document and every vote, comment
   * and report filed under the post id, and keeps everything else in order.
   */
  lemma DeletePostFacts(s: State, postId: string, email: string)
    ensures var o := DeletePost(s, postId, email);
            && (o.reply.status == 403 <==> Found(s, postId).Some? && !MayModify(s.users, At(s, Found(s, postId).value).email, email))
            && (o.reply.status != 200 ==> o.state == s && o.events == [])
            && (o.reply.status == 200 <==> Found(s, postId).Some? && MayModify(s.users, At(s, Found(s, postId).value).email, email))
            && (o.reply.status == 200 ==>
                  var loc := Found(s, postId).value;
                  && Parts(o.state) == Parts(s)[loc.part := RemoveAt(Parts(s)[loc.part], loc.index)]
                  && Cascaded(s, o.state, postId)
                  && o.state.users == s.users && o.state.commentReports == s.commentReports)
  {
    var o := DeletePost(s, postId, email);
    if o.reply.status == 200 {
      CascadeFacts(s, postId);
    }
  }

  /** Nothing filed under the post id is left, and every other vote, comment and report is kept. */
  ghost predicate Cascaded(s: State, t: State, postId: string) {
    && (forall v :: v in t.votes <==> v in s.votes && v.postId != postId)
    && (forall c :: c in t.comments <==> c in s.comments && c.postId != postId)
    && (forall r :: r in t.reports <==> r in s.reports && r.postId != postId)
  }

  lemma CascadeFacts(s: State, postId: string)
    ensures Cascaded(s, s.(votes := Filter(s.votes, VoteNotOn(postId)),
                           comments := Filter(s.comments, CommentNotOn(postId)),
                           reports := Filter(s.reports, ReportNotOn(postId))), postId)
  {
    FilterFacts(s.votes, VoteNotOn(postId));
    FilterFacts(s.comments, CommentNotOn(postId));
    FilterFacts(s.reports, ReportNotOn(postId));
    forall v | v in s.votes && v.postId != postId
      ensures v in Filter(s.votes, VoteNotOn(postId))
    {
      FilterKeeps(s.votes, VoteNotOn(postId), v);
    }
    forall c | c in s.comments && c.postId != postId
      ensures c in Filter(s.comments, CommentNotOn(postId))
    {
      FilterKeeps(s.comments, CommentNotOn(postId), c);
    }
    forall r | r in s.reports && r.postId != postId
      ensures r in Filter(s.reports, ReportNotOn(postId))
    {
      FilterKeeps(s.reports, ReportNotOn(postId), r);
    }
    forall v | v in Filter(s.votes, VoteNotOn(postId))
      ensures v in s.votes && v.postId != postId
    {
      FilterMember(s.votes, VoteNotOn(postId), v);
    }
    forall c | c in Filter(s.comments, CommentNotOn(postId))
      ensures c in s.comments && c.postId != postId
    {
      FilterMember(s.comments, CommentNotOn(postId), c);
    }
    forall r | r in Filter(s.reports, ReportNotOn(postId))
      ensures r in s.reports && r.postId != postId
    {
      FilterMember(s.reports, ReportNotOn(postId), r);
    }
  }

  // ---------------------------------------------------------------------
  // Votes (index.js:1165-1238)
  // ---------------------------------------------------------------------

  /** `originSocketId`: a string with non-blank content, trimmed; anything else is null. */
  function OriginSocket(arg: SocketArg): string {
    if arg.Str? && Trim(arg.s) != "" then Trim(arg.s) else ""
  }

  /** POST /votes (index.js:1165-1238). */
  function CastVote(s: State, postId: string, email: string, voteType: string, origin: SocketArg): Outcome {
    var t := Toggle(s.votes, postId, email, voteType);
    var payload := VoteEvent(postId, email, t.previous, t.next, OriginSocket(origin));
    Outcome(
      s.(votes := t.votes),
      VoteReply(t.previous, t.next),
      [Broadcast("vote:changed", VoteRooms(ResolvePostMeta(Parts(s), postId)), payload)])
  }

  /**
   * A vote keeps the one-vote-per-voter invariant and touches nothing but
   * the votes. Sending the type already held withdraws the vote; anything
   * else sets the voter's entry to the type sent. The single emit goes to
   * `feed:all` (and the post's type and owner rooms) and carries the entry
   * held before and the one held after. The reply follows the truthiness of
   * those two entries: a first vote is "added", a withdrawal "removed", a
   * change of type "updated"; an empty type sent over an existing vote
   * stores it and reads as "removed".
   */
  lemma CastVoteFacts(s: State, postId: string, email: string, voteType: string, origin: SocketArg)
    requires UniqueVotes(s.votes)
    ensures var o := CastVote(s, postId, email, voteType, origin);
            var before := Ledger(s.votes);
            var key := (postId, email);
            && UniqueVotes(o.state.votes)
            && o.state == s.(votes := o.state.votes)
            && |o.events| == 1 && o.events[0].event == "vote:changed"
            && FeedRoom("all") in o.events[0].rooms
            && o.events[0].payload.VoteEvent?
            && o.events[0].payload.previousVote == (if key in before then before[key] else "")
            && (key in before && before[key] == voteType ==>
                  Ledger(o.state.votes) == before - {key} && o.events[0].payload.voteType == "")
            && (!(key in before && before[key] == voteType) ==>
                  Ledger(o.state.votes) == before[key := voteType] && o.events[0].payload.voteType == voteType)
            && (key !in before ==> o.reply == Reply(201, "Vote added"))
            && (key in before && before[key] == "" ==> o.reply == Reply(201, "Vote added"))
            && (key in before && before[key] != "" && (before[key] == voteType || voteType == "") ==>
                  o.reply == Reply(200, "Vote removed"))
            && (key in before && before[key] != "" && before[key] != voteType && voteType != "" ==>
                  o.reply == Reply(200, "Vote updated"))
  {
    ToggleKeepsUnique(s.votes, postId, email, voteType);
    ToggleLedger(s.votes, postId, email, voteType);
  }

  // ---------------------------------------------------------------------
  // Comments (index.js:1523-1668, index.js:2049-2144)
  // ---------------------------------------------------------------------

  /** `commentCollection.findOne({ _id })`: the first comment with that id. */
  function CommentIndex(s: seq<Comment>, id: string): (r: Option<nat>)
    ensures r.Some? ==> r.value < |s| && s[r.value].id == id
    ensures r.Some? ==> forall j :: 0 <= j < r.value ==> s[j].id != id
    ensures r.None? ==> forall j :: 0 <= j < |s| ==> s[j].id != id
  {
    if s == [] then None
    else if s[0].id == id then Some(0)
    else
      match CommentIndex(s[1..], id)
      case Some(i) => Some(i + 1)
      case None => None
  }

  /** The comment a comment-id request is about. */
  function FoundComment(s: State, commentId: string): Option<nat> {
    if IsValid(commentId) then CommentIndex(s.comments, Parse(commentId).value) else None
  }

  /** POST /comments (index.js:1523-1566). */
  function AddComment(s: State, postId: string, email: string, content: string, newId: string, now: nat): Outcome {
    if content == "" || postId == "" then Unchanged(s, 400, "Missing required fields")
    else
      Outcome(
        s.(comments := s.comments + [Comment(newId, postId, email, content, now, None)]),
        Reply(201, "Comment added successfully"),
        [Broadcast("comment:created", {PostRoom(postId)}, CommentEvent(postId, newId, 1))])
  }

  /** A comment needs content and a post id; a valid request appends exactly one comment, announced in the post's room. */
  lemma AddCommentFacts(s: State, postId: string, email: string, content: string, newId: string, now: nat)
    ensures var o := AddComment(s, postId, email, content, newId, now);
            && (o.reply.status == 201 <==> content != "" && postId != "")
            && (o.reply.status != 201 ==> o.state == s)
            && (o.reply.status == 201 ==>
                  && |o.state.comments| == |s.comments| + 1
                  && o.state.comments[..|s.comments|] == s.comments
                  && o.state.comments[|s.comments|].postId == postId
                  && o.state.comments[|s.comments|].email == email
                  && o.events == [Broadcast("comment:created", {PostRoom(postId)}, CommentEvent(postId, newId, 1))])
  {
  }

  /** A comment as GET /comments/:postId returns it: with its author's public profile, or none. */
  datatype CommentView = CommentView(comment: Comment, user: Option<UserPublic>)

  function OnPost(postId: string): Comment -> bool {
    (c: Comment) => c.postId == postId
  }

  /** `.sort({ createdAt: 1 })` as a descending sort on the negated time. */
  function Earliest(c: Comment): int {
    -(c.createdAt as int)
  }

  function ViewOf(users: map<string, Profile>): Comment -> CommentView {
    (c: Comment) => CommentView(c, if c.email != "" && c.email in users then Some(ToUserPublic(users[c.email])) else None)
  }

  /** GET /comments/:postId (index.js:1569-1606): the post's comments, oldest first, with their authors. */
  function ListComments(s: State, postId: string): seq<CommentView> {
    MapSeq(SortDesc(Filter(s.comments, OnPost(postId)), Earliest), ViewOf(s.users))
  }

  /** The listing is exactly the post's comments, each once, oldest first. */
  lemma ListCommentsFacts(s: State, postId: string)
    ensures var r := ListComments(s, postId);
            && multiset(MapSeq(r, ViewComment())) == multiset(Filter(s.comments, OnPost(postId)))
            && (forall i :: 0 <= i < |r| ==> r[i].comment.postId == postId && r[i].comment in s.comments)
            && (forall i, j :: 0 <= i < j < |r| ==> r[i].comment.createdAt <= r[j].comment.createdAt)
  {
    var on := Filter(s.comments, OnPost(postId));
    var sorted := SortDesc(on, Earliest);
    var r := ListComments(s, postId);
    assert MapSeq(r, ViewComment()) == sorted;
    FilterFacts(s.comments, OnPost(postId));
    forall i | 0 <= i < |r|
      ensures r[i].comment.postId == postId && r[i].comment in s.comments
    {
      assert sorted[i] in multiset(on);
    }
    forall i, j | 0 <= i < j < |r|
      ensures r[i].comment.createdAt <= r[j].comment.createdAt
    {
      assert Earliest(sorted[i]) >= Earliest(sorted[j]);
    }
  }

  function ViewComment(): CommentView -> Comment {
    (v: CommentView) => v.comment
  }

  /** PATCH /comments/:commentId (index.js:1609-1668). */
  function EditComment(s: State, commentId: string, email: string, content: string, now: nat): Outcome {
    if content == "" || Trim(content) == "" then Unchanged(s, 400, "Content is required")
    else if !IsValid(commentId) then Unchanged(s, 400, "Invalid comment ID")
    else
      match CommentIndex(s.comments, Parse(commentId).value)
      case None => Unchanged(s, 404, "Comment not found")
      case Some(i) =>
        var c := s.comments[i];
        if !MayModify(s.users, c.email, email) then Unchanged(s, 403, "Unauthorized to edit this comment")
        else
          Outcome(
            s.(comments := s.comments[i := c.(content := Trim(content), editedAt := Some(now))]),
            Reply(200, "Comment updated successfully"),
            [Broadcast("comment:updated", {PostRoom(c.postId)}, CommentEdit(c.postId, c.id))])
  }

  /**
   * Only the author or an admin edits a comment; a refused or invalid
   * request changes nothing; a successful edit stores the trimmed,
   * non-blank content on exactly the found comment.
   */
  lemma EditCommentFacts(s: State, commentId: string, email: string, content: string, now: nat)
    ensures var o := EditComment(s, commentId, email, content, now);
            && (o.reply.status != 200 ==> o.state == s && o.events == [])
            && (o.reply.status == 403 <==>
                  Trim(content) != "" && FoundComment(s, commentId).Some?
                  && !MayModify(s.users, s.comments[FoundComment(s, commentId).value].email, email))
            && (o.reply.status == 200 ==>
                  var i := FoundComment(s, commentId).value;
                  && MayModify(s.users, s.comments[i].email, email)
                  && o.state == s.(comments := s.comments[i := o.state.comments[i]])
                  && o.state.comments[i].content == Trim(content) && o.state.comments[i].content != ""
                  && o.state.comments[i].editedAt == Some(now)
                  && o.state.comments[i].id == s.comments[i].id && o.state.comments[i].postId == s.comments[i].postId
                  && o.state.comments[i].email == s.comments[i].email)
  {
    if Trim(content) == "" && content != "" {
      assert EditComment(s, commentId, email, content, now).reply.status == 400;
    }
  }

  /** DELETE /comments/:commentId (index.js:2049-2104). */
  function DeleteComment(s: State, commentId: string, email: string): Outcome {
    if !IsValid(commentId) then Unchanged(s, 400, "Invalid comment ID")
    else
      match CommentIndex(s.comments, Parse(commentId).value)
      case None => Unchanged(s, 404, "Comment not found")
      case Some(i) =>
        var c := s.comments[i];
        if c.email != email && email !in s.users then Unchanged(s, 500, "Server error")
        else if c.email != email && s.users[email].userType != "admin" then Unchanged(s, 403, "Unauthorized to delete this comment")
        else
          Outcome(
            s.(comments := RemoveAt(s.comments, i)),
            Reply(200, "Comment deleted successfully"),
            [Broadcast("comment:deleted", {PostRoom(c.postId)}, CommentEvent(c.postId, commentId, -1))])
  }

  /**
   * Only the author or an admin deletes a comment. A requester who is
   * neither gets 403, or 500 when they have no profile at all (the handler
   * reads `user.userType` of a missing profile); either way nothing
   * changes. A successful delete removes exactly the found comment and
   * leaves its reports in place.
   */
  lemma DeleteCommentFacts(s: State, commentId: string, email: string)
    ensures var o := DeleteComment(s, commentId, email);
            && (o.reply.status != 200 ==> o.state == s && o.events == [])
            && (FoundComment(s, commentId).Some? ==>
                  var c := s.comments[FoundComment(s, commentId).value];
                  && (o.reply.status == 200 <==> MayModify(s.users, c.email, email))
                  && (o.reply.status == 500 <==> c.email != email && email !in s.users))
            && (o.reply.status == 200 ==>
                  && o.state == s.(comments := RemoveAt(s.comments, FoundComment(s, commentId).value))
                  && o.state.commentReports == s.commentReports)
  {
  }

  /** DELETE /admin/reported-comments/:commentId (index.js:2107-2133). */
  function AdminDeleteComment(s: State, commentId: string): Outcome {
    if !IsValid(commentId) then Unchanged(s, 400, "Invalid comment ID")
    else
      var found := CommentIndex(s.comments, Parse(commentId).value);
      var reportsLeft := Filter(s.commentReports, NotAbout(commentId));
      match found
      case None => Outcome(s.(commentReports := reportsLeft), Reply(200, "Comment and reports deleted"), [])
      case Some(i) =>
        var c := s.comments[i];
        Outcome(
          s.(commentReports := reportsLeft, comments := RemoveAt(s.comments, i)),
          Reply(200, "Comment and reports deleted"),
          if c.postId != "" then [Broadcast("comment:deleted", {PostRoom(c.postId)}, CommentEvent(c.postId, commentId, -1))] else [])
  }

  function NotAbout(target: string): Report -> bool {
    (r: Report) => r.target != target
  }

  /** DELETE /admin/reported-comments/:commentId/dismiss (index.js:2136-2144). */
  function DismissCommentReports(s: State, commentId: string): Outcome {
    Outcome(s.(commentReports := Filter(s.commentReports, NotAbout(commentId))), Reply(200, "Comment reports dismissed"), [])
  }

  /**
   * Both admin comment routes remove every report on the comment id as
   * sent and keep all others; the delete also removes the comment, while
   * dismissing leaves comments alone.
   */
  lemma AdminCommentFacts(s: State, commentId: string)
    ensures var o := AdminDeleteComment(s, commentId);
            && (!IsValid(commentId) ==> o.state == s && o.reply.status == 400)
            && (IsValid(commentId) ==>
                  && (forall r :: r in o.state.commentReports <==> r in s.commentReports && r.target != commentId)
                  && (FoundComment(s, commentId).Some? ==> o.state.comments == RemoveAt(s.comments, FoundComment(s, commentId).value))
                  && (FoundComment(s, commentId).None? ==> o.state.comments == s.comments))
    ensures var o := DismissCommentReports(s, commentId);
            && (forall r :: r in o.state.commentReports <==> r in s.commentReports && r.target != commentId)
            && o.state.comments == s.comments
  {
    NotAboutFacts(s.commentReports, commentId);
  }

  lemma NotAboutFacts(reports: seq<Report>, target: string)
    ensures forall r :: r in Filter(reports, NotAbout(target)) <==> r in reports && r.target != target
  {
    FilterFacts(reports, NotAbout(target));
    forall r | r in reports && r.target != target
      ensures r in Filter(reports, NotAbout(target))
    {
      FilterKeeps(reports, NotAbout(target), r);
    }
  }

  // ---------------------------------------------------------------------
  // Reports (index.js:1671-1788)
  // ---------------------------------------------------------------------

  /** `reportCollection.findOne({ postId, reportedBy })` found a report. */
  predicate HasReported(reports: seq<Report>, postId: string, email: string) {
    exists r :: r in reports && r.postId == postId && r.reportedBy == email
  }

  function Reason(reason: string): string {
    if reason != "" then reason else "No reason provided"
  }

  /** `$inc: { reportCount: 1 }` on the document at `i`. */
  function Bump(part: seq<Post>, i: nat): seq<Post>
    requires i < |part|
  {
    part[i := part[i].(reportCount := part[i].reportCount + 1)]
  }

  /** POST /reports (index.js:1671-1734). */
  function ReportPost(s: State, postId: string, email: string, reason: string, now: nat): Outcome {
    if postId == "" then Unchanged(s, 400, "Missing required fields")
    else if HasReported(s.reports, postId, email) then Unchanged(s, 400, "You have already reported this post")
    else
      var filed := s.(reports := s.reports + [Report(postId, postId, email, Reason(reason), now)]);
      if !IsValid(postId) then Outcome(filed, Reply(500, "Server error"), [])
      else
        match Locate(Parts(s), Parse(postId).value)
        case None => Outcome(filed, Reply(404, "Post not found"), [])
        case Some(loc) =>
          Outcome(WithPartition(filed, loc.part, Bump(Parts(s)[loc.part], loc.index)), Reply(201, "Post reported successfully"), [])
  }

  /**
   * A request without a post id is refused with 400 before anything is
   * read. A repeated report by the same reporter is refused with nothing
   * inserted or counted. Otherwise exactly one report is inserted, even
   * when the id is malformed (500, from the throwing `new ObjectId`) or
   * no partition holds the post (404); and when the
   * post is found, its first document in search order has its counter
   * raised by exactly one, with every other document unchanged.
   */
  lemma ReportPostFacts(s: State, postId: string, email: string, reason: string, now: nat)
    ensures var o := ReportPost(s, postId, email, reason, now);
            && (postId == "" ==> o == Unchanged(s, 400, "Missing required fields"))
            && (postId != "" && HasReported(s.reports, postId, email) ==>
                  o.reply == Reply(400, "You have already reported this post") && o.state == s)
            && (postId != "" && !HasReported(s.reports, postId, email) ==>
                  && o.state.reports == s.reports + [Report(postId, postId, email, Reason(reason), now)]
                  && HasReported(o.state.reports, postId, email)
                  && (Found(s, postId).None? ==> Parts(o.state) == Parts(s))
                  && (!IsValid(postId) ==> o.reply == Reply(500, "Server error"))
                  && (IsValid(postId) && Found(s, postId).None? ==> o.reply == Reply(404, "Post not found"))
                  && (Found(s, postId).Some? ==>
                        var loc := Found(s, postId).value;
                        && o.reply == Reply(201, "Post reported successfully")
                        && |Parts(o.state)[loc.part]| == |Parts(s)[loc.part]|
                        && At(o.state, loc) == At(s, loc).(reportCount := At(s, loc).reportCount + 1)
                        && (forall k, j :: 0 <= k < 3 && 0 <= j < |Parts(s)[k]| && (k, j) != (loc.part, loc.index) ==>
                              j < |Parts(o.state)[k]| && Parts(o.state)[k][j] == Parts(s)[k][j])))
            && o.state.votes == s.votes && o.state.comments == s.comments && o.state.users == s.users
  {
    var o := ReportPost(s, postId, email, reason, now);
    if postId != "" && !HasReported(s.reports, postId, email) {
      var r := Report(postId, postId, email, Reason(reason), now);
      assert r in o.state.reports;
    }
  }

  /** Reporting twice: whatever the first report's outcome, the second is refused and changes nothing. */
  lemma ReportTwiceRefused(s: State, postId: string, email: string, reason: string, reason2: string, now: nat, later: nat)
    requires postId != ""
    ensures var first := ReportPost(s, postId, email, reason, now);
            ReportPost(first.state, postId, email, reason2, later) == Unchanged(first.state, 400, "You have already reported this post")
  {
    ReportPostFacts(s, postId, email, reason, now);
  }

  /** `commentReportCollection.findOne({ commentId, reportedBy })` found a report. */
  predicate HasReportedComment(reports: seq<Report>, commentId: string, email: string) {
    exists r :: r in reports && r.target == commentId && r.reportedBy == email
  }

  /** POST /comment-reports (index.js:1737-1788). */
  function ReportComment(s: State, commentId: string, email: string, reason: string, now: nat): Outcome {
    if commentId == "" then Unchanged(s, 400, "Missing required fields")
    else if !IsValid(commentId) then Unchanged(s, 400, "Invalid comment ID")
    else
      match CommentIndex(s.comments, Parse(commentId).value)
      case None => Unchanged(s, 404, "Comment not found")
      case Some(i) =>
        if HasReportedComment(s.commentReports, commentId, email) then Unchanged(s, 400, "You already reported this comment")
        else
          Outcome(
            s.(commentReports := s.commentReports + [Report(commentId, s.comments[i].postId, email, Reason(reason), now)]),
            Reply(201, "Comment reported successfully"),
            [])
  }

  /**
   * A comment report is filed only for an existing comment and only once
   * per reporter; it records the comment's post; nothing else changes and
   * no counter is kept for comments.
   */
  lemma ReportCommentFacts(s: State, commentId: string, email: string, reason: string, now: nat)
    ensures var o := ReportComment(s, commentId, email, reason, now);
            && (o.reply.status != 201 ==> o.state == s)
            && (o.reply.status == 201 <==> FoundComment(s, commentId).Some? && !HasReportedComment(s.commentReports, commentId, email))
            && (o.reply.status == 201 ==>
                  o.state == s.(commentReports := s.commentReports
                                  + [Report(commentId, s.comments[FoundComment(s, commentId).value].postId, email, Reason(reason), now)]))
            && (o.reply.status == 201 ==> ReportComment(o.state, commentId, email, reason, now).reply == Reply(400, "You already reported this comment"))
  {
    var o := ReportComment(s, commentId, email, reason, now);
    if o.reply.status == 201 {
      var r := o.state.commentReports[|s.commentReports|];
      assert r in o.state.commentReports;
      assert o.state.comments == s.comments;
    }
  }

  // ---------------------------------------------------------------------
  // Admin purge and dismiss (index.js:1951-2046)
  // ---------------------------------------------------------------------

  /** `deleteOne({ _id })` on one partition: the first document with the id goes. */
  function RemoveFirst(part: seq<Post>, id: string): seq<Post> {
    match IndexOfId(part, id)
    case None => part
    case Some(i) => RemoveAt(part, i)
  }

  /** `updateOne({ _id }, { $set: { reportCount: 0 } })` on one partition. */
  function ResetCount(part: seq<Post>, id: string): seq<Post> {
    match IndexOfId(part, id)
    case None => part
    case Some(i) => part[i := part[i].(reportCount := 0)]
  }

  /** DELETE /admin/reported-posts/:postId (index.js:1951-2006). */
  function PurgePost(s: State, postId: string): Outcome {
    var meta := ResolvePostMeta(Parts(s), postId);
    var unreported := s.(reports := Filter(s.reports, ReportNotOn(postId)));
    if !IsValid(postId) then Outcome(unreported, Reply(500, "Server error"), [])
    else
      var id := Parse(postId).value;
      var purged := unreported.(posts := RemoveFirst(s.posts, id),
                                announcements := RemoveFirst(s.announcements, id),
                                notices := RemoveFirst(s.notices, id),
                                votes := Filter(s.votes, VoteNotOn(postId)),
                                comments := Filter(s.comments, CommentNotOn(postId)));
      if Locate(Parts(s), id).Some? then
        var kind := if meta.Some? then meta.value.postType else "general";
        var author := if meta.Some? then meta.value.email else "";
        var payload := PostEvent(postId, kind, author);
        Outcome(purged, Reply(200, "Post and all related data deleted successfully"),
                EmitFeedEvent("post:deleted", payload, kind) + UserEmit("post:deleted", author, payload))
      else
        Outcome(purged, Reply(404, "Post not found"), [])
  }

  /**
   * The admin purge removes every report filed under the post id before it
   * looks at the id; with a well-formed id it also removes the first
   * document with that id from every partition and every vote and comment
   * filed under it, and reports 404 when no partition held one.
   */
  lemma PurgeFacts(s: State, postId: string)
    ensures var o := PurgePost(s, postId);
            && (forall r :: r in o.state.reports <==> r in s.reports && r.postId != postId)
            && (!IsValid(postId) ==> o.reply == Reply(500, "Server error") && Parts(o.state) == Parts(s)
                                     && o.state.votes == s.votes && o.state.comments == s.comments)
            && (IsValid(postId) ==>
                  && Cascaded(s, o.state, postId)
                  && (forall k :: 0 <= k < 3 ==> Parts(o.state)[k] == RemoveFirst(Parts(s)[k], Parse(postId).value))
                  && (o.reply.status == 200 <==> Found(s, postId).Some?)
                  && (o.reply.status != 200 ==> o.reply == Reply(404, "Post not found") && Parts(o.state) == Parts(s)))
            && o.state.users == s.users && o.state.commentReports == s.commentReports
  {
    ReportsCleared(s.reports, postId);
    if IsValid(postId) {
      CascadeFacts(s, postId);
      PurgedParts(s, postId);
      if Found(s, postId).None? {
        PurgeNothing(s, Parse(postId).value);
      }
    }
  }

  lemma PurgedParts(s: State, postId: string)
    requires IsValid(postId)
    ensures forall k :: 0 <= k < 3 ==> Parts(PurgePost(s, postId).state)[k] == RemoveFirst(Parts(s)[k], Parse(postId).value)
  {
    var id := Parse(postId).value;
    assert Parts(PurgePost(s, postId).state) == [RemoveFirst(s.posts, id), RemoveFirst(s.announcements, id), RemoveFirst(s.notices, id)];
  }

  lemma PurgeNothing(s: State, id: string)
    requires Locate(Parts(s), id).None?
    ensures RemoveFirst(s.posts, id) == s.posts
    ensures RemoveFirst(s.announcements, id) == s.announcements
    ensures RemoveFirst(s.notices, id) == s.notices
  {
    assert Parts(s)[0] == s.posts && Parts(s)[1] == s.announcements && Parts(s)[2] == s.notices;
  }

  /** `reportCollection.deleteMany({ postId })` removes exactly the reports filed under the id. */
  lemma ReportsCleared(reports: seq<Report>, postId: string)
    ensures forall r :: r in Filter(reports, ReportNotOn(postId)) <==> r in reports && r.postId != postId
  {
    FilterFacts(reports, ReportNotOn(postId));
    forall r | r in reports && r.postId != postId
      ensures r in Filter(reports, ReportNotOn(postId))
    {
      FilterKeeps(reports, ReportNotOn(postId), r);
    }
  }

  /** DELETE /admin/reported-posts/:postId/dismiss (index.js:2009-2046). */
  function DismissReports(s: State, postId: string): Outcome {
    var unreported := s.(reports := Filter(s.reports, ReportNotOn(postId)));
    if !IsValid(postId) then Outcome(unreported, Reply(500, "Server error"), [])
    else
      var id := Parse(postId).value;
      Outcome(
        unreported.(posts := ResetCount(s.posts, id), announcements := ResetCount(s.announcements, id), notices := ResetCount(s.notices, id)),
        Reply(200, "Reports dismissed successfully"),
        [])
  }

  /**
   * Dismissing removes every report filed under the post id and keeps the
   * others; it deletes no document: each partition keeps its length and
   * ids, and the first document with the id in each partition has its
   * counter set to zero.
   */
  lemma DismissFacts(s: State, postId: string)
    ensures var o := DismissReports(s, postId);
            && (forall r :: r in o.state.reports <==> r in s.reports && r.postId != postId)
            && (forall k :: 0 <= k < 3 ==> |Parts(o.state)[k]| == |Parts(s)[k]|)
            && (forall k, j :: 0 <= k < 3 && 0 <= j < |Parts(s)[k]| ==>
                  Parts(o.state)[k][j] == Parts(s)[k][j] || Parts(o.state)[k][j] == Parts(s)[k][j].(reportCount := 0))
            && (IsValid(postId) ==>
                  o.reply == Reply(200, "Reports dismissed successfully")
                  && forall k :: 0 <= k < 3 && IndexOfId(Parts(s)[k], Parse(postId).value).Some? ==>
                       Parts(o.state)[k][IndexOfId(Parts(s)[k], Parse(postId).value).value].reportCount == 0)
            && o.state.votes == s.votes && o.state.comments == s.comments && o.state.users == s.users
  {
    var o := DismissReports(s, postId);
    ReportsCleared(s.reports, postId);
    if IsValid(postId) {
      var id := Parse(postId).value;
      ResetCountFacts(s.posts, id);
      ResetCountFacts(s.announcements, id);
      ResetCountFacts(s.notices, id);
      assert Parts(o.state) == [ResetCount(s.posts, id), ResetCount(s.announcements, id), ResetCount(s.notices, id)];
    } else {
      assert Parts(o.state) == Parts(s);
    }
  }

  /** Resetting one partition: same length, each document unchanged or with its counter cleared, the first match cleared. */
  lemma ResetCountFacts(part: seq<Post>, id: string)
    ensures |ResetCount(part, id)| == |part|
    ensures forall j :: 0 <= j < |part| ==> ResetCount(part, id)[j] == part[j] || ResetCount(part, id)[j] == part[j].(reportCount := 0)
    ensures IndexOfId(part, id).Some? ==> ResetCount(part, id)[IndexOfId(part, id).value].reportCount == 0
  {
  }
}
