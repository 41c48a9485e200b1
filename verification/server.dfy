/**
 * The content store as the route handlers of index.js change it: one field
 * per MongoDB collection, updated step by step in the order the handlers
 * issue their `find`, `insert`, `update` and `delete` calls. Each method is
 * proved to leave the store, the reply and the emits exactly as the
 * corresponding transition of module Handlers describes them, so every
 * property proved there holds of the store.
 */
module Server {
  import opened Types
  import opened Seqs
  import opened Text
  import opened ObjectIds
  import opened Params
  import opened Partitions
  import opened Votes
  import opened Realtime
  import H = Handlers

  class Store {
    var posts: seq<Post>
    var announcements: seq<Post>
    var notices: seq<Post>
    var votes: seq<Vote>
    var comments: seq<Comment>
    var reports: seq<Report>
    var commentReports: seq<Report>
    var users: map<string, Profile>

    /** The collections as one value. */
    function State(): H.State
      reads this
    {
      H.State(posts, announcements, notices, votes, comments, reports, commentReports, users)
    }

    /** The vote collection's invariant: at most one vote per (postId, userEmail). */
    predicate Valid()
      reads this
    {
      UniqueVotes(votes)
    }

    /** An empty store over the given profiles. */
    constructor (profiles: map<string, Profile>)
      ensures State() == H.State([], [], [], [], [], [], [], profiles)
      ensures Valid()
    {
      posts, announcements, notices := [], [], [];
      votes, comments, reports, commentReports := [], [], [], [];
      users := profiles;
    }

    method SetPartition(k: nat, part: seq<Post>)
      requires k < 3
      modifies this
      ensures State() == H.WithPartition(old(State()), k, part)
    {
      if k == 0 {
        posts := part;
      } else if k == 1 {
        announcements := part;
      } else {
        notices := part;
      }
    }

    // -------------------------------------------------------------------
    // Posts
    // -------------------------------------------------------------------

    /** POST /user/post (index.js:608-689). */
    method CreatePost(email: string, content: string, photo: string, postType: string, repostOf: string,
                      newId: string, now: nat) returns (reply: Reply, events: seq<Broadcast>)
      modifies this
      ensures var o := H.CreatePost(old(State()), email, content, photo, postType, repostOf, newId, now);
              State() == o.state && reply == o.reply && events == o.events
      ensures Valid() <==> old(Valid())
    {
      if content == "" && photo == "" && repostOf == "" {
        return Reply(400, "Either content or photo is required"), [];
      }
      var root := "";
      if repostOf != "" {
        root := repostOf;
        if IsValid(repostOf) {
          var target := IndexOfId(posts, Parse(repostOf).value);
          if target.Some? {
            root := if posts[target.value].repostOf != "" then posts[target.value].repostOf else posts[target.value].id;
          }
        }
      }
      var kind := if postType != "" then postType else "general";
      posts := posts + [Post(newId, email, content, photo, kind, root, Some(now), None, 0)];
      var created := PostEvent(newId, kind, email);
      events := EmitFeedEvent("post:created", created, kind);
      if root != "" {
        events := events + EmitFeedEvent("repost:created", RepostEvent(root, newId), kind);
      }
      events := events + H.UserEmit("post:created", email, created);
      reply := Reply(201, "Post Created Successfully");
    }

    /** PATCH /posts/:postId (index.js:874-969): search the partitions, check ownership, update the found document. */
    method EditPost(postId: string, email: string, content: string, removePhoto: bool, photoURL: string, now: nat)
      returns (reply: Reply, events: seq<Broadcast>)
      modifies this
      ensures var o := H.EditPost(old(State()), postId, email, content, removePhoto, photoURL, now);
              State() == o.state && reply == o.reply && events == o.events
      ensures Valid() <==> old(Valid())
    {
      if !IsValid(postId) {
        return Reply(400, "Invalid post ID"), [];
      }
      var loc := FindInPartitions(H.Parts(State()), Parse(postId).value);
      if loc.None? {
        return Reply(404, "Post not found"), [];
      }
      var part := H.Parts(State())[loc.value.part];
      var post := part[loc.value.index];
      if !H.MayModify(users, post.email, email) {
        return Reply(403, "Unauthorized to edit this post"), [];
      }
      var edited := H.Edited(post, content, removePhoto, photoURL, now);
      SetPartition(loc.value.part, part[loc.value.index := edited]);
      var kind := NormalizePostType(edited.postType, Fallback(loc.value.part));
      var payload := PostEvent(edited.id, kind, post.email);
      reply := Reply(200, "Post updated successfully");
      events := EmitFeedEvent("post:updated", payload, kind) + H.UserEmit("post:updated", post.email, payload);
    }

    /**
     * DELETE /posts/:postId (index.js:972-1048): after the ownership check,
     * the votes, comments and reports under the post id go, then the document.
     */
    method DeletePost(postId: string, email: string) returns (reply: Reply, events: seq<Broadcast>)
      requires Valid()
      modifies this
      ensures var o := H.DeletePost(old(State()), postId, email);
              State() == o.state && reply == o.reply && events == o.events
      ensures Valid()
    {
      if !IsValid(postId) {
        return Reply(400, "Invalid post ID"), [];
      }
      var loc := FindInPartitions(H.Parts(State()), Parse(postId).value);
      if loc.None? {
        return Reply(404, "Post not found"), [];
      }
      var part := H.Parts(State())[loc.value.part];
      var post := part[loc.value.index];
      if !H.MayModify(users, post.email, email) {
        return Reply(403, "Unauthorized to delete this post"), [];
      }
      FilterKeepsUnique(votes, H.VoteNotOn(postId));
      votes := Filter(votes, H.VoteNotOn(postId));
      comments := Filter(comments, H.CommentNotOn(postId));
      reports := Filter(reports, H.ReportNotOn(postId));
      SetPartition(loc.value.part, H.RemoveAt(part, loc.value.index));
      var kind := NormalizePostType(post.postType, Fallback(loc.value.part));
      var payload := PostEvent(postId, kind, post.email);
      reply := Reply(200, "Post, votes, and comments deleted successfully");
      events := EmitFeedEvent("post:deleted", payload, kind) + H.UserEmit("post:deleted", post.email, payload);
    }

    // -------------------------------------------------------------------
    // Votes
    // -------------------------------------------------------------------

    /** `voteCollection.findOne({ postId, userEmail })`: a scan for the first vote with the key. */
    method FindExistingVote(postId: string, email: string) returns (found: Option<nat>)
      ensures found == FindVote(votes, postId, email)
      ensures found.Some? ==> found.value < |votes| && votes[found.value].postId == postId && votes[found.value].userEmail == email
    {
      var i := 0;
      while i < |votes|
        invariant 0 <= i <= |votes|
        invariant forall j :: 0 <= j < i ==> Key(votes[j]) != (postId, email)
      {
        if votes[i].postId == postId && votes[i].userEmail == email {
          return Some(i);
        }
        i := i + 1;
      }
      return None;
    }

    /**
     * POST /votes (index.js:1165-1238): find the voter's vote, then insert,
     * withdraw or retype it; the ledger stays one vote per voter and post.
     */
    method CastVote(postId: string, email: string, voteType: string, origin: SocketArg)
      returns (reply: Reply, events: seq<Broadcast>)
      requires Valid()
      modifies this
      ensures var o := H.CastVote(old(State()), postId, email, voteType, origin);
              State() == o.state && reply == o.reply && events == o.events
      ensures Valid()
    {
      ToggleKeepsUnique(votes, postId, email, voteType);
      var meta := ResolvePostMeta(H.Parts(State()), postId);
      var existing := FindExistingVote(postId, email);
      var previous := "";
      var next := "";
      if existing.None? {
        votes := votes + [Vote(postId, email, voteType)];
        next := voteType;
      } else {
        var i := existing.value;
        previous := votes[i].voteType;
        if votes[i].voteType == voteType {
          votes := votes[..i] + votes[i + 1..];
        } else {
          votes := votes[i := votes[i].(voteType := voteType)];
          next := voteType;
        }
      }
      var payload := VoteEvent(postId, email, previous, next, H.OriginSocket(origin));
      events := [Broadcast("vote:changed", VoteRooms(meta), payload)];
      reply := VoteReply(previous, next);
    }

    // -------------------------------------------------------------------
    // Comments
    // -------------------------------------------------------------------

    /** POST /comments (index.js:1523-1566). */
    method AddComment(postId: string, email: string, content: string, newId: string, now: nat)
      returns (reply: Reply, events: seq<Broadcast>)
      modifies this
      ensures var o := H.AddComment(old(State()), postId, email, content, newId, now);
              State() == o.state && reply == o.reply && events == o.events
      ensures Valid() <==> old(Valid())
    {
      if content == "" || postId == "" {
        return Reply(400, "Missing required fields"), [];
      }
      comments := comments + [Comment(newId, postId, email, content, now, None)];
      reply := Reply(201, "Comment added successfully");
      events := [Broadcast("comment:created", {PostRoom(postId)}, CommentEvent(postId, newId, 1))];
    }

    /** PATCH /comments/:commentId (index.js:1609-1668). */
    method EditComment(commentId: string, email: string, content: string, now: nat)
      returns (reply: Reply, events: seq<Broadcast>)
      modifies this
      ensures var o := H.EditComment(old(State()), commentId, email, content, now);
              State() == o.state && reply == o.reply && events == o.events
      ensures Valid() <==> old(Valid())
    {
      if content == "" || Trim(content) == "" {
        return Reply(400, "Content is required"), [];
      }
      if !IsValid(commentId) {
        return Reply(400, "Invalid comment ID"), [];
      }
      var found := H.CommentIndex(comments, Parse(commentId).value);
      if found.None? {
        return Reply(404, "Comment not found"), [];
      }
      var c := comments[found.value];
      if !H.MayModify(users, c.email, email) {
        return Reply(403, "Unauthorized to edit this comment"), [];
      }
      comments := comments[found.value := c.(content := Trim(content), editedAt := Some(now))];
      reply := Reply(200, "Comment updated successfully");
      events := [Broadcast("comment:updated", {PostRoom(c.postId)}, CommentEdit(c.postId, c.id))];
    }

    /** DELETE /comments/:commentId (index.js:2049-2104). */
    method DeleteComment(commentId: string, email: string) returns (reply: Reply, events: seq<Broadcast>)
      modifies this
      ensures var o := H.DeleteComment(old(State()), commentId, email);
              State() == o.state && reply == o.reply && events == o.events
      ensures Valid() <==> old(Valid())
    {
      if !IsValid(commentId) {
        return Reply(400, "Invalid comment ID"), [];
      }
      var found := H.CommentIndex(comments, Parse(commentId).value);
      if found.None? {
        return Reply(404, "Comment not found"), [];
      }
      var c := comments[found.value];
      if c.email != email {
        if email !in users {
          return Reply(500, "Server error"), [];
        }
        if users[email].userType != "admin" {
          return Reply(403, "Unauthorized to delete this comment"), [];
        }
      }
      comments := H.RemoveAt(comments, found.value);
      reply := Reply(200, "Comment deleted successfully");
      events := [Broadcast("comment:deleted", {PostRoom(c.postId)}, CommentEvent(c.postId, commentId, -1))];
    }

    // -------------------------------------------------------------------
    // Reports
    // -------------------------------------------------------------------

    /**
     * POST /reports (index.js:1671-1734): the report is inserted before the
     * post is looked up, and the counter of the first document found is raised.
     */
    method ReportPost(postId: string, email: string, reason: string, now: nat) returns (reply: Reply)
      modifies this
      ensures var o := H.ReportPost(old(State()), postId, email, reason, now);
              State() == o.state && reply == o.reply && o.events == []
      ensures Valid() <==> old(Valid())
    {
      if postId == "" {
        return Reply(400, "Missing required fields");
      }
      if H.HasReported(reports, postId, email) {
        return Reply(400, "You have already reported this post");
      }
      reports := reports + [Report(postId, postId, email, H.Reason(reason), now)];
      if !IsValid(postId) {
        return Reply(500, "Server error");
      }
      var loc := FindInPartitions(H.Parts(State()), Parse(postId).value);
      if loc.None? {
        return Reply(404, "Post not found");
      }
      SetPartition(loc.value.part, H.Bump(H.Parts(State())[loc.value.part], loc.value.index));
      reply := Reply(201, "Post reported successfully");
    }

    /** POST /comment-reports (index.js:1737-1788). */
    method ReportComment(commentId: string, email: string, reason: string, now: nat) returns (reply: Reply)
      modifies this
      ensures var o := H.ReportComment(old(State()), commentId, email, reason, now);
              State() == o.state && reply == o.reply && o.events == []
      ensures Valid() <==> old(Valid())
    {
      if commentId == "" {
        return Reply(400, "Missing required fields");
      }
      if !IsValid(commentId) {
        return Reply(400, "Invalid comment ID");
      }
      var found := H.CommentIndex(comments, Parse(commentId).value);
      if found.None? {
        return Reply(404, "Comment not found");
      }
      if H.HasReportedComment(commentReports, commentId, email) {
        return Reply(400, "You already reported this comment");
      }
      commentReports := commentReports + [Report(commentId, comments[found.value].postId, email, H.Reason(reason), now)];
      reply := Reply(201, "Comment reported successfully");
    }

    // -------------------------------------------------------------------
    // Admin moderation
    // -------------------------------------------------------------------

    /**
     * DELETE /admin/reported-posts/:postId (index.js:1951-2006): reports
     * first, then the document in every partition, then votes and comments.
     */
    method PurgePost(postId: string) returns (reply: Reply, events: seq<Broadcast>)
      requires Valid()
      modifies this
      ensures var o := H.PurgePost(old(State()), postId);
              State() == o.state && reply == o.reply && events == o.events
      ensures Valid()
    {
      var meta := ResolvePostMeta(H.Parts(State()), postId);
      reports := Filter(reports, H.ReportNotOn(postId));
      if !IsValid(postId) {
        return Reply(500, "Server error"), [];
      }
      var id := Parse(postId).value;
      var deleted := Locate(H.Parts(State()), id).Some?;
      posts := H.RemoveFirst(posts, id);
      announcements := H.RemoveFirst(announcements, id);
      notices := H.RemoveFirst(notices, id);
      FilterKeepsUnique(votes, H.VoteNotOn(postId));
      votes := Filter(votes, H.VoteNotOn(postId));
      comments := Filter(comments, H.CommentNotOn(postId));
      if !deleted {
        return Reply(404, "Post not found"), [];
      }
      var kind := if meta.Some? then meta.value.postType else "general";
      var author := if meta.Some? then meta.value.email else "";
      var payload := PostEvent(postId, kind, author);
      reply := Reply(200, "Post and all related data deleted successfully");
      events := EmitFeedEvent("post:deleted", payload, kind) + H.UserEmit("post:deleted", author, payload);
    }

    /** DELETE /admin/reported-posts/:postId/dismiss (index.js:2009-2046). */
    method DismissReports(postId: string) returns (reply: Reply)
      modifies this
      ensures var o := H.DismissReports(old(State()), postId);
              State() == o.state && reply == o.reply && o.events == []
      ensures Valid() <==> old(Valid())
    {
      reports := Filter(reports, H.ReportNotOn(postId));
      if !IsValid(postId) {
        return Reply(500, "Server error");
      }
      var id := Parse(postId).value;
      posts := H.ResetCount(posts, id);
      announcements := H.ResetCount(announcements, id);
      notices := H.ResetCount(notices, id);
      reply := Reply(200, "Reports dismissed successfully");
    }

    /** DELETE /admin/reported-comments/:commentId (index.js:2107-2133). */
    method AdminDeleteComment(commentId: string) returns (reply: Reply, events: seq<Broadcast>)
      modifies this
      ensures var o := H.AdminDeleteComment(old(State()), commentId);
              State() == o.state && reply == o.reply && events == o.events
      ensures Valid() <==> old(Valid())
    {
      if !IsValid(commentId) {
        return Reply(400, "Invalid comment ID"), [];
      }
      var found := H.CommentIndex(comments, Parse(commentId).value);
      commentReports := Filter(commentReports, H.NotAbout(commentId));
      events := [];
      if found.Some? {
        var c := comments[found.value];
        comments := H.RemoveAt(comments, found.value);
        if c.postId != "" {
          events := [Broadcast("comment:deleted", {PostRoom(c.postId)}, CommentEvent(c.postId, commentId, -1))];
        }
      }
      reply := Reply(200, "Comment and reports deleted");
    }

    /** DELETE /admin/reported-comments/:commentId/dismiss (index.js:2136-2144). */
    method DismissCommentReports(commentId: string) returns (reply: Reply)
      modifies this
      ensures var o := H.DismissCommentReports(old(State()), commentId);
              State() == o.state && reply == o.reply && o.events == []
      ensures Valid() <==> old(Valid())
    {
      commentReports := Filter(commentReports, H.NotAbout(commentId));
      reply := Reply(200, "Comment reports dismissed");
    }
  }
}
