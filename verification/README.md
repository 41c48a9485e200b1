# Campus feed backend — a Dafny model

This project models the core of a campus social-feed backend: one
Express/MongoDB/Socket.IO server (`index.js`) and its two authentication
middlewares (`verifyFirebaseAuth.js`, `verifyAdminJWT.js`).

The content store is held in memory as sequences:
- three post partitions, searched in this order: posts, announcements, notices;
- votes, comments, post reports and comment reports;
- the user profiles, keyed by email.

The model covers:
- **Request helpers.** `parseIdsParam`, `parsePagination`, `buildPaginatedResponse` and `normalizePostType`.
- **Partition search.** The search that `resolvePostMeta` and several handlers perform.
- **Read-only feeds.** The general feed, the teacher and admin feeds that merge two pre-limited sources, and the per-author activity feed with its repost originals.
- **Tallies.** Vote, comment and repost counts.
- **Vote ledger.** The three-way toggle, with at most one vote per (post, voter).
- **Post, comment and report handlers.** Including the ownership rule and the delete and purge cascades.
- **Admin report queues.** A grouping loop, then sorting, paging and hydration.
- **Realtime rooms.** The rooms a realtime event reaches, and the rooms a socket may join.
- **Middleware decision chains.** Both of them.

## Forms
Pure logic is written as functions, with lemmas stating what they promise.

The parts that change state are imperative:
- `Server.Store` is a class with one field per collection.
- Each method performs one handler's reads and writes. `Store.CastVote` reads the post's owner and type before it writes the vote rather than after; the vote write does not change that lookup, so the outcome is the same.
- Each method is proved to produce exactly the store, reply and emits that the matching `Handlers` function describes.
- So every lemma proved about `Handlers` holds of the store.

The loops are methods with invariants:
- the report-grouping loop;
- the partition search;
- the vote lookup.

The rooms of one socket are a class, `Realtime.SocketSession`, whose methods add and remove rooms.

## Encodings
- **Absent values.** An absent, `null` or `undefined` string field is `""`, which matches the truthiness tests the code makes. A missing `createdAt` is `None`, and the feed comparators count it as 0.
- **Ids.** `ObjectId.isValid` on a string means exactly 24 hexadecimal digits. `new ObjectId(s).toString()` is its lower-case spelling, and stored `_id`s are in that spelling.
- **Replies.** A reply is its status and its `message`. Emits are the event name, the set of rooms and a payload reduced to the ids and types it carries.
- **Inputs.** The requester's email, a freshly generated id and the current time are inputs.
- **Oracles.** The following are inputs too:
  - the results of `verifyIdToken`, `jwt.verify`, `Number(...)` and `new Date(...)`;
  - the uploaded photo URL.

## Model
| member | source | states |
|---|---|---|
| Params.ParseIdsParam | index.js:158-168 | a non-empty string gives the distinct, non-blank, trimmed comma pieces, every one of them, listed by the place of their first occurrence among the pieces; anything else gives none |
| Params.TrimmedPiecesFacts | index.js:161-166 | the trimmed pieces are exactly the non-blank trimmed parts |
| Params.NormalizePostType | index.js:199-200 | the result is the stored type or the fallback; a stored type is never overwritten; a non-empty fallback leaves no item untyped |
| Params.NormalizeIdempotent | index.js:199-200 | normalizing a normalized type changes nothing, and once set no later fallback changes it |
| Params.ParsePagination | index.js:217-236 | limit clamped to [1,50], 20 when absent or not finite; paginated iff limit, cursor or type was given; type is the requested teacher or admin, otherwise all; a blank or unparseable cursor is dropped |
| Params.ParsePaginationLimitStable | index.js:220-225 | the clamp is idempotent |
| Params.BuildPaginatedResponse | index.js:238-246 | next cursor present iff the page is full and its last item has a creation time, and then it is that time |
| Params.NextCursorSkipsPage | index.js:238-246 | following the cursor of a newest-first page never returns an item of that page |
| Seqs.Dedupe | index.js:181-183 | `[...new Set(s)]`: the same elements, each once, no longer than the input |
| Seqs.DedupeFirstOrder | index.js:181-183 | `[...new Set(s)]` lists the values by the index of their first occurrence in `s` |
| Seqs.FirstIndex | index.js:181-183 | the index of the first occurrence of a value, or the length when it does not occur |
| Seqs.FilterFacts | index.js:1811 | filtered items are input items that pass, and every passing item is kept |
| Seqs.JsSliceNonNegative | index.js:1821 | a slice with non-negative bounds is the clamped Dafny slice |
| Text.TrimIdempotent | index.js:164 | trimming twice is trimming once |
| Text.TrimChars | index.js:164 | trimming only removes characters |
| Text.TrimEmptyIff | index.js:1615-1617 | a string trims to "" iff it is all whitespace |
| Text.Split | index.js:162 | the pieces of a split contain no separator |
| Text.SplitThenJoin | index.js:162 | joining the pieces gives back the string |
| Text.JoinThenSplit | index.js:162 | splitting a join of separator-free pieces gives back the pieces |
| ObjectIds.Parse | index.js:627 | defined exactly for valid ids, and its result is canonical |
| ObjectIds.ParseCanonical | index.js:1465 | a canonical id parses to itself |
| ObjectIds.ParseIdempotent | index.js:1465 | parsing is idempotent |
| Ordering.SortDesc | index.js:1082-1086 | the comparator sort: sorted by key descending and a permutation of the input |
| Ordering.SortOfSorted | index.js:1082-1086 | sorting a sorted sequence changes nothing |
| Ordering.MergeSorted | index.js:1077-1086 | merging two sorted sources gives a sorted sequence |
| Ordering.PreLimitedMerge2 | index.js:1060-1088 | with distinct keys, limiting two sorted sources before merging loses none of the top n |
| Ordering.PreLimitedMerge3 | index.js:1396-1506 | the same for three sources |
| Ordering.SortMap | index.js:1078-1086 | a map that keeps keys commutes with the sort |
| Partitions.Fallback | index.js:1019-1025 | the type of a partition: general, teacher, admin |
| Partitions.IndexOfId | index.js:259-261 | the first document with the id, or none anywhere |
| Partitions.Locate | index.js:258-267 | the first partition holding the id, in search order, and the first document there |
| Partitions.FindInPartitions | index.js:888-909 | the search loop finds what Locate specifies |
| Partitions.ResolvePostMeta | index.js:248-270 | nothing for a blank or malformed id; else the first document found, typed by its partition |
| Partitions.ResolveIgnoresCase | index.js:248-270 | an id and its canonical spelling resolve alike |
| Feed.ListPosts | index.js:797-831 | the general feed is newest first and limited when paginated |
| Feed.ListPostsFacts | index.js:797-831 | every item is a stored post matching the type and cursor filter, and unpaginated every such post appears |
| Feed.TypedFeed | index.js:1052-1160 | the teacher and admin feeds are newest first, no longer than the limit, drawn from the typed union, and unpaginated they hold exactly the typed union as a multiset |
| Feed.TypedPageWhole | index.js:1077-1088 | unpaginated, the merged page is the whole typed union as a multiset |
| Feed.TypedPageFacts | index.js:1060-1088 | every item comes from the partition or the same-typed general posts, typed by the feed |
| Feed.TypedFeedTopN | index.js:1060-1088 | with distinct times the paginated feed is the newest `limit` of the whole union |
| Feed.UserActivity | index.js:1382-1518 | the activity feed is newest first, limited when paginated, by the author, and unpaginated its posts are exactly the author's typed documents of all three partitions as a multiset |
| Feed.AuthorPostsWhole | index.js:1389-1440 | unpaginated, the three partition queries together hold every typed document of the author |
| Feed.ActivityFacts | index.js:1426-1498 | every entry is the author's, typed by its partition, and any attached original is the stored document it reposts |
| Feed.ActivityAttachesOriginal | index.js:1441-1498 | an entry reposting a canonical id that some partition holds comes with its original |
| Feed.ActivityTopN | index.js:1396-1510 | with distinct times the paginated activity is the newest `limit` of all the author's documents |
| Feed.LastWithId | index.js:1463-1466 | the lookup finds a document with the id exactly when one exists |
| Feed.LastWithIdIsLast | index.js:1463-1466 | the id map keeps the last document with each id: no later document carries it |
| Feed.OriginalsFrom | index.js:1448-1462 | every fetched original is a stored document with a requested id |
| Feed.OriginalFetched | index.js:1448-1462 | every stored document with a requested id is fetched |
| Votes.FindVote | index.js:1178-1181 | the first vote of the voter on the post, or none |
| Votes.LedgerFind | index.js:1178-1181 | the lookup agrees with the ledger map |
| Votes.ToggleLedger | index.js:1185-1203 | the same type withdraws the vote, any other sets it; no other entry changes; the previous vote is the one held |
| Votes.ToggleKeepsUnique | index.js:1185-1203 | a toggle keeps one vote per (post, voter) |
| Votes.ToggleTwiceRestores | index.js:1185-1203 | voting the same type twice from no vote restores the ledger |
| Votes.ToggleTally | index.js:1185-1203 | the tally of the withdrawn type loses one vote and the tally of the type set gains one |
| Votes.FilterKeepsUnique | index.js:1012 | deleting votes keeps one vote per (post, voter) |
| Tallies.UserVotes | index.js:1242-1259 | exactly the requester's votes, on the requested posts when ids are given |
| Tallies.OneVotePerVoter | index.js:1269-1276 | under the invariant a voter counts at most once per post |
| Tallies.PostVoteCounts | index.js:1262-1287 | the number of upvote and of downvote documents filed under the post id as sent, together at most the post's votes |
| Tallies.TallySplit | index.js:1269-1276 | up- and downvotes together never exceed the votes filed under the post |
| Tallies.VoteCountsAgree | index.js:1289-1323 | each group of the grouped vote counts has the same tallies as the single-post endpoint gives for its post |
| Tallies.CommentCountsFacts | index.js:1325-1350 | one group per commented post id passing the filter, distinct, each counting the comments filed under it |
| Tallies.VoteCountsFacts | index.js:1289-1323 | one group per voted post, once each, with that post's exact tallies |
| Tallies.GroupCountsFacts | index.js:1338 | one group per key with its number of occurrences, and no other |
| Tallies.RepostCountsFacts | index.js:1353-1379 | one group per distinct root, each root some post's repostOf passing the id filter, its count the exact number of posts reposting it, and every matching repost counted under its root |
| Realtime.EmitFeedEvent | index.js:272-280 | `feed:all` always, and first the type room for teacher or admin items, as separate emits |
| Realtime.VoteRooms | index.js:1214-1223 | `feed:all`, the type room and the owner's room, in one emit |
| Realtime.FeedEventTwiceVoteOnce | index.js:272-280 | a socket in both feed rooms gets a teacher post's feed event twice but the vote once |
| Realtime.GeneralOnlyAll | index.js:272-280 | a general post's feed event reaches only `feed:all` |
| Realtime.HandshakeBearer | index.js:46-49 | a bearer token survives the handshake whatever the scheme's case |
| Realtime.SocketAuthFacts | index.js:45-61 | no handshake token refuses the connection before verification, so no session is built; admitted iff a token was sent and verified, under the verified email; the auth token outranks the header; a bare "Bearer " header is refused |
| Realtime.SocketSession.constructor | index.js:299-303 | a socket starts in its user's room when its token carried an email, else in no room |
| Realtime.SocketSession.Subscribe | index.js:305-313 | joins the feed room iff the type is all, teacher or admin |
| Realtime.SocketSession.Unsubscribe | index.js:315-323 | leaves the feed room iff the type is accepted |
| Realtime.SocketSession.JoinPost | index.js:325-329 | joins the post room iff the id is a non-blank string |
| Realtime.SocketSession.LeavePost | index.js:331-335 | leaves the post room iff the id is a non-blank string |
| Realtime.SubscribeThenUnsubscribe | index.js:305-323 | subscribing then unsubscribing a feed restores a socket that was not in it |
| Moderation.LatestIsMax | index.js:1803-1807 | the latest time of a target exists iff it was reported, bounds every report on it and is attained |
| Moderation.SummariesFacts | index.js:1800-1808 | each reported target's count is its number of reports, at least one, and its latest is the maximum report time |
| Moderation.GroupReports | index.js:1800-1810 | the loop builds exactly the per-target summaries, and its keys in first-report order |
| Moderation.GroupedSummaries | index.js:1800-1808 | folding the reports builds the per-target summaries |
| Moderation.QueueIdsFacts | index.js:1810-1818 | the queue ids are distinct, exactly the reported targets matching the filter, sorted by latest report |
| Moderation.QueuePageSlice | index.js:1819-1821 | page p of limit l is the slice [(p-1)l, pl) clamped to the ids |
| Moderation.QueuePageDefaults | index.js:1796-1821 | an absent page is page 1 and an absent limit 20, so the default page is the first 20 ids; a non-finite page or limit gives an empty page |
| Moderation.PagesCover | index.js:1819-1821 | pages 1..k together are the first k·l ids, in order |
| Moderation.PageObjectIdsMember | index.js:1823-1825 | the lookup ids are the valid page ids, canonical |
| Moderation.ReportedPostsFacts | index.js:1823-1852 | each item is a stored post on the page with its report count and author; every stored post on the page appears |
| Moderation.ReportedPostsQueue | index.js:1791-1859 | the handler returns the hydrated page and the number of distinct reported targets |
| Moderation.ReportedCommentsFacts | index.js:1898-1939 | each item is a stored comment on the page with its count and author, and its post when some partition holds it |
| Moderation.ReportedCommentsQueue | index.js:1862-1948 | the comment queue handler returns the hydrated page and the total |
| Handlers.RepostRoot | index.js:624-636 | a found target gives its own repostOf if set, else its id; otherwise the value sent |
| Handlers.CreateFacts | index.js:608-795 | an empty request is refused untouched; otherwise exactly one post of the route's type is appended |
| Handlers.CreateKeepsFlat | index.js:624-644 | repost chains stay one step long: a repost of a repost stores the root |
| Handlers.GetPost | index.js:834-870 | a post is returned iff the reply is 200 |
| Handlers.GetPostFacts | index.js:834-870 | the post returned has the requested id, is stored, and any spelling of the id finds the same one |
| Handlers.EditPostFacts | index.js:874-969 | 403 iff found and neither author nor admin, with nothing changed; on success exactly the found document gets the edit's fields |
| Handlers.DeletePostFacts | index.js:972-1048 | 403 iff found and neither author nor admin; on success the document and every vote, comment and report under the id go, others are kept |
| Handlers.CastVoteFacts | index.js:1165-1238 | one vote per voter is kept, only votes change, the single emit carries the previous and the next vote, and the reply is 201 "Vote added" with no prior vote, 200 "Vote removed" when the sent type withdraws it, 200 "Vote updated" when it changes it (an empty type sent over a vote reads as removed) |
| Handlers.CommentIndex | index.js:1628-1630 | the first comment with the id, or none |
| Handlers.AddCommentFacts | index.js:1523-1566 | content and post id are required; a valid request appends exactly one comment, emitted to the post room |
| Handlers.ListCommentsFacts | index.js:1569-1606 | exactly the post's comments, each once, oldest first |
| Handlers.EditCommentFacts | index.js:1609-1668 | 403 iff the content is non-blank, the comment is found and the requester is neither author nor admin; success stores the trimmed content on the found comment only |
| Handlers.DeleteCommentFacts | index.js:2049-2104 | only the author or an admin deletes; a requester without a profile gets 500; success removes only that comment and keeps its reports |
| Handlers.AdminCommentFacts | index.js:2107-2144 | both admin comment routes remove exactly the reports on the comment; only the delete removes the comment |
| Handlers.ReportPostFacts | index.js:1671-1734 | no postId gives 400 untouched; a repeat report is refused untouched; otherwise one report is inserted, then a malformed id gives 500, a valid id held nowhere gives 404 with no document changed, and a found post's first document has its count raised by one |
| Handlers.ReportTwiceRefused | index.js:1684-1691 | a second report by the same reporter is refused and changes nothing |
| Handlers.ReportCommentFacts | index.js:1737-1788 | filed only for an existing comment and once per reporter, recording the comment's post |
| Handlers.PurgeFacts | index.js:1951-2006 | reports under the id go first; with a valid id the first document in each partition, and votes and comments, go; 404 iff no partition held it |
| Handlers.DismissFacts | index.js:2009-2046 | reports under the id go; no document is deleted; each partition's first match has its count set to 0 |
| Server.Store.constructor | index.js:64-73 | an empty store over the given profiles |
| Server.Store.CreatePost | index.js:608-689 | the store, reply and emits of post creation, with the root lookup step by step |
| Server.Store.EditPost | index.js:874-969 | the partition search loop, the ownership check and the update, as the edit transition describes |
| Server.Store.DeletePost | index.js:972-1048 | the cascade of deletes in the handler's order, keeping one vote per voter |
| Server.Store.FindExistingVote | index.js:1178-1181 | the scan finds the voter's first vote on the post |
| Server.Store.CastVote | index.js:1165-1238 | find, then insert, withdraw or retype, keeping one vote per voter |
| Server.Store.AddComment | index.js:1523-1566 | the comment insert as the transition describes |
| Server.Store.EditComment | index.js:1609-1668 | the comment edit as the transition describes |
| Server.Store.DeleteComment | index.js:2049-2104 | the comment delete, with the 500 for a missing profile |
| Server.Store.ReportPost | index.js:1671-1734 | the report insert before the lookup, then the `$inc` on the found document |
| Server.Store.ReportComment | index.js:1737-1788 | the comment report insert |
| Server.Store.PurgePost | index.js:1951-2006 | the purge in the handler's order, keeping one vote per voter |
| Server.Store.DismissReports | index.js:2009-2046 | the report delete and the `$set` on each partition |
| Server.Store.AdminDeleteComment | index.js:2107-2133 | the admin comment delete |
| Server.Store.DismissCommentReports | index.js:2136-2144 | the comment report delete |
| FirebaseAuth.HeaderPrecedence | verifyFirebaseAuth.js:6-9 | the authorization header, then the token cookie, then x-access-token |
| FirebaseAuth.ExtractTokenRoundTrip | verifyFirebaseAuth.js:10-13 | a "Bearer " value gives its second space-separated field (`split(" ")[1]`); any other value is the token |
| FirebaseAuth.ProceedIff | verifyFirebaseAuth.js:5-69 | the request proceeds iff token, verification, lookup, not blocked, approval and role all pass |
| FirebaseAuth.NoTokenFirst | verifyFirebaseAuth.js:15 | no token gives 401 before verification |
| FirebaseAuth.RejectedToken | verifyFirebaseAuth.js:67-68 | a failed verification gives 401 |
| FirebaseAuth.MissingUser | verifyFirebaseAuth.js:22-24 | an email without a record gives 404 |
| FirebaseAuth.BlockedBeforeOptions | verifyFirebaseAuth.js:28-33 | a blocked account gets ACCOUNT_BLOCKED whatever the options |
| FirebaseAuth.PendingIff | verifyFirebaseAuth.js:36-46 | with approval required, ACCOUNT_PENDING iff neither admin nor approved |
| FirebaseAuth.NoRoleCheck | verifyFirebaseAuth.js:57-66 | without a non-empty role array there is no role check |
| FirebaseAuth.ProceedUser | verifyFirebaseAuth.js:48-55 | a request that proceeds carries the claimed email and the record's fields |
| AdminJwt.AuthorizeOrder | verifyAdminJWT.js:5-41 | token, signature, user, role (the `includes` test as written), strictly in that order, with 401, 403, 404, 403 and 500 for the lookup failure |
| AdminJwt.AuthorizeAdmitsSubstringRole | verifyAdminJWT.js:27-28 | as written, a route guarded by the single role "admin" lets a user of type "min" through; the intended middleware answers 403 |
| AdminJwt.AuthorizeIntended | verifyAdminJWT.js:27-35 | the intended middleware answers as the written one except on a single role, admits nothing the written one refuses, and admits a single role's holders only |
| AdminJwt.EmptyRoleListDeniesAll | verifyAdminJWT.js:28-35 | an empty role list admits nobody |
| AdminJwt.SubstringRoleAdmitsOthers | verifyAdminJWT.js:28 | as written, a single role "admin" admits the user type "min" |
| AdminJwt.RoleAllowsOneRole | verifyAdminJWT.js:27-28 | the intended test admits a single role's holders and nobody else |
| AdminJwt.RoleTestsAgree | verifyAdminJWT.js:27-28 | the two tests agree on lists and on no role; for one role the intended test is stricter |

## Left out
- User account routes (index.js:345-605) and the landing page, CORS, listen and error handler (index.js:2161-2222) are outside this model.
- MongoDB connection, index creation and driver calls are replaced by in-memory sequences. Storage never fails, so the catch-all 500 replies of storage errors are not modelled. The 500 replies of a malformed id reaching `new ObjectId` are modelled.
- Firebase token verification and `jwt.verify` are oracle inputs.
- Cloudinary and multer upload handling are left out; the uploaded photo URL is an input.
- Socket.IO transport and delivery, `Promise.all` interleavings and the read-then-write race on votes are concurrency and are left out.
- `emitUserUpdated` belongs to the user routes and is left out.
- Date parsing and formatting are left out: times are integers, and the cursor's parsed time is an input.
- `Number(limit)` is reduced to "not finite" or an integer, so fractional limits and pages are not modelled.
- `Object.keys` lists integer-like keys first; the grouped queue keeps first-report order for all keys. Special keys such as `__proto__` are not modelled.
- Lookups in plain objects inherit `Object.prototype`: a client-sent `repostOf` or comment `postId` such as `"constructor"` finds a non-document in `originalMap` (index.js:1491-1494) or `postMap` (index.js:1932). Feed.ActivityAttachesOriginal, Feed.OriginalsFrom and Moderation.ReportedCommentsFacts attach only stored documents, so they do not model that case.
- The output order of `$group` is unspecified; the model lists groups in first-occurrence order.
- Reply bodies beyond status and message are not modelled: `deletedCount`, `postId`, `commentId` and the serialized post and comment payloads. Emit payloads carry ids and types only.
- `attachUsersToPosts` returns items without a `user` field when no item has an email; the model attaches "no user" instead.
- `null` and `undefined` for `voteType`, and an absent versus empty field, are both `""`.
- generateToken.js and verifyJWT.js are not part of this model.
- The `cookie-parser` middleware is commented out in the server, so `req.cookies` may be undefined there. `AdminJwt.Authorize` takes the cookie token as an input and does not model a missing `req.cookies` object.
- The reported-posts queue returns its items in partition order, not in page order. The model keeps that order and states membership facts about it.

## Findings
| source | as written | input that shows it | evidently intended | confidence | as-written member | corrected member |
|---|---|---|---|---|---|---|
| verifyAdminJWT.js:28 | `requireRole.includes(user.userType)` is a substring test when `requireRole` is one string | `requireRole = "admin"`, `userType = "min"` passes the role check | one role admits only that role's holders | not executed | AdminJwt.AuthorizeAdmitsSubstringRole | AdminJwt.AuthorizeIntended |
