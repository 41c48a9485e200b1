/**
 * The records of the campus feed backend's content store and the shapes its
 * handlers answer with.
 *
 * Encoding convention: a string field that the backend may leave absent,
 * `null` or `undefined` is the empty string here. Every test the backend
 * makes on such a field is a JavaScript truthiness test (`if (email)`,
 * `content || null`, `post?.postType || fallback`), and for strings those
 * tests are exactly "is not the empty string".
 */
module Types {

  datatype Option<+T> = None | Some(value: T) {
    function GetOr(default: T): T {
      match this
      case Some(v) => v
      case None => default
    }
  }

  /** A content item of one of the three partitions (posts, announcements, notices). */
  datatype Post = Post(
    id: string,              // canonical (lower-case hex) ObjectId string
    email: string,           // author identity key
    content: string,
    photo: string,
    postType: string,        // "" for legacy documents stored without a type
    repostOf: string,        // "" when the post is not a repost
    createdAt: Option<nat>,  // milliseconds; None for a legacy document without a date
    updatedAt: Option<nat>,
    reportCount: nat         // denormalised report counter; 0 when never set
  )

  /** A vote record: at most one per (postId, userEmail) is the ledger's invariant. */
  datatype Vote = Vote(postId: string, userEmail: string, voteType: string)

  datatype Comment = Comment(
    id: string,              // canonical ObjectId string
    postId: string,          // the post id exactly as the client sent it
    email: string,
    content: string,
    createdAt: nat,
    editedAt: Option<nat>
  )

  /**
   * A report record. For a post report `target` is the reported post id; for a
   * comment report it is the comment id and `postId` is the comment's post.
   */
  datatype Report = Report(target: string, postId: string, reportedBy: string, reason: string, reportedAt: nat)

  /** A user profile as stored in the users collection. */
  datatype Profile = Profile(email: string, name: string, photo: string, userType: string, verify: string)

  /** The public author summary attached to feed items (`toUserPublic`). */
  datatype UserPublic = UserPublic(name: string, photo: string, userType: string)

  /** An HTTP status with the `message` field of the JSON body. */
  datatype Reply = Reply(status: int, message: string)

  /** The payload of a realtime event, reduced to the fields the model tracks. */
  datatype Payload =
    | PostEvent(postId: string, postType: string, author: string)
    | RepostEvent(rootId: string, repostId: string)
    | VoteEvent(postId: string, userEmail: string, previousVote: string, voteType: string, originSocketId: string)
    | CommentEvent(postId: string, commentId: string, delta: int)
    | CommentEdit(postId: string, commentId: string)

  /** One `emit` call: every socket in at least one of `rooms` receives it once. */
  datatype Broadcast = Broadcast(event: string, rooms: set<string>, payload: Payload)

  function ToUserPublic(u: Profile): UserPublic {
    UserPublic(u.name, u.photo, u.userType)
  }

  /** The time a feed comparator reads: `new Date(p.createdAt || 0).getTime()`. */
  function Time(p: Post): int {
    p.createdAt.GetOr(0)
  }
}
