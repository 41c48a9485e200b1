/**
 * The three content partitions and the lookups that search them in a fixed
 * order: posts, then announcements, then notices (index.js:248-270,
 * index.js:888-909, index.js:982-1000). Each partition answers
 * `findOne({ _id })` with its first document carrying that id.
 */
module Partitions {
  import opened Types
  import opened ObjectIds
  import opened Params

  /** A document's place: which partition (0 posts, 1 announcements, 2 notices) and where in it. */
  datatype Loc = Loc(part: nat, index: nat)

  /** The post type a partition's legacy documents default to. */
  function Fallback(part: nat): (t: string)
    ensures t in {"general", "teacher", "admin"}
  {
    if part == 1 then "teacher" else if part == 2 then "admin" else "general"
  }

  /** `col.findOne({ _id: id })`: the first document of the partition with that id. */
  function IndexOfId(s: seq<Post>, id: string): (r: Option<nat>)
    ensures r.Some? ==> r.value < |s| && s[r.value].id == id
    ensures r.Some? ==> forall j :: 0 <= j < r.value ==> s[j].id != id
    ensures r.None? ==> forall j :: 0 <= j < |s| ==> s[j].id != id
  {
    if s == [] then None
    else if s[0].id == id then Some(0)
    else
      match IndexOfId(s[1..], id)
      case Some(i) => Some(i + 1)
      case None => None
  }

  /** The first partition, in search order, that holds a document with that id. */
  function Locate(parts: seq<seq<Post>>, id: string): (r: Option<Loc>)
    ensures r.Some? ==> r.value.part < |parts| && IndexOfId(parts[r.value.part], id) == Some(r.value.index)
    ensures r.Some? ==> forall k :: 0 <= k < r.value.part ==> IndexOfId(parts[k], id).None?
    ensures r.None? ==> forall k :: 0 <= k < |parts| ==> IndexOfId(parts[k], id).None?
  {
    LocateFrom(parts, id, 0)
  }

  function LocateFrom(parts: seq<seq<Post>>, id: string, k: nat): (r: Option<Loc>)
    requires k <= |parts|
    ensures r.Some? ==> k <= r.value.part < |parts| && IndexOfId(parts[r.value.part], id) == Some(r.value.index)
    ensures r.Some? ==> forall j :: k <= j < r.value.part ==> IndexOfId(parts[j], id).None?
    ensures r.None? ==> forall j :: k <= j < |parts| ==> IndexOfId(parts[j], id).None?
    decreases |parts| - k
  {
    if k == |parts| then None
    else
      match IndexOfId(parts[k], id)
      case Some(i) => Some(Loc(k, i))
      case None => LocateFrom(parts, id, k + 1)
  }

  /**
   * The partition search loop of the handlers: try each partition in order
   * and stop at the first one that holds the id.
   */
  method FindInPartitions(parts: seq<seq<Post>>, id: string) returns (loc: Option<Loc>)
    ensures loc.Some? ==> loc.value.part < |parts| && IndexOfId(parts[loc.value.part], id) == Some(loc.value.index)
    ensures loc.Some? ==> forall k :: 0 <= k < loc.value.part ==> IndexOfId(parts[k], id).None?
    ensures loc.None? ==> forall k :: 0 <= k < |parts| ==> IndexOfId(parts[k], id).None?
    ensures loc == Locate(parts, id)
  {
    var k := 0;
    loc := None;
    while k < |parts|
      invariant 0 <= k <= |parts|
      invariant forall j :: 0 <= j < k ==> IndexOfId(parts[j], id).None?
      invariant Locate(parts, id) == LocateFrom(parts, id, k)
    {
      var found := IndexOfId(parts[k], id);
      if found.Some? {
        loc := Some(Loc(k, found.value));
        return;
      }
      k := k + 1;
    }
  }

  datatype PostMeta = PostMeta(post: Post, postType: string, email: string)

  /**
   * `resolvePostMeta(postId)`: nothing for a blank or malformed id; otherwise
   * the document found first in search order, with its type defaulted to
   * that partition's type.
   */
  function ResolvePostMeta(parts: seq<seq<Post>>, postId: string): (m: Option<PostMeta>)
    ensures m.Some? <==> postId != "" && IsValid(postId) && Locate(parts, Parse(postId).value).Some?
    ensures m.Some? ==> var loc := Locate(parts, Parse(postId).value).value;
              && m.value.post == parts[loc.part][loc.index]
              && m.value.post.id == Parse(postId).value
              && m.value.postType == NormalizePostType(m.value.post.postType, Fallback(loc.part))
              && m.value.email == m.value.post.email
  {
    if postId == "" || !IsValid(postId) then None
    else
      match Locate(parts, Parse(postId).value)
      case Some(loc) =>
        var post := parts[loc.part][loc.index];
        Some(PostMeta(post, NormalizePostType(post.postType, Fallback(loc.part)), post.email))
      case None => None
  }

  /** The id spelling does not matter: an id and its canonical form resolve to the same document. */
  lemma ResolveIgnoresCase(parts: seq<seq<Post>>, postId: string)
    requires IsValid(postId)
    ensures ResolvePostMeta(parts, postId) == ResolvePostMeta(parts, Parse(postId).value)
  {
    ParseIdempotent(postId);
  }
}
