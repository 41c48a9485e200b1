/**
 * The request-parameter helpers of the backend (index.js:158-246):
 * `parseIdsParam`, `normalizePostType`, `parsePagination` and
 * `buildPaginatedResponse`.
 *
 * Query-string values reach the handlers as strings, as arrays (a repeated
 * key) or not at all; `QueryValue` keeps exactly the distinction the
 * helpers draw. `Number(...)` and `new Date(...)` are inputs here: the
 * caller supplies their results (`JsNumber`, `CursorArg.time`).
 */
module Params {
  import opened Types
  import opened Seqs
  import opened Text

  datatype QueryValue = Missing | Text(s: string) | NotText

  predicate NonBlank(s: string) {
    s != ""
  }

  /** `parts.map((id) => id.trim()).filter(Boolean)` */
  function TrimmedPieces(parts: seq<string>): seq<string> {
    Filter(MapSeq(parts, Trim), NonBlank)
  }

  /** The pieces are the non-blank trimmed parts, each already trimmed, and all of them. */
  lemma TrimmedPiecesFacts(parts: seq<string>)
    ensures var r := TrimmedPieces(parts);
            && (forall i :: 0 <= i < |r| ==> r[i] != "" && Trim(r[i]) == r[i])
            && (forall i :: 0 <= i < |r| ==> exists k :: 0 <= k < |parts| && Trim(parts[k]) == r[i])
            && (forall k :: 0 <= k < |parts| && Trim(parts[k]) != "" ==> Trim(parts[k]) in r)
  {
    var trimmed := MapSeq(parts, Trim);
    var r := Filter(trimmed, NonBlank);
    FilterFacts(trimmed, NonBlank);
    forall i | 0 <= i < |r|
      ensures r[i] != "" && Trim(r[i]) == r[i]
      ensures exists k :: 0 <= k < |parts| && Trim(parts[k]) == r[i]
    {
      assert r[i] in trimmed;
      var k :| 0 <= k < |trimmed| && trimmed[k] == r[i];
      assert Trim(parts[k]) == r[i];
      TrimIdempotent(parts[k]);
    }
    forall k | 0 <= k < |parts| && Trim(parts[k]) != ""
      ensures Trim(parts[k]) in r
    {
      assert trimmed[k] == Trim(parts[k]);
      assert NonBlank(trimmed[k]);
    }
  }

  /**
   * `parseIdsParam(rawIds)`: a non-empty string is split on commas, each piece
   * trimmed, blank pieces dropped and repeats removed (first occurrence kept);
   * anything else gives no ids.
   */
  function ParseIdsParam(raw: QueryValue): (ids: seq<string>)
    ensures !raw.Text? ==> ids == []
    ensures NoDuplicates(ids)
    ensures forall i :: 0 <= i < |ids| ==> ids[i] != "" && Trim(ids[i]) == ids[i] && ',' !in ids[i]
    ensures raw.Text? ==> forall i :: 0 <= i < |ids| ==>
              exists k :: 0 <= k < |Split(raw.s, ',')| && Trim(Split(raw.s, ',')[k]) == ids[i]
    ensures raw.Text? ==> forall k :: 0 <= k < |Split(raw.s, ',')| && Trim(Split(raw.s, ',')[k]) != "" ==>
              Trim(Split(raw.s, ',')[k]) in ids
    ensures raw.Text? ==> forall i, j :: 0 <= i < j < |ids| ==>
              FirstIndex(TrimmedPieces(Split(raw.s, ',')), ids[i]) < FirstIndex(TrimmedPieces(Split(raw.s, ',')), ids[j])
  {
    match raw
    case Text(s) =>
      if s == [] then []
      else
        TrimmedPiecesFacts(Split(s, ','));
        NoCommaInPieces(Split(s, ','));
        DedupeFirstOrder(TrimmedPieces(Split(s, ',')));
        Dedupe(TrimmedPieces(Split(s, ',')))
    case _ => []
  }

  lemma NoCommaInPieces(parts: seq<string>)
    requires forall k :: 0 <= k < |parts| ==> ',' !in parts[k]
    ensures forall i :: 0 <= i < |TrimmedPieces(parts)| ==> ',' !in TrimmedPieces(parts)[i]
  {
    var pieces := TrimmedPieces(parts);
    TrimmedPiecesFacts(parts);
    forall i | 0 <= i < |pieces|
      ensures ',' !in pieces[i]
    {
      var k :| 0 <= k < |parts| && Trim(parts[k]) == pieces[i];
      TrimChars(parts[k]);
    }
  }

  /**
   * `normalizePostType(post, fallback)`: the stored type when set, else the
   * fallback. A stored type is never overwritten, and with a non-empty
   * fallback every item ends up typed.
   */
  function NormalizePostType(postType: string, fallback: string): (t: string)
    ensures t == postType || t == fallback
    ensures postType != "" ==> t == postType
    ensures fallback != "" ==> t != ""
  {
    if postType != "" then postType else fallback
  }

  /** Normalizing an already normalized type, with any fallback, changes nothing once it is set. */
  lemma NormalizeIdempotent(postType: string, fallback: string, other: string)
    ensures NormalizePostType(NormalizePostType(postType, fallback), fallback) == NormalizePostType(postType, fallback)
    ensures NormalizePostType(postType, fallback) != "" ==>
              NormalizePostType(NormalizePostType(postType, fallback), other) == NormalizePostType(postType, fallback)
  {
  }

  /** The outcome of `Number(query.limit)`, reduced to the cases the clamp distinguishes. */
  datatype JsNumber = NotFinite | Finite(n: int)

  /**
   * A `cursor` query value: the raw text and the millisecond time that
   * `new Date(raw)` denotes, or None when that date is invalid.
   */
  datatype CursorArg = CursorArg(raw: string, time: Option<int>)

  /** The pagination-related query fields; None stands for an absent key. */
  datatype PageQuery = PageQuery(limit: Option<JsNumber>, cursor: Option<CursorArg>, feedType: Option<string>)

  datatype Pagination = Pagination(paginated: bool, limit: nat, cursor: Option<int>, feedType: string)

  /** `parsePagination(query)` */
  function ParsePagination(q: PageQuery): (p: Pagination)
    ensures p.paginated <==> q.limit.Some? || q.cursor.Some? || q.feedType.Some?
    ensures 1 <= p.limit <= 50
    ensures (q.limit.None? || q.limit.value.NotFinite?) ==> p.limit == 20
    ensures q.limit.Some? && q.limit.value.Finite? ==>
              var n := q.limit.value.n;
              (1 <= n <= 50 ==> p.limit == n) && (n < 1 ==> p.limit == 1) && (n > 50 ==> p.limit == 50)
    ensures p.cursor.Some? <==> q.cursor.Some? && q.cursor.value.raw != "" && q.cursor.value.time.Some?
    ensures p.cursor.Some? ==> p.cursor.value == q.cursor.value.time.value
    ensures p.feedType in {"teacher", "admin", "all"}
    ensures q.feedType == Some("teacher") || q.feedType == Some("admin") ==> p.feedType == q.feedType.value
    ensures q.feedType != Some("teacher") && q.feedType != Some("admin") ==> p.feedType == "all"
    ensures q.feedType.Some? && q.feedType.value in {"teacher", "admin"} ==> p.feedType == q.feedType.value
    ensures (q.feedType.None? || q.feedType.value !in {"teacher", "admin"}) ==> p.feedType == "all"
  {
    var paginated := q.limit.Some? || q.cursor.Some? || q.feedType.Some?;
    var limit :=
      match q.limit
      case Some(Finite(n)) => if n > 50 then 50 else if n < 1 then 1 else n
      case _ => 20;
    var cursor :=
      match q.cursor
      case Some(CursorArg(raw, time)) => if raw != "" then time else None
      case None => None;
    var feedType :=
      if q.feedType == Some("teacher") || q.feedType == Some("admin") then q.feedType.value else "all";
    Pagination(paginated, limit, cursor, feedType)
  }

  /** The clamp is idempotent: sending back the limit that was applied changes nothing. */
  lemma ParsePaginationLimitStable(q: PageQuery)
    ensures ParsePagination(q.(limit := Some(Finite(ParsePagination(q).limit)))).limit == ParsePagination(q).limit
  {
  }

  datatype PageResponse<T> = PageResponse(items: seq<T>, nextCursor: Option<nat>)

  /**
   * `buildPaginatedResponse(items, limit)`: the next cursor is the creation
   * time of the last item, offered only when the page came back full and that
   * item has a creation time.
   */
  function BuildPaginatedResponse<T>(items: seq<T>, limit: int, createdAt: T -> Option<nat>): (r: PageResponse<T>)
    ensures r.items == items
    ensures r.nextCursor.Some? <==> |items| == limit && |items| > 0 && createdAt(items[|items| - 1]).Some?
    ensures r.nextCursor.Some? ==> r.nextCursor.value == createdAt(items[|items| - 1]).value
  {
    if |items| == limit && |items| > 0 && createdAt(items[|items| - 1]).Some? then
      PageResponse(items, createdAt(items[|items| - 1]))
    else
      PageResponse(items, None)
  }

  /** The filter a cursor puts on the next request: `createdAt < cursor`. */
  predicate CreatedBefore(cursor: Option<int>, createdAt: Option<nat>) {
    cursor.None? || (createdAt.Some? && createdAt.value < cursor.value)
  }

  /**
   * Following the next cursor never returns an item of the current page again:
   * on a page ordered newest first (a missing time counting as 0), no item
   * passes the `createdAt < nextCursor` filter of the following request.
   */
  lemma {:induction false} NextCursorSkipsPage<T>(items: seq<T>, limit: int, createdAt: T -> Option<nat>)
    requires forall i, j :: 0 <= i < j < |items| ==> createdAt(items[i]).GetOr(0) >= createdAt(items[j]).GetOr(0)
    ensures var r := BuildPaginatedResponse(items, limit, createdAt);
            r.nextCursor.Some? ==> forall i :: 0 <= i < |items| ==> !CreatedBefore(Some(r.nextCursor.value as int), createdAt(items[i]))
  {
    var r := BuildPaginatedResponse(items, limit, createdAt);
    if r.nextCursor.Some? {
      var last := |items| - 1;
      forall i | 0 <= i < |items|
        ensures !CreatedBefore(Some(r.nextCursor.value as int), createdAt(items[i]))
      {
        if i < last {
          assert createdAt(items[i]).GetOr(0) >= createdAt(items[last]).GetOr(0);
        }
      }
    }
  }
}
