/**
 * Realtime delivery: the room names, the rooms each kind of event is sent
 * to (index.js:272-280, index.js:1214-1223), the handshake token
 * (index.js:45-61) and the room-membership rules of a socket
 * (index.js:299-335).
 *
 * A `Broadcast` is one `emit`: every socket in at least one of its rooms
 * receives it once. Two emits reach a socket in both rooms twice.
 */
module Realtime {
  import opened Types
  import opened Text
  import opened Partitions

  function FeedRoom(feedType: string): string {
    "feed:" + feedType
  }

  function UserRoom(email: string): string {
    "user:" + email
  }

  function PostRoom(postId: string): string {
    "post:" + postId
  }

  /**
   * `emitFeedEvent(event, payload, postType)`: a teacher or admin item is
   * first emitted to its type's room, and every item to `feed:all`, as a
   * separate emit.
   */
  function EmitFeedEvent(event: string, payload: Payload, postType: string): (r: seq<Broadcast>)
    ensures |r| >= 1 && r[|r| - 1] == Broadcast(event, {FeedRoom("all")}, payload)
    ensures |r| == 2 <==> postType in {"teacher", "admin"}
    ensures |r| == 2 ==> r[0] == Broadcast(event, {FeedRoom(postType)}, payload)
  {
    if postType == "teacher" || postType == "admin" then
      [Broadcast(event, {FeedRoom(postType)}, payload), Broadcast(event, {FeedRoom("all")}, payload)]
    else
      [Broadcast(event, {FeedRoom("all")}, payload)]
  }

  /**
   * The rooms of `vote:changed`: `feed:all`, the post's type room when it is
   * a teacher or admin post, and the post owner's room when the owner is
   * known. All of them in one emit.
   */
  function VoteRooms(meta: Option<PostMeta>): (rooms: set<string>)
    ensures FeedRoom("all") in rooms
    ensures FeedRoom("teacher") in rooms <==> meta.Some? && meta.value.postType == "teacher"
    ensures FeedRoom("admin") in rooms <==> meta.Some? && meta.value.postType == "admin"
    ensures forall e :: UserRoom(e) in rooms <==> meta.Some? && meta.value.email != "" && e == meta.value.email
    ensures |rooms| <= 3
  {
    var typeRooms :=
      if meta.Some? && meta.value.postType == "teacher" then {FeedRoom("teacher")}
      else if meta.Some? && meta.value.postType == "admin" then {FeedRoom("admin")}
      else {};
    var ownerRooms := if meta.Some? && meta.value.email != "" then {UserRoom(meta.value.email)} else {};
    RoomNamesDistinct(meta);
    {FeedRoom("all")} + typeRooms + ownerRooms
  }

  lemma RoomNamesDistinct(meta: Option<PostMeta>)
    ensures forall e :: UserRoom(e) != FeedRoom("all") && UserRoom(e) != FeedRoom("teacher") && UserRoom(e) != FeedRoom("admin")
    ensures forall e, e' :: UserRoom(e) == UserRoom(e') ==> e == e'
  {
    forall e
      ensures UserRoom(e) != FeedRoom("all") && UserRoom(e) != FeedRoom("teacher") && UserRoom(e) != FeedRoom("admin")
    {
      assert UserRoom(e)[0] == 'u';
    }
    forall e, e' | UserRoom(e) == UserRoom(e')
      ensures e == e'
    {
      assert e == UserRoom(e)[5..];
    }
  }

  /** How many of the emits reach a socket that is in `joined`. */
  function Deliveries(emits: seq<Broadcast>, joined: set<string>): (n: nat)
    ensures n <= |emits|
  {
    if emits == [] then 0
    else (if emits[0].rooms * joined != {} then 1 else 0) + Deliveries(emits[1..], joined)
  }

  /**
   * A socket subscribed to both `feed:all` and `feed:teacher` receives a
   * teacher post's feed event twice but a vote on it once: feed events are
   * separate emits, the vote a single emit to the union of rooms.
   */
  lemma FeedEventTwiceVoteOnce(event: string, payload: Payload, vote: Payload, meta: PostMeta)
    requires meta.postType == "teacher"
    ensures Deliveries(EmitFeedEvent(event, payload, "teacher"), {FeedRoom("all"), FeedRoom("teacher")}) == 2
    ensures Deliveries([Broadcast("vote:changed", VoteRooms(Some(meta)), vote)], {FeedRoom("all"), FeedRoom("teacher")}) == 1
  {
    var joined := {FeedRoom("all"), FeedRoom("teacher")};
    var emits := EmitFeedEvent(event, payload, "teacher");
    assert FeedRoom("teacher") in emits[0].rooms * joined;
    assert FeedRoom("all") in emits[1].rooms * joined;
    assert emits[1..][1..] == [];
    var v := [Broadcast("vote:changed", VoteRooms(Some(meta)), vote)];
    assert FeedRoom("all") in v[0].rooms * joined;
    assert v[1..] == [];
  }

  /** A general post's feed event reaches only `feed:all` subscribers. */
  lemma GeneralOnlyAll(event: string, payload: Payload, joined: set<string>)
    ensures Deliveries(EmitFeedEvent(event, payload, "general"), joined) == (if FeedRoom("all") in joined then 1 else 0)
  {
    var emits := EmitFeedEvent(event, payload, "general");
    assert emits[1..] == [];
    if FeedRoom("all") in joined {
      assert FeedRoom("all") in emits[0].rooms * joined;
    } else {
      assert emits[0].rooms * joined == {};
    }
  }

  /** A socket-event argument: a string, or any other JSON value. */
  datatype SocketArg = Str(s: string) | NotStr

  /** `feed:subscribe` / `feed:unsubscribe` accept exactly "all", "teacher" and "admin". */
  predicate FeedTypeAccepted(arg: SocketArg) {
    arg.Str? && arg.s in {"all", "teacher", "admin"}
  }

  /** `post:join` / `post:leave` accept a string that is not blank. */
  predicate PostIdAccepted(arg: SocketArg) {
    arg.Str? && Trim(arg.s) != ""
  }

  /** Every room name a socket can be in. */
  predicate IsRoom(r: string) {
    || (StartsWith(r, "user:") && |r| > 5)
    || r in {FeedRoom("all"), FeedRoom("teacher"), FeedRoom("admin")}
    || (StartsWith(r, "post:") && Trim(r[5..]) != "")
  }

  /**
   * `socket.handshake.auth.token || authorization.replace(/^Bearer\s+/i, "")`:
   * the auth token when present, otherwise the authorization header with a
   * leading "Bearer" (any case) and the whitespace after it removed.
   */
  function HandshakeToken(authToken: string, authorization: string): string {
    if authToken != "" then authToken
    else if |authorization| > 6 && LowerAscii(authorization[..6]) == "bearer" && IsJsWhitespace(authorization[6]) then
      TrimStart(authorization[6..])
    else authorization
  }

  function LowerAscii(s: string): (r: string)
    ensures |r| == |s|
  {
    if s == [] then []
    else [if 'A' <= s[0] <= 'Z' then (s[0] as int + 32) as char else s[0]] + LowerAscii(s[1..])
  }

  /** Bearer tokens survive the handshake whatever the case of the scheme name. */
  lemma HandshakeBearer(t: string)
    requires t != [] && !IsJsWhitespace(t[0])
    ensures HandshakeToken("", "Bearer " + t) == t
    ensures HandshakeToken("", "BEARER " + t) == t
    ensures HandshakeToken(t, "Bearer other") == t
  {
    var h := "Bearer " + t;
    assert h[6..] == [' '] + t;
    TrimStartFacts([' '] + t);
    TrimStartWhitespaceThen(t);
    var h2 := "BEARER " + t;
    assert h2[..6] == "BEARER" && h2[6..] == [' '] + t;
    assert LowerAscii("BEARER") == "bearer";
    assert LowerAscii("Bearer") == "bearer";
    assert h[..6] == "Bearer";
  }

  lemma TrimStartWhitespaceThen(t: string)
    requires t != [] && !IsJsWhitespace(t[0])
    ensures TrimStart([' '] + t) == t
  {
    assert IsJsWhitespace(' ');
    assert ([' '] + t)[1..] == t;
  }

  /** The handshake admits a socket only with a token; the verified token's email names its user room. */
  datatype Handshake = Unauthorized | Admitted(email: string)

  function SocketAuth(authToken: string, authorization: string, verified: Option<string>): Handshake {
    if HandshakeToken(authToken, authorization) == "" then Unauthorized
    else
      match verified
      case None => Unauthorized
      case Some(email) => Admitted(email)
  }

  /**
   * No handshake token refuses the connection before the token is
   * verified, so no session is built; a socket is admitted exactly when a
   * token was sent and verified, under the verified email; an auth token
   * takes precedence over the header; and a bare "Bearer " header carries
   * no token.
   */
  lemma SocketAuthFacts(authToken: string, authorization: string, verified: Option<string>, header2: string)
    ensures HandshakeToken(authToken, authorization) == "" ==> SocketAuth(authToken, authorization, verified) == Unauthorized
    ensures SocketAuth(authToken, authorization, verified).Admitted? <==> HandshakeToken(authToken, authorization) != "" && verified.Some?
    ensures SocketAuth(authToken, authorization, verified).Admitted? ==> SocketAuth(authToken, authorization, verified).email == verified.value
    ensures authToken != "" ==> SocketAuth(authToken, authorization, verified) == SocketAuth(authToken, header2, verified)
    ensures SocketAuth("", "", verified) == Unauthorized
    ensures SocketAuth("", "Bearer ", verified) == Unauthorized
  {
    var h := "Bearer ";
    assert h[..6] == "Bearer" && h[6..] == [' '];
    assert LowerAscii("Bearer") == "bearer";
    assert IsJsWhitespace(' ');
    TrimStartFacts([' ']);
    assert TrimStart([' ']) == [];
  }

  /** The rooms of one connected socket. */
  class SocketSession {
    var rooms: set<string>

    ghost predicate Valid()
      reads this
    {
      forall r :: r in rooms ==> IsRoom(r)
    }

    /** On connection a socket joins its user's room when the token carried an email. */
    constructor(email: string)
      ensures rooms == (if email != "" then {UserRoom(email)} else {})
      ensures Valid()
    {
      rooms := if email != "" then {UserRoom(email)} else {};
      assert UserRoom(email)[..5] == "user:";
    }

    /** `feed:subscribe` */
    method Subscribe(arg: SocketArg)
      requires Valid()
      modifies this
      ensures Valid()
      ensures FeedTypeAccepted(arg) ==> rooms == old(rooms) + {FeedRoom(arg.s)}
      ensures !FeedTypeAccepted(arg) ==> rooms == old(rooms)
    {
      if FeedTypeAccepted(arg) {
        rooms := rooms + {FeedRoom(arg.s)};
      }
    }

    /** `feed:unsubscribe` */
    method Unsubscribe(arg: SocketArg)
      requires Valid()
      modifies this
      ensures Valid()
      ensures FeedTypeAccepted(arg) ==> rooms == old(rooms) - {FeedRoom(arg.s)}
      ensures !FeedTypeAccepted(arg) ==> rooms == old(rooms)
    {
      if FeedTypeAccepted(arg) {
        rooms := rooms - {FeedRoom(arg.s)};
      }
    }

    /** `post:join`: the room is named after the id as sent, untrimmed. */
    method JoinPost(arg: SocketArg)
      requires Valid()
      modifies this
      ensures Valid()
      ensures PostIdAccepted(arg) ==> rooms == old(rooms) + {PostRoom(arg.s)}
      ensures !PostIdAccepted(arg) ==> rooms == old(rooms)
    {
      if PostIdAccepted(arg) {
        assert PostRoom(arg.s)[..5] == "post:" && PostRoom(arg.s)[5..] == arg.s;
        rooms := rooms + {PostRoom(arg.s)};
      }
    }

    /** `post:leave` */
    method LeavePost(arg: SocketArg)
      requires Valid()
      modifies this
      ensures Valid()
      ensures PostIdAccepted(arg) ==> rooms == old(rooms) - {PostRoom(arg.s)}
      ensures !PostIdAccepted(arg) ==> rooms == old(rooms)
    {
      if PostIdAccepted(arg) {
        rooms := rooms - {PostRoom(arg.s)};
      }
    }
  }

  /** Subscribing and unsubscribing the same feed leaves a socket that was not in it as it was. */
  method SubscribeThenUnsubscribe(s: SocketSession, feedType: string)
    requires s.Valid() && FeedRoom(feedType) !in s.rooms
    modifies s
    ensures s.Valid() && s.rooms == old(s.rooms)
  {
    s.Subscribe(Str(feedType));
    s.Unsubscribe(Str(feedType));
  }
}
