/**
 * The vote ledger and the toggle of POST /votes (index.js:1178-1231): a
 * voter's vote on a post is absent, or has one type; sending the same type
 * again withdraws it, a different type replaces it, and with no vote the
 * vote is added.
 *
 * A vote is identified by its (postId, userEmail) pair, its `Key`.
 * `findOne({ postId, userEmail })` finds the first vote in storage order
 * with that key; `Ledger` is the view of the ledger as a map from keys to
 * vote types, in which that first vote is the one that counts.
 */
module Votes {
  import opened Types
  import opened Seqs

  function Key(v: Vote): (string, string) {
    (v.postId, v.userEmail)
  }

  /** At most one vote per (postId, userEmail): the ledger's invariant. */
  predicate UniqueVotes(votes: seq<Vote>) {
    forall i, j :: 0 <= i < j < |votes| ==> Key(votes[i]) != Key(votes[j])
  }

  /** `voteCollection.findOne({ postId, userEmail })`: the first vote with that key. */
  function FindVote(votes: seq<Vote>, postId: string, email: string): (r: Option<nat>)
    ensures r.Some? ==> r.value < |votes| && Key(votes[r.value]) == (postId, email)
    ensures r.Some? ==> forall j :: 0 <= j < r.value ==> Key(votes[j]) != (postId, email)
    ensures r.None? ==> forall j :: 0 <= j < |votes| ==> Key(votes[j]) != (postId, email)
  {
    if votes == [] then None
    else if Key(votes[0]) == (postId, email) then Some(0)
    else
      match FindVote(votes[1..], postId, email)
      case Some(i) => Some(i + 1)
      case None => None
  }

  /** The ledger as a map from (postId, userEmail) to vote type; the first vote with a key wins. */
  function Ledger(votes: seq<Vote>): map<(string, string), string> {
    if votes == [] then map[]
    else Ledger(votes[1..])[Key(votes[0]) := votes[0].voteType]
  }

  /** What `findOne` sees is what the ledger map says. */
  lemma {:induction false} LedgerFind(votes: seq<Vote>, postId: string, email: string)
    ensures FindVote(votes, postId, email).Some? <==> (postId, email) in Ledger(votes)
    ensures FindVote(votes, postId, email).Some? ==>
              Ledger(votes)[(postId, email)] == votes[FindVote(votes, postId, email).value].voteType
  {
    if votes != [] && Key(votes[0]) != (postId, email) {
      LedgerFind(votes[1..], postId, email);
    }
  }

  /** The outcome of a toggle: the new ledger, and the `previousVote` and `voteType` of the broadcast. */
  datatype ToggleResult = ToggleResult(votes: seq<Vote>, previous: string, next: string)

  /**
   * The ledger update of POST /votes. `previous` is the existing vote's type
   * ("" when there is none); `next` is the type now held ("" when withdrawn).
   */
  function Toggle(votes: seq<Vote>, postId: string, email: string, voteType: string): ToggleResult {
    match FindVote(votes, postId, email)
    case None => ToggleResult(votes + [Vote(postId, email, voteType)], "", voteType)
    case Some(i) =>
      if votes[i].voteType == voteType then
        ToggleResult(votes[..i] + votes[i + 1..], votes[i].voteType, "")
      else
        ToggleResult(votes[i := votes[i].(voteType := voteType)], votes[i].voteType, voteType)
  }

  /** The reply of POST /votes, decided by the truthiness of the previous and next vote. */
  function VoteReply(previous: string, next: string): (r: Reply)
    ensures previous != "" && next == "" ==> r == Reply(200, "Vote removed")
    ensures previous != "" && next != "" ==> r == Reply(200, "Vote updated")
    ensures previous == "" ==> r == Reply(201, "Vote added")
  {
    if previous != "" && next == "" then Reply(200, "Vote removed")
    else if previous != "" && next != "" then Reply(200, "Vote updated")
    else Reply(201, "Vote added")
  }

  lemma {:induction false} LedgerAppend(votes: seq<Vote>, v: Vote)
    requires Key(v) !in Ledger(votes)
    ensures Ledger(votes + [v]) == Ledger(votes)[Key(v) := v.voteType]
  {
    if votes == [] {
      assert votes + [v] == [v];
    } else {
      assert (votes + [v])[1..] == votes[1..] + [v];
      assert Key(v) != Key(votes[0]);
      LedgerAppend(votes[1..], v);
    }
  }

  lemma {:induction false} LedgerUpdate(votes: seq<Vote>, i: nat, t: string)
    requires i < |votes| && FindVote(votes, votes[i].postId, votes[i].userEmail) == Some(i)
    ensures Ledger(votes[i := votes[i].(voteType := t)]) == Ledger(votes)[Key(votes[i]) := t]
  {
    var u := votes[i := votes[i].(voteType := t)];
    if i == 0 {
      assert u[1..] == votes[1..];
    } else {
      assert u[1..] == votes[1..][i - 1 := votes[i].(voteType := t)];
      LedgerUpdate(votes[1..], i - 1, t);
    }
  }

  lemma {:induction false} LedgerRemove(votes: seq<Vote>, i: nat)
    requires UniqueVotes(votes) && i < |votes|
    ensures Ledger(votes[..i] + votes[i + 1..]) == Ledger(votes) - {Key(votes[i])}
  {
    var rest := votes[1..];
    if i == 0 {
      assert votes[..0] + votes[1..] == rest;
      var k := Key(votes[0]);
      LedgerFind(rest, k.0, k.1);
      assert k !in Ledger(rest);
    } else {
      assert votes[..i] + votes[i + 1..] == [votes[0]] + (rest[..i - 1] + rest[i..]);
      TailUnique(votes);
      LedgerRemove(rest, i - 1);
      assert Key(votes[0]) != Key(votes[i]);
    }
  }

  /**
   * The three-way state machine in ledger terms: the same type withdraws
   * the vote, anything else sets it; no other voter's or post's vote
   * changes; the broadcast's previous vote is the one held before.
   */
  lemma ToggleLedger(votes: seq<Vote>, postId: string, email: string, voteType: string)
    requires UniqueVotes(votes)
    ensures var old_ := Ledger(votes);
            var r := Toggle(votes, postId, email, voteType);
            var k := (postId, email);
            && r.previous == (if k in old_ then old_[k] else "")
            && (k in old_ && old_[k] == voteType ==> Ledger(r.votes) == old_ - {k} && r.next == "")
            && (!(k in old_ && old_[k] == voteType) ==> Ledger(r.votes) == old_[k := voteType] && r.next == voteType)
  {
    LedgerFind(votes, postId, email);
    match FindVote(votes, postId, email)
    case None =>
      LedgerAppend(votes, Vote(postId, email, voteType));
    case Some(i) =>
      if votes[i].voteType == voteType {
        LedgerRemove(votes, i);
      } else {
        LedgerUpdate(votes, i, voteType);
      }
  }

  /** Deleting votes (`deleteMany`) keeps at most one vote per (postId, userEmail). */
  lemma {:induction false} FilterKeepsUnique(votes: seq<Vote>, keep: Vote -> bool)
    requires UniqueVotes(votes)
    ensures UniqueVotes(Filter(votes, keep))
  {
    if votes != [] {
      var tail := votes[1..];
      TailUnique(votes);
      FilterKeepsUnique(tail, keep);
      if keep(votes[0]) {
        var rest := Filter(tail, keep);
        FilterFacts(tail, keep);
        forall j | 0 <= j < |rest|
          ensures Key(rest[j]) != Key(votes[0])
        {
          var m :| 0 <= m < |tail| && tail[m] == rest[j];
          assert votes[m + 1] == rest[j];
        }
        ConsUnique(votes[0], rest);
      }
    }
  }

  lemma TailUnique(votes: seq<Vote>)
    requires UniqueVotes(votes) && votes != []
    ensures UniqueVotes(votes[1..])
  {
    var tail := votes[1..];
    forall i, j | 0 <= i < j < |tail|
      ensures Key(tail[i]) != Key(tail[j])
    {
      assert tail[i] == votes[i + 1] && tail[j] == votes[j + 1];
    }
  }

  lemma ConsUnique(v: Vote, rest: seq<Vote>)
    requires UniqueVotes(rest)
    requires forall j :: 0 <= j < |rest| ==> Key(rest[j]) != Key(v)
    ensures UniqueVotes([v] + rest)
  {
    var r := [v] + rest;
    forall i, j | 0 <= i < j < |r|
      ensures Key(r[i]) != Key(r[j])
    {
      assert r[j] == rest[j - 1];
      if i > 0 {
        assert r[i] == rest[i - 1];
      }
    }
  }

  /** Every toggle keeps at most one vote per (postId, userEmail). */
  lemma ToggleKeepsUnique(votes: seq<Vote>, postId: string, email: string, voteType: string)
    requires UniqueVotes(votes)
    ensures UniqueVotes(Toggle(votes, postId, email, voteType).votes)
  {
    var r := Toggle(votes, postId, email, voteType).votes;
    match FindVote(votes, postId, email)
    case None =>
    case Some(i) =>
      if votes[i].voteType == voteType {
        forall a, b | 0 <= a < b < |r|
          ensures Key(r[a]) != Key(r[b])
        {
          var a' := if a < i then a else a + 1;
          var b' := if b < i then b else b + 1;
          assert r[a] == votes[a'] && r[b] == votes[b'];
        }
      }
  }

  /** Voting twice with the same type from no vote leaves the ledger exactly as it was. */
  lemma ToggleTwiceRestores(votes: seq<Vote>, postId: string, email: string, voteType: string)
    requires FindVote(votes, postId, email).None?
    ensures var once := Toggle(votes, postId, email, voteType);
            && once.next == voteType
            && Toggle(once.votes, postId, email, voteType) == ToggleResult(votes, voteType, "")
  {
    var v := Vote(postId, email, voteType);
    var once := votes + [v];
    assert once[|votes|] == v;
    assert FindVote(once, postId, email) == Some(|votes|);
    assert once[..|votes|] + once[|votes| + 1..] == votes;
  }

  /** The votes of one type on one post: `countDocuments({ postId, voteType })`. */
  function Tally(votes: seq<Vote>, postId: string, voteType: string): (n: nat)
    ensures n <= |votes|
  {
    Count(votes, VotesOf(postId, voteType))
  }

  function VotesOf(postId: string, voteType: string): Vote -> bool {
    (v: Vote) => v.postId == postId && v.voteType == voteType
  }

  /**
   * A toggle moves a post's tallies by exactly the change it reports: the
   * type it withdraws loses one vote and the type it sets gains one.
   */
  lemma ToggleTally(votes: seq<Vote>, postId: string, email: string, voteType: string, t: string)
    requires t != ""
    ensures var r := Toggle(votes, postId, email, voteType);
            Tally(r.votes, postId, t) + (if r.previous == t then 1 else 0)
              == Tally(votes, postId, t) + (if r.next == t then 1 else 0)
  {
    var keep := VotesOf(postId, t);
    match FindVote(votes, postId, email)
    case None =>
      FilterConcat(votes, [Vote(postId, email, voteType)], keep);
    case Some(i) =>
      CountSplit(votes, i, keep);
      if votes[i].voteType == voteType {
        var r := votes[..i] + votes[i + 1..];
        FilterConcat(votes[..i], votes[i + 1..], keep);
      } else {
        var r := votes[i := votes[i].(voteType := voteType)];
        CountSplit(r, i, keep);
        assert r[..i] == votes[..i] && r[i + 1..] == votes[i + 1..];
      }
  }
}
