/** Majority voting and the early stop of a vote wave. */
module Voting {
  import opened Rows

  datatype Vote = NotVoted | Agree | Disagree | Timeout | DeterministicViolation | Idle

  datatype Receipt = Receipt(validator: Address, vote: Vote)

  datatype ConsensusResult = MajorityAgree | MajorityDisagree | TimedOut | NoMajority

  function Count(v: Vote, votes: seq<Vote>): nat {
    if votes == [] then 0
    else (if votes[0] == v then 1 else 0) + Count(v, votes[1..])
  }

  /** The votes that the tally puts behind each of its three majority results; a deterministic
      violation stands behind none. */
  function Support(r: ConsensusResult, votes: seq<Vote>): nat {
    match r
    case MajorityAgree => Count(Agree, votes)
    case MajorityDisagree => Count(Disagree, votes) + Count(Idle, votes)
    case TimedOut => Count(Timeout, votes)
    case NoMajority => 0
  }

  function DetermineConsensus(votes: seq<Vote>): ConsensusResult {
    var total := |votes|;
    var effectiveDisagree := Count(Disagree, votes) + Count(Idle, votes);
    if 2 * Count(Agree, votes) > total then MajorityAgree
    else if 2 * effectiveDisagree > total then MajorityDisagree
    else if 2 * Count(Timeout, votes) > total then TimedOut
    else NoMajority
  }

  function Repeat(v: Vote, n: nat): (s: seq<Vote>)
    ensures |s| == n
  {
    seq(n, _ => v)
  }

  const UniformVotes: set<Vote> := {Agree, Disagree, Timeout, Idle}

  /** The check run after each batch of finished validators: the pending slots are filled with one
      uniform vote, for each of four votes, and the wave stops when the four results coincide. */
  predicate IsQuorumReached(votesSoFar: seq<Vote>, total: nat) {
    var pending := total - |votesSoFar|;
    if pending < 0 then false
    else
      var outcomes := set v | v in UniformVotes :: DetermineConsensus(votesSoFar + Repeat(v, pending));
      |outcomes| == 1 && NoMajority !in outcomes
  }

  lemma {:induction false} CountOfConcat(v: Vote, a: seq<Vote>, b: seq<Vote>)
    ensures Count(v, a + b) == Count(v, a) + Count(v, b)
  {
    if a == [] {
      assert a + b == b;
    } else {
      CountOfConcat(v, a[1..], b);
      assert (a + b)[1..] == a[1..] + b;
    }
  }

  lemma {:induction false} CountOfRepeat(v: Vote, w: Vote, n: nat)
    ensures Count(v, Repeat(w, n)) == if v == w then n else 0
  {
    if n > 0 {
      assert Repeat(w, n)[1..] == Repeat(w, n - 1);
      CountOfRepeat(v, w, n - 1);
    }
  }

  lemma {:induction false} CountIsMultiplicity(v: Vote, votes: seq<Vote>)
    ensures Count(v, votes) == multiset(votes)[v]
  {
    if votes != [] {
      CountIsMultiplicity(v, votes[1..]);
      assert votes == [votes[0]] + votes[1..];
    }
  }

  /** No vote stands behind two results. */
  lemma {:induction false} SupportIsDisjoint(votes: seq<Vote>)
    ensures Count(Agree, votes) + Count(Disagree, votes) + Count(Idle, votes) + Count(Timeout, votes) <= |votes|
  {
    if votes != [] {
      SupportIsDisjoint(votes[1..]);
    }
  }

  /** Every majority result is exactly a strict majority of the whole committee, whatever the order
      in which the tally tests the candidates. */
  lemma MajorityIsMoreThanHalf(votes: seq<Vote>, r: ConsensusResult)
    ensures r != NoMajority ==> (DetermineConsensus(votes) == r <==> 2 * Support(r, votes) > |votes|)
    ensures DetermineConsensus(votes) == MajorityAgree <==> 2 * Count(Agree, votes) > |votes|
    ensures DetermineConsensus(votes) == MajorityDisagree <==>
      2 * (Count(Disagree, votes) + Count(Idle, votes)) > |votes|
    ensures DetermineConsensus(votes) == TimedOut <==> 2 * Count(Timeout, votes) > |votes|
  {
    SupportIsDisjoint(votes);
  }

  /** Only how often each vote occurs matters, not which validator cast it. */
  lemma ConsensusIgnoresOrder(a: seq<Vote>, b: seq<Vote>)
    requires multiset(a) == multiset(b)
    ensures DetermineConsensus(a) == DetermineConsensus(b)
  {
    forall v: Vote ensures Count(v, a) == Count(v, b) {
      CountIsMultiplicity(v, a);
      CountIsMultiplicity(v, b);
    }
    assert |multiset(a)| == |a| && |multiset(b)| == |b|;
  }

  /** A result that already has its majority keeps it under every completion. */
  lemma MajoritySurvives(votes: seq<Vote>, more: seq<Vote>, r: ConsensusResult)
    requires r != NoMajority && 2 * Support(r, votes) > |votes| + |more|
    ensures DetermineConsensus(votes + more) == r
  {
    forall v: Vote ensures Count(v, votes + more) == Count(v, votes) + Count(v, more) {
      CountOfConcat(v, votes, more);
    }
    MajorityIsMoreThanHalf(votes + more, r);
  }

  /** If the four uniform fillings agree on a majority, it is carried by the votes already cast. */
  lemma QuorumIsAlreadyCarried(votes: seq<Vote>, total: nat) returns (r: ConsensusResult)
    requires IsQuorumReached(votes, total)
    ensures r != NoMajority && 2 * Support(r, votes) > total
  {
    var pending := total - |votes|;
    var outcomes := set v | v in UniformVotes :: DetermineConsensus(votes + Repeat(v, pending));
    r :| r in outcomes;
    forall v | v in UniformVotes ensures DetermineConsensus(votes + Repeat(v, pending)) == r {
      assert |outcomes - {r}| == 0;
      assert DetermineConsensus(votes + Repeat(v, pending)) in outcomes;
    }
    // A filling that adds nothing to r's support still gives r.
    var w := if r == MajorityAgree then Timeout else Agree;
    forall v: Vote ensures Count(v, votes + Repeat(w, pending)) == Count(v, votes) + if v == w then pending else 0 {
      CountOfConcat(v, votes, Repeat(w, pending));
      CountOfRepeat(v, w, pending);
    }
    assert w in UniformVotes;
    MajorityIsMoreThanHalf(votes + Repeat(w, pending), r);
  }

  /** When a wave stops early, every way the cancelled slots could have voted, deterministic
      violations and mixtures included, gives the result that filling them with Idle gives. */
  lemma EarlyStopIsExact(votes: seq<Vote>, total: nat, completion: seq<Vote>)
    requires IsQuorumReached(votes, total)
    requires |votes| + |completion| == total
    ensures DetermineConsensus(votes + completion) == DetermineConsensus(votes + Repeat(Idle, total - |votes|))
    ensures DetermineConsensus(votes + completion) != NoMajority
  {
    var r := QuorumIsAlreadyCarried(votes, total);
    MajoritySurvives(votes, completion, r);
    MajoritySurvives(votes, Repeat(Idle, total - |votes|), r);
  }

  ghost predicate Decided(votes: seq<Vote>, total: nat, r: ConsensusResult)
    requires |votes| <= total
  {
    forall completion: seq<Vote> | |completion| == total - |votes| :: DetermineConsensus(votes + completion) == r
  }

  /** The four uniform probes stop a wave exactly when its outcome can no longer change. */
  lemma QuorumIffDecided(votes: seq<Vote>, total: nat)
    requires |votes| <= total
    ensures IsQuorumReached(votes, total) <==> exists r :: r != NoMajority && Decided(votes, total, r)
  {
    var pending := total - |votes|;
    if IsQuorumReached(votes, total) {
      var r := QuorumIsAlreadyCarried(votes, total);
      forall completion: seq<Vote> | |completion| == pending ensures DetermineConsensus(votes + completion) == r {
        MajoritySurvives(votes, completion, r);
      }
      assert Decided(votes, total, r);
    }
    if r :| r != NoMajority && Decided(votes, total, r) {
      var outcomes := set v | v in UniformVotes :: DetermineConsensus(votes + Repeat(v, pending));
      assert DetermineConsensus(votes + Repeat(Agree, pending)) in outcomes;
      assert outcomes == {r};
    }
  }
}
