/** How the committee of a validator appeal grows from one failed appeal to the next. */
module AppealCommittee {
  import opened Wrappers
  import opened Rows
  import opened Sequences
  import opened Voting

  // ---- Python slices: a negative index counts from the end ------------------------------------

  function Index(length: nat, i: int): nat {
    if i < 0 then (if length + i < 0 then 0 else length + i) else if i > length then length else i
  }

  function UpTo<T>(s: seq<T>, i: int): seq<T> {
    s[..Index(|s|, i)]
  }

  function From<T>(s: seq<T>, i: int): seq<T> {
    s[Index(|s|, i)..]
  }

  // ---- Choosing the committee ----------------------------------------------------------------

  function Addresses(receipts: seq<Receipt>): (r: seq<Address>)
    ensures |r| == |receipts| && forall i :: 0 <= i < |r| ==> r[i] == receipts[i].validator
  {
    seq(|receipts|, i requires 0 <= i < |receipts| => receipts[i].validator)
  }

  /** The stored validators that are still registered, in stored order and each only once. */
  function Current(registered: set<Address>, stored: seq<Address>): seq<Address> {
    if stored == [] then []
    else if stored[0] in registered then [stored[0]] + Current(registered - {stored[0]}, stored[1..])
    else Current(registered, stored[1..])
  }

  lemma {:induction false} AllRegisteredAreCurrent(registered: set<Address>, stored: seq<Address>)
    requires Distinct(stored) && Elements(stored) <= registered
    ensures Current(registered, stored) == stored
  {
    if stored != [] {
      assert forall a :: a in stored[1..] ==> a in registered - {stored[0]};
      AllRegisteredAreCurrent(registered - {stored[0]}, stored[1..]);
    }
  }

  function Unused(registered: set<Address>, stored: seq<Address>, leaders: set<Address>): set<Address> {
    registered - Elements(stored) - leaders
  }

  /** Any weighted draw without replacement: as many distinct nodes as asked for, or all of them. */
  predicate Draw(nodes: set<Address>, wanted: int, drawn: seq<Address>) {
    && wanted >= 0 && Distinct(drawn) && Elements(drawn) <= nodes
    && |drawn| == if wanted < |nodes| then wanted else |nodes|
  }

  /** The initial committee size as `get_extra_validators` recovers it from the stored validators. */
  function RecoveredByDivision(current: nat, failed: nat): int {
    if failed == 0 then current + 1
    else if failed == 1 then (current + 1 - 2) / 2
    else (current + 1 - 3) / (2 * failed - 1)
  }

  function Wanted(current: nat, failed: nat): int {
    var n := RecoveredByDivision(current, failed);
    if failed == 0 then n + 2 else if failed == 1 then n + 1 else 2 * n
  }

  datatype Selection = Selection(current: seq<Address>, extra: seq<Address>)

  datatype Error = NoValidatorsFound | NegativeSample

  /** The committee of the next appeal; a negative sample size makes the draw itself fail. */
  function ExtraValidators(registered: set<Address>, stored: seq<Address>, leaders: set<Address>, failed: nat,
                           drawn: seq<Address>)
    : Result<Selection, Error>
  {
    var current := Current(registered, stored);
    var n := RecoveredByDivision(|current|, failed);
    if Unused(registered, stored, leaders) == {} then Err(NoValidatorsFound)
    else if Wanted(|current|, failed) < 0 then Err(NegativeSample)
    else if failed == 0 then Ok(Selection(current, drawn))
    else Ok(Selection(current, From(current, n - 1) + drawn))
  }

  // ---- Merging the results -------------------------------------------------------------------

  /** The initial committee size as `merge_appeal_validators` recovers it. */
  function RecoveredBySubtraction(existing: nat, results: nat, failed: nat): int {
    if failed == 1 then (existing - 1) / 2 else results - (existing + 1)
  }

  function MergeValidators(existing: seq<Receipt>, results: seq<Receipt>, failed: nat): seq<Receipt> {
    if failed == 0 then existing + results
    else UpTo(existing, RecoveredBySubtraction(|existing|, |results|, failed) - 1) + results
  }

  function MergeVotes(existing: map<Address, Vote>, current: map<Address, Vote>): map<Address, Vote> {
    existing + current
  }

  // ---- One failed appeal ---------------------------------------------------------------------

  /** Every slot of the committee answered: no slot was replaced. */
  predicate Answers(committee: seq<Address>, results: seq<Receipt>) {
    Addresses(results) == committee
  }

  function Length(n: nat, failed: nat): int {
    if failed == 0 then n - 1 else if failed == 1 then 2 * n + 1 else (2 * failed - 1) * n + 2
  }

  lemma TimesIsMonotone(a: int, b: int, m: nat)
    requires a <= b
    ensures a * m <= b * m
  {
    assert (b - a) * m >= 0;
  }

  lemma QuotientIs(a: int, d: nat, q: int)
    requires d > 0 && d * q <= a < d * q + d
    ensures a / d == q
  {
    var found := a / d;
    assert d * found <= a < d * found + d;
    if found > q {
      TimesIsMonotone(q + 1, found, d);
    } else if found < q {
      TimesIsMonotone(found + 1, q, d);
    }
  }

  /** How many validators a failed appeal adds to a committee that started with n. */
  function Added(n: nat, failed: nat): nat {
    if failed == 0 then n + 2 else if failed == 1 then n + 1 else 2 * n
  }

  lemma LengthGrows(n: nat, failed: nat)
    ensures Length(n, failed + 1) == Length(n, failed) + Added(n, failed)
  {
    if failed > 1 {
      assert (2 * (failed + 1) - 1) * n == (2 * failed - 1) * n + 2 * n;
    }
  }

  lemma DivisionRecovers(n: nat, failed: nat)
    requires n > 0
    ensures Length(n, failed) >= n - 1 && RecoveredByDivision(Length(n, failed), failed) == n
    ensures Wanted(Length(n, failed), failed) == Added(n, failed)
    ensures failed >= 2 ==> Length(n, failed) >= 3 * n + 2
  {
    if failed > 1 {
      var d := 2 * failed - 1;
      TimesIsMonotone(3, d, n);
      QuotientIs(d * n, d, n);
    }
  }

  /** The committee answered in full: the reused part of the list and the added validators. */
  lemma SubtractionRecovers(n: nat, failed: nat, results: nat)
    requires n > 0 && failed > 0 && results == Length(n, failed + 1) - (n - 1)
    ensures RecoveredBySubtraction(Length(n, failed), results, failed) == n
  {
    LengthGrows(n, failed);
  }

  lemma ReplacedTail(existing: seq<Receipt>, results: seq<Receipt>, tail: nat, drawn: seq<Address>)
    requires tail <= |existing| && Answers(Addresses(existing)[tail..] + drawn, results)
    ensures Addresses(existing[..tail] + results) == Addresses(existing) + drawn
  {
    var merged := existing[..tail] + results;
    assert |results| == |existing| - tail + |drawn|;
    forall i | 0 <= i < |merged| ensures Addresses(merged)[i] == (Addresses(existing) + drawn)[i] {
      if i >= tail {
        assert Addresses(results)[i - tail] == (Addresses(existing)[tail..] + drawn)[i - tail];
      }
    }
  }

  lemma RecoveredIsSmall(current: nat, failed: nat)
    requires failed >= 2
    ensures var n := RecoveredByDivision(current, failed);
            n >= 1 ==> current >= 3 * n + 2
  {
    var n, d := RecoveredByDivision(current, failed), 2 * failed - 1;
    QuotientBelow(current - 2, d);
    if n >= 1 {
      TimesIsMonotone(3, d, n);
    }
  }

  lemma QuotientBelow(a: int, d: nat)
    requires d > 0
    ensures d * (a / d) <= a
  {
  }

  lemma LateMerge(existing: seq<Receipt>, failed: nat, drawn: seq<Address>, results: seq<Receipt>)
    requires failed >= 2 && Wanted(|existing|, failed) >= |drawn|
    requires Answers(From(Addresses(existing), RecoveredByDivision(|existing|, failed) - 1) + drawn, results)
    requires RecoveredByDivision(|existing|, failed) >= 1 ==> drawn != []
    ensures Addresses(MergeValidators(existing, results, failed)) == Addresses(existing) + drawn <==>
            RecoveredByDivision(|existing|, failed) >= 1 && |drawn| == Wanted(|existing|, failed)
  {
    RecoveredIsSmall(|existing|, failed);
    hide RecoveredByDivision;
    var n := RecoveredByDivision(|existing|, failed);
    assert |results| == |From(Addresses(existing), n - 1)| + |drawn|;
    if n >= 1 && |drawn| == 2 * n {
      ReplacedTail(existing, results, n - 1, drawn);
    } else {
      assert |MergeValidators(existing, results, failed)| != |existing| + |drawn|;
    }
  }

  /** The results of an appeal whose committee was drawn and answered in full, fewer validators than
      wanted included. */
  predicate Answered(registered: set<Address>, existing: seq<Receipt>, leaders: set<Address>, failed: nat,
                     drawn: seq<Address>, results: seq<Receipt>) {
    var stored := Addresses(existing);
    var selection := ExtraValidators(registered, stored, leaders, failed, drawn);
    Draw(Unused(registered, stored, leaders), Wanted(|stored|, failed), drawn) && selection.Ok?
      && Answers(selection.value.extra, results)
  }

  /** A failed first or second appeal always keeps the old addresses and appends the drawn ones. Later
      ones do so exactly when enough unused validators were left; with fewer, the size recovered by
      subtraction is too small and earlier validators are lost or doubled. */
  lemma MergeOnlyAppendsIff(registered: set<Address>, existing: seq<Receipt>, leaders: set<Address>, failed: nat,
                            drawn: seq<Address>, results: seq<Receipt>)
    requires Distinct(Addresses(existing)) && Elements(Addresses(existing)) <= registered
    requires Answered(registered, existing, leaders, failed, drawn, results)
    ensures var stored := Addresses(existing);
            Addresses(MergeValidators(existing, results, failed)) == stored + drawn <==>
            (failed >= 2 ==>
               && RecoveredByDivision(|stored|, failed) >= 1
               && |Unused(registered, stored, leaders)| >= Wanted(|stored|, failed))
  {
    CommitteeOf(registered, existing, leaders, failed, drawn, results);
    hide Answered, Unused, RecoveredByDivision, MergeValidators, From, UpTo;
    if failed == 0 {
      FirstMerge(existing, drawn, results);
    } else if failed == 1 {
      SecondMerge(existing, drawn, results);
    } else {
      LateMerge(existing, failed, drawn, results);
    }
  }

  const SIX: set<Address> := {1, 2, 3, 4, 5, 6}

  lemma OneValidatorLeft(stored: seq<Address>)
    requires stored == [1, 2, 3, 4, 5]
    ensures Distinct(stored) && Elements(stored) <= SIX && Unused(SIX, stored, {0}) == {6}
  {
    assert Elements(stored) == {1, 2, 3, 4, 5} by {
      assert stored[0] == 1 && stored[1] == 2 && stored[2] == 3 && stored[3] == 4 && stored[4] == 5;
    }
  }

  /** A third appeal with one unused validator left where two are wanted: four of the five stored
      validators come out twice. */
  lemma ShortDrawDoublesValidators() returns (existing: seq<Receipt>, results: seq<Receipt>)
    ensures Distinct(Addresses(existing)) && Answered(SIX, existing, {0}, 2, [6], results)
    ensures |MergeValidators(existing, results, 2)| == 10 && !Distinct(Addresses(MergeValidators(existing, results, 2)))
  {
    hide Unused, Elements, Distinct, Draw, Current;
    existing := [Receipt(1, Agree), Receipt(2, Agree), Receipt(3, Agree), Receipt(4, Agree), Receipt(5, Agree)];
    results := existing + [Receipt(6, Agree)];
    var stored := Addresses(existing);
    assert stored == [1, 2, 3, 4, 5];
    OneValidatorLeft(stored);
    AllRegisteredAreCurrent(SIX, stored);
    OneDrawn();
    assert From(stored, 0) + [6] == Addresses(results);
    var merged := MergeValidators(existing, results, 2);
    assert merged[0] == existing[0] && merged[4] == results[0];
    NotDistinct(Addresses(merged), 0, 4);
  }

  lemma OneDrawn()
    ensures Draw({6}, 2, [6])
  {
  }

  lemma NotDistinct(s: seq<Address>, i: nat, j: nat)
    requires i < j < |s| && s[i] == s[j]
    ensures !Distinct(s)
  {
  }

  lemma CommitteeOf(registered: set<Address>, existing: seq<Receipt>, leaders: set<Address>, failed: nat,
                    drawn: seq<Address>, results: seq<Receipt>)
    requires Distinct(Addresses(existing)) && Elements(Addresses(existing)) <= registered
    requires Answered(registered, existing, leaders, failed, drawn, results)
    ensures var stored := Addresses(existing);
            var wanted := Wanted(|stored|, failed);
            && Answers(if failed == 0 then drawn else From(stored, RecoveredByDivision(|stored|, failed) - 1) + drawn,
              results)
            && wanted >= |drawn|
            && (|drawn| == wanted <==> |Unused(registered, stored, leaders)| >= wanted)
            && (wanted > 0 ==> drawn != [])
  {
    hide RecoveredByDivision, From, Distinct, Elements, Wanted;
    var stored := Addresses(existing);
    AllRegisteredAreCurrent(registered, stored);
    var unused := Unused(registered, stored, leaders);
    assert unused != {} ==> |unused| > 0;
  }

  lemma FirstMerge(existing: seq<Receipt>, drawn: seq<Address>, results: seq<Receipt>)
    requires Answers(drawn, results)
    ensures Addresses(MergeValidators(existing, results, 0)) == Addresses(existing) + drawn
  {
    assert existing[..|existing|] == existing && Addresses(existing)[|existing|..] + drawn == drawn;
    ReplacedTail(existing, results, |existing|, drawn);
  }

  lemma SecondMerge(existing: seq<Receipt>, drawn: seq<Address>, results: seq<Receipt>)
    requires Answers(From(Addresses(existing), RecoveredByDivision(|existing|, 1) - 1) + drawn, results)
    ensures Addresses(MergeValidators(existing, results, 1)) == Addresses(existing) + drawn
  {
    ReplacedTail(existing, results, Index(|existing|, RecoveredByDivision(|existing|, 1) - 1), drawn);
  }

  // ---- Any number of consecutive failed appeals ----------------------------------------------

  datatype Round = Round(drawn: seq<Address>, results: seq<Receipt>)

  datatype Consensus = Consensus(votes: map<Address, Vote>, validators: seq<Receipt>)

  function VotesOf(results: seq<Receipt>): map<Address, Vote> {
    if results == [] then map[]
    else VotesOf(results[..|results| - 1])[results[|results| - 1].validator := results[|results| - 1].vote]
  }

  /** One appeal that failed, with enough unused validators to draw from and no slot replaced. */
  predicate FailedAppeal(registered: set<Address>, leaders: set<Address>, c: Consensus, failed: nat, round: Round) {
    var stored := Addresses(c.validators);
    && Answered(registered, c.validators, leaders, failed, round.drawn, round.results)
    && |Unused(registered, stored, leaders)| >= Wanted(|stored|, failed)
  }

  function AfterAppeal(c: Consensus, failed: nat, round: Round): Consensus {
    Consensus(MergeVotes(c.votes, VotesOf(round.results)), MergeValidators(c.validators, round.results, failed))
  }

  predicate FailedAppeals(registered: set<Address>, leaders: set<Address>, c: Consensus, failed: nat,
                          rounds: seq<Round>)
    decreases |rounds|
  {
    rounds == [] ||
    (FailedAppeal(registered, leaders, c, failed, rounds[0])
     && FailedAppeals(registered, leaders, AfterAppeal(c, failed, rounds[0]), failed + 1, rounds[1..]))
  }

  function AfterAppeals(c: Consensus, failed: nat, rounds: seq<Round>): Consensus
    decreases |rounds|
  {
    if rounds == [] then c else AfterAppeals(AfterAppeal(c, failed, rounds[0]), failed + 1, rounds[1..])
  }

  function AllDrawn(rounds: seq<Round>): seq<Address> {
    if rounds == [] then [] else rounds[0].drawn + AllDrawn(rounds[1..])
  }

  /** What holds between two appeals. */
  ghost predicate Sound(registered: set<Address>, leaders: set<Address>, c: Consensus, n: nat, failed: nat) {
    var stored := Addresses(c.validators);
    && |stored| == Length(n, failed)
    && Distinct(stored) && Elements(stored) <= registered && Elements(stored) !! leaders
    && forall r :: r in c.validators ==> r.validator in c.votes && c.votes[r.validator] == r.vote
  }

  lemma {:induction false} VotesMatchResults(results: seq<Receipt>, i: nat)
    requires i < |results| && Distinct(Addresses(results))
    ensures results[i].validator in VotesOf(results) && VotesOf(results)[results[i].validator] == results[i].vote
  {
    var last := |results| - 1;
    if i < last {
      var init := results[..last];
      assert Addresses(init) == Addresses(results)[..last];
      VotesMatchResults(init, i);
      assert Addresses(results)[i] != Addresses(results)[last];
    }
  }

  lemma {:induction false} OnlyVotersVote(results: seq<Receipt>, a: Address)
    ensures a in VotesOf(results) <==> exists i :: 0 <= i < |results| && results[i].validator == a
  {
    if results != [] {
      var last := |results| - 1;
      OnlyVotersVote(results[..last], a);
      if i :| 0 <= i < |results| && results[i].validator == a {
        assert i < last ==> results[..last][i].validator == a;
      }
    }
  }

  lemma ReusedDidNotVote(merged: seq<Receipt>, kept: nat, i: nat)
    requires i < kept <= |merged| && Distinct(Addresses(merged))
    ensures merged[i].validator !in VotesOf(merged[kept..])
  {
    OnlyVotersVote(merged[kept..], merged[i].validator);
    forall j | 0 <= j < |merged[kept..]| ensures merged[kept..][j].validator != merged[i].validator {
      assert Addresses(merged)[kept + j] != Addresses(merged)[i];
    }
  }

  lemma MergedVotesMatch(existing: seq<Receipt>, results: seq<Receipt>, kept: nat, votes: map<Address, Vote>)
    requires kept <= |existing| && Distinct(Addresses(existing[..kept] + results))
    requires forall r :: r in existing ==> r.validator in votes && votes[r.validator] == r.vote
    ensures forall r :: r in existing[..kept] + results ==>
      r.validator in MergeVotes(votes, VotesOf(results)) && MergeVotes(votes, VotesOf(results))[r.validator] == r.vote
  {
    hide VotesOf;
    var merged := existing[..kept] + results;
    assert merged[kept..] == results;
    assert Addresses(results) == Addresses(merged)[kept..];
    forall i | 0 <= i < |merged|
      ensures merged[i].validator in MergeVotes(votes, VotesOf(results))
      ensures MergeVotes(votes, VotesOf(results))[merged[i].validator] == merged[i].vote
    {
      if i < kept {
        assert existing[i] in existing;
        ReusedDidNotVote(merged, kept, i);
      } else {
        DistinctTail(Addresses(merged), kept);
        VotesMatchResults(results, i - kept);
      }
    }
  }

  lemma DistinctTail(s: seq<Address>, from: nat)
    requires Distinct(s) && from <= |s|
    ensures Distinct(s[from..])
  {
  }

  lemma MergedFrom(existing: seq<Receipt>, results: seq<Receipt>, failed: nat)
    ensures exists kept ::
      && 0 <= kept <= |existing|
      && MergeValidators(existing, results, failed) == existing[..kept] + results
  {
    var kept :=
      if failed == 0 then |existing|
      else Index(|existing|, RecoveredBySubtraction(|existing|, |results|, failed) - 1);
    assert existing[..|existing|] == existing;
    assert MergeValidators(existing, results, failed) == existing[..kept] + results;
  }

  lemma DrawnAreNew(registered: set<Address>, stored: seq<Address>, leaders: set<Address>, drawn: seq<Address>,
                    wanted: int)
    requires Distinct(stored) && Elements(stored) <= registered && Elements(stored) !! leaders
    requires Draw(Unused(registered, stored, leaders), wanted, drawn)
    ensures Distinct(stored + drawn) && Elements(stored + drawn) <= registered && Elements(stored + drawn) !! leaders
  {
    AppendKeepsDistinct(stored, drawn);
    assert Elements(stored + drawn) == Elements(stored) + Elements(drawn);
  }

  lemma AppealKeepsSound(registered: set<Address>, leaders: set<Address>, c: Consensus, n: nat, failed: nat,
                         round: Round)
    requires n > 0 && Sound(registered, leaders, c, n, failed) && FailedAppeal(registered, leaders, c, failed, round)
    ensures Sound(registered, leaders, AfterAppeal(c, failed, round), n, failed + 1)
    ensures Addresses(AfterAppeal(c, failed, round).validators) == Addresses(c.validators) + round.drawn
  {
    hide RecoveredByDivision, Wanted, Length, MergeValidators, Added, ExtraValidators, Answers, Unused, Distinct,
         Elements;
    var stored := Addresses(c.validators);
    DivisionRecovers(n, failed);
    MergeOnlyAppendsIff(registered, c.validators, leaders, failed, round.drawn, round.results);
    CommitteeOf(registered, c.validators, leaders, failed, round.drawn, round.results);
    LengthGrows(n, failed);
    DrawnAreNew(registered, stored, leaders, round.drawn, Wanted(|stored|, failed));
    MergedFrom(c.validators, round.results, failed);
    var kept :|
      && 0 <= kept <= |c.validators|
      && MergeValidators(c.validators, round.results, failed) == c.validators[..kept] + round.results;
    MergedVotesMatch(c.validators, round.results, kept, c.votes);
  }

  /** After any number k of consecutive failed appeals of a committee of n, the stored list has the
      documented length, both divisions give n again, the addresses are the first ones followed by
      every validator drawn since, all distinct, and every stored receipt shows its address's vote. */
  lemma {:induction false} CommitteeAfterFailedAppeals(registered: set<Address>, leaders: set<Address>, c: Consensus,
                                                       n: nat, failed: nat, rounds: seq<Round>)
    requires n > 0 && Sound(registered, leaders, c, n, failed) && FailedAppeals(registered, leaders, c, failed, rounds)
    ensures var end, k := AfterAppeals(c, failed, rounds), failed + |rounds|;
            && Sound(registered, leaders, end, n, k)
            && RecoveredByDivision(|end.validators|, k) == n
            && Addresses(end.validators) == Addresses(c.validators) + AllDrawn(rounds)
    decreases |rounds|
  {
    hide RecoveredByDivision, Wanted, Length, MergeValidators, ExtraValidators, Sound, FailedAppeal, AfterAppeal;
    if rounds == [] {
      SoundRecovers(registered, leaders, c, n, failed);
    } else {
      AppealKeepsSound(registered, leaders, c, n, failed, rounds[0]);
      CommitteeAfterFailedAppeals(registered, leaders, AfterAppeal(c, failed, rounds[0]), n, failed + 1, rounds[1..]);
      assert Addresses(c.validators) + rounds[0].drawn + AllDrawn(rounds[1..]) ==
             Addresses(c.validators) + AllDrawn(rounds);
    }
  }

  lemma SoundRecovers(registered: set<Address>, leaders: set<Address>, c: Consensus, n: nat, failed: nat)
    requires n > 0 && Sound(registered, leaders, c, n, failed)
    ensures RecoveredByDivision(|c.validators|, failed) == n
  {
    DivisionRecovers(n, failed);
  }

  /** The merge recovers the size that the choice of the committee recovered. */
  lemma BothRecoverTheInitialSize(registered: set<Address>, leaders: set<Address>, c: Consensus, n: nat, failed: nat,
                                  round: Round)
    requires n > 0 && failed > 0 && Sound(registered, leaders, c, n, failed)
             && FailedAppeal(registered, leaders, c, failed, round)
    ensures RecoveredByDivision(|c.validators|, failed) == n
    ensures RecoveredBySubtraction(|c.validators|, |round.results|, failed) == n
  {
    var stored := Addresses(c.validators);
    AllRegisteredAreCurrent(registered, stored);
    DivisionRecovers(n, failed);
    assert |round.results| == |From(stored, n - 1)| + |round.drawn|;
    LengthGrows(n, failed);
    SubtractionRecovers(n, failed, |round.results|);
  }
}
