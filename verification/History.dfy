/** The consensus history and the leader rotations it records for each completed round. */
module History {
  import opened Wrappers
  import opened Rows

  datatype ConsensusRound =
    | RoundAccepted | LeaderRotation | RoundUndetermined | RoundLeaderTimeout | RoundValidatorsTimeout
    | LeaderRotationAppeal | ValidatorAppealSuccessful | ValidatorAppealFailed
    | LeaderAppealSuccessful | LeaderAppealFailed
    | LeaderTimeoutAppealSuccessful | LeaderTimeoutAppealFailed
    | ValidatorTimeoutAppealSuccessful | ValidatorsTimeoutAppealFailed

  /** An item of the stored list: anything else than a record is skipped, a record without a round
      counts as a completed one. */
  datatype Item = NotARecord | Entry(round: Option<ConsensusRound>, leader: Option<Address>)

  predicate IsRotation(item: Item) {
    item.Entry? && (item.round == Some(LeaderRotation) || item.round == Some(LeaderRotationAppeal))
  }

  predicate IsCompleted(item: Item) {
    item.Entry? && !IsRotation(item)
  }

  function CountRotations(h: seq<Item>): nat {
    if h == [] then 0 else CountRotations(h[..|h| - 1]) + if IsRotation(h[|h| - 1]) then 1 else 0
  }

  function CompletedRounds(h: seq<Item>): seq<Item> {
    if h == [] then []
    else CompletedRounds(h[..|h| - 1]) + if IsCompleted(h[|h| - 1]) then [h[|h| - 1]] else []
  }

  function CompletedRoundIndex(h: seq<Item>): int {
    var last := |CompletedRounds(h)| - 1;
    if last < 0 then 0 else last
  }

  /** The rotations after the last completed round. */
  function Trailing(h: seq<Item>): nat {
    if h == [] || IsCompleted(h[|h| - 1]) then 0
    else Trailing(h[..|h| - 1]) + if IsRotation(h[|h| - 1]) then 1 else 0
  }

  function Sum(values: seq<nat>): nat {
    if values == [] then 0 else Sum(values[..|values| - 1]) + values[|values| - 1]
  }

  /** The value of every completed round in order: what trailed when it was recorded. */
  function RotationsOfRounds(h: seq<Item>): seq<nat> {
    if h == [] then []
    else RotationsOfRounds(h[..|h| - 1]) + if IsCompleted(h[|h| - 1]) then [Trailing(h[..|h| - 1])] else []
  }

  method ActualLeaderRotationsByRound(history: Option<seq<Item>>) returns (rotations: map<nat, nat>)
    ensures history.None? ==> rotations == map[]
    ensures history.Some? ==>
      && (forall i :: i in rotations <==> 0 <= i < |CompletedRounds(history.value)|)
      && |RotationsOfRounds(history.value)| == |CompletedRounds(history.value)|
      && forall i :: i in rotations ==> rotations[i] == RotationsOfRounds(history.value)[i]
  {
    rotations := map[];
    if history.None? {
      return;
    }
    var items := history.value;
    var pendingRotations, roundIndex := 0, 0;
    for i := 0 to |items|
      invariant pendingRotations == Trailing(items[..i])
      invariant roundIndex == |CompletedRounds(items[..i])| == |RotationsOfRounds(items[..i])|
      invariant forall k :: k in rotations <==> 0 <= k < roundIndex
      invariant forall k :: k in rotations ==> rotations[k] == RotationsOfRounds(items[..i])[k]
    {
      assert items[..i + 1][..i] == items[..i];
      if IsRotation(items[i]) {
        pendingRotations := pendingRotations + 1;
      } else if items[i].Entry? {
        rotations := rotations[roundIndex := pendingRotations];
        pendingRotations := 0;
        roundIndex := roundIndex + 1;
      }
    }
    assert items[..|items|] == items;
  }

  lemma SumAppend(values: seq<nat>, last: nat)
    ensures Sum(values + [last]) == Sum(values) + last
  {
    assert (values + [last])[..|values|] == values;
  }

  /** Every rotation event is counted once: in the round that completed after it, or as trailing. */
  lemma {:induction false} RotationsAreConserved(h: seq<Item>)
    ensures |RotationsOfRounds(h)| == |CompletedRounds(h)|
    ensures Sum(RotationsOfRounds(h)) + Trailing(h) == CountRotations(h)
  {
    if h != [] {
      var init := h[..|h| - 1];
      RotationsAreConserved(init);
      if IsCompleted(h[|h| - 1]) {
        SumAppend(RotationsOfRounds(init), Trailing(init));
      } else {
        assert RotationsOfRounds(h) == RotationsOfRounds(init);
      }
    }
  }

  /** Which items count: rotations of leaders, in an appeal or not, complete nothing; every other record does,
      one without a round included; anything that is no record is passed over. */
  lemma WhichItemsCount(item: Item)
    ensures IsRotation(item) <==>
      item.Entry? && (item.round == Some(LeaderRotation) || item.round == Some(LeaderRotationAppeal))
    ensures IsCompleted(item) <==>
      item.Entry? && item.round != Some(LeaderRotation) && item.round != Some(LeaderRotationAppeal)
  {
  }

  function Concat(parts: seq<seq<Item>>): seq<Item> {
    if parts == [] then [] else Concat(parts[..|parts| - 1]) + parts[|parts| - 1]
  }

  /** Some items that complete nothing, and then one that completes a round. */
  predicate EndsARound(part: seq<Item>) {
    part != [] && IsCompleted(part[|part| - 1]) && forall k :: 0 <= k < |part| - 1 ==> !IsCompleted(part[k])
  }

  lemma OneMorePart(parts: seq<seq<Item>>, part: seq<Item>)
    ensures Concat(parts + [part]) == Concat(parts) + part && CountRotations([]) == 0
  {
    assert (parts + [part])[..|parts|] == parts;
  }

  lemma OneMoreItem(h: seq<Item>, item: Item)
    ensures var all := h + [item];
            && CountRotations(all) == CountRotations(h) + (if IsRotation(item) then 1 else 0)
            && RotationsOfRounds(all) == RotationsOfRounds(h) + (if IsCompleted(item) then [Trailing(h)] else [])
            && Trailing(all) == if IsCompleted(item) then 0 else Trailing(h) + if IsRotation(item) then 1 else 0
  {
    assert (h + [item])[..|h|] == h;
  }

  /** The parts end with a completed round each, the rest with none, and the values are their rotations. */
  ghost predicate InParts(h: seq<Item>, parts: seq<seq<Item>>, rest: seq<Item>) {
    && h == Concat(parts) + rest
    && (forall i :: 0 <= i < |parts| ==> EndsARound(parts[i]))
    && (forall k :: 0 <= k < |rest| ==> !IsCompleted(rest[k]))
    && RotationsOfRounds(h) == RotationsOf(parts) && Trailing(h) == CountRotations(rest)
  }

  function RotationsOf(parts: seq<seq<Item>>): seq<nat> {
    seq(|parts|, i requires 0 <= i < |parts| => CountRotations(parts[i]))
  }

  lemma PartEnds(h: seq<Item>, item: Item, parts: seq<seq<Item>>, rest: seq<Item>)
    requires InParts(h, parts, rest) && IsCompleted(item)
    ensures InParts(h + [item], parts + [rest + [item]], [])
  {
    OneMoreItem(h, item);
    OneMoreItem(rest, item);
    OneMorePart(parts, rest + [item]);
    hide CountRotations, RotationsOfRounds, Trailing, IsRotation, Concat;
    assert RotationsOf(parts + [rest + [item]]) == RotationsOf(parts) + [CountRotations(rest + [item])];
  }

  lemma PartGoesOn(h: seq<Item>, item: Item, parts: seq<seq<Item>>, rest: seq<Item>)
    requires InParts(h, parts, rest) && !IsCompleted(item)
    ensures InParts(h + [item], parts, rest + [item])
  {
    OneMoreItem(h, item);
    OneMoreItem(rest, item);
    hide CountRotations, RotationsOfRounds, Trailing, IsRotation, Concat;
  }

  /** Any history falls into parts that each end with a completed round, and a rest that ends none. The value
      of a round is the number of rotations in its part. */
  lemma {:induction false} RotationsByPart(h: seq<Item>) returns (parts: seq<seq<Item>>, rest: seq<Item>)
    ensures InParts(h, parts, rest)
    ensures |RotationsOfRounds(h)| == |parts| && Trailing(h) == CountRotations(rest)
    ensures forall i :: 0 <= i < |parts| ==> RotationsOfRounds(h)[i] == CountRotations(parts[i])
  {
    if h == [] {
      parts, rest := [], [];
    } else {
      hide CountRotations, RotationsOfRounds, Trailing, IsRotation, IsCompleted, Concat, EndsARound;
      var init, item := h[..|h| - 1], h[|h| - 1];
      parts, rest := RotationsByPart(init);
      assert h == init + [item];
      if IsCompleted(item) {
        PartEnds(init, item, parts, rest);
        parts, rest := parts + [rest + [item]], [];
      } else {
        PartGoesOn(init, item, parts, rest);
        rest := rest + [item];
      }
    }
  }

  // ---- Histories the round machine writes -----------------------------------------------------

  /** One run that did not fail: rotations, then one completed round. */
  datatype Run = Run(rotations: seq<Item>, completed: Item)

  predicate Produced(run: Run, limit: nat) {
    && |run.rotations| <= limit
    && (forall i :: 0 <= i < |run.rotations| ==> IsRotation(run.rotations[i]))
    && IsCompleted(run.completed)
  }

  function Written(runs: seq<Run>): seq<Item> {
    if runs == [] then []
    else Written(runs[..|runs| - 1]) + runs[|runs| - 1].rotations + [runs[|runs| - 1].completed]
  }

  lemma {:induction false} RotationsTrail(h: seq<Item>, rotations: seq<Item>)
    requires forall i :: 0 <= i < |rotations| ==> IsRotation(rotations[i])
    ensures Trailing(h + rotations) == Trailing(h) + |rotations|
    ensures RotationsOfRounds(h + rotations) == RotationsOfRounds(h)
  {
    if rotations == [] {
      assert h + rotations == h;
    } else {
      var n := |rotations| - 1;
      RotationsTrail(h, rotations[..n]);
      assert (h + rotations)[..|h + rotations| - 1] == h + rotations[..n];
    }
  }

  /** A run appends one value: the rotations already trailing and its own. */
  lemma RunAppendsOneValue(h: seq<Item>, run: Run, limit: nat)
    requires Produced(run, limit)
    ensures Trailing(h + run.rotations + [run.completed]) == 0
    ensures RotationsOfRounds(h + run.rotations + [run.completed]) ==
            RotationsOfRounds(h) + [Trailing(h) + |run.rotations|]
  {
    RotationsTrail(h, run.rotations);
    var all := h + run.rotations + [run.completed];
    assert all[..|all| - 1] == h + run.rotations;
  }

  /** In a history written by the round machine no round shows more rotations than are configured. */
  lemma {:induction false} ProducedRoundsStayWithinLimit(runs: seq<Run>, limit: nat)
    requires forall i :: 0 <= i < |runs| ==> Produced(runs[i], limit)
    ensures Trailing(Written(runs)) == 0 && |RotationsOfRounds(Written(runs))| == |runs|
    ensures forall i :: 0 <= i < |runs| ==> RotationsOfRounds(Written(runs))[i] == |runs[i].rotations| <= limit
  {
    if runs != [] {
      var n := |runs| - 1;
      ProducedRoundsStayWithinLimit(runs[..n], limit);
      RunAppendsOneValue(Written(runs[..n]), runs[n], limit);
    }
  }

  /** The index of the latest completed round, and zero while there is none. */
  lemma IndexOfLatestRound(h: seq<Item>)
    ensures var n := |RotationsOfRounds(h)|; CompletedRoundIndex(h) == if n == 0 then 0 else n - 1
  {
    RotationsAreConserved(h);
  }

  /** The index of the latest completed round is the largest key, once there is one. */
  lemma LatestRoundIsLargestKey(h: seq<Item>, i: nat)
    requires i < |RotationsOfRounds(h)|
    ensures i <= CompletedRoundIndex(h) < |RotationsOfRounds(h)|
  {
    RotationsAreConserved(h);
  }
}
