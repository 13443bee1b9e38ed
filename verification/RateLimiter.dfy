/** The sliding-window limiters. Both prune what they store; neither decision depends on it. */
module RateLimiter {
  import opened Wrappers
  import opened Rows
  import opened Sequences

  type Member = nat

  const WINDOWS: seq<real> := [60.0, 3600.0, 86400.0]   // minute, hour, day
  const GRACE: real := 60.0                             // a key outlives its window by this much

  /** Every accepted request of one identity, never pruned. */
  type History = map<Member, real>

  datatype Verdict = Allowed | Denied(window: nat, limit: int, count: nat, retryAfter: real)

  datatype Request = Request(now: real, member: Member, limits: seq<int>)

  predicate WellFormed(r: Request) {
    |r.limits| == |WINDOWS|
  }

  /** The requests of the half-open window that ends at `end`. */
  function InWindow(h: History, end: real, seconds: real): set<Member> {
    set m: Member | m in h && end - seconds < h[m] <= end
  }

  /** The decision of a limiter that keeps everything: the first window that is full, if any. */
  function Decide(h: History, r: Request, from: nat := 0): Verdict
    requires WellFormed(r) && from <= |WINDOWS|
    decreases |WINDOWS| - from
  {
    if from == |WINDOWS| then Allowed
    else
      var count := |InWindow(h, r.now, WINDOWS[from])|;
      if count >= r.limits[from] then Denied(from, r.limits[from], count, WINDOWS[from]) else Decide(h, r, from + 1)
  }

  lemma {:induction false} AllowedMeansRoomInEveryWindow(h: History, r: Request, from: nat)
    requires WellFormed(r) && from <= |WINDOWS|
    ensures Decide(h, r, from).Allowed? <==>
      forall i :: from <= i < |WINDOWS| ==> |InWindow(h, r.now, WINDOWS[i])| < r.limits[i]
    decreases |WINDOWS| - from
  {
    if from < |WINDOWS| {
      AllowedMeansRoomInEveryWindow(h, r, from + 1);
    }
  }

  /** Allowed means: fewer requests than the limits in the last minute, hour and day. */
  lemma AllowedByMinuteHourAndDay(h: History, r: Request)
    requires WellFormed(r)
    ensures Decide(h, r).Allowed? <==>
      && |set m: Member | m in h && r.now - 60.0 < h[m] <= r.now| < r.limits[0]
      && |set m: Member | m in h && r.now - 3600.0 < h[m] <= r.now| < r.limits[1]
      && |set m: Member | m in h && r.now - 86400.0 < h[m] <= r.now| < r.limits[2]
  {
    AllowedMeansRoomInEveryWindow(h, r, 0);
    assert InWindow(h, r.now, 60.0) == set m: Member | m in h && r.now - 60.0 < h[m] <= r.now;
    assert InWindow(h, r.now, 3600.0) == set m: Member | m in h && r.now - 3600.0 < h[m] <= r.now;
    assert InWindow(h, r.now, 86400.0) == set m: Member | m in h && r.now - 86400.0 < h[m] <= r.now;
    assert WINDOWS[0] == 60.0 && WINDOWS[1] == 3600.0 && WINDOWS[2] == 86400.0;
  }

  /** A denial names the first window that is full, with its limit, the requests it holds and its length. */
  lemma {:induction false} DeniedNamesTheFirstFull(h: History, r: Request, from: nat)
    requires WellFormed(r) && from <= |WINDOWS| && Decide(h, r, from).Denied?
    ensures var d := Decide(h, r, from);
            && from <= d.window < 3 && d.limit == r.limits[d.window] && d.count >= d.limit
            && d.retryAfter == (if d.window == 0 then 60.0 else if d.window == 1 then 3600.0 else 86400.0)
            && d.count == |set m: Member | m in h && r.now - d.retryAfter < h[m] <= r.now|
            && forall i :: from <= i < d.window ==> |InWindow(h, r.now, WINDOWS[i])| < r.limits[i]
    decreases |WINDOWS| - from
  {
    var seconds := WINDOWS[from];
    assert InWindow(h, r.now, seconds) == set m: Member | m in h && r.now - seconds < h[m] <= r.now;
    if Decide(h, r, from + 1) == Decide(h, r, from) && |InWindow(h, r.now, seconds)| < r.limits[from] {
      DeniedNamesTheFirstFull(h, r, from + 1);
    }
  }

  // ---- The service -------------------------------------------------------------------------

  /** A sorted set of the store: members with their scores, dropped as a whole when it expires. */
  datatype Log = Log(entries: map<Member, real>, expiresAt: Option<real>)

  /** The log may have lost only entries that no window ending at `now` or later can contain. */
  ghost predicate Represents(log: Log, h: History, now: real, seconds: real) {
    && (forall m :: m in log.entries ==> m in h && h[m] == log.entries[m])
    && (forall m :: m in h && h[m] > now - seconds ==> m in log.entries)
    && (log.expiresAt.Some? ==> forall m :: m in h ==> h[m] + seconds + GRACE <= log.expiresAt.value)
  }

  class RateLimiterService {
    var logs: seq<Log>
    ghost var history: History
    ghost var last: real

    ghost predicate Valid()
      reads this
    {
      && |logs| == |WINDOWS| && 0.0 <= last
      && (forall m :: m in history ==> 0.0 <= history[m] <= last)
      && (forall i :: 0 <= i < |logs| ==> Represents(logs[i], history, last, WINDOWS[i]))
    }

    constructor ()
      ensures Valid() && history == map[] && last == 0.0
    {
      logs := [Log(map[], None), Log(map[], None), Log(map[], None)];
      history, last := map[], 0.0;
    }

    /** The pruned sets decide exactly as the whole history does. A denied request leaves no trace in
        it; an allowed one adds itself and nothing else. */
    method CheckAndRecord(r: Request) returns (verdict: Verdict)
      requires Valid() && WellFormed(r) && r.now >= last && r.member !in history
      modifies this
      ensures Valid() && last == r.now
      ensures verdict == Decide(old(history), r)
      ensures history == if verdict.Allowed? then old(history)[r.member := r.now] else old(history)
    {
      hide InWindow, Represents, Pruned, Recorded;
      LaterStillRepresents(logs, history, last, r.now);
      last := r.now;
      var i := 0;
      while i < |WINDOWS|
        invariant 0 <= i <= |WINDOWS| == |logs|
        invariant Valid() && history == old(history) && last == r.now
        invariant Decide(history, r) == Decide(history, r, i)
      {
        PrunedIsWindow(logs[i], history, r.now, WINDOWS[i]);
        var pruned := Pruned(logs[i], r.now, WINDOWS[i]);
        logs := logs[i := pruned];
        var count := |pruned.entries|;
        assert count == |pruned.entries.Keys|;
        if count >= r.limits[i] {
          return Denied(i, r.limits[i], count, WINDOWS[i]);
        }
        i := i + 1;
      }
      RecordedRepresents(logs, history, r);
      history := history[r.member := r.now];
      logs := seq(|WINDOWS|, k requires 0 <= k < |WINDOWS| && |logs| == |WINDOWS| reads this =>
        Recorded(logs[k], r, WINDOWS[k]));
      return Allowed;
    }
  }

  /** An expired key is gone; otherwise scores up to the start of the window are removed. */
  function Pruned(log: Log, now: real, seconds: real): Log {
    if log.expiresAt.Some? && log.expiresAt.value <= now then Log(map[], None)
    else log.(entries := map m | m in log.entries && !(0.0 <= log.entries[m] <= now - seconds) :: log.entries[m])
  }

  function Recorded(log: Log, r: Request, seconds: real): Log {
    Log(log.entries[r.member := r.now], Some(r.now + seconds + GRACE))
  }

  /** After pruning, a set holds exactly the requests of its window. */
  lemma PrunedIsWindow(log: Log, h: History, now: real, seconds: real)
    requires Represents(log, h, now, seconds) && seconds > 0.0
    requires forall m :: m in h ==> 0.0 <= h[m] <= now
    ensures Pruned(log, now, seconds).entries.Keys == InWindow(h, now, seconds)
    ensures Represents(Pruned(log, now, seconds), h, now, seconds)
  {
    var keys := Pruned(log, now, seconds).entries.Keys;
    assert forall m :: m in keys <==> m in InWindow(h, now, seconds);
  }

  lemma LaterStillRepresents(logs: seq<Log>, h: History, last: real, now: real)
    requires |logs| == |WINDOWS| && last <= now
    requires forall i :: 0 <= i < |logs| ==> Represents(logs[i], h, last, WINDOWS[i])
    ensures forall i :: 0 <= i < |logs| ==> Represents(logs[i], h, now, WINDOWS[i])
  {
  }

  lemma RecordedRepresents(logs: seq<Log>, h: History, r: Request)
    requires |logs| == |WINDOWS| && r.member !in h && forall m :: m in h ==> h[m] <= r.now
    requires forall i :: 0 <= i < |logs| ==> Represents(logs[i], h, r.now, WINDOWS[i])
    ensures forall i :: 0 <= i < |logs| ==>
      Represents(Recorded(logs[i], r, WINDOWS[i]), h[r.member := r.now], r.now, WINDOWS[i])
  {
    forall i | 0 <= i < |logs|
      ensures Represents(Recorded(logs[i], r, WINDOWS[i]), h[r.member := r.now], r.now, WINDOWS[i])
    {
      assert Represents(logs[i], h, r.now, WINDOWS[i]);
    }
  }

  // ---- Every sequence of requests ------------------------------------------------------------

  predicate Chronological(h: History, requests: seq<Request>) {
    && (forall i :: 0 <= i < |requests| ==>
          WellFormed(requests[i]) && requests[i].member !in h && requests[i].now >= 0.0)
    && (forall i, m :: 0 <= i < |requests| && m in h ==> h[m] <= requests[i].now)
    && (forall i, j :: 0 <= i < j < |requests| ==>
          requests[i].now <= requests[j].now && requests[i].member != requests[j].member)
  }

  function Serve(h: History, requests: seq<Request>): History
    requires forall r :: r in requests ==> WellFormed(r)
    decreases |requests|
  {
    if requests == [] then h else
      var r := requests[0];
      Serve(if Decide(h, r).Allowed? then h[r.member := r.now] else h, requests[1..])
  }

  ghost predicate NeverAbove(h: History, cap: nat, i: nat)
    requires i < |WINDOWS|
  {
    forall end: real :: |InWindow(h, end, WINDOWS[i])| <= cap
  }

  lemma AcceptedStaysUnder(h: History, r: Request, cap: nat, i: nat)
    requires i < |WINDOWS| && NeverAbove(h, cap, i) && WellFormed(r) && r.limits[i] <= cap
    requires Decide(h, r).Allowed? && forall m :: m in h ==> h[m] <= r.now
    ensures NeverAbove(h[r.member := r.now], cap, i)
  {
    AllowedMeansRoomInEveryWindow(h, r, 0);
    var h' := h[r.member := r.now];
    forall end: real ensures |InWindow(h', end, WINDOWS[i])| <= cap {
      if end < r.now {
        SubsetIsSmaller(InWindow(h', end, WINDOWS[i]), InWindow(h, end, WINDOWS[i]));
      } else {
        SubsetIsSmaller(InWindow(h', end, WINDOWS[i]), InWindow(h, r.now, WINDOWS[i]) + {r.member});
      }
    }
  }

  lemma {:induction false} ServeKeepsBound(h: History, requests: seq<Request>, cap: nat, i: nat)
    requires i < |WINDOWS| && Chronological(h, requests) && NeverAbove(h, cap, i)
    requires forall r :: r in requests ==> WellFormed(r) && r.limits[i] <= cap
    ensures NeverAbove(Serve(h, requests), cap, i)
    decreases |requests|
  {
    if requests != [] {
      var r := requests[0];
      var rest := requests[1..];
      assert forall k :: 0 <= k < |rest| ==> rest[k] == requests[k + 1];
      if Decide(h, r).Allowed? {
        AcceptedStaysUnder(h, r, cap, i);
        ServeKeepsBound(h[r.member := r.now], rest, cap, i);
      } else {
        ServeKeepsBound(h, rest, cap, i);
      }
    }
  }

  /** For every sequence of requests with non-decreasing times, no minute, hour or day, wherever it
      starts, contains more accepted requests than the largest limit that applied. */
  lemma NoWindowExceedsItsLimit(requests: seq<Request>, cap: nat, i: nat, end: real)
    requires i < |WINDOWS| && Chronological(map[], requests)
    requires forall r :: r in requests ==> WellFormed(r) && r.limits[i] <= cap
    ensures |InWindow(Serve(map[], requests), end, WINDOWS[i])| <= cap
  {
    assert forall e: real :: InWindow(map[], e, WINDOWS[i]) == {};
    ServeKeepsBound(map[], requests, cap, i);
  }

  /** In numbers: 60 seconds, 3600 seconds and 86400 seconds. */
  lemma NoMinuteHourOrDayExceedsItsLimit(requests: seq<Request>, caps: seq<nat>, end: real)
    requires |caps| == 3 && Chronological(map[], requests)
    requires forall r :: r in requests ==> WellFormed(r) && forall i :: 0 <= i < 3 ==> r.limits[i] <= caps[i]
    ensures var h := Serve(map[], requests);
            && |set m: Member | m in h && end - 60.0 < h[m] <= end| <= caps[0]
            && |set m: Member | m in h && end - 3600.0 < h[m] <= end| <= caps[1]
            && |set m: Member | m in h && end - 86400.0 < h[m] <= end| <= caps[2]
  {
    hide Serve, Chronological;
    var h := Serve(map[], requests);
    NoWindowExceedsItsLimit(requests, caps[0], 0, end);
    NoWindowExceedsItsLimit(requests, caps[1], 1, end);
    NoWindowExceedsItsLimit(requests, caps[2], 2, end);
    assert InWindow(h, end, WINDOWS[0]) == set m: Member | m in h && end - 60.0 < h[m] <= end;
    assert InWindow(h, end, WINDOWS[1]) == set m: Member | m in h && end - 3600.0 < h[m] <= end;
    assert InWindow(h, end, WINDOWS[2]) == set m: Member | m in h && end - 86400.0 < h[m] <= end;
  }

  /** Denied requests can be struck from any run: what is accepted afterwards does not change. */
  lemma {:induction false} DeniedUsesNoQuota(h: History, before: seq<Request>, r: Request, after: seq<Request>)
    requires forall q :: q in before + [r] + after ==> WellFormed(q)
    requires (forall q :: q in before ==> WellFormed(q)) && WellFormed(r) && Decide(Serve(h, before), r).Denied?
    ensures (forall q :: q in before + after ==> WellFormed(q))
            && Serve(h, before + [r] + after) == Serve(h, before + after)
    decreases |before|
  {
    if before == [] {
      assert (before + [r] + after)[1..] == after && before + after == after;
    } else {
      var next := if Decide(h, before[0]).Allowed? then h[before[0].member := before[0].now] else h;
      assert (before + [r] + after)[1..] == before[1..] + [r] + after && (before + after)[1..] == before[1..] + after;
      DeniedUsesNoQuota(next, before[1..], r, after);
    }
  }

  // ---- Per-address log -----------------------------------------------------------------------

  function Recent(times: seq<real>, cutoff: real): seq<real> {
    if times == [] then []
    else if times[0] > cutoff then [times[0]] + Recent(times[1..], cutoff)
    else Recent(times[1..], cutoff)
  }

  /** Exactly the times after the cutoff are kept, each as often as it occurs. */
  lemma {:induction false} WhatIsRecent(times: seq<real>, cutoff: real)
    ensures forall t: real :: multiset(Recent(times, cutoff))[t] == if t > cutoff then multiset(times)[t] else 0
  {
    if times != [] {
      WhatIsRecent(times[1..], cutoff);
      assert times == [times[0]] + times[1..];
    }
  }

  lemma {:induction false} RecentAppends(times: seq<real>, t: real, cutoff: real)
    ensures Recent(times + [t], cutoff) == Recent(times, cutoff) + if t > cutoff then [t] else []
  {
    if times != [] {
      assert (times + [t])[1..] == times[1..] + [t];
      RecentAppends(times[1..], t, cutoff);
    }
  }

  lemma {:induction false} RecentOfRecent(times: seq<real>, earlier: real, later: real)
    requires earlier <= later
    ensures Recent(Recent(times, earlier), later) == Recent(times, later)
  {
    if times != [] {
      RecentOfRecent(times[1..], earlier, later);
      var rest := Recent(times[1..], earlier);
      if times[0] > earlier {
        assert ([times[0]] + rest)[1..] == rest;
      }
    }
  }

  method Filter(times: seq<real>, cutoff: real) returns (kept: seq<real>)
    ensures kept == Recent(times, cutoff)
  {
    kept := [];
    for i := 0 to |times|
      invariant kept == Recent(times[..i], cutoff)
    {
      assert times[..i + 1] == times[..i] + [times[i]];
      RecentAppends(times[..i], times[i], cutoff);
      if times[i] > cutoff {
        kept := kept + [times[i]];
      }
    }
    assert times[..|times|] == times;
  }

  /** The two logs look the same to every window that starts at `start` or later. */
  ghost predicate AgreeFrom(a: seq<real>, b: seq<real>, start: real) {
    forall cutoff: real :: cutoff >= start ==> Recent(a, cutoff) == Recent(b, cutoff)
  }

  function Logged(log: map<Address, seq<real>>, a: Address): seq<real> {
    if a in log then log[a] else []
  }

  /** Every time was accepted with room left in the window that ended with it. */
  ghost predicate AcceptedLog(times: seq<real>, window: real, limit: int) {
    times == [] ||
    var before, t := times[..|times| - 1], times[|times| - 1];
    AcceptedLog(before, window, limit) && |Recent(before, t - window)| < limit && forall o :: o in before ==> o <= t
  }

  lemma AcceptedLogGrows(times: seq<real>, now: real, window: real, limit: int)
    requires AcceptedLog(times, window, limit) && |Recent(times, now - window)| < limit
    requires forall t :: t in times ==> t <= now
    ensures AcceptedLog(times + [now], window, limit)
  {
    assert (times + [now])[..|times|] == times;
  }

  class AddressLimiter {
    const window: real
    const limit: int
    var log: map<Address, seq<real>>
    ghost var history: map<Address, seq<real>>
    ghost var last: real

    ghost predicate Valid()
      reads this
    {
      forall a ::
        && AgreeFrom(Logged(log, a), Logged(history, a), last - window)
        && AcceptedLog(Logged(history, a), window, limit)
        && forall t :: t in Logged(history, a) ==> t <= last
    }

    constructor (window: real, limit: int, start: real)
      ensures Valid() && history == map[] && last == start && this.window == window && this.limit == limit
    {
      this.window, this.limit := window, limit;
      log, history, last := map[], map[], start;
    }

    /** Decides as the unpruned log would; a rejected call changes nothing at all. */
    method CheckRateLimit(a: Address, now: real) returns (ok: bool)
      requires Valid() && now >= last
      modifies this
      ensures Valid() && last == now
      ensures ok <==> |Recent(Logged(old(history), a), now - window)| < limit
      ensures ok ==> history == old(history)[a := Logged(old(history), a) + [now]]
      ensures !ok ==> history == old(history) && log == old(log)
    {
      hide Recent, AcceptedLog;
      var cutoff := now - window;
      var stored := Logged(log, a);
      var timestamps := Filter(stored, cutoff);
      last := now;
      if |timestamps| >= limit {
        return false;
      }
      ghost var full := Logged(history, a);
      AcceptedLogGrows(full, now, window, limit);
      forall c | c >= cutoff ensures Recent(timestamps + [now], c) == Recent(full + [now], c) {
        RecentAppends(timestamps, now, c);
        RecentAppends(full, now, c);
        RecentOfRecent(stored, cutoff, c);
      }
      log := log[a := timestamps + [now]];
      history := history[a := full + [now]];
      assert AgreeFrom(Logged(log, a), Logged(history, a), cutoff);
      assert forall b :: b != a ==>
        (Logged(log, b) == Logged(old(log), b) && Logged(history, b) == Logged(old(history), b));
      return true;
    }
  }

  function Between(times: seq<real>, lo: real, hi: real): nat {
    if times == [] then 0
    else Between(times[..|times| - 1], lo, hi) + if lo < times[|times| - 1] <= hi then 1 else 0
  }

  lemma {:induction false} BetweenWithinRecent(times: seq<real>, lo: real, hi: real, cutoff: real)
    requires cutoff <= lo
    ensures Between(times, lo, hi) <= |Recent(times, cutoff)|
  {
    if times != [] {
      var n := |times| - 1;
      assert times == times[..n] + [times[n]];
      RecentAppends(times[..n], times[n], cutoff);
      BetweenWithinRecent(times[..n], lo, hi, cutoff);
    }
  }

  /** No window of the configured length, wherever it ends, holds more accepted calls than the limit. */
  lemma {:induction false} NoAddressExceedsItsLimit(times: seq<real>, window: real, limit: int, end: real)
    requires AcceptedLog(times, window, limit) && times != []
    ensures Between(times, end - window, end) <= limit
  {
    var n := |times| - 1;
    var before := times[..n];
    if end >= times[n] {
      BetweenWithinRecent(before, end - window, end, times[n] - window);
    } else if before != [] {
      NoAddressExceedsItsLimit(before, window, limit, end);
    }
  }
}
