/** The benchmark's rate limiter under every interleaving: one shared `next_at` behind a lock, any
    number of overlapping `wait` calls, one clock that never runs backwards. Each statement of `wait`
    that touches shared state or the clock is a step of its own. */
module RateLimiter {
  import opened Collections
  import opened Options
  import opened Reals

  /** Where one call of `wait` stands. `Started` is its return; without a limit it has no slot. */
  datatype Phase =
    | Waiting
    | Holding
    | HasNow(now: real)
    | HasStart(now: real, start: real)
    | Stored(start: real)
    | Released(start: real)
    | MustSleep(start: real, delay: real)
    | Sleeping(start: real, until: real)
    | Started(slot: Option<real>, at: real)

  /** A granted slot: to which call, and the clock reading it was computed from. */
  datatype Grant = Grant(call: nat, slot: real, read: real)

  /** `grants` lists the slots in the order in which the lock was held. */
  datatype State = State(
    interval: real,
    clock: real,
    nextAt: real,
    lock: Option<nat>,
    calls: map<nat, Phase>,
    grants: seq<Grant>)

  datatype Step =
    | Tick(now: real)
    | Call(id: nat)
    | Acquire(id: nat)
    | ReadClock(id: nat)
    | Choose(id: nat)
    | Store(id: nat)
    | Release(id: nat)
    | Measure(id: nat)
    | Sleep(id: nat)
    | Wake(id: nat)

  /** The spacing for `rps` calls a second; no rate, or none above zero, is no limit. */
  function Interval(rps: Option<real>): (r: real)
    ensures r >= 0.0
  {
    if rps.Some? && rps.value > 0.0 then Reciprocal(rps.value) else 0.0
  }

  function Reciprocal(x: real): (r: real)
    requires x > 0.0
    ensures r > 0.0 && r * x == 1.0
  {
    var r := 1.0 / x;
    assert r * x == 1.0;
    assert r > 0.0 by {
      if r <= 0.0 {
        NotPositive(r, x);
      }
    }
    r
  }

  function Initial(interval: real, clock: real): State {
    State(interval, clock, 0.0, None, map[], [])
  }

  function At(s: State, id: nat): Option<Phase> {
    if id in s.calls then Some(s.calls[id]) else None
  }

  function Put(s: State, id: nat, p: Phase): State {
    s.(calls := s.calls[id := p])
  }

  /** One step, or nothing when the step cannot be taken in `s`. */
  function Apply(s: State, step: Step): Option<State> {
    match step
    case Tick(now) =>
      if now >= s.clock then Some(s.(clock := now)) else None
    case Call(id) =>
      if At(s, id) != None then None
      else Some(Put(s, id, if s.interval == 0.0 then Started(None, s.clock) else Waiting))
    case Acquire(id) =>
      if At(s, id) == Some(Waiting) && s.lock == None then Some(Put(s, id, Holding).(lock := Some(id))) else None
    case ReadClock(id) =>
      if At(s, id) == Some(Holding) then Some(Put(s, id, HasNow(s.clock))) else None
    case Choose(id) =>
      if id in s.calls && s.calls[id].HasNow?
      then
        var now := s.calls[id].now;
        Some(Put(s, id, HasStart(now, MaxReal(now, s.nextAt))))
      else None
    case Store(id) =>
      if id in s.calls && s.calls[id].HasStart?
      then
        var start := s.calls[id].start;
        var grant := Grant(id, start, s.calls[id].now);
        Some(Put(s, id, Stored(start)).(nextAt := start + s.interval, grants := s.grants + [grant]))
      else None
    case Release(id) =>
      if id in s.calls && s.calls[id].Stored?
      then Some(Put(s, id, Released(s.calls[id].start)).(lock := None)) else None
    case Measure(id) =>
      if id in s.calls && s.calls[id].Released?
      then
        var start := s.calls[id].start;
        var delay := start - s.clock;
        Some(Put(s, id, if delay > 0.0 then MustSleep(start, delay) else Started(Some(start), s.clock)))
      else None
    case Sleep(id) =>
      if id in s.calls && s.calls[id].MustSleep?
      then Some(Put(s, id, Sleeping(s.calls[id].start, s.clock + s.calls[id].delay))) else None
    case Wake(id) =>
      if id in s.calls && s.calls[id].Sleeping? && s.clock >= s.calls[id].until
      then Some(Put(s, id, Started(Some(s.calls[id].start), s.clock))) else None
  }

  /** The state after a whole interleaving, if every step of it could be taken. */
  function Run(s: State, steps: seq<Step>): Option<State>
    decreases |steps|
  {
    if steps == [] then Some(s)
    else
      var before := Run(s, steps[..|steps| - 1]);
      if before.None? then None else Apply(before.value, steps[|steps| - 1])
  }

  // ---------------------------------------------------------------- what every step keeps

  predicate Granted(grants: seq<Grant>, id: nat, slot: real) {
    exists g :: g in grants && g.call == id && g.slot == slot
  }

  predicate Critical(p: Phase) {
    p.Holding? || p.HasNow? || p.HasStart? || p.Stored?
  }

  /** What the phase of a call says about the shared state. */
  predicate CallOk(s: State, id: nat, p: Phase) {
    && (Critical(p) ==> s.lock == Some(id))
    && (p.HasStart? ==> p.start == MaxReal(p.now, s.nextAt))
    && (p.Stored? || p.Released? ==> Granted(s.grants, id, p.start))
    && (p.MustSleep? ==> Granted(s.grants, id, p.start) && p.start - p.delay <= s.clock)
    && (p.Sleeping? ==> Granted(s.grants, id, p.start) && p.start <= p.until)
    && (p.Started? && p.slot.None? ==> s.interval == 0.0)
    && (p.Started? && p.slot.Some? ==> Granted(s.grants, id, p.slot.value) && p.slot.value <= p.at <= s.clock)
  }

  /** The earliest slot the `i`th grant may have. */
  function Due(grants: seq<Grant>, interval: real, i: nat): real
    requires i <= |grants|
  {
    if i == 0 then 0.0 else grants[i - 1].slot + interval
  }

  /** In lock order, each slot is the later of the clock reading and an interval after the slot before,
      and `next_at` is an interval after the last. */
  predicate Spaced(grants: seq<Grant>, interval: real, nextAt: real) {
    && (forall i :: 0 <= i < |grants| ==> grants[i].slot == MaxReal(grants[i].read, Due(grants, interval, i)))
    && nextAt == Due(grants, interval, |grants|)
  }

  predicate Inv(s: State) {
    && s.interval >= 0.0
    && Spaced(s.grants, s.interval, s.nextAt)
    && forall id :: id in s.calls ==> CallOk(s, id, s.calls[id])
  }

  /** A later state as another call sees it: the clock and the grants may have grown. */
  ghost predicate Later(s: State, t: State) {
    && t.interval == s.interval
    && t.clock >= s.clock
    && (forall id, slot :: Granted(s.grants, id, slot) ==> Granted(t.grants, id, slot))
  }

  lemma OthersKept(s: State, t: State, id: nat, p: Phase)
    requires Later(s, t) && CallOk(s, id, p)
    requires Critical(p) ==> t.lock == Some(id) && t.nextAt == s.nextAt
    ensures CallOk(t, id, p)
  {
  }

  lemma GrantAdded(grants: seq<Grant>, g: Grant)
    ensures forall id, slot :: Granted(grants, id, slot) ==> Granted(grants + [g], id, slot)
    ensures Granted(grants + [g], g.call, g.slot)
  {
    assert (grants + [g])[|grants|] == g;
  }

  lemma SameDue(grants: seq<Grant>, g: Grant, interval: real, i: nat)
    requires i <= |grants|
    ensures Due(grants + [g], interval, i) == Due(grants, interval, i)
    ensures (grants + [g])[i] == if i < |grants| then grants[i] else g
  {
  }

  lemma SpacedAdded(grants: seq<Grant>, interval: real, nextAt: real, g: Grant)
    requires Spaced(grants, interval, nextAt) && g.slot == MaxReal(g.read, nextAt)
    ensures Spaced(grants + [g], interval, g.slot + interval)
  {
    var more := grants + [g];
    forall i | 0 <= i < |more|
      ensures more[i].slot == MaxReal(more[i].read, Due(more, interval, i))
    {
      SameDue(grants, g, interval, i);
    }
    SameDue(grants, g, interval, |grants|);
  }

  lemma StepKeepsInv(s: State, step: Step)
    requires Inv(s) && Apply(s, step).Some?
    ensures Inv(Apply(s, step).value)
  {
    var t := Apply(s, step).value;
    if step.Store? {
      var g := Grant(step.id, s.calls[step.id].start, s.calls[step.id].now);
      GrantAdded(s.grants, g);
      SpacedAdded(s.grants, s.interval, s.nextAt, g);
    }
    assert Later(s, t);
    forall id | id in t.calls
      ensures CallOk(t, id, t.calls[id])
    {
      if step.Tick? || id != step.id {
        OthersKept(s, t, id, s.calls[id]);
      }
    }
  }

  lemma {:induction false} RunKeepsInv(s: State, steps: seq<Step>)
    requires Inv(s) && Run(s, steps).Some?
    ensures Inv(Run(s, steps).value)
    ensures Run(s, steps).value.interval == s.interval
    decreases |steps|
  {
    if steps != [] {
      RunKeepsInv(s, steps[..|steps| - 1]);
      StepKeepsInv(Run(s, steps[..|steps| - 1]).value, steps[|steps| - 1]);
    }
  }

  // ---------------------------------------------------------------- whole runs

  /** A state some interleaving of any number of calls leads to. */
  ghost predicate Reachable(s: State, rps: Option<real>) {
    exists clock: real, steps: seq<Step> :: Run(Initial(Interval(rps), clock), steps) == Some(s)
  }

  lemma ReachableInv(s: State, rps: Option<real>)
    requires Reachable(s, rps)
    ensures Inv(s) && s.interval == Interval(rps)
  {
    var clock, steps :| Run(Initial(Interval(rps), clock), steps) == Some(s);
    RunKeepsInv(Initial(Interval(rps), clock), steps);
  }

  lemma Spacing(s: State)
    requires Inv(s)
    ensures Spaced(s.grants, s.interval, s.nextAt)
  {
  }

  lemma SpacedNext(grants: seq<Grant>, interval: real, nextAt: real, j: nat)
    requires Spaced(grants, interval, nextAt) && 0 < j < |grants|
    ensures grants[j - 1].slot + interval <= grants[j].slot
  {
  }

  /** So much later is the slot `n` places after one. */
  function Gap(n: nat, interval: real): real {
    n as real * interval
  }

  lemma GapGrows(n: nat, interval: real)
    ensures Gap(n + 1, interval) == Gap(n, interval) + interval
    ensures Gap(0, interval) == 0.0
  {
  }

  lemma {:induction false} SpacedFar(grants: seq<Grant>, interval: real, nextAt: real, i: nat, j: nat)
    requires Spaced(grants, interval, nextAt) && i <= j < |grants|
    ensures grants[i].slot + Gap(j - i, interval) <= grants[j].slot
    decreases j
  {
    hide Spaced, Gap;
    if i < j {
      SpacedFar(grants, interval, nextAt, i, j - 1);
      SpacedNext(grants, interval, nextAt, j);
      GapGrows(j - 1 - i, interval);
    } else {
      GapGrows(0, interval);
    }
  }

  /** However the calls interleave, the slots granted are at least an interval apart in lock order. */
  lemma SlotsApart(s: State, rps: Option<real>, i: nat, j: nat)
    requires Reachable(s, rps) && i <= j < |s.grants|
    ensures s.grants[i].slot + Gap(j - i, Interval(rps)) <= s.grants[j].slot
  {
    ReachableInv(s, rps);
    Spacing(s);
    hide Inv, Spaced, Reachable, Interval, Gap;
    SpacedFar(s.grants, s.interval, s.nextAt, i, j);
  }

  /** No slot is granted sooner than the clock reading, nor later than it has to be. */
  lemma SlotExact(s: State, rps: Option<real>, i: nat)
    requires Reachable(s, rps) && i < |s.grants|
    ensures s.grants[i].slot
            == MaxReal(s.grants[i].read, if i == 0 then 0.0 else s.grants[i - 1].slot + Interval(rps))
  {
    ReachableInv(s, rps);
  }

  /** A call returns no earlier than the slot it was granted; with a limit every return has one. */
  lemma NeverEarly(s: State, rps: Option<real>, id: nat)
    requires Reachable(s, rps) && id in s.calls && s.calls[id].Started?
    ensures s.calls[id].slot.None? ==> Interval(rps) == 0.0
    ensures s.calls[id].slot.Some?
            ==> Granted(s.grants, id, s.calls[id].slot.value) && s.calls[id].slot.value <= s.calls[id].at <= s.clock
  {
    ReachableInv(s, rps);
  }

  /** At most one call is between acquiring and releasing the lock. */
  lemma MutualExclusion(s: State, rps: Option<real>, a: nat, b: nat)
    requires Reachable(s, rps) && a in s.calls && b in s.calls
    requires Critical(s.calls[a]) && Critical(s.calls[b])
    ensures a == b
  {
    ReachableInv(s, rps);
  }

  /** The calls that have returned by time `t`. */
  function StartedBy(s: State, t: real): set<nat> {
    set id | id in s.calls && s.calls[id].Started? && s.calls[id].at <= t
  }

  /** Every call of a set owns one of the first `m` grants. */
  ghost predicate Own(ids: set<nat>, grants: seq<Grant>, m: int) {
    forall id :: id in ids ==> exists i :: 0 <= i < m && i < |grants| && grants[i].call == id
  }

  lemma {:induction false} Pigeonhole(ids: set<nat>, grants: seq<Grant>, m: nat)
    requires Own(ids, grants, m)
    ensures |ids| <= m
    decreases m
  {
    if m == 0 {
      assert ids == {};
    } else if m - 1 < |grants| {
      var rest := ids - {grants[m - 1].call};
      Pigeonhole(rest, grants, m - 1);
      assert ids <= rest + {grants[m - 1].call};
      SubsetSize(ids, rest + {grants[m - 1].call});
    } else {
      Pigeonhole(ids, grants, m - 1);
    }
  }

  /** The calls one interval apart that fit into the elapsed time, the first one included. */
  function Quota(elapsed: real, interval: real): int
    requires interval > 0.0
  {
    (elapsed / interval).Floor + 1
  }

  lemma WithinQuota(i: nat, elapsed: real, interval: real)
    requires interval > 0.0 && Gap(i, interval) <= elapsed
    ensures i < Quota(elapsed, interval)
  {
    var q := elapsed / interval;
    assert q * interval == elapsed;
    if i as real > q {
      LessTimes(q, i as real, interval);
    }
  }

  lemma LessTimes(a: real, b: real, c: real)
    requires a < b && c > 0.0
    ensures a * c < b * c
  {
    assert (b - a) * c > 0.0;
  }

  /** A call that has returned by `t` owns a grant whose index the elapsed time bounds. */
  lemma OwnsEarlyGrant(s: State, t: real, id: nat)
    requires Inv(s) && id in StartedBy(s, t) && s.interval > 0.0
    ensures exists i: nat :: i < |s.grants| && s.grants[i].call == id
                             && Gap(i, s.interval) <= t - s.grants[0].slot
  {
    assert CallOk(s, id, s.calls[id]);
    var slot := s.calls[id].slot.value;
    hide CallOk, Inv, Spaced, Gap;
    var g :| g in s.grants && g.call == id && g.slot == slot;
    var i: nat :| i < |s.grants| && s.grants[i] == g;
    Spacing(s);
    SpacedFar(s.grants, s.interval, s.nextAt, 0, i);
  }

  lemma EarlyIndex(s: State, t: real, id: nat)
    requires Inv(s) && id in StartedBy(s, t) && s.interval > 0.0
    ensures s.grants != [] && Quota(t - s.grants[0].slot, s.interval) > 0
    ensures t >= s.grants[0].slot
    ensures exists i :: 0 <= i < Quota(t - s.grants[0].slot, s.interval) && i < |s.grants| && s.grants[i].call == id
  {
    hide Inv, StartedBy, Quota, Gap;
    OwnsEarlyGrant(s, t, id);
    var i: nat :| i < |s.grants| && s.grants[i].call == id && Gap(i, s.interval) <= t - s.grants[0].slot;
    WithinQuota(i, t - s.grants[0].slot, s.interval);
    NotNegative(i, s.interval);
  }

  lemma NotNegative(i: nat, interval: real)
    requires interval > 0.0
    ensures Gap(i, interval) >= 0.0
  {
  }

  /** The limit: by time `t` at most floor((t - t0) / interval) + 1 calls have returned, where `t0` is
      the first slot; and none when `t` is before it. */
  lemma RateBound(s: State, rps: Option<real>, t: real)
    requires Reachable(s, rps) && Interval(rps) > 0.0
    ensures s.grants == [] ==> StartedBy(s, t) == {}
    ensures s.grants != [] && t < s.grants[0].slot ==> StartedBy(s, t) == {}
    ensures s.grants != [] && t >= s.grants[0].slot
            ==> |StartedBy(s, t)| <= Quota(t - s.grants[0].slot, Interval(rps))
  {
    ReachableInv(s, rps);
    var ids := StartedBy(s, t);
    hide Inv, Reachable, Interval, StartedBy, Quota;
    if ids == {} {
      if s.grants != [] && t >= s.grants[0].slot {
        GapGrows(0, s.interval);
        WithinQuota(0, t - s.grants[0].slot, s.interval);
      }
    } else {
      var some :| some in ids;
      EarlyIndex(s, t, some);
      var quota := Quota(t - s.grants[0].slot, s.interval);
      forall id | id in ids
        ensures exists i :: 0 <= i < quota && i < |s.grants| && s.grants[i].call == id
      {
        EarlyIndex(s, t, id);
      }
      Pigeonhole(ids, s.grants, quota);
    }
  }
}
