/** When an automatic update check is due, how long the scheduler sleeps, and how attempts are
    claimed (src-tauri/src/app_updates.rs, lines 280-311, 616-673 and 739-752). */
module UpdateScheduler {
  import opened Basics

  const AUTOMATIC_WINDOW_MS: int := 86_400_000
  const FLOOR_MS: int := 1_000

  datatype Policy = Policy(
    lastSuccess: int, lastAttempt: int,
    remindVersion: Option<string>, remindAfter: Option<int>, skippedVersion: Option<string>)

  predicate IsI64(x: int) { I64_MIN <= x <= I64_MAX }

  predicate ElapsedAtLeast(now: int, previous: int, duration: int) {
    previous <= 0 || (now >= previous && Clamp64(now - previous) >= duration)
  }

  /** `automatic_due`. */
  predicate Due(p: Policy, now: int) {
    ElapsedAtLeast(now, p.lastSuccess, AUTOMATIC_WINDOW_MS) && ElapsedAtLeast(now, p.lastAttempt, AUTOMATIC_WINDOW_MS)
  }

  function NextEligible(timestamp: int, now: int): int {
    if timestamp <= 0 then now
    else if timestamp > now then Clamp64(now + AUTOMATIC_WINDOW_MS)
    else Clamp64(timestamp + AUTOMATIC_WINDOW_MS)
  }

  /** `next_automatic_delay`, in milliseconds. */
  function Delay(p: Policy, now: int): int {
    if Due(p, now) then 0
    else
      var next := Max(NextEligible(p.lastSuccess, now), NextEligible(p.lastAttempt, now));
      Max(Clamp64(next - now), FLOOR_MS)
  }

  // ---------------------------------------------------------------------------------------
  // One wait
  // ---------------------------------------------------------------------------------------

  /** At every clock reading the delay is zero exactly when a check is due, never negative, and never
      more than a window, so the scheduler's own cap of one day changes nothing. */
  lemma DelayRange(p: Policy, now: int)
    requires IsI64(now) && IsI64(p.lastSuccess) && IsI64(p.lastAttempt)
    ensures Delay(p, now) == 0 <==> Due(p, now)
    ensures 0 <= Delay(p, now) <= AUTOMATIC_WINDOW_MS
  {
  }

  /** A window after this timestamp can be told in an `i64`; zero and below mean "never". */
  predicate Reachable(timestamp: int) { timestamp > 0 ==> timestamp + AUTOMATIC_WINDOW_MS <= I64_MAX }

  predicate Unsaturated(p: Policy) { Reachable(p.lastSuccess) && Reachable(p.lastAttempt) }

  /** How far a timestamp that counts lies ahead of the clock. */
  function Ahead(timestamp: int, now: int): nat { if 0 < timestamp && now < timestamp then timestamp - now else 0 }

  /** How far the furthest timestamp lies ahead of the clock. */
  function Skew(p: Policy, now: int): nat { Max(Ahead(p.lastSuccess, now), Ahead(p.lastAttempt, now)) }

  /** A timestamp within a window of the largest `i64` is never a window old, whatever the clock reads. */
  lemma SaturatedIsNeverDue(p: Policy, now: int)
    requires IsI64(now) && !Unsaturated(p)
    ensures !Due(p, now)
  {
  }

  /** With no timestamp ahead of the clock, one wait reaches a due moment if and only if no timestamp
      lies within a window of the largest `i64`; and when the wait is above the one-second floor, no
      shorter one would have reached one. */
  lemma OneWaitIsExact(p: Policy, now: int)
    requires I64_MIN <= now <= I64_MAX - FLOOR_MS && Skew(p, now) == 0
    ensures Due(p, now + Delay(p, now)) <==> Unsaturated(p)
    ensures Delay(p, now) > FLOOR_MS ==> forall t :: now <= t < now + Delay(p, now) ==> !Due(p, t)
  {
    if !Unsaturated(p) { SaturatedIsNeverDue(p, now + Delay(p, now)); }
  }

  /** The condition can fail: with a success recorded a millisecond too late no wait helps, because the
      scheduler sleeps until the largest time there is. */
  lemma SaturatedWait()
    ensures var now := I64_MAX - AUTOMATIC_WINDOW_MS + 1;
      var p := Policy(now, 0, None, None, None);
      now + Delay(p, now) == I64_MAX && !Due(p, I64_MAX)
  {
  }

  // ---------------------------------------------------------------------------------------
  // Clock rollback
  // ---------------------------------------------------------------------------------------

  /** The time after `n` waits, each as long as the scheduler asks for. */
  function AfterWaits(p: Policy, now: int, n: nat): int
    decreases n
  {
    if n == 0 then now else AfterWaits(p, now + Delay(p, now), n - 1)
  }

  /** Once due, further waits are zero. */
  lemma {:induction false} DueStays(p: Policy, now: int, n: nat)
    requires Due(p, now)
    ensures AfterWaits(p, now, n) == now
  {
    if n > 0 { DueStays(p, now, n - 1); }
  }

  /** A wait with a timestamp ahead of the clock is a whole window, cut off at the largest `i64`, but
      at least the floor. */
  lemma SkewedWait(p: Policy, now: int)
    requires IsI64(now) && Skew(p, now) > 0
    ensures Delay(p, now) == Max(Min(AUTOMATIC_WINDOW_MS, I64_MAX - now), FLOOR_MS)
    ensures Skew(p, now + Delay(p, now)) == Monus(Skew(p, now), Delay(p, now))
  {
  }

  /** Timestamps ahead of the clock, as after a clock rollback, delay the check by at most
      ceil(skew / window) + 1 waits, unless a timestamp lies within a window of the largest `i64`, in
      which case no time there is, is due. */
  lemma {:induction false} WaitsAfterRollback(p: Policy, now: int)
    requires IsI64(now)
    ensures Unsaturated(p) ==> Due(p, AfterWaits(p, now, DivCeil(Skew(p, now), AUTOMATIC_WINDOW_MS) + 1))
    ensures !Unsaturated(p) ==> forall t :: IsI64(t) ==> !Due(p, t)
    decreases Skew(p, now)
  {
    hide Due, Delay, DivCeil;
    var skew := Skew(p, now);
    if !Unsaturated(p) {
      forall t | IsI64(t) ensures !Due(p, t) { SaturatedIsNeverDue(p, t); }
    } else if skew == 0 {
      LastWait(p, now);
      CeilZero();
    } else {
      SkewedWait(p, now);
      var later := now + AUTOMATIC_WINDOW_MS;
      CeilStep(skew, Skew(p, later));
      if skew > AUTOMATIC_WINDOW_MS {
        WaitsAfterRollback(p, later);
      } else {
        LastWait(p, later);
        CeilZero();
      }
    }
  }

  lemma LastWait(p: Policy, now: int)
    requires IsI64(now) && Skew(p, now) == 0 && Unsaturated(p)
    ensures Due(p, AfterWaits(p, now, 1))
  {
    assert AfterWaits(p, now, 1) == AfterWaits(p, now + Delay(p, now), 0);
  }

  lemma CeilZero()
    ensures DivCeil(0, AUTOMATIC_WINDOW_MS) == 0
  {
  }

  lemma CeilStep(skew: nat, rest: nat)
    requires skew > 0 && rest == Monus(skew, AUTOMATIC_WINDOW_MS)
    ensures DivCeil(skew, AUTOMATIC_WINDOW_MS) == DivCeil(rest, AUTOMATIC_WINDOW_MS) + 1
  {
  }

  /** The bound is reached: one millisecond of skew costs two waits. */
  lemma RollbackBoundIsTight()
    ensures var p := Policy(1_000_001, 0, None, None, None);
      !Due(p, AfterWaits(p, 1_000_000, 1)) && Due(p, AfterWaits(p, 1_000_000, 2))
  {
    var p := Policy(1_000_001, 0, None, None, None);
    assert Delay(p, 1_000_000) == AUTOMATIC_WINDOW_MS;
    assert AfterWaits(p, 1_000_000, 1) == AfterWaits(p, 87_400_000, 0);
    assert Delay(p, 87_400_000) == FLOOR_MS;
    assert AfterWaits(p, 87_400_000, 1) == AfterWaits(p, 87_401_000, 0);
    assert AfterWaits(p, 1_000_000, 2) == AfterWaits(p, 87_400_000, 1);
  }

  // ---------------------------------------------------------------------------------------
  // Claims over whole runs
  // ---------------------------------------------------------------------------------------

  /** A claim and a user's decision hold the policy lock from load to write, so each is one step, as is
      the projection of an offer. Recording a successful check takes no lock: its load and its write are
      two steps, between which others may run. A load that finds an unreadable policy replaces it by the
      default one. `ok` is false when a write fails. */
  datatype Op =
    | Claim(now: int, ok: bool)
    | Repair
    | LoadForSuccess
    | WriteSuccess(now: int, ok: bool)
    | Project(version: string, now: int, ok: bool)
    | Decide(remindVersion: Option<string>, remindAfter: Option<int>, skippedVersion: Option<string>)

  /** The stored policy, the times of the attempts that were claimed, and the policy that a success about
      to be recorded was loaded with. The check gate lets one success be recorded at a time. */
  datatype State = State(policy: Policy, claims: seq<int>, loaded: Option<Policy>)

  /** `project_automatic_offer`: whether to show the offer, and the policy it leaves behind. */
  function Offer(p: Policy, version: string, now: int): (bool, Policy) {
    var remindActive := p.remindVersion == Some(version) && p.remindAfter.Some? && now < p.remindAfter.value;
    var skipped := p.skippedVersion == Some(version);
    var q := if remindActive then p else p.(remindVersion := None, remindAfter := None);
    (!remindActive && !skipped, if skipped then q else q.(skippedVersion := None))
  }

  function Apply(s: State, op: Op): State {
    match op
    case Claim(now, ok) =>
      if Due(s.policy, now) && ok then s.(policy := s.policy.(lastAttempt := now), claims := s.claims + [now]) else s
    case Repair => s.(policy := Policy(0, 0, None, None, None))
    case LoadForSuccess => if s.loaded.None? then s.(loaded := Some(s.policy)) else s
    case WriteSuccess(now, ok) =>
      if s.loaded.None? then s
      else State(if ok then s.loaded.value.(lastSuccess := now) else s.policy, s.claims, None)
    case Project(version, now, ok) => if ok then s.(policy := Offer(s.policy, version, now).1) else s
    case Decide(v, after, skip) =>
      s.(policy := s.policy.(remindVersion := v, remindAfter := after, skippedVersion := skip))
  }

  /** The state after the first `k` operations. */
  function Run(s: State, ops: seq<Op>, k: nat): State
    requires k <= |ops|
  {
    if k == 0 then s else Apply(Run(s, ops, k - 1), ops[k - 1])
  }

  /** Consecutive claims at positive times are a window apart. */
  predicate Spaced(claims: seq<int>) {
    forall i :: 0 <= i < |claims| - 1 && claims[i] > 0 ==> claims[i + 1] >= claims[i] + AUTOMATIC_WINDOW_MS
  }

  /** The policy still remembers something as recent as the last claim. */
  predicate Remembered(s: State) {
    s.claims == [] ||
    var last := s.claims[|s.claims| - 1];
    last <= 0 || s.policy.lastAttempt >= last || s.policy.lastSuccess >= last
  }

  /** The last claim is forgotten, and there is a time at which the next check is due. */
  predicate Forgotten(s: State) { !Remembered(s) && Unsaturated(s.policy) }

  /** An operation that forgets the last claim: a repair, or a write that was loaded without that claim
      and records a success of an earlier time, if a window after its timestamps can still be told. */
  predicate Forgets(s: State, op: Op) {
    s.claims != [] &&
    var last := s.claims[|s.claims| - 1];
    last > 0 &&
    (op.Repair? ||
     (op.WriteSuccess? && op.ok && s.loaded.Some? && s.loaded.value.lastAttempt < last && op.now < last &&
      Reachable(op.now) && Reachable(s.loaded.value.lastAttempt)))
  }

  lemma StepForgetsIff(s: State, op: Op)
    requires !Forgotten(s)
    ensures Forgotten(Apply(s, op)) <==> Forgets(s, op)
  {
    hide Due, Offer;
    OfferKeepsTimes(s.policy, if op.Project? then op.version else "", if op.Project? then op.now else 0);
  }

  lemma OfferKeepsTimes(p: Policy, version: string, now: int)
    ensures var q := Offer(p, version, now).1; q.lastSuccess == p.lastSuccess && q.lastAttempt == p.lastAttempt
  {
  }

  /** A claim too early can be made next, at a time that exists, if and only if the last one is
      forgotten. */
  lemma EarlyClaimIff(s: State)
    requires s.claims != [] && s.claims[|s.claims| - 1] > 0
    ensures (exists t :: IsI64(t) && Due(s.policy, t) && t < s.claims[|s.claims| - 1] + AUTOMATIC_WINDOW_MS) <==>
            Forgotten(s)
  {
    var p, last := s.policy, s.claims[|s.claims| - 1];
    if Forgotten(s) {
      var t := Max(Max(p.lastAttempt, p.lastSuccess), 0) + AUTOMATIC_WINDOW_MS;
      assert IsI64(t) && Due(p, t) && t < last + AUTOMATIC_WINDOW_MS;
    } else {
      forall t | IsI64(t) && Due(p, t) ensures t >= last + AUTOMATIC_WINDOW_MS {
        if !Unsaturated(p) { SaturatedIsNeverDue(p, t); }
      }
    }
  }

  lemma StepSpaced(s: State, op: Op)
    requires !Forgotten(s) && Spaced(s.claims) && (op.Claim? ==> IsI64(op.now))
    ensures Spaced(Apply(s, op).claims)
  {
    hide Offer;
    if op.Claim? && Due(s.policy, op.now) && s.claims != [] && s.claims[|s.claims| - 1] > 0 { EarlyClaimIff(s); }
  }

  /** The clock reads an `i64`. */
  predicate Clocked(ops: seq<Op>) { forall i :: 0 <= i < |ops| && ops[i].Claim? ==> IsI64(ops[i].now) }

  lemma {:induction false} RunStaysSpaced(s: State, ops: seq<Op>, k: nat)
    requires s.claims == [] && Clocked(ops) && k <= |ops|
    requires forall i :: 0 <= i < k ==> !Forgets(Run(s, ops, i), ops[i])
    ensures !Forgotten(Run(s, ops, k)) && Spaced(Run(s, ops, k).claims)
  {
    hide Apply, Forgets;
    if k > 0 {
      RunStaysSpaced(s, ops, k - 1);
      StepSpaced(Run(s, ops, k - 1), ops[k - 1]);
      StepForgetsIff(Run(s, ops, k - 1), ops[k - 1]);
    }
  }

  /** Whatever claim is tried at whatever time after the first `k` operations, claims stay spaced. */
  ghost predicate SafeAt(s: State, ops: seq<Op>, k: nat)
    requires k <= |ops|
  {
    forall t :: IsI64(t) ==> Spaced(Apply(Run(s, ops, k), Claim(t, true)).claims)
  }

  ghost predicate AlwaysSafe(s: State, ops: seq<Op>) { forall k :: 0 <= k <= |ops| ==> SafeAt(s, ops, k) }

  ghost predicate NeverForgets(s: State, ops: seq<Op>) {
    forall k :: 0 <= k < |ops| ==> !Forgets(Run(s, ops, k), ops[k])
  }

  lemma ForgottenIsUnsafe(s: State, ops: seq<Op>, k: nat)
    requires k <= |ops| && Forgotten(Run(s, ops, k))
    ensures !SafeAt(s, ops, k)
  {
    hide Run;
    var now := Run(s, ops, k);
    EarlyClaimIff(now);
    var n := |now.claims|;
    var t :| IsI64(t) && Due(now.policy, t) && t < now.claims[n - 1] + AUTOMATIC_WINDOW_MS;
    var after := Apply(now, Claim(t, true)).claims;
    assert after == now.claims + [t] && after[n - 1] == now.claims[n - 1] && after[n] == t;
    assert !Spaced(after);
  }

  /** Over every run, for any movement of the clock and any interleaving with unlocked records: claims at
      positive times can never be brought closer than a window, at any point of the run, if and only if
      no operation forgets a claim. */
  lemma AlwaysSafeIff(s: State, ops: seq<Op>)
    requires s.claims == [] && Clocked(ops)
    ensures AlwaysSafe(s, ops) <==> NeverForgets(s, ops)
  {
    hide Apply, Forgets, Forgotten, Spaced;
    if NeverForgets(s, ops) {
      forall k | 0 <= k <= |ops| ensures SafeAt(s, ops, k) {
        RunStaysSpaced(s, ops, k);
        forall t | IsI64(t) ensures Spaced(Apply(Run(s, ops, k), Claim(t, true)).claims) {
          StepSpaced(Run(s, ops, k), Claim(t, true));
        }
      }
      assert AlwaysSafe(s, ops);
    }
    if AlwaysSafe(s, ops) {
      forall k | 0 <= k < |ops| ensures !Forgets(Run(s, ops, k), ops[k]) { SafeForgetsNothing(s, ops, k); }
    }
  }

  lemma SafeForgetsNothing(s: State, ops: seq<Op>, k: nat)
    requires AlwaysSafe(s, ops) && k < |ops|
    ensures !Forgets(Run(s, ops, k), ops[k])
  {
    hide Apply, Forgets, Forgotten, SafeAt;
    assert SafeAt(s, ops, k) && SafeAt(s, ops, k + 1);
    if Forgotten(Run(s, ops, k)) { ForgottenIsUnsafe(s, ops, k); }
    if Forgotten(Run(s, ops, k + 1)) { ForgottenIsUnsafe(s, ops, k + 1); }
    StepForgetsIff(Run(s, ops, k), ops[k]);
  }

  /** A concrete loss: a success of time 5 is loaded, an attempt is claimed at time 20, the success is
      written, and a second attempt is claimed 15 milliseconds short of a window later. */
  lemma LostClaim()
    ensures var s := State(Policy(0, 0, None, None, None), [], None);
      var ops := [LoadForSuccess, Claim(20, true), WriteSuccess(5, true), Claim(AUTOMATIC_WINDOW_MS + 5, true)];
      Run(s, ops, 4).claims == [20, AUTOMATIC_WINDOW_MS + 5] && !Spaced(Run(s, ops, 4).claims)
  {
    var s := State(Policy(0, 0, None, None, None), [], None);
    var ops := [LoadForSuccess, Claim(20, true), WriteSuccess(5, true), Claim(AUTOMATIC_WINDOW_MS + 5, true)];
    assert Run(s, ops, 1) == State(s.policy, [], Some(s.policy)) by { assert Run(s, ops, 0) == s; }
    assert Run(s, ops, 2).claims == [20] && Run(s, ops, 2).loaded == Some(s.policy);
    assert Run(s, ops, 3) == State(s.policy.(lastSuccess := 5), [20], None);
    var claims := Run(s, ops, 4).claims;
    assert claims == [20, AUTOMATIC_WINDOW_MS + 5];
    assert claims[0] > 0 && claims[0 + 1] < claims[0] + AUTOMATIC_WINDOW_MS;
  }

  /** So in a run that forgets nothing, n claims after a positive one at least n windows have gone by. */
  lemma {:induction false} ClaimsAreSpaced(s: State, ops: seq<Op>, i: nat, j: nat)
    requires s.claims == [] && Clocked(ops) && NeverForgets(s, ops) && i <= j < |Run(s, ops, |ops|).claims|
    requires forall k :: i <= k < j ==> Run(s, ops, |ops|).claims[k] > 0
    ensures var claims := Run(s, ops, |ops|).claims; claims[j] >= claims[i] + (j - i) * AUTOMATIC_WINDOW_MS
    decreases j - i
  {
    hide Run, Forgets;
    RunStaysSpaced(s, ops, |ops|);
    if i < j { ClaimsAreSpaced(s, ops, i, j - 1); }
  }

  /** Positive times are needed: a claim at the epoch, where the clock reads zero, can be repeated
      at once. */
  lemma EpochClaimsRepeat()
    ensures var s := State(Policy(0, 0, None, None, None), [], None);
      Run(s, [Claim(0, true), Claim(0, true)], 2).claims == [0, 0]
  {
    var s := State(Policy(0, 0, None, None, None), [], None);
    var ops := [Claim(0, true), Claim(0, true)];
    assert Run(s, ops, 0) == s;
    assert Run(s, ops, 1).claims == [0];
  }

  /** An offer is shown unless its version was skipped or a reminder for it lies ahead; what was noted
      about other versions is dropped, a reminder that has come is dropped, and the rest stays. */
  lemma OfferShownIff(p: Policy, version: string, now: int)
    ensures var (show, q) := Offer(p, version, now);
      var later := p.remindVersion == Some(version) && p.remindAfter.Some? && now < p.remindAfter.value;
      && (show <==> p.skippedVersion != Some(version) && !later)
      && q.lastSuccess == p.lastSuccess && q.lastAttempt == p.lastAttempt
      && (q.skippedVersion.Some? <==> p.skippedVersion == Some(version))
      && (q.skippedVersion.Some? ==> q.skippedVersion == Some(version))
      && (later ==> q.remindVersion == p.remindVersion && q.remindAfter == p.remindAfter)
      && (!later ==> q.remindVersion.None? && q.remindAfter.None?)
  {
  }

  /** Showing an offer settles its bookkeeping: looking again at the same moment gives the same answer
      and changes nothing. */
  lemma OfferIsIdempotent(p: Policy, version: string, now: int)
    ensures var (show, q) := Offer(p, version, now); Offer(q, version, now) == (show, q)
  {
  }

  // ---------------------------------------------------------------------------------------
  // The stored policy as an object
  // ---------------------------------------------------------------------------------------

  class Service {
    var policy: Policy

    constructor ()
      ensures policy == Policy(0, 0, None, None, None)
    {
      policy := Policy(0, 0, None, None, None);
    }

    /** `claim_automatic_attempt`: a claim can be repeated at the same time only if the
        clock reads zero or less, and a failed write claims nothing. */
    method ClaimAutomaticAttempt(now: int, writeOk: bool) returns (r: Result<bool, ()>)
      modifies this
      ensures policy == Apply(State(old(policy), [], None), Claim(now, writeOk)).policy
      ensures r == Ok(true) <==> Due(old(policy), now) && writeOk
      ensures r == Ok(true) ==> policy == old(policy).(lastAttempt := now) && (Due(policy, now) <==> now <= 0)
      ensures r != Ok(true) ==> policy == old(policy)
      ensures r.Err? <==> Due(old(policy), now) && !writeOk
    {
      if !Due(policy, now) { return Ok(false); }
      if !writeOk { return Err(()); }
      policy := policy.(lastAttempt := now);
      r := Ok(true);
    }

    /** `project_automatic_offer`, in place (lines 642-673). */
    method ProjectAutomaticOffer(version: string, now: int) returns (show: bool, changed: bool)
      modifies this
      ensures (show, policy) == Offer(old(policy), version, now)
      ensures policy == Apply(State(old(policy), [], None), Project(version, now, true)).policy
      ensures changed <==> policy != old(policy)
      ensures policy.lastSuccess == old(policy).lastSuccess && policy.lastAttempt == old(policy).lastAttempt
    {
      changed := false;
      var remindActive := false;
      if policy.remindVersion == Some(version) {
        remindActive := policy.remindAfter.Some? && now < policy.remindAfter.value;
      } else if policy.remindVersion.Some? || policy.remindAfter.Some? {
        policy := policy.(remindVersion := None, remindAfter := None);
        changed := true;
      }
      var skipped := policy.skippedVersion == Some(version);
      if !skipped && policy.skippedVersion.Some? {
        policy := policy.(skippedVersion := None);
        changed := true;
      }
      if !remindActive && policy.remindVersion == Some(version) {
        policy := policy.(remindVersion := None, remindAfter := None);
        changed := true;
      }
      show := !remindActive && !skipped;
    }
  }
}
