/** Callers of `check_shared` (src-tauri/src/app_updates.rs, lines 675-691): one at a time passes the
    gate, and a caller that waited while another check completed shares that result. Each statement
    between two awaits is a step; the clock is the monotonic `Instant`. */
module CheckGate {
  import opened Basics

  type Caller = nat

  /** A completed network check: who performed it, when it began and when it was cached. */
  datatype Check = Check(performer: Caller, began: nat, completedAt: nat)

  datatype Phase =
    | Waiting
    | Holding
    | Checking(began: nat)
    | Served(check: nat)

  /** A call that captured `requestedAt` on entry. */
  datatype Call = Call(requestedAt: nat, phase: Phase)

  /** `checks` lists the completed checks in order; the cache is the last of them. */
  datatype System = System(clock: nat, gate: Option<Caller>, calls: map<Caller, Call>, checks: seq<Check>)

  datatype Step =
    | Tick(to: nat)
    | Request(caller: Caller)
    | TakeGate(caller: Caller)
    | UseCache(caller: Caller)
    | StartCheck(caller: Caller)
    | FinishCheck(caller: Caller)
    | Drop(caller: Caller)

  /** `cached.completed_at >= requested_at`, for the cached check if there is one. */
  predicate CacheServes(s: System, c: Caller)
    requires c in s.calls
  {
    s.checks != [] && s.checks[|s.checks| - 1].completedAt >= s.calls[c].requestedAt
  }

  function With(s: System, c: Caller, phase: Phase): map<Caller, Call>
    requires c in s.calls
  {
    s.calls[c := s.calls[c].(phase := phase)]
  }

  ghost predicate Next(s: System, step: Step, t: System) {
    match step
    case Tick(to) => to >= s.clock && t == s.(clock := to)
    case Request(c) => c !in s.calls && t == s.(calls := s.calls[c := Call(s.clock, Waiting)])
    case TakeGate(c) =>
      c in s.calls && s.calls[c].phase.Waiting? && s.gate.None? &&
      t == s.(gate := Some(c), calls := With(s, c, Holding))
    case UseCache(c) =>
      c in s.calls && s.calls[c].phase.Holding? && CacheServes(s, c) &&
      t == s.(gate := None, calls := With(s, c, Served(|s.checks| - 1)))
    case StartCheck(c) =>
      c in s.calls && s.calls[c].phase.Holding? && !CacheServes(s, c) &&
      t == s.(calls := With(s, c, Checking(s.clock)))
    case FinishCheck(c) =>
      c in s.calls && s.calls[c].phase.Checking? &&
      t == s.(gate := None, calls := With(s, c, Served(|s.checks|)),
              checks := s.checks + [Check(c, s.calls[c].phase.began, s.clock)])
    case Drop(c) =>
      c in s.calls &&
      t == s.(gate := if s.gate == Some(c) then None else s.gate, calls := s.calls - {c})
  }

  predicate InGate(call: Call) { call.phase.Holding? || call.phase.Checking? }

  predicate CallOk(s: System, c: Caller)
    requires c in s.calls
  {
    var call := s.calls[c];
    && call.requestedAt <= s.clock
    && (InGate(call) <==> s.gate == Some(c))
    && (call.phase.Checking? ==>
          && call.requestedAt <= call.phase.began <= s.clock
          && forall k :: 0 <= k < |s.checks| ==>
               s.checks[k].completedAt < call.requestedAt && s.checks[k].completedAt <= call.phase.began)
    && (call.phase.Served? ==>
          call.phase.check < |s.checks| && s.checks[call.phase.check].completedAt >= call.requestedAt)
  }

  ghost predicate Inv(s: System) {
    && (forall c :: c in s.calls ==> CallOk(s, c))
    && (s.gate.Some? ==> s.gate.value in s.calls)
    && (forall k :: 0 <= k < |s.checks| ==> s.checks[k].began <= s.checks[k].completedAt <= s.clock)
    && (forall j, k :: 0 <= j < k < |s.checks| ==> s.checks[j].completedAt <= s.checks[k].began)
  }

  /** A step other than starting or finishing a check only moves the gate, the clock and the callers. */
  lemma QuietStep(s: System, step: Step, t: System)
    requires Inv(s) && Next(s, step, t) && !step.StartCheck? && !step.FinishCheck?
    ensures Inv(t)
  {
    assert t.checks == s.checks && s.clock <= t.clock;
    forall c | c in t.calls ensures CallOk(t, c) {
      if c in s.calls { assert CallOk(s, c); }
      if s.gate.Some? { assert CallOk(s, s.gate.value); }
    }
    if t.gate.Some? && t.gate == s.gate { assert CallOk(s, s.gate.value); }
  }

  /** A check is started only by a caller that no completed check can serve. */
  lemma StartStep(s: System, c: Caller, t: System)
    requires Inv(s) && Next(s, StartCheck(c), t)
    ensures Inv(t)
  {
    forall k | 0 <= k < |s.checks|
      ensures s.checks[k].completedAt < s.calls[c].requestedAt && s.checks[k].completedAt <= s.clock
    {
      LastIsLatest(s, k);
    }
    forall x | x in t.calls ensures CallOk(t, x) { assert CallOk(s, x); }
  }

  lemma LastIsLatest(s: System, k: nat)
    requires Inv(s) && k < |s.checks|
    ensures s.checks[k].completedAt <= s.checks[|s.checks| - 1].completedAt
  {
    var last := |s.checks| - 1;
    if k < last { assert s.checks[k].completedAt <= s.checks[last].began; }
  }

  lemma FinishStep(s: System, c: Caller, t: System)
    requires Inv(s) && Next(s, FinishCheck(c), t)
    ensures Inv(t)
  {
    assert CallOk(s, c);
    var n := |s.checks|;
    assert forall k :: 0 <= k < n ==> t.checks[k] == s.checks[k];
    forall x | x in t.calls ensures CallOk(t, x) {
      assert CallOk(s, x);
    }
    forall j, k | 0 <= j < k < |t.checks| ensures t.checks[j].completedAt <= t.checks[k].began {
      if k == n { assert s.checks[j].completedAt <= s.calls[c].phase.began; }
    }
  }

  // ---------------------------------------------------------------------------------------
  // Whole runs
  // ---------------------------------------------------------------------------------------

  ghost predicate IsRun(states: seq<System>, steps: seq<Step>) {
    && |states| == |steps| + 1
    && states[0] == System(0, None, map[], [])
    && (forall i :: 0 <= i < |steps| ==> Next(states[i], steps[i], states[i + 1]))
  }

  lemma {:induction false} RunKeepsInv(states: seq<System>, steps: seq<Step>, k: nat)
    requires IsRun(states, steps) && k < |states|
    ensures Inv(states[k])
  {
    hide Next;
    if k > 0 {
      RunKeepsInv(states, steps, k - 1);
      var s, step, t := states[k - 1], steps[k - 1], states[k];
      if step.FinishCheck? {
        FinishStep(s, step.caller, t);
      } else if step.StartCheck? {
        StartStep(s, step.caller, t);
      } else {
        QuietStep(s, step, t);
      }
    }
  }

  /** Mutual exclusion: in every reachable state at most one caller is performing a check, and the
      completed checks, with the one under way after them, never overlapped. */
  lemma ChecksNeverOverlap(states: seq<System>, steps: seq<Step>, k: nat)
    requires IsRun(states, steps) && k < |states|
    ensures var s := states[k];
      && (forall a, b :: a in s.calls && b in s.calls ==>
            s.calls[a].phase.Checking? && s.calls[b].phase.Checking? ==> a == b)
      && (forall i, j :: 0 <= i < j < |s.checks| ==> s.checks[i].completedAt <= s.checks[j].began)
      && (forall a, i :: a in s.calls && s.calls[a].phase.Checking? && 0 <= i < |s.checks| ==>
            s.checks[i].completedAt <= s.calls[a].phase.began)
  {
    hide Next;
    RunKeepsInv(states, steps, k);
    var s := states[k];
    forall a | a in s.calls && s.calls[a].phase.Checking? ensures s.gate == Some(a) {
      assert CallOk(s, a);
    }
    forall a, i | a in s.calls && s.calls[a].phase.Checking? && 0 <= i < |s.checks|
      ensures s.checks[i].completedAt <= s.calls[a].phase.began
    {
      assert CallOk(s, a);
    }
  }

  /** What is cached when a check finishes: who performed it, when it began, and the time it finished, not
      the time it was asked for or began. */
  lemma CachedWhenDone(states: seq<System>, steps: seq<Step>, k: nat)
    requires IsRun(states, steps) && k < |steps| && steps[k].FinishCheck?
    ensures var s, t, c := states[k], states[k + 1], steps[k].caller;
      && c in s.calls && s.calls[c].phase.Checking? && s.gate == Some(c) && t.gate.None?
      && t.checks == s.checks + [Check(c, s.calls[c].phase.began, s.clock)]
      && c in t.calls && t.calls[c].phase == Served(|s.checks|)
  {
    RunKeepsInv(states, steps, k);
    assert Next(states[k], steps[k], states[k + 1]);
    assert CallOk(states[k], steps[k].caller);
  }

  /** Freshness: whoever is served gets a check that completed no earlier than its own request. */
  lemma ResultsAreFresh(states: seq<System>, steps: seq<Step>, k: nat, c: Caller)
    requires IsRun(states, steps) && k < |states| && c in states[k].calls && states[k].calls[c].phase.Served?
    ensures var s := states[k];
      s.calls[c].phase.check < |s.checks| && s.checks[s.calls[c].phase.check].completedAt >= s.calls[c].requestedAt
  {
    hide Next;
    RunKeepsInv(states, steps, k);
    assert CallOk(states[k], c);
  }

  /** Coalescing: a caller that starts a network check asked for it strictly after every check
      completed so far. So whoever asked before some check completed, and takes the gate after it,
      performs no check of its own. */
  lemma WaitersShare(states: seq<System>, steps: seq<Step>, k: nat, i: nat)
    requires IsRun(states, steps) && k < |steps| && steps[k].StartCheck? && i < |states[k].checks|
    ensures var c := steps[k].caller;
      c in states[k].calls && states[k].checks[i].completedAt < states[k].calls[c].requestedAt
  {
    RunKeepsInv(states, steps, k);
    assert Next(states[k], steps[k], states[k + 1]);
    LastIsLatest(states[k], i);
  }

  /** Consecutive checks are separated by a new request: the performer of a later check had not even
      asked when an earlier one completed. */
  lemma {:induction false} EachCheckWasAskedFor(states: seq<System>, steps: seq<Step>, k: nat)
    requires IsRun(states, steps) && k < |steps| && steps[k].FinishCheck?
    ensures var s, c := states[k], steps[k].caller;
      c in s.calls && forall i :: 0 <= i < |s.checks| ==> s.checks[i].completedAt < s.calls[c].requestedAt
  {
    RunKeepsInv(states, steps, k);
    assert Next(states[k], steps[k], states[k + 1]);
    assert CallOk(states[k], steps[k].caller);
  }
}
