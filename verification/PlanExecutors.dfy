/** Any number of executors of one signed plan over one durable store. `execute_action_plan`
    (src-tauri/src/agentic_loop.rs, lines 2833-2862) runs a plan without approval, origin guard or lease,
    so nothing keeps two calls for the same plan from overlapping. Each executor steps as in
    `PlanExecution`; only the memory of its own run is private to it. */
module PlanExecutors {
  import opened Basics
  import opened PlanExecution

  type Executor = nat

  datatype Shared = Shared(
    durable: Durable, processes: map<Executor, Process>, invocations: seq<nat>, responses: seq<seq<Output>>)

  datatype Act = Act(who: Executor, event: Event)

  function Own(m: Shared, e: Executor): Process { if e in m.processes then m.processes[e] else Idle }

  /** What one executor sees. */
  function View(m: Shared, e: Executor): System { System(m.durable, Own(m, e), m.invocations, m.responses) }

  predicate Quiet(m: Shared) { forall e :: e in m.processes ==> m.processes[e].Idle? }

  /** One executor moves. Recovery marks run at application start, when no executor is active. */
  ghost predicate Step(m: Shared, a: Act, n: Shared, steps: nat) {
    && (a.event.Restart? ==> Quiet(m))
    && Next(View(m, a.who), a.event, View(n, a.who), steps)
    && n.processes == m.processes[a.who := Own(n, a.who)]
  }

  // ---------------------------------------------------------------------------------------
  // Receipts of a list of rows, up to a position
  // ---------------------------------------------------------------------------------------

  lemma {:induction false} PrefixReceipts(actions: seq<Action>, j: nat, k: nat)
    requires j <= k <= |actions|
    ensures Receipts(actions[..j]) <= Receipts(actions[..k])
  {
    if j < k {
      PrefixReceipts(actions, j, k - 1);
      assert actions[..k][..k - 1] == actions[..k - 1];
    }
  }

  /** Changing a row that was no receipt does not lower any count. */
  lemma {:induction false} UpdateCount(actions: seq<Action>, id: nat, row: Action, k: nat)
    requires id < |actions| && k <= |actions| && !actions[id].status.Sealed?
    ensures |Receipts(actions[id := row][..k])| >= |Receipts(actions[..k])|
    ensures !row.status.Sealed? ==> Receipts(actions[id := row][..k]) == Receipts(actions[..k])
  {
    if k > 0 {
      UpdateCount(actions, id, row, k - 1);
      assert actions[..k][..k - 1] == actions[..k - 1];
      assert actions[id := row][..k][..k - 1] == actions[id := row][..k - 1];
    }
  }

  /** Sealing a row with no receipt after it appends the receipt. */
  lemma {:induction false} SealAppends(actions: seq<Action>, id: nat, row: Action, k: nat)
    requires id < k <= |actions| && !actions[id].status.Sealed? && row.status.Sealed? && row.output.Some?
    requires |Receipts(actions[..k])| == |Receipts(actions[..id])|
    ensures Receipts(actions[id := row][..k]) == Receipts(actions[..k]) + [row]
    decreases k
  {
    var after := actions[id := row];
    assert actions[..k][..k - 1] == actions[..k - 1] && after[..k][..k - 1] == after[..k - 1];
    PrefixReceipts(actions, id, k - 1);
    if k == id + 1 {
      assert after[..id] == actions[..id];
    } else {
      SealAppends(actions, id, row, k - 1);
    }
  }

  lemma Whole(actions: seq<Action>)
    ensures actions[..|actions|] == actions
  {
  }

  // ---------------------------------------------------------------------------------------
  // The invariant
  // ---------------------------------------------------------------------------------------

  /** Receipt number k is a trusted output of plan step k. */
  predicate ReceiptsOk(actions: seq<Action>, steps: nat) {
    var r := Receipts(actions);
    |r| <= steps && forall k :: 0 <= k < |r| ==> r[k].step == k && r[k].output.Some? && Trusted(r[k].output.value)
  }

  /** The row an executor is working on. */
  function RowId(p: Process): Option<nat> {
    if p.Idle? then None
    else
      match p.phase
      case Ready => None
      case Marked => None
      case Recorded(id) => Some(id)
      case Begun(id) => Some(id)
      case Invoked(id) => Some(id)
      case Returned(id, _) => Some(id)
  }

  /** It stands as the executor left it, after the receipts of all earlier steps. */
  predicate RowHeld(d: Durable, p: Process)
    requires p.Active? && p.resume <= p.step
  {
    RowId(p).Some? ==>
      var id, planned := RowId(p).value, PlannedStep(p.approved, p.resume, p.step);
      && id < |d.actions|
      && d.actions[id] == Action(planned, if p.phase.Recorded? then Prepared else Started, None)
      && p.step <= |Receipts(d.actions[..id])|
  }

  /** An executor may be behind the receipts, but never ahead of them, and what it remembers is true. */
  predicate ExecutorOk(d: Durable, p: Process, steps: nat) {
    p.Active? ==>
      && p.resume <= p.step <= steps
      && p.step <= |Receipts(d.actions)|
      && (Unsafe(p) ==> p.step == p.resume && !HasInvoked(p))
      && p.outputs == ReceiptOutputs(d)[..p.step]
      && (!p.phase.Ready? ==> p.step < steps)
      && RowHeld(d, p)
  }

  predicate CursorOk(d: Durable) {
    if d.cursor.Some? then d.cursor.value.step <= |Receipts(d.actions)| else Receipts(d.actions) == []
  }

  ghost predicate Apart(m: Shared) {
    forall e, f :: e in m.processes && f in m.processes && e != f && RowId(m.processes[e]).Some? ==>
      RowId(m.processes[f]) != RowId(m.processes[e])
  }

  ghost predicate AllOk(m: Shared, steps: nat) {
    forall e :: e in m.processes ==> ExecutorOk(m.durable, m.processes[e], steps)
  }

  ghost predicate ResponsesOk(m: Shared, steps: nat) {
    forall i :: 0 <= i < |m.responses| ==> ResponseOk(m.responses[i], steps)
  }

  ghost predicate SharedInv(m: Shared, steps: nat) {
    && ReceiptsOk(m.durable.actions, steps) && CursorOk(m.durable)
    && AllOk(m, steps) && Apart(m) && ResponsesOk(m, steps)
  }

  // ---------------------------------------------------------------------------------------
  // What a step does to the rows of others
  // ---------------------------------------------------------------------------------------

  /** Receipts are only appended, and no row but `mine` changes. */
  ghost predicate Grows(a: seq<Action>, b: seq<Action>, mine: Option<nat>) {
    && |a| <= |b| && Receipts(a) <= Receipts(b)
    && forall id :: 0 <= id < |a| && mine != Some(id) ==>
         b[id] == a[id] && |Receipts(b[..id])| >= |Receipts(a[..id])|
  }

  lemma GrowsBySnoc(a: seq<Action>, row: Action)
    requires !row.status.Sealed?
    ensures Grows(a, a + [row], None) && Receipts(a + [row]) == Receipts(a)
  {
    hide Receipts;
    ReceiptsSnoc(a, row);
    forall id | 0 <= id < |a| ensures |Receipts((a + [row])[..id])| >= |Receipts(a[..id])| {
      assert (a + [row])[..id] == a[..id];
    }
  }

  lemma GrowsByUpdate(a: seq<Action>, id: nat, row: Action)
    requires id < |a| && !a[id].status.Sealed? && !row.status.Sealed?
    ensures Grows(a, a[id := row], Some(id)) && Receipts(a[id := row]) == Receipts(a)
    ensures Receipts(a[id := row][..id]) == Receipts(a[..id])
  {
    hide Receipts;
    Whole(a);
    Whole(a[id := row]);
    UpdateCount(a, id, row, |a|);
    UpdateCount(a, id, row, id);
    forall x | 0 <= x < |a| ensures |Receipts(a[id := row][..x])| >= |Receipts(a[..x])| {
      UpdateCount(a, id, row, x);
    }
  }

  lemma GrowsBySeal(a: seq<Action>, id: nat, row: Action)
    requires id < |a| && !a[id].status.Sealed? && row.status.Sealed? && row.output.Some?
    requires |Receipts(a)| <= |Receipts(a[..id])|
    ensures Grows(a, a[id := row], Some(id)) && Receipts(a[id := row]) == Receipts(a) + [row]
  {
    hide Receipts;
    Whole(a);
    Whole(a[id := row]);
    PrefixReceipts(a, id, |a|);
    SealAppends(a, id, row, |a|);
    forall x | 0 <= x < |a| ensures |Receipts(a[id := row][..x])| >= |Receipts(a[..x])| {
      UpdateCount(a, id, row, x);
    }
  }

  lemma GrowsNot(a: seq<Action>, mine: Option<nat>)
    ensures Grows(a, a, mine)
  {
  }

  /** Outputs of receipts that are kept are kept. */
  lemma OutputsKept(d: Durable, f: Durable, n: nat)
    requires Receipts(d.actions) <= Receipts(f.actions) && n <= |Receipts(d.actions)|
    ensures ReceiptOutputs(f)[..n] == ReceiptOutputs(d)[..n]
  {
    hide Receipts;
    ReceiptsHaveOutputs(d.actions);
    ReceiptsHaveOutputs(f.actions);
  }

  /** An executor that does not move stays right, whatever another does. */
  lemma OthersStayOk(d: Durable, f: Durable, p: Process, steps: nat, mine: Option<nat>)
    requires ExecutorOk(d, p, steps) && Grows(d.actions, f.actions, mine)
    requires mine.Some? ==> RowId(p) != mine
    ensures ExecutorOk(f, p, steps)
  {
    hide Receipts, ReceiptOutputs;
    if p.Active? { OutputsKept(d, f, p.step); }
  }

  // ---------------------------------------------------------------------------------------
  // Every step keeps the invariant
  // ---------------------------------------------------------------------------------------

  /** An executor keeps its row or takes a new one. */
  predicate RowKept(s: System, t: System) {
    RowId(t.process).Some? ==>
      RowId(t.process) == RowId(s.process) || RowId(t.process).value >= |s.durable.actions|
  }

  /** What the moving executor needs and leaves behind. */
  ghost predicate MoveOk(s: System, t: System, steps: nat) {
    && Grows(s.durable.actions, t.durable.actions, RowId(s.process))
    && ReceiptsOk(t.durable.actions, steps)
    && CursorOk(t.durable)
    && ExecutorOk(t.durable, t.process, steps)
    && RowKept(s, t)
  }

  ghost predicate ViewOk(s: System, steps: nat) {
    ReceiptsOk(s.durable.actions, steps) && CursorOk(s.durable) && ExecutorOk(s.durable, s.process, steps)
  }

  lemma StartMove(s: System, e: Event, t: System, steps: nat)
    requires ViewOk(s, steps) && Next(s, e, t, steps) && e.Start?
    ensures MoveOk(s, t, steps)
  {
    hide Receipts, ValidOutput, CommitCheckpoint, Grows;
    GrowsNot(s.durable.actions, RowId(s.process));
    var r := ReceiptOutputs(s.durable);
    assert r[..|r|] == r;
  }

  /** Events that change neither rows nor receipts. */
  lemma QuietMove(s: System, e: Event, t: System, steps: nat)
    requires ViewOk(s, steps) && Next(s, e, t, steps)
    requires e.AskPermission? || e.MarkRunning? || e.Return? || e.Finish? || e.Crash? || e.Restart?
    ensures MoveOk(s, t, steps)
  {
    hide Receipts, ValidOutput, CommitCheckpoint, Grows, Load;
    GrowsNot(s.durable.actions, RowId(s.process));
    OutputsSame(s.durable, t.durable);
  }

  lemma InvokeMove(s: System, e: Event, t: System, steps: nat)
    requires ViewOk(s, steps) && Next(s, e, t, steps) && e.Invoke? && !Unsafe(s.process)
    ensures MoveOk(s, t, steps)
  {
    hide Receipts, ValidOutput, CommitCheckpoint, Grows, Load;
    GrowsNot(s.durable.actions, RowId(s.process));
  }

  lemma OutputsSame(d: Durable, f: Durable)
    requires d.actions == f.actions
    ensures ReceiptOutputs(d) == ReceiptOutputs(f)
  {
  }

  lemma RecordMove(s: System, e: Event, t: System, steps: nat)
    requires ViewOk(s, steps) && Next(s, e, t, steps) && e.Record?
    ensures MoveOk(s, t, steps)
  {
    hide Receipts, ValidOutput, CommitCheckpoint, Load, ReceiptOutputs, Grows;
    var d, p := s.durable, s.process;
    var row := Action(PlannedStep(p.approved, p.resume, p.step), Prepared, None);
    GrowsBySnoc(d.actions, row);
    OutputsKept(d, t.durable, p.step);
    assert t.durable.actions[..|d.actions|] == d.actions;
  }

  /** Events that change the executor's own row without sealing it. */
  lemma RowMove(s: System, e: Event, t: System, steps: nat)
    requires ViewOk(s, steps) && Next(s, e, t, steps) && (e.BeginInvocation? || e.Close? || e.CaptureSensor?)
    ensures MoveOk(s, t, steps)
  {
    hide Receipts, ValidOutput, CommitCheckpoint, Load, ReceiptOutputs, Grows;
    var d, p := s.durable, s.process;
    var id := p.phase.id;
    assert t.durable.actions == d.actions[id := t.durable.actions[id]];
    GrowsByUpdate(d.actions, id, t.durable.actions[id]);
    OutputsKept(d, t.durable, p.step);
  }

  /** The store's tests on cursor and count make a sealed receipt the next one in plan order, whoever
      else is running. */
  lemma CommitMove(s: System, e: Event, t: System, steps: nat)
    requires ViewOk(s, steps) && Next(s, e, t, steps) && e.Commit?
    ensures MoveOk(s, t, steps)
    ensures |Receipts(t.durable.actions)| == |Receipts(s.durable.actions)| + 1
  {
    hide Receipts, ValidOutput, Load, ReceiptOutputs, Grows;
    var d, p := s.durable, s.process;
    var o := p.phase.output.(claims := p.phase.output.claims + [e.claim]);
    var row := d.actions[p.phase.id].(status := Sealed, output := Some(o));
    GrowsBySeal(d.actions, p.phase.id, row);
    SealedOutput(d, t.durable, row);
  }

  lemma SealedOutput(d: Durable, f: Durable, row: Action)
    requires row.output.Some? && Receipts(f.actions) == Receipts(d.actions) + [row]
    ensures var n := |Receipts(d.actions)|;
      ReceiptOutputs(f)[..n + 1] == ReceiptOutputs(d)[..n] + [row.output.value]
  {
    hide Receipts;
    ReceiptsHaveOutputs(d.actions);
    OutputsSnoc(Receipts(d.actions), row);
  }

  lemma EveryMove(s: System, e: Event, t: System, steps: nat)
    requires ViewOk(s, steps) && Next(s, e, t, steps) && !UnsafeInvocation(s, e)
    ensures MoveOk(s, t, steps)
  {
    hide ViewOk, Next, MoveOk;
    match e {
      case Start(_) => StartMove(s, e, t, steps);
      case Invoke => InvokeMove(s, e, t, steps);
      case Record => RecordMove(s, e, t, steps);
      case BeginInvocation => RowMove(s, e, t, steps);
      case Close => RowMove(s, e, t, steps);
      case CaptureSensor => RowMove(s, e, t, steps);
      case Commit(_) => CommitMove(s, e, t, steps);
      case _ => QuietMove(s, e, t, steps);
    }
  }

  /** A response is only given for all steps. */
  lemma ResponseStep(s: System, e: Event, t: System, steps: nat)
    requires ViewOk(s, steps) && Next(s, e, t, steps)
    ensures t.responses == s.responses
            || (t.responses == s.responses + [s.process.outputs] && ResponseOk(s.process.outputs, steps))
  {
    hide Receipts, ValidOutput, CommitCheckpoint, Load, RowHeld;
    if e.Finish? {
      ReceiptsHaveOutputs(s.durable.actions);
    }
  }

  lemma StepKeepsShared(m: Shared, a: Act, n: Shared, steps: nat)
    requires SharedInv(m, steps) && Step(m, a, n, steps) && !UnsafeInvocation(View(m, a.who), a.event)
    ensures SharedInv(n, steps) && Receipts(m.durable.actions) <= Receipts(n.durable.actions)
  {
    hide Next, ReceiptsOk, CursorOk, ExecutorOk, UnsafeInvocation, ResponseOk, Receipts;
    var s, t := View(m, a.who), View(n, a.who);
    assert ExecutorOk(s.durable, s.process, steps) by { IdleIsOk(s.durable, steps); }
    EveryMove(s, a.event, t, steps);
    ResponseStep(s, a.event, t, steps);
    assert Receipts(m.durable.actions) <= Receipts(n.durable.actions);
    forall e | e in n.processes ensures ExecutorOk(n.durable, n.processes[e], steps) {
      if e != a.who {
        assert n.processes[e] == m.processes[e];
        OthersStayOk(m.durable, n.durable, m.processes[e], steps, RowId(s.process));
      }
    }
    StillApart(m, a, n, steps);
  }

  lemma IdleIsOk(d: Durable, steps: nat)
    ensures ExecutorOk(d, Idle, steps)
  {
  }

  lemma StillApart(m: Shared, a: Act, n: Shared, steps: nat)
    requires Apart(m) && AllOk(m, steps) && n.processes == m.processes[a.who := Own(n, a.who)]
    requires RowKept(View(m, a.who), View(n, a.who))
    ensures Apart(n)
  {
    hide Receipts, ReceiptOutputs;
    forall e | e in m.processes && RowId(m.processes[e]).Some?
      ensures RowId(m.processes[e]).value < |m.durable.actions|
    {
      assert ExecutorOk(m.durable, m.processes[e], steps);
    }
  }

  // ---------------------------------------------------------------------------------------
  // Whole runs
  // ---------------------------------------------------------------------------------------

  const NOBODY := Shared(Durable(None, []), map[], [], [])

  /** A run from an empty store by any number of executors, overlapping or not. */
  ghost predicate IsSharedRun(states: seq<Shared>, acts: seq<Act>, steps: nat) {
    && |states| == |acts| + 1 && states[0] == NOBODY
    && (forall i :: 0 <= i < |acts| ==> Step(states[i], acts[i], states[i + 1], steps))
  }

  ghost predicate Unsafely(states: seq<Shared>, acts: seq<Act>, i: nat)
    requires i < |acts| < |states|
  {
    UnsafeInvocation(View(states[i], acts[i].who), acts[i].event)
  }

  lemma {:induction false} SharedKeeps(states: seq<Shared>, acts: seq<Act>, steps: nat, k: nat)
    requires IsSharedRun(states, acts, steps) && k <= |acts| && forall i :: 0 <= i < k ==> !Unsafely(states, acts, i)
    ensures SharedInv(states[k], steps)
  {
    hide Step, SharedInv, UnsafeInvocation;
    if k == 0 {
      NobodyIsOk(steps);
    } else {
      SharedKeeps(states, acts, steps, k - 1);
      assert !Unsafely(states, acts, k - 1);
      StepKeepsShared(states[k - 1], acts[k - 1], states[k], steps);
    }
  }

  lemma NobodyIsOk(steps: nat)
    ensures SharedInv(NOBODY, steps)
  {
  }

  /** However many executors overlap, while none of them invokes an action unsafely: receipt k is a
      trusted output of plan step k, so no step gets two receipts; and every Completed response has one
      trusted output per plan step. */
  lemma OneReceiptPerStep(states: seq<Shared>, acts: seq<Act>, steps: nat, k: nat)
    requires IsSharedRun(states, acts, steps) && k <= |acts| && forall i :: 0 <= i < k ==> !Unsafely(states, acts, i)
    ensures var r := Receipts(states[k].durable.actions);
      && |r| <= steps
      && (forall i :: 0 <= i < |r| ==> r[i].step == i && r[i].output.Some? && Trusted(r[i].output.value))
      && forall i :: 0 <= i < |states[k].responses| ==> ResponseOk(states[k].responses[i], steps)
  {
    hide Step, Receipts, Unsafely, AllOk, Apart, CursorOk, ResponseOk;
    SharedKeeps(states, acts, steps, k);
  }

  /** The executor is about to invoke a step that others have completed meanwhile. */
  predicate Behind(s: System, e: Event) {
    e.Invoke? && s.process.Active? && s.process.step < |Receipts(s.durable.actions)|
  }

  /** While the invariant holds, an invocation repeats a receipted step exactly when it is unsafe or its
      executor is behind. */
  lemma InvocationRepeatsIff(m: Shared, a: Act, n: Shared, steps: nat)
    requires SharedInv(m, steps) && Step(m, a, n, steps)
    ensures var s := View(m, a.who); Replay(s, a.event) <==> UnsafeInvocation(s, a.event) || Behind(s, a.event)
  {
    hide Receipts, CommitCheckpoint, ValidOutput, Load, ReceiptOutputs, RowHeld, Apart, CursorOk;
    var s := View(m, a.who);
    if a.event.Invoke? {
      assert ExecutorOk(m.durable, m.processes[a.who], steps);
      var p, r := s.process, Receipts(m.durable.actions);
      if UnsafeInvocation(s, a.event) {
        assert r[0].step == 0;
      } else if Behind(s, a.event) {
        assert r[p.step].step == p.step;
      }
    }
  }

  ghost predicate Repeats(states: seq<Shared>, acts: seq<Act>, i: nat)
    requires i < |acts| < |states|
  {
    Replay(View(states[i], acts[i].who), acts[i].event)
  }

  ghost predicate Lags(states: seq<Shared>, acts: seq<Act>, i: nat)
    requires i < |acts| < |states|
  {
    Behind(View(states[i], acts[i].who), acts[i].event)
  }

  lemma {:induction false} FirstUnsafely(states: seq<Shared>, acts: seq<Act>, k: nat) returns (i: nat)
    requires |states| == |acts| + 1 && k < |acts| && Unsafely(states, acts, k)
    ensures i <= k && Unsafely(states, acts, i) && forall j :: 0 <= j < i ==> !Unsafely(states, acts, j)
    decreases k
  {
    hide Unsafely;
    if forall j :: 0 <= j < k ==> !Unsafely(states, acts, j) {
      i := k;
    } else {
      var j :| 0 <= j < k && Unsafely(states, acts, j);
      i := FirstUnsafely(states, acts, j);
    }
  }

  ghost predicate SomeRepeats(states: seq<Shared>, acts: seq<Act>)
    requires |states| == |acts| + 1
  {
    exists i :: 0 <= i < |acts| && Repeats(states, acts, i)
  }

  ghost predicate SomeUnsafeOrLate(states: seq<Shared>, acts: seq<Act>)
    requires |states| == |acts| + 1
  {
    exists i :: 0 <= i < |acts| && (Unsafely(states, acts, i) || Lags(states, acts, i))
  }

  /** The exact condition, over every run by any number of executors with any starts, overlaps, crashes
      and restarts: some step that has a receipt is invoked again if and only if some invocation is made
      by an unapproved plan resumed past its first step, or by an executor that is behind the receipts. */
  lemma ReplayIffUnsafeOrLate(states: seq<Shared>, acts: seq<Act>, steps: nat)
    requires IsSharedRun(states, acts, steps)
    ensures SomeRepeats(states, acts) <==> SomeUnsafeOrLate(states, acts)
  {
    hide Step, SharedInv, UnsafeInvocation, Behind, Replay;
    if k: nat :| k < |acts| && Unsafely(states, acts, k) {
      var i := FirstUnsafely(states, acts, k);
      SharedKeeps(states, acts, steps, i);
      InvocationRepeatsIff(states[i], acts[i], states[i + 1], steps);
      assert Repeats(states, acts, i);
    } else {
      forall i | 0 <= i < |acts| ensures Repeats(states, acts, i) <==> Lags(states, acts, i) {
        assert !Unsafely(states, acts, i);
        SharedKeeps(states, acts, steps, i);
        InvocationRepeatsIff(states[i], acts[i], states[i + 1], steps);
      }
    }
  }

  /** When a checkpoint can be resumed: exactly when its cursor counts the receipts. */
  lemma ResumableIff(m: Shared, steps: nat)
    requires SharedInv(m, steps)
    ensures Load(m.durable, steps).Some? <==>
            (m.durable.cursor.Some? ==> m.durable.cursor.value.step == |Receipts(m.durable.actions)|)
  {
    hide Receipts, AllOk, Apart, ResponsesOk;
    ReceiptsHaveOutputs(m.durable.actions);
  }

  // ---------------------------------------------------------------------------------------
  // Two executors that overlap
  // ---------------------------------------------------------------------------------------

  /** Executor 0 is in state `s` while executor 1 is doing `q`. */
  function Beside(s: System, q: Process): Shared {
    Shared(s.durable, map[0 := s.process, 1 := q], s.invocations, s.responses)
  }

  lemma FirstMoves(s: System, e: Event, t: System, q: Process, steps: nat)
    requires Next(s, e, t, steps) && !e.Restart?
    ensures Step(Beside(s, q), Act(0, e), Beside(t, q), steps)
  {
    hide Next;
    assert View(Beside(s, q), 0) == s && View(Beside(t, q), 0) == t;
  }

  /** Executor 1 is in state `s` while executor 0 is doing `q`. */
  function BesideFirst(s: System, q: Process): Shared {
    Shared(s.durable, map[0 := q, 1 := s.process], s.invocations, s.responses)
  }

  lemma SecondMoves(s: System, e: Event, t: System, q: Process, steps: nat)
    requires Next(s, e, t, steps) && !e.Restart?
    ensures Step(BesideFirst(s, q), Act(1, e), BesideFirst(t, q), steps)
  {
    hide Next;
    assert View(BesideFirst(s, q), 1) == s && View(BesideFirst(t, q), 1) == t;
    assert BesideFirst(t, q).processes == BesideFirst(s, q).processes[1 := t.process];
  }

  const FRESH := Active(false, 0, 0, [], Ready)

  /** Both start on the empty store, without approval. */
  lemma BothStart() returns (states: seq<Shared>)
    ensures |states| == 3 && states[0] == NOBODY && states[2] == Beside(EMPTY.(process := FRESH), FRESH)
    ensures Step(states[0], Act(0, Start(false)), states[1], 2) && Step(states[1], Act(1, Start(false)), states[2], 2)
  {
    var one := Shared(EMPTY.durable, map[0 := FRESH], [], []);
    var two := Beside(EMPTY.(process := FRESH), FRESH);
    assert Load(EMPTY.durable, 2) == Some((0, []));
    assert View(NOBODY, 0) == EMPTY && View(one, 0) == EMPTY.(process := FRESH);
    assert View(one, 1) == EMPTY && View(two, 1) == EMPTY.(process := FRESH);
    assert two.processes == one.processes[1 := FRESH];
    states := [NOBODY, one, two];
  }

  /** The late executor's part: its mark puts the cursor back, and it goes on to invoke. */
  lemma LatePart(row: Action) returns (singles: seq<System>)
    requires row.step == 0 && row.status.Sealed? && row.output.Some?
    ensures |singles| == 5
    ensures singles[0] == System(Durable(Some(Cursor(1, Checkpointed)), [row]), FRESH, [0], [])
    ensures forall i :: 0 <= i < 4 ==> Next(singles[i], ONE_STEP[i], singles[i + 1], 2)
    ensures Load(singles[1].durable, 2).None? && singles[3].process == FRESH.(phase := Begun(1))
    ensures singles[4].invocations == [0, 0] && Replay(singles[3], Invoke) && !UnsafeInvocation(singles[3], Invoke)
  {
    hide ValidOutput, CommitCheckpoint, Receipts;
    ReceiptsOne(row);
    var s0 := System(Durable(Some(Cursor(1, Checkpointed)), [row]), FRESH, [0], []);
    var d1 := Durable(Some(Cursor(0, Running)), [row]);
    var s1 := s0.(durable := d1, process := FRESH.(phase := Marked));
    var d2 := d1.(actions := [row, Action(0, Prepared, None)]);
    var s2 := s1.(durable := d2, process := FRESH.(phase := Recorded(1)));
    var d3 := d1.(actions := [row, Action(0, Started, None)]);
    var s3 := s2.(durable := d3, process := FRESH.(phase := Begun(1)));
    var s4 := s3.(process := FRESH.(phase := Invoked(1)), invocations := [0, 0]);
    assert d1.actions + [Action(0, Prepared, None)] == d2.actions;
    assert d2.actions[1 := Action(0, Started, None)] == d3.actions;
    assert [0] + [0] == [0, 0];
    ReceiptsSnoc([row], Action(0, Started, None));
    assert [row] + [Action(0, Started, None)] == d3.actions;
    assert Receipts(d3.actions)[0].step == 0;
    singles := [s0, s1, s2, s3, s4];
  }

  /** Two overlapping executors of a two-step plan, both started fresh and without approval: the first
      completes step 0, then the second, which started before that, invokes step 0 again. No invocation
      is unsafe; the second is behind. In between, its mark has put the cursor back behind the receipts,
      and a restart would refuse the checkpoint. */
  lemma OverlapReplays(o: Output, claim: string) returns (states: seq<Shared>, acts: seq<Act>)
    requires ValidOutput(o) && o.completed
    ensures IsSharedRun(states, acts, 2) && |acts| == 12 && states[12].invocations == [0, 0]
    ensures Repeats(states, acts, 11) && forall i :: 0 <= i < 12 ==> !Unsafely(states, acts, i)
    ensures Load(states[9].durable, 2).None?
  {
    hide Next, ValidOutput, Step, Load, Replay, UnsafeInvocation;
    var start := BothStart();
    var first, row := FirstHalf(o, claim, false);
    var late := LatePart(row);
    var done := first[7].process;
    var before := [Start(false)] + ONE_STEP + [Return(o), Commit(claim), Crash];
    states := start + [Beside(first[2], FRESH), Beside(first[3], FRESH), Beside(first[4], FRESH),
                       Beside(first[5], FRESH), Beside(first[6], FRESH), Beside(first[7], FRESH),
                       BesideFirst(late[1], done), BesideFirst(late[2], done), BesideFirst(late[3], done),
                       BesideFirst(late[4], done)];
    acts := [Act(0, Start(false)), Act(1, Start(false)), Act(0, MarkRunning), Act(0, Record), Act(0, BeginInvocation),
             Act(0, Invoke), Act(0, Return(o)), Act(0, Commit(claim)),
             Act(1, MarkRunning), Act(1, Record), Act(1, BeginInvocation), Act(1, Invoke)];
    assert Beside(first[7], FRESH) == BesideFirst(late[0], done);
    forall i | 0 <= i < 12 ensures Step(states[i], acts[i], states[i + 1], 2) {
      if 2 <= i < 8 {
        assert before[i - 1] == acts[i].event;
        FirstMoves(first[i - 1], before[i - 1], first[i], FRESH, 2);
      } else if i >= 8 {
        SecondMoves(late[i - 8], ONE_STEP[i - 8], late[i - 7], done, 2);
      }
    }
    assert View(states[11], 1) == late[3];
    assert states[5] == Beside(first[4], FRESH) && Own(states[5], 0) == first[4].process;
    assert states[11] == BesideFirst(late[3], done) && Own(states[11], 1) == late[3].process;
    assert first[4].process.Active? && first[4].process.resume == 0;
    forall i | 0 <= i < 12 ensures !Unsafely(states, acts, i) {
      assert acts[i].event.Invoke? ==> i == 5 || i == 11;
      SafeInvocation(states, acts, i);
    }
  }

  /** Only plans resumed past their first step invoke unsafely. */
  lemma SafeInvocation(states: seq<Shared>, acts: seq<Act>, i: nat)
    requires |states| == |acts| + 1 && i < |acts|
    requires acts[i].event.Invoke? ==>
      Own(states[i], acts[i].who).Active? && Own(states[i], acts[i].who).resume == 0
    ensures !Unsafely(states, acts, i)
  {
  }

  // ---------------------------------------------------------------------------------------
  // Executors that do not overlap
  // ---------------------------------------------------------------------------------------

  /** Nobody starts while another executor is active. */
  ghost predicate NoOverlap(states: seq<Shared>, acts: seq<Act>)
    requires |states| == |acts| + 1
  {
    forall i :: 0 <= i < |acts| && acts[i].event.Start? ==> Quiet(states[i])
  }

  ghost predicate AtMostOne(m: Shared) {
    forall e, f :: e in m.processes && f in m.processes && m.processes[e].Active? && m.processes[f].Active? ==> e == f
  }

  /** The one active process, if there is one. */
  ghost function Lone(m: Shared): Process {
    if e :| e in m.processes && m.processes[e].Active? then m.processes[e] else Idle
  }

  ghost function Single(m: Shared): System { System(m.durable, Lone(m), m.invocations, m.responses) }

  lemma LoneIs(m: Shared, e: Executor)
    requires AtMostOne(m) && (Own(m, e).Active? || Quiet(m))
    ensures Lone(m) == Own(m, e)
  {
  }

  lemma SingleStep(m: Shared, a: Act, n: Shared, steps: nat)
    requires AtMostOne(m) && Step(m, a, n, steps) && (a.event.Start? ==> Quiet(m))
    ensures AtMostOne(n) && Next(Single(m), a.event, Single(n), steps)
    ensures Single(m) == View(m, a.who)
  {
    hide Receipts, ValidOutput, CommitCheckpoint, Load, PlannedStep;
    assert Own(m, a.who).Active? || Quiet(m);
    LoneIs(m, a.who);
    assert AtMostOne(n);
    assert Own(n, a.who).Active? || Quiet(n);
    LoneIs(n, a.who);
  }

  /** Executors that do not overlap are as one: their run is a run of a single executor with the same
      store, invocations and responses, so all that holds of one executor's runs holds of theirs. */
  lemma {:induction false} NoOverlapIsSingle(states: seq<Shared>, acts: seq<Act>, steps: nat, k: nat)
    requires IsSharedRun(states, acts, steps) && NoOverlap(states, acts) && k <= |acts|
    ensures AtMostOne(states[k]) && Single(states[0]) == EMPTY
    ensures forall i :: 0 <= i < k ==>
      && Next(Single(states[i]), acts[i].event, Single(states[i + 1]), steps)
      && Single(states[i]) == View(states[i], acts[i].who)
  {
    hide Step, Next;
    assert Single(NOBODY) == EMPTY;
    if k > 0 {
      NoOverlapIsSingle(states, acts, steps, k - 1);
      SingleStep(states[k - 1], acts[k - 1], states[k], steps);
    }
  }

  /** So without overlap, nobody is ever behind, and only unsafe invocations replay. */
  lemma NoOverlapReplaysIff(states: seq<Shared>, acts: seq<Act>, steps: nat)
    requires IsSharedRun(states, acts, steps) && NoOverlap(states, acts)
    ensures SomeRepeats(states, acts) <==> exists i :: 0 <= i < |acts| && Unsafely(states, acts, i)
  {
    hide Step, Next, Single, UnsafeInvocation, Replay;
    NoOverlapIsSingle(states, acts, steps, |acts|);
    var singles := seq(|states|, i requires 0 <= i < |states| => Single(states[i]));
    var events := seq(|acts|, i requires 0 <= i < |acts| => acts[i].event);
    ReplayIff(singles, events, steps);
    assert forall i :: 0 <= i < |acts| ==> Replay(singles[i], events[i]) == Repeats(states, acts, i);
    assert forall i :: 0 <= i < |acts| ==> UnsafeInvocation(singles[i], events[i]) == Unsafely(states, acts, i);
  }
}
