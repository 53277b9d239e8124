/** Checkpointed execution of one signed plan by one executor at a time (`execute_action_plan_inner`,
    src-tauri/src/agentic_loop.rs, lines 3497-4285) against its durable store
    (src-tauri/src/db/agent_execution.rs, lines 352-479 and 680-726), with crashes and resumes. */
module PlanExecution {
  import opened Basics
  import opened TokenText

  // ---------------------------------------------------------------------------------------
  // Outputs and the durable store
  // ---------------------------------------------------------------------------------------

  datatype Output = Output(operation: string, message: string, completed: bool, verified: bool, claims: seq<string>)

  /** `str::contains`. */
  predicate Contains(s: string, part: string) {
    part <= s || (s != "" && Contains(s[1..], part))
  }

  predicate FoundAt(s: string, part: string, i: nat) { i + |part| <= |s| && s[i..i + |part|] == part }

  /** Containing means standing somewhere. */
  lemma {:induction false} ContainsIff(s: string, part: string)
    ensures Contains(s, part) <==> exists i: nat :: FoundAt(s, part, i)
  {
    if part <= s {
      assert FoundAt(s, part, 0);
    } else if s != "" {
      ContainsIff(s[1..], part);
      if i: nat :| FoundAt(s[1..], part, i) {
        assert s[1..][i..i + |part|] == s[i + 1..i + 1 + |part|];
        assert FoundAt(s, part, i + 1);
      }
      if i: nat :| FoundAt(s, part, i) {
        assert i > 0;
        assert s[1..][i - 1..i - 1 + |part|] == s[i..i + |part|];
        assert FoundAt(s[1..], part, i - 1);
      }
    }
  }

  /** `validate_completed_action_output`. */
  predicate ValidOutput(o: Output) {
    && Trim(o.operation) != "" && Trim(o.message) != ""
    && o.verified
    && o.claims != []
    && forall i :: 0 <= i < |o.claims| ==> !Contains(o.claims[i], "tool_error")
  }

  lemma ValidIsVerified(o: Output)
    requires ValidOutput(o)
    ensures o.verified
  {
  }

  datatype ActionStatus = Prepared | Started | Sealed | Closed

  /** A row of `actions`. `step` is the plan step whose action the row records; `Sealed` is the
      status "completed" and `Closed` every other final one. */
  datatype Action = Action(step: nat, status: ActionStatus, output: Option<Output>)

  datatype PlanStatus = AwaitingPermission | Running | Checkpointed | SensorCaptured | Recoverable

  /** The row of `plan_generation_states`: the cursor and its status. */
  datatype Cursor = Cursor(step: nat, status: PlanStatus)

  datatype Durable = Durable(cursor: Option<Cursor>, actions: seq<Action>)

  /** The completed rows with their outputs, in id order: the receipts. */
  function Receipts(actions: seq<Action>): seq<Action> {
    if actions == [] then []
    else
      var n := |actions| - 1;
      Receipts(actions[..n]) + (if actions[n].status.Sealed? && actions[n].output.Some? then [actions[n]] else [])
  }

  function Outputs(receipts: seq<Action>): (r: seq<Output>)
    requires forall i :: 0 <= i < |receipts| ==> receipts[i].output.Some?
    ensures |r| == |receipts|
  {
    seq(|receipts|, i requires 0 <= i < |receipts| => receipts[i].output.value)
  }

  lemma {:induction false} ReceiptsHaveOutputs(actions: seq<Action>)
    ensures forall i :: 0 <= i < |Receipts(actions)| ==> Receipts(actions)[i].output.Some?
  {
    if actions != [] { ReceiptsHaveOutputs(actions[..|actions| - 1]); }
  }

  function ReceiptOutputs(d: Durable): (r: seq<Output>)
    ensures |r| == |Receipts(d.actions)|
  {
    ReceiptsHaveOutputs(d.actions);
    Outputs(Receipts(d.actions))
  }

  predicate Trusted(o: Output) { o.verified && o.completed }

  /** `load_plan_execution_checkpoint` and the receipt checks that follow it (lines 3543-3557 and
      3628-3657): the resume index with the recovered outputs, or a refusal. */
  function Load(d: Durable, steps: nat): Option<(nat, seq<Output>)> {
    match d.cursor
    case None => Some((0, []))
    case Some(c) =>
      var outputs := ReceiptOutputs(d);
      if c.step > steps || |outputs| != c.step then None
      else if exists i :: 0 <= i < |outputs| && !Trusted(outputs[i]) then None
      else Some((c.step, outputs))
  }

  /** `commit_completed_agent_action_checkpoint`: the receipt is sealed and the cursor advanced in one
      transaction, or nothing happens. */
  function CommitCheckpoint(d: Durable, id: nat, next: nat, o: Output): Option<Durable> {
    if next == 0 || !Trusted(o) then None
    else if d.cursor.None? then None
    else
      var c := d.cursor.value;
      if c.step != next - 1 || !(c.status.Running? || c.status.Checkpointed?) then None
      else if |Receipts(d.actions)| != next - 1 then None
      else if !(id < |d.actions| && d.actions[id].status.Started? && d.actions[id].output.None?) then None
      else
        var row := d.actions[id].(status := Sealed, output := Some(o));
        Some(Durable(Some(Cursor(next, Checkpointed)), d.actions[id := row]))
  }

  /** A checkpoint is resumed exactly when its cursor is within the plan and counts the receipts, and every
      receipt is of a verified and completed output; the run then starts at the cursor with those outputs. */
  lemma LoadIff(d: Durable, steps: nat)
    ensures d.cursor.None? ==> Load(d, steps) == Some((0, []))
    ensures d.cursor.Some? ==>
      && (Load(d, steps).Some? <==>
            && d.cursor.value.step <= steps && |Receipts(d.actions)| == d.cursor.value.step
            && forall i :: 0 <= i < |ReceiptOutputs(d)| ==>
                 ReceiptOutputs(d)[i].verified && ReceiptOutputs(d)[i].completed)
      && (Load(d, steps).Some? ==> Load(d, steps).value == (d.cursor.value.step, ReceiptOutputs(d)))
  {
    hide Receipts;
  }

  /** A row is a receipt exactly when it is completed and has an output; receipts keep the order of rows. */
  lemma {:induction false} ReceiptsAcross(a: seq<Action>, b: seq<Action>)
    ensures Receipts(a + b) == Receipts(a) + Receipts(b)
    ensures |a| == 1 ==> Receipts(a) == if a[0].status == Sealed && a[0].output.Some? then a else []
  {
    if |a| == 1 {
      assert a[..0] == [] && a == [a[0]];
      assert Receipts(a[..0]) == [];
    }
    if b == [] {
      assert a + b == a;
    } else {
      assert (a + b)[..|a + b| - 1] == a + b[..|b| - 1];
      ReceiptsAcross(a, b[..|b| - 1]);
    }
  }

  /** A step is sealed exactly when its output is verified and completed, the cursor stands before it in a
      running or checkpointed plan, the receipts are those of the earlier steps, and its row was started
      and has no output yet. */
  lemma CommitIff(d: Durable, id: nat, next: nat, o: Output)
    ensures CommitCheckpoint(d, id, next, o).Some? <==>
      && next > 0 && o.verified && o.completed
      && d.cursor.Some? && d.cursor.value.step + 1 == next
      && (d.cursor.value.status == Running || d.cursor.value.status == Checkpointed)
      && |Receipts(d.actions)| + 1 == next
      && id < |d.actions| && d.actions[id].status == Started && d.actions[id].output == None
    ensures CommitCheckpoint(d, id, next, o).Some? ==>
      CommitCheckpoint(d, id, next, o).value
        == Durable(Some(Cursor(next, Checkpointed)), d.actions[id := Action(d.actions[id].step, Sealed, Some(o))])
  {
    hide Receipts;
  }

  // ---------------------------------------------------------------------------------------
  // The executing process
  // ---------------------------------------------------------------------------------------

  datatype Phase =
    | Ready
    | Marked
    | Recorded(id: nat)
    | Begun(id: nat)
    | Invoked(id: nat)
    | Returned(id: nat, output: Output)

  /** `resume` is where this run picked up; `step` is the loop's `step_index`. */
  datatype Process =
    | Idle
    | Active(approved: bool, resume: nat, step: nat, outputs: seq<Output>, phase: Phase)

  /** `invocations` lists the plan steps whose actions were invoked, `responses` the output lists
      that were returned with status Completed. */
  datatype System = System(durable: Durable, process: Process, invocations: seq<nat>, responses: seq<seq<Output>>)

  datatype Event =
    | Start(approved: bool) | AskPermission | MarkRunning | Record | BeginInvocation | Invoke
    | Return(output: Output) | Close | CaptureSensor | Commit(claim: string) | Finish | Crash | Restart

  /** The plan step whose action is run at loop index `step`. An approved plan is verified from the
      resume index on; an unapproved plan is verified, and so listed, from its first step. */
  function PlannedStep(approved: bool, resume: nat, step: nat): nat
    requires resume <= step
  {
    if approved then step else step - resume
  }

  function ActionCount(approved: bool, resume: nat, steps: nat): nat {
    if approved then Monus(steps, resume) else steps
  }

  ghost predicate Next(s: System, e: Event, t: System, steps: nat) {
    var d, p := s.durable, s.process;
    match e
    case Start(approved) =>
      p.Idle? && var r := Load(d, steps);
      r.Some? && t == s.(process := Active(approved, r.value.0, r.value.0, r.value.1, Ready))
    case AskPermission =>
      p.Active? && p.phase.Ready? && p.approved && p.step < steps && |p.outputs| == p.step &&
      t == s.(durable := d.(cursor := Some(Cursor(p.step, AwaitingPermission))))
    case MarkRunning =>
      p.Active? && p.phase.Ready? &&
      p.resume <= p.step < Min(steps, p.resume + ActionCount(p.approved, p.resume, steps)) &&
      (p.approved ==> |p.outputs| == p.step) &&
      t == s.(durable := d.(cursor := Some(Cursor(p.step, Running))), process := p.(phase := Marked))
    case Record =>
      p.Active? && p.phase.Marked? && p.resume <= p.step &&
      var row := Action(PlannedStep(p.approved, p.resume, p.step), Prepared, None);
      t == s.(durable := d.(actions := d.actions + [row]), process := p.(phase := Recorded(|d.actions|)))
    case BeginInvocation =>
      p.Active? && p.phase.Recorded? && p.phase.id < |d.actions| && var row := d.actions[p.phase.id];
      row.status.Prepared? && row.output.None? &&
      t == s.(durable := d.(actions := d.actions[p.phase.id := row.(status := Started)]),
              process := p.(phase := Begun(p.phase.id)))
    case Invoke =>
      p.Active? && p.phase.Begun? && p.resume <= p.step &&
      t == s.(process := p.(phase := Invoked(p.phase.id)),
              invocations := s.invocations + [PlannedStep(p.approved, p.resume, p.step)])
    case Return(o) =>
      p.Active? && p.phase.Invoked? && t == s.(process := p.(phase := Returned(p.phase.id, o)))
    case Close =>
      p.Active? && p.phase.Returned? && p.phase.id < |d.actions| && var row := d.actions[p.phase.id];
      row.status.Started? && row.output.None? &&
      var closed := row.(status := Closed, output := Some(p.phase.output));
      t == s.(durable := d.(actions := d.actions[p.phase.id := closed]), process := Idle)
    case CaptureSensor =>
      p.Active? && p.phase.Returned? && p.phase.id < |d.actions| && var row := d.actions[p.phase.id];
      row.status.Started? && row.output.None? &&
      t == s.(durable := Durable(Some(Cursor(p.step, SensorCaptured)),
                                 d.actions[p.phase.id := row.(status := Closed, output := Some(p.phase.output))]),
              process := Idle)
    case Commit(claim) =>
      p.Active? && p.phase.Returned? && ValidOutput(p.phase.output) &&
      var o := p.phase.output.(claims := p.phase.output.claims + [claim]);
      var r := CommitCheckpoint(d, p.phase.id, p.step + 1, o);
      r.Some? &&
      t == s.(durable := r.value, process := p.(step := p.step + 1, outputs := p.outputs + [o], phase := Ready))
    case Finish =>
      p.Active? && p.phase.Ready? && p.step == p.resume + ActionCount(p.approved, p.resume, steps) &&
      t == s.(process := Idle, responses := s.responses + [p.outputs])
    case Crash => p.Active? && t == s.(process := Idle)
    case Restart =>
      p.Idle? && d.cursor.Some? && d.cursor.value.status.Running? &&
      t == s.(durable := d.(cursor := Some(d.cursor.value.(status := Recoverable))))
  }

  // ---------------------------------------------------------------------------------------
  // The invariant
  // ---------------------------------------------------------------------------------------

  /** Receipt number k is a trusted output of plan step k, and the cursor counts the receipts. */
  predicate StoreOk(d: Durable, steps: nat) {
    var r := Receipts(d.actions);
    && |r| <= steps
    && (forall k :: 0 <= k < |r| ==> r[k].step == k && r[k].output.Some? && Trusted(r[k].output.value))
    && (if d.cursor.Some? then d.cursor.value.step == |r| else r == [])
  }

  predicate RowOk(d: Durable, p: Process)
    requires p.Active? && p.resume <= p.step
  {
    var planned := PlannedStep(p.approved, p.resume, p.step);
    match p.phase
    case Ready => true
    case Marked => p.step < |Receipts(d.actions)| + 1
    case Recorded(id) => id + 1 == |d.actions| && d.actions[id] == Action(planned, Prepared, None)
    case Begun(id) => id + 1 == |d.actions| && d.actions[id] == Action(planned, Started, None)
    case Invoked(id) => id + 1 == |d.actions| && d.actions[id] == Action(planned, Started, None)
    case Returned(id, _) => id + 1 == |d.actions| && d.actions[id] == Action(planned, Started, None)
  }

  /** An unapproved plan that was resumed past its first step. */
  predicate Unsafe(p: Process) { p.Active? && !p.approved && p.resume > 0 }

  predicate HasInvoked(p: Process) { p.Active? && (p.phase.Invoked? || p.phase.Returned?) }

  /** The memory of a running process agrees with the durable receipts. */
  predicate ProcessOk(d: Durable, p: Process, steps: nat) {
    p.Active? ==>
      && p.resume <= p.step <= steps
      && (Unsafe(p) ==> p.step == p.resume && !HasInvoked(p))
      && p.step == |p.outputs|
      && p.outputs == ReceiptOutputs(d)
      && (!p.phase.Ready? ==> p.step < steps && d.cursor == Some(Cursor(p.step, Running)))
      && RowOk(d, p)
  }

  /** Invoked steps come in plan order and never pass the current one; every receipted step was
      invoked; every completed response has one trusted output per plan step. */
  predicate LogOk(s: System, steps: nat) {
    && (forall i, j :: 0 <= i < j < |s.invocations| ==> s.invocations[i] <= s.invocations[j])
    && (forall i :: 0 <= i < |s.invocations| ==> s.invocations[i] <= |Receipts(s.durable.actions)|)
    && (forall k :: 0 <= k < |Receipts(s.durable.actions)| ==> k in s.invocations)
    && (HasInvoked(s.process) ==> s.process.step in s.invocations)
    && (forall i :: 0 <= i < |s.responses| ==> ResponseOk(s.responses[i], steps))
  }

  predicate ResponseOk(r: seq<Output>, steps: nat) {
    |r| == steps && forall k :: 0 <= k < |r| ==> Trusted(r[k])
  }

  predicate Inv(s: System, steps: nat) {
    StoreOk(s.durable, steps) && ProcessOk(s.durable, s.process, steps) && LogOk(s, steps)
  }

  // ---------------------------------------------------------------------------------------
  // Receipts under the store's updates
  // ---------------------------------------------------------------------------------------

  lemma ReceiptsSnoc(actions: seq<Action>, row: Action)
    requires !row.status.Sealed?
    ensures Receipts(actions + [row]) == Receipts(actions)
  {
    assert (actions + [row])[..|actions|] == actions;
  }

  /** Changing the last row: only sealing it adds a receipt, and it is added at the end. */
  lemma ReceiptsLast(actions: seq<Action>, row: Action)
    requires actions != [] && !actions[|actions| - 1].status.Sealed?
    ensures var id := |actions| - 1;
      Receipts(actions[id := row])
        == if row.status.Sealed? && row.output.Some? then Receipts(actions) + [row] else Receipts(actions)
  {
    var id := |actions| - 1;
    assert actions[id := row][..id] == actions[..id];
  }

  lemma OutputsSnoc(r: seq<Action>, row: Action)
    requires forall i :: 0 <= i < |r| ==> r[i].output.Some?
    requires row.output.Some?
    ensures Outputs(r + [row]) == Outputs(r) + [row.output.value]
  {
  }

  // ---------------------------------------------------------------------------------------
  // Every event keeps the invariant
  // ---------------------------------------------------------------------------------------

  /** The event invokes an action on behalf of an unapproved plan that was resumed past its first step. */
  predicate UnsafeInvocation(s: System, e: Event) { e.Invoke? && Unsafe(s.process) }

  lemma StartKeeps(s: System, e: Event, t: System, steps: nat)
    requires Inv(s, steps) && e.Start? && Next(s, e, t, steps)
    ensures Inv(t, steps)
  {
    hide ValidOutput, CommitCheckpoint, Receipts;
    assert t.process.outputs == ReceiptOutputs(s.durable);
  }

  lemma CommitKeeps(s: System, e: Event, t: System, steps: nat)
    requires Inv(s, steps) && e.Commit? && Next(s, e, t, steps)
    ensures Inv(t, steps)
  {
    hide ValidOutput, Receipts;
    var d, p := s.durable, s.process;
    var o := p.phase.output.(claims := p.phase.output.claims + [e.claim]);
    var row := d.actions[p.phase.id].(status := Sealed, output := Some(o));
    ReceiptsLast(d.actions, row);
    ReceiptsHaveOutputs(d.actions);
    OutputsSnoc(Receipts(d.actions), row);
    assert Receipts(t.durable.actions) == Receipts(d.actions) + [row];
    assert ReceiptOutputs(t.durable) == ReceiptOutputs(d) + [o];
    assert StoreOk(t.durable, steps);
    assert ProcessOk(t.durable, t.process, steps);
    assert LogOk(t, steps);
  }

  /** What can be sealed, field by field: an output with an operation and a message, verified and marked
      completed, with claims none of which mentions a tool error. The receipt is that output with the
      certificate's claim added, and the cursor moves on by one. */
  lemma SealedFields(s: System, claim: string, t: System, steps: nat)
    requires Next(s, Commit(claim), t, steps)
    ensures var p, o := s.process, s.process.phase.output;
      && Trim(o.operation) != "" && Trim(o.message) != "" && o.verified && o.completed && o.claims != []
      && (forall k, i: nat :: 0 <= k < |o.claims| ==> !FoundAt(o.claims[k], "tool_error", i))
      && p.phase.id < |t.durable.actions|
      && t.durable.actions[p.phase.id].output == Some(o.(claims := o.claims + [claim]))
      && t.durable.cursor == Some(Cursor(p.step + 1, Checkpointed))
      && t.process.step == p.step + 1 && t.process.outputs == p.outputs + [o.(claims := o.claims + [claim])]
  {
    hide Receipts, Trim, Contains, FoundAt;
    var o := s.process.phase.output;
    forall k, i: nat | 0 <= k < |o.claims| ensures !FoundAt(o.claims[k], "tool_error", i) {
      ContainsIff(o.claims[k], "tool_error");
    }
  }

  lemma CloseKeeps(s: System, e: Event, t: System, steps: nat)
    requires Inv(s, steps) && (e.Close? || e.CaptureSensor?) && Next(s, e, t, steps)
    ensures Inv(t, steps)
  {
    hide ValidOutput, CommitCheckpoint, Receipts, Load;
    var d, p := s.durable, s.process;
    ReceiptsLast(d.actions, d.actions[p.phase.id].(status := Closed, output := Some(p.phase.output)));
  }

  lemma RecordKeeps(s: System, e: Event, t: System, steps: nat)
    requires Inv(s, steps) && (e.Record? || e.BeginInvocation? || e.Invoke?) && Next(s, e, t, steps)
    requires !UnsafeInvocation(s, e)
    ensures Inv(t, steps)
  {
    hide ValidOutput, CommitCheckpoint, Receipts, Load;
    var d, p := s.durable, s.process;
    if e.Record? {
      ReceiptsSnoc(d.actions, Action(PlannedStep(p.approved, p.resume, p.step), Prepared, None));
      assert ReceiptOutputs(t.durable) == ReceiptOutputs(d);
    } else if e.BeginInvocation? {
      ReceiptsLast(d.actions, d.actions[p.phase.id].(status := Started));
      assert ReceiptOutputs(t.durable) == ReceiptOutputs(d);
    } else {
      assert t.invocations == s.invocations + [p.step];
    }
  }

  lemma FinishKeeps(s: System, e: Event, t: System, steps: nat)
    requires Inv(s, steps) && e.Finish? && Next(s, e, t, steps)
    ensures Inv(t, steps)
  {
    hide ValidOutput, CommitCheckpoint, Receipts, Load;
    assert s.process.step == steps;
    assert ResponseOk(s.process.outputs, steps);
  }

  lemma StepKeeps(s: System, e: Event, t: System, steps: nat)
    requires Inv(s, steps) && Next(s, e, t, steps) && !UnsafeInvocation(s, e)
    ensures Inv(t, steps)
    ensures Receipts(s.durable.actions) <= Receipts(t.durable.actions)
  {
    hide ValidOutput, Receipts, Load, CommitCheckpoint;
    match e {
      case Start(_) => StartKeeps(s, e, t, steps);
      case Record => RecordKeeps(s, e, t, steps); ReceiptsGrow(s, e, t, steps);
      case BeginInvocation => RecordKeeps(s, e, t, steps); ReceiptsGrow(s, e, t, steps);
      case Invoke => RecordKeeps(s, e, t, steps);
      case Close => CloseKeeps(s, e, t, steps); ReceiptsGrow(s, e, t, steps);
      case CaptureSensor => CloseKeeps(s, e, t, steps); ReceiptsGrow(s, e, t, steps);
      case Commit(_) => CommitKeeps(s, e, t, steps); ReceiptsGrow(s, e, t, steps);
      case Finish => FinishKeeps(s, e, t, steps);
      case _ =>
    }
  }

  /** No event removes or changes a receipt. */
  lemma ReceiptsGrow(s: System, e: Event, t: System, steps: nat)
    requires Inv(s, steps) && Next(s, e, t, steps)
    ensures Receipts(s.durable.actions) <= Receipts(t.durable.actions)
  {
    hide ValidOutput, Receipts, Load, ReceiptOutputs;
    var d, p := s.durable, s.process;
    match e {
      case Record => ReceiptsSnoc(d.actions, Action(PlannedStep(p.approved, p.resume, p.step), Prepared, None));
      case BeginInvocation => ReceiptsLast(d.actions, t.durable.actions[p.phase.id]);
      case Close => ReceiptsLast(d.actions, t.durable.actions[p.phase.id]);
      case CaptureSensor => ReceiptsLast(d.actions, t.durable.actions[p.phase.id]);
      case Commit(_) => ReceiptsLast(d.actions, t.durable.actions[p.phase.id]);
      case _ =>
    }
  }

  // ---------------------------------------------------------------------------------------
  // Whole runs
  // ---------------------------------------------------------------------------------------

  const EMPTY := System(Durable(None, []), Idle, [], [])

  /** A run from an empty store: any starts, approved or not, crashes and restarts. */
  ghost predicate IsRun(states: seq<System>, events: seq<Event>, steps: nat) {
    && |states| == |events| + 1 && states[0] == EMPTY
    && (forall i :: 0 <= i < |events| ==> Next(states[i], events[i], states[i + 1], steps))
  }

  /** The first `k` events contain no unsafe invocation. */
  ghost predicate SafeUpTo(states: seq<System>, events: seq<Event>, k: nat)
    requires k <= |events| < |states|
  {
    forall i :: 0 <= i < k ==> !UnsafeInvocation(states[i], events[i])
  }

  /** A run in which no unapproved plan, resumed past its first step, gets to invoke an action. */
  ghost predicate SafeRun(states: seq<System>, events: seq<Event>, steps: nat) {
    IsRun(states, events, steps) && SafeUpTo(states, events, |events|)
  }

  lemma {:induction false} PrefixKeeps(states: seq<System>, events: seq<Event>, steps: nat, k: nat)
    requires IsRun(states, events, steps) && k <= |events| && SafeUpTo(states, events, k)
    ensures Inv(states[k], steps)
  {
    hide Next, UnsafeInvocation;
    if k == 0 {
      assert Inv(EMPTY, steps);
    } else {
      PrefixKeeps(states, events, steps, k - 1);
      StepKeeps(states[k - 1], events[k - 1], states[k], steps);
    }
  }

  lemma RunKeeps(states: seq<System>, events: seq<Event>, steps: nat, k: nat)
    requires SafeRun(states, events, steps) && k < |states|
    ensures Inv(states[k], steps)
  {
    hide Next, UnsafeInvocation, Inv;
    PrefixKeeps(states, events, steps, k);
  }

  lemma {:induction false} ReceiptsSurvive(states: seq<System>, events: seq<Event>, steps: nat, i: nat, k: nat)
    requires SafeRun(states, events, steps) && i <= k < |states|
    ensures Receipts(states[i].durable.actions) <= Receipts(states[k].durable.actions)
  {
    hide Next, UnsafeInvocation, Inv, Receipts;
    if i < k {
      ReceiptsSurvive(states, events, steps, i, k - 1);
      RunKeeps(states, events, steps, k - 1);
      StepKeeps(states[k - 1], events[k - 1], states[k], steps);
    }
  }

  /** Over every run with crashes and resumes: when an action is invoked, the number of receipts is
      the loop's step index, which is the plan step invoked, and no receipt of that step exists then or
      at any earlier point of the run. */
  lemma NeverReplayed(states: seq<System>, events: seq<Event>, steps: nat, i: nat, k: nat)
    requires SafeRun(states, events, steps) && i <= k < |events| && events[k].Invoke?
    ensures var p := states[k].process;
      && p.Active? && p.resume <= p.step < steps
      && |Receipts(states[k].durable.actions)| == p.step == PlannedStep(p.approved, p.resume, p.step)
      && forall r :: 0 <= r < |Receipts(states[i].durable.actions)| ==>
           Receipts(states[i].durable.actions)[r].step != PlannedStep(p.approved, p.resume, p.step)
  {
    hide Receipts;
    assert !UnsafeInvocation(states[k], events[k]);
    RunKeeps(states, events, steps, k);
    RunKeeps(states, events, steps, i);
    ReceiptsSurvive(states, events, steps, i, k);
    assert Next(states[k], events[k], states[k + 1], steps);
  }

  /** Invocations come in plan order over the whole run, and every receipted step was invoked. */
  lemma InvocationsInOrder(states: seq<System>, events: seq<Event>, steps: nat, k: nat)
    requires SafeRun(states, events, steps) && k < |states|
    ensures var s := states[k];
      && (forall i, j :: 0 <= i < j < |s.invocations| ==> s.invocations[i] <= s.invocations[j])
      && (forall r :: 0 <= r < |Receipts(s.durable.actions)| ==>
            Receipts(s.durable.actions)[r].step == r && r in s.invocations)
  {
    hide Receipts, UnsafeInvocation, Next;
    RunKeeps(states, events, steps, k);
  }

  /** A Completed response carries one verified, completed output for every plan step. */
  lemma CompletedMeansEveryStep(states: seq<System>, events: seq<Event>, steps: nat, k: nat, i: nat)
    requires SafeRun(states, events, steps) && k < |states| && i < |states[k].responses|
    ensures |states[k].responses[i]| == steps
    ensures forall j :: 0 <= j < steps ==> Trusted(states[k].responses[i][j])
  {
    hide Receipts, UnsafeInvocation, Next, Trusted;
    RunKeeps(states, events, steps, k);
    assert ResponseOk(states[k].responses[i], steps);
  }

  /** The receipt guard of lines 3731-3732 never fires in such a run, and a checkpoint left by it is
      never refused: the process can always be restarted. */
  lemma AlwaysResumable(states: seq<System>, events: seq<Event>, steps: nat, k: nat)
    requires SafeRun(states, events, steps) && k < |states|
    ensures Load(states[k].durable, steps).Some?
    ensures states[k].process.Active? ==> |states[k].process.outputs| == states[k].process.step
  {
    hide Receipts, UnsafeInvocation, Next;
    RunKeeps(states, events, steps, k);
    ReceiptsHaveOutputs(states[k].durable.actions);
  }

  /** In such a run the store seals a step exactly when its validated output is marked completed, so a
      verified output that is not marked completed has run its action and is never sealed. */
  lemma SealedIffCompleted(states: seq<System>, events: seq<Event>, steps: nat, k: nat, claim: string)
    requires SafeRun(states, events, steps) && k < |states|
    requires states[k].process.Active? && states[k].process.phase.Returned?
    requires ValidOutput(states[k].process.phase.output)
    ensures var p := states[k].process;
      var o := p.phase.output.(claims := p.phase.output.claims + [claim]);
      CommitCheckpoint(states[k].durable, p.phase.id, p.step + 1, o).Some? <==> o.completed
  {
    hide Receipts, UnsafeInvocation, Next, SafeRun, ValidOutput;
    RunKeeps(states, events, steps, k);
    ValidIsVerified(states[k].process.phase.output);
  }

  /** What an executor does next, other than crash, when its action returns `o`. */
  function NextEvent(p: Process, steps: nat, o: Output): Event
    requires p.Active?
  {
    match p.phase
    case Ready => if p.step < steps then MarkRunning else Finish
    case Marked => Record
    case Recorded(_) => BeginInvocation
    case Begun(_) => Invoke
    case Invoked(_) => Return(o)
    case Returned(_, r) => if ValidOutput(r) && r.completed then Commit("") else Close
  }

  /** No executor is ever stuck: in every state of a safe run an active process that may invoke can make
      its next step, and an approved one can ask for permission before it marks a step as running. */
  lemma NeverStuck(states: seq<System>, events: seq<Event>, steps: nat, k: nat, o: Output)
    returns (t: System, u: System)
    requires SafeRun(states, events, steps) && k < |states| && states[k].process.Active? && !Unsafe(states[k].process)
    ensures Next(states[k], NextEvent(states[k].process, steps, o), t, steps)
    ensures states[k].process.approved && states[k].process.phase.Ready? && states[k].process.step < steps ==>
      Next(states[k], AskPermission, u, steps)
  {
    hide Receipts, ReceiptOutputs, ValidOutput, Load, SafeRun, LogOk;
    RunKeeps(states, events, steps, k);
    var s := states[k];
    var d, p := s.durable, s.process;
    u := s.(durable := d.(cursor := Some(Cursor(p.step, AwaitingPermission))));
    match p.phase {
      case Ready =>
        t := if p.step < steps
             then s.(durable := d.(cursor := Some(Cursor(p.step, Running))), process := p.(phase := Marked))
             else s.(process := Idle, responses := s.responses + [p.outputs]);
      case Marked =>
        var row := Action(PlannedStep(p.approved, p.resume, p.step), Prepared, None);
        t := s.(durable := d.(actions := d.actions + [row]), process := p.(phase := Recorded(|d.actions|)));
      case Recorded(id) =>
        t := s.(durable := d.(actions := d.actions[id := d.actions[id].(status := Started)]),
                process := p.(phase := Begun(id)));
      case Begun(id) =>
        t := s.(process := p.(phase := Invoked(id)),
                invocations := s.invocations + [PlannedStep(p.approved, p.resume, p.step)]);
      case Invoked(id) => t := s.(process := p.(phase := Returned(id, o)));
      case Returned(id, r) =>
        if ValidOutput(r) && r.completed {
          t := Sealing(states, events, steps, k);
        } else {
          t := s.(durable := d.(actions := d.actions[id := d.actions[id].(status := Closed, output := Some(r))]),
                  process := Idle);
        }
    }
  }

  lemma Sealing(states: seq<System>, events: seq<Event>, steps: nat, k: nat) returns (t: System)
    requires SafeRun(states, events, steps) && k < |states| && states[k].process.Active?
    requires states[k].process.phase.Returned? && ValidOutput(states[k].process.phase.output)
    requires states[k].process.phase.output.completed
    ensures Next(states[k], Commit(""), t, steps)
  {
    hide Receipts, ReceiptOutputs, ValidOutput, Load, SafeRun, CommitCheckpoint;
    SealedIffCompleted(states, events, steps, k, "");
    var s := states[k];
    var p := s.process;
    var o := p.phase.output.(claims := p.phase.output.claims + [""]);
    var d := CommitCheckpoint(s.durable, p.phase.id, p.step + 1, o).value;
    t := s.(durable := d, process := p.(step := p.step + 1, outputs := p.outputs + [o], phase := Ready));
  }

  /** The loop index stays within the plan, in every run. */
  predicate WithinPlan(p: Process, steps: nat) {
    p.Active? ==> p.resume <= p.step <= steps && (!p.phase.Ready? ==> p.step < steps)
  }

  lemma {:induction false} AlwaysWithinPlan(states: seq<System>, events: seq<Event>, steps: nat, k: nat)
    requires IsRun(states, events, steps) && k < |states|
    ensures WithinPlan(states[k].process, steps)
  {
    hide Receipts, ReceiptOutputs, ValidOutput, CommitCheckpoint;
    if k > 0 {
      AlwaysWithinPlan(states, events, steps, k - 1);
      assert Next(states[k - 1], events[k - 1], states[k], steps);
    }
  }

  /** In every run: an unapproved plan resumed past its first step never returns Completed. It has as many
      actions as the plan has steps, and runs out of plan steps before it runs out of actions. */
  lemma UnsafeNeverCompletes(states: seq<System>, events: seq<Event>, steps: nat, k: nat)
    requires IsRun(states, events, steps) && k < |events| && events[k].Finish?
    ensures !Unsafe(states[k].process)
  {
    AlwaysWithinPlan(states, events, steps, k);
    assert Next(states[k], events[k], states[k + 1], steps);
  }

  // ---------------------------------------------------------------------------------------
  // Replays
  // ---------------------------------------------------------------------------------------

  /** The event invokes an action of a plan step that already has a receipt. */
  ghost predicate Replay(s: System, e: Event) {
    && e.Invoke? && s.process.Active? && s.process.resume <= s.process.step
    && var planned := PlannedStep(s.process.approved, s.process.resume, s.process.step);
    exists r :: 0 <= r < |Receipts(s.durable.actions)| && Receipts(s.durable.actions)[r].step == planned
  }

  /** While the invariant holds, replays and unsafe invocations are the same events. */
  lemma ReplayIsUnsafe(s: System, e: Event, t: System, steps: nat)
    requires Inv(s, steps) && Next(s, e, t, steps)
    ensures Replay(s, e) <==> UnsafeInvocation(s, e)
  {
    hide Receipts, CommitCheckpoint, ValidOutput, Load, LogOk;
    if UnsafeInvocation(s, e) {
      assert |Receipts(s.durable.actions)| == s.process.step > 0;
      assert Receipts(s.durable.actions)[0].step == 0;
    }
  }

  ghost predicate SomeReplay(states: seq<System>, events: seq<Event>)
    requires |states| == |events| + 1
  {
    exists k :: 0 <= k < |events| && Replay(states[k], events[k])
  }

  ghost predicate SomeUnsafeInvocation(states: seq<System>, events: seq<Event>)
    requires |states| == |events| + 1
  {
    exists k :: 0 <= k < |events| && UnsafeInvocation(states[k], events[k])
  }

  /** The first unsafe invocation among the first `k + 1` events. */
  lemma {:induction false} FirstUnsafe(states: seq<System>, events: seq<Event>, k: nat) returns (i: nat)
    requires |states| == |events| + 1 && k < |events| && UnsafeInvocation(states[k], events[k])
    ensures i <= k && UnsafeInvocation(states[i], events[i]) && SafeUpTo(states, events, i)
    decreases k
  {
    hide UnsafeInvocation;
    if SafeUpTo(states, events, k) {
      i := k;
    } else {
      var j :| 0 <= j < k && UnsafeInvocation(states[j], events[j]);
      i := FirstUnsafe(states, events, j);
    }
  }

  /** The exact condition, over every run from an empty store with any starts, crashes and restarts: some
      step that has a receipt is invoked again if and only if some unapproved plan, resumed past its
      first step, gets to invoke an action. */
  lemma ReplayIff(states: seq<System>, events: seq<Event>, steps: nat)
    requires IsRun(states, events, steps)
    ensures SomeReplay(states, events) <==> SomeUnsafeInvocation(states, events)
  {
    hide Next, Inv, UnsafeInvocation, Replay;
    if SomeUnsafeInvocation(states, events) {
      var k :| 0 <= k < |events| && UnsafeInvocation(states[k], events[k]);
      var i := FirstUnsafe(states, events, k);
      PrefixKeeps(states, events, steps, i);
      ReplayIsUnsafe(states[i], events[i], states[i + 1], steps);
      assert SomeReplay(states, events);
    } else {
      forall k | 0 <= k < |events| ensures !Replay(states[k], events[k]) {
        PrefixKeeps(states, events, steps, k);
        ReplayIsUnsafe(states[k], events[k], states[k + 1], steps);
      }
    }
  }

  /** The events of one step of a plan up to its invocation. */
  const ONE_STEP := [MarkRunning, Record, BeginInvocation, Invoke]

  lemma ReceiptsOne(row: Action)
    requires row.status.Sealed? && row.output.Some?
    ensures Receipts([row]) == [row]
  {
    assert [row][..0] == [];
    assert Receipts([row][..0]) == [];
  }

  /** A fresh run of a two-step plan, approved or not, that completes its first step and then crashes. */
  lemma FirstHalf(o: Output, claim: string, approved: bool) returns (states: seq<System>, row: Action)
    requires ValidOutput(o) && o.completed
    ensures row == Action(0, Sealed, Some(o.(claims := o.claims + [claim]))) && Trusted(row.output.value)
    ensures var events := [Start(approved)] + ONE_STEP + [Return(o), Commit(claim), Crash];
      && |states| == |events| + 1 && states[0] == EMPTY
      && forall i :: 0 <= i < |events| ==> Next(states[i], events[i], states[i + 1], 2)
    ensures states[1] == EMPTY.(process := Active(approved, 0, 0, [], Ready))
    ensures forall i :: 1 <= i < 8 ==> states[i].process.Active? && states[i].process.resume == 0
    ensures states[7] == states[8].(process := states[7].process)
    ensures states[8] == System(Durable(Some(Cursor(1, Checkpointed)), [row]), Idle, [0], [])
  {
    hide ValidOutput, CommitCheckpoint, Receipts, ReceiptOutputs;
    ValidIsVerified(o);
    row := Action(0, Sealed, Some(o.(claims := o.claims + [claim])));
    var p, d := Active(approved, 0, 0, [], Ready), Durable(Some(Cursor(0, Running)), []);
    var s1 := EMPTY.(process := p);
    var s2 := s1.(durable := d, process := p.(phase := Marked));
    var s3 := s2.(durable := d.(actions := [Action(0, Prepared, None)]), process := p.(phase := Recorded(0)));
    var s4 := s3.(durable := d.(actions := [Action(0, Started, None)]), process := p.(phase := Begun(0)));
    var s5 := s4.(process := p.(phase := Invoked(0)), invocations := [0]);
    var s6 := s5.(process := p.(phase := Returned(0, o)));
    var d7 := Durable(Some(Cursor(1, Checkpointed)), [row]);
    var s7 := s6.(durable := d7, process := Active(approved, 0, 1, [row.output.value], Ready));
    FirstCommit(row);
    assert s6.process.outputs + [row.output.value] == s7.process.outputs;
    assert Next(s6, Commit(claim), s7, 2);
    states := [EMPTY, s1, s2, s3, s4, s5, s6, s7, s7.(process := Idle)];
  }

  /** The first receipt is sealed. */
  lemma FirstCommit(row: Action)
    requires row.step == 0 && row.status.Sealed? && row.output.Some? && Trusted(row.output.value)
    ensures CommitCheckpoint(Durable(Some(Cursor(0, Running)), [Action(0, Started, None)]), 0, 1, row.output.value)
            == Some(Durable(Some(Cursor(1, Checkpointed)), [row]))
  {
    NothingReceipted(Action(0, Started, None));
    assert [Action(0, Started, None)][0 := row] == [row];
  }

  lemma NothingReceipted(row: Action)
    requires !row.status.Sealed?
    ensures Receipts([row]) == []
  {
    ReceiptsSnoc([], row);
    assert [] + [row] == [row];
    assert Receipts([]) == [];
  }

  /** From there, a resume without approval up to its first invocation. */
  lemma SecondHalf(row: Action) returns (states: seq<System>)
    requires row.step == 0 && row.status.Sealed? && row.output.Some? && Trusted(row.output.value)
    ensures var events := [Start(false)] + ONE_STEP;
      && |states| == |events| + 1
      && states[0] == System(Durable(Some(Cursor(1, Checkpointed)), [row]), Idle, [0], [])
      && forall i :: 0 <= i < |events| ==> Next(states[i], events[i], states[i + 1], 2)
    ensures states[5].invocations == [0, 0] && UnsafeInvocation(states[4], Invoke)
  {
    hide ValidOutput, CommitCheckpoint, Receipts;
    ReceiptsOne(row);
    var d0 := Durable(Some(Cursor(1, Checkpointed)), [row]);
    var s0 := System(d0, Idle, [0], []);
    assert ReceiptOutputs(d0) == [row.output.value];
    assert Load(d0, 2) == Some((1, [row.output.value]));
    var p1 := Active(false, 1, 1, [row.output.value], Ready);
    var s1 := s0.(process := p1);
    var d2 := d0.(cursor := Some(Cursor(1, Running)));
    var s2 := s1.(durable := d2, process := p1.(phase := Marked));
    var d3 := d2.(actions := [row, Action(0, Prepared, None)]);
    var s3 := s2.(durable := d3, process := p1.(phase := Recorded(1)));
    var d4 := d3.(actions := [row, Action(0, Started, None)]);
    var s4 := s3.(durable := d4, process := p1.(phase := Begun(1)));
    var s5 := s4.(process := p1.(phase := Invoked(1)), invocations := [0, 0]);
    assert d0.actions + [Action(0, Prepared, None)] == d3.actions;
    assert d3.actions[1 := Action(0, Started, None)] == d4.actions;
    assert [0] + [0] == [0, 0];
    states := [s0, s1, s2, s3, s4, s5];
  }

  /** A concrete replay, from the empty store: an approved two-step plan completes its first step and
      crashes; resumed without approval, it invokes the first step again. */
  lemma UnapprovedResumeReplays(o: Output, claim: string) returns (states: seq<System>, events: seq<Event>)
    requires ValidOutput(o) && o.completed
    ensures IsRun(states, events, 2) && SomeReplay(states, events)
    ensures states[|events|].invocations == [0, 0]
  {
    hide ValidOutput, Next, UnsafeInvocation;
    var first, row := FirstHalf(o, claim, true);
    var second := SecondHalf(row);
    var before, after := [Start(true)] + ONE_STEP + [Return(o), Commit(claim), Crash], [Start(false)] + ONE_STEP;
    states, events := first + second[1..], before + after;
    forall i | 0 <= i < |events| ensures Next(states[i], events[i], states[i + 1], 2) {
      if i >= 8 {
        assert states[i] == second[i - 8] && events[i] == after[i - 8] && states[i + 1] == second[i - 7];
      } else {
        assert states[i] == first[i] && events[i] == before[i] && states[i + 1] == first[i + 1];
      }
    }
    assert states[12] == second[4] && events[12] == after[4] == Invoke;
    assert SomeUnsafeInvocation(states, events) by { assert UnsafeInvocation(states[12], events[12]); }
    ReplayIff(states, events, 2);
  }
}
