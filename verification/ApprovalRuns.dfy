/** Many callers of `authorize` running beside `grant`, `revoke` and the deletion of projects and task
    runs. Each caller first reads its candidate rows and its clock, and only later tries to charge one
    of them, so the rows it holds may be stale, or gone. Every SQL transaction is one step; a failed
    transaction changes nothing. */
module ApprovalRuns {
  import opened Basics
  import opened ApprovalScopes
  import opened ResourcePaths

  datatype Row = Row(id: Id, snapshot: Grant)

  /** A call in flight: its request, the time it captured, and the rows it has still to try. */
  datatype Call = Call(request: Request, now: int, rows: seq<Row>)

  type Caller = nat

  /** `issued` remembers every grant id ever handed out, whether or not its row still exists. */
  datatype System = System(ledger: Ledger, calls: map<Caller, Call>, issued: set<Id>)

  datatype Step =
    | DoGrant(approval: Approval, selection: Selection, now: int, id: Id)
    | DoRevoke(id: Id, now: int)
    | DeleteProject(project: string)
    | DeleteTasks(runs: set<string>)
    | Refuse(request: Request)
    | Begin(caller: Caller, request: Request, now: int, rows: seq<Row>)
    | Skip(caller: Caller)
    | Commit(caller: Caller)
    | Deny(caller: Caller, expired: Option<Id>)
    | Abort(caller: Caller)
    | Stutter

  /** The candidate query: exactly the live rows addressed by the request, each once, newest
      review first. */
  predicate IsCandidateList(l: Ledger, q: Request, now: int, rows: seq<Row>) {
    && (forall i :: 0 <= i < |rows| ==>
          rows[i].id in l.grants && rows[i].snapshot == l.grants[rows[i].id] &&
          Addressed(rows[i].snapshot, q) && Live(rows[i].snapshot, now))
    && (forall i, j :: 0 <= i < j < |rows| ==>
          rows[i].id != rows[j].id && rows[i].snapshot.reviewedAt >= rows[j].snapshot.reviewedAt)
    && (forall id :: id in l.grants && Addressed(l.grants[id], q) && Live(l.grants[id], now) ==>
          exists i :: 0 <= i < |rows| && rows[i].id == id)
  }

  /** The tests `authorize` makes on the row it holds, before it opens a transaction. */
  predicate LooksUsable(c: Call) {
    c.rows != [] && ScopeMatches(c.rows[0].snapshot, c.request) && WithinBudget(c.rows[0].snapshot, c.request.uses)
  }

  /** Whether the guarded update of the first row would change a row now. Which of the two UPDATE
      statements is sent, with or without the budget guard, is decided on the row the caller holds. */
  predicate UpdateHits(l: Ledger, c: Call) {
    c.rows != [] && c.rows[0].id in l.grants &&
    var g := l.grants[c.rows[0].id];
    Live(g, c.now) && (UntilRevoked(c.rows[0].snapshot) || g.usedCount + c.request.uses <= g.maxUses)
  }

  predicate ExpiredMatch(l: Ledger, q: Request, now: int, id: Id) {
    id in l.grants && Addressed(l.grants[id], q) && l.grants[id].revokedAt.None? && l.grants[id].expiresAt <= now
  }

  /** The lookup after the last candidate: an expired row with the latest expiry, if there is one. */
  predicate IsLatestExpired(l: Ledger, q: Request, now: int, r: Option<Id>) {
    match r
    case None => forall id :: id in l.grants ==> !ExpiredMatch(l, q, now, id)
    case Some(x) =>
      ExpiredMatch(l, q, now, x) &&
      forall id :: id in l.grants && ExpiredMatch(l, q, now, id) ==> l.grants[id].expiresAt <= l.grants[x].expiresAt
  }

  ghost predicate Next(s: System, step: Step, t: System) {
    match step
    case DoGrant(a, sel, now, id) =>
      var r := Reviewed(a, sel, now);
      r.Ok? && r.value.Some? && id !in s.issued &&
      t == s.(ledger := Insert(s.ledger, id, r.value.value), issued := s.issued + {id})
    case DoRevoke(id, now) =>
      id in s.ledger.grants && s.ledger.grants[id].revokedAt.None? && t == s.(ledger := Withdraw(s.ledger, id, now))
    case DeleteProject(p) => t == s.(ledger := Purged(s.ledger, OfProject(s.ledger, p), {}))
    case DeleteTasks(runs) => t == s.(ledger := Purged(s.ledger, OfTasks(s.ledger, runs), runs))
    case Refuse(q) =>
      Mandatory(q.actionClass) &&
      t == s.(ledger := Note(s.ledger, Entry(None, q.taskRunId, MandatoryReconfirm, q.actionClass, q.resource)))
    case Begin(c, q, now, rows) =>
      c !in s.calls && !Mandatory(q.actionClass) && IsCandidateList(s.ledger, q, now, rows) &&
      t == s.(calls := s.calls[c := Call(q, now, rows)])
    case Skip(c) =>
      c in s.calls && var call := s.calls[c];
      call.rows != [] && !(LooksUsable(call) && UpdateHits(s.ledger, call)) &&
      t == s.(calls := s.calls[c := call.(rows := call.rows[1..])])
    case Commit(c) =>
      c in s.calls && var call := s.calls[c];
      LooksUsable(call) && UpdateHits(s.ledger, call) &&
      t == s.(ledger := Charge(s.ledger, call.rows[0].id, call.request), calls := s.calls - {c})
    case Deny(c, expired) =>
      c in s.calls && var call := s.calls[c];
      call.rows == [] &&
      IsLatestExpired(s.ledger, call.request, call.now, expired) &&
      var q := call.request;
      var e := Entry(expired, q.taskRunId, if expired.Some? then Expired else Denied, q.actionClass, q.resource);
      t == s.(ledger := Note(s.ledger, e), calls := s.calls - {c})
    case Abort(c) => c in s.calls && t == s.(calls := s.calls - {c})
    case Stutter => t == s
  }

  /** Everything about a grant that no transaction ever changes. */
  function Terms(g: Grant): Grant { g.(usedCount := 0, revokedAt := None) }

  /** A held row is still a faithful description of its grant's terms, if the grant still exists; it
      was live when read at the call's own time, and its use count can only be behind. */
  predicate RowOk(s: System, c: Call, r: Row) {
    && r.id in s.issued
    && (r.id in s.ledger.grants ==>
          && Terms(r.snapshot) == Terms(s.ledger.grants[r.id])
          && r.snapshot.usedCount <= s.ledger.grants[r.id].usedCount)
    && Addressed(r.snapshot, c.request)
    && Live(r.snapshot, c.now)
  }

  predicate CallOk(s: System, c: Call) {
    !Mandatory(c.request.actionClass) && forall i :: 0 <= i < |c.rows| ==> RowOk(s, c, c.rows[i])
  }

  ghost predicate Inv(s: System) {
    && Consistent(s.ledger)
    && s.ledger.grants.Keys <= s.issued
    && (forall c :: c in s.calls ==> CallOk(s, s.calls[c]))
  }

  /** How many uses of grant `id` a step commits. */
  function Charged(s: System, step: Step, id: Id): nat {
    if step.Commit? && step.caller in s.calls
       && s.calls[step.caller].rows != [] && s.calls[step.caller].rows[0].id == id
    then s.calls[step.caller].request.uses else 0
  }

  /** What a step may do to a grant that was issued before: its terms stay, its count grows by what
      is charged, and once gone it does not come back. */
  predicate RowMoves(s: System, step: Step, t: System, id: Id) {
    && id in t.issued
    && (id in t.ledger.grants ==>
          && id in s.ledger.grants
          && Terms(t.ledger.grants[id]) == Terms(s.ledger.grants[id])
          && t.ledger.grants[id].usedCount == s.ledger.grants[id].usedCount + Charged(s, step, id))
  }

  lemma StepMoves(s: System, step: Step, t: System, id: Id)
    requires Next(s, step, t) && id in s.issued
    ensures RowMoves(s, step, t, id)
  {
    hide Mandatory, Reviewed, ScopeMatches, Addressed, Live, IsLatestExpired, IsCandidateList, ClearedAll;
  }

  /** Calls that a step leaves alone keep describing their grants. */
  lemma CallStaysOk(s: System, step: Step, t: System, call: Call)
    requires Next(s, step, t) && CallOk(s, call)
    ensures CallOk(t, call)
  {
    hide Mandatory, Addressed, Live, Next;
    forall i | 0 <= i < |call.rows| ensures RowOk(t, call, call.rows[i]) {
      assert RowOk(s, call, call.rows[i]);
      StepMoves(s, step, t, call.rows[i].id);
    }
  }

  /** What the row about to be charged looks like now: it still matches the request, it is not
      revoked, and it was unexpired at the time the call captured when it began. */
  lemma CommitMatches(s: System, c: Caller)
    requires Inv(s) && c in s.calls && LooksUsable(s.calls[c]) && UpdateHits(s.ledger, s.calls[c])
    ensures var call := s.calls[c];
      var g := s.ledger.grants[call.rows[0].id];
      && Addressed(g, call.request) && ScopeMatches(g, call.request) && !Mandatory(call.request.actionClass)
      && g.revokedAt.None? && g.expiresAt > call.now && WithinBudget(g, call.request.uses)
  {
    hide Mandatory, Consistent, PathStartsWith;
    var call := s.calls[c];
    assert RowOk(s, call, call.rows[0]);
    var snapshot, g := call.rows[0].snapshot, s.ledger.grants[call.rows[0].id];
    assert Terms(snapshot).kind == Terms(g).kind && Terms(snapshot).resource == Terms(g).resource;
    assert Terms(snapshot).taskRunId == Terms(g).taskRunId && Terms(snapshot).projectId == Terms(g).projectId;
    assert Terms(snapshot).principal == Terms(g).principal && Terms(snapshot).actionClass == Terms(g).actionClass;
    assert Terms(snapshot).argumentClass == Terms(g).argumentClass;
    assert Terms(snapshot).budgetUntilRevoked == Terms(g).budgetUntilRevoked;
  }

  lemma LedgerStep(s: System, step: Step, t: System)
    requires Inv(s) && Next(s, step, t)
    ensures Consistent(t.ledger)
  {
    hide Mandatory, Consistent, Reviewed, LooksUsable, UpdateHits, IsCandidateList, CallOk, Addressed, ScopeMatches;
    match step {
      case DoGrant(a, sel, now, id) =>
        ReviewedBounds(a, sel, now);
        InsertKeeps(s.ledger, id, Reviewed(a, sel, now).value.value);
      case DoRevoke(id, now) => WithdrawKeeps(s.ledger, id, now);
      case DeleteProject(p) => PurgeKeeps(s.ledger, OfProject(s.ledger, p), {});
      case DeleteTasks(runs) => PurgeKeeps(s.ledger, OfTasks(s.ledger, runs), runs);
      case Commit(c) => CommitKeeps(s, c);
      case Refuse(q) =>
        NoteKeeps(s.ledger, Entry(None, q.taskRunId, MandatoryReconfirm, q.actionClass, q.resource));
      case Deny(c, expired) =>
        var q := s.calls[c].request;
        var event := if expired.Some? then Expired else Denied;
        NoteKeeps(s.ledger, Entry(expired, q.taskRunId, event, q.actionClass, q.resource));
      case _ =>
    }
  }

  lemma CommitKeeps(s: System, c: Caller)
    requires Inv(s) && c in s.calls && LooksUsable(s.calls[c]) && UpdateHits(s.ledger, s.calls[c])
    ensures s.calls[c].rows != [] && s.calls[c].rows[0].id in s.ledger.grants
    ensures Consistent(Charge(s.ledger, s.calls[c].rows[0].id, s.calls[c].request))
  {
    hide Mandatory, Consistent, ScopeMatches;
    CommitMatches(s, c);
    ChargeKeeps(s.ledger, s.calls[c].rows[0].id, s.calls[c].request, s.calls[c].now);
  }

  /** Every step keeps the invariant, whatever the other callers hold. */
  lemma StepKeepsInv(s: System, step: Step, t: System)
    requires Inv(s) && Next(s, step, t)
    ensures Inv(t)
  {
    hide Mandatory, Consistent, Reviewed, CallOk, ScopeMatches, IsCandidateList, IsLatestExpired, ClearedAll;
    LedgerStep(s, step, t);
    forall c | c in t.calls ensures CallOk(t, t.calls[c]) {
      if step.Begin? && c == step.caller {
        BeginOk(s, step, t);
      } else if step.Skip? && c == step.caller {
        SkipOk(s, c, t);
      } else {
        CallStaysOk(s, step, t, s.calls[c]);
      }
    }
  }

  lemma BeginOk(s: System, step: Step, t: System)
    requires Inv(s) && step.Begin? && Next(s, step, t)
    ensures CallOk(t, t.calls[step.caller])
  {
    hide Mandatory, Consistent, Addressed, Live;
  }

  lemma SkipOk(s: System, c: Caller, t: System)
    requires Inv(s) && Next(s, Skip(c), t)
    ensures CallOk(t, t.calls[c])
  {
    hide Mandatory, Consistent, Addressed, Live, LooksUsable, UpdateHits;
    var before, after := s.calls[c], t.calls[c];
    assert CallOk(s, before);
    forall i | 0 <= i < |after.rows| ensures RowOk(t, after, after.rows[i]) {
      assert RowOk(s, before, before.rows[i + 1]);
    }
  }

  /** A run: states joined by steps. */
  ghost predicate IsRun(states: seq<System>, steps: seq<Step>) {
    && |states| == |steps| + 1
    && (forall i :: 0 <= i < |steps| ==> Next(states[i], steps[i], states[i + 1]))
  }

  /** The empty ledger with no call in flight is a good start. */
  lemma EmptyIsConsistent()
    ensures Inv(System(Ledger(map[], []), map[], {}))
  {
  }

  lemma {:induction false} RunKeepsInv(states: seq<System>, steps: seq<Step>, k: nat)
    requires IsRun(states, steps) && Inv(states[0]) && k < |states|
    ensures Inv(states[k])
  {
    hide Inv, Next;
    if k > 0 {
      RunKeepsInv(states, steps, k - 1);
      StepKeepsInv(states[k - 1], steps[k - 1], states[k]);
    }
  }

  /** Over every run and every interleaving, in every reachable state and for every existing grant:
      one that is not until-revoked is not overspent, and the audit trail tells its life exactly:
      granted first and once, uses adding up to its count, a revocation only last. */
  lemma NeverOverspent(states: seq<System>, steps: seq<Step>, k: nat, id: Id)
    requires IsRun(states, steps) && Inv(states[0]) && k < |states|
    requires id in states[k].ledger.grants
    ensures var g, h := states[k].ledger.grants[id], History(states[k].ledger.audit, id);
      && (!UntilRevoked(g) ==> g.usedCount <= g.maxUses)
      && h != [] && h[0] == Granted && (forall i :: 0 < i < |h| ==> h[i] != Granted)
      && UsesIn(h) == g.usedCount
      && (forall i :: 0 <= i < |h| && h[i] == Revoked ==> i == |h| - 1)
      && (h[|h| - 1] == Revoked <==> g.revokedAt.Some?)
  {
    hide EntryOk, CallOk, IsRun, Lifecycle, UsesIn, History;
    RunKeepsInv(states, steps, k);
    var l := states[k].ledger;
    assert GrantOk(l, id);
    LifecycleNonEmpty(History(l.audit, id), l.grants[id].usedCount, l.grants[id].revokedAt.Some?);
    LifecycleMeaning(History(l.audit, id), l.grants[id].usedCount, l.grants[id].revokedAt.Some?);
  }

  lemma LifecycleNonEmpty(h: seq<Event>, used: nat, revoked: bool)
    requires Lifecycle(h, used, revoked)
    ensures h != []
  {
  }

  /** Over every run, each call that returns true did so in a step that charged a grant matching
      principal, action class, argument class and scope, unrevoked at that moment, unexpired at the
      time the call itself captured, and within its budget; and that step recorded the use. */
  lemma TrueReturnsAreCharged(states: seq<System>, steps: seq<Step>, k: nat)
    requires IsRun(states, steps) && Inv(states[0]) && k < |steps| && steps[k].Commit?
    ensures var s, t, c := states[k], states[k + 1], steps[k].caller;
      c in s.calls && s.calls[c].rows != [] && var call, id := s.calls[c], s.calls[c].rows[0].id;
      && id in s.ledger.grants && id in t.ledger.grants && var g := s.ledger.grants[id];
      && g.principal == call.request.principal && g.actionClass == call.request.actionClass
      && g.argumentClass == call.request.argumentClass && !Mandatory(call.request.actionClass)
      && (g.kind.Task? ==> g.taskRunId == call.request.taskRunId)
      && (g.kind.ProjectPath? ==> g.projectId == call.request.projectId)
      && (!g.kind.Task? ==> Covers(g, call.request))
      && g.revokedAt.None? && g.expiresAt > call.now
      && t.ledger.grants[id].usedCount == g.usedCount + call.request.uses
      && ((g.kind.Persistent? && g.budgetUntilRevoked) || t.ledger.grants[id].usedCount <= g.maxUses)
      && (forall x :: x in s.ledger.grants && x != id ==> t.ledger.grants[x] == s.ledger.grants[x])
      && var q := call.request;
      t.ledger.audit == s.ledger.audit + [Entry(Some(id), q.taskRunId, Used(q.uses), q.actionClass, q.resource)]
  {
    hide Inv, Mandatory, ScopeMatches, Covers;
    RunKeepsInv(states, steps, k);
    assert Next(states[k], steps[k], states[k + 1]);
    CommitMatches(states[k], steps[k].caller);
    var call := states[k].calls[steps[k].caller];
    ScopeMatchesMeans(states[k].ledger.grants[call.rows[0].id], call.request);
  }

  /** The converse for the audit trail, in any reachable state: a "used" entry never carries an action
      class that demands one-time reconfirmation, and an entry names no grant that is gone. */
  lemma UsedEntriesNeverMandatory(states: seq<System>, steps: seq<Step>, k: nat, i: nat)
    requires IsRun(states, steps) && Inv(states[0]) && k < |states| && i < |states[k].ledger.audit|
    ensures var e := states[k].ledger.audit[i];
      && (e.event.Used? ==> !Mandatory(e.actionClass))
      && (e.grantId.Some? ==> e.grantId.value in states[k].ledger.grants)
  {
    hide GrantOk, CallOk, IsRun, Mandatory;
    RunKeepsInv(states, steps, k);
    assert EntryOk(states[k].ledger, states[k].ledger.audit[i]);
  }

  /** No entry of the audit trail is ever removed or rewritten: later states have it at the same place,
      with at most its references cleared. */
  lemma {:induction false} AuditSurvives(states: seq<System>, steps: seq<Step>, j: nat, k: nat, i: nat)
    requires IsRun(states, steps) && j <= k < |states| && i < |states[j].ledger.audit|
    ensures i < |states[k].ledger.audit|
    ensures var d, e := states[j].ledger.audit[i], states[k].ledger.audit[i];
      && e.event == d.event && e.actionClass == d.actionClass && e.resource == d.resource
      && (e.grantId == d.grantId || e.grantId.None?) && (e.taskRunId == d.taskRunId || e.taskRunId.None?)
  {
    hide Mandatory, Reviewed, ScopeMatches, Addressed, Live, IsLatestExpired, IsCandidateList, LooksUsable, UpdateHits;
    if j < k {
      AuditSurvives(states, steps, j, k - 1, i);
      assert Next(states[k - 1], steps[k - 1], states[k]);
    }
  }

  // ---------------------------------------------------------------------------------------
  // False returns
  // ---------------------------------------------------------------------------------------

  /** The grant could be charged for this request at this moment. */
  predicate Usable(l: Ledger, q: Request, now: int, id: Id) {
    && id in l.grants && Addressed(l.grants[id], q) && ScopeMatches(l.grants[id], q)
    && Chargeable(l.grants[id], q.uses, now)
  }

  /** A call skips its first row only when that grant really cannot be charged, although the row it
      looks at may be stale: what it holds can only look better than what is there. */
  lemma SkippedIsUnusable(s: System, c: Caller, t: System)
    requires Inv(s) && Next(s, Skip(c), t)
    ensures var call := s.calls[c]; !Usable(s.ledger, call.request, call.now, call.rows[0].id)
  {
    hide Mandatory, Consistent, PathStartsWith;
    var call := s.calls[c];
    var row := call.rows[0];
    assert CallOk(s, call);
    assert RowOk(s, call, row);
    if row.id in s.ledger.grants {
      var g := s.ledger.grants[row.id];
      assert Terms(row.snapshot).kind == Terms(g).kind && Terms(row.snapshot).resource == Terms(g).resource;
      assert Terms(row.snapshot).taskRunId == Terms(g).taskRunId && Terms(row.snapshot).projectId == Terms(g).projectId;
      assert Terms(row.snapshot).budgetUntilRevoked == Terms(g).budgetUntilRevoked;
      assert Terms(row.snapshot).maxUses == Terms(g).maxUses;
    }
  }

  /** The step ends the call of `c`. */
  predicate Ends(step: Step, c: Caller) { (step.Commit? || step.Deny? || step.Abort?) && step.caller == c }

  /** Caller `c` gave up on `row` at step `i`, when the grant could not be charged. */
  ghost predicate GaveUp(states: seq<System>, steps: seq<Step>, c: Caller, row: Row, i: nat)
    requires |states| == |steps| + 1 && i < |steps|
  {
    && steps[i] == Skip(c) && c in states[i].calls
    && var call := states[i].calls[c];
    && call.rows != [] && call.rows[0] == row && !Usable(states[i].ledger, call.request, call.now, row.id)
  }

  ghost predicate GaveUpBetween(states: seq<System>, steps: seq<Step>, c: Caller, row: Row, j: nat, k: nat)
    requires |states| == |steps| + 1 && k <= |steps|
  {
    exists i :: j < i < k && GaveUp(states, steps, c, row, i)
  }

  lemma GaveUpStays(states: seq<System>, steps: seq<Step>, c: Caller, row: Row, j: nat, k: nat)
    requires |states| == |steps| + 1 && k < |steps| && GaveUpBetween(states, steps, c, row, j, k)
    ensures GaveUpBetween(states, steps, c, row, j, k + 1)
  {
    hide GaveUp;
    var i :| j < i < k && GaveUp(states, steps, c, row, i);
    assert j < i < k + 1 && GaveUp(states, steps, c, row, i);
  }

  /** What a step does to a call that it does not end. */
  lemma CallMoves(s: System, step: Step, t: System, c: Caller)
    requires Next(s, step, t) && c in s.calls && !Ends(step, c)
    ensures c in t.calls && t.calls[c].request == s.calls[c].request && t.calls[c].now == s.calls[c].now
    ensures step == Skip(c) ==> s.calls[c].rows != [] && t.calls[c].rows == s.calls[c].rows[1..]
    ensures step != Skip(c) ==> t.calls[c] == s.calls[c]
  {
    hide Mandatory, Reviewed, ScopeMatches, Addressed, IsCandidateList, IsLatestExpired, LooksUsable, UpdateHits;
  }

  /** A call in flight holds the tail of the rows it listed, and gave up on all the others. */
  lemma {:induction false} TriedInOrder(states: seq<System>, steps: seq<Step>, j: nat, k: nat) returns (tried: nat)
    requires IsRun(states, steps) && Inv(states[0]) && j < k <= |steps| && steps[j].Begin?
    requires forall i :: j < i < k ==> !Ends(steps[i], steps[j].caller)
    ensures var b := steps[j];
      && b.caller in states[k].calls && tried <= |b.rows|
      && states[k].calls[b.caller] == Call(b.request, b.now, b.rows[tried..])
      && forall m :: 0 <= m < tried ==> GaveUpBetween(states, steps, b.caller, b.rows[m], j, k)
    decreases k
  {
    hide Inv, Next, Usable, GaveUpBetween;
    var b := steps[j];
    if k == j + 1 {
      tried := 0;
      BeginsWithAll(states[j], b, states[k]);
    } else {
      tried := TriedInOrder(states, steps, j, k - 1);
      forall m | 0 <= m < tried ensures GaveUpBetween(states, steps, b.caller, b.rows[m], j, k) {
        GaveUpStays(states, steps, b.caller, b.rows[m], j, k - 1);
      }
      RunKeepsInv(states, steps, k - 1);
      var s, step, t := states[k - 1], steps[k - 1], states[k];
      CallMoves(s, step, t, b.caller);
      if step == Skip(b.caller) {
        SkippedIsUnusable(s, b.caller, t);
        assert b.rows[tried..][0] == b.rows[tried] && b.rows[tried..][1..] == b.rows[tried + 1..];
        GivesUpNow(states, steps, b.caller, b.rows[tried], j, k - 1);
        tried := tried + 1;
      }
    }
  }

  lemma GivesUpNow(states: seq<System>, steps: seq<Step>, c: Caller, row: Row, j: nat, k: nat)
    requires |states| == |steps| + 1 && j < k < |steps| && GaveUp(states, steps, c, row, k)
    ensures GaveUpBetween(states, steps, c, row, j, k + 1)
  {
    hide GaveUp;
  }

  lemma BeginsWithAll(s: System, step: Step, t: System)
    requires step.Begin? && Next(s, step, t)
    ensures step.caller in t.calls && t.calls[step.caller] == Call(step.request, step.now, step.rows[0..])
  {
    assert step.rows[0..] == step.rows;
  }

  /** Over every run and interleaving, a call that returns false did so rightly: each grant that was live
      and addressed by the request when the call began could not be charged at some moment between then
      and the return. */
  lemma FalseReturnsWereTried(states: seq<System>, steps: seq<Step>, j: nat, k: nat, id: Id)
    requires IsRun(states, steps) && Inv(states[0]) && j < k < |steps| && steps[j].Begin?
    requires steps[k].Deny? && steps[k].caller == steps[j].caller
    requires forall i :: j < i < k ==> !Ends(steps[i], steps[j].caller)
    requires var b, l := steps[j], states[j].ledger;
      id in l.grants && Addressed(l.grants[id], b.request) && Live(l.grants[id], b.now)
    ensures exists i :: j < i < k && !Usable(states[i].ledger, steps[j].request, steps[j].now, id)
  {
    hide Inv, Mandatory, Reviewed, Usable, Addressed, Live, ScopeMatches;
    var b := steps[j];
    var tried := TriedInOrder(states, steps, j, k);
    assert Next(states[k], steps[k], states[k + 1]);
    assert tried == |b.rows|;
    assert Next(states[j], b, states[j + 1]);
    var m :| 0 <= m < |b.rows| && b.rows[m].id == id;
    assert GaveUpBetween(states, steps, b.caller, b.rows[m], j, k);
    var i :| j < i < k && GaveUp(states, steps, b.caller, b.rows[m], i);
    var n := TriedInOrder(states, steps, j, i);
  }

  // ---------------------------------------------------------------------------------------
  // The budget of a grant over its whole existence
  // ---------------------------------------------------------------------------------------

  /** The uses of grant `id` committed in the first `k` steps. */
  function Spent(states: seq<System>, steps: seq<Step>, id: Id, k: nat): nat
    requires |states| == |steps| + 1 && k <= |steps|
  {
    if k == 0 then 0 else Spent(states, steps, id, k - 1) + Charged(states[k - 1], steps[k - 1], id)
  }

  /** An id that has not been issued yet is not charged. */
  lemma {:induction false} NothingSpentBefore(states: seq<System>, steps: seq<Step>, id: Id, k: nat)
    requires IsRun(states, steps) && Inv(states[0]) && k <= |steps| && id !in states[k].issued
    ensures Spent(states, steps, id, k) == 0
  {
    hide Inv, IsCandidateList, Reviewed, Mandatory, ScopeMatches, IsLatestExpired;
    if k > 0 {
      assert Next(states[k - 1], steps[k - 1], states[k]);
      NothingSpentBefore(states, steps, id, k - 1);
      RunKeepsInv(states, steps, k - 1);
      ChargedWasIssued(states[k - 1], steps[k - 1], states[k], id);
    }
  }

  lemma ChargedWasIssued(s: System, step: Step, t: System, id: Id)
    requires Inv(s) && Next(s, step, t) && id !in s.issued
    ensures Charged(s, step, id) == 0
  {
    hide Consistent, CallOk, Mandatory, Reviewed, ScopeMatches, IsCandidateList, IsLatestExpired;
  }

  /** What holds of a grant reviewed as `g`, once issued: what was spent on it fits its budget, and is
      its use count for as long as its row exists. */
  ghost predicate Accounted(s: System, g: Grant, id: Id, spent: nat) {
    && id in s.issued
    && (UntilRevoked(g) || spent <= g.maxUses)
    && (id in s.ledger.grants ==> Terms(s.ledger.grants[id]) == Terms(g) && s.ledger.grants[id].usedCount == spent)
  }

  lemma AccountedStep(s: System, step: Step, t: System, g: Grant, id: Id, spent: nat)
    requires Inv(s) && Next(s, step, t) && Accounted(s, g, id, spent)
    ensures Accounted(t, g, id, spent + Charged(s, step, id))
  {
    hide Inv, Mandatory, Reviewed, ScopeMatches, Addressed, Live, IsLatestExpired, IsCandidateList, ClearedAll;
    StepMoves(s, step, t, id);
    if Charged(s, step, id) > 0 {
      CommitMatches(s, step.caller);
      var now := s.ledger.grants[id];
      assert Terms(now).kind == Terms(g).kind && Terms(now).budgetUntilRevoked == Terms(g).budgetUntilRevoked;
      assert Terms(now).maxUses == Terms(g).maxUses;
    }
  }

  /** A grant is accounted for from the step that issues it. */
  lemma IssuedNow(s: System, step: Step, t: System)
    requires step.DoGrant? && Next(s, step, t)
    ensures step.id !in s.issued && Charged(s, step, step.id) == 0
    ensures var r := Reviewed(step.approval, step.selection, step.now);
      r.Ok? && r.value.Some? && Accounted(t, r.value.value, step.id, 0)
  {
    hide Reviewed;
    ReviewedBounds(step.approval, step.selection, step.now);
  }

  /** Over a whole run, with stale snapshots, revocations and deletions in any order: the uses ever
      committed against a grant never exceed the budget it was reviewed with, also after its row and
      its name in the audit trail are gone; and the use count of an existing row is exactly what was
      committed. */
  lemma {:induction false} BudgetOverWholeRun(states: seq<System>, steps: seq<Step>, j: nat, k: nat)
    requires IsRun(states, steps) && Inv(states[0]) && j < k <= |steps| && steps[j].DoGrant?
    ensures var d := steps[j];
      var r := Reviewed(d.approval, d.selection, d.now);
      r.Ok? && r.value.Some? && Accounted(states[k], r.value.value, d.id, Spent(states, steps, d.id, k))
    decreases k
  {
    hide Inv, Reviewed, Mandatory, ScopeMatches, Accounted, Next;
    var d := steps[j];
    if k == j + 1 {
      assert Next(states[j], d, states[k]);
      IssuedNow(states[j], d, states[k]);
      NothingSpentBefore(states, steps, d.id, j);
    } else {
      BudgetOverWholeRun(states, steps, j, k - 1);
      RunKeepsInv(states, steps, k - 1);
      var g := Reviewed(d.approval, d.selection, d.now).value.value;
      AccountedStep(states[k - 1], steps[k - 1], states[k], g, d.id, Spent(states, steps, d.id, k - 1));
    }
  }
}
