/** Reviewed approval scopes (src-tauri/src/approval_scopes.rs): a ledger of grants with use
    budgets, expiry and revocation, and an audit trail written in the same transactions. */
module ApprovalScopes {
  import opened Basics
  import opened TokenText
  import opened ResourcePaths

  // ---------------------------------------------------------------------------------------
  // Data
  // ---------------------------------------------------------------------------------------

  type Id = string

  datatype Kind = Task | ProjectPath | Persistent

  /** A row of `reviewed_approval_scopes`. `budgetUntilRevoked` is the flag inside its budget
      JSON; rows written before that flag existed have it false. */
  datatype Grant = Grant(
    kind: Kind, principal: string, projectId: Option<string>, taskRunId: Option<string>,
    actionClass: string, resource: string, argumentClass: string,
    expiresAt: int, maxUses: nat, budgetUntilRevoked: bool, reviewedAt: int,
    usedCount: nat, revokedAt: Option<int>)

  datatype Event = Granted | Used(uses: nat) | Denied | Expired | Revoked | MandatoryReconfirm

  /** A row of `approval_scope_audit`; the resource digest is kept as the resource itself. */
  datatype Entry = Entry(
    grantId: Option<Id>, taskRunId: Option<string>, event: Event, actionClass: string, resource: string)

  datatype Ledger = Ledger(grants: map<Id, Grant>, audit: seq<Entry>)

  /** The arguments of `authorize`. */
  datatype Request = Request(
    principal: string, projectId: Option<string>, taskRunId: Option<string>,
    actionClass: string, resource: string, argumentClass: string, uses: nat)

  datatype Approval = Approval(
    mandatoryReconfirm: bool, actionType: string, actionClass: string, argumentClass: string,
    scopeKinds: seq<string>, principal: Option<string>, projectId: Option<string>,
    taskRunId: Option<string>, canonicalResource: Option<string>, scopeTrustPrefix: Option<string>)

  /** `durationMs` is a `u64` and `maxUses` a `u32` in the source. */
  datatype Selection = Selection(enabled: bool, kind: Option<string>, durationMs: Option<nat>, maxUses: Option<nat>)

  datatype Failure = HighImpact | ScopeUnavailable | Unsupported | TaskUnbound | ProjectUnbound | NotFound | StoreFailed

  // ---------------------------------------------------------------------------------------
  // Classification helpers
  // ---------------------------------------------------------------------------------------

  const MANDATORY_ACTIONS: set<string> := {
    "terminal_execute", "shell_command", "execute_command", "delete_file", "trash",
    "credential_disclosure", "message_send", "message_post", "create_decision_pack",
    "draft_decision_pack_email", "create_conflict_free_calendar_event",
    "calendar_mutation_with_others", "external_private_export", "airlock_export",
    "telemetry_archive", "artifact_export", "browser_submit", "connector_write" }

  /** `mandatory_reconfirmation`. */
  predicate Mandatory(action: string) { AsciiLower(Trim(action)) in MANDATORY_ACTIONS }

  /** Surrounding whitespace and ASCII case aside, these actions always demand reconfirmation, and no
      others do. */
  lemma MandatoryIff(action: string)
    ensures var name := AsciiLower(Trim(action));
      Mandatory(action) <==>
        || name == "terminal_execute" || name == "shell_command" || name == "execute_command"
        || name == "delete_file" || name == "trash" || name == "credential_disclosure"
        || name == "message_send" || name == "message_post" || name == "create_decision_pack"
        || name == "draft_decision_pack_email" || name == "create_conflict_free_calendar_event"
        || name == "calendar_mutation_with_others" || name == "external_private_export"
        || name == "airlock_export" || name == "telemetry_archive" || name == "artifact_export"
        || name == "browser_submit" || name == "connector_write"
  {
  }

  predicate ScopeMatches(g: Grant, q: Request) {
    match g.kind
    case Task => g.taskRunId == q.taskRunId
    case ProjectPath => g.projectId == q.projectId && PathStartsWith(q.resource, g.resource)
    case Persistent => q.resource == g.resource || PathStartsWith(q.resource, g.resource)
  }

  /** The folder a grant is for covers the resource asked for, name by name, when both are canonical. */
  ghost predicate Covers(g: Grant, q: Request) {
    forall folder, path ::
      Names(folder) && Names(path) && g.resource == Absolute(folder) && q.resource == Absolute(path) ==> folder <= path
  }

  /** A task grant is for its task run; a project grant for its project and folder; a persistent grant
      for its folder, or for exactly its resource. */
  lemma ScopeMatchesMeans(g: Grant, q: Request)
    requires ScopeMatches(g, q)
    ensures g.kind.Task? ==> g.taskRunId == q.taskRunId
    ensures g.kind.ProjectPath? ==> g.projectId == q.projectId
    ensures !g.kind.Task? ==> Covers(g, q)
  {
    hide PathStartsWith, Absolute, Names;
    if !g.kind.Task? {
      forall folder, path |
        Names(folder) && Names(path) && g.resource == Absolute(folder) && q.resource == Absolute(path)
        ensures folder <= path
      {
        CoversIff(folder, path);
        CoversIff(folder, folder);
        if g.resource == q.resource { SameNames(folder, path); }
      }
    }
  }

  /** Conversely, for canonical resources. */
  lemma ScopeMatchesWhen(g: Grant, q: Request, folder: seq<string>, path: seq<string>)
    requires Names(folder) && Names(path) && g.resource == Absolute(folder) && q.resource == Absolute(path)
    ensures g.kind.Task? && g.taskRunId == q.taskRunId ==> ScopeMatches(g, q)
    ensures g.kind.ProjectPath? && g.projectId == q.projectId && folder <= path ==> ScopeMatches(g, q)
    ensures g.kind.Persistent? && folder <= path ==> ScopeMatches(g, q)
  {
    hide PathStartsWith, Absolute, Names;
    CoversIff(folder, path);
  }

  lemma SameNames(a: seq<string>, b: seq<string>)
    requires Names(a) && Names(b) && Absolute(a) == Absolute(b)
    ensures a == b
  {
    hide Absolute, Names;
    ComponentsAre(a);
    ComponentsAre(b);
    assert (["/"] + a)[1..] == a && (["/"] + b)[1..] == b;
  }

  predicate UntilRevoked(g: Grant) { g.kind.Persistent? && g.budgetUntilRevoked }

  predicate WithinBudget(g: Grant, uses: nat) { UntilRevoked(g) || g.usedCount + uses <= g.maxUses }

  /** The columns the candidate query of `authorize` compares. */
  predicate Addressed(g: Grant, q: Request) {
    g.principal == q.principal && g.actionClass == q.actionClass && g.argumentClass == q.argumentClass
  }

  predicate Live(g: Grant, now: int) { g.revokedAt.None? && g.expiresAt > now }

  /** The WHERE clause of the guarded update, for the row with this id. */
  predicate Chargeable(g: Grant, uses: nat, now: int) { Live(g, now) && WithinBudget(g, uses) }

  // ---------------------------------------------------------------------------------------
  // Granting
  // ---------------------------------------------------------------------------------------

  const MINUTE_MS := 60_000
  const HOUR_MS := 3_600_000
  const YEAR_9999_MS := 253_402_300_799_000

  /** `u64 as i64`. */
  function AsI64(x: nat): int { if x <= I64_MAX then x else x - 0x1_0000_0000_0000_0000 }

  function ClampInt(x: int, low: int, high: int): int {
    if x < low then low else if x > high then high else x
  }

  function OrElse(a: Option<string>, b: Option<string>): Option<string> { if a.Some? then a else b }

  function GetOr(a: Option<string>, d: string): string { if a.Some? then a.value else d }

  function KindOf(name: string): Option<Kind> {
    if name == "task" then Some(Task)
    else if name == "project_path" then Some(ProjectPath)
    else if name == "persistent" then Some(Persistent)
    else None
  }

  function MaxDuration(k: Kind): int {
    match k case Task => 24 * HOUR_MS case ProjectPath => 7 * 24 * HOUR_MS case Persistent => 0
  }

  function DefaultUses(k: Kind): nat {
    match k case Task => 25 case ProjectPath => 100 case Persistent => 500
  }

  predicate IsFilesystem(actionClass: string) { actionClass == "filesystem_read" || actionClass == "filesystem_write" }

  /** The row `grant` would insert at time `now`, nothing for a one-time approval, or its refusal. */
  function Reviewed(a: Approval, sel: Selection, now: int): Result<Option<Grant>, Failure> {
    var name := if sel.kind.Some? then sel.kind.value else if sel.enabled then "project_path" else "once";
    if name == "once" || !sel.enabled then Ok(None)
    else if a.mandatoryReconfirm || (a.actionClass != "filesystem_read" && Mandatory(a.actionType)) then Err(HighImpact)
    else if name !in a.scopeKinds then Err(ScopeUnavailable)
    else if KindOf(name).None? then Err(Unsupported)
    else
      var kind := KindOf(name).value;
      var requested := if sel.durationMs.Some? then AsI64(sel.durationMs.value) else 15 * MINUTE_MS;
      var expires := if kind.Persistent? then YEAR_9999_MS else now + ClampInt(requested, MINUTE_MS, MaxDuration(kind));
      var uses := ClampInt(if sel.maxUses.Some? then sel.maxUses.value else DefaultUses(kind), 1, 10_000);
      if kind.Task? && a.taskRunId.None? then Err(TaskUnbound)
      else if kind.ProjectPath? && (a.projectId.None? || a.canonicalResource.None?) then Err(ProjectUnbound)
      else
        var resource :=
          if IsFilesystem(a.actionClass) then OrElse(a.scopeTrustPrefix, a.canonicalResource)
          else OrElse(a.canonicalResource, a.scopeTrustPrefix);
        Ok(Some(Grant(
          kind, GetOr(a.principal, "local_principal"), a.projectId, a.taskRunId, a.actionClass,
          GetOr(resource, a.actionType), a.argumentClass, expires, uses, kind.Persistent?, now, 0, None)))
  }

  /** Every new grant is unused and unrevoked, bounded in uses, and unless it is until-revoked also
      bounded in time: at least a minute, at most a day for a task and a week for a project path. */
  lemma ReviewedBounds(a: Approval, sel: Selection, now: int)
    requires Reviewed(a, sel, now).Ok? && Reviewed(a, sel, now).value.Some?
    ensures var g := Reviewed(a, sel, now).value.value;
      && g.usedCount == 0 && g.revokedAt.None? && 1 <= g.maxUses <= 10_000 && g.reviewedAt == now
      && (UntilRevoked(g) <==> g.kind.Persistent?)
      && (UntilRevoked(g) ==> g.expiresAt == 253_402_300_799_000)
      && (g.kind.Task? ==> g.taskRunId.Some? && now + MINUTE_MS <= g.expiresAt <= now + 24 * HOUR_MS)
      && (g.kind.ProjectPath? ==> g.projectId.Some? && now + MINUTE_MS <= g.expiresAt <= now + 168 * HOUR_MS)
      && sel.enabled && !a.mandatoryReconfirm
  {
  }

  /** Whose grant it is and for what: the approval's own principal, project, task run and classes; its
      resource is the trusted folder for file access and the canonical resource otherwise. */
  lemma ReviewedTerms(a: Approval, sel: Selection, now: int)
    requires Reviewed(a, sel, now).Ok? && Reviewed(a, sel, now).value.Some?
    ensures var g := Reviewed(a, sel, now).value.value;
      && (a.principal.Some? ==> g.principal == a.principal.value)
      && (a.principal.None? ==> g.principal == "local_principal")
      && g.projectId == a.projectId && g.taskRunId == a.taskRunId
      && g.actionClass == a.actionClass && g.argumentClass == a.argumentClass
      && var files := a.actionClass == "filesystem_read" || a.actionClass == "filesystem_write";
      && (a.scopeTrustPrefix.Some? && (files || a.canonicalResource.None?) ==> g.resource == a.scopeTrustPrefix.value)
      && (a.canonicalResource.Some? && (!files || a.scopeTrustPrefix.None?) ==> g.resource == a.canonicalResource.value)
      && (a.canonicalResource.None? && a.scopeTrustPrefix.None? ==> g.resource == a.actionType)
  {
    hide Mandatory;
  }

  /** How long and how often: what was asked for, cut to the bounds of the kind; a quarter of an hour and
      25 uses of a task, 100 of a project folder, 500 of a persistent grant when nothing was. */
  lemma ReviewedAmounts(a: Approval, sel: Selection, now: int)
    requires Reviewed(a, sel, now).Ok? && Reviewed(a, sel, now).value.Some?
    ensures var g := Reviewed(a, sel, now).value.value;
      && (sel.kind == Some("task") ==> g.kind.Task?)
      && (sel.kind == Some("persistent") ==> g.kind.Persistent?)
      && (sel.kind == Some("project_path") || sel.kind.None? ==> g.kind.ProjectPath?)
      && (sel.maxUses.None? ==> g.maxUses == if g.kind.Task? then 25 else if g.kind.ProjectPath? then 100 else 500)
      && (sel.maxUses.Some? ==> g.maxUses == Max(1, Min(sel.maxUses.value, 10_000)))
      && (!g.kind.Persistent? && sel.durationMs.None? ==> g.expiresAt == now + 900_000)
      && (!g.kind.Persistent? && sel.durationMs.Some? && sel.durationMs.value <= I64_MAX ==>
            var most := if g.kind.Task? then 86_400_000 else 604_800_000;
            g.expiresAt == now + Max(60_000, Min(sel.durationMs.value, most)))
      && (!g.kind.Persistent? && sel.durationMs.Some? && I64_MAX < sel.durationMs.value <= USIZE_MAX ==>
            g.expiresAt == now + 60_000)
  {
    hide Mandatory;
  }

  /** When there is a grant at all: exactly when a scope was chosen, the action may be scoped, the scope is
      offered for it and known, and what it binds to is there. */
  lemma ReviewedIff(a: Approval, sel: Selection, now: int)
    ensures var name := if sel.kind.Some? then sel.kind.value else "project_path";
      Reviewed(a, sel, now).Ok? && Reviewed(a, sel, now).value.Some? <==>
        && sel.enabled && name != "once"
        && !a.mandatoryReconfirm && (a.actionClass == "filesystem_read" || !Mandatory(a.actionType))
        && name in a.scopeKinds
        && (name == "task" || name == "project_path" || name == "persistent")
        && (name == "task" ==> a.taskRunId.Some?)
        && (name == "project_path" ==> a.projectId.Some? && a.canonicalResource.Some?)
    ensures Reviewed(a, sel, now) == Ok(None) <==> !sel.enabled || sel.kind == Some("once")
    ensures Reviewed(a, sel, now) == Err(TaskUnbound) ==> sel.kind == Some("task") && a.taskRunId.None?
    ensures Reviewed(a, sel, now) == Err(ProjectUnbound) ==> a.projectId.None? || a.canonicalResource.None?
    ensures Reviewed(a, sel, now) == Err(ScopeUnavailable) ==>
      (if sel.kind.Some? then sel.kind.value else "project_path") !in a.scopeKinds
    ensures Reviewed(a, sel, now) == Err(Unsupported) ==>
      sel.kind.Some? && sel.kind.value !in {"task", "project_path", "persistent"}
    ensures sel.enabled && sel.kind != Some("once")
            && (a.mandatoryReconfirm || (a.actionClass != "filesystem_read" && Mandatory(a.actionType)))
            ==> Reviewed(a, sel, now) == Err(HighImpact)
  {
    hide Mandatory;
  }

  // ---------------------------------------------------------------------------------------
  // Transactions on the ledger
  // ---------------------------------------------------------------------------------------

  function Insert(l: Ledger, id: Id, g: Grant): Ledger {
    Ledger(l.grants[id := g], l.audit + [Entry(Some(id), g.taskRunId, Granted, g.actionClass, g.resource)])
  }

  function Charge(l: Ledger, id: Id, q: Request): Ledger
    requires id in l.grants
  {
    var g := l.grants[id];
    Ledger(l.grants[id := g.(usedCount := g.usedCount + q.uses)],
           l.audit + [Entry(Some(id), q.taskRunId, Used(q.uses), q.actionClass, q.resource)])
  }

  function Withdraw(l: Ledger, id: Id, now: int): Ledger
    requires id in l.grants
  {
    var g := l.grants[id];
    Ledger(l.grants[id := g.(revokedAt := Some(now))],
           l.audit + [Entry(Some(id), g.taskRunId, Revoked, g.actionClass, g.resource)])
  }

  /** What `ON DELETE SET NULL` leaves of an entry when the grants `ids` and the task runs `runs` go. */
  function Cleared(e: Entry, ids: set<Id>, runs: set<string>): Entry {
    e.(grantId := if e.grantId.Some? && e.grantId.value in ids then None else e.grantId,
       taskRunId := if e.taskRunId.Some? && e.taskRunId.value in runs then None else e.taskRunId)
  }

  function ClearedAll(audit: seq<Entry>, ids: set<Id>, runs: set<string>): (r: seq<Entry>)
    ensures |r| == |audit|
  {
    seq(|audit|, i requires 0 <= i < |audit| => Cleared(audit[i], ids, runs))
  }

  /** The rows disappear, and the audit trail stays but forgets which grants it was about. */
  function Purged(l: Ledger, ids: set<Id>, runs: set<string>): Ledger {
    Ledger(l.grants - ids, ClearedAll(l.audit, ids, runs))
  }

  /** The grants that go with a project. */
  function OfProject(l: Ledger, project: string): set<Id> {
    set id | id in l.grants && l.grants[id].projectId == Some(project)
  }

  /** The grants that go with deleted task runs. */
  function OfTasks(l: Ledger, runs: set<string>): set<Id> {
    set id | id in l.grants && l.grants[id].taskRunId.Some? && l.grants[id].taskRunId.value in runs
  }

  function Note(l: Ledger, e: Entry): Ledger { l.(audit := l.audit + [e]) }

  // ---------------------------------------------------------------------------------------
  // What the audit trail says about one grant
  // ---------------------------------------------------------------------------------------

  predicate Concerns(e: Entry, id: Id) {
    e.grantId == Some(id) && (e.event.Granted? || e.event.Used? || e.event.Revoked?)
  }

  /** The life of grant `id` as the audit trail tells it, in order. */
  function History(audit: seq<Entry>, id: Id): seq<Event> {
    if audit == [] then []
    else
      var n := |audit| - 1;
      History(audit[..n], id) + (if Concerns(audit[n], id) then [audit[n].event] else [])
  }

  /** A history is a grant, then uses adding up to `used`, then a revocation exactly if `revoked`. */
  predicate Lifecycle(h: seq<Event>, used: nat, revoked: bool) {
    h != [] &&
    var n := |h| - 1;
    match h[n]
    case Granted => n == 0 && used == 0 && !revoked
    case Used(u) => !revoked && u <= used && Lifecycle(h[..n], used - u, false)
    case Revoked => revoked && Lifecycle(h[..n], used, false)
    case _ => false
  }

  function UsesIn(h: seq<Event>): nat {
    if h == [] then 0
    else UsesIn(h[..|h| - 1]) + (if h[|h| - 1].Used? then h[|h| - 1].uses else 0)
  }

  /** The lifecycle, position by position: the one "granted" comes first, the uses add up, and a
      "revoked" can only be the very last event. */
  lemma {:induction false} LifecycleMeaning(h: seq<Event>, used: nat, revoked: bool)
    requires Lifecycle(h, used, revoked)
    ensures h[0] == Granted && forall i :: 0 < i < |h| ==> h[i] != Granted
    ensures UsesIn(h) == used
    ensures forall i :: 0 <= i < |h| && h[i] == Revoked ==> i == |h| - 1
    ensures h[|h| - 1] == Revoked <==> revoked
  {
    var n := |h| - 1;
    if h[n].Used? {
      LifecycleMeaning(h[..n], used - h[n].uses, false);
    } else if h[n].Revoked? {
      LifecycleMeaning(h[..n], used, false);
    } else {
      assert h[..0] == [];
    }
  }

  // ---------------------------------------------------------------------------------------
  // Consistency of the ledger
  // ---------------------------------------------------------------------------------------

  /** The trail tells exactly the life of an existing grant, which is within its budget. */
  predicate GrantOk(l: Ledger, id: Id)
    requires id in l.grants
  {
    var g := l.grants[id];
    && Lifecycle(History(l.audit, id), g.usedCount, g.revokedAt.Some?)
    && (UntilRevoked(g) || g.usedCount <= g.maxUses)
  }

  /** An entry names no grant but an existing one, and a use is never of a mandatory action class. */
  predicate EntryOk(l: Ledger, e: Entry) {
    && (e.grantId.Some? ==> e.grantId.value in l.grants)
    && (e.event.Used? ==> !Mandatory(e.actionClass))
  }

  ghost predicate Consistent(l: Ledger) {
    && (forall id :: id in l.grants ==> GrantOk(l, id))
    && (forall i :: 0 <= i < |l.audit| ==> EntryOk(l, l.audit[i]))
  }

  /** Nothing is told about an id that no entry names. */
  lemma {:induction false} HistoryOfNobody(audit: seq<Entry>, id: Id)
    requires forall i :: 0 <= i < |audit| ==> audit[i].grantId != Some(id)
    ensures History(audit, id) == []
  {
    if audit != [] { HistoryOfNobody(audit[..|audit| - 1], id); }
  }

  /** Clearing other grants leaves a life as it was told. */
  lemma {:induction false} HistoryCleared(audit: seq<Entry>, ids: set<Id>, runs: set<string>, id: Id)
    requires id !in ids
    ensures History(ClearedAll(audit, ids, runs), id) == History(audit, id)
  {
    if audit != [] {
      var n := |audit| - 1;
      HistoryCleared(audit[..n], ids, runs, id);
      assert ClearedAll(audit, ids, runs)[..n] == ClearedAll(audit[..n], ids, runs);
    }
  }

  lemma HistorySnoc(audit: seq<Entry>, e: Entry, id: Id)
    ensures History(audit + [e], id) == if Concerns(e, id) then History(audit, id) + [e.event] else History(audit, id)
  {
    assert (audit + [e])[..|audit|] == audit;
    assert History(audit, id) + [] == History(audit, id);
  }

  lemma LifecycleUse(h: seq<Event>, used: nat, uses: nat)
    requires Lifecycle(h, used, false)
    ensures Lifecycle(h + [Used(uses)], used + uses, false)
  {
    assert (h + [Used(uses)])[..|h|] == h;
  }

  lemma LifecycleRevoke(h: seq<Event>, used: nat)
    requires Lifecycle(h, used, false)
    ensures Lifecycle(h + [Revoked], used, true)
  {
    assert (h + [Revoked])[..|h|] == h;
  }

  /** A new entry about an existing grant leaves the older ones right. */
  lemma EntriesKept(l: Ledger, m: Ledger, e: Entry)
    requires Consistent(l) && l.grants.Keys <= m.grants.Keys && m.audit == l.audit + [e] && EntryOk(m, e)
    ensures forall i :: 0 <= i < |m.audit| ==> EntryOk(m, m.audit[i])
  {
    hide GrantOk, Mandatory;
    forall i | 0 <= i < |m.audit| ensures EntryOk(m, m.audit[i]) {
      if i < |l.audit| { assert EntryOk(l, l.audit[i]); }
    }
  }

  lemma InsertKeeps(l: Ledger, id: Id, g: Grant)
    requires Consistent(l) && id !in l.grants && g.usedCount == 0 && g.revokedAt.None?
    ensures Consistent(Insert(l, id, g))
  {
    hide Mandatory;
    var m := Insert(l, id, g);
    var e := m.audit[|l.audit|];
    EntriesKept(l, m, e);
    forall x | x in m.grants ensures GrantOk(m, x) {
      HistorySnoc(l.audit, e, x);
      if x == id {
        forall i | 0 <= i < |l.audit| ensures l.audit[i].grantId != Some(id) { assert EntryOk(l, l.audit[i]); }
        HistoryOfNobody(l.audit, id);
        assert [Granted][..0] == [];
      } else {
        assert GrantOk(l, x);
      }
    }
  }

  lemma ChargeKeeps(l: Ledger, id: Id, q: Request, now: int)
    requires Consistent(l) && id in l.grants && Chargeable(l.grants[id], q.uses, now)
    requires !Mandatory(q.actionClass)
    ensures Consistent(Charge(l, id, q))
  {
    hide Mandatory, Lifecycle, History;
    var m := Charge(l, id, q);
    var e := m.audit[|l.audit|];
    EntriesKept(l, m, e);
    forall x | x in m.grants ensures GrantOk(m, x) {
      assert GrantOk(l, x);
      HistorySnoc(l.audit, e, x);
      if x == id { LifecycleUse(History(l.audit, id), l.grants[id].usedCount, q.uses); }
    }
  }

  lemma WithdrawKeeps(l: Ledger, id: Id, now: int)
    requires Consistent(l) && id in l.grants && l.grants[id].revokedAt.None?
    ensures Consistent(Withdraw(l, id, now))
  {
    hide Mandatory, Lifecycle, History;
    var m := Withdraw(l, id, now);
    var e := m.audit[|l.audit|];
    EntriesKept(l, m, e);
    forall x | x in m.grants ensures GrantOk(m, x) {
      assert GrantOk(l, x);
      HistorySnoc(l.audit, e, x);
      if x == id { LifecycleRevoke(History(l.audit, id), l.grants[id].usedCount); }
    }
  }

  /** What a deletion leaves, row by row and entry by entry: a grant goes exactly with its project or its
      task run, and an entry loses exactly the references to what is gone. */
  lemma DeletedRows(l: Ledger, project: string, runs: set<string>, id: Id)
    ensures var m := Purged(l, OfProject(l, project), {});
      (id in m.grants <==> id in l.grants && l.grants[id].projectId != Some(project))
      && (id in m.grants ==> m.grants[id] == l.grants[id])
    ensures var m := Purged(l, OfTasks(l, runs), runs);
      (id in m.grants <==> id in l.grants && (l.grants[id].taskRunId.Some? ==> l.grants[id].taskRunId.value !in runs))
      && (id in m.grants ==> m.grants[id] == l.grants[id])
  {
  }

  lemma ClearedEntries(l: Ledger, ids: set<Id>, runs: set<string>, i: nat)
    requires i < |l.audit|
    ensures var e, d := Purged(l, ids, runs).audit[i], l.audit[i];
      && |Purged(l, ids, runs).audit| == |l.audit|
      && e.event == d.event && e.actionClass == d.actionClass && e.resource == d.resource
      && (d.grantId.Some? && d.grantId.value in ids ==> e.grantId.None?)
      && (d.grantId.None? || d.grantId.value !in ids ==> e.grantId == d.grantId)
      && (d.taskRunId.Some? && d.taskRunId.value in runs ==> e.taskRunId.None?)
      && (d.taskRunId.None? || d.taskRunId.value !in runs ==> e.taskRunId == d.taskRunId)
  {
  }

  /** Deleting a project or task runs, with the grants that hang on them: the remaining grants keep
      their counts and their lives, no entry is lost, and none names a grant that is gone. */
  lemma PurgeKeeps(l: Ledger, ids: set<Id>, runs: set<string>)
    requires Consistent(l)
    ensures Consistent(Purged(l, ids, runs))
  {
    hide Mandatory, Lifecycle;
    var m := Purged(l, ids, runs);
    forall x | x in m.grants ensures GrantOk(m, x) {
      assert GrantOk(l, x);
      HistoryCleared(l.audit, ids, runs, x);
    }
    forall i | 0 <= i < |m.audit| ensures EntryOk(m, m.audit[i]) { assert EntryOk(l, l.audit[i]); }
  }

  lemma NoteKeeps(l: Ledger, e: Entry)
    requires Consistent(l) && (e.event.Denied? || e.event.Expired? || e.event.MandatoryReconfirm?)
    requires e.grantId.Some? ==> e.grantId.value in l.grants
    ensures Consistent(Note(l, e))
  {
    hide Mandatory, Lifecycle, History;
    var m := Note(l, e);
    EntriesKept(l, m, e);
    forall x | x in m.grants ensures GrantOk(m, x) {
      assert GrantOk(l, x);
      HistorySnoc(l.audit, e, x);
    }
  }
}
