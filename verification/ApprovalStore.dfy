/** The ledger as the object its callers see, one call at a time, with `grant`, `revoke` and
    `authorize` (src-tauri/src/approval_scopes.rs, lines 117-335 and 475-507) updating it in place.
    A false `writeOk` makes the first write of the call fail, which rolls its transaction back. */
module ApprovalStore {
  import opened Basics
  import opened ApprovalScopes
  import opened ResourcePaths
  import opened ApprovalRuns

  /** A live, addressed, matching grant with budget: what `authorize` is meant to look for. */
  predicate Eligible(l: Ledger, q: Request, now: int, id: Id) {
    && id in l.grants && Addressed(l.grants[id], q) && ScopeMatches(l.grants[id], q)
    && Chargeable(l.grants[id], q.uses, now)
  }

  /** What makes a grant eligible, on the fields of grant and request. */
  lemma EligibleMeans(l: Ledger, q: Request, now: int, id: Id)
    requires Eligible(l, q, now, id)
    ensures var g := l.grants[id];
      && g.principal == q.principal && g.actionClass == q.actionClass && g.argumentClass == q.argumentClass
      && g.revokedAt.None? && g.expiresAt > now
      && (g.usedCount + q.uses <= g.maxUses || (g.kind.Persistent? && g.budgetUntilRevoked))
      && (g.kind.Task? ==> g.taskRunId == q.taskRunId)
      && (g.kind.ProjectPath? ==> g.projectId == q.projectId)
      && (!g.kind.Task? ==> Covers(g, q))
  {
    hide ScopeMatches, Covers;
    ScopeMatchesMeans(l.grants[id], q);
  }

  /** Conversely, for canonical resources. */
  lemma EligibleWhen(l: Ledger, q: Request, now: int, id: Id, folder: seq<string>, path: seq<string>)
    requires id in l.grants && Names(folder) && Names(path)
    requires var g := l.grants[id];
      && g.principal == q.principal && g.actionClass == q.actionClass && g.argumentClass == q.argumentClass
      && g.revokedAt.None? && g.expiresAt > now
      && (g.usedCount + q.uses <= g.maxUses || (g.kind.Persistent? && g.budgetUntilRevoked))
      && g.resource == Absolute(folder) && q.resource == Absolute(path)
      && (if g.kind.Task? then g.taskRunId == q.taskRunId else folder <= path)
      && (g.kind.ProjectPath? ==> g.projectId == q.projectId)
    ensures Eligible(l, q, now, id)
  {
    hide ScopeMatches, Absolute, Names;
    ScopeMatchesWhen(l.grants[id], q, folder, path);
  }

  /** What a refusal tells: that an addressed, unrevoked grant has run out, naming one that ran out last,
      or that there is none; with the request's own task run, action class and resource. */
  lemma RefusalMeans(l: Ledger, q: Request, now: int, x: Option<Id>)
    requires IsLatestExpired(l, q, now, x)
    ensures var e := Refusal(q, x);
      && e.grantId == x && e.taskRunId == q.taskRunId && e.actionClass == q.actionClass && e.resource == q.resource
      && (x.None? ==> e.event == Denied) && (x.Some? ==> e.event == Expired)
    ensures x.Some? ==>
      && x.value in l.grants
      && RanOut(l.grants[x.value], q, now)
      && forall id :: id in l.grants && RanOut(l.grants[id], q, now) ==>
           l.grants[id].expiresAt <= l.grants[x.value].expiresAt
    ensures x.None? ==> forall id :: id in l.grants ==> !RanOut(l.grants[id], q, now)
  {
    assert forall id :: id in l.grants ==> (RanOut(l.grants[id], q, now) <==> ExpiredMatch(l, q, now, id));
  }

  predicate RanOut(g: Grant, q: Request, now: int) {
    && g.principal == q.principal && g.actionClass == q.actionClass && g.argumentClass == q.argumentClass
    && g.revokedAt.None? && g.expiresAt <= now
  }

  /** The newest reviewed of the eligible grants. */
  ghost predicate Newest(l: Ledger, q: Request, now: int, id: Id) {
    && Eligible(l, q, now, id)
    && forall x :: Eligible(l, q, now, x) ==> l.grants[x].reviewedAt <= l.grants[id].reviewedAt
  }

  function Reconfirm(q: Request): Entry {
    Entry(None, q.taskRunId, MandatoryReconfirm, q.actionClass, q.resource)
  }

  function Refusal(q: Request, expired: Option<Id>): Entry {
    Entry(expired, q.taskRunId, if expired.Some? then Expired else Denied, q.actionClass, q.resource)
  }

  /** The rows the candidate query asks for. */
  predicate Wanted(l: Ledger, q: Request, now: int, id: Id) {
    id in l.grants && Addressed(l.grants[id], q) && Live(l.grants[id], now)
  }

  /** `rows` lists the wanted grants, newest first, except those still pending, which are no newer. */
  ghost predicate Listing(l: Ledger, q: Request, now: int, rows: seq<Row>, pending: set<Id>) {
    && (forall id :: id in pending ==> Wanted(l, q, now, id))
    && (forall i :: 0 <= i < |rows| ==>
          Wanted(l, q, now, rows[i].id) && rows[i].snapshot == l.grants[rows[i].id] && rows[i].id !in pending)
    && (forall i, j :: 0 <= i < j < |rows| ==>
          rows[i].id != rows[j].id && rows[i].snapshot.reviewedAt >= rows[j].snapshot.reviewedAt)
    && (forall i, id :: 0 <= i < |rows| && id in pending ==> rows[i].snapshot.reviewedAt >= l.grants[id].reviewedAt)
    && (forall id :: Wanted(l, q, now, id) && id !in pending ==> exists i :: 0 <= i < |rows| && rows[i].id == id)
  }

  lemma ListingStarts(l: Ledger, q: Request, now: int, pending: set<Id>)
    requires forall id :: id in pending <==> id in l.grants && Wanted(l, q, now, id)
    ensures Listing(l, q, now, [], pending)
  {
  }

  lemma ListingGrows(l: Ledger, q: Request, now: int, rows: seq<Row>, pending: set<Id>, id: Id)
    requires Listing(l, q, now, rows, pending) && id in pending && id in l.grants
    requires forall x :: x in pending ==> x in l.grants && l.grants[x].reviewedAt <= l.grants[id].reviewedAt
    ensures Listing(l, q, now, rows + [Row(id, l.grants[id])], pending - {id})
  {
    hide Addressed, Live;
    var n, more := |rows|, rows + [Row(id, l.grants[id])];
    assert more[n].id == id && forall i :: 0 <= i < n ==> more[i] == rows[i];
    forall x | Wanted(l, q, now, x) && x !in pending - {id} ensures exists i :: 0 <= i < |more| && more[i].id == x {
      if x != id {
        var i :| 0 <= i < n && rows[i].id == x;
        assert more[i].id == x;
      }
    }
  }

  lemma ListingEnds(l: Ledger, q: Request, now: int, rows: seq<Row>)
    requires Listing(l, q, now, rows, {})
    ensures IsCandidateList(l, q, now, rows)
  {
    hide Addressed, Live;
    forall id | id in l.grants && Addressed(l.grants[id], q) && Live(l.grants[id], now)
      ensures exists i :: 0 <= i < |rows| && rows[i].id == id
    {
      assert Wanted(l, q, now, id);
    }
  }

  class Store {
    var grants: map<Id, Grant>
    var audit: seq<Entry>

    function State(): Ledger
      reads this
    {
      Ledger(grants, audit)
    }

    constructor ()
      ensures State() == Ledger(map[], []) && Consistent(State())
    {
      grants, audit := map[], [];
      new;
      EmptyIsConsistent();
    }

    /** `grant`. A drawn id that is already in the table fails like any other write. */
    method Grant(a: Approval, sel: Selection, now: int, id: Id, writeOk: bool) returns (r: Result<Option<Id>, Failure>)
      requires Consistent(State())
      modifies this
      ensures Consistent(State())
      ensures Reviewed(a, sel, now).Err? ==> r == Err(Reviewed(a, sel, now).error) && State() == old(State())
      ensures Reviewed(a, sel, now) == Ok(None) ==> r == Ok(None) && State() == old(State())
      ensures Reviewed(a, sel, now).Ok? && Reviewed(a, sel, now).value.Some? ==>
        if writeOk && id !in old(grants)
        then r == Ok(Some(id)) && State() == Insert(old(State()), id, Reviewed(a, sel, now).value.value)
        else r == Err(StoreFailed) && State() == old(State())
    {
      hide Consistent, Reviewed;
      var row := Reviewed(a, sel, now);
      if row.Err? { return Err(row.error); }
      if row.value.None? { return Ok(None); }
      if !writeOk || id in grants { return Err(StoreFailed); }
      ReviewedBounds(a, sel, now);
      InsertKeeps(State(), id, row.value.value);
      var g := row.value.value;
      audit := audit + [Entry(Some(id), g.taskRunId, Granted, g.actionClass, g.resource)];
      grants := grants[id := g];
      r := Ok(Some(id));
    }

    /** `revoke`: refused for a missing or already revoked grant, otherwise recorded once. */
    method Revoke(id: Id, now: int, writeOk: bool) returns (r: Result<(), Failure>)
      requires Consistent(State())
      modifies this
      ensures Consistent(State())
      ensures r.Ok? <==> writeOk && id in old(grants) && old(grants)[id].revokedAt.None?
      ensures r.Ok? ==> State() == Withdraw(old(State()), id, now)
      ensures r.Err? ==> State() == old(State())
    {
      hide Consistent;
      if id !in grants || grants[id].revokedAt.Some? { return Err(NotFound); }
      if !writeOk { return Err(StoreFailed); }
      WithdrawKeeps(State(), id, now);
      var g := grants[id];
      grants := grants[id := g.(revokedAt := Some(now))];
      audit := audit + [Entry(Some(id), g.taskRunId, Revoked, g.actionClass, g.resource)];
      r := Ok(());
    }

    /** What the deletion of a project does here (src-tauri/src/projects/deletion.rs, lines 538-539). */
    method DeleteProject(project: string, writeOk: bool) returns (ok: bool)
      requires Consistent(State())
      modifies this
      ensures Consistent(State()) && ok == writeOk
      ensures State() == if ok then Purged(old(State()), OfProject(old(State()), project), {}) else old(State())
      ensures ok ==> forall id :: id in grants ==> grants[id].projectId != Some(project)
    {
      hide Consistent;
      if !writeOk { return false; }
      var ids := OfProject(State(), project);
      PurgeKeeps(State(), ids, {});
      audit := ClearedAll(audit, ids, {});
      grants := grants - ids;
      ok := true;
    }

    /** The candidate query of `authorize`. */
    method Candidates(q: Request, now: int) returns (rows: seq<Row>)
      ensures IsCandidateList(State(), q, now, rows)
    {
      hide Wanted, Listing;
      var pending := set id | id in grants && Wanted(State(), q, now, id);
      rows := [];
      ListingStarts(State(), q, now, pending);
      while pending != {}
        invariant forall id :: id in pending ==> id in grants
        invariant Listing(State(), q, now, rows, pending)
        decreases |pending|
      {
        var id := NewestOf(pending);
        ListingGrows(State(), q, now, rows, pending, id);
        rows := rows + [Row(id, grants[id])];
        pending := pending - {id};
      }
      ListingEnds(State(), q, now, rows);
    }

    method NewestOf(ids: set<Id>) returns (best: Id)
      requires ids != {} && forall id :: id in ids ==> id in grants
      ensures best in ids && forall id :: id in ids ==> grants[id].reviewedAt <= grants[best].reviewedAt
    {
      best :| best in ids;
      var rest := ids - {best};
      while rest != {}
        invariant best in ids && rest <= ids
        invariant forall id :: id in ids && id !in rest ==> grants[id].reviewedAt <= grants[best].reviewedAt
        decreases |rest|
      {
        var id :| id in rest;
        if grants[id].reviewedAt > grants[best].reviewedAt { best := id; }
        rest := rest - {id};
      }
    }

    /** The lookup that tells "expired" from "denied" (line 311). */
    method LatestExpired(q: Request, now: int) returns (r: Option<Id>)
      ensures IsLatestExpired(State(), q, now, r)
    {
      var rest := set id | id in grants && ExpiredMatch(State(), q, now, id);
      ghost var all := rest;
      assert forall id :: id in all <==> id in grants && ExpiredMatch(State(), q, now, id);
      r := None;
      if rest == {} { return; }
      var best :| best in rest;
      while rest != {}
        invariant best in all && rest <= all
        invariant forall id :: id in all && id !in rest ==> grants[id].expiresAt <= grants[best].expiresAt
        decreases |rest|
      {
        var id :| id in rest;
        if grants[id].expiresAt > grants[best].expiresAt { best := id; }
        rest := rest - {id};
      }
      r := Some(best);
    }

    /** `authorize`, run alone. It succeeds exactly when the action does not demand reconfirmation
        and some live matching grant has budget; it then charges the newest reviewed of those and
        nothing else. Otherwise every counter stays as it was and one refusal is recorded. */
    method Authorize(q: Request, now: int, writeOk: bool) returns (r: Result<bool, Failure>)
      requires Consistent(State())
      modifies this
      ensures Consistent(State())
      ensures r.Err? <==> !writeOk
      ensures r.Err? ==> State() == old(State())
      ensures r.Ok? ==> (r.value <==> !Mandatory(q.actionClass) && exists id :: Eligible(old(State()), q, now, id))
      ensures r == Ok(true) ==>
        exists id :: Newest(old(State()), q, now, id) && State() == Charge(old(State()), id, q)
                     && (!old(grants)[id].kind.Task? ==> Covers(old(grants)[id], q))
      ensures r == Ok(false) && Mandatory(q.actionClass) ==>
        grants == old(grants) &&
        audit == old(audit) + [Entry(None, q.taskRunId, MandatoryReconfirm, q.actionClass, q.resource)]
      ensures r == Ok(false) && !Mandatory(q.actionClass) ==>
        exists x :: IsLatestExpired(old(State()), q, now, x) && State() == Note(old(State()), Refusal(q, x))
    {
      hide Consistent, ScopeMatches, Mandatory, Addressed, Live, WithinBudget, Lifecycle, Covers;
      if Mandatory(q.actionClass) {
        if !writeOk { return Err(StoreFailed); }
        NoteKeeps(State(), Reconfirm(q));
        audit := audit + [Reconfirm(q)];
        return Ok(false);
      }
      var rows := Candidates(q, now);
      for k := 0 to |rows|
        invariant State() == old(State())
        invariant forall i :: 0 <= i < k ==> !Eligible(State(), q, now, rows[i].id)
      {
        var row := rows[k];
        if ScopeMatches(row.snapshot, q) && WithinBudget(row.snapshot, q.uses) {
          assert Eligible(State(), q, now, row.id);
          if !writeOk { return Err(StoreFailed); }
          assert Newest(State(), q, now, row.id) by { FirstIsNewest(State(), q, now, rows, k); }
          ChargeKeepsAddressed(State(), q, now, row.id);
          EligibleMeans(State(), q, now, row.id);
          grants := grants[row.id := grants[row.id].(usedCount := grants[row.id].usedCount + q.uses)];
          audit := audit + [Entry(Some(row.id), q.taskRunId, Used(q.uses), q.actionClass, q.resource)];
          assert State() == Charge(old(State()), row.id, q);
          return Ok(true);
        }
      }
      assert forall id :: !Eligible(State(), q, now, id);
      if !writeOk { return Err(StoreFailed); }
      var expired := LatestExpired(q, now);
      NoteKeeps(State(), Refusal(q, expired));
      audit := audit + [Refusal(q, expired)];
      assert State() == Note(old(State()), Refusal(q, expired));
      r := Ok(false);
    }
  }

  lemma ChargeKeepsAddressed(l: Ledger, q: Request, now: int, id: Id)
    requires Consistent(l) && Eligible(l, q, now, id) && !Mandatory(q.actionClass)
    ensures id in l.grants && Consistent(Charge(l, id, q))
  {
    hide Consistent, Mandatory, ScopeMatches;
    ChargeKeeps(l, id, q, now);
  }

  /** The first usable row of the candidate list is the newest eligible grant. */
  lemma FirstIsNewest(l: Ledger, q: Request, now: int, rows: seq<Row>, k: nat)
    requires IsCandidateList(l, q, now, rows) && k < |rows|
    requires Eligible(l, q, now, rows[k].id)
    requires forall i :: 0 <= i < k ==> !Eligible(l, q, now, rows[i].id)
    ensures Newest(l, q, now, rows[k].id)
  {
    hide ScopeMatches, Addressed, Live, WithinBudget;
    forall x | Eligible(l, q, now, x) ensures l.grants[x].reviewedAt <= l.grants[rows[k].id].reviewedAt {
      assert Live(l.grants[x], now);
      var i :| 0 <= i < |rows| && rows[i].id == x;
      assert i >= k;
    }
  }
}
