/** Single-use import grants (`issue_agent_import_grant`, `scan_agent_import_grant` and
    `consume_agent_import_grant`, src-tauri/src/agent_manager.rs, lines 3562-3687 and 4405-4454):
    a store bounded in grants, files and bytes. */
module ImportGrants {
  import opened Basics
  import TokenText

  type Id = string

  const GRANT_TTL_MS := 600_000
  const MAX_FILES := 240
  const MAX_BYTES := 20 * 1024 * 1024
  const MAX_LIVE_GRANTS := 4
  const MAX_LIVE_FILES := 480
  const MAX_LIVE_BYTES := 40 * 1024 * 1024

  datatype File = File(key: string, journal: bool, metadata: bool, length: nat)

  datatype Manifest = Manifest(token: string, allowed: set<string>)

  datatype Grant = Grant(expiresAt: int, files: seq<File>, manifest: Option<Manifest>)

  type Grants = map<Id, Grant>

  datatype Refusal = NoSupportedFiles | TooManyFiles | TooManyBytes | CapacityExhausted | Invalid | Expired | NotScanned
                   | StaleToken | NotInManifest | ContentChanged

  function Bytes(files: seq<File>): nat {
    if files == [] then 0 else Bytes(files[..|files| - 1]) + files[|files| - 1].length
  }

  // ---------------------------------------------------------------------------------------
  // Sums over the live grants
  // ---------------------------------------------------------------------------------------

  ghost function SumOver(ids: set<Id>, f: map<Id, nat>): nat
    requires ids <= f.Keys
  {
    if ids == {} then 0
    else var id :| id in ids; f[id] + SumOver(ids - {id}, f)
  }

  /** The sum does not depend on the order of summation. */
  lemma {:induction false} SumTake(ids: set<Id>, f: map<Id, nat>, x: Id)
    requires ids <= f.Keys && x in ids
    ensures SumOver(ids, f) == f[x] + SumOver(ids - {x}, f)
    decreases ids
  {
    var id :| id in ids && SumOver(ids, f) == f[id] + SumOver(ids - {id}, f);
    if id != x {
      SumTake(ids - {id}, f, x);
      SumTake(ids - {x}, f, id);
      assert ids - {id} - {x} == ids - {x} - {id};
    }
  }

  lemma {:induction false} SumSubset(small: set<Id>, big: set<Id>, f: map<Id, nat>)
    requires small <= big <= f.Keys
    ensures SumOver(small, f) <= SumOver(big, f)
    decreases big
  {
    if small != big {
      var id :| id in big && id !in small;
      SumTake(big, f, id);
      SumSubset(small, big - {id}, f);
    }
  }

  lemma {:induction false} SumAgree(ids: set<Id>, f: map<Id, nat>, g: map<Id, nat>)
    requires ids <= f.Keys && ids <= g.Keys && forall id :: id in ids ==> f[id] == g[id]
    ensures SumOver(ids, f) == SumOver(ids, g)
    decreases ids
  {
    if ids != {} {
      var id :| id in ids;
      SumTake(ids, f, id);
      SumTake(ids, g, id);
      SumAgree(ids - {id}, f, g);
    }
  }

  function Counts(m: Grants): map<Id, nat> { map id | id in m :: |m[id].files| }

  function Lengths(m: Grants): map<Id, nat> { map id | id in m :: Bytes(m[id].files) }

  ghost function LiveFiles(m: Grants): nat { SumOver(m.Keys, Counts(m)) }

  ghost function LiveBytes(m: Grants): nat { SumOver(m.Keys, Lengths(m)) }

  ghost predicate WithinCapacity(m: Grants) {
    |m| <= MAX_LIVE_GRANTS && LiveFiles(m) <= MAX_LIVE_FILES && LiveBytes(m) <= MAX_LIVE_BYTES
  }

  /** Dropping grants never raises a total. */
  lemma SmallerWithin(m: Grants, n: Grants)
    requires WithinCapacity(m) && n.Keys <= m.Keys && forall id :: id in n ==> n[id].files == m[id].files
    ensures WithinCapacity(n)
  {
    SumSubset(n.Keys, m.Keys, Counts(m));
    SumAgree(n.Keys, Counts(n), Counts(m));
    SumSubset(n.Keys, m.Keys, Lengths(m));
    SumAgree(n.Keys, Lengths(n), Lengths(m));
    CardinalitySubset(n.Keys, m.Keys);
  }

  lemma {:induction false} CardinalitySubset(a: set<Id>, b: set<Id>)
    requires a <= b
    ensures |a| <= |b|
    decreases a
  {
    if a != {} {
      var x :| x in a;
      CardinalitySubset(a - {x}, b - {x});
    }
  }

  lemma AddedTotals(m: Grants, id: Id, g: Grant)
    requires id !in m
    ensures LiveFiles(m[id := g]) == LiveFiles(m) + |g.files|
    ensures LiveBytes(m[id := g]) == LiveBytes(m) + Bytes(g.files)
    ensures |m[id := g]| == |m| + 1
  {
    hide Bytes;
    var n := m[id := g];
    assert n.Keys == m.Keys + {id} && n.Keys - {id} == m.Keys;
    SumTake(n.Keys, Counts(n), id);
    SumAgree(m.Keys, Counts(n), Counts(m));
    SumTake(n.Keys, Lengths(n), id);
    SumAgree(m.Keys, Lengths(n), Lengths(m));
  }

  // ---------------------------------------------------------------------------------------
  // The three operations
  // ---------------------------------------------------------------------------------------

  /** `retain(|_, grant| grant.expires_at_ms > now)`. */
  function Prune(m: Grants, now: int): Grants {
    map id | id in m && m[id].expiresAt > now :: m[id]
  }

  /** Adding this grant must not take any total past its limit. */
  ghost predicate Room(m: Grants, files: seq<File>) {
    && |m| < MAX_LIVE_GRANTS
    && LiveFiles(m) + |files| <= MAX_LIVE_FILES
    && LiveBytes(m) + Bytes(files) <= MAX_LIVE_BYTES
  }

  /** The checks a selection must pass before the store is looked at (lines 3562-3577). */
  function SelectionRefusal(files: seq<File>): Option<Refusal> {
    if forall i :: 0 <= i < |files| ==> files[i].metadata then Some(NoSupportedFiles)
    else if |files| > MAX_FILES then Some(TooManyFiles)
    else if Bytes(files) > MAX_BYTES then Some(TooManyBytes)
    else None
  }

  ghost function Issued(m: Grants, issuedAt: int, now: int, id: Id, files: seq<File>): (Grants, Result<Id, Refusal>) {
    var refusal := SelectionRefusal(files);
    if refusal.Some? then (m, Err(refusal.value))
    else
      var live := Prune(m, now);
      if !Room(live, files) then (live, Err(CapacityExhausted))
      else (live[id := Grant(Clamp64(issuedAt + GRANT_TTL_MS), files, None)], Ok(id))
  }

  /** `String::len`, in bytes of UTF-8. */
  function Utf8Length(s: string): nat {
    if s == "" then 0
    else
      var c := s[|s| - 1] as int;
      Utf8Length(s[..|s| - 1]) + (if c < 0x80 then 1 else if c < 0x800 then 2 else if c < 0x10000 then 3 else 4)
  }

  /** The shape check on ids and tokens (lines 3635 and 4410-4413). */
  predicate WellFormed(text: string) { TokenText.Trim(text) != "" && Utf8Length(text) <= 128 }

  /** The keys a scan offers: all visible files, journals only if selected by the requested range. */
  function Offered(files: seq<File>, journals: set<string>): set<string> {
    set i | 0 <= i < |files| && !files[i].metadata && (!files[i].journal || files[i].key in journals) :: files[i].key
  }

  function Scanned(m: Grants, now: int, id: Id, intact: bool, journals: set<string>, token: string)
    : (Grants, Result<Manifest, Refusal>)
  {
    if !WellFormed(id) then (m, Err(Invalid))
    else
      var live := Prune(m, now);
      if id !in live then (live, Err(Invalid))
      else if !intact then (live, Err(ContentChanged))
      else
        var manifest := Manifest(token, Offered(live[id].files, journals));
        (live[id := live[id].(manifest := Some(manifest))], Ok(manifest))
  }

  function ConsumeRefusal(g: Grant, now: int, token: string, keys: set<string>, intact: bool): Option<Refusal> {
    if g.expiresAt <= now then Some(Expired)
    else if g.manifest.None? then Some(NotScanned)
    else if g.manifest.value.token != token then Some(StaleToken)
    else if !(keys <= g.manifest.value.allowed) then Some(NotInManifest)
    else if !intact then Some(ContentChanged)
    else None
  }

  function Consumed(m: Grants, now: int, id: Id, token: string, keys: set<string>, intact: bool)
    : (Grants, Result<(), Refusal>)
  {
    if !WellFormed(id) || !WellFormed(token) || id !in m then (m, Err(Invalid))
    else
      var refusal := ConsumeRefusal(m[id], now, token, keys, intact);
      (m - {id}, if refusal.Some? then Err(refusal.value) else Ok(()))
  }

  /** A consume that gets as far as the store uses the grant up, whether or not it then succeeds. */
  lemma ConsumeAlwaysSpends(m: Grants, now: int, id: Id, token: string, keys: set<string>, intact: bool)
    requires WellFormed(id) && WellFormed(token)
    ensures id !in Consumed(m, now, id, token, keys, intact).0
    ensures forall x :: x != id ==>
      (x in Consumed(m, now, id, token, keys, intact).0 <==> x in m) &&
      (x in m ==> Consumed(m, now, id, token, keys, intact).0[x] == m[x])
  {
  }

  // ---------------------------------------------------------------------------------------
  // What the operations do, field by field
  // ---------------------------------------------------------------------------------------

  /** Bytes of files add up. */
  lemma {:induction false} BytesAcross(a: seq<File>, b: seq<File>)
    ensures Bytes(a + b) == Bytes(a) + Bytes(b)
    ensures |a| == 1 ==> Bytes(a) == a[0].length
  {
    if |a| == 1 {
      assert a[..0] == [];
      assert Bytes(a[..0]) == 0;
    }
    if b == [] {
      assert a + b == a;
    } else {
      assert (a + b)[..|a + b| - 1] == a + b[..|b| - 1];
      BytesAcross(a, b[..|b| - 1]);
    }
  }

  /** The length of text in UTF-8: one byte for an ASCII character, up to four for others, and adding up. */
  lemma {:induction false} LengthAcross(a: string, b: string)
    ensures Utf8Length(a + b) == Utf8Length(a) + Utf8Length(b)
    ensures |a| == 1 ==>
      var c := a[0] as int;
      Utf8Length(a) == (if c < 128 then 1 else if c < 2048 then 2 else if c < 65536 then 3 else 4)
  {
    if |a| == 1 {
      assert a[..0] == "";
      assert Utf8Length(a[..0]) == 0;
    }
    if b == "" {
      assert a + b == a;
    } else {
      assert (a + b)[..|a + b| - 1] == a + b[..|b| - 1];
      LengthAcross(a, b[..|b| - 1]);
    }
  }

  /** A grant is issued exactly for a selection with something other than metadata in it, of at most 240
      files and 20 MiB, when with it the unexpired grants stay within 4, 480 files and 40 MiB. */
  lemma IssuedIff(m: Grants, issuedAt: int, now: int, id: Id, files: seq<File>)
    ensures var live := Prune(m, now);
      Issued(m, issuedAt, now, id, files).1.Ok? <==>
        && (exists i :: 0 <= i < |files| && !files[i].metadata)
        && |files| <= 240 && Bytes(files) <= 20_971_520
        && |live| < 4 && LiveFiles(live) + |files| <= 480 && LiveBytes(live) + Bytes(files) <= 41_943_040
  {
    hide Bytes, LiveFiles, LiveBytes, Prune;
  }

  /** Why a selection is refused, the first reason that applies. */
  lemma IssueRefusedWhy(m: Grants, issuedAt: int, now: int, id: Id, files: seq<File>)
    requires Issued(m, issuedAt, now, id, files).1.Err?
    ensures var why := Issued(m, issuedAt, now, id, files).1.error;
      if forall i :: 0 <= i < |files| ==> files[i].metadata then why == NoSupportedFiles
      else if |files| > 240 then why == TooManyFiles
      else if Bytes(files) > 20_971_520 then why == TooManyBytes
      else why == CapacityExhausted
  {
    hide Bytes, LiveFiles, LiveBytes, Prune;
  }

  /** An issued grant has the files, no manifest yet, and ten minutes; all other unexpired grants stay. */
  lemma IssuedGrant(m: Grants, issuedAt: int, now: int, id: Id, files: seq<File>)
    requires Issued(m, issuedAt, now, id, files).1.Ok? && I64_MIN <= issuedAt && issuedAt + 600_000 <= I64_MAX
    ensures var t := Issued(m, issuedAt, now, id, files).0;
      && id in t && t[id] == Grant(issuedAt + 600_000, files, None)
      && forall x :: x != id ==> (x in t <==> x in m && m[x].expiresAt > now) && (x in t ==> t[x] == m[x])
  {
    hide Bytes, LiveFiles, LiveBytes, SelectionRefusal, Room;
  }

  /** A scan succeeds exactly on an unexpired grant with its files intact. It then offers all files that
      are not metadata, journals only if they were selected, under the new token, and replaces nothing
      but the manifest of that grant. */
  lemma ScannedGrant(m: Grants, now: int, id: Id, intact: bool, journals: set<string>, token: string)
    ensures var (t, r) := Scanned(m, now, id, intact, journals, token);
      && (r.Ok? <==> TokenText.Trim(id) != "" && Utf8Length(id) <= 128 && id in m && m[id].expiresAt > now && intact)
      && (r.Ok? ==>
            && r.value.token == token
            && (forall k :: k in r.value.allowed <==>
                  (exists i :: 0 <= i < |m[id].files| && m[id].files[i].key == k && !m[id].files[i].metadata
                               && (m[id].files[i].journal ==> k in journals)))
            && id in t && t[id] == m[id].(manifest := Some(r.value))
            && forall x :: x != id ==> (x in t <==> x in m && m[x].expiresAt > now) && (x in t ==> t[x] == m[x]))
  {
    hide Utf8Length;
  }

  /** A consume succeeds exactly on an unexpired grant that was scanned, with the token of that scan, keys
      it offered, and the files intact. */
  lemma ConsumedIff(m: Grants, now: int, id: Id, token: string, keys: set<string>, intact: bool)
    ensures Consumed(m, now, id, token, keys, intact).1.Ok? <==>
      && TokenText.Trim(id) != "" && Utf8Length(id) <= 128 && TokenText.Trim(token) != "" && Utf8Length(token) <= 128
      && id in m && now < m[id].expiresAt && m[id].manifest.Some? && m[id].manifest.value.token == token
      && keys <= m[id].manifest.value.allowed && intact
  {
    hide Utf8Length;
  }

  // ---------------------------------------------------------------------------------------
  // Whole runs
  // ---------------------------------------------------------------------------------------

  datatype Op =
    | Issue(issuedAt: int, now: int, id: Id, files: seq<File>)
    | Scan(now: int, id: Id, intact: bool, journals: set<string>, token: string)
    | Consume(now: int, id: Id, token: string, keys: set<string>, intact: bool)

  /** What succeeded, in order. */
  datatype Success =
    | DidIssue(id: Id, expiresAt: int)
    | DidScan(id: Id, manifest: Manifest)
    | DidConsume(id: Id, now: int, token: string, keys: set<string>)

  datatype State = State(grants: Grants, log: seq<Success>)

  ghost function Apply(s: State, op: Op): State {
    match op
    case Issue(issuedAt, now, id, files) =>
      var r := Issued(s.grants, issuedAt, now, id, files);
      State(r.0, if r.1.Ok? then s.log + [DidIssue(id, Clamp64(issuedAt + GRANT_TTL_MS))] else s.log)
    case Scan(now, id, intact, journals, token) =>
      var r := Scanned(s.grants, now, id, intact, journals, token);
      State(r.0, if r.1.Ok? then s.log + [DidScan(id, r.1.value)] else s.log)
    case Consume(now, id, token, keys, intact) =>
      var r := Consumed(s.grants, now, id, token, keys, intact);
      State(r.0, if r.1.Ok? then s.log + [DidConsume(id, now, token, keys)] else s.log)
  }

  ghost function Run(ops: seq<Op>): State {
    if ops == [] then State(map[], []) else Apply(Run(ops[..|ops| - 1]), ops[|ops| - 1])
  }

  function Issues(log: seq<Success>, id: Id): nat {
    if log == [] then 0
    else Issues(log[..|log| - 1], id) + (if log[|log| - 1].DidIssue? && log[|log| - 1].id == id then 1 else 0)
  }

  function Consumes(log: seq<Success>, id: Id): nat {
    if log == [] then 0
    else Consumes(log[..|log| - 1], id) + (if log[|log| - 1].DidConsume? && log[|log| - 1].id == id then 1 else 0)
  }

  /** What the log says is current for `id`: the expiry it was last issued with, and the manifest of
      the most recent scan since then. */
  datatype Current = Current(expiresAt: int, manifest: Option<Manifest>)

  function Latest(log: seq<Success>, id: Id): Option<Current> {
    if log == [] then None
    else
      var before := Latest(log[..|log| - 1], id);
      match log[|log| - 1]
      case DidIssue(x, e) => if x == id then Some(Current(e, None)) else before
      case DidScan(x, m) => if x == id && before.Some? then Some(before.value.(manifest := Some(m))) else before
      case DidConsume(_, _, _, _) => before
  }

  /** A recorded consume was justified by the log before it. */
  predicate Justified(log: seq<Success>, i: nat)
    requires i < |log|
  {
    log[i].DidConsume? ==>
      var c := Latest(log[..i], log[i].id);
      && c.Some? && log[i].now < c.value.expiresAt
      && c.value.manifest.Some? && c.value.manifest.value.token == log[i].token
      && log[i].keys <= c.value.manifest.value.allowed
  }

  ghost predicate LogOk(s: State) {
    && (forall id :: Consumes(s.log, id) + (if id in s.grants then 1 else 0) <= Issues(s.log, id))
    && (forall id :: id in s.grants ==>
          Latest(s.log, id) == Some(Current(s.grants[id].expiresAt, s.grants[id].manifest)))
    && (forall i :: 0 <= i < |s.log| ==> Justified(s.log, i))
  }

  lemma LogSnoc(log: seq<Success>, e: Success)
    ensures (log + [e])[..|log|] == log && (log + [e])[|log|] == e
    ensures (forall i :: 0 <= i < |log| ==> Justified(log, i)) ==>
      forall i :: 0 <= i < |log| ==> Justified(log + [e], i)
  {
    hide Latest;
    assert (log + [e])[..|log|] == log;
    forall i | 0 <= i < |log| && Justified(log, i) ensures Justified(log + [e], i) {
      assert (log + [e])[..i] == log[..i];
    }
  }

  lemma CapacityStep(s: State, op: Op)
    requires WithinCapacity(s.grants)
    ensures WithinCapacity(Apply(s, op).grants)
  {
    hide Bytes, SumOver, LiveFiles, LiveBytes, SelectionRefusal, ConsumeRefusal, Offered;
    match op {
      case Issue(issuedAt, now, id, files) =>
        var live := Prune(s.grants, now);
        SmallerWithin(s.grants, live);
        if Issued(s.grants, issuedAt, now, id, files).1.Ok? {
          IssueWithin(live, id, Grant(Clamp64(issuedAt + GRANT_TTL_MS), files, None));
        }
      case Scan(now, id, intact, journals, token) =>
        SmallerWithin(s.grants, Apply(s, op).grants);
      case Consume(now, id, token, keys, intact) =>
        SmallerWithin(s.grants, Apply(s, op).grants);
    }
  }

  /** Inserting where there is room stays within capacity, even over an id already present. */
  lemma IssueWithin(m: Grants, id: Id, g: Grant)
    requires WithinCapacity(m) && Room(m, g.files)
    ensures WithinCapacity(m[id := g])
  {
    hide Bytes, SumOver;
    var rest := m - {id};
    assert m[id := g] == rest[id := g];
    AddedTotals(rest, id, g);
    if id in m {
      assert m == rest[id := m[id]];
      AddedTotals(rest, id, m[id]);
    } else {
      assert rest == m;
    }
  }

  lemma LogStep(s: State, op: Op)
    requires LogOk(s)
    ensures LogOk(Apply(s, op))
  {
    hide Bytes, Room, SelectionRefusal, Offered;
    var t := Apply(s, op);
    if |t.log| == |s.log| {
      assert t.log == s.log;
      forall id ensures id in t.grants ==> id in s.grants && t.grants[id] == s.grants[id] {}
    } else {
      LogStepSuccess(s, op);
    }
  }

  lemma LogStepSuccess(s: State, op: Op)
    requires LogOk(s) && |Apply(s, op).log| > |s.log|
    ensures LogOk(Apply(s, op))
  {
    hide Apply, Consumes, Issues, Latest, Justified;
    var t := Apply(s, op);
    forall id ensures Consumes(t.log, id) + (if id in t.grants then 1 else 0) <= Issues(t.log, id) {
      SuccessCounts(s, op, id);
    }
    forall id | id in t.grants
      ensures Latest(t.log, id) == Some(Current(t.grants[id].expiresAt, t.grants[id].manifest))
    {
      SuccessLatest(s, op, id);
    }
    SuccessJustified(s, op);
  }

  lemma SuccessCounts(s: State, op: Op, id: Id)
    requires LogOk(s) && |Apply(s, op).log| > |s.log|
    ensures var t := Apply(s, op); Consumes(t.log, id) + (if id in t.grants then 1 else 0) <= Issues(t.log, id)
  {
    hide Bytes, Room, SelectionRefusal, Offered, Latest, Justified;
    var t := Apply(s, op);
    assert t.log[..|t.log| - 1] == s.log;
    assert Consumes(s.log, id) + (if id in s.grants then 1 else 0) <= Issues(s.log, id);
  }

  lemma SuccessLatest(s: State, op: Op, id: Id)
    requires LogOk(s) && |Apply(s, op).log| > |s.log| && id in Apply(s, op).grants
    ensures var t := Apply(s, op);
      Latest(t.log, id) == Some(Current(t.grants[id].expiresAt, t.grants[id].manifest))
  {
    hide Bytes, Room, SelectionRefusal, Offered, Consumes, Issues, Justified, WellFormed;
    var t := Apply(s, op);
    assert t.log[..|t.log| - 1] == s.log;
  }

  lemma SuccessJustified(s: State, op: Op)
    requires LogOk(s) && |Apply(s, op).log| > |s.log|
    ensures forall i :: 0 <= i < |Apply(s, op).log| ==> Justified(Apply(s, op).log, i)
  {
    hide Bytes, Room, SelectionRefusal, Offered, Consumes, Issues, Latest, WellFormed;
    var t := Apply(s, op);
    var e := t.log[|s.log|];
    assert t.log == s.log + [e];
    LogSnoc(s.log, e);
    assert Justified(t.log, |s.log|);
  }

  ghost predicate Inv(s: State) { WithinCapacity(s.grants) && LogOk(s) }

  /** Every reachable state, for every sequence of operations at any times. */
  lemma {:induction false} Reachable(ops: seq<Op>)
    ensures Inv(Run(ops))
  {
    hide WithinCapacity, LogOk, Apply;
    if ops == [] {
      EmptyOk();
    } else {
      Reachable(ops[..|ops| - 1]);
      CapacityStep(Run(ops[..|ops| - 1]), ops[|ops| - 1]);
      LogStep(Run(ops[..|ops| - 1]), ops[|ops| - 1]);
    }
  }

  lemma EmptyOk()
    ensures Inv(State(map[], []))
  {
    assert LiveFiles(map[]) == 0 && LiveBytes(map[]) == 0;
  }

  /** In every reachable state there are at most 4 grants, 480 files and 40 MiB. */
  lemma CapacityHolds(ops: seq<Op>)
    ensures |Run(ops).grants| <= 4 && LiveFiles(Run(ops).grants) <= 480 && LiveBytes(Run(ops).grants) <= 41_943_040
  {
    hide LogOk, LiveFiles, LiveBytes, Run;
    Reachable(ops);
  }

  /** Single use: an id is consumed successfully at most as often as it was issued, hence at most
      once when ids are unique; and every success came before the expiry it was issued with, with
      the token of the most recent scan and only keys from that scan. */
  lemma SingleUse(ops: seq<Op>, id: Id)
    ensures var log := Run(ops).log;
      && Consumes(log, id) <= Issues(log, id)
      && (Issues(log, id) <= 1 ==> Consumes(log, id) <= 1)
      && forall i :: 0 <= i < |log| ==> Justified(log, i)
  {
    hide WithinCapacity, Run, Justified, Consumes, Issues, Latest;
    Reachable(ops);
  }

  // ---------------------------------------------------------------------------------------
  // The store as an object
  // ---------------------------------------------------------------------------------------

  class Store {
    var grants: Grants

    constructor ()
      ensures grants == map[] && WithinCapacity(grants)
    {
      grants := map[];
      new;
      EmptyOk();
    }

    /** The sum over the live grants, as `values().map(..).sum()` computes it. */
    method Total(f: map<Id, nat>) returns (total: nat)
      requires f.Keys == grants.Keys
      ensures total == SumOver(grants.Keys, f)
    {
      total := 0;
      var rest := grants.Keys;
      while rest != {}
        invariant rest <= grants.Keys
        invariant total + SumOver(rest, f) == SumOver(grants.Keys, f)
        decreases |rest|
      {
        var id :| id in rest;
        SumTake(rest, f, id);
        total := total + f[id];
        rest := rest - {id};
      }
    }

    /** The capacity part of `issue_agent_import_grant`. */
    method IssueGrant(issuedAt: int, now: int, id: Id, files: seq<File>) returns (r: Result<Id, Refusal>)
      requires WithinCapacity(grants)
      modifies this
      ensures WithinCapacity(grants)
      ensures (grants, r) == Issued(old(grants), issuedAt, now, id, files)
    {
      hide Bytes, SumOver, WithinCapacity;
      CapacityStep(State(grants, []), Issue(issuedAt, now, id, files));
      var refusal := SelectionRefusal(files);
      if refusal.Some? { return Err(refusal.value); }
      grants := Prune(grants, now);
      var liveFiles := Total(Counts(grants));
      var liveBytes := Total(Lengths(grants));
      if |grants| >= MAX_LIVE_GRANTS || liveFiles + |files| > MAX_LIVE_FILES
         || liveBytes + Bytes(files) > MAX_LIVE_BYTES {
        return Err(CapacityExhausted);
      }
      grants := grants[id := Grant(Clamp64(issuedAt + GRANT_TTL_MS), files, None)];
      r := Ok(id);
    }

    /** `scan_agent_import_grant`. */
    method ScanGrant(now: int, id: Id, filesIntact: bool, journals: set<string>, token: string)
      returns (r: Result<Manifest, Refusal>)
      requires WithinCapacity(grants)
      modifies this
      ensures WithinCapacity(grants)
      ensures (grants, r) == Scanned(old(grants), now, id, filesIntact, journals, token)
    {
      hide WithinCapacity;
      CapacityStep(State(grants, []), Scan(now, id, filesIntact, journals, token));
      if !WellFormed(id) { return Err(Invalid); }
      grants := Prune(grants, now);
      if id !in grants { return Err(Invalid); }
      if !filesIntact { return Err(ContentChanged); }
      var manifest := Manifest(token, Offered(grants[id].files, journals));
      grants := grants[id := grants[id].(manifest := Some(manifest))];
      r := Ok(manifest);
    }

    /** `consume_agent_import_grant`. */
    method ConsumeGrant(now: int, id: Id, token: string, keys: set<string>, filesIntact: bool)
      returns (r: Result<(), Refusal>)
      requires WithinCapacity(grants)
      modifies this
      ensures WithinCapacity(grants)
      ensures (grants, r) == Consumed(old(grants), now, id, token, keys, filesIntact)
      ensures WellFormed(id) && WellFormed(token) ==> id !in grants
    {
      hide WithinCapacity;
      CapacityStep(State(grants, []), Consume(now, id, token, keys, filesIntact));
      if !WellFormed(id) || !WellFormed(token) || id !in grants { return Err(Invalid); }
      var grant := grants[id];
      grants := grants - {id};
      if grant.expiresAt <= now { return Err(Expired); }
      if grant.manifest.None? { return Err(NotScanned); }
      if grant.manifest.value.token != token { return Err(StaleToken); }
      if !(keys <= grant.manifest.value.allowed) { return Err(NotInManifest); }
      if !filesIntact { return Err(ContentChanged); }
      r := Ok(());
    }
  }
}
