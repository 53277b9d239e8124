/** Verification of the signed release gate against the evidence files beside it
    (src-tauri/src/audit.rs, lines 243-280, 295-397 and 423-431). Digests and the signature check are
    inputs; instants and durations are whole nanoseconds. */
module ReleaseGate {
  import opened Basics
  import opened TokenText

  const MINUTE: int := 60_000_000_000
  const DAY: int := 1440 * MINUTE

  /** The evidence a release needs, by type. */
  function Required(): (r: seq<string>)
    ensures |r| == 13
  {
    ["apple_toolchain", "dependency_audit", "pdf_containment", "automated_tests", "release_sanitizer",
     "database_sanitizer", "entitlement_snapshot", "artifact_validation", "signing", "notarization",
     "stapling", "manifest_verification", "clean_machine_launch"]
  }

  datatype Check = Check(evidenceType: string, sha256: string)

  /** What the gate and every evidence record must agree on. */
  datatype Build = Build(identifier: string, revision: string, artifact: string, digest: string)

  /** The signed payload. A time is `None` when it is not an RFC 3339 timestamp. */
  datatype Gate = Gate(
    schemaVersion: nat, kind: string, status: string, synthetic: bool, strictMlcMode: bool,
    build: Build, verifiedAt: Option<int>, expiresAt: Option<int>, checks: seq<Check>)

  /** `payloadDigest` is the digest of the payload text and `payload` its parse. */
  datatype SignedGate = SignedGate(
    schemaVersion: nat, kind: string, algorithm: string, publicKeyHex: string, keyFingerprint: string,
    payloadSha256: string, payloadDigest: string, signatureVerifies: bool, payload: Option<Gate>)

  datatype Key = Key(hex: string, fingerprint: string)

  datatype Evidence = Evidence(
    schemaVersion: nat, kind: string, evidenceType: string, status: string, synthetic: bool,
    build: Build, producedAt: Option<int>, expiresAt: Option<int>, executed: bool, exitCode: int)

  /** A readable file `<evidence type>.json`. */
  datatype File = File(immutable: bool, digest: string, record: Option<Evidence>)

  type Directory = map<string, File>

  predicate IsHexDigit(c: char) { '0' <= c <= '9' || 'a' <= c <= 'f' || 'A' <= c <= 'F' }

  predicate IsHex(s: string, n: nat) { |s| == n && forall i :: 0 <= i < n ==> IsHexDigit(s[i]) }

  predicate IsSha256Digest(s: string) { "sha256:" <= s && IsHex(s[7..], 64) }

  /** `evidence_freshness`. */
  function Freshness(evidenceType: string): Option<int> {
    if evidenceType == "clean_machine_launch" then Some(7 * DAY)
    else if evidenceType in Required() then Some(DAY)
    else None
  }

  predicate SignatureAccepted(signed: SignedGate, key: Key) {
    && signed.schemaVersion == 1
    && signed.kind == "oomu.signed-release-evidence-gate"
    && signed.algorithm == "ed25519"
    && signed.publicKeyHex == key.hex
    && signed.keyFingerprint == key.fingerprint
    && signed.payloadSha256 == signed.payloadDigest
    && signed.signatureVerifies
  }

  predicate PayloadAccepted(gate: Gate) {
    && gate.schemaVersion == 1
    && gate.kind == "oomu.release-evidence-gate"
    && gate.status == "passed"
    && !gate.synthetic
    && gate.strictMlcMode
    && Trim(gate.build.identifier) != ""
    && Trim(gate.build.artifact) != ""
    && IsSha256Digest(gate.build.digest)
    && IsHex(gate.build.revision, 40)
  }

  predicate FileAccepted(dir: Directory, check: Check) {
    && IsHex(check.sha256, 64)
    && check.evidenceType in dir
    && dir[check.evidenceType].immutable
    && dir[check.evidenceType].digest == check.sha256
    && dir[check.evidenceType].record.Some?
    && dir[check.evidenceType].record.value.producedAt.Some?
    && dir[check.evidenceType].record.value.expiresAt.Some?
  }

  function Produced(dir: Directory, check: Check): int
    requires FileAccepted(dir, check)
  {
    dir[check.evidenceType].record.value.producedAt.value
  }

  function Expires(dir: Directory, check: Check): int
    requires FileAccepted(dir, check)
  {
    dir[check.evidenceType].record.value.expiresAt.value
  }

  /** Everything about one evidence record that does not depend on the clock. */
  predicate RecordAccepted(dir: Directory, gate: Gate, check: Check) {
    && FileAccepted(dir, check)
    && var evidence := dir[check.evidenceType].record.value;
    && var freshness := Freshness(check.evidenceType);
    && freshness.Some?
    && evidence.schemaVersion == 1
    && evidence.kind == "oomu.executed-release-evidence"
    && evidence.evidenceType == check.evidenceType
    && evidence.status == "passed"
    && !evidence.synthetic
    && evidence.executed
    && evidence.exitCode == 0
    && evidence.build == gate.build
    && 0 < Expires(dir, check) - Produced(dir, check) <= freshness.value
  }

  function Types(checks: seq<Check>): seq<string> {
    seq(|checks|, i requires 0 <= i < |checks| => checks[i].evidenceType)
  }

  ghost predicate IsPermutation(a: seq<string>, b: seq<string>) { multiset(a) == multiset(b) }

  ghost predicate AllRecordsAccepted(dir: Directory, gate: Gate) {
    forall i :: 0 <= i < |gate.checks| ==> RecordAccepted(dir, gate, gate.checks[i])
  }

  ghost predicate OutlivedByEvidence(dir: Directory, gate: Gate)
    requires gate.expiresAt.Some? && AllRecordsAccepted(dir, gate)
  {
    forall i :: 0 <= i < |gate.checks| ==> gate.expiresAt.value <= Expires(dir, gate.checks[i])
  }

  /** Gate and evidence are acceptable, the clock aside. */
  ghost predicate Sound(signed: SignedGate, key: Key, dir: Directory) {
    && SignatureAccepted(signed, key)
    && signed.payload.Some?
    && var gate := signed.payload.value;
    && PayloadAccepted(gate)
    && gate.verifiedAt.Some?
    && gate.expiresAt.Some?
    && IsPermutation(Types(gate.checks), Required())
    && AllRecordsAccepted(dir, gate)
    && OutlivedByEvidence(dir, gate)
  }

  /** The latest of `start` and the production times of the first `n` checks. */
  ghost function Latest(dir: Directory, gate: Gate, n: nat, start: int): int
    requires n <= |gate.checks| && AllRecordsAccepted(dir, gate)
  {
    if n == 0 then start
    else Max(Latest(dir, gate, n - 1, start), Produced(dir, gate.checks[n - 1]))
  }

  lemma {:induction false} LatestAtMost(dir: Directory, gate: Gate, n: nat, start: int, bound: int)
    requires n <= |gate.checks| && AllRecordsAccepted(dir, gate)
    ensures Latest(dir, gate, n, start) <= bound <==>
            start <= bound && forall i :: 0 <= i < n ==> Produced(dir, gate.checks[i]) <= bound
  {
    hide RecordAccepted, FileAccepted;
    if n > 0 { LatestAtMost(dir, gate, n - 1, start, bound); }
  }

  /** The first instant at which a sound gate is accepted. */
  ghost function Opens(signed: SignedGate, key: Key, dir: Directory): int
    requires Sound(signed, key, dir)
  {
    var gate := signed.payload.value;
    Latest(dir, gate, |gate.checks|, gate.verifiedAt.value) - MINUTE
  }

  function Closes(signed: SignedGate): int
    requires signed.payload.Some? && signed.payload.value.expiresAt.Some?
  {
    signed.payload.value.expiresAt.value
  }

  ghost predicate Accepted(signed: SignedGate, key: Key, dir: Directory, now: int) {
    Sound(signed, key, dir) && Opens(signed, key, dir) <= now < Closes(signed)
  }

  // ---------------------------------------------------------------------------------------
  // Lists without repetition
  // ---------------------------------------------------------------------------------------

  ghost predicate Distinct(a: seq<string>) { forall i, j :: 0 <= i < j < |a| ==> a[i] != a[j] }

  lemma RequiredDistinct()
    ensures Distinct(Required())
  {
    var all := Required();
    forall i, j | 0 <= i < j < |all| ensures all[i] != all[j] {
      assert all[i][0] != all[j][0] || all[i][1] != all[j][1] || |all[i]| != |all[j]|;
    }
  }

  lemma {:induction false} Occurrences(a: seq<string>, x: string)
    ensures Distinct(a) ==> multiset(a)[x] == if x in a then 1 else 0
  {
    if a != [] {
      var n := |a| - 1;
      Occurrences(a[..n], x);
      assert a == a[..n] + [a[n]];
      if Distinct(a) { assert Distinct(a[..n]); }
    }
  }

  lemma RepeatedTwice(a: seq<string>, i: nat, j: nat)
    requires i < j < |a| && a[i] == a[j]
    ensures multiset(a)[a[i]] >= 2
  {
    assert a == a[..j] + a[j..];
    assert a[i] in a[..j] && a[j] in a[j..];
  }

  /** Two lists without repetition are permutations of each other exactly when they have the same
      members; and a permutation of such a list does not repeat either. */
  lemma DistinctPermutation(a: seq<string>, b: seq<string>)
    requires Distinct(b)
    ensures IsPermutation(a, b) <==> Distinct(a) && (forall x :: x in a <==> x in b)
    ensures IsPermutation(a, b) ==> |a| == |b|
  {
    if IsPermutation(a, b) {
      forall i, j | 0 <= i < j < |a| ensures a[i] != a[j] {
        if a[i] == a[j] { RepeatedTwice(a, i, j); Occurrences(b, a[i]); }
      }
      forall x ensures x in a <==> x in b {
        assert x in a <==> x in multiset(a);
        assert x in b <==> x in multiset(b);
      }
      assert |a| == |multiset(a)| && |b| == |multiset(b)|;
    }
    if Distinct(a) && (forall x :: x in a <==> x in b) {
      forall x ensures multiset(a)[x] == multiset(b)[x] {
        Occurrences(a, x);
        Occurrences(b, x);
      }
    }
  }

  // ---------------------------------------------------------------------------------------
  // Verification
  // ---------------------------------------------------------------------------------------

  predicate Timely(dir: Directory, check: Check, now: int) {
    FileAccepted(dir, check) && Produced(dir, check) <= now + MINUTE && Expires(dir, check) > now
  }

  /** The loop's findings for the first `n` checks. */
  ghost predicate Scanned(dir: Directory, gate: Gate, now: int, n: nat, seen: set<string>, minimum: Option<int>)
    requires n <= |gate.checks|
  {
    && (forall i :: 0 <= i < n ==> RecordAccepted(dir, gate, gate.checks[i]) && Timely(dir, gate.checks[i], now))
    && (forall x :: x in seen <==> x in Types(gate.checks[..n]))
    && Distinct(Types(gate.checks[..n]))
    && |seen| == n
    && IsMinimum(dir, gate, n, minimum)
  }

  /** `minimum` is the earliest expiry among the first `n` checks, or nothing when there are none. */
  ghost predicate IsMinimum(dir: Directory, gate: Gate, n: nat, minimum: Option<int>)
    requires n <= |gate.checks|
  {
    if n == 0 then minimum.None?
    else
      && minimum.Some?
      && (forall i :: 0 <= i < n ==> FileAccepted(dir, gate.checks[i]) && minimum.value <= Expires(dir, gate.checks[i]))
      && exists i :: 0 <= i < n && FileAccepted(dir, gate.checks[i]) && minimum.value == Expires(dir, gate.checks[i])
  }

  function Earlier(minimum: Option<int>, expires: int): Option<int> {
    Some(if minimum.Some? then Min(minimum.value, expires) else expires)
  }

  lemma MinimumGrows(dir: Directory, gate: Gate, n: nat, minimum: Option<int>)
    requires n < |gate.checks| && IsMinimum(dir, gate, n, minimum) && FileAccepted(dir, gate.checks[n])
    ensures IsMinimum(dir, gate, n + 1, Earlier(minimum, Expires(dir, gate.checks[n])))
  {
    hide FileAccepted;
    if n > 0 {
      var i :| 0 <= i < n && FileAccepted(dir, gate.checks[i]) && minimum.value == Expires(dir, gate.checks[i]);
      assert Expires(dir, gate.checks[i]) == minimum.value;
    }
  }

  /** A repeated evidence type rules acceptance out. */
  lemma RepeatRejects(gate: Gate, n: nat)
    requires n < |gate.checks| && gate.checks[n].evidenceType in Types(gate.checks[..n])
    ensures !IsPermutation(Types(gate.checks), Required())
  {
    hide Required, IsPermutation;
    var all, part := Types(gate.checks), Types(gate.checks[..n]);
    var i :| 0 <= i < |part| && part[i] == gate.checks[n].evidenceType;
    RequiredDistinct();
    DistinctPermutation(all, Required());
    assert all[i] == all[n];
  }

  lemma ScanExtends(dir: Directory, gate: Gate, now: int, n: nat, seen: set<string>, minimum: Option<int>)
    requires n < |gate.checks| && Scanned(dir, gate, now, n, seen, minimum)
    requires gate.checks[n].evidenceType !in seen
    requires RecordAccepted(dir, gate, gate.checks[n]) && Timely(dir, gate.checks[n], now)
    requires FileAccepted(dir, gate.checks[n])
    ensures Scanned(dir, gate, now, n + 1, seen + {gate.checks[n].evidenceType},
                    Earlier(minimum, Expires(dir, gate.checks[n])))
  {
    hide FileAccepted, RecordAccepted, Timely, Types, Distinct, IsMinimum;
    TypesGrow(gate.checks, n);
    MinimumGrows(dir, gate, n, minimum);
  }

  lemma TypesGrow(checks: seq<Check>, n: nat)
    requires n < |checks|
    ensures var part, more, next := Types(checks[..n]), Types(checks[..n + 1]), checks[n].evidenceType;
      && (forall x :: x in more <==> x in part || x == next)
      && (Distinct(part) && next !in part ==> Distinct(more))
  {
    assert Types(checks[..n + 1]) == Types(checks[..n]) + [checks[n].evidenceType];
  }

  /** With every check scanned, the closing test decides acceptance. */
  lemma ScanDecides(signed: SignedGate, key: Key, dir: Directory, now: int, seen: set<string>, minimum: Option<int>)
    requires SignatureAccepted(signed, key) && signed.payload.Some? && PayloadAccepted(signed.payload.value)
    requires signed.payload.value.verifiedAt.Some? && signed.payload.value.expiresAt.Some?
    requires signed.payload.value.verifiedAt.value <= now + MINUTE && now < signed.payload.value.expiresAt.value
    requires var gate := signed.payload.value; Scanned(dir, gate, now, |gate.checks|, seen, minimum)
    ensures Accepted(signed, key, dir, now) <==>
            && |seen| == |Required()|
            && (forall x :: x in Required() ==> x in seen)
            && minimum.Some?
            && Closes(signed) <= minimum.value
  {
    hide SignatureAccepted, PayloadAccepted, RecordAccepted, Required, IsPermutation, Timely;
    var gate := signed.payload.value;
    SeenDecides(dir, gate, now, seen, minimum);
    if gate.checks != [] { MinimumDecides(dir, gate, now, seen, minimum, gate.expiresAt.value); }
    LatestAtMost(dir, gate, |gate.checks|, gate.verifiedAt.value, now + MINUTE);
  }

  lemma SeenDecides(dir: Directory, gate: Gate, now: int, seen: set<string>, minimum: Option<int>)
    requires Scanned(dir, gate, now, |gate.checks|, seen, minimum)
    ensures IsPermutation(Types(gate.checks), Required()) <==>
            |seen| == |Required()| && forall x :: x in Required() ==> x in seen
  {
    hide RecordAccepted, Timely, Required, IsPermutation;
    var types := Types(gate.checks);
    assert gate.checks[..|gate.checks|] == gate.checks;
    RequiredDistinct();
    DistinctPermutation(types, Required());
    if |seen| == |Required()| && (forall x :: x in Required() ==> x in seen) {
      SameSize(types, Required());
    }
  }

  lemma MinimumDecides(dir: Directory, gate: Gate, now: int, seen: set<string>, minimum: Option<int>, bound: int)
    requires Scanned(dir, gate, now, |gate.checks|, seen, minimum) && gate.checks != []
    ensures AllRecordsAccepted(dir, gate) && minimum.Some?
    ensures bound <= minimum.value <==> forall i :: 0 <= i < |gate.checks| ==> bound <= Expires(dir, gate.checks[i])
    ensures forall i :: 0 <= i < |gate.checks| ==> Produced(dir, gate.checks[i]) <= now + MINUTE
  {
    hide Required, Freshness, Types, Distinct;
    assert forall i :: 0 <= i < |gate.checks| ==> Timely(dir, gate.checks[i], now);
    if bound <= minimum.value {
      forall i | 0 <= i < |gate.checks| ensures bound <= Expires(dir, gate.checks[i]) {
        assert minimum.value <= Expires(dir, gate.checks[i]);
      }
    }
  }

  /** A list without repetition that is as long as another and holds all its members holds no more. */
  lemma {:induction false} SameSize(a: seq<string>, b: seq<string>)
    requires Distinct(a) && Distinct(b) && |a| == |b|
    requires forall x :: x in b ==> x in a
    ensures forall x :: x in a <==> x in b
  {
    forall x ensures multiset(b)[x] <= multiset(a)[x] { Occurrences(a, x); Occurrences(b, x); }
    var rest := multiset(a) - multiset(b);
    assert multiset(b) <= multiset(a);
    assert |rest| == 0;
    forall x ensures x in a <==> x in b {
      assert rest[x] == 0;
      assert x in a <==> x in multiset(a);
      assert x in b <==> x in multiset(b);
    }
  }

  /** Acceptance means that no check would be refused by the loop. */
  lemma AcceptedRecords(signed: SignedGate, key: Key, dir: Directory, now: int, n: nat)
    requires Accepted(signed, key, dir, now) && n < |signed.payload.value.checks|
    ensures var gate := signed.payload.value;
            RecordAccepted(dir, gate, gate.checks[n]) && Timely(dir, gate.checks[n], now)
  {
    hide SignatureAccepted, PayloadAccepted, IsPermutation, Required, Freshness;
    var gate := signed.payload.value;
    assert RecordAccepted(dir, gate, gate.checks[n]);
    LatestAtMost(dir, gate, |gate.checks|, gate.verifiedAt.value, now + MINUTE);
    assert Produced(dir, gate.checks[n]) <= now + MINUTE;
    assert Closes(signed) <= Expires(dir, gate.checks[n]);
  }

  lemma ClockRejects(signed: SignedGate, key: Key, dir: Directory, now: int)
    requires signed.payload.Some?
    requires var gate := signed.payload.value;
             && gate.verifiedAt.Some?
             && gate.expiresAt.Some?
             && (gate.verifiedAt.value > now + MINUTE || gate.expiresAt.value <= now)
    ensures !Accepted(signed, key, dir, now)
  {
    hide SignatureAccepted, PayloadAccepted, RecordAccepted;
    if Sound(signed, key, dir) {
      var gate := signed.payload.value;
      LatestAtMost(dir, gate, |gate.checks|, gate.verifiedAt.value, now + MINUTE);
    }
  }

  lemma UnrequiredRejects(gate: Gate, n: nat)
    requires n < |gate.checks| && gate.checks[n].evidenceType !in Required()
    ensures !IsPermutation(Types(gate.checks), Required())
  {
    RequiredDistinct();
    DistinctPermutation(Types(gate.checks), Required());
    assert Types(gate.checks)[n] !in Required();
  }

  /** `verify_signed_release_gate`. */
  method Verify(signed: SignedGate, key: Key, dir: Directory, now: int) returns (accepted: Option<Gate>)
    ensures accepted == if Accepted(signed, key, dir, now) then signed.payload else None
  {
    hide SignatureAccepted, PayloadAccepted, Freshness, RecordAccepted, Timely, Scanned, IsPermutation;
    accepted := None;
    if !SignatureAccepted(signed, key) || signed.payload.None? { return; }
    var gate := signed.payload.value;
    if !PayloadAccepted(gate) || gate.verifiedAt.None? || gate.expiresAt.None? { return; }
    if gate.verifiedAt.value > now + MINUTE || gate.expiresAt.value <= now {
      ClockRejects(signed, key, dir, now);
      return;
    }
    var seen: set<string>, minimum: Option<int> := {}, None;
    ScanStarts(dir, gate, now);
    for n := 0 to |gate.checks|
      invariant Scanned(dir, gate, now, n, seen, minimum)
    {
      var check := gate.checks[n];
      if check.evidenceType !in Required() { UnrequiredRejects(gate, n); return; }
      if check.evidenceType in seen { SeenRejects(dir, gate, now, n, seen, minimum); return; }
      if !RecordAccepted(dir, gate, check) || !Timely(dir, check, now) {
        if Accepted(signed, key, dir, now) { AcceptedRecords(signed, key, dir, now, n); }
        return;
      }
      var expires := ExpiresOf(dir, gate, check);
      ScanExtends(dir, gate, now, n, seen, minimum);
      seen := seen + {check.evidenceType};
      minimum := Earlier(minimum, expires);
    }
    ScanDecides(signed, key, dir, now, seen, minimum);
    if |seen| == |Required()| && (forall x :: x in Required() ==> x in seen)
       && minimum.Some? && gate.expiresAt.value <= minimum.value {
      accepted := Some(gate);
    }
  }

  lemma ScanStarts(dir: Directory, gate: Gate, now: int)
    ensures Scanned(dir, gate, now, 0, {}, None)
  {
  }

  lemma SeenRejects(dir: Directory, gate: Gate, now: int, n: nat, seen: set<string>, minimum: Option<int>)
    requires n < |gate.checks| && Scanned(dir, gate, now, n, seen, minimum)
    requires gate.checks[n].evidenceType in seen
    ensures !IsPermutation(Types(gate.checks), Required())
  {
    RepeatRejects(gate, n);
  }

  function ExpiresOf(dir: Directory, gate: Gate, check: Check): (r: int)
    requires RecordAccepted(dir, gate, check)
    ensures FileAccepted(dir, check) && r == Expires(dir, check)
  {
    Expires(dir, check)
  }

  // ---------------------------------------------------------------------------------------
  // What acceptance means, field by field
  // ---------------------------------------------------------------------------------------

  /** `n` digits, each one of 0-9, a-f and A-F. */
  predicate HexText(s: string, n: nat) { |s| == n && forall i :: 0 <= i < n ==> s[i] in "0123456789abcdefABCDEF" }

  lemma HexIff(s: string, n: nat)
    ensures IsHex(s, n) <==> HexText(s, n)
  {
    forall c: char ensures IsHexDigit(c) <==> c in "0123456789abcdefABCDEF" { HexDigitIff(c); }
  }

  lemma HexDigitIff(c: char)
    ensures IsHexDigit(c) <==> c in "0123456789abcdefABCDEF"
  {
    var digits := "0123456789abcdefABCDEF";
    if '0' <= c <= '9' {
      assert digits[c as int - 48] == c;
    } else if 'a' <= c <= 'f' {
      assert digits[c as int - 97 + 10] == c;
    } else if 'A' <= c <= 'F' {
      assert digits[c as int - 65 + 16] == c;
    }
  }

  /** A gate signed by the trusted key, over exactly the payload at hand. */
  predicate GoodSignature(s: SignedGate, key: Key) {
    && s.schemaVersion == 1 && s.kind == "oomu.signed-release-evidence-gate" && s.algorithm == "ed25519"
    && s.publicKeyHex == key.hex && s.keyFingerprint == key.fingerprint
    && s.payloadSha256 == s.payloadDigest && s.signatureVerifies
  }

  /** A strict, passed gate for an identified build. */
  predicate GoodPayload(g: Gate) {
    && g.schemaVersion == 1 && g.kind == "oomu.release-evidence-gate" && g.status == "passed"
    && !g.synthetic && g.strictMlcMode
    && Trim(g.build.identifier) != "" && Trim(g.build.artifact) != "" && HexText(g.build.revision, 40)
    && |g.build.digest| == 71 && g.build.digest[..7] == "sha256:" && HexText(g.build.digest[7..], 64)
    && g.verifiedAt.Some? && g.expiresAt.Some?
  }

  /** An immutable file, named by its digest, that records a passed, executed, successful run for the
      gate's build, and how long it is valid: a week for a clean launch, a day for the others. */
  predicate GoodFile(f: File, c: Check, g: Gate) {
    && f.immutable && HexText(c.sha256, 64) && f.digest == c.sha256 && f.record.Some?
    && var r := f.record.value;
    && r.schemaVersion == 1 && r.kind == "oomu.executed-release-evidence" && r.evidenceType == c.evidenceType
    && r.status == "passed" && !r.synthetic && r.executed && r.exitCode == 0
    && r.build.identifier == g.build.identifier && r.build.revision == g.build.revision
    && r.build.artifact == g.build.artifact && r.build.digest == g.build.digest
    && r.producedAt.Some? && r.expiresAt.Some?
    && var valid := r.expiresAt.value - r.producedAt.value;
    0 < valid <= if c.evidenceType == "clean_machine_launch" then 604_800_000_000_000 else 86_400_000_000_000
  }

  /** Its place on the clock: produced no later than a minute from now, and outliving the gate. */
  predicate InTime(f: File, g: Gate, now: int)
    requires f.record.Some? && f.record.value.producedAt.Some? && f.record.value.expiresAt.Some? && g.expiresAt.Some?
  {
    f.record.value.producedAt.value <= now + 60_000_000_000 && g.expiresAt.value <= f.record.value.expiresAt.value
  }

  ghost predicate GoodChecks(dir: Directory, g: Gate, now: int)
    requires g.expiresAt.Some?
  {
    forall i :: 0 <= i < |g.checks| ==>
      && g.checks[i].evidenceType in dir
      && GoodFile(dir[g.checks[i].evidenceType], g.checks[i], g)
      && InTime(dir[g.checks[i].evidenceType], g, now)
  }

  /** Acceptance, told on the fields alone, with every name and every number written out. */
  lemma AcceptedIff(signed: SignedGate, key: Key, dir: Directory, now: int)
    ensures Accepted(signed, key, dir, now) <==>
      && GoodSignature(signed, key)
      && signed.payload.Some?
      && var g := signed.payload.value;
      && GoodPayload(g)
      && g.verifiedAt.value <= now + 60_000_000_000 && now < g.expiresAt.value
      && IsPermutation(Types(g.checks), [
           "apple_toolchain", "dependency_audit", "pdf_containment", "automated_tests", "release_sanitizer",
           "database_sanitizer", "entitlement_snapshot", "artifact_validation", "signing", "notarization",
           "stapling", "manifest_verification", "clean_machine_launch"])
      && GoodChecks(dir, g, now)
  {
    hide IsPermutation, GoodFile, RecordAccepted, FileAccepted, Latest, Types, PayloadAccepted, GoodPayload, InTime;
    if signed.payload.Some? {
      var g := signed.payload.value;
      PayloadIff(g);
      if IsPermutation(Types(g.checks), Required()) && g.verifiedAt.Some? && g.expiresAt.Some? {
        RecordsIff(dir, g);
        if AllRecordsAccepted(dir, g) {
          ClockIff(dir, g, now);
          ChecksIff(dir, g, now);
        }
      }
    }
  }

  lemma PayloadIff(g: Gate)
    ensures PayloadAccepted(g) && g.verifiedAt.Some? && g.expiresAt.Some? <==> GoodPayload(g)
  {
    hide Trim, IsHex, HexText;
    HexIff(g.build.revision, 40);
    if |g.build.digest| >= 7 { HexIff(g.build.digest[7..], 64); }
    assert IsSha256Digest(g.build.digest) <==>
      |g.build.digest| == 71 && g.build.digest[..7] == "sha256:" && HexText(g.build.digest[7..], 64) by
    {
      DigestIff(g.build.digest);
    }
  }

  lemma DigestIff(d: string)
    ensures IsSha256Digest(d) <==> |d| == 71 && d[..7] == "sha256:" && HexText(d[7..], 64)
  {
    if |d| >= 7 { HexIff(d[7..], 64); }
    assert |"sha256:"| == 7;
  }

  /** Each record is accepted exactly when its file is good. */
  lemma RecordsIff(dir: Directory, g: Gate)
    requires IsPermutation(Types(g.checks), Required())
    ensures AllRecordsAccepted(dir, g) <==>
      forall i :: 0 <= i < |g.checks| ==>
        g.checks[i].evidenceType in dir && GoodFile(dir[g.checks[i].evidenceType], g.checks[i], g)
  {
    hide IsPermutation, GoodFile, RecordAccepted, Required;
    forall i | 0 <= i < |g.checks|
      ensures RecordAccepted(dir, g, g.checks[i]) <==>
              g.checks[i].evidenceType in dir && GoodFile(dir[g.checks[i].evidenceType], g.checks[i], g)
    {
      assert g.checks[i].evidenceType in Required() by {
        if g.checks[i].evidenceType !in Required() { UnrequiredRejects(g, i); }
      }
      RecordIff(dir, g, g.checks[i]);
    }
  }

  lemma RecordIff(dir: Directory, g: Gate, c: Check)
    requires c.evidenceType in Required()
    ensures RecordAccepted(dir, g, c) <==> c.evidenceType in dir && GoodFile(dir[c.evidenceType], c, g)
  {
    hide Required, IsHex, HexText;
    HexIff(c.sha256, 64);
    if c.evidenceType in dir && dir[c.evidenceType].record.Some? {
      var a, b := dir[c.evidenceType].record.value.build, g.build;
      assert a == b <==>
        a.identifier == b.identifier && a.revision == b.revision && a.artifact == b.artifact && a.digest == b.digest;
    }
  }

  lemma ChecksIff(dir: Directory, g: Gate, now: int)
    requires g.expiresAt.Some? && AllRecordsAccepted(dir, g) && IsPermutation(Types(g.checks), Required())
    ensures GoodChecks(dir, g, now) <==>
      forall i :: 0 <= i < |g.checks| ==>
        && FileAccepted(dir, g.checks[i])
        && Produced(dir, g.checks[i]) <= now + 60_000_000_000
        && g.expiresAt.value <= Expires(dir, g.checks[i])
  {
    hide IsPermutation, RecordAccepted, Required, HexText, IsHex;
    RecordsIff(dir, g);
    AllFilesAccepted(dir, g);
  }

  /** The clock tests amount to the interval. */
  lemma ClockIff(dir: Directory, g: Gate, now: int)
    requires g.verifiedAt.Some? && g.expiresAt.Some? && AllRecordsAccepted(dir, g)
    ensures (OutlivedByEvidence(dir, g)
             && Latest(dir, g, |g.checks|, g.verifiedAt.value) - MINUTE <= now < g.expiresAt.value) <==>
      && g.verifiedAt.value <= now + 60_000_000_000 && now < g.expiresAt.value
      && forall i :: 0 <= i < |g.checks| ==>
           && FileAccepted(dir, g.checks[i])
           && Produced(dir, g.checks[i]) <= now + 60_000_000_000
           && g.expiresAt.value <= Expires(dir, g.checks[i])
  {
    hide RecordAccepted, Latest;
    LatestAtMost(dir, g, |g.checks|, g.verifiedAt.value, now + MINUTE);
    AllFilesAccepted(dir, g);
  }

  lemma AllFilesAccepted(dir: Directory, g: Gate)
    requires AllRecordsAccepted(dir, g)
    ensures forall i :: 0 <= i < |g.checks| ==> FileAccepted(dir, g.checks[i])
  {
    hide FileAccepted;
    forall i | 0 <= i < |g.checks| ensures FileAccepted(dir, g.checks[i]) {
      assert RecordAccepted(dir, g, g.checks[i]);
    }
  }

  /** So a gate is refused when any one of these is wrong, whatever else holds: the signature, the payload
      digest, the key, or, of any record, that it was executed, succeeded, passed, is real and is for this
      build. */
  lemma WrongIsRefused(signed: SignedGate, key: Key, dir: Directory, now: int, i: nat)
    requires Accepted(signed, key, dir, now)
    ensures signed.signatureVerifies && signed.payloadSha256 == signed.payloadDigest
    ensures signed.publicKeyHex == key.hex && signed.keyFingerprint == key.fingerprint
    ensures !Accepted(signed.(signatureVerifies := false), key, dir, now)
    ensures i < |signed.payload.value.checks| ==>
      var t := signed.payload.value.checks[i].evidenceType;
      t in dir && dir[t].record.Some? &&
      var f, r := dir[t], dir[t].record.value;
      && !Accepted(signed, key, dir[t := f.(immutable := false)], now)
      && !Accepted(signed, key, dir[t := f.(record := Some(r.(executed := false)))], now)
      && !Accepted(signed, key, dir[t := f.(record := Some(r.(synthetic := true)))], now)
      && (forall code :: code != 0 ==> !Accepted(signed, key, dir[t := f.(record := Some(r.(exitCode := code)))], now))
      && (forall b :: b != r.build ==> !Accepted(signed, key, dir[t := f.(record := Some(r.(build := b)))], now))
  {
    hide Accepted, IsPermutation, GoodPayload, Types;
    AcceptedIff(signed, key, dir, now);
    AcceptedIff(signed.(signatureVerifies := false), key, dir, now);
    var g := signed.payload.value;
    if i < |g.checks| {
      var t := g.checks[i].evidenceType;
      var f, r := dir[t], dir[t].record.value;
      SpoiltIsRefused(signed, key, dir, now, i, f.(immutable := false));
      SpoiltIsRefused(signed, key, dir, now, i, f.(record := Some(r.(executed := false))));
      SpoiltIsRefused(signed, key, dir, now, i, f.(record := Some(r.(synthetic := true))));
      forall code | code != 0 ensures !Accepted(signed, key, dir[t := f.(record := Some(r.(exitCode := code)))], now) {
        SpoiltIsRefused(signed, key, dir, now, i, f.(record := Some(r.(exitCode := code))));
      }
      forall b | b != r.build ensures !Accepted(signed, key, dir[t := f.(record := Some(r.(build := b)))], now) {
        SpoiltIsRefused(signed, key, dir, now, i, f.(record := Some(r.(build := b))));
      }
    }
  }

  /** A file that is not good refuses the gate. */
  lemma SpoiltIsRefused(signed: SignedGate, key: Key, dir: Directory, now: int, i: nat, f: File)
    requires signed.payload.Some? && i < |signed.payload.value.checks|
    requires var g := signed.payload.value; !GoodFile(f, g.checks[i], g)
    ensures !Accepted(signed, key, dir[signed.payload.value.checks[i].evidenceType := f], now)
  {
    hide Accepted, IsPermutation, GoodPayload, GoodFile, Types;
    AcceptedIff(signed, key, dir[signed.payload.value.checks[i].evidenceType := f], now);
  }

  // ---------------------------------------------------------------------------------------
  // What acceptance means
  // ---------------------------------------------------------------------------------------

  /** Acceptance at `now` makes the checks a permutation of the required ones, each with evidence for
      the gate's own build that is younger than its freshness window and not from beyond a minute
      ahead. */
  lemma AcceptedIsCompleteAndFresh(signed: SignedGate, key: Key, dir: Directory, now: int)
    requires Accepted(signed, key, dir, now)
    ensures var gate := signed.payload.value;
      && IsPermutation(Types(gate.checks), Required())
      && forall i :: 0 <= i < |gate.checks| ==>
           && RecordAccepted(dir, gate, gate.checks[i])
           && -MINUTE <= now - Produced(dir, gate.checks[i]) < Freshness(gate.checks[i].evidenceType).value
  {
    hide SignatureAccepted, PayloadAccepted, IsPermutation, Required, Freshness, Opens;
    var gate := signed.payload.value;
    forall i | 0 <= i < |gate.checks|
      ensures RecordAccepted(dir, gate, gate.checks[i])
      ensures -MINUTE <= now - Produced(dir, gate.checks[i]) < Freshness(gate.checks[i].evidenceType).value
    {
      AcceptedRecords(signed, key, dir, now, i);
    }
  }

  lemma DailyEvidence()
    ensures Freshness(Required()[0]) == Some(DAY)
  {
    assert |Required()[0]| != |"clean_machine_launch"|;
  }

  lemma PositionOf(gate: Gate, evidenceType: string) returns (i: nat)
    requires IsPermutation(Types(gate.checks), Required()) && evidenceType in Required()
    ensures i < |gate.checks| && gate.checks[i].evidenceType == evidenceType
  {
    hide Required, IsPermutation;
    var types := Types(gate.checks);
    RequiredDistinct();
    DistinctPermutation(types, Required());
    assert evidenceType in types;
    i :| 0 <= i < |types| && types[i] == evidenceType;
  }

  /** No gate stays acceptable for a whole day and a minute, whatever it and its evidence say. */
  lemma AcceptanceIsShort(signed: SignedGate, key: Key, dir: Directory, t: int, u: int)
    requires Accepted(signed, key, dir, t) && Accepted(signed, key, dir, u)
    ensures u - t < DAY + MINUTE
  {
    hide SignatureAccepted, PayloadAccepted, RecordAccepted, IsPermutation, Required, Freshness;
    var gate := signed.payload.value;
    DailyEvidence();
    var i := PositionOf(gate, Required()[0]);
    AcceptedIsCompleteAndFresh(signed, key, dir, t);
    AcceptedIsCompleteAndFresh(signed, key, dir, u);
  }

  /** An acceptable gate exists: thirteen records produced when the gate was verified, each valid for a
      day, make it acceptable at that moment. */
  lemma SomethingIsAccepted(key: Key, hex: string, revision: string)
    returns (signed: SignedGate, dir: Directory)
    requires IsHex(hex, 64) && IsHex(revision, 40)
    ensures Accepted(signed, key, dir, 0)
  {
    hide Required, IsPermutation, Distinct, PayloadAccepted, IsHex, Freshness;
    var build := Build("b", revision, "a", "sha256:" + hex);
    dir := map x | x in Required() :: File(true, hex, Some(EvidenceOf(x, build)));
    var checks := seq(13, i requires 0 <= i < 13 => Check(Required()[i], hex));
    var gate := Gate(1, "oomu.release-evidence-gate", "passed", false, true, build, Some(0), Some(DAY), checks);
    signed := SignedGate(1, "oomu.signed-release-evidence-gate", "ed25519", key.hex, key.fingerprint,
                         hex, hex, true, Some(gate));
    assert IsPermutation(Types(checks), Required()) by { SameList(Types(checks), Required()); }
    PayloadIsFine(gate, hex);
    forall i | 0 <= i < 13
      ensures RecordAccepted(dir, gate, checks[i]) && Produced(dir, checks[i]) == 0 && Expires(dir, checks[i]) == DAY
    {
      DayIsFresh(Required()[i]);
    }
    LatestAtMost(dir, gate, 13, 0, MINUTE);
  }

  function EvidenceOf(evidenceType: string, build: Build): Evidence {
    Evidence(1, "oomu.executed-release-evidence", evidenceType, "passed", false, build, Some(0), Some(DAY), true, 0)
  }

  lemma SameList(a: seq<string>, b: seq<string>)
    requires a == b
    ensures IsPermutation(a, b)
  {
  }

  lemma DayIsFresh(evidenceType: string)
    requires evidenceType in Required()
    ensures Freshness(evidenceType).Some? && Freshness(evidenceType).value >= DAY
  {
  }

  lemma PayloadIsFine(gate: Gate, hex: string)
    requires gate.schemaVersion == 1 && gate.kind == "oomu.release-evidence-gate" && gate.status == "passed"
    requires !gate.synthetic && gate.strictMlcMode && gate.build.identifier == "b" && gate.build.artifact == "a"
    requires IsHex(hex, 64) && gate.build.digest == "sha256:" + hex && IsHex(gate.build.revision, 40)
    ensures PayloadAccepted(gate)
  {
    TrimFixed("b");
    TrimFixed("a");
    assert gate.build.digest[7..] == hex;
  }

  /** `has_check` of `launch_readiness_sync`. */
  predicate HasCheck(gate: Option<Gate>, evidenceType: string) {
    gate.Some? && exists i :: 0 <= i < |gate.value.checks| && gate.value.checks[i].evidenceType == evidenceType
  }

  /** The readiness flags read from the gate rise and fall together. */
  lemma ReadinessFlagsAgree(signed: SignedGate, key: Key, dir: Directory, now: int)
    ensures var gate := if Accepted(signed, key, dir, now) then signed.payload else None;
      && (forall x :: x in Required() ==> (HasCheck(gate, x) <==> gate.Some?))
      && (gate.Some? ==> gate.value.strictMlcMode)
  {
    hide SignatureAccepted, RecordAccepted, IsPermutation, Required;
    if Accepted(signed, key, dir, now) {
      forall x | x in Required() ensures HasCheck(signed.payload, x) {
        var i := PositionOf(signed.payload.value, x);
      }
    }
  }
}
