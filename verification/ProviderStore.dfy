/** Provider rows in the database and their secrets in the keychain, kept together by compensation
    (`upsert_provider_config` and `remove_provider_config`, src-tauri/src/agent_manager.rs,
    lines 1827-1958 and 1975-1993). */
module ProviderStore {
  import opened Basics
  import opened TokenText

  type Id = string

  /** A keychain value. `origin` and `provider` record under which canonical origin and provider id
      it was submitted; the keychain itself does not store them. */
  datatype Secret = Secret(value: string, origin: string, provider: string)

  datatype Row = Row(
    providerId: string, baseUrl: string, authMethod: string, configured: bool, autoRoute: bool, createdAt: int)

  datatype Config = Config(
    id: Id, providerId: string, baseUrl: string, authMethod: string, apiKey: Option<string>, autoRoute: bool)

  datatype Stores = Stores(rows: map<Id, Row>, secrets: map<Id, Secret>)

  /** Which of the fallible calls of an operation fail. */
  datatype Faults = Faults(read: bool, mutate: bool, database: bool, restore: bool)

  datatype Refusal = AuthMethod | LocalAutoRoute | OriginPolicy | CredentialStore | Database

  /** `canonical_provider_secret_origin`, which rests on a URL parser: None where it refuses. */
  type Origins = (string, string) -> Option<string>

  // ---------------------------------------------------------------------------------------
  // Names
  // ---------------------------------------------------------------------------------------

  function Normal(s: string): string {
    var t := Trim(s);
    seq(|t|, i requires 0 <= i < |t| => if t[i] == '-' then '_' else AsciiLowerChar(t[i]))
  }

  /** `is_local_provider_id`. */
  predicate IsLocal(providerId: string) { Normal(providerId) in {"local", "local_model", "local_gemma"} }

  /** Provider ids are compared trimmed and without ASCII case. */
  predicate SameProvider(a: string, b: string) { AsciiLower(Trim(a)) == AsciiLower(Trim(b)) }

  predicate IsMask(c: char) { c == '*' || c == '\U{2022}' || c == '\U{00B7}' || c == '\U{25CF}' }

  /** `clean_provider_api_key_input`: blank, "masked" and all-mask input count as no key. */
  function CleanKey(key: Option<string>): Option<string> {
    match key
    case None => None
    case Some(k) =>
      var t := Trim(k);
      if t == "" || AsciiLower(t) == "masked" || AsciiLower(t) == "[masked]"
         || (forall i :: 0 <= i < |t| ==> IsMask(t[i]))
      then None else Some(t)
  }

  // ---------------------------------------------------------------------------------------
  // The operations
  // ---------------------------------------------------------------------------------------

  function Precheck(c: Config, origins: Origins): Option<Refusal> {
    if c.authMethod != (if IsLocal(c.providerId) then "custom" else "api_key") then Some(AuthMethod)
    else if c.autoRoute && IsLocal(c.providerId) then Some(LocalAutoRoute)
    else if origins(c.providerId, c.baseUrl).None? then Some(OriginPolicy)
    else None
  }

  /** The stored secret's scope is the one now requested. */
  predicate ScopeMatches(s: Stores, c: Config, origins: Origins) {
    c.id in s.rows && origins(c.providerId, c.baseUrl).Some? &&
    origins(s.rows[c.id].providerId, s.rows[c.id].baseUrl) == origins(c.providerId, c.baseUrl) &&
    SameProvider(s.rows[c.id].providerId, c.providerId)
  }

  predicate ClearsSecret(s: Stores, c: Config, origins: Origins) {
    c.id in s.rows && !ScopeMatches(s, c, origins) && CleanKey(c.apiKey).None?
  }

  predicate TouchesSecret(s: Stores, c: Config, origins: Origins) {
    CleanKey(c.apiKey).Some? || ClearsSecret(s, c, origins)
  }

  /** The keychain after the mutation that precedes the database write. */
  function SecretsAfter(s: Stores, c: Config, origins: Origins): map<Id, Secret>
    requires Precheck(c, origins).None?
  {
    if CleanKey(c.apiKey).Some? then
      s.secrets[c.id := Secret(CleanKey(c.apiKey).value, origins(c.providerId, c.baseUrl).value, c.providerId)]
    else if ClearsSecret(s, c, origins) then s.secrets - {c.id}
    else s.secrets
  }

  function NewRow(s: Stores, c: Config, now: int, origins: Origins): Row {
    var configured := CleanKey(c.apiKey).Some? || (ScopeMatches(s, c, origins) && s.rows[c.id].configured);
    var createdAt := if c.id in s.rows then s.rows[c.id].createdAt else now;
    Row(c.providerId, c.baseUrl, c.authMethod, configured, c.autoRoute, createdAt)
  }

  /** The database transaction: a new auto-route target displaces any other. */
  function RowsAfter(s: Stores, c: Config, now: int, origins: Origins): map<Id, Row> {
    var base := if c.autoRoute then (map id | id in s.rows :: s.rows[id].(autoRoute := false)) else s.rows;
    base[c.id := NewRow(s, c, now, origins)]
  }

  /** `upsert_provider_config` as a value. */
  function Upserted(s: Stores, c: Config, now: int, origins: Origins, f: Faults): (Stores, Result<Row, Refusal>) {
    var refusal := Precheck(c, origins);
    if refusal.Some? then (s, Err(refusal.value))
    else if TouchesSecret(s, c, origins) && (f.read || f.mutate) then (s, Err(CredentialStore))
    else
      var secrets := SecretsAfter(s, c, origins);
      if !f.database then
        (Stores(RowsAfter(s, c, now, origins), secrets), Ok(NewRow(s, c, now, origins)))
      else if TouchesSecret(s, c, origins) && f.restore then (s.(secrets := secrets), Err(CredentialStore))
      else (s, Err(Database))
  }

  /** `remove_provider_config` as a value. */
  function Removed(s: Stores, id: Id, f: Faults): (Stores, Result<bool, Refusal>) {
    if f.read || f.mutate then (s, Err(CredentialStore))
    else if !f.database then (Stores(s.rows - {id}, s.secrets - {id}), Ok(id in s.rows))
    else if id in s.secrets && f.restore then (s.(secrets := s.secrets - {id}), Err(CredentialStore))
    else (s, Err(Database))
  }

  // ---------------------------------------------------------------------------------------
  // What every operation keeps
  // ---------------------------------------------------------------------------------------

  /** A configured row has a secret, and it was submitted under that row's own canonical origin and
      provider. */
  predicate RowOk(s: Stores, id: Id, origins: Origins)
    requires id in s.rows
  {
    var row := s.rows[id];
    row.configured ==>
      && id in s.secrets
      && origins(row.providerId, row.baseUrl) == Some(s.secrets[id].origin)
      && SameProvider(s.secrets[id].provider, row.providerId)
  }

  predicate SecretsBound(s: Stores, origins: Origins) {
    forall id :: id in s.rows ==> RowOk(s, id, origins)
  }

  /** At most one row is the auto-route target, and it is not a local provider. */
  predicate AutoRouteOk(rows: map<Id, Row>) {
    && (forall a, b :: a in rows && b in rows && rows[a].autoRoute && rows[b].autoRoute ==> a == b)
    && (forall a :: a in rows && rows[a].autoRoute ==> !IsLocal(rows[a].providerId))
  }

  predicate Valid(s: Stores, origins: Origins) { SecretsBound(s, origins) && AutoRouteOk(s.rows) }

  lemma UpsertedRows(s: Stores, c: Config, now: int, origins: Origins)
    requires Valid(s, origins) && Precheck(c, origins).None?
    ensures Valid(Stores(RowsAfter(s, c, now, origins), SecretsAfter(s, c, origins)), origins)
  {
    hide SameProvider, IsLocal, CleanKey;
    var t := Stores(RowsAfter(s, c, now, origins), SecretsAfter(s, c, origins));
    forall id | id in t.rows ensures RowOk(t, id, origins) {
      if id != c.id {
        assert RowOk(s, id, origins);
      } else {
        UpsertedRow(s, c, now, origins);
      }
    }
  }

  lemma UpsertedRow(s: Stores, c: Config, now: int, origins: Origins)
    requires Valid(s, origins) && Precheck(c, origins).None?
    ensures var t := Stores(RowsAfter(s, c, now, origins), SecretsAfter(s, c, origins));
      c.id in t.rows && RowOk(t, c.id, origins)
  {
    hide IsLocal, CleanKey;
    if CleanKey(c.apiKey).None? && ScopeMatches(s, c, origins) {
      assert RowOk(s, c.id, origins);
    }
  }

  /** Both the database write and the restoring keychain write fail after the keychain was changed. */
  predicate DoubleFault(f: Faults) { !f.read && !f.mutate && f.database && f.restore }

  /** A refused upsert that costs a configured row its secret: it asks for another origin or provider. */
  predicate UpsertUnbinds(s: Stores, c: Config, origins: Origins, f: Faults) {
    && Precheck(c, origins).None? && DoubleFault(f)
    && c.id in s.rows && s.rows[c.id].configured && !ScopeMatches(s, c, origins)
  }

  /** A refused removal that costs a configured row its secret. */
  predicate RemoveUnbinds(s: Stores, id: Id, f: Faults) {
    DoubleFault(f) && id in s.rows && s.rows[id].configured
  }

  /** An upsert leaves valid stores valid exactly when it is not of that kind: with a double fault, a
      row keeps a rightly bound secret only if it had none to lose or the scope stays the same. */
  lemma UpsertKeepsValidIff(s: Stores, c: Config, now: int, origins: Origins, f: Faults)
    requires Valid(s, origins)
    ensures Valid(Upserted(s, c, now, origins, f).0, origins) <==> !UpsertUnbinds(s, c, origins, f)
  {
    hide SameProvider, IsLocal, CleanKey, RowsAfter;
    var t := Upserted(s, c, now, origins, f).0;
    if Precheck(c, origins).None? {
      UpsertedRows(s, c, now, origins);
      if DoubleFault(f) && TouchesSecret(s, c, origins) { RefusedUpsert(s, c, origins); }
    }
  }

  /** The stores after an upsert whose row was not written and whose secret was not put back. */
  lemma RefusedUpsert(s: Stores, c: Config, origins: Origins)
    requires Valid(s, origins) && Precheck(c, origins).None? && TouchesSecret(s, c, origins)
    ensures var t := s.(secrets := SecretsAfter(s, c, origins));
      Valid(t, origins) <==> !(c.id in s.rows && s.rows[c.id].configured && !ScopeMatches(s, c, origins))
  {
    hide IsLocal, CleanKey;
    var t := s.(secrets := SecretsAfter(s, c, origins));
    forall id | id in t.rows && id != c.id ensures RowOk(t, id, origins) { assert RowOk(s, id, origins); }
    if c.id in s.rows { assert RowOk(s, c.id, origins); }
  }

  lemma RemoveKeepsValidIff(s: Stores, id: Id, origins: Origins, f: Faults)
    requires Valid(s, origins)
    ensures Valid(Removed(s, id, f).0, origins) <==> !RemoveUnbinds(s, id, f)
  {
    hide SameProvider, IsLocal;
    var t := Removed(s, id, f).0;
    forall x | x in t.rows && x != id ensures RowOk(t, x, origins) { assert RowOk(s, x, origins); }
    if id in s.rows { assert RowOk(s, id, origins); }
    if id in t.rows && !RemoveUnbinds(s, id, f) { assert RowOk(t, id, origins); }
  }

  // ---------------------------------------------------------------------------------------
  // What an upsert does, field by field
  // ---------------------------------------------------------------------------------------

  /** Input that stands for "leave the key as it is": blank, the word a masked field shows, or nothing
      but mask characters. */
  predicate Masked(key: string) {
    var t := Trim(key);
    || t == "" || AsciiLower(t) == "masked" || AsciiLower(t) == "[masked]"
    || forall i :: 0 <= i < |t| ==> t[i] in {'*', '\U{2022}', '\U{00B7}', '\U{25CF}'}
  }

  lemma CleanKeyIs(key: Option<string>)
    ensures CleanKey(key) == if key.None? || Masked(key.value) then None else Some(Trim(key.value))
  {
    hide Trim;
  }

  /** The names of a local provider, whatever the case, with '-' for '_' and whitespace around. */
  lemma LocalIff(providerId: string)
    ensures IsLocal(providerId) <==>
      exists name ::
        (name == "local" || name == "local_model" || name == "local_gemma") && Spells(Trim(providerId), name)
  {
    var t := Trim(providerId);
    if IsLocal(providerId) { assert Spells(t, Normal(providerId)); }
    if name: string :| (name == "local" || name == "local_model" || name == "local_gemma") && Spells(t, name) {
      assert Normal(providerId) == name;
    }
  }

  predicate Spells(text: string, name: string) {
    |text| == |name| && forall i :: 0 <= i < |name| ==>
      name[i] == if text[i] == '-' then '_' else AsciiLowerChar(text[i])
  }

  /** What is refused: a local provider with anything but a custom connection or as the auto-route target,
      a remote one with anything but an API key, and a URL without an acceptable origin. */
  lemma RefusedIff(c: Config, origins: Origins)
    ensures Precheck(c, origins).None? <==>
      && (IsLocal(c.providerId) ==> c.authMethod == "custom" && !c.autoRoute)
      && (!IsLocal(c.providerId) ==> c.authMethod == "api_key")
      && origins(c.providerId, c.baseUrl).Some?
  {
    hide IsLocal;
  }

  /** Why, the first reason that applies. */
  lemma RefusedWhy(c: Config, origins: Origins)
    requires Precheck(c, origins).Some?
    ensures Precheck(c, origins).value ==
      if c.authMethod != (if IsLocal(c.providerId) then "custom" else "api_key") then AuthMethod
      else if c.autoRoute && IsLocal(c.providerId) then LocalAutoRoute
      else OriginPolicy
  {
    hide IsLocal;
  }

  /** The same provider at the same canonical origin. */
  predicate SameScope(s: Stores, c: Config, origins: Origins)
    requires c.id in s.rows
  {
    var row := s.rows[c.id];
    && origins(row.providerId, row.baseUrl).Some?
    && origins(row.providerId, row.baseUrl) == origins(c.providerId, c.baseUrl)
    && AsciiLower(Trim(row.providerId)) == AsciiLower(Trim(c.providerId))
  }

  /** The row that a successful upsert leaves, and what becomes of the others. */
  lemma UpsertWrites(s: Stores, c: Config, now: int, origins: Origins, f: Faults)
    requires Upserted(s, c, now, origins, f).1.Ok?
    ensures var t := Upserted(s, c, now, origins, f).0;
      && t.rows.Keys == s.rows.Keys + {c.id}
      && Upserted(s, c, now, origins, f).1.value == t.rows[c.id]
      && t.rows[c.id].providerId == c.providerId && t.rows[c.id].baseUrl == c.baseUrl
      && t.rows[c.id].authMethod == c.authMethod && t.rows[c.id].autoRoute == c.autoRoute
      && t.rows[c.id].createdAt == (if c.id in s.rows then s.rows[c.id].createdAt else now)
      && (t.rows[c.id].configured <==>
            || (c.apiKey.Some? && !Masked(c.apiKey.value))
            || (c.id in s.rows && s.rows[c.id].configured && SameScope(s, c, origins)))
      && forall id :: id in s.rows && id != c.id ==>
           t.rows[id] == s.rows[id].(autoRoute := s.rows[id].autoRoute && !c.autoRoute)
  {
    hide IsLocal, Masked, Trim, CleanKey;
    CleanKeyIs(c.apiKey);
  }

  /** What the keychain itself holds. */
  function Values(secrets: map<Id, Secret>): map<Id, string> { map id | id in secrets :: secrets[id].value }

  /** The secret it leaves: a submitted key replaces it, a change of scope without one clears it, and
      otherwise, masked input included, the keychain is as it was. */
  lemma UpsertKeeps(s: Stores, c: Config, now: int, origins: Origins, f: Faults)
    requires Upserted(s, c, now, origins, f).1.Ok?
    ensures var t := Upserted(s, c, now, origins, f).0;
      if c.apiKey.Some? && !Masked(c.apiKey.value) then
        Values(t.secrets) == Values(s.secrets)[c.id := Trim(c.apiKey.value)]
      else if c.id in s.rows && !SameScope(s, c, origins) then
        t.secrets == s.secrets - {c.id}
      else
        t.secrets == s.secrets
  {
    hide IsLocal, Masked, Trim, CleanKey;
    CleanKeyIs(c.apiKey);
  }

  datatype Op = Upsert(config: Config, now: int, faults: Faults) | Remove(id: Id, faults: Faults)

  function Apply(s: Stores, op: Op, origins: Origins): Stores {
    match op
    case Upsert(c, now, f) => Upserted(s, c, now, origins, f).0
    case Remove(id, f) => Removed(s, id, f).0
  }

  predicate Unbinds(s: Stores, op: Op, origins: Origins) {
    match op
    case Upsert(c, _, f) => UpsertUnbinds(s, c, origins, f)
    case Remove(id, f) => RemoveUnbinds(s, id, f)
  }

  function Run(ops: seq<Op>, origins: Origins, k: nat): Stores
    requires k <= |ops|
  {
    if k == 0 then Stores(map[], map[]) else Apply(Run(ops, origins, k - 1), ops[k - 1], origins)
  }

  /** From the empty stores the first `k` operations keep everything valid if none of them unbinds. */
  lemma {:induction false} RunStaysValid(ops: seq<Op>, origins: Origins, k: nat)
    requires k <= |ops| && forall i :: 0 <= i < k ==> !Unbinds(Run(ops, origins, i), ops[i], origins)
    ensures Valid(Run(ops, origins, k), origins)
  {
    hide Valid, Apply, Unbinds;
    if k == 0 {
      NothingStored(origins);
    } else {
      RunStaysValid(ops, origins, k - 1);
      ApplyKeepsValidIff(Run(ops, origins, k - 1), ops[k - 1], origins);
    }
  }

  lemma ApplyKeepsValidIff(s: Stores, op: Op, origins: Origins)
    requires Valid(s, origins)
    ensures Valid(Apply(s, op, origins), origins) <==> !Unbinds(s, op, origins)
  {
    hide Valid, Upserted, Removed, UpsertUnbinds, RemoveUnbinds;
    match op {
      case Upsert(c, now, f) => UpsertKeepsValidIff(s, c, now, origins, f);
      case Remove(id, f) => RemoveKeepsValidIff(s, id, origins, f);
    }
  }

  /** Over every sequence of operations and faults: all states on the way are valid, so that every
      configured row has a secret submitted under its own origin and provider, and at most one row,
      never a local one, is the auto-route target, if and only if no operation unbinds a secret. */
  lemma AlwaysValidIff(ops: seq<Op>, origins: Origins)
    ensures AlwaysValid(ops, origins) <==> NeverUnbinds(ops, origins)
  {
    hide Valid, Apply, Unbinds;
    if NeverUnbinds(ops, origins) {
      forall k | 0 <= k <= |ops| ensures Valid(Run(ops, origins, k), origins) { RunStaysValid(ops, origins, k); }
      assert AlwaysValid(ops, origins);
    }
    if AlwaysValid(ops, origins) {
      forall i | 0 <= i < |ops| ensures !Unbinds(Run(ops, origins, i), ops[i], origins) {
        assert Valid(Run(ops, origins, i + 1), origins);
        ApplyKeepsValidIff(Run(ops, origins, i), ops[i], origins);
      }
    }
  }

  ghost predicate AlwaysValid(ops: seq<Op>, origins: Origins) {
    forall k :: 0 <= k <= |ops| ==> Valid(Run(ops, origins, k), origins)
  }

  ghost predicate NeverUnbinds(ops: seq<Op>, origins: Origins) {
    forall i :: 0 <= i < |ops| ==> !Unbinds(Run(ops, origins, i), ops[i], origins)
  }

  lemma NothingStored(origins: Origins)
    ensures Valid(Stores(map[], map[]), origins)
  {
  }

  /** The upsert would store a key that is not there yet, or clear one that is. */
  predicate ChangesKey(s: Stores, c: Config, origins: Origins) {
    if CleanKey(c.apiKey).Some? then c.id !in s.secrets || s.secrets[c.id].value != CleanKey(c.apiKey).value
    else ClearsSecret(s, c, origins) && c.id in s.secrets
  }

  lemma KeyChanges(s: Stores, c: Config, origins: Origins)
    requires Precheck(c, origins).None?
    ensures Values(SecretsAfter(s, c, origins)) != Values(s.secrets) <==> ChangesKey(s, c, origins)
    ensures !TouchesSecret(s, c, origins) ==> !ChangesKey(s, c, origins)
  {
    hide SameProvider, IsLocal, CleanKey;
    var before, after := Values(s.secrets), Values(SecretsAfter(s, c, origins));
    assert forall id :: id != c.id ==> (id in after <==> id in before) && (id in before ==> after[id] == before[id]);
    if ChangesKey(s, c, origins) {
      assert (c.id in after) != (c.id in before) || after[c.id] != before[c.id];
    } else {
      assert after == before;
    }
  }

  /** Atomicity, exactly: a failed upsert leaves every row and every keychain value as found, except
      for its own key when it would change that key and both writes fail. */
  lemma FailedUpsertRestores(s: Stores, c: Config, now: int, origins: Origins, f: Faults)
    requires Upserted(s, c, now, origins, f).1.Err?
    ensures var t := Upserted(s, c, now, origins, f).0;
      && t.rows == s.rows
      && (forall id :: id != c.id ==> (id in t.secrets <==> id in s.secrets)
                                      && (id in s.secrets ==> t.secrets[id] == s.secrets[id]))
      && (Values(t.secrets) != Values(s.secrets) <==>
            Precheck(c, origins).None? && DoubleFault(f) && ChangesKey(s, c, origins))
  {
    hide SameProvider, IsLocal, CleanKey, RowsAfter, Values, ChangesKey;
    if Precheck(c, origins).None? { KeyChanges(s, c, origins); }
  }

  lemma FailedRemoveRestores(s: Stores, id: Id, f: Faults)
    requires Removed(s, id, f).1.Err?
    ensures Removed(s, id, f).0.rows == s.rows
    ensures Values(Removed(s, id, f).0.secrets) != Values(s.secrets) <==> DoubleFault(f) && id in s.secrets
  {
    if DoubleFault(f) && id in s.secrets {
      assert id in Values(s.secrets) && id !in Values(Removed(s, id, f).0.secrets);
    }
  }

  const NO_FAULTS := Faults(false, false, false, false)
  const BOTH_FAIL := Faults(false, false, true, true)

  /** Without working compensation the binding really is lost: from empty stores, a provider is
      configured, and re-keying it to another origin fails in both writes. The row then has a secret
      that belongs elsewhere. */
  lemma LostCompensationUnbinds(origins: Origins)
    requires origins("custom", "https://a") == Some("https://a") && origins("custom", "https://b") == Some("https://b")
    ensures var a := Config("x", "custom", "https://a", "api_key", Some("k1"), false);
      var b := Config("x", "custom", "https://b", "api_key", Some("k2"), false);
      var ops := [Upsert(a, 0, NO_FAULTS), Upsert(b, 0, BOTH_FAIL)];
      && Valid(Run(ops, origins, 1), origins)
      && "x" in Run(ops, origins, 2).rows && Run(ops, origins, 2).rows["x"].baseUrl == "https://a"
      && Values(Run(ops, origins, 2).secrets) == map["x" := "k2"]
      && !Valid(Run(ops, origins, 2), origins)
  {
    hide SameProvider, Normal, Valid, CleanKey;
    var a := Config("x", "custom", "https://a", "api_key", Some("k1"), false);
    var b := Config("x", "custom", "https://b", "api_key", Some("k2"), false);
    var ops := [Upsert(a, 0, NO_FAULTS), Upsert(b, 0, BOTH_FAIL)];
    CustomIsRemote();
    ShortKeyIsClean("k1");
    ShortKeyIsClean("k2");
    NothingStored(origins);
    var s := Run(ops, origins, 1);
    assert Run(ops, origins, 0) == Stores(map[], map[]);
    assert s.rows == map["x" := Row("custom", "https://a", "api_key", true, false, 0)];
    assert s.secrets == map["x" := Secret("k1", "https://a", "custom")];
    ApplyKeepsValidIff(Run(ops, origins, 0), ops[0], origins);
    ApplyKeepsValidIff(s, ops[1], origins);
    assert Run(ops, origins, 2).secrets == map["x" := Secret("k2", "https://b", "custom")];
  }

  lemma CustomIsRemote()
    ensures !IsLocal("custom")
  {
    TrimFixed("custom");
    assert |Normal("custom")| == 6 && Normal("custom")[0] == 'c';
  }

  lemma ShortKeyIsClean(key: string)
    requires |key| == 2 && key[0] == 'k' && !IsWhitespace(key[1])
    ensures CleanKey(Some(key)) == Some(key)
  {
    TrimFixed(key);
    assert |AsciiLower(key)| == 2;
    assert !IsMask(key[0]);
  }

  // ---------------------------------------------------------------------------------------
  // The stores as an object
  // ---------------------------------------------------------------------------------------

  class Manager {
    var rows: map<Id, Row>
    var secrets: map<Id, Secret>

    function State(): Stores
      reads this
    {
      Stores(rows, secrets)
    }

    constructor (ghost origins: Origins)
      ensures State() == Stores(map[], map[]) && Valid(State(), origins)
    {
      rows, secrets := map[], map[];
    }

    /** `upsert_provider_config`: the keychain is changed first, then the row, and a failed row write
        puts the keychain back. */
    method Upsert(c: Config, now: int, origins: Origins, f: Faults) returns (r: Result<Row, Refusal>)
      requires Valid(State(), origins)
      modifies this
      ensures (State(), r) == Upserted(old(State()), c, now, origins, f)
      ensures Valid(State(), origins) <==> !UpsertUnbinds(old(State()), c, origins, f)
      ensures r.Err? && !DoubleFault(f) ==> State() == old(State())
    {
      hide SameProvider, IsLocal, CleanKey, Valid;
      UpsertKeepsValidIff(State(), c, now, origins, f);
      var refusal := Precheck(c, origins);
      if refusal.Some? { return Err(refusal.value); }
      var before := State();
      var submitted := CleanKey(c.apiKey);
      var clears := ClearsSecret(before, c, origins);
      var touches := submitted.Some? || clears;
      if touches && (f.read || f.mutate) { return Err(CredentialStore); }
      var previous := if c.id in secrets then Some(secrets[c.id]) else None;
      if clears { secrets := secrets - {c.id}; }
      if submitted.Some? {
        secrets := secrets[c.id := Secret(submitted.value, origins(c.providerId, c.baseUrl).value, c.providerId)];
      }
      assert secrets == SecretsAfter(before, c, origins);
      if f.database {
        if touches {
          if f.restore { return Err(CredentialStore); }
          secrets := if previous.Some? then secrets[c.id := previous.value] else secrets - {c.id};
        }
        assert secrets == before.secrets;
        return Err(Database);
      }
      rows := RowsAfter(before, c, now, origins);
      r := Ok(NewRow(before, c, now, origins));
    }

    /** `remove_provider_config`. */
    method Remove(id: Id, origins: Origins, f: Faults) returns (r: Result<bool, Refusal>)
      requires Valid(State(), origins)
      modifies this
      ensures (State(), r) == Removed(old(State()), id, f)
      ensures Valid(State(), origins) <==> !RemoveUnbinds(old(State()), id, f)
    {
      hide SameProvider, IsLocal, CleanKey, Valid;
      RemoveKeepsValidIff(State(), id, origins, f);
      if f.read || f.mutate { return Err(CredentialStore); }
      var previous := if id in secrets then Some(secrets[id]) else None;
      ghost var before := secrets;
      secrets := secrets - {id};
      if f.database {
        if previous.Some? {
          if f.restore { return Err(CredentialStore); }
          secrets := secrets[id := previous.value];
        }
        assert secrets == before;
        return Err(Database);
      }
      r := Ok(id in rows);
      rows := rows - {id};
    }
  }
}
