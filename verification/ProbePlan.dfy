/** Probe plans, their digests and their approval (scripts/bybit-probe/probe-plan.ts, approval.ts). */
module ProbePlans {
  import opened Common
  import opened Decimals
  import opened DecimalText
  import opened Canonical

  datatype ProbePlan = ProbePlan(
    schemaVersion: int,
    environment: string,
    accountId: string,
    scenario: string,
    expiresAt: int,
    httpMethod: string,
    endpoint: string,
    params: Json)

  datatype PlanError =
    | InvalidField
    | UnsupportedField
    | Uncanonical
    | ApprovalExpired
    | AccountMismatch
    | DigestMismatch

  // ------------------------------------------------------------ parameters

  const ALLOWED_FIELDS: seq<string> := [
    "category", "symbol", "side", "orderLinkId", "orderId", "price", "qty", "takeProfit", "stopLoss", "orderType",
    "timeInForce", "reduceOnly", "positionIdx", "tpslMode", "tpOrderType", "slOrderType", "tpTriggerBy", "slTriggerBy",
    "closeOnTrigger"]

  predicate IsDecimalField(field: string) {
    field in {"price", "qty", "takeProfit", "stopLoss"}
  }

  predicate SafeText(value: Json) {
    value.Text? && value.t != "" && forall i :: 0 <= i < |value.t| ==> value.t[i] >= ' ' && value.t[i] != '\U{007F}'
  }

  /** One parameter as the plan keeps it: decimals in normal form, everything else as it is. */
  function NormalizedValue(field: string, value: Json): Result<Json, PlanError> {
    if !IsDecimalField(field) then Ok(value)
    else if !value.Text? || ParseDecimal(value.t).Err? then Err(InvalidField)
    else Ok(Text(ToDecimalString(ParseDecimal(value.t).value)))
  }

  function CopyFields(source: seq<(string, Json)>, fields: seq<string>): Result<seq<(string, Json)>, PlanError> {
    if fields == [] then Ok([])
    else
      var first :- if Lookup(source, fields[0]) == Undefined then Ok([])
                   else var value :- NormalizedValue(fields[0], Lookup(source, fields[0])); Ok([(fields[0], value)]);
      var rest :- CopyFields(source, fields[1..]);
      Ok(first + rest)
  }

  predicate OneOf(value: Json, allowed: set<string>) {
    value == Undefined || (value.Text? && value.t in allowed)
  }

  predicate ValidParams(params: seq<(string, Json)>) {
    var get := (field: string) => Lookup(params, field);
    && SafeText(get("category")) && SafeText(get("symbol"))
    && (get("side") == Text("Buy") || get("side") == Text("Sell"))
    && OneOf(get("orderType"), {"Limit", "Market"})
    && OneOf(get("timeInForce"), {"GTC", "IOC", "FOK", "PostOnly"})
    && OneOf(get("tpslMode"), {"Full"})
    && OneOf(get("tpOrderType"), {"Market", "Limit"}) && OneOf(get("slOrderType"), {"Market", "Limit"})
    && OneOf(get("tpTriggerBy"), {"LastPrice", "MarkPrice", "IndexPrice"})
    && OneOf(get("slTriggerBy"), {"LastPrice", "MarkPrice", "IndexPrice"})
    && (get("positionIdx") == Undefined || (get("positionIdx").Number? && get("positionIdx").n >= 0))
    && (get("orderLinkId") == Undefined || SafeText(get("orderLinkId")))
    && (get("orderId") == Undefined || SafeText(get("orderId")))
  }

  function NormalizedParams(source: seq<(string, Json)>): Result<seq<(string, Json)>, PlanError> {
    if exists k :: k in Keys(source) && k !in ALLOWED_FIELDS then Err(UnsupportedField)
    else
      var params :- CopyFields(source, ALLOWED_FIELDS);
      if ValidParams(params) then Ok(params) else Err(InvalidField)
  }

  function After(params: seq<(string, Json)>, rest: Result<seq<(string, Json)>, PlanError>)
    : Result<seq<(string, Json)>, PlanError>
  {
    match rest case Err(e) => Err(e) case Ok(more) => Ok(params + more)
  }

  lemma AfterNothing(rest: Result<seq<(string, Json)>, PlanError>)
    ensures After([], rest) == rest
  {
    assert rest.Ok? ==> [] + rest.value == rest.value;
  }

  lemma AfterOneMore(params: seq<(string, Json)>, e: (string, Json), rest: Result<seq<(string, Json)>, PlanError>)
    ensures After(params, After([e], rest)) == After(params + [e], rest)
  {
    assert rest.Ok? ==> params + ([e] + rest.value) == (params + [e]) + rest.value;
  }

  /** The loop over the allowed fields copies those that are set. */
  method CopySetFields(source: seq<(string, Json)>, fields: seq<string>)
    returns (r: Result<seq<(string, Json)>, PlanError>)
    ensures r == CopyFields(source, fields)
  {
    var params: seq<(string, Json)> := [];
    var i := 0;
    assert fields[0..] == fields;
    AfterNothing(CopyFields(source, fields));
    while i < |fields|
      invariant 0 <= i <= |fields|
      invariant CopyFields(source, fields) == After(params, CopyFields(source, fields[i..]))
    {
      var value := Lookup(source, fields[i]);
      assert fields[i..][1..] == fields[i + 1..];
      if value != Undefined {
        var normalized := NormalizedValue(fields[i], value);
        if normalized.Err? {
          return Err(normalized.error);
        }
        AfterOneMore(params, (fields[i], normalized.value), CopyFields(source, fields[i + 1..]));
        params := params + [(fields[i], normalized.value)];
      } else {
        AfterNothing(CopyFields(source, fields[i + 1..]));
      }
      i := i + 1;
    }
    assert params + [] == params;
    r := Ok(params);
  }

  /** The two sources set the same fields, decimals to equal numbers and the rest to equal values. */
  ghost predicate SameField(a: Json, b: Json, field: string) {
    if a == Undefined || b == Undefined || !IsDecimalField(field) then a == b
    else
      && a.Text? && b.Text? && ParseDecimal(a.t).Ok? && ParseDecimal(b.t).Ok?
      && Value(ParseDecimal(a.t).value) == Value(ParseDecimal(b.t).value)
  }

  lemma NormalizedDecidesField(a: Json, b: Json, field: string)
    requires a != Undefined && b != Undefined
    requires NormalizedValue(field, a).Ok? && NormalizedValue(field, b).Ok?
    ensures NormalizedValue(field, a) == NormalizedValue(field, b) <==> SameField(a, b, field)
  {
    if IsDecimalField(field) {
      hide ParseDecimal, ToDecimalString, Value;
      PrintedFormDecidesValue(a.t, b.t);
    }
  }

  lemma {:induction false} CopiedFieldsComeFrom(source: seq<(string, Json)>, fields: seq<string>, e: (string, Json))
    requires CopyFields(source, fields).Ok? && e in CopyFields(source, fields).value
    ensures e.0 in fields
  {
    if fields != [] && e.0 != fields[0] {
      CopiedFieldsComeFrom(source, fields[1..], e);
    }
  }

  /** Copies are equal exactly when every field is the same. */
  lemma {:induction false} CopiesDecideFields(a: seq<(string, Json)>, b: seq<(string, Json)>, fields: seq<string>)
    requires CopyFields(a, fields).Ok? && CopyFields(b, fields).Ok? && Distinct(fields)
    ensures CopyFields(a, fields) == CopyFields(b, fields) <==>
            forall f :: f in fields ==> SameField(Lookup(a, f), Lookup(b, f), f)
  {
    if fields != [] {
      hide NormalizedValue, SameField;
      var f, rest := fields[0], fields[1..];
      CopiesDecideFields(a, b, rest);
      var x, y := Lookup(a, f), Lookup(b, f);
      FieldPresence(x, y, f);
      if x != Undefined && y != Undefined {
        NormalizedDecidesField(x, y, f);
      }
      CopyStep(a, fields);
      CopyStep(b, fields);
      assert fields == [f] + rest;
    }
  }

  lemma FieldPresence(x: Json, y: Json, f: string)
    ensures SameField(x, y, f) && (x == Undefined || y == Undefined) ==> x == y
    ensures x == y == Undefined ==> SameField(x, y, f)
  {
  }

  /** The first entry of a copy tells whether the first field was set. */
  lemma CopyStep(source: seq<(string, Json)>, fields: seq<string>)
    requires fields != [] && CopyFields(source, fields).Ok? && Distinct(fields)
    ensures CopyFields(source, fields[1..]).Ok?
    ensures var all, rest := CopyFields(source, fields).value, CopyFields(source, fields[1..]).value;
            var x := Lookup(source, fields[0]);
            if x == Undefined then all == rest && (all != [] ==> all[0].0 != fields[0])
            else NormalizedValue(fields[0], x).Ok? && all != [] && all[1..] == rest && all[0] == (fields[0], NormalizedValue(fields[0], x).value)
  {
    hide NormalizedValue;
    var rest := CopyFields(source, fields[1..]).value;
    if rest != [] {
      CopiedFieldsComeFrom(source, fields[1..], rest[0]);
    }
  }

  /** A copy sets exactly the listed fields that are set, each to its normalised value. */
  lemma {:induction false} CopiedField(source: seq<(string, Json)>, fields: seq<string>, f: string)
    requires CopyFields(source, fields).Ok? && Distinct(fields)
    ensures var x := Lookup(source, f);
      if f !in fields || x == Undefined then Lookup(CopyFields(source, fields).value, f) == Undefined
      else NormalizedValue(f, x).Ok? && Lookup(CopyFields(source, fields).value, f) == NormalizedValue(f, x).value
  {
    hide NormalizedValue;
    if fields != [] {
      CopyStep(source, fields);
      CopiedField(source, fields[1..], f);
      assert fields == [fields[0]] + fields[1..];
      if f == fields[0] {
        assert f !in fields[1..];
      }
    }
  }

  // ------------------------------------------------------------------ plans

  const SCHEMA_VERSION := 1

  predicate IsSafeString(s: string) {
    SafeText(Text(s))
  }

  predicate Includes(s: string, part: string) {
    part <= s || (s != "" && Includes(s[1..], part))
  }

  /** A plan of a relative endpoint on a test environment, with its parameters normalised. */
  function BuildProbePlan(environment: string, accountId: string, scenario: string, expiresAt: int, httpMethod: string, endpoint: string,
                          params: seq<(string, Json)>): Result<ProbePlan, PlanError> {
    if environment != "testnet" && environment != "demo" then Err(InvalidField)
    else if !IsSafeString(accountId) || !IsSafeString(scenario) || expiresAt <= 0 then Err(InvalidField)
    else if httpMethod != "GET" && httpMethod != "POST" then Err(InvalidField)
    else if !IsSafeString(endpoint) || endpoint[0] != '/' || Includes(endpoint, "//") || Includes(endpoint, "#") then Err(InvalidField)
    else
      var normalized :- NormalizedParams(params);
      Ok(ProbePlan(SCHEMA_VERSION, environment, accountId, scenario, expiresAt, httpMethod, endpoint, Object(normalized)))
  }

  /** The parameter a plan sends. */
  function Sent(plan: ProbePlan, field: string): Json {
    match plan.params case Object(entries) => Lookup(entries, field) case _ => Undefined
  }

  /** A plan sends the parameters it was built from, decimals in normal form. */
  lemma BuiltPlanSends(environment: string, accountId: string, scenario: string, expiresAt: int, httpMethod: string, endpoint: string,
                       params: seq<(string, Json)>, field: string)
    requires BuildProbePlan(environment, accountId, scenario, expiresAt, httpMethod, endpoint, params).Ok?
    ensures var (plan, x) := (BuildProbePlan(environment, accountId, scenario, expiresAt, httpMethod, endpoint, params).value, Lookup(params, field));
      && (plan.environment, plan.accountId, plan.httpMethod, plan.endpoint) == (environment, accountId, httpMethod, endpoint)
      && (if field !in ALLOWED_FIELDS || x == Undefined then Sent(plan, field) == Undefined
          else NormalizedValue(field, x).Ok? && Sent(plan, field) == NormalizedValue(field, x).value)
  {
    hide CopyFields, NormalizedValue, ValidParams, IsSafeString, Includes;
    AllowedFieldsAreDistinct();
    CopiedField(params, ALLOWED_FIELDS, field);
  }

  function PlanEntries(plan: ProbePlan): seq<(string, Json)> {
    [("schemaVersion", Number(plan.schemaVersion)), ("environment", Text(plan.environment)),
     ("accountId", Text(plan.accountId)), ("scenario", Text(plan.scenario)), ("expiresAt", Number(plan.expiresAt)),
     ("method", Text(plan.httpMethod)), ("endpoint", Text(plan.endpoint)), ("params", plan.params)]
  }

  function PlanJson(plan: ProbePlan): Json {
    Object(PlanEntries(plan))
  }

  /** A SHA-256 digest, treated as determining the text it was taken of. */
  datatype Digest = Sha256(text: string)

  function HashProbePlan(plan: ProbePlan): Result<Digest, PlanError> {
    match CanonicalValue(PlanJson(plan))
    case Ok(text) => Ok(Sha256(text))
    case Err(_) => Err(Uncanonical)
  }

  /** The parameters are a record of data. */
  ghost predicate Wellformed(plan: ProbePlan) {
    plan.params.Object? && DistinctKeys(plan.params) && Supported(plan.params)
  }

  /** Field for field: every parameter set in one is set alike in the other. */
  ghost predicate SamePlan(a: ProbePlan, b: ProbePlan)
    requires Wellformed(a) && Wellformed(b)
  {
    a.(params := Null) == b.(params := Null) && MeaningOf(a.params) == MeaningOf(b.params)
  }

  const PLAN_KEYS: seq<string> := [
    "schemaVersion", "environment", "accountId", "scenario", "expiresAt", "method", "endpoint", "params"]

  lemma PlanKeysAreDistinct()
    ensures Distinct(PLAN_KEYS)
  {
    assert PLAN_KEYS[2][0] == 'a' && PLAN_KEYS[4][0] == 'e' && PLAN_KEYS[3][0] == 's' && PLAN_KEYS[6][0] == 'e'
        && PLAN_KEYS[5][0] == 'm' && PLAN_KEYS[7][0] == 'p';
  }

  /** Two plans have one digest exactly when they agree field for field. */
  lemma DigestDecidesPlan(a: ProbePlan, b: ProbePlan)
    requires Wellformed(a) && Wellformed(b)
    ensures HashProbePlan(a).Ok? && HashProbePlan(b).Ok?
    ensures HashProbePlan(a) == HashProbePlan(b) <==> SamePlan(a, b)
  {
    hide CanonicalValue, PlanEntries, Distinct, Keys, SamePlan, AllSupported;
    PlanIsRecord(a);
    PlanIsRecord(b);
    PlanKeysAreDistinct();
    RecordMeaning(PlanEntries(a), PlanEntries(b));
    CanonicalDecidesMeaning(PlanJson(a), PlanJson(b));
    SameEntriesSamePlan(a, b);
  }

  lemma PlanIsRecord(plan: ProbePlan)
    requires Wellformed(plan)
    ensures |PlanEntries(plan)| == 8 && Keys(PlanEntries(plan)) == PLAN_KEYS
    ensures AllSupported(PlanEntries(plan)) && DistinctKeys(PlanJson(plan))
  {
    PlanKeysAreDistinct();
    var entries := PlanEntries(plan);
    assert Keys(entries) == PLAN_KEYS;
  }

  lemma SameEntriesSamePlan(a: ProbePlan, b: ProbePlan)
    requires Wellformed(a) && Wellformed(b)
    requires AllSupported(PlanEntries(a)) && AllSupported(PlanEntries(b))
    ensures SamePlan(a, b) <==> forall i :: 0 <= i < 8 ==> MeaningOf(PlanEntries(a)[i].1) == MeaningOf(PlanEntries(b)[i].1)
  {
    var x, y := PlanEntries(a), PlanEntries(b);
    assert SamePlan(a, b) <==>
      && MeaningOf(x[0].1) == MeaningOf(y[0].1) && MeaningOf(x[1].1) == MeaningOf(y[1].1)
      && MeaningOf(x[2].1) == MeaningOf(y[2].1) && MeaningOf(x[3].1) == MeaningOf(y[3].1)
      && MeaningOf(x[4].1) == MeaningOf(y[4].1) && MeaningOf(x[5].1) == MeaningOf(y[5].1)
      && MeaningOf(x[6].1) == MeaningOf(y[6].1) && MeaningOf(x[7].1) == MeaningOf(y[7].1);
  }

  // --------------------------------------------------------------- approval

  datatype ProbeApproval =
    | Approved(plan: ProbePlan, digest: Digest, approvedAt: int, expiresAt: int)
    | RefusedExpired
    | RefusedTtl

  predicate IsExpired(plan: ProbePlan, now: int) {
    now >= plan.expiresAt
  }

  function AuthorizeProbePlan(plan: ProbePlan, ttlMs: int, approvedAt: int): Result<ProbeApproval, PlanError> {
    var digest :- HashProbePlan(plan);
    if IsExpired(plan, approvedAt) then Ok(RefusedExpired)
    else if ttlMs < 1 then Ok(RefusedTtl)
    else
      var expiresAt := if plan.expiresAt < approvedAt + ttlMs then plan.expiresAt else approvedAt + ttlMs;
      if expiresAt <= approvedAt then Ok(RefusedExpired)
      else Ok(Approved(plan, digest, approvedAt, expiresAt))
  }

  function AssertCurrent(plan: ProbePlan, expected: Digest, now: int, expectedAccountId: string): Result<(), PlanError> {
    if IsExpired(plan, now) then Err(ApprovalExpired)
    else if plan.accountId != expectedAccountId then Err(AccountMismatch)
    else
      var digest :- HashProbePlan(plan);
      if digest != expected then Err(DigestMismatch) else Ok(())
  }

  function ReverifyProbeApproval(approval: ProbeApproval, actual: ProbePlan, now: int): Result<(), PlanError>
    requires approval.Approved?
  {
    if now >= approval.expiresAt then Err(ApprovalExpired)
    else
      var _ :- AssertCurrent(approval.plan, approval.digest, now, approval.plan.accountId);
      if IsExpired(actual, now) then Err(ApprovalExpired)
      else if actual.accountId != approval.plan.accountId then Err(AccountMismatch)
      else
        var digest :- HashProbePlan(actual);
        if digest != approval.digest then Err(DigestMismatch) else Ok(())
  }

  /**
   * A plan is approved exactly when it has not expired and the TTL is positive, for itself and until
   * the earlier of its own expiry and the end of the TTL; an expired plan is refused as such first.
   */
  lemma AuthorizationMeaning(plan: ProbePlan, ttlMs: int, approvedAt: int)
    requires Wellformed(plan)
    ensures var r := AuthorizeProbePlan(plan, ttlMs, approvedAt);
      && HashProbePlan(plan).Ok? && r.Ok?
      && (r.value.RefusedExpired? <==> plan.expiresAt <= approvedAt)
      && (r.value.RefusedTtl? <==> approvedAt < plan.expiresAt && ttlMs <= 0)
      && (r.value.Approved? ==>
            && r.value.plan == plan && r.value.digest == HashProbePlan(plan).value && r.value.approvedAt == approvedAt
            && r.value.expiresAt <= plan.expiresAt && r.value.expiresAt <= approvedAt + ttlMs
            && (r.value.expiresAt == plan.expiresAt || r.value.expiresAt == approvedAt + ttlMs))
  {
    DigestDecidesPlan(plan, plan);
    hide HashProbePlan, PlanJson;
  }

  /**
   * A plan passes against an approval given for `plan` exactly when it is that plan, field for
   * field, and the approval has not expired; the approval lasts until the earlier of
   * the plan's expiry and the end of its TTL.
   */
  lemma OnlyTheApprovedPlanPasses(plan: ProbePlan, ttlMs: int, approvedAt: int, actual: ProbePlan, now: int)
    requires Wellformed(plan) && Wellformed(actual)
    requires AuthorizeProbePlan(plan, ttlMs, approvedAt).Ok? && AuthorizeProbePlan(plan, ttlMs, approvedAt).value.Approved?
    ensures var approval := AuthorizeProbePlan(plan, ttlMs, approvedAt).value;
            && approvedAt < approval.expiresAt <= plan.expiresAt && approval.expiresAt <= approvedAt + ttlMs
            && (approval.expiresAt == plan.expiresAt || approval.expiresAt == approvedAt + ttlMs)
            && (ReverifyProbeApproval(approval, actual, now).Ok? <==> now < approval.expiresAt && SamePlan(actual, plan))
  {
    hide HashProbePlan;
    DigestDecidesPlan(plan, actual);
  }

  /** Where an allowed field stands in the list, read off its length and two of its letters. */
  ghost function FieldPosition(f: string): int
    requires |f| >= 3
  {
    if |f| == 11 then
      (if f[0] == 'o' then 3 else if f[0] == 'p' then 12
       else if f[2] == 'O' then (if f[0] == 't' then 14 else 15)
       else if f[2] == 'T' then (if f[0] == 't' then 16 else 17)
       else 10)
    else if |f| == 8 then (if f[0] == 'c' then 0 else if f[0] == 's' then 8 else 13)
    else if |f| == 10 then (if f[0] == 't' then 7 else 11)
    else if |f| == 6 then 1 else if |f| == 4 then 2 else if |f| == 7 then 4 else if |f| == 5 then 5
    else if |f| == 3 then 6 else if |f| == 9 then 9 else 18
  }

  lemma EarlyFieldPosition(i: nat)
    requires i < 10
    ensures |ALLOWED_FIELDS[i]| >= 3 && FieldPosition(ALLOWED_FIELDS[i]) == i
  {
  }

  lemma LateFieldPosition(i: nat)
    requires 10 <= i < 19
    ensures |ALLOWED_FIELDS[i]| >= 3 && FieldPosition(ALLOWED_FIELDS[i]) == i
  {
  }

  lemma AllowedFieldsAreDistinct()
    ensures Distinct(ALLOWED_FIELDS)
  {
    forall i, j | 0 <= i < j < |ALLOWED_FIELDS|
      ensures ALLOWED_FIELDS[i] != ALLOWED_FIELDS[j]
    {
      if i < 10 { EarlyFieldPosition(i); } else { LateFieldPosition(i); }
      if j < 10 { EarlyFieldPosition(j); } else { LateFieldPosition(j); }
    }
  }

  /** Spellings of equal numbers give one plan; any other difference gives another. */
  lemma NormalizedParamsDecideFields(a: seq<(string, Json)>, b: seq<(string, Json)>)
    requires NormalizedParams(a).Ok? && NormalizedParams(b).Ok?
    ensures NormalizedParams(a) == NormalizedParams(b) <==>
            forall f :: f in ALLOWED_FIELDS ==> SameField(Lookup(a, f), Lookup(b, f), f)
  {
    hide CopyFields, ValidParams, SameField, Lookup, Keys;
    AllowedFieldsAreDistinct();
    CopiesDecideFields(a, b, ALLOWED_FIELDS);
  }

  /** Plans built alike, but for spellings of equal decimals, are one plan with one digest. */
  lemma EqualSpellingsOneDigest(environment: string, accountId: string, scenario: string, expiresAt: int, httpMethod: string, endpoint: string,
                                a: seq<(string, Json)>, b: seq<(string, Json)>)
    requires forall f :: f in ALLOWED_FIELDS ==> SameField(Lookup(a, f), Lookup(b, f), f)
    requires BuildProbePlan(environment, accountId, scenario, expiresAt, httpMethod, endpoint, a).Ok?
    requires BuildProbePlan(environment, accountId, scenario, expiresAt, httpMethod, endpoint, b).Ok?
    ensures var p := BuildProbePlan(environment, accountId, scenario, expiresAt, httpMethod, endpoint, a).value;
            var q := BuildProbePlan(environment, accountId, scenario, expiresAt, httpMethod, endpoint, b).value;
            p == q && HashProbePlan(p) == HashProbePlan(q)
  {
    hide NormalizedParams, HashProbePlan, SameField, IsSafeString, Includes;
    NormalizedParamsDecideFields(a, b);
  }
}
