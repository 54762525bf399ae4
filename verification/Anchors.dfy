/** Wallet anchors and what lies between two of them (src/application/history-accounting-epoch.ts). */
module Anchors {
  import opened Common
  import opened Coverage
  import opened History
  import opened Bridge

  datatype AnchorKind = OpeningAnchor | ClosingAnchor

  datatype Capture = Capture(
    identityEndpoint: string, walletEndpoint: string, accountType: string,
    providerTimeBefore: Timestamp, providerResponseTime: Timestamp, providerTimeAfter: Timestamp,
    collectionStartedAt: Timestamp, identityObservedAt: Timestamp, collectionEndedAt: Timestamp)

  datatype Binding = Binding(exchange: string, environment: string, origin: string, accountIdentityHash: string, identityVerified: bool)

  /** `authentic`: a v1 anchor record whose capture was authenticated.  A binding or posture that cannot be built is missing. */
  datatype Anchor = Anchor(
    authentic: bool, kind: AnchorKind, anchorId: string, contentHash: string, scope: Scope, binding: Option<Binding>,
    hasPosture: bool, authenticatedAt: Timestamp, recordedAt: Timestamp, capture: Capture, assets: seq<Asset>)

  function OriginOf(environment: string): string {
    if environment == "demo" then "https://api-demo.bybit.com"
    else if environment == "testnet" then "https://api-testnet.bybit.com"
    else "https://api.bybit.com"
  }

  predicate BoundTo(binding: Binding, scope: Scope) {
    && binding.exchange == "bybit"
    && binding.environment == scope.environment
    && binding.origin == OriginOf(scope.environment)
    && binding.accountIdentityHash == scope.accountId
    && binding.identityVerified
  }

  /** The wallet was read between the two provider times, and recorded after it was collected. */
  predicate WellTimed(a: Anchor) {
    var c := a.capture;
    && c.providerTimeBefore.ms.Some? && c.providerResponseTime.ms.Some? && c.providerTimeAfter.ms.Some?
    && c.collectionStartedAt.ms.Some? && c.identityObservedAt.ms.Some? && c.collectionEndedAt.ms.Some?
    && a.authenticatedAt.ms.Some? && a.recordedAt.ms.Some?
    && c.providerTimeBefore.ms.value <= c.collectionStartedAt.ms.value <= c.identityObservedAt.ms.value
         <= c.providerResponseTime.ms.value <= c.collectionEndedAt.ms.value <= c.providerTimeAfter.ms.value
    && c.collectionEndedAt.ms.value <= a.recordedAt.ms.value
  }

  predicate CapturedAsDocumented(a: Anchor) {
    && IsAccountHash(a.contentHash) && a.anchorId != ""
    && a.capture.identityEndpoint == "/v5/user/query-api"
    && a.capture.walletEndpoint == "/v5/account/wallet-balance"
    && a.capture.accountType == "UNIFIED"
  }

  predicate InScope(a: Anchor, scope: Scope) {
    a.scope == scope && IsScope(scope) && a.hasPosture && a.binding.Some? && BoundTo(a.binding.value, scope)
  }

  /** The boundary an anchor sets, if it sets one, and what is wrong with it. */
  function ValidateAnchor(a: Anchor, expected: AnchorKind, scope: Scope): (Option<int>, set<Reason>) {
    if !a.authentic then (None, {AnchorCaptureInvalid})
    else
      var reasons :=
        (if a.kind != expected then {AnchorKindMismatch} else {})
        + (if InScope(a, scope) then {} else {AnchorScopeMismatch})
        + (if CapturedAsDocumented(a) then {} else {AnchorCaptureInvalid});
      if WellTimed(a) then (a.capture.providerResponseTime.ms, reasons) else (None, reasons + {AnchorTimeInvalid})
  }

  ghost predicate ValidAnchor(a: Anchor, expected: AnchorKind, scope: Scope) {
    a.authentic && a.kind == expected && InScope(a, scope) && CapturedAsDocumented(a) && WellTimed(a)
  }

  lemma QuietAnchor(a: Anchor, expected: AnchorKind, scope: Scope)
    ensures ValidateAnchor(a, expected, scope).1 == {} <==> ValidAnchor(a, expected, scope)
    ensures ValidAnchor(a, expected, scope) ==> ValidateAnchor(a, expected, scope).0 == a.capture.providerResponseTime.ms
    ensures ValidateAnchor(a, expected, scope).0.Some? ==> a.capture.providerTimeBefore.ms.Some? && a.capture.providerTimeAfter.ms.Some?
  {
    hide InScope, CapturedAsDocumented;
    var reasons := ValidateAnchor(a, expected, scope).1;
    assert reasons == {} ==> AnchorKindMismatch !in reasons && AnchorScopeMismatch !in reasons
                             && AnchorCaptureInvalid !in reasons && AnchorTimeInvalid !in reasons;
  }

  // ------------------------------------------------------------------ epoch

  datatype EpochInput = EpochInput(
    scope: Scope, opening: Anchor, closing: Anchor, observations: seq<Observation>,
    conflicts: seq<StoredConflict>, coverage: seq<Checkpoint>)

  predicate InRange(time: int, from: int, to: int) {
    from < time <= to
  }

  predicate InBracket(time: int, a: Anchor) {
    && a.capture.providerTimeBefore.ms.Some? && a.capture.providerTimeAfter.ms.Some?
    && a.capture.providerTimeBefore.ms.value <= time <= a.capture.providerTimeAfter.ms.value
  }

  predicate ConfinedToBracket(window: Interval, a: Anchor) {
    && a.capture.providerTimeBefore.ms.Some? && a.capture.providerTimeAfter.ms.Some?
    && a.capture.providerTimeBefore.ms.value <= window.from && window.to <= a.capture.providerTimeAfter.ms.value
  }

  predicate AtBoundary(time: int, input: EpochInput, from: int, to: int) {
    time == from || time == to || InBracket(time, input.opening) || InBracket(time, input.closing)
  }

  predicate InEpochOrBoundary(o: Observation, input: EpochInput, from: int, to: int) {
    o.eventTime.ms.Some? ==> InRange(o.eventTime.ms.value, from, to) || AtBoundary(o.eventTime.ms.value, input, from, to)
  }

  /** The observation is of a time in the epoch. */
  predicate InEpoch(o: Observation, from: int, to: int) {
    o.eventTime.ms.Some? && InRange(o.eventTime.ms.value, from, to)
  }

  predicate Identifies(c: StoredConflict, o: Observation) {
    o.source == c.source && o.eventIdentity == c.eventIdentity
  }

  function WindowsOf(c: StoredConflict): seq<(string, Interval)> {
    match c.windows case None => [] case Some(windows) => windows
  }

  predicate ConflictIsInEpoch(c: StoredConflict, input: EpochInput, from: int, to: int) {
    if exists o :: o in input.observations && Identifies(c, o) then
      || (exists o :: o in input.observations && Identifies(c, o) && InEpochOrBoundary(o, input, from, to))
      || (exists w :: w in WindowsOf(c) && (ConfinedToBracket(w.1, input.opening) || ConfinedToBracket(w.1, input.closing)))
    else
      WindowsOf(c) == [] || exists w :: w in WindowsOf(c) && w.1.from <= to && w.1.to >= from
  }

  predicate LocatedAt(c: StoredConflict, checkpoint: Checkpoint)
    requires checkpoint.fromMs.Some? && checkpoint.toMs.Some?
  {
    && c.source == checkpoint.source
    && (checkpoint.filterHash, Interval(checkpoint.fromMs.value, checkpoint.toMs.value)) in WindowsOf(c)
  }

  function CountLocated(conflicts: seq<StoredConflict>, checkpoint: Checkpoint): nat
    requires checkpoint.fromMs.Some? && checkpoint.toMs.Some?
  {
    if conflicts == [] then 0
    else CountLocated(conflicts[..|conflicts| - 1], checkpoint) + if LocatedAt(conflicts[|conflicts| - 1], checkpoint) then 1 else 0
  }

  /** What a checkpoint's conflict count raises: it must be the number of stored conflicts located in its window. */
  function CountReasons(checkpoint: Checkpoint, input: EpochInput, from: int, to: int, hash: Filters -> string): set<Reason> {
    if || checkpoint.scope != input.scope || checkpoint.fromMs.None? || checkpoint.toMs.None?
       || checkpoint.toMs.value < from || checkpoint.fromMs.value > to || !CompatibleFilters(checkpoint, hash) then {}
    else if !CountedConflicts(checkpoint) then {HistoryCoverageFilterIncompatible}
    else if CountLocated(input.conflicts, checkpoint) != checkpoint.conflictCount.value then {HistoryCoverageConflict}
    else {}
  }
}
