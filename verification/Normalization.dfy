/** Transactions as balance movements (normalizeHistoryTransaction, src/application/history-accounting-normalization.ts). */
module Normalization {
  import opened Common
  import opened Decimals
  import opened DecimalText
  import opened History
  import Selection

  datatype MovementKind = TradeMovement | FundingMovement | TransferMovement | UnknownMovement

  datatype ComponentCheck = Matched | Mismatched | Incomplete

  datatype Disposition = CorroborationOnly | AccountMovementOnly

  datatype NormalizedTransaction = NormalizedTransaction(
    observationId: string, transactionId: string, category: Option<string>, movementKind: MovementKind,
    currency: Option<string>, change: Option<string>, cashFlow: Option<string>, funding: Option<string>,
    fee: Option<string>, bonusChange: Option<string>, cashBalance: Option<string>, expectedChange: Option<string>,
    componentCheck: ComponentCheck, disposition: Disposition)

  function Text(s: Option<string>): string {
    match s case None => "" case Some(t) => t
  }

  predicate Contains(s: string, part: string) {
    part <= s || (s != "" && Contains(s[1..], part))
  }

  predicate IsTrade(t: Transaction) {
    Text(t.kind) == "TRADE" || Text(t.kind) == "TRADE_REBATE"
  }

  function MovementKindOf(t: Transaction): MovementKind {
    if Text(t.kind) == "TRANSFER_IN" || Text(t.kind) == "TRANSFER_OUT" then TransferMovement
    else if IsTrade(t) then TradeMovement
    else if Text(t.kind) == "SETTLEMENT" || Contains(Text(t.kind) + " " + Text(t.subKind), "FUND") then FundingMovement
    else UnknownMovement
  }

  /** DecimalValue.fromString */
  function ParseAmount(s: string): Option<Normal> {
    if ParseDecimal(s).Ok? then
      ParsedIsNormal(s);
      Some(ParseDecimal(s).value)
    else None
  }

  function DecimalField(field: Option<string>): Result<Option<Normal>, Selection.SelectionError> {
    match field
    case None => Ok(None)
    case Some(s) => if ParseAmount(s).Some? then Ok(ParseAmount(s)) else Err(Selection.InvalidValue)
  }

  function Printed(d: Option<Normal>): Option<string> {
    match d case None => None case Some(v) => Some(ToDecimalString(v))
  }

  function ExpectedChange(cashFlow: Option<Normal>, funding: Option<Normal>, fee: Option<Normal>, mayOmitFunding: bool): Option<Normal> {
    if cashFlow.None? || fee.None? then None
    else if funding.Some? then Some(Subtract(Add(cashFlow.value, funding.value), fee.value))
    else if mayOmitFunding then Some(Subtract(cashFlow.value, fee.value))
    else None
  }

  function CheckComponents(expected: Option<Normal>, change: Option<Normal>): ComponentCheck {
    if expected.None? || change.None? then Incomplete
    else if Compare(expected.value, change.value) == 0 then Matched
    else Mismatched
  }

  function NormalizeTransaction(o: Observation): Result<NormalizedTransaction, Selection.SelectionError> {
    if !ValidObservation(o) || !o.fact.body.TransactionBody? then Err(Selection.InvalidValue)
    else
      var t := o.fact.body.transaction;
      var cashFlow :- DecimalField(t.cashFlow);
      var funding :- DecimalField(t.funding);
      var fee :- DecimalField(t.fee);
      var change :- DecimalField(t.change);
      var bonusChange :- DecimalField(t.bonusChange);
      var cashBalance :- DecimalField(t.cashBalance);
      var expected := ExpectedChange(cashFlow, funding, fee, Text(t.kind) == "TRADE");
      var kind := MovementKindOf(t);
      Ok(NormalizedTransaction(
        o.observationId, t.transactionId, t.category, kind, t.currency, Printed(change), Printed(cashFlow),
        Printed(funding), Printed(fee), Printed(bonusChange), Printed(cashBalance), Printed(expected),
        CheckComponents(expected, change),
        if kind.TradeMovement? || kind.FundingMovement? then CorroborationOnly else AccountMovementOnly))
  }

  // ---------------------------------------------------------------- meaning

  /** A field that states an amount. */
  ghost predicate Stated(field: Option<string>) {
    field.Some? && ParseDecimal(field.value).Ok?
  }

  ghost function Amount(field: Option<string>): real
    requires Stated(field)
  {
    Value(ParseDecimal(field.value).value)
  }

  ghost predicate Readable(t: Transaction) {
    forall f :: f in [t.cashFlow, t.funding, t.fee, t.change, t.bonusChange, t.cashBalance] ==> f.None? || Stated(f)
  }

  /** Cash flow, fee and funding are stated; only a TRADE may leave funding out. */
  ghost predicate HasComponents(t: Transaction) {
    Stated(t.cashFlow) && Stated(t.fee) && (Stated(t.funding) || (t.funding.None? && Text(t.kind) == "TRADE"))
  }

  /** cashFlow + funding - fee */
  ghost function Movement(t: Transaction): real
    requires HasComponents(t)
  {
    Amount(t.cashFlow) + (if t.funding.Some? then Amount(t.funding) else 0.0) - Amount(t.fee)
  }

  /** The stated change is what its components add up to. */
  ghost predicate Explained(t: Transaction) {
    HasComponents(t) && Stated(t.change) && Amount(t.change) == Movement(t)
  }

  lemma FieldMeaning(field: Option<string>)
    ensures DecimalField(field).Ok? <==> field.None? || Stated(field)
    ensures DecimalField(field).Ok? ==> (DecimalField(field).value.Some? <==> Stated(field)) && (field.Some? <==> Stated(field))
    ensures Stated(field) ==> DecimalField(field).Ok? && Value(DecimalField(field).value.value) == Amount(field)
  {
  }

  lemma ReadableFields(t: Transaction)
    ensures Readable(t) <==>
      && DecimalField(t.cashFlow).Ok? && DecimalField(t.funding).Ok? && DecimalField(t.fee).Ok?
      && DecimalField(t.change).Ok? && DecimalField(t.bonusChange).Ok? && DecimalField(t.cashBalance).Ok?
  {
    hide DecimalField, Stated;
    var fields := [t.cashFlow, t.funding, t.fee, t.change, t.bonusChange, t.cashBalance];
    forall f
      ensures DecimalField(f).Ok? <==> f.None? || Stated(f)
    {
      FieldMeaning(f);
    }
    assert fields[0] in fields && fields[1] in fields && fields[2] in fields
           && fields[3] in fields && fields[4] in fields && fields[5] in fields;
  }

  /** The expected change exists exactly when the components do, and is the movement. */
  lemma ExpectedMeaning(t: Transaction)
    requires Readable(t)
    ensures var fields := (DecimalField(t.cashFlow), DecimalField(t.funding), DecimalField(t.fee));
            && fields.0.Ok? && fields.1.Ok? && fields.2.Ok?
            && var expected := ExpectedChange(fields.0.value, fields.1.value, fields.2.value, Text(t.kind) == "TRADE");
               && (expected.Some? <==> HasComponents(t))
               && (expected.Some? ==> Value(expected.value) == Movement(t))
  {
    ReadableFields(t);
    FieldMeaning(t.cashFlow);
    FieldMeaning(t.funding);
    FieldMeaning(t.fee);
    hide DecimalField, Value, Plus, Minus, Stated, Amount, Readable;
    var cashFlow, funding, fee := DecimalField(t.cashFlow).value, DecimalField(t.funding).value, DecimalField(t.fee).value;
    if cashFlow.Some? && fee.Some? {
      PlusIsExact(cashFlow.value, fee.value);
      if funding.Some? {
        PlusIsExact(cashFlow.value, funding.value);
        var gross := Add(cashFlow.value, funding.value);
        PlusIsExact(gross, fee.value);
      }
    }
  }

  lemma PrintedMeaning(d: Option<Normal>)
    ensures Printed(d).Some? <==> d.Some?
    ensures d.Some? ==> ParseAmount(Printed(d).value) == d && Stated(Printed(d)) && Amount(Printed(d)) == Value(d.value)
  {
    if d.Some? {
      RoundTrip(d.value);
    }
  }

  lemma CheckMeaning(expected: Option<Normal>, change: Option<Normal>)
    ensures CheckComponents(expected, change) == Incomplete <==> expected.None? || change.None?
    ensures CheckComponents(expected, change) == Matched <==>
              expected.Some? && change.Some? && Value(expected.value) == Value(change.value)
  {
    if expected.Some? && change.Some? {
      CompareIsExact(expected.value, change.value);
    }
  }

  /**
   * Normalisation fails exactly on an amount it cannot read.  The components match exactly when
   * the stated change is cash flow plus funding minus fee, and are incomplete exactly when one of
   * these amounts is missing; the change and the expected change it prints are those amounts.
   */
  lemma NormalizationMeaning(o: Observation)
    requires ValidObservation(o) && o.fact.body.TransactionBody?
    ensures var t := o.fact.body.transaction;
            && (NormalizeTransaction(o).Ok? <==> Readable(t))
            && (Readable(t) ==>
                  var n := NormalizeTransaction(o).value;
                  && (n.componentCheck == Matched <==> Explained(t))
                  && (n.componentCheck == Incomplete <==> !HasComponents(t) || t.change.None?)
                  && (n.change.Some? <==> t.change.Some?)
                  && (n.change.Some? ==> Stated(n.change) && Stated(t.change) && Amount(n.change) == Amount(t.change))
                  && (n.expectedChange.Some? <==> HasComponents(t))
                  && (n.expectedChange.Some? ==> Stated(n.expectedChange) && Amount(n.expectedChange) == Movement(t)))
  {
    var t := o.fact.body.transaction;
    ReadableFields(t);
    if Readable(t) {
      ExpectedMeaning(t);
      FieldMeaning(t.change);
      hide DecimalField, Value, Stated, Amount, Readable, HasComponents, Movement, ExpectedChange, CheckComponents, Printed,
        ParseAmount, MovementKindOf, ValidObservation;
      var change := DecimalField(t.change).value;
      var expected := ExpectedChange(DecimalField(t.cashFlow).value, DecimalField(t.funding).value, DecimalField(t.fee).value,
                                     Text(t.kind) == "TRADE");
      PrintedMeaning(change);
      PrintedMeaning(expected);
      CheckMeaning(expected, change);
    }
  }

  /** The printed field states the same amount, or none. */
  ghost predicate SaysAsMuch(printed: Option<string>, field: Option<string>) {
    (printed.Some? <==> field.Some?) && (field.Some? ==> Stated(printed) && Stated(field) && Amount(printed) == Amount(field))
  }

  lemma PrintedField(field: Option<string>)
    requires DecimalField(field).Ok?
    ensures SaysAsMuch(Printed(DecimalField(field).value), field)
  {
    FieldMeaning(field);
    PrintedMeaning(DecimalField(field).value);
    hide Value, ParseDecimal, ToDecimalString;
  }

  /** Every amount of a normalised transaction is the one stated; only trades and funding leave the account movement to other evidence. */
  lemma NormalizedFields(o: Observation)
    requires ValidObservation(o) && o.fact.body.TransactionBody? && Readable(o.fact.body.transaction)
    ensures NormalizeTransaction(o).Ok? && var (t, n) := (o.fact.body.transaction, NormalizeTransaction(o).value);
      && n.observationId == o.observationId && n.transactionId == t.transactionId && n.category == t.category && n.currency == t.currency
      && SaysAsMuch(n.change, t.change) && SaysAsMuch(n.cashFlow, t.cashFlow) && SaysAsMuch(n.funding, t.funding)
      && SaysAsMuch(n.fee, t.fee) && SaysAsMuch(n.bonusChange, t.bonusChange) && SaysAsMuch(n.cashBalance, t.cashBalance)
      && (n.disposition == CorroborationOnly <==> n.movementKind in {TradeMovement, FundingMovement})
  {
    var t := o.fact.body.transaction;
    ReadableFields(t);
    PrintedField(t.change);
    PrintedField(t.cashFlow);
    PrintedField(t.funding);
    PrintedField(t.fee);
    PrintedField(t.bonusChange);
    PrintedField(t.cashBalance);
    hide DecimalField, Printed, SaysAsMuch, Readable, ValidObservation, MovementKindOf, ExpectedChange, CheckComponents;
  }
}
