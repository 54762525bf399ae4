/**
 * All-or-nothing update of three records in a keychain that can fail at any step (`save`,
 * src/adapters/macos-keychain.ts).
 */
module Keychain {
  import opened Common

  datatype Account = ApiKey | ApiSecret | AccountId | ConnectPreflight

  /** One generic password: its service and account. */
  datatype Item = Item(service: string, account: Account)

  datatype Credentials = Credentials(apiKey: string, apiSecret: string, accountId: string)

  const ACCOUNTS: seq<Account> := [ApiKey, ApiSecret, AccountId]

  function ValueFor(c: Credentials, account: Account): string {
    match account
    case ApiKey => c.apiKey
    case ApiSecret => c.apiSecret
    case _ => c.accountId
  }

  /** Not empty, one line, no control characters. */
  predicate IsValidValue(value: string) {
    value != "" && forall c :: c in value ==> c >= ' ' && c != '\U{7f}'
  }

  predicate AreValid(c: Credentials) {
    IsValidValue(c.apiKey) && IsValidValue(c.apiSecret) && IsValidValue(c.accountId)
  }

  /** What a `security` command reports. */
  datatype CommandResult = Done(stdout: string) | NotFound | InteractionRequired | TimedOut | Refused

  datatype RecordState = Present(value: string) | Missing | Invalid | Inaccessible | Unknown

  datatype Snapshot = Complete(credentials: Credentials) | NonRestorable

  datatype SaveError =
    | Unsupported | InvalidCredentials | KeychainInaccessible | LoadFailed
    | WriteFailed                             // the previous set was restored
    | WriteFailedCleared(hadPrevious: bool)   // the set was cleared
    | RollbackIncomplete

  /** What the store holds under one service, as `load` would report it. */
  ghost predicate Holds(items: map<Item, string>, service: string, c: Credentials) {
    forall account :: account in ACCOUNTS ==> Item(service, account) in items && items[Item(service, account)] == ValueFor(c, account)
  }

  ghost predicate HoldsNone(items: map<Item, string>, service: string) {
    forall account :: account in ACCOUNTS ==> Item(service, account) !in items
  }

  /** What `load` returns of a store that can be read: the three values, or the first that is missing or invalid. */
  function Loaded(items: map<Item, string>, service: string): Result<Credentials, RecordState> {
    var key, secret, account := StateOf(items, Item(service, ApiKey)), StateOf(items, Item(service, ApiSecret)), StateOf(items, Item(service, AccountId));
    if !key.Present? then Err(key)
    else if !secret.Present? then Err(secret)
    else if !account.Present? then Err(account)
    else Ok(Credentials(key.value, secret.value, account.value))
  }

  function StateOf(items: map<Item, string>, item: Item): RecordState {
    if item !in items then Missing
    else if IsValidValue(items[item]) then Present(items[item])
    else Invalid
  }

  lemma HeldIsLoaded(items: map<Item, string>, service: string, c: Credentials)
    requires AreValid(c)
    ensures Holds(items, service, c) <==> Loaded(items, service) == Ok(c)
  {
    assert ACCOUNTS[0] in ACCOUNTS && ACCOUNTS[1] in ACCOUNTS && ACCOUNTS[2] in ACCOUNTS;
  }

  class MacOsKeychain {
    var items: map<Item, string>
    const isDarwin: bool

    constructor (isDarwin: bool, items: map<Item, string>)
      ensures this.isDarwin == isDarwin && this.items == items
    {
      this.isDarwin, this.items := isDarwin, items;
    }

    /** Adding may take effect or not, whatever it reports. */
    method Add(item: Item, value: string) returns (r: CommandResult)
      modifies this`items
      ensures items == old(items) || items == old(items)[item := value]
    {
      r := *;
      if * {
        items := items[item := value];
      }
    }

    /** Deleting may take effect or not, whatever it reports. */
    method Delete(item: Item) returns (r: CommandResult)
      modifies this`items
      ensures items == old(items) || items == old(items) - {item}
    {
      r := *;
      if * {
        items := items - {item};
      }
    }

    /** Reading may fail, but what it finds, or finds missing, is so. */
    method Find(item: Item) returns (r: CommandResult)
      ensures r.Done? ==> item in items && r.stdout == items[item]
      ensures r.NotFound? ==> item !in items
    {
      if * {
        r := if item in items then Done(items[item]) else NotFound;
      } else {
        r := *;
        if r.Done? || r.NotFound? {
          r := Refused;
        }
      }
    }

    method WriteAndVerifyValue(item: Item, value: string) returns (addSucceeded: bool, exactMatch: bool)
      modifies this`items
      ensures items == old(items) || items == old(items)[item := value]
      ensures exactMatch ==> item in items && items[item] == value && IsValidValue(value)
    {
      var added := Add(item, value);
      var read := Find(item);
      addSucceeded := added.Done?;
      exactMatch := read.Done? && IsValidValue(read.stdout) && read.stdout == value;
    }

    method ReadCredentialStates(service: string) returns (states: seq<RecordState>)
      ensures |states| == |ACCOUNTS|
      ensures forall k :: 0 <= k < |ACCOUNTS| ==>
        states[k] in {Inaccessible, Unknown} || states[k] == StateOf(items, Item(service, ACCOUNTS[k]))
    {
      states := [];
      for k := 0 to |ACCOUNTS|
        invariant |states| == k
        invariant forall j :: 0 <= j < k ==> states[j] in {Inaccessible, Unknown} || states[j] == StateOf(items, Item(service, ACCOUNTS[j]))
      {
        var result := Find(Item(service, ACCOUNTS[k]));
        var state := match result
          case NotFound => Missing
          case InteractionRequired => Inaccessible
          case TimedOut => Inaccessible
          case Refused => Unknown
          case Done(value) => if IsValidValue(value) then Present(value) else Invalid;
        states := states + [state];
      }
    }

    method SnapshotBeforeMutation(service: string) returns (r: Result<Snapshot, SaveError>)
      ensures r.Err? ==> r.error in {KeychainInaccessible, LoadFailed}
      ensures r.Ok? && r.value.Complete? ==> AreValid(r.value.credentials) && Holds(items, service, r.value.credentials)
      ensures r.Ok? && r.value.NonRestorable? ==> Loaded(items, service).Err?
    {
      var states := ReadCredentialStates(service);
      for k := 0 to |states|
        invariant forall j :: 0 <= j < k ==> states[j] != Inaccessible && states[j] != Unknown
      {
        if states[k] == Inaccessible || states[k] == Unknown {
          return Err(if states[k] == Inaccessible then KeychainInaccessible else LoadFailed);
        }
      }
      if states[0].Present? && states[1].Present? && states[2].Present? {
        return Ok(Complete(Credentials(states[0].value, states[1].value, states[2].value)));
      }
      r := Ok(NonRestorable);
    }

    method MatchesCompleteSnapshot(service: string, c: Credentials) returns (matches: bool)
      ensures matches ==> Holds(items, service, c)
    {
      var states := ReadCredentialStates(service);
      matches := forall k :: 0 <= k < |states| ==> states[k] == Present(ValueFor(c, ACCOUNTS[k]));
      if matches {
        forall account | account in ACCOUNTS
          ensures Item(service, account) in items && items[Item(service, account)] == ValueFor(c, account)
        {
          var k :| 0 <= k < |ACCOUNTS| && ACCOUNTS[k] == account;
          assert states[k] == Present(ValueFor(c, ACCOUNTS[k]));
        }
      }
    }

    method RestoreCompleteSnapshot(service: string, c: Credentials) returns (restored: bool)
      modifies this`items
      ensures OthersKept(old(items), items, service)
      ensures restored ==> Holds(items, service, c)
    {
      for k := 0 to |ACCOUNTS|
        invariant OthersKept(old(items), items, service)
      {
        var addSucceeded, exactMatch := WriteAndVerifyValue(Item(service, ACCOUNTS[k]), ValueFor(c, ACCOUNTS[k]));
      }
      restored := MatchesCompleteSnapshot(service, c);
    }

    method ClearAndVerifyAbsent(service: string) returns (cleared: bool)
      modifies this`items
      ensures OthersKept(old(items), items, service)
      ensures cleared ==> HoldsNone(items, service)
    {
      var failed := false;
      for k := 0 to |ACCOUNTS|
        invariant OthersKept(old(items), items, service)
      {
        var result := Delete(Item(service, ACCOUNTS[k]));
        if !result.Done? && !result.NotFound? {
          failed := true;
        }
      }
      var states := ReadCredentialStates(service);
      cleared := !failed && forall s :: s in states ==> s == Missing;
      if cleared {
        forall account | account in ACCOUNTS
          ensures Item(service, account) !in items
        {
          var k :| 0 <= k < |ACCOUNTS| && ACCOUNTS[k] == account;
          assert states[k] in states;
        }
      }
    }

    /**
     * Saving three credentials.  It ends with all three new values; or fails with what `load` would
     * have returned before; or fails with all three absent; or says that the rollback is incomplete.
     * It touches no other record.  Only another system, or credentials that are not valid, are
     * refused without asking the keychain.
     */
    method Save(service: string, c: Credentials) returns (r: Result<(), SaveError>)
      modifies this`items
      ensures OthersKept(old(items), items, service)
      ensures r == Err(Unsupported) <==> !isDarwin
      ensures r == Err(InvalidCredentials) <==> isDarwin && !AreValid(c)
      ensures r.Ok? ==> Loaded(items, service) == Ok(c)
      ensures r.Err? && r.error in {Unsupported, InvalidCredentials, KeychainInaccessible, LoadFailed} ==> items == old(items)
      ensures r == Err(WriteFailed) ==> Loaded(items, service).Ok? && Loaded(items, service) == Loaded(old(items), service)
      ensures r.Err? && r.error.WriteFailedCleared? ==>
        HoldsNone(items, service) && (r.error.hadPrevious <==> Loaded(old(items), service).Ok?)
    {
      if !isDarwin {
        return Err(Unsupported);
      }
      if !AreValid(c) {
        return Err(InvalidCredentials);
      }
      var previous := SnapshotBeforeMutation(service);
      if previous.Err? {
        return Err(previous.error);
      }
      hide Holds, Loaded, HoldsNone;
      if previous.value.Complete? {
        HeldIsLoaded(items, service, previous.value.credentials);
      }
      for k := 0 to |ACCOUNTS|
        invariant OthersKept(old(items), items, service)
        invariant forall j :: 0 <= j < k ==> Item(service, ACCOUNTS[j]) in items && items[Item(service, ACCOUNTS[j])] == ValueFor(c, ACCOUNTS[j])
      {
        var addSucceeded, exactMatch := WriteAndVerifyValue(Item(service, ACCOUNTS[k]), ValueFor(c, ACCOUNTS[k]));
        if !addSucceeded || !exactMatch {
          var outcome := RollBack(service, previous.value);
          if outcome == WriteFailed {
            HeldIsLoaded(items, service, previous.value.credentials);
          }
          return Err(outcome);
        }
      }
      AllWritten(items, service, c);
      HeldIsLoaded(items, service, c);
      r := Ok(());
    }

    /** Undo a partial write: restore the previous set, or else clear. */
    method RollBack(service: string, previous: Snapshot) returns (outcome: SaveError)
      modifies this`items
      ensures OthersKept(old(items), items, service)
      ensures outcome in {WriteFailed, WriteFailedCleared(previous.Complete?), RollbackIncomplete}
      ensures outcome == WriteFailed ==> previous.Complete? && Holds(items, service, previous.credentials)
      ensures outcome.WriteFailedCleared? ==> HoldsNone(items, service)
    {
      if previous.Complete? {
        var restored := RestoreCompleteSnapshot(service, previous.credentials);
        if restored {
          return WriteFailed;
        }
      }
      var cleared := ClearAndVerifyAbsent(service);
      outcome := if cleared then WriteFailedCleared(previous.Complete?) else RollbackIncomplete;
    }
  }

  lemma AllWritten(items: map<Item, string>, service: string, c: Credentials)
    requires forall k :: 0 <= k < |ACCOUNTS| ==> Item(service, ACCOUNTS[k]) in items && items[Item(service, ACCOUNTS[k])] == ValueFor(c, ACCOUNTS[k])
    ensures Holds(items, service, c)
  {
    forall account | account in ACCOUNTS
      ensures Item(service, account) in items && items[Item(service, account)] == ValueFor(c, account)
    {
      var k :| 0 <= k < |ACCOUNTS| && ACCOUNTS[k] == account;
    }
  }

  /** Records of other services, and other records of this one, are as before. */
  ghost predicate OthersKept(before: map<Item, string>, after: map<Item, string>, service: string) {
    forall item: Item :: item.service != service || item.account !in ACCOUNTS ==>
      (item in before <==> item in after) && (item in before && item in after ==> before[item] == after[item])
  }
}
