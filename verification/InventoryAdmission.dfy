/** The validating webhook of inventories, and what it guarantees over every history of admitted operations: at most
    one inventory in the cluster refers to the RDS provider. */
module InventoryAdmission {
  import opened Keys
  import opened Wrappers
  import opened Access
  import opened ProviderFields

  datatype Inventory = Inventory(provider: Provider, credentialsRef: string, nsSelector: Option<Selector>)

  type SecretData = map<string, string>

  /** What the webhook client answers: the secret, the provider's credential fields, and whether the index lists an
      inventory of the RDS provider. */
  datatype Answers = Answers(
    secret: Result<SecretData, string>,
    fields: Result<seq<CredentialField>, string>,
    rdsListed: Result<bool, string>)

  datatype Refusal =
    | ProviderImmutable
    | ClientError(message: string)
    | RdsExists
    | SelectorInvalid
    | FieldMissing(key: string)

  /** Which of the two rules about the provider name are enforced; the webhook enforces both. */
  datatype Rules = Rules(immutableProvider: bool, oneRds: bool)

  const WEBHOOK := Rules(true, true)

  predicate Filled(secret: SecretData, field: CredentialField) {
    field.required ==> field.key in secret && secret[field.key] != ""
  }

  function FirstMissing(secret: SecretData, fields: seq<CredentialField>): Option<string> {
    if fields == [] then None
    else if !Filled(secret, fields[0]) then Some(fields[0].key)
    else FirstMissing(secret, fields[1..])
  }

  /** The checks in the order the webhook makes them; None admits. `stored` is the inventory there was on an update. */
  function Validate(rules: Rules, inv: Inventory, stored: Option<Inventory>, answers: Answers): Option<Refusal> {
    if rules.immutableProvider && stored.Some? && stored.value.provider != inv.provider then Some(ProviderImmutable)
    else if answers.secret.Err? then Some(ClientError(answers.secret.error))
    else if answers.fields.Err? then Some(ClientError(answers.fields.error))
    else if rules.oneRds && stored.None? && inv.provider == Rds && answers.rdsListed.Err? then
      Some(ClientError(answers.rdsListed.error))
    else if rules.oneRds && stored.None? && inv.provider == Rds && answers.rdsListed.value then Some(RdsExists)
    else if inv.nsSelector.Some? && !SelectorOk(inv.nsSelector.value) then Some(SelectorInvalid)
    else
      var missing := FirstMissing(answers.secret.value, answers.fields.value);
      if missing.Some? then Some(FieldMissing(missing.value)) else None
  }

  method ValidateMandatoryFields(secret: SecretData, fields: seq<CredentialField>) returns (refusal: Option<Refusal>)
    ensures refusal == var missing := FirstMissing(secret, fields);
                       if missing.Some? then Some(FieldMissing(missing.value)) else None
  {
    for i := 0 to |fields|
      invariant FirstMissing(secret, fields) == FirstMissing(secret, fields[i..])
    {
      var field := fields[i];
      assert fields[i..][1..] == fields[i + 1..];
      if field.required {
        if field.key !in secret || |secret[field.key]| == 0 {
          return Some(FieldMissing(field.key));
        }
      }
    }
    return None;
  }

  method ValidateInventory(inv: Inventory, stored: Option<Inventory>, answers: Answers)
    returns (refusal: Option<Refusal>)
    ensures refusal == Validate(WEBHOOK, inv, stored, answers)
  {
    if stored.Some? && stored.value.provider != inv.provider {
      return Some(ProviderImmutable);
    }
    if answers.secret.Err? {
      return Some(ClientError(answers.secret.error));
    }
    if answers.fields.Err? {
      return Some(ClientError(answers.fields.error));
    }
    if stored.None? && inv.provider == Rds {
      if answers.rdsListed.Err? {
        return Some(ClientError(answers.rdsListed.error));
      }
      if answers.rdsListed.value {
        return Some(RdsExists);
      }
    }
    if inv.nsSelector.Some? {
      if exists i :: 0 <= i < |inv.nsSelector.value| && !WellFormed(inv.nsSelector.value[i]) {
        return Some(SelectorInvalid);
      }
    }
    refusal := ValidateMandatoryFields(answers.secret.value, answers.fields.value);
  }

  lemma {:induction false} NoneMissing(secret: SecretData, fields: seq<CredentialField>)
    ensures FirstMissing(secret, fields).None? <==> forall i :: 0 <= i < |fields| ==> Filled(secret, fields[i])
  {
    if fields != [] {
      NoneMissing(secret, fields[1..]);
      assert forall i :: 1 <= i < |fields| ==> fields[i] == fields[1..][i - 1];
    }
  }

  /** What the webhook admits, in one formula. */
  lemma AdmittedIff(inv: Inventory, stored: Option<Inventory>, answers: Answers)
    ensures Validate(WEBHOOK, inv, stored, answers).None? <==>
            && (stored.Some? ==> stored.value.provider == inv.provider)
            && answers.secret.Ok? && answers.fields.Ok?
            && (stored.None? && inv.provider == Rds ==> answers.rdsListed == Ok(false))
            && (inv.nsSelector.Some? ==> SelectorOk(inv.nsSelector.value))
            && (forall field <- answers.fields.value :: field.required ==>
                                                          field.key in answers.secret.value
                                                          && |answers.secret.value[field.key]| > 0)
  {
    if answers.secret.Ok? && answers.fields.Ok? {
      NoneMissing(answers.secret.value, answers.fields.value);
    }
  }

  lemma {:induction false} FirstMissingIs(secret: SecretData, fields: seq<CredentialField>, i: nat)
    requires i < |fields| && !Filled(secret, fields[i])
    requires forall j :: 0 <= j < i ==> Filled(secret, fields[j])
    ensures FirstMissing(secret, fields) == Some(fields[i].key)
    decreases i
  {
    if i > 0 {
      FirstMissingIs(secret, fields[1..], i - 1);
    }
  }

  predicate Missing(secret: SecretData, field: CredentialField) {
    field.required && (field.key !in secret || |secret[field.key]| == 0)
  }

  /** The demand that the refusal says was not met, while every earlier one was. */
  ghost predicate Because(inv: Inventory, stored: Option<Inventory>, answers: Answers, refusal: Refusal) {
    var moved := stored.Some? && stored.value.provider != inv.provider;
    var answered := !moved && answers.secret.Ok? && answers.fields.Ok?;
    var firstRds := stored.None? && inv.provider == Rds;
    var alone := answered && (firstRds ==> answers.rdsListed.Ok? && !answers.rdsListed.value);
    var selectable := alone && (inv.nsSelector.Some? ==> forall r <- inv.nsSelector.value :: WellFormed(r));
    match refusal
    case ProviderImmutable => moved
    case ClientError(message) =>
      && !moved
      && if answers.secret.Err? then message == answers.secret.error
         else if answers.fields.Err? then message == answers.fields.error
         else firstRds && answers.rdsListed.Err? && message == answers.rdsListed.error
    case RdsExists => answered && firstRds && answers.rdsListed.Ok? && answers.rdsListed.value
    case SelectorInvalid => alone && inv.nsSelector.Some? && exists r <- inv.nsSelector.value :: !WellFormed(r)
    case FieldMissing(key) =>
      && selectable
      && exists i :: 0 <= i < |answers.fields.value| && answers.fields.value[i].key == key
                     && Missing(answers.secret.value, answers.fields.value[i])
                     && forall j :: 0 <= j < i ==> !Missing(answers.secret.value, answers.fields.value[j])
  }

  /** A refusal is given for exactly its reason. */
  lemma RefusedBecause(inv: Inventory, stored: Option<Inventory>, answers: Answers, refusal: Refusal)
    ensures Validate(WEBHOOK, inv, stored, answers) == Some(refusal) <==> Because(inv, stored, answers, refusal)
  {
    if inv.nsSelector.Some? {
      SelectorOkIs(inv.nsSelector.value);
    }
    if answers.secret.Ok? && answers.fields.Ok? {
      if refusal.FieldMissing? {
        FirstMissingIff(answers.secret.value, answers.fields.value, refusal.key);
      }
      NoneMissing(answers.secret.value, answers.fields.value);
    }
  }

  lemma SelectorOkIs(selector: Selector)
    ensures SelectorOk(selector) <==> forall r <- selector :: WellFormed(r)
  {
    if !SelectorOk(selector) {
      var i :| 0 <= i < |selector| && !WellFormed(selector[i]);
      assert selector[i] in selector;
    }
  }

  lemma FirstMissingIff(secret: SecretData, fields: seq<CredentialField>, key: string)
    ensures FirstMissing(secret, fields) == Some(key) <==>
            exists i :: 0 <= i < |fields| && fields[i].key == key && Missing(secret, fields[i])
                        && forall j :: 0 <= j < i ==> !Missing(secret, fields[j])
  {
    if i :| 0 <= i < |fields| && fields[i].key == key && Missing(secret, fields[i])
            && forall j :: 0 <= j < i ==> !Missing(secret, fields[j]) {
      FirstMissingIs(secret, fields, i);
    }
    if FirstMissing(secret, fields).Some? {
      var i := LeastMissing(secret, fields);
      FirstMissingIs(secret, fields, i);
    }
  }

  lemma {:induction false} LeastMissing(secret: SecretData, fields: seq<CredentialField>) returns (i: nat)
    requires FirstMissing(secret, fields).Some?
    ensures i < |fields| && Missing(secret, fields[i]) && forall j :: 0 <= j < i ==> !Missing(secret, fields[j])
    decreases |fields|
  {
    if Missing(secret, fields[0]) {
      i := 0;
    } else {
      var rest := LeastMissing(secret, fields[1..]);
      i := rest + 1;
      assert forall j :: 1 <= j < |fields| ==> fields[j] == fields[1..][j - 1];
    }
  }

  // ----- Histories -----

  type Inventories = map<Key, Inventory>

  datatype Operation =
    | CreateInventory(k: Key, inv: Inventory, answers: Answers)
    | UpdateInventory(k: Key, inv: Inventory, answers: Answers)
    | DeleteInventory(k: Key)

  ghost predicate RdsIn(invs: Inventories, k: Key) {
    k in invs && invs[k].provider == Rds
  }

  /** The index lists exactly the stored inventories. */
  ghost predicate IndexExact(invs: Inventories, answers: Answers) {
    answers.rdsListed.Ok? ==> (answers.rdsListed.value <==> exists k :: RdsIn(invs, k))
  }

  ghost predicate Admitted(rules: Rules, invs: Inventories, op: Operation) {
    match op
    case CreateInventory(k, inv, answers) =>
      k !in invs && IndexExact(invs, answers) && Validate(rules, inv, None, answers).None?
    case UpdateInventory(k, inv, answers) =>
      k in invs && IndexExact(invs, answers) && Validate(rules, inv, Some(invs[k]), answers).None?
    case DeleteInventory(k) => k in invs
  }

  function Perform(invs: Inventories, op: Operation): Inventories {
    match op
    case CreateInventory(k, inv, _) => invs[k := inv]
    case UpdateInventory(k, inv, _) => invs[k := inv]
    case DeleteInventory(k) => invs - {k}
  }

  ghost predicate History(rules: Rules, invs: Inventories, ops: seq<Operation>)
    decreases |ops|
  {
    ops == [] || (Admitted(rules, invs, ops[0]) && History(rules, Perform(invs, ops[0]), ops[1..]))
  }

  function Outcome(invs: Inventories, ops: seq<Operation>): Inventories
    decreases |ops|
  {
    if ops == [] then invs else Outcome(Perform(invs, ops[0]), ops[1..])
  }

  ghost predicate OneRds(invs: Inventories) {
    forall k1, k2 :: RdsIn(invs, k1) && RdsIn(invs, k2) ==> k1 == k2
  }

  lemma OperationKeepsOneRds(invs: Inventories, op: Operation)
    requires OneRds(invs) && Admitted(WEBHOOK, invs, op)
    ensures OneRds(Perform(invs, op))
  {
    forall k1, k2 | RdsIn(Perform(invs, op), k1) && RdsIn(Perform(invs, op), k2) ensures k1 == k2 {
      assert k1 != op.k ==> RdsIn(invs, k1);
      assert k2 != op.k ==> RdsIn(invs, k2);
      if op.UpdateInventory? {
        assert RdsIn(Perform(invs, op), op.k) ==> RdsIn(invs, op.k);
      }
    }
  }

  lemma {:induction false} WebhookKeepsOneRds(invs: Inventories, ops: seq<Operation>)
    requires OneRds(invs) && History(WEBHOOK, invs, ops)
    ensures OneRds(Outcome(invs, ops))
    decreases |ops|
  {
    if ops != [] {
      OperationKeepsOneRds(invs, ops[0]);
      WebhookKeepsOneRds(Perform(invs, ops[0]), ops[1..]);
    }
  }

  lemma TwoStepOutcome(rules: Rules, first: Operation, second: Operation)
    requires Admitted(rules, map[], first) && Admitted(rules, Perform(map[], first), second)
    ensures History(rules, map[], [first, second])
    ensures Outcome(map[], [first, second]) == Perform(Perform(map[], first), second)
  {
    assert [first, second][1..] == [second] && [second][1..] == [];
    assert Outcome(Perform(map[], first), [second]) == Outcome(Perform(Perform(map[], first), second), []);
  }

  /** Without either rule there is a history from the empty cluster that ends with two RDS inventories. */
  lemma TwoRdsWithout(rules: Rules) returns (ops: seq<Operation>)
    requires rules != WEBHOOK
    ensures History(rules, map[], ops) && !OneRds(Outcome(map[], ops))
  {
    var a, b := Key("a", "a"), Key("b", "b");
    var rds := Inventory(Rds, "", None);
    var none, listed := Answers(Ok(map[]), Ok([]), Ok(false)), Answers(Ok(map[]), Ok([]), Ok(true));
    var first := CreateInventory(a, rds, none);
    assert a.ns != b.ns;
    assert RdsIn(Perform(map[], first), a);
    if !rules.oneRds {
      var second := CreateInventory(b, rds, listed);
      TwoStepOutcome(rules, first, second);
      ops := [first, second];
      assert RdsIn(Outcome(map[], ops), a) && RdsIn(Outcome(map[], ops), b);
    } else {
      var mongo := CreateInventory(a, Inventory(Mongo, "", None), none);
      var second := CreateInventory(b, rds, none);
      var third := UpdateInventory(a, rds, listed);
      var one := Perform(map[], mongo);
      var two := Perform(one, second);
      assert RdsIn(two, b);
      ops := [mongo, second, third];
      assert ops[1..] == [second, third] && ops[1..][1..] == [third] && ops[1..][1..][1..] == [];
      assert Admitted(rules, one, second) && Admitted(rules, two, third);
      assert History(rules, two, [third]) && Outcome(two, [third]) == Perform(two, third);
      assert RdsIn(Perform(two, third), a) && RdsIn(Perform(two, third), b);
    }
  }

  /** Over all histories from the empty cluster, RDS stays single exactly under both rules. */
  lemma BothRulesNeeded(rules: Rules)
    ensures (forall ops :: History(rules, map[], ops) ==> OneRds(Outcome(map[], ops))) <==> rules == WEBHOOK
  {
    if rules == WEBHOOK {
      forall ops | History(rules, map[], ops) ensures OneRds(Outcome(map[], ops)) {
        WebhookKeepsOneRds(map[], ops);
      }
    } else {
      var ops := TwoRdsWithout(rules);
    }
  }
}
