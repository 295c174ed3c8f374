/** The pass all three reconcilers share: write the provider's object, merge its status into the DBaaS object, and write
    that status whatever happened. */
module ProviderResource {
  import opened Wrappers
  import opened Conditions

  datatype ObjectKind = InventoryObject | ConnectionObject | InstanceObject

  function ReadyKind(kind: ObjectKind): Kind {
    match kind
    case InventoryObject => InventoryReady
    case ConnectionObject => ConnectionReady
    case InstanceObject => InstanceReady
  }

  /** The condition in which the provider reports that it synchronised. */
  function SyncKind(kind: ObjectKind): Kind {
    match kind
    case InventoryObject => SpecSynced
    case ConnectionObject => ReadyForBinding
    case InstanceObject => ProvisionReady
  }

  datatype Phase = NoPhase | UnknownPhase | ErrorPhase | OtherPhase(text: string)

  /** A status: its conditions, the instance phase (none for other kinds), and the remaining fields as one value. */
  datatype ObjectStatus = ObjectStatus(conditions: seq<Condition>, phase: Phase, data: string)

  datatype ApiError = NotFound | Conflict | OtherError(text: string)

  /** What the API server answers in one pass. */
  datatype Answers = Answers(
    provider: Option<ApiError>,
    createOrUpdate: Option<ApiError>,
    parsed: Option<ObjectStatus>,
    statusWrite: Option<ApiError>)

  datatype Call = CreateOrUpdate(error: Option<ApiError>) | UpdateStatus(status: ObjectStatus, error: Option<ApiError>)

  datatype PassError = FromApi(error: ApiError) | Unparsable

  function SyncDone(kind: ObjectKind): Condition {
    Condition(ReadyKind(kind), True, ReadyReason)
  }

  function SyncPending(kind: ObjectKind): Condition {
    Condition(ReadyKind(kind), False, ProviderReconcileInprogress)
  }

  function NotReady(kind: ObjectKind, reason: Reason): Condition {
    Condition(ReadyKind(kind), False, reason)
  }

  // ----- What a pass ends with -----

  /** The provider's status as the DBaaS object takes it over. */
  function TakenOver(kind: ObjectKind, provided: ObjectStatus): ObjectStatus {
    if kind == InstanceObject && provided.phase == NoPhase then provided.(phase := UnknownPhase) else provided
  }

  function Verdict(kind: ObjectKind, provided: ObjectStatus): Condition {
    if IsTrue(provided.conditions, SyncKind(kind)) then SyncDone(kind) else SyncPending(kind)
  }

  /** The status a parsed pass writes. */
  function Merged(kind: ObjectKind, provided: ObjectStatus): ObjectStatus {
    var taken := TakenOver(kind, provided);
    taken.(conditions := Set(taken.conditions, Verdict(kind, provided)))
  }

  /** The Ready condition a pass starts from. */
  function Standing(kind: ObjectKind, status: ObjectStatus): Condition {
    var found := Find(status.conditions, ReadyKind(kind));
    if found.Some? then found.value else SyncPending(kind)
  }

  function WithReady(status: ObjectStatus, condition: Condition): ObjectStatus {
    status.(conditions := Set(status.conditions, condition))
  }

  /** The status a pass writes at its end. */
  function FinalStatus(kind: ObjectKind, status: ObjectStatus, answers: Answers): ObjectStatus {
    if answers.provider.Some? then
      if answers.provider.value.NotFound?
      then WithReady(status, NotReady(kind, ProviderNotFound))
      else WithReady(status, Standing(kind, status))
    else if answers.createOrUpdate == Some(Conflict) then WithReady(status, Standing(kind, status))
    else if answers.createOrUpdate.Some? then
      WithReady(status, NotReady(kind, ProviderReconcileError))
    else if answers.parsed.None? then WithReady(status, NotReady(kind, ProviderParsingError))
    else Merged(kind, answers.parsed.value)
  }

  function PassFailure(answers: Answers): Option<PassError> {
    if answers.provider.Some? then Some(FromApi(answers.provider.value))
    else if answers.createOrUpdate == Some(Conflict) then None
    else if answers.createOrUpdate.Some? then Some(FromApi(answers.createOrUpdate.value))
    else if answers.parsed.None? then Some(Unparsable)
    else None
  }

  /** Every call was answered, and the provider's object could be read. */
  predicate AllWell(answers: Answers) {
    answers.provider.None? && answers.createOrUpdate.None? && answers.parsed.Some? && answers.statusWrite.None?
  }

  /** The error of the earliest call that failed is returned, where conflicts are no errors: they are met with a requeue
      instead. The status write comes last, after a failed pass too. */
  ghost predicate Reported(answers: Answers, err: Option<PassError>) {
    var written := answers.createOrUpdate == Some(Conflict) || (answers.createOrUpdate.None? && answers.parsed.Some?);
    && (answers.provider.Some? ==> err == Some(FromApi(answers.provider.value)))
    && (answers.provider.None? && answers.createOrUpdate.Some? && !answers.createOrUpdate.value.Conflict? ==>
          err == Some(FromApi(answers.createOrUpdate.value)))
    && (answers.provider.None? && answers.createOrUpdate.None? && answers.parsed.None? ==> err == Some(Unparsable))
    && (answers.provider.None? && written && answers.statusWrite.Some? && !answers.statusWrite.value.Conflict? ==>
          err == Some(FromApi(answers.statusWrite.value)))
    && (answers.provider.None? && written && (answers.statusWrite.None? || answers.statusWrite.value.Conflict?) ==>
          err.None?)
  }

  /** The calls of a pass that change something, in order. */
  function Calls(kind: ObjectKind, status: ObjectStatus, answers: Answers): seq<Call> {
    (if answers.provider.Some? then [] else [CreateOrUpdate(answers.createOrUpdate)])
    + [UpdateStatus(FinalStatus(kind, status, answers), answers.statusWrite)]
  }

  /** The DBaaS object a pass works on, and the record of the calls it made. */
  class Subject {
    const kind: ObjectKind
    var status: ObjectStatus
    var calls: seq<Call>

    constructor (kind: ObjectKind, status: ObjectStatus)
      ensures this.kind == kind && this.status == status && calls == []
    {
      this.kind, this.status, this.calls := kind, status, [];
    }

    method MergeStatus(provided: ObjectStatus) returns (condition: Condition)
      modifies this`status
      ensures status == TakenOver(kind, provided) && condition == Verdict(kind, provided)
    {
      status := provided;
      if kind == InstanceObject && status.phase == NoPhase {
        status := status.(phase := UnknownPhase);
      }
      var sync := Find(provided.conditions, SyncKind(kind));
      if sync.Some? && sync.value.status == True {
        return SyncDone(kind);
      }
      return SyncPending(kind);
    }

    /** The part before the deferred status write; it settles the condition that write will set. */
    method Proceed(answers: Answers) returns (condition: Condition, requeue: bool, err: Option<PassError>)
      modifies this
      ensures WithReady(status, condition) == FinalStatus(kind, old(status), answers)
      ensures err == PassFailure(answers)
      ensures requeue <==> answers.provider.None? && answers.createOrUpdate == Some(Conflict)
      ensures calls == old(calls) + if answers.provider.Some? then [] else [CreateOrUpdate(answers.createOrUpdate)]
    {
      condition := Standing(kind, status);
      requeue := false;
      if answers.provider.Some? {
        if answers.provider.value.NotFound? {
          condition := NotReady(kind, ProviderNotFound);
        }
        return condition, false, Some(FromApi(answers.provider.value));
      }
      calls := calls + [CreateOrUpdate(answers.createOrUpdate)];
      if answers.createOrUpdate.Some? {
        if answers.createOrUpdate.value.Conflict? {
          return condition, true, None;
        }
        condition := NotReady(kind, ProviderReconcileError);
        return condition, false, Some(FromApi(answers.createOrUpdate.value));
      }
      if answers.parsed.None? {
        condition := NotReady(kind, ProviderParsingError);
        return condition, false, Some(Unparsable);
      }
      condition := MergeStatus(answers.parsed.value);
      return condition, false, None;
    }

    method ReconcileProviderResource(answers: Answers) returns (requeue: bool, err: Option<PassError>)
      modifies this
      ensures status == FinalStatus(kind, old(status), answers)
      ensures calls == old(calls) + Calls(kind, old(status), answers)
      ensures requeue <==> || (answers.provider.None? && answers.createOrUpdate == Some(Conflict))
                           || answers.statusWrite == Some(Conflict)
      ensures err == if PassFailure(answers).Some? then PassFailure(answers)
                     else if answers.statusWrite.Some? && answers.statusWrite != Some(Conflict)
                     then Some(FromApi(answers.statusWrite.value))
                     else None
      ensures err.None? && !requeue <==> AllWell(answers)
      ensures Reported(answers, err)
    {
      var condition;
      condition, requeue, err := Proceed(answers);
      // the deferred write
      status := WithReady(status, condition);
      calls := calls + [UpdateStatus(status, answers.statusWrite)];
      if answers.statusWrite.Some? {
        if answers.statusWrite.value.Conflict? {
          requeue := true;
          return;
        }
        if err.None? {
          err := Some(FromApi(answers.statusWrite.value));
        }
      }
    }
  }

  // ----- What a pass says, condition by condition -----

  /** The Ready condition of each kind and the provider's condition it follows. */
  ghost predicate KindIs(kind: ObjectKind, ready: Kind, sync: Kind) {
    || (kind == InventoryObject && ready == InventoryReady && sync == SpecSynced)
    || (kind == ConnectionObject && ready == ConnectionReady && sync == ReadyForBinding)
    || (kind == InstanceObject && ready == InstanceReady && sync == ProvisionReady)
  }

  /** The Ready condition after a pass, for every combination of answers. */
  lemma FinalReadyIs(kind: ObjectKind, ready: Kind, sync: Kind, status: ObjectStatus, answers: Answers)
    requires KindIs(kind, ready, sync)
    ensures var found := Find(FinalStatus(kind, status, answers).conditions, ready);
            var before := Find(status.conditions, ready);
            var standing :=
              if before.Some? then before.value else Condition(ready, False, ProviderReconcileInprogress);
            && (answers.provider == Some(NotFound) ==> found == Some(Condition(ready, False, ProviderNotFound)))
            && (answers.provider.Some? && !answers.provider.value.NotFound? ==> found == Some(standing))
            && (answers.provider.None? && answers.createOrUpdate.Some? ==>
                  found == Some(if answers.createOrUpdate.value.Conflict? then standing
                                else Condition(ready, False, ProviderReconcileError)))
            && (answers.provider.None? && answers.createOrUpdate.None? && answers.parsed.None? ==>
                  found == Some(Condition(ready, False, ProviderParsingError)))
            && (answers.provider.None? && answers.createOrUpdate.None? && answers.parsed.Some? ==>
                  var told := Find(answers.parsed.value.conditions, sync);
                  found == Some(if told.Some? && told.value.status == True then Condition(ready, True, ReadyReason)
                                else Condition(ready, False, ProviderReconcileInprogress)))
  {
    assert ready == ReadyKind(kind) && sync == SyncKind(kind);
    if answers.provider.Some? {
      var condition :=
        if answers.provider.value.NotFound? then NotReady(kind, ProviderNotFound) else Standing(kind, status);
      SetFinds(status.conditions, condition, ready);
    } else if answers.createOrUpdate.Some? {
      var condition :=
        if answers.createOrUpdate.value.Conflict? then Standing(kind, status)
        else NotReady(kind, ProviderReconcileError);
      SetFinds(status.conditions, condition, ready);
    } else if answers.parsed.None? {
      SetFinds(status.conditions, NotReady(kind, ProviderParsingError), ready);
    } else {
      MergedReadyIs(kind, ready, sync, answers.parsed.value);
    }
  }

  lemma MergedReadyIs(kind: ObjectKind, ready: Kind, sync: Kind, provided: ObjectStatus)
    requires KindIs(kind, ready, sync)
    ensures var told := Find(provided.conditions, sync);
            Find(Merged(kind, provided).conditions, ready)
            == Some(if told.Some? && told.value.status == True then Condition(ready, True, ReadyReason)
                    else Condition(ready, False, ProviderReconcileInprogress))
  {
    SetFinds(provided.conditions, Verdict(kind, provided), ready);
  }

  /** A pass that takes over no provider status changes nothing but the Ready condition. */
  lemma UnparsedKeepsRest(kind: ObjectKind, status: ObjectStatus, answers: Answers, other: Kind)
    requires answers.provider.Some? || answers.createOrUpdate.Some? || answers.parsed.None?
    requires other != ReadyKind(kind)
    ensures var final := FinalStatus(kind, status, answers);
            && Find(final.conditions, other) == Find(status.conditions, other)
            && final.phase == status.phase && final.data == status.data
  {
    forall condition: Condition | condition.kind == ReadyKind(kind)
      ensures Find(WithReady(status, condition).conditions, other) == Find(status.conditions, other)
    {
      SetFinds(status.conditions, condition, other);
    }
  }

  /** The provider's object is written before the status, and not at all without a provider; the status is written once,
      at the end, in every pass. */
  lemma CallsAre(kind: ObjectKind, status: ObjectStatus, answers: Answers)
    ensures var calls := Calls(kind, status, answers);
            && |calls| == (if answers.provider.Some? then 1 else 2)
            && calls[|calls| - 1] == UpdateStatus(FinalStatus(kind, status, answers), answers.statusWrite)
            && (answers.provider.None? ==> calls[0] == CreateOrUpdate(answers.createOrUpdate))
  {
  }

  // ----- The status merge -----

  /** A parsed pass over a provider status with unique condition types writes one Ready condition, True exactly when the
      provider reports the sync, in place of the provider's own or after its last condition, and every other condition
      as the provider has it and where the provider has it. */
  lemma MergeKeepsProvider(kind: ObjectKind, status: ObjectStatus, answers: Answers)
    requires answers.provider.None? && answers.createOrUpdate.None? && answers.parsed.Some?
    requires Unique(answers.parsed.value.conditions)
    ensures var provided := answers.parsed.value;
            var final := FinalStatus(kind, status, answers);
            && Unique(final.conditions)
            && Find(final.conditions, ReadyKind(kind)).Some?
            && (IsTrue(final.conditions, ReadyKind(kind)) <==> IsTrue(provided.conditions, SyncKind(kind)))
            && (forall k :: k != ReadyKind(kind) ==> Find(final.conditions, k) == Find(provided.conditions, k))
            && (forall i :: 0 <= i < |provided.conditions| && provided.conditions[i].kind != ReadyKind(kind) ==>
                              i < |final.conditions| && final.conditions[i] == provided.conditions[i])
            && |final.conditions|
               == |provided.conditions| + (if Find(provided.conditions, ReadyKind(kind)).None? then 1 else 0)
            && final.data == provided.data
            && final.phase
               == (if kind == InstanceObject && provided.phase == NoPhase then UnknownPhase else provided.phase)
  {
    var provided := answers.parsed.value;
    SetReplaces(provided.conditions, Verdict(kind, provided));
    assert FinalStatus(kind, status, answers) == Merged(kind, provided);
  }

  lemma SetReplaces(conditions: seq<Condition>, condition: Condition)
    requires Unique(conditions)
    ensures var after := Set(conditions, condition);
            && Unique(after)
            && Find(after, condition.kind) == Some(condition)
            && (forall k :: k != condition.kind ==> Find(after, k) == Find(conditions, k))
            && (forall i :: 0 <= i < |conditions| && conditions[i].kind != condition.kind ==>
                              i < |after| && after[i] == conditions[i])
            && |after| == |conditions| + (if Find(conditions, condition.kind).None? then 1 else 0)
  {
    SetKeepsUnique(conditions, condition);
    SetAt(conditions, condition);
    forall k
      ensures Find(Set(conditions, condition), k)
              == if k == condition.kind then Some(condition) else Find(conditions, k)
    {
      SetFinds(conditions, condition, k);
    }
  }

  /** Another pass that meets the same answers, whatever they are, changes nothing more; a parsed pass does not depend
      on the status it starts from at all. */
  lemma RepeatIsNoOp(kind: ObjectKind, status: ObjectStatus, answers: Answers)
    ensures FinalStatus(kind, FinalStatus(kind, status, answers), answers) == FinalStatus(kind, status, answers)
  {
    StandingStays(kind, status);
    forall reason ensures
        var denied := WithReady(status, NotReady(kind, reason)); WithReady(denied, NotReady(kind, reason)) == denied
    {
      SetTwice(status.conditions, NotReady(kind, reason));
    }
  }

  lemma StandingStays(kind: ObjectKind, status: ObjectStatus)
    ensures var after := WithReady(status, Standing(kind, status)); WithReady(after, Standing(kind, after)) == after
  {
    SetFinds(status.conditions, Standing(kind, status), ReadyKind(kind));
    SetTwice(status.conditions, Standing(kind, status));
  }

  lemma {:induction false} SetFirst(conditions: seq<Condition>, kind: Kind)
    requires Find(conditions, kind).Some?
    ensures Set(conditions, Find(conditions, kind).value) == conditions
  {
    if conditions[0].kind != kind {
      SetFirst(conditions[1..], kind);
    }
  }

  /** A pass that breaks off without a verdict leaves a Ready condition that stands as it is. */
  lemma BrokenPassKeepsStatus(kind: ObjectKind, status: ObjectStatus, answers: Answers)
    requires Find(status.conditions, ReadyKind(kind)).Some?
    requires if answers.provider.Some? then !answers.provider.value.NotFound?
             else answers.createOrUpdate == Some(Conflict)
    ensures FinalStatus(kind, status, answers) == status
  {
    SetFirst(status.conditions, ReadyKind(kind));
  }

  /** Exactly when the status a pass writes says Ready. */
  lemma ReadyWrittenIff(kind: ObjectKind, status: ObjectStatus, answers: Answers)
    ensures IsTrue(FinalStatus(kind, status, answers).conditions, ReadyKind(kind)) <==>
            if answers.provider.Some? then
              !answers.provider.value.NotFound? && IsTrue(status.conditions, ReadyKind(kind))
            else if answers.createOrUpdate.Some? then
              answers.createOrUpdate.value.Conflict? && IsTrue(status.conditions, ReadyKind(kind))
            else answers.parsed.Some? && IsTrue(answers.parsed.value.conditions, SyncKind(kind))
  {
    var ready := ReadyKind(kind);
    if answers.provider.None? && answers.createOrUpdate.None? && answers.parsed.Some? {
      SetFinds(answers.parsed.value.conditions, Verdict(kind, answers.parsed.value), ready);
    } else if answers.provider.Some? {
      WithReadyShows(status, NotReady(kind, ProviderNotFound));
      WithReadyShows(status, Standing(kind, status));
    } else if answers.createOrUpdate.Some? {
      WithReadyShows(status, NotReady(kind, ProviderReconcileError));
      WithReadyShows(status, Standing(kind, status));
    } else {
      WithReadyShows(status, NotReady(kind, ProviderParsingError));
    }
  }

  /** The Ready condition, if there is one, is True or False. */
  predicate ReadyKnown(kind: ObjectKind, status: ObjectStatus) {
    var found := Find(status.conditions, ReadyKind(kind));
    found.Some? ==> found.value.status != Unknown
  }

  lemma WithReadyKnown(kind: ObjectKind, status: ObjectStatus, condition: Condition)
    requires condition.kind == ReadyKind(kind) && condition.status != Unknown
    ensures ReadyKnown(kind, WithReady(status, condition))
  {
    SetFinds(status.conditions, condition, ReadyKind(kind));
  }

  /** Whatever the provider writes in its own Ready condition. */
  lemma FinalReadyKnown(kind: ObjectKind, status: ObjectStatus, answers: Answers)
    requires ReadyKnown(kind, status)
    ensures ReadyKnown(kind, FinalStatus(kind, status, answers))
  {
    WithReadyKnown(kind, status, Standing(kind, status));
    forall reason ensures ReadyKnown(kind, WithReady(status, NotReady(kind, reason))) {
      WithReadyKnown(kind, status, NotReady(kind, reason));
    }
    if answers.parsed.Some? {
      var taken := TakenOver(kind, answers.parsed.value);
      WithReadyKnown(kind, taken, Verdict(kind, answers.parsed.value));
    }
  }

  lemma WithReadyShows(status: ObjectStatus, condition: Condition)
    ensures IsTrue(WithReady(status, condition).conditions, condition.kind) <==> condition.status == True
  {
    SetFinds(status.conditions, condition, condition.kind);
  }
}
