/** What a reconcile comes to, in terms of the calls it made and the objects it met. */
module Outcomes {
  import opened Objects
  import opened Cluster
  import opened Desired
  import opened Naming
  import opened Convergence
  import opened StatusSync
  import opened Controller
  import opened Footprint
  import opened Readiness
  import opened Reports

  // ---------------------------------------------------------------- the verdict

  /** Some call in this range met a conflict, and none met anything worse. */
  ghost predicate OnlyConflicted(fault: nat -> Fault, from: nat, until: nat) {
    !Faultless(fault, from, until) && NothingWorse(fault, from, until)
  }

  ghost predicate AllConflicts(answers: seq<ApiError>) {
    forall i :: 0 <= i < |answers| ==> answers[i] == Conflict
  }

  ghost predicate NothingWorse(fault: nat -> Fault, from: nat, until: nat) {
    forall n :: from <= n < until ==> fault(n) == NoFault || fault(n) == Conflicted
  }

  lemma {:induction false} AnswersConflicts(fault: nat -> Fault, from: nat, until: nat)
    requires from <= until
    ensures AllConflicts(Answers(fault, from, until)) <==> NothingWorse(fault, from, until)
    decreases until
  {
    if from < until {
      AnswersConflicts(fault, from, until - 1);
      var before, last := Answers(fault, from, until - 1), ErrorOf(fault(until - 1));
      if fault(until - 1) == NoFault {
        assert Answers(fault, from, until) == before;
      } else {
        OneMoreConflict(before, last);
      }
    }
  }

  lemma OneMoreConflict(before: seq<ApiError>, last: ApiError)
    ensures AllConflicts(before + [last]) <==> AllConflicts(before) && last == Conflict
  {
    var all := before + [last];
    assert all[|before|] == last && forall i :: 0 <= i < |before| ==> all[i] == before[i];
  }

  lemma ErrorsAnswered(errors: seq<ManagerError>)
    ensures AllConflicts(ErrorsIn(errors)) <==> forall i :: 0 <= i < |errors| ==> errors[i].error == Conflict
    ensures ErrorsIn(errors) == [] <==> errors == []
  {
    var answers := ErrorsIn(errors);
    assert forall i :: 0 <= i < |errors| ==> answers[i] == errors[i].error;
  }

  /** A sync is done exactly when no call met a fault. It is retried quietly exactly when the status sync ended at a
      conflict, whatever the managers met, or met no fault and the managers met conflicts and nothing else. */
  lemma VerdictIff(fault: nat -> Fault, from: nat, until: nat, trace: SyncTrace)
    requires CallsTell(fault, from, until, trace) && !trace.panicked
    ensures VerdictOf(trace) == Done <==> Faultless(fault, from, until)
    ensures VerdictOf(trace) == Requeue <==>
      || (Faultless(fault, trace.managed, until) && OnlyConflicted(fault, from, trace.managed))
      || (!Faultless(fault, trace.managed, until) && fault(until - 1) == Conflicted)
  {
    AnswersIff(fault, from, trace.managed);
    AnswersConflicts(fault, from, trace.managed);
    ErrorsAnswered(trace.errors);
    assert trace.statusError.None? <==> Faultless(fault, trace.managed, until);
    assert Faultless(fault, from, until) <==>
      Faultless(fault, from, trace.managed) && Faultless(fault, trace.managed, until);
  }

  // ---------------------------------------------------------------- the panic

  /** For a zone that ends in a dot, only the bare zone as hostname makes the operator panic. */
  lemma PanicsIff(capp: Capp, env: Env, bare: string)
    requires env.config.dns.zone == bare + "."
    ensures Panics(CNAMERecord, capp, env) <==> capp.spec.route.hostname != "" && capp.spec.route.hostname == bare
  {
    RecordNamePanicsIff(capp.spec.route.hostname, bare);
  }

  lemma NotReached(i: nat, before: Tables, after: Tables, errors: seq<ManagerError>, capp: Capp, env: Env, kind: Kind)
    requires RunTo(i, before, after, errors, capp, env) && kind != Secret && Rank(kind) >= i
    ensures after(kind) == before(kind)
  {
    assert ORDER[Rank(kind)] == kind;
  }

  lemma ReachedAndPassed(i: nat, before: Tables, after: Tables, errors: seq<ManagerError>, capp: Capp, env: Env,
                         kind: Kind)
    requires RunTo(i, before, after, errors, capp, env) && kind != Secret && Rank(kind) < i && !FailedIn(kind, errors)
    ensures after(kind) == Passed(kind, before(kind), before(Secret), capp, env)
  {
    assert OutcomeOf(ORDER[Rank(kind)], before, after, false, capp, env);
  }

  /** The panic comes after Service, volumes, certificate and mapping; record, event sources and the Capp's status are
      then left as they were, on every such pass. */
  lemma PanicStopsPass(before: Tables, capps: map<Id, Capp>, after: Tables, capps': map<Id, Capp>,
                       revisions: seq<KnativeRevision>, capp: Capp, env: Env, now: int,
                       trace: SyncTrace, seen: Observed)
    requires SyncedAs(before, capps, after, capps', revisions, capp, env, now, trace, seen) && trace.panicked
    ensures capps' == capps
    ensures forall kind :: kind in {CNAMERecord, PingSource, KafkaSource} ==> after(kind) == before(kind)
    ensures forall kind :: kind in {Service, NfsPvc, Certificate, DomainMapping} && !FailedIn(kind, trace.errors) ==>
      after(kind) == Passed(kind, before(kind), before(Secret), capp, env)
  {
    StoppedRun(before, after, trace.errors, capp, env);
  }

  lemma StoppedRun(before: Tables, after: Tables, errors: seq<ManagerError>, capp: Capp, env: Env)
    requires RunTo(Rank(CNAMERecord), before, after, errors, capp, env)
    ensures forall kind :: kind in {CNAMERecord, PingSource, KafkaSource} ==> after(kind) == before(kind)
    ensures forall kind :: kind in {Service, NfsPvc, Certificate, DomainMapping} && !FailedIn(kind, errors) ==>
      after(kind) == Passed(kind, before(kind), before(Secret), capp, env)
  {
    forall kind: Kind | kind in {CNAMERecord, PingSource, KafkaSource} ensures after(kind) == before(kind) {
      NotReached(Rank(CNAMERecord), before, after, errors, capp, env, kind);
    }
    forall kind: Kind | kind in {Service, NfsPvc, Certificate, DomainMapping} && !FailedIn(kind, errors)
      ensures after(kind) == Passed(kind, before(kind), before(Secret), capp, env)
    {
      ReachedAndPassed(Rank(CNAMERecord), before, after, errors, capp, env, kind);
    }
  }

  // ---------------------------------------------------------------- deletion

  /** A complete cleanup removes exactly what is found to be the Capp's, but for what garbage collection will see to:
      under deletion, what a Capp of this name owns. Of the secrets it removes those named after the mappings found,
      owned or not. */
  lemma CleanedExactly(before: Tables, after: Tables, capp: Capp)
    requires AllCleaned(before, after, capp)
    ensures forall kind: Kind, id :: kind != Secret ==>
      (id in after(kind) <==> id in before(kind) && !Reaped(kind, id, before(kind)[id], capp))
    ensures forall id :: id in after(Secret) <==>
      id in before(Secret) && !NamedAfterMapping(id, before(DomainMapping), capp)
    ensures forall kind: Kind, id :: id in after(kind) ==> after(kind)[id] == before(kind)[id]
  {
    forall kind: Kind, id | kind != Secret
      ensures id in after(kind) <==> id in before(kind) && !Reaped(kind, id, before(kind)[id], capp)
    {
      DoomedIff(kind, before(kind), capp, id);
    }
    forall id ensures id in TLSSecrets(before(DomainMapping), capp) <==>
      NamedAfterMapping(id, before(DomainMapping), capp)
    {
      TLSSecretsIff(before(DomainMapping), capp, id);
    }
    forall kind: Kind, id | id in after(kind) ensures id in before(kind) && after(kind)[id] == before(kind)[id] {
      if kind != Secret {
        assert after(kind) == before(kind) - Doomed(kind, before(kind), capp);
      }
    }
  }

  /** A finalized Capp has lost the operator's finalizer and nothing else; with its last finalizer it is gone. No other
      Capp changes. */
  lemma FinalizedLosesOne(before: Tables, capps: map<Id, Capp>, after: Tables, capps': map<Id, Capp>, id: Id)
    requires FinalizedAs(before, capps, after, capps', id)
    ensures var capp := capps[id];
      capps' == if capp.finalizers == {"dana.io/capp-cleanup"} then capps - {id}
                else capps[id := capp.(finalizers := capp.finalizers - {"dana.io/capp-cleanup"})]
  {
  }

  /** A reconcile that is done has given the Capp the operator's finalizer and a status and changed nothing else of it,
      nor of any other Capp. */
  lemma DoneChangesStatus(before: Tables, capps: map<Id, Capp>, after: Tables, capps': map<Id, Capp>,
                          revisions: seq<KnativeRevision>, id: Id, env: Env, now: int, trace: SyncTrace, seen: Observed)
    requires DoneAs(before, capps, after, capps', revisions, id, env, now, trace, seen)
    ensures capps'.Keys == capps.Keys && forall other :: other in capps && other != id ==> capps'[other] == capps[other]
    ensures capps'[id] == capps[id].(finalizers := capps[id].finalizers + {"dana.io/capp-cleanup"},
                                     status := capps'[id].status)
  {
    OnlyStatusAndFinalizer(capps, capps', id);
  }

  lemma OnlyStatusAndFinalizer(capps: map<Id, Capp>, capps': map<Id, Capp>, id: Id)
    requires id in capps && StatusOnly(capps[id := WithFinalizer(capps[id])], capps', id)
    ensures capps'.Keys == capps.Keys && forall other :: other in capps && other != id ==> capps'[other] == capps[other]
    ensures capps'[id] == capps[id].(finalizers := capps[id].finalizers + {"dana.io/capp-cleanup"},
                                     status := capps'[id].status)
  {
  }

  ghost predicate Reaped(kind: Kind, id: Id, o: Obj, capp: Capp) {
    Found(kind, id, o.labels, capp) && !(capp.deleting && NamedOwner(o.owners, capp))
  }

  // ---------------------------------------------------------------- Ready

  /** A source that is the Capp's after a pass is of a kind the Capp asks for. */
  lemma FoundIsAskedFor(before: Tables, after: Tables, capp: Capp, env: Env, kind: Kind, id: Id)
    requires PassBy(before, after, capp, env) && !capp.deleting && FoundSource(kind, after, capp, id)
    ensures IsRequired(kind, capp)
  {
    AsksForIff(kind, capp);
    if !IsRequired(kind, capp) {
      UnwantedGone(kind, before, after, capp, env);
      assert false;
    }
  }

  lemma EventsReady(before: Tables, after: Tables, capp: Capp, env: Env, seen: seq<EventSourceStatus>, now: int)
    requires PassBy(before, after, capp, env) && !capp.deleting && EventsSeen(seen, after, capp, now)
    requires SourcesInService(PingSource, after(PingSource), capp)
    requires SourcesInService(KafkaSource, after(KafkaSource), capp)
    ensures forall e :: e in seen ==> e.condition.status == "True"
  {
    SeenEventsTold(seen, seen, after, capp, now);
    forall e | e in seen ensures e.condition.status == "True" {
      EventReady(before, after, capp, env, e);
    }
  }

  lemma EventReady(before: Tables, after: Tables, capp: Capp, env: Env, e: EventSourceStatus)
    requires PassBy(before, after, capp, env) && !capp.deleting && TellsOfSource(e, after, capp)
    requires SourcesInService(PingSource, after(PingSource), capp)
    requires SourcesInService(KafkaSource, after(KafkaSource), capp)
    ensures e.condition.status == "True"
  {
    var kind, id :| FoundSource(kind, after, capp, id) && EventTells(e, kind, after, id);
    FoundIsAskedFor(before, after, capp, env, kind, id);
    FoundSaysReady(after, capp, kind, id);
    ReadinessToldReady(e.condition, after(kind)[id].status.conditions);
  }

  lemma FoundSaysReady(tables: Tables, capp: Capp, kind: Kind, id: Id)
    requires FoundSource(kind, tables, capp, id) && IsRequired(kind, capp)
    requires SourcesInService(kind, tables(kind), capp)
    ensures SaysReady(tables(kind)[id].status.conditions)
  {
    SelectsFound(kind, id, tables(kind)[id].labels, capp);
    assert id in Labelled(kind, tables(kind), capp);
    SaysReadyIff(tables(kind)[id].status.conditions);
  }

  lemma ReadinessToldReady(c: Condition, conditions: seq<Condition>)
    requires ReadinessTold(c, conditions) && SaysReady(conditions)
    ensures c.status == "True"
  {
    FindReadyAt(conditions);
  }

  /** When a reconcile is done, the Capp says Ready exactly when all it asks for is in service. */
  lemma ReadyIffInService(before: Tables, capps: map<Id, Capp>, after: Tables, capps': map<Id, Capp>,
                          revisions: seq<KnativeRevision>, id: Id, env: Env, now: int, trace: SyncTrace, seen: Observed)
    requires DoneAs(before, capps, after, capps', revisions, id, env, now, trace, seen)
    ensures id in capps'
    ensures SaysReady(capps'[id].status.conditions) <==> InService(after, capps[id], env)
  {
    DoneLeaves(before, capps, after, capps', revisions, id, env, now, trace, seen);
    if SaysReady(capps'[id].status.conditions) {
      DoneAndReadyIsInService(before, capps, after, capps', revisions, id, env, now, trace, seen);
    }
    if InService(after, capps[id], env) {
      InServiceSaysReady(before, after, revisions, capps[id], env, now, capps[id].status, capps'[id].status, seen);
    }
  }

  lemma InServiceSaysReady(before: Tables, after: Tables, revisions: seq<KnativeRevision>, capp: Capp, env: Env,
                           now: int, prior: CappStatus, stored: CappStatus, seen: Observed)
    requires PassBy(before, after, capp, env) && !capp.deleting && Observes(seen, after, revisions, capp, env, now)
    requires Strip(stored) == Strip(NextStatus(prior, seen, capp, [], now)) && InService(after, capp, env)
    ensures SaysReady(stored.conditions)
  {
    EventsReady(before, after, capp, env, seen.events, now);
    InServiceIsSeen(after, revisions, capp, env, now, seen);
    SaysReadyIffSeen(prior, stored, seen, capp, now);
  }

  lemma InServiceIsSeen(tables: Tables, revisions: seq<KnativeRevision>, capp: Capp, env: Env, now: int, seen: Observed)
    requires Observes(seen, tables, revisions, capp, env, now) && InService(tables, capp, env)
    requires forall e :: e in seen.events ==> e.condition.status == "True"
    ensures SeenServing(seen, capp)
  {
    VolumesSeenBound(tables(NfsPvc), capp);
  }

  lemma VolumesSeenBound(t: Table, capp: Capp)
    requires VolumesUp(t, capp)
    ensures forall v :: v in VolumesSeen(t, capp, capp.spec.volumes) ==> v.pvPhase == "Bound" && v.pvcPhase == "Bound"
  {
    var volumes := capp.spec.volumes;
    forall i | 0 <= i < |volumes|
      ensures var v := VolumesSeen(t, capp, volumes)[i]; v.pvPhase == "Bound" && v.pvcPhase == "Bound"
    {
      assert volumes[i] in volumes;
    }
  }
}
