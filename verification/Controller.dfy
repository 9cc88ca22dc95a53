/** The Capp reconciler: deletion with the finalizer, the pass over all managers, the status, and the
    classification of errors (internal/kinds/capp/controllers). */
module Controller {
  import opened Objects
  import opened Cluster
  import opened Desired
  import opened Managers
  import opened Convergence
  import opened StatusSync

  const FINALIZER := "dana.io/capp-cleanup"

  // ---------------------------------------------------------------- the finalizer

  /** Every manager from the last down to the i-th has cleaned up, the others have not started. */
  ghost predicate CleanedFrom(before: Tables, after: Tables, capp: Capp, i: nat) {
    && (forall j :: i <= j < |ORDER| ==> after(ORDER[j]) == before(ORDER[j]) - Doomed(ORDER[j], before(ORDER[j]), capp))
    && (forall j :: 0 <= j < i && j < |ORDER| ==> after(ORDER[j]) == before(ORDER[j]))
    && after(Secret) == if i <= Rank(DomainMapping) then before(Secret) - TLSSecrets(before(DomainMapping), capp)
                        else before(Secret)
  }

  ghost predicate AllCleaned(before: Tables, after: Tables, capp: Capp) {
    && (forall kind: Kind :: kind != Secret ==> after(kind) == before(kind) - Doomed(kind, before(kind), capp))
    && after(Secret) == before(Secret) - TLSSecrets(before(DomainMapping), capp)
  }

  /** The i-th manager failed part of the way; those after it are done, those before it untouched. */
  ghost predicate CleanUpStopped(before: Tables, after: Tables, capp: Capp, i: nat) {
    && i < |ORDER|
    && (forall j :: i < j < |ORDER| ==> after(ORDER[j]) == before(ORDER[j]) - Doomed(ORDER[j], before(ORDER[j]), capp))
    && (forall j :: 0 <= j < i ==> after(ORDER[j]) == before(ORDER[j]))
    && Shrunk(before(ORDER[i]), after(ORDER[i]), Doomed(ORDER[i], before(ORDER[i]), capp))
    && Shrunk(before(Secret), after(Secret), TLSSecrets(before(DomainMapping), capp))
    && (i > Rank(DomainMapping) ==> after(Secret) == before(Secret))
  }

  lemma CleanedFromAll(before: Tables, after: Tables, capp: Capp)
    requires CleanedFrom(before, after, capp, 0)
    ensures AllCleaned(before, after, capp)
  {
    forall kind: Kind | kind != Secret ensures after(kind) == before(kind) - Doomed(kind, before(kind), capp) {
      assert ORDER[Rank(kind)] == kind;
    }
  }

  lemma CleanedOneMore(before: Tables, mid: Tables, after: Tables, capp: Capp, i: nat)
    requires i < |ORDER| && CleanedFrom(before, mid, capp, i + 1) && Receded(ORDER[i], mid, after, capp)
    ensures CleanUpStopped(before, after, capp, i)
    ensures CleanedBy(ORDER[i], mid, after, capp) ==> CleanedFrom(before, after, capp, i)
  {
    assert forall j :: 0 <= j < |ORDER| ==> Rank(ORDER[j]) == j;
    assert ORDER[i] == DomainMapping <==> i == Rank(DomainMapping);
    forall j | i < j < |ORDER|
      ensures after(ORDER[j]) == before(ORDER[j]) - Doomed(ORDER[j], before(ORDER[j]), capp)
    {
      assert after(ORDER[j]) == mid(ORDER[j]);
    }
    forall j | 0 <= j < i ensures after(ORDER[j]) == before(ORDER[j]) {
      assert after(ORDER[j]) == mid(ORDER[j]);
    }
  }

  method FinalizeCapp(api: Api, capp: Capp) returns (err: Option<ApiError>)
    modifies api`calls, api`writes, api`tables
    ensures err.None? ==> AllCleaned(old(api.tables), api.tables, capp)
    ensures err.Some? ==> exists i :: CleanUpStopped(old(api.tables), api.tables, capp, i)
    ensures Ended(api.fault, old(api.calls), api.calls, err)
  {
    ghost var before := api.tables;
    var i := |ORDER|;
    while 0 < i
      invariant 0 <= i <= |ORDER|
      invariant CleanedFrom(before, api.tables, capp, i)
      invariant Ended(api.fault, old(api.calls), api.calls, None)
    {
      i := i - 1;
      ghost var mid, made := api.tables, api.calls;
      err := CleanUp(api, ORDER[i], capp);
      CleanedOneMore(before, mid, api.tables, capp, i);
      EndedThen(api.fault, old(api.calls), made, api.calls, err);
      if err.Some? {
        return;
      }
    }
    CleanedFromAll(before, api.tables, capp);
    err := None;
  }

  function WithoutFinalizer(capp: Capp): Capp {
    capp.(finalizers := capp.finalizers - {FINALIZER})
  }

  function WithFinalizer(capp: Capp): Capp {
    capp.(finalizers := capp.finalizers + {FINALIZER})
  }

  /** What a pass over a Capp under deletion can do: stop with the finalizer in place, or clean up
      completely and then, at best, remove the finalizer. */
  ghost predicate Finalizing(before: Tables, capps: map<Id, Capp>, after: Tables, capps': map<Id, Capp>, capp: Capp) {
    && capp.id in capps && capp == capps[capp.id] && capp.deleting && FINALIZER in capp.finalizers
    && (|| (capps' == capps && exists i :: CleanUpStopped(before, after, capp, i))
        || (AllCleaned(before, after, capp)
            && (capps' == capps || capps' == CappStored(capps, WithoutFinalizer(capp)))))
  }

  /** `deleted` tells whether the Capp was under deletion with the finalizer, and cleaned up. */
  method HandleResourceDeletion(api: Api, capp: Capp) returns (deleted: bool, err: Option<ApiError>)
    requires capp.id in api.capps && api.capps[capp.id] == capp
    modifies api`calls, api`writes, api`tables, api`capps
    ensures capp.deleting && FINALIZER in capp.finalizers ==>
      Finalizing(old(api.tables), old(api.capps), api.tables, api.capps, capp)
    ensures !(capp.deleting && FINALIZER in capp.finalizers) ==>
      !deleted && err.None? && api.tables == old(api.tables) && api.capps == old(api.capps)
        && api.calls == old(api.calls)
        && api.writes == old(api.writes)
    ensures capp.deleting && FINALIZER in capp.finalizers && err.None? ==>
      && deleted && AllCleaned(old(api.tables), api.tables, capp)
      && api.capps == CappStored(old(api.capps), WithoutFinalizer(capp))
    ensures Ended(api.fault, old(api.calls), api.calls, err)
  {
    if capp.deleting {
      if FINALIZER in capp.finalizers {
        err := FinalizeCapp(api, capp);
        if err.Some? {
          return false, err;
        }
        ghost var made := api.calls;
        EndedCall(api.fault, made);
        err := api.UpdateCapp(WithoutFinalizer(capp));
        EndedThen(api.fault, old(api.calls), made, api.calls, err);
        return true, err;
      }
    }
    return false, None;
  }

  /** Whether storing the finalizer takes a call. */
  function CallsToAttach(capp: Capp): nat {
    if FINALIZER in capp.finalizers then 0 else 1
  }

  /** Under deletion without the finalizer: too late to attach it. */
  predicate Unattachable(capp: Capp) {
    capp.deleting && FINALIZER !in capp.finalizers
  }

  method EnsureFinalizer(api: Api, capp: Capp) returns (err: Option<ApiError>)
    requires capp.id in api.capps && api.capps[capp.id] == capp
    modifies api`calls, api`capps
    ensures api.calls == old(api.calls) + CallsToAttach(capp)
    ensures err.None? ==> !Unattachable(capp) && Faultless(api.fault, old(api.calls), api.calls)
    ensures err.Some? ==> Unattachable(capp) || !Faultless(api.fault, old(api.calls), api.calls)
    ensures err.None? ==> api.capps == old(api.capps)[capp.id := WithFinalizer(capp)]
    ensures err.Some? ==>
      || api.capps == old(api.capps)
      || (!capp.deleting && api.capps == old(api.capps)[capp.id := WithFinalizer(capp)])
  {
    if FINALIZER !in capp.finalizers {
      err := api.UpdateCapp(WithFinalizer(capp));
    } else {
      assert WithFinalizer(capp) == capp;
      err := None;
    }
  }

  // ---------------------------------------------------------------- the pass over the managers

  lemma SecretsIrrelevant(kind: Kind, t: Table, s1: Table, s2: Table, capp: Capp, env: Env)
    requires kind != DomainMapping
    ensures Children(kind, s1, capp, env) == Children(kind, s2, capp, env)
  {
  }

  predicate FailedIn(kind: Kind, errors: seq<ManagerError>) {
    exists e :: e in errors && e.kind == kind
  }

  /** The outcome of one manager, stated on the tables from before the whole pass: what the other
      managers did makes no difference to it. */
  ghost predicate OutcomeOf(kind: Kind, before: Tables, after: Tables, failed: bool, capp: Capp, env: Env) {
    if failed then ReachedTable(kind, before(kind), after(kind), before(Secret), capp, env)
    else after(kind) == Passed(kind, before(kind), before(Secret), capp, env)
  }

  ghost predicate SecretOutcome(before: Tables, after: Tables, failed: bool, capp: Capp) {
    if IsRequired(DomainMapping, capp) then after(Secret) == before(Secret)
    else if failed then Shrunk(before(Secret), after(Secret), TLSSecrets(before(DomainMapping), capp))
    else after(Secret) == before(Secret) - TLSSecrets(before(DomainMapping), capp)
  }

  /** Managers before the i-th have run, with these errors; the others have not. */
  ghost predicate RunTo(i: nat, before: Tables, after: Tables, errors: seq<ManagerError>, capp: Capp, env: Env) {
    && i <= |ORDER|
    && (forall j :: 0 <= j < i ==> OutcomeOf(ORDER[j], before, after, FailedIn(ORDER[j], errors), capp, env))
    && (forall j :: i <= j < |ORDER| ==> after(ORDER[j]) == before(ORDER[j]))
    && (if i <= Rank(DomainMapping) then after(Secret) == before(Secret)
        else SecretOutcome(before, after, FailedIn(DomainMapping, errors), capp))
    && (forall e :: e in errors ==> e.kind != Secret && Rank(e.kind) < i && e.error != Panic)
  }

  function Collected(errors: seq<ManagerError>, kind: Kind, err: Option<ApiError>): seq<ManagerError> {
    if err.None? then errors else errors + [ManagerError(kind, err.value)]
  }

  function ErrorsIn(errors: seq<ManagerError>): (r: seq<ApiError>)
    ensures |r| == |errors|
  {
    seq(|errors|, i requires 0 <= i < |errors| => errors[i].error)
  }

  lemma {:induction false} CollectedAnswers(fault: nat -> Fault, from: nat, mid: nat, until: nat,
                                            errors: seq<ManagerError>, kind: Kind, err: Option<ApiError>)
    requires from <= mid && ErrorsIn(errors) == Answers(fault, from, mid) && Ended(fault, mid, until, err)
    ensures ErrorsIn(Collected(errors, kind, err)) == Answers(fault, from, until)
  {
    AnswersEnded(fault, from, mid, until, err);
    if err.Some? {
      assert ErrorsIn(errors + [ManagerError(kind, err.value)]) == ErrorsIn(errors) + [err.value];
    }
  }

  lemma CollectedOneMore(errors: seq<ManagerError>, kind: Kind, err: Option<ApiError>)
    ensures forall k: Kind :: FailedIn(k, Collected(errors, kind, err)) <==>
      FailedIn(k, errors) || (k == kind && err.Some?)
  {
    if err.Some? {
      assert ManagerError(kind, err.value) in Collected(errors, kind, err);
    }
  }

  lemma RunOneMore(i: nat, before: Tables, mid: Tables, after: Tables, errors: seq<ManagerError>, err: Option<ApiError>,
                   capp: Capp, env: Env)
    requires i < |ORDER| && RunTo(i, before, mid, errors, capp, env) && err != Some(Panic)
    requires if err.None? then AppliedBy(ORDER[i], mid, after, capp, env) else Reached(ORDER[i], mid, after, capp, env)
    ensures RunTo(i + 1, before, after, Collected(errors, ORDER[i], err), capp, env)
  {
    var kind, collected := ORDER[i], Collected(errors, ORDER[i], err);
    assert Rank(kind) == i && !FailedIn(kind, errors);
    CollectedOneMore(errors, kind, err);
    OtherTablesKept(i, mid, after, err.Some?, capp, env);
    forall j | 0 <= j < i ensures OutcomeOf(ORDER[j], before, after, FailedIn(ORDER[j], collected), capp, env) {
      assert after(ORDER[j]) == mid(ORDER[j])
        && OutcomeOf(ORDER[j], before, mid, FailedIn(ORDER[j], errors), capp, env);
    }
    OutcomeHere(i, before, mid, after, err.Some?, capp, env);
  }

  lemma OtherTablesKept(i: nat, mid: Tables, after: Tables, failed: bool, capp: Capp, env: Env)
    requires i < |ORDER|
    requires if failed then Reached(ORDER[i], mid, after, capp, env) else AppliedBy(ORDER[i], mid, after, capp, env)
    ensures forall j :: 0 <= j < |ORDER| && j != i ==> after(ORDER[j]) == mid(ORDER[j]) && ORDER[j] != ORDER[i]
  {
    forall j | 0 <= j < |ORDER| && j != i ensures after(ORDER[j]) == mid(ORDER[j]) && ORDER[j] != ORDER[i] {
      assert Rank(ORDER[j]) == j && Rank(ORDER[i]) == i;
    }
  }

  /** The manager that ran found its own table as it was before the pass. */
  lemma OutcomeHere(i: nat, before: Tables, mid: Tables, after: Tables, failed: bool, capp: Capp, env: Env)
    requires i < |ORDER| && mid(ORDER[i]) == before(ORDER[i])
    requires i <= Rank(DomainMapping) ==> mid(Secret) == before(Secret)
    requires if failed then Reached(ORDER[i], mid, after, capp, env) else AppliedBy(ORDER[i], mid, after, capp, env)
    ensures OutcomeOf(ORDER[i], before, after, failed, capp, env)
    ensures if ORDER[i] == DomainMapping then SecretOutcome(before, after, failed, capp)
      else after(Secret) == mid(Secret)
  {
    if ORDER[i] != DomainMapping {
      SecretsIrrelevant(ORDER[i], mid(ORDER[i]), mid(Secret), before(Secret), capp, env);
    } else {
      assert Rank(DomainMapping) == i;
    }
  }

  predicate QuietTo(i: nat, tables: Tables, capp: Capp, env: Env)
    requires i <= |ORDER|
  {
    forall j :: 0 <= j < i ==> Quiet(ORDER[j], tables(ORDER[j]), tables(Secret), capp, env)
  }

  /** How far a pass over the managers has got, after the calls from `from` to `until` and this many writes:
      the errors are the answers of the failed calls, and the writes tell whether all were quiet. */
  ghost predicate Managed(i: nat, fault: nat -> Fault, from: nat, until: nat, written: int, before: Tables,
                          after: Tables, errors: seq<ManagerError>, capp: Capp, env: Env) {
    && RunTo(i, before, after, errors, capp, env)
    && from <= until && ErrorsIn(errors) == Answers(fault, from, until)
    && 0 <= written && (errors == [] ==> (written == 0 <==> QuietTo(i, before, capp, env)))
  }

  lemma ManagedNone(fault: nat -> Fault, from: nat, tables: Tables, capp: Capp, env: Env)
    ensures Managed(0, fault, from, from, 0, tables, tables, [], capp, env)
  {
  }

  lemma ManagedAll(fault: nat -> Fault, from: nat, until: nat, written: int, before: Tables, after: Tables,
                   errors: seq<ManagerError>, capp: Capp, env: Env)
    requires Managed(|ORDER|, fault, from, until, written, before, after, errors, capp, env)
    ensures errors == [] ==> (written == 0 <==> QuietAll(before, capp, env))
  {
    QuietToAll(before, capp, env);
  }

  lemma ManagedOneMore(i: nat, fault: nat -> Fault, from: nat, mid: nat, until: nat, written: int, more: int,
                       before: Tables, between: Tables, after: Tables, errors: seq<ManagerError>, err: Option<ApiError>,
                       capp: Capp, env: Env)
    requires i < |ORDER| && Managed(i, fault, from, mid, written, before, between, errors, capp, env)
    requires if err.None? then AppliedBy(ORDER[i], between, after, capp, env)
      else Reached(ORDER[i], between, after, capp, env)
    requires Ended(fault, mid, until, err) && more >= 0
    requires err.None? ==> (more == 0 <==> Quiet(ORDER[i], between(ORDER[i]), between(Secret), capp, env))
    ensures Managed(i + 1, fault, from, until, written + more, before, after, Collected(errors, ORDER[i], err), capp,
                    env)
  {
    RunOneMore(i, before, between, after, errors, err, capp, env);
    QuietOneMore(i, before, between, errors, capp, env);
    CollectedAnswers(fault, from, mid, until, errors, ORDER[i], err);
  }

  /** The i-th manager, in the middle of a pass. */
  method RunManager(api: Api, i: nat, capp: Capp, env: Env, ghost errors: seq<ManagerError>, ghost before: Tables,
                    ghost from: nat, ghost writes: nat)
    returns (err: Option<ApiError>)
    requires i < |ORDER|
    requires Managed(i, api.fault, from, api.calls, api.writes - writes, before, api.tables, errors, capp, env)
    modifies api`calls, api`writes, api`tables
    ensures err == Some(Panic) <==> i == Rank(CNAMERecord) && Panics(CNAMERecord, capp, env)
    ensures err == Some(Panic) ==> api.tables == old(api.tables) && api.calls == old(api.calls)
    ensures err != Some(Panic) ==>
      && Ended(api.fault, old(api.calls), api.calls, err)
      && Managed(i + 1, api.fault, from, api.calls, api.writes - writes, before, api.tables,
                 Collected(errors, ORDER[i], err), capp, env)
  {
    ghost var between := api.tables;
    assert Rank(ORDER[i]) == i;
    err := Manage(api, ORDER[i], capp, env);
    if err != Some(Panic) {
      ManagedOneMore(i, api.fault, from, old(api.calls), api.calls, old(api.writes) - writes,
                     api.writes - old(api.writes), before, between, api.tables, errors, err, capp, env);
    }
  }

  /** Runs every manager in order, whatever the earlier ones returned, and collects the errors. A panic
      ends the pass. */
  method ManageAll(api: Api, capp: Capp, env: Env) returns (panicked: bool, errors: seq<ManagerError>)
    modifies api`calls, api`writes, api`tables
    ensures panicked <==> Panics(CNAMERecord, capp, env)
    ensures RunTo(if panicked then Rank(CNAMERecord) else |ORDER|, old(api.tables), api.tables, errors, capp, env)
    ensures old(api.calls) <= api.calls && ErrorsIn(errors) == Answers(api.fault, old(api.calls), api.calls)
    ensures !panicked && errors == [] ==> (api.writes == old(api.writes) <==> QuietAll(old(api.tables), capp, env))
  {
    ghost var written;
    panicked, errors, written := RunManagers(api, capp, env);
    if !panicked {
      ManagedAll(api.fault, old(api.calls), api.calls, written, old(api.tables), api.tables, errors, capp, env);
    }
  }

  method RunManagers(api: Api, capp: Capp, env: Env)
    returns (panicked: bool, errors: seq<ManagerError>, ghost written: int)
    modifies api`calls, api`writes, api`tables
    ensures panicked <==> Panics(CNAMERecord, capp, env)
    ensures Managed(if panicked then Rank(CNAMERecord) else |ORDER|, api.fault, old(api.calls), api.calls,
                    written, old(api.tables), api.tables, errors, capp, env)
    ensures !panicked ==> written == api.writes - old(api.writes)
  {
    ghost var before, from, writes := api.tables, api.calls, api.writes;
    panicked, errors, written := false, [], 0;
    ManagedNone(api.fault, from, before, capp, env);
    var i := 0;
    while i < |ORDER|
      invariant 0 <= i <= |ORDER|
      invariant i > Rank(CNAMERecord) ==> !Panics(CNAMERecord, capp, env)
      invariant Managed(i, api.fault, from, api.calls, written, before, api.tables, errors, capp, env)
      invariant !panicked && written == api.writes - writes
    {
      var err := RunManager(api, i, capp, env, errors, before, from, writes);
      if err == Some(Panic) {
        return true, errors, written;
      }
      errors, written, i := Collected(errors, ORDER[i], err), api.writes - writes, i + 1;
    }
  }

  /** Whether a manager has something to write does not depend on what ran before it in the pass. */
  lemma QuietOneMore(i: nat, before: Tables, mid: Tables, errors: seq<ManagerError>, capp: Capp, env: Env)
    requires i < |ORDER| && RunTo(i, before, mid, errors, capp, env)
    ensures QuietTo(i + 1, before, capp, env) <==>
      QuietTo(i, before, capp, env) && Quiet(ORDER[i], mid(ORDER[i]), mid(Secret), capp, env)
  {
    if ORDER[i] != DomainMapping {
      SecretsIrrelevant(ORDER[i], mid(ORDER[i]), mid(Secret), before(Secret), capp, env);
    } else {
      assert i == Rank(DomainMapping);
    }
  }

  lemma RunWithoutErrors(before: Tables, after: Tables, capp: Capp, env: Env)
    requires RunTo(|ORDER|, before, after, [], capp, env)
    ensures PassBy(before, after, capp, env)
  {
    forall kind: Kind | kind != Secret
      ensures after(kind) == Passed(kind, before(kind), before(Secret), capp, env)
    {
      assert OutcomeOf(ORDER[Rank(kind)], before, after, false, capp, env);
    }
  }

  lemma QuietToAll(tables: Tables, capp: Capp, env: Env)
    ensures QuietTo(|ORDER|, tables, capp, env) <==> QuietAll(tables, capp, env)
  {
    forall kind: Kind | kind != Secret && QuietTo(|ORDER|, tables, capp, env)
      ensures Quiet(kind, tables(kind), tables(Secret), capp, env)
    {
      assert ORDER[Rank(kind)] == kind;
    }
  }

  /** The error SyncApplication returns to Reconcile. */
  datatype SyncError = Single(error: ApiError) | Aggregate(errors: seq<ManagerError>)

  /** What one sync went through. The managers made the calls before the `managed`-th, the status sync the
      others. */
  datatype SyncTrace = SyncTrace(panicked: bool, statusError: Option<ApiError>, errors: seq<ManagerError>, managed: nat)

  /** The error of the status sync hides the managers' errors. */
  function ErrorOfTrace(trace: SyncTrace): Option<SyncError> {
    if trace.statusError.Some? then Some(Single(trace.statusError.value))
    else if trace.errors == [] then None else Some(Aggregate(trace.errors))
  }

  /** The errors of the managers are the answers of their failed calls, one by one; the error of the status
      sync is the answer of its only failed call. */
  ghost predicate CallsTell(fault: nat -> Fault, from: nat, until: nat, trace: SyncTrace) {
    && from <= trace.managed && ErrorsIn(trace.errors) == Answers(fault, from, trace.managed)
    && Ended(fault, trace.managed, until, trace.statusError)
  }

  /** What a sync with this trace did: every manager ran, and without an error of its own reached its result;
      then the status was derived from what was to be seen. */
  ghost predicate SyncedAs(before: Tables, capps: map<Id, Capp>, after: Tables, capps': map<Id, Capp>,
                           revisions: seq<KnativeRevision>, capp: Capp, env: Env, now: int,
                           trace: SyncTrace, seen: Observed) {
    && (trace.panicked <==> Panics(CNAMERecord, capp, env))
    && RunTo(if trace.panicked then Rank(CNAMERecord) else |ORDER|, before, after, trace.errors, capp, env)
    && capp.id in capps && StatusOnly(capps, capps', capp.id) && (trace.panicked ==> capps' == capps)
    && (!trace.panicked && trace.statusError.None? ==>
          && Observes(seen, after, revisions, capp, env, now)
          && StatusSynced(capps[capp.id].status, capps'[capp.id].status, seen, capp, trace.errors, now))
  }

  /** All managers, then the status. An error of the status sync takes the place of the managers'. */
  method SyncApplication(api: Api, capp: Capp, env: Env, now: int)
    returns (panicked: bool, err: Option<SyncError>, ghost trace: SyncTrace, ghost seen: Observed)
    requires capp.id in api.capps
    modifies api`calls, api`writes, api`tables, api`capps
    ensures trace.panicked == panicked && (!panicked ==> err == ErrorOfTrace(trace))
    ensures CallsTell(api.fault, old(api.calls), api.calls, trace)
    ensures SyncedAs(old(api.tables), old(api.capps), api.tables, api.capps, api.revisions, capp, env, now, trace, seen)
    ensures !panicked && trace.errors == [] ==>
      (api.writes == old(api.writes) <==> QuietAll(old(api.tables), capp, env))
  {
    var errors;
    panicked, errors := ManageAll(api, capp, env);
    trace := SyncTrace(panicked, None, errors, api.calls);
    seen := Observed(NO_STATUS, [], RouteStatus(NO_STATUS, NO_STATUS, NO_STATUS), [], []);
    if panicked {
      return true, None, trace, seen;
    }
    var statusError;
    statusError, seen := SyncStatus(api, capp, env, errors, now);
    trace := trace.(statusError := statusError);
    if statusError.Some? {
      return false, Some(Single(statusError.value)), trace, seen;
    }
    err := if errors == [] then None else Some(Aggregate(errors));
  }

  /** A conflict, or an aggregate of nothing but conflicts. */
  method HasConflictError(err: SyncError) returns (conflict: bool)
    ensures conflict <==>
      match err
      case Single(e) => e == Conflict
      case Aggregate(es) => es != [] && forall i :: 0 <= i < |es| ==> es[i].error == Conflict
  {
    if err.Single? {
      return err.error == Conflict;
    }
    var errs := err.errors;
    if |errs| == 0 {
      return false;
    }
    for i := 0 to |errs|
      invariant forall k :: 0 <= k < i ==> errs[k].error == Conflict
    {
      if errs[i].error != Conflict {
        return false;
      }
    }
    return true;
  }

  // ---------------------------------------------------------------- reconcile

  datatype Verdict = Done | Requeue | Failed

  /** The status sync met a conflict, or it went through and the managers met nothing but conflicts. A
      status conflict thus hides whatever else went wrong. */
  predicate OnlyConflicts(trace: SyncTrace) {
    && !trace.panicked
    && (|| trace.statusError == Some(Conflict)
        || (trace.statusError.None? && trace.errors != []
            && forall i :: 0 <= i < |trace.errors| ==> trace.errors[i].error == Conflict))
  }

  /** What a pass over a live Capp can do: at most store the finalizer, or, with the finalizer stored,
      run the managers and the status. */
  ghost predicate Syncing(before: Tables, capps: map<Id, Capp>, after: Tables, capps': map<Id, Capp>, capp: Capp,
                          env: Env) {
    !capp.deleting && StoredAndSynced(before, capps, after, capps', capp, env)
  }

  ghost predicate StoredAndSynced(before: Tables, capps: map<Id, Capp>, after: Tables, capps': map<Id, Capp>,
                                  capp: Capp, env: Env) {
    && capp.id in capps && capp == capps[capp.id]
    && capps'.Keys == capps.Keys && (forall id :: id in capps && id != capp.id ==> capps'[id] == capps[id])
    && capps'[capp.id] == WithFinalizer(capp).(status := capps'[capp.id].status)
    && (after == before || SyncedBy(before, after, capp, env))
  }

  /** Each table is where its manager got to; TLS secrets go only with unwanted DomainMappings. */
  ghost predicate SyncedBy(before: Tables, after: Tables, capp: Capp, env: Env) {
    && (forall kind: Kind :: kind != Secret ==>
          ReachedTable(kind, before(kind), after(kind), before(Secret), capp, env))
    && Shrunk(before(Secret), after(Secret),
              if IsRequired(DomainMapping, capp) then {} else TLSSecrets(before(DomainMapping), capp))
  }

  lemma {:induction false} UpsertAllIsReached(kind: Kind, t: Table, secrets: Table, capp: Capp, env: Env)
    requires kind != Secret && IsRequired(kind, capp)
    ensures ReachedTable(kind, t, t, secrets, capp, env)
    ensures ReachedTable(kind, t, UpsertAll(t, Ref(capp), Children(kind, secrets, capp, env)), secrets, capp, env)
  {
    var children := Children(kind, secrets, capp, env);
    assert children[..|children|] == children;
    assert UpsertAll(t, Ref(capp), children[..0]) == t;
  }

  lemma SourcesPassed(kind: Kind, t: Table, secrets: Table, capp: Capp, env: Env)
    requires IsSourceKind(kind) && IsRequired(kind, capp)
    ensures ReachedTable(kind, t, Wanted(kind, t, secrets, capp, env), secrets, capp, env)
  {
  }

  lemma RecordPassed(t: Table, secrets: Table, capp: Capp, env: Env)
    requires IsRequired(CNAMERecord, capp)
    ensures ReachedTable(CNAMERecord, t, Wanted(CNAMERecord, t, secrets, capp, env), secrets, capp, env)
  {
    SingleChild(t, Ref(capp), RecordChild(capp, env));
    UpsertAllIsReached(CNAMERecord, t, secrets, capp, env);
  }

  lemma PassedIsReached(kind: Kind, t: Table, secrets: Table, capp: Capp, env: Env)
    requires kind != Secret
    ensures ReachedTable(kind, t, Passed(kind, t, secrets, capp, env), secrets, capp, env)
    ensures ReachedTable(kind, t, t, secrets, capp, env)
  {
    if IsRequired(kind, capp) {
      UpsertAllIsReached(kind, t, secrets, capp, env);
      if kind == CNAMERecord {
        RecordPassed(t, secrets, capp, env);
      } else if IsSourceKind(kind) {
        SourcesPassed(kind, t, secrets, capp, env);
      }
    }
  }

  lemma RunIsSynced(i: nat, before: Tables, after: Tables, errors: seq<ManagerError>, capp: Capp, env: Env)
    requires RunTo(i, before, after, errors, capp, env)
    ensures SyncedBy(before, after, capp, env)
  {
    forall kind: Kind | kind != Secret
      ensures ReachedTable(kind, before(kind), after(kind), before(Secret), capp, env)
    {
      PassedIsReached(kind, before(kind), before(Secret), capp, env);
      var j := Rank(kind);
      assert ORDER[j] == kind;
      if j < i {
        assert OutcomeOf(ORDER[j], before, after, FailedIn(ORDER[j], errors), capp, env);
      }
    }
  }

  /** Everything one call of Reconcile can do to the cluster. */
  ghost predicate PassOutcome(before: Tables, capps: map<Id, Capp>, after: Tables, capps': map<Id, Capp>,
                              id: Id, config: Option<CappConfig>, library: Library) {
    || (after == before && capps' == capps)
    || (id in capps && capps[id].id == id && Finalizing(before, capps, after, capps', capps[id]))
    || (id in capps && capps[id].id == id && config.Some?
        && Syncing(before, capps, after, capps', capps[id], Env(config.value, library)))
  }

  lemma SyncIsStored(before: Tables, capps: map<Id, Capp>, after: Tables, capps': map<Id, Capp>,
                     revisions: seq<KnativeRevision>, capp: Capp, env: Env, now: int, trace: SyncTrace, seen: Observed)
    requires capp.id in capps && capps[capp.id] == capp
    requires SyncedAs(before, capps[capp.id := WithFinalizer(capp)], after, capps', revisions, capp, env, now, trace,
                      seen)
    ensures StoredAndSynced(before, capps, after, capps', capp, env)
  {
    RunIsSynced(if trace.panicked then Rank(CNAMERecord) else |ORDER|, before, after, trace.errors, capp, env);
  }

  /** The verdict on a sync. */
  function VerdictOf(trace: SyncTrace): Verdict {
    if trace.panicked then Failed
    else if OnlyConflicts(trace) then Requeue
    else if trace.statusError.None? && trace.errors == [] then Done else Failed
  }

  /** The part of Reconcile after deletion has been ruled out. Without a trace the finalizer could not be
      stored, and no manager ran. */
  method Sync(api: Api, capp: Capp, env: Env, now: int)
    returns (verdict: Verdict, ghost trace: Option<SyncTrace>, ghost seen: Observed)
    requires capp.id in api.capps && api.capps[capp.id] == capp
    modifies api`calls, api`writes, api`tables, api`capps
    ensures trace.None? ==>
      && verdict == Failed && api.tables == old(api.tables) && api.calls == old(api.calls) + CallsToAttach(capp)
      && (Unattachable(capp) || !Faultless(api.fault, old(api.calls), api.calls))
      && (api.capps == old(api.capps)
          || (!capp.deleting && api.capps == old(api.capps)[capp.id := WithFinalizer(capp)]))
    ensures trace.Some? ==>
      && verdict == VerdictOf(trace.value) && !Unattachable(capp)
      && Faultless(api.fault, old(api.calls), old(api.calls) + CallsToAttach(capp))
    ensures forall t :: trace == Some(t) ==> CallsTell(api.fault, old(api.calls) + CallsToAttach(capp), api.calls, t)
    ensures forall t :: trace == Some(t) ==>
      SyncedAs(old(api.tables), old(api.capps)[capp.id := WithFinalizer(capp)], api.tables, api.capps, api.revisions,
                  capp, env, now, t, seen)
    ensures trace.Some? && !trace.value.panicked && trace.value.errors == [] ==>
      (api.writes == old(api.writes) <==> QuietAll(old(api.tables), capp, env))
    ensures old(api.calls) <= api.calls
  {
    var finalizerError := EnsureFinalizer(api, capp);
    if finalizerError.Some? {
      return Failed, None, Observed(NO_STATUS, [], RouteStatus(NO_STATUS, NO_STATUS, NO_STATUS), [], []);
    }
    ghost var start := api.calls;
    verdict, trace, seen := SyncAndJudge(api, capp, env, now);
    assert start <= trace.value.managed <= api.calls;
  }

  /** The managers and the status, and the verdict on what came of it: there always is a trace. */
  method SyncAndJudge(api: Api, capp: Capp, env: Env, now: int)
    returns (verdict: Verdict, ghost trace: Option<SyncTrace>, ghost seen: Observed)
    requires capp.id in api.capps
    modifies api`calls, api`writes, api`tables, api`capps
    ensures trace.Some? && verdict == VerdictOf(trace.value)
    ensures forall t :: trace == Some(t) ==> CallsTell(api.fault, old(api.calls), api.calls, t)
    ensures forall t :: trace == Some(t) ==>
      SyncedAs(old(api.tables), old(api.capps), api.tables, api.capps, api.revisions, capp, env, now, t, seen)
    ensures !trace.value.panicked && trace.value.errors == [] ==>
      (api.writes == old(api.writes) <==> QuietAll(old(api.tables), capp, env))
  {
    var panicked, err;
    ghost var went;
    panicked, err, went, seen := SyncApplication(api, capp, env, now);
    verdict, trace := Failed, Some(went);
    if !panicked {
      verdict := Judge(err, went);
    }
  }

  /** Conflicts are retried quietly. */
  method Judge(err: Option<SyncError>, ghost trace: SyncTrace) returns (verdict: Verdict)
    requires !trace.panicked && err == ErrorOfTrace(trace)
    ensures verdict == VerdictOf(trace)
  {
    if err.Some? {
      var conflict := HasConflictError(err.value);
      return if conflict then Requeue else Failed;
    }
    return Done;
  }

  /** How a reconcile can end. `Stopped` is at a failed read, cleanup or write of the Capp. */
  datatype Ending = NoCapp | Stopped | Finalized | Synced(trace: SyncTrace, seen: Observed)

  function VerdictOn(ending: Ending): Verdict {
    match ending
    case NoCapp => Done
    case Stopped => Failed
    case Finalized => Done
    case Synced(trace, _) => VerdictOf(trace)
  }

  /** A reconcile only stops short when a call met a fault, there is no configuration, or the Capp can no
      longer take the finalizer. */
  ghost predicate MayStop(fault: nat -> Fault, from: nat, until: nat, capps: map<Id, Capp>, id: Id,
                          config: Option<CappConfig>) {
    !Faultless(fault, from, until) || config.None? || (id in capps && Unattachable(capps[id]))
  }

  /** With this ending, the Capp was cleaned up completely and then lost the finalizer. */
  ghost predicate FinalizedAs(before: Tables, capps: map<Id, Capp>, after: Tables, capps': map<Id, Capp>, id: Id) {
    && id in capps && capps[id].id == id && capps[id].deleting && FINALIZER in capps[id].finalizers
    && AllCleaned(before, after, capps[id]) && capps' == CappStored(capps, WithoutFinalizer(capps[id]))
  }

  /** With this ending, a live Capp got its finalizer, its managers and its status. */
  ghost predicate ReconciledAs(before: Tables, capps: map<Id, Capp>, after: Tables, capps': map<Id, Capp>,
                               revisions: seq<KnativeRevision>, id: Id, env: Env, now: int,
                               trace: SyncTrace, seen: Observed) {
    && id in capps && capps[id].id == id && !capps[id].deleting
    && SyncedAs(before, capps[id := WithFinalizer(capps[id])], after, capps', revisions, capps[id], env, now, trace,
                seen)
  }

  /** What the cluster went through with this ending. */
  ghost predicate EndedAs(ending: Ending, before: Tables, capps: map<Id, Capp>, after: Tables, capps': map<Id, Capp>,
                          revisions: seq<KnativeRevision>, id: Id, config: Option<CappConfig>, library: Library,
                          now: int) {
    match ending
    case NoCapp => id !in capps && after == before && capps' == capps
    case Stopped => StoppedAs(before, capps, after, capps', id, config)
    case Finalized => FinalizedAs(before, capps, after, capps', id)
    case Synced(trace, seen) =>
      config.Some? && ReconciledAs(before, capps, after, capps', revisions, id, Env(config.value, library), now,
                                   trace, seen)
  }

  /** Stopped short: nothing happened, or the Capp of this name is under deletion and its cleanup got part of
      the way, or it is alive and at most got the finalizer. */
  ghost predicate StoppedAs(before: Tables, capps: map<Id, Capp>, after: Tables, capps': map<Id, Capp>, id: Id,
                            config: Option<CappConfig>) {
    || (after == before && capps' == capps)
    || (id in capps && capps[id].id == id && Finalizing(before, capps, after, capps', capps[id]))
    || (id in capps && capps[id].id == id && !capps[id].deleting && config.Some?
        && after == before && capps' == capps[id := WithFinalizer(capps[id])])
  }

  /** What the calls tell about this ending, those before `start` being the reads. Of a live Capp only the reads
      and the write of the finalizer can make it stop. */
  ghost predicate EndedBy(ending: Ending, fault: nat -> Fault, from: nat, start: nat, until: nat,
                          capps: map<Id, Capp>, id: Id, config: Option<CappConfig>) {
    match ending
    case NoCapp => fault(from) == NoFault
    case Stopped =>
      && MayStop(fault, from, until, capps, id, config)
      && (id in capps && !capps[id].deleting ==> until <= start + CallsToAttach(capps[id]))
    case Finalized => Faultless(fault, from, until)
    case Synced(trace, _) =>
      && id in capps && !Unattachable(capps[id]) && Faultless(fault, from, start + CallsToAttach(capps[id]))
      && CallsTell(fault, start + CallsToAttach(capps[id]), until, trace)
  }

  lemma EndedByEarlier(ending: Ending, fault: nat -> Fault, from: nat, start: nat, until: nat, capps: map<Id, Capp>,
                       id: Id, config: Option<CappConfig>)
    requires from <= start && Faultless(fault, from, start)
      && EndedBy(ending, fault, start, start, until, capps, id, config)
    ensures EndedBy(ending, fault, from, start, until, capps, id, config)
  {
  }

  /** The part of Reconcile after the two reads. */
  method Proceed(api: Api, capp: Capp, env: Env, now: int) returns (verdict: Verdict, ghost ending: Ending)
    requires capp.id in api.capps && api.capps[capp.id] == capp
    modifies api`calls, api`writes, api`tables, api`capps
    ensures verdict == VerdictOn(ending) && !ending.NoCapp?
    ensures EndedAs(ending, old(api.tables), old(api.capps), api.tables, api.capps, api.revisions, capp.id,
                    Some(env.config), env.library, now)
    ensures EndedBy(ending, api.fault, old(api.calls), old(api.calls), api.calls, old(api.capps), capp.id,
                    Some(env.config))
    ensures ending.Synced? && verdict == Done ==>
      (api.writes == old(api.writes) <==> QuietAll(old(api.tables), capp, env))
  {
    var deleted, deletionError := HandleResourceDeletion(api, capp);
    if deletionError.Some? {
      assert api.fault(api.calls - 1) != NoFault;
      return Failed, Stopped;
    }
    if deleted {
      return Done, Finalized;
    }
    verdict, ending := SyncToEnd(api, capp, env, now);
    ghost var told := EndedAs(ending, old(api.tables), old(api.capps), api.tables, api.capps, api.revisions, capp.id,
                              Some(env.config), env.library, now)
      && EndedBy(ending, api.fault, old(api.calls), old(api.calls), api.calls, old(api.capps), capp.id,
                 Some(env.config));
  }

  /** The part of Reconcile after the deletion. */
  method SyncToEnd(api: Api, capp: Capp, env: Env, now: int) returns (verdict: Verdict, ghost ending: Ending)
    requires capp.id in api.capps && api.capps[capp.id] == capp && (capp.deleting ==> Unattachable(capp))
    modifies api`calls, api`writes, api`tables, api`capps
    ensures verdict == VerdictOn(ending) && !ending.NoCapp?
    ensures forall e :: e == ending ==>
      EndedAs(e, old(api.tables), old(api.capps), api.tables, api.capps, api.revisions, capp.id, Some(env.config),
              env.library, now)
    ensures forall e :: e == ending ==>
      EndedBy(e, api.fault, old(api.calls), old(api.calls), api.calls, old(api.capps), capp.id, Some(env.config))
    ensures ending.Synced? && verdict == Done ==>
      (api.writes == old(api.writes) <==> QuietAll(old(api.tables), capp, env))
  {
    ghost var trace, seen;
    verdict, trace, seen := Sync(api, capp, env, now);
    ending := EndingOf(trace, seen);
    SyncEnds(api.fault, old(api.calls), api.calls, old(api.tables), old(api.capps), api.tables, api.capps,
             api.revisions, capp, env, now, trace, seen);
  }

  ghost function EndingOf(trace: Option<SyncTrace>, seen: Observed): Ending {
    if trace.Some? then Synced(trace.value, seen) else Stopped
  }

  lemma SyncEnds(fault: nat -> Fault, from: nat, until: nat, before: Tables, capps: map<Id, Capp>, after: Tables,
                 capps': map<Id, Capp>, revisions: seq<KnativeRevision>, capp: Capp, env: Env, now: int,
                 trace: Option<SyncTrace>, seen: Observed)
    requires capp.id in capps && capps[capp.id] == capp && (capp.deleting ==> Unattachable(capp))
    requires trace.None? ==>
      && after == before && until == from + CallsToAttach(capp)
      && (Unattachable(capp) || !Faultless(fault, from, until))
      && (capps' == capps || (!capp.deleting && capps' == capps[capp.id := WithFinalizer(capp)]))
    requires trace.Some? ==> !Unattachable(capp) && Faultless(fault, from, from + CallsToAttach(capp))
    requires forall t :: trace == Some(t) ==> CallsTell(fault, from + CallsToAttach(capp), until, t)
    requires forall t :: trace == Some(t) ==>
      SyncedAs(before, capps[capp.id := WithFinalizer(capp)], after, capps', revisions, capp, env, now, t, seen)
    ensures EndedAs(EndingOf(trace, seen), before, capps, after, capps', revisions, capp.id, Some(env.config),
                    env.library, now)
    ensures EndedBy(EndingOf(trace, seen), fault, from, from, until, capps, capp.id, Some(env.config))
  {
    if trace.Some? {
      assert Env(env.config, env.library) == env;
    }
  }

  method Reconcile(api: Api, id: Id, now: int) returns (verdict: Verdict, ghost ending: Ending)
    requires id in api.capps ==> api.capps[id].id == id
    modifies api`calls, api`writes, api`tables, api`capps
    ensures verdict == VerdictOn(ending)
    ensures EndedAs(ending, old(api.tables), old(api.capps), api.tables, api.capps, api.revisions, id,
                    api.config, api.library, now)
    ensures EndedBy(ending, api.fault, old(api.calls), old(api.calls) + 2, api.calls, old(api.capps), id, api.config)
    ensures ending.Synced? && verdict == Done ==>
      (api.writes == old(api.writes) <==>
        QuietAll(old(api.tables), old(api.capps)[id], Env(api.config.value, api.library)))
  {
    var got := api.GetCapp(id);
    if got.Err? {
      return if got.error == NotFound then Done else Failed, if got.error == NotFound then NoCapp else Stopped;
    }
    var config := api.GetCappConfig();
    if config.Err? {
      return Failed, Stopped;
    }
    ghost var capps, start := api.capps, api.calls;
    verdict, ending := Proceed(api, got.value, Env(config.value, api.library), now);
    EndedByEarlier(ending, api.fault, old(api.calls), start, api.calls, capps, id, api.config);
  }

  /** In short: what one reconcile can do to the cluster. */
  lemma EndingIsOutcome(ending: Ending, before: Tables, capps: map<Id, Capp>, after: Tables, capps': map<Id, Capp>,
                        revisions: seq<KnativeRevision>, id: Id, config: Option<CappConfig>, library: Library, now: int)
    requires EndedAs(ending, before, capps, after, capps', revisions, id, config, library, now)
    ensures PassOutcome(before, capps, after, capps', id, config, library)
  {
    if ending.Synced? {
      SyncIsStored(before, capps, after, capps', revisions, capps[id], Env(config.value, library), now,
                   ending.trace, ending.seen);
    }
  }

  lemma TraceDone(fault: nat -> Fault, from: nat, until: nat, trace: SyncTrace)
    requires CallsTell(fault, from, until, trace) && Faultless(fault, from, until) && !trace.panicked
    ensures VerdictOf(trace) == Done
  {
    AnswersIff(fault, from, trace.managed);
  }

  /** A reconcile that meets no fault is Done, whatever the state of the cluster - unless there is no
      configuration, the Capp is under deletion without the finalizer, or naming the record panics. */
  lemma FaultlessIsDone(ending: Ending, before: Tables, capps: map<Id, Capp>, after: Tables, capps': map<Id, Capp>,
                        revisions: seq<KnativeRevision>, id: Id, config: Option<CappConfig>, library: Library, now: int,
                        fault: nat -> Fault, from: nat, start: nat, until: nat)
    requires EndedAs(ending, before, capps, after, capps', revisions, id, config, library, now)
    requires EndedBy(ending, fault, from, start, until, capps, id, config)
    requires from <= start && Faultless(fault, from, until)
    requires config.Some?
    requires id in capps ==> !Unattachable(capps[id]) && !Panics(CNAMERecord, capps[id], Env(config.value, library))
    ensures VerdictOn(ending) == Done
  {
    if ending.Synced? {
      assert !ending.trace.panicked;
      TraceDone(fault, start + CallsToAttach(capps[id]), until, ending.trace);
    }
  }

  /** Done, for a live Capp, is a pass in which every manager succeeded, and a status to match. */
  lemma DoneIsPassed(before: Tables, capps: map<Id, Capp>, after: Tables, capps': map<Id, Capp>,
                     revisions: seq<KnativeRevision>, id: Id, env: Env, now: int, trace: SyncTrace, seen: Observed)
    requires ReconciledAs(before, capps, after, capps', revisions, id, env, now, trace, seen)
      && VerdictOf(trace) == Done
    ensures PassBy(before, after, capps[id], env) && Observes(seen, after, revisions, capps[id], env, now)
    ensures id in capps' && FINALIZER in capps'[id].finalizers
    ensures StatusSynced(capps[id].status, capps'[id].status, seen, capps[id], [], now)
  {
    RunWithoutErrors(before, after, capps[id], env);
  }
}
