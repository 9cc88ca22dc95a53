/** The revision history of a Capp: one reconcile of it, on a store in which any call can fail
    (internal/kinds/capprevision). */
module Revisions {
  import opened Objects
  import opened Cluster
  import opened Sorting
  import opened Text
  import Admission

  const PAGE_LIMIT := 100

  datatype Template = Template(spec: CappSpec, annotations: map<string, string>, labels: map<string, string>)

  datatype CappRevision = CappRevision(name: string, created: int, number: nat, template: Template)

  function TemplateOf(capp: Capp): Template {
    Template(capp.spec, capp.annotations, capp.labels)
  }

  // ---------------------------------------------------------------- names

  function RevisionName(cappName: string, number: nat): string {
    cappName + "-" + PaddedDecimal(number)
  }

  /** The last dash of a revision's name is the one before its number. */
  lemma NumberAfterDash(cappName: string, number: nat)
    ensures var name, at := RevisionName(cappName, number), |cappName|;
      && at < |name| && name[..at] == cappName && name[at] == '-' && Value(name[at + 1..]) == number
      && forall i :: at < i < |name| ==> name[i] != '-'
  {
    PaddedRoundTrip(number);
    var name, digits, at := RevisionName(cappName, number), PaddedDecimal(number), |cappName|;
    assert name[at + 1..] == digits;
    assert forall i :: at < i < |name| ==> name[i] == digits[i - at - 1];
  }

  /** No two revisions, of one Capp or of two, can have one name unless they have one number. */
  lemma RevisionNameInjective(a: string, m: nat, b: string, n: nat)
    requires RevisionName(a, m) == RevisionName(b, n)
    ensures a == b && m == n
  {
    NumberAfterDash(a, m);
    NumberAfterDash(b, n);
    if |a| != |b| {
      // the dash of the shorter name would be followed by the dash of the longer one
      assert false;
    }
  }

  // ---------------------------------------------------------------- comparison

  predicate EqualAnnotations(a: map<string, string>, b: map<string, string>, toIgnoreKey: string) {
    a - {toIgnoreKey} == b - {toIgnoreKey}
  }

  predicate SameTemplate(a: Template, b: Template) {
    a.spec == b.spec && EqualAnnotations(a.annotations, b.annotations, Admission.LAST_UPDATED_BY)
      && a.labels == b.labels
  }

  predicate IsEqual(capp: Capp, revision: CappRevision) {
    SameTemplate(TemplateOf(capp), revision.template)
  }

  /** Equal means equal everywhere but in who updated last. */
  lemma SameTemplateIff(a: Template, b: Template)
    ensures SameTemplate(a, b) <==>
      && a.spec == b.spec && a.labels == b.labels
      && forall k :: k != Admission.LAST_UPDATED_BY ==>
           (k in a.annotations <==> k in b.annotations) && (k in a.annotations ==> a.annotations[k] == b.annotations[k])
  {
    var x, y := a.annotations - {Admission.LAST_UPDATED_BY}, b.annotations - {Admission.LAST_UPDATED_BY};
    if x == y {
      assert forall k :: k != Admission.LAST_UPDATED_BY ==>
        (k in a.annotations <==> k in x) && (k in b.annotations <==> k in y) &&
        (k in x ==> a.annotations[k] == x[k]) && (k in y ==> b.annotations[k] == y[k]);
    }
  }

  /** What a revision must hold to be no different from the Capp: its spec, its labels, and its annotations but for
      who updated last. */
  ghost predicate Records(t: Template, capp: Capp) {
    && t.spec == capp.spec && t.labels == capp.labels
    && forall k :: k != Admission.LAST_UPDATED_BY ==>
         (k in t.annotations <==> k in capp.annotations)
           && (k in t.annotations ==> t.annotations[k] == capp.annotations[k])
  }

  lemma IsEqualIff(capp: Capp, revision: CappRevision)
    ensures IsEqual(capp, revision) <==> Records(revision.template, capp)
  {
    SameTemplateIff(TemplateOf(capp), revision.template);
  }

  /** A save through the webhook by somebody else is no change. */
  lemma RestampIsEqual(capp: Capp, cfg: CappConfig, first: string, second: string)
    ensures SameTemplate(TemplateOf(Admission.Mutated(Admission.Mutated(capp, cfg, first), cfg, second)),
                         TemplateOf(Admission.Mutated(capp, cfg, first)))
  {
    Admission.MutatedAgain(capp, cfg, first, second);
    SameTemplateIff(TemplateOf(Admission.Mutated(capp, cfg, second)), TemplateOf(Admission.Mutated(capp, cfg, first)));
  }

  /** Newest first. */
  predicate Newer(a: CappRevision, b: CappRevision) {
    b.created < a.created
  }

  lemma NewerOrder()
    ensures StrictWeak(Newer)
  {
  }

  function SplitRevisionsAtIndex(revisions: seq<CappRevision>, index: int): (r: (seq<CappRevision>, seq<CappRevision>))
    ensures r.0 + r.1 == revisions
    ensures |r.0| == if index <= 0 then 0 else if index >= |revisions| then |revisions| else index
  {
    if index <= 0 then ([], revisions)
    else if index >= |revisions| then (revisions, [])
    else (revisions[..index], revisions[index..])
  }

  // ---------------------------------------------------------------- the store

  predicate NameTaken(history: seq<CappRevision>, name: string) {
    exists i :: 0 <= i < |history| && history[i].name == name
  }

  function Remove(history: seq<CappRevision>, name: string): seq<CappRevision> {
    if history == [] then [] else
    var rest := Remove(history[1..], name);
    if history[0].name == name then rest else [history[0]] + rest
  }

  lemma {:induction false} RemoveAbsent(history: seq<CappRevision>, name: string)
    requires forall i :: 0 <= i < |history| ==> history[i].name != name
    ensures Remove(history, name) == history
  {
    if history != [] {
      RemoveAbsent(history[1..], name);
    }
  }

  function RemoveAll(history: seq<CappRevision>, victims: seq<CappRevision>): seq<CappRevision> {
    if victims == [] then history
    else Remove(RemoveAll(history, victims[..|victims| - 1]), victims[|victims| - 1].name)
  }

  function NewRevision(capp: Capp, number: nat, clock: int): CappRevision {
    CappRevision(RevisionName(capp.id.name, number), clock, number, TemplateOf(capp))
  }

  /** What a create of revision `next` can do; when no call met a fault (`clean`), it fails just for a name
      that is taken. */
  ghost predicate Created(before: seq<CappRevision>, after: seq<CappRevision>, next: CappRevision,
                          err: Option<ApiError>, clean: bool) {
    && (after == before || (!NameTaken(before, next.name) && after == before + [next]))
    && (err.None? ==> after == before + [next]) && err != Some(Panic)
    && (clean ==> err == if NameTaken(before, next.name) then Some(AlreadyExists) else None)
    && (err.Some? && clean ==> after == before)
  }

  /** One Capp, the configured limit, and the Capp's revisions in the order they were created. A new
      revision is stamped with the clock. */
  class RevisionStore {
    const fault: nat -> Fault
    var capp: Option<Capp>
    var limit: Option<int>
    var history: seq<CappRevision>
    var clock: int
    var calls: nat
    var writes: nat

    constructor (fault: nat -> Fault, capp: Option<Capp>, limit: Option<int>, clock: int)
      ensures this.fault == fault && this.capp == capp && this.limit == limit && this.clock == clock
      ensures history == [] && calls == writes == 0
    {
      this.fault, this.capp, this.limit, this.clock := fault, capp, limit, clock;
      history, calls, writes := [], 0, 0;
    }

    method Next() returns (f: Fault)
      modifies this`calls
      ensures f == fault(old(calls)) && calls == old(calls) + 1
    {
      f := fault(calls);
      calls := calls + 1;
    }

    method List() returns (r: Result<array<CappRevision>>)
      modifies this`calls
      ensures calls == old(calls) + 1 && ErrorIn(r) == Reply(fault(old(calls)), None)
      ensures r.Ok? ==> fresh(r.value)
      ensures r.Ok? && |history| <= PAGE_LIMIT ==> multiset(r.value[..]) == multiset(history)
      ensures r.Ok? && |history| > PAGE_LIMIT ==>
        r.value.Length == PAGE_LIMIT && multiset(r.value[..]) <= multiset(history)
    {
      var f := Next();
      if f != NoFault {
        return Err(ErrorOf(f));
      }
      var page := Page(history, PAGE_LIMIT);
      return Ok(page);
    }

    method GetLimit() returns (r: Result<int>)
      modifies this`calls
      ensures calls == old(calls) + 1
      ensures ErrorIn(r) == Reply(fault(old(calls)), if limit.Some? then None else Some(NotFound))
      ensures r.Ok? ==> limit == Some(r.value)
    {
      var f := Next();
      if f != NoFault {
        return Err(ErrorOf(f));
      }
      return if limit.Some? then Ok(limit.value) else Err(NotFound);
    }

    method GetCapp() returns (r: Result<Capp>)
      modifies this`calls
      ensures calls == old(calls) + 1
      ensures ErrorIn(r) == Reply(fault(old(calls)), if capp.Some? then None else Some(NotFound))
      ensures r.Ok? ==> capp == Some(r.value)
    {
      var f := Next();
      if f != NoFault {
        return Err(ErrorOf(f));
      }
      return if capp.Some? then Ok(capp.value) else Err(NotFound);
    }

    method CreateCappRevision(owner: Capp, number: nat) returns (err: Option<ApiError>)
      modifies this`calls, this`writes, this`history
      ensures calls == old(calls) + 1 && writes == old(writes) + 1
      ensures var f := fault(old(calls));
        var r := CappRevision(owner.id.name + "-" + PaddedDecimal(number), clock, number,
                              Template(owner.spec, owner.annotations, owner.labels));
        && err == Reply(f, if NameTaken(old(history), r.name) then Some(AlreadyExists) else None)
        && history == if Lands(f) && !NameTaken(old(history), r.name) then old(history) + [r] else old(history)
    {
      var f := Next();
      writes := writes + 1;
      if f == Conflicted || f == Refused {
        return Some(ErrorOf(f));
      }
      var r := NewRevision(owner, number, clock);
      if NameTaken(history, r.name) {
        return Reply(f, Some(AlreadyExists));
      }
      history := history + [r];
      err := Reply(f, None);
    }

    method DeleteCappRevision(r: CappRevision) returns (err: Option<ApiError>)
      modifies this`calls, this`writes, this`history
      ensures calls == old(calls) + 1 && writes == old(writes) + 1
      ensures err == Reply(fault(old(calls)), if NameTaken(old(history), r.name) then None else Some(NotFound))
      ensures history == if Lands(fault(old(calls))) then Remove(old(history), r.name) else old(history)
    {
      var f := Next();
      writes := writes + 1;
      if f == Conflicted || f == Refused {
        return Some(ErrorOf(f));
      }
      if !NameTaken(history, r.name) {
        RemoveAbsent(history, r.name);
        return Reply(f, Some(NotFound));
      }
      history := Remove(history, r.name);
      err := Reply(f, None);
    }
  }

  // ---------------------------------------------------------------- one reconcile

  /** What HandleCappUpdate does, given the page in the order its sort produced, for any limit and any
      history. `clean` tells that no call met a fault. */
  ghost predicate Updates(before: seq<CappRevision>, after: seq<CappRevision>, page: seq<CappRevision>, capp: Capp,
                          limit: int, clock: int, err: Option<ApiError>, deleted: nat, clean: bool)
    requires page != []
  {
    if IsEqual(capp, page[0]) then after == before && err.None? && deleted == 0
    else if |page| < limit then
      Created(before, after, NewRevision(capp, page[0].number + 1, clock), err, clean) && deleted == 0
    else Trims(before, after, page, NewRevision(capp, page[0].number + 1, clock), limit, err, deleted, clean)
  }

  /** The part past the limit goes, newest first and as far as `deleted`; then `next` is created, or the
      empty part that is kept makes the operator panic. */
  ghost predicate Trims(before: seq<CappRevision>, after: seq<CappRevision>, page: seq<CappRevision>,
                        next: CappRevision, limit: int, err: Option<ApiError>, deleted: nat, clean: bool) {
    var tail := SplitRevisionsAtIndex(page, limit - 1).1;
    && deleted <= |tail|
    && if deleted < |tail| then CutOff(before, after, tail, err, deleted, clean)
       else if limit <= 1 then after == RemoveAll(before, tail) && err == Some(Panic)
       else Created(RemoveAll(before, tail), after, next, err, clean)
  }

  /** The delete loop ended at its `deleted`-th revision; without a fault, because it is not there. */
  ghost predicate CutOff(before: seq<CappRevision>, after: seq<CappRevision>, tail: seq<CappRevision>,
                         err: Option<ApiError>, deleted: nat, clean: bool)
    requires deleted < |tail|
  {
    && err.Some? && err != Some(Panic)
    && (after == RemoveAll(before, tail[..deleted]) || after == RemoveAll(before, tail[..deleted + 1]))
    && (clean ==> !NameTaken(RemoveAll(before, tail[..deleted]), tail[deleted].name))
  }

  /** Without a fault an error is about the state of the cluster; otherwise it is the answer of the last call. */
  ghost predicate Explained(fault: nat -> Fault, from: nat, until: nat, err: Option<ApiError>) {
    && from <= until
    && (!Faultless(fault, from, until) ==> Ended(fault, from, until, err))
  }

  lemma ExplainedCall(fault: nat -> Fault, n: nat, answer: Option<ApiError>)
    ensures Explained(fault, n, n + 1, Reply(fault(n), answer))
    ensures Faultless(fault, n, n + 1) <==> fault(n) == NoFault
  {
    EndedCall(fault, n);
  }

  lemma ExplainedThen(fault: nat -> Fault, from: nat, mid: nat, until: nat, err: Option<ApiError>)
    requires from <= mid && Faultless(fault, from, mid) && Explained(fault, mid, until, err)
    ensures Explained(fault, from, until, err)
    ensures Faultless(fault, from, until) <==> Faultless(fault, mid, until)
  {
    if Ended(fault, mid, until, err) {
      EndedThen(fault, from, mid, until, err);
    }
  }

  lemma {:induction false} NextRemoved(history: seq<CappRevision>, tail: seq<CappRevision>, i: nat)
    requires i < |tail|
    ensures RemoveAll(history, tail[..i + 1]) == Remove(RemoveAll(history, tail[..i]), tail[i].name)
  {
    assert tail[..i + 1][..i] == tail[..i] && tail[..i + 1][i] == tail[i];
  }

  /** The loop over the revisions to delete; it ends at the first failure. */
  method DeleteRevisions(store: RevisionStore, tail: seq<CappRevision>)
    returns (err: Option<ApiError>, ghost deleted: nat)
    modifies store`calls, store`writes, store`history
    ensures deleted <= |tail| && Explained(store.fault, old(store.calls), store.calls, err)
    ensures err.None? ==>
      && deleted == |tail| && store.history == RemoveAll(old(store.history), tail)
      && Faultless(store.fault, old(store.calls), store.calls)
    ensures err.Some? ==>
      && deleted < |tail|
      && CutOff(old(store.history), store.history, tail, err, deleted,
                Faultless(store.fault, old(store.calls), store.calls))
  {
    ghost var before := store.history;
    var i := 0;
    deleted := 0;
    while i < |tail|
      invariant 0 <= i <= |tail| && deleted == i
      invariant old(store.calls) <= store.calls && Faultless(store.fault, old(store.calls), store.calls)
      invariant store.history == RemoveAll(before, tail[..i])
    {
      NextRemoved(before, tail, i);
      ghost var made, taken := store.calls, NameTaken(store.history, tail[i].name);
      ExplainedCall(store.fault, made, if taken then None else Some(NotFound));
      err := store.DeleteCappRevision(tail[i]);
      ExplainedThen(store.fault, old(store.calls), made, store.calls, err);
      if err.Some? {
        return;
      }
      i := i + 1;
      deleted := i;
    }
    assert tail[..i] == tail;
    err := None;
  }

  /** A create after calls that went through. */
  method CreateNext(store: RevisionStore, capp: Capp, number: nat, ghost next: CappRevision)
    returns (err: Option<ApiError>)
    requires next == NewRevision(capp, number, store.clock)
    modifies store`calls, store`writes, store`history
    ensures Created(old(store.history), store.history, next, err, Faultless(store.fault, old(store.calls), store.calls))
    ensures Explained(store.fault, old(store.calls), store.calls, err)
  {
    ExplainedCall(store.fault, store.calls, if NameTaken(store.history, next.name) then Some(AlreadyExists) else None);
    err := store.CreateCappRevision(capp, number);
  }

  /** Deletes what exceeds the limit, then creates the next revision. Indexing the kept part panics when
      the limit leaves none. */
  method TrimAndCreate(store: RevisionStore, capp: Capp, revisions: seq<CappRevision>, limit: int,
                       ghost next: CappRevision)
    returns (err: Option<ApiError>, ghost deleted: nat)
    requires revisions != [] && limit <= |revisions|
    requires next == NewRevision(capp, revisions[0].number + 1, store.clock)
    modifies store`calls, store`writes, store`history
    ensures Explained(store.fault, old(store.calls), store.calls, err)
    ensures Trims(old(store.history), store.history, revisions, next, limit, err, deleted,
                  Faultless(store.fault, old(store.calls), store.calls))
  {
    var (relevant, tail) := SplitRevisionsAtIndex(revisions, limit - 1);
    err, deleted := DeleteRevisions(store, tail);
    if err.Some? {
      return;
    }
    if relevant == [] {
      return Some(Panic), deleted;
    }
    ghost var made := store.calls;
    err := CreateNext(store, capp, relevant[0].number + 1, next);
    ExplainedThen(store.fault, old(store.calls), made, store.calls, err);
  }

  method SortByCreationTime(revisions: array<CappRevision>)
    modifies revisions
    ensures OrderedPermutation(revisions[..], old(revisions[..]), Newer)
  {
    NewerOrder();
    SortSlice(revisions, Newer);
  }

  method HandleCappUpdate(store: RevisionStore, capp: Capp, revisions: array<CappRevision>)
    returns (err: Option<ApiError>, ghost deleted: nat)
    requires revisions.Length > 0
    modifies store`calls, store`writes, store`history, revisions
    ensures OrderedPermutation(revisions[..], old(revisions[..]), Newer)
    ensures Explained(store.fault, old(store.calls), store.calls, err)
    ensures Handled(old(store.history), store.history, revisions[..], capp, store.limit, store.clock, err, deleted,
                    Faultless(store.fault, old(store.calls), store.calls))
    ensures IsEqual(capp, revisions[0]) ==> store.writes == old(store.writes)
    ensures Records(revisions[0].template, capp) ==>
      store.writes == old(store.writes) && store.history == old(store.history)
  {
    SortByCreationTime(revisions);
    IsEqualIff(capp, revisions[0]);
    err, deleted := UpdateSorted(store, capp, revisions[..]);
  }

  /** The part of HandleCappUpdate after the sort. */
  method UpdateSorted(store: RevisionStore, capp: Capp, revisions: seq<CappRevision>)
    returns (err: Option<ApiError>, ghost deleted: nat)
    requires revisions != []
    modifies store`calls, store`writes, store`history
    ensures Explained(store.fault, old(store.calls), store.calls, err)
    ensures Handled(old(store.history), store.history, revisions, capp, store.limit, store.clock, err, deleted,
                    Faultless(store.fault, old(store.calls), store.calls))
    ensures IsEqual(capp, revisions[0]) ==> store.writes == old(store.writes)
  {
    ghost var read, limit := store.calls, store.limit;
    ExplainedCall(store.fault, read, if limit.Some? then None else Some(NotFound));
    var got := store.GetLimit();
    if got.Err? {
      return Some(got.error), 0;
    }
    err, deleted := UpdateWithin(store, capp, revisions, got.value);
    ExplainedThen(store.fault, read, read + 1, store.calls, err);
  }

  /** The part of HandleCappUpdate after the configuration is read. */
  method UpdateWithin(store: RevisionStore, capp: Capp, revisions: seq<CappRevision>, revisionsToKeep: int)
    returns (err: Option<ApiError>, ghost deleted: nat)
    requires revisions != []
    modifies store`calls, store`writes, store`history
    ensures Explained(store.fault, old(store.calls), store.calls, err)
    ensures Updates(old(store.history), store.history, revisions, capp, revisionsToKeep, store.clock, err, deleted,
                    Faultless(store.fault, old(store.calls), store.calls))
    ensures IsEqual(capp, revisions[0]) ==> store.writes == old(store.writes)
  {
    deleted := 0;
    var latest := revisions[0];
    if IsEqual(capp, latest) {
      return None, deleted;
    }
    ghost var next := NewRevision(capp, revisions[0].number + 1, store.clock);
    if |revisions| < revisionsToKeep {
      err := CreateNext(store, capp, revisions[0].number + 1, next);
      return;
    }
    err, deleted := TrimAndCreate(store, capp, revisions, revisionsToKeep, next);
  }

  /** An update, unless the configuration could not be read. */
  ghost predicate Handled(before: seq<CappRevision>, after: seq<CappRevision>, page: seq<CappRevision>, capp: Capp,
                          limit: Option<int>, clock: int, err: Option<ApiError>, deleted: nat, clean: bool)
    requires page != []
  {
    || (after == before && err.Some? && err != Some(Panic) && (clean ==> limit.None?))
    || (limit.Some? && Updates(before, after, page, capp, limit.value, clock, err, deleted, clean))
  }

  datatype Verdict = Done | Requeue | Failed

  /** `page` is the listed page in the order the sort left it. */
  ghost predicate SortedPage(page: seq<CappRevision>, history: seq<CappRevision>) {
    && Ordered(page, Newer)
    && (|history| <= PAGE_LIMIT ==> multiset(page) == multiset(history))
    && (|history| > PAGE_LIMIT ==> |page| == PAGE_LIMIT && multiset(page) <= multiset(history))
  }

  lemma PermutedPage(listed: seq<CappRevision>, page: seq<CappRevision>, history: seq<CappRevision>)
    requires OrderedPermutation(page, listed, Newer)
    requires |history| <= PAGE_LIMIT ==> multiset(listed) == multiset(history)
    requires |history| > PAGE_LIMIT ==> |listed| == PAGE_LIMIT && multiset(listed) <= multiset(history)
    ensures SortedPage(page, history)
  {
    assert |page| == |multiset(page)| == |multiset(listed)| == |listed|;
  }

  lemma EmptyPage(history: seq<CappRevision>)
    requires multiset(history) == multiset([])
    ensures history == []
  {
    assert |history| == |multiset(history)| == 0;
  }

  /** What a sync does to the history: nothing when the list failed, the first revision when there was
      none, or an update over the listed page. */
  ghost predicate Syncs(before: seq<CappRevision>, after: seq<CappRevision>, page: seq<CappRevision>, capp: Capp,
                        limit: Option<int>, clock: int, err: Option<ApiError>, deleted: nat, clean: bool) {
    if page == [] then
      || (after == before && err.Some? && err != Some(Panic) && !clean)
      || (before == [] && Created(before, after, NewRevision(capp, 1, clock), err, clean))
    else SortedPage(page, before) && Handled(before, after, page, capp, limit, clock, err, deleted, clean)
  }

  method SyncCappRevision(store: RevisionStore, capp: Capp)
    returns (err: Option<ApiError>, ghost page: seq<CappRevision>, ghost deleted: nat)
    modifies store`calls, store`writes, store`history
    ensures Syncs(old(store.history), store.history, page, capp, store.limit, store.clock, err, deleted,
                  Faultless(store.fault, old(store.calls), store.calls))
    ensures Explained(store.fault, old(store.calls), store.calls, err)
    ensures page != [] && IsEqual(capp, page[0]) ==> store.writes == old(store.writes)
    ensures old(store.history) != [] && page == [] ==> store.writes == old(store.writes)
  {
    page, deleted := [], 0;
    ghost var listing := store.calls;
    ExplainedCall(store.fault, listing, None);
    var listed := store.List();
    if listed.Err? {
      return Some(listed.error), page, deleted;
    }
    var revisions := listed.value;
    if revisions.Length == 0 {
      assert revisions[..] == [];
      EmptyPage(store.history);
      err := CreateNext(store, capp, 1, NewRevision(capp, 1, store.clock));
      ExplainedThen(store.fault, listing, listing + 1, store.calls, err);
      return;
    }
    ghost var before, items := store.history, revisions[..];
    err, deleted := HandleCappUpdate(store, capp, revisions);
    page := revisions[..];
    PermutedPage(items, page, before);
    ExplainedThen(store.fault, listing, listing + 1, store.calls, err);
  }

  /** Conflicts and already existing revisions are retried quietly; a Capp under deletion is left to
      garbage collection. */
  method Reconcile(store: RevisionStore)
    returns (verdict: Verdict, ghost err: Option<ApiError>, ghost page: seq<CappRevision>, ghost deleted: nat)
    modifies store`calls, store`writes, store`history
    ensures store.capp.None? || store.capp.value.deleting ==>
      store.history == old(store.history) && store.writes == old(store.writes)
    ensures store.capp.Some? && !store.capp.value.deleting ==>
      Syncs(old(store.history), store.history, page, store.capp.value, store.limit, store.clock, err, deleted,
            Faultless(store.fault, old(store.calls), store.calls))
    ensures verdict == if err.None? then Done else if err.value in {Conflict, AlreadyExists} then Requeue else Failed
    ensures store.fault(old(store.calls)) != NoFault ==> verdict == Failed && store.calls == old(store.calls) + 1
    ensures store.fault(old(store.calls)) == NoFault && (store.capp.None? || store.capp.value.deleting) ==>
      verdict == Done
    ensures store.fault(old(store.calls)) == NoFault && store.capp.Some? && !store.capp.value.deleting ==>
      Explained(store.fault, old(store.calls), store.calls, err)
  {
    page, deleted := [], 0;
    var got := store.GetCapp();
    if got.Err? {
      // the Get's error is wrapped as text, so that even a conflict is not retried quietly
      return if got.error == NotFound then Done else Failed,
             if got.error == NotFound then None else Some(ServerError), page, deleted;
    }
    var capp := got.value;
    if capp.deleting {
      return Done, None, page, deleted;
    }
    var e;
    e, page, deleted := SyncCappRevision(store, capp);
    err := e;
    if e.Some? {
      return if e == Some(Conflict) || e == Some(AlreadyExists) then Requeue else Failed, err, page, deleted;
    }
    return Done, err, page, deleted;
  }
}
