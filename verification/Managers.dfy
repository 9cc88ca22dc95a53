/** The resource managers: Manage and CleanUp for each kind of child
    (internal/kinds/capp/resourcemanagers). Each method is proved against `AppliedBy` and `CleanedBy`
    when it succeeds, and against `Reached` and `Receded` when one of its calls fails. */
module Managers {
  import opened Objects
  import opened Cluster
  import opened Desired
  import opened Naming

  // ---------------------------------------------------------------- what a failed pass can leave

  /** Some of what CleanUp deletes is gone, nothing else changed. */
  ghost predicate Receded(kind: Kind, before: Tables, after: Tables, capp: Capp) {
    && (forall k: Kind :: k != kind && !(kind == DomainMapping && k == Secret) ==> after(k) == before(k))
    && Shrunk(before(kind), after(kind), Doomed(kind, before(kind), capp))
    && (kind == DomainMapping ==> Shrunk(before(Secret), after(Secret), TLSSecrets(before(DomainMapping), capp)))
  }

  ghost predicate Shrunk(before: Table, after: Table, doomed: set<Id>) {
    && (forall id :: id in after ==> id in before && after[id] == before[id])
    && (forall id :: id in before && id !in after ==> id in doomed)
  }

  /** Where a Manage can stop: it worked through the children in order up to some point, and only
      after the last of them started on the orphans. */
  ghost predicate ReachedTable(kind: Kind, before: Table, after: Table, secrets: Table, capp: Capp, env: Env) {
    if !IsRequired(kind, capp) then Shrunk(before, after, Doomed(kind, before, capp)) else
      var children := Children(kind, secrets, capp, env);
      || (exists i :: 0 <= i <= |children| && after == UpsertAll(before, Ref(capp), children[..i]))
      || (var t := UpsertAll(before, Ref(capp), children);
          IsSourceKind(kind) && Shrunk(t, after, Orphans(kind, t, capp, children)))
  }

  ghost predicate Reached(kind: Kind, before: Tables, after: Tables, capp: Capp, env: Env) {
    && ReachedTable(kind, before(kind), after(kind), before(Secret), capp, env)
    && (forall k: Kind :: k != kind && k != Secret ==> after(k) == before(k))
    && (if kind == DomainMapping && !IsRequired(kind, capp) then
          Shrunk(before(Secret), after(Secret), TLSSecrets(before(DomainMapping), capp))
        else after(Secret) == before(Secret))
  }

  // ---------------------------------------------------------------- create or update

  lemma {:induction false} StoredIsUpsert(t: Table, ref: OwnerRef, c: Child)
    ensures c.id !in t ==> Stored(t, c.id, c.obj.(owners := SetOwner(c.obj.owners, ref))) == Upsert(t, ref, c)
    ensures c.id in t ==> Stored(t, c.id, Updated(t[c.id], ref, c.obj)) == Upsert(t, ref, c)
    ensures Settled(t, ref, c) ==> Upsert(t, ref, c) == t
  {
  }

  /** Creates the child, or lays its spec over the stored one and sets the owner. `applied` tells
      whether that was done, as it may have been even if an error is reported. */
  method CreateOrUpdate(api: Api, kind: Kind, capp: Capp, child: Child)
    returns (err: Option<ApiError>, ghost applied: bool)
    modifies api`calls, api`writes, api`tables
    ensures Only(old(api.tables), api.tables, kind)
    ensures api.tables(kind) ==
      if applied then Upsert(old(api.tables)(kind), Ref(capp), child) else old(api.tables)(kind)
    ensures err.None? ==> applied
    ensures err.None? ==> (api.writes == old(api.writes) <==> Settled(old(api.tables)(kind), Ref(capp), child))
    ensures Ended(api.fault, old(api.calls), api.calls, err)
    ensures api.writes >= old(api.writes)
  {
    StoredIsUpsert(api.tables(kind), Ref(capp), child);
    applied := false;
    var got := api.Get(kind, child.id);
    if got.Err? {
      if got.error != NotFound {
        return Some(got.error), applied;
      }
      applied := Lands(api.fault(api.calls));
      err := api.Create(kind, child.id, child.obj.(owners := SetOwner(child.obj.owners, Ref(capp))));
      return;
    }
    var existing := got.value;
    var updated := existing.(spec := Merge(existing.spec, child.obj.spec));
    updated := updated.(owners := SetOwner(updated.owners, Ref(capp)));
    assert updated == Updated(existing, Ref(capp), child.obj);
    if updated.spec == existing.spec && updated.owners == existing.owners {
      return None, true;
    }
    applied := Lands(api.fault(api.calls));
    err := api.Update(kind, child.id, updated);
  }

  /** What the fold does for one child. */
  lemma {:induction false} SingleChild(t: Table, ref: OwnerRef, c: Child)
    ensures [c][..0] == [] && [c][..1] == [c]
    ensures UpsertAll(t, ref, []) == t && UpsertAll(t, ref, [c]) == Upsert(t, ref, c)
    ensures AllSettled(t, ref, [c]) <==> Settled(t, ref, c)
  {
    assert [c][..0] == [];
  }

  /** Applying the record, or finding nothing to do for it. */
  lemma RecordOutcome(before: Tables, after: Tables, capp: Capp, env: Env, applied: bool)
    requires IsRequired(CNAMERecord, capp) && Only(before, after, CNAMERecord)
    requires after(CNAMERecord) ==
      if applied then Upsert(before(CNAMERecord), Ref(capp), RecordChild(capp, env)) else before(CNAMERecord)
    ensures Reached(CNAMERecord, before, after, capp, env)
    ensures applied != Quiet(CNAMERecord, before(CNAMERecord), before(Secret), capp, env) ==>
      AppliedBy(CNAMERecord, before, after, capp, env)
  {
    var c := RecordChild(capp, env);
    assert Children(CNAMERecord, before(Secret), capp, env) == [c];
    SingleChild(before(CNAMERecord), Ref(capp), c);
    assert after(CNAMERecord) == UpsertAll(before(CNAMERecord), Ref(capp), [c][..if applied then 1 else 0]);
  }

  method CreateOrUpdateRecord(api: Api, capp: Capp, env: Env) returns (err: Option<ApiError>)
    requires IsRequired(CNAMERecord, capp)
    modifies api`calls, api`writes, api`tables
    ensures err.None? ==> AppliedBy(CNAMERecord, old(api.tables), api.tables, capp, env)
    ensures err.None? ==> (api.writes == old(api.writes) <==>
      Quiet(CNAMERecord, old(api.tables)(CNAMERecord), old(api.tables)(Secret), capp, env))
    ensures err.Some? ==> Reached(CNAMERecord, old(api.tables), api.tables, capp, env)
    ensures if Panics(CNAMERecord, capp, env) then
        err == Some(Panic) && api.tables == old(api.tables) && api.calls == old(api.calls)
      else Ended(api.fault, old(api.calls), api.calls, err)
    ensures api.writes >= old(api.writes)
  {
    ghost var before, applied := api.tables, false;
    var record := GenerateRecordName(capp.spec.route.hostname, env.config.dns.zone);
    if record.None? {
      RecordOutcome(before, api.tables, capp, env, false);
      return Some(Panic);
    }
    err, applied := ApplyRecord(api, capp, RecordChild(capp, env));
    RecordOutcome(before, api.tables, capp, env, applied);
  }

  /** Get, the cheap check, and the write. `applied` tells whether the record was laid over. */
  method ApplyRecord(api: Api, capp: Capp, child: Child) returns (err: Option<ApiError>, ghost applied: bool)
    requires child.obj.spec.CNAMERecordSpec?
    modifies api`calls, api`writes, api`tables
    ensures Only(old(api.tables), api.tables, CNAMERecord)
    ensures api.tables(CNAMERecord) ==
      if applied then Upsert(old(api.tables)(CNAMERecord), Ref(capp), child) else old(api.tables)(CNAMERecord)
    ensures var silent := child.id in old(api.tables)(CNAMERecord) &&
        !RecordNeedsUpdate(old(api.tables)(CNAMERecord)[child.id], child.obj, Ref(capp));
      err.None? ==> applied == !silent && (api.writes == old(api.writes) <==> silent)
    ensures Ended(api.fault, old(api.calls), api.calls, err)
    ensures api.writes >= old(api.writes)
  {
    applied := false;
    var got := api.Get(CNAMERecord, child.id);
    if got.Err? {
      if got.error != NotFound {
        return Some(got.error), false;
      }
      applied := Lands(api.fault(api.calls));
      err := api.Create(CNAMERecord, child.id, child.obj.(owners := SetOwner(child.obj.owners, Ref(capp))));
      return;
    }
    var current := got.value;
    if !RecordNeedsUpdate(current, child.obj, Ref(capp)) {
      return None, false;
    }
    var updated := current.(owners := SetOwner(current.owners, Ref(capp)));
    updated := updated.(spec := Merge(updated.spec, child.obj.spec));
    if updated.spec == current.spec && updated.owners == current.owners {
      return None, true;
    }
    applied := Lands(api.fault(api.calls));
    err := api.Update(CNAMERecord, child.id, updated);
  }

  /** Nothing happens to a table in which every child is settled. */
  lemma {:induction false} SettledUpserts(t: Table, ref: OwnerRef, children: seq<Child>)
    requires AllSettled(t, ref, children)
    ensures UpsertAll(t, ref, children) == t
  {
    if children != [] {
      SettledUpserts(t, ref, children[..|children| - 1]);
    }
  }

  lemma PrefixStep<T>(s: seq<T>, i: nat)
    requires i < |s|
    ensures s[..i + 1] != [] && s[..i + 1][..i] == s[..i] && s[..i + 1][i] == s[i]
  {
  }

  /** What one more successful create-or-update adds to a prefix already worked through. */
  lemma {:induction false} UpsertedNext(t: Table, ref: OwnerRef, children: seq<Child>, n: nat)
    requires n < |children|
    ensures UpsertAll(t, ref, children[..n + 1]) == Upsert(UpsertAll(t, ref, children[..n]), ref, children[n])
  {
    PrefixStep(children, n);
  }

  lemma AllSettledNext(t: Table, ref: OwnerRef, children: seq<Child>, n: nat)
    requires n < |children|
    ensures AllSettled(t, ref, children[..n + 1]) <==> AllSettled(t, ref, children[..n]) && Settled(t, ref, children[n])
  {
    assert forall i :: 0 <= i <= n ==> children[..n + 1][i] == if i < n then children[..n][i] else children[n];
  }

  /** Nothing was written so far, and nothing is now, exactly when one more child is settled. */
  lemma {:induction false} SettledNext(t: Table, ref: OwnerRef, children: seq<Child>, n: nat)
    requires n < |children|
    ensures AllSettled(t, ref, children[..n + 1]) <==>
      AllSettled(t, ref, children[..n]) && Settled(UpsertAll(t, ref, children[..n]), ref, children[n])
  {
    AllSettledNext(t, ref, children, n);
    if AllSettled(t, ref, children[..n]) {
      SettledUpserts(t, ref, children[..n]);
    }
  }

  lemma {:induction false} NextApplied(t: Table, ref: OwnerRef, children: seq<Child>, n: nat)
    requires n < |children|
    ensures UpsertAll(t, ref, children[..n + 1]) == Upsert(UpsertAll(t, ref, children[..n]), ref, children[n])
    ensures AllSettled(t, ref, children[..n + 1]) <==>
      AllSettled(t, ref, children[..n]) && Settled(UpsertAll(t, ref, children[..n]), ref, children[n])
  {
    UpsertedNext(t, ref, children, n);
    SettledNext(t, ref, children, n);
  }

  /** One child after the first `n`. `applied` tells whether it was laid over. */
  method ApplyNext(api: Api, kind: Kind, capp: Capp, child: Child, ghost t: Table, ghost all: seq<Child>, ghost n: nat)
    returns (err: Option<ApiError>, ghost applied: bool)
    requires kind != CNAMERecord && n < |all| && all[n] == child
    requires api.tables(kind) == UpsertAll(t, Ref(capp), all[..n])
    modifies api`calls, api`writes, api`tables
    ensures Only(old(api.tables), api.tables, kind)
    ensures api.tables(kind) == UpsertAll(t, Ref(capp), all[..if applied then n + 1 else n])
    ensures err.None? ==> applied
    ensures err.None? ==> (AllSettled(t, Ref(capp), all[..n + 1]) <==>
      AllSettled(t, Ref(capp), all[..n]) && api.writes == old(api.writes))
    ensures Ended(api.fault, old(api.calls), api.calls, err)
    ensures api.writes >= old(api.writes)
  {
    NextApplied(t, Ref(capp), all, n);
    err, applied := CreateOrUpdate(api, kind, capp, child);
  }

  /** The loop over the generated NfsPvcs. */
  method CreateOrUpdateVolumes(api: Api, capp: Capp) returns (err: Option<ApiError>, ghost done: nat)
    modifies api`calls, api`writes, api`tables
    ensures done <= |VolumeChildren(capp, capp.spec.volumes)|
    ensures Only(old(api.tables), api.tables, NfsPvc)
    ensures api.tables(NfsPvc) ==
      UpsertAll(old(api.tables)(NfsPvc), Ref(capp), VolumeChildren(capp, capp.spec.volumes)[..done])
    ensures err.None? ==> done == |VolumeChildren(capp, capp.spec.volumes)|
    ensures err.None? ==> (api.writes == old(api.writes) <==>
      AllSettled(old(api.tables)(NfsPvc), Ref(capp), VolumeChildren(capp, capp.spec.volumes)))
    ensures Ended(api.fault, old(api.calls), api.calls, err)
    ensures api.writes >= old(api.writes)
  {
    var children := PrepareVolumes(capp);
    ghost var t0 := api.tables(NfsPvc);
    assert t0 == UpsertAll(t0, Ref(capp), children[..0]);
    done := 0;
    var i := 0;
    while i < |children|
      invariant 0 <= i <= |children| && done == i
      invariant Only(old(api.tables), api.tables, NfsPvc)
      invariant api.tables(NfsPvc) == UpsertAll(t0, Ref(capp), children[..i])
      invariant Ended(api.fault, old(api.calls), api.calls, None)
      invariant api.writes >= old(api.writes)
      invariant api.writes == old(api.writes) <==> AllSettled(t0, Ref(capp), children[..i])
    {
      ghost var mid, applied := api.calls, false;
      err, applied := ApplyNext(api, NfsPvc, capp, children[i], t0, children, i);
      EndedThen(api.fault, old(api.calls), mid, api.calls, err);
      done := if applied then i + 1 else i;
      if err.Some? {
        return;
      }
      i := i + 1;
    }
    assert children[..i] == children;
    err := None;
  }

  method PrepareVolumes(capp: Capp) returns (children: seq<Child>)
    ensures children == VolumeChildren(capp, capp.spec.volumes)
  {
    children := [];
    var volumes := capp.spec.volumes;
    for i := 0 to |volumes|
      invariant children == VolumeChildren(capp, volumes[..i])
    {
      PrefixStep(volumes, i);
      children := children + [VolumeChild(capp, volumes[i])];
    }
    assert volumes[..|volumes|] == volumes;
  }

  lemma {:induction false} SourceStep(kind: Kind, capp: Capp, sources: seq<Source>, i: nat)
    requires i < |sources|
    ensures SourceChildren(kind, capp, sources[..i + 1]) ==
      SourceChildren(kind, capp, sources[..i])
      + (if SourceOf(kind, sources[i]) then [SourceChild(kind, capp, sources[i])] else [])
  {
    PrefixStep(sources, i);
  }

  lemma {:induction false} SourcesExtend(kind: Kind, capp: Capp, sources: seq<Source>, i: nat)
    requires i <= |sources|
    ensures SourceChildren(kind, capp, sources[..i]) <= SourceChildren(kind, capp, sources)
    decreases |sources| - i
  {
    if i < |sources| {
      SourceStep(kind, capp, sources, i);
      SourcesExtend(kind, capp, sources, i + 1);
    } else {
      assert sources[..i] == sources;
    }
  }

  function CountSources(kind: Kind, capp: Capp, sources: seq<Source>, i: nat): nat
    requires i <= |sources|
  {
    |SourceChildren(kind, capp, sources[..i])|
  }

  /** The i-th source is the next child, or none of this kind. */
  lemma {:induction false} SourceNext(kind: Kind, capp: Capp, sources: seq<Source>, i: nat)
    requires i < |sources|
    ensures var all, n := SourceChildren(kind, capp, sources), CountSources(kind, capp, sources, i);
      if SourceOf(kind, sources[i]) then
        n < |all| && all[n] == SourceChild(kind, capp, sources[i]) && CountSources(kind, capp, sources, i + 1) == n + 1
      else CountSources(kind, capp, sources, i + 1) == n
  {
    SourceStep(kind, capp, sources, i);
    SourcesExtend(kind, capp, sources, i + 1);
  }

  lemma {:induction false} AllCounted(kind: Kind, capp: Capp, sources: seq<Source>)
    ensures CountSources(kind, capp, sources, 0) == 0
    ensures CountSources(kind, capp, sources, |sources|) == |SourceChildren(kind, capp, sources)|
  {
    assert sources[..|sources|] == sources;
  }

  /** The i-th source, when it is of this kind. `next` counts the children laid over so far. */
  method ApplySource(api: Api, kind: Kind, capp: Capp, i: nat, ghost t: Table, ghost done: nat)
    returns (err: Option<ApiError>, ghost next: nat)
    requires IsSourceKind(kind) && i < |capp.spec.sources| && done == CountSources(kind, capp, capp.spec.sources, i)
    requires done <= |SourceChildren(kind, capp, capp.spec.sources)|
    requires api.tables(kind) == UpsertAll(t, Ref(capp), SourceChildren(kind, capp, capp.spec.sources)[..done])
    modifies api`calls, api`writes, api`tables
    ensures next <= |SourceChildren(kind, capp, capp.spec.sources)| && Only(old(api.tables), api.tables, kind)
    ensures api.tables(kind) == UpsertAll(t, Ref(capp), SourceChildren(kind, capp, capp.spec.sources)[..next])
    ensures err.None? ==> next == CountSources(kind, capp, capp.spec.sources, i + 1)
    ensures err.None? ==> (AllSettled(t, Ref(capp), SourceChildren(kind, capp, capp.spec.sources)[..next]) <==>
      && AllSettled(t, Ref(capp), SourceChildren(kind, capp, capp.spec.sources)[..done])
      && api.writes == old(api.writes))
    ensures Ended(api.fault, old(api.calls), api.calls, err)
    ensures api.writes >= old(api.writes)
  {
    var source := capp.spec.sources[i];
    ghost var all := SourceChildren(kind, capp, capp.spec.sources);
    SourceNext(kind, capp, capp.spec.sources, i);
    next := done;
    if !SourceOf(kind, source) {
      return None, done;
    }
    ghost var applied;
    err, applied := ApplyNext(api, kind, capp, SourceChild(kind, capp, source), t, all, done);
    next := if applied then done + 1 else done;
  }

  /** The loop over the Capp's sources of one kind. */
  method CreateOrUpdateSources(api: Api, kind: Kind, capp: Capp) returns (err: Option<ApiError>, ghost done: nat)
    requires IsSourceKind(kind)
    modifies api`calls, api`writes, api`tables
    ensures done <= |SourceChildren(kind, capp, capp.spec.sources)|
    ensures Only(old(api.tables), api.tables, kind)
    ensures api.tables(kind) ==
      UpsertAll(old(api.tables)(kind), Ref(capp), SourceChildren(kind, capp, capp.spec.sources)[..done])
    ensures err.None? ==> done == |SourceChildren(kind, capp, capp.spec.sources)|
    ensures err.None? ==> (api.writes == old(api.writes) <==>
      AllSettled(old(api.tables)(kind), Ref(capp), SourceChildren(kind, capp, capp.spec.sources)))
    ensures Ended(api.fault, old(api.calls), api.calls, err)
    ensures api.writes >= old(api.writes)
  {
    ghost var all, t0 := SourceChildren(kind, capp, capp.spec.sources), api.tables(kind);
    AllCounted(kind, capp, capp.spec.sources);
    err, done := None, 0;
    var i := 0;
    while i < |capp.spec.sources|
      invariant 0 <= i <= |capp.spec.sources|
      invariant done == CountSources(kind, capp, capp.spec.sources, i) && done <= |all|
      invariant Only(old(api.tables), api.tables, kind)
      invariant api.tables(kind) == UpsertAll(t0, Ref(capp), all[..done])
      invariant err.None? && Ended(api.fault, old(api.calls), api.calls, None)
      invariant api.writes >= old(api.writes)
      invariant api.writes == old(api.writes) <==> AllSettled(t0, Ref(capp), all[..done])
    {
      ghost var mid := api.calls;
      err, done := ApplySource(api, kind, capp, i, t0, done);
      EndedThen(api.fault, old(api.calls), mid, api.calls, err);
      if err.Some? {
        return;
      }
      i := i + 1;
    }
    assert all[..done] == all;
  }

  // ---------------------------------------------------------------- removal

  function FirstIds(items: seq<Child>, n: nat): set<Id>
    requires n <= |items|
  {
    set i | 0 <= i < n :: items[i].id
  }

  /** Once all listed objects have been seen to, all that was to go is gone. */
  lemma AllSeenTo(items: seq<Child>, t: Table, capp: Capp, kind: Kind)
    requires kind != Service && Lists(items, t, capp.id.ns, Selector(kind, capp))
    ensures FirstIds(items, |items|) * Doomed(kind, t, capp) == Doomed(kind, t, capp)
  {
    AllListed(items, t, capp, kind);
  }

  lemma AllListed(items: seq<Child>, t: Table, capp: Capp, kind: Kind)
    requires Lists(items, t, capp.id.ns, Selector(kind, capp))
    ensures FirstIds(items, |items|) == Labelled(kind, t, capp)
  {
  }

  /** The object itself, unless it is left to garbage collection. */
  function Unowned(capp: Capp, item: Child): set<Id> {
    if capp.deleting && HasOwner(item.obj.owners, Ref(capp)) then {} else {item.id}
  }

  lemma UnownedIsDoomed(kind: Kind, t: Table, capp: Capp, items: seq<Child>, i: nat)
    requires kind != Service && i < |items| && Lists(items, t, capp.id.ns, Selector(kind, capp))
    ensures Unowned(capp, items[i]) == {items[i].id} * Doomed(kind, t, capp)
  {
    assert items[i].id in Labelled(kind, t, capp);
  }

  lemma DropStep(t: Table, doomed: set<Id>, items: seq<Child>, i: nat, gone: set<Id>)
    requires i < |items| && gone == {items[i].id} * doomed
    ensures t - FirstIds(items, i) * doomed - gone == t - FirstIds(items, i + 1) * doomed
    ensures FirstIds(items, i + 1) * doomed == {} <==> FirstIds(items, i) * doomed == {} && gone == {}
  {
    assert FirstIds(items, i + 1) == FirstIds(items, i) + {items[i].id};
    assert FirstIds(items, i + 1) * doomed == FirstIds(items, i) * doomed + gone;
  }

  lemma NoneSeenTo(t: Table, items: seq<Child>, doomed: set<Id>)
    ensures FirstIds(items, 0) * doomed == {} && t - FirstIds(items, 0) * doomed == t
  {
  }

  lemma StillShrunk(before: Table, mid: Table, after: Table, gone: set<Id>, next: set<Id>, doomed: set<Id>)
    requires mid == before - gone && Shrunk(mid, after, next) && gone <= doomed && next <= doomed
    ensures Shrunk(before, after, doomed)
  {
  }

  /** Deletes one object; a missing one is fine. */
  method DeleteIfPresent(api: Api, kind: Kind, id: Id) returns (err: Option<ApiError>)
    modifies api`calls, api`writes, api`tables
    ensures Only(old(api.tables), api.tables, kind)
    ensures err.None? ==> api.tables(kind) == old(api.tables)(kind) - {id}
    ensures Shrunk(old(api.tables)(kind), api.tables(kind), {id})
    ensures Ended(api.fault, old(api.calls), api.calls, err)
    ensures api.writes == old(api.writes) + 1
  {
    err := api.Delete(kind, id);
    if err == Some(NotFound) {
      err := None;
    }
  }

  /** `deleteOwnedResources`: deletes the listed objects, but under deletion of the Capp skips those
      it owns. */
  method DeleteOwnedResources(api: Api, kind: Kind, capp: Capp, items: seq<Child>) returns (err: Option<ApiError>)
    requires kind != Service && Lists(items, api.tables(kind), capp.id.ns, Selector(kind, capp))
    modifies api`calls, api`writes, api`tables
    ensures err.None? ==>
      api.tables(kind) == old(api.tables)(kind) - Doomed(kind, old(api.tables)(kind), capp)
    ensures err.None? ==> (api.writes == old(api.writes) <==> Doomed(kind, old(api.tables)(kind), capp) == {})
    ensures Only(old(api.tables), api.tables, kind)
    ensures Shrunk(old(api.tables)(kind), api.tables(kind), Doomed(kind, old(api.tables)(kind), capp))
    ensures Ended(api.fault, old(api.calls), api.calls, err)
    ensures api.writes >= old(api.writes)
  {
    ghost var t0 := api.tables(kind);
    ghost var doomed := Doomed(kind, t0, capp);
    NoneSeenTo(t0, items, doomed);
    var i := 0;
    while i < |items|
      invariant 0 <= i <= |items|
      invariant Only(old(api.tables), api.tables, kind)
      invariant api.tables(kind) == t0 - FirstIds(items, i) * doomed
      invariant Ended(api.fault, old(api.calls), api.calls, None)
      invariant api.writes >= old(api.writes)
      invariant api.writes == old(api.writes) <==> FirstIds(items, i) * doomed == {}
    {
      var item := items[i];
      UnownedIsDoomed(kind, t0, capp, items, i);
      DropStep(t0, doomed, items, i, Unowned(capp, item));
      if capp.deleting && HasOwner(item.obj.owners, Ref(capp)) {
        i := i + 1;
        continue;
      }
      ghost var t1, mid := api.tables(kind), api.calls;
      err := DeleteIfPresent(api, kind, item.id);
      EndedThen(api.fault, old(api.calls), mid, api.calls, err);
      if err.Some? {
        StillShrunk(t0, t1, api.tables(kind), FirstIds(items, i) * doomed, {item.id}, doomed);
        return;
      }
      i := i + 1;
    }
    AllSeenTo(items, t0, capp, kind);
    err := None;
  }

  lemma {:induction false} OrphansListed(items: seq<Child>, names: set<string>, kind: Kind, t: Table, capp: Capp)
    requires IsSourceKind(kind) && Lists(items, t, capp.id.ns, Selector(kind, capp))
    requires names == set s | s in capp.spec.sources && SourceOf(kind, s) :: SourceName(capp, s)
    ensures var orphans := Orphans(kind, t, capp, SourceChildren(kind, capp, capp.spec.sources));
      && (forall i :: 0 <= i < |items| ==> (items[i].id in orphans <==> items[i].id.name !in names))
      && FirstIds(items, |items|) * orphans == orphans
  {
    AllListed(items, t, capp, kind);
    forall i | 0 <= i < |items|
      ensures items[i].id in Ids(SourceChildren(kind, capp, capp.spec.sources)) <==> items[i].id.name in names
    {
      NamesAndIds(kind, capp, capp.spec.sources, items[i].id);
    }
  }

  /** `cleanUpOrphans`: deletes the listed sources that no entry of the Capp names any more. */
  method CleanUpOrphans(api: Api, kind: Kind, capp: Capp) returns (err: Option<ApiError>)
    requires IsSourceKind(kind)
    modifies api`calls, api`writes, api`tables
    ensures err.None? ==>
      api.tables(kind) == old(api.tables)(kind)
        - Orphans(kind, old(api.tables)(kind), capp, SourceChildren(kind, capp, capp.spec.sources))
    ensures err.None? ==> (api.writes == old(api.writes) <==>
      Orphans(kind, old(api.tables)(kind), capp, SourceChildren(kind, capp, capp.spec.sources)) == {})
    ensures Only(old(api.tables), api.tables, kind)
    ensures Shrunk(old(api.tables)(kind), api.tables(kind),
      Orphans(kind, old(api.tables)(kind), capp, SourceChildren(kind, capp, capp.spec.sources)))
    ensures Ended(api.fault, old(api.calls), api.calls, err)
    ensures api.writes >= old(api.writes)
  {
    var desired := DesiredNames(kind, capp);
    EndedCall(api.fault, api.calls);
    var listed := api.List(kind, capp.id.ns, Selector(kind, capp));
    if listed.Err? {
      return Some(listed.error);
    }
    ghost var mid := api.calls;
    OrphansListed(listed.value, desired, kind, api.tables(kind), capp);
    err := DeleteOrphans(api, kind, listed.value, desired,
                         Orphans(kind, api.tables(kind), capp, SourceChildren(kind, capp, capp.spec.sources)));
    EndedThen(api.fault, old(api.calls), mid, api.calls, err);
  }

  method DeleteOrphans(api: Api, kind: Kind, items: seq<Child>, desired: set<string>, ghost orphans: set<Id>)
    returns (err: Option<ApiError>)
    requires forall i :: 0 <= i < |items| ==> (items[i].id in orphans <==> items[i].id.name !in desired)
    requires FirstIds(items, |items|) * orphans == orphans
    modifies api`calls, api`writes, api`tables
    ensures err.None? ==> api.tables(kind) == old(api.tables)(kind) - orphans
    ensures err.None? ==> (api.writes == old(api.writes) <==> orphans == {})
    ensures Only(old(api.tables), api.tables, kind) && Shrunk(old(api.tables)(kind), api.tables(kind), orphans)
    ensures Ended(api.fault, old(api.calls), api.calls, err)
    ensures api.writes >= old(api.writes)
  {
    ghost var t0 := api.tables(kind);
    NoneSeenTo(t0, items, orphans);
    var i := 0;
    while i < |items|
      invariant 0 <= i <= |items|
      invariant Only(old(api.tables), api.tables, kind)
      invariant api.tables(kind) == t0 - FirstIds(items, i) * orphans
      invariant Ended(api.fault, old(api.calls), api.calls, None)
      invariant api.writes >= old(api.writes)
      invariant api.writes == old(api.writes) <==> FirstIds(items, i) * orphans == {}
    {
      var item := items[i];
      DropStep(t0, orphans, items, i, if item.id.name in desired then {} else {item.id});
      if item.id.name !in desired {
        ghost var t1 := api.tables(kind);
        err := DeleteIfPresent(api, kind, item.id);
        StillShrunk(t0, t1, api.tables(kind), FirstIds(items, i) * orphans, {item.id}, orphans);
        if err.Some? {
          return;
        }
      }
      i := i + 1;
    }
    err := None;
  }

  method DesiredNames(kind: Kind, capp: Capp) returns (names: set<string>)
    requires IsSourceKind(kind)
    ensures names == set s | s in capp.spec.sources && SourceOf(kind, s) :: SourceName(capp, s)
  {
    names := {};
    var sources := capp.spec.sources;
    for i := 0 to |sources|
      invariant names == set j | 0 <= j < i && SourceOf(kind, sources[j]) :: SourceName(capp, sources[j])
    {
      if SourceOf(kind, sources[i]) {
        names := names + {SourceName(capp, sources[i])};
      }
    }
  }

  lemma {:induction false} NamesAndIds(kind: Kind, capp: Capp, sources: seq<Source>, id: Id)
    requires IsSourceKind(kind) && id.ns == capp.id.ns
    ensures id in Ids(SourceChildren(kind, capp, sources))
       <==> exists s :: s in sources && SourceOf(kind, s) && SourceName(capp, s) == id.name
  {
    if sources != [] {
      var before, last := sources[..|sources| - 1], sources[|sources| - 1];
      NamesAndIds(kind, capp, before, id);
      assert sources == before + [last];
      assert forall s :: s in sources <==> s in before || s == last;
      var children := SourceChildren(kind, capp, before);
      if SourceOf(kind, last) {
        var c := SourceChild(kind, capp, last);
        assert Ids(children + [c]) == Ids(children) + {c.id};
      }
    }
  }

  method CleanUpService(api: Api, capp: Capp) returns (err: Option<ApiError>)
    modifies api`calls, api`writes, api`tables
    ensures err.None? ==> CleanedBy(Service, old(api.tables), api.tables, capp)
    ensures err.None? ==> (api.writes == old(api.writes) <==> Doomed(Service, old(api.tables)(Service), capp) == {})
    ensures Receded(Service, old(api.tables), api.tables, capp)
    ensures Ended(api.fault, old(api.calls), api.calls, err)
    ensures api.writes >= old(api.writes)
  {
    ghost var t0 := api.tables(Service);
    ghost var doomed := Doomed(Service, t0, capp);
    var got := api.Get(Service, capp.id);
    if got.Err? {
      assert got.error == NotFound ==> doomed == {} && t0 - doomed == t0;
      return if got.error == NotFound then None else Some(got.error);
    }
    if capp.deleting && HasOwner(got.value.owners, Ref(capp)) {
      assert doomed == {} && t0 - doomed == t0;
      return None;
    }
    assert doomed == {capp.id};
    err := DeleteIfPresent(api, Service, capp.id);
  }

  /** Deletes the TLS secret of one DomainMapping, if there is one. */
  method DeleteTLSSecret(api: Api, mapping: Id) returns (err: Option<ApiError>)
    modifies api`calls, api`writes, api`tables
    ensures Only(old(api.tables), api.tables, Secret)
    ensures err.None? ==> api.tables(Secret) == old(api.tables)(Secret) - {SecretId(mapping)}
    ensures err.None? ==> (api.writes == old(api.writes) <==> SecretId(mapping) !in old(api.tables)(Secret))
    ensures err.Some? ==>
      || api.tables(Secret) == old(api.tables)(Secret)
      || api.tables(Secret) == old(api.tables)(Secret) - {SecretId(mapping)}
    ensures Ended(api.fault, old(api.calls), api.calls, err)
    ensures api.writes >= old(api.writes)
  {
    var got := api.Get(Secret, SecretId(mapping));
    if got.Err? {
      assert got.error == NotFound ==> api.tables(Secret) - {SecretId(mapping)} == api.tables(Secret);
      return if got.error == NotFound then None else Some(got.error);
    }
    err := api.Delete(Secret, SecretId(mapping));
  }

  /** One DomainMapping, then its TLS secret. */
  method CleanUpMapping(api: Api, capp: Capp, item: Child) returns (err: Option<ApiError>)
    modifies api`calls, api`writes, api`tables
    ensures forall k: Kind :: k != DomainMapping && k != Secret ==> api.tables(k) == old(api.tables)(k)
    ensures err.None? ==> api.tables(DomainMapping) == old(api.tables)(DomainMapping) - Unowned(capp, item)
    ensures err.None? ==> api.tables(Secret) == old(api.tables)(Secret) - {SecretId(item.id)}
    ensures err.None? ==> (api.writes == old(api.writes) <==>
      Unowned(capp, item) == {} && SecretId(item.id) !in old(api.tables)(Secret))
    ensures Shrunk(old(api.tables)(DomainMapping), api.tables(DomainMapping), Unowned(capp, item))
    ensures Shrunk(old(api.tables)(Secret), api.tables(Secret), {SecretId(item.id)})
    ensures Ended(api.fault, old(api.calls), api.calls, err)
    ensures api.writes >= old(api.writes)
  {
    var ownedByCapp := false;
    if capp.deleting {
      ownedByCapp := HasOwner(item.obj.owners, Ref(capp));
    }
    if !ownedByCapp {
      err := DeleteIfPresent(api, DomainMapping, item.id);
      if err.Some? {
        return;
      }
    } else {
      assert api.tables(DomainMapping) - {} == api.tables(DomainMapping);
    }
    err := DeleteTLSSecret(api, item.id);
  }

  lemma SecretStep(secrets: Table, items: seq<Child>, i: nat)
    requires i < |items|
    ensures secrets - FirstSecrets(items, i) - {SecretId(items[i].id)} == secrets - FirstSecrets(items, i + 1)
    ensures FirstSecrets(items, i + 1) !! secrets.Keys <==>
      FirstSecrets(items, i) !! secrets.Keys && SecretId(items[i].id) !in secrets
  {
    assert FirstSecrets(items, i + 1) == FirstSecrets(items, i) + {SecretId(items[i].id)};
  }

  lemma DoomedListed(items: seq<Child>, t: Table, capp: Capp)
    requires Lists(items, t, capp.id.ns, Selector(DomainMapping, capp))
    ensures forall i :: 0 <= i < |items| ==> Unowned(capp, items[i]) == {items[i].id} * Doomed(DomainMapping, t, capp)
    ensures forall i :: 0 <= i < |items| ==> SecretId(items[i].id) !in FirstSecrets(items, i)
    ensures FirstIds(items, |items|) * Doomed(DomainMapping, t, capp) == Doomed(DomainMapping, t, capp)
  {
    forall i | 0 <= i < |items|
      ensures Unowned(capp, items[i]) == {items[i].id} * Doomed(DomainMapping, t, capp)
      ensures SecretId(items[i].id) !in FirstSecrets(items, i)
    {
      UnownedIsDoomed(DomainMapping, t, capp, items, i);
      SecretsDistinct(items, i);
    }
    AllSeenTo(items, t, capp, DomainMapping);
  }

  /** Deletes the listed DomainMappings (but, under deletion, not those the Capp owns) and the TLS secret
      of every one of them. */
  method DeleteMappings(api: Api, capp: Capp, items: seq<Child>, ghost doomed: set<Id>) returns (err: Option<ApiError>)
    requires forall i :: 0 <= i < |items| ==> Unowned(capp, items[i]) == {items[i].id} * doomed
    requires forall i :: 0 <= i < |items| ==> SecretId(items[i].id) !in FirstSecrets(items, i)
    requires FirstIds(items, |items|) * doomed == doomed
    modifies api`calls, api`writes, api`tables
    ensures forall k: Kind :: k != DomainMapping && k != Secret ==> api.tables(k) == old(api.tables)(k)
    ensures err.None? ==>
      && api.tables(DomainMapping) == old(api.tables)(DomainMapping) - doomed
      && api.tables(Secret) == old(api.tables)(Secret) - FirstSecrets(items, |items|)
      && (api.writes == old(api.writes) <==>
        doomed == {} && FirstSecrets(items, |items|) !! old(api.tables)(Secret).Keys)
    ensures Shrunk(old(api.tables)(DomainMapping), api.tables(DomainMapping), doomed)
    ensures Shrunk(old(api.tables)(Secret), api.tables(Secret), FirstSecrets(items, |items|))
    ensures Ended(api.fault, old(api.calls), api.calls, err)
    ensures api.writes >= old(api.writes)
  {
    ghost var t0, s0 := api.tables(DomainMapping), api.tables(Secret);
    NoneSeenTo(t0, items, doomed);
    assert s0 - FirstSecrets(items, 0) == s0;
    var i := 0;
    while i < |items|
      invariant 0 <= i <= |items|
      invariant forall k: Kind :: k != DomainMapping && k != Secret ==> api.tables(k) == old(api.tables)(k)
      invariant api.tables(DomainMapping) == t0 - FirstIds(items, i) * doomed
      invariant api.tables(Secret) == s0 - FirstSecrets(items, i)
      invariant Ended(api.fault, old(api.calls), api.calls, None)
      invariant api.writes >= old(api.writes)
      invariant api.writes == old(api.writes) <==>
        FirstIds(items, i) * doomed == {} && FirstSecrets(items, i) !! s0.Keys
    {
      var item := items[i];
      DropStep(t0, doomed, items, i, Unowned(capp, item));
      SecretStep(s0, items, i);
      ghost var t1, s1 := api.tables(DomainMapping), api.tables(Secret);
      err := CleanUpMapping(api, capp, item);
      StillShrunk(t0, t1, api.tables(DomainMapping), FirstIds(items, i) * doomed, Unowned(capp, item), doomed);
      StillShrunk(s0, s1, api.tables(Secret), FirstSecrets(items, i), {SecretId(item.id)},
                  FirstSecrets(items, |items|));
      if err.Some? {
        return;
      }
      i := i + 1;
    }
    err := None;
  }

  method CleanUpDomainMappings(api: Api, capp: Capp) returns (err: Option<ApiError>)
    modifies api`calls, api`writes, api`tables
    ensures err.None? ==> CleanedBy(DomainMapping, old(api.tables), api.tables, capp)
    ensures err.None? ==> (api.writes == old(api.writes) <==>
      && Doomed(DomainMapping, old(api.tables)(DomainMapping), capp) == {}
      && TLSSecrets(old(api.tables)(DomainMapping), capp) !! old(api.tables)(Secret).Keys)
    ensures Receded(DomainMapping, old(api.tables), api.tables, capp)
    ensures Ended(api.fault, old(api.calls), api.calls, err)
    ensures api.writes >= old(api.writes)
  {
    var listed := api.List(DomainMapping, capp.id.ns, Selector(DomainMapping, capp));
    if listed.Err? {
      return Some(listed.error);
    }
    AllListed(listed.value, api.tables(DomainMapping), capp, DomainMapping);
    AllSecrets(listed.value, api.tables(DomainMapping), capp);
    DoomedListed(listed.value, api.tables(DomainMapping), capp);
    err := DeleteMappings(api, capp, listed.value, Doomed(DomainMapping, api.tables(DomainMapping), capp));
  }

  function FirstSecrets(items: seq<Child>, n: nat): set<Id>
    requires n <= |items|
  {
    set i | 0 <= i < n :: SecretId(items[i].id)
  }

  lemma AllSecrets(items: seq<Child>, t: Table, capp: Capp)
    requires FirstIds(items, |items|) == Labelled(DomainMapping, t, capp)
    ensures FirstSecrets(items, |items|) == TLSSecrets(t, capp)
  {
    forall s | s in TLSSecrets(t, capp) ensures s in FirstSecrets(items, |items|) {
      var id :| id in Labelled(DomainMapping, t, capp) && s == SecretId(id);
      assert id in FirstIds(items, |items|);
    }
    forall s | s in FirstSecrets(items, |items|) ensures s in TLSSecrets(t, capp) {
      var i :| 0 <= i < |items| && s == SecretId(items[i].id);
      assert items[i].id in FirstIds(items, |items|);
    }
  }

  lemma SecretsDistinct(items: seq<Child>, i: nat)
    requires i < |items| && forall p, q :: 0 <= p < q < |items| ==> items[p].id != items[q].id
    ensures SecretId(items[i].id) !in FirstSecrets(items, i)
  {
    forall p | 0 <= p < i ensures SecretId(items[p].id) != SecretId(items[i].id) {
      if SecretId(items[p].id) == SecretId(items[i].id) {
        TLSSecretNameInjective(items[p].id.name, items[i].id.name);
      }
    }
  }

  // ---------------------------------------------------------------- the manager interface

  method CleanUp(api: Api, kind: Kind, capp: Capp) returns (err: Option<ApiError>)
    requires kind != Secret
    modifies api`calls, api`writes, api`tables
    ensures err.None? ==> CleanedBy(kind, old(api.tables), api.tables, capp)
    ensures err.None? ==> (api.writes == old(api.writes) <==>
      && Doomed(kind, old(api.tables)(kind), capp) == {}
      && (kind == DomainMapping ==> TLSSecrets(old(api.tables)(DomainMapping), capp) !! old(api.tables)(Secret).Keys))
    ensures Receded(kind, old(api.tables), api.tables, capp)
    ensures Ended(api.fault, old(api.calls), api.calls, err)
    ensures api.writes >= old(api.writes)
  {
    if kind == Service {
      err := CleanUpService(api, capp);
    } else if kind == DomainMapping {
      err := CleanUpDomainMappings(api, capp);
    } else {
      err := CleanUpListed(api, kind, capp);
    }
  }

  /** Lists the labelled objects of a kind and deletes those that garbage collection would miss. */
  method CleanUpListed(api: Api, kind: Kind, capp: Capp) returns (err: Option<ApiError>)
    requires kind != Service
    modifies api`calls, api`writes, api`tables
    ensures var doomed := Doomed(kind, old(api.tables)(kind), capp);
      && (err.None? ==> api.tables(kind) == old(api.tables)(kind) - doomed)
      && (err.None? ==> (api.writes == old(api.writes) <==> doomed == {}))
      && Shrunk(old(api.tables)(kind), api.tables(kind), doomed)
    ensures Only(old(api.tables), api.tables, kind)
    ensures Ended(api.fault, old(api.calls), api.calls, err)
    ensures api.writes >= old(api.writes)
  {
    EndedCall(api.fault, api.calls);
    var listed := api.List(kind, capp.id.ns, Selector(kind, capp));
    if listed.Err? {
      return Some(listed.error);
    }
    ghost var mid := api.calls;
    err := DeleteOwnedResources(api, kind, capp, listed.value);
    EndedThen(api.fault, old(api.calls), mid, api.calls, err);
  }

  method ManageSources(api: Api, kind: Kind, capp: Capp, env: Env) returns (err: Option<ApiError>)
    requires IsSourceKind(kind) && IsRequired(kind, capp)
    modifies api`calls, api`writes, api`tables
    ensures err.None? ==> AppliedBy(kind, old(api.tables), api.tables, capp, env)
    ensures err.None? ==> (api.writes == old(api.writes) <==>
      Quiet(kind, old(api.tables)(kind), old(api.tables)(Secret), capp, env))
    ensures err.Some? ==> Reached(kind, old(api.tables), api.tables, capp, env)
    ensures Ended(api.fault, old(api.calls), api.calls, err)
    ensures api.writes >= old(api.writes)
  {
    ghost var t0, children := api.tables(kind), Children(kind, api.tables(Secret), capp, env);
    ghost var done;
    err, done := CreateOrUpdateSources(api, kind, capp);
    if err.Some? {
      return;
    }
    assert children[..done] == children;
    if AllSettled(t0, Ref(capp), children) {
      SettledUpserts(t0, Ref(capp), children);
    }
    ghost var mid := api.calls;
    err := CleanUpOrphans(api, kind, capp);
    EndedThen(api.fault, old(api.calls), mid, api.calls, err);
  }

  /** Creates or updates what the Capp requires of a kind, or cleans up what it does not. */
  method Manage(api: Api, kind: Kind, capp: Capp, env: Env) returns (err: Option<ApiError>)
    requires kind != Secret
    modifies api`calls, api`writes, api`tables
    ensures err.None? ==> AppliedBy(kind, old(api.tables), api.tables, capp, env)
    ensures err.None? ==> (api.writes == old(api.writes) <==>
      Quiet(kind, old(api.tables)(kind), old(api.tables)(Secret), capp, env))
    ensures err.Some? ==> Reached(kind, old(api.tables), api.tables, capp, env)
    ensures if Panics(kind, capp, env) then
        err == Some(Panic) && api.tables == old(api.tables) && api.calls == old(api.calls)
      else Ended(api.fault, old(api.calls), api.calls, err)
    ensures api.writes >= old(api.writes)
  {
    if !IsRequired(kind, capp) {
      err := CleanUp(api, kind, capp);
      return;
    }
    if kind == CNAMERecord {
      err := CreateOrUpdateRecord(api, capp, env);
    } else if IsSourceKind(kind) {
      err := ManageSources(api, kind, capp, env);
    } else if kind == NfsPvc {
      ghost var children, done := Children(NfsPvc, api.tables(Secret), capp, env), 0;
      err, done := CreateOrUpdateVolumes(api, capp);
      assert err.None? ==> children[..done] == children;
    } else {
      err := ManageSingle(api, kind, capp, env);
    }
  }

  /** The managers of one object: Knative Service, Certificate, DomainMapping. */
  method ManageSingle(api: Api, kind: Kind, capp: Capp, env: Env) returns (err: Option<ApiError>)
    requires kind in {Service, Certificate, DomainMapping} && IsRequired(kind, capp)
    modifies api`calls, api`writes, api`tables
    ensures err.None? ==> AppliedBy(kind, old(api.tables), api.tables, capp, env)
    ensures err.None? ==> (api.writes == old(api.writes) <==>
      Quiet(kind, old(api.tables)(kind), old(api.tables)(Secret), capp, env))
    ensures err.Some? ==> Reached(kind, old(api.tables), api.tables, capp, env)
    ensures Ended(api.fault, old(api.calls), api.calls, err)
    ensures api.writes >= old(api.writes)
  {
    ghost var before := api.tables;
    var prepared := PrepareSingle(api, kind, capp, env);
    if prepared.Err? {
      UntouchedIsReached(kind, before, capp, env);
      return Some(prepared.error);
    }
    ghost var applied;
    err, applied := CreateOrUpdate(api, kind, capp, prepared.value);
    SingleOutcome(kind, before, api.tables, capp, env, prepared.value, applied);
  }

  lemma UntouchedIsReached(kind: Kind, tables: Tables, capp: Capp, env: Env)
    requires IsRequired(kind, capp)
    ensures Reached(kind, tables, tables, capp, env)
  {
    var children := Children(kind, tables(Secret), capp, env);
    assert tables(kind) == UpsertAll(tables(kind), Ref(capp), children[..0]);
  }

  /** Applying the one child of a manager is all there is to do for it. */
  lemma SingleOutcome(kind: Kind, before: Tables, after: Tables, capp: Capp, env: Env, c: Child, applied: bool)
    requires kind in {Service, Certificate, DomainMapping} && IsRequired(kind, capp)
    requires Children(kind, before(Secret), capp, env) == [c] && Only(before, after, kind)
    requires after(kind) == if applied then Upsert(before(kind), Ref(capp), c) else before(kind)
    ensures applied ==> AppliedBy(kind, before, after, capp, env)
    ensures Reached(kind, before, after, capp, env)
    ensures Quiet(kind, before(kind), before(Secret), capp, env) <==> Settled(before(kind), Ref(capp), c)
  {
    SingleChild(before(kind), Ref(capp), c);
    assert after(kind) == UpsertAll(before(kind), Ref(capp), [c][..if applied then 1 else 0]);
  }

  method PrepareSingle(api: Api, kind: Kind, capp: Capp, env: Env) returns (r: Result<Child>)
    requires kind in {Service, Certificate, DomainMapping} && IsRequired(kind, capp)
    modifies api`calls
    ensures r.Ok? ==> Children(kind, api.tables(Secret), capp, env) == [r.value]
    ensures Ended(api.fault, old(api.calls), api.calls, ErrorIn(r))
  {
    if kind == DomainMapping {
      r := PrepareDomainMapping(api, capp, env);
    } else if kind == Certificate {
      r := Ok(CertificateChild(capp, env));
    } else {
      var child := PrepareService(capp, env);
      r := Ok(child);
    }
  }

  /** The mapping refers to the TLS secret only when the secret is already there. */
  method PrepareDomainMapping(api: Api, capp: Capp, env: Env) returns (r: Result<Child>)
    modifies api`calls
    ensures r.Ok? ==> r.value == DomainMappingChild(capp, env, api.tables(Secret))
    ensures Ended(api.fault, old(api.calls), api.calls, ErrorIn(r))
  {
    var name := RouteName(capp, env);
    var secret := GenerateTLSSecretName(name);
    var tls := None;
    if capp.spec.route.tlsEnabled {
      var got := api.Get(Secret, Id(capp.id.ns, secret));
      if got.Err? {
        if got.error != NotFound {
          return Err(got.error);
        }
      } else {
        tls := Some(secret);
      }
    }
    r := Ok(Prepared(DomainMapping, capp, name, DomainMappingSpec(capp.id.name, tls)));
  }

  method PrepareService(capp: Capp, env: Env) returns (child: Child)
    ensures child == ServiceChild(capp, env)
  {
    var annotations := ForwardedAnnotations(capp);
    var labels := capp.labels[PARENT_KEY := capp.id.name];
    var configuration := env.library.setDefaults(capp.spec.configuration);
    ghost var defaulted := configuration;
    var volumes := capp.spec.volumes;
    for i := 0 to |volumes|
      invariant configuration == defaulted.(volumes := defaulted.volumes + VolumeNames(volumes[..i]))
    {
      assert VolumeNames(volumes[..i + 1]) == VolumeNames(volumes[..i]) + [volumes[i].name];
      configuration := configuration.(volumes := configuration.volumes + [volumes[i].name]);
      assert defaulted.volumes + VolumeNames(volumes[..i]) + [volumes[i].name]
          == defaulted.volumes + VolumeNames(volumes[..i + 1]);
    }
    assert volumes[..|volumes|] == volumes;
    configuration := configuration.(annotations :=
      annotations + AutoScaler(capp.spec.scale, env.config.autoscale, env.library.durationText));
    child := Prepared(Service, capp, capp.id.name, ServiceSpec(configuration, capp.spec.route.timeout, labels));
    child := child.(obj := child.obj.(annotations := annotations));
  }
}
