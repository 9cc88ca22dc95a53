/** Two Capps side by side: when does a pass over the one leave the other with nothing to do, and when do
    they undo each other's work for ever? */
module Neighbours {
  import opened Objects
  import opened Cluster
  import opened Desired
  import opened Naming
  import opened Convergence

  /** What a successful manager takes out of the table. */
  function Removed(kind: Kind, t: Table, secrets: Table, capp: Capp, env: Env): set<Id> {
    if !IsRequired(kind, capp) then Doomed(kind, t, capp)
    else if IsSourceKind(kind) then Orphans(kind, t, capp, Children(kind, secrets, capp, env))
    else {}
  }

  /** No child of the first Capp is removed by the second, and where both want one object, what the second
      wants already has what the first wants. */
  ghost predicate LeftAlone(kind: Kind, t: Table, secrets: Table, first: Capp, second: Capp, env: Env) {
    forall c :: c in Children(kind, secrets, first, env) ==>
      && c.id !in Removed(kind, t, secrets, second, env)
      && Undisturbed(c, Children(kind, secrets, second, env))
  }

  /** The last of the others under the child's identity has what the child asks for. */
  ghost predicate Undisturbed(c: Child, others: seq<Child>) {
    forall i :: IsLast(others, i) && others[i].id == c.id ==>
      Merge(others[i].obj.spec, c.obj.spec) == others[i].obj.spec
  }

  ghost predicate IsLast(children: seq<Child>, i: int) {
    0 <= i < |children| && forall k :: i < k < |children| ==> children[k].id != children[i].id
  }

  lemma OnlyOneDecides(c: Child, d: Child)
    ensures Undisturbed(c, [d]) <==> (d.id == c.id ==> Merge(d.obj.spec, c.obj.spec) == d.obj.spec)
  {
    assert IsLast([d], 0);
  }

  // ---------------------------------------------------------------- one object

  /** Setting one owner leaves the reference of another as it is. */
  lemma {:induction false} OtherOwnerKept(owners: seq<OwnerRef>, ref: OwnerRef, other: OwnerRef)
    requires !SameOwner(ref, other)
    ensures UidFor(SetOwner(owners, other), ref) == UidFor(owners, ref)
  {
    if owners == [] {
      assert [other][1..] == [];
    } else if SameOwner(owners[0], other) {
      assert ([other] + owners[1..])[1..] == owners[1..];
    } else {
      OtherOwnerKept(owners[1..], ref, other);
      assert ([owners[0]] + SetOwner(owners[1..], other))[1..] == SetOwner(owners[1..], other);
    }
  }

  /** What it takes for a child to be settled: its spec, and the owner's UID. */
  lemma {:induction false} SettledMeans(t: Table, ref: OwnerRef, c: Child)
    ensures Settled(t, ref, c) <==>
      c.id in t && Merge(t[c.id].spec, c.obj.spec) == t[c.id].spec && UidFor(t[c.id].owners, ref) == Some(ref.uid)
  {
    if c.id in t {
      UidForIff(t[c.id].owners, ref);
    }
  }

  lemma {:induction false} OwnerOutlasts(t: Table, other: OwnerRef, children: seq<Child>, ref: OwnerRef, id: Id)
    requires !SameOwner(ref, other) && id in t && UidFor(t[id].owners, ref) == Some(ref.uid)
    ensures id in UpsertAll(t, other, children)
    ensures UidFor(UpsertAll(t, other, children)[id].owners, ref) == Some(ref.uid)
  {
    if children != [] {
      var before := children[..|children| - 1];
      OwnerOutlasts(t, other, before, ref, id);
      OtherOwnerKept(UpsertAll(t, other, before)[id].owners, ref, other);
    }
  }

  /** A spec that has taken `d` takes `c` unmoved exactly when `d` does. */
  lemma MergeAlike(stored: Spec, d: Spec, c: Spec)
    requires Merge(stored, d) == stored
    ensures Merge(stored, c) == stored <==> Merge(d, c) == d
  {
  }

  /** A settled child after another Capp applied its own children, the last of which under the child's
      identity decides. */
  lemma {:induction false} LastOtherDecides(t: Table, other: OwnerRef, children: seq<Child>, last: nat,
                                            ref: OwnerRef, c: Child)
    requires IsLast(children, last) && children[last].id == c.id
    requires !SameOwner(ref, other) && Settled(t, ref, c)
    ensures Settled(UpsertAll(t, other, children), ref, c)
       <==> Merge(children[last].obj.spec, c.obj.spec) == children[last].obj.spec
  {
    var u, d := UpsertAll(t, other, children), children[last];
    LastDecides(t, other, children, last, d);
    SettledMeans(t, ref, c);
    OwnerOutlasts(t, other, children, ref, c.id);
    MergeAlike(u[c.id].spec, d.obj.spec, c.obj.spec);
    SettledMeans(u, ref, c);
  }

  lemma {:induction false} AppliedOver(t: Table, other: OwnerRef, children: seq<Child>, ref: OwnerRef, c: Child)
    requires Settled(t, ref, c) && (c.id in Ids(children) ==> !SameOwner(ref, other))
    ensures Settled(UpsertAll(t, other, children), ref, c) <==> Undisturbed(c, children)
  {
    if i :| 0 <= i < |children| && children[i].id == c.id {
      var last := LastIndex(children, i);
      LastOtherDecides(t, other, children, last, ref, c);
      assert forall k :: IsLast(children, k) && children[k].id == c.id ==> k == last;
    } else {
      UpsertAllFrame(t, other, children);
      assert c.id !in Ids(children);
    }
  }

  // ---------------------------------------------------------------- one table

  /** A manager adds and updates its children, and removes the rest. */
  lemma {:induction false} PassedIs(kind: Kind, t: Table, secrets: Table, capp: Capp, env: Env)
    requires kind != Secret && kind != CNAMERecord
    ensures Passed(kind, t, secrets, capp, env)
         == UpsertAll(t, Ref(capp), Children(kind, secrets, capp, env)) - Removed(kind, t, secrets, capp, env)
  {
    if IsRequired(kind, capp) && IsSourceKind(kind) {
      OrphansAsBefore(kind, t, capp, Children(kind, secrets, capp, env));
    }
  }

  lemma {:induction false} OrphansAsBefore(kind: Kind, t: Table, capp: Capp, children: seq<Child>)
    ensures Orphans(kind, UpsertAll(t, Ref(capp), children), capp, children) == Orphans(kind, t, capp, children)
  {
    UpsertAllFrame(t, Ref(capp), children);
  }

  /** Nothing comes to bear the label of a Capp by the writes of another one. */
  lemma {:induction false} NoNewLabels(kind: Kind, t: Table, children: seq<Child>, first: Capp, second: Capp)
    requires first.id != second.id && forall c :: c in children ==> Proper(kind, second, c)
    ensures Labelled(kind, UpsertAll(t, Ref(second), children), first) <= Labelled(kind, t, first)
  {
    var u := UpsertAll(t, Ref(second), children);
    UpsertAllFrame(t, Ref(second), children);
    forall id | id in Labelled(kind, u, first) ensures id in Labelled(kind, t, first) {
      if id in Ids(children) {
        UpsertAllKeeps(t, Ref(second), children, id);
        OthersLabels(kind, first, second);
      }
    }
  }

  lemma OthersLabels(kind: Kind, first: Capp, second: Capp)
    ensures first.id.name != second.id.name ==> !Matches(Selector(kind, first), LabelsFor(kind, second))
  {
    assert PARENT_KEY in Selector(kind, first) && LabelsFor(kind, second)[PARENT_KEY] == second.id.name;
  }

  lemma {:induction false} LabelsLeft(kind: Kind, t: Table, secrets: Table, first: Capp, second: Capp, env: Env)
    requires kind != Secret && first.id != second.id
    ensures Labelled(kind, Passed(kind, t, secrets, second, env), first) <= Labelled(kind, t, first)
  {
    var children := Children(kind, secrets, second, env);
    ChildrenProper(kind, secrets, second, env);
    NoNewLabels(kind, t, children, first, second);
    if kind == CNAMERecord {
      if IsRequired(kind, second) {
        assert children[..0] == [] && Upsert(t, Ref(second), children[0]) == UpsertAll(t, Ref(second), children);
      }
    } else {
      PassedIs(kind, t, secrets, second, env);
    }
  }

  /** Whatever a Capp has to clean up was there before the pass over another one. */
  lemma {:induction false} DoomedLeft(kind: Kind, t: Table, secrets: Table, first: Capp, second: Capp, env: Env)
    requires kind != Secret && first.id != second.id && !first.deleting
    ensures Doomed(kind, Passed(kind, t, secrets, second, env), first) <= Doomed(kind, t, first)
  {
    if kind == Service {
      PassedIs(kind, t, secrets, second, env);
      UpsertAllFrame(t, Ref(second), Children(kind, secrets, second, env));
    } else {
      LabelsLeft(kind, t, secrets, first, second, env);
    }
  }

  // ---------------------------------------------------------------- one kind

  lemma {:induction false} ChildLeft(kind: Kind, t: Table, secrets: Table, first: Capp, second: Capp, env: Env,
                                     c: Child)
    requires kind != Secret && kind != CNAMERecord && first.id != second.id && c.id.ns == first.id.ns
    requires Settled(t, Ref(first), c)
    ensures Settled(Passed(kind, t, secrets, second, env), Ref(first), c) <==>
      c.id !in Removed(kind, t, secrets, second, env) && Undisturbed(c, Children(kind, secrets, second, env))
  {
    PassedIs(kind, t, secrets, second, env);
    ChildrenProper(kind, secrets, second, env);
    AppliedOver(t, Ref(second), Children(kind, secrets, second, env), Ref(first), c);
  }

  lemma {:induction false} ChildrenLeftIff(kind: Kind, t: Table, secrets: Table, first: Capp, second: Capp, env: Env)
    requires kind != Secret && kind != CNAMERecord && first.id != second.id
    requires AllSettled(t, Ref(first), Children(kind, secrets, first, env))
    ensures AllSettled(Passed(kind, t, secrets, second, env), Ref(first), Children(kind, secrets, first, env))
       <==> LeftAlone(kind, t, secrets, first, second, env)
  {
    var children, after := Children(kind, secrets, first, env), Passed(kind, t, secrets, second, env);
    ChildrenProper(kind, secrets, first, env);
    forall c | c in children
      ensures Settled(after, Ref(first), c) <==>
        c.id !in Removed(kind, t, secrets, second, env) && Undisturbed(c, Children(kind, secrets, second, env))
    {
      ChildLeft(kind, t, secrets, first, second, env, c);
    }
  }

  lemma {:induction false} RequiredLeftIff(kind: Kind, t: Table, secrets: Table, first: Capp, second: Capp, env: Env)
    requires kind != Secret && kind != CNAMERecord && IsRequired(kind, first)
    requires first.id != second.id && Quiet(kind, t, secrets, first, env)
    ensures Quiet(kind, Passed(kind, t, secrets, second, env), secrets, first, env)
       <==> LeftAlone(kind, t, secrets, first, second, env)
  {
    ChildrenLeftIff(kind, t, secrets, first, second, env);
    LabelsLeft(kind, t, secrets, first, second, env);
  }

  /** A stored record that has what the first Capp wants, after the second Capp's manager saw it. */
  lemma {:induction false} RecordTaken(o: Obj, ref: OwnerRef, c: Obj, other: OwnerRef, d: Obj)
    requires c.spec.CNAMERecordSpec? && d.spec.CNAMERecordSpec? && !SameOwner(ref, other)
    requires !RecordNeedsUpdate(o, c, ref)
    ensures var after := if RecordNeedsUpdate(o, d, other) then Updated(o, other, d) else o;
      !RecordNeedsUpdate(after, c, ref) <==> Merge(d.spec, c.spec) == d.spec
  {
    OtherOwnerKept(o.owners, ref, other);
    UidForIff(o.owners, ref);
    UidForIff(SetOwner(o.owners, other), ref);
  }

  lemma {:induction false} RecordsLeftIff(t: Table, secrets: Table, first: Capp, second: Capp, env: Env)
    requires IsRequired(CNAMERecord, first) && first.id != second.id
    requires Quiet(CNAMERecord, t, secrets, first, env)
    ensures Quiet(CNAMERecord, Passed(CNAMERecord, t, secrets, second, env), secrets, first, env)
       <==> LeftAlone(CNAMERecord, t, secrets, first, second, env)
  {
    var c, after := RecordChild(first, env), Passed(CNAMERecord, t, secrets, second, env);
    assert Children(CNAMERecord, secrets, first, env) == [c] && c in [c];
    if IsRequired(CNAMERecord, second) {
      var d := RecordChild(second, env);
      OnlyOneDecides(c, d);
      assert Children(CNAMERecord, secrets, second, env) == [d];
      assert after == UpsertRecord(t, Ref(second), d);
      if d.id == c.id {
        RecordTaken(t[c.id], Ref(first), c.obj, Ref(second), d.obj);
      }
    }
  }

  // ---------------------------------------------------------------- the condition

  /** For every kind: once a Capp has nothing to do, a successful pass over another one keeps it so exactly when
      the other leaves its objects alone. */
  lemma {:induction false} StaysQuietIff(kind: Kind, t: Table, secrets: Table, first: Capp, second: Capp, env: Env)
    requires kind != Secret && first.id != second.id && !first.deleting
    requires Quiet(kind, t, secrets, first, env)
    ensures Quiet(kind, Passed(kind, t, secrets, second, env), secrets, first, env)
       <==> LeftAlone(kind, t, secrets, first, second, env)
  {
    if !IsRequired(kind, first) {
      DoomedLeft(kind, t, secrets, first, second, env);
      LabelsLeft(kind, t, secrets, first, second, env);
    } else if kind == CNAMERecord {
      RecordsLeftIff(t, secrets, first, second, env);
    } else {
      RequiredLeftIff(kind, t, secrets, first, second, env);
    }
  }

  /** A mapping that the second Capp leaves keeps the secret it refers to. */
  lemma {:induction false} MappingKeepsSecret(t: Table, secrets: Table, first: Capp, second: Capp, env: Env)
    requires IsRequired(DomainMapping, first)
    requires DomainMappingChild(first, env, secrets).id !in Labelled(DomainMapping, t, second)
    ensures DomainMappingChild(first, env, secrets - TLSSecrets(t, second)) == DomainMappingChild(first, env, secrets)
  {
    var mine := DomainMappingChild(first, env, secrets).id;
    if SecretId(mine) in TLSSecrets(t, second) {
      var id :| id in Labelled(DomainMapping, t, second) && SecretId(id) == SecretId(mine);
      TLSSecretNameInjective(id.name, mine.name);
      assert false;
    }
  }

  lemma {:induction false} MappingsStayQuietIff(t: Table, secrets: Table, first: Capp, second: Capp, env: Env)
    requires first.id != second.id && !first.deleting && !second.deleting && !IsRequired(DomainMapping, second)
    requires Quiet(DomainMapping, t, secrets, first, env)
    ensures Quiet(DomainMapping, t - Doomed(DomainMapping, t, second), secrets - TLSSecrets(t, second), first, env)
       <==> LeftAlone(DomainMapping, t, secrets, first, second, env)
  {
    StaysQuietIff(DomainMapping, t, secrets, first, second, env);
    if IsRequired(DomainMapping, first) {
      var c := DomainMappingChild(first, env, secrets);
      assert Children(DomainMapping, secrets, first, env) == [c] && c in [c];
      if c.id !in Labelled(DomainMapping, t, second) {
        MappingKeepsSecret(t, secrets, first, second, env);
      }
    }
  }

  lemma {:induction false} KindStaysQuietIff(kind: Kind, before: Tables, after: Tables, first: Capp, second: Capp,
                                             env: Env)
    requires kind != Secret && PassBy(before, after, second, env)
      && Quiet(kind, before(kind), before(Secret), first, env)
    requires first.id != second.id && !first.deleting && !second.deleting
    ensures Quiet(kind, after(kind), after(Secret), first, env)
       <==> LeftAlone(kind, before(kind), before(Secret), first, second, env)
  {
    if kind == DomainMapping && !IsRequired(kind, second) {
      MappingsStayQuietIff(before(kind), before(Secret), first, second, env);
    } else {
      StaysQuietIff(kind, before(kind), before(Secret), first, second, env);
      assert Children(kind, after(Secret), first, env) == Children(kind, before(Secret), first, env);
    }
  }

  /** Of whole passes: a Capp that has nothing to do has nothing to do after an error-free pass over another one,
      exactly when that one leaves its objects of every kind alone. */
  lemma {:induction false} NeighboursSettleIff(before: Tables, after: Tables, first: Capp, second: Capp, env: Env)
    requires PassBy(before, after, second, env) && QuietAll(before, first, env)
    requires first.id != second.id && !first.deleting && !second.deleting
    ensures QuietAll(after, first, env) <==>
      forall kind: Kind :: kind != Secret ==> LeftAlone(kind, before(kind), before(Secret), first, second, env)
  {
    forall kind: Kind | kind != Secret
      ensures Quiet(kind, after(kind), after(Secret), first, env)
         <==> LeftAlone(kind, before(kind), before(Secret), first, second, env)
    {
      KindStaysQuietIff(kind, before, after, first, second, env);
    }
  }

  // ---------------------------------------------------------------- kind by kind

  /** Services never meet. */
  lemma {:induction false} ServicesLeftAlone(t: Table, secrets: Table, first: Capp, second: Capp, env: Env)
    requires first.id != second.id && !first.deleting && Quiet(Service, t, secrets, first, env)
    ensures Quiet(Service, Passed(Service, t, secrets, second, env), secrets, first, env)
  {
    StaysQuietIff(Service, t, secrets, first, second, env);
    ServiceApart(t, secrets, first, second, env);
  }

  lemma {:induction false} ServiceApart(t: Table, secrets: Table, first: Capp, second: Capp, env: Env)
    requires first.id != second.id
    ensures LeftAlone(Service, t, secrets, first, second, env)
  {
    assert forall c :: c in Children(Service, secrets, first, env) ==> c.id == first.id;
    assert forall c :: c in Children(Service, secrets, second, env) ==> c.id == second.id;
  }

  lemma {:induction false} SourcesSink(kind: Kind, capp: Capp, sources: seq<Source>)
    requires IsSourceKind(kind)
    ensures forall c :: c in SourceChildren(kind, capp, sources) ==>
      KindOf(c.obj.spec) == kind && c.obj.spec.sink.name == capp.id.name && c.obj.spec.sink.ns == capp.id.ns
  {
    if sources != [] {
      SourcesSink(kind, capp, sources[..|sources| - 1]);
    }
  }

  /** Each source object sends its events to the Service of one Capp. */
  lemma {:induction false} SinksDecide(c: Child, others: seq<Child>, kind: Kind)
    requires IsSourceKind(kind) && KindOf(c.obj.spec) == kind
    requires forall d :: d in others ==> KindOf(d.obj.spec) == kind && d.obj.spec.sink != c.obj.spec.sink
    ensures Undisturbed(c, others) <==> c.id !in Ids(others)
  {
    if c.id in Ids(others) {
      var i :| 0 <= i < |others| && others[i].id == c.id;
      var last := LastIndex(others, i);
      assert IsLast(others, last) && others[last] in others;
    }
  }

  lemma {:induction false} SourceUndisturbedIff(kind: Kind, secrets: Table, first: Capp, second: Capp, env: Env,
                                                c: Child)
    requires IsSourceKind(kind) && first.id != second.id && c in Children(kind, secrets, first, env)
    ensures Undisturbed(c, Children(kind, secrets, second, env)) <==> c.id !in Ids(Children(kind, secrets, second, env))
  {
    SourcesSink(kind, first, first.spec.sources);
    SourcesSink(kind, second, second.spec.sources);
    SinksDecide(c, Children(kind, secrets, second, env), kind);
  }

  /** Two Capps leave each other's sources alone exactly when no object of the first is one that the second
      wants or bears the second's label. */
  lemma {:induction false} SourcesLeftAloneIff(kind: Kind, t: Table, secrets: Table, first: Capp, second: Capp,
                                               env: Env)
    requires IsSourceKind(kind) && first.id != second.id && !first.deleting && !second.deleting
    requires Quiet(kind, t, secrets, first, env)
    ensures Quiet(kind, Passed(kind, t, secrets, second, env), secrets, first, env)
       <==> Ids(Children(kind, secrets, first, env))
              !! Ids(Children(kind, secrets, second, env)) + Labelled(kind, t, second)
  {
    StaysQuietIff(kind, t, secrets, first, second, env);
    var others := Children(kind, secrets, second, env);
    forall c | c in Children(kind, secrets, first, env)
      ensures c.id !in Removed(kind, t, secrets, second, env) && Undisturbed(c, others)
         <==> c.id !in Ids(others) + Labelled(kind, t, second)
    {
      SourceUndisturbedIff(kind, secrets, first, second, env, c);
    }
  }

  /** The volume that decides what is stored under its name. */
  ghost predicate IsLastVolume(volumes: seq<NfsVolume>, i: int) {
    0 <= i < |volumes| && forall k :: i < k < |volumes| ==> volumes[k].name != volumes[i].name
  }

  lemma {:induction false} VolumeUndisturbedIff(first: Capp, second: Capp, v: NfsVolume)
    requires first.id.ns == second.id.ns
    ensures Undisturbed(VolumeChild(first, v), VolumeChildren(second, second.spec.volumes)) <==>
      forall j :: IsLastVolume(second.spec.volumes, j) && second.spec.volumes[j].name == v.name ==>
        second.spec.volumes[j] == v
  {
    var volumes, others := second.spec.volumes, VolumeChildren(second, second.spec.volumes);
    VolumesProper(second, volumes);
    assert forall j :: IsLast(others, j) <==> IsLastVolume(volumes, j);
  }

  /** The second Capp has for the volume, when it has one of its name, the same volume. */
  ghost predicate SameVolume(v: NfsVolume, volumes: seq<NfsVolume>) {
    forall j :: IsLastVolume(volumes, j) && volumes[j].name == v.name ==> volumes[j] == v
  }

  lemma {:induction false} VolumesUndisturbedIff(first: Capp, second: Capp)
    requires first.id.ns == second.id.ns
    ensures (forall c :: c in VolumeChildren(first, first.spec.volumes) ==>
              Undisturbed(c, VolumeChildren(second, second.spec.volumes)))
       <==> (forall v :: v in first.spec.volumes ==> SameVolume(v, second.spec.volumes))
  {
    var volumes, children := first.spec.volumes, VolumeChildren(first, first.spec.volumes);
    VolumesProper(first, volumes);
    forall i | 0 <= i < |volumes|
      ensures Undisturbed(children[i], VolumeChildren(second, second.spec.volumes))
         <==> SameVolume(volumes[i], second.spec.volumes)
    {
      VolumeUndisturbedIff(first, second, volumes[i]);
    }
    assert forall i :: 0 <= i < |volumes| ==> children[i] in children && volumes[i] in volumes;
  }

  /** Claims bear the bare name of their volume: the second Capp rewrites a claim of the first in its namespace
      exactly when it has a different volume of that name, and deletes it, having no volumes itself, exactly
      when it bears its label. */
  lemma {:induction false} VolumesLeftAloneIff(t: Table, secrets: Table, first: Capp, second: Capp, env: Env)
    requires first.id.ns == second.id.ns && first.id != second.id && !first.deleting && !second.deleting
    requires Quiet(NfsPvc, t, secrets, first, env)
    ensures Quiet(NfsPvc, Passed(NfsPvc, t, secrets, second, env), secrets, first, env) <==>
      if second.spec.volumes == [] then Ids(VolumeChildren(first, first.spec.volumes)) !! Labelled(NfsPvc, t, second)
      else forall v :: v in first.spec.volumes ==> SameVolume(v, second.spec.volumes)
  {
    StaysQuietIff(NfsPvc, t, secrets, first, second, env);
    if second.spec.volumes == [] {
      ClaimsLeftAloneIff(t, secrets, first, second, env);
    } else {
      VolumesUndisturbedIff(first, second);
      ClaimsUndisturbedIff(t, secrets, first, second, env);
    }
  }

  lemma {:induction false} ClaimsUndisturbedIff(t: Table, secrets: Table, first: Capp, second: Capp, env: Env)
    requires second.spec.volumes != []
    ensures LeftAlone(NfsPvc, t, secrets, first, second, env)
       <==> (forall c :: c in VolumeChildren(first, first.spec.volumes) ==>
              Undisturbed(c, VolumeChildren(second, second.spec.volumes)))
  {
    VolumeChildrenAre(secrets, first, env);
    VolumeChildrenAre(secrets, second, env);
    assert Removed(NfsPvc, t, secrets, second, env) == {};
  }

  lemma {:induction false} VolumeChildrenAre(secrets: Table, capp: Capp, env: Env)
    ensures Children(NfsPvc, secrets, capp, env) == VolumeChildren(capp, capp.spec.volumes)
  {
  }

  lemma {:induction false} ClaimsLeftAloneIff(t: Table, secrets: Table, first: Capp, second: Capp, env: Env)
    requires !second.deleting && second.spec.volumes == []
    ensures LeftAlone(NfsPvc, t, secrets, first, second, env)
       <==> Ids(VolumeChildren(first, first.spec.volumes)) !! Labelled(NfsPvc, t, second)
  {
    VolumeChildrenAre(secrets, first, env);
    VolumeChildrenAre(secrets, second, env);
    assert Removed(NfsPvc, t, secrets, second, env) == Labelled(NfsPvc, t, second);
    assert forall c :: c in VolumeChildren(first, first.spec.volumes) ==> Undisturbed(c, []);
  }

  function RouteChild(kind: Kind, secrets: Table, capp: Capp, env: Env): Child
    requires kind in {Certificate, DomainMapping, CNAMERecord}
  {
    match kind
    case Certificate => CertificateChild(capp, env)
    case DomainMapping => DomainMappingChild(capp, env, secrets)
    case CNAMERecord => RecordChild(capp, env)
  }

  lemma {:induction false} RouteUndisturbedIff(kind: Kind, secrets: Table, first: Capp, second: Capp, env: Env)
    requires kind in {Certificate, DomainMapping, CNAMERecord}
    requires first.id.ns == second.id.ns && first.id.name != second.id.name
    ensures Undisturbed(RouteChild(kind, secrets, first, env), [RouteChild(kind, secrets, second, env)]) <==>
      || RouteName(first, env) != RouteName(second, env)
      || kind == Certificate
      || (kind == CNAMERecord && RecordChild(first, env).obj.spec == RecordChild(second, env).obj.spec)
  {
    OnlyOneDecides(RouteChild(kind, secrets, first, env), RouteChild(kind, secrets, second, env));
  }

  /** Two Capps with a hostname each: one route name gives them one mapping, over which they fight, and one
      record, over which they fight when they name it differently. The certificate they can share. */
  lemma {:induction false} RoutesLeftAloneIff(kind: Kind, t: Table, secrets: Table, first: Capp, second: Capp, env: Env)
    requires kind in {Certificate, DomainMapping, CNAMERecord} && IsRequired(kind, first) && IsRequired(kind, second)
    requires first.id.ns == second.id.ns && first.id != second.id && !first.deleting
    requires Quiet(kind, t, secrets, first, env)
    ensures Quiet(kind, Passed(kind, t, secrets, second, env), secrets, first, env) <==>
      || RouteName(first, env) != RouteName(second, env)
      || kind == Certificate
      || (kind == CNAMERecord && RecordChild(first, env).obj.spec == RecordChild(second, env).obj.spec)
  {
    StaysQuietIff(kind, t, secrets, first, second, env);
    RouteLeftAloneIff(kind, t, secrets, first, second, env);
    RouteUndisturbedIff(kind, secrets, first, second, env);
  }

  lemma {:induction false} RouteLeftAloneIff(kind: Kind, t: Table, secrets: Table, first: Capp, second: Capp, env: Env)
    requires kind in {Certificate, DomainMapping, CNAMERecord} && IsRequired(kind, first) && IsRequired(kind, second)
    ensures LeftAlone(kind, t, secrets, first, second, env)
       <==> Undisturbed(RouteChild(kind, secrets, first, env), [RouteChild(kind, secrets, second, env)])
  {
    OnlyRouteChild(kind, secrets, first, env);
    OnlyRouteChild(kind, secrets, second, env);
    assert RouteChild(kind, secrets, first, env) in Children(kind, secrets, first, env);
  }

  lemma {:induction false} OnlyRouteChild(kind: Kind, secrets: Table, capp: Capp, env: Env)
    requires kind in {Certificate, DomainMapping, CNAMERecord} && IsRequired(kind, capp)
    ensures Children(kind, secrets, capp, env) == [RouteChild(kind, secrets, capp, env)]
  {
  }

  /** For a zone that ends in a dot, as DNS writes it, one route name is one record. */
  lemma {:induction false} RecordsShared(first: Capp, second: Capp, env: Env, bare: string)
    requires env.config.dns.zone == bare + "." && RouteName(first, env) == RouteName(second, env)
    requires IsRequired(CNAMERecord, first) && !Panics(CNAMERecord, first, env)
    requires IsRequired(CNAMERecord, second) && !Panics(CNAMERecord, second, env)
    ensures RecordChild(first, env).obj.spec == RecordChild(second, env).obj.spec
  {
    SharedNameSharesRecord(first.spec.route.hostname, second.spec.route.hostname, bare);
  }
}
