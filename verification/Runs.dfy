/** Whole runs of the system: Capps created, edited and deleted by users, reconciled with any pattern of
    failing calls, while the rest of the cluster reports statuses, removes objects and writes secrets. */
module Runs {
  import opened Objects
  import opened Cluster
  import opened Desired
  import opened Managers
  import opened Convergence
  import opened Controller
  import opened Naming
  import opened Admission

  /** `uids` holds the UID of every Capp there has been. */
  datatype World = World(capps: map<Id, Capp>, tables: Tables, config: Option<CappConfig>, uids: set<string>)

  /** What stays fixed over a run: the DNS zone, and what foreign libraries compute. */
  datatype Setting = Setting(zone: string, library: Library, oracles: Oracles)

  // ---------------------------------------------------------------- steps

  /** A new Capp. In a tame run nothing labelled for an earlier one of its name is left. */
  ghost predicate UserCreates(w: World, w': World, capp: Capp, tame: bool) {
    && capp.id !in w.capps && !capp.deleting && capp.uid !in w.uids
    && (tame ==> forall kind: Kind :: kind != Secret ==> Labelled(kind, w.tables(kind), capp) == {})
    && w' == w.(capps := w.capps[capp.id := capp], uids := w.uids + {capp.uid})
  }

  /** An admitted edit. Users leave finalizers, and the server's own fields, alone. */
  ghost predicate UserUpdates(w: World, w': World, capp: Capp, setting: Setting) {
    && capp.id in w.capps
    && capp == w.capps[capp.id].(spec := capp.spec, labels := capp.labels, annotations := capp.annotations)
    && (capp.deleting
        || (w.config.Some? && Admissible(Update(capp, w.capps[capp.id]), w.config.value, setting.oracles)))
    && w' == w.(capps := w.capps[capp.id := capp])
  }

  ghost predicate UserDeletes(w: World, w': World, id: Id) {
    && id in w.capps
    && w' == w.(capps := if w.capps[id].finalizers == {} then w.capps - {id}
                         else w.capps[id := w.capps[id].(deleting := true)])
  }

  /** One call of the Capp reconciler, failing anywhere or not at all. */
  ghost predicate Reconciles(w: World, w': World, id: Id, setting: Setting) {
    && PassOutcome(w.tables, w.capps, w'.tables, w'.capps, id, w.config, setting.library)
    && w'.config == w.config && w'.uids == w.uids
  }

  /** Everybody else. In a tame run they report statuses and remove objects, and write secrets as they like.
      In a wild one they also create and change objects of every kind, whatever the names and labels; they
      only do not make a Capp the owner of anything. */
  ghost predicate OthersAct(w: World, w': World, tame: bool) {
    && w'.capps == w.capps && w'.config == w.config && w'.uids == w.uids
    && forall kind: Kind :: kind != Secret ==>
         OnlyReported(w.tables(kind), w'.tables(kind)) || (!tame && Foreign(kind, w.tables(kind), w'.tables(kind)))
  }

  ghost predicate OnlyReported(t: Table, t': Table) {
    forall id :: id in t' ==> id in t && t'[id] == t[id].(status := t'[id].status)
  }

  ghost predicate Foreign(kind: Kind, t: Table, t': Table) {
    && TypedTable(kind, t')
    && forall id, r :: id in t' && r in t'[id].owners && r.kind == CAPP_KIND ==> id in t && r in t[id].owners
  }

  /** A change of the operator's configuration that keeps the zone. */
  ghost predicate ConfigChanges(w: World, w': World, setting: Setting) {
    && w' == w.(config := w'.config) && (w'.config.Some? ==> w'.config.value.dns.zone == setting.zone)
  }

  ghost predicate Step(w: World, w': World, setting: Setting, tame: bool) {
    || (exists capp :: UserCreates(w, w', capp, tame))
    || (exists capp :: UserUpdates(w, w', capp, setting))
    || (exists id :: UserDeletes(w, w', id))
    || (exists id :: Reconciles(w, w', id, setting))
    || OthersAct(w, w', tame)
    || ConfigChanges(w, w', setting)
  }

  ghost predicate StepAt(worlds: seq<World>, i: nat, setting: Setting, tame: bool)
    requires i < |worlds| - 1
  {
    Step(worlds[i], worlds[i + 1], setting, tame)
  }

  /** Runs start without Capps; a tame run starts without any object, a wild one with whatever others made. */
  ghost predicate Start(w: World, setting: Setting, tame: bool) {
    && w.capps == map[] && w.uids == {}
    && (forall kind: Kind :: kind != Secret ==> TypedTable(kind, w.tables(kind)) && OwnersKnown(w.tables(kind), {}))
    && (tame ==> forall kind: Kind :: kind != Secret ==> w.tables(kind) == map[])
    && (w.config.Some? ==> w.config.value.dns.zone == setting.zone)
  }

  ghost predicate Run(worlds: seq<World>, setting: Setting, tame: bool) {
    && worlds != [] && Start(worlds[0], setting, tame)
    && forall i :: 0 <= i < |worlds| - 1 ==> StepAt(worlds, i, setting, tame)
  }

  // ---------------------------------------------------------------- what a pass does to one object

  /** What is known of an object that a manager wrote. */
  ghost predicate Written(kind: Kind, t: Table, id: Id, o: Obj, capp: Capp) {
    && id.ns == capp.id.ns && KindOf(o.spec) == kind
    && (if id in t then
          && o.labels == t[id].labels && o.status == t[id].status
          && (forall r :: r in o.owners ==> r == Ref(capp) || r in t[id].owners)
          && (t[id].spec.KafkaSourceSpec? && kind == KafkaSource ==> o.spec.consumerGroup == t[id].spec.consumerGroup)
        else
          o.labels == LabelsFor(kind, capp) && forall r :: r in o.owners ==> r == Ref(capp))
  }

  /** Every object after a pass is as before, or a child the manager wanted and wrote. */
  ghost predicate Evolves(kind: Kind, t: Table, t': Table, capp: Capp, children: seq<Child>) {
    forall id :: id in t' ==>
      (id in t && t'[id] == t[id]) || (id in Ids(children) && Written(kind, t, id, t'[id], capp))
  }

  lemma UpsertWritten(kind: Kind, t: Table, u: Table, capp: Capp, before: seq<Child>, c: Child)
    requires Evolves(kind, t, u, capp, before) && Proper(kind, capp, c)
    requires c.id in t ==> c.id in u
    ensures Written(kind, t, c.id, Upsert(u, Ref(capp), c)[c.id], capp)
  {
  }

  lemma EvolvesNext(kind: Kind, t: Table, u: Table, capp: Capp, before: seq<Child>, c: Child)
    requires Evolves(kind, t, u, capp, before) && Proper(kind, capp, c)
    requires c.id in t ==> c.id in u
    ensures Evolves(kind, t, Upsert(u, Ref(capp), c), capp, before + [c])
  {
    UpsertWritten(kind, t, u, capp, before, c);
    assert Ids(before + [c]) == Ids(before) + {c.id} by {
      assert (before + [c])[|before|] == c;
    }
  }

  lemma {:induction false} UpsertAllEvolves(kind: Kind, t: Table, capp: Capp, children: seq<Child>)
    requires forall c :: c in children ==> Proper(kind, capp, c)
    ensures Evolves(kind, t, UpsertAll(t, Ref(capp), children), capp, children)
  {
    if children != [] {
      var before, last := children[..|children| - 1], children[|children| - 1];
      assert children == before + [last];
      UpsertAllEvolves(kind, t, capp, before);
      UpsertAllFrame(t, Ref(capp), before);
      EvolvesNext(kind, t, UpsertAll(t, Ref(capp), before), capp, before, last);
    }
  }

  lemma ReachedEvolves(kind: Kind, t: Table, t': Table, secrets: Table, capp: Capp, env: Env)
    requires kind != Secret && ReachedTable(kind, t, t', secrets, capp, env)
    ensures Evolves(kind, t, t', capp, Children(kind, secrets, capp, env))
  {
    if IsRequired(kind, capp) {
      var children := Children(kind, secrets, capp, env);
      ChildrenProper(kind, secrets, capp, env);
      if i :| 0 <= i <= |children| && t' == UpsertAll(t, Ref(capp), children[..i]) {
        assert forall c :: c in children[..i] ==> c in children;
        UpsertAllEvolves(kind, t, capp, children[..i]);
        assert Ids(children[..i]) <= Ids(children);
      } else {
        UpsertAllEvolves(kind, t, capp, children);
      }
    }
  }

  // ---------------------------------------------------------------- invariants

  predicate IsRoute(kind: Kind) {
    kind in {Certificate, DomainMapping, CNAMERecord}
  }

  /** Objects have a spec of their kind. */
  ghost predicate Typed(tables: Tables) {
    forall kind: Kind :: kind != Secret ==> TypedTable(kind, tables(kind))
  }

  ghost predicate TypedTable(kind: Kind, t: Table) {
    forall id :: id in t ==> KindOf(t[id].spec) == kind
  }

  ghost predicate HasRoute(kind: Kind, tables: Tables, capp: Capp, name: string) {
    IsRoute(kind) && Id(capp.id.ns, name) in Labelled(kind, tables(kind), capp)
  }

  /** All DomainMappings, CNAMERecords and Certificates labelled for the Capp share one name. */
  ghost predicate OneRouteName(tables: Tables, capp: Capp) {
    forall k: Kind, k': Kind, name, name' ::
      HasRoute(k, tables, capp, name) && HasRoute(k', tables, capp, name') ==> name == name'
  }

  /** And it is the name made of the hostname, which is then set. */
  ghost predicate RoutesNamed(tables: Tables, capp: Capp, zone: string) {
    forall kind: Kind, name :: HasRoute(kind, tables, capp, name) ==>
      capp.spec.route.hostname != "" && name == GenerateResourceName(capp.spec.route.hostname, zone)
  }

  ghost predicate Owned(kind: Kind, t: Table, ref: OwnerRef) {
    kind != Secret && exists id :: id in t && ref in t[id].owners
  }

  /** A live Capp that owns anything has its finalizer stored; one under deletion has something to wait for. */
  ghost predicate FinalizerHeld(capp: Capp, tables: Tables) {
    && (!capp.deleting ==> forall kind: Kind :: Owned(kind, tables(kind), Ref(capp)) ==> FINALIZER in capp.finalizers)
    && (capp.deleting ==> capp.finalizers != {})
  }

  ghost predicate RoutesHeld(capp: Capp, tables: Tables, zone: string) {
    OneRouteName(tables, capp) && (!capp.deleting ==> RoutesNamed(tables, capp, zone))
  }

  ghost predicate CappInvariant(capp: Capp, tables: Tables, zone: string, tame: bool) {
    FinalizerHeld(capp, tables) && (tame ==> RoutesHeld(capp, tables, zone))
  }

  ghost predicate Invariant(w: World, setting: Setting, tame: bool) {
    && (forall id :: id in w.capps ==> w.capps[id].id == id && w.capps[id].uid in w.uids)
    && (forall a, b :: a in w.capps && b in w.capps && w.capps[a].uid == w.capps[b].uid ==> a == b)
    && ObjectInvariant(w.tables, w.uids)
    && (w.config.Some? ==> w.config.value.dns.zone == setting.zone)
    && (forall id :: id in w.capps ==> CappInvariant(w.capps[id], w.tables, setting.zone, tame))
  }

  /** The part of the invariant that is about objects alone. */
  ghost predicate ObjectInvariant(tables: Tables, uids: set<string>) {
    && Typed(tables)
    && forall kind: Kind :: kind != Secret ==> OwnersKnown(tables(kind), uids)
  }

  ghost predicate OwnersKnown(t: Table, uids: set<string>) {
    forall id, r :: id in t && r in t[id].owners && r.kind == CAPP_KIND ==> r.uid in uids
  }

  // ---------------------------------------------------------------- steps that only take away

  /** Nothing new, and what is left has the labels, owners and spec it had. */
  ghost predicate Descends(before: Tables, after: Tables) {
    forall kind: Kind :: kind != Secret ==> OnlyReported(before(kind), after(kind))
  }

  lemma DescendsKeepsObjects(before: Tables, after: Tables, uids: set<string>)
    requires Descends(before, after) && ObjectInvariant(before, uids)
    ensures ObjectInvariant(after, uids)
  {
    forall kind: Kind | kind != Secret ensures TypedTable(kind, after(kind)) && OwnersKnown(after(kind), uids) {
      assert OnlyReported(before(kind), after(kind));
      assert TypedTable(kind, before(kind)) && OwnersKnown(before(kind), uids);
      assert forall id :: id in after(kind) ==> after(kind)[id].owners == before(kind)[id].owners;
    }
  }

  lemma DescendsRoute(before: Tables, after: Tables, capp: Capp, kind: Kind, name: string)
    requires Descends(before, after) && HasRoute(kind, after, capp, name)
    ensures HasRoute(kind, before, capp, name)
  {
    assert OnlyReported(before(kind), after(kind));
  }

  lemma DescendsOwned(before: Tables, after: Tables, ref: OwnerRef, kind: Kind)
    requires Descends(before, after) && Owned(kind, after(kind), ref)
    ensures Owned(kind, before(kind), ref)
  {
    assert OnlyReported(before(kind), after(kind));
    var id :| id in after(kind) && ref in after(kind)[id].owners;
    assert after(kind)[id].owners == before(kind)[id].owners;
  }

  lemma DescendsKeepsCapp(before: Tables, after: Tables, capp: Capp, zone: string, tame: bool)
    requires Descends(before, after) && CappInvariant(capp, before, zone, tame)
    ensures CappInvariant(capp, after, zone, tame)
  {
    forall k: Kind, name | HasRoute(k, after, capp, name) ensures HasRoute(k, before, capp, name) {
      DescendsRoute(before, after, capp, k, name);
    }
    forall k: Kind | Owned(k, after(k), Ref(capp)) ensures Owned(k, before(k), Ref(capp)) {
      DescendsOwned(before, after, Ref(capp), k);
    }
  }

  // ---------------------------------------------------------------- a sync of one Capp

  /** Every table of children evolves for this Capp. */
  ghost predicate AllEvolve(before: Tables, after: Tables, capp: Capp, env: Env) {
    forall kind: Kind :: kind != Secret ==>
      Evolves(kind, before(kind), after(kind), capp, Children(kind, before(Secret), capp, env))
  }

  lemma SyncEvolves(before: Tables, after: Tables, capp: Capp, env: Env)
    requires after == before || SyncedBy(before, after, capp, env)
    ensures AllEvolve(before, after, capp, env)
  {
    forall kind: Kind | kind != Secret
      ensures Evolves(kind, before(kind), after(kind), capp, Children(kind, before(Secret), capp, env))
    {
      if after != before {
        ReachedEvolves(kind, before(kind), after(kind), before(Secret), capp, env);
      }
    }
  }

  lemma EvolvesKeepsTable(kind: Kind, t: Table, t': Table, capp: Capp, children: seq<Child>, uids: set<string>)
    requires Evolves(kind, t, t', capp, children) && TypedTable(kind, t) && OwnersKnown(t, uids) && capp.uid in uids
    ensures TypedTable(kind, t') && OwnersKnown(t', uids)
  {
    forall id | id in t'
      ensures KindOf(t'[id].spec) == kind && forall r :: r in t'[id].owners && r.kind == CAPP_KIND ==> r.uid in uids
    {
      if !(id in t && t'[id] == t[id]) {
        assert Written(kind, t, id, t'[id], capp);
      }
    }
  }

  lemma EvolvesKeepsObjects(before: Tables, after: Tables, capp: Capp, env: Env, uids: set<string>)
    requires AllEvolve(before, after, capp, env) && ObjectInvariant(before, uids) && capp.uid in uids
    ensures ObjectInvariant(after, uids)
  {
    forall kind: Kind | kind != Secret ensures TypedTable(kind, after(kind)) && OwnersKnown(after(kind), uids) {
      EvolvesKeepsTable(kind, before(kind), after(kind), capp, Children(kind, before(Secret), capp, env), uids);
    }
  }

  lemma RouteChildrenNamed(kind: Kind, secrets: Table, capp: Capp, env: Env, id: Id)
    requires IsRoute(kind) && id in Ids(Children(kind, secrets, capp, env))
    ensures capp.spec.route.hostname != "" && id.name == RouteName(capp, env)
  {
  }

  /** A route object labelled for some Capp after a sync was there before, or is the synced Capp's own. */
  lemma EvolvesRoute(before: Tables, after: Tables, capp: Capp, env: Env, other: Capp, kind: Kind, name: string)
    requires AllEvolve(before, after, capp, env) && HasRoute(kind, after, other, name)
    ensures HasRoute(kind, before, other, name) ||
      (other.id == capp.id && capp.spec.route.hostname != "" && name == RouteName(capp, env))
  {
    var id := Id(other.id.ns, name);
    if !(id in before(kind) && after(kind)[id] == before(kind)[id]) {
      assert Written(kind, before(kind), id, after(kind)[id], capp);
      RouteChildrenNamed(kind, before(Secret), capp, env, id);
      if id !in before(kind) {
        assert PARENT_KEY in Selector(kind, other);
        assert LabelsFor(kind, capp)[PARENT_KEY] == capp.id.name;
      }
    }
  }

  lemma EvolvesOwned(before: Tables, after: Tables, capp: Capp, env: Env, ref: OwnerRef, kind: Kind)
    requires AllEvolve(before, after, capp, env) && Owned(kind, after(kind), ref) && ref != Ref(capp)
    ensures Owned(kind, before(kind), ref)
  {
    var id :| id in after(kind) && ref in after(kind)[id].owners;
    if !(id in before(kind) && after(kind)[id] == before(kind)[id]) {
      assert Written(kind, before(kind), id, after(kind)[id], capp);
    }
  }

  lemma SyncKeepsOther(before: Tables, after: Tables, capp: Capp, env: Env, other: Capp, zone: string, tame: bool)
    requires AllEvolve(before, after, capp, env) && CappInvariant(other, before, zone, tame)
    requires other.id != capp.id && other.uid != capp.uid
    ensures CappInvariant(other, after, zone, tame)
  {
    forall k: Kind, name | HasRoute(k, after, other, name) ensures HasRoute(k, before, other, name) {
      EvolvesRoute(before, after, capp, env, other, k, name);
    }
    forall k: Kind | Owned(k, after(k), Ref(other)) ensures Owned(k, before(k), Ref(other)) {
      EvolvesOwned(before, after, capp, env, Ref(other), k);
    }
  }

  lemma SyncKeepsSelf(before: Tables, after: Tables, capp: Capp, env: Env, capp': Capp, zone: string, tame: bool)
    requires AllEvolve(before, after, capp, env) && CappInvariant(capp, before, zone, tame) && !capp.deleting
    requires capp' == WithFinalizer(capp).(status := capp'.status) && env.config.dns.zone == zone
    ensures CappInvariant(capp', after, zone, tame)
  {
    forall k: Kind, name | tame && HasRoute(k, after, capp', name)
      ensures capp.spec.route.hostname != "" && name == GenerateResourceName(capp.spec.route.hostname, zone)
    {
      EvolvesRoute(before, after, capp, env, capp', k, name);
      if HasRoute(k, before, capp', name) {
        assert HasRoute(k, before, capp, name);
      }
    }
  }

  // ---------------------------------------------------------------- every step keeps the invariant

  lemma FreshOwnsNothing(kind: Kind, t: Table, ref: OwnerRef, uids: set<string>)
    requires kind != Secret ==> OwnersKnown(t, uids)
    requires ref.kind == CAPP_KIND && ref.uid !in uids
    ensures !Owned(kind, t, ref)
  {
  }

  lemma FreshCapp(w: World, capp: Capp, setting: Setting, tame: bool)
    requires ObjectInvariant(w.tables, w.uids) && capp.uid !in w.uids && !capp.deleting
    requires tame ==> forall kind: Kind :: kind != Secret ==> Labelled(kind, w.tables(kind), capp) == {}
    ensures CappInvariant(capp, w.tables, setting.zone, tame)
  {
    forall kind: Kind ensures !Owned(kind, w.tables(kind), Ref(capp)) {
      FreshOwnsNothing(kind, w.tables(kind), Ref(capp), w.uids);
    }
    if tame {
      assert forall kind: Kind, name :: IsRoute(kind) ==> Id(capp.id.ns, name) !in Labelled(kind, w.tables(kind), capp);
    }
  }

  lemma CreateKeepsInvariant(w: World, w': World, capp: Capp, setting: Setting, tame: bool)
    requires Invariant(w, setting, tame) && UserCreates(w, w', capp, tame)
    ensures Invariant(w', setting, tame)
  {
    FreshCapp(w, capp, setting, tame);
  }

  lemma ForeignKeepsTable(kind: Kind, t: Table, t': Table, uids: set<string>)
    requires OnlyReported(t, t') || Foreign(kind, t, t')
    requires TypedTable(kind, t) && OwnersKnown(t, uids)
    ensures TypedTable(kind, t') && OwnersKnown(t', uids)
  {
    if OnlyReported(t, t') {
      assert forall id :: id in t' ==> t'[id].owners == t[id].owners && t'[id].spec == t[id].spec;
    }
  }

  lemma ForeignOwnsNoMore(kind: Kind, t: Table, t': Table, ref: OwnerRef)
    requires OnlyReported(t, t') || Foreign(kind, t, t')
    requires ref.kind == CAPP_KIND && Owned(kind, t', ref)
    ensures Owned(kind, t, ref)
  {
    var id :| id in t' && ref in t'[id].owners;
    if OnlyReported(t, t') {
      assert t'[id].owners == t[id].owners;
    }
  }

  /** Whatever others do to the objects, it makes no Capp the owner of more. */
  lemma OthersKeepInvariant(w: World, w': World, setting: Setting)
    requires Invariant(w, setting, false) && OthersAct(w, w', false)
    ensures Invariant(w', setting, false)
  {
    forall kind: Kind | kind != Secret
      ensures TypedTable(kind, w'.tables(kind)) && OwnersKnown(w'.tables(kind), w.uids)
    {
      ForeignKeepsTable(kind, w.tables(kind), w'.tables(kind), w.uids);
    }
    forall id | id in w.capps ensures FinalizerHeld(w.capps[id], w'.tables) {
      var capp := w.capps[id];
      assert CappInvariant(capp, w.tables, setting.zone, false);
      forall kind: Kind | Owned(kind, w'.tables(kind), Ref(capp)) ensures Owned(kind, w.tables(kind), Ref(capp)) {
        ForeignOwnsNoMore(kind, w.tables(kind), w'.tables(kind), Ref(capp));
      }
    }
  }

  lemma UpdateKeepsInvariant(w: World, w': World, capp: Capp, setting: Setting, tame: bool)
    requires Invariant(w, setting, tame) && UserUpdates(w, w', capp, setting)
    ensures Invariant(w', setting, tame)
  {
    var prior := w.capps[capp.id];
    assert CappInvariant(prior, w.tables, setting.zone, tame);
    assert Ref(capp) == Ref(prior);
    forall k: Kind, name | HasRoute(k, w'.tables, capp, name) ensures HasRoute(k, w.tables, prior, name) {
    }
    assert CappInvariant(capp, w'.tables, setting.zone, tame);
  }

  lemma DeleteKeepsInvariant(w: World, w': World, id: Id, setting: Setting, tame: bool)
    requires Invariant(w, setting, tame) && UserDeletes(w, w', id)
    ensures Invariant(w', setting, tame)
  {
    if w.capps[id].finalizers != {} {
      var capp := w.capps[id].(deleting := true);
      assert CappInvariant(w.capps[id], w.tables, setting.zone, tame);
      forall k: Kind, name | HasRoute(k, w'.tables, capp, name) ensures HasRoute(k, w.tables, w.capps[id], name) {
      }
      assert CappInvariant(capp, w'.tables, setting.zone, tame);
    }
  }

  lemma DescentKeepsInvariant(w: World, w': World, setting: Setting, tame: bool)
    requires Invariant(w, setting, tame) && Descends(w.tables, w'.tables)
    requires w'.capps == w.capps && w'.config == w.config && w'.uids == w.uids
    ensures Invariant(w', setting, tame)
  {
    DescendsKeepsObjects(w.tables, w'.tables, w.uids);
    forall id | id in w.capps ensures CappInvariant(w.capps[id], w'.tables, setting.zone, tame) {
      DescendsKeepsCapp(w.tables, w'.tables, w.capps[id], setting.zone, tame);
    }
  }

  /** A pass over a Capp under deletion creates and updates nothing. */
  lemma FinalizingDescends(before: Tables, capps: map<Id, Capp>, after: Tables, capps': map<Id, Capp>, capp: Capp)
    requires Finalizing(before, capps, after, capps', capp)
    ensures Descends(before, after)
  {
    forall kind: Kind | kind != Secret ensures OnlyReported(before(kind), after(kind)) {
      if AllCleaned(before, after, capp) {
        assert after(kind) == before(kind) - Doomed(kind, before(kind), capp);
      } else {
        var i :| CleanUpStopped(before, after, capp, i);
        var j := Rank(kind);
        assert after(ORDER[j]) == before(ORDER[j]) ||
          Shrunk(before(ORDER[j]), after(ORDER[j]), Doomed(ORDER[j], before(ORDER[j]), capp));
      }
    }
  }

  lemma FinalizeKeepsInvariant(w: World, w': World, id: Id, setting: Setting, tame: bool)
    requires Invariant(w, setting, tame) && id in w.capps && w'.config == w.config && w'.uids == w.uids
    requires Finalizing(w.tables, w.capps, w'.tables, w'.capps, w.capps[id])
    ensures Invariant(w', setting, tame)
  {
    FinalizingDescends(w.tables, w.capps, w'.tables, w'.capps, w.capps[id]);
    DescentKeepsInvariant(w, w.(tables := w'.tables), setting, tame);
    assert CappInvariant(w.capps[id], w'.tables, setting.zone, tame);
    if id in w'.capps && w'.capps != w.capps {
      var capp := w'.capps[id];
      assert capp.id == id && capp.deleting && capp.finalizers != {} && capp.uid == w.capps[id].uid;
      forall k: Kind, name | HasRoute(k, w'.tables, capp, name) ensures HasRoute(k, w'.tables, w.capps[id], name) {
      }
    }
  }

  lemma SyncKeepsInvariant(w: World, w': World, id: Id, setting: Setting, tame: bool)
    requires Invariant(w, setting, tame) && id in w.capps && w'.config == w.config && w'.uids == w.uids
      && w.config.Some?
    requires Syncing(w.tables, w.capps, w'.tables, w'.capps, w.capps[id], Env(w.config.value, setting.library))
    ensures Invariant(w', setting, tame)
  {
    var capp, env := w.capps[id], Env(w.config.value, setting.library);
    SyncEvolves(w.tables, w'.tables, capp, env);
    EvolvesKeepsObjects(w.tables, w'.tables, capp, env, w.uids);
    assert CappInvariant(capp, w.tables, setting.zone, tame);
    SyncKeepsSelf(w.tables, w'.tables, capp, env, w'.capps[id], setting.zone, tame);
    forall other | other in w.capps && other != id
      ensures CappInvariant(w'.capps[other], w'.tables, setting.zone, tame)
    {
      SyncKeepsOther(w.tables, w'.tables, capp, env, w.capps[other], setting.zone, tame);
    }
  }

  lemma ReconcileKeepsInvariant(w: World, w': World, id: Id, setting: Setting, tame: bool)
    requires Invariant(w, setting, tame) && Reconciles(w, w', id, setting)
    ensures Invariant(w', setting, tame)
  {
    if w'.tables == w.tables && w'.capps == w.capps {
      DescentKeepsInvariant(w, w', setting, tame);
    } else if Finalizing(w.tables, w.capps, w'.tables, w'.capps, w.capps[id]) {
      FinalizeKeepsInvariant(w, w', id, setting, tame);
    } else {
      SyncKeepsInvariant(w, w', id, setting, tame);
    }
  }

  lemma StepKeepsInvariant(w: World, w': World, setting: Setting, tame: bool)
    requires Invariant(w, setting, tame) && Step(w, w', setting, tame)
    ensures Invariant(w', setting, tame)
  {
    if capp :| UserCreates(w, w', capp, tame) {
      CreateKeepsInvariant(w, w', capp, setting, tame);
    } else if capp :| UserUpdates(w, w', capp, setting) {
      UpdateKeepsInvariant(w, w', capp, setting, tame);
    } else if id :| UserDeletes(w, w', id) {
      DeleteKeepsInvariant(w, w', id, setting, tame);
    } else if id :| Reconciles(w, w', id, setting) {
      ReconcileKeepsInvariant(w, w', id, setting, tame);
    } else if OthersAct(w, w', tame) {
      if tame {
        DescentKeepsInvariant(w, w', setting, tame);
      } else {
        OthersKeepInvariant(w, w', setting);
      }
    }
  }

  /** In every state of every run: a live Capp that owns anything has the finalizer stored, objects have a spec
      of their kind, and a stored Capp under deletion still has a finalizer to wait for. In a tame run also: the
      route objects labelled for a Capp share one name, the one made of its hostname while it lives. */
  lemma {:induction false} RunKeepsInvariant(worlds: seq<World>, setting: Setting, tame: bool, i: nat)
    requires Run(worlds, setting, tame) && i < |worlds|
    ensures Invariant(worlds[i], setting, tame)
  {
    if i > 0 {
      RunKeepsInvariant(worlds, setting, tame, i - 1);
      assert StepAt(worlds, i - 1, setting, tame);
      StepKeepsInvariant(worlds[i - 1], worlds[i], setting, tame);
    }
  }

  // ---------------------------------------------------------------- what the runs guarantee

  lemma ReconcileKeepsSpecs(w: World, w': World, setting: Setting, reconciled: Id, id: Id)
    requires Reconciles(w, w', reconciled, setting) && id in w'.capps
    requires forall c :: c in w.capps ==> w.capps[c].id == c
    ensures id in w.capps && w'.capps[id].uid == w.capps[id].uid && w'.capps[id].deleting == w.capps[id].deleting
    ensures w'.capps[id].spec == w.capps[id].spec
  {
  }

  /** A Capp and its predecessor in the same life. */
  lemma SameLife(w: World, w': World, setting: Setting, tame: bool, id: Id)
    requires Step(w, w', setting, tame) && forall c :: c in w.capps ==> w.capps[c].id == c
    requires id in w'.capps && w'.capps[id].uid in w.uids
    ensures id in w.capps && w.capps[id].uid == w'.capps[id].uid
    ensures !w'.capps[id].deleting ==> !w.capps[id].deleting
    ensures !w'.capps[id].deleting && w.capps[id].spec.route.hostname != "" ==>
      w'.capps[id].spec.route.hostname == w.capps[id].spec.route.hostname
  {
    if reconciled :| Reconciles(w, w', reconciled, setting) {
      ReconcileKeepsSpecs(w, w', setting, reconciled, id);
    } else if updated :| UserUpdates(w, w', updated, setting) {
      if !updated.deleting {
        UpdateKeepsHostname(w, w', updated, setting);
      }
    } else {
      assert id in w.capps && w'.capps[id].spec == w.capps[id].spec;
    }
  }

  lemma UpdateKeepsHostname(w: World, w': World, capp: Capp, setting: Setting)
    requires UserUpdates(w, w', capp, setting) && !capp.deleting
    ensures var prior := w.capps[capp.id];
      prior.spec.route.hostname != "" ==> capp.spec.route.hostname == prior.spec.route.hostname
  {
    assert HostnameKept(Update(capp, w.capps[capp.id]));
  }

  lemma UidsGrow(w: World, w': World, setting: Setting, tame: bool)
    requires Step(w, w', setting, tame)
    ensures w.uids <= w'.uids
  {
  }

  lemma {:induction false} UidsKept(worlds: seq<World>, setting: Setting, tame: bool, i: nat, j: nat)
    requires Run(worlds, setting, tame) && i <= j < |worlds|
    ensures worlds[i].uids <= worlds[j].uids
    decreases j - i
  {
    if i < j {
      UidsKept(worlds, setting, tame, i, j - 1);
      assert StepAt(worlds, j - 1, setting, tame);
      UidsGrow(worlds[j - 1], worlds[j], setting, tame);
    }
  }

  /** Over any run, as long as a Capp lives and is not being deleted, a hostname once set stays. */
  lemma {:induction false} HostnameNeverChanges(worlds: seq<World>, setting: Setting, tame: bool, i: nat, j: nat,
                                                id: Id)
    requires Run(worlds, setting, tame) && i <= j < |worlds|
    requires id in worlds[i].capps && id in worlds[j].capps && worlds[i].capps[id].uid == worlds[j].capps[id].uid
    requires !worlds[j].capps[id].deleting && worlds[i].capps[id].spec.route.hostname != ""
    ensures worlds[j].capps[id].spec.route.hostname == worlds[i].capps[id].spec.route.hostname
    decreases j - i
  {
    if i < j {
      RunKeepsInvariant(worlds, setting, tame, i);
      RunKeepsInvariant(worlds, setting, tame, j - 1);
      UidsKept(worlds, setting, tame, i, j - 1);
      assert StepAt(worlds, j - 1, setting, tame);
      SameLife(worlds[j - 1], worlds[j], setting, tame, id);
      HostnameNeverChanges(worlds, setting, tame, i, j - 1, id);
    }
  }

  /** Admission does let a Capp under deletion change its hostname, whatever admission would otherwise say. */
  lemma DeletedHostnameMayChange(w: World, id: Id, hostname: string, setting: Setting, tame: bool)
    requires Invariant(w, setting, tame) && id in w.capps && w.capps[id].deleting
    ensures var prior := w.capps[id];
      var capp := prior.(spec := prior.spec.(route := prior.spec.route.(hostname := hostname)));
      Step(w, w.(capps := w.capps[id := capp]), setting, tame)
  {
    var prior := w.capps[id];
    var capp := prior.(spec := prior.spec.(route := prior.spec.route.(hostname := hostname)));
    assert UserUpdates(w, w.(capps := w.capps[id := capp]), capp, setting);
  }

  /** The KafkaSource `id`, if it is still there, has its consumer group. */
  ghost predicate GroupKept(t: Table, t': Table, id: Id) {
    id in t && id in t' && t[id].spec.KafkaSourceSpec? ==>
      t'[id].spec.KafkaSourceSpec? && t'[id].spec.consumerGroup == t[id].spec.consumerGroup
  }

  lemma GroupKeptBySync(t: Table, t': Table, capp: Capp, children: seq<Child>, id: Id)
    requires Evolves(KafkaSource, t, t', capp, children)
    ensures GroupKept(t, t', id)
  {
    if id in t && id in t' && t'[id] != t[id] {
      assert Written(KafkaSource, t, id, t'[id], capp);
    }
  }

  lemma GroupKeptByReconcile(w: World, w': World, setting: Setting, reconciled: Id, id: Id)
    requires Reconciles(w, w', reconciled, setting) && w'.tables != w.tables
    ensures GroupKept(w.tables(KafkaSource), w'.tables(KafkaSource), id)
  {
    var capp := w.capps[reconciled];
    if capp.deleting {
      FinalizingDescends(w.tables, w.capps, w'.tables, w'.capps, capp);
      assert OnlyReported(w.tables(KafkaSource), w'.tables(KafkaSource));
    } else {
      var env := Env(w.config.value, setting.library);
      SyncEvolves(w.tables, w'.tables, capp, env);
      GroupKeptBySync(w.tables(KafkaSource), w'.tables(KafkaSource), capp,
                      Children(KafkaSource, w.tables(Secret), capp, env), id);
    }
  }

  lemma GroupKeptByStep(w: World, w': World, setting: Setting, id: Id)
    requires Step(w, w', setting, true)
    ensures GroupKept(w.tables(KafkaSource), w'.tables(KafkaSource), id)
  {
    if w'.tables == w.tables {
    } else if OthersAct(w, w', true) {
      assert OnlyReported(w.tables(KafkaSource), w'.tables(KafkaSource));
    } else {
      var reconciled :| Reconciles(w, w', reconciled, setting);
      GroupKeptByReconcile(w, w', setting, reconciled, id);
    }
  }

  /** In a tame run a KafkaSource keeps the consumer group it was created with for as long as the object lives,
      through edits, toggles and reconciles, and whichever Capp's. */
  lemma {:induction false} ConsumerGroupKept(worlds: seq<World>, setting: Setting, i: nat, j: nat, id: Id)
    requires Run(worlds, setting, true) && i <= j < |worlds|
    requires forall k :: i <= k <= j ==> id in worlds[k].tables(KafkaSource)
    ensures worlds[i].tables(KafkaSource)[id].spec.KafkaSourceSpec?
    ensures worlds[j].tables(KafkaSource)[id].spec.KafkaSourceSpec?
    ensures worlds[j].tables(KafkaSource)[id].spec.consumerGroup == worlds[i].tables(KafkaSource)[id].spec.consumerGroup
    decreases j - i
  {
    RunKeepsInvariant(worlds, setting, true, i);
    assert TypedTable(KafkaSource, worlds[i].tables(KafkaSource));
    if i < j {
      RunKeepsInvariant(worlds, setting, true, j - 1);
      assert StepAt(worlds, j - 1, setting, true);
      GroupKeptByStep(worlds[j - 1], worlds[j], setting, id);
      ConsumerGroupKept(worlds, setting, i, j - 1, id);
    }
  }

  /** Live before the step, and with the finalizer stored after it. */
  ghost predicate Attached(w: World, w': World, id: Id) {
    id in w.capps && id in w'.capps && !w.capps[id].deleting && FINALIZER in w'.capps[id].finalizers
  }

  /** Apart from what others do, only the reconciler creates or updates children, only for a Capp that is not
      being deleted, and only once that Capp's finalizer is stored. */
  lemma FinalizerFirst(w: World, w': World, setting: Setting, tame: bool)
    requires Step(w, w', setting, tame) && !OthersAct(w, w', tame) && !Descends(w.tables, w'.tables)
    ensures exists id :: Reconciles(w, w', id, setting) && Attached(w, w', id)
  {
    if w'.tables == w.tables {
      assert Descends(w.tables, w'.tables);
    } else {
      var id :| Reconciles(w, w', id, setting);
      if id in w.capps && w.capps[id].deleting {
        FinalizingDescends(w.tables, w.capps, w'.tables, w'.capps, w.capps[id]);
      }
    }
  }

  /** Once a Capp is being deleted, no reconcile of it creates or updates anything. */
  lemma NoManageUnderDeletion(w: World, w': World, setting: Setting, id: Id)
    requires Reconciles(w, w', id, setting) && id in w.capps && w.capps[id].deleting
    ensures Descends(w.tables, w'.tables)
    ensures FINALIZER !in w.capps[id].finalizers ==> w'.tables == w.tables && w'.capps == w.capps
  {
    if w'.tables != w.tables || w'.capps != w.capps {
      FinalizingDescends(w.tables, w.capps, w'.tables, w'.capps, w.capps[id]);
    }
  }

  /** After a complete cleanup garbage collection can reach all that is left: whatever the Capp's managers
      would find names the Capp as owner, and no TLS secret of a DomainMapping that remains is left. */
  ghost predicate LeftToGarbageCollection(tables: Tables, capp: Capp) {
    && (forall kind: Kind, id :: kind != Secret && kind != Service && id in Labelled(kind, tables(kind), capp) ==>
          HasOwner(tables(kind)[id].owners, Ref(capp)))
    && (capp.id in tables(Service) ==> HasOwner(tables(Service)[capp.id].owners, Ref(capp)))
    && (forall id :: id in Labelled(DomainMapping, tables(DomainMapping), capp) ==> SecretId(id) !in tables(Secret))
  }

  lemma CleanedIsLeft(before: Tables, after: Tables, capp: Capp)
    requires AllCleaned(before, after, capp) && capp.deleting
    ensures LeftToGarbageCollection(after, capp)
  {
    forall kind: Kind, id | kind != Secret && kind != Service && id in Labelled(kind, after(kind), capp)
      ensures HasOwner(after(kind)[id].owners, Ref(capp))
    {
      assert id in after(kind) && id !in Doomed(kind, before(kind), capp);
      assert id in Labelled(kind, before(kind), capp);
    }
    assert capp.id in after(Service) ==> capp.id !in Doomed(Service, before(Service), capp);
    forall id | id in Labelled(DomainMapping, after(DomainMapping), capp) ensures SecretId(id) !in after(Secret) {
      assert id in Labelled(DomainMapping, before(DomainMapping), capp);
      assert SecretId(id) in TLSSecrets(before(DomainMapping), capp);
    }
  }

  /** In every run, the wild ones included, the finalizer goes, or the Capp itself, only when the same pass has
      cleaned up completely - or when the Capp, alive, owns nothing. No failure anywhere can change that. */
  lemma RemovalIsClean(worlds: seq<World>, setting: Setting, tame: bool, i: nat, id: Id)
    requires Run(worlds, setting, tame) && i < |worlds| - 1 && id in worlds[i].capps
    requires id !in worlds[i + 1].capps ||
      (FINALIZER in worlds[i].capps[id].finalizers && FINALIZER !in worlds[i + 1].capps[id].finalizers)
    ensures var capp := worlds[i].capps[id];
      || LeftToGarbageCollection(worlds[i + 1].tables, capp)
      || (!capp.deleting && forall kind: Kind :: !Owned(kind, worlds[i].tables(kind), Ref(capp)))
  {
    RunKeepsInvariant(worlds, setting, tame, i);
    assert StepAt(worlds, i, setting, tame);
    RemovalStepIsClean(worlds[i], worlds[i + 1], setting, tame, id);
  }

  lemma RemovalStepIsClean(w: World, w': World, setting: Setting, tame: bool, id: Id)
    requires Invariant(w, setting, tame) && Step(w, w', setting, tame) && id in w.capps
    requires id !in w'.capps || (FINALIZER in w.capps[id].finalizers && FINALIZER !in w'.capps[id].finalizers)
    ensures var capp := w.capps[id];
      || LeftToGarbageCollection(w'.tables, capp)
      || (!capp.deleting && forall kind: Kind :: !Owned(kind, w.tables(kind), Ref(capp)))
  {
    assert CappInvariant(w.capps[id], w.tables, setting.zone, tame);
    if id' :| UserDeletes(w, w', id') {
      assert id' == id && FINALIZER !in w.capps[id].finalizers;
    } else if id' :| Reconciles(w, w', id', setting) {
      ReconcileRemoves(w, w', setting, id', id);
    }
  }

  /** A reconcile that takes the finalizer away is the Capp's own, and has cleaned up. */
  lemma ReconcileRemoves(w: World, w': World, setting: Setting, reconciled: Id, id: Id)
    requires Reconciles(w, w', reconciled, setting) && id in w.capps
    requires id !in w'.capps || (FINALIZER in w.capps[id].finalizers && FINALIZER !in w'.capps[id].finalizers)
    ensures LeftToGarbageCollection(w'.tables, w.capps[id])
  {
    assert w'.capps != w.capps;
    if w.capps[reconciled].deleting {
      CleanedIsLeft(w.tables, w'.tables, w.capps[id]);
    }
  }

  /** A table of one foreign DomainMapping. */
  function OneMapping(mapping: Id, o: Obj): Tables {
    k => if k == DomainMapping then map[mapping := o] else map[]
  }

  /** Such a run really gives a cleanup something to delete: somebody's mapping that bears the label of the Capp,
      a Capp, and its deletion. */
  lemma ForeignMappingDoomed(capp: Capp, mapping: Id, o: Obj, setting: Setting)
    requires capp.finalizers == {FINALIZER} && !capp.deleting && mapping.ns == capp.id.ns
    requires o.labels == LabelsFor(DomainMapping, capp) && o.owners == [] && o.spec.DomainMappingSpec?
    ensures var tables := OneMapping(mapping, o);
      var w0 := World(map[], tables, None, {});
      var w1 := World(map[capp.id := capp], tables, None, {capp.uid});
      var w2 := World(map[capp.id := capp.(deleting := true)], tables, None, {capp.uid});
      && Run([w0, w1, w2], setting, false)
      && mapping in Doomed(DomainMapping, w2.tables(DomainMapping), w2.capps[capp.id])
  {
    var tables := OneMapping(mapping, o);
    var w0, w1 := World(map[], tables, None, {}), World(map[capp.id := capp], tables, None, {capp.uid});
    var w2 := World(map[capp.id := capp.(deleting := true)], tables, None, {capp.uid});
    var worlds := [w0, w1, w2];
    assert UserCreates(w0, w1, capp, false);
    assert w1.capps[capp.id := capp.(deleting := true)] == w2.capps;
    assert UserDeletes(w1, w2, capp.id);
    forall i | 0 <= i < |worlds| - 1 ensures StepAt(worlds, i, setting, false) {
      assert i == 0 || i == 1;
    }
    OwnLabelsMatch(DomainMapping, capp);
  }

  // ---------------------------------------------------------------- reuse of a name

  /** Tame runs need their assumption on names: when a route object of an earlier Capp of the name is left, a new
      Capp with another hostname ends up with routes under two names after its first clean pass. */
  lemma ReuseBreaksOneName(before: Tables, after: Tables, capp: Capp, env: Env, left: string)
    requires PassBy(before, after, capp, env) && capp.spec.route.hostname != ""
    requires HasRoute(DomainMapping, before, capp, left) && left != RouteName(capp, env)
    requires Id(capp.id.ns, RouteName(capp, env)) !in before(DomainMapping)
    ensures !OneRouteName(after, capp)
  {
    var t, c := before(DomainMapping), DomainMappingChild(capp, env, before(Secret));
    SingleChild(t, Ref(capp), c);
    assert after(DomainMapping) == Upsert(t, Ref(capp), c);
    OwnLabelsMatch(DomainMapping, capp);
    assert HasRoute(DomainMapping, after, capp, left) && HasRoute(DomainMapping, after, capp, RouteName(capp, env));
  }

  // ---------------------------------------------------------------- TLS secrets and interrupted cleanups

  ghost predicate CleanUpFailed(before: Tables, after: Tables, capp: Capp) {
    exists i :: CleanUpStopped(before, after, capp, i)
  }

  ghost predicate FailedCleanUp(states: seq<Tables>, n: nat, capp: Capp)
    requires n < |states| - 1
  {
    CleanUpFailed(states[n], states[n + 1], capp)
  }

  /** Cleanups that fail somewhere, any number of them, and then one that does not. */
  ghost predicate Interrupted(states: seq<Tables>, after: Tables, capp: Capp) {
    && states != []
    && (forall n :: 0 <= n < |states| - 1 ==> FailedCleanUp(states, n, capp))
    && AllCleaned(states[|states| - 1], after, capp)
  }

  /** The TLS secret of a DomainMapping can outlive interrupted cleanups and the last, complete one exactly when
      the Capp does not own the mapping: the mapping is then deleted first, and never listed again. */
  lemma TLSSecretLeaksIff(before: Tables, capp: Capp, mapping: Id)
    requires capp.deleting && mapping in Labelled(DomainMapping, before(DomainMapping), capp)
    requires SecretId(mapping) in before(Secret)
    ensures (exists states: seq<Tables>, after: Tables ::
              Interrupted(states, after, capp) && states[0] == before && SecretId(mapping) in after(Secret))
       <==> !HasOwner(before(DomainMapping)[mapping].owners, Ref(capp))
  {
    if HasOwner(before(DomainMapping)[mapping].owners, Ref(capp)) {
      forall states: seq<Tables>, after: Tables | Interrupted(states, after, capp) && states[0] == before
        ensures SecretId(mapping) !in after(Secret)
      {
        OwnedMappingStays(states, capp, mapping, |states| - 1);
        assert SecretId(mapping) in TLSSecrets(states[|states| - 1](DomainMapping), capp);
      }
    } else {
      LeakWitness(before, capp, mapping);
    }
  }

  lemma OwnedMappingKept(before: Tables, mid: Tables, capp: Capp, mapping: Id, i: nat)
    requires capp.deleting && mapping in Labelled(DomainMapping, before(DomainMapping), capp)
    requires HasOwner(before(DomainMapping)[mapping].owners, Ref(capp)) && CleanUpStopped(before, mid, capp, i)
    ensures mapping in Labelled(DomainMapping, mid(DomainMapping), capp)
    ensures mid(DomainMapping)[mapping] == before(DomainMapping)[mapping]
  {
    var d := Rank(DomainMapping);
    assert mapping !in Doomed(DomainMapping, before(DomainMapping), capp);
    assert mid(ORDER[d]) == before(ORDER[d]) ||
      Shrunk(before(ORDER[d]), mid(ORDER[d]), Doomed(ORDER[d], before(ORDER[d]), capp));
  }

  /** A mapping the Capp owns is listed again by every later cleanup. */
  lemma {:induction false} OwnedMappingStays(states: seq<Tables>, capp: Capp, mapping: Id, n: nat)
    requires capp.deleting && n < |states| && forall k :: 0 <= k < |states| - 1 ==> FailedCleanUp(states, k, capp)
    requires mapping in Labelled(DomainMapping, states[0](DomainMapping), capp)
    requires HasOwner(states[0](DomainMapping)[mapping].owners, Ref(capp))
    ensures mapping in Labelled(DomainMapping, states[n](DomainMapping), capp)
    ensures states[n](DomainMapping)[mapping] == states[0](DomainMapping)[mapping]
  {
    if n > 0 {
      OwnedMappingStays(states, capp, mapping, n - 1);
      assert FailedCleanUp(states, n - 1, capp);
      var i :| CleanUpStopped(states[n - 1], states[n], capp, i);
      OwnedMappingKept(states[n - 1], states[n], capp, mapping, i);
    }
  }

  /** A pass that deleted one mapping and then failed. */
  function StoppedAfter(before: Tables, capp: Capp, mapping: Id): Tables {
    k =>
      if k == DomainMapping then before(k) - {mapping}
      else if k in {CNAMERecord, PingSource, KafkaSource} then before(k) - Doomed(k, before(k), capp) else before(k)
  }

  function CleanedUp(before: Tables, capp: Capp): Tables {
    k =>
      if k == Secret then before(k) - TLSSecrets(before(DomainMapping), capp)
      else before(k) - Doomed(k, before(k), capp)
  }

  lemma StoppedAfterMapping(before: Tables, capp: Capp, mapping: Id)
    requires mapping in Doomed(DomainMapping, before(DomainMapping), capp)
    ensures CleanUpStopped(before, StoppedAfter(before, capp, mapping), capp, Rank(DomainMapping))
  {
  }

  lemma LeakWitness(before: Tables, capp: Capp, mapping: Id)
    requires capp.deleting && mapping in Labelled(DomainMapping, before(DomainMapping), capp)
    requires SecretId(mapping) in before(Secret) && !HasOwner(before(DomainMapping)[mapping].owners, Ref(capp))
    ensures exists states: seq<Tables>, after: Tables ::
      Interrupted(states, after, capp) && states[0] == before && SecretId(mapping) in after(Secret)
  {
    var mid := StoppedAfter(before, capp, mapping);
    var after := CleanedUp(mid, capp);
    StoppedAfterMapping(before, capp, mapping);
    assert AllCleaned(mid, after, capp);
    forall id | id in Labelled(DomainMapping, mid(DomainMapping), capp) ensures SecretId(id) != SecretId(mapping) {
      if SecretId(id) == SecretId(mapping) {
        TLSSecretNameInjective(id.name, mapping.name);
      }
    }
    var states := [before, mid];
    assert CleanUpFailed(before, mid, capp);
    assert FailedCleanUp(states, 0, capp);
    assert Interrupted(states, after, capp) && states[0] == before;
  }
}
