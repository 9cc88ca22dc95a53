/** The API server. Reads are fresh and specs are stored verbatim. The n-th call is subject to
    `fault(n)`, an arbitrary function, so a proof about `Api` is a proof about every pattern of
    failing calls, including calls that take effect although the client sees an error. */
module Cluster {
  import opened Objects

  /** `Panic` is not an answer of the server: it is the Go runtime unwinding the reconcile. */
  datatype ApiError = NotFound | AlreadyExists | Conflict | Forbidden | ServerError | Panic

  datatype Fault = NoFault | Conflicted | Refused | ReplyLost

  function ErrorOf(f: Fault): ApiError {
    if f == Conflicted then Conflict else ServerError
  }

  datatype Result<+T> = Ok(value: T) | Err(error: ApiError)

  function ErrorIn<T>(r: Result<T>): Option<ApiError> {
    if r.Ok? then None else Some(r.error)
  }

  /** What the client sees of a call that would be answered with `answer`. */
  function Reply(f: Fault, answer: Option<ApiError>): Option<ApiError> {
    if f == NoFault then answer else Some(ErrorOf(f))
  }

  /** Whether the server gets to carry the call out. */
  predicate Lands(f: Fault) {
    f == NoFault || f == ReplyLost
  }

  /** No call from `from` on and before `until` met a fault. */
  ghost predicate Faultless(fault: nat -> Fault, from: nat, until: nat) {
    forall n :: from <= n < until ==> fault(n) == NoFault
  }

  /** How work ends that stops at its first failing call: with the error of that call, which was the last
      one, or without an error, and then no call met a fault. */
  ghost predicate Ended(fault: nat -> Fault, from: nat, until: nat, err: Option<ApiError>) {
    && from <= until
    && if err.None? then Faultless(fault, from, until)
       else from < until && Faultless(fault, from, until - 1)
            && fault(until - 1) != NoFault && err == Some(ErrorOf(fault(until - 1)))
  }

  lemma EndedCall(fault: nat -> Fault, n: nat)
    ensures Ended(fault, n, n + 1, Reply(fault(n), None))
  {
  }

  lemma EndedThen(fault: nat -> Fault, from: nat, mid: nat, until: nat, err: Option<ApiError>)
    requires Ended(fault, from, mid, None) && Ended(fault, mid, until, err)
    ensures Ended(fault, from, until, err)
  {
  }

  /** The errors of all calls that met a fault, in order. */
  function Answers(fault: nat -> Fault, from: nat, until: nat): seq<ApiError>
    requires from <= until
    decreases until
  {
    if from == until then []
    else Answers(fault, from, until - 1) + (if fault(until - 1) == NoFault then [] else [ErrorOf(fault(until - 1))])
  }

  lemma {:induction false} AnswersFaultless(fault: nat -> Fault, from: nat, mid: nat, until: nat)
    requires from <= mid <= until && Faultless(fault, mid, until)
    ensures Answers(fault, from, until) == Answers(fault, from, mid)
    decreases until
  {
    if mid < until {
      AnswersFaultless(fault, from, mid, until - 1);
    }
  }

  /** Work that stops at its first failing call adds one error or none. */
  lemma {:induction false} AnswersEnded(fault: nat -> Fault, from: nat, mid: nat, until: nat, err: Option<ApiError>)
    requires from <= mid && Ended(fault, mid, until, err)
    ensures Answers(fault, from, until) == Answers(fault, from, mid) + if err.None? then [] else [err.value]
  {
    AnswersFaultless(fault, from, mid, if err.None? then until else until - 1);
  }

  /** Every call went through exactly when there is no error to report. */
  lemma {:induction false} AnswersIff(fault: nat -> Fault, from: nat, until: nat)
    requires from <= until
    ensures Answers(fault, from, until) == [] <==> Faultless(fault, from, until)
    decreases until
  {
    if from < until {
      AnswersIff(fault, from, until - 1);
    }
  }

  /** An object together with its identity, as in a list or as a manager prepares it. */
  datatype Child = Child(id: Id, obj: Obj)

  predicate Matches(selector: map<string, string>, labels: map<string, string>) {
    forall k :: k in selector ==> k in labels && labels[k] == selector[k]
  }

  function Matching(t: Table, ns: string, selector: map<string, string>): set<Id> {
    set id | id in t && id.ns == ns && Matches(selector, t[id].labels)
  }

  /** `items` is a listing: every matching object once, in no particular order. */
  ghost predicate Lists(items: seq<Child>, t: Table, ns: string, selector: map<string, string>) {
    && (forall i :: 0 <= i < |items| ==> items[i].id in Matching(t, ns, selector) && items[i].obj == t[items[i].id])
    && (forall i, j :: 0 <= i < j < |items| ==> items[i].id != items[j].id)
    && (forall id :: id in Matching(t, ns, selector) ==> exists i :: 0 <= i < |items| && items[i].id == id)
  }

  /** The server drops the status of what is created and keeps the status of what is updated. */
  function Stored(t: Table, id: Id, o: Obj): Table {
    t[id := o.(status := if id in t then t[id].status else NO_STATUS)]
  }

  /** Only objects of one kind changed. */
  predicate Only(before: Tables, after: Tables, kind: Kind) {
    forall k: Kind :: k != kind ==> after(k) == before(k)
  }

  function With(tables: Tables, kind: Kind, t: Table): Tables {
    k => if k == kind then t else tables(k)
  }

  /** The finalizer rules of the server: a Capp under deletion goes when its last finalizer goes. */
  function CappStored(capps: map<Id, Capp>, capp: Capp): map<Id, Capp>
    requires capp.id in capps
  {
    if capp.deleting && capp.finalizers == {} then capps - {capp.id}
    else capps[capp.id := capp.(status := capps[capp.id].status)]
  }

  /** A finalizer cannot be added to an object under deletion. */
  predicate CappAccepted(capps: map<Id, Capp>, capp: Capp) {
    capp.id in capps && (capp.deleting ==> capp.finalizers <= capps[capp.id].finalizers)
  }

  class Api {
    const fault: nat -> Fault
    const library: Library
    var tables: Tables
    var capps: map<Id, Capp>
    var config: Option<CappConfig>
    var revisions: seq<KnativeRevision>
    /** Calls made, and calls that ask for a child to be written. */
    var calls: nat
    var writes: nat

    constructor (fault: nat -> Fault, library: Library, tables: Tables, capps: map<Id, Capp>,
                 config: Option<CappConfig>, revisions: seq<KnativeRevision>)
      ensures this.fault == fault && this.library == library && this.tables == tables
      ensures this.capps == capps && this.config == config && this.revisions == revisions
      ensures calls == writes == 0
    {
      this.fault, this.library, this.tables, this.capps := fault, library, tables, capps;
      this.config, this.revisions, calls, writes := config, revisions, 0, 0;
    }

    method Next() returns (f: Fault)
      modifies this`calls
      ensures f == fault(old(calls)) && calls == old(calls) + 1
    {
      f := fault(calls);
      calls := calls + 1;
    }

    method Get(kind: Kind, id: Id) returns (r: Result<Obj>)
      modifies this`calls
      ensures calls == old(calls) + 1
      ensures ErrorIn(r) == Reply(fault(old(calls)), if id in tables(kind) then None else Some(NotFound))
      ensures r.Ok? ==> id in tables(kind) && r.value == tables(kind)[id]
    {
      var f := Next();
      if f != NoFault {
        r := Err(ErrorOf(f));
      } else if id in tables(kind) {
        r := Ok(tables(kind)[id]);
      } else {
        r := Err(NotFound);
      }
    }

    method List(kind: Kind, ns: string, selector: map<string, string>) returns (r: Result<seq<Child>>)
      modifies this`calls
      ensures calls == old(calls) + 1
      ensures ErrorIn(r) == Reply(fault(old(calls)), None)
      ensures r.Ok? ==> Lists(r.value, tables(kind), ns, selector)
    {
      var f := Next();
      if f != NoFault {
        return Err(ErrorOf(f));
      }
      var t := tables(kind);
      var items: seq<Child>, rest := [], Matching(t, ns, selector);
      while rest != {}
        invariant rest <= Matching(t, ns, selector)
        invariant forall i :: 0 <= i < |items| ==>
          items[i].id in Matching(t, ns, selector) && items[i].obj == t[items[i].id]
        invariant forall i :: 0 <= i < |items| ==> items[i].id !in rest
        invariant forall i, j :: 0 <= i < j < |items| ==> items[i].id != items[j].id
        invariant forall id :: id in Matching(t, ns, selector) && id !in rest ==>
          exists i :: 0 <= i < |items| && items[i].id == id
        decreases rest
      {
        var id :| id in rest;
        ghost var before := items;
        items, rest := items + [Child(id, t[id])], rest - {id};
        assert items[|items| - 1].id == id;
        assert forall i :: 0 <= i < |before| ==> items[i] == before[i];
      }
      r := Ok(items);
    }

    method Create(kind: Kind, id: Id, o: Obj) returns (err: Option<ApiError>)
      modifies this`calls, this`writes, this`tables
      ensures writes == old(writes) + 1
      ensures calls == old(calls) + 1 && Only(old(tables), tables, kind)
      ensures err == Reply(fault(old(calls)), if id in old(tables)(kind) then Some(AlreadyExists) else None)
      ensures tables(kind) ==
        if Lands(fault(old(calls))) && id !in old(tables)(kind) then Stored(old(tables)(kind), id, o)
          else old(tables)(kind)
    {
      var f := Next();
      writes := writes + 1;
      if f == Conflicted || f == Refused {
        return Some(ErrorOf(f));
      }
      if id in tables(kind) {
        return Reply(f, Some(AlreadyExists));
      }
      tables := With(tables, kind, Stored(tables(kind), id, o));
      err := Reply(f, None);
    }

    method Update(kind: Kind, id: Id, o: Obj) returns (err: Option<ApiError>)
      modifies this`calls, this`writes, this`tables
      ensures writes == old(writes) + 1
      ensures calls == old(calls) + 1 && Only(old(tables), tables, kind)
      ensures err == Reply(fault(old(calls)), if id in old(tables)(kind) then None else Some(NotFound))
      ensures tables(kind) ==
        if Lands(fault(old(calls))) && id in old(tables)(kind) then Stored(old(tables)(kind), id, o)
          else old(tables)(kind)
    {
      var f := Next();
      writes := writes + 1;
      if f == Conflicted || f == Refused {
        return Some(ErrorOf(f));
      }
      if id !in tables(kind) {
        return Reply(f, Some(NotFound));
      }
      tables := With(tables, kind, Stored(tables(kind), id, o));
      err := Reply(f, None);
    }

    method Delete(kind: Kind, id: Id) returns (err: Option<ApiError>)
      modifies this`calls, this`writes, this`tables
      ensures writes == old(writes) + 1
      ensures calls == old(calls) + 1 && Only(old(tables), tables, kind)
      ensures err == Reply(fault(old(calls)), if id in old(tables)(kind) then None else Some(NotFound))
      ensures tables(kind) == if Lands(fault(old(calls))) then old(tables)(kind) - {id} else old(tables)(kind)
    {
      var f := Next();
      writes := writes + 1;
      if f == Conflicted || f == Refused {
        return Some(ErrorOf(f));
      }
      if id !in tables(kind) {
        assert tables(kind) - {id} == tables(kind);
        return Reply(f, Some(NotFound));
      }
      tables := With(tables, kind, tables(kind) - {id});
      err := Reply(f, None);
    }

    method GetCapp(id: Id) returns (r: Result<Capp>)
      modifies this`calls
      ensures calls == old(calls) + 1
      ensures ErrorIn(r) == Reply(fault(old(calls)), if id in capps then None else Some(NotFound))
      ensures r.Ok? ==> id in capps && r.value == capps[id]
    {
      var f := Next();
      if f != NoFault {
        r := Err(ErrorOf(f));
      } else if id in capps {
        r := Ok(capps[id]);
      } else {
        r := Err(NotFound);
      }
    }

    method GetCappConfig() returns (r: Result<CappConfig>)
      modifies this`calls
      ensures calls == old(calls) + 1
      ensures ErrorIn(r) == Reply(fault(old(calls)), if config.Some? then None else Some(NotFound))
      ensures r.Ok? ==> config == Some(r.value)
    {
      var f := Next();
      if f != NoFault {
        r := Err(ErrorOf(f));
      } else if config.Some? {
        r := Ok(config.value);
      } else {
        r := Err(NotFound);
      }
    }

    /** Updates everything but the status. A new finalizer on an object under deletion is refused. */
    method UpdateCapp(capp: Capp) returns (err: Option<ApiError>)
      modifies this`calls, this`capps
      ensures calls == old(calls) + 1
      ensures err == Reply(fault(old(calls)),
        if capp.id !in old(capps) then Some(NotFound) else if CappAccepted(old(capps), capp) then None
          else Some(Forbidden))
      ensures capps ==
        if Lands(fault(old(calls))) && CappAccepted(old(capps), capp) then CappStored(old(capps), capp) else old(capps)
    {
      var f := Next();
      if f == Conflicted || f == Refused {
        return Some(ErrorOf(f));
      }
      if capp.id !in capps {
        return Reply(f, Some(NotFound));
      }
      if !CappAccepted(capps, capp) {
        return Reply(f, Some(Forbidden));
      }
      capps := CappStored(capps, capp);
      err := Reply(f, None);
    }

    method UpdateCappStatus(id: Id, status: CappStatus) returns (err: Option<ApiError>)
      modifies this`calls, this`capps
      ensures calls == old(calls) + 1
      ensures err == Reply(fault(old(calls)), if id in old(capps) then None else Some(NotFound))
      ensures capps ==
        if Lands(fault(old(calls))) && id in old(capps) then old(capps)[id := old(capps)[id].(status := status)]
        else old(capps)
    {
      var f := Next();
      if f == Conflicted || f == Refused {
        return Some(ErrorOf(f));
      }
      if id !in capps {
        return Reply(f, Some(NotFound));
      }
      capps := capps[id := capps[id].(status := status)];
      err := Reply(f, None);
    }
  }
}
