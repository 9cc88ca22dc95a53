/** The revision history over whole runs: edits of the Capp, changes of the limit, and reconciles in
    which any call may fail. */
module HistoryRuns {
  import opened Objects
  import opened Cluster
  import opened Sorting
  import opened Text
  import opened Revisions

  // ---------------------------------------------------------------- histories in good order

  ghost predicate StrictTimes(h: seq<CappRevision>) {
    forall i, j :: 0 <= i < j < |h| ==> h[i].created < h[j].created
  }

  ghost predicate StrictNumbers(h: seq<CappRevision>) {
    forall i, j :: 0 <= i < j < |h| ==> h[i].number < h[j].number
  }

  ghost predicate Named(h: seq<CappRevision>, cappName: string) {
    forall i :: 0 <= i < |h| ==> h[i].name == RevisionName(cappName, h[i].number)
  }

  /** What the protocol relies on: creation times that tell revisions apart, in the order of the numbers
      in their names, and a clock that has moved on. */
  ghost predicate Orderly(h: seq<CappRevision>, cappName: string, clock: int) {
    && StrictTimes(h) && StrictNumbers(h) && Named(h, cappName)
    && forall i :: 0 <= i < |h| ==> h[i].created < clock
  }

  function Last(h: seq<CappRevision>): CappRevision
    requires h != []
  {
    h[|h| - 1]
  }

  /** The newest `n` revisions, or all if there are fewer. */
  function Newest(h: seq<CappRevision>, n: nat): seq<CappRevision> {
    if n >= |h| then h else h[|h| - n..]
  }

  function Reversed(h: seq<CappRevision>): (r: seq<CappRevision>)
    ensures |r| == |h| && forall i :: 0 <= i < |h| ==> r[i] == h[|h| - 1 - i]
  {
    seq(|h|, i requires 0 <= i < |h| => h[|h| - 1 - i])
  }

  lemma {:induction false} ReversedPermutes(h: seq<CappRevision>)
    ensures multiset(Reversed(h)) == multiset(h)
  {
    if h != [] {
      ReversedPermutes(h[1..]);
      assert Reversed(h) == Reversed(h[1..]) + [h[0]];
      assert h == [h[0]] + h[1..];
    }
  }

  /** With creation times that differ, the sort leaves no choice: the page is the history, newest first. */
  lemma PageIsReversed(page: seq<CappRevision>, h: seq<CappRevision>)
    requires StrictTimes(h) && |h| <= PAGE_LIMIT && SortedPage(page, h)
    ensures page == Reversed(h)
  {
    ReversedPermutes(h);
    OrderedUnique(Reversed(h), page, Newer);
  }

  ghost predicate DistinctNames(h: seq<CappRevision>) {
    forall i, j :: 0 <= i < j < |h| ==> h[i].name != h[j].name
  }

  lemma NamesDiffer(h: seq<CappRevision>, cappName: string)
    requires StrictNumbers(h) && Named(h, cappName)
    ensures DistinctNames(h)
  {
    forall i, j | 0 <= i < j < |h| ensures h[i].name != h[j].name {
      NamesApart(cappName, h[i].number, h[j].number);
    }
  }

  lemma NamesApart(cappName: string, m: nat, n: nat)
    requires m != n
    ensures RevisionName(cappName, m) != RevisionName(cappName, n)
  {
    if RevisionName(cappName, m) == RevisionName(cappName, n) {
      RevisionNameInjective(cappName, m, cappName, n);
    }
  }

  /** Removing a revision by name removes just that one. */
  lemma {:induction false} RemoveAt(h: seq<CappRevision>, k: nat)
    requires DistinctNames(h) && k < |h|
    ensures Remove(h, h[k].name) == h[..k] + h[k + 1..]
  {
    var rest := h[1..];
    if k == 0 {
      RemoveAbsent(rest, h[0].name);
    } else {
      assert rest[k - 1] == h[k];
      RemoveAt(rest, k - 1);
      assert [h[0]] + rest[..k - 1] == h[..k] && rest[k..] == h[k + 1..];
      assert [h[0]] + (rest[..k - 1] + rest[k..]) == [h[0]] + rest[..k - 1] + rest[k..];
    }
  }

  /** The history without `j` revisions, those next to the newest `keep`. */
  function Trimmed(h: seq<CappRevision>, keep: nat, j: nat): (t: seq<CappRevision>)
    requires keep + j <= |h|
    ensures |t| == |h| - j
    ensures forall i :: 0 <= i < |t| ==> t[i] == h[Origin(|h| - keep - j, j, i)]
  {
    h[..|h| - keep - j] + h[|h| - keep..]
  }

  function Origin(cut: nat, j: nat, i: nat): nat {
    if i < cut then i else i + j
  }

  lemma TrimmedDistinct(h: seq<CappRevision>, keep: nat, j: nat)
    requires DistinctNames(h) && keep + j <= |h|
    ensures DistinctNames(Trimmed(h, keep, j))
  {
  }

  /** The first `j` revisions after the newest `keep`, newest first. */
  function Victims(h: seq<CappRevision>, keep: nat, j: nat): (v: seq<CappRevision>)
    requires keep + j <= |h|
    ensures |v| == j && forall i :: 0 <= i < j ==> v[i] == h[|h| - 1 - keep - i]
  {
    seq(j, i requires 0 <= i < j => h[|h| - 1 - keep - i])
  }

  lemma VictimsOfPage(h: seq<CappRevision>, keep: nat, j: nat)
    requires keep + j <= |h|
    ensures Reversed(h)[keep..][..j] == Victims(h, keep, j)
    ensures Reversed(h)[keep..] == Victims(h, keep, |h| - keep)
  {
  }

  lemma TrimOneMore(h: seq<CappRevision>, keep: nat, j: nat)
    requires DistinctNames(h) && keep + j < |h|
    ensures Remove(Trimmed(h, keep, j), h[|h| - 1 - keep - j].name) == Trimmed(h, keep, j + 1)
  {
    var t, k := Trimmed(h, keep, j), |h| - 1 - keep - j;
    TrimmedDistinct(h, keep, j);
    TrimmedAround(h, keep, j);
    RemoveAt(t, k);
  }

  lemma TrimmedAround(h: seq<CappRevision>, keep: nat, j: nat)
    requires keep + j < |h|
    ensures var t, k := Trimmed(h, keep, j), |h| - 1 - keep - j;
      t[k] == h[k] && t[..k] + t[k + 1..] == Trimmed(h, keep, j + 1)
  {
    var t, k := Trimmed(h, keep, j), |h| - 1 - keep - j;
    assert h[..k + 1] == h[..k] + [h[k]];
    assert t == h[..k] + [h[k]] + h[|h| - keep..];
    assert t[..k] == h[..k] && t[k + 1..] == h[|h| - keep..];
  }

  /** The delete loop works from the newest revision past the limit towards the oldest. */
  lemma {:induction false} DeletedIsTrimmed(h: seq<CappRevision>, keep: nat, j: nat)
    requires DistinctNames(h) && keep + j <= |h|
    ensures RemoveAll(h, Victims(h, keep, j)) == Trimmed(h, keep, j)
  {
    if j == 0 {
      assert Trimmed(h, keep, 0) == h;
    } else {
      assert Victims(h, keep, j)[..j - 1] == Victims(h, keep, j - 1);
      DeletedIsTrimmed(h, keep, j - 1);
      TrimOneMore(h, keep, j - 1);
    }
  }

  // ---------------------------------------------------------------- one pass over an orderly history

  function NextNumber(h: seq<CappRevision>): nat {
    if h == [] then 1 else Last(h).number + 1
  }

  ghost predicate TrimmedTo(h: seq<CappRevision>, h': seq<CappRevision>, keep: nat, j: int) {
    0 <= j <= |h| - keep && h' == Trimmed(h, keep, j)
  }

  ghost predicate CutShort(h: seq<CappRevision>, h': seq<CappRevision>, keep: nat) {
    exists j :: TrimmedTo(h, h', keep, j)
  }

  /** Everything one pass can do to an orderly history of at most a page, with a limit of at least two:
      leave it, create the next revision behind the newest ones, or fail part of the way into the trim. */
  ghost predicate HistoryStep(h: seq<CappRevision>, h': seq<CappRevision>, capp: Capp, limit: int, clock: int, ok: bool)
    requires limit >= 2
  {
    || (h' == h && (ok ==> h != [] && IsEqual(capp, Last(h))))
    || Creates(h, h', capp, limit, clock)
    || (!ok && h != [] && !IsEqual(capp, Last(h)) && limit <= |h| && CutShort(h, h', limit - 1))
  }

  ghost predicate Creates(h: seq<CappRevision>, h': seq<CappRevision>, capp: Capp, limit: int, clock: int)
    requires limit >= 2
  {
    (h == [] || !IsEqual(capp, Last(h))) && h' == Newest(h, limit - 1) + [NewRevision(capp, NextNumber(h), clock)]
  }

  /** The next number's name is free in an orderly history, and stays so when revisions are deleted. */
  lemma NextNameFree(h: seq<CappRevision>, kept: seq<CappRevision>, capp: Capp, clock: int)
    requires StrictNumbers(h) && Named(h, capp.id.name) && forall r :: r in kept ==> r in h
    ensures !NameTaken(kept, NewRevision(capp, NextNumber(h), clock).name)
  {
    forall i | 0 <= i < |kept| ensures kept[i].name != NewRevision(capp, NextNumber(h), clock).name {
      assert kept[i] in h;
      var k :| 0 <= k < |h| && h[k] == kept[i];
      NamesApart(capp.id.name, h[k].number, NextNumber(h));
    }
  }

  /** The reconcile, as `Syncs` describes it for any history and any limit, is a history step; and when no
      call meets a fault, it is one without error. */
  lemma SyncIsHistoryStep(h: seq<CappRevision>, h': seq<CappRevision>, page: seq<CappRevision>, capp: Capp, limit: int,
                          clock: int, err: Option<ApiError>, deleted: nat, clean: bool)
    requires Orderly(h, capp.id.name, clock) && |h| <= PAGE_LIMIT && limit >= 2
    requires Syncs(h, h', page, capp, Some(limit), clock, err, deleted, clean)
    ensures err != Some(Panic) && (clean ==> err.None?)
    ensures HistoryStep(h, h', capp, limit, clock, err.None?)
  {
    if page == [] {
      NextNameFree(h, h, capp, clock);
    } else {
      PageIsReversed(page, h);
      if Updates(h, h', page, capp, limit, clock, err, deleted, clean) {
        UpdateIsHistoryStep(h, h', page, capp, limit, clock, err, deleted, clean);
      }
    }
  }

  lemma UpdateIsHistoryStep(h: seq<CappRevision>, h': seq<CappRevision>, page: seq<CappRevision>, capp: Capp,
                            limit: int, clock: int, err: Option<ApiError>, deleted: nat, clean: bool)
    requires Orderly(h, capp.id.name, clock) && h != [] && page == Reversed(h) && limit >= 2
    requires Updates(h, h', page, capp, limit, clock, err, deleted, clean)
    ensures err != Some(Panic) && (clean ==> err.None?)
    ensures HistoryStep(h, h', capp, limit, clock, err.None?)
  {
    assert page[0] == Last(h);
    if !IsEqual(capp, Last(h)) {
      if limit <= |h| {
        TrimIsHistoryStep(h, h', page, capp, limit, clock, err, deleted, clean);
      } else {
        NextNameFree(h, h, capp, clock);
      }
    }
  }

  lemma TrimIsHistoryStep(h: seq<CappRevision>, h': seq<CappRevision>, page: seq<CappRevision>, capp: Capp, limit: int,
                          clock: int, err: Option<ApiError>, deleted: nat, clean: bool)
    requires Orderly(h, capp.id.name, clock) && 2 <= limit <= |h| && page == Reversed(h) && !IsEqual(capp, Last(h))
    requires Updates(h, h', page, capp, limit, clock, err, deleted, clean)
    ensures err != Some(Panic) && (clean ==> err.None?)
    ensures HistoryStep(h, h', capp, limit, clock, err.None?)
  {
    var keep := limit - 1;
    assert page[0] == Last(h) && SplitRevisionsAtIndex(page, keep).1 == page[keep..];
    NamesDiffer(h, capp.id.name);
    if deleted < |h| - keep {
      CutOffIsCutShort(h, h', page, keep, err, deleted, clean);
    } else {
      KeptNameFree(h, keep, capp, clock);
      TrimmedThenCreated(h, h', page, keep, NewRevision(capp, NextNumber(h), clock), err, clean);
    }
  }

  /** A trim only ends early on account of a fault: what it is to delete is there. */
  lemma CutOffIsCutShort(h: seq<CappRevision>, h': seq<CappRevision>, page: seq<CappRevision>, keep: nat,
                         err: Option<ApiError>, deleted: nat, clean: bool)
    requires DistinctNames(h) && page == Reversed(h) && keep + deleted < |h|
    requires CutOff(h, h', page[keep..], err, deleted, clean)
    ensures !clean && err.Some? && err != Some(Panic) && CutShort(h, h', keep)
  {
    TailIsTrimmed(h, page, keep, deleted);
    TailIsTrimmed(h, page, keep, deleted + 1);
    TailPresent(h, page, keep, deleted);
    assert TrimmedTo(h, h', keep, deleted) || TrimmedTo(h, h', keep, deleted + 1);
  }

  lemma {:induction false} RemovedIsNewest(h: seq<CappRevision>, page: seq<CappRevision>, keep: nat)
    requires DistinctNames(h) && page == Reversed(h) && 1 <= keep < |h|
    ensures RemoveAll(h, page[keep..]) == Newest(h, keep) && TrimmedTo(h, Newest(h, keep), keep, |h| - keep)
  {
    TailIsTrimmed(h, page, keep, |h| - keep);
    assert page[keep..][..|h| - keep] == page[keep..];
    NewestIsTrimmed(h, keep);
  }

  lemma {:induction false} TrimmedThenCreated(h: seq<CappRevision>, h': seq<CappRevision>, page: seq<CappRevision>,
                                              keep: nat, next: CappRevision, err: Option<ApiError>, clean: bool)
    requires DistinctNames(h) && page == Reversed(h) && 1 <= keep < |h|
    requires !NameTaken(Newest(h, keep), next.name)
    requires Created(RemoveAll(h, page[keep..]), h', next, err, clean)
    ensures err != Some(Panic) && (clean ==> err.None?)
    ensures (err.Some? && CutShort(h, h', keep)) || h' == Newest(h, keep) + [next]
  {
    RemovedIsNewest(h, page, keep);
    assert h' == Newest(h, keep) ==> TrimmedTo(h, h', keep, |h| - keep);
  }

  lemma KeptNameFree(h: seq<CappRevision>, keep: nat, capp: Capp, clock: int)
    requires StrictNumbers(h) && Named(h, capp.id.name) && keep >= 1
    ensures !NameTaken(Newest(h, keep), NewRevision(capp, NextNumber(h), clock).name)
  {
    NewestIsPart(h, keep);
    NextNameFree(h, Newest(h, keep), capp, clock);
  }

  lemma {:induction false} TailIsTrimmed(h: seq<CappRevision>, page: seq<CappRevision>, keep: nat, j: nat)
    requires DistinctNames(h) && page == Reversed(h) && keep + j <= |h|
    ensures RemoveAll(h, page[keep..][..j]) == Trimmed(h, keep, j)
  {
    VictimsOfPage(h, keep, j);
    DeletedIsTrimmed(h, keep, j);
  }

  /** The revision to be deleted next is still there. */
  lemma {:induction false} TailPresent(h: seq<CappRevision>, page: seq<CappRevision>, keep: nat, j: nat)
    requires DistinctNames(h) && page == Reversed(h) && keep + j < |h|
    ensures NameTaken(RemoveAll(h, page[keep..][..j]), page[keep..][j].name)
  {
    TailIsTrimmed(h, page, keep, j);
    assert Trimmed(h, keep, j)[|h| - 1 - keep - j] == page[keep..][j];
  }

  /** A pass that creates leaves exactly the newest revisions up to the limit, the new one among them. */
  lemma CreatingPassKeepsNewest(h: seq<CappRevision>, capp: Capp, limit: nat, clock: int)
    requires limit >= 2
    ensures var next := NewRevision(capp, NextNumber(h), clock);
      Newest(h, limit - 1) + [next] == Newest(h + [next], limit)
  {
  }

  // ---------------------------------------------------------------- runs

  /** `issued` is the highest number given out so far and `floor` the lowest limit so far. */
  datatype HState = HState(history: seq<CappRevision>, capp: Capp, limit: int, clock: int, issued: nat, floor: int)

  function Min(a: int, b: int): int {
    if a < b then a else b
  }

  ghost predicate Edit(s: HState, s': HState) {
    s' == s.(capp := s'.capp) && s'.capp.id == s.capp.id
  }

  ghost predicate SetLimit(s: HState, s': HState) {
    2 <= s'.limit <= PAGE_LIMIT && s' == s.(limit := s'.limit, floor := Min(s.floor, s'.limit))
  }

  /** A reconcile; before the next one the clock has moved past the times given out. */
  ghost predicate Pass(s: HState, s': HState, ok: bool) {
    s.limit >= 2 && HistoryStep(s.history, s'.history, s.capp, s.limit, s.clock, ok) && Reconciled(s, s')
  }

  ghost predicate Reconciled(s: HState, s': HState) {
    && s.clock < s'.clock
    && s' == s.(history := s'.history, clock := s'.clock,
                issued := if s'.history == [] then s.issued else Last(s'.history).number)
  }

  ghost predicate Step(s: HState, s': HState) {
    Edit(s, s') || SetLimit(s, s') || Pass(s, s', true) || Pass(s, s', false)
  }

  ghost predicate Run(states: seq<HState>) {
    states != [] && forall i :: 0 <= i < |states| - 1 ==> StepAt(states, i)
  }

  ghost predicate StepAt(states: seq<HState>, i: nat)
    requires i < |states| - 1
  {
    Step(states[i], states[i + 1])
  }

  /** A Capp whose history is still empty. */
  ghost predicate Initial(s: HState) {
    s.history == [] && s.issued == 0 && 2 <= s.limit <= PAGE_LIMIT && s.floor == s.limit
  }

  /** The newest `n` revisions carry consecutive numbers. */
  ghost predicate Contiguous(h: seq<CappRevision>, n: int) {
    forall k :: 0 <= k < |h| && |h| - n <= k ==> h[k].number == Last(h).number - (|h| - 1 - k)
  }

  /** Revisions with consecutive numbers differ. */
  ghost predicate NeighboursDiffer(h: seq<CappRevision>) {
    forall i, j :: 0 <= i < |h| && 0 <= j < |h| && h[j].number == h[i].number + 1 ==>
      !SameTemplate(h[j].template, h[i].template)
  }

  ghost predicate Numbered(h: seq<CappRevision>, issued: nat) {
    && (forall i :: 0 <= i < |h| ==> 1 <= h[i].number <= issued)
    && issued == if h == [] then 0 else Last(h).number
  }

  /** A history in good order whose newest `n` revisions have no gap. */
  ghost predicate Good(h: seq<CappRevision>, cappName: string, clock: int, issued: nat, n: int) {
    Orderly(h, cappName, clock) && Numbered(h, issued) && Contiguous(h, n) && NeighboursDiffer(h)
  }

  ghost predicate Invariant(s: HState) {
    && 2 <= s.floor <= s.limit <= PAGE_LIMIT && |s.history| <= PAGE_LIMIT
    && Good(s.history, s.capp.id.name, s.clock, s.issued, s.floor - 1)
  }

  lemma TrimKeepsOrder(h: seq<CappRevision>, cappName: string, clock: int, keep: nat, j: nat)
    requires keep + j <= |h| && Orderly(h, cappName, clock)
    ensures Orderly(Trimmed(h, keep, j), cappName, clock)
  {
  }

  lemma TrimKeepsNeighbours(h: seq<CappRevision>, keep: nat, j: nat)
    requires keep + j <= |h| && NeighboursDiffer(h)
    ensures NeighboursDiffer(Trimmed(h, keep, j))
  {
  }

  lemma TrimKeepsLast(h: seq<CappRevision>, keep: nat, j: nat)
    requires keep + j <= |h| && keep >= 1
    ensures Trimmed(h, keep, j) != [] && Last(Trimmed(h, keep, j)) == Last(h)
    ensures forall r :: r in Trimmed(h, keep, j) ==> r in h
  {
    assert Origin(|h| - keep - j, j, |h| - j - 1) == |h| - 1;
  }

  lemma TrimKeepsNumbers(h: seq<CappRevision>, keep: nat, j: nat, issued: nat)
    requires keep + j <= |h| && keep >= 1 && Numbered(h, issued)
    ensures Numbered(Trimmed(h, keep, j), issued)
  {
    TrimKeepsLast(h, keep, j);
  }

  lemma TrimKeepsContiguous(h: seq<CappRevision>, keep: nat, j: nat, n: int)
    requires Contiguous(h, n) && keep + j <= |h| && n <= keep && keep >= 1
    ensures Contiguous(Trimmed(h, keep, j), n)
  {
    var t := Trimmed(h, keep, j);
    forall k | 0 <= k < |t| && |t| - n <= k ensures t[k] == h[k + j] {
    }
    assert Last(t) == h[|t| - 1 + j];
  }

  /** Cutting revisions out from below the newest `keep` keeps all that makes a history good. */
  lemma TrimKeepsGood(h: seq<CappRevision>, cappName: string, clock: int, issued: nat, n: int, keep: nat, j: nat)
    requires Good(h, cappName, clock, issued, n) && keep + j <= |h| && n <= keep && keep >= 1
    ensures Good(Trimmed(h, keep, j), cappName, clock, issued, n)
  {
    TrimKeepsOrder(h, cappName, clock, keep, j);
    TrimKeepsNeighbours(h, keep, j);
    TrimKeepsNumbers(h, keep, j, issued);
    TrimKeepsContiguous(h, keep, j, n);
  }

  lemma NewestIsTrimmed(h: seq<CappRevision>, keep: nat)
    requires keep < |h|
    ensures Newest(h, keep) == Trimmed(h, keep, |h| - keep)
  {
  }

  lemma NewestIsPart(h: seq<CappRevision>, keep: nat)
    requires keep >= 1
    ensures |Newest(h, keep)| <= keep && forall r :: r in Newest(h, keep) ==> r in h
    ensures h != [] ==> Newest(h, keep) != [] && Last(Newest(h, keep)) == Last(h)
  {
  }

  lemma NewestKeepsGood(h: seq<CappRevision>, cappName: string, clock: int, issued: nat, n: int, keep: nat)
    requires Good(h, cappName, clock, issued, n) && n <= keep && keep >= 1
    ensures Good(Newest(h, keep), cappName, clock, issued, n)
  {
    if keep < |h| {
      NewestIsTrimmed(h, keep);
      TrimKeepsGood(h, cappName, clock, issued, n, keep, |h| - keep);
    }
  }

  lemma ClockMovesOn(h: seq<CappRevision>, cappName: string, clock: int, clock': int)
    requires Orderly(h, cappName, clock) && clock <= clock'
    ensures Orderly(h, cappName, clock')
  {
  }

  lemma AppendKeepsOrder(h: seq<CappRevision>, capp: Capp, clock: int, clock': int, issued: nat)
    requires Orderly(h, capp.id.name, clock) && Numbered(h, issued) && clock < clock'
    ensures Orderly(h + [NewRevision(capp, NextNumber(h), clock)], capp.id.name, clock')
  {
  }

  lemma AppendKeepsNumbers(h: seq<CappRevision>, next: CappRevision, issued: nat)
    requires Numbered(h, issued) && next.number == NextNumber(h)
    ensures Numbered(h + [next], NextNumber(h))
  {
  }

  lemma AppendKeepsNeighbours(h: seq<CappRevision>, next: CappRevision)
    requires StrictNumbers(h) && NeighboursDiffer(h) && next.number == NextNumber(h)
    requires h != [] ==> !SameTemplate(next.template, Last(h).template)
    ensures NeighboursDiffer(h + [next])
  {
    var r := h + [next];
    assert forall i :: 0 <= i < |h| ==>
      h[i].number <= Last(h).number && (h[i].number == Last(h).number ==> i == |h| - 1);
    assert forall i :: 0 <= i < |r| ==> r[i] == if i < |h| then h[i] else next;
  }

  lemma AppendContiguous(h: seq<CappRevision>, next: CappRevision, n: int)
    requires Contiguous(h, n) && next.number == NextNumber(h)
    ensures Contiguous(h + [next], n + 1)
  {
    var r := h + [next];
    forall k | 0 <= k < |h| && |r| - (n + 1) <= k ensures r[k].number == next.number - (|r| - 1 - k) {
      assert r[k] == h[k];
    }
  }

  /** Adding the next revision of a changed Capp to a good history. */
  lemma AppendKeepsGood(h: seq<CappRevision>, capp: Capp, clock: int, clock': int, issued: nat, n: int)
    requires Good(h, capp.id.name, clock, issued, n) && clock < clock'
    requires h == [] || !IsEqual(capp, Last(h))
    ensures Good(h + [NewRevision(capp, NextNumber(h), clock)], capp.id.name, clock', NextNumber(h), n + 1)
  {
    var next := NewRevision(capp, NextNumber(h), clock);
    AppendKeepsOrder(h, capp, clock, clock', issued);
    AppendKeepsNumbers(h, next, issued);
    AppendKeepsNeighbours(h, next);
    AppendContiguous(h, next, n);
  }

  lemma CreateKeepsGood(h: seq<CappRevision>, capp: Capp, limit: int, clock: int, clock': int, issued: nat, n: int)
    requires Good(h, capp.id.name, clock, issued, n) && clock < clock' && limit >= 2 && n <= limit - 1
    requires h == [] || !IsEqual(capp, Last(h))
    ensures var h' := Newest(h, limit - 1) + [NewRevision(capp, NextNumber(h), clock)];
      |h'| <= limit && Last(h').number == NextNumber(h) && Good(h', capp.id.name, clock', NextNumber(h), n + 1)
  {
    NewestKeepsGood(h, capp.id.name, clock, issued, n, limit - 1);
    NewestIsPart(h, limit - 1);
    AppendKeepsGood(Newest(h, limit - 1), capp, clock, clock', issued, n);
  }

  lemma GoodWithLess(h: seq<CappRevision>, cappName: string, clock: int, issued: nat, n: int, m: int)
    requires Good(h, cappName, clock, issued, n) && m <= n
    ensures Good(h, cappName, clock, issued, m)
  {
  }

  lemma TrimmedStaysGood(h: seq<CappRevision>, h': seq<CappRevision>, cappName: string, clock: int, clock': int,
                         issued: nat, n: int, keep: nat)
    requires Good(h, cappName, clock, issued, n) && clock <= clock' && n <= keep && keep >= 1
    requires CutShort(h, h', keep)
    ensures h' != [] && |h'| <= |h| && Last(h') == Last(h) && Good(h', cappName, clock', issued, n)
  {
    var j :| TrimmedTo(h, h', keep, j);
    TrimKeepsGood(h, cappName, clock, issued, n, keep, j);
    TrimKeepsLast(h, keep, j);
    ClockMovesOn(h', cappName, clock, clock');
  }

  lemma UnchangedKeepsInvariant(s: HState, s': HState)
    requires Invariant(s) && Reconciled(s, s') && s'.history == s.history
    ensures Invariant(s')
  {
    ClockMovesOn(s.history, s.capp.id.name, s.clock, s'.clock);
  }

  lemma CreateKeepsInvariant(s: HState, s': HState)
    requires Invariant(s) && Reconciled(s, s') && Creates(s.history, s'.history, s.capp, s.limit, s.clock)
    ensures Invariant(s')
  {
    CreateKeepsGood(s.history, s.capp, s.limit, s.clock, s'.clock, s.issued, s.floor - 1);
    GoodWithLess(s'.history, s.capp.id.name, s'.clock, s'.issued, s.floor, s.floor - 1);
  }

  lemma CutKeepsInvariant(s: HState, s': HState)
    requires Invariant(s) && Reconciled(s, s') && CutShort(s.history, s'.history, s.limit - 1)
    ensures Invariant(s')
  {
    TrimmedStaysGood(s.history, s'.history, s.capp.id.name, s.clock, s'.clock, s.issued, s.floor - 1, s.limit - 1);
  }

  /** The three things a pass can do to the history. */
  ghost predicate Outcome(s: HState, s': HState) {
    && s.limit >= 2 && Reconciled(s, s')
    && (|| s'.history == s.history
        || Creates(s.history, s'.history, s.capp, s.limit, s.clock)
        || CutShort(s.history, s'.history, s.limit - 1))
  }

  lemma PassOutcome(s: HState, s': HState, ok: bool)
    requires Pass(s, s', ok)
    ensures Outcome(s, s')
  {
  }

  lemma OutcomeKeepsInvariant(s: HState, s': HState)
    requires Invariant(s) && Outcome(s, s')
    ensures Invariant(s')
  {
    if s'.history == s.history {
      UnchangedKeepsInvariant(s, s');
    } else if CutShort(s.history, s'.history, s.limit - 1) {
      CutKeepsInvariant(s, s');
    } else {
      CreateKeepsInvariant(s, s');
    }
  }

  lemma PassKeepsInvariant(s: HState, s': HState, ok: bool)
    requires Invariant(s) && Pass(s, s', ok)
    ensures Invariant(s')
  {
    PassOutcome(s, s', ok);
    OutcomeKeepsInvariant(s, s');
  }

  lemma StepKeepsInvariant(s: HState, s': HState)
    requires Invariant(s) && Step(s, s')
    ensures Invariant(s')
  {
    if Pass(s, s', true) {
      PassKeepsInvariant(s, s', true);
    } else if Pass(s, s', false) {
      PassKeepsInvariant(s, s', false);
    } else if SetLimit(s, s') {
      GoodWithLess(s.history, s.capp.id.name, s.clock, s.issued, s.floor - 1, s'.floor - 1);
    }
  }

  /** In every state of every run: at most a page of revisions, numbers and creation times rise together,
      the highest number ever issued is still there, and the newest revisions, one fewer than the lowest
      limit so far, have no gap. */
  lemma {:induction false} RunKeepsInvariant(states: seq<HState>, i: nat)
    requires Run(states) && Initial(states[0]) && i < |states|
    ensures Invariant(states[i])
  {
    if i > 0 {
      RunKeepsInvariant(states, i - 1);
      assert StepAt(states, i - 1);
      StepKeepsInvariant(states[i - 1], states[i]);
    }
  }

  lemma CreateIssues(h: seq<CappRevision>, h': seq<CappRevision>, capp: Capp, limit: int, clock: int)
    requires limit >= 2 && Creates(h, h', capp, limit, clock)
    ensures h' != [] && Last(h').number == NextNumber(h)
    ensures forall r :: r in h' && r !in h ==> r.number == NextNumber(h)
    ensures h != [] ==> Last(h) in h'
  {
    var kept, next := Newest(h, limit - 1), NewRevision(capp, NextNumber(h), clock);
    NewestIsPart(h, limit - 1);
    assert Last(h') == next;
    assert forall r :: r in h' ==> r in kept || r == next;
    assert h != [] ==> Last(kept) in h';
  }

  lemma OutcomeIssues(s: HState, s': HState)
    requires Numbered(s.history, s.issued) && Outcome(s, s')
    ensures s'.issued == s.issued || s'.issued == s.issued + 1
    ensures forall r :: r in s'.history && r !in s.history ==> r.number == s'.issued == s.issued + 1
    ensures s.history != [] ==> Last(s.history) in s'.history
  {
    if s'.history == s.history {
    } else if Creates(s.history, s'.history, s.capp, s.limit, s.clock) {
      CreateIssues(s.history, s'.history, s.capp, s.limit, s.clock);
    } else {
      var j :| TrimmedTo(s.history, s'.history, s.limit - 1, j);
      TrimKeepsLast(s.history, s.limit - 1, j);
    }
  }

  /** A step that adds a revision issues the next number; no other step moves it. */
  lemma StepIssues(s: HState, s': HState)
    requires Invariant(s) && Step(s, s')
    ensures s'.issued == s.issued || s'.issued == s.issued + 1
    ensures forall r :: r in s'.history && r !in s.history ==> r.number == s'.issued == s.issued + 1
    ensures s.history != [] ==> Last(s.history) in s'.history
  {
    if Pass(s, s', true) {
      PassOutcome(s, s', true);
      OutcomeIssues(s, s');
    } else if Pass(s, s', false) {
      PassOutcome(s, s', false);
      OutcomeIssues(s, s');
    }
  }

  lemma {:induction false} IssuedRises(states: seq<HState>, i: nat, j: nat)
    requires Run(states) && Initial(states[0]) && i <= j < |states|
    ensures states[i].issued <= states[j].issued
    decreases j - i
  {
    if i < j {
      IssuedRises(states, i, j - 1);
      RunKeepsInvariant(states, j - 1);
      assert StepAt(states, j - 1);
      StepIssues(states[j - 1], states[j]);
    }
  }

  lemma IssuedHere(states: seq<HState>, i: nat, r: CappRevision)
    requires Run(states) && Initial(states[0]) && i < |states| - 1
    requires r in states[i + 1].history && r !in states[i].history
    ensures r.number == states[i + 1].issued == states[i].issued + 1
  {
    RunKeepsInvariant(states, i);
    assert StepAt(states, i);
    StepIssues(states[i], states[i + 1]);
  }

  /** No number is issued twice in a run: a revision added later has a higher number. */
  lemma NumbersNeverReissued(states: seq<HState>, i: nat, j: nat, a: CappRevision, b: CappRevision)
    requires Run(states) && Initial(states[0]) && i < j < |states| - 1
    requires a in states[i + 1].history && a !in states[i].history
    requires b in states[j + 1].history && b !in states[j].history
    ensures a.number < b.number
  {
    IssuedHere(states, i, a);
    IssuedHere(states, j, b);
    IssuedRises(states, i + 1, j);
  }

  /** The newest revision is never deleted: once a Capp has a history, each later state holds the
      revision with the highest number issued so far. */
  lemma NewestNeverDeleted(states: seq<HState>, i: nat)
    requires Run(states) && Initial(states[0]) && i < |states| - 1 && states[i].history != []
    ensures Last(states[i].history) in states[i + 1].history
    ensures states[i + 1].history != [] && Last(states[i + 1].history).number == states[i + 1].issued
  {
    RunKeepsInvariant(states, i);
    RunKeepsInvariant(states, i + 1);
    assert StepAt(states, i);
    StepIssues(states[i], states[i + 1]);
  }

  /** A creating pass closes every gap, provided the limit is the lowest so far. */
  lemma CreatingPassClosesGaps(s: HState, s': HState, ok: bool)
    requires Invariant(s) && Pass(s, s', ok) && Creates(s.history, s'.history, s.capp, s.limit, s.clock)
    requires s.limit == s.floor
    ensures |s'.history| <= s.limit && Contiguous(s'.history, |s'.history|)
  {
    CreateKeepsGood(s.history, s.capp, s.limit, s.clock, s'.clock, s.issued, s.limit - 1);
  }

  /** After a pass without error the newest revision holds the Capp: its spec, its labels and its annotations, up to
      who updated last. */
  lemma SuccessfulPassRecords(s: HState, s': HState)
    requires Invariant(s) && Pass(s, s', true)
    ensures s'.history != []
    ensures var r := Last(s'.history).template;
      && r.spec == s.capp.spec && r.labels == s.capp.labels
      && forall k :: k != Admission.LAST_UPDATED_BY ==>
           (k in r.annotations <==> k in s.capp.annotations)
           && (k in r.annotations ==> r.annotations[k] == s.capp.annotations[k])
  {
    IsEqualIff(s.capp, Last(s'.history));
  }

  /** A revision that a pass adds, failing or not, is the Capp of that moment, under the next number. */
  lemma AddedIsCapp(s: HState, s': HState, ok: bool, r: CappRevision)
    requires Invariant(s) && Pass(s, s', ok) && r in s'.history && r !in s.history
    ensures r.template == Template(s.capp.spec, s.capp.annotations, s.capp.labels) && r.created == s.clock
    ensures r.number == s.issued + 1 && r.name == s.capp.id.name + "-" + PaddedDecimal(s.issued + 1)
    ensures r == Last(s'.history)
  {
    PassOutcome(s, s', ok);
    OnlyNextAdded(s, s');
    assert s'.history != s.history;
  }

  lemma OnlyNextAdded(s: HState, s': HState)
    requires Outcome(s, s')
    ensures forall r :: r in s'.history && r !in s.history ==>
      r == Last(s'.history) == NewRevision(s.capp, NextNumber(s.history), s.clock)
  {
    if s'.history == s.history {
    } else if Creates(s.history, s'.history, s.capp, s.limit, s.clock) {
      NewestIsPart(s.history, s.limit - 1);
      assert forall r :: r in s'.history ==> r in Newest(s.history, s.limit - 1) || r == Last(s'.history);
    } else {
      CutIsPart(s.history, s'.history, s.limit - 1);
    }
  }

  lemma CutIsPart(h: seq<CappRevision>, h': seq<CappRevision>, keep: nat)
    requires CutShort(h, h', keep) && keep >= 1
    ensures forall r :: r in h' ==> r in h
  {
    var j :| TrimmedTo(h, h', keep, j);
    TrimKeepsLast(h, keep, j);
  }

  /** A reconcile in which no call met a fault adds a revision exactly when there is none, or the Capp's spec, labels
      or annotations are no longer those of the newest. */
  lemma RevisionAddedIff(s: HState, s': HState)
    requires Invariant(s) && FaultlessPass(s, s')
    ensures (exists r :: r in s'.history && r !in s.history)
       <==> s.history == [] || !Records(Last(s.history).template, s.capp)
  {
    FaultlessPassSucceeds(s, s');
    if s.history != [] {
      IsEqualIff(s.capp, Last(s.history));
    }
    if Creates(s.history, s'.history, s.capp, s.limit, s.clock) {
      assert Last(s'.history) in s'.history && Last(s'.history).created == s.clock;
    }
  }

  /** Edits that only re-stamp the Capp. */
  ghost predicate OnlyRestamped(states: seq<HState>) {
    forall i :: 0 <= i < |states| ==> SameTemplate(TemplateOf(states[i].capp), TemplateOf(states[0].capp))
  }

  /** Once recorded, a Capp that is only re-stamped adds no revision and loses none, through any number
      of reconciles, failing or not, and changes of the limit. */
  lemma {:induction false} RecordedStaysPut(states: seq<HState>, i: nat)
    requires Run(states) && Invariant(states[0]) && OnlyRestamped(states) && i < |states|
    requires states[0].history != [] && IsEqual(states[0].capp, Last(states[0].history))
    ensures states[i].history == states[0].history && IsEqual(states[i].capp, Last(states[0].history))
  {
    if i > 0 {
      RecordedStaysPut(states, i - 1);
      assert StepAt(states, i - 1);
    }
  }

  /** A reconcile in which no call met a fault, as `Syncs` describes it. */
  ghost predicate FaultlessPass(s: HState, s': HState) {
    Reconciled(s, s') && FaultlessSync(s.history, s'.history, s.capp, s.limit, s.clock)
  }

  ghost predicate FaultlessSync(h: seq<CappRevision>, h': seq<CappRevision>, capp: Capp, limit: int, clock: int) {
    exists page, err, deleted :: Syncs(h, h', page, capp, Some(limit), clock, err, deleted, true)
  }

  lemma FaultlessPassSucceeds(s: HState, s': HState)
    requires Invariant(s) && FaultlessPass(s, s')
    ensures Pass(s, s', true)
  {
    var page, err, deleted :| Syncs(s.history, s'.history, page, s.capp, Some(s.limit), s.clock, err, deleted, true);
    SyncIsHistoryStep(s.history, s'.history, page, s.capp, s.limit, s.clock, err, deleted, true);
  }

  ghost predicate CleanRun(states: seq<HState>) {
    states != [] && forall i :: 0 <= i < |states| - 1 ==> CleanStepAt(states, i)
  }

  /** A step in which no call fails. */
  ghost predicate CleanStepAt(states: seq<HState>, i: nat)
    requires i < |states| - 1
  {
    Edit(states[i], states[i + 1]) || SetLimit(states[i], states[i + 1]) || FaultlessPass(states[i], states[i + 1])
  }

  lemma ContiguousNeighbours(h: seq<CappRevision>)
    requires Contiguous(h, |h|) && NeighboursDiffer(h)
    ensures forall k :: 0 < k < |h| ==> !SameTemplate(h[k].template, h[k - 1].template)
  {
    forall k | 0 < k < |h| ensures !SameTemplate(h[k].template, h[k - 1].template) {
      assert h[k].number == h[k - 1].number + 1;
    }
  }

  lemma CreateKeepsContiguous(h: seq<CappRevision>, capp: Capp, limit: int, clock: int, clock': int, issued: nat)
    requires Good(h, capp.id.name, clock, issued, |h|) && clock < clock' && limit >= 2
    requires h == [] || !IsEqual(capp, Last(h))
    ensures var h' := Newest(h, limit - 1) + [NewRevision(capp, NextNumber(h), clock)]; Contiguous(h', |h'|)
  {
    var n := if limit - 1 < |h| then limit - 1 else |h|;
    GoodWithLess(h, capp.id.name, clock, issued, |h|, n);
    CreateKeepsGood(h, capp, limit, clock, clock', issued, n);
  }

  lemma CleanStepKeepsContiguous(s: HState, s': HState)
    requires Invariant(s) && Contiguous(s.history, |s.history|)
    requires Edit(s, s') || SetLimit(s, s') || Pass(s, s', true)
    ensures Contiguous(s'.history, |s'.history|)
  {
    if s'.history != s.history {
      assert Good(s.history, s.capp.id.name, s.clock, s.issued, |s.history|);
      CreateKeepsContiguous(s.history, s.capp, s.limit, s.clock, s'.clock, s.issued);
    }
  }

  lemma CleanStepKeeps(s: HState, s': HState)
    requires Invariant(s) && Contiguous(s.history, |s.history|)
    requires Edit(s, s') || SetLimit(s, s') || FaultlessPass(s, s')
    ensures Invariant(s') && Contiguous(s'.history, |s'.history|)
  {
    if FaultlessPass(s, s') {
      FaultlessPassSucceeds(s, s');
    }
    StepKeepsInvariant(s, s');
    CleanStepKeepsContiguous(s, s');
  }

  /** Without failing calls the history never has a gap, whatever happens to the limit, and no two
      revisions next to each other are equal. */
  lemma {:induction false} CleanRunHasNoGaps(states: seq<HState>, i: nat)
    requires CleanRun(states) && Initial(states[0]) && i < |states|
    ensures var h := states[i].history;
      Invariant(states[i]) && Contiguous(h, |h|) &&
      forall k :: 0 < k < |h| ==> !SameTemplate(h[k].template, h[k - 1].template)
  {
    if i > 0 {
      CleanRunHasNoGaps(states, i - 1);
      assert CleanStepAt(states, i - 1);
      CleanStepKeeps(states[i - 1], states[i]);
    }
    ContiguousNeighbours(states[i].history);
  }

  // ---------------------------------------------------------------- where the preconditions fail

  /** A pass can panic exactly when the limit is below two and the Capp has changed. The resource definition
      allows a limit of one. */
  lemma PassPanicsIff(before: seq<CappRevision>, page: seq<CappRevision>, capp: Capp, limit: int, clock: int,
                      clean: bool)
    requires page != []
    ensures (exists after, deleted :: Updates(before, after, page, capp, limit, clock, Some(Panic), deleted, clean))
       <==> limit <= 1 && !IsEqual(capp, page[0])
  {
    if limit <= 1 && !IsEqual(capp, page[0]) {
      var tail := SplitRevisionsAtIndex(page, limit - 1).1;
      assert Updates(before, RemoveAll(before, tail), page, capp, limit, clock, Some(Panic), |tail|, clean);
    }
  }

  lemma LimitOneUpdate(h: seq<CappRevision>, h': seq<CappRevision>, page: seq<CappRevision>, capp: Capp, limit: int,
                       clock: int, err: Option<ApiError>, deleted: nat)
    requires DistinctNames(h) && h != [] && page == Reversed(h) && !IsEqual(capp, page[0]) && limit <= 1
    requires Updates(h, h', page, capp, limit, clock, err, deleted, true)
    ensures err == Some(Panic) && h' == []
  {
    assert SplitRevisionsAtIndex(page, limit - 1).1 == page;
    if deleted < |page| {
      NothingCutOff(h, h', page, err, deleted);
    } else {
      EverythingRemoved(h);
    }
  }

  lemma NothingCutOff(h: seq<CappRevision>, h': seq<CappRevision>, page: seq<CappRevision>,
                      err: Option<ApiError>, deleted: nat)
    requires DistinctNames(h) && page == Reversed(h) && deleted < |page|
    ensures !CutOff(h, h', page, err, deleted, true)
  {
    TailPresent(h, page, 0, deleted);
    assert page[0..] == page;
  }

  /** With a limit of one, a reconcile after an edit in which no call fails does panic, having deleted the
      whole history, and the numbers start again. */
  lemma LimitOneLosesHistory(h: seq<CappRevision>, h': seq<CappRevision>, page: seq<CappRevision>, capp: Capp,
                             limit: int, clock: int, err: Option<ApiError>, deleted: nat)
    requires Orderly(h, capp.id.name, clock) && h != [] && |h| <= PAGE_LIMIT && !IsEqual(capp, Last(h)) && limit <= 1
    requires Syncs(h, h', page, capp, Some(limit), clock, err, deleted, true)
    ensures err == Some(Panic) && h' == [] && NextNumber(h') == 1
  {
    PageIsReversed(page, h);
    NamesDiffer(h, capp.id.name);
    assert page[0] == Last(h);
    LimitOneUpdate(h, h', page, capp, limit, clock, err, deleted);
  }

  lemma {:induction false} EverythingRemoved(h: seq<CappRevision>)
    requires DistinctNames(h)
    ensures RemoveAll(h, Reversed(h)) == []
  {
    DeletedIsTrimmed(h, 0, |h|);
    assert Victims(h, 0, |h|) == Reversed(h);
    assert |Trimmed(h, 0, |h|)| == 0;
  }

  /** Which revision counts as the latest is settled exactly when no other was created at its time or
      later: creation times have a resolution of one second. */
  lemma LatestSettledIff(page: seq<CappRevision>)
    requires page != [] && Ordered(page, Newer)
    ensures (forall other :: OrderedPermutation(other, page, Newer) ==> other != [] && other[0] == page[0])
       <==> (forall j :: 0 <= j < |page| && page[j] != page[0] ==> page[j].created < page[0].created)
  {
    NewerOrder();
    FirstDeterminedIff(page, Newer);
  }

  /** With a tie the latest revision can be deleted and its number issued again. */
  lemma TieDeletesLatest(capp: Capp, first: CappRevision, second: CappRevision, clock: int)
    requires first == CappRevision(RevisionName(capp.id.name, 1), clock, 1, first.template)
    requires second == CappRevision(RevisionName(capp.id.name, 2), clock, 2, second.template)
    requires !IsEqual(capp, first)
    ensures var next := NewRevision(capp, 2, clock);
      SortedPage([first, second], [first, second]) &&
      Updates([first, second], [first, next], [first, second], capp, 2, clock, None, 1, true)
  {
    var h, next := [first, second], NewRevision(capp, 2, clock);
    NamesApart(capp.id.name, 1, 2);
    assert SplitRevisionsAtIndex(h, 1).1 == [second];
    assert RemoveAll(h, [second]) == Remove(RemoveAll(h, []), second.name) == Remove(h, second.name) by {
      assert [second][..0] == [];
    }
    assert h[1..] == [second] && [second][1..] == [];
    assert Remove([second], second.name) == [];
    assert Remove(h, second.name) == [first];
    assert [first, next] == [first] + [next];
    assert [first][0] == first;
  }

  /** The page leads to a number that has been given out already. */
  ghost predicate Misleads(page: seq<CappRevision>, h: seq<CappRevision>, cappName: string) {
    page != [] && SortedPage(page, h) && NameTaken(h, RevisionName(cappName, page[0].number + 1))
  }

  /** A full page that leaves out the newest revision. */
  function StalePage(h: seq<CappRevision>): seq<CappRevision>
    requires |h| > PAGE_LIMIT
  {
    Reversed(h[|h| - 1 - PAGE_LIMIT..|h| - 1])
  }

  lemma StalePageIsSorted(h: seq<CappRevision>)
    requires StrictTimes(h) && |h| > PAGE_LIMIT
    ensures SortedPage(StalePage(h), h) && StalePage(h) != [] && StalePage(h)[0] == h[|h| - 2]
  {
    CutPage(h, |h| - 1 - PAGE_LIMIT, |h| - 1);
  }

  lemma StalePageMisleads(h: seq<CappRevision>, cappName: string)
    requires StrictTimes(h) && Named(h, cappName) && |h| > PAGE_LIMIT && Contiguous(h, |h|)
    ensures Misleads(StalePage(h), h, cappName)
  {
    StalePageIsSorted(h);
    assert h[|h| - 2].number + 1 == Last(h).number;
    assert h[|h| - 1].name == RevisionName(cappName, h[|h| - 2].number + 1);
  }

  lemma WholePageLeadsOn(h: seq<CappRevision>, page: seq<CappRevision>, capp: Capp)
    requires StrictTimes(h) && StrictNumbers(h) && Named(h, capp.id.name) && h != [] && |h| <= PAGE_LIMIT
    requires SortedPage(page, h)
    ensures !Misleads(page, h, capp.id.name)
  {
    PageIsReversed(page, h);
    assert page[0] == Last(h);
    NextNameFree(h, h, capp, 0);
  }

  /** For a history in order and without gaps: some page of it leaves out the newest revision, so that the number
      derived from it is taken and the create fails, exactly when the history is longer than a page. */
  lemma LongHistoryStuckIff(h: seq<CappRevision>, capp: Capp, clock: int)
    requires Orderly(h, capp.id.name, clock) && h != [] && Contiguous(h, |h|)
    ensures (exists page :: Misleads(page, h, capp.id.name)) <==> |h| > PAGE_LIMIT
  {
    if |h| > PAGE_LIMIT {
      StalePageMisleads(h, capp.id.name);
    } else {
      forall page | page != [] && SortedPage(page, h) ensures !Misleads(page, h, capp.id.name) {
        WholePageLeadsOn(h, page, capp);
      }
    }
  }

  /** The Capp after its n-th edit. */
  function Edited(capp: Capp, n: nat): Capp {
    capp.(annotations := capp.annotations["edit" := Decimal(n)])
  }

  /** The history after n edits, each followed by a reconcile, under a limit that is never reached. */
  function Grown(capp: Capp, n: nat): (h: seq<CappRevision>)
    ensures |h| == n
  {
    seq(n, i requires 0 <= i < n => NewRevision(Edited(capp, i), i + 1, i))
  }

  lemma EditsDiffer(capp: Capp, m: nat, n: nat)
    requires m != n
    ensures !SameTemplate(TemplateOf(Edited(capp, m)), TemplateOf(Edited(capp, n)))
  {
    DecimalRoundTrip(m);
    DecimalRoundTrip(n);
    var a, b := TemplateOf(Edited(capp, m)), TemplateOf(Edited(capp, n));
    assert |Admission.LAST_UPDATED_BY| == 27 && |"edit"| == 4;
    assert a.annotations["edit"] != b.annotations["edit"];
    SameTemplateIff(a, b);
  }

  lemma GrownAt(capp: Capp, n: nat, i: nat)
    requires i < n
    ensures Grown(capp, n)[i].number == i + 1 && Grown(capp, n)[i].created == i
    ensures Grown(capp, n)[i].name == RevisionName(capp.id.name, i + 1)
  {
  }

  lemma GrownInOrder(capp: Capp, n: nat)
    ensures Orderly(Grown(capp, n), capp.id.name, n) && Contiguous(Grown(capp, n), n)
      && NextNumber(Grown(capp, n)) == n + 1
  {
    var h := Grown(capp, n);
    forall i | 0 <= i < n
      ensures h[i].number == i + 1 && h[i].created == i && h[i].name == RevisionName(capp.id.name, h[i].number)
    {
      GrownAt(capp, n, i);
    }
  }

  lemma GrownOneMore(capp: Capp, n: nat)
    ensures Grown(capp, n + 1) == Grown(capp, n) + [NewRevision(Edited(capp, n), n + 1, n)]
  {
  }

  /** A history longer than a page is reached, by reconciles without any fault, as soon as the limit
      exceeds the page. */
  lemma LongHistoryReached(capp: Capp, limit: int, n: nat)
    requires limit > PAGE_LIMIT && n <= PAGE_LIMIT
    ensures FaultlessSync(Grown(capp, n), Grown(capp, n + 1), Edited(capp, n), limit, n)
    ensures |Grown(capp, n + 1)| == n + 1
  {
    var h, now := Grown(capp, n), Edited(capp, n);
    var page := Reversed(h);
    GrownInOrder(capp, n);
    NextNameFree(h, h, now, n);
    GrownOneMore(capp, n);
    if n > 0 {
      ReversedPermutes(h);
      ReversedOrdered(h);
      EditsDiffer(capp, n, n - 1);
      assert page[0] == Last(h) == NewRevision(Edited(capp, n - 1), n, n - 1);
    }
    assert Syncs(h, Grown(capp, n + 1), page, now, Some(limit), n, None, 0, true);
  }

  /** Any stretch of a history in order, turned round, is a page in order. */
  lemma CutPage(h: seq<CappRevision>, from: nat, to: nat)
    requires StrictTimes(h) && from <= to <= |h|
    ensures Ordered(Reversed(h[from..to]), Newer) && multiset(Reversed(h[from..to])) <= multiset(h)
  {
    var cut := h[from..to];
    ReversedPermutes(cut);
    SubsequenceMultiset(h, from, to);
    assert StrictTimes(cut);
    ReversedOrdered(cut);
  }

  lemma ReversedOrdered(h: seq<CappRevision>)
    requires StrictTimes(h)
    ensures Ordered(Reversed(h), Newer)
  {
  }

  lemma SubsequenceMultiset(h: seq<CappRevision>, from: nat, to: nat)
    requires from <= to <= |h|
    ensures multiset(h[from..to]) <= multiset(h)
  {
    assert h == h[..from] + h[from..to] + h[to..];
  }
}
