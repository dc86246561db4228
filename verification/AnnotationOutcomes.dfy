/** What the annotation tools record and withdraw, told from the targets and ids they are given. */
module AnnotationOutcomes {
  import opened Prelude
  import opened Annotations
  import opened PatchPrinter
  import opened DiffValidation
  import opened ValidationOutcomes
  import opened AnnotationTools
  import J = Journal

  /** Places in increasing order. */
  ghost predicate Increasing(places: seq<nat>, bound: nat) {
    && (forall k :: 0 <= k < |places| ==> places[k] < bound)
    && (forall j, k :: 0 <= j < k < |places| ==> places[j] < places[k])
  }

  // ----- Recording -----

  /** The annotation at `i` is not active, and none with its id stands before it in the batch. */
  ghost predicate IsNew(active: seq<Annotation>, batch: seq<Annotation>, i: nat) {
    && i < |batch|
    && (forall a :: a in active ==> a.id != batch[i].id)
    && (forall j :: 0 <= j < i ==> batch[j].id != batch[i].id)
  }

  /** What is recorded of a batch are the new annotations, in their order. */
  lemma {:induction false} NewInOrder(active: seq<Annotation>, batch: seq<Annotation>) returns (places: seq<nat>)
    ensures Increasing(places, |batch|) && forall i: nat :: i in places <==> IsNew(active, batch, i)
    ensures |NewOnes(active, batch)| == |places|
    ensures forall k :: 0 <= k < |places| ==> NewOnes(active, batch)[k] == batch[places[k]]
  {
    places := [];
    if |batch| > 0 {
      var init, n := batch[..|batch| - 1], |batch| - 1;
      places := NewInOrder(active, init);
      LastIsNew(active, batch);
      NewOnesGrow(active, batch);
      assert forall i: nat :: i < n ==> (IsNew(active, batch, i) <==> IsNew(active, init, i));
      assert forall i: nat :: IsNew(active, batch, i) ==> i <= n;
      hide HasId, NewOnes, IsNew;
      if IsNew(active, batch, n) { places := places + [n]; }
    }
  }

  lemma NewOnesGrow(active: seq<Annotation>, batch: seq<Annotation>)
    requires |batch| > 0
    ensures var init, last := batch[..|batch| - 1], batch[|batch| - 1];
            NewOnes(active, batch) == NewOnes(active, init)
                                      + (if HasId(active, last.id) || HasId(NewOnes(active, init), last.id) then [] else [last])
  {
    hide HasId;
  }

  lemma LastIsNew(active: seq<Annotation>, batch: seq<Annotation>)
    requires |batch| > 0
    ensures var init, n := batch[..|batch| - 1], |batch| - 1;
            IsNew(active, batch, n) <==> !HasId(active, batch[n].id) && !HasId(NewOnes(active, init), batch[n].id)
  {
    var init, n := batch[..|batch| - 1], |batch| - 1;
    NewOnesAreNew(active, init);
    hide NewOnes;
    if HasId(NewOnes(active, init), batch[n].id) {
      var a :| a in NewOnes(active, init) && a.id == batch[n].id;
      var j :| 0 <= j < |init| && init[j] == a;
    }
    if !HasId(active, batch[n].id) && !HasId(NewOnes(active, init), batch[n].id) {
      forall j | 0 <= j < n
        ensures batch[j].id != batch[n].id
      {
        assert init[j] in init;
      }
    }
  }

  /** An annotation carries what its target gave and what the snapshot said. */
  ghost predicate Carries(a: Annotation, s: Snapshot, v: Valid) {
    && a.repository == s.repository && a.path == v.path && a.newRange == v.newRange && a.anchor == v.anchor
    && a.summary == v.summary && a.rationale == v.rationale
    && a.id == AnnotationId(s.repository, v.path, v.newRange, v.summary, v.rationale)
  }

  lemma {:induction false} BatchCarries(s: Snapshot, valid: seq<Valid>)
    ensures |Batch(s, valid)| == |valid|
    ensures forall i :: 0 <= i < |valid| ==> Carries(Batch(s, valid)[i], s, valid[i])
  {
    if |valid| > 0 { BatchCarries(s, valid[..|valid| - 1]); }
  }

  /** The annotation for a target of a printed patch. */
  ghost predicate AnnotatedAs(changes: seq<FileDiff>, rules: PathRules, repository: string, t: Target, a: Annotation)
    requires AllNames(changes)
  {
    && rules(t.path) == Some(a.path) && a.repository == repository
    && a.newRange == t.range && a.summary == t.summary && a.rationale == t.rationale
    && a.id == AnnotationId(repository, a.path, t.range, t.summary, t.rationale)
    && AnchoredIn(changes, a.path, t.range, a.anchor)
  }

  ghost predicate AllFits(changes: seq<FileDiff>, rules: PathRules, targets: seq<Target>)
    requires AllNames(changes)
  {
    forall i :: 0 <= i < |targets| ==> Fits(changes, rules, targets[i])
  }

  /** A call on the snapshot of a printed patch has an issue, and so records nothing, exactly if a target does not fit. */
  lemma RefusedExactly(s: Snapshot, sections: seq<Section>, rules: PathRules, targets: seq<Target>)
    requires Freezes(s, sections)
    ensures AllNames(Changes(sections))
    ensures FirstIssues(s, rules, targets) + SecondIssues(Candidates(s, rules, targets)) == []
            <==> AllFits(Changes(sections), rules, targets)
  {
    var candidates := Candidates(s, rules, targets);
    NoChangeUnnamed(sections);
    hide *;
    ValidationIs(s, sections, rules, targets);
    AllFit(Changes(sections), rules, targets, Accepted(candidates), FirstIssues(s, rules, targets) + SecondIssues(candidates));
  }

  /** Each annotation is that of the target at the same place. */
  ghost predicate AnnotatesAll(changes: seq<FileDiff>, rules: PathRules, repository: string, targets: seq<Target>,
                               batch: seq<Annotation>)
    requires AllNames(changes)
  {
    |batch| == |targets| && forall i :: 0 <= i < |batch| ==> AnnotatedAs(changes, rules, repository, targets[i], batch[i])
  }

  /** A call whose targets all fit has one annotation for each; it records those that are new, in the order of their
      targets, and they are then active behind the others. */
  lemma AnnotateOutcome(s: Snapshot, sections: seq<Section>, rules: PathRules, targets: seq<Target>, branch: seq<J.Entry>,
                        id: J.EntryId) returns (batch: seq<Annotation>, places: seq<nat>)
    requires Freezes(s, sections) && AllNames(Changes(sections)) && AllFits(Changes(sections), rules, targets)
    requires !J.HasId(branch, id)
    ensures AnnotatesAll(Changes(sections), rules, s.repository, targets, batch)
    ensures Increasing(places, |batch|) && forall i: nat :: i in places <==> IsNew(J.Active(branch), batch, i)
    ensures var recorded := NewOnes(J.Active(branch), Batch(s, Accepted(Candidates(s, rules, targets))));
            && |recorded| == |places| && (forall k :: 0 <= k < |places| ==> recorded[k] == batch[places[k]])
            && J.Active(branch + [RecordEntry(id, recorded)]) == J.Active(branch) + recorded
  {
    var changes, valid := Changes(sections), Accepted(Candidates(s, rules, targets));
    batch := Batch(s, valid);
    hide *;
    BatchAnnotates(s, sections, rules, targets);
    places := NewInOrder(J.Active(branch), batch);
    AnnotateAddsNew(branch, id, batch);
  }

  lemma BatchAnnotates(s: Snapshot, sections: seq<Section>, rules: PathRules, targets: seq<Target>)
    requires Freezes(s, sections) && AllNames(Changes(sections)) && AllFits(Changes(sections), rules, targets)
    ensures AnnotatesAll(Changes(sections), rules, s.repository, targets, Batch(s, Accepted(Candidates(s, rules, targets))))
  {
    var changes, valid := Changes(sections), Accepted(Candidates(s, rules, targets));
    var batch := Batch(s, valid);
    hide Fits, AnnotatedAs, AcceptedAs, Carries, Freezes, AllNames, AllFits, Candidates, Accepted, Batch, FirstIssues, SecondIssues, Changes,
         AcceptedInOrder, RefusedInOrder;
    BatchCarries(s, valid);
    ValidationIs(s, sections, rules, targets);
    AllFit(changes, rules, targets, valid, FirstIssues(s, rules, targets) + SecondIssues(Candidates(s, rules, targets)));
    forall i | 0 <= i < |batch|
      ensures AnnotatedAs(changes, rules, s.repository, targets[i], batch[i])
    {
      CarriedFrom(changes, rules, s, targets[i], valid[i], batch[i]);
    }
  }

  lemma CarriedFrom(changes: seq<FileDiff>, rules: PathRules, s: Snapshot, t: Target, v: Valid, a: Annotation)
    requires AllNames(changes) && AcceptedAs(changes, rules, t, v) && Carries(a, s, v)
    ensures AnnotatedAs(changes, rules, s.repository, t, a)
  {
    hide AnchoredIn, GoodNames;
  }

  lemma AllFit(changes: seq<FileDiff>, rules: PathRules, targets: seq<Target>, valid: seq<Valid>, issues: seq<Issue>)
    requires AllNames(changes)
    requires AcceptedInOrder(changes, rules, targets, valid) && RefusedInOrder(changes, rules, targets, issues)
    ensures issues == [] <==> AllFits(changes, rules, targets)
    ensures issues == [] ==> |valid| == |targets|
                             && forall i :: 0 <= i < |targets| ==> AcceptedAs(changes, rules, targets[i], valid[i])
  {
    hide Fits, AcceptedAs, RefusedAs, GoodNames;
    var test := t => Fits(changes, rules, t);
    var places, rest := Positions(targets, test, true), Positions(targets, test, false);
    if forall i :: 0 <= i < |targets| ==> Fits(changes, rules, targets[i]) {
      EveryPlace(targets, test);
    } else {
      var i: nat :| i < |targets| && !Fits(changes, rules, targets[i]);
      assert i in rest;
    }
  }

  lemma {:induction false} EveryPlace<T>(items: seq<T>, test: T -> bool)
    requires forall i :: 0 <= i < |items| ==> test(items[i])
    ensures |Positions(items, test, true)| == |items| && Positions(items, test, false) == []
    ensures forall i :: 0 <= i < |items| ==> Positions(items, test, true)[i] == i
  {
    if |items| > 0 { EveryPlace(items[..|items| - 1], test); }
  }

  // ----- Withdrawing -----

  /** The ids asked for are each withdrawn once, and the call is refused exactly if one of them is not active: with
      those that are not. */
  lemma {:induction false} RequestedOnce(ids: seq<Digest>)
    ensures forall id :: id in Requested(ids) <==> id in ids
    ensures forall i, j :: 0 <= i < j < |Requested(ids)| ==> Requested(ids)[i] != Requested(ids)[j]
  {
    if |ids| > 0 {
      RequestedOnce(ids[..|ids| - 1]);
      assert ids == ids[..|ids| - 1] + [ids[|ids| - 1]];
    }
  }

  lemma {:induction false} UnknownExactly(active: seq<Annotation>, ids: seq<Digest>, id: Digest)
    ensures id in Unknown(active, ids) <==> id in ids && forall a :: a in active ==> a.id != id
  {
    if |ids| > 0 {
      UnknownExactly(active, ids[..|ids| - 1], id);
      assert ids == ids[..|ids| - 1] + [ids[|ids| - 1]];
    }
  }

  lemma {:induction false} WithoutHas(active: seq<Annotation>, ids: seq<Digest>, a: Annotation)
    ensures a in Without(active, ids) <==> a in active && a.id !in ids
  {
    if |active| > 0 { WithoutHas(active[1..], ids, a); }
  }

  /** A call that withdraws is refused with exactly the ids that are not active; without such ids, exactly the named
      annotations are no longer active afterwards. */
  lemma RemoveOutcome(branch: seq<J.Entry>, id: J.EntryId, ids: seq<Digest>, a: Annotation)
    requires !J.HasId(branch, id)
    ensures var active, requested := J.Active(branch), Requested(ids);
            && (Unknown(active, requested) == [] <==> forall x :: x in ids ==> exists b :: b in active && b.id == x)
            && (forall x :: x in Unknown(active, requested) <==> x in ids && forall b :: b in active ==> b.id != x)
            && (a in J.Active(branch + [WithdrawEntry(id, requested)]) <==> a in active && a.id !in ids)
  {
    var active, requested := J.Active(branch), Requested(ids);
    RequestedOnce(ids);
    RemoveWithdrawsExactly(branch, id, requested);
    WithoutHas(active, requested, a);
    hide *;
    forall x
      ensures x in Unknown(active, requested) <==> x in ids && forall b :: b in active ==> b.id != x
    {
      UnknownExactly(active, requested, x);
    }
    if Unknown(active, requested) != [] {
      var x := Unknown(active, requested)[0];
      assert x in ids && forall b :: b in active ==> b.id != x;
    }
  }
}
