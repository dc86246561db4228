/** The tools that record and withdraw annotations through the journal. */
module AnnotationTools {
  import opened Prelude
  import opened Annotations
  import opened DiffValidation
  import J = Journal

  predicate HasId(annotations: seq<Annotation>, id: Digest) {
    exists a :: a in annotations && a.id == id
  }

  /** What is recorded of a batch: neither active already nor a repetition within the batch. */
  function NewOnes(active: seq<Annotation>, batch: seq<Annotation>): seq<Annotation> {
    if |batch| == 0 then []
    else
      var earlier, last := NewOnes(active, batch[..|batch| - 1]), batch[|batch| - 1];
      if HasId(active, last.id) || HasId(earlier, last.id) then earlier else earlier + [last]
  }

  function Batch(s: Snapshot, valid: seq<Valid>): seq<Annotation> {
    if |valid| == 0 then [] else Batch(s, valid[..|valid| - 1]) + [Recorded(s, valid[|valid| - 1])]
  }

  function Requested(ids: seq<Digest>): seq<Digest> {
    if |ids| == 0 then []
    else
      var earlier, last := Requested(ids[..|ids| - 1]), ids[|ids| - 1];
      if last in earlier then earlier else earlier + [last]
  }

  function Unknown(active: seq<Annotation>, ids: seq<Digest>): seq<Digest> {
    if |ids| == 0 then []
    else
      var earlier, last := Unknown(active, ids[..|ids| - 1]), ids[|ids| - 1];
      if HasId(active, last) then earlier else earlier + [last]
  }

  function RecordEntry(id: J.EntryId, annotations: seq<Annotation>): J.Entry {
    J.Entry(id, J.Journaled(J.Recorded(annotations)))
  }

  function WithdrawEntry(id: J.EntryId, ids: seq<Digest>): J.Entry {
    J.Entry(id, J.Journaled(J.Withdrawn(ids)))
  }

  datatype Details = Details(recorded: seq<Annotation>, skippedDuplicates: int, active: nat)

  /** The active branch of the session the tools append to. */
  class Session {
    var branch: seq<J.Entry>

    constructor (branch: seq<J.Entry>)
      ensures this.branch == branch
    {
      this.branch := branch;
    }

    /** Append a recorded event under a fresh id; an empty batch appends nothing. */
    method RecordAnnotations(id: J.EntryId, annotations: seq<Annotation>)
      modifies this
      ensures branch == old(branch) + if annotations == [] then [] else [RecordEntry(id, annotations)]
    {
      if |annotations| > 0 { branch := branch + [RecordEntry(id, annotations)]; }
    }

    method WithdrawAnnotations(id: J.EntryId, ids: seq<Digest>)
      modifies this
      ensures branch == old(branch) + if ids == [] then [] else [WithdrawEntry(id, ids)]
    {
      if |ids| > 0 { branch := branch + [WithdrawEntry(id, ids)]; }
    }

    method AnnotateDiff(s: Snapshot, rules: PathRules, targets: seq<Target>, id: J.EntryId)
      returns (result: Result<Details, seq<Issue>>)
      modifies this
      ensures var candidates := Candidates(s, rules, targets);
              var issues := FirstIssues(s, rules, targets) + SecondIssues(candidates);
              var active := J.Active(old(branch));
              var recorded := NewOnes(active, Batch(s, Accepted(candidates)));
              if issues != [] then
                result == Err(issues) && branch == old(branch)
              else
                && branch == old(branch) + (if recorded == [] then [] else [RecordEntry(id, recorded)])
                && result == Ok(Details(recorded, |Accepted(candidates)| - |recorded|, |active| + |recorded|))
    {
      hide Accepted, Candidates, FirstIssues, SecondIssues, NewOnes, Batch;
      var valid, issues := ValidateTargets(s, rules, targets);
      if |issues| > 0 { return Err(issues); }
      var active := J.ActiveAnnotations(branch);
      var recorded := CollectNew(s, active, valid);
      RecordAnnotations(id, recorded);
      return Ok(Details(recorded, |valid| - |recorded|, |active| + |recorded|));
    }

    static method CollectNew(s: Snapshot, active: seq<Annotation>, valid: seq<Valid>) returns (recorded: seq<Annotation>)
      ensures recorded == NewOnes(active, Batch(s, valid))
    {
      hide HasId;
      recorded := [];
      for i := 0 to |valid|
        invariant recorded == NewOnes(active, Batch(s, valid[..i]))
      {
        assert valid[..i + 1] == valid[..i] + [valid[i]];
        var annotation := Recorded(s, valid[i]);
        NextOfBatch(s, active, valid[..i], valid[i]);
        if HasId(active, annotation.id) || HasId(recorded, annotation.id) { continue; }
        recorded := recorded + [annotation];
      }
      assert valid[..|valid|] == valid;
    }

    method RemoveAnnotation(ids: seq<Digest>, id: J.EntryId) returns (result: Result<seq<Digest>, seq<Digest>>)
      modifies this
      ensures var active, requested := J.Active(old(branch)), Requested(ids);
              if Unknown(active, requested) != [] then
                result == Err(Unknown(active, requested)) && branch == old(branch)
              else
                && branch == old(branch) + (if requested == [] then [] else [WithdrawEntry(id, requested)])
                && result == Ok(requested)
    {
      var requested := Requested(ids);
      var active := J.ActiveAnnotations(branch);
      var unknown := Unknown(active, requested);
      if |unknown| > 0 { return Err(unknown); }
      WithdrawAnnotations(id, requested);
      return Ok(requested);
    }
  }

  lemma NextOfBatch(s: Snapshot, active: seq<Annotation>, valid: seq<Valid>, v: Valid)
    ensures var earlier, a := NewOnes(active, Batch(s, valid)), Recorded(s, v);
            NewOnes(active, Batch(s, valid + [v])) ==
              if HasId(active, a.id) || HasId(earlier, a.id) then earlier else earlier + [a]
  {
    hide HasId, Recorded;
    assert (valid + [v])[..|valid|] == valid;
    var batch := Batch(s, valid + [v]);
    assert batch[..|batch| - 1] == Batch(s, valid);
  }

  // ----- What a call makes of the active annotations -----

  lemma {:induction false} OpsAppended(entries: seq<J.Entry>, e: J.Entry)
    ensures J.Ops(entries + [e]) == J.Ops(entries) + J.OpsOf(e)
  {
    assert (entries + [e])[..|entries|] == entries;
  }

  /** An event that is neither a reset nor a completion is folded on top of what is active. */
  lemma EventFolds(branch: seq<J.Entry>, e: J.Entry)
    requires !J.HasId(branch, e.id) && !e.body.Reset? && !J.IsCompletion(e)
    ensures J.Active(branch + [e]) == J.Fold(J.Ops(branch[J.Boundary(branch) + 1..]) + J.OpsOf(e))
  {
    J.BoundaryNeverMovesBack(branch, e);
    var b := J.Boundary(branch);
    hide J.Boundary, J.Fold, J.OpsOf, J.HasId;
    assert (branch + [e])[b + 1..] == branch[b + 1..] + [e];
    OpsAppended(branch[b + 1..], e);
  }

  ghost predicate AllNew(active: seq<Annotation>, batch: seq<Annotation>) {
    && (forall a :: a in batch ==> !HasId(active, a.id))
    && (forall i, j :: 0 <= i < j < |batch| ==> batch[i].id != batch[j].id)
  }

  lemma {:induction false} NewOnesAreNew(active: seq<Annotation>, batch: seq<Annotation>)
    ensures AllNew(active, NewOnes(active, batch))
    ensures forall a :: a in batch ==> HasId(active, a.id) || HasId(NewOnes(active, batch), a.id)
    ensures forall a :: a in NewOnes(active, batch) ==> a in batch
  {
    if |batch| > 0 {
      var init, last := batch[..|batch| - 1], batch[|batch| - 1];
      NewOnesAreNew(active, init);
      var earlier := NewOnes(active, init);
      assert batch == init + [last];
      if !HasId(active, last.id) && !HasId(earlier, last.id) {
        assert last in earlier + [last];
        forall a | a in init
          ensures HasId(active, a.id) || HasId(earlier + [last], a.id)
        {
          if HasId(earlier, a.id) {
            var x :| x in earlier && x.id == a.id;
            assert x in earlier + [last];
          }
        }
      }
    }
  }

  lemma {:induction false} FoldNew(ops: seq<J.Op>, batch: seq<Annotation>)
    requires AllNew(J.Fold(ops), batch)
    ensures J.Fold(ops + J.SetAll(batch)) == J.Fold(ops) + batch
  {
    if |batch| == 0 {
      assert ops + [] == ops;
      assert J.Fold(ops) + [] == J.Fold(ops);
    } else {
      var init, last := batch[..|batch| - 1], batch[|batch| - 1];
      hide J.Fold, J.Put;
      FoldNew(ops, init);
      J.OneMoreOp(ops, J.SetAll(init), J.Set(last));
      NewIsAppended(J.Fold(ops), batch);
    }
  }

  lemma NewIsAppended(active: seq<Annotation>, batch: seq<Annotation>)
    requires AllNew(active, batch) && |batch| > 0
    ensures J.Put(active + batch[..|batch| - 1], batch[|batch| - 1]) == active + batch
  {
    var init, last := batch[..|batch| - 1], batch[|batch| - 1];
    assert last in batch;
    assert forall a :: a in active + init ==> a in active || a in init;
    assert !J.Holds(active + init, last.id);
    J.PutPlaces(active + init, last);
    hide J.Put;
    assert (active + init) + [last] == active + batch;
  }

  /** Recording adds exactly the new annotations of the batch, in order, behind the active ones. */
  lemma AnnotateAddsNew(branch: seq<J.Entry>, id: J.EntryId, batch: seq<Annotation>)
    requires !J.HasId(branch, id)
    ensures var recorded := NewOnes(J.Active(branch), batch);
            J.Active(branch + [RecordEntry(id, recorded)]) == J.Active(branch) + recorded
  {
    var recorded := NewOnes(J.Active(branch), batch);
    NewOnesAreNew(J.Active(branch), batch);
    EventFolds(branch, RecordEntry(id, recorded));
    FoldNew(J.Ops(branch[J.Boundary(branch) + 1..]), recorded);
  }

  lemma {:induction false} NothingNew(active: seq<Annotation>, batch: seq<Annotation>)
    requires forall a :: a in batch ==> HasId(active, a.id)
    ensures NewOnes(active, batch) == []
  {
    hide HasId;
    if |batch| > 0 { NothingNew(active, batch[..|batch| - 1]); }
  }

  /** Recording the same batch again records nothing. */
  lemma RepeatRecordsNothing(branch: seq<J.Entry>, id: J.EntryId, batch: seq<Annotation>)
    requires !J.HasId(branch, id)
    ensures var recorded := NewOnes(J.Active(branch), batch);
            NewOnes(J.Active(branch + [RecordEntry(id, recorded)]), batch) == []
  {
    var active := J.Active(branch);
    var recorded := NewOnes(active, batch);
    AnnotateAddsNew(branch, id, batch);
    NewOnesAreNew(active, batch);
    hide J.Active, NewOnes;
    forall a | a in batch
      ensures HasId(active + recorded, a.id)
    {
      if HasId(active, a.id) {
        var x :| x in active && x.id == a.id;
        assert x in active + recorded;
      } else {
        var x :| x in recorded && x.id == a.id;
        assert x in active + recorded;
      }
    }
    NothingNew(active + recorded, batch);
  }

  function Without(active: seq<Annotation>, ids: seq<Digest>): seq<Annotation> {
    if |active| == 0 then []
    else (if active[0].id in ids then [] else [active[0]]) + Without(active[1..], ids)
  }

  lemma {:induction false} WithoutNone(active: seq<Annotation>)
    ensures Without(active, []) == active
  {
    if |active| > 0 { WithoutNone(active[1..]); }
  }

  lemma {:induction false} DropWithout(active: seq<Annotation>, ids: seq<Digest>, id: Digest)
    requires J.Distinct(active)
    ensures J.Drop(Without(active, ids), id) == Without(active, ids + [id])
  {
    if |active| > 0 {
      var first, rest := active[0], active[1..];
      DropWithout(rest, ids, id);
      if first.id in ids {
        assert [] + Without(rest, ids) == Without(rest, ids);
        assert [] + Without(rest, ids + [id]) == Without(rest, ids + [id]);
      } else if first.id == id {
        WithoutAbsent(rest, ids, id);
        assert ([first] + Without(rest, ids))[1..] == Without(rest, ids);
      } else {
        assert ([first] + Without(rest, ids))[1..] == Without(rest, ids);
      }
    }
  }

  lemma {:induction false} WithoutAbsent(active: seq<Annotation>, ids: seq<Digest>, id: Digest)
    requires forall a :: a in active ==> a.id != id
    ensures Without(active, ids + [id]) == Without(active, ids)
  {
    if |active| > 0 { WithoutAbsent(active[1..], ids, id); }
  }

  lemma {:induction false} FoldDeleted(ops: seq<J.Op>, ids: seq<Digest>)
    ensures J.Fold(ops + J.DeleteAll(ids)) == Without(J.Fold(ops), ids)
  {
    if |ids| == 0 {
      assert ops + [] == ops;
      WithoutNone(J.Fold(ops));
    } else {
      var init, last := ids[..|ids| - 1], ids[|ids| - 1];
      FoldDeleted(ops, init);
      J.OneMoreOp(ops, J.DeleteAll(init), J.Delete(last));
      J.ActiveMeansLastRecorded(ops);
      DropWithout(J.Fold(ops), init, last);
      assert init + [last] == ids;
    }
  }

  /** Withdrawing removes exactly the requested annotations and leaves the others in order. */
  lemma RemoveWithdrawsExactly(branch: seq<J.Entry>, id: J.EntryId, ids: seq<Digest>)
    requires !J.HasId(branch, id)
    ensures J.Active(branch + [WithdrawEntry(id, ids)]) == Without(J.Active(branch), ids)
  {
    EventFolds(branch, WithdrawEntry(id, ids));
    FoldDeleted(J.Ops(branch[J.Boundary(branch) + 1..]), ids);
  }
}
