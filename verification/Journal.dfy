/** The annotation journal: events appended to a session branch, folded into the active annotations. */
module Journal {
  import opened Prelude
  import opened Annotations

  type EntryId = string

  datatype Event =
    | Recorded(annotations: seq<Annotation>)
    | Withdrawn(ids: seq<Digest>)
    | Completed(reviewRef: string, through: Option<EntryId>)

  /** A branch entry: a context reset, a well-formed journal event, or anything else. */
  datatype Body = Reset | Journaled(event: Event) | Other

  datatype Entry = Entry(id: EntryId, body: Body)

  ghost predicate UniqueIds(entries: seq<Entry>) {
    forall i, j :: 0 <= i < j < |entries| ==> entries[i].id != entries[j].id
  }

  predicate HasId(entries: seq<Entry>, id: EntryId) {
    exists e :: e in entries && e.id == id
  }

  /** The last position of an id, as a map built from all entries has it. */
  function IndexOf(entries: seq<Entry>, id: EntryId): (k: Option<nat>)
    ensures k.Some? ==> k.value < |entries| && entries[k.value].id == id
    ensures k.None? <==> !HasId(entries, id)
  {
    if |entries| == 0 then None
    else if entries[|entries| - 1].id == id then Some(|entries| - 1)
    else
      var k := IndexOf(entries[..|entries| - 1], id);
      assert entries == entries[..|entries| - 1] + [entries[|entries| - 1]];
      k
  }

  predicate IsCompletion(e: Entry) {
    e.body.Journaled? && e.body.event.Completed? && e.body.event.through.Some?
  }

  /** The cutoff a completion at `index` points back to, if it is an earlier entry. */
  function Cutoff(entries: seq<Entry>, index: nat): (cutoff: Option<nat>)
    requires index < |entries|
    ensures cutoff.Some? ==> cutoff.value < index
  {
    var e := entries[index];
    if !IsCompletion(e) then None
    else
      var through := IndexOf(entries, e.body.event.through.value);
      if through.Some? && through.value < index then through else None
  }

  function BoundaryUpTo(entries: seq<Entry>, n: nat): (boundary: int)
    requires n <= |entries|
    ensures -1 <= boundary < n
  {
    if n == 0 then -1
    else
      var before := BoundaryUpTo(entries, n - 1);
      var cutoff := Cutoff(entries, n - 1);
      if entries[n - 1].body.Reset? then n - 1
      else if cutoff.Some? && cutoff.value > before then cutoff.value
      else before
  }

  function Boundary(entries: seq<Entry>): (boundary: int)
    ensures -1 <= boundary < |entries|
  {
    BoundaryUpTo(entries, |entries|)
  }

  // ----- The fold -----

  datatype Op = Set(annotation: Annotation) | Delete(id: Digest)

  function OpId(op: Op): Digest {
    if op.Set? then op.annotation.id else op.id
  }

  function SetAll(annotations: seq<Annotation>): seq<Op> {
    if |annotations| == 0 then [] else SetAll(annotations[..|annotations| - 1]) + [Set(annotations[|annotations| - 1])]
  }

  function DeleteAll(ids: seq<Digest>): seq<Op> {
    if |ids| == 0 then [] else DeleteAll(ids[..|ids| - 1]) + [Delete(ids[|ids| - 1])]
  }

  function OpsOf(e: Entry): seq<Op> {
    if !e.body.Journaled? then []
    else match e.body.event
      case Recorded(annotations) => SetAll(annotations)
      case Withdrawn(ids) => DeleteAll(ids)
      case Completed(_, _) => []
  }

  function Ops(entries: seq<Entry>): seq<Op> {
    if |entries| == 0 then [] else Ops(entries[..|entries| - 1]) + OpsOf(entries[|entries| - 1])
  }

  predicate Holds(active: seq<Annotation>, id: Digest) {
    exists a :: a in active && a.id == id
  }

  /** Setting a key of an insertion-ordered map: a present key keeps its place. */
  function Put(active: seq<Annotation>, a: Annotation): seq<Annotation> {
    if |active| == 0 then [a]
    else if active[0].id == a.id then [a] + active[1..]
    else [active[0]] + Put(active[1..], a)
  }

  function Drop(active: seq<Annotation>, id: Digest): seq<Annotation> {
    if |active| == 0 then []
    else if active[0].id == id then active[1..]
    else [active[0]] + Drop(active[1..], id)
  }

  function Apply(active: seq<Annotation>, op: Op): seq<Annotation> {
    match op
    case Set(a) => Put(active, a)
    case Delete(id) => Drop(active, id)
  }

  function Fold(ops: seq<Op>): seq<Annotation> {
    if |ops| == 0 then [] else Apply(Fold(ops[..|ops| - 1]), ops[|ops| - 1])
  }

  function Active(entries: seq<Entry>): seq<Annotation> {
    Fold(Ops(entries[Boundary(entries) + 1..]))
  }

  // ----- The loops -----

  method BoundaryIndex(entries: seq<Entry>) returns (boundary: int)
    ensures boundary == Boundary(entries)
  {
    boundary := -1;
    for index := 0 to |entries|
      invariant boundary == BoundaryUpTo(entries, index)
    {
      hide IndexOf;
      var e := entries[index];
      if e.body.Reset? {
        boundary := index;
        continue;
      }
      if !IsCompletion(e) { continue; }
      var through := IndexOf(entries, e.body.event.through.value);
      if through.Some? && through.value < index {
        boundary := if boundary > through.value then boundary else through.value;
      }
    }
  }

  method ActiveAnnotations(entries: seq<Entry>) returns (active: seq<Annotation>)
    ensures active == Active(entries)
  {
    hide Boundary, Put, Drop;
    var boundary := BoundaryIndex(entries);
    var suffix := entries[boundary + 1..];
    active := [];
    for i := 0 to |suffix|
      invariant active == Fold(Ops(suffix[..i]))
    {
      assert suffix[..i + 1][..i] == suffix[..i];
      ghost var ops := Ops(suffix[..i]);
      var e := suffix[i];
      if e.body.Journaled? {
        match e.body.event
        case Recorded(annotations) => active := SetEach(active, annotations, ops);
        case Withdrawn(ids) => active := DeleteEach(active, ids, ops);
        case Completed(_, _) => assert ops + [] == ops;
      } else {
        assert ops + [] == ops;
      }
    }
    assert suffix[..|suffix|] == suffix;
  }

  method SetEach(before: seq<Annotation>, annotations: seq<Annotation>, ghost ops: seq<Op>) returns (active: seq<Annotation>)
    requires before == Fold(ops)
    ensures active == Fold(ops + SetAll(annotations))
  {
    active := before;
    assert ops + SetAll(annotations[..0]) == ops;
    for i := 0 to |annotations|
      invariant active == Fold(ops + SetAll(annotations[..i]))
    {
      hide Put;
      assert annotations[..i + 1][..i] == annotations[..i];
      OneMoreOp(ops, SetAll(annotations[..i]), Set(annotations[i]));
      active := Put(active, annotations[i]);
    }
    assert annotations[..|annotations|] == annotations;
  }

  method DeleteEach(before: seq<Annotation>, ids: seq<Digest>, ghost ops: seq<Op>) returns (active: seq<Annotation>)
    requires before == Fold(ops)
    ensures active == Fold(ops + DeleteAll(ids))
  {
    active := before;
    assert ops + DeleteAll(ids[..0]) == ops;
    for i := 0 to |ids|
      invariant active == Fold(ops + DeleteAll(ids[..i]))
    {
      hide Drop;
      assert ids[..i + 1][..i] == ids[..i];
      OneMoreOp(ops, DeleteAll(ids[..i]), Delete(ids[i]));
      active := Drop(active, ids[i]);
    }
    assert ids[..|ids|] == ids;
  }

  lemma OneMoreOp(ops: seq<Op>, more: seq<Op>, op: Op)
    ensures Fold(ops + (more + [op])) == Apply(Fold(ops + more), op)
  {
    hide Apply;
    var all := ops + (more + [op]);
    assert all[..|all| - 1] == ops + more;
  }

  // ----- The boundary is the latest mark, and never moves back -----

  /** A reset, or an entry some later completion points back to. */
  predicate IsMark(entries: seq<Entry>, k: nat) {
    && k < |entries|
    && (entries[k].body.Reset? || exists j :: k < j < |entries| && Cutoff(entries, j) == Some(k))
  }

  lemma {:induction false} BoundaryUpToIsLatest(entries: seq<Entry>, n: nat)
    requires n <= |entries|
    ensures var b := BoundaryUpTo(entries, n);
            && (b >= 0 ==> IsMark(entries, b))
            && (forall k :: 0 <= k < n && entries[k].body.Reset? ==> k <= b)
            && (forall j :: 0 <= j < n && Cutoff(entries, j).Some? ==> Cutoff(entries, j).value <= b)
  {
    hide IndexOf, Cutoff;
    if n > 0 { BoundaryUpToIsLatest(entries, n - 1); }
  }

  /** The boundary is the maximum of all resets and all valid cutoffs. */
  lemma BoundaryIsLatestMark(entries: seq<Entry>)
    ensures Boundary(entries) >= 0 ==> IsMark(entries, Boundary(entries))
    ensures forall k: nat :: IsMark(entries, k) ==> k <= Boundary(entries)
  {
    BoundaryUpToIsLatest(entries, |entries|);
    hide BoundaryUpTo;
  }

  /** A cutoff is any earlier entry with the id a completion names. */
  lemma CutoffIsEarlierEntry(entries: seq<Entry>, j: nat, k: nat)
    requires UniqueIds(entries) && j < |entries|
    ensures Cutoff(entries, j) == Some(k) <==>
              IsCompletion(entries[j]) && k < j && entries[k].id == entries[j].body.event.through.value
  {
    if IsCompletion(entries[j]) && k < j && entries[k].id == entries[j].body.event.through.value {
      assert entries[k] in entries;
    }
  }

  lemma IndexAppended(entries: seq<Entry>, e: Entry, id: EntryId)
    ensures id != e.id ==> IndexOf(entries + [e], id) == IndexOf(entries, id)
    ensures id == e.id ==> IndexOf(entries + [e], id) == Some(|entries|)
  {
    assert (entries + [e])[..|entries|] == entries;
  }

  lemma CutoffAppended(entries: seq<Entry>, e: Entry, j: nat)
    requires j < |entries| && !HasId(entries, e.id)
    ensures Cutoff(entries + [e], j) == Cutoff(entries, j)
  {
    hide IndexOf, HasId;
    var x := entries[j];
    assert (entries + [e])[j] == x;
    if IsCompletion(x) {
      var id := x.body.event.through.value;
      IndexAppended(entries, e, id);
      if id == e.id { assert IndexOf(entries, id).None?; }
    }
  }

  lemma {:induction false} BoundaryAppended(entries: seq<Entry>, e: Entry, n: nat)
    requires n <= |entries| && !HasId(entries, e.id)
    ensures BoundaryUpTo(entries + [e], n) == BoundaryUpTo(entries, n)
  {
    hide HasId, Cutoff;
    if n > 0 {
      BoundaryAppended(entries, e, n - 1);
      CutoffAppended(entries, e, n - 1);
      assert (entries + [e])[n - 1] == entries[n - 1];
    }
  }

  lemma BoundaryOfLast(entries: seq<Entry>)
    requires |entries| > 0
    ensures var n := |entries| - 1;
            var before, cutoff := BoundaryUpTo(entries, n), Cutoff(entries, n);
            Boundary(entries) == if entries[n].body.Reset? then n
                                 else if cutoff.Some? && cutoff.value > before then cutoff.value
                                 else before
  {
    hide Cutoff;
  }

  /** Appending an entry with a fresh id never moves the boundary back: a reset moves it onto itself, a
      completion as far as its cutoff if that is later, and anything else leaves it. */
  lemma BoundaryNeverMovesBack(entries: seq<Entry>, e: Entry)
    requires !HasId(entries, e.id)
    ensures var b, through := Boundary(entries), if IsCompletion(e) then IndexOf(entries, e.body.event.through.value) else None;
            Boundary(entries + [e]) ==
              if e.body.Reset? then |entries|
              else if through.Some? && through.value > b then through.value
              else b
  {
    var more := entries + [e];
    BoundaryAppended(entries, e, |entries|);
    CutoffOfLast(entries, e);
    assert more[|entries|] == e;
    BoundaryOfLast(more);
    hide IndexOf, HasId, Cutoff, BoundaryUpTo;
  }

  lemma CutoffOfLast(entries: seq<Entry>, e: Entry)
    requires !HasId(entries, e.id)
    ensures Cutoff(entries + [e], |entries|) == if IsCompletion(e) then IndexOf(entries, e.body.event.through.value) else None
  {
    hide IndexOf;
    assert (entries + [e])[|entries|] == e;
    if IsCompletion(e) { IndexAppended(entries, e, e.body.event.through.value); }
  }

  // ----- Active means last recorded -----

  /** The last operation on an id. */
  function LastAbout(ops: seq<Op>, id: Digest): Option<Op> {
    if |ops| == 0 then None
    else if OpId(ops[|ops| - 1]) == id then Some(ops[|ops| - 1])
    else LastAbout(ops[..|ops| - 1], id)
  }

  ghost predicate Distinct(active: seq<Annotation>) {
    forall i, j :: 0 <= i < j < |active| ==> active[i].id != active[j].id
  }

  /** Setting a key: appended when absent, otherwise replaced where it stands. */
  lemma {:induction false} PutPlaces(active: seq<Annotation>, a: Annotation)
    ensures forall k :: 0 <= k < |active| ==> k < |Put(active, a)| && (active[k].id != a.id ==> Put(active, a)[k] == active[k])
    ensures !Holds(active, a.id) ==> Put(active, a) == active + [a]
    ensures Holds(active, a.id) ==> |Put(active, a)| == |active| && a in Put(active, a)
  {
    if |active| > 0 && active[0].id != a.id {
      var rest := active[1..];
      PutPlaces(rest, a);
      assert active == [active[0]] + rest;
      assert Holds(active, a.id) <==> Holds(rest, a.id);
    } else if |active| > 0 {
      assert active[0] in active;
    }
  }

  lemma {:induction false} PutMembers(active: seq<Annotation>, a: Annotation)
    requires Distinct(active)
    ensures Distinct(Put(active, a))
    ensures forall x :: x in Put(active, a) <==> x == a || (x in active && x.id != a.id)
  {
    if |active| > 0 && active[0].id != a.id {
      PutMembers(active[1..], a);
      assert active == [active[0]] + active[1..];
    }
  }

  lemma FirstIsApart(active: seq<Annotation>)
    requires Distinct(active) && |active| > 0
    ensures Distinct(active[1..]) && forall x :: x in active[1..] ==> x.id != active[0].id
    ensures forall x :: x in active <==> x == active[0] || x in active[1..]
  {
    assert active == [active[0]] + active[1..];
  }

  lemma DistinctInFront(first: Annotation, rest: seq<Annotation>)
    requires Distinct(rest) && forall x :: x in rest ==> x.id != first.id
    ensures Distinct([first] + rest)
  {
  }

  lemma {:induction false} DropIs(active: seq<Annotation>, id: Digest)
    requires Distinct(active)
    ensures Distinct(Drop(active, id))
    ensures forall x :: x in Drop(active, id) <==> x in active && x.id != id
  {
    if |active| > 0 {
      var first, rest := active[0], active[1..];
      FirstIsApart(active);
      if first.id != id {
        DropIs(rest, id);
        assert forall x :: x in Drop(rest, id) ==> x.id != first.id;
        DistinctInFront(first, Drop(rest, id));
      }
    }
  }

  /** An annotation is active exactly when the last operation on its id recorded it. */
  lemma {:induction false} ActiveMeansLastRecorded(ops: seq<Op>)
    ensures Distinct(Fold(ops))
    ensures forall a :: a in Fold(ops) <==> LastAbout(ops, a.id) == Some(Set(a))
  {
    if |ops| > 0 {
      var init, op := ops[..|ops| - 1], ops[|ops| - 1];
      ActiveMeansLastRecorded(init);
      match op
      case Set(x) =>
        PutMembers(Fold(init), x);
      case Delete(id) =>
        DropIs(Fold(init), id);
    }
  }

  /** Where the present activity of an id began: at the first record since its last withdrawal. */
  function Since(ops: seq<Op>, id: Digest): (k: Option<nat>)
    ensures k.Some? ==> k.value < |ops|
  {
    if |ops| == 0 then None
    else
      var init, op := ops[..|ops| - 1], ops[|ops| - 1];
      if OpId(op) != id then Since(init, id)
      else if op.Delete? then None
      else if Since(init, id).Some? then Since(init, id)
      else Some(|init|)
  }

  /** `x` became active before `y` did. */
  predicate Earlier(ops: seq<Op>, x: Digest, y: Digest) {
    Since(ops, x).Some? && Since(ops, y).Some? && Since(ops, x).value < Since(ops, y).value
  }

  ghost predicate InOrder(active: seq<Annotation>, ops: seq<Op>) {
    forall i, j :: 0 <= i < j < |active| ==> Earlier(ops, active[i].id, active[j].id)
  }

  lemma {:induction false} DropPlaces(active: seq<Annotation>, id: Digest) returns (k: nat)
    requires Holds(active, id)
    ensures k < |active| && |Drop(active, id)| == |active| - 1
    ensures forall i :: 0 <= i < |active| - 1 ==> Drop(active, id)[i] == active[if i < k then i else i + 1]
  {
    if active[0].id == id {
      k := 0;
    } else {
      assert active == [active[0]] + active[1..];
      var rest := DropPlaces(active[1..], id);
      k := rest + 1;
      hide Holds;
      forall i | 0 <= i < |active| - 1
        ensures Drop(active, id)[i] == active[if i < k then i else i + 1]
      {
        if i > 0 { assert Drop(active, id)[i] == Drop(active[1..], id)[i - 1]; }
      }
    }
  }

  lemma {:induction false} DropAbsent(active: seq<Annotation>, id: Digest)
    requires !Holds(active, id)
    ensures Drop(active, id) == active
  {
    if |active| > 0 {
      assert active[0] in active;
      assert forall a :: a in active[1..] ==> a in active;
      DropAbsent(active[1..], id);
    }
  }

  /** An id has been active since some point exactly while it is active. */
  lemma {:induction false} SinceMeansActive(ops: seq<Op>, id: Digest)
    ensures Since(ops, id).Some? <==> Holds(Fold(ops), id)
  {
    SinceMeansRecorded(ops, id);
    ActiveMeansLastRecorded(ops);
    hide Since, Fold;
    LastIsAbout(ops, id);
    if LastAbout(ops, id).Some? && LastAbout(ops, id).value.Set? {
      assert LastAbout(ops, id).value.annotation in Fold(ops);
    }
  }

  lemma {:induction false} SinceMeansRecorded(ops: seq<Op>, id: Digest)
    ensures Since(ops, id).Some? <==> LastAbout(ops, id).Some? && LastAbout(ops, id).value.Set?
  {
    if |ops| > 0 { SinceMeansRecorded(ops[..|ops| - 1], id); }
  }

  lemma {:induction false} LastIsAbout(ops: seq<Op>, id: Digest)
    ensures LastAbout(ops, id).Some? ==> OpId(LastAbout(ops, id).value) == id
  {
    if |ops| > 0 { LastIsAbout(ops[..|ops| - 1], id); }
  }

  lemma SinceAfter(init: seq<Op>, op: Op, ops: seq<Op>, id: Digest)
    requires ops == init + [op]
    ensures Since(ops, id) ==
              if OpId(op) != id then Since(init, id)
              else if op.Delete? then None
              else if Since(init, id).Some? then Since(init, id)
              else Some(|init|)
  {
    assert ops[..|ops| - 1] == init;
  }

  lemma EarlierStays(init: seq<Op>, op: Op, ops: seq<Op>, x: Digest, y: Digest)
    requires ops == init + [op] && Earlier(init, x, y) && (op.Delete? ==> op.id != x && op.id != y)
    ensures Earlier(ops, x, y)
  {
    hide Since;
    SinceAfter(init, op, ops, x);
    SinceAfter(init, op, ops, y);
  }

  lemma EarlierThanNew(init: seq<Op>, a: Annotation, ops: seq<Op>, x: Digest)
    requires ops == init + [Set(a)] && Since(init, x).Some? && Since(init, a.id).None?
    ensures Earlier(ops, x, a.id)
  {
    hide Since;
    SinceAfter(init, Set(a), ops, x);
    SinceAfter(init, Set(a), ops, a.id);
  }

  lemma SameIds(active: seq<Annotation>, after: seq<Annotation>, a: Annotation)
    requires Distinct(active) && Distinct(after) && |after| == |active| && a in after && Holds(active, a.id)
    requires forall k :: 0 <= k < |active| && active[k].id != a.id ==> after[k] == active[k]
    ensures forall k :: 0 <= k < |after| ==> after[k].id == active[k].id
  {
    var i :| 0 <= i < |after| && after[i] == a;
    assert active[i].id == a.id;
  }

  lemma OrderAfterPut(init: seq<Op>, a: Annotation, ops: seq<Op>)
    requires ops == init + [Set(a)] && InOrder(Fold(init), init) && Distinct(Fold(init))
    ensures InOrder(Put(Fold(init), a), ops)
  {
    var active, after := Fold(init), Put(Fold(init), a);
    PutPlaces(active, a);
    PutMembers(active, a);
    SinceMeansActive(init, a.id);
    if Holds(active, a.id) { SameIds(active, after, a); }
    hide Put, Fold, Since, Earlier, Holds;
    forall i, j | 0 <= i < j < |after|
      ensures Earlier(ops, after[i].id, after[j].id)
    {
      if j < |active| {
        assert after[i].id == active[i].id && after[j].id == active[j].id;
        EarlierStays(init, Set(a), ops, active[i].id, active[j].id);
      } else {
        ActiveSince(init, i);
        EarlierThanNew(init, a, ops, after[i].id);
      }
    }
  }

  lemma ActiveSince(ops: seq<Op>, i: nat)
    requires i < |Fold(ops)|
    ensures Since(ops, Fold(ops)[i].id).Some?
  {
    var id := Fold(ops)[i].id;
    SinceMeansActive(ops, id);
    hide Since, Fold;
    assert Fold(ops)[i] in Fold(ops);
  }

  lemma OrderAfterDrop(init: seq<Op>, id: Digest, ops: seq<Op>)
    requires ops == init + [Delete(id)] && InOrder(Fold(init), init) && Distinct(Fold(init))
    ensures InOrder(Drop(Fold(init), id), ops)
  {
    var active, after := Fold(init), Drop(Fold(init), id);
    DropIs(active, id);
    var k := |active|;
    if Holds(active, id) { k := DropPlaces(active, id); } else { DropAbsent(active, id); }
    hide Drop, Fold, Since, Earlier, Holds;
    forall i, j | 0 <= i < j < |after|
      ensures Earlier(ops, after[i].id, after[j].id)
    {
      var p, q := if i < k then i else i + 1, if j < k then j else j + 1;
      assert after[i] == active[p] && after[j] == active[q];
      assert after[i] in after && after[j] in after;
      EarlierStays(init, Delete(id), ops, active[p].id, active[q].id);
    }
  }

  /** The active annotations stand in the order in which their present activity began: recording again
      keeps the place, withdrawing and recording again moves to the end. */
  lemma {:induction false} ActiveInOrder(ops: seq<Op>)
    ensures InOrder(Fold(ops), ops)
  {
    if |ops| > 0 {
      var init, op := ops[..|ops| - 1], ops[|ops| - 1];
      ActiveInOrder(init);
      ActiveMeansLastRecorded(init);
      hide InOrder, Put, Drop;
      match op
      case Set(a) => OrderAfterPut(init, a, ops);
      case Delete(id) => OrderAfterDrop(init, id, ops);
    }
  }
}
