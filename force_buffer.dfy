/**
 * A thread's private force buffer and what a sequence of gated term
 * applications does to it. Each applied term is its four atom indices and the
 * four forces the kernel computed for it; row i of a term receives its force
 * only when newton_bond is on or atom i is owned (i < nlocal).
 */
module ForceBuffer {
  import opened Vectors
  import opened ImproperKernel

  /** One processed term: its atoms and the forces computed for them. */
  datatype Applied = Applied(t: ImproperTerm, fs: Forces)

  predicate Fits(items: seq<Applied>, nall: nat) {
    forall n :: 0 <= n < |items| ==> IndicesIn(items[n].t, nall)
  }

  /** The ownership gate of each force application. */
  predicate Applies(newtonBond: bool, i: int, nlocal: int) {
    newtonBond || i < nlocal
  }

  /** Row i increased by v when the gate is open, the buffer unchanged otherwise. */
  function AddGated(buf: seq<Vec3>, i: nat, v: Vec3, gate: bool): (r: seq<Vec3>)
    requires i < |buf|
    ensures |r| == |buf|
    ensures r[i] == (if gate then Add(buf[i], v) else buf[i])
  {
    if gate then buf[i := Add(buf[i], v)] else buf
  }

  /** Only row i can change, and it gains v exactly when the gate is open. */
  lemma AddGatedAt(buf: seq<Vec3>, i: nat, v: Vec3, gate: bool, j: nat)
    requires i < |buf| && j < |buf|
    ensures AddGated(buf, i, v, gate)[j] == (if gate && j == i then Add(buf[j], v) else buf[j])
  {
  }

  /** The four gated row updates of one term, in the order i1, i2, i3, i4. */
  function ApplyForces(buf: seq<Vec3>, a: Applied, newtonBond: bool, nlocal: int): (r: seq<Vec3>)
    requires IndicesIn(a.t, |buf|)
    ensures |r| == |buf|
  {
    var b1 := AddGated(buf, a.t.i1, a.fs.f1, Applies(newtonBond, a.t.i1, nlocal));
    var b2 := AddGated(b1, a.t.i2, a.fs.f2, Applies(newtonBond, a.t.i2, nlocal));
    var b3 := AddGated(b2, a.t.i3, a.fs.f3, Applies(newtonBond, a.t.i3, nlocal));
    AddGated(b3, a.t.i4, a.fs.f4, Applies(newtonBond, a.t.i4, nlocal))
  }

  /** What force f aimed at atom i adds to row j. */
  function Part(i: nat, f: Vec3, newtonBond: bool, nlocal: int, j: nat): Vec3 {
    if Applies(newtonBond, i, nlocal) && i == j then f else Zero
  }

  /** What one term adds to row j: each of its forces whose atom is j and whose gate is open. */
  function Contribution(a: Applied, newtonBond: bool, nlocal: int, j: nat): Vec3 {
    Add(Add(Add(Part(a.t.i1, a.fs.f1, newtonBond, nlocal, j), Part(a.t.i2, a.fs.f2, newtonBond, nlocal, j)),
            Part(a.t.i3, a.fs.f3, newtonBond, nlocal, j)),
        Part(a.t.i4, a.fs.f4, newtonBond, nlocal, j))
  }

  /** Row j is one of the term's atoms and its gate is open. */
  predicate Hits(t: ImproperTerm, newtonBond: bool, nlocal: int, j: nat) {
    (t.i1 == j && Applies(newtonBond, t.i1, nlocal)) || (t.i2 == j && Applies(newtonBond, t.i2, nlocal))
    || (t.i3 == j && Applies(newtonBond, t.i3, nlocal)) || (t.i4 == j && Applies(newtonBond, t.i4, nlocal))
  }

  /**
   * Each row after one term is the old row plus the term's gated
   * contribution to it; forces on a repeated atom add up.
   */
  lemma ApplyForcesAt(buf: seq<Vec3>, a: Applied, newtonBond: bool, nlocal: int, j: nat)
    requires IndicesIn(a.t, |buf|) && j < |buf|
    ensures ApplyForces(buf, a, newtonBond, nlocal)[j] == Add(buf[j], Contribution(a, newtonBond, nlocal, j))
  {
  }

  /** A row the term does not hit gets nothing from it. */
  lemma ContributionMiss(a: Applied, newtonBond: bool, nlocal: int, j: nat)
    ensures !Hits(a.t, newtonBond, nlocal, j) ==> Contribution(a, newtonBond, nlocal, j) == Zero
  {
  }

  /** The buffer after applying the items in order. */
  function Accumulate(items: seq<Applied>, newtonBond: bool, nlocal: int, buf: seq<Vec3>): (r: seq<Vec3>)
    requires Fits(items, |buf|)
    ensures |r| == |buf|
    decreases |items|
  {
    if |items| == 0 then buf
    else
      var last := |items| - 1;
      ApplyForces(Accumulate(items[..last], newtonBond, nlocal, buf), items[last], newtonBond, nlocal)
  }

  /** Appending one item applies its forces after all the earlier ones. */
  lemma AccumulateSnoc(items: seq<Applied>, a: Applied, newtonBond: bool, nlocal: int, buf: seq<Vec3>)
    requires Fits(items, |buf|) && IndicesIn(a.t, |buf|)
    ensures Fits(items + [a], |buf|)
    ensures Accumulate(items + [a], newtonBond, nlocal, buf)
         == ApplyForces(Accumulate(items, newtonBond, nlocal, buf), a, newtonBond, nlocal)
  {
    assert (items + [a])[..|items|] == items;
  }

  /** Sum of the gated contributions of the items to row j. */
  function RowDelta(items: seq<Applied>, newtonBond: bool, nlocal: int, j: nat): Vec3
    decreases |items|
  {
    if |items| == 0 then Zero
    else
      var last := |items| - 1;
      Add(RowDelta(items[..last], newtonBond, nlocal, j), Contribution(items[last], newtonBond, nlocal, j))
  }

  /** Net effect of a pass on one row: the old row plus every gated contribution to it. */
  lemma {:induction false} AccumulateRow(items: seq<Applied>, newtonBond: bool, nlocal: int, buf: seq<Vec3>, j: nat)
    requires Fits(items, |buf|) && j < |buf|
    ensures Accumulate(items, newtonBond, nlocal, buf)[j] == Add(buf[j], RowDelta(items, newtonBond, nlocal, j))
    decreases |items|
  {
    if |items| != 0 {
      var last := |items| - 1;
      var before := Accumulate(items[..last], newtonBond, nlocal, buf);
      AccumulateRow(items[..last], newtonBond, nlocal, buf, j);
      ApplyForcesAt(before, items[last], newtonBond, nlocal, j);
      AddAssoc(buf[j], RowDelta(items[..last], newtonBond, nlocal, j), Contribution(items[last], newtonBond, nlocal, j));
    }
  }

  lemma {:induction false} RowDeltaUntouched(items: seq<Applied>, newtonBond: bool, nlocal: int, j: nat)
    requires forall n :: 0 <= n < |items| ==> !Hits(items[n].t, newtonBond, nlocal, j)
    ensures RowDelta(items, newtonBond, nlocal, j) == Zero
    decreases |items|
  {
    if |items| != 0 {
      var last := |items| - 1;
      RowDeltaUntouched(items[..last], newtonBond, nlocal, j);
      ContributionMiss(items[last], newtonBond, nlocal, j);
    }
  }

  /** Frame of a pass: a row that no item reaches through an open gate keeps its value. */
  lemma AccumulateFrame(items: seq<Applied>, newtonBond: bool, nlocal: int, buf: seq<Vec3>, j: nat)
    requires Fits(items, |buf|) && j < |buf|
    requires forall n :: 0 <= n < |items| ==> !Hits(items[n].t, newtonBond, nlocal, j)
    ensures Accumulate(items, newtonBond, nlocal, buf)[j] == buf[j]
  {
    AccumulateRow(items, newtonBond, nlocal, buf, j);
    RowDeltaUntouched(items, newtonBond, nlocal, j);
  }

  lemma FitsConcat(a: seq<Applied>, b: seq<Applied>, nall: nat)
    requires Fits(a, nall) && Fits(b, nall)
    ensures Fits(a + b, nall)
  {
    assert forall n :: |a| <= n < |a + b| ==> (a + b)[n] == b[n - |a|];
  }

  /** Applying a and then b is applying a + b. */
  lemma {:induction false} AccumulateConcat(a: seq<Applied>, b: seq<Applied>, newtonBond: bool, nlocal: int, buf: seq<Vec3>)
    requires Fits(a, |buf|) && Fits(b, |buf|)
    ensures Fits(a + b, |buf|)
    ensures Accumulate(a + b, newtonBond, nlocal, buf)
         == Accumulate(b, newtonBond, nlocal, Accumulate(a, newtonBond, nlocal, buf))
    decreases |b|
  {
    FitsConcat(a, b, |buf|);
    if |b| == 0 {
      assert a + b == a;
    } else {
      var last := |b| - 1;
      assert (a + b)[..|a| + last] == a + b[..last];
      assert Fits(b[..last], |buf|);
      AccumulateConcat(a, b[..last], newtonBond, nlocal, buf);
      assert (a + b)[|a| + last] == b[last];
    }
  }

  lemma {:induction false} RowDeltaConcat(a: seq<Applied>, b: seq<Applied>, newtonBond: bool, nlocal: int, j: nat)
    ensures RowDelta(a + b, newtonBond, nlocal, j)
         == Add(RowDelta(a, newtonBond, nlocal, j), RowDelta(b, newtonBond, nlocal, j))
    decreases |b|
  {
    if |b| == 0 {
      assert a + b == a;
    } else {
      var last := |b| - 1;
      assert (a + b)[..|a| + last] == a + b[..last];
      RowDeltaConcat(a, b[..last], newtonBond, nlocal, j);
      AddAssoc(RowDelta(a, newtonBond, nlocal, j), RowDelta(b[..last], newtonBond, nlocal, j),
               Contribution(b[last], newtonBond, nlocal, j));
    }
  }

  function Zeros(n: nat): (r: seq<Vec3>)
    ensures |r| == n && forall i :: 0 <= i < n ==> r[i] == Zero
  {
    seq(n, i => Zero)
  }

  /** The items of all threads' chunks, chunk after chunk. */
  function Flatten(chunks: seq<seq<Applied>>): seq<Applied>
    decreases |chunks|
  {
    if |chunks| == 0 then [] else Flatten(chunks[..|chunks| - 1]) + chunks[|chunks| - 1]
  }

  predicate AllFit(chunks: seq<seq<Applied>>, nall: nat) {
    forall c :: 0 <= c < |chunks| ==> Fits(chunks[c], nall)
  }

  lemma {:induction false} FlattenFits(chunks: seq<seq<Applied>>, nall: nat)
    requires AllFit(chunks, nall)
    ensures Fits(Flatten(chunks), nall)
    decreases |chunks|
  {
    if |chunks| != 0 {
      var last := |chunks| - 1;
      FlattenFits(chunks[..last], nall);
      FitsConcat(Flatten(chunks[..last]), chunks[last], nall);
    }
  }

  /**
   * Row j of the reduction: the sum over threads of the private buffer each
   * thread accumulated, starting from zero, over its own chunk.
   */
  function Reduced(chunks: seq<seq<Applied>>, newtonBond: bool, nlocal: int, nall: nat, j: nat): Vec3
    requires AllFit(chunks, nall) && j < nall
    decreases |chunks|
  {
    if |chunks| == 0 then Zero
    else
      var last := |chunks| - 1;
      Add(Reduced(chunks[..last], newtonBond, nlocal, nall, j),
          Accumulate(chunks[last], newtonBond, nlocal, Zeros(nall))[j])
  }

  /**
   * Splitting the terms into per-thread chunks and summing the private
   * buffers gives, row by row, what one buffer would accumulate over all the
   * chunks in order.
   */
  lemma {:induction false} ReductionEquivalence(chunks: seq<seq<Applied>>, newtonBond: bool, nlocal: int, nall: nat, j: nat)
    requires AllFit(chunks, nall) && j < nall
    ensures Fits(Flatten(chunks), nall)
    ensures Reduced(chunks, newtonBond, nlocal, nall, j)
         == Accumulate(Flatten(chunks), newtonBond, nlocal, Zeros(nall))[j]
    decreases |chunks|
  {
    FlattenFits(chunks, nall);
    var z := Zeros(nall);
    AccumulateRow(Flatten(chunks), newtonBond, nlocal, z, j);
    if |chunks| != 0 {
      var last := |chunks| - 1;
      var front := chunks[..last];
      FlattenFits(front, nall);
      ReductionEquivalence(front, newtonBond, nlocal, nall, j);
      AccumulateRow(Flatten(front), newtonBond, nlocal, z, j);
      AccumulateRow(chunks[last], newtonBond, nlocal, z, j);
      RowDeltaConcat(Flatten(front), chunks[last], newtonBond, nlocal, j);
    }
  }

  /** Sum over all rows of a buffer. */
  function SumRows(s: seq<Vec3>): Vec3
    decreases |s|
  {
    if |s| == 0 then Zero else Add(SumRows(s[..|s| - 1]), s[|s| - 1])
  }

  lemma {:induction false} SumRowsBump(s: seq<Vec3>, i: nat, v: Vec3)
    requires i < |s|
    ensures SumRows(s[i := Add(s[i], v)]) == Add(SumRows(s), v)
    decreases |s|
  {
    var n := |s|;
    var s' := s[i := Add(s[i], v)];
    if i == n - 1 {
      assert s'[..n - 1] == s[..n - 1];
    } else {
      assert s'[..n - 1] == s[..n - 1][i := Add(s[i], v)];
      SumRowsBump(s[..n - 1], i, v);
    }
  }

  /** Every force of the term passes its gate. */
  predicate AllApplied(t: ImproperTerm, newtonBond: bool, nlocal: int) {
    Applies(newtonBond, t.i1, nlocal) && Applies(newtonBond, t.i2, nlocal)
    && Applies(newtonBond, t.i3, nlocal) && Applies(newtonBond, t.i4, nlocal)
  }

  /** The four forces of a term sum to zero. */
  predicate Balanced(fs: Forces) {
    Add(Add(fs.f1, fs.f2), Add(fs.f3, fs.f4)) == Zero
  }

  /**
   * One term whose gates are all open and whose forces balance leaves the
   * sum of all rows unchanged.
   */
  lemma ApplyForcesMomentum(buf: seq<Vec3>, a: Applied, newtonBond: bool, nlocal: int)
    requires IndicesIn(a.t, |buf|) && AllApplied(a.t, newtonBond, nlocal) && Balanced(a.fs)
    ensures SumRows(ApplyForces(buf, a, newtonBond, nlocal)) == SumRows(buf)
  {
    var b1 := buf[a.t.i1 := Add(buf[a.t.i1], a.fs.f1)];
    var b2 := b1[a.t.i2 := Add(b1[a.t.i2], a.fs.f2)];
    var b3 := b2[a.t.i3 := Add(b2[a.t.i3], a.fs.f3)];
    SumRowsBump(buf, a.t.i1, a.fs.f1);
    SumRowsBump(b1, a.t.i2, a.fs.f2);
    SumRowsBump(b2, a.t.i3, a.fs.f3);
    SumRowsBump(b3, a.t.i4, a.fs.f4);
    assert ApplyForces(buf, a, newtonBond, nlocal) == b3[a.t.i4 := Add(b3[a.t.i4], a.fs.f4)];
    BalancedSum(SumRows(buf), a.fs);
  }

  lemma BalancedSum(s: Vec3, fs: Forces)
    requires Balanced(fs)
    ensures Add(Add(Add(Add(s, fs.f1), fs.f2), fs.f3), fs.f4) == s
  {
  }

  /**
   * When every gate is open (always so with newton_bond on) and every term's
   * forces balance, a pass leaves the sum of all force rows unchanged.
   */
  lemma {:induction false} MomentumConserved(items: seq<Applied>, newtonBond: bool, nlocal: int, buf: seq<Vec3>)
    requires Fits(items, |buf|)
    requires forall n :: 0 <= n < |items| ==> AllApplied(items[n].t, newtonBond, nlocal) && Balanced(items[n].fs)
    ensures SumRows(Accumulate(items, newtonBond, nlocal, buf)) == SumRows(buf)
    decreases |items|
  {
    if |items| != 0 {
      var last := |items| - 1;
      MomentumConserved(items[..last], newtonBond, nlocal, buf);
      ApplyForcesMomentum(Accumulate(items[..last], newtonBond, nlocal, buf), items[last], newtonBond, nlocal);
    }
  }
}
