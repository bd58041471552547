/**
 * One pass of the kernel over a range [nfrom, nto) of the improper list.
 * The pass is first described by its trace, the per-term results in list
 * order; the force-buffer updates, the tally calls and the warnings are then
 * functions of the trace.
 */
module ImproperPass {
  import opened Vectors
  import opened ImproperKernel
  import opened ForceBuffer

  /** What the kernel reads from the rest of the engine during one pass. */
  datatype Engine = Engine(
    x: seq<Vec3>,                     // atom positions, owned and ghost
    tag: seq<int>,                    // atom ids, printed in warnings
    nlocal: int,                      // atoms below this index are owned
    improperlist: seq<ImproperTerm>,  // the improper terms of this process
    me: int,                          // this process's rank
    ntimestep: int,                   // the current timestep
    screen: bool,                     // a screen is attached
    ext: Externals)

  /** One call of the energy/virial tally, with the arguments the kernel passes. */
  datatype TallyCall = TallyCall(
    i1: nat, i2: nat, i3: nat, i4: nat,
    nlocal: int, newtonBond: bool, eimproper: real,
    f1: Vec3, f3: Vec3, f4: Vec3,
    vb1: Vec3, vb2: Vec3, vb3: Vec3)

  /** The "Improper problem" warning and the four atom lines printed after it. */
  datatype Warning = Warning(
    me: int, tid: int, ntimestep: int,
    tag1: int, tag2: int, tag3: int, tag4: int,
    x1: Vec3, x2: Vec3, x3: Vec3, x4: Vec3)

  /** One processed term and everything the kernel computed for it. */
  datatype Processed = Processed(t: ImproperTerm, r: TermResult)

  /** A term the kernel can process against a force buffer of `nall` rows. */
  predicate TermReady(e: Engine, k: seq<real>, chi: seq<real>, t: ImproperTerm, nall: nat) {
    TermOk(e.x, t, e.ext) && IndicesIn(t, nall) && IndicesIn(t, |e.tag|)
    && t.itype < |k| && t.itype < |chi|
  }

  /**
   * Every term of [nfrom, nto) is in the list and processable; an empty
   * range (nto <= nfrom) demands nothing, as the loop then never runs.
   */
  predicate TermsOk(e: Engine, k: seq<real>, chi: seq<real>, nfrom: int, nto: int, nall: nat) {
    (nfrom < nto ==> 0 <= nfrom && nto <= |e.improperlist|)
    && forall n :: nfrom <= n < nto ==> TermReady(e, k, chi, e.improperlist[n], nall)
  }

  /** The number of iterations of the loop over [nfrom, nto). */
  function Count(nfrom: int, nto: int): nat {
    if nto <= nfrom then 0 else nto - nfrom
  }

  /** The per-term computation with the term type's coefficients k and chi. */
  function Result(e: Engine, k: seq<real>, chi: seq<real>, t: ImproperTerm, nall: nat): TermResult
    requires TermReady(e, k, chi, t, nall)
  {
    EvalTerm(e.x, t, k[t.itype], chi[t.itype], e.ext)
  }

  /** Every processed term's atoms index the buffer, the positions and the ids. */
  predicate Located(e: Engine, tr: seq<Processed>, nall: nat) {
    forall m :: 0 <= m < |tr| ==>
      IndicesIn(tr[m].t, nall) && IndicesIn(tr[m].t, |e.x|) && IndicesIn(tr[m].t, |e.tag|)
  }

  /**
   * What the kernel guarantees of each result: the forces balance and the
   * problem flag is set exactly when clamping moved the cosine by more than
   * TOLERANCE.
   */
  predicate Sound(tr: seq<Processed>) {
    forall m :: 0 <= m < |tr| ==>
      Balanced(tr[m].r.forces)
      && (tr[m].r.angle.problem <==> Abs(tr[m].r.angle.c - tr[m].r.angle.cRaw) > TOLERANCE)
  }

  /** The results of terms [nfrom, nto), in list order. */
  function Trace(e: Engine, k: seq<real>, chi: seq<real>, nall: nat, nfrom: int, nto: int): (tr: seq<Processed>)
    requires TermsOk(e, k, chi, nfrom, nto, nall)
    ensures |tr| == Count(nfrom, nto)
    ensures forall m :: 0 <= m < |tr| ==>
      tr[m] == Processed(e.improperlist[nfrom + m], Result(e, k, chi, e.improperlist[nfrom + m], nall))
  {
    seq(Count(nfrom, nto), m requires 0 <= m < Count(nfrom, nto) =>
      Processed(e.improperlist[nfrom + m], Result(e, k, chi, e.improperlist[nfrom + m], nall)))
  }

  /** Every trace is located and sound. */
  lemma TraceFacts(e: Engine, k: seq<real>, chi: seq<real>, nall: nat, nfrom: int, nto: int)
    requires TermsOk(e, k, chi, nfrom, nto, nall)
    ensures Located(e, Trace(e, k, chi, nall, nfrom, nto), nall)
    ensures Sound(Trace(e, k, chi, nall, nfrom, nto))
  {
  }

  /**
   * One more iteration of the loop over [nfrom, nto): term n is in the list
   * and processable, and it is processed after all the earlier ones.
   */
  lemma TraceStep(e: Engine, k: seq<real>, chi: seq<real>, nall: nat, nfrom: int, n: int, nto: int)
    requires TermsOk(e, k, chi, nfrom, nto, nall) && nfrom <= n < nto
    ensures 0 <= n < |e.improperlist| && TermReady(e, k, chi, e.improperlist[n], nall)
    ensures TermsOk(e, k, chi, nfrom, n, nall) && TermsOk(e, k, chi, nfrom, n + 1, nall)
    ensures Trace(e, k, chi, nall, nfrom, n + 1)
         == Trace(e, k, chi, nall, nfrom, n) + [Processed(e.improperlist[n], Result(e, k, chi, e.improperlist[n], nall))]
  {
  }

  /** A range with nto <= nfrom is processed by no iteration. */
  lemma TraceEmpty(e: Engine, k: seq<real>, chi: seq<real>, nall: nat, nfrom: int, nto: int)
    requires nto <= nfrom
    ensures TermsOk(e, k, chi, nfrom, nto, nall)
    ensures Trace(e, k, chi, nall, nfrom, nto) == []
  {
  }

  /** The trace of [nfrom, nto) is that of [nfrom, mid) followed by that of [mid, nto). */
  lemma TraceSplit(e: Engine, k: seq<real>, chi: seq<real>, nall: nat, nfrom: int, mid: int, nto: int)
    requires TermsOk(e, k, chi, nfrom, nto, nall) && nfrom <= mid <= nto
    ensures Trace(e, k, chi, nall, nfrom, nto) == Trace(e, k, chi, nall, nfrom, mid) + Trace(e, k, chi, nall, mid, nto)
  {
    var a := Trace(e, k, chi, nall, nfrom, mid);
    var b := Trace(e, k, chi, nall, mid, nto);
    var w := Trace(e, k, chi, nall, nfrom, nto);
    forall m | 0 <= m < |w|
      ensures w[m] == (a + b)[m]
    {
      if m >= |a| {
        assert (a + b)[m] == b[m - |a|];
      }
    }
  }

  /** The force applications of a trace: each term with its four forces. */
  function ItemsOf(tr: seq<Processed>): (r: seq<Applied>)
    ensures |r| == |tr|
    ensures forall m :: 0 <= m < |tr| ==> r[m] == Applied(tr[m].t, tr[m].r.forces)
  {
    seq(|tr|, m requires 0 <= m < |tr| => Applied(tr[m].t, tr[m].r.forces))
  }

  lemma ItemsOfFit(e: Engine, tr: seq<Processed>, nall: nat)
    requires Located(e, tr, nall)
    ensures Fits(ItemsOf(tr), nall)
  {
  }

  lemma ItemsOfConcat(a: seq<Processed>, b: seq<Processed>)
    ensures ItemsOf(a + b) == ItemsOf(a) + ItemsOf(b)
  {
  }

  /**
   * With newton_bond on, a pass over any range leaves the sum of all force
   * rows unchanged.
   */
  lemma PassConservesMomentum(e: Engine, k: seq<real>, chi: seq<real>, buf: seq<Vec3>, nfrom: int, nto: int)
    requires TermsOk(e, k, chi, nfrom, nto, |buf|)
    ensures Fits(ItemsOf(Trace(e, k, chi, |buf|, nfrom, nto)), |buf|)
    ensures SumRows(Accumulate(ItemsOf(Trace(e, k, chi, |buf|, nfrom, nto)), true, e.nlocal, buf)) == SumRows(buf)
  {
    var tr := Trace(e, k, chi, |buf|, nfrom, nto);
    TraceFacts(e, k, chi, |buf|, nfrom, nto);
    ItemsOfFit(e, tr, |buf|);
    var items := ItemsOf(tr);
    forall n | 0 <= n < |items|
      ensures AllApplied(items[n].t, true, e.nlocal) && Balanced(items[n].fs)
    {
      assert items[n] == Applied(tr[n].t, tr[n].r.forces);
    }
    MomentumConserved(items, true, e.nlocal, buf);
  }

  /** Thread ranges [cuts[0], cuts[1]), [cuts[1], cuts[2]), ... */
  predicate Ascending(cuts: seq<int>) {
    forall a, b :: 0 <= a <= b < |cuts| ==> cuts[a] <= cuts[b]
  }

  /** The whole range splits into the thread ranges and each is processable. */
  predicate Partition(e: Engine, k: seq<real>, chi: seq<real>, nall: nat, cuts: seq<int>) {
    |cuts| >= 1 && Ascending(cuts) && TermsOk(e, k, chi, cuts[0], cuts[|cuts| - 1], nall)
  }

  lemma PartitionRange(e: Engine, k: seq<real>, chi: seq<real>, nall: nat, cuts: seq<int>, i: int)
    requires Partition(e, k, chi, nall, cuts) && 0 <= i < |cuts| - 1
    ensures TermsOk(e, k, chi, cuts[i], cuts[i + 1], nall)
  {
    assert cuts[0] <= cuts[i] <= cuts[i + 1] <= cuts[|cuts| - 1];
  }

  /** The force applications of thread i's range [cuts[i], cuts[i+1]). */
  function Chunk(e: Engine, k: seq<real>, chi: seq<real>, nall: nat, cuts: seq<int>, i: int): seq<Applied>
    requires Partition(e, k, chi, nall, cuts) && 0 <= i < |cuts| - 1
  {
    PartitionRange(e, k, chi, nall, cuts, i);
    ItemsOf(Trace(e, k, chi, nall, cuts[i], cuts[i + 1]))
  }

  function Chunks(e: Engine, k: seq<real>, chi: seq<real>, nall: nat, cuts: seq<int>): (r: seq<seq<Applied>>)
    requires Partition(e, k, chi, nall, cuts)
    ensures |r| == |cuts| - 1 && forall i :: 0 <= i < |r| ==> r[i] == Chunk(e, k, chi, nall, cuts, i)
  {
    seq(|cuts| - 1, i requires 0 <= i < |cuts| - 1 => Chunk(e, k, chi, nall, cuts, i))
  }

  /** The thread chunks, concatenated, are the force applications of the whole range. */
  lemma {:induction false} ChunksFlatten(e: Engine, k: seq<real>, chi: seq<real>, nall: nat, cuts: seq<int>)
    requires Partition(e, k, chi, nall, cuts)
    ensures AllFit(Chunks(e, k, chi, nall, cuts), nall)
    ensures Flatten(Chunks(e, k, chi, nall, cuts)) == ItemsOf(Trace(e, k, chi, nall, cuts[0], cuts[|cuts| - 1]))
    decreases |cuts|
  {
    var r := Chunks(e, k, chi, nall, cuts);
    forall i | 0 <= i < |r|
      ensures Fits(r[i], nall)
    {
      PartitionRange(e, k, chi, nall, cuts, i);
      TraceFacts(e, k, chi, nall, cuts[i], cuts[i + 1]);
      ItemsOfFit(e, Trace(e, k, chi, nall, cuts[i], cuts[i + 1]), nall);
    }
    if |cuts| > 1 {
      var last := |cuts| - 1;
      var front := cuts[..last];
      assert Partition(e, k, chi, nall, front);
      ChunksFlatten(e, k, chi, nall, front);
      var fr := Chunks(e, k, chi, nall, front);
      assert r[..|r| - 1] == fr;
      PartitionRange(e, k, chi, nall, cuts, last - 1);
      TraceSplit(e, k, chi, nall, cuts[0], cuts[last - 1], cuts[last]);
      ItemsOfConcat(Trace(e, k, chi, nall, cuts[0], cuts[last - 1]), Trace(e, k, chi, nall, cuts[last - 1], cuts[last]));
    }
  }

  /**
   * Threads that each start from a zeroed buffer and process one contiguous
   * range, then have their buffers summed, produce for every row what a
   * single thread over the union of the ranges produces.
   */
  lemma ThreadsReduce(e: Engine, k: seq<real>, chi: seq<real>, newtonBond: bool, nall: nat, cuts: seq<int>, j: nat)
    requires Partition(e, k, chi, nall, cuts) && j < nall
    ensures AllFit(Chunks(e, k, chi, nall, cuts), nall)
    ensures Fits(ItemsOf(Trace(e, k, chi, nall, cuts[0], cuts[|cuts| - 1])), nall)
    ensures Reduced(Chunks(e, k, chi, nall, cuts), newtonBond, e.nlocal, nall, j)
         == Accumulate(ItemsOf(Trace(e, k, chi, nall, cuts[0], cuts[|cuts| - 1])), newtonBond, e.nlocal, Zeros(nall))[j]
  {
    ChunksFlatten(e, k, chi, nall, cuts);
    ReductionEquivalence(Chunks(e, k, chi, nall, cuts), newtonBond, e.nlocal, nall, j);
  }

  /** The arguments of the tally call; the energy is passed only when EFLAG, else 0.0. */
  function TallyOf(e: Engine, eflag: bool, newtonBond: bool, p: Processed): TallyCall {
    TallyCall(p.t.i1, p.t.i2, p.t.i3, p.t.i4, e.nlocal, newtonBond,
              if eflag then p.r.kernel.energy else 0.0,
              p.r.forces.f1, p.r.forces.f3, p.r.forces.f4,
              p.r.bonds.vb1, p.r.bonds.vb2, p.r.bonds.vb3)
  }

  /** The tally calls of a trace: one per term when EVFLAG, none otherwise. */
  function Tallies(e: Engine, evflag: bool, eflag: bool, newtonBond: bool, tr: seq<Processed>): (r: seq<TallyCall>)
    ensures |r| == (if evflag then |tr| else 0)
    decreases |tr|
  {
    if |tr| == 0 then []
    else
      var last := |tr| - 1;
      Tallies(e, evflag, eflag, newtonBond, tr[..last])
      + (if evflag then [TallyOf(e, eflag, newtonBond, tr[last])] else [])
  }

  /**
   * With EVFLAG the tally runs once per term, the m-th call being the one of
   * the m-th term; without EVFLAG it never runs.
   */
  lemma {:induction false} TalliesAt(e: Engine, evflag: bool, eflag: bool, newtonBond: bool, tr: seq<Processed>, m: int)
    ensures |Tallies(e, evflag, eflag, newtonBond, tr)| == (if evflag then |tr| else 0)
    ensures evflag && 0 <= m < |tr| ==> Tallies(e, evflag, eflag, newtonBond, tr)[m] == TallyOf(e, eflag, newtonBond, tr[m])
    decreases |tr|
  {
    if |tr| != 0 {
      var last := |tr| - 1;
      TalliesAt(e, evflag, eflag, newtonBond, tr[..last], m);
    }
  }

  /** Processing one more term appends its tally call when EVFLAG. */
  lemma TalliesSnoc(e: Engine, evflag: bool, eflag: bool, newtonBond: bool, tr: seq<Processed>, p: Processed)
    ensures Tallies(e, evflag, eflag, newtonBond, tr + [p])
         == Tallies(e, evflag, eflag, newtonBond, tr) + (if evflag then [TallyOf(e, eflag, newtonBond, p)] else [])
  {
    assert (tr + [p])[..|tr|] == tr;
  }

  /**
   * The tally of a term gets its atoms, the newton_bond flag and the harmonic
   * energy k (acos(c) - chi)^2 when EFLAG, 0.0 otherwise.
   */
  lemma TallyEnergy(e: Engine, k: seq<real>, chi: seq<real>, eflag: bool, newtonBond: bool, t: ImproperTerm, nall: nat)
    requires TermReady(e, k, chi, t, nall)
    ensures var r := Result(e, k, chi, t, nall);
      var c := TallyOf(e, eflag, newtonBond, Processed(t, r));
      c.i1 == t.i1 && c.i2 == t.i2 && c.i3 == t.i3 && c.i4 == t.i4
      && c.nlocal == e.nlocal && c.newtonBond == newtonBond
      && c.eimproper
         == (if eflag then HarmonicEnergy(k[t.itype], e.ext.acos(r.angle.c) - chi[t.itype]) else 0.0)
      && (k[t.itype] >= 0.0 ==> c.eimproper >= 0.0)
  {
  }

  function WarningOf(e: Engine, tid: int, t: ImproperTerm): Warning
    requires IndicesIn(t, |e.x|) && IndicesIn(t, |e.tag|)
  {
    Warning(e.me, tid, e.ntimestep,
            e.tag[t.i1], e.tag[t.i2], e.tag[t.i3], e.tag[t.i4],
            e.x[t.i1], e.x[t.i2], e.x[t.i3], e.x[t.i4])
  }

  /** The warnings of a trace: one per flagged term, when a screen is attached. */
  function Warnings(e: Engine, tid: int, nall: nat, tr: seq<Processed>): (r: seq<Warning>)
    requires Located(e, tr, nall)
    ensures |r| <= |tr|
    ensures !e.screen ==> r == []
    decreases |tr|
  {
    if |tr| == 0 then []
    else
      var last := |tr| - 1;
      Warnings(e, tid, nall, tr[..last])
      + (if e.screen && tr[last].r.angle.problem then [WarningOf(e, tid, tr[last].t)] else [])
  }

  /** Processing one more term appends its warning when it is flagged and a screen is attached. */
  lemma WarningsSnoc(e: Engine, tid: int, nall: nat, tr: seq<Processed>, p: Processed)
    requires Located(e, tr, nall)
    requires IndicesIn(p.t, nall) && IndicesIn(p.t, |e.x|) && IndicesIn(p.t, |e.tag|)
    ensures Located(e, tr + [p], nall)
    ensures Warnings(e, tid, nall, tr + [p])
         == Warnings(e, tid, nall, tr) + (if e.screen && p.r.angle.problem then [WarningOf(e, tid, p.t)] else [])
  {
    assert (tr + [p])[..|tr|] == tr;
    assert forall m :: 0 <= m < |tr| ==> (tr + [p])[m] == tr[m];
  }

  /**
   * Every warning comes from a term whose cosine clamping moved by more than
   * TOLERANCE, and only when a screen is attached.
   */
  lemma {:induction false} WarningsSound(e: Engine, tid: int, nall: nat, tr: seq<Processed>, w: Warning)
    requires Located(e, tr, nall) && Sound(tr)
    requires w in Warnings(e, tid, nall, tr)
    ensures e.screen
    ensures exists m :: 0 <= m < |tr| && Abs(tr[m].r.angle.c - tr[m].r.angle.cRaw) > TOLERANCE
                        && w == WarningOf(e, tid, tr[m].t)
    decreases |tr|
  {
    var last := |tr| - 1;
    var front := tr[..last];
    if w in Warnings(e, tid, nall, front) {
      WarningsSound(e, tid, nall, front, w);
      var m :| 0 <= m < |front| && Abs(front[m].r.angle.c - front[m].r.angle.cRaw) > TOLERANCE
               && w == WarningOf(e, tid, front[m].t);
      assert front[m] == tr[m];
    } else {
      assert w == WarningOf(e, tid, tr[last].t);
    }
  }

  /**
   * With a screen attached, every term whose cosine clamping moved by more
   * than TOLERANCE produces its warning.
   */
  lemma {:induction false} WarningsComplete(e: Engine, tid: int, nall: nat, tr: seq<Processed>, m: int)
    requires Located(e, tr, nall) && Sound(tr) && 0 <= m < |tr|
    requires e.screen && Abs(tr[m].r.angle.c - tr[m].r.angle.cRaw) > TOLERANCE
    ensures WarningOf(e, tid, tr[m].t) in Warnings(e, tid, nall, tr)
    decreases |tr|
  {
    var last := |tr| - 1;
    var front := tr[..last];
    if m < last {
      assert front[m] == tr[m];
      WarningsComplete(e, tid, nall, front, m);
    }
  }

  /**
   * The positions of the flagged terms of a trace, in list order: each
   * position holds a flagged term, the positions strictly increase, and every
   * flagged term's position is present (so it occurs exactly once).
   */
  function FlaggedAt(tr: seq<Processed>): (r: seq<nat>)
    ensures forall j :: 0 <= j < |r| ==> r[j] < |tr| && tr[r[j]].r.angle.problem
    ensures forall i, j :: 0 <= i < j < |r| ==> r[i] < r[j]
    ensures forall m :: 0 <= m < |tr| && tr[m].r.angle.problem ==> m in r
    decreases |tr|
  {
    if |tr| == 0 then []
    else
      var last := |tr| - 1;
      var front := FlaggedAt(tr[..last]);
      assert forall j :: 0 <= j < |front| ==> tr[..last][front[j]] == tr[front[j]];
      front + (if tr[last].r.angle.problem then [last] else [])
  }

  /**
   * With a screen attached there is one warning per flagged term, the j-th
   * warning being that of the j-th flagged term in list order; without a
   * screen there is none.
   */
  lemma {:induction false} WarningsAt(e: Engine, tid: int, nall: nat, tr: seq<Processed>, j: int)
    requires Located(e, tr, nall)
    ensures |Warnings(e, tid, nall, tr)| == (if e.screen then |FlaggedAt(tr)| else 0)
    ensures e.screen && 0 <= j < |FlaggedAt(tr)| ==>
      Warnings(e, tid, nall, tr)[j] == WarningOf(e, tid, tr[FlaggedAt(tr)[j]].t)
    decreases |tr|
  {
    if |tr| != 0 {
      var last := |tr| - 1;
      var front := tr[..last];
      assert Located(e, front, nall) by {
        assert forall m :: 0 <= m < |front| ==> front[m] == tr[m];
      }
      WarningsAt(e, tid, nall, front, j);
      var ff := FlaggedAt(front);
      if 0 <= j < |ff| {
        assert front[ff[j]] == tr[ff[j]];
      }
    }
  }
}
