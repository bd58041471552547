/**
 * The threaded harmonic improper style: per-thread data, the choice of the
 * kernel specialisation from the run-time flags, and the kernel loop that
 * updates a thread's force buffer in place.
 */
module ImproperHarmonicOMP {
  import opened Vectors
  import opened ImproperKernel
  import opened ForceBuffer
  import opened ImproperPass

  /** A thread's private state: its id, its force buffer and the tally calls it has made. */
  class ThrData {
    const tid: int
    const f: array<Vec3>
    var tallies: seq<TallyCall>

    constructor (tid: int, f: array<Vec3>)
      ensures this.tid == tid && this.f == f && tallies == []
    {
      this.tid := tid;
      this.f := f;
      tallies := [];
    }

    /** The energy/virial tally of one term; what it accumulates is not modelled, only the call. */
    method Tally(call: TallyCall)
      modifies this`tallies
      ensures tallies == old(tallies) + [call]
    {
      tallies := tallies + [call];
    }
  }

  /** One gated force application: row i of the buffer grows by v when the gate is open. */
  method AddGatedInPlace(f: array<Vec3>, i: nat, v: Vec3, gate: bool)
    requires i < f.Length
    modifies f
    ensures f[..] == AddGated(old(f[..]), i, v, gate)
  {
    if gate {
      f[i] := Add(f[i], v);
    }
  }

  /**
   * The four gated force updates of one term, in the order i1, i2, i3, i4,
   * followed by its tally call when EVFLAG.
   */
  method Deposit(EVFLAG: bool, NEWTON_BOND: bool, thr: ThrData, nlocal: int, t: ImproperTerm,
                 r: TermResult, eimproper: real)
    requires IndicesIn(t, thr.f.Length)
    modifies thr.f, thr`tallies
    ensures thr.f[..] == ApplyForces(old(thr.f[..]), Applied(t, r.forces), NEWTON_BOND, nlocal)
    ensures thr.tallies
         == old(thr.tallies)
            + (if EVFLAG then [TallyCall(t.i1, t.i2, t.i3, t.i4, nlocal, NEWTON_BOND, eimproper,
                                         r.forces.f1, r.forces.f3, r.forces.f4,
                                         r.bonds.vb1, r.bonds.vb2, r.bonds.vb3)] else [])
  {
    AddGatedInPlace(thr.f, t.i1, r.forces.f1, NEWTON_BOND || t.i1 < nlocal);
    AddGatedInPlace(thr.f, t.i2, r.forces.f2, NEWTON_BOND || t.i2 < nlocal);
    AddGatedInPlace(thr.f, t.i3, r.forces.f3, NEWTON_BOND || t.i3 < nlocal);
    AddGatedInPlace(thr.f, t.i4, r.forces.f4, NEWTON_BOND || t.i4 < nlocal);
    if EVFLAG {
      thr.Tally(TallyCall(t.i1, t.i2, t.i3, t.i4, nlocal, NEWTON_BOND, eimproper,
                          r.forces.f1, r.forces.f3, r.forces.f4,
                          r.bonds.vb1, r.bonds.vb2, r.bonds.vb3));
    }
  }

  /**
   * What one more processed term does to the specification of the pass:
   * its force applications, tally call and warning are appended.
   */
  lemma StepInvariants(e: Engine, evflag: bool, eflag: bool, newtonBond: bool, tid: int, nall: nat,
                       tr: seq<Processed>, p: Processed, eimproper: real, f0: seq<Vec3>, t0: seq<TallyCall>)
    requires |f0| == nall && Located(e, tr, nall) && Fits(ItemsOf(tr), nall)
    requires IndicesIn(p.t, nall) && IndicesIn(p.t, |e.x|) && IndicesIn(p.t, |e.tag|)
    requires eimproper == (if eflag then p.r.kernel.energy else 0.0)
    ensures Located(e, tr + [p], nall) && Fits(ItemsOf(tr + [p]), nall)
    ensures Accumulate(ItemsOf(tr + [p]), newtonBond, e.nlocal, f0)
         == ApplyForces(Accumulate(ItemsOf(tr), newtonBond, e.nlocal, f0), Applied(p.t, p.r.forces), newtonBond, e.nlocal)
    ensures t0 + Tallies(e, evflag, eflag, newtonBond, tr + [p])
         == (t0 + Tallies(e, evflag, eflag, newtonBond, tr))
            + (if evflag then [TallyCall(p.t.i1, p.t.i2, p.t.i3, p.t.i4, e.nlocal, newtonBond, eimproper,
                                         p.r.forces.f1, p.r.forces.f3, p.r.forces.f4,
                                         p.r.bonds.vb1, p.r.bonds.vb2, p.r.bonds.vb3)] else [])
    ensures Warnings(e, tid, nall, tr + [p])
         == Warnings(e, tid, nall, tr) + (if e.screen && p.r.angle.problem then [WarningOf(e, tid, p.t)] else [])
  {
    ItemsOfConcat(tr, [p]);
    assert ItemsOf([p]) == [Applied(p.t, p.r.forces)];
    AccumulateSnoc(ItemsOf(tr), Applied(p.t, p.r.forces), newtonBond, e.nlocal, f0);
    TalliesSnoc(e, evflag, eflag, newtonBond, tr, p);
    WarningsSnoc(e, tid, nall, tr, p);
    ItemsOfFit(e, tr + [p], nall);
  }

  /** The compile-time flags of one kernel instantiation. */
  datatype Specialisation = Specialisation(evflag: bool, eflag: bool, newtonBond: bool)

  /** The six-way choice of kernel instantiation made before each pass. */
  function Dispatch(evflag: int, eflag: int, newtonBond: int): (sp: Specialisation)
    ensures sp.evflag <==> evflag != 0
    ensures sp.eflag <==> evflag != 0 && eflag != 0
    ensures sp.newtonBond <==> newtonBond != 0
  {
    if evflag != 0 then
      if eflag != 0 then
        if newtonBond != 0 then Specialisation(true, true, true) else Specialisation(true, true, false)
      else
        if newtonBond != 0 then Specialisation(true, false, true) else Specialisation(true, false, false)
    else
      if newtonBond != 0 then Specialisation(false, false, true) else Specialisation(false, false, false)
  }

  /**
   * Exactly the six instantiations with EFLAG implying EVFLAG are reachable;
   * energy is never tallied without the tally being enabled.
   */
  lemma DispatchCoverage(sp: Specialisation)
    ensures (exists evflag: int, eflag: int, newtonBond: int :: Dispatch(evflag, eflag, newtonBond) == sp)
        <==> (sp.eflag ==> sp.evflag)
  {
    if sp.eflag ==> sp.evflag {
      var evflag := if sp.evflag then 1 else 0;
      var eflag := if sp.eflag then 1 else 0;
      var newtonBond := if sp.newtonBond then 1 else 0;
      assert Dispatch(evflag, eflag, newtonBond) == sp;
    }
  }

  /** The harmonic improper style; k and chi hold each improper type's coefficients. */
  class ImproperHarmonic {
    const k: seq<real>
    const chi: seq<real>
    var evflag: int

    constructor (k: seq<real>, chi: seq<real>)
      ensures this.k == k && this.chi == chi && evflag == 0
    {
      this.k := k;
      this.chi := chi;
      evflag := 0;
    }

    /**
     * The kernel over terms [nfrom, nto) of the improper list: for every
     * term, flagged or not, the four gated force updates of its trace entry
     * land in the thread's buffer in list order, the tally runs once per term
     * when EVFLAG, and a warning is produced for each flagged term when a
     * screen is attached.
     */
    method Eval(EVFLAG: bool, EFLAG: bool, NEWTON_BOND: bool, nfrom: int, nto: int, thr: ThrData, e: Engine)
      returns (warnings: seq<Warning>)
      requires TermsOk(e, k, chi, nfrom, nto, thr.f.Length)
      modifies thr.f, thr`tallies
      ensures Located(e, Trace(e, k, chi, thr.f.Length, nfrom, nto), thr.f.Length)
      ensures Fits(ItemsOf(Trace(e, k, chi, thr.f.Length, nfrom, nto)), thr.f.Length)
      ensures thr.f[..]
           == Accumulate(ItemsOf(Trace(e, k, chi, thr.f.Length, nfrom, nto)), NEWTON_BOND, e.nlocal, old(thr.f[..]))
      ensures thr.tallies
           == old(thr.tallies) + Tallies(e, EVFLAG, EFLAG, NEWTON_BOND, Trace(e, k, chi, thr.f.Length, nfrom, nto))
      ensures warnings == Warnings(e, thr.tid, thr.f.Length, Trace(e, k, chi, thr.f.Length, nfrom, nto))
    {
      var nall := thr.f.Length;
      var eimproper := 0.0;
      var n := nfrom;
      ghost var tr: seq<Processed> := [];
      warnings := [];
      while n < nto
        invariant nfrom <= n && (nfrom <= nto ==> n <= nto) && (nto < nfrom ==> n == nfrom)
        invariant TermsOk(e, k, chi, nfrom, n, nall)
        invariant tr == Trace(e, k, chi, nall, nfrom, n)
        invariant Located(e, tr, nall) && Fits(ItemsOf(tr), nall)
        invariant thr.f[..] == Accumulate(ItemsOf(tr), NEWTON_BOND, e.nlocal, old(thr.f[..]))
        invariant thr.tallies == old(thr.tallies) + Tallies(e, EVFLAG, EFLAG, NEWTON_BOND, tr)
        invariant warnings == Warnings(e, thr.tid, nall, tr)
        invariant !EFLAG ==> eimproper == 0.0
      {
        TraceStep(e, k, chi, nall, nfrom, n, nto);
        var t := e.improperlist[n];
        var r := EvalTerm(e.x, t, k[t.itype], chi[t.itype], e.ext);

        if r.angle.problem {
          if e.screen {
            warnings := warnings + [WarningOf(e, thr.tid, t)];
          }
        }

        if EFLAG {
          eimproper := r.kernel.energy;
        }

        Deposit(EVFLAG, NEWTON_BOND, thr, e.nlocal, t, r, eimproper);

        ghost var p := Processed(t, r);
        StepInvariants(e, EVFLAG, EFLAG, NEWTON_BOND, thr.tid, nall, tr, p, eimproper, old(thr.f[..]), old(thr.tallies));
        tr := tr + [p];
        n := n + 1;
      }
      if nto < nfrom {
        TraceEmpty(e, k, chi, nall, nfrom, nto);
      }
    }

    /**
     * One thread's share of a force computation: the tally flag is reset
     * unless energy or virial is wanted (then it is what the tally set-up
     * chose), and the specialisation that the flags select processes the
     * thread's range [ifrom, ito).
     */
    method Compute(eflag: int, vflag: int, setupEvflag: int, newtonBond: int,
                   ifrom: int, ito: int, thr: ThrData, e: Engine)
      returns (warnings: seq<Warning>)
      requires TermsOk(e, k, chi, ifrom, ito, thr.f.Length)
      modifies this`evflag, thr.f, thr`tallies
      ensures evflag == (if eflag != 0 || vflag != 0 then setupEvflag else 0)
      ensures Fits(ItemsOf(Trace(e, k, chi, thr.f.Length, ifrom, ito)), thr.f.Length)
      ensures thr.f[..]
           == Accumulate(ItemsOf(Trace(e, k, chi, thr.f.Length, ifrom, ito)), newtonBond != 0, e.nlocal, old(thr.f[..]))
      ensures thr.tallies
           == old(thr.tallies) + Tallies(e, evflag != 0, evflag != 0 && eflag != 0, newtonBond != 0,
                                         Trace(e, k, chi, thr.f.Length, ifrom, ito))
      ensures Located(e, Trace(e, k, chi, thr.f.Length, ifrom, ito), thr.f.Length)
      ensures warnings == Warnings(e, thr.tid, thr.f.Length, Trace(e, k, chi, thr.f.Length, ifrom, ito))
    {
      if eflag != 0 || vflag != 0 {
        evflag := setupEvflag;
      } else {
        evflag := 0;
      }
      var sp := Dispatch(evflag, eflag, newtonBond);
      warnings := Eval(sp.evflag, sp.eflag, sp.newtonBond, ifrom, ito, thr, e);
    }
  }
}
