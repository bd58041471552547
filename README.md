# Harmonic improper potential, threaded kernel (LAMMPS USER-OMP)

This project models the force kernel of the threaded harmonic improper style
`ImproperHarmonicOMP` of LAMMPS. An improper term couples four atoms
i1, i2, i3, i4. Its energy is K (theta - chi)^2, where theta is the improper
angle built from the three bond vectors i1-i2, i3-i2 and i4-i3, and K and chi
are the coefficients of the term's improper type.

For each term of its range [nfrom, nto) of the improper list, one thread:

- forms the minimum-imaged bond vectors and the direction cosines c0, c1, c2;
- floors the denominators 1 - c1^2 and 1 - c2^2 at SMALL and inverts them;
- forms the improper cosine c and raises the "Improper problem" warning when c
  lies outside [-1 - TOLERANCE, 1 + TOLERANCE] and a screen is attached;
- clamps c into [-1, 1] and floors the sine s at SMALL;
- computes the energy and the six projection coefficients, applying the
  rebinding `c = c*a`, `s12 = s12*a` in the source's order;
- assembles the four forces f1..f4;
- adds each force to the thread's force buffer in place, but only when
  newton_bond is on or the atom is owned (index below nlocal);
- calls the energy/virial tally when EVFLAG is set.

`compute` resets the tally flag when neither energy nor virial is requested.
It then calls one of six template instantiations `eval<EVFLAG,EFLAG,NEWTON_BOND>`.

The modules follow the structure of the code:

- `Vectors`: three-component real vectors.
- `ImproperKernel`: the per-term arithmetic (lines 99-204), as pure functions
  over `real`. `sqrt`, `acos` and `minimum_image` are function-valued fields of
  `Externals`, so no result depends on what they return.
- `ForceBuffer`: what a sequence of gated term applications does to a force
  buffer. It covers the per-row net effect, the frame, concatenation,
  conservation of the row sum, and the per-thread reduction.
- `ImproperPass`: the trace of one pass (the per-term results in list order).
  The tally calls and the warnings are functions of the trace.
- `ImproperHarmonicOMP`: the imperative part.
  - `ThrData` is the per-thread data: force buffer `f: array<Vec3>` and the
    log of tally calls.
  - `ImproperHarmonic.Eval` is the kernel loop. It updates `thr.f` in place and
    is proved against `Accumulate`, `Tallies` and `Warnings` of the trace.
  - `Dispatch` is the flag table, and `ImproperHarmonic.Compute` is one
    thread's share of `compute`.

Four details of the code that the model keeps as written:

- The sine is floored after the square root is taken: s = sqrt(1 - c^2),
  raised to SMALL when below it (lines 166-167). `ClampSin` models exactly
  this order.
- Only six of the eight flag combinations are reachable, because EFLAG is
  selected only under EVFLAG (lines 58-69). `DispatchCoverage` proves this.
- The "Improper problem" warning is emitted only when a screen is attached
  (line 146). `Warnings` emits a warning only when `e.screen` holds; the
  per-term flag `problem` records the out-of-tolerance condition itself.
- The loop `for (n = nfrom; n < nto; n++)` (line 92) runs zero times when
  nto <= nfrom. `TermsOk` then demands nothing, and the trace is empty.

## Model

| member | source | states |
|---|---|---|
| ImproperKernel.BondVectors | src/USER-OMP/improper_harmonic_omp.cpp:101-114 | the minimum-imaged differences i1-i2, i3-i2, i4-i3; no contract of its own, its property (only differences of positions matter) is `TranslationInvariant` |
| ImproperKernel.InvSinSq | src/USER-OMP/improper_harmonic_omp.cpp:130-136 | the inverted floored denominator lies in [1, 1/SMALL]; it is the exact inverse of 1 - ci^2 when that is at least SMALL, and 1/SMALL otherwise |
| ImproperKernel.ClampCos | src/USER-OMP/improper_harmonic_omp.cpp:163-164 | the clamped cosine lies in [-1, 1]; it is 1 above 1, -1 below -1, and the input itself in between |
| ImproperKernel.ClampSin | src/USER-OMP/improper_harmonic_omp.cpp:166-167 | the sine is sqrt(1 - c^2) whenever that is at least SMALL, and SMALL otherwise, whatever sqrt returns; it is never below SMALL |
| ImproperKernel.AngleOf | src/USER-OMP/improper_harmonic_omp.cpp:116-167 | for any non-degenerate bonds and any sqrt, s1 and s2 lie in [1, 1/SMALL], c in [-1, 1] and s >= SMALL; the problem flag holds exactly when clamping moved the raw cosine by more than TOLERANCE |
| ImproperKernel.ForceKernel | src/USER-OMP/improper_harmonic_omp.cpp:169-184 | the energy is K (theta - chi)^2, non-negative for K >= 0; at theta == chi the energy and all six coefficients are zero |
| ImproperKernel.HarmonicNonNegative | src/USER-OMP/improper_harmonic_omp.cpp:171-174 | a*domega with a = K*domega is K domega^2, which is non-negative when K >= 0 |
| ImproperKernel.Project | src/USER-OMP/improper_harmonic_omp.cpp:179-184 | the six coefficients from the angle quantities and a given (c, s12); no contract of its own, its linearity is `ProjectHomogeneous` |
| ImproperKernel.ProjectHomogeneous | src/USER-OMP/improper_harmonic_omp.cpp:179-184 | the coefficients are jointly linear in (c, s12): scaling both by a scales all six by a |
| ImproperKernel.Rescaled | src/USER-OMP/improper_harmonic_omp.cpp:176-184 | the coefficients after the rebinding c = c*a, s12 = s12*a; no contract of its own, its closed form is `RescaledLinear` |
| ImproperKernel.RescaledLinear | src/USER-OMP/improper_harmonic_omp.cpp:177-184 | forming the coefficients from c*a and s12*a is the same as scaling the unscaled coefficients by a |
| ImproperKernel.RescalingFactorizes | src/USER-OMP/improper_harmonic_omp.cpp:171-184 | the coefficients equal -2 K (theta - chi)/s times the geometric coefficients, independently of the rebinding order |
| ImproperKernel.AssembleForces | src/USER-OMP/improper_harmonic_omp.cpp:186-204 | for any coefficients and bonds, f1 + f2 + f3 + f4 is the zero vector |
| ImproperKernel.EvalTerm | src/USER-OMP/improper_harmonic_omp.cpp:99-204 | one term's result: valid angle bounds, the problem flag iff the clamp moved c by more than TOLERANCE, energy K (acos(c) - chi)^2 (>= 0 for K >= 0), balanced forces, zero forces at acos(c) == chi |
| ImproperKernel.TranslationInvariant | src/USER-OMP/improper_harmonic_omp.cpp:101-114 | translating every atom by the same vector leaves a term's whole result unchanged |
| ForceBuffer.AddGated | src/USER-OMP/improper_harmonic_omp.cpp:208-212 | row i of the result is the old row plus v when the gate is open and the old row otherwise; the length is kept; the frame is `AddGatedAt` |
| ForceBuffer.AddGatedAt | src/USER-OMP/improper_harmonic_omp.cpp:208-212 | every row other than i is unchanged, and row i gains v exactly when the gate is open |
| ForceBuffer.ApplyForces | src/USER-OMP/improper_harmonic_omp.cpp:208-230 | the four gated updates of a term in the order i1, i2, i3, i4; its own contract keeps the length, its row-by-row effect is `ApplyForcesAt` |
| ForceBuffer.ApplyForcesAt | src/USER-OMP/improper_harmonic_omp.cpp:208-230 | after one term's four gated updates, every row is its old value plus the sum of the term's forces aimed at it through an open gate, so repeated atoms accumulate |
| ForceBuffer.ContributionMiss | src/USER-OMP/improper_harmonic_omp.cpp:208-230 | a row that is not one of the term's atoms behind an open gate receives nothing |
| ForceBuffer.Accumulate | src/USER-OMP/improper_harmonic_omp.cpp:92-235 | the buffer after the terms are applied in list order; its own contract keeps the length, its net effect is `AccumulateRow` and `AccumulateFrame` |
| ForceBuffer.AccumulateRow | src/USER-OMP/improper_harmonic_omp.cpp:92-235 | the net effect of a pass on a row is the old row plus the sum of all gated contributions to it |
| ForceBuffer.AccumulateFrame | src/USER-OMP/improper_harmonic_omp.cpp:92-235 | a row that no term reaches through an open gate keeps its value |
| ForceBuffer.AccumulateConcat | src/USER-OMP/improper_harmonic_omp.cpp:92-235 | a pass over a + b is the pass over a followed by the pass over b |
| ForceBuffer.RowDeltaConcat | src/USER-OMP/improper_harmonic_omp.cpp:92-235 | the contributions of a + b to a row are those of a plus those of b |
| ForceBuffer.ReductionEquivalence | src/USER-OMP/improper_harmonic_omp.cpp:54-71 | summing per-thread buffers, each accumulated from zero over its own chunk, gives for every row what one buffer accumulates over all chunks in order |
| ForceBuffer.ApplyForcesMomentum | src/USER-OMP/improper_harmonic_omp.cpp:186-230 | a term with balanced forces and all gates open leaves the sum of all rows unchanged |
| ForceBuffer.MomentumConserved | src/USER-OMP/improper_harmonic_omp.cpp:92-235 | a pass whose terms all have open gates and balanced forces leaves the sum of all rows unchanged |
| ImproperPass.Trace | src/USER-OMP/improper_harmonic_omp.cpp:92-98 | one entry per iteration (none for nto <= nfrom), the m-th being term nfrom + m with its per-term result; its properties are `TraceFacts`, `TraceStep` and `TraceSplit` |
| ImproperPass.TraceFacts | src/USER-OMP/improper_harmonic_omp.cpp:92-204 | every trace entry indexes the buffer, the positions and the ids, has balanced forces, and is flagged exactly when its clamp moved c by more than TOLERANCE |
| ImproperPass.TraceStep | src/USER-OMP/improper_harmonic_omp.cpp:92-97 | in a processable range, iteration n reads a term that is in the list and processable, and the trace up to n + 1 is the trace up to n followed by term n |
| ImproperPass.TraceEmpty | src/USER-OMP/improper_harmonic_omp.cpp:92 | a range with nto <= nfrom demands nothing of the list and yields an empty trace, as the loop runs zero times |
| ImproperPass.TraceSplit | src/USER-OMP/improper_harmonic_omp.cpp:92 | the trace of a range is the trace of its first part followed by the trace of its second part |
| ImproperPass.ItemsOfConcat | src/USER-OMP/improper_harmonic_omp.cpp:206-230 | the force applications of concatenated traces are the concatenated force applications |
| ImproperPass.PassConservesMomentum | src/USER-OMP/improper_harmonic_omp.cpp:92-235 | with newton_bond on, a pass over any range leaves the sum of all force rows unchanged |
| ImproperPass.ChunksFlatten | src/USER-OMP/improper_harmonic_omp.cpp:54 | the per-thread chunks of contiguous ranges, concatenated, are the force applications of the whole range |
| ImproperPass.ThreadsReduce | src/USER-OMP/improper_harmonic_omp.cpp:54-71 | for any split of the range into contiguous per-thread ranges, the reduced private buffers equal, row by row, one buffer accumulated over the whole range |
| ImproperPass.Tallies | src/USER-OMP/improper_harmonic_omp.cpp:232-234 | the tally calls of a trace: as many as terms when EVFLAG, none otherwise; the m-th call is `TalliesAt` |
| ImproperPass.TalliesAt | src/USER-OMP/improper_harmonic_omp.cpp:232-234 | with EVFLAG the tally runs exactly once per term and the m-th call belongs to the m-th term; without EVFLAG it never runs |
| ImproperPass.TallyEnergy | src/USER-OMP/improper_harmonic_omp.cpp:171-174 | the tally gets the term's atoms, nlocal, newton_bond, and energy K (acos(c) - chi)^2 when EFLAG and 0.0 otherwise, non-negative for K >= 0 |
| ImproperPass.Warnings | src/USER-OMP/improper_harmonic_omp.cpp:143-161 | the warnings of a trace: none without a screen, never more than terms; which ones and in what order is `WarningsAt` |
| ImproperPass.FlaggedAt | src/USER-OMP/improper_harmonic_omp.cpp:143 | the positions of the flagged terms in list order: strictly increasing, each flagged, and containing every flagged position |
| ImproperPass.WarningsSound | src/USER-OMP/improper_harmonic_omp.cpp:143-161 | every warning belongs to some processed term whose cosine was moved by more than TOLERANCE, and appears only with a screen |
| ImproperPass.WarningsComplete | src/USER-OMP/improper_harmonic_omp.cpp:143-161 | with a screen, every processed term whose cosine was moved by more than TOLERANCE has its warning emitted |
| ImproperPass.WarningsAt | src/USER-OMP/improper_harmonic_omp.cpp:143-161 | with a screen there is exactly one warning per flagged term, the j-th being that of the j-th flagged term in list order; without a screen there is none |
| ImproperHarmonicOMP.ThrData.Tally | src/USER-OMP/improper_harmonic_omp.cpp:232-234 | a tally call is appended to the thread's log and nothing else changes |
| ImproperHarmonicOMP.AddGatedInPlace | src/USER-OMP/improper_harmonic_omp.cpp:208-212 | row i of the buffer grows by the force when the gate is open; otherwise the buffer is unchanged |
| ImproperHarmonicOMP.Deposit | src/USER-OMP/improper_harmonic_omp.cpp:206-234 | the buffer becomes the four gated updates in the order i1, i2, i3, i4, and the tally call with the term's arguments is appended exactly when EVFLAG |
| ImproperHarmonicOMP.StepInvariants | src/USER-OMP/improper_harmonic_omp.cpp:92-235 | one more processed term extends the accumulated buffer, the tally log and the warning list by exactly that term's effects |
| ImproperHarmonicOMP.Dispatch | src/USER-OMP/improper_harmonic_omp.cpp:58-69 | EVFLAG iff evflag, EFLAG iff evflag and eflag, NEWTON_BOND iff newton_bond |
| ImproperHarmonicOMP.DispatchCoverage | src/USER-OMP/improper_harmonic_omp.cpp:58-69 | an instantiation is reachable iff EFLAG implies EVFLAG, which leaves exactly six |
| ImproperHarmonicOMP.ImproperHarmonic.Eval | src/USER-OMP/improper_harmonic_omp.cpp:75-236 | after the loop, the buffer is the old buffer with each term's gated forces applied in list order, the tally log gained one call per term exactly when EVFLAG, and the warnings are those of the flagged terms when a screen is attached |
| ImproperHarmonicOMP.ImproperHarmonic.Compute | src/USER-OMP/improper_harmonic_omp.cpp:37-73 | evflag is the set-up value when energy or virial is requested and 0 otherwise; the thread's range is then processed by the instantiation that the flags select, with Eval's guarantees |

## Left out

- The OpenMP parallel region, `loop_setup_thr`, `fix->get_thr`, `ev_setup_thr` and `reduce_thr` (lines 48-72) are not part of this model. `Compute` covers one thread. `ThreadsReduce` states that any split into contiguous ranges, once summed, gives the single-thread result; it does not model how the split is chosen.
- `ev_setup` (line 41) is not part of this model. The tally flag it sets is the parameter `setupEvflag` of `Compute`.
- `ev_tally_thr` (line 233) is not part of this model. Only the call and its arguments are recorded, in `ThrData.tallies`.
- `sqrt`, `acos` and `domain->minimum_image` are library or foreign calls. They appear as arbitrary functions in `Externals`, and nothing is proved about their values.
- The warning text and the `fprintf(screen, ...)` lines (146-160) are output. They are modelled as a returned list of `Warning` events carrying the same data.
- IEEE floating-point rounding, infinities and NaN are not modelled; the model uses `real`. Force balance is exact over `real` but only approximate in floating point.
- `ImproperKernel.AngleOf`: requires every bond vector to have non-zero length, and so do `ImproperKernel.EvalTerm` and everything built on it. The code divides by the squared length without a check (lines 116-118). In floating point a zero-length bond makes c NaN, and NaN fails every comparison at lines 131, 135, 143, 163-164 and 167, so it passes the clamps unchanged. The clamp bounds are facts of the real-number model only.
- That the forces are the negative gradient of the energy is not modelled; it needs calculus over `acos` and `sqrt`.
- Zero net torque of a term's forces is not modelled; only zero net force (`AssembleForces`) and translation invariance (`TranslationInvariant`) are.
- `ImproperHarmonicOMP.ImproperHarmonic.Eval`: the force buffer holds one `Vec3` per atom, and its three components are updated together, not one after another. No other thread writes the buffer.
