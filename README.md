# FastAD reverse-mode core, modelled in Dafny

FastAD builds expressions from nodes. Every node offers forward evaluation
(`feval`), which computes and caches its value, and backward evaluation
(`beval`), which receives a seed (the adjoint of its own value) and adds
`seed * d(value)/d(operand)` to the adjoint of each operand. The model covers:

- the four log-density nodes of the statistics layer: `NormalAdjLogPDFNode`
  (scalar and vector sigma, and the covariance-matrix cases through a
  Cholesky factorisation), `CauchyAdjLogPDFNode`, `UniformAdjLogPDFNode` and
  `BernoulliAdjLogPDFNode`. Each node's cases (sss, vss, vsv, vvs, vvv and so
  on, by the shape of the operands) are given as a class. Its fields are the
  operands, their adjoints and the caches `feval` fills. Its methods are
  proved against specification functions: the log-density and the gradient
  of each operand;
- the Python reference oracles the unit tests compare the nodes with
  (`normal_ref.py`, `cauchy_ref.py`, `uniform_ref.py`, `bernoulli_ref.py`).
  They are modelled as functions that return a gradient or the error Python
  would raise. For every case, lemmas prove that the node's gradient at seed
  1 is the oracle's. The normal forward oracle `log_pdf_adj` raises
  IndexError for a sigma per observation (see Findings); the node's value is
  proved equal to it for a scalar sigma and to its evidently intended
  elementwise reading for every sigma;
- the core expression nodes: elementwise binary operators
  (`BinaryNode`), assignment and compound assignment (`EqNode`,
  `OpEqNode`), the integer power `pow<K>` (`PowNode`), the product
  reductions (`ProdIterNode`, `ProdElemNode`) and the leaf views over values
  and adjoints (`VarView`, scalar, vector, matrix and self-adjoint);
- the row-major matrix `ad::Mat` (construction, element access, fill,
  transpose, equality) as a class whose entries are a sequence in row-major
  order.

Floating-point values are exact reals. Where the sign of infinity matters,
the value is `Ext` (finite, `+inf`, `-inf` or NaN). The natural logarithm,
`pi` and the Cholesky factorisation are parameters of the nodes that use
them. The lemmas state only the algebraic properties they need of these
parameters.

## Model

| member | source | states |
|---|---|---|
| BernoulliRef.Adj | test/reverse/stat/ref/bernoulli_ref.py:41-45 | a success gives an adjoint `a` with `a p = 1`, a failure one with `a (1 - p) = -1`; dividing by zero is an error; any other observation leaves the adjoint unassigned (an error), in both directions |
| BernoulliRef.SsBeval | test/reverse/stat/ref/bernoulli_ref.py:19-24 | the single adjoint as a one-element list, failing exactly when the per-observation rule fails |
| BernoulliRef.SsXOneBeval | test/reverse/stat/ref/bernoulli_ref.py:26-28 | `[1/p]`, failing exactly at `p = 0` |
| BernoulliRef.SsXOneIsSuccessRule | test/reverse/stat/ref/bernoulli_ref.py:19-28 | the fixed-success variant equals the general rule at `x = 1` |
| BernoulliRef.VsBeval | test/reverse/stat/ref/bernoulli_ref.py:33-35 | one adjoint `a` with `a p (1 - p) = sum(x) - n p`; an error exactly when `p` is 0 or 1 |
| BernoulliRef.VvBeval | test/reverse/stat/ref/bernoulli_ref.py:40-47 | the per-observation rule over the pairs `zip` forms (as many as the shorter list), or the error of a failing pair |
| Bernoulli.ObsLogPmf | include/fastad_bits/reverse/stat/bernoulli.hpp:135-150 | one observation's log-mass with `p` clipped to `[0, 1]` is finite exactly when `x = 0, p < 1` or `x = 1, p > 0`, and `-inf` otherwise |
| Bernoulli.ExtTotal | include/fastad_bits/reverse/stat/bernoulli.hpp:327-346 | IEEE summation of finite and `-inf` values is `-inf` exactly when one term is, and otherwise the sum of the finite parts |
| Bernoulli.LogPmf | include/fastad_bits/reverse/stat/bernoulli.hpp:126-151 | the log-mass of all observations is `-inf` exactly when one observation is impossible |
| Bernoulli.SelectSum | include/fastad_bits/reverse/stat/bernoulli.hpp:238-240 | over 0/1 observations, a per-success term `a` and a per-failure term `b` sum to `sum(x) a + (n - sum(x)) b` |
| Bernoulli.TallyOfSum | include/fastad_bits/reverse/stat/bernoulli.hpp:238-240 | the tally in terms of the cached `x_sum` |
| Bernoulli.ZeroOneSum | include/fastad_bits/reverse/stat/bernoulli.hpp:228-235 | for 0/1 observations, `0 <= sum(x) <= n`; the sum is 0 exactly when all fail and `n` exactly when all succeed |
| Bernoulli.AllSameIffSum | include/fastad_bits/reverse/stat/bernoulli.hpp:228-235 | "all fail" is equivalent to "0/1 and `sum(x) = 0`", and "all succeed" to "0/1 and `sum(x) = n`": the tests the vs case makes on its cache |
| Bernoulli.SsLogPmf | include/fastad_bits/reverse/stat/bernoulli.hpp:126-151 | case ss: the log-mass is that of the single observation |
| Bernoulli.NotZeroOneLogPmf | include/fastad_bits/reverse/stat/bernoulli.hpp:242-243 | observations outside `{0, 1}` make the log-mass `-inf` |
| Bernoulli.AllZeroLogPmf | include/fastad_bits/reverse/stat/bernoulli.hpp:227-236 | observations that all have log-mass 0 have log-mass 0 together |
| Bernoulli.VsLowLogPmf | include/fastad_bits/reverse/stat/bernoulli.hpp:229-231 | vs with `p <= 0`: log-mass 0 when all observations fail, `-inf` otherwise |
| Bernoulli.VsHighLogPmf | include/fastad_bits/reverse/stat/bernoulli.hpp:232-234 | vs with `p >= 1`: log-mass 0 when all observations succeed, `-inf` otherwise |
| Bernoulli.AllFiniteTotal | include/fastad_bits/reverse/stat/bernoulli.hpp:336-340 | finite values total to the sum of their parts |
| Bernoulli.SelectedTotal | include/fastad_bits/reverse/stat/bernoulli.hpp:238-240 | finite values `a` at successes and `b` at failures total to the tally |
| Bernoulli.VsInRangeLogPmf | include/fastad_bits/reverse/stat/bernoulli.hpp:238-240 | vs inside `(0, 1)`: the log-mass is `sum(x) log p + (n - sum(x)) log(1 - p)` |
| Bernoulli.ClosedFormIsLogPmf | include/fastad_bits/reverse/stat/bernoulli.hpp:342-343 | with every `p_i` in range the closed form `sum log(x p + (1 - x)(1 - p))` is the log-mass |
| Bernoulli.ClippedLogPmf | include/fastad_bits/reverse/stat/bernoulli.hpp:328-340 | the clipping loop returns the log-mass of 0/1 observations (loop invariant: the partial sum of the finite parts, no `-inf` seen) |
| Bernoulli.PSeed | include/fastad_bits/reverse/stat/bernoulli.hpp:153-158 | the seed `p` receives has `p`'s shape |
| Bernoulli.VsAlgebra | include/fastad_bits/reverse/stat/bernoulli.hpp:246-253 | `sum(x) seed/p + (n - sum(x)) (-seed)/(1 - p) = seed (sum(x) - n p) / (p (1 - p))` |
| Bernoulli.VsSeedIsSumOfObsSeeds | include/fastad_bits/reverse/stat/bernoulli.hpp:246-253 | the vs adjoint is the sum of the ss adjoints of the single observations |
| Bernoulli.VvSeedIsObsSeed | include/fastad_bits/reverse/stat/bernoulli.hpp:349-364 | the vv adjoint of `p_i` is the ss adjoint of observation `i` where `p_i` is in range and 0 where it is clipped |
| Bernoulli.SsSeedLinear | include/fastad_bits/reverse/stat/bernoulli.hpp:153-158 | ss: the seed passed to `p` is the seed times the unit-seed one |
| Bernoulli.VsSeedLinear | include/fastad_bits/reverse/stat/bernoulli.hpp:246-253 | vs: the same linearity in the seed |
| Bernoulli.VvSeedLinear | include/fastad_bits/reverse/stat/bernoulli.hpp:349-364 | vv: the same linearity, entry by entry |
| Bernoulli.PSeedLinear | include/fastad_bits/reverse/stat/bernoulli.hpp:153-158 | backward evaluation is linear in its seed in every case |
| Bernoulli.SsAgreesWithOracle | test/reverse/stat/ref/bernoulli_ref.py:19-24 | ss: for a 0/1 observation and `p` in `(0, 1)` the node's unit-seed gradient is the oracle's |
| Bernoulli.SsOracleUndefinedWhereInactive | test/reverse/stat/ref/bernoulli_ref.py:19-24 | where the oracle leaves the adjoint unassigned, the node passes nothing back |
| Bernoulli.SsXOneAtFixture | test/reverse/stat/ref/bernoulli_ref.py:5 | the fixture `p = 0.0001` gives the adjoint 10000 |
| Bernoulli.VsAgreesWithOracle | test/reverse/stat/ref/bernoulli_ref.py:33-35 | vs: the node's unit-seed gradient is the oracle's |
| Bernoulli.VvAgreesWithOracle | test/reverse/stat/ref/bernoulli_ref.py:40-47 | vv: the node's unit-seed gradient is the oracle's |
| Bernoulli.BernoulliNode.constructor | include/fastad_bits/reverse/stat/bernoulli.hpp:115-124 | the node holds its operands, with zero adjoints and the invariant |
| Bernoulli.BernoulliNode.UpdateCache | include/fastad_bits/reverse/stat/bernoulli.hpp:256-267 | `update_cache` and `update_x_cache` make the caches describe the operands and change nothing else |
| Bernoulli.BernoulliNode.Feval | include/fastad_bits/reverse/stat/bernoulli.hpp:126-151 | forward evaluation stores and returns the clipped log-mass, leaving the operands and adjoints as they were |
| Bernoulli.BernoulliNode.SsFeval | include/fastad_bits/reverse/stat/bernoulli.hpp:135-150 | case ss from the cached logarithms is the log-mass |
| Bernoulli.BernoulliNode.VsFeval | include/fastad_bits/reverse/stat/bernoulli.hpp:227-243 | case vs from the cached `x_sum` and logarithms is the log-mass |
| Bernoulli.BernoulliNode.VvFeval | include/fastad_bits/reverse/stat/bernoulli.hpp:327-346 | case vv, the closed form or the clipping loop, is the log-mass |
| Bernoulli.BernoulliNode.Beval | include/fastad_bits/reverse/stat/bernoulli.hpp:349-364 | backward evaluation adds the seed for `p` to its adjoint when the seed is non-zero and there is something to pass on, and otherwise changes nothing |
| UniformRef.SssBeval | test/reverse/stat/ref/uniform_ref.py:17-22 | an error exactly when `max = min`; otherwise `(v, -v)` with `v (max - min) = 1` inside the open support and `(0, 0)` outside it |
| UniformRef.VssBevalAsWritten | test/reverse/stat/ref/uniform_ref.py:27-28 | `len(vec_x)` times the scalar rule at the scalar fixture: `(n v, -n v)` decided by `scl_x` alone |
| UniformRef.VssAsWrittenIgnoresObservations | test/reverse/stat/ref/uniform_ref.py:27-28 | the as-written oracle depends on the number of observations only, not on their values |
| UniformRef.VssBeval | test/reverse/stat/ref/uniform_ref.py:27-28 | the intended oracle: `(n v, -n v)` with `v (max - min) = 1` when every observation is in the support, `(0, 0)` otherwise, an error exactly when `max = min` |
| UniformRef.VssReadingsAgreeInSupport | test/reverse/stat/ref/uniform_ref.py:4-9 | when the scalar fixture and every observation lie in the support, both readings give the same gradient |
| UniformRef.VssAsWrittenMissesOutOfSupport | test/reverse/stat/ref/uniform_ref.py:27-28 | with `scl_x = 0.5`, `x = [5]`, `min = 0`, `max = 1` the as-written oracle gives `(1, -1)` where the intended one gives `(0, 0)` |
| UniformRef.VsvBeval | test/reverse/stat/ref/uniform_ref.py:33-36 | `dM_i (max_i - min) = -1` and `dm = -sum(dM)`; an error exactly when some `max_i = min` |
| UniformRef.VvsBeval | test/reverse/stat/ref/uniform_ref.py:41-44 | `dm_i (max - min_i) = 1` and `dM = -sum(dm)`; an error exactly when some `min_i = max` |
| UniformRef.VvvBeval | test/reverse/stat/ref/uniform_ref.py:49-52 | `dm_i (max_i - min_i) = 1` and `dM = -dm`; an error exactly when some `min_i = max_i` |
| Uniform.WidthPositive | include/fastad_bits/reverse/stat/uniform.hpp:170-173 | inside the support every width `max_i - min_i` is positive |
| Uniform.LogDensity | include/fastad_bits/reverse/stat/uniform.hpp:138-155 | the log-density is `-inf` exactly outside the open support, and otherwise minus the sum of the log-widths |
| Uniform.SupportWidthsNonZero | include/fastad_bits/reverse/stat/uniform.hpp:170-173 | inside the support no width `max_i - min_i` is zero, so the divisions of `beval` are defined |
| Uniform.MinSeed | include/fastad_bits/reverse/stat/uniform.hpp:157-163 | the seed `min` receives has `min`'s shape; defined whenever no width is zero |
| Uniform.MaxSeed | include/fastad_bits/reverse/stat/uniform.hpp:157-163 | the seed `max` receives has `max`'s shape; defined whenever no width is zero |
| Uniform.ScalarBoundsLinear | include/fastad_bits/reverse/stat/uniform.hpp:243-250 | cases sss and vss: both seeds are the seed times the unit-seed ones |
| Uniform.ScalarBoundLinear | include/fastad_bits/reverse/stat/uniform.hpp:336-344 | cases vsv and vvs: the scalar bound's seed is linear in the seed |
| Uniform.VectorMinLinear | include/fastad_bits/reverse/stat/uniform.hpp:429-437 | a vector `min`'s seed is linear in the seed, entry by entry |
| Uniform.VectorMaxLinear | include/fastad_bits/reverse/stat/uniform.hpp:518-525 | a vector `max`'s seed is linear in the seed, entry by entry |
| Uniform.SeedsAreLinear | include/fastad_bits/reverse/stat/uniform.hpp:157-163 | backward evaluation is linear in its seed in every case |
| Uniform.SssAgreesWithOracle | test/reverse/stat/ref/uniform_ref.py:17-22 | sss: the node's unit-seed gradient is the oracle's, inside and outside the support |
| Uniform.VssAgreesWithOracle | test/reverse/stat/ref/uniform_ref.py:27-28 | vss: the node's unit-seed gradient is the intended oracle's, inside and outside the support |
| Uniform.VsvAgreesWithOracle | test/reverse/stat/ref/uniform_ref.py:33-36 | vsv: inside the support the node's gradient is the oracle's |
| Uniform.VvsAgreesWithOracle | test/reverse/stat/ref/uniform_ref.py:41-44 | vvs: inside the support the node's gradient is the oracle's |
| Uniform.VvvAgreesWithOracle | test/reverse/stat/ref/uniform_ref.py:49-52 | vvv: inside the support the node's gradient is the oracle's |
| Uniform.ScalarLowerBound | include/fastad_bits/reverse/stat/uniform.hpp:257-265 | a scalar `min` is below every observation exactly when it is below `minCoeff` |
| Uniform.ScalarUpperBound | include/fastad_bits/reverse/stat/uniform.hpp:257-265 | a scalar `max` is above every observation exactly when it is above `maxCoeff` |
| Uniform.SharedBoundsLogWidths | include/fastad_bits/reverse/stat/uniform.hpp:239-240 | with scalar bounds, minus the summed log-widths is `-n log(max - min)` |
| Uniform.FreshSummariesAreSupport | include/fastad_bits/reverse/stat/uniform.hpp:356-358 | summaries taken against the current bounds make the range test exactly the support test |
| Uniform.CachedRange | include/fastad_bits/reverse/stat/uniform.hpp:262-265 | each specialisation's `within_range`, read from its summaries, holds exactly when the observations pass the range test the summaries were taken for (a vsv/vvs vector bound as it was when they were taken) |
| Uniform.RangeSummaries | include/fastad_bits/reverse/stat/uniform.hpp:351-354 | the summaries `update_x_cache` takes against the current bounds (`minCoeff`, `maxCoeff`, the all-below/all-above flags); with them `within_range` holds exactly when the observations lie in the support |
| Uniform.LogDiffTerm | include/fastad_bits/reverse/stat/uniform.hpp:347-349 | the log-width term is the sum of the log-widths, a single log-width for scalar bounds (case vss multiplies it by `n`) |
| Uniform.LogWidthsOfSameSize | include/fastad_bits/reverse/stat/uniform.hpp:347-349 | the log-width term depends on the observations only through their number, so a constant-bounds cache stays right when `x` changes |
| Uniform.CachedLogDensity | include/fastad_bits/reverse/stat/uniform.hpp:328-333 | the value `feval` stores is `-inf` exactly when the range test fails, and minus the summed log-widths otherwise |
| Uniform.FreshCachedLogDensity | include/fastad_bits/reverse/stat/uniform.hpp:328-333 | with summaries against the current bounds the stored value is the log-density |
| Uniform.CachedValue | include/fastad_bits/reverse/stat/uniform.hpp:236-240 | inside the range test, `-n log_diff` (vss) or `-log_diff` (other cases) is the cached log-density |
| Uniform.StaleRangeAtConstantX | include/fastad_bits/reverse/stat/uniform.hpp:309-310 | constant `x = [0.5]`, `min = 0`, `max` holding `[0.2]` at construction and `[1]` at forward evaluation: the node as written returns `-inf`, while the log-density is `-log 1` |
| Uniform.UniformNode.constructor | include/fastad_bits/reverse/stat/uniform.hpp:297-312 | the node holds its operands and constness flags with zero adjoints; with both bounds constant it computes the log-width term, and with `x` constant (outside vvv) the summaries against the bounds as they are at construction |
| Uniform.UniformNode.SetValues | include/fastad_bits/reverse/core/var_view.hpp:54-61 | new values written into the storage of the non-constant leaves; constants keep theirs and no cache changes |
| Uniform.UniformNode.UpdateLogDiffCache | include/fastad_bits/reverse/stat/uniform.hpp:347-349 | the log-width term of the current bounds; nothing else changes |
| Uniform.UniformNode.UpdateXCache | include/fastad_bits/reverse/stat/uniform.hpp:351-354 | for a non-constant `x`, the summaries are taken against the current bounds; for a constant `x` they keep the bounds they saw (case vvv, include/fastad_bits/reverse/stat/uniform.hpp:508-509, recomputes its flags in any case); `within_range` is then the range test of those bounds |
| Uniform.UniformNode.UpdateCache | include/fastad_bits/reverse/stat/uniform.hpp:320-327 | the log-width term unless both bounds are constant, then the observation summaries unless `x` is constant; operands, value and adjoints unchanged |
| Uniform.UniformNode.Feval | include/fastad_bits/reverse/stat/uniform.hpp:314-334 | forward evaluation stores and returns the cached log-density (the log-density itself when `x` is not constant), leaving operands and adjoints unchanged |
| Uniform.UniformNode.CachedValueNow | include/fastad_bits/reverse/stat/uniform.hpp:328-333 | from up-to-date caches, the value formed is the cached log-density |
| Uniform.UniformNode.Store | include/fastad_bits/reverse/stat/uniform.hpp:328-333 | storing the value changes nothing else |
| Uniform.UniformNode.Beval | include/fastad_bits/reverse/stat/uniform.hpp:336-344 | for a zero seed or a failed range test nothing changes; otherwise each non-constant bound's adjoint grows by its seed, and no cache or value changes |
| CauchyRef.DxSolves | test/reverse/stat/ref/cauchy_ref.py:34 | the oracles' `dx` is the number whose product with `s^2 + d^2` is `-2 d` |
| CauchyRef.DenomNonZero | test/reverse/stat/ref/cauchy_ref.py:20 | `denom = s + d^2/s` is `(s^2 + d^2)/s` and never zero for `s != 0` |
| CauchyRef.SssDGammaIsNegatedTerm | test/reverse/stat/ref/cauchy_ref.py:23 | `sss_beval`'s `dgamma` is minus the per-observation scale term of the vector oracles |
| CauchyRef.SssBeval | test/reverse/stat/ref/cauchy_ref.py:19-27 | a zero scale raises (the division comes before the test), a negative one gives `[0, 0, 0]`; otherwise three entries with `dx0 = -dx` |
| CauchyRef.SssInRange | test/reverse/stat/ref/cauchy_ref.py:19-25 | for a positive scale, `sss_beval` is `[dx, -dx, -term]` |
| CauchyRef.VssBeval | test/reverse/stat/ref/cauchy_ref.py:32-37 | an error exactly for a zero scale; otherwise `n + 2` entries with `dx0 = -sum(dx)` |
| CauchyRef.VsvBeval | test/reverse/stat/ref/cauchy_ref.py:42-47 | an error exactly when some scale is zero; otherwise `2n + 1` entries with `dx0 = -sum(dx)` |
| CauchyRef.VvsBeval | test/reverse/stat/ref/cauchy_ref.py:52-57 | an error exactly for a zero scale; otherwise `2n + 1` entries with `dx0 = -dx` |
| CauchyRef.VvvBeval | test/reverse/stat/ref/cauchy_ref.py:62-67 | an error exactly when some scale is zero; otherwise `3n` entries with `dx0 = -dx` |
| CauchyRef.LogPdf | test/reverse/stat/ref/cauchy_ref.py:11-14 | scipy's log-density of one observation is NaN exactly when the scale is not positive |
| CauchyRef.AdjLogPdf | test/reverse/stat/ref/cauchy_ref.py:11-14 | the summed log-density plus `n log(pi)` is NaN exactly when some scale is not positive |
| Cauchy.Gamma | include/fastad_bits/reverse/stat/cauchy.hpp:167-170 | within range every scale entry is positive |
| Cauchy.XRateSolves | include/fastad_bits/reverse/stat/cauchy.hpp:229-230 | the observation rate times `g^2 + d^2` is `-2 d` |
| Cauchy.InnerFactor | include/fastad_bits/reverse/stat/cauchy.hpp:144-145 | the inner term `g + d^2/g` is `g (1 + (d/g)^2)` |
| Cauchy.ScaleRateIsTextbook | include/fastad_bits/reverse/stat/cauchy.hpp:157-160 | the node's scale rate `(1/g)(x0_adj d - 1)` equals minus the oracles' scale term `(1 - (d/g)^2)/(g + d^2/g)` |
| Cauchy.RatesUnderReflection | include/fastad_bits/reverse/stat/cauchy.hpp:157-160 | reflecting `d` negates the observation rate and keeps the scale rate |
| Cauchy.LogDensity | include/fastad_bits/reverse/stat/cauchy.hpp:134-147 | the adjusted log-density is `-inf` exactly when some scale is not positive, and otherwise minus the summed log inner terms |
| Cauchy.ScalarLogDensity | include/fastad_bits/reverse/stat/cauchy.hpp:144-146 | case sss: the log-density is `-log(inner_term)` |
| Cauchy.LocSeedAsWritten | include/fastad_bits/reverse/stat/cauchy.hpp:229-231 | the seed the vector cases pass to `loc` as written (`dx` already holds the seed) has `loc`'s shape |
| Cauchy.ScaleSeedAsWritten | include/fastad_bits/reverse/stat/cauchy.hpp:232 | the seed the vector cases pass to `scale` as written has `scale`'s shape |
| Cauchy.LocAsWrittenIsSeedSquared | include/fastad_bits/reverse/stat/cauchy.hpp:229-231 | as written, `loc` receives the seed squared times its gradient |
| Cauchy.AsWrittenAgreesAtSeedOne | include/fastad_bits/reverse/stat/cauchy.hpp:298-301 | at seed 1 the as-written seeds are the gradients |
| Cauchy.LocAsWrittenSeedTwo | include/fastad_bits/reverse/stat/cauchy.hpp:229-235 | with seed 2, `x = [1]`, `loc = 0`, `scale = 1` the location receives 4 where the seed times its gradient is 2 |
| Cauchy.ScaleAsWrittenSeedTwo | include/fastad_bits/reverse/stat/cauchy.hpp:229-234 | with the same input the scale receives 2 where the seed times its gradient is 0 |
| Cauchy.OneObservationScaleSeed | include/fastad_bits/reverse/stat/cauchy.hpp:229-232 | one observation against a scalar scale: as written the scale receives `(-seed/g)(seed r d + 1)` |
| Cauchy.XAndLocGradsCancel | include/fastad_bits/reverse/stat/cauchy.hpp:157-159 | the gradients of the observations and of the location sum to zero |
| Cauchy.ShiftInvariant | include/fastad_bits/reverse/stat/cauchy.hpp:144-146 | shifting the observations and the location together changes neither the density nor its gradients |
| Cauchy.SssAgreesWithOracle | test/reverse/stat/ref/cauchy_ref.py:19-27 | sss: within range the node's gradient is the oracle's |
| Cauchy.RatesMatchOracle | test/reverse/stat/ref/cauchy_ref.py:34-36 | per observation, the node's rates are the oracles' `dx` and minus their scale term |
| Cauchy.SharedScaleRates | test/reverse/stat/ref/cauchy_ref.py:32-37 | against a scalar scale, the oracles' `dx` and terms are the node's rates |
| Cauchy.EachScaleRates | test/reverse/stat/ref/cauchy_ref.py:42-47 | against a scale per observation, the same |
| Cauchy.VssAgreesWithOracle | test/reverse/stat/ref/cauchy_ref.py:32-37 | vss: within range the node's gradient is the oracle's |
| Cauchy.VsvAgreesWithOracle | test/reverse/stat/ref/cauchy_ref.py:42-47 | vsv: within range the node's gradient is the oracle's |
| Cauchy.VvsAgreesWithOracle | test/reverse/stat/ref/cauchy_ref.py:52-57 | vvs: within range the node's gradient is the oracle's |
| Cauchy.VvvAgreesWithOracle | test/reverse/stat/ref/cauchy_ref.py:62-67 | vvv: within range the node's gradient is the oracle's |
| Cauchy.ObsLogPdf | test/reverse/stat/ref/cauchy_ref.py:11-14 | for a multiplicative `log`, scipy's log-density of one observation is `-log(pi) - log(inner)` |
| Cauchy.ObsAgreesWithOracle | test/reverse/stat/ref/cauchy_ref.py:11-14 | each observation's oracle term, `log(pi)` added back, is the node's term |
| Cauchy.FevalAgreesWithOracle | test/reverse/stat/ref/cauchy_ref.py:11-14 | within range forward evaluation agrees with the summed oracle log-density, `n log(pi)` added back |
| Cauchy.CauchyNode.constructor | include/fastad_bits/reverse/stat/cauchy.hpp:127-132 | the node holds its operands, with zero adjoints and the invariant |
| Cauchy.CauchyNode.Feval | include/fastad_bits/reverse/stat/cauchy.hpp:134-147 | forward evaluation stores and returns the log-density and caches the inner term; operands and adjoints are unchanged |
| Cauchy.CauchyNode.Beval | include/fastad_bits/reverse/stat/cauchy.hpp:149-165 | for a zero seed or out of range nothing changes; otherwise each adjoint grows by the seed times its gradient (the corrected vector rule, see Findings) |
| Cauchy.FreshSeeds | include/fastad_bits/reverse/stat/cauchy.hpp:149-165 | a fresh node evaluated forward, then backward with any non-zero seed: the location and the scale adjoints are the seed times their gradients |
| Cauchy.CorrectedSeedTwo | include/fastad_bits/reverse/stat/cauchy.hpp:229-235 | on observation 1, location 0, scale 1 at seed 2, the node gives the location 2 and the scale 0, where the seeds as written are 4 and 2 |
| Cauchy.CauchyNode.ScalarSeeds | include/fastad_bits/reverse/stat/cauchy.hpp:153-164 | case sss: the seeds computed from the cached inner term are the seed times the gradients |
| NormalRef.DxShared | test/reverse/stat/ref/normal_ref.py:42 | one `dx` per observation against a shared sigma |
| NormalRef.DxEach | test/reverse/stat/ref/normal_ref.py:60 | one `dx` per observation against a sigma per observation |
| NormalRef.DSigmaEach | test/reverse/stat/ref/normal_ref.py:62 | one `dsigma` per observation |
| NormalRef.DMuEach | test/reverse/stat/ref/normal_ref.py:61 | one `dmu` term per observation |
| NormalRef.SssBeval | test/reverse/stat/ref/normal_ref.py:32-36 | an error exactly for a zero sigma; otherwise three entries with `dmu = -dx` |
| NormalRef.VssBeval | test/reverse/stat/ref/normal_ref.py:41-45 | an error exactly for a zero sigma; otherwise `n + 2` entries |
| NormalRef.VvsBeval | test/reverse/stat/ref/normal_ref.py:50-54 | an error exactly for a zero sigma; otherwise `2n + 1` entries with `dmu = -dx` |
| NormalRef.VsvBeval | test/reverse/stat/ref/normal_ref.py:59-63 | an error exactly when some sigma is zero; otherwise `2n + 1` entries |
| NormalRef.VvvBeval | test/reverse/stat/ref/normal_ref.py:68-72 | an error exactly when some sigma is zero; otherwise `3n` entries with `dmu = -dx` |
| NormalRef.DCov | test/reverse/stat/ref/normal_ref.py:81 | `dsigma = -0.5 (inv - dx dx^T)` is an `n` by `n` matrix |
| NormalRef.DCovSymmetric | test/reverse/stat/ref/normal_ref.py:81 | for a symmetric inverse, `dsigma` is symmetric |
| NormalRef.VsmBeval | test/reverse/stat/ref/normal_ref.py:77-82 | `n + 1 + n^2` entries with `dmu = -sum(dx)` |
| NormalRef.VvmBeval | test/reverse/stat/ref/normal_ref.py:87-92 | `2n + n^2` entries with `dmu = -dx` |
| NormalRef.LogPdf | test/reverse/stat/ref/normal_ref.py:27 | scipy's log-density of one observation is NaN exactly when sigma is not positive |
| NormalRef.LogPdfs | test/reverse/stat/ref/normal_ref.py:27 | one log-density per observation |
| NormalRef.AdjLogPdf | test/reverse/stat/ref/normal_ref.py:18-27 | the intended adjusted log-density, sigma read elementwise: NaN exactly when some sigma is not positive |
| NormalRef.AdjLogPdfAsWritten | test/reverse/stat/ref/normal_ref.py:18-27 | `log_pdf_adj` as written: an IndexError exactly when sigma is a one-dimensional array; for a scalar sigma and at least one observation, NaN exactly when sigma is not positive |
| Normal.Sigma | include/fastad_bits/reverse/stat/normal.hpp:482 | within range every sigma entry is positive |
| Normal.Centred | include/fastad_bits/reverse/stat/normal.hpp:244 | one centred entry per observation |
| Normal.Zs | include/fastad_bits/reverse/stat/normal.hpp:153 | one standardised entry per observation |
| Normal.LogSigmas | include/fastad_bits/reverse/stat/normal.hpp:484 | one `log(sigma_i)` per observation |
| Normal.LogDensity | include/fastad_bits/reverse/stat/normal.hpp:141-156 | the adjusted log-density is `-inf` exactly when sigma is out of range |
| Normal.XRateIsSlope | include/fastad_bits/reverse/stat/normal.hpp:168-170 | the observation rate is the slope of `-z^2/2`: a step `h` changes it by `h` times the rate minus `h^2/(2 s^2)` |
| Normal.RatesHomogeneous | include/fastad_bits/reverse/stat/normal.hpp:166-170 | per observation, `d` times the observation rate plus `s` times the sigma rate is `-1` |
| Normal.XRateIsTextbook | include/fastad_bits/reverse/stat/normal.hpp:282 | the observation rate is `-d / s^2`, also in the vector cases' factored form |
| Normal.XGrad | include/fastad_bits/reverse/stat/normal.hpp:170 | the gradient with respect to `x` has `x`'s shape |
| Normal.MeanGrad | include/fastad_bits/reverse/stat/normal.hpp:169 | the gradient with respect to the mean has the mean's shape |
| Normal.SigmaGrad | include/fastad_bits/reverse/stat/normal.hpp:166 | the gradient with respect to sigma has sigma's shape |
| Normal.XAndMeanGradsCancel | include/fastad_bits/reverse/stat/normal.hpp:168-170 | the gradients of the observations and of the mean sum to zero |
| Normal.ShiftInvariant | include/fastad_bits/reverse/stat/normal.hpp:153-155 | shifting the observations and the mean together changes neither the density nor its gradients |
| Normal.StandardZero | include/fastad_bits/reverse/stat/normal.hpp:153 | a standardised observation is zero exactly when it equals its mean |
| Normal.PeakAtMean | include/fastad_bits/reverse/stat/normal.hpp:153-155 | within range the density is at most `-sum log(sigma_i)`, with equality exactly when every observation equals its mean |
| Normal.DotOfCollect | include/fastad_bits/reverse/stat/normal.hpp:278-279 | a scalar parameter dotted with its collected gradient is the sum of its weighed rates |
| Normal.EulerRelation | include/fastad_bits/reverse/stat/normal.hpp:158-171 | `x . dx + mean . dmean + sigma . dsigma = -n`: the density is homogeneous of degree zero up to `-n log c` |
| Normal.EulerSums | include/fastad_bits/reverse/stat/normal.hpp:158-171 | Euler's relation summed over the observations |
| Normal.GradsCollect | include/fastad_bits/reverse/stat/normal.hpp:275-283 | each gradient collects its per-observation rates |
| Normal.RatesMatchOracle | test/reverse/stat/ref/normal_ref.py:33-35 | per observation the node's rates are the oracle's `dx` and `dsigma` |
| Normal.SharedSigmaRates | test/reverse/stat/ref/normal_ref.py:42-44 | against a shared sigma the oracle's `dx` and `dsigma` are the node's |
| Normal.EachSigmaRates | test/reverse/stat/ref/normal_ref.py:60-62 | against a sigma per observation, the same |
| Normal.SharedMeanRate | test/reverse/stat/ref/normal_ref.py:43 | `-sum(dx) = sum(d) / s^2` |
| Normal.SssAgreesWithOracle | test/reverse/stat/ref/normal_ref.py:32-36 | sss: within range the node's gradient is the oracle's |
| Normal.VssAgreesWithOracle | test/reverse/stat/ref/normal_ref.py:41-45 | vss: within range the node's gradient is the oracle's |
| Normal.VvsAgreesWithOracle | test/reverse/stat/ref/normal_ref.py:50-54 | vvs: within range the node's gradient is the oracle's |
| Normal.VsvAgreesWithOracle | test/reverse/stat/ref/normal_ref.py:59-63 | vsv: within range the node's gradient is the oracle's |
| Normal.VvvAgreesWithOracle | test/reverse/stat/ref/normal_ref.py:68-72 | vvv: within range the node's gradient is the oracle's |
| Normal.DxEachIsNeg | test/reverse/stat/ref/normal_ref.py:60-61 | the oracle's `dmu` terms are minus its `dx` |
| Normal.ObsAgreesWithOracle | test/reverse/stat/ref/normal_ref.py:18-27 | each observation's reference log-density, the normalising constant added back, is the node's term |
| Normal.FevalAgreesWithOracle | test/reverse/stat/ref/normal_ref.py:18-27 | within range forward evaluation agrees with the intended reference log-density plus `(n/2) log(2 pi)`, for scalar and vector sigma |
| Normal.FevalAgreesWithOracleAsWritten | test/reverse/stat/ref/normal_ref.py:18-48 | with a scalar sigma, the reference as written returns the node's forward value |
| Normal.VectorSigmaOracleRaises | test/reverse/stat/ref/normal_ref.py:24-66 | with a sigma per observation the node's value is finite while the reference as written raises IndexError |
| Normal.VsvFixtureOracleRaises | test/reverse/stat/ref/normal_ref.py:8-57 | at the `vsv_feval` fixture the node's value is finite and the reference as written raises |
| NormalForms.SumSqOverShared | include/fastad_bits/reverse/stat/normal.hpp:244-245 | against a shared sigma, `norm((x - m)/s)^2 = norm(x - m)^2 / s^2` |
| NormalForms.SumSqShift | include/fastad_bits/reverse/stat/normal.hpp:221 | shifting every entry by `c` gives `norm(e)^2 - 2 c sum(e) + n c^2` |
| NormalForms.CentredSumZero | include/fastad_bits/reverse/stat/normal.hpp:220 | observations less their mean sum to zero |
| NormalForms.ShiftedSpread | include/fastad_bits/reverse/stat/normal.hpp:238-241 | the cached spread plus `n (m - xbar)^2` is `norm(x - m)^2` |
| NormalForms.CentredMeanSum | include/fastad_bits/reverse/stat/normal.hpp:269 | `n (xbar - m) = sum(x - m)` |
| NormalForms.ExpandedSquares | include/fastad_bits/reverse/stat/normal.hpp:423-425 | `sq - 2 m lin + m^2 const` is `norm((x - m)/s)^2` at every mean `m` |
| NormalForms.LinMinusConst | include/fastad_bits/reverse/stat/normal.hpp:465 | `lin - m const` is `sum((x - m)/s^2)` at every mean `m` |
| NormalNodes.SharedLogDensity | include/fastad_bits/reverse/stat/normal.hpp:244-246 | cases vss and vvs: the density is `-norm(x - mean)^2 / (2 s^2) - n log(s)` |
| NormalNodes.ConstXLogDensity | include/fastad_bits/reverse/stat/normal.hpp:237-242 | case vss with constant `x`: the density from the cached mean and spread |
| NormalNodes.EachLogDensity | include/fastad_bits/reverse/stat/normal.hpp:450-451 | cases vsv and vvv: `-norm(z)^2 / 2` less the summed `log(s_i)` |
| NormalNodes.ConstTermsLogDensity | include/fastad_bits/reverse/stat/normal.hpp:444-448 | case vsv with constant `x` and sigma: the density from the three cached terms |
| NormalNodes.SharedSigmaGrad | include/fastad_bits/reverse/stat/normal.hpp:275 | a shared sigma's gradient is `(z_sq - n) inv_s` from the cached `z_sq` |
| NormalNodes.ConstXSigmaGrad | include/fastad_bits/reverse/stat/normal.hpp:263-266 | case vss with constant `x`: sigma's gradient is `((x_var + n c^2) inv_s_sq - n) inv_s` |
| NormalNodes.ConstXMeanGrad | include/fastad_bits/reverse/stat/normal.hpp:269 | case vss with constant `x`: the mean's gradient is `n (x_mean - m) inv_s_sq` |
| NormalNodes.SharedMeanGrad | include/fastad_bits/reverse/stat/normal.hpp:278 | against a shared sigma, a scalar mean's gradient is `sum(x - m) inv_s_sq` |
| NormalNodes.EachMeanGrad | include/fastad_bits/reverse/stat/normal.hpp:473 | against a sigma per observation, a scalar mean's gradient is `sum((x - m)/s^2)` |
| NormalNodes.SssSeeds | include/fastad_bits/reverse/stat/normal.hpp:158-171 | case sss: the three seeds are the seed times the gradients |
| NormalNodes.ConstXSigmaSeed | include/fastad_bits/reverse/stat/normal.hpp:263-267 | case vss with constant `x`: sigma's seed from the caches is the seed times its gradient |
| NormalNodes.ConstXMeanSeed | include/fastad_bits/reverse/stat/normal.hpp:269-270 | case vss with constant `x`: the mean's seed from the caches is the seed times its gradient |
| NormalNodes.SharedSigmaSeed | include/fastad_bits/reverse/stat/normal.hpp:274-276 | cases vss and vvs: sigma's seed from `z_sq` is the seed times its gradient |
| NormalNodes.SharedScalarMeanSeed | include/fastad_bits/reverse/stat/normal.hpp:278-279 | case vss: the mean's seed is the seed times its gradient |
| NormalNodes.SharedVectorMeanSeed | include/fastad_bits/reverse/stat/normal.hpp:370 | case vvs: the mean's seed is the seed times its gradient |
| NormalNodes.SharedXSeed | include/fastad_bits/reverse/stat/normal.hpp:281-283 | cases vss and vvs: the observations' seed is the seed times their gradient |
| NormalNodes.ConstTermsMeanSeed | include/fastad_bits/reverse/stat/normal.hpp:463-466 | case vsv with constant `x` and sigma: the mean's seed from the cached terms is the seed times its gradient |
| NormalNodes.EachSigmaSeed | include/fastad_bits/reverse/stat/normal.hpp:469-471 | cases vsv and vvv: sigma's seed is the seed times its gradient |
| NormalNodes.EachScalarMeanSeed | include/fastad_bits/reverse/stat/normal.hpp:473-474 | case vsv: the mean's seed is the seed times its gradient |
| NormalNodes.EachVectorMeanSeed | include/fastad_bits/reverse/stat/normal.hpp:563 | case vvv: the mean's seed is the seed times its gradient |
| NormalNodes.EachXSeed | include/fastad_bits/reverse/stat/normal.hpp:475 | cases vsv and vvv: the observations' seed is the seed times their gradient |
| NormalNodes.ConstXDensity | include/fastad_bits/reverse/stat/normal.hpp:237-242 | the value computed from the cached mean and spread is the log-density |
| NormalNodes.NormalNode.constructor | include/fastad_bits/reverse/stat/normal.hpp:204-223 | the node holds its operands with zero adjoints; the caches of constant operands describe them |
| NormalNodes.NormalNode.Feval | include/fastad_bits/reverse/stat/normal.hpp:225-248 | forward evaluation stores and returns the log-density (`-inf` out of range) and leaves operands and adjoints alone |
| NormalNodes.NormalNode.SssValue | include/fastad_bits/reverse/stat/normal.hpp:153-155 | case sss: the value is the log-density |
| NormalNodes.NormalNode.ConstXValue | include/fastad_bits/reverse/stat/normal.hpp:237-242 | case vss with constant `x`: the value from the caches is the log-density |
| NormalNodes.NormalNode.SharedValue | include/fastad_bits/reverse/stat/normal.hpp:244-246 | cases vss and vvs: the value from `z_sq` is the log-density |
| NormalNodes.NormalNode.ConstTermsValue | include/fastad_bits/reverse/stat/normal.hpp:444-448 | case vsv with constant `x` and sigma: the value from the cached terms is the log-density |
| NormalNodes.NormalNode.EachValue | include/fastad_bits/reverse/stat/normal.hpp:449-451 | cases vsv and vvv: the value is the log-density |
| NormalNodes.NormalNode.Beval | include/fastad_bits/reverse/stat/normal.hpp:250-286 | nothing changes for a zero seed or out of range; otherwise each non-constant operand's adjoint grows by the seed times its gradient |
| NormalNodes.NormalNode.Seeds | include/fastad_bits/reverse/stat/normal.hpp:455-478 | the seeds computed from the caches in every case are the seed times the gradients |
| NormalCov.Deviation | include/fastad_bits/reverse/stat/normal.hpp:638 | entry `i` is `x_i - mean_i`, a scalar mean broadcast |
| NormalCov.CovLogDensity | include/fastad_bits/reverse/stat/normal.hpp:624-642 | the adjusted log-density is `-inf` exactly when the Cholesky factorisation fails, and finite otherwise |
| NormalCov.Precision | include/fastad_bits/reverse/stat/normal.hpp:638 | `z = sigma^-1 (x - mean)` has one entry per observation |
| NormalCov.CovXGrad | include/fastad_bits/reverse/stat/normal.hpp:654 | the gradient with respect to `x` has `x`'s shape |
| NormalCov.CovMeanGrad | include/fastad_bits/reverse/stat/normal.hpp:653 | the gradient with respect to the mean has the mean's shape |
| NormalCov.CovSigmaGrad | include/fastad_bits/reverse/stat/normal.hpp:649 | the gradient with respect to sigma is `n` by `n` |
| NormalCov.CovXSlope | include/fastad_bits/reverse/stat/normal.hpp:638-641 | moving the observations by `v` changes the density by `v . dx` less the quadratic form of `v` over two: `-z` is the gradient |
| NormalCov.CovMeanSlope | include/fastad_bits/reverse/stat/normal.hpp:638-641 | moving the mean by `dm` changes the density by `dm . dmean` less a quadratic term: the mean gradient is `z`, summed for a scalar mean |
| NormalCov.CovGradsCancel | include/fastad_bits/reverse/stat/normal.hpp:653-654 | the gradients of the observations and of the mean sum to zero |
| NormalCov.CovShiftInvariant | include/fastad_bits/reverse/stat/normal.hpp:638-641 | shifting the observations and the mean together changes neither the density nor its gradients |
| NormalCov.CovSigmaGradSymmetric | include/fastad_bits/reverse/stat/normal.hpp:649 | for a symmetric inverse the sigma gradient is symmetric |
| NormalCov.CovPeakAtMean | include/fastad_bits/reverse/stat/normal.hpp:638-641 | with a positive definite inverse the density is at most `-log(det L)`, with equality exactly when every observation equals its mean |
| NormalCov.VvmAgrees | test/reverse/stat/ref/normal_ref.py:87-92 | vvm: given the same inverse, the oracle's gradient is the node's |
| NormalCov.VsmAgrees | test/reverse/stat/ref/normal_ref.py:77-82 | vsm: given the same inverse, the oracle's gradient is the node's |
| NormalCov.CovNode.constructor | include/fastad_bits/reverse/stat/normal.hpp:605-622 | the node holds its operands with zero adjoints; a constant sigma is factored once |
| NormalCov.CovNode.UpdateCache | include/fastad_bits/reverse/stat/normal.hpp:658-665 | the factor's success is cached, and on success `log(det L)` and the inverse; a failure keeps the old values |
| NormalCov.CovNode.Feval | include/fastad_bits/reverse/stat/normal.hpp:624-642 | forward evaluation stores and returns the log-density, refactoring a varying sigma, and leaves operands and adjoints alone |
| NormalCov.CovNode.Beval | include/fastad_bits/reverse/stat/normal.hpp:644-655 | nothing changes for a zero seed or a failed factor; otherwise each non-constant operand's adjoint grows by the seed times its gradient |
| NormalCov.CovSigmaSeed | include/fastad_bits/reverse/stat/normal.hpp:649-650 | the sigma seed from the cached `z` is the seed times the sigma gradient |
| NormalCov.CovMeanSeed | include/fastad_bits/reverse/stat/normal.hpp:751 | the mean seed from the cached `z` is the seed times the mean gradient |
| NormalCov.CovXSeed | include/fastad_bits/reverse/stat/normal.hpp:752 | the `x` seed from the cached `z` is the seed times the `x` gradient |
| Dense.DotIsSum | include/fastad_bits/reverse/stat/normal.hpp:639 | the inner product is the sum of the entrywise products |
| Dense.MatVec | include/fastad_bits/reverse/stat/normal.hpp:638 | entry `i` of `m v` is row `i` of `m` against `v` |
| Dense.Outer | test/reverse/stat/ref/normal_ref.py:81 | entry `(i, j)` of `a a^T` is `a_i a_j` |
| Dense.FlattenAt | test/reverse/stat/ref/normal_ref.py:82 | a flattened `n x n` matrix has `n^2` entries, entry `(i, j)` at `i n + j` |
| Dense.BilinearSymmetric | include/fastad_bits/reverse/stat/normal.hpp:638-639 | for a symmetric matrix, `u^T m w = w^T m u` |
| Dense.QuadExpand | include/fastad_bits/reverse/stat/normal.hpp:638-641 | the quadratic form of a symmetric matrix at `d + v` is `Q(d) + 2 v^T m d + Q(v)` |
| Dense.QuadNeg | include/fastad_bits/reverse/stat/normal.hpp:638-641 | the quadratic form is even |
| BinaryOps.Fmap | include/fastad_bits/reverse/core/binary.hpp:264-340 | forward map with broadcasting: scalar exactly when both operands are, otherwise the array operand's shape, entry `i` applying the operator to entry `i` of each side |
| BinaryOps.Blmap | include/fastad_bits/reverse/core/binary.hpp:268-332 | the left seed has the left operand's shape: seed times the left partial, summed over the entries when the left side is a scalar against an array |
| BinaryOps.Brmap | include/fastad_bits/reverse/core/binary.hpp:276-338 | the right seed has the right operand's shape: seed times the right partial, summed when the right side is a scalar against an array |
| BinaryOps.ElemSeeds | include/fastad_bits/reverse/core/binary.hpp:268-338 | one element-wise seed per element of the node's value |
| BinaryOps.LeftDerivativeExact | include/fastad_bits/reverse/core/binary.hpp:264-332 | the left partial is the exact rate of change of the operator in its left argument (all four are affine in it) |
| BinaryOps.RightDerivativeExact | include/fastad_bits/reverse/core/binary.hpp:276-338 | the right partial is exact for `+`, `-` and `*`; for `/` it is `-x / y^2`, the limit of the difference quotient |
| BinaryOps.ComparisonSeedsZero | include/fastad_bits/reverse/core/binary.hpp:341-428 | comparisons pass a zero seed to either operand |
| BinaryOps.LogicalBooleanContext | include/fastad_bits/reverse/core/binary.hpp:432-473 | on 0/1 values the vectorised `min` and `max` agree with the scalar logical and and logical or |
| BinaryOps.AddVal | include/fastad_bits/reverse/core/binary.hpp:133-134 | an adjoint accumulates a seed of its own shape entry by entry |
| BinaryOps.BinaryNode.constructor | include/fastad_bits/reverse/core/binary.hpp:77-91 | the node holds its operands, with zero adjoints |
| BinaryOps.BinaryNode.Feval | include/fastad_bits/reverse/core/binary.hpp:100-106 | forward evaluation caches and returns `fmap` of the operands and changes nothing else |
| BinaryOps.BinaryNode.Beval | include/fastad_bits/reverse/core/binary.hpp:120-136 | comparisons change nothing; otherwise the node's adjoint becomes the seed and each operand's adjoint grows by its `blmap`/`brmap` seed |
| Assign.EqNode.constructor | include/fastad_bits/reverse/core/eq.hpp:70-81 | the assignment holds a placeholder and an expression of the same shape, with zero adjoints |
| Assign.EqNode.Feval | include/fastad_bits/reverse/core/eq.hpp:89-92 | forward evaluation writes the expression's value into the placeholder and returns it; adjoints are unchanged |
| Assign.EqNode.Beval | include/fastad_bits/reverse/core/eq.hpp:102-107 | the seed joins the placeholder's adjoint, and the expression receives the placeholder's whole adjoint |
| Assign.AsBinary | include/fastad_bits/reverse/core/eq.hpp:305-411 | every compound assignment applies an arithmetic (never a comparison) operator |
| Assign.OpEqBlmap | include/fastad_bits/reverse/core/eq.hpp:312-398 | the seed for the variable's old value has the variable's shape |
| Assign.OpEqBrmap | include/fastad_bits/reverse/core/eq.hpp:322-409 | the seed for the right-hand side has its shape, summed for a scalar right-hand side |
| Assign.QuotientSeedsAgree | include/fastad_bits/reverse/core/eq.hpp:393-409 | `/=` passes `s / y` and `-s x / y^2`, the seed times the binary quotient's partials |
| Assign.ElemSeedsAgree | include/fastad_bits/reverse/core/eq.hpp:305-411 | per element, each compound assignment's seeds are the seed times the partials of its binary operator |
| Assign.OpEqSeedsAgree | include/fastad_bits/reverse/core/eq.hpp:267-268 | `u op= y` passes exactly the seeds of the binary node `u op y` (binary.hpp `blmap`/`brmap`) |
| Assign.EqBindCacheSize | include/fastad_bits/reverse/core/eq.hpp:147-154 | the expression's own root is rebound onto the placeholder: the node needs the expression's total less its root's share |
| Assign.OpEqBindCacheSize | include/fastad_bits/reverse/core/eq.hpp:288-297 | a compound assignment needs its own value and adjoint cache of the variable's size on top of the expression's |
| Assign.OpEqNode.constructor | include/fastad_bits/reverse/core/eq.hpp:225-238 | the node holds the variable and the expression, with zero adjoints |
| Assign.OpEqNode.Feval | include/fastad_bits/reverse/core/eq.hpp:240-247 | the variable's old value is saved in the cache and the variable becomes `fmap(old, expr)` |
| Assign.OpEqNode.Beval | include/fastad_bits/reverse/core/eq.hpp:250-271 | the variable's old value is restored, its adjoint plus the seed moves to the cache, and the variable and the expression receive `blmap` and `brmap` of it |
| Assign.EvaluateAndDifferentiate | include/fastad_bits/reverse/core/eq.hpp:240-271 | forward then backward evaluation leaves the variable as it was and passes the binary node's seeds |
| Pow.PowerAdd | include/fastad_bits/reverse/core/pow.hpp:26-30 | `b^(m+n) = b^m b^n`, which the halving recursion relies on |
| Pow.PowNat | include/fastad_bits/reverse/core/pow.hpp:21-43 | squaring the half power for an even exponent and peeling one factor for an odd one computes the textbook `b^n` |
| Pow.PowFunc | include/fastad_bits/reverse/core/pow.hpp:45-56 | a non-negative exponent gives `b^e`; a negative one gives `+inf` at zero and otherwise the reciprocal of `b^-e` |
| Pow.PowSeed | include/fastad_bits/reverse/core/pow.hpp:102-162 | the operand's seed is `0` for exponent 0, the seed for exponent 1, `e seed x^(e-1)` above one (also at zero), and for a negative exponent `e seed (1/x)^(1-e)`, `-inf` at zero |
| Pow.PowSeedZero | include/fastad_bits/reverse/core/pow.hpp:102-162 | a zero seed passes a zero seed, except for a negative exponent at zero, which passes `-inf` |
| Pow.SingleBindCacheSize | include/fastad_bits/reverse/core/pow.hpp:184-191 | a power node always caches its value, and an adjoint exactly when the exponent is neither 0 nor 1 (and the value is not empty) |
| Pow.PowNode.constructor | include/fastad_bits/reverse/core/pow.hpp:86-89 | the node holds its exponent and operand, with a zero adjoint |
| Pow.PowNode.Feval | include/fastad_bits/reverse/core/pow.hpp:91-99 | forward evaluation stores and returns `PowFunc` of the operand |
| Pow.PowNode.Beval | include/fastad_bits/reverse/core/pow.hpp:102-162 | the operand's adjoint grows by `PowSeed`; the node's own adjoint takes the seed only when it has one |
| Prod.ProductSplit | include/fastad_bits/reverse/core/prod.hpp:79-84 | the product is the product of the other factors times any one factor |
| Prod.ProductDivide | include/fastad_bits/reverse/core/prod.hpp:84 | dividing the product by a non-zero factor leaves the product of the others |
| Prod.ProductZero | include/fastad_bits/reverse/core/prod.hpp:79-82 | a zero factor makes the product zero, which is why its seed is recomputed |
| Prod.SeedMultiplier | include/fastad_bits/reverse/core/prod.hpp:75-85 | the multiplier of factor `idx` is the product of the other factors, whether it is zero or not |
| Prod.ProdIterNode.constructor | include/fastad_bits/reverse/core/prod.hpp:37-42 | the node holds its factors' values and adjoints |
| Prod.ProdIterNode.Feval | include/fastad_bits/reverse/core/prod.hpp:50-61 | forward evaluation starts from 1 and multiplies every factor in, left to right |
| Prod.ProdIterNode.Beval | include/fastad_bits/reverse/core/prod.hpp:69-90 | a zero seed changes nothing; otherwise each factor's adjoint grows by the seed times the product of the other factors |
| Prod.ProdElemNode.constructor | include/fastad_bits/reverse/core/prod.hpp:144-147 | the node holds its vector's values and adjoints |
| Prod.ProdElemNode.Feval | include/fastad_bits/reverse/core/prod.hpp:154-162 | forward evaluation is the product of the elements |
| Prod.ProdElemNode.Beval | include/fastad_bits/reverse/core/prod.hpp:170-194 | a zero seed changes nothing; otherwise each element's adjoint grows by the seed times the product of the others |
| Prod.ProdOfConstants | include/fastad_bits/reverse/core/prod.hpp:243-256 | folding constant factors gives their product, and `0` for an empty range |
| Prod.ProdFoldFrom | include/fastad_bits/reverse/core/prod.hpp:246-255 | the left fold from the first factor computes the product |
| Prod.EmptyProductPaths | include/fastad_bits/reverse/core/prod.hpp:236-266 | an empty range gives `0` on the constant path but `1` as a node; otherwise both paths agree |
| VarViews.ScalarVar.constructor | include/fastad_bits/reverse/core/var_view.hpp:52-62 | a scalar variable starts with a zero adjoint |
| VarViews.ScalarVar.Beval | include/fastad_bits/reverse/core/var_view.hpp:91 | backward evaluation adds the seed to the adjoint and leaves the value |
| VarViews.ScalarVar.ResetAdj | include/fastad_bits/reverse/core/var_view.hpp:112 | the adjoint becomes zero and the value stays |
| VarViews.VecVar.constructor | include/fastad_bits/reverse/core/var_view.hpp:153-162 | a vector variable views a value and an adjoint of the same length |
| VarViews.VecVar.Beval | include/fastad_bits/reverse/core/var_view.hpp:175 | only adjoint `i` grows by the seed |
| VarViews.VecVar.ResetAdj | include/fastad_bits/reverse/core/var_view.hpp:192 | every adjoint becomes zero |
| VarViews.MatVar.constructor | include/fastad_bits/reverse/core/var_view.hpp:216-226 | a matrix variable views a value and an adjoint of the same dimensions |
| VarViews.MatVar.Beval | include/fastad_bits/reverse/core/var_view.hpp:238 | only adjoint `(i, j)` grows by the seed |
| VarViews.MatVar.ResetAdj | include/fastad_bits/reverse/core/var_view.hpp:260 | every adjoint becomes zero |
| VarViews.SelfAdjVar.constructor | include/fastad_bits/reverse/core/var_view.hpp:284-294 | a self-adjoint variable views a square value and adjoint |
| VarViews.SelfAdjVar.Feval | include/fastad_bits/reverse/core/var_view.hpp:305-308 | forward evaluation keeps the lower triangle, mirrors it into the upper one, and changes nothing of an already symmetric value |
| VarViews.SelfAdjVar.Beval | include/fastad_bits/reverse/core/var_view.hpp:310-314 | the seed of entry `(i, j)` goes to the lower-triangle entry, and the upper triangle of the adjoint is never touched |
| VarViews.SelfAdjVar.ResetAdj | include/fastad_bits/reverse/core/var_view.hpp:340 | every adjoint becomes zero |
| Matrix.OffsetBound | include/fastad_bits/mat.hpp:37-40 | the row-major offset of an in-range entry is inside the storage |
| Matrix.OffsetDecompose | include/fastad_bits/mat.hpp:37-40 | every in-range offset is reached by the entry `(k / cols, k % cols)` |
| Matrix.OffsetInjective | include/fastad_bits/mat.hpp:37-40 | two entries with the same offset are the same entry |
| Matrix.Transposed | include/fastad_bits/mat.hpp:196-207 | the transpose's storage has entry `(c, r)` equal to entry `(r, c)` of the original |
| Matrix.TransposedInvolution | include/fastad_bits/mat.hpp:196-207 | transposing twice gives the storage back |
| Matrix.Mat.Empty | include/fastad_bits/mat.hpp:26-28 | the default matrix is `0 x 0` and empty |
| Matrix.Mat.Square | include/fastad_bits/mat.hpp:29-31 | a `size x size` matrix with every entry `fill` |
| Matrix.Mat.Init | include/fastad_bits/mat.hpp:32-34 | a `rows x cols` matrix with every entry `fill` |
| Matrix.Mat.At | include/fastad_bits/mat.hpp:42-45 | entry `(r, c)` is one of the stored values |
| Matrix.Mat.Set | include/fastad_bits/mat.hpp:37-40 | writing through the reference changes entry `(r, c)` and no other |
| Matrix.Mat.Size | include/fastad_bits/mat.hpp:57-60 | the size is the number of stored entries |
| Matrix.Mat.Fill | include/fastad_bits/mat.hpp:184-193 | filling resizes to `r x c` and sets every entry |
| Matrix.Mat.FillSame | include/fastad_bits/mat.hpp:83-86 | filling keeps the dimensions and sets every entry |
| Matrix.Mat.Zeros | include/fastad_bits/mat.hpp:88-91 | zeros resizes to `r x c` and sets every entry to zero |
| Matrix.Mat.ZerosSame | include/fastad_bits/mat.hpp:92-95 | zeros keeps the dimensions and sets every entry to zero |
| Matrix.Mat.T | include/fastad_bits/mat.hpp:196-207 | a fresh `cols x rows` matrix whose entry `(c, r)` is entry `(r, c)` |
| Matrix.Mat.Equals | include/fastad_bits/mat.hpp:146-161 | equal exactly when the dimensions and every entry agree |
| Matrix.TransposeTwice | test/mat_unittest.cpp:42-44 | a matrix equals the transpose of its transpose |

## Left out

- Floating point: doubles are exact reals, so rounding, overflow and the clipping of tiny probabilities to `0`/`1` by underflow are not modelled. Only the special values the statistics nodes produce on purpose or by IEEE rules (`-inf` log-densities, `inf - inf`) are kept, as `Ext`.
- `std::log`, `std::sqrt` and `M_PI` are parameters. A lemma that needs `log` to turn products into sums states this as a premise.
- Eigen's `LLT` is a parameter (`llt: Matrix -> Factor`) returning success, the determinant of `L` and the inverse of sigma. The factorisation itself is not modelled.
- The multivariate oracle (scipy's `multivariate_normal.logpdf` and its gradient): its reference gradient is written as the textbook formula with the same inverse, so NormalCov.VvmAgrees and NormalCov.VsmAgrees hold given that inverse. Whether the factorisation computes the true inverse is not modelled.
- Value/adjoint pointers, `bind_cache` and the memory layout of the cache regions are modelled as fields of the node objects. Aliasing between expressions is not modelled. Only the sizes `bind_cache_size` reports are (Assign.EqBindCacheSize, Assign.OpEqBindCacheSize, Pow.SingleBindCacheSize).
- Operands of the modelled nodes are leaf variables (value and adjoint held directly). Composite sub-expressions, which would forward their seed further, are not modelled.
- Constness (`util::is_constant_v`) is a flag of NormalNodes.NormalNode, NormalCov.CovNode and Uniform.UniformNode, where it decides which caches are computed only at construction. Bernoulli.BernoulliNode and Cauchy.CauchyNode have no such flag: in `bernoulli.hpp` a constant operand only skips recomputing caches that depend on that operand alone, which gives the same values, and `cauchy.hpp` does not test constness. In those nodes and in the core nodes, a constant operand's adjoint is a field the model updates but nothing reads, since the source's `beval` of a constant does nothing.
- The order in which `BinaryNode::beval` back-propagates (right operand before left) is not observable in the model, because the two operands are distinct leaves.
- Pow.PowNode: models `pow<K>` on a scalar operand only. The vector form (`.array().pow(K)` element by element) is not modelled; its elementwise rule is the scalar one.
- Prod.ProdIterNode.Feval, Prod.ProdIterNode.Beval (and the class Prod.ProdIterNode as a whole): model products of scalar factors only. The source also multiplies vector and matrix factors entrywise (`.array() *=`) and passes their seeds back entry by entry; that form is not modelled.
- Prod.ProdOfConstants: returns the scalar 0 for an empty range of constants; for vector or matrix constants the source returns an empty Eigen object instead, which the scalar model cannot express.
- BinaryOps.Fmap, BinaryOps.Blmap, BinaryOps.Brmap, BinaryOps.ElemSeeds, BinaryOps.BinaryNode, Assign.OpEqBlmap, Assign.OpEqBrmap and Assign.OpEqNode: a division requires a non-zero divisor (`DivisorsNonZero`). The source divides without a check and produces IEEE `inf` or NaN, which the model does not carry through values and adjoints.
- Uniform.UniformNode.Beval: requires every width `max_i - min_i` to be non-zero when the cached range test passes. This holds whenever the summaries are current. With stale summaries (a constant `x`, see Findings) a bound may meet `min`, and there the source divides by zero.
- Uniform.VsvAgreesWithOracle, Uniform.VvsAgreesWithOracle, Uniform.VvvAgreesWithOracle: stated inside the support only. The oracles ignore the support, while the node passes nothing back outside it.
- The homogeneity of the quadratic form under scaling of sigma is not stated.
- Printing a `Mat` (`operator<<`) is I/O and is not modelled.
- The oracles' numpy broadcasting and fixtures are modelled only for the shapes the tests use. Beyond the `p = 0.0001` fixture (Bernoulli.SsXOneAtFixture), no particular test values are modelled.
- The NaN that scipy returns for a non-positive scale, where the node returns `-inf`, is not compared. The agreement lemmas assume a positive scale/sigma, which is the case the tests exercise.

## Findings

| source | as written | input that shows it | evidently intended | confidence | as-written member | corrected member |
|---|---|---|---|---|---|---|
| test/reverse/stat/ref/uniform_ref.py:27-28 | the vss oracle decides in or out of support from the scalar fixture `scl_x`, not from the vector observations it is called for | `scl_x = 0.5`, `x = [5]`, `min = 0`, `max = 1`: the oracle gives `(1, -1)` | `(0, 0)`, because the observation 5 lies outside the support, as the node computes | not executed | UniformRef.VssAsWrittenMissesOutOfSupport | Uniform.VssAgreesWithOracle |
| include/fastad_bits/reverse/stat/uniform.hpp:309-310 | with a constant `x`, cases vsv and vvs compute `x_bounded_above_` (`x_bounded_below_`) only in the constructor, against the vector bound as it is then; `feval` skips `update_x_cache`, so `within_range` keeps testing the bound as it was at construction | constant `x = [0.5]`, variable `min = 0`, variable `max` holding `[0.2]` at construction and `[1]` at forward evaluation: `feval` returns `-inf` and `beval` passes nothing back | `-log 1 = 0` and the usual seeds, since 0.5 lies in `(0, 1)`: the bound-dependent flag recomputed on every forward evaluation | not executed | Uniform.StaleRangeAtConstantX | Uniform.FreshCachedLogDensity |
| include/fastad_bits/reverse/stat/cauchy.hpp:229-235 | in the vector cases `dx` already carries the seed, and `dx0` and `dgamma` multiply by `seed` again: `loc` receives `seed^2` times its gradient, and the `dx * diff` part of `scale`'s seed is scaled by `seed^2` while its count part is scaled by `seed` | seed 2, `x = [1]`, `loc = 0`, `scale = 1`: `loc` adjoint 4 (intended 2), `scale` adjoint 2 (intended 0) | the adjoint grows by `seed` times the gradient, as in the sss case | not executed | Cauchy.LocAsWrittenSeedTwo | Cauchy.CorrectedSeedTwo |
| test/reverse/stat/ref/normal_ref.py:24 | the matrix test reads `s.shape[1]` of every numpy array, so for the one-dimensional `vec_sigma` it raises IndexError and `vsv_feval` and `vvv_feval` never return | `vsv_feval`: `x = [3.1, -2.3, 1.3]`, `mu = -0.2`, `sigma = [0.01, 1.03, 2.41]` | the summed univariate log-density plus `(3/2) log(2 pi)`, the node's finite value, with the matrix path taken only for a two-dimensional square sigma | not executed | Normal.VsvFixtureOracleRaises | Normal.FevalAgreesWithOracle |
