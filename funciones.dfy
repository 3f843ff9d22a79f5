/** The fit engine of Base/Funciones.py: the length guard, the coefficient of
    determination, the orthogonal-distance-regression wrapper around an
    abstract solver, and the two reference models (a polynomial and an
    asymmetric Pseudo-Voigt peak). */
module Funciones {
  import opened Wrappers
  import opened Errors
  import opened Sequences
  import opened FitResults

  /** The model callable `f(beta, x)`: its predicted values (a float array whose
      entries may be nan or inf), or what it raises. */
  type ModelFn = (seq<real>, seq<real>) -> Result<seq<Stat>, Error>

  /** scipy.odr's `ODR(RealData(...), Model(f), beta0=p0, ...).run()`: the solver
      output, or None when the run raises. Only its output lengths are ever
      assumed about it. */
  type Solver = (ModelFn, Sample, seq<real>, Knobs) -> Option<SolverOutput>

  // ---------------------------------------------------------------------
  // _check_array
  // ---------------------------------------------------------------------

  /** `_check_array(a, b)`: ValueError exactly when the lengths differ. */
  function CheckArray(a: seq<real>, b: seq<real>): (r: Option<Error>)
    ensures r.None? <==> |a| == |b|
    ensures r.Some? ==> r.value == LengthMismatch(|a|, |b|) && ExceptionClassOf(r.value) == ValueError
  {
    if |a| != |b| then Some(LengthMismatch(|a|, |b|)) else None
  }

  // ---------------------------------------------------------------------
  // float arrays with nan and inf
  // ---------------------------------------------------------------------

  /** An array with no nan or inf entry. */
  predicate AllFinite(ys: seq<Stat>)
  {
    forall j :: 0 <= j < |ys| ==> ys[j].Finite?
  }

  /** The numbers of an array whose entries are all finite. */
  function Values(ys: seq<Stat>): (vs: seq<real>)
    requires AllFinite(ys)
    ensures |vs| == |ys|
    ensures forall j :: 0 <= j < |ys| ==> vs[j] == ys[j].v
  {
    seq(|ys|, j requires 0 <= j < |ys| => ys[j].v)
  }

  /** An array of finite numbers. */
  function Finites(vs: seq<real>): (ys: seq<Stat>)
    ensures |ys| == |vs| && AllFinite(ys)
    ensures forall j :: 0 <= j < |vs| ==> ys[j] == Finite(vs[j])
  {
    seq(|vs|, j requires 0 <= j < |vs| => Finite(vs[j]))
  }

  /** Float subtraction a - b: nan or inf in b stays non-finite. */
  function Minus(a: real, b: Stat): Stat
  {
    if b.Finite? then Finite(a - b.v) else NonFinite
  }

  // ---------------------------------------------------------------------
  // _coef_determinacion
  // ---------------------------------------------------------------------

  /** SCR: the residual sum of squares. */
  function SCR(residuos: seq<real>): (r: real)
    ensures r >= 0.0
  {
    SumSqDev(residuos, 0.0)
  }

  /** SCT: the total sum of squares about the mean (0 for no data, where numpy
      sums an empty array). */
  function SCT(dataY: seq<real>): (r: real)
    ensures r >= 0.0
  {
    if dataY == [] then 0.0 else SumSqDev(dataY, Mean(dataY))
  }

  /** `_coef_determinacion(data_y, residuos, cant_params)`: R² = 1 - SCR/SCT and
      R²_aj = 1 - (1 - R²)(n - 1)/(n - k - 1). numpy divides a float by zero
      into nan or inf, so a zero SCT makes both non-finite and a zero
      n - k - 1 makes R²_aj non-finite. A nan or inf residual makes SCR, and
      with it both coefficients, non-finite. */
  function CoefDeterminacion(dataY: seq<real>, residuos: seq<Stat>, cantParams: int): (r: (Stat, Stat))
    ensures r.0.Finite? <==> AllFinite(residuos) && SCT(dataY) > 0.0
    ensures r.1.Finite? <==> AllFinite(residuos) && SCT(dataY) > 0.0 && |dataY| - cantParams - 1 != 0
    ensures r.0.Finite? ==> r.0.v <= 1.0
  {
    var sct := SCT(dataY);
    if !AllFinite(residuos) || sct == 0.0 then (NonFinite, NonFinite)
    else
      var scr := SCR(Values(residuos));
      var r2 := 1.0 - scr / sct;
      RatioNonNegative(scr, sct);
      var n := |dataY|;
      var den := n - cantParams - 1;
      if den == 0 then (Finite(r2), NonFinite)
      else (Finite(r2), Finite(1.0 - (1.0 - r2) * ((n - 1) as real) / (den as real)))
  }

  lemma RatioNonNegative(a: real, b: real)
    requires a >= 0.0 && b > 0.0
    ensures a / b >= 0.0
  {
  }

  /** A quotient whose numerator is at least its positive denominator scales a
      non-negative d up. */
  lemma ScaleUp(d: real, num: real, den: real)
    requires d >= 0.0 && num >= den > 0.0
    ensures d * num / den >= d
  {
    assert d * num / den - d == d * (num - den) / den;
    assert d * (num - den) >= 0.0;
    RatioNonNegative(d * (num - den), den);
  }

  /** With zero residuals and some spread in the data, R² = 1 and, whenever
      it is defined, R²_aj = 1. */
  lemma PerfectFitCoefficients(dataY: seq<real>, residuos: seq<Stat>, cantParams: int)
    requires forall j :: 0 <= j < |residuos| ==> residuos[j] == Finite(0.0)
    requires SCT(dataY) > 0.0
    ensures CoefDeterminacion(dataY, residuos, cantParams).0 == Finite(1.0)
    ensures |dataY| - cantParams - 1 != 0 ==> CoefDeterminacion(dataY, residuos, cantParams).1 == Finite(1.0)
  {
    SumSqDevConstant(Values(residuos), 0.0);
  }

  /** The adjusted coefficient is the more conservative one: R²_aj <= R² when
      0 <= k and n > k + 1. */
  lemma AdjustedAtMostPlain(dataY: seq<real>, residuos: seq<Stat>, cantParams: int)
    requires AllFinite(residuos) && SCT(dataY) > 0.0
    requires 0 <= cantParams && |dataY| > cantParams + 1
    ensures CoefDeterminacion(dataY, residuos, cantParams).0.Finite?
    ensures CoefDeterminacion(dataY, residuos, cantParams).1.Finite?
    ensures CoefDeterminacion(dataY, residuos, cantParams).1.v <= CoefDeterminacion(dataY, residuos, cantParams).0.v
  {
    var r := CoefDeterminacion(dataY, residuos, cantParams);
    var n := |dataY|;
    var r2 := r.0.v;
    assert 1.0 - r2 >= 0.0;
    ScaleUp(1.0 - r2, (n - 1) as real, (n - cantParams - 1) as real);
  }

  // ---------------------------------------------------------------------
  // fit_odr
  // ---------------------------------------------------------------------

  /** The guards at the top of `fit_odr`, in source order: an empty p0, then
      `_check_array(x, y)`, `_check_array(x, err_x)` and `_check_array(y, err_y)`. */
  function Validate(s: Sample, p0: seq<real>): (r: Option<Error>)
    ensures r.None? <==> p0 != [] && Aligned(s)
    ensures r == Some(MissingInitialParams) <==> p0 == []
    ensures r.Some? ==> ExceptionClassOf(r.value) == ValueError
  {
    if p0 == [] then Some(MissingInitialParams)
    else if CheckArray(s.dataX, s.dataY).Some? then CheckArray(s.dataX, s.dataY)
    else if s.errX.Some? && CheckArray(s.dataX, s.errX.value).Some? then CheckArray(s.dataX, s.errX.value)
    else if s.errY.Some? then CheckArray(s.dataY, s.errY.value)
    else None
  }

  /** `[ufloat(b, err) for b, err in zip(beta, sd_beta)]`: zip stops at the
      shorter list. */
  function PairParams(beta: seq<real>, sdBeta: seq<real>): (ps: seq<UFloat>)
    ensures |ps| == if |beta| <= |sdBeta| then |beta| else |sdBeta|
    ensures forall i :: 0 <= i < |ps| ==> ps[i] == UFloat(beta[i], sdBeta[i])
  {
    if beta == [] || sdBeta == [] then []
    else [UFloat(beta[0], sdBeta[0])] + PairParams(beta[1..], sdBeta[1..])
  }

  /** numpy `data_y - pred` on one-dimensional arrays: equal lengths subtract
      entrywise, a length-1 operand is broadcast, any other pair raises; a
      nan or inf prediction gives a non-finite residual. */
  function Residuals(dataY: seq<real>, pred: seq<Stat>): (r: Result<seq<Stat>, Error>)
    ensures r.Ok? <==> |dataY| == |pred| || |pred| == 1 || |dataY| == 1
    ensures r.Err? ==> r.error == BroadcastMismatch(|dataY|, |pred|)
    ensures |dataY| == |pred| ==>
              r.Ok? && |r.value| == |dataY| && forall i :: 0 <= i < |dataY| ==> r.value[i] == Minus(dataY[i], pred[i])
    ensures |pred| == 1 ==>
              r.Ok? && |r.value| == |dataY| && forall i :: 0 <= i < |dataY| ==> r.value[i] == Minus(dataY[i], pred[0])
    ensures |dataY| == 1 ==>
              r.Ok? && |r.value| == |pred| && forall i :: 0 <= i < |pred| ==> r.value[i] == Minus(dataY[0], pred[i])
  {
    if |dataY| == |pred| then Ok(seq(|dataY|, i requires 0 <= i < |dataY| => Minus(dataY[i], pred[i])))
    else if |pred| == 1 then Ok(seq(|dataY|, i requires 0 <= i < |dataY| => Minus(dataY[i], pred[0])))
    else if |dataY| == 1 then Ok(seq(|pred|, i requires 0 <= i < |pred| => Minus(dataY[0], pred[i])))
    else Err(BroadcastMismatch(|dataY|, |pred|))
  }

  /** `fit_odr`: validation, one solver run, the parameter pairing and, when
      `estimadores` holds, the residuals at the fitted beta and R², R²_aj with
      k = len(p0). */
  function FitOdr(model: ModelFn, solver: Solver, s: Sample, p0: seq<real>, estimadores: bool,
                  knobs: Knobs): (r: Result<FitResult, Error>)
    // every guard is decided before the solver or the model is consulted
    ensures Validate(s, p0).Some? ==> r == Err(Validate(s, p0).value)
    ensures Validate(s, p0).None? && solver(model, s, p0, knobs).None? ==> r == Err(SolverFailure)
    ensures r.Ok? ==> Validate(s, p0).None? && r.value.odrOutput.Some? &&
                      solver(model, s, p0, knobs) == r.value.odrOutput
    ensures r.Ok? ==>
              var out := r.value.odrOutput.value;
              |r.value.parametros| == (if |out.beta| <= |out.sdBeta| then |out.beta| else |out.sdBeta|) &&
              forall i :: 0 <= i < |r.value.parametros| ==> r.value.parametros[i] == UFloat(out.beta[i], out.sdBeta[i])
    // the statistics policy: all three absent, or all three present
    ensures r.Ok? && !estimadores ==> r.value.r2.None? && r.value.r2Aj.None? && r.value.residuos.None?
    ensures r.Ok? && estimadores ==> r.value.r2.Some? && r.value.r2Aj.Some? && r.value.residuos.Some?
    ensures !estimadores && Validate(s, p0).None? && solver(model, s, p0, knobs).Some? ==> r.Ok?
  {
    match Validate(s, p0)
    case Some(e) => Err(e)
    case None =>
      match solver(model, s, p0, knobs)
      case None => Err(SolverFailure)
      case Some(out) =>
        var ps := PairParams(out.beta, out.sdBeta);
        if !estimadores then Ok(FitResult(Some(out), ps, None, None, None))
        else
          match model(out.beta, s.dataX)
          case Err(e) => Err(e)
          case Ok(pred) =>
            match Residuals(s.dataY, pred)
            case Err(e) => Err(e)
            case Ok(res) =>
              var stats := CoefDeterminacion(s.dataY, res, |p0|);
              Ok(FitResult(Some(out), ps, Some(stats.0), Some(stats.1), Some(res)))
  }

  /** With `estimadores`, the residuals are `data_y - f(beta, data_x)` entry by
      entry when the model keeps the length of x, and the statistics are those
      of these residuals. */
  lemma FitOdrResiduals(model: ModelFn, solver: Solver, s: Sample, p0: seq<real>, knobs: Knobs)
    requires FitOdr(model, solver, s, p0, true, knobs).Ok?
    ensures var fr := FitOdr(model, solver, s, p0, true, knobs).value;
            var beta := fr.odrOutput.value.beta;
            model(beta, s.dataX).Ok? &&
            (|model(beta, s.dataX).value| == |s.dataX| ==>
               |fr.residuos.value| == |s.dataY| &&
               (forall i :: 0 <= i < |s.dataY| ==> fr.residuos.value[i] == Minus(s.dataY[i], model(beta, s.dataX).value[i])) &&
               (fr.r2.value, fr.r2Aj.value) == CoefDeterminacion(s.dataY, fr.residuos.value, |p0|))
  {
  }

  /** A solver that returns one beta and one sd_beta entry per initial
      parameter makes `parametros` as long as p0. */
  lemma FitOdrParamCount(model: ModelFn, solver: Solver, s: Sample, p0: seq<real>, estimadores: bool, knobs: Knobs)
    requires solver(model, s, p0, knobs).Some? ==>
               |solver(model, s, p0, knobs).value.beta| == |p0| &&
               |solver(model, s, p0, knobs).value.sdBeta| == |p0|
    requires FitOdr(model, solver, s, p0, estimadores, knobs).Ok?
    ensures |FitOdr(model, solver, s, p0, estimadores, knobs).value.parametros| == |p0|
  {
  }

  /** The fit as a jackknife target: `f.fit_odr` called with the subset data,
      `p0`, `estimadores` and the solver knobs. */
  function OdrTarget(model: ModelFn, solver: Solver): (t: Target)
    ensures t.Fittable?
    ensures forall c :: t.fitOdr(c) == FitOdr(model, solver, c.sample, c.p0, c.estimadores, c.knobs)
  {
    Fittable((c: FitCall) => FitOdr(model, solver, c.sample, c.p0, c.estimadores, c.knobs))
  }

  // ---------------------------------------------------------------------
  // polinomio
  // ---------------------------------------------------------------------

  function Pow(x: real, n: nat): real
  {
    if n == 0 then 1.0 else x * Pow(x, n - 1)
  }

  /** The independent reference: the polynomial with coefficients a_0, a_1, ...
      evaluated by Horner's rule. */
  function Horner(params: seq<real>, x: real): real
  {
    if params == [] then 0.0 else params[0] + x * Horner(params[1..], x)
  }

  /** Appending a coefficient adds its monomial. */
  lemma {:induction false} HornerSnoc(params: seq<real>, c: real, x: real)
    ensures Horner(params + [c], x) == Horner(params, x) + c * Pow(x, |params|)
  {
    if params != [] {
      assert (params + [c])[1..] == params[1..] + [c];
      HornerSnoc(params[1..], c, x);
      assert Pow(x, |params|) == x * Pow(x, |params| - 1);
      calc {
        Horner(params + [c], x);
        params[0] + x * Horner(params[1..] + [c], x);
        params[0] + x * (Horner(params[1..], x) + c * Pow(x, |params| - 1));
        params[0] + x * Horner(params[1..], x) + c * (x * Pow(x, |params| - 1));
      }
    }
  }

  /** `sum(b * np.power(x, i) for i, b in enumerate(params))`: the terms are
      added as whole arrays, left to right. Python's sum of no terms is the
      integer 0, which broadcasts like an array of zeros. */
  function Polinomio(params: seq<real>, xs: seq<real>): (ys: seq<real>)
    ensures |ys| == |xs|
    ensures forall j :: 0 <= j < |xs| ==> ys[j] == Horner(params, xs[j])
  {
    if params == [] then Repeat(0.0, |xs|)
    else
      var init := params[..|params| - 1];
      var b := params[|params| - 1];
      var partial := Polinomio(init, xs);
      var ys := seq(|xs|, j requires 0 <= j < |xs| => partial[j] + b * Pow(xs[j], |params| - 1));
      assert forall j :: 0 <= j < |xs| ==> ys[j] == Horner(params, xs[j]) by {
        forall j | 0 <= j < |xs| ensures ys[j] == Horner(params, xs[j]) {
          assert init + [b] == params;
          HornerSnoc(init, b, xs[j]);
        }
      }
      ys
  }

  /** `polinomio([1, 2, 3], [0, 1, 2]) == [1, 6, 17]`. */
  lemma PolinomioExample()
    ensures Polinomio([1.0, 2.0, 3.0], [0.0, 1.0, 2.0]) == [1.0, 6.0, 17.0]
  {
    var ys := Polinomio([1.0, 2.0, 3.0], [0.0, 1.0, 2.0]);
    assert [1.0, 2.0, 3.0][1..] == [2.0, 3.0];
    assert [2.0, 3.0][1..] == [3.0];
    assert [3.0][1..] == [];
    assert ys[0] == 1.0 && ys[1] == 6.0 && ys[2] == 17.0;
  }

  /** polinomio as the model of a fit: it never raises. */
  function PolinomioModel(): (m: ModelFn)
    ensures forall beta, xs :: m(beta, xs) == Ok(Finites(Polinomio(beta, xs)))
  {
    (beta, xs) => Ok(Finites(Polinomio(beta, xs)))
  }

  /** `fit_odr(polinomio, ...)` succeeds exactly when the guards pass and the
      solver runs; its residuals are y_i minus the fitted polynomial at x_i,
      all finite, so R² is finite exactly when the data have some spread. */
  lemma PolinomioFit(solver: Solver, s: Sample, p0: seq<real>, estimadores: bool, knobs: Knobs)
    ensures var r := FitOdr(PolinomioModel(), solver, s, p0, estimadores, knobs);
      r.Ok? <==> Validate(s, p0).None? && solver(PolinomioModel(), s, p0, knobs).Some?
    ensures var r := FitOdr(PolinomioModel(), solver, s, p0, estimadores, knobs);
      r.Ok? && estimadores ==>
        var beta := r.value.odrOutput.value.beta;
        && |r.value.residuos.value| == |s.dataY|
        && (forall i :: 0 <= i < |s.dataY| ==> r.value.residuos.value[i] == Finite(s.dataY[i] - Horner(beta, s.dataX[i])))
        && (r.value.r2.value.Finite? <==> SCT(s.dataY) > 0.0)
  {
    var m := PolinomioModel();
    if Validate(s, p0).None? && solver(m, s, p0, knobs).Some? && estimadores {
      var beta := solver(m, s, p0, knobs).value.beta;
      assert m(beta, s.dataX) == Ok(Finites(Polinomio(beta, s.dataX)));
      assert |Polinomio(beta, s.dataX)| == |s.dataY|;
    }
  }

  // ---------------------------------------------------------------------
  // np.piecewise and APV
  // ---------------------------------------------------------------------

  /** One (condition, function) pair of `np.piecewise`. */
  datatype Piece = Piece(cond: real -> bool, f: real -> Stat)

  /** The value np.piecewise gives at one point: the function of the LAST
      piece whose condition holds there, or 0 when none does. */
  function PointValue(pieces: seq<Piece>, x: real): Stat
  {
    if pieces == [] then Finite(0.0)
    else if pieces[|pieces| - 1].cond(x) then pieces[|pieces| - 1].f(x)
    else PointValue(pieces[..|pieces| - 1], x)
  }

  /** `np.piecewise(x, condlist, funclist)`: start from `zeros_like(x)` and, piece
      by piece, overwrite the entries whose condition holds. */
  function Piecewise(xs: seq<real>, pieces: seq<Piece>): (y: seq<Stat>)
    ensures |y| == |xs|
    ensures forall j :: 0 <= j < |xs| ==> y[j] == PointValue(pieces, xs[j])
  {
    if pieces == [] then Repeat(Finite(0.0), |xs|)
    else
      var before := Piecewise(xs, pieces[..|pieces| - 1]);
      var last := pieces[|pieces| - 1];
      seq(|xs|, j requires 0 <= j < |xs| => if last.cond(xs[j]) then last.f(xs[j]) else before[j])
  }

  /** `np.clip(eta, 0, 1)`. */
  function Clip01(v: real): (c: real)
    ensures 0.0 <= c <= 1.0
    ensures 0.0 <= v <= 1.0 ==> c == v
    ensures v < 0.0 ==> c == 0.0
    ensures v > 1.0 ==> c == 1.0
  {
    if v < 0.0 then 0.0 else if v > 1.0 then 1.0 else v
  }

  /** One side of the peak, `A*(eta*G + (1-eta)*L) + y0` with
      G = exp(-u²/2), L = 1/(1 + u²), u = (x - x0)/sigma. With sigma = 0 numpy
      gives u = ±inf away from the centre (G = L = 0, the value is y0) and
      u = nan at the centre (the value is nan). */
  function Side(exp: real -> real, a: real, x0: real, sigma: real, eta: real, y0: real, x: real): Stat
  {
    if sigma == 0.0 then (if x == x0 then NonFinite else Finite(y0))
    else
      var u := (x - x0) / sigma;
      Finite(a * (eta * exp(-(u * u) / 2.0) + (1.0 - eta) * (1.0 / (1.0 + u * u))) + y0)
  }

  /** The two pieces of APV for the seven unpacked parameters. */
  function ApvPieces(exp: real -> real, params: seq<real>): seq<Piece>
    requires |params| == 7
  {
    var a, x0, sigma1, eta1, sigma2, eta2, y0 :=
      params[0], params[1], params[2], Clip01(params[3]), params[4], Clip01(params[5]), params[6];
    [Piece(x => x <= x0, x => Side(exp, a, x0, sigma1, eta1, y0, x)),
     Piece(x => x >= x0, x => Side(exp, a, x0, sigma2, eta2, y0, x))]
  }

  /** `APV(params, x)`: unpacking into seven names raises unless there are
      exactly seven; both etas are clipped into [0, 1]; points left of x0 take
      the (sigma_1, eta_1) side and the rest, x0 itself included because the
      later condition of np.piecewise wins, take the (sigma_2, eta_2) side. */
  function Apv(exp: real -> real, params: seq<real>, xs: seq<real>): (r: Result<seq<Stat>, Error>)
    ensures r.Ok? <==> |params| == 7
    ensures r.Err? ==> r.error == ParamUnpack(|params|) && ExceptionClassOf(r.error) == ValueError
    ensures r.Ok? ==> |r.value| == |xs|
    ensures r.Ok? ==> forall j :: 0 <= j < |xs| && xs[j] < params[1] ==>
              r.value[j] == Side(exp, params[0], params[1], params[2], Clip01(params[3]), params[6], xs[j])
    ensures r.Ok? ==> forall j :: 0 <= j < |xs| && xs[j] >= params[1] ==>
              r.value[j] == Side(exp, params[0], params[1], params[4], Clip01(params[5]), params[6], xs[j])
  {
    if |params| != 7 then Err(ParamUnpack(|params|))
    else Ok(Piecewise(xs, ApvPieces(exp, params)))
  }

  /** At the centre the profile is A + y0 whatever the etas, since G = L = 1
      there (given exp(0) = 1 and a nonzero right width). */
  lemma ApvAtCentre(exp: real -> real, params: seq<real>, xs: seq<real>, j: nat)
    requires exp(0.0) == 1.0
    requires |params| == 7 && params[4] != 0.0
    requires j < |xs| && xs[j] == params[1]
    ensures Apv(exp, params, xs).value[j] == Finite(params[0] + params[6])
  {
    var eta := Clip01(params[5]);
    var u := (xs[j] - params[1]) / params[4];
    assert u == 0.0;
    assert -(u * u) / 2.0 == 0.0;
    assert eta * 1.0 + (1.0 - eta) * (1.0 / (1.0 + 0.0)) == 1.0;
  }

  /** With a zero right width the centre point is 0/0: numpy gives nan there,
      whatever the left width. */
  lemma ApvCentreZeroWidth(exp: real -> real, params: seq<real>, xs: seq<real>, j: nat)
    requires |params| == 7 && params[4] == 0.0
    requires j < |xs| && xs[j] == params[1]
    ensures Apv(exp, params, xs).value[j] == NonFinite
  {
  }

  /** A zero width flattens its side to the baseline y0 away from the centre. */
  lemma ApvZeroWidthBaseline(exp: real -> real, params: seq<real>, xs: seq<real>, j: nat)
    requires |params| == 7 && j < |xs| && xs[j] != params[1]
    requires (xs[j] < params[1] && params[2] == 0.0) || (xs[j] > params[1] && params[4] == 0.0)
    ensures Apv(exp, params, xs).value[j] == Finite(params[6])
  {
  }

  /** Points left of x0 depend only on A, x0, sigma_1, eta_1 and y0; points at or
      right of x0 only on A, x0, sigma_2, eta_2 and y0. */
  lemma ApvSidesIndependent(exp: real -> real, p: seq<real>, q: seq<real>, xs: seq<real>, j: nat)
    requires |p| == 7 && |q| == 7 && j < |xs|
    requires p[0] == q[0] && p[1] == q[1] && p[6] == q[6]
    ensures xs[j] < p[1] && p[2] == q[2] && p[3] == q[3] ==> Apv(exp, p, xs).value[j] == Apv(exp, q, xs).value[j]
    ensures xs[j] >= p[1] && p[4] == q[4] && p[5] == q[5] ==> Apv(exp, p, xs).value[j] == Apv(exp, q, xs).value[j]
  {
  }

  /** Clipping is why an eta outside [0, 1] acts like the nearest bound: APV
      with clipped etas is APV itself. */
  lemma ApvClipIdempotent(exp: real -> real, params: seq<real>, xs: seq<real>)
    requires |params| == 7
    ensures Apv(exp, params[3 := Clip01(params[3])][5 := Clip01(params[5])], xs) == Apv(exp, params, xs)
  {
    var q := params[3 := Clip01(params[3])][5 := Clip01(params[5])];
    var r, t := Apv(exp, q, xs).value, Apv(exp, params, xs).value;
    assert forall j :: 0 <= j < |xs| ==> r[j] == t[j];
  }

  /** APV as the model of a fit: it raises only when beta is not seven
      numbers, and hands nan and inf on to the fit. */
  function ApvModel(exp: real -> real): (m: ModelFn)
    ensures forall beta, xs :: m(beta, xs) == Apv(exp, beta, xs)
  {
    (beta, xs) => Apv(exp, beta, xs)
  }

  /** `fit_odr(APV, ...)` succeeds exactly when the guards pass, the solver
      runs and, if the statistics are requested, the fitted beta has seven
      entries; the residuals are y_i minus APV at x_i. */
  lemma ApvFitOutcome(exp: real -> real, solver: Solver, s: Sample, p0: seq<real>, estimadores: bool, knobs: Knobs)
    ensures var r := FitOdr(ApvModel(exp), solver, s, p0, estimadores, knobs);
      r.Ok? <==> Validate(s, p0).None? && solver(ApvModel(exp), s, p0, knobs).Some? &&
                 (estimadores ==> |solver(ApvModel(exp), s, p0, knobs).value.beta| == 7)
    ensures var r := FitOdr(ApvModel(exp), solver, s, p0, estimadores, knobs);
      r.Ok? && estimadores ==>
        var beta := r.value.odrOutput.value.beta;
        && |r.value.residuos.value| == |s.dataY|
        && forall i :: 0 <= i < |s.dataY| ==>
             r.value.residuos.value[i] == Minus(s.dataY[i], Apv(exp, beta, s.dataX).value[i])
  {
    var m := ApvModel(exp);
    if Validate(s, p0).None? && solver(m, s, p0, knobs).Some? && estimadores {
      var beta := solver(m, s, p0, knobs).value.beta;
      assert m(beta, s.dataX) == Apv(exp, beta, s.dataX);
    }
  }

  /** A fitted beta with a zero right width and a data point at its centre:
      APV is nan there, and the fit still succeeds with a nan residual and nan
      R² and R²_aj. */
  lemma ApvFitKeepsNan(exp: real -> real, solver: Solver, s: Sample, p0: seq<real>, knobs: Knobs, j: nat)
    requires Validate(s, p0).None? && solver(ApvModel(exp), s, p0, knobs).Some?
    requires var beta := solver(ApvModel(exp), s, p0, knobs).value.beta;
      |beta| == 7 && beta[4] == 0.0 && j < |s.dataX| && s.dataX[j] == beta[1]
    ensures var r := FitOdr(ApvModel(exp), solver, s, p0, true, knobs);
      && r.Ok? && j < |r.value.residuos.value| && r.value.residuos.value[j] == NonFinite
      && r.value.r2 == Some(NonFinite) && r.value.r2Aj == Some(NonFinite)
  {
    var beta := solver(ApvModel(exp), s, p0, knobs).value.beta;
    ApvFitOutcome(exp, solver, s, p0, true, knobs);
    ApvCentreZeroWidth(exp, beta, s.dataX, j);
    var r := FitOdr(ApvModel(exp), solver, s, p0, true, knobs);
    assert r.value.residuos.value[j] == Minus(s.dataY[j], Apv(exp, beta, s.dataX).value[j]);
    assert !AllFinite(r.value.residuos.value);
  }

  // ---------------------------------------------------------------------
  // fit_odr as the target of jackknife
  // ---------------------------------------------------------------------

  /** A solver that, for a given p0, always returns one beta and one sd_beta
      entry per initial parameter, as scipy.odr does. */
  ghost predicate KeepsParamCount(solver: Solver, model: ModelFn, p: seq<real>, knobs: Knobs)
  {
    forall t :: solver(model, t, p, knobs).Some? ==>
      |solver(model, t, p, knobs).value.beta| == |p| && |solver(model, t, p, knobs).value.sdBeta| == |p|
  }

  /** The jackknife of a `fit_odr` result over such a solver: every subset
      fit has one parameter per start value, so np.array never sees ragged
      rows; and with the default p0 (the receiver's own estimates) the
      aggregation broadcasts and reports one parameter per original. */
  lemma JackknifeOfFit(model: ModelFn, solver: Solver, self: FitResult, s: Sample, p0: seq<real>,
                       estimadores: bool, knobs: Knobs, excluir: seq<int>, incluir: seq<int>)
    requires KeepsParamCount(solver, model, StartParams(self, p0), knobs)
    ensures var r := JackknifeSpec(self, OdrTarget(model, solver), s, p0, estimadores, knobs, excluir, incluir);
      && (r.Err? ==> r.error != RaggedParams)
      && (r.Ok? ==> SameWidth(r.value.fits, |StartParams(self, p0)|))
      && (p0 == [] && r.Ok? ==> |r.value.parametros| == |self.parametros|)
      && (p0 == [] && r.Err? ==> r.error != ParamShapeMismatch)
  {
    var f := OdrTarget(model, solver);
    var p := StartParams(self, p0);
    var idx := Attempted(|s.dataX|, incluir, excluir);
    if !(excluir != [] && incluir != []) && !(p0 == [] && self.parametros == []) && idx != [] && Aligned(s) {
      AttemptedExactly(|s.dataX|, incluir, excluir);
      forall j | 0 <= j < |idx| && SubsetOutcome(f.fitOdr, s, p, estimadores, knobs, idx[j]).Ok?
        ensures |SubsetOutcome(f.fitOdr, s, p, estimadores, knobs, idx[j]).value.parametros| == |p|
      {
        var t := LeaveOneOut(s, idx[j]);
        assert SubsetOutcome(f.fitOdr, s, p, estimadores, knobs, idx[j]) == FitOdr(model, solver, t, p, estimadores, knobs);
        FitOdrParamCount(model, solver, t, p, estimadores, knobs);
      }
      SuccessesWidth(f.fitOdr, s, p, estimadores, knobs, idx, |p|);
    }
  }
}
