/** The result of one orthogonal-distance-regression fit (fittools/fit_result.py):
    its fields, their unpacking order, the layout of its text report, and the
    jackknife resampling procedure that re-runs a fit on every leave-one-out
    subset of the data. */
module FitResults {
  import opened Wrappers
  import opened Errors
  import opened Sequences

  /** A fitted parameter as the `uncertainties` package holds it. */
  datatype UFloat = UFloat(nominal: real, stdDev: real)

  /** A float statistic: a finite real, or the nan/inf numpy produces when a
      divisor is zero. */
  datatype Stat = Finite(v: real) | NonFinite

  /** The solver's `stopreason` attribute: one string, a list of strings, or
      anything else (missing, None, another type). */
  datatype StopReason = StopText(text: string) | StopList(items: seq<string>) | StopOther

  /** The part of the ODR solver's output object the model uses. */
  datatype SolverOutput = SolverOutput(beta: seq<real>, sdBeta: seq<real>, stopReason: StopReason)

  /** The FitResult dataclass; `odrOutput` is None when the object was built
      without a solver output. */
  datatype FitResult = FitResult(
    odrOutput: Option<SolverOutput>,
    parametros: seq<UFloat>,
    r2: Option<Stat>,
    r2Aj: Option<Stat>,
    residuos: Option<seq<Stat>>)

  /** What `__iter__` yields, in yield order. */
  type Unpacked = (seq<UFloat>, Option<Stat>, Option<Stat>, Option<seq<Stat>>, Option<SolverOutput>)

  /** The dataclass constructor called with the five unpacked values. */
  function FromUnpacked(t: Unpacked): FitResult
  {
    FitResult(t.4, t.0, t.1, t.2, t.3)
  }

  /** `__iter__`: parametros, R2, R2_aj, residuos, ODR_output, in that order.
      Unpacking and rebuilding gives back the same result, in both directions,
      so the five yielded values are exactly the five fields. */
  function Iter(fr: FitResult): (t: Unpacked)
    ensures FromUnpacked(t) == fr
    ensures t.0 == fr.parametros && t.4 == fr.odrOutput
  {
    (fr.parametros, fr.r2, fr.r2Aj, fr.residuos, fr.odrOutput)
  }

  lemma IterOfRebuilt(t: Unpacked)
    ensures Iter(FromUnpacked(t)) == t
  {
  }

  function Nominals(ps: seq<UFloat>): (r: seq<real>)
    ensures |r| == |ps|
    ensures forall k :: 0 <= k < |ps| ==> r[k] == ps[k].nominal
  {
    seq(|ps|, k requires 0 <= k < |ps| => ps[k].nominal)
  }

  // ---------------------------------------------------------------------
  // The text report (__str__)
  // ---------------------------------------------------------------------

  /** The number formats of the report (`.4g`, `.2g`, `.4f`); the digits they
      render are not modelled. */
  datatype Formatter = Formatter(sig4: real -> string, sig2: real -> string, fixed4: Stat -> string)

  const Border: string := "################################"
  const Title: string := "####  Resultado del ajuste  ####"
  const Indent: string := "      - "
  const ParamsHeader: string := "* Par\U{E1}metros:"
  const StopHeader: string := "* Motivo(s) de finalizaci\U{F3}n:"

  /** Decimal rendering of a natural number. */
  function NatToString(n: nat): (s: string)
    ensures |s| > 0
    ensures forall i :: 0 <= i < |s| ==> '0' <= s[i] <= '9'
  {
    var d := ['0', '1', '2', '3', '4', '5', '6', '7', '8', '9'][n % 10];
    if n < 10 then [d] else NatToString(n / 10) + [d]
  }

  /** "\n".join(ls) */
  function JoinLines(ls: seq<string>): string
  {
    if ls == [] then "" else if |ls| == 1 then ls[0] else ls[0] + "\n" + JoinLines(ls[1..])
  }

  function ParamLine(fmt: Formatter, i: nat, p: UFloat): string
  {
    Indent + "p" + NatToString(i + 1) + " = " + fmt.sig4(p.nominal) + " \U{B1} " + fmt.sig2(p.stdDev)
  }

  function ParamLines(fmt: Formatter, ps: seq<UFloat>): (ls: seq<string>)
    ensures |ls| == |ps|
  {
    seq(|ps|, i requires 0 <= i < |ps| => ParamLine(fmt, i, ps[i]))
  }

  function R2Text(fmt: Formatter, r2: Option<Stat>): string
  {
    match r2
    case None => "R\U{B2} = N/A"
    case Some(v) => "R\U{B2} = " + fmt.fixed4(v)
  }

  function R2AjText(fmt: Formatter, r2Aj: Option<Stat>): string
  {
    match r2Aj
    case None => "R\U{B2} ajustado = N/A"
    case Some(v) => "R\U{B2} ajustado = " + fmt.fixed4(v)
  }

  /** The stop-reason lines: one per list entry, one for a string, one "N/A"
      line for anything else (including a result with no solver output). */
  function StopLines(o: Option<SolverOutput>): (ls: seq<string>)
    ensures o.Some? && o.value.stopReason.StopList? ==> |ls| == |o.value.stopReason.items|
    ensures o.Some? && o.value.stopReason.StopText? ==> ls == [Indent + o.value.stopReason.text]
    ensures o.None? || o.value.stopReason.StopOther? ==> ls == [Indent + "N/A"]
  {
    match o
    case None => [Indent + "N/A"]
    case Some(out) =>
      match out.stopReason
      case StopList(items) => seq(|items|, i requires 0 <= i < |items| => Indent + items[i])
      case StopText(t) => [Indent + t]
      case StopOther => [Indent + "N/A"]
  }

  /** `__str__` assembled the way the source builds it: the parameter and
      stop-reason lines are "\n".join-ed, `content` is one f-string whose six
      pieces are separated by newlines, and the report is the f-string that
      frames `content` between borders and the title. */
  function Report(fr: FitResult, fmt: Formatter): string
  {
    var paramsLines := JoinLines(ParamLines(fmt, fr.parametros));
    var stopLines := JoinLines(StopLines(fr.odrOutput));
    var content := JoinLines([ParamsHeader, paramsLines, "* " + R2Text(fmt, fr.r2),
                              "* " + R2AjText(fmt, fr.r2Aj), StopHeader, stopLines]);
    JoinLines([Border, Title, Border, content, Border])
  }

  /** An empty block still contributes one (empty) line to the report. */
  function Block(ls: seq<string>): (b: seq<string>)
    ensures |b| == if ls == [] then 1 else |ls|
  {
    if ls == [] then [""] else ls
  }

  /** The report as a flat list of lines. */
  function ReportLines(fr: FitResult, fmt: Formatter): seq<string>
  {
    [Border, Title, Border, ParamsHeader]
    + Block(ParamLines(fmt, fr.parametros))
    + ["* " + R2Text(fmt, fr.r2), "* " + R2AjText(fmt, fr.r2Aj), StopHeader]
    + Block(StopLines(fr.odrOutput))
    + [Border]
  }

  lemma {:induction false} JoinLinesCons(x: string, rest: seq<string>)
    requires rest != []
    ensures JoinLines([x] + rest) == x + "\n" + JoinLines(rest)
  {
    assert ([x] + rest)[1..] == rest;
  }

  lemma {:induction false} JoinLinesAppend(a: seq<string>, b: seq<string>)
    requires a != [] && b != []
    ensures JoinLines(a + b) == JoinLines(a) + "\n" + JoinLines(b)
  {
    if |a| == 1 {
      assert a + b == [a[0]] + b;
    } else {
      assert (a + b)[1..] == a[1..] + b;
      JoinLinesAppend(a[1..], b);
    }
  }

  /** Joining a block that was itself joined is joining its lines in place. */
  lemma FlattenJoin(a: seq<string>, m: seq<string>, c: seq<string>)
    requires a != [] && m != [] && c != []
    ensures JoinLines(a + [JoinLines(m)] + c) == JoinLines(a + m + c)
  {
    assert a + [JoinLines(m)] + c == a + ([JoinLines(m)] + c);
    assert a + m + c == a + (m + c);
    JoinLinesAppend(a, [JoinLines(m)] + c);
    JoinLinesCons(JoinLines(m), c);
    JoinLinesAppend(a, m + c);
    JoinLinesAppend(m, c);
  }

  lemma JoinLinesBlock(ls: seq<string>)
    ensures JoinLines(Block(ls)) == JoinLines(ls)
  {
  }

  /** The nested report is exactly the flat line list joined by newlines: the
      header, one line per parameter (an empty line when there are none), the
      two R² lines, the stop-reason header and lines, the closing border. */
  lemma ReportIsJoinedLines(fr: FitResult, fmt: Formatter)
    ensures Report(fr, fmt) == JoinLines(ReportLines(fr, fmt))
  {
    var pl := ParamLines(fmt, fr.parametros);
    var sl := StopLines(fr.odrOutput);
    var p := Block(pl);
    var st := Block(sl);
    var r2l := "* " + R2Text(fmt, fr.r2);
    var r2ajl := "* " + R2AjText(fmt, fr.r2Aj);
    var inner := [ParamsHeader, JoinLines(pl), r2l, r2ajl, StopHeader, JoinLines(sl)];
    JoinLinesBlock(pl);
    JoinLinesBlock(sl);
    // the frame around `content`
    assert [Border, Title, Border, JoinLines(inner), Border]
        == [Border, Title, Border] + [JoinLines(inner)] + [Border];
    FlattenJoin([Border, Title, Border], inner, [Border]);
    // the parameter block
    var a1 := [Border, Title, Border, ParamsHeader];
    var c1 := [r2l, r2ajl, StopHeader, JoinLines(st), Border];
    assert [Border, Title, Border] + inner + [Border] == a1 + [JoinLines(p)] + c1;
    FlattenJoin(a1, p, c1);
    // the stop-reason block
    var a2 := a1 + p + [r2l, r2ajl, StopHeader];
    assert a1 + p + c1 == a2 + [JoinLines(st)] + [Border];
    FlattenJoin(a2, st, [Border]);
    assert ReportLines(fr, fmt) == a2 + st + [Border];
  }

  /** Where each part of the report sits in the line list. */
  function ParamsCount(fr: FitResult): nat
  {
    if fr.parametros == [] then 1 else |fr.parametros|
  }

  /** The report has a fixed header, one line per parameter (one empty line
      when there are none), three fixed lines, the stop-reason lines and the
      closing border. */
  lemma ReportLineCount(fr: FitResult, fmt: Formatter)
    ensures |ReportLines(fr, fmt)| == 8 + ParamsCount(fr) + |Block(StopLines(fr.odrOutput))|
  {
  }

  /** Line 4+i is the "p{i+1}" line of parameter i, so the labels follow the
      fit order and are numbered from 1. */
  lemma ReportParamLine(fr: FitResult, fmt: Formatter, i: nat)
    requires i < |fr.parametros|
    ensures ReportLines(fr, fmt)[4 + i] ==
              Indent + "p" + NatToString(i + 1) + " = " + fmt.sig4(fr.parametros[i].nominal)
              + " \U{B1} " + fmt.sig2(fr.parametros[i].stdDev)
  {
    var ls := ReportLines(fr, fmt);
    var head := [Border, Title, Border, ParamsHeader];
    var p := Block(ParamLines(fmt, fr.parametros));
    assert ls == head + (p + (ls[4 + |p|..]));
    assert ls[4 + i] == p[i];
  }

  /** The two R² lines follow the parameters and read "N/A" when absent. */
  lemma ReportR2Lines(fr: FitResult, fmt: Formatter)
    ensures var ls := ReportLines(fr, fmt);
      && |ls| > 6 + ParamsCount(fr)
      && (fr.r2.None? ==> ls[4 + ParamsCount(fr)] == "* R\U{B2} = N/A")
      && (fr.r2Aj.None? ==> ls[5 + ParamsCount(fr)] == "* R\U{B2} ajustado = N/A")
      && ls[6 + ParamsCount(fr)] == StopHeader
  {
    var ls := ReportLines(fr, fmt);
    var pc := ParamsCount(fr);
    assert |ls| > 6 + pc && ls[4 + pc] == "* " + R2Text(fmt, fr.r2)
        && ls[5 + pc] == "* " + R2AjText(fmt, fr.r2Aj) && ls[6 + pc] == StopHeader by {
      var head := [Border, Title, Border, ParamsHeader];
      var p := Block(ParamLines(fmt, fr.parametros));
      var mid := ["* " + R2Text(fmt, fr.r2), "* " + R2AjText(fmt, fr.r2Aj), StopHeader];
      var rest := Block(StopLines(fr.odrOutput)) + [Border];
      var hp := head + p;
      assert ls == hp + (mid + rest);
      assert |hp| == 4 + pc;
      assert ls[|hp|] == mid[0] && ls[|hp| + 1] == mid[1] && ls[|hp| + 2] == mid[2];
    }
    if fr.r2.None? {
      assert "* " + R2Text(fmt, fr.r2) == "* R\U{B2} = N/A";
    }
    if fr.r2Aj.None? {
      assert "* " + R2AjText(fmt, fr.r2Aj) == "* R\U{B2} ajustado = N/A";
    }
  }

  /** The stop-reason lines close the report, just before the border. */
  lemma ReportStopLines(fr: FitResult, fmt: Formatter, j: nat)
    requires j < |Block(StopLines(fr.odrOutput))|
    ensures ReportLines(fr, fmt)[7 + ParamsCount(fr) + j] == Block(StopLines(fr.odrOutput))[j]
  {
    var ls := ReportLines(fr, fmt);
    var head := [Border, Title, Border, ParamsHeader];
    var p := Block(ParamLines(fmt, fr.parametros));
    var mid := ["* " + R2Text(fmt, fr.r2), "* " + R2AjText(fmt, fr.r2Aj), StopHeader];
    var st := Block(StopLines(fr.odrOutput));
    assert ls == (head + p + mid) + (st + [Border]);
    assert |head + p + mid| == 7 + ParamsCount(fr);
  }

  // ---------------------------------------------------------------------
  // Jackknife
  // ---------------------------------------------------------------------

  /** The solver tuning knobs, passed through unchanged (None = solver default). */
  datatype Knobs = Knobs(sstol: Option<real>, partol: Option<real>, maxit: Option<int>, iprint: Option<int>)

  /** A data set: x, y and the optional per-point uncertainties. */
  datatype Sample = Sample(dataX: seq<real>, dataY: seq<real>, errX: Option<seq<real>>, errY: Option<seq<real>>)

  /** The arguments of one `fit_odr` call. */
  datatype FitCall = FitCall(sample: Sample, p0: seq<real>, estimadores: bool, knobs: Knobs)

  /** The collaborator jackknife re-fits with: an object with a callable
      `fit_odr` (which may raise), or one without. */
  datatype Target = Fittable(fitOdr: FitCall -> Result<FitResult, Error>) | WithoutFitOdr

  /** One jackknife parameter: the bias-corrected estimate and the variance
      whose square root the source reports as its standard deviation. */
  datatype JackParam = JackParam(estimate: real, variance: real)

  datatype JackknifeResult = JackknifeResult(parametros: seq<JackParam>, fits: seq<FitResult>)

  /** Every array that is indexed with the length-n mask has length n. */
  predicate Aligned(s: Sample)
  {
    && |s.dataY| == |s.dataX|
    && (s.errX.Some? ==> |s.errX.value| == |s.dataX|)
    && (s.errY.Some? ==> |s.errY.value| == |s.dataX|)
  }

  /** The index policy: inside `incluir` when it is given, and not in `excluir`. */
  predicate Admitted(i: nat, incluir: seq<int>, excluir: seq<int>)
  {
    (incluir == [] || i in incluir) && i !in excluir
  }

  /** The indices below k the loop attempts, in increasing order. */
  function Attempted(k: nat, incluir: seq<int>, excluir: seq<int>): seq<nat>
  {
    if k == 0 then []
    else Attempted(k - 1, incluir, excluir) + (if Admitted(k - 1, incluir, excluir) then [k - 1] else [])
  }

  /** The attempted indices are exactly the admitted ones in [0, k), strictly
      increasing. */
  lemma {:induction false} AttemptedExactly(k: nat, incluir: seq<int>, excluir: seq<int>)
    ensures forall i: nat :: i in Attempted(k, incluir, excluir) <==> i < k && Admitted(i, incluir, excluir)
    ensures forall a, b :: 0 <= a < b < |Attempted(k, incluir, excluir)| ==>
              Attempted(k, incluir, excluir)[a] < Attempted(k, incluir, excluir)[b]
    ensures |Attempted(k, incluir, excluir)| <= k
    ensures InRange(Attempted(k, incluir, excluir), k)
  {
    if k > 0 {
      AttemptedExactly(k - 1, incluir, excluir);
      var a := Attempted(k - 1, incluir, excluir);
      assert forall j :: 0 <= j < |a| ==> a[j] < k - 1 by {
        forall j | 0 <= j < |a| ensures a[j] < k - 1 {
          assert a[j] in a;
        }
      }
    }
  }

  /** With no policy, every index is attempted. */
  lemma {:induction false} AttemptedAll(k: nat)
    ensures Attempted(k, [], []) == seq(k, i => i)
  {
    if k > 0 {
      AttemptedAll(k - 1);
    }
  }

  /** The data with exactly index i removed from every array. */
  function LeaveOneOut(s: Sample, i: nat): (t: Sample)
    requires Aligned(s) && i < |s.dataX|
    ensures Aligned(t) && |t.dataX| == |s.dataX| - 1
  {
    Sample(
      RemoveAt(s.dataX, i),
      RemoveAt(s.dataY, i),
      if s.errX.Some? then Some(RemoveAt(s.errX.value, i)) else None,
      if s.errY.Some? then Some(RemoveAt(s.errY.value, i)) else None)
  }

  /** The outcome of the subset fit that leaves index i out. */
  function SubsetOutcome(fit: FitCall -> Result<FitResult, Error>, s: Sample, p0: seq<real>,
                         estimadores: bool, knobs: Knobs, i: nat): Result<FitResult, Error>
    requires Aligned(s) && i < |s.dataX|
  {
    fit(FitCall(LeaveOneOut(s, i), p0, estimadores, knobs))
  }

  predicate InRange(idx: seq<nat>, n: nat)
  {
    forall j :: 0 <= j < |idx| ==> idx[j] < n
  }

  /** The successful subset fits over idx, in the order of idx; failures are
      skipped. */
  function Successes(fit: FitCall -> Result<FitResult, Error>, s: Sample, p0: seq<real>,
                     estimadores: bool, knobs: Knobs, idx: seq<nat>): (fits: seq<FitResult>)
    requires Aligned(s) && InRange(idx, |s.dataX|)
    ensures |fits| <= |idx|
  {
    if idx == [] then []
    else
      var before := Successes(fit, s, p0, estimadores, knobs, idx[..|idx| - 1]);
      match SubsetOutcome(fit, s, p0, estimadores, knobs, idx[|idx| - 1])
      case Ok(fr) => before + [fr]
      case Err(_) => before
  }

  /** Attempting one more index extends the successes by its fit when that
      fit succeeds, and leaves them unchanged otherwise. */
  lemma SuccessesSnoc(fit: FitCall -> Result<FitResult, Error>, s: Sample, p0: seq<real>,
                      estimadores: bool, knobs: Knobs, idx: seq<nat>, i: nat)
    requires Aligned(s) && InRange(idx, |s.dataX|) && i < |s.dataX|
    ensures InRange(idx + [i], |s.dataX|)
    ensures Successes(fit, s, p0, estimadores, knobs, idx + [i]) ==
            (if SubsetOutcome(fit, s, p0, estimadores, knobs, i).Ok?
             then Successes(fit, s, p0, estimadores, knobs, idx) + [SubsetOutcome(fit, s, p0, estimadores, knobs, i).value]
             else Successes(fit, s, p0, estimadores, knobs, idx))
  {
    assert (idx + [i])[..|idx|] == idx;
  }

  /** An admitted index below k makes the attempted list non-empty. */
  lemma AttemptedNonEmpty(k: nat, i: nat, incluir: seq<int>, excluir: seq<int>)
    requires i < k && Admitted(i, incluir, excluir)
    ensures Attempted(k, incluir, excluir) != []
  {
    AttemptedExactly(k, incluir, excluir);
    assert i in Attempted(k, incluir, excluir);
  }

  /** When no subset fit fails, the i-th success is the fit leaving idx[i] out. */
  lemma {:induction false} SuccessesAllOk(fit: FitCall -> Result<FitResult, Error>, s: Sample, p0: seq<real>,
                                          estimadores: bool, knobs: Knobs, idx: seq<nat>)
    requires Aligned(s) && InRange(idx, |s.dataX|)
    requires forall j :: 0 <= j < |idx| ==> SubsetOutcome(fit, s, p0, estimadores, knobs, idx[j]).Ok?
    ensures |Successes(fit, s, p0, estimadores, knobs, idx)| == |idx|
    ensures forall j :: 0 <= j < |idx| ==>
              Successes(fit, s, p0, estimadores, knobs, idx)[j] == SubsetOutcome(fit, s, p0, estimadores, knobs, idx[j]).value
  {
    if idx != [] {
      SuccessesAllOk(fit, s, p0, estimadores, knobs, idx[..|idx| - 1]);
    }
  }

  /** Nominal values of parameter k across the subset fits. */
  function Column(fits: seq<FitResult>, k: nat): (c: seq<real>)
    requires forall j :: 0 <= j < |fits| ==> k < |fits[j].parametros|
    ensures |c| == |fits|
  {
    seq(|fits|, j requires 0 <= j < |fits| => fits[j].parametros[k].nominal)
  }

  predicate SameWidth(fits: seq<FitResult>, width: nat)
  {
    forall j :: 0 <= j < |fits| ==> |fits[j].parametros| == width
  }

  /** numpy broadcasting of two one-dimensional shapes: equal lengths, or
      one of them 1. */
  predicate Broadcastable(a: nat, b: nat)
  {
    a == b || a == 1 || b == 1
  }

  /** The length of the broadcast result: a length-1 side takes the other
      side's length (even 0). */
  function BroadcastLen(a: nat, b: nat): nat
    requires Broadcastable(a, b)
  {
    if a == 1 then b else a
  }

  /** The number of jackknife parameters: `zip(jack, stds)` stops at the
      shorter of the broadcast estimate and the per-column deviations. */
  function JackCount(orig: nat, width: nat): nat
    requires Broadcastable(orig, width)
  {
    var l := BroadcastLen(orig, width);
    if l <= width then l else width
  }

  /** The aggregation formulas for parameter k, with n the FULL sample size and
      the original estimate broadcast when there is a single one:
      estimate = n*orig_k - (n-1)*mean_k and
      variance = (n-1)/n * sum over the fits of (theta_k - mean_k)^2. */
  function JackParamAt(orig: seq<real>, n: nat, fits: seq<FitResult>, k: nat): JackParam
    requires n > 0 && |fits| > 0 && SameWidth(fits, |fits[0].parametros|)
    requires k < |fits[0].parametros| && (|orig| == 1 || k < |orig|)
  {
    var col := Column(fits, k);
    var mean := Mean(col);
    var o := if |orig| == 1 then orig[0] else orig[k];
    JackParam((n as real) * o - ((n - 1) as real) * mean,
              ((n - 1) as real) / (n as real) * SumSqDev(col, mean))
  }

  /** The numpy aggregation. `np.array` of the subset parameter lists raises
      unless they all have one width w; `n * orig - (n-1) * medias` raises
      unless |orig| and w broadcast; otherwise zip pairs the broadcast
      estimates with the w deviations. */
  function Aggregate(orig: seq<real>, n: nat, fits: seq<FitResult>): (r: Result<JackknifeResult, Error>)
    requires n > 0 && |fits| > 0
    ensures var w := |fits[0].parametros|;
      r.Ok? <==> SameWidth(fits, w) && Broadcastable(|orig|, w)
    ensures r.Err? ==> (r.error == RaggedParams <==> !SameWidth(fits, |fits[0].parametros|))
    ensures r.Err? ==> (r.error == RaggedParams || r.error == ParamShapeMismatch) && ExceptionClassOf(r.error) == ValueError
    ensures r.Ok? ==> r.value.fits == fits
    // widths that agree give one parameter per original; a single original
    // is broadcast over the w columns; a single column meets only the first
    // original in zip
    ensures r.Ok? && |orig| == |fits[0].parametros| ==> |r.value.parametros| == |orig|
    ensures r.Ok? && |orig| == 1 ==> |r.value.parametros| == |fits[0].parametros|
    ensures r.Ok? && |fits[0].parametros| == 1 && |orig| != 1 ==>
              |r.value.parametros| == (if |orig| == 0 then 0 else 1)
    ensures r.Ok? ==> forall k :: 0 <= k < |r.value.parametros| ==> r.value.parametros[k].variance >= 0.0
  {
    var w := |fits[0].parametros|;
    if !SameWidth(fits, w) then Err(RaggedParams)
    else if !Broadcastable(|orig|, w) then Err(ParamShapeMismatch)
    else
      var m := JackCount(|orig|, w);
      var ps := seq(m, k requires 0 <= k < m => JackParamAt(orig, n, fits, k));
      assert forall k :: 0 <= k < m ==> ps[k].variance >= 0.0 by {
        forall k | 0 <= k < m ensures ps[k].variance >= 0.0 {
          var col := Column(fits, k);
          var ss := SumSqDev(col, Mean(col));
          assert ((n - 1) as real) / (n as real) >= 0.0;
          assert ps[k].variance == ((n - 1) as real) / (n as real) * ss;
        }
      }
      Ok(JackknifeResult(ps, fits))
  }

  /** Subset fits that all agree on parameter k give it zero variance, and
      the estimate n*orig_k - (n-1)*c (orig_0 when a single original is
      broadcast). */
  lemma AggregateAgreeing(orig: seq<real>, n: nat, fits: seq<FitResult>, k: nat, c: real)
    requires n > 0 && |fits| > 0 && Aggregate(orig, n, fits).Ok?
    requires k < |Aggregate(orig, n, fits).value.parametros|
    requires forall j :: 0 <= j < |fits| ==> k < |fits[j].parametros| && fits[j].parametros[k].nominal == c
    ensures Aggregate(orig, n, fits).value.parametros[k] ==
            JackParam((n as real) * (if |orig| == 1 then orig[0] else orig[k]) - ((n - 1) as real) * c, 0.0)
  {
    var col := Column(fits, k);
    MeanConstant(col, c);
    SumSqDevConstant(col, c);
  }

  /** Subset fits that each have w parameters collect into fits of width w. */
  lemma {:induction false} SuccessesWidth(fit: FitCall -> Result<FitResult, Error>, s: Sample, p0: seq<real>,
                                          estimadores: bool, knobs: Knobs, idx: seq<nat>, w: nat)
    requires Aligned(s) && InRange(idx, |s.dataX|)
    requires forall j :: 0 <= j < |idx| && SubsetOutcome(fit, s, p0, estimadores, knobs, idx[j]).Ok? ==>
               |SubsetOutcome(fit, s, p0, estimadores, knobs, idx[j]).value.parametros| == w
    ensures SameWidth(Successes(fit, s, p0, estimadores, knobs, idx), w)
  {
    if idx != [] {
      SuccessesWidth(fit, s, p0, estimadores, knobs, idx[..|idx| - 1], w);
    }
  }

  /** The subset fits of the loop: an IndexError at the first attempted index
      when an array does not match the mask's length, otherwise the successful
      fits over the attempted indices in index order. */
  function SubsetFits(fit: FitCall -> Result<FitResult, Error>, s: Sample, p0: seq<real>, estimadores: bool,
                      knobs: Knobs, excluir: seq<int>, incluir: seq<int>): Result<seq<FitResult>, Error>
  {
    var idx := Attempted(|s.dataX|, incluir, excluir);
    if idx == [] then Ok([])
    else if !Aligned(s) then Err(MaskLengthMismatch)
    else
      AttemptedExactly(|s.dataX|, incluir, excluir);
      Ok(Successes(fit, s, p0, estimadores, knobs, idx))
  }

  /** The jackknife's p0: the given one, or the nominal values of the receiver. */
  function StartParams(self: FitResult, p0: seq<real>): seq<real>
  {
    if p0 == [] then Nominals(self.parametros) else p0
  }

  /** The whole jackknife as a function of its inputs: argument checks first,
      then the leave-one-out fits over the attempted indices, then the
      aggregation. */
  function JackknifeSpec(self: FitResult, f: Target, s: Sample, p0: seq<real>, estimadores: bool,
                         knobs: Knobs, excluir: seq<int>, incluir: seq<int>): Result<JackknifeResult, Error>
  {
    if excluir != [] && incluir != [] then Err(IncludeAndExclude)
    else if f.WithoutFitOdr? then Err(NotFittable)
    else if p0 == [] && self.parametros == [] then Err(NoOriginalParams)
    else
      match SubsetFits(f.fitOdr, s, StartParams(self, p0), estimadores, knobs, excluir, incluir)
      case Err(e) => Err(e)
      case Ok(fits) =>
        if fits == [] then Err(NoSuccessfulFit)
        else
          assert 0 < |s.dataX| by { AttemptedExactly(|s.dataX|, incluir, excluir); }
          Aggregate(Nominals(self.parametros), |s.dataX|, fits)
  }

  /** The argument checks come first, in source order, each with its Python
      exception class, whatever the target's fits would do. */
  lemma JackknifeArgumentChecks(self: FitResult, f: Target, s: Sample, p0: seq<real>, estimadores: bool,
                                knobs: Knobs, excluir: seq<int>, incluir: seq<int>)
    ensures var r := JackknifeSpec(self, f, s, p0, estimadores, knobs, excluir, incluir);
      && (excluir != [] && incluir != [] ==>
            r == Err(IncludeAndExclude) && ExceptionClassOf(r.error) == ValueError)
      && (!(excluir != [] && incluir != []) && f.WithoutFitOdr? ==>
            r == Err(NotFittable) && ExceptionClassOf(r.error) == TypeError)
      && (!(excluir != [] && incluir != []) && f.Fittable? && p0 == [] && self.parametros == [] ==>
            r == Err(NoOriginalParams) && ExceptionClassOf(r.error) == ValueError)
      && (r.Err? && r.error == NoSuccessfulFit ==> ExceptionClassOf(r.error) == RuntimeError)
  {
  }

  /** A successful jackknife keeps the successful subset fits over the
      attempted indices, in index order (at least one, at most one per index),
      all of one width w that broadcasts against the original parameters, and
      reports one parameter per original parameter when w agrees with them. */
  lemma JackknifeSuccess(self: FitResult, f: Target, s: Sample, p0: seq<real>, estimadores: bool,
                         knobs: Knobs, excluir: seq<int>, incluir: seq<int>)
    requires JackknifeSpec(self, f, s, p0, estimadores, knobs, excluir, incluir).Ok?
    ensures var r := JackknifeSpec(self, f, s, p0, estimadores, knobs, excluir, incluir).value;
      var idx := Attempted(|s.dataX|, incluir, excluir);
      && f.Fittable? && Aligned(s) && InRange(idx, |s.dataX|)
      && r.fits == Successes(f.fitOdr, s, StartParams(self, p0), estimadores, knobs, idx)
      && 0 < |r.fits| <= |idx|
      && SameWidth(r.fits, |r.fits[0].parametros|)
      && Broadcastable(|self.parametros|, |r.fits[0].parametros|)
      && (|r.fits[0].parametros| == |self.parametros| ==> |r.parametros| == |self.parametros|)
  {
    AttemptedExactly(|s.dataX|, incluir, excluir);
  }

  /** Lines 153-157 of the loop body: set mask[i] to False, slice every array
      through the mask, and set mask[i] back to True. */
  method MaskedSubset(s: Sample, mask: array<bool>, i: nat) returns (t: Sample)
    requires Aligned(s) && mask.Length == |s.dataX| && i < mask.Length
    requires forall j :: 0 <= j < mask.Length ==> mask[j]
    modifies mask
    ensures forall j :: 0 <= j < mask.Length ==> mask[j]
    ensures t == LeaveOneOut(s, i)
  {
    mask[i] := false;
    assert mask[..] == AllTrueExcept(mask.Length, i);
    var xi := Select(s.dataX, mask[..]);
    var yi := Select(s.dataY, mask[..]);
    var exi := if s.errX.Some? then Some(Select(s.errX.value, mask[..])) else None;
    var eyi := if s.errY.Some? then Some(Select(s.errY.value, mask[..])) else None;
    mask[i] := true;
    SelectAllTrueExcept(s.dataX, i);
    SelectAllTrueExcept(s.dataY, i);
    if s.errX.Some? { SelectAllTrueExcept(s.errX.value, i); }
    if s.errY.Some? { SelectAllTrueExcept(s.errY.value, i); }
    t := Sample(xi, yi, exi, eyi);
  }

  /** One attempted index of the loop: the attempted list grows by i, and the
      collected fits by the fit leaving i out when that fit succeeds. */
  lemma CollectStep(fit: FitCall -> Result<FitResult, Error>, s: Sample, p: seq<real>, estimadores: bool,
                    knobs: Knobs, excluir: seq<int>, incluir: seq<int>, i: nat, fits: seq<FitResult>)
    requires Aligned(s) && i < |s.dataX| && Admitted(i, incluir, excluir)
    requires InRange(Attempted(i, incluir, excluir), |s.dataX|)
    requires Attempted(i, incluir, excluir) == [] ==> fits == []
    requires Attempted(i, incluir, excluir) != [] ==>
               fits == Successes(fit, s, p, estimadores, knobs, Attempted(i, incluir, excluir))
    ensures Attempted(i + 1, incluir, excluir) == Attempted(i, incluir, excluir) + [i]
    ensures InRange(Attempted(i + 1, incluir, excluir), |s.dataX|)
    ensures var o := SubsetOutcome(fit, s, p, estimadores, knobs, i);
      (if o.Ok? then fits + [o.value] else fits) ==
        Successes(fit, s, p, estimadores, knobs, Attempted(i + 1, incluir, excluir))
  {
    var before := Attempted(i, incluir, excluir);
    assert before == [] ==> Successes(fit, s, p, estimadores, knobs, before) == [];
    SuccessesSnoc(fit, s, p, estimadores, knobs, before, i);
  }

  /** The loop of `FitResult.jackknife` (lines 139-164): the mask starts all
      True, each attempted index is masked out, sliced and restored, and the
      successful fits are appended to `fits`. */
  method CollectFits(fit: FitCall -> Result<FitResult, Error>, s: Sample, p: seq<real>, estimadores: bool,
                     knobs: Knobs, excluir: seq<int>, incluir: seq<int>)
    returns (r: Result<seq<FitResult>, Error>)
    ensures r == SubsetFits(fit, s, p, estimadores, knobs, excluir, incluir)
  {
    var n := |s.dataX|;
    var fits: seq<FitResult> := [];
    var mask := new bool[n](_ => true);
    for i := 0 to n
      invariant forall j :: 0 <= j < n ==> mask[j]
      invariant InRange(Attempted(i, incluir, excluir), n)
      invariant Attempted(i, incluir, excluir) == [] ==> fits == []
      invariant Attempted(i, incluir, excluir) != [] ==>
                  Aligned(s) && fits == Successes(fit, s, p, estimadores, knobs, Attempted(i, incluir, excluir))
    {
      ghost var before := Attempted(i, incluir, excluir);
      if incluir != [] && i !in incluir {
        assert Attempted(i + 1, incluir, excluir) == before;
        continue;
      }
      if i in excluir {
        assert Attempted(i + 1, incluir, excluir) == before;
        continue;
      }
      assert Attempted(i + 1, incluir, excluir) == before + [i];
      if |s.dataY| != n
        || (s.errX.Some? && |s.errX.value| != n)
        || (s.errY.Some? && |s.errY.value| != n) {
        AttemptedNonEmpty(n, i, incluir, excluir);
        return Err(MaskLengthMismatch);
      }
      var subset := MaskedSubset(s, mask, i);
      var outcome := fit(FitCall(subset, p, estimadores, knobs));
      CollectStep(fit, s, p, estimadores, knobs, excluir, incluir, i, fits);
      if outcome.Ok? {
        fits := fits + [outcome.value];
      }
    }
    r := Ok(fits);
  }

  /** `FitResult.jackknife`: the argument checks, the p0 default, the subset
      loop and the numpy aggregation. */
  method Jackknife(self: FitResult, f: Target, s: Sample, p0: seq<real>, estimadores: bool,
                   knobs: Knobs, excluir: seq<int>, incluir: seq<int>)
    returns (r: Result<JackknifeResult, Error>)
    ensures r == JackknifeSpec(self, f, s, p0, estimadores, knobs, excluir, incluir)
  {
    if excluir != [] && incluir != [] {
      return Err(IncludeAndExclude);
    }
    if f.WithoutFitOdr? {
      return Err(NotFittable);
    }
    var estOriginales := Nominals(self.parametros);
    var p := p0;
    if p0 == [] {
      if self.parametros == [] {
        return Err(NoOriginalParams);
      }
      p := estOriginales;
    }
    var collected := CollectFits(f.fitOdr, s, p, estimadores, knobs, excluir, incluir);
    if collected.Err? {
      return Err(collected.error);
    }
    var fits := collected.value;
    if fits == [] {
      return Err(NoSuccessfulFit);
    }
    AttemptedExactly(|s.dataX|, incluir, excluir);
    r := Aggregate(estOriginales, |s.dataX|, fits);
  }
}
