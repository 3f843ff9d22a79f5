// The configuration logic of the plotting helper: list adjustment, merging
// of default colour and font-size dictionaries over normalised keys, the
// object's post-initialisation, and the argument normalisation and per-axis
// settings of `render`. Drawing itself is not modelled.

module Graficos {
  import opened Wrappers
  import opened Errors
  import opened Sequences
  import opened Dicts
  import DataFrames

  // ----- _ajustar_lista -----

  /** The argument of `_ajustar_lista`: None, a single value (a number or a
      string, anything that is not a list, tuple or array) or a sequence. */
  datatype ListArg<T> = NoValue | Single(x: T) | Many(xs: seq<T>)

  /** `list(val)`, each item present. */
  function Somes<T>(xs: seq<T>): (r: seq<Option<T>>)
    ensures |r| == |xs| && forall i :: 0 <= i < |xs| ==> r[i] == Some(xs[i])
  {
    seq(|xs|, i requires 0 <= i < |xs| => Some(xs[i]))
  }

  /** `_ajustar_lista(val, longitud)`: None gives `longitud` Nones, a single
      value `longitud` copies of it, and a sequence its items cut to
      `longitud` or padded with None. A negative `longitud` follows Python's
      list repetition and slicing: no copies, or all but the last
      |longitud| items. */
  function AjustarLista<T>(val: ListArg<T>, longitud: int): (r: seq<Option<T>>)
    ensures longitud >= 0 ==> |r| == longitud
    ensures val.NoValue? ==> forall i :: 0 <= i < |r| ==> r[i] == None
    ensures val.Single? ==> forall i :: 0 <= i < |r| ==> r[i] == Some(val.x)
    ensures val.Many? ==> forall i :: 0 <= i < |r| ==> r[i] == if i < |val.xs| then Some(val.xs[i]) else None
    ensures longitud < 0 ==> |r| == if val.Many? && |val.xs| + longitud > 0 then |val.xs| + longitud else 0
  {
    match val
    case NoValue => Repeat(None, longitud)
    case Single(x) => Repeat(Some(x), longitud)
    case Many(xs) =>
      if |xs| < longitud then Somes(xs) + Repeat(None, longitud - |xs|)
      else if |xs| > longitud then Take(Somes(xs), longitud)
      else Somes(xs)
  }

  // ----- _merge_defaults -----

  /** A dictionary argument: None, a dict, or a value of some other type. */
  datatype Arg<V> = NoArg | DictArg(d: Dict<V>) | NotDict

  /** The items with their keys normalised, in order. */
  function Rekey<V>(d: Dict<V>): (ps: seq<(string, V)>)
    ensures |ps| == |d| && forall i :: 0 <= i < |d| ==> ps[i] == (DataFrames.NormStr(d[i].0), d[i].1)
  {
    seq(|d|, i requires 0 <= i < |d| => (DataFrames.NormStr(d[i].0), d[i].1))
  }

  /** `_merge_defaults(defaults, custom)`: None returns `defaults` unchanged,
      a value other than a dict gives NotADict, and a dict gives
      `{**defaults_norm, **custom_norm}`, both dicts rebuilt over normalised
      keys. */
  function MergeDefaults<V>(defaults: Dict<V>, custom: Arg<V>): (r: Result<Dict<V>, Error>)
    ensures custom.NoArg? ==> r == Ok(defaults)
    ensures r.Err? <==> custom.NotDict?
    ensures r.Err? ==> ExceptionClassOf(r.error) == ValueError
  {
    match custom
    case NoArg => Ok(defaults)
    case NotDict => Err(NotADict)
    case DictArg(c) =>
      var customNorm := Update([], Rekey(c));
      var defaultsNorm := Update([], Rekey(defaults));
      Ok(Update(Update([], defaultsNorm), customNorm))
  }

  /** With a dict, the merged keys are the normalised keys of both dicts. */
  lemma MergeKeys<V>(defaults: Dict<V>, c: Dict<V>, k: string)
    ensures k in KeysOf(MergeDefaults(defaults, DictArg(c)).value) <==>
      k in KeysOf(Rekey(defaults)) || k in KeysOf(Rekey(c))
  {
    var customNorm := Update([], Rekey(c));
    var defaultsNorm := Update([], Rekey(defaults));
    UpdateKeys(Update([], defaultsNorm), customNorm, k);
    CopyIsSame(defaultsNorm);
    UpdateKeys([], Rekey(defaults), k);
    UpdateKeys([], Rekey(c), k);
  }

  /** With a dict, a normalised key takes the custom value (the last custom
      item with that normalised key) and otherwise keeps the default (the
      last default item with that normalised key). */
  lemma MergeLookup<V>(defaults: Dict<V>, c: Dict<V>, k: string)
    ensures Lookup(MergeDefaults(defaults, DictArg(c)).value, k) ==
      if k in KeysOf(Rekey(c)) then LastValue(Rekey(c), k) else LastValue(Rekey(defaults), k)
  {
    var customNorm := Update([], Rekey(c));
    var defaultsNorm := Update([], Rekey(defaults));
    CopyIsSame(defaultsNorm);
    assert MergeDefaults(defaults, DictArg(c)).value == Update(defaultsNorm, customNorm);
    UpdateLookup(defaultsNorm, customNorm, k);
    UpdateKeys([], Rekey(c), k);
    UpdateLookup([], Rekey(c), k);
    UpdateLookup([], Rekey(defaults), k);
    LastValueOfDict(customNorm, k);
  }

  /** A default item whose key is already normalised and which the custom
      dict does not mention keeps its value. */
  lemma MergeKeepsDefault<V>(defaults: Dict<V>, c: Dict<V>, i: nat)
    requires Rekey(defaults) == defaults && i < |defaults| && defaults[i].0 !in KeysOf(Rekey(c))
    ensures Lookup(MergeDefaults(defaults, DictArg(c)).value, defaults[i].0) == Some(defaults[i].1)
  {
    MergeLookup(defaults, c, defaults[i].0);
    LastValueAt(defaults, i);
  }

  /** Keys that are already normalised are kept as they are. */
  lemma {:induction false} RekeyFixed<V>(d: Dict<V>)
    requires forall i :: 0 <= i < |d| ==> DataFrames.NormStr(d[i].0) == d[i].0
    ensures Rekey(d) == d
  {
    forall i | 0 <= i < |d|
      ensures Rekey(d)[i] == d[i]
    {
    }
  }

  // ----- the default dictionaries -----

  /** The colour defaults, both of the field and of `__post_init__`. */
  const DefaultColores: Dict<string> := [
    ("titulo", "#1F2020"), ("eje_x", "#1F2020"), ("eje_y", "#1F2020"),
    ("ticks", "#1F2020"), ("grilla", "#ACACAC"), ("fondo", "#FFFFFF")]

  /** The font-size defaults of `__post_init__`, which name the legend size
      "leyenda". */
  const DefaultFontsizes: Dict<int> := [
    ("titulo", 14), ("eje_x", 12), ("eje_y", 12), ("ticks", 10), ("leyenda", 10)]

  /** The font sizes a `Graficos` gets when none are passed, which name the
      legend size "label". */
  const FieldFontsizes: Dict<int> := [
    ("titulo", 14), ("eje_x", 12), ("eje_y", 12), ("ticks", 10), ("label", 10)]

  /** The default key names are already normalised. */
  lemma NameFixed(k: string)
    requires k == "titulo" || k == "eje_x" || k == "eje_y" || k == "ticks" ||
             k == "grilla" || k == "fondo" || k == "leyenda" || k == "label"
    ensures DataFrames.NormStr(k) == k
  {
    assert DataFrames.Canonical(k);
    DataFrames.NormStrFixesCanonical(k);
  }

  /** The default colour keys are already normalised. */
  lemma ColoresRekeyed()
    ensures Rekey(DefaultColores) == DefaultColores
  {
    forall i | 0 <= i < |DefaultColores|
      ensures DataFrames.NormStr(DefaultColores[i].0) == DefaultColores[i].0
    {
      NameFixed(DefaultColores[i].0);
    }
    RekeyFixed(DefaultColores);
  }

  /** The default font-size keys are already normalised. */
  lemma FontsizesRekeyed()
    ensures Rekey(DefaultFontsizes) == DefaultFontsizes
  {
    forall i | 0 <= i < |DefaultFontsizes|
      ensures DataFrames.NormStr(DefaultFontsizes[i].0) == DefaultFontsizes[i].0
    {
      NameFixed(DefaultFontsizes[i].0);
    }
    RekeyFixed(DefaultFontsizes);
  }

  /** After the merge, the colours hold at least the six default keys. */
  lemma ColoresKeys(custom: Arg<string>, k: string)
    requires !custom.NotDict? && k in KeysOf(DefaultColores)
    ensures k in KeysOf(MergeDefaults(DefaultColores, custom).value)
  {
    if custom.DictArg? {
      ColoresRekeyed();
      MergeKeys(DefaultColores, custom.d, k);
    }
  }

  /** After the merge, the font sizes hold exactly the five default keys and
      the normalised custom keys. */
  lemma FontsizesKeys(custom: Arg<int>, k: string)
    requires !custom.NotDict?
    ensures k in KeysOf(MergeDefaults(DefaultFontsizes, custom).value) <==>
      k in KeysOf(DefaultFontsizes) || (custom.DictArg? && k in KeysOf(Rekey(custom.d)))
  {
    if custom.DictArg? {
      FontsizesRekeyed();
      MergeKeys(DefaultFontsizes, custom.d, k);
    }
  }

  // ----- the Graficos object -----

  /** A horizontal `axis` entry of `limite_x`/`limite_y`: a number, a tuple
      of bounds, or None. */
  datatype LimEntry = Scalar(x: real) | Bounds(b: seq<real>) | NoBounds

  /** The legend-column argument: one number for every axis, or a list. */
  datatype LCols = LColsInt(n: int) | LColsList(items: seq<int>)

  /** What `render` applies to one axis: a legend (its columns and font
      size) and x and y limits, each only when given and truthy. */
  datatype Legend = Legend(ncols: int, fontsize: int)
  datatype AxisSetting = AxisSetting(legend: Option<Legend>, xlim: Option<LimEntry>, ylim: Option<LimEntry>)

  /** The key `render` reads the legend font size under. */
  const LegendKeyAsWritten := "label"
  /** The key the font-size defaults store the legend size under. */
  const LegendKey := "leyenda"

  /** `l_cols` after normalisation: a number is repeated once per column. */
  function NormLCols(l: LCols, columnas: int): (r: seq<int>)
    ensures l.LColsInt? ==> |r| == (if columnas < 0 then 0 else columnas) && forall i :: 0 <= i < |r| ==> r[i] == l.n
    ensures l.LColsList? ==> r == l.items
  {
    if l.LColsInt? then Repeat(l.n, columnas) else l.items
  }

  predicate AllScalar(xs: seq<LimEntry>)
  {
    forall i :: 0 <= i < |xs| ==> xs[i].Scalar?
  }

  /** The numbers of an all-numeric limit, as one tuple of bounds. */
  function ScalarValues(xs: seq<LimEntry>): (vs: seq<real>)
    requires AllScalar(xs)
    ensures |vs| == |xs| && forall i :: 0 <= i < |xs| ==> vs[i] == xs[i].x
  {
    seq(|xs|, i requires 0 <= i < |xs| => xs[i].x)
  }

  /** A limit after normalisation: one all-numeric tuple (an empty one
      included) is repeated once per column; any other value is kept. */
  function NormLimit(lim: Option<seq<LimEntry>>, columnas: int): (r: Option<seq<LimEntry>>)
    ensures r.Some? <==> lim.Some?
    ensures lim.Some? && AllScalar(lim.value) ==>
      |r.value| == (if columnas < 0 then 0 else columnas) &&
      forall i :: 0 <= i < |r.value| ==> r.value[i] == Bounds(ScalarValues(lim.value))
    ensures lim.Some? && !AllScalar(lim.value) ==> r == lim
  {
    if lim.Some? && AllScalar(lim.value) then Some(Repeat(Bounds(ScalarValues(lim.value)), columnas)) else lim
  }

  /** Python truthiness of a limit entry. */
  predicate Truthy(e: LimEntry)
  {
    match e
    case Scalar(x) => x != 0.0
    case Bounds(b) => |b| > 0
    case NoBounds => false
  }

  /** `limite[i]` when a limit is given: the entry when truthy, nothing when
      not, and IndexError past the end. */
  function LimitAt(lim: Option<seq<LimEntry>>, i: nat): (r: Result<Option<LimEntry>, Error>)
    ensures r.Err? <==> lim.Some? && i >= |lim.value|
    ensures r.Err? ==> r.error == ListIndexOutOfRange(i) && ExceptionClassOf(r.error) == IndexError
    ensures r.Ok? ==> (r.value.Some? <==> lim.Some? && Truthy(lim.value[i]))
    ensures r.Ok? && r.value.Some? ==> r.value.value == lim.value[i]
  {
    if lim.None? then Ok(None)
    else if i >= |lim.value| then Err(ListIndexOutOfRange(i))
    else if Truthy(lim.value[i]) then Ok(Some(lim.value[i]))
    else Ok(None)
  }

  /** The settings of axis i, checked in the order `render` reads them:
      `l_cols[i]`, the legend font size when a legend is drawn, then the x
      and the y limit. */
  function AxisAt(fontsizes: Dict<int>, key: string, lcols: seq<int>, limX: Option<seq<LimEntry>>,
                  limY: Option<seq<LimEntry>>, i: nat): (r: Result<AxisSetting, Error>)
    ensures r.Err? <==>
      (i >= |lcols| || (lcols[i] != 0 && key !in KeysOf(fontsizes)) || LimitAt(limX, i).Err? || LimitAt(limY, i).Err?)
    ensures r.Err? ==> (r.error == MissingKey(key) <==> i < |lcols| && lcols[i] != 0 && key !in KeysOf(fontsizes))
    ensures r.Err? && r.error != MissingKey(key) ==> r.error == ListIndexOutOfRange(i)
    ensures r.Ok? ==> (r.value.legend.Some? <==> lcols[i] != 0)
    ensures r.Ok? && r.value.legend.Some? ==> r.value.legend.value == Legend(lcols[i], Lookup(fontsizes, key).value)
    ensures r.Ok? ==> r.value.xlim == LimitAt(limX, i).value && r.value.ylim == LimitAt(limY, i).value
  {
    if i >= |lcols| then Err(ListIndexOutOfRange(i))
    else
      var legend :- if lcols[i] == 0 then Ok(None)
                    else if Lookup(fontsizes, key).None? then Err(MissingKey(key))
                    else Ok(Some(Legend(lcols[i], Lookup(fontsizes, key).value)));
      var xl :- LimitAt(limX, i);
      var yl :- LimitAt(limY, i);
      Ok(AxisSetting(legend, xl, yl))
  }

  /** The settings of axes 0 .. n-1, or the error of the first axis that
      fails. */
  function AxisSettings(fontsizes: Dict<int>, key: string, lcols: seq<int>, limX: Option<seq<LimEntry>>,
                        limY: Option<seq<LimEntry>>, n: nat): (r: Result<seq<AxisSetting>, Error>)
    ensures r.Ok? ==> |r.value| == n
    ensures r.Err? ==> r.error.ListIndexOutOfRange? || r.error == MissingKey(key)
  {
    if n == 0 then Ok([])
    else
      var prev :- AxisSettings(fontsizes, key, lcols, limX, limY, n - 1);
      var s :- AxisAt(fontsizes, key, lcols, limX, limY, n - 1);
      Ok(prev + [s])
  }

  /** Once an axis fails, every longer run fails with the same error. */
  lemma {:induction false} AxisSettingsErrPersists(fontsizes: Dict<int>, key: string, lcols: seq<int>,
                                                   limX: Option<seq<LimEntry>>, limY: Option<seq<LimEntry>>, i: nat, n: nat)
    requires i <= n && AxisSettings(fontsizes, key, lcols, limX, limY, i).Err?
    ensures AxisSettings(fontsizes, key, lcols, limX, limY, n) == AxisSettings(fontsizes, key, lcols, limX, limY, i)
  {
    if i < n {
      AxisSettingsErrPersists(fontsizes, key, lcols, limX, limY, i, n - 1);
    }
  }

  /** The per-axis loop of `render` as written: the legend font size is read
      under "label". */
  function RenderAsWritten(columnas: int, fontsizes: Dict<int>, axes: nat, lCols: LCols,
                           limiteX: Option<seq<LimEntry>>, limiteY: Option<seq<LimEntry>>): (r: Result<seq<AxisSetting>, Error>)
    ensures r.Ok? ==> |r.value| == axes
    ensures r.Err? ==> (r.error.ListIndexOutOfRange? && ExceptionClassOf(r.error) == IndexError) ||
                       (r.error == MissingKey(LegendKeyAsWritten) && ExceptionClassOf(r.error) == KeyError)
  {
    AxisSettings(fontsizes, LegendKeyAsWritten, NormLCols(lCols, columnas),
                 NormLimit(limiteX, columnas), NormLimit(limiteY, columnas), axes)
  }

  /** When every axis up to n succeeds, the settings are those of the
      axes, in order. */
  lemma {:induction false} AxisSettingsAll(fontsizes: Dict<int>, key: string, lcols: seq<int>,
                                           limX: Option<seq<LimEntry>>, limY: Option<seq<LimEntry>>, n: nat)
    requires forall i :: 0 <= i < n ==> AxisAt(fontsizes, key, lcols, limX, limY, i).Ok?
    ensures var r := AxisSettings(fontsizes, key, lcols, limX, limY, n);
      r.Ok? && forall i :: 0 <= i < n ==> r.value[i] == AxisAt(fontsizes, key, lcols, limX, limY, i).value
  {
    if n > 0 {
      AxisSettingsAll(fontsizes, key, lcols, limX, limY, n - 1);
    }
  }

  /** When the legend key is present, the only way the per-axis loop fails
      is a list shorter than the axes (IndexError). */
  lemma {:induction false} AxisSettingsOnlyIndexErrors(fontsizes: Dict<int>, key: string, lcols: seq<int>,
                                                       limX: Option<seq<LimEntry>>, limY: Option<seq<LimEntry>>, n: nat)
    requires key in KeysOf(fontsizes)
    ensures var r := AxisSettings(fontsizes, key, lcols, limX, limY, n);
      r.Err? ==> r.error.ListIndexOutOfRange? && ExceptionClassOf(r.error) == IndexError
  {
    var r := AxisSettings(fontsizes, key, lcols, limX, limY, n);
    assert r.Err? ==> r.error.ListIndexOutOfRange? by {
      if n > 0 {
        var prev := AxisSettings(fontsizes, key, lcols, limX, limY, n - 1);
        var a := AxisAt(fontsizes, key, lcols, limX, limY, n - 1);
        if prev.Err? {
          AxisSettingsOnlyIndexErrors(fontsizes, key, lcols, limX, limY, n - 1);
        } else if a.Err? {
          assert a.error == ListIndexOutOfRange(n - 1);
        }
      }
    }
  }

  /** The setting every axis gets from a single `l_cols` number and limits
      that are None or one numeric tuple. */
  function UniformSetting(fontsizes: Dict<int>, key: string, n: int,
                          limiteX: Option<seq<LimEntry>>, limiteY: Option<seq<LimEntry>>): (s: AxisSetting)
    requires key in KeysOf(fontsizes)
    requires limiteX.Some? ==> AllScalar(limiteX.value)
    requires limiteY.Some? ==> AllScalar(limiteY.value)
    ensures s.legend.Some? <==> n != 0
    ensures s.legend.Some? ==> s.legend.value == Legend(n, Lookup(fontsizes, key).value)
    ensures s.xlim.Some? <==> limiteX.Some? && |limiteX.value| > 0
    ensures s.xlim.Some? ==> s.xlim.value.Bounds? && s.xlim.value.b == ScalarValues(limiteX.value)
    ensures s.ylim.Some? <==> limiteY.Some? && |limiteY.value| > 0
    ensures s.ylim.Some? ==> s.ylim.value.Bounds? && s.ylim.value.b == ScalarValues(limiteY.value)
  {
    AxisSetting(
      if n == 0 then None else Some(Legend(n, Lookup(fontsizes, key).value)),
      if limiteX.Some? && |limiteX.value| > 0 then Some(Bounds(ScalarValues(limiteX.value))) else None,
      if limiteY.Some? && |limiteY.value| > 0 then Some(Bounds(ScalarValues(limiteY.value))) else None)
  }

  /** An integer `l_cols` and all-numeric limits are replicated to every
      column: with one axis per column, each axis gets the same legend
      columns and the same limits, and nothing fails. */
  lemma RenderReplicated(columnas: nat, fontsizes: Dict<int>, key: string, n: int,
                         limiteX: Option<seq<LimEntry>>, limiteY: Option<seq<LimEntry>>)
    requires key in KeysOf(fontsizes)
    requires limiteX.Some? ==> AllScalar(limiteX.value)
    requires limiteY.Some? ==> AllScalar(limiteY.value)
    ensures var r := AxisSettings(fontsizes, key, NormLCols(LColsInt(n), columnas),
                                  NormLimit(limiteX, columnas), NormLimit(limiteY, columnas), columnas);
      r.Ok? && |r.value| == columnas &&
      forall i :: 0 <= i < columnas ==> r.value[i] == UniformSetting(fontsizes, key, n, limiteX, limiteY)
  {
    var lcols := NormLCols(LColsInt(n), columnas);
    var limX := NormLimit(limiteX, columnas);
    var limY := NormLimit(limiteY, columnas);
    forall i | 0 <= i < columnas
      ensures AxisAt(fontsizes, key, lcols, limX, limY, i) == Ok(UniformSetting(fontsizes, key, n, limiteX, limiteY))
    {
    }
    AxisSettingsAll(fontsizes, key, lcols, limX, limY, columnas);
  }

  /** An `l_cols` list shorter than the axes, with no limits, fails with
      IndexError at the first axis past its end. */
  lemma RenderShortLCols(columnas: int, fontsizes: Dict<int>, key: string, items: seq<int>, axes: nat)
    requires key in KeysOf(fontsizes) && |items| < axes
    ensures AxisSettings(fontsizes, key, NormLCols(LColsList(items), columnas), None, None, axes) ==
      Err(ListIndexOutOfRange(|items|))
  {
    AxisSettingsAll(fontsizes, key, items, None, None, |items|);
    AxisSettingsErrPersists(fontsizes, key, items, None, None, |items| + 1, axes);
  }

  /** The legend-size key of the defaults is present after every successful
      merge, so the corrected loop never fails on it. */
  lemma LegendKeyPresent(custom: Arg<int>)
    requires !custom.NotDict?
    ensures LegendKey in KeysOf(MergeDefaults(DefaultFontsizes, custom).value)
  {
    FontsizesKeys(custom, LegendKey);
    assert KeysOf(DefaultFontsizes)[4] == LegendKey;
  }

  /** The dict `{"titulo": 20}`. */
  const TituloVeinte: Dict<int> := [("titulo", 20)]

  lemma TituloVeinteRekeyed()
    ensures Rekey(TituloVeinte) == TituloVeinte
    ensures "label" !in KeysOf(Rekey(TituloVeinte))
  {
    forall i | 0 <= i < |TituloVeinte|
      ensures DataFrames.NormStr(TituloVeinte[i].0) == TituloVeinte[i].0
    {
      NameFixed(TituloVeinte[i].0);
    }
    RekeyFixed(TituloVeinte);
    assert KeysOf(TituloVeinte) == ["titulo"];
  }

  /** The font-size defaults have no "label" key. */
  lemma LabelNotADefault()
    ensures LegendKeyAsWritten !in KeysOf(DefaultFontsizes)
  {
    assert KeysOf(DefaultFontsizes) == ["titulo", "eje_x", "eje_y", "ticks", "leyenda"];
  }

  /** Merged over `{"titulo": 20}`, the font sizes have no "label" key. */
  lemma TituloVeinteNoLabel()
    ensures LegendKeyAsWritten !in KeysOf(MergeDefaults(DefaultFontsizes, DictArg(TituloVeinte)).value)
  {
    LabelNotADefault();
    FontsizesKeys(DictArg(TituloVeinte), "label");
    TituloVeinteRekeyed();
  }

  /** Merged over `{"titulo": 20}`, the legend size is the default 10. */
  lemma TituloVeinteLeyenda()
    ensures Lookup(MergeDefaults(DefaultFontsizes, DictArg(TituloVeinte)).value, LegendKey) == Some(10)
  {
    TituloVeinteRekeyed();
    MergeLookup(DefaultFontsizes, TituloVeinte, "leyenda");
    FontsizesRekeyed();
  }

  /** One axis with a one-column legend: the key lookup decides the
      outcome. */
  lemma OneLegendAxis(fs: Dict<int>)
    requires LegendKeyAsWritten !in KeysOf(fs) && Lookup(fs, LegendKey) == Some(10)
    ensures RenderAsWritten(1, fs, 1, LColsInt(1), None, None) == Err(MissingKey("label"))
    ensures AxisSettings(fs, LegendKey, NormLCols(LColsInt(1), 1), None, None, 1) ==
      Ok([AxisSetting(Some(Legend(1, 10)), None, None)])
  {
    assert NormLCols(LColsInt(1), 1) == [1];
    assert NormLimit(None, 1) == None;
    assert AxisAt(fs, LegendKeyAsWritten, [1], None, None, 0) == Err(MissingKey("label"));
    assert AxisSettings(fs, LegendKeyAsWritten, [1], None, None, 1) == Err(MissingKey("label"));
    var s := AxisSetting(Some(Legend(1, 10)), None, None);
    assert AxisAt(fs, LegendKey, [1], None, None, 0) == Ok(s);
    assert [] + [s] == [s];
  }

  /** Custom font sizes without a "label" entry leave no "label" key, so the
      loop as written fails with KeyError on the first legend, while the
      corrected loop draws it at the default size 10. */
  lemma LabelKeyMissing()
    ensures var fs := MergeDefaults(DefaultFontsizes, DictArg(TituloVeinte)).value;
      && LegendKeyAsWritten !in KeysOf(fs)
      && RenderAsWritten(1, fs, 1, LColsInt(1), None, None) == Err(MissingKey("label"))
      && AxisSettings(fs, LegendKey, NormLCols(LColsInt(1), 1), None, None, 1) ==
         Ok([AxisSetting(Some(Legend(1, 10)), None, None)])
  {
    TituloVeinteNoLabel();
    TituloVeinteLeyenda();
    OneLegendAxis(MergeDefaults(DefaultFontsizes, DictArg(TituloVeinte)).value);
  }

  /** The dict `{"titulo": "#FF0000"}`. */
  const TituloRojo: Dict<string> := [("titulo", "#FF0000")]

  lemma TituloRojoRekeyed()
    ensures Rekey(TituloRojo) == TituloRojo
    ensures KeysOf(TituloRojo) == ["titulo"]
  {
    forall i | 0 <= i < |TituloRojo|
      ensures DataFrames.NormStr(TituloRojo[i].0) == TituloRojo[i].0
    {
      NameFixed(TituloRojo[i].0);
    }
    RekeyFixed(TituloRojo);
  }

  /** A custom colour replaces the default under its key. */
  lemma ExampleColourOverridden()
    ensures Lookup(MergeDefaults(DefaultColores, DictArg(TituloRojo)).value, "titulo") == Some("#FF0000")
  {
    TituloRojoRekeyed();
    MergeLookup(DefaultColores, TituloRojo, "titulo");
  }

  /** A default colour whose key the custom dict does not mention survives
      the merge. */
  lemma ColoresKeepDefault(c: Dict<string>, i: nat)
    requires i < |DefaultColores| && DefaultColores[i].0 !in KeysOf(Rekey(c))
    ensures Lookup(MergeDefaults(DefaultColores, DictArg(c)).value, DefaultColores[i].0) == Some(DefaultColores[i].1)
  {
    ColoresRekeyed();
    MergeKeepsDefault(DefaultColores, c, i);
  }

  /** A colour the custom dict leaves out keeps its default. */
  lemma ExampleColourKept()
    ensures Lookup(MergeDefaults(DefaultColores, DictArg(TituloRojo)).value, "eje_x") == Some("#1F2020")
  {
    TituloRojoRekeyed();
    assert DefaultColores[1] == ("eje_x", "#1F2020");
    ColoresKeepDefault(TituloRojo, 1);
  }

  /** A custom font size replaces the default under its key. */
  lemma ExampleSizeOverridden()
    ensures Lookup(MergeDefaults(DefaultFontsizes, DictArg(TituloVeinte)).value, "titulo") == Some(20)
  {
    TituloVeinteRekeyed();
    assert KeysOf(TituloVeinte) == ["titulo"];
    MergeLookup(DefaultFontsizes, TituloVeinte, "titulo");
  }

  /** A default font size whose key the custom dict does not mention
      survives the merge. */
  lemma FontsizesKeepDefault(c: Dict<int>, i: nat)
    requires i < |DefaultFontsizes| && DefaultFontsizes[i].0 !in KeysOf(Rekey(c))
    ensures Lookup(MergeDefaults(DefaultFontsizes, DictArg(c)).value, DefaultFontsizes[i].0) == Some(DefaultFontsizes[i].1)
  {
    FontsizesRekeyed();
    MergeKeepsDefault(DefaultFontsizes, c, i);
  }

  /** A font size the custom dict leaves out keeps its default. */
  lemma ExampleSizeKept()
    ensures Lookup(MergeDefaults(DefaultFontsizes, DictArg(TituloVeinte)).value, "eje_x") == Some(12)
  {
    TituloVeinteRekeyed();
    assert KeysOf(TituloVeinte) == ["titulo"];
    assert DefaultFontsizes[1] == ("eje_x", 12);
    FontsizesKeepDefault(TituloVeinte, 1);
  }

  /** With the font sizes a `Graficos` gets by default the "label" key is
      there, so the loop as written succeeds. */
  lemma LabelPresentByDefault()
    ensures LegendKeyAsWritten in KeysOf(MergeDefaults(DefaultFontsizes, DictArg(FieldFontsizes)).value)
  {
    FontsizesKeys(DictArg(FieldFontsizes), "label");
    NameFixed("label");
    assert Rekey(FieldFontsizes)[4].0 == "label";
  }

  /** The plotting helper's configuration: the number of subplot columns,
      the colours and the font sizes. Before `__post_init__` the two
      dictionaries hold whatever the caller passed. */
  class Graficos {
    var columnas: int
    var colores: Arg<string>
    var fontsizes: Arg<int>

    /** Both dictionaries are dicts, as `__post_init__` leaves them. */
    predicate Valid()
      reads this
    {
      colores.DictArg? && fontsizes.DictArg?
    }

    /** The dataclass's generated initialiser: it stores its arguments. */
    constructor(columnas: int, colores: Arg<string>, fontsizes: Arg<int>)
      ensures this.columnas == columnas && this.colores == colores && this.fontsizes == fontsizes
    {
      this.columnas := columnas;
      this.colores := colores;
      this.fontsizes := fontsizes;
    }

    /** `__post_init__`: merges the colours, then the font sizes, with their
      defaults. A failing merge stops it with the fields merged so far. */
    method PostInit() returns (err: Option<Error>)
      modifies this
      ensures columnas == old(columnas)
      ensures var mc := MergeDefaults(DefaultColores, old(colores));
              var mf := MergeDefaults(DefaultFontsizes, old(fontsizes));
              if mc.Err? then err == Some(mc.error) && colores == old(colores) && fontsizes == old(fontsizes)
              else if mf.Err? then err == Some(mf.error) && colores == DictArg(mc.value) && fontsizes == old(fontsizes)
              else err == None && colores == DictArg(mc.value) && fontsizes == DictArg(mf.value)
      ensures err.None? <==> Valid()
    {
      var mc := MergeDefaults(DefaultColores, colores);
      if mc.Err? {
        return Some(mc.error);
      }
      colores := DictArg(mc.value);
      var mf := MergeDefaults(DefaultFontsizes, fontsizes);
      if mf.Err? {
        return Some(mf.error);
      }
      fontsizes := DictArg(mf.value);
      return None;
    }

    /** `render`'s argument normalisation and per-axis loop over the `axes`
      axes `crear` made, with the legend font size read under "leyenda",
      the key the font-size defaults guarantee. */
    method Render(axes: nat, lCols: LCols, limiteX: Option<seq<LimEntry>>, limiteY: Option<seq<LimEntry>>)
      returns (r: Result<seq<AxisSetting>, Error>)
      requires Valid()
      ensures r == AxisSettings(fontsizes.d, LegendKey, NormLCols(lCols, columnas),
                                NormLimit(limiteX, columnas), NormLimit(limiteY, columnas), axes)
    {
      var sizes := fontsizes.d;
      var lcols: seq<int>;
      if lCols.LColsInt? {
        lcols := Repeat(lCols.n, columnas);
      } else {
        lcols := lCols.items;
      }
      var limX := limiteX;
      if limX.Some? && AllScalar(limX.value) {
        limX := Some(Repeat(Bounds(ScalarValues(limX.value)), columnas));
      }
      var limY := limiteY;
      if limY.Some? && AllScalar(limY.value) {
        limY := Some(Repeat(Bounds(ScalarValues(limY.value)), columnas));
      }
      assert lcols == NormLCols(lCols, columnas);
      assert limX == NormLimit(limiteX, columnas) && limY == NormLimit(limiteY, columnas);
      r := AxisLoop(sizes, lcols, limX, limY, axes);
    }
  }

  /** The per-axis loop of `render`: axis by axis, the settings of
      `AxisAt`, stopping at the first axis that fails. */
  method AxisLoop(sizes: Dict<int>, lcols: seq<int>, limX: Option<seq<LimEntry>>, limY: Option<seq<LimEntry>>, axes: nat)
    returns (r: Result<seq<AxisSetting>, Error>)
    ensures r == AxisSettings(sizes, LegendKey, lcols, limX, limY, axes)
  {
    var settings: seq<AxisSetting> := [];
    for i := 0 to axes
      invariant AxisSettings(sizes, LegendKey, lcols, limX, limY, i) == Ok(settings)
    {
      var s := AxisAt(sizes, LegendKey, lcols, limX, limY, i);
      if s.Err? {
        assert AxisSettings(sizes, LegendKey, lcols, limX, limY, i + 1) == Err(s.error);
        AxisSettingsErrPersists(sizes, LegendKey, lcols, limX, limY, i + 1, axes);
        return Err(s.error);
      }
      assert AxisSettings(sizes, LegendKey, lcols, limX, limY, i + 1) == Ok(settings + [s.value]);
      settings := settings + [s.value];
    }
    return Ok(settings);
  }

  /** `Graficos(columnas, colores, fontsizes)`: the generated initialiser
      followed by `__post_init__`, whose error propagates. */
  method New(columnas: int, colores: Arg<string>, fontsizes: Arg<int>) returns (r: Result<Graficos, Error>)
    ensures r.Err? <==> colores.NotDict? || fontsizes.NotDict?
    ensures r.Err? ==> r.error == NotADict
    ensures r.Ok? ==> fresh(r.value) && r.value.Valid() && r.value.columnas == columnas
    ensures r.Ok? ==> r.value.colores.d == MergeDefaults(DefaultColores, colores).value
    ensures r.Ok? ==> r.value.fontsizes.d == MergeDefaults(DefaultFontsizes, fontsizes).value
  {
    var g := new Graficos(columnas, colores, fontsizes);
    var err := g.PostInit();
    if err.Some? {
      return Err(err.value);
    }
    return Ok(g);
  }
}
