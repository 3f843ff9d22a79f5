# Modelo-Ajustes in Dafny

A Dafny model of the core of Modelo-Ajustes, a Python toolkit for fitting
models to laboratory data by orthogonal distance regression. The model
covers four parts and proves their properties:

- **The fit engine** (`Base/Funciones.py`, module `Funciones`):
  - the length guard `_check_array`;
  - the coefficient of determination R² and its adjusted form;
  - `fit_odr`. Its guards, its parameter pairing and its statistics policy
    are modelled around an abstract ODR solver;
  - the two reference models, the polynomial `polinomio` and the
    asymmetric Pseudo-Voigt peak `APV`, including numpy's `piecewise` and
    `clip`.
- **The fit result** (`fittools/fit_result.py`, module `FitResults`):
  - the `FitResult` record and its unpacking order under `__iter__`;
  - the line layout of its text report `__str__`;
  - the jackknife resampling. This is an imperative loop that masks out one
    data point at a time through a boolean array and restores it, skips the
    subset fits that raise, and aggregates the successful ones into
    bias-corrected estimates and variances.
- **The table helpers** (`fittools/data_frames.py`, module `DataFrames`):
  - the column-name normaliser `_norm_str`, as its five regular-expression
    stages;
  - the pairing of value columns with their error columns in `uarray`. This
    is a loop filling a dict, proved against a specification function;
  - the boolean-Series branch of `filtrar`, with pandas' reindexing;
  - the row/column split `separar_c_f`;
  - the coordinate grid of `grilla_y_grad`.
- **The plot configuration** (`fittools/graficos.py`, module `Graficos`):
  - `_ajustar_lista` and `_merge_defaults`;
  - the `Graficos` dataclass as a class whose `__post_init__` overwrites
    its `colores` and `fontsizes` fields;
  - `render`'s argument normalisation and its per-axis settings loop.

Supporting modules:
- `Wrappers`: Option and Result.
- `Errors`: one constructor per raise site, and the Python exception class
  each one raises.
- `Sequences`: list helpers such as numpy boolean-mask selection, sums and
  means.
- `Dicts`: Python's insertion-ordered dicts as sequences of pairs, with
  assignment, `update`, `{**a, **b}` and the comprehension.

Modelling conventions:
- Numbers are `real`. A value numpy may make nan or inf (a zero divisor,
  or the 0/0 of `APV` at a zero width) is a `Stat` that is `Finite(v)` or
  `NonFinite`. Model predictions, residuals and R² carry it, so a nan
  prediction gives a fit with nan residuals and nan R², as in numpy.
- A raised exception is an `Err` of a `Result` or an `Option<Error>`. The
  lemmas state its Python class.
- Outside code is a parameter: the ODR solver, the model callable, `np.exp`
  and the number formatter.
- A falsy `p0`, `excluir` or `incluir` is the empty sequence, because the
  source treats None and `[]` alike there.

Where the code and its documentation differ, the model follows the code:
- In `APV` the point x = x0 takes the *right* side (σ₂, η₂). Both
  conditions of `np.piecewise` hold there and the later one wins.
- The jackknife scales by n = `len(data_x)`, not by the number of fits.
- `_norm_str` strips "_" before it deletes the other characters. So it
  can leave "__" or a trailing "_", and it is not idempotent
  (`DataFrames.NormStrNotIdempotent`).

## Model

| member | source | states |
|---|---|---|
| Funciones.CheckArray | Base/Funciones.py:31-32 | no error exactly when the lengths are equal; otherwise a ValueError carrying both lengths |
| Funciones.SCR | Base/Funciones.py:53 | the residual sum of squares is non-negative |
| Funciones.SCT | Base/Funciones.py:54 | the total sum of squares about the mean is non-negative |
| Funciones.CoefDeterminacion | Base/Funciones.py:53-57 | R² is finite iff every residual is finite and SCT > 0, and then R² ≤ 1; R²_aj is finite iff also n − k − 1 ≠ 0; a nan or inf residual makes both non-finite |
| Funciones.PerfectFitCoefficients | Base/Funciones.py:53-57 | zero residuals with SCT > 0 give R² = 1, and R²_aj = 1 whenever n − k − 1 ≠ 0 (the unit test's case) |
| Funciones.AdjustedAtMostPlain | Base/Funciones.py:55-57 | with finite residuals, SCT > 0, 0 ≤ k and n > k + 1, both are finite and R²_aj ≤ R² |
| Funciones.Validate | Base/Funciones.py:87-93 | passes iff p0 is non-empty and every given array matches data_x in length; an empty p0 is the error reported first; every failure is a ValueError |
| Funciones.PairParams | Base/Funciones.py:102 | zip pairing: length min(beta, sd_beta), and entry i is (beta[i], sd_beta[i]) |
| Funciones.Residuals | Base/Funciones.py:106 | numpy broadcasting of data_y − pred: equal lengths subtract element-wise, a length-1 operand on either side is broadcast, anything else fails; a nan or inf prediction gives a non-finite residual |
| Funciones.FitOdr | Base/Funciones.py:87-110 | the guards are decided before the solver runs; a solver failure propagates; parametros pairs beta with sd_beta; without estimadores the three statistics are absent, with it all three are present |
| Funciones.FitOdrResiduals | Base/Funciones.py:104-107 | with estimadores, residuos[i] = data_y[i] − f(beta, data_x)[i] (non-finite where the prediction is) and the R² pair is computed from those residuals with k = len(p0) |
| Funciones.FitOdrParamCount | Base/Funciones.py:102 | a solver returning one beta and one sd_beta per initial parameter gives len(parametros) = len(p0) |
| Funciones.HornerSnoc | Base/Funciones.py:126 | appending a coefficient to the reference polynomial adds its monomial |
| Funciones.Polinomio | Base/Funciones.py:126 | same length as x, and entry j is Σᵢ params[i]·x[j]^i |
| Funciones.PolinomioExample | Tests/Test_Fit.py:100-104 | polinomio([1,2,3], [0,1,2]) = [1, 6, 17] |
| Funciones.PolinomioFit | Base/Funciones.py:104-107 | fit_odr with polinomio as the model succeeds iff the guards pass and the solver runs; residuos[i] is the finite y[i] − Σᵢ beta[i]·x^i, so R² is finite iff SCT > 0 |
| Funciones.Piecewise | Base/Funciones.py:152-158 | np.piecewise keeps x's length, and each point takes the function of the last condition that holds there, or 0 |
| Funciones.Clip01 | Base/Funciones.py:146-147 | np.clip into [0, 1]: inside unchanged, below gives 0, above gives 1 |
| Funciones.Apv | Base/Funciones.py:145-158 | ValueError iff the parameters are not exactly seven; same length as x; points left of x0 take the (σ₁, η₁) side and the rest the (σ₂, η₂) side, with both η clipped |
| Funciones.ApvAtCentre | Base/Funciones.py:148-157 | at x = x0 the value is A + y0 whatever the η, since G = L = 1 there |
| Funciones.ApvCentreZeroWidth | Base/Funciones.py:148-157 | with σ₂ = 0 the centre point is nan |
| Funciones.ApvZeroWidthBaseline | Base/Funciones.py:148-157 | a zero width flattens its side to y0 away from the centre |
| Funciones.ApvSidesIndependent | Base/Funciones.py:152-157 | points left of x0 depend only on σ₁ and η₁, points at or right of it only on σ₂ and η₂ |
| Funciones.ApvClipIdempotent | Base/Funciones.py:146-147 | clipping the η beforehand changes nothing |
| Funciones.ApvFitOutcome | Base/Funciones.py:104-107 | fit_odr with APV as the model succeeds iff the guards pass, the solver runs and, with estimadores, the fitted beta has seven entries; residuos[i] is y[i] minus APV at x[i] |
| Funciones.ApvFitKeepsNan | Base/Funciones.py:104-107 | a fitted beta with σ₂ = 0 and a data point at x0: the fit still succeeds, with a nan residual there and nan R² and R²_aj |
| Funciones.JackknifeOfFit | fittools/fit_result.py:159-175 | jackknifing fit_odr over a solver that returns one beta and one sd_beta per start value: the subset fits all have len(p0) parameters, so the ragged-array error never occurs; with the default p0 the aggregation never fails on shapes and reports one parameter per original |
| FitResults.Iter | fittools/fit_result.py:82-97 | the five yielded values rebuild the same FitResult, and come in the order parametros … ODR_output |
| FitResults.IterOfRebuilt | fittools/fit_result.py:82-97 | unpacking a rebuilt result gives back the five values, so unpacking is a bijection onto the fields |
| FitResults.Nominals | fittools/fit_result.py:133 | one nominal value per parameter, in order |
| FitResults.ParamLines | fittools/fit_result.py:59-62 | one line per parameter |
| FitResults.StopLines | fittools/fit_result.py:65-71 | a list stop reason gives one line per entry, a string gives one line, anything else gives "N/A" |
| FitResults.ReportIsJoinedLines | fittools/fit_result.py:59-80 | the nested f-string report is exactly its flat line list joined by newlines |
| FitResults.ReportLineCount | fittools/fit_result.py:72-80 | the report has 8 fixed lines plus the parameter lines plus the stop-reason lines |
| FitResults.ReportParamLine | fittools/fit_result.py:59-62 | line 4 + i is "      - p{i+1} = … ± …" for parameter i |
| FitResults.ReportR2Lines | fittools/fit_result.py:63-64 | the two R² lines follow the parameters and read "N/A" when absent |
| FitResults.ReportStopLines | fittools/fit_result.py:65-80 | the stop-reason lines close the report, just before the last border |
| FitResults.AttemptedExactly | fittools/fit_result.py:142-151 | the attempted indices are exactly the i < n inside incluir (when given) and outside excluir, strictly increasing |
| FitResults.AttemptedAll | fittools/fit_result.py:142-151 | with neither list every index 0 … n−1 is attempted |
| FitResults.LeaveOneOut | fittools/fit_result.py:153-156 | the subset has every array one shorter and still aligned |
| FitResults.Successes | fittools/fit_result.py:159-164 | at most one fit per attempted index |
| FitResults.SuccessesSnoc | fittools/fit_result.py:159-164 | one more attempt appends its fit when it succeeds and skips it when it raises |
| FitResults.SuccessesAllOk | fittools/fit_result.py:159-164 | when no subset fit fails, fit j is the fit that leaves index j out, one per attempted index |
| FitResults.Aggregate | fittools/fit_result.py:169-175 | a ValueError iff the subset fits' parameter counts differ (np.array of ragged lists) or the originals do not broadcast against their common count w; otherwise equal counts give one parameter per original, a single original is broadcast to w parameters, and w = 1 against several originals gives one (zip); every variance ≥ 0, and the fits returned as collected |
| FitResults.SuccessesWidth | fittools/fit_result.py:159-164 | subset fits that each have w parameters collect into fits that all have w parameters |
| FitResults.AggregateAgreeing | fittools/fit_result.py:171-173 | fits that all agree on a parameter give it zero variance and estimate n·θ̂ − (n−1)·c, with the single original θ̂₀ standing for θ̂ when it is broadcast |
| FitResults.JackknifeArgumentChecks | fittools/fit_result.py:127-137 | incluir with excluir is a ValueError, then a target without fit_odr is a TypeError, then no p0 and no parameters is a ValueError; a finding of no successful fit is a RuntimeError |
| FitResults.JackknifeSuccess | fittools/fit_result.py:145-175 | on success the fits are the successful subset fits over the attempted indices in order (at least one, at most one per index), all with one count w of parameters that broadcasts against the originals; when w equals the number of originals there is one parameter per original |
| FitResults.MaskedSubset | fittools/fit_result.py:153-157 | masking index i and slicing gives exactly the data with index i removed, and the mask is all true again afterwards |
| FitResults.CollectStep | fittools/fit_result.py:150-164 | attempting one admitted index appends it to the attempted list and appends its fit to the collected fits exactly when that fit succeeds |
| FitResults.CollectFits | fittools/fit_result.py:139-164 | the loop over the mask computes the subset-fits specification: the successes over the attempted indices, or IndexError when an array does not match the mask |
| FitResults.Jackknife | fittools/fit_result.py:127-175 | the method computes the jackknife specification function |
| DataFrames.TrimLeftDropsClass | fittools/data_frames.py:294 | strip drops only characters of the stripped class |
| DataFrames.Strip | fittools/data_frames.py:294 | the stripped string starts and ends outside the class |
| DataFrames.StripSlice | fittools/data_frames.py:294 | the stripped string is a contiguous slice of the input |
| DataFrames.Lower | fittools/data_frames.py:294 | character-wise ASCII lowercasing, length kept |
| DataFrames.SubRunsNoAdjacent | fittools/data_frames.py:295-296 | after a run substitution no two characters of the class are adjacent |
| DataFrames.SubRunsKeepsOut | fittools/data_frames.py:295-296 | a substitution introduces no character of a class other than "_" |
| DataFrames.SubRunsRemovesClass | fittools/data_frames.py:295-296 | no character of the class is left other than "_" itself |
| DataFrames.SubRunsAppend | fittools/data_frames.py:295-296 | the substitution distributes over a concatenation that joins no run |
| DataFrames.SubRunsRun | fittools/data_frames.py:295-296 | one maximal run between two parts becomes exactly one "_" |
| DataFrames.Keep | fittools/data_frames.py:298 | the deletion keeps only characters of the class, in order |
| DataFrames.KeepAll | fittools/data_frames.py:298 | nothing of the class is deleted |
| DataFrames.NormStr | fittools/data_frames.py:294-299 | the output holds only a–z, 0–9 and "_" |
| DataFrames.NormStrBeforeDeletion | fittools/data_frames.py:294-297 | before the deletion there is no space, "-" or ".", no "__", and no "_" at either end |
| DataFrames.NormStrFixesCanonical | fittools/data_frames.py:294-299 | a name made of [a-z0-9_] with no "__" and no edge "_" normalises to itself |
| DataFrames.NormStrExample | Tests/Test_Data.py:59-63 | "Temperatura (°C)" normalises to "temperatura_c" |
| DataFrames.NormStrTrailingUnderscore | fittools/data_frames.py:297-298 | "a (" normalises to "a_", because "_" is stripped before the deletion |
| DataFrames.NormStrDoubleUnderscore | fittools/data_frames.py:296-298 | "a_(_b" normalises to "a__b" |
| DataFrames.NormStrNotIdempotent | fittools/data_frames.py:294-299 | normalising "a_(_b" twice gives "a_b", which differs from normalising it once |
| DataFrames.Column | fittools/data_frames.py:341-342 | column j is the j-th cell of every row, in row order |
| DataFrames.Norms | fittools/data_frames.py:333 | one normalised name per column, in order |
| DataFrames.ZipMapKeys | fittools/data_frames.py:334 | a name is a key of dict(zip(…)) iff it occurs among the keys |
| DataFrames.ZipMapLast | fittools/data_frames.py:334 | a key that does not occur later keeps its own value |
| DataFrames.ZipMapLastWins | fittools/data_frames.py:334 | the value under a key is the one paired with its last occurrence |
| DataFrames.PairColumns | fittools/data_frames.py:336-351 | the loop builds exactly the entry specification, column by column |
| DataFrames.UArray | fittools/data_frames.py:326-352 | the method computes the uarray specification: no table, then a caso other than sufijo/prefijo, each a ValueError |
| DataFrames.EntriesChar | fittools/data_frames.py:336-351 | column j gets an entry iff its target name is among the normalised names |
| DataFrames.EntriesValue | fittools/data_frames.py:336-351 | every entry comes from some column paired with the error column named by its target |
| DataFrames.EntriesKeysDistinct | fittools/data_frames.py:336-351 | the entries come from distinct columns, so no key repeats |
| DataFrames.UArrayKeys | fittools/data_frames.py:336-351 | column c is a key of the result iff c is a column and norm(c)+"_"+str_ (sufijo) or str_+"_"+norm(c) (prefijo) is some column's normalised name |
| DataFrames.UArrayEntry | fittools/data_frames.py:333-351 | each entry holds its column's cells as values and, as errors, the cells of the LAST column normalising to the target name |
| DataFrames.UArraySuffixExample | Tests/Test_Data.py:65-70 | columns x, y, z_err, z with "err" as a suffix give exactly one entry, z, with z's values and z_err's errors |
| DataFrames.Reindex | fittools/data_frames.py:204-208 | the reindexed mask has one entry per table row |
| DataFrames.SelectRows | fittools/data_frames.py:209 | df.loc[mask] keeps the column labels |
| DataFrames.Filtrar | fittools/data_frames.py:189-209 | fails iff there is no table, the condition is unsupported, the Series is not boolean, or its labels repeat when reindexing is needed; every failure is a ValueError; success keeps the path and the columns |
| DataFrames.AlignedMask | fittools/data_frames.py:204-208 | the aligned mask has one entry per table row |
| DataFrames.FiltrarRows | fittools/data_frames.py:201-209 | the result keeps exactly the rows and labels whose aligned mask value is true, in original order; a label the Series does not mention takes preservar_no_especificados |
| DataFrames.FiltrarNoLabelsMatch | fittools/data_frames.py:204-208 | a Series mentioning none of the labels keeps every row with preservar, and none without it |
| DataFrames.FiltrarSeriesExample | Tests/Test_Data.py:14-43 | on the test table (x, y, z_err over index [0, 1, 2]) the mask [True, False, True] leaves the index [0, 2] and the first and last rows, with the same columns |
| DataFrames.ByColumns | fittools/data_frames.py:266-272 | item j is column j, one entry per row |
| DataFrames.RowsOf | fittools/data_frames.py:259-265 | reading columns row by row is the transpose |
| DataFrames.SepararCF | fittools/data_frames.py:254-272 | fails iff there is no table or caso is not "f"/"c", always as a ValueError; "f" gives one item per row, "c" one per column, with the cells in place |
| DataFrames.SepararTranspose | fittools/data_frames.py:254-272 | the columns read back row by row are the rows |
| DataFrames.Linspace | fittools/data_frames.py:387-391 | n values, the first a and (for n ≥ 2) the last b |
| DataFrames.Meshgrid | fittools/data_frames.py:392 | len(ys) rows of len(xs) points, with X[i][j] = xs[j] and Y[i][j] = ys[i] |
| DataFrames.Range | fittools/data_frames.py:386-391 | n coordinates |
| DataFrames.RangeAt | fittools/data_frames.py:386-391 | point k sits at k − (n−1)/2 when centred and at k otherwise |
| DataFrames.GrillaYGrad | fittools/data_frames.py:381-396 | fails iff there is no table or, with grad, np.gradient rejects the values: fewer than two rows or columns (ValueError), or a text cell among at least two rows (TypeError); without grad only a missing table fails |
| DataFrames.GrillaCoordinates | fittools/data_frames.py:385-392 | on success, X and Y have the table's shape, with X[i][j] = j − (n_c−1)/2 and Y[i][j] = i − (n_f−1)/2 when centred, and X[i][j] = j, Y[i][j] = i otherwise |
| DataFrames.GrillaCentredSymmetric | fittools/data_frames.py:387-388 | mirrored points of a centred grid have opposite coordinates |
| Dicts.KeysOf | fittools/graficos.py:111-114 | the keys of the items, in order |
| Dicts.Lookup | fittools/graficos.py:111-114 | a value is found iff the key is present, and it is the value stored beside it |
| Dicts.LookupAt | fittools/graficos.py:111-114 | the item at a position is what its key looks up |
| Dicts.Insert | fittools/graficos.py:111-114 | assignment updates one key and leaves every other lookup alone; a new key goes at the end |
| Dicts.LastValue | fittools/graficos.py:111-114 | a last value exists iff the key occurs |
| Dicts.UpdateLookup | fittools/graficos.py:111-114 | after an update a key holds its last new value when mentioned, and its old value otherwise |
| Dicts.UpdateKeys | fittools/graficos.py:111-114 | the keys after an update are the old keys and the new ones |
| Dicts.CopyIsSame | fittools/graficos.py:114 | copying a dict into an empty one gives the same items in the same order |
| Dicts.LastValueOfDict | fittools/graficos.py:111-114 | in a dict the last item with a key is its only one |
| Dicts.LastValueAt | fittools/graficos.py:111-114 | the last value for the key at position i is the value at i |
| Graficos.Somes | fittools/graficos.py:134-138 | list(val) keeps every item, in order |
| Graficos.AjustarLista | fittools/graficos.py:129-138 | length longitud; None gives Nones, a scalar gives copies, a list keeps val[i] below its length and pads with None or truncates; a negative longitud follows Python's list and slice rules |
| Graficos.Rekey | fittools/graficos.py:111-113 | each key normalised, values and order kept |
| Graficos.MergeDefaults | fittools/graficos.py:106-114 | None returns the defaults unchanged; a non-dict is the only failure, a ValueError |
| Graficos.MergeKeys | fittools/graficos.py:111-114 | the merged keys are the normalised default keys and the normalised custom keys |
| Graficos.MergeLookup | fittools/graficos.py:111-114 | a normalised key takes its last custom value, else its last default value |
| Graficos.MergeKeepsDefault | fittools/graficos.py:111-114 | a default item the custom dict does not mention keeps its value |
| Graficos.RekeyFixed | fittools/graficos.py:113 | keys that are already normalised are kept |
| Graficos.NameFixed | fittools/graficos.py:70-90 | every default key name normalises to itself |
| Graficos.ColoresRekeyed | fittools/graficos.py:71-78 | normalising the colour defaults changes nothing |
| Graficos.FontsizesRekeyed | fittools/graficos.py:82-88 | normalising the font-size defaults changes nothing |
| Graficos.ColoresKeys | fittools/graficos.py:70-80 | after the merge the colours hold the six default keys |
| Graficos.FontsizesKeys | fittools/graficos.py:81-90 | after the merge the font sizes hold exactly the five default keys plus the normalised custom keys |
| Graficos.ColoresKeepDefault | fittools/graficos.py:70-80 | a default colour whose key the custom dict does not mention survives |
| Graficos.FontsizesKeepDefault | fittools/graficos.py:81-90 | a default font size whose key the custom dict does not mention survives |
| Graficos.ExampleColourOverridden | Tests/graficos_test.py:7-10 | with colores {"titulo": "#FF0000"}, titulo is "#FF0000" |
| Graficos.ExampleColourKept | Tests/graficos_test.py:7-11 | with the same colours, eje_x keeps "#1F2020" |
| Graficos.ExampleSizeOverridden | Tests/graficos_test.py:7-12 | with fontsizes {"titulo": 20}, titulo is 20 |
| Graficos.ExampleSizeKept | Tests/graficos_test.py:7-13 | with the same font sizes, eje_x keeps 12 |
| Graficos.NormLCols | fittools/graficos.py:219-220 | an integer l_cols becomes `columnas` copies; a list is kept |
| Graficos.ScalarValues | fittools/graficos.py:221-224 | the numbers of an all-numeric limit, in order |
| Graficos.NormLimit | fittools/graficos.py:221-224 | an all-numeric limit (including an empty one) is replicated `columnas` times; any other limit, and None, is kept |
| Graficos.LimitAt | fittools/graficos.py:239-242 | IndexError iff a limit is given and i is past its end; otherwise the entry when truthy, nothing when falsy or no limit is given |
| Graficos.AxisAt | fittools/graficos.py:233-242 | axis i fails iff l_cols has no entry i, or a legend is drawn and the size key is missing (KeyError), or a limit has no entry i (IndexError); on success the legend is drawn iff l_cols[i] ≠ 0, with its size, and the limits are LimitAt's |
| Graficos.UniformSetting | fittools/graficos.py:219-242 | a single l_cols number n draws a legend iff n ≠ 0, with the looked-up size; a non-empty numeric limit becomes the same tuple of bounds on every axis, an empty or absent one none |
| Graficos.AxisSettings | fittools/graficos.py:232-242 | on success, one setting per axis; every failure is an IndexError or the missing size key |
| Graficos.AxisLoop | fittools/graficos.py:232-242 | the loop computes the per-axis settings specification, stopping at the first failing axis |
| Graficos.AxisSettingsErrPersists | fittools/graficos.py:232-242 | the loop stops at the first failing axis, and its error is the result |
| Graficos.AxisSettingsAll | fittools/graficos.py:232-242 | when every axis succeeds, setting i is axis i's |
| Graficos.AxisSettingsOnlyIndexErrors | fittools/graficos.py:232-242 | with the legend key present, the loop fails only with an IndexError from a list shorter than the axes |
| Graficos.RenderAsWritten | fittools/graficos.py:219-242 | render as written: one setting per axis on success; every failure is an IndexError or a KeyError for "label" |
| Graficos.RenderReplicated | fittools/graficos.py:219-242 | an integer l_cols and all-numeric limits give every one of `columnas` axes the same setting |
| Graficos.RenderShortLCols | fittools/graficos.py:233 | an l_cols list shorter than the axes raises IndexError at the first missing entry |
| Graficos.LegendKeyPresent | fittools/graficos.py:81-90 | after every successful merge the font sizes hold "leyenda" |
| Graficos.TituloVeinteRekeyed | Tests/graficos_test.py:7-13 | the test's font sizes {"titulo": 20} are already normalised and have no "label" key |
| Graficos.TituloRojoRekeyed | Tests/graficos_test.py:7-11 | the test's colours {"titulo": "#FF0000"} are already normalised, with the single key titulo |
| Graficos.TituloVeinteNoLabel | fittools/graficos.py:81-90 | merged over {"titulo": 20}, the font sizes have no "label" key |
| Graficos.TituloVeinteLeyenda | fittools/graficos.py:81-90 | merged over {"titulo": 20}, the legend size "leyenda" is 10 |
| Graficos.LabelNotADefault | fittools/graficos.py:82-88 | the post-init font-size defaults have no "label" key |
| Graficos.OneLegendAxis | fittools/graficos.py:232-238 | on a dict without "label", one legend axis fails as written and succeeds reading "leyenda" |
| Graficos.LabelKeyMissing | fittools/graficos.py:235 | as written, render with l_cols=1 after fontsizes={"titulo": 20} raises KeyError "label"; read under "leyenda" it draws the legend at size 10 |
| Graficos.LabelPresentByDefault | fittools/graficos.py:54-60 | with the field's default font sizes "label" survives the merge, so the loop as written works |
| Graficos.Graficos.constructor | fittools/graficos.py:44-60 | the generated initialiser stores its arguments |
| Graficos.Graficos.PostInit | fittools/graficos.py:63-90 | merges colores, then fontsizes; columnas is unchanged; on the first failure nothing changes, on the second the colours are already merged; no error iff both fields end up dicts |
| Graficos.Graficos.Render | fittools/graficos.py:217-242 | normalises l_cols and both limits, then builds the per-axis settings, reading the legend size under "leyenda" |
| Graficos.New | fittools/graficos.py:44-90 | construction fails with a ValueError iff either argument is not a dict; otherwise it yields a fresh valid object with the merged dicts |

## Left out

- I/O is not modelled: `desde_csv`, `_leer_datos`, `pd.read_csv`, saving figures and `plt.show`.
- Plotting is not modelled: `Graficos.crear`, the matplotlib calls of `render`, and the `tamaño` and `dpi` fields. `render` returns the settings it would apply.
- `render`'s axes come from `crear`, so the model takes their count `axes` as a parameter.
- The ODR solver is an abstract function. Its internals (`scipy.odr`, Base/Funciones.py:97-101) are foreign numerics.
- The model callable, `np.exp` and the number formats `.4g`, `.2g` and `.4f` are parameters. The report's digits are not modelled.
- `FitResults.Aggregate`: the source's standard deviation is the square root of the variance; the model reports the variance, since there is no exact real square root. The ragged-array ValueError is numpy's behaviour from version 1.24 on; older numpy built an object array instead.
- Floating point is modelled as `real`. nan and inf appear only where numpy produces them from a zero divisor (`Stat.NonFinite`): R², R²_aj, and `APV` at a zero width. nan and inf are one value here, and a nan in the data, in a solver's beta or from `np.exp` overflow is not modelled. Rounding, for example in `np.linspace`, is not modelled.
- `Funciones.Apv`: x is a float array. `np.piecewise` writes into an array of x's dtype, so an integer x would truncate the profile to integers; that truncation is not modelled.
- `Funciones.Polinomio`: with no coefficients Python's `sum` gives the scalar 0, which the model represents as zeros of x's length (what it broadcasts to in the residuals).
- `filtrar`'s query-string branch and callable branch, `_es_numerico` and `float()` parsing are not modelled. They are thin wrappers over pandas and Python semantics. Cells are kept as they are.
- `DataFrames.GrillaYGrad`: the gradient values dx and dy of `np.gradient` are not modelled, only whether it raises. The grid and the outcome are.
- `_norm_str` lowercases ASCII only. Unicode case mapping is not modelled.
- `DataFrames.WellFormed` excludes tables with duplicate column labels, for which pandas' column selection returns a frame rather than a series.
- Dictionary values are typed (`Dict<string>`, `Dict<int>`). A custom dict with values of another type is not modelled.
- `Funciones.__str__` is a docstring printer and is not modelled.
- The `excepciones` decorator (logging and re-raise) is not modelled. Its effect is that errors propagate, which the Result values carry.
- Printing in the jackknife loop, the packaging files and `main.py` are not modelled.
- `Graficos.Graficos.Render` requires `Valid()`: it is only called after `__post_init__` has succeeded, which leaves both fields dicts.

## Findings

| source | as written | input that shows it | evidently intended | confidence | as-written member | corrected member |
|---|---|---|---|---|---|---|
| fittools/graficos.py:235 | `render` reads the legend font size as `fontsizes["label"]`, while `__post_init__` merges into defaults whose legend key is "leyenda" (line 87); "label" exists only in the field's default (line 59) | `Graficos(fontsizes={"titulo": 20})`, then `render(l_cols=1)` on one axis: the merged dict has no "label" and the lookup raises KeyError | read the legend size under the defaults' key "leyenda", which every merged dict holds | not executed | Graficos.RenderAsWritten, Graficos.LabelKeyMissing | Graficos.Graficos.Render, Graficos.LegendKeyPresent, Graficos.AxisSettingsOnlyIndexErrors |
