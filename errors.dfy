/** The exceptions the modelled code raises. Every constructor stands for one
    raise site (or one library failure) of the source; ExceptionClass names the
    Python exception type a caller would catch. The logging decorator that wraps
    the public operations re-raises after logging, so for the model an error
    simply propagates to the caller as an Err result. */
module Errors {

  datatype ExceptionClass = ValueError | TypeError | RuntimeError | IndexError | KeyError | OtherException

  datatype Error =
    // Base/Funciones.py
    | MissingInitialParams               // fit_odr: empty p0
    | LengthMismatch(first: nat, second: nat) // _check_array
    | SolverFailure                      // the ODR solver (or the model inside it) raised
    | BroadcastMismatch(observed: nat, predicted: nat) // numpy: data_y - f(beta, x) with unequal shapes
    | ParamUnpack(count: nat)            // APV: params does not unpack into seven names
    // fittools/fit_result.py
    | IncludeAndExclude                  // jackknife: both 'incluir' and 'excluir' given
    | NotFittable                        // jackknife: target without a callable fit_odr
    | NoOriginalParams                   // jackknife: no p0 and no parameters to infer it from
    | MaskLengthMismatch                 // numpy: boolean mask of another length than the array
    | NoSuccessfulFit                    // jackknife: every subset fit failed or was skipped
    | RaggedParams                       // numpy: np.array of subset parameter lists of unequal lengths
    | ParamShapeMismatch                 // numpy: original and mean parameter vectors that do not broadcast
    // fittools/data_frames.py
    | NoData                             // no DataFrame loaded
    | InvalidCase                        // 'caso' outside its allowed set
    | NonBooleanMask                     // filtrar: Series of non-boolean dtype
    | DuplicateMaskLabels                // pandas: reindex on an axis with duplicate labels
    | InvalidCondition                   // filtrar: condition of an unsupported kind
    | GradientTooSmall                   // numpy: np.gradient along an axis of fewer than 2 entries
    | NonNumericGradient                 // numpy: np.gradient subtracting text cells
    // fittools/graficos.py
    | NotADict                           // _merge_defaults: custom is neither None nor a dict
    | MissingKey(key: string)            // dict lookup of an absent key
    | ListIndexOutOfRange(index: nat)    // render: l_cols / limite_x / limite_y shorter than the axes

  function ExceptionClassOf(e: Error): (c: ExceptionClass)
    ensures c == TypeError <==> e == NotFittable || e == NonNumericGradient
    ensures c == RuntimeError <==> e == NoSuccessfulFit
  {
    match e
    case NotFittable => TypeError
    case NonNumericGradient => TypeError
    case NoSuccessfulFit => RuntimeError
    case SolverFailure => OtherException
    case MaskLengthMismatch => IndexError
    case ListIndexOutOfRange(_) => IndexError
    case MissingKey(_) => KeyError
    case _ => ValueError
  }
}
