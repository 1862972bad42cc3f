/** Concrete constructions and commands that pin the behaviour of the
    optimizer arguments on particular inputs. */
module Scenarios {
  import opened Wrappers
  import opened PyValues
  import opened Optimize
  import opened Command

  /** Arguments with only the algorithm name and `iter` given. */
  function WithIter(name: Option<string>, iter: PyVal): OptimizeArgs
  {
    Build(name, NoneV, iter, false, NoneV, NoneV, NoneV, NoneV, NoneV, NoneV)
  }

  /** Arguments with only the algorithm name and `init_alpha` given. */
  function WithInitAlpha(name: Option<string>, initAlpha: PyVal): OptimizeArgs
  {
    Build(name, initAlpha, NoneV, false, NoneV, NoneV, NoneV, NoneV, NoneV, NoneV)
  }

  /** Arguments with only the algorithm name and `history_size` given. */
  function WithHistorySize(name: Option<string>, historySize: PyVal): OptimizeArgs
  {
    Build(name, NoneV, NoneV, false, NoneV, NoneV, NoneV, NoneV, NoneV, historySize)
  }

  /** `iter=0` is accepted although the message says "greater than 0". */
  lemma IterZeroAccepted()
    ensures Validate(WithIter(None, IntV(0)), AsWritten).Success?
  {
    assert forall g: Field :: FieldOk(WithIter(None, IntV(0)), g, AsWritten);
  }

  /** `iter=-1` is a range error. */
  lemma IterNegativeRefused()
    ensures Validate(WithIter(None, IntV(-1)), AsWritten) == Failure(Err(Iter, OutOfRange))
  {
    var a := WithIter(None, IntV(-1));
    assert a.algorithm.None? && a.initAlpha == NoneV;
    assert a.iter == IntV(-1);
    IterRule(a, AsWritten);
  }

  /** `iter=2.5` is a type error. */
  lemma IterFloatRefused()
    ensures Validate(WithIter(None, FloatV(Finite(2.5))), AsWritten) == Failure(Err(Iter, WrongType))
  {
    var a := WithIter(None, FloatV(Finite(2.5)));
    assert a.algorithm.None? && a.initAlpha == NoneV;
    assert Present(a, Iter) && !IsInstanceInt(a.iter);
    IterRule(a, AsWritten);
  }

  /** `iter=True` passes: `bool` is a subclass of `int`. */
  lemma IterTrueAccepted()
    ensures Validate(WithIter(None, BoolV(true)), AsWritten).Success?
  {
    assert forall g: Field :: FieldOk(WithIter(None, BoolV(true)), g, AsWritten);
  }

  /** `init_alpha=-0.1` is a range error. */
  lemma InitAlphaNegativeRefused()
    ensures Validate(WithInitAlpha(None, FloatV(Finite(-0.1))), AsWritten) == Failure(Err(InitAlpha, OutOfRange))
  {
    ValidateErrorDetermined(WithInitAlpha(None, FloatV(Finite(-0.1))), Err(InitAlpha, OutOfRange), AsWritten);
  }

  /** `init_alpha='x'` and `init_alpha=1` (an `int`) are type errors. */
  lemma InitAlphaNotFloatRefused()
    ensures Validate(WithInitAlpha(None, StrV("x")), AsWritten) == Failure(Err(InitAlpha, WrongType))
    ensures Validate(WithInitAlpha(None, IntV(1)), AsWritten) == Failure(Err(InitAlpha, WrongType))
  {
    ValidateErrorDetermined(WithInitAlpha(None, StrV("x")), Err(InitAlpha, WrongType), AsWritten);
    ValidateErrorDetermined(WithInitAlpha(None, IntV(1)), Err(InitAlpha, WrongType), AsWritten);
  }

  /** `init_alpha=0.5` with L-BFGS is accepted. */
  lemma InitAlphaWithLbfgsAccepted()
    ensures Validate(WithInitAlpha(Some("lbfgs"), FloatV(Finite(0.5))), AsWritten).Success?
  {
    var a := WithInitAlpha(Some("lbfgs"), FloatV(Finite(0.5)));
    assert NoUpperAscii("lbfgs");
    LowerCharacterisation("lbfgs", "lbfgs");
    assert a.algorithm == Some("lbfgs");
    assert forall g: Field :: FieldOk(a, g, AsWritten);
  }

  /** With `Newton`, in any case, `init_alpha` is refused for the algorithm
      before its type is looked at. */
  lemma InitAlphaWithNewtonRefused()
    ensures Validate(WithInitAlpha(Some("Newton"), StrV("x")), AsWritten)
            == Failure(Err(InitAlpha, ExcludedByAlgorithm))
  {
    var a := WithInitAlpha(Some("Newton"), StrV("x"));
    assert Lower("Newton") == "newton";
    ValidateErrorDetermined(a, Err(InitAlpha, ExcludedByAlgorithm), AsWritten);
  }

  /** `history_size=5` with Newton is refused for the algorithm. */
  lemma HistorySizeWithNewtonRefused()
    ensures Validate(WithHistorySize(Some("newton"), IntV(5)), AsWritten)
            == Failure(Err(HistorySize, ExcludedByAlgorithm))
  {
    var a := WithHistorySize(Some("newton"), IntV(5));
    assert NoUpperAscii("newton");
    LowerCharacterisation("newton", "newton");
    assert a.algorithm == Some("newton");
    assert Present(a, HistorySize);
    HistorySizeRule(a, AsWritten);
  }

  /** `history_size=5` with L-BFGS is accepted. */
  lemma HistorySizeWithLbfgs()
    ensures Validate(WithHistorySize(Some("lbfgs"), IntV(5)), AsWritten).Success?
  {
    LbfgsNotExcluded();
    HistorySizeRule(WithHistorySize(Some("lbfgs"), IntV(5)), AsWritten);
  }

  /** `history_size=-1` with L-BFGS is a range error. */
  lemma NegativeHistorySizeRefused()
    ensures Validate(WithHistorySize(Some("lbfgs"), IntV(-1)), AsWritten) == Failure(Err(HistorySize, OutOfRange))
  {
    LbfgsNotExcluded();
    HistorySizeRule(WithHistorySize(Some("lbfgs"), IntV(-1)), AsWritten);
  }

  /** The name `lbfgs` is stored unchanged and excludes no field. */
  lemma LbfgsNotExcluded()
    ensures Lower("lbfgs") == "lbfgs"
    ensures "lbfgs" !in ExcludingAlgorithms(HistorySize, AsWritten)
  {
    assert NoUpperAscii("lbfgs");
    LowerCharacterisation("lbfgs", "lbfgs");
  }

  /** A NaN tolerance passes, since `nan <= 0` is false; negative infinity
      does not. */
  lemma NaNToleranceAccepted()
    ensures NewOptimizeArgs(None, NoneV, NoneV, false, FloatV(NaN), NoneV, NoneV, NoneV, NoneV, NoneV).Success?
    ensures NewOptimizeArgs(None, NoneV, NoneV, false, FloatV(Infinity(true)), NoneV, NoneV, NoneV, NoneV, NoneV)
            == Failure(Err(TolObj, OutOfRange))
  {
    var a := Build(None, NoneV, NoneV, false, FloatV(NaN), NoneV, NoneV, NoneV, NoneV, NoneV);
    assert forall g: Field :: FieldOk(a, g, AsWritten);
    var b := Build(None, NoneV, NoneV, false, FloatV(Infinity(true)), NoneV, NoneV, NoneV, NoneV, NoneV);
    ValidateErrorDetermined(b, Err(TolObj, OutOfRange), AsWritten);
  }

  /** The arguments of the command example below, as stored. */
  function LbfgsArgs(): OptimizeArgs
  {
    OptimizeArgs(Some("lbfgs"), NoneV, IntV(100), true, FloatV(Finite(0.00000001)),
                 NoneV, NoneV, NoneV, NoneV, NoneV)
  }

  /** `OptimizeArgs(algorithm='LBFGS', iter=100, save_iterations=True,
      tol_obj=1e-8)` is accepted and stores the name as `lbfgs`. */
  lemma LbfgsArgsValid()
    ensures NewOptimizeArgs(Some("LBFGS"), NoneV, IntV(100), true, FloatV(Finite(0.00000001)),
                            NoneV, NoneV, NoneV, NoneV, NoneV) == Success(LbfgsArgs())
  {
    assert Lower("LBFGS") == "lbfgs";
    assert forall g: Field :: FieldOk(LbfgsArgs(), g, AsWritten);
  }

  /** The three tokens the example arguments set. */
  lemma LbfgsFieldTokens(floatRepr: Float -> string)
    ensures FieldTokens(LbfgsArgs(), Iter, floatRepr) == ["iter=100"]
    ensures FieldTokens(LbfgsArgs(), TolObj, floatRepr) == ["tol_obj=" + floatRepr(Finite(0.00000001))]
    ensures FieldTokens(LbfgsArgs(), Algorithm, floatRepr) == ["algorithm=lbfgs"]
  {
    assert IntToDecimal(100) == "100";
    assert Token(Key(Iter), "100") == "iter=100";
    assert Token(Key(Algorithm), "lbfgs") == "algorithm=lbfgs";
    var tolText := floatRepr(Finite(0.00000001));
    assert Token(Key(TolObj), tolText) == "tol_obj=" + tolText;
  }

  /** The fields after `tol_obj` contribute only `iter=100`. */
  lemma LbfgsLaterTokens(floatRepr: Float -> string)
    ensures OptionalTokens(LbfgsArgs(), [TolRelObj, TolGrad, TolRelGrad, TolParam, HistorySize, Iter], floatRepr)
            == ["iter=100"]
  {
    var a := LbfgsArgs();
    LbfgsFieldTokens(floatRepr);
    OptionalTokensUnfold(a, [Iter], floatRepr);
    OptionalTokensUnfold(a, [HistorySize, Iter], floatRepr);
    OptionalTokensUnfold(a, [TolParam, HistorySize, Iter], floatRepr);
    OptionalTokensUnfold(a, [TolRelGrad, TolParam, HistorySize, Iter], floatRepr);
    OptionalTokensUnfold(a, [TolGrad, TolRelGrad, TolParam, HistorySize, Iter], floatRepr);
    OptionalTokensUnfold(a, [TolRelObj, TolGrad, TolRelGrad, TolParam, HistorySize, Iter], floatRepr);
  }

  lemma LbfgsOptionalTokens(floatRepr: Float -> string)
    ensures OptionalTokens(LbfgsArgs(), EmissionOrder, floatRepr)
            == ["algorithm=lbfgs", "tol_obj=" + floatRepr(Finite(0.00000001)), "iter=100"]
  {
    var a := LbfgsArgs();
    LbfgsFieldTokens(floatRepr);
    LbfgsLaterTokens(floatRepr);
    OptionalTokensUnfold(a, [TolObj, TolRelObj, TolGrad, TolRelGrad, TolParam, HistorySize, Iter], floatRepr);
    OptionalTokensUnfold(a, [InitAlpha, TolObj, TolRelObj, TolGrad, TolRelGrad, TolParam, HistorySize, Iter], floatRepr);
    OptionalTokensUnfold(a, EmissionOrder, floatRepr);
  }

  /** With `save_iterations` set, the flag follows the three field tokens. */
  lemma LbfgsOptimizerTokens(floatRepr: Float -> string)
    ensures OptimizerTokens(LbfgsArgs(), floatRepr)
            == ["algorithm=lbfgs", "tol_obj=" + floatRepr(Finite(0.00000001)), "iter=100", "save_iterations=1"]
  {
    LbfgsOptionalTokens(floatRepr);
  }

  /** `algorithm='LBFGS', iter=100, save_iterations=True, tol_obj=1e-8`
      after the prefix `id=1 data file=d.json` gives exactly these tokens;
      the text of `1e-8` is whatever Python's float `repr` gives. */
  lemma LbfgsCommand(floatRepr: Float -> string)
    ensures ComposeCommand(["id=1", "data", "file=d.json"], LbfgsArgs(), floatRepr)
            == ["id=1", "data", "file=d.json"] + ["method=optimize"]
               + ["algorithm=lbfgs", "tol_obj=" + floatRepr(Finite(0.00000001)), "iter=100", "save_iterations=1"]
  {
    LbfgsOptimizerTokens(floatRepr);
  }
}
