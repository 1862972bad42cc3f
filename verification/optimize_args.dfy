/** The optimizer's arguments (`OptimizeArgs`): construction with the
    algorithm name lowered, and the fail-fast validation that either accepts
    the arguments unchanged or reports the first field and rule broken. */
module Optimize {
  import opened Wrappers
  import opened PyValues

  /** The recognised optimizer algorithms (`OPTIMIZE_ALGOS`). */
  const OptimizeAlgos: set<string> := {"bfgs", "lbfgs", "newton"}

  /** The checked arguments. `save_iterations` is never checked, and `thin`
      is always `None` and never read, so neither is a `Field`. */
  datatype Field =
    | Algorithm
    | InitAlpha
    | Iter
    | TolObj
    | TolRelObj
    | TolGrad
    | TolRelGrad
    | TolParam
    | HistorySize

  /** Which rule a rejected field broke. */
  datatype Rule =
    | UnknownAlgorithm      // a name outside `OptimizeAlgos`
    | ExcludedByAlgorithm   // set although the chosen algorithm forbids it
    | WrongType             // fails its `isinstance` check
    | OutOfRange            // right type, wrong sign

  /** The `ValueError` of a rejected construction, as a field and a rule. */
  datatype Err = Err(field: Field, rule: Rule)

  /** An `OptimizeArgs` object. `algorithm` is the lowered name, or `None`
      when the name given was absent or empty. */
  datatype OptimizeArgs = OptimizeArgs(
    algorithm: Option<string>,
    initAlpha: PyVal,
    iter: PyVal,
    saveIterations: bool,
    tolObj: PyVal,
    tolRelObj: PyVal,
    tolGrad: PyVal,
    tolRelGrad: PyVal,
    tolParam: PyVal,
    historySize: PyVal)

  /** The value a field holds; the algorithm name is seen as a `str`. */
  function Value(a: OptimizeArgs, f: Field): PyVal
  {
    match f
    case Algorithm => if a.algorithm.Some? then StrV(a.algorithm.value) else NoneV
    case InitAlpha => a.initAlpha
    case Iter => a.iter
    case TolObj => a.tolObj
    case TolRelObj => a.tolRelObj
    case TolGrad => a.tolGrad
    case TolRelGrad => a.tolRelGrad
    case TolParam => a.tolParam
    case HistorySize => a.historySize
  }

  // ---------------------------------------------------------------------
  // The rules, stated field by field
  // ---------------------------------------------------------------------

  /** What a set field must be: a recognised name, a strictly positive
      `float`, or a non-negative `int`. */
  datatype Kind = Name | PositiveFloat | NonNegativeInt

  function KindOf(f: Field): Kind
  {
    match f
    case Algorithm => Name
    case Iter | HistorySize => NonNegativeInt
    case InitAlpha | TolObj | TolRelObj | TolGrad | TolRelGrad | TolParam => PositiveFloat
  }

  /** `AsWritten` is the comparison the code makes for `history_size`, with
      the literal `'BFGS'` against a lowered name; `Intended` compares with
      `'bfgs'`, as the error message and the L-BFGS-only meaning of the
      field call for. Every other rule is the same in both readings. */
  datatype Reading = AsWritten | Intended

  /** The algorithm names under which a field must stay unset: Newton takes
      no step size and no tolerances, and `history_size` is refused with
      Newton and with the name the code compares against for BFGS. */
  function ExcludingAlgorithms(f: Field, reading: Reading): set<string>
  {
    match f
    case InitAlpha | TolObj | TolRelObj | TolGrad | TolRelGrad | TolParam => {"newton"}
    case HistorySize => if reading == AsWritten then {"newton", "BFGS"} else {"newton", "bfgs"}
    case Algorithm | Iter => {}
  }

  predicate Present(a: OptimizeArgs, f: Field)
  {
    Value(a, f) != NoneV
  }

  predicate Excluded(a: OptimizeArgs, f: Field, reading: Reading)
  {
    Present(a, f) && a.algorithm.Some? && a.algorithm.value in ExcludingAlgorithms(f, reading)
  }

  /** The `isinstance` check of a field's kind. */
  predicate WellTyped(v: PyVal, k: Kind)
  {
    match k
    case Name => v.StrV?
    case PositiveFloat => IsInstanceFloat(v)
    case NonNegativeInt => IsInstanceInt(v)
  }

  /** The domain check, made only once the type is right. */
  predicate InRange(v: PyVal, k: Kind)
    requires WellTyped(v, k)
  {
    match k
    case Name => v.s in OptimizeAlgos
    case PositiveFloat => !AtMostZero(v.f)
    case NonNegativeInt => IntValue(v) >= 0
  }

  /** A field passes its checks: unset, or allowed with the algorithm and of
      the right type and sign. */
  predicate FieldOk(a: OptimizeArgs, f: Field, reading: Reading)
  {
    var v := Value(a, f);
    v == NoneV || (!Excluded(a, f, reading) && WellTyped(v, KindOf(f)) && InRange(v, KindOf(f)))
  }

  /** Every field passes its checks. */
  predicate Legal(a: OptimizeArgs, reading: Reading)
  {
    forall f: Field :: FieldOk(a, f, reading)
  }

  /** What it means for field `f` to have broken `rule`. A type error is
      reported only for a field its algorithm allows, and a range error
      only for a value of the right type. */
  predicate Breaks(a: OptimizeArgs, f: Field, rule: Rule, reading: Reading)
  {
    var v := Value(a, f);
    match rule
    case UnknownAlgorithm => f == Algorithm && v.StrV? && v.s !in OptimizeAlgos
    case ExcludedByAlgorithm => Excluded(a, f, reading)
    case WrongType => Present(a, f) && !Excluded(a, f, reading) && !WellTyped(v, KindOf(f))
    case OutOfRange =>
      f != Algorithm && Present(a, f) && !Excluded(a, f, reading)
      && WellTyped(v, KindOf(f)) && !InRange(v, KindOf(f))
  }

  /** The order in which `validate` visits the fields. */
  const ValidationOrder: seq<Field> :=
    [Algorithm, InitAlpha, Iter, TolObj, TolRelObj, TolGrad, TolRelGrad, TolParam, HistorySize]

  function Position(f: Field): (p: nat)
    ensures p < |ValidationOrder| && ValidationOrder[p] == f
  {
    match f
    case Algorithm => 0
    case InitAlpha => 1
    case Iter => 2
    case TolObj => 3
    case TolRelObj => 4
    case TolGrad => 5
    case TolRelGrad => 6
    case TolParam => 7
    case HistorySize => 8
  }

  /** `e` is the error `validate` raises: its field broke its rule and every
      field checked before it passed. */
  predicate FirstBroken(a: OptimizeArgs, e: Err, reading: Reading)
  {
    && Breaks(a, e.field, e.rule, reading)
    && forall g: Field :: Position(g) < Position(e.field) ==> FieldOk(a, g, reading)
  }

  // ---------------------------------------------------------------------
  // validate
  // ---------------------------------------------------------------------

  /** The checks `validate` makes on one field, in the order it makes them:
      the algorithm exclusion, then the `isinstance` test, then the sign. */
  function Check(a: OptimizeArgs, f: Field, reading: Reading): (r: Option<Err>)
    ensures r.None? <==> FieldOk(a, f, reading)
    ensures r.Some? ==> r.value.field == f && Breaks(a, f, r.value.rule, reading)
  {
    var v := Value(a, f);
    var k := KindOf(f);
    if v == NoneV then None
    else if Excluded(a, f, reading) then Some(Err(f, ExcludedByAlgorithm))
    else if !WellTyped(v, k) then Some(Err(f, WrongType))
    else if !InRange(v, k) then Some(Err(f, if f == Algorithm then UnknownAlgorithm else OutOfRange))
    else None
  }

  /** The first of `fields` whose checks fail, if any. */
  function FirstFailing(a: OptimizeArgs, fields: seq<Field>, reading: Reading): (r: Option<Err>)
    ensures r.None? <==> forall i :: 0 <= i < |fields| ==> FieldOk(a, fields[i], reading)
    ensures r.Some? ==>
      exists i :: 0 <= i < |fields| && fields[i] == r.value.field
        && Breaks(a, fields[i], r.value.rule, reading)
        && forall j :: 0 <= j < i ==> FieldOk(a, fields[j], reading)
    decreases |fields|
  {
    if |fields| == 0 then None
    else
      match Check(a, fields[0], reading)
      case Some(e) => Some(e)
      case None =>
        var r := FirstFailing(a, fields[1..], reading);
        assert forall i :: 1 <= i < |fields| ==> fields[i] == fields[1..][i - 1];
        r
  }

  /** Each field sits once in `ValidationOrder`, at its `Position`. */
  lemma PositionInverse(i: nat)
    requires i < |ValidationOrder|
    ensures Position(ValidationOrder[i]) == i
  {
  }

  /** Reading the result of `FirstFailing` over the whole validation order
      in terms of `Legal` and `FirstBroken`. */
  lemma FirstFailingOverOrder(a: OptimizeArgs, reading: Reading)
    ensures FirstFailing(a, ValidationOrder, reading).None? <==> Legal(a, reading)
    ensures FirstFailing(a, ValidationOrder, reading).Some? ==>
      FirstBroken(a, FirstFailing(a, ValidationOrder, reading).value, reading)
  {
    var r := FirstFailing(a, ValidationOrder, reading);
    if r.None? {
      forall f: Field ensures FieldOk(a, f, reading) {
        assert ValidationOrder[Position(f)] == f;
      }
    } else {
      var e := r.value;
      var i :| 0 <= i < |ValidationOrder| && ValidationOrder[i] == e.field
        && Breaks(a, ValidationOrder[i], e.rule, reading)
        && forall j :: 0 <= j < i ==> FieldOk(a, ValidationOrder[j], reading);
      PositionInverse(i);
      forall g: Field | Position(g) < Position(e.field) ensures FieldOk(a, g, reading) {
        assert ValidationOrder[Position(g)] == g;
      }
    }
  }

  /** `validate`: accepts exactly the legal arguments, unchanged, and
      otherwise raises at the first field, in `ValidationOrder`, that breaks
      a rule, naming that rule. */
  function Validate(a: OptimizeArgs, reading: Reading): (r: Result<OptimizeArgs, Err>)
    ensures r.Success? <==> Legal(a, reading)
    ensures r.Success? ==> r.value == a
    ensures r.Failure? ==> FirstBroken(a, r.error, reading)
  {
    FirstFailingOverOrder(a, reading);
    match FirstFailing(a, ValidationOrder, reading)
    case None => Success(a)
    case Some(e) => Failure(e)
  }

  // ---------------------------------------------------------------------
  // Construction
  // ---------------------------------------------------------------------

  /** `algorithm.lower() if algorithm else None`. */
  function NormalizeAlgorithm(name: Option<string>): (r: Option<string>)
    ensures r.None? <==> name.None? || name.value == ""
    ensures r.Some? ==> NoUpperAscii(r.value) && EqualIgnoringCase(name.value, r.value)
  {
    if name.Some? && name.value != "" then Some(Lower(name.value)) else None
  }

  /** The object `__init__` builds before it calls `validate`. */
  function Build(
    algorithm: Option<string>, initAlpha: PyVal, iter: PyVal, saveIterations: bool,
    tolObj: PyVal, tolRelObj: PyVal, tolGrad: PyVal, tolRelGrad: PyVal, tolParam: PyVal,
    historySize: PyVal): OptimizeArgs
  {
    OptimizeArgs(NormalizeAlgorithm(algorithm), initAlpha, iter, saveIterations,
                 tolObj, tolRelObj, tolGrad, tolRelGrad, tolParam, historySize)
  }

  /** `OptimizeArgs(...)` as the code is written: the object is built with
      the name lowered and is returned only if it validates. */
  function NewOptimizeArgs(
    algorithm: Option<string>, initAlpha: PyVal, iter: PyVal, saveIterations: bool,
    tolObj: PyVal, tolRelObj: PyVal, tolGrad: PyVal, tolRelGrad: PyVal, tolParam: PyVal,
    historySize: PyVal): (r: Result<OptimizeArgs, Err>)
    ensures
      var a := Build(algorithm, initAlpha, iter, saveIterations, tolObj, tolRelObj,
                     tolGrad, tolRelGrad, tolParam, historySize);
      && (r.Success? <==> Legal(a, AsWritten))
      && (r.Success? ==> r.value == a)
      && (r.Failure? ==> FirstBroken(a, r.error, AsWritten))
  {
    Validate(Build(algorithm, initAlpha, iter, saveIterations, tolObj, tolRelObj,
                   tolGrad, tolRelGrad, tolParam, historySize), AsWritten)
  }

  /** The constructor with `history_size` refused under BFGS as intended. */
  function NewOptimizeArgsIntended(
    algorithm: Option<string>, initAlpha: PyVal, iter: PyVal, saveIterations: bool,
    tolObj: PyVal, tolRelObj: PyVal, tolGrad: PyVal, tolRelGrad: PyVal, tolParam: PyVal,
    historySize: PyVal): (r: Result<OptimizeArgs, Err>)
    ensures
      var a := Build(algorithm, initAlpha, iter, saveIterations, tolObj, tolRelObj,
                     tolGrad, tolRelGrad, tolParam, historySize);
      && (r.Success? <==> Legal(a, Intended))
      && (r.Success? ==> r.value == a)
      && (r.Failure? ==> FirstBroken(a, r.error, Intended))
  {
    Validate(Build(algorithm, initAlpha, iter, saveIterations, tolObj, tolRelObj,
                   tolGrad, tolRelGrad, tolParam, historySize), Intended)
  }

  // ---------------------------------------------------------------------
  // Properties of validation
  // ---------------------------------------------------------------------

  /** A broken rule makes its field fail, and a field breaks at most one
      rule: the exclusion, the type and the range checks are exclusive. */
  lemma BreaksIsExclusive(a: OptimizeArgs, f: Field, r1: Rule, r2: Rule, reading: Reading)
    requires Breaks(a, f, r1, reading) && Breaks(a, f, r2, reading)
    ensures r1 == r2
    ensures !FieldOk(a, f, reading)
  {
  }

  /** The converse of `Validate`'s contract: the error the first-failure
      description singles out is exactly the one `validate` raises. */
  lemma {:induction false} ValidateErrorDetermined(a: OptimizeArgs, e: Err, reading: Reading)
    requires FirstBroken(a, e, reading)
    ensures Validate(a, reading).Failure?
    ensures Validate(a, reading).error == e
  {
    BreaksIsExclusive(a, e.field, e.rule, e.rule, reading);
    assert !Legal(a, reading);
    var r := Validate(a, reading);
    assert r.Failure?;
    var e' := r.error;
    BreaksIsExclusive(a, e'.field, e'.rule, e'.rule, reading);
    assert Position(e.field) == Position(e'.field);
    assert ValidationOrder[Position(e.field)] == e.field;
    assert ValidationOrder[Position(e'.field)] == e'.field;
    BreaksIsExclusive(a, e.field, e.rule, e'.rule, reading);
  }

  /** The fields Newton's method forbids: the line-search step size and the
      five convergence tolerances. */
  const NewtonExcludedFields: set<Field> := {InitAlpha, TolObj, TolRelObj, TolGrad, TolRelGrad, TolParam}

  /** With Newton, setting the step size or a tolerance is refused (at that
      field, once the fields before it pass); with any other algorithm, or
      none, these fields are never refused for the algorithm. */
  lemma NewtonExclusion(a: OptimizeArgs, f: Field, reading: Reading)
    requires f in NewtonExcludedFields
    ensures a.algorithm == Some("newton") && Present(a, f) ==> Validate(a, reading).Failure?
    ensures Validate(a, reading) == Failure(Err(f, ExcludedByAlgorithm))
            <==> a.algorithm == Some("newton") && Present(a, f)
                 && (forall g: Field :: Position(g) < Position(f) ==> FieldOk(a, g, reading))
  {
    assert ExcludingAlgorithms(f, reading) == {"newton"};
    if a.algorithm == Some("newton") && Present(a, f) {
      assert !FieldOk(a, f, reading);
      if forall g: Field :: Position(g) < Position(f) ==> FieldOk(a, g, reading) {
        ValidateErrorDetermined(a, Err(f, ExcludedByAlgorithm), reading);
      }
    }
  }

  /** The type is checked before the sign: a value of the wrong class is a
      type error, never a range error, and a range error is only reported
      for a value of the right class. */
  lemma TypeCheckedBeforeRange(a: OptimizeArgs, f: Field, reading: Reading)
    requires f != Algorithm
    ensures Validate(a, reading) == Failure(Err(f, OutOfRange)) ==> WellTyped(Value(a, f), KindOf(f))
    ensures Present(a, f) && !Excluded(a, f, reading) && !WellTyped(Value(a, f), KindOf(f))
            && (forall g: Field :: Position(g) < Position(f) ==> FieldOk(a, g, reading))
            ==> Validate(a, reading) == Failure(Err(f, WrongType))
  {
    if Present(a, f) && !Excluded(a, f, reading) && !WellTyped(Value(a, f), KindOf(f))
       && (forall g: Field :: Position(g) < Position(f) ==> FieldOk(a, g, reading)) {
      ValidateErrorDetermined(a, Err(f, WrongType), reading);
    }
  }

  /** Step size and tolerances: a set value is accepted only as a `float`
      that compares greater than 0; anything else is a type error, and a
      float that is `<= 0` is a range error. */
  lemma PositiveFloatRule(a: OptimizeArgs, f: Field, reading: Reading)
    requires f in NewtonExcludedFields
    requires a.algorithm != Some("newton")
    requires forall g: Field :: Position(g) < Position(f) ==> FieldOk(a, g, reading)
    ensures Present(a, f) && !IsInstanceFloat(Value(a, f)) ==> Validate(a, reading) == Failure(Err(f, WrongType))
    ensures IsInstanceFloat(Value(a, f)) && AtMostZero(Value(a, f).f) ==> Validate(a, reading) == Failure(Err(f, OutOfRange))
    ensures IsInstanceFloat(Value(a, f)) && !AtMostZero(Value(a, f).f)
            ==> FieldOk(a, f, reading) && (Validate(a, reading).Failure? ==> Validate(a, reading).error.field != f)
  {
    assert ExcludingAlgorithms(f, reading) == {"newton"};
    assert KindOf(f) == PositiveFloat;
    assert !Excluded(a, f, reading);
    var v := Value(a, f);
    if Present(a, f) && !IsInstanceFloat(v) {
      ValidateErrorDetermined(a, Err(f, WrongType), reading);
    }
    if IsInstanceFloat(v) && AtMostZero(v.f) {
      ValidateErrorDetermined(a, Err(f, OutOfRange), reading);
    }
    if IsInstanceFloat(v) && !AtMostZero(v.f) && Validate(a, reading).Failure? {
      var e := Validate(a, reading).error;
      if e.field == f {
        BreaksIsExclusive(a, f, e.rule, e.rule, reading);
      }
    }
  }

  /** `iter`: an `int` (a `bool` included) that is 0 or more passes; a
      negative one is a range error although 0 is allowed, and anything that
      is not an `int` is a type error. `iter` is never excluded by the
      algorithm. */
  lemma IterRule(a: OptimizeArgs, reading: Reading)
    requires FieldOk(a, Algorithm, reading) && FieldOk(a, InitAlpha, reading)
    ensures a.iter.IntV? ==> (Validate(a, reading) == Failure(Err(Iter, OutOfRange)) <==> a.iter.i < 0)
    ensures Present(a, Iter) && !IsInstanceInt(a.iter) ==> Validate(a, reading) == Failure(Err(Iter, WrongType))
    ensures Validate(a, reading) != Failure(Err(Iter, ExcludedByAlgorithm))
  {
    assert forall g: Field :: Position(g) < Position(Iter) ==> g == Algorithm || g == InitAlpha;
    if a.iter.IntV? && a.iter.i < 0 {
      ValidateErrorDetermined(a, Err(Iter, OutOfRange), reading);
    }
    if Present(a, Iter) && !IsInstanceInt(a.iter) {
      ValidateErrorDetermined(a, Err(Iter, WrongType), reading);
    }
  }

  // ---------------------------------------------------------------------
  // Properties of construction
  // ---------------------------------------------------------------------

  /** The algorithm name is matched without regard to case: an absent or
      empty name is stored as `None`, a name equal up to case to a
      recognised one is stored in lower case, and any other name is refused
      as unknown, whatever the other arguments are. */
  lemma AlgorithmNameRule(
    name: Option<string>, initAlpha: PyVal, iter: PyVal, saveIterations: bool,
    tolObj: PyVal, tolRelObj: PyVal, tolGrad: PyVal, tolRelGrad: PyVal, tolParam: PyVal,
    historySize: PyVal, reading: Reading)
    ensures
      var a := Build(name, initAlpha, iter, saveIterations, tolObj, tolRelObj,
                     tolGrad, tolRelGrad, tolParam, historySize);
      && (name.None? || name.value == "" ==> a.algorithm.None?)
      && (forall known :: known in OptimizeAlgos && name.Some? && EqualIgnoringCase(name.value, known)
            ==> a.algorithm == Some(known) && FieldOk(a, Algorithm, reading))
      && ((Validate(a, reading) == Failure(Err(Algorithm, UnknownAlgorithm)))
          <==> (name.Some? && name.value != "" && Lower(name.value) !in OptimizeAlgos))
  {
    var a := Build(name, initAlpha, iter, saveIterations, tolObj, tolRelObj,
                   tolGrad, tolRelGrad, tolParam, historySize);
    forall known | known in OptimizeAlgos && name.Some? && EqualIgnoringCase(name.value, known)
      ensures a.algorithm == Some(known)
    {
      assert NoUpperAscii(known);
      LowerCharacterisation(known, name.value);
      LowerCharacterisation(name.value, known);
    }
    if name.Some? && name.value != "" && Lower(name.value) !in OptimizeAlgos {
      ValidateErrorDetermined(a, Err(Algorithm, UnknownAlgorithm), reading);
    }
  }

  /** With every optional argument left unset, construction succeeds for no
      algorithm and for any spelling of a recognised one. */
  lemma AllUnsetAccepted(name: Option<string>, saveIterations: bool)
    requires name.None? || exists known :: known in OptimizeAlgos && EqualIgnoringCase(name.value, known)
    ensures NewOptimizeArgs(name, NoneV, NoneV, saveIterations, NoneV, NoneV, NoneV, NoneV, NoneV, NoneV).Success?
    ensures NewOptimizeArgsIntended(name, NoneV, NoneV, saveIterations, NoneV, NoneV, NoneV, NoneV, NoneV, NoneV).Success?
  {
    if name.Some? {
      var known :| known in OptimizeAlgos && EqualIgnoringCase(name.value, known);
      assert NoUpperAscii(known);
      LowerCharacterisation(known, name.value);
    }
  }

  /** No lowered name equals `'BFGS'`. */
  lemma LoweredIsNotUpperBfgs(name: Option<string>)
    ensures NormalizeAlgorithm(name) != Some("BFGS")
  {
    assert IsUpperAscii("BFGS"[0]);
  }

  /** The code as written: `history_size` is refused for the algorithm only
      when the lowered name is `newton`. With `bfgs`, in any case, it is
      accepted like with `lbfgs`; the `'BFGS'` comparison can never hold. */
  lemma {:induction false} AsWrittenHistorySizeOnlyExcludedByNewton(
    name: Option<string>, initAlpha: PyVal, iter: PyVal, saveIterations: bool,
    tolObj: PyVal, tolRelObj: PyVal, tolGrad: PyVal, tolRelGrad: PyVal, tolParam: PyVal,
    historySize: PyVal)
    ensures
      NewOptimizeArgs(name, initAlpha, iter, saveIterations, tolObj, tolRelObj,
                      tolGrad, tolRelGrad, tolParam, historySize) == Failure(Err(HistorySize, ExcludedByAlgorithm))
      ==> NormalizeAlgorithm(name) == Some("newton")
  {
    LoweredIsNotUpperBfgs(name);
  }

  /** The code as written, on `algorithm` spelled `bfgs` in any case with
      `history_size=5`: the arguments are accepted. */
  lemma AcceptsBfgsHistorySize(name: Option<string>)
    requires name.Some? && EqualIgnoringCase(name.value, "bfgs")
    ensures NewOptimizeArgs(name, NoneV, NoneV, false, NoneV, NoneV, NoneV, NoneV, NoneV, IntV(5)).Success?
  {
    var a := Build(name, NoneV, NoneV, false, NoneV, NoneV, NoneV, NoneV, NoneV, IntV(5));
    assert NoUpperAscii("bfgs");
    LowerCharacterisation("bfgs", name.value);
    assert a.algorithm == Some("bfgs");
    forall g: Field ensures FieldOk(a, g, AsWritten) {
      if g == HistorySize {
        assert "bfgs" !in ExcludingAlgorithms(HistorySize, AsWritten);
      }
    }
  }

  /** The intended rule: `history_size` is refused, at that field, with
      BFGS written in any case, once the fields before it pass. */
  lemma IntendedExcludesBfgsHistorySize(
    name: string, initAlpha: PyVal, iter: PyVal, saveIterations: bool,
    tolObj: PyVal, tolRelObj: PyVal, tolGrad: PyVal, tolRelGrad: PyVal, tolParam: PyVal,
    historySize: PyVal)
    requires EqualIgnoringCase(name, "bfgs")
    requires historySize != NoneV
    requires
      var a := Build(Some(name), initAlpha, iter, saveIterations, tolObj, tolRelObj,
                     tolGrad, tolRelGrad, tolParam, historySize);
      forall g: Field :: Position(g) < Position(HistorySize) ==> FieldOk(a, g, Intended)
    ensures
      var r := NewOptimizeArgsIntended(Some(name), initAlpha, iter, saveIterations, tolObj, tolRelObj,
                                       tolGrad, tolRelGrad, tolParam, historySize);
      r.Failure? && r.error == Err(HistorySize, ExcludedByAlgorithm)
  {
    var a := Build(Some(name), initAlpha, iter, saveIterations, tolObj, tolRelObj,
                   tolGrad, tolRelGrad, tolParam, historySize);
    assert NoUpperAscii("bfgs");
    LowerCharacterisation("bfgs", name);
    assert a.algorithm == Some("bfgs");
    ValidateErrorDetermined(a, Err(HistorySize, ExcludedByAlgorithm), Intended);
  }

  /** The corrected check, on `algorithm` spelled `bfgs` in any case with
      `history_size=5`: `history_size` is refused for the algorithm. */
  lemma RefusesBfgsHistorySize(name: Option<string>)
    requires name.Some? && EqualIgnoringCase(name.value, "bfgs")
    ensures NewOptimizeArgsIntended(name, NoneV, NoneV, false, NoneV, NoneV, NoneV, NoneV, NoneV, IntV(5)).Failure?
    ensures NewOptimizeArgsIntended(name, NoneV, NoneV, false, NoneV, NoneV, NoneV, NoneV, NoneV, IntV(5)).error
            == Err(HistorySize, ExcludedByAlgorithm)
  {
    var a := Build(name, NoneV, NoneV, false, NoneV, NoneV, NoneV, NoneV, NoneV, IntV(5));
    assert NoUpperAscii("bfgs");
    LowerCharacterisation("bfgs", name.value);
    assert a.algorithm == Some("bfgs");
    assert "bfgs" in ExcludingAlgorithms(HistorySize, Intended);
    forall g: Field | Position(g) < Position(HistorySize) ensures FieldOk(a, g, Intended) {
    }
    ValidateErrorDetermined(a, Err(HistorySize, ExcludedByAlgorithm), Intended);
  }

  /** `history_size`, when its algorithm allows it, must be an `int` that is
      0 or more: a negative one is a range error and a non-`int` a type
      error. Newton refuses it in both readings. */
  lemma HistorySizeRule(a: OptimizeArgs, reading: Reading)
    requires forall g: Field :: Position(g) < Position(HistorySize) ==> FieldOk(a, g, reading)
    ensures Present(a, HistorySize) && a.algorithm == Some("newton")
            ==> Validate(a, reading) == Failure(Err(HistorySize, ExcludedByAlgorithm))
    ensures !Excluded(a, HistorySize, reading) && a.historySize.IntV? && a.historySize.i < 0
            ==> Validate(a, reading) == Failure(Err(HistorySize, OutOfRange))
    ensures !Excluded(a, HistorySize, reading) && Present(a, HistorySize) && !IsInstanceInt(a.historySize)
            ==> Validate(a, reading) == Failure(Err(HistorySize, WrongType))
    ensures !Excluded(a, HistorySize, reading) && a.historySize.IntV? && a.historySize.i >= 0
            ==> Validate(a, reading).Success?
  {
    var h := a.historySize;
    if Present(a, HistorySize) && a.algorithm == Some("newton") {
      ValidateErrorDetermined(a, Err(HistorySize, ExcludedByAlgorithm), reading);
    }
    if !Excluded(a, HistorySize, reading) && h.IntV? && h.i < 0 {
      ValidateErrorDetermined(a, Err(HistorySize, OutOfRange), reading);
    }
    if !Excluded(a, HistorySize, reading) && Present(a, HistorySize) && !IsInstanceInt(h) {
      ValidateErrorDetermined(a, Err(HistorySize, WrongType), reading);
    }
    if !Excluded(a, HistorySize, reading) && h.IntV? && h.i >= 0 {
      assert forall g: Field :: FieldOk(a, g, reading) by {
        forall g: Field ensures FieldOk(a, g, reading) {
          if g != HistorySize {
            assert Position(g) < Position(HistorySize);
          }
        }
      }
    }
  }
}
