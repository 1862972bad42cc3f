# Optimizer arguments of cmdstanpy, modelled in Dafny

This project models `OptimizeArgs`, the cmdstanpy component that holds the
arguments of CmdStan's `optimize` method. The model covers its two jobs:

* **Validation.** The constructor lowers the algorithm name. It then checks
  the optional arguments one field at a time and raises at the first
  broken rule. The rules are:
  * the algorithm must be one of `bfgs`, `lbfgs` and `newton`;
  * Newton forbids the step size and the five tolerances;
  * a value must pass its `isinstance` test before its sign is checked;
  * floats must not compare `<= 0` (so NaN passes), and ints may be 0 or more.
* **Serialisation.** `compose_command` appends `method=optimize` and then
  one `key=value` token per set field, in a fixed order, to a prefix
  supplied by the run configuration.

Files:

* `wrappers.dfy`: `Option` and `Result`.
* `py_values.dfy` (module `PyValues`): Python values tagged by their class
  (`None`, `bool`, `int`, `float`, `str` or another object). It also holds
  what the component does with them:
  * `isinstance`, where a `bool` counts as an `int`;
  * `<= 0` on floats, where NaN compares false;
  * `str.lower`;
  * `'{}'.format`. An `int` is written as decimal digits, and that text
    reads back as the same integer.
* `optimize_args.dfy` (module `Optimize`): the fields, the rules as
  declarative predicates (`FieldOk`, `Breaks`, `Legal`, `FirstBroken`),
  `validate` as `Validate`, and the constructor as `NewOptimizeArgs`.
* `command.dfy` (module `Command`): `compose_command` as `ComposeCommand`.
  Its partner is a reader, `ParseOptimizer`, that reads the tokens back
  in the fixed order.
* `scenarios.dfy` (module `Scenarios`): concrete inputs whose outcome is
  pinned, including the full command of an L-BFGS example.

Validation takes a `Reading`. `AsWritten` is the code's `history_size`
comparison with the literal `'BFGS'`. `Intended` compares with `'bfgs'`
instead. `NewOptimizeArgs` uses `AsWritten`, so the model keeps the
behaviour the code has. `NewOptimizeArgsIntended` is the corrected
constructor. See Findings below. Every other rule is the same in both
readings, and the lemmas with a `reading` parameter hold for both.

`begin_command(rs, idx)` belongs to another component. Here it becomes a
`prefix: seq<string>` parameter. Python's `repr` of a float becomes a
`floatRepr: Float -> string` parameter.

## Model

| member | source | states |
|---|---|---|
| PyValues.Lower | cmdstanpy/cmdstan_args/optimize.py:32 | the lowered name has no upper-case letter and equals the given name up to case |
| PyValues.LowerCharacterisation | cmdstanpy/cmdstan_args/optimize.py:32 | lowering leaves exactly the lower-case names unchanged; two names lower to the same text exactly when they are equal up to case |
| PyValues.IntToDecimalRoundTrip | cmdstanpy/cmdstan_args/optimize.py:169-172 | the decimal text `'{}'.format` gives an int reads back as the same int |
| PyValues.Str | cmdstanpy/cmdstan_args/optimize.py:156-172 | the text inserted for an int reads back as that int; a str is inserted unchanged; a float is inserted as its repr |
| Optimize.NormalizeAlgorithm | cmdstanpy/cmdstan_args/optimize.py:32 | an absent or empty name becomes None; any other name is stored lower-case and equal to the given name up to case |
| Optimize.FirstFailing | cmdstanpy/cmdstan_args/optimize.py:49-142 | the result is empty exactly when every listed field passes; otherwise it names a listed field that broke the named rule, with every field before it passing |
| Optimize.Validate | cmdstanpy/cmdstan_args/optimize.py:45-142 | succeeds exactly when every field passes its rules, and then returns the arguments unchanged; otherwise the error names the first field in validation order that fails, and the rule it breaks |
| Optimize.NewOptimizeArgs | cmdstanpy/cmdstan_args/optimize.py:16-43 | construction lowers the name, then accepts exactly the legal arguments and otherwise reports the first broken field and rule (code as written) |
| Optimize.NewOptimizeArgsIntended | cmdstanpy/cmdstan_args/optimize.py:132-137 | the same constructor with `history_size` refused under BFGS as intended |
| Optimize.BreaksIsExclusive | cmdstanpy/cmdstan_args/optimize.py:59-142 | a field breaks at most one rule (algorithm, exclusion, type, range), and a broken rule makes the field fail |
| Optimize.ValidateErrorDetermined | cmdstanpy/cmdstan_args/optimize.py:49-142 | conversely, if a field breaks a rule and every earlier field passes, validation raises exactly that field and rule |
| Optimize.NewtonExclusion | cmdstanpy/cmdstan_args/optimize.py:59-130 | with Newton, setting init_alpha or a tolerance is refused; the refusal for the algorithm at such a field happens exactly when the algorithm is newton, the field is set and the earlier fields pass |
| Optimize.TypeCheckedBeforeRange | cmdstanpy/cmdstan_args/optimize.py:64-75 | a range error is only reported for a value of the right class; a value of the wrong class is a type error |
| Optimize.PositiveFloatRule | cmdstanpy/cmdstan_args/optimize.py:64-68 | without Newton and with the earlier fields passing: a set step size or tolerance that is not a float is a type error; a float `<= 0` is a range error; any other float (including NaN) passes, so validation never stops at that field |
| Optimize.IterRule | cmdstanpy/cmdstan_args/optimize.py:70-75 | an int iter is a range error exactly when negative (0 passes); a non-int is a type error; iter is never refused for the algorithm |
| Optimize.AlgorithmNameRule | cmdstanpy/cmdstan_args/optimize.py:32-57 | an absent or empty name is stored as None; a name equal up to case to a known one is stored lower-case and passes; the name is refused as unknown exactly when it is non-empty and its lowered form is not known |
| Optimize.AllUnsetAccepted | cmdstanpy/cmdstan_args/optimize.py:49-142 | with every optional argument unset, no algorithm or any spelling of a known one is accepted, in both readings |
| Optimize.LoweredIsNotUpperBfgs | cmdstanpy/cmdstan_args/optimize.py:32-133 | no stored algorithm name equals the literal `BFGS` |
| Optimize.AsWrittenHistorySizeOnlyExcludedByNewton | cmdstanpy/cmdstan_args/optimize.py:132-137 | as written, history_size is refused for the algorithm only when the lowered name is newton |
| Optimize.AcceptsBfgsHistorySize | cmdstanpy/cmdstan_args/optimize.py:132-142 | as written, any spelling of bfgs with history_size 5 is accepted |
| Optimize.RefusesBfgsHistorySize | cmdstanpy/cmdstan_args/optimize.py:132-137 | corrected: any spelling of bfgs with history_size 5 is refused for the algorithm |
| Optimize.IntendedExcludesBfgsHistorySize | cmdstanpy/cmdstan_args/optimize.py:132-137 | corrected: any spelling of bfgs with history_size set is refused at history_size, once the earlier fields pass |
| Optimize.HistorySizeRule | cmdstanpy/cmdstan_args/optimize.py:132-142 | with Newton, history_size is refused for the algorithm; otherwise a negative int is a range error, a non-int a type error, and an int that is 0 or more passes |
| Command.ComposeCommand | cmdstanpy/cmdstan_args/optimize.py:148-176 | the command is the prefix unchanged, then `method=optimize`, then the optimizer tokens; its length is the prefix length + 1 + the number of set fields + 1 if save_iterations |
| Command.OptionalTokensLength | cmdstanpy/cmdstan_args/optimize.py:155-172 | over distinct fields, there is one optional token per set field |
| Command.TokenSplits | cmdstanpy/cmdstan_args/optimize.py:156-172 | a `key=value` token splits back at its first `=` into its key and its value |
| Command.ComposeThenParse | cmdstanpy/cmdstan_args/optimize.py:148-176 | reading the command back in the fixed order recovers each set field's value text, no unset field, and the save_iterations flag |
| Command.IterRoundTrip | cmdstanpy/cmdstan_args/optimize.py:171-172 | an int iter is read back from the command as the same int |
| Command.TokensExactlyOnce | cmdstanpy/cmdstan_args/optimize.py:155-172 | each field's key occurs once after `method=optimize` if the field is set and not at all otherwise; `algorithm=` needs a non-empty name |
| Command.SaveIterationsFlag | cmdstanpy/cmdstan_args/optimize.py:173-174 | `save_iterations=1` is there exactly when the flag is true; `save_iterations=0` never is |
| Command.TokensInEmissionOrder | cmdstanpy/cmdstan_args/optimize.py:155-172 | for two set fields, the first in the order algorithm, init_alpha, tol_obj, tol_rel_obj, tol_grad, tol_rel_grad, tol_param, history_size, iter has its token before the other's |
| Scenarios.IterZeroAccepted | cmdstanpy/cmdstan_args/optimize.py:70-75 | iter 0 is accepted although the message says "greater than 0" |
| Scenarios.IterNegativeRefused | cmdstanpy/cmdstan_args/optimize.py:72-73 | iter -1 is a range error |
| Scenarios.IterFloatRefused | cmdstanpy/cmdstan_args/optimize.py:74-75 | iter 2.5 is a type error |
| Scenarios.IterTrueAccepted | cmdstanpy/cmdstan_args/optimize.py:71-73 | iter True passes the int check (bool is a subclass of int) |
| Scenarios.InitAlphaNegativeRefused | cmdstanpy/cmdstan_args/optimize.py:64-66 | init_alpha -0.1 is a range error |
| Scenarios.InitAlphaNotFloatRefused | cmdstanpy/cmdstan_args/optimize.py:64-68 | init_alpha 'x' and init_alpha 1 (an int) are type errors |
| Scenarios.InitAlphaWithLbfgsAccepted | cmdstanpy/cmdstan_args/optimize.py:59-68 | init_alpha 0.5 with lbfgs is accepted |
| Scenarios.InitAlphaWithNewtonRefused | cmdstanpy/cmdstan_args/optimize.py:59-63 | with `Newton`, init_alpha is refused for the algorithm before its type is looked at |
| Scenarios.HistorySizeWithNewtonRefused | cmdstanpy/cmdstan_args/optimize.py:132-137 | history_size 5 with newton is refused for the algorithm |
| Scenarios.HistorySizeWithLbfgs | cmdstanpy/cmdstan_args/optimize.py:132-142 | history_size 5 with lbfgs is accepted |
| Scenarios.NegativeHistorySizeRefused | cmdstanpy/cmdstan_args/optimize.py:138-139 | history_size -1 with lbfgs is a range error |
| Scenarios.NaNToleranceAccepted | cmdstanpy/cmdstan_args/optimize.py:77-86 | a NaN tol_obj passes because `nan <= 0` is false; negative infinity is a range error |
| Scenarios.LbfgsArgsValid | cmdstanpy/cmdstan_args/optimize.py:16-43 | `algorithm='LBFGS', iter=100, save_iterations=True, tol_obj=1e-8` is accepted and stores `lbfgs` |
| Scenarios.LbfgsOptimizerTokens | cmdstanpy/cmdstan_args/optimize.py:155-174 | for those arguments the optimizer tokens are exactly `algorithm=lbfgs tol_obj=<repr> iter=100 save_iterations=1` |
| Scenarios.LbfgsCommand | cmdstanpy/cmdstan_args/optimize.py:148-176 | those arguments after the prefix `id=1 data file=d.json` give exactly `method=optimize algorithm=lbfgs tol_obj=<repr> iter=100 save_iterations=1` |

## Left out

- `begin_command` and `RunConfiguration` (line 152) belong to a component that is not part of this model. Their result is the opaque `prefix` parameter, and the model proves that the prefix passes through unchanged.
- `method()` and `Method.OPTIMIZE` (lines 144-146) return a constant from a module that is not part of this model.
- The `thin` field (line 42) is always `None` and is never read.
- The text of Python's float `repr` (for example `1e-08`) is the `floatRepr` parameter and is not modelled.
- Finite floats are modelled as real numbers. Rounding and the binary format are not modelled. NaN and the two infinities are modelled, because they change the outcome of `<= 0`.
- PyValues.Lower: maps only the ASCII letters A-Z, while Python's `str.lower` is Unicode-aware. No non-ASCII character lowers into one of the letters of `bfgs`, `lbfgs` or `newton`, so which names are accepted is unaffected. Only the stored text of names that get rejected can differ.
- Algorithm arguments other than `None` or a `str` are not modelled. A truthy value that is not a `str` and has no `lower` method raises `AttributeError` at line 32. A falsy one (`0`, `False`, `[]`) fails `if algorithm` and is stored as `None`. A `bytes` value is lowered and then refused as unknown at line 51. The model types the argument as an optional string.
- PyValues.Str: writes every `int` as its decimal digits. From CPython 3.11 on, and in the patched 3.7-3.10 releases, `'{}'.format` raises `ValueError` for an int of more than 4300 digits (`sys.get_int_max_str_digits()`). So `iter=10**5000` passes `validate`, because line 72 only checks `< 0`, and then `compose_command` raises at line 172. The model has no such limit, because it depends on the interpreter's version and settings.
- `save_iterations` is taken as a `bool`. Python's truthiness for other values, which the code does not check, is not modelled.
- The wording of the `ValueError` messages is replaced by a field and a rule.
- After construction the Python object's attributes could be reassigned without being checked again. The model treats the arguments as an immutable value.
- Repeated calls to `compose_command` with the same inputs give the same tokens. Here this holds because `ComposeCommand` is a pure function, so there is no separate lemma.

## Findings

| source | as written | input that shows it | evidently intended | confidence | as-written member | corrected member |
|---|---|---|---|---|---|---|
| cmdstanpy/cmdstan_args/optimize.py:133 | `history_size` is refused when the algorithm equals `'newton'` or `'BFGS'`. The name was lowered at line 32, so it can never equal `'BFGS'`. | `algorithm='bfgs'` (or `'BFGS'`) with `history_size=5` is accepted | refused, as the message on lines 135-136 says ("must not be set when algorithm is newton or BFGS"); history size only applies to L-BFGS | high; not executed | Optimize.AcceptsBfgsHistorySize | Optimize.RefusesBfgsHistorySize |

In the code as written, `history_size` with BFGS is therefore accepted, and
`NewOptimizeArgs` keeps this behaviour. `NewOptimizeArgsIntended` refuses
it. `Optimize.AsWrittenHistorySizeOnlyExcludedByNewton` shows that for
every input, the as-written check refuses `history_size` for the
algorithm only under Newton.
