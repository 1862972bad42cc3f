/** `compose_command`: the optimizer's part of the command line, appended
    to the prefix the run configuration supplies. */
module Command {
  import opened Wrappers
  import opened PyValues
  import opened Optimize

  const MethodToken: string := "method=optimize"
  const SaveIterationsKey: string := "save_iterations"
  const SaveIterationsToken: string := "save_iterations=1"

  /** The order in which the optional `key=value` tokens are appended. It
      differs from the validation order: `iter` comes last. */
  const EmissionOrder: seq<Field> :=
    [Algorithm, InitAlpha, TolObj, TolRelObj, TolGrad, TolRelGrad, TolParam, HistorySize, Iter]

  /** The command-line key of each field. */
  function Key(f: Field): (k: string)
    ensures |k| > 0 && '=' !in k
  {
    match f
    case Algorithm => "algorithm"
    case InitAlpha => "init_alpha"
    case Iter => "iter"
    case TolObj => "tol_obj"
    case TolRelObj => "tol_rel_obj"
    case TolGrad => "tol_grad"
    case TolRelGrad => "tol_rel_grad"
    case TolParam => "tol_param"
    case HistorySize => "history_size"
  }

  function Token(key: string, value: string): string
  {
    key + "=" + value
  }

  /** Whether `compose_command` appends a token for `f`: the algorithm when
      its name is non-empty (`if self.algorithm`), any other field when it
      is not `None`. */
  predicate Emitted(a: OptimizeArgs, f: Field)
  {
    if f == Algorithm then a.algorithm.Some? && a.algorithm.value != "" else Value(a, f) != NoneV
  }

  /** The value text of `f`'s token, `'{}'.format(value)`. */
  function Text(a: OptimizeArgs, f: Field, floatRepr: Float -> string): string
  {
    Str(Value(a, f), floatRepr)
  }

  function OptionalTokens(a: OptimizeArgs, fields: seq<Field>, floatRepr: Float -> string): seq<string>
    decreases |fields|
  {
    if |fields| == 0 then []
    else
      (if Emitted(a, fields[0]) then [Token(Key(fields[0]), Text(a, fields[0], floatRepr))] else [])
      + OptionalTokens(a, fields[1..], floatRepr)
  }

  /** The set-valued tokens `compose_command` appends after `method=optimize`. */
  function OptimizerTokens(a: OptimizeArgs, floatRepr: Float -> string): seq<string>
  {
    OptionalTokens(a, EmissionOrder, floatRepr) + FlagTokens(a)
  }

  /** The fields that get a token. */
  function EmittedFields(a: OptimizeArgs): set<Field>
  {
    set f: Field | f in EmissionOrder && Emitted(a, f)
  }

  predicate Distinct(fields: seq<Field>)
  {
    forall i, j :: 0 <= i < j < |fields| ==> fields[i] != fields[j]
  }

  lemma {:induction false} OptionalTokensLength(a: OptimizeArgs, fields: seq<Field>, floatRepr: Float -> string)
    requires Distinct(fields)
    ensures |OptionalTokens(a, fields, floatRepr)| == |set f: Field | f in fields && Emitted(a, f)|
    decreases |fields|
  {
    if |fields| > 0 {
      var rest := fields[1..];
      OptionalTokensLength(a, rest, floatRepr);
      var all := set f: Field | f in fields && Emitted(a, f);
      var tail := set f: Field | f in rest && Emitted(a, f);
      assert fields[0] !in rest;
      if Emitted(a, fields[0]) {
        assert all == {fields[0]} + tail;
      } else {
        assert all == tail;
      }
    }
  }

  /** `compose_command(rs, idx)`, where `prefix` is what
      `begin_command(rs, idx)` returned: the prefix unchanged, then
      `method=optimize`, then one token per set field and the flag. */
  function ComposeCommand(prefix: seq<string>, a: OptimizeArgs, floatRepr: Float -> string): (cmd: seq<string>)
    ensures |cmd| == |prefix| + 1 + |EmittedFields(a)| + (if a.saveIterations then 1 else 0)
    ensures cmd[..|prefix|] == prefix
    ensures cmd[|prefix|] == MethodToken
    ensures cmd[|prefix| + 1..] == OptimizerTokens(a, floatRepr)
  {
    OptimizerTokensLength(a, floatRepr);
    prefix + [MethodToken] + OptimizerTokens(a, floatRepr)
  }

  lemma OptimizerTokensLength(a: OptimizeArgs, floatRepr: Float -> string)
    ensures |OptimizerTokens(a, floatRepr)| == |EmittedFields(a)| + (if a.saveIterations then 1 else 0)
  {
    EmissionOrderDistinct();
    OptionalTokensLength(a, EmissionOrder, floatRepr);
  }

  // ---------------------------------------------------------------------
  // Reading tokens back
  // ---------------------------------------------------------------------

  /** The text before the first `=` of a token. */
  function KeyOf(token: string): string
    decreases |token|
  {
    if |token| == 0 || token[0] == '=' then "" else [token[0]] + KeyOf(token[1..])
  }

  /** The text after the first `=` of a token. */
  function ValueOf(token: string): string
    decreases |token|
  {
    if |token| == 0 then "" else if token[0] == '=' then token[1..] else ValueOf(token[1..])
  }

  /** A token splits back into its key and its value. */
  lemma {:induction false} TokenSplits(key: string, value: string)
    requires '=' !in key
    ensures KeyOf(Token(key, value)) == key
    ensures ValueOf(Token(key, value)) == value
    decreases |key|
  {
    if |key| > 0 {
      assert Token(key, value)[1..] == Token(key[1..], value);
      TokenSplits(key[1..], value);
    } else {
      assert Token(key, value) == "=" + value;
    }
  }

  /** What the optimizer's tokens say: the value text of each field that has
      a token, and whether the flag is there. */
  datatype ParsedOptions = ParsedOptions(values: map<Field, string>, saveIterations: bool)

  /** Reads tokens that follow `fields` in order, each field at most once,
      with the flag token, if any, last. */
  function ParseFields(tokens: seq<string>, fields: seq<Field>): Option<ParsedOptions>
    decreases |fields|
  {
    if |fields| == 0 then
      if tokens == [] then Some(ParsedOptions(map[], false))
      else if tokens == [SaveIterationsToken] then Some(ParsedOptions(map[], true))
      else None
    else if |tokens| > 0 && KeyOf(tokens[0]) == Key(fields[0]) then
      match ParseFields(tokens[1..], fields[1..])
      case None => None
      case Some(p) => Some(p.(values := p.values[fields[0] := ValueOf(tokens[0])]))
    else ParseFields(tokens, fields[1..])
  }

  /** Reads the optimizer's part of a command line, from `method=optimize`
      on, taking the field tokens back in the emission order. */
  function ParseOptimizer(tokens: seq<string>): Option<ParsedOptions>
  {
    if |tokens| > 0 && tokens[0] == MethodToken then ParseFields(tokens[1..], EmissionOrder) else None
  }

  /** The options an `OptimizeArgs` object is meant to convey. */
  function Conveyed(a: OptimizeArgs, floatRepr: Float -> string): ParsedOptions
  {
    ParsedOptions(ConveyedValues(a, EmissionOrder, floatRepr), a.saveIterations)
  }

  // ---------------------------------------------------------------------
  // Properties of the command
  // ---------------------------------------------------------------------

  /** Where each field's token goes among the optional tokens. */
  function EmissionIndex(f: Field): (i: nat)
    ensures i < |EmissionOrder| && EmissionOrder[i] == f
  {
    match f
    case Algorithm => 0
    case InitAlpha => 1
    case TolObj => 2
    case TolRelObj => 3
    case TolGrad => 4
    case TolRelGrad => 5
    case TolParam => 6
    case HistorySize => 7
    case Iter => 8
  }

  lemma EmissionOrderDistinct()
    ensures Distinct(EmissionOrder)
  {
  }

  /** Different fields have different keys. */
  lemma KeysDistinct(f: Field, g: Field)
    ensures Key(f) == Key(g) ==> f == g
  {
  }

  /** No field's key is `save_iterations`. */
  lemma KeyIsNotSaveIterations(f: Field)
    ensures Key(f) != SaveIterationsKey
  {
  }

  lemma SaveIterationsTokenSplits()
    ensures KeyOf(SaveIterationsToken) == SaveIterationsKey
    ensures ValueOf(SaveIterationsToken) == "1"
  {
    assert SaveIterationsToken == Token(SaveIterationsKey, "1");
    TokenSplits(SaveIterationsKey, "1");
  }

  /** The `save_iterations=1` token when the flag is true. */
  function FlagTokens(a: OptimizeArgs): seq<string>
  {
    if a.saveIterations then [SaveIterationsToken] else []
  }

  /** The token of a field, or nothing when it has none. */
  function FieldTokens(a: OptimizeArgs, f: Field, floatRepr: Float -> string): seq<string>
  {
    if Emitted(a, f) then [Token(Key(f), Text(a, f, floatRepr))] else []
  }

  lemma OptionalTokensUnfold(a: OptimizeArgs, fields: seq<Field>, floatRepr: Float -> string)
    requires |fields| > 0
    ensures OptionalTokens(a, fields, floatRepr)
            == FieldTokens(a, fields[0], floatRepr) + OptionalTokens(a, fields[1..], floatRepr)
  {
  }

  /** Every optional token is the token of an emitted field among `fields`. */
  lemma {:induction false} OptionalTokensAreFieldTokens(a: OptimizeArgs, fields: seq<Field>, floatRepr: Float -> string, i: nat)
    requires i < |OptionalTokens(a, fields, floatRepr)|
    ensures exists f :: f in fields && Emitted(a, f)
              && OptionalTokens(a, fields, floatRepr)[i] == Token(Key(f), Text(a, f, floatRepr))
    decreases |fields|
  {
    OptionalTokensUnfold(a, fields, floatRepr);
    var head := FieldTokens(a, fields[0], floatRepr);
    var tail := OptionalTokens(a, fields[1..], floatRepr);
    if i >= |head| {
      OptionalTokensAreFieldTokens(a, fields[1..], floatRepr, i - |head|);
      var f :| f in fields[1..] && Emitted(a, f) && tail[i - |head|] == Token(Key(f), Text(a, f, floatRepr));
      assert f in fields;
    } else {
      assert fields[0] in fields;
    }
  }

  /** The key of the first token left for `ParseFields` after a field
      without a token is not that field's key. */
  lemma NextKeyDiffers(a: OptimizeArgs, fields: seq<Field>, floatRepr: Float -> string)
    requires |fields| > 0 && Distinct(fields)
    ensures var tokens := OptionalTokens(a, fields[1..], floatRepr) + FlagTokens(a);
            |tokens| > 0 ==> KeyOf(tokens[0]) != Key(fields[0])
  {
    var tail := OptionalTokens(a, fields[1..], floatRepr);
    if |tail| > 0 {
      OptionalTokensAreFieldTokens(a, fields[1..], floatRepr, 0);
      var g :| g in fields[1..] && Emitted(a, g) && tail[0] == Token(Key(g), Text(a, g, floatRepr));
      TokenSplits(Key(g), Text(a, g, floatRepr));
      KeysDistinct(g, fields[0]);
    } else if a.saveIterations {
      SaveIterationsTokenSplits();
      KeyIsNotSaveIterations(fields[0]);
    }
  }

  /** The value text of every field among `fields` that has a token. */
  function ConveyedValues(a: OptimizeArgs, fields: seq<Field>, floatRepr: Float -> string): map<Field, string>
  {
    map f | f in fields && Emitted(a, f) :: Text(a, f, floatRepr)
  }

  lemma ParseEmittedStep(a: OptimizeArgs, fields: seq<Field>, floatRepr: Float -> string)
    requires |fields| > 0 && Emitted(a, fields[0])
    requires ParseFields(OptionalTokens(a, fields[1..], floatRepr) + FlagTokens(a), fields[1..])
             == Some(ParsedOptions(ConveyedValues(a, fields[1..], floatRepr), a.saveIterations))
    ensures ParseFields(OptionalTokens(a, fields, floatRepr) + FlagTokens(a), fields)
            == Some(ParsedOptions(ConveyedValues(a, fields, floatRepr), a.saveIterations))
  {
    var f0 := fields[0];
    var t := Token(Key(f0), Text(a, f0, floatRepr));
    var rest := OptionalTokens(a, fields[1..], floatRepr) + FlagTokens(a);
    OptionalTokensUnfold(a, fields, floatRepr);
    var tokens := OptionalTokens(a, fields, floatRepr) + FlagTokens(a);
    assert tokens == [t] + rest;
    assert tokens[0] == t && tokens[1..] == rest;
    TokenSplits(Key(f0), Text(a, f0, floatRepr));
    assert ConveyedValues(a, fields, floatRepr)
           == ConveyedValues(a, fields[1..], floatRepr)[f0 := Text(a, f0, floatRepr)];
  }

  lemma ParseSkippedStep(a: OptimizeArgs, fields: seq<Field>, floatRepr: Float -> string)
    requires |fields| > 0 && !Emitted(a, fields[0]) && Distinct(fields)
    requires ParseFields(OptionalTokens(a, fields[1..], floatRepr) + FlagTokens(a), fields[1..])
             == Some(ParsedOptions(ConveyedValues(a, fields[1..], floatRepr), a.saveIterations))
    ensures ParseFields(OptionalTokens(a, fields, floatRepr) + FlagTokens(a), fields)
            == Some(ParsedOptions(ConveyedValues(a, fields, floatRepr), a.saveIterations))
  {
    OptionalTokensUnfold(a, fields, floatRepr);
    assert OptionalTokens(a, fields, floatRepr) + FlagTokens(a)
           == OptionalTokens(a, fields[1..], floatRepr) + FlagTokens(a);
    NextKeyDiffers(a, fields, floatRepr);
    assert ConveyedValues(a, fields, floatRepr) == ConveyedValues(a, fields[1..], floatRepr);
  }

  lemma {:induction false} ParseOptionalTokens(a: OptimizeArgs, fields: seq<Field>, floatRepr: Float -> string)
    requires Distinct(fields)
    ensures ParseFields(OptionalTokens(a, fields, floatRepr) + FlagTokens(a), fields)
            == Some(ParsedOptions(ConveyedValues(a, fields, floatRepr), a.saveIterations))
    decreases |fields|
  {
    if |fields| == 0 {
      assert OptionalTokens(a, fields, floatRepr) + FlagTokens(a) == FlagTokens(a);
      assert ConveyedValues(a, fields, floatRepr) == map[];
    } else {
      assert Distinct(fields[1..]);
      ParseOptionalTokens(a, fields[1..], floatRepr);
      if Emitted(a, fields[0]) {
        ParseEmittedStep(a, fields, floatRepr);
      } else {
        ParseSkippedStep(a, fields, floatRepr);
      }
    }
  }

  /** Reading the command back from `method=optimize` on recovers exactly
      the value text of every field that has a token, no other field, and
      the `save_iterations` flag. */
  lemma ComposeThenParse(prefix: seq<string>, a: OptimizeArgs, floatRepr: Float -> string)
    ensures ParseOptimizer(ComposeCommand(prefix, a, floatRepr)[|prefix|..]) == Some(Conveyed(a, floatRepr))
  {
    var cmd := ComposeCommand(prefix, a, floatRepr);
    var tokens := cmd[|prefix|..];
    assert tokens[0] == cmd[|prefix|];
    assert tokens[1..] == cmd[|prefix| + 1..];
    EmissionOrderDistinct();
    ParseOptionalTokens(a, EmissionOrder, floatRepr);
  }

  /** The iteration cap travels exactly: for an integer `iter` the `iter=`
      token reads back as the same integer. */
  lemma IterRoundTrip(prefix: seq<string>, a: OptimizeArgs, floatRepr: Float -> string)
    requires a.iter.IntV?
    ensures var p := ParseOptimizer(ComposeCommand(prefix, a, floatRepr)[|prefix|..]);
            p.Some? && Iter in p.value.values && ParseInt(p.value.values[Iter]) == Some(a.iter.i)
  {
    ComposeThenParse(prefix, a, floatRepr);
    assert Iter in EmissionOrder;
  }

  /** The number of tokens whose key is `key`. */
  function KeyCount(tokens: seq<string>, key: string): nat
    decreases |tokens|
  {
    if |tokens| == 0 then 0
    else (if KeyOf(tokens[0]) == key then 1 else 0) + KeyCount(tokens[1..], key)
  }

  lemma {:induction false} KeyCountAppend(s: seq<string>, t: seq<string>, key: string)
    ensures KeyCount(s + t, key) == KeyCount(s, key) + KeyCount(t, key)
    decreases |s|
  {
    if |s| > 0 {
      assert (s + t)[1..] == s[1..] + t;
      KeyCountAppend(s[1..], t, key);
    } else {
      assert s + t == t;
    }
  }

  lemma FieldTokensKeyCount(a: OptimizeArgs, f: Field, floatRepr: Float -> string, g: Field)
    ensures KeyCount(FieldTokens(a, f, floatRepr), Key(g)) == if f == g && Emitted(a, f) then 1 else 0
  {
    var ts := FieldTokens(a, f, floatRepr);
    if Emitted(a, f) {
      TokenSplits(Key(f), Text(a, f, floatRepr));
      KeysDistinct(f, g);
      assert KeyCount(ts, Key(g)) == (if KeyOf(ts[0]) == Key(g) then 1 else 0) + KeyCount(ts[1..], Key(g));
    }
  }

  lemma {:induction false} OptionalKeyCount(a: OptimizeArgs, fields: seq<Field>, floatRepr: Float -> string, g: Field)
    requires Distinct(fields)
    ensures KeyCount(OptionalTokens(a, fields, floatRepr), Key(g)) == if g in fields && Emitted(a, g) then 1 else 0
    decreases |fields|
  {
    if |fields| > 0 {
      OptionalTokensUnfold(a, fields, floatRepr);
      KeyCountAppend(FieldTokens(a, fields[0], floatRepr), OptionalTokens(a, fields[1..], floatRepr), Key(g));
      FieldTokensKeyCount(a, fields[0], floatRepr, g);
      assert Distinct(fields[1..]);
      OptionalKeyCount(a, fields[1..], floatRepr, g);
      assert g in fields <==> g == fields[0] || g in fields[1..];
    }
  }

  lemma FlagKeyCount(a: OptimizeArgs, g: Field)
    ensures KeyCount(FlagTokens(a), Key(g)) == 0
  {
    if a.saveIterations {
      SaveIterationsTokenSplits();
      KeyIsNotSaveIterations(g);
      assert KeyCount(FlagTokens(a), Key(g)) == KeyCount(FlagTokens(a)[1..], Key(g));
    }
  }

  /** No optional token has the `save_iterations` key. */
  lemma OptionalTokensNotFlag(a: OptimizeArgs, fields: seq<Field>, floatRepr: Float -> string, i: nat)
    requires i < |OptionalTokens(a, fields, floatRepr)|
    ensures KeyOf(OptionalTokens(a, fields, floatRepr)[i]) != SaveIterationsKey
  {
    var t := OptionalTokens(a, fields, floatRepr)[i];
    OptionalTokensAreFieldTokens(a, fields, floatRepr, i);
    var f :| f in fields && Emitted(a, f) && t == Token(Key(f), Text(a, f, floatRepr));
    TokenSplits(Key(f), Text(a, f, floatRepr));
    KeyIsNotSaveIterations(f);
  }

  lemma KeyCountOfTokens(a: OptimizeArgs, fields: seq<Field>, floatRepr: Float -> string, g: Field)
    requires Distinct(fields) && g in fields
    ensures KeyCount(OptionalTokens(a, fields, floatRepr) + FlagTokens(a), Key(g)) == if Emitted(a, g) then 1 else 0
  {
    KeyCountAppend(OptionalTokens(a, fields, floatRepr), FlagTokens(a), Key(g));
    OptionalKeyCount(a, fields, floatRepr, g);
    FlagKeyCount(a, g);
  }

  /** Each field's key appears exactly once after `method=optimize` if the
      field is set, and not at all otherwise. */
  lemma TokensExactlyOnce(a: OptimizeArgs, floatRepr: Float -> string, g: Field)
    ensures KeyCount(OptimizerTokens(a, floatRepr), Key(g)) == if Emitted(a, g) then 1 else 0
  {
    EmissionOrderDistinct();
    assert EmissionOrder[EmissionIndex(g)] == g;
    KeyCountOfTokens(a, EmissionOrder, floatRepr, g);
  }

  /** `save_iterations=1` appears exactly when the flag is true, and
      `save_iterations=0` never appears. */
  lemma SaveIterationsFlag(a: OptimizeArgs, floatRepr: Float -> string)
    ensures SaveIterationsToken in OptimizerTokens(a, floatRepr) <==> a.saveIterations
    ensures "save_iterations=0" !in OptimizerTokens(a, floatRepr)
  {
    var opt := OptionalTokens(a, EmissionOrder, floatRepr);
    forall i | 0 <= i < |opt| ensures KeyOf(opt[i]) != SaveIterationsKey {
      OptionalTokensNotFlag(a, EmissionOrder, floatRepr, i);
    }
    NoFlagTokenAmong(opt);
    assert "save_iterations=0" != SaveIterationsToken by {
      assert "save_iterations=0"[16] != SaveIterationsToken[16];
    }
  }

  /** Tokens none of which has the `save_iterations` key contain neither
      flag token. */
  lemma NoFlagTokenAmong(tokens: seq<string>)
    requires forall i :: 0 <= i < |tokens| ==> KeyOf(tokens[i]) != SaveIterationsKey
    ensures SaveIterationsToken !in tokens
    ensures "save_iterations=0" !in tokens
  {
    SaveIterationsTokenSplits();
    ZeroFlagKey();
  }

  lemma ZeroFlagKey()
    ensures KeyOf("save_iterations=0") == SaveIterationsKey
  {
    assert "save_iterations=0" == Token(SaveIterationsKey, "0");
    TokenSplits(SaveIterationsKey, "0");
  }

  lemma {:induction false} OptionalContains(a: OptimizeArgs, fields: seq<Field>, floatRepr: Float -> string, q: nat)
    requires q < |fields| && Emitted(a, fields[q])
    ensures var ts := OptionalTokens(a, fields, floatRepr);
            exists j :: 0 <= j < |ts| && ts[j] == Token(Key(fields[q]), Text(a, fields[q], floatRepr))
    decreases |fields|
  {
    OptionalTokensUnfold(a, fields, floatRepr);
    var ts := OptionalTokens(a, fields, floatRepr);
    var head := FieldTokens(a, fields[0], floatRepr);
    var tail := OptionalTokens(a, fields[1..], floatRepr);
    var tq := Token(Key(fields[q]), Text(a, fields[q], floatRepr));
    if q == 0 {
      assert 0 < |ts| && ts[0] == tq;
    } else {
      assert fields[1..][q - 1] == fields[q];
      OptionalContains(a, fields[1..], floatRepr, q - 1);
      var j :| 0 <= j < |tail| && tail[j] == tq;
      assert |head| + j < |ts| && ts[|head| + j] == tq;
    }
  }

  lemma {:induction false} OptionalTokenOrder(a: OptimizeArgs, fields: seq<Field>, floatRepr: Float -> string, p: nat, q: nat)
    requires p < q < |fields| && Emitted(a, fields[p]) && Emitted(a, fields[q])
    ensures var ts := OptionalTokens(a, fields, floatRepr);
            exists i, j :: 0 <= i < j < |ts| && ts[i] == Token(Key(fields[p]), Text(a, fields[p], floatRepr))
                                          && ts[j] == Token(Key(fields[q]), Text(a, fields[q], floatRepr))
    decreases |fields|
  {
    OptionalTokensUnfold(a, fields, floatRepr);
    var ts := OptionalTokens(a, fields, floatRepr);
    var head := FieldTokens(a, fields[0], floatRepr);
    var tail := OptionalTokens(a, fields[1..], floatRepr);
    var tp := Token(Key(fields[p]), Text(a, fields[p], floatRepr));
    var tq := Token(Key(fields[q]), Text(a, fields[q], floatRepr));
    assert fields[1..][q - 1] == fields[q];
    if p == 0 {
      OptionalContains(a, fields[1..], floatRepr, q - 1);
      var j :| 0 <= j < |tail| && tail[j] == tq;
      assert 0 < |head| + j < |ts| && ts[0] == tp && ts[|head| + j] == tq;
    } else {
      assert fields[1..][p - 1] == fields[p];
      OptionalTokenOrder(a, fields[1..], floatRepr, p - 1, q - 1);
      var i, j :| 0 <= i < j < |tail| && tail[i] == tp && tail[j] == tq;
      assert 0 <= |head| + i < |head| + j < |ts| && ts[|head| + i] == tp && ts[|head| + j] == tq;
    }
  }

  lemma KeysInOrder(a: OptimizeArgs, fields: seq<Field>, floatRepr: Float -> string, p: nat, q: nat)
    requires p < q < |fields| && Emitted(a, fields[p]) && Emitted(a, fields[q])
    ensures var ts := OptionalTokens(a, fields, floatRepr) + FlagTokens(a);
            exists i, j :: 0 <= i < j < |ts| && KeyOf(ts[i]) == Key(fields[p]) && KeyOf(ts[j]) == Key(fields[q])
  {
    var opt := OptionalTokens(a, fields, floatRepr);
    var ts := opt + FlagTokens(a);
    var kp, kq := Key(fields[p]), Key(fields[q]);
    var vp, vq := Text(a, fields[p], floatRepr), Text(a, fields[q], floatRepr);
    OptionalTokenOrder(a, fields, floatRepr, p, q);
    var i, j :| 0 <= i < j < |opt| && opt[i] == Token(kp, vp) && opt[j] == Token(kq, vq);
    TokenSplits(kp, vp);
    TokenSplits(kq, vq);
    assert ts[i] == Token(kp, vp) && ts[j] == Token(kq, vq);
  }

  /** The tokens of two set fields appear in `EmissionOrder`: algorithm,
      init_alpha, the five tolerances, history_size, iter. */
  lemma TokensInEmissionOrder(a: OptimizeArgs, floatRepr: Float -> string, f: Field, g: Field)
    requires EmissionIndex(f) < EmissionIndex(g) && Emitted(a, f) && Emitted(a, g)
    ensures var ts := OptimizerTokens(a, floatRepr);
            exists i, j :: 0 <= i < j < |ts| && KeyOf(ts[i]) == Key(f) && KeyOf(ts[j]) == Key(g)
  {
    KeysInOrder(a, EmissionOrder, floatRepr, EmissionIndex(f), EmissionIndex(g));
    assert OptimizerTokens(a, floatRepr) == OptionalTokens(a, EmissionOrder, floatRepr) + FlagTokens(a);
  }
}
