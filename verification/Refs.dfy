/**
 * Input references of workflow steps: the two `$` grammars and their resolution against step
 * outputs and run parameters.
 */
module Refs {
  import opened Prelude

  datatype Value =
    | Null
    | Bool(b: bool)
    | Num(n: real)
    | Str(s: string)
    | Arr(items: seq<Value>)
    | Obj(fields: map<string, Value>)

  type Fields = map<string, Value>

  datatype Ref = StepRef(step: string, output: string) | ParamRef(name: string) | BadRef | Plain

  const STEPS := "$steps."
  const OUTPUTS := ".outputs."
  const PARAMS := "$run.params."

  /** `text` reads as a step reference: anything up to the last ".outputs.", then a dot-free name. */
  ghost predicate IsStepRef(text: string, step: string, output: string) {
    && text == STEPS + step + OUTPUTS + output
    && step != "" && '\n' !in step
    && output != "" && '.' !in output
  }

  /** `text` reads as a parameter reference; a final newline is ignored, as `$` does in a pattern. */
  ghost predicate IsParamRef(text: string, name: string) {
    && (text == PARAMS + name || text == PARAMS + name + "\n")
    && name != "" && '\n' !in name
  }

  function LastDot(s: string): (i: int)
    ensures -1 <= i < |s|
    ensures i >= 0 ==> s[i] == '.'
    ensures forall j :: i < j < |s| ==> s[j] != '.'
  {
    if s == "" then -1
    else if s[|s| - 1] == '.' then |s| - 1
    else LastDot(s[..|s| - 1])
  }

  /** The split of a step reference, if it is one: the last dot must close ".outputs.". */
  function MatchStep(text: string): (r: Option<(string, string)>)
    ensures r.Some? ==> IsStepRef(text, r.value.0, r.value.1)
    ensures r.None? ==> forall step, output :: !IsStepRef(text, step, output)
  {
    var j := LastDot(text);
    StepRefShape(text);
    if |STEPS| + |OUTPUTS| <= j && STEPS <= text && text[j - 8..j + 1] == OUTPUTS
       && j + 1 < |text| && '\n' !in text[7..j - 8]
    then
      assert text == STEPS + text[7..j - 8] + OUTPUTS + text[j + 1..];
      Some((text[7..j - 8], text[j + 1..]))
    else None
  }

  /** In any reading of a step reference, the last dot is the one that closes ".outputs.". */
  lemma ClosingDot(text: string, step: string, output: string)
    requires IsStepRef(text, step, output)
    ensures LastDot(text) == |STEPS| + |step| + 8
    ensures text[LastDot(text) + 1..] == output
  {
    var k := |STEPS| + |step| + 8;
    assert text[k + 1..] == output;
    assert text[k] == OUTPUTS[8];
    assert forall i :: k < i < |text| ==> text[i] == output[i - k - 1];
    assert forall i :: k < i < |text| ==> text[i] in output;
  }

  lemma StepRefShape(text: string)
    ensures forall step, output :: IsStepRef(text, step, output) ==>
      var j := LastDot(text);
      && |STEPS| + |OUTPUTS| <= j < |text| - 1 && STEPS <= text && text[j - 8..j + 1] == OUTPUTS
      && step == text[7..j - 8] && output == text[j + 1..]
  {
    forall step, output | IsStepRef(text, step, output)
      ensures var j := LastDot(text);
        && |STEPS| + |OUTPUTS| <= j < |text| - 1 && STEPS <= text && text[j - 8..j + 1] == OUTPUTS
        && step == text[7..j - 8] && output == text[j + 1..]
    {
      ClosingDot(text, step, output);
      var k := LastDot(text);
      hide LastDot;
      assert text[..7] == STEPS;
      assert text[7..k - 8] == step;
      assert text[k - 8..k + 1] == OUTPUTS;
    }
  }

  function MatchParam(text: string): (r: Option<string>)
    ensures r.Some? ==> IsParamRef(text, r.value)
    ensures r.None? ==> forall name :: !IsParamRef(text, name)
  {
    if PARAMS <= text then
      var rest := text[|PARAMS|..];
      var name := if rest != "" && rest[|rest| - 1] == '\n' then rest[..|rest| - 1] else rest;
      assert text == PARAMS + rest;
      assert rest == name || rest == name + "\n";
      ParamRefShape(text, name);
      if name != "" && '\n' !in name then Some(name) else None
    else None
  }

  lemma ParamRefShape(text: string, name: string)
    requires PARAMS <= text
    requires var rest := text[|PARAMS|..];
             name == if rest != "" && rest[|rest| - 1] == '\n' then rest[..|rest| - 1] else rest
    ensures forall other :: IsParamRef(text, other) ==> other == name
  {
    forall other | IsParamRef(text, other) ensures other == name {
      var rest := text[|PARAMS|..];
      if text == PARAMS + other {
        assert rest == other;
        assert rest[|rest| - 1] in other;
      } else {
        assert rest == other + "\n";
      }
    }
  }

  /** How the resolver classifies a string; the step grammar is tried first. */
  function Classify(text: string): (r: Ref)
    ensures r.StepRef? ==> IsStepRef(text, r.step, r.output)
    ensures r.ParamRef? ==> IsParamRef(text, r.name)
    ensures r.Plain? <==> (text == "" || text[0] != '$')
  {
    var m := MatchStep(text);
    var p := MatchParam(text);
    assert STEPS[0] == '$' && PARAMS[0] == '$';
    if m.Some? then StepRef(m.value.0, m.value.1)
    else if p.Some? then ParamRef(p.value)
    else if text != "" && text[0] == '$' then BadRef
    else Plain
  }

  function Resolve(v: Value, outputs: map<string, Fields>, params: Fields): Result<Value>
    decreases v
  {
    match v
    case Str(s) =>
      (match Classify(s)
       case StepRef(step, output) =>
         if step in outputs && output in outputs[step] then Ok(outputs[step][output]) else Err
       case ParamRef(name) => if name in params then Ok(params[name]) else Err
       case BadRef => Err
       case Plain => Ok(v))
    case Arr(items) =>
      if forall i | 0 <= i < |items| :: Resolve(items[i], outputs, params).Ok? then
        Ok(Arr(seq(|items|, i requires 0 <= i < |items| && Resolve(items[i], outputs, params).Ok? =>
          Resolve(items[i], outputs, params).value)))
      else Err
    case Obj(fields) =>
      if forall k | k in fields :: Resolve(fields[k], outputs, params).Ok? then
        Ok(Obj(map k | k in fields :: Resolve(fields[k], outputs, params).value))
      else Err
    case _ => Ok(v)
  }

  /** `r` is what `v` stands for: references replaced by what they name, everything else as it is. */
  ghost predicate Denotes(v: Value, r: Value, outputs: map<string, Fields>, params: Fields)
    decreases v
  {
    match v
    case Str(s) =>
      if s == "" || s[0] != '$' then r == v
      else
        || (exists step, output :: IsStepRef(s, step, output)
              && step in outputs && output in outputs[step] && r == outputs[step][output])
        || (exists name :: IsParamRef(s, name) && name in params && r == params[name])
    case Arr(items) =>
      && r.Arr? && |r.items| == |items|
      && forall i | 0 <= i < |items| :: Denotes(items[i], r.items[i], outputs, params)
    case Obj(fields) =>
      && r.Obj? && r.fields.Keys == fields.Keys
      && forall k | k in fields :: Denotes(fields[k], r.fields[k], outputs, params)
    case _ => r == v
  }

  lemma StringDenotes(s: string, r: Value, outputs: map<string, Fields>, params: Fields)
    ensures Resolve(Str(s), outputs, params) == Ok(r) <==> Denotes(Str(s), r, outputs, params)
  {
    GrammarsDisjoint(s);
    var c := Classify(s);
    assert c.StepRef? ==> s[0] == STEPS[0];
    assert c.ParamRef? ==> s[0] == PARAMS[0];
  }

  /** Resolution yields exactly the value that the template stands for, and fails if there is none. */
  lemma {:induction false} ResolvesToIff(v: Value, r: Value, outputs: map<string, Fields>, params: Fields)
    ensures Resolve(v, outputs, params) == Ok(r) <==> Denotes(v, r, outputs, params)
    decreases v
  {
    match v
    case Str(s) => StringDenotes(s, r, outputs, params);
    case Arr(items) =>
      if r.Arr? && |r.items| == |items| {
        forall i | 0 <= i < |items| { ResolvesToIff(items[i], r.items[i], outputs, params); }
        if Denotes(v, r, outputs, params) { assert Resolve(v, outputs, params).value.items == r.items; }
      }
    case Obj(fields) =>
      if r.Obj? && r.fields.Keys == fields.Keys {
        forall k | k in fields { ResolvesToIff(fields[k], r.fields[k], outputs, params); }
        if Denotes(v, r, outputs, params) { assert Resolve(v, outputs, params).value.fields == r.fields; }
      }
    case _ =>
  }

  /** A value without references resolves to itself. */
  lemma LiteralsStay(v: Value, outputs: map<string, Fields>, params: Fields)
    requires forall text :: Occurs(text, v) ==> text == "" || text[0] != '$'
    ensures Resolve(v, outputs, params) == Ok(v)
  {
    LiteralDenotesItself(v, outputs, params);
    ResolvesToIff(v, v, outputs, params);
  }

  lemma {:induction false} LiteralDenotesItself(v: Value, outputs: map<string, Fields>, params: Fields)
    requires forall text :: Occurs(text, v) ==> text == "" || text[0] != '$'
    ensures Denotes(v, v, outputs, params)
    decreases v
  {
    match v
    case Str(s) => assert Occurs(s, v);
    case Arr(items) =>
      forall i | 0 <= i < |items| ensures Denotes(items[i], items[i], outputs, params) {
        assert forall text :: Occurs(text, items[i]) ==> Occurs(text, v);
        LiteralDenotesItself(items[i], outputs, params);
      }
    case Obj(fields) =>
      forall k | k in fields ensures Denotes(fields[k], fields[k], outputs, params) {
        assert forall text :: Occurs(text, fields[k]) ==> Occurs(text, v);
        LiteralDenotesItself(fields[k], outputs, params);
      }
    case _ =>
  }

  /** The two kinds of reference as they are written. */
  lemma ReferencesAsWritten()
    ensures Classify("$steps.a.outputs.x") == StepRef("a", "x")
    ensures Classify("$run.params.x") == ParamRef("x")
  {
    assert STEPS + "a" + OUTPUTS + "x" == "$steps.a.outputs.x";
    StepRefReadsBack("a", "x");
    assert PARAMS + "x" == "$run.params.x";
    ParamRefReadsBack("x");
  }

  /** Every step reference inside `v` names a step of `allowed`. */
  ghost predicate RefsWithin(v: Value, allowed: iset<string>)
    decreases v
  {
    match v
    case Str(s) => Classify(s).StepRef? ==> Classify(s).step in allowed
    case Arr(items) => forall i | 0 <= i < |items| :: RefsWithin(items[i], allowed)
    case Obj(fields) => forall k | k in fields :: RefsWithin(fields[k], allowed)
    case _ => true
  }

  ghost predicate AgreeOn(a: map<string, Fields>, b: map<string, Fields>, ids: iset<string>) {
    forall id :: id in ids ==> (id in a <==> id in b) && (id in a ==> a[id] == b[id])
  }

  /** Resolution reads only the steps it references: outputs of other steps cannot influence it. */
  lemma {:induction false} ResolveReadsOnlyRefs(v: Value, a: map<string, Fields>,
      b: map<string, Fields>, params: Fields, allowed: iset<string>)
    requires RefsWithin(v, allowed) && AgreeOn(a, b, allowed)
    ensures Resolve(v, a, params) == Resolve(v, b, params)
    decreases v
  {
    match v
    case Str(_) =>
    case Arr(items) =>
      forall i | 0 <= i < |items|
        ensures Resolve(items[i], a, params) == Resolve(items[i], b, params)
      {
        ResolveReadsOnlyRefs(items[i], a, b, params, allowed);
      }
      if Resolve(v, a, params).Ok? {
        assert Resolve(v, a, params).value.items == Resolve(v, b, params).value.items;
      }
    case Obj(fields) =>
      forall k | k in fields
        ensures Resolve(fields[k], a, params) == Resolve(fields[k], b, params)
      {
        ResolveReadsOnlyRefs(fields[k], a, b, params, allowed);
      }
      if Resolve(v, a, params).Ok? {
        assert Resolve(v, a, params).value.fields == Resolve(v, b, params).value.fields;
      }
    case _ =>
  }

  /** The string `text` occurs somewhere inside `v`. */
  ghost predicate Occurs(text: string, v: Value)
    decreases v
  {
    match v
    case Str(s) => s == text
    case Arr(items) => exists i | 0 <= i < |items| :: Occurs(text, items[i])
    case Obj(fields) => exists k | k in fields :: Occurs(text, fields[k])
    case _ => false
  }

  /** What a single string needs in order to resolve. */
  ghost predicate Available(text: string, outputs: map<string, Fields>, params: Fields) {
    || (text == "" || text[0] != '$')
    || (exists step, output :: IsStepRef(text, step, output)
          && step in outputs && output in outputs[step])
    || (exists name :: IsParamRef(text, name) && name in params)
  }

  lemma StringResolves(s: string, outputs: map<string, Fields>, params: Fields)
    ensures Resolve(Str(s), outputs, params).Ok? <==> Available(s, outputs, params)
  {
    GrammarsDisjoint(s);
    var c := Classify(s);
    assert c.StepRef? ==> s[0] == STEPS[0];
    assert c.ParamRef? ==> s[0] == PARAMS[0];
  }

  /**
   * Resolution fails exactly when some string nested in the value is a reference to something
   * missing or starts with "$" without being a reference.
   */
  lemma {:induction false} ResolvesIffAvailable(v: Value, outputs: map<string, Fields>, params: Fields)
    ensures Resolve(v, outputs, params).Ok? <==> AllAvailable(v, outputs, params)
    decreases v
  {
    match v
    case Str(s) =>
      StringResolves(s, outputs, params);
      assert Occurs(s, v);
    case Arr(items) =>
      forall i | 0 <= i < |items| { ResolvesIffAvailable(items[i], outputs, params); }
      ItemsResolve(items, outputs, params);
    case Obj(fields) =>
      forall k | k in fields { ResolvesIffAvailable(fields[k], outputs, params); }
      FieldsResolve(fields, outputs, params);
    case _ =>
  }

  ghost predicate AllAvailable(v: Value, outputs: map<string, Fields>, params: Fields) {
    forall text :: Occurs(text, v) ==> Available(text, outputs, params)
  }

  lemma ItemsResolve(items: seq<Value>, outputs: map<string, Fields>, params: Fields)
    requires forall i | 0 <= i < |items| ::
      Resolve(items[i], outputs, params).Ok? <==> AllAvailable(items[i], outputs, params)
    ensures Resolve(Arr(items), outputs, params).Ok? <==> AllAvailable(Arr(items), outputs, params)
  {
    if i :| 0 <= i < |items| && !Resolve(items[i], outputs, params).Ok? {
      var text :| Occurs(text, items[i]) && !Available(text, outputs, params);
      assert Occurs(text, Arr(items));
    }
  }

  lemma FieldsResolve(fields: Fields, outputs: map<string, Fields>, params: Fields)
    requires forall k | k in fields ::
      Resolve(fields[k], outputs, params).Ok? <==> AllAvailable(fields[k], outputs, params)
    ensures Resolve(Obj(fields), outputs, params).Ok? <==> AllAvailable(Obj(fields), outputs, params)
  {
    if k :| k in fields && !Resolve(fields[k], outputs, params).Ok? {
      var text :| Occurs(text, fields[k]) && !Available(text, outputs, params);
      assert Occurs(text, Obj(fields));
    }
  }

  lemma ParamRefPrefix(text: string, name: string)
    ensures IsParamRef(text, name) ==> |text| > 1 && text[1] == PARAMS[1]
  {
  }

  /** No string is both a step reference and a parameter reference, and names are unique. */
  lemma GrammarsDisjoint(text: string)
    ensures forall step, output, name :: IsStepRef(text, step, output) ==> !IsParamRef(text, name)
    ensures forall a, b :: IsParamRef(text, a) && IsParamRef(text, b) ==> a == b
    ensures forall s1, o1, s2, o2 :: IsStepRef(text, s1, o1) && IsStepRef(text, s2, o2)
              ==> s1 == s2 && o1 == o2
  {
    StepRefShape(text);
    forall a, b | IsParamRef(text, a) && IsParamRef(text, b) ensures a == b {
      var rest := text[|PARAMS|..];
      var name := if rest != "" && rest[|rest| - 1] == '\n' then rest[..|rest| - 1] else rest;
      assert PARAMS <= text;
      ParamRefShape(text, name);
    }
    forall step, output, name | IsStepRef(text, step, output) ensures !IsParamRef(text, name) {
      ParamRefPrefix(text, name);
      assert text[1] == STEPS[1] != PARAMS[1];
    }
  }

  /** The reference the editor writes for output `key` of step `id` reads back as exactly that. */
  lemma StepRefReadsBack(id: string, key: string)
    requires id != "" && '\n' !in id && key != "" && '.' !in key
    ensures Classify(STEPS + id + OUTPUTS + key) == StepRef(id, key)
  {
    var text := STEPS + id + OUTPUTS + key;
    assert IsStepRef(text, id, key);
    GrammarsDisjoint(text);
  }

  lemma ParamRefReadsBack(name: string)
    requires name != "" && '\n' !in name
    ensures Classify(PARAMS + name) == ParamRef(name)
  {
    var text := PARAMS + name;
    assert IsParamRef(text, name);
    GrammarsDisjoint(text);
  }
}
