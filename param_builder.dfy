/**
 * The browser-side parameter builder: the dotted full names the form gives
 * its inputs, and `collectParams`, which reads the inputs in document order
 * and stores each non-blank value, cast by its declared type, at the nested
 * position its dotted name spells. JavaScript objects are modelled as
 * values; the DOM is modelled as the sequence of its inputs.
 */
module ParamBuilder {

  import opened Wrappers
  import opened Text
  import opened Introspector

  // ---- JavaScript values ----------------------------------------------------

  /** A JavaScript number: `NaN`, an infinity, or a finite value. */
  datatype Number = NaN | Infinity(negative: bool) | Finite(value: real)

  /** The values `collectParams` stores: strings, booleans, numbers and plain objects. */
  datatype JsValue = JsStr(s: string) | JsBool(b: bool) | JsNum(n: Number) | JsObject(fields: map<string, JsValue>)

  /** JavaScript truthiness: the empty string, `false`, zero and `NaN` are falsy; every object is truthy. */
  predicate Truthy(v: JsValue) {
    match v
    case JsStr(s) => s != ""
    case JsBool(b) => b
    case JsNum(n) => !(n.NaN? || (n.Finite? && n.value == 0.0))
    case JsObject(_) => true
  }

  /** `parseInt(value, 10)` and `parseFloat(value)`, whose number syntax is not modelled. */
  datatype NumberParsing = NumberParsing(parseInt: string -> Number, parseFloat: string -> Number)

  /** `_castValue`: integers and floats are parsed, booleans are `value === "true"`, anything else stays text. */
  function CastValue(numbers: NumberParsing, value: string, paramType: string): (v: JsValue)
    ensures paramType == "boolean" ==> v.JsBool? && (v.b <==> value == "true")
    ensures paramType == "integer" ==> v == JsNum(numbers.parseInt(value))
    ensures paramType == "float" ==> v == JsNum(numbers.parseFloat(value))
    ensures paramType !in {"integer", "float", "boolean"} ==> v == JsStr(value)
    ensures !v.JsObject?
  {
    if paramType == "integer" then JsNum(numbers.parseInt(value))
    else if paramType == "float" then JsNum(numbers.parseFloat(value))
    else if paramType == "boolean" then JsBool(value == "true")
    else JsStr(value)
  }

  // ---- full names -----------------------------------------------------------

  /** A field's full name: the bare name at top level, else `prefix.name`. */
  function FullName(prefix: string, name: string): (r: string)
    ensures prefix == "" ==> r == name
    ensures prefix != "" ==> |r| == |prefix| + 1 + |name| && r[..|prefix| + 1] == prefix + "." && r[|prefix| + 1..] == name
  {
    if prefix != "" then prefix + "." + name else name
  }

  /** The path `collectParams` follows for a full name is the prefix's path followed by the name's. */
  lemma FullNamePath(prefix: string, name: string)
    ensures prefix == "" ==> Split(FullName(prefix, name), '.') == Split(name, '.')
    ensures prefix != "" ==> Split(FullName(prefix, name), '.') == Split(prefix, '.') + Split(name, '.')
  {
    if prefix != "" {
      SplitAppend(prefix, name, '.');
    }
  }

  /** A descriptor is built as a fieldset only when it is complex and has at least one child; otherwise it is one input. */
  predicate IsFieldset(p: Param) {
    p.isComplex && p.children.ChildList? && |p.children.items| > 0
  }

  /** The `data-param-name` and `data-param-type` of one input the form builds. */
  datatype FormField = FormField(name: string, paramType: string)

  function Flatten<T>(parts: seq<seq<T>>): (r: seq<T>)
    ensures forall x :: x in r ==> exists i :: 0 <= i < |parts| && x in parts[i]
  {
    if parts == [] then [] else
      var r := parts[0] + Flatten(parts[1..]);
      assert forall x :: x in r ==> x in parts[0] || x in Flatten(parts[1..]);
      r
  }

  /** The inputs one descriptor contributes, in document order: one for a simple field, its children's for a fieldset. */
  function FieldInputs(p: Param, prefix: string): seq<FormField>
    decreases p
  {
    var full := FullName(prefix, p.name);
    if IsFieldset(p) then
      var items := p.children.items;
      Flatten(seq(|items|, i requires 0 <= i < |items| => FieldInputs(items[i], full)))
    else [FormField(full, p.typeName)]
  }

  /** `buildForm`: the inputs of all descriptors, in document order. */
  function FormInputs(params: seq<Param>, prefix: string): seq<FormField> {
    Flatten(seq(|params|, i requires 0 <= i < |params| => FieldInputs(params[i], prefix)))
  }

  /** A simple descriptor gives exactly one input, named by its full name and typed by its type. */
  lemma SimpleFieldInput(p: Param, prefix: string)
    requires !IsFieldset(p)
    ensures FieldInputs(p, prefix) == [FormField(FullName(prefix, p.name), p.typeName)]
  {
  }

  /** `name` starts with `full` followed by a dot. */
  predicate NamedUnder(name: string, full: string) {
    |name| > |full| && name[..|full| + 1] == full + "."
  }

  lemma NamedUnderNested(name: string, inner: string, full: string, child: string)
    requires inner == full + "." + child
    requires name == inner || NamedUnder(name, inner)
    ensures NamedUnder(name, full)
  {
    assert inner[..|full| + 1] == full + ".";
    if name != inner {
      assert name[..|full| + 1] == name[..|inner| + 1][..|full| + 1];
    }
  }

  /**
   * Every input under a descriptor is named by the descriptor's full name:
   * exactly that name for a simple field, that name and a dot before the
   * rest for a fieldset whose full name is not empty.
   */
  lemma {:induction false} FieldInputsNamed(p: Param, prefix: string)
    ensures forall f :: f in FieldInputs(p, prefix) ==>
      if IsFieldset(p) then FullName(prefix, p.name) != "" ==> NamedUnder(f.name, FullName(prefix, p.name))
      else f.name == FullName(prefix, p.name)
    decreases p
  {
    var full := FullName(prefix, p.name);
    if IsFieldset(p) && full != "" {
      var items := p.children.items;
      var parts := seq(|items|, i requires 0 <= i < |items| => FieldInputs(items[i], full));
      assert FieldInputs(p, prefix) == Flatten(parts);
      forall f | f in FieldInputs(p, prefix)
        ensures NamedUnder(f.name, full)
      {
        var i :| 0 <= i < |parts| && f in parts[i];
        FieldInputsNamed(items[i], full);
        NamedUnderNested(f.name, FullName(full, items[i].name), full, items[i].name);
      }
    }
  }

  /** Inside a fieldset, every input's name starts with the fieldset's full name and a dot: children are collected into its object. */
  lemma FormInputsNested(params: seq<Param>, prefix: string)
    requires prefix != ""
    ensures forall f :: f in FormInputs(params, prefix) ==> NamedUnder(f.name, prefix)
  {
    var parts := seq(|params|, i requires 0 <= i < |params| => FieldInputs(params[i], prefix));
    forall f | f in FormInputs(params, prefix)
      ensures NamedUnder(f.name, prefix)
    {
      var i :| 0 <= i < |parts| && f in parts[i];
      FieldInputsNamed(params[i], prefix);
      NamedUnderNested(f.name, FullName(prefix, params[i].name), prefix, params[i].name);
    }
  }

  // ---- storing a value at a dotted path ---------------------------------------

  /** What the walk throws once it stands on `undefined`: a store into it, or a lookup in it one level further. */
  const SetOnUndefined := "TypeError: Cannot set properties of undefined"
  const ReadOnUndefined := "TypeError: Cannot read properties of undefined"

  predicate IsTypeError(e: string) {
    e == SetOnUndefined || e == ReadOnUndefined
  }

  /** Key `k` holds a truthy string, boolean or number: a value the walk enters but cannot store into. */
  predicate Blocked(obj: map<string, JsValue>, k: string) {
    k in obj && Truthy(obj[k]) && !obj[k].JsObject?
  }

  /** The object the walk continues in under `k`: the object there, or a fresh one in place of a missing or falsy value. */
  function Inner(obj: map<string, JsValue>, k: string): map<string, JsValue> {
    if k in obj && obj[k].JsObject? then obj[k].fields else map[]
  }

  /**
   * The walk of `collectParams` for one value: each intermediate key that is
   * missing or falsy gets a fresh object, an object is entered, and the
   * value is stored under the last key. A truthy string, boolean or number
   * on the way cannot hold properties: a write into it is silently dropped,
   * and one level further the walk reaches `undefined`, where the final
   * store throws, or, with keys still to walk, the next lookup throws.
   */
  function SetPath(obj: map<string, JsValue>, path: seq<string>, v: JsValue): (r: Result<map<string, JsValue>, string>)
    requires |path| >= 1
    ensures r.Ok? ==> r.value.Keys == obj.Keys + {path[0]}
    ensures r.Err? ==> IsTypeError(r.error) && |path| >= 3
    decreases |path|
  {
    var k := path[0];
    if |path| == 1 then Ok(obj[k := v])
    else if Blocked(obj, k) then
      if |path| == 2 then Ok(obj)
      else if |path| == 3 then Err(SetOnUndefined)
      else Err(ReadOnUndefined)
    else
      match SetPath(Inner(obj, k), path[1..], v)
      case Ok(sub) => Ok(obj[k := JsObject(sub)])
      case Err(e) => Err(e)
  }

  /** The value at a path, when every step but the last is an object that holds the next key. */
  function Get(obj: map<string, JsValue>, path: seq<string>): Option<JsValue>
    requires |path| >= 1
    decreases |path|
  {
    if path[0] !in obj then None
    else if |path| == 1 then Some(obj[path[0]])
    else if obj[path[0]].JsObject? then Get(obj[path[0]].fields, path[1..])
    else None
  }

  /** No truthy primitive stands on the path before its last key. */
  predicate Writable(obj: map<string, JsValue>, path: seq<string>)
    requires |path| >= 1
    decreases |path|
  {
    |path| == 1 || (!Blocked(obj, path[0]) && Writable(Inner(obj, path[0]), path[1..]))
  }

  /** A fresh object is writable along any path. */
  lemma {:induction false} FreshWritable(path: seq<string>)
    requires |path| >= 1
    ensures Writable(map[], path)
    decreases |path|
  {
    if |path| > 1 {
      FreshWritable(path[1..]);
    }
  }

  /** Set, then get: along a writable path the store succeeds and the value is found where it was stored. */
  lemma {:induction false} SetThenGet(obj: map<string, JsValue>, path: seq<string>, v: JsValue)
    requires |path| >= 1 && Writable(obj, path)
    ensures SetPath(obj, path, v).Ok?
    ensures Get(SetPath(obj, path, v).value, path) == Some(v)
    decreases |path|
  {
    if |path| > 1 {
      SetThenGet(Inner(obj, path[0]), path[1..], v);
    }
  }

  /** A path that meets a truthy primitive before its last key stores nothing: the object is unchanged, or the walk throws. */
  lemma {:induction false} PrimitiveBlocks(obj: map<string, JsValue>, path: seq<string>, v: JsValue)
    requires |path| >= 1 && !Writable(obj, path)
    ensures SetPath(obj, path, v) == Ok(obj) || (SetPath(obj, path, v).Err? && IsTypeError(SetPath(obj, path, v).error))
    decreases |path|
  {
    var k := path[0];
    if !Blocked(obj, k) {
      PrimitiveBlocks(Inner(obj, k), path[1..], v);
      if SetPath(Inner(obj, k), path[1..], v).Ok? {
        assert SetPath(Inner(obj, k), path[1..], v).value == Inner(obj, k);
        assert k in obj && obj[k].JsObject?;
        assert obj[k := JsObject(obj[k].fields)] == obj;
      }
    }
  }

  /** Paths that part ways: neither is a prefix of the other. */
  predicate Diverge(p: seq<string>, q: seq<string>) {
    exists i :: 0 <= i < |p| && i < |q| && p[i] != q[i]
  }

  /** Storing at one path leaves what is found at a diverging path as it was. */
  lemma {:induction false} SetPathFrame(obj: map<string, JsValue>, path: seq<string>, v: JsValue, q: seq<string>)
    requires |path| >= 1 && |q| >= 1 && Diverge(path, q)
    requires SetPath(obj, path, v).Ok?
    ensures Get(SetPath(obj, path, v).value, q) == Get(obj, q)
    decreases |path|
  {
    var k := path[0];
    var r := SetPath(obj, path, v).value;
    if q[0] != k {
      assert q[0] in r <==> q[0] in obj;
      assert q[0] in obj ==> r[q[0]] == obj[q[0]];
    } else if !Blocked(obj, k) {
      var i :| 0 <= i < |path| && i < |q| && path[i] != q[i];
      assert i >= 1 && |path| > 1 && |q| > 1;
      assert path[1..][i - 1] != q[1..][i - 1];
      SetPathFrame(Inner(obj, k), path[1..], v, q[1..]);
      if !(k in obj && obj[k].JsObject?) {
        assert Get(map[], q[1..]) == None;
      }
    }
  }

  /** Storing twice at the same path keeps the second value, as if the first store had not happened. */
  lemma {:induction false} LaterStoreWins(obj: map<string, JsValue>, path: seq<string>, v1: JsValue, v2: JsValue)
    requires |path| >= 1 && SetPath(obj, path, v1).Ok?
    ensures SetPath(SetPath(obj, path, v1).value, path, v2) == SetPath(obj, path, v2)
    decreases |path|
  {
    var k := path[0];
    var first := SetPath(obj, path, v1).value;
    if |path| == 1 {
      assert obj[k := v1][k := v2] == obj[k := v2];
    } else if !Blocked(obj, k) {
      var sub1 := SetPath(Inner(obj, k), path[1..], v1).value;
      assert first == obj[k := JsObject(sub1)];
      assert !Blocked(first, k) && Inner(first, k) == sub1;
      LaterStoreWins(Inner(obj, k), path[1..], v1, v2);
      match SetPath(Inner(obj, k), path[1..], v2)
      case Ok(sub2) =>
        assert first[k := JsObject(sub2)] == obj[k := JsObject(sub2)];
      case Err(e) =>
    }
  }

  /** Fields that share a prefix merge: after storing `a.b` and then `a.c` into a fresh result, both values are found. */
  lemma SharedPrefixMerges(a: string, b: string, c: string, v: JsValue, w: JsValue)
    requires b != c
    ensures var first := SetPath(map[], [a, b], v);
      && first.Ok? && SetPath(first.value, [a, c], w).Ok?
      && Get(SetPath(first.value, [a, c], w).value, [a, b]) == Some(v)
      && Get(SetPath(first.value, [a, c], w).value, [a, c]) == Some(w)
  {
    FreshWritable([a, b]);
    SetThenGet(map[], [a, b], v);
    var first := SetPath(map[], [a, b], v).value;
    assert [a, b][1..] == [b] && [a, c][1..] == [c];
    assert first[a] == JsObject(map[b := v]);
    assert Writable(first, [a, c]);
    SetThenGet(first, [a, c], w);
    assert Diverge([a, c], [a, b]) by {
      assert [a, c][1] != [a, b][1];
    }
    SetPathFrame(first, [a, c], w, [a, b]);
  }

  // ---- collectParams ----------------------------------------------------------

  /** One input of the form: its full name, its declared type and its current value. */
  datatype Input = Input(name: string, paramType: string, value: string)

  /** What one input adds to the result: nothing when blank, else its cast value at its dotted path. */
  function Store(numbers: NumberParsing, result: map<string, JsValue>, input: Input): Result<map<string, JsValue>, string> {
    var value := JsTrim(input.value);
    if value == "" then Ok(result)
    else SetPath(result, Split(input.name, '.'), CastValue(numbers, value, input.paramType))
  }

  /** The inputs stored in document order into an empty result; the first throw ends the walk. */
  function Collect(numbers: NumberParsing, inputs: seq<Input>): (r: Result<map<string, JsValue>, string>)
    ensures r.Err? ==> IsTypeError(r.error)
  {
    if inputs == [] then Ok(map[])
    else
      match Collect(numbers, inputs[..|inputs| - 1])
      case Err(e) => Err(e)
      case Ok(result) => Store(numbers, result, inputs[|inputs| - 1])
  }

  /** An input whose value is blank once trimmed adds nothing. */
  lemma BlankAddsNothing(numbers: NumberParsing, inputs: seq<Input>, blank: Input)
    requires AllSpace(JavaScript, blank.value)
    ensures Collect(numbers, inputs + [blank]) == Collect(numbers, inputs)
  {
    CollectSnoc(numbers, inputs, blank);
  }

  /** Collecting one more input stores it into what the earlier inputs collected. */
  lemma CollectSnoc(numbers: NumberParsing, inputs: seq<Input>, last: Input)
    ensures Collect(numbers, inputs).Err? ==> Collect(numbers, inputs + [last]) == Collect(numbers, inputs)
    ensures Collect(numbers, inputs).Ok? ==> Collect(numbers, inputs + [last]) == Store(numbers, Collect(numbers, inputs).value, last)
  {
    assert (inputs + [last])[..|inputs|] == inputs;
  }

  /** Of two consecutive inputs with the same full name, the later one's value is the one kept. */
  lemma SameNameLaterWins(numbers: NumberParsing, inputs: seq<Input>, first: Input, second: Input)
    requires first.name == second.name && JsTrim(first.value) != "" && JsTrim(second.value) != ""
    requires Collect(numbers, inputs + [first]).Ok?
    ensures Collect(numbers, inputs + [first] + [second]) == Collect(numbers, inputs + [second])
  {
    var pre := inputs + [first];
    CollectSnoc(numbers, inputs, first);
    CollectSnoc(numbers, pre, second);
    CollectSnoc(numbers, inputs, second);
    StoreSameNameTwice(numbers, Collect(numbers, inputs).value, first, second);
  }

  /**
   * Of two inputs with the same full name, however far apart, the later one
   * in document order is what is found under the name, provided nothing in
   * between has put a truthy primitive on its path.
   */
  lemma LaterInputWins(numbers: NumberParsing, pre: seq<Input>, first: Input, mid: seq<Input>, second: Input)
    requires first.name == second.name && JsTrim(second.value) != ""
    requires Collect(numbers, pre + [first] + mid).Ok?
    requires Writable(Collect(numbers, pre + [first] + mid).value, Split(second.name, '.'))
    ensures Collect(numbers, pre + [first] + mid + [second]).Ok?
    ensures Get(Collect(numbers, pre + [first] + mid + [second]).value, Split(first.name, '.')) ==
      Some(CastValue(numbers, JsTrim(second.value), second.paramType))
  {
    var before := pre + [first] + mid;
    CollectSnoc(numbers, before, second);
    SetThenGet(Collect(numbers, before).value, Split(second.name, '.'), CastValue(numbers, JsTrim(second.value), second.paramType));
  }

  /** The top-level keys of what is collected: the first part of each non-blank input's name. */
  function FirstParts(inputs: seq<Input>): set<string> {
    if inputs == [] then {}
    else
      var last := inputs[|inputs| - 1];
      FirstParts(inputs[..|inputs| - 1]) + (if JsTrim(last.value) != "" then {Split(last.name, '.')[0]} else {})
  }

  /** The collected object has exactly one top-level key per first name part of a non-blank input. */
  lemma {:induction false} CollectKeys(numbers: NumberParsing, inputs: seq<Input>)
    ensures Collect(numbers, inputs).Ok? ==> Collect(numbers, inputs).value.Keys == FirstParts(inputs)
  {
    if inputs != [] && Collect(numbers, inputs).Ok? {
      CollectKeys(numbers, inputs[..|inputs| - 1]);
    }
  }

  /** Two non-blank stores under one name leave what the second alone leaves. */
  lemma StoreSameNameTwice(numbers: NumberParsing, result: map<string, JsValue>, first: Input, second: Input)
    requires first.name == second.name && JsTrim(first.value) != "" && JsTrim(second.value) != ""
    requires Store(numbers, result, first).Ok?
    ensures Store(numbers, Store(numbers, result, first).value, second) == Store(numbers, result, second)
  {
    LaterStoreWins(result, Split(first.name, '.'), CastValue(numbers, JsTrim(first.value), first.paramType),
                   CastValue(numbers, JsTrim(second.value), second.paramType));
  }

  /** Stored into a fresh result, a non-blank input's cast value is found at its dotted path. */
  lemma FirstInputFound(numbers: NumberParsing, input: Input)
    requires JsTrim(input.value) != ""
    ensures Collect(numbers, [input]).Ok?
    ensures Get(Collect(numbers, [input]).value, Split(input.name, '.')) ==
      Some(CastValue(numbers, JsTrim(input.value), input.paramType))
  {
    var path := Split(input.name, '.');
    assert [input][..0] == [];
    FreshWritable(path);
    SetThenGet(map[], path, CastValue(numbers, JsTrim(input.value), input.paramType));
  }

  /** `collectParams`: the inputs in document order, each stored into the one result object. */
  method CollectParams(numbers: NumberParsing, inputs: seq<Input>) returns (r: Result<map<string, JsValue>, string>)
    ensures r == Collect(numbers, inputs)
  {
    var result: map<string, JsValue> := map[];
    var i := 0;
    while i < |inputs|
      invariant 0 <= i <= |inputs|
      invariant Collect(numbers, inputs[..i]) == Ok(result)
    {
      assert inputs[..i + 1][..i] == inputs[..i];
      var input := inputs[i];
      var value := JsTrim(input.value);
      if value != "" {
        var path := Split(input.name, '.');
        var stored := SetPath(result, path, CastValue(numbers, value, input.paramType));
        if stored.Err? {
          assert Collect(numbers, inputs[..i + 1]) == stored;
          PrefixErrorPersists(numbers, inputs, i + 1);
          return stored;
        }
        result := stored.value;
      }
      i := i + 1;
    }
    assert inputs[..i] == inputs;
    r := Ok(result);
  }

  /** Once the walk throws, later inputs are never read. */
  lemma {:induction false} PrefixErrorPersists(numbers: NumberParsing, inputs: seq<Input>, n: nat)
    requires n <= |inputs| && Collect(numbers, inputs[..n]).Err?
    ensures Collect(numbers, inputs) == Collect(numbers, inputs[..n])
    decreases |inputs| - n
  {
    if n < |inputs| {
      assert inputs[..n + 1][..n] == inputs[..n];
      PrefixErrorPersists(numbers, inputs, n + 1);
    } else {
      assert inputs[..n] == inputs;
    }
  }
}
