/**
 * The type introspector: it walks the XSD type of an operation's input
 * body into the parameter descriptors the web form is built from. The walk
 * stops descending at depth MaxRecursionDepth, which is what makes it
 * terminate on recursive schemas.
 */
module Introspector {

  import opened Wrappers
  import opened Text
  import opened Wsdl

  const MaxRecursionDepth: nat := 5

  /** One parameter descriptor. `enumValues` is `None` and `children` is `NoChildren` when the descriptor has no such key. */
  datatype Param = Param(
    name: string,
    typeName: string,
    required: bool,
    minOccurs: int,
    maxOccurs: string,
    isComplex: bool,
    children: Children,
    enumValues: Option<seq<string>>)

  /** The `children` key of a descriptor: absent, or a list of descriptors. */
  datatype Children = NoChildren | ChildList(items: seq<Param>)

  // ---- friendly type names ------------------------------------------------

  /** The fixed table from XSD built-in type names to the form's type names. */
  const FriendlyTypes: map<string, string> := map[
    "string" := "string",
    "int" := "integer",
    "integer" := "integer",
    "long" := "integer",
    "unsignedInt" := "integer",
    "unsignedLong" := "integer",
    "short" := "integer",
    "float" := "float",
    "double" := "float",
    "decimal" := "float",
    "boolean" := "boolean",
    "anyURI" := "string",
    "dateTime" := "datetime",
    "duration" := "string",
    "token" := "string",
    "QName" := "string",
    "NCName" := "string",
    "ReferenceToken" := "string",
    "base64Binary" := "string"]

  /** The form's type vocabulary: the values of FriendlyTypes. */
  predicate IsFormType(s: string) {
    s == "string" || s == "integer" || s == "float" || s == "boolean" || s == "datetime"
  }

  /** A listed name is translated into the form's vocabulary; any other name passes through. */
  function FriendlyName(name: string): (r: string)
    ensures name in FriendlyTypes ==> IsFormType(r)
    ensures name !in FriendlyTypes ==> r == name
  {
    if name in FriendlyTypes then FriendlyTypes[name] else name
  }

  /** Translating twice is translating once. */
  lemma FriendlyNameIdempotent(name: string)
    ensures FriendlyName(FriendlyName(name)) == FriendlyName(name)
  {
    var r := FriendlyName(name);
    if name in FriendlyTypes {
      assert IsFormType(r);
      assert "datetime" !in FriendlyTypes;
    }
  }

  /** Python's `x or fallback` on an optional string: an absent or empty name falls back. */
  function NameOr(n: Option<string>, fallback: string): (r: string)
    ensures r == fallback || (n.Some? && r == n.value && r != [])
  {
    if n.Some? && n.value != [] then n.value else fallback
  }

  /** The name a type is known by: its `name`, else its `str()` text. */
  function TypeName(t: XsdType): string {
    NameOr(t.name, t.text)
  }

  function SimpleTypeName(t: XsdType): string {
    FriendlyName(TypeName(t))
  }

  /** `str(v)` of an enumeration literal. */
  function LiteralText(l: Literal): string {
    match l
    case LitText(s) => s
    case LitInt(i) => IntText(i)
  }

  /** The stringified accepted values of a restricted simple type, in declaration order; otherwise none. */
  function EnumValues(t: XsdType): seq<string> {
    if t.kind.Simple? && t.kind.acceptedValues.Some? then
      var vs := t.kind.acceptedValues.value;
      seq(|vs|, i requires 0 <= i < |vs| => LiteralText(vs[i]))
    else []
  }

  /** The `enum_values` key: present only when there are values to list. */
  function EnumField(t: XsdType): Option<seq<string>> {
    var vs := EnumValues(t);
    if vs == [] then None else Some(vs)
  }

  /** `enum_values` is present exactly when the type is a simple type with accepted values, and lists them all in order. */
  lemma EnumFieldPresent(t: XsdType)
    ensures EnumField(t).Some? <==> t.kind.Simple? && t.kind.acceptedValues.Some? && |t.kind.acceptedValues.value| > 0
    ensures EnumField(t).Some? ==>
      |EnumField(t).value| == |t.kind.acceptedValues.value| &&
      forall i :: 0 <= i < |EnumField(t).value| ==> EnumField(t).value[i] == LiteralText(t.kind.acceptedValues.value[i])
  {
    if t.kind.Simple? && t.kind.acceptedValues.Some? && |t.kind.acceptedValues.value| > 0 {
      assert |EnumValues(t)| > 0;
    }
  }

  // ---- the walk, as functions ---------------------------------------------

  /** `getattr(element, "min_occurs", 0)`. */
  function MinOccurs(d: ElementDecl): int {
    if d.minOccurs.Some? then d.minOccurs.value else 0
  }

  /** `str(getattr(element, "max_occurs", 1))`. */
  function MaxOccursText(d: ElementDecl): string {
    match d.maxOccurs
    case None => "1"
    case Some(Bounded(n)) => IntText(n)
    case Some(Unbounded) => "unbounded"
  }

  /** The descriptor of one typed attribute of a complex type. */
  function AttributeParam(schema: Schema, key: string, a: AttributeDecl): Param
    requires a.typeRef.Some? && a.typeRef.value in schema
  {
    var t := schema[a.typeRef.value];
    Param("@" + key, SimpleTypeName(t), false, 0, "1", false, NoChildren, EnumField(t))
  }

  /** The descriptors of the typed attributes, in order. */
  function AttributeParams(schema: Schema, attributes: seq<(string, AttributeDecl)>): seq<Param>
    requires AttributeRefsDefined(schema, attributes)
  {
    if attributes == [] then []
    else
      var init := attributes[..|attributes| - 1];
      var (key, a) := attributes[|attributes| - 1];
      AttributeParams(schema, init) + (if a.typeRef.None? then [] else [AttributeParam(schema, key, a)])
  }

  /** The descriptors of the typed elements of an element list, at nesting depth `depth`. */
  function Resolve(schema: Schema, elements: seq<(string, ElementDecl)>, depth: nat): (r: seq<Param>)
    requires Closed(schema) && ElementRefsDefined(schema, elements)
    ensures |r| <= |elements|
    decreases MaxRecursionDepth - depth, 1, |elements|
  {
    if elements == [] then []
    else
      var init := elements[..|elements| - 1];
      var (key, decl) := elements[|elements| - 1];
      Resolve(schema, init, depth) + (if decl.typeRef.None? then [] else [Describe(schema, key, decl, depth)])
  }

  /**
   * The descriptor of one typed element: below the depth cap a complex type
   * is described with its children (element descriptors, then attribute
   * descriptors); anything else, including a complex type at the cap, is a
   * leaf with the friendly type name.
   */
  function Describe(schema: Schema, key: string, decl: ElementDecl, depth: nat): (p: Param)
    requires Closed(schema) && decl.typeRef.Some? && decl.typeRef.value in schema
    ensures p.name == NameOr(decl.name, key)
    ensures p.required <==> p.minOccurs >= 1
    ensures p.isComplex <==> schema[decl.typeRef.value].kind.Complex? && depth < MaxRecursionDepth
    decreases MaxRecursionDepth - depth, 0, 0
  {
    var t := schema[decl.typeRef.value];
    var name := NameOr(decl.name, key);
    var min := MinOccurs(decl);
    if t.kind.Complex? && depth < MaxRecursionDepth then
      var elementParams := if t.kind.elements.Some? then Resolve(schema, t.kind.elements.value, depth + 1) else [];
      var attributeParams := if t.kind.attributes.Some? then AttributeParams(schema, t.kind.attributes.value) else [];
      Param(name, NameOr(t.name, "complexType"), min >= 1, min, MaxOccursText(decl), true, ChildList(elementParams + attributeParams), None)
    else
      Param(name, SimpleTypeName(t), min >= 1, min, MaxOccursText(decl), false, NoChildren, EnumField(t))
  }

  /** What an operation's input is described as: nothing unless the binding, the operation, its input body and the body's elements all exist. */
  function Introspect(w: ParsedWsdl, bindingName: string, operationName: string): seq<Param>
    requires WellFormed(w)
  {
    if bindingName !in w.bindings then []
    else
      var ops := w.bindings[bindingName].operations;
      if operationName !in ops then []
      else
        var op := ops[operationName];
        if op.input.None? || op.input.value.body.None? then []
        else
          var t := w.schema[op.input.value.body.value];
          if t.kind.Complex? && t.kind.elements.Some? then Resolve(w.schema, t.kind.elements.value, 0) else []
  }

  // ---- the walk, as the source performs it ---------------------------------

  /** `_resolve_elements`: appends one descriptor per typed element, filling a complex one's children list in place. */
  method ResolveElements(schema: Schema, elements: seq<(string, ElementDecl)>, depth: nat) returns (result: seq<Param>)
    requires Closed(schema) && ElementRefsDefined(schema, elements)
    ensures result == Resolve(schema, elements, depth)
    decreases MaxRecursionDepth - depth, 1
  {
    result := [];
    var i := 0;
    while i < |elements|
      invariant 0 <= i <= |elements|
      invariant result == Resolve(schema, elements[..i], depth)
    {
      ResolveStep(schema, elements, i, depth);
      var (attrName, element) := elements[i];
      if element.typeRef.None? {
        i := i + 1;
        continue;
      }
      var param := DescribeElement(schema, attrName, element, depth);
      result := result + [param];
      i := i + 1;
    }
    assert elements[..i] == elements;
  }

  /** The body of the loop for one typed element: its descriptor, with a complex one's children resolved one level down. */
  method DescribeElement(schema: Schema, attrName: string, element: ElementDecl, depth: nat) returns (param: Param)
    requires Closed(schema) && element.typeRef.Some? && element.typeRef.value in schema
    ensures param == Describe(schema, attrName, element, depth)
    decreases MaxRecursionDepth - depth, 0
  {
    var name := NameOr(element.name, attrName);
    var min := MinOccurs(element);
    var elemType := schema[element.typeRef.value];
    if elemType.kind.Complex? && depth < MaxRecursionDepth {
      var children: seq<Param>;
      if elemType.kind.elements.Some? {
        children := ResolveElements(schema, elemType.kind.elements.value, depth + 1);
      } else {
        children := [];
      }
      if elemType.kind.attributes.Some? {
        children := AppendAttributeParams(schema, children, elemType.kind.attributes.value);
      } else {
        assert children == children + [];
      }
      param := Param(name, NameOr(elemType.name, "complexType"), min >= 1, min, MaxOccursText(element), true, ChildList(children), None);
    } else {
      param := Param(name, SimpleTypeName(elemType), min >= 1, min, MaxOccursText(element), false, NoChildren, EnumField(elemType));
    }
  }

  /** Describing one more element appends its descriptor, if it is typed. */
  lemma ResolveStep(schema: Schema, elements: seq<(string, ElementDecl)>, i: nat, depth: nat)
    requires Closed(schema) && ElementRefsDefined(schema, elements) && i < |elements|
    ensures Resolve(schema, elements[..i + 1], depth) ==
      Resolve(schema, elements[..i], depth) + (if elements[i].1.typeRef.None? then [] else [Describe(schema, elements[i].0, elements[i].1, depth)])
  {
    assert elements[..i + 1][..i] == elements[..i];
  }

  /** The attribute loop of `_resolve_elements`: one descriptor appended per typed attribute. */
  method AppendAttributeParams(schema: Schema, children: seq<Param>, attributes: seq<(string, AttributeDecl)>) returns (r: seq<Param>)
    requires AttributeRefsDefined(schema, attributes)
    ensures r == children + AttributeParams(schema, attributes)
  {
    r := children;
    var j := 0;
    while j < |attributes|
      invariant 0 <= j <= |attributes|
      invariant r == children + AttributeParams(schema, attributes[..j])
    {
      assert attributes[..j + 1][..j] == attributes[..j];
      var (attrKey, attrVal) := attributes[j];
      if attrVal.typeRef.Some? {
        var attrType := schema[attrVal.typeRef.value];
        var attrParam := Param("@" + attrKey, SimpleTypeName(attrType), false, 0, "1", false, NoChildren, EnumField(attrType));
        r := r + [attrParam];
      }
      j := j + 1;
    }
    assert attributes[..j] == attributes;
  }

  /** `introspect_operation`. */
  method IntrospectOperation(w: ParsedWsdl, bindingName: string, operationName: string) returns (params: seq<Param>)
    requires WellFormed(w)
    ensures params == Introspect(w, bindingName, operationName)
  {
    params := [];
    if bindingName in w.bindings {
      var binding := w.bindings[bindingName];
      if operationName in binding.operations {
        var operation := binding.operations[operationName];
        if operation.input.Some? && operation.input.value.body.Some? {
          var bodyType := w.schema[operation.input.value.body.value];
          if bodyType.kind.Complex? && bodyType.kind.elements.Some? {
            params := ResolveElements(w.schema, bodyType.kind.elements.value, 0);
          }
        }
      }
    }
  }

  // ---- what the descriptors satisfy --------------------------------------

  /** An attribute descriptor: `@`-prefixed, optional, at most once, a leaf. */
  predicate AttributeShape(p: Param) {
    && |p.name| >= 1 && p.name[0] == '@'
    && !p.required && p.minOccurs == 0 && p.maxOccurs == "1"
    && !p.isComplex && p.children.NoChildren?
  }

  /**
   * The invariants every descriptor keeps, at every level: `required` is
   * `min_occurs >= 1`, only complex descriptors have children, and
   * `enum_values` is non-empty and only on leaves.
   */
  predicate Coherent(p: Param)
    decreases p
  {
    && (p.required <==> p.minOccurs >= 1)
    && (p.isComplex <==> p.children.ChildList?)
    && (p.enumValues.Some? ==> |p.enumValues.value| > 0 && !p.isComplex)
    && (p.children.ChildList? ==> forall c :: c in p.children.items ==> Coherent(c))
  }

  /** The descriptor tree has at most `h` levels. */
  predicate HeightAtMost(p: Param, h: nat)
    decreases p
  {
    && h >= 1
    && (p.children.ChildList? ==> forall c :: c in p.children.items ==> HeightAtMost(c, h - 1))
  }

  lemma {:induction false} AttributeParamsShape(schema: Schema, attributes: seq<(string, AttributeDecl)>)
    requires AttributeRefsDefined(schema, attributes)
    ensures forall i :: 0 <= i < |AttributeParams(schema, attributes)| ==>
      var p := AttributeParams(schema, attributes)[i];
      AttributeShape(p) && Coherent(p) && HeightAtMost(p, 1)
  {
    if attributes != [] {
      AttributeParamsShape(schema, attributes[..|attributes| - 1]);
    }
  }

  /**
   * Every descriptor produced at depth `depth` is coherent, its tree has at
   * most `MaxRecursionDepth - depth + 1` levels (six for the walk from
   * depth 0), and attribute descriptors have the attribute shape.
   */
  lemma {:induction false} ResolveWellFormed(schema: Schema, elements: seq<(string, ElementDecl)>, depth: nat)
    requires Closed(schema) && ElementRefsDefined(schema, elements)
    requires depth <= MaxRecursionDepth
    ensures forall i :: 0 <= i < |Resolve(schema, elements, depth)| ==>
      Coherent(Resolve(schema, elements, depth)[i]) && HeightAtMost(Resolve(schema, elements, depth)[i], MaxRecursionDepth - depth + 1)
    decreases MaxRecursionDepth - depth, 1, |elements|
  {
    if elements != [] {
      var init := elements[..|elements| - 1];
      var (key, decl) := elements[|elements| - 1];
      ResolveWellFormed(schema, init, depth);
      if decl.typeRef.Some? {
        DescribeWellFormed(schema, key, decl, depth);
      }
    }
  }

  lemma {:induction false} DescribeWellFormed(schema: Schema, key: string, decl: ElementDecl, depth: nat)
    requires Closed(schema) && decl.typeRef.Some? && decl.typeRef.value in schema
    requires depth <= MaxRecursionDepth
    ensures Coherent(Describe(schema, key, decl, depth))
    ensures HeightAtMost(Describe(schema, key, decl, depth), MaxRecursionDepth - depth + 1)
    decreases MaxRecursionDepth - depth, 0, 0
  {
    var t := schema[decl.typeRef.value];
    if t.kind.Complex? && depth < MaxRecursionDepth {
      var elementParams := if t.kind.elements.Some? then Resolve(schema, t.kind.elements.value, depth + 1) else [];
      var attributeParams := if t.kind.attributes.Some? then AttributeParams(schema, t.kind.attributes.value) else [];
      if t.kind.elements.Some? {
        ResolveWellFormed(schema, t.kind.elements.value, depth + 1);
      }
      if t.kind.attributes.Some? {
        AttributeParamsShape(schema, t.kind.attributes.value);
      }
      var children := elementParams + attributeParams;
      assert forall i :: 0 <= i < |children| ==>
        Coherent(children[i]) && HeightAtMost(children[i], MaxRecursionDepth - depth) by {
        forall i | 0 <= i < |children|
          ensures Coherent(children[i]) && HeightAtMost(children[i], MaxRecursionDepth - depth)
        {
          if i >= |elementParams| {
            assert children[i] == attributeParams[i - |elementParams|];
            HeightMonotone(children[i], 1, MaxRecursionDepth - depth);
          }
        }
      }
    } else {
      EnumFieldPresent(t);
    }
  }

  lemma HeightMonotone(p: Param, h: nat, k: nat)
    requires HeightAtMost(p, h) && h <= k
    ensures HeightAtMost(p, k)
    decreases p
  {
    if p.children.ChildList? {
      forall c | c in p.children.items ensures HeightAtMost(c, k - 1) {
        HeightMonotone(c, h - 1, k - 1);
      }
    }
  }

  /** An operation's descriptors are coherent and at most six levels deep, on any schema, recursive ones included. */
  lemma IntrospectWellFormed(w: ParsedWsdl, bindingName: string, operationName: string)
    requires WellFormed(w)
    ensures forall i :: 0 <= i < |Introspect(w, bindingName, operationName)| ==>
      Coherent(Introspect(w, bindingName, operationName)[i]) && HeightAtMost(Introspect(w, bindingName, operationName)[i], MaxRecursionDepth + 1)
  {
    var r := Introspect(w, bindingName, operationName);
    if r != [] {
      var op := w.bindings[bindingName].operations[operationName];
      var t := w.schema[op.input.value.body.value];
      ResolveWellFormed(w.schema, t.kind.elements.value, 0);
    }
  }

  /** At the depth cap a complex element becomes a leaf: not complex, no children, its pass-through type name. */
  lemma DescribeAtCap(schema: Schema, key: string, decl: ElementDecl, depth: nat)
    requires Closed(schema) && decl.typeRef.Some? && decl.typeRef.value in schema
    requires depth >= MaxRecursionDepth
    ensures var p := Describe(schema, key, decl, depth);
      !p.isComplex && p.children.NoChildren? && p.typeName == FriendlyName(TypeName(schema[decl.typeRef.value]))
  {
  }

  /** The entries of a declaration list that `hasType` accepts, in declaration order: the ones the walk describes. */
  function Typed<D>(entries: seq<(string, D)>, hasType: D -> bool): (r: seq<(string, D)>)
    ensures forall i :: 0 <= i < |r| ==> hasType(r[i].1)
    ensures forall x :: x in r ==> x in entries
  {
    if entries == [] then []
    else
      var last := entries[|entries| - 1];
      Typed(entries[..|entries| - 1], hasType) + (if hasType(last.1) then [last] else [])
  }

  /** An element declaration with a type; one without is a wildcard. */
  predicate ElementTyped(decl: ElementDecl) {
    decl.typeRef.Some?
  }

  /** An attribute declaration with a type. */
  predicate AttributeTyped(decl: AttributeDecl) {
    decl.typeRef.Some?
  }

  /** The typed entries of an element list. */
  function TypedElements(elements: seq<(string, ElementDecl)>): seq<(string, ElementDecl)> {
    Typed(elements, ElementTyped)
  }

  /** The typed entries of an attribute list. */
  function TypedAttributes(attributes: seq<(string, AttributeDecl)>): seq<(string, AttributeDecl)> {
    Typed(attributes, AttributeTyped)
  }

  /** Descriptors come one per typed element, in declaration order; untyped (wildcard) entries are skipped. */
  lemma {:induction false} ResolveFollowsDeclarations(schema: Schema, elements: seq<(string, ElementDecl)>, depth: nat)
    requires Closed(schema) && ElementRefsDefined(schema, elements)
    ensures |Resolve(schema, elements, depth)| == |TypedElements(elements)|
    ensures forall i :: 0 <= i < |TypedElements(elements)| ==>
      TypedElements(elements)[i].1.typeRef.value in schema &&
      Resolve(schema, elements, depth)[i] == Describe(schema, TypedElements(elements)[i].0, TypedElements(elements)[i].1, depth)
  {
    var typed := TypedElements(elements);
    forall i | 0 <= i < |typed| ensures typed[i].1.typeRef.value in schema {
      assert typed[i] in typed;
      var j :| 0 <= j < |elements| && elements[j] == typed[i];
    }
    if elements != [] {
      ResolveFollowsDeclarations(schema, elements[..|elements| - 1], depth);
    }
  }

  /** One attribute descriptor per typed attribute, in order, named `@` followed by the attribute's key. */
  lemma {:induction false} AttributeParamsFollowDeclarations(schema: Schema, attributes: seq<(string, AttributeDecl)>)
    requires AttributeRefsDefined(schema, attributes)
    ensures |AttributeParams(schema, attributes)| == |TypedAttributes(attributes)|
    ensures forall i :: 0 <= i < |TypedAttributes(attributes)| ==>
      AttributeParams(schema, attributes)[i].name == "@" + TypedAttributes(attributes)[i].0
  {
    if attributes != [] {
      AttributeParamsFollowDeclarations(schema, attributes[..|attributes| - 1]);
    }
  }

  /**
   * Below the cap a complex element is described as complex, under its
   * type's name (or "complexType"), with the element descriptors of its type
   * followed by one attribute descriptor per typed attribute.
   */
  lemma ComplexDescriptor(schema: Schema, key: string, decl: ElementDecl, depth: nat)
    requires Closed(schema) && decl.typeRef.Some? && decl.typeRef.value in schema
    requires schema[decl.typeRef.value].kind.Complex? && depth < MaxRecursionDepth
    ensures var t := schema[decl.typeRef.value];
      var p := Describe(schema, key, decl, depth);
      var elementParams := if t.kind.elements.Some? then Resolve(schema, t.kind.elements.value, depth + 1) else [];
      var attributeParams := if t.kind.attributes.Some? then AttributeParams(schema, t.kind.attributes.value) else [];
      && p.isComplex
      && p.typeName == NameOr(t.name, "complexType")
      && p.children.ChildList?
      && p.children.items[..|elementParams|] == elementParams
      && p.children.items[|elementParams|..] == attributeParams
      && forall i :: |elementParams| <= i < |p.children.items| ==> AttributeShape(p.children.items[i])
  {
    var t := schema[decl.typeRef.value];
    if t.kind.attributes.Some? {
      AttributeParamsShape(schema, t.kind.attributes.value);
    }
  }

  /** A descriptor's occurrence fields: `min_occurs` defaults to 0, `max_occurs` is text defaulting to "1", and `required` is `min_occurs >= 1`. */
  lemma OccurrenceFields(schema: Schema, key: string, decl: ElementDecl, depth: nat)
    requires Closed(schema) && decl.typeRef.Some? && decl.typeRef.value in schema
    ensures var p := Describe(schema, key, decl, depth);
      && p.minOccurs == (if decl.minOccurs.Some? then decl.minOccurs.value else 0)
      && (decl.maxOccurs.None? ==> p.maxOccurs == "1")
      && (decl.maxOccurs == Some(Unbounded) ==> p.maxOccurs == "unbounded")
      && (decl.maxOccurs.Some? && decl.maxOccurs.value.Bounded? ==> ParseInt(p.maxOccurs) == Some(decl.maxOccurs.value.n))
      && (p.required <==> p.minOccurs >= 1)
      && p.name == NameOr(decl.name, key)
  {
    if decl.maxOccurs.Some? && decl.maxOccurs.value.Bounded? {
      IntTextRoundTrip(decl.maxOccurs.value.n);
    }
  }

  /** Nothing to describe: no binding, no operation, no input, no body, or a body type without elements. */
  lemma IntrospectMissingParts(w: ParsedWsdl, bindingName: string, operationName: string)
    requires WellFormed(w)
    ensures bindingName !in w.bindings ==> Introspect(w, bindingName, operationName) == []
    ensures bindingName in w.bindings && operationName !in w.bindings[bindingName].operations ==> Introspect(w, bindingName, operationName) == []
    ensures bindingName in w.bindings && operationName in w.bindings[bindingName].operations ==>
      var op := w.bindings[bindingName].operations[operationName];
      (op.input.None? || op.input.value.body.None? ==> Introspect(w, bindingName, operationName) == [])
      && (op.input.Some? && op.input.value.body.Some? ==>
            var t := w.schema[op.input.value.body.value];
            !(t.kind.Complex? && t.kind.elements.Some?) ==> Introspect(w, bindingName, operationName) == [])
  {
  }

  /**
   * A type whose one element refers back to the type itself is cut off:
   * below the cap each level holds exactly the next one down, and at the cap
   * the element is a leaf typed by the type's own name.
   */
  lemma SelfReferenceIsCut(schema: Schema, key: string, decl: ElementDecl, depth: nat)
    requires Closed(schema) && decl.typeRef.Some? && decl.typeRef.value in schema
    requires schema[decl.typeRef.value].kind == Complex(Some([(key, decl)]), None)
    ensures depth < MaxRecursionDepth ==>
      Describe(schema, key, decl, depth).children == ChildList([Describe(schema, key, decl, depth + 1)])
    ensures depth >= MaxRecursionDepth ==>
      var p := Describe(schema, key, decl, depth);
      !p.isComplex && p.children.NoChildren? && p.typeName == FriendlyName(TypeName(schema[decl.typeRef.value]))
  {
    if depth < MaxRecursionDepth {
      var els := [(key, decl)];
      assert ElementRefsDefined(schema, els);
      assert els[..0] == [];
      assert Resolve(schema, els, depth + 1) == [Describe(schema, key, decl, depth + 1)];
    }
  }
}
