/**
 * What a parsed WSDL offers the rest of the system: its bindings, each with
 * its operations, and the XSD types the operations' input bodies refer to.
 * zeep builds this object graph; here it is a value, with types referred to
 * by name so that recursive and mutually recursive schemas can be written.
 */
module Wsdl {

  import opened Wrappers

  /** `max_occurs` of an element: a number or the literal `unbounded`. */
  datatype MaxOccurs = Bounded(n: nat) | Unbounded

  /**
   * One element of a complex type's element list. `typeRef` is `None` for
   * the Any placeholders that have no `.type`; the other fields are `None`
   * when the element object lacks that attribute.
   */
  datatype ElementDecl = ElementDecl(name: Option<string>, minOccurs: Option<int>, maxOccurs: Option<MaxOccurs>, typeRef: Option<string>)

  /** One attribute of a complex type; `typeRef` is `None` for AnyAttribute. */
  datatype AttributeDecl = AttributeDecl(typeRef: Option<string>)

  /** An enumeration literal of a restricted simple type. */
  datatype Literal = LitText(s: string) | LitInt(i: int)

  datatype TypeKind =
      /** `elements` / `attributes` are `None` when the type object has no such attribute. */
    | Complex(elements: Option<seq<(string, ElementDecl)>>, attributes: Option<seq<(string, AttributeDecl)>>)
    | Simple(acceptedValues: Option<seq<Literal>>)

  /** An XSD type: its `name` (possibly absent), its `str()` text, and its kind. */
  datatype XsdType = XsdType(name: Option<string>, text: string, kind: TypeKind)

  /** Type definitions by name. */
  type Schema = map<string, XsdType>

  /** An operation's input: its body part's type, when it has a body. */
  datatype InputMessage = InputMessage(body: Option<string>)

  datatype Operation = Operation(input: Option<InputMessage>)

  /** A binding: its operations keyed by operation name. */
  datatype Binding = Binding(operations: map<string, Operation>)

  /** A parsed WSDL document: bindings keyed by qualified name `{namespace}Local`. */
  datatype ParsedWsdl = ParsedWsdl(bindings: map<string, Binding>, schema: Schema)

  /** Every type an element list refers to is defined. */
  predicate ElementRefsDefined(schema: Schema, elements: seq<(string, ElementDecl)>) {
    forall i :: 0 <= i < |elements| && elements[i].1.typeRef.Some? ==> elements[i].1.typeRef.value in schema
  }

  predicate AttributeRefsDefined(schema: Schema, attributes: seq<(string, AttributeDecl)>) {
    forall i :: 0 <= i < |attributes| && attributes[i].1.typeRef.Some? ==> attributes[i].1.typeRef.value in schema
  }

  /**
   * The schema is closed under reference: in zeep every `.type` is an
   * object, so a reference by name always resolves.
   */
  predicate Closed(schema: Schema) {
    forall n :: n in schema ==>
      match schema[n].kind
      case Complex(els, attrs) =>
        (els.Some? ==> ElementRefsDefined(schema, els.value)) && (attrs.Some? ==> AttributeRefsDefined(schema, attrs.value))
      case Simple(_) => true
  }

  /** Every input body of the document refers to a defined type, and the schema is closed. */
  predicate WellFormed(w: ParsedWsdl) {
    && Closed(w.schema)
    && forall b, o :: b in w.bindings && o in w.bindings[b].operations ==>
         var op := w.bindings[b].operations[o];
         op.input.Some? && op.input.value.body.Some? ==> op.input.value.body.value in w.schema
  }
}
