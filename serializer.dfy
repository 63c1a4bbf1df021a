/**
 * The response normaliser (`ONVIFSerializer`): `_make_json_safe`, a closed
 * type switch applied recursively, and `_element_to_dict`, which turns an XML
 * element into a one-entry map keyed by its local tag.
 */
module Serializer {

  import opened Wrappers
  import opened Text
  import opened PyValues

  /** The reserved key under which an element with children keeps its attributes. */
  const AttributesKey := "@attributes"

  /** `element.text and element.text.strip()`: text that is not blank. */
  predicate HasText(text: Option<string>) {
    text.Some? && PyStrip(text.value) != ""
  }

  /** `dict(element.attrib)`. */
  function AttributeDict(attrib: map<string, string>): (r: PyValue)
    ensures r.PDict? && r.entries.Keys == attrib.Keys
  {
    PDict(map k | k in attrib :: PStr(attrib[k]))
  }

  /** The value `_element_to_dict` stores under the element's local tag. */
  function ElementValue(e: Element): (v: PyValue)
    ensures !v.PList?
    decreases e, 1
  {
    if |e.children| == 0 then
      if HasText(e.text) then PStr(PyStrip(e.text.value))
      else if |e.attrib| > 0 then AttributeDict(e.attrib)
      else PNone
    else
      PDict(Fold(InitialFields(e.attrib), ChildEntries(e)))
  }

  /** One (local tag, value) pair per child, in document order. */
  function ChildEntries(e: Element): (r: seq<(string, PyValue)>)
    ensures |r| == |e.children|
    ensures forall i :: 0 <= i < |r| ==> r[i] == (LocalName(e.children[i].tag), ElementValue(e.children[i]))
    decreases e, 0
  {
    seq(|e.children|, i requires 0 <= i < |e.children| => (LocalName(e.children[i].tag), ElementValue(e.children[i])))
  }

  /** The map a parent starts from: its attributes under `@attributes`, if it has any. */
  function InitialFields(attrib: map<string, string>): map<string, PyValue>
  {
    if |attrib| > 0 then map[AttributesKey := AttributeDict(attrib)] else map[]
  }

  /** Adds one child's value: a new key, or a list that collects the repeated tag in order. */
  function AddChild(fields: map<string, PyValue>, tag: string, val: PyValue): map<string, PyValue>
  {
    if tag !in fields then fields[tag := val]
    else if fields[tag].PList? then fields[tag := PList(fields[tag].items + [val])]
    else fields[tag := PList([fields[tag], val])]
  }

  /** The children's entries added in document order. */
  function Fold(init: map<string, PyValue>, entries: seq<(string, PyValue)>): map<string, PyValue>
  {
    if entries == [] then init
    else AddChild(Fold(init, entries[..|entries| - 1]), entries[|entries| - 1].0, entries[|entries| - 1].1)
  }

  /** `_element_to_dict`: a one-entry map from the local tag to the element's value. */
  function ElementDict(e: Element): (r: PyValue)
    ensures r.PDict? && r.entries.Keys == {LocalName(e.tag)}
    ensures r.entries[LocalName(e.tag)] == ElementValue(e)
  {
    Singleton(LocalName(e.tag), ElementValue(e))
  }

  /** `{k: v}`. */
  function Singleton(k: string, v: PyValue): (r: PyValue)
    ensures r.PDict? && r.entries.Keys == {k} && r.entries[k] == v
  {
    PDict(map[k := v])
  }

  /** `_element_to_dict`, step by step as the source runs it. */
  method ElementToDict(e: Element) returns (r: PyValue)
    ensures r == ElementDict(e)
    decreases e, 1
  {
    var tag := LocalName(e.tag);
    if |e.children| == 0 && HasText(e.text) {
      return PDict(map[tag := PStr(PyStrip(e.text.value))]);
    }
    if |e.children| == 0 && !HasText(e.text) {
      if |e.attrib| > 0 {
        return PDict(map[tag := AttributeDict(e.attrib)]);
      }
      return PDict(map[tag := PNone]);
    }
    var result := ChildrenToDict(e);
    return PDict(map[tag := PDict(result)]);
  }

  /** The map of an element with children: its attributes, then each child's value merged in document order. */
  method ChildrenToDict(e: Element) returns (result: map<string, PyValue>)
    ensures result == Fold(InitialFields(e.attrib), ChildEntries(e))
    decreases e, 0
  {
    result := map[];
    if |e.attrib| > 0 {
      result := result[AttributesKey := AttributeDict(e.attrib)];
    }
    ghost var init := InitialFields(e.attrib);
    ghost var es := ChildEntries(e);
    var i := 0;
    while i < |e.children|
      invariant 0 <= i <= |e.children|
      invariant result == Fold(init, es[..i])
    {
      var childData := ElementToDict(e.children[i]);
      var childTag :| childTag in childData.entries;
      var childVal := childData.entries[childTag];
      ChildEntryAt(e, i, childData, childTag);
      FoldStep(init, es, i);
      result := MergeChild(result, childTag, childVal);
      i := i + 1;
    }
    assert es[..|e.children|] == es;
  }

  /** The pair a child's own map holds is that child's entry. */
  lemma ChildEntryAt(e: Element, i: nat, childData: PyValue, childTag: string)
    requires i < |e.children| && childData == ElementDict(e.children[i])
    requires childTag in childData.entries
    ensures (childTag, childData.entries[childTag]) == ChildEntries(e)[i]
  {
  }

  /** One more entry folded in is one more AddChild. */
  lemma FoldStep(init: map<string, PyValue>, entries: seq<(string, PyValue)>, i: nat)
    requires i < |entries|
    ensures Fold(init, entries[..i + 1]) == AddChild(Fold(init, entries[..i]), entries[i].0, entries[i].1)
  {
    assert entries[..i + 1][..i] == entries[..i];
  }

  /** The body of the child loop: a new tag is stored, a repeated one turns its entry into a list and appends. */
  method MergeChild(result: map<string, PyValue>, childTag: string, childVal: PyValue) returns (r: map<string, PyValue>)
    ensures r == AddChild(result, childTag, childVal)
  {
    r := result;
    if childTag in r {
      if !r[childTag].PList? {
        r := r[childTag := PList([r[childTag]])];
        assert [result[childTag]] + [childVal] == [result[childTag], childVal];
      }
      r := r[childTag := PList(r[childTag].items + [childVal])];
    } else {
      r := r[childTag := childVal];
    }
  }

  // ---- the shape of a parent's map --------------------------------------

  /** The values of the entries tagged `t`, in order. */
  function Tagged(entries: seq<(string, PyValue)>, t: string): seq<PyValue>
  {
    if entries == [] then []
    else Tagged(entries[..|entries| - 1], t)
         + (if entries[|entries| - 1].0 == t then [entries[|entries| - 1].1] else [])
  }

  /** What a key holds after folding `vals` into it: nothing, the one value, or the list of all of them. */
  function Collapse(vals: seq<PyValue>): Option<PyValue>
  {
    if |vals| == 0 then None else if |vals| == 1 then Some(vals[0]) else Some(PList(vals))
  }

  function Lookup(m: map<string, PyValue>, k: string): Option<PyValue>
  {
    if k in m then Some(m[k]) else None
  }

  lemma {:induction false} TaggedNoLists(entries: seq<(string, PyValue)>, t: string)
    requires forall i :: 0 <= i < |entries| ==> !entries[i].1.PList?
    ensures forall j :: 0 <= j < |Tagged(entries, t)| ==> !Tagged(entries, t)[j].PList?
  {
    if entries != [] {
      TaggedNoLists(entries[..|entries| - 1], t);
    }
  }

  /** What one AddChild does to the entry of a key `t`. */
  lemma AddChildLookup(fields: map<string, PyValue>, k: string, v: PyValue, t: string)
    ensures k != t ==> Lookup(AddChild(fields, k, v), t) == Lookup(fields, t)
    ensures k == t && t !in fields ==> Lookup(AddChild(fields, k, v), t) == Some(v)
    ensures k == t && t in fields && fields[t].PList? ==> Lookup(AddChild(fields, k, v), t) == Some(PList(fields[t].items + [v]))
    ensures k == t && t in fields && !fields[t].PList? ==> Lookup(AddChild(fields, k, v), t) == Some(PList([fields[t], v]))
  {
  }

  /**
   * Folding keeps, under every key, exactly the values tagged with it (after
   * the value the key started with, if any): none, the value itself, or a
   * list of two or more in document order.
   */
  lemma {:induction false} FoldCollects(init: map<string, PyValue>, entries: seq<(string, PyValue)>, t: string)
    requires forall k :: k in init ==> !init[k].PList?
    requires forall i :: 0 <= i < |entries| ==> !entries[i].1.PList?
    ensures Lookup(Fold(init, entries), t) == Collapse((if t in init then [init[t]] else []) + Tagged(entries, t))
  {
    if entries != [] {
      var prefix := entries[..|entries| - 1];
      var k := entries[|entries| - 1].0;
      var v := entries[|entries| - 1].1;
      var seed := if t in init then [init[t]] else [];
      var g := seed + Tagged(prefix, t);
      var before := Fold(init, prefix);
      FoldCollects(init, prefix, t);
      assert Lookup(before, t) == Collapse(g);
      assert Fold(init, entries) == AddChild(before, k, v);
      AddChildLookup(before, k, v, t);
      if k == t {
        assert seed + Tagged(entries, t) == g + [v];
        if |g| == 1 {
          TaggedNoLists(prefix, t);
          assert !g[0].PList?;
          assert [g[0], v] == g + [v];
        }
      } else {
        assert Tagged(entries, t) == Tagged(prefix, t);
      }
    }
  }

  /** The children's local tags. */
  function ChildTags(e: Element): set<string>
  {
    set i | 0 <= i < |e.children| :: LocalName(e.children[i].tag)
  }

  /** The values of the children whose local tag is `t`, in document order. */
  function ChildValuesTagged(e: Element, t: string): seq<PyValue>
  {
    Tagged(ChildEntries(e), t)
  }

  lemma {:induction false} TaggedEmpty(entries: seq<(string, PyValue)>, t: string)
    ensures Tagged(entries, t) == [] <==> forall i :: 0 <= i < |entries| ==> entries[i].0 != t
  {
    if entries != [] {
      TaggedEmpty(entries[..|entries| - 1], t);
      assert forall i :: 0 <= i < |entries| - 1 ==> entries[..|entries| - 1][i] == entries[i];
    }
  }

  /** What `@attributes` starts with before the children are added. */
  function Seed(e: Element, t: string): seq<PyValue>
  {
    if |e.attrib| > 0 && t == AttributesKey then [AttributeDict(e.attrib)] else []
  }

  /** The map of an element with children, before it is wrapped. */
  function ParentMap(e: Element): map<string, PyValue>
  {
    Fold(InitialFields(e.attrib), ChildEntries(e))
  }

  lemma ParentValue(e: Element)
    requires |e.children| > 0
    ensures ElementValue(e) == PDict(ParentMap(e))
  {
  }

  /**
   * An element with children maps to a map whose entry for a tag holds the
   * values of the children with that local tag (after the attribute map for
   * `@attributes`): absent for none, the value itself for one, the list of
   * all of them in document order for two or more. Its own text is ignored.
   */
  lemma ParentLookup(e: Element, t: string)
    ensures Lookup(ParentMap(e), t) == Collapse(Seed(e, t) + ChildValuesTagged(e, t))
  {
    ChildEntriesNoLists(e);
    FoldCollects(InitialFields(e.attrib), ChildEntries(e), t);
    InitialSeed(e, t);
  }

  lemma InitialSeed(e: Element, t: string)
    ensures (if t in InitialFields(e.attrib) then [InitialFields(e.attrib)[t]] else []) == Seed(e, t)
  {
  }

  lemma ChildEntriesNoLists(e: Element)
    ensures forall k :: k in InitialFields(e.attrib) ==> !InitialFields(e.attrib)[k].PList?
    ensures forall i :: 0 <= i < |ChildEntries(e)| ==> !ChildEntries(e)[i].1.PList?
  {
  }

  lemma ChildTagsTagged(e: Element, k: string)
    ensures k in ChildTags(e) <==> ChildValuesTagged(e, k) != []
  {
    var es := ChildEntries(e);
    TaggedEmpty(es, k);
    if k in ChildTags(e) {
      var i :| 0 <= i < |e.children| && LocalName(e.children[i].tag) == k;
      ChildTagAt(e, i);
    }
    if Tagged(es, k) != [] {
      var i :| 0 <= i < |es| && es[i].0 == k;
      ChildTagAt(e, i);
    }
  }

  lemma ChildTagAt(e: Element, i: nat)
    requires i < |e.children|
    ensures ChildEntries(e)[i].0 == LocalName(e.children[i].tag)
  {
  }

  /** One key of a parent's map: a child's local tag, or `@attributes` when there are attributes. */
  lemma ParentKey(e: Element, k: string)
    ensures k in ParentMap(e) <==> k in ChildTags(e) || (|e.attrib| > 0 && k == AttributesKey)
  {
    ParentLookup(e, k);
    ChildTagsTagged(e, k);
    var vals := Seed(e, k) + ChildValuesTagged(e, k);
    assert k in ParentMap(e) <==> vals != [];
  }

  /** The keys of a parent's map are its children's distinct local tags, plus `@attributes` when it has attributes. */
  lemma ParentKeys(e: Element)
    requires |e.children| > 0
    ensures ElementValue(e).PDict?
    ensures ElementValue(e).entries.Keys == ChildTags(e) + (if |e.attrib| > 0 then {AttributesKey} else {})
  {
    ParentValue(e);
    ParentMapKeys(e);
  }

  lemma ParentMapKeys(e: Element)
    ensures ParentMap(e).Keys == ChildTags(e) + (if |e.attrib| > 0 then {AttributesKey} else {})
  {
    var m := ParentMap(e);
    var keys := ChildTags(e) + (if |e.attrib| > 0 then {AttributesKey} else {});
    forall k ensures k in m <==> k in keys {
      ParentKey(e, k);
    }
  }

  /** A tag met once holds that child's value; met k >= 2 times, the list of the k values in document order. */
  lemma RepeatedTags(e: Element, t: string)
    requires |e.children| > 0
    requires t != AttributesKey
    ensures |ChildValuesTagged(e, t)| == 1 ==> Lookup(ElementValue(e).entries, t) == Some(ChildValuesTagged(e, t)[0])
    ensures |ChildValuesTagged(e, t)| >= 2 ==> Lookup(ElementValue(e).entries, t) == Some(PList(ChildValuesTagged(e, t)))
  {
    ParentValue(e);
    ParentLookup(e, t);
    assert Seed(e, t) + ChildValuesTagged(e, t) == ChildValuesTagged(e, t);
  }

  /** A childless element: its stripped text if it is not blank, else its attributes if any, else None. */
  lemma LeafShape(e: Element)
    requires |e.children| == 0
    ensures HasText(e.text) ==> ElementValue(e) == PStr(PyStrip(e.text.value))
    ensures HasText(e.text) ==> ElementValue(e).s != "" && !IsPySpace(ElementValue(e).s[0])
    ensures !HasText(e.text) && |e.attrib| > 0 ==> ElementValue(e) == AttributeDict(e.attrib)
    ensures !HasText(e.text) && |e.attrib| == 0 ==> ElementValue(e) == PNone
  {
  }

  // ---- _make_json_safe ---------------------------------------------------

  /**
   * The normaliser's output form: maps and lists all the way down, with no
   * tuple, element, date, duration, decimal or bytes left in them; what the
   * switch leaves alone (None, bool, int, float, str, sets, other objects)
   * may appear anywhere.
   */
  predicate Normal(v: PyValue)
  {
    match v
    case PDict(m) => forall k :: k in m ==> Normal(m[k])
    case PList(items) => forall i :: 0 <= i < |items| ==> Normal(items[i])
    case PTuple(_) => false
    case PElement(_) => false
    case PTemporal(_) => false
    case PDuration(_) => false
    case PDecimal(_) => false
    case PBytes(_) => false
    case _ => true
  }

  /** Element values are built from strings, None, maps and lists only, so they are normal. */
  lemma {:induction false} ElementValueNormal(e: Element)
    ensures Normal(ElementValue(e))
    decreases e
  {
    if |e.children| > 0 {
      var es := ChildEntries(e);
      forall i | 0 <= i < |es| ensures Normal(es[i].1) {
        ElementValueNormal(e.children[i]);
      }
      FoldNormal(InitialFields(e.attrib), es);
    }
  }

  lemma {:induction false} FoldNormal(init: map<string, PyValue>, entries: seq<(string, PyValue)>)
    requires forall k :: k in init ==> Normal(init[k])
    requires forall i :: 0 <= i < |entries| ==> Normal(entries[i].1)
    ensures forall k :: k in Fold(init, entries) ==> Normal(Fold(init, entries)[k])
  {
    if entries != [] {
      FoldNormal(init, entries[..|entries| - 1]);
    }
  }

  /** `_make_json_safe`. */
  function MakeJsonSafe(lib: PyLib, v: PyValue): (r: PyValue)
    ensures Normal(r)
    ensures v.PDict? ==> r.PDict? && r.entries.Keys == v.entries.Keys
    ensures (v.PList? || v.PTuple?) ==> r.PList? && |r.items| == |v.items|
    decreases v
  {
    match v
    case PDict(m) => PDict(map k | k in m :: MakeJsonSafe(lib, m[k]))
    case PList(items) => PList(SafeItems(lib, items))
    case PTuple(items) => PList(SafeItems(lib, items))
    case PElement(e) => ElementValueNormal(e); ElementDict(e)
    case PTemporal(t) => PStr(lib.isoformat(t))
    case PDuration(d) => PStr(lib.durationText(d))
    case PDecimal(d) => PFloat(lib.decimalToFloat(d))
    case PBytes(b) => PStr(lib.decodeUtf8(b))
    case _ => v
  }

  function SafeItems(lib: PyLib, items: seq<PyValue>): (r: seq<PyValue>)
    ensures |r| == |items|
    ensures forall i :: 0 <= i < |r| ==> Normal(r[i])
    decreases items
  {
    seq(|items|, i requires 0 <= i < |items| => MakeJsonSafe(lib, items[i]))
  }

  /** A normal value is left as it is: the normaliser's fixed points are exactly its outputs. */
  lemma {:induction false} NormalIsFixed(lib: PyLib, v: PyValue)
    requires Normal(v)
    ensures MakeJsonSafe(lib, v) == v
    decreases v
  {
    match v
    case PDict(m) =>
      forall k | k in m ensures MakeJsonSafe(lib, m[k]) == m[k] {
        NormalIsFixed(lib, m[k]);
      }
    case PList(items) =>
      forall i | 0 <= i < |items| ensures MakeJsonSafe(lib, items[i]) == items[i] {
        NormalIsFixed(lib, items[i]);
      }
      assert SafeItems(lib, items) == items;
    case _ =>
  }

  /** Normalising twice is normalising once. */
  lemma Idempotent(lib: PyLib, v: PyValue)
    ensures MakeJsonSafe(lib, MakeJsonSafe(lib, v)) == MakeJsonSafe(lib, v)
  {
    NormalIsFixed(lib, MakeJsonSafe(lib, v));
  }

  /**
   * The switch case by case: maps key for key, lists and tuples element for
   * element in order, elements by the element rule, durations by
   * `str(timedelta)` (not an ISO-8601 duration), dates and times by
   * `isoformat()`, decimals as floats, bytes decoded, and every value it does not
   * recognise, sets included, returned unchanged.
   */
  lemma SwitchCases(lib: PyLib, v: PyValue)
    ensures v.PDict? ==> forall k :: k in v.entries ==> MakeJsonSafe(lib, v).entries[k] == MakeJsonSafe(lib, v.entries[k])
    ensures (v.PList? || v.PTuple?) ==>
      forall i :: 0 <= i < |v.items| ==> MakeJsonSafe(lib, v).items[i] == MakeJsonSafe(lib, v.items[i])
    ensures v.PElement? ==> MakeJsonSafe(lib, v) == ElementDict(v.e)
    ensures v.PDuration? ==> MakeJsonSafe(lib, v) == PStr(lib.durationText(v.dur))
    ensures v.PTemporal? ==> MakeJsonSafe(lib, v) == PStr(lib.isoformat(v.t))
    ensures v.PDecimal? ==> MakeJsonSafe(lib, v) == PFloat(lib.decimalToFloat(v.d))
    ensures v.PBytes? ==> MakeJsonSafe(lib, v) == PStr(lib.decodeUtf8(v.bytes))
    ensures (v.PSet? || v.PObject? || v.PNone? || v.PBool? || v.PInt? || v.PFloat? || v.PStr?) ==> MakeJsonSafe(lib, v) == v
  {
  }

  /** `serialize`: zeep's `serialize_object` (given as `raw`) followed by the normaliser. */
  function Serialize(lib: PyLib, raw: PyValue): (r: PyValue)
    ensures Normal(r)
  {
    MakeJsonSafe(lib, raw)
  }
}
