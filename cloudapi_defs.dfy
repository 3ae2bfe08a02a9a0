/** The cloud-API definitions normaliser: legacy Swagger 2 style
    definitions, as a page script leaves them, rewritten into OpenAPI
    component schemas. A JSON object is a record of optional members;
    a member that is absent is `None`. */
module CloudApiDefs {
  import opened Wrappers
  import opened Strings
  import opened Iter
  import opened IndexMaps

  /** A scalar copied verbatim (`default`). */
  datatype Scalar = BoolValue(b: bool) | NumberValue(n: real) | StringValue(s: string)

  /** A definition node and every node nested in one: the members any of
      the declared node shapes may carry. */
  datatype Node = Node(
    ref: Option<string>,
    nodeType: Option<string>,
    description: Option<string>,
    format: Option<string>,
    default: Option<Scalar>,
    minimum: Option<real>,
    maximum: Option<real>,
    readOnly: Option<bool>,
    example: Option<string>,
    examples: Option<seq<string>>,
    minLength: Option<real>,
    maxLength: Option<real>,
    pattern: Option<string>,
    items: Option<Node>,
    minItems: Option<real>,
    maxItems: Option<real>,
    additionalProperties: Option<Node>,
    properties: Option<IndexMap<string, Node>>,
    required: Option<seq<string>>,
    discriminator: Option<string>,
    enumValues: Option<seq<string>>,
    allOf: Option<seq<Node>>)

  /** The empty object `{}`. */
  const Empty: Node := Node(None, None, None, None, None, None, None, None, None, None, None,
                            None, None, None, None, None, None, None, None, None, None, None)

  /** What aborts the normalisation: a property of an unknown type
      (`Error("Unexpected object type")`), the `in` test on the missing
      `items` of an array (a `TypeError`), and a page script that binds
      no `defs`. */
  datatype DefsError = UnexpectedObjectType | ItemsMissing | MissingDefs

  function TypeNode(t: string): (r: Node)
    ensures r.nodeType == Some(t) && r.ref.None? && r.enumValues.None?
  {
    Empty.(nodeType := Some(t))
  }

  const DefinitionsPrefix := "#/definitions/"
  const ComponentsPrefix := "#/components/schemas/"

  /** `refStringCorrector`: the leading `#/definitions/` becomes
      `#/components/schemas/`; any other string is unchanged. */
  function RefString(s: string): (r: string)
    ensures StartsWith(s, DefinitionsPrefix) ==> r == ComponentsPrefix + s[|DefinitionsPrefix|..]
    ensures !StartsWith(s, DefinitionsPrefix) ==> r == s
  {
    match StripPrefix(s, DefinitionsPrefix)
    case Some(rest) => ComponentsPrefix + rest
    case None => s
  }

  /** A rewritten reference is not rewritten again. */
  lemma RefStringIdempotent(s: string)
    ensures RefString(RefString(s)) == RefString(s)
  {
    if StartsWith(s, DefinitionsPrefix) {
      var r := RefString(s);
      assert r[2] == 'c';
      assert !StartsWith(r, DefinitionsPrefix);
    }
  }

  /** `descriptionCorrector`. */
  function Description(s: string): (r: string)
    ensures |r| <= |s|
    ensures r == [] || (!IsJsWhitespace(r[0]) && !IsJsWhitespace(r[|r| - 1]))
  {
    JsTrim(s)
  }

  function OptDescription(d: Option<string>): (r: Option<string>)
    ensures r.Some? <==> d.Some?
    ensures r.Some? ==> r.value == Description(d.value)
  {
    MapOption(d, Description)
  }

  lemma OptDescriptionIdempotent(d: Option<string>)
    ensures OptDescription(OptDescription(d)) == OptDescription(d)
  {
    if d.Some? {
      TrimIdempotent(d.value, IsJsWhitespace);
    }
  }

  /** `refCorrector`: the rewritten `$ref` and the trimmed description,
      nothing else. */
  function RefCorrector(v: Node): (r: Node)
    requires v.ref.Some?
    ensures r.ref == Some(RefString(v.ref.value)) && r.description == OptDescription(v.description)
    ensures r.(ref := None, description := None) == Empty
  {
    Empty.(ref := Some(RefString(v.ref.value)), description := OptDescription(v.description))
  }

  /** `booleanCorrector`. */
  function BooleanCorrector(v: Node): (r: Node)
    ensures r.nodeType == Some("boolean") && r.description == OptDescription(v.description) && r.default == v.default
    ensures r.(description := None, default := None) == TypeNode("boolean")
  {
    TypeNode("boolean").(description := OptDescription(v.description), default := v.default)
  }

  /** `integerCorrector`: the format survives only when it is `int32` or
      `int64`; bounds, default and `readOnly` only when given. */
  function IntegerCorrector(v: Node): (r: Node)
    ensures r.nodeType == Some("integer")
    ensures r.format.Some? <==> v.format == Some("int32") || v.format == Some("int64")
    ensures r.format.Some? ==> r.format == v.format
    ensures r.description == OptDescription(v.description)
    ensures r.minimum == v.minimum && r.maximum == v.maximum && r.default == v.default && r.readOnly == v.readOnly
    ensures r.(format := None, description := None, minimum := None, maximum := None, default := None, readOnly := None)
            == TypeNode("integer")
  {
    TypeNode("integer").(
      format := if v.format == Some("int32") || v.format == Some("int64") then v.format else None,
      description := OptDescription(v.description),
      minimum := v.minimum,
      maximum := v.maximum,
      default := v.default,
      readOnly := v.readOnly)
  }

  /** `numberCorrector`: only the `double` format survives. */
  function NumberCorrector(v: Node): (r: Node)
    ensures r.nodeType == Some("number")
    ensures r.format.Some? <==> v.format == Some("double")
    ensures r.format.Some? ==> r.format == v.format
    ensures r.description == OptDescription(v.description)
    ensures r.minimum == v.minimum && r.maximum == v.maximum
    ensures r.(format := None, description := None, minimum := None, maximum := None) == TypeNode("number")
  {
    TypeNode("number").(
      format := if v.format == Some("double") then v.format else None,
      description := OptDescription(v.description),
      minimum := v.minimum,
      maximum := v.maximum)
  }

  /** `stringCorrector`: only the `date-time` and `uri` formats survive; a
      single `example` becomes the one-element `examples`, and an input
      `examples` is never copied. */
  function StringCorrector(v: Node): (r: Node)
    ensures r.nodeType == Some("string")
    ensures r.format.Some? <==> v.format == Some("date-time") || v.format == Some("uri")
    ensures r.format.Some? ==> r.format == v.format
    ensures r.description == OptDescription(v.description)
    ensures r.example.None?
    ensures r.examples == (if v.example.Some? then Some([v.example.value]) else None)
    ensures r.default == v.default && r.minLength == v.minLength && r.maxLength == v.maxLength
    ensures r.readOnly == v.readOnly && r.pattern == v.pattern
    ensures r.(format := None, description := None, examples := None, default := None, minLength := None,
               maxLength := None, readOnly := None, pattern := None) == TypeNode("string")
  {
    TypeNode("string").(
      format := if v.format == Some("date-time") || v.format == Some("uri") then v.format else None,
      description := OptDescription(v.description),
      examples := if v.example.Some? then Some([v.example.value]) else None,
      default := v.default,
      minLength := v.minLength,
      maxLength := v.maxLength,
      readOnly := v.readOnly,
      pattern := v.pattern)
  }

  /** The `items` of a corrected array: the rewritten reference, or a
      plain string. */
  function ItemsCorrector(items: Node): (r: Node)
    ensures items.ref.Some? ==> r == Empty.(ref := Some(RefString(items.ref.value)))
    ensures items.ref.None? ==> r == TypeNode("string")
  {
    if items.ref.Some? then Empty.(ref := Some(RefString(items.ref.value))) else TypeNode("string")
  }

  /** `arrayCorrector`. */
  function ArrayCorrector(v: Node): (r: Result<Node, DefsError>)
    ensures r.Err? <==> v.items.None?
    ensures r.Err? ==> r.error == ItemsMissing
    ensures r.Ok? ==> r.value.nodeType == Some("array") && r.value.description == OptDescription(v.description)
    ensures r.Ok? ==> r.value.items == Some(ItemsCorrector(v.items.value))
    ensures r.Ok? ==> r.value.minItems == v.minItems && r.value.maxItems == v.maxItems
    ensures r.Ok? ==> r.value.(description := None, items := None, minItems := None, maxItems := None) == TypeNode("array")
  {
    match v.items
    case None => Err(ItemsMissing)
    case Some(items) =>
      Ok(TypeNode("array").(
        description := OptDescription(v.description),
        items := Some(ItemsCorrector(items)),
        minItems := v.minItems,
        maxItems := v.maxItems))
  }

  /** `deepObjectCorrector`: a map object whose values are strings or
      arrays. */
  function DeepObjectCorrector(v: Node): (r: Result<Node, DefsError>)
    ensures r.Err? <==> v.additionalProperties.Some? && v.additionalProperties.value.nodeType != Some("string")
                        && v.additionalProperties.value.items.None?
    ensures r.Ok? ==> r.value.nodeType == Some("object") && r.value.description == OptDescription(v.description)
    ensures r.Ok? ==> (r.value.additionalProperties.Some? <==> v.additionalProperties.Some?)
    ensures r.Ok? && v.additionalProperties.Some? && v.additionalProperties.value.nodeType == Some("string") ==>
              r.value.additionalProperties == Some(TypeNode("string"))
    ensures r.Ok? && v.additionalProperties.Some? && v.additionalProperties.value.nodeType != Some("string") ==>
              Ok(r.value.additionalProperties.value) == ArrayCorrector(v.additionalProperties.value)
  {
    var base := TypeNode("object").(description := OptDescription(v.description));
    match v.additionalProperties
    case None => Ok(base)
    case Some(ap) =>
      if ap.nodeType == Some("string") then Ok(base.(additionalProperties := Some(TypeNode("string"))))
      else
        var a :- ArrayCorrector(ap);
        Ok(base.(additionalProperties := Some(a)))
  }

  /** `enumCorrector`: always a string enumeration, whatever the declared
      type; the values and the default are copied as they are. */
  function EnumCorrector(v: Node): (r: Node)
    requires v.enumValues.Some?
    ensures r.nodeType == Some("string") && r.enumValues == v.enumValues
    ensures r.description == OptDescription(v.description) && r.default == v.default
    ensures r.(enumValues := None, description := None, default := None) == TypeNode("string")
  {
    TypeNode("string").(description := OptDescription(v.description), enumValues := v.enumValues, default := v.default)
  }

  /** The dispatch inside an object: `$ref`, then `enum`, then the type
      tag; any other type aborts. */
  function PropertyCorrector(v: Node): (r: Result<Node, DefsError>)
    ensures r == Err(UnexpectedObjectType) <==>
              v.ref.None? && v.enumValues.None?
              && v.nodeType !in {Some("boolean"), Some("integer"), Some("number"), Some("string"), Some("array"), Some("object")}
    ensures v.ref.Some? ==> r == Ok(RefCorrector(v))
    ensures v.ref.None? && v.enumValues.Some? ==> r == Ok(EnumCorrector(v))
  {
    if v.ref.Some? then Ok(RefCorrector(v))
    else if v.enumValues.Some? then Ok(EnumCorrector(v))
    else if v.nodeType == Some("boolean") then Ok(BooleanCorrector(v))
    else if v.nodeType == Some("integer") then Ok(IntegerCorrector(v))
    else if v.nodeType == Some("number") then Ok(NumberCorrector(v))
    else if v.nodeType == Some("string") then Ok(StringCorrector(v))
    else if v.nodeType == Some("array") then ArrayCorrector(v)
    else if v.nodeType == Some("object") then DeepObjectCorrector(v)
    else Err(UnexpectedObjectType)
  }

  /** One corrected property entry. */
  function PropertyEntry(e: (string, Node)): (r: Result<(string, Node), DefsError>)
    ensures r.Ok? <==> PropertyCorrector(e.1).Ok?
    ensures r.Ok? ==> r.value == (e.0, PropertyCorrector(e.1).value)
  {
    var c :- PropertyCorrector(e.1);
    Ok((e.0, c))
  }

  /** The `properties` of a corrected object: each entry corrected in
      order, the first failure aborting, then spread into one object. */
  function CorrectProperties(props: IndexMap<string, Node>): (r: Result<IndexMap<string, Node>, DefsError>)
  {
    var es :- TryMap(props, PropertyEntry);
    Ok(InsertAll([], es))
  }

  /** `objectCorrector`: always `type: "object"`. */
  function ObjectCorrector(v: Node): (r: Result<Node, DefsError>)
    ensures r.Err? <==> v.properties.Some? && CorrectProperties(v.properties.value).Err?
    ensures r.Ok? ==> r.value.nodeType == Some("object") && r.value.description == OptDescription(v.description)
    ensures r.Ok? ==> r.value.required == v.required && r.value.discriminator == v.discriminator
    ensures r.Ok? ==> (r.value.properties.Some? <==> v.properties.Some?)
    ensures r.Ok? && v.properties.Some? ==> Ok(r.value.properties.value) == CorrectProperties(v.properties.value)
    ensures r.Ok? ==> r.value.(description := None, properties := None, required := None, discriminator := None)
                      == TypeNode("object")
  {
    var props :- if v.properties.Some? then
                   var ps :- CorrectProperties(v.properties.value); Ok(Some(ps))
                 else Ok(None);
    Ok(TypeNode("object").(
      description := OptDescription(v.description),
      properties := props,
      required := v.required,
      discriminator := v.discriminator))
  }

  /** One member of an `allOf`: a reference keeps only its rewritten
      `$ref`; anything else is corrected as an object. */
  function AllOfMember(v: Node): (r: Result<Node, DefsError>)
    ensures v.ref.Some? ==> r == Ok(Empty.(ref := Some(RefString(v.ref.value))))
    ensures v.ref.None? ==> r == ObjectCorrector(v)
  {
    if v.ref.Some? then Ok(Empty.(ref := Some(RefString(v.ref.value)))) else ObjectCorrector(v)
  }

  /** `allOfCorrector`. */
  function AllOfCorrector(v: Node): (r: Result<Node, DefsError>)
    requires v.allOf.Some?
    ensures r.Err? <==> exists i :: 0 <= i < |v.allOf.value| && AllOfMember(v.allOf.value[i]).Err?
    ensures r.Ok? ==> r.value.allOf.Some? && |r.value.allOf.value| == |v.allOf.value|
    ensures r.Ok? ==> forall i :: 0 <= i < |v.allOf.value| ==> AllOfMember(v.allOf.value[i]) == Ok(r.value.allOf.value[i])
    ensures r.Ok? ==> r.value.(allOf := None, description := None) == Empty
    ensures r.Ok? ==> r.value.description == OptDescription(v.description)
  {
    var members :- TryMap(v.allOf.value, AllOfMember);
    Ok(Empty.(allOf := Some(members), description := OptDescription(v.description)))
  }

  /** The classification of a top-level definition: `enum`, else `allOf`,
      else an object. */
  function Correct(v: Node): (r: Result<Node, DefsError>)
    ensures v.enumValues.Some? ==> r == Ok(EnumCorrector(v))
    ensures v.enumValues.None? && v.allOf.Some? ==> r == AllOfCorrector(v)
    ensures v.enumValues.None? && v.allOf.None? ==> r == ObjectCorrector(v)
  {
    if v.enumValues.Some? then Ok(EnumCorrector(v))
    else if v.allOf.Some? then AllOfCorrector(v)
    else ObjectCorrector(v)
  }

  /** One corrected top-level entry. */
  function CorrectEntry(e: (string, Node)): (r: Result<(string, Node), DefsError>)
    ensures r.Ok? <==> Correct(e.1).Ok?
    ensures r.Ok? ==> r.value == (e.0, Correct(e.1).value)
  {
    var c :- Correct(e.1);
    Ok((e.0, c))
  }

  /** What the loop over `Object.entries(defs)` leaves in `newDefs`:
      every definition corrected under its own key, unless one of them
      throws, or the page script bound no `defs`. */
  function NormalizeSpec(defs: Option<IndexMap<string, Node>>): (r: Result<IndexMap<string, Node>, DefsError>)
    ensures defs.None? ==> r == Err(MissingDefs)
    ensures defs.Some? ==> (r.Ok? <==> forall i :: 0 <= i < |defs.value| ==> Correct(defs.value[i].1).Ok?)
  {
    match defs
    case None => Err(MissingDefs)
    case Some(d) =>
      var es :- TryMap(d, CorrectEntry);
      Ok(InsertAll([], es))
  }

  /** The top-level loop: `newDefs[key] = ...` for each entry in order,
      the first throw aborting the whole normalisation. */
  method NormalizeDefs(defs: Option<IndexMap<string, Node>>) returns (r: Result<IndexMap<string, Node>, DefsError>)
    ensures r == NormalizeSpec(defs)
  {
    if defs.None? {
      return Err(MissingDefs);
    }
    var d := defs.value;
    var newDefs: IndexMap<string, Node> := [];
    ghost var done: seq<(string, Node)> := [];
    var i := 0;
    while i < |d|
      invariant 0 <= i <= |d|
      invariant forall j :: 0 <= j < i ==> Correct(d[j].1).Ok?
      invariant |done| == i && forall j :: 0 <= j < i ==> done[j] == (d[j].0, Correct(d[j].1).value)
      invariant newDefs == InsertAll([], done)
    {
      var key := d[i].0;
      var c := CorrectDefinition(d[i].1);
      if c.Err? {
        NormalizeStops(d, i);
        return Err(c.error);
      }
      InsertAllSnoc([], done, (key, c.value));
      newDefs := Insert(newDefs, key, c.value);
      done := done + [(key, c.value)];
      i := i + 1;
    }
    NormalizeCompletes(d, done);
    return Ok(newDefs);
  }

  /** The corrector the loop picks for one definition: `enum`, else
      `allOf`, else object. */
  method CorrectDefinition(value: Node) returns (c: Result<Node, DefsError>)
    ensures c == Correct(value)
  {
    if value.enumValues.Some? {
      c := Ok(EnumCorrector(value));
    } else if value.allOf.Some? {
      c := AllOfCorrector(value);
    } else {
      c := ObjectCorrector(value);
    }
  }

  /** The first definition that throws ends the normalisation with its error. */
  lemma NormalizeStops(d: IndexMap<string, Node>, i: nat)
    requires i < |d| && Correct(d[i].1).Err?
    requires forall j :: 0 <= j < i ==> Correct(d[j].1).Ok?
    ensures NormalizeSpec(Some(d)) == Err(Correct(d[i].1).error)
  {
    var r := TryMap(d, CorrectEntry);
    assert CorrectEntry(d[i]).Err?;
    var k :| 0 <= k < |d| && CorrectEntry(d[k]) == Err(r.error) && forall j :: 0 <= j < k ==> CorrectEntry(d[j]).Ok?;
    assert k == i;
  }

  /** When every definition corrects, the normalisation collects them all. */
  lemma NormalizeCompletes(d: IndexMap<string, Node>, done: seq<(string, Node)>)
    requires |done| == |d| && forall j :: 0 <= j < |d| ==> Correct(d[j].1).Ok? && done[j] == (d[j].0, Correct(d[j].1).value)
    ensures NormalizeSpec(Some(d)) == Ok(InsertAll([], done))
  {
    var r := TryMap(d, CorrectEntry);
    assert r.Ok?;
    forall j | 0 <= j < |d|
      ensures r.value[j] == done[j]
    {
      assert CorrectEntry(d[j]) == Ok(r.value[j]);
    }
    assert r.value == done;
  }

  /** The entries of `TryMap(d, CorrectEntry)`, one by one. */
  lemma CorrectEntries(d: IndexMap<string, Node>)
    requires TryMap(d, CorrectEntry).Ok?
    ensures forall i :: 0 <= i < |d| ==> TryMap(d, CorrectEntry).value[i].0 == d[i].0
    ensures forall i :: 0 <= i < |d| ==> TryMap(d, CorrectEntry).value[i].1 == Correct(d[i].1).value
  {
    var es := TryMap(d, CorrectEntry).value;
    forall i | 0 <= i < |d|
      ensures es[i].0 == d[i].0 && es[i].1 == Correct(d[i].1).value
    {
      assert CorrectEntry(d[i]) == Ok(es[i]);
    }
  }

  lemma NormalizeFresh(d: IndexMap<string, Node>)
    requires UniqueKeys(d) && NormalizeSpec(Some(d)).Ok?
    ensures NormalizeSpec(Some(d)).value == TryMap(d, CorrectEntry).value
  {
    CorrectEntries(d);
    InsertAllFresh([], TryMap(d, CorrectEntry).value);
  }

  /** The normalised definitions have exactly the input's keys, in order,
      each holding its corrected definition. */
  lemma NormalizeKeys(d: IndexMap<string, Node>)
    requires UniqueKeys(d) && NormalizeSpec(Some(d)).Ok?
    ensures Keys(NormalizeSpec(Some(d)).value) == Keys(d)
    ensures forall i :: 0 <= i < |d| ==> NormalizeSpec(Some(d)).value[i].1 == Correct(d[i].1).value
  {
    var es := TryMap(d, CorrectEntry).value;
    CorrectEntries(d);
    NormalizeFresh(d);
    assert Keys(es) == Keys(d);
  }

  /** A failing normalisation reports the first definition that throws. */
  lemma NormalizeFirstError(d: IndexMap<string, Node>)
    requires NormalizeSpec(Some(d)).Err?
    ensures exists i :: 0 <= i < |d| && Correct(d[i].1) == Err(NormalizeSpec(Some(d)).error)
                        && forall j :: 0 <= j < i ==> Correct(d[j].1).Ok?
  {
    var i :| 0 <= i < |d| && CorrectEntry(d[i]) == Err(TryMap(d, CorrectEntry).error)
             && forall j :: 0 <= j < i ==> CorrectEntry(d[j]).Ok?;
  }

  /** The entries of `TryMap(props, PropertyEntry)`, one by one. */
  lemma PropertyEntries(props: IndexMap<string, Node>)
    requires TryMap(props, PropertyEntry).Ok?
    ensures forall i :: 0 <= i < |props| ==> TryMap(props, PropertyEntry).value[i].0 == props[i].0
    ensures forall i :: 0 <= i < |props| ==> TryMap(props, PropertyEntry).value[i].1 == PropertyCorrector(props[i].1).value
  {
    var es := TryMap(props, PropertyEntry).value;
    forall i | 0 <= i < |props|
      ensures es[i].0 == props[i].0 && es[i].1 == PropertyCorrector(props[i].1).value
    {
      assert PropertyEntry(props[i]) == Ok(es[i]);
    }
  }

  /** With distinct keys, spreading the corrected entries into one
      object merges nothing. */
  lemma CorrectPropertiesFresh(props: IndexMap<string, Node>)
    requires UniqueKeys(props) && CorrectProperties(props).Ok?
    ensures CorrectProperties(props).value == TryMap(props, PropertyEntry).value
  {
    PropertyEntries(props);
    InsertAllFresh([], TryMap(props, PropertyEntry).value);
  }

  /** The corrected properties have exactly the input's keys, in order,
      each holding its corrected property. */
  lemma CorrectPropertiesKeys(props: IndexMap<string, Node>)
    requires UniqueKeys(props) && CorrectProperties(props).Ok?
    ensures Keys(CorrectProperties(props).value) == Keys(props)
    ensures forall i :: 0 <= i < |props| ==> CorrectProperties(props).value[i].1 == PropertyCorrector(props[i].1).value
  {
    var es := TryMap(props, PropertyEntry).value;
    PropertyEntries(props);
    CorrectPropertiesFresh(props);
    assert Keys(es) == Keys(props);
  }

  // Correcting a corrected definition again.

  /** A string keeps its correction exactly when it carries no `example`:
      the `examples` made from one are dropped by a second pass. */
  lemma StringCorrectorIdempotent(v: Node)
    ensures StringCorrector(StringCorrector(v)) == StringCorrector(v) <==> v.example.None?
  {
    OptDescriptionIdempotent(v.description);
  }

  lemma ItemsCorrectorIdempotent(items: Node)
    ensures ItemsCorrector(ItemsCorrector(items)) == ItemsCorrector(items)
  {
    if items.ref.Some? {
      RefStringIdempotent(items.ref.value);
    }
  }

  lemma ArrayCorrectorIdempotent(v: Node)
    requires ArrayCorrector(v).Ok?
    ensures ArrayCorrector(ArrayCorrector(v).value) == ArrayCorrector(v)
  {
    OptDescriptionIdempotent(v.description);
    ItemsCorrectorIdempotent(v.items.value);
  }

  lemma DeepObjectCorrectorIdempotent(v: Node)
    requires DeepObjectCorrector(v).Ok?
    ensures DeepObjectCorrector(DeepObjectCorrector(v).value) == DeepObjectCorrector(v)
  {
    if v.additionalProperties.None? {
      DeepObjectPlainIdempotent(v);
    } else if v.additionalProperties.value.nodeType == Some("string") {
      DeepObjectOfStringsIdempotent(v);
    } else {
      DeepObjectOfArraysIdempotent(v);
    }
  }

  lemma DeepObjectPlainIdempotent(v: Node)
    requires DeepObjectCorrector(v).Ok? && v.additionalProperties.None?
    ensures DeepObjectCorrector(DeepObjectCorrector(v).value) == DeepObjectCorrector(v)
  {
    OptDescriptionIdempotent(v.description);
  }

  lemma DeepObjectOfStringsIdempotent(v: Node)
    requires DeepObjectCorrector(v).Ok? && v.additionalProperties.Some? && v.additionalProperties.value.nodeType == Some("string")
    ensures DeepObjectCorrector(DeepObjectCorrector(v).value) == DeepObjectCorrector(v)
  {
    OptDescriptionIdempotent(v.description);
  }

  lemma DeepObjectOfArraysIdempotent(v: Node)
    requires DeepObjectCorrector(v).Ok? && v.additionalProperties.Some? && v.additionalProperties.value.nodeType != Some("string")
    ensures DeepObjectCorrector(DeepObjectCorrector(v).value) == DeepObjectCorrector(v)
  {
    OptDescriptionIdempotent(v.description);
    ArrayCorrectorIdempotent(v.additionalProperties.value);
  }

  lemma RefCorrectorIdempotent(v: Node)
    requires v.ref.Some?
    ensures RefCorrector(RefCorrector(v)) == RefCorrector(v)
  {
    OptDescriptionIdempotent(v.description);
    RefStringIdempotent(v.ref.value);
  }

  lemma EnumCorrectorIdempotent(v: Node)
    requires v.enumValues.Some?
    ensures EnumCorrector(EnumCorrector(v)) == EnumCorrector(v)
  {
    OptDescriptionIdempotent(v.description);
  }

  lemma BooleanCorrectorIdempotent(v: Node)
    ensures BooleanCorrector(BooleanCorrector(v)) == BooleanCorrector(v)
  {
    OptDescriptionIdempotent(v.description);
  }

  lemma IntegerCorrectorIdempotent(v: Node)
    ensures IntegerCorrector(IntegerCorrector(v)) == IntegerCorrector(v)
  {
    OptDescriptionIdempotent(v.description);
  }

  lemma NumberCorrectorIdempotent(v: Node)
    ensures NumberCorrector(NumberCorrector(v)) == NumberCorrector(v)
  {
    OptDescriptionIdempotent(v.description);
  }

  /** A corrected property without an `example` corrects to itself. */
  lemma PropertyCorrectorIdempotent(v: Node)
    requires PropertyCorrector(v).Ok? && v.example.None?
    ensures PropertyCorrector(PropertyCorrector(v).value) == PropertyCorrector(v)
  {
    if v.ref.Some? {
      RefCorrectorIdempotent(v);
    } else if v.enumValues.Some? {
      EnumCorrectorIdempotent(v);
    } else if v.nodeType == Some("boolean") {
      BooleanCorrectorIdempotent(v);
    } else if v.nodeType == Some("integer") {
      IntegerCorrectorIdempotent(v);
    } else if v.nodeType == Some("number") {
      NumberCorrectorIdempotent(v);
    } else if v.nodeType == Some("string") {
      StringCorrectorIdempotent(v);
    } else if v.nodeType == Some("array") {
      ArrayCorrectorIdempotent(v);
    } else {
      DeepObjectCorrectorIdempotent(v);
    }
  }

  /** Properties with distinct keys and no `example`. */
  predicate StableProperties(props: IndexMap<string, Node>)
  {
    UniqueKeys(props) && forall i :: 0 <= i < |props| ==> props[i].1.example.None?
  }

  /** Each corrected property entry corrects to itself. */
  lemma PropertyEntriesFixed(props: IndexMap<string, Node>)
    requires StableProperties(props) && CorrectProperties(props).Ok?
    ensures forall i :: 0 <= i < |CorrectProperties(props).value| ==>
              PropertyEntry(CorrectProperties(props).value[i]) == Ok(CorrectProperties(props).value[i])
  {
    var es := CorrectProperties(props).value;
    CorrectPropertiesKeys(props);
    forall i | 0 <= i < |es|
      ensures PropertyEntry(es[i]) == Ok(es[i])
    {
      PropertyCorrectorIdempotent(props[i].1);
    }
  }

  /** Corrected properties keep their keys distinct. */
  lemma CorrectPropertiesUnique(props: IndexMap<string, Node>)
    requires UniqueKeys(props) && CorrectProperties(props).Ok?
    ensures UniqueKeys(CorrectProperties(props).value)
  {
    var es := CorrectProperties(props).value;
    CorrectPropertiesKeys(props);
    assert forall i :: 0 <= i < |es| ==> es[i].0 == Keys(es)[i] == Keys(props)[i] == props[i].0;
  }

  lemma CorrectPropertiesIdempotent(props: IndexMap<string, Node>)
    requires StableProperties(props) && CorrectProperties(props).Ok?
    ensures CorrectProperties(CorrectProperties(props).value) == CorrectProperties(props)
  {
    var es := CorrectProperties(props).value;
    PropertyEntriesFixed(props);
    TryMapFixed(es, PropertyEntry);
    CorrectPropertiesUnique(props);
    InsertAllFresh([], es);
    assert [] + es == es;
    assert CorrectProperties(es) == Ok(InsertAll([], es));
  }

  lemma ObjectCorrectorIdempotent(v: Node)
    requires ObjectCorrector(v).Ok?
    requires v.properties.Some? ==> StableProperties(v.properties.value)
    ensures ObjectCorrector(ObjectCorrector(v).value) == ObjectCorrector(v)
  {
    OptDescriptionIdempotent(v.description);
    if v.properties.Some? {
      CorrectPropertiesIdempotent(v.properties.value);
    }
  }

  /** A definition whose objects have distinct property keys and no
      property with an `example`. */
  predicate Stable(v: Node)
  {
    && (v.properties.Some? ==> StableProperties(v.properties.value))
    && (v.allOf.Some? ==> forall i :: 0 <= i < |v.allOf.value| ==>
          v.allOf.value[i].properties.Some? ==> StableProperties(v.allOf.value[i].properties.value))
  }

  /** Each corrected `allOf` member corrects to itself. */
  lemma AllOfMembersFixed(v: Node)
    requires v.allOf.Some? && AllOfCorrector(v).Ok? && Stable(v)
    ensures forall i :: 0 <= i < |AllOfCorrector(v).value.allOf.value| ==>
              AllOfMember(AllOfCorrector(v).value.allOf.value[i]) == Ok(AllOfCorrector(v).value.allOf.value[i])
  {
    var ms := AllOfCorrector(v).value.allOf.value;
    forall i | 0 <= i < |ms|
      ensures AllOfMember(ms[i]) == Ok(ms[i])
    {
      var m := v.allOf.value[i];
      if m.ref.Some? {
        RefStringIdempotent(m.ref.value);
      } else {
        ObjectCorrectorIdempotent(m);
      }
    }
  }

  lemma AllOfCorrectorIdempotent(v: Node)
    requires v.allOf.Some? && AllOfCorrector(v).Ok? && Stable(v)
    ensures AllOfCorrector(AllOfCorrector(v).value) == AllOfCorrector(v)
  {
    OptDescriptionIdempotent(v.description);
    var ms := AllOfCorrector(v).value.allOf.value;
    AllOfMembersFixed(v);
    TryMapFixed(ms, AllOfMember);
  }

  /** Normalising a normalised definition changes nothing, as long as no
      property carries an `example`. */
  lemma CorrectIdempotent(v: Node)
    requires Correct(v).Ok? && Stable(v)
    ensures Correct(Correct(v).value) == Correct(v)
  {
    if v.enumValues.Some? {
      OptDescriptionIdempotent(v.description);
    } else if v.allOf.Some? {
      AllOfCorrectorIdempotent(v);
    } else {
      ObjectCorrectorIdempotent(v);
    }
  }

  /** Normalising the normalised definitions again changes nothing, as
      long as no object property carries an `example`. */
  lemma NormalizeIdempotent(d: IndexMap<string, Node>)
    requires UniqueKeys(d) && NormalizeSpec(Some(d)).Ok?
    requires forall i :: 0 <= i < |d| ==> Stable(d[i].1)
    ensures NormalizeSpec(Some(NormalizeSpec(Some(d)).value)) == NormalizeSpec(Some(d))
  {
    var r := NormalizeSpec(Some(d)).value;
    NormalizeKeys(d);
    assert |r| == |d| && forall i :: 0 <= i < |r| ==> r[i].0 == Keys(r)[i] == Keys(d)[i] == d[i].0;
    forall i | 0 <= i < |r|
      ensures Correct(r[i].1).Ok? && r[i] == (r[i].0, Correct(r[i].1).value)
    {
      CorrectIdempotent(d[i].1);
    }
    NormalizeCompletes(r, r);
    InsertAllFresh([], r);
    assert [] + r == r;
  }
}
