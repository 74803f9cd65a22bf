/**
  The projection of capability schemas into the exported JSON Schema subset.

  A JSON object is the list of its members in the order the projection visits
  them (ascending keys), so the first error met is the error reported.
  `show` stands for Python's `str` on a value that is not a string.
 */
module JsonSchema {
  import opened Wrappers

  datatype Json =
    | Null
    | Bool(b: bool)
    | Number(text: string)
    | Str(s: string)
    | Arr(items: seq<Json>)
    | Obj(members: seq<Member>)

  datatype Member = Member(key: string, value: Json)

  type Definitions = map<string, Json>

  datatype Error =
    | NotAnObject
    | UnsupportedKeyword
    | ReferenceWithSiblings
    | ForeignReference
    | UnresolvedReference(name: string)
    | RecursiveReference(name: string)
    | BadProperties
    | NonStringKeys
    | BadAnyOf
    | AmbiguousUnion
    | BadRequired
    | BadEnum
    | MissingType
    | UnsupportedType
    | BadDefinitions
    | NotAnObjectSchema
    | TooLarge

  const REF := "$ref"
  const DEFS := "$defs"
  const REF_PREFIX := "#/$defs/"
  const RESULT_PROPERTY := "result"

  /** The keywords the projection treats specially; `Plain` keywords are copied. */
  datatype Keyword =
    | Ref
    | Defs
    | Properties
    | Items
    | AdditionalProperties
    | PropertyNames
    | AnyOf
    | Required
    | Enum
    | Plain(name: string)

  function KeywordOf(key: string): Keyword {
    if key == REF then Ref
    else if key == DEFS then Defs
    else if key == "properties" then Properties
    else if key == "items" then Items
    else if key == "additionalProperties" then AdditionalProperties
    else if key == "propertyNames" then PropertyNames
    else if key == "anyOf" then AnyOf
    else if key == "required" then Required
    else if key == "enum" then Enum
    else Plain(key)
  }

  predicate SupportedType(name: string) {
    name in {"array", "boolean", "integer", "null", "number", "object", "string"}
  }

  predicate SupportedKeyword(keyword: string) {
    keyword in {
      "$ref", "additionalProperties", "anyOf", "const", "default", "description", "enum",
      "exclusiveMaximum", "exclusiveMinimum", "format", "items", "maxItems", "maxLength",
      "maximum", "minItems", "minLength", "minimum", "multipleOf", "pattern", "properties",
      "propertyNames", "required", "title", "type", "uniqueItems"
    }
  }

  predicate AllSupported(members: seq<Member>) {
    members == [] ||
    ((SupportedKeyword(members[0].key) || members[0].key == DEFS) && AllSupported(members[1..]))
  }

  function StringSchema(): Json {
    Obj([Member("type", Str("string"))])
  }

  function Lookup(members: seq<Member>, key: string): (r: Option<Json>)
    ensures r.Some? <==> key in Keys(members)
    ensures r.Some? ==> Member(key, r.value) in members
  {
    if members == [] then None
    else if members[0].key == key then Some(members[0].value)
    else Lookup(members[1..], key)
  }

  function Keys(members: seq<Member>): set<string> {
    set m | m in members :: m.key
  }

  lemma KeysCons(members: seq<Member>)
    requires members != []
    ensures Keys(members) == {members[0].key} + Keys(members[1..])
  {
    assert forall m :: m in members <==> m == members[0] || m in members[1..];
  }

  function Names(stack: seq<string>): set<string> {
    set n | n in stack
  }

  /** Definitions that are not being expanded: what makes inlining terminate. */
  function Unexpanded(defs: Definitions, stack: seq<string>): set<string> {
    defs.Keys - Names(stack)
  }

  // ---------------------------------------------------------------- projection

  function Project(node: Json, defs: Definitions, stack: seq<string>, show: Json -> string): (r: Result<Json, Error>)
    ensures r.Success? ==> r.value.Obj?
    decreases |Unexpanded(defs, stack)|, node, 0
  {
    if !node.Obj? then Failure(NotAnObject)
    else if !AllSupported(node.members) then Failure(UnsupportedKeyword)
    else if Lookup(node.members, REF).Some? then ResolveReference(node.members, defs, stack, show)
    else
      var projected :- ProjectMembers(node.members, defs, stack, show);
      ValidateNode(projected)
  }

  function ProjectMembers(members: seq<Member>, defs: Definitions, stack: seq<string>, show: Json -> string)
    : Result<seq<Member>, Error>
    decreases |Unexpanded(defs, stack)|, members
  {
    if members == [] then Success([])
    else if KeywordOf(members[0].key).Defs? then ProjectMembers(members[1..], defs, stack, show)
    else
      var value :- ProjectKeyword(KeywordOf(members[0].key), members[0].value, defs, stack, show);
      var rest :- ProjectMembers(members[1..], defs, stack, show);
      Success([Member(members[0].key, value)] + rest)
  }

  lemma ProjectedCons(members: seq<Member>, defs: Definitions, stack: seq<string>, show: Json -> string)
    requires members != [] && !KeywordOf(members[0].key).Defs?
    requires ProjectMembers(members, defs, stack, show).Success?
    ensures ProjectMembers(members[1..], defs, stack, show).Success?
    ensures ProjectKeyword(KeywordOf(members[0].key), members[0].value, defs, stack, show).Success?
    ensures var out := ProjectMembers(members, defs, stack, show).value;
            && out != []
            && out[0] == Member(members[0].key,
                  ProjectKeyword(KeywordOf(members[0].key), members[0].value, defs, stack, show).value)
            && out[1..] == ProjectMembers(members[1..], defs, stack, show).value
  {
  }

  function ProjectKeyword(keyword: Keyword, value: Json, defs: Definitions, stack: seq<string>, show: Json -> string)
    : Result<Json, Error>
    decreases |Unexpanded(defs, stack)|, value, 1
  {
    match keyword
    case Properties =>
      if !value.Obj? then Failure(BadProperties)
      else
        var props :- ProjectProperties(value.members, defs, stack, show);
        Success(Obj(props))
    case Items => Project(value, defs, stack, show)
    case AdditionalProperties => if value.Bool? then Success(value) else Project(value, defs, stack, show)
    case PropertyNames =>
      var projected :- Project(value, defs, stack, show);
      if projected != StringSchema() then Failure(NonStringKeys) else Success(projected)
    case AnyOf =>
      if !value.Arr? || value.items == [] then Failure(BadAnyOf)
      else
        var branches :- ProjectBranches(value.items, defs, stack, show);
        if Concrete(branches) > 1 then Failure(AmbiguousUnion) else Success(Arr(branches))
    case Required => if value.Arr? then Success(Arr(ShownItems(value.items, show))) else Failure(BadRequired)
    case Enum => if value.Arr? && value.items != [] then Success(value) else Failure(BadEnum)
    case _ => Success(value)
  }

  function ProjectProperties(props: seq<Member>, defs: Definitions, stack: seq<string>, show: Json -> string)
    : Result<seq<Member>, Error>
    decreases |Unexpanded(defs, stack)|, props
  {
    if props == [] then Success([])
    else
      var schema :- Project(props[0].value, defs, stack, show);
      var rest :- ProjectProperties(props[1..], defs, stack, show);
      Success([Member(props[0].key, schema)] + rest)
  }

  function ProjectBranches(branches: seq<Json>, defs: Definitions, stack: seq<string>, show: Json -> string)
    : Result<seq<Json>, Error>
    decreases |Unexpanded(defs, stack)|, branches
  {
    if branches == [] then Success([])
    else
      var branch :- Project(branches[0], defs, stack, show);
      var rest :- ProjectBranches(branches[1..], defs, stack, show);
      Success([branch] + rest)
  }

  function ResolveReference(members: seq<Member>, defs: Definitions, stack: seq<string>, show: Json -> string)
    : (r: Result<Json, Error>)
    requires Lookup(members, REF).Some?
    ensures r.Success? ==> r.value.Obj?
    decreases |Unexpanded(defs, stack)|, members
  {
    if |members| != 1 then Failure(ReferenceWithSiblings)
    else
      var target := ReferenceName(Lookup(members, REF).value);
      if target.None? then Failure(ForeignReference)
      else if target.value !in defs then Failure(UnresolvedReference(target.value))
      else if target.value in stack then Failure(RecursiveReference(target.value))
      else
        ExpandingShrinks(defs, stack, target.value);
        Project(defs[target.value], defs, stack + [target.value], show)
  }

  lemma ExpandingShrinks(defs: Definitions, stack: seq<string>, name: string)
    requires name in defs && name !in stack
    ensures |Unexpanded(defs, stack + [name])| + 1 == |Unexpanded(defs, stack)|
  {
    assert Unexpanded(defs, stack + [name]) == Unexpanded(defs, stack) - {name};
  }

  function ReferenceName(reference: Json): Option<string> {
    if reference.Str? && REF_PREFIX <= reference.s then Some(reference.s[|REF_PREFIX|..]) else None
  }

  function Concrete(branches: seq<Json>): nat {
    if branches == [] then 0
    else (if IsNullBranch(branches[0]) then 0 else 1) + Concrete(branches[1..])
  }

  predicate IsNullBranch(branch: Json) {
    branch.Obj? && Lookup(branch.members, "type") == Some(Str("null"))
  }

  function ShownItems(items: seq<Json>, show: Json -> string): (r: seq<Json>)
    ensures |r| == |items|
  {
    seq(|items|, i requires 0 <= i < |items| => Str(PropertyName(items[i], show)))
  }

  function PropertyName(item: Json, show: Json -> string): string {
    if item.Str? then item.s else show(item)
  }

  /** An absent `type` and a null `type` are the same to the check. */
  function ValidateNode(members: seq<Member>): (r: Result<Json, Error>)
    ensures r.Success? ==> r.value == Obj(members)
  {
    var declared := Lookup(members, "type");
    if declared.None? || declared.value == Null then
      if {"anyOf", "enum", "const"} !! Keys(members) then Failure(MissingType) else Success(Obj(members))
    else if declared.value.Str? && SupportedType(declared.value.s) then Success(Obj(members))
    else Failure(UnsupportedType)
  }

  /** The node declares a type, and a supported one. */
  predicate DeclaresSupportedType(members: seq<Member>) {
    match Lookup(members, "type")
    case Some(Str(name)) => SupportedType(name)
    case _ => false
  }

  /** The node leaves its type open and constrains its values by enumeration or alternatives. */
  predicate OpenButConstrained(members: seq<Member>) {
    (Lookup(members, "type") in {None, Some(Null)}) && exists k | k in Keys(members) :: k in {"anyOf", "enum", "const"}
  }

  /** A node passes exactly with a supported type or, with none,
    with its values constrained; the error tells which failed. */
  lemma ValidNodes(members: seq<Member>)
    ensures ValidateNode(members).Success? <==> DeclaresSupportedType(members) || OpenButConstrained(members)
    ensures ValidateNode(members) == Failure(MissingType) <==>
            Lookup(members, "type") in {None, Some(Null)} && !OpenButConstrained(members)
  {
    var open := {"anyOf", "enum", "const"};
    assert open !! Keys(members) <==> !exists k | k in Keys(members) :: k in open;
  }

  function ReadDefinitions(schema: Json): Result<Definitions, Error>
    requires schema.Obj?
  {
    var block := Lookup(schema.members, DEFS);
    if block.None? then Success(map[])
    else if !block.value.Obj? || exists m | m in block.value.members :: !m.value.Obj? then Failure(BadDefinitions)
    else Success(map k | k in Keys(block.value.members) :: Lookup(block.value.members, k).value)
  }

  /** `size` is the encoded length of the canonical JSON text. */
  function ProjectInputSchema(schema: Json, show: Json -> string, size: Json -> nat, maxBytes: int): Result<Json, Error>
    requires schema.Obj?
  {
    var defs :- ReadDefinitions(schema);
    var projected :- Project(schema, defs, [], show);
    if Lookup(projected.members, "type") != Some(Str("object")) then Failure(NotAnObjectSchema)
    else if size(projected) > maxBytes then Failure(TooLarge)
    else Success(projected)
  }

  function ProjectOutputSchema(schema: Json, show: Json -> string, size: Json -> nat,
      maxBytes: int): Result<Json, Error>
    requires schema.Obj?
  {
    var defs :- ReadDefinitions(schema);
    var result :- Project(schema, defs, [], show);
    var wrapped := ResultWrapper(result);
    if size(wrapped) > maxBytes then Failure(TooLarge) else Success(wrapped)
  }

  function ResultWrapper(result: Json): Json {
    Obj([
      Member("additionalProperties", Bool(false)),
      Member("properties", Obj([Member(RESULT_PROPERTY, result)])),
      Member("required", Arr([Str(RESULT_PROPERTY)])),
      Member("type", Str("object"))
    ])
  }

  // ---------------------------------------------------------------- validation

  /** What a non-applicator keyword (`type`, `pattern`, `minimum`, ...) says of an instance: left uninterpreted. */
  type Leaf = (string, Json, Json) -> bool

  /** Whether the definition of that name accepts an instance. */
  type Referent = (string, Json) -> bool

  /** How schemas are read: a leaf meaning, a rendering of names, a meaning of references. */
  datatype Reading = Reading(leaf: Leaf, show: Json -> string, refs: Referent)

  /**
    Validation by JSON Schema Core 2020-12 restricted to the exported keywords:
    boolean schemas (section 4.3.2), `$ref` (8.2.3.1), `$defs` (8.2.4), `anyOf`
    (10.2.1.2), `items` (10.3.1.2), `properties`, `additionalProperties` and
    `propertyNames` (10.3.2).
   */
  ghost predicate Accepts(schema: Json, v: Json, how: Reading)
    decreases schema, 0
  {
    match schema
    case Bool(b) => b
    case Obj(members) => MembersAccept(members, DeclaredNames(members), v, how)
    case _ => false
  }

  ghost predicate MembersAccept(members: seq<Member>, declared: set<string>, v: Json, how: Reading)
    decreases members
  {
    members == [] ||
    (KeywordAccepts(KeywordOf(members[0].key), members[0].value, declared, v, how) &&
     MembersAccept(members[1..], declared, v, how))
  }

  ghost predicate KeywordAccepts(keyword: Keyword, value: Json, declared: set<string>, v: Json, how: Reading)
    decreases value, 1
  {
    match keyword
    case Defs => true
    case Ref => var target := ReferenceName(value); target.Some? && how.refs(target.value, v)
    case Properties => v.Obj? ==> value.Obj? && PropertiesAccept(value.members, v.members, how)
    case AdditionalProperties => v.Obj? ==>
      forall m | m in v.members :: m.key in declared || Accepts(value, m.value, how)
    case PropertyNames => v.Obj? ==> forall m | m in v.members :: Accepts(value, Str(m.key), how)
    case Items => v.Arr? ==> forall x | x in v.items :: Accepts(value, x, how)
    case AnyOf => value.Arr? && SomeBranchAccepts(value.items, v, how)
    case Required => v.Obj? ==>
                     value.Arr? && forall x | x in value.items :: PropertyName(x, how.show) in Keys(v.members)
    case Enum => how.leaf("enum", value, v)
    case Plain(name) => how.leaf(name, value, v)
  }

  ghost predicate PropertiesAccept(props: seq<Member>, vs: seq<Member>, how: Reading)
    decreases props
  {
    props == [] ||
    ((var found := Lookup(vs, props[0].key); found.Some? ==> Accepts(props[0].value, found.value, how)) &&
     PropertiesAccept(props[1..], vs, how))
  }

  ghost predicate SomeBranchAccepts(branches: seq<Json>, v: Json, how: Reading)
    decreases branches
  {
    branches != [] && (Accepts(branches[0], v, how) || SomeBranchAccepts(branches[1..], v, how))
  }

  /** The property names `additionalProperties` leaves alone. */
  function DeclaredNames(members: seq<Member>): set<string> {
    var props := Lookup(members, "properties");
    if props.Some? && props.value.Obj? then Keys(props.value.members) else {}
  }
}
