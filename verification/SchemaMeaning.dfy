/** Inlining references never changes which instances a schema accepts. */
module SchemaMeaning {
  import opened Wrappers
  import opened JsonSchema

  /**
    `family(k)` is a reading of the reference names in which a name at level
    k > 0 means what its definition means at level k - 1. A constant family is
    any fixed point of the definitions, recursive ones included; the family
    that starts from a constant is the unrolling of the references.
   */
  ghost predicate Unrolls(family: nat -> Referent, defs: Definitions, leaf: Leaf, show: Json -> string) {
    forall k: nat, name, v | k > 0 && name in defs ::
      family(k)(name, v) == Accepts(defs[name], v, Reading(leaf, show, family(k - 1)))
  }

  lemma {:induction false} ProjectMeaning(
      node: Json, defs: Definitions, stack: seq<string>, leaf: Leaf, show: Json -> string,
      family: nat -> Referent, k: nat, other: Referent, v: Json)
    requires Unrolls(family, defs, leaf, show)
    requires Project(node, defs, stack, show).Success?
    requires k >= |Unexpanded(defs, stack)|
    ensures Accepts(node, v, Reading(leaf, show, family(k)))
         == Accepts(Project(node, defs, stack, show).value, v, Reading(leaf, show, other))
    decreases |Unexpanded(defs, stack)|, node, 0
  {
    if Lookup(node.members, REF).Some? {
      var name := ReferenceName(Lookup(node.members, REF).value).value;
      ExpandingShrinks(defs, stack, name);
      ReferenceReads(node.members, v, Reading(leaf, show, family(k)));
      DefinitionMeaning(name, defs, stack, leaf, show, family, k, other, v);
    } else {
      var out := ProjectMembers(node.members, defs, stack, show).value;
      assert Project(node, defs, stack, show).value == Obj(out);
      DeclaredNamesKept(node.members, defs, stack, show);
      MembersMeaning(node.members, DeclaredNames(node.members), defs, stack, leaf, show, family, k, other, v);
    }
  }

  lemma {:induction false} DefinitionMeaning(
      name: string, defs: Definitions, stack: seq<string>, leaf: Leaf, show: Json -> string,
      family: nat -> Referent, k: nat, other: Referent, v: Json)
    requires Unrolls(family, defs, leaf, show)
    requires name in defs && name !in stack
    requires Project(defs[name], defs, stack + [name], show).Success?
    requires k >= |Unexpanded(defs, stack)|
    ensures family(k)(name, v) ==
            Accepts(Project(defs[name], defs, stack + [name], show).value, v, Reading(leaf, show, other))
    decreases |Unexpanded(defs, stack + [name])|, defs[name], 1
  {
    Expanded(defs, stack, name, k);
    UnrollsAt(family, defs, leaf, show, k, name, v);
    ProjectMeaning(defs[name], defs, stack + [name], leaf, show, family, k - 1, other, v);
  }

  lemma UnrollsAt(family: nat -> Referent, defs: Definitions, leaf: Leaf, show: Json -> string, k: nat, name: string,
      v: Json)
    requires Unrolls(family, defs, leaf, show) && k > 0 && name in defs
    ensures family(k)(name, v) == Accepts(defs[name], v, Reading(leaf, show, family(k - 1)))
  {
  }

  lemma Expanded(defs: Definitions, stack: seq<string>, name: string, k: nat)
    requires name in defs && name !in stack && k >= |Unexpanded(defs, stack)|
    ensures k > 0 && k - 1 >= |Unexpanded(defs, stack + [name])|
    ensures |Unexpanded(defs, stack + [name])| < |Unexpanded(defs, stack)|
  {
    ExpandingShrinks(defs, stack, name);
  }

  lemma ReferenceReads(members: seq<Member>, v: Json, how: Reading)
    requires |members| == 1 && Lookup(members, REF).Some? && ReferenceName(Lookup(members, REF).value).Some?
    ensures Accepts(Obj(members), v, how) == how.refs(ReferenceName(Lookup(members, REF).value).value, v)
  {
    assert members[1..] == [];
    assert MembersAccept(members, DeclaredNames(members), v, how)
      == (KeywordAccepts(KeywordOf(members[0].key), members[0].value, DeclaredNames(members), v, how) &&
          MembersAccept(members[1..], DeclaredNames(members), v, how));
  }

  lemma {:induction false} MembersMeaning(
      members: seq<Member>, declared: set<string>, defs: Definitions, stack: seq<string>, leaf: Leaf,
      show: Json -> string, family: nat -> Referent, k: nat, other: Referent, v: Json)
    requires Unrolls(family, defs, leaf, show)
    requires ProjectMembers(members, defs, stack, show).Success?
    requires REF !in Keys(members)
    requires k >= |Unexpanded(defs, stack)|
    ensures MembersAccept(members, declared, v, Reading(leaf, show, family(k)))
         == MembersAccept(ProjectMembers(members, defs, stack, show).value, declared, v, Reading(leaf, show, other))
    decreases |Unexpanded(defs, stack)|, members, 1
  {
    if members != [] {
      KeysCons(members);
      if KeywordOf(members[0].key).Defs? {
        MembersMeaning(members[1..], declared, defs, stack, leaf, show, family, k, other, v);
        MembersAcceptCons(members, declared, v, Reading(leaf, show, family(k)));
      } else {
        ProjectedCons(members, defs, stack, show);
        HeadMeaning(members, declared, defs, stack, leaf, show, family, k, other, v);
        MembersMeaning(members[1..], declared, defs, stack, leaf, show, family, k, other, v);
        MembersAcceptCons(members, declared, v, Reading(leaf, show, family(k)));
        MembersAcceptCons(ProjectMembers(members, defs, stack, show).value, declared, v, Reading(leaf, show, other));
      }
    }
  }

  lemma {:induction false} HeadMeaning(
      members: seq<Member>, declared: set<string>, defs: Definitions, stack: seq<string>, leaf: Leaf,
      show: Json -> string, family: nat -> Referent, k: nat, other: Referent, v: Json)
    requires Unrolls(family, defs, leaf, show)
    requires members != [] && KeywordOf(members[0].key) !in {Defs, Ref}
    requires ProjectKeyword(KeywordOf(members[0].key), members[0].value, defs, stack, show).Success?
    requires k >= |Unexpanded(defs, stack)|
    ensures KeywordAccepts(KeywordOf(members[0].key), members[0].value, declared, v, Reading(leaf, show, family(k)))
         == KeywordAccepts(KeywordOf(members[0].key),
                           ProjectKeyword(KeywordOf(members[0].key), members[0].value, defs, stack, show).value,
                           declared, v, Reading(leaf, show, other))
    decreases |Unexpanded(defs, stack)|, members, 0
  {
    var head := members[0];
    KeywordMeaning(KeywordOf(head.key), head.value, declared, defs, stack, leaf, show, family, k, other, v);
  }

  lemma MembersAcceptCons(members: seq<Member>, declared: set<string>, v: Json, how: Reading)
    requires members != []
    ensures MembersAccept(members, declared, v, how) <==>
            KeywordAccepts(KeywordOf(members[0].key), members[0].value, declared, v, how) &&
              MembersAccept(members[1..], declared, v, how)
  {
  }

  /** A projected subschema accepts the same instances, all of them. */
  lemma {:induction false} SubschemaMeaning(
      value: Json, defs: Definitions, stack: seq<string>, leaf: Leaf, show: Json -> string, family: nat -> Referent,
        k: nat, other: Referent)
    requires Unrolls(family, defs, leaf, show)
    requires Project(value, defs, stack, show).Success?
    requires k >= |Unexpanded(defs, stack)|
    ensures forall x :: Accepts(value, x, Reading(leaf, show, family(k)))
                     == Accepts(Project(value, defs, stack, show).value, x, Reading(leaf, show, other))
    decreases |Unexpanded(defs, stack)|, value, 1
  {
    forall x
      ensures Accepts(value, x, Reading(leaf, show, family(k)))
           == Accepts(Project(value, defs, stack, show).value, x, Reading(leaf, show, other))
    {
      ProjectMeaning(value, defs, stack, leaf, show, family, k, other, x);
    }
  }

  lemma {:induction false} KeywordMeaning(
      keyword: Keyword, value: Json, declared: set<string>, defs: Definitions, stack: seq<string>, leaf: Leaf,
      show: Json -> string, family: nat -> Referent, k: nat, other: Referent, v: Json)
    requires Unrolls(family, defs, leaf, show)
    requires ProjectKeyword(keyword, value, defs, stack, show).Success?
    requires !keyword.Ref? && !keyword.Defs?
    requires k >= |Unexpanded(defs, stack)|
    ensures KeywordAccepts(keyword, value, declared, v, Reading(leaf, show, family(k)))
         == KeywordAccepts(keyword, ProjectKeyword(keyword, value, defs, stack, show).value, declared, v,
           Reading(leaf, show, other))
    decreases |Unexpanded(defs, stack)|, value, 3
  {
    match keyword
    case Properties =>
      if v.Obj? {
        PropertiesMeaning(value.members, defs, stack, leaf, show, family, k, other, v.members);
      }
    case AnyOf =>
      BranchesMeaning(value.items, defs, stack, leaf, show, family, k, other, v);
    case AdditionalProperties | PropertyNames | Items =>
      AppliedMeaning(keyword, value, declared, defs, stack, leaf, show, family, k, other, v);
    case Required =>
      RequiredMeaning(value.items, declared, v, Reading(leaf, show, family(k)), Reading(leaf, show, other));
    case _ =>
  }

  lemma {:induction false} AppliedMeaning(
      keyword: Keyword, value: Json, declared: set<string>, defs: Definitions, stack: seq<string>, leaf: Leaf,
      show: Json -> string, family: nat -> Referent, k: nat, other: Referent, v: Json)
    requires Unrolls(family, defs, leaf, show)
    requires AppliesItsValue(keyword) && ProjectKeyword(keyword, value, defs, stack, show).Success?
    requires k >= |Unexpanded(defs, stack)|
    ensures KeywordAccepts(keyword, value, declared, v, Reading(leaf, show, family(k)))
         == KeywordAccepts(keyword, ProjectKeyword(keyword, value, defs, stack, show).value, declared, v,
           Reading(leaf, show, other))
    decreases |Unexpanded(defs, stack)|, value, 2
  {
    if !value.Bool? {
      SubschemaMeaning(value, defs, stack, leaf, show, family, k, other);
    }
    SameSubschema(keyword, value, ProjectKeyword(keyword, value, defs, stack, show).value, declared, v,
                  Reading(leaf, show, family(k)), Reading(leaf, show, other));
  }

  /** The keywords whose value is one schema for parts of the instance. */
  predicate AppliesItsValue(keyword: Keyword) {
    keyword.AdditionalProperties? || keyword.PropertyNames? || keyword.Items?
  }

  lemma SameSubschema(keyword: Keyword, a: Json, b: Json, declared: set<string>, v: Json, how: Reading, plain: Reading)
    requires AppliesItsValue(keyword)
    requires forall x :: Accepts(a, x, how) == Accepts(b, x, plain)
    ensures KeywordAccepts(keyword, a, declared, v, how) == KeywordAccepts(keyword, b, declared, v, plain)
  {
  }

  lemma RequiredMeaning(items: seq<Json>, declared: set<string>, v: Json, how: Reading, plain: Reading)
    requires plain.show == how.show
    ensures KeywordAccepts(Required, Arr(items), declared, v, how)
         == KeywordAccepts(Required, Arr(ShownItems(items, how.show)), declared, v, plain)
  {
    var out := ShownItems(items, how.show);
    if v.Obj? {
      var keys := Keys(v.members);
      assert forall i | 0 <= i < |items| :: items[i] in items && out[i] in out;
      assert (forall x | x in items :: PropertyName(x, how.show) in keys)
        <==> forall i | 0 <= i < |items| :: PropertyName(items[i], how.show) in keys;
      assert (forall x | x in out :: PropertyName(x, how.show) in keys)
        <==> forall i | 0 <= i < |items| :: PropertyName(out[i], how.show) in keys;
    }
  }

  lemma {:induction false} PropertiesMeaning(
      props: seq<Member>, defs: Definitions, stack: seq<string>, leaf: Leaf, show: Json -> string,
      family: nat -> Referent, k: nat, other: Referent, vs: seq<Member>)
    requires Unrolls(family, defs, leaf, show)
    requires ProjectProperties(props, defs, stack, show).Success?
    requires k >= |Unexpanded(defs, stack)|
    ensures PropertiesAccept(props, vs, Reading(leaf, show, family(k)))
         == PropertiesAccept(ProjectProperties(props, defs, stack, show).value, vs, Reading(leaf, show, other))
    decreases |Unexpanded(defs, stack)|, props
  {
    if props != [] {
      var out := ProjectProperties(props, defs, stack, show).value;
      assert out[1..] == ProjectProperties(props[1..], defs, stack, show).value;
      var found := Lookup(vs, props[0].key);
      if found.Some? {
        ProjectMeaning(props[0].value, defs, stack, leaf, show, family, k, other, found.value);
      }
      PropertiesMeaning(props[1..], defs, stack, leaf, show, family, k, other, vs);
    }
  }

  lemma {:induction false} BranchesMeaning(
      branches: seq<Json>, defs: Definitions, stack: seq<string>, leaf: Leaf, show: Json -> string,
      family: nat -> Referent, k: nat, other: Referent, v: Json)
    requires Unrolls(family, defs, leaf, show)
    requires ProjectBranches(branches, defs, stack, show).Success?
    requires k >= |Unexpanded(defs, stack)|
    ensures SomeBranchAccepts(branches, v, Reading(leaf, show, family(k)))
         == SomeBranchAccepts(ProjectBranches(branches, defs, stack, show).value, v, Reading(leaf, show, other))
    decreases |Unexpanded(defs, stack)|, branches
  {
    if branches != [] {
      var out := ProjectBranches(branches, defs, stack, show).value;
      assert out[1..] == ProjectBranches(branches[1..], defs, stack, show).value;
      ProjectMeaning(branches[0], defs, stack, leaf, show, family, k, other, v);
      BranchesMeaning(branches[1..], defs, stack, leaf, show, family, k, other, v);
    }
  }

  lemma {:induction false} DeclaredNamesKept(members: seq<Member>, defs: Definitions, stack: seq<string>,
      show: Json -> string)
    requires ProjectMembers(members, defs, stack, show).Success?
    ensures DeclaredNames(ProjectMembers(members, defs, stack, show).value) == DeclaredNames(members)
  {
    if members != [] {
      DeclaredNamesKept(members[1..], defs, stack, show);
      if !KeywordOf(members[0].key).Defs? {
        var out := ProjectMembers(members, defs, stack, show).value;
        assert out[1..] == ProjectMembers(members[1..], defs, stack, show).value;
        if members[0].key == "properties" {
          PropertyKeysKept(members[0].value.members, defs, stack, show);
        }
      }
    }
  }

  lemma {:induction false} PropertyKeysKept(props: seq<Member>, defs: Definitions, stack: seq<string>,
      show: Json -> string)
    requires ProjectProperties(props, defs, stack, show).Success?
    ensures Keys(ProjectProperties(props, defs, stack, show).value) == Keys(props)
  {
    if props != [] {
      PropertyKeysKept(props[1..], defs, stack, show);
      var out := ProjectProperties(props, defs, stack, show).value;
      assert out[1..] == ProjectProperties(props[1..], defs, stack, show).value;
      KeysCons(props);
      KeysCons(out);
    }
  }

  // ------------------------------------------------------------ main results

  /** A reading of every reference name that agrees with its own definitions. */
  ghost predicate IsModel(refs: Referent, defs: Definitions, leaf: Leaf, show: Json -> string) {
    forall name, v | name in defs :: refs(name, v) == Accepts(defs[name], v, Reading(leaf, show, refs))
  }

  /** References read through any model of the definitions mean what their inlined copies mean. */
  lemma ProjectionPreservesMeaning(
      schema: Json, defs: Definitions, leaf: Leaf, show: Json -> string, refs: Referent, other: Referent, v: Json)
    requires Project(schema, defs, [], show).Success?
    requires IsModel(refs, defs, leaf, show)
    ensures Accepts(schema, v, Reading(leaf, show, refs))
       <==> Accepts(Project(schema, defs, [], show).value, v, Reading(leaf, show, other))
  {
    var family := (k: nat) => refs;
    ProjectMeaning(schema, defs, [], leaf, show, family, |Unexpanded(defs, [])|, other, v);
  }

  /** The references unrolled `depth` times; what is deeper is taken to be `bottom`. */
  ghost function Unrolled(defs: Definitions, leaf: Leaf, show: Json -> string, bottom: bool, depth: nat): Referent {
    (name, v) =>
      if depth > 0 && name in defs
      then Accepts(defs[name], v, Reading(leaf, show, Unrolled(defs, leaf, show, bottom, depth - 1)))
      else bottom
  }

  ghost function Unrollings(defs: Definitions, leaf: Leaf, show: Json -> string, bottom: bool): nat -> Referent {
    (k: nat) => Unrolled(defs, leaf, show, bottom, k)
  }

  lemma UnrolledUnrolls(defs: Definitions, leaf: Leaf, show: Json -> string, bottom: bool)
    ensures Unrolls(Unrollings(defs, leaf, show, bottom), defs, leaf, show)
  {
  }

  /** Unrolling as often as there are definitions is enough, whatever is assumed deeper. */
  lemma ProjectionIsTheUnrolling(
      schema: Json, defs: Definitions, leaf: Leaf, show: Json -> string, bottom: bool, depth: nat, other: Referent,
        v: Json)
    requires Project(schema, defs, [], show).Success?
    requires depth >= |defs|
    ensures Accepts(schema, v, Reading(leaf, show, Unrolled(defs, leaf, show, bottom, depth)))
       <==> Accepts(Project(schema, defs, [], show).value, v, Reading(leaf, show, other))
  {
    UnrolledUnrolls(defs, leaf, show, bottom);
    assert Unexpanded(defs, []) == defs.Keys;
    ProjectMeaning(schema, defs, [], leaf, show, Unrollings(defs, leaf, show, bottom), depth, other, v);
  }

  /** The input projection is the projection of the root under its own `$defs`. */
  lemma InputSchemaMeaning(
      schema: Json, leaf: Leaf, show: Json -> string, size: Json -> nat, maxBytes: int, refs: Referent,
        other: Referent, v: Json)
    requires schema.Obj? && ProjectInputSchema(schema, show, size, maxBytes).Success?
    requires IsModel(refs, ReadDefinitions(schema).value, leaf, show)
    ensures Accepts(schema, v, Reading(leaf, show, refs))
       <==> Accepts(ProjectInputSchema(schema, show, size, maxBytes).value, v, Reading(leaf, show, other))
    ensures size(ProjectInputSchema(schema, show, size, maxBytes).value) <= maxBytes
  {
    ProjectionPreservesMeaning(schema, ReadDefinitions(schema).value, leaf, show, refs, other, v);
  }

  /** A wrapped output accepts exactly the objects whose only member is a `result` the return schema accepts. */
  lemma OutputSchemaMeaning(
      schema: Json, leaf: Leaf, show: Json -> string, size: Json -> nat, maxBytes: int, refs: Referent,
        other: Referent, v: Json)
    requires schema.Obj? && ProjectOutputSchema(schema, show, size, maxBytes).Success?
    requires IsModel(refs, ReadDefinitions(schema).value, leaf, show)
    requires leaf("type", Str("object"), v) == v.Obj?
    ensures Accepts(ProjectOutputSchema(schema, show, size, maxBytes).value, v, Reading(leaf, show, other))
       <==> v.Obj? && Keys(v.members) == {RESULT_PROPERTY} &&
            Accepts(schema, Lookup(v.members, RESULT_PROPERTY).value, Reading(leaf, show, refs))
  {
    var defs := ReadDefinitions(schema).value;
    var inner := Project(schema, defs, [], show).value;
    WrapperAccepts(inner, v, Reading(leaf, show, other));
    if v.Obj? && RESULT_PROPERTY in Keys(v.members) {
      ProjectionPreservesMeaning(schema, defs, leaf, show, refs, other, Lookup(v.members, RESULT_PROPERTY).value);
    }
  }

  lemma WrapperAccepts(inner: Json, v: Json, how: Reading)
    requires how.leaf("type", Str("object"), v) == v.Obj?
    ensures Accepts(ResultWrapper(inner), v, how)
       <==> (v.Obj? && Keys(v.members) == {RESULT_PROPERTY} &&
             Accepts(inner, Lookup(v.members, RESULT_PROPERTY).value, how))
  {
    var ms := ResultWrapper(inner).members;
    WrapperOpens(inner, v, how);
    FourKeywords(ms[0], ms[1], ms[2], ms[3], {RESULT_PROPERTY}, v, how);
    WrapperKeywords(inner, v, how);
  }

  lemma WrapperOpens(inner: Json, v: Json, how: Reading)
    ensures var ms := ResultWrapper(inner).members;
            Accepts(ResultWrapper(inner), v, how) ==
              MembersAccept([ms[0], ms[1], ms[2], ms[3]], {RESULT_PROPERTY}, v, how)
  {
    var ms := ResultWrapper(inner).members;
    WrapperDeclares(inner);
    assert ms == [ms[0], ms[1], ms[2], ms[3]];
  }

  lemma WrapperKeywords(inner: Json, v: Json, how: Reading)
    requires how.leaf("type", Str("object"), v) == v.Obj?
    ensures var ms, declared := ResultWrapper(inner).members, {RESULT_PROPERTY};
      (KeywordAccepts(KeywordOf(ms[0].key), ms[0].value, declared, v, how) &&
       KeywordAccepts(KeywordOf(ms[1].key), ms[1].value, declared, v, how) &&
       KeywordAccepts(KeywordOf(ms[2].key), ms[2].value, declared, v, how) &&
       KeywordAccepts(KeywordOf(ms[3].key), ms[3].value, declared, v, how))
      <==> (v.Obj? && Keys(v.members) == {RESULT_PROPERTY} &&
            Accepts(inner, Lookup(v.members, RESULT_PROPERTY).value, how))
  {
    if v.Obj? {
      ClosedAccepts({RESULT_PROPERTY}, v, how);
      RequiredAccepts(v, how);
      OnePropertyAccepts(inner, v, how);
    }
  }

  lemma WrapperDeclares(inner: Json)
    ensures DeclaredNames(ResultWrapper(inner).members) == {RESULT_PROPERTY}
  {
    var ms := ResultWrapper(inner).members;
    assert Lookup(ms, "properties") == Lookup(ms[1..], "properties");
    KeysCons([Member(RESULT_PROPERTY, inner)]);
  }

  lemma FourKeywords(a: Member, b: Member, c: Member, d: Member, declared: set<string>, v: Json, how: Reading)
    ensures MembersAccept([a, b, c, d], declared, v, how)
         == (KeywordAccepts(KeywordOf(a.key), a.value, declared, v, how) &&
           KeywordAccepts(KeywordOf(b.key), b.value, declared, v, how) &&
             KeywordAccepts(KeywordOf(c.key), c.value, declared, v, how) &&
               KeywordAccepts(KeywordOf(d.key), d.value, declared, v, how))
  {
    var all := [a, b, c, d];
    assert all[1..] == [b, c, d] && [b, c, d][1..] == [c, d] && [c, d][1..] == [d] && [d][1..] == [];
    assert MembersAccept([d], declared, v, how) == KeywordAccepts(KeywordOf(d.key), d.value, declared, v, how);
    assert MembersAccept([c, d], declared, v, how)
      == (KeywordAccepts(KeywordOf(c.key), c.value, declared, v, how) && MembersAccept([d], declared, v, how));
    assert MembersAccept([b, c, d], declared, v, how)
      == (KeywordAccepts(KeywordOf(b.key), b.value, declared, v, how) && MembersAccept([c, d], declared, v, how));
  }

  lemma ClosedAccepts(declared: set<string>, v: Json, how: Reading)
    requires v.Obj?
    ensures KeywordAccepts(AdditionalProperties, Bool(false), declared, v, how) <==> Keys(v.members) <= declared
  {
    assert KeywordAccepts(AdditionalProperties, Bool(false), declared, v, how)
      <==> forall m | m in v.members :: m.key in declared;
  }

  lemma RequiredAccepts(v: Json, how: Reading)
    requires v.Obj?
    ensures KeywordAccepts(Required, Arr([Str(RESULT_PROPERTY)]), {RESULT_PROPERTY}, v, how)
       <==> RESULT_PROPERTY in Keys(v.members)
  {
    var items := [Str(RESULT_PROPERTY)];
    assert PropertyName(items[0], how.show) == RESULT_PROPERTY;
  }

  lemma OnePropertyAccepts(inner: Json, v: Json, how: Reading)
    requires v.Obj?
    ensures KeywordAccepts(Properties, Obj([Member(RESULT_PROPERTY, inner)]), {RESULT_PROPERTY}, v, how)
       <==> (RESULT_PROPERTY in Keys(v.members) ==> Accepts(inner, Lookup(v.members, RESULT_PROPERTY).value, how))
  {
    var props := [Member(RESULT_PROPERTY, inner)];
    assert props[1..] == [];
    var found := Lookup(v.members, RESULT_PROPERTY);
    assert PropertiesAccept(props, v.members, how)
      == ((found.Some? ==> Accepts(inner, found.value, how)) && PropertiesAccept(props[1..], v.members, how));
  }
}
