/** The shape of a projected schema: its normal form and how large it can grow. */
module SchemaShape {
  import opened Wrappers
  import opened JsonSchema

  // ------------------------------------------------------------- normal form

  /** No `$ref` and no `$defs` in any schema position, at most one non-null branch in any `anyOf`. */
  predicate Normal(schema: Json)
    decreases schema, 0
  {
    && schema.Obj?
    && AllSupported(schema.members)
    && {REF, DEFS} !! Keys(schema.members)
    && MembersNormal(schema.members)
    && ValidateNode(schema.members).Success?
  }

  predicate MembersNormal(members: seq<Member>)
    decreases members
  {
    forall m | m in members :: KeywordNormal(KeywordOf(m.key), m.value)
  }

  predicate KeywordNormal(keyword: Keyword, value: Json)
    decreases value, 1
  {
    match keyword
    case Properties => value.Obj? && forall p | p in value.members :: Normal(p.value)
    case Items => Normal(value)
    case AdditionalProperties => value.Bool? || Normal(value)
    case PropertyNames => value == StringSchema()
    case AnyOf => value.Arr? && value.items != [] && Concrete(value.items) <= 1 && forall b | b in value.items ::
                  Normal(b)
    case Required => value.Arr? && forall x | x in value.items :: x.Str?
    case Enum => value.Arr? && value.items != []
    case _ => true
  }

  lemma {:induction false} ProjectIsNormal(node: Json, defs: Definitions, stack: seq<string>, show: Json -> string)
    requires Project(node, defs, stack, show).Success?
    ensures Normal(Project(node, defs, stack, show).value)
    decreases |Unexpanded(defs, stack)|, node, 0
  {
    var reference := Lookup(node.members, REF);
    if reference.Some? {
      var name := ReferenceName(reference.value).value;
      ExpandingShrinks(defs, stack, name);
      ProjectIsNormal(defs[name], defs, stack + [name], show);
    } else {
      MembersAreNormal(node.members, defs, stack, show);
    }
  }

  lemma {:induction false} MembersAreNormal(members: seq<Member>, defs: Definitions, stack: seq<string>,
      show: Json -> string)
    requires ProjectMembers(members, defs, stack, show).Success?
    ensures MembersNormal(ProjectMembers(members, defs, stack, show).value)
    ensures Keys(ProjectMembers(members, defs, stack, show).value) <= Keys(members) - {DEFS}
    ensures AllSupported(members) ==> AllSupported(ProjectMembers(members, defs, stack, show).value)
    decreases |Unexpanded(defs, stack)|, members
  {
    if members != [] {
      KeysCons(members);
      MembersAreNormal(members[1..], defs, stack, show);
      if !KeywordOf(members[0].key).Defs? {
        KeywordIsNormal(KeywordOf(members[0].key), members[0].value, defs, stack, show);
        var out := ProjectMembers(members, defs, stack, show).value;
        assert out[1..] == ProjectMembers(members[1..], defs, stack, show).value;
        KeysCons(out);
      }
    }
  }

  lemma {:induction false} KeywordIsNormal(keyword: Keyword, value: Json, defs: Definitions, stack: seq<string>,
      show: Json -> string)
    requires ProjectKeyword(keyword, value, defs, stack, show).Success?
    ensures KeywordNormal(keyword, ProjectKeyword(keyword, value, defs, stack, show).value)
    decreases |Unexpanded(defs, stack)|, value, 1
  {
    if keyword.Properties? {
      PropertiesAreNormal(value.members, defs, stack, show);
    } else if keyword.AnyOf? {
      BranchesAreNormal(value.items, defs, stack, show);
    } else if keyword.Items? || (keyword.AdditionalProperties? && !value.Bool?) {
      ProjectIsNormal(value, defs, stack, show);
    }
  }

  lemma {:induction false} PropertiesAreNormal(props: seq<Member>, defs: Definitions, stack: seq<string>,
      show: Json -> string)
    requires ProjectProperties(props, defs, stack, show).Success?
    ensures forall p | p in ProjectProperties(props, defs, stack, show).value :: Normal(p.value)
    decreases |Unexpanded(defs, stack)|, props
  {
    if props != [] {
      ProjectIsNormal(props[0].value, defs, stack, show);
      PropertiesAreNormal(props[1..], defs, stack, show);
    }
  }

  lemma {:induction false} BranchesAreNormal(branches: seq<Json>, defs: Definitions, stack: seq<string>,
      show: Json -> string)
    requires ProjectBranches(branches, defs, stack, show).Success?
    ensures forall b | b in ProjectBranches(branches, defs, stack, show).value :: Normal(b)
    ensures |ProjectBranches(branches, defs, stack, show).value| == |branches|
    decreases |Unexpanded(defs, stack)|, branches
  {
    if branches != [] {
      ProjectIsNormal(branches[0], defs, stack, show);
      BranchesAreNormal(branches[1..], defs, stack, show);
    }
  }

  // A normal schema is left alone, whatever the definitions.

  lemma {:induction false} NormalIsKept(schema: Json, defs: Definitions, stack: seq<string>, show: Json -> string)
    requires Normal(schema)
    ensures Project(schema, defs, stack, show) == Success(schema)
    decreases schema, 0
  {
    NormalMembersKept(schema.members, defs, stack, show);
  }

  lemma {:induction false} NormalMembersKept(members: seq<Member>, defs: Definitions, stack: seq<string>,
      show: Json -> string)
    requires MembersNormal(members) && DEFS !in Keys(members)
    ensures ProjectMembers(members, defs, stack, show) == Success(members)
    decreases members
  {
    if members != [] {
      KeysCons(members);
      var m := members[0];
      assert m in members;
      NormalKeywordKept(KeywordOf(m.key), m.value, defs, stack, show);
      NormalMembersKept(members[1..], defs, stack, show);
      KeptMember(members, defs, stack, show);
    }
  }

  lemma KeptMember(members: seq<Member>, defs: Definitions, stack: seq<string>, show: Json -> string)
    requires members != [] && !KeywordOf(members[0].key).Defs?
    requires ProjectKeyword(KeywordOf(members[0].key), members[0].value, defs, stack, show) == Success(members[0].value)
    requires ProjectMembers(members[1..], defs, stack, show) == Success(members[1..])
    ensures ProjectMembers(members, defs, stack, show) == Success(members)
  {
    assert members == [members[0]] + members[1..];
  }

  lemma {:induction false} NormalKeywordKept(keyword: Keyword, value: Json, defs: Definitions, stack: seq<string>,
      show: Json -> string)
    requires KeywordNormal(keyword, value)
    ensures ProjectKeyword(keyword, value, defs, stack, show) == Success(value)
    decreases value, 1
  {
    if keyword.Properties? {
      NormalPropertiesKept(value.members, defs, stack, show);
    } else if keyword.AnyOf? {
      NormalBranchesKept(value.items, defs, stack, show);
    } else if keyword.Items? || (keyword.AdditionalProperties? && !value.Bool?) {
      NormalIsKept(value, defs, stack, show);
    } else if keyword.PropertyNames? {
      StringSchemaKept(defs, stack, show);
    } else if keyword.Required? {
      assert forall i | 0 <= i < |value.items| :: value.items[i] in value.items;
      assert ShownItems(value.items, show) == value.items;
    }
  }

  lemma StringSchemaKept(defs: Definitions, stack: seq<string>, show: Json -> string)
    ensures Project(StringSchema(), defs, stack, show) == Success(StringSchema())
  {
    var ms := StringSchema().members;
    KeysCons(ms);
    var none := ms[1..];
    assert none == [];
    assert "type"[0] != REF[0] && "type"[0] != "enum"[0];
    assert SupportedKeyword("type") && AllSupported(none);
    assert Lookup(none, REF).None?;
    assert ProjectMembers(none, defs, stack, show) == Success([]);
    assert ms == [ms[0]] + none;
    assert ProjectMembers(ms, defs, stack, show) == Success(ms);
  }

  lemma {:induction false} NormalPropertiesKept(props: seq<Member>, defs: Definitions, stack: seq<string>,
      show: Json -> string)
    requires forall p | p in props :: Normal(p.value)
    ensures ProjectProperties(props, defs, stack, show) == Success(props)
    decreases props
  {
    if props != [] {
      assert props[0] in props;
      NormalIsKept(props[0].value, defs, stack, show);
      NormalPropertiesKept(props[1..], defs, stack, show);
      assert props == [props[0]] + props[1..];
    }
  }

  lemma {:induction false} NormalBranchesKept(branches: seq<Json>, defs: Definitions, stack: seq<string>,
      show: Json -> string)
    requires forall b | b in branches :: Normal(b)
    ensures ProjectBranches(branches, defs, stack, show) == Success(branches)
    decreases branches
  {
    if branches != [] {
      NormalIsKept(branches[0], defs, stack, show);
      NormalBranchesKept(branches[1..], defs, stack, show);
      assert branches == [branches[0]] + branches[1..];
    }
  }

  /** Projecting again changes nothing, whatever definitions and rendering are used the second time. */
  lemma ProjectionIsIdempotent(schema: Json, defs: Definitions, show: Json -> string, defs': Definitions,
      show': Json -> string)
    requires Project(schema, defs, [], show).Success?
    ensures var out := Project(schema, defs, [], show).value;
            Normal(out) && Project(out, defs', [], show') == Success(out)
  {
    ProjectIsNormal(schema, defs, [], show);
    NormalIsKept(Project(schema, defs, [], show).value, defs', [], show');
  }

  /** The normal schemas are exactly the fixed points of the projection without definitions. */
  lemma FixedPointsAreNormal(schema: Json, show: Json -> string)
    ensures Project(schema, map[], [], show) == Success(schema) <==> Normal(schema)
  {
    if Project(schema, map[], [], show).Success? {
      ProjectIsNormal(schema, map[], [], show);
    }
    if Normal(schema) {
      NormalIsKept(schema, map[], [], show);
    }
  }

  // -------------------------------------------------------------------- size

  function Count(json: Json): nat
    ensures Count(json) >= 1
    decreases json, 0
  {
    match json
    case Arr(items) => 1 + CountItems(items)
    case Obj(members) => 1 + CountMembers(members)
    case _ => 1
  }

  function CountItems(items: seq<Json>): nat
    decreases items
  {
    if items == [] then 0 else Count(items[0]) + CountItems(items[1..])
  }

  function CountMembers(members: seq<Member>): nat
    decreases members
  {
    if members == [] then 0 else Count(members[0].value) + CountMembers(members[1..])
  }

  function Power(n: nat, k: nat): nat {
    if k == 0 then 1 else n * Power(n, k - 1)
  }

  lemma {:induction false} PowerPositive(n: nat, k: nat)
    requires n >= 1
    ensures Power(n, k) >= 1
  {
    if k > 0 {
      PowerPositive(n, k - 1);
      AtLeastOnce(n, Power(n, k - 1));
    }
  }

  lemma TimesGrows(a: nat, b: nat, c: nat)
    requires a <= b
    ensures a * c <= b * c
  {
  }

  lemma AddUp(a': nat, a: nat, b': nat, b: nat, total: nat, g: nat)
    requires a' <= a * g && b' <= b * g && total == a + b
    ensures a' + b' <= total * g
  {
    assert (a + b) * g == a * g + b * g;
  }

  lemma AtLeastOnce(a: nat, g: nat)
    requires g >= 1
    ensures a <= a * g
  {
  }

  /** No definition has more than `n` nodes. */
  predicate DefinitionsWithin(defs: Definitions, n: nat) {
    n >= 1 && forall name | name in defs :: Count(defs[name]) <= n
  }

  lemma ObjectGrowth(out: seq<Member>, members: seq<Member>, g: nat)
    requires g >= 1 && CountMembers(out) <= CountMembers(members) * g
    ensures Count(Obj(out)) <= Count(Obj(members)) * g
  {
    AddUp(1, 1, CountMembers(out), CountMembers(members), Count(Obj(members)), g);
  }

  lemma ArrayGrowth(out: seq<Json>, items: seq<Json>, g: nat)
    requires g >= 1 && CountItems(out) <= CountItems(items) * g
    ensures Count(Arr(out)) <= Count(Arr(items)) * g
  {
    AddUp(1, 1, CountItems(out), CountItems(items), Count(Arr(items)), g);
  }

  lemma ConsMembers(m: Member, out: seq<Member>, n: Member, members: seq<Member>, g: nat)
    requires Count(m.value) <= Count(n.value) * g && CountMembers(out) <= CountMembers(members) * g
    ensures CountMembers([m] + out) <= CountMembers([n] + members) * g
  {
    assert CountMembers([m] + out) == Count(m.value) + CountMembers(out) by {
      assert ([m] + out)[1..] == out;
    }
    assert CountMembers([n] + members) == Count(n.value) + CountMembers(members) by {
      assert ([n] + members)[1..] == members;
    }
    AddUp(Count(m.value), Count(n.value), CountMembers(out), CountMembers(members), CountMembers([n] + members), g);
  }

  lemma CountItemsCons(x: Json, items: seq<Json>)
    ensures CountItems([x] + items) == Count(x) + CountItems(items)
  {
    assert ([x] + items)[1..] == items;
  }

  lemma ConsItems(x: Json, out: seq<Json>, y: Json, items: seq<Json>, g: nat)
    requires Count(x) <= Count(y) * g && CountItems(out) <= CountItems(items) * g
    ensures CountItems([x] + out) <= CountItems([y] + items) * g
  {
    CountItemsCons(x, out);
    CountItemsCons(y, items);
    AddUp(Count(x), Count(y), CountItems(out), CountItems(items), CountItems([y] + items), g);
  }

  lemma {:induction false} ProjectGrowth(node: Json, defs: Definitions, stack: seq<string>, show: Json -> string,
      n: nat, k: nat)
    requires DefinitionsWithin(defs, n) && k >= |Unexpanded(defs, stack)|
    requires Project(node, defs, stack, show).Success?
    ensures Count(Project(node, defs, stack, show).value) <= Count(node) * Power(n, k)
    decreases |Unexpanded(defs, stack)|, node, 0
  {
    PowerPositive(n, k);
    if Lookup(node.members, REF).Some? {
      ReferenceGrowth(node.members, defs, stack, show, n, k);
      TimesGrows(1, Count(node), Power(n, k));
    } else {
      MembersGrowth(node.members, defs, stack, show, n, k);
      ObjectGrowth(ProjectMembers(node.members, defs, stack, show).value, node.members, Power(n, k));
    }
  }

  lemma {:induction false} ReferenceGrowth(members: seq<Member>, defs: Definitions, stack: seq<string>,
      show: Json -> string, n: nat, k: nat)
    requires DefinitionsWithin(defs, n) && k >= |Unexpanded(defs, stack)|
    requires Lookup(members, REF).Some? && ResolveReference(members, defs, stack, show).Success?
    ensures Count(ResolveReference(members, defs, stack, show).value) <= Power(n, k)
    decreases |Unexpanded(defs, stack)|, members
  {
    var name := ReferenceName(Lookup(members, REF).value).value;
    ExpandingShrinks(defs, stack, name);
    ProjectGrowth(defs[name], defs, stack + [name], show, n, k - 1);
    TimesGrows(Count(defs[name]), n, Power(n, k - 1));
  }

  lemma {:induction false} MembersGrowth(members: seq<Member>, defs: Definitions, stack: seq<string>,
      show: Json -> string, n: nat, k: nat)
    requires DefinitionsWithin(defs, n) && k >= |Unexpanded(defs, stack)|
    requires ProjectMembers(members, defs, stack, show).Success?
    ensures CountMembers(ProjectMembers(members, defs, stack, show).value) <= CountMembers(members) * Power(n, k)
    decreases |Unexpanded(defs, stack)|, members
  {
    if members != [] {
      var g := Power(n, k);
      MembersGrowth(members[1..], defs, stack, show, n, k);
      var rest := ProjectMembers(members[1..], defs, stack, show).value;
      if KeywordOf(members[0].key).Defs? {
        TimesGrows(CountMembers(members[1..]), CountMembers(members), g);
      } else {
        KeywordGrowth(KeywordOf(members[0].key), members[0].value, defs, stack, show, n, k);
        var head := ProjectKeyword(KeywordOf(members[0].key), members[0].value, defs, stack, show).value;
        ConsMembers(Member(members[0].key, head), rest, members[0], members[1..], g);
        assert members == [members[0]] + members[1..];
      }
    }
  }

  lemma {:induction false} KeywordGrowth(keyword: Keyword, value: Json, defs: Definitions, stack: seq<string>,
      show: Json -> string, n: nat, k: nat)
    requires DefinitionsWithin(defs, n) && k >= |Unexpanded(defs, stack)|
    requires ProjectKeyword(keyword, value, defs, stack, show).Success?
    ensures Count(ProjectKeyword(keyword, value, defs, stack, show).value) <= Count(value) * Power(n, k)
    decreases |Unexpanded(defs, stack)|, value, 1
  {
    var g := Power(n, k);
    PowerPositive(n, k);
    if keyword.Properties? {
      PropertiesGrowth(value.members, defs, stack, show, n, k);
      ObjectGrowth(ProjectProperties(value.members, defs, stack, show).value, value.members, g);
    } else if keyword.AnyOf? {
      BranchesGrowth(value.items, defs, stack, show, n, k);
      ArrayGrowth(ProjectBranches(value.items, defs, stack, show).value, value.items, g);
    } else if keyword.Items? || keyword.PropertyNames? || (keyword.AdditionalProperties? && !value.Bool?) {
      ProjectGrowth(value, defs, stack, show, n, k);
    } else {
      PlainGrowth(keyword, value, defs, stack, show);
      AtLeastOnce(Count(value), g);
    }
  }

  lemma PlainGrowth(keyword: Keyword, value: Json, defs: Definitions, stack: seq<string>, show: Json -> string)
    requires keyword !in {Properties, Items, PropertyNames, AnyOf} && (keyword.AdditionalProperties? ==> value.Bool?)
    requires ProjectKeyword(keyword, value, defs, stack, show).Success?
    ensures Count(ProjectKeyword(keyword, value, defs, stack, show).value) <= Count(value)
  {
    if keyword.Required? {
      ShownItemsGrowth(value.items, show);
    }
  }

  lemma {:induction false} PropertiesGrowth(props: seq<Member>, defs: Definitions, stack: seq<string>,
      show: Json -> string, n: nat, k: nat)
    requires DefinitionsWithin(defs, n) && k >= |Unexpanded(defs, stack)|
    requires ProjectProperties(props, defs, stack, show).Success?
    ensures CountMembers(ProjectProperties(props, defs, stack, show).value) <= CountMembers(props) * Power(n, k)
    decreases |Unexpanded(defs, stack)|, props
  {
    if props != [] {
      ProjectGrowth(props[0].value, defs, stack, show, n, k);
      PropertiesGrowth(props[1..], defs, stack, show, n, k);
      var head := Project(props[0].value, defs, stack, show).value;
      var rest := ProjectProperties(props[1..], defs, stack, show).value;
      ConsMembers(Member(props[0].key, head), rest, props[0], props[1..], Power(n, k));
      assert props == [props[0]] + props[1..];
    }
  }

  lemma {:induction false} BranchesGrowth(branches: seq<Json>, defs: Definitions, stack: seq<string>,
      show: Json -> string, n: nat, k: nat)
    requires DefinitionsWithin(defs, n) && k >= |Unexpanded(defs, stack)|
    requires ProjectBranches(branches, defs, stack, show).Success?
    ensures CountItems(ProjectBranches(branches, defs, stack, show).value) <= CountItems(branches) * Power(n, k)
    decreases |Unexpanded(defs, stack)|, branches
  {
    if branches != [] {
      ProjectGrowth(branches[0], defs, stack, show, n, k);
      BranchesGrowth(branches[1..], defs, stack, show, n, k);
      var head := Project(branches[0], defs, stack, show).value;
      var rest := ProjectBranches(branches[1..], defs, stack, show).value;
      ConsItems(head, rest, branches[0], branches[1..], Power(n, k));
      assert branches == [branches[0]] + branches[1..];
    }
  }

  lemma {:induction false} ShownItemsGrowth(items: seq<Json>, show: Json -> string)
    ensures CountItems(ShownItems(items, show)) <= CountItems(items)
  {
    if items != [] {
      ShownItemsGrowth(items[1..], show);
      assert ShownItems(items, show)[1..] == ShownItems(items[1..], show);
    }
  }

  /** With m definitions and at most n nodes in the root and in each of them, at most n^(m+1) nodes result. */
  lemma ProjectionSize(schema: Json, defs: Definitions, show: Json -> string, n: nat)
    requires DefinitionsWithin(defs, n) && Count(schema) <= n
    requires Project(schema, defs, [], show).Success?
    ensures Count(Project(schema, defs, [], show).value) <= Power(n, |defs| + 1)
  {
    ProjectGrowth(schema, defs, [], show, n, |Unexpanded(defs, [])|);
    assert Unexpanded(defs, []) == defs.Keys;
    TimesGrows(Count(schema), n, Power(n, |defs|));
  }
}
