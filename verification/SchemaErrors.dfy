/** When the projection succeeds, and what is wrong with a schema it rejects. */
module SchemaErrors {
  import opened Wrappers
  import opened JsonSchema
  import opened SchemaReferences

  // ------------------------------------------------------- what can be wrong with a node

  /** The node and every node in a schema position below it; references are not followed. */
  function Positions(node: Json): set<Json>
    decreases node, 0
  {
    {node} +
    (if !Unreferring(node) then {} else set m, p | m in node.members && p in Below(m.key, m.value) :: p)
  }

  function Below(key: string, value: Json): set<Json>
    decreases value, 1
  {
    if key == "properties" && value.Obj? then set p, q | p in value.members && q in Positions(p.value) :: q
    else if key == "anyOf" && value.Arr? then set b, q | b in value.items && q in Positions(b) :: q
    else if key == "items" || key == "propertyNames" || (key == "additionalProperties" && !value.Bool?)
    then Positions(value)
    else {}
  }

  predicate Referring(node: Json) {
    node.Obj? && REF in Keys(node.members)
  }

  predicate Unreferring(node: Json) {
    node.Obj? && REF !in Keys(node.members)
  }

  /** Following the references of the chain, one definition after the other, leads from `node` to `end`. */
  predicate LeadsTo(node: Json, chain: seq<string>, end: Json, defs: Definitions): (r: bool)
    ensures r ==> Unreferring(end)
    decreases chain
  {
    if chain == [] then node == end && Unreferring(end)
    else
      && Referring(node) && ReferenceName(Lookup(node.members, REF).value) == Some(chain[0])
      && chain[0] in defs && LeadsTo(defs[chain[0]], chain[1..], end, defs)
  }

  /** The schema, or the definition its references lead to, has this `type`. */
  ghost predicate Declares(node: Json, declared: Option<Json>, defs: Definitions) {
    exists chain, end :: LeadsTo(node, chain, end, defs) && Lookup(end.members, "type") == declared
  }

  function WithoutDefs(members: seq<Member>): seq<Member> {
    if members == [] then []
    else (if members[0].key == DEFS then [] else [members[0]]) + WithoutDefs(members[1..])
  }

  /** The same for being the plain string schema. */
  ghost predicate IsStringSchema(node: Json, defs: Definitions) {
    exists chain, end :: LeadsTo(node, chain, end, defs) && WithoutDefs(end.members) == [Member("type", Str("string"))]
  }

  /** What is wrong with the value of a keyword itself. */
  ghost predicate MemberFlaw(key: string, value: Json, e: Error, defs: Definitions) {
    match e
    case BadProperties => key == "properties" && !value.Obj?
    case NonStringKeys => key == "propertyNames" && !IsStringSchema(value, defs)
    case BadAnyOf => key == "anyOf" && (!value.Arr? || value.items == [])
    case AmbiguousUnion => key == "anyOf" && value.Arr? && TwoConcrete(value.items, defs)
    case BadRequired => key == "required" && !value.Arr?
    case BadEnum => key == "enum" && (!value.Arr? || value.items == [])
    case _ => false
  }

  ghost predicate TwoConcrete(branches: seq<Json>, defs: Definitions) {
    exists i, j :: 0 <= i < j < |branches| &&
      !Declares(branches[i], Some(Str("null")), defs) && !Declares(branches[j], Some(Str("null")), defs)
  }

  /** No type, and nothing that stands in for one. */
  predicate Untyped(members: seq<Member>) {
    && Lookup(members, "type") in {None, Some(Null)}
    && "anyOf" !in Keys(members) && "enum" !in Keys(members) && "const" !in Keys(members)
  }

  predicate WronglyTyped(members: seq<Member>) {
    match Lookup(members, "type")
    case Some(Str(name)) => name !in {"array", "boolean", "integer", "null", "number", "object", "string"}
    case Some(Null) => false
    case Some(_) => true
    case None => false
  }

  /** The node itself, and no other, is at fault for the error. */
  ghost predicate Flaw(node: Json, e: Error, defs: Definitions) {
    match e
    case NotAnObject => !node.Obj?
    case UnsupportedKeyword => node.Obj? && exists k | k in Keys(node.members) :: !SupportedKeyword(k) && k != DEFS
    case ReferenceWithSiblings => Referring(node) && |node.members| != 1
    case ForeignReference => Referring(node) && ReferenceName(Lookup(node.members, REF).value).None?
    case UnresolvedReference(n) =>
      Referring(node) && ReferenceName(Lookup(node.members, REF).value) == Some(n) && n !in defs
    case MissingType => Unreferring(node) && Untyped(node.members)
    case UnsupportedType => Unreferring(node) && WronglyTyped(node.members)
    case _ => Unreferring(node) && exists m | m in node.members :: MemberFlaw(m.key, m.value, e, defs)
  }

  /** The errors that are the node's own fault. */
  ghost function Faults(node: Json, defs: Definitions): iset<Error> {
    iset e | Flaw(node, e, defs)
  }

  /** The node at the end of a walk: the schema, or the last definition of the walk. */
  function EndOf(walk: seq<string>, schema: Json, defs: Definitions): Json
    requires walk != [] ==> walk[|walk| - 1] in defs
  {
    if walk == [] then schema else defs[walk[|walk| - 1]]
  }

  /** The walk of references leads to a definition, or stays in the schema, with `node` in a schema position. */
  predicate Reached(walk: seq<string>, node: Json, schema: Json, defs: Definitions) {
    && Walk(walk, schema, defs)
    && (walk != [] ==> walk[|walk| - 1] in defs)
    && node in Positions(EndOf(walk, schema, defs))
  }

  ghost predicate Flawless(schema: Json, defs: Definitions) {
    forall walk, node, e | Reached(walk, node, schema, defs) :: !Flaw(node, e, defs)
  }

  ghost predicate Acyclic(schema: Json, defs: Definitions) {
    forall walk :: !ReachesCycle(walk, schema, defs)
  }

  // --------------------------------------------------- what projection keeps of a node

  lemma {:induction false} MembersKept(members: seq<Member>, defs: Definitions, stack: seq<string>,
      show: Json -> string)
    requires ProjectMembers(members, defs, stack, show).Success?
    ensures var out := ProjectMembers(members, defs, stack, show).value;
            && Keys(out) == Keys(members) - {DEFS}
            && Lookup(out, "type") == Lookup(members, "type")
  {
    if members != [] {
      if members[0].key == DEFS {
        MembersKept(members[1..], defs, stack, show);
        KeptSkip(members, ProjectMembers(members, defs, stack, show).value);
      } else {
        ProjectedCons(members, defs, stack, show);
        MembersKept(members[1..], defs, stack, show);
        KeptCons(members, ProjectMembers(members, defs, stack, show).value);
      }
    }
  }

  lemma KeptSkip(members: seq<Member>, out: seq<Member>)
    requires members != [] && members[0].key == DEFS
    requires Keys(out) == Keys(members[1..]) - {DEFS} && Lookup(out, "type") == Lookup(members[1..], "type")
    ensures Keys(out) == Keys(members) - {DEFS} && Lookup(out, "type") == Lookup(members, "type")
  {
    KeysCons(members);
  }

  lemma KeptCons(members: seq<Member>, out: seq<Member>)
    requires members != [] && out != [] && members[0].key != DEFS
    requires out[0].key == members[0].key && (out[0].key == "type" ==> out[0].value == members[0].value)
    requires Keys(out[1..]) == Keys(members[1..]) - {DEFS} && Lookup(out[1..], "type") == Lookup(members[1..], "type")
    ensures Keys(out) == Keys(members) - {DEFS} && Lookup(out, "type") == Lookup(members, "type")
  {
    KeysCons(members);
    KeysCons(out);
  }

  lemma {:induction false} SameShape(members: seq<Member>, defs: Definitions, stack: seq<string>, show: Json -> string)
    requires ProjectMembers(members, defs, stack, show).Success?
    ensures AlikeMembers(ProjectMembers(members, defs, stack, show).value, WithoutDefs(members))
  {
    if members != [] {
      SameShape(members[1..], defs, stack, show);
      WithoutDefsCons(members);
      if members[0].key != DEFS {
        ProjectedCons(members, defs, stack, show);
        AlikeCons(ProjectMembers(members, defs, stack, show).value, WithoutDefs(members));
      }
    }
  }

  lemma WithoutDefsCons(members: seq<Member>)
    requires members != []
    ensures members[0].key == DEFS ==> WithoutDefs(members) == WithoutDefs(members[1..])
    ensures members[0].key != DEFS ==>
              var kept := WithoutDefs(members);
              kept != [] && kept[0] == members[0] && kept[1..] == WithoutDefs(members[1..])
  {
  }

  /** The same keys in the same order, and the same types. */
  predicate AlikeMembers(out: seq<Member>, kept: seq<Member>) {
    && |out| == |kept|
    && forall i | 0 <= i < |out| ::
         out[i].key == kept[i].key && (out[i].key == "type" ==> out[i].value == kept[i].value)
  }

  lemma AlikeCons(out: seq<Member>, kept: seq<Member>)
    requires out != [] && kept != [] && AlikeMembers(out[1..], kept[1..])
    requires out[0].key == kept[0].key && (out[0].key == "type" ==> out[0].value == kept[0].value)
    ensures AlikeMembers(out, kept)
  {
    assert forall i | 0 < i < |out| :: out[i] == out[1..][i - 1] && kept[i] == kept[1..][i - 1];
  }

  lemma ProjectedUnreferring(end: Json, defs: Definitions, stack: seq<string>, show: Json -> string)
    requires Unreferring(end) && Project(end, defs, stack, show).Success?
    ensures ProjectMembers(end.members, defs, stack, show).Success?
    ensures Project(end, defs, stack, show).value == Obj(ProjectMembers(end.members, defs, stack, show).value)
  {
  }

  /** A chain leads to a definition with the same projection. */
  lemma {:induction false} LeadsToProjects(node: Json, chain: seq<string>, end: Json, defs: Definitions,
      stack: seq<string>, show: Json -> string)
    requires LeadsTo(node, chain, end, defs) && Project(node, defs, stack, show).Success?
    ensures Project(end, defs, stack + chain, show) == Project(node, defs, stack, show)
    decreases chain
  {
    if chain == [] {
      assert stack + chain == stack;
    } else {
      assert stack + chain == stack + [chain[0]] + chain[1..];
      LeadsToProjects(defs[chain[0]], chain[1..], end, defs, stack + [chain[0]], show);
    }
  }

  /** A projected schema leads somewhere. */
  lemma {:induction false} Resolve(node: Json, defs: Definitions, stack: seq<string>, show: Json -> string)
    returns (chain: seq<string>, end: Json)
    requires Project(node, defs, stack, show).Success?
    ensures LeadsTo(node, chain, end, defs)
    decreases |Unexpanded(defs, stack)|
  {
    if Unreferring(node) {
      chain, end := [], node;
    } else {
      var name := ReferenceName(Lookup(node.members, REF).value).value;
      ExpandingShrinks(defs, stack, name);
      var rest, last := Resolve(defs[name], defs, stack + [name], show);
      chain, end := [name] + rest, last;
      assert chain[1..] == rest;
    }
  }

  lemma DeclaresExactly(node: Json, declared: Option<Json>, defs: Definitions, stack: seq<string>, show: Json -> string)
    requires Project(node, defs, stack, show).Success?
    ensures Declares(node, declared, defs) <==>
            Lookup(Project(node, defs, stack, show).value.members, "type") == declared
  {
    forall chain, end | LeadsTo(node, chain, end, defs)
      ensures Lookup(Project(node, defs, stack, show).value.members, "type") == Lookup(end.members, "type")
    {
      LeadsToProjects(node, chain, end, defs, stack, show);
      ProjectedUnreferring(end, defs, stack + chain, show);
      MembersKept(end.members, defs, stack + chain, show);
    }
    var chain, end := Resolve(node, defs, stack, show);
  }

  lemma StringExactly(node: Json, defs: Definitions, stack: seq<string>, show: Json -> string)
    requires Project(node, defs, stack, show).Success?
    ensures IsStringSchema(node, defs) <==> Project(node, defs, stack, show).value == StringSchema()
  {
    forall chain, end | LeadsTo(node, chain, end, defs)
      ensures WithoutDefs(end.members) == [Member("type", Str("string"))] <==>
              Project(node, defs, stack, show).value == StringSchema()
    {
      LeadsToProjects(node, chain, end, defs, stack, show);
      ProjectedUnreferring(end, defs, stack + chain, show);
      SameShape(end.members, defs, stack + chain, show);
      var out, kept := ProjectMembers(end.members, defs, stack + chain, show).value, WithoutDefs(end.members);
      var only := Member("type", Str("string"));
      if kept == [only] {
        assert out == [only];
      }
      if out == [only] {
        assert kept[0] == only;
        assert kept == [only];
      }
    }
    var chain, end := Resolve(node, defs, stack, show);
  }

  /** The branches of a projected `anyOf` that are not null are those that do not declare null. */
  lemma {:induction false} ConcreteExactly(branches: seq<Json>, defs: Definitions, stack: seq<string>,
      show: Json -> string)
    requires ProjectBranches(branches, defs, stack, show).Success?
    ensures var out := ProjectBranches(branches, defs, stack, show).value;
            && |out| == |branches|
            && forall i | 0 <= i < |out| :: IsNullBranch(out[i]) <==> Declares(branches[i], Some(Str("null")), defs)
    decreases branches
  {
    if branches != [] {
      ConcreteExactly(branches[1..], defs, stack, show);
      DeclaresExactly(branches[0], Some(Str("null")), defs, stack, show);
      var out := ProjectBranches(branches, defs, stack, show).value;
      assert out[1..] == ProjectBranches(branches[1..], defs, stack, show).value;
      forall i | 0 <= i < |out|
        ensures IsNullBranch(out[i]) <==> Declares(branches[i], Some(Str("null")), defs)
      {
        if i > 0 {
          assert out[i] == out[1..][i - 1] && branches[i] == branches[1..][i - 1];
        }
      }
    }
  }

  lemma {:induction false} NoConcrete(branches: seq<Json>)
    ensures Concrete(branches) > 0 <==> exists i :: 0 <= i < |branches| && !IsNullBranch(branches[i])
  {
    if branches != [] {
      NoConcrete(branches[1..]);
      assert forall i | 0 < i < |branches| :: branches[i] == branches[1..][i - 1];
      assert forall i | 0 <= i < |branches[1..]| :: branches[1..][i] == branches[i + 1];
    }
  }

  lemma {:induction false} ManyConcrete(branches: seq<Json>)
    ensures Concrete(branches) > 1 <==>
            exists i, j :: 0 <= i < j < |branches| && !IsNullBranch(branches[i]) && !IsNullBranch(branches[j])
  {
    if branches != [] {
      var rest := branches[1..];
      ManyConcrete(rest);
      NoConcrete(rest);
      assert forall i | 0 < i < |branches| :: branches[i] == rest[i - 1];
      assert forall i | 0 <= i < |rest| :: rest[i] == branches[i + 1];
      if Concrete(branches) > 1 && Concrete(rest) > 1 {
        var i, j :| 0 <= i < j < |rest| && !IsNullBranch(rest[i]) && !IsNullBranch(rest[j]);
        assert !IsNullBranch(branches[i + 1]) && !IsNullBranch(branches[j + 1]);
      } else if Concrete(branches) > 1 {
        var j :| 0 <= j < |rest| && !IsNullBranch(rest[j]);
        assert !IsNullBranch(branches[0]) && !IsNullBranch(branches[j + 1]);
      }
    }
  }

  lemma UnionExactly(branches: seq<Json>, defs: Definitions, stack: seq<string>, show: Json -> string)
    requires ProjectBranches(branches, defs, stack, show).Success?
    ensures Concrete(ProjectBranches(branches, defs, stack, show).value) > 1 <==> TwoConcrete(branches, defs)
  {
    ConcreteExactly(branches, defs, stack, show);
    ManyConcrete(ProjectBranches(branches, defs, stack, show).value);
  }

  // ------------------------------------------------------- success means no flaw

  lemma {:induction false} SupportedExactly(members: seq<Member>)
    ensures AllSupported(members) <==> forall k | k in Keys(members) :: SupportedKeyword(k) || k == DEFS
  {
    if members != [] {
      KeysCons(members);
      SupportedExactly(members[1..]);
    }
  }

  lemma ProjectedKeywordFlawless(key: string, value: Json, e: Error, defs: Definitions, stack: seq<string>,
      show: Json -> string)
    requires ProjectKeyword(KeywordOf(key), value, defs, stack, show).Success?
    ensures !MemberFlaw(key, value, e, defs)
  {
    if key == "propertyNames" {
      StringExactly(value, defs, stack, show);
    } else if key == "anyOf" {
      UnionExactly(value.items, defs, stack, show);
    }
  }

  lemma MembersFlawless(members: seq<Member>, e: Error, defs: Definitions, stack: seq<string>, show: Json -> string)
    requires ProjectMembers(members, defs, stack, show).Success?
    ensures forall m | m in members :: !MemberFlaw(m.key, m.value, e, defs)
  {
    forall m | m in members
      ensures !MemberFlaw(m.key, m.value, e, defs)
    {
      if m.key != DEFS {
        MemberProjects(members, m, defs, stack, show);
        ProjectedKeywordFlawless(m.key, m.value, e, defs, stack, show);
      }
    }
  }

  /** Whether the type passes is the same before and after the members are projected. */
  lemma TypePasses(members: seq<Member>, defs: Definitions, stack: seq<string>, show: Json -> string)
    requires ProjectMembers(members, defs, stack, show).Success?
    ensures var checked := ValidateNode(ProjectMembers(members, defs, stack, show).value);
            && (checked.Success? || checked.error in {MissingType, UnsupportedType})
            && (checked == Failure(MissingType) <==> Untyped(members))
            && (checked == Failure(UnsupportedType) <==> WronglyTyped(members))
  {
    MembersKept(members, defs, stack, show);
  }

  /** A node that projects has no flaw itself. */
  lemma ProjectedFlawless(node: Json, e: Error, defs: Definitions, stack: seq<string>, show: Json -> string)
    requires Project(node, defs, stack, show).Success?
    ensures !Flaw(node, e, defs)
  {
    SupportedExactly(node.members);
    if Unreferring(node) {
      UnreferringFlawless(node, e, defs, stack, show);
    }
  }

  lemma UnreferringFlawless(node: Json, e: Error, defs: Definitions, stack: seq<string>, show: Json -> string)
    requires Unreferring(node) && Project(node, defs, stack, show).Success?
    ensures !e.NotAnObject? && !e.UnsupportedKeyword? ==> !Flaw(node, e, defs)
  {
    ProjectedUnreferring(node, defs, stack, show);
    TypePasses(node.members, defs, stack, show);
    MembersFlawless(node.members, e, defs, stack, show);
  }

  lemma {:induction false} PositionProjects(node: Json, sub: Json, defs: Definitions, stack: seq<string>,
      show: Json -> string)
    requires Project(node, defs, stack, show).Success? && sub in Positions(node)
    ensures Project(sub, defs, stack, show).Success?
    decreases node, 0
  {
    if sub != node {
      var m :| m in node.members && sub in Below(m.key, m.value);
      assert m.key != DEFS;
      MemberProjects(node.members, m, defs, stack, show);
      BelowProjects(m.key, m.value, sub, defs, stack, show);
    }
  }

  lemma {:induction false} BelowProjects(key: string, value: Json, sub: Json, defs: Definitions, stack: seq<string>,
      show: Json -> string)
    requires ProjectKeyword(KeywordOf(key), value, defs, stack, show).Success? && sub in Below(key, value)
    ensures Project(sub, defs, stack, show).Success?
    decreases value, 1
  {
    if key == "properties" {
      var p :| p in value.members && sub in Positions(p.value);
      PropertyProjects(value.members, p, defs, stack, show);
      PositionProjects(p.value, sub, defs, stack, show);
    } else if key == "anyOf" {
      var b :| b in value.items && sub in Positions(b);
      BranchProjects(value.items, b, defs, stack, show);
      PositionProjects(b, sub, defs, stack, show);
    } else {
      PositionProjects(value, sub, defs, stack, show);
    }
  }

  lemma {:induction false} WalkProjects(walk: seq<string>, node: Json, defs: Definitions, stack: seq<string>,
      show: Json -> string)
    returns (end: seq<string>)
    requires Project(node, defs, stack, show).Success? && Walk(walk, node, defs)
    ensures walk != [] ==> walk[|walk| - 1] in defs
    ensures Project(EndOf(walk, node, defs), defs, end, show).Success?
    decreases walk
  {
    if walk == [] {
      end := stack;
    } else {
      MentionExpanded(node, walk[0], defs, stack, show);
      end := WalkProjects(walk[1..], defs[walk[0]], defs, stack + [walk[0]], show);
      assert |walk| > 1 ==> walk[1..][|walk| - 2] == walk[|walk| - 1];
    }
  }

  lemma SuccessMeansFlawless(schema: Json, defs: Definitions, show: Json -> string)
    requires Project(schema, defs, [], show).Success?
    ensures Flawless(schema, defs)
  {
    forall walk, node, e | Reached(walk, node, schema, defs)
      ensures !Flaw(node, e, defs)
    {
      var stack := WalkProjects(walk, schema, defs, [], show);
      PositionProjects(EndOf(walk, schema, defs), node, defs, stack, show);
      ProjectedFlawless(node, e, defs, stack, show);
    }
  }

  // ------------------------------------------------------- an error means a flaw

  /** Where the error comes from: a walk from the node's own schema positions to the flawed one. */
  lemma {:induction false} Blame(node: Json, e: Error, defs: Definitions, stack: seq<string>, show: Json -> string)
    returns (walk: seq<string>, flawed: Json)
    requires Project(node, defs, stack, show) == Failure(e) && !e.RecursiveReference?
    ensures Reached(walk, flawed, node, defs) && e in Faults(flawed, defs)
    decreases |Unexpanded(defs, stack)|, node, 1
  {
    if OwnFault(node, defs, stack, show) {
      OwnFaultIsFlaw(node, e, defs, stack, show);
      walk, flawed := [], node;
    } else if Referring(node) {
      ReferenceError(node, e, defs, stack, show);
      walk, flawed := BlameTarget(ReferenceName(Lookup(node.members, REF).value).value, node, e, defs, stack, show);
    } else {
      var m := MemberToBlame(node.members, defs, stack, show);
      walk, flawed := BlameMember(node, m, e, defs, stack, show);
    }
  }

  /** The node is rejected although nothing it refers to or holds is. */
  predicate OwnFault(node: Json, defs: Definitions, stack: seq<string>, show: Json -> string) {
    || !node.Obj?
    || !AllSupported(node.members)
    || Unresolvable(node, defs)
    || (Unreferring(node) && ProjectMembers(node.members, defs, stack, show).Success?)
  }

  lemma UnsupportedIsFlaw(node: Json, defs: Definitions)
    requires node.Obj? && !AllSupported(node.members)
    ensures UnsupportedKeyword in Faults(node, defs)
  {
    SupportedExactly(node.members);
  }

  lemma OwnFaultIsFlaw(node: Json, e: Error, defs: Definitions, stack: seq<string>, show: Json -> string)
    requires Project(node, defs, stack, show) == Failure(e) && OwnFault(node, defs, stack, show)
    ensures e in Faults(node, defs)
  {
    if !node.Obj? {
    } else if !AllSupported(node.members) {
      UnsupportedIsFlaw(node, defs);
    } else if Referring(node) {
      ReferenceFlaw(node, e, defs, stack, show);
    } else {
      TypePasses(node.members, defs, stack, show);
    }
  }

  lemma {:induction false} BlameTarget(name: string, node: Json, e: Error, defs: Definitions, stack: seq<string>,
      show: Json -> string)
    returns (walk: seq<string>, flawed: Json)
    requires name in Mentions(node) && name in defs && name !in stack && !e.RecursiveReference?
    requires Project(defs[name], defs, stack + [name], show) == Failure(e)
    ensures Reached(walk, flawed, node, defs) && e in Faults(flawed, defs)
    decreases |Unexpanded(defs, stack)|, node, 0
  {
    ExpandingShrinks(defs, stack, name);
    var rest;
    rest, flawed := Blame(defs[name], e, defs, stack + [name], show);
    walk := [name] + rest;
    LongerReach(name, rest, flawed, node, defs);
  }

  /** A reference that stands for no definition. */
  predicate Unresolvable(node: Json, defs: Definitions) {
    Referring(node) &&
    var target := ReferenceName(Lookup(node.members, REF).value);
    |node.members| != 1 || target.None? || target.value !in defs
  }

  lemma ReferenceFlaw(node: Json, e: Error, defs: Definitions, stack: seq<string>, show: Json -> string)
    requires Project(node, defs, stack, show) == Failure(e) && Unresolvable(node, defs) && AllSupported(node.members)
    ensures e in Faults(node, defs)
  {
  }

  lemma ReferenceError(node: Json, e: Error, defs: Definitions, stack: seq<string>, show: Json -> string)
    requires Project(node, defs, stack, show) == Failure(e) && !e.RecursiveReference?
    requires Referring(node) && !Unresolvable(node, defs) && AllSupported(node.members)
    ensures var name := ReferenceName(Lookup(node.members, REF).value).value;
            name !in stack && Project(defs[name], defs, stack + [name], show) == Failure(e)
    ensures ReferenceName(Lookup(node.members, REF).value).value in Mentions(node)
  {
  }

  lemma LongerReach(name: string, rest: seq<string>, flawed: Json, node: Json, defs: Definitions)
    requires name in Mentions(node) && name in defs && Reached(rest, flawed, defs[name], defs)
    ensures Reached([name] + rest, flawed, node, defs)
  {
    assert ([name] + rest)[1..] == rest;
  }

  lemma {:induction false} BlameMember(node: Json, m: Member, e: Error, defs: Definitions, stack: seq<string>,
      show: Json -> string)
    returns (walk: seq<string>, flawed: Json)
    requires Unreferring(node) && m in node.members && m.key != DEFS && !e.RecursiveReference?
    requires ProjectKeyword(KeywordOf(m.key), m.value, defs, stack, show) == Failure(e)
    ensures Reached(walk, flawed, node, defs) && e in Faults(flawed, defs)
    decreases |Unexpanded(defs, stack)|, node, 0
  {
    if LocalError(m.key, m.value, e, defs, stack, show) {
      LocalIsFlaw(m.key, m.value, e, defs, stack, show);
      walk, flawed := [], node;
    } else {
      var sub := SubschemaToBlame(m.key, m.value, e, defs, stack, show);
      walk, flawed := Blame(sub, e, defs, stack, show);
      SubschemaReaches(node, m, sub, walk, flawed, defs);
    }
  }

  /** The value of the keyword is rejected although every schema in it projects. */
  predicate LocalError(key: string, value: Json, e: Error, defs: Definitions, stack: seq<string>, show: Json -> string)
  {
    match KeywordOf(key)
    case Properties => !value.Obj?
    case PropertyNames => Project(value, defs, stack, show).Success?
    case AnyOf => !value.Arr? || value.items == [] || ProjectBranches(value.items, defs, stack, show).Success?
    case Required => true
    case Enum => true
    case _ => false
  }

  lemma LocalIsFlaw(key: string, value: Json, e: Error, defs: Definitions, stack: seq<string>, show: Json -> string)
    requires ProjectKeyword(KeywordOf(key), value, defs, stack, show) == Failure(e)
    requires LocalError(key, value, e, defs, stack, show)
    ensures MemberFlaw(key, value, e, defs)
  {
    if key == "propertyNames" {
      StringExactly(value, defs, stack, show);
    } else if key == "anyOf" && value.Arr? && value.items != [] {
      UnionExactly(value.items, defs, stack, show);
    }
  }

  /** One of the schemas that the keyword holds. */
  predicate Holds(key: string, value: Json, sub: Json) {
    || (key == "properties" && value.Obj? && exists p | p in value.members :: p.value == sub)
    || (key == "anyOf" && value.Arr? && sub in value.items)
    || ((key == "items" || key == "propertyNames" || (key == "additionalProperties" && !value.Bool?)) && value == sub)
  }

  lemma SubschemaToBlame(key: string, value: Json, e: Error, defs: Definitions, stack: seq<string>,
      show: Json -> string) returns (sub: Json)
    requires ProjectKeyword(KeywordOf(key), value, defs, stack, show) == Failure(e)
    requires !LocalError(key, value, e, defs, stack, show)
    ensures Holds(key, value, sub) && (sub == value || sub < value)
    ensures Project(sub, defs, stack, show) == Failure(e)
  {
    if key == "properties" {
      var p := PropertyToBlame(value.members, defs, stack, show);
      sub := p.value;
    } else if key == "anyOf" {
      sub := BranchToBlame(value.items, defs, stack, show);
    } else {
      sub := value;
    }
  }

  lemma HeldPositions(key: string, value: Json, sub: Json)
    requires Holds(key, value, sub)
    ensures Positions(sub) <= Below(key, value)
    ensures Mentions(sub) <= KeywordMentions(KeywordOf(key), value)
  {
  }

  lemma SubschemaReaches(node: Json, m: Member, sub: Json, walk: seq<string>, flawed: Json, defs: Definitions)
    requires Unreferring(node) && m in node.members && Holds(m.key, m.value, sub)
    requires Reached(walk, flawed, sub, defs)
    ensures Reached(walk, flawed, node, defs)
  {
    HeldPositions(m.key, m.value, sub);
    assert Below(m.key, m.value) <= Positions(node);
    assert KeywordMentions(KeywordOf(m.key), m.value) <= Mentions(node);
  }

  // ------------------------------------------------------------------ main results

  /** Every keyword a position is reached through is in the subset, and those documented as rejected are not. */
  lemma SubsetIs()
    ensures forall k | k in {REF, "type", "properties", "items", "additionalProperties", "propertyNames", "anyOf",
                             "required", "enum", "const"} ::
              SupportedKeyword(k)
    ensures forall k | k in {"allOf", "oneOf", "not", "if", "then", "else", "patternProperties", DEFS} ::
              !SupportedKeyword(k)
  {
  }

  /** Every error but recursion is the fault of a node the schema reaches. */
  lemma ErrorIsReal(schema: Json, e: Error, defs: Definitions, show: Json -> string)
    requires Project(schema, defs, [], show) == Failure(e) && !e.RecursiveReference?
    ensures exists walk, node :: Reached(walk, node, schema, defs) && Flaw(node, e, defs)
  {
    var walk, node := Blame(schema, e, defs, [], show);
  }

  /** The unresolved name is at the end of a walk, and no definition has it. */
  lemma UnresolvedErrorIsReal(schema: Json, n: string, defs: Definitions, show: Json -> string)
    requires Project(schema, defs, [], show) == Failure(UnresolvedReference(n))
    ensures n !in defs && exists walk :: Walk(walk + [n], schema, defs)
  {
    var walk, node := Blame(schema, UnresolvedReference(n), defs, [], show);
    PositionMentions(EndOf(walk, schema, defs), node, n);
    WalkOn(walk, n, schema, defs);
  }

  lemma HolderOf(key: string, value: Json, sub: Json) returns (held: Json)
    requires sub in Below(key, value)
    ensures Holds(key, value, held) && sub in Positions(held) && (held == value || held < value)
  {
    if key == "properties" {
      var p :| p in value.members && sub in Positions(p.value);
      held := p.value;
    } else if key == "anyOf" {
      held :| held in value.items && sub in Positions(held);
    } else {
      held := value;
    }
  }

  lemma {:induction false} PositionMentions(node: Json, sub: Json, n: string)
    requires sub in Positions(node) && n in Mentions(sub)
    ensures n in Mentions(node)
    decreases node
  {
    if sub != node {
      var m :| m in node.members && sub in Below(m.key, m.value);
      var held := HolderOf(m.key, m.value, sub);
      PositionMentions(held, sub, n);
      HeldPositions(m.key, m.value, held);
      assert KeywordMentions(KeywordOf(m.key), m.value) <= Mentions(node);
    }
  }

  lemma {:induction false} WalkOn(walk: seq<string>, n: string, schema: Json, defs: Definitions)
    requires Walk(walk, schema, defs) && (walk != [] ==> walk[|walk| - 1] in defs)
    requires n in Mentions(EndOf(walk, schema, defs))
    ensures Walk(walk + [n], schema, defs)
    decreases walk
  {
    if walk != [] {
      assert (walk + [n])[1..] == walk[1..] + [n];
      WalkOn(walk[1..], n, defs[walk[0]], defs);
    }
  }

  /**
    A schema projects exactly when no node it reaches, in a schema position of its own or of a
    definition at the end of a walk of references, has a flaw, and no walk returns to a name.
   */
  lemma ProjectsExactly(schema: Json, defs: Definitions, show: Json -> string)
    ensures Project(schema, defs, [], show).Success? <==> Flawless(schema, defs) && Acyclic(schema, defs)
  {
    var result := Project(schema, defs, [], show);
    if result.Success? {
      SuccessMeansFlawless(schema, defs, show);
      forall walk
        ensures !ReachesCycle(walk, schema, defs)
      {
        if Walk(walk, schema, defs) {
          SuccessMeansAcyclic(schema, defs, show, walk);
        }
      }
    } else if result.error.RecursiveReference? {
      RecursionErrorIsReal(schema, defs, show, result.error.name);
    } else {
      ErrorIsReal(schema, result.error, defs, show);
    }
  }

  /** The root's definitions: what `$defs` maps to objects, by name, and nothing without it. */
  lemma DefinitionsRead(schema: Json)
    requires schema.Obj?
    ensures var block := Lookup(schema.members, DEFS);
            var defs := ReadDefinitions(schema);
            && (defs.Failure? <==>
                  block.Some? && (!block.value.Obj? || exists m | m in block.value.members :: !m.value.Obj?))
            && (defs.Success? && block.None? ==> defs.value == map[])
            && (defs.Success? && block.Some? ==>
                  && defs.value.Keys == Keys(block.value.members)
                  && forall n | n in defs.value :: Member(n, defs.value[n]) in block.value.members)
  {
  }

  /** An input schema is exported exactly when it projects, describes an object and is small enough. */
  lemma InputExportedExactly(schema: Json, show: Json -> string, size: Json -> nat, maxBytes: int)
    requires schema.Obj?
    ensures var defs := ReadDefinitions(schema);
            ProjectInputSchema(schema, show, size, maxBytes).Success? <==>
            && defs.Success? && Flawless(schema, defs.value) && Acyclic(schema, defs.value)
            && Declares(schema, Some(Str("object")), defs.value)
            && (var r := Project(schema, defs.value, [], show); r.Success? ==> size(r.value) <= maxBytes)
  {
    var defs := ReadDefinitions(schema);
    if defs.Success? {
      ProjectsExactly(schema, defs.value, show);
      if Project(schema, defs.value, [], show).Success? {
        DeclaresExactly(schema, Some(Str("object")), defs.value, [], show);
      }
    }
  }

  /** An output schema is exported exactly when it projects and its wrapper is small enough. */
  lemma OutputExportedExactly(schema: Json, show: Json -> string, size: Json -> nat, maxBytes: int)
    requires schema.Obj?
    ensures var defs := ReadDefinitions(schema);
            ProjectOutputSchema(schema, show, size, maxBytes).Success? <==>
            && defs.Success? && Flawless(schema, defs.value) && Acyclic(schema, defs.value)
            && (var r := Project(schema, defs.value, [], show); r.Success? ==> size(ResultWrapper(r.value)) <= maxBytes)
  {
    var defs := ReadDefinitions(schema);
    if defs.Success? {
      ProjectsExactly(schema, defs.value, show);
    }
  }
}
