/** What the projection's success and its recursion error say of the reference graph. */
module SchemaReferences {
  import opened Wrappers
  import opened JsonSchema

  /** Names a schema refers to from any schema position; nested `$defs` are not one. */
  function Mentions(node: Json): set<string>
    decreases node, 0
  {
    if !node.Obj? then {}
    else
      var reference := Lookup(node.members, REF);
      if reference.Some? then
        var target := ReferenceName(reference.value);
        if target.Some? then {target.value} else {}
      else
        set m, n | m in node.members && n in KeywordMentions(KeywordOf(m.key), m.value) :: n
  }

  function KeywordMentions(keyword: Keyword, value: Json): set<string>
    decreases value, 1
  {
    match keyword
    case Properties => if value.Obj? then set p, n | p in value.members && n in Mentions(p.value) :: n else {}
    case Items | AdditionalProperties | PropertyNames => Mentions(value)
    case AnyOf => if value.Arr? then set b, n | b in value.items && n in Mentions(b) :: n else {}
    case _ => {}
  }

  /** Each name of the walk is mentioned by the definition before it, the first by `node`. */
  predicate Walk(walk: seq<string>, node: Json, defs: Definitions) {
    walk == [] ||
    (walk[0] in Mentions(node) &&
     (|walk| > 1 ==> walk[0] in defs && Walk(walk[1..], defs[walk[0]], defs)))
  }

  predicate Distinct(walk: seq<string>) {
    forall i, j | 0 <= i < j < |walk| :: walk[i] != walk[j]
  }

  /** A walk that returns to a name it has already been at. */
  predicate ReachesCycle(walk: seq<string>, node: Json, defs: Definitions) {
    walk != [] && Walk(walk, node, defs) && walk[|walk| - 1] in walk[..|walk| - 1]
  }

  // ----------------------------------------------- the list projections, element by element

  lemma {:induction false} MemberProjects(members: seq<Member>, m: Member, defs: Definitions, stack: seq<string>,
      show: Json -> string)
    requires ProjectMembers(members, defs, stack, show).Success?
    requires m in members && !KeywordOf(m.key).Defs?
    ensures ProjectKeyword(KeywordOf(m.key), m.value, defs, stack, show).Success?
  {
    if members[0] != m {
      MemberProjects(members[1..], m, defs, stack, show);
    }
  }

  lemma {:induction false} PropertyProjects(props: seq<Member>, p: Member, defs: Definitions, stack: seq<string>,
      show: Json -> string)
    requires ProjectProperties(props, defs, stack, show).Success?
    requires p in props
    ensures Project(p.value, defs, stack, show).Success?
  {
    if props[0] != p {
      PropertyProjects(props[1..], p, defs, stack, show);
    }
  }

  lemma {:induction false} BranchProjects(branches: seq<Json>, b: Json, defs: Definitions, stack: seq<string>,
      show: Json -> string)
    requires ProjectBranches(branches, defs, stack, show).Success?
    requires b in branches
    ensures Project(b, defs, stack, show).Success?
  {
    if branches[0] != b {
      BranchProjects(branches[1..], b, defs, stack, show);
    }
  }

  lemma {:induction false} MemberToBlame(members: seq<Member>, defs: Definitions, stack: seq<string>,
      show: Json -> string) returns (m: Member)
    requires ProjectMembers(members, defs, stack, show).Failure?
    ensures m in members && !KeywordOf(m.key).Defs?
    ensures ProjectKeyword(KeywordOf(m.key), m.value, defs, stack, show).Failure?
    ensures ProjectKeyword(KeywordOf(m.key), m.value, defs, stack, show).error ==
            ProjectMembers(members, defs, stack, show).error
  {
    m := members[0];
    if KeywordOf(m.key).Defs? || ProjectKeyword(KeywordOf(m.key), m.value, defs, stack, show).Success? {
      m := MemberToBlame(members[1..], defs, stack, show);
    }
  }

  lemma {:induction false} PropertyToBlame(props: seq<Member>, defs: Definitions, stack: seq<string>,
      show: Json -> string) returns (p: Member)
    requires ProjectProperties(props, defs, stack, show).Failure?
    ensures p in props && Project(p.value, defs, stack, show).Failure?
    ensures Project(p.value, defs, stack, show).error == ProjectProperties(props, defs, stack, show).error
  {
    p := props[0];
    if Project(p.value, defs, stack, show).Success? {
      p := PropertyToBlame(props[1..], defs, stack, show);
    }
  }

  lemma {:induction false} BranchToBlame(branches: seq<Json>, defs: Definitions, stack: seq<string>,
      show: Json -> string) returns (b: Json)
    requires ProjectBranches(branches, defs, stack, show).Failure?
    ensures b in branches && Project(b, defs, stack, show).Failure?
    ensures Project(b, defs, stack, show).error == ProjectBranches(branches, defs, stack, show).error
  {
    b := branches[0];
    if Project(b, defs, stack, show).Success? {
      b := BranchToBlame(branches[1..], defs, stack, show);
    }
  }

  // ----------------------------------------------------------- success means acyclic

  /** A success has expanded every mentioned definition once more, outside the stack. */
  lemma {:induction false} MentionExpanded(node: Json, n: string, defs: Definitions, stack: seq<string>,
      show: Json -> string)
    requires Project(node, defs, stack, show).Success?
    requires n in Mentions(node)
    ensures n in defs && n !in stack && Project(defs[n], defs, stack + [n], show).Success?
    decreases node, 0
  {
    if Lookup(node.members, REF).None? {
      var m :| m in node.members && n in KeywordMentions(KeywordOf(m.key), m.value);
      MemberProjects(node.members, m, defs, stack, show);
      KeywordMentionExpanded(KeywordOf(m.key), m.value, n, defs, stack, show);
    }
  }

  lemma {:induction false} KeywordMentionExpanded(keyword: Keyword, value: Json, n: string, defs: Definitions,
      stack: seq<string>, show: Json -> string)
    requires ProjectKeyword(keyword, value, defs, stack, show).Success?
    requires n in KeywordMentions(keyword, value)
    ensures n in defs && n !in stack && Project(defs[n], defs, stack + [n], show).Success?
    decreases value, 1
  {
    if keyword.Properties? {
      var p :| p in value.members && n in Mentions(p.value);
      PropertyProjects(value.members, p, defs, stack, show);
      MentionExpanded(p.value, n, defs, stack, show);
    } else if keyword.AnyOf? {
      var b :| b in value.items && n in Mentions(b);
      BranchProjects(value.items, b, defs, stack, show);
      MentionExpanded(b, n, defs, stack, show);
    } else {
      MentionExpanded(value, n, defs, stack, show);
    }
  }

  lemma {:induction false} WalkLeavesStack(walk: seq<string>, node: Json, defs: Definitions, stack: seq<string>,
      show: Json -> string)
    requires Project(node, defs, stack, show).Success?
    requires Walk(walk, node, defs)
    ensures Distinct(walk) && forall n | n in walk :: n in defs && n !in stack
    decreases walk
  {
    if walk != [] {
      var head, rest := walk[0], walk[1..];
      MentionExpanded(node, head, defs, stack, show);
      WalkLeavesStack(rest, defs[head], defs, stack + [head], show);
      assert forall n | n in rest :: n !in stack + [head];
      assert head in stack + [head] && forall n | n in stack :: n in stack + [head];
      assert forall i | 0 < i < |walk| :: walk[i] == rest[i - 1] && walk[i] in rest;
    }
  }

  /** After a success every reachable reference resolves and no reference cycle is reachable. */
  lemma SuccessMeansAcyclic(schema: Json, defs: Definitions, show: Json -> string, walk: seq<string>)
    requires Project(schema, defs, [], show).Success?
    requires Walk(walk, schema, defs)
    ensures !ReachesCycle(walk, schema, defs)
    ensures (forall n | n in walk :: n in defs) && |walk| <= |defs|
  {
    WalkLeavesStack(walk, schema, defs, [], show);
    DistinctIsShort(walk, defs.Keys);
    assert walk != [] ==> forall i | 0 <= i < |walk| - 1 :: walk[i] != walk[|walk| - 1];
  }

  lemma {:induction false} DistinctIsShort(walk: seq<string>, names: set<string>)
    requires Distinct(walk) && forall n | n in walk :: n in names
    ensures |walk| <= |names|
  {
    if walk != [] {
      var rest := walk[1..];
      assert forall n | n in rest :: n in names - {walk[0]};
      DistinctIsShort(rest, names - {walk[0]});
    }
  }

  // --------------------------------------------- the recursion error means a cycle

  lemma LongerWalk(name: string, rest: seq<string>, node: Json, defs: Definitions)
    requires rest != [] && name in Mentions(node) && name in defs && Walk(rest, defs[name], defs)
    ensures Walk([name] + rest, node, defs)
    ensures ([name] + rest)[..|rest|] == [name] + rest[..|rest| - 1]
  {
    var walk := [name] + rest;
    assert walk[1..] == rest && walk[0] == name;
  }

  lemma ReferenceRecursion(node: Json, n: string, defs: Definitions, stack: seq<string>, show: Json -> string)
    returns (name: string)
    requires Project(node, defs, stack, show) == Failure(RecursiveReference(n)) && Lookup(node.members, REF).Some?
    ensures name in Mentions(node) && name in defs
    ensures name in stack ==> n == name
    ensures name !in stack ==> Project(defs[name], defs, stack + [name], show) == Failure(RecursiveReference(n))
  {
    name := ReferenceName(Lookup(node.members, REF).value).value;
  }

  lemma MemberRecursion(node: Json, n: string, defs: Definitions, stack: seq<string>, show: Json -> string)
    returns (m: Member)
    requires Project(node, defs, stack, show) == Failure(RecursiveReference(n)) && Lookup(node.members, REF).None?
    ensures m in node.members &&
            ProjectKeyword(KeywordOf(m.key), m.value, defs, stack, show) == Failure(RecursiveReference(n))
    ensures KeywordMentions(KeywordOf(m.key), m.value) <= Mentions(node)
  {
    assert ProjectMembers(node.members, defs, stack, show) == Failure(RecursiveReference(n));
    m := MemberToBlame(node.members, defs, stack, show);
  }

  /** The walk from `node` on which the projection met `n` again. */
  lemma {:induction false} RecursionTrace(node: Json, n: string, defs: Definitions, stack: seq<string>,
      show: Json -> string) returns (walk: seq<string>)
    requires Project(node, defs, stack, show) == Failure(RecursiveReference(n))
    ensures walk != [] && Walk(walk, node, defs) && walk[|walk| - 1] == n
    ensures n in stack || n in walk[..|walk| - 1]
    decreases |Unexpanded(defs, stack)|, node, 0
  {
    if Lookup(node.members, REF).Some? {
      var name := ReferenceRecursion(node, n, defs, stack, show);
      walk := [name];
      if name !in stack {
        ExpandingShrinks(defs, stack, name);
        var rest := RecursionTrace(defs[name], n, defs, stack + [name], show);
        walk := [name] + rest;
        LongerWalk(name, rest, node, defs);
      }
    } else {
      var m := MemberRecursion(node, n, defs, stack, show);
      walk := KeywordRecursionTrace(KeywordOf(m.key), m.value, n, defs, stack, show);
    }
  }

  lemma {:induction false} KeywordRecursionTrace(keyword: Keyword, value: Json, n: string, defs: Definitions,
      stack: seq<string>, show: Json -> string) returns (walk: seq<string>)
    requires ProjectKeyword(keyword, value, defs, stack, show) == Failure(RecursiveReference(n))
    ensures walk != [] && walk[0] in KeywordMentions(keyword, value) && walk[|walk| - 1] == n
    ensures |walk| > 1 ==> walk[0] in defs && Walk(walk[1..], defs[walk[0]], defs)
    ensures n in stack || n in walk[..|walk| - 1]
    decreases |Unexpanded(defs, stack)|, value, 1
  {
    if keyword.Properties? {
      var p := PropertyToBlame(value.members, defs, stack, show);
      walk := RecursionTrace(p.value, n, defs, stack, show);
    } else if keyword.AnyOf? {
      var b := BranchToBlame(value.items, defs, stack, show);
      walk := RecursionTrace(b, n, defs, stack, show);
    } else {
      walk := RecursionTrace(value, n, defs, stack, show);
    }
  }

  /** The recursion error is raised only when a reference cycle is reachable. */
  lemma RecursionErrorIsReal(schema: Json, defs: Definitions, show: Json -> string, n: string)
    requires Project(schema, defs, [], show) == Failure(RecursiveReference(n))
    ensures exists walk :: ReachesCycle(walk, schema, defs) && walk[|walk| - 1] == n
  {
    var walk := RecursionTrace(schema, n, defs, [], show);
    assert ReachesCycle(walk, schema, defs);
  }
}
