/**
  Projecting the declared capability uses of an agent into one bounded toolbox. The replies of
  the gateway's discovery are inputs; a tool's `encoded` is its canonical JSON.
 */
module Toolbox {
  import opened Wrappers

  datatype Tool = Tool(
    id: string, agent: string, capability: string, generation: nat,
    descriptionBytes: nat, schemaBytes: nat, encoded: string)

  datatype Policy = Policy(maxTools: nat, maxSchemaBytes: nat, maxDescriptionBytes: nat, maxTotalBytes: nat)

  datatype Code =
    NoMatch | DiscoveryDenied | Ambiguous | UnsupportedSchema | ResultLimitExceeded | PolicyEvaluationFailed |
    ToolIdCollision | Other

  datatype Use = Use(name: string, required: bool)

  datatype Discovery = Discovery(revision: int, tools: seq<Tool>, failure: Option<Code>)

  datatype Status =
    RequiredCapabilityUnavailable | DiscoveryIsDenied | IsAmbiguous | SchemaUnsupported | DuplicateToolId |
    LimitExceeded

  datatype Skipped = Skipped(use: Use, failure: Code)

  datatype Snapshot = Snapshot(revision: int, tools: seq<Tool>, totalBytes: nat, skipped: seq<Skipped>)

  // ------------------------------------------------------------ specification

  /** Everything the discoveries found, in the order it was found. */
  function Found(discoveries: seq<Discovery>): seq<Tool> {
    if discoveries == [] then []
    else Found(discoveries[..|discoveries| - 1]) + discoveries[|discoveries| - 1].tools
  }

  function First(tools: seq<Tool>, id: string): Option<Tool> {
    if tools == [] then None
    else if tools[0].id == id then Some(tools[0])
    else First(tools[1..], id)
  }

  /** The first tool found for each identifier. */
  function Kept(tools: seq<Tool>): seq<Tool> {
    if tools == [] then []
    else
      var (kept, last) := (Kept(tools[..|tools| - 1]), tools[|tools| - 1]);
      if First(kept, last.id).Some? then kept else kept + [last]
  }

  function Joined(tools: seq<Tool>): string {
    if tools == [] then ""
    else if |tools| == 1 then tools[0].encoded
    else Joined(tools[..|tools| - 1]) + "," + tools[|tools| - 1].encoded
  }

  /** The toolbox as a JSON array. */
  function Serialized(tools: seq<Tool>): string {
    "[" + Joined(tools) + "]"
  }

  predicate SameCapability(a: Tool, b: Tool) {
    a.agent == b.agent && a.capability == b.capability
  }

  /** One identifier never names two capabilities. */
  ghost predicate Agree(tools: seq<Tool>) {
    forall i, j | 0 <= i < |tools| && 0 <= j < |tools| && tools[i].id == tools[j].id ::
      SameCapability(tools[i], tools[j])
  }

  ghost predicate Small(policy: Policy, tools: seq<Tool>) {
    && (forall i | 0 <= i < |tools| ::
          tools[i].descriptionBytes <= policy.maxDescriptionBytes && tools[i].schemaBytes <= policy.maxSchemaBytes)
    && |tools| <= policy.maxTools
    && (tools != [] ==> |Serialized(tools)| <= policy.maxTotalBytes)
  }

  ghost predicate Acceptable(policy: Policy, uses: seq<Use>, discoveries: seq<Discovery>)
    requires |uses| == |discoveries|
  {
    && (forall i | 0 <= i < |uses| && uses[i].required :: discoveries[i].tools != [])
    && Agree(Found(discoveries))
    && Small(policy, Kept(Found(discoveries)))
  }

  function Later(revision: int, next: int): int {
    if next > revision then next else revision
  }

  function MaxRevision(discoveries: seq<Discovery>): int {
    if discoveries == [] then -1
    else Later(MaxRevision(discoveries[..|discoveries| - 1]), discoveries[|discoveries| - 1].revision)
  }

  function Reason(d: Discovery): Code {
    if d.failure.Some? then d.failure.value else NoMatch
  }

  /** The uses that found nothing, in order, each with its reason. */
  function Unsatisfied(uses: seq<Use>, discoveries: seq<Discovery>): seq<Skipped>
    requires |uses| == |discoveries|
  {
    if uses == [] then []
    else
      var n := |uses| - 1;
      Unsatisfied(uses[..n], discoveries[..n]) +
        (if discoveries[n].tools == [] then [Skipped(uses[n], Reason(discoveries[n]))] else [])
  }

  // ------------------------------------------------------------------- lemmas

  lemma {:induction false} FirstOfAppend(tools: seq<Tool>, last: Tool, id: string)
    ensures First(tools + [last], id) ==
            if First(tools, id).Some? then First(tools, id) else if last.id == id then Some(last) else None
    decreases |tools|
  {
    if tools == [] {
      assert First([last], id) == if last.id == id then Some(last) else First([], id);
    } else {
      assert (tools + [last])[1..] == tools[1..] + [last];
      FirstOfAppend(tools[1..], last, id);
    }
  }

  /** Keeping the first of each identifier loses no identifier and changes no first tool. */
  lemma {:induction false} KeptFirst(tools: seq<Tool>, id: string)
    ensures First(Kept(tools), id) == First(tools, id)
    decreases |tools|
  {
    if tools == [] {
    } else {
      var shorter, last := tools[..|tools| - 1], tools[|tools| - 1];
      KeptFirst(shorter, id);
      KeptFirst(shorter, last.id);
      assert shorter + [last] == tools;
      FirstOfAppend(shorter, last, id);
      FirstOfAppend(Kept(shorter), last, id);
    }
  }

  lemma {:induction false} FirstIs(tools: seq<Tool>, id: string)
    ensures First(tools, id).None? ==> forall k | 0 <= k < |tools| :: tools[k].id != id
    ensures First(tools, id).Some? ==> First(tools, id).value in tools && First(tools, id).value.id == id
    decreases |tools|
  {
    if tools == [] {
    } else {
      FirstIs(tools[1..], id);
      assert forall k | 0 < k < |tools| :: tools[k] == tools[1..][k - 1];
    }
  }

  /** No two kept tools share an identifier. */
  lemma {:induction false} KeptDistinct(tools: seq<Tool>, i: nat, j: nat)
    requires i < j < |Kept(tools)|
    ensures Kept(tools)[i].id != Kept(tools)[j].id
    decreases |tools|
  {
    var shorter, last := tools[..|tools| - 1], tools[|tools| - 1];
    if j < |Kept(shorter)| {
      KeptDistinct(shorter, i, j);
    } else {
      FirstIs(Kept(shorter), last.id);
    }
  }

  lemma KeptAppend(tools: seq<Tool>, last: Tool)
    ensures Kept(tools + [last]) == if First(Kept(tools), last.id).Some? then Kept(tools) else Kept(tools) + [last]
  {
    assert (tools + [last])[..|tools|] == tools;
  }

  lemma JoinedAppend(tools: seq<Tool>, last: Tool)
    ensures |Joined(tools + [last])| == |Joined(tools)| + (if tools == [] then 0 else 1) + |last.encoded|
  {
    assert (tools + [last])[..|tools|] == tools;
  }

  lemma SmallAppend(policy: Policy, tools: seq<Tool>, last: Tool)
    ensures Small(policy, tools + [last]) <==>
            && Small(policy, tools)
            && last.descriptionBytes <= policy.maxDescriptionBytes && last.schemaBytes <= policy.maxSchemaBytes
            && |tools| < policy.maxTools
            && |Serialized(tools)| + (if tools == [] then 0 else 1) + |last.encoded| <= policy.maxTotalBytes
  {
    JoinedAppend(tools, last);
    var longer := tools + [last];
    assert forall i | 0 <= i < |tools| :: longer[i] == tools[i];
    assert longer[|tools|] == last;
  }

  /** A new tool agrees with all before it exactly when it agrees with the first of its identifier. */
  lemma AgreeAppend(tools: seq<Tool>, last: Tool)
    requires Agree(tools)
    ensures Agree(tools + [last]) <==>
            (First(tools, last.id).Some? ==> SameCapability(First(tools, last.id).value, last))
  {
    FirstIs(tools, last.id);
    var longer := tools + [last];
    assert forall i | 0 <= i < |tools| :: longer[i] == tools[i];
    assert longer[|tools|] == last;
  }

  /** What was found so far is acceptable. */
  ghost predicate Fine(policy: Policy, found: seq<Tool>) {
    Agree(found) && Small(policy, Kept(found))
  }

  /** A limit that the first tools break stays broken by all. */
  lemma {:induction false} SmallPrefix(policy: Policy, found: seq<Tool>, more: seq<Tool>)
    requires Small(policy, Kept(found + more))
    ensures Small(policy, Kept(found))
    decreases |more|
  {
    if more == [] {
      assert found + more == found;
    } else {
      var shorter, last := found + more[..|more| - 1], more[|more| - 1];
      assert found + more == shorter + [last];
      KeptAppend(shorter, last);
      SmallAppend(policy, Kept(shorter), last);
      SmallPrefix(policy, found, more[..|more| - 1]);
    }
  }

  /** A problem among the first tools is not made good by later ones, and stays of its kind. */
  lemma Refute(policy: Policy, found: seq<Tool>, more: seq<Tool>)
    ensures Fine(policy, found + more) ==> Fine(policy, found)
    ensures Agree(found + more) ==> Agree(found)
    ensures Small(policy, Kept(found + more)) ==> Small(policy, Kept(found))
  {
    if Small(policy, Kept(found + more)) {
      SmallPrefix(policy, found, more);
    }
    if Agree(found + more) {
      assert forall i | 0 <= i < |found| :: (found + more)[i] == found[i];
    }
  }

  lemma {:induction false} FoundPrefix(discoveries: seq<Discovery>, n: nat) returns (more: seq<Tool>)
    requires n <= |discoveries|
    ensures Found(discoveries) == Found(discoveries[..n]) + more
    decreases |discoveries|
  {
    if n == |discoveries| {
      assert discoveries[..n] == discoveries;
      more := [];
    } else {
      var shorter := discoveries[..|discoveries| - 1];
      assert shorter[..n] == discoveries[..n];
      var part := FoundPrefix(shorter, n);
      more := part + discoveries[|discoveries| - 1].tools;
    }
  }

  /** Every tool a use found is in the toolbox, as itself or as the same capability found before. */
  lemma {:induction false} FoundIsPresent(discoveries: seq<Discovery>, u: nat, k: nat)
    requires Agree(Found(discoveries)) && u < |discoveries| && k < |discoveries[u].tools|
    ensures var tool := discoveries[u].tools[k];
            var present := First(Kept(Found(discoveries)), tool.id);
            && present.Some? && present.value in Kept(Found(discoveries)) && present.value.id == tool.id
            && present.value.agent == tool.agent && present.value.capability == tool.capability
  {
    var tool := discoveries[u].tools[k];
    var before := Found(discoveries[..u]);
    var more := FoundPrefix(discoveries, u + 1);
    assert discoveries[..u + 1][..u] == discoveries[..u];
    var all := Found(discoveries);
    assert all == (before + discoveries[u].tools) + more;
    assert all[|before| + k] == tool;
    KeptFirst(all, tool.id);
    FirstIs(all, tool.id);
    FirstIs(Kept(all), tool.id);
  }

  // ------------------------------------------------------------------ methods

  predicate Fits(policy: Policy, kept: seq<Tool>, size: nat, tool: Tool) {
    && tool.descriptionBytes <= policy.maxDescriptionBytes
    && tool.schemaBytes <= policy.maxSchemaBytes
    && |kept| < policy.maxTools
    && size + (if kept == [] then 0 else 1) + |tool.encoded| <= policy.maxTotalBytes
  }

  /** What one more tool does to what is kept, in the two cases of the source. */
  lemma OneMore(policy: Policy, found: seq<Tool>, tool: Tool)
    requires Fine(policy, found)
    ensures var (kept, next, existing) := (Kept(found), found + [tool], First(Kept(found), tool.id));
            && (existing.Some? ==>
                  Kept(next) == kept && (Agree(next) <==> SameCapability(existing.value, tool)))
            && (existing.None? ==>
                  && Agree(next) && Kept(next) == kept + [tool]
                  && (Small(policy, Kept(next)) <==> Fits(policy, kept, |Serialized(kept)|, tool))
                  && |Serialized(Kept(next))| == |Serialized(kept)| + (if kept == [] then 0 else 1) + |tool.encoded|)
  {
    KeptFirst(found, tool.id);
    KeptAppend(found, tool);
    AgreeAppend(found, tool);
    SmallAppend(policy, Kept(found), tool);
    JoinedAppend(Kept(found), tool);
  }

  /** The added tools are kept with their size accounted for, or the failure is of the kind it says. */
  ghost predicate Added(policy: Policy, found: seq<Tool>, tools: seq<Tool>, totalBytes: nat, failure: Option<Status>) {
    match failure
    case None => Fine(policy, found) && tools == Kept(found) && totalBytes == |Serialized(tools)|
    case Some(DuplicateToolId) => !Agree(found)
    case Some(LimitExceeded) => !Small(policy, Kept(found))
    case _ => false
  }

  /** Considers one discovered tool. */
  method AddTool(policy: Policy, kept: seq<Tool>, size: nat, tool: Tool, ghost found: seq<Tool>)
    returns (tools: seq<Tool>, totalBytes: nat, failure: Option<Status>)
    requires Fine(policy, found) && kept == Kept(found) && size == |Serialized(kept)|
    ensures Added(policy, found + [tool], tools, totalBytes, failure)
    ensures failure.Some? ==> failure.value == Problem(found + [tool])
  {
    OneMore(policy, found, tool);
    var existing := First(kept, tool.id);
    if existing.Some? {
      if existing.value.agent != tool.agent || existing.value.capability != tool.capability {
        return kept, size, Some(DuplicateToolId);
      }
      return kept, size, None;
    }
    if tool.descriptionBytes > policy.maxDescriptionBytes {
      return kept, size, Some(LimitExceeded);
    }
    if tool.schemaBytes > policy.maxSchemaBytes {
      return kept, size, Some(LimitExceeded);
    }
    if |kept| >= policy.maxTools {
      return kept, size, Some(LimitExceeded);
    }
    var separator := if kept == [] then 0 else 1;
    if size + separator + |tool.encoded| > policy.maxTotalBytes {
      return kept, size, Some(LimitExceeded);
    }
    return kept + [tool], size + separator + |tool.encoded|, None;
  }

  /** What breaks, when something does: a collision if two capabilities disagree, and otherwise a limit. */
  ghost function Problem(found: seq<Tool>): Status {
    if Agree(found) then LimitExceeded else DuplicateToolId
  }

  /** Tool `k` of the discovery is the first at which something breaks. */
  ghost predicate BreaksAt(policy: Policy, found: seq<Tool>, discovered: seq<Tool>, k: nat, status: Status) {
    && k < |discovered|
    && Fine(policy, found + discovered[..k]) && !Fine(policy, found + discovered[..k + 1])
    && status == Problem(found + discovered[..k + 1])
  }

  lemma FailureStays(policy: Policy, found: seq<Tool>, more: seq<Tool>, tools: seq<Tool>, totalBytes: nat,
      failure: Option<Status>)
    requires failure.Some? && Added(policy, found, tools, totalBytes, failure)
    ensures Added(policy, found + more, tools, totalBytes, failure)
  {
    Refute(policy, found, more);
  }

  lemma Onward(found: seq<Tool>, discovered: seq<Tool>, i: nat)
    requires i < |discovered|
    ensures found + discovered[..i] + [discovered[i]] == found + discovered[..i + 1]
    ensures found + discovered[..i + 1] + discovered[i + 1..] == found + discovered
  {
  }

  /** Adds the tools of one discovery to what is kept, or says why it cannot. */
  method AddTools(policy: Policy, kept: seq<Tool>, size: nat, discovered: seq<Tool>, ghost found: seq<Tool>)
    returns (tools: seq<Tool>, totalBytes: nat, failure: Option<Status>)
    requires Fine(policy, found) && kept == Kept(found) && size == |Serialized(kept)|
    ensures Added(policy, found + discovered, tools, totalBytes, failure)
    ensures failure.Some? ==> exists k: nat :: BreaksAt(policy, found, discovered, k, failure.value)
  {
    tools, totalBytes := kept, size;
    var i := 0;
    assert found + discovered[..0] == found;
    while i < |discovered|
      invariant 0 <= i <= |discovered|
      invariant Added(policy, found + discovered[..i], tools, totalBytes, None)
    {
      tools, totalBytes, failure := AddTool(policy, tools, totalBytes, discovered[i], found + discovered[..i]);
      Onward(found, discovered, i);
      if failure.Some? {
        assert BreaksAt(policy, found, discovered, i, failure.value);
        FailureStays(policy, found + discovered[..i + 1], discovered[i + 1..], tools, totalBytes, failure);
        return;
      }
      i := i + 1;
    }
    assert found + discovered[..i] == found + discovered;
    failure := None;
  }

  /** What the first `i` discoveries amount to. */
  ghost predicate Gathered(policy: Policy, uses: seq<Use>, discoveries: seq<Discovery>, i: nat,
                           tools: seq<Tool>, totalBytes: nat, revision: int, skipped: seq<Skipped>)
    requires i <= |uses| == |discoveries|
  {
    Accepted(policy, Found(discoveries[..i]), tools, totalBytes) && Noted(uses, discoveries, i, revision, skipped)
  }

  ghost predicate Accepted(policy: Policy, found: seq<Tool>, tools: seq<Tool>, totalBytes: nat) {
    Fine(policy, found) && tools == Kept(found) && totalBytes == |Serialized(tools)|
  }

  ghost predicate Noted(uses: seq<Use>, discoveries: seq<Discovery>, i: nat, revision: int, skipped: seq<Skipped>)
    requires i <= |uses| == |discoveries|
  {
    && revision == MaxRevision(discoveries[..i])
    && skipped == Unsatisfied(uses[..i], discoveries[..i])
    && (forall k | 0 <= k < |skipped| :: !skipped[k].use.required)
  }

  lemma Steps(uses: seq<Use>, discoveries: seq<Discovery>, i: nat)
    requires i < |uses| == |discoveries|
    ensures Found(discoveries[..i + 1]) == Found(discoveries[..i]) + discoveries[i].tools
    ensures discoveries[i].tools == [] ==> Found(discoveries[..i + 1]) == Found(discoveries[..i])
    ensures MaxRevision(discoveries[..i + 1]) == Later(MaxRevision(discoveries[..i]), discoveries[i].revision)
    ensures Unsatisfied(uses[..i + 1], discoveries[..i + 1]) ==
            Unsatisfied(uses[..i], discoveries[..i]) +
              (if discoveries[i].tools == [] then [Skipped(uses[i], Reason(discoveries[i]))] else [])
  {
    assert discoveries[..i + 1][..i] == discoveries[..i] && uses[..i + 1][..i] == uses[..i];
  }

  lemma GatheredNext(policy: Policy, uses: seq<Use>, discoveries: seq<Discovery>, i: nat, kept: seq<Tool>, size: nat,
                     tools: seq<Tool>, totalBytes: nat, revision: int, skipped: seq<Skipped>)
    requires i < |uses| == |discoveries|
    requires Gathered(policy, uses, discoveries, i, kept, size, revision, skipped)
    requires uses[i].required ==> discoveries[i].tools != []
    requires Accepted(policy, Found(discoveries[..i]) + discoveries[i].tools, tools, totalBytes)
    ensures Gathered(policy, uses, discoveries, i + 1, tools, totalBytes, Later(revision, discoveries[i].revision),
                     if discoveries[i].tools == []
                     then skipped + [Skipped(uses[i], Reason(discoveries[i]))]
                     else skipped)
  {
    Steps(uses, discoveries, i);
    NotedNext(uses, discoveries, i, revision, skipped);
  }

  lemma NotedNext(uses: seq<Use>, discoveries: seq<Discovery>, i: nat, revision: int, skipped: seq<Skipped>)
    requires i < |uses| == |discoveries| && Noted(uses, discoveries, i, revision, skipped)
    requires uses[i].required ==> discoveries[i].tools != []
    ensures Noted(uses, discoveries, i + 1, Later(revision, discoveries[i].revision),
                  if discoveries[i].tools == [] then skipped + [Skipped(uses[i], Reason(discoveries[i]))] else skipped)
  {
    Steps(uses, discoveries, i);
  }

  lemma NotAcceptable(policy: Policy, uses: seq<Use>, discoveries: seq<Discovery>, i: nat)
    requires i < |uses| == |discoveries| && !Fine(policy, Found(discoveries[..i]) + discoveries[i].tools)
    ensures !Acceptable(policy, uses, discoveries)
    ensures !Agree(Found(discoveries[..i]) + discoveries[i].tools) ==> !Agree(Found(discoveries))
    ensures !Small(policy, Kept(Found(discoveries[..i]) + discoveries[i].tools)) ==>
            !Small(policy, Kept(Found(discoveries)))
  {
    Steps(uses, discoveries, i);
    var more := FoundPrefix(discoveries, i + 1);
    Refute(policy, Found(discoveries[..i + 1]), more);
  }

  lemma GatheredNone(policy: Policy, uses: seq<Use>, discoveries: seq<Discovery>)
    requires |uses| == |discoveries|
    ensures Gathered(policy, uses, discoveries, 0, [], 2, -1, [])
  {
  }

  lemma GatheredAll(policy: Policy, uses: seq<Use>, discoveries: seq<Discovery>, s: Snapshot)
    requires |uses| == |discoveries|
    requires Gathered(policy, uses, discoveries, |uses|, s.tools, s.totalBytes, s.revision, s.skipped)
    requires Untroubled(policy, uses, discoveries, |uses|)
    ensures Acceptable(policy, uses, discoveries) && Reports(uses, discoveries, s)
  {
    assert discoveries[..|uses|] == discoveries && uses[..|uses|] == uses;
  }

  /** The snapshot and the accounts that go with a successful build. */
  ghost predicate Reports(uses: seq<Use>, discoveries: seq<Discovery>, s: Snapshot)
    requires |uses| == |discoveries|
  {
    && s.tools == Kept(Found(discoveries))
    && s.totalBytes == |Serialized(s.tools)|
    && s.revision == MaxRevision(discoveries)
    && s.skipped == Unsatisfied(uses, discoveries)
    && (forall k | 0 <= k < |s.skipped| :: !s.skipped[k].use.required)
  }

  /** Two capabilities collide, a limit is broken, or a required use found nothing for the reason the status names. */
  ghost predicate Explains(policy: Policy, uses: seq<Use>, discoveries: seq<Discovery>, status: Status)
    requires |uses| == |discoveries|
  {
    || (status.DuplicateToolId? && !Agree(Found(discoveries)))
    || (status.LimitExceeded? && !Small(policy, Kept(Found(discoveries))))
    || (exists u ::
          && 0 <= u < |uses| && uses[u].required && discoveries[u].tools == []
          && status == StatusFor(Reason(discoveries[u])))
  }

  /** Nothing was wrong before use `u`. */
  ghost predicate Untroubled(policy: Policy, uses: seq<Use>, discoveries: seq<Discovery>, u: nat)
    requires u <= |uses| == |discoveries|
  {
    && Fine(policy, Found(discoveries[..u]))
    && forall v | 0 <= v < u && uses[v].required :: discoveries[v].tools != []
  }

  lemma UntroubledNext(policy: Policy, uses: seq<Use>, discoveries: seq<Discovery>, u: nat, next: Snapshot)
    requires u < |uses| == |discoveries| && Untroubled(policy, uses, discoveries, u)
    requires uses[u].required ==> discoveries[u].tools != []
    requires Gathered(policy, uses, discoveries, u + 1, next.tools, next.totalBytes, next.revision, next.skipped)
    ensures Untroubled(policy, uses, discoveries, u + 1)
  {
  }

  /** Use `u` is the first at which something is wrong, and the status is that of the first thing wrong in it. */
  ghost predicate FirstProblem(policy: Policy, uses: seq<Use>, discoveries: seq<Discovery>, u: nat, status: Status)
    requires |uses| == |discoveries|
  {
    && u < |uses| && Untroubled(policy, uses, discoveries, u)
    && if discoveries[u].tools == [] then uses[u].required && status == StatusFor(Reason(discoveries[u]))
       else exists k: nat :: BreaksAt(policy, Found(discoveries[..u]), discoveries[u].tools, k, status)
  }

  /** A tool at which something breaks leaves its whole discovery broken, and is the only first one. */
  lemma BreaksOnce(policy: Policy, found: seq<Tool>, discovered: seq<Tool>, k: nat, j: nat, status: Status,
      other: Status)
    requires BreaksAt(policy, found, discovered, k, status)
    ensures !Fine(policy, found + discovered)
    ensures BreaksAt(policy, found, discovered, j, other) ==> j == k && other == status
  {
    Onward(found, discovered, k);
    Refute(policy, found + discovered[..k + 1], discovered[k + 1..]);
    if BreaksAt(policy, found, discovered, j, other) {
      if k < j {
        BreaksBefore(policy, found, discovered, k, j);
      } else if j < k {
        BreaksBefore(policy, found, discovered, j, k);
      }
    }
  }

  lemma BreaksBefore(policy: Policy, found: seq<Tool>, discovered: seq<Tool>, k: nat, j: nat)
    requires k < j <= |discovered| && Fine(policy, found + discovered[..j])
    ensures Fine(policy, found + discovered[..k + 1])
  {
    assert found + discovered[..k + 1] + discovered[k + 1..j] == found + discovered[..j];
    Refute(policy, found + discovered[..k + 1], discovered[k + 1..j]);
  }

  lemma FineEarlier(policy: Policy, discoveries: seq<Discovery>, u: nat, v: nat)
    requires u <= v <= |discoveries| && Fine(policy, Found(discoveries[..v]))
    ensures Fine(policy, Found(discoveries[..u]))
  {
    assert discoveries[..v][..u] == discoveries[..u];
    var more := FoundPrefix(discoveries[..v], u);
    Refute(policy, Found(discoveries[..u]), more);
  }

  lemma ProblemBreaks(policy: Policy, uses: seq<Use>, discoveries: seq<Discovery>, u: nat, status: Status)
    requires |uses| == |discoveries| && FirstProblem(policy, uses, discoveries, u, status)
    ensures discoveries[u].tools == [] ==> uses[u].required
    ensures discoveries[u].tools != [] ==> !Fine(policy, Found(discoveries[..u + 1]))
  {
    if discoveries[u].tools != [] {
      Steps(uses, discoveries, u);
      var k: nat :| BreaksAt(policy, Found(discoveries[..u]), discoveries[u].tools, k, status);
      BreaksOnce(policy, Found(discoveries[..u]), discoveries[u].tools, k, k, status, status);
    }
  }

  lemma ProblemIsNotLater(policy: Policy, uses: seq<Use>, discoveries: seq<Discovery>, u: nat, v: nat, status: Status)
    requires |uses| == |discoveries| && FirstProblem(policy, uses, discoveries, u, status)
    requires v <= |uses| && Untroubled(policy, uses, discoveries, v)
    ensures v <= u
  {
    ProblemBreaks(policy, uses, discoveries, u, status);
    if u < v {
      FineEarlier(policy, discoveries, u + 1, v);
    }
  }

  /** The status of a failure is determined by the uses and what was discovered for them. */
  lemma FailureIsDetermined(policy: Policy, uses: seq<Use>, discoveries: seq<Discovery>,
      u: nat, status: Status, v: nat, other: Status)
    requires |uses| == |discoveries|
    requires FirstProblem(policy, uses, discoveries, u, status) && FirstProblem(policy, uses, discoveries, v, other)
    ensures u == v && status == other
  {
    ProblemIsNotLater(policy, uses, discoveries, u, v, status);
    ProblemIsNotLater(policy, uses, discoveries, v, u, other);
    if discoveries[u].tools != [] {
      var found, tools := Found(discoveries[..u]), discoveries[u].tools;
      var k: nat :| BreaksAt(policy, found, tools, k, status);
      var j: nat :| BreaksAt(policy, found, tools, j, other);
      BreaksOnce(policy, found, tools, k, j, status, other);
    }
  }

  function StatusFor(code: Code): Status {
    match code
    case DiscoveryDenied => DiscoveryIsDenied
    case Ambiguous => IsAmbiguous
    case UnsupportedSchema => SchemaUnsupported
    case ResultLimitExceeded => LimitExceeded
    case _ => RequiredCapabilityUnavailable
  }

  /** Handles one declared use: records it as skipped, adds its tools, or says why it cannot. */
  method AddUse(policy: Policy, uses: seq<Use>, discoveries: seq<Discovery>, i: nat, s: Snapshot)
    returns (next: Snapshot, failure: Option<Status>)
    requires i < |uses| == |discoveries|
    requires Gathered(policy, uses, discoveries, i, s.tools, s.totalBytes, s.revision, s.skipped)
    ensures failure.None? ==>
              && Gathered(policy, uses, discoveries, i + 1, next.tools, next.totalBytes, next.revision, next.skipped)
              && (uses[i].required ==> discoveries[i].tools != [])
    ensures failure.Some? ==>
            !Acceptable(policy, uses, discoveries) && Explains(policy, uses, discoveries, failure.value)
    ensures failure.Some? && Untroubled(policy, uses, discoveries, i) ==>
            FirstProblem(policy, uses, discoveries, i, failure.value)
  {
    var discovery := discoveries[i];
    ghost var found := Found(discoveries[..i]);
    var revision := if discovery.revision > s.revision then discovery.revision else s.revision;
    if discovery.tools == [] {
      var reason := Reason(discovery);
      if uses[i].required {
        return s, Some(StatusFor(reason));
      }
      assert found + discovery.tools == found;
      GatheredNext(policy, uses, discoveries, i, s.tools, s.totalBytes, s.tools, s.totalBytes, s.revision, s.skipped);
      return Snapshot(revision, s.tools, s.totalBytes, s.skipped + [Skipped(uses[i], reason)]), None;
    }
    var tools, totalBytes, problem := AddTools(policy, s.tools, s.totalBytes, discovery.tools, found);
    if problem.Some? {
      NotAcceptable(policy, uses, discoveries, i);
      return s, problem;
    }
    GatheredNext(policy, uses, discoveries, i, s.tools, s.totalBytes, tools, totalBytes, s.revision, s.skipped);
    return Snapshot(revision, tools, totalBytes, s.skipped), None;
  }

  /**
    The toolbox is built exactly when every required use found something, no identifier names
    two capabilities, and what is kept is within every limit.
   */
  method BuildToolbox(policy: Policy, uses: seq<Use>, discoveries: seq<Discovery>)
    returns (result: Result<Snapshot, Status>)
    requires |uses| == |discoveries|
    ensures result.Success? <==> Acceptable(policy, uses, discoveries)
    ensures result.Success? ==> Reports(uses, discoveries, result.value)
    ensures result.Failure? ==> Explains(policy, uses, discoveries, result.error)
    ensures result.Failure? ==> exists u: nat :: FirstProblem(policy, uses, discoveries, u, result.error)
  {
    var s := Snapshot(-1, [], 2, []);
    GatheredNone(policy, uses, discoveries);
    var i := 0;
    while i < |uses|
      invariant 0 <= i <= |uses|
      invariant Gathered(policy, uses, discoveries, i, s.tools, s.totalBytes, s.revision, s.skipped)
      invariant Untroubled(policy, uses, discoveries, i)
    {
      var next, failure := AddUse(policy, uses, discoveries, i, s);
      if failure.Some? {
        assert FirstProblem(policy, uses, discoveries, i, failure.value);
        return Failure(failure.value);
      }
      UntroubledNext(policy, uses, discoveries, i, next);
      s := next;
      i := i + 1;
    }
    GatheredAll(policy, uses, discoveries, s);
    return Success(s);
  }

  /** The capability a tool identifier stands for in a snapshot. */
  method Resolve(tools: seq<Tool>, id: string) returns (tool: Option<Tool>)
    ensures tool == First(tools, id)
  {
    var i := 0;
    while i < |tools|
      invariant 0 <= i <= |tools|
      invariant First(tools, id) == First(tools[i..], id)
    {
      if tools[i].id == id {
        return Some(tools[i]);
      }
      i := i + 1;
    }
    return None;
  }

  /** Identifiers in a toolbox are distinct, and each stands for the first tool found for it. */
  lemma ResolvesToFirstFound(discoveries: seq<Discovery>, i: nat)
    requires i < |Kept(Found(discoveries))|
    ensures var tools := Kept(Found(discoveries));
            && First(tools, tools[i].id) == Some(tools[i])
            && First(Found(discoveries), tools[i].id) == Some(tools[i])
            && (forall j | 0 <= j < |tools| && j != i :: tools[j].id != tools[i].id)
  {
    var tools := Kept(Found(discoveries));
    forall j | 0 <= j < |tools| && j != i
      ensures tools[j].id != tools[i].id
    {
      if j < i {
        KeptDistinct(Found(discoveries), j, i);
      } else {
        KeptDistinct(Found(discoveries), i, j);
      }
    }
    FirstIs(tools, tools[i].id);
    KeptFirst(Found(discoveries), tools[i].id);
  }

  // ------------------------------------------------- what the accounts of a build mean

  /**
    What a build accepts: two tools of one identifier are the same capability of one agent;
    each kept tool has its description and schema within their limits; the tools and the bytes
    of the array they make are within theirs.
   */
  lemma AcceptableMeans(policy: Policy, uses: seq<Use>, discoveries: seq<Discovery>)
    requires |uses| == |discoveries|
    ensures var found := Found(discoveries);
            var tools := Kept(found);
            Acceptable(policy, uses, discoveries) <==>
            && (forall u | 0 <= u < |uses| && uses[u].required :: discoveries[u].tools != [])
            && (forall i, j | 0 <= i < j < |found| && found[i].id == found[j].id ::
                  (found[i].agent, found[i].capability) == (found[j].agent, found[j].capability))
            && (forall t | t in tools ::
                  t.descriptionBytes <= policy.maxDescriptionBytes && t.schemaBytes <= policy.maxSchemaBytes)
            && |tools| <= policy.maxTools
            && (tools == [] || |"[" + Joined(tools) + "]"| <= policy.maxTotalBytes)
  {
    AgreeMeans(Found(discoveries));
    SmallMeans(policy, Kept(Found(discoveries)));
  }

  lemma SmallMeans(policy: Policy, tools: seq<Tool>)
    ensures Small(policy, tools) <==>
            && (forall t | t in tools ::
                  t.descriptionBytes <= policy.maxDescriptionBytes && t.schemaBytes <= policy.maxSchemaBytes)
            && |tools| <= policy.maxTools
            && (tools == [] || |"[" + Joined(tools) + "]"| <= policy.maxTotalBytes)
  {
    assert forall i | 0 <= i < |tools| :: tools[i] in tools;
  }

  lemma AgreeMeans(found: seq<Tool>)
    ensures Agree(found) <==>
            forall i, j | 0 <= i < j < |found| && found[i].id == found[j].id ::
              (found[i].agent, found[i].capability) == (found[j].agent, found[j].capability)
  {
    if forall i, j | 0 <= i < j < |found| && found[i].id == found[j].id ::
      (found[i].agent, found[i].capability) == (found[j].agent, found[j].capability)
    {
      forall i, j | 0 <= i < |found| && 0 <= j < |found| && found[i].id == found[j].id
        ensures SameCapability(found[i], found[j])
      {
        assert i < j || j < i ==>
            (found[i].agent, found[i].capability) == (found[j].agent, found[j].capability);
      }
    }
  }

  /** The revision of a build is the highest any discovery reported, and -1 for none. */
  lemma {:induction false} RevisionIsHighest(discoveries: seq<Discovery>)
    ensures MaxRevision(discoveries) >= -1
    ensures forall d | d in discoveries :: d.revision <= MaxRevision(discoveries)
    ensures MaxRevision(discoveries) == -1 || exists d :: d in discoveries && d.revision == MaxRevision(discoveries)
    decreases |discoveries|
  {
    if discoveries != [] {
      var shorter, last := discoveries[..|discoveries| - 1], discoveries[|discoveries| - 1];
      RevisionIsHighest(shorter);
      assert discoveries == shorter + [last];
    }
  }

  /** The status a required use fails with, by what its discovery reported. */
  lemma StatusOf(d: Discovery)
    ensures var status := StatusFor(Reason(d));
            && (d.failure.None? ==> Reason(d) == NoMatch && status == RequiredCapabilityUnavailable)
            && (d.failure.Some? ==> Reason(d) == d.failure.value)
            && (status == DiscoveryIsDenied <==> d.failure == Some(DiscoveryDenied))
            && (status == IsAmbiguous <==> d.failure == Some(Ambiguous))
            && (status == SchemaUnsupported <==> d.failure == Some(UnsupportedSchema))
            && (status == LimitExceeded <==> d.failure == Some(ResultLimitExceeded))
            && status != DuplicateToolId
  {
  }

  /** The uses noted as skipped are those that found nothing, each with what was reported for it. */
  lemma {:induction false} SkippedAre(uses: seq<Use>, discoveries: seq<Discovery>)
    requires |uses| == |discoveries|
    ensures forall u | 0 <= u < |uses| && discoveries[u].tools == [] ::
              SkippedFor(uses[u], discoveries[u]) in Unsatisfied(uses, discoveries)
    ensures forall x | x in Unsatisfied(uses, discoveries) ::
              exists u :: 0 <= u < |uses| && discoveries[u].tools == [] && x == SkippedFor(uses[u], discoveries[u])
    decreases |uses|
  {
    if uses != [] {
      var n := |uses| - 1;
      SkippedAre(uses[..n], discoveries[..n]);
      forall x | x in Unsatisfied(uses[..n], discoveries[..n])
        ensures exists u :: 0 <= u < |uses| && discoveries[u].tools == [] && x == SkippedFor(uses[u], discoveries[u])
      {
        var u :| 0 <= u < n && discoveries[..n][u].tools == [] && x == SkippedFor(uses[..n][u], discoveries[..n][u]);
        assert discoveries[u].tools == [];
      }
      forall u | 0 <= u < n && discoveries[u].tools == []
        ensures SkippedFor(uses[u], discoveries[u]) in Unsatisfied(uses[..n], discoveries[..n])
      {
        assert discoveries[..n][u] == discoveries[u] && uses[..n][u] == uses[u];
      }
    }
  }

  function SkippedFor(use: Use, d: Discovery): Skipped {
    match d.failure
    case None => Skipped(use, NoMatch)
    case Some(code) => Skipped(use, code)
  }

  /** Resolving finds the tool with the identifier that no other with it precedes. */
  lemma {:induction false} FirstIsFirst(tools: seq<Tool>, id: string, k: nat)
    requires k < |tools| && tools[k].id == id
    ensures First(tools, id) == Some(tools[k]) || exists j :: 0 <= j < k && First(tools, id) == Some(tools[j])
    ensures (forall j | 0 <= j < k :: tools[j].id != id) ==> First(tools, id) == Some(tools[k])
    decreases |tools|
  {
    if tools[0].id != id {
      FirstIsFirst(tools[1..], id, k - 1);
      assert forall j | 0 < j < |tools| :: tools[j] == tools[1..][j - 1];
    }
  }
}
