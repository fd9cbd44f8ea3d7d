/**
 The call-graph half of the AST policy: which local functions a handler can reach, which of their
 findings end up in its report, and what the report then allows. Each analysed scope comes as its
 findings, its effect and its direct calls, in whatever order the sort gives them.
 */
module CallGraph {
  import opened Wrappers

  datatype Decision = Allow | Risk | CapabilityRequired | Deny

  datatype Template = Template(
    decision: Decision, code: string, message: string, line: Option<int>, capability: Option<string>, scope: string)

  datatype Scope = Scope(findings: seq<Template>, mutating: bool, calls: seq<string>)

  type Scopes = map<string, Scope>

  const MAX_DEPTH := 32
  const MAX_FUNCTIONS := 256

  /* ---------- reachability ---------- */

  /** A chain of calls through known functions that starts at one of the roots. */
  predicate Chain(scopes: Scopes, roots: seq<string>, p: seq<string>) {
    && p != [] && p[0] in roots
    && (forall i :: 0 <= i < |p| ==> p[i] in scopes)
    && (forall i :: 0 < i < |p| ==> p[i] in scopes[p[i - 1]].calls)
  }

  ghost predicate Reachable(scopes: Scopes, roots: seq<string>, name: string) {
    exists p :: Chain(scopes, roots, p) && p[|p| - 1] == name
  }

  predicate DistinctNames(p: seq<string>) {
    forall i, j :: 0 <= i < j < |p| ==> p[i] != p[j]
  }

  datatype Pending = Pending(name: string, depth: nat)

  /** The call chain that put an entry on the stack: its callers, all reached, then the entry itself. */
  ghost predicate Via(scopes: Scopes, roots: seq<string>, reached: set<string>, callers: seq<string>, e: Pending) {
    && |callers| + 1 == e.depth && DistinctNames(callers)
    && (forall c :: c in callers ==> c in reached)
    && (if callers == [] then e.name in roots
        else Chain(scopes, roots, callers) && e.name in scopes[callers[|callers| - 1]].calls)
  }

  ghost predicate Explained(
    scopes: Scopes, roots: seq<string>, reached: set<string>, stack: seq<Pending>, via: seq<seq<string>>)
  {
    |via| == |stack| && forall i :: 0 <= i < |stack| ==> Via(scopes, roots, reached, via[i], stack[i])
  }

  // Reached within the depth limit.
  ghost predicate Near(scopes: Scopes, roots: seq<string>, name: string) {
    exists p :: Chain(scopes, roots, p) && p[|p| - 1] == name && |p| <= MAX_DEPTH
  }

  // Everything a reached function calls, and every root, is reached, on the stack or unknown.
  predicate Closed(scopes: Scopes, roots: seq<string>, reached: set<string>, stack: seq<Pending>) {
    && (forall r :: r in roots && r in scopes ==> r in reached || OnStack(stack, r))
    && (forall f, c :: f in reached && f in scopes && c in scopes[f].calls && c in scopes ==>
        c in reached || OnStack(stack, c))
  }

  predicate OnStack(stack: seq<Pending>, name: string) {
    exists i :: 0 <= i < |stack| && stack[i].name == name
  }

  function Entries(names: seq<string>, reached: set<string>, depth: nat): seq<Pending> {
    if names == [] then []
    else (if names[0] in reached then [] else [Pending(names[0], depth)]) + Entries(names[1..], reached, depth)
  }

  lemma {:induction false} EntriesAre(names: seq<string>, reached: set<string>, depth: nat)
    ensures var es := Entries(names, reached, depth);
            && (forall i :: 0 <= i < |es| ==> es[i].name in names && es[i].name !in reached && es[i].depth == depth)
            && (forall n :: n in names && n !in reached ==> OnStack(es, n))
  {
    if names != [] {
      EntriesAre(names[1..], reached, depth);
      var rest := Entries(names[1..], reached, depth);
      var es := Entries(names, reached, depth);
      forall n | n in names && n !in reached ensures OnStack(es, n) {
        if n == names[0] {
          assert es[0].name == n;
        } else {
          assert n in names[1..];
          var i :| 0 <= i < |rest| && rest[i].name == n;
          assert es[i + |es| - |rest|] == rest[i];
        }
      }
    }
  }

  lemma {:induction false} ClosedReaches(scopes: Scopes, roots: seq<string>, reached: set<string>, p: seq<string>)
    requires Closed(scopes, roots, reached, []) && Chain(scopes, roots, p)
    ensures p[|p| - 1] in reached
    decreases |p|
  {
    if |p| > 1 {
      var q := p[..|p| - 1];
      ClosedReaches(scopes, roots, reached, q);
      assert p[|p| - 1] in scopes[q[|q| - 1]].calls;
    }
  }

  ghost predicate AllNear(scopes: Scopes, roots: seq<string>, reached: set<string>) {
    forall f :: f in reached ==> f in scopes && Near(scopes, roots, f)
  }

  ghost predicate AllReachable(scopes: Scopes, roots: seq<string>, reached: set<string>) {
    forall f :: f in reached <==> Reachable(scopes, roots, f)
  }

  /** What the worklist keeps: the stack is explained, and nothing reachable is forgotten. */
  ghost predicate Searching(
    scopes: Scopes, roots: seq<string>, reached: set<string>, stack: seq<Pending>, via: seq<seq<string>>)
  {
    && Explained(scopes, roots, reached, stack, via)
    && Closed(scopes, roots, reached, stack)
    && AllNear(scopes, roots, reached)
  }

  /** The worklist as a function of the stack: what is reached in the end, and whether a limit stopped it. */
  function Explore(scopes: Scopes, reached: set<string>, stack: seq<Pending>): (set<string>, bool)
    decreases scopes.Keys - reached, |stack|
  {
    if stack == [] then (reached, false)
    else
      var e, rest := stack[|stack| - 1], stack[..|stack| - 1];
      if e.name in reached || e.name !in scopes then Explore(scopes, reached, rest)
      else if e.depth > MAX_DEPTH || |reached| >= MAX_FUNCTIONS then (reached, true)
      else
        var more := reached + {e.name};
        assert e.name in scopes.Keys - reached && e.name !in scopes.Keys - more;
        Explore(scopes, more, rest + Entries(scopes[e.name].calls, more, e.depth + 1))
  }

  function SearchFrom(scopes: Scopes, roots: seq<string>): (set<string>, bool) {
    Explore(scopes, {}, Entries(roots, {}, 1))
  }

  /**
   The worklist ends; without a limit it returns exactly the reachable functions, all of them near and
   few; and it reports a limit only for a chain of distinct functions too deep, or too many functions.
   */
  method CollectReachable(initial: seq<string>, scopes: Scopes) returns (reached: set<string>, limited: bool)
    ensures AllNear(scopes, initial, reached)
    ensures !limited ==> |reached| <= MAX_FUNCTIONS && AllReachable(scopes, initial, reached)
    ensures limited ==> TooDeep(scopes, initial) || TooMany(scopes, initial)
    ensures (reached, limited) == SearchFrom(scopes, initial)
  {
    hide Explained, Closed, AllNear, AllReachable, Searching, TooDeep, TooMany, Entries;
    var pending := Entries(initial, {}, 1);
    ghost var via := Repeat(|pending|, []);
    Start(scopes, initial, pending, via);
    reached, limited := {}, false;
    while pending != []
      invariant Searching(scopes, initial, reached, pending, via) && |via| == |pending| && |reached| <= MAX_FUNCTIONS
      invariant Explore(scopes, reached, pending) == SearchFrom(scopes, initial)
      decreases scopes.Keys - reached, |pending|
    {
      var top := |pending| - 1;
      var e := pending[top];
      ghost var stack, callers := pending, via[top];
      ghost var p := callers + [e.name];
      pending := pending[..top];
      if e.name in reached || e.name !in scopes {
        PopKnown(scopes, initial, reached, stack, via);
        via := via[..top];
        continue;
      }
      PopNew(scopes, initial, reached, stack, via);
      if e.depth > MAX_DEPTH || |reached| >= MAX_FUNCTIONS {
        if |reached| >= MAX_FUNCTIONS {
          WitnessTooMany(scopes, initial, reached, e.name, p);
        }
        limited := true;
        return;
      }
      ghost var before := reached;
      reached := reached + {e.name};
      var children := Entries(scopes[e.name].calls, reached, e.depth + 1);
      Push(scopes, initial, before, stack, via, children);
      assert scopes.Keys - reached < scopes.Keys - before by {
        assert e.name in scopes.Keys - before;
      }
      pending, via := pending + children, via[..top] + Repeat(|children|, p);
    }
    Finish(scopes, initial, reached, via);
  }

  ghost function Repeat(n: nat, p: seq<string>): (r: seq<seq<string>>)
    ensures |r| == n && forall i :: 0 <= i < n ==> r[i] == p
  {
    seq(n, i => p)
  }

  lemma Start(scopes: Scopes, roots: seq<string>, stack: seq<Pending>, via: seq<seq<string>>)
    requires stack == Entries(roots, {}, 1) && via == Repeat(|stack|, [])
    ensures Searching(scopes, roots, {}, stack, via)
  {
    EntriesAre(roots, {}, 1);
  }

  lemma Finish(scopes: Scopes, roots: seq<string>, reached: set<string>, via: seq<seq<string>>)
    requires Searching(scopes, roots, reached, [], via)
    ensures AllReachable(scopes, roots, reached) && AllNear(scopes, roots, reached)
  {
    forall f | Reachable(scopes, roots, f) ensures f in reached {
      var p :| Chain(scopes, roots, p) && p[|p| - 1] == f;
      ClosedReaches(scopes, roots, reached, p);
    }
    forall f | f in reached ensures Reachable(scopes, roots, f) {
      assert Near(scopes, roots, f);
    }
  }

  lemma PopNew(scopes: Scopes, roots: seq<string>, reached: set<string>, stack: seq<Pending>, via: seq<seq<string>>)
    requires Searching(scopes, roots, reached, stack, via) && stack != [] && |via| == |stack|
    requires var n := stack[|stack| - 1].name; n !in reached && n in scopes
    ensures var e := stack[|stack| - 1];
            var p := via[|stack| - 1] + [e.name];
            && Chain(scopes, roots, p) && DistinctNames(p) && |p| == e.depth && p[|p| - 1] == e.name
            && (forall c :: c in p ==> c in reached + {e.name})
            && AllNear(scopes, roots, reached) && (e.depth > MAX_DEPTH ==> TooDeep(scopes, roots))
  {
    hide Closed, AllNear, Near, TooDeep, Chain, DistinctNames;
    var e := stack[|stack| - 1];
    assert Via(scopes, roots, reached, via[|stack| - 1], e) by {
      hide Via;
    }
    hide Explained;
    ExtendChain(scopes, roots, reached, via[|stack| - 1], e);
  }

  lemma ExtendChain(scopes: Scopes, roots: seq<string>, reached: set<string>, callers: seq<string>, e: Pending)
    requires Via(scopes, roots, reached, callers, e) && e.name !in reached && e.name in scopes
    ensures var p := callers + [e.name];
            && Chain(scopes, roots, p) && DistinctNames(p) && |p| == e.depth
            && (forall c :: c in p ==> c in reached + {e.name})
            && (e.depth > MAX_DEPTH ==> TooDeep(scopes, roots))
  {
    var p := callers + [e.name];
    assert Chain(scopes, roots, p);
    forall i, j | 0 <= i < j < |p| ensures p[i] != p[j] {
      assert p[i] in callers;
    }
  }

  ghost predicate TooDeep(scopes: Scopes, roots: seq<string>) {
    exists p :: Chain(scopes, roots, p) && DistinctNames(p) && |p| > MAX_DEPTH
  }

  ghost predicate TooMany(scopes: Scopes, roots: seq<string>) {
    exists s: set<string> :: |s| > MAX_FUNCTIONS && forall f :: f in s ==> Reachable(scopes, roots, f)
  }

  lemma WitnessTooMany(scopes: Scopes, roots: seq<string>, reached: set<string>, name: string, p: seq<string>)
    requires |reached| >= MAX_FUNCTIONS && name !in reached && AllNear(scopes, roots, reached)
    requires Chain(scopes, roots, p) && p[|p| - 1] == name
    ensures TooMany(scopes, roots)
  {
    var s := reached + {name};
    forall f | f in s ensures Reachable(scopes, roots, f) {
      if f in reached {
        assert Near(scopes, roots, f);
      }
    }
    assert |s| > MAX_FUNCTIONS;
  }

  lemma FewEnough(scopes: Scopes, roots: seq<string>, reached: set<string>)
    requires AllReachable(scopes, roots, reached) && |reached| <= MAX_FUNCTIONS
    ensures !TooMany(scopes, roots)
  {
    hide Reachable;
    forall s: set<string> | forall f :: f in s ==> Reachable(scopes, roots, f) ensures |s| <= MAX_FUNCTIONS {
      assert s <= reached;
      assert reached == s + (reached - s);
    }
  }

  lemma PopKnown(scopes: Scopes, roots: seq<string>, reached: set<string>, stack: seq<Pending>, via: seq<seq<string>>)
    requires Searching(scopes, roots, reached, stack, via) && stack != [] && |via| == |stack|
    requires var n := stack[|stack| - 1].name; n in reached || n !in scopes
    ensures Searching(scopes, roots, reached, stack[..|stack| - 1], via[..|stack| - 1])
  {
    PopCloses(scopes, roots, reached, stack);
    hide Closed, AllNear, Via;
  }

  lemma PopCloses(scopes: Scopes, roots: seq<string>, reached: set<string>, stack: seq<Pending>)
    requires Closed(scopes, roots, reached, stack) && stack != []
    requires var n := stack[|stack| - 1].name; n in reached || n !in scopes
    ensures Closed(scopes, roots, reached, stack[..|stack| - 1])
  {
    StillOnStack(stack);
    hide OnStack;
  }

  lemma PushCloses(scopes: Scopes, roots: seq<string>, before: set<string>, stack: seq<Pending>, children: seq<Pending>)
    requires Closed(scopes, roots, before, stack) && stack != []
    requires var e := stack[|stack| - 1];
             && e.name in scopes
             && forall c :: c in scopes[e.name].calls && c !in before + {e.name} ==> OnStack(children, c)
    ensures Closed(scopes, roots, before + {stack[|stack| - 1].name}, stack[..|stack| - 1] + children)
  {
    StillOnStack(stack);
    OnEither(stack[..|stack| - 1], children);
    hide OnStack;
  }

  lemma StillOnStack(stack: seq<Pending>)
    requires stack != []
    ensures forall n :: OnStack(stack, n) ==> n == stack[|stack| - 1].name || OnStack(stack[..|stack| - 1], n)
  {
    var rest := stack[..|stack| - 1];
    forall n | OnStack(stack, n) && n != stack[|stack| - 1].name ensures OnStack(rest, n) {
      var i :| 0 <= i < |stack| && stack[i].name == n;
      assert rest[i] == stack[i];
    }
  }

  lemma OnEither(a: seq<Pending>, b: seq<Pending>)
    ensures forall n :: OnStack(a, n) || OnStack(b, n) ==> OnStack(a + b, n)
  {
    forall n | OnStack(a, n) || OnStack(b, n) ensures OnStack(a + b, n) {
      if OnStack(a, n) {
        var i :| 0 <= i < |a| && a[i].name == n;
        assert (a + b)[i].name == n;
      } else {
        var i :| 0 <= i < |b| && b[i].name == n;
        assert (a + b)[|a| + i].name == n;
      }
    }
  }

  lemma Push(
    scopes: Scopes, roots: seq<string>, before: set<string>, stack: seq<Pending>, via: seq<seq<string>>,
    children: seq<Pending>)
    requires Searching(scopes, roots, before, stack, via) && stack != [] && |via| == |stack|
    requires var e := stack[|stack| - 1];
             && e.name !in before && e.name in scopes && e.depth <= MAX_DEPTH
             && children == Entries(scopes[e.name].calls, before + {e.name}, e.depth + 1)
    ensures var e := stack[|stack| - 1];
            var rest := via[..|stack| - 1];
            Searching(scopes, roots, before + {e.name}, stack[..|stack| - 1] + children,
                      rest + Repeat(|children|, via[|stack| - 1] + [e.name]))
  {
    var e := stack[|stack| - 1];
    var p := via[|stack| - 1] + [e.name];
    var reached := before + {e.name};
    hide Entries, OnStack, DistinctNames, Closed, Explained, AllNear, Chain, Via;
    PopNew(scopes, roots, before, stack, via);
    EntriesAre(scopes[e.name].calls, reached, e.depth + 1);
    PushCloses(scopes, roots, before, stack, children);
    PushExplains(scopes, roots, before, stack, via, e, p, children);
    OneMoreNear(scopes, roots, before, e.name, p);
  }

  lemma OneMoreNear(scopes: Scopes, roots: seq<string>, before: set<string>, name: string, p: seq<string>)
    requires AllNear(scopes, roots, before) && Chain(scopes, roots, p) && p[|p| - 1] == name && |p| <= MAX_DEPTH
    ensures AllNear(scopes, roots, before + {name})
  {
    assert Near(scopes, roots, name);
  }

  lemma PushExplains(
    scopes: Scopes, roots: seq<string>, before: set<string>, stack: seq<Pending>, via: seq<seq<string>>,
    e: Pending, p: seq<string>, children: seq<Pending>)
    requires Explained(scopes, roots, before, stack, via) && stack != []
    requires Chain(scopes, roots, p) && DistinctNames(p) && |p| == e.depth && p[|p| - 1] == e.name
    requires forall c :: c in p ==> c in before + {e.name}
    requires forall i :: 0 <= i < |children| ==>
               children[i].name in scopes[e.name].calls && children[i].depth == e.depth + 1
    ensures Explained(scopes, roots, before + {e.name}, stack[..|stack| - 1] + children,
                      via[..|stack| - 1] + Repeat(|children|, p))
  {
    var rest := stack[..|stack| - 1];
    var all, via1 := rest + children, via[..|stack| - 1] + Repeat(|children|, p);
    forall i | 0 <= i < |all| ensures Via(scopes, roots, before + {e.name}, via1[i], all[i]) {
      if i < |rest| {
        assert Via(scopes, roots, before, via[i], stack[i]);
      }
    }
  }

  /* ---------- findings ---------- */

  function Resolved(t: Template, capabilities: set<string>): Decision {
    var held := t.capability.Some? && t.capability.value != "" && t.capability.value in capabilities;
    if t.decision.CapabilityRequired? && held then Risk else t.decision
  }

  predicate Blocks(d: Decision) {
    d.Deny? || d.CapabilityRequired?
  }

  datatype FindingKey = FindingKey(code: string, line: Option<int>, capability: Option<string>, scope: string)

  function KeyOf(t: Template): FindingKey {
    FindingKey(t.code, t.line, t.capability, t.scope)
  }

  predicate Allowed(findings: seq<Template>) {
    forall i :: 0 <= i < |findings| ==> !Blocks(findings[i].decision)
  }

  /** The decision of every finding is fixed by its code (for one source type). */
  ghost predicate DecidedByCode(decide: string -> Decision, templates: seq<Template>) {
    forall i :: 0 <= i < |templates| ==> templates[i].decision == decide(templates[i].code)
  }

  predicate Blocked(templates: seq<Template>, capabilities: set<string>) {
    exists i :: 0 <= i < |templates| && Blocks(Resolved(templates[i], capabilities))
  }

  function Made(t: Template, capabilities: set<string>): Template {
    t.(decision := Resolved(t, capabilities))
  }

  predicate HasKey(findings: seq<Template>, k: FindingKey) {
    exists i :: 0 <= i < |findings| && KeyOf(findings[i]) == k
  }

  // Made from the first template of its key.
  predicate FromOne(templates: seq<Template>, capabilities: set<string>, f: Template) {
    exists i ::
      && 0 <= i < |templates| && f == Made(templates[i], capabilities)
      && forall j :: 0 <= j < i ==> KeyOf(templates[j]) != KeyOf(f)
  }

  /** findings has one finding for each key of the templates, made from the first template of that key. */
  ghost predicate Represents(findings: seq<Template>, templates: seq<Template>, capabilities: set<string>) {
    && (forall i, j :: 0 <= i < j < |findings| ==> KeyOf(findings[i]) != KeyOf(findings[j]))
    && (forall i :: 0 <= i < |findings| ==> FromOne(templates, capabilities, findings[i]))
    && (forall i :: 0 <= i < |templates| ==> HasKey(findings, KeyOf(templates[i])))
  }

  // What was made from the first template of its key still is when a template follows.
  lemma StillFromFirst(templates: seq<Template>, capabilities: set<string>, t: Template, f: Template)
    requires FromOne(templates, capabilities, f)
    ensures FromOne(templates + [t], capabilities, f)
  {
    var more := templates + [t];
    var k :| 0 <= k < |templates| && f == Made(templates[k], capabilities)
             && forall j :: 0 <= j < k ==> KeyOf(templates[j]) != KeyOf(f);
    assert more[k] == templates[k] && forall j :: 0 <= j < k ==> more[j] == templates[j];
  }

  lemma StillHasKey(findings: seq<Template>, f: Template, k: FindingKey)
    requires HasKey(findings, k)
    ensures HasKey(findings + [f], k)
  {
    var i :| 0 <= i < |findings| && KeyOf(findings[i]) == k;
    assert (findings + [f])[i] == findings[i];
  }

  lemma RepresentsSeen(findings: seq<Template>, templates: seq<Template>, capabilities: set<string>, t: Template)
    requires Represents(findings, templates, capabilities) && HasKey(findings, KeyOf(t))
    ensures Represents(findings, templates + [t], capabilities)
  {
    hide FromOne, HasKey;
    forall i | 0 <= i < |findings| ensures FromOne(templates + [t], capabilities, findings[i]) {
      StillFromFirst(templates, capabilities, t, findings[i]);
    }
  }

  lemma RepresentsNew(findings: seq<Template>, templates: seq<Template>, capabilities: set<string>, t: Template)
    requires Represents(findings, templates, capabilities) && !HasKey(findings, KeyOf(t))
    ensures Represents(findings + [Made(t, capabilities)], templates + [t], capabilities)
  {
    var f := Made(t, capabilities);
    var more, added := templates + [t], findings + [f];
    NewKey(findings, templates, capabilities, t);
    assert forall k :: 0 <= k < |findings| ==> KeyOf(findings[k]) != KeyOf(f);
    assert KeyOf(added[|findings|]) == KeyOf(t);
    assert HasKey(added, KeyOf(t));
    hide FromOne, HasKey;
    forall i | 0 <= i < |findings| ensures FromOne(more, capabilities, added[i]) {
      StillFromFirst(templates, capabilities, t, findings[i]);
    }
    forall i | 0 <= i < |templates| ensures HasKey(added, KeyOf(more[i])) {
      StillHasKey(findings, f, KeyOf(templates[i]));
    }
  }

  lemma NewKey(findings: seq<Template>, templates: seq<Template>, capabilities: set<string>, t: Template)
    requires Represents(findings, templates, capabilities) && !HasKey(findings, KeyOf(t))
    ensures FromOne(templates + [t], capabilities, Made(t, capabilities))
  {
    var more := templates + [t];
    forall j | 0 <= j < |templates| ensures KeyOf(more[j]) != KeyOf(t) {
      assert HasKey(findings, KeyOf(templates[j]));
    }
    assert more[|templates|] == t;
  }

  /**
   Leaving out later findings with a key already seen changes neither which keys occur nor whether
   anything blocks.
   */
  method Materialize(templates: seq<Template>, capabilities: set<string>) returns (findings: seq<Template>)
    ensures Represents(findings, templates, capabilities)
  {
    hide Represents;
    findings := [];
    var seen: set<FindingKey> := {};
    assert Represents([], [], capabilities) by { RepresentsNone(capabilities); }
    var i := 0;
    while i < |templates|
      invariant i <= |templates| && Represents(findings, templates[..i], capabilities)
      invariant forall k :: k in seen <==> HasKey(findings, k)
    {
      var t := templates[i];
      assert templates[..i] + [t] == templates[..i + 1];
      if KeyOf(t) !in seen {
        RepresentsNew(findings, templates[..i], capabilities, t);
        seen := seen + {KeyOf(t)};
        KeysOfAppend(findings, Made(t, capabilities));
        findings := findings + [Made(t, capabilities)];
      } else {
        RepresentsSeen(findings, templates[..i], capabilities, t);
      }
      i := i + 1;
    }
    assert templates[..i] == templates;
  }

  lemma RepresentsNone(capabilities: set<string>)
    ensures Represents([], [], capabilities)
  {
  }

  lemma KeysOfAppend(findings: seq<Template>, f: Template)
    ensures forall k :: HasKey(findings + [f], k) <==> HasKey(findings, k) || k == KeyOf(f)
  {
    var g := findings + [f];
    forall k ensures HasKey(g, k) <==> HasKey(findings, k) || k == KeyOf(f) {
      if HasKey(findings, k) {
        var i :| 0 <= i < |findings| && KeyOf(findings[i]) == k;
        assert g[i] == findings[i];
      }
      assert KeyOf(g[|findings|]) == KeyOf(f);
    }
  }

  /** De-duplication ignores the decision, which is harmless because the code fixes the decision. */
  lemma SameBlocking(
    findings: seq<Template>, templates: seq<Template>, capabilities: set<string>, decide: string -> Decision)
    requires DecidedByCode(decide, templates) && Represents(findings, templates, capabilities)
    ensures Allowed(findings) <==> !Blocked(templates, capabilities)
  {
    if k: nat :| k < |templates| && Blocks(Resolved(templates[k], capabilities)) {
      BlockingIsShown(findings, templates, capabilities, decide, k);
    }
    if !Blocked(templates, capabilities) {
      forall i | 0 <= i < |findings| ensures !Blocks(findings[i].decision) {
        assert FromOne(templates, capabilities, findings[i]);
      }
    }
  }

  lemma BlockingIsShown(
    findings: seq<Template>, templates: seq<Template>, capabilities: set<string>, decide: string -> Decision, k: nat)
    requires DecidedByCode(decide, templates) && Represents(findings, templates, capabilities)
    requires k < |templates| && Blocks(Resolved(templates[k], capabilities))
    ensures !Allowed(findings)
  {
    assert HasKey(findings, KeyOf(templates[k]));
    var i :| 0 <= i < |findings| && KeyOf(findings[i]) == KeyOf(templates[k]);
    assert FromOne(templates, capabilities, findings[i]);
    var j :| 0 <= j < |templates| && findings[i] == Made(templates[j], capabilities);
    hide Represents;
    assert KeyOf(templates[j]) == KeyOf(templates[k]);
    assert templates[j].decision == decide(templates[j].code) == templates[k].decision;
    assert Blocks(findings[i].decision);
  }

  /* ---------- one handler's report ---------- */

  predicate SomeBlocked(names: set<string>, scopes: Scopes, capabilities: set<string>) {
    exists n :: n in names && n in scopes && Blocked(scopes[n].findings, capabilities)
  }

  predicate FoundIn(names: set<string>, scopes: Scopes, t: Template) {
    exists n :: n in names && n in scopes && t in scopes[n].findings
  }

  predicate SomeMutating(names: set<string>, scopes: Scopes) {
    exists n :: n in names && n in scopes && scopes[n].mutating
  }

  lemma BlockedConcat(a: seq<Template>, b: seq<Template>, capabilities: set<string>)
    ensures Blocked(a + b, capabilities) <==> Blocked(a, capabilities) || Blocked(b, capabilities)
  {
    var c := a + b;
    if Blocked(a, capabilities) {
      var i :| 0 <= i < |a| && Blocks(Resolved(a[i], capabilities));
      assert c[i] == a[i];
    }
    if Blocked(b, capabilities) {
      var i :| 0 <= i < |b| && Blocks(Resolved(b[i], capabilities));
      assert c[|a| + i] == b[i];
    }
  }

  lemma DecidedConcat(decide: string -> Decision, a: seq<Template>, b: seq<Template>)
    requires DecidedByCode(decide, a) && DecidedByCode(decide, b)
    ensures DecidedByCode(decide, a + b)
  {
  }

  ghost predicate AllDecided(decide: string -> Decision, scopes: Scopes) {
    forall n :: n in scopes ==> DecidedByCode(decide, scopes[n].findings)
  }

  /** The findings and the effect of the given scopes together. */
  method Gather(names: set<string>, scopes: Scopes, capabilities: set<string>, ghost decide: string -> Decision)
    returns (templates: seq<Template>, mutating: bool)
    requires names <= scopes.Keys && AllDecided(decide, scopes)
    ensures Blocked(templates, capabilities) <==> SomeBlocked(names, scopes, capabilities)
    ensures mutating <==> SomeMutating(names, scopes)
    ensures DecidedByCode(decide, templates)
    ensures forall t :: t in templates <==> FoundIn(names, scopes, t)
  {
    hide Blocked, DecidedByCode;
    templates, mutating := [], false;
    assert DecidedByCode(decide, []) && !Blocked([], capabilities) by { NothingGathered(decide, capabilities); }
    var left := names;
    while left != {}
      invariant left <= names && DecidedByCode(decide, templates)
      invariant Blocked(templates, capabilities) <==> SomeBlocked(names - left, scopes, capabilities)
      invariant mutating <==> SomeMutating(names - left, scopes)
      invariant forall t :: t in templates <==> FoundIn(names - left, scopes, t)
      decreases left
    {
      var name :| name in left;
      BlockedConcat(templates, scopes[name].findings, capabilities);
      DecidedConcat(decide, templates, scopes[name].findings);
      assert names - (left - {name}) == (names - left) + {name};
      templates := templates + scopes[name].findings;
      mutating := mutating || scopes[name].mutating;
      left := left - {name};
    }
    assert names - left == names;
  }

  lemma NothingGathered(decide: string -> Decision, capabilities: set<string>)
    ensures DecidedByCode(decide, []) && !Blocked([], capabilities)
  {
  }

  const LIMIT := "analysis.call_graph_limit"
  const MISSING := "handler.missing"

  function Denial(code: string, scope: string): Template {
    Template(Deny, code, code, None, None, scope)
  }

  lemma DenialBlocks(code: string, scope: string, capabilities: set<string>, decide: string -> Decision)
    requires decide(code) == Deny
    ensures Blocked([Denial(code, scope)], capabilities) && DecidedByCode(decide, [Denial(code, scope)])
  {
    assert Blocks(Resolved([Denial(code, scope)][0], capabilities));
  }

  /** The findings and effect of all functions reachable from the roots, with the limit finding. */
  method Survey(
    roots: seq<string>, scopes: Scopes, origin: string, capabilities: set<string>, ghost decide: string -> Decision)
    returns (templates: seq<Template>, mutating: bool, limited: bool, ghost reached: set<string>)
    requires AllDecided(decide, scopes) && decide(LIMIT) == Deny
    ensures DecidedByCode(decide, templates) && reached <= scopes.Keys
    ensures AllNear(scopes, roots, reached)
    ensures !limited ==> AllReachable(scopes, roots, reached) && !TooMany(scopes, roots)
    ensures limited ==> TooDeep(scopes, roots) || TooMany(scopes, roots)
    ensures limited == SearchFrom(scopes, roots).1
    ensures Blocked(templates, capabilities) <==> limited || SomeBlocked(reached, scopes, capabilities)
    ensures mutating <==> SomeMutating(reached, scopes)
    ensures forall t :: t in templates <==> FoundIn(reached, scopes, t) || (limited && t == Denial(LIMIT, origin))
  {
    hide Blocked, DecidedByCode, AllReachable, SomeBlocked, SomeMutating, FoundIn, Near, TooDeep, TooMany, SearchFrom;
    var found, over := CollectReachable(roots, scopes);
    if !over {
      FewEnough(scopes, roots, found);
    }
    reached, limited := found, over;
    templates, mutating := Gather(found, scopes, capabilities, decide);
    if limited {
      DenialBlocks(LIMIT, origin, capabilities, decide);
      BlockedConcat(templates, [Denial(LIMIT, origin)], capabilities);
      DecidedConcat(decide, templates, [Denial(LIMIT, origin)]);
      templates := templates + [Denial(LIMIT, origin)];
    }
  }

  // Some scope that counts for the handler, module level included, has a blocking finding.
  ghost predicate AnyBlocks(m: Scope, scopes: Scopes, handler: string, capabilities: set<string>) {
    || Blocked(m.findings, capabilities)
    || exists f ::
         && (Reachable(scopes, m.calls, f) || Reachable(scopes, [handler], f))
         && f in scopes && Blocked(scopes[f].findings, capabilities)
  }

  /** A finding that refuses a handler: denied, or it needs a capability that is not granted. */
  predicate Refusing(t: Template, capabilities: set<string>) {
    || t.decision.Deny?
    || (t.decision.CapabilityRequired? &&
        (t.capability.None? || t.capability.value == "" || t.capability.value !in capabilities))
  }

  /** A finding at module level or of a function the module or the handler can reach. */
  ghost predicate Concerns(m: Scope, scopes: Scopes, handler: string, t: Template) {
    || t in m.findings
    || exists f ::
         && (Reachable(scopes, m.calls, f) || Reachable(scopes, [handler], f))
         && f in scopes && t in scopes[f].findings
  }

  // A finding as it is shown: a granted capability is only a risk, and everything else is as analysed.
  predicate ShownAs(t: Template, capabilities: set<string>, f: Template) {
    && KeyOf(f) == KeyOf(t) && f.message == t.message
    && (f.decision == t.decision || (t.decision.CapabilityRequired? && f.decision.Risk?))
    && (Refusing(f, capabilities) <==> Refusing(t, capabilities))
  }

  /** Where a finding of a report comes from. */
  ghost predicate Sourced(m: Scope, scopes: Scopes, handler: string, capabilities: set<string>, f: Template) {
    exists t ::
      && (Concerns(m, scopes, handler, t) || t.code == LIMIT || t.code == MISSING)
      && ShownAs(t, capabilities, f)
  }

  predicate Unlimited(m: Scope, scopes: Scopes, handler: string) {
    !SearchFrom(scopes, m.calls).1 && (handler in scopes ==> !SearchFrom(scopes, [handler]).1)
  }

  /** What it takes for a handler to be allowed. */
  ghost predicate Permits(m: Scope, scopes: Scopes, handler: string, capabilities: set<string>) {
    && handler in scopes && Unlimited(m, scopes, handler)
    && forall t :: Concerns(m, scopes, handler, t) ==> !Refusing(t, capabilities)
  }

  /** Granting more capabilities never turns an allowed handler into a refused one. */
  lemma MoreCapabilitiesPermitMore(m: Scope, scopes: Scopes, handler: string, a: set<string>, b: set<string>)
    requires a <= b && Permits(m, scopes, handler, a)
    ensures Permits(m, scopes, handler, b)
  {
    hide Concerns;
    forall t | Concerns(m, scopes, handler, t) ensures !Refusing(t, b) {
      assert !Refusing(t, a);
    }
  }

  lemma BlockedRefuses(findings: seq<Template>, capabilities: set<string>)
    ensures Blocked(findings, capabilities) <==> exists t :: t in findings && Refusing(t, capabilities)
  {
    if Blocked(findings, capabilities) {
      var i :| 0 <= i < |findings| && Blocks(Resolved(findings[i], capabilities));
      assert findings[i] in findings && Refusing(findings[i], capabilities);
    }
    if t :| t in findings && Refusing(t, capabilities) {
      var i :| 0 <= i < |findings| && findings[i] == t;
      assert Blocks(Resolved(findings[i], capabilities));
    }
  }

  lemma AnyBlocksRefuses(m: Scope, scopes: Scopes, handler: string, capabilities: set<string>)
    ensures AnyBlocks(m, scopes, handler, capabilities) <==>
            exists t :: Concerns(m, scopes, handler, t) && Refusing(t, capabilities)
  {
    hide Reachable, Blocked, Refusing;
    BlockedRefuses(m.findings, capabilities);
    forall f | f in scopes
      ensures Blocked(scopes[f].findings, capabilities) <==>
              exists t :: t in scopes[f].findings && Refusing(t, capabilities)
    {
      BlockedRefuses(scopes[f].findings, capabilities);
    }
  }

  ghost predicate AnyMutates(m: Scope, scopes: Scopes, handler: string) {
    || m.mutating
    || exists f ::
         && (Reachable(scopes, m.calls, f) || Reachable(scopes, [handler], f))
         && f in scopes && scopes[f].mutating
  }

  /**
   The report allows a handler exactly when it exists, no search hit a limit and nothing it can reach
   blocks. Short of a limit its effect is mutating exactly when something it can reach is; at a limit the
   effect is never overstated. More functions than the cap always hit the limit, and only they or a chain
   of distinct functions deeper than the cap do.
   */
  method HandlerReport(
    m: Scope, scopes: Scopes, handler: string, capabilities: set<string>, ghost decide: string -> Decision)
    returns (findings: seq<Template>, mutating: bool, limited: bool)
    requires AllDecided(decide, scopes) && DecidedByCode(decide, m.findings)
    requires decide(LIMIT) == Deny && decide(MISSING) == Deny
    ensures limited == !Unlimited(m, scopes, handler)
    ensures Allowed(findings) <==> Permits(m, scopes, handler, capabilities)
    ensures forall f :: f in findings ==> Sourced(m, scopes, handler, capabilities, f)
    ensures !limited ==> forall t :: Concerns(m, scopes, handler, t) ==> HasKey(findings, KeyOf(t))
    ensures mutating ==> AnyMutates(m, scopes, handler)
    ensures !limited ==> (mutating <==> AnyMutates(m, scopes, handler))
    ensures TooMany(scopes, m.calls) || TooMany(scopes, [handler]) ==> limited
    ensures limited ==>
              || TooMany(scopes, m.calls) || TooMany(scopes, [handler])
              || TooDeep(scopes, m.calls) || TooDeep(scopes, [handler])
  {
    hide Blocked, DecidedByCode, Allowed, Represents, SomeBlocked, SomeMutating, AnyBlocks, AnyMutates, AllDecided;
    hide AllReachable, AllNear, TooMany, TooDeep, SearchFrom, Concerns, Refusing, FoundIn, HasKey;
    AnyBlocksRefuses(m, scopes, handler, capabilities);
    var below, effect, limit, reached := Survey(m.calls, scopes, "<module>", capabilities, decide);
    BlockedConcat(m.findings, below, capabilities);
    DecidedConcat(decide, m.findings, below);
    var templates := m.findings + below;
    mutating := m.mutating || effect;
    limited := limit;
    if handler !in scopes {
      DenialBlocks(MISSING, handler, capabilities, decide);
      BlockedConcat(templates, [Denial(MISSING, handler)], capabilities);
      DecidedConcat(decide, templates, [Denial(MISSING, handler)]);
      templates := templates + [Denial(MISSING, handler)];
      Combine(m, scopes, handler, capabilities, reached, {});
      EffectIsReal(m, scopes, handler, reached, {});
      FoundConcerns(m, scopes, handler, reached, {});
      NothingFromUnknown(scopes, handler);
    } else {
      var own, effect1, limit1, reached1 := Survey([handler], scopes, handler, capabilities, decide);
      BlockedConcat(templates, own, capabilities);
      DecidedConcat(decide, templates, own);
      templates := templates + own;
      mutating := mutating || effect1;
      limited := limited || limit1;
      Combine(m, scopes, handler, capabilities, reached, reached1);
      EffectIsReal(m, scopes, handler, reached, reached1);
      FoundConcerns(m, scopes, handler, reached, reached1);
    }
    findings := Materialize(templates, capabilities);
    Shown(m, scopes, handler, capabilities, templates, findings);
    SameBlocking(findings, templates, capabilities, decide);
  }

  // The templates gathered are those that concern the handler, and denials.
  ghost predicate Gathered(m: Scope, scopes: Scopes, handler: string, templates: seq<Template>) {
    forall t :: t in templates ==> Concerns(m, scopes, handler, t) || t.code == LIMIT || t.code == MISSING
  }

  lemma Shown(
    m: Scope, scopes: Scopes, handler: string, capabilities: set<string>, templates: seq<Template>,
    findings: seq<Template>)
    requires Gathered(m, scopes, handler, templates) && Represents(findings, templates, capabilities)
    ensures forall f :: f in findings ==> Sourced(m, scopes, handler, capabilities, f)
    ensures forall t :: t in templates ==> HasKey(findings, KeyOf(t))
  {
    hide Concerns;
    forall f | f in findings ensures Sourced(m, scopes, handler, capabilities, f) {
      assert FromOne(templates, capabilities, f);
      var i :| 0 <= i < |templates| && f == Made(templates[i], capabilities);
      assert templates[i] in templates && ShownAs(templates[i], capabilities, f);
    }
  }

  // What the searches found concerns the handler, and is everything that does when they were complete.
  lemma FoundConcerns(m: Scope, scopes: Scopes, handler: string, a: set<string>, b: set<string>)
    requires AllNear(scopes, m.calls, a) && (b == {} || AllNear(scopes, [handler], b))
    ensures forall t :: t in m.findings || FoundIn(a, scopes, t) || FoundIn(b, scopes, t) ==>
                          Concerns(m, scopes, handler, t)
    ensures AllReachable(scopes, m.calls, a) && (handler in scopes ==> AllReachable(scopes, [handler], b)) ==>
              forall t :: Concerns(m, scopes, handler, t) ==>
                t in m.findings || FoundIn(a, scopes, t) || FoundIn(b, scopes, t)
    ensures forall t :: !FoundIn({}, scopes, t)
  {
    hide Chain;
    assert forall f :: f in a ==> Near(scopes, m.calls, f);
    assert forall f :: f in b ==> Near(scopes, [handler], f);
    assert forall f :: f in a ==> Reachable(scopes, m.calls, f);
    assert forall f :: f in b ==> Reachable(scopes, [handler], f);
    NoUnknownReached(scopes, handler);
  }

  lemma NoUnknownReached(scopes: Scopes, handler: string)
    ensures handler !in scopes ==> forall f :: !Reachable(scopes, [handler], f)
  {
  }

  // Whatever was reached is reachable, also when a search hit its limit.
  lemma EffectIsReal(m: Scope, scopes: Scopes, handler: string, a: set<string>, b: set<string>)
    requires AllNear(scopes, m.calls, a) && (b == {} || AllNear(scopes, [handler], b))
    ensures m.mutating || SomeMutating(a, scopes) || SomeMutating(b, scopes) ==> AnyMutates(m, scopes, handler)
  {
    hide Chain;
    if SomeMutating(a, scopes) {
      var f :| f in a && f in scopes && scopes[f].mutating;
      assert Near(scopes, m.calls, f);
      assert Reachable(scopes, m.calls, f);
    }
    if SomeMutating(b, scopes) {
      var f :| f in b && f in scopes && scopes[f].mutating;
      assert Near(scopes, [handler], f);
      assert Reachable(scopes, [handler], f);
    }
  }

  lemma NothingFromUnknown(scopes: Scopes, handler: string)
    requires handler !in scopes
    ensures !TooMany(scopes, [handler])
  {
    forall f ensures !Reachable(scopes, [handler], f) {
    }
    FewEnough(scopes, [handler], {});
  }

  // From the two reached sets to reachability.
  lemma Combine(m: Scope, scopes: Scopes, handler: string, capabilities: set<string>, a: set<string>, b: set<string>)
    ensures && AllReachable(scopes, m.calls, a)
            && (if handler in scopes then AllReachable(scopes, [handler], b) else b == {}) ==>
              && (AnyBlocks(m, scopes, handler, capabilities) <==>
                  || Blocked(m.findings, capabilities)
                  || SomeBlocked(a, scopes, capabilities) || SomeBlocked(b, scopes, capabilities))
              && (AnyMutates(m, scopes, handler) <==> m.mutating || SomeMutating(a, scopes) || SomeMutating(b, scopes))
    ensures !SomeBlocked({}, scopes, capabilities) && !SomeMutating({}, scopes)
  {
    hide Blocked;
    if handler !in scopes {
      forall f ensures !Reachable(scopes, [handler], f) {
      }
    }
  }
}
