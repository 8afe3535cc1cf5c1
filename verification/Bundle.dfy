/** BundleIntake: gate the requested specs, order them by Kahn's algorithm, and queue their task rows. */
module Bundle {
  import opened Models
  import opened Ledger
  import opened DependencyGraph

  datatype DependsOn = Unset | Single(slug: string) | Listed(slugs: seq<string>)

  datatype Spec = Spec(
    requirementsApproved: bool, designApproved: bool, tasksApproved: bool,
    independent: bool, dependsOn: DependsOn, lintClean: bool)

  datatype Exclusion = NotFound | MissingApproval | BothAttested | NeitherAttested | LintRefused

  datatype ExclusionRecord = ExclusionRecord(slug: string, reason: Exclusion)

  datatype Resolution =
    | Resolved(ordered: seq<string>, excluded: seq<ExclusionRecord>)
    | CycleError(cyclic: seq<string>)

  function Deps(d: DependsOn): seq<string> {
    match d
    case Unset => []
    case Single(s) => if s == "" then [] else [s]
    case Listed(ss) => ss
  }

  predicate AllApproved(s: Spec) { s.requirementsApproved && s.designApproved && s.tasksApproved }

  /** Exactly one of `independent` and a non-empty `depends_on`. */
  function ValidateAttestation(s: Spec): Option<Exclusion> {
    if s.independent && Deps(s.dependsOn) != [] then Some(BothAttested)
    else if !s.independent && Deps(s.dependsOn) == [] then Some(NeitherAttested)
    else None
  }

  function Gate(specs: map<string, Spec>, lint: bool, slug: string): Option<Exclusion> {
    if slug !in specs then Some(NotFound)
    else if !AllApproved(specs[slug]) then Some(MissingApproval)
    else if ValidateAttestation(specs[slug]).Some? then ValidateAttestation(specs[slug])
    else if lint && !specs[slug].lintClean then Some(LintRefused)
    else None
  }

  // ------------------------------------------------------------------ what a spec says, field by field

  /** The spec names `d` as a dependency. */
  predicate Declares(s: Spec, d: string) {
    match s.dependsOn
    case Unset => false
    case Single(one) => d == one && d != ""
    case Listed(all) => d in all
  }

  /** The declared dependencies in order, as a task row records them. */
  predicate RecordsDeps(s: Spec, row: seq<string>) {
    && (s.dependsOn.Unset? ==> row == [])
    && (s.dependsOn.Single? ==> row == if s.dependsOn.slug == "" then [] else [s.dependsOn.slug])
    && (s.dependsOn.Listed? ==> row == s.dependsOn.slugs)
  }

  ghost predicate DeclaresSome(s: Spec) { exists d :: Declares(s, d) }

  /** The spec exists, is approved three times, says either that it is independent or what it depends on, and is
      clean if the manifest lint is on. */
  ghost predicate Admissible(specs: map<string, Spec>, lint: bool, s: string) {
    && s in specs
    && specs[s].requirementsApproved && specs[s].designApproved && specs[s].tasksApproved
    && (specs[s].independent <==> !DeclaresSome(specs[s]))
    && (lint ==> specs[s].lintClean)
  }

  /** Why a spec is refused: the first of the gates, in this order, that it does not pass. */
  ghost predicate RefusedFor(specs: map<string, Spec>, lint: bool, s: string, reason: Exclusion) {
    match reason
    case NotFound => s !in specs
    case MissingApproval =>
      s in specs && !(specs[s].requirementsApproved && specs[s].designApproved && specs[s].tasksApproved)
    case BothAttested => Approved(specs, s) && specs[s].independent && DeclaresSome(specs[s])
    case NeitherAttested => Approved(specs, s) && !specs[s].independent && !DeclaresSome(specs[s])
    case LintRefused => lint && Admissible(specs, false, s) && !specs[s].lintClean
  }

  ghost predicate Approved(specs: map<string, Spec>, s: string) {
    s in specs && specs[s].requirementsApproved && specs[s].designApproved && specs[s].tasksApproved
  }

  lemma DepsAre(s: Spec)
    ensures RecordsDeps(s, Deps(s.dependsOn))
    ensures forall d :: d in Deps(s.dependsOn) <==> Declares(s, d)
    ensures Deps(s.dependsOn) == [] <==> !DeclaresSome(s)
  {
    if Deps(s.dependsOn) != [] { assert Declares(s, Deps(s.dependsOn)[0]); }
  }

  lemma GateMeans(specs: map<string, Spec>, lint: bool, s: string)
    ensures Gate(specs, lint, s) == None <==> Admissible(specs, lint, s)
    ensures forall reason :: Gate(specs, lint, s) == Some(reason) <==> RefusedFor(specs, lint, s, reason)
  {
    if s in specs { DepsAre(specs[s]); }
    hide Deps, Declares, DeclaresSome;
  }

  /** The dependency graph over the requested specs that pass every gate. */
  ghost function ValidGraph(specs: map<string, Spec>, lint: bool, slugs: seq<string>): Graph {
    map s | s in slugs && s in specs && Gate(specs, lint, s) == None :: Deps(specs[s].dependsOn)
  }

  function Excluded(specs: map<string, Spec>, lint: bool, slugs: seq<string>): seq<ExclusionRecord> {
    if slugs == [] then []
    else
      var s := slugs[|slugs| - 1];
      Excluded(specs, lint, slugs[..|slugs| - 1])
      + if Gate(specs, lint, s).Some? then [ExclusionRecord(s, Gate(specs, lint, s).value)] else []
  }

  function RefusedSlugs(es: seq<ExclusionRecord>): seq<string> {
    if es == [] then [] else RefusedSlugs(es[..|es| - 1]) + [es[|es| - 1].slug]
  }

  /** How often `x` occurs. */
  function Times(s: seq<string>, x: string): nat { multiset(s)[x] }

  /** The exclusion records hold exactly the requested slugs that some gate refuses, each with the reason of the
      first such gate, and as often as it was requested. */
  ghost predicate ExcludesExactly(specs: map<string, Spec>, lint: bool, slugs: seq<string>, es: seq<ExclusionRecord>) {
    && (forall e :: e in es <==> e.slug in slugs && RefusedFor(specs, lint, e.slug, e.reason))
    && forall s :: Times(RefusedSlugs(es), s) == if Admissible(specs, lint, s) then 0 else Times(slugs, s)
  }

  lemma OneMore(a: seq<string>, x: string, s: string)
    ensures Times(a + [x], s) == Times(a, s) + if x == s then 1 else 0
  {
  }

  lemma RefusedSnoc(es: seq<ExclusionRecord>, e: ExclusionRecord)
    ensures RefusedSlugs(es + [e]) == RefusedSlugs(es) + [e.slug]
  {
    assert (es + [e])[..|es|] == es;
  }

  lemma {:induction false} ExcludedMember(specs: map<string, Spec>, lint: bool, slugs: seq<string>, e: ExclusionRecord)
    ensures e in Excluded(specs, lint, slugs) <==> e.slug in slugs && Gate(specs, lint, e.slug) == Some(e.reason)
  {
    hide Gate;
    if slugs != [] {
      var n := |slugs| - 1;
      ExcludedMember(specs, lint, slugs[..n], e);
      assert slugs == slugs[..n] + [slugs[n]];
    }
  }

  lemma ExcludedNext(specs: map<string, Spec>, lint: bool, slugs: seq<string>)
    requires slugs != []
    ensures var n := |slugs| - 1;
            var init := Excluded(specs, lint, slugs[..n]);
            Excluded(specs, lint, slugs)
            == if Gate(specs, lint, slugs[n]).Some?
               then init + [ExclusionRecord(slugs[n], Gate(specs, lint, slugs[n]).value)] else init
  {
    hide Gate;
  }

  lemma NoneExcluded(specs: map<string, Spec>, lint: bool)
    ensures RefusedSlugs(Excluded(specs, lint, [])) == [] && forall s :: Times([], s) == 0
  {
  }

  lemma {:induction false} ExcludedCount(specs: map<string, Spec>, lint: bool, slugs: seq<string>, s: string)
    ensures Times(RefusedSlugs(Excluded(specs, lint, slugs)), s)
            == if Gate(specs, lint, s).Some? then Times(slugs, s) else 0
  {
    hide Gate, RefusedSlugs, Excluded, Times;
    if slugs == [] {
      NoneExcluded(specs, lint);
    } else {
      var n := |slugs| - 1;
      var x, init := slugs[n], Excluded(specs, lint, slugs[..n]);
      ExcludedCount(specs, lint, slugs[..n], s);
      ExcludedNext(specs, lint, slugs);
      assert slugs == slugs[..n] + [x];
      OneMore(slugs[..n], x, s);
      if Gate(specs, lint, x).Some? {
        RefusedSnoc(init, ExclusionRecord(x, Gate(specs, lint, x).value));
        OneMore(RefusedSlugs(init), x, s);
      }
    }
  }

  lemma ExcludedAre(specs: map<string, Spec>, lint: bool, slugs: seq<string>)
    ensures ExcludesExactly(specs, lint, slugs, Excluded(specs, lint, slugs))
  {
    hide Gate, Excluded, RefusedSlugs, Times, RefusedFor, Admissible;
    var es := Excluded(specs, lint, slugs);
    forall e ensures e in es <==> e.slug in slugs && RefusedFor(specs, lint, e.slug, e.reason) {
      ExcludedMember(specs, lint, slugs, e);
      GateMeans(specs, lint, e.slug);
    }
    forall s ensures Times(RefusedSlugs(es), s) == if Admissible(specs, lint, s) then 0 else Times(slugs, s) {
      ExcludedCount(specs, lint, slugs, s);
      GateMeans(specs, lint, s);
    }
  }

  /** Exclusions and order share out the request: each requested slug is refused or ordered, and none is both. */
  ghost predicate SharesOut(slugs: seq<string>, ordered: seq<string>, es: seq<ExclusionRecord>) {
    && (forall s :: s in slugs ==> (s in ordered <==> s !in RefusedSlugs(es)))
    && forall s :: s in ordered || s in RefusedSlugs(es) ==> s in slugs
  }

  lemma SharesOutSame(slugs: seq<string>, ordered: seq<string>, listed: seq<string>, es: seq<ExclusionRecord>)
    requires SharesOut(slugs, ordered, es) && forall s :: s in listed <==> s in ordered
    ensures SharesOut(slugs, listed, es)
  {
  }

  lemma OrderedSharesOut(specs: map<string, Spec>, lint: bool, slugs: seq<string>, ordered: seq<string>,
                         es: seq<ExclusionRecord>)
    requires ExcludesExactly(specs, lint, slugs, es)
    requires forall s :: s in ordered <==> s in ValidGraph(specs, lint, slugs)
    ensures SharesOut(slugs, ordered, es)
  {
    hide Gate, Admissible, RefusedFor;
    forall s ensures s in RefusedSlugs(es) <==> s in slugs && Gate(specs, lint, s).Some?
             ensures Gate(specs, lint, s) == None ==> s in specs
    {
      GateMeans(specs, lint, s);
      AdmissibleExists(specs, lint, s);
      assert s in RefusedSlugs(es) <==> Times(RefusedSlugs(es), s) > 0;
      assert s in slugs <==> Times(slugs, s) > 0;
    }
  }

  /** The requested slugs, as often as requested, that are valid and have no dependency inside the bundle. */
  function Roots(g: Graph, slugs: seq<string>): seq<string> {
    if slugs == [] then []
    else
      var s := slugs[|slugs| - 1];
      Roots(g, slugs[..|slugs| - 1]) + if s in g && Open(g[s], g.Keys) == 0 then [s] else []
  }

  /** A build order: every node once, after its dependencies. */
  ghost predicate BuildOrder(g: Graph, order: seq<string>) {
    NoDups(order) && (forall s :: s in order <==> s in g) && DepsFirst(g, order)
  }

  /** Kahn's answer for a graph: a build order, or every tangled node exactly once. */
  ghost predicate Sorted(g: Graph, cyclic: seq<string>, order: seq<string>) {
    && NoDups(cyclic)
    && (forall s :: s in cyclic <==> s in g && Tangled(g, s))
    && (cyclic == [] ==> BuildOrder(g, order))
  }

  /** Each ordered spec comes after all the ordered ones it declares as dependencies. */
  ghost predicate DeclaredFirst(specs: map<string, Spec>, ordered: seq<string>) {
    && (forall i :: 0 <= i < |ordered| ==> ordered[i] in specs)
    && forall i, d :: 0 <= i < |ordered| && Declares(specs[ordered[i]], d) && d in ordered ==> d in ordered[..i]
  }

  lemma OrderMeans(specs: map<string, Spec>, lint: bool, slugs: seq<string>, ordered: seq<string>)
    requires forall s :: s in ordered <==> s in ValidGraph(specs, lint, slugs)
    ensures forall s :: s in ordered <==> s in slugs && Admissible(specs, lint, s)
    ensures DepsFirst(ValidGraph(specs, lint, slugs), ordered) ==> DeclaredFirst(specs, ordered)
  {
    hide Gate, Admissible, Deps, Declares;
    forall s ensures s in ordered <==> s in slugs && Admissible(specs, lint, s) {
      GateMeans(specs, lint, s);
      assert Admissible(specs, lint, s) ==> s in specs by { AdmissibleExists(specs, lint, s); }
    }
    var g := ValidGraph(specs, lint, slugs);
    if DepsFirst(g, ordered) {
      forall i, d | 0 <= i < |ordered| && Declares(specs[ordered[i]], d) && d in ordered ensures d in ordered[..i] {
        DepsAre(specs[ordered[i]]);
        assert d in g[ordered[i]] && d in g;
      }
    }
  }

  lemma AdmissibleExists(specs: map<string, Spec>, lint: bool, s: string)
    ensures Admissible(specs, lint, s) ==> s in specs
  {
  }

  // ------------------------------------------------------------------ Kahn's algorithm

  function Elems(s: seq<string>): set<string> { set x | x in s }

  /** The edges of the given nodes, in both directions: `inDegree` counts a node's in-bundle dependencies, and a
      node occurs in `dependents[d]` as often as `d` occurs among its dependencies. */
  ghost predicate Entered(g: Graph, nodes: set<string>, inDegree: map<string, int>,
                          dependents: map<string, seq<string>>)
  {
    && inDegree.Keys == g.Keys && dependents.Keys == g.Keys && nodes <= g.Keys
    && (forall s :: s in g ==> inDegree[s] == if s in nodes then Open(g[s], g.Keys) else 0)
    && forall d, s {:trigger multiset(dependents[d])[s]} ::
         d in g ==> multiset(dependents[d])[s] == if s in nodes then multiset(g[s])[d] else 0
  }

  lemma NextName(names: seq<string>, n: nat)
    requires NoDups(names) && n < |names|
    ensures names[n] in Elems(names) && names[n] !in Elems(names[..n])
    ensures Elems(names[..n + 1]) == Elems(names[..n]) + {names[n]}
  {
  }

  method Edges(g: Graph, names: seq<string>)
    returns (inDegree: map<string, int>, dependents: map<string, seq<string>>)
    requires NoDups(names) && Elems(names) == g.Keys
    ensures Entered(g, g.Keys, inDegree, dependents)
  {
    inDegree := map s | s in g :: 0;
    dependents := map s | s in g :: [];
    ghost var nodes: set<string> := {};
    for n := 0 to |names|
      invariant nodes == Elems(names[..n])
      invariant Entered(g, nodes, inDegree, dependents)
    {
      NextName(names, n);
      inDegree, dependents := EnterNode(g, names[n], nodes, inDegree, dependents);
      nodes := nodes + {names[n]};
    }
    assert names[..|names|] == names;
  }

  /** Enter the edges of one node `s`, which has none yet. */
  method EnterNode(g: Graph, s: string, ghost nodes: set<string>,
                   inDegree0: map<string, int>, dependents0: map<string, seq<string>>)
    returns (inDegree: map<string, int>, dependents: map<string, seq<string>>)
    requires s in g && s !in nodes && Entered(g, nodes, inDegree0, dependents0)
    ensures Entered(g, nodes + {s}, inDegree, dependents)
  {
    inDegree, dependents := inDegree0, dependents0;
    var deps := g[s];
    for m := 0 to |deps|
      invariant inDegree == inDegree0[s := Open(deps[..m], g.Keys)] && dependents.Keys == g.Keys
      invariant forall d, x {:trigger multiset(dependents[d])[x]} :: d in g ==>
        multiset(dependents[d])[x] == multiset(dependents0[d])[x] + if x == s then multiset(deps[..m])[d] else 0
    {
      assert deps[..m + 1][..m] == deps[..m] && deps[..m + 1] == deps[..m] + [deps[m]];
      if deps[m] in g {
        inDegree := inDegree[s := inDegree[s] + 1];
        dependents := dependents[deps[m] := dependents[deps[m]] + [s]];
      }
    }
    assert deps[..|deps|] == deps;
  }

  ghost predicate Reversed(g: Graph, dependents: map<string, seq<string>>) {
    && dependents.Keys == g.Keys
    && forall d, s {:trigger multiset(dependents[d])[s]} ::
         d in g ==> multiset(dependents[d])[s] == if s in g then multiset(g[s])[d] else 0
  }

  /** While the queue is drained: which nodes are done, which wait for nothing more, and the open counts. */
  ghost predicate Draining(g: Graph, inDegree: map<string, int>, done: seq<string>, queue: seq<string>) {
    && inDegree.Keys == g.Keys && NoDups(done + queue) && DepsFirst(g, done)
    && forall s :: s in g ==>
         && inDegree[s] == Open(g[s], g.Keys - Elems(done))
         && (inDegree[s] == 0 <==> s in done + queue)
  }

  ghost function Positive(inDegree: map<string, int>): set<string> {
    set s | s in inDegree && inDegree[s] > 0
  }

  /** Part way through the dependents of `slug`: what has been subtracted so far, and who became free. */
  ghost predicate Releasing(g: Graph, start: map<string, int>, inDegree: map<string, int>,
                            seen: seq<string>, before: seq<string>, freed: seq<string>) {
    && inDegree.Keys == g.Keys == start.Keys
    && NoDups(before + freed) && (forall s :: s in freed ==> s in g)
    && forall s :: s in g ==>
         && inDegree[s] == start[s] - multiset(seen)[s]
         && (inDegree[s] == 0 <==> s in before + freed)
  }

  /** One dependent lowered: freed if its count reaches zero. */
  lemma LowerOne(g: Graph, start: map<string, int>, inDegree: map<string, int>, seen: seq<string>, s: string,
                 before: seq<string>, freed: seq<string>)
    requires Releasing(g, start, inDegree, seen, before, freed) && s in g
    requires start[s] >= multiset(seen + [s])[s]
    ensures Releasing(g, start, inDegree[s := inDegree[s] - 1], seen + [s], before,
                      freed + if inDegree[s] == 1 then [s] else [])
  {
    var now := inDegree[s := inDegree[s] - 1];
    assert multiset(seen + [s])[s] == multiset(seen)[s] + 1;
    forall x | x in g ensures now[x] == start[x] - multiset(seen + [s])[x] {
      if x != s { assert multiset(seen + [s])[x] == multiset(seen)[x]; }
    }
    if inDegree[s] == 1 {
      assert s !in before + freed;
      assert before + (freed + [s]) == (before + freed) + [s];
      NoDupsSnoc(before + freed, s);
    } else {
      assert freed + [] == freed;
    }
  }

  lemma PrefixCount(all: seq<string>, n: nat)
    requires n < |all|
    ensures all[..n + 1] == all[..n] + [all[n]] && multiset(all[..n] + [all[n]])[all[n]] <= multiset(all)[all[n]]
  {
    assert all[..n + 1] == all[..n] + [all[n]];
    assert all == all[..n + 1] + all[n + 1..];
  }

  method Release(g: Graph, start: map<string, int>, dependents: seq<string>, ghost once: bool,
                 ghost before: seq<string>)
    returns (inDegree: map<string, int>, freed: seq<string>)
    requires start.Keys == g.Keys && forall s :: s in dependents ==> s in g
    requires once ==> Releasing(g, start, start, [], before, [])
    requires once ==> forall s :: s in g ==> start[s] >= multiset(dependents)[s]
    ensures inDegree.Keys == g.Keys && (forall s :: s in freed ==> s in g)
    ensures Positive(inDegree) <= Positive(start) && (freed != [] ==> Positive(inDegree) < Positive(start))
    ensures forall s :: s in g && inDegree[s] <= 0 ==> start[s] <= 0 || s in freed
    ensures once ==> Releasing(g, start, inDegree, dependents, before, freed)
  {
    hide Releasing;
    inDegree, freed := start, [];
    for n := 0 to |dependents|
      invariant inDegree.Keys == g.Keys && (forall s :: s in freed ==> s in g)
      invariant Positive(inDegree) <= Positive(start) && (freed != [] ==> Positive(inDegree) < Positive(start))
      invariant forall s :: s in g && inDegree[s] <= 0 ==> start[s] <= 0 || s in freed
      invariant once ==> Releasing(g, start, inDegree, dependents[..n], before, freed)
    {
      var s := dependents[n];
      ghost var prior := inDegree;
      PrefixCount(dependents, n);
      if once { LowerOne(g, start, inDegree, dependents[..n], s, before, freed); }
      assert freed + [] == freed;
      inDegree := inDegree[s := inDegree[s] - 1];
      if inDegree[s] == 0 {
        assert s in Positive(prior) && s !in Positive(inDegree);
        freed := freed + [s];
      }
    }
    assert dependents[..|dependents|] == dependents;
  }

  /** Processing one free node re-establishes the draining invariant. */
  lemma {:induction false} DrainOne(g: Graph, start: map<string, int>, inDegree: map<string, int>,
                                    dependents: map<string, seq<string>>,
                 done: seq<string>, queue: seq<string>, freed: seq<string>)
    requires start.Keys == g.Keys && Reversed(g, dependents)
    requires Draining(g, start, done, queue) && queue != [] && queue[0] in g
    requires Releasing(g, start, inDegree, dependents[queue[0]], done + queue, freed)
    ensures Draining(g, inDegree, done + [queue[0]], queue[1..] + freed)
  {
    var slug := queue[0];
    var was, now := Elems(done), Elems(done + [slug]);
    NoDupsParts(done, queue);
    assert now == was + {slug} && g.Keys - now == (g.Keys - was) - {slug};
    assert (done + [slug]) + (queue[1..] + freed) == (done + queue) + freed;
    forall s | s in g ensures inDegree[s] == Open(g[s], g.Keys - now) {
      OpenWithout(g[s], g.Keys - was, slug);
    }
    assert slug in done + queue;
    OpenZero(g[slug], g.Keys - was);
    DepsFirstSnoc(g, done, slug);
  }

  lemma {:induction false} DepsFirstSnoc(g: Graph, order: seq<string>, s: string)
    requires DepsFirst(g, order) && s in g && forall d :: d in g[s] && d in g ==> d in order
    ensures DepsFirst(g, order + [s])
  {
    var longer := order + [s];
    forall i, d | 0 <= i < |longer| && d in g[longer[i]] && d in g ensures d in longer[..i] {
      assert longer[..i] == order[..i];
    }
  }

  /** When nothing is free any more, exactly the tangled nodes still have open dependencies. */
  lemma Drained(g: Graph, inDegree: map<string, int>, done: seq<string>)
    requires inDegree.Keys == g.Keys && Draining(g, inDegree, done, [])
    ensures forall s :: s in g ==> (inDegree[s] > 0 <==> Tangled(g, s))
    ensures forall s :: s in done <==> s in g && inDegree[s] == 0
  {
    assert done + [] == done;
    var left := g.Keys - Elems(done);
    assert SelfBlocked(g, left);
    forall s | s in g ensures inDegree[s] > 0 <==> Tangled(g, s) {
      if s in left { StuckIsTangled(g, left, s); } else { SortedNotTangled(g, done, s); }
    }
  }

  /** Kahn's algorithm. The queue is seeded from the request, so a root requested twice is sorted twice. */
  method TopoSort(slugs: seq<string>, names: seq<string>, g: Graph)
    returns (cyclic: seq<string>, sorted: seq<string>)
    requires NoDups(names) && forall s :: s in names <==> s in g
    requires forall s :: s in g ==> s in slugs
    ensures NoDups(Roots(g, slugs)) ==> Sorted(g, cyclic, sorted)
    ensures !NoDups(Roots(g, slugs)) ==> !NoDups(sorted)
    ensures cyclic == [] ==> forall s :: s in sorted <==> s in g
    ensures (forall s :: s in g ==> IsRoot(g, s)) ==> cyclic == [] && sorted == Roots(g, slugs)
  {
    assert Elems(names) == g.Keys;
    var inDegree, dependents := Edges(g, names);
    ghost var start := inDegree;
    assert Reversed(g, dependents);
    var queue := Seed(g, slugs, inDegree);
    ghost var once := NoDups(queue);
    if once { DrainStart(g, slugs, inDegree, queue); }
    inDegree, sorted := Drain(g, dependents, inDegree, queue, once);
    cyclic := Stuck(names, inDegree);
    if once { Drained(g, inDegree, sorted); Finish(g, names, inDegree, cyclic, sorted); }
    else { DupInPrefix(queue, sorted); }
    if forall s :: s in g ==> IsRoot(g, s) {
      assert Positive(start) == {} == Positive(inDegree);
      Somewhere(cyclic, Positive(inDegree));
    }
  }

  lemma Somewhere(a: seq<string>, s: set<string>)
    requires forall x :: x in a ==> x in s
    ensures a != [] ==> s != {}
  {
    if a != [] { assert a[0] in s; }
  }

  method Drain(g: Graph, dependents: map<string, seq<string>>, start: map<string, int>, seeds: seq<string>,
               ghost once: bool)
    returns (inDegree: map<string, int>, sorted: seq<string>)
    requires start.Keys == g.Keys && Reversed(g, dependents) && forall s :: s in seeds ==> s in g
    requires once ==> Draining(g, start, [], seeds)
    requires forall s :: s in g && start[s] <= 0 ==> s in seeds
    ensures inDegree.Keys == g.Keys && seeds <= sorted
    ensures (forall s :: s in sorted ==> s in g) && forall s :: s in g && inDegree[s] <= 0 ==> s in sorted
    ensures Positive(start) == {} ==> sorted == seeds && Positive(inDegree) == {}
    ensures once ==> Draining(g, inDegree, sorted, [])
  {
    var queue := seeds;
    inDegree, sorted := start, [];
    assert sorted + queue == seeds;
    while queue != []
      invariant inDegree.Keys == g.Keys && forall s :: s in queue ==> s in g
      invariant once ==> Draining(g, inDegree, sorted, queue)
      invariant seeds <= sorted + queue
      invariant forall s :: s in sorted ==> s in g
      invariant forall s :: s in g && inDegree[s] <= 0 ==> s in sorted + queue
      invariant Positive(start) == {} ==> sorted + queue == seeds && Positive(inDegree) == {}
      decreases Positive(inDegree), |queue|
    {
      var slug, rest := queue[0], queue[1..];
      DependentsAreNodes(g, dependents, slug);
      if once { CanRelease(g, inDegree, dependents, sorted, queue); }
      var after, freed := Release(g, inDegree, dependents[slug], once, sorted + queue);
      if once { DrainOne(g, inDegree, after, dependents, sorted, queue, freed); }
      Requeue(sorted, queue, freed);
      sorted, queue, inDegree := sorted + [slug], rest + freed, after;
    }
    assert sorted + [] == sorted;
  }

  lemma DependentsAreNodes(g: Graph, dependents: map<string, seq<string>>, d: string)
    requires Reversed(g, dependents) && d in g
    ensures forall s :: s in dependents[d] ==> s in g
  {
    forall s | s in dependents[d] ensures s in g { assert multiset(dependents[d])[s] > 0; }
  }

  lemma Requeue(done: seq<string>, queue: seq<string>, freed: seq<string>)
    requires queue != []
    ensures done + queue <= (done + [queue[0]]) + (queue[1..] + freed)
    ensures (done + [queue[0]]) + (queue[1..] + freed) == (done + queue) + freed
  {
    assert (done + [queue[0]]) + (queue[1..] + freed) == (done + queue) + freed;
  }

  method Seed(g: Graph, slugs: seq<string>, inDegree: map<string, int>) returns (queue: seq<string>)
    requires inDegree.Keys == g.Keys && forall s :: s in g ==> inDegree[s] == Open(g[s], g.Keys)
    ensures queue == Roots(g, slugs) && forall s :: s in queue <==> s in slugs && s in g && inDegree[s] == 0
  {
    queue := [];
    for n := 0 to |slugs|
      invariant queue == Roots(g, slugs[..n])
      invariant forall s :: s in queue <==> s in slugs[..n] && s in g && inDegree[s] == 0
    {
      assert slugs[..n + 1][..n] == slugs[..n];
      if slugs[n] in g && inDegree[slugs[n]] == 0 { queue := queue + [slugs[n]]; }
    }
    assert slugs[..|slugs|] == slugs;
  }

  method Stuck(names: seq<string>, inDegree: map<string, int>) returns (cyclic: seq<string>)
    requires NoDups(names) && forall s :: s in names ==> s in inDegree
    ensures NoDups(cyclic) && forall s :: s in cyclic <==> s in names && inDegree[s] > 0
  {
    cyclic := [];
    for n := 0 to |names|
      invariant NoDups(cyclic) && forall s :: s in cyclic <==> s in names[..n] && inDegree[s] > 0
    {
      if inDegree[names[n]] > 0 {
        NoDupsSnoc(cyclic, names[n]);
        cyclic := cyclic + [names[n]];
      }
    }
    assert names[..|names|] == names;
  }

  lemma DrainStart(g: Graph, slugs: seq<string>, inDegree: map<string, int>, queue: seq<string>)
    requires inDegree.Keys == g.Keys && forall s :: s in g ==> inDegree[s] == Open(g[s], g.Keys)
    requires (forall s :: s in g ==> s in slugs) && NoDups(queue)
    requires forall s :: s in queue <==> s in slugs && s in g && inDegree[s] == 0
    ensures Draining(g, inDegree, [], queue)
  {
    assert g.Keys - Elems([]) == g.Keys;
    assert [] + queue == queue;
  }

  lemma {:induction false} Finish(g: Graph, names: seq<string>, inDegree: map<string, int>, cyclic: seq<string>,
                                  sorted: seq<string>)
    requires inDegree.Keys == g.Keys && Draining(g, inDegree, sorted, [])
    requires (forall s :: s in names <==> s in g) && NoDups(cyclic)
    requires forall s :: s in cyclic <==> s in names && inDegree[s] > 0
    requires forall s :: s in g ==> (inDegree[s] > 0 <==> Tangled(g, s))
    requires forall s :: s in sorted <==> s in g && inDegree[s] == 0
    ensures Sorted(g, cyclic, sorted)
  {
    assert sorted + [] == sorted;
    if cyclic == [] {
      forall s | s in g ensures s in sorted {
        assert s !in cyclic;
        assert inDegree[s] == Open(g[s], g.Keys - Elems(sorted));
      }
    }
  }

  lemma DupInPrefix(a: seq<string>, b: seq<string>)
    requires a <= b && !NoDups(a)
    ensures !NoDups(b)
  {
    var i, j :| 0 <= i < j < |a| && a[i] == a[j];
    assert b[i] == b[j];
  }

  /** A node still counts at least the edges to a node that has not been processed yet. */
  lemma CanRelease(g: Graph, inDegree: map<string, int>, dependents: map<string, seq<string>>,
                   done: seq<string>, queue: seq<string>)
    requires inDegree.Keys == g.Keys && Reversed(g, dependents)
    requires Draining(g, inDegree, done, queue) && queue != [] && queue[0] in g
    ensures forall s :: s in g ==> inDegree[s] >= multiset(dependents[queue[0]])[s]
    ensures Releasing(g, inDegree, inDegree, [], done + queue, [])
  {
    assert done + queue + [] == done + queue;
    NoDupsParts(done, queue);
    assert queue[0] !in Elems(done);
    forall s | s in g ensures inDegree[s] >= multiset(dependents[queue[0]])[s] {
      OpenWithout(g[s], g.Keys - Elems(done), queue[0]);
    }
  }

  // ------------------------------------------------------------------ intake

  class BundleIntake {
    const specs: map<string, Spec>
    const manifestLint: bool

    constructor (specs: map<string, Spec>, manifestLint: bool)
      ensures this.specs == specs && this.manifestLint == manifestLint
    {
      this.specs, this.manifestLint := specs, manifestLint;
    }

    ghost function Valid(slugs: seq<string>): Graph { ValidGraph(specs, manifestLint, slugs) }

    /** Gate every requested spec, then sort. A cycle is reported iff there is one, and then exactly what is
        on it or downstream of it; otherwise the order is a build order of the valid specs. Both are promised when
        no valid spec without in-bundle dependencies is requested twice; as soon as one is, a resolved order is no
        build order, while a cycle may still be reported correctly. */
    method Resolve(slugs: seq<string>) returns (r: Resolution)
      ensures r.Resolved? ==> forall s :: s in r.ordered <==> s in slugs && Admissible(specs, manifestLint, s)
      ensures r.Resolved? && NoDups(r.ordered) ==> DeclaredFirst(specs, r.ordered)
      ensures NoDups(Roots(Valid(slugs), slugs)) ==>
                (r.CycleError? <==> exists s :: s in Valid(slugs) && OnCycle(Valid(slugs), s))
      ensures NoDups(Roots(Valid(slugs), slugs)) && r.CycleError? ==>
                NoDups(r.cyclic) && forall s :: s in r.cyclic <==> s in Valid(slugs) && Tangled(Valid(slugs), s)
      ensures r.Resolved? ==> ExcludesExactly(specs, manifestLint, slugs, r.excluded)
      ensures r.Resolved? ==> r.excluded == Excluded(specs, manifestLint, slugs)
      ensures r.Resolved? ==>
                (forall s :: s in r.ordered <==> s in Valid(slugs)) && SharesOut(slugs, r.ordered, r.excluded)
      ensures (forall s :: s in Valid(slugs) ==> IsRoot(Valid(slugs), s)) ==>
                r.Resolved? && r.ordered == Roots(Valid(slugs), slugs)
      ensures r.Resolved? ==> (BuildOrder(Valid(slugs), r.ordered) <==> NoDups(Roots(Valid(slugs), slugs)))
    {
      var excluded: seq<ExclusionRecord> := [];
      var names: seq<string> := [];
      var valid: Graph := map[];
      for n := 0 to |slugs|
        invariant excluded == Excluded(specs, manifestLint, slugs[..n])
        invariant valid == ValidGraph(specs, manifestLint, slugs[..n])
        invariant NoDups(names) && forall s :: s in names <==> s in valid
      {
        var slug := slugs[n];
        assert slugs[..n + 1][..n] == slugs[..n] && slugs[..n + 1] == slugs[..n] + [slug];
        ValidSnoc(specs, manifestLint, slugs[..n], slug);
        match Gate(specs, manifestLint, slug)
        case Some(reason) => excluded := excluded + [ExclusionRecord(slug, reason)];
        case None =>
          if slug !in valid {
            NoDupsSnoc(names, slug);
            names := names + [slug];
          }
          valid := valid[slug := Deps(specs[slug].dependsOn)];
      }
      assert slugs[..|slugs|] == slugs;
      var cyclic, sorted := TopoSort(slugs, names, valid);
      if NoDups(Roots(valid, slugs)) { CycleIffTangled(valid); }
      if cyclic != [] {
        assert cyclic[0] in cyclic;
        return CycleError(cyclic);
      }
      OrderMeans(specs, manifestLint, slugs, sorted);
      ExcludedAre(specs, manifestLint, slugs);
      OrderedSharesOut(specs, manifestLint, slugs, sorted, excluded);
      return Resolved(sorted, excluded);
    }

    /** Queue one task row per ordered spec, `build_order` being its position. */
    method CommitIntake(ledger: InMemoryLedger, runId: string, ordered: seq<string>)
      requires ledger.Valid() && ledger.Ordered() && forall s :: s in ordered ==> s in specs
      modifies ledger
      ensures ledger.Valid() && ledger.Ordered() && fresh(ledger.Rows() - old(ledger.Rows()))
      ensures ledger.claimed == old(ledger.claimed)
      ensures old(ledger.writeLog) <= ledger.writeLog
      ensures ledger.state == old(ledger.state).(tasks := Intake(old(ledger.state.tasks), specs, runId, ordered))
      ensures NoDups(ordered) ==> forall i :: 0 <= i < |ordered| ==> RowOf(ledger.state.tasks, runId, specs, ordered, i)
    {
      hide InMemoryLedger.Ordered, InMemoryLedger.Valid, Intake, Deps, RowOf, NoDups;
      IntakeStart(ledger.state, specs, runId);
      for n := 0 to |ordered|
        invariant ledger.Valid() && ledger.Ordered() && fresh(ledger.Rows() - old(ledger.Rows()))
        invariant ledger.claimed == old(ledger.claimed)
        invariant old(ledger.writeLog) <= ledger.writeLog
        invariant ledger.state ==
                  old(ledger.state).(tasks := Intake(old(ledger.state.tasks), specs, runId, ordered[..n]))
      {
        var spec := specs[ordered[n]];
        IntakeNext(ledger.state, old(ledger.state.tasks), specs, runId, ordered, n);
        ledger.CreateTaskRow(Key(runId, ordered[n]), n, Deps(spec.dependsOn), spec.independent);
      }
      assert ordered[..|ordered|] == ordered;
      if NoDups(ordered) { RowsFollowSpecs(old(ledger.state.tasks), specs, runId, ordered); }
    }
  }

  /** The row of an ordered spec: queued at its position, with what the spec says about dependencies. */
  predicate RowOf(T: map<Key, Task>, run: string, specs: map<string, Spec>, ordered: seq<string>, i: nat)
    requires i < |ordered|
  {
    && ordered[i] in specs && Key(run, ordered[i]) in T
    && var (t, s) := (T[Key(run, ordered[i])], specs[ordered[i]]);
       t.status == Queued && t.buildOrder == i && t.independent == s.independent && RecordsDeps(s, t.dependsOn)
  }

  lemma RowsFollowSpecs(T: map<Key, Task>, specs: map<string, Spec>, run: string, ordered: seq<string>)
    requires NoDups(ordered) && forall s :: s in ordered ==> s in specs
    ensures forall i :: 0 <= i < |ordered| ==> RowOf(Intake(T, specs, run, ordered), run, specs, ordered, i)
  {
    hide NoDups, Intake, Deps, RecordsDeps;
    forall i | 0 <= i < |ordered| ensures RowOf(Intake(T, specs, run, ordered), run, specs, ordered, i) {
      IntakeAt(T, specs, run, ordered, i);
      DepsAre(specs[ordered[i]]);
    }
  }

  lemma ValidSnoc(specs: map<string, Spec>, lint: bool, slugs: seq<string>, slug: string)
    ensures ValidGraph(specs, lint, slugs + [slug]) ==
            if Gate(specs, lint, slug) == None then ValidGraph(specs, lint, slugs)[slug := Deps(specs[slug].dependsOn)]
            else ValidGraph(specs, lint, slugs)
  {
  }

  predicate IsRoot(g: Graph, s: string) { s in g && Open(g[s], g.Keys) == 0 }

  /** Kahn's seeding sees no node twice exactly when no root is requested twice. */
  lemma {:induction false} RootsDistinct(g: Graph, slugs: seq<string>)
    ensures forall s :: s in Roots(g, slugs) <==> s in slugs && IsRoot(g, s)
    ensures NoDups(Roots(g, slugs)) <==>
              forall i, j :: 0 <= i < j < |slugs| && slugs[i] == slugs[j] ==> !IsRoot(g, slugs[i])
  {
    if slugs != [] {
      var n := |slugs| - 1;
      var rest, roots, s := slugs[..n], Roots(g, slugs[..n]), slugs[n];
      RootsDistinct(g, rest);
      hide IsRoot;
      assert slugs == rest + [s];
      if IsRoot(g, s) {
        assert Roots(g, slugs) == roots + [s] by { RootsNext(g, slugs); }
        if s in rest {
          var i :| 0 <= i < n && rest[i] == s;
          assert slugs[i] == slugs[n];
          var k :| 0 <= k < |roots| && roots[k] == s;
          assert (roots + [s])[k] == (roots + [s])[|roots|];
        } else if NoDups(roots) {
          NoDupsSnoc(roots, s);
        } else {
          assert forall i :: 0 <= i < |roots| ==> (roots + [s])[i] == roots[i];
        }
      } else {
        assert Roots(g, slugs) == roots by { RootsNext(g, slugs); }
      }
    }
  }

  /** The case that breaks the order: for a valid spec without dependencies, requested twice, `Resolve` promises this
      very list as the order. */
  lemma RequestedTwice(specs: map<string, Spec>, lint: bool, a: string)
    requires Gate(specs, lint, a) == None && Deps(specs[a].dependsOn) == []
    ensures var g := ValidGraph(specs, lint, [a, a]);
            && (forall s :: s in g ==> IsRoot(g, s)) && Roots(g, [a, a]) == [a, a] && !NoDups(Roots(g, [a, a]))
  {
    var g := ValidGraph(specs, lint, [a, a]);
    assert g[a] == [] && IsRoot(g, a);
    RootsNext(g, [a, a]);
    assert [a, a][..1] == [a];
    RootsNext(g, [a]);
    assert [a, a][0] == [a, a][1];
  }

  lemma RootsNext(g: Graph, slugs: seq<string>)
    requires slugs != []
    ensures var n := |slugs| - 1;
            Roots(g, slugs) == Roots(g, slugs[..n]) + if IsRoot(g, slugs[n]) then [slugs[n]] else []
  {
  }

  lemma CycleIffTangled(g: Graph)
    ensures (exists s :: s in g && OnCycle(g, s)) <==> exists s :: s in g && Tangled(g, s)
  {
    forall s | s in g && OnCycle(g, s) ensures Tangled(g, s) {
      assert DepPath(g, [s]);
    }
    forall s | s in g && Tangled(g, s) ensures exists c :: c in g && OnCycle(g, c) {
      var p :| DepPath(g, p) && p[0] == s && OnCycle(g, p[|p| - 1]);
      assert p[|p| - 1] in g;
    }
  }

  /** The rows after intake: what was there, plus one fresh row per ordered spec. */
  function Intake(T: map<Key, Task>, specs: map<string, Spec>, run: string, ordered: seq<string>): map<Key, Task>
    requires forall s :: s in ordered ==> s in specs
  {
    if ordered == [] then T
    else
      var n := |ordered| - 1;
      assert forall s :: s in ordered[..n] ==> s in ordered;
      Intake(T, specs, run, ordered[..n])[Key(run, ordered[n]) :=
        FreshTask(n, Deps(specs[ordered[n]].dependsOn), specs[ordered[n]].independent)]
  }

  lemma IntakeStart(s: LedgerState, specs: map<string, Spec>, run: string)
    ensures s == s.(tasks := Intake(s.tasks, specs, run, []))
  {
  }

  lemma IntakeNext(s: LedgerState, T: map<Key, Task>, specs: map<string, Spec>, run: string, ordered: seq<string>,
                   n: nat)
    requires n < |ordered| && forall x :: x in ordered ==> x in specs
    requires s.tasks == Intake(T, specs, run, ordered[..n])
    ensures var spec := specs[ordered[n]];
            s.(tasks := s.tasks[Key(run, ordered[n]) := FreshTask(n, Deps(spec.dependsOn), spec.independent)])
            == s.(tasks := Intake(T, specs, run, ordered[..n + 1]))
  {
    hide Deps, FreshTask;
    assert ordered[..n + 1][..n] == ordered[..n];
  }

  lemma {:induction false} IntakeKey(T: map<Key, Task>, specs: map<string, Spec>, run: string,
                                     ordered: seq<string>, k: Key)
    requires forall s :: s in ordered ==> s in specs
    ensures var R := Intake(T, specs, run, ordered);
            && (k in R <==> k in T || (k.run == run && k.slug in ordered))
            && (k in T && !(k.run == run && k.slug in ordered) ==> R[k] == T[k])
  {
    hide FreshTask, Deps;
    if ordered != [] {
      var n := |ordered| - 1;
      assert k.slug in ordered <==> k.slug in ordered[..n] || k.slug == ordered[n];
      IntakeKey(T, specs, run, ordered[..n], k);
    }
  }

  lemma {:induction false} IntakeAt(T: map<Key, Task>, specs: map<string, Spec>, run: string,
                                    ordered: seq<string>, i: nat)
    requires NoDups(ordered) && i < |ordered| && forall s :: s in ordered ==> s in specs
    ensures Key(run, ordered[i]) in Intake(T, specs, run, ordered)
    ensures Intake(T, specs, run, ordered)[Key(run, ordered[i])]
            == FreshTask(i, Deps(specs[ordered[i]].dependsOn), specs[ordered[i]].independent)
  {
    hide FreshTask, Deps;
    var n := |ordered| - 1;
    if i < n {
      assert ordered[..n][i] == ordered[i] && ordered[i] != ordered[n];
      IntakeAt(T, specs, run, ordered[..n], i);
    }
  }

  /** Pointwise: with distinct slugs each row sits at its position, and other rows are as before. */
  lemma IntakeRows(T: map<Key, Task>, specs: map<string, Spec>, run: string, ordered: seq<string>)
    requires NoDups(ordered) && forall s :: s in ordered ==> s in specs
    ensures var R := Intake(T, specs, run, ordered);
            && (forall k :: k in R <==> k in T || (k.run == run && k.slug in ordered))
            && (forall k :: k in T && !(k.run == run && k.slug in ordered) ==> R[k] == T[k])
            && (forall i :: 0 <= i < |ordered| ==>
                  R[Key(run, ordered[i])]
                  == FreshTask(i, Deps(specs[ordered[i]].dependsOn), specs[ordered[i]].independent))
  {
    hide Intake, FreshTask, Deps, NoDups;
    var R := Intake(T, specs, run, ordered);
    forall k ensures k in R <==> k in T || (k.run == run && k.slug in ordered)
             ensures k in T && !(k.run == run && k.slug in ordered) ==> R[k] == T[k]
    {
      IntakeKey(T, specs, run, ordered, k);
    }
    forall i | 0 <= i < |ordered|
      ensures Key(run, ordered[i]) in R
              && R[Key(run, ordered[i])]
                 == FreshTask(i, Deps(specs[ordered[i]].dependsOn), specs[ordered[i]].independent)
    {
      IntakeAt(T, specs, run, ordered, i);
    }
  }
}
