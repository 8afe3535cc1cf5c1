/** live_db_assert: the rolling two-row edit distance, and the nearest existing name to a missing one. */
module NearMiss {
  import opened Models

  function Min(x: nat, y: nat): nat { if x < y then x else y }

  /** The textbook recursive edit distance. */
  function Dist(a: string, b: string): nat {
    if a == [] then |b|
    else if b == [] then |a|
    else
      var a', b' := a[..|a| - 1], b[..|b| - 1];
      Min(Min(Dist(a', b) + 1, Dist(a, b') + 1), Dist(a', b') + if a[|a| - 1] == b[|b| - 1] then 0 else 1)
  }

  // ------------------------------------------------------------------ edit scripts

  /** One edit turns `from` into `to`: a missing side is an insertion or deletion, equal sides cost nothing. */
  datatype Edit = Edit(from: Option<char>, to: Option<char>) {
    function Cost(): nat { if from == to then 0 else 1 }
  }

  function Letter(c: Option<char>): string { if c.Some? then [c.value] else [] }

  function Source(s: seq<Edit>): string {
    if s == [] then [] else Source(s[..|s| - 1]) + Letter(s[|s| - 1].from)
  }

  function Target(s: seq<Edit>): string {
    if s == [] then [] else Target(s[..|s| - 1]) + Letter(s[|s| - 1].to)
  }

  function Cost(s: seq<Edit>): nat {
    if s == [] then 0 else Cost(s[..|s| - 1]) + s[|s| - 1].Cost()
  }

  /** `s` rewrites `a` into `b`. */
  predicate Rewrites(s: seq<Edit>, a: string, b: string) { Source(s) == a && Target(s) == b }

  lemma Snoc(s: seq<Edit>, e: Edit)
    ensures Source(s + [e]) == Source(s) + Letter(e.from) && Target(s + [e]) == Target(s) + Letter(e.to)
    ensures Cost(s + [e]) == Cost(s) + e.Cost()
  {
    assert (s + [e])[..|s|] == s;
  }

  /** One more edit at the end can change the distance by no more than it costs. */
  lemma DistSnoc(a: string, b: string, e: Edit)
    ensures Dist(a + Letter(e.from), b + Letter(e.to)) <= Dist(a, b) + e.Cost()
  {
    var a2, b2 := a + Letter(e.from), b + Letter(e.to);
    assert e.from.Some? ==> a2[..|a2| - 1] == a;
    assert e.to.Some? ==> b2[..|b2| - 1] == b;
    assert e.from.None? ==> a2 == a;
    assert e.to.None? ==> b2 == b;
  }

  /** No script is cheaper than the distance. */
  lemma {:induction false} DistIsLowerBound(s: seq<Edit>, a: string, b: string)
    requires Rewrites(s, a, b)
    ensures Dist(a, b) <= Cost(s)
  {
    if s != [] {
      var init, e := s[..|s| - 1], s[|s| - 1];
      DistIsLowerBound(init, Source(init), Target(init));
      DistSnoc(Source(init), Target(init), e);
    }
  }

  /** Some script costs exactly the distance. */
  lemma {:induction false} BestScript(a: string, b: string) returns (s: seq<Edit>)
    ensures Rewrites(s, a, b) && Cost(s) == Dist(a, b)
    decreases |a| + |b|
  {
    if a == [] && b == [] { return []; }
    var a', b', e := LastStep(a, b);
    var init := BestScript(a', b');
    Snoc(init, e);
    s := init + [e];
  }

  /** The branch of the recursion that attains the minimum, as an edit. */
  lemma {:induction false} LastStep(a: string, b: string) returns (a': string, b': string, e: Edit)
    requires a != [] || b != []
    ensures a == a' + Letter(e.from) && b == b' + Letter(e.to) && |a'| + |b'| < |a| + |b|
    ensures Dist(a, b) == Dist(a', b') + e.Cost()
  {
    if a == [] { return a, b[..|b| - 1], Edit(None, Some(b[|b| - 1])); }
    if b == [] { return a[..|a| - 1], b, Edit(Some(a[|a| - 1]), None); }
    if Dist(a, b) == Dist(a[..|a| - 1], b) + 1 { return a[..|a| - 1], b, Edit(Some(a[|a| - 1]), None); }
    if Dist(a, b) == Dist(a, b[..|b| - 1]) + 1 { return a, b[..|b| - 1], Edit(None, Some(b[|b| - 1])); }
    return a[..|a| - 1], b[..|b| - 1], Edit(Some(a[|a| - 1]), Some(b[|b| - 1]));
  }

  // ------------------------------------------------------------------ a metric

  lemma {:induction false} FreeIsEqual(s: seq<Edit>)
    requires Cost(s) == 0
    ensures Source(s) == Target(s)
  {
    if s != [] { FreeIsEqual(s[..|s| - 1]); }
  }

  lemma {:induction false} DistSelf(a: string)
    ensures Dist(a, a) == 0
  {
    if a != [] { DistSelf(a[..|a| - 1]); }
  }

  lemma {:induction false} DistZeroIffEqual(a: string, b: string)
    ensures Dist(a, b) == 0 <==> a == b
  {
    DistSelf(a);
    var s := BestScript(a, b);
    if Dist(a, b) == 0 { FreeIsEqual(s); }
  }

  lemma {:induction false} DistSymmetric(a: string, b: string)
    ensures Dist(a, b) == Dist(b, a)
    decreases |a| + |b|
  {
    if a != [] && b != [] {
      DistSymmetric(a[..|a| - 1], b);
      DistSymmetric(a, b[..|b| - 1]);
      DistSymmetric(a[..|a| - 1], b[..|b| - 1]);
    }
  }

  /** Two scripts meeting in the middle compose into one that costs no more than both. */
  lemma {:induction false} Compose(s: seq<Edit>, t: seq<Edit>) returns (r: seq<Edit>)
    requires Target(s) == Source(t)
    ensures Rewrites(r, Source(s), Target(t)) && Cost(r) <= Cost(s) + Cost(t)
    decreases |s| + |t|
  {
    if s == [] && t == [] { return []; }
    if s != [] && s[|s| - 1].to.None? {
      var init := Compose(s[..|s| - 1], t);
      Snoc(init, s[|s| - 1]);
      return init + [s[|s| - 1]];
    }
    if t != [] && t[|t| - 1].from.None? {
      var init := Compose(s, t[..|t| - 1]);
      Snoc(init, t[|t| - 1]);
      return init + [t[|t| - 1]];
    }
    var middle := Target(s);
    assert s != [] ==> Target(s[..|s| - 1]) == middle[..|middle| - 1];
    assert t != [] ==> Source(t[..|t| - 1]) == middle[..|middle| - 1];
    var init := Compose(s[..|s| - 1], t[..|t| - 1]);
    var e := Edit(s[|s| - 1].from, t[|t| - 1].to);
    Snoc(init, e);
    r := init + [e];
  }

  lemma {:induction false} DistTriangle(a: string, b: string, c: string)
    ensures Dist(a, c) <= Dist(a, b) + Dist(b, c)
  {
    var s := BestScript(a, b);
    var t := BestScript(b, c);
    var r := Compose(s, t);
    DistIsLowerBound(r, a, c);
  }

  // ------------------------------------------------------------------ the dynamic program

  lemma Edges(a: string, b: string, i: nat, j: nat)
    requires i <= |a| && j <= |b|
    ensures i == 0 ==> Dist(a[..i], b[..j]) == j
    ensures j == 0 ==> Dist(a[..i], b[..j]) == i
  {
  }

  /** One cell of the table from its three neighbours. */
  lemma Cell(a: string, b: string, i: nat, j: nat)
    requires i < |a| && j < |b|
    ensures Dist(a[..i + 1], b[..j + 1]) ==
            Min(Min(Dist(a[..i], b[..j + 1]) + 1, Dist(a[..i + 1], b[..j]) + 1),
                Dist(a[..i], b[..j]) + if a[i] == b[j] then 0 else 1)
  {
    assert a[..i + 1][..i] == a[..i] && b[..j + 1][..j] == b[..j];
  }

  /** `row` holds the distances from the first `i` letters of `a` to every prefix of `b` up to its length. */
  predicate Row(row: seq<nat>, a: string, b: string, i: nat)
    requires i <= |a| && |row| <= |b| + 1
  {
    forall j :: 0 <= j < |row| ==> row[j] == Dist(a[..i], b[..j])
  }

  /** `_levenshtein`: keep one row of distances to the prefixes of `b`, and build the next from it. */
  method Levenshtein(a: string, b: string) returns (d: nat)
    ensures d == Dist(a, b)
  {
    if a == b { DistSelf(a); return 0; }
    if a == [] { return |b|; }
    if b == [] { return |a|; }
    hide Dist;
    var prev: seq<nat> := seq(|b| + 1, j => j);
    forall j | 0 <= j <= |b| ensures j == Dist(a[..0], b[..j]) { Edges(a, b, 0, j); }
    for i := 0 to |a|
      invariant |prev| == |b| + 1 && Row(prev, a, b, i)
    {
      prev := NextRow(a, b, i, prev);
    }
    assert a[..|a|] == a && b[..|b|] == b;
    return prev[|b|];
  }

  method NextRow(a: string, b: string, i: nat, prev: seq<nat>) returns (curr: seq<nat>)
    requires i < |a| && |prev| == |b| + 1 && Row(prev, a, b, i)
    ensures |curr| == |b| + 1 && Row(curr, a, b, i + 1)
  {
    hide Dist;
    Edges(a, b, i + 1, 0);
    curr := [i + 1];
    for j := 0 to |b|
      invariant |curr| == j + 1 && Row(curr, a, b, i + 1)
    {
      Cell(a, b, i, j);
      curr := curr + [Min(Min(prev[j + 1] + 1, curr[j] + 1), prev[j] + if a[i] == b[j] then 0 else 1)];
    }
  }

  // ------------------------------------------------------------------ the nearest name

  function Take(s: string, n: nat): string { if n < |s| then s[..n] else s }

  predicate SharesPrefix(declared: string, name: string, n: nat) { Take(name, n) == Take(declared, n) }

  /** The names agree on their first `n` characters, or are shorter and equal. */
  lemma SharesExactly(declared: string, name: string, n: nat)
    ensures SharesPrefix(declared, name, n) <==>
              || declared == name
              || (|declared| >= n && |name| >= n && forall i :: 0 <= i < n ==> declared[i] == name[i])
  {
    if |declared| >= n && |name| >= n && forall i :: 0 <= i < n ==> declared[i] == name[i] {
      assert declared[..n] == name[..n];
    } else if SharesPrefix(declared, name, n) && |declared| >= n && |name| >= n {
      forall i | 0 <= i < n ensures declared[i] == name[i] { assert declared[..n][i] == name[..n][i]; }
    }
  }

  /** `names[k]` is within `maxDist`, closer than every name before it, and no later one is closer. */
  ghost predicate FirstClosest(declared: string, names: seq<string>, maxDist: int, k: nat) {
    && k < |names| && Dist(declared, names[k]) <= maxDist
    && forall i :: 0 <= i < |names| ==>
         && Dist(declared, names[k]) <= Dist(declared, names[i])
         && (i < k ==> Dist(declared, names[k]) < Dist(declared, names[i]))
  }

  ghost predicate OutOfReach(declared: string, names: seq<string>, maxDist: int) {
    forall i :: 0 <= i < |names| ==> Dist(declared, names[i]) > maxDist
  }

  ghost predicate NoSharer(declared: string, names: seq<string>, n: nat) {
    forall i :: 0 <= i < |names| ==> !SharesPrefix(declared, names[i], n)
  }

  /** The best name so far, at position `k` if there is one. */
  ghost predicate Best(declared: string, names: seq<string>, maxDist: int, r: Option<string>, k: nat) {
    if r.None? then OutOfReach(declared, names, maxDist)
    else FirstClosest(declared, names, maxDist, k) && r.value == names[k]
  }

  lemma BestSnoc(declared: string, names: seq<string>, maxDist: int, r: Option<string>, k: nat, name: string)
    requires Best(declared, names, maxDist, r, k)
    ensures var d := Dist(declared, name);
            if d <= maxDist && (r.Some? ==> d < Dist(declared, names[k]))
            then Best(declared, names + [name], maxDist, Some(name), |names|)
            else Best(declared, names + [name], maxDist, r, k)
  {
  }

  /** `_find_near_miss`: the first name sharing the prefix if there is one, else the first closest name within
      reach, else nothing. */
  method FindNearMiss(declared: string, existing: seq<string>, maxDist: int, prefixLen: nat) returns (r: Option<string>)
    ensures !NoSharer(declared, existing, prefixLen) ==>
              exists i :: 0 <= i < |existing| && SharesPrefix(declared, existing[i], prefixLen)
                          && NoSharer(declared, existing[..i], prefixLen) && r == Some(existing[i])
    ensures NoSharer(declared, existing, prefixLen) ==>
              exists k: nat :: Best(declared, existing, maxDist, r, k)
  {
    hide Dist, SharesPrefix, FirstClosest, OutOfReach;
    r := None;
    var bestDist := maxDist + 1;
    ghost var k: nat := 0;
    assert Best(declared, [], maxDist, None, 0) by { StartsOutOfReach(declared, maxDist); }
    for n := 0 to |existing|
      invariant NoSharer(declared, existing[..n], prefixLen)
      invariant Best(declared, existing[..n], maxDist, r, k) && (r.Some? ==> k < n)
      invariant bestDist == if r.Some? then Dist(declared, existing[k]) else maxDist + 1
    {
      if SharesPrefix(declared, existing[n], prefixLen) { return Some(existing[n]); }
      var d := Levenshtein(declared, existing[n]);
      BestSnoc(declared, existing[..n], maxDist, r, k, existing[n]);
      assert existing[..n + 1] == existing[..n] + [existing[n]];
      if d <= maxDist && d < bestDist {
        bestDist := d;
        r := Some(existing[n]);
        k := n;
      }
    }
    assert existing[..|existing|] == existing;
  }

  lemma StartsOutOfReach(declared: string, maxDist: int)
    ensures OutOfReach(declared, [], maxDist)
  {
  }
}
