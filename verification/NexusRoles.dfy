/**
 Ordering source roles so that every role follows the roles it nests, and flattening the
 privileges a role inherits in one pass over that order.
 */
module NexusRoles {
  import opened Prelude

  datatype Role = Role(privileges: seq<string>, nested: seq<string>)

  type Roles = map<string, Role>

  /** `a` nests the known role `b`. */
  predicate Nests(roles: Roles, a: string, b: string) {
    a in roles && b in roles && b in roles[a].nested
  }

  predicate Walk(roles: Roles, path: seq<string>) {
    path != [] && path[0] in roles && forall i :: 0 <= i < |path| - 1 ==> Nests(roles, path[i], path[i + 1])
  }

  /** `b` is `a` or nested in it at some depth. */
  ghost predicate Inherits(roles: Roles, a: string, b: string) {
    b in roles && exists path :: Walk(roles, path) && path[0] == a && path[|path| - 1] == b
  }

  ghost predicate OnCycle(roles: Roles, a: string) {
    exists path :: Walk(roles, path) && |path| > 1 && path[0] == a && path[|path| - 1] == a
  }

  ghost predicate Cyclic(roles: Roles) {
    exists a :: OnCycle(roles, a)
  }

  lemma WalksJoin(roles: Roles, p: seq<string>, q: seq<string>)
    requires Walk(roles, p) && Walk(roles, q) && p[|p| - 1] == q[0]
    ensures Walk(roles, p + q[1..])
    ensures (p + q[1..])[0] == p[0] && (p + q[1..])[|p + q[1..]| - 1] == q[|q| - 1]
  {
    var r := p + q[1..];
    forall i | 0 <= i < |r| - 1 ensures Nests(roles, r[i], r[i + 1]) {
      if i < |p| - 1 {
        assert Nests(roles, p[i], p[i + 1]);
      } else {
        assert Nests(roles, q[i - |p| + 1], q[i - |p| + 2]);
      }
    }
  }

  /** The position of a name in an order, past its end when it is not there. */
  function Index(order: seq<string>, n: string): (i: nat)
    ensures i <= |order| && (n in order <==> i < |order|) && (i < |order| ==> order[i] == n)
    ensures forall k :: 0 <= k < i ==> order[k] != n
  {
    if order == [] then 0 else if order[0] == n then 0 else 1 + Index(order[1..], n)
  }

  predicate Distinct(order: seq<string>) {
    forall i, j :: 0 <= i < j < |order| ==> order[i] != order[j]
  }

  /** Every known role a listed role nests is listed before it. */
  ghost predicate NestedFirst(roles: Roles, order: seq<string>) {
    forall a, b :: a in order && Nests(roles, a, b) ==> Index(order, b) < Index(order, a)
  }

  lemma {:induction false} IndexGrows(order: seq<string>, more: seq<string>, n: string)
    ensures n in order ==> Index(order + more, n) == Index(order, n)
    ensures n !in order ==> Index(order + more, n) == |order| + Index(more, n)
  {
    if order == [] {
      assert order + more == more;
    } else {
      assert (order + more)[1..] == order[1..] + more;
      IndexGrows(order[1..], more, n);
    }
  }

  lemma {:induction false} WalkGoesBack(roles: Roles, order: seq<string>, path: seq<string>)
    requires NestedFirst(roles, order) && (forall a :: a in roles ==> a in order)
    requires Walk(roles, path) && |path| > 1
    ensures Index(order, path[|path| - 1]) < Index(order, path[0])
    decreases |path|
  {
    assert Nests(roles, path[0], path[1]);
    if |path| > 2 {
      assert Walk(roles, path[1..]) by {
        forall i | 0 <= i < |path[1..]| - 1 ensures Nests(roles, path[1..][i], path[1..][i + 1]) {
          assert Nests(roles, path[i + 1], path[i + 2]);
        }
      }
      WalkGoesBack(roles, order, path[1..]);
    }
  }

  // ---------------------------------------------------------------- the sort

  /** Every nested role of a finished one is finished before it, or closed a cycle when it was met. */
  ghost predicate SortedSoFar(roles: Roles, active: set<string>, ordered: seq<string>, inCycle: set<string>) {
    && Distinct(ordered)
    && (forall n :: n in ordered ==> n in roles && n !in active)
    && (forall n :: n in inCycle ==> OnCycle(roles, n))
    && (inCycle == {} ==> NestedFirst(roles, ordered))
  }

  /** A role is finished once its nested roles are. */
  lemma Finished(roles: Roles, active: set<string>, ordered: seq<string>, inCycle: set<string>, name: string)
    requires SortedSoFar(roles, active, ordered, inCycle) && name in active && name in roles
    requires forall k :: 0 <= k < |roles[name].nested| && roles[name].nested[k] in roles ==>
               roles[name].nested[k] in ordered || inCycle != {}
    ensures SortedSoFar(roles, active - {name}, ordered + [name], inCycle)
  {
    if inCycle == {} {
      forall a, b | a in ordered + [name] && Nests(roles, a, b)
        ensures b in ordered + [name] && Index(ordered + [name], b) < Index(ordered + [name], a)
      {
        IndexGrows(ordered, [name], a);
        IndexGrows(ordered, [name], b);
      }
    }
  }

  class RoleSorter {
    const roles: Roles
    var active: set<string>
    var ordered: seq<string>
    var inCycle: set<string>

    constructor (roles: Roles)
      ensures this.roles == roles && active == {} && ordered == [] && inCycle == {}
    {
      this.roles := roles;
      active, ordered, inCycle := {}, [], {};
    }

    ghost predicate Valid()
      reads this
    {
      SortedSoFar(roles, active, ordered, inCycle)
    }

    /**
     `stack` is the chain of roles being visited, from the outermost down to the one that nests
     `name`. Meeting a role on it closes a cycle.
     */
    method Visit(name: string, ghost stack: seq<string>)
      requires Valid() && name in roles && active == (set s | s in stack)
      requires stack != [] ==> Walk(roles, stack) && Nests(roles, stack[|stack| - 1], name)
      modifies this`active, this`ordered, this`inCycle
      ensures Valid() && active == old(active)
      ensures old(ordered) <= ordered && old(inCycle) <= inCycle
      ensures if name in old(active) then name in ordered || name in inCycle else name in ordered
      ensures forall n :: n in ordered && n !in old(ordered) ==> n !in old(active)
      decreases roles.Keys - active
    {
      if name in ordered {
        return;
      }
      if name in active {
        MeetsItself(roles, stack, name);
        inCycle := inCycle + {name};
        return;
      }
      ghost var path := stack + [name];
      assert Walk(roles, path);
      active := active + {name};
      assert active == set s | s in path;
      var nested := roles[name].nested;
      for i := 0 to |nested|
        invariant Valid() && active == old(active) + {name}
        invariant old(ordered) <= ordered && old(inCycle) <= inCycle
        invariant forall k :: 0 <= k < i && nested[k] in roles ==> nested[k] in ordered || inCycle != {}
        invariant forall n :: n in ordered && n !in old(ordered) ==> n !in active
      {
        if nested[i] in roles {
          assert Nests(roles, path[|path| - 1], nested[i]);
          Visit(nested[i], path);
        }
      }
      Finished(roles, active, ordered, inCycle, name);
      active := active - {name};
      assert active == old(active);
      ordered := ordered + [name];
    }
  }

  lemma MeetsItself(roles: Roles, stack: seq<string>, name: string)
    requires Walk(roles, stack) && name in stack && Nests(roles, stack[|stack| - 1], name)
    ensures OnCycle(roles, name)
  {
    var i :| 0 <= i < |stack| && stack[i] == name;
    var loop := stack[i..] + [name];
    forall k | 0 <= k < |loop| - 1 ensures Nests(roles, loop[k], loop[k + 1]) {
      if i + k + 1 < |stack| {
        assert Nests(roles, stack[i + k], stack[i + k + 1]);
      }
    }
    assert Walk(roles, loop);
  }

  lemma OrderedHasNoCycle(roles: Roles, order: seq<string>)
    requires NestedFirst(roles, order) && forall a :: a in roles ==> a in order
    ensures !Cyclic(roles)
  {
    if Cyclic(roles) {
      var a, path :| Walk(roles, path) && |path| > 1 && path[0] == a && path[|path| - 1] == a;
      WalkGoesBack(roles, order, path);
    }
  }

  /**
   Orders all roles, each once. It reports a cycle exactly when there is one, and only roles that
   are on one; without one, every role comes after the roles it nests. (`keys` are the roles'
   names, sorted.)
   */
  method TopoSortRoles(roles: Roles, keys: seq<string>) returns (ordered: seq<string>, cyclic: seq<string>)
    requires forall n :: n in roles <==> n in keys
    ensures Distinct(ordered) && forall n :: n in ordered <==> n in roles
    ensures cyclic != [] <==> Cyclic(roles)
    ensures forall n :: n in cyclic ==> OnCycle(roles, n)
    ensures !Cyclic(roles) ==> NestedFirst(roles, ordered)
  {
    var s := new RoleSorter(roles);
    for i := 0 to |keys|
      invariant fresh(s) && s.roles == roles && s.Valid() && s.active == {}
      invariant forall k :: 0 <= k < i ==> keys[k] in s.ordered
    {
      s.Visit(keys[i], []);
      assert keys[i] in s.ordered;
    }
    ordered := s.ordered;
    if s.inCycle == {} {
      OrderedHasNoCycle(roles, ordered);
    }
    cyclic := [];
    for i := 0 to |keys|
      invariant forall n :: n in cyclic ==> n in s.inCycle
      invariant forall k :: 0 <= k < i && keys[k] in s.inCycle ==> cyclic != []
    {
      if keys[i] in s.inCycle {
        cyclic := cyclic + [keys[i]];
      }
    }
    if cyclic != [] {
      assert cyclic[0] in cyclic;
    }
    forall n | n in s.inCycle ensures cyclic != [] {
      assert OnCycle(roles, n) && n in keys;
    }
  }

  // ---------------------------------------------------------------- inherited privileges

  /** The privileges of a role and of everything nested in it, at any depth. */
  ghost predicate Grants(roles: Roles, a: string, privilege: string) {
    exists b :: Inherits(roles, a, b) && privilege in roles[b].privileges
  }

  lemma InheritsOwn(roles: Roles, a: string)
    requires a in roles
    ensures Inherits(roles, a, a)
  {
    assert Walk(roles, [a]);
  }

  lemma InheritsNested(roles: Roles, a: string, b: string, c: string)
    requires Nests(roles, a, b) && Inherits(roles, b, c)
    ensures Inherits(roles, a, c)
  {
    var path :| Walk(roles, path) && path[0] == b && path[|path| - 1] == c;
    assert Walk(roles, [a, b]);
    WalksJoin(roles, [a, b], path);
  }

  /** A role inherits from itself and from what the roles it nests inherit from; nothing else. */
  lemma InheritsFirstStep(roles: Roles, a: string, c: string) returns (b: string)
    requires Inherits(roles, a, c) && a != c
    ensures Nests(roles, a, b) && Inherits(roles, b, c)
  {
    var path :| Walk(roles, path) && path[0] == a && path[|path| - 1] == c;
    b := path[1];
    assert Nests(roles, path[0], path[1]);
    forall i | 0 <= i < |path[1..]| - 1 ensures Nests(roles, path[1..][i], path[1..][i + 1]) {
      assert Nests(roles, path[i + 1], path[i + 2]);
    }
    assert Walk(roles, path[1..]);
  }

  ghost predicate UpperBound(roles: Roles, effective: map<string, set<string>>) {
    forall a, p :: a in effective && p in effective[a] ==> a in roles && Grants(roles, a, p)
  }

  ghost predicate Exact(roles: Roles, effective: map<string, set<string>>, a: string) {
    a in effective && forall p :: p in effective[a] <==> Grants(roles, a, p)
  }

  /** A role's own privileges, and what is already gathered for the roles it nests. */
  function Gathered(roles: Roles, effective: map<string, set<string>>, name: string): set<string>
    requires name in roles
  {
    (set p | p in roles[name].privileges)
    + (set n, p | n in roles[name].nested && n in effective && p in effective[n] :: p)
  }

  /** The one pass over an order. */
  function EffectiveOf(roles: Roles, order: seq<string>): map<string, set<string>>
    requires forall n :: n in order ==> n in roles
  {
    if order == [] then map[]
    else
      var last := order[|order| - 1];
      var effective := EffectiveOf(roles, order[..|order| - 1]);
      effective[last := Gathered(roles, effective, last)]
  }

  method Gather(roles: Roles, effective: map<string, set<string>>, name: string) returns (own: set<string>)
    requires name in roles
    ensures own == Gathered(roles, effective, name)
  {
    own := set p | p in roles[name].privileges;
    var nested := roles[name].nested;
    for i := 0 to |nested|
      invariant own == (set p | p in roles[name].privileges)
                       + (set n, p | n in nested[..i] && n in effective && p in effective[n] :: p)
    {
      assert nested[..i + 1] == nested[..i] + [nested[i]];
      if nested[i] in effective {
        own := own + effective[nested[i]];
      }
    }
    assert nested[..|nested|] == nested;
  }

  lemma GatheredIsBounded(roles: Roles, effective: map<string, set<string>>, name: string, own: set<string>)
    requires name in roles && UpperBound(roles, effective)
    requires own == Gathered(roles, effective, name)
    ensures forall p :: p in own ==> Grants(roles, name, p)
  {
    InheritsOwn(roles, name);
    forall p | p in own ensures Grants(roles, name, p) {
      if p !in roles[name].privileges {
        var n :| n in roles[name].nested && n in effective && p in effective[n];
        var b :| Inherits(roles, n, b) && p in roles[b].privileges;
        assert Nests(roles, name, n);
        InheritsNested(roles, name, n, b);
      }
    }
  }

  lemma GatheredIsExact(roles: Roles, effective: map<string, set<string>>, name: string, own: set<string>)
    requires name in roles && forall n :: Nests(roles, name, n) ==> Exact(roles, effective, n)
    requires own == Gathered(roles, effective, name)
    ensures forall p :: Grants(roles, name, p) ==> p in own
  {
    forall p | Grants(roles, name, p) ensures p in own {
      var c :| Inherits(roles, name, c) && p in roles[c].privileges;
      if c != name {
        var b := InheritsFirstStep(roles, name, c);
        assert Grants(roles, b, p) && Exact(roles, effective, b);
        assert b in roles[name].nested;
      }
    }
  }

  /** One more role in the pass keeps the bound, and the exactness when its nested roles come first. */
  lemma PassStep(roles: Roles, ordered: seq<string>, i: nat, effective: map<string, set<string>>)
    requires Distinct(ordered) && (forall n :: n in ordered <==> n in roles) && i < |ordered|
    requires effective.Keys == set n | n in ordered[..i]
    requires UpperBound(roles, effective)
    requires NestedFirst(roles, ordered) ==> forall k :: 0 <= k < i ==> Exact(roles, effective, ordered[k])
    ensures var name := ordered[i];
            var next := effective[name := Gathered(roles, effective, name)];
            var done := ordered[..i + 1];
            && name !in effective && next.Keys == (set n | n in done)
            && UpperBound(roles, next)
            && (NestedFirst(roles, ordered) ==> forall k :: 0 <= k <= i ==> Exact(roles, next, ordered[k]))
  {
    hide Gathered;
    var name := ordered[i];
    assert name in ordered;
    var own := Gathered(roles, effective, name);
    GatheredIsBounded(roles, effective, name, own);
    if NestedFirst(roles, ordered) {
      forall n | Nests(roles, name, n) ensures Exact(roles, effective, n) {
        assert ordered[Index(ordered, name)] == name && Index(ordered, name) == i;
        assert Index(ordered, n) < i && n in ordered;
      }
      GatheredIsExact(roles, effective, name, own);
    }
    assert ordered[..i + 1] == ordered[..i] + [name];
  }

  /**
   One pass over the order. On acyclic roles each role ends up with exactly the union of its own
   privileges and all it nests, however deep; on any roles it never gets a privilege beyond that.
   */
  method FlattenPrivileges(roles: Roles, ordered: seq<string>) returns (effective: map<string, set<string>>)
    requires Distinct(ordered) && forall n :: n in ordered <==> n in roles
    ensures effective == EffectiveOf(roles, ordered)
    ensures effective.Keys == roles.Keys && UpperBound(roles, effective)
    ensures NestedFirst(roles, ordered) ==> forall a :: a in roles ==> Exact(roles, effective, a)
  {
    hide Gathered, UpperBound, Exact, NestedFirst, Distinct;
    effective := map[];
    assert UpperBound(roles, map[]) by { NothingGathered(roles); }
    for i := 0 to |ordered|
      invariant effective == EffectiveOf(roles, ordered[..i]) && effective.Keys == set n | n in ordered[..i]
      invariant UpperBound(roles, effective)
      invariant NestedFirst(roles, ordered) ==> forall k :: 0 <= k < i ==> Exact(roles, effective, ordered[k])
    {
      PassStep(roles, ordered, i, effective);
      assert ordered[..i + 1][..i] == ordered[..i];
      var own := Gather(roles, effective, ordered[i]);
      effective := effective[ordered[i] := own];
    }
    assert ordered[..|ordered|] == ordered;
  }

  lemma NothingGathered(roles: Roles)
    ensures UpperBound(roles, map[])
  {
  }

  /** A chain of nestings that goes back in the order at every step. */
  ghost predicate Falls(roles: Roles, order: seq<string>, path: seq<string>) {
    && Walk(roles, path) && path[|path| - 1] in roles
    && forall i :: 0 <= i < |path| - 1 ==> Index(order, path[i + 1]) < Index(order, path[i])
  }

  ghost predicate GrantsFalling(roles: Roles, order: seq<string>, a: string, privilege: string) {
    exists path :: Falls(roles, order, path) && path[0] == a && privilege in roles[path[|path| - 1]].privileges
  }

  lemma FallsOn(roles: Roles, order: seq<string>, a: string, path: seq<string>)
    requires Falls(roles, order, path) && Nests(roles, a, path[0]) && Index(order, path[0]) < Index(order, a)
    ensures Falls(roles, order, [a] + path)
  {
    var longer := [a] + path;
    forall i | 0 <= i < |longer| - 1
      ensures Nests(roles, longer[i], longer[i + 1]) && Index(order, longer[i + 1]) < Index(order, longer[i])
    {
      if i > 0 {
        assert Nests(roles, path[i - 1], path[i]) && Index(order, path[i - 1 + 1]) < Index(order, path[i - 1]);
      }
    }
  }

  lemma FallsFrom(roles: Roles, order: seq<string>, path: seq<string>)
    requires Falls(roles, order, path) && |path| > 1
    ensures Falls(roles, order, path[1..]) && Nests(roles, path[0], path[1])
            && Index(order, path[1]) < Index(order, path[0])
  {
    var rest := path[1..];
    assert Nests(roles, path[0], path[0 + 1]) && Index(order, path[0 + 1]) < Index(order, path[0]);
    forall i | 0 <= i < |rest| - 1
      ensures Nests(roles, rest[i], rest[i + 1]) && Index(order, rest[i + 1]) < Index(order, rest[i])
    {
      assert Nests(roles, path[i + 1], path[i + 2]) && Index(order, path[i + 1 + 1]) < Index(order, path[i + 1]);
    }
  }

  lemma FallingOn(roles: Roles, order: seq<string>, a: string, b: string, p: string)
    requires GrantsFalling(roles, order, b, p) && Nests(roles, a, b) && Index(order, b) < Index(order, a)
    ensures GrantsFalling(roles, order, a, p)
  {
    var path :| Falls(roles, order, path) && path[0] == b && p in roles[path[|path| - 1]].privileges;
    FallsOn(roles, order, a, path);
    var longer := [a] + path;
    assert longer[0] == a && longer[|longer| - 1] == path[|path| - 1];
    hide Falls;
  }

  lemma FallingFrom(roles: Roles, order: seq<string>, a: string, p: string) returns (b: Option<string>)
    requires a in roles && GrantsFalling(roles, order, a, p)
    ensures b.None? ==> p in roles[a].privileges
    ensures b.Some? ==> Nests(roles, a, b.value) && Index(order, b.value) < Index(order, a)
                        && GrantsFalling(roles, order, b.value, p)
  {
    var path :| Falls(roles, order, path) && path[0] == a && p in roles[path[|path| - 1]].privileges;
    if |path| == 1 {
      return None;
    }
    FallsFrom(roles, order, path);
    var rest := path[1..];
    assert rest[0] == path[1] && rest[|rest| - 1] == path[|path| - 1];
    return Some(path[1]);
  }

  /** The roles before place `n` have been passed, each with what falls to it. */
  ghost predicate RightSoFar(roles: Roles, order: seq<string>, n: nat, effective: map<string, set<string>>) {
    && (forall m :: m in effective <==> m in order && Index(order, m) < n)
    && (forall m, q :: m in effective ==> (q in effective[m] <==> GrantsFalling(roles, order, m, q)))
  }

  /** What the pass gathers for the next role, when it is right about the roles before it. */
  lemma GatheredFalls(roles: Roles, order: seq<string>, effective: map<string, set<string>>, name: string, p: string)
    requires (forall m :: m in order ==> m in roles) && name in order
    requires RightSoFar(roles, order, Index(order, name), effective)
    ensures p in Gathered(roles, effective, name) <==> GrantsFalling(roles, order, name, p)
  {
    hide GrantsFalling;
    if p in Gathered(roles, effective, name) {
      if p in roles[name].privileges {
        OwnFalls(roles, order, name, p);
      } else {
        var n :| n in roles[name].nested && n in effective && p in effective[n];
        FallingOn(roles, order, name, n, p);
      }
    }
    if GrantsFalling(roles, order, name, p) {
      var b := FallingFrom(roles, order, name, p);
      assert b.Some? ==> b.value in effective && p in effective[b.value];
    }
  }

  lemma OwnFalls(roles: Roles, order: seq<string>, a: string, p: string)
    requires a in roles && p in roles[a].privileges
    ensures GrantsFalling(roles, order, a, p)
  {
    assert Falls(roles, order, [a]);
  }

  lemma RightNext(roles: Roles, order: seq<string>, i: nat, before: map<string, set<string>>)
    requires Distinct(order) && (forall m :: m in order ==> m in roles) && i < |order|
    requires RightSoFar(roles, order, i, before)
    ensures RightSoFar(roles, order, i + 1, before[order[i] := Gathered(roles, before, order[i])])
  {
    hide GrantsFalling, Gathered;
    var last := order[i];
    assert last in order && Index(order, last) == i;
    var after := before[last := Gathered(roles, before, last)];
    forall m, q | m in after ensures q in after[m] <==> GrantsFalling(roles, order, m, q) {
      if m == last {
        GatheredFalls(roles, order, before, last, q);
      }
    }
    hide Distinct;
    forall m ensures m in after <==> m in order && Index(order, m) < i + 1 {
    }
  }

  lemma {:induction false} PassIsRight(roles: Roles, order: seq<string>, n: nat)
    requires Distinct(order) && (forall m :: m in order ==> m in roles) && n <= |order|
    ensures RightSoFar(roles, order, n, EffectiveOf(roles, order[..n]))
  {
    hide GrantsFalling, Gathered, Distinct;
    if n > 0 {
      PassIsRight(roles, order, n - 1);
      assert order[..n][..n - 1] == order[..n - 1] && order[..n][n - 1] == order[n - 1];
      RightNext(roles, order, n - 1, EffectiveOf(roles, order[..n - 1]));
      hide RightSoFar;
    }
  }

  /**
   What a role gets on any roles, cyclic or not, and in any order: exactly the privileges at the end
   of a chain of nestings that goes back in the order at every step.
   */
  lemma PrivilegesExactly(roles: Roles, order: seq<string>, a: string, p: string)
    requires Distinct(order) && (forall m :: m in order ==> m in roles) && a in order
    ensures a in EffectiveOf(roles, order) && (p in EffectiveOf(roles, order)[a] <==> GrantsFalling(roles, order, a, p))
  {
    PassIsRight(roles, order, |order|);
    assert order[..|order|] == order;
  }

  /**
   What a cycle costs. Of two roles nesting each other the one finished first is short of the
   other's privileges, and the other still gets the first one's: it does not keep only its own.
   */
  lemma CyclicRolesInheritUnevenly()
    ensures var roles: Roles := map["a" := Role(["p"], ["b"]), "b" := Role(["q"], ["a"])];
            var effective := EffectiveOf(roles, ["b", "a"]);
            Cyclic(roles) && Grants(roles, "b", "p") && "p" !in effective["b"] && "q" in effective["a"]
  {
    var roles: Roles := map["a" := Role(["p"], ["b"]), "b" := Role(["q"], ["a"])];
    assert Walk(roles, ["a", "b", "a"]) && OnCycle(roles, "a");
    assert Walk(roles, ["b", "a"]) && Inherits(roles, "b", "a");
    assert "p" in roles["a"].privileges && "q" in roles["b"].privileges;
    assert ["b", "a"][..1] == ["b"] && ["b"][..0] == [];
    var first := EffectiveOf(roles, ["b"]);
    assert first == map["b" := Gathered(roles, map[], "b")] && "q" in first["b"];
    assert "b" in roles["a"].nested;
  }
}
