/** Which repositories a migration takes along, and which leaves a source group aggregates. */
module NexusGroups {
  import opened Prelude

  datatype Repository = Repository(name: string, isGroup: bool, members: seq<string>)

  predicate Blank(c: char) {
    c == ' ' || c == '\t' || c == '\n' || c == '\r'
  }

  function TrimSpace(s: string): string {
    if s != "" && Blank(s[0]) then TrimSpace(s[1..])
    else if s != "" && Blank(s[|s| - 1]) then TrimSpace(s[..|s| - 1])
    else s
  }

  /** The repositories by name; of two with one name the later stands. */
  function ByName(source: seq<Repository>): (m: map<string, Repository>)
    ensures forall n :: n in m ==> m[n].name == n && m[n] in source
    ensures forall r :: r in source ==> r.name in m
  {
    if source == [] then map[]
    else ByName(source[..|source| - 1])[source[|source| - 1].name := source[|source| - 1]]
  }

  predicate IsGroup(byName: map<string, Repository>, n: string) {
    n in byName && byName[n].isGroup
  }

  /** A group's members are in with it. */
  ghost predicate Closed(byName: map<string, Repository>, allow: set<string>) {
    forall g, m :: g in allow && IsGroup(byName, g) && m in byName[g].members && TrimSpace(m) != "" ==>
           TrimSpace(m) in allow
  }

  ghost predicate InEveryClosedSet(byName: map<string, Repository>, start: set<string>, n: string) {
    forall all: set<string> :: start <= all && Closed(byName, all) ==> n in all
  }

  function MemberNames(source: seq<Repository>): set<string> {
    set r, m | r in source && m in r.members :: TrimSpace(m)
  }

  /** One pass over the names on the list: members of the groups among them are added. */
  method AddMembers(byName: map<string, Repository>, start: set<string>, group: Repository, allow: set<string>)
    returns (out: set<string>)
    requires group.name in allow && IsGroup(byName, group.name) && byName[group.name] == group
    requires forall n :: n in allow ==> InEveryClosedSet(byName, start, n)
    ensures allow <= out && forall n :: n in out ==> InEveryClosedSet(byName, start, n)
    ensures forall m :: m in group.members && TrimSpace(m) != "" ==> TrimSpace(m) in out
    ensures out <= allow + set m | m in group.members :: TrimSpace(m)
  {
    out := allow;
    for i := 0 to |group.members|
      invariant allow <= out && forall n :: n in out ==> InEveryClosedSet(byName, start, n)
      invariant forall k :: 0 <= k < i && TrimSpace(group.members[k]) != "" ==> TrimSpace(group.members[k]) in out
      invariant out <= allow + set m | m in group.members :: TrimSpace(m)
    {
      var member := TrimSpace(group.members[i]);
      if member == "" || member in out {
        continue;
      }
      assert group.members[i] in group.members;
      assert InEveryClosedSet(byName, start, group.name);
      out := out + {member};
    }
  }

  /**
   The allow-list with the members of every group on it, nested ones included: the least set that
   holds the given names and is closed under group membership.
   */
  method ExpandRepoAllowSet(start: set<string>, source: seq<Repository>) returns (allow: set<string>)
    ensures start <= allow && Closed(ByName(source), allow)
    ensures forall all: set<string> :: start <= all && Closed(ByName(source), all) ==> allow <= all
  {
    var byName := ByName(source);
    allow := start;
    var changed := true;
    while changed
      invariant start <= allow <= start + MemberNames(source)
      invariant forall n :: n in allow ==> InEveryClosedSet(byName, start, n)
      invariant !changed ==> Closed(byName, allow)
      decreases (start + MemberNames(source)) - allow, changed
    {
      var before := allow;
      var names := allow;
      while names != {}
        invariant before <= allow <= start + MemberNames(source) && names <= before
        invariant forall n :: n in allow ==> InEveryClosedSet(byName, start, n)
        invariant forall g, m ::
                    g in before && g !in names && IsGroup(byName, g) && m in byName[g].members && TrimSpace(m) != ""
                    ==> TrimSpace(m) in allow
        decreases names
      {
        var n :| n in names;
        names := names - {n};
        if IsGroup(byName, n) {
          assert byName[n] in source;
          allow := AddMembers(byName, start, byName[n], allow);
        }
      }
      changed := allow != before;
    }
  }

  // ---------------------------------------------------------------- flattening

  /** What a group lists; the one being flattened lists what it was given with. */
  function Members(src: Repository, byName: map<string, Repository>, g: string): seq<string>
    requires IsGroup(byName, g)
  {
    if g == src.name then src.members else byName[g].members
  }

  /** A chain of membership from the source group: every name but the last is a known group. */
  predicate Chain(src: Repository, byName: map<string, Repository>, path: seq<string>) {
    && path != [] && path[0] in src.members
    && forall i :: 0 <= i < |path| - 1 ==> IsGroup(byName, path[i]) && path[i + 1] in Members(src, byName, path[i])
  }

  ghost predicate Reachable(src: Repository, byName: map<string, Repository>, n: string) {
    exists path :: Chain(src, byName, path) && path[|path| - 1] == n
  }

  lemma ReachMember(src: Repository, byName: map<string, Repository>, g: string, n: string)
    requires IsGroup(byName, g) && (Reachable(src, byName, g) || g == src.name) && n in Members(src, byName, g)
    ensures Reachable(src, byName, n)
  {
    if Reachable(src, byName, g) {
      var path :| Chain(src, byName, path) && path[|path| - 1] == g;
      assert Chain(src, byName, path + [n]);
      assert (path + [n])[|path|] == n;
    } else {
      assert Chain(src, byName, [n]);
    }
  }

  class Flattener {
    const src: Repository
    const byName: map<string, Repository>
    var out: seq<string>
    var expanded: set<string>

    constructor (src: Repository, byName: map<string, Repository>)
      ensures this.src == src && this.byName == byName && out == [] && expanded == {src.name}
    {
      this.src, this.byName := src, byName;
      out, expanded := [], {src.name};
    }

    ghost predicate Valid()
      reads this
    {
      && (forall i, j :: 0 <= i < j < |out| ==> out[i] != out[j])
      && (forall n :: n in out ==> !IsGroup(byName, n) && Reachable(src, byName, n))
      && src.name in expanded
      && (forall g :: g in expanded && g != src.name ==> IsGroup(byName, g) && Reachable(src, byName, g))
    }

    predicate Taken(n: string)
      reads this
    {
      if IsGroup(byName, n) then n in expanded else n in out
    }

    ghost predicate Done(g: string)
      reads this
    {
      IsGroup(byName, g) ==> forall m :: m in Members(src, byName, g) ==> Taken(m)
    }

    method Walk(names: seq<string>, ghost open: set<string>)
      requires Valid() && forall g :: g in expanded && g !in open ==> Done(g)
      requires forall n :: n in names ==> Reachable(src, byName, n)
      modifies this`out, this`expanded
      ensures Valid() && forall g :: g in expanded && g !in open ==> Done(g)
      ensures forall n :: n in names ==> Taken(n)
      ensures old(expanded) <= expanded && old(out) <= out
      decreases byName.Keys - expanded, |names|
    {
      for i := 0 to |names|
        invariant Valid() && forall g :: g in expanded && g !in open ==> Done(g)
        invariant forall k :: 0 <= k < i ==> Taken(names[k])
        invariant old(expanded) <= expanded && old(out) <= out
      {
        var n := names[i];
        if IsGroup(byName, n) {
          if n in expanded { continue; }
          ghost var before := expanded;
          expanded := expanded + {n};
          forall m | m in byName[n].members ensures Reachable(src, byName, m) {
            ReachMember(src, byName, n, m);
          }
          assert byName.Keys - expanded < byName.Keys - before;
          Walk(byName[n].members, open + {n});
          assert Done(n);
        } else if n !in out {
          out := out + [n];
        }
      }
    }
  }

  lemma {:induction false} ChainIsTaken(f: Flattener, path: seq<string>)
    requires forall g :: g in f.expanded ==> f.Done(g)
    requires forall n :: n in f.src.members ==> f.Taken(n)
    requires Chain(f.src, f.byName, path)
    ensures f.Taken(path[|path| - 1])
    decreases |path|
  {
    if |path| > 1 {
      var init := path[..|path| - 1];
      assert Chain(f.src, f.byName, init);
      ChainIsTaken(f, init);
      var g := path[|path| - 2];
      assert IsGroup(f.byName, g) && path[|path| - 1] in Members(f.src, f.byName, g);
      assert f.Done(g);
    }
  }

  /**
   The leaves a group ultimately aggregates: exactly the names reachable through group membership
   that are no known group themselves, each once. A cycle only stops contributing.
   */
  method FlattenGroupMembers(src: Repository, byName: map<string, Repository>) returns (out: seq<string>)
    ensures forall n :: n in out <==> !IsGroup(byName, n) && Reachable(src, byName, n)
    ensures forall i, j :: 0 <= i < j < |out| ==> out[i] != out[j]
  {
    var f := new Flattener(src, byName);
    forall n | n in src.members ensures Reachable(src, byName, n) {
      assert Chain(src, byName, [n]);
    }
    f.Walk(src.members, {src.name});
    assert f.Done(src.name);
    forall n | !IsGroup(byName, n) && Reachable(src, byName, n) ensures n in f.out {
      var path :| Chain(src, byName, path) && path[|path| - 1] == n;
      ChainIsTaken(f, path);
    }
    out := f.out;
  }

  predicate PlainNames(source: seq<Repository>) {
    forall r, m :: r in source && m in r.members ==> m != "" && TrimSpace(m) == m
  }

  lemma {:induction false} ChainIsAllowed(source: seq<Repository>, allow: set<string>, src: Repository,
                                          path: seq<string>)
    requires PlainNames(source) && Closed(ByName(source), allow)
    requires src.name in allow && src.isGroup && src.name in ByName(source) && ByName(source)[src.name] == src
    requires Chain(src, ByName(source), path)
    ensures path[|path| - 1] in allow
    decreases |path|
  {
    var byName := ByName(source);
    if |path| == 1 {
      assert src in source && path[0] in src.members;
      assert IsGroup(byName, src.name) && path[0] in byName[src.name].members && TrimSpace(path[0]) == path[0];
    } else {
      var init := path[..|path| - 1];
      assert Chain(src, byName, init);
      ChainIsAllowed(source, allow, src, init);
      var g := path[|path| - 2];
      var n := path[|path| - 1];
      assert IsGroup(byName, g) && n in byName[g].members && byName[g] in source;
      assert TrimSpace(n) == n;
    }
  }

  /** The two agree: what an allowed group flattens to is allowed, when names carry no surrounding blanks. */
  lemma FlattenedMembersAreAllowed(source: seq<Repository>, allow: set<string>, src: Repository, n: string)
    requires PlainNames(source) && Closed(ByName(source), allow)
    requires src.name in allow && src.isGroup && src.name in ByName(source) && ByName(source)[src.name] == src
    requires Reachable(src, ByName(source), n)
    ensures n in allow
  {
    var path :| Chain(src, ByName(source), path) && path[|path| - 1] == n;
    ChainIsAllowed(source, allow, src, path);
  }
}
