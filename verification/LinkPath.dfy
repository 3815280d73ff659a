/** The path between two links of a tree, found by a search that backs out of wrong turns. */
module LinkPaths {
  import opened Counting
  import opened Links
  import opened LinkTraverses

  // ---- paths, as indices ----

  ghost predicate Neighbours(t: Shape, a: int, b: int)
    requires t.IsLink(a) && t.IsLink(b)
  {
    (a != 0 && t.parent[a] == b) || (b != 0 && t.parent[b] == a)
  }

  /** A walk from link to neighbouring link that meets no link twice. */
  ghost predicate SimplePath(t: Shape, p: seq<int>, from: int, to: int) {
    && |p| > 0 && p[0] == from && p[|p| - 1] == to && Distinct(p)
    && (forall j | 0 <= j < |p| :: t.IsLink(p[j]))
    && (forall j | 0 < j < |p| :: Step(t, p, j))
  }

  ghost predicate Step(t: Shape, p: seq<int>, j: int)
    requires 0 < j < |p| && t.IsLink(p[j - 1]) && t.IsLink(p[j])
  {
    Neighbours(t, p[j - 1], p[j])
  }

  /** The child of i towards e, a link below it. */
  ghost function Towards(t: Shape, e: int, i: int): (c: int)
    requires t.Valid() && t.IsLink(e) && t.IsLink(i) && OnPath(t, e, i) && e != i
    ensures i < c < |t.parent| && t.parent[c] == i && OnPath(t, e, c)
    decreases e
  {
    if t.parent[e] == i then e else Towards(t, t.parent[e], i)
  }

  /** How many links above i a path to e has to go. */
  ghost function UpSteps(t: Shape, i: int, e: int): nat
    requires t.Valid() && t.IsLink(i) && t.IsLink(e)
    decreases i
  {
    if OnPath(t, e, i) then 0
    else
      RootOnPath(t, e);
      1 + UpSteps(t, t.parent[i], e)
  }

  /** The path from i to e: up while e is not below, then down. */
  ghost function PathTo(t: Shape, i: int, e: int): (p: seq<int>)
    requires t.Valid() && t.IsLink(i) && t.IsLink(e)
    ensures |p| > 0 && p[0] == i
    decreases if OnPath(t, e, i) then 0 else 1, if OnPath(t, e, i) then |t.parent| - i else i
  {
    if e == i then [i]
    else if OnPath(t, e, i) then [i] + PathTo(t, Towards(t, e, i), e)
    else
      RootOnPath(t, e);
      [i] + PathTo(t, t.parent[i], e)
  }

  /** A simple path that goes down to c stays below c. */
  lemma {:induction false} StaysBelow(t: Shape, p: seq<int>, from: int, to: int, j: int)
    requires t.Valid() && SimplePath(t, p, from, to) && |p| > 1 && p[1] != 0 && t.parent[p[1]] == p[0] && 0 < j < |p|
    ensures OnPath(t, p[j], p[1])
    decreases j
  {
    if j > 1 {
      StaysBelow(t, p, from, to, j - 1);
      assert Step(t, p, j);
    }
  }

  /** A simple path that goes up from i never comes back below i. */
  lemma {:induction false} StaysAside(t: Shape, p: seq<int>, from: int, to: int, j: int)
    requires t.Valid() && SimplePath(t, p, from, to) && |p| > 1 && p[0] != 0 && t.parent[p[0]] == p[1] && 0 < j < |p|
    ensures !OnPath(t, p[j], p[0])
    decreases j
  {
    if j > 1 {
      StaysAside(t, p, from, to, j - 1);
      assert Step(t, p, j);
    } else if OnPath(t, p[1], p[0]) {
      PathDescends(t, p[1], p[0]);
    }
  }

  lemma RestOfPath(t: Shape, p: seq<int>, from: int, to: int)
    requires SimplePath(t, p, from, to) && |p| > 1
    ensures SimplePath(t, p[1..], p[1], to)
  {
    var q := p[1..];
    forall j | 0 < j < |q| ensures Step(t, q, j) {
      assert Step(t, p, j + 1);
    }
  }

  /** There is no other simple path. */
  lemma {:induction false} PathUnique(t: Shape, p: seq<int>, i: int, e: int)
    requires t.Valid() && t.IsLink(i) && t.IsLink(e) && SimplePath(t, p, i, e)
    ensures p == PathTo(t, i, e)
    decreases |p|
  {
    if |p| > 1 {
      assert Step(t, p, 1);
      RestOfPath(t, p, i, e);
      var rest := p[1..];
      assert p == [i] + rest && rest[|rest| - 1] == e;
      PathUnique(t, rest, p[1], e);
      if p[1] != 0 && t.parent[p[1]] == i {
        StaysBelow(t, p, i, e, |p| - 1);
        PathThrough(t, e, p[1]);
        if Towards(t, e, i) != p[1] {
          BranchesApart(t, e, Towards(t, e, i), p[1]);
        }
      } else {
        StaysAside(t, p, i, e, |p| - 1);
      }
    }
  }

  /** Step j of p goes to the parent if it is one of the first n, and to a child otherwise. */
  ghost predicate Climbs(t: Shape, p: seq<int>, j: int, n: nat)
    requires 0 < j < |p|
  {
    && t.IsLink(p[j - 1]) && t.IsLink(p[j])
    && if j <= n then p[j - 1] != 0 && t.parent[p[j - 1]] == p[j] else p[j] != 0 && t.parent[p[j]] == p[j - 1]
  }

  ghost predicate ClimbsFirst(t: Shape, p: seq<int>, n: nat) {
    n < |p| && forall j | 0 < j < |p| :: Climbs(t, p, j, n)
  }

  /** One more link in front of a path that does not hold it, a step up or, before a path that only
      goes down, a step down. */
  lemma PathInFront(t: Shape, i: int, rest: seq<int>, next: int, e: int, n: nat, m: nat)
    requires t.IsLink(i) && SimplePath(t, rest, next, e) && i !in rest && ClimbsFirst(t, rest, n)
    requires (m == n + 1 && i != 0 && t.parent[i] == next) || (m == n == 0 && next != 0 && t.parent[next] == i)
    ensures SimplePath(t, [i] + rest, i, e) && ClimbsFirst(t, [i] + rest, m)
  {
    var p := [i] + rest;
    DistinctAppend([i], rest);
    forall j | 0 < j < |p| ensures Climbs(t, p, j, m) && Step(t, p, j) {
      assert p[j] == rest[j - 1];
      if j > 1 {
        assert p[j - 1] == rest[j - 2];
        assert Step(t, rest, j - 1) && Climbs(t, rest, j - 1, n);
      }
    }
  }

  /** Below the start the path only goes down. */
  lemma {:induction false} PathDown(t: Shape, i: int, e: int)
    requires t.Valid() && t.IsLink(i) && t.IsLink(e) && OnPath(t, e, i)
    ensures SimplePath(t, PathTo(t, i, e), i, e) && ClimbsFirst(t, PathTo(t, i, e), 0)
    ensures forall l | l in PathTo(t, i, e) :: t.IsLink(l) && OnPath(t, l, i)
    decreases |t.parent| - i
  {
    var p := PathTo(t, i, e);
    if e != i {
      var c := Towards(t, e, i);
      var rest := PathTo(t, c, e);
      PathDown(t, c, e);
      assert p == [i] + rest;
      forall l | l in rest ensures OnPath(t, l, i) && l != i {
        PathThrough(t, l, c);
        PathDescends(t, l, c);
      }
      PathInFront(t, i, rest, c, e, 0, 0);
    }
  }

  /** PathTo is a simple path; its first UpSteps steps go to the parent, all later ones to a child. */
  lemma {:induction false} PathIsSimple(t: Shape, i: int, e: int)
    requires t.Valid() && t.IsLink(i) && t.IsLink(e)
    ensures SimplePath(t, PathTo(t, i, e), i, e) && ClimbsFirst(t, PathTo(t, i, e), UpSteps(t, i, e))
    ensures !OnPath(t, e, i) ==> forall l | l in PathTo(t, i, e) && l != i :: t.IsLink(l) && !OnPath(t, l, i)
    decreases i
  {
    if OnPath(t, e, i) {
      PathDown(t, i, e);
    } else {
      RootOnPath(t, e);
      var up := t.parent[i];
      var rest := PathTo(t, up, e);
      PathIsSimple(t, up, e);
      forall l | l in rest ensures t.IsLink(l) && !OnPath(t, l, i) {
        RestIsAside(t, i, e, l);
      }
      assert PathTo(t, i, e) == [i] + rest;
      PathInFront(t, i, rest, up, e, UpSteps(t, up, e), UpSteps(t, i, e));
    }
  }

  lemma RestIsAside(t: Shape, i: int, e: int, l: int)
    requires t.Valid() && t.IsLink(i) && t.IsLink(e) && i != 0 && !OnPath(t, e, i) && l in PathTo(t, t.parent[i], e)
    requires !OnPath(t, e, t.parent[i]) ==> l == t.parent[i] || (t.IsLink(l) && !OnPath(t, l, t.parent[i]))
    ensures t.IsLink(l) && !OnPath(t, l, i)
  {
    var up := t.parent[i];
    PathStarts(t, up);
    if OnPath(t, e, up) {
      if l != up {
        var c := Towards(t, e, up);
        PathDown(t, c, e);
        assert l in PathTo(t, c, e);
        BranchesApart(t, l, c, i);
      }
    } else if l != up && OnPath(t, l, i) {
      PathThrough(t, l, i);
    }
  }

  // ---- the search ----

  /** Whether link e is to be found from link i, reached from its neighbour k (or from nowhere, -1). */
  ghost predicate Ahead(t: Shape, i: int, k: int, e: int)
    requires t.Valid() && t.IsLink(i)
  {
    t.IsLink(e) && if k != -1 && k == t.parent[i] then OnPath(t, e, i) else k == -1 || !OnPath(t, e, k)
  }

  ghost predicate From(t: Shape, i: int, k: int)
    requires t.Valid() && t.IsLink(i)
  {
    k == -1 || (i != 0 && k == t.parent[i]) || (t.IsLink(k) && k != 0 && t.parent[k] == i)
  }

  /** The sought link: a link of the tree, or (-1) one of some other tree. */
  ghost predicate Sought(all: seq<Link>, end: Link, e: int) {
    if e == -1 then end !in all else 0 <= e < |all| && end == all[e]
  }

  lemma PathInRange(t: Shape, i: int, e: int, all: seq<Link>)
    requires t.Valid() && t.IsLink(i) && t.IsLink(e) && |all| == |t.parent|
    ensures AllLinks(all, PathTo(t, i, e))
  {
    PathIsSimple(t, i, e);
  }

  /** No link of another tree is ahead, and none below i is ahead of its parent. */
  lemma AheadIsLink(t: Shape, i: int, k: int, e: int)
    requires t.Valid() && t.IsLink(i)
    ensures Ahead(t, i, k, e) ==> t.IsLink(e)
    ensures i != 0 ==> (Ahead(t, t.parent[i], i, e) <==> t.IsLink(e) && !OnPath(t, e, i))
  {
    hide OnPath;
  }

  /** Ahead of i is i itself, what is below its other children, and what is ahead above. */
  lemma AheadIs(t: Shape, i: int, k: int, e: int)
    requires t.Valid() && t.IsLink(i) && t.IsLink(e) && From(t, i, k)
    ensures Ahead(t, i, k, e)
       <==> e == i || InBranch(t, t.child[i], k, e) || (i != 0 && k != t.parent[i] && !OnPath(t, e, i))
  {
    RootOnPath(t, e);
    PathStarts(t, i);
    if k == -1 || (i != 0 && k == t.parent[i]) {
      BelowOrSelf(t, i, -1, e);
      NoParentBelow(t, i, k, e);
    } else {
      BelowOrSelf(t, i, k, e);
      if OnPath(t, e, k) {
        PathThrough(t, e, k);
      }
    }
  }

  /** The parent of i is not among its children. */
  lemma NoParentBelow(t: Shape, i: int, k: int, e: int)
    requires t.Valid() && t.IsLink(i) && t.IsLink(e) && k < i
    ensures InBranch(t, t.child[i], k, e) <==> InBranch(t, t.child[i], -1, e)
  {
    forall c | t.InChain(t.child[i], c) ensures c > i {
      ChainParent(t, t.child[i], c);
    }
    if InBranch(t, t.child[i], k, e) {
      var c :| BranchOf(t, t.child[i], k, e, c);
      assert BranchOf(t, t.child[i], -1, e, c);
    }
    if InBranch(t, t.child[i], -1, e) {
      var c :| BranchOf(t, t.child[i], -1, e, c);
      assert BranchOf(t, t.child[i], k, e, c);
    }
  }

  class LinkPath {
    var links: seq<Link>
    var numUpwardConnections: nat

    constructor ()
      ensures links == [] && numUpwardConnections == 0
    {
      links, numUpwardConnections := [], 0;
    }

    /** What a search from link i leaves: the path from it, if the sought link is ahead, and otherwise
        what was there before. */
    ghost predicate Searched(found: bool, links0: seq<Link>, n0: int, all: seq<Link>, t: Shape, i: int, e: int)
      requires t.Valid() && t.IsLink(i) && |all| == |t.parent|
      reads this
    {
      if found then
        && t.IsLink(e) && AllLinks(all, PathTo(t, i, e))
        && links == links0 + LinksAt(all, PathTo(t, i, e)) && numUpwardConnections == n0 + UpSteps(t, i, e)
      else
        links == links0 && numUpwardConnections == n0
    }

    method FindPathSub(link: Link, prev: Link?, end: Link, isUpward: bool,
                       ghost all: seq<Link>, ghost t: Shape, ghost i: int, ghost k: int,
                       ghost e: int) returns (found: bool)
      requires Wired(all, t) && t.IsLink(i) && link == all[i] && Sought(all, end, e)
      requires From(t, i, k) && prev == Pointer(all, k)
      modifies this
      ensures found <==> Ahead(t, i, k, e)
      ensures Searched(found, old(links), old(numUpwardConnections) + if found && isUpward then 1 else 0, all, t, i, e)
      decreases if k != -1 && k == t.parent[i] then 0 else 1,
                if k != -1 && k == t.parent[i] then |t.parent| - i else i, 1
    {
      hide Wired, Shape.Valid, LinksAt, AllLinks, PathTo, UpSteps, Ahead, OnPath, BranchOf;
      WiresOf(all, t, i);
      PathsFrom(t, i, e, all);
      AheadIsLink(t, i, k, e);
      if i != 0 {
        WiresOf(all, t, t.parent[i]);
      }
      if t.IsLink(e) {
        AheadIs(t, i, k, e);
      }
      ghost var links0 := links;
      links := links + [link];
      if isUpward {
        numUpwardConnections := numUpwardConnections + 1;
      }
      if link == end {
        return true;
      }
      found := SearchChildren(link, prev, end, all, t, i, k, e);
      if found {
        Associate(links0, [link], LinksAt(all, PathTo(t, Towards(t, e, i), e)));
        return;
      }
      var parent := link.parent;
      if parent != null && parent != prev {
        found := FindPathSub(parent, link, end, true, all, t, t.parent[i], i, e);
        if found {
          Associate(links0, [link], LinksAt(all, PathTo(t, t.parent[i], e)));
          return;
        }
      }
      links := links[..|links| - 1];
      if isUpward {
        numUpwardConnections := numUpwardConnections - 1;
      }
      assert links == links0;
    }

    /** The loop over the children of a link. */
    method SearchChildren(link: Link, prev: Link?, end: Link,
                          ghost all: seq<Link>, ghost t: Shape, ghost i: int, ghost k: int,
                          ghost e: int) returns (found: bool)
      requires Wired(all, t) && t.IsLink(i) && link == all[i] && Sought(all, end, e) && end != link
      requires From(t, i, k) && prev == Pointer(all, k)
      modifies this
      ensures found <==> t.IsLink(e) && InBranch(t, t.child[i], k, e)
      ensures found ==> OnPath(t, e, i) && e != i && AllLinks(all, PathTo(t, Towards(t, e, i), e))
                        && links == old(links) + LinksAt(all, PathTo(t, Towards(t, e, i), e))
      ensures !found ==> links == old(links)
      ensures numUpwardConnections == old(numUpwardConnections)
      decreases if k != -1 && k == t.parent[i] then 0 else 1,
                if k != -1 && k == t.parent[i] then |t.parent| - i else i, 0
    {
      hide Wired, Shape.Valid, LinksAt, AllLinks, PathTo, OnPath, InBranch;
      WiresOf(all, t, i);
      found := false;
      var child := link.child;
      ghost var c := t.child[i];
      while child != null
        invariant t.IsPointer(c) && child == Pointer(all, c) && (c != -1 ==> i < c && t.parent[c] == i)
        invariant t.IsLink(e) ==> (InBranch(t, t.child[i], k, e) <==> InBranch(t, c, k, e))
        invariant links == old(links) && numUpwardConnections == old(numUpwardConnections) && !found
        decreases if c == -1 then 0 else |t.parent| - c
      {
        WiresOf(all, t, c);
        if t.IsLink(e) {
          InFirstOrLater(t, c, k, e);
          TowardsIs(t, e, i, c);
        }
        if child != prev {
          found := FindPathSub(child, link, end, false, all, t, c, i, e);
          if found {
            return;
          }
        }
        child := child.sibling;
        c := t.sibling[c];
        NoBranch(t, k, e);
      }
      NoBranch(t, k, e);
    }

    /** The path from base to end, if they are in one tree; otherwise nothing. */
    method Find(base: Link, end: Link, ghost all: seq<Link>, ghost t: Shape, ghost i: int, ghost e: int)
      returns (found: bool)
      requires Wired(all, t) && t.IsLink(i) && base == all[i] && Sought(all, end, e)
      modifies this
      ensures found <==> end in all
      ensures found ==> AllLinks(all, PathTo(t, i, e)) && links == LinksAt(all, PathTo(t, i, e))
      ensures found ==> numUpwardConnections == UpSteps(t, i, e)
      ensures !found ==> links == [] && numUpwardConnections == 0
    {
      hide PathTo, LinksAt, AllLinks;
      links := [];
      numUpwardConnections := 0;
      found := FindPathSub(base, null, end, false, all, t, i, -1, e);
      if !found {
        links := [];
      }
    }

    /** The way from a link up to the root. */
    method FindPathFromRootSub(link: Link, ghost all: seq<Link>, ghost t: Shape, ghost i: int)
      requires Wired(all, t) && t.IsLink(i) && link == all[i]
      modifies this`links
      ensures AllLinks(all, PathTo(t, i, 0)) && links == old(links) + LinksAt(all, PathTo(t, i, 0))
      decreases i
    {
      hide Wired, Shape.Valid, LinksAt, AllLinks, PathTo;
      WiresOf(all, t, i);
      PathsFrom(t, i, 0, all);
      OnlyRootAboveRoot(t, i);
      ghost var links0 := links;
      links := links + [link];
      if link.parent != null {
        FindPathFromRootSub(link.parent, all, t, t.parent[i]);
        Associate(links0, [link], LinksAt(all, PathTo(t, t.parent[i], 0)));
      }
    }

    /** The path from the root to end. */
    method FindFromRoot(end: Link, ghost all: seq<Link>, ghost t: Shape, ghost e: int)
      requires Wired(all, t) && t.IsLink(e) && end == all[e]
      modifies this
      ensures AllLinks(all, PathTo(t, 0, e)) && links == LinksAt(all, PathTo(t, 0, e)) && numUpwardConnections == 0
    {
      links := [];
      numUpwardConnections := 0;
      FindPathFromRootSub(end, all, t, e);
      Backwards(t, e, 0);
      PathInRange(t, 0, e, all);
      links := Reversed(links);
    }
  }

  function Reversed<T>(s: seq<T>): (r: seq<T>)
    ensures |r| == |s| && forall k | 0 <= k < |s| :: r[k] == s[|s| - 1 - k]
  {
    seq(|s|, k requires 0 <= k < |s| => s[|s| - 1 - k])
  }

  lemma ReversedIsSimple(t: Shape, p: seq<int>, from: int, to: int)
    requires SimplePath(t, p, from, to)
    ensures SimplePath(t, Reversed(p), to, from)
  {
    var r := Reversed(p);
    forall j | 0 < j < |r| ensures Step(t, r, j) {
      assert Step(t, p, |p| - j);
    }
  }

  /** The path back is the path reversed. */
  lemma Backwards(t: Shape, i: int, e: int)
    requires t.Valid() && t.IsLink(i) && t.IsLink(e)
    ensures PathTo(t, e, i) == Reversed(PathTo(t, i, e))
  {
    PathIsSimple(t, i, e);
    ReversedIsSimple(t, PathTo(t, i, e), i, e);
    PathUnique(t, Reversed(PathTo(t, i, e)), e, i);
  }

  lemma OnlyRootAboveRoot(t: Shape, i: int)
    requires t.Valid() && t.IsLink(i)
    ensures OnPath(t, 0, i) <==> i == 0
  {
    PathStarts(t, 0);
  }

  lemma NoBranch(t: Shape, k: int, e: int)
    requires t.Valid()
    ensures t.IsLink(e) ==> !InBranch(t, -1, k, e)
  {}

  lemma TowardsIs(t: Shape, e: int, i: int, c: int)
    requires t.Valid() && t.IsLink(e) && t.IsLink(i) && t.IsLink(c) && c != 0 && t.parent[c] == i
    ensures OnPath(t, e, c) ==> OnPath(t, e, i) && e != i && Towards(t, e, i) == c && UpSteps(t, c, e) == 0
  {
    if OnPath(t, e, c) {
      PathThrough(t, e, c);
      PathDescends(t, e, c);
      if Towards(t, e, i) != c {
        BranchesApart(t, e, Towards(t, e, i), c);
      }
    }
  }

  /** The path from i, by its first step. */
  lemma PathsFrom(t: Shape, i: int, e: int, all: seq<Link>)
    requires t.Valid() && t.IsLink(i) && |all| == |t.parent|
    ensures e == i ==>
      UpSteps(t, i, e) == 0 && AllLinks(all, PathTo(t, i, e)) && LinksAt(all, PathTo(t, i, e)) == [all[i]]
    ensures t.IsLink(e) && e != i && OnPath(t, e, i) ==>
      && UpSteps(t, i, e) == 0
      && AllLinks(all, PathTo(t, i, e)) && AllLinks(all, PathTo(t, Towards(t, e, i), e))
      && LinksAt(all, PathTo(t, i, e)) == [all[i]] + LinksAt(all, PathTo(t, Towards(t, e, i), e))
    ensures t.IsLink(e) && !OnPath(t, e, i) ==>
      && i != 0 && t.IsLink(t.parent[i]) && UpSteps(t, i, e) == 1 + UpSteps(t, t.parent[i], e)
      && AllLinks(all, PathTo(t, i, e)) && AllLinks(all, PathTo(t, t.parent[i], e))
      && LinksAt(all, PathTo(t, i, e)) == [all[i]] + LinksAt(all, PathTo(t, t.parent[i], e))
  {
    LinksAtFew(all, i);
    if t.IsLink(e) {
      RootOnPath(t, e);
      PathInRange(t, i, e, all);
      if e != i && OnPath(t, e, i) {
        PathInRange(t, Towards(t, e, i), e, all);
        LinksAtAppend(all, [i], PathTo(t, Towards(t, e, i), e));
      } else if e != i {
        PathInRange(t, t.parent[i], e, all);
        LinksAtAppend(all, [i], PathTo(t, t.parent[i], e));
      }
    }
  }
}
