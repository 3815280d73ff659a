/** The order in which a traversal of the link tree from any base link visits the links: each once,
    ancestors of the base first going up, and otherwise a parent before its children. */
module LinkTraverses {
  import opened Counting
  import opened Links

  /** The link objects are joined as the tables say, whatever their index fields hold. */
  ghost predicate Wired(links: seq<Link>, t: Shape)
    reads links`parent, links`child, links`sibling
  {
    && t.Valid()
    && |links| == |t.parent|
    && Distinct(links)
    && (forall i {:trigger links[i].parent} | 0 <= i < |links| :: links[i].parent == Pointer(links, t.parent[i]))
    && (forall i {:trigger links[i].child} | 0 <= i < |links| :: links[i].child == Pointer(links, t.child[i]))
    && (forall i {:trigger links[i].sibling} | 0 <= i < |links| :: links[i].sibling == Pointer(links, t.sibling[i]))
  }

  /** The pointers of link k. */
  lemma WiresOf(links: seq<Link>, t: Shape, k: int)
    requires Wired(links, t) && t.IsLink(k)
    ensures t.Valid() && |links| == |t.parent| == |t.child| == |t.sibling|
    ensures links[k].parent == Pointer(links, t.parent[k])
    ensures links[k].child == Pointer(links, t.child[k]) && links[k].sibling == Pointer(links, t.sibling[k])
    ensures t.child[k] == -1 || (k < t.child[k] < |links| && t.parent[t.child[k]] == k)
    ensures t.sibling[k] == -1 || (k < t.sibling[k] < |links| && t.parent[t.sibling[k]] == t.parent[k])
    ensures if k == 0 then t.parent[k] == -1 else 0 <= t.parent[k] < k
    ensures forall j | 0 <= j < |links| && links[j] == links[k] :: j == k
  {}

  // ---- the order of links, as indices ----

  /** Link i and all links below it. */
  ghost function Down(t: Shape, i: int): seq<int>
    requires t.Valid() && t.IsLink(i)
    decreases |t.parent| - i, 1
  {
    [i] + Chain(t, t.child[i], -1)
  }

  /** The subtrees of link k and of its later siblings, that of link prev left out. */
  ghost function Chain(t: Shape, k: int, prev: int): seq<int>
    requires t.Valid() && t.IsPointer(k)
    decreases if k == -1 then 0 else |t.parent| - k, 2
  {
    if k == -1 then []
    else (if k != prev then Down(t, k) else []) + Chain(t, t.sibling[k], prev)
  }

  /** From link i, reached from its child prev (or from nowhere, -1): up first, then down. */
  ghost function Order(t: Shape, i: int, up: bool, down: bool, prev: int): seq<int>
    requires t.Valid() && t.IsLink(i)
    decreases i
  {
    [i] + (if up && i != 0 then Order(t, t.parent[i], true, true, i) else [])
        + (if down then Chain(t, t.child[i], prev) else [])
  }

  // ---- which links are visited ----

  /** Every element's parent is in seen or earlier. */
  ghost predicate ParentsFirst(t: Shape, s: seq<int>, seen: seq<int>)
    requires t.Valid()
  {
    forall j | 0 <= j < |s| :: t.IsLink(s[j]) && (t.parent[s[j]] in seen || t.parent[s[j]] in s[..j])
  }

  lemma ParentsFirstAppend(t: Shape, a: seq<int>, b: seq<int>, seen: seq<int>)
    requires t.Valid() && ParentsFirst(t, a, seen) && ParentsFirst(t, b, seen + a)
    ensures ParentsFirst(t, a + b, seen)
  {
    var s := a + b;
    forall j | 0 <= j < |s|
      ensures t.IsLink(s[j]) && (t.parent[s[j]] in seen || t.parent[s[j]] in s[..j])
    {
      if j < |a| {
        assert s[..j] == a[..j];
      } else {
        assert s[..j] == a + b[..j - |a|];
      }
    }
  }

  lemma ParentsFirstMore(t: Shape, s: seq<int>, seen: seq<int>, more: seq<int>)
    requires t.Valid() && ParentsFirst(t, s, seen) && forall x | x in seen :: x in more
    ensures ParentsFirst(t, s, more)
  {}

  lemma DistinctAppend<T>(a: seq<T>, b: seq<T>)
    requires Distinct(a) && Distinct(b) && forall x | x in a :: x !in b
    ensures Distinct(a + b)
  {
    var s := a + b;
    forall i, j | 0 <= i < j < |s| ensures s[i] != s[j] {
      if i < |a| <= j {
        assert s[i] in a && s[j] in b;
      }
    }
  }

  /** Different children of one link have no link below both. */
  lemma {:induction false} BranchesApart(t: Shape, l: int, c: int, d: int)
    requires t.Valid() && t.IsLink(l) && t.IsLink(c) && t.IsLink(d) && t.parent[c] == t.parent[d] && c != d
    ensures !(OnPath(t, l, c) && OnPath(t, l, d))
    decreases l
  {
    if OnPath(t, l, c) && OnPath(t, l, d) {
      if l == c {
        PathDescends(t, c, d);
        PathDescends(t, t.parent[c], d);
      } else if l == d {
        PathDescends(t, d, c);
        PathDescends(t, t.parent[d], c);
      } else {
        BranchesApart(t, t.parent[l], c, d);
      }
    }
  }

  /** Below a child of link k of the chain other than prev. */
  ghost predicate InBranch(t: Shape, k: int, prev: int, l: int)
    requires t.Valid() && t.IsPointer(k) && t.IsLink(l)
  {
    exists c :: BranchOf(t, k, prev, l, c)
  }

  ghost predicate BranchOf(t: Shape, k: int, prev: int, l: int, c: int)
    requires t.Valid() && t.IsPointer(k) && t.IsLink(l)
  {
    t.InChain(k, c) && c != prev && OnPath(t, l, c)
  }

  lemma {:induction false} ChainParent(t: Shape, k: int, c: int)
    requires t.Valid() && t.IsLink(k) && t.InChain(k, c)
    ensures k <= c && t.IsLink(c) && t.parent[c] == t.parent[k]
    decreases |t.parent| - k
  {
    if k != c {
      ChainParent(t, t.sibling[k], c);
    }
  }

  /** Down visits the links below i, each once, a parent before its children. */
  lemma {:induction false} DownVisits(t: Shape, i: int)
    requires t.Valid() && t.IsLink(i)
    ensures Distinct(Down(t, i)) && ParentsFirst(t, Down(t, i)[1..], [i])
    ensures forall l :: l in Down(t, i) <==> t.IsLink(l) && OnPath(t, l, i)
    decreases |t.parent| - i, 1
  {
    var rest := Chain(t, t.child[i], -1);
    assert Down(t, i)[1..] == rest;
    if t.child[i] != -1 {
      ChainVisits(t, t.child[i], -1, i);
    }
    forall l ensures l in Down(t, i) <==> t.IsLink(l) && OnPath(t, l, i) {
      BelowOrSelf(t, i, -1, l);
    }
    if i in rest {
      assert InBranch(t, t.child[i], -1, i);
      var c :| BranchOf(t, t.child[i], -1, i, c);
      ChainParent(t, t.child[i], c);
      PathDescends(t, i, c);
    }
    DistinctAppend([i], rest);
  }

  /** A link is below i if it is i or in the branch of one of i's children. */
  lemma BelowOrSelf(t: Shape, i: int, prev: int, l: int)
    requires t.Valid() && t.IsLink(i) && (prev == -1 || (t.IsLink(prev) && t.parent[prev] == i))
    ensures t.IsLink(l) && prev == -1 ==> (OnPath(t, l, i) <==> l == i || InBranch(t, t.child[i], -1, l))
    ensures t.IsLink(l) && prev != -1 ==>
      (OnPath(t, l, i) && !OnPath(t, l, prev) <==> l == i || InBranch(t, t.child[i], prev, l))
  {
    if t.IsLink(l) {
      if OnPath(t, l, i) && l != i {
        var c := ChildTowards(t, l, i);
        assert t.InChain(t.child[t.parent[c]], c);
        if prev == -1 || !OnPath(t, l, prev) {
          assert BranchOf(t, t.child[i], prev, l, c);
        }
      }
      forall c | BranchOf(t, t.child[i], prev, l, c)
        ensures OnPath(t, l, i) && (prev != -1 ==> !OnPath(t, l, prev))
      {
        ChainParent(t, t.child[i], c);
        PathThrough(t, l, c);
        if prev != -1 {
          BranchesApart(t, l, c, prev);
        }
      }
      if l == i && prev != -1 && OnPath(t, i, prev) {
        PathDescends(t, i, prev);
      }
    }
  }

  /** The child of i through which l lies below i. */
  lemma {:induction false} ChildTowards(t: Shape, l: int, i: int) returns (c: int)
    requires t.Valid() && t.IsLink(l) && OnPath(t, l, i) && l != i
    ensures 0 < c < |t.parent| && t.parent[c] == i && OnPath(t, l, c)
    decreases l
  {
    if t.parent[l] == i {
      c := l;
    } else {
      c := ChildTowards(t, t.parent[l], i);
    }
  }

  lemma {:induction false} PathThrough(t: Shape, l: int, c: int)
    requires t.Valid() && t.IsLink(l) && t.IsLink(c) && OnPath(t, l, c) && c != 0
    ensures OnPath(t, l, t.parent[c])
    decreases l
  {
    if l == c {
      assert OnPath(t, t.parent[l], t.parent[c]);
    } else {
      PathThrough(t, t.parent[l], c);
    }
  }

  /** Chain visits the branches of the chain, each link once, a parent before its children. */
  lemma {:induction false} ChainVisits(t: Shape, k: int, prev: int, i: int)
    requires t.Valid() && t.IsLink(k) && k != 0 && t.parent[k] == i
    ensures Distinct(Chain(t, k, prev)) && ParentsFirst(t, Chain(t, k, prev), [i])
    ensures forall l :: l in Chain(t, k, prev) <==> t.IsLink(l) && InBranch(t, k, prev, l)
    decreases |t.parent| - k, 2
  {
    var next := t.sibling[k];
    var first, rest := if k != prev then Down(t, k) else [], Chain(t, next, prev);
    DownVisits(t, k);
    if next != -1 {
      ChainVisits(t, next, prev, i);
    }
    forall l | t.IsLink(l)
      ensures InBranch(t, k, prev, l) <==> (k != prev && OnPath(t, l, k)) || (next != -1 && InBranch(t, next, prev, l))
    {
      InFirstOrLater(t, k, prev, l);
    }
    forall l | l in first && l in rest ensures false {
      var c :| BranchOf(t, next, prev, l, c);
      ChainParent(t, next, c);
      BranchesApart(t, l, k, c);
    }
    DistinctAppend(first, rest);
    if k != prev {
      assert first == [k] + first[1..];
      ParentsFirstMore(t, first[1..], [k], [i] + [k]);
      ParentsFirstAppend(t, [k], first[1..], [i]);
    }
    ParentsFirstMore(t, rest, [i], [i] + first);
    ParentsFirstAppend(t, first, rest, [i]);
  }

  lemma InFirstOrLater(t: Shape, k: int, prev: int, l: int)
    requires t.Valid() && t.IsLink(k) && k != 0 && t.IsLink(l)
    ensures InBranch(t, k, prev, l)
      <==> (k != prev && OnPath(t, l, k)) || (t.sibling[k] != -1 && InBranch(t, t.sibling[k], prev, l))
  {
    var next := t.sibling[k];
    if c :| BranchOf(t, k, prev, l, c) {
      if c != k {
        assert BranchOf(t, next, prev, l, c);
      }
    }
    if k != prev && OnPath(t, l, k) {
      assert BranchOf(t, k, prev, l, k);
    }
    if next != -1 && InBranch(t, next, prev, l) {
      var c :| BranchOf(t, next, prev, l, c);
      assert BranchOf(t, k, prev, l, c);
    }
  }

  ghost function Depth(t: Shape, i: int): (n: nat)
    requires t.Valid() && t.IsLink(i)
  {
    if i == 0 then 0 else 1 + Depth(t, t.parent[i])
  }

  lemma {:induction false} RootOnPath(t: Shape, i: int)
    requires t.Valid() && t.IsLink(i)
    ensures OnPath(t, i, 0)
  {
    if i > 0 {
      RootOnPath(t, t.parent[i]);
    }
  }

  ghost predicate StepUp(t: Shape, s: seq<int>, j: int)
    requires 0 < j < |s| && t.IsLink(s[j - 1])
  {
    s[j - 1] != 0 && s[j] == t.parent[s[j - 1]]
  }

  ghost predicate ParentEarlier(t: Shape, s: seq<int>, j: int)
    requires 0 <= j < |s| && t.IsLink(s[j])
  {
    t.parent[s[j]] in s[..j]
  }

  /** The first n steps go to the parent; every later link comes after its parent. */
  ghost predicate UpThenDown(t: Shape, s: seq<int>, n: nat)
  {
    && n < |s| && (forall j | 0 <= j < |s| :: t.IsLink(s[j]))
    && (forall j | 0 < j <= n :: StepUp(t, s, j))
    && (forall j | n < j < |s| :: ParentEarlier(t, s, j))
  }

  /** What a traversal that starts at i visits: i, all below i when it goes down, all else when it
      goes up; the branch it came from is left out. */
  ghost predicate Visits(t: Shape, i: int, up: bool, down: bool, prev: int, l: int)
    requires t.Valid() && t.IsLink(i)
  {
    t.IsLink(l)
        && (l == i || (down && OnPath(t, l, i) && !(prev != -1 && OnPath(t, l, prev))) || (up && !OnPath(t, l, i)))
  }

  ghost predicate Child(t: Shape, prev: int, i: int)
    requires t.Valid()
  {
    prev == -1 || (t.IsLink(prev) && prev != 0 && t.parent[prev] == i)
  }

  /** The links below i on branches other than prev's. */
  lemma BelowVisits(t: Shape, i: int, prev: int)
    requires t.Valid() && t.IsLink(i) && Child(t, prev, i)
    ensures var below := Chain(t, t.child[i], prev);
      && Distinct(below) && ParentsFirst(t, below, [i])
      && forall l :: l in below <==> t.IsLink(l) && l != i && OnPath(t, l, i) && !(prev != -1 && OnPath(t, l, prev))
  {
    if t.child[i] != -1 {
      ChainVisits(t, t.child[i], prev, i);
    }
    var below := Chain(t, t.child[i], prev);
    forall l ensures l in below <==> t.IsLink(l) && l != i && OnPath(t, l, i) && !(prev != -1 && OnPath(t, l, prev)) {
      BelowOrSelf(t, i, prev, l);
      if l == i && t.child[i] != -1 && InBranch(t, t.child[i], prev, i) {
        var c :| BranchOf(t, t.child[i], prev, i, c);
        ChainParent(t, t.child[i], c);
        PathDescends(t, i, c);
      }
    }
  }

  ghost function Above(t: Shape, i: int, up: bool): seq<int>
    requires t.Valid() && t.IsLink(i)
  {
    if up && i != 0 then Order(t, t.parent[i], true, true, i) else []
  }

  ghost function Below(t: Shape, i: int, down: bool, prev: int): seq<int>
    requires t.Valid() && t.IsLink(i)
  {
    if down then Chain(t, t.child[i], prev) else []
  }

  /** Each link that the traversal visits, it visits once. */
  lemma {:induction false} OrderVisits(t: Shape, i: int, up: bool, down: bool, prev: int)
    requires t.Valid() && t.IsLink(i) && Child(t, prev, i)
    ensures Distinct(Order(t, i, up, down, prev))
    ensures forall l :: l in Order(t, i, up, down, prev) <==> Visits(t, i, up, down, prev, l)
    decreases i
  {
    hide OnPath, Order, Chain;
    var above, below := Above(t, i, up), Below(t, i, down, prev);
    BelowVisits(t, i, prev);
    if up && i != 0 {
      OrderVisits(t, t.parent[i], true, true, i);
    }
    OrderParts(t, i, up, down, prev);
    PathStarts(t, i);
    forall l ensures l in above <==> up && t.IsLink(l) && !OnPath(t, l, i) {
      AboveOrAside(t, i, l);
    }
    DistinctAppend([i], above);
    DistinctAppend([i] + above, below);
  }

  lemma AboveOrAside(t: Shape, i: int, l: int)
    requires t.Valid() && t.IsLink(i)
    ensures t.IsLink(l) && i != 0 ==> (!OnPath(t, l, i) <==> Visits(t, t.parent[i], true, true, i, l))
    ensures t.IsLink(l) && i == 0 ==> OnPath(t, l, i)
  {
    if t.IsLink(l) {
      RootOnPath(t, l);
      if i != 0 {
        if OnPath(t, l, i) {
          PathThrough(t, l, i);
          PathDescends(t, l, i);
        }
      }
    }
  }

  /** The traversal goes up to the root, if it goes up at all, and only then down. */
  lemma {:induction false} OrderClimbs(t: Shape, i: int, up: bool, down: bool, prev: int)
    requires t.Valid() && t.IsLink(i) && Child(t, prev, i)
    ensures UpThenDown(t, Order(t, i, up, down, prev), if up then Depth(t, i) else 0)
    decreases i
  {
    var above, below := Above(t, i, up), Below(t, i, down, prev);
    BelowVisits(t, i, prev);
    if up && i != 0 {
      OrderClimbs(t, t.parent[i], true, true, i);
    }
    assert Order(t, i, up, down, prev) == [i] + above + below;
    UpThenBelow(t, i, above, below, if up then Depth(t, i) else 0);
  }

  lemma UpThenBelow(t: Shape, i: int, above: seq<int>, below: seq<int>, n: nat)
    requires t.Valid() && t.IsLink(i) && ParentsFirst(t, below, [i])
    requires above == [] ==> n == 0
    requires above != [] ==> n > 0 && i != 0 && above[0] == t.parent[i] && UpThenDown(t, above, n - 1)
    ensures UpThenDown(t, [i] + above + below, n)
  {
    hide Shape.Valid, StepUp, ParentEarlier;
    var s := [i] + above + below;
    forall j | 0 <= j < |s| ensures t.IsLink(s[j]) {
      if j > |above| {
        assert s[j] == below[j - 1 - |above|];
      } else if j > 0 {
        assert s[j] == above[j - 1];
      }
    }
    forall j | 0 < j <= n ensures StepUp(t, s, j) {
      StepUpLater(t, i, above, below, j);
    }
    forall j | n < j < |s| ensures ParentEarlier(t, s, j) {
      if j <= |above| {
        ParentEarlierLater(t, i, above, below, j);
      } else {
        ParentEarlierBelow(t, i, above, below, j);
      }
    }
  }

  lemma StepUpLater(t: Shape, i: int, above: seq<int>, below: seq<int>, j: int)
    requires 0 < j <= |above| && t.IsLink(i) && (forall k | 0 <= k < |above| :: t.IsLink(above[k]))
    requires if j == 1 then i != 0 && above[0] == t.parent[i] else StepUp(t, above, j - 1)
    ensures t.IsLink(([i] + above + below)[j - 1]) && StepUp(t, [i] + above + below, j)
  {
    var s := [i] + above + below;
    assert s[j] == above[j - 1] && s[j - 1] == if j == 1 then i else above[j - 2];
  }

  lemma ParentEarlierLater(t: Shape, i: int, above: seq<int>, below: seq<int>, j: int)
    requires 0 < j <= |above| && t.IsLink(above[j - 1]) && ParentEarlier(t, above, j - 1)
    ensures ([i] + above + below)[j] == above[j - 1] && ParentEarlier(t, [i] + above + below, j)
  {
    var s := [i] + above + below;
    assert s[..j] == [i] + above[..j - 1];
  }

  lemma ParentsFirstAt(t: Shape, s: seq<int>, before: seq<int>, k: nat)
    requires t.Valid() && ParentsFirst(t, s, before) && k < |s|
    ensures t.IsLink(s[k]) && (t.parent[s[k]] in before || t.parent[s[k]] in s[..k])
  {}

  lemma ParentEarlierBelow(t: Shape, i: int, above: seq<int>, below: seq<int>, j: int)
    requires t.Valid() && |above| < j <= |above| + |below| && ParentsFirst(t, below, [i])
    ensures var k := j - 1 - |above|; ([i] + above + below)[j] == below[k] && t.IsLink(below[k])
    ensures ParentEarlier(t, [i] + above + below, j)
  {
    hide Shape.Valid, ParentsFirst, Shape.IsLink;
    var s, k := [i] + above + below, j - 1 - |above|;
    ParentsFirstAt(t, below, [i], k);
    assert s[j] == below[k];
    assert s[..j] == [i] + above + below[..k];
  }

  // ---- the traversal of the link objects ----

  ghost function LinksAt(links: seq<Link>, s: seq<int>): (r: seq<Link>)
    requires AllLinks(links, s)
    ensures |r| == |s| && forall k | 0 <= k < |s| :: r[k] == links[s[k]]
  {
    seq(|s|, k requires 0 <= k < |s| => links[s[k]])
  }

  /** The indices of a traversal are those of links. */
  ghost predicate AllLinks(links: seq<Link>, s: seq<int>) {
    forall k | 0 <= k < |s| :: 0 <= s[k] < |links|
  }

  lemma OrderInRange(t: Shape, i: int, up: bool, down: bool, prev: int)
    requires t.Valid() && t.IsLink(i) && Child(t, prev, i)
    ensures forall links: seq<Link> | |links| == |t.parent| :: AllLinks(links, Order(t, i, up, down, prev))
  {
    OrderClimbs(t, i, up, down, prev);
  }

  lemma ChainInRange(t: Shape, k: int, prev: int)
    requires t.Valid() && t.IsPointer(k) && k != 0
    ensures forall links: seq<Link> | |links| == |t.parent| :: AllLinks(links, Chain(t, k, prev))
  {
    if k != -1 {
      ChainVisits(t, k, prev, t.parent[k]);
      assert ParentsFirst(t, Chain(t, k, prev), [t.parent[k]]);
    }
  }

  class LinkTraverse {
    var links: seq<Link>
    var numUpwardConnections: nat

    constructor ()
      ensures links == [] && numUpwardConnections == 0
    {
      links, numUpwardConnections := [], 0;
    }

    method Find(root: Link, doUpward: bool, doDownward: bool, ghost all: seq<Link>, ghost t: Shape, ghost i: int)
      requires Wired(all, t) && t.IsLink(i) && root == all[i]
      modifies this
      ensures AllLinks(all, Order(t, i, doUpward, doDownward, -1))
      ensures links == LinksAt(all, Order(t, i, doUpward, doDownward, -1))
      ensures numUpwardConnections == if doUpward then Depth(t, i) else 0
    {
      numUpwardConnections := 0;
      links := [];
      OrderInRange(t, i, doUpward, doDownward, -1);
      Traverse(root, doUpward, doDownward, false, null, all, t, i, -1);
    }

    method Traverse(link: Link, doUpward: bool, doDownward: bool, isUpward: bool, prev: Link?,
                    ghost all: seq<Link>, ghost t: Shape, ghost i: int, ghost k: int)
      requires Wired(all, t) && t.IsLink(i) && link == all[i]
      requires prev == Pointer(all, k) && Child(t, k, i)
      modifies this
      ensures AllLinks(all, Order(t, i, doUpward, doDownward, k))
      ensures links == old(links) + LinksAt(all, Order(t, i, doUpward, doDownward, k))
      ensures numUpwardConnections == old(numUpwardConnections) + (if isUpward then 1 else 0)
          + (if doUpward then Depth(t, i) else 0)
      decreases if doUpward then 1 else 0, if doUpward then i else |t.parent| - i, 1
    {
      hide Wired, Shape.Valid, LinksAt, AllLinks, Order, Chain;
      WiresOf(all, t, i);
      OrderInRange(t, i, doUpward, doDownward, k);
      OrderParts(t, i, doUpward, doDownward, k);
      ghost var links0, above, below := links, Above(t, i, doUpward), Below(t, i, doDownward, k);
      links := links + [link];
      if isUpward {
        numUpwardConnections := numUpwardConnections + 1;
      }
      LinksAtFew(all, i);
      if doUpward && link.parent != null {
        OrderInRange(t, t.parent[i], true, true, i);
        Traverse(link.parent, doUpward, true, true, link, all, t, t.parent[i], i);
      }
      assert links == links0 + [link] + LinksAt(all, above);
      ChainInRange(t, t.child[i], k);
      if doDownward {
        TraverseChildren(link, prev, doUpward, all, t, i, k);
      }
      assert links == links0 + [link] + LinksAt(all, above) + LinksAt(all, below);
      LinksAtParts(all, links0, i, above, below);
    }

    /** One child of a link, unless it is where the traversal came from. */
    method TraverseChild(child: Link, prev: Link?, ghost all: seq<Link>, ghost t: Shape, ghost c: int, ghost k: int)
      requires Wired(all, t) && t.IsLink(c) && c != 0 && child == all[c] && prev == Pointer(all, k) && t.IsPointer(k)
      modifies this
      ensures AllLinks(all, Chain(t, t.sibling[c], k)) && AllLinks(all, Chain(t, c, k))
      ensures links + LinksAt(all, Chain(t, t.sibling[c], k)) == old(links) + LinksAt(all, Chain(t, c, k))
      ensures numUpwardConnections == old(numUpwardConnections)
      decreases 0, |t.parent| - c, 2
    {
      hide Wired, Shape.Valid, LinksAt, AllLinks, Order, Chain;
      WiresOf(all, t, c);
      ChainInRange(t, t.sibling[c], k);
      ChainInRange(t, c, k);
      ChainStep(t, c, k);
      if child != prev {
        OrderInRange(t, c, false, true, -1);
        LinksAtLater(all, links, Order(t, c, false, true, -1), Chain(t, t.sibling[c], k));
        Traverse(child, false, true, false, null, all, t, c, -1);
      }
    }

    /** The loop over the children of a link. */
    method TraverseChildren(link: Link, prev: Link?, ghost doUpward: bool, ghost all: seq<Link>, ghost t: Shape,
                            ghost i: int, ghost k: int)
      requires Wired(all, t) && t.IsLink(i) && link == all[i]
      requires prev == Pointer(all, k) && Child(t, k, i)
      requires AllLinks(all, Chain(t, t.child[i], k))
      modifies this
      ensures links == old(links) + LinksAt(all, Chain(t, t.child[i], k))
      ensures numUpwardConnections == old(numUpwardConnections)
      decreases if doUpward then 1 else 0, if doUpward then i else |t.parent| - i, 0
    {
      hide Wired, Shape.Valid, LinksAt, AllLinks, Chain;
      WiresOf(all, t, i);
      LinksAtFew(all, i);
      NoChain(t, k);
      ghost var total := links + LinksAt(all, Chain(t, t.child[i], k));
      var child := link.child;
      ghost var c := t.child[i];
      while child != null
        invariant t.IsPointer(c) && child == Pointer(all, c) && (c != -1 ==> i < c)
        invariant AllLinks(all, Chain(t, c, k))
        invariant links + LinksAt(all, Chain(t, c, k)) == total
        invariant numUpwardConnections == old(numUpwardConnections)
        decreases if c == -1 then 0 else |t.parent| - c
      {
        WiresOf(all, t, c);
        TraverseChild(child, prev, all, t, c, k);
        child := child.sibling;
        c := t.sibling[c];
      }
      assert links + [] == links;
    }
  }

  lemma Associate<T>(a: seq<T>, b: seq<T>, c: seq<T>)
    ensures (a + b) + c == a + (b + c)
  {}

  lemma NoChain(t: Shape, prev: int)
    requires t.Valid()
    ensures Chain(t, -1, prev) == []
  {}

  lemma ChainStep(t: Shape, k: int, prev: int)
    requires t.Valid() && t.IsLink(k)
    ensures Chain(t, k, prev) == (if k != prev then Order(t, k, false, true, -1) else []) + Chain(t, t.sibling[k], prev)
    ensures k == prev ==> Chain(t, k, prev) == Chain(t, t.sibling[k], prev)
  {
    var below := Chain(t, t.child[k], -1);
    assert Down(t, k) == [k] + below;
    assert Order(t, k, false, true, -1) == [k] + [] + below;
    assert [k] + [] == [k];
  }

  lemma OrderParts(t: Shape, i: int, up: bool, down: bool, prev: int)
    requires t.Valid() && t.IsLink(i)
    ensures Order(t, i, up, down, prev) == [i] + Above(t, i, up) + Below(t, i, down, prev)
  {}

  lemma LinksAtFew(links: seq<Link>, i: int)
    requires 0 <= i < |links|
    ensures AllLinks(links, []) && LinksAt(links, []) == []
    ensures AllLinks(links, [i]) && LinksAt(links, [i]) == [links[i]]
  {}

  lemma LinksAtAppend(links: seq<Link>, a: seq<int>, b: seq<int>)
    requires AllLinks(links, a) && AllLinks(links, b)
    ensures AllLinks(links, a + b) && LinksAt(links, a + b) == LinksAt(links, a) + LinksAt(links, b)
  {}

  lemma LinksAtLater(links: seq<Link>, before: seq<Link>, a: seq<int>, b: seq<int>)
    requires AllLinks(links, a) && AllLinks(links, b)
    ensures AllLinks(links, a + b) && before + LinksAt(links, a) + LinksAt(links, b) == before + LinksAt(links, a + b)
  {
    LinksAtAppend(links, a, b);
    Associate(before, LinksAt(links, a), LinksAt(links, b));
  }

  lemma LinksAtParts(links: seq<Link>, before: seq<Link>, i: int, above: seq<int>, below: seq<int>)
    requires 0 <= i < |links| && AllLinks(links, above) && AllLinks(links, below)
    ensures AllLinks(links, [i] + above + below)
    ensures before + [links[i]] + LinksAt(links, above) + LinksAt(links, below) == before
        + LinksAt(links, [i] + above + below)
  {
    LinksAtFew(links, i);
    LinksAtLater(links, before, [i], above);
    LinksAtLater(links, before, [i] + above, below);
  }
}
