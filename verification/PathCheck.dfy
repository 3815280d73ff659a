/** The collision check of a sampled path, which visits its samples coarsely first and ever finer. */
module PathCheck {
  import opened Counting
  import opened OmniWheel

  /** The tests made so far: of distinct samples other than the first, none of which collides. */
  ghost predicate Tested(path: seq<Configuration>, collides: Configuration -> bool, isVisited: seq<bool>,
                         tested: seq<int>) {
    && |isVisited| == |path| && Distinct(tested)
    && (forall k | 0 <= k < |tested| :: 0 < tested[k] < |path| && !collides(path[tested[k]]))
    && (forall i | 0 <= i < |path| :: isVisited[i] <==> i in tested)
  }

  lemma FullCount(path: seq<Configuration>, collides: Configuration -> bool, isVisited: seq<bool>, tested: seq<int>)
    requires |path| > 0 && Tested(path, collides, isVisited, tested)
    ensures |tested| <= |path| - 1
    ensures (forall i | 1 <= i < |path| :: isVisited[i]) <==> |tested| == |path| - 1
  {
    DistinctBelow(tested, |path| - 1);
    if forall i | 1 <= i < |path| :: isVisited[i] {
      assert forall i | 1 <= i <= |path| - 1 :: i in tested;
    }
  }

  /** One stride through the path. */
  method Stride(path: seq<Configuration>, collides: Configuration -> bool, isVisited: seq<bool>, step: nat,
                ghost tested: seq<int>)
    returns (hit: bool, visited: seq<bool>, ghost more: seq<int>, added: nat)
    requires step > 0 && Tested(path, collides, isVisited, tested)
    ensures hit ==> |more| > 0 && Tested(path, collides, visited, more[..|more| - 1])
                    && 0 < more[|more| - 1] < |path| && more[|more| - 1] !in more[..|more| - 1]
                    && collides(path[more[|more| - 1]])
    ensures |visited| == |path|
    ensures !hit ==> Tested(path, collides, visited, more) && |more| == |tested| + added
    ensures !hit && step == 1 ==> forall i | 1 <= i < |path| :: visited[i]
    ensures !hit ==> forall i | 0 <= i < |path| && isVisited[i] :: visited[i]
  {
    visited, more, added := isVisited, tested, 0;
    var i := step;
    while i < |path|
      invariant i >= step
      invariant Tested(path, collides, visited, more) && |more| == |tested| + added
      invariant step == 1 ==> forall k | 1 <= k < i && k < |path| :: visited[k]
      invariant forall k | 0 <= k < |path| && isVisited[k] :: visited[k]
      decreases |path| - i
    {
      if !visited[i] {
        added := added + 1;
        ghost var before := more;
        more := more + [i];
        assert more[..|more| - 1] == before;
        if collides(path[i]) {
          return true, visited, more, added;
        }
        visited := visited[i := true];
      }
      i := i + step;
    }
    hit := false;
  }

  lemma StepOf(n: nat, div: nat)
    requires div >= 2
    ensures n / div > 0 <==> div <= n
    ensures div == n ==> n / div == 1
  {
    if div <= n {
      assert n / div >= 1;
    }
  }

  /** A complete account of the tests made. */
  ghost predicate Accounts(path: seq<Configuration>, collides: Configuration -> bool, hit: bool, tested: seq<int>) {
    && Distinct(tested) && |tested| > 0 && (forall k | 0 <= k < |tested| :: 0 <= tested[k] < |path|)
    && (!hit ==> forall i | 0 <= i < |path| :: i in tested)
    && (forall k | 0 <= k < |tested| :: collides(path[tested[k]]) <==> hit && k == |tested| - 1)
  }

  lemma AccountsFor(path: seq<Configuration>, collides: Configuration -> bool, visited: seq<bool>, tested: seq<int>,
                    i: int)
    requires Tested(path, collides, visited, tested) && 0 <= i < |path| && i !in tested
    requires collides(path[i]) || (i == 0 && forall k | 1 <= k < |path| :: visited[k])
    ensures Accounts(path, collides, collides(path[i]), tested + [i])
    ensures collides(path[i]) <==> exists k | 0 <= k < |path| :: collides(path[k])
  {
    var more := tested + [i];
    assert forall k | 0 <= k < |tested| :: more[k] == tested[k];
    assert more[|tested|] == i;
    if !collides(path[i]) {
      forall k | 0 <= k < |path| ensures k in more && !collides(path[k]) {
        if k > 0 {
          assert k in tested;
        }
      }
    }
  }

  /** Whether some sample of the path collides. Each sample is tested at most once, all of them are
      unless one collides, and then the colliding one is the last. */
  method CheckCollision(path: seq<Configuration>, collides: Configuration -> bool)
    returns (hit: bool, ghost tested: seq<int>)
    requires |path| > 0
    ensures hit <==> exists i | 0 <= i < |path| :: collides(path[i])
    ensures Accounts(path, collides, hit, tested)
  {
    var checked: nat, div: nat := 0, 2;
    var isVisited := seq(|path|, i => false);
    tested := [];
    assert Tested(path, collides, isVisited, tested);
    hide Tested, Accounts, Distinct;
    while checked < |path| - 1 || |path| / div > 0
      invariant div >= 2
      invariant Tested(path, collides, isVisited, tested) && checked == |tested| && |isVisited| == |path|
      invariant |path| <= div - 1 ==> forall i | 1 <= i < |path| :: isVisited[i]
      decreases |path| + 1 - div
    {
      FullCount(path, collides, isVisited, tested);
      StepOf(|path|, div);
      var step := |path| / div;
      var added;
      hit, isVisited, tested, added := Stride(path, collides, isVisited, step, tested);
      checked := checked + added;
      if hit {
        ghost var n := |tested| - 1;
        AccountsFor(path, collides, isVisited, tested[..n], tested[n]);
        assert tested[..n] + [tested[n]] == tested;
        return;
      }
      div := div + 1;
    }
    StepOf(|path|, div);
    FullCount(path, collides, isVisited, tested);
    assert checked == |path| - 1;
    hit := collides(path[0]);
    FirstUntested(path, collides, isVisited, tested);
    AccountsFor(path, collides, isVisited, tested, 0);
    tested := tested + [0];
  }

  lemma FirstUntested(path: seq<Configuration>, collides: Configuration -> bool, isVisited: seq<bool>, tested: seq<int>)
    requires Tested(path, collides, isVisited, tested)
    ensures 0 !in tested
  {}
}
