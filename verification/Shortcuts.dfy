/** What shortening a sequence of waypoints leaves, for any relation that says which waypoint leads to which. */
module Shortcuts {

  /** b is what is left of a after some erasures. */
  ghost predicate Subsequence<T>(b: seq<T>, a: seq<T>) {
    b == [] || (a != [] &&
      (if b[|b| - 1] == a[|a| - 1] then Subsequence(b[..|b| - 1], a[..|a| - 1]) else Subsequence(b, a[..|a| - 1])))
  }

  lemma {:induction false} SubsequenceOfItself<T>(a: seq<T>)
    ensures Subsequence(a, a)
  {
    if a != [] {
      SubsequenceOfItself(a[..|a| - 1]);
    }
  }

  /** Dropping the last element on the left, or adding one on the right, keeps a subsequence. */
  lemma {:induction false} SubsequenceDrop<T>(b: seq<T>, a: seq<T>)
    requires Subsequence(b, a) && b != []
    ensures Subsequence(b[..|b| - 1], a) && Subsequence(b[..|b| - 1], a[..|a| - 1])
  {
    var b', a' := b[..|b| - 1], a[..|a| - 1];
    if b[|b| - 1] != a[|a| - 1] {
      SubsequenceDrop(b, a');
    }
    if b' != [] {
      if b'[|b'| - 1] == a[|a| - 1] {
        SubsequenceDrop(b', a');
      }
    }
  }

  lemma {:induction false} SubsequenceErase<T>(b: seq<T>, a: seq<T>, i: nat)
    requires Subsequence(b, a) && i < |b|
    ensures Subsequence(b[..i] + b[i + 1..], a)
    decreases |a|
  {
    var e := b[..i] + b[i + 1..];
    if i == |b| - 1 {
      assert e == b[..|b| - 1];
      SubsequenceDrop(b, a);
    } else {
      assert e[|e| - 1] == b[|b| - 1];
      if b[|b| - 1] == a[|a| - 1] {
        SubsequenceErase(b[..|b| - 1], a[..|a| - 1], i);
        assert e[..|e| - 1] == b[..|b| - 1][..i] + b[..|b| - 1][i + 1..];
      } else {
        SubsequenceErase(b, a[..|a| - 1], i);
      }
    }
  }

  /** The waypoints after a that are left of rest: the first one stays when the one behind it is out of reach of a,
      and then is the one to go on from. */
  ghost function ShortenedFrom<T(!new)>(leads: (T, T) -> bool, a: T, rest: seq<T>): (r: seq<T>)
    requires rest != []
    ensures r != []
    decreases |rest|
  {
    if |rest| == 1 then rest
    else if leads(a, rest[1]) then ShortenedFrom(leads, a, rest[1..])
    else [rest[0]] + ShortenedFrom(leads, rest[0], rest[1..])
  }

  ghost function Shortened<T(!new)>(leads: (T, T) -> bool, path: seq<T>): seq<T> {
    if |path| < 3 then path else [path[0]] + ShortenedFrom(leads, path[0], path[1..])
  }

  /** One step of shortening: waypoint k is passed by if the one before it leads to the one behind it. */
  lemma ShortenedStep<T(!new)>(leads: (T, T) -> bool, w: seq<T>, k: nat)
    requires 1 <= k < |w| - 1
    ensures var left, e := w[..k] + ShortenedFrom(leads, w[k - 1], w[k..]), w[..k] + w[k + 1..];
      if leads(w[k - 1], w[k + 1]) then left == e[..k] + ShortenedFrom(leads, e[k - 1], e[k..])
      else left == w[..k + 1] + ShortenedFrom(leads, w[k], w[k + 1..])
  {
    var e := w[..k] + w[k + 1..];
    assert w[k..][1..] == w[k + 1..] == e[k..] && e[..k] == w[..k] && e[k - 1] == w[k - 1];
    assert w[k..][0] == w[k] && w[k..][1] == w[k + 1];
    assert w[..k] + [w[k]] == w[..k + 1];
  }

  lemma ShortenedStarts<T(!new)>(leads: (T, T) -> bool, path: seq<T>)
    ensures |path| < 3 ==> Shortened(leads, path) == path
    ensures |path| >= 3 ==> path[..1] + ShortenedFrom(leads, path[0], path[1..]) == Shortened(leads, path)
  {
    assert |path| >= 3 ==> path[..1] == [path[0]];
  }

  lemma ShortenedEnds<T(!new)>(leads: (T, T) -> bool, w: seq<T>, k: nat)
    requires 0 < k == |w| - 1
    ensures w[..k] + ShortenedFrom(leads, w[k - 1], w[k..]) == w
  {
    assert w[..k] + w[k..] == w;
  }

  // ---- what is left ----

  /** The neighbours of waypoint i can pass it by. */
  ghost predicate Spare<T(!new)>(leads: (T, T) -> bool, path: seq<T>, i: int) {
    0 < i < |path| - 1 && leads(path[i - 1], path[i + 1])
  }

  /** No waypoint can be passed by. */
  ghost predicate Tight<T(!new)>(leads: (T, T) -> bool, path: seq<T>) {
    forall i :: !Spare(leads, path, i)
  }

  /** Four waypoints a, b, c, d in this order of which a leads to d but not to c, and b leads to d. */
  ghost predicate Detour<T(!new)>(leads: (T, T) -> bool, path: seq<T>, a: int, b: int, c: int, d: int) {
    && 0 <= a < b < c < d < |path|
    && !leads(path[a], path[c]) && leads(path[b], path[d]) && leads(path[a], path[d])
  }

  ghost predicate HasDetour<T(!new)>(leads: (T, T) -> bool, path: seq<T>) {
    exists a, b, c, d :: Detour(leads, path, a, b, c, d)
  }

  /** The first waypoint that is left is one of the rest; if it is not the first of them, a leads to it. */
  lemma {:induction false} FirstLeft<T(!new)>(leads: (T, T) -> bool, a: T, rest: seq<T>) returns (t: nat)
    requires rest != []
    ensures t < |rest| && ShortenedFrom(leads, a, rest)[0] == rest[t] && (t > 0 ==> leads(a, rest[t]))
    decreases |rest|
  {
    t := 0;
    if |rest| > 1 && leads(a, rest[1]) {
      t := FirstLeft(leads, a, rest[1..]);
      t := t + 1;
    }
  }

  /** A detour among some of the waypoints is one among all of them. */
  lemma DetourAmongMore<T(!new)>(leads: (T, T) -> bool, a: T, rest: seq<T>)
    requires |rest| > 1
    ensures HasDetour(leads, [a] + rest[1..]) ==> HasDetour(leads, [a] + rest)
    ensures HasDetour(leads, rest) ==> HasDetour(leads, [a] + rest)
  {
    var all, some := [a] + rest, [a] + rest[1..];
    if HasDetour(leads, some) {
      var i, j, k, l :| Detour(leads, some, i, j, k, l);
      assert Detour(leads, all, if i == 0 then 0 else i + 1, j + 1, k + 1, l + 1);
    }
    if HasDetour(leads, rest) {
      var i, j, k, l :| Detour(leads, rest, i, j, k, l);
      assert Detour(leads, all, i + 1, j + 1, k + 1, l + 1);
    }
  }

  lemma {:induction false} TightFrom<T(!new)>(leads: (T, T) -> bool, a: T, rest: seq<T>)
    requires rest != [] && !HasDetour(leads, [a] + rest)
    ensures Tight(leads, [a] + ShortenedFrom(leads, a, rest))
    decreases |rest|
  {
    hide HasDetour;
    if |rest| > 1 {
      DetourAmongMore(leads, a, rest);
      if leads(a, rest[1]) {
        TightFrom(leads, a, rest[1..]);
      } else {
        var b, more := rest[0], rest[1..];
        assert [b] + more == rest;
        TightFrom(leads, b, more);
        var t := FirstLeft(leads, b, more);
        if t > 0 && leads(a, rest[t + 1]) {
          assert Detour(leads, [a] + rest, 0, 1, 2, t + 2);
          DetourIs(leads, [a] + rest, 0, 1, 2, t + 2);
        }
        TightBefore(leads, a, b, ShortenedFrom(leads, b, more));
      }
    }
  }

  lemma DetourIs<T(!new)>(leads: (T, T) -> bool, path: seq<T>, a: int, b: int, c: int, d: int)
    requires Detour(leads, path, a, b, c, d)
    ensures HasDetour(leads, path)
  {}

  lemma TightBefore<T(!new)>(leads: (T, T) -> bool, a: T, b: T, s: seq<T>)
    requires s != [] && !leads(a, s[0]) && Tight(leads, [b] + s)
    ensures Tight(leads, [a] + ([b] + s))
  {
    var all := [a] + ([b] + s);
    forall i ensures !Spare(leads, all, i) {
      if 1 < i < |all| - 1 {
        assert !Spare(leads, [b] + s, i - 1);
        assert ([b] + s)[i - 2] == all[i - 1] && ([b] + s)[i] == all[i + 1];
      }
    }
  }

  /** Where there is no detour, shortening leaves no waypoint that could be passed by. */
  lemma TightWithoutDetour<T(!new)>(leads: (T, T) -> bool, path: seq<T>)
    requires !HasDetour(leads, path)
    ensures Tight(leads, Shortened(leads, path))
  {
    if |path| >= 3 {
      assert [path[0]] + path[1..] == path;
      TightFrom(leads, path[0], path[1..]);
    }
  }

  /** A waypoint appended on the right of both, or of a only, keeps a subsequence. */
  lemma {:induction false} SubsequenceMore<T>(b: seq<T>, a: seq<T>, x: T)
    requires Subsequence(b, a)
    ensures Subsequence(b, a + [x]) && Subsequence(b + [x], a + [x])
  {
    assert (a + [x])[..|a|] == a && (b + [x])[..|b|] == b;
    if b != [] && b[|b| - 1] == x {
      SubsequenceDrop(b, a);
    }
  }

  lemma {:induction false} SubsequenceAmong<T>(b: seq<T>, a: seq<T>, n: nat)
    requires n <= |a| && Subsequence(b, a[..n])
    ensures Subsequence(b, a)
    decreases |a| - n
  {
    if n == |a| {
      assert a[..n] == a;
    } else {
      SubsequenceMore(b, a[..n], a[n]);
      assert a[..n] + [a[n]] == a[..n + 1];
      SubsequenceAmong(b, a, n + 1);
    }
  }

  lemma SubsequenceNext<T>(b: seq<T>, a: seq<T>, n: nat, i: nat)
    requires n <= i < |a| && Subsequence(b, a[..n])
    ensures Subsequence(b + [a[i]], a[..i + 1])
  {
    assert a[..i][..n] == a[..n];
    SubsequenceAmong(b, a[..i], n);
    SubsequenceMore(b, a[..i], a[i]);
    assert a[..i] + [a[i]] == a[..i + 1];
  }

  /** Four waypoints that make a detour are shortened to three of which the middle one could be passed by. */
  lemma DetourLeavesSpare<T(!new)>(leads: (T, T) -> bool, path: seq<T>, a: int, b: int, c: int, d: int)
    requires Detour(leads, path, a, b, c, d)
    ensures var q := [path[a], path[b], path[c], path[d]];
      Subsequence(q, path) && Shortened(leads, q) == [path[a], path[b], path[d]] && !Tight(leads, Shortened(leads, q))
  {
    hide Subsequence;
    var q, s := [path[a], path[b], path[c], path[d]], [path[a], path[b], path[d]];
    PickFour(path, a, b, c, d);
    ShortenFour(leads, path[a], path[b], path[c], path[d]);
    assert Spare(leads, s, 1);
  }

  lemma NothingLeft<T>(a: seq<T>)
    ensures Subsequence([], a)
  {}

  lemma PickFour<T>(path: seq<T>, a: int, b: int, c: int, d: int)
    requires 0 <= a < b < c < d < |path|
    ensures Subsequence([path[a], path[b], path[c], path[d]], path)
  {
    hide Subsequence;
    PickTwo(path, a, b);
    var two := [path[a], path[b]];
    SubsequenceNext(two, path, b + 1, c);
    var three := two + [path[c]];
    SubsequenceNext(three, path, c + 1, d);
    assert three + [path[d]] == [path[a], path[b], path[c], path[d]];
    SubsequenceAmong(three + [path[d]], path, d + 1);
  }

  lemma PickTwo<T>(path: seq<T>, a: int, b: int)
    requires 0 <= a < b < |path|
    ensures Subsequence([path[a], path[b]], path[..b + 1])
  {
    hide Subsequence;
    NothingLeft(path[..0]);
    SubsequenceNext([], path, 0, a);
    assert [] + [path[a]] == [path[a]];
    SubsequenceNext([path[a]], path, a + 1, b);
    assert [path[a]] + [path[b]] == [path[a], path[b]];
  }

  lemma ShortenFour<T(!new)>(leads: (T, T) -> bool, a: T, b: T, c: T, d: T)
    requires !leads(a, c) && leads(b, d)
    ensures Shortened(leads, [a, b, c, d]) == [a, b, d]
  {
    var q := [a, b, c, d];
    assert q[1..] == [b, c, d] && [b, c, d][1..] == [c, d] && [c, d][1..] == [d];
    assert ShortenedFrom(leads, b, [c, d]) == ShortenedFrom(leads, b, [d]) == [d];
    assert ShortenedFrom(leads, a, [b, c, d]) == [b] + [d];
  }

  /** All paths over some of the waypoints come out with nothing to pass by exactly when there is no detour. */
  lemma TightIff<T(!new)>(leads: (T, T) -> bool, path: seq<T>)
    ensures (forall q | Subsequence(q, path) :: Tight(leads, Shortened(leads, q))) <==> !HasDetour(leads, path)
  {
    hide Subsequence, Tight, Shortened;
    if HasDetour(leads, path) {
      var a, b, c, d :| Detour(leads, path, a, b, c, d);
      DetourLeavesSpare(leads, path, a, b, c, d);
    } else {
      forall q | Subsequence(q, path) ensures Tight(leads, Shortened(leads, q)) {
        DetourOfSome(leads, q, path);
        TightWithoutDetour(leads, q);
      }
    }
  }

  /** Where each waypoint of a subsequence is among all of them. */
  lemma {:induction false} PlacesOf<T>(b: seq<T>, a: seq<T>) returns (at: seq<int>)
    requires Subsequence(b, a)
    ensures |at| == |b| && forall i | 0 <= i < |b| :: 0 <= at[i] < |a| && a[at[i]] == b[i]
    ensures forall i, j | 0 <= i < j < |b| :: at[i] < at[j]
  {
    if b == [] {
      at := [];
    } else if b[|b| - 1] == a[|a| - 1] {
      at := PlacesOf(b[..|b| - 1], a[..|a| - 1]);
      at := at + [|a| - 1];
    } else {
      at := PlacesOf(b, a[..|a| - 1]);
    }
  }

  lemma DetourOfSome<T(!new)>(leads: (T, T) -> bool, q: seq<T>, path: seq<T>)
    requires Subsequence(q, path)
    ensures HasDetour(leads, q) ==> HasDetour(leads, path)
  {
    if HasDetour(leads, q) {
      var at := PlacesOf(q, path);
      var a, b, c, d :| Detour(leads, q, a, b, c, d);
      assert Detour(leads, path, at[a], at[b], at[c], at[d]);
    }
  }
}
