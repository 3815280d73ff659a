/** The loops of the projected Gauss-Seidel solver over the arrays of forces and friction limits. */
module GaussSeidelSolver {
  import opened LinearAlgebra
  import opened Roots
  import opened Sums
  import opened GaussSeidel
  import opened McpSolution

  /** DEFAULT_NUM_GAUSS_SEIDEL_ITERATION_BLOCK */
  const LOOP_BLOCK_SIZE := 10

  function Abs(a: real): real { if a < 0.0 then -a else a }

  function Greater(e: real, d: real): real { if d > e then d else e }

  /** The relative change of entry j as the error check measures it: rows by their new value,
      friction by its magnitude. */
  function RelativeChange(p: Problem, old_: seq<real>, new_: seq<real>, j: nat): real
    requires p.Valid() && j < |old_| == |new_|
  {
    var size := if j < p.n then new_[j] else Abs(new_[j]);
    var d := Abs(new_[j] - old_[j]);
    if size > EPSILON && size > 0.0 then d / size else d
  }

  /** The greatest relative change among the first j entries. */
  function GreatestChange(p: Problem, old_: seq<real>, new_: seq<real>, j: nat): (e: real)
    requires p.Valid() && j <= |old_| == |new_|
    ensures e >= 0.0
  {
    if j == 0 then 0.0
    else
      Greater(GreatestChange(p, old_, new_, j - 1), RelativeChange(p, old_, new_, j - 1))
  }

  lemma {:induction false} GreatestChangePrefix(p: Problem, old_: seq<real>, new_: seq<real>, other: seq<real>, j: nat)
    requires p.Valid() && j <= |old_| == |new_| == |other| && new_[..j] == other[..j]
    ensures GreatestChange(p, old_, new_, j) == GreatestChange(p, old_, other, j)
  {
    if j > 0 {
      assert new_[..j - 1] == new_[..j][..j - 1] == other[..j][..j - 1] == other[..j - 1];
      assert new_[j - 1] == new_[..j][j - 1] == other[..j][j - 1];
      GreatestChangePrefix(p, old_, new_, other, j - 1);
    }
  }

  lemma PositiveOver(d: real, size: real)
    requires d >= 0.0 && size > 0.0
    ensures d / size >= 0.0 && (d / size == 0.0 <==> d == 0.0)
  {
    assert (d / size) * size == d;
  }

  /** No change is reported exactly when nothing changed. */
  lemma {:induction false} NoChangeReported(p: Problem, old_: seq<real>, new_: seq<real>, j: nat)
    requires p.Valid() && j <= |old_| == |new_|
    ensures GreatestChange(p, old_, new_, j) == 0.0 <==> old_[..j] == new_[..j]
  {
    if j > 0 {
      NoChangeReported(p, old_, new_, j - 1);
      var size := if j - 1 < p.n then new_[j - 1] else Abs(new_[j - 1]);
      if size > 0.0 {
        PositiveOver(Abs(new_[j - 1] - old_[j - 1]), size);
      }
      assert old_[..j] == old_[..j - 1] + [old_[j - 1]];
      assert new_[..j] == new_[..j - 1] + [new_[j - 1]];
    }
  }

  predicate Fitting(p: Problem, x: array<real>, mcpHi: array<real>) {
    p.Valid() && x.Length == |p.M| && mcpHi.Length == |p.mu| && x != mcpHi
  }

  lemma RootPositive(a: real, sqrt: real -> real)
    requires IsSqrt(sqrt) && a > 0.0
    ensures sqrt(a) > 0.0
  {
    ProductUnits(sqrt(a));
  }

  /** -b(j) less the rest of row j, over the diagonal. */
  method RelaxRow(p: Problem, x: array<real>, j: nat) returns (xx: real)
    requires p.Valid() && x.Length == |p.M| && j < x.Length
    ensures xx == Relaxed(p, x[..], j)
  {
    var sum := -Product(p.M[j][j], x[j]);
    sum := sum + SeqDot(p.M[j], x[..]);
    xx := (-p.b[j] - sum) / p.M[j][j];
  }

  method MarkedValue(p: Problem, x: array<real>, j: nat) returns (xx: real)
    requires p.Valid() && x.Length == |p.M| && j < x.Length
    ensures xx == Value(p, x[..], j, true)
  {
    if p.M[j][j] == SINGULAR {
      xx := 0.0;
    } else {
      xx := RelaxRow(p, x, j);
    }
  }

  /** The two row loops of one iteration. */
  method MainRows(p: Problem, x: array<real>, mcpHi: array<real>)
    requires Fitting(p, x, mcpHi)
    modifies x, mcpHi
    ensures x[..] == RowSweep(p, old(x[..]), 0, true)
    ensures forall k | 0 <= k < |p.mu| :: mcpHi[k] == Limit(p, x[..], k)
  {
    hide Product, Value;
    ghost var x0 := x[..];
    var j := 0;
    while j < |p.mu|
      invariant 0 <= j <= |p.mu|
      invariant RowSweep(p, x[..], j, true) == RowSweep(p, x0, 0, true)
      invariant forall k | 0 <= k < j :: mcpHi[k] == Product(p.mu[k], x[k])
    {
      ghost var y := x[..];
      var xx := MarkedValue(p, x, j);
      if xx < 0.0 {
        x[j] := 0.0;
      } else {
        x[j] := xx;
      }
      assert x[..] == y[j := RowValue(p, y, j, true)];
      mcpHi[j] := Product(p.mu[j], x[j]);
      j := j + 1;
    }
    while j < p.n
      invariant |p.mu| <= j <= p.n
      invariant RowSweep(p, x[..], j, true) == RowSweep(p, x0, 0, true)
      invariant forall k | 0 <= k < |p.mu| :: mcpHi[k] == Product(p.mu[k], x[k])
    {
      ghost var y := x[..];
      var xx := MarkedValue(p, x, j);
      x[j] := xx;
      assert x[..] == y[j := RowValue(p, y, j, true)];
      j := j + 1;
    }
  }

  /** The two values of a friction pair, scaled back into the cone. */
  method ScaleBack(fx0: real, fy0: real, fmax: real, sqrt: real -> real) returns (fx: real, fy: real)
    requires IsSqrt(sqrt)
    ensures (fx, fy) == Clip(fx0, fy0, fmax, sqrt)
  {
    var fmax2 := Product(fmax, fmax);
    var fmag2 := Product(fx0, fx0) + Product(fy0, fy0);
    if fmag2 > fmax2 {
      ProductSquare(fmax);
      RootPositive(fmag2, sqrt);
      var s := fmax / sqrt(fmag2);
      fx := Product(s, fx0);
      fy := Product(s, fy0);
    } else {
      fx := fx0;
      fy := fy0;
    }
  }

  /** The friction loop of one iteration. */
  /** One friction pair, from the two rows of contact k. */
  method MainPair(p: Problem, x: array<real>, mcpHi: array<real>, sqrt: real -> real, k: nat)
    requires Fitting(p, x, mcpHi) && IsSqrt(sqrt) && k < |p.mu| && mcpHi[k] == Limit(p, x[..], k)
    modifies x
    ensures x[..] == PairStep(p, old(x[..]), k, true, sqrt) && forall i | 0 <= i < p.n :: x[i] == old(x[i])
  {
    hide Product, Value, Clip;
    var j := p.n + 2 * k;
    var fx0 := MarkedValue(p, x, j);
    var fy0 := MarkedValue(p, x, j + 1);
    var fx, fy := ScaleBack(fx0, fy0, mcpHi[k], sqrt);
    x[j], x[j + 1] := fx, fy;
  }

  method MainPairs(p: Problem, x: array<real>, mcpHi: array<real>, sqrt: real -> real)
    requires Fitting(p, x, mcpHi) && IsSqrt(sqrt)
    requires forall k | 0 <= k < |p.mu| :: mcpHi[k] == Limit(p, x[..], k)
    modifies x
    ensures x[..] == PairSweep(p, old(x[..]), 0, true, sqrt)
  {
    hide Product, PairStep;
    ghost var x0 := x[..];
    var contactIndex := 0;
    while contactIndex < |p.mu|
      invariant 0 <= contactIndex <= |p.mu|
      invariant PairSweep(p, x[..], contactIndex, true, sqrt) == PairSweep(p, x0, 0, true, sqrt)
      invariant forall k | 0 <= k < |p.mu| :: mcpHi[k] == Product(p.mu[k], x[k])
    {
      MainPair(p, x, mcpHi, sqrt, contactIndex);
      contactIndex := contactIndex + 1;
    }
  }

  method SolveMCPByProjectedGaussSeidelMain(p: Problem, x: array<real>, mcpHi: array<real>, sqrt: real -> real,
                                            numIteration: nat)
    requires Fitting(p, x, mcpHi) && IsSqrt(sqrt)
    modifies x, mcpHi
    ensures x[..] == Passes(p, old(x[..]), numIteration, sqrt)
  {
    ghost var x0 := x[..];
    var i := 0;
    while i < numIteration
      invariant 0 <= i <= numIteration
      invariant x[..] == Passes(p, x0, i, sqrt)
    {
      MainRows(p, x, mcpHi);
      MainPairs(p, x, mcpHi, sqrt);
      i := i + 1;
    }
  }

  /** Keeping the greater of the error so far and a new relative change. */
  method RaiseError(error: real, xx: real, was: real, size: real) returns (raised: real)
    requires EPSILON > 0.0
    ensures var d := Abs(xx - was);
            var e := if size > EPSILON && size > 0.0 then d / size else d;
            raised == Greater(error, e)
  {
    var d := Abs(xx - was);
    if size > EPSILON {
      d := d / size;
    }
    raised := if d > error then d else error;
  }

  lemma EpsilonPositive()
    ensures EPSILON > 0.0
  {
    assert Pow2(52) as real > 0.0;
  }

  method CheckRows(p: Problem, x: array<real>, mcpHi: array<real>) returns (error: real)
    requires Fitting(p, x, mcpHi)
    modifies x, mcpHi
    ensures x[..] == RowSweep(p, old(x[..]), 0, false)
    ensures forall k | 0 <= k < |p.mu| :: mcpHi[k] == Limit(p, x[..], k)
    ensures error == GreatestChange(p, old(x[..]), x[..], p.n)
  {
    hide Product, Relaxed;
    EpsilonPositive();
    ghost var x0 := x[..];
    error := 0.0;
    var j := 0;
    while j < p.n
      invariant 0 <= j <= p.n
      invariant RowSweep(p, x[..], j, false) == RowSweep(p, x0, 0, false)
      invariant forall k | 0 <= k < j && k < |p.mu| :: mcpHi[k] == Product(p.mu[k], x[k])
      invariant x[j..] == x0[j..]
      invariant error == GreatestChange(p, x0, x[..], j)
    {
      ghost var y := x[..];
      var xx := RelaxRow(p, x, j);
      if j < |p.mu| {
        if xx < 0.0 {
          xx := 0.0;
        }
        mcpHi[j] := Product(p.mu[j], xx);
      }
      error := RaiseError(error, xx, x[j], xx);
      x[j] := xx;
      assert x[..] == y[j := RowValue(p, y, j, false)];
      GreatestChangePrefix(p, x0, y, x[..], j);
      j := j + 1;
    }
  }

  /** Friction pair k of the error check. */
  method CheckPair(p: Problem, x: array<real>, fmax: real, k: nat, sqrt: real -> real, error0: real)
    returns (error: real)
    requires p.Valid() && x.Length == |p.M| && k < |p.mu| && IsSqrt(sqrt) && fmax == Limit(p, x[..], k)
    modifies x
    ensures x[..] == PairStep(p, old(x[..]), k, false, sqrt)
    ensures var e := Greater(error0, RelativeChange(p, old(x[..]), x[..], p.n + 2 * k));
            error == Greater(e, RelativeChange(p, old(x[..]), x[..], p.n + 2 * k + 1))
  {
    hide Product, Relaxed, Clip;
    EpsilonPositive();
    ghost var y := x[..];
    var j := p.n + 2 * k;
    var fx0 := RelaxRow(p, x, j);
    j := j + 1;
    var fy0 := RelaxRow(p, x, j);
    fx0, fy0 := ScaleBack(fx0, fy0, fmax, sqrt);
    error := RaiseError(error0, fx0, x[j - 1], Abs(fx0));
    error := RaiseError(error, fy0, x[j], Abs(fy0));
    x[j - 1] := fx0;
    x[j] := fy0;
    assert x[..] == PairStep(p, y, k, false, sqrt);
  }

  method CheckPairs(p: Problem, x: array<real>, mcpHi: array<real>, sqrt: real -> real, error0: real,
                    ghost x0: seq<real>)
    returns (error: real)
    requires Fitting(p, x, mcpHi) && IsSqrt(sqrt) && |x0| == x.Length && x[p.n..] == x0[p.n..]
    requires forall k | 0 <= k < |p.mu| :: mcpHi[k] == Limit(p, x[..], k)
    requires error0 == GreatestChange(p, x0, x[..], p.n)
    modifies x
    ensures x[..] == PairSweep(p, old(x[..]), 0, false, sqrt)
    ensures error == GreatestChange(p, x0, x[..], x.Length)
  {
    hide Product, RelativeChange, GreatestChange, PairStep;
    ghost var z := x[..];
    error := error0;
    var contactIndex := 0;
    var j := p.n;
    while j < |p.M|
      invariant 0 <= contactIndex <= |p.mu| && j == p.n + 2 * contactIndex
      invariant PairSweep(p, x[..], contactIndex, false, sqrt) == PairSweep(p, z, 0, false, sqrt)
      invariant forall k | 0 <= k < |p.mu| :: mcpHi[k] == Limit(p, x[..], k)
      invariant x[j..] == x0[j..]
      invariant error == GreatestChange(p, x0, x[..], j)
    {
      ghost var y := x[..];
      error := CheckPair(p, x, mcpHi[contactIndex], contactIndex, sqrt, error);
      PairStepElsewhere(p, y, contactIndex, false, sqrt);
      TwoMoreChanges(p, x0, y, x[..], j);
      j := j + 2;
      contactIndex := contactIndex + 1;
      assert x[j..] == x0[j..] by { SameTail(x0, y, x[..], j - 2); }
    }
  }

  lemma PairStepElsewhere(p: Problem, x: seq<real>, k: nat, marked: bool, sqrt: real -> real)
    requires p.Fits(x) && k < |p.mu|
    ensures forall i | 0 <= i < |x| && i != p.n + 2 * k && i != p.n + 2 * k + 1 ::
              PairStep(p, x, k, marked, sqrt)[i] == x[i]
  {
    hide Clip, Value;
  }

  lemma SameTail(x0: seq<real>, y: seq<real>, x: seq<real>, j: nat)
    requires j + 2 <= |x0| == |y| == |x| && y[j..] == x0[j..] && (forall i | j + 2 <= i < |x| :: x[i] == y[i])
    ensures x[j + 2..] == x0[j + 2..]
  {
    forall i | j + 2 <= i < |x| ensures x[i] == x0[i] {
      assert y[j..][i - j] == x0[j..][i - j];
    }
  }

  /** A pair at entries j, j+1 that had their first values until now. */
  lemma TwoMoreChanges(p: Problem, x0: seq<real>, y: seq<real>, x: seq<real>, j: nat)
    requires p.Valid() && j + 2 <= |x0| == |y| == |x| && y[..j] == x[..j] && y[j..] == x0[j..]
    ensures GreatestChange(p, x0, x, j + 2)
         == Greater(Greater(GreatestChange(p, x0, y, j), RelativeChange(p, y, x, j)), RelativeChange(p, y, x, j + 1))
  {
    GreatestChangePrefix(p, x0, y, x, j);
    assert y[j..][0] == x0[j..][0] && y[j..][1] == x0[j..][1];
    SameChange(p, x0, y, x, j);
    SameChange(p, x0, y, x, j + 1);
    hide RelativeChange;
    assert GreatestChange(p, x0, x, j + 2) == Greater(GreatestChange(p, x0, x, j + 1), RelativeChange(p, x0, x, j + 1));
  }

  lemma SameChange(p: Problem, x0: seq<real>, y: seq<real>, x: seq<real>, j: nat)
    requires p.Valid() && j < |x0| == |y| == |x| && x0[j] == y[j]
    ensures RelativeChange(p, x0, x, j) == RelativeChange(p, y, x, j)
  {}

  method SolveMCPByProjectedGaussSeidelErrorCheck(p: Problem, x: array<real>, mcpHi: array<real>, sqrt: real -> real)
    returns (error: real)
    requires Fitting(p, x, mcpHi) && IsSqrt(sqrt)
    modifies x, mcpHi
    ensures x[..] == Pass(p, old(x[..]), false, sqrt)
    ensures error == GreatestChange(p, old(x[..]), x[..], x.Length)
    ensures error == 0.0 <==> Solved(p, old(x[..]))
  {
    ghost var x0 := x[..];
    RowSweepKeeps(p, x0, 0, false);
    error := CheckRows(p, x, mcpHi);
    error := CheckPairs(p, x, mcpHi, sqrt, error, x0);
    NoChangeReported(p, x0, x[..], x.Length);
    assert x0[..x.Length] == x0 && x[..][..x.Length] == x[..];
    FixedIffSolved(p, x0, sqrt);
  }

  /** Integer division as in C++. */
  function TruncatedQuotient(a: int, b: int): int
    requires b > 0
  {
    if a >= 0 then a / b else -((-a) / b)
  }

  predicate Stops(p: Problem, z: seq<real>, y: seq<real>, maxRelError: real)
    requires p.Valid() && |z| == |y|
  {
    GreatestChange(p, z, y, |z|) < maxRelError
  }

  /** The forces after up to `blocks` blocks of `size` iterations and a check, stopping early on a small error. */
  function Blocks(p: Problem, x: seq<real>, size: nat, blocks: nat, maxRelError: real, sqrt: real -> real)
    : (y: seq<real>)
    requires p.Fits(x)
    ensures |y| == |x|
    decreases blocks
  {
    hide Pass, Passes, Stops;
    if blocks == 0 then x
    else
      var z := Passes(p, x, size, sqrt);
      var y := Pass(p, z, false, sqrt);
      if Stops(p, z, y, maxRelError) then y else Blocks(p, y, size, blocks - 1, maxRelError, sqrt)
  }

  /** The number of blocks: one at least, unless the requested number of iterations is -10 or less. */
  function NumBlockLoops(maxNumIteration: int): int {
    var n := TruncatedQuotient(maxNumIteration, LOOP_BLOCK_SIZE);
    if n == 0 then 1 else n
  }

  /** The solver. Whatever the iteration count, it ends with every contact pushing and every friction
      pair inside its own cone, provided it runs at all; and when its last error check reports no
      error, the forces solve the contact problem. */
  method SolveMCPByProjectedGaussSeidel(p: Problem, x: array<real>, mcpHi: array<real>, sqrt: real -> real,
                                        maxNumIteration: int, maxRelError: real) returns (error: real)
    requires Fitting(p, x, mcpHi) && IsSqrt(sqrt)
    modifies x, mcpHi
    ensures x[..] == Blocks(p, old(x[..]), LOOP_BLOCK_SIZE - 1, if NumBlockLoops(maxNumIteration) < 0 then 0
                            else NumBlockLoops(maxNumIteration), maxRelError, sqrt)
    ensures maxNumIteration > -10 ==> Feasible(p, x[..])
    ensures maxNumIteration > -10 && error == 0.0 ==> Solved(p, x[..])
    ensures maxNumIteration <= -10 ==> x[..] == old(x[..])
  {
    hide Pass, Passes, Feasible, Solved;
    ghost var x0 := x[..];
    var numBlockLoops := NumBlockLoops(maxNumIteration);
    ghost var total := if numBlockLoops < 0 then 0 else numBlockLoops;
    ghost var size := LOOP_BLOCK_SIZE - 1;
    error := 0.0;
    var i := 0;
    while i < numBlockLoops
      invariant 0 <= i <= total
      invariant Blocks(p, x[..], size, total - i, maxRelError, sqrt) == Blocks(p, x0, size, total, maxRelError, sqrt)
      invariant i > 0 ==> Feasible(p, x[..]) && (error == 0.0 ==> Solved(p, x[..]))
      invariant i == 0 ==> x[..] == x0
    {
      i := i + 1;
      SolveMCPByProjectedGaussSeidelMain(p, x, mcpHi, sqrt, LOOP_BLOCK_SIZE - 1);
      ghost var z := x[..];
      error := SolveMCPByProjectedGaussSeidelErrorCheck(p, x, mcpHi, sqrt);
      PassFeasible(p, z, false, sqrt);
      FixedIffSolved(p, z, sqrt);
      if error < maxRelError {
        break;
      }
    }
  }

  // ---- how long the solver goes on ----

  /** No row is marked as singular. */
  ghost predicate Unmarked(p: Problem)
    requires p.Valid()
  {
    forall i | 0 <= i < |p.M| :: p.M[i][i] != SINGULAR
  }

  lemma {:induction false} UnmarkedRows(p: Problem, x: seq<real>, j: nat)
    requires p.Fits(x) && j <= p.n && Unmarked(p)
    ensures RowSweep(p, x, j, true) == RowSweep(p, x, j, false)
    decreases p.n - j
  {
    hide Relaxed;
    if j < p.n {
      UnmarkedRows(p, x[j := RowValue(p, x, j, true)], j + 1);
    }
  }

  lemma {:induction false} UnmarkedPairs(p: Problem, x: seq<real>, k: nat, sqrt: real -> real)
    requires p.Fits(x) && k <= |p.mu| && Unmarked(p)
    ensures PairSweep(p, x, k, true, sqrt) == PairSweep(p, x, k, false, sqrt)
    decreases |p.mu| - k
  {
    hide Relaxed, Clip;
    if k < |p.mu| {
      UnmarkedPairs(p, PairStep(p, x, k, true, sqrt), k + 1, sqrt);
    }
  }

  lemma UnmarkedPass(p: Problem, x: seq<real>, sqrt: real -> real)
    requires p.Fits(x) && Unmarked(p)
    ensures Pass(p, x, true, sqrt) == Pass(p, x, false, sqrt)
  {
    hide RowSweep, PairSweep;
    UnmarkedRows(p, x, 0);
    UnmarkedPairs(p, RowSweep(p, x, 0, true), 0, sqrt);
  }

  lemma {:induction false} PassesAdd(p: Problem, x: seq<real>, m: nat, n: nat, sqrt: real -> real)
    requires p.Fits(x)
    ensures Passes(p, Passes(p, x, m, sqrt), n, sqrt) == Passes(p, x, m + n, sqrt)
  {
    hide Pass;
    if n > 0 {
      PassesAdd(p, x, m, n - 1, sqrt);
    }
  }

  /** The last of k blocks of passes changed little. */
  ghost predicate Settled(p: Problem, x: seq<real>, passes: nat, maxRelError: real, sqrt: real -> real)
    requires p.Fits(x) && passes > 0
  {
    Stops(p, Passes(p, x, passes - 1, sqrt), Passes(p, x, passes, sqrt), maxRelError)
  }

  /** Where no row is marked, the solver makes as many blocks of passes as it was asked for, or stops after the first
      block whose last pass changed little. */
  lemma {:induction false} BlocksArePasses(p: Problem, x: seq<real>, size: nat, blocks: nat, maxRelError: real,
                                           sqrt: real -> real) returns (k: nat)
    requires p.Fits(x) && Unmarked(p)
    ensures k <= blocks && Blocks(p, x, size, blocks, maxRelError, sqrt) == Passes(p, x, (size + 1) * k, sqrt)
    ensures blocks > 0 ==> k > 0
    ensures forall i: nat | 0 < i < k :: !Settled(p, x, BlockEnd(size, i), maxRelError, sqrt)
    ensures 0 < k < blocks ==> Settled(p, x, BlockEnd(size, k), maxRelError, sqrt)
    decreases blocks
  {
    hide Pass, Passes, Stops, Blocks;
    BlocksUnfold(p, x, size, blocks, maxRelError, sqrt);
    NoPasses(p, x, sqrt);
    if blocks == 0 {
      k := 0;
    } else {
      var z, y := Passes(p, x, size, sqrt), Passes(p, x, size + 1, sqrt);
      OneBlock(p, x, size, sqrt);
      assert BlockEnd(size, 1) == size + 1;
      if Stops(p, z, y, maxRelError) {
        k := 1;
      } else {
        var m := BlocksArePasses(p, y, size, blocks - 1, maxRelError, sqrt);
        k := m + 1;
        PassesAdd(p, x, size + 1, (size + 1) * m, sqrt);
        assert (size + 1) + (size + 1) * m == (size + 1) * k;
        forall i: nat | 0 < i <= m
          ensures Settled(p, x, BlockEnd(size, i + 1), maxRelError, sqrt)
             <==> Settled(p, y, BlockEnd(size, i), maxRelError, sqrt)
        {
          LaterSettled(p, x, size, i, maxRelError, sqrt);
        }
        forall i: nat | 0 < i < k ensures !Settled(p, x, BlockEnd(size, i), maxRelError, sqrt) {
          if i > 1 {
            assert !Settled(p, y, BlockEnd(size, i - 1), maxRelError, sqrt);
          }
        }
      }
    }
  }

  /** The number of passes in i blocks. */
  function BlockEnd(size: nat, i: nat): (n: nat)
    ensures i > 0 ==> n > 0
  {
    if i == 0 then 0 else BlockEnd(size, i - 1) + size + 1
  }

  lemma BlocksUnfold(p: Problem, x: seq<real>, size: nat, blocks: nat, maxRelError: real, sqrt: real -> real)
    requires p.Fits(x)
    ensures blocks == 0 ==> Blocks(p, x, size, blocks, maxRelError, sqrt) == x
    ensures blocks > 0 ==>
      var z := Passes(p, x, size, sqrt);
      var y := Pass(p, z, false, sqrt);
      Blocks(p, x, size, blocks, maxRelError, sqrt)
      == if Stops(p, z, y, maxRelError) then y else Blocks(p, y, size, blocks - 1, maxRelError, sqrt)
  {
    hide Pass, Passes, Stops;
  }

  lemma NoPasses(p: Problem, x: seq<real>, sqrt: real -> real)
    requires p.Fits(x)
    ensures Passes(p, x, 0, sqrt) == x
  {}

  lemma OneBlock(p: Problem, x: seq<real>, size: nat, sqrt: real -> real)
    requires p.Fits(x) && Unmarked(p)
    ensures Pass(p, Passes(p, x, size, sqrt), false, sqrt) == Passes(p, x, size + 1, sqrt)
  {
    hide Pass;
    UnmarkedPass(p, Passes(p, x, size, sqrt), sqrt);
  }

  lemma LaterSettled(p: Problem, x: seq<real>, size: nat, i: nat, maxRelError: real, sqrt: real -> real)
    requires p.Fits(x) && i > 0
    ensures Settled(p, x, BlockEnd(size, i + 1), maxRelError, sqrt)
       <==> Settled(p, Passes(p, x, size + 1, sqrt), BlockEnd(size, i), maxRelError, sqrt)
  {
    hide Pass, Passes, Stops;
    var n := BlockEnd(size, i);
    PassesAdd(p, x, size + 1, n, sqrt);
    PassesAdd(p, x, size + 1, n - 1, sqrt);
  }
}
