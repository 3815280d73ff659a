/** Clearing the rows of closed-loop connections in singular poses before the contact problem is
    solved, and what that leaves of the matrix. */
module SingularRows {
  import opened LinearAlgebra
  import opened Sums
  import opened GaussSeidel

  const SMALL: real := 0.0001

  /** Column i of a row of the cleared matrix. */
  function Cleared(M: seq<seq<real>>, j: nat, i: nat): real
    requires IsSquare(M) && j < |M| && i < |M|
  {
    if M[i][i] < SMALL then if i == j then SINGULAR else 0.0 else M[j][i]
  }

  function ClearedMatrix(M: seq<seq<real>>): (r: seq<seq<real>>)
    requires IsSquare(M)
    ensures IsSquare(r) && |r| == |M|
    ensures forall j, i | 0 <= j < |M| && 0 <= i < |M| :: r[j][i] == Cleared(M, j, i)
  {
    seq(|M|, j requires 0 <= j < |M| => seq(|M|, i requires 0 <= i < |M| => Cleared(M, j, i)))
  }

  function Entries(M: array2<real>): (r: seq<seq<real>>)
    requires M.Length0 == M.Length1
    reads M
    ensures IsSquare(r) && |r| == M.Length0
    ensures forall j, i | 0 <= j < |r| && 0 <= i < |r| :: r[j][i] == M[j, i]
  {
    seq(M.Length0,
        j requires 0 <= j < M.Length0 reads M => seq(M.Length0, i requires 0 <= i < M.Length0 reads M => M[j, i]))
  }

  method ClearSingularPointConstraintsOfClosedLoopConnections(M: array2<real>)
    requires M.Length0 == M.Length1
    modifies M
    ensures Entries(M) == ClearedMatrix(old(Entries(M)))
  {
    ghost var m := Entries(M);
    var i := 0;
    while i < M.Length0
      invariant 0 <= i <= M.Length0
      invariant forall j, k | 0 <= j < M.Length0 && 0 <= k < M.Length0 ::
                  M[j, k] == if k < i then Cleared(m, j, k) else m[j][k]
    {
      if M[i, i] < SMALL {
        var j := 0;
        while j < M.Length0
          invariant 0 <= j <= M.Length0
          invariant forall l, k | 0 <= l < M.Length0 && 0 <= k < M.Length0 ::
            M[l, k] == if k < i then Cleared(m, l, k) else if k == i && l < j then 0.0 else m[l][k]
        {
          M[j, i] := 0.0;
          j := j + 1;
        }
        M[i, i] := SINGULAR;
      }
      i := i + 1;
    }
    ghost var r, c := Entries(M), ClearedMatrix(m);
    forall j | 0 <= j < |r| ensures r[j] == c[j] {}
  }

  lemma SingularIsLarge()
    ensures SINGULAR >= 1.0
  {
    hide Pow2;
    Doubled(52);
    var a, b := Pow2(53) - 1, Pow2(971);
    assert a * b >= 1;
  }

  lemma Doubled(n: nat)
    ensures Pow2(n + 1) == 2 * Pow2(n)
  {}

  /** Whatever the matrix, the cleared one has the positive diagonal that the solver divides by. */
  lemma ClearedIsDivisible(M: seq<seq<real>>)
    requires IsSquare(M)
    ensures forall i | 0 <= i < |M| :: ClearedMatrix(M)[i][i] >= SMALL
  {
    SingularIsLarge();
  }

  /** A force on a singular row no longer shows in any other row. */
  lemma SingularForceIsInert(M: seq<seq<real>>, x: seq<real>, v: real, i: nat, j: nat)
    requires IsSquare(M) && |x| == |M| && i < |M| && j < |M| && i != j && M[i][i] < SMALL
    ensures SeqDot(ClearedMatrix(M)[j], x[i := v]) == SeqDot(ClearedMatrix(M)[j], x)
  {
    hide Product;
    SeqDotUpdate(ClearedMatrix(M)[j], x, i, v - x[i]);
    ProductUnits(v - x[i]);
  }

  /** Only columns are cleared, so a symmetric matrix stays symmetric just when each singular row
      was already zero against the others. */
  lemma ClearedSymmetricIff(M: seq<seq<real>>)
    requires IsSquare(M) && IsSymmetricMatrix(M)
    ensures IsSymmetricMatrix(ClearedMatrix(M))
      <==> forall i, j | 0 <= i < |M| && 0 <= j < |M| && M[i][i] < SMALL && M[j][j] >= SMALL :: M[i][j] == 0.0
  {
    var c := ClearedMatrix(M);
    if IsSymmetricMatrix(c) {
      forall i, j | 0 <= i < |M| && 0 <= j < |M| && M[i][i] < SMALL && M[j][j] >= SMALL
        ensures M[i][j] == 0.0
      {
        assert c[i][j] == c[j][i];
      }
    }
  }

  /** A symmetric matrix with one singular row, whose clearing is not symmetric. */
  lemma ClearedAskew()
    ensures var m := [[0.0, 1.0], [1.0, 1.0]];
      IsSquare(m) && IsSymmetricMatrix(m) && !IsSymmetricMatrix(ClearedMatrix(m))
  {
    var m := [[0.0, 1.0], [1.0, 1.0]];
    assert m[0][0] < SMALL <= m[1][1] && m[0][1] != 0.0;
    ClearedSymmetricIff(m);
  }

  /** A row that is not singular acts in the cleared matrix as in the measured one when no singular row's force shows
      in it. */
  lemma ClearedActs(M: seq<seq<real>>, x: seq<real>, k: nat)
    requires IsSquare(M) && |x| == |M| && k < |M| && M[k][k] >= SMALL
    requires forall j | 0 <= j < |M| && M[j][j] < SMALL :: Product(M[k][j], x[j]) == 0.0
    ensures SeqDot(ClearedMatrix(M)[k], x) == SeqDot(M[k], x)
  {
    hide Product, SeqDot;
    forall j | 0 <= j < |M| ensures Product(ClearedMatrix(M)[k][j], x[j]) == Product(M[k][j], x[j]) {
      ProductUnits(x[j]);
    }
    SeqDotSame(ClearedMatrix(M)[k], M[k], x);
  }
}
