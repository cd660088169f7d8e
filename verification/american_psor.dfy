/**
 * The American-option pricer: an implicit finite-difference grid in the
 * spot price, solved backward in time by a projected Gauss-Seidel sweep
 * (PSOR) that keeps every node at or above its early-exercise value, then
 * read off at the requested spot by linear interpolation.
 *
 * Every double of the source is an exact `real` here. Eigen's `MatrixXd`
 * and `VectorXd` become an `array2<real>` or `array<real>` where the source
 * passes them by reference and changes them, and `seq` values where it
 * passes them by value. The math library's `exp` is a parameter.
 */
module AmericanPsor {
  import opened CMath

  /** N: the spot grid has nodes 0..N. */
  const GridNodes: nat := 100
  /** M: number of backward time steps. */
  const TimeSteps: nat := 100
  /** theta, the blend of explicit and implicit halves of the operator. */
  const Theta: real := 0.5
  /** Relaxation weight of the sweep (1: plain Gauss-Seidel). */
  const Weight: real := 1.0
  /** Cap on the number of sweeps per time step. */
  const MaxIter: int := 200
  /** Convergence threshold on a sweep's sum of squared changes, `pow(10, -4)`. */
  const Tolerance: real := 1.0 / 10000.0
  /** The volatility the operator is built with, whatever volatility the caller asks for. */
  const OperatorVol: real := 0.2

  // ---------------------------------------------------------------------
  // Payoffs
  // ---------------------------------------------------------------------

  /** Exercise value before the floor at zero: S-K for a call, K-S for a put. */
  function Intrinsic(S: real, K: real, isCall: bool): real
  {
    if isCall then S - K else K - S
  }

  /** Terminal payoff: `max(S-K, 0)` for a call (`type` true), `max(K-S, 0)` for a put. */
  function Payoff(S: real, K: real, isCall: bool): (p: real)
    ensures p >= 0.0 && p >= Intrinsic(S, K, isCall)
    ensures p == 0.0 || p == Intrinsic(S, K, isCall)
  {
    if isCall then Max(S - K, 0.0) else Max(K - S, 0.0)
  }

  // ---------------------------------------------------------------------
  // The tridiagonal operator
  // ---------------------------------------------------------------------

  /** a_row, the entry left of the diagonal of an interior row. */
  function SubDiag(row: int, theta: real, sig: real, r: real): real
  {
    0.5 * theta * ((sig * row as real) * (sig * row as real) - r * row as real)
  }

  /** b_row, the diagonal entry of an interior row: negative, hence nonzero, for dt > 0 and r >= 0. */
  function MainDiag(row: int, sig: real, r: real, dt: real): (b: real)
    requires dt != 0.0
    ensures dt > 0.0 && r >= 0.0 ==> b < 0.0
  {
    -0.5 * ((sig * row as real) * (sig * row as real) + r) - 1.0 / dt
  }

  /**
   * c_row, the entry right of the diagonal of an interior row. Together with
   * a_row it splits theta times the diffusion term sigma^2 row^2 evenly and
   * the drift term r row with opposite signs.
   */
  function SuperDiag(row: int, theta: real, sig: real, r: real): (c: real)
    ensures c + SubDiag(row, theta, sig, r) == theta * Sq(sig * row as real)
    ensures c - SubDiag(row, theta, sig, r) == theta * (r * row as real)
  {
    0.5 * theta * ((sig * row as real) * (sig * row as real) + r * row as real)
  }

  /** The positions `initMatrix` writes: (0,0), (N,N), and i-1..i+1 of each interior row i. */
  predicate Written(N: int, i: int, j: int)
  {
    (i == 0 && j == 0) || (i == N && j == N) || (1 <= i < N && i - 1 <= j <= i + 1)
  }

  /**
   * Entry (i, j) of the operator that `initMatrix` builds from the zero
   * matrix: identity rows 0 and N, (a_i, b_i, c_i) around the diagonal of
   * each interior row, zero elsewhere.
   */
  function OperatorEntry(N: int, theta: real, sig: real, r: real, dt: real, i: int, j: int): (e: real)
    requires dt != 0.0
    ensures (i == 0 || i == N) ==> e == (if i == j then 1.0 else 0.0)
    ensures (j < i - 1 || i + 1 < j) ==> e == 0.0
    ensures 0 < i < N && j == i && dt > 0.0 && r >= 0.0 ==> e < 0.0
  {
    if i == 0 || i == N then (if j == i then 1.0 else 0.0)
    else if 1 <= i < N && j == i - 1 then SubDiag(i, theta, sig, r)
    else if 1 <= i < N && j == i then MainDiag(i, sig, r, dt)
    else if 1 <= i < N && j == i + 1 then SuperDiag(i, theta, sig, r)
    else 0.0
  }

  /**
   * `initMatrix`: fills the tridiagonal operator into `M` in place. Only
   * the written positions change; applied to the zero matrix this is
   * exactly the operator of `OperatorEntry`.
   */
  method InitMatrix(M: array2<real>, N: int, theta: real, sig: real, r: real, dt: real)
    requires 0 <= N < M.Length0 && N < M.Length1
    requires dt != 0.0
    modifies M
    ensures forall i, j :: 0 <= i < M.Length0 && 0 <= j < M.Length1 ==>
      M[i, j] == if Written(N, i, j) then OperatorEntry(N, theta, sig, r, dt, i, j) else old(M[i, j])
  {
    M[0, 0] := 1.0;
    var row := 1;
    while row < N
      invariant 1 <= row && (row <= N || row == 1)
      invariant forall i, j :: 0 <= i < M.Length0 && 0 <= j < M.Length1 ==>
        M[i, j] == if (i == 0 && j == 0) || (1 <= i < row && i - 1 <= j <= i + 1)
                   then OperatorEntry(N, theta, sig, r, dt, i, j) else old(M[i, j])
    {
      var a := 0.5 * theta * ((sig * row as real) * (sig * row as real) - r * row as real);
      var b := -0.5 * ((sig * row as real) * (sig * row as real) + r) - 1.0 / dt;
      var c := 0.5 * theta * ((sig * row as real) * (sig * row as real) + r * row as real);
      M[row, row - 1] := a;
      M[row, row] := b;
      M[row, row + 1] := c;
      row := row + 1;
    }
    M[N, N] := 1.0;
  }

  /** A by-value copy of a matrix (the source passes `MatrixXd M1` by value). */
  function Rows(a: array2<real>): (m: seq<seq<real>>)
    reads a
  {
    seq(a.Length0, i requires 0 <= i < a.Length0 reads a =>
      seq(a.Length1, j requires 0 <= j < a.Length1 reads a => a[i, j]))
  }

  /**
   * The (N+1)x(N+1) operator as a value: tridiagonal, with identity rows
   * at both boundaries and, for dt > 0 and r >= 0, a negative interior
   * diagonal.
   */
  function Operator(N: nat, theta: real, sig: real, r: real, dt: real): (m: seq<seq<real>>)
    requires dt != 0.0
    ensures |m| == N + 1 && forall i :: 0 <= i <= N ==> |m[i]| == N + 1
    ensures forall j :: 0 <= j <= N ==> m[0][j] == (if j == 0 then 1.0 else 0.0) && m[N][j] == (if j == N then 1.0 else 0.0)
    ensures forall i, j :: 0 <= i <= N && 0 <= j <= N && (j < i - 1 || i + 1 < j) ==> m[i][j] == 0.0
    ensures dt > 0.0 && r >= 0.0 ==> forall i :: 0 < i < N ==> m[i][i] < 0.0
  {
    seq(N + 1, i requires 0 <= i <= N =>
      seq(N + 1, j requires 0 <= j <= N => OperatorEntry(N, theta, sig, r, dt, i, j)))
  }

  // ---------------------------------------------------------------------
  // Shapes of the linear system
  // ---------------------------------------------------------------------

  /** Rows and columns 0..N exist. */
  predicate MatrixShape(m: seq<seq<real>>, N: int)
  {
    0 <= N < |m| && forall i :: 0 <= i <= N ==> N < |m[i]|
  }

  predicate DiagonalNonZero(m: seq<seq<real>>, N: int)
    requires MatrixShape(m, N)
  {
    forall i :: 0 <= i <= N ==> m[i][i] != 0.0
  }

  /** What `initPrev` and `computeSOR` index: entries 0..N, at least one interior-or-top row. */
  predicate SystemShape(m: seq<seq<real>>, d: seq<real>, grid: seq<real>, N: int)
  {
    1 <= N && MatrixShape(m, N) && DiagonalNonZero(m, N) && N < |d| && N < |grid|
  }

  /** Every node 0..N is at or above its exercise value (the early-exercise constraint). */
  predicate Projected(v: seq<real>, grid: seq<real>, K: real, isCall: bool, N: int)
    requires N < |v| && N < |grid|
  {
    forall i :: 0 <= i <= N ==> v[i] >= Intrinsic(grid[i], K, isCall)
  }

  // ---------------------------------------------------------------------
  // Right-hand side
  // ---------------------------------------------------------------------

  /**
   * The right-hand side `initPrev` writes at node i: zero at the top, the
   * discounted strike `K*exp(-r*(M-t)*dt)` at the bottom (for calls and
   * puts alike), the explicit half of the scheme applied to `w` between.
   */
  function RhsEntry(w: seq<real>, m: seq<seq<real>>, K: real, N: int, M: int, t: int, dt: real, r: real,
                    exp: real -> real, i: int): real
    requires MatrixShape(m, N) && N < |w| && dt != 0.0 && 0 <= i <= N
  {
    if i == N then 0.0
    else if i == 0 then K * exp(-r * (M - t) as real * dt)
    else -m[i][i - 1] * w[i - 1] - (m[i][i] + 2.0 / dt) * w[i] - m[i][i + 1] * w[i + 1]
  }

  function Rhs(w: seq<real>, m: seq<seq<real>>, K: real, N: int, M: int, t: int, dt: real, r: real,
               exp: real -> real): (d: seq<real>)
    requires MatrixShape(m, N) && N < |w| && dt != 0.0
    ensures |d| == N + 1 && d[N] == 0.0
    ensures 0 < N ==> d[0] == K * exp(-r * (M - t) as real * dt)
    ensures forall i :: 0 < i < N ==>
      d[i] + (m[i][i - 1] * w[i - 1] + m[i][i] * w[i] + m[i][i + 1] * w[i + 1]) == -2.0 / dt * w[i]
  {
    seq(N + 1, i requires 0 <= i <= N => RhsEntry(w, m, K, N, M, t, dt, r, exp, i))
  }

  /**
   * `initPrev`: writes the right-hand side into d(0..N) in place; `w` and
   * `M1` are copies and the rest of `d` is untouched.
   */
  method InitPrev(d: array<real>, w: seq<real>, M1: seq<seq<real>>, K: real, N: int, M: int, t: int,
                  dt: real, r: real, exp: real -> real)
    requires MatrixShape(M1, N) && N < d.Length && N < |w| && dt != 0.0
    modifies d
    ensures d[..N + 1] == Rhs(w, M1, K, N, M, t, dt, r, exp)
    ensures d[N + 1..] == old(d[N + 1..])
  {
    d[0] := K * exp(-r * (M - t) as real * dt);
    var i := 1;
    while i < N
      invariant 1 <= i && (i <= N || i == 1)
      invariant d[0] == K * exp(-r * (M - t) as real * dt)
      invariant forall k :: 1 <= k < i ==> d[k] == RhsEntry(w, M1, K, N, M, t, dt, r, exp, k)
      invariant d[N + 1..] == old(d[N + 1..])
    {
      d[i] := -M1[i][i - 1] * w[i - 1] - (M1[i][i] + 2.0 / dt) * w[i] - M1[i][i + 1] * w[i + 1];
      i := i + 1;
    }
    d[N] := 0.0;
    assert forall k :: 0 <= k <= N ==> d[..N + 1][k] == Rhs(w, M1, K, N, M, t, dt, r, exp)[k];
  }

  /** In the interior the right-hand side is the explicit half of the operator applied to `w`. */
  lemma RhsIsExplicitHalf(w: seq<real>, K: real, N: nat, M: int, t: int, dt: real, r: real,
                          theta: real, sig: real, exp: real -> real, i: int)
    requires dt != 0.0 && N < |w| && 0 < i < N
    ensures Rhs(w, Operator(N, theta, sig, r, dt), K, N, M, t, dt, r, exp)[i]
         == -SubDiag(i, theta, sig, r) * w[i - 1] - (MainDiag(i, sig, r, dt) + 2.0 / dt) * w[i]
            - SuperDiag(i, theta, sig, r) * w[i + 1]
  {
  }

  // ---------------------------------------------------------------------
  // The projected Gauss-Seidel sweep
  // ---------------------------------------------------------------------

  /**
   * Row i of the system solved for its own unknown, the neighbours taken
   * from `cur`: putting the result in place of node i satisfies row i.
   * Row 0 subtracts M1(0,1)*v(0) (v(0), not v(1)), as written, so row 0 is
   * satisfied with v(0) standing in for its right neighbour; the operator
   * has M1(0,1) = 0 so this does not matter there.
   */
  function GaussSeidelTarget(m: seq<seq<real>>, d: seq<real>, cur: seq<real>, i: int, N: int): (t: real)
    requires 1 <= N && MatrixShape(m, N) && DiagonalNonZero(m, N) && N < |d| && N < |cur| && 0 <= i <= N
    ensures i == 0 ==> m[0][0] * t + m[0][1] * cur[0] == d[0]
    ensures 0 < i < N ==> m[i][i - 1] * cur[i - 1] + m[i][i] * t + m[i][i + 1] * cur[i + 1] == d[i]
    ensures i == N ==> m[N][N - 1] * cur[N - 1] + m[N][N] * t == d[N]
  {
    var rest := if i == 0 then d[0] - m[0][1] * cur[0]
                else if i == N then d[N] - m[N][N - 1] * cur[N - 1]
                else d[i] - m[i][i - 1] * cur[i - 1] - m[i][i + 1] * cur[i + 1];
    DivCancel(rest, m[i][i]);
    rest / m[i][i]
  }

  /**
   * The new value of node i: relaxed toward the Gauss-Seidel target, then
   * projected onto the early-exercise constraint (not floored at zero).
   */
  function NodeUpdate(m: seq<seq<real>>, d: seq<real>, grid: seq<real>, cur: seq<real>, i: int, N: int,
                      weight: real, K: real, isCall: bool): (y: real)
    requires SystemShape(m, d, grid, N) && N < |cur| && 0 <= i <= N
    ensures y >= Intrinsic(grid[i], K, isCall)
    ensures y >= cur[i] + weight * (GaussSeidelTarget(m, d, cur, i, N) - cur[i])
    ensures y == Intrinsic(grid[i], K, isCall)
         || y == cur[i] + weight * (GaussSeidelTarget(m, d, cur, i, N) - cur[i])
  {
    Max(cur[i] + weight * (GaussSeidelTarget(m, d, cur, i, N) - cur[i]), Intrinsic(grid[i], K, isCall))
  }

  /** The layer after a (partial) sweep, and the sum of squared changes so far. */
  datatype Sweep = Sweep(values: seq<real>, error: real)

  /**
   * The first k node updates of one sweep, in ascending order, each done in
   * place so that node i sees the already-updated node i-1.
   */
  function SweepUpTo(v: seq<real>, k: int, m: seq<seq<real>>, d: seq<real>, grid: seq<real>, N: int,
                     weight: real, K: real, isCall: bool): (s: Sweep)
    requires SystemShape(m, d, grid, N) && N < |v| && 0 <= k <= N + 1
    ensures |s.values| == |v|
    decreases k
  {
    if k == 0 then Sweep(v, 0.0)
    else
      var p := SweepUpTo(v, k - 1, m, d, grid, N, weight, K, isCall);
      var y := NodeUpdate(m, d, grid, p.values, k - 1, N, weight, K, isCall);
      Sweep(p.values[k - 1 := y], p.error + Sq(y - p.values[k - 1]))
  }

  /**
   * After k updates: the error is a sum of squares, nodes k and above still
   * hold their old values, and nodes below k satisfy the early-exercise
   * constraint.
   */
  lemma {:induction false} SweepFacts(v: seq<real>, k: int, m: seq<seq<real>>, d: seq<real>, grid: seq<real>,
                                      N: int, weight: real, K: real, isCall: bool)
    requires SystemShape(m, d, grid, N) && N < |v| && 0 <= k <= N + 1
    ensures var s := SweepUpTo(v, k, m, d, grid, N, weight, K, isCall);
      s.error >= 0.0
      && (forall i :: k <= i < |v| ==> s.values[i] == v[i])
      && (forall i :: 0 <= i < k ==> s.values[i] >= Intrinsic(grid[i], K, isCall))
    decreases k
  {
    if k > 0 {
      SweepFacts(v, k - 1, m, d, grid, N, weight, K, isCall);
    }
  }

  /** Once node i is updated it keeps its value for the rest of the sweep. */
  lemma {:induction false} SweepKeepsPrefix(v: seq<real>, i: int, k: int, m: seq<seq<real>>, d: seq<real>,
                                            grid: seq<real>, N: int, weight: real, K: real, isCall: bool, j: int)
    requires SystemShape(m, d, grid, N) && N < |v| && 0 <= j < i <= k <= N + 1
    ensures SweepUpTo(v, k, m, d, grid, N, weight, K, isCall).values[j]
         == SweepUpTo(v, i, m, d, grid, N, weight, K, isCall).values[j]
    decreases k
  {
    if k > i {
      SweepKeepsPrefix(v, i, k - 1, m, d, grid, N, weight, K, isCall, j);
    }
  }

  /**
   * Gauss-Seidel order: the final value of node i is the update of node i
   * computed from the final values of nodes 0..i-1 and the old values of
   * nodes i..N.
   */
  lemma SweepIsGaussSeidel(v: seq<real>, m: seq<seq<real>>, d: seq<real>, grid: seq<real>, N: int,
                           weight: real, K: real, isCall: bool, i: int)
    requires SystemShape(m, d, grid, N) && |v| == N + 1 && 0 <= i <= N
    ensures var final := SweepUpTo(v, N + 1, m, d, grid, N, weight, K, isCall).values;
      final[i] == NodeUpdate(m, d, grid, final[..i] + v[i..], i, N, weight, K, isCall)
  {
    var final := SweepUpTo(v, N + 1, m, d, grid, N, weight, K, isCall).values;
    var before := SweepUpTo(v, i, m, d, grid, N, weight, K, isCall).values;
    SweepFacts(v, i, m, d, grid, N, weight, K, isCall);
    forall j | 0 <= j < |v|
      ensures before[j] == (final[..i] + v[i..])[j]
    {
      if j < i {
        SweepKeepsPrefix(v, i, N + 1, m, d, grid, N, weight, K, isCall, j);
      }
    }
    assert before == final[..i] + v[i..];
    SweepKeepsPrefix(v, i + 1, N + 1, m, d, grid, N, weight, K, isCall, i);
  }

  /** Outcome of `computeSOR`: the layer, the sweeps performed, and the last sweep's error. */
  datatype SorRun = SorRun(values: seq<real>, sweeps: nat, lastError: real)

  /**
   * `computeSOR` from counter value `cnt`: sweep while `cnt < maxIter`,
   * leaving as soon as a sweep's error is below `err`.
   */
  function Sor(v: seq<real>, cnt: int, maxIter: int, m: seq<seq<real>>, d: seq<real>, grid: seq<real>,
               N: int, weight: real, K: real, err: real, isCall: bool): (run: SorRun)
    requires SystemShape(m, d, grid, N) && N < |v|
    ensures |run.values| == |v|
    decreases maxIter - cnt
  {
    if maxIter <= cnt then SorRun(v, 0, 0.0)
    else
      var s := SweepUpTo(v, N + 1, m, d, grid, N, weight, K, isCall);
      if s.error < err || maxIter <= cnt + 1 then SorRun(s.values, 1, s.error)
      else
        var rest := Sor(s.values, cnt + 1, maxIter, m, d, grid, N, weight, K, err, isCall);
        SorRun(rest.values, rest.sweeps + 1, rest.lastError)
  }

  /**
   * `computeSOR` sweeps exactly when the counter is below the cap, never
   * more than the cap allows, and stops before the cap only on a sweep
   * whose error is below `err`. Any sweep leaves every node at or above its
   * exercise value; with no sweep, the layer is left as it was.
   */
  lemma {:induction false} SorFacts(v: seq<real>, cnt: int, maxIter: int, m: seq<seq<real>>, d: seq<real>,
                                    grid: seq<real>, N: int, weight: real, K: real, err: real, isCall: bool)
    requires SystemShape(m, d, grid, N) && N < |v|
    ensures var run := Sor(v, cnt, maxIter, m, d, grid, N, weight, K, err, isCall);
      (run.sweeps == 0 <==> maxIter <= cnt)
      && (cnt < maxIter ==> run.sweeps <= maxIter - cnt)
      && (run.sweeps == 0 ==> run.values == v)
      && (run.sweeps > 0 ==> Projected(run.values, grid, K, isCall, N) && run.lastError >= 0.0)
      && (0 < run.sweeps < maxIter - cnt ==> run.lastError < err)
    decreases maxIter - cnt
  {
    if cnt < maxIter {
      var s := SweepUpTo(v, N + 1, m, d, grid, N, weight, K, isCall);
      SweepFacts(v, N + 1, m, d, grid, N, weight, K, isCall);
      if !(s.error < err || maxIter <= cnt + 1) {
        SorFacts(s.values, cnt + 1, maxIter, m, d, grid, N, weight, K, err, isCall);
      }
    }
  }

  /** One more node of the sweep: node k is updated from the layer as it stands. */
  lemma SweepStep(v: seq<real>, k: int, m: seq<seq<real>>, d: seq<real>, grid: seq<real>, N: int,
                  weight: real, K: real, isCall: bool)
    requires SystemShape(m, d, grid, N) && N < |v| && 0 <= k <= N
    ensures var p := SweepUpTo(v, k, m, d, grid, N, weight, K, isCall);
      var y := NodeUpdate(m, d, grid, p.values, k, N, weight, K, isCall);
      SweepUpTo(v, k + 1, m, d, grid, N, weight, K, isCall) == Sweep(p.values[k := y], p.error + Sq(y - p.values[k]))
  {
  }

  /** One sweep of `computeSOR`, then either stop or go on from the next counter value. */
  lemma SorStep(v: seq<real>, cnt: int, maxIter: int, m: seq<seq<real>>, d: seq<real>, grid: seq<real>,
                N: int, weight: real, K: real, err: real, isCall: bool)
    requires SystemShape(m, d, grid, N) && N < |v| && cnt < maxIter
    ensures var s := SweepUpTo(v, N + 1, m, d, grid, N, weight, K, isCall);
      Sor(v, cnt, maxIter, m, d, grid, N, weight, K, err, isCall).values
      == if s.error < err then s.values
         else Sor(s.values, cnt + 1, maxIter, m, d, grid, N, weight, K, err, isCall).values
  {
  }

  /**
   * `computeSOR`: at most `maxIter` in-place projected sweeps over v(0..N),
   * stopping early once a sweep changes the layer by less than `err`.
   */
  method ComputeSor(v: array<real>, M1: seq<seq<real>>, d: seq<real>, S_i: seq<real>, maxIter: int, N: int,
                    weight: real, K: real, err: real, isCall: bool)
    requires SystemShape(M1, d, S_i, N) && N < v.Length
    modifies v
    ensures v[..] == Sor(old(v[..]), 0, maxIter, M1, d, S_i, N, weight, K, err, isCall).values
  {
    var cnt := 0;
    while cnt < maxIter
      invariant Sor(v[..], cnt, maxIter, M1, d, S_i, N, weight, K, err, isCall).values
             == Sor(old(v[..]), 0, maxIter, M1, d, S_i, N, weight, K, err, isCall).values
      decreases maxIter - cnt
    {
      ghost var start := v[..];
      var error := 0.0;
      var i := 0;
      while i <= N
        invariant 0 <= i <= N + 1
        invariant Sweep(v[..], error) == SweepUpTo(start, i, M1, d, S_i, N, weight, K, isCall)
      {
        ghost var cur := v[..];
        var y := NodeUpdate(M1, d, S_i, v[..], i, N, weight, K, isCall);
        SweepStep(start, i, M1, d, S_i, N, weight, K, isCall);
        error := error + Sq(y - v[i]);
        v[i] := y;
        assert v[..] == cur[i := y];
        i := i + 1;
      }
      SorStep(start, cnt, maxIter, M1, d, S_i, N, weight, K, err, isCall);
      if error < err {
        break;
      }
      cnt := cnt + 1;
    }
  }

  /**
   * With an identity top row, a zero right-hand side there and weight 1,
   * each sweep leaves the top node at max(0, exercise value): K for a call
   * on the grid 0..2K, 0 for a put.
   */
  lemma {:induction false} SorTopNode(v: seq<real>, cnt: int, maxIter: int, m: seq<seq<real>>, d: seq<real>,
                                      grid: seq<real>, N: int, K: real, err: real, isCall: bool)
    requires SystemShape(m, d, grid, N) && |v| == N + 1 && cnt < maxIter
    requires m[N][N - 1] == 0.0 && m[N][N] == 1.0 && d[N] == 0.0
    ensures Sor(v, cnt, maxIter, m, d, grid, N, 1.0, K, err, isCall).values[N]
         == Max(0.0, Intrinsic(grid[N], K, isCall))
    decreases maxIter - cnt
  {
    var s := SweepUpTo(v, N + 1, m, d, grid, N, 1.0, K, isCall);
    var p := SweepUpTo(v, N, m, d, grid, N, 1.0, K, isCall);
    SweepStep(v, N, m, d, grid, N, 1.0, K, isCall);
    IdentityRow(m, d, p.values, N, N);
    PlainUpdate(m, d, grid, p.values, N, N, K, isCall);
    assert s.values[N] == Max(0.0, Intrinsic(grid[N], K, isCall));
    if !(s.error < err || maxIter <= cnt + 1) {
      SorTopNode(s.values, cnt + 1, maxIter, m, d, grid, N, K, err, isCall);
    }
  }

  /** A boundary row with unit diagonal and zero off-diagonal entry solves to its right-hand side. */
  lemma IdentityRow(m: seq<seq<real>>, d: seq<real>, cur: seq<real>, i: int, N: int)
    requires 1 <= N && MatrixShape(m, N) && DiagonalNonZero(m, N) && N < |d| && N < |cur|
    requires i == 0 || i == N
    requires m[i][i] == 1.0 && (if i == 0 then m[0][1] else m[N][N - 1]) == 0.0
    ensures GaussSeidelTarget(m, d, cur, i, N) == d[i]
  {
    var off := if i == 0 then m[0][1] else m[N][N - 1];
    var x := if i == 0 then cur[0] else cur[N - 1];
    assert GaussSeidelTarget(m, d, cur, i, N) == (d[i] - off * x) / m[i][i];
    assert off * x == 0.0;
  }

  /** With weight 1 the update is the Gauss-Seidel target raised to the exercise value. */
  lemma PlainUpdate(m: seq<seq<real>>, d: seq<real>, grid: seq<real>, cur: seq<real>, i: int, N: int,
                    K: real, isCall: bool)
    requires SystemShape(m, d, grid, N) && N < |cur| && 0 <= i <= N
    ensures NodeUpdate(m, d, grid, cur, i, N, 1.0, K, isCall)
         == Max(GaussSeidelTarget(m, d, cur, i, N), Intrinsic(grid[i], K, isCall))
  {
    var t := GaussSeidelTarget(m, d, cur, i, N);
    assert cur[i] + 1.0 * (t - cur[i]) == t;
  }

  /** The first update of a sweep is node 0, computed from the layer as it was. */
  lemma FirstUpdate(v: seq<real>, m: seq<seq<real>>, d: seq<real>, grid: seq<real>, N: int,
                    weight: real, K: real, isCall: bool)
    requires SystemShape(m, d, grid, N) && |v| == N + 1
    ensures SweepUpTo(v, 1, m, d, grid, N, weight, K, isCall).values[0] == NodeUpdate(m, d, grid, v, 0, N, weight, K, isCall)
  {
    SweepStep(v, 0, m, d, grid, N, weight, K, isCall);
  }

  /**
   * With an identity bottom row and weight 1 the bottom node ends each sweep
   * at max(d(0), exercise value): the same discounted strike bounds calls
   * and puts from below.
   */
  lemma SweepBottomNode(v: seq<real>, m: seq<seq<real>>, d: seq<real>, grid: seq<real>, N: int,
                        K: real, isCall: bool)
    requires SystemShape(m, d, grid, N) && |v| == N + 1
    requires m[0][1] == 0.0 && m[0][0] == 1.0
    ensures SweepUpTo(v, N + 1, m, d, grid, N, 1.0, K, isCall).values[0] == Max(d[0], Intrinsic(grid[0], K, isCall))
  {
    SweepKeepsPrefix(v, 1, N + 1, m, d, grid, N, 1.0, K, isCall, 0);
    FirstUpdate(v, m, d, grid, N, 1.0, K, isCall);
    IdentityRow(m, d, v, 0, N);
    PlainUpdate(m, d, grid, v, 0, N, K, isCall);
  }


  // ---------------------------------------------------------------------
  // Interpolation
  // ---------------------------------------------------------------------

  /** The node index `int jStar = S / dS`, and the two nodes it reads, exist. */
  predicate Bracketed(v: seq<real>, grid: seq<real>, S: real, dS: real)
  {
    dS != 0.0 && 0 <= Trunc(S / dS) && Trunc(S / dS) + 1 < |v| && Trunc(S / dS) + 1 < |grid|
  }

  /**
   * `interpPrice`: linear interpolation of the layer between nodes jStar and
   * jStar+1. Where the two nodes are dS apart, the price is the combination
   * of the two node values weighted by the spot's position between them.
   */
  function InterpPrice(v: seq<real>, grid: seq<real>, S: real, dS: real): (p: real)
    requires Bracketed(v, grid, S, dS)
    ensures var j := Trunc(S / dS); var lam := (S - grid[j]) / dS;
      grid[j + 1] == grid[j] + dS ==> p == (1.0 - lam) * v[j] + lam * v[j + 1]
  {
    var jStar := Trunc(S / dS);
    OneMinusDiv(dS, S - grid[jStar]);
    0.0 + (S - grid[jStar]) / dS * v[jStar + 1] + (grid[jStar + 1] - S) / dS * v[jStar]
  }

  /** The spot grid S_i(i) = i*dS, i = 0..N: it starts at 0 and is evenly spaced by dS. */
  function Grid(dS: real, N: nat): (g: seq<real>)
    ensures |g| == N + 1 && g[0] == 0.0
    ensures forall i, k :: 0 <= i && k == i + 1 <= N ==> g[k] == g[i] + dS
  {
    seq(N + 1, i => i as real * dS)
  }

  /** Node i of the grid sits at i*dS. */
  lemma GridAt(dS: real, N: nat, i: int)
    requires 0 <= i <= N
    ensures Grid(dS, N)[i] == i as real * dS
  {
  }

  /** Interpolation at a grid node returns that node's value. */
  lemma InterpAtNode(v: seq<real>, dS: real, N: nat, j: int)
    requires dS != 0.0 && |v| == N + 1 && 0 <= j < N
    ensures Bracketed(v, Grid(dS, N), j as real * dS, dS)
    ensures InterpPrice(v, Grid(dS, N), j as real * dS, dS) == v[j]
  {
    var x := j as real;
    var S := x * dS;
    DivCancel(x, dS);
    assert Trunc(S / dS) == j;
    var g := Grid(dS, N);
    GridAt(dS, N, j);
    assert g[j + 1] - S == dS;
  }

  /**
   * Between nodes the price is a convex combination of the two bracketing
   * node values, with weight lam = S/dS - jStar on the upper node.
   */
  lemma InterpConvex(v: seq<real>, dS: real, N: nat, S: real)
    requires dS > 0.0 && 0.0 <= S && |v| == N + 1 && Bracketed(v, Grid(dS, N), S, dS)
    ensures var j := Trunc(S / dS); var lam := S / dS - j as real;
      0.0 <= lam < 1.0 && InterpPrice(v, Grid(dS, N), S, dS) == (1.0 - lam) * v[j] + lam * v[j + 1]
  {
    var g := Grid(dS, N);
    var j := Trunc(S / dS);
    var x := j as real;
    var lam := S / dS - x;
    DivCancel(S, dS);
    assert g[j] == x * dS;
    assert g[j + 1] == x * dS + dS by {
      assert g[j + 1] == (x + 1.0) * dS;
    }
    assert lam * dS == S - x * dS by {
      assert lam * dS == (S / dS) * dS - x * dS;
    }
    assert (S - g[j]) / dS == lam by {
      DivCancel(lam, dS);
    }
    assert (g[j + 1] - S) / dS == 1.0 - lam by {
      assert (1.0 - lam) * dS == dS - lam * dS;
      DivCancel(1.0 - lam, dS);
    }
  }

  /** A convex combination of values above a line lies above the line. */
  lemma ConvexAboveLine(lam: real, lo: real, hi: real, x: real, dS: real, K: real, isCall: bool)
    requires 0.0 <= lam <= 1.0 && lo >= Intrinsic(x, K, isCall) && hi >= Intrinsic(x + dS, K, isCall)
    ensures (1.0 - lam) * lo + lam * hi >= Intrinsic(x + lam * dS, K, isCall)
  {
    var a, b := Intrinsic(x, K, isCall), Intrinsic(x + dS, K, isCall);
    MulNonneg(1.0 - lam, lo - a);
    MulNonneg(lam, hi - b);
    assert (1.0 - lam) * lo + lam * hi - ((1.0 - lam) * a + lam * b)
        == (1.0 - lam) * (lo - a) + lam * (hi - b);
    if isCall {
      assert (1.0 - lam) * a + lam * b == x + lam * dS - K;
    } else {
      assert (1.0 - lam) * a + lam * b == K - (x + lam * dS);
    }
  }

  /**
   * Node values at or above a line interpolate to a value at or above that
   * line: if both bracketing nodes are projected, so is the price.
   */
  lemma InterpAboveIntrinsic(v: seq<real>, dS: real, N: nat, S: real, K: real, isCall: bool)
    requires dS > 0.0 && 0.0 <= S && |v| == N + 1 && Bracketed(v, Grid(dS, N), S, dS)
    requires Projected(v, Grid(dS, N), K, isCall, N)
    ensures InterpPrice(v, Grid(dS, N), S, dS) >= Intrinsic(S, K, isCall)
  {
    var g := Grid(dS, N);
    var j := Trunc(S / dS);
    var lam := S / dS - j as real;
    InterpConvex(v, dS, N, S);
    var x := j as real * dS;
    assert g[j] == x && g[j + 1] == x + dS;
    ConvexAboveLine(lam, v[j], v[j + 1], x, dS, K, isCall);
    assert x + lam * dS == S by {
      DivCancel(S, dS);
      assert lam * dS == (S / dS) * dS - j as real * dS;
    }
  }

  // ---------------------------------------------------------------------
  // The pricer
  // ---------------------------------------------------------------------

  /** dS = S_max / N with S_max = 2K. */
  function GridStep(K: real): real
  {
    2.0 * K / GridNodes as real
  }

  /** The spot's bracketing index `int(S/dS)` lies in 0..N-1, so `interpPrice` stays inside v. */
  predicate OnGrid(S: real, K: real)
  {
    K != 0.0 && 0 <= Trunc(S / GridStep(K)) < GridNodes
  }

  /** dt = T/M. */
  function TimeStep(T: real): (dt: real)
    ensures dt != 0.0 <==> T != 0.0
    ensures T > 0.0 ==> dt > 0.0
  {
    T / TimeSteps as real
  }

  /** dt is nonzero and no interior diagonal entry of the operator vanishes. */
  predicate WellPosed(T: real, r: real)
  {
    T != 0.0 && forall row :: 1 <= row < GridNodes ==> MainDiag(row, OperatorVol, r, TimeStep(T)) != 0.0
  }

  /** The inputs on which every division and every index of `priceAmericanPSOR` is defined. */
  predicate Solvable(S: real, T: real, K: real, r: real)
  {
    OnGrid(S, K) && WellPosed(T, r)
  }

  /** For a positive strike and a non-negative spot, the spot is on the grid exactly when S < 2K. */
  lemma OnGridIff(S: real, K: real)
    requires K > 0.0 && S >= 0.0
    ensures OnGrid(S, K) <==> S < 2.0 * K
  {
    var dS := GridStep(K);
    assert dS > 0.0;
    DivMonotone(0.0, S, dS);
    DivMonotone(S, 2.0 * K, dS);
    assert (2.0 * K) / dS == GridNodes as real;
    assert S / dS >= 0.0;
  }

  /** A positive expiry and a non-negative rate make the system well posed. */
  lemma WellPosedForPositiveInputs(T: real, r: real)
    requires T > 0.0 && r >= 0.0
    ensures WellPosed(T, r)
  {
    assert TimeStep(T) > 0.0;
  }

  /**
   * The layer at maturity: the payoff at every node of the grid, so each
   * node is the larger of 0 and its exercise value.
   */
  function TerminalLayer(grid: seq<real>, K: real, isCall: bool): (w: seq<real>)
    ensures |w| == |grid|
    ensures forall i :: 0 <= i < |grid| ==> w[i] >= 0.0 && w[i] >= Intrinsic(grid[i], K, isCall)
    ensures forall i :: 0 <= i < |grid| ==> w[i] == 0.0 || w[i] == Intrinsic(grid[i], K, isCall)
  {
    seq(|grid|, i requires 0 <= i < |grid| => Payoff(grid[i], K, isCall))
  }

  /**
   * The layer after k steps of the backward time loop (t = M-1 down to
   * M-k). The right-hand side is built from `w` at every step: `w` keeps
   * the terminal payoff throughout.
   */
  function AfterSteps(w: seq<real>, v0: seq<real>, m: seq<seq<real>>, grid: seq<real>, N: int, M: int,
                      K: real, r: real, dt: real, maxIter: int, weight: real, err: real, isCall: bool,
                      exp: real -> real, k: nat): (v: seq<real>)
    requires 1 <= N && MatrixShape(m, N) && DiagonalNonZero(m, N) && dt != 0.0
    requires N < |w| && |v0| == N + 1 && N < |grid|
    ensures |v| == N + 1
  {
    if k == 0 then v0
    else
      var d := Rhs(w, m, K, N, M, M - k, dt, r, exp);
      Sor(AfterSteps(w, v0, m, grid, N, M, K, r, dt, maxIter, weight, err, isCall, exp, k - 1),
          0, maxIter, m, d, grid, N, weight, K, err, isCall).values
  }

  /** One more backward step: the sweeps of `computeSOR` against the right-hand side of that step. */
  lemma AfterStepsNext(w: seq<real>, v0: seq<real>, m: seq<seq<real>>, grid: seq<real>, N: int, M: int,
                       K: real, r: real, dt: real, maxIter: int, weight: real, err: real, isCall: bool,
                       exp: real -> real, k: nat)
    requires 1 <= N && MatrixShape(m, N) && DiagonalNonZero(m, N) && dt != 0.0
    requires N < |w| && |v0| == N + 1 && N < |grid|
    ensures AfterSteps(w, v0, m, grid, N, M, K, r, dt, maxIter, weight, err, isCall, exp, k + 1)
         == Sor(AfterSteps(w, v0, m, grid, N, M, K, r, dt, maxIter, weight, err, isCall, exp, k),
                0, maxIter, m, Rhs(w, m, K, N, M, M - 1 - k, dt, r, exp), grid, N, weight, K, err, isCall).values
  {
  }

  /**
   * Every time step ends with a projected layer, so after at least one step
   * (or from a projected start) every node is at or above its exercise value.
   */
  lemma AfterStepsProjected(w: seq<real>, v0: seq<real>, m: seq<seq<real>>, grid: seq<real>, N: int, M: int,
                            K: real, r: real, dt: real, maxIter: int, weight: real, err: real, isCall: bool,
                            exp: real -> real, k: nat)
    requires 1 <= N && MatrixShape(m, N) && DiagonalNonZero(m, N) && dt != 0.0
    requires N < |w| && |v0| == N + 1 && N < |grid| && 0 < maxIter
    requires k > 0 || Projected(v0, grid, K, isCall, N)
    ensures Projected(AfterSteps(w, v0, m, grid, N, M, K, r, dt, maxIter, weight, err, isCall, exp, k),
                      grid, K, isCall, N)
  {
    if k > 0 {
      SorFacts(AfterSteps(w, v0, m, grid, N, M, K, r, dt, maxIter, weight, err, isCall, exp, k - 1),
               0, maxIter, m, Rhs(w, m, K, N, M, M - k, dt, r, exp), grid, N, weight, K, err, isCall);
    }
  }

  /** The operator `priceAmericanPSOR` builds: N = 100, theta = 0.5, volatility 0.2. */
  function PricingOperator(T: real, r: real): (m: seq<seq<real>>)
    requires WellPosed(T, r)
    ensures MatrixShape(m, GridNodes) && DiagonalNonZero(m, GridNodes) && |m| == GridNodes + 1
  {
    Operator(GridNodes, Theta, OperatorVol, r, TimeStep(T))
  }

  /** The fully solved layer at t = 0. It does not depend on the requested volatility. */
  function SolvedLayer(T: real, K: real, r: real, isCall: bool, exp: real -> real): (v: seq<real>)
    requires WellPosed(T, r)
    ensures |v| == GridNodes + 1
  {
    var dS := GridStep(K);
    var w := TerminalLayer(Grid(dS, GridNodes), K, isCall);
    AfterSteps(w, w, PricingOperator(T, r), Grid(dS, GridNodes), GridNodes, TimeSteps, K, r, TimeStep(T),
               MaxIter, Weight, Tolerance, isCall, exp, TimeSteps)
  }

  /** The solved layer is the terminal payoff taken back through all M steps of the pricing scheme. */
  lemma SolvedLayerIs(T: real, K: real, r: real, isCall: bool, exp: real -> real, dS: real, dt: real,
                      grid: seq<real>, w: seq<real>, m: seq<seq<real>>)
    requires WellPosed(T, r) && dS == GridStep(K) && dt == TimeStep(T) && m == PricingOperator(T, r)
    requires grid == Grid(dS, GridNodes) && w == TerminalLayer(grid, K, isCall)
    ensures SolvedLayer(T, K, r, isCall, exp)
         == AfterSteps(w, w, m, grid, GridNodes, TimeSteps, K, r, dt, MaxIter, Weight, Tolerance, isCall, exp,
                       TimeSteps)
  {
  }

  /** The solved layer satisfies the early-exercise constraint at every node. */
  lemma SolvedLayerProjected(T: real, K: real, r: real, isCall: bool, exp: real -> real)
    requires WellPosed(T, r)
    ensures Projected(SolvedLayer(T, K, r, isCall, exp), Grid(GridStep(K), GridNodes), K, isCall, GridNodes)
  {
    var dS := GridStep(K);
    var w := TerminalLayer(Grid(dS, GridNodes), K, isCall);
    AfterStepsProjected(w, w, PricingOperator(T, r), Grid(dS, GridNodes), GridNodes, TimeSteps, K, r, TimeStep(T),
                        MaxIter, Weight, Tolerance, isCall, exp, TimeSteps);
  }

  /**
   * The price `priceAmericanPSOR` returns. It takes no volatility argument,
   * and it respects the American lower bound: at least S-K (call) or K-S
   * (put) for a positive strike and a spot in [0, 2K).
   */
  function PriceSpec(S: real, T: real, K: real, r: real, isCall: bool, exp: real -> real): (p: real)
    requires Solvable(S, T, K, r)
    ensures K > 0.0 && S >= 0.0 ==> p >= Intrinsic(S, K, isCall)
  {
    PriceAboveIntrinsic(S, T, K, r, isCall, exp);
    InterpPrice(SolvedLayer(T, K, r, isCall, exp), Grid(GridStep(K), GridNodes), S, GridStep(K))
  }

  /** The price is read off the solved layer at S, and both nodes it reads exist. */
  lemma PriceSpecIs(S: real, T: real, K: real, r: real, isCall: bool, exp: real -> real,
                    layer: seq<real>, grid: seq<real>, dS: real)
    requires Solvable(S, T, K, r) && layer == SolvedLayer(T, K, r, isCall, exp)
    requires dS == GridStep(K) && grid == Grid(dS, GridNodes)
    ensures Bracketed(layer, grid, S, dS) && PriceSpec(S, T, K, r, isCall, exp) == InterpPrice(layer, grid, S, dS)
  {
  }

  /**
   * American lower bound: for a positive strike and a spot in [0, 2K) the
   * solved layer interpolates to at least S-K (call) or K-S (put).
   */
  lemma PriceAboveIntrinsic(S: real, T: real, K: real, r: real, isCall: bool, exp: real -> real)
    requires Solvable(S, T, K, r)
    ensures K > 0.0 && S >= 0.0 ==>
      InterpPrice(SolvedLayer(T, K, r, isCall, exp), Grid(GridStep(K), GridNodes), S, GridStep(K))
      >= Intrinsic(S, K, isCall)
  {
    if K > 0.0 && S >= 0.0 {
      SolvedLayerProjected(T, K, r, isCall, exp);
      InterpAboveIntrinsic(SolvedLayer(T, K, r, isCall, exp), GridStep(K), GridNodes, S, K, isCall);
    }
  }

  /** For a call with a positive strike the solved top node is exactly K; for a put it is 0. */
  lemma SolvedTopNode(T: real, K: real, r: real, isCall: bool, exp: real -> real)
    requires WellPosed(T, r) && K > 0.0
    ensures SolvedLayer(T, K, r, isCall, exp)[GridNodes] == if isCall then K else 0.0
  {
    var dS := GridStep(K);
    var w := TerminalLayer(Grid(dS, GridNodes), K, isCall);
    var dt := TimeStep(T);
    var m := PricingOperator(T, r);
    var g := Grid(dS, GridNodes);
    var prev := AfterSteps(w, w, m, g, GridNodes, TimeSteps, K, r, dt, MaxIter, Weight, Tolerance, isCall, exp,
                           TimeSteps - 1);
    var d := Rhs(w, m, K, GridNodes, TimeSteps, 0, dt, r, exp);
    SorTopNode(prev, 0, MaxIter, m, d, g, GridNodes, K, Tolerance, isCall);
    assert g[GridNodes] == 2.0 * K;
  }

  /**
   * `MatrixXd M1 = MatrixXd::Zero(N+1, N+1)` followed by `initMatrix`, and
   * the by-value copy of M1 that every later call receives.
   */
  method BuildOperator(N: nat, theta: real, sig: real, r: real, dt: real) returns (m1: seq<seq<real>>)
    requires dt != 0.0
    ensures m1 == Operator(N, theta, sig, r, dt)
  {
    var M1 := new real[N + 1, N + 1]((i, j) => 0.0);
    InitMatrix(M1, N, theta, sig, r, dt);
    m1 := Rows(M1);
    var op := Operator(N, theta, sig, r, dt);
    forall i | 0 <= i <= N
      ensures m1[i] == op[i]
    {
      assert forall j :: 0 <= j <= N ==> m1[i][j] == op[i][j];
    }
  }

  /**
   * The set-up loop of `priceAmericanPSOR`: node spots S_i(i) = i*dS, and the
   * terminal payoff in both `w` and `v`.
   */
  method InitLayers(S_i: array<real>, w: array<real>, v: array<real>, dS: real, K: real, isCall: bool)
    requires 0 < S_i.Length == w.Length == v.Length && S_i != w && S_i != v && w != v
    modifies S_i, w, v
    ensures S_i[..] == Grid(dS, S_i.Length - 1)
    ensures w[..] == TerminalLayer(S_i[..], K, isCall) && v[..] == w[..]
  {
    ghost var grid := Grid(dS, S_i.Length - 1);
    for i := 0 to S_i.Length
      invariant forall k :: 0 <= k < i ==> S_i[k] == grid[k]
      invariant forall k :: 0 <= k < i ==> w[k] == Payoff(grid[k], K, isCall) && v[k] == w[k]
    {
      S_i[i] := i as real * dS;
      assert S_i[i] == grid[i];
      w[i] := Payoff(S_i[i], K, isCall);
      v[i] := Payoff(S_i[i], K, isCall);
    }
  }


  /**
   * The time loop of `priceAmericanPSOR`: for t = M-1 down to 0, the
   * right-hand side of step t from `w`, then `computeSOR` on v in place.
   */
  method BackwardSteps(v: array<real>, w: array<real>, S_i: array<real>, m1: seq<seq<real>>, N: int, M: int,
                       K: real, r: real, dt: real, maxIter: int, weight: real, err: real, isCall: bool,
                       exp: real -> real)
    requires 1 <= N && MatrixShape(m1, N) && DiagonalNonZero(m1, N) && dt != 0.0 && 0 <= M
    requires v.Length == w.Length == S_i.Length == N + 1 && v != w && v != S_i
    modifies v
    ensures v[..] == AfterSteps(w[..], old(v[..]), m1, S_i[..], N, M, K, r, dt, maxIter, weight, err, isCall,
                                exp, M)
  {
    for t := M downto 0
      invariant v[..] == AfterSteps(w[..], old(v[..]), m1, S_i[..], N, M, K, r, dt, maxIter, weight, err,
                                    isCall, exp, M - t)
    {
      var d := new real[N + 1];
      InitPrev(d, w[..], m1, K, N, M, t, dt, r, exp);
      assert d[..] == d[..N + 1];
      ComputeSor(v, m1, d[..], S_i[..], maxIter, N, weight, K, err, isCall);
      AfterStepsNext(w[..], old(v[..]), m1, S_i[..], N, M, K, r, dt, maxIter, weight, err, isCall, exp, M - 1 - t);
    }
  }

  /**
   * `priceAmericanPSOR`: builds the grid and operator, runs the 100 backward
   * steps in place on v, and interpolates at S. `sig` is never read.
   */
  method PriceAmericanPSOR(S: real, T: real, sig: real, K: real, r: real, isCall: bool, exp: real -> real)
    returns (price: real)
    requires Solvable(S, T, K, r)
    ensures price == PriceSpec(S, T, K, r, isCall, exp)
  {
    var S_max := 2.0 * K;
    var M := TimeSteps;
    var N := GridNodes;
    var theta := Theta;
    var weight := Weight;
    var maxIter := MaxIter;
    var err := Tolerance;
    var dt := T / M as real;
    var dS := S_max / N as real;
    assert dt == TimeStep(T) && dS == GridStep(K);
    var m1 := BuildOperator(N, theta, OperatorVol, r, dt);
    assert m1 == PricingOperator(T, r);
    var S_i := new real[N + 1];
    var w := new real[N + 1];
    var v := new real[N + 1];
    InitLayers(S_i, w, v, dS, K, isCall);
    ghost var grid, terminal := S_i[..], w[..];
    assert grid == Grid(dS, N) && terminal == TerminalLayer(grid, K, isCall);
    BackwardSteps(v, w, S_i, m1, N, M, K, r, dt, maxIter, weight, err, isCall, exp);
    SolvedLayerIs(T, K, r, isCall, exp, dS, dt, grid, terminal, m1);
    ghost var layer := v[..];
    PriceSpecIs(S, T, K, r, isCall, exp, layer, grid, dS);
    price := InterpPrice(v[..], S_i[..], S, dS);
    assert price == InterpPrice(layer, grid, S, dS);
  }

  // ---------------------------------------------------------------------
  // Guarded entry point used by the option chain
  // ---------------------------------------------------------------------

  /** A price, or the reason the source's arithmetic leaves the model's domain. */
  datatype Quote = Priced(value: real) | OffGrid | Degenerate

  /** What the guarded pricer returns: a price exactly when the spot is on the grid and the system well posed. */
  function QuoteSpec(S: real, T: real, K: real, r: real, isCall: bool, exp: real -> real): (q: Quote)
    ensures q.Priced? <==> Solvable(S, T, K, r)
    ensures q == OffGrid <==> !OnGrid(S, K)
  {
    if !OnGrid(S, K) then OffGrid
    else if !WellPosed(T, r) then Degenerate
    else Priced(PriceSpec(S, T, K, r, isCall, exp))
  }

  /**
   * `priceAmericanPSOR` behind the guard its interpolation lacks: off-grid
   * spots (S >= 2K for a positive strike) are reported instead of read past
   * the end of v.
   */
  method GuardedPrice(S: real, T: real, sig: real, K: real, r: real, isCall: bool, exp: real -> real)
    returns (q: Quote)
    ensures q == QuoteSpec(S, T, K, r, isCall, exp)
  {
    if !OnGrid(S, K) {
      q := OffGrid;
    } else if !WellPosed(T, r) {
      q := Degenerate;
    } else {
      var p := PriceAmericanPSOR(S, T, sig, K, r, isCall, exp);
      q := Priced(p);
    }
  }

  /** Every price the guarded pricer returns respects the American lower bound. */
  lemma QuoteAboveIntrinsic(S: real, T: real, K: real, r: real, isCall: bool, exp: real -> real)
    requires K > 0.0 && S >= 0.0
    ensures QuoteSpec(S, T, K, r, isCall, exp).Priced? ==>
      QuoteSpec(S, T, K, r, isCall, exp).value >= Intrinsic(S, K, isCall)
  {
  }

  /** For positive strike and expiry, a non-negative rate and spot, the quote is a price exactly when S < 2K. */
  lemma QuotePricedIff(S: real, T: real, K: real, r: real, isCall: bool, exp: real -> real)
    requires K > 0.0 && S >= 0.0 && T > 0.0 && r >= 0.0
    ensures QuoteSpec(S, T, K, r, isCall, exp).Priced? <==> S < 2.0 * K
  {
    OnGridIff(S, K);
    WellPosedForPositiveInputs(T, r);
  }
}
