/** One turbine slot of the sequential per-case turbine chain. Stage `number`
    evaluates the curve for slot `number - 1` on that slot's inflow speed,
    copies the results of all more-upwind slots from the previous stage and
    pads every per-case row with zeros to a fixed width. */
module Stage {
  import opened Curve

  /** Process-wide configuration read once at start-up. */
  datatype Config = Config(maxTurbines: nat, ratedPower: real)

  /** Construction parameters of one stage component. */
  datatype Turbine = Turbine(number: nat, nCases: nat)

  /** The inputs of one evaluation. `speeds[n][c]` is the inflow speed of
      upstream slot `n` in case `c` (one series per slot below `number`);
      `prevCt[c]` / `prevPower[c]` is the previous stage's row for case `c`. */
  datatype Inputs = Inputs(
    nTurbines: int,
    speeds: seq<seq<real>>,
    prevCt: seq<seq<real>>,
    prevPower: seq<seq<real>>)

  /** The outputs: one row per case, each `maxTurbines - 1` wide. */
  datatype Outputs = Outputs(ct: seq<seq<real>>, power: seq<seq<real>>)

  const Zero: Sample := Sample(0.0, 0.0)

  function Width(cfg: Config): int
  {
    cfg.maxTurbines - 1
  }

  predicate Grid(m: seq<seq<real>>, rows: nat, cols: int)
  {
    |m| == rows && forall r | 0 <= r < |m| :: |m[r]| == cols
  }

  /** The port shapes the component declares: one speed series per slot
      below `number`, previous rows of the padded width, and a slot number
      that leaves room for padding. */
  predicate WellShaped(cfg: Config, t: Turbine, inp: Inputs)
  {
    && t.number < cfg.maxTurbines
    && |inp.speeds| == t.number
    && (forall n | 0 <= n < |inp.speeds| :: |inp.speeds[n]| == t.nCases)
    && Grid(inp.prevCt, t.nCases, Width(cfg))
    && Grid(inp.prevPower, t.nCases, Width(cfg))
  }

  /** A stage contributes anything only when its slot number is below the
      active turbine count. */
  predicate Active(number: nat, nTurbines: int)
  {
    number < nTurbines
  }

  function Zeros(k: nat): (z: seq<real>)
    ensures |z| == k && forall i | 0 <= i < k :: z[i] == 0.0
  {
    seq(k, i => 0.0)
  }

  function CtsOf(row: seq<Sample>): seq<real>
  {
    seq(|row|, i requires 0 <= i < |row| => row[i].ct)
  }

  function PowersOf(row: seq<Sample>): seq<real>
  {
    seq(|row|, i requires 0 <= i < |row| => row[i].power)
  }

  /** The speeds all upstream slots see in case `c`. */
  function CaseSpeeds(inp: Inputs, c: nat): (u: seq<real>)
    requires forall n | 0 <= n < |inp.speeds| :: c < |inp.speeds[n]|
    ensures |u| == |inp.speeds|
  {
    seq(|inp.speeds|, n requires 0 <= n < |inp.speeds| => inp.speeds[n][c])
  }

  /** Reference definition of one case's row, built from that case's data
      only: the active prefix (copied slots, then the freshly evaluated slot
      `number - 1`) followed by zero padding. */
  function CaseRow(cfg: Config, number: nat, nTurbines: int,
                   u: seq<real>, prevCt: seq<real>, prevPower: seq<real>): (row: seq<Sample>)
    requires number < cfg.maxTurbines && |u| == number
    requires |prevCt| == Width(cfg) && |prevPower| == Width(cfg)
    ensures |row| == Width(cfg)
  {
    var prefix :=
      if Active(number, nTurbines) then
        seq(number, n requires 0 <= n < number =>
          if n == number - 1 then TurbineModel(u[n], cfg.ratedPower)
          else Sample(prevCt[n], prevPower[n]))
      else [];
    prefix + seq(Width(cfg) - |prefix|, _ => Zero)
  }

  /** Slot by slot, a case row is zero when the stage is inactive or at
      slot 0; otherwise the curve value at slot `number - 1`, the previous
      stage's value below it, and zero from `number` on. */
  lemma CaseRowSlots(cfg: Config, number: nat, nTurbines: int,
                     u: seq<real>, prevCt: seq<real>, prevPower: seq<real>)
    requires number < cfg.maxTurbines && |u| == number
    requires |prevCt| == Width(cfg) && |prevPower| == Width(cfg)
    ensures var row := CaseRow(cfg, number, nTurbines, u, prevCt, prevPower);
      && (!Active(number, nTurbines) || number == 0 ==>
            forall n | 0 <= n < Width(cfg) :: row[n] == Zero)
      && (Active(number, nTurbines) && 0 < number ==>
            row[number - 1] == TurbineModel(u[number - 1], cfg.ratedPower))
      && (Active(number, nTurbines) ==>
            forall n | 0 <= n < number - 1 :: row[n] == Sample(prevCt[n], prevPower[n]))
      && (forall n | number <= n < Width(cfg) :: row[n] == Zero)
  {
  }

  /** Reference definition of the whole stage: one independent row per case. */
  function StageRows(cfg: Config, t: Turbine, inp: Inputs): (rows: seq<seq<Sample>>)
    requires WellShaped(cfg, t, inp)
    ensures |rows| == t.nCases
  {
    seq(t.nCases, c requires 0 <= c < t.nCases =>
      CaseRow(cfg, t.number, inp.nTurbines, CaseSpeeds(inp, c), inp.prevCt[c], inp.prevPower[c]))
  }

  /** One case of the compute step: the row of case `c`. */
  method ComputeCase(cfg: Config, t: Turbine, inp: Inputs, c: nat) returns (ct: seq<real>, power: seq<real>)
    requires WellShaped(cfg, t, inp) && c < t.nCases
    ensures ct == CtsOf(StageRows(cfg, t, inp)[c]) && power == PowersOf(StageRows(cfg, t, inp)[c])
  {
    ghost var row := StageRows(cfg, t, inp)[c];
    ct, power := [], [];
    var n := 0;
    while n < inp.nTurbines
      invariant 0 <= n && (n <= inp.nTurbines || n == 0)
      invariant |ct| == |power|
      invariant |ct| == if Active(t.number, inp.nTurbines) then Min(n, t.number) else 0
      invariant forall k | 0 <= k < |ct| :: ct[k] == row[k].ct && power[k] == row[k].power
    {
      if n < t.number < inp.nTurbines {
        var s: Sample;
        if n == t.number - 1 {
          s := TurbineModel(inp.speeds[n][c], cfg.ratedPower);
        } else {
          s := Sample(inp.prevCt[c][n], inp.prevPower[c][n]);
        }
        ct := ct + [s.ct];
        power := power + [s.power];
      }
      n := n + 1;
    }
    var lendif := Width(cfg) - |ct|;
    ct := ct + Zeros(lendif);
    power := power + Zeros(lendif);
    assert ct == CtsOf(row);
    assert power == PowersOf(row);
  }

  /** The component's compute step: for every case, walk the active turbine
      indices, take the curve value for slot `number - 1` and the previous
      stage's value for every slot before it, then pad with zeros. */
  method Compute(cfg: Config, t: Turbine, inp: Inputs) returns (out: Outputs)
    requires WellShaped(cfg, t, inp)
    ensures Grid(out.ct, t.nCases, Width(cfg)) && Grid(out.power, t.nCases, Width(cfg))
    ensures !Active(t.number, inp.nTurbines) || t.number == 0 ==>
      forall c, n | 0 <= c < t.nCases && 0 <= n < Width(cfg) ::
        out.ct[c][n] == 0.0 && out.power[c][n] == 0.0
    ensures Active(t.number, inp.nTurbines) && 0 < t.number ==>
      forall c | 0 <= c < t.nCases ::
        var s := TurbineModel(inp.speeds[t.number - 1][c], cfg.ratedPower);
        out.ct[c][t.number - 1] == s.ct && out.power[c][t.number - 1] == s.power
    ensures Active(t.number, inp.nTurbines) ==>
      forall c, n | 0 <= c < t.nCases && 0 <= n < t.number - 1 ::
        out.ct[c][n] == inp.prevCt[c][n] && out.power[c][n] == inp.prevPower[c][n]
    ensures forall c, n | 0 <= c < t.nCases && t.number <= n < Width(cfg) ::
      out.ct[c][n] == 0.0 && out.power[c][n] == 0.0
    ensures forall c | 0 <= c < t.nCases ::
      out.ct[c] == CtsOf(StageRows(cfg, t, inp)[c]) && out.power[c] == PowersOf(StageRows(cfg, t, inp)[c])
  {
    var ctAns: seq<seq<real>> := [];
    var powerAns: seq<seq<real>> := [];
    var c := 0;
    while c < t.nCases
      invariant 0 <= c <= t.nCases
      invariant |ctAns| == c && |powerAns| == c
      invariant forall i | 0 <= i < c ::
        ctAns[i] == CtsOf(StageRows(cfg, t, inp)[i]) && powerAns[i] == PowersOf(StageRows(cfg, t, inp)[i])
    {
      var ct, power := ComputeCase(cfg, t, inp, c);
      ctAns := ctAns + [ct];
      powerAns := powerAns + [power];
      c := c + 1;
    }
    out := Outputs(ctAns, powerAns);
  }

  function Min(a: int, b: int): int
  {
    if a < b then a else b
  }

  /** The inputs of a batch whose case `i` is case `p[i]` of `inp`: the
      batch shuffled, duplicated or cut down. */
  function Reindex(inp: Inputs, p: seq<nat>): Inputs
    requires forall n, i | 0 <= n < |inp.speeds| && 0 <= i < |p| :: p[i] < |inp.speeds[n]|
    requires forall i | 0 <= i < |p| :: p[i] < |inp.prevCt| && p[i] < |inp.prevPower|
  {
    Inputs(
      inp.nTurbines,
      seq(|inp.speeds|, n requires 0 <= n < |inp.speeds| =>
        seq(|p|, i requires 0 <= i < |p| => inp.speeds[n][p[i]])),
      seq(|p|, i requires 0 <= i < |p| => inp.prevCt[p[i]]),
      seq(|p|, i requires 0 <= i < |p| => inp.prevPower[p[i]]))
  }

  /** The row of case `c` is a function of case `c`'s inputs and the active
      turbine count alone: two batches that agree there agree on row `c`.
      `Compute`'s last postcondition equates its output rows with these
      reference rows, so the same holds of the component's output. */
  lemma RowDependsOnlyOnItsCase(cfg: Config, t: Turbine, a: Inputs, b: Inputs, c: nat)
    requires WellShaped(cfg, t, a) && WellShaped(cfg, t, b) && c < t.nCases
    requires a.nTurbines == b.nTurbines
    requires a.prevCt[c] == b.prevCt[c] && a.prevPower[c] == b.prevPower[c]
    requires forall n | 0 <= n < t.number :: a.speeds[n][c] == b.speeds[n][c]
    ensures StageRows(cfg, t, a)[c] == StageRows(cfg, t, b)[c]
  {
    assert CaseSpeeds(a, c) == CaseSpeeds(b, c);
  }

  /** Re-ordering the cases of a batch re-orders the result rows the same
      way and changes none of them. `Compute`'s last postcondition equates
      its output rows with these reference rows, so the same holds of the
      component's output. */
  lemma ShuffleCases(cfg: Config, t: Turbine, inp: Inputs, p: seq<nat>)
    requires WellShaped(cfg, t, inp)
    requires forall i | 0 <= i < |p| :: p[i] < t.nCases
    ensures WellShaped(cfg, Turbine(t.number, |p|), Reindex(inp, p))
    ensures forall i | 0 <= i < |p| ::
      StageRows(cfg, Turbine(t.number, |p|), Reindex(inp, p))[i] == StageRows(cfg, t, inp)[p[i]]
  {
    var t' := Turbine(t.number, |p|);
    var inp' := Reindex(inp, p);
    forall i | 0 <= i < |p|
      ensures StageRows(cfg, t', inp')[i] == StageRows(cfg, t, inp)[p[i]]
    {
      assert CaseSpeeds(inp', i) == CaseSpeeds(inp, p[i]);
    }
  }

  /** One case's row after the stages 0, 1, ..., m have run in sequence,
      each stage reading the previous stage's row as its upstream state;
      stage 0 reads `prevCt0` / `prevPower0`. `u[n]` is slot `n`'s speed. */
  function Pipeline(cfg: Config, m: nat, nTurbines: int, u: seq<real>,
                    prevCt0: seq<real>, prevPower0: seq<real>): (row: seq<Sample>)
    requires m < cfg.maxTurbines && m <= |u|
    requires |prevCt0| == Width(cfg) && |prevPower0| == Width(cfg)
    ensures |row| == Width(cfg)
  {
    if m == 0 then CaseRow(cfg, 0, nTurbines, [], prevCt0, prevPower0)
    else
      var prev := Pipeline(cfg, m - 1, nTurbines, u, prevCt0, prevPower0);
      CaseRow(cfg, m, nTurbines, u[..m], CtsOf(prev), PowersOf(prev))
  }

  /** Chaining the stages never rewrites an upstream result: after stage `m`
      of an active chain, every slot below `m` holds the curve value of its
      own inflow speed, whatever the initial upstream state was, and every
      slot from `m` on is padding. */
  lemma {:induction false} ChainedStages(cfg: Config, m: nat, nTurbines: int, u: seq<real>,
                                         prevCt0: seq<real>, prevPower0: seq<real>)
    requires m < cfg.maxTurbines && m <= |u| && m < nTurbines
    requires |prevCt0| == Width(cfg) && |prevPower0| == Width(cfg)
    ensures forall n | 0 <= n < m ::
      Pipeline(cfg, m, nTurbines, u, prevCt0, prevPower0)[n] == TurbineModel(u[n], cfg.ratedPower)
    ensures forall n | m <= n < Width(cfg) :: Pipeline(cfg, m, nTurbines, u, prevCt0, prevPower0)[n] == Zero
  {
    if m > 0 {
      ChainedStages(cfg, m - 1, nTurbines, u, prevCt0, prevPower0);
    }
  }
}
