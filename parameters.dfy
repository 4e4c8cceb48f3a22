/** The parameters of an RBM with V visible and H hidden binary units, as a
    value: the energy of a joint state and the flat token layout in which the
    parameters are written out and read back. */
module Parameters {
  import opened Sums

  /** Visible biases (length V), hidden biases (length H) and the V×H weight
      matrix, where weights[i][j] couples visible unit i to hidden unit j. */
  datatype Params = Params(visibleBiases: seq<real>, hiddenBiases: seq<real>, weights: seq<seq<real>>)
  {
    /** The three containers have the dimensions V and H. */
    predicate HasShape(v: nat, h: nat)
    {
      |visibleBiases| == v && |hiddenBiases| == h && |weights| == v &&
      forall i :: 0 <= i < v ==> |weights[i]| == h
    }
  }

  /** Two parameter sets of one shape that agree on every bias and weight
      are equal. */
  lemma SameParams(p: Params, q: Params, v: nat, h: nat)
    requires p.HasShape(v, h) && q.HasShape(v, h)
    requires forall i :: 0 <= i < v ==> p.visibleBiases[i] == q.visibleBiases[i]
    requires forall j :: 0 <= j < h ==> p.hiddenBiases[j] == q.hiddenBiases[j]
    requires forall i, j :: 0 <= i < v && 0 <= j < h ==> p.weights[i][j] == q.weights[i][j]
    ensures p == q
  {
    assert p.visibleBiases == q.visibleBiases;
    assert p.hiddenBiases == q.hiddenBiases;
    forall i | 0 <= i < v
      ensures p.weights[i] == q.weights[i]
    {
    }
  }

  /** Default-initialised parameters: every bias and weight is zero. */
  function ZeroParams(v: nat, h: nat): (p: Params)
    ensures p.HasShape(v, h)
  {
    Params(seq(v, _ => 0.0), seq(h, _ => 0.0), seq(v, _ => seq(h, _ => 0.0)))
  }

  /** Every bias and weight negated. */
  function Negated(p: Params): (q: Params)
  {
    Params(Negate(p.visibleBiases), Negate(p.hiddenBiases),
           seq(|p.weights|, i requires 0 <= i < |p.weights| => Negate(p.weights[i])))
  }

  /** Two parameter sets of one shape added bias by bias and weight by weight. */
  function Sum(p: Params, q: Params, v: nat, h: nat): (r: Params)
    requires p.HasShape(v, h) && q.HasShape(v, h)
  {
    Params(Add(p.visibleBiases, q.visibleBiases), Add(p.hiddenBiases, q.hiddenBiases),
           seq(v, i requires 0 <= i < v => Add(p.weights[i], q.weights[i])))
  }

  /** Row i of the result is Σ_j hidden[j]·weights[i][j]. */
  function RowInputs(w: seq<seq<real>>, hidden: seq<bool>): (r: seq<real>)
    requires forall i :: 0 <= i < |w| ==> |w[i]| == |hidden|
    ensures |r| == |w|
  {
    seq(|w|, i requires 0 <= i < |w| => Dot(w[i], hidden))
  }

  /** E(v, h) = -Σ_i a_i v_i - Σ_j b_j h_j - Σ_i v_i Σ_j w_ij h_j. */
  function Energy(p: Params, visible: seq<bool>, hidden: seq<bool>): real
    requires p.HasShape(|visible|, |hidden|)
  {
    - Dot(p.visibleBiases, visible)
    - Dot(p.hiddenBiases, hidden)
    - Dot(RowInputs(p.weights, hidden), visible)
  }

  /** The joint state with no unit set has energy 0, whatever the parameters. */
  lemma EnergyOfClearState(p: Params, visible: seq<bool>, hidden: seq<bool>)
    requires p.HasShape(|visible|, |hidden|)
    requires forall i :: 0 <= i < |visible| ==> !visible[i]
    requires forall j :: 0 <= j < |hidden| ==> !hidden[j]
    ensures Energy(p, visible, hidden) == 0.0
  {
    DotOfClearState(p.visibleBiases, visible, |visible|);
    DotOfClearState(p.hiddenBiases, hidden, |hidden|);
    DotOfClearState(RowInputs(p.weights, hidden), visible, |visible|);
  }

  /** Default-initialised parameters give every joint state energy 0. */
  lemma EnergyOfZeroParams(visible: seq<bool>, hidden: seq<bool>)
    ensures Energy(ZeroParams(|visible|, |hidden|), visible, hidden) == 0.0
  {
    var p := ZeroParams(|visible|, |hidden|);
    DotOfZeroCoefficients(p.visibleBiases, visible, |visible|);
    DotOfZeroCoefficients(p.hiddenBiases, hidden, |hidden|);
    forall i | 0 <= i < |visible|
      ensures RowInputs(p.weights, hidden)[i] == 0.0
    {
      DotOfZeroCoefficients(p.weights[i], hidden, |hidden|);
    }
    DotOfZeroCoefficients(RowInputs(p.weights, hidden), visible, |visible|);
  }

  /** Negating every bias and weight negates the energy. */
  lemma EnergyOfNegated(p: Params, visible: seq<bool>, hidden: seq<bool>)
    requires p.HasShape(|visible|, |hidden|)
    ensures Negated(p).HasShape(|visible|, |hidden|)
    ensures Energy(Negated(p), visible, hidden) == -Energy(p, visible, hidden)
  {
    var q := Negated(p);
    DotOfNegated(p.visibleBiases, visible, |visible|);
    DotOfNegated(p.hiddenBiases, hidden, |hidden|);
    var rows := RowInputs(p.weights, hidden);
    forall i | 0 <= i < |visible|
      ensures RowInputs(q.weights, hidden)[i] == Negate(rows)[i]
    {
      DotOfNegated(p.weights[i], hidden, |hidden|);
    }
    assert RowInputs(q.weights, hidden) == Negate(rows);
    DotOfNegated(rows, visible, |visible|);
  }

  /** The energy is additive in the parameters. */
  lemma EnergyOfSum(p: Params, q: Params, visible: seq<bool>, hidden: seq<bool>)
    requires p.HasShape(|visible|, |hidden|) && q.HasShape(|visible|, |hidden|)
    ensures Sum(p, q, |visible|, |hidden|).HasShape(|visible|, |hidden|)
    ensures Energy(Sum(p, q, |visible|, |hidden|), visible, hidden)
         == Energy(p, visible, hidden) + Energy(q, visible, hidden)
  {
    var r := Sum(p, q, |visible|, |hidden|);
    DotOfSum(p.visibleBiases, q.visibleBiases, visible, |visible|);
    DotOfSum(p.hiddenBiases, q.hiddenBiases, hidden, |hidden|);
    var rowsP, rowsQ := RowInputs(p.weights, hidden), RowInputs(q.weights, hidden);
    forall i | 0 <= i < |visible|
      ensures RowInputs(r.weights, hidden)[i] == Add(rowsP, rowsQ)[i]
    {
      DotOfSum(p.weights[i], q.weights[i], hidden, |hidden|);
    }
    assert RowInputs(r.weights, hidden) == Add(rowsP, rowsQ);
    DotOfSum(rowsP, rowsQ, visible, |visible|);
  }

  // ---------------------------------------------------------------------
  // Parameter persistence: the token layout of the parameter file.
  // ---------------------------------------------------------------------

  /** The rows of a matrix laid end to end (row-major order). */
  function Flatten(rows: seq<seq<real>>): seq<real>
  {
    if |rows| == 0 then [] else Flatten(rows[..|rows| - 1]) + rows[|rows| - 1]
  }

  /** The tokens the parameter file holds, in file order: the V visible
      biases, the H hidden biases, then the weights row by row. */
  function Serialize(p: Params): seq<real>
  {
    p.visibleBiases + p.hiddenBiases + Flatten(p.weights)
  }

  /** Position of weight (i, j) in the token stream. */
  function WeightPosition(v: nat, h: nat, i: nat, j: nat): nat
  {
    v + h + RowStart(i, h) + j
  }

  /** Where row i of a width-h matrix starts once flattened, counted row
      by row. */
  function RowStart(i: nat, h: nat): nat
  {
    if i == 0 then 0 else RowStart(i - 1, h) + h
  }

  /** The value a read into slot q leaves there: the q-th token when the
      stream has one, otherwise the slot's previous value (an extraction at
      end of stream fails without storing). */
  function TokenOr(tokens: seq<real>, q: nat, previous: real): real
  {
    if q < |tokens| then tokens[q] else previous
  }

  /** The parameters after reading a token stream into p, slot by slot in
      the order of Serialize; tokens beyond the last slot are not read. */
  function Load(p: Params, v: nat, h: nat, tokens: seq<real>): (r: Params)
    requires p.HasShape(v, h)
    ensures r.HasShape(v, h)
  {
    Params(
      seq(v, i requires 0 <= i < v => TokenOr(tokens, i, p.visibleBiases[i])),
      seq(h, j requires 0 <= j < h => TokenOr(tokens, v + j, p.hiddenBiases[j])),
      seq(v, i requires 0 <= i < v =>
        seq(h, j requires 0 <= j < h => TokenOr(tokens, WeightPosition(v, h, i, j), p.weights[i][j]))))
  }

  /** Row i starts at i·h: weight (i, j) is at V + H + i·H + j. */
  lemma {:induction false} RowStartIsProduct(i: nat, h: nat)
    ensures RowStart(i, h) == i * h
  {
    if i > 0 {
      RowStartIsProduct(i - 1, h);
      assert i * h == (i - 1) * h + h;
    }
  }

  /** Row i of an n-row matrix of width h ends before row n starts. */
  lemma {:induction false} RowStartBound(i: nat, n: nat, h: nat)
    requires i < n
    ensures RowStart(i, h) + h <= RowStart(n, h)
  {
    if i < n - 1 {
      RowStartBound(i, n - 1, h);
    }
  }

  /** Flattening a matrix of width h puts row i at positions
      RowStart(i, h) up to RowStart(i, h) + h. */
  lemma {:induction false} FlattenLayout(rows: seq<seq<real>>, h: nat)
    requires forall i :: 0 <= i < |rows| ==> |rows[i]| == h
    ensures |Flatten(rows)| == RowStart(|rows|, h)
    ensures forall i :: 0 <= i < |rows| ==>
              RowStart(i, h) + h <= |Flatten(rows)| && Flatten(rows)[RowStart(i, h)..RowStart(i, h) + h] == rows[i]
  {
    if |rows| > 0 {
      var n := |rows| - 1;
      var prefix := rows[..n];
      FlattenLayout(prefix, h);
      var front := Flatten(prefix);
      assert Flatten(rows) == front + rows[n];
      forall i | 0 <= i < |rows|
        ensures RowStart(i, h) + h <= |Flatten(rows)|
        ensures Flatten(rows)[RowStart(i, h)..RowStart(i, h) + h] == rows[i]
      {
        var a := RowStart(i, h);
        if i < n {
          RowStartBound(i, n, h);
          assert prefix[i] == rows[i];
          assert (front + rows[n])[a..a + h] == front[a..a + h];
        } else {
          assert (front + rows[n])[a..a + h] == rows[n];
        }
      }
    }
  }

  /** The file holds exactly V + H + V·H tokens: visible biases, hidden
      biases, then weight (i, j) at V + H + i·H + j. */
  lemma SerializeLayout(p: Params, v: nat, h: nat)
    requires p.HasShape(v, h)
    ensures |Serialize(p)| == v + h + v * h
    ensures forall i :: 0 <= i < v ==> Serialize(p)[i] == p.visibleBiases[i]
    ensures forall j :: 0 <= j < h ==> Serialize(p)[v + j] == p.hiddenBiases[j]
    ensures forall i, j :: 0 <= i < v && 0 <= j < h ==>
              WeightPosition(v, h, i, j) < |Serialize(p)| &&
              Serialize(p)[WeightPosition(v, h, i, j)] == p.weights[i][j]
  {
    FlattenLayout(p.weights, h);
    RowStartIsProduct(v, h);
    var s := Serialize(p);
    var flat := Flatten(p.weights);
    assert s == p.visibleBiases + p.hiddenBiases + flat;
    forall i, j | 0 <= i < v && 0 <= j < h
      ensures WeightPosition(v, h, i, j) < |s| && s[WeightPosition(v, h, i, j)] == p.weights[i][j]
    {
      var a := RowStart(i, h);
      assert flat[a..a + h] == p.weights[i];
      assert flat[a + j] == flat[a..a + h][j];
      assert s[v + h + (a + j)] == flat[a + j];
    }
  }

  /** Loading what was dumped restores every parameter, whatever the model
      held before the load. */
  lemma LoadAfterSerialize(p: Params, q: Params, v: nat, h: nat)
    requires p.HasShape(v, h) && q.HasShape(v, h)
    ensures Load(q, v, h, Serialize(p)) == p
  {
    SerializeLayout(p, v, h);
    var r := Load(q, v, h, Serialize(p));
    assert r.visibleBiases == p.visibleBiases;
    assert r.hiddenBiases == p.hiddenBiases;
    forall i | 0 <= i < v
      ensures r.weights[i] == p.weights[i]
    {
      forall j | 0 <= j < h
        ensures r.weights[i][j] == p.weights[i][j]
      {
        assert WeightPosition(v, h, i, j) < |Serialize(p)|;
      }
    }
  }

  /** Reading an empty stream changes nothing. */
  lemma LoadOfEmptyStream(p: Params, v: nat, h: nat)
    requires p.HasShape(v, h)
    ensures Load(p, v, h, []) == p
  {
    var r := Load(p, v, h, []);
    assert r.visibleBiases == p.visibleBiases;
    assert r.hiddenBiases == p.hiddenBiases;
    forall i | 0 <= i < v
      ensures r.weights[i] == p.weights[i]
    {
    }
  }
}
