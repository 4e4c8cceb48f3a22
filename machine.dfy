/** The RBM object: two bias arrays and a V×H weight matrix, updated in
    place by training and read by sampling. */
module Machine {
  import opened Sums
  import opened Parameters

  /** std::inner_product of a bias array with a binary state. */
  method InnerProduct(a: array<real>, state: seq<bool>) returns (r: real)
    requires a.Length == |state|
    ensures r == Dot(a[..], state)
  {
    r := 0.0;
    for k := 0 to a.Length
      invariant r == DotTo(a[..], state, k)
    {
      r := r + B2R(state[k]) * a[k];
    }
  }

  class Rbm {
    const V: nat
    const H: nat
    const visibleBiases: array<real>
    const hiddenBiases: array<real>
    const weights: array2<real>

    /** The containers have the dimensions fixed at construction. */
    predicate Valid()
    {
      visibleBiases.Length == V && hiddenBiases.Length == H &&
      weights.Length0 == V && weights.Length1 == H &&
      visibleBiases != hiddenBiases
    }

    /** The parameters the arrays currently hold. */
    ghost function Model(): (p: Params)
      reads visibleBiases, hiddenBiases, weights
      requires Valid()
      ensures p.HasShape(V, H)
    {
      Params(visibleBiases[..], hiddenBiases[..],
             seq(V, i requires 0 <= i < V reads weights =>
               seq(H, j requires 0 <= j < H reads weights => weights[i, j])))
    }

    /** A fresh model holds all-zero parameters. */
    constructor (v: nat, h: nat)
      ensures Valid() && V == v && H == h
      ensures fresh(visibleBiases) && fresh(hiddenBiases) && fresh(weights)
      ensures Model() == ZeroParams(v, h)
    {
      V, H := v, h;
      visibleBiases := new real[v](_ => 0.0);
      hiddenBiases := new real[h](_ => 0.0);
      weights := new real[v, h]((_, _) => 0.0);
      new;
      ghost var z := ZeroParams(v, h);
      assert Model().weights == z.weights by {
        forall i | 0 <= i < v
          ensures Model().weights[i] == z.weights[i]
        {
        }
      }
    }

    /** Σ_i state[i]·weights[i][j]: the input hidden unit j receives from a
        visible state. */
    method HiddenInput(visible: seq<bool>, j: nat) returns (r: real)
      requires Valid() && |visible| == V && j < H
      ensures r == Dot(Column(Model().weights, j), visible)
    {
      ghost var col := Column(Model().weights, j);
      r := 0.0;
      for i := 0 to V
        invariant r == DotTo(col, visible, i)
      {
        r := r + B2R(visible[i]) * weights[i, j];
      }
    }

    /** Σ_j hidden[j]·weights[i][j]: the input visible unit i receives from
        a hidden state. */
    method VisibleInput(hidden: seq<bool>, i: nat) returns (r: real)
      requires Valid() && |hidden| == H && i < V
      ensures r == Dot(Model().weights[i], hidden)
    {
      ghost var row := Model().weights[i];
      r := 0.0;
      for j := 0 to H
        invariant r == DotTo(row, hidden, j)
      {
        r := r + B2R(hidden[j]) * weights[i, j];
      }
    }

    /** The energy of a joint state under the current parameters. */
    method Energy(visible: seq<bool>, hidden: seq<bool>) returns (e: real)
      requires Valid() && |visible| == V && |hidden| == H
      ensures e == Parameters.Energy(Model(), visible, hidden)
    {
      var t := InnerProduct(visibleBiases, visible);
      e := 0.0 - t;
      t := InnerProduct(hiddenBiases, hidden);
      e := e - t;
      ghost var rows := RowInputs(Model().weights, hidden);
      ghost var start := e;
      for i := 0 to V
        invariant e == start - DotTo(rows, visible, i)
      {
        t := VisibleInput(hidden, i);
        e := e - B2R(visible[i]) * t;
      }
    }

    /** The tokens written to the parameter file, in file order. */
    method DumpParameters() returns (tokens: seq<real>)
      requires Valid()
      ensures tokens == Serialize(Model())
    {
      tokens := [];
      for i := 0 to V
        invariant tokens == visibleBiases[..i]
      {
        tokens := tokens + [visibleBiases[i]];
      }
      for j := 0 to H
        invariant tokens == visibleBiases[..] + hiddenBiases[..j]
      {
        tokens := tokens + [hiddenBiases[j]];
      }
      ghost var w := Model().weights;
      for i := 0 to V
        invariant tokens == visibleBiases[..] + hiddenBiases[..] + Flatten(w[..i])
      {
        for j := 0 to H
          invariant tokens == visibleBiases[..] + hiddenBiases[..] + Flatten(w[..i]) + w[i][..j]
        {
          tokens := tokens + [weights[i, j]];
          assert w[i][..j + 1] == w[i][..j] + [weights[i, j]];
        }
        assert w[..i + 1][..i] == w[..i];
        assert w[i][..H] == w[i];
      }
      assert w[..V] == w;
    }

    /** Reads a token stream into the parameters in file order; slots past
        the end of the stream keep their values. */
    method LoadParameters(tokens: seq<real>)
      requires Valid()
      modifies visibleBiases, hiddenBiases, weights
      ensures Model() == Load(old(Model()), V, H, tokens)
    {
      ghost var p := Model();
      ReadInto(visibleBiases, tokens, 0);
      ReadInto(hiddenBiases, tokens, V);
      LoadWeights(tokens);
      ghost var q := Load(p, V, H, tokens);
      assert Model().visibleBiases == q.visibleBiases;
      assert Model().hiddenBiases == q.hiddenBiases;
      forall i | 0 <= i < V
        ensures Model().weights[i] == q.weights[i]
      {
      }
    }

    /** The weight part of a load: row by row, token WeightPosition(V, H,
        i, j) into weight (i, j). */
    method LoadWeights(tokens: seq<real>)
      requires Valid()
      modifies weights
      ensures forall a, b :: 0 <= a < V && 0 <= b < H ==>
                weights[a, b] == TokenOr(tokens, WeightPosition(V, H, a, b), old(weights[a, b]))
    {
      var pos := V + H;
      for i := 0 to V
        invariant pos == V + H + RowStart(i, H)
        invariant forall a, b :: 0 <= a < i && 0 <= b < H ==>
                    weights[a, b] == TokenOr(tokens, WeightPosition(V, H, a, b), old(weights[a, b]))
        invariant forall a, b :: i <= a < V && 0 <= b < H ==> weights[a, b] == old(weights[a, b])
      {
        for j := 0 to H
          invariant pos == V + H + RowStart(i, H) + j
          invariant forall a, b :: 0 <= a < i && 0 <= b < H ==>
                      weights[a, b] == TokenOr(tokens, WeightPosition(V, H, a, b), old(weights[a, b]))
          invariant forall b :: 0 <= b < j ==>
                      weights[i, b] == TokenOr(tokens, WeightPosition(V, H, i, b), old(weights[i, b]))
          invariant forall a, b :: (i < a < V && 0 <= b < H) || (a == i && j <= b < H) ==>
                      weights[a, b] == old(weights[a, b])
        {
          if pos < |tokens| {
            weights[i, j] := tokens[pos];
          }
          pos := pos + 1;
        }
      }
    }
  }

  /** Reads consecutive tokens from position `start` into the slots of
      `a` in order; a slot whose token is past the end of the stream keeps
      its value. */
  method ReadInto(a: array<real>, tokens: seq<real>, start: nat)
    modifies a
    ensures forall k :: 0 <= k < a.Length ==> a[k] == TokenOr(tokens, start + k, old(a[k]))
  {
    var pos := start;
    for k := 0 to a.Length
      invariant pos == start + k
      invariant forall m :: 0 <= m < k ==> a[m] == TokenOr(tokens, start + m, old(a[m]))
      invariant forall m :: k <= m < a.Length ==> a[m] == old(a[m])
    {
      if pos < |tokens| {
        a[k] := tokens[pos];
      }
      pos := pos + 1;
    }
  }
}
