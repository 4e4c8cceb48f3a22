/** One mini-batch contrastive-divergence update.

    The random inputs of an update are parameters: the chain's starting
    bits, the uniform draws of each burn-in sweep, the mini-batch indices and
    the positive-phase draws (one row of mini-batch draws per hidden unit). */
module Training {
  import opened Sums
  import opened Parameters
  import opened Machine
  import opened Sampling

  /** `std::size_t` arithmetic wraps modulo 2^64. */
  const SizeModulus: nat := 0x1_0000_0000_0000_0000

  /** The upper bound handed to the index distribution: the training set's
      size minus one, computed in `std::size_t`. */
  function IndexUpperBound(n: nat): (b: nat)
    requires n < SizeModulus
    ensures n > 0 ==> b == n - 1
    ensures n == 0 ==> b == SizeModulus - 1
  {
    (n - 1) % SizeModulus
  }

  /** For a non-empty training set every index the distribution can return
      is a valid index. */
  lemma MiniBatchIndexInRange(n: nat, index: nat)
    requires 0 < n < SizeModulus && index <= IndexUpperBound(n)
    ensures index < n
  {
  }

  /** For an empty training set the bound wraps to 2^64 - 1 instead of
      being rejected: the distribution may return any of 2^64 indices, and
      an empty set has no valid index at all. */
  lemma EmptyTrainingSetWrapsBound()
    ensures IndexUpperBound(0) == 0xFFFF_FFFF_FFFF_FFFF
  {
  }

  /** Every example has v units. */
  predicate ExamplesFit(examples: seq<seq<bool>>, v: nat)
  {
    forall k :: 0 <= k < |examples| ==> |examples[k]| == v
  }

  /** The mini-batch: the training examples the indices select, in order. */
  function Batch(trainingSet: seq<seq<bool>>, indices: seq<nat>): (batch: seq<seq<bool>>)
    requires forall k :: 0 <= k < |indices| ==> indices[k] < |trainingSet|
    ensures |batch| == |indices|
    ensures forall k :: 0 <= k < |batch| ==> batch[k] in trainingSet
  {
    seq(|indices|, k requires 0 <= k < |indices| => trainingSet[indices[k]])
  }

  /** The fraction of set entries. */
  function Mean(b: seq<bool>): real
    requires |b| > 0
  {
    Count(b) as real / |b| as real
  }

  /** The change of one parameter: the learning rate times the positive
      statistic minus the negative chain's value. */
  function Delta(lr: real, positive: real, negative: bool): real
  {
    lr * (positive - B2R(negative))
  }

  /** Hidden unit j sampled once per mini-batch example, from the hidden
      bias and weight column j of p. */
  function PositiveSamples(p: Params, batch: seq<seq<bool>>, draws: seq<real>, j: nat, sigma: real -> real): (s: seq<bool>)
    requires j < |p.hiddenBiases| && p.HasShape(|p.visibleBiases|, |p.hiddenBiases|)
    requires ExamplesFit(batch, |p.visibleBiases|) && |draws| == |batch|
    ensures |s| == |batch|
  {
    seq(|batch|, k requires 0 <= k < |batch| => Fire(draws[k], sigma, HiddenActivation(p, batch[k], j)))
  }

  /** Per example, visible unit i of the example and the sampled hidden unit
      both set. */
  function PairColumn(batch: seq<seq<bool>>, i: nat, samples: seq<bool>): (c: seq<bool>)
    requires |samples| == |batch| && forall k :: 0 <= k < |batch| ==> i < |batch[k]|
    ensures |c| == |batch|
  {
    seq(|batch|, k requires 0 <= k < |batch| => batch[k][i] && samples[k])
  }

  /** The shapes an update needs: parameters of shape v×h, a non-empty
      mini-batch of v-unit examples, a negative chain state, and one row of
      mini-batch draws per hidden unit. */
  predicate UpdateFits(p: Params, v: nat, h: nat, batch: seq<seq<bool>>, neg: Joint, positiveDraws: seq<seq<real>>)
  {
    p.HasShape(v, h) && |batch| > 0 && ExamplesFit(batch, v) &&
    |neg.visible| == v && |neg.hidden| == h &&
    |positiveDraws| == h && forall j :: 0 <= j < h ==> |positiveDraws[j]| == |batch|
  }

  /** The parameters after one contrastive-divergence update: every hidden
      bias, weight and visible bias moves by lr times (mini-batch mean of the
      positive statistic minus the negative chain's value).  All positive
      samples are drawn from the parameters before the update. */
  function CdUpdate(p: Params, v: nat, h: nat, lr: real, batch: seq<seq<bool>>, neg: Joint,
                    positiveDraws: seq<seq<real>>, sigma: real -> real): (r: Params)
    requires UpdateFits(p, v, h, batch, neg, positiveDraws)
    ensures r.HasShape(v, h)
  {
    Params(
      seq(v, i requires 0 <= i < v =>
        p.visibleBiases[i] + Delta(lr, Mean(Column(batch, i)), neg.visible[i])),
      seq(h, j requires 0 <= j < h =>
        p.hiddenBiases[j] + Delta(lr, Mean(PositiveSamples(p, batch, positiveDraws[j], j, sigma)), neg.hidden[j])),
      seq(v, i requires 0 <= i < v =>
        seq(h, j requires 0 <= j < h =>
          p.weights[i][j]
          + Delta(lr, Mean(PairColumn(batch, i, PositiveSamples(p, batch, positiveDraws[j], j, sigma))),
                  neg.visible[i] && neg.hidden[j]))))
  }

  /** A mean lies in [0, 1]; it is 1 exactly when every entry is set and 0
      exactly when none is. */
  lemma MeanBounds(b: seq<bool>)
    requires |b| > 0
    ensures 0.0 <= Mean(b) <= 1.0
    ensures Mean(b) == 1.0 <==> forall k :: 0 <= k < |b| ==> b[k]
    ensures Mean(b) == 0.0 <==> forall k :: 0 <= k < |b| ==> !b[k]
  {
    CountBounds(b, |b|);
    RatioBounds(Count(b) as real, |b| as real);
  }

  /** A fraction whose numerator lies between 0 and its positive
      denominator lies in [0, 1], and is at an end exactly when the
      numerator is; `MeanBounds` rests on it. */
  lemma RatioBounds(c: real, n: real)
    requires 0.0 <= c <= n && n > 0.0
    ensures 0.0 <= c / n <= 1.0
    ensures c / n == 1.0 <==> c == n
    ensures c / n == 0.0 <==> c == 0.0
  {
    assert c / n * n == c;
  }

  /** A product of non-negative reals is non-negative; `DeltaBounds`
      needs it for each sign of the step. */
  lemma ProductNonNegative(x: real, y: real)
    requires x >= 0.0 && y >= 0.0
    ensures x * y >= 0.0
  {
  }

  /** With a non-negative learning rate one update moves a parameter by at
      most lr, away from the negative chain's value: down when the chain's
      unit is set, up when it is not, and not at all when every positive
      statistic agrees with the chain. */
  lemma DeltaBounds(lr: real, b: seq<bool>, negative: bool)
    requires lr >= 0.0 && |b| > 0
    ensures -lr <= Delta(lr, Mean(b), negative) <= lr
    ensures negative ==> Delta(lr, Mean(b), negative) <= 0.0
    ensures !negative ==> Delta(lr, Mean(b), negative) >= 0.0
    ensures (forall k :: 0 <= k < |b| ==> b[k] == negative) ==> Delta(lr, Mean(b), negative) == 0.0
  {
    MeanBounds(b);
    var d := Mean(b) - B2R(negative);
    assert -1.0 <= d <= 1.0;
    if d >= 0.0 {
      ProductNonNegative(lr, d);
      ProductNonNegative(lr, 1.0 - d);
    } else {
      ProductNonNegative(lr, -d);
      ProductNonNegative(lr, 1.0 + d);
    }
  }

  /** With a non-negative learning rate, one update moves every bias and
      every weight by at most lr. */
  lemma CdUpdateStepBounded(p: Params, v: nat, h: nat, lr: real, batch: seq<seq<bool>>, neg: Joint,
                            positiveDraws: seq<seq<real>>, sigma: real -> real)
    requires UpdateFits(p, v, h, batch, neg, positiveDraws) && lr >= 0.0
    ensures var r := CdUpdate(p, v, h, lr, batch, neg, positiveDraws, sigma);
      (forall i :: 0 <= i < v ==> -lr <= r.visibleBiases[i] - p.visibleBiases[i] <= lr) &&
      (forall j :: 0 <= j < h ==> -lr <= r.hiddenBiases[j] - p.hiddenBiases[j] <= lr) &&
      (forall i, j :: 0 <= i < v && 0 <= j < h ==> -lr <= r.weights[i][j] - p.weights[i][j] <= lr)
  {
    var r := CdUpdate(p, v, h, lr, batch, neg, positiveDraws, sigma);
    forall i | 0 <= i < v
      ensures -lr <= r.visibleBiases[i] - p.visibleBiases[i] <= lr
    {
      DeltaBounds(lr, Column(batch, i), neg.visible[i]);
    }
    forall j | 0 <= j < h
      ensures -lr <= r.hiddenBiases[j] - p.hiddenBiases[j] <= lr
    {
      DeltaBounds(lr, PositiveSamples(p, batch, positiveDraws[j], j, sigma), neg.hidden[j]);
    }
    forall i, j | 0 <= i < v && 0 <= j < h
      ensures -lr <= r.weights[i][j] - p.weights[i][j] <= lr
    {
      var s := PositiveSamples(p, batch, positiveDraws[j], j, sigma);
      DeltaBounds(lr, PairColumn(batch, i, s), neg.visible[i] && neg.hidden[j]);
    }
  }

  /** Visible bias i moves toward the data: with a non-negative learning
      rate it does not decrease when the chain's unit i is off, does not
      increase when it is on, and is unchanged when every mini-batch example
      agrees with the chain at unit i. */
  lemma VisibleBiasFollowsData(p: Params, v: nat, h: nat, lr: real, batch: seq<seq<bool>>, neg: Joint,
                               positiveDraws: seq<seq<real>>, sigma: real -> real, i: nat)
    requires UpdateFits(p, v, h, batch, neg, positiveDraws) && lr >= 0.0 && i < v
    ensures var r := CdUpdate(p, v, h, lr, batch, neg, positiveDraws, sigma);
      (!neg.visible[i] ==> r.visibleBiases[i] >= p.visibleBiases[i]) &&
      (neg.visible[i] ==> r.visibleBiases[i] <= p.visibleBiases[i]) &&
      ((forall k :: 0 <= k < |batch| ==> batch[k][i] == neg.visible[i]) ==>
         r.visibleBiases[i] == p.visibleBiases[i])
  {
    DeltaBounds(lr, Column(batch, i), neg.visible[i]);
  }

  /** A zero learning rate leaves the parameters as they were. */
  lemma CdUpdateZeroRate(p: Params, v: nat, h: nat, batch: seq<seq<bool>>, neg: Joint,
                         positiveDraws: seq<seq<real>>, sigma: real -> real)
    requires UpdateFits(p, v, h, batch, neg, positiveDraws)
    ensures CdUpdate(p, v, h, 0.0, batch, neg, positiveDraws, sigma) == p
  {
    SameParams(CdUpdate(p, v, h, 0.0, batch, neg, positiveDraws, sigma), p, v, h);
  }

  /** The arrays hold the hidden bias j and weight column j of p. */
  ghost predicate HoldsColumn(rbm: Rbm, p: Params, j: nat)
    reads rbm.hiddenBiases, rbm.weights
  {
    rbm.Valid() && j < rbm.H && p.HasShape(rbm.V, rbm.H) && rbm.hiddenBiases[j] == p.hiddenBiases[j] &&
    forall i :: 0 <= i < rbm.V ==> rbm.weights[i, j] == p.weights[i][j]
  }

  /** Positive samples for hidden unit j depend only on hidden bias j and
      weight column j. */
  lemma PositiveSamplesReadColumn(p: Params, q: Params, batch: seq<seq<bool>>, draws: seq<real>, j: nat,
                                  sigma: real -> real)
    requires j < |p.hiddenBiases| && p.HasShape(|p.visibleBiases|, |p.hiddenBiases|)
    requires q.HasShape(|p.visibleBiases|, |p.hiddenBiases|)
    requires ExamplesFit(batch, |p.visibleBiases|) && |draws| == |batch|
    requires q.hiddenBiases[j] == p.hiddenBiases[j]
    requires forall i :: 0 <= i < |p.visibleBiases| ==> q.weights[i][j] == p.weights[i][j]
    ensures PositiveSamples(q, batch, draws, j, sigma) == PositiveSamples(p, batch, draws, j, sigma)
  {
    assert Column(q.weights, j) == Column(p.weights, j);
  }

  /** The number of units where the chain's visible state and an example
      differ. */
  method BitsWrong(state: seq<bool>, example: seq<bool>) returns (n: nat)
    requires |state| == |example|
    ensures n == Hamming(state, example)
    ensures n <= |state|
    ensures n == 0 <==> state == example
  {
    n := 0;
    for i := 0 to |state|
      invariant n == HammingTo(state, example, i)
    {
      if state[i] != example[i] {
        n := n + 1;
      }
    }
    HammingBounds(state, example, |state|);
    assert state[..|state|] == state && example[..|state|] == example;
  }

  /** The positive phase for hidden unit j: one sample per mini-batch
      example, drawn from hidden bias j and weight column j.  Only reads the
      parameters. */
  method PositivePhase(rbm: Rbm, j: nat, batch: seq<seq<bool>>, draws: seq<real>, sigma: real -> real,
                       ghost p: Params)
    returns (samples: seq<bool>)
    requires rbm.Valid() && j < rbm.H && ExamplesFit(batch, rbm.V) && |draws| == |batch|
    requires HoldsColumn(rbm, p, j)
    ensures samples == PositiveSamples(p, batch, draws, j, sigma)
  {
    assert Column(rbm.Model().weights, j) == Column(p.weights, j);
    ghost var target := PositiveSamples(p, batch, draws, j, sigma);
    var reconstructed := new bool[|batch|];
    for k := 0 to |batch|
      invariant forall kk :: 0 <= kk < k ==> reconstructed[kk] == target[kk]
    {
      var sumVWs := rbm.HiddenInput(batch[k], j);
      reconstructed[k] := draws[k] < sigma(rbm.hiddenBiases[j] + sumVWs);
    }
    samples := reconstructed[..];
  }

  /** The inner visible-unit loop of hidden iteration j: weight (i, j) moves
      by lr times (the mini-batch mean of "example unit i and sample both
      set" minus "chain units i and j both set"); no other column changes. */
  method UpdateWeightColumn(rbm: Rbm, j: nat, lr: real, batch: seq<seq<bool>>, samples: seq<bool>,
                            negVisible: seq<bool>, negHidden: bool)
    requires rbm.Valid() && j < rbm.H && |batch| > 0 && ExamplesFit(batch, rbm.V)
    requires |samples| == |batch| && |negVisible| == rbm.V
    modifies rbm.weights
    ensures forall i :: 0 <= i < rbm.V ==>
              rbm.weights[i, j] == old(rbm.weights[i, j])
                + Delta(lr, Mean(PairColumn(batch, i, samples)), negVisible[i] && negHidden)
    ensures forall i, k :: 0 <= i < rbm.V && 0 <= k < rbm.H && k != j ==>
              rbm.weights[i, k] == old(rbm.weights[i, k])
  {
    var m := |batch|;
    for i := 0 to rbm.V
      invariant forall ii :: 0 <= ii < i ==>
                  rbm.weights[ii, j] == old(rbm.weights[ii, j])
                    + Delta(lr, Mean(PairColumn(batch, ii, samples)), negVisible[ii] && negHidden)
      invariant forall ii, k :: 0 <= ii < rbm.V && 0 <= k < rbm.H && (k != j || i <= ii) ==>
                  rbm.weights[ii, k] == old(rbm.weights[ii, k])
    {
      ghost var pairs := PairColumn(batch, i, samples);
      var positiveTerm := 0.0;
      for k := 0 to m
        invariant positiveTerm == CountTo(pairs, k) as real
      {
        positiveTerm := positiveTerm + B2R(batch[k][i] && samples[k]);
      }
      positiveTerm := positiveTerm / m as real;
      rbm.weights[i, j] := rbm.weights[i, j] + lr * (positiveTerm - B2R(negVisible[i] && negHidden));
    }
  }

  /** Iteration j of the hidden-unit loop: samples hidden unit j once per
      mini-batch example from hidden bias j and weight column j, then updates
      hidden bias j and weight column j, and nothing else. */
  method UpdateHiddenUnit(rbm: Rbm, j: nat, lr: real, batch: seq<seq<bool>>, negVisible: seq<bool>,
                          negHidden: bool, draws: seq<real>, sigma: real -> real, ghost p: Params)
    returns (samples: seq<bool>)
    requires rbm.Valid() && j < rbm.H && |batch| > 0 && ExamplesFit(batch, rbm.V)
    requires |negVisible| == rbm.V && |draws| == |batch| && HoldsColumn(rbm, p, j)
    modifies rbm.hiddenBiases, rbm.weights
    ensures samples == PositiveSamples(p, batch, draws, j, sigma)
    ensures rbm.hiddenBiases[j] == old(rbm.hiddenBiases[j]) + Delta(lr, Mean(samples), negHidden)
    ensures forall k :: 0 <= k < rbm.H && k != j ==> rbm.hiddenBiases[k] == old(rbm.hiddenBiases[k])
    ensures forall i :: 0 <= i < rbm.V ==>
              rbm.weights[i, j] == old(rbm.weights[i, j])
                + Delta(lr, Mean(PairColumn(batch, i, samples)), negVisible[i] && negHidden)
    ensures forall i, k :: 0 <= i < rbm.V && 0 <= k < rbm.H && k != j ==>
              rbm.weights[i, k] == old(rbm.weights[i, k])
  {
    samples := PositivePhase(rbm, j, batch, draws, sigma, p);
    UpdateHiddenBias(rbm, j, lr, samples, negHidden);
    UpdateWeightColumn(rbm, j, lr, batch, samples, negVisible, negHidden);
  }

  /** Hidden bias j moves by lr times (the mean of the positive samples
      minus the chain's hidden unit j). */
  method UpdateHiddenBias(rbm: Rbm, j: nat, lr: real, samples: seq<bool>, negHidden: bool)
    requires rbm.Valid() && j < rbm.H && |samples| > 0
    modifies rbm.hiddenBiases
    ensures rbm.hiddenBiases[j] == old(rbm.hiddenBiases[j]) + Delta(lr, Mean(samples), negHidden)
    ensures forall k :: 0 <= k < rbm.H && k != j ==> rbm.hiddenBiases[k] == old(rbm.hiddenBiases[k])
  {
    var total := Count(samples) as real;  // std::accumulate over the samples
    rbm.hiddenBiases[j] := rbm.hiddenBiases[j] + lr * (total / |samples| as real - B2R(negHidden));
  }

  /** Per mini-batch example, the number of visible units where the chain's
      state and the example differ. */
  method ReconstructionErrors(state: seq<bool>, batch: seq<seq<bool>>) returns (bitsWrong: seq<nat>)
    requires ExamplesFit(batch, |state|)
    ensures |bitsWrong| == |batch|
    ensures forall k :: 0 <= k < |batch| ==>
              bitsWrong[k] == Hamming(state, batch[k]) && bitsWrong[k] <= |state|
  {
    bitsWrong := [];
    for k := 0 to |batch|
      invariant |bitsWrong| == k
      invariant forall kk :: 0 <= kk < k ==>
                  bitsWrong[kk] == Hamming(state, batch[kk]) && bitsWrong[kk] <= |state|
    {
      var wrong := BitsWrong(state, batch[k]);
      bitsWrong := bitsWrong + [wrong];
    }
  }

  /** The visible-unit loop: visible bias i moves by lr times (the
      mini-batch mean of unit i minus the chain's unit i). */
  method UpdateVisibleBiases(rbm: Rbm, lr: real, batch: seq<seq<bool>>, negVisible: seq<bool>)
    requires rbm.Valid() && |batch| > 0 && ExamplesFit(batch, rbm.V) && |negVisible| == rbm.V
    modifies rbm.visibleBiases
    ensures forall i :: 0 <= i < rbm.V ==>
              rbm.visibleBiases[i] == old(rbm.visibleBiases[i]) + Delta(lr, Mean(Column(batch, i)), negVisible[i])
  {
    var m := |batch|;
    for i := 0 to rbm.V
      invariant forall ii :: 0 <= ii < i ==>
                  rbm.visibleBiases[ii] == old(rbm.visibleBiases[ii]) + Delta(lr, Mean(Column(batch, ii)), negVisible[ii])
      invariant forall ii :: i <= ii < rbm.V ==> rbm.visibleBiases[ii] == old(rbm.visibleBiases[ii])
    {
      ghost var column := Column(batch, i);
      var positiveTerm := 0.0;
      for k := 0 to m
        invariant positiveTerm == CountTo(column, k) as real
      {
        positiveTerm := positiveTerm + B2R(batch[k][i]);
      }
      positiveTerm := positiveTerm / m as real;
      rbm.visibleBiases[i] := rbm.visibleBiases[i] + lr * (positiveTerm - B2R(negVisible[i]));
    }
  }

  /** Burn-in: one Gibbs sweep on the chain per entry of `sweeps`. */
  method BurnIn(rbm: Rbm, visibleState: array<bool>, hiddenState: array<bool>, sweeps: seq<SweepDraws>,
                sigma: real -> real)
    requires rbm.Valid() && visibleState.Length == rbm.V && hiddenState.Length == rbm.H
    requires visibleState != hiddenState
    requires forall s :: 0 <= s < |sweeps| ==> DrawsFit(sweeps[s], rbm.V, rbm.H)
    modifies visibleState, hiddenState
    ensures Joint(visibleState[..], hiddenState[..])
         == Chain(rbm.Model(), Joint(old(visibleState[..]), old(hiddenState[..])), sweeps, sigma)
  {
    ghost var start := Joint(visibleState[..], hiddenState[..]);
    for step := 0 to |sweeps|
      invariant Joint(visibleState[..], hiddenState[..]) == Chain(rbm.Model(), start, sweeps[..step], sigma)
    {
      assert sweeps[..step + 1][..step] == sweeps[..step];
      GibbsStep(rbm, visibleState, hiddenState, sweeps[step], sigma);
    }
    assert sweeps[..|sweeps|] == sweeps;
  }

  /** The hidden-unit loop: iteration j updates hidden bias j and weight
      column j from positive samples drawn with the parameters as they were
      before the loop. */
  method UpdateHiddenUnits(rbm: Rbm, lr: real, batch: seq<seq<bool>>, neg: Joint, positiveDraws: seq<seq<real>>,
                           sigma: real -> real)
    requires rbm.Valid() && UpdateFits(rbm.Model(), rbm.V, rbm.H, batch, neg, positiveDraws)
    modifies rbm.hiddenBiases, rbm.weights
    ensures var target := CdUpdate(old(rbm.Model()), rbm.V, rbm.H, lr, batch, neg, positiveDraws, sigma);
      rbm.hiddenBiases[..] == target.hiddenBiases &&
      forall i, j :: 0 <= i < rbm.V && 0 <= j < rbm.H ==> rbm.weights[i, j] == target.weights[i][j]
  {
    ghost var p := rbm.Model();
    ghost var target := CdUpdate(p, rbm.V, rbm.H, lr, batch, neg, positiveDraws, sigma);
    for j := 0 to rbm.H
      invariant forall k :: 0 <= k < j ==> rbm.hiddenBiases[k] == target.hiddenBiases[k]
      invariant forall k :: j <= k < rbm.H ==> rbm.hiddenBiases[k] == p.hiddenBiases[k]
      invariant forall i, k :: 0 <= i < rbm.V && 0 <= k < j ==> rbm.weights[i, k] == target.weights[i][k]
      invariant forall i, k :: 0 <= i < rbm.V && j <= k < rbm.H ==> rbm.weights[i, k] == p.weights[i][k]
    {
      var samples := UpdateHiddenUnit(rbm, j, lr, batch, neg.visible, neg.hidden[j], positiveDraws[j], sigma, p);
      assert rbm.hiddenBiases[j] == target.hiddenBiases[j];
      forall i | 0 <= i < rbm.V
        ensures rbm.weights[i, j] == target.weights[i][j]
      {
      }
    }
    assert rbm.hiddenBiases[..] == target.hiddenBiases;
  }

  /** The negative phase: a fresh chain starts from `start` and runs one
      Gibbs sweep per entry of `sweeps`; the parameters are only read. */
  method NegativePhase(rbm: Rbm, start: Joint, sweeps: seq<SweepDraws>, sigma: real -> real) returns (neg: Joint)
    requires rbm.Valid() && |start.visible| == rbm.V && |start.hidden| == rbm.H
    requires forall s :: 0 <= s < |sweeps| ==> DrawsFit(sweeps[s], rbm.V, rbm.H)
    ensures neg == Chain(rbm.Model(), start, sweeps, sigma)
  {
    var visibleState := new bool[rbm.V](i requires 0 <= i < rbm.V => start.visible[i]);
    var hiddenState := new bool[rbm.H](j requires 0 <= j < rbm.H => start.hidden[j]);
    assert Joint(visibleState[..], hiddenState[..]) == start;
    BurnIn(rbm, visibleState, hiddenState, sweeps, sigma);
    neg := Joint(visibleState[..], hiddenState[..]);
  }

  /** The parameter update of one training step: the hidden-unit loop, then
      the visible-unit loop. */
  method ApplyUpdate(rbm: Rbm, lr: real, batch: seq<seq<bool>>, neg: Joint, positiveDraws: seq<seq<real>>,
                     sigma: real -> real)
    requires rbm.Valid() && UpdateFits(rbm.Model(), rbm.V, rbm.H, batch, neg, positiveDraws)
    modifies rbm.visibleBiases, rbm.hiddenBiases, rbm.weights
    ensures rbm.Model() == CdUpdate(old(rbm.Model()), rbm.V, rbm.H, lr, batch, neg, positiveDraws, sigma)
  {
    ghost var target := CdUpdate(rbm.Model(), rbm.V, rbm.H, lr, batch, neg, positiveDraws, sigma);
    UpdateHiddenUnits(rbm, lr, batch, neg, positiveDraws, sigma);
    UpdateVisibleBiases(rbm, lr, batch, neg.visible);
    SameParams(rbm.Model(), target, rbm.V, rbm.H);
  }

  /** Every index the mini-batch distribution can produce for a non-empty
      training set addresses an example. */
  lemma MiniBatchInRange(n: nat, miniBatch: seq<nat>)
    requires 0 < n < SizeModulus
    requires forall k :: 0 <= k < |miniBatch| ==> miniBatch[k] <= IndexUpperBound(n)
    ensures forall k :: 0 <= k < |miniBatch| ==> miniBatch[k] < n
  {
    forall k | 0 <= k < |miniBatch|
      ensures miniBatch[k] < n
    {
      MiniBatchIndexInRange(n, miniBatch[k]);
    }
  }

  /** One training update.  A fresh chain starts from `start` and runs one
      Gibbs sweep per entry of `sweeps`; the mini-batch is the examples at
      `miniBatch`; the parameters become CdUpdate of the old ones, and the
      result holds, per mini-batch example, the number of visible units
      where the chain's final state and the example differ. */
  method Rdm(rbm: Rbm, lr: real, trainingSet: seq<seq<bool>>, start: Joint, sweeps: seq<SweepDraws>,
             miniBatch: seq<nat>, positiveDraws: seq<seq<real>>, sigma: real -> real)
    returns (bitsWrong: seq<nat>)
    requires rbm.Valid()
    requires 0 < |trainingSet| < SizeModulus && ExamplesFit(trainingSet, rbm.V)
    requires |start.visible| == rbm.V && |start.hidden| == rbm.H
    requires forall s :: 0 <= s < |sweeps| ==> DrawsFit(sweeps[s], rbm.V, rbm.H)
    requires |miniBatch| > 0
    requires forall k :: 0 <= k < |miniBatch| ==> miniBatch[k] <= IndexUpperBound(|trainingSet|)
    requires |positiveDraws| == rbm.H && forall j :: 0 <= j < rbm.H ==> |positiveDraws[j]| == |miniBatch|
    modifies rbm.visibleBiases, rbm.hiddenBiases, rbm.weights
    ensures forall k :: 0 <= k < |miniBatch| ==> miniBatch[k] < |trainingSet|
    ensures rbm.Model() == CdUpdate(old(rbm.Model()), rbm.V, rbm.H, lr, Batch(trainingSet, miniBatch),
                                    Chain(old(rbm.Model()), start, sweeps, sigma), positiveDraws, sigma)
    ensures |bitsWrong| == |miniBatch|
    ensures forall k :: 0 <= k < |miniBatch| ==>
              bitsWrong[k] == Hamming(Chain(old(rbm.Model()), start, sweeps, sigma).visible, trainingSet[miniBatch[k]])
    ensures forall k :: 0 <= k < |miniBatch| ==> bitsWrong[k] <= rbm.V
  {
    MiniBatchInRange(|trainingSet|, miniBatch);
    var neg := NegativePhase(rbm, start, sweeps, sigma);
    var batch := Batch(trainingSet, miniBatch);
    ApplyUpdate(rbm, lr, batch, neg, positiveDraws, sigma);
    bitsWrong := ReconstructionErrors(neg.visible, batch);
  }
}
