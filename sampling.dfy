/** Alternating Gibbs sampling.

    The logistic function is a parameter `sigma`; the uniform draws the
    sampler consumes are inputs, one per unit and half-step. */
module Sampling {
  import opened Sums
  import opened Parameters
  import opened Machine

  /** What the sampler relies on of the logistic function
      1/(1 + exp(-x)): it maps into the open interval (0, 1) and sends 0 to 1/2. */
  ghost predicate IsLogistic(sigma: real -> real)
  {
    (forall x :: 0.0 < sigma(x) < 1.0) && sigma(0.0) == 0.5
  }

  /** A joint binary configuration of the visible and the hidden layer. */
  datatype Joint = Joint(visible: seq<bool>, hidden: seq<bool>)

  /** The uniform draws one sweep consumes: one per hidden unit, then one per
      visible unit. */
  datatype SweepDraws = SweepDraws(hiddenDraws: seq<real>, visibleDraws: seq<real>)

  /** The draws fit a model with v visible and h hidden units. */
  predicate DrawsFit(d: SweepDraws, v: nat, h: nat)
  {
    |d.hiddenDraws| == h && |d.visibleDraws| == v
  }

  /** bias_j + Σ_i visible[i]·w[i][j]. */
  function HiddenActivation(p: Params, visible: seq<bool>, j: nat): real
    requires p.HasShape(|visible|, |p.hiddenBiases|) && j < |p.hiddenBiases|
  {
    p.hiddenBiases[j] + Dot(Column(p.weights, j), visible)
  }

  /** bias_i + Σ_j hidden[j]·w[i][j]. */
  function VisibleActivation(p: Params, hidden: seq<bool>, i: nat): real
    requires p.HasShape(|p.visibleBiases|, |hidden|) && i < |p.visibleBiases|
  {
    p.visibleBiases[i] + Dot(p.weights[i], hidden)
  }

  /** A unit is set exactly when its draw falls below the sigmoid of its
      activation. */
  function Fire(draw: real, sigma: real -> real, activation: real): bool
  {
    draw < sigma(activation)
  }

  /** Every hidden unit sampled given the visible layer. */
  function SampleHidden(p: Params, visible: seq<bool>, draws: seq<real>, sigma: real -> real): (h: seq<bool>)
    requires p.HasShape(|visible|, |draws|)
    ensures |h| == |draws|
  {
    seq(|draws|, j requires 0 <= j < |draws| => Fire(draws[j], sigma, HiddenActivation(p, visible, j)))
  }

  /** Every visible unit sampled given the hidden layer. */
  function SampleVisible(p: Params, hidden: seq<bool>, draws: seq<real>, sigma: real -> real): (v: seq<bool>)
    requires p.HasShape(|draws|, |hidden|)
    ensures |v| == |draws|
  {
    seq(|draws|, i requires 0 <= i < |draws| => Fire(draws[i], sigma, VisibleActivation(p, hidden, i)))
  }

  /** One sweep: the hidden layer is resampled from the visible one, then
      the visible layer from the NEW hidden layer. */
  function GibbsSweep(p: Params, s: Joint, d: SweepDraws, sigma: real -> real): (r: Joint)
    requires p.HasShape(|s.visible|, |s.hidden|) && DrawsFit(d, |s.visible|, |s.hidden|)
    ensures |r.visible| == |s.visible| && |r.hidden| == |s.hidden|
  {
    var h := SampleHidden(p, s.visible, d.hiddenDraws, sigma);
    Joint(SampleVisible(p, h, d.visibleDraws, sigma), h)
  }

  /** The state after running one sweep per entry of `sweeps`, in order. */
  function Chain(p: Params, s: Joint, sweeps: seq<SweepDraws>, sigma: real -> real): (r: Joint)
    requires p.HasShape(|s.visible|, |s.hidden|)
    requires forall k :: 0 <= k < |sweeps| ==> DrawsFit(sweeps[k], |s.visible|, |s.hidden|)
    ensures |r.visible| == |s.visible| && |r.hidden| == |s.hidden|
  {
    if |sweeps| == 0 then s
    else GibbsSweep(p, Chain(p, s, sweeps[..|sweeps| - 1], sigma), sweeps[|sweeps| - 1], sigma)
  }

  /** The hidden layer a sweep starts from is overwritten unread: only the
      visible layer and the draws determine the outcome. */
  lemma SweepIgnoresOldHidden(p: Params, visible: seq<bool>, h1: seq<bool>, h2: seq<bool>,
                              d: SweepDraws, sigma: real -> real)
    requires |h1| == |h2| && p.HasShape(|visible|, |h1|) && DrawsFit(d, |visible|, |h1|)
    ensures GibbsSweep(p, Joint(visible, h1), d, sigma) == GibbsSweep(p, Joint(visible, h2), d, sigma)
  {
  }

  /** With every bias and weight zero, each unit's activation is 0, so each
      unit is set exactly when its draw is below 1/2. */
  lemma {:induction false} ZeroModelFiresAtHalf(s: Joint, d: SweepDraws, sigma: real -> real)
    requires IsLogistic(sigma) && DrawsFit(d, |s.visible|, |s.hidden|)
    ensures GibbsSweep(ZeroParams(|s.visible|, |s.hidden|), s, d, sigma)
         == Joint(seq(|s.visible|, i requires 0 <= i < |s.visible| => d.visibleDraws[i] < 0.5),
                  seq(|s.hidden|, j requires 0 <= j < |s.hidden| => d.hiddenDraws[j] < 0.5))
  {
    var p := ZeroParams(|s.visible|, |s.hidden|);
    var r := GibbsSweep(p, s, d, sigma);
    forall j | 0 <= j < |s.hidden|
      ensures HiddenActivation(p, s.visible, j) == 0.0
    {
      DotOfZeroCoefficients(Column(p.weights, j), s.visible, |s.visible|);
    }
    forall i | 0 <= i < |s.visible|
      ensures VisibleActivation(p, r.hidden, i) == 0.0
    {
      DotOfZeroCoefficients(p.weights[i], r.hidden, |s.hidden|);
    }
  }

  /** The uniform draw lies in [0, 1) and can be exactly 0; because the
      sigmoid is positive, that draw sets its unit whatever the activation. */
  lemma ZeroDrawFires(sigma: real -> real, activation: real)
    requires IsLogistic(sigma)
    ensures Fire(0.0, sigma, activation)
  {
    assert 0.0 < sigma(activation) < 1.0;
  }

  /** First half-step: every hidden unit resampled from the visible layer,
      which is only read. */
  method SampleHiddenLayer(rbm: Rbm, visible: array<bool>, hidden: array<bool>, draws: seq<real>, sigma: real -> real)
    requires rbm.Valid() && visible.Length == rbm.V && hidden.Length == rbm.H && visible != hidden && |draws| == rbm.H
    modifies hidden
    ensures hidden[..] == SampleHidden(rbm.Model(), visible[..], draws, sigma)
  {
    ghost var p := rbm.Model();
    var v := visible[..];
    ghost var target := SampleHidden(p, v, draws, sigma);
    for j := 0 to hidden.Length
      invariant forall k :: 0 <= k < j ==> hidden[k] == target[k]
      invariant visible[..] == v && rbm.Model() == p
    {
      var sumVWs := rbm.HiddenInput(v, j);
      hidden[j] := draws[j] < sigma(rbm.hiddenBiases[j] + sumVWs);
    }
    assert hidden[..] == target;
  }

  /** Second half-step: every visible unit resampled from the hidden layer,
      which is only read. */
  method SampleVisibleLayer(rbm: Rbm, hidden: array<bool>, visible: array<bool>, draws: seq<real>, sigma: real -> real)
    requires rbm.Valid() && visible.Length == rbm.V && hidden.Length == rbm.H && visible != hidden && |draws| == rbm.V
    modifies visible
    ensures visible[..] == SampleVisible(rbm.Model(), hidden[..], draws, sigma)
  {
    ghost var p := rbm.Model();
    var h := hidden[..];
    ghost var target := SampleVisible(p, h, draws, sigma);
    for i := 0 to visible.Length
      invariant forall k :: 0 <= k < i ==> visible[k] == target[k]
      invariant hidden[..] == h && rbm.Model() == p
    {
      var sumWHs := rbm.VisibleInput(h, i);
      visible[i] := draws[i] < sigma(rbm.visibleBiases[i] + sumWHs);
    }
    assert visible[..] == target;
  }

  /** One alternating Gibbs step on the chain state held in two arrays: the
      hidden half-step completes before the visible half-step reads the new
      hidden layer.  The parameters are only read. */
  method GibbsStep(rbm: Rbm, visible: array<bool>, hidden: array<bool>, d: SweepDraws, sigma: real -> real)
    requires rbm.Valid() && visible.Length == rbm.V && hidden.Length == rbm.H && visible != hidden
    requires DrawsFit(d, rbm.V, rbm.H)
    modifies visible, hidden
    ensures hidden[..] == SampleHidden(rbm.Model(), old(visible[..]), d.hiddenDraws, sigma)
    ensures visible[..] == SampleVisible(rbm.Model(), hidden[..], d.visibleDraws, sigma)
    ensures Joint(visible[..], hidden[..])
         == GibbsSweep(rbm.Model(), Joint(old(visible[..]), old(hidden[..])), d, sigma)
  {
    SampleHiddenLayer(rbm, visible, hidden, d.hiddenDraws, sigma);
    SampleVisibleLayer(rbm, hidden, visible, d.visibleDraws, sigma);
  }
}
