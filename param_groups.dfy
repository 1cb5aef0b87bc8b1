/** Layerwise learning-rate decay: the parameter groups handed to the optimizer.

    A parameter is identified by its name. The model is seen through the three
    name lists the grouping reads: the model's own `named_parameters`, the
    relative names of the embeddings sub-module, and the relative names of each
    encoder layer, bottom (nearest the input) to top. */
module ParamGroups {
  import opened ParamNames

  datatype Option<T> = None | Some(value: T)

  /** One optimizer parameter group. `lr` is `None` when the group has no "lr"
      entry, so that the optimizer's default learning rate applies. */
  datatype Group = Group(params: seq<string>, weightDecay: real, lr: Option<real>)

  /** The parts of a model that the grouping inspects. */
  datatype Model = Model(namedParameters: seq<string>, embeddings: seq<string>, encoderLayers: seq<seq<string>>)

  /** `[model.model.embeddings] + list(model.model.encoder.layer)`, bottom-up. */
  function Layers(m: Model): (ls: seq<seq<string>>)
    ensures |ls| == |m.encoderLayers| + 1 && ls[0] == m.embeddings
  {
    [m.embeddings] + m.encoderLayers
  }

  // ---------------------------------------------------------------------------
  // List comprehensions with a name condition
  // ---------------------------------------------------------------------------

  /** `[p for n, p in xs if keep(n)]`. */
  function Filter(xs: seq<string>, keep: string -> bool): (r: seq<string>)
    ensures |r| <= |xs|
    ensures forall x {:trigger x in r} :: x in r <==> x in xs && keep(x)
  {
    if xs == [] then []
    else if keep(xs[0]) then [xs[0]] + Filter(xs[1..], keep)
    else Filter(xs[1..], keep)
  }

  /** The negated condition, `not keep(n)`. */
  function Not(keep: string -> bool): string -> bool
  {
    x => !keep(x)
  }

  /** A kept name occurs in the result exactly as often as in the input. */
  lemma {:induction false} FilterCount(xs: seq<string>, keep: string -> bool, x: string)
    ensures multiset(Filter(xs, keep))[x] == if keep(x) then multiset(xs)[x] else 0
  {
    if xs != [] {
      FilterCount(xs[1..], keep, x);
      assert xs == [xs[0]] + xs[1..];
    }
  }

  /** A condition and its negation split a list: every element lands in exactly one part. */
  lemma FilterPartition(xs: seq<string>, keep: string -> bool)
    ensures multiset(Filter(xs, keep)) + multiset(Filter(xs, Not(keep))) == multiset(xs)
  {
    forall x ensures (multiset(Filter(xs, keep)) + multiset(Filter(xs, Not(keep))))[x] == multiset(xs)[x] {
      FilterCount(xs, keep, x);
      FilterCount(xs, Not(keep), x);
    }
  }

  // ---------------------------------------------------------------------------
  // Decay / no-decay pairs
  // ---------------------------------------------------------------------------

  /** The two groups built from one list of names at one learning rate: the
      decay group first, then the no-decay group. */
  function DecayPair(xs: seq<string>, weightDecay: real, lr: real): seq<Group>
  {
    [Group(Filter(xs, Not(NoDecay)), weightDecay, Some(lr)),
     Group(Filter(xs, NoDecay), 0.0, Some(lr))]
  }

  /** The two halves of a pair, written out. */
  lemma DecayPairAt(xs: seq<string>, weightDecay: real, lr: real)
    ensures DecayPair(xs, weightDecay, lr)[0] == Group(Filter(xs, Not(NoDecay)), weightDecay, Some(lr))
    ensures DecayPair(xs, weightDecay, lr)[1] == Group(Filter(xs, NoDecay), 0.0, Some(lr))
  {
  }

  /** A pair partitions its source list by the no-decay patterns; only the
      decay group carries weight decay; both share the learning rate. */
  lemma DecayPairPartition(xs: seq<string>, weightDecay: real, lr: real)
    ensures var g := DecayPair(xs, weightDecay, lr);
      && |g| == 2
      && multiset(g[0].params) + multiset(g[1].params) == multiset(xs)
      && (forall x :: x in g[0].params <==> x in xs && !NoDecay(x))
      && (forall x :: x in g[1].params <==> x in xs && NoDecay(x))
      && g[0].weightDecay == weightDecay && g[1].weightDecay == 0.0
      && g[0].lr == g[1].lr == Some(lr)
  {
    FilterPartition(xs, NoDecay);
  }

  // ---------------------------------------------------------------------------
  // Geometric learning-rate schedule over the reversed layers
  // ---------------------------------------------------------------------------

  function Pow(d: real, k: nat): real
  {
    if k == 0 then 1.0 else d * Pow(d, k - 1)
  }

  /** The geometric schedule: `lr * decay^k`. */
  function ScheduledLr(lr: real, decay: real, k: nat): real
  {
    lr * Pow(decay, k)
  }

  /** The rate of the k-th layer visited: `lr` multiplied by `decay` k times,
      one multiplication per loop iteration. */
  function Rate(lr: real, decay: real, k: nat): real
  {
    if k == 0 then lr else Rate(lr, decay, k - 1) * decay
  }

  /** Repeated multiplication is the geometric schedule `lr * decay^k`. */
  lemma {:induction false} RateIsPower(lr: real, decay: real, k: nat)
    ensures Rate(lr, decay, k) == ScheduledLr(lr, decay, k)
  {
    if k > 0 {
      RateIsPower(lr, decay, k - 1);
      assert lr * Pow(decay, k - 1) * decay == lr * (decay * Pow(decay, k - 1));
    }
  }

  lemma ScaleDown(r: real, d: real)
    requires 0.0 <= r && 0.0 <= d <= 1.0
    ensures 0.0 <= r * d <= r
  {
  }

  lemma {:induction false} RateNonNegative(lr: real, decay: real, k: nat)
    requires 0.0 <= lr && 0.0 <= decay <= 1.0
    ensures 0.0 <= Rate(lr, decay, k)
  {
    if k > 0 {
      RateNonNegative(lr, decay, k - 1);
      ScaleDown(Rate(lr, decay, k - 1), decay);
    }
  }

  /** With `lr >= 0` and `0 <= decay <= 1` the rates never increase. */
  lemma {:induction false} RateAntitone(lr: real, decay: real, i: nat, j: nat)
    requires 0.0 <= lr && 0.0 <= decay <= 1.0 && i <= j
    ensures Rate(lr, decay, j) <= Rate(lr, decay, i)
    decreases j
  {
    if i < j {
      RateAntitone(lr, decay, i, j - 1);
      RateNonNegative(lr, decay, j - 1);
      var r := Rate(lr, decay, j - 1);
      ScaleDown(r, decay);
      assert Rate(lr, decay, j) == r * decay;
    }
  }

  /** `list.reverse()`. */
  function Reversed<T>(s: seq<T>): (r: seq<T>)
    ensures |r| == |s|
  {
    if s == [] then [] else Reversed(s[1..]) + [s[0]]
  }

  lemma {:induction false} ReversedAt<T>(s: seq<T>, k: nat)
    requires k < |s|
    ensures Reversed(s)[k] == s[|s| - 1 - k]
  {
    if k < |s| - 1 {
      ReversedAt(s[1..], k);
    }
  }

  /** The groups the layer loop has produced after visiting `layers`: one decay
      pair per layer, the k-th at rate `Rate(lr, decay, k)`. */
  function LayerPairs(layers: seq<seq<string>>, weightDecay: real, lr: real, decay: real): (r: seq<Group>)
    ensures |r| == 2 * |layers|
    decreases |layers|
  {
    if layers == [] then []
    else
      var k := |layers| - 1;
      LayerPairs(layers[..k], weightDecay, lr, decay) + DecayPair(layers[k], weightDecay, Rate(lr, decay, k))
  }

  /** Groups `2k` and `2k + 1` of the loop are the pair of layer `k`. */
  lemma {:induction false} LayerPairsAt(layers: seq<seq<string>>, weightDecay: real, lr: real, decay: real, k: nat)
    requires k < |layers|
    ensures LayerPairs(layers, weightDecay, lr, decay)[2 * k] == DecayPair(layers[k], weightDecay, Rate(lr, decay, k))[0]
    ensures LayerPairs(layers, weightDecay, lr, decay)[2 * k + 1] == DecayPair(layers[k], weightDecay, Rate(lr, decay, k))[1]
    decreases |layers|
  {
    var n := |layers| - 1;
    var front := LayerPairs(layers[..n], weightDecay, lr, decay);
    var last := DecayPair(layers[n], weightDecay, Rate(lr, decay, n));
    assert LayerPairs(layers, weightDecay, lr, decay) == front + last;
    if k < n {
      LayerPairsAt(layers[..n], weightDecay, lr, decay, k);
      assert (front + last)[2 * k] == front[2 * k];
      assert (front + last)[2 * k + 1] == front[2 * k + 1];
    }
  }

  // ---------------------------------------------------------------------------
  // get_optimizer_grouped_parameters
  // ---------------------------------------------------------------------------

  /** The group list that get_optimizer_grouped_parameters returns: the head
      group, the pair of extra backbone parameters, then one pair per layer,
      top layer first. */
  function LayerwiseGroups(m: Model, layerwiseLr: real, decoderLr: real, layerwiseWeightDecay: real, layerwiseLrDecay: real): seq<Group>
  {
    [Group(Filter(m.namedParameters, IsHead), 0.0, Some(decoderLr))]
    + DecayPair(Filter(m.namedParameters, IsExtra), layerwiseWeightDecay, layerwiseLr)
    + LayerPairs(Reversed(Layers(m)), layerwiseWeightDecay, layerwiseLr, layerwiseLrDecay)
  }

  method GetOptimizerGroupedParameters(m: Model, layerwiseLr: real, decoderLr: real, layerwiseWeightDecay: real, layerwiseLrDecay: real)
    returns (groups: seq<Group>)
    ensures groups == LayerwiseGroups(m, layerwiseLr, decoderLr, layerwiseWeightDecay, layerwiseLrDecay)
  {
    // the head group
    groups := [Group(Filter(m.namedParameters, IsHead), 0.0, Some(decoderLr))];

    // the pair of extra backbone parameters
    var extraParams := Filter(m.namedParameters, IsExtra);
    groups := groups + [Group(Filter(extraParams, Not(NoDecay)), layerwiseWeightDecay, Some(layerwiseLr))];
    groups := groups + [Group(Filter(extraParams, NoDecay), 0.0, Some(layerwiseLr))];

    // one decay pair per layer, top layer first, each at the rate after the previous one
    var layers := Layers(m);
    layers := Reversed(layers);
    var lr := layerwiseLr;
    ghost var head := groups;
    for i := 0 to |layers|
      invariant groups == head + LayerPairs(layers[..i], layerwiseWeightDecay, layerwiseLr, layerwiseLrDecay)
      invariant lr == Rate(layerwiseLr, layerwiseLrDecay, i)
    {
      var pair := DecayPair(layers[i], layerwiseWeightDecay, lr);
      assert groups + pair == head + LayerPairs(layers[..i + 1], layerwiseWeightDecay, layerwiseLr, layerwiseLrDecay) by {
        LayerPairsSnoc(layers, layerwiseWeightDecay, layerwiseLr, layerwiseLrDecay, i);
        var done := LayerPairs(layers[..i], layerwiseWeightDecay, layerwiseLr, layerwiseLrDecay);
        assert (head + done) + pair == head + (done + pair);
      }
      groups := groups + pair;
      lr := lr * layerwiseLrDecay;
    }
    assert groups == LayerwiseGroups(m, layerwiseLr, decoderLr, layerwiseWeightDecay, layerwiseLrDecay) by {
      assert layers[..|layers|] == layers;
      assert head == [Group(Filter(m.namedParameters, IsHead), 0.0, Some(decoderLr))]
        + DecayPair(extraParams, layerwiseWeightDecay, layerwiseLr);
    }
  }

  /** One more iteration of the layer loop appends the pair of the next layer. */
  lemma LayerPairsSnoc(layers: seq<seq<string>>, weightDecay: real, lr: real, decay: real, i: nat)
    requires i < |layers|
    ensures LayerPairs(layers[..i + 1], weightDecay, lr, decay)
         == LayerPairs(layers[..i], weightDecay, lr, decay) + DecayPair(layers[i], weightDecay, Rate(lr, decay, i))
  {
    assert layers[..i + 1][..i] == layers[..i];
  }

  // ---------------------------------------------------------------------------
  // Properties of the layerwise grouping
  // ---------------------------------------------------------------------------

  /** Three groups before the loop and a pair per layer, embeddings included. */
  lemma GroupCount(m: Model, layerwiseLr: real, decoderLr: real, layerwiseWeightDecay: real, layerwiseLrDecay: real)
    ensures |LayerwiseGroups(m, layerwiseLr, decoderLr, layerwiseWeightDecay, layerwiseLrDecay)| == 3 + 2 * (|m.encoderLayers| + 1)
  {
  }

  /** The first group holds exactly the names without "model", each as often as
      in `named_parameters`, with no weight decay and the decoder learning rate. */
  lemma HeadGroup(m: Model, layerwiseLr: real, decoderLr: real, layerwiseWeightDecay: real, layerwiseLrDecay: real)
    ensures var g := LayerwiseGroups(m, layerwiseLr, decoderLr, layerwiseWeightDecay, layerwiseLrDecay);
      && g[0].weightDecay == 0.0 && g[0].lr == Some(decoderLr)
      && (forall x :: x in g[0].params <==> x in m.namedParameters && !Contains(x, "model"))
      && (forall x :: multiset(g[0].params)[x] == if Contains(x, "model") then 0 else multiset(m.namedParameters)[x])
  {
    forall x ensures multiset(Filter(m.namedParameters, IsHead))[x] == if Contains(x, "model") then 0 else multiset(m.namedParameters)[x] {
      FilterCount(m.namedParameters, IsHead, x);
    }
  }

  /** Groups 1 and 2 split the extra backbone parameters (those with "model"
      but neither "model.embeddings" nor "model.encoder.layer") into decay and
      no-decay, both at the base layerwise rate; none of them is in the head group. */
  lemma ExtraPair(m: Model, layerwiseLr: real, decoderLr: real, layerwiseWeightDecay: real, layerwiseLrDecay: real)
    ensures var g := LayerwiseGroups(m, layerwiseLr, decoderLr, layerwiseWeightDecay, layerwiseLrDecay);
      && multiset(g[1].params) + multiset(g[2].params) == multiset(Filter(m.namedParameters, IsExtra))
      && (forall x :: x in g[1].params || x in g[2].params <==>
            x in m.namedParameters && Contains(x, "model") && !Contains(x, "model.embeddings") && !Contains(x, "model.encoder.layer"))
      && (forall x :: x in g[2].params <==> x in m.namedParameters && IsExtra(x) && NoDecay(x))
      && (forall x :: x in g[0].params ==> x !in g[1].params && x !in g[2].params)
      && g[1].weightDecay == layerwiseWeightDecay && g[2].weightDecay == 0.0
      && g[1].lr == g[2].lr == Some(layerwiseLr)
  {
    var extra := Filter(m.namedParameters, IsExtra);
    DecayPairPartition(extra, layerwiseWeightDecay, layerwiseLr);
  }

  /** Every top-level name is in the head group, in the extra pair, or is owned
      by the embeddings or an encoder layer (and so reaches the groups only
      through the per-layer lists), and in exactly one of these three places. */
  lemma TopLevelNamesClassified(m: Model, layerwiseLr: real, decoderLr: real, layerwiseWeightDecay: real, layerwiseLrDecay: real)
    ensures var g := LayerwiseGroups(m, layerwiseLr, decoderLr, layerwiseWeightDecay, layerwiseLrDecay);
      forall x :: x in m.namedParameters ==>
        var inHead := x in g[0].params;
        var inExtra := x in g[1].params || x in g[2].params;
        && (inHead || inExtra || IsLayerOwned(x))
        && !(inHead && inExtra) && !(inHead && IsLayerOwned(x)) && !(inExtra && IsLayerOwned(x))
  {
    ExtraPair(m, layerwiseLr, decoderLr, layerwiseWeightDecay, layerwiseLrDecay);
    forall x | x in m.namedParameters {
      Classification(x);
    }
  }

  /** The k-th pair after the extra pair comes from element k of the reversed
      layer list, i.e. element `L - k` of `[embeddings] + layers` (the
      embeddings when k = L), at the rate reached
      after k multiplications by the decay factor. */
  lemma LayerPair(m: Model, layerwiseLr: real, decoderLr: real, layerwiseWeightDecay: real, layerwiseLrDecay: real, k: nat)
    requires k < |m.encoderLayers| + 1
    ensures var g := LayerwiseGroups(m, layerwiseLr, decoderLr, layerwiseWeightDecay, layerwiseLrDecay);
      var layer := Layers(m)[|m.encoderLayers| - k];
      var rate := Rate(layerwiseLr, layerwiseLrDecay, k);
      && g[3 + 2 * k] == Group(Filter(layer, Not(NoDecay)), layerwiseWeightDecay, Some(rate))
      && g[4 + 2 * k] == Group(Filter(layer, NoDecay), 0.0, Some(rate))
  {
    var g := LayerwiseGroups(m, layerwiseLr, decoderLr, layerwiseWeightDecay, layerwiseLrDecay);
    var rev := Reversed(Layers(m));
    var rate := Rate(layerwiseLr, layerwiseLrDecay, k);
    assert rev[k] == Layers(m)[|m.encoderLayers| - k] by {
      ReversedAt(Layers(m), k);
    }
    assert g[3 + 2 * k] == DecayPair(rev[k], layerwiseWeightDecay, rate)[0] by {
      LoopGroup(m, layerwiseLr, decoderLr, layerwiseWeightDecay, layerwiseLrDecay, 2 * k);
      LayerPairsAt(rev, layerwiseWeightDecay, layerwiseLr, layerwiseLrDecay, k);
    }
    assert g[4 + 2 * k] == DecayPair(rev[k], layerwiseWeightDecay, rate)[1] by {
      LoopGroup(m, layerwiseLr, decoderLr, layerwiseWeightDecay, layerwiseLrDecay, 2 * k + 1);
      LayerPairsAt(rev, layerwiseWeightDecay, layerwiseLr, layerwiseLrDecay, k);
    }
    DecayPairAt(rev[k], layerwiseWeightDecay, rate);
  }

  /** From position 3 on, the groups are those of the layer loop. */
  lemma LoopGroup(m: Model, layerwiseLr: real, decoderLr: real, layerwiseWeightDecay: real, layerwiseLrDecay: real, j: nat)
    requires j < 2 * (|m.encoderLayers| + 1)
    ensures LayerwiseGroups(m, layerwiseLr, decoderLr, layerwiseWeightDecay, layerwiseLrDecay)[3 + j]
         == LayerPairs(Reversed(Layers(m)), layerwiseWeightDecay, layerwiseLr, layerwiseLrDecay)[j]
  {
    var front := [Group(Filter(m.namedParameters, IsHead), 0.0, Some(decoderLr))]
      + DecayPair(Filter(m.namedParameters, IsExtra), layerwiseWeightDecay, layerwiseLr);
    var loop := LayerPairs(Reversed(Layers(m)), layerwiseWeightDecay, layerwiseLr, layerwiseLrDecay);
    assert LayerwiseGroups(m, layerwiseLr, decoderLr, layerwiseWeightDecay, layerwiseLrDecay) == front + loop;
  }

  /** The k-th layer pair partitions its layer's names: each lands in exactly
      one of the two groups, in the no-decay one iff it matches a no-decay pattern. */
  lemma LayerPairPartition(m: Model, layerwiseLr: real, decoderLr: real, layerwiseWeightDecay: real, layerwiseLrDecay: real, k: nat)
    requires k < |m.encoderLayers| + 1
    ensures var g := LayerwiseGroups(m, layerwiseLr, decoderLr, layerwiseWeightDecay, layerwiseLrDecay);
      var layer := Layers(m)[|m.encoderLayers| - k];
      && multiset(g[3 + 2 * k].params) + multiset(g[4 + 2 * k].params) == multiset(layer)
      && (forall x :: x in g[4 + 2 * k].params <==> x in layer && NoDecay(x))
      && (forall x :: x in g[3 + 2 * k].params <==> x in layer && !NoDecay(x))
  {
    LayerPair(m, layerwiseLr, decoderLr, layerwiseWeightDecay, layerwiseLrDecay, k);
    FilterPartition(Layers(m)[|m.encoderLayers| - k], NoDecay);
  }

  /** Both groups of the k-th layer pair have learning rate `layerwise_lr * decay^k`. */
  lemma LayerLrSchedule(m: Model, layerwiseLr: real, decoderLr: real, layerwiseWeightDecay: real, layerwiseLrDecay: real, k: nat)
    requires k < |m.encoderLayers| + 1
    ensures var g := LayerwiseGroups(m, layerwiseLr, decoderLr, layerwiseWeightDecay, layerwiseLrDecay);
      g[3 + 2 * k].lr == g[4 + 2 * k].lr == Some(ScheduledLr(layerwiseLr, layerwiseLrDecay, k))
  {
    LayerPair(m, layerwiseLr, decoderLr, layerwiseWeightDecay, layerwiseLrDecay, k);
    RateIsPower(layerwiseLr, layerwiseLrDecay, k);
  }

  /** The last pair is always the embeddings, at the smallest rate. */
  lemma EmbeddingsLast(m: Model, layerwiseLr: real, decoderLr: real, layerwiseWeightDecay: real, layerwiseLrDecay: real)
    ensures var g := LayerwiseGroups(m, layerwiseLr, decoderLr, layerwiseWeightDecay, layerwiseLrDecay);
      var rate := ScheduledLr(layerwiseLr, layerwiseLrDecay, |m.encoderLayers|);
      && g[|g| - 2] == Group(Filter(m.embeddings, Not(NoDecay)), layerwiseWeightDecay, Some(rate))
      && g[|g| - 1] == Group(Filter(m.embeddings, NoDecay), 0.0, Some(rate))
  {
    var g := LayerwiseGroups(m, layerwiseLr, decoderLr, layerwiseWeightDecay, layerwiseLrDecay);
    GroupCount(m, layerwiseLr, decoderLr, layerwiseWeightDecay, layerwiseLrDecay);
    LayerPair(m, layerwiseLr, decoderLr, layerwiseWeightDecay, layerwiseLrDecay, |m.encoderLayers|);
    LayerLrSchedule(m, layerwiseLr, decoderLr, layerwiseWeightDecay, layerwiseLrDecay, |m.encoderLayers|);
    assert Layers(m)[|m.encoderLayers| - |m.encoderLayers|] == m.embeddings;
  }

  /** The index of the decay pair that group `i` belongs to, counting the
      extra pair and the top layer's pair both as 0. */
  function PairIndex(i: nat): nat
  {
    if i < 3 then 0 else (i - 3) / 2
  }

  /** Which half of its pair group `i` is: 0 for the decay group (odd
      positions), 1 for the no-decay group (even positions). */
  function Half(i: nat): nat
  {
    if i % 2 == 1 then 0 else 1
  }

  /** The list that group `i` (after the head) is filtered from. */
  function SourceOf(m: Model, i: nat): seq<string>
  {
    if i < 3 then Filter(m.namedParameters, IsExtra)
    else if PairIndex(i) <= |m.encoderLayers| then Layers(m)[|m.encoderLayers| - PairIndex(i)]
    else []
  }

  /** Every group after the head is the decay (odd position) or no-decay (even
      position) half of the pair built from its source list at its pair's rate. */
  lemma GroupAt(m: Model, layerwiseLr: real, decoderLr: real, layerwiseWeightDecay: real, layerwiseLrDecay: real, i: nat)
    requires 1 <= i < 3 + 2 * (|m.encoderLayers| + 1)
    ensures LayerwiseGroups(m, layerwiseLr, decoderLr, layerwiseWeightDecay, layerwiseLrDecay)[i]
         == DecayPair(SourceOf(m, i), layerwiseWeightDecay, Rate(layerwiseLr, layerwiseLrDecay, PairIndex(i)))[Half(i)]
  {
    if i < 3 {
      GroupAtExtra(m, layerwiseLr, decoderLr, layerwiseWeightDecay, layerwiseLrDecay, i);
    } else {
      GroupAtLayer(m, layerwiseLr, decoderLr, layerwiseWeightDecay, layerwiseLrDecay, i);
    }
  }

  /** Groups 1 and 2 are the pair of the extra backbone names. */
  lemma GroupAtExtra(m: Model, layerwiseLr: real, decoderLr: real, layerwiseWeightDecay: real, layerwiseLrDecay: real, i: nat)
    requires 1 <= i < 3
    ensures LayerwiseGroups(m, layerwiseLr, decoderLr, layerwiseWeightDecay, layerwiseLrDecay)[i]
         == DecayPair(SourceOf(m, i), layerwiseWeightDecay, Rate(layerwiseLr, layerwiseLrDecay, PairIndex(i)))[Half(i)]
  {
    var g := LayerwiseGroups(m, layerwiseLr, decoderLr, layerwiseWeightDecay, layerwiseLrDecay);
    var extra := DecayPair(Filter(m.namedParameters, IsExtra), layerwiseWeightDecay, layerwiseLr);
    assert g[i] == extra[i - 1] by {
      var front := [Group(Filter(m.namedParameters, IsHead), 0.0, Some(decoderLr))] + extra;
      var loop := LayerPairs(Reversed(Layers(m)), layerwiseWeightDecay, layerwiseLr, layerwiseLrDecay);
      assert g == front + loop;
      assert g[i] == front[i];
    }
    assert PairIndex(i) == 0 && Rate(layerwiseLr, layerwiseLrDecay, 0) == layerwiseLr;
    assert SourceOf(m, i) == Filter(m.namedParameters, IsExtra);
    if i == 1 {
      assert Half(1) == 0;
    } else {
      assert Half(2) == 1;
    }
  }

  /** A group from position 3 on is a half of the pair of its layer. */
  lemma GroupAtLayer(m: Model, layerwiseLr: real, decoderLr: real, layerwiseWeightDecay: real, layerwiseLrDecay: real, i: nat)
    requires 3 <= i < 3 + 2 * (|m.encoderLayers| + 1)
    ensures LayerwiseGroups(m, layerwiseLr, decoderLr, layerwiseWeightDecay, layerwiseLrDecay)[i]
         == DecayPair(SourceOf(m, i), layerwiseWeightDecay, Rate(layerwiseLr, layerwiseLrDecay, PairIndex(i)))[Half(i)]
  {
    var k := PairIndex(i);
    assert i == 3 + 2 * k + Half(i) by {
      PairPosition(i);
    }
    var layer := Layers(m)[|m.encoderLayers| - k];
    assert SourceOf(m, i) == layer;
    LayerPair(m, layerwiseLr, decoderLr, layerwiseWeightDecay, layerwiseLrDecay, k);
    DecayPairAt(layer, layerwiseWeightDecay, Rate(layerwiseLr, layerwiseLrDecay, k));
  }

  /** Position `i >= 3` is half `Half(i)` of pair `PairIndex(i)`. */
  lemma PairPosition(i: nat)
    requires 3 <= i
    ensures i == 3 + 2 * PairIndex(i) + Half(i)
  {
  }

  /** Weight decay by position: the head group and every no-decay group (even
      positions) have 0.0 and hold only no-decay names; every decay group (odd
      positions) has `layerwise_weight_decay` and holds no no-decay name. */
  lemma WeightDecayPerGroup(m: Model, layerwiseLr: real, decoderLr: real, layerwiseWeightDecay: real, layerwiseLrDecay: real)
    ensures var g := LayerwiseGroups(m, layerwiseLr, decoderLr, layerwiseWeightDecay, layerwiseLrDecay);
      && g[0].weightDecay == 0.0
      && (forall i :: 1 <= i < |g| && i % 2 == 1 ==>
            g[i].weightDecay == layerwiseWeightDecay && forall x :: x in g[i].params ==> !NoDecay(x))
      && (forall i :: 1 <= i < |g| && i % 2 == 0 ==>
            g[i].weightDecay == 0.0 && forall x :: x in g[i].params ==> NoDecay(x))
  {
    var g := LayerwiseGroups(m, layerwiseLr, decoderLr, layerwiseWeightDecay, layerwiseLrDecay);
    GroupCount(m, layerwiseLr, decoderLr, layerwiseWeightDecay, layerwiseLrDecay);
    forall i | 1 <= i < |g|
      ensures i % 2 == 1 ==> g[i].weightDecay == layerwiseWeightDecay && forall x :: x in g[i].params ==> !NoDecay(x)
      ensures i % 2 == 0 ==> g[i].weightDecay == 0.0 && forall x :: x in g[i].params ==> NoDecay(x)
    {
      var pair := DecayPair(SourceOf(m, i), layerwiseWeightDecay, Rate(layerwiseLr, layerwiseLrDecay, PairIndex(i)));
      assert g[i] == pair[Half(i)] by {
        GroupAt(m, layerwiseLr, decoderLr, layerwiseWeightDecay, layerwiseLrDecay, i);
      }
      DecayPairAt(SourceOf(m, i), layerwiseWeightDecay, Rate(layerwiseLr, layerwiseLrDecay, PairIndex(i)));
    }
  }

  /** Every group after the head has the rate of its pair. */
  lemma LrAt(m: Model, layerwiseLr: real, decoderLr: real, layerwiseWeightDecay: real, layerwiseLrDecay: real, i: nat)
    requires 1 <= i < 3 + 2 * (|m.encoderLayers| + 1)
    ensures LayerwiseGroups(m, layerwiseLr, decoderLr, layerwiseWeightDecay, layerwiseLrDecay)[i].lr
         == Some(Rate(layerwiseLr, layerwiseLrDecay, PairIndex(i)))
  {
    GroupAt(m, layerwiseLr, decoderLr, layerwiseWeightDecay, layerwiseLrDecay, i);
  }

  /** With a non-negative base rate and a decay factor in [0, 1], learning rates
      never increase along the list after the head group. */
  lemma LrNonIncreasing(m: Model, layerwiseLr: real, decoderLr: real, layerwiseWeightDecay: real, layerwiseLrDecay: real)
    requires 0.0 <= layerwiseLr && 0.0 <= layerwiseLrDecay <= 1.0
    ensures var g := LayerwiseGroups(m, layerwiseLr, decoderLr, layerwiseWeightDecay, layerwiseLrDecay);
      forall i, j :: 1 <= i <= j < |g| ==> g[i].lr.Some? && g[j].lr.Some? && g[j].lr.value <= g[i].lr.value
  {
    var g := LayerwiseGroups(m, layerwiseLr, decoderLr, layerwiseWeightDecay, layerwiseLrDecay);
    forall i, j | 1 <= i <= j < |g|
      ensures g[i].lr.Some? && g[j].lr.Some? && g[j].lr.value <= g[i].lr.value
    {
      LrAt(m, layerwiseLr, decoderLr, layerwiseWeightDecay, layerwiseLrDecay, i);
      LrAt(m, layerwiseLr, decoderLr, layerwiseWeightDecay, layerwiseLrDecay, j);
      RateAntitone(layerwiseLr, layerwiseLrDecay, PairIndex(i), PairIndex(j));
    }
  }

  // ---------------------------------------------------------------------------
  // No parameter lost or duplicated
  // ---------------------------------------------------------------------------

  /** All names of a group list, with multiplicity. */
  function GroupsBag(gs: seq<Group>): multiset<string>
  {
    if gs == [] then multiset{} else multiset(gs[0].params) + GroupsBag(gs[1..])
  }

  /** All names of a list of layers, with multiplicity. */
  function LayersBag(ls: seq<seq<string>>): multiset<string>
  {
    if ls == [] then multiset{} else multiset(ls[0]) + LayersBag(ls[1..])
  }

  lemma {:induction false} GroupsBagAppend(a: seq<Group>, b: seq<Group>)
    ensures GroupsBag(a + b) == GroupsBag(a) + GroupsBag(b)
  {
    if a == [] {
      assert a + b == b;
    } else {
      assert (a + b)[0] == a[0] && (a + b)[1..] == a[1..] + b;
      GroupsBagAppend(a[1..], b);
    }
  }

  lemma {:induction false} LayersBagReversed(ls: seq<seq<string>>)
    ensures LayersBag(Reversed(ls)) == LayersBag(ls)
  {
    if ls != [] {
      LayersBagReversed(ls[1..]);
      LayersBagSnoc(Reversed(ls[1..]), ls[0]);
    }
  }

  lemma {:induction false} LayersBagSnoc(ls: seq<seq<string>>, l: seq<string>)
    ensures LayersBag(ls + [l]) == LayersBag(ls) + multiset(l)
  {
    if ls == [] {
      assert ls + [l] == [l];
      assert [l][1..] == [];
    } else {
      assert (ls + [l])[0] == ls[0] && (ls + [l])[1..] == ls[1..] + [l];
      LayersBagSnoc(ls[1..], l);
    }
  }

  /** Both groups of a pair together hold the pair's source list. */
  lemma DecayPairBag(xs: seq<string>, weightDecay: real, lr: real)
    ensures GroupsBag(DecayPair(xs, weightDecay, lr)) == multiset(xs)
  {
    var pair := DecayPair(xs, weightDecay, lr);
    assert pair[1..][0] == pair[1] && pair[1..][1..] == [];
    assert GroupsBag(pair[1..]) == multiset(pair[1].params) + GroupsBag([]);
    FilterPartition(xs, NoDecay);
  }

  /** The layer loop puts every name of every layer in exactly one group. */
  lemma {:induction false} LayerPairsBag(layers: seq<seq<string>>, weightDecay: real, lr: real, decay: real)
    ensures GroupsBag(LayerPairs(layers, weightDecay, lr, decay)) == LayersBag(layers)
    decreases |layers|
  {
    if layers != [] {
      var n := |layers| - 1;
      assert layers[..n] + [layers[n]] == layers;
      var front := LayerPairs(layers[..n], weightDecay, lr, decay);
      var pair := DecayPair(layers[n], weightDecay, Rate(lr, decay, n));
      calc {
        GroupsBag(LayerPairs(layers, weightDecay, lr, decay));
        GroupsBag(front + pair);
        { GroupsBagAppend(front, pair); }
        GroupsBag(front) + GroupsBag(pair);
        { LayerPairsBag(layers[..n], weightDecay, lr, decay);
          DecayPairBag(layers[n], weightDecay, Rate(lr, decay, n)); }
        LayersBag(layers[..n]) + multiset(layers[n]);
        { LayersBagSnoc(layers[..n], layers[n]); }
        LayersBag(layers);
      }
    }
  }

  /** Every head, extra and layer name appears in exactly one group, as often
      as in its source list, and nothing else appears. */
  lemma AllParamsAccounted(m: Model, layerwiseLr: real, decoderLr: real, layerwiseWeightDecay: real, layerwiseLrDecay: real)
    ensures GroupsBag(LayerwiseGroups(m, layerwiseLr, decoderLr, layerwiseWeightDecay, layerwiseLrDecay))
         == multiset(Filter(m.namedParameters, IsHead)) + multiset(Filter(m.namedParameters, IsExtra)) + LayersBag(Layers(m))
  {
    var head := [Group(Filter(m.namedParameters, IsHead), 0.0, Some(decoderLr))];
    var extra := Filter(m.namedParameters, IsExtra);
    var pair := DecayPair(extra, layerwiseWeightDecay, layerwiseLr);
    var loop := LayerPairs(Reversed(Layers(m)), layerwiseWeightDecay, layerwiseLr, layerwiseLrDecay);
    GroupsBagAppend(head + pair, loop);
    GroupsBagAppend(head, pair);
    DecayPairBag(extra, layerwiseWeightDecay, layerwiseLr);
    assert GroupsBag(head) == multiset(head[0].params) by {
      assert head[1..] == [];
    }
    LayerPairsBag(Reversed(Layers(m)), layerwiseWeightDecay, layerwiseLr, layerwiseLrDecay);
    LayersBagReversed(Layers(m));
  }
}
