/** The optimizer factory: which parameter groups the optimizer receives, its
    default learning rate, and the total number of optimizer steps that the
    warmup-then-linear-decay schedule is built for. The optimizer and the
    schedule themselves belong to the training framework and are not modelled. */
module OptimizerFactory {
  import opened ParamNames
  import opened ParamGroups

  /** The configuration entries the factory reads. */
  datatype Config = Config(
    learningRate: real,
    decoderLr: real,
    weightDecay: real,
    epochs: int,
    trainBatchSize: int,
    nAccumulate: int)

  /** Python's `ZeroDivisionError`, the one failure of the factory's own code
      (failures inside the optimizer and schedule libraries are not modelled). */
  datatype Error = ZeroDivision

  datatype Result<T> = Ok(value: T) | Err(error: Error)

  /** The decay factor get_optimizer_grouped_parameters uses when none is passed. */
  const DEFAULT_LAYERWISE_LR_DECAY: real := 0.9

  /** What the optimizer and the schedule are built from: the parameter groups,
      the optimizer's default learning rate, and the total step count. */
  datatype Setup = Setup(groups: seq<Group>, lr: real, numTrainingSteps: int)

  /** The non-layerwise branch: a decay group and a no-decay group that
      together hold every named parameter exactly as often as it occurs. Neither
      group names a learning rate, so both use the optimizer's default. */
  function FlatGroups(named: seq<string>, weightDecay: real): (r: seq<Group>)
    ensures |r| == 2
    ensures multiset(r[0].params) + multiset(r[1].params) == multiset(named)
    ensures GroupsBag(r) == multiset(named)
    ensures forall x :: x in r[0].params <==> x in named && !NoDecay(x)
    ensures forall x :: x in r[1].params <==> x in named && NoDecay(x)
    ensures r[0].weightDecay == weightDecay && r[1].weightDecay == 0.0
    ensures r[0].lr.None? && r[1].lr.None?
  {
    var r := [Group(Filter(named, Not(NoDecay)), weightDecay, None),
              Group(Filter(named, NoDecay), 0.0, None)];
    FilterPartition(named, NoDecay);
    assert r[1..][0] == r[1] && r[1..][1..] == [];
    assert GroupsBag(r[1..]) == multiset(r[1].params) + GroupsBag([]);
    r
  }

  /** Python's `a // b`: the quotient rounded toward negative infinity, or
      `ZeroDivisionError` when `b` is 0. Dafny's `/` rounds so that the
      remainder is non-negative, which differs when `b` is negative. */
  function FloorDiv(a: int, b: int): (r: Result<int>)
    ensures r.Err? <==> b == 0
    ensures r.Ok? && b > 0 ==> b * r.value <= a < b * r.value + b
    ensures r.Ok? && b < 0 ==> b * r.value + b < a <= b * r.value
  {
    if b == 0 then Err(ZeroDivision)
    else if b > 0 then Ok(a / b)
    else Ok((-a) / (-b))
  }

  /** Python floors a negative quotient: `7 // -2 == -4` (Dafny's own `7 / -2`
      is -3, which is why FloorDiv does not use `/` directly for a negative divisor). */
  lemma FloorDivNegativeDivisor()
    ensures FloorDiv(7, -2) == Ok(-4)
  {
  }

  /** `(train_dataset_size * epochs) // (train_batch_size * n_accumulate)`:
      the number of whole accumulated batches that fit in all epochs. */
  function NumTrainingSteps(trainDatasetSize: int, config: Config): (r: Result<int>)
    ensures r.Err? <==> config.trainBatchSize * config.nAccumulate == 0
    ensures r.Ok? && config.trainBatchSize * config.nAccumulate > 0 ==>
      var perStep := config.trainBatchSize * config.nAccumulate;
      perStep * r.value <= trainDatasetSize * config.epochs < perStep * (r.value + 1)
    ensures r.Ok? && config.trainBatchSize * config.nAccumulate < 0 ==>
      var perStep := config.trainBatchSize * config.nAccumulate;
      perStep * (r.value + 1) < trainDatasetSize * config.epochs <= perStep * r.value
  {
    FloorDiv(trainDatasetSize * config.epochs, config.trainBatchSize * config.nAccumulate)
  }

  /** 1000 examples, 3 epochs, batches of 10 and 2 accumulation steps give 150 steps. */
  lemma NumTrainingStepsExample(learningRate: real, decoderLr: real, weightDecay: real)
    ensures NumTrainingSteps(1000, Config(learningRate, decoderLr, weightDecay, 3, 10, 2)) == Ok(150)
  {
  }

  /** optimizer_setup: the groups of the selected branch, the configured
      learning rate as the optimizer's default, and the step count; the
      factory's own code fails exactly when the step count divides by zero. */
  method OptimizerSetup(m: Model, config: Config, trainDatasetSize: int, layerwise: bool) returns (r: Result<Setup>)
    ensures r.Err? <==> config.trainBatchSize * config.nAccumulate == 0
    ensures r.Ok? && layerwise ==>
      r.value.groups == LayerwiseGroups(m, config.learningRate, config.decoderLr, config.weightDecay, DEFAULT_LAYERWISE_LR_DECAY)
    ensures r.Ok? && !layerwise ==> r.value.groups == FlatGroups(m.namedParameters, config.weightDecay)
    ensures r.Ok? ==> r.value.lr == config.learningRate
    ensures r.Ok? ==> NumTrainingSteps(trainDatasetSize, config) == Ok(r.value.numTrainingSteps)
  {
    var optimizerParameters: seq<Group>;
    if layerwise {
      optimizerParameters := GetOptimizerGroupedParameters(
        m, config.learningRate, config.decoderLr, config.weightDecay, DEFAULT_LAYERWISE_LR_DECAY);
    } else {
      optimizerParameters := FlatGroups(m.namedParameters, config.weightDecay);
    }
    var steps := NumTrainingSteps(trainDatasetSize, config);
    if steps.Err? {
      return Err(steps.error);
    }
    r := Ok(Setup(optimizerParameters, config.learningRate, steps.value));
  }
}
