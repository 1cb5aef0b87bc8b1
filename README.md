# Parameter grouping for layerwise learning-rate decay

This project models the optimizer set-up of the FeedBack-Prize-3 training helpers in
`FeedBack-Prize-3/feedback_custom_funtions.py`. It covers three things. The first is
`get_optimizer_grouped_parameters`, which sorts a transformer's parameters by name into
optimizer groups. The second is the flat decay/no-decay split in `optimizer_setup`. The
third is the total-step formula that the warmup schedule is built from.

A parameter is identified by its name. A model is seen through three name lists:

- its top-level `named_parameters()` names;
- the relative names of its embeddings sub-module;
- the relative names of each encoder layer, bottom to top.

Python's `pat in name` on strings is `ParamNames.Contains`. It is checked against an
index-based definition. `any(nd in n for nd in no_decay)` is `ParamNames.NoDecay`, over the
patterns `"bias"` and `"LayerNorm.weight"`.

Files:

- `param_names.dfy` (module `ParamNames`): substring containment and the four name classes.
  The classes are no-decay, head, extra backbone, and owned by the embeddings or an encoder layer.
- `param_groups.dfy` (module `ParamGroups`): the groups and the list comprehensions that fill
  them. `GetOptimizerGroupedParameters` is a method. It grows the group list, reverses the
  local layer list and multiplies `lr` by the decay factor in a loop, as the source does. It
  is proved equal to the specification function `LayerwiseGroups`, and the properties are
  lemmas about that function.
- `optimizer_factory.dfy` (module `OptimizerFactory`): the flat two-group split, Python's
  floor division, the step count and `optimizer_setup` itself.

Learning rates are Dafny `real`. The loop computes the k-th rate by k successive
multiplications (`Rate`). `RateIsPower` proves that this equals `layerwise_lr * decay^k`
(`ScheduledLr`).

## Model

| member | source | states |
|---|---|---|
| `ParamNames.ContainsIff` | FeedBack-Prize-3/feedback_custom_funtions.py:121 | `Contains(s, pat)` holds exactly when `pat` occurs at some index of `s`, in both directions; this is Python's substring `in` |
| `ParamNames.NoDecayIff` | FeedBack-Prize-3/feedback_custom_funtions.py:119 | a name is exempt from weight decay iff it contains `"bias"` or `"LayerNorm.weight"` |
| `ParamNames.ContainsPrefix` | FeedBack-Prize-3/feedback_custom_funtions.py:127 | a name that contains a pattern contains every prefix of it (so `"model.embeddings"` and `"model.encoder.layer"` names contain `"model"`) |
| `ParamNames.Classification` | FeedBack-Prize-3/feedback_custom_funtions.py:121-127 | every name is exactly one of head (no `"model"`), extra (`"model"` but neither `"model.embeddings"` nor `"model.encoder.layer"`), or owned by the embeddings or a layer |
| `ParamGroups.Layers` | FeedBack-Prize-3/feedback_custom_funtions.py:138 | the layer list has one entry per encoder layer plus the embeddings, and the embeddings come first |
| `ParamGroups.Filter` | FeedBack-Prize-3/feedback_custom_funtions.py:142 | a comprehension `[p for n, p in xs if keep(n)]` keeps exactly the elements of `xs` that satisfy `keep` and is no longer than `xs` |
| `ParamGroups.FilterCount` | FeedBack-Prize-3/feedback_custom_funtions.py:142 | a kept name occurs in the comprehension's result exactly as often as in the input; a dropped one does not occur |
| `ParamGroups.FilterPartition` | FeedBack-Prize-3/feedback_custom_funtions.py:128-135 | the comprehensions for a condition and its negation together hold the input exactly (multiset equality) |
| `ParamGroups.DecayPairPartition` | FeedBack-Prize-3/feedback_custom_funtions.py:142-149 | a decay/no-decay pair partitions its source: a name is in the no-decay group iff it matches a no-decay pattern, otherwise it is in the decay group. The decay group has the given weight decay and the no-decay group 0.0. Both have the pair's learning rate |
| `ParamGroups.RateIsPower` | FeedBack-Prize-3/feedback_custom_funtions.py:140-150 | multiplying `layerwise_lr` by the decay factor once per loop iteration gives `layerwise_lr * decay^k` after k iterations |
| `ParamGroups.RateNonNegative` | FeedBack-Prize-3/feedback_custom_funtions.py:140-150 | with `layerwise_lr >= 0` and `0 <= decay <= 1` every rate the loop reaches is non-negative |
| `ParamGroups.RateAntitone` | FeedBack-Prize-3/feedback_custom_funtions.py:117-150 | with `layerwise_lr >= 0` and `0 <= decay <= 1` (the default 0.9 included) the rate never increases from one layer to the next |
| `ParamGroups.ReversedAt` | FeedBack-Prize-3/feedback_custom_funtions.py:139 | after `layers.reverse()`, element k is the original element `n - 1 - k` |
| `ParamGroups.LayerPairs` | FeedBack-Prize-3/feedback_custom_funtions.py:141-150 | the layer loop adds exactly two groups per layer |
| `ParamGroups.LayerPairsAt` | FeedBack-Prize-3/feedback_custom_funtions.py:141-150 | groups 2k and 2k+1 of the loop are the decay and no-decay groups of the k-th visited layer, at the rate reached after k decays |
| `ParamGroups.GetOptimizerGroupedParameters` | FeedBack-Prize-3/feedback_custom_funtions.py:113-151 | the method returns the head group, then the extra pair, then one pair per layer from the top layer down to the embeddings. The loop keeps the groups built so far and the current `lr` in step with `LayerwiseGroups` |
| `ParamGroups.GroupCount` | FeedBack-Prize-3/feedback_custom_funtions.py:121-151 | the result has exactly `3 + 2 * (number of encoder layers + 1)` groups |
| `ParamGroups.HeadGroup` | FeedBack-Prize-3/feedback_custom_funtions.py:121-124 | group 0 holds exactly the top-level names without `"model"`, with their multiplicities, and has weight decay 0.0 and learning rate `decoder_lr` |
| `ParamGroups.ExtraPair` | FeedBack-Prize-3/feedback_custom_funtions.py:127-135 | groups 1 and 2 partition the extra backbone names: those with `"model"` but neither `"model.embeddings"` nor `"model.encoder.layer"`. Group 2 holds exactly the no-decay ones, and both groups have rate `layerwise_lr`. Group 1 has `layerwise_weight_decay` and group 2 has 0.0. No name of the head group is in either |
| `ParamGroups.TopLevelNamesClassified` | FeedBack-Prize-3/feedback_custom_funtions.py:121-135 | every top-level name is in the head group, in the extra pair, or owned by the embeddings or a layer, and in exactly one of the three |
| `ParamGroups.LayerPair` | FeedBack-Prize-3/feedback_custom_funtions.py:138-150 | the k-th pair after the extra pair comes from element k of the reversed layer list, which is element `L - k` of `[embeddings] + layers` (the embeddings when k = L). Its decay group has `layerwise_weight_decay`, its no-decay group 0.0, and both have the rate after k decays |
| `ParamGroups.LayerPairPartition` | FeedBack-Prize-3/feedback_custom_funtions.py:142-149 | the k-th layer pair holds exactly that layer's names. A name is in the no-decay group iff it matches a no-decay pattern |
| `ParamGroups.LayerLrSchedule` | FeedBack-Prize-3/feedback_custom_funtions.py:140-150 | both groups of the k-th layer pair have learning rate `layerwise_lr * layerwise_lr_decay^k` |
| `ParamGroups.EmbeddingsLast` | FeedBack-Prize-3/feedback_custom_funtions.py:138-141 | the last pair is always built from the embeddings, at `layerwise_lr * decay^(number of encoder layers)` |
| `ParamGroups.GroupAtLayer` | FeedBack-Prize-3/feedback_custom_funtions.py:138-150 | every group from position 3 on is the decay (odd position) or no-decay (even position) half of the pair of its layer, at that pair's rate |
| `ParamGroups.GroupAt` | FeedBack-Prize-3/feedback_custom_funtions.py:128-150 | every group after the head is one half of a decay pair. It is the decay half at odd positions and the no-decay half at even positions. The pair is built from its source list (the extra names, or its layer) at the rate of its pair |
| `ParamGroups.WeightDecayPerGroup` | FeedBack-Prize-3/feedback_custom_funtions.py:121-149 | the head group has weight decay 0.0. After it, every no-decay group (even positions) has 0.0 and holds only no-decay names, and every decay group (odd positions) has `layerwise_weight_decay` and holds no no-decay name |
| `ParamGroups.LrAt` | FeedBack-Prize-3/feedback_custom_funtions.py:128-150 | every group after the head has a learning rate, the one of its pair |
| `ParamGroups.LrNonIncreasing` | FeedBack-Prize-3/feedback_custom_funtions.py:117-150 | with `layerwise_lr >= 0` and `0 <= decay <= 1`, learning rates never increase along the list after the head group |
| `ParamGroups.DecayPairBag` | FeedBack-Prize-3/feedback_custom_funtions.py:142-149 | the two groups of a pair together hold their source list exactly |
| `ParamGroups.LayersBagReversed` | FeedBack-Prize-3/feedback_custom_funtions.py:139 | reversing the layer list loses and duplicates no name |
| `ParamGroups.LayerPairsBag` | FeedBack-Prize-3/feedback_custom_funtions.py:141-151 | the layer loop puts every name of every layer into exactly one group |
| `ParamGroups.AllParamsAccounted` | FeedBack-Prize-3/feedback_custom_funtions.py:121-151 | the groups together hold exactly the head names, the extra names and every layer's names, each as often as in its source: nothing is lost or duplicated |
| `OptimizerFactory.FlatGroups` | FeedBack-Prize-3/feedback_custom_funtions.py:86-97 | the non-layerwise branch yields exactly two groups that together hold every named parameter as often as it occurs. The second holds exactly the no-decay names and the first all others. The first has `config['weight_decay']` and the second 0.0. Neither sets a learning rate |
| `OptimizerFactory.FloorDiv` | FeedBack-Prize-3/feedback_custom_funtions.py:103 | Python `//`: an error exactly when the divisor is 0, otherwise the quotient rounded toward negative infinity, for either sign of the divisor |
| `OptimizerFactory.FloorDivNegativeDivisor` | FeedBack-Prize-3/feedback_custom_funtions.py:103 | `7 // -2` is -4, as in Python |
| `OptimizerFactory.NumTrainingSteps` | FeedBack-Prize-3/feedback_custom_funtions.py:103 | the step count fails iff `train_batch_size * n_accumulate` is 0. Otherwise, for a positive divisor, it is the largest count whose accumulated batches fit in `train_dataset_size * epochs` examples, and for a negative divisor it is Python's floor of the quotient |
| `OptimizerFactory.NumTrainingStepsExample` | FeedBack-Prize-3/feedback_custom_funtions.py:103 | 1000 examples, 3 epochs, batch size 10 and 2 accumulation steps give 150 steps |
| `OptimizerFactory.OptimizerSetup` | FeedBack-Prize-3/feedback_custom_funtions.py:80-103 | `optimizer_setup` uses the layerwise groups when asked, with `config['learning_rate']`, `config['decoder_lr']`, `config['weight_decay']` and the default decay 0.9, and the flat groups otherwise. It gives the optimizer the configured learning rate as its default and returns the step count. The factory's own code fails exactly when the step count divides by zero |

## Left out

- The dataset wrapper (`FeedBackDataset`) is left out. It only calls a tokenizer and reads table columns.
- The losses (`RMSELoss`, `loss_fn`) and the metrics (`compute_metrics`) are left out. They are floating-point tensor and array arithmetic done by the framework.
- The `AdamW` optimizer and `get_linear_schedule_with_warmup` are foreign library calls. They are modelled only by what they receive (`Setup`). The warmup length `0.1 * num_training_steps` is a float passed to the library and is not modelled.
- Learning rates are exact reals. The source multiplies floats, so its k-th rate can differ from `layerwise_lr * decay^k` by rounding.
- A parameter is its name. The tensor object it stands for, and the identity of two parameters that share a name, are not modelled.
- The framework decides how full names such as `model.encoder.layer.3.attention...` relate to the relative names that `layer.named_parameters()` returns. That link is not part of this model. The per-layer name lists are inputs, so `AllParamsAccounted` says that every head, extra and layer name is grouped exactly once. It cannot say that these lists together are the whole model.
- Python's `int` and `float` dynamic typing of the configuration values is not modelled. `epochs`, `train_batch_size` and `n_accumulate` are integers here, and the learning rates and weight decays are reals.
- The default `layerwise_weight_decay = 0.0` of `get_optimizer_grouped_parameters` is not modelled: `optimizer_setup` always passes `config['weight_decay']`, so only the 0.9 decay default is a constant (`DEFAULT_LAYERWISE_LR_DECAY`).
- The `correct_bias=True` argument that `optimizer_setup` passes to `AdamW` is not part of `Setup`. It does not depend on any input.
- The configuration is a record with every field present, so the `KeyError` that a missing configuration key raises is not modelled.
- OptimizerSetup: failures raised inside `AdamW` and `get_linear_schedule_with_warmup` (for example the library's `ValueError` for a negative learning rate, raised before the step count is computed) are not modelled and are assumed not to happen. The model promises only that the factory's own code fails exactly on a zero divisor.
