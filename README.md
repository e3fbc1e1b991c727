# Checkpoint directories and metric bookkeeping of a 3D segmentation trainer

The repository is a thin layer over a deep-learning training framework:
a checkpoint callback (`EnhancedModelCheckpoint`) and a training-loop module
(`EnhancedLightningModule`). This project models the few decisions that the
layer makes itself. None of them touch tensors.

- **Where checkpoints go** (`src/callbacks/saving.py`). An explicit `dirpath`
  wins. Without one, the directory is the default root plus `checkpoints`.
  With a logger it is the first logger's save directory (or, if that is None,
  the default root), then the logger name, then `experiment_version`, then
  `checkpoints`. `setup` stores the result in the callback's `dirpath`.
- **The metric registry** (`_init_metrics`). The three buckets `mtrain`,
  `mval` and `mtest` are filled from metric specifications. Each spec's name is
  looked up in the torchmetrics classes merged with `MONAI_METRICS`, where a
  MONAI entry shadows a torchmetrics one. Validation keys get the `v_` prefix.
  MONAI metrics stay out of the training bucket. The `ModuleDict` buckets
  refuse a key that is empty, contains a `.`, or is already one of their
  attributes (such as `train`), with a `KeyError`.
- **Logging keys** (`_update_metrics`). A scalar result is logged under its
  key. A vector result is logged under `key/i`. Distance metrics (`hdf`,
  `masd`) shift `i` by one, and their scalar results are unsqueezed to
  length 1. The test phase logs per step; the other phases log per epoch.
- **Loss logging** (`_log_errs`). This covers the `v_` prefixing of dict
  losses and what the function hands back.
- **Optimizer configuration** (`configure_optimizers`). The name is popped
  destructively from the config dict. The optimizer receives the network
  parameters positionally and the rest of the dict as keywords, so a `params`
  entry left in the dict raises a `TypeError`. The schedule runs over
  `max_epochs * nb_batches` steps with 100 warm-up steps and is stepped every
  step.

## Layout

| file | module | models |
|---|---|---|
| common.dfy | `Common` | `Option`, `Result`, and the exceptions the code raises (`KeyError`, `UnboundLocalError`, `TypeError`) |
| text.dfy | `Text` | Python's `sub in s` and the decimal rendering of an integer inside an f-string |
| saving.dfy | `Saving` | `__resolve_ckpt_dir` as a function; class `EnhancedModelCheckpoint` with its `dirpath` field and `Setup` |
| core_metrics.dfy | `CoreMetrics` | the registry, the specs and the buckets; `InitBuckets` gives the state `_init_metrics` leaves behind |
| core_logging.dfy | `CoreLogging` | the log keys of one metric result and the phase flags |
| core_losses.dfy | `CoreLosses` | `_log_errs` |
| core_optim.dfy | `CoreOptim` | `configure_optimizers` as a function of the config dict |
| core.dfy | `Core` | class `EnhancedLightningModule` with the fields its methods update, and the loops of `_init_metrics` and `_update_metrics` |

Both source files mix styles, and the model follows that split:
- Code that changes fields is modelled by class methods with `modifies`
  clauses: `setup`, `_init_metrics`'s nested loops over the `ModuleDict`, and
  `configure_optimizers`'s `pop`.
- `_update_metrics` is a loop that reads the buckets and emits log entries. It
  is modelled by a method that returns the set of emitted keys.
- The rest is pure and is modelled by functions with lemmas.

Each method is proved against a function of its inputs and old state. The
lemmas are stated about that function.

Parameters stand in for what the layer does not decide itself:
- `Path.resolve().expanduser()` is the parameter `norm: Path -> Path`.
  Lemmas that need normalisation to be idempotent say so.
- The classes of `torchmetrics`, `MONAI_METRICS` and the classes of
  `torch.optim` are explicit name-to-class maps.
- The attribute names an `nn.ModuleDict` already has are the set
  `moduleAttrs` of the registry.
- A metric's result on a batch is the function `resultOf` from the metric's
  key to the shape of its result.
- `trainer.max_epochs` and the length of the training loader are plain
  arguments.

Three behaviours of the code are modelled as written:
- An explicit directory is normalised twice: at line 25 of
  `src/callbacks/saving.py`, and again at line 41 with every other result.
  The model gives `norm(norm(p))`. That equals `norm(p)` only when
  normalisation is idempotent.
- With `lr_scheduler` off, the return statement at line 147 of
  `src/networks/core.py` reads `lrs`, which is assigned only at line 146 in
  the scheduling branch. The model returns `UnboundLocalError("lrs")` on that
  path, after the name has already been popped.
- For a dict loss, `_log_errs` returns the bare term at `name` (line 90).
  The step hooks then call `.update` on the returned value (lines 112-113).
  The model of `_log_errs` returns the term as the code does. The step hooks
  themselves are not part of this model.

## Model

| member | source | states |
|---|---|---|
| `Saving.UnresolvedCkptDir` | src/callbacks/saving.py:24-40 | The path handed to the final normalisation. Without `dirpath` it always ends in `checkpoints`. With a logger, the two segments before that are the logger name and the run segment. |
| `Saving.ResolveCkptDir` | src/callbacks/saving.py:23-41 | `__resolve_ckpt_dir`. With an idempotent normalisation every result is normalised, and an explicit `dirpath` p gives `norm(p)`. |
| `Saving.ExplicitDirpathWins` | src/callbacks/saving.py:24-25 | With an explicit `dirpath` p, the result is `norm(norm(p))` for every trainer. Neither the default root nor any logger matters, and no `checkpoints` segment is added. With an idempotent normalisation the result is `norm(p)`. |
| `Saving.NoLoggerFallsBackToRoot` | src/callbacks/saving.py:29-41 | With no `dirpath` and no logger, the result is `norm(default_root_dir + ["checkpoints"])`. |
| `Saving.LoggerUnderDefaultRoot` | src/callbacks/saving.py:29-41 | With no `dirpath` and a first logger whose `save_dir` is None, the result is `norm(root + [name, experiment + "_" + version, "checkpoints"])`. |
| `Saving.LoggerSaveDirReplacesRoot` | src/callbacks/saving.py:31-40 | A `save_dir` d on the first logger replaces the root. The result is `norm(d + [name, run, "checkpoints"])`, the same as for a trainer whose root is d and whose first logger has no `save_dir`. |
| `Saving.OnlyFirstLoggerMatters` | src/callbacks/saving.py:30-38 | Two trainers with the same root and the same `loggers[0]` resolve to the same directory, whatever their other loggers are. |
| `Saving.RunSegmentLayout` | src/callbacks/saving.py:33-40 | Before normalisation the path is the base, then the logger name, then the run segment, then `checkpoints`, in that order. The run segment is exactly the experiment name, `_`, and the version. |
| `Saving.ResolvedIsNormalised` | src/callbacks/saving.py:41 | With an idempotent normalisation, every result is a fixed point of it. |
| `Saving.SetupIdempotent` | src/callbacks/saving.py:20-25 | Resolving again from a directory that `setup` stored takes the explicit branch under any trainer. With an idempotent normalisation it yields the stored directory. |
| `Saving.EnhancedModelCheckpoint.constructor` | src/callbacks/saving.py:9-15 | The callback starts with the `dirpath` that the parent `ModelCheckpoint.__init__` stored from the keyword (None when absent); the parent's own normalisation of it is part of that stored value. |
| `Saving.EnhancedModelCheckpoint.Setup` | src/callbacks/saving.py:18-21 | `setup` overwrites `dirpath` with the directory resolved from the old `dirpath` and the trainer. Afterwards `dirpath` is never None. |
| `Saving.SetupTwice` | src/callbacks/saving.py:18-25 | With an idempotent normalisation, two `setup` calls leave the directory that the first call computed. |
| `Text.NatToString` | src/networks/core.py:81 | The index in `f"{k}/{i}"` is rendered as non-empty decimal digits. It is one digit exactly when the number is below 10. |
| `Text.NatToStringValue` | src/networks/core.py:81 | The rendered digits denote the number itself, and only 0 is written with a leading `0`: it is Python's `str` of the index. |
| `Text.NatToStringInjective` | src/networks/core.py:81 | Distinct indices are rendered as distinct strings. |
| `CoreMetrics.AllMetricsShadowing` | src/networks/core.py:27-28 | The merged registry knows the names of both sources. A `MONAI_METRICS` entry shadows a torchmetrics class of the same name. |
| `CoreMetrics.AddToMode` | src/networks/core.py:37-43 | One mode of the inner loop: after an exception nothing changes; otherwise any exception it raises is a `KeyError` for the spec's name (a failed lookup) or for its key in that mode (a key the `ModuleDict` refuses). It never leaves a refused key in a bucket or an unprefixed key in `mval`. |
| `CoreMetrics.AddToModes` | src/networks/core.py:36-43 | The inner loop over the modes for one spec: a skipped mode, an unknown name, a refused key, or an added entry. It never leaves a refused key in a bucket or an unprefixed key in `mval`. Any exception it raises is a `KeyError` for the spec's name, its display name, or its `v_` key. |
| `CoreMetrics.InitStep` | src/networks/core.py:35-43 | One turn of the outer loop. After an exception nothing changes. It keeps the buckets free of refused keys. |
| `CoreMetrics.InitBuckets` | src/networks/core.py:26-43 | `_init_metrics`. Whatever happens, no bucket holds a key the `ModuleDict` refuses, and every `mval` key starts with `v_`. |
| `CoreMetrics.AddToModesFails` | src/networks/core.py:36-43 | A spec that is not accepted raises on the first mode that fails. An unknown name fails on `mtrain` before anything is added. A refused key fails on the mode that would add it, after the earlier modes added theirs. `mtest` is never changed. |
| `CoreMetrics.InitSucceedsIffAllAccepted` | src/networks/core.py:33-43 | `_init_metrics` raises exactly when some spec's name is unknown to the merged registry, or some spec's key for a bucket it belongs to is refused by the `ModuleDict` (empty, containing `.`, or an existing attribute). |
| `CoreMetrics.InitStopsAtFirstUnknown` | src/networks/core.py:35-40 | The first unknown name raises `KeyError(name)`. The buckets are left exactly as the specs before it built them, and later specs are never looked at. |
| `CoreMetrics.InitStopsAtRefusedKey` | src/networks/core.py:40-43 | A known name whose key is refused raises a `KeyError` for that key in the first such mode, in the order `mtrain`, `mval`, `mtest`. Earlier modes keep the entry they added; later specs are never looked at. |
| `CoreMetrics.ReservedNameExample` | src/networks/core.py:43 | An `Accuracy` spec displayed as `train`, an attribute of the `ModuleDict`, raises a `KeyError` for the key `train` on `mtrain` and leaves all three buckets empty. |
| `CoreMetrics.InitBucketsMatchBucketAfter` | src/networks/core.py:35-43 | When every spec is accepted, each bucket equals the reference fold that writes the specs belonging to it one after the other, a later one over an earlier one. |
| `CoreMetrics.BucketKeySet` | src/networks/core.py:35-43 | When every spec is accepted, each bucket holds exactly the keys of the specs that belong to it. |
| `CoreMetrics.BucketLastWriter` | src/networks/core.py:40-43 | The entry under a key is the metric built from the last spec of that bucket with that key, so a later spec overwrites an earlier one. |
| `CoreMetrics.BucketEntryOrigin` | src/networks/core.py:36-43 | Every entry of a bucket was built, from its own class and arguments, by a spec that belongs to that bucket under that key. |
| `CoreMetrics.BucketKeys` | src/networks/core.py:36-43 | `mval` holds exactly the keys `"v_" + display_name`. `mtest` holds the display names unchanged. `mtrain` holds the display names of the non-MONAI specs only. |
| `CoreMetrics.TrainingBucketHasNoMonai` | src/networks/core.py:36-40 | Every metric in `mtrain` is a torchmetrics class built from a spec whose name is not a MONAI metric. |
| `CoreMetrics.MonaiSpecPlacement` | src/networks/core.py:36-43 | A MONAI spec whose display name no later spec reuses is in `mval` under `v_` + its name and in `mtest` under its name. Its display name is in `mtrain` only if some non-MONAI spec has the same display name. |
| `CoreMetrics.AccuracyExample` | src/networks/core.py:26-43 | One torchmetrics `Accuracy` spec shown as `acc` gives exactly `{acc}`, `{v_acc}` and `{acc}` in the three buckets. The three entries are equal metrics built from the same class and arguments. |
| `Text.ContainsIffOccurs` | src/networks/core.py:68 | The recursive model of Python's `t in s` holds exactly when `t` starts at some position of `s`. |
| `CoreLogging.IsDistance` | src/networks/core.py:68 | `is_dist(k)` holds exactly when `hdf` or `masd` occurs at some position of `k`. |
| `CoreLogging.KeysOf` | src/networks/core.py:75-82 | Every key logged for a metric starts with the metric's key. The key itself is logged exactly when the result, after unsqueezing, is a scalar. |
| `CoreLogging.LogKeys` | src/networks/core.py:69-82 | The keys of one `_update_metrics` call include each metric's keys, and every logged key starts with the key of some metric of the bucket. |
| `CoreLogging.FlagsOf` | src/networks/core.py:65-66 | `on_step` holds exactly in the test phase and `on_epoch` in the other phases. Exactly one of the two holds. |
| `CoreLogging.ScalarKeys` | src/networks/core.py:75-80 | A scalar result is logged under `k` alone for a non-distance metric, and under `k/1` alone for a distance metric. |
| `CoreLogging.VectorKeys` | src/networks/core.py:68-82 | A vector of length n is logged under exactly n keys, never under `k` itself. `k/j` is among them for 0 <= j < n, or for 1 <= j <= n when `k` contains `hdf` or `masd`. |
| `CoreLogging.DistanceIgnoresValidationPrefix` | src/networks/core.py:41-68 | Adding the `v_` prefix to a key never changes whether it counts as a distance metric, so the index offsets agree across the three phases. |
| `CoreLosses.PrefixKeys` | src/networks/core.py:87-88 | The prefixed dict has exactly the keys `"v_" + k` and keeps each term's value. |
| `CoreLosses.PrefixKeysKeepsSize` | src/networks/core.py:88 | Prefixing never merges two terms: the number of terms is unchanged. |
| `CoreLosses.LogErrs` | src/networks/core.py:85-93 | `_log_errs`. It returns a value exactly when `name` is among the logged keys. Otherwise it raises `KeyError(name)`, and only for a dict loss. It logs as many entries as the loss has terms (one for a single tensor). |
| `CoreLosses.LogErrsTerms` | src/networks/core.py:86-90 | For a dict loss, every term is logged with its value. The keys are prefixed `v_` exactly when `name` contains `v`. The result is the logged entry at `name`, or `KeyError(name)` when there is none. |
| `CoreLosses.LogErrsSingle` | src/networks/core.py:91-93 | A non-dict loss is logged under `name` and returned as `{name: errs}`. |
| `CoreLosses.StepNamesPickLossTerm` | src/networks/core.py:86-90 | With the two names the step hooks use, `v_loss` and `loss`, the result is the term the loss called `loss`. Without such a term both names raise. |
| `CoreOptim.Configure` | src/networks/core.py:136-147 | `configure_optimizers`. The name is gone from the dict afterwards, whatever happens. On success there is one optimizer and one schedule on that optimizer. |
| `CoreOptim.PopRemovesOnlyName` | src/networks/core.py:139-140 | `pop("name")` removes the name and keeps every other entry, whatever happens afterwards. Without a name the call raises at once and leaves the dict untouched. |
| `CoreOptim.SecondCallFails` | src/networks/core.py:139 | After any first call, a second call raises `KeyError("name")` and leaves the dict as the first call left it, whatever the flags or the trainer. |
| `CoreOptim.ConfiguredSchedule` | src/networks/core.py:139-147 | With a known name and the schedule on, a `params` entry raises `TypeError`. Otherwise there is one optimizer of the named class, built from the remaining entries, and one schedule on it. The schedule runs over `max_epochs * nb_batches` steps with 100 warm-up steps and interval `step`. |
| `CoreOptim.ConfigureErrors` | src/networks/core.py:138-147 | In the order they are met: an unknown optimizer name raises `KeyError(name)`, a `params` entry collides with the positional network parameters and raises `TypeError`, and with the schedule off `UnboundLocalError("lrs")` is raised. Among the errors modelled, the call succeeds exactly when the name is known, no `params` entry remains and the schedule is on. |
| `CoreOptim.DefaultConfigFails` | src/networks/core.py:139-140 | The constructor's default config `{"name": "Adam", "params": {}}` always raises `TypeError` in `configure_optimizers` and leaves `{"params": {}}` behind. |
| `Core.EnhancedLightningModule.constructor` | src/networks/core.py:15-21 | Construction stores the optimizer config and the schedule flag. |
| `Core.EnhancedLightningModule.InitMetrics` | src/networks/core.py:26-43 | The nested loops leave buckets and an exception equal to `InitBuckets` of the specs. |
| `Core.EnhancedLightningModule.AddSpec` | src/networks/core.py:36-43 | The mode loop for one spec leaves buckets and an exception equal to `AddToModes` over all three modes. |
| `Core.EnhancedLightningModule.UpdateMetrics` | src/networks/core.py:60-82 | The keys logged for the phase's bucket are the union of each metric's keys, with the phase's flags. |
| `Core.EnhancedLightningModule.ConfigureOptimizers` | src/networks/core.py:136-147 | The result and the new config dict are those of `Configure` applied to the old dict. |
| `Core.Create` | src/networks/core.py:15-23 | Construction fails exactly when `_init_metrics` raises, with the same exception. On success the new module holds the buckets, the config and the flag it was given. |
| `Core.ConfigureTwice` | src/networks/core.py:136-147 | Two `configure_optimizers` calls on one module change only the config dict. The first gives what `Configure` gives on the old dict and the old flag, the second always raises `KeyError("name")`, and the dict left behind is the one the first call left. |

## Left out

- src/networks/unet.py only passes constructor arguments to MONAI's `BasicUNet` / `UNet` and delegates `forward`. It has no logic of its own.
- Tensor work is not modelled, because it is floating-point code in foreign libraries: the forward pass, `final_activation`, the loss computation, and the `.mean()` in `_step_end`. For the same reason the step hooks (`_step`, `training_step` … `predict_step`, `*_step_end`) and the logged values themselves are left out. Metric results are modelled only by their shape, and losses by an opaque type.
- The `ValueError` retry with a boolean target (lines 70-74) depends on which inputs foreign metrics accept. The model takes the result that is finally used as `resultOf(k)`.
- Metric results with more than one dimension are not modelled.
- `LinearCosineLR` is not part of this model: it is a float schedule defined elsewhere. The learning rate read from `opt.defaults` and `self.parameters()` are left out with it.
- The filesystem meaning of `resolve()` and `expanduser()` (working directory, symbolic links, home directory) is left out: it is the parameter `norm`.
- Path segments are modelled as atomic. `pathlib` splits a logger name or run name that contains a separator, and restarts at a segment that is absolute. Neither is modelled.
- Saving.ResolveCkptDir: the model assumes that the first logger's `experiment` object has a `name` attribute, as a WandB run does. For a logger whose experiment lacks it (the writer behind a TensorBoard or CSV logger, say), line 37 raises `AttributeError` when `dirpath` is None; that failure is not modelled.
- The parent `ModelCheckpoint` (its `setup` and all its saving) and other framework effects are left out. This covers `log` / `log_dict` (modelled as returned keys and entries), `prog_bar`, `sync_dist` and multi-device behaviour, and the dataloader plumbing (the loader's length is an argument). The `on_step` / `on_epoch` arguments that `_log_errs` passes through are also left out.
- `inspect.getmembers` reflection is replaced by explicit name-to-class maps.
- The insertion order of the `ModuleDict` buckets, and so the order of log calls, is not modelled: buckets are maps, and `UpdateMetrics` visits the keys in any order.
- A spec dict without `"name"` or `"display_name"`, and an exception raised inside a metric's constructor, are not modelled. The spec datatype always carries both fields.
- CoreMetrics.InitSucceedsIffAllAccepted: of the exceptions of `ModuleDict` updates, only the refused keys are modelled. Its `TypeError` for a value that is not an `nn.Module` or a key that is not a string is not, because whether a `MONAI_METRICS` entry is a module is decided in `metrics.py`, which is not part of this model.
- The payload of the `KeyError` for a key the `ModuleDict` refuses is the refused key, not the message torch puts there ("attribute 'train' already exists", "module name can't contain \".\"", "module name can't be empty string"). The class of the exception and when it is raised are modelled.
- The attribute names of an `nn.ModuleDict` are not enumerated: they are the parameter `moduleAttrs`.
- Object identity of metrics is not modelled. Line 40 builds a separate instance for each mode; the model has equal values.
- CoreOptim.ConfigureErrors: of the exceptions the optimizer constructor raises, only the `params` collision is modelled. An unknown keyword or an invalid value (a negative learning rate, say) is decided in `torch.optim`, which is not part of this model.
- CoreOptim.ConfiguredSchedule: its success case assumes that `torch.optim` accepts the keyword entries left in the dict after `name` is popped; an optimizer class that rejects one raises, which is not modelled.
- Python aliasing of the optimizer dict is not modelled: `pop` also changes the caller's dict, and the shared default argument `{"name": "Adam", "params": {}}`. The field holds a map value.
- The keyword arguments of the optimizer and the metric arguments are modelled by their text only.
- `trainer.max_epochs` being None is not modelled: it is an integer here.
- Core.EnhancedLightningModule.UpdateMetrics: states the set of keys logged and the flags. It does not state the value logged under each key, or how the keys are grouped into `log_dict` calls.
