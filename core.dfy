/** `EnhancedLightningModule` (src/networks/core.py): the state that its
    methods update in place, and the loops that update or read it. */
module Core {
  import opened Common
  import opened CoreMetrics
  import opened CoreLogging
  import opened CoreOptim

  /** `self.metrics[f"m{mode}"]` */
  function BucketOf(phase: Phase): Mode
  {
    match phase
    case Train => MTrain
    case Val => MVal
    case Test => MTest
  }

  /** The module's own state: the optimizer config dict, the schedule flag
      and the metric buckets. Loss, final activation and network are tensor
      code and are not modelled. */
  class EnhancedLightningModule {
    var optimizerConfig: Config
    var lrScheduler: bool
    var metrics: Buckets

    /** `__init__` up to the call of `_init_metrics` (lines 18-21). */
    constructor (optimizer: Config, lrScheduler: bool)
      ensures optimizerConfig == optimizer && this.lrScheduler == lrScheduler
      ensures metrics == EmptyBuckets()
    {
      optimizerConfig := optimizer;
      this.lrScheduler := lrScheduler;
      metrics := EmptyBuckets();
    }

    /** `_init_metrics`: resets the three buckets, then fills them spec by
        spec and mode by mode; an unknown name or a key the ModuleDict refuses
        raises and leaves the buckets as they were at that moment. */
    method InitMetrics(reg: Registry, specs: seq<MetricSpec>) returns (error: Option<Error>)
      modifies this`metrics
      ensures InitOutcome(metrics, error) == InitBuckets(reg, specs)
    {
      metrics := EmptyBuckets();
      var i := 0;
      while i < |specs|
        invariant 0 <= i <= |specs|
        invariant InitBuckets(reg, specs[..i]) == InitOutcome(metrics, None)
      {
        InitBucketsPrefix(reg, specs, i);
        error := AddSpec(reg, specs[i]);
        if error.Some? {
          InitErrorPersists(reg, specs, i + 1);
          return;
        }
        i := i + 1;
      }
      assert specs[..i] == specs;
      error := None;
    }

    /** One turn of the outer loop of `_init_metrics` (lines 36-43): the spec
        `m` mode by mode. */
    method AddSpec(reg: Registry, m: MetricSpec) returns (error: Option<Error>)
      requires KeysAdmitted(reg, metrics)
      modifies this`metrics
      ensures InitOutcome(metrics, error) == AddToModes(old(metrics), reg, m, |ModeKeys|)
    {
      ghost var before := metrics;
      var j := 0;
      while j < |ModeKeys|
        invariant 0 <= j <= |ModeKeys|
        invariant AddToModes(before, reg, m, j) == InitOutcome(metrics, None)
      {
        var mode := ModeKeys[j];
        assert AddToModes(before, reg, m, j + 1) == AddToMode(InitOutcome(metrics, None), reg, m, mode);
        if mode == MTrain && m.name in reg.monai {
          // MONAI metrics compute on numpy arrays: not for training
          j := j + 1;
          continue;
        }
        if m.name !in AllMetrics(reg) {
          AddToModesErrorPersists(before, reg, m, j + 1, |ModeKeys|);
          return Some(KeyError(m.name));
        }
        var key := BucketKey(mode, m);
        if Refused(reg, key) {
          AddToModesErrorPersists(before, reg, m, j + 1, |ModeKeys|);
          return Some(KeyError(key));
        }
        metrics := metrics.Put(mode, metrics.Get(mode)[key := BuildMetric(reg, m)]);
        j := j + 1;
      }
      error := None;
    }

    /** The logging part of `_update_metrics(outs, mode)`: every metric of
        the phase's bucket is called (its result, by shape, is `resultOf(k)`
        for the metric stored under `k`) and logged; returned are all keys
        logged and the flags they were logged with. */
    method UpdateMetrics(phase: Phase, resultOf: string -> MetricValue) returns (logged: set<string>, flags: LogFlags)
      ensures logged == LogKeys(metrics.Get(BucketOf(phase)).Keys, resultOf)
      ensures flags == FlagsOf(phase)
    {
      var bucket := metrics.Get(BucketOf(phase));
      var onStep := phase == Test;
      var onEpoch := phase != Test;
      flags := LogFlags(onStep, onEpoch);
      logged := {};
      var todo := bucket.Keys;
      while todo != {}
        invariant todo <= bucket.Keys
        invariant logged == LogKeys(bucket.Keys - todo, resultOf)
        decreases |todo|
      {
        var k :| k in todo;
        var v := resultOf(k);
        if v == Scalar && IsDistance(k) {
          // counter the automatic squeeze of a one-element result
          v := Vector(1);
        }
        if v == Scalar {
          logged := logged + {k};
        } else {
          var off := IndexOffset(k);
          logged := logged + IndexRange(k, off, v.length + off);
        }
        LogKeysInsert(bucket.Keys - todo, k, resultOf);
        assert bucket.Keys - (todo - {k}) == (bucket.Keys - todo) + {k};
        todo := todo - {k};
      }
    }

    /** `configure_optimizers`: pops the name from the config dict, builds the
        optimizer and, when scheduling is on, its per-step schedule. */
    method ConfigureOptimizers(optims: map<string, OptimizerClass>, maxEpochs: int, nbBatches: nat)
      returns (r: Result<OptimizerSetup>)
      modifies this`optimizerConfig
      ensures ConfigureOutcome(r, optimizerConfig)
        == Configure(old(optimizerConfig), lrScheduler, optims, maxEpochs, nbBatches)
    {
      if "name" !in optimizerConfig {
        return Err(KeyError("name"));
      }
      var name := optimizerConfig["name"];
      optimizerConfig := optimizerConfig - {"name"};
      if name !in optims {
        return Err(KeyError(name));
      }
      if ParamsArgument in optimizerConfig {
        // the network parameters are already the positional `params`
        return Err(TypeError(ParamsArgument));
      }
      var opt := Optimizer(optims[name], optimizerConfig);
      if !lrScheduler {
        // the return statement reads `lrs`, assigned only in the branch below
        return Err(UnboundLocalError("lrs"));
      }
      var totSteps := maxEpochs * nbBatches;
      var lrs := LinearCosineLR(opt, WarmupSteps, totSteps);
      r := Ok(OptimizerSetup([opt], [ScheduleEntry(lrs, "step")]));
    }
  }

  /** `EnhancedLightningModule(optimizer=..., lr_scheduler=..., metrics=...)`:
      construction fails exactly when `_init_metrics` raises. */
  method Create(optimizer: Config, lrScheduler: bool, reg: Registry, specs: seq<MetricSpec>)
    returns (r: Result<EnhancedLightningModule>)
    ensures r.Ok? <==> InitBuckets(reg, specs).error == None
    ensures r.Err? ==> Some(r.error) == InitBuckets(reg, specs).error
    ensures r.Ok? ==> && fresh(r.value)
                      && r.value.metrics == InitBuckets(reg, specs).buckets
                      && r.value.optimizerConfig == optimizer
                      && r.value.lrScheduler == lrScheduler
  {
    var lm := new EnhancedLightningModule(optimizer, lrScheduler);
    var error := lm.InitMetrics(reg, specs);
    if error.Some? {
      return Err(error.value);
    }
    return Ok(lm);
  }

  /** A second `configure_optimizers` on the same module always fails: the
      first call consumed the name. */
  method ConfigureTwice(lm: EnhancedLightningModule, optims: map<string, OptimizerClass>, maxEpochs: int, nbBatches: nat)
    returns (first: Result<OptimizerSetup>, second: Result<OptimizerSetup>)
    modifies lm`optimizerConfig
    ensures first == Configure(old(lm.optimizerConfig), old(lm.lrScheduler), optims, maxEpochs, nbBatches).result
    ensures second == Err(KeyError("name"))
    ensures lm.optimizerConfig == Configure(old(lm.optimizerConfig), old(lm.lrScheduler), optims, maxEpochs, nbBatches).config
  {
    ghost var config := lm.optimizerConfig;
    first := lm.ConfigureOptimizers(optims, maxEpochs, nbBatches);
    second := lm.ConfigureOptimizers(optims, maxEpochs, nbBatches);
    SecondCallFails(config, lm.lrScheduler, optims, maxEpochs, nbBatches,
                    lm.lrScheduler, optims, maxEpochs, nbBatches);
  }
}
