/** The configuration logic of `EnhancedLightningModule.configure_optimizers`
    (src/networks/core.py): which optimizer is built from the config dict,
    what is left of that dict, and the learning-rate schedule descriptor. */
module CoreOptim {
  import opened Common

  /** A class of `torch.optim`, by its qualified name. */
  type OptimizerClass = string

  /** `optimizer_config`: the class name under "name", the other entries
      being keyword arguments of the optimizer, by their text. */
  type Config = map<string, string>

  /** An optimizer: its class and the keyword arguments it was given. The
      network parameters it optimises are not modelled. */
  datatype Optimizer = Optimizer(cls: OptimizerClass, kwargs: Config)

  /** `LinearCosineLR(opt, lr, 100, tot_steps)`: linear warm-up, then cosine
      decay; the base rate read from the optimizer's defaults is left out. */
  datatype Scheduler = LinearCosineLR(optimizer: Optimizer, warmupSteps: nat, totalSteps: int)

  /** `{"scheduler": lrs, "interval": "step"}` */
  datatype ScheduleEntry = ScheduleEntry(scheduler: Scheduler, interval: string)

  /** `[opt], [{"scheduler": ..., "interval": ...}]` */
  datatype OptimizerSetup = OptimizerSetup(optimizers: seq<Optimizer>, schedulers: seq<ScheduleEntry>)

  const WarmupSteps: nat := 100

  /** The value returned (or the exception raised) and the config dict left
      behind. */
  datatype ConfigureOutcome = ConfigureOutcome(result: Result<OptimizerSetup>, config: Config)

  /** The name of the first parameter of every `torch.optim` optimizer: the
      network parameters, passed positionally at line 139. */
  const ParamsArgument: string := "params"

  /** `configure_optimizers` on a module whose config dict is `config`:
      `optims` are the classes of `torch.optim` by name, `maxEpochs` is
      `trainer.max_epochs` and `nbBatches` the length of the training loader.
      The name is popped before it is looked up. The optimizer receives the
      network parameters positionally and the rest of the dict as keywords, so
      a `params` entry left in the dict gives that argument twice. With
      `lr_scheduler` false the return statement reads `lrs`, which was never
      assigned. */
  function Configure(config: Config, lrScheduler: bool, optims: map<string, OptimizerClass>,
                     maxEpochs: int, nbBatches: nat): (o: ConfigureOutcome)
    ensures "name" !in o.config
    ensures o.result.Ok? ==> |o.result.value.optimizers| == 1 && |o.result.value.schedulers| == 1
    ensures o.result.Ok? ==> o.result.value.schedulers[0].scheduler.optimizer == o.result.value.optimizers[0]
  {
    if "name" !in config then ConfigureOutcome(Err(KeyError("name")), config)
    else
      var name := config["name"];
      var rest := config - {"name"};
      if name !in optims then ConfigureOutcome(Err(KeyError(name)), rest)
      else if ParamsArgument in rest then ConfigureOutcome(Err(TypeError(ParamsArgument)), rest)
      else
        var opt := Optimizer(optims[name], rest);
        if !lrScheduler then ConfigureOutcome(Err(UnboundLocalError("lrs")), rest)
        else
          var lrs := LinearCosineLR(opt, WarmupSteps, maxEpochs * nbBatches);
          ConfigureOutcome(Ok(OptimizerSetup([opt], [ScheduleEntry(lrs, "step")])), rest)
  }

  /** `pop("name")` removes the name and nothing else, whatever happens next;
      without a name the call fails at once and the dict is untouched. */
  lemma PopRemovesOnlyName(config: Config, lrScheduler: bool, optims: map<string, OptimizerClass>,
                           maxEpochs: int, nbBatches: nat)
    ensures var o := Configure(config, lrScheduler, optims, maxEpochs, nbBatches);
      && "name" !in o.config
      && (forall k :: k in config && k != "name" ==> k in o.config && o.config[k] == config[k])
      && (forall k :: k in o.config ==> k in config)
      && ("name" !in config ==> o == ConfigureOutcome(Err(KeyError("name")), config))
  {
  }

  /** The config dict is consumed: a second call, with any flags and any
      trainer, always fails on the missing "name" and changes nothing more. */
  lemma SecondCallFails(config: Config, lrScheduler: bool, optims: map<string, OptimizerClass>,
                                           maxEpochs: int, nbBatches: nat, lrScheduler': bool,
                                           optims': map<string, OptimizerClass>, maxEpochs': int, nbBatches': nat)
    ensures var first := Configure(config, lrScheduler, optims, maxEpochs, nbBatches);
      Configure(first.config, lrScheduler', optims', maxEpochs', nbBatches')
        == ConfigureOutcome(Err(KeyError("name")), first.config)
  {
    PopRemovesOnlyName(config, lrScheduler, optims, maxEpochs, nbBatches);
  }

  /** With a known name and the schedule on: a `params` entry makes the
      optimizer constructor raise; otherwise there is one optimizer of the
      named class, built from the remaining entries, and one schedule over
      max_epochs * nb_batches steps with 100 warm-up steps, stepped every
      step. */
  lemma ConfiguredSchedule(config: Config, optims: map<string, OptimizerClass>, maxEpochs: int, nbBatches: nat)
    requires "name" in config && config["name"] in optims
    ensures ParamsArgument in config ==>
      Configure(config, true, optims, maxEpochs, nbBatches).result == Err(TypeError(ParamsArgument))
    ensures ParamsArgument !in config ==>
      var o := Configure(config, true, optims, maxEpochs, nbBatches);
      var opt := Optimizer(optims[config["name"]], config - {"name"});
      && o.result.Ok?
      && o.result.value.optimizers == [opt]
      && |o.result.value.schedulers| == 1
      && o.result.value.schedulers[0].interval == "step"
      && o.result.value.schedulers[0].scheduler.optimizer == opt
      && o.result.value.schedulers[0].scheduler.warmupSteps == 100
      && o.result.value.schedulers[0].scheduler.totalSteps == maxEpochs * nbBatches
  {
  }

  /** The error paths, in the order they are met: an unknown optimizer name
      raises `KeyError(name)`, a `params` entry raises `TypeError`, and with
      the schedule switched off the unassigned `lrs` raises even though the
      optimizer was built. */
  lemma ConfigureErrors(config: Config, lrScheduler: bool, optims: map<string, OptimizerClass>,
                        maxEpochs: int, nbBatches: nat)
    requires "name" in config
    ensures config["name"] !in optims ==>
      Configure(config, lrScheduler, optims, maxEpochs, nbBatches).result == Err(KeyError(config["name"]))
    ensures config["name"] in optims && ParamsArgument in config ==>
      Configure(config, lrScheduler, optims, maxEpochs, nbBatches).result == Err(TypeError(ParamsArgument))
    ensures config["name"] in optims && ParamsArgument !in config && !lrScheduler ==>
      Configure(config, lrScheduler, optims, maxEpochs, nbBatches).result == Err(UnboundLocalError("lrs"))
    ensures Configure(config, lrScheduler, optims, maxEpochs, nbBatches).result.Ok? <==>
      config["name"] in optims && ParamsArgument !in config && lrScheduler
  {
  }

  /** The constructor's default config `{"name": "Adam", "params": {}}` never
      configures: its `params` entry collides with the positional network
      parameters, whatever the flag and the trainer. */
  lemma DefaultConfigFails(lrScheduler: bool, optims: map<string, OptimizerClass>, maxEpochs: int, nbBatches: nat)
    requires "Adam" in optims
    ensures var o := Configure(map["name" := "Adam", "params" := "{}"], lrScheduler, optims, maxEpochs, nbBatches);
      o == ConfigureOutcome(Err(TypeError(ParamsArgument)), map["params" := "{}"])
  {
    assert map["name" := "Adam", "params" := "{}"] - {"name"} == map["params" := "{}"];
  }
}
