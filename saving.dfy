/** The checkpoint callback of src/callbacks/saving.py: where checkpoints of a
    run are written, derived from the first logger's metadata. */
module Saving {
  import opened Common

  /** A filesystem path as the list of its segments (`Path(...).parts`). */
  type Path = seq<string>

  /** What the callback reads from a logger: its own save directory (or
      None), its `name`, the human-readable `experiment.name` and its
      `version`, each already rendered as text by `str` / the f-string. The
      experiment is assumed to have a `name`, as a WandB run does. */
  datatype Logger = Logger(saveDir: Option<Path>, name: string, experimentName: string, version: string)

  /** What the callback reads from the trainer. */
  datatype Trainer = Trainer(defaultRootDir: Path, loggers: seq<Logger>)

  const CheckpointsSegment: string := "checkpoints"

  /** `f"{run_name}_{version}"`: the readable run name, then the unique id. */
  function RunDirName(l: Logger): (s: string)
  {
    l.experimentName + "_" + l.version
  }

  /** `Path.resolve().expanduser()` is left to the filesystem: the model takes
      it as a parameter `norm`. A well-behaved normalisation is idempotent. */
  ghost predicate Idempotent(norm: Path -> Path)
  {
    forall p :: norm(norm(p)) == norm(p)
  }

  /** The path that the final `resolve().expanduser()` of line 41 is applied
      to. On the explicit branch it is already normalised once (line 25). */
  function UnresolvedCkptDir(dirpath: Option<Path>, trainer: Trainer, norm: Path -> Path): (p: Path)
    ensures dirpath.None? ==> |p| > 0 && p[|p| - 1] == CheckpointsSegment
    ensures dirpath.None? && |trainer.loggers| > 0 ==>
      |p| >= 3 && p[|p| - 3] == trainer.loggers[0].name && p[|p| - 2] == RunDirName(trainer.loggers[0])
  {
    match dirpath
    case Some(p) => norm(p)
    case None =>
      var base :=
        if |trainer.loggers| == 0 then trainer.defaultRootDir
        else
          var l := trainer.loggers[0];
          (if l.saveDir.Some? then l.saveDir.value else trainer.defaultRootDir) + [l.name, RunDirName(l)];
      base + [CheckpointsSegment]
  }

  /** `EnhancedModelCheckpoint.__resolve_ckpt_dir`. */
  function ResolveCkptDir(dirpath: Option<Path>, trainer: Trainer, norm: Path -> Path): (r: Path)
    ensures Idempotent(norm) ==> norm(r) == r
    ensures Idempotent(norm) && dirpath.Some? ==> r == norm(dirpath.value)
  {
    norm(UnresolvedCkptDir(dirpath, trainer, norm))
  }

  /** An explicit `dirpath` wins: the trainer (default root and every logger)
      plays no part, and no `checkpoints` segment is added. The path is
      normalised twice, which is once when normalisation is idempotent. */
  lemma ExplicitDirpathWins(p: Path, trainer: Trainer, norm: Path -> Path)
    ensures ResolveCkptDir(Some(p), trainer, norm) == norm(norm(p))
    ensures Idempotent(norm) ==> ResolveCkptDir(Some(p), trainer, norm) == norm(p)
  {
  }

  /** Without `dirpath` and without a logger: `default_root_dir/checkpoints`. */
  lemma NoLoggerFallsBackToRoot(trainer: Trainer, norm: Path -> Path)
    requires trainer.loggers == []
    ensures ResolveCkptDir(None, trainer, norm) == norm(trainer.defaultRootDir + ["checkpoints"])
  {
  }

  /** Without `dirpath`, with a first logger that has no save directory:
      `default_root_dir/name/run_version/checkpoints`. */
  lemma LoggerUnderDefaultRoot(trainer: Trainer, norm: Path -> Path)
    requires |trainer.loggers| > 0 && trainer.loggers[0].saveDir == None
    ensures var l := trainer.loggers[0];
      ResolveCkptDir(None, trainer, norm)
        == norm(trainer.defaultRootDir + [l.name, l.experimentName + "_" + l.version, "checkpoints"])
  {
    var l := trainer.loggers[0];
    var r := trainer.defaultRootDir;
    assert r + [l.name, RunDirName(l)] + [CheckpointsSegment] == r + [l.name, RunDirName(l), CheckpointsSegment];
  }

  /** A save directory on the first logger replaces the default root as the
      base; everything appended to it is what the default root would get. */
  lemma LoggerSaveDirReplacesRoot(trainer: Trainer, d: Path, norm: Path -> Path)
    requires |trainer.loggers| > 0 && trainer.loggers[0].saveDir == Some(d)
    ensures var l := trainer.loggers[0];
      ResolveCkptDir(None, trainer, norm)
        == norm(d + [l.name, l.experimentName + "_" + l.version, "checkpoints"])
    ensures var l := trainer.loggers[0];
      ResolveCkptDir(None, trainer, norm)
        == ResolveCkptDir(None, Trainer(d, [l.(saveDir := None)] + trainer.loggers[1..]), norm)
  {
    var l := trainer.loggers[0];
    assert d + [l.name, RunDirName(l)] + [CheckpointsSegment] == d + [l.name, RunDirName(l), CheckpointsSegment];
  }

  /** Only `loggers[0]` is consulted: two trainers that agree on the default
      root and on the first logger give the same directory, whatever their
      other loggers are. */
  lemma OnlyFirstLoggerMatters(t1: Trainer, t2: Trainer, norm: Path -> Path)
    requires t1.defaultRootDir == t2.defaultRootDir
    requires |t1.loggers| > 0 && |t2.loggers| > 0 && t1.loggers[0] == t2.loggers[0]
    ensures ResolveCkptDir(None, t1, norm) == ResolveCkptDir(None, t2, norm)
  {
  }

  /** The layout of the directory before normalisation: base, logger name,
      `experiment_version`, `checkpoints`, in this order, and the run segment
      is exactly the experiment name, an underscore and the version. */
  lemma RunSegmentLayout(trainer: Trainer, norm: Path -> Path)
    requires |trainer.loggers| > 0
    ensures var raw := UnresolvedCkptDir(None, trainer, norm);
      var l := trainer.loggers[0];
      && |raw| >= 3
      && raw[|raw| - 1] == "checkpoints"
      && raw[|raw| - 2] == RunDirName(l)
      && raw[|raw| - 3] == l.name
      && raw[..|raw| - 3] == (if l.saveDir.Some? then l.saveDir.value else trainer.defaultRootDir)
    ensures var l := trainer.loggers[0];
      && |RunDirName(l)| == |l.experimentName| + 1 + |l.version|
      && RunDirName(l)[..|l.experimentName|] == l.experimentName
      && RunDirName(l)[|l.experimentName|] == '_'
      && RunDirName(l)[|l.experimentName| + 1..] == l.version
  {
    var l := trainer.loggers[0];
    var base := if l.saveDir.Some? then l.saveDir.value else trainer.defaultRootDir;
    var raw := UnresolvedCkptDir(None, trainer, norm);
    assert raw == base + [l.name, RunDirName(l), "checkpoints"];
    assert raw[..|raw| - 3] == base;
  }

  /** With an idempotent normalisation, the result is a fixed point of it. */
  lemma ResolvedIsNormalised(dirpath: Option<Path>, trainer: Trainer, norm: Path -> Path)
    requires Idempotent(norm)
    ensures norm(ResolveCkptDir(dirpath, trainer, norm)) == ResolveCkptDir(dirpath, trainer, norm)
  {
  }

  /** Running `setup` on a directory that an earlier `setup` stored takes the
      explicit branch, whatever the trainer is then; with an idempotent
      normalisation it stores the same directory again. */
  lemma SetupIdempotent(dirpath: Option<Path>, t1: Trainer, t2: Trainer, norm: Path -> Path)
    requires Idempotent(norm)
    ensures var first := ResolveCkptDir(dirpath, t1, norm);
      ResolveCkptDir(Some(first), t2, norm) == first
  {
    var first := ResolveCkptDir(dirpath, t1, norm);
    var raw := UnresolvedCkptDir(dirpath, t1, norm);
    assert norm(norm(raw)) == norm(raw);
    assert norm(norm(first)) == norm(first);
  }

  /** `EnhancedModelCheckpoint`: of the parent callback's state only
      `dirpath` is modelled. */
  class EnhancedModelCheckpoint {
    var dirpath: Option<Path>

    /** `__init__(**kwargs)`: `dirpath` stands for the value the parent
        `ModelCheckpoint.__init__` stored from the keyword, None when absent. */
    constructor (dirpath: Option<Path>)
      ensures this.dirpath == dirpath
    {
      this.dirpath := dirpath;
    }

    /** `setup`: overwrites `dirpath` with the resolved directory, then hands
        over to the parent hook (not modelled). */
    method Setup(trainer: Trainer, norm: Path -> Path)
      modifies this`dirpath
      ensures dirpath == Some(ResolveCkptDir(old(dirpath), trainer, norm))
      ensures dirpath.Some?
    {
      dirpath := Some(ResolveCkptDir(dirpath, trainer, norm));
    }
  }

  /** Two `setup` calls in a row, with an idempotent normalisation, store the
      same directory, and it is the one that the first call computed. */
  method SetupTwice(c: EnhancedModelCheckpoint, t1: Trainer, t2: Trainer, norm: Path -> Path)
    requires Idempotent(norm)
    modifies c
    ensures c.dirpath == Some(ResolveCkptDir(old(c.dirpath), t1, norm))
  {
    c.Setup(t1, norm);
    var first := c.dirpath;
    c.Setup(t2, norm);
    SetupIdempotent(old(c.dirpath), t1, t2, norm);
    assert c.dirpath == first;
  }
}
