/** The metric registry built by `EnhancedLightningModule._init_metrics`
    (src/networks/core.py): three buckets of metric objects, filled from a
    list of metric specifications through a name -> class registry. */
module CoreMetrics {
  import opened Common
  import opened Text

  /** A constructor argument of a metric, by its text. */
  type Arg = string

  /** A metric class, by its qualified name; metric classes are opaque. */
  type MetricClass = string

  /** One entry of the `metrics` list: `{"name", "args", "kwargs",
      "display_name"}`; a missing "args" / "kwargs" is the empty default. */
  datatype MetricSpec = MetricSpec(name: string, args: seq<Arg>, kwargs: map<string, Arg>, displayName: string)

  /** The classes of the `torchmetrics` package by name, `MONAI_METRICS`, and
      the attribute names an `nn.ModuleDict` already has besides its entries
      (its methods such as `train` or `keys`, and its internal fields). */
  datatype Registry = Registry(torchmetrics: map<string, MetricClass>, monai: map<string, MetricClass>,
                               moduleAttrs: set<string>)

  /** An instantiated metric: which class, built with which arguments. */
  datatype Metric = Metric(cls: MetricClass, args: seq<Arg>, kwargs: map<string, Arg>)

  /** The three keys of `self.metrics`. */
  datatype Mode = MTrain | MVal | MTest

  /** `self.metrics`: the ModuleDict with exactly the buckets `mtrain`,
      `mval` and `mtest`, each mapping a display key to a metric. */
  datatype Buckets = Buckets(mtrain: map<string, Metric>, mval: map<string, Metric>, mtest: map<string, Metric>) {
    /** `self.metrics[mode]` */
    function Get(mode: Mode): map<string, Metric>
    {
      match mode
      case MTrain => mtrain
      case MVal => mval
      case MTest => mtest
    }

    /** Replace the bucket `mode`, keep the other two. */
    function Put(mode: Mode, bucket: map<string, Metric>): (r: Buckets)
      ensures r.Get(mode) == bucket
      ensures forall other :: other != mode ==> r.Get(other) == Get(other)
    {
      match mode
      case MTrain => this.(mtrain := bucket)
      case MVal => this.(mval := bucket)
      case MTest => this.(mtest := bucket)
    }
  }

  /** The keys of `self.metrics`, in the order the loop of line 36 visits them. */
  const ModeKeys: seq<Mode> := [MTrain, MVal, MTest]

  /** `all_metrics`: every torchmetrics class, then `update(MONAI_METRICS)`. */
  function AllMetrics(reg: Registry): map<string, MetricClass>
  {
    reg.torchmetrics + reg.monai
  }

  /** The merged registry knows every name of either source, and a MONAI
      entry shadows a torchmetrics class of the same name. */
  lemma AllMetricsShadowing(reg: Registry, name: string)
    ensures name in AllMetrics(reg) <==> name in reg.torchmetrics || name in reg.monai
    ensures name in reg.monai ==> AllMetrics(reg)[name] == reg.monai[name]
    ensures name !in reg.monai && name in reg.torchmetrics ==> AllMetrics(reg)[name] == reg.torchmetrics[name]
  {
  }

  /** Lines 33-34: `all_metrics[name](*args, **kwargs)`. */
  function BuildMetric(reg: Registry, spec: MetricSpec): Metric
    requires spec.name in AllMetrics(reg)
  {
    Metric(AllMetrics(reg)[spec.name], spec.args, spec.kwargs)
  }

  /** Lines 37-39: MONAI metrics are skipped for the training bucket. */
  predicate InBucket(reg: Registry, mode: Mode, spec: MetricSpec)
  {
    !(mode == MTrain && spec.name in reg.monai)
  }

  /** Lines 41-42: the key of a spec in a bucket. */
  function BucketKey(mode: Mode, spec: MetricSpec): string
  {
    if mode == MVal then "v_" + spec.displayName else spec.displayName
  }

  function EmptyBuckets(): Buckets
  {
    Buckets(map[], map[], map[])
  }

  /** Line 43: `nn.ModuleDict` refuses, with a `KeyError`, a key that is the
      empty string, contains a `.`, or is already one of its attributes. */
  predicate Refused(reg: Registry, key: string)
  {
    key == "" || '.' in key || key in reg.moduleAttrs
  }

  /** The keys of a well-formed bucket state: none refused, and every `mval`
      key carries the validation prefix. */
  predicate KeysAdmitted(reg: Registry, b: Buckets)
  {
    && (forall k :: k in b.mtrain ==> !Refused(reg, k))
    && (forall k :: k in b.mval ==> !Refused(reg, k) && "v_" <= k)
    && (forall k :: k in b.mtest ==> !Refused(reg, k))
  }

  /** The state `_init_metrics` leaves behind, and the exception it raised. */
  datatype InitOutcome = InitOutcome(buckets: Buckets, error: Option<Error>)

  /** One turn of the inner loop (lines 37-43) for `mode`, after the earlier
      modes left `out`: after an exception nothing more happens, a skipped
      mode changes nothing, an unknown name fails the lookup of line 40, a
      refused key fails the update of line 43. */
  function AddToMode(out: InitOutcome, reg: Registry, spec: MetricSpec, mode: Mode): (r: InitOutcome)
    requires KeysAdmitted(reg, out.buckets)
    ensures KeysAdmitted(reg, r.buckets)
    ensures out.error.Some? ==> r == out
    ensures out.error.None? && r.error.Some? ==>
      r.error == Some(KeyError(spec.name)) || r.error == Some(KeyError(BucketKey(mode, spec)))
  {
    var key := BucketKey(mode, spec);
    if out.error.Some? || !InBucket(reg, mode, spec) then out
    else if spec.name !in AllMetrics(reg) then InitOutcome(out.buckets, Some(KeyError(spec.name)))
    else if Refused(reg, key) then InitOutcome(out.buckets, Some(KeyError(key)))
    else InitOutcome(out.buckets.Put(mode, out.buckets.Get(mode)[key := BuildMetric(reg, spec)]), None)
  }

  /** The inner loop for one spec over the first `j` modes of `ModeKeys`. Any
      exception is a `KeyError` of the spec's name or of one of its keys. */
  function AddToModes(b: Buckets, reg: Registry, spec: MetricSpec, j: nat): (r: InitOutcome)
    requires KeysAdmitted(reg, b) && j <= |ModeKeys|
    ensures KeysAdmitted(reg, r.buckets)
    ensures r.error.Some? ==> r.error == Some(KeyError(spec.name)) || r.error == Some(KeyError(spec.displayName))
                              || r.error == Some(KeyError("v_" + spec.displayName))
  {
    if j == 0 then InitOutcome(b, None)
    else AddToMode(AddToModes(b, reg, spec, j - 1), reg, spec, ModeKeys[j - 1])
  }

  /** One turn of the outer loop (line 35): once an exception is raised
      nothing more happens. */
  function InitStep(prev: InitOutcome, reg: Registry, spec: MetricSpec): (r: InitOutcome)
    requires KeysAdmitted(reg, prev.buckets)
    ensures KeysAdmitted(reg, r.buckets)
    ensures prev.error.Some? ==> r == prev
  {
    if prev.error.Some? then prev
    else AddToModes(prev.buckets, reg, spec, |ModeKeys|)
  }

  /** `_init_metrics(metrics)`, spec by spec. Whatever happens, no bucket
      holds a key the ModuleDict refuses and every validation key is
      prefixed. */
  function InitBuckets(reg: Registry, specs: seq<MetricSpec>): (r: InitOutcome)
    ensures KeysAdmitted(reg, r.buckets)
    decreases |specs|
  {
    if specs == [] then InitOutcome(EmptyBuckets(), None)
    else InitStep(InitBuckets(reg, specs[..|specs| - 1]), reg, specs[|specs| - 1])
  }

  /** The spec goes through all three modes: its name is known and none of
      the keys it would add is refused. */
  predicate Accepted(reg: Registry, spec: MetricSpec)
  {
    && spec.name in AllMetrics(reg)
    && (InBucket(reg, MTrain, spec) ==> !Refused(reg, BucketKey(MTrain, spec)))
    && !Refused(reg, BucketKey(MVal, spec))
    && !Refused(reg, BucketKey(MTest, spec))
  }

  ghost predicate AllAccepted(reg: Registry, specs: seq<MetricSpec>)
  {
    forall i :: 0 <= i < |specs| ==> Accepted(reg, specs[i])
  }

  /** No later spec of the bucket `mode` lands on the key of spec `j`. */
  ghost predicate LastWithKey(reg: Registry, mode: Mode, specs: seq<MetricSpec>, j: int)
    requires 0 <= j < |specs|
  {
    forall j' :: j < j' < |specs| && InBucket(reg, mode, specs[j']) ==> BucketKey(mode, specs[j']) != BucketKey(mode, specs[j])
  }

  /** The inner loop over the three modes, written out. */
  lemma AddToModesUnfold(b: Buckets, reg: Registry, spec: MetricSpec)
    requires KeysAdmitted(reg, b)
    ensures AddToModes(b, reg, spec, 3)
      == AddToMode(AddToMode(AddToMode(InitOutcome(b, None), reg, spec, MTrain), reg, spec, MVal), reg, spec, MTest)
  {
    assert AddToModes(b, reg, spec, 0) == InitOutcome(b, None);
    assert AddToModes(b, reg, spec, 1) == AddToMode(InitOutcome(b, None), reg, spec, MTrain);
  }

  /** An accepted spec goes through all three modes and adds its metric to
      every bucket it belongs to. */
  lemma AddToModesAt(b: Buckets, reg: Registry, spec: MetricSpec, mode: Mode)
    requires KeysAdmitted(reg, b) && Accepted(reg, spec)
    ensures AddToModes(b, reg, spec, |ModeKeys|).error == None
    ensures AddToModes(b, reg, spec, |ModeKeys|).buckets.Get(mode)
      == if InBucket(reg, mode, spec) then b.Get(mode)[BucketKey(mode, spec) := BuildMetric(reg, spec)] else b.Get(mode)
  {
    AddToModesUnfold(b, reg, spec);
  }

  /** A spec that is not accepted raises on the first mode that fails: an
      unknown name on `mtrain` before anything of it is added (it is never a
      MONAI name); a refused key on the mode that would add it, after the
      earlier modes added theirs; `mtest` is never reached with success. */
  lemma AddToModesFails(b: Buckets, reg: Registry, spec: MetricSpec)
    requires KeysAdmitted(reg, b) && !Accepted(reg, spec)
    ensures var r := AddToModes(b, reg, spec, |ModeKeys|);
      var d, v := spec.displayName, "v_" + spec.displayName;
      var trainFails := spec.name !in reg.monai && Refused(reg, d);
      if spec.name !in AllMetrics(reg) then r == InitOutcome(b, Some(KeyError(spec.name)))
      else
        var m := BuildMetric(reg, spec);
        && r.error == Some(KeyError(if trainFails || !Refused(reg, v) then d else v))
        && r.buckets.mtrain == (if spec.name in reg.monai || trainFails then b.mtrain else b.mtrain[d := m])
        && r.buckets.mval == (if trainFails || Refused(reg, v) then b.mval else b.mval[v := m])
        && r.buckets.mtest == b.mtest
  {
    AddToModesUnfold(b, reg, spec);
  }

  /** Once the outer loop has raised, later specs change nothing. */
  lemma {:induction false} InitErrorPersists(reg: Registry, specs: seq<MetricSpec>, n: int)
    requires 0 <= n <= |specs| && InitBuckets(reg, specs[..n]).error.Some?
    ensures InitBuckets(reg, specs) == InitBuckets(reg, specs[..n])
    decreases |specs|
  {
    if n < |specs| {
      var p := specs[..|specs| - 1];
      assert p[..n] == specs[..n];
      InitErrorPersists(reg, p, n);
    } else {
      assert specs[..n] == specs;
    }
  }

  /** Once the inner loop has raised, the remaining modes change nothing. */
  lemma {:induction false} AddToModesErrorPersists(b: Buckets, reg: Registry, spec: MetricSpec, n: nat, j: nat)
    requires KeysAdmitted(reg, b) && n <= j <= |ModeKeys|
    requires AddToModes(b, reg, spec, n).error.Some?
    ensures AddToModes(b, reg, spec, j) == AddToModes(b, reg, spec, n)
    decreases j
  {
    if n < j {
      AddToModesErrorPersists(b, reg, spec, n, j - 1);
    }
  }

  /** The outer loop after `i + 1` specs is one more turn after `i`. */
  lemma InitBucketsPrefix(reg: Registry, specs: seq<MetricSpec>, i: int)
    requires 0 <= i < |specs|
    ensures InitBuckets(reg, specs[..i + 1]) == InitStep(InitBuckets(reg, specs[..i]), reg, specs[i])
  {
    assert specs[..i + 1][..i] == specs[..i];
  }

  /** The inner loop raises exactly when the spec is not accepted. */
  lemma AddToModesSucceedsIff(b: Buckets, reg: Registry, spec: MetricSpec)
    requires KeysAdmitted(reg, b)
    ensures AddToModes(b, reg, spec, |ModeKeys|).error == None <==> Accepted(reg, spec)
  {
    if Accepted(reg, spec) {
      AddToModesAt(b, reg, spec, MTrain);
    } else {
      AddToModesFails(b, reg, spec);
    }
  }

  lemma AllAcceptedSnoc(reg: Registry, specs: seq<MetricSpec>)
    requires |specs| > 0
    ensures AllAccepted(reg, specs) <==>
      AllAccepted(reg, specs[..|specs| - 1]) && Accepted(reg, specs[|specs| - 1])
  {
    var p := specs[..|specs| - 1];
    assert forall i :: 0 <= i < |p| ==> p[i] == specs[i];
  }

  /** `_init_metrics` raises exactly when some spec names a metric that
      neither torchmetrics nor MONAI_METRICS provides, or would add a key that
      the ModuleDict refuses. */
  lemma {:induction false} InitSucceedsIffAllAccepted(reg: Registry, specs: seq<MetricSpec>)
    ensures InitBuckets(reg, specs).error == None <==> AllAccepted(reg, specs)
    decreases |specs|
  {
    if specs != [] {
      var p, s := specs[..|specs| - 1], specs[|specs| - 1];
      InitSucceedsIffAllAccepted(reg, p);
      AllAcceptedSnoc(reg, specs);
      AddToModesSucceedsIff(InitBuckets(reg, p).buckets, reg, s);
    }
  }

  /** The first unknown name raises `KeyError(name)` and leaves the buckets as
      the specs before it built them; later specs are never looked at. */
  lemma InitStopsAtFirstUnknown(reg: Registry, specs: seq<MetricSpec>, i: int)
    requires 0 <= i < |specs| && specs[i].name !in AllMetrics(reg)
    requires AllAccepted(reg, specs[..i])
    ensures InitBuckets(reg, specs) == InitOutcome(InitBuckets(reg, specs[..i]).buckets, Some(KeyError(specs[i].name)))
  {
    InitSucceedsIffAllAccepted(reg, specs[..i]);
    AddToModesFails(InitBuckets(reg, specs[..i]).buckets, reg, specs[i]);
    InitBucketsPrefix(reg, specs, i);
    InitErrorPersists(reg, specs, i + 1);
  }

  /** A known name whose key the ModuleDict refuses raises `KeyError(key)`
      on the first mode that would add it, after the earlier modes added
      theirs; later specs are never looked at. */
  lemma InitStopsAtRefusedKey(reg: Registry, specs: seq<MetricSpec>, i: int)
    requires 0 <= i < |specs| && specs[i].name in AllMetrics(reg) && !Accepted(reg, specs[i])
    requires AllAccepted(reg, specs[..i])
    ensures var b := InitBuckets(reg, specs[..i]).buckets;
      var r := InitBuckets(reg, specs);
      var s := specs[i];
      var d, v, m := s.displayName, "v_" + s.displayName, BuildMetric(reg, s);
      var trainFails := s.name !in reg.monai && Refused(reg, d);
      && r.error == Some(KeyError(if trainFails || !Refused(reg, v) then d else v))
      && r.buckets.mtrain == (if s.name in reg.monai || trainFails then b.mtrain else b.mtrain[d := m])
      && r.buckets.mval == (if trainFails || Refused(reg, v) then b.mval else b.mval[v := m])
      && r.buckets.mtest == b.mtest
  {
    InitSucceedsIffAllAccepted(reg, specs[..i]);
    var b := InitBuckets(reg, specs[..i]).buckets;
    AddToModesFails(b, reg, specs[i]);
    InitBucketsPrefix(reg, specs, i);
    InitErrorPersists(reg, specs, i + 1);
  }

  /** The last spec's effect on bucket `mode`, when every spec is accepted. */
  lemma InitBucketsSnoc(reg: Registry, specs: seq<MetricSpec>, mode: Mode)
    requires |specs| > 0 && AllAccepted(reg, specs)
    ensures AllAccepted(reg, specs[..|specs| - 1])
    ensures var p, s := specs[..|specs| - 1], specs[|specs| - 1];
      InitBuckets(reg, specs).buckets.Get(mode)
        == if InBucket(reg, mode, s) then InitBuckets(reg, p).buckets.Get(mode)[BucketKey(mode, s) := BuildMetric(reg, s)]
           else InitBuckets(reg, p).buckets.Get(mode)
  {
    var p, s := specs[..|specs| - 1], specs[|specs| - 1];
    assert forall i :: 0 <= i < |p| ==> p[i] == specs[i];
    InitSucceedsIffAllAccepted(reg, p);
    AddToModesAt(InitBuckets(reg, p).buckets, reg, s, mode);
  }

  /** The keys the specs that belong to bucket `mode` would put there. */
  ghost function SpecKeys(reg: Registry, mode: Mode, specs: seq<MetricSpec>): set<string>
  {
    set j | 0 <= j < |specs| && InBucket(reg, mode, specs[j]) :: BucketKey(mode, specs[j])
  }

  lemma SpecKeysSnoc(reg: Registry, mode: Mode, specs: seq<MetricSpec>)
    requires |specs| > 0
    ensures var p, s := specs[..|specs| - 1], specs[|specs| - 1];
      SpecKeys(reg, mode, specs) == SpecKeys(reg, mode, p) + (if InBucket(reg, mode, s) then {BucketKey(mode, s)} else {})
  {
    var n := |specs| - 1;
    var p, s := specs[..n], specs[n];
    forall k | k in SpecKeys(reg, mode, specs) ensures k in SpecKeys(reg, mode, p) || (InBucket(reg, mode, s) && k == BucketKey(mode, s)) {
      var j :| 0 <= j < |specs| && InBucket(reg, mode, specs[j]) && BucketKey(mode, specs[j]) == k;
      if j < n { assert p[j] == specs[j]; }
    }
    forall k | k in SpecKeys(reg, mode, p) ensures k in SpecKeys(reg, mode, specs) {
      var j :| 0 <= j < |p| && InBucket(reg, mode, p[j]) && BucketKey(mode, p[j]) == k;
      assert p[j] == specs[j];
    }
  }

  /** Reference definition of one bucket: the specs that belong to it,
      written one after the other, a later one over an earlier one. */
  ghost function BucketAfter(reg: Registry, mode: Mode, specs: seq<MetricSpec>): map<string, Metric>
    decreases |specs|
  {
    if specs == [] then map[]
    else
      var b, s := BucketAfter(reg, mode, specs[..|specs| - 1]), specs[|specs| - 1];
      if InBucket(reg, mode, s) && s.name in AllMetrics(reg) then b[BucketKey(mode, s) := BuildMetric(reg, s)] else b
  }

  /** When every spec is accepted, `_init_metrics` fills bucket `mode` as
      the reference definition says. */
  lemma {:induction false} InitBucketsMatchBucketAfter(reg: Registry, specs: seq<MetricSpec>, mode: Mode)
    requires AllAccepted(reg, specs)
    ensures InitBuckets(reg, specs).buckets.Get(mode) == BucketAfter(reg, mode, specs)
    decreases |specs|
  {
    if specs != [] {
      InitBucketsSnoc(reg, specs, mode);
      InitBucketsMatchBucketAfter(reg, specs[..|specs| - 1], mode);
    }
  }

  lemma {:induction false} BucketAfterKeys(reg: Registry, mode: Mode, specs: seq<MetricSpec>)
    requires AllAccepted(reg, specs)
    ensures BucketAfter(reg, mode, specs).Keys == SpecKeys(reg, mode, specs)
    decreases |specs|
  {
    if specs != [] {
      AllAcceptedSnoc(reg, specs);
      BucketAfterKeys(reg, mode, specs[..|specs| - 1]);
      SpecKeysSnoc(reg, mode, specs);
    }
  }

  /** With every name known, bucket `mode` holds exactly the keys of the
      specs that belong to it. */
  lemma BucketKeySet(reg: Registry, specs: seq<MetricSpec>, mode: Mode)
    requires AllAccepted(reg, specs)
    ensures InitBuckets(reg, specs).buckets.Get(mode).Keys == SpecKeys(reg, mode, specs)
  {
    InitBucketsMatchBucketAfter(reg, specs, mode);
    BucketAfterKeys(reg, mode, specs);
  }

  /** Dropping the last spec keeps spec `j` the last one with its key. */
  lemma LastWithKeyPrefix(reg: Registry, mode: Mode, specs: seq<MetricSpec>, j: int)
    requires 0 <= j < |specs| - 1 && LastWithKey(reg, mode, specs, j)
    ensures var p := specs[..|specs| - 1]; p[j] == specs[j] && LastWithKey(reg, mode, p, j)
  {
    var p := specs[..|specs| - 1];
    forall j' | j < j' < |p| && InBucket(reg, mode, p[j']) ensures BucketKey(mode, p[j']) != BucketKey(mode, p[j]) {
      assert p[j'] == specs[j'];
    }
  }

  lemma {:induction false} BucketAfterLastWriter(reg: Registry, mode: Mode, specs: seq<MetricSpec>, j: int)
    requires 0 <= j < |specs| && InBucket(reg, mode, specs[j]) && specs[j].name in AllMetrics(reg)
    requires LastWithKey(reg, mode, specs, j)
    ensures BucketKey(mode, specs[j]) in BucketAfter(reg, mode, specs)
    ensures BucketAfter(reg, mode, specs)[BucketKey(mode, specs[j])] == BuildMetric(reg, specs[j])
    decreases |specs|
  {
    if j < |specs| - 1 {
      LastWithKeyPrefix(reg, mode, specs, j);
      BucketAfterLastWriter(reg, mode, specs[..|specs| - 1], j);
    }
  }

  /** The entry under a key is the metric built from the LAST spec of the
      bucket with that key: a later spec overwrites an earlier one. */
  lemma BucketLastWriter(reg: Registry, specs: seq<MetricSpec>, mode: Mode, j: int)
    requires AllAccepted(reg, specs)
    requires 0 <= j < |specs| && InBucket(reg, mode, specs[j]) && LastWithKey(reg, mode, specs, j)
    ensures var b := InitBuckets(reg, specs).buckets.Get(mode);
      BucketKey(mode, specs[j]) in b && b[BucketKey(mode, specs[j])] == BuildMetric(reg, specs[j])
  {
    InitBucketsMatchBucketAfter(reg, specs, mode);
    BucketAfterLastWriter(reg, mode, specs, j);
  }

  lemma {:induction false} BucketAfterOrigin(reg: Registry, mode: Mode, specs: seq<MetricSpec>, k: string)
    requires k in BucketAfter(reg, mode, specs)
    ensures exists j :: (0 <= j < |specs| && InBucket(reg, mode, specs[j]) && specs[j].name in AllMetrics(reg) &&
                         BucketKey(mode, specs[j]) == k && BucketAfter(reg, mode, specs)[k] == BuildMetric(reg, specs[j]))
    decreases |specs|
  {
    var n := |specs| - 1;
    var p, s := specs[..n], specs[n];
    if !(InBucket(reg, mode, s) && s.name in AllMetrics(reg) && k == BucketKey(mode, s)) {
      BucketAfterOrigin(reg, mode, p, k);
      var j :| 0 <= j < |p| && InBucket(reg, mode, p[j]) && p[j].name in AllMetrics(reg) &&
               BucketKey(mode, p[j]) == k && BucketAfter(reg, mode, p)[k] == BuildMetric(reg, p[j]);
      assert specs[j] == p[j];
    }
  }

  /** Every entry of bucket `mode` was built from some spec that belongs to it. */
  lemma BucketEntryOrigin(reg: Registry, specs: seq<MetricSpec>, mode: Mode, k: string)
    requires AllAccepted(reg, specs)
    requires k in InitBuckets(reg, specs).buckets.Get(mode)
    ensures exists j :: (0 <= j < |specs| && InBucket(reg, mode, specs[j]) && BucketKey(mode, specs[j]) == k &&
                         InitBuckets(reg, specs).buckets.Get(mode)[k] == BuildMetric(reg, specs[j]))
  {
    InitBucketsMatchBucketAfter(reg, specs, mode);
    BucketAfterOrigin(reg, mode, specs, k);
  }

  lemma SpecKeysTrain(reg: Registry, specs: seq<MetricSpec>)
    ensures SpecKeys(reg, MTrain, specs) == set j | 0 <= j < |specs| && specs[j].name !in reg.monai :: specs[j].displayName
  {
  }

  lemma SpecKeysVal(reg: Registry, specs: seq<MetricSpec>)
    ensures SpecKeys(reg, MVal, specs) == set j | 0 <= j < |specs| :: "v_" + specs[j].displayName
  {
  }

  lemma SpecKeysTest(reg: Registry, specs: seq<MetricSpec>)
    ensures SpecKeys(reg, MTest, specs) == set j | 0 <= j < |specs| :: specs[j].displayName
  {
  }

  /** The keys of the three buckets: `v_<display_name>` in `mval`, the
      display name unchanged in `mtrain` and `mtest`, and no spec whose name
      is a MONAI metric contributes to `mtrain`. */
  lemma BucketKeys(reg: Registry, specs: seq<MetricSpec>)
    requires AllAccepted(reg, specs)
    ensures var b := InitBuckets(reg, specs).buckets;
      && b.mtrain.Keys == (set j | 0 <= j < |specs| && specs[j].name !in reg.monai :: specs[j].displayName)
      && b.mval.Keys == (set j | 0 <= j < |specs| :: "v_" + specs[j].displayName)
      && b.mtest.Keys == (set j | 0 <= j < |specs| :: specs[j].displayName)
  {
    BucketKeySet(reg, specs, MTrain);
    BucketKeySet(reg, specs, MVal);
    BucketKeySet(reg, specs, MTest);
    SpecKeysTrain(reg, specs);
    SpecKeysVal(reg, specs);
    SpecKeysTest(reg, specs);
  }

  /** Every metric of the training bucket was built from a spec whose name is
      not a MONAI metric, i.e. from a torchmetrics class. */
  lemma TrainingBucketHasNoMonai(reg: Registry, specs: seq<MetricSpec>)
    requires AllAccepted(reg, specs)
    ensures var b := InitBuckets(reg, specs).buckets.mtrain;
      forall k :: k in b ==> exists j :: (0 <= j < |specs| && specs[j].name !in reg.monai &&
                                          specs[j].name in reg.torchmetrics &&
                                          b[k] == Metric(reg.torchmetrics[specs[j].name], specs[j].args, specs[j].kwargs))
  {
    forall k | k in InitBuckets(reg, specs).buckets.mtrain
      ensures exists j :: (0 <= j < |specs| && specs[j].name !in reg.monai &&
                           specs[j].name in reg.torchmetrics &&
                           InitBuckets(reg, specs).buckets.mtrain[k]
                             == Metric(reg.torchmetrics[specs[j].name], specs[j].args, specs[j].kwargs))
    {
      BucketEntryOrigin(reg, specs, MTrain, k);
    }
  }

  /** A MONAI spec is in `mval` and `mtest` under its keys whenever no later
      spec reuses its display name, but never adds to `mtrain`. */
  lemma MonaiSpecPlacement(reg: Registry, specs: seq<MetricSpec>, j: int)
    requires AllAccepted(reg, specs)
    requires 0 <= j < |specs| && specs[j].name in reg.monai
    requires forall j' :: j < j' < |specs| ==> specs[j'].displayName != specs[j].displayName
    ensures var b := InitBuckets(reg, specs).buckets;
      && "v_" + specs[j].displayName in b.mval && b.mval["v_" + specs[j].displayName] == BuildMetric(reg, specs[j])
      && specs[j].displayName in b.mtest && b.mtest[specs[j].displayName] == BuildMetric(reg, specs[j])
      && (specs[j].displayName in b.mtrain <==>
            exists i :: 0 <= i < |specs| && specs[i].name !in reg.monai && specs[i].displayName == specs[j].displayName)
  {
    BucketKeySet(reg, specs, MTrain);
    forall j' | j < j' < |specs| ensures "v_" + specs[j'].displayName != "v_" + specs[j].displayName {
      PrefixCancels("v_", specs[j'].displayName, specs[j].displayName);
    }
    BucketLastWriter(reg, specs, MVal, j);
    BucketLastWriter(reg, specs, MTest, j);
  }

  /** A one-spec example: a torchmetrics `Accuracy` displayed as `acc` gives
      `acc` in `mtrain` and `mtest` and `v_acc` in `mval`, three equal metrics
      built from the same class and arguments. */
  lemma AccuracyExample(reg: Registry)
    requires "Accuracy" in reg.torchmetrics && "Accuracy" !in reg.monai
    requires "acc" !in reg.moduleAttrs && "v_acc" !in reg.moduleAttrs
    ensures var m := Metric(reg.torchmetrics["Accuracy"], [], map[]);
      InitBuckets(reg, [MetricSpec("Accuracy", [], map[], "acc")])
        == InitOutcome(Buckets(map["acc" := m], map["v_acc" := m], map["acc" := m]), None)
  {
    var spec := MetricSpec("Accuracy", [], map[], "acc");
    assert [spec][..0] == [];
    assert "v_" + "acc" == "v_acc";
    AddToModesAt(EmptyBuckets(), reg, spec, MTrain);
    AddToModesAt(EmptyBuckets(), reg, spec, MVal);
    AddToModesAt(EmptyBuckets(), reg, spec, MTest);
  }

  /** A display name that is already an attribute of the ModuleDict, such as
      its method `train`, raises on the training bucket before anything is
      added. */
  lemma ReservedNameExample(reg: Registry)
    requires "Accuracy" in reg.torchmetrics && "Accuracy" !in reg.monai
    requires "train" in reg.moduleAttrs
    ensures InitBuckets(reg, [MetricSpec("Accuracy", [], map[], "train")])
      == InitOutcome(EmptyBuckets(), Some(KeyError("train")))
  {
    var spec := MetricSpec("Accuracy", [], map[], "train");
    var specs := [spec];
    assert specs[..0] == [];
    AddToModesFails(EmptyBuckets(), reg, spec);
    assert specs[..1] == specs;
  }
}
