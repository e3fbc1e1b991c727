/** The logging keys of `EnhancedLightningModule._update_metrics`
    (src/networks/core.py): which keys a metric's result is logged under, and
    with which `on_step` / `on_epoch` flags. */
module CoreLogging {
  import opened Text

  /** The phase `_step_end` passes as `mode`. */
  datatype Phase = Train | Val | Test

  /** The shape of a metric's result: a 0-d tensor, or a vector of `length`
      entries. The values themselves are not modelled. */
  datatype MetricValue = Scalar | Vector(length: nat)

  /** Line 68, `is_dist`: distance metrics are not computed for background. */
  predicate IsDistance(key: string)
    ensures IsDistance(key) <==> Occurs(key, "hdf") || Occurs(key, "masd")
  {
    ContainsIffOccurs(key, "hdf");
    ContainsIffOccurs(key, "masd");
    Contains(key, "hdf") || Contains(key, "masd")
  }

  /** `i + is_dist(k)`: Python adds the boolean as 0 or 1. */
  function IndexOffset(key: string): (off: nat)
    ensures off <= 1
  {
    if IsDistance(key) then 1 else 0
  }

  /** Lines 75-77: a scalar distance is unsqueezed to a vector of length 1. */
  function Unsqueezed(key: string, v: MetricValue): MetricValue
  {
    if v == Scalar && IsDistance(key) then Vector(1) else v
  }

  /** `f"{k}/{j}"` */
  function IndexedKey(key: string, j: nat): string
  {
    key + "/" + NatToString(j)
  }

  /** The indexed keys `k/lo .. k/(hi-1)`. */
  function IndexRange(key: string, lo: nat, hi: nat): set<string>
  {
    set j: nat | lo <= j < hi :: IndexedKey(key, j)
  }

  /** Lines 75-82: the keys under which the result `v` of the metric stored
      under `key` is logged; entry i of a vector goes to `k/(i + offset)`. */
  function KeysOf(key: string, v: MetricValue): (r: set<string>)
    ensures forall s :: s in r ==> key <= s
    ensures key in r <==> Unsqueezed(key, v) == Scalar
  {
    match Unsqueezed(key, v)
    case Scalar => {key}
    case Vector(n) => IndexRange(key, IndexOffset(key), n + IndexOffset(key))
  }

  /** Every key logged by one `_update_metrics` call on a bucket whose
      display keys are `keys`, `resultOf(k)` being the result of the metric
      stored under `k`. */
  function LogKeys(keys: set<string>, resultOf: string -> MetricValue): (r: set<string>)
    ensures forall k :: k in keys ==> KeysOf(k, resultOf(k)) <= r
    ensures forall s :: s in r ==> exists k :: k in keys && k <= s
  {
    set k, s | k in keys && s in KeysOf(k, resultOf(k)) :: s
  }

  /** Logging one more metric adds exactly that metric's keys. */
  lemma LogKeysInsert(done: set<string>, k: string, resultOf: string -> MetricValue)
    ensures LogKeys(done + {k}, resultOf) == LogKeys(done, resultOf) + KeysOf(k, resultOf(k))
  {
    forall s | s in LogKeys(done + {k}, resultOf) ensures s in LogKeys(done, resultOf) + KeysOf(k, resultOf(k)) {
      var k', s' :| k' in done + {k} && s' in KeysOf(k', resultOf(k')) && s' == s;
      if k' != k { assert s in LogKeys(done, resultOf); }
    }
  }

  /** Lines 65-66. */
  datatype LogFlags = LogFlags(onStep: bool, onEpoch: bool)

  function FlagsOf(phase: Phase): (f: LogFlags)
    ensures f.onStep <==> phase == Test
    ensures f.onEpoch <==> phase != Test
    ensures f.onStep != f.onEpoch
  {
    if phase == Test then LogFlags(true, false) else LogFlags(false, true)
  }

  /** A scalar of a non-distance metric is logged under its key alone; a
      scalar of a distance metric under `k/1` alone. */
  lemma ScalarKeys(key: string)
    ensures !IsDistance(key) ==> KeysOf(key, Scalar) == {key}
    ensures IsDistance(key) ==> KeysOf(key, Scalar) == {key + "/1"}
  {
    if IsDistance(key) {
      assert NatToString(1) == "1";
      assert IndexedKey(key, 1) == key + "/1";
      forall s | s in IndexRange(key, 1, 2) ensures s == IndexedKey(key, 1) {
        var j: nat :| 1 <= j < 2 && IndexedKey(key, j) == s;
      }
      assert IndexedKey(key, 1) in IndexRange(key, 1, 2);
    }
  }

  /** Indexed keys of one metric are distinct for distinct indices. */
  lemma IndexedKeyInjective(key: string, i: nat, j: nat)
    requires IndexedKey(key, i) == IndexedKey(key, j)
    ensures i == j
  {
    var pre := key + "/";
    assert IndexedKey(key, i) == pre + NatToString(i);
    assert IndexedKey(key, j) == pre + NatToString(j);
    assert NatToString(i) == IndexedKey(key, i)[|pre|..] == IndexedKey(key, j)[|pre|..] == NatToString(j);
    NatToStringInjective(i, j);
  }

  /** `k/j` is among `k/lo .. k/(hi-1)` exactly when lo <= j < hi. */
  lemma IndexRangeMembers(key: string, lo: nat, hi: nat, j: nat)
    ensures IndexedKey(key, j) in IndexRange(key, lo, hi) <==> lo <= j < hi
  {
    if IndexedKey(key, j) in IndexRange(key, lo, hi) {
      var i: nat :| lo <= i < hi && IndexedKey(key, i) == IndexedKey(key, j);
      IndexedKeyInjective(key, i, j);
    }
  }

  lemma {:induction false} IndexRangeSize(key: string, lo: nat, hi: nat)
    requires lo <= hi
    ensures |IndexRange(key, lo, hi)| == hi - lo
    decreases hi - lo
  {
    if lo < hi {
      IndexRangeSize(key, lo, hi - 1);
      assert IndexRange(key, lo, hi) == IndexRange(key, lo, hi - 1) + {IndexedKey(key, hi - 1)};
      IndexRangeMembers(key, lo, hi - 1, hi - 1);
    } else {
      assert IndexRange(key, lo, hi) == {};
    }
  }

  /** A vector of length n is logged under exactly n keys `k/j`, with j
      running over 0..n-1, or over 1..n for a distance metric; never under
      `k` itself. */
  lemma VectorKeys(key: string, n: nat)
    ensures |KeysOf(key, Vector(n))| == n
    ensures forall j: nat :: IndexedKey(key, j) in KeysOf(key, Vector(n)) <==>
      (if IsDistance(key) then 1 <= j <= n else j < n)
    ensures key !in KeysOf(key, Vector(n))
  {
    var off := IndexOffset(key);
    assert KeysOf(key, Vector(n)) == IndexRange(key, off, n + off);
    IndexRangeSize(key, off, n + off);
    forall j: nat ensures IndexedKey(key, j) in KeysOf(key, Vector(n)) <==> off <= j < n + off {
      IndexRangeMembers(key, off, n + off, j);
    }
  }

  /** The `v_` prefix of the validation keys never changes whether a key is
      taken for a distance metric: train, validation and test agree. */
  lemma DistanceIgnoresValidationPrefix(displayName: string)
    ensures IsDistance("v_" + displayName) == IsDistance(displayName)
  {
    assert "v_" + displayName == ['v'] + (['_'] + displayName);
    ContainsAfterForeignChar('v', ['_'] + displayName, "hdf");
    ContainsAfterForeignChar('_', displayName, "hdf");
    ContainsAfterForeignChar('v', ['_'] + displayName, "masd");
    ContainsAfterForeignChar('_', displayName, "masd");
  }
}
