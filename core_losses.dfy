/** `EnhancedLightningModule._log_errs` (src/networks/core.py): how a loss
    result is logged and what is handed on to the step-end hook. */
module CoreLosses {
  import opened Common
  import opened Text

  /** A loss result: one tensor, or named terms (a VAE, for example). */
  datatype Errs<T> = Single(value: T) | Terms(terms: map<string, T>)

  /** What `_log_errs` returns: the entry at `name` for named terms, the
      singleton dict `{name: errs}` for one tensor. */
  datatype Returned<T> = Term(term: T) | Outs(outs: map<string, T>)

  /** The entries handed to `log` / `log_dict` (logged before the lookup at
      `name` can fail), and the return value or the exception raised. */
  datatype LogErrsOutcome<T> = LogErrsOutcome(logged: map<string, T>, returned: Result<Returned<T>>)

  /** Line 88: `{f"v_{k}": v for k, v in errs.items()}`. */
  function PrefixKeys<T>(m: map<string, T>): (r: map<string, T>)
    ensures r.Keys == set k | k in m :: "v_" + k
    ensures forall k :: k in m ==> "v_" + k in r && r["v_" + k] == m[k]
  {
    assert forall k1, k2 :: k1 in m && k2 in m && "v_" + k1 == "v_" + k2 ==> k1 == k2 by {
      forall k1, k2 | k1 in m && k2 in m && "v_" + k1 == "v_" + k2 ensures k1 == k2 {
        PrefixCancels("v_", k1, k2);
      }
    }
    map k | k in m :: "v_" + k := m[k]
  }

  /** `_log_errs(errs, name)`; the `on_step` / `on_epoch` flags are passed
      through to the logger unchanged and are not modelled. */
  function LogErrs<T>(errs: Errs<T>, name: string): (o: LogErrsOutcome<T>)
    ensures o.returned.Ok? <==> name in o.logged
    ensures o.returned.Err? ==> errs.Terms? && o.returned.error == KeyError(name)
    ensures |o.logged| == if errs.Terms? then |errs.terms| else 1
  {
    match errs
    case Terms(m) =>
      PrefixKeysKeepsSize(m);
      var logged := if 'v' in name then PrefixKeys(m) else m;
      LogErrsOutcome(logged, if name in logged then Ok(Term(logged[name])) else Err(KeyError(name)))
    case Single(e) =>
      LogErrsOutcome(map[name := e], Ok(Outs(map[name := e])))
  }

  /** Prefixing never merges two terms: as many entries are logged as the
      loss has terms. */
  lemma {:induction false} PrefixKeysKeepsSize<T>(m: map<string, T>)
    ensures |PrefixKeys(m)| == |m|
    decreases |m|
  {
    if m != map[] {
      var k :| k in m;
      var rest := m - {k};
      PrefixKeysKeepsSize(rest);
      assert PrefixKeys(m).Keys == PrefixKeys(rest).Keys + {"v_" + k};
      if "v_" + k in PrefixKeys(rest) {
        var k' :| k' in rest && "v_" + k' == "v_" + k;
        PrefixCancels("v_", k', k);
      }
      assert |PrefixKeys(m).Keys| == |PrefixKeys(rest).Keys| + 1;
    }
  }

  /** Named terms: every term is logged, each key prefixed with `v_` exactly
      when the name contains a `v`, with its value unchanged; the result is
      the logged entry at `name`, or `KeyError(name)` when there is none. */
  lemma LogErrsTerms<T>(m: map<string, T>, name: string)
    ensures var o := LogErrs(Terms(m), name);
      && |o.logged| == |m|
      && ('v' in name ==> forall k :: k in m ==> "v_" + k in o.logged && o.logged["v_" + k] == m[k])
      && ('v' in name ==> forall k :: k in o.logged ==> exists k' :: k' in m && k == "v_" + k')
      && ('v' !in name ==> o.logged == m)
      && (o.returned.Ok? <==> name in o.logged)
      && (o.returned.Ok? ==> o.returned.value == Term(o.logged[name]))
      && (o.returned.Err? ==> o.returned.error == KeyError(name))
  {
    PrefixKeysKeepsSize(m);
  }

  /** One tensor: logged under `name`, returned as `{name: errs}`. */
  lemma LogErrsSingle<T>(e: T, name: string)
    ensures LogErrs(Single(e), name) == LogErrsOutcome(map[name := e], Ok(Outs(map[name := e])))
  {
  }

  /** The two names the step hooks use: validation (`v_loss`) prefixes the
      terms and returns the term the loss called `loss`, as training (`loss`)
      does without prefixing; without a `loss` term both raise. */
  lemma StepNamesPickLossTerm<T>(m: map<string, T>)
    ensures LogErrs(Terms(m), "v_loss").returned == if "loss" in m then Ok(Term(m["loss"])) else Err(KeyError("v_loss"))
    ensures LogErrs(Terms(m), "loss").returned == if "loss" in m then Ok(Term(m["loss"])) else Err(KeyError("loss"))
  {
    assert 'v' in "v_loss" by { assert "v_loss"[0] == 'v'; }
    assert 'v' !in "loss";
    assert "v_loss" == "v_" + "loss";
    if "v_loss" in PrefixKeys(m) {
      var k :| k in m && "v_" + k == "v_loss";
      PrefixCancels("v_", k, "loss");
    }
  }
}
