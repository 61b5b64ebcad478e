/** `SpringbootActuator.post`: route one metric key to a gauge or a rate submission
    under the `springboot.` namespace, or log it as unmatched. */
module Classifier {
  import opened Wrappers
  import opened Strings
  import opened Pattern
  import opened Sink
  import opened Rules

  /** Namespace prepended to every submitted metric name. */
  const Namespace: string := "springboot."

  /** The decision `post` takes for a key: submit under a kind and a name, or not. */
  datatype Outcome = Emit(kind: Kind, name: string) | Unmatched

  /** The classification performed by `post`: the explicit `gauge.` and `counter.`
      patterns first, deleting every occurrence of the matched marker from the name;
      then the built-in table, first match wins, keeping the key as the name. */
  function Classify(key: string): (r: Outcome)
    ensures r.Emit? ==> Namespace <= r.name && |r.name| <= |Namespace| + |key|
    ensures r.Emit? && r.kind == Rate ==> !("gauge." <= key)
  {
    if Accepts(GaugePattern, key) then Emit(Gauge, Namespace + ReplaceAll(key, "gauge."))
    else if Accepts(RatePattern, key) then Emit(Rate, Namespace + ReplaceAll(key, "counter."))
    else
      match BuiltinKind(key)
      case Some(kind) => Emit(kind, Namespace + key)
      case None => Unmatched
  }

  /** The same decision written with plain prefix tests and the prefix cascade for the
      built-in table. */
  function ReferenceClassify(key: string): (r: Outcome)
  {
    if "gauge." <= key then Emit(Gauge, Namespace + ReplaceAll(key, "gauge."))
    else if "counter." <= key then Emit(Rate, Namespace + ReplaceAll(key, "counter."))
    else
      match BuiltinReference(key)
      case Some(k) => Emit(k, Namespace + key)
      case None => Unmatched
  }

  /** The pattern-driven classification agrees with the prefix-test reference on every key. */
  lemma ClassifyIsReference(key: string)
    ensures Classify(key) == ReferenceClassify(key)
  {
    BuiltinTableIsReference(key);
  }

  /** A key starting with `gauge.` is a gauge named after the key with every "gauge."
      removed, whatever the rest of the key looks like. */
  lemma GaugePrefixRule(key: string)
    requires "gauge." <= key
    ensures Classify(key) == Emit(Gauge, Namespace + ReplaceAll(key, "gauge."))
  {
  }

  /** When "gauge." occurs only at the front, the name is the key with that prefix stripped. */
  lemma GaugePrefixStripped(rest: string)
    requires !Occurs(rest, "gauge.")
    ensures Classify("gauge." + rest) == Emit(Gauge, Namespace + rest)
  {
    GaugePrefixRule("gauge." + rest);
    ReplaceAllIsPrefixStrip("gauge.", rest);
  }

  /** A key starting with `counter.` (and not with `gauge.`) is a rate named after the
      key with every "counter." removed. */
  lemma CounterPrefixRule(key: string)
    requires !("gauge." <= key) && "counter." <= key
    ensures Classify(key) == Emit(Rate, Namespace + ReplaceAll(key, "counter."))
  {
  }

  /** When "counter." occurs only at the front, the name is the key with that prefix stripped. */
  lemma CounterPrefixStripped(rest: string)
    requires !Occurs(rest, "counter.")
    ensures Classify("counter." + rest) == Emit(Rate, Namespace + rest)
  {
    var key := "counter." + rest;
    assert key[0] != "gauge."[0];
    CounterPrefixRule(key);
    ReplaceAllIsPrefixStrip("counter.", rest);
  }

  /** The converse for gauges: when "gauge." occurs again after the prefix, that occurrence
      is deleted too, so the name is not the key with only its prefix stripped. */
  lemma GaugeNotStrippedWhenRepeated(rest: string)
    requires Occurs(rest, "gauge.")
    ensures Classify("gauge." + rest) != Emit(Gauge, Namespace + rest)
  {
    GaugePrefixRule("gauge." + rest);
    ReplaceAllLeading("gauge.", rest);
    assert |Namespace + ReplaceAll(rest, "gauge.")| < |Namespace + rest|;
  }

  /** The converse for counters: a repeated "counter." is deleted as well. */
  lemma CounterNotStrippedWhenRepeated(rest: string)
    requires Occurs(rest, "counter.")
    ensures Classify("counter." + rest) != Emit(Rate, Namespace + rest)
  {
    var key := "counter." + rest;
    assert key[0] != "gauge."[0];
    CounterPrefixRule(key);
    ReplaceAllLeading("counter.", rest);
    assert |Namespace + ReplaceAll(rest, "counter.")| < |Namespace + rest|;
  }

  /** Without an explicit prefix, the first matching built-in rule decides the kind and
      the key is submitted under its own name; with no match the key is unmatched. */
  lemma BuiltinRule(key: string)
    requires !("gauge." <= key) && !("counter." <= key)
    ensures BuiltinReference(key).Some? ==> Classify(key) == Emit(BuiltinReference(key).value, Namespace + key)
    ensures BuiltinReference(key).None? ==> Classify(key) == Unmatched
  {
    ClassifyIsReference(key);
  }

  /** Some built-in rule accepts the key (in no particular order). */
  predicate AnyBuiltinAccepts(key: string)
  {
    || "uptime" <= key || "instance.uptime" <= key || SystemloadAverage(key)
    || "processors" <= key || "mem" <= key || "heap" <= key || "gc." <= key
    || "threads" <= key || "classes" <= key || "httpsessions." <= key
    || "datasource." <= key || "cache." <= key
  }

  /** A key is unmatched exactly when neither explicit prefix nor any built-in rule
      accepts it; rule order plays no part in whether a key is matched. */
  lemma UnmatchedIff(key: string)
    ensures Classify(key) == Unmatched
        <==> !("gauge." <= key) && !("counter." <= key) && !AnyBuiltinAccepts(key)
  {
    assert ReferenceClassify(key) == Unmatched
        <==> !("gauge." <= key) && !("counter." <= key) && !AnyBuiltinAccepts(key) by {
      if "classes." <= key {
        assert "classes" <= key;
      }
    }
    ClassifyIsReference(key);
  }

  /** Among keys with no explicit prefix, exactly those starting with `gc.` or
      `classes.` become rates; every other matched key is a gauge. */
  lemma BuiltinRateIff(key: string)
    requires !("gauge." <= key) && !("counter." <= key)
    ensures Classify(key) == Emit(Rate, Namespace + key) <==> "gc." <= key || "classes." <= key
  {
    assert ReferenceClassify(key) == Emit(Rate, Namespace + key) <==> "gc." <= key || "classes." <= key by {
      if |key| >= 2 && key[0] == 'g' && key[1] == 'c' {
      } else if |key| >= 2 && key[0] == 'c' && key[1] == 'l' {
      } else {
        assert !("gc." <= key) && !("classes." <= key) && !("classes" <= key);
      }
    }
    ClassifyIsReference(key);
  }

  /** `classes.` is tried before the looser `classes`: a key with the dot is a rate,
      one without it is a gauge. */
  lemma ClassesTieBreak(key: string)
    requires "classes" <= key
    ensures "classes." <= key ==> Classify(key) == Emit(Rate, Namespace + key)
    ensures !("classes." <= key) ==> Classify(key) == Emit(Gauge, Namespace + key)
  {
    assert ReferenceClassify(key) == Emit(if "classes." <= key then Rate else Gauge, Namespace + key) by {
      assert key[0] == 'c' && key[1] == 'l';
    }
    ClassifyIsReference(key);
  }

  /** `mem\.?`, `heap\.?` and `threads\.?` accept every key starting with the bare word. */
  lemma OptionalDotIsPlainPrefix(key: string)
    requires "mem" <= key || "heap" <= key || "threads" <= key
    ensures Classify(key) == Emit(Gauge, Namespace + key)
  {
    assert ReferenceClassify(key) == Emit(Gauge, Namespace + key) by {
      assert key[0] == 'm' || key[0] == 'h' || key[0] == 't';
    }
    ClassifyIsReference(key);
  }

  /** `systemload.average` has an unescaped dot: the eleventh character may be anything
      but a newline. */
  lemma SystemloadWildcard(key: string)
    requires "systemload" <= key && |key| > 10 && "average" <= key[11..]
    ensures key[10] != '\n' ==> Classify(key) == Emit(Gauge, Namespace + key)
    ensures key[10] == '\n' ==> Classify(key) == Unmatched
  {
    assert ReferenceClassify(key) == if key[10] == '\n' then Unmatched else Emit(Gauge, Namespace + key) by {
      assert key[0] == 's';
    }
    ClassifyIsReference(key);
  }

  /** `post`: one effect per key, either a submission carrying the value and tags
      unchanged or a warning naming the key. */
  function Post<V>(key: string, value: V, tags: seq<string>): (r: Effect<V>)
    ensures r.Submit? <==> Classify(key).Emit?
    ensures r.Submit? ==> r.emission.value == value && r.emission.tags == tags
    ensures r.Submit? ==> r.emission.kind == Classify(key).kind && r.emission.name == Classify(key).name
    ensures r.Log? ==> r.level == Warning && r.message == key + " is not matched"
  {
    match Classify(key)
    case Emit(kind, name) => Submit(Emission(kind, name, value, tags))
    case Unmatched => Log(Warning, key + " is not matched")
  }
}
