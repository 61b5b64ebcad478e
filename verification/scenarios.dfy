/** Concrete keys and one concrete cycle, derived from the general lemmas. Keys (or
    their parts after an explicit prefix) are passed as parameters fixed by `requires`,
    so that the verifier reasons about them through the general lemmas instead of
    evaluating the classifier on literals. */
module Scenarios {
  import opened Wrappers
  import opened Strings
  import opened Sink
  import opened Classifier
  import opened Cycle

  /** `gauge.threads.busy` is the gauge `springboot.threads.busy`: the explicit prefix
      wins over the `threads\.?` rule the rest of the key would match. Likewise
      `gauge.heap.used` is the gauge `springboot.heap.used`, not looked up under `heap\.?`. */
  lemma ExplicitGaugeExamples(busy: string, used: string)
    requires busy == "threads.busy" && used == "heap.used"
    ensures Classify("gauge." + busy) == Emit(Gauge, Namespace + busy)
    ensures Classify("gauge." + used) == Emit(Gauge, Namespace + used)
  {
    assert Classify("gauge." + busy) == Emit(Gauge, Namespace + busy) by {
      NoOccurrenceWithoutFirstChar(busy, "gauge.");
      GaugePrefixStripped(busy);
    }
    assert Classify("gauge." + used) == Emit(Gauge, Namespace + used) by {
      NoOccurrenceWithoutFirstChar(used, "gauge.");
      GaugePrefixStripped(used);
    }
  }

  /** `counter.mem.x` is the rate `springboot.mem.x`, although `mem\.?` is a gauge rule;
      `counter.http.requests` is the rate `springboot.http.requests`. */
  lemma ExplicitCounterExamples(memX: string, requests: string)
    requires memX == "mem.x" && requests == "http.requests"
    ensures Classify("counter." + memX) == Emit(Rate, Namespace + memX)
    ensures Classify("counter." + requests) == Emit(Rate, Namespace + requests)
  {
    assert Classify("counter." + memX) == Emit(Rate, Namespace + memX) by {
      NoOccurrenceWithoutFirstChar(memX, "counter.");
      CounterPrefixStripped(memX);
    }
    assert Classify("counter." + requests) == Emit(Rate, Namespace + requests) by {
      NoOccurrenceWithoutFirstChar(requests, "counter.");
      CounterPrefixStripped(requests);
    }
  }

  /** Every occurrence of "gauge." is removed, not only the leading one:
      `gauge.a.gauge.b` is the gauge `springboot.a.b`. */
  lemma GaugeReplacesEveryOccurrence(a: string, b: string)
    requires a == "a." && b == "b"
    ensures Classify("gauge." + a + "gauge." + b) == Emit(Gauge, Namespace + a + b)
  {
    var pat := "gauge.";
    var key := pat + a + pat + b;
    assert ReplaceAll(key, pat) == a + b by {
      ShorterHasNoOccurrence(b, pat);
      ReplaceAllIsPrefixStrip(pat, b);
      assert (['.'] + (pat + b))[0] != pat[0];
      ReplaceAllKeepsHead('.', pat + b, pat);
      assert (['a'] + (['.'] + (pat + b)))[0] != pat[0];
      ReplaceAllKeepsHead('a', ['.'] + (pat + b), pat);
      assert a + pat + b == ['a'] + (['.'] + (pat + b));
      ReplaceAllLeading(pat, a + pat + b);
      assert key == pat + (a + pat + b);
      assert a + b == ['a'] + (['.'] + b);
    }
    GaugePrefixRule(key);
  }

  /** `classes.loaded` is a rate by the `classes\.` rule, tried before `classes`. */
  lemma ClassesDottedIsRate(key: string)
    requires key == "classes.loaded"
    ensures Classify(key) == Emit(Rate, Namespace + key)
  {
    assert "classes." <= key;
    ClassesTieBreak(key);
  }

  /** `classesLoaded` falls through to the looser `classes` rule and is a gauge. */
  lemma ClassesCamelIsGauge(key: string)
    requires key == "classesLoaded"
    ensures Classify(key) == Emit(Gauge, Namespace + key)
  {
    assert "classes" <= key && key[7] != '.';
    ClassesTieBreak(key);
  }

  /** `memory` is a gauge through `mem\.?`: the dot is optional. */
  lemma MemoryIsGauge(key: string)
    requires key == "memory"
    ensures Classify(key) == Emit(Gauge, Namespace + key)
  {
    assert "mem" <= key;
    OptionalDotIsPlainPrefix(key);
  }

  /** The wildcard dot of `systemload.average` accepts an underscore... */
  lemma SystemloadUnderscoreIsGauge(key: string)
    requires key == "systemload_average"
    ensures Classify(key) == Emit(Gauge, Namespace + key)
  {
    assert key[11..] == "average";
    SystemloadWildcard(key);
  }

  /** ...but not a newline. */
  lemma SystemloadNewlineIsUnmatched(key: string)
    requires key == "systemload\naverage"
    ensures Classify(key) == Unmatched
  {
    assert key[11..] == "average" && key[10] == '\n';
    SystemloadWildcard(key);
  }

  /** A key no rule accepts is unmatched. */
  lemma UnknownIsUnmatched(key: string)
    requires key == "foo.bar"
    ensures Classify(key) == Unmatched
  {
    assert key[0] == 'f';
    UnmatchedIff(key);
  }

  /** `unknowncustom` shares its first letter with `uptime` but no rule accepts it. */
  lemma UnknownCustomIsUnmatched(key: string)
    requires key == "unknowncustom"
    ensures Classify(key) == Unmatched
  {
    assert key[0] == 'u' && key[1] == 'n';
    UnmatchedIff(key);
  }

  /** A cycle over four entries posts each in turn. */
  lemma CycleOfFour<V>(instance: Instance, e0: (string, V), e1: (string, V), e2: (string, V), e3: (string, V))
    requires instance.metricsUrl.Some?
    ensures var tags := TagsOf(instance);
      Check(instance, Fetched([e0, e1, e2, e3]))
        == [Post(e0.0, e0.1, tags), Post(e1.0, e1.1, tags), Post(e2.0, e2.1, tags), Post(e3.0, e3.1, tags)]
  {
    CyclePostsEveryEntry(instance, [e0, e1, e2, e3]);
  }

  /** One cycle over a four-entry snapshot: three submissions with the instance's tags
      and the values passed through, and one warning for the unknown key. */
  lemma EndToEndCycle(instance: Instance, heap: string, requests: string, classes: string, unknown: string)
    requires instance.metricsUrl.Some? && instance.tags == Some(["env:prod"])
    requires heap == "gauge.heap.used" && requests == "counter.http.requests"
    requires classes == "classes.loaded" && unknown == "unknowncustom"
    ensures Check(instance, Fetched([(heap, 120), (requests, 4500), (classes, 10), (unknown, 1)])) == [
      Submit(Emission(Gauge, Namespace + "heap.used", 120, ["env:prod"])),
      Submit(Emission(Rate, Namespace + "http.requests", 4500, ["env:prod"])),
      Submit(Emission(Rate, Namespace + classes, 10, ["env:prod"])),
      Log(Warning, unknown + " is not matched")]
  {
    assert Classify(heap) == Emit(Gauge, Namespace + "heap.used") by {
      var rest := heap[6..];
      assert heap == "gauge." + rest && rest == "heap.used";
      ExplicitGaugeExamples("threads.busy", rest);
    }
    assert Classify(requests) == Emit(Rate, Namespace + "http.requests") by {
      var rest := requests[8..];
      assert requests == "counter." + rest && rest == "http.requests";
      ExplicitCounterExamples("mem.x", rest);
    }
    ClassesDottedIsRate(classes);
    UnknownCustomIsUnmatched(unknown);
    CycleOfFour(instance, (heap, 120), (requests, 4500), (classes, 10), (unknown, 1));
  }

  /** The submissions of four effects of which only the last is a log line. */
  lemma EmissionsOfThreeAndLog<V>(a: Emission<V>, b: Emission<V>, c: Emission<V>, level: Level, message: string)
    ensures Emissions([Submit(a), Submit(b), Submit(c), Log(level, message)]) == [a, b, c]
  {
    var x: seq<Effect<V>> := [Submit(a), Submit(b), Submit(c), Log(level, message)];
    assert x == [Submit(a)] + [Submit(b)] + [Submit(c)] + [Log(level, message)];
    EmissionsSingleton(Submit(a));
    EmissionsSingleton(Submit(b));
    EmissionsSingleton(Submit(c));
    EmissionsSingleton<V>(Log(level, message));
    EmissionsAppend([Submit(a)], [Submit(b)]);
    EmissionsAppend([Submit(a)] + [Submit(b)], [Submit(c)]);
    EmissionsAppend([Submit(a)] + [Submit(b)] + [Submit(c)], [Log(level, message)]);
  }

  /** The submissions of that cycle: the unknown key is dropped, the others kept in order. */
  lemma EndToEndEmissions(instance: Instance, heap: string, requests: string, classes: string, unknown: string)
    requires instance.metricsUrl.Some? && instance.tags == Some(["env:prod"])
    requires heap == "gauge.heap.used" && requests == "counter.http.requests"
    requires classes == "classes.loaded" && unknown == "unknowncustom"
    ensures Emissions(Check(instance, Fetched([(heap, 120), (requests, 4500), (classes, 10), (unknown, 1)]))) == [
      Emission(Gauge, Namespace + "heap.used", 120, ["env:prod"]),
      Emission(Rate, Namespace + "http.requests", 4500, ["env:prod"]),
      Emission(Rate, Namespace + classes, 10, ["env:prod"])]
  {
    EndToEndCycle(instance, heap, requests, classes, unknown);
    EmissionsOfThreeAndLog(
      Emission(Gauge, Namespace + "heap.used", 120, ["env:prod"]),
      Emission(Rate, Namespace + "http.requests", 4500, ["env:prod"]),
      Emission(Rate, Namespace + classes, 10, ["env:prod"]),
      Warning, unknown + " is not matched");
  }
}
