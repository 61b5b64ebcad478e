/** The static rule tables of the check: the two explicit-prefix patterns and the
    ordered list of built-in patterns, each paired with the primitive it routes to. */
module Rules {
  import opened Wrappers
  import opened Pattern
  import opened Sink

  /** One built-in rule: a start-anchored pattern and the kind a matching key gets. */
  datatype Rule = Rule(pattern: Shape, kind: Kind)

  /** `gauge\.` */
  const GaugePattern: Shape := Literal("gauge.")

  /** `counter\.` */
  const RatePattern: Shape := Literal("counter.")

  /** The built-in table, in its declared order; the first matching rule wins. */
  const BuiltinTable: seq<Rule> := [
    Rule(Literal("uptime"), Gauge),                          // uptime
    Rule(Literal("instance.uptime"), Gauge),                 // instance\.uptime
    Rule(AnyCharBetween("systemload", "average"), Gauge),    // systemload.average
    Rule(Literal("processors"), Gauge),                      // processors
    Rule(OptionalLast("mem", '.'), Gauge),                   // mem\.?
    Rule(OptionalLast("heap", '.'), Gauge),                  // heap\.?
    Rule(Literal("gc."), Rate),                              // gc\.
    Rule(OptionalLast("threads", '.'), Gauge),               // threads\.?
    Rule(Literal("classes."), Rate),                         // classes\.
    Rule(Literal("classes"), Gauge),                         // classes
    Rule(Literal("httpsessions."), Gauge),                   // httpsessions\.
    Rule(Literal("datasource."), Gauge),                     // datasource\.
    Rule(Literal("cache."), Gauge)                           // cache\.
  ]

  /** The position of the first rule in `rules` whose pattern accepts `key`, or None
      when none does. */
  function FirstMatch(rules: seq<Rule>, key: string): (r: Option<nat>)
    ensures r.Some? ==> r.value < |rules| && Accepts(rules[r.value].pattern, key)
    ensures r.Some? ==> forall j :: 0 <= j < r.value ==> !Accepts(rules[j].pattern, key)
    ensures r.None? <==> forall j :: 0 <= j < |rules| ==> !Accepts(rules[j].pattern, key)
    decreases |rules|
  {
    if |rules| == 0 then None
    else if Accepts(rules[0].pattern, key) then Some(0)
    else
      match FirstMatch(rules[1..], key)
      case None => None
      case Some(i) => Some(i + 1)
  }

  /** Read with `re.match` on each rule's regular expression, the rule found is the
      first whose expression matches, and None means no expression matches. */
  lemma FirstMatchIsFirstRegexMatch(rules: seq<Rule>, key: string)
    ensures var r := FirstMatch(rules, key);
      && (r.Some? ==> Matches(Regex(rules[r.value].pattern), key))
      && (r.Some? ==> forall j :: 0 <= j < r.value ==> !Matches(Regex(rules[j].pattern), key))
      && (r.None? <==> forall j :: 0 <= j < |rules| ==> !Matches(Regex(rules[j].pattern), key))
  {
    forall j | 0 <= j < |rules|
      ensures Accepts(rules[j].pattern, key) <==> Matches(Regex(rules[j].pattern), key)
    {
      AcceptsIsMatches(rules[j].pattern, key);
    }
  }

  /** The kind of the first rule in `rules` that accepts `key`, if any: the loop over
      the table, which stops at the first accepting rule. */
  function RuleKind(rules: seq<Rule>, key: string): (r: Option<Kind>)
    decreases |rules|
  {
    if |rules| == 0 then None
    else if Accepts(rules[0].pattern, key) then Some(rules[0].kind)
    else RuleKind(rules[1..], key)
  }

  /** A kind the loop returns is the kind of some rule of the table that accepts the key. */
  lemma {:induction false} RuleKindAccepted(rules: seq<Rule>, key: string)
    ensures RuleKind(rules, key).Some? ==>
      exists j :: 0 <= j < |rules| && Accepts(rules[j].pattern, key) && rules[j].kind == RuleKind(rules, key).value
    decreases |rules|
  {
    if |rules| > 0 && !Accepts(rules[0].pattern, key) {
      RuleKindAccepted(rules[1..], key);
      if RuleKind(rules, key).Some? {
        var j :| 0 <= j < |rules[1..]| && Accepts(rules[1..][j].pattern, key) && rules[1..][j].kind == RuleKind(rules, key).value;
        assert rules[j + 1] == rules[1..][j];
      }
    }
  }

  /** The loop picks the kind of exactly the rule `FirstMatch` finds, and nothing when
      it finds none. */
  lemma {:induction false} RuleKindIsFirstMatch(rules: seq<Rule>, key: string)
    ensures FirstMatch(rules, key).None? ==> RuleKind(rules, key).None?
    ensures FirstMatch(rules, key).Some? ==> RuleKind(rules, key) == Some(rules[FirstMatch(rules, key).value].kind)
    decreases |rules|
  {
    if |rules| > 0 && !Accepts(rules[0].pattern, key) {
      RuleKindIsFirstMatch(rules[1..], key);
      match FirstMatch(rules[1..], key)
      case None =>
      case Some(i) => assert rules[i + 1] == rules[1..][i];
    }
  }

  /** The loop finds nothing exactly when no rule of the table accepts the key. */
  lemma RuleKindNoneIff(rules: seq<Rule>, key: string)
    ensures RuleKind(rules, key).None? <==> forall j :: 0 <= j < |rules| ==> !Accepts(rules[j].pattern, key)
  {
    RuleKindIsFirstMatch(rules, key);
  }

  /** The kind the built-in table assigns to `key`, if any rule matches. */
  function BuiltinKind(key: string): (r: Option<Kind>)
  {
    RuleKind(BuiltinTable, key)
  }

  /** `systemload`, any one character except a newline, then `average`. */
  predicate SystemloadAverage(key: string)
  {
    "systemload" <= key && |key| > 10 && key[10] != '\n' && "average" <= key[11..]
  }

  /** The built-in table written out as a cascade of plain prefix tests, in the same
      order, with the optional-dot patterns reduced to the prefixes they accept. */
  function BuiltinReference(key: string): (r: Option<Kind>)
  {
    if "uptime" <= key then Some(Gauge)
    else if "instance.uptime" <= key then Some(Gauge)
    else if SystemloadAverage(key) then Some(Gauge)
    else if "processors" <= key then Some(Gauge)
    else if "mem" <= key then Some(Gauge)
    else if "heap" <= key then Some(Gauge)
    else if "gc." <= key then Some(Rate)
    else if "threads" <= key then Some(Gauge)
    else if "classes." <= key then Some(Rate)
    else if "classes" <= key then Some(Gauge)
    else if "httpsessions." <= key then Some(Gauge)
    else if "datasource." <= key then Some(Gauge)
    else if "cache." <= key then Some(Gauge)
    else None
  }

  /* The walk over the table, two rules at a time, each rule read as the prefix test it
     performs; the split keeps every step a small proof obligation. */

  lemma Walk0(key: string)
    ensures RuleKind(BuiltinTable[0..], key)
         == if "uptime" <= key then Some(Gauge)
            else if "instance.uptime" <= key then Some(Gauge)
            else RuleKind(BuiltinTable[2..], key)
  {
  }

  lemma Walk2(key: string)
    ensures RuleKind(BuiltinTable[2..], key)
         == if SystemloadAverage(key) then Some(Gauge)
            else if "processors" <= key then Some(Gauge)
            else RuleKind(BuiltinTable[4..], key)
  {
  }

  lemma Walk4(key: string)
    ensures RuleKind(BuiltinTable[4..], key)
         == if "mem" <= key then Some(Gauge)
            else if "heap" <= key then Some(Gauge)
            else RuleKind(BuiltinTable[6..], key)
  {
  }

  lemma Walk6(key: string)
    ensures RuleKind(BuiltinTable[6..], key)
         == if "gc." <= key then Some(Rate)
            else if "threads" <= key then Some(Gauge)
            else RuleKind(BuiltinTable[8..], key)
  {
  }

  lemma Walk8(key: string)
    ensures RuleKind(BuiltinTable[8..], key)
         == if "classes." <= key then Some(Rate)
            else if "classes" <= key then Some(Gauge)
            else RuleKind(BuiltinTable[10..], key)
  {
  }

  lemma Walk10(key: string)
    ensures RuleKind(BuiltinTable[10..], key)
         == if "httpsessions." <= key then Some(Gauge)
            else if "datasource." <= key then Some(Gauge)
            else RuleKind(BuiltinTable[12..], key)
  {
  }

  lemma Walk12(key: string)
    ensures RuleKind(BuiltinTable[12..], key) == if "cache." <= key then Some(Gauge) else None
  {
    assert BuiltinTable[13..] == [];
  }

  /** First-match over the table agrees with the prefix cascade on every key. */
  lemma BuiltinTableIsReference(key: string)
    ensures BuiltinKind(key) == BuiltinReference(key)
  {
    assert BuiltinTable[0..] == BuiltinTable;
    Walk0(key);
    Walk2(key);
    Walk4(key);
    Walk6(key);
    Walk8(key);
    Walk10(key);
    Walk12(key);
  }

  /** The explicit `gauge\.` pattern, read as a regular expression, is the prefix test
      for "gauge.". */
  lemma GaugePatternIsPrefix(key: string)
    ensures Matches(Regex(GaugePattern), key) <==> "gauge." <= key
  {
    AcceptsIsMatches(GaugePattern, key);
  }

  /** The explicit `counter\.` pattern, read as a regular expression, is the prefix test
      for "counter.". */
  lemma RatePatternIsPrefix(key: string)
    ensures Matches(Regex(RatePattern), key) <==> "counter." <= key
  {
    AcceptsIsMatches(RatePattern, key);
  }
}
