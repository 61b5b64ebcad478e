# Spring Boot Actuator metric classification, modelled in Dafny

This project models the metric classification engine of the Spring Boot Actuator
agent check, `SpringbootActuator` in `springboot_actuator.py`, and one check cycle
around it. The check fetches the Actuator `metrics` endpoint, a flat JSON object of
metric key → value. `post` routes each key to one of three outcomes:

- a **gauge** submission named `springboot.` + a normalised name;
- a **rate** submission named `springboot.` + a normalised name;
- a **warning** `"<key> is not matched"`, with nothing submitted.

The rules are tried in this order:

1. The explicit `gauge\.` pattern. The name is the key with every `"gauge."` deleted.
2. The explicit `counter\.` pattern. The name is the key with every `"counter."` deleted.
3. The built-in table of 13 start-anchored patterns. The first match wins and the key is kept as the name.
4. Otherwise the key is unmatched.

Around `post`, `check` does three things:

- It skips an instance without `metrics_url`.
- It aborts the cycle with a critical log when the fetch times out.
- Otherwise it posts every fetched entry with the instance's tags.

Modules, one per file:

- `Wrappers` (`wrappers.dfy`): `Option`.
- `Strings` (`strings.dfy`): `ReplaceAll`, which is Python's `str.replace(pat, "")`. It scans left to right and deletes non-overlapping occurrences. `Occurs` is substring occurrence.
- `Pattern` (`pattern.dfy`): the three pattern shapes the tables use.
  - A literal, e.g. `gc\.`.
  - A literal whose last character is optional, e.g. `mem\.?`.
  - Two literals around an unescaped dot, i.e. `systemload.average`.
  - `Accepts` is the hand-written start-anchored test of each shape. `Matches` is the `re.match` reading of the same pattern over a small atom language (a literal character, `.` matching anything but a newline, `c?`). `AcceptsIsMatches` proves the two agree.
- `Sink` (`sink.dfy`): the records the check hands to the agent. A submission is `Emission(kind, name, value, tags)`; a log line is `Log(level, message)`.
- `Rules` (`rules.dfy`): the two explicit patterns and the built-in table. `FirstMatch` and `RuleKind` are the first-match walk. `BuiltinReference` is an independent prefix cascade that the walk is proved equal to.
- `Classifier` (`classifier.dfy`): `Classify`, which is the decision `post` takes, and `Post`, which is the effect it has. `ReferenceClassify` is the same decision written with plain prefix tests.
- `Seqs` (`seqs.dfy`): mapping a function over a sequence, and a proof that it preserves permutations.
- `Cycle` (`cycle.dfy`): `Check`, one cycle. The fetch is an input: either `Timeout(reason)` or `Fetched(entries)`.
- `Scenarios` (`scenarios.dfy`): concrete keys and the four-entry end-to-end cycle.

Lines 52 and 55 are not prefix stripping: they delete every occurrence of the
marker, not only the leading one, and the model follows the code. So `gauge.a.gauge.b` becomes `springboot.a.b`, not
`springboot.a.gauge.b` (`Scenarios.GaugeReplacesEveryOccurrence`). When the marker
occurs only at the front, this is the same as stripping a prefix
(`Classifier.GaugePrefixStripped`, `Classifier.CounterPrefixStripped`), and only then (`Classifier.GaugeNotStrippedWhenRepeated`, `Classifier.CounterNotStrippedWhenRepeated`). A deletion
can also splice together a new occurrence (`Strings.ReplaceAllCanLeaveOccurrence`).

## Model

| member | source | states |
|---|---|---|
| Strings.ReplaceAll | springboot_actuator.py:52 | `key.replace(pat, "")`. The result is never longer than the input. It is the input itself when the pattern does not occur, and strictly shorter when it does. |
| Strings.ReplaceAllLeading | springboot_actuator.py:52 | A leading occurrence is deleted, and the scan continues after it. |
| Strings.ReplaceAllIsPrefixStrip | springboot_actuator.py:52 | When the pattern does not occur after the leading copy, replace-all is exactly prefix stripping. |
| Strings.ReplaceAllNotPrefixStripWhenRepeated | springboot_actuator.py:52 | The converse: when the pattern occurs again after the leading copy, replace-all deletes that occurrence too, so the result is not the stripped rest. |
| Strings.ReplaceAllIsPrefixStripIff | springboot_actuator.py:52 | Both directions: deleting a leading pattern equals stripping it exactly when the rest holds no further occurrence. |
| Strings.ReplaceAllCanLeaveOccurrence | springboot_actuator.py:52 | The deletion is a single left-to-right pass. `"gaugauge.ge."` loses its one `"gauge."` and becomes `"gauge."`, which contains the pattern again. |
| Pattern.Accepts | springboot_actuator.py:11-28 | The start-anchored test `re.match` performs for each table pattern (lines 51, 54 and 59): a prefix test for a literal and for a literal ending in `c?`, and for `systemload.average` the two literals around any one character but a newline. It is a predicate without a contract; `Pattern.AcceptsIsMatches` is its partner. |
| Pattern.AcceptsIsMatches | springboot_actuator.py:11-28 | For every key and every shape in the tables, the hand-written start-anchored test holds exactly when the pattern's regular expression matches at the start of the key. |
| Rules.GaugePatternIsPrefix | springboot_actuator.py:11 | `re.match(r"gauge\.", key)` succeeds exactly when the key starts with `"gauge."`. |
| Rules.RatePatternIsPrefix | springboot_actuator.py:12 | `re.match(r"counter\.", key)` succeeds exactly when the key starts with `"counter."`. |
| Rules.FirstMatch | springboot_actuator.py:58-65 | When a rule is found, that rule accepts the key and no earlier rule does. None is returned exactly when no rule accepts the key. |
| Rules.FirstMatchIsFirstRegexMatch | springboot_actuator.py:58-59 | The same three facts hold with each rule read as its `re.match` regular expression. |
| Rules.RuleKind | springboot_actuator.py:58-65 | The loop over a table, stopping at the first rule that accepts the key. It has no contract of its own; `Rules.RuleKindAccepted`, `Rules.RuleKindNoneIff` and `Rules.RuleKindIsFirstMatch` state what it computes. |
| Rules.RuleKindAccepted | springboot_actuator.py:58-63 | A kind the loop returns is the kind of some rule of the table that accepts the key. |
| Rules.RuleKindNoneIff | springboot_actuator.py:58-65 | The loop finds nothing exactly when no rule of the table accepts the key. |
| Rules.RuleKindIsFirstMatch | springboot_actuator.py:58-65 | The loop over the table yields the kind of exactly the rule `FirstMatch` finds (the first accepting one), and nothing when no rule accepts the key. |
| Rules.BuiltinKind | springboot_actuator.py:14-28 | The loop over the 13-entry built-in table. It has no contract of its own; `Rules.BuiltinTableIsReference` states what it computes. |
| Rules.BuiltinTableIsReference | springboot_actuator.py:14-28 | On every key, the first-match walk over the 13-entry table gives the same kind as a cascade of prefix tests in the declared order. In that cascade, `mem\.?`, `heap\.?` and `threads\.?` are bare prefixes, and `systemload.average` takes any one non-newline character. |
| Classifier.Classify | springboot_actuator.py:50-67 | A submitted name always starts with `springboot.` and is at most `springboot.` plus the key in length. A key starting with `gauge.` is never a rate. |
| Classifier.ClassifyIsReference | springboot_actuator.py:50-65 | On every key, the pattern-driven classification equals the same decision written with plain prefix tests and the prefix cascade. |
| Classifier.GaugePrefixRule | springboot_actuator.py:51-53 | A key starting with `gauge.` is a gauge named `springboot.` plus the key with every `"gauge."` deleted, whatever the rest of the key matches. |
| Classifier.GaugePrefixStripped | springboot_actuator.py:51-53 | When `"gauge."` does not occur again after the prefix, the gauge is named `springboot.` plus the rest of the key. |
| Classifier.CounterPrefixRule | springboot_actuator.py:54-56 | A key starting with `counter.` (and not `gauge.`) is a rate named `springboot.` plus the key with every `"counter."` deleted. |
| Classifier.CounterPrefixStripped | springboot_actuator.py:54-56 | When `"counter."` does not occur again after the prefix, the rate is named `springboot.` plus the rest of the key. |
| Classifier.GaugeNotStrippedWhenRepeated | springboot_actuator.py:51-53 | The converse: when `"gauge."` occurs again after the prefix, the gauge is not named `springboot.` plus the rest of the key, because that occurrence is deleted too. |
| Classifier.CounterNotStrippedWhenRepeated | springboot_actuator.py:54-56 | The converse for `"counter."`: a repeated marker is deleted too, so the rate is not named `springboot.` plus the rest of the key. |
| Classifier.BuiltinRule | springboot_actuator.py:58-65 | Without an explicit prefix, the kind is the first matching table entry's, in declared order, and the name is `springboot.` plus the unchanged key. When nothing matches, the key is unmatched. |
| Classifier.UnmatchedIff | springboot_actuator.py:50-67 | A key is unmatched exactly when neither explicit prefix nor any built-in pattern accepts it, whatever the order. |
| Classifier.BuiltinRateIff | springboot_actuator.py:21-23 | Among keys without an explicit prefix, a key becomes a rate under its own name exactly when it starts with `gc.` or `classes.`. |
| Classifier.ClassesTieBreak | springboot_actuator.py:23-24 | A key starting with `classes` is a rate when the next character is a dot, and a gauge otherwise. |
| Classifier.OptionalDotIsPlainPrefix | springboot_actuator.py:19-22 | Every key starting with `mem`, `heap` or `threads` is a gauge under its own name, with or without the dot. |
| Classifier.SystemloadWildcard | springboot_actuator.py:17 | For `systemload`, one character, then `average`: the key is a gauge when that character is not a newline, and unmatched when it is. |
| Classifier.Post | springboot_actuator.py:50-67 | Exactly one effect per key. A submission is made exactly when the key classifies to an emission. It carries that kind and name, with the value and tags unchanged. Otherwise it is a warning `"<key> is not matched"`. |
| Sink.Emissions | springboot_actuator.py:52-64 | The submissions among a cycle's effects: each comes from the effects, every submission effect is among them, and there are no more of them than effects. Order and multiplicity follow from `Sink.EmissionsSingleton` and `Sink.EmissionsAppend`. |
| Sink.EmissionsSingleton | springboot_actuator.py:52-67 | One effect contributes its emission when it is a submission (`gauge` or `rate`), and nothing when it is a log line. |
| Sink.EmissionsAppend | springboot_actuator.py:47-48 | The submissions of a concatenation are those of the first part followed by those of the second, so the submissions keep the order and number of the submission effects. |
| Cycle.TagsOf | springboot_actuator.py:39 | `instance.get("tags", [])`: the configured tags, or no tags when the key is absent. |
| Cycle.PostAll | springboot_actuator.py:47-48 | One effect per fetched entry, in order. Each is that entry's own `post` with the cycle's tags. |
| Cycle.Check | springboot_actuator.py:30-48 | Without `metrics_url`, and on a timed-out fetch, the cycle submits nothing. |
| Cycle.SkippedWithoutUrl | springboot_actuator.py:31-33 | Without `metrics_url`, the cycle is one informational log line and no submission, whatever the endpoint would return. |
| Cycle.TimeoutAborts | springboot_actuator.py:41-45 | A timed-out fetch gives one critical log line carrying the exception text, and no submission. |
| Cycle.CyclePostsEveryEntry | springboot_actuator.py:47-48 | A fetched snapshot gives exactly one effect per entry, each the entry's `post` with the instance's tags (or `[]` without them). An unmatched key affects only its own line. |
| Cycle.EmissionsComeFromEntries | springboot_actuator.py:39-48 | Every submission of a cycle carries the instance's tags. Its value is some fetched entry's value, and that entry's key classifies to the submission's kind and name. |
| Cycle.PostAllAppend | springboot_actuator.py:47-48 | Posting a split snapshot is posting each part in turn. |
| Cycle.CheckEmissionsAppend | springboot_actuator.py:47-48 | A snapshot split in two is submitted as the first part's submissions followed by the second part's. |
| Cycle.PostAllOrderIndependent | springboot_actuator.py:47-48 | Iterating the snapshot in another order changes only the order of the effects, not the multiset of them. |
| Scenarios.ExplicitGaugeExamples | springboot_actuator.py:51-53 | `gauge.threads.busy` is the gauge `springboot.threads.busy` (the explicit prefix wins over `threads\.?`), and `gauge.heap.used` is the gauge `springboot.heap.used`. |
| Scenarios.ExplicitCounterExamples | springboot_actuator.py:54-56 | `counter.mem.x` is the rate `springboot.mem.x`, not a gauge through `mem\.?`, and `counter.http.requests` is the rate `springboot.http.requests`. |
| Scenarios.GaugeReplacesEveryOccurrence | springboot_actuator.py:52 | `gauge.a.gauge.b` is the gauge `springboot.a.b`. |
| Scenarios.ClassesDottedIsRate | springboot_actuator.py:23 | `classes.loaded` is the rate `springboot.classes.loaded`. |
| Scenarios.ClassesCamelIsGauge | springboot_actuator.py:24 | `classesLoaded` is the gauge `springboot.classesLoaded`. |
| Scenarios.MemoryIsGauge | springboot_actuator.py:19 | `memory` is the gauge `springboot.memory`. |
| Scenarios.SystemloadUnderscoreIsGauge | springboot_actuator.py:17 | `systemload_average` is a gauge. |
| Scenarios.SystemloadNewlineIsUnmatched | springboot_actuator.py:17 | `systemload` + newline + `average` is unmatched. |
| Scenarios.UnknownIsUnmatched | springboot_actuator.py:58-67 | `foo.bar` is unmatched. |
| Scenarios.UnknownCustomIsUnmatched | springboot_actuator.py:58-67 | `unknowncustom` is unmatched, although it starts like `uptime`. |
| Scenarios.EndToEndCycle | springboot_actuator.py:30-67 | The snapshot `{gauge.heap.used: 120, counter.http.requests: 4500, classes.loaded: 10, unknowncustom: 1}` with tags `["env:prod"]` gives three effects, in order, then a warning for `unknowncustom`. The three are gauge `springboot.heap.used`=120, rate `springboot.http.requests`=4500 and rate `springboot.classes.loaded`=10, each tagged `["env:prod"]`. |
| Scenarios.EndToEndEmissions | springboot_actuator.py:47-64 | That cycle submits exactly those three emissions, in order. |

## Left out

- HTTP and JSON are not modelled: `requests.get(...).json()` (line 42). The fetched object is an input, `Fetched(entries)`. Dict iteration order is the order of `entries`, and `Cycle.PostAllOrderIndependent` shows the order does not change the multiset of effects.
- The `timeout` / `default_timeout` configuration (lines 36-37) is not modelled. It only parameterises the network call, and a timeout is the input `Timeout(reason)`. The `float(...)` conversion at line 37 raises on a non-numeric or null timeout before any fetch. That exception, like those of the next line, is not caught and propagates out of `check`.
- Exceptions other than `requests.exceptions.Timeout` are not modelled. Line 43 does not catch them, so they propagate out of `check` into the agent framework.
- The exception object logged at line 44 is not modelled as such. It is modelled as its message string.
- `AgentCheck.gauge`, `AgentCheck.rate` and `self.log.*` are calls into the agent framework. They are modelled as the records `Submit(Emission(...))` and `Log(level, message)`, and a cycle's behaviour is the sequence of these records.
- Metric values are an abstract type parameter. The check passes them through without inspecting them, so numeric conversion and float semantics are out of scope.
- `self.tags` is state of the check object (line 39). The model passes the current cycle's tags explicitly to every `post`. It does not model the stale value a skipped cycle leaves behind, because no submission of that cycle reads it.
- Python's regular-expression engine is not modelled in general. Only the atoms the 13 + 2 table patterns use are modelled: a literal character, an unescaped `.`, and a trailing `c?`.
