/** `SpringbootActuator.check`: one check cycle. The HTTP fetch is an input: the
    response the endpoint would give, either a timeout or the decoded metrics object as
    (key, value) entries in the order the object iterates. */
module Cycle {
  import opened Wrappers
  import opened Sink
  import opened Classifier
  import opened Seqs

  /** The instance configuration the cycle reads. */
  datatype Instance = Instance(metricsUrl: Option<string>, tags: Option<seq<string>>)

  /** What the fetch of `metrics_url` yields. */
  datatype Fetch<V> = Timeout(reason: string) | Fetched(entries: seq<(string, V)>)

  const SkipMessage: string := "Skipping instance, no metrics_url found."

  /** `instance.get("tags", [])`: the configured tags, or none when the key is absent. */
  function TagsOf(instance: Instance): (r: seq<string>)
    ensures instance.tags.Some? ==> r == instance.tags.value
    ensures instance.tags.None? ==> r == []
  {
    instance.tags.GetOr([])
  }

  /** `post` for one (key, value) entry with fixed tags. */
  function Poster<V>(tags: seq<string>): (p: ((string, V)) -> Effect<V>)
  {
    (e: (string, V)) => Post(e.0, e.1, tags)
  }

  /** Every entry posted on its own, in order, with the cycle's tags. */
  function PostAll<V>(entries: seq<(string, V)>, tags: seq<string>): (r: seq<Effect<V>>)
    ensures |r| == |entries|
    ensures forall i :: 0 <= i < |entries| ==> r[i] == Post(entries[i].0, entries[i].1, tags)
  {
    Map(Poster(tags), entries)
  }

  /** One cycle: skip without a URL, abort with a critical log on a timeout, otherwise
      post every fetched entry. */
  function Check<V>(instance: Instance, fetch: Fetch<V>): (r: seq<Effect<V>>)
    ensures instance.metricsUrl.None? ==> Emissions(r) == []
    ensures fetch.Timeout? ==> Emissions(r) == []
  {
    if instance.metricsUrl.None? then
      [Log(Info, SkipMessage)]
    else
      match fetch
      case Timeout(reason) => [Log(Critical, reason)]
      case Fetched(entries) => PostAll(entries, TagsOf(instance))
  }

  /** Without a URL the cycle logs one informational line and submits nothing, whatever
      the endpoint would have returned. */
  lemma SkippedWithoutUrl<V>(instance: Instance, fetch: Fetch<V>)
    requires instance.metricsUrl.None?
    ensures Check(instance, fetch) == [Log(Info, SkipMessage)]
    ensures Emissions(Check(instance, fetch)) == []
  {
  }

  /** A timed-out fetch aborts the cycle: one critical line, no submission. */
  lemma TimeoutAborts<V>(instance: Instance, reason: string)
    requires instance.metricsUrl.Some?
    ensures Check<V>(instance, Timeout(reason)) == [Log(Critical, reason)]
    ensures Emissions(Check<V>(instance, Timeout(reason))) == []
  {
  }

  /** A fetched snapshot gives one effect per entry, each the entry's own `post` with
      the instance's tags: an unmatched key costs only its own line. */
  lemma CyclePostsEveryEntry<V>(instance: Instance, entries: seq<(string, V)>)
    requires instance.metricsUrl.Some?
    ensures |Check(instance, Fetched(entries))| == |entries|
    ensures forall i :: 0 <= i < |entries| ==>
      Check(instance, Fetched(entries))[i] == Post(entries[i].0, entries[i].1, TagsOf(instance))
  {
  }

  /** Every submission of a cycle carries the instance's tags, and its name, kind and
      value come from one fetched entry that classifies to that name and kind. */
  lemma EmissionsComeFromEntries<V>(instance: Instance, entries: seq<(string, V)>)
    requires instance.metricsUrl.Some?
    ensures forall e :: e in Emissions(Check(instance, Fetched(entries))) ==>
      e.tags == TagsOf(instance) &&
      exists i :: (0 <= i < |entries| && e.value == entries[i].1
        && Classify(entries[i].0) == Classifier.Emit(e.kind, e.name))
  {
    var effects := Check(instance, Fetched(entries));
    forall e | e in Emissions(effects)
      ensures e.tags == TagsOf(instance)
      ensures exists i :: (0 <= i < |entries| && e.value == entries[i].1
        && Classify(entries[i].0) == Classifier.Emit(e.kind, e.name))
    {
      var k :| 0 <= k < |Emissions(effects)| && Emissions(effects)[k] == e;
      assert Submit(e) in effects;
      var i :| 0 <= i < |effects| && effects[i] == Submit(e);
      assert effects[i] == Post(entries[i].0, entries[i].1, TagsOf(instance));
    }
  }

  /** Posting a split snapshot is posting each part in turn. */
  lemma PostAllAppend<V>(a: seq<(string, V)>, b: seq<(string, V)>, tags: seq<string>)
    ensures PostAll(a + b, tags) == PostAll(a, tags) + PostAll(b, tags)
  {
    MapAppend(Poster(tags), a, b);
  }

  /** The order in which the snapshot is iterated does not change what the cycle does,
      only the order of its effects. */
  lemma PostAllOrderIndependent<V>(a: seq<(string, V)>, b: seq<(string, V)>, tags: seq<string>)
    requires multiset(a) == multiset(b)
    ensures multiset(PostAll(a, tags)) == multiset(PostAll(b, tags))
  {
    MapPermutation(Poster(tags), a, b);
  }

  /** A snapshot split in two is submitted as the first part's submissions followed by the
      second part's, so the cycle neither reorders, drops nor repeats submissions across
      the split. */
  lemma CheckEmissionsAppend<V>(instance: Instance, a: seq<(string, V)>, b: seq<(string, V)>)
    requires instance.metricsUrl.Some?
    ensures Emissions(Check(instance, Fetched(a + b)))
         == Emissions(Check(instance, Fetched(a))) + Emissions(Check(instance, Fetched(b)))
  {
    var tags := TagsOf(instance);
    PostAllAppend(a, b, tags);
    EmissionsAppend(PostAll(a, tags), PostAll(b, tags));
  }
}
