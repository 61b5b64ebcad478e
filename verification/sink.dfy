/** The records the check hands to the host agent: a gauge or rate submission
    (`AgentCheck.gauge` / `AgentCheck.rate`) or a log line (`self.log.*`). The agent
    itself is not modelled; the check's observable behaviour is the sequence of these
    records it produces, in order. */
module Sink {

  /** The two submission primitives a metric can be routed to. */
  datatype Kind = Gauge | Rate

  /** The log levels the check uses. */
  datatype Level = Info | Warning | Critical

  /** One metric submission: name, value and tags as passed to the primitive. The value
      type is left abstract: the check never inspects it. */
  datatype Emission<V> = Emission(kind: Kind, name: string, value: V, tags: seq<string>)

  /** One observable effect of the check. */
  datatype Effect<V> = Submit(emission: Emission<V>) | Log(level: Level, message: string)

  /** The submissions among `effects`, in order (log lines dropped). */
  function Emissions<V>(effects: seq<Effect<V>>): (r: seq<Emission<V>>)
    ensures |r| <= |effects|
    ensures forall i :: 0 <= i < |r| ==> Submit(r[i]) in effects
    ensures forall i :: 0 <= i < |effects| && effects[i].Submit? ==> effects[i].emission in r
    decreases |effects|
  {
    if |effects| == 0 then []
    else
      var tail := Emissions(effects[1..]);
      assert forall i :: 0 < i < |effects| ==> effects[i] == effects[1..][i - 1];
      if effects[0].Submit? then [effects[0].emission] + tail else tail
  }

  /** A single effect contributes its emission when it is a submission and nothing when it
      is a log line; with `EmissionsAppend` this fixes the order and multiplicity of the
      submissions of any sequence of effects. */
  lemma EmissionsSingleton<V>(x: Effect<V>)
    ensures Emissions([x]) == if x.Submit? then [x.emission] else []
  {
    assert [x][1..] == [];
  }

  /** Submissions of a concatenation are the concatenation of the submissions. */
  lemma {:induction false} EmissionsAppend<V>(a: seq<Effect<V>>, b: seq<Effect<V>>)
    ensures Emissions(a + b) == Emissions(a) + Emissions(b)
    decreases |a|
  {
    if |a| == 0 {
      assert a + b == b;
    } else {
      assert (a + b)[0] == a[0];
      assert (a + b)[1..] == a[1..] + b;
      EmissionsAppend(a[1..], b);
    }
  }
}
