/** pkg/aggregator/context_resolver.go */
module ContextResolver {
  import opened Metrics
  import opened Wrappers

  /** The contexts a resolver tracks, and when each was last seen. */
  datatype Tracked = Tracked(contexts: map<ContextKey, Context>, lastSeen: map<ContextKey, real>) {
    ghost predicate Agree() {
      contexts.Keys == lastSeen.Keys
    }

    /** A known context keeps the name, tags and host it was first seen with. */
    function Track(k: ContextKey, c: Context, t: real): Tracked {
      Tracked(if k in contexts then contexts else contexts[k := c], lastSeen[k := t])
    }

    /** `updateTrackedContext`: the last-seen time of a tracked context only moves forward. */
    function Update(k: ContextKey, t: real): Tracked {
      if k in lastSeen && lastSeen[k] < t then this.(lastSeen := lastSeen[k := t]) else this
    }

    function Expire(limit: real): Tracked {
      var gone := set k | k in lastSeen && lastSeen[k] < limit;
      Tracked(contexts - gone, lastSeen - gone)
    }
  }

  class Resolver {
    var contextsByKey: map<ContextKey, Context>
    var lastSeenByKey: map<ContextKey, real>
    const hash: Context -> ContextKey

    ghost function State(): Tracked
      reads this
    {
      Tracked(contextsByKey, lastSeenByKey)
    }

    constructor (hash: Context -> ContextKey)
      ensures this.hash == hash && State() == Tracked(map[], map[])
    {
      this.hash := hash;
      contextsByKey := map[];
      lastSeenByKey := map[];
    }

    method TrackContext(context: Context, currentTimestamp: real) returns (contextKey: ContextKey)
      modifies this
      ensures contextKey == hash(context)
      ensures State() == old(State()).Track(contextKey, context, currentTimestamp)
      ensures old(State()).Agree() ==> State().Agree()
    {
      contextKey := hash(context);
      if contextKey !in contextsByKey {
        contextsByKey := contextsByKey[contextKey := context];
      }
      lastSeenByKey := lastSeenByKey[contextKey := currentTimestamp];
    }

    method UpdateTrackedContext(contextKey: ContextKey, timestamp: real) returns (tracked: bool)
      modifies this
      ensures tracked == (contextKey in old(lastSeenByKey))
      ensures State() == old(State()).Update(contextKey, timestamp)
    {
      tracked := contextKey in lastSeenByKey;
      if tracked && lastSeenByKey[contextKey] < timestamp {
        lastSeenByKey := lastSeenByKey[contextKey := timestamp];
      }
    }

    method ExpireContexts(expireTimestamp: real) returns (expired: seq<ContextKey>)
      modifies this
      ensures State() == old(State()).Expire(expireTimestamp)
      ensures forall k :: k in expired <==> k in old(lastSeenByKey) && old(lastSeenByKey)[k] < expireTimestamp
    {
      expired := FindExpired(expireTimestamp);
      for i := 0 to |expired|
        invariant Without(State(), old(State()), expired[..i])
      {
        contextsByKey := contextsByKey - {expired[i]};
        lastSeenByKey := lastSeenByKey - {expired[i]};
        assert expired[..i + 1] == expired[..i] + [expired[i]];
      }
      assert expired[..|expired|] == expired;
    }

    method FindExpired(expireTimestamp: real) returns (expired: seq<ContextKey>)
      ensures forall k :: k in expired <==> k in lastSeenByKey && lastSeenByKey[k] < expireTimestamp
    {
      expired := [];
      var todo := lastSeenByKey.Keys;
      while todo != {}
        invariant todo <= lastSeenByKey.Keys
        invariant forall k :: k in expired <==> k in lastSeenByKey.Keys - todo && lastSeenByKey[k] < expireTimestamp
        decreases |todo|
      {
        var k := Pick(todo);
        if lastSeenByKey[k] < expireTimestamp {
          expired := expired + [k];
        }
        todo := todo - {k};
      }
    }

    ghost static predicate Without(now: Tracked, before: Tracked, gone: seq<ContextKey>) {
      && (forall k :: k in now.contexts <==> k in before.contexts && k !in gone)
      && (forall k :: k in now.contexts ==> now.contexts[k] == before.contexts[k])
      && (forall k :: k in now.lastSeen <==> k in before.lastSeen && k !in gone)
      && (forall k :: k in now.lastSeen ==> now.lastSeen[k] == before.lastSeen[k])
    }
  }
}
