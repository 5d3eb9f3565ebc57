/** Usage accounting as the gates keep it: member and mission rows, the token total and every raw bucket. */
module Gates {
  import opened Wrappers
  import opened UsageMeters

  /** Uncached input, cache reads, cache writes, output, reasoning and requests. */
  const USAGE_KEYS := 6

  type Buckets = b: seq<nat> | |b| == USAGE_KEYS witness [0, 0, 0, 0, 0, 0]

  const EMPTY_USAGE: Buckets := [0, 0, 0, 0, 0, 0]

  datatype UsageSession = UsageSession(generation: nat, accountedTokens: nat, usage: Option<Buckets>)

  /** Each bucket with the delta's own bucket added. */
  method AddUsage(base: Option<Buckets>, delta: Buckets) returns (result: Buckets)
    ensures forall k | 0 <= k < USAGE_KEYS :: result[k] == base.GetOr(EMPTY_USAGE)[k] + delta[k]
  {
    var sums: seq<nat> := base.GetOr(EMPTY_USAGE);
    for k := 0 to USAGE_KEYS
      invariant |sums| == USAGE_KEYS
      invariant forall j | 0 <= j < k :: sums[j] == base.GetOr(EMPTY_USAGE)[j] + delta[j]
      invariant forall j | k <= j < USAGE_KEYS :: sums[j] == base.GetOr(EMPTY_USAGE)[j]
    {
      sums := sums[k := sums[k] + delta[k]];
    }
    result := sums;
  }

  /** What each bucket grew by; a smaller bucket is a replay and contributes nothing. */
  method UsageDelta(next: Buckets, previous: Option<Buckets>) returns (result: Buckets)
    ensures forall k | 0 <= k < USAGE_KEYS ::
      result[k] == Max(next[k], previous.GetOr(EMPTY_USAGE)[k]) - previous.GetOr(EMPTY_USAGE)[k]
  {
    var grown: seq<nat> := EMPTY_USAGE;
    for k := 0 to USAGE_KEYS
      invariant |grown| == USAGE_KEYS
      invariant forall j | 0 <= j < k :: grown[j] == Max(next[j], previous.GetOr(EMPTY_USAGE)[j]) - previous.GetOr(EMPTY_USAGE)[j]
    {
      grown := grown[k := Max(next[k], previous.GetOr(EMPTY_USAGE)[k]) - previous.GetOr(EMPTY_USAGE)[k]];
    }
    result := grown;
  }

  class Accounts {
    var accountedTokens: nat
    var usage: Option<Buckets>
    var session: Option<UsageSession>
    var missionTokens: nat
    var missionUsage: Option<Buckets>

    /** The member's token meter. */
    function Tokens(): Meter
      reads this
    {
      Meter(accountedTokens, if session.Some? then Some(Session(session.value.generation, session.value.accountedTokens)) else None)
    }

    /** The member's meter of bucket `k`. */
    function Bucket(k: nat): Meter
      requires k < USAGE_KEYS
      reads this
    {
      Meter(At(usage, k), if session.Some? then Some(Session(session.value.generation, At(session.value.usage, k))) else None)
    }

    /** The bucket `k` of an optional record; an absent one holds nothing. */
    static function At(buckets: Option<Buckets>, k: nat): nat
      requires k < USAGE_KEYS
    {
      buckets.GetOr(EMPTY_USAGE)[k]
    }

    /** The member's, the mission's and the session's buckets grow by the same delta. */
    method CountBuckets(delta: Option<Buckets>, previous: Option<Buckets>) returns (sessionUsage: Option<Buckets>)
      modifies this`usage, this`missionUsage
      ensures forall k | 0 <= k < USAGE_KEYS ::
        && At(usage, k) == At(old(usage), k) + At(delta, k)
        && At(missionUsage, k) == At(old(missionUsage), k) + At(delta, k)
        && At(sessionUsage, k) == At(previous, k) + At(delta, k)
    {
      sessionUsage := previous;
      if delta.Some? {
        var lifetime := AddUsage(usage, delta.value);
        var mission := AddUsage(missionUsage, delta.value);
        var current := AddUsage(previous, delta.value);
        usage, missionUsage, sessionUsage := Some(lifetime), Some(mission), Some(current);
      }
    }

    /**
     * Reconcile one snapshot of a session's cumulative log. The member's token
     * total and each of its buckets take their meter's step, and the mission's
     * grow by exactly what the member's did.
     */
    method UsageSnapshot(totalTokens: nat, buckets: Option<Buckets>, source: Option<Source>)
      modifies this
      ensures Tokens() == Step(old(Tokens()), Reading(Some(totalTokens), source))
      ensures forall k | 0 <= k < USAGE_KEYS ::
        Bucket(k) == Step(old(Bucket(k)), Reading(if buckets.Some? then Some(buckets.value[k]) else None, source))
      ensures missionTokens + old(accountedTokens) == old(missionTokens) + accountedTokens
      ensures forall k | 0 <= k < USAGE_KEYS :: At(missionUsage, k) + At(old(usage), k) == At(old(missionUsage), k) + At(usage, k)
    {
      if source.Some? && session.Some? && source.value.generation < session.value.generation {
        return;
      }
      var sameSession := source.Some? && session.Some? && session.value.generation == source.value.generation;
      var migrate := source.Some? && session.None? && source.value.restored;
      var previousTokens := if source.None? || migrate then accountedTokens else if sameSession then session.value.accountedTokens else 0;
      var previousUsage := if source.None? || migrate then usage else if sameSession then session.value.usage else None;
      var tokenDelta := Max(totalTokens, previousTokens) - previousTokens;
      var bucketDelta: Option<Buckets> := None;
      if buckets.Some? {
        var delta := UsageDelta(buckets.value, previousUsage);
        bucketDelta := Some(delta);
      }
      if tokenDelta == 0 && (bucketDelta.None? || bucketDelta.value == EMPTY_USAGE) && (source.None? || sameSession) {
        return;
      }
      accountedTokens, missionTokens := accountedTokens + tokenDelta, missionTokens + tokenDelta;
      var sessionUsage := CountBuckets(bucketDelta, previousUsage);
      if source.Some? {
        session := Some(UsageSession(source.value.generation, Max(previousTokens, totalTokens), sessionUsage));
      }
    }
  }
}
