/** What the latency estimator keeps for each profile, as functions of the observations. */
module LatencyModel {
  import opened Percentiles
  import opened Sorting
  import opened Text
  import opened Wrappers

  datatype Key = Key(toolName: string, argsClass: Option<string>)

  datatype Stats = Stats(
    count: nat, mean: real, ema: real, last: real, min: real, max: real, p50: real, p95: real)

  datatype Config = Config(defaultLatency: real, alpha: real, maxSamples: nat) {
    predicate Valid() { defaultLatency >= 0.0 && 0.0 < alpha <= 1.0 && maxSamples > 0 }
  }

  datatype Estimator = Estimator(stats: map<Key, Stats>, samples: map<Key, seq<real>>)

  const NOTHING_LEARNED := Estimator(map[], map[])

  function Trim(samples: seq<real>, n: nat): seq<real> {
    if |samples| > n then samples[|samples| - n..] else samples
  }

  function FirstStats(x: real, samples: seq<real>): Stats {
    Stats(1, x, x, x, x, x, Percentile(samples, 50.0), Percentile(samples, 95.0))
  }

  function NextMean(mean: real, count: nat, x: real): real { (mean * count as real + x) / (count + 1) as real }

  function NextEma(alpha: real, ema: real, x: real): real { alpha * x + (1.0 - alpha) * ema }

  function NextStats(config: Config, current: Stats, x: real, samples: seq<real>): Stats {
    Stats(current.count + 1,
          NextMean(current.mean, current.count, x),
          NextEma(config.alpha, current.ema, x),
          x,
          if x < current.min then x else current.min,
          if x > current.max then x else current.max,
          Percentile(samples, 50.0),
          Percentile(samples, 95.0))
  }

  /** One observation into one profile. */
  function Recorded(config: Config, e: Estimator, key: Key, x: real): Estimator {
    var samples := Trim((if key in e.samples then e.samples[key] else []) + [x], config.maxSamples);
    var stats := if key in e.stats then NextStats(config, e.stats[key], x, samples) else FirstStats(x, samples);
    Estimator(e.stats[key := stats], e.samples[key := samples])
  }

  function NormalizedClass(argsClass: Option<string>): Option<string> {
    match argsClass
    case None => None
    case Some(c) => if Strip(c) == "" then None else Some(Strip(c))
  }

  datatype RecordError = EmptyToolName | NegativeLatency

  function RecordErrorOf(toolName: string, latency: real): Option<RecordError> {
    if Strip(toolName) == "" then Some(EmptyToolName)
    else if latency < 0.0 then Some(NegativeLatency)
    else None
  }

  /** An observation of a tool goes to its aggregate and, if classified, to its class profile. */
  function LatencyRecorded(config: Config, e: Estimator, name: string, argsClass: Option<string>, x: real): Estimator {
    var aggregate := Recorded(config, e, Key(name, None), x);
    if argsClass.Some? then Recorded(config, aggregate, Key(name, argsClass), x) else aggregate
  }

  /** The most specific profile's average, else the tool's, else the default. */
  function Predicted(config: Config, e: Estimator, name: string, argsClass: Option<string>): real {
    if argsClass.Some? && Key(name, argsClass) in e.stats then e.stats[Key(name, argsClass)].ema
    else if Key(name, None) in e.stats then e.stats[Key(name, None)].ema
    else config.defaultLatency
  }

  // Snapshots

  datatype ProfileSnapshot = ProfileSnapshot(toolName: string, argsClass: Option<string>, samples: seq<real>)

  datatype Snapshot = Snapshot(config: Config, profiles: seq<ProfileSnapshot>)

  function KeyOfProfile(p: ProfileSnapshot): Key { Key(p.toolName, p.argsClass) }

  /** The order profiles are listed in: by tool, the aggregate first, then by class. */
  predicate KeyLe(a: Key, b: Key) {
    if a.toolName != b.toolName then StrLe(a.toolName, b.toolName)
    else if a.argsClass.None? then true
    else b.argsClass.Some? && StrLe(a.argsClass.value, b.argsClass.value)
  }

  lemma KeyLeIsTotalOrder()
    ensures TotalOrder(KeyLe)
  {
    StrLeIsTotalOrder();
  }

  function ProfileKeys(profiles: seq<ProfileSnapshot>): seq<Key> {
    seq(|profiles|, i requires 0 <= i < |profiles| => KeyOfProfile(profiles[i]))
  }

  ghost predicate IsSnapshot(config: Config, e: Estimator, s: Snapshot) {
    && s.config == config
    && IsListing(ProfileKeys(s.profiles), e.samples.Keys, KeyLe)
    && forall p :: p in s.profiles ==> KeyOfProfile(p) in e.samples && p.samples == e.samples[KeyOfProfile(p)]
  }

  /** Recording a list of samples into one profile. */
  function AllRecorded(config: Config, e: Estimator, key: Key, samples: seq<real>): Estimator {
    if samples == [] then e
    else Recorded(config, AllRecorded(config, e, key, samples[..|samples| - 1]), key, samples[|samples| - 1])
  }

  function NormalizedKey(p: ProfileSnapshot): Key {
    Key(Strip(p.toolName), NormalizedClass(p.argsClass))
  }

  function Restored(config: Config, profiles: seq<ProfileSnapshot>): Estimator {
    if profiles == [] then NOTHING_LEARNED
    else
      var p := profiles[|profiles| - 1];
      AllRecorded(config, Restored(config, profiles[..|profiles| - 1]), NormalizedKey(p), p.samples)
  }
}
