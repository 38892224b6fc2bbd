/** The learning predictor of `policies/agent/tool_latency_estimator.py`. */
module LatencyEstimators {
  import Collections
  import opened LatencyModel
  import opened Percentiles
  import opened Sorting
  import opened Text
  import opened Wrappers

  class ToolLatencyEstimator {
    const config: Config
    var stats: map<Key, Stats>
    var samples: map<Key, seq<real>>

    ghost function View(): Estimator
      reads this
    {
      Estimator(stats, samples)
    }

    constructor (config: Config)
      requires config.Valid()
      ensures this.config == config && View() == NOTHING_LEARNED
    {
      this.config := config;
      stats, samples := map[], map[];
    }

    method RecordLatency(toolName: string, latency: real, argsClass: Option<string>) returns (error: Option<RecordError>)
      modifies this
      ensures error == RecordErrorOf(toolName, latency)
      ensures View() == if error.Some? then old(View())
                        else LatencyRecorded(config, old(View()), Strip(toolName), NormalizedClass(argsClass), latency)
    {
      var name := Strip(toolName);
      if name == "" {
        return Some(EmptyToolName);
      }
      var args := NormalizedClass(argsClass);
      if latency < 0.0 {
        return Some(NegativeLatency);
      }
      Record(Key(name, None), latency);
      if args.Some? {
        Record(Key(name, args), latency);
      }
      return None;
    }

    /** Timestamps are in seconds. */
    method RecordInterval(toolName: string, startedAt: real, endedAt: real, argsClass: Option<string>)
      returns (accepted: bool)
      modifies this
      ensures accepted <==> startedAt <= endedAt && Strip(toolName) != ""
      ensures View() == if !accepted then old(View())
                        else LatencyRecorded(config, old(View()), Strip(toolName), NormalizedClass(argsClass),
                                             (endedAt - startedAt) * 1000.0)
    {
      if endedAt < startedAt {
        return false;
      }
      var error := RecordLatency(toolName, (endedAt - startedAt) * 1000.0, argsClass);
      return error.None?;
    }

    method Record(key: Key, latency: real)
      modifies this
      ensures View() == Recorded(config, old(View()), key, latency)
    {
      hide Percentile, NextMean, NextEma;
      var window := if key in samples then samples[key] else [];
      window := window + [latency];
      if |window| > config.maxSamples {
        window := window[|window| - config.maxSamples..];
      }
      samples := samples[key := window];
      var p50, p95 := Percentile(window, 50.0), Percentile(window, 95.0);
      if key !in stats {
        stats := stats[key := Stats(1, latency, latency, latency, latency, latency, p50, p95)];
      } else {
        var current := stats[key];
        var updated := Stats(
          current.count + 1,
          NextMean(current.mean, current.count, latency),
          NextEma(config.alpha, current.ema, latency),
          latency,
          if latency < current.min then latency else current.min,
          if latency > current.max then latency else current.max,
          p50,
          p95);
        assert updated == NextStats(config, current, latency, window);
        stats := stats[key := updated];
      }
    }

    method PredictLatency(toolName: string, argsClass: Option<string>) returns (latency: Result<real, RecordError>)
      ensures latency == if Strip(toolName) == "" then Failure(EmptyToolName)
                         else Success(Predicted(config, View(), Strip(toolName), NormalizedClass(argsClass)))
    {
      var name, args := Strip(toolName), NormalizedClass(argsClass);
      if name == "" {
        return Failure(EmptyToolName);
      }
      if args.Some? && Key(name, args) in stats {
        return Success(stats[Key(name, args)].ema);
      }
      if Key(name, None) in stats {
        return Success(stats[Key(name, None)].ema);
      }
      return Success(config.defaultLatency);
    }

    method TakeSnapshot() returns (snapshot: Snapshot)
      requires samples.Keys == stats.Keys
      ensures IsSnapshot(config, View(), snapshot)
    {
      KeyLeIsTotalOrder();
      var keys := SortSet(samples.Keys, KeyLe);
      var profiles: seq<ProfileSnapshot> := [];
      for i := 0 to |keys|
        invariant |profiles| == i
        invariant forall j :: 0 <= j < i ==> KeyOfProfile(profiles[j]) == keys[j]
        invariant forall p :: p in profiles ==> KeyOfProfile(p) in samples && p.samples == samples[KeyOfProfile(p)]
      {
        assert keys[i] in Collections.ToSet(keys);
        profiles := profiles + [ProfileSnapshot(keys[i].toolName, keys[i].argsClass, samples[keys[i]])];
      }
      assert ProfileKeys(profiles) == keys;
      snapshot := Snapshot(config, profiles);
    }

    /** Fails only on a profile that has samples but no tool name. */
    static method FromSnapshot(snapshot: Snapshot) returns (result: Result<ToolLatencyEstimator, RecordError>)
      requires snapshot.config.Valid()
      ensures result.Success? <==>
                forall p :: p in snapshot.profiles && p.samples != [] ==> Strip(p.toolName) != ""
      ensures result.Success? ==>
                && fresh(result.value) && result.value.config == snapshot.config
                && result.value.View() == Restored(snapshot.config, snapshot.profiles)
    {
      var estimator := new ToolLatencyEstimator(snapshot.config);
      var ps := snapshot.profiles;
      for i := 0 to |ps|
        invariant fresh(estimator) && estimator.View() == Restored(snapshot.config, ps[..i])
        invariant forall p :: p in ps[..i] && p.samples != [] ==> Strip(p.toolName) != ""
      {
        assert ps[..i + 1][..i] == ps[..i] && ps[..i + 1] == ps[..i] + [ps[i]];
        if ps[i].samples != [] && Strip(ps[i].toolName) == "" {
          assert ps[i] in ps;
          return Failure(EmptyToolName);
        }
        estimator.RecordAll(NormalizedKey(ps[i]), ps[i].samples);
      }
      assert ps[..|ps|] == ps;
      return Success(estimator);
    }

    method RecordAll(key: Key, latencies: seq<real>)
      modifies this
      ensures View() == AllRecorded(config, old(View()), key, latencies)
    {
      hide Recorded;
      for i := 0 to |latencies|
        invariant View() == AllRecorded(config, old(View()), key, latencies[..i])
      {
        assert latencies[..i + 1][..i] == latencies[..i];
        Record(key, latencies[i]);
      }
      assert latencies[..|latencies|] == latencies;
    }
  }
}
