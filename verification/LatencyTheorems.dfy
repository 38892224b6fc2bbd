/** What an estimator knows after any sequence of observations, and after a snapshot is restored. */
module LatencyTheorems {
  import opened Collections
  import opened LatencyModel
  import opened Percentiles
  import opened Sorting
  import opened Text
  import opened Wrappers

  // One profile over its whole history

  /** The statistics after a history of observations of one profile. */
  function StatsOf(config: Config, history: seq<real>): Stats
    requires history != []
  {
    var front, last := history[..|history| - 1], history[|history| - 1];
    var samples := Trim(history, config.maxSamples);
    if front == [] then FirstStats(last, samples)
    else NextStats(config, StatsOf(config, front), last, samples)
  }

  function Sum(xs: seq<real>): real {
    if xs == [] then 0.0 else Sum(xs[..|xs| - 1]) + xs[|xs| - 1]
  }

  ghost predicate Within(xs: seq<real>, lo: real, hi: real) {
    forall x :: x in xs ==> lo <= x <= hi
  }

  lemma {:induction false} CountIsExact(config: Config, history: seq<real>)
    requires history != []
    ensures StatsOf(config, history).count == |history|
  {
    if |history| > 1 {
      CountIsExact(config, history[..|history| - 1]);
    }
  }

  /** The running mean and the running average on their own. */
  function Mean(history: seq<real>): real
    requires history != []
  {
    var n := |history|;
    if n == 1 then history[0]
    else NextMean(Mean(history[..n - 1]), n - 1, history[n - 1])
  }

  function Ema(alpha: real, history: seq<real>): real
    requires history != []
  {
    var n := |history|;
    if n == 1 then history[0]
    else NextEma(alpha, Ema(alpha, history[..n - 1]), history[n - 1])
  }

  lemma {:induction false} AveragesOf(config: Config, history: seq<real>)
    requires history != []
    ensures StatsOf(config, history).mean == Mean(history)
    ensures StatsOf(config, history).ema == Ema(config.alpha, history)
  {
    hide Percentile, NextMean, NextEma, Trim;
    if |history| > 1 {
      AveragesOf(config, history[..|history| - 1]);
      CountIsExact(config, history[..|history| - 1]);
    }
  }

  lemma EmaSnoc(alpha: real, history: seq<real>, x: real)
    requires history != []
    ensures Ema(alpha, history + [x]) == NextEma(alpha, Ema(alpha, history), x)
  {
    assert (history + [x])[..|history|] == history;
  }

  lemma DivideThenMultiply(a: real, n: real)
    requires n > 0.0
    ensures a / n * n == a
  {
  }

  lemma NextMeanIsExact(mean: real, count: nat, x: real)
    ensures NextMean(mean, count, x) * (count + 1) as real == mean * count as real + x
  {
    DivideThenMultiply(mean * count as real + x, (count + 1) as real);
  }

  lemma {:induction false} MeanIsExact(history: seq<real>)
    requires history != []
    ensures Mean(history) * |history| as real == Sum(history)
  {
    hide NextMean;
    var n := |history|;
    if n == 1 {
      assert Sum(history[..0]) == 0.0;
    } else {
      MeanIsExact(history[..n - 1]);
      NextMeanIsExact(Mean(history[..n - 1]), n - 1, history[n - 1]);
    }
  }

  lemma {:induction false} ExtremesAreExact(config: Config, history: seq<real>)
    requires history != []
    ensures var s := StatsOf(config, history);
            s.min in history && s.max in history && Within(history, s.min, s.max)
  {
    var front, last := history[..|history| - 1], history[|history| - 1];
    assert history == front + [last];
    if front != [] {
      ExtremesAreExact(config, front);
    }
  }

  /** Counts and totals are exact over the full history, and the extremes are attained. */
  lemma StatsAreExact(config: Config, history: seq<real>)
    requires history != []
    ensures var s := StatsOf(config, history);
            && s.count == |history|
            && s.mean * |history| as real == Sum(history)
            && s.last == history[|history| - 1]
            && s.min in history && s.max in history && Within(history, s.min, s.max)
  {
    hide StatsOf, Mean, Sum, Ema, Trim, Percentile;
    CountIsExact(config, history);
    AveragesOf(config, history);
    MeanIsExact(history);
    ExtremesAreExact(config, history);
    LatestOf(config, history);
  }

  /** The average is a weighted mean of the observations, so it lies between the extremes. */
  lemma {:induction false} EmaWithin(alpha: real, history: seq<real>, lo: real, hi: real)
    requires 0.0 < alpha <= 1.0 && history != [] && Within(history, lo, hi)
    ensures lo <= Ema(alpha, history) <= hi
  {
    hide NextEma;
    var n := |history|;
    assert history[n - 1] in history && history[0] in history;
    if n > 1 {
      var front := history[..n - 1];
      assert forall x :: x in front ==> x in history;
      EmaWithin(alpha, front, lo, hi);
      WeightedAbove(alpha, history[n - 1], Ema(alpha, front), lo);
      WeightedBelow(alpha, history[n - 1], Ema(alpha, front), hi);
    }
  }

  lemma WeightedAbove(a: real, x: real, y: real, lo: real)
    requires 0.0 <= a <= 1.0 && lo <= x && lo <= y
    ensures lo <= NextEma(a, y, x)
  {
    assert a * (x - lo) >= 0.0;
    assert (1.0 - a) * (y - lo) >= 0.0;
  }

  lemma WeightedBelow(a: real, x: real, y: real, hi: real)
    requires 0.0 <= a <= 1.0 && x <= hi && y <= hi
    ensures NextEma(a, y, x) <= hi
  {
    assert a * (hi - x) >= 0.0;
    assert (1.0 - a) * (hi - y) >= 0.0;
  }

  /** A profile's average lies between the least and the greatest of everything it observed. */
  lemma ProfileEmaWithinExtremes(config: Config, history: seq<real>)
    requires config.Valid() && history != []
    ensures var s := StatsOf(config, history); s.min <= s.ema <= s.max
  {
    ExtremesAreExact(config, history);
    AveragesOf(config, history);
    EmaWithin(config.alpha, history, StatsOf(config, history).min, StatsOf(config, history).max);
  }

  function Pow(b: real, n: nat): real {
    if n == 0 then 1.0 else b * Pow(b, n - 1)
  }

  function Repeat(v: real, n: nat): seq<real> {
    if n == 0 then [] else Repeat(v, n - 1) + [v]
  }

  /** Each of `n` repeats of `v` shrinks the average's distance to it by the same factor. */
  lemma {:induction false} RepeatsConverge(alpha: real, history: seq<real>, v: real, n: nat)
    requires history != []
    ensures Ema(alpha, history + Repeat(v, n)) - v == Pow(1.0 - alpha, n) * (Ema(alpha, history) - v)
  {
    hide Ema, NextEma;
    if n == 0 {
      assert history + Repeat(v, 0) == history;
    } else {
      RepeatsConverge(alpha, history, v, n - 1);
      var before := history + Repeat(v, n - 1);
      assert history + Repeat(v, n) == before + [v];
      EmaSnoc(alpha, before, v);
      ShrinkStep(alpha, v, Ema(alpha, before), Pow(1.0 - alpha, n - 1), Pow(1.0 - alpha, n), Ema(alpha, history) - v);
    }
  }

  lemma ShrinkStep(a: real, v: real, ema: real, p: real, q: real, d: real)
    requires ema - v == p * d && q == (1.0 - a) * p
    ensures NextEma(a, ema, v) - v == q * d
  {
    assert NextEma(a, ema, v) - v == (1.0 - a) * (ema - v);
  }

  /** Median and tail lie in order within the window of recent samples. */
  lemma WindowOrder(config: Config, history: seq<real>, lo: real, hi: real)
    requires config.Valid() && history != [] && Within(Trim(history, config.maxSamples), lo, hi)
    ensures var s := StatsOf(config, history); lo <= s.p50 <= s.p95 <= hi
  {
    PercentilesOrdered(Trim(history, config.maxSamples), 50.0, 95.0, lo, hi);
  }

  // The whole estimator over a history of observations

  datatype Observation = Observation(toolName: string, argsClass: Option<string>, latency: real)

  /** Observations as `record_latency` accepts them, with their names already normalised. */
  predicate Accepted(o: Observation) {
    && o.toolName != "" && Stripped(o.toolName) && o.latency >= 0.0
    && (o.argsClass.Some? ==> o.argsClass.value != "" && Stripped(o.argsClass.value))
  }

  predicate Feeds(o: Observation, key: Key) {
    o.toolName == key.toolName && (key.argsClass.None? || o.argsClass == key.argsClass)
  }

  /** All latencies a profile has seen, in order. */
  function History(os: seq<Observation>, key: Key): seq<real> {
    if os == [] then []
    else
      var front := History(os[..|os| - 1], key);
      if Feeds(os[|os| - 1], key) then front + [os[|os| - 1].latency] else front
  }

  function LearnedFrom(config: Config, start: Estimator, os: seq<Observation>): Estimator {
    if os == [] then start
    else
      var o := os[|os| - 1];
      LatencyRecorded(config, LearnedFrom(config, start, os[..|os| - 1]), o.toolName, o.argsClass, o.latency)
  }

  function Learned(config: Config, os: seq<Observation>): Estimator { LearnedFrom(config, NOTHING_LEARNED, os) }

  /** A profile holds exactly what its history determines. */
  ghost predicate ProfileIs(config: Config, e: Estimator, key: Key, history: seq<real>) {
    && (key in e.stats <==> history != []) && (key in e.samples <==> history != [])
    && (history != [] ==>
          e.stats[key] == StatsOf(config, history) && e.samples[key] == Trim(history, config.maxSamples))
  }

  lemma RecordExtends(config: Config, e: Estimator, key: Key, history: seq<real>, x: real)
    requires config.Valid() && ProfileIs(config, e, key, history)
    ensures ProfileIs(config, Recorded(config, e, key, x), key, history + [x])
  {
    assert (history + [x])[..|history|] == history;
    assert Trim(Trim(history, config.maxSamples) + [x], config.maxSamples) == Trim(history + [x], config.maxSamples);
  }

  /** What an estimator learns extends the history each of its profiles had before. */
  lemma {:induction false} LearningExtends(config: Config, start: Estimator, past: seq<real>, os: seq<Observation>, key: Key)
    requires config.Valid() && ProfileIs(config, start, key, past)
    ensures ProfileIs(config, LearnedFrom(config, start, os), key, past + History(os, key))
  {
    hide StatsOf, Trim;
    if os == [] {
      assert past + History(os, key) == past;
    } else {
      var front, o := os[..|os| - 1], os[|os| - 1];
      LearningExtends(config, start, past, front, key);
      if Feeds(o, key) {
        assert past + History(os, key) == (past + History(front, key)) + [o.latency];
        RecordExtends(config, LearnedFrom(config, start, front), key, past + History(front, key), o.latency);
      }
    }
  }

  /** Every profile is the one its full history determines: windows are the last samples, and an
      observation is never counted twice. */
  lemma {:induction false} LearnedIsHistory(config: Config, os: seq<Observation>, key: Key)
    requires config.Valid()
    ensures ProfileIs(config, Learned(config, os), key, History(os, key))
  {
    LearningExtends(config, NOTHING_LEARNED, [], os, key);
    assert [] + History(os, key) == History(os, key);
  }

  /** Windows are the latest samples: the history ends with the window, which is full or is all of it. */
  lemma WindowIsLatest(history: seq<real>, n: nat)
    ensures var w := Trim(history, n);
            |w| == (if |history| < n then |history| else n) && history[|history| - |w|..] == w
  {
  }

  /** The average a prediction comes from: the class's, else the tool's, else the default. */
  function MostSpecific(config: Config, ofClass: seq<real>, ofTool: seq<real>): real {
    if ofClass != [] then Ema(config.alpha, ofClass)
    else if ofTool != [] then Ema(config.alpha, ofTool)
    else config.defaultLatency
  }

  lemma PredictionOfProfiles(config: Config, e: Estimator, name: string, argsClass: Option<string>,
                             ofClass: seq<real>, ofTool: seq<real>)
    requires ProfileIs(config, e, Key(name, None), ofTool)
    requires if argsClass.Some? then ProfileIs(config, e, Key(name, argsClass), ofClass) else ofClass == []
    ensures Predicted(config, e, name, argsClass) == MostSpecific(config, ofClass, ofTool)
  {
    hide StatsOf;
    if ofClass != [] {
      AveragesOf(config, ofClass);
    }
    if ofTool != [] {
      AveragesOf(config, ofTool);
    }
  }

  /** The latencies observed for the class of a call; none for a call without one. */
  function ClassHistory(os: seq<Observation>, name: string, argsClass: Option<string>): seq<real> {
    if argsClass.None? then [] else History(os, Key(name, argsClass))
  }

  /** After any observations a prediction is the average of all latencies of the class if it was seen,
      else of the tool if that was, else the default. */
  lemma PredictionsFallBack(config: Config, os: seq<Observation>, name: string, argsClass: Option<string>)
    requires config.Valid()
    ensures Predicted(config, Learned(config, os), name, argsClass)
         == MostSpecific(config, ClassHistory(os, name, argsClass), History(os, Key(name, None)))
  {
    LearnedIsHistory(config, os, Key(name, None));
    LearnedIsHistory(config, os, Key(name, argsClass));
    PredictionOfProfiles(config, Learned(config, os), name, argsClass, ClassHistory(os, name, argsClass), History(os, Key(name, None)));
  }

  /** What is refused: a blank tool name, and a negative latency. */
  lemma RecordRefused(toolName: string, latency: real)
    ensures var e := RecordErrorOf(toolName, latency);
            && (e == Some(EmptyToolName) <==> Strip(toolName) == "")
            && (e == Some(NegativeLatency) <==> Strip(toolName) != "" && latency < 0.0)
            && (e == None <==> Strip(toolName) != "" && latency >= 0.0)
  {
  }

  /** A class is compared without surrounding space, and a blank one is none. */
  lemma ClassNormalised(argsClass: Option<string>)
    ensures var n := NormalizedClass(argsClass);
            && (n.None? <==> argsClass.None? || Strip(argsClass.value) == "")
            && (n.Some? ==> n.value == Strip(argsClass.value) && Stripped(n.value))
  {
    if argsClass.Some? {
      StripCorrect(argsClass.value);
    }
  }

  /** Profiles are listed by tool name, a tool's aggregate before its classes, and those by name. */
  lemma ProfileOrder(t: string, u: string, c: string, d: string)
    ensures KeyLe(Key(t, None), Key(t, Some(c))) && !KeyLe(Key(t, Some(c)), Key(t, None))
    ensures KeyLe(Key(t, Some(c)), Key(t, Some(d))) <==> StrLe(c, d)
    ensures t != u ==> (KeyLe(Key(t, Some(c)), Key(u, Some(d))) <==> StrLe(t, u)) && (KeyLe(Key(t, None), Key(u, Some(d))) <==> StrLe(t, u))
  {
  }

  // Aggregates

  function ClassTotal(os: seq<Observation>, name: string, classes: seq<string>): nat {
    if classes == [] then 0
    else ClassTotal(os, name, classes[..|classes| - 1]) + |History(os, Key(name, Some(classes[|classes| - 1])))|
  }

  lemma {:induction false} ClassTotalStep(os: seq<Observation>, name: string, classes: seq<string>)
    requires os != [] && Distinct(classes)
    ensures var front, o := os[..|os| - 1], os[|os| - 1];
            ClassTotal(os, name, classes) ==
              ClassTotal(front, name, classes)
              + if o.toolName == name && o.argsClass.Some? && o.argsClass.value in classes then 1 else 0
  {
    if classes != [] {
      var n := |classes| - 1;
      assert classes == classes[..n] + [classes[n]];
      assert classes[n] !in classes[..n];
      ClassTotalStep(os, name, classes[..n]);
    }
  }

  /** A tool's aggregate has seen at least as much as its classes together. */
  lemma {:induction false} AggregateCountsClasses(os: seq<Observation>, name: string, classes: seq<string>)
    requires Distinct(classes)
    ensures ClassTotal(os, name, classes) <= |History(os, Key(name, None))|
  {
    if os == [] {
      NoClassTotal(name, classes);
    } else {
      AggregateCountsClasses(os[..|os| - 1], name, classes);
      ClassTotalStep(os, name, classes);
    }
  }

  lemma {:induction false} NoClassTotal(name: string, classes: seq<string>)
    ensures ClassTotal([], name, classes) == 0
  {
    if classes != [] {
      NoClassTotal(name, classes[..|classes| - 1]);
    }
  }

  // Snapshot and restore

  /** Only normalised names have profiles, so restoring leaves them alone. */
  ghost predicate NormalKeys(e: Estimator) {
    forall key :: key in e.samples ==> NormalKey(key)
  }

  predicate NormalKey(key: Key) {
    && key.toolName != "" && Stripped(key.toolName)
    && (key.argsClass.Some? ==> key.argsClass.value != "" && Stripped(key.argsClass.value))
  }

  lemma {:induction false} LearnedKeysAreNormal(config: Config, os: seq<Observation>)
    requires forall o :: o in os ==> Accepted(o)
    ensures NormalKeys(Learned(config, os))
  {
    if os != [] {
      assert os[|os| - 1] in os;
      LearnedKeysAreNormal(config, os[..|os| - 1]);
    }
  }

  lemma NormalKeyUnchanged(p: ProfileSnapshot)
    requires NormalKey(KeyOfProfile(p))
    ensures NormalizedKey(p) == KeyOfProfile(p)
  {
    StripCorrect(p.toolName);
    if p.argsClass.Some? {
      StripCorrect(p.argsClass.value);
    }
  }

  lemma {:induction false} AllRecordedExtends(config: Config, e: Estimator, key: Key, samples: seq<real>)
    requires config.Valid() && ProfileIs(config, e, key, [])
    ensures ProfileIs(config, AllRecorded(config, e, key, samples), key, samples)
    ensures forall k :: k != key ==>
              var r := AllRecorded(config, e, key, samples);
              && (k in r.stats <==> k in e.stats) && (k in r.samples <==> k in e.samples)
              && (k in e.stats ==> r.stats[k] == e.stats[k]) && (k in e.samples ==> r.samples[k] == e.samples[k])
  {
    hide Percentile, Trim, NextStats, FirstStats, StatsOf;
    if samples != [] {
      var front, last := samples[..|samples| - 1], samples[|samples| - 1];
      AllRecordedExtends(config, e, key, front);
      assert front + [last] == samples;
      RecordExtends(config, AllRecorded(config, e, key, front), key, front, last);
    }
  }

  ghost predicate DistinctProfiles(profiles: seq<ProfileSnapshot>) {
    forall i, j :: 0 <= i < j < |profiles| ==> KeyOfProfile(profiles[i]) != KeyOfProfile(profiles[j])
  }

  /** Restoring rebuilds each listed profile from its samples alone. */
  lemma {:induction false} RestoredProfiles(config: Config, profiles: seq<ProfileSnapshot>, key: Key)
    requires config.Valid() && DistinctProfiles(profiles)
    requires forall p :: p in profiles ==> NormalKey(KeyOfProfile(p))
    ensures forall p :: p in profiles && KeyOfProfile(p) == key ==>
              ProfileIs(config, Restored(config, profiles), key, p.samples)
    ensures (forall p :: p in profiles ==> KeyOfProfile(p) != key) ==>
              ProfileIs(config, Restored(config, profiles), key, [])
  {
    hide AllRecorded, StatsOf, Trim, NormalKey, NormalizedKey;
    if profiles != [] {
      var front, last := profiles[..|profiles| - 1], profiles[|profiles| - 1];
      assert profiles == front + [last] && last in profiles;
      NormalKeyUnchanged(last);
      RestoredProfiles(config, front, key);
      RestoredProfiles(config, front, KeyOfProfile(last));
      AllRecordedExtends(config, Restored(config, front), KeyOfProfile(last), last.samples);
    }
  }

  /** What restoring a snapshot of learned profiles yields: each profile's window, as its history. */
  lemma RestoredFromSnapshot(config: Config, os: seq<Observation>, s: Snapshot, key: Key)
    requires config.Valid() && (forall o :: o in os ==> Accepted(o))
    requires IsSnapshot(config, Learned(config, os), s)
    ensures ProfileIs(config, Restored(s.config, s.profiles), key, Trim(History(os, key), config.maxSamples))
  {
    var e, keys := Learned(config, os), ProfileKeys(s.profiles);
    LearnedKeysAreNormal(config, os);
    LearnedIsHistory(config, os, key);
    forall i, j | 0 <= i < j < |s.profiles| ensures KeyOfProfile(s.profiles[i]) != KeyOfProfile(s.profiles[j]) {
      assert keys[i] != keys[j];
    }
    RestoredProfiles(config, s.profiles, key);
    if key in e.samples {
      assert key in ToSet(keys);
      var i :| 0 <= i < |keys| && keys[i] == key;
      assert s.profiles[i] in s.profiles;
    }
  }

  /** A restored estimator has the same windows, so the same snapshot. */
  lemma SnapshotRoundTrip(config: Config, os: seq<Observation>, s: Snapshot, s': Snapshot)
    requires config.Valid() && (forall o :: o in os ==> Accepted(o))
    requires IsSnapshot(config, Learned(config, os), s)
    requires IsSnapshot(s.config, Restored(s.config, s.profiles), s')
    ensures s' == s
  {
    var e, r := Learned(config, os), Restored(s.config, s.profiles);
    forall key ensures (key in r.samples <==> key in e.samples) && (key in e.samples ==> r.samples[key] == e.samples[key]) {
      LearnedIsHistory(config, os, key);
      RestoredFromSnapshot(config, os, s, key);
    }
    assert r.samples.Keys == e.samples.Keys;
    KeyLeIsTotalOrder();
    ListingUnique(ProfileKeys(s.profiles), ProfileKeys(s'.profiles), e.samples.Keys, KeyLe);
    forall i | 0 <= i < |s.profiles| ensures s.profiles[i] == s'.profiles[i] {
      assert ProfileKeys(s.profiles)[i] == ProfileKeys(s'.profiles)[i];
      assert s.profiles[i] in s.profiles && s'.profiles[i] in s'.profiles;
    }
  }

  /** Restoring always keeps the latest latency and the percentiles of a profile, and keeps its
      count exactly when its window never overflowed. */
  lemma RestoreKeepsWindowStats(config: Config, os: seq<Observation>, s: Snapshot, key: Key)
    requires config.Valid() && (forall o :: o in os ==> Accepted(o))
    requires IsSnapshot(config, Learned(config, os), s) && key in Learned(config, os).stats
    ensures var was, now := Learned(config, os).stats[key], Restored(s.config, s.profiles).stats;
            && key in now
            && now[key].last == was.last && now[key].p50 == was.p50 && now[key].p95 == was.p95
            && (now[key].count == was.count <==> was.count <= config.maxSamples)
            && (was.count <= config.maxSamples ==> now[key] == was)
  {
    var h := History(os, key);
    LearnedIsHistory(config, os, key);
    RestoredFromSnapshot(config, os, s, key);
    WindowStats(config, h);
  }

  /** With room for one sample, a tool seen twice is restored as seen once. */
  lemma TruncatedRestoreForgets(config: Config, s: Snapshot)
    requires config.Valid() && config.maxSamples == 1
    requires IsSnapshot(config, Learned(config, [Observation("t", None, 1.0), Observation("t", None, 3.0)]), s)
    ensures var os := [Observation("t", None, 1.0), Observation("t", None, 3.0)];
            var key, now := Key("t", None), Restored(s.config, s.profiles).stats;
            && key in Learned(config, os).stats && key in now
            && Learned(config, os).stats[key].count == 2 && now[key].count == 1
            && Learned(config, os).stats[key].mean == 2.0 && now[key].mean == 3.0
  {
    hide StatsOf, Learned, Restored, IsSnapshot, History;
    var os, key := [Observation("t", None, 1.0), Observation("t", None, 3.0)], Key("t", None);
    TwoObservations();
    LearnedIsHistory(config, os, key);
    RestoredFromSnapshot(config, os, s, key);
    assert Trim([1.0, 3.0], 1) == [3.0];
    StatsOfTwo(config, 1.0, 3.0);
    StatsOfOne(config, 3.0);
  }

  lemma TwoObservations()
    ensures var os := [Observation("t", None, 1.0), Observation("t", None, 3.0)];
            (forall o :: o in os ==> Accepted(o)) && History(os, Key("t", None)) == [1.0, 3.0]
  {
    var os := [Observation("t", None, 1.0), Observation("t", None, 3.0)];
    assert os[..1] == [os[0]] && os[..1][..0] == [];
    assert History(os[..1], Key("t", None)) == [1.0];
  }

  lemma StatsOfOne(config: Config, x: real)
    ensures StatsOf(config, [x]).count == 1 && StatsOf(config, [x]).mean == x
  {
  }

  lemma StatsOfTwo(config: Config, x: real, y: real)
    ensures StatsOf(config, [x, y]).count == 2 && StatsOf(config, [x, y]).mean == (x + y) / 2.0
  {
    CountIsExact(config, [x, y]);
    AveragesOf(config, [x, y]);
    assert [x, y][..1] == [x];
    assert Mean([x]) == x;
    NextMeanIsExact(x, 1, y);
  }

  /** The statistics of a window against those of the whole history. */
  lemma WindowStats(config: Config, h: seq<real>)
    requires config.Valid() && h != []
    ensures var was, now := StatsOf(config, h), StatsOf(config, Trim(h, config.maxSamples));
            && now.last == was.last && now.p50 == was.p50 && now.p95 == was.p95
            && (now.count == was.count <==> was.count <= config.maxSamples)
            && (was.count <= config.maxSamples ==> now == was)
  {
    var w := Trim(h, config.maxSamples);
    CountIsExact(config, h);
    CountIsExact(config, w);
    assert Trim(w, config.maxSamples) == w;
    LatestOf(config, h);
    LatestOf(config, w);
  }

  lemma LatestOf(config: Config, h: seq<real>)
    requires h != []
    ensures var s, w := StatsOf(config, h), Trim(h, config.maxSamples);
            s.last == h[|h| - 1] && s.p50 == Percentile(w, 50.0) && s.p95 == Percentile(w, 95.0)
  {
  }

  /** If no profile was truncated, the restored estimator predicts as the original does. */
  lemma RestoreKeepsPredictions(config: Config, os: seq<Observation>, s: Snapshot, name: string, argsClass: Option<string>)
    requires config.Valid() && (forall o :: o in os ==> Accepted(o))
    requires IsSnapshot(config, Learned(config, os), s)
    requires forall key :: key in Learned(config, os).stats ==> Learned(config, os).stats[key].count <= config.maxSamples
    ensures Predicted(s.config, Restored(s.config, s.profiles), name, argsClass)
         == Predicted(config, Learned(config, os), name, argsClass)
  {
    forall key ensures key in Restored(s.config, s.profiles).stats <==> key in Learned(config, os).stats
      ensures key in Learned(config, os).stats ==>
                Restored(s.config, s.profiles).stats[key] == Learned(config, os).stats[key]
    {
      LearnedIsHistory(config, os, key);
      RestoredFromSnapshot(config, os, s, key);
      if key in Learned(config, os).stats {
        RestoreKeepsWindowStats(config, os, s, key);
      }
    }
  }
}
