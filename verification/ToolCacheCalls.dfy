/** Whole runs of calls, as callers make them: with argument texts rather than hashes. */
module ToolCacheCalls {
  import opened Collections
  import opened ObjectTypes
  import opened Text
  import opened ToolCacheModel
  import opened ToolCacheTheorems
  import opened ToolCallIds
  import opened Wrappers

  datatype Call =
    | PutCall(toolName: string, args: string, output: string, ttl: real, scope: Scope, version: string, now: real)
    | GetCall(toolName: string, args: string, scope: Scope, wanted: Option<string>, now: real)
    | InvalidateCall(ofTool: Option<string>, ofScope: Option<Scope>)
    | PurgeCall(now: real)
    | RebuildCall(now: real)

  /** The operation a call comes to. */
  function Lowered(digest: Digest, requireVersion: bool, call: Call): Op {
    match call
    case PutCall(name, args, output, ttl, scope, version, now) =>
      if CacheErrorOf(requireVersion, name, ttl, version).Some? then OpRejected
      else OpPut(NewArtifact(digest, name, args, output, ttl, scope, version, now))
    case GetCall(name, args, scope, wanted, now) =>
      if Strip(name) == "" then OpRejected else OpGet(Key(Strip(name), digest(args), scope), wanted, now)
    case InvalidateCall(name, scope) =>
      if name.Some? && Strip(name.value) == "" then OpRejected
      else OpInvalidate(if name.None? then None else Some(Strip(name.value)), scope)
    case PurgeCall(now) => OpPurge(now)
    case RebuildCall(now) => OpRebuild(now)
  }

  function AllLowered(digest: Digest, requireVersion: bool, calls: seq<Call>): seq<Op> {
    seq(|calls|, i requires 0 <= i < |calls| => Lowered(digest, requireVersion, calls[i]))
  }

  lemma FrontLowered(digest: Digest, requireVersion: bool, calls: seq<Call>, n: nat)
    requires n <= |calls|
    ensures AllLowered(digest, requireVersion, calls)[..n] == AllLowered(digest, requireVersion, calls[..n])
  {
  }

  // Reference: the latest artifact put for each tool, argument text and scope

  datatype CallKey = CallKey(toolName: string, args: string, scope: Scope)

  type Results = map<CallKey, ToolCallArtifact>

  function Hashed(digest: Digest, k: CallKey): Key { Key(k.toolName, digest(k.args), k.scope) }

  function ResultsStep(digest: Digest, requireVersion: bool, results: Results, call: Call): Results {
    match Lowered(digest, requireVersion, call)
    case OpPut(a) => results[CallKey(a.toolName, call.args, a.scope) := a]
    case OpInvalidate(name, scope) =>
      map k | k in results && !Matches(Hashed(digest, k), name, scope) :: results[k]
    case _ => results
  }

  function ResultsAfter(digest: Digest, requireVersion: bool, calls: seq<Call>): Results {
    if calls == [] then map[]
    else ResultsStep(digest, requireVersion, ResultsAfter(digest, requireVersion, calls[..|calls| - 1]), calls[|calls| - 1])
  }

  function Wanted(results: Results, k: CallKey, version: Option<string>, now: real): Option<ToolCallArtifact> {
    if k in results && (version.None? || results[k].sourceVersion == version.value) && !results[k].IsExpired(now)
    then Some(results[k])
    else None
  }

  /** The argument texts of the calls. */
  ghost function ArgsOf(calls: seq<Call>): set<string> {
    set i | 0 <= i < |calls| && (calls[i].PutCall? || calls[i].GetCall?) :: calls[i].args
  }

  /** The map keyed by hashes and the one keyed by texts hold the same artifacts. */
  ghost predicate SameResults(digest: Digest, latest: Latest, results: Results, args: set<string>) {
    && (forall k :: k in results ==> k.args in args && Hashed(digest, k) in latest && latest[Hashed(digest, k)] == results[k])
    && (forall key :: key in latest ==> exists k :: k in results && Hashed(digest, k) == key)
  }

  lemma StepKeepsSameResults(digest: Digest, requireVersion: bool, latest: Latest, results: Results, call: Call,
                             before: set<string>, args: set<string>)
    requires SameResults(digest, latest, results, before) && InjectiveOn(digest, args)
    requires before <= args && (call.PutCall? ==> call.args in args)
    ensures SameResults(digest, LatestStep(latest, Lowered(digest, requireVersion, call)),
                        ResultsStep(digest, requireVersion, results, call), args)
  {
    hide CacheErrorOf, Strip;
    var op := Lowered(digest, requireVersion, call);
    var latest', results' := LatestStep(latest, op), ResultsStep(digest, requireVersion, results, call);
    match op
    case OpPut(a) =>
      var own := CallKey(a.toolName, call.args, a.scope);
      assert Hashed(digest, own) == KeyOf(a);
      forall k | k in results' ensures Hashed(digest, k) in latest' && latest'[Hashed(digest, k)] == results'[k] {
        assert k != own ==> Hashed(digest, k) != Hashed(digest, own);
      }
      forall key | key in latest' ensures exists k :: k in results' && Hashed(digest, k) == key {
        if key == KeyOf(a) {
          assert own in results';
        } else {
          var k :| k in results && Hashed(digest, k) == key;
          assert k in results';
        }
      }
    case OpInvalidate(name, scope) =>
      forall key | key in latest' ensures exists k :: k in results' && Hashed(digest, k) == key {
        var k :| k in results && Hashed(digest, k) == key;
        assert k in results';
      }
    case _ =>
  }

  lemma {:induction false} RunKeepsSameResults(digest: Digest, requireVersion: bool, calls: seq<Call>)
    requires InjectiveOn(digest, ArgsOf(calls))
    ensures SameResults(digest, LatestAfter(AllLowered(digest, requireVersion, calls)),
                        ResultsAfter(digest, requireVersion, calls), ArgsOf(calls))
  {
    hide SameResults, LatestStep, ResultsStep, Lowered, InjectiveOn;
    if calls == [] {
      EmptyIsSame(digest, ArgsOf([]));
    } else {
      var n := |calls| - 1;
      ArgsOfFront(calls, n);
      InjectiveOnSubset(digest, ArgsOf(calls[..n]), ArgsOf(calls));
      RunKeepsSameResults(digest, requireVersion, calls[..n]);
      var ops := AllLowered(digest, requireVersion, calls);
      FrontLowered(digest, requireVersion, calls, n);
      StepKeepsSameResults(digest, requireVersion, LatestAfter(ops[..n]), ResultsAfter(digest, requireVersion, calls[..n]),
                           calls[n], ArgsOf(calls[..n]), ArgsOf(calls));
    }
  }

  lemma EmptyIsSame(digest: Digest, args: set<string>)
    ensures SameResults(digest, map[], map[], args)
  {
  }

  lemma ArgsOfFront(calls: seq<Call>, n: nat)
    requires n <= |calls|
    ensures ArgsOf(calls[..n]) <= ArgsOf(calls)
    ensures forall i :: 0 <= i < |calls| && (calls[i].PutCall? || calls[i].GetCall?) ==> calls[i].args in ArgsOf(calls)
  {
  }

  // Runs

  /** What the theorems ask of a digest and the calls it serves: sixteen hexadecimal digits, no two of
      the run's own texts with one digest, and no tool name that continues another's hashed text. */
  ghost predicate DigestServes(digest: Digest, requireVersion: bool, calls: seq<Call>) {
    var ops := AllLowered(digest, requireVersion, calls);
    YieldsHex(digest) && InjectiveOn(digest, ArgsOf(calls) + PayloadsPut(ops)) && NamesDoNotNest(ops)
  }

  /** A run of calls on a cache over an empty store, under a clock that never runs back. */
  ghost predicate IsCallRun(digest: Digest, requireVersion: bool, calls: seq<Call>, caches: seq<Cache>, start: real) {
    var ops := AllLowered(digest, requireVersion, calls);
    IsRun(ops, caches) && ClockNeverRunsBack(start, ops)
  }

  lemma HexIsHash(digest: Digest, s: string)
    requires YieldsHex(digest)
    ensures IsHash(digest(s))
  {
  }

  lemma LoweredIdIsComputed(digest: Digest, requireVersion: bool, call: Call)
    requires YieldsHex(digest) && Lowered(digest, requireVersion, call).OpPut?
    ensures var a := Lowered(digest, requireVersion, call).artifact; IsHash(a.argsHash) && a.toolCallId == IdOf(digest, a)
  {
    hide IsHash, YieldsHex, Strip;
    HexIsHash(digest, call.args);
  }

  lemma LoweredIdsAreComputed(digest: Digest, requireVersion: bool, calls: seq<Call>)
    requires YieldsHex(digest)
    ensures IdsComputed(digest, AllLowered(digest, requireVersion, calls))
  {
    hide IsHash, YieldsHex, Lowered, IdOf;
    forall i | 0 <= i < |calls| && Lowered(digest, requireVersion, calls[i]).OpPut?
      ensures var a := Lowered(digest, requireVersion, calls[i]).artifact; IsHash(a.argsHash) && a.toolCallId == IdOf(digest, a)
    {
      LoweredIdIsComputed(digest, requireVersion, calls[i]);
    }
  }

  /** Such a run is orderly: no collisions, and every artifact can be listed. */
  lemma CallRunIsOrderly(digest: Digest, requireVersion: bool, calls: seq<Call>, caches: seq<Cache>, start: real)
    requires IsCallRun(digest, requireVersion, calls, caches, start) && DigestServes(digest, requireVersion, calls)
    ensures IsOrderlyRun(AllLowered(digest, requireVersion, calls), caches, start)
  {
    hide IsRun, IdsComputed, PutsAreListable, NoIdCollides, NamesDoNotNest, InjectiveOn, YieldsHex;
    var ops := AllLowered(digest, requireVersion, calls);
    LoweredIdsAreComputed(digest, requireVersion, calls);
    InjectiveOnSubset(digest, PayloadsPut(ops), ArgsOf(calls) + PayloadsPut(ops));
    ComputedIdsNeverCollide(digest, ops, caches);
    ComputedIdsAreListable(digest, ops);
  }

  /** Every get of every run returns the artifact last put for that tool, those arguments and that
      scope, if its version fits and it has not expired, and otherwise nothing. */
  lemma GetsReturnLatestResult(digest: Digest, requireVersion: bool, calls: seq<Call>, caches: seq<Cache>, start: real, i: nat)
    requires IsCallRun(digest, requireVersion, calls, caches, start) && DigestServes(digest, requireVersion, calls)
    requires i < |calls| && calls[i].GetCall? && Strip(calls[i].toolName) != ""
    ensures var GetCall(name, args, scope, wanted, now) := calls[i];
            Answer(GetOutcome(caches[i], Key(Strip(name), digest(args), scope), wanted, now))
              == Wanted(ResultsAfter(digest, requireVersion, calls[..i]), CallKey(Strip(name), args, scope), wanted, now)
  {
    hide IsOrderlyRun, IsRun, ClockNeverRunsBack, NamesDoNotNest, YieldsHex, InjectiveOn, SameResults, Strip, GetOutcome;
    var GetCall(name, args, scope, wanted, now) := calls[i];
    var ops := AllLowered(digest, requireVersion, calls);
    CallRunIsOrderly(digest, requireVersion, calls, caches, start);
    GetsAnswerAsReference(ops, caches, start, i);
    FrontLowered(digest, requireVersion, calls, i);
    ArgsOfFront(calls, i);
    InjectiveOnSubset(digest, ArgsOf(calls), ArgsOf(calls) + PayloadsPut(ops));
    InjectiveOnSubset(digest, ArgsOf(calls[..i]), ArgsOf(calls));
    RunKeepsSameResults(digest, requireVersion, calls[..i]);
    SameAnswer(digest, LatestAfter(ops[..i]), ResultsAfter(digest, requireVersion, calls[..i]),
               ArgsOf(calls[..i]), ArgsOf(calls), CallKey(Strip(name), args, scope), wanted, now);
  }

  lemma SameAnswer(digest: Digest, latest: Latest, results: Results, before: set<string>, args: set<string>,
                   k: CallKey, version: Option<string>, now: real)
    requires SameResults(digest, latest, results, before) && InjectiveOn(digest, args)
    requires before <= args && k.args in args
    ensures ReferenceAnswer(latest, Hashed(digest, k), version, now) == Wanted(results, k, version, now)
  {
    if Hashed(digest, k) in latest {
      var j :| j in results && Hashed(digest, j) == Hashed(digest, k);
      assert j == k;
    }
  }

  // The answers in terms of the calls alone

  /** The source accepts the put. */
  predicate IsAccepted(requireVersion: bool, call: Call) {
    && call.PutCall? && Strip(call.toolName) != "" && call.ttl > 0.0
    && (requireVersion ==> call.version != "")
  }

  predicate PutsFor(requireVersion: bool, call: Call, k: CallKey) {
    IsAccepted(requireVersion, call) && Strip(call.toolName) == k.toolName && call.args == k.args && call.scope == k.scope
  }

  predicate Drops(call: Call, k: CallKey) {
    && call.InvalidateCall?
    && (call.ofTool.None? || Strip(call.ofTool.value) == k.toolName)
    && (call.ofScope.None? || call.ofScope.value == k.scope)
  }

  /** Call `j` is the last accepted put for the key, and no invalidation since matches it. */
  predicate LastPut(requireVersion: bool, calls: seq<Call>, j: int, k: CallKey) {
    && 0 <= j < |calls| && PutsFor(requireVersion, calls[j], k)
    && forall m :: j < m < |calls| ==> !PutsFor(requireVersion, calls[m], k) && !Drops(calls[m], k)
  }

  /** What is refused, in this order: a blank tool name, a time to live that is not positive, and a missing
      version where one is required. */
  lemma PutRefused(requireVersion: bool, call: Call)
    requires call.PutCall?
    ensures var e := CacheErrorOf(requireVersion, call.toolName, call.ttl, call.version);
            && (e == None <==> IsAccepted(requireVersion, call))
            && (e == Some(EmptyToolName) <==> Strip(call.toolName) == "")
            && (e == Some(NonPositiveTtl) <==> Strip(call.toolName) != "" && call.ttl <= 0.0)
            && (e == Some(VersionRequired) <==> Strip(call.toolName) != "" && call.ttl > 0.0 && requireVersion && call.version == "")
  {
  }

  /** The artifact carries what the put was given. */
  ghost predicate Carries(digest: Digest, a: ToolCallArtifact, put: Call) {
    && put.PutCall? && a.toolName == Strip(put.toolName) && a.argsHash == digest(put.args) && a.scope == put.scope
    && a.output == put.output && a.outputHash == digest(put.output) && a.sourceVersion == put.version
    && a.ttl == put.ttl && a.createdAt == put.now
    && forall t :: a.IsExpired(t) <==> put.now + put.ttl <= t
  }

  lemma StepOfResults(digest: Digest, requireVersion: bool, results: Results, call: Call, k: CallKey)
    requires k.toolName != ""
    ensures var after := ResultsStep(digest, requireVersion, results, call);
            && (PutsFor(requireVersion, call, k) ==> k in after && Carries(digest, after[k], call))
            && (Drops(call, k) ==> k !in after)
            && (!PutsFor(requireVersion, call, k) && !Drops(call, k) ==>
                  (k in after <==> k in results) && (k in after ==> after[k] == results[k]))
  {
    hide Strip;
  }

  lemma LastPutSnoc(requireVersion: bool, calls: seq<Call>, j: int, k: CallKey)
    requires calls != []
    ensures var n := |calls| - 1;
            LastPut(requireVersion, calls, j, k) <==>
              if j == n then PutsFor(requireVersion, calls[n], k)
              else LastPut(requireVersion, calls[..n], j, k) && !PutsFor(requireVersion, calls[n], k) && !Drops(calls[n], k)
  {
    hide PutsFor, Drops;
    var n := |calls| - 1;
    assert forall m :: 0 <= m < n ==> calls[..n][m] == calls[m];
  }

  lemma {:induction false} ResultsAreLastPuts(digest: Digest, requireVersion: bool, calls: seq<Call>, k: CallKey)
    requires k.toolName != ""
    ensures var results := ResultsAfter(digest, requireVersion, calls);
            && (k in results ==> exists j :: LastPut(requireVersion, calls, j, k))
            && forall j :: LastPut(requireVersion, calls, j, k) ==> j < |calls| && k in results && Carries(digest, results[k], calls[j])
  {
    if calls != [] {
      hide ResultsStep, PutsFor, Drops, Carries, LastPut;
      var n := |calls| - 1;
      ResultsAreLastPuts(digest, requireVersion, calls[..n], k);
      StepOfResults(digest, requireVersion, ResultsAfter(digest, requireVersion, calls[..n]), calls[n], k);
      forall j | LastPut(requireVersion, calls, j, k)
        ensures j < |calls| && k in ResultsAfter(digest, requireVersion, calls)
        ensures Carries(digest, ResultsAfter(digest, requireVersion, calls)[k], calls[j])
      {
        LastPutSnoc(requireVersion, calls, j, k);
      }
      if PutsFor(requireVersion, calls[n], k) {
        LastPutSnoc(requireVersion, calls, n, k);
      } else if k in ResultsAfter(digest, requireVersion, calls) {
        var j :| LastPut(requireVersion, calls[..n], j, k);
        LastPutSnoc(requireVersion, calls, j, k);
      }
    }
  }

  /** What a get call answers in a run. */
  function AnswerTo(digest: Digest, c: Cache, get: Call): Option<ToolCallArtifact>
    requires get.GetCall?
  {
    Answer(GetOutcome(c, Key(Strip(get.toolName), digest(get.args), get.scope), get.wanted, get.now))
  }

  /** A get hits if and only if the last put for its tool, arguments and scope has the version asked
      for and is within its time to live, and then returns exactly what was put. */
  lemma GetReturnsLastPut(digest: Digest, requireVersion: bool, calls: seq<Call>, caches: seq<Cache>, start: real,
                          i: nat, j: nat)
    requires IsCallRun(digest, requireVersion, calls, caches, start) && DigestServes(digest, requireVersion, calls)
    requires i < |calls| && calls[i].GetCall? && Strip(calls[i].toolName) != ""
    requires LastPut(requireVersion, calls[..i], j, CallKey(Strip(calls[i].toolName), calls[i].args, calls[i].scope))
    ensures var get, put, answer := calls[i], calls[j], AnswerTo(digest, caches[i], calls[i]);
            && (answer.Some? <==> (get.wanted.None? || put.version == get.wanted.value) && get.now < put.now + put.ttl)
            && (answer.Some? ==> Carries(digest, answer.value, put))
  {
    hide IsCallRun, DigestServes, GetOutcome, Strip;
    var get := calls[i];
    GetsReturnLatestResult(digest, requireVersion, calls, caches, start, i);
    ResultsAreLastPuts(digest, requireVersion, calls[..i], CallKey(Strip(get.toolName), get.args, get.scope));
  }

  /** And it misses if there is none. */
  lemma GetMissesWithoutPut(digest: Digest, requireVersion: bool, calls: seq<Call>, caches: seq<Cache>, start: real, i: nat)
    requires IsCallRun(digest, requireVersion, calls, caches, start) && DigestServes(digest, requireVersion, calls)
    requires i < |calls| && calls[i].GetCall? && Strip(calls[i].toolName) != ""
    requires forall j :: !LastPut(requireVersion, calls[..i], j, CallKey(Strip(calls[i].toolName), calls[i].args, calls[i].scope))
    ensures AnswerTo(digest, caches[i], calls[i]) == None
  {
    hide IsCallRun, DigestServes, GetOutcome, Strip;
    var get := calls[i];
    GetsReturnLatestResult(digest, requireVersion, calls, caches, start, i);
    ResultsAreLastPuts(digest, requireVersion, calls[..i], CallKey(Strip(get.toolName), get.args, get.scope));
  }

  /** And every rebuild of such a run leaves the index as it was, less what has expired. */
  lemma RebuildsChangeNothing(digest: Digest, requireVersion: bool, calls: seq<Call>, caches: seq<Cache>, start: real, i: nat)
    requires IsCallRun(digest, requireVersion, calls, caches, start) && DigestServes(digest, requireVersion, calls)
    requires i < |calls| && calls[i].RebuildCall?
    ensures caches[i + 1].index == caches[i].index - ExpiredKeys(caches[i], calls[i].now)
  {
    hide IsRun, ClockNeverRunsBack, YieldsHex, InjectiveOn, NamesDoNotNest, ExpiredKeys, IsOrderlyRun, Bijection;
    CallRunIsOrderly(digest, requireVersion, calls, caches, start);
    RebuildsAreUnobservable(AllLowered(digest, requireVersion, calls), caches, start, i);
  }
}
