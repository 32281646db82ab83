/** Get-or-create on one map, the logic `GetOrNewBreaker` and
    `GetOrNewCache` share: a shared-lock lookup (fast path) and, on a miss,
    a factory call followed by a double-checked insertion (slow path). The
    instance type `T` is opaque, so equality of values is identity of
    instances. */
module Registry {
  import opened Wrappers

  /** `ErrCreateUnavailable` is the package's one error value; calling a
      nil template is a Go runtime panic, kept apart so that it cannot be
      confused with it. */
  datatype Error = ErrCreateUnavailable | NilTemplatePanic

  /** The result of one call: the map afterwards, the value returned,
      whether the factory ran, and the instance inserted, if any (an event
      is emitted exactly for an insertion). */
  datatype Step<T> = Step(m: map<string, T>, res: Result<T, Error>, called: bool, added: Option<T>)

  /** `m'` keeps every entry of `m` unchanged: nothing is removed or
      overwritten. */
  ghost predicate Extends<T>(m: map<string, T>, m': map<string, T>) {
    m.Keys <= m'.Keys && forall k :: k in m ==> m'[k] == m[k]
  }

  /** The double check under the exclusive lock: store `built` only if the
      key is still absent. */
  function Insert<T>(m: map<string, T>, key: string, built: T): (r: (map<string, T>, Option<T>))
    ensures Extends(m, r.0)
    ensures r.0.Keys == m.Keys + {key}
    ensures r.1.Some? <==> key !in m
    ensures r.1.Some? ==> r.1.value == built && r.0[key] == built
  {
    if key !in m then (m[key := built], Some(built)) else (m, None)
  }

  /** The slow path as written, over whatever map is current when the
      exclusive lock is taken; `built` is what this call's factory
      invocation returned. It returns `built`, even when an entry stored
      meanwhile was kept instead. */
  function SlowPath<T>(m: map<string, T>, key: string, built: Option<T>): (s: Step<T>)
    ensures s.called
    ensures Extends(m, s.m) && s.m.Keys <= m.Keys + {key}
    ensures built.None? ==> s.m == m && s.res == Err(ErrCreateUnavailable)
    ensures built.Some? ==> s.res == Ok(built.value) && key in s.m
    ensures s.added.Some? <==> built.Some? && key !in m
    ensures s.added.Some? ==> s.added == built && s.m[key] == built.value
  {
    match built
    case None => Step(m, Err(ErrCreateUnavailable), true, None)
    case Some(b) =>
      var (m', added) := Insert(m, key, b);
      Step(m', Ok(b), true, added)
  }

  /** The slow path as evidently intended: return the entry that is stored
      after the double check, so the first writer's instance wins for
      every caller. */
  function SlowPathCorrected<T>(m: map<string, T>, key: string, built: Option<T>): (s: Step<T>)
    ensures s.called
    ensures Extends(m, s.m) && s.m.Keys <= m.Keys + {key}
    ensures built.None? ==> s.m == m && s.res == Err(ErrCreateUnavailable)
    ensures s.res.Ok? ==> key in s.m && s.res.value == s.m[key]
    ensures key in m && built.Some? ==> s.res == Ok(m[key])
    ensures s.added.Some? <==> built.Some? && key !in m
  {
    match built
    case None => Step(m, Err(ErrCreateUnavailable), true, None)
    case Some(b) =>
      var (m', added) := Insert(m, key, b);
      Step(m', Ok(m'[key]), true, added)
  }

  /** Without interleaving the slow path is only reached on an absent key,
      and there the two versions coincide. */
  lemma SlowPathsAgreeOnAbsentKey<T>(m: map<string, T>, key: string, built: Option<T>)
    requires key !in m
    ensures SlowPath(m, key, built) == SlowPathCorrected(m, key, built)
  {
  }

  /** One sequential get-or-create call. `tmpl` is the configured factory,
      None when it was never set. */
  function GetOrNew<T>(m: map<string, T>, tmpl: Option<string -> Option<T>>, key: string): (s: Step<T>)
    ensures Extends(m, s.m) && s.m.Keys <= m.Keys + {key}
    ensures s.res.Ok? ==> key in s.m && s.m[key] == s.res.value
    ensures s.res.Err? ==> s.m == m && key !in m
    ensures s.called <==> key !in m && tmpl.Some?
    ensures s.added.Some? <==> key !in m && key in s.m
    ensures s.added.Some? ==> s.res == Ok(s.added.value)
  {
    if key in m then Step(m, Ok(m[key]), false, None)
    else match tmpl
      case None => Step(m, Err(NilTemplatePanic), false, None)
      case Some(f) => SlowPath(m, key, f(key))
  }

  /** Fast path: a stored key returns the stored instance without error,
      the factory is not invoked and nothing changes. */
  lemma FastPath<T>(m: map<string, T>, tmpl: Option<string -> Option<T>>, key: string)
    requires key in m
    ensures GetOrNew(m, tmpl, key) == Step(m, Ok(m[key]), false, None)
  {
  }

  /** Factory failure: the call fails with `ErrCreateUnavailable`, the map
      is unchanged, no event is due, and a retry invokes the factory again
      (no negative caching). */
  lemma FactoryFailure<T>(m: map<string, T>, f: string -> Option<T>, key: string)
    requires key !in m && f(key).None?
    ensures var s := GetOrNew(m, Some(f), key);
      && s == Step(m, Err(ErrCreateUnavailable), true, None)
      && GetOrNew(s.m, Some(f), key).called
  {
  }

  /** Successful creation on an absent key: the map gains exactly that key
      bound to the new instance, every other key is untouched, and the new
      instance is the one to announce. */
  lemma CreateOnAbsentKey<T>(m: map<string, T>, f: string -> Option<T>, key: string)
    requires key !in m && f(key).Some?
    ensures var s := GetOrNew(m, Some(f), key);
      && s.m == m[key := f(key).value]
      && s.res == Ok(f(key).value)
      && s.called
      && s.added == f(key)
  {
    var s := GetOrNew(m, Some(f), key);
    assert s.m.Keys == (m[key := f(key).value]).Keys;
  }

  /** Idempotence: two sequential calls with a factory that succeeds (or a
      key already stored) return the same instance, the second leaves
      everything as it was, and the factory runs at most once over both
      calls, exactly once when the key was absent. */
  lemma Idempotent<T>(m: map<string, T>, f: string -> Option<T>, key: string)
    requires key in m || f(key).Some?
    ensures var s1 := GetOrNew(m, Some(f), key);
      var s2 := GetOrNew(s1.m, Some(f), key);
      && s1.res.Ok?
      && s2 == Step(s1.m, s1.res, false, None)
      && (s1.called <==> key !in m)
  {
  }

  /** Callers that all missed on the fast path and then take the exclusive
      lock one after another, the `i`-th holding its own factory result
      `builds[i]`, each running `slow`. Returns the final map and every
      caller's result, in lock order. */
  function Race<T>(m: map<string, T>, key: string, builds: seq<Option<T>>, corrected: bool): (r: (map<string, T>, seq<Result<T, Error>>))
    ensures |r.1| == |builds|
    ensures Extends(m, r.0) && r.0.Keys <= m.Keys + {key}
    decreases |builds|
  {
    if builds == [] then (m, [])
    else
      var s := if corrected then SlowPathCorrected(m, key, builds[0]) else SlowPath(m, key, builds[0]);
      var (m', rest) := Race(s.m, key, builds[1..], corrected);
      (m', [s.res] + rest)
  }

  /** Every caller that succeeded holds the instance stored in `m`. */
  ghost predicate AllHoldStored<T>(m: map<string, T>, key: string, results: seq<Result<T, Error>>) {
    forall i :: 0 <= i < |results| && results[i].Ok? ==> key in m && results[i].value == m[key]
  }

  /** With the corrected slow path every caller that succeeds holds the one
      stored instance, however many race. */
  lemma {:induction false} RaceCorrectedSameInstance<T>(m: map<string, T>, key: string, builds: seq<Option<T>>)
    ensures AllHoldStored(Race(m, key, builds, true).0, key, Race(m, key, builds, true).1)
    decreases |builds|
  {
    if builds != [] {
      var s := SlowPathCorrected(m, key, builds[0]);
      RaceCorrectedSameInstance(s.m, key, builds[1..]);
      var r := Race(m, key, builds, true);
      var r' := Race(s.m, key, builds[1..], true);
      assert r.1 == [s.res] + r'.1;
      assert r.0 == r'.0;
      forall i | 0 <= i < |r.1| && r.1[i].Ok?
        ensures key in r.0 && r.1[i].value == r.0[key]
      {
        if i > 0 {
          assert r.1[i] == r'.1[i - 1];
        } else {
          assert Extends(s.m, r'.0);
        }
      }
    }
  }

  /** Each racing caller errs exactly when its own build is nil; as
      written, a caller with a build gets that build back. */
  ghost predicate ResultsMatchBuilds<T>(builds: seq<Option<T>>, results: seq<Result<T, Error>>, corrected: bool) {
    |results| == |builds| &&
    forall i :: 0 <= i < |builds| ==>
      (results[i].Ok? <==> builds[i].Some?) && (!corrected && builds[i].Some? ==> results[i] == Ok(builds[i].value))
  }

  /** Racing callers' results: no error for a non-nil build, and as written
      the caller's own build. */
  lemma {:induction false} RaceResults<T>(m: map<string, T>, key: string, builds: seq<Option<T>>, corrected: bool)
    ensures ResultsMatchBuilds(builds, Race(m, key, builds, corrected).1, corrected)
    decreases |builds|
  {
    if builds != [] {
      var s := if corrected then SlowPathCorrected(m, key, builds[0]) else SlowPath(m, key, builds[0]);
      RaceResults(s.m, key, builds[1..], corrected);
      var r := Race(m, key, builds, corrected);
      var r' := Race(s.m, key, builds[1..], corrected);
      assert r.1 == [s.res] + r'.1;
      forall i | 0 <= i < |builds|
        ensures (r.1[i].Ok? <==> builds[i].Some?) && (!corrected && builds[i].Some? ==> r.1[i] == Ok(builds[i].value))
      {
        if i > 0 {
          assert r.1[i] == r'.1[i - 1] && builds[i] == builds[1..][i - 1];
        }
      }
    }
  }

  /** First writer wins: on an absent key, the first non-nil build in lock
      order is the entry stored after the race, in either version. */
  lemma {:induction false} FirstWriterWins<T>(m: map<string, T>, key: string, builds: seq<Option<T>>, corrected: bool, j: nat)
    requires key !in m && j < |builds| && builds[j].Some?
    requires forall i :: 0 <= i < j ==> builds[i].None?
    ensures key in Race(m, key, builds, corrected).0
    ensures Race(m, key, builds, corrected).0[key] == builds[j].value
    decreases j
  {
    var s := if corrected then SlowPathCorrected(m, key, builds[0]) else SlowPath(m, key, builds[0]);
    var r' := Race(s.m, key, builds[1..], corrected);
    assert Race(m, key, builds, corrected).0 == r'.0;
    if j == 0 {
      assert key in s.m && s.m[key] == builds[0].value;
      assert Extends(s.m, r'.0);
    } else {
      assert builds[0].None?;
      assert s.m == m;
      assert builds[1..][j - 1] == builds[j];
      assert forall i :: 0 <= i < j - 1 ==> builds[1..][i] == builds[i + 1];
      FirstWriterWins(s.m, key, builds[1..], corrected, j - 1);
    }
  }

  /** As written, two racing callers with distinct instances end up holding
      different ones: the second caller gets an instance that was never
      stored. */
  lemma RaceAsWrittenSplits()
    ensures var r := Race(map[], "svc-a", [Some(1), Some(2)], false);
      && r.0 == map["svc-a" := 1]
      && r.1 == [Ok(1), Ok(2)]
      && r.1[1].value != r.0["svc-a"]
  {
    var builds: seq<Option<nat>> := [Some(1), Some(2)];
    var m0: map<string, nat> := map[];
    var s := SlowPath(m0, "svc-a", builds[0]);
    assert s.m == map["svc-a" := 1];
    var s2 := SlowPath(s.m, "svc-a", builds[1]);
    assert s2.m == s.m;
    assert builds[1..][1..] == [];
  }
}
