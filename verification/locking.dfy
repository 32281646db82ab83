/** The write lock of the group's RWMutex across get-or-create calls. The
    error path of both get-or-create operations returns while still holding
    the write lock, so every later call blocks forever; the corrected
    version releases it on every path and is exactly the lock-free
    semantics of `Registry.GetOrNew` that the rest of the model uses. */
module Locking {
  import opened Wrappers
  import opened Registry

  /** The writer side of the mutex, as left between calls. */
  datatype Lock = Unlocked | WriteHeld

  /** A call either returns, leaving a map and a lock state, or never
      returns because it waits for a writer that will not unlock. */
  datatype Call<T> = Returned(m: map<string, T>, res: Result<T, Error>, lock: Lock) | Blocked

  /** Get-or-create as written: the shared-lock lookup waits while a writer
      holds the lock; a nil factory result returns without unlocking. */
  function GetOrNewAsWritten<T>(lock: Lock, m: map<string, T>, f: string -> Option<T>, key: string): (c: Call<T>)
    ensures lock == WriteHeld <==> c.Blocked?
    ensures c.Returned? ==> (c.lock == WriteHeld <==> c.res.Err?)
    ensures c.Returned? ==> c.m == GetOrNew(m, Some(f), key).m && c.res == GetOrNew(m, Some(f), key).res
  {
    if lock == WriteHeld then Blocked
    else
      var s := GetOrNew(m, Some(f), key);
      Returned(s.m, s.res, if s.res.Err? then WriteHeld else Unlocked)
  }

  /** Get-or-create with the lock released on the error path too. */
  function GetOrNewCorrected<T>(lock: Lock, m: map<string, T>, f: string -> Option<T>, key: string): (c: Call<T>)
    ensures lock == WriteHeld <==> c.Blocked?
    ensures c.Returned? ==> c.lock == Unlocked
    ensures c.Returned? ==> c.m == GetOrNew(m, Some(f), key).m && c.res == GetOrNew(m, Some(f), key).res
  {
    if lock == WriteHeld then Blocked
    else
      var s := GetOrNew(m, Some(f), key);
      Returned(s.m, s.res, Unlocked)
  }

  /** As written, one failed creation leaves the write lock held, so the
      retry for the same key (or any other call) never returns, instead of
      invoking the factory again. */
  lemma FailedCreateBlocksLaterCalls<T>(m: map<string, T>, f: string -> Option<T>, key: string, f2: string -> Option<T>, key2: string)
    requires key !in m && f(key).None?
    ensures var c := GetOrNewAsWritten(Unlocked, m, f, key);
      && c == Returned(m, Err(ErrCreateUnavailable), WriteHeld)
      && GetOrNewAsWritten(c.lock, c.m, f2, key2) == Blocked
  {
  }

  /** Corrected, a failed creation leaves the lock free and the map
      unchanged, and the retry for the same key runs the factory again and
      returns what a first call would. */
  lemma CorrectedFailureAllowsRetry<T>(m: map<string, T>, f: string -> Option<T>, key: string, f2: string -> Option<T>)
    requires key !in m && f(key).None?
    ensures var c := GetOrNewCorrected(Unlocked, m, f, key);
      && c == Returned(m, Err(ErrCreateUnavailable), Unlocked)
      && GetOrNewCorrected(c.lock, c.m, f2, key).Returned?
      && GetOrNew(c.m, Some(f2), key).called
  {
  }

  /** A sequence of calls, all with factory `f`, each starting from the
      lock state the previous one left: the final map and each call's
      result, or None once a call blocks. `corrected` selects the version. */
  function RunFrom<T>(lock: Lock, m: map<string, T>, f: string -> Option<T>, keys: seq<string>, corrected: bool): (r: Option<(map<string, T>, seq<Result<T, Error>>)>)
    ensures r.Some? ==> |r.value.1| == |keys|
    decreases |keys|
  {
    if keys == [] then Some((m, []))
    else
      var c := if corrected then GetOrNewCorrected(lock, m, f, keys[0]) else GetOrNewAsWritten(lock, m, f, keys[0]);
      match c
      case Blocked => None
      case Returned(m', res, lock') =>
        match RunFrom(lock', m', f, keys[1..], corrected)
        case None => None
        case Some((mf, rest)) => Some((mf, [res] + rest))
  }

  /** Corrected, no sequence of calls from a free lock ever blocks,
      whatever fails along the way. */
  lemma {:induction false} CorrectedNeverBlocks<T>(m: map<string, T>, f: string -> Option<T>, keys: seq<string>)
    ensures RunFrom(Unlocked, m, f, keys, true).Some?
    decreases |keys|
  {
    if keys != [] {
      var c := GetOrNewCorrected(Unlocked, m, f, keys[0]);
      CorrectedNeverBlocks(c.m, f, keys[1..]);
    }
  }

  /** As written, a run whose first call fails to create never completes
      once there is any later call. */
  lemma FailedCreateBlocksRun<T>(m: map<string, T>, f: string -> Option<T>, keys: seq<string>)
    requires |keys| >= 2 && keys[0] !in m && f(keys[0]).None?
    ensures RunFrom(Unlocked, m, f, keys, false).None?
  {
    var c := GetOrNewAsWritten(Unlocked, m, f, keys[0]);
    assert c == Returned(m, Err(ErrCreateUnavailable), WriteHeld);
    assert GetOrNewAsWritten(WriteHeld, m, f, keys[1..][0]) == Blocked;
  }
}
