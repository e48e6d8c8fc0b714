// The one-entry cache in front of the certificate verifier: src/verify_cache.cpp.

module VerifyCaches {

  const TICKS := 1_000_000_000 // of the steady clock in a second

  /** One call of verify: its time, the hash of its certificate, and what the verifier would say. */
  datatype Call = Call(now: int, hash: seq<nat>, answer: int)

  datatype Cache = Cache(hash: seq<nat>, expiry: int)

  datatype Outcome = Outcome(cache: Cache, result: int, asked: bool)

  class VerifyCache {
    const hasVerifier: bool
    const timeout: int
    var cache: seq<nat>
    var expiry: int

    function Value(): Cache
      reads this
    {
      Cache(cache, expiry)
    }

    constructor (hasVerifier: bool, timeout: int)
      ensures this.hasVerifier == hasVerifier && this.timeout == timeout
      ensures Value() == Cache([], 0)
    {
      this.hasVerifier, this.timeout := hasVerifier, timeout;
      cache, expiry := [], 0;
    }

    method ForwardVerify(answer: int) returns (result: int)
      ensures result == if hasVerifier then answer else 0
    {
      result := 0;
      if hasVerifier {
        result := answer;
      }
    }

    method Verify(call: Call) returns (result: int, asked: bool)
      modifies this
      ensures Outcome(Value(), result, asked) == Verified(hasVerifier, timeout, old(Value()), call)
    {
      asked := false;
      if call.now > expiry {
        cache := [];
      }
      if call.hash != [] && call.hash == cache {
        result := 1;
      } else {
        result := ForwardVerify(call.answer);
        asked := true;
        if result == 1 {
          cache := call.hash;
          expiry := call.now + timeout * TICKS;
        }
      }
    }
  }

  function Verified(hasVerifier: bool, timeout: int, c: Cache, call: Call): Outcome {
    var hash := if call.now > c.expiry then [] else c.hash;
    if call.hash != [] && call.hash == hash then Outcome(Cache(hash, c.expiry), 1, false)
    else
      var result := if hasVerifier then call.answer else 0;
      Outcome(if result == 1 then Cache(call.hash, call.now + timeout * TICKS) else Cache(hash, c.expiry), result, true)
  }

  /** The outcome of call `i` in a run that starts from an empty cache. */
  function Run(hasVerifier: bool, timeout: int, calls: seq<Call>, i: nat): Outcome
    requires i < |calls|
  {
    Verified(hasVerifier, timeout, CacheBefore(hasVerifier, timeout, calls, i), calls[i])
  }

  function CacheBefore(hasVerifier: bool, timeout: int, calls: seq<Call>, i: nat): Cache
    requires i <= |calls|
  {
    if i == 0 then Cache([], 0)
    else Verified(hasVerifier, timeout, CacheBefore(hasVerifier, timeout, calls, i - 1), calls[i - 1]).cache
  }

  /** Call `j` reached the verifier, which accepted. */
  predicate Accepted(hasVerifier: bool, timeout: int, calls: seq<Call>, j: nat)
    requires j < |calls|
  {
    hasVerifier && Run(hasVerifier, timeout, calls, j).asked && calls[j].answer == 1
  }

  /** The last call before `i` that the verifier accepted, or -1. */
  function LastAccepted(hasVerifier: bool, timeout: int, calls: seq<Call>, i: nat): (j: int)
    requires i <= |calls|
    ensures -1 <= j < i
    ensures j >= 0 ==> Accepted(hasVerifier, timeout, calls, j)
    ensures forall k :: j < k < i ==> !Accepted(hasVerifier, timeout, calls, k)
  {
    if i == 0 then -1
    else if Accepted(hasVerifier, timeout, calls, i - 1) then i - 1
    else LastAccepted(hasVerifier, timeout, calls, i - 1)
  }

  predicate ClockRuns(calls: seq<Call>) {
    forall i, j :: 0 <= i < j < |calls| ==> calls[i].now <= calls[j].now
  }

  /** From call `j` to call `i`, the clock never read more than the timeout after call `j`. */
  ghost predicate Within(timeout: int, calls: seq<Call>, j: nat, i: nat)
    requires i <= |calls|
  {
    forall k :: j < k < i ==> calls[k].now - calls[j].now <= timeout * TICKS
  }

  lemma WithinNext(timeout: int, calls: seq<Call>, j: nat, i: nat)
    requires j < i < |calls|
    ensures Within(timeout, calls, j, i + 1)
            <==> Within(timeout, calls, j, i) && calls[i].now - calls[j].now <= timeout * TICKS
  {
  }

  /** The cache holds the last accepted hash with its expiry, until the clock reads more than that. */
  lemma {:induction false} CacheHolds(hasVerifier: bool, timeout: int, calls: seq<Call>, i: nat)
    requires i <= |calls|
    ensures var j, c := LastAccepted(hasVerifier, timeout, calls, i), CacheBefore(hasVerifier, timeout, calls, i);
            if j < 0 then c.hash == []
            else
              && c.expiry == calls[j].now + timeout * TICKS
              && c.hash == if Within(timeout, calls, j, i) then calls[j].hash else []
  {
    if i > 0 {
      CacheHolds(hasVerifier, timeout, calls, i - 1);
      var j := LastAccepted(hasVerifier, timeout, calls, i);
      if 0 <= j < i - 1 {
        WithinNext(timeout, calls, j, i - 1);
        hide Within;
      }
    }
  }

  /** A call that reaches the verifier gets its answer, and refusal when there is none. */
  lemma AskedAnswered(hasVerifier: bool, timeout: int, calls: seq<Call>, i: nat)
    requires i < |calls|
    ensures var o := Run(hasVerifier, timeout, calls, i);
            o.asked ==> o.result == if hasVerifier then calls[i].answer else 0
  {
  }

  /**
   * Whatever the clock does: a call that the verifier does not see is accepted,
   * and the verifier accepted the same, non-empty hash no longer ago than the
   * timeout, and nothing else since.
   */
  lemma CacheSound(hasVerifier: bool, timeout: int, calls: seq<Call>, i: nat)
    requires i < |calls|
    ensures var o, j := Run(hasVerifier, timeout, calls, i), LastAccepted(hasVerifier, timeout, calls, i);
            !o.asked ==> && o.result == 1 && hasVerifier
                         && 0 <= j < i && Run(hasVerifier, timeout, calls, j).asked && calls[j].answer == 1
                         && calls[j].hash == calls[i].hash != []
                         && calls[i].now - calls[j].now <= timeout * TICKS
  {
    CacheHolds(hasVerifier, timeout, calls, i);
  }

  /**
   * The verifier is spared exactly when the last hash it accepted is this one,
   * not empty, and the clock never read more than the timeout after that.
   */
  lemma CacheExact(hasVerifier: bool, timeout: int, calls: seq<Call>, i: nat)
    requires i < |calls|
    ensures var j := LastAccepted(hasVerifier, timeout, calls, i);
            !Run(hasVerifier, timeout, calls, i).asked
            <==> j >= 0 && calls[j].hash == calls[i].hash != [] && Within(timeout, calls, j, i + 1)
  {
    CacheHolds(hasVerifier, timeout, calls, i);
    var j := LastAccepted(hasVerifier, timeout, calls, i);
    if j >= 0 {
      WithinNext(timeout, calls, j, i);
      hide Within;
    }
  }

  /** On a clock that does not go back, when the last call accepted is no longer ago. */
  lemma CacheExactInTime(hasVerifier: bool, timeout: int, calls: seq<Call>, i: nat)
    requires i < |calls| && ClockRuns(calls)
    ensures var j := LastAccepted(hasVerifier, timeout, calls, i);
            !Run(hasVerifier, timeout, calls, i).asked
            <==> j >= 0 && calls[j].hash == calls[i].hash != [] && calls[i].now - calls[j].now <= timeout * TICKS
  {
    CacheExact(hasVerifier, timeout, calls, i);
    var j := LastAccepted(hasVerifier, timeout, calls, i);
    if j >= 0 && calls[i].now - calls[j].now <= timeout * TICKS {
      assert forall k :: j < k < i + 1 ==> calls[k].now <= calls[i].now;
    }
  }

  /** The verifier's acceptance of a hash lasts at least as long as the timeout. */
  predicate Stable(timeout: int, calls: seq<Call>) {
    forall i, j :: 0 <= j < i < |calls| && calls[i].hash == calls[j].hash != []
                   && calls[i].now - calls[j].now <= timeout * TICKS
                   && calls[j].answer == 1
                   ==> calls[i].answer == 1
  }

  /** With such a verifier the cache cannot be told from the verifier. */
  lemma CacheTransparent(hasVerifier: bool, timeout: int, calls: seq<Call>, i: nat)
    requires i < |calls| && Stable(timeout, calls)
    ensures Run(hasVerifier, timeout, calls, i).result == if hasVerifier then calls[i].answer else 0
  {
    CacheSound(hasVerifier, timeout, calls, i);
  }

  /** A hash accepted at ten seconds, with a timeout of a minute, is spared up to the seventieth, and no longer. */
  lemma MinuteOnTheDot(hash: seq<nat>, wrong: int)
    requires hash != [] && wrong != 1
    ensures var calls := [Call(10_000_000_000, hash, 1), Call(70_000_000_000, hash, wrong),
                          Call(70_000_000_001, hash, wrong)];
            && Run(true, 60, calls, 1) == Outcome(Cache(hash, 70_000_000_000), 1, false)
            && Run(true, 60, calls, 2) == Outcome(Cache([], 70_000_000_000), wrong, true)
  {
    var calls := [Call(10_000_000_000, hash, 1), Call(70_000_000_000, hash, wrong), Call(70_000_000_001, hash, wrong)];
    assert CacheBefore(true, 60, calls, 0) == Cache([], 0);
    assert CacheBefore(true, 60, calls, 1) == Cache(hash, 70_000_000_000);
    assert CacheBefore(true, 60, calls, 2) == Cache(hash, 70_000_000_000);
  }
}
