// The cache that refuses a repeated nonce (src/federation/nonce-cache.ts), as the peer check uses it
// (src/federation/peer-auth.ts). Times are milliseconds.
module NonceCache {
  datatype Cache = Cache(seen: map<string, int>, lastPrune: int)

  datatype Call = Call(nonce: string, now: int)

  const Empty := Cache(map[], 0)

  function Pruned(seen: map<string, int>, now: int): map<string, int> {
    map nonce | nonce in seen && seen[nonce] > now :: seen[nonce]
  }

  function Prepared(c: Cache, now: int, retention: nat): Cache {
    if (now - c.lastPrune) * 4 > retention then Cache(Pruned(c.seen, now), now) else c
  }

  predicate Fresh(seen: map<string, int>, call: Call) {
    call.nonce in seen ==> seen[call.nonce] <= call.now
  }

  function Remember(c: Cache, call: Call, retention: nat): Cache {
    var c := Prepared(c, call.now, retention);
    if Fresh(c.seen, call) then c.(seen := c.seen[call.nonce := call.now + retention]) else c
  }

  function Accepts(c: Cache, call: Call, retention: nat): bool {
    Fresh(Prepared(c, call.now, retention).seen, call)
  }

  class NonceMemory {
    const retention: nat
    var seen: map<string, int>
    var lastPrune: int

    ghost function View(): Cache
      reads this
    {
      Cache(seen, lastPrune)
    }

    constructor (retention: nat)
      ensures this.retention == retention && View() == Empty
    {
      this.retention, seen, lastPrune := retention, map[], 0;
    }

    method Prune(now: int)
      modifies this
      ensures View() == Cache(Pruned(old(seen), now), now)
    {
      var left := seen.Keys;
      while left != {}
        invariant left <= seen.Keys <= old(seen).Keys
        invariant forall nonce :: nonce in old(seen) && (nonce in left || old(seen)[nonce] > now) ==> nonce in seen
        invariant forall nonce :: nonce in seen ==>
          seen[nonce] == old(seen)[nonce] && (nonce in left || seen[nonce] > now)
        decreases left
      {
        var nonce :| nonce in left;
        if seen[nonce] <= now {
          seen := seen - {nonce};
        }
        left := left - {nonce};
      }
      lastPrune := now;
    }

    /** A nonce is refused exactly while its entry has not expired; no unexpired entry is lost or changed. */
    method RememberNonce(nonce: string, now: int) returns (isNew: bool)
      modifies this
      ensures isNew == Accepts(old(View()), Call(nonce, now), retention)
      ensures View() == Remember(old(View()), Call(nonce, now), retention)
      ensures isNew <==> !(nonce in old(seen) && old(seen)[nonce] > now)
      ensures isNew ==> nonce in seen && seen[nonce] == now + retention
      ensures forall n :: n in old(seen) && old(seen)[n] > now ==> n in seen && seen[n] == old(seen)[n]
      ensures forall n :: n in seen && n != nonce ==> n in old(seen) && seen[n] == old(seen)[n]
    {
      if (now - lastPrune) * 4 > retention {
        Prune(now);
      }
      if nonce in seen && seen[nonce] > now {
        return false;
      }
      seen := seen[nonce := now + retention];
      isNew := true;
    }
  }

  // ----- Runs -----

  function Run(calls: seq<Call>, retention: nat): Cache {
    if calls == [] then Empty
    else Remember(Run(calls[..|calls| - 1], retention), calls[|calls| - 1], retention)
  }

  /** The answer to the `i`-th call. */
  predicate Accepted(calls: seq<Call>, i: nat, retention: nat)
    requires i < |calls|
  {
    Accepts(Run(calls[..i], retention), calls[i], retention)
  }

  predicate NonDecreasing(calls: seq<Call>) {
    forall i, j :: 0 <= i < j < |calls| ==> calls[i].now <= calls[j].now
  }

  /** The `j`-th call was accepted and its nonce is remembered until after `at`. */
  predicate Blocks(calls: seq<Call>, j: nat, call: Call, retention: nat)
    requires j < |calls|
  {
    Accepted(calls, j, retention) && calls[j].nonce == call.nonce && call.now < calls[j].now + retention
  }

  ghost predicate Blocked(calls: seq<Call>, call: Call, retention: nat) {
    exists j: nat :: j < |calls| && Blocks(calls, j, call, retention)
  }

  /** What the cache holds is what the unpruned history says about every call not before the clock. */
  ghost predicate Remembers(calls: seq<Call>, seen: map<string, int>, clock: int, retention: nat) {
    forall call: Call :: call.now >= clock ==> (Fresh(seen, call) <==> !Blocked(calls, call, retention))
  }

  lemma BlockedSnoc(calls: seq<Call>, last: Call, call: Call, retention: nat)
    ensures Blocked(calls + [last], call, retention) <==>
      Blocked(calls, call, retention)
      || (Accepts(Run(calls, retention), last, retention) && last.nonce == call.nonce
        && call.now < last.now + retention)
  {
    var all := calls + [last];
    assert all[..|calls|] == calls;
    forall j: nat | j < |calls| ensures Blocks(all, j, call, retention) == Blocks(calls, j, call, retention) {
      assert all[..j] == calls[..j];
    }
    if Blocked(calls, call, retention) {
      var j: nat :| j < |calls| && Blocks(calls, j, call, retention);
      assert Blocks(all, j, call, retention);
    }
    assert Blocks(all, |calls|, call, retention) <==>
      Accepts(Run(calls, retention), last, retention) && last.nonce == call.nonce && call.now < last.now + retention;
  }

  lemma PrunedRemembers(calls: seq<Call>, seen: map<string, int>, clock: int, now: int, retention: nat)
    requires Remembers(calls, seen, clock, retention) && clock <= now
    ensures Remembers(calls, Pruned(seen, now), now, retention) && Remembers(calls, seen, now, retention)
  {
    hide Blocked;
  }

  lemma StepRemembers(calls: seq<Call>, last: Call, clock: int, retention: nat)
    requires Remembers(calls, Run(calls, retention).seen, clock, retention) && clock <= last.now
    ensures Remembers(calls + [last], Remember(Run(calls, retention), last, retention).seen, last.now, retention)
    ensures Accepts(Run(calls, retention), last, retention) <==> !Blocked(calls, last, retention)
  {
    hide Blocked, Run;
    var c := Run(calls, retention);
    PrunedRemembers(calls, c.seen, clock, last.now, retention);
    var p := Prepared(c, last.now, retention);
    assert Remembers(calls, p.seen, last.now, retention);
    forall call: Call | call.now >= last.now
      ensures Fresh(Remember(c, last, retention).seen, call) <==> !Blocked(calls + [last], call, retention)
    {
      BlockedSnoc(calls, last, call, retention);
    }
  }

  lemma {:induction false} RunRemembers(calls: seq<Call>, retention: nat, clock: int)
    requires NonDecreasing(calls) && (calls != [] ==> clock == calls[|calls| - 1].now)
    ensures Remembers(calls, Run(calls, retention).seen, clock, retention)
  {
    if calls == [] {
      assert forall call :: !Blocked([], call, retention);
    } else {
      var front, last := calls[..|calls| - 1], calls[|calls| - 1];
      var before := if front == [] then last.now else front[|front| - 1].now;
      RunRemembers(front, retention, before);
      StepRemembers(front, last, before, retention);
      assert front + [last] == calls;
    }
  }

  /** With a clock that does not go back, pruning is invisible: a call is refused exactly when its
      nonce was accepted less than the retention before it. */
  lemma PruningIsInvisible(calls: seq<Call>, i: nat, retention: nat)
    requires NonDecreasing(calls) && i < |calls|
    ensures Accepted(calls, i, retention) <==> !Blocked(calls[..i], calls[i], retention)
  {
    hide Blocked, Run;
    var front := calls[..i];
    var before := if front == [] then calls[i].now else front[i - 1].now;
    RunRemembers(front, retention, before);
    StepRemembers(front, calls[i], before, retention);
  }

  // ----- Any clock -----

  predicate Prunes(calls: seq<Call>, k: nat, retention: nat)
    requires k < |calls|
  {
    (calls[k].now - Run(calls[..k], retention).lastPrune) * 4 > retention
  }

  /** The `k`-th call leaves alone what the `j`-th one recorded: it does not record the nonce again, and
      prunes, if it does, before the entry expires. */
  predicate Spares(calls: seq<Call>, j: nat, k: nat, retention: nat)
    requires j < |calls| && k < |calls|
  {
    && !(Accepted(calls, k, retention) && calls[k].nonce == calls[j].nonce)
    && (Prunes(calls, k, retention) ==> calls[k].now < calls[j].now + retention)
  }

  /** The `j`-th call recorded the nonce, and every later one spared the entry. */
  ghost predicate Held(calls: seq<Call>, nonce: string, j: nat, retention: nat)
    requires j < |calls|
  {
    && Accepted(calls, j, retention) && calls[j].nonce == nonce
    && forall k: nat :: j < k < |calls| ==> Spares(calls, j, k, retention)
  }

  lemma PrefixCalls(calls: seq<Call>, last: Call, k: nat, retention: nat)
    requires k < |calls|
    ensures Accepted(calls + [last], k, retention) == Accepted(calls, k, retention)
    ensures Prunes(calls + [last], k, retention) == Prunes(calls, k, retention)
  {
    assert (calls + [last])[..k] == calls[..k];
  }

  lemma LastCall(calls: seq<Call>, last: Call, retention: nat)
    ensures var all, c := calls + [last], Run(calls, retention);
      && (Accepted(all, |calls|, retention) <==> Accepts(c, last, retention))
      && (Prunes(all, |calls|, retention) <==> (last.now - c.lastPrune) * 4 > retention)
  {
    assert (calls + [last])[..|calls|] == calls;
  }

  lemma HeldSnoc(calls: seq<Call>, last: Call, nonce: string, j: nat, retention: nat)
    requires j < |calls|
    ensures Held(calls + [last], nonce, j, retention)
       <==> Held(calls, nonce, j, retention) && Spares(calls + [last], j, |calls|, retention)
  {
    hide Accepted, Prunes;
    var all := calls + [last];
    PrefixCalls(calls, last, j, retention);
    forall k: nat | k < |calls| ensures Spares(all, j, k, retention) == Spares(calls, j, k, retention) {
      PrefixCalls(calls, last, k, retention);
    }
  }

  /** The cache holds exactly the entries that were spared, with their times. */
  ghost predicate HoldsExactly(calls: seq<Call>, seen: map<string, int>, retention: nat) {
    && (forall nonce :: nonce in seen ==> HeldUntil(calls, nonce, seen[nonce], retention))
    && forall j: nat :: j < |calls| && Held(calls, calls[j].nonce, j, retention) ==>
         calls[j].nonce in seen && seen[calls[j].nonce] == calls[j].now + retention
  }

  ghost predicate HeldUntil(calls: seq<Call>, nonce: string, expiry: int, retention: nat) {
    exists j: nat :: j < |calls| && Held(calls, nonce, j, retention) && expiry == calls[j].now + retention
  }

  lemma RunSnoc(calls: seq<Call>, last: Call, retention: nat)
    ensures Run(calls + [last], retention) == Remember(Run(calls, retention), last, retention)
  {
    assert (calls + [last])[..|calls|] == calls;
  }

  lemma EntryIsHeld(calls: seq<Call>, last: Call, nonce: string, retention: nat)
    requires HoldsExactly(calls, Run(calls, retention).seen, retention)
    requires nonce in Remember(Run(calls, retention), last, retention).seen
    ensures HeldUntil(calls + [last], nonce, Remember(Run(calls, retention), last, retention).seen[nonce], retention)
  {
    var all, c := calls + [last], Run(calls, retention);
    LastCall(calls, last, retention);
    hide Accepted, Prunes, Run;
    if Accepts(c, last, retention) && nonce == last.nonce {
      assert Held(all, nonce, |calls|, retention);
    } else {
      var j: nat :| j < |calls| && Held(calls, nonce, j, retention) && c.seen[nonce] == calls[j].now + retention;
      HeldNonce(calls, nonce, j, retention);
      HeldSnoc(calls, last, nonce, j, retention);
      assert Held(all, nonce, j, retention);
    }
  }

  lemma HeldIsEntry(calls: seq<Call>, last: Call, j: nat, retention: nat)
    requires HoldsExactly(calls, Run(calls, retention).seen, retention)
    requires j <= |calls| && Held(calls + [last], (calls + [last])[j].nonce, j, retention)
    ensures var call, seen := (calls + [last])[j], Remember(Run(calls, retention), last, retention).seen;
      call.nonce in seen && seen[call.nonce] == call.now + retention
  {
    LastCall(calls, last, retention);
    hide Accepted, Prunes, Run;
    if j < |calls| {
      HeldSnoc(calls, last, calls[j].nonce, j, retention);
    }
  }

  lemma StepHolds(calls: seq<Call>, last: Call, retention: nat)
    requires HoldsExactly(calls, Run(calls, retention).seen, retention)
    ensures HoldsExactly(calls + [last], Run(calls + [last], retention).seen, retention)
  {
    hide Run, Held, HeldUntil, Remember;
    RunSnoc(calls, last, retention);
    var all, after := calls + [last], Remember(Run(calls, retention), last, retention);
    forall nonce | nonce in after.seen ensures HeldUntil(all, nonce, after.seen[nonce], retention) {
      EntryIsHeld(calls, last, nonce, retention);
    }
    forall j: nat | j < |all| && Held(all, all[j].nonce, j, retention)
      ensures all[j].nonce in after.seen && after.seen[all[j].nonce] == all[j].now + retention
    {
      HeldIsEntry(calls, last, j, retention);
    }
  }

  lemma {:induction false} RunHolds(calls: seq<Call>, retention: nat)
    ensures HoldsExactly(calls, Run(calls, retention).seen, retention)
  {
    if calls != [] {
      hide HoldsExactly, Run;
      var front, last := calls[..|calls| - 1], calls[|calls| - 1];
      assert front + [last] == calls;
      RunHolds(front, retention);
      StepHolds(front, last, retention);
    }
  }

  /** Whatever the clock does, a call is refused exactly if its nonce was recorded less than the retention
      before it, and since then neither recorded again nor pruned at a time at which it had expired. */
  lemma RefusedIffHeld(calls: seq<Call>, i: nat, retention: nat)
    requires i < |calls|
    ensures !Accepted(calls, i, retention)
       <==> exists j: nat ::
              j < i && Held(calls[..i], calls[i].nonce, j, retention) && calls[i].now < calls[j].now + retention
  {
    var front, call := calls[..i], calls[i];
    RunHolds(front, retention);
    var seen := Run(front, retention).seen;
    hide Run, Held;
    assert !Accepted(calls, i, retention) <==> call.nonce in seen && seen[call.nonce] > call.now;
    if call.nonce in seen && seen[call.nonce] > call.now {
      var j: nat :| j < |front| && Held(front, call.nonce, j, retention)
        && seen[call.nonce] == front[j].now + retention;
      assert front[j] == calls[j];
    }
    if j: nat :| j < i && Held(front, call.nonce, j, retention) && call.now < calls[j].now + retention {
      HeldNonce(front, call.nonce, j, retention);
      assert front[j] == calls[j];
    }
  }

  lemma HeldNonce(calls: seq<Call>, nonce: string, j: nat, retention: nat)
    requires j < |calls| && Held(calls, nonce, j, retention)
    ensures calls[j].nonce == nonce
  {
  }

  // ----- The peer check -----

  function Key(peer: string, nonce: string): string {
    peer + ":" + nonce
  }

  datatype Request = Request(peer: string, nonce: string, now: int)

  function CallOf(r: Request): Call {
    Call(Key(r.peer, r.nonce), r.now)
  }

  function CallsOf(requests: seq<Request>): (calls: seq<Call>)
    ensures |calls| == |requests| && forall i :: 0 <= i < |requests| ==> calls[i] == CallOf(requests[i])
  {
    seq(|requests|, i requires 0 <= i < |requests| => CallOf(requests[i]))
  }

  /** No request of one peer with one nonce passes twice less than twice the skew apart. */
  lemma NoReplayWithinTwiceTheSkew(requests: seq<Request>, i: nat, j: nat, skew: nat)
    requires NonDecreasing(CallsOf(requests)) && i < j < |requests|
    requires requests[i].peer == requests[j].peer && requests[i].nonce == requests[j].nonce
    requires Accepted(CallsOf(requests), i, 2 * skew) && Accepted(CallsOf(requests), j, 2 * skew)
    ensures requests[j].now - requests[i].now >= 2 * skew
  {
    hide Accepted, NonDecreasing, Run;
    var calls := CallsOf(requests);
    PruningIsInvisible(calls, j, 2 * skew);
    SameAnswer(calls, i, j, 2 * skew);
    assert !Blocks(calls[..j], i, calls[j], 2 * skew);
  }

  lemma SameAnswer(calls: seq<Call>, i: nat, j: nat, retention: nat)
    requires i < j < |calls|
    ensures Accepted(calls[..j], i, retention) == Accepted(calls, i, retention)
  {
    assert calls[..j][..i] == calls[..i];
  }

  /** With a clock that goes back, pruning forgets: a nonce that should be refused passes. */
  lemma BackwardClockForgets()
    ensures var calls := [Call("a", 0), Call("b", 10), Call("a", 1)];
      Accepted(calls, 0, 4) && Accepted(calls, 2, 4) && Blocked(calls[..2], calls[2], 4)
  {
    var calls := [Call("a", 0), Call("b", 10), Call("a", 1)];
    assert calls[..0] == [] && calls[..1] == [calls[0]] && calls[..1][..0] == [];
    assert calls[..2] == [calls[0], calls[1]] && calls[..2][..1] == calls[..1] && calls[..2][..0] == [];
    var one := Run(calls[..1], 4);
    assert one == Cache(map["a" := 4], 0);
    var two := Run(calls[..2], 4);
    assert Pruned(one.seen, 10) == map[];
    assert two == Cache(map["b" := 14], 10);
    assert Blocks(calls[..2], 0, calls[2], 4);
  }
}
