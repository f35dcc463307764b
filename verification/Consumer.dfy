/** The loops themselves: the relay's batch, the consumer's `Run` and
    `handleOne`, and the operator's `Replay`, each written step by step over the
    shared tables and each shown to be a run of the protocol. What the outside
    world does (answers, failures, steps of other processes) is handed in, so a
    result holds for every behaviour of it. */
module ConsumerLoop {
  import opened Text
  import opened EventKey
  import opened Delivery
  import opened DeliveryProof
  import opened DeliveryTheorems
  import opened DeliveryWitness

  /** How one call of the handler goes when it is not stopped by the claim. */
  datatype Try = Ignores | FailsBefore | FailsAfterClaim | Works(acked: bool)

  datatype Outcome = Nil | AlreadyClaimed | Error

  /** Everything `handleOne` does not decide itself. `gaps` are the steps other
      processes take in between. */
  datatype Script = Script(
    probeFails: bool, tries: nat -> Try, stopsWaiting: nat -> bool, hasStore: bool, parkFails: bool,
    gaps: nat -> seq<Action>)

  datatype Fetched = FetchFails | Message(script: Script, stored: bool)

  const FETCH_RETRY_MIN: nat := 500
  const FETCH_RETRY_MAX: nat := 30000

  // ------------------------------------------------------------------ backoff

  function Pow2(n: nat): (p: nat)
    ensures p >= 1
  {
    if n == 0 then 1 else 2 * Pow2(n - 1)
  }

  lemma Pow2Grows(a: nat, b: nat)
    requires a <= b
    ensures Pow2(a) <= Pow2(b)
  {
    if a < b { Pow2Grows(a, b - 1); }
  }

  /** `backoffFor`: 1s doubled for every attempt already made, up to the ceiling,
      in milliseconds. */
  method BackoffFor(attempt: nat) returns (d: nat)
    requires attempt >= 1
    ensures d == if 1000 * Pow2(attempt - 1) <= 30000 then 1000 * Pow2(attempt - 1) else 30000
  {
    d := 1000;
    var i := 1;
    while i < attempt
      invariant 1 <= i <= attempt
      invariant d == 1000 * Pow2(i - 1) <= FETCH_RETRY_MAX
    {
      d := d * 2;
      if d > FETCH_RETRY_MAX {
        Pow2Grows(i, attempt - 1);
        return FETCH_RETRY_MAX;
      }
      i := i + 1;
    }
  }

  /** `nextRetry`, in milliseconds. */
  function NextRetry(d: nat): nat {
    if d == 0 then FETCH_RETRY_MIN else if d * 2 > FETCH_RETRY_MAX then FETCH_RETRY_MAX else d * 2
  }

  function Retries(n: nat): nat {
    if n == 0 then 0 else NextRetry(Retries(n - 1))
  }

  /** The wait after the n-th fetch failure in a row doubles from the floor and
      stops at the ceiling. */
  lemma {:induction false} RetriesDouble(n: nat)
    requires n >= 1
    ensures Retries(n) == if 500 * Pow2(n - 1) <= 30000 then 500 * Pow2(n - 1) else 30000
  {
    if n > 1 {
      RetriesDouble(n - 1);
      assert Pow2(n - 1) == 2 * Pow2(n - 2);
    }
  }

  // -------------------------------------------------------------- the processes

  /** Whether a step is taken by the given process or relay. */
  predicate Mine(a: Action, pid: Option<nat>, relay: Option<nat>) {
    match a
    case Produce(SelectBatch(r, _)) => relay == Some(r)
    case Produce(Publish(r, _, _, _)) => relay == Some(r)
    case Produce(Mark(r, _)) => relay == Some(r)
    case Produce(StopRelay(r)) => relay == Some(r)
    case Produce(_) => false
    case Join(q, _, _) => pid == Some(q)
    case Load(q, _, _) => pid == Some(q)
    case Do(q, _) => pid == Some(q)
  }

  predicate Stands(s: Sys, pid: nat, p: Option<Proc>) {
    if p.Some? then pid in s.procs && s.procs[pid] == p.value else pid !in s.procs
  }

  predicate RowsStay(o: map<Ref, OutboxRow>, o': map<Ref, OutboxRow>) {
    forall r :: r in o ==> r in o' && o'[r].env == o[r].env && (o[r].published ==> o'[r].published) && o[r].attempts <= o'[r].attempts
  }

  /** Nothing the first state knows is forgotten in the second. */
  predicate Later(s: Sys, t: Sys) {
    LogGrows(s.source.log, t.source.log) && DbGrows(s.db, t.db) && RowsStay(s.source.outbox, t.source.outbox)
  }

  lemma LaterRefl(s: Sys)
    ensures Later(s, s)
  {
  }

  lemma LaterTrans(s: Sys, t: Sys, u: Sys)
    requires Later(s, t) && Later(t, u)
    ensures Later(s, u)
  {
  }

  lemma RowsStayApart(s: Source, a: SourceStep)
    requires SourceCan(s, a)
    ensures RowsStay(s.outbox, SourceNext(s, a).outbox)
  {
  }

  lemma HandStays(s: Sys, t: Sys, p: Proc)
    requires Later(s, t) && InHand(s.source.log, p).Some?
    ensures InHand(t.source.log, p) == InHand(s.source.log, p)
  {
    if p.Consumer? {
      LogOfGrows(s.source.log, t.source.log, p.part);
    }
  }

  predicate SameFor(s: Sys, t: Sys, pid: Option<nat>, relay: Option<nat>) {
    && (pid.Some? ==> (pid.value in s.procs <==> pid.value in t.procs)
                      && (pid.value in s.procs ==> t.procs[pid.value] == s.procs[pid.value]))
    && (relay.Some? ==> (relay.value in s.source.relays <==> relay.value in t.source.relays)
                        && (relay.value in s.source.relays ==> t.source.relays[relay.value] == s.source.relays[relay.value]))
  }

  lemma OthersStandStill(rule: FetchRule, s: Sys, a: Action, pid: Option<nat>, relay: Option<nat>)
    requires Enabled(s, a) && !Mine(a, pid, relay)
    ensures SameFor(s, Apply(rule, s, a), pid, relay)
  {
  }

  function GivenUp(rule: FetchRule, p: Proc): Proc
    requires p.Consumer?
  {
    if rule == Redeliver then Consumer(p.group, p.part, p.cursor, p.gaveUp, Fetching)
    else Consumer(p.group, p.part, p.cursor + 1, p.gaveUp + {p.cursor}, Fetching)
  }

  // ------------------------------------------------------- what a process itself did

  /** The moves that a process has made, in order. */
  ghost function Own(acts: seq<Action>, pid: nat): seq<Move> {
    if acts == [] then []
    else
      var a := acts[|acts| - 1];
      Own(acts[..|acts| - 1], pid) + if a.Do? && a.pid == pid then [a.move] else []
  }

  lemma OwnSnoc(acts: seq<Action>, a: Action, pid: nat)
    ensures Own(acts + [a], pid) == Own(acts, pid) + if a.Do? && a.pid == pid then [a.move] else []
  {
    assert (acts + [a])[..|acts|] == acts;
  }

  /** What one call of the handler amounts to: an event is ignored exactly when
      the handler ignores it, work is committed together with its claim, a claim
      that somebody holds is refused, and each error has its cause. */
  predicate CallMoves(t: Try, r: Outcome, own: seq<Move>) {
    match r
    case Nil => (t.Ignores? && own == [Skip]) || (t == Works(true) && own == [Claim, Commit(true)])
    case AlreadyClaimed => (t.Works? || t.FailsAfterClaim?) && own == [Refused]
    case Error =>
      || (t.FailsBefore? && own == [Fail])
      || (t.FailsAfterClaim? && own == [Claim, Fail])
      || (t == Works(false) && own == [Claim, Commit(false)])
      || HeldUp(t, own)
  }

  /** The claim waited for somebody else's open transaction until it timed out. */
  predicate HeldUp(t: Try, own: seq<Move>) {
    (t.Works? || t.FailsAfterClaim?) && own == [Fail]
  }

  /** At some point between two traces another transaction held the key. */
  ghost predicate LockSeen(rule: FetchRule, t0: seq<Action>, t1: seq<Action>, group: string, key: string) {
    exists mid: seq<Action>, u: Sys :: Runs(rule, INIT, mid, u) && t0 <= mid <= t1 && Locked(u.procs, group, key)
  }

  lemma LockSeenWithin(rule: FetchRule, t0: seq<Action>, t1: seq<Action>, t2: seq<Action>, t3: seq<Action>, group: string, key: string)
    requires LockSeen(rule, t1, t2, group, key) && t0 <= t1 && t2 <= t3
    ensures LockSeen(rule, t0, t3, group, key)
  {
    var mid: seq<Action>, u: Sys :| Runs(rule, INIT, mid, u) && t1 <= mid <= t2 && Locked(u.procs, group, key);
    assert t0 <= mid <= t3;
  }

  function Flat(steps: seq<seq<Move>>): seq<Move> {
    if steps == [] then [] else Flat(steps[..|steps| - 1]) + steps[|steps| - 1]
  }

  /** How the attempts end: with a call that does not fail, or in the dead letters
      after five that do, or with the message given up. */
  function Ending(ok: bool, outcomes: seq<Outcome>): seq<Move> {
    if outcomes != [] && outcomes[|outcomes| - 1] != Error then [] else if ok then [Park] else [GiveUp]
  }

  /** The attempts of one message: all but the last fail, a message is parked only
      after five failures and only where that works, and it is given up only when
      it cannot be parked or the wait is cut short. */
  ghost predicate Tried(script: Script, ok: bool, calls: nat, outcomes: seq<Outcome>, steps: seq<seq<Move>>) {
    && 1 <= calls <= 5 && |outcomes| == |steps| == calls
    && (forall n :: 0 <= n < calls ==> CallMoves(script.tries(n + 1), outcomes[n], steps[n]))
    && (forall n :: 0 <= n < calls - 1 ==> outcomes[n] == Error && !CutShort(script, n + 1))
    && if outcomes[calls - 1] != Error then ok
       else if calls == 5 then ok == (script.hasStore && !script.parkFails)
       else !ok && CutShort(script, calls)
  }

  /** What `handleOne` did with a message, from the probe on. */
  ghost predicate HandledAs(script: Script, claimed: bool, ok: bool, calls: nat, own: seq<Move>) {
    if script.probeFails then !ok && calls == 0 && own == [GiveUp]
    else if claimed then ok && calls == 0 && own == [Probe]
    else exists outcomes, steps :: Tried(script, ok, calls, outcomes, steps) && own == [Probe] + Flat(steps) + Ending(ok, outcomes)
  }

  /** A message is fetched, handled if it can be read, and its offset committed
      when its handling allows it. */
  ghost predicate MessageMoves(script: Script, stored: bool, moves: seq<Move>, ok: bool, calls: nat, own: seq<Move>) {
    && moves == [Fetch] + own + (if ok then [CommitOffset(stored)] else [])
    && ((ok && own == []) || exists claimed :: HandledAs(script, claimed, ok, calls, own))
  }

  /** At some point between two traces the consumer had read all there was. */
  ghost predicate DrySeen(rule: FetchRule, t0: seq<Action>, t1: seq<Action>, pid: nat) {
    exists mid: seq<Action>, u: Sys :: Runs(rule, INIT, mid, u) && t0 <= mid <= t1 && pid in u.procs && u.procs[pid].Consumer?
                                       && u.procs[pid].cursor >= |LogOf(u.source.log, u.procs[pid].part)|
  }

  lemma DrySeenWithin(rule: FetchRule, t0: seq<Action>, t1: seq<Action>, t2: seq<Action>, t3: seq<Action>, pid: nat)
    requires DrySeen(rule, t1, t2, pid) && t0 <= t1 && t2 <= t3
    ensures DrySeen(rule, t0, t3, pid)
  {
    var mid: seq<Action>, u: Sys :| Runs(rule, INIT, mid, u) && t1 <= mid <= t2 && pid in u.procs && u.procs[pid].Consumer?
                                    && u.procs[pid].cursor >= |LogOf(u.source.log, u.procs[pid].part)|;
    assert t0 <= mid <= t3;
  }

  lemma SeenDry(rule: FetchRule, t: seq<Action>, u: Sys, pid: nat)
    requires Runs(rule, INIT, t, u) && pid in u.procs && u.procs[pid].Consumer?
    requires u.procs[pid].cursor >= |LogOf(u.source.log, u.procs[pid].part)|
    ensures DrySeen(rule, t, t, pid)
  {
  }

  /** What `Run` does about one answer of the reader: nothing about a failure, and
      a message is taken in unless there was none. */
  ghost predicate Answered(rule: FetchRule, t0: seq<Action>, t1: seq<Action>, pid: nat, a: Fetched, moves: seq<Move>) {
    match a
    case FetchFails => moves == []
    case Message(script, stored) =>
      || (moves == [] && DrySeen(rule, t0, t1, pid))
      || exists ok, calls, own :: MessageMoves(script, stored, moves, ok, calls, own)
  }

  lemma AnsweredLater(rule: FetchRule, t0: seq<Action>, t1: seq<Action>, t2: seq<Action>, pid: nat, a: Fetched, moves: seq<Move>)
    requires Answered(rule, t0, t1, pid, a, moves) && t1 <= t2
    ensures Answered(rule, t0, t2, pid, a, moves)
  {
    hide MessageMoves, DrySeen;
    if a.Message? && moves == [] && DrySeen(rule, t0, t1, pid) {
      DrySeenWithin(rule, t0, t0, t1, t2, pid);
    }
  }

  lemma NothingToldYet()
    ensures Flat([]) == []
  {
  }

  lemma NothingFetched(rule: FetchRule, t0: seq<Action>, t1: seq<Action>, pid: nat, a: Fetched)
    requires a.FetchFails?
    ensures Answered(rule, t0, t1, pid, a, [])
  {
  }

  lemma OneMoreTold(rule: FetchRule, t0: seq<Action>, t1: seq<Action>, t2: seq<Action>, pid: nat, answers: seq<Fetched>,
                    told: seq<seq<Move>>, moves: seq<Move>)
    requires |told| < |answers| && t1 <= t2
    requires forall k :: 0 <= k < |told| ==> Answered(rule, t0, t1, pid, answers[k], told[k])
    requires Answered(rule, t0, t2, pid, answers[|told|], moves)
    ensures forall k :: 0 <= k <= |told| ==> Answered(rule, t0, t2, pid, answers[k], (told + [moves])[k])
    ensures Flat(told + [moves]) == Flat(told) + moves
  {
    hide Answered;
    assert (told + [moves])[..|told|] == told;
    forall k | 0 <= k <= |told| ensures Answered(rule, t0, t2, pid, answers[k], (told + [moves])[k]) {
      if k < |told| {
        AnsweredLater(rule, t0, t1, t2, pid, answers[k], told[k]);
      }
    }
  }

  /** Nobody has the key or is about to have it. */
  predicate Free(s: Sys, group: string, key: string) {
    (group, key) !in s.db.claims && !Locked(s.procs, group, key)
  }

  predicate OthersStay(s: Sys, t: Sys, pid: nat) {
    forall q :: q in s.procs + t.procs && q != pid ==> q in s.procs && q in t.procs && s.procs[q] == t.procs[q]
  }

  lemma NoLockAfter(s: Sys, t: Sys, pid: nat, group: string, key: string)
    requires OthersStay(s, t, pid) && !Locked(s.procs, group, key) && (pid in t.procs ==> !t.procs[pid].pc.InTx?)
    ensures !Locked(t.procs, group, key)
  {
  }

  lemma OthersStayTrans(s: Sys, t: Sys, u: Sys, pid: nat)
    requires OthersStay(s, t, pid) && OthersStay(t, u, pid)
    ensures OthersStay(s, u, pid)
  {
    forall q | q in s.procs + u.procs && q != pid ensures q in s.procs && q in u.procs && s.procs[q] == u.procs[q] {
      assert q in s.procs ==> q in s.procs + t.procs;
      assert q in u.procs ==> q in t.procs + u.procs;
      assert q in t.procs ==> q in s.procs + t.procs && q in t.procs + u.procs;
    }
  }

  predicate Fails(t: Try) {
    t.FailsBefore? || t.FailsAfterClaim?
  }

  /** The first attempt that does not fail, with no wait cut short before it. */
  ghost predicate FirstDone(script: Script, m: nat) {
    && 1 <= m <= 5 && (script.tries(m).Ignores? || script.tries(m) == Works(true))
    && forall n :: 1 <= n < m ==> Fails(script.tries(n)) && !CutShort(script, n)
  }

  /** The attempt has done the event's work, or the handler has ignored it. */
  predicate Dealt(t: Try, s: Sys, u: Sys, group: string, key: string) {
    if t.Ignores? then u.db.claims == s.db.claims && (group, key) in u.db.skipped else (group, key) in u.db.claims
  }

  /** So far every call has failed. */
  ghost predicate Failing(script: Script, calls: nat, outcomes: seq<Outcome>, steps: seq<seq<Move>>) {
    && |outcomes| == |steps| == calls <= HANDLER_ATTEMPTS
    && (forall n :: 0 <= n < calls ==> CallMoves(script.tries(n + 1), outcomes[n], steps[n]) && outcomes[n] == Error)
    && (forall n :: 1 <= n <= calls ==> !CutShort(script, n))
  }

  /** The wait after an attempt is cut short; after the last one there is none. */
  predicate CutShort(script: Script, n: nat) {
    n < HANDLER_ATTEMPTS && script.stopsWaiting(n)
  }

  /** Behind every call that was held up there was a lock. */
  ghost predicate LocksSeen(rule: FetchRule, t0: seq<Action>, t1: seq<Action>, script: Script, steps: seq<seq<Move>>,
                            group: string, key: string) {
    forall n :: 0 <= n < |steps| && HeldUp(script.tries(n + 1), steps[n]) ==> LockSeen(rule, t0, t1, group, key)
  }

  /** The attempt that will deal with the event is still to come, and nothing
      stands in its way. */
  ghost predicate Pending(script: Script, calls: nat, s: Sys, u: Sys, group: string, key: string) {
    forall m: nat :: FirstDone(script, m) ==> m > calls && Free(u, group, key) && u.db.claims == s.db.claims
  }

  lemma NothingTried(script: Script, rule: FetchRule, t: seq<Action>, s: Sys, group: string, key: string)
    ensures Failing(script, 0, [], []) && LocksSeen(rule, t, t, script, [], group, key) && Flat([]) == []
    ensures Free(s, group, key) ==> Pending(script, 0, s, s, group, key)
  {
  }

  lemma OneMoreTried(script: Script, rule: FetchRule, t0: seq<Action>, t1: seq<Action>, t2: seq<Action>, calls: nat,
                     outcomes: seq<Outcome>, steps: seq<seq<Move>>, r: Outcome, own: seq<Move>, group: string, key: string)
    requires Failing(script, calls, outcomes, steps) && LocksSeen(rule, t0, t1, script, steps, group, key)
    requires calls < HANDLER_ATTEMPTS && t0 <= t1 <= t2 && CallMoves(script.tries(calls + 1), r, own)
    requires HeldUp(script.tries(calls + 1), own) ==> LockSeen(rule, t1, t2, group, key)
    ensures Flat(steps + [own]) == Flat(steps) + own && |outcomes| == calls
    ensures LocksSeen(rule, t0, t2, script, steps + [own], group, key)
    ensures r != Error ==> Tried(script, true, calls + 1, outcomes + [r], steps + [own])
    ensures r == Error && !CutShort(script, calls + 1) ==> Failing(script, calls + 1, outcomes + [r], steps + [own])
    ensures r == Error && CutShort(script, calls + 1) ==> Tried(script, false, calls + 1, outcomes + [r], steps + [own])
  {
    hide CallMoves, HeldUp;
    assert (steps + [own])[..|steps|] == steps;
    forall n | 0 <= n < |steps + [own]| && HeldUp(script.tries(n + 1), (steps + [own])[n]) ensures LockSeen(rule, t0, t2, group, key) {
      if n < |steps| {
        LockSeenWithin(rule, t0, t0, t1, t2, group, key);
      } else {
        LockSeenWithin(rule, t0, t1, t2, t2, group, key);
      }
    }
    hide LockSeen;
  }

  lemma {:induction false} FlatHas(steps: seq<seq<Move>>, m: Move)
    requires m in Flat(steps)
    ensures exists n :: 0 <= n < |steps| && m in steps[n]
    decreases |steps|
  {
    var n := |steps| - 1;
    if m in Flat(steps[..n]) {
      FlatHas(steps[..n], m);
      var k :| 0 <= k < n && m in steps[..n][k];
      assert m in steps[k];
    } else {
      assert m in steps[n];
    }
  }

  /** An acknowledged commit or a refusal is the end of the attempts. */
  lemma OwnTells(script: Script, ok: bool, calls: nat, outcomes: seq<Outcome>, steps: seq<seq<Move>>)
    requires Tried(script, ok, calls, outcomes, steps)
    ensures var own := [Probe] + Flat(steps) + Ending(ok, outcomes);
            Commit(true) in own || Refused in own ==> outcomes[calls - 1] != Error && !script.tries(calls).Ignores?
  {
    forall m | m in Flat(steps) && (m == Commit(true) || m == Refused)
      ensures outcomes[calls - 1] != Error && !script.tries(calls).Ignores?
    {
      FlatHas(steps, m);
      var n :| 0 <= n < |steps| && m in steps[n];
      assert CallMoves(script.tries(n + 1), outcomes[n], steps[n]);
      assert n == calls - 1;
    }
    hide Flat, CallMoves;
  }

  lemma CutShortStops(script: Script, n: nat)
    requires CutShort(script, n)
    ensures n < HANDLER_ATTEMPTS && script.stopsWaiting(n)
  {
  }

  lemma LastIsNotCutShort(script: Script)
    ensures !CutShort(script, HANDLER_ATTEMPTS)
  {
  }

  lemma TriedInVain(script: Script, outcomes: seq<Outcome>, steps: seq<seq<Move>>, s: Sys, u: Sys, group: string, key: string)
    requires Failing(script, HANDLER_ATTEMPTS, outcomes, steps)
    ensures Tried(script, script.hasStore && !script.parkFails, HANDLER_ATTEMPTS, outcomes, steps)
    ensures |outcomes| == HANDLER_ATTEMPTS && outcomes[HANDLER_ATTEMPTS - 1] == Error
    ensures Pending(script, HANDLER_ATTEMPTS, s, u, group, key) ==> forall m: nat :: !FirstDone(script, m)
  {
    hide CallMoves, Free;
  }

  lemma IgnoredMoves(t: Try)
    requires t.Ignores?
    ensures CallMoves(t, Nil, [Skip])
  {
  }

  lemma FailedMoves(t: Try)
    requires t.FailsBefore?
    ensures CallMoves(t, Error, [Fail])
  {
  }

  lemma StillFree(s: Sys, t: Sys, pid: nat, group: string, key: string)
    requires OthersStay(s, t, pid) && t.db.claims == s.db.claims && (pid in t.procs ==> !t.procs[pid].pc.InTx?)
    ensures Free(s, group, key) ==> Free(t, group, key)
  {
    hide OthersStay;
    if Free(s, group, key) {
      NoLockAfter(s, t, pid, group, key);
    }
  }

  lemma LoadedIsFree(s: Sys, t: Sys, pid: nat, group: string, key: string)
    requires t.db == s.db && pid !in s.procs && t.procs.Keys == s.procs.Keys + {pid} && !t.procs[pid].pc.InTx?
    requires forall q :: q in s.procs ==> t.procs[q] == s.procs[q]
    ensures Free(s, group, key) ==> Free(t, group, key)
  {
  }

  lemma ClaimedIsNotFree(s: Sys, group: string, key: string)
    requires (group, key) in s.db.claims
    ensures !Free(s, group, key)
  {
  }

  lemma LocksSeenLater(script: Script, rule: FetchRule, t0: seq<Action>, t1: seq<Action>, steps: seq<seq<Move>>,
                       group: string, key: string, a: Action)
    requires LocksSeen(rule, t0, t1, script, steps, group, key)
    ensures LocksSeen(rule, t0, t1 + [a], script, steps, group, key)
  {
    hide LockSeen, HeldUp;
    forall n | 0 <= n < |steps| && HeldUp(script.tries(n + 1), steps[n]) ensures LockSeen(rule, t0, t1 + [a], group, key) {
      LockSeenWithin(rule, t0, t0, t1, t1 + [a], group, key);
    }
  }

  lemma PendingStep(script: Script, calls: nat, s: Sys, t: Sys, u: Sys, pid: nat, group: string, key: string, r: Outcome)
    requires Pending(script, calls, s, t, group, key) && calls < HANDLER_ATTEMPTS
    requires var try := script.tries(calls + 1);
             Free(t, group, key) ==>
               && OthersStay(t, u, pid) && (pid in u.procs ==> !u.procs[pid].pc.InTx?)
               && (try.Works? ==> (group, key) in u.db.claims && (r == Nil <==> try.acked) && r != AlreadyClaimed)
               && (!try.Works? ==> u.db.claims == t.db.claims && r == if try.Ignores? then Nil else Error)
    requires r != Error && script.tries(calls + 1).Ignores? ==> (group, key) in u.db.skipped
    ensures r != Error ==> forall m: nat :: FirstDone(script, m) ==> m == calls + 1 && Dealt(script.tries(m), s, u, group, key)
    ensures r == Error && !CutShort(script, calls + 1) ==>
              Pending(script, calls + 1, s, u, group, key)
    ensures r == Error && CutShort(script, calls + 1) ==> forall m: nat :: !FirstDone(script, m)
  {
  }

  /** Where somebody has claimed an event, its work is done once. */
  lemma ClaimedOnce(s: Sys, group: string, e: Envelope)
    requires Inv(s) && (group, DedupeKey(e)) in s.db.claims
    ensures s.db.effects[(group, RefOf(e))] == 1
  {
    assert KeyOf(RefOf(e).0, RefOf(e).1) == DedupeKey(e);
  }

  /** Of the rows there were, the given one may have been marked, and no other. */
  predicate OneMarked(o: map<Ref, OutboxRow>, o': map<Ref, OutboxRow>, ref: Ref, marked: bool) {
    o'.Keys == o.Keys && forall r :: r in o ==> (o'[r].published <==> o[r].published || (r == ref && marked))
  }

  /** Of the rows there were, exactly those are newly published whose publish
      was acknowledged and whose mark was stored. */
  ghost predicate MarkedExactly(o: map<Ref, OutboxRow>, o': map<Ref, OutboxRow>, refs: seq<Ref>, n: nat,
                                sent: nat -> (bool, bool), stored: nat -> bool) {
    && n <= |refs| && o'.Keys == o.Keys
    && forall r :: r in o ==>
         (o'[r].published <==> o[r].published || exists k :: 0 <= k < n && refs[k] == r && sent(k).1 && stored(k))
  }

  /** One publish: what reached the topic is in it, a failure is counted. */
  ghost predicate SentOne(s: Sys, t: Sys, ref: Ref, sent: (bool, bool)) {
    && ref in s.source.outbox && ref in t.source.outbox
    && (sent.0 ==> Logged(t.source.log, s.source.outbox[ref].env))
    && (!sent.1 ==> t.source.outbox[ref].attempts > s.source.outbox[ref].attempts)
  }

  ghost predicate Sent(s: Sys, t: Sys, refs: seq<Ref>, n: nat, sent: nat -> (bool, bool)) {
    n <= |refs| && forall k :: 0 <= k < n ==> SentOne(s, t, refs[k], sent(k))
  }

  lemma PublishSends(rule: FetchRule, s: Sys, relay: nat, part: nat, sent: (bool, bool))
    requires SourceCan(s.source, Publish(relay, part, sent.0, sent.1))
    ensures SentOne(s, Apply(rule, s, Produce(Publish(relay, part, sent.0, sent.1))), s.source.relays[relay].todo[0], sent)
  {
    var t := Apply(rule, s, Produce(Publish(relay, part, sent.0, sent.1)));
    if sent.0 {
      var log := t.source.log[part];
      assert log[|log| - 1] == Event(s.source.outbox[s.source.relays[relay].todo[0]].env);
    }
  }

  lemma SentOneLater(s: Sys, t: Sys, u: Sys, ref: Ref, sent: (bool, bool))
    requires SentOne(s, t, ref, sent) && Later(t, u)
    ensures SentOne(s, u, ref, sent)
  {
    if sent.0 {
      LoggedStays(t.source.log, u.source.log, s.source.outbox[ref].env);
    }
    hide Logged, LogGrows;
  }

  lemma SentOneBefore(r: Sys, s: Sys, t: Sys, ref: Ref, sent: (bool, bool))
    requires Later(r, s) && ref in r.source.outbox && SentOne(s, t, ref, sent)
    ensures SentOne(r, t, ref, sent)
  {
    hide Logged, LogGrows;
  }

  lemma NothingSent(s: Sys, refs: seq<Ref>, sent: nat -> (bool, bool))
    ensures forall t :: Sent(s, t, refs, 0, sent)
  {
  }

  lemma SentLater(s: Sys, t: Sys, u: Sys, refs: seq<Ref>, n: nat, sent: nat -> (bool, bool))
    requires Sent(s, t, refs, n, sent) && Later(t, u)
    ensures Sent(s, u, refs, n, sent)
  {
    forall k | 0 <= k < n ensures SentOne(s, u, refs[k], sent(k)) {
      SentOneLater(s, t, u, refs[k], sent(k));
    }
  }

  lemma OneMoreSent(s: Sys, t: Sys, u: Sys, refs: seq<Ref>, k: nat, sent: nat -> (bool, bool))
    requires Sent(s, t, refs, k, sent) && Later(s, t) && Later(t, u) && k < |refs| && refs[k] in s.source.outbox
    requires SentOne(t, u, refs[k], sent(k))
    ensures Sent(s, u, refs, k + 1, sent)
  {
    SentLater(s, t, u, refs, k, sent);
    SentOneBefore(s, t, u, refs[k], sent(k));
  }

  lemma PublishMarksNothing(s: Source, relay: nat, part: nat, appended: bool, acked: bool)
    requires SourceCan(s, Publish(relay, part, appended, acked))
    ensures OneMarked(s.outbox, SourceNext(s, Publish(relay, part, appended, acked)).outbox, s.relays[relay].todo[0], false)
  {
  }

  lemma MarkMarksHead(s: Source, relay: nat, stored: bool)
    requires SourceCan(s, Mark(relay, stored))
    ensures OneMarked(s.outbox, SourceNext(s, Mark(relay, stored)).outbox, s.relays[relay].todo[0], stored)
  {
  }

  lemma OneMarkedThen(o: map<Ref, OutboxRow>, o': map<Ref, OutboxRow>, o'': map<Ref, OutboxRow>, ref: Ref, marked: bool)
    requires OneMarked(o, o', ref, false) && OneMarked(o', o'', ref, marked)
    ensures OneMarked(o, o'', ref, marked)
  {
  }

  /** Nobody else takes a step. */
  ghost predicate Alone(gaps: nat -> seq<Action>) {
    forall k :: gaps(k) == []
  }

  lemma Quiet(gaps: nat -> seq<Action>, k: nat)
    requires Alone(gaps)
    ensures gaps(2 * k) == [] && gaps(2 * k + 1) == []
  {
  }

  lemma NothingMarked(o: map<Ref, OutboxRow>, refs: seq<Ref>, sent: nat -> (bool, bool), stored: nat -> bool)
    ensures MarkedExactly(o, o, refs, 0, sent, stored)
  {
  }

  lemma OneMoreMarked(o: map<Ref, OutboxRow>, o': map<Ref, OutboxRow>, o'': map<Ref, OutboxRow>, refs: seq<Ref>, k: nat,
                      sent: nat -> (bool, bool), stored: nat -> bool)
    requires k < |refs| && MarkedExactly(o, o', refs, k, sent, stored) && OneMarked(o', o'', refs[k], sent(k).1 && stored(k))
    ensures MarkedExactly(o, o'', refs, k + 1, sent, stored)
  {
  }

  class Deployment {
    const rule: FetchRule
    var s: Sys
    /** How the state came about. */
    ghost var trace: seq<Action>

    ghost predicate Valid()
      reads this
    {
      Runs(rule, INIT, trace, s) && Inv(s)
    }

    constructor (rule: FetchRule)
      ensures Valid() && s == INIT && this.rule == rule
    {
      this.rule := rule;
      s := INIT;
      trace := [];
      new;
      InitInv();
    }

    /** One step of anybody. */
    method Step(a: Action)
      requires Valid() && Enabled(s, a)
      modifies this
      ensures Valid() && trace == old(trace) + [a] && s == Apply(rule, old(s), a) && Later(old(s), s)
      ensures forall q: nat :: Own(trace, q) == Own(old(trace), q) + if a.Do? && a.pid == q then [a.move] else []
    {
      forall q: nat ensures Own(trace + [a], q) == Own(trace, q) + if a.Do? && a.pid == q then [a.move] else [] {
        OwnSnoc(trace, a, q);
      }
      StepKeepsInv(rule, s, a);
      if a.Produce? {
        RowsStayApart(s.source, a.step);
      }
      Snoc(rule, INIT, trace, s, a);
      s := Apply(rule, s, a);
      trace := trace + [a];
    }

    /** The others take the given steps, each one that is possible when its turn
        comes; the given process and relay stand still. */
    method Interfere(steps: seq<Action>, pid: Option<nat>, relay: Option<nat>)
      requires Valid()
      modifies this
      ensures Valid() && old(trace) <= trace && Later(old(s), s) && SameFor(old(s), s, pid, relay)
      ensures steps == [] ==> s == old(s) && trace == old(trace)
      ensures pid.Some? ==> Own(trace, pid.value) == Own(old(trace), pid.value)
    {
      hide Runs, Inv, LogGrows, DbGrows, RowsStay, Own;
      ghost var before := s;
      LaterRefl(s);
      for i := 0 to |steps|
        invariant Valid() && old(trace) <= trace && Later(before, s) && SameFor(before, s, pid, relay)
        invariant i == 0 ==> s == before && trace == old(trace)
        invariant pid.Some? ==> Own(trace, pid.value) == Own(old(trace), pid.value)
      {
        if !Mine(steps[i], pid, relay) && Enabled(s, steps[i]) {
          ghost var middle := s;
          OthersStandStill(rule, s, steps[i], pid, relay);
          Step(steps[i]);
          LaterTrans(before, middle, s);
        }
      }
    }

    /** One step of process `pid`. */
    method Take(pid: nat, m: Move)
      requires Valid() && Enabled(s, Do(pid, m))
      modifies this
      ensures Valid() && trace == old(trace) + [Do(pid, m)] && Later(old(s), s)
      ensures s.source == old(s).source && s.db == MoveDb(old(s).source.log, old(s).db, old(s).procs[pid], m)
      ensures Stands(s, pid, MoveProc(rule, old(s).source.log, old(s).db, old(s).procs[pid], m))
      ensures Own(trace, pid) == Own(old(trace), pid) + [m] && OthersStay(old(s), s, pid)
    {
      hide Runs, Inv, Own;
      Step(Do(pid, m));
    }

    /** The handler's transaction: the claim, the work and the commit together,
        or none of them, whatever others do while it is open. */
    method Transact(pid: nat, p: Proc, n: nat, e: Envelope, t: Try, gap: seq<Action>) returns (r: Outcome, ghost own: seq<Move>)
      requires Valid() && Stands(s, pid, Some(Goto(p, Attempting(n)))) && InHand(s.source.log, p) == Some(e)
      requires t.Works? || t.FailsAfterClaim?
      modifies this
      ensures Valid() && old(trace) <= trace && Later(old(s), s) && InHand(s.source.log, p) == Some(e)
      ensures r == Nil ==> Stands(s, pid, Some(Goto(p, Concluded)))
      ensures r == AlreadyClaimed ==> Stands(s, pid, if p.Operator? then None else Some(Goto(p, Concluded)))
      ensures r == Error ==> Stands(s, pid, AfterFailure(Goto(p, Attempting(n))))
      ensures r != Error ==> (p.group, DedupeKey(e)) in s.db.claims
      ensures Own(trace, pid) == Own(old(trace), pid) + own && CallMoves(t, r, own)
      ensures HeldUp(t, own) ==> LockSeen(rule, old(trace), trace, p.group, DedupeKey(e))
      ensures gap == [] && Free(old(s), p.group, DedupeKey(e)) ==>
              && OthersStay(old(s), s, pid) && (pid in s.procs ==> !s.procs[pid].pc.InTx?)
              && (t.Works? ==> (p.group, DedupeKey(e)) in s.db.claims && (r == Nil <==> t.acked) && r != AlreadyClaimed)
              && (!t.Works? ==> r == Error && s.db.claims == old(s).db.claims)
    {
      hide Runs, Inv, DbGrows, LogGrows, RowsStay, DedupeKey, Own, LockSeen;
      if (p.group, DedupeKey(e)) in s.db.claims {
        Take(pid, Refused);
        return AlreadyClaimed, [Refused];
      }
      if Locked(s.procs, p.group, DedupeKey(e)) {
        // The insert waits for the other transaction until it times out.
        Waited(pid, p.group, DedupeKey(e));
        Take(pid, Fail);
        return Error, [Fail];
      }
      r, own := Work(pid, p, n, e, t, gap);
    }

    /** The transaction of a handler that has got its claim. */
    method Work(pid: nat, p: Proc, n: nat, e: Envelope, t: Try, gap: seq<Action>) returns (r: Outcome, ghost own: seq<Move>)
      requires Valid() && Stands(s, pid, Some(Goto(p, Attempting(n)))) && InHand(s.source.log, p) == Some(e)
      requires (t.Works? || t.FailsAfterClaim?) && Free(s, p.group, DedupeKey(e))
      modifies this
      ensures Valid() && old(trace) <= trace && Later(old(s), s) && InHand(s.source.log, p) == Some(e)
      ensures r == if t == Works(true) then Nil else Error
      ensures Stands(s, pid, if r == Nil then Some(Goto(p, Concluded)) else AfterFailure(Goto(p, Attempting(n))))
      ensures Own(trace, pid) == Own(old(trace), pid) + own && own == [Claim, if t.Works? then Commit(t.acked) else Fail]
      ensures t.Works? ==> (p.group, DedupeKey(e)) in s.db.claims
      ensures gap == [] ==>
              && OthersStay(old(s), s, pid) && (pid in s.procs ==> !s.procs[pid].pc.InTx?)
              && (!t.Works? ==> s.db.claims == old(s).db.claims)
    {
      hide Runs, Inv, DbGrows, LogGrows, RowsStay, DedupeKey, Own, OthersStay, Locked;
      ghost var before := s;
      Take(pid, Claim);
      ghost var claimed := s;
      Interfere(gap, Some(pid), None);
      HandStays(claimed, s, p);
      LaterTrans(before, claimed, s);
      ghost var middle := s;
      if t.Works? {
        Take(pid, Commit(t.acked));
      } else {
        Take(pid, Fail);
      }
      own := [Claim, if t.Works? then Commit(t.acked) else Fail];
      r := if t == Works(true) then Nil else Error;
      if gap == [] {
        OthersStayTrans(before, claimed, s, pid);
      }
      LaterTrans(before, middle, s);
    }

    /** The lock is there now, whatever comes after. */
    ghost method Waited(pid: nat, group: string, key: string)
      requires Valid() && Locked(s.procs, group, key)
      ensures forall later: seq<Action> :: trace <= later ==> LockSeen(rule, trace, later, group, key)
    {
      assert Runs(rule, INIT, trace, s);
    }

    /** One call of the handler by a process that is at its n-th attempt; others
        move before it and inside its transaction. */
    method CallHandler(pid: nat, p: Proc, n: nat, e: Envelope, t: Try, gap: seq<Action>, inside: seq<Action>)
      returns (r: Outcome, ghost own: seq<Move>)
      requires Valid() && Stands(s, pid, Some(Goto(p, Attempting(n)))) && InHand(s.source.log, p) == Some(e)
      modifies this
      ensures Valid() && old(trace) <= trace && Later(old(s), s) && InHand(s.source.log, p) == Some(e)
      ensures r == Nil ==> Stands(s, pid, Some(Goto(p, Concluded)))
      ensures r == AlreadyClaimed ==> Stands(s, pid, if p.Operator? then None else Some(Goto(p, Concluded)))
      ensures r == Error ==> Stands(s, pid, AfterFailure(Goto(p, Attempting(n)))) && !t.Ignores?
      ensures r != Error ==> Settled(s.db, p.group, e)
      ensures Own(trace, pid) == Own(old(trace), pid) + own && CallMoves(t, r, own)
      ensures t.Ignores? ==> (p.group, DedupeKey(e)) in s.db.skipped
      ensures r != Error && !t.Ignores? ==> (p.group, DedupeKey(e)) in s.db.claims
      ensures HeldUp(t, own) ==> LockSeen(rule, old(trace), trace, p.group, DedupeKey(e))
      ensures gap == [] && inside == [] && Free(old(s), p.group, DedupeKey(e)) ==>
              && OthersStay(old(s), s, pid) && (pid in s.procs ==> !s.procs[pid].pc.InTx?)
              && (t.Works? ==> (p.group, DedupeKey(e)) in s.db.claims && (r == Nil <==> t.acked) && r != AlreadyClaimed)
              && (!t.Works? ==> s.db.claims == old(s).db.claims && r == if t.Ignores? then Nil else Error)
    {
      hide Runs, Inv, DbGrows, LogGrows, RowsStay, DedupeKey, Own, LockSeen, CallMoves;
      ghost var before, start := s, trace;
      Interfere(gap, Some(pid), None);
      HandStays(before, s, p);
      ghost var middle, opening := s, trace;
      if t.Ignores? {
        Take(pid, Skip);
        r, own := Nil, [Skip];
        IgnoredMoves(t);
      } else if t.FailsBefore? {
        Take(pid, Fail);
        r, own := Error, [Fail];
        FailedMoves(t);
      } else {
        r, own := Transact(pid, p, n, e, t, inside);
        if HeldUp(t, own) {
          LockSeenWithin(rule, start, opening, trace, trace, p.group, DedupeKey(e));
        }
      }
      LaterTrans(before, middle, s);
    }

    /** `handleOne`, from the probe to the verdict. True means that the offset
        may be committed; false happens only for the reasons the code gives. */
    method HandleOne(pid: nat, script: Script) returns (ok: bool, calls: nat, ghost own: seq<Move>)
      requires Valid() && pid in s.procs && s.procs[pid].Consumer? && s.procs[pid].pc == Probing
      requires InHand(s.source.log, s.procs[pid]).Some?
      modifies this
      ensures Valid() && old(trace) <= trace && Later(old(s), s) && calls <= 5
      ensures var p := old(s).procs[pid];
              if ok then Stands(s, pid, Some(Goto(p, Concluded))) && Resolved(s.db, p.group, Event(InHand(old(s).source.log, p).value))
              else Stands(s, pid, Some(GivenUp(rule, p)))
      ensures !ok ==> || script.probeFails || !script.hasStore || script.parkFails
                      || exists n :: 1 <= n < 5 && script.stopsWaiting(n)
      // what the process itself did, and what that makes of the event
      ensures var p := old(s).procs[pid];
              var e := InHand(old(s).source.log, p).value;
              && Own(trace, pid) == Own(old(trace), pid) + own
              && HandledAs(script, (p.group, DedupeKey(e)) in old(s).db.claims, ok, calls, own)
              && (Commit(true) in own || Refused in own || (ok && calls == 0) ==>
                    (p.group, DedupeKey(e)) in s.db.claims && s.db.effects[(p.group, RefOf(e))] == 1)
      // left alone, an event that a handler can deal with is dealt with
      ensures var p := old(s).procs[pid];
              var key := DedupeKey(InHand(old(s).source.log, p).value);
              !script.probeFails && Alone(script.gaps) && Free(old(s), p.group, key) ==>
                forall m: nat :: FirstDone(script, m) ==> ok && calls == m && Dealt(script.tries(m), old(s), s, p.group, key)
    {
      hide Runs, Inv, DbGrows, LogGrows, RowsStay, DedupeKey, Own, Tried, FirstDone, Flat, Alone, LockSeen, LocksSeen, OthersStay,
        Free, MoveProc, MoveDb, CanMove;
      var p := s.procs[pid];
      var e := InHand(s.source.log, p).value;
      calls := 0;
      if script.probeFails {
        LetGo(pid, p, Probing);
        return false, calls, [GiveUp];
      }
      ghost var before := s;
      var claimed := ProbeClaim(pid, p, e);
      if claimed {
        ClaimedOnce(s, p.group, e);
        ClaimedIsNotFree(before, p.group, DedupeKey(e));
        return true, calls, [Probe];
      }
      ghost var outcomes, steps, probed := [], [], s;
      ok, calls, outcomes, steps := Attempts(pid, p, e, script);
      own := [Probe] + Flat(steps) + Ending(ok, outcomes);
      OwnTells(script, ok, calls, outcomes, steps);
      LaterTrans(before, probed, s);
      if (p.group, DedupeKey(e)) in s.db.claims {
        ClaimedOnce(s, p.group, e);
      }
    }

    /** The question whether the event has been dealt with already. */
    method ProbeClaim(pid: nat, p: Proc, e: Envelope) returns (claimed: bool)
      requires Valid() && p.Consumer? && p.pc == Probing && Stands(s, pid, Some(p)) && InHand(s.source.log, p) == Some(e)
      modifies this
      ensures Valid() && old(trace) <= trace && Later(old(s), s) && s.source == old(s).source && s.db == old(s).db
      ensures claimed == ((p.group, DedupeKey(e)) in s.db.claims)
      ensures Stands(s, pid, Some(Goto(p, if claimed then Concluded else Attempting(1))))
      ensures Own(trace, pid) == Own(old(trace), pid) + [Probe]
      ensures Free(old(s), p.group, DedupeKey(e)) ==> Free(s, p.group, DedupeKey(e))
    {
      hide Runs, Inv, DbGrows, LogGrows, RowsStay, DedupeKey, Own, OthersStay, Free;
      ghost var before := s;
      Take(pid, Probe);
      StillFree(before, s, pid, p.group, DedupeKey(e));
      claimed := s.procs[pid].pc == Concluded;
    }

    /** The retry loop of `handleOne` and what follows it. */
    method Attempts(pid: nat, p: Proc, e: Envelope, script: Script)
      returns (ok: bool, calls: nat, ghost outcomes: seq<Outcome>, ghost steps: seq<seq<Move>>)
      requires Valid() && p.Consumer? && Stands(s, pid, Some(Goto(p, Attempting(1)))) && InHand(s.source.log, p) == Some(e)
      modifies this
      ensures Valid() && old(trace) <= trace && Later(old(s), s) && 1 <= calls <= 5
      ensures if ok then Stands(s, pid, Some(Goto(p, Concluded))) && Resolved(s.db, p.group, Event(e))
              else Stands(s, pid, Some(GivenUp(rule, p)))
      ensures !ok ==> || !script.hasStore || script.parkFails
                      || exists n :: 1 <= n < 5 && script.stopsWaiting(n)
      ensures Own(trace, pid) == Own(old(trace), pid) + Flat(steps) + Ending(ok, outcomes)
      ensures Tried(script, ok, calls, outcomes, steps)
      ensures LocksSeen(rule, old(trace), trace, script, steps, p.group, DedupeKey(e))
      ensures outcomes[calls - 1] != Error && !script.tries(calls).Ignores? ==> (p.group, DedupeKey(e)) in s.db.claims
      ensures Alone(script.gaps) && Free(old(s), p.group, DedupeKey(e)) ==>
                forall m: nat :: FirstDone(script, m) ==> ok && calls == m && Dealt(script.tries(m), old(s), s, p.group, DedupeKey(e))
    {
      hide Runs, Inv, DbGrows, LogGrows, RowsStay, DedupeKey, Own, LockSeen, CallMoves, Flat, Tried, FirstDone, Free, Alone, Dealt,
        OthersStay, Pending, Failing, LocksSeen, Settled, CutShort;
      ghost var before, start := s, trace;
      ghost var key := DedupeKey(e);
      var last;
      calls, last, outcomes, steps := TryAll(pid, p, e, script);
      if last != Error {
        return true, calls, outcomes, steps;
      }
      ghost var tried := s;
      ok := calls == HANDLER_ATTEMPTS && script.hasStore && !script.parkFails;
      LocksSeenLater(script, rule, start, trace, steps, p.group, key, Do(pid, if ok then Park else GiveUp));
      if calls == HANDLER_ATTEMPTS {
        TriedInVain(script, outcomes, steps, before, s, p.group, key);
        ok := SetAside(pid, p, e, ok);
      } else {
        CutShortStops(script, calls);
        LetGo(pid, p, Attempting(calls + 1));
      }
      LaterTrans(before, tried, s);
    }

    /** The calls of the handler, up to one that does not fail, a wait cut short,
        or the last. */
    method TryAll(pid: nat, p: Proc, e: Envelope, script: Script)
      returns (calls: nat, last: Outcome, ghost outcomes: seq<Outcome>, ghost steps: seq<seq<Move>>)
      requires Valid() && p.Consumer? && Stands(s, pid, Some(Goto(p, Attempting(1)))) && InHand(s.source.log, p) == Some(e)
      modifies this
      ensures Valid() && old(trace) <= trace && Later(old(s), s) && InHand(s.source.log, p) == Some(e)
      ensures 1 <= calls <= HANDLER_ATTEMPTS && |outcomes| == calls && outcomes[calls - 1] == last
      ensures Stands(s, pid, if last != Error then Some(Goto(p, Concluded))
                             else Some(Goto(p, if calls < HANDLER_ATTEMPTS then Attempting(calls + 1) else Parking)))
      ensures Own(trace, pid) == Own(old(trace), pid) + Flat(steps)
      ensures LocksSeen(rule, old(trace), trace, script, steps, p.group, DedupeKey(e))
      ensures last != Error ==> Settled(s.db, p.group, e) && Tried(script, true, calls, outcomes, steps)
      ensures last != Error && !script.tries(calls).Ignores? ==> (p.group, DedupeKey(e)) in s.db.claims
      ensures last == Error && calls < HANDLER_ATTEMPTS ==> CutShort(script, calls) && Tried(script, false, calls, outcomes, steps)
      ensures last == Error && calls == HANDLER_ATTEMPTS ==> Failing(script, calls, outcomes, steps)
      ensures Alone(script.gaps) && Free(old(s), p.group, DedupeKey(e)) ==>
                if last != Error then
                  forall m: nat :: FirstDone(script, m) ==> m == calls && Dealt(script.tries(m), old(s), s, p.group, DedupeKey(e))
                else if calls < HANDLER_ATTEMPTS then forall m: nat :: !FirstDone(script, m)
                else Pending(script, calls, old(s), s, p.group, DedupeKey(e))
    {
      hide Runs, Inv, DbGrows, LogGrows, RowsStay, DedupeKey, Own, LockSeen, CallMoves, Flat, Tried, FirstDone, Free, Alone, Dealt,
        OthersStay, Pending, Failing, LocksSeen, Settled, CutShort;
      ghost var before, start := s, trace;
      ghost var key := DedupeKey(e);
      LaterRefl(s);
      calls, last, outcomes, steps := 0, Error, [], [];
      NothingTried(script, rule, trace, s, p.group, key);
      while calls < HANDLER_ATTEMPTS
        invariant 0 <= calls <= HANDLER_ATTEMPTS
        invariant Valid() && start <= trace && Later(before, s) && InHand(s.source.log, p) == Some(e)
        invariant Stands(s, pid, Some(Goto(p, if calls < HANDLER_ATTEMPTS then Attempting(calls + 1) else Parking)))
        invariant Failing(script, calls, outcomes, steps) && Own(trace, pid) == Own(start, pid) + Flat(steps)
        invariant |outcomes| == calls && (calls > 0 ==> outcomes[calls - 1] == Error) && last == Error
        invariant LocksSeen(rule, start, trace, script, steps, p.group, key)
        invariant Alone(script.gaps) && Free(before, p.group, key) ==> Pending(script, calls, before, s, p.group, key)
      {
        ghost var loopStart := s;
        last, outcomes, steps := TryOnce(pid, p, e, script, calls, before, start, outcomes, steps);
        LaterTrans(before, loopStart, s);
        calls := calls + 1;
        if last != Error || CutShort(script, calls) {
          LastIsNotCutShort(script);
          return;
        }
      }
    }

    /** The message is left uncommitted. */
    method LetGo(pid: nat, p: Proc, pc: Pc)
      requires Valid() && p.Consumer? && Stands(s, pid, Some(Goto(p, pc))) && (pc == Probing || pc == Parking || (pc.Attempting? && pc.n > 1))
      modifies this
      ensures Valid() && Later(old(s), s) && Stands(s, pid, Some(GivenUp(rule, p))) && s.db == old(s).db
      ensures trace == old(trace) + [Do(pid, GiveUp)] && Own(trace, pid) == Own(old(trace), pid) + [GiveUp]
    {
      hide Runs, Inv, DbGrows, LogGrows, RowsStay, DedupeKey, Own, OthersStay;
      Take(pid, GiveUp);
    }

    /** One attempt: a call of the handler and what it adds to the story. */
    method TryOnce(pid: nat, p: Proc, e: Envelope, script: Script, calls: nat, ghost before: Sys, ghost start: seq<Action>,
                   ghost outcomes: seq<Outcome>, ghost steps: seq<seq<Move>>)
      returns (outcome: Outcome, ghost outcomes': seq<Outcome>, ghost steps': seq<seq<Move>>)
      requires Valid() && p.Consumer? && calls < HANDLER_ATTEMPTS && start <= trace
      requires Stands(s, pid, Some(Goto(p, Attempting(calls + 1)))) && InHand(s.source.log, p) == Some(e)
      requires Failing(script, calls, outcomes, steps) && Own(trace, pid) == Own(start, pid) + Flat(steps)
      requires LocksSeen(rule, start, trace, script, steps, p.group, DedupeKey(e))
      requires Alone(script.gaps) && Free(before, p.group, DedupeKey(e)) ==> Pending(script, calls, before, s, p.group, DedupeKey(e))
      modifies this
      ensures Valid() && old(trace) <= trace && Later(old(s), s) && InHand(s.source.log, p) == Some(e)
      ensures Stands(s, pid, if outcome == Error then AfterFailure(Goto(p, Attempting(calls + 1))) else Some(Goto(p, Concluded)))
      ensures |outcomes'| == calls + 1 && outcomes' == outcomes + [outcome] && Own(trace, pid) == Own(start, pid) + Flat(steps')
      ensures LocksSeen(rule, start, trace, script, steps', p.group, DedupeKey(e))
      ensures outcome != Error ==> Settled(s.db, p.group, e) && Tried(script, true, calls + 1, outcomes', steps')
      ensures outcome != Error && !script.tries(calls + 1).Ignores? ==> (p.group, DedupeKey(e)) in s.db.claims
      ensures outcome == Error && CutShort(script, calls + 1) ==> Tried(script, false, calls + 1, outcomes', steps')
      ensures outcome == Error && !CutShort(script, calls + 1) ==> Failing(script, calls + 1, outcomes', steps')
      ensures Alone(script.gaps) && Free(before, p.group, DedupeKey(e)) ==>
                if outcome != Error then
                  forall m: nat :: FirstDone(script, m) ==> m == calls + 1 && Dealt(script.tries(m), before, s, p.group, DedupeKey(e))
                else if CutShort(script, calls + 1) then forall m: nat :: !FirstDone(script, m)
                else Pending(script, calls + 1, before, s, p.group, DedupeKey(e))
    {
      hide Runs, Inv, DbGrows, LogGrows, RowsStay, DedupeKey, Own, LockSeen, CallMoves, Flat, Tried, FirstDone, Free, Alone, Dealt,
        OthersStay, Pending, Failing, LocksSeen, CutShort;
      ghost var loopStart, tried := s, trace;
      ghost var key := DedupeKey(e);
      ghost var own;
      if Alone(script.gaps) {
        Quiet(script.gaps, calls);
      }
      outcome, own := CallHandler(pid, p, calls + 1, e, script.tries(calls + 1), script.gaps(2 * calls), script.gaps(2 * calls + 1));
      OneMoreTried(script, rule, start, tried, trace, calls, outcomes, steps, outcome, own, p.group, key);
      if Alone(script.gaps) && Free(before, p.group, key) {
        PendingStep(script, calls, before, loopStart, s, pid, p.group, key, outcome);
      }
      outcomes', steps' := outcomes + [outcome], steps + [own];
    }

    /** The end of the attempts: the event is parked, or kept uncommitted when
        there is nowhere to park it. */
    method SetAside(pid: nat, p: Proc, e: Envelope, canPark: bool) returns (ok: bool)
      requires Valid() && p.Consumer? && Stands(s, pid, Some(Goto(p, Parking))) && InHand(s.source.log, p) == Some(e)
      modifies this
      ensures Valid() && old(trace) <= trace && Later(old(s), s) && ok == canPark
      ensures if ok then Stands(s, pid, Some(Goto(p, Concluded))) && (p.group, DedupeKey(e)) in s.db.parked
              else Stands(s, pid, Some(GivenUp(rule, p)))
      // a row that is already there stays as it is
      ensures s.db == if !ok || (p.group, DedupeKey(e)) in old(s).db.parked then old(s).db
                      else old(s).db.(
                        parked := old(s).db.parked[
                          (p.group, DedupeKey(e)) :=
                            Parked(old(s).db.nextRow, e.tenantId, DedupeKey(e), p.group, e.eventType, e.aggregateId, e.payload)],
                        nextRow := old(s).db.nextRow + 1)
      ensures trace == old(trace) + [Do(pid, if ok then Park else GiveUp)]
      ensures Own(trace, pid) == Own(old(trace), pid) + [if ok then Park else GiveUp]
    {
      hide Runs, Inv, DbGrows, LogGrows, RowsStay, DedupeKey, Own;
      if canPark {
        HandIsAppendable(s, p);
        Take(pid, Park);
      } else {
        LetGo(pid, p, Parking);
      }
      ok := canPark;
    }

    /** `Run`, over a list of answers of the reader: each message is fetched and
        handled in turn. It returns the wait it is at, which counts the fetch
        failures since the last message. */
    method Run(pid: nat, answers: seq<Fetched>) returns (retry: nat, ghost fails: nat, ghost told: seq<seq<Move>>)
      requires Valid() && pid in s.procs && s.procs[pid].Consumer? && s.procs[pid].pc == Fetching
      modifies this
      ensures Valid() && old(trace) <= trace && Later(old(s), s)
      ensures pid in s.procs && s.procs[pid].Consumer? && s.procs[pid].pc == Fetching
      ensures old(s).procs[pid].cursor <= s.procs[pid].cursor
      ensures rule == Redeliver ==> s.procs[pid].gaveUp == old(s).procs[pid].gaveUp
      ensures fails <= |answers| && retry == Retries(fails)
      ensures forall i :: |answers| - fails <= i < |answers| ==> answers[i].FetchFails?
      ensures fails < |answers| ==> answers[|answers| - fails - 1].Message?
      ensures |told| == |answers| && Own(trace, pid) == Own(old(trace), pid) + Flat(told)
      ensures forall i :: 0 <= i < |answers| ==> Answered(rule, old(trace), trace, pid, answers[i], told[i])
    {
      hide Runs, Inv, DbGrows, LogGrows, RowsStay, DedupeKey, Own, OthersStay, HandledAs, Flat, Answered, DrySeen;
      ghost var before, start := s, trace;
      LaterRefl(s);
      retry, fails, told := 0, 0, [];
      NothingToldYet();
      for i := 0 to |answers|
        invariant Valid() && start <= trace && Later(before, s)
        invariant pid in s.procs && s.procs[pid].Consumer? && s.procs[pid].pc == Fetching
        invariant before.procs[pid].cursor <= s.procs[pid].cursor
        invariant rule == Redeliver ==> s.procs[pid].gaveUp == before.procs[pid].gaveUp
        invariant fails <= i && retry == Retries(fails)
        invariant forall k :: i - fails <= k < i ==> answers[k].FetchFails?
        invariant fails < i ==> answers[i - fails - 1].Message?
        invariant |told| == i && Own(trace, pid) == Own(start, pid) + Flat(told)
        invariant forall k :: 0 <= k < i ==> Answered(rule, start, trace, pid, answers[k], told[k])
      {
        ghost var tried, moves := trace, [];
        match answers[i] {
          case FetchFails =>
            retry, fails := NextRetry(retry), fails + 1;
            NothingFetched(rule, start, trace, pid, answers[i]);
          case Message(script, stored) =>
            retry, fails := 0, 0;
            ghost var middle := s;
            moves := TakeIn(pid, script, stored, start);
            LaterTrans(before, middle, s);
        }
        OneMoreTold(rule, start, tried, trace, pid, answers, told, moves);
        told := told + [moves];
      }
    }

    /** One message as `Run` meets it. */
    method TakeIn(pid: nat, script: Script, stored: bool, ghost start: seq<Action>) returns (ghost moves: seq<Move>)
      requires Valid() && pid in s.procs && s.procs[pid].Consumer? && s.procs[pid].pc == Fetching && start <= trace
      modifies this
      ensures Valid() && old(trace) <= trace && Later(old(s), s)
      ensures pid in s.procs && s.procs[pid].Consumer? && s.procs[pid].pc == Fetching
      ensures old(s).procs[pid].cursor <= s.procs[pid].cursor
      ensures rule == Redeliver ==> s.procs[pid].gaveUp == old(s).procs[pid].gaveUp
      ensures Own(trace, pid) == Own(old(trace), pid) + moves
      ensures Answered(rule, start, trace, pid, Message(script, stored), moves)
    {
      hide Runs, Inv, DbGrows, LogGrows, RowsStay, DedupeKey, Own, OthersStay, HandledAs, DrySeen;
      ghost var before, p := trace, s.procs[pid];
      ghost var dry := p.cursor >= |LogOf(s.source.log, p.part)|;
      if dry {
        SeenDry(rule, trace, s, pid);
      }
      ghost var ok, calls, own := Iteration(pid, script, stored);
      if dry {
        DrySeenWithin(rule, start, before, before, trace, pid);
        moves := [];
      } else {
        moves := [Fetch] + own + if ok then [CommitOffset(stored)] else [];
        assert MessageMoves(script, stored, moves, ok, calls, own);
      }
    }

    /** One message, from the fetch to the commit of its offset or to its being
        left alone. An empty partition makes the reader wait; a message at the
        cursor is fetched, and passed exactly when its handling says so. */
    method Iteration(pid: nat, script: Script, stored: bool) returns (ghost ok: bool, ghost calls: nat, ghost own: seq<Move>)
      requires Valid() && pid in s.procs && s.procs[pid].Consumer? && s.procs[pid].pc == Fetching
      modifies this
      ensures Valid() && old(trace) <= trace && Later(old(s), s)
      ensures var p := old(s).procs[pid];
              var log := LogOf(old(s).source.log, p.part);
              if p.cursor >= |log| then s == old(s) && trace == old(trace)
              else
                && Own(trace, pid) == Own(old(trace), pid) + ([Fetch] + own + if ok then [CommitOffset(stored)] else [])
                && (match log[p.cursor]
                    case Malformed => ok && own == []
                    case Event(e) => HandledAs(script, (p.group, DedupeKey(e)) in old(s).db.claims, ok, calls, own))
                && (if ok then
                      && Stands(s, pid, Some(Consumer(p.group, p.part, p.cursor + 1, p.gaveUp, Fetching)))
                      && Resolved(s.db, p.group, log[p.cursor]) && (stored ==> CommittedOf(s.db, p.group, p.part) == p.cursor + 1)
                    else Stands(s, pid, Some(GivenUp(rule, p))))
    {
      hide Runs, Inv, DbGrows, RowsStay, DedupeKey, Own, HandledAs, MoveProc, MoveDb, CanMove, OthersStay;
      var p := s.procs[pid];
      ghost var before := s;
      ok, calls, own := true, 0, [];
      if p.cursor >= |LogOf(s.source.log, p.part)| {
        LaterRefl(s);
        return;
      }
      FetchMessage(pid, p);
      ghost var fetched := s;
      if s.procs[pid].pc == Probing {
        var handled, tries;
        handled, tries, own := HandleOne(pid, script);
        ok, calls := handled, tries;
        LaterTrans(before, fetched, s);
        LogOfGrows(before.source.log, s.source.log, p.part);
        if !handled {
          return;
        }
      }
      ghost var passed := s;
      StoreOffset(pid, p, stored);
      LaterTrans(before, passed, s);
    }

    method FetchMessage(pid: nat, p: Proc)
      requires Valid() && p.Consumer? && p.pc == Fetching && Stands(s, pid, Some(p)) && p.cursor < |LogOf(s.source.log, p.part)|
      modifies this
      ensures Valid() && old(trace) <= trace && Later(old(s), s) && s.source == old(s).source && s.db == old(s).db
      ensures Own(trace, pid) == Own(old(trace), pid) + [Fetch]
      ensures Stands(s, pid, Some(Goto(p, if LogOf(s.source.log, p.part)[p.cursor].Malformed? then Concluded else Probing)))
    {
      hide Runs, Inv, DbGrows, LogGrows, RowsStay, Own, OthersStay;
      Take(pid, Fetch);
    }

    method StoreOffset(pid: nat, p: Proc, stored: bool)
      requires Valid() && p.Consumer? && Stands(s, pid, Some(Goto(p, Concluded)))
      modifies this
      ensures Valid() && old(trace) <= trace && Later(old(s), s) && s.source == old(s).source
      ensures s.db == if stored then old(s).db.(committed := old(s).db.committed[(p.group, p.part) := p.cursor + 1]) else old(s).db
      ensures Own(trace, pid) == Own(old(trace), pid) + [CommitOffset(stored)]
      ensures Stands(s, pid, Some(Consumer(p.group, p.part, p.cursor + 1, p.gaveUp, Fetching)))
    {
      hide Runs, Inv, DbGrows, LogGrows, RowsStay, Own, OthersStay;
      Take(pid, CommitOffset(stored));
    }

    /** `Replay`: the row is loaded, its event runs through the handler under
        the key of the first delivery, and only success takes the row away. */
    method Replay(pid: nat, group: string, key: string, t: Try, gap: seq<Action>, inside: seq<Action>, stored: bool)
      returns (ok: bool, ghost r: Outcome, ghost own: seq<Move>)
      requires Valid() && pid !in s.procs
      modifies this
      ensures Valid() && old(trace) <= trace && Later(old(s), s) && pid !in s.procs
      ensures ok ==> && (group, key) in old(s).db.parked
                     && ((group, key) in s.db.claims || (group, key) in s.db.skipped)
                     && !((group, key) in s.db.parked && s.db.parked[(group, key)].id == old(s).db.parked[(group, key)].id)
      ensures (group, key) !in old(s).db.parked ==> !ok && s == old(s) && trace == old(trace)
      // the handler is called once, the row is cleared only after its success
      ensures (group, key) in old(s).db.parked ==>
                && Own(trace, pid) == Own(old(trace), pid) + (own + if r == Nil then [Clear(stored)] else [])
                && CallMoves(t, r, own) && ok == (r == Nil && stored)
                && (r != Error && !t.Ignores? ==> (group, key) in s.db.claims)
                && (gap == [] && inside == [] && Free(old(s), group, key) && t == Works(true) ==> r == Nil)
    {
      hide Runs, Inv, DbGrows, LogGrows, RowsStay, DedupeKey, EnvelopeOf, Own, CallMoves, LockSeen, OthersStay, Free,
        MoveProc, MoveDb, CanMove, Settled;
      ghost var before := s;
      if (group, key) !in s.db.parked {
        LaterRefl(s);
        return false, Error, [];
      }
      var row := s.db.parked[(group, key)].id;
      var e := LoadRow(pid, group, key);
      var p := Operator(group, key, row, e, Attempting(1));
      assert p == Goto(p, Attempting(1));
      ghost var loaded := s;
      var outcome;
      outcome, own := CallHandler(pid, p, 1, e, t, gap, inside);
      r := outcome;
      LaterTrans(before, loaded, s);
      if outcome != Nil {
        return false, r, own;
      }
      ghost var handled := s;
      SettledAs(s.db, group, key, e);
      ClearRow(pid, Goto(p, Concluded), stored);
      LaterTrans(before, handled, s);
      ok := stored;
    }

    method LoadRow(pid: nat, group: string, key: string) returns (e: Envelope)
      requires Valid() && pid !in s.procs && (group, key) in s.db.parked
      modifies this
      ensures Valid() && old(trace) <= trace && Later(old(s), s) && s.source == old(s).source && s.db == old(s).db
      ensures DedupeKey(e) == key
      ensures Stands(s, pid, Some(Operator(group, key, old(s).db.parked[(group, key)].id, e, Attempting(1))))
      ensures Own(trace, pid) == Own(old(trace), pid)
      ensures Free(old(s), group, key) ==> Free(s, group, key)
    {
      hide Runs, Inv, DbGrows, LogGrows, RowsStay, DedupeKey, EnvelopeOf, Own, Free;
      ghost var before := s;
      RowIsReadable(s, group, key);
      e := EnvelopeOf(s.db.parked[(group, key)]).env;
      Step(Load(pid, group, key));
      LoadedIsFree(before, s, pid, group, key);
    }

    method ClearRow(pid: nat, p: Proc, stored: bool)
      requires Valid() && p.Operator? && p.pc == Concluded && Stands(s, pid, Some(p))
      modifies this
      ensures Valid() && old(trace) <= trace && Later(old(s), s) && pid !in s.procs && s.source == old(s).source
      ensures Own(trace, pid) == Own(old(trace), pid) + [Clear(stored)]
      ensures s.db.claims == old(s).db.claims && s.db.skipped == old(s).db.skipped
      ensures stored ==> !((p.group, p.key) in s.db.parked && s.db.parked[(p.group, p.key)].id == p.rowId)
    {
      hide Runs, Inv, DbGrows, LogGrows, RowsStay, Own, OthersStay;
      Take(pid, Clear(stored));
    }

    /** `publishBatch`: read a batch of unpublished rows, then publish and mark
        them one by one. A row whose publish was acknowledged and whose mark was
        stored ends up published; with nobody else at work, no other row does,
        and so every row that failed is there for the next batch. */
    method PublishBatch(relay: nat, refs: seq<Ref>, parts: nat -> nat, sent: nat -> (bool, bool), stored: nat -> bool, gaps: nat -> seq<Action>)
      requires Valid() && relay !in s.source.relays && |refs| <= BATCH_SIZE
      requires forall k :: 0 <= k < |refs| ==> refs[k] in s.source.outbox && !s.source.outbox[refs[k]].published
      requires forall k :: 0 <= k < |refs| && sent(k).1 ==> sent(k).0
      modifies this
      ensures Valid() && old(trace) <= trace && Later(old(s), s) && relay !in s.source.relays
      ensures forall k :: 0 <= k < |refs| && sent(k).1 && stored(k) ==> refs[k] in s.source.outbox && s.source.outbox[refs[k]].published
      ensures Alone(gaps) ==> MarkedExactly(old(s).source.outbox, s.source.outbox, refs, |refs|, sent, stored)
      // what reached the topic is in it, and every publish that failed is counted
      ensures Sent(old(s), s, refs, |refs|, sent)
    {
      hide Runs, Inv, DbGrows, LogGrows, RowsStay, MarkedExactly, OneMarked, Alone, Sent, SentOne;
      ghost var before := s;
      NothingMarked(s.source.outbox, refs, sent, stored);
      NothingSent(s, refs, sent);
      Step(Produce(SelectBatch(relay, refs)));
      for k := 0 to |refs|
        invariant Valid() && old(trace) <= trace && Later(before, s)
        invariant relay in s.source.relays && s.source.relays[relay] == Relay(refs[k..], false)
        invariant forall i :: 0 <= i < k && sent(i).1 && stored(i) ==> refs[i] in s.source.outbox && s.source.outbox[refs[i]].published
        invariant Sent(before, s, refs, k, sent)
        invariant Alone(gaps) ==> MarkedExactly(before.source.outbox, s.source.outbox, refs, k, sent, stored)
      {
        ghost var a := s;
        Interfere(gaps(2 * k), None, Some(relay));
        LaterTrans(before, a, s);
        RowsRemain(a, s, refs, k, sent, stored);
        ghost var b := s;
        SentLater(before, a, b, refs, k, sent);
        PublishOne(relay, parts(k), sent(k), stored(k), gaps(2 * k + 1));
        OneMoreSent(before, b, s, refs, k, sent);
        LaterTrans(before, b, s);
        RowsRemain(b, s, refs, k, sent, stored);
        if Alone(gaps) {
          Quiet(gaps, k);
          OneMoreMarked(before.source.outbox, b.source.outbox, s.source.outbox, refs, k, sent, stored);
        }
        assert refs[k..][1..] == refs[k + 1..];
      }
      ghost var done := s;
      Step(Produce(StopRelay(relay)));
      SentLater(before, done, s, refs, |refs|, sent);
      LaterTrans(before, done, s);
    }

    method PublishOne(relay: nat, part: nat, sent: (bool, bool), stored: bool, gap: seq<Action>)
      requires Valid() && relay in s.source.relays && s.source.relays[relay].todo != [] && !s.source.relays[relay].sent
      requires sent.1 ==> sent.0
      modifies this
      ensures Valid() && old(trace) <= trace && Later(old(s), s)
      ensures relay in s.source.relays && s.source.relays[relay] == Relay(old(s).source.relays[relay].todo[1..], false)
      ensures var ref := old(s).source.relays[relay].todo[0];
              sent.1 && stored ==> ref in s.source.outbox && s.source.outbox[ref].published
      ensures SentOne(old(s), s, old(s).source.relays[relay].todo[0], sent)
      ensures gap == [] ==> OneMarked(old(s).source.outbox, s.source.outbox, old(s).source.relays[relay].todo[0], sent.1 && stored)
    {
      hide Runs, DbGrows, LogGrows, RowsStay;
      ghost var before := s;
      HeadIsInOutbox(s, relay);
      hide Inv, OneMarked, SentOne;
      PublishSends(rule, s, relay, part, sent);
      PublishMarksNothing(s.source, relay, part, sent.0, sent.1);
      Step(Produce(Publish(relay, part, sent.0, sent.1)));
      if sent.1 {
        ghost var a := s;
        Interfere(gap, None, Some(relay));
        LaterTrans(before, a, s);
        SentOneLater(before, a, s, before.source.relays[relay].todo[0], sent);
        HeadIsInOutbox(s, relay);
        ghost var b := s;
        MarkMarksHead(s.source, relay, stored);
        Step(Produce(Mark(relay, stored)));
        if gap == [] {
          OneMarkedThen(before.source.outbox, b.source.outbox, s.source.outbox, before.source.relays[relay].todo[0], stored);
        }
        SentOneLater(before, b, s, before.source.relays[relay].todo[0], sent);
        LaterTrans(before, b, s);
      }
    }
  }

  lemma SettledAs(db: Db, group: string, key: string, e: Envelope)
    requires Settled(db, group, e) && DedupeKey(e) == key
    ensures (group, key) in db.claims || (group, key) in db.skipped
  {
  }

  lemma RowIsReadable(s: Sys, group: string, key: string)
    requires Inv(s) && (group, key) in s.db.parked
    ensures EnvelopeOf(s.db.parked[(group, key)]).Env? && DedupeKey(EnvelopeOf(s.db.parked[(group, key)]).env) == key
  {
    assert (group, key).1 == key;
  }

  lemma HeadIsInOutbox(s: Sys, relay: nat)
    requires Inv(s) && relay in s.source.relays && s.source.relays[relay].todo != []
    ensures Busy(s.source, relay)
  {
  }

  lemma RowsRemain(s: Sys, t: Sys, refs: seq<Ref>, k: nat, sent: nat -> (bool, bool), stored: nat -> bool)
    requires Later(s, t) && k <= |refs|
    requires forall i :: 0 <= i < k && sent(i).1 && stored(i) ==> refs[i] in s.source.outbox && s.source.outbox[refs[i]].published
    ensures forall i :: 0 <= i < k && sent(i).1 && stored(i) ==> refs[i] in t.source.outbox && t.source.outbox[refs[i]].published
  {
  }

  lemma HandIsAppendable(s: Sys, p: Proc)
    requires Inv(s) && p.Consumer? && InHand(s.source.log, p).Some?
    ensures Appendable(InHand(s.source.log, p).value)
  {
  }
}
