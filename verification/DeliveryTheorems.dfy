/** What the delivery protocol promises over whole runs: no event is applied
    twice, none vanishes under the redelivery rule, exactly when one does under
    the other rule, and what becomes of a dead letter whose event was applied. */
module DeliveryTheorems {
  import opened Text
  import opened EventKey
  import opened Delivery
  import opened DeliveryProof

  lemma InitInv()
    ensures Inv(INIT) && SessionsOk(INIT) && CommittedCovered(INIT)
  {
  }

  // -------------------------------------------------------- exactly one effect

  /** In every run, with any crashes, re-sends, rebalances and replays, a group
      applies an event once if it holds the claim and not at all otherwise. */
  lemma ExactlyOnce(rule: FetchRule, acts: seq<Action>, t: Sys, group: string, e: Envelope)
    requires Runs(rule, INIT, acts, t)
    ensures t.db.effects[(group, RefOf(e))] == if (group, DedupeKey(e)) in t.db.claims then 1 else 0
  {
    InitInv();
    RunKeepsInv(rule, INIT, acts, t);
    assert KeyOf(RefOf(e).0, RefOf(e).1) == DedupeKey(e);
  }

  // ------------------------------------------------------------ no event vanishes

  /** The five places where a group can still find, or has already dealt with,
      an event of the outbox. */
  ghost predicate Accounted(s: Sys, group: string, ref: Ref)
    requires ref in s.source.outbox
  {
    var e := s.source.outbox[ref].env;
    || !s.source.outbox[ref].published
    || (exists part, i :: part in s.source.log && CommittedOf(s.db, group, part) <= i < |s.source.log[part]|
                          && s.source.log[part][i] == Event(e))
    || (group, DedupeKey(e)) in s.db.claims
    || (group, DedupeKey(e)) in s.db.parked
    || (group, DedupeKey(e)) in s.db.skipped
  }

  lemma CoveredMeansAccounted(s: Sys, group: string, ref: Ref)
    requires Inv(s) && CommittedCovered(s) && ref in s.source.outbox
    ensures Accounted(s, group, ref)
  {
    var row := s.source.outbox[ref];
    if row.published {
      var part, i :| part in s.source.log && 0 <= i < |s.source.log[part]| && s.source.log[part][i] == Event(row.env);
      if i < CommittedOf(s.db, group, part) {
        assert Covered(s.source.log, s.db, group, part, s.db.committed[(group, part)], {});
        assert LogOf(s.source.log, part)[i] == Event(row.env);
        assert Resolved(s.db, group, Event(row.env));
      }
    }
  }

  /** The commit of an offset is careful when everything the session gave up on
      has been dealt with since. */
  predicate Careful(s: Sys, a: Action) {
    a.Do? && a.move == CommitOffset(true) && a.pid in s.procs && s.procs[a.pid].Consumer? ==>
      var p := s.procs[a.pid];
      forall k :: k in p.gaveUp && k < |LogOf(s.source.log, p.part)| ==>
        Resolved(s.db, p.group, LogOf(s.source.log, p.part)[k])
  }

  lemma CoveredStays(l: Log, l': Log, db: Db, db': Db, group: string, part: nat, upTo: nat, except: set<nat>)
    requires LogGrows(l, l') && DbGrows(db, db') && Covered(l, db, group, part, upTo, except)
    requires upTo <= |LogOf(l, part)|
    ensures Covered(l', db', group, part, upTo, except)
  {
    LogOfGrows(l, l', part);
    forall k | 0 <= k < upTo && k < |LogOf(l', part)| && k !in except
      ensures Resolved(db', group, LogOf(l', part)[k])
    {
      ResolvedStays(db, db', group, LogOf(l, part)[k]);
    }
  }

  lemma SessionStays(l: Log, l': Log, db: Db, db': Db, p: Proc)
    requires LogGrows(l, l') && DbGrows(db, db') && SessionOk(l, db, p) && ProcOk(l, db, p)
    ensures SessionOk(l', db', p)
  {
    if p.Consumer? {
      CoveredStays(l, l', db, db', p.group, p.part, p.cursor, p.gaveUp);
    }
  }

  lemma MovedSessionOk(rule: FetchRule, log: Log, db: Db, p: Proc, m: Move)
    requires SessionOk(log, db, p) && ProcOk(log, db, p) && CanMove(log, db, p, m) && DbGrows(db, MoveDb(log, db, p, m))
    requires MoveProc(rule, log, db, p, m).Some?
    ensures SessionOk(log, MoveDb(log, db, p, m), MoveProc(rule, log, db, p, m).value)
  {
    hide DedupeKey;
    var db' := MoveDb(log, db, p, m);
    var q := MoveProc(rule, log, db, p, m).value;
    SessionStays(log, log, db, db', p);
    if m.CommitOffset? {
      assert Resolved(db', p.group, LogOf(log, p.part)[p.cursor]);
    } else if m.GiveUp? {
    } else {
      assert p.Consumer? ==> q.cursor == p.cursor && q.gaveUp == p.gaveUp && q.part == p.part && q.group == p.group;
    }
  }

  lemma SessionsKept(rule: FetchRule, s: Sys, a: Action)
    requires Inv(s) && SessionsOk(s) && CommittedCovered(s) && Enabled(s, a)
    ensures SessionsOk(Apply(rule, s, a))
  {
    var t := Apply(rule, s, a);
    StepKeepsInv(rule, s, a);
    forall i | i in t.procs ensures SessionOk(t.source.log, t.db, t.procs[i]) {
      if i in s.procs && t.procs[i] == s.procs[i] {
        SessionStays(s.source.log, t.source.log, s.db, t.db, s.procs[i]);
      } else {
        match a
        case Do(pid, m) => MovedSessionOk(rule, s.source.log, s.db, s.procs[pid], m);
        case Join(pid, group, part) =>
          if (group, part) in s.db.committed {
            assert Covered(s.source.log, s.db, group, part, s.db.committed[(group, part)], {});
          }
        case _ =>
      }
    }
  }

  /** What a session has passed by is covered to the end exactly when what it
      gave up on has been dealt with since. */
  lemma SessionCoversExactly(log: Log, db: Db, p: Proc)
    requires p.Consumer? && p.pc == Concluded && ProcOk(log, db, p) && SessionOk(log, db, p)
    ensures Covered(log, db, p.group, p.part, p.cursor + 1, {}) <==>
            forall k :: k in p.gaveUp && k < |LogOf(log, p.part)| ==> Resolved(db, p.group, LogOf(log, p.part)[k])
  {
    assert Resolved(db, p.group, LogOf(log, p.part)[p.cursor]);
    if Covered(log, db, p.group, p.part, p.cursor + 1, {}) {
      forall k | k in p.gaveUp && k < |LogOf(log, p.part)| ensures Resolved(db, p.group, LogOf(log, p.part)[k]) {
        assert k < p.cursor && k !in {};
      }
    }
  }

  lemma CoveredIgnoresOffsets(log: Log, db: Db, db': Db, group: string, part: nat, upTo: nat)
    requires db' == db.(committed := db'.committed)
    ensures Covered(log, db', group, part, upTo, {}) <==> Covered(log, db, group, part, upTo, {})
  {
  }

  lemma CommitCoversExactly(s: Sys, t: Sys, pid: nat)
    requires Inv(s) && SessionsOk(s) && CommittedCovered(s) && pid in s.procs
    requires var p := s.procs[pid];
             && p.Consumer? && p.pc == Concluded && t.source.log == s.source.log
             && t.db == s.db.(committed := s.db.committed[(p.group, p.part) := p.cursor + 1])
    ensures CommittedCovered(t) <==> Careful(s, Do(pid, CommitOffset(true)))
  {
    var p := s.procs[pid];
    var log := s.source.log;
    SessionCoversExactly(log, s.db, p);
    forall at | at in t.db.committed
      ensures Covered(log, t.db, at.0, at.1, t.db.committed[at], {}) <==>
              Covered(log, s.db, at.0, at.1, t.db.committed[at], {})
    {
      CoveredIgnoresOffsets(log, s.db, t.db, at.0, at.1, t.db.committed[at]);
    }
    assert (p.group, p.part) in t.db.committed;
  }

  lemma CoveredKept(s: Sys, t: Sys)
    requires OffsetsOk(s.source.log, s.db) && CommittedCovered(s) && t.db.committed == s.db.committed
    requires LogGrows(s.source.log, t.source.log) && DbGrows(s.db, t.db)
    ensures CommittedCovered(t)
  {
    forall at | at in t.db.committed
      ensures Covered(t.source.log, t.db, at.0, at.1, t.db.committed[at], {})
    {
      CoveredStays(s.source.log, t.source.log, s.db, t.db, at.0, at.1, s.db.committed[at], {});
    }
  }

  lemma OffsetsMoveByCommit(rule: FetchRule, s: Sys, a: Action)
    requires Enabled(s, a) && !(a.Do? && a.move == CommitOffset(true))
    ensures Apply(rule, s, a).db.committed == s.db.committed
  {
  }

  /** One step keeps every committed offset covered exactly when it is careful. */
  lemma StepCoversExactly(rule: FetchRule, s: Sys, a: Action)
    requires Inv(s) && SessionsOk(s) && CommittedCovered(s) && Enabled(s, a)
    ensures CommittedCovered(Apply(rule, s, a)) <==> Careful(s, a)
  {
    var t := Apply(rule, s, a);
    if a.Do? && a.move == CommitOffset(true) {
      CommitCoversExactly(s, t, a.pid);
    } else {
      hide Apply, CommittedCovered;
      StepKeepsInv(rule, s, a);
      OffsetsMoveByCommit(rule, s, a);
      CoveredKept(s, t);
    }
  }

  ghost predicate CarefulRun(rule: FetchRule, s: Sys, acts: seq<Action>, t: Sys)
    requires Runs(rule, s, acts, t)
    decreases |acts|
  {
    acts != [] ==> Careful(s, acts[0]) && CarefulRun(rule, Apply(rule, s, acts[0]), acts[1..], t)
  }

  ghost predicate AlwaysCovered(rule: FetchRule, s: Sys, acts: seq<Action>, t: Sys)
    requires Runs(rule, s, acts, t)
    decreases |acts|
  {
    CommittedCovered(s) && (acts != [] ==> AlwaysCovered(rule, Apply(rule, s, acts[0]), acts[1..], t))
  }

  lemma {:induction false} RunCoversExactly(rule: FetchRule, s: Sys, acts: seq<Action>, t: Sys)
    requires Inv(s) && SessionsOk(s) && CommittedCovered(s) && Runs(rule, s, acts, t)
    ensures AlwaysCovered(rule, s, acts, t) <==> CarefulRun(rule, s, acts, t)
    decreases |acts|
  {
    if acts != [] {
      var u := Apply(rule, s, acts[0]);
      StepKeepsInv(rule, s, acts[0]);
      SessionsKept(rule, s, acts[0]);
      StepCoversExactly(rule, s, acts[0]);
      if CommittedCovered(u) {
        RunCoversExactly(rule, u, acts[1..], t);
      }
    }
  }

  /** Whatever the reader does, no group ever commits past a message it has not
      dealt with if and only if no offset is committed over an unresolved
      message the session gave up on. */
  lemma NothingPassedUnresolvedExactly(rule: FetchRule, acts: seq<Action>, t: Sys)
    requires Runs(rule, INIT, acts, t)
    ensures AlwaysCovered(rule, INIT, acts, t) <==> CarefulRun(rule, INIT, acts, t)
  {
    InitInv();
    RunCoversExactly(rule, INIT, acts, t);
  }

  lemma {:induction false} RedeliveryIsCareful(s: Sys, acts: seq<Action>, t: Sys)
    requires NobodyGaveUp(s.procs) && Runs(Redeliver, s, acts, t)
    ensures CarefulRun(Redeliver, s, acts, t)
    decreases |acts|
  {
    if acts != [] {
      var u := Apply(Redeliver, s, acts[0]);
      assert NobodyGaveUp(u.procs);
      RedeliveryIsCareful(u, acts[1..], t);
    }
  }

  lemma {:induction false} AlwaysCoveredEnds(rule: FetchRule, s: Sys, acts: seq<Action>, t: Sys)
    requires Runs(rule, s, acts, t) && AlwaysCovered(rule, s, acts, t)
    ensures CommittedCovered(t)
    decreases |acts|
  {
    if acts != [] {
      AlwaysCoveredEnds(rule, Apply(rule, s, acts[0]), acts[1..], t);
    }
  }

  /** Under the rule stated beside the consumer loop (an uncommitted message
      comes back), no event ever vanishes for any group. */
  lemma NoEventVanishes(acts: seq<Action>, t: Sys, group: string, ref: Ref)
    requires Runs(Redeliver, INIT, acts, t) && ref in t.source.outbox
    ensures Accounted(t, group, ref)
  {
    InitInv();
    RunKeepsInv(Redeliver, INIT, acts, t);
    RedeliveryIsCareful(INIT, acts, t);
    NothingPassedUnresolvedExactly(Redeliver, acts, t);
    AlwaysCoveredEnds(Redeliver, INIT, acts, t);
    CoveredMeansAccounted(t, group, ref);
  }

  // ---------------------------------------------------------------- stale rows

  predicate Stale(db: Db, at: (string, string)) {
    at in db.parked && at in db.claims
  }

  /** The process parks an event whose key is claimed, or claims one whose key
      is parked. */
  predicate StalingMove(log: Log, db: Db, p: Proc, m: Move, at: (string, string)) {
    var e := InHand(log, p);
    e.Some? && at == (p.group, DedupeKey(e.value)) && ((m == Park && at in db.claims) || (m.Commit? && at in db.parked))
  }

  /** A replay takes the row away that it loaded. */
  predicate RemovingMove(db: Db, p: Proc, m: Move, at: (string, string)) {
    m == Clear(true) && p.Operator? && at == (p.group, p.key) && at in db.parked && db.parked[at].id == p.rowId
  }

  predicate Staling(s: Sys, a: Action, at: (string, string)) {
    a.Do? && a.pid in s.procs && StalingMove(s.source.log, s.db, s.procs[a.pid], a.move, at)
  }

  predicate Removes(s: Sys, a: Action, at: (string, string)) {
    a.Do? && a.pid in s.procs && RemovingMove(s.db, s.procs[a.pid], a.move, at)
  }

  lemma StaleMove(log: Log, db: Db, p: Proc, m: Move, at: (string, string))
    requires ProcOk(log, db, p) && CanMove(log, db, p, m)
    ensures Stale(MoveDb(log, db, p, m), at) <==> (Stale(db, at) && !RemovingMove(db, p, m, at)) || StalingMove(log, db, p, m, at)
  {
    hide KeyOf;
  }

  lemma StaleStep(rule: FetchRule, s: Sys, a: Action, at: (string, string))
    requires Inv(s) && Enabled(s, a)
    ensures Stale(Apply(rule, s, a).db, at) <==> (Stale(s.db, at) && !Removes(s, a, at)) || Staling(s, a, at)
  {
    if a.Do? {
      var p := s.procs[a.pid];
      assert ProcOk(s.source.log, s.db, p);
      StaleMove(s.source.log, s.db, p, a.move, at);
      hide Stale, RemovingMove, StalingMove, MoveDb, MoveProc, CanMove, SourceOk;
      assert Apply(rule, s, a).db == MoveDb(s.source.log, s.db, p, a.move);
    }
  }

  ghost predicate NeverRemoved(rule: FetchRule, s: Sys, acts: seq<Action>, t: Sys, at: (string, string))
    requires Runs(rule, s, acts, t)
    decreases |acts|
  {
    acts != [] ==> !Removes(s, acts[0], at) && NeverRemoved(rule, Apply(rule, s, acts[0]), acts[1..], t, at)
  }

  /** At some step of the run a claimed event was parked or a parked one was
      claimed, and no replay has taken the row away since. */
  ghost predicate MadeStale(rule: FetchRule, s: Sys, acts: seq<Action>, t: Sys, at: (string, string))
    requires Runs(rule, s, acts, t)
    decreases |acts|
  {
    acts != [] &&
    var u := Apply(rule, s, acts[0]);
    MadeStale(rule, u, acts[1..], t, at) || (Staling(s, acts[0], at) && NeverRemoved(rule, u, acts[1..], t, at))
  }

  lemma {:induction false} RunStalesExactly(rule: FetchRule, s: Sys, acts: seq<Action>, t: Sys, at: (string, string))
    requires Inv(s) && Runs(rule, s, acts, t)
    ensures Stale(t.db, at) <==> MadeStale(rule, s, acts, t, at) || (Stale(s.db, at) && NeverRemoved(rule, s, acts, t, at))
    decreases |acts|
  {
    hide Staling, Removes, Stale, Inv;
    if acts != [] {
      StaleStep(rule, s, acts[0], at);
      StepKeepsInv(rule, s, acts[0]);
      RunStalesExactly(rule, Apply(rule, s, acts[0]), acts[1..], t, at);
    }
  }

  /** Over every run, a dead letter is one whose event was applied as well if and
      only if on the way a claimed event was parked or a parked one claimed, and
      the row was not taken away since. */
  lemma StaleRowsArise(rule: FetchRule, acts: seq<Action>, t: Sys, at: (string, string))
    requires Runs(rule, INIT, acts, t)
    ensures Stale(t.db, at) <==> MadeStale(rule, INIT, acts, t, at)
  {
    InitInv();
    RunStalesExactly(rule, INIT, acts, t, at);
  }

  /** A replay of the key that has its success in hand and the row still to clear. */
  predicate HasCredit(procs: map<nat, Proc>, pid: nat, at: (string, string)) {
    pid in procs && procs[pid].Operator? && procs[pid].pc == Concluded && (procs[pid].group, procs[pid].key) == at
  }

  /** The step gives a replay of the key its success: its own commit
      acknowledged, or the event ignored by the handler. */
  predicate Credits(s: Sys, a: Action, pid: nat, at: (string, string)) {
    && a.Do? && a.pid == pid && (a.move == Commit(true) || a.move == Skip)
    && pid in s.procs && s.procs[pid].Operator? && (s.procs[pid].group, s.procs[pid].key) == at
  }

  /** The process uses its success up: it clears, or fails to, or dies. */
  predicate Spends(a: Action, pid: nat) {
    a.Do? && a.pid == pid && (a.move.Clear? || a.move == Crash)
  }

  predicate Unspent(acts: seq<Action>, pid: nat) {
    forall k :: 0 <= k < |acts| ==> !Spends(acts[k], pid)
  }

  lemma CreditMove(rule: FetchRule, log: Log, db: Db, p: Proc, m: Move)
    requires ProcOk(log, db, p) && CanMove(log, db, p, m)
    ensures var q := MoveProc(rule, log, db, p, m);
            q.Some? && q.value.Operator? && q.value.pc == Concluded <==>
            && p.Operator?
            && ((p.pc == Concluded && !m.Clear? && m != Crash) || m == Commit(true) || m == Skip)
    ensures var q := MoveProc(rule, log, db, p, m);
            q.Some? && p.Operator? ==> q.value.Operator? && q.value.group == p.group && q.value.key == p.key
  {
  }

  lemma CreditStep(rule: FetchRule, s: Sys, a: Action, pid: nat, at: (string, string))
    requires Inv(s) && Enabled(s, a)
    ensures HasCredit(Apply(rule, s, a).procs, pid, at) <==>
            (HasCredit(s.procs, pid, at) && !Spends(a, pid)) || Credits(s, a, pid, at)
  {
    if a.Do? {
      var p := s.procs[a.pid];
      assert ProcOk(s.source.log, s.db, p);
      CreditMove(rule, s.source.log, s.db, p, a.move);
      hide MoveDb, MoveProc, SourceOk, CanMove, InHand;
    }
  }

  /** At some step of the run the replay got its success and still has it. */
  ghost predicate Credited(rule: FetchRule, s: Sys, acts: seq<Action>, t: Sys, pid: nat, at: (string, string))
    requires Runs(rule, s, acts, t)
    decreases |acts|
  {
    acts != [] &&
    (Credited(rule, Apply(rule, s, acts[0]), acts[1..], t, pid, at) || (Credits(s, acts[0], pid, at) && Unspent(acts[1..], pid)))
  }

  lemma {:induction false} RunCreditsExactly(rule: FetchRule, s: Sys, acts: seq<Action>, t: Sys, pid: nat, at: (string, string))
    requires Inv(s) && Runs(rule, s, acts, t)
    ensures HasCredit(t.procs, pid, at) <==> Credited(rule, s, acts, t, pid, at) || (HasCredit(s.procs, pid, at) && Unspent(acts, pid))
    decreases |acts|
  {
    hide Credits, HasCredit, Spends, Inv;
    if acts != [] {
      CreditStep(rule, s, acts[0], pid, at);
      StepKeepsInv(rule, s, acts[0]);
      RunCreditsExactly(rule, Apply(rule, s, acts[0]), acts[1..], t, pid, at);
      assert Unspent(acts, pid) <==> !Spends(acts[0], pid) && Unspent(acts[1..], pid) by {
        assert forall k :: 1 <= k < |acts| ==> acts[k] == acts[1..][k - 1];
      }
    }
  }

  /** A dead letter whose event is already applied, with no replay about to
      take the credit for it. */
  predicate Stuck(s: Sys, at: (string, string)) {
    Stale(s.db, at) && NoCredit(s.procs, at)
  }

  predicate NoCredit(procs: map<nat, Proc>, at: (string, string)) {
    forall i :: i in procs ==> !HasCredit(procs, i, at)
  }

  ghost predicate SomebodyCredited(rule: FetchRule, s: Sys, acts: seq<Action>, t: Sys, at: (string, string))
    requires Runs(rule, s, acts, t)
  {
    exists pid: nat :: Credited(rule, s, acts, t, pid, at)
  }

  lemma NoCreditExactly(rule: FetchRule, acts: seq<Action>, t: Sys, at: (string, string))
    requires Runs(rule, INIT, acts, t)
    ensures NoCredit(t.procs, at) <==> !SomebodyCredited(rule, INIT, acts, t, at)
  {
    InitInv();
    hide Runs, Inv;
    if SomebodyCredited(rule, INIT, acts, t, at) {
      var pid: nat :| Credited(rule, INIT, acts, t, pid, at);
      RunCreditsExactly(rule, INIT, acts, t, pid, at);
    }
    if !NoCredit(t.procs, at) {
      var i :| i in t.procs && HasCredit(t.procs, i, at);
      RunCreditsExactly(rule, INIT, acts, t, i, at);
    }
  }

  /** Over every run, a row ends up out of reach of every replay if and only if
      on the way a claimed event was parked or a parked one was claimed, the row
      was not taken away since, and no replay of it still holds a success: the
      claim was somebody else's, or the replay that made it lost its credit. */
  lemma StuckExactly(rule: FetchRule, acts: seq<Action>, t: Sys, at: (string, string))
    requires Runs(rule, INIT, acts, t)
    ensures Stuck(t, at) <==>
            MadeStale(rule, INIT, acts, t, at) && !SomebodyCredited(rule, INIT, acts, t, at)
  {
    StaleRowsArise(rule, acts, t, at);
    NoCreditExactly(rule, acts, t, at);
    hide Runs, Stale, NoCredit, SomebodyCredited;
  }

  lemma StuckRowMove(rule: FetchRule, log: Log, db: Db, p: Proc, m: Move, at: (string, string))
    requires ProcOk(log, db, p) && CanMove(log, db, p, m) && Stale(db, at)
    requires p.pc.InTx? ==> (p.group, p.pc.key) !in db.claims
    requires p.Operator? && p.pc == Concluded ==> (p.group, p.key) != at
    ensures var db', q := MoveDb(log, db, p, m), MoveProc(rule, log, db, p, m);
            || at in db'.skipped
            || (Stale(db', at) && (q.Some? && q.value.Operator? && q.value.pc == Concluded ==> (q.value.group, q.value.key) != at))
  {
  }

  lemma StuckStays(rule: FetchRule, s: Sys, a: Action, at: (string, string))
    requires Inv(s) && Enabled(s, a) && Stuck(s, at)
    ensures Stuck(Apply(rule, s, a), at) || at in Apply(rule, s, a).db.skipped
  {
    if a.Do? {
      var p := s.procs[a.pid];
      assert ProcOk(s.source.log, s.db, p);
      StuckRowMove(rule, s.source.log, s.db, p, a.move, at);
      var db' := MoveDb(s.source.log, s.db, p, a.move);
      StuckPlaced(s.procs, a.pid, MoveProc(rule, s.source.log, s.db, p, a.move), at);
    }
  }

  lemma StuckPlaced(procs: map<nat, Proc>, pid: nat, q: Option<Proc>, at: (string, string))
    requires NoCredit(procs, at)
    ensures (q.Some? && q.value.Operator? && q.value.pc == Concluded ==> (q.value.group, q.value.key) != at)
            ==> NoCredit(Placed(procs, pid, q), at)
  {
  }

  /** No number of replays clears a stuck row: the claim refuses each one, so
      the event is not applied twice and the row stays, unless the handler at
      some point ignores the event. */
  lemma {:induction false} StuckForever(rule: FetchRule, s: Sys, acts: seq<Action>, t: Sys, at: (string, string))
    requires Inv(s) && Runs(rule, s, acts, t) && Stuck(s, at) && at !in t.db.skipped
    ensures Stuck(t, at)
    decreases |acts|
  {
    if acts != [] {
      var u := Apply(rule, s, acts[0]);
      StepKeepsInv(rule, s, acts[0]);
      StuckStays(rule, s, acts[0], at);
      if at in u.db.skipped {
        SkipsStay(rule, u, acts[1..], t);
      }
      StuckForever(rule, u, acts[1..], t, at);
    }
  }

  lemma {:induction false} SkipsStay(rule: FetchRule, s: Sys, acts: seq<Action>, t: Sys)
    requires Inv(s) && Runs(rule, s, acts, t)
    ensures s.db.skipped <= t.db.skipped
    decreases |acts|
  {
    if acts != [] {
      StepKeepsInv(rule, s, acts[0]);
      SkipsStay(rule, Apply(rule, s, acts[0]), acts[1..], t);
    }
  }

  /** The way out: a replay of a parked row whose handler ignores the event takes
      exactly this row away, stuck or not. */
  lemma SkippedReplayClears(rule: FetchRule, s: Sys, pid: nat, at: (string, string)) returns (acts: seq<Action>, t: Sys)
    requires Inv(s) && at in s.db.parked && pid !in s.procs
    ensures acts == [Load(pid, at.0, at.1), Do(pid, Skip), Do(pid, Clear(true))] && Runs(rule, s, acts, t)
    ensures t == Sys(s.source, s.db.(parked := s.db.parked - {at}, skipped := s.db.skipped + {at}), s.procs)
  {
    hide EnvelopeOf, DedupeKey;
    acts := [Load(pid, at.0, at.1), Do(pid, Skip), Do(pid, Clear(true))];
    assert (at.0, at.1) == at;
    var row := s.db.parked[at];
    var s1 := Apply(rule, s, acts[0]);
    var s2 := Apply(rule, s1, acts[1]);
    t := Apply(rule, s2, acts[2]);
    assert DedupeKey(EnvelopeOf(row).env) == at.1;
    assert t.procs == s.procs;
    hide Inv;
    ThreeActions(rule, s, acts[0], acts[1], acts[2]);
  }

  lemma ThreeActions(rule: FetchRule, s: Sys, a: Action, b: Action, c: Action)
    requires Enabled(s, a) && Enabled(Apply(rule, s, a), b) && Enabled(Apply(rule, Apply(rule, s, a), b), c)
    ensures Runs(rule, s, [a, b, c], Apply(rule, Apply(rule, Apply(rule, s, a), b), c))
  {
    hide Enabled, Apply;
    var s1 := Apply(rule, s, a);
    var s2 := Apply(rule, s1, b);
    var t := Apply(rule, s2, c);
    assert [a, b, c][1..] == [b, c] && [b, c][1..] == [c] && [c][1..] == [];
    assert Runs(rule, t, [], t) && Runs(rule, s2, [c], t) && Runs(rule, s1, [b, c], t);
  }
}
