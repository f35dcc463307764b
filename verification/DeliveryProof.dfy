/** Every step keeps the delivery invariants. */
module DeliveryProof {
  import opened Text
  import opened EventKey
  import opened Delivery

  // ---------------------------------------------------- growth of the evidence

  predicate LogGrows(l: Log, l': Log) {
    forall p :: p in l ==> p in l' && l[p] <= l'[p]
  }

  /** Claims and skips stay, and a dead letter only leaves for a settled event. */
  predicate DbGrows(db: Db, db': Db) {
    && db.claims <= db'.claims && db.skipped <= db'.skipped
    && forall at :: at in db.parked && at !in db'.parked ==> at in db'.claims || at in db'.skipped
  }

  lemma LogOfGrows(l: Log, l': Log, part: nat)
    requires LogGrows(l, l')
    ensures LogOf(l, part) <= LogOf(l', part)
  {
  }

  lemma ResolvedStays(db: Db, db': Db, group: string, m: Message)
    requires DbGrows(db, db') && Resolved(db, group, m)
    ensures Resolved(db', group, m)
  {
  }

  lemma LoggedStays(l: Log, l': Log, e: Envelope)
    requires LogGrows(l, l') && Logged(l, e)
    ensures Logged(l', e)
  {
    var p, i :| p in l && 0 <= i < |l[p]| && l[p][i] == Event(e);
    assert l'[p][i] == Event(e);
  }

  // ------------------------------------------------------------------- source

  lemma SourceGrows(s: Source, a: SourceStep)
    requires SourceCan(s, a)
    ensures LogGrows(s.log, SourceNext(s, a).log)
  {
  }

  lemma LogKept(s: Source, a: SourceStep)
    requires SourceOk(s) && SourceCan(s, a)
    ensures LogOk(SourceNext(s, a).log)
  {
  }

  lemma OutboxKept(s: Source, a: SourceStep)
    requires SourceOk(s) && SourceCan(s, a)
    ensures OutboxOk(SourceNext(s, a))
  {
    var t := SourceNext(s, a);
    SourceGrows(s, a);
    forall r | r in t.outbox && t.outbox[r].published ensures Logged(t.log, t.outbox[r].env) {
      LoggedStays(s.log, t.log, s.outbox[r].env);
    }
  }

  lemma RelaysKept(s: Source, a: SourceStep)
    requires SourceOk(s) && SourceCan(s, a)
    ensures RelaysOk(SourceNext(s, a))
  {
    var t := SourceNext(s, a);
    SourceGrows(s, a);
    forall r | r in t.relays && t.relays[r].sent
      ensures t.relays[r].todo != [] && t.relays[r].todo[0] in t.outbox
      ensures Logged(t.log, t.outbox[t.relays[r].todo[0]].env)
    {
      if r in s.relays && s.relays[r].sent {
        LoggedStays(s.log, t.log, s.outbox[s.relays[r].todo[0]].env);
      } else {
        var log := LogOf(t.log, a.part);
        assert log[|log| - 1] == Event(s.outbox[s.relays[r].todo[0]].env);
      }
    }
  }

  // ------------------------------------------------------------- one process

  lemma MoveGrows(log: Log, db: Db, p: Proc, m: Move)
    requires ProcOk(log, db, p) && CanMove(log, db, p, m)
    ensures DbGrows(db, MoveDb(log, db, p, m))
  {
  }

  lemma RowsKept(log: Log, db: Db, p: Proc, m: Move)
    requires RowsOk(db) && LogOk(log) && CanMove(log, db, p, m)
    ensures RowsOk(MoveDb(log, db, p, m))
  {
    hide EnvelopeOf, KeyOf;
    if m.Park? {
      KeyRoundTrip(db.nextRow, p.group, InHand(log, p).value);
    }
  }

  lemma OffsetsKept(log: Log, db: Db, p: Proc, m: Move)
    requires OffsetsOk(log, db) && ProcOk(log, db, p) && CanMove(log, db, p, m)
    ensures OffsetsOk(log, MoveDb(log, db, p, m))
  {
  }

  /** The heart of the matter: a commit turns an unclaimed key into one claim
      and one effect, and nothing else writes either. */
  lemma EffectsKept(log: Log, db: Db, p: Proc, m: Move)
    requires EffectsMatchClaims(db) && ProcOk(log, db, p) && CanMove(log, db, p, m)
    requires p.pc.InTx? ==> (p.group, p.pc.key) !in db.claims
    ensures EffectsMatchClaims(MoveDb(log, db, p, m))
  {
    var t := MoveDb(log, db, p, m);
    if m.Commit? {
      var e := InHand(log, p).value;
      forall g: string, r: Ref
        ensures t.effects[(g, r)] == if (g, KeyOf(r.0, r.1)) in t.claims then 1 else 0
      {
        KeyInjective(e, e.(aggregateType := r.0, eventId := r.1));
        assert db.effects[(g, r)] == if (g, KeyOf(r.0, r.1)) in db.claims then 1 else 0;
      }
    }
  }

  lemma MovedProcOk(rule: FetchRule, log: Log, db: Db, p: Proc, m: Move)
    requires ProcOk(log, db, p) && CanMove(log, db, p, m) && MoveProc(rule, log, db, p, m).Some?
    ensures ProcOk(log, MoveDb(log, db, p, m), MoveProc(rule, log, db, p, m).value)
  {
  }

  /** A process that does not move stays well placed while the rest does. */
  lemma IdleProcOk(log: Log, log': Log, db: Db, db': Db, p: Proc)
    requires LogGrows(log, log') && DbGrows(db, db') && ProcOk(log, db, p)
    ensures ProcOk(log', db', p)
  {
    if p.Consumer? {
      LogOfGrows(log, log', p.part);
    }
  }

  // --------------------------------------------------------------- the system

  lemma ExclusiveKept(rule: FetchRule, s: Sys, pid: nat, m: Move)
    requires ClaimsExclusive(s.db, s.procs) && Enabled(s, Do(pid, m))
    ensures ClaimsExclusive(Apply(rule, s, Do(pid, m)).db, Apply(rule, s, Do(pid, m)).procs)
  {
    var t := Apply(rule, s, Do(pid, m));
    var p := s.procs[pid];
    assert t.db == MoveDb(s.source.log, s.db, p, m);
    assert t.db.claims == if m.Commit? then s.db.claims + {(p.group, p.pc.key)} else s.db.claims;
    assert forall i :: i in t.procs && i != pid ==> i in s.procs && t.procs[i] == s.procs[i];
    if m == Claim {
      assert !Locked(s.procs, p.group, DedupeKey(InHand(s.source.log, p).value));
    } else {
      assert pid in t.procs ==> !t.procs[pid].pc.InTx?;
    }
  }

  lemma DoKeepsInv(rule: FetchRule, s: Sys, pid: nat, m: Move)
    requires Inv(s) && Enabled(s, Do(pid, m))
    ensures Inv(Apply(rule, s, Do(pid, m))) && DbGrows(s.db, Apply(rule, s, Do(pid, m)).db)
  {
    var t := Apply(rule, s, Do(pid, m));
    var p := s.procs[pid];
    var log := s.source.log;
    MoveGrows(log, s.db, p, m);
    RowsKept(log, s.db, p, m);
    OffsetsKept(log, s.db, p, m);
    EffectsKept(log, s.db, p, m);
    ExclusiveKept(rule, s, pid, m);
    forall i | i in t.procs ensures ProcOk(log, t.db, t.procs[i]) {
      if i == pid {
        MovedProcOk(rule, log, s.db, p, m);
      } else {
        IdleProcOk(log, log, s.db, t.db, s.procs[i]);
      }
    }
  }

  lemma ProduceKeepsInv(rule: FetchRule, s: Sys, a: SourceStep)
    requires Inv(s) && SourceCan(s.source, a)
    ensures Inv(Apply(rule, s, Produce(a)))
  {
    var t := Apply(rule, s, Produce(a));
    SourceGrows(s.source, a);
    LogKept(s.source, a);
    OutboxKept(s.source, a);
    RelaysKept(s.source, a);
    forall i | i in t.procs ensures ProcOk(t.source.log, t.db, t.procs[i]) {
      IdleProcOk(s.source.log, t.source.log, s.db, s.db, s.procs[i]);
    }
    forall at | at in s.db.committed ensures s.db.committed[at] <= |LogOf(t.source.log, at.1)| {
      LogOfGrows(s.source.log, t.source.log, at.1);
    }
  }

  /** A newcomer that stands well and holds no claim changes nothing. */
  lemma NewcomerOk(s: Sys, pid: nat, p: Proc)
    requires Inv(s) && pid !in s.procs && !p.pc.InTx? && ProcOk(s.source.log, s.db, p)
    ensures Inv(Sys(s.source, s.db, s.procs[pid := p]))
  {
  }

  /** Under either fetch rule, every step keeps the invariant, and evidence is
      never taken back. */
  lemma StepKeepsInv(rule: FetchRule, s: Sys, a: Action)
    requires Inv(s) && Enabled(s, a)
    ensures Inv(Apply(rule, s, a))
    ensures LogGrows(s.source.log, Apply(rule, s, a).source.log) && DbGrows(s.db, Apply(rule, s, a).db)
  {
    match a
    case Produce(step) =>
      ProduceKeepsInv(rule, s, step);
      SourceGrows(s.source, step);
    case Do(pid, m) =>
      DoKeepsInv(rule, s, pid, m);
    case Join(pid, group, part) =>
      NewcomerOk(s, pid, Consumer(group, part, CommittedOf(s.db, group, part), {}, Fetching));
    case Load(pid, group, key) =>
      var row := s.db.parked[(group, key)];
      NewcomerOk(s, pid, Operator(group, key, row.id, EnvelopeOf(row).env, Attempting(1)));
  }

  lemma {:induction false} RunKeepsInv(rule: FetchRule, s: Sys, acts: seq<Action>, t: Sys)
    requires Inv(s) && Runs(rule, s, acts, t)
    ensures Inv(t)
    decreases |acts|
  {
    if acts != [] {
      StepKeepsInv(rule, s, acts[0]);
      RunKeepsInv(rule, Apply(rule, s, acts[0]), acts[1..], t);
    }
  }
}
