/** Runs that show where two statements of the source stop being true. */
module DeliveryWitness {
  import opened Text
  import opened EventKey
  import opened Delivery
  import opened DeliveryProof
  import opened DeliveryTheorems

  lemma {:induction false} Snoc(rule: FetchRule, s: Sys, acts: seq<Action>, t: Sys, a: Action)
    requires Runs(rule, s, acts, t) && Enabled(t, a)
    ensures Runs(rule, s, acts + [a], Apply(rule, t, a))
    decreases |acts|
  {
    if acts == [] {
      assert Runs(rule, Apply(rule, s, a), [], Apply(rule, s, a));
      assert [a][1..] == [];
    } else {
      Snoc(rule, Apply(rule, s, acts[0]), acts[1..], t, a);
      assert (acts + [a])[1..] == acts[1..] + [a];
    }
  }

  /** Both events in partition 0, in order, and marked as published. */
  function TwoPublished(e1: Envelope, e2: Envelope): Source {
    Source(map[RefOf(e1) := OutboxRow(e1, true, 0), RefOf(e2) := OutboxRow(e2, true, 0)],
           map[0 := Relay([], false)], map[0 := [Event(e1), Event(e2)]])
  }

  /** Both events in the outbox and in the batch of a relay. */
  function TwoBatched(e1: Envelope, e2: Envelope): Source {
    Source(map[RefOf(e1) := OutboxRow(e1, false, 0), RefOf(e2) := OutboxRow(e2, false, 0)],
           map[0 := Relay([RefOf(e1), RefOf(e2)], false)], map[])
  }

  lemma BatchTwo(rule: FetchRule, e1: Envelope, e2: Envelope) returns (acts: seq<Action>)
    requires Appendable(e1) && Appendable(e2) && RefOf(e1) != RefOf(e2)
    ensures Runs(rule, INIT, acts, Sys(TwoBatched(e1, e2), INIT.db, map[]))
  {
    var s := INIT;
    acts := [];
    assert Runs(rule, INIT, acts, s);
    hide Runs;
    s := Then(rule, acts, s, Append(e1));
    acts := acts + [Produce(Append(e1))];
    s := Then(rule, acts, s, Append(e2));
    acts := acts + [Produce(Append(e2))];
    s := Then(rule, acts, s, SelectBatch(0, [RefOf(e1), RefOf(e2)]));
    acts := acts + [Produce(SelectBatch(0, [RefOf(e1), RefOf(e2)]))];
    assert s.source.outbox == TwoBatched(e1, e2).outbox && s.source.relays == TwoBatched(e1, e2).relays;
  }

  lemma PublishTwo(rule: FetchRule, e1: Envelope, e2: Envelope) returns (acts: seq<Action>)
    requires Appendable(e1) && Appendable(e2) && RefOf(e1) != RefOf(e2)
    ensures Runs(rule, INIT, acts, Sys(TwoPublished(e1, e2), INIT.db, map[]))
  {
    hide Runs, Appendable;
    acts := BatchTwo(rule, e1, e2);
    var s := Sys(TwoBatched(e1, e2), INIT.db, map[]);
    s := Then(rule, acts, s, Publish(0, 0, true, true));
    acts := acts + [Produce(Publish(0, 0, true, true))];
    s := Then(rule, acts, s, Mark(0, true));
    acts := acts + [Produce(Mark(0, true))];
    assert s.source.relays[0].todo == [RefOf(e2)];
    s := Then(rule, acts, s, Publish(0, 0, true, true));
    acts := acts + [Produce(Publish(0, 0, true, true))];
    s := Then(rule, acts, s, Mark(0, true));
    acts := acts + [Produce(Mark(0, true))];
    assert s.source.log[0] == [Event(e1), Event(e2)];
    assert s.source.relays[0].todo == [];
    assert s.source.outbox == TwoPublished(e1, e2).outbox;
    assert s.source.relays == TwoPublished(e1, e2).relays;
    assert s.source.log == TwoPublished(e1, e2).log;
  }

  lemma Then(rule: FetchRule, acts: seq<Action>, s: Sys, step: SourceStep) returns (t: Sys)
    requires Runs(rule, INIT, acts, s) && SourceCan(s.source, step)
    ensures t == Sys(SourceNext(s.source, step), s.db, s.procs)
    ensures Runs(rule, INIT, acts + [Produce(step)], t)
  {
    t := Apply(rule, s, Produce(step));
    Snoc(rule, INIT, acts, s, Produce(step));
  }

  lemma MoveAlone(rule: FetchRule, src: Source, db: Db, p: Proc, m: Move)
    requires CanMove(src.log, db, p, m) && MoveProc(rule, src.log, db, p, m).Some? && (m == Claim ==> !p.pc.InTx?)
    ensures Enabled(Sys(src, db, map[1 := p]), Do(1, m))
    ensures Apply(rule, Sys(src, db, map[1 := p]), Do(1, m)) ==
            Sys(src, MoveDb(src.log, db, p, m), map[1 := MoveProc(rule, src.log, db, p, m).value])
  {
    assert map[1 := p][1 := MoveProc(rule, src.log, db, p, m).value] == map[1 := MoveProc(rule, src.log, db, p, m).value];
  }

  /** One move of consumer 1, the only process. */
  lemma Moves(rule: FetchRule, s: Sys, acts: seq<Action>, src: Source, db: Db, p: Proc, m: Move) returns (q: Proc, db': Db)
    requires Runs(rule, s, acts, Sys(src, db, map[1 := p]))
    requires CanMove(src.log, db, p, m) && MoveProc(rule, src.log, db, p, m).Some? && (m == Claim ==> !p.pc.InTx?)
    ensures q == MoveProc(rule, src.log, db, p, m).value && db' == MoveDb(src.log, db, p, m)
    ensures Runs(rule, s, acts + [Do(1, m)], Sys(src, db', map[1 := q]))
  {
    q, db' := MoveProc(rule, src.log, db, p, m).value, MoveDb(src.log, db, p, m);
    MoveAlone(rule, src, db, p, m);
    Snoc(rule, s, acts, Sys(src, db, map[1 := p]), Do(1, m));
  }

  /** A consumer whose handler keeps failing ends up before the dead letters
      with nothing written. */
  lemma {:induction false} Failures(rule: FetchRule, s: Sys, acts: seq<Action>, src: Source, db: Db, p: Proc, n: nat)
    returns (acts': seq<Action>)
    requires p.Consumer? && InHand(src.log, p).Some? && 1 <= n <= HANDLER_ATTEMPTS
    requires Runs(rule, s, acts, Sys(src, db, map[1 := Goto(p, Attempting(n))]))
    ensures Runs(rule, s, acts', Sys(src, db, map[1 := Goto(p, Parking)]))
    decreases HANDLER_ATTEMPTS - n
  {
    hide Runs;
    acts' := OneFailure(rule, s, acts, src, db, p, n);
    if n < HANDLER_ATTEMPTS {
      acts' := Failures(rule, s, acts', src, db, p, n + 1);
    }
  }

  lemma OneFailure(rule: FetchRule, s: Sys, acts: seq<Action>, src: Source, db: Db, p: Proc, n: nat) returns (acts': seq<Action>)
    requires p.Consumer? && InHand(src.log, p).Some?
    requires Runs(rule, s, acts, Sys(src, db, map[1 := Goto(p, Attempting(n))]))
    ensures Runs(rule, s, acts', Sys(src, db, map[1 := Goto(p, if n < HANDLER_ATTEMPTS then Attempting(n + 1) else Parking)]))
  {
    hide Runs;
    var q, db' := Moves(rule, s, acts, src, db, Goto(p, Attempting(n)), Fail);
    acts' := acts + [Do(1, Fail)];
  }

  /** If the reader moves on after a failure instead of handing the message out
      again, any event can vanish: it is published, below the committed offset,
      and neither claimed, parked nor skipped. */
  lemma AdvancingLosesAnEvent(group: string, e1: Envelope, e2: Envelope) returns (acts: seq<Action>, t: Sys)
    requires Appendable(e1) && Appendable(e2) && RefOf(e1) != RefOf(e2)
    ensures Runs(Advance, INIT, acts, t) && RefOf(e1) in t.source.outbox && !Accounted(t, group, RefOf(e1))
  {
    hide Runs;
    var src := TwoPublished(e1, e2);
    acts := PublishTwo(Advance, e1, e2);
    var db := INIT.db;
    var p := Consumer(group, 0, 0, {}, Fetching);
    Snoc(Advance, INIT, acts, Sys(src, db, map[]), Join(1, group, 0));
    acts := acts + [Join(1, group, 0)];
    p, db := Moves(Advance, INIT, acts, src, db, p, Fetch);
    acts := acts + [Do(1, Fetch)];
    p, db := Moves(Advance, INIT, acts, src, db, p, Probe);
    acts := acts + [Do(1, Probe)];
    assert p == Goto(p, Attempting(1));
    acts := Failures(Advance, INIT, acts, src, db, p, 1);
    p := Goto(p, Parking);
    p, db := Moves(Advance, INIT, acts, src, db, p, GiveUp);
    acts := acts + [Do(1, GiveUp)];
    p, db := Moves(Advance, INIT, acts, src, db, p, Fetch);
    acts := acts + [Do(1, Fetch)];
    p, db := Moves(Advance, INIT, acts, src, db, p, Probe);
    acts := acts + [Do(1, Probe)];
    p, db := Moves(Advance, INIT, acts, src, db, p, Skip);
    acts := acts + [Do(1, Skip)];
    p, db := Moves(Advance, INIT, acts, src, db, p, CommitOffset(true));
    acts := acts + [Do(1, CommitOffset(true))];
    t := Sys(src, db, map[1 := p]);
    KeyInjective(e1, e2);
    assert CommittedOf(db, group, 0) == 2;
  }

  function OnePublished(e: Envelope): Source {
    Source(map[RefOf(e) := OutboxRow(e, true, 0)], map[0 := Relay([], false)], map[0 := [Event(e)]])
  }

  lemma PublishOne(rule: FetchRule, e: Envelope) returns (acts: seq<Action>)
    requires Appendable(e)
    ensures Runs(rule, INIT, acts, Sys(OnePublished(e), INIT.db, map[]))
  {
    var r := RefOf(e);
    var s := INIT;
    acts := [];
    assert Runs(rule, INIT, acts, s);
    hide Runs;
    s := Then(rule, acts, s, Append(e));
    acts := acts + [Produce(Append(e))];
    s := Then(rule, acts, s, SelectBatch(0, [r]));
    acts := acts + [Produce(SelectBatch(0, [r]))];
    s := Then(rule, acts, s, Publish(0, 0, true, true));
    acts := acts + [Produce(Publish(0, 0, true, true))];
    s := Then(rule, acts, s, Mark(0, true));
    acts := acts + [Produce(Mark(0, true))];
    assert s.source.log[0] == [Event(e)] && s.source.relays[0].todo == [];
    assert s.source.outbox == OnePublished(e).outbox;
    assert s.source.relays == OnePublished(e).relays && s.source.log == OnePublished(e).log;
  }

  /** A consumer of a fresh system whose handler has failed four times. */
  lemma FourFailures(rule: FetchRule, group: string, e: Envelope) returns (acts: seq<Action>)
    requires Appendable(e)
    ensures Runs(rule, INIT, acts, Sys(OnePublished(e), INIT.db, map[1 := Consumer(group, 0, 0, {}, Attempting(HANDLER_ATTEMPTS))]))
  {
    hide Runs;
    var src, db := OnePublished(e), INIT.db;
    acts := PublishOne(rule, e);
    var p := Consumer(group, 0, 0, {}, Fetching);
    Snoc(rule, INIT, acts, Sys(src, db, map[]), Join(1, group, 0));
    acts := acts + [Join(1, group, 0)];
    p, db := Moves(rule, INIT, acts, src, db, p, Fetch);
    acts := acts + [Do(1, Fetch)];
    p, db := Moves(rule, INIT, acts, src, db, p, Probe);
    acts := acts + [Do(1, Probe)];
    assert p == Goto(p, Attempting(1));
    for n := 1 to HANDLER_ATTEMPTS
      invariant Runs(rule, INIT, acts, Sys(src, db, map[1 := Goto(p, Attempting(n))]))
    {
      acts := OneFailure(rule, INIT, acts, src, db, p, n);
    }
  }

  /** The transaction of the fifth attempt commits and its acknowledgement is lost. */
  lemma FifthCommits(rule: FetchRule, group: string, e: Envelope) returns (acts: seq<Action>, db: Db)
    requires Appendable(e)
    ensures Runs(rule, INIT, acts, Sys(OnePublished(e), db, map[1 := Consumer(group, 0, 0, {}, Parking)]))
    ensures (group, DedupeKey(e)) in db.claims && db.parked == INIT.db.parked && db.skipped == {}
  {
    hide Runs;
    var src := OnePublished(e);
    var p := Consumer(group, 0, 0, {}, Attempting(HANDLER_ATTEMPTS));
    acts := FourFailures(rule, group, e);
    p, db := Moves(rule, INIT, acts, src, INIT.db, p, Claim);
    acts := acts + [Do(1, Claim)];
    p, db := Moves(rule, INIT, acts, src, db, p, Commit(false));
    acts := acts + [Do(1, Commit(false))];
    assert p == Goto(p, Parking);
  }

  /** And then the event is parked. */
  lemma ParkedNext(rule: FetchRule, group: string, e: Envelope) returns (acts: seq<Action>, t: Sys)
    requires Appendable(e)
    ensures Runs(rule, INIT, acts, t)
    ensures Stuck(t, (group, DedupeKey(e))) && (group, DedupeKey(e)) in t.db.claims && t.db.skipped == {}
  {
    hide Runs;
    var src, p, db := OnePublished(e), Consumer(group, 0, 0, {}, Parking), INIT.db;
    acts, db := FifthCommits(rule, group, e);
    p, db := Moves(rule, INIT, acts, src, db, p, Park);
    acts := acts + [Do(1, Park)];
    t := Sys(src, db, map[1 := p]);
  }

  /** A dead letter may already have been applied, for any event and any group:
      four attempts fail, the fifth transaction commits but its acknowledgement
      is lost, and so the event is parked. The row is out of reach of every
      replay. */
  lemma ParkedAfterItsCommit(rule: FetchRule, group: string, e: Envelope) returns (acts: seq<Action>, t: Sys)
    requires Appendable(e)
    ensures Runs(rule, INIT, acts, t) && Inv(t)
    ensures Stuck(t, (group, DedupeKey(e))) && t.db.effects[(group, RefOf(e))] == 1 && t.db.skipped == {}
  {
    hide Runs;
    hide Inv, Stuck, DedupeKey;
    acts, t := ParkedNext(rule, group, e);
    InitInv();
    RunKeepsInv(rule, INIT, acts, t);
    ExactlyOnce(rule, acts, t, group, e);
  }
}
