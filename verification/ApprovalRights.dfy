/** What never passes unread and what is never refused outright, over every run
    of the approval engine. */
module ApprovalRights {
  import opened Text
  import opened Approval
  import opened ApprovalProof
  import opened ApprovalRuns
  import opened ApprovalTheorems

  // ----------------------------------------------------------- never passed unread

  /** Contracts and purchase orders are never approved for want of a reader. */
  predicate MustBeRead(bizType: string) {
    bizType == "CONTRACT" || bizType == "PURCHASE_ORDER"
  }

  predicate HasTasks(tasks: Tasks, i: nat) {
    exists t :: t in tasks && tasks[t].instance == i
  }

  predicate AllAsked(db: Db) {
    forall i :: i in db.instances && MustBeRead(db.instances[i].bizType) ==> HasTasks(db.tasks, i)
  }

  lemma TasksStay(db: Db, db': Db, i: nat)
    requires Evolves(db, db') && HasTasks(db.tasks, i)
    ensures HasTasks(db'.tasks, i)
  {
    var t :| t in db.tasks && db.tasks[t].instance == i;
    assert t in db'.tasks && db'.tasks[t].instance == i;
  }

  lemma ActedKeys(nodes: seq<Node>, db: Db, task: nat, d: Decision, plan: Plan)
    requires task in db.tasks && db.tasks[task].instance in db.instances && Acted(nodes, db, task, d, plan).Ok?
    ensures Acted(nodes, db, task, d, plan).value.instances.Keys == db.instances.Keys
  {
    hide Closed, PositionOf, PendingAt, NewTasks;
  }

  /** A flow that is new after a move was handed in by it. */
  lemma OnlySubmissionsAdd(defs: Definitions, w: World, m: Move, i: nat)
    requires i in Next(defs, w, m).db.instances && i !in w.db.instances
    ensures m.HandIn? && HandedIn(defs, w.db, m).Ok? && Next(defs, w, m).db == HandedIn(defs, w.db, m).value
  {
    match m
    case Commit(c) =>
      if c in w.calls && Outcome(defs, w.db, w.calls[c]).Ok? {
        var f := w.calls[c];
        ActedKeys(NodesOf(defs, w.db.instances[w.db.tasks[f.task].instance].definition), w.db, f.task, f.decision, f.plan);
        hide Acted;
      }
    case _ =>
      hide Closed, RouteFor, Submitted;
  }

  lemma EnteringAsks(db: Db, db': Db, inst: Instance, nodes: seq<Node>, staff: Staff, selfConfirm: bool,
                     bosses: seq<int>, fallback: seq<int>, found: Option<nat>)
    requires nodes != [] && Found(nodes, staff, found) && MustBeRead(inst.bizType)
    requires Enters(db, db', inst, nodes, staff, selfConfirm, bosses, fallback, found)
    ensures db'.instances.Keys == db.instances.Keys + {db.nextInstance} && HasTasks(db'.tasks, db.nextInstance)
  {
    hide Found, Range, Sifts, Joined;
    var node, people :| FirstAsked(inst.bizType, nodes, staff, inst.submitter, selfConfirm, bosses, fallback, found, node, people)
                        && Opens(db, db', inst, node.order, people);
    assert people != [];
    hide FirstAsked;
    assert db.nextTask in db'.tasks && db'.tasks[db.nextTask].instance == db.nextInstance;
  }

  lemma SubmissionAsks(defs: Definitions, db: Db, m: Move, i: nat)
    requires m.HandIn? && HandedIn(defs, db, m).Ok? && forall t :: t in db.tasks ==> t < db.nextTask
    requires i in HandedIn(defs, db, m).value.instances && i !in db.instances && MustBeRead(m.bizType)
    ensures HasTasks(HandedIn(defs, db, m).value.tasks, i)
  {
    hide RouteFor, Submitted, Enters, NobodyToAsk, Found, RunsAlready, HasTasks;
    var inst := Instance(m.definition, m.bizType, m.bizId, m.submitter, Running, 1);
    var nodes, next := NodesOf(defs, m.definition), HandedIn(defs, db, m).value;
    SubmittedMeans(db, inst, nodes, m.staff, m.selfConfirm, m.bosses, m.fallback);
    var found :| Found(nodes, m.staff, found) && Enters(db, next, inst, nodes, m.staff, m.selfConfirm, m.bosses, m.fallback, found);
    EnteringAsks(db, next, inst, nodes, m.staff, m.selfConfirm, m.bosses, m.fallback, found);
  }

  lemma SubmissionType(defs: Definitions, db: Db, m: Move, i: nat)
    requires m.HandIn? && HandedIn(defs, db, m).Ok? && i in HandedIn(defs, db, m).value.instances && i !in db.instances
    ensures HandedIn(defs, db, m).value.instances[i].bizType == m.bizType
  {
    hide RouteFor, Closed, NewTasks;
  }

  lemma NextAsks(defs: Definitions, w: World, m: Move)
    requires RowsOk(w.db) && AllAsked(w.db)
    ensures AllAsked(Next(defs, w, m).db)
  {
    NextEvolves(defs, w, m);
    var next := Next(defs, w, m).db;
    hide Next, HandedIn, HasTasks;
    forall i | i in next.instances && MustBeRead(next.instances[i].bizType) ensures HasTasks(next.tasks, i) {
      if i in w.db.instances {
        assert next.instances[i].bizType == w.db.instances[i].bizType;
        TasksStay(w.db, next, i);
      } else {
        OnlySubmissionsAdd(defs, w, m, i);
        SubmissionType(defs, w.db, m, i);
        SubmissionAsks(defs, w.db, m, i);
      }
    }
  }

  lemma {:induction false} EverybodyIsAsked(defs: Definitions, moves: seq<Move>)
    requires WellDefined(defs)
    ensures AllAsked(After(defs, START, moves).db)
    decreases |moves|
  {
    if moves != [] {
      var before := moves[..|moves| - 1];
      EverybodyIsAsked(defs, before);
      RunRows(defs, before);
      hide AllAsked, RowsOk, Next;
      NextAsks(defs, After(defs, START, before), moves[|moves| - 1]);
    }
  }

  /** Over every run, an approved contract or purchase order was approved by
      somebody: it holds a task that a person decided so. */
  lemma NeverApprovedUnread(defs: Definitions, moves: seq<Move>, i: nat)
    requires WellDefined(defs)
    ensures var db := After(defs, START, moves).db;
            i in db.instances && db.instances[i].status == Approved && MustBeRead(db.instances[i].bizType) ==>
              exists t :: t in db.tasks && db.tasks[t].instance == i && db.tasks[t].status == TaskApproved
  {
    EverybodyIsAsked(defs, moves);
    var db := After(defs, START, moves).db;
    if i in db.instances && db.instances[i].status == Approved && MustBeRead(db.instances[i].bizType) {
      EngineSafe(defs, moves, i);
      hide After, Entered, PositionOf;
      var ts := TasksOf(db.tasks, i);
      assert HasTasks(db.tasks, i);
      var t :| t in db.tasks && db.tasks[t].instance == i;
      assert ts[t] == db.tasks[t];
      assert Quorum(NodesOf(defs, db.instances[i].definition), ts, ts[t].order);
      var u :| u in ts && ts[u].order == ts[t].order && ts[u].status == TaskApproved;
      assert db.tasks[u] == ts[u];
    }
  }

  // --------------------------------------------------------- contracts are sent back

  predicate NoContractRejected(db: Db) {
    && (forall i :: i in db.instances && db.instances[i].bizType == "CONTRACT" ==> db.instances[i].status != Rejected)
    && (forall t :: t in db.tasks && db.tasks[t].status == TaskRejected ==>
          db.tasks[t].instance in db.instances && db.instances[db.tasks[t].instance].bizType != "CONTRACT")
  }

  predicate NoContractToReject(w: World) {
    forall c :: c in w.calls && w.calls[c].decision == Reject ==>
      var f := w.calls[c];
      && f.task in w.db.tasks && w.db.tasks[f.task].instance in w.db.instances
      && w.db.instances[w.db.tasks[f.task].instance].bizType != "CONTRACT"
  }

  /** Closing tasks otherwise, ending a flow or asking more people rejects nothing. */
  lemma ClosingRejectsNothing(db: Db, i: nat, order: Option<int>, status: TaskStatus)
    requires NoContractRejected(db) && status != TaskRejected
    ensures NoContractRejected(db.(tasks := Closed(db.tasks, i, order, status)))
  {
  }

  lemma FinishingRejects(db: Db, i: nat, result: Status)
    requires NoContractRejected(db) && i in db.instances && (result == Rejected ==> db.instances[i].bizType != "CONTRACT")
    ensures NoContractRejected(FinishedDb(db, i, result))
  {
  }

  lemma AskingRejectsNothing(db: Db, i: nat, node: Node, people: seq<int>)
    requires NoContractRejected(db) && i in db.instances && forall t :: t in db.tasks ==> t < db.nextTask
    ensures NoContractRejected(AdvancedDb(db, i, node, people))
  {
  }

  lemma ActedRejects(nodes: seq<Node>, db: Db, task: nat, d: Decision, plan: Plan)
    requires NoContractRejected(db) && forall t :: t in db.tasks ==> t < db.nextTask
    requires task in db.tasks && db.tasks[task].instance in db.instances && Acted(nodes, db, task, d, plan).Ok?
    requires d == Reject ==> db.instances[db.tasks[task].instance].bizType != "CONTRACT"
    ensures NoContractRejected(Acted(nodes, db, task, d, plan).value)
  {
    var t := db.tasks[task];
    var i := t.instance;
    var db1 := db.(tasks := db.tasks[task := t.(status := TaskStatusFor(d))]);
    assert NoContractRejected(db1);
    ClosingRejectsNothing(db1, i, Some(t.order), Skipped);
    var last := if d == Approve && nodes[PositionOf(nodes, t.order)].mode == Any
                then db1.(tasks := Closed(db1.tasks, i, Some(t.order), Skipped)) else db1;
    assert forall u :: u in last.tasks ==> u < last.nextTask;
    FinishingRejects(last, i, if d == Approve then Approved else if d == Return then Returned else Rejected);
    if plan.To? {
      AskingRejectsNothing(last, i, plan.node, plan.people);
    }
    hide NoContractRejected, Closed, FinishedDb, AdvancedDb, PositionOf, PendingAt;
  }

  lemma SubmittedRejectsNothing(db: Db, inst: Instance, route: Route)
    requires NoContractRejected(db) && RowsOk(db) && inst.status == Running && Submitted(db, inst, route).Ok?
    ensures NoContractRejected(Submitted(db, inst, route).value)
  {
    match route
    case Refused =>
    case Straight =>
    case First(_, _) =>
  }

  lemma NextRejects(defs: Definitions, w: World, m: Move)
    requires RowsOk(w.db) && NoContractRejected(w.db) && NoContractToReject(w)
    ensures NoContractRejected(Next(defs, w, m).db)
  {
    match m
    case Look(_, _, _, _, _, _, _) =>
    case Commit(c) =>
      if c in w.calls && Outcome(defs, w.db, w.calls[c]).Ok? {
        var f := w.calls[c];
        ActedRejects(NodesOf(defs, w.db.instances[w.db.tasks[f.task].instance].definition), w.db, f.task, f.decision, f.plan);
        hide Acted, NoContractRejected;
      }
    case HandIn(d, bizType, bizId, submitter, staff, selfConfirm, bosses, fallback) =>
      if HandedIn(defs, w.db, m).Ok? {
        SubmittedRejectsNothing(w.db, Instance(d, bizType, bizId, submitter, Running, 1),
                                RouteFor(bizType, NodesOf(defs, d), staff, submitter, selfConfirm, bosses, fallback));
        hide Submitted, RouteFor, NoContractRejected;
      }
    case TakeBack(_, _) =>
  }

  lemma NextToReject(defs: Definitions, w: World, m: Move)
    requires RowsOk(w.db) && NoContractToReject(w)
    ensures NoContractToReject(Next(defs, w, m))
  {
    NextEvolves(defs, w, m);
    var v := Next(defs, w, m);
    hide Outcome, HandedIn, Withdrawn, PlanFor, Objection;
    forall c | c in v.calls && v.calls[c].decision == Reject
      ensures var f := v.calls[c];
              && f.task in v.db.tasks && v.db.tasks[f.task].instance in v.db.instances
              && v.db.instances[v.db.tasks[f.task].instance].bizType != "CONTRACT"
    {
      if c in w.calls {
        assert v.calls[c] == w.calls[c];
      } else {
        assert m.Look? && m.call == c && v.db == w.db;
      }
    }
  }

  lemma {:induction false} RunRejects(defs: Definitions, moves: seq<Move>)
    requires WellDefined(defs)
    ensures NoContractRejected(After(defs, START, moves).db) && NoContractToReject(After(defs, START, moves))
    decreases |moves|
  {
    if moves != [] {
      var before, m := moves[..|moves| - 1], moves[|moves| - 1];
      RunRejects(defs, before);
      RunRows(defs, before);
      hide NoContractRejected, NoContractToReject, RowsOk, Next;
      NextRejects(defs, After(defs, START, before), m);
      NextToReject(defs, After(defs, START, before), m);
    }
  }

  /** Over every run, no contract is ever rejected, and no task of one: it goes
      back for edits instead. */
  lemma ContractsAreNeverRejected(defs: Definitions, moves: seq<Move>, i: nat)
    requires WellDefined(defs)
    ensures var db := After(defs, START, moves).db;
            i in db.instances && db.instances[i].bizType == "CONTRACT" ==>
              && db.instances[i].status != Rejected
              && forall t :: t in db.tasks && db.tasks[t].instance == i ==> db.tasks[t].status != TaskRejected
  {
    RunRejects(defs, moves);
    hide After;
  }
}
