/** The approval engine over whole runs: any number of people deciding at once,
    each with a plan worked out before the transaction. */
module ApprovalRuns {
  import opened Text
  import opened Approval
  import opened ApprovalProof

  // ------------------------------------------------------- rows of one instance

  function TasksOf(tasks: Tasks, i: nat): Tasks {
    map t | t in tasks && tasks[t].instance == i :: tasks[t]
  }

  /** The nodes an instance was advanced to, as its events say. */
  function Advances(outbox: seq<Event>, i: nat): seq<int> {
    if outbox == [] then []
    else
      var e := outbox[|outbox| - 1];
      Advances(outbox[..|outbox| - 1], i) + if e.Advanced? && e.instance == i then [e.order] else []
  }

  /** How many terminal events an instance has sent. */
  function Finishes(outbox: seq<Event>, i: nat): nat {
    if outbox == [] then 0
    else
      var e := outbox[|outbox| - 1];
      Finishes(outbox[..|outbox| - 1], i) + if e.Finished? && e.instance == i then 1 else 0
  }

  lemma AfterEvent(outbox: seq<Event>, e: Event, i: nat)
    ensures Advances(outbox + [e], i) == Advances(outbox, i) + if e.Advanced? && e.instance == i then [e.order] else []
    ensures Finishes(outbox + [e], i) == Finishes(outbox, i) + if e.Finished? && e.instance == i then 1 else 0
  {
    assert (outbox + [e])[..|outbox|] == outbox;
  }

  lemma TasksAfterUpdate(tasks: Tasks, t: nat, x: Task, j: nat)
    requires t in tasks && x.instance == tasks[t].instance
    ensures TasksOf(tasks[t := x], j) == if x.instance == j then TasksOf(tasks, j)[t := x] else TasksOf(tasks, j)
  {
  }

  lemma TasksAfterClose(tasks: Tasks, i: nat, order: Option<int>, status: TaskStatus, j: nat)
    ensures TasksOf(Closed(tasks, i, order, status), j) ==
            if i == j then Close(TasksOf(tasks, j), order, status) else TasksOf(tasks, j)
  {
  }

  lemma TasksAfterNew(tasks: Tasks, first: nat, i: nat, order: int, people: seq<int>, j: nat)
    requires forall t :: t in tasks ==> t < first
    ensures TasksOf(tasks + NewTasks(first, i, order, people), j) ==
            if i == j then TasksOf(tasks, j) + NewTasks(first, i, order, people) else TasksOf(tasks, j)
  {
  }

  // ------------------------------------------------------------------ the tables

  ghost predicate FlowAt(defs: Definitions, db: Db, i: nat)
    requires i in db.instances
  {
    var inst := db.instances[i];
    FlowOk(NodesOf(defs, inst.definition), inst, TasksOf(db.tasks, i), Advances(db.outbox, i), Finishes(db.outbox, i))
  }

  predicate RowsOk(db: Db) {
    && (forall t :: t in db.tasks ==> t < db.nextTask && db.tasks[t].instance in db.instances)
    && (forall i :: i in db.instances ==> i < db.nextInstance)
    && (forall k :: 0 <= k < |db.outbox| ==> db.outbox[k].instance < db.nextInstance)
  }

  /** One document has at most one flow in flight. */
  predicate OneRunning(instances: map<nat, Instance>) {
    forall i, j :: i in instances && j in instances && i != j && instances[i].status == Running && instances[j].status == Running ==>
      instances[i].bizType != instances[j].bizType || instances[i].bizId != instances[j].bizId
  }

  ghost predicate DbOk(defs: Definitions, db: Db) {
    RowsOk(db) && OneRunning(db.instances) && forall i :: i in db.instances ==> FlowAt(defs, db, i)
  }

  /** Instance `j` sees the same rows in both states. */
  predicate SameFlow(db: Db, db': Db, j: nat) {
    && j in db.instances && j in db'.instances && db'.instances[j] == db.instances[j]
    && TasksOf(db'.tasks, j) == TasksOf(db.tasks, j)
    && Advances(db'.outbox, j) == Advances(db.outbox, j) && Finishes(db'.outbox, j) == Finishes(db.outbox, j)
  }

  /** A transaction on one instance is harmless to the others. */
  predicate Touches(db: Db, db': Db, i: nat) {
    && db'.instances.Keys == db.instances.Keys
    && (forall j :: j in db.instances && j != i ==> SameFlow(db, db', j))
    && i in db.instances
    && db'.instances[i].bizType == db.instances[i].bizType && db'.instances[i].bizId == db.instances[i].bizId
    && db'.instances[i].definition == db.instances[i].definition
    && (db'.instances[i].status == Running ==> db.instances[i].status == Running)
    && RowsOk(db')
  }

  lemma TouchedDbOk(defs: Definitions, db: Db, db': Db, i: nat)
    requires DbOk(defs, db) && Touches(db, db', i) && FlowAt(defs, db', i)
    ensures DbOk(defs, db')
  {
    hide FlowOk;
    forall j | j in db'.instances ensures FlowAt(defs, db', j) {
      if j != i {
        assert SameFlow(db, db', j);
      }
    }
  }

  // ---------------------------------------------------------------- the decision

  /** A plan made for the task from the definition and the staffing found. */
  ghost predicate Planned(defs: Definitions, inst: Instance, t: Task, d: Decision, staff: Staff, plan: Plan) {
    plan == PlanFor(NodesOf(defs, inst.definition), inst.bizType, t.order, d, staff)
  }

  lemma PlannedIsLater(defs: Definitions, inst: Instance, t: Task, d: Decision, staff: Staff, plan: Plan)
    requires WellDefined(defs) && Planned(defs, inst, t, d, staff, plan) && plan.To?
    ensures plan.people != [] && PositionOf(NodesOf(defs, inst.definition), plan.node.order) >= 0
    ensures PositionOf(NodesOf(defs, inst.definition), t.order) >= 0 ==> t.order < plan.node.order
  {
    var nodes := NodesOf(defs, inst.definition);
    var from := PositionOf(nodes, t.order) + 1;
    var k :| from <= k < |nodes| && nodes[k] == plan.node;
    assert nodes[k].order == plan.node.order;
  }

  lemma FinishTouches(db0: Db, db: Db, i: nat, result: Status)
    requires Touches(db0, db, i) && result != Running && i in db.instances
    ensures Touches(db0, FinishedDb(db, i, result), i)
  {
    var u := FinishedDb(db, i, result);
    forall j | j in db0.instances && j != i ensures SameFlow(db0, u, j) {
      assert SameFlow(db0, db, j);
      TasksAfterClose(db.tasks, i, None, TaskCancelled, j);
      AfterEvent(db.outbox, Finished(i, result), j);
    }
  }

  lemma UpdateTouches(db: Db, t: nat, x: Task)
    requires RowsOk(db) && t in db.tasks && x.instance == db.tasks[t].instance
    ensures Touches(db, db.(tasks := db.tasks[t := x]), x.instance)
  {
    forall j | j in db.instances && j != x.instance ensures SameFlow(db, db.(tasks := db.tasks[t := x]), j) {
      TasksAfterUpdate(db.tasks, t, x, j);
    }
  }

  lemma CloseTouches(db0: Db, db: Db, i: nat, order: Option<int>, status: TaskStatus)
    requires Touches(db0, db, i)
    ensures Touches(db0, db.(tasks := Closed(db.tasks, i, order, status)), i)
  {
    forall j | j in db0.instances && j != i
      ensures SameFlow(db0, db.(tasks := Closed(db.tasks, i, order, status)), j)
    {
      assert SameFlow(db0, db, j);
      TasksAfterClose(db.tasks, i, order, status, j);
    }
  }

  lemma AdvanceTouches(db0: Db, db: Db, i: nat, node: Node, people: seq<int>)
    requires Touches(db0, db, i)
    ensures Touches(db0, AdvancedDb(db, i, node, people), i)
  {
    var u := AdvancedDb(db, i, node, people);
    forall j | j in db0.instances && j != i ensures SameFlow(db0, u, j) {
      assert SameFlow(db0, db, j);
      TasksAfterNew(db.tasks, db.nextTask, i, node.order, people, j);
      AfterEvent(db.outbox, Advanced(i, node.order), j);
    }
  }

  function Stopped(db: Db, task: nat, d: Decision): Db
    requires task in db.tasks && db.tasks[task].instance in db.instances
  {
    var db1 := db.(tasks := db.tasks[task := db.tasks[task].(status := TaskStatusFor(d))]);
    FinishedDb(db1, db.tasks[task].instance, if d == Return then Returned else Rejected)
  }

  lemma StopTouches(db: Db, task: nat, d: Decision)
    requires RowsOk(db) && task in db.tasks
    ensures Touches(db, Stopped(db, task, d), db.tasks[task].instance)
  {
    hide SameFlow;
    var t := db.tasks[task];
    UpdateTouches(db, task, t.(status := TaskStatusFor(d)));
    FinishTouches(db, db.(tasks := db.tasks[task := t.(status := TaskStatusFor(d))]), t.instance,
                  if d == Return then Returned else Rejected);
  }

  lemma StoppedRows(ts: Tasks, t: nat, d: Decision)
    requires t in ts && ts[t].status == Pending
    ensures var us := Close(Decide(ts, t, d), None, TaskCancelled);
            && us.Keys == ts.Keys && NoPending(us) && (forall u :: u in ts ==> us[u].order == ts[u].order)
            && (forall u :: u in ts && us[u] != ts[u] ==> ts[u].status == Pending)
  {
  }

  lemma StopKeepsRows(db: Db, task: nat, d: Decision)
    requires task in db.tasks && db.tasks[task].instance in db.instances
    ensures var i, next := db.tasks[task].instance, Stopped(db, task, d);
            && i in next.instances && next.instances[i] == db.instances[i].(status := if d == Return then Returned else Rejected)
            && TasksOf(next.tasks, i) == Close(Decide(TasksOf(db.tasks, i), task, d), None, TaskCancelled)
            && Advances(next.outbox, i) == Advances(db.outbox, i) && Finishes(next.outbox, i) == Finishes(db.outbox, i) + 1
  {
    var t := db.tasks[task];
    var i, x := t.instance, t.(status := TaskStatusFor(d));
    TasksAfterUpdate(db.tasks, task, x, i);
    TasksAfterClose(db.tasks[task := x], i, None, TaskCancelled, i);
    AfterEvent(db.outbox, Finished(i, if d == Return then Returned else Rejected), i);
    assert Advances(db.outbox, i) + [] == Advances(db.outbox, i);
    assert TasksOf(db.tasks, i)[task] == t;
    hide Close, Closed, TasksOf;
  }

  lemma StopFlow(defs: Definitions, db: Db, task: nat, d: Decision)
    requires task in db.tasks && db.tasks[task].instance in db.instances && db.tasks[task].status == Pending && d != Approve
    requires FlowAt(defs, db, db.tasks[task].instance) && db.instances[db.tasks[task].instance].status == Running
    ensures FlowAt(defs, Stopped(db, task, d), db.tasks[task].instance)
  {
    hide FlowOk, NodesOf, TasksOf, Stopped, Close, NoPending;
    var i := db.tasks[task].instance;
    var inst := db.instances[i];
    var nodes, result := NodesOf(defs, inst.definition), if d == Return then Returned else Rejected;
    var ts, adv, fin := TasksOf(db.tasks, i), Advances(db.outbox, i), Finishes(db.outbox, i);
    OwnTask(db, task);
    StopKeepsRows(db, task, d);
    StoppedRows(ts, task, d);
    NothingSentYet(nodes, inst, ts, adv, fin);
    StoppedOk(nodes, inst, ts, Close(Decide(ts, task, d), None, TaskCancelled), adv, fin, result, 1);
  }

  lemma StopKeeps(defs: Definitions, db: Db, task: nat, d: Decision)
    requires DbOk(defs, db) && task in db.tasks && db.tasks[task].status == Pending && d != Approve
    requires db.instances[db.tasks[task].instance].status == Running
    ensures DbOk(defs, Stopped(db, task, d))
  {
    StopTouches(db, task, d);
    hide FlowAt, Touches;
    StopFlow(defs, db, task, d);
    TouchedDbOk(defs, db, Stopped(db, task, d), db.tasks[task].instance);
  }

  /** The tasks of the instance once the node of the approved task is through. */
  lemma ThroughTasks(nodes: seq<Node>, db: Db, task: nat, db2: Db)
    requires task in db.tasks && PositionOf(nodes, db.tasks[task].order) >= 0
    requires var t := db.tasks[task];
             var db1 := db.(tasks := db.tasks[task := t.(status := TaskApproved)]);
             db2 == if IsAll(nodes, t.order) then db1 else db1.(tasks := Closed(db1.tasks, t.instance, Some(t.order), Skipped))
    ensures TasksOf(db2.tasks, db.tasks[task].instance) == Through(nodes, TasksOf(db.tasks, db.tasks[task].instance), task)
  {
    var t := db.tasks[task];
    TasksAfterUpdate(db.tasks, task, t.(status := TaskApproved), t.instance);
    TasksAfterClose(db.tasks[task := t.(status := TaskApproved)], t.instance, Some(t.order), Skipped, t.instance);
  }

  lemma WaitKeeps(defs: Definitions, db: Db, task: nat)
    requires DbOk(defs, db) && task in db.tasks && db.tasks[task].status == Pending
    requires var t := db.tasks[task];
             && db.instances[t.instance].status == Running
             && IsAll(NodesOf(defs, db.instances[t.instance].definition), t.order)
             && !NoPending(Decide(TasksOf(db.tasks, t.instance), task, Approve))
    ensures DbOk(defs, db.(tasks := db.tasks[task := db.tasks[task].(status := TaskApproved)]))
  {
    var t := db.tasks[task];
    var i := t.instance;
    var x := t.(status := TaskApproved);
    var u := db.(tasks := db.tasks[task := x]);
    UpdateTouches(db, task, x);
    TasksAfterUpdate(db.tasks, task, x, i);
    var inst := db.instances[i];
    assert FlowAt(defs, db, i);
    WaitingOk(NodesOf(defs, inst.definition), inst, TasksOf(db.tasks, i), Advances(db.outbox, i), Finishes(db.outbox, i), task);
    hide FlowOk;
    TouchedDbOk(defs, db, u, i);
  }

  /** The tables once the node of an approved task is through. */
  function PassedDb(nodes: seq<Node>, db: Db, task: nat): Db
    requires task in db.tasks
  {
    var t := db.tasks[task];
    var db1 := db.(tasks := db.tasks[task := t.(status := TaskApproved)]);
    if IsAll(nodes, t.order) then db1 else db1.(tasks := Closed(db1.tasks, t.instance, Some(t.order), Skipped))
  }

  function AfterPass(nodes: seq<Node>, db: Db, task: nat, plan: Plan): Db
    requires task in db.tasks && db.tasks[task].instance in db.instances
  {
    var i, db2 := db.tasks[task].instance, PassedDb(nodes, db, task);
    if plan == Nobody then FinishedDb(db2, i, Approved) else AdvancedDb(db2, i, plan.node, plan.people)
  }

  lemma PassTouches(nodes: seq<Node>, db: Db, task: nat, plan: Plan)
    requires RowsOk(db) && task in db.tasks && db.instances[db.tasks[task].instance].status == Running
    ensures Touches(db, AfterPass(nodes, db, task, plan), db.tasks[task].instance)
  {
    hide SameFlow, IsAll;
    var t := db.tasks[task];
    var db2 := PassedDb(nodes, db, task);
    UpdateTouches(db, task, t.(status := TaskApproved));
    CloseTouches(db, db.(tasks := db.tasks[task := t.(status := TaskApproved)]), t.instance, Some(t.order), Skipped);
    if plan == Nobody {
      FinishTouches(db, db2, t.instance, Approved);
    } else {
      AdvanceTouches(db, db2, t.instance, plan.node, plan.people);
    }
  }

  /** A running instance with the task to be approved, in terms of its own rows. */
  ghost predicate Passing(defs: Definitions, db: Db, task: nat) {
    && task in db.tasks && db.tasks[task].status == Pending
    && var t := db.tasks[task];
       && t.instance in db.instances && db.instances[t.instance].status == Running && FlowAt(defs, db, t.instance)
       && var nodes := NodesOf(defs, db.instances[t.instance].definition);
          && PositionOf(nodes, t.order) >= 0
          && (IsAll(nodes, t.order) ==> NoPending(Decide(TasksOf(db.tasks, t.instance), task, Approve)))
  }

  lemma LastPassRows(nodes: seq<Node>, db: Db, task: nat)
    requires task in db.tasks && db.tasks[task].instance in db.instances && PositionOf(nodes, db.tasks[task].order) >= 0
    requires var ts := TasksOf(db.tasks, db.tasks[task].instance);
             Close(Through(nodes, ts, task), None, TaskCancelled) == Through(nodes, ts, task)
    ensures var i, next := db.tasks[task].instance, AfterPass(nodes, db, task, Nobody);
            && i in next.instances && next.instances[i] == db.instances[i].(status := Approved)
            && TasksOf(next.tasks, i) == Through(nodes, TasksOf(db.tasks, i), task)
            && Advances(next.outbox, i) == Advances(db.outbox, i) && Finishes(next.outbox, i) == Finishes(db.outbox, i) + 1
  {
    var i := db.tasks[task].instance;
    ThroughTasks(nodes, db, task, PassedDb(nodes, db, task));
    TasksAfterClose(PassedDb(nodes, db, task).tasks, i, None, TaskCancelled, i);
    AfterEvent(db.outbox, Finished(i, Approved), i);
    assert Advances(db.outbox, i) + [] == Advances(db.outbox, i);
    hide PositionOf, IsAll, Through, Close, Closed, TasksOf;
  }

  lemma LastPassFlow(defs: Definitions, db: Db, task: nat)
    requires Passing(defs, db, task)
    ensures var i := db.tasks[task].instance;
            FlowAt(defs, AfterPass(NodesOf(defs, db.instances[i].definition), db, task, Nobody), i)
  {
    hide PositionOf, FlowOk, IsAll, NoPending, NodesOf, Through, TasksOf, AfterPass;
    var i := db.tasks[task].instance;
    var inst := db.instances[i];
    var nodes := NodesOf(defs, inst.definition);
    var ts, adv, fin := TasksOf(db.tasks, i), Advances(db.outbox, i), Finishes(db.outbox, i);
    OwnTask(db, task);
    ThroughClosed(nodes, inst, ts, adv, fin, task);
    LastPassRows(nodes, db, task);
    NothingSentYet(nodes, inst, ts, adv, fin);
    ApprovedOk(nodes, inst, ts, adv, fin, task, Through(nodes, ts, task));
  }

  lemma OwnTask(db: Db, task: nat)
    requires task in db.tasks
    ensures task in TasksOf(db.tasks, db.tasks[task].instance)
    ensures TasksOf(db.tasks, db.tasks[task].instance)[task] == db.tasks[task]
  {
  }

  lemma NextPassFlow(defs: Definitions, db: Db, task: nat, plan: Plan)
    requires Passing(defs, db, task) && RowsOk(db) && plan.To? && plan.people != []
    requires var nodes := NodesOf(defs, db.instances[db.tasks[task].instance].definition);
             PositionOf(nodes, plan.node.order) >= 0 && db.tasks[task].order < plan.node.order
    ensures var i := db.tasks[task].instance;
            FlowAt(defs, AfterPass(NodesOf(defs, db.instances[i].definition), db, task, plan), i)
  {
    hide PositionOf, FlowOk, IsAll, NoPending, Through, NodesOf;
    var i := db.tasks[task].instance;
    var inst := db.instances[i];
    var nodes := NodesOf(defs, inst.definition);
    var ts, adv, fin := TasksOf(db.tasks, i), Advances(db.outbox, i), Finishes(db.outbox, i);
    var db2 := PassedDb(nodes, db, task);
    ThroughTasks(nodes, db, task, db2);
    TasksAfterNew(db2.tasks, db2.nextTask, i, plan.node.order, plan.people, i);
    AfterEvent(db.outbox, Advanced(i, plan.node.order), i);
    var added := NewTasks(db2.nextTask, i, plan.node.order, plan.people);
    assert db2.nextTask in added;
    AdvancedOk(nodes, inst, ts, adv, fin, task, plan.node, added);
  }

  /** The approval that ends the flow, or leads to the next node. */
  lemma PassKeeps(defs: Definitions, db: Db, task: nat, staff: Staff, plan: Plan)
    requires WellDefined(defs) && DbOk(defs, db) && Passing(defs, db, task)
    requires Planned(defs, db.instances[db.tasks[task].instance], db.tasks[task], Approve, staff, plan)
    ensures DbOk(defs, AfterPass(NodesOf(defs, db.instances[db.tasks[task].instance].definition), db, task, plan))
  {
    hide FlowAt, Touches, Planned, AfterPass, PositionOf, IsAll, RowsOk;
    var i := db.tasks[task].instance;
    var nodes := NodesOf(defs, db.instances[i].definition);
    PassTouches(nodes, db, task, plan);
    if plan == Nobody {
      LastPassFlow(defs, db, task);
    } else {
      PlannedIsLater(defs, db.instances[i], db.tasks[task], Approve, staff, plan);
      NextPassFlow(defs, db, task, plan);
    }
    TouchedDbOk(defs, db, AfterPass(nodes, db, task, plan), i);
  }

  lemma ThroughClosed(nodes: seq<Node>, inst: Instance, ts: Tasks, adv: seq<int>, fin: nat, t: nat)
    requires FlowOk(nodes, inst, ts, adv, fin) && t in ts && ts[t].status == Pending
    requires IsAll(nodes, ts[t].order) ==> NoPending(Decide(ts, t, Approve))
    ensures Close(Through(nodes, ts, t), None, TaskCancelled) == Through(nodes, ts, t)
  {
    ThroughHasQuorum(nodes, ts, t);
  }

  lemma PendingSeen(db: Db, i: nat, task: nat, order: int, nodes: seq<Node>)
    requires task in db.tasks && db.tasks[task].instance == i && db.tasks[task].order == order && db.tasks[task].status == Pending
    requires OnePlace(nodes, TasksOf(db.tasks, i))
    ensures var db1 := db.(tasks := db.tasks[task := db.tasks[task].(status := TaskApproved)]);
            (exists u :: u in db1.tasks && PendingAt(db1.tasks[u], i, order)) <==> !NoPending(Decide(TasksOf(db.tasks, i), task, Approve))
  {
    hide PositionOf, Quorum;
    var ts := TasksOf(db.tasks, i);
    var us := Decide(ts, task, Approve);
    var db1 := db.(tasks := db.tasks[task := db.tasks[task].(status := TaskApproved)]);
    assert StandsAt(nodes, ts, ts[task].order);
    if u :| u in us && us[u].status == Pending {
      assert StandsAt(nodes, ts, ts[u].order);
      assert u in db1.tasks && PendingAt(db1.tasks[u], i, order);
    }
    if u :| u in db1.tasks && PendingAt(db1.tasks[u], i, order) {
      assert u in us && us[u].status == Pending;
    }
  }

  /** The four ways a decision can commit. */
  lemma ActedCases(nodes: seq<Node>, db: Db, task: nat, d: Decision, plan: Plan)
    requires task in db.tasks && db.tasks[task].instance in db.instances
    requires OnePlace(nodes, TasksOf(db.tasks, db.tasks[task].instance)) && Acted(nodes, db, task, d, plan).Ok?
    ensures var t := db.tasks[task];
            var waits := !NoPending(Decide(TasksOf(db.tasks, t.instance), task, Approve));
            && t.status == Pending && db.instances[t.instance].status == Running
            && (d == Approve ==> PositionOf(nodes, t.order) >= 0)
            && Acted(nodes, db, task, d, plan).value ==
               if d != Approve then Stopped(db, task, d)
               else if IsAll(nodes, t.order) && waits then db.(tasks := db.tasks[task := t.(status := TaskApproved)])
               else AfterPass(nodes, db, task, plan)
  {
    hide OnePlace;
    if db.tasks[task].status == Pending && d == Approve {
      PendingSeen(db, db.tasks[task].instance, task, db.tasks[task].order, nodes);
    }
    hide NoPending, TasksOf, Closed, FinishedDb, AdvancedDb;
  }

  /** Every decision that commits keeps the tables consistent. */
  lemma ActedKeeps(defs: Definitions, db: Db, task: nat, d: Decision, staff: Staff, plan: Plan)
    requires WellDefined(defs) && DbOk(defs, db) && task in db.tasks
    requires Planned(defs, db.instances[db.tasks[task].instance], db.tasks[task], d, staff, plan)
    ensures var next := Acted(NodesOf(defs, db.instances[db.tasks[task].instance].definition), db, task, d, plan);
            next.Ok? ==> DbOk(defs, next.value)
  {
    var t := db.tasks[task];
    var i := t.instance;
    var nodes := NodesOf(defs, db.instances[i].definition);
    if Acted(nodes, db, task, d, plan).Ok? {
      assert FlowAt(defs, db, i);
      ActedCases(nodes, db, task, d, plan);
      hide FlowOk, DbOk, PositionOf, Acted, Planned, NoPending, AfterPass, Stopped, IsAll;
      if d != Approve {
        StopKeeps(defs, db, task, d);
      } else if IsAll(nodes, t.order) && !NoPending(Decide(TasksOf(db.tasks, i), task, Approve)) {
        WaitKeeps(defs, db, task);
      } else {
        PassKeeps(defs, db, task, staff, plan);
      }
    }
  }
}
