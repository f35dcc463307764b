/** Where decisions lead over whole runs: every one brings its flow closer to
    the end, no other step takes it further away, their number is bounded, and
    an approval goes to the next node that had somebody to ask. */
module ApprovalProgress {
  import opened Text
  import opened Approval
  import opened ApprovalProof
  import opened ApprovalRuns
  import opened ApprovalTheorems

  // --------------------------------------------------------------------- progress

  /** How many nodes come after a sequence number. */
  function Later(nodes: seq<Node>, order: int): nat {
    if nodes == [] then 0 else (if nodes[0].order > order then 1 else 0) + Later(nodes[1..], order)
  }

  lemma {:induction false} LaterShrinks(nodes: seq<Node>, a: int, b: int)
    requires a < b
    ensures Later(nodes, b) <= Later(nodes, a)
    ensures PositionOf(nodes, b) >= 0 ==> Later(nodes, b) < Later(nodes, a)
  {
    if nodes != [] {
      LaterShrinks(nodes[1..], a, b);
    }
  }

  /** The tasks of an instance that a person decided. */
  function DecidedOf(db: Db, i: nat): set<nat> {
    set t | t in db.tasks && db.tasks[t].instance == i && IsDecided(db.tasks[t].status)
  }

  predicate IsDecided(s: TaskStatus) {
    s == TaskApproved || s == TaskRejected || s == TaskReturned
  }

  /** A committed decision ends the instance, or moves its open tasks to a later
      node, or leaves fewer of them at the same node. */
  predicate Progress(nodes: seq<Node>, db: Db, db': Db, i: nat, order: int)
    requires i in db'.instances
  {
    || db'.instances[i].status != Running
    || (forall u :: u in PendingOf(db', i) ==> Later(nodes, db'.tasks[u].order) < Later(nodes, order))
    || (PendingOf(db', i) < PendingOf(db, i) && forall u :: u in PendingOf(db', i) ==> db'.tasks[u].order == order)
  }

  lemma DecisionProgresses(defs: Definitions, db: Db, task: nat, d: Decision, staff: Staff, plan: Plan)
    requires WellDefined(defs) && DbOk(defs, db) && task in db.tasks
    requires Planned(defs, db.instances[db.tasks[task].instance], db.tasks[task], d, staff, plan)
    requires Acted(NodesOf(defs, db.instances[db.tasks[task].instance].definition), db, task, d, plan).Ok?
    ensures var i := db.tasks[task].instance;
            var nodes := NodesOf(defs, db.instances[i].definition);
            var next := Acted(nodes, db, task, d, plan).value;
            i in next.instances && Progress(nodes, db, next, i, db.tasks[task].order)
  {
    var t := db.tasks[task];
    var i := t.instance;
    var nodes := NodesOf(defs, db.instances[i].definition);
    assert FlowAt(defs, db, i);
    ActedCases(nodes, db, task, d, plan);
    hide Acted, DbOk, Planned;
    if d == Approve {
      if IsAll(nodes, t.order) && !NoPending(Decide(TasksOf(db.tasks, i), task, Approve)) {
        WaitProgresses(nodes, db, task);
      } else if plan.To? {
        PlannedIsLater(defs, db.instances[i], t, d, staff, plan);
        LaterShrinks(nodes, t.order, plan.node.order);
        PassProgresses(defs, db, task, plan);
      }
    }
  }

  lemma WaitProgresses(nodes: seq<Node>, db: Db, task: nat)
    requires task in db.tasks && db.tasks[task].status == Pending && db.tasks[task].instance in db.instances
    requires OnePlace(nodes, TasksOf(db.tasks, db.tasks[task].instance))
    ensures var t := db.tasks[task];
            var next := db.(tasks := db.tasks[task := t.(status := TaskApproved)]);
            Progress(nodes, db, next, t.instance, t.order)
  {
    hide PositionOf, Quorum;
    var t := db.tasks[task];
    var ts := TasksOf(db.tasks, t.instance);
    var next := db.(tasks := db.tasks[task := t.(status := TaskApproved)]);
    assert task in PendingOf(db, t.instance) && task !in PendingOf(next, t.instance);
    assert ts[task] == t && StandsAt(nodes, ts, ts[task].order);
    forall u | u in PendingOf(next, t.instance) ensures next.tasks[u].order == t.order {
      assert u in ts && StandsAt(nodes, ts, ts[u].order);
    }
  }

  lemma NoneLeft(defs: Definitions, db: Db, task: nat)
    requires Passing(defs, db, task)
    ensures var i := db.tasks[task].instance;
            PendingOf(PassedDb(NodesOf(defs, db.instances[i].definition), db, task), i) == {}
  {
    var i := db.tasks[task].instance;
    var nodes := NodesOf(defs, db.instances[i].definition);
    var db2 := PassedDb(nodes, db, task);
    ThroughTasks(nodes, db, task, db2);
    ThroughHasQuorum(nodes, TasksOf(db.tasks, i), task);
    hide Quorum, PositionOf, IsAll, PassedDb, Through, FlowOk, Known;
    forall u | u in db2.tasks && db2.tasks[u].instance == i ensures db2.tasks[u].status != Pending {
      assert TasksOf(db2.tasks, i)[u] == db2.tasks[u];
    }
  }

  lemma PassProgresses(defs: Definitions, db: Db, task: nat, plan: Plan)
    requires Passing(defs, db, task) && plan.To?
    requires var nodes := NodesOf(defs, db.instances[db.tasks[task].instance].definition);
             Later(nodes, plan.node.order) < Later(nodes, db.tasks[task].order)
    ensures var i := db.tasks[task].instance;
            var nodes := NodesOf(defs, db.instances[i].definition);
            Progress(nodes, db, AfterPass(nodes, db, task, plan), i, db.tasks[task].order)
  {
    NoneLeft(defs, db, task);
    var i := db.tasks[task].instance;
    var nodes := NodesOf(defs, db.instances[i].definition);
    var db2, next := PassedDb(nodes, db, task), AfterPass(nodes, db, task, plan);
    hide PassedDb, Passing, Later;
    forall u | u in PendingOf(next, i) ensures next.tasks[u].order == plan.node.order {
      assert u !in PendingOf(db2, i);
    }
  }

  // ------------------------------------------------- decisions count people's work

  /** The move commits a decision on the instance. */
  ghost predicate Decides(defs: Definitions, w: World, m: Move, i: nat) {
    && m.Commit? && m.call in w.calls && Outcome(defs, w.db, w.calls[m.call]).Ok?
    && w.db.tasks[w.calls[m.call].task].instance == i
  }

  /** How many decisions on an instance committed during a run. */
  ghost function Commits(defs: Definitions, moves: seq<Move>, i: nat): nat
    decreases |moves|
  {
    if moves == [] then 0
    else
      var before, m := moves[..|moves| - 1], moves[|moves| - 1];
      Commits(defs, before, i) + if Decides(defs, After(defs, START, before), m, i) then 1 else 0
  }

  lemma CloseDecidesNothing(db: Db, i: nat, order: Option<int>, status: TaskStatus, j: nat)
    requires !IsDecided(status)
    ensures DecidedOf(db.(tasks := Closed(db.tasks, i, order, status)), j) == DecidedOf(db, j)
  {
  }

  lemma AdvanceDecidesNothing(db: Db, i: nat, node: Node, people: seq<int>, j: nat)
    requires i in db.instances && forall t :: t in db.tasks ==> t < db.nextTask
    ensures DecidedOf(AdvancedDb(db, i, node, people), j) == DecidedOf(db, j)
  {
  }

  lemma FinishDecidesNothing(db: Db, i: nat, result: Status, j: nat)
    requires i in db.instances
    ensures DecidedOf(FinishedDb(db, i, result), j) == DecidedOf(db, j)
  {
  }

  lemma ActedDecides(nodes: seq<Node>, db: Db, task: nat, d: Decision, plan: Plan, j: nat)
    requires RowsOk(db) && task in db.tasks && Acted(nodes, db, task, d, plan).Ok?
    ensures task !in DecidedOf(db, j)
    ensures DecidedOf(Acted(nodes, db, task, d, plan).value, j) ==
            DecidedOf(db, j) + if db.tasks[task].instance == j then {task} else {}
  {
    var t := db.tasks[task];
    var i := t.instance;
    var db1 := db.(tasks := db.tasks[task := t.(status := TaskStatusFor(d))]);
    assert DecidedOf(db1, j) == DecidedOf(db, j) + if i == j then {task} else {};
    var db2 := db1.(tasks := Closed(db1.tasks, i, Some(t.order), Skipped));
    CloseDecidesNothing(db1, i, Some(t.order), Skipped, j);
    var last := if d == Approve && nodes[PositionOf(nodes, t.order)].mode == Any then db2 else db1;
    FinishDecidesNothing(last, i, if d == Approve then Approved else if d == Return then Returned else Rejected, j);
    if plan.To? {
      AdvanceDecidesNothing(last, i, plan.node, plan.people, j);
    }
    hide DecidedOf, Closed, FinishedDb, AdvancedDb, PositionOf, PendingAt;
  }

  lemma OthersDecideNothing(defs: Definitions, w: World, m: Move, i: nat)
    requires RowsOk(w.db)
    requires !m.Commit? || m.call !in w.calls || Outcome(defs, w.db, w.calls[m.call]).Err?
    ensures DecidedOf(Next(defs, w, m).db, i) == DecidedOf(w.db, i)
  {
    hide RouteFor;
  }

  /** Conservation: the tasks decided by people are exactly as many as the
      decisions that committed; none is lost, none counted twice. */
  lemma {:induction false} DecisionsAreConserved(defs: Definitions, moves: seq<Move>, i: nat)
    requires WellDefined(defs)
    ensures |DecidedOf(After(defs, START, moves).db, i)| == Commits(defs, moves, i)
    decreases |moves|
  {
    if moves != [] {
      var before, m := moves[..|moves| - 1], moves[|moves| - 1];
      DecisionsAreConserved(defs, before, i);
      RunRows(defs, before);
      var w := After(defs, START, before);
      hide DecidedOf, RowsOk, Acted;
      if m.Commit? && m.call in w.calls && Outcome(defs, w.db, w.calls[m.call]).Ok? {
        var f := w.calls[m.call];
        ActedDecides(NodesOf(defs, w.db.instances[w.db.tasks[f.task].instance].definition), w.db, f.task, f.decision, f.plan, i);
      } else {
        OthersDecideNothing(defs, w, m, i);
      }
    }
  }

  // ---------------------------------------------------------------- the measure

  /** The node at which a flow has open tasks. */
  ghost function Place(ts: Tasks): int
    requires !NoPending(ts)
  {
    var t :| t in ts && ts[t].status == Pending;
    ts[t].order
  }

  /** The nodes after the one being decided, and the tasks open at it. */
  ghost function Measure(nodes: seq<Node>, db: Db, i: nat): (nat, nat) {
    var ts := TasksOf(db.tasks, i);
    if NoPending(ts) then (0, 0) else (Later(nodes, Place(ts)), |PendingOf(db, i)|)
  }

  predicate Below(a: (nat, nat), b: (nat, nat)) {
    a.0 < b.0 || (a.0 == b.0 && a.1 < b.1)
  }

  lemma PlaceOfPending(nodes: seq<Node>, db: Db, i: nat, u: nat)
    requires OnePlace(nodes, TasksOf(db.tasks, i)) && u in PendingOf(db, i)
    ensures !NoPending(TasksOf(db.tasks, i)) && Place(TasksOf(db.tasks, i)) == db.tasks[u].order
  {
    hide PositionOf, Quorum;
    var ts := TasksOf(db.tasks, i);
    assert ts[u] == db.tasks[u];
    var t :| t in ts && ts[t].status == Pending && ts[t].order == Place(ts);
    assert StandsAt(nodes, ts, ts[t].order) && StandsAt(nodes, ts, ts[u].order);
  }

  lemma SmallerSet<T>(a: set<T>, b: set<T>)
    requires a < b
    ensures |a| < |b|
  {
    var x :| x in b && x !in a;
    assert b == a + (b - a) && x in b - a;
  }

  /** Progress in terms of the rows is descent of the measure. */
  lemma ProgressDescends(defs: Definitions, db: Db, db': Db, i: nat, task: nat)
    requires i in db.instances && i in db'.instances && FlowAt(defs, db, i) && FlowAt(defs, db', i)
    requires db'.instances[i].definition == db.instances[i].definition && task in PendingOf(db, i)
    requires Progress(NodesOf(defs, db.instances[i].definition), db, db', i, db.tasks[task].order)
    ensures var nodes := NodesOf(defs, db.instances[i].definition);
            db'.instances[i].status != Running || Below(Measure(nodes, db', i), Measure(nodes, db, i))
  {
    hide OnePlace, PlacedAt, QuorumBehind, Entered, Quorum, Later, Place;
    if db'.instances[i].status == Running {
      var nodes := NodesOf(defs, db.instances[i].definition);
      PlaceOfPending(nodes, db, i, task);
      var ts := TasksOf(db'.tasks, i);
      var u :| u in ts && ts[u].status == Pending;
      assert u in PendingOf(db', i);
      PlaceOfPending(nodes, db', i, u);
      if PendingOf(db', i) < PendingOf(db, i) {
        SmallerSet(PendingOf(db', i), PendingOf(db, i));
      }
    }
  }

  lemma ActedIsConsistent(defs: Definitions, moves: seq<Move>, c: nat)
    requires WellDefined(defs)
    requires c in After(defs, START, moves).calls
    ensures var w := After(defs, START, moves);
            var f := w.calls[c];
            && DbOk(defs, w.db) && f.task in w.db.tasks && w.db.tasks[f.task].instance in w.db.instances
            && Planned(defs, w.db.instances[w.db.tasks[f.task].instance], w.db.tasks[f.task], f.decision, f.staff, f.plan)
  {
    RunKeepsInv(defs, moves);
    hide After, DbOk, Planned;
  }

  /** The rows of other instances, and what a decision never rewrites. */
  lemma ActedTouches(nodes: seq<Node>, db: Db, task: nat, d: Decision, plan: Plan)
    requires RowsOk(db) && task in db.tasks && Acted(nodes, db, task, d, plan).Ok?
    requires OnePlace(nodes, TasksOf(db.tasks, db.tasks[task].instance))
    ensures Touches(db, Acted(nodes, db, task, d, plan).value, db.tasks[task].instance)
    ensures task in PendingOf(db, db.tasks[task].instance)
  {
    ActedCases(nodes, db, task, d, plan);
    hide Touches, Acted, AfterPass, Stopped, IsAll, NoPending, OnePlace;
    if d != Approve {
      StopTouches(db, task, d);
    } else {
      UpdateTouches(db, task, db.tasks[task].(status := TaskApproved));
      PassTouches(nodes, db, task, plan);
    }
  }

  lemma DecisionDescends(defs: Definitions, moves: seq<Move>, c: nat)
    requires WellDefined(defs)
    requires var w := After(defs, START, moves); c in w.calls && Outcome(defs, w.db, w.calls[c]).Ok?
    ensures var w := After(defs, START, moves);
            var i := w.db.tasks[w.calls[c].task].instance;
            var next := Outcome(defs, w.db, w.calls[c]).value;
            && i in w.db.instances && i in next.instances
            && var nodes := NodesOf(defs, w.db.instances[i].definition);
               next.instances[i].status != Running || Below(Measure(nodes, next, i), Measure(nodes, w.db, i))
  {
    ActedIsConsistent(defs, moves, c);
    var w := After(defs, START, moves);
    hide After;
    var f := w.calls[c];
    var i := w.db.tasks[f.task].instance;
    var nodes := NodesOf(defs, w.db.instances[i].definition);
    assert FlowAt(defs, w.db, i);
    DecisionProgresses(defs, w.db, f.task, f.decision, f.staff, f.plan);
    ActedKeeps(defs, w.db, f.task, f.decision, f.staff, f.plan);
    ActedTouches(nodes, w.db, f.task, f.decision, f.plan);
    hide Acted, FlowAt, PlanFor, Progress, Measure, PendingOf;
    assert FlowAt(defs, Outcome(defs, w.db, f).value, i);
    ProgressDescends(defs, w.db, Outcome(defs, w.db, f).value, i, f.task);
  }

  lemma SameMeasure(nodes: seq<Node>, db: Db, db': Db, i: nat)
    requires SameFlow(db, db', i)
    ensures Measure(nodes, db', i) == Measure(nodes, db, i)
  {
    assert forall u :: u in TasksOf(db.tasks, i) <==> u in db.tasks && db.tasks[u].instance == i;
    forall u ensures u in PendingOf(db', i) <==> u in PendingOf(db, i) {
      assert u in TasksOf(db'.tasks, i) <==> u in TasksOf(db.tasks, i);
    }
    assert PendingOf(db', i) == PendingOf(db, i);
  }

  /** A step that decides nothing on an instance leaves its rows alone, unless
      it withdraws it. */
  lemma OthersStandBy(defs: Definitions, moves: seq<Move>, m: Move, i: nat)
    requires WellDefined(defs) && i in After(defs, START, moves).db.instances
    requires !Decides(defs, After(defs, START, moves), m, i)
    ensures var w := After(defs, START, moves);
            var next := Next(defs, w, m).db;
            i in next.instances && (next.instances[i].status == Cancelled || SameFlow(w.db, next, i))
  {
    RunKeepsInv(defs, moves);
    var w := After(defs, START, moves);
    hide After, SameFlow, FlowAt, Joins, Touches;
    match m
    case Look(_, _, _, _, _, _, _) =>
      SameRows(w.db, i);
    case Commit(c) =>
      CommitStandsBy(defs, w, c, i);
    case HandIn(_, _, _, _, _, _, _, _) =>
      HandInStandsBy(defs, w, m, i);
    case TakeBack(j, actor) =>
      TakeBackStandsBy(defs, w, j, actor, i);
  }

  lemma SameRows(db: Db, i: nat)
    requires i in db.instances
    ensures SameFlow(db, db, i)
  {
  }

  lemma CommitStandsBy(defs: Definitions, w: World, c: nat, i: nat)
    requires WellDefined(defs) && Inv(defs, w) && i in w.db.instances && !Decides(defs, w, Commit(c), i)
    ensures var next := Next(defs, w, Commit(c)).db; i in next.instances && SameFlow(w.db, next, i)
  {
    SameRows(w.db, i);
    hide SameFlow, DbOk, CallsOk;
    if c in w.calls && Outcome(defs, w.db, w.calls[c]).Ok? {
      var f := w.calls[c];
      var j := w.db.tasks[f.task].instance;
      FlowOf(defs, w.db, j);
      ActedTouches(NodesOf(defs, w.db.instances[j].definition), w.db, f.task, f.decision, f.plan);
      hide Acted;
    }
  }

  lemma HandInStandsBy(defs: Definitions, w: World, m: Move, i: nat)
    requires DbOk(defs, w.db) && i in w.db.instances && m.HandIn?
    ensures var next := Next(defs, w, m).db; i in next.instances && SameFlow(w.db, next, i)
  {
    SameRows(w.db, i);
    hide SameFlow, FlowAt;
    if HandedIn(defs, w.db, m).Ok? {
      var route := RouteFor(m.bizType, NodesOf(defs, m.definition), m.staff, m.submitter, m.selfConfirm, m.bosses, m.fallback);
      hide RouteFor, RowsOk, OneRunning;
      SubmittedJoins(w.db, Instance(m.definition, m.bizType, m.bizId, m.submitter, Running, 1), route);
      hide Submitted;
    }
  }

  lemma TakeBackStandsBy(defs: Definitions, w: World, j: nat, actor: int, i: nat)
    requires DbOk(defs, w.db) && i in w.db.instances
    ensures var next := Next(defs, w, TakeBack(j, actor)).db;
            i in next.instances && (next.instances[i].status == Cancelled || SameFlow(w.db, next, i))
  {
    SameRows(w.db, i);
    assert RowsOk(w.db);
    hide SameFlow, FlowAt, RowsOk, OneRunning, DbOk, Withdrawn, Next;
    WithdrawalNext(defs, w, j, actor);
    if j in w.db.instances && Withdrawn(w.db, j, actor).Ok? {
      WithdrawalStandsBy(w.db, j, actor, i);
    }
  }

  lemma WithdrawalNext(defs: Definitions, w: World, j: nat, actor: int)
    ensures Next(defs, w, TakeBack(j, actor)).db ==
            if j in w.db.instances && Withdrawn(w.db, j, actor).Ok? then Withdrawn(w.db, j, actor).value else w.db
  {
    hide Withdrawn;
  }

  lemma WithdrawalStandsBy(db: Db, j: nat, actor: int, i: nat)
    requires RowsOk(db) && i in db.instances && j in db.instances && Withdrawn(db, j, actor).Ok?
    ensures var u := Withdrawn(db, j, actor).value;
            i in u.instances && (u.instances[i].status == Cancelled || SameFlow(db, u, i))
  {
    SameRows(db, i);
    hide SameFlow, RowsOk, Closed;
    if db.instances[j].status == Running {
      WithdrawalTouches(db, j, actor);
    }
  }

  lemma SubmittedJoins(db: Db, inst: Instance, route: Route)
    requires RowsOk(db) && OneRunning(db.instances) && inst.status == Running && Submitted(db, inst, route).Ok?
    ensures Joins(db, Submitted(db, inst, route).value, db.nextInstance)
  {
    hide RowsOk, OneRunning, Joins;
    match route
    case Refused =>
    case Straight => StraightJoins(db, inst);
    case First(node, people) => FirstJoins(db, inst, node, people);
  }

  lemma RunHasWork(defs: Definitions, moves: seq<Move>, i: nat)
    requires WellDefined(defs)
    ensures var db := After(defs, START, moves).db;
            i in db.instances && db.instances[i].status == Running ==>
              Measure(NodesOf(defs, db.instances[i].definition), db, i).1 > 0
  {
    RunKeepsInv(defs, moves);
    var db := After(defs, START, moves).db;
    hide After, Measure, FlowAt;
    if i in db.instances && db.instances[i].status == Running {
      assert FlowAt(defs, db, i);
      HasWork(defs, db, i);
    }
  }

  lemma HasWork(defs: Definitions, db: Db, i: nat)
    requires i in db.instances && db.instances[i].status == Running && FlowAt(defs, db, i)
    ensures Measure(NodesOf(defs, db.instances[i].definition), db, i).1 > 0
  {
    hide OnePlace, PlacedAt, QuorumBehind, Entered, Later, Place;
    if NoPending(TasksOf(db.tasks, i)) {
      assert false;
    } else {
      var t :| t in TasksOf(db.tasks, i) && TasksOf(db.tasks, i)[t].status == Pending;
      assert t in PendingOf(db, i);
    }
  }

  /** Progress: over every run, each committed decision on an instance ends it
      or makes its measure smaller (fewer nodes ahead, or as many and fewer open
      tasks), and every other step ends it or leaves its measure as it is. */
  lemma EveryStepDescends(defs: Definitions, moves: seq<Move>, m: Move, i: nat)
    requires WellDefined(defs) && i in After(defs, START, moves).db.instances
    ensures var w := After(defs, START, moves);
            var next := After(defs, START, moves + [m]).db;
            var nodes := NodesOf(defs, w.db.instances[i].definition);
            && i in next.instances
            && (next.instances[i].status == Running ==> Measure(nodes, next, i).1 > 0)
            && (next.instances[i].status == Running && Decides(defs, w, m, i) ==>
                  Below(Measure(nodes, next, i), Measure(nodes, w.db, i)))
            && (next.instances[i].status == Running && !Decides(defs, w, m, i) ==>
                  Measure(nodes, next, i) == Measure(nodes, w.db, i))
  {
    var w := After(defs, START, moves);
    assert (moves + [m])[..|moves|] == moves;
    RunHasWork(defs, moves + [m], i);
    hide Measure;
    if Decides(defs, w, m, i) {
      DecisionDescends(defs, moves, m.call);
    } else {
      OthersStandBy(defs, moves, m, i);
      var next := Next(defs, w, m).db;
      if next.instances[i].status == Running {
        SameMeasure(NodesOf(defs, w.db.instances[i].definition), w.db, next, i);
      }
    }
  }

  // --------------------------------------------------------- how many decisions at most

  function TasksAt(tasks: Tasks, i: nat, order: int): set<nat> {
    set u | u in tasks && tasks[u].instance == i && tasks[u].order == order
  }

  lemma Joined(tasks: Tasks, first: nat, i: nat, order: int, people: seq<int>, j: nat, o: int)
    requires forall t :: t in tasks ==> t < first
    ensures TasksAt(tasks + NewTasks(first, i, order, people), j, o) ==
            TasksAt(tasks, j, o) + if j == i && o == order then Range(first, |people|) else {}
  {
    hide NewTasks, Range;
    var all, added := tasks + NewTasks(first, i, order, people), if j == i && o == order then Range(first, |people|) else {};
    forall u ensures u in TasksAt(all, j, o) <==> u in TasksAt(tasks, j, o) || u in added {
      assert u in all <==> u in tasks || u in NewTasks(first, i, order, people);
    }
  }

  lemma ClosedAt(tasks: Tasks, i: nat, order: Option<int>, status: TaskStatus, j: nat, o: int)
    ensures TasksAt(Closed(tasks, i, order, status), j, o) == TasksAt(tasks, j, o)
  {
  }

  lemma DecidedAt(tasks: Tasks, t: nat, status: TaskStatus, j: nat, o: int)
    requires t in tasks
    ensures TasksAt(tasks[t := tasks[t].(status := status)], j, o) == TasksAt(tasks, j, o)
  {
  }

  lemma StoppedAt(db: Db, task: nat, d: Decision, j: nat, o: int)
    requires task in db.tasks && db.tasks[task].instance in db.instances
    ensures TasksAt(Stopped(db, task, d).tasks, j, o) == TasksAt(db.tasks, j, o)
  {
    hide TasksAt, Closed;
    DecidedAt(db.tasks, task, TaskStatusFor(d), j, o);
    ClosedAt(db.tasks[task := db.tasks[task].(status := TaskStatusFor(d))], db.tasks[task].instance, None, TaskCancelled, j, o);
  }

  lemma PassedAt(nodes: seq<Node>, db: Db, task: nat, j: nat, o: int)
    requires task in db.tasks && RowsOk(db)
    ensures TasksAt(PassedDb(nodes, db, task).tasks, j, o) == TasksAt(db.tasks, j, o)
    ensures PassedDb(nodes, db, task).tasks.Keys == db.tasks.Keys
  {
    hide TasksAt, IsAll;
    var t := db.tasks[task];
    DecidedAt(db.tasks, task, TaskApproved, j, o);
    ClosedAt(db.tasks[task := t.(status := TaskApproved)], t.instance, Some(t.order), Skipped, j, o);
  }

  /** A node that is through adds tasks at the one the flow advances to. */
  lemma AfterPassAt(nodes: seq<Node>, db: Db, task: nat, plan: Plan, j: nat, o: int)
    requires RowsOk(db) && task in db.tasks
    ensures TasksAt(AfterPass(nodes, db, task, plan).tasks, j, o) ==
            TasksAt(db.tasks, j, o)
            + if plan.To? && j == db.tasks[task].instance && o == plan.node.order then Range(db.nextTask, |plan.people|) else {}
  {
    var i, db2 := db.tasks[task].instance, PassedDb(nodes, db, task);
    PassedAt(nodes, db, task, j, o);
    assert db2.nextTask == db.nextTask && forall u :: u in db2.tasks ==> u < db.nextTask;
    hide TasksAt, Closed, PassedDb, Range, NewTasks;
    if plan == Nobody {
      ClosedAt(db2.tasks, i, None, TaskCancelled, j, o);
    } else {
      Joined(db2.tasks, db.nextTask, i, plan.node.order, plan.people, j, o);
    }
  }

  /** The staffing that the move goes by names at most so many people. */
  ghost predicate AsksAtMost(defs: Definitions, m: Move, most: nat) {
    match m
    case Look(_, _, _, _, staff, _, _) => forall n: Node :: |staff(n)| <= most
    case HandIn(d, bizType, _, submitter, staff, selfConfirm, bosses, fallback) =>
      var nodes := NodesOf(defs, d);
      nodes != [] ==>
        var route := RouteFor(bizType, nodes, staff, submitter, selfConfirm, bosses, fallback);
        route.First? ==> |route.people| <= most
    case _ => true
  }

  ghost predicate CrewsOk(w: World, most: nat) {
    && (forall c, n: Node :: c in w.calls ==> |w.calls[c].staff(n)| <= most)
    && (forall i, o :: |TasksAt(w.db.tasks, i, o)| <= most)
  }

  /** No node of a flow ever has more tasks than a staffing has people. */
  lemma {:induction false} CrewsAreBounded(defs: Definitions, moves: seq<Move>, most: nat)
    requires WellDefined(defs) && forall k :: 0 <= k < |moves| ==> AsksAtMost(defs, moves[k], most)
    ensures CrewsOk(After(defs, START, moves), most)
    decreases |moves|
  {
    hide TasksAt;
    if moves == [] {
      NoCrews();
    } else {
      var before, m := moves[..|moves| - 1], moves[|moves| - 1];
      CrewsAreBounded(defs, before, most);
      var w := After(defs, START, before);
      RunKeepsInv(defs, before);
      hide Inv, After, CallsOk, DbOk;
      assert AsksAtMost(defs, m, most);
      hide AsksAtMost;
      forall i, o ensures |TasksAt(Next(defs, w, m).db.tasks, i, o)| <= most {
        CrewStaysSmall(defs, w, m, most, i, o);
      }
      forall c, n: Node | c in Next(defs, w, m).calls ensures |Next(defs, w, m).calls[c].staff(n)| <= most {
        CallsStaySmall(defs, w, m, most, c, n);
      }
    }
  }

  lemma NoCrews()
    ensures forall i, o :: |TasksAt(map[], i, o)| == 0
  {
    assert forall i, o :: TasksAt(map[], i, o) == {};
  }

  lemma CallsStaySmall(defs: Definitions, w: World, m: Move, most: nat, c: nat, n: Node)
    requires CrewsOk(w, most) && AsksAtMost(defs, m, most) && c in Next(defs, w, m).calls
    ensures |Next(defs, w, m).calls[c].staff(n)| <= most
  {
    hide Outcome, HandedIn, Withdrawn, PlanFor, RouteFor, Objection;
    if c in w.calls {
      assert Next(defs, w, m).calls[c] == w.calls[c];
    } else {
      assert m.Look? && Next(defs, w, m).calls[c].staff == m.staff;
    }
  }

  lemma CrewStaysSmall(defs: Definitions, w: World, m: Move, most: nat, i: nat, o: int)
    requires WellDefined(defs) && Inv(defs, w) && CrewsOk(w, most) && AsksAtMost(defs, m, most)
    ensures |TasksAt(Next(defs, w, m).db.tasks, i, o)| <= most
  {
    hide TasksAt, AsksAtMost;
    assert |TasksAt(w.db.tasks, i, o)| <= most;
    match m
    case Look(_, _, _, _, _, _, _) =>
    case Commit(c) =>
      if c in w.calls && Outcome(defs, w.db, w.calls[c]).Ok? {
        CommitStaysSmall(defs, w, c, most, i, o);
      }
    case HandIn(_, _, _, _, _, _, _, _) =>
      HandInStaysSmall(defs, w, m, most, i, o);
    case TakeBack(j, actor) =>
      ClosedAt(w.db.tasks, j, None, TaskCancelled, i, o);
  }

  lemma CommitStaysSmall(defs: Definitions, w: World, c: nat, most: nat, i: nat, o: int)
    requires WellDefined(defs) && Inv(defs, w) && CrewsOk(w, most)
    requires c in w.calls && Outcome(defs, w.db, w.calls[c]).Ok?
    ensures |TasksAt(Outcome(defs, w.db, w.calls[c]).value.tasks, i, o)| <= most
  {
    hide TasksAt, Acted, PlanFor, DbOk;
    var f := w.calls[c];
    assert |TasksAt(w.db.tasks, i, o)| <= most;
    if f.plan.To? {
      assert |f.staff(f.plan.node)| <= most;
    }
    ActedStaysSmall(defs, w.db, f, most, i, o);
  }

  lemma ActedStaysSmall(defs: Definitions, db: Db, f: Flight, most: nat, i: nat, o: int)
    requires WellDefined(defs) && DbOk(defs, db) && f.task in db.tasks && |TasksAt(db.tasks, i, o)| <= most
    requires Planned(defs, db.instances[db.tasks[f.task].instance], db.tasks[f.task], f.decision, f.staff, f.plan)
    requires f.plan.To? ==> |f.staff(f.plan.node)| <= most
    requires Acted(NodesOf(defs, db.instances[db.tasks[f.task].instance].definition), db, f.task, f.decision, f.plan).Ok?
    ensures var nodes := NodesOf(defs, db.instances[db.tasks[f.task].instance].definition);
            |TasksAt(Acted(nodes, db, f.task, f.decision, f.plan).value.tasks, i, o)| <= most
  {
    var j := db.tasks[f.task].instance;
    var nodes := NodesOf(defs, db.instances[j].definition);
    FlowOf(defs, db, j);
    hide TasksAt, OnePlace, NodesOf, DbOk, WellDefined, Planned, NoPending, PositionOf;
    ActedCases(nodes, db, f.task, f.decision, f.plan);
    hide Acted, AfterPass, Stopped, IsAll;
    StoppedAt(db, f.task, f.decision, i, o);
    DecidedAt(db.tasks, f.task, TaskApproved, i, o);
    if f.decision == Approve {
      PassStaysSmall(defs, db, f, most, i, o);
    }
  }

  lemma PassStaysSmall(defs: Definitions, db: Db, f: Flight, most: nat, i: nat, o: int)
    requires WellDefined(defs) && DbOk(defs, db) && f.task in db.tasks && |TasksAt(db.tasks, i, o)| <= most
    requires db.tasks[f.task].status == Pending && f.decision == Approve
    requires Planned(defs, db.instances[db.tasks[f.task].instance], db.tasks[f.task], f.decision, f.staff, f.plan)
    requires PositionOf(NodesOf(defs, db.instances[db.tasks[f.task].instance].definition), db.tasks[f.task].order) >= 0
    requires f.plan.To? ==> |f.staff(f.plan.node)| <= most
    ensures var nodes := NodesOf(defs, db.instances[db.tasks[f.task].instance].definition);
            |TasksAt(AfterPass(nodes, db, f.task, f.plan).tasks, i, o)| <= most
  {
    var j := db.tasks[f.task].instance;
    var inst := db.instances[j];
    var nodes := NodesOf(defs, inst.definition);
    FlowOf(defs, db, j);
    AfterPassAt(nodes, db, f.task, f.plan, i, o);
    hide TasksAt, OnePlace, NodesOf, DbOk, WellDefined, PlanFor, Range, AfterPass, PositionOf, RowsOk;
    if f.plan.To? && i == j && o == f.plan.node.order {
      PlannedIsLater(defs, inst, db.tasks[f.task], f.decision, f.staff, f.plan);
      PlannedAsks(nodes, inst.bizType, db.tasks[f.task].order, f.staff, f.plan);
      NobodyAhead(nodes, db, f.task, f.plan.node.order);
      assert {} + Range(db.nextTask, |f.plan.people|) == Range(db.nextTask, |f.plan.people|);
    } else {
      assert TasksAt(db.tasks, i, o) + {} == TasksAt(db.tasks, i, o);
    }
  }

  lemma FlowOf(defs: Definitions, db: Db, i: nat)
    requires DbOk(defs, db) && i in db.instances
    ensures RowsOk(db) && OnePlace(NodesOf(defs, db.instances[i].definition), TasksOf(db.tasks, i))
  {
    hide OnePlace;
    assert FlowAt(defs, db, i);
  }

  lemma PlannedAsks(nodes: seq<Node>, bizType: string, order: int, staff: Staff, plan: Plan)
    requires plan.To? && plan == PlanFor(nodes, bizType, order, Approve, staff)
    ensures plan.people == staff(plan.node)
  {
  }

  lemma NobodyAhead(nodes: seq<Node>, db: Db, task: nat, order: int)
    requires task in db.tasks && db.tasks[task].status == Pending && db.tasks[task].order < order
    requires OnePlace(nodes, TasksOf(db.tasks, db.tasks[task].instance))
    ensures TasksAt(db.tasks, db.tasks[task].instance, order) == {}
  {
    hide PositionOf, Quorum;
    var ts := TasksOf(db.tasks, db.tasks[task].instance);
    OwnTask(db, task);
    assert StandsAt(nodes, ts, ts[task].order);
    forall u | u in db.tasks && db.tasks[u].instance == db.tasks[task].instance ensures db.tasks[u].order != order {
      assert ts[u] == db.tasks[u];
    }
  }

  lemma HandInStaysSmall(defs: Definitions, w: World, m: Move, most: nat, i: nat, o: int)
    requires RowsOk(w.db) && m.HandIn? && |TasksAt(w.db.tasks, i, o)| <= most && AsksAtMost(defs, m, most)
    ensures |TasksAt(Next(defs, w, m).db.tasks, i, o)| <= most
  {
    hide TasksAt, RowsOk, Submitted;
    if HandedIn(defs, w.db, m).Ok? {
      var route := RouteFor(m.bizType, NodesOf(defs, m.definition), m.staff, m.submitter, m.selfConfirm, m.bosses, m.fallback);
      hide RouteFor;
      SubmittedStaysSmall(w.db, Instance(m.definition, m.bizType, m.bizId, m.submitter, Running, 1), route, most, i, o);
    }
  }

  lemma SubmittedStaysSmall(db: Db, inst: Instance, route: Route, most: nat, i: nat, o: int)
    requires RowsOk(db) && Submitted(db, inst, route).Ok?
    requires |TasksAt(db.tasks, i, o)| <= most && (route.First? ==> |route.people| <= most)
    ensures |TasksAt(Submitted(db, inst, route).value.tasks, i, o)| <= most
  {
    var j := db.nextInstance;
    var next := Submitted(db, inst, route).value;
    if route.First? {
      assert next.tasks == db.tasks + NewTasks(db.nextTask, j, route.node.order, route.people);
      FreshStaysSmall(db, j, route.node.order, route.people, most, i, o);
    } else {
      assert next.tasks == Closed(db.tasks, j, None, TaskCancelled);
      ClosedAt(db.tasks, j, None, TaskCancelled, i, o);
    }
    hide TasksAt, NewTasks, Closed;
  }

  lemma FreshStaysSmall(db: Db, j: nat, order: int, people: seq<int>, most: nat, i: nat, o: int)
    requires RowsOk(db) && j !in db.instances && |people| <= most && |TasksAt(db.tasks, i, o)| <= most
    ensures |TasksAt(db.tasks + NewTasks(db.nextTask, j, order, people), i, o)| <= most
  {
    Joined(db.tasks, db.nextTask, j, order, people, i, o);
    assert i == j ==> TasksAt(db.tasks, i, o) == {};
    hide TasksAt, NewTasks, Range, RowsOk;
    if i == j && o == order {
      assert {} + Range(db.nextTask, |people|) == Range(db.nextTask, |people|);
    } else {
      assert TasksAt(db.tasks, i, o) + {} == TasksAt(db.tasks, i, o);
    }
  }

  /** The tasks of an instance at the given nodes. */
  function TasksAmong(tasks: Tasks, i: nat, nodes: seq<Node>): set<nat> {
    if nodes == [] then {} else TasksAt(tasks, i, nodes[0].order) + TasksAmong(tasks, i, nodes[1..])
  }

  lemma {:induction false} AmongIsSmall(tasks: Tasks, i: nat, nodes: seq<Node>, most: nat)
    requires forall o :: |TasksAt(tasks, i, o)| <= most
    ensures |TasksAmong(tasks, i, nodes)| <= |nodes| * most
  {
    hide TasksAt;
    if nodes != [] {
      AmongIsSmall(tasks, i, nodes[1..], most);
      var first, rest := TasksAt(tasks, i, nodes[0].order), TasksAmong(tasks, i, nodes[1..]);
      assert |first + rest| <= |first| + |rest|;
      assert |nodes| * most == most + (|nodes| - 1) * most;
    }
  }

  lemma {:induction false} AmongHasAll(tasks: Tasks, i: nat, nodes: seq<Node>, u: nat)
    requires u in tasks && tasks[u].instance == i && PositionOf(nodes, tasks[u].order) >= 0
    ensures u in TasksAmong(tasks, i, nodes)
  {
    if nodes[0].order != tasks[u].order {
      AmongHasAll(tasks, i, nodes[1..], u);
    }
  }

  lemma SubsetSize<T>(a: set<T>, b: set<T>)
    requires a <= b
    ensures |a| <= |b|
  {
    assert b == a + (b - a);
  }

  /** A run has a bounded number of decisions: on one instance no more commit
      than its definition has nodes, times the people that any staffing used in
      the run names. */
  lemma DecisionsAreBounded(defs: Definitions, moves: seq<Move>, i: nat, most: nat)
    requires WellDefined(defs) && forall k :: 0 <= k < |moves| ==> AsksAtMost(defs, moves[k], most)
    requires i in After(defs, START, moves).db.instances
    ensures Commits(defs, moves, i) <= |NodesOf(defs, After(defs, START, moves).db.instances[i].definition)| * most
  {
    var db := After(defs, START, moves).db;
    var nodes := NodesOf(defs, db.instances[i].definition);
    DecisionsAreConserved(defs, moves, i);
    CrewsAreBounded(defs, moves, most);
    RunKeepsInv(defs, moves);
    assert FlowAt(defs, db, i);
    hide After, Commits, TasksAt, TasksAmong, PositionOf, AsksAtMost;
    AmongIsSmall(db.tasks, i, nodes, most);
    forall u | u in DecidedOf(db, i) ensures u in TasksAmong(db.tasks, i, nodes) {
      assert TasksOf(db.tasks, i)[u] == db.tasks[u];
      AmongHasAll(db.tasks, i, nodes, u);
    }
    SubsetSize(DecidedOf(db, i), TasksAmong(db.tasks, i, nodes));
  }

  // ------------------------------------------------------------------------ routing

  /** The call put itself in flight with its look at step `k` of the run, and
      has not decided since. */
  ghost predicate LookedAt(defs: Definitions, moves: seq<Move>, k: nat, c: nat) {
    && k < |moves| && moves[k].Look? && moves[k].call == c
    && c !in After(defs, START, moves[..k]).calls
    && forall j :: k < j <= |moves| ==> c in After(defs, START, moves[..j]).calls
  }

  /** The look behind a call, with the staffing that it found. */
  lemma {:induction false} FlightHasLook(defs: Definitions, moves: seq<Move>, c: nat) returns (k: nat)
    requires WellDefined(defs) && c in After(defs, START, moves).calls
    ensures LookedAt(defs, moves, k, c)
    ensures LookHolds(After(defs, START, moves).db, After(defs, START, moves).calls[c], moves[k])
    decreases |moves|
  {
    var before, m := moves[..|moves| - 1], moves[|moves| - 1];
    var w := After(defs, START, before);
    RunRows(defs, before);
    NextEvolves(defs, w, m);
    NewFlight(defs, w, m, c);
    hide Next, LookHolds, Evolves, RowsOk, LookedAt;
    if c in w.calls {
      k := FlightHasLook(defs, before, c);
      LookStays(w.db, Next(defs, w, m).db, w.calls[c], moves[k]);
      LookedLonger(defs, moves, k, c);
    } else {
      k := |moves| - 1;
      LookedNow(defs, moves, c);
      LookStarts(defs, w, m);
    }
  }

  lemma LookedLonger(defs: Definitions, moves: seq<Move>, k: nat, c: nat)
    requires moves != [] && LookedAt(defs, moves[..|moves| - 1], k, c) && c in After(defs, START, moves).calls
    ensures LookedAt(defs, moves, k, c)
  {
    hide After;
    var before := moves[..|moves| - 1];
    assert before[..k] == moves[..k];
    forall j | k < j <= |moves| ensures c in After(defs, START, moves[..j]).calls {
      if j < |moves| {
        assert moves[..j] == before[..j];
      } else {
        assert moves[..j] == moves;
      }
    }
  }

  lemma LookedNow(defs: Definitions, moves: seq<Move>, c: nat)
    requires moves != [] && moves[|moves| - 1].Look? && moves[|moves| - 1].call == c
    requires c in After(defs, START, moves).calls && c !in After(defs, START, moves[..|moves| - 1]).calls
    ensures LookedAt(defs, moves, |moves| - 1, c)
  {
    hide After;
    assert moves[..|moves|] == moves;
  }

  /** A flight stays as it is until its commit, and is put there by its look. */
  lemma NewFlight(defs: Definitions, w: World, m: Move, c: nat)
    requires c in Next(defs, w, m).calls
    ensures c in w.calls ==> Next(defs, w, m).calls[c] == w.calls[c]
    ensures c !in w.calls ==> m.Look? && m.call == c && Next(defs, w, m) == Looked(defs, w, m)
  {
    hide Outcome, HandedIn, Withdrawn, PlanFor, Objection;
  }

  /** What a look found out still holds: the task, who may decide it, and the
      decision it stands for. */
  ghost predicate LookHolds(db: Db, f: Flight, m: Move) {
    && m.Look? && f.task == m.task && f.staff == m.staff
    && f.task in db.tasks && db.tasks[f.task].instance in db.instances
    && var t, inst := db.tasks[f.task], db.instances[db.tasks[f.task].instance];
       f.decision == Effective(inst.bizType, m.decision) && Entitled(inst, t, m.actor, m.selfConfirm, m.override)
  }

  lemma LookStays(db: Db, db': Db, f: Flight, m: Move)
    requires LookHolds(db, f, m) && Evolves(db, db')
    ensures LookHolds(db', f, m)
  {
  }

  lemma LookStarts(defs: Definitions, w: World, m: Move)
    requires m.Look? && m.call !in w.calls && m.call in Looked(defs, w, m).calls
    ensures LookHolds(w.db, Looked(defs, w, m).calls[m.call], m)
  {
    hide PlanFor, Effective;
  }

  /** Over every run, a committed decision was made by somebody entitled to it
      (the assignee or an administrator, on no document of their own), and did
      what the decision means under the staffing that its own look found. */
  lemma DecisionsFollowTheirLook(defs: Definitions, moves: seq<Move>, c: nat)
    requires WellDefined(defs)
    requires var w := After(defs, START, moves); c in w.calls && Outcome(defs, w.db, w.calls[c]).Ok?
    ensures var db, next := After(defs, START, moves).db, After(defs, START, moves + [Commit(c)]).db;
            var task := After(defs, START, moves).calls[c].task;
            && task in db.tasks && db.tasks[task].instance in db.instances
            && var t, inst := db.tasks[task], db.instances[db.tasks[task].instance];
               exists k: nat :: LookedAt(defs, moves, k, c) && moves[k].task == task
                                && Entitled(inst, t, moves[k].actor, moves[k].selfConfirm, moves[k].override)
                                && Decided(NodesOf(defs, inst.definition), db, next, task, moves[k].decision, moves[k].staff)
  {
    ActedIsConsistent(defs, moves, c);
    CommitAfter(defs, moves, c);
    var k := FlightHasLook(defs, moves, c);
    var w := After(defs, START, moves);
    var f := w.calls[c];
    var inst := w.db.instances[w.db.tasks[f.task].instance];
    RowsFit(defs, w.db);
    ActedMeans(NodesOf(defs, inst.definition), w.db, f.task, moves[k].decision, moves[k].staff);
    hide After, LookedAt, Decided, DbOk, Outcome, NodesOf, Acted, PlanFor;
  }

  lemma RowsFit(defs: Definitions, db: Db)
    requires DbOk(defs, db)
    ensures forall u :: u in db.tasks ==> u < db.nextTask
  {
    hide FlowAt;
  }

  lemma CommitAfter(defs: Definitions, moves: seq<Move>, c: nat)
    requires var w := After(defs, START, moves);
             c in w.calls && Outcome(defs, w.db, w.calls[c]).Ok? && w.calls[c].task in w.db.tasks
             && w.db.tasks[w.calls[c].task].instance in w.db.instances
    ensures var w := After(defs, START, moves);
            var f := w.calls[c];
            var nodes := NodesOf(defs, w.db.instances[w.db.tasks[f.task].instance].definition);
            var r := Acted(nodes, w.db, f.task, f.decision, f.plan);
            r.Ok? && After(defs, START, moves + [Commit(c)]).db == r.value
  {
    assert (moves + [Commit(c)])[..|moves|] == moves;
    hide Acted, NodesOf;
  }
}
