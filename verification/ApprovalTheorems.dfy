/** The approval engine as a system of concurrent calls, and its theorems over
    every run. A decision is two moves: `Look` reads the rows and plans the next
    node outside the transaction, `Commit` decides under the lock, with any
    other moves in between. */
module ApprovalTheorems {
  import opened Text
  import opened Approval
  import opened ApprovalProof
  import opened ApprovalRuns

  /** A decision on its way from its first read to its transaction, with the
      staffing that its read found. */
  datatype Flight = Flight(task: nat, decision: Decision, plan: Plan, staff: Staff)

  datatype World = World(db: Db, calls: map<nat, Flight>)

  datatype Move =
    | Look(call: nat, task: nat, actor: int, decision: Decision, staff: Staff, selfConfirm: bool, override: bool)
    | Commit(call: nat)
    | HandIn(definition: int, bizType: string, bizId: int, submitter: int, staff: Staff,
             selfConfirm: bool, bosses: seq<int>, fallback: seq<int>)
    | TakeBack(instance: nat, actor: int)

  ghost function Attempt(db: Db, r: Result<Db>): Db {
    if r.Ok? then r.value else db
  }

  ghost function Looked(defs: Definitions, w: World, m: Move): World
    requires m.Look?
  {
    if m.call in w.calls || m.task !in w.db.tasks || w.db.tasks[m.task].instance !in w.db.instances then w
    else
      var t := w.db.tasks[m.task];
      var inst := w.db.instances[t.instance];
      if Objection(inst, t, m.actor, m.selfConfirm, m.override).Some? then w
      else
        var d := Effective(inst.bizType, m.decision);
        var plan := PlanFor(NodesOf(defs, inst.definition), inst.bizType, t.order, d, m.staff);
        w.(calls := w.calls[m.call := Flight(m.task, d, plan, m.staff)])
  }

  /** What the transaction of a call makes of the tables. */
  ghost function Outcome(defs: Definitions, db: Db, f: Flight): Result<Db> {
    if f.task !in db.tasks || db.tasks[f.task].instance !in db.instances then Err(TaskNotFound)
    else Acted(NodesOf(defs, db.instances[db.tasks[f.task].instance].definition), db, f.task, f.decision, f.plan)
  }

  ghost function HandedIn(defs: Definitions, db: Db, m: Move): Result<Db>
    requires m.HandIn?
  {
    var nodes := NodesOf(defs, m.definition);
    if nodes == [] then Err(NodeMissing)
    else Submitted(db, Instance(m.definition, m.bizType, m.bizId, m.submitter, Running, 1),
                   RouteFor(m.bizType, nodes, m.staff, m.submitter, m.selfConfirm, m.bosses, m.fallback))
  }

  ghost function Next(defs: Definitions, w: World, m: Move): World {
    match m
    case Look(_, _, _, _, _, _, _) => Looked(defs, w, m)
    case Commit(c) =>
      if c !in w.calls then w else World(Attempt(w.db, Outcome(defs, w.db, w.calls[c])), w.calls - {c})
    case HandIn(_, _, _, _, _, _, _, _) => w.(db := Attempt(w.db, HandedIn(defs, w.db, m)))
    case TakeBack(i, actor) => if i !in w.db.instances then w else w.(db := Attempt(w.db, Withdrawn(w.db, i, actor)))
  }

  ghost function After(defs: Definitions, w: World, moves: seq<Move>): World
    decreases |moves|
  {
    if moves == [] then w else Next(defs, After(defs, w, moves[..|moves| - 1]), moves[|moves| - 1])
  }

  const START := World(Db(map[], map[], [], 0, 0), map[])

  // ------------------------------------------------------------ what never changes

  /** Rows only grow; a decided task and a finished instance stay as they are,
      and a finished instance gets no task and no event any more. */
  predicate Evolves(db: Db, db': Db) {
    && (forall t :: t in db.tasks ==>
          && t in db'.tasks && db'.tasks[t] == db.tasks[t].(status := db'.tasks[t].status)
          && (db.tasks[t].status != Pending ==> db'.tasks[t] == db.tasks[t]))
    && (forall i :: i in db.instances ==>
          && i in db'.instances
          && db'.instances[i] == db.instances[i].(status := db'.instances[i].status, currentSeq := db'.instances[i].currentSeq)
          && (db.instances[i].status != Running ==> db'.instances[i] == db.instances[i]))
    && |db.outbox| <= |db'.outbox| && db'.outbox[..|db.outbox|] == db.outbox
    && (forall k :: |db.outbox| <= k < |db'.outbox| ==> Open(db, db'.outbox[k].instance))
    && (forall t :: t in db'.tasks && t !in db.tasks ==> Open(db, db'.tasks[t].instance))
    && (forall t :: t in db.tasks && db'.tasks[t] != db.tasks[t] ==> Open(db, db.tasks[t].instance))
  }

  predicate Open(db: Db, i: nat) {
    i in db.instances ==> db.instances[i].status == Running
  }

  lemma EvolvesTransitive(a: Db, b: Db, c: Db)
    requires Evolves(a, b) && Evolves(b, c)
    ensures Evolves(a, c)
  {
    assert forall i :: Open(b, i) ==> Open(a, i);
    assert c.outbox[..|a.outbox|] == c.outbox[..|b.outbox|][..|a.outbox|];
    forall k | |a.outbox| <= k < |c.outbox| ensures Open(a, c.outbox[k].instance) {
      if k < |b.outbox| {
        assert c.outbox[k] == c.outbox[..|b.outbox|][k];
      }
    }
  }

  lemma DecideEvolves(db: Db, task: nat, status: TaskStatus)
    requires task in db.tasks && db.tasks[task].status == Pending && Open(db, db.tasks[task].instance)
    ensures Evolves(db, db.(tasks := db.tasks[task := db.tasks[task].(status := status)]))
  {
  }

  lemma CloseEvolves(db: Db, i: nat, order: Option<int>, status: TaskStatus)
    requires Open(db, i)
    ensures Evolves(db, db.(tasks := Closed(db.tasks, i, order, status)))
  {
  }

  lemma FinishEvolves(db: Db, i: nat, result: Status)
    requires i in db.instances && db.instances[i].status == Running
    ensures Evolves(db, FinishedDb(db, i, result))
  {
  }

  lemma AdvanceEvolves(db: Db, i: nat, node: Node, people: seq<int>)
    requires i in db.instances && db.instances[i].status == Running
    requires forall t :: t in db.tasks ==> t < db.nextTask
    ensures Evolves(db, AdvancedDb(db, i, node, people))
  {
  }

  lemma FinishedEvolves(a: Db, b: Db, i: nat, result: Status)
    requires Evolves(a, b) && i in b.instances && b.instances[i].status == Running
    ensures Evolves(a, FinishedDb(b, i, result))
  {
    hide Evolves;
    FinishEvolves(b, i, result);
    EvolvesTransitive(a, b, FinishedDb(b, i, result));
  }

  lemma AdvancedEvolves(a: Db, b: Db, i: nat, node: Node, people: seq<int>)
    requires Evolves(a, b) && i in b.instances && b.instances[i].status == Running
    requires forall t :: t in b.tasks ==> t < b.nextTask
    ensures Evolves(a, AdvancedDb(b, i, node, people))
  {
    hide Evolves;
    AdvanceEvolves(b, i, node, people);
    EvolvesTransitive(a, b, AdvancedDb(b, i, node, people));
  }

  lemma ActedEvolves(nodes: seq<Node>, db: Db, task: nat, d: Decision, plan: Plan)
    requires RowsOk(db) && task in db.tasks && Acted(nodes, db, task, d, plan).Ok?
    ensures Evolves(db, Acted(nodes, db, task, d, plan).value)
  {
    hide Evolves, PositionOf;
    var t := db.tasks[task];
    var i := t.instance;
    var db1 := db.(tasks := db.tasks[task := t.(status := TaskStatusFor(d))]);
    var db2 := db1.(tasks := Closed(db1.tasks, i, Some(t.order), Skipped));
    DecideEvolves(db, task, TaskStatusFor(d));
    CloseEvolves(db1, i, Some(t.order), Skipped);
    EvolvesTransitive(db, db1, db2);
    var last := if d == Approve && nodes[PositionOf(nodes, t.order)].mode == Any then db2 else db1;
    hide Closed, FinishedDb, AdvancedDb;
    FinishedEvolves(db, last, i, if d == Approve then Approved else if d == Return then Returned else Rejected);
    if plan.To? {
      AdvancedEvolves(db, last, i, plan.node, plan.people);
    }
  }

  lemma SubmittedEvolves(db: Db, inst: Instance, route: Route)
    requires RowsOk(db) && Submitted(db, inst, route).Ok?
    ensures Evolves(db, Submitted(db, inst, route).value)
  {
    match route
    case Refused =>
    case Straight =>
    case First(_, _) =>
  }

  lemma WithdrawnEvolves(db: Db, i: nat, actor: int)
    requires i in db.instances && Withdrawn(db, i, actor).Ok?
    ensures Evolves(db, Withdrawn(db, i, actor).value)
  {
  }

  lemma NextEvolves(defs: Definitions, w: World, m: Move)
    requires RowsOk(w.db)
    ensures Evolves(w.db, Next(defs, w, m).db)
  {
    match m
    case Look(_, _, _, _, _, _, _) =>
    case Commit(c) =>
      if c in w.calls && Outcome(defs, w.db, w.calls[c]).Ok? {
        var f := w.calls[c];
        ActedEvolves(NodesOf(defs, w.db.instances[w.db.tasks[f.task].instance].definition), w.db, f.task, f.decision, f.plan);
        hide Evolves, Acted;
      }
    case HandIn(d, bizType, bizId, submitter, staff, selfConfirm, bosses, fallback) =>
      if HandedIn(defs, w.db, m).Ok? {
        SubmittedEvolves(w.db, Instance(d, bizType, bizId, submitter, Running, 1),
                         RouteFor(bizType, NodesOf(defs, d), staff, submitter, selfConfirm, bosses, fallback));
        hide Evolves, Submitted, RouteFor;
      }
    case TakeBack(i, actor) =>
      if i in w.db.instances && Withdrawn(w.db, i, actor).Ok? {
        WithdrawnEvolves(w.db, i, actor);
        hide Evolves, Withdrawn;
      }
  }

  // ------------------------------------------------------------------ the invariant

  lemma NoRowsYet(outbox: seq<Event>, i: nat)
    requires forall k :: 0 <= k < |outbox| ==> outbox[k].instance != i
    ensures Advances(outbox, i) == [] && Finishes(outbox, i) == 0
  {
    if outbox != [] {
      NoRowsYet(outbox[..|outbox| - 1], i);
    }
  }

  /** A new instance is harmless to the others. */
  predicate Joins(db: Db, db': Db, i: nat) {
    && i !in db.instances && db'.instances.Keys == db.instances.Keys + {i}
    && (forall j :: j in db.instances ==> SameFlow(db, db', j))
    && RowsOk(db') && OneRunning(db'.instances)
  }

  lemma JoinedDbOk(defs: Definitions, db: Db, db': Db, i: nat)
    requires DbOk(defs, db) && Joins(db, db', i) && FlowAt(defs, db', i)
    ensures DbOk(defs, db')
  {
    hide FlowOk, OneRunning, RowsOk;
    forall j | j in db'.instances ensures FlowAt(defs, db', j) {
      if j != i {
        assert SameFlow(db, db', j);
        assert FlowAt(defs, db, j);
      }
    }
  }

  lemma StraightJoins(db: Db, inst: Instance)
    requires RowsOk(db) && OneRunning(db.instances) && Submitted(db, inst, Straight).Ok?
    ensures Joins(db, Submitted(db, inst, Straight).value, db.nextInstance)
  {
    var i := db.nextInstance;
    var u := Submitted(db, inst, Straight).value;
    assert RowsOk(u) && OneRunning(u.instances);
    hide RowsOk, OneRunning;
    forall j | j in db.instances ensures SameFlow(db, u, j) {
      AfterEvent(db.outbox, Finished(i, Approved), j);
      TasksAfterClose(db.tasks, i, None, TaskCancelled, j);
    }
  }

  lemma NothingAsked(nodes: seq<Node>, inst: Instance)
    requires inst.status == Approved && inst.currentSeq == 1
    ensures FlowOk(nodes, inst, map[], [], 1)
  {
  }

  lemma StraightFlow(defs: Definitions, db: Db, inst: Instance)
    requires RowsOk(db) && inst.status == Running && inst.currentSeq == 1 && Submitted(db, inst, Straight).Ok?
    ensures FlowAt(defs, Submitted(db, inst, Straight).value, db.nextInstance)
  {
    hide FlowOk, Closed;
    var i := db.nextInstance;
    NoRowsYet(db.outbox, i);
    AfterEvent(db.outbox, Finished(i, Approved), i);
    TasksAfterClose(db.tasks, i, None, TaskCancelled, i);
    assert TasksOf(db.tasks, i) == map[];
    NothingAsked(NodesOf(defs, inst.definition), inst.(status := Approved));
  }

  lemma FirstJoins(db: Db, inst: Instance, node: Node, people: seq<int>)
    requires RowsOk(db) && OneRunning(db.instances) && inst.status == Running && Submitted(db, inst, First(node, people)).Ok?
    ensures Joins(db, Submitted(db, inst, First(node, people)).value, db.nextInstance)
  {
    var i := db.nextInstance;
    var u := Submitted(db, inst, First(node, people)).value;
    assert RowsOk(u);
    assert OneRunning(u.instances);
    hide RowsOk, OneRunning;
    forall j | j in db.instances ensures SameFlow(db, u, j) {
      TasksAfterNew(db.tasks, db.nextTask, i, node.order, people, j);
    }
  }

  lemma FirstFlow(defs: Definitions, db: Db, inst: Instance, node: Node, people: seq<int>)
    requires RowsOk(db) && inst.status == Running && inst.currentSeq == 1
    requires people != [] && node in NodesOf(defs, inst.definition) && Submitted(db, inst, First(node, people)).Ok?
    ensures FlowAt(defs, Submitted(db, inst, First(node, people)).value, db.nextInstance)
  {
    hide FlowOk;
    var i := db.nextInstance;
    NoRowsYet(db.outbox, i);
    var added := NewTasks(db.nextTask, i, node.order, people);
    TasksAfterNew(db.tasks, db.nextTask, i, node.order, people, i);
    assert TasksOf(db.tasks, i) == map[];
    assert map[] + added == added;
    assert db.nextTask in added;
    StartedOk(NodesOf(defs, inst.definition), inst, node, added);
  }

  lemma SubmittedKeeps(defs: Definitions, db: Db, inst: Instance, route: Route)
    requires DbOk(defs, db) && inst.status == Running && inst.currentSeq == 1 && Submitted(db, inst, route).Ok?
    requires route.First? ==> route.people != [] && route.node in NodesOf(defs, inst.definition)
    ensures DbOk(defs, Submitted(db, inst, route).value)
  {
    hide FlowAt, RowsOk, OneRunning, Joins;
    match route
    case Refused =>
    case Straight =>
      hide Submitted;
      StraightJoins(db, inst);
      StraightFlow(defs, db, inst);
      JoinedDbOk(defs, db, Submitted(db, inst, route).value, db.nextInstance);
    case First(node, people) =>
      hide Submitted;
      FirstJoins(db, inst, node, people);
      FirstFlow(defs, db, inst, node, people);
      JoinedDbOk(defs, db, Submitted(db, inst, route).value, db.nextInstance);
  }

  lemma WithdrawalTouches(db: Db, i: nat, actor: int)
    requires RowsOk(db) && i in db.instances && Withdrawn(db, i, actor).Ok? && db.instances[i].status == Running
    ensures Touches(db, Withdrawn(db, i, actor).value, i)
  {
    var u := Withdrawn(db, i, actor).value;
    forall j | j in db.instances && j != i ensures SameFlow(db, u, j) {
      TasksAfterClose(db.tasks, i, None, TaskCancelled, j);
    }
  }

  lemma WithdrawalFlow(defs: Definitions, db: Db, i: nat, actor: int)
    requires i in db.instances && Withdrawn(db, i, actor).Ok? && db.instances[i].status == Running && FlowAt(defs, db, i)
    ensures FlowAt(defs, Withdrawn(db, i, actor).value, i)
  {
    hide FlowOk, Closed, NodesOf;
    var inst, ts := db.instances[i], TasksOf(db.tasks, i);
    TasksAfterClose(db.tasks, i, None, TaskCancelled, i);
    NothingSentYet(NodesOf(defs, inst.definition), inst, ts, Advances(db.outbox, i), Finishes(db.outbox, i));
    StoppedOk(NodesOf(defs, inst.definition), inst, ts, Close(ts, None, TaskCancelled),
              Advances(db.outbox, i), Finishes(db.outbox, i), Cancelled, 0);
  }

  lemma WithdrawnKeeps(defs: Definitions, db: Db, i: nat, actor: int)
    requires DbOk(defs, db) && i in db.instances && Withdrawn(db, i, actor).Ok?
    ensures DbOk(defs, Withdrawn(db, i, actor).value)
  {
    hide FlowAt, RowsOk, OneRunning, Touches;
    if db.instances[i].status == Running {
      WithdrawalTouches(db, i, actor);
      WithdrawalFlow(defs, db, i, actor);
      TouchedDbOk(defs, db, Withdrawn(db, i, actor).value, i);
    }
  }

  /** The plan of every call in flight was made from the rows it will decide on. */
  ghost predicate CallsOk(defs: Definitions, w: World) {
    forall c :: c in w.calls ==>
      var f := w.calls[c];
      && f.task in w.db.tasks && w.db.tasks[f.task].instance in w.db.instances
      && Planned(defs, w.db.instances[w.db.tasks[f.task].instance], w.db.tasks[f.task], f.decision, f.staff, f.plan)
  }

  /** A terminal event says how its instance ended. */
  predicate Truthful(db: Db) {
    forall k :: 0 <= k < |db.outbox| && db.outbox[k].Finished? ==>
      && db.outbox[k].instance in db.instances
      && db.instances[db.outbox[k].instance].status == db.outbox[k].result && Ended(db.outbox[k].result)
  }

  ghost predicate Inv(defs: Definitions, w: World) {
    DbOk(defs, w.db) && CallsOk(defs, w) && Truthful(w.db)
  }

  lemma NextKeepsDb(defs: Definitions, w: World, m: Move)
    requires WellDefined(defs) && DbOk(defs, w.db) && CallsOk(defs, w)
    ensures DbOk(defs, Next(defs, w, m).db)
  {
    hide DbOk, Planned, Acted, Submitted, Withdrawn;
    match m
    case Look(_, _, _, _, _, _, _) =>
    case Commit(c) =>
      if c in w.calls {
        ActedKeeps(defs, w.db, w.calls[c].task, w.calls[c].decision, w.calls[c].staff, w.calls[c].plan);
      }
    case HandIn(d, bizType, bizId, submitter, staff, selfConfirm, bosses, fallback) =>
      var inst := Instance(d, bizType, bizId, submitter, Running, 1);
      var r := HandedIn(defs, w.db, m);
      if r.Ok? {
        var route := RouteFor(bizType, NodesOf(defs, d), staff, submitter, selfConfirm, bosses, fallback);
        hide RouteFor;
        SubmittedKeeps(defs, w.db, inst, route);
      }
    case TakeBack(i, actor) =>
      if i in w.db.instances && Withdrawn(w.db, i, actor).Ok? {
        WithdrawnKeeps(defs, w.db, i, actor);
      }
  }

  lemma NextKeepsCalls(defs: Definitions, w: World, m: Move)
    requires RowsOk(w.db) && CallsOk(defs, w)
    ensures CallsOk(defs, Next(defs, w, m))
  {
    NextEvolves(defs, w, m);
    var v := Next(defs, w, m);
    forall c | c in v.calls
      ensures v.calls[c].task in v.db.tasks && v.db.tasks[v.calls[c].task].instance in v.db.instances
      ensures var f := v.calls[c];
              Planned(defs, v.db.instances[v.db.tasks[f.task].instance], v.db.tasks[f.task], f.decision, f.staff, f.plan)
    {
      CallKept(defs, w, m, c);
    }
  }

  lemma CallKept(defs: Definitions, w: World, m: Move, c: nat)
    requires CallsOk(defs, w) && Evolves(w.db, Next(defs, w, m).db) && c in Next(defs, w, m).calls
    ensures var v := Next(defs, w, m);
            var f := v.calls[c];
            && f.task in v.db.tasks && v.db.tasks[f.task].instance in v.db.instances
            && Planned(defs, v.db.instances[v.db.tasks[f.task].instance], v.db.tasks[f.task], f.decision, f.staff, f.plan)
  {
    var v := Next(defs, w, m);
    var f := v.calls[c];
    hide PlanFor, Acted, Submitted, Withdrawn, RouteFor, Objection, Effective;
    if c in w.calls {
      assert v.calls[c] == w.calls[c];
      var inst, inst' := w.db.instances[w.db.tasks[f.task].instance], v.db.instances[v.db.tasks[f.task].instance];
      assert inst'.definition == inst.definition && inst'.bizType == inst.bizType;
      assert f.plan == PlanFor(NodesOf(defs, inst.definition), inst.bizType, w.db.tasks[f.task].order, f.decision, f.staff);
    } else {
      assert m.Look? && m.call == c;
    }
  }

  // ---------------------------------------------------------- events tell the truth

  predicate SendsTruth(db: Db, db': Db) {
    forall k :: |db.outbox| <= k < |db'.outbox| && db'.outbox[k].Finished? ==>
      && db'.outbox[k].instance in db'.instances
      && db'.instances[db'.outbox[k].instance].status == db'.outbox[k].result && Ended(db'.outbox[k].result)
  }

  lemma TruthStays(db: Db, db': Db)
    requires Truthful(db) && Evolves(db, db') && SendsTruth(db, db')
    ensures Truthful(db')
  {
    forall k | 0 <= k < |db'.outbox| && db'.outbox[k].Finished?
      ensures db'.outbox[k].instance in db'.instances
      ensures db'.instances[db'.outbox[k].instance].status == db'.outbox[k].result && Ended(db'.outbox[k].result)
    {
      if k < |db.outbox| {
        assert db'.outbox[..|db.outbox|][k] == db.outbox[k];
      }
    }
  }

  lemma ActedSendsTruth(nodes: seq<Node>, db: Db, task: nat, d: Decision, plan: Plan)
    requires task in db.tasks && db.tasks[task].instance in db.instances && Acted(nodes, db, task, d, plan).Ok?
    ensures SendsTruth(db, Acted(nodes, db, task, d, plan).value)
  {
    hide Closed, PendingAt, PositionOf;
  }

  lemma NextSendsTruth(defs: Definitions, w: World, m: Move)
    ensures SendsTruth(w.db, Next(defs, w, m).db)
  {
    match m
    case Look(_, _, _, _, _, _, _) =>
    case Commit(c) =>
      if c in w.calls && Outcome(defs, w.db, w.calls[c]).Ok? {
        var f := w.calls[c];
        ActedSendsTruth(NodesOf(defs, w.db.instances[w.db.tasks[f.task].instance].definition), w.db, f.task, f.decision, f.plan);
        hide Acted, SendsTruth;
      }
    case HandIn(_, _, _, _, _, _, _, _) =>
      hide RouteFor, Closed;
    case TakeBack(i, actor) =>
  }

  // ------------------------------------------------------------------- whole runs

  /** Every reachable state keeps the invariant. */
  lemma {:induction false} RunKeepsInv(defs: Definitions, moves: seq<Move>)
    requires WellDefined(defs)
    ensures Inv(defs, After(defs, START, moves))
    decreases |moves|
  {
    if moves != [] {
      var before, m := moves[..|moves| - 1], moves[|moves| - 1];
      RunKeepsInv(defs, before);
      var w := After(defs, START, before);
      hide DbOk, CallsOk, Truthful, Next, Evolves, SendsTruth;
      assert RowsOk(w.db) by { DbRows(defs, w.db); }
      NextKeepsDb(defs, w, m);
      NextKeepsCalls(defs, w, m);
      NextEvolves(defs, w, m);
      NextSendsTruth(defs, w, m);
      TruthStays(w.db, Next(defs, w, m).db);
    }
  }

  lemma DbRows(defs: Definitions, db: Db)
    requires DbOk(defs, db)
    ensures RowsOk(db)
  {
  }

  lemma {:induction false} RunEvolves(defs: Definitions, moves: seq<Move>, more: seq<Move>)
    requires WellDefined(defs)
    ensures Evolves(After(defs, START, moves).db, After(defs, START, moves + more).db)
    decreases |more|
  {
    hide Evolves, Next, Inv;
    if more == [] {
      assert moves + more == moves;
      EvolvesSelf(After(defs, START, moves).db);
    } else {
      var all := moves + more;
      assert all[..|all| - 1] == moves + more[..|more| - 1];
      RunEvolves(defs, moves, more[..|more| - 1]);
      RunRows(defs, all[..|all| - 1]);
      var w := After(defs, START, all[..|all| - 1]);
      NextEvolves(defs, w, all[|all| - 1]);
      EvolvesTransitive(After(defs, START, moves).db, w.db, After(defs, START, all).db);
    }
  }

  lemma EvolvesSelf(db: Db)
    ensures Evolves(db, db)
  {
  }

  lemma RunRows(defs: Definitions, moves: seq<Move>)
    requires WellDefined(defs)
    ensures RowsOk(After(defs, START, moves).db)
  {
    hide After;
    RunKeepsInv(defs, moves);
  }

  lemma {:induction false} NoEventsOf(outbox: seq<Event>, n: nat, i: nat)
    requires n <= |outbox| && forall k :: n <= k < |outbox| ==> outbox[k].instance != i
    ensures Advances(outbox, i) == Advances(outbox[..n], i) && Finishes(outbox, i) == Finishes(outbox[..n], i)
    decreases |outbox|
  {
    if n == |outbox| {
      assert outbox[..n] == outbox;
    } else {
      NoEventsOf(outbox[..|outbox| - 1], n, i);
      assert outbox[..|outbox| - 1][..n] == outbox[..n];
    }
  }

  /** Finished states absorb: whatever happens later, a finished instance keeps
      its row, its tasks and its events. */
  lemma FinishedForGood(defs: Definitions, moves: seq<Move>, more: seq<Move>, i: nat)
    requires WellDefined(defs)
    requires var db := After(defs, START, moves).db; i in db.instances && db.instances[i].status != Running
    ensures SameFlow(After(defs, START, moves).db, After(defs, START, moves + more).db, i)
  {
    var db, db' := After(defs, START, moves).db, After(defs, START, moves + more).db;
    RunEvolves(defs, moves, more);
    assert !Open(db, i);
    NoEventsOf(db'.outbox, |db.outbox|, i);
  }

  /** What the rows of one instance show after any run. */
  lemma EngineSafe(defs: Definitions, moves: seq<Move>, i: nat)
    requires WellDefined(defs) && i in After(defs, START, moves).db.instances
    ensures var db := After(defs, START, moves).db;
            var inst, ts := db.instances[i], TasksOf(db.tasks, i);
            var nodes := NodesOf(defs, inst.definition);
            // open work exactly while it runs, all of it at the last node visited
            && (inst.status == Running <==> exists t :: t in ts && ts[t].status == Pending)
            && (forall t, u :: t in ts && u in ts && ts[t].status == Pending ==>
                  && ts[u].order <= ts[t].order
                  && (ts[u].status == Pending ==> ts[u].order == ts[t].order))
            // every node that was left met its quorum, however the flow stands
            // or ended, and approval means that the last one did too
            && (forall u, v :: u in ts && v in ts && ts[u].order < ts[v].order ==> Quorum(nodes, ts, ts[u].order))
            && (inst.status == Approved ==> forall u :: u in ts ==> Quorum(nodes, ts, ts[u].order))
            // the nodes with tasks are a first one and those advanced to, in
            // ascending order, with one event for each advance
            && Entered(ts, Advances(db.outbox, i))
            // one terminal event is sent when and only when the engine ends the flow
            && Finishes(db.outbox, i) == (if Ended(inst.status) then 1 else 0)
  {
    RunKeepsInv(defs, moves);
    var db := After(defs, START, moves).db;
    assert FlowAt(defs, db, i);
    var inst, ts := db.instances[i], TasksOf(db.tasks, i);
    hide PositionOf, Quorum, After, Entered;
    forall t, u | t in ts && u in ts && ts[t].status == Pending ensures ts[u].order <= ts[t].order {
      assert StandsAt(NodesOf(defs, inst.definition), ts, ts[t].order);
    }
  }

  /** The terminal event and the instance row never disagree, and no document
      has two flows in flight. */
  lemma EventsTellTheTruth(defs: Definitions, moves: seq<Move>)
    requires WellDefined(defs)
    ensures Truthful(After(defs, START, moves).db) && OneRunning(After(defs, START, moves).db.instances)
  {
    RunKeepsInv(defs, moves);
  }

  /** `current_seq` names the node being decided if and only if the flow has
      advanced once or its first staffed node carries sequence 1: `Submit`
      leaves the column at its default. */
  lemma CurrentSeqExactly(defs: Definitions, moves: seq<Move>, t: nat)
    requires WellDefined(defs)
    requires var db := After(defs, START, moves).db; t in db.tasks && db.tasks[t].status == Pending
    ensures var db := After(defs, START, moves).db;
            var i := db.tasks[t].instance;
            && i in db.instances
            && (db.instances[i].currentSeq == db.tasks[t].order <==> Advances(db.outbox, i) != [] || db.tasks[t].order == 1)
  {
    RunKeepsInv(defs, moves);
    var db := After(defs, START, moves).db;
    assert FlowAt(defs, db, db.tasks[t].instance);
    assert TasksOf(db.tasks, db.tasks[t].instance)[t] == db.tasks[t];
    hide PositionOf, Quorum, StandsAt;
  }

  // ----------------------------------------------------------------------- a witness

  const QUIET_FIRST := map[7 := [Node(70, 1, Any), Node(71, 2, Any)]]

  function OnlySecond(n: Node): seq<int> {
    if n.order == 2 then [44] else []
  }

  /** The first node has nobody to ask, so the document waits at sequence 2
      while `current_seq` says 1. */
  lemma CurrentSeqMisses()
    ensures WellDefined(QUIET_FIRST)
    ensures var db := After(QUIET_FIRST, START, [HandIn(7, "PAYMENT", 5, 9, OnlySecond, false, [], [])]).db;
            0 in db.instances && 0 in db.tasks && db.tasks[0].status == Pending && db.tasks[0].instance == 0
            && db.tasks[0].order == 2 && db.instances[0].currentSeq == 1
  {
    var m := HandIn(7, "PAYMENT", 5, 9, OnlySecond, false, [], []);
    assert [m][..|[m]| - 1] == [];
    var nodes := NodesOf(QUIET_FIRST, 7);
    assert PlanFrom(nodes, 0, OnlySecond) == PlanFrom(nodes, 1, OnlySecond) == To(nodes[1], [44]);
    assert HandedIn(QUIET_FIRST, START.db, m) == Submitted(START.db, Instance(7, "PAYMENT", 5, 9, Running, 1), First(nodes[1], [44]));
  }
}
