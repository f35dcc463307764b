/** The approval engine (services/approval): submitting a document, one
    approver's decision, and withdrawal, over the rows they read and write. */
module Approval {
  import opened Text

  datatype Mode = Any | All

  datatype Node = Node(id: int, order: int, mode: Mode)

  datatype Decision = Approve | Reject | Return

  datatype Status = Running | Approved | Rejected | Returned | Cancelled

  datatype TaskStatus = Pending | TaskApproved | TaskRejected | TaskReturned | Skipped | TaskCancelled

  datatype Task = Task(instance: nat, order: int, assignee: int, status: TaskStatus)

  datatype Instance = Instance(definition: int, bizType: string, bizId: int, submitter: int, status: Status, currentSeq: int)

  /** An outbox row of the approval aggregate. */
  datatype Event = Advanced(instance: nat, order: int) | Finished(instance: nat, result: Status)

  datatype Failure =
    | TaskNotFound | SelfApproval | NotAssignee | InstanceFinished | AlreadyActed | NodeMissing | FlowChanged
    | AlreadyRunning | NoApprover | NotSubmitter

  datatype Result<T> = Ok(value: T) | Err(error: Failure)

  datatype Db = Db(
    instances: map<nat, Instance>, tasks: map<nat, Task>, outbox: seq<Event>, nextInstance: nat, nextTask: nat)

  /** The nodes of every definition, as `ListNodes` returns them. A definition is
      never edited: saving one writes a new version. */
  type Definitions = map<int, seq<Node>>

  /** The people a node resolves to right now. */
  type Staff = Node -> seq<int>

  predicate Ordered(nodes: seq<Node>) {
    forall i, j :: 0 <= i < j < |nodes| ==> nodes[i].order < nodes[j].order
  }

  predicate WellDefined(defs: Definitions) {
    forall d :: d in defs ==> defs[d] != [] && Ordered(defs[d])
  }

  function NodesOf(defs: Definitions, d: int): seq<Node> {
    if d in defs then defs[d] else []
  }

  // ------------------------------------------------------------------- routing

  /** `indexOfSeq`: where a node stands, or -1. */
  method IndexOfSeq(nodes: seq<Node>, order: int) returns (at: int)
    ensures at == PositionOf(nodes, order)
  {
    for i := 0 to |nodes|
      invariant PositionOf(nodes[i..], order) == -1 ==> PositionOf(nodes, order) == -1
      invariant PositionOf(nodes[i..], order) >= 0 ==> PositionOf(nodes, order) == i + PositionOf(nodes[i..], order)
    {
      if nodes[i].order == order {
        return i;
      }
    }
    return -1;
  }

  function PositionOf(nodes: seq<Node>, order: int): (at: int)
    ensures -1 <= at < |nodes|
    ensures at >= 0 ==> nodes[at].order == order && forall k :: 0 <= k < at ==> nodes[k].order != order
    ensures at < 0 ==> forall k :: 0 <= k < |nodes| ==> nodes[k].order != order
  {
    if nodes == [] then -1
    else if nodes[0].order == order then 0
    else
      var r := PositionOf(nodes[1..], order);
      if r < 0 then -1 else r + 1
  }

  /** The next node and its people, or nobody. */
  datatype Plan = Nobody | To(node: Node, people: seq<int>)

  function PlanFrom(nodes: seq<Node>, from: nat, staff: Staff): (p: Plan)
    ensures match p
            case Nobody => forall k :: from <= k < |nodes| ==> staff(nodes[k]) == []
            case To(n, people) =>
              people != [] && exists k :: from <= k < |nodes| && nodes[k] == n && people == staff(n)
                                          && forall j :: from <= j < k ==> staff(nodes[j]) == []
    decreases |nodes| - from
  {
    if from >= |nodes| then Nobody
    else if staff(nodes[from]) != [] then To(nodes[from], staff(nodes[from]))
    else PlanFrom(nodes, from + 1, staff)
  }

  /** `firstStaffedNode`: the least index from `from` on with somebody to ask. */
  method FirstStaffedNode(nodes: seq<Node>, from: nat, staff: Staff) returns (p: Plan)
    ensures p == PlanFrom(nodes, from, staff)
  {
    var i := from;
    while i < |nodes|
      invariant from <= i && PlanFrom(nodes, from, staff) == PlanFrom(nodes, i, staff)
    {
      var people := staff(nodes[i]);
      if people != [] {
        return To(nodes[i], people);
      }
      i := i + 1;
    }
    return Nobody;
  }

  predicate Subsequence(rest: seq<int>, people: seq<int>) {
    || rest == []
    || (people != []
        && (Subsequence(rest, people[..|people| - 1])
            || (rest[|rest| - 1] == people[|people| - 1] && Subsequence(rest[..|rest| - 1], people[..|people| - 1]))))
  }

  /** `rest` is everybody of `people` but one person, in the same order. */
  predicate Sifts(people: seq<int>, who: int, rest: seq<int>) {
    Subsequence(rest, people) && multiset(rest) == multiset(people)[who := 0]
  }

  function Others(people: seq<int>, who: int): (rest: seq<int>)
    ensures Sifts(people, who, rest)
  {
    if people == [] then []
    else
      var before, last := Others(people[..|people| - 1], who), people[|people| - 1];
      assert people == people[..|people| - 1] + [last];
      if last == who then before else before + [last]
  }

  datatype Route = Straight | First(node: Node, people: seq<int>) | Refused

  /** Who gets the document first. A contract goes to an authorised submitter
      for a separate confirmation, else to somebody else; a purchase order
      never passes unread. `Straight` is approval for want of anybody to ask. */
  function RouteFor(bizType: string, nodes: seq<Node>, staff: Staff, submitter: int,
                    selfConfirm: bool, bosses: seq<int>, fallback: seq<int>): (r: Route)
    requires nodes != []
    ensures r.First? ==> r.people != [] && r.node in nodes
  {
    var p := PlanFrom(nodes, 0, staff);
    var people := if p.To? then p.people else [];
    if bizType == "CONTRACT" then
      if selfConfirm then First(nodes[0], if submitter in people then people else people + [submitter])
      else if Others(people, submitter) != [] then First(p.node, Others(people, submitter))
      else if Others(bosses, submitter) != [] then First(nodes[0], Others(bosses, submitter))
      else Refused
    else if p.To? then First(p.node, p.people)
    else if bizType == "PURCHASE_ORDER" then
      if fallback != [] then First(nodes[0], fallback) else Refused
    else Straight
  }

  // ---------------------------------------------------------- statements on rows

  predicate PendingAt(t: Task, i: nat, order: int) {
    t.instance == i && t.order == order && t.status == Pending
  }

  function PendingOf(db: Db, i: nat): set<nat> {
    set t | t in db.tasks && db.tasks[t].instance == i && db.tasks[t].status == Pending
  }

  /** Closes the pending tasks of an instance, all of them or those at a node. */
  function Closed(tasks: map<nat, Task>, i: nat, order: Option<int>, status: TaskStatus): map<nat, Task> {
    map t | t in tasks ::
      if tasks[t].instance == i && tasks[t].status == Pending && (order == None || order == Some(tasks[t].order))
      then tasks[t].(status := status) else tasks[t]
  }

  function NewTasks(first: nat, i: nat, order: int, people: seq<int>): (ts: map<nat, Task>)
    ensures forall t :: t in ts <==> first <= t < first + |people|
    ensures forall t :: t in ts ==> ts[t] == Task(i, order, people[t - first], Pending)
  {
    if people == [] then map[]
    else
      var n := |people| - 1;
      NewTasks(first, i, order, people[..n])[first + n := Task(i, order, people[n], Pending)]
  }

  lemma NoNewTasks(tasks: map<nat, Task>, first: nat, i: nat, order: int, people: seq<int>)
    ensures tasks == tasks + NewTasks(first, i, order, people[..0])
  {
  }

  lemma OneMoreTask(tasks: map<nat, Task>, first: nat, i: nat, order: int, people: seq<int>, k: nat)
    requires k < |people|
    ensures tasks + NewTasks(first, i, order, people[..k + 1]) ==
            (tasks + NewTasks(first, i, order, people[..k]))[first + k := Task(i, order, people[k], Pending)]
  {
    assert people[..k + 1][..k] == people[..k];
  }

  function TaskStatusFor(d: Decision): TaskStatus {
    match d case Approve => TaskApproved case Reject => TaskRejected case Return => TaskReturned
  }

  function FinishedDb(db: Db, i: nat, result: Status): Db
    requires i in db.instances
  {
    db.(tasks := Closed(db.tasks, i, None, TaskCancelled),
        instances := db.instances[i := db.instances[i].(status := result)],
        outbox := db.outbox + [Finished(i, result)])
  }

  function AdvancedDb(db: Db, i: nat, node: Node, people: seq<int>): Db
    requires i in db.instances
  {
    db.(instances := db.instances[i := db.instances[i].(currentSeq := node.order)],
        tasks := db.tasks + NewTasks(db.nextTask, i, node.order, people),
        nextTask := db.nextTask + |people|,
        outbox := db.outbox + [Advanced(i, node.order)])
  }

  /** The transaction of `Act`: the decision recorded, and then the end of the
      flow, a wait for colleagues, or the next node. */
  function Acted(nodes: seq<Node>, db: Db, task: nat, d: Decision, plan: Plan): Result<Db>
    requires task in db.tasks && db.tasks[task].instance in db.instances
  {
    var t := db.tasks[task];
    var i := t.instance;
    if db.instances[i].status != Running then Err(InstanceFinished)
    else if t.status != Pending then Err(AlreadyActed)
    else
      var db1 := db.(tasks := db.tasks[task := t.(status := TaskStatusFor(d))]);
      if d != Approve then Ok(FinishedDb(db1, i, if d == Return then Returned else Rejected))
      else
        var at := PositionOf(nodes, t.order);
        if at < 0 then Err(NodeMissing)
        else if nodes[at].mode == All && (exists u :: u in db1.tasks && PendingAt(db1.tasks[u], i, t.order)) then Ok(db1)
        else
          var db2 := if nodes[at].mode == All then db1
                     else db1.(tasks := Closed(db1.tasks, i, Some(t.order), Skipped));
          if plan == Nobody then Ok(FinishedDb(db2, i, Approved))
          else
            var next := PositionOf(nodes, plan.node.order);
            if next < 0 || nodes[next].id != plan.node.id then Err(FlowChanged)
            else Ok(AdvancedDb(db2, i, plan.node, plan.people))
  }

  /** A contract is never rejected outright: it goes back for edits. */
  function Effective(bizType: string, d: Decision): Decision {
    if bizType == "CONTRACT" && d == Reject then Return else d
  }

  /** What `Act` works out before its transaction. */
  function PlanFor(nodes: seq<Node>, bizType: string, order: int, d: Decision, staff: Staff): Plan {
    if d == Approve && bizType != "CONTRACT" then PlanFrom(nodes, PositionOf(nodes, order) + 1, staff) else Nobody
  }

  /** Why an actor may not decide a task, if so. `selfConfirm` and `override`
      are the role lookups. */
  function Objection(inst: Instance, t: Task, actor: int, selfConfirm: bool, override: bool): Option<Failure> {
    if inst.bizType == "TRAVEL_REIMBURSEMENT" && actor == inst.submitter then Some(SelfApproval)
    else if inst.bizType == "CONTRACT" && actor == inst.submitter && !selfConfirm then Some(SelfApproval)
    else if t.assignee != actor && !override then Some(NotAssignee)
    else None
  }

  function Submitted(db: Db, inst: Instance, route: Route): Result<Db> {
    if route == Refused then Err(NoApprover)
    else if exists k :: k in db.instances && db.instances[k].status == Running
                        && db.instances[k].bizType == inst.bizType && db.instances[k].bizId == inst.bizId then Err(AlreadyRunning)
    else
      var i := db.nextInstance;
      var db1 := db.(instances := db.instances[i := inst], nextInstance := i + 1);
      match route
      case Straight => Ok(FinishedDb(db1, i, Approved))
      case First(node, people) =>
        Ok(db1.(tasks := db1.tasks + NewTasks(db1.nextTask, i, node.order, people), nextTask := db1.nextTask + |people|))
  }

  function Withdrawn(db: Db, i: nat, actor: int): Result<Db>
    requires i in db.instances
  {
    if db.instances[i].submitter != actor then Err(NotSubmitter)
    else if db.instances[i].status == Cancelled then Ok(db)
    else if db.instances[i].status != Running then Err(InstanceFinished)
    else Ok(db.(tasks := Closed(db.tasks, i, None, TaskCancelled),
                instances := db.instances[i := db.instances[i].(status := Cancelled)]))
  }

  // ------------------------------------------------- what these mean, row by row

  /** Nobody decides on their own travel expenses, and on their own contract only
      somebody who may confirm contracts. */
  predicate OwnDocument(inst: Instance, actor: int, selfConfirm: bool) {
    actor == inst.submitter && (inst.bizType == "TRAVEL_REIMBURSEMENT" || (inst.bizType == "CONTRACT" && !selfConfirm))
  }

  /** Who may decide a task: its assignee or an administrator, but not on a
      document of their own. */
  predicate Entitled(inst: Instance, t: Task, actor: int, selfConfirm: bool, override: bool) {
    (actor == t.assignee || override) && !OwnDocument(inst, actor, selfConfirm)
  }

  /** The numbers that `n` new tasks get. */
  function Range(first: nat, n: nat): (r: set<nat>)
    ensures forall u :: u in r <==> first <= u < first + n
    ensures |r| == n
  {
    if n == 0 then {} else Range(first, n - 1) + {first + n - 1}
  }

  /** The first node from an index on that has somebody to ask. */
  predicate NextStaffed(nodes: seq<Node>, from: nat, k: nat, staff: Staff) {
    from <= k < |nodes| && staff(nodes[k]) != [] && forall j :: from <= j < k ==> staff(nodes[j]) == []
  }

  predicate NobodyFrom(nodes: seq<Node>, from: nat, staff: Staff) {
    forall k :: from <= k < |nodes| ==> staff(nodes[k]) == []
  }

  predicate AskedFrom(tasks: map<nat, Task>, first: nat, i: nat, order: int, people: seq<int>) {
    forall u :: first <= u < first + |people| ==>
      u in tasks && tasks[u] == Task(i, order, people[u - first], Pending)
  }

  /** The flow has moved to a node, and exactly the given people are asked, one
      task each, in their order. */
  predicate Asks(db: Db, db': Db, i: nat, order: int, people: seq<int>)
    requires i in db.instances
  {
    && db'.instances == db.instances[i := db.instances[i].(currentSeq := order)]
    && db'.outbox == db.outbox + [Advanced(i, order)]
    && db'.tasks.Keys == db.tasks.Keys + Range(db.nextTask, |people|)
    && AskedFrom(db'.tasks, db.nextTask, i, order, people)
    && db'.nextTask == db.nextTask + |people| && db'.nextInstance == db.nextInstance
  }

  /** The flow has ended, with the event that says so, and nobody is asked. */
  predicate Ends(db: Db, db': Db, i: nat, result: Status)
    requires i in db.instances
  {
    && db'.instances == db.instances[i := db.instances[i].(status := result)]
    && db'.outbox == db.outbox + [Finished(i, result)]
    && db'.tasks.Keys == db.tasks.Keys && db'.nextTask == db.nextTask && db'.nextInstance == db.nextInstance
  }

  /** What became of the tasks there were: the decided one carries its decision,
      an open one at a node that is through is skipped, any other open one of the
      flow is cancelled when the flow ends, and nothing else changes. */
  predicate Settles(db: Db, db': Db, task: nat, mine: TaskStatus, through: Option<int>, ends: bool)
    requires task in db.tasks
  {
    var i := db.tasks[task].instance;
    forall u :: u in db.tasks ==>
      && u in db'.tasks
      && var was := db.tasks[u];
         db'.tasks[u] ==
         if u == task then was.(status := mine)
         else if was.instance != i || was.status != Pending then was
         else if through == Some(was.order) then was.(status := Skipped)
         else if ends then was.(status := TaskCancelled)
         else was
  }

  /** A node of the flow, the first with its sequence number. */
  predicate StandsFor(nodes: seq<Node>, at: nat, order: int) {
    at < |nodes| && nodes[at].order == order && forall k :: 0 <= k < at ==> nodes[k].order != order
  }

  predicate Unknown(nodes: seq<Node>, order: int) {
    forall k :: 0 <= k < |nodes| ==> nodes[k].order != order
  }

  /** All must decide, and a colleague has not yet. */
  predicate Waits(db: Db, task: nat, mode: Mode)
    requires task in db.tasks
  {
    mode == All && exists u :: u in db.tasks && u != task && PendingAt(db.tasks[u], db.tasks[task].instance, db.tasks[task].order)
  }

  /** Where an approval leads under a staffing: nowhere while colleagues must
      still decide; else, outside contracts, to the first later node with somebody
      to ask; else, and only when there is none, to the end. */
  ghost predicate Passes(nodes: seq<Node>, db: Db, db': Db, task: nat, at: nat, staff: Staff)
    requires task in db.tasks && db.tasks[task].instance in db.instances && at < |nodes|
  {
    var t := db.tasks[task];
    var i := t.instance;
    var through := if nodes[at].mode == Any then Some(t.order) else None;
    if Waits(db, task, nodes[at].mode) then db' == db.(tasks := db.tasks[task := t.(status := TaskApproved)])
    else if db.instances[i].bizType == "CONTRACT" || NobodyFrom(nodes, at + 1, staff) then
      Ends(db, db', i, Approved) && Settles(db, db', task, TaskApproved, through, true)
    else
      && Settles(db, db', task, TaskApproved, through, false)
      && exists k: nat :: NextStaffed(nodes, at + 1, k, staff) && Asks(db, db', i, nodes[k].order, staff(nodes[k]))
  }

  /** What a decision makes of the tables. A contract is never rejected, only
      sent back. */
  ghost predicate Decided(nodes: seq<Node>, db: Db, db': Db, task: nat, decision: Decision, staff: Staff)
    requires task in db.tasks && db.tasks[task].instance in db.instances
  {
    var i := db.tasks[task].instance;
    if decision == Approve then
      exists at: nat :: StandsFor(nodes, at, db.tasks[task].order) && Passes(nodes, db, db', task, at, staff)
    else if decision == Return || db.instances[i].bizType == "CONTRACT" then
      Ends(db, db', i, Returned) && Settles(db, db', task, TaskReturned, None, true)
    else
      Ends(db, db', i, Rejected) && Settles(db, db', task, TaskRejected, None, true)
  }

  /** What the first staffed node has found: a node, or nobody anywhere. */
  predicate Found(nodes: seq<Node>, staff: Staff, found: Option<nat>) {
    match found
    case None => NobodyFrom(nodes, 0, staff)
    case Some(k) => NextStaffed(nodes, 0, k, staff)
  }

  /** The first node and its people, document by document. A contract goes to an
      authorised submitter together with whoever was found, else to whoever was
      found without the submitter, else to the bosses without the submitter; a
      purchase order goes to whoever was found, else to the fallback; any other
      document to whoever was found. */
  ghost predicate FirstAsked(bizType: string, nodes: seq<Node>, staff: Staff, submitter: int, selfConfirm: bool,
                             bosses: seq<int>, fallback: seq<int>, found: Option<nat>, node: Node, people: seq<int>)
    requires nodes != [] && Found(nodes, staff, found)
  {
    var theirs := if found.Some? then staff(nodes[found.value]) else [];
    && people != []
    && if bizType == "CONTRACT" && selfConfirm then
         node == nodes[0] && people == if submitter in theirs then theirs else theirs + [submitter]
       else if bizType == "CONTRACT" then
         if OnlyHim(theirs, submitter) then node == nodes[0] && Sifts(bosses, submitter, people)
         else found.Some? && node == nodes[found.value] && Sifts(theirs, submitter, people)
       else if found.Some? then node == nodes[found.value] && people == theirs
       else bizType == "PURCHASE_ORDER" && node == nodes[0] && people == fallback
  }

  predicate OnlyHim(people: seq<int>, who: int) {
    forall i :: 0 <= i < |people| ==> people[i] == who
  }

  /** Nobody may take the document, which must not pass unread. */
  predicate NobodyToAsk(bizType: string, nodes: seq<Node>, staff: Staff, submitter: int, selfConfirm: bool,
                        bosses: seq<int>, fallback: seq<int>, found: Option<nat>)
    requires Found(nodes, staff, found)
  {
    || (bizType == "CONTRACT" && !selfConfirm && OnlyHim(bosses, submitter)
        && (found.Some? ==> OnlyHim(staff(nodes[found.value]), submitter)))
    || (bizType == "PURCHASE_ORDER" && found.None? && fallback == [])
  }

  lemma SiftedEmpty(people: seq<int>, who: int, rest: seq<int>)
    requires Sifts(people, who, rest)
    ensures rest == [] <==> OnlyHim(people, who)
  {
    if rest != [] {
      assert rest[0] in multiset(people)[who := 0];
      assert rest[0] in people;
    } else {
      forall i | 0 <= i < |people| ensures people[i] == who {
        assert multiset(people)[people[i]] > 0;
        assert multiset(rest)[people[i]] == 0;
      }
    }
  }

  predicate RunsAlready(instances: map<nat, Instance>, bizType: string, bizId: int) {
    exists k :: k in instances && instances[k].status == Running && instances[k].bizType == bizType && instances[k].bizId == bizId
  }

  /** A route is refused, or leads to the first people to ask, or, only when
      nobody was found and the document is of no special kind, to approval. */
  ghost predicate RouteOk(bizType: string, nodes: seq<Node>, staff: Staff, submitter: int, selfConfirm: bool,
                          bosses: seq<int>, fallback: seq<int>, found: Option<nat>, route: Route)
    requires nodes != [] && Found(nodes, staff, found)
  {
    match route
    case Refused => NobodyToAsk(bizType, nodes, staff, submitter, selfConfirm, bosses, fallback, found)
    case Straight => found == None && bizType != "CONTRACT" && bizType != "PURCHASE_ORDER"
    case First(node, people) =>
      && !NobodyToAsk(bizType, nodes, staff, submitter, selfConfirm, bosses, fallback, found)
      && !(found == None && bizType != "CONTRACT" && bizType != "PURCHASE_ORDER")
      && FirstAsked(bizType, nodes, staff, submitter, selfConfirm, bosses, fallback, found, node, people)
  }

  lemma RouteMeans(bizType: string, nodes: seq<Node>, staff: Staff, submitter: int, selfConfirm: bool,
                   bosses: seq<int>, fallback: seq<int>)
    requires nodes != []
    ensures exists found :: Found(nodes, staff, found) &&
              RouteOk(bizType, nodes, staff, submitter, selfConfirm, bosses, fallback, found,
                      RouteFor(bizType, nodes, staff, submitter, selfConfirm, bosses, fallback))
  {
    hide PlanFrom, Others, Sifts;
    PlannedMeans(nodes, 0, staff);
    var p := PlanFrom(nodes, 0, staff);
    var theirs := if p.To? then p.people else [];
    SiftedEmpty(theirs, submitter, Others(theirs, submitter));
    SiftedEmpty(bosses, submitter, Others(bosses, submitter));
    var found: Option<nat>;
    if p.To? {
      var k: nat :| NextStaffed(nodes, 0, k, staff) && nodes[k] == p.node && staff(nodes[k]) == p.people;
      found := Some(k);
    } else {
      found := None;
    }
    assert Found(nodes, staff, found) && theirs == if found.Some? then staff(nodes[found.value]) else [];
  }

  /** The flow is there and its first people are asked. */
  predicate Opens(db: Db, db': Db, inst: Instance, order: int, people: seq<int>) {
    && db'.instances == db.instances[db.nextInstance := inst] && db'.outbox == db.outbox
    && db'.tasks.Keys == db.tasks.Keys + Range(db.nextTask, |people|)
    && AskedFrom(db'.tasks, db.nextTask, db.nextInstance, order, people)
    && db'.nextTask == db.nextTask + |people|
  }

  /** The flow is there, approved already, and nobody is asked. */
  predicate OpensApproved(db: Db, db': Db, inst: Instance) {
    && db'.instances == db.instances[db.nextInstance := inst.(status := Approved)]
    && db'.outbox == db.outbox + [Finished(db.nextInstance, Approved)]
    && db'.tasks.Keys == db.tasks.Keys && db'.nextTask == db.nextTask
  }

  /** A new flow leaves the rows of the others alone. */
  predicate Joined(db: Db, db': Db) {
    && db'.nextInstance == db.nextInstance + 1
    && forall t :: t in db.tasks && db.tasks[t].instance != db.nextInstance ==> t in db'.tasks && db'.tasks[t] == db.tasks[t]
  }

  /** What a submission that succeeds makes of the tables: a running flow whose
      first people are asked, or an approved one that nobody could be asked about. */
  ghost predicate Enters(db: Db, db': Db, inst: Instance, nodes: seq<Node>, staff: Staff, selfConfirm: bool,
                         bosses: seq<int>, fallback: seq<int>, found: Option<nat>)
    requires nodes != [] && Found(nodes, staff, found)
  {
    && Joined(db, db')
    && if found == None && inst.bizType != "CONTRACT" && inst.bizType != "PURCHASE_ORDER" then OpensApproved(db, db', inst)
       else
         exists node, people :: FirstAsked(inst.bizType, nodes, staff, inst.submitter, selfConfirm, bosses, fallback, found, node, people)
                                && Opens(db, db', inst, node.order, people)
  }

  lemma FirstMeans(db: Db, inst: Instance, node: Node, people: seq<int>)
    requires Submitted(db, inst, First(node, people)).Ok? && forall t :: t in db.tasks ==> t < db.nextTask
    ensures var next := Submitted(db, inst, First(node, people)).value;
            Joined(db, next) && Opens(db, next, inst, node.order, people)
  {
    AddedKeys(db.tasks, db.nextTask, db.nextInstance, node.order, people);
    AddedRows(db.tasks, db.nextTask, db.nextInstance, node.order, people);
    hide NewTasks, Range, AskedFrom;
    assert forall t :: t in db.tasks ==> t !in NewTasks(db.nextTask, db.nextInstance, node.order, people);
  }

  lemma StraightMeans(db: Db, inst: Instance)
    requires Submitted(db, inst, Straight).Ok?
    ensures var next := Submitted(db, inst, Straight).value;
            Joined(db, next) && OpensApproved(db, next, inst)
  {
  }

  lemma SubmittedMeans(db: Db, inst: Instance, nodes: seq<Node>, staff: Staff, selfConfirm: bool, bosses: seq<int>, fallback: seq<int>)
    requires nodes != [] && forall t :: t in db.tasks ==> t < db.nextTask
    ensures var r := Submitted(db, inst, RouteFor(inst.bizType, nodes, staff, inst.submitter, selfConfirm, bosses, fallback));
            exists found :: Found(nodes, staff, found) && SubmissionOk(db, inst, nodes, staff, selfConfirm, bosses, fallback, found, r)
  {
    RouteMeans(inst.bizType, nodes, staff, inst.submitter, selfConfirm, bosses, fallback);
    var route := RouteFor(inst.bizType, nodes, staff, inst.submitter, selfConfirm, bosses, fallback);
    var found :| Found(nodes, staff, found)
                 && RouteOk(inst.bizType, nodes, staff, inst.submitter, selfConfirm, bosses, fallback, found, route);
    hide RouteFor, RouteOk, SubmissionOk, Found, Submitted;
    RoutedMeans(db, inst, nodes, staff, selfConfirm, bosses, fallback, found, route);
  }

  lemma RoutedMeans(db: Db, inst: Instance, nodes: seq<Node>, staff: Staff, selfConfirm: bool, bosses: seq<int>,
                    fallback: seq<int>, found: Option<nat>, route: Route)
    requires nodes != [] && Found(nodes, staff, found) && forall t :: t in db.tasks ==> t < db.nextTask
    requires RouteOk(inst.bizType, nodes, staff, inst.submitter, selfConfirm, bosses, fallback, found, route)
    ensures SubmissionOk(db, inst, nodes, staff, selfConfirm, bosses, fallback, found, Submitted(db, inst, route))
  {
    hide FirstAsked, Joined, Opens, OpensApproved, Found, NobodyToAsk;
    var r := Submitted(db, inst, route);
    assert r == Err(NoApprover) <==> route == Refused;
    assert r == Err(AlreadyRunning) <==> route != Refused && RunsAlready(db.instances, inst.bizType, inst.bizId);
    assert route == Straight ==> !NobodyToAsk(inst.bizType, nodes, staff, inst.submitter, selfConfirm, bosses, fallback, found) by {
      NothingRefused(inst.bizType, nodes, staff, inst.submitter, selfConfirm, bosses, fallback, found);
    }
    if r.Ok? {
      match route
      case First(node, people) => FirstMeans(db, inst, node, people);
      case _ => StraightMeans(db, inst);
    }
    hide Submitted;
  }

  lemma NothingRefused(bizType: string, nodes: seq<Node>, staff: Staff, submitter: int, selfConfirm: bool,
                       bosses: seq<int>, fallback: seq<int>, found: Option<nat>)
    requires Found(nodes, staff, found)
    ensures bizType != "CONTRACT" && bizType != "PURCHASE_ORDER" ==>
              !NobodyToAsk(bizType, nodes, staff, submitter, selfConfirm, bosses, fallback, found)
  {
  }

  /** Each refusal of a submission under its own guard, and what success means. */
  ghost predicate SubmissionOk(db: Db, inst: Instance, nodes: seq<Node>, staff: Staff, selfConfirm: bool,
                               bosses: seq<int>, fallback: seq<int>, found: Option<nat>, r: Result<Db>)
    requires nodes != [] && Found(nodes, staff, found)
  {
    var refused := NobodyToAsk(inst.bizType, nodes, staff, inst.submitter, selfConfirm, bosses, fallback, found);
    && (r == Err(NoApprover) <==> refused)
    && (r == Err(AlreadyRunning) <==> !refused && RunsAlready(db.instances, inst.bizType, inst.bizId))
    && (r.Err? ==> r.error in {NoApprover, AlreadyRunning})
    && (r.Ok? ==> Enters(db, r.value, inst, nodes, staff, selfConfirm, bosses, fallback, found))
  }

  lemma FinishedMeans(db: Db, tasks: map<nat, Task>, i: nat, result: Status)
    requires i in db.instances && tasks.Keys == db.tasks.Keys
    ensures Ends(db, FinishedDb(db.(tasks := tasks), i, result), i, result)
  {
  }

  lemma AddedKeys(tasks: map<nat, Task>, first: nat, i: nat, order: int, people: seq<int>)
    ensures (tasks + NewTasks(first, i, order, people)).Keys == tasks.Keys + Range(first, |people|)
  {
    hide NewTasks, Range;
    assert NewTasks(first, i, order, people).Keys == Range(first, |people|);
  }

  lemma AddedRows(tasks: map<nat, Task>, first: nat, i: nat, order: int, people: seq<int>)
    ensures AskedFrom(tasks + NewTasks(first, i, order, people), first, i, order, people)
  {
    hide NewTasks;
  }

  lemma AdvancedMeans(db: Db, tasks: map<nat, Task>, i: nat, node: Node, people: seq<int>)
    requires i in db.instances && tasks.Keys == db.tasks.Keys
    ensures Asks(db, AdvancedDb(db.(tasks := tasks), i, node, people), i, node.order, people)
  {
    AddedKeys(tasks, db.nextTask, i, node.order, people);
    AddedRows(tasks, db.nextTask, i, node.order, people);
    hide NewTasks, Range, AskedFrom;
  }

  lemma PlannedMeans(nodes: seq<Node>, from: nat, staff: Staff)
    ensures match PlanFrom(nodes, from, staff)
            case Nobody => NobodyFrom(nodes, from, staff)
            case To(n, people) => !NobodyFrom(nodes, from, staff)
                                  && exists k: nat :: NextStaffed(nodes, from, k, staff) && nodes[k] == n && staff(nodes[k]) == people
  {
    var plan := PlanFrom(nodes, from, staff);
    if plan.To? {
      var k: nat :| from <= k < |nodes| && nodes[k] == plan.node && plan.people == staff(nodes[k])
                    && forall j :: from <= j < k ==> staff(nodes[j]) == [];
      assert NextStaffed(nodes, from, k, staff);
    }
  }

  lemma StopMeans(db: Db, task: nat, mine: TaskStatus, result: Status)
    requires task in db.tasks && db.tasks[task].instance in db.instances && db.tasks[task].status == Pending && mine != Pending
    ensures var i := db.tasks[task].instance;
            var next := FinishedDb(db.(tasks := db.tasks[task := db.tasks[task].(status := mine)]), i, result);
            Ends(db, next, i, result) && Settles(db, next, task, mine, None, true)
  {
    FinishedMeans(db, db.tasks[task := db.tasks[task].(status := mine)], db.tasks[task].instance, result);
  }

  /** The tables once the node of an approved task is through. */
  function Passed(db: Db, task: nat, mode: Mode): Db
    requires task in db.tasks
  {
    var t := db.tasks[task];
    var db1 := db.(tasks := db.tasks[task := t.(status := TaskApproved)]);
    if mode == All then db1 else db1.(tasks := Closed(db1.tasks, t.instance, Some(t.order), Skipped))
  }

  lemma PassedMeans(db: Db, task: nat, mode: Mode)
    requires task in db.tasks
    ensures Passed(db, task, mode).tasks.Keys == db.tasks.Keys && Passed(db, task, mode) == db.(tasks := Passed(db, task, mode).tasks)
    ensures Settles(db, Passed(db, task, mode), task, TaskApproved, if mode == Any then Some(db.tasks[task].order) else None, false)
  {
  }

  lemma SettledThenEnded(db: Db, db2: Db, task: nat, mine: TaskStatus, through: Option<int>, result: Status)
    requires task in db.tasks && db.tasks[task].instance in db2.instances && mine != Pending
    requires db2.tasks.Keys == db.tasks.Keys && Settles(db, db2, task, mine, through, false)
    ensures Settles(db, FinishedDb(db2, db.tasks[task].instance, result), task, mine, through, true)
  {
  }

  lemma SettledThenAsked(db: Db, db2: Db, task: nat, mine: TaskStatus, through: Option<int>, node: Node, people: seq<int>)
    requires task in db.tasks && db.tasks[task].instance in db2.instances
    requires forall u :: u in db.tasks ==> u < db2.nextTask
    requires db2.tasks.Keys == db.tasks.Keys && Settles(db, db2, task, mine, through, false)
    ensures Settles(db, AdvancedDb(db2, db.tasks[task].instance, node, people), task, mine, through, false)
  {
    hide NewTasks;
    forall u | u in db.tasks
      ensures u in AdvancedDb(db2, db.tasks[task].instance, node, people).tasks
      ensures AdvancedDb(db2, db.tasks[task].instance, node, people).tasks[u] == db2.tasks[u]
    {
      assert u !in NewTasks(db2.nextTask, db.tasks[task].instance, node.order, people);
    }
  }

  lemma PassMeans(nodes: seq<Node>, db: Db, task: nat, at: nat, staff: Staff, plan: Plan)
    requires forall u :: u in db.tasks ==> u < db.nextTask
    requires task in db.tasks && db.tasks[task].instance in db.instances
    requires at < |nodes| && !Waits(db, task, nodes[at].mode)
    requires plan == if db.instances[db.tasks[task].instance].bizType == "CONTRACT" then Nobody else PlanFrom(nodes, at + 1, staff)
    ensures var i, db2 := db.tasks[task].instance, Passed(db, task, nodes[at].mode);
            Passes(nodes, db, if plan == Nobody then FinishedDb(db2, i, Approved) else AdvancedDb(db2, i, plan.node, plan.people), task, at, staff)
  {
    hide Passed, PlanFrom, Settles, Asks, Ends, FinishedDb, AdvancedDb, NobodyFrom, NextStaffed;
    var t := db.tasks[task];
    var i, db2, through := t.instance, Passed(db, task, nodes[at].mode), if nodes[at].mode == Any then Some(t.order) else None;
    PassedMeans(db, task, nodes[at].mode);
    PlannedMeans(nodes, at + 1, staff);
    if plan == Nobody {
      FinishedMeans(db, db2.tasks, i, Approved);
      SettledThenEnded(db, db2, task, TaskApproved, through, Approved);
    } else {
      AdvancedMeans(db, db2.tasks, i, plan.node, plan.people);
      SettledThenAsked(db, db2, task, TaskApproved, through, plan.node, plan.people);
    }
  }

  lemma WaitsMeans(db: Db, task: nat)
    requires task in db.tasks
    ensures var t := db.tasks[task];
            var tasks := db.tasks[task := t.(status := TaskApproved)];
            (exists u :: u in tasks && PendingAt(tasks[u], t.instance, t.order)) <==> Waits(db, task, All)
  {
    var t := db.tasks[task];
    var tasks := db.tasks[task := t.(status := TaskApproved)];
    if u :| u in tasks && PendingAt(tasks[u], t.instance, t.order) {
      assert u != task && tasks[u] == db.tasks[u];
    }
    if u :| u in db.tasks && u != task && PendingAt(db.tasks[u], t.instance, t.order) {
      assert tasks[u] == db.tasks[u];
    }
  }

  /** A decision that commits does what it means. */
  lemma ActedMeans(nodes: seq<Node>, db: Db, task: nat, decision: Decision, staff: Staff)
    requires forall u :: u in db.tasks ==> u < db.nextTask
    requires task in db.tasks && db.tasks[task].instance in db.instances
    ensures var t := db.tasks[task];
            var inst := db.instances[t.instance];
            var d := Effective(inst.bizType, decision);
            var next := Acted(nodes, db, task, d, PlanFor(nodes, inst.bizType, t.order, d, staff));
            && (next == Err(InstanceFinished) <==> inst.status != Running)
            && (next == Err(AlreadyActed) <==> inst.status == Running && t.status != Pending)
            && (next == Err(NodeMissing) <==>
                  inst.status == Running && t.status == Pending && decision == Approve && Unknown(nodes, t.order))
            && (next == Err(FlowChanged) ==> !Ordered(nodes))
            && (next.Err? ==> next.error in {InstanceFinished, AlreadyActed, NodeMissing, FlowChanged})
            && (next.Ok? ==> Decided(nodes, db, next.value, task, decision, staff))
  {
    var t := db.tasks[task];
    var inst := db.instances[t.instance];
    var d := Effective(inst.bizType, decision);
    if inst.status == Running && t.status == Pending {
      if d != Approve {
        StopMeans(db, task, TaskStatusFor(d), if d == Return then Returned else Rejected);
      } else {
        var at := PositionOf(nodes, t.order);
        if at >= 0 {
          assert StandsFor(nodes, at, t.order);
          ApprovalMeans(nodes, db, task, at, staff);
        }
      }
    }
    hide Passes, Settles, Ends, PlanFrom, Closed;
  }

  /** Who may decide, each refusal under its own guard, and what a decision does. */
  ghost predicate DecisionOk(nodes: seq<Node>, db: Db, task: nat, actor: int, decision: Decision, staff: Staff,
                             selfConfirm: bool, override: bool, r: Result<Db>)
    requires task in db.tasks && db.tasks[task].instance in db.instances
  {
    var t, inst := db.tasks[task], db.instances[db.tasks[task].instance];
    var entitled := Entitled(inst, t, actor, selfConfirm, override);
    && (r == Err(SelfApproval) <==> OwnDocument(inst, actor, selfConfirm))
    && (r == Err(NotAssignee) <==> !OwnDocument(inst, actor, selfConfirm) && actor != t.assignee && !override)
    && (r == Err(InstanceFinished) <==> entitled && inst.status != Running)
    && (r == Err(AlreadyActed) <==> entitled && inst.status == Running && t.status != Pending)
    && (r == Err(NodeMissing) <==>
          entitled && inst.status == Running && t.status == Pending && decision == Approve && Unknown(nodes, t.order))
    && (r == Err(FlowChanged) ==> !Ordered(nodes))
    && (r.Err? ==> r.error in {SelfApproval, NotAssignee, InstanceFinished, AlreadyActed, NodeMissing, FlowChanged})
    && (r.Ok? ==> entitled && Decided(nodes, db, r.value, task, decision, staff))
  }

  lemma AnswerMeans(nodes: seq<Node>, db: Db, task: nat, actor: int, decision: Decision, staff: Staff, selfConfirm: bool, override: bool)
    requires forall u :: u in db.tasks ==> u < db.nextTask
    requires task in db.tasks && db.tasks[task].instance in db.instances
    ensures var t, inst := db.tasks[task], db.instances[db.tasks[task].instance];
            var d := Effective(inst.bizType, decision);
            var objection := Objection(inst, t, actor, selfConfirm, override);
            DecisionOk(nodes, db, task, actor, decision, staff, selfConfirm, override,
                       if objection.Some? then Err(objection.value) else Acted(nodes, db, task, d, PlanFor(nodes, inst.bizType, t.order, d, staff)))
  {
    ActedMeans(nodes, db, task, decision, staff);
    hide Acted, Decided, PlanFor;
  }

  lemma ApprovalMeans(nodes: seq<Node>, db: Db, task: nat, at: nat, staff: Staff)
    requires forall u :: u in db.tasks ==> u < db.nextTask
    requires task in db.tasks && db.tasks[task].instance in db.instances && db.tasks[task].status == Pending
    requires db.instances[db.tasks[task].instance].status == Running && PositionOf(nodes, db.tasks[task].order) == at
    ensures var t := db.tasks[task];
            var bizType := db.instances[t.instance].bizType;
            var next := Acted(nodes, db, task, Approve, PlanFor(nodes, bizType, t.order, Approve, staff));
            && (next == Err(FlowChanged) ==> !Ordered(nodes))
            && (next.Err? ==> next.error == FlowChanged)
            && (next.Ok? ==> Passes(nodes, db, next.value, task, at, staff))
  {
    var t := db.tasks[task];
    var plan := PlanFor(nodes, db.instances[t.instance].bizType, t.order, Approve, staff);
    hide PlanFrom, Settles, Asks, Ends, FinishedDb, AdvancedDb, Closed, Passed, Waits, Acted, PositionOf;
    ActedApproves(nodes, db, task, at, plan);
    if plan.To? {
      PlanIsKnown(nodes, at + 1, staff);
    }
    if !Waits(db, task, nodes[at].mode) {
      PassMeans(nodes, db, task, at, staff, plan);
    }
  }

  lemma ActedApproves(nodes: seq<Node>, db: Db, task: nat, at: nat, plan: Plan)
    requires task in db.tasks && db.tasks[task].instance in db.instances && db.tasks[task].status == Pending
    requires db.instances[db.tasks[task].instance].status == Running && PositionOf(nodes, db.tasks[task].order) == at
    ensures var t := db.tasks[task];
            Acted(nodes, db, task, Approve, plan) ==
            if Waits(db, task, nodes[at].mode) then Ok(db.(tasks := db.tasks[task := t.(status := TaskApproved)]))
            else if plan == Nobody then Ok(FinishedDb(Passed(db, task, nodes[at].mode), t.instance, Approved))
            else if PositionOf(nodes, plan.node.order) < 0 || nodes[PositionOf(nodes, plan.node.order)].id != plan.node.id then
              Err(FlowChanged)
            else Ok(AdvancedDb(Passed(db, task, nodes[at].mode), t.instance, plan.node, plan.people))
  {
    WaitsMeans(db, task);
    hide FinishedDb, AdvancedDb, Closed, PositionOf, PendingAt;
  }

  lemma PlanIsKnown(nodes: seq<Node>, from: nat, staff: Staff)
    requires PlanFrom(nodes, from, staff).To?
    ensures PositionOf(nodes, PlanFrom(nodes, from, staff).node.order) >= 0
    ensures Ordered(nodes) ==> nodes[PositionOf(nodes, PlanFrom(nodes, from, staff).node.order)] == PlanFrom(nodes, from, staff).node
  {
    var plan := PlanFrom(nodes, from, staff);
    var k: nat :| k < |nodes| && nodes[k] == plan.node;
    var at := PositionOf(nodes, plan.node.order);
    assert nodes[k].order == plan.node.order;
  }

  // ------------------------------------------------------------------ the engine

  /** The tables, written statement by statement. */
  class Engine {
    const defs: Definitions
    var instances: map<nat, Instance>
    var tasks: map<nat, Task>
    var outbox: seq<Event>
    var nextInstance: nat
    var nextTask: nat

    function View(): Db
      reads this
    {
      Db(instances, tasks, outbox, nextInstance, nextTask)
    }

    constructor (defs: Definitions)
      ensures View() == Db(map[], map[], [], 0, 0) && this.defs == defs
    {
      this.defs := defs;
      instances := map[];
      tasks := map[];
      outbox := [];
      nextInstance := 0;
      nextTask := 0;
    }

    method Rollback(db: Db)
      modifies this
      ensures View() == db
    {
      instances := db.instances;
      tasks := db.tasks;
      outbox := db.outbox;
      nextInstance := db.nextInstance;
      nextTask := db.nextTask;
    }

    method CreateTasks(i: nat, node: Node, people: seq<int>)
      requires forall t :: t in tasks ==> t < nextTask
      modifies this`tasks, this`nextTask
      ensures tasks == old(tasks) + NewTasks(old(nextTask), i, node.order, people)
      ensures nextTask == old(nextTask) + |people|
    {
      hide NewTasks;
      NoNewTasks(tasks, nextTask, i, node.order, people);
      for k := 0 to |people|
        invariant nextTask == old(nextTask) + k
        invariant tasks == old(tasks) + NewTasks(old(nextTask), i, node.order, people[..k])
      {
        OneMoreTask(old(tasks), old(nextTask), i, node.order, people, k);
        tasks := tasks[nextTask := Task(i, node.order, people[k], Pending)];
        nextTask := nextTask + 1;
      }
      assert people[..|people|] == people;
    }

    method CountPendingAtNode(i: nat, order: int) returns (n: nat)
      ensures n > 0 <==> exists u :: u in tasks && PendingAt(tasks[u], i, order)
    {
      var pending := set t | t in tasks && PendingAt(tasks[t], i, order);
      n := |pending|;
      if u :| u in tasks && PendingAt(tasks[u], i, order) {
        assert u in pending;
      } else {
        assert pending == {};
      }
    }

    method Finish(i: nat, result: Status)
      requires i in instances
      modifies this`tasks, this`instances, this`outbox
      ensures View() == FinishedDb(old(View()), i, result)
    {
      tasks := Closed(tasks, i, None, TaskCancelled);
      instances := instances[i := instances[i].(status := result)];
      outbox := outbox + [Finished(i, result)];
    }

    /** `Act`: reads and checks, plans the next node, and decides in one
        transaction. A failed transaction leaves no trace. */
    method Act(task: nat, actor: int, decision: Decision, staff: Staff, selfConfirm: bool, override: bool) returns (r: Result<()>)
      requires forall t :: t in tasks ==> t < nextTask && tasks[t].instance in instances
      modifies this
      ensures task !in old(tasks) ==> r == Err(TaskNotFound)
      ensures task in old(tasks) ==>
              var t := old(tasks)[task];
              var inst := old(instances)[t.instance];
              var nodes := NodesOf(defs, inst.definition);
              var d := Effective(inst.bizType, decision);
              var objection := Objection(inst, t, actor, selfConfirm, override);
              var next := Acted(nodes, old(View()), task, d, PlanFor(nodes, inst.bizType, t.order, d, staff));
              if objection.Some? then r == Err(objection.value)
              else if next.Err? then r == Err(next.error)
              else r.Ok? && View() == next.value
      ensures r.Err? ==> View() == old(View())
      // who may decide, each refusal under its own guard, and what a decision does
      ensures r == Err(TaskNotFound) <==> task !in old(tasks)
      ensures task in old(tasks) ==>
              DecisionOk(NodesOf(defs, old(instances)[old(tasks)[task].instance].definition), old(View()), task, actor, decision,
                         staff, selfConfirm, override, if r.Ok? then Ok(View()) else Err(r.error))
    {
      if task !in tasks {
        return Err(TaskNotFound);
      }
      var t := tasks[task];
      var i := t.instance;
      var inst := instances[i];
      var nodes := NodesOf(defs, inst.definition);
      AnswerMeans(nodes, View(), task, actor, decision, staff, selfConfirm, override);
      hide Acted, DecisionOk, Objection;
      var objection := Objection(inst, t, actor, selfConfirm, override);
      if objection.Some? {
        return Err(objection.value);
      }
      var d := Effective(inst.bizType, decision);
      var plan := Nobody;
      if d == Approve && inst.bizType != "CONTRACT" {
        var at := IndexOfSeq(nodes, t.order);
        plan := FirstStaffedNode(nodes, at + 1, staff);
      }
      r := Transact(nodes, task, d, plan);
    }

    /** The body that `Act` hands to `InTx`. */
    method Transact(nodes: seq<Node>, task: nat, d: Decision, plan: Plan) returns (r: Result<()>)
      requires forall t :: t in tasks ==> t < nextTask && tasks[t].instance in instances
      requires task in tasks
      modifies this
      ensures var next := Acted(nodes, old(View()), task, d, plan);
              if next.Err? then r == Err(next.error) && View() == old(View()) else r.Ok? && View() == next.value
    {
      var snapshot := View();
      var t := tasks[task];
      var i := t.instance;
      if instances[i].status != Running {
        return Err(InstanceFinished);
      }
      if t.status != Pending {
        return Err(AlreadyActed);
      }
      tasks := tasks[task := t.(status := TaskStatusFor(d))];
      if d != Approve {
        Finish(i, if d == Return then Returned else Rejected);
        return Ok(());
      }
      var at := IndexOfSeq(nodes, t.order);
      if at < 0 {
        Rollback(snapshot);
        return Err(NodeMissing);
      }
      if nodes[at].mode == All {
        var pending := CountPendingAtNode(i, t.order);
        if pending > 0 {
          return Ok(());
        }
      } else {
        tasks := Closed(tasks, i, Some(t.order), Skipped);
      }
      if plan == Nobody {
        Finish(i, Approved);
        return Ok(());
      }
      var next := IndexOfSeq(nodes, plan.node.order);
      if next < 0 || nodes[next].id != plan.node.id {
        Rollback(snapshot);
        return Err(FlowChanged);
      }
      instances := instances[i := instances[i].(currentSeq := plan.node.order)];
      CreateTasks(i, plan.node, plan.people);
      outbox := outbox + [Advanced(i, plan.node.order)];
      return Ok(());
    }

    /** `Submit`, from the choice of the first approver on. The row starts at the
        column default, sequence 1. */
    method Submit(definition: int, bizType: string, bizId: int, submitter: int, staff: Staff,
                  selfConfirm: bool, bosses: seq<int>, fallback: seq<int>) returns (r: Result<()>)
      requires NodesOf(defs, definition) != [] && forall t :: t in tasks ==> t < nextTask
      modifies this
      ensures var route := RouteFor(bizType, NodesOf(defs, definition), staff, submitter, selfConfirm, bosses, fallback);
              var next := Submitted(old(View()), Instance(definition, bizType, bizId, submitter, Running, 1), route);
              if next.Err? then r == Err(next.error) && View() == old(View()) else r.Ok? && View() == next.value
      // who is asked first, each refusal under its own guard, and when nobody is asked
      ensures var nodes, inst := NodesOf(defs, definition), Instance(definition, bizType, bizId, submitter, Running, 1);
              exists found :: Found(nodes, staff, found) &&
                SubmissionOk(old(View()), inst, nodes, staff, selfConfirm, bosses, fallback, found,
                             if r.Ok? then Ok(View()) else Err(r.error))
    {
      SubmittedMeans(View(), Instance(definition, bizType, bizId, submitter, Running, 1), NodesOf(defs, definition),
                     staff, selfConfirm, bosses, fallback);
      hide SubmissionOk, Found;
      var route := RouteFor(bizType, NodesOf(defs, definition), staff, submitter, selfConfirm, bosses, fallback);
      hide RouteFor, Submitted;
      r := Enter(Instance(definition, bizType, bizId, submitter, Running, 1), route);
    }

    /** The body that `Submit` hands to `InTx`. */
    method Enter(inst: Instance, route: Route) returns (r: Result<()>)
      requires forall t :: t in tasks ==> t < nextTask
      modifies this
      ensures var next := Submitted(old(View()), inst, route);
              if next.Err? then r == Err(next.error) && View() == old(View()) else r.Ok? && View() == next.value
    {
      if route == Refused {
        return Err(NoApprover);
      }
      if RunsAlready(instances, inst.bizType, inst.bizId) {
        return Err(AlreadyRunning);
      }
      var i := nextInstance;
      instances := instances[i := inst];
      nextInstance := i + 1;
      if route == Straight {
        Finish(i, Approved);
      } else {
        CreateTasks(i, route.node, route.people);
      }
      return Ok(());
    }

    method Withdraw(i: nat, actor: int) returns (r: Result<()>)
      requires i in instances
      modifies this`tasks, this`instances
      ensures var next := Withdrawn(old(View()), i, actor);
              if next.Err? then r == Err(next.error) && View() == old(View()) else r.Ok? && View() == next.value
      // only by the submitter, only while it runs; a second time it changes nothing
      ensures var was := old(instances)[i];
              && (r == Err(NotSubmitter) <==> actor != was.submitter)
              && (r == Err(InstanceFinished) <==> actor == was.submitter && was.status in {Approved, Rejected, Returned})
              && (r.Err? ==> r.error in {NotSubmitter, InstanceFinished} && View() == old(View()))
              && (r.Ok? && was.status == Cancelled ==> View() == old(View()))
              && (r.Ok? && was.status == Running ==>
                    && instances == old(instances)[i := was.(status := Cancelled)]
                    && tasks.Keys == old(tasks).Keys
                    && forall t :: t in tasks ==>
                         var task := old(tasks)[t];
                         tasks[t] == if task.instance == i && task.status == Pending then task.(status := TaskCancelled) else task)
    {
      if instances[i].submitter != actor {
        return Err(NotSubmitter);
      }
      if instances[i].status == Cancelled {
        return Ok(());
      }
      if instances[i].status != Running {
        return Err(InstanceFinished);
      }
      tasks := Closed(tasks, i, None, TaskCancelled);
      instances := instances[i := instances[i].(status := Cancelled)];
      return Ok(());
    }
  }
}
