/** What every run of submissions, concurrent decisions and withdrawals keeps. */
module ApprovalProof {
  import opened Text
  import opened Approval

  // ------------------------------------------------------------- one instance

  /** The tasks of one instance. */
  type Tasks = map<nat, Task>

  predicate AllApprovedAt(ts: Tasks, order: int) {
    forall u :: u in ts && ts[u].order == order ==> ts[u].status == TaskApproved
  }

  predicate SomeApprovedAt(ts: Tasks, order: int) {
    && (exists u :: u in ts && ts[u].order == order && ts[u].status == TaskApproved)
    && (forall u :: u in ts && ts[u].order == order ==> ts[u].status == TaskApproved || ts[u].status == Skipped)
  }

  /** A node is through: everybody approved, or one did and the rest were closed. */
  predicate Quorum(nodes: seq<Node>, ts: Tasks, order: int) {
    var at := PositionOf(nodes, order);
    at >= 0 && if IsAll(nodes, order) then AllApprovedAt(ts, order) else SomeApprovedAt(ts, order)
  }

  predicate Increasing(s: seq<int>) {
    forall i, j :: 0 <= i < j < |s| ==> s[i] < s[j]
  }

  predicate Known(nodes: seq<Node>, ts: Tasks) {
    forall u :: u in ts ==> PositionOf(nodes, ts[u].order) >= 0
  }

  /** The flow stands at one node: earlier ones are through, there are no later
      ones, and at the node itself tasks are open or count towards the quorum. */
  predicate StandsAt(nodes: seq<Node>, ts: Tasks, here: int) {
    forall u :: u in ts ==>
      && ts[u].order <= here
      && (ts[u].order < here ==> ts[u].status != Pending && Quorum(nodes, ts, ts[u].order))
      && (ts[u].order == here ==> InProgress(nodes, ts[u]))
  }

  predicate OnePlace(nodes: seq<Node>, ts: Tasks) {
    Known(nodes, ts) && forall t :: t in ts && ts[t].status == Pending ==> StandsAt(nodes, ts, ts[t].order)
  }

  /** At the node being decided, a task is open, or approved where all must. */
  predicate InProgress(nodes: seq<Node>, u: Task) {
    u.status == Pending || (u.status == TaskApproved && IsAll(nodes, u.order))
  }

  predicate IsAll(nodes: seq<Node>, order: int) {
    var at := PositionOf(nodes, order);
    at >= 0 && nodes[at].mode == All
  }

  predicate NoPending(ts: Tasks) {
    forall t :: t in ts ==> ts[t].status != Pending
  }

  predicate PlacedAt(inst: Instance, ts: Tasks, adv: seq<int>) {
    && Increasing(adv)
    && (adv == [] ==> inst.currentSeq == 1)
    && (adv != [] ==> adv[|adv| - 1] == inst.currentSeq)
    && (adv != [] ==> forall t :: t in ts && ts[t].status == Pending ==> ts[t].order == inst.currentSeq)
  }

  predicate Ended(s: Status) {
    s == Approved || s == Rejected || s == Returned
  }

  /** However the flow stands or ended, a node that was left has its quorum. */
  predicate QuorumBehind(nodes: seq<Node>, ts: Tasks) {
    forall u, v :: u in ts && v in ts && ts[u].order < ts[v].order ==> Quorum(nodes, ts, ts[u].order)
  }

  predicate HasTask(ts: Tasks, order: int) {
    exists u :: u in ts && ts[u].order == order
  }

  /** The nodes visited, one after the other: those with tasks and no others. */
  predicate Visits(ts: Tasks, trail: seq<int>) {
    && Increasing(trail)
    && (forall u :: u in ts ==> ts[u].order in trail)
    && (forall k :: 0 <= k < |trail| ==> HasTask(ts, trail[k]))
  }

  /** The flow visited one node and then exactly those it was advanced to, or,
      approved for want of anybody to ask, none at all. */
  ghost predicate Entered(ts: Tasks, adv: seq<int>) {
    (ts == map[] && adv == []) || exists first: int :: Visits(ts, [first] + adv)
  }

  /** Everything the engine promises about one instance, its tasks, the nodes it
      advanced to and the number of terminal events it sent. */
  ghost predicate FlowOk(nodes: seq<Node>, inst: Instance, ts: Tasks, adv: seq<int>, fin: nat) {
    && OnePlace(nodes, ts) && PlacedAt(inst, ts, adv) && QuorumBehind(nodes, ts) && Entered(ts, adv)
    && (inst.status == Running <==> !NoPending(ts))
    && (inst.status == Approved ==> forall u :: u in ts ==> Quorum(nodes, ts, ts[u].order))
    && fin == if Ended(inst.status) then 1 else 0
  }

  lemma NothingSentYet(nodes: seq<Node>, inst: Instance, ts: Tasks, adv: seq<int>, fin: nat)
    requires FlowOk(nodes, inst, ts, adv, fin) && inst.status == Running
    ensures fin == 0
  {
  }

  function Decide(ts: Tasks, t: nat, d: Decision): Tasks
    requires t in ts
  {
    ts[t := ts[t].(status := TaskStatusFor(d))]
  }

  function Close(ts: Tasks, order: Option<int>, status: TaskStatus): Tasks {
    map t | t in ts ::
      if ts[t].status == Pending && (order == None || order == Some(ts[t].order)) then ts[t].(status := status) else ts[t]
  }

  lemma QuorumStays(nodes: seq<Node>, ts: Tasks, us: Tasks, order: int)
    requires Quorum(nodes, ts, order)
    requires forall u :: u in ts && ts[u].order == order ==> u in us && us[u] == ts[u]
    requires forall u :: u in us && us[u].order == order ==> u in ts && us[u] == ts[u]
    ensures Quorum(nodes, us, order)
  {
    hide PositionOf;
  }

  lemma BehindStays(nodes: seq<Node>, ts: Tasks, us: Tasks, here: int)
    requires QuorumBehind(nodes, ts) && us.Keys == ts.Keys
    requires forall u :: u in ts ==> us[u].order == ts[u].order <= here && (us[u] != ts[u] ==> ts[u].order == here)
    ensures QuorumBehind(nodes, us)
  {
    hide Quorum;
    forall u, v | u in us && v in us && us[u].order < us[v].order ensures Quorum(nodes, us, us[u].order) {
      QuorumStays(nodes, ts, us, us[u].order);
    }
  }

  lemma StandingIsBehind(nodes: seq<Node>, ts: Tasks, here: int)
    requires StandsAt(nodes, ts, here)
    ensures QuorumBehind(nodes, ts)
  {
    hide Quorum;
  }

  lemma EnteredStays(ts: Tasks, us: Tasks, adv: seq<int>)
    requires Entered(ts, adv) && us.Keys == ts.Keys
    requires forall u :: u in ts ==> us[u].order == ts[u].order
    ensures Entered(us, adv)
  {
    if ts == map[] && adv == [] {
      assert us == map[];
    } else {
      var first: int :| Visits(ts, [first] + adv);
      VisitsStay(ts, us, [first] + adv);
    }
  }

  lemma VisitsStay(ts: Tasks, us: Tasks, trail: seq<int>)
    requires Visits(ts, trail) && us.Keys == ts.Keys
    requires forall u :: u in ts ==> us[u].order == ts[u].order
    ensures Visits(us, trail)
  {
    forall k | 0 <= k < |trail| ensures HasTask(us, trail[k]) {
      assert HasTask(ts, trail[k]);
    }
  }

  /** New tasks behind all others make one more node visited. */
  lemma EnteredNext(ts: Tasks, adv: seq<int>, new_: Tasks, order: int)
    requires Entered(ts, adv) && ts != map[] && new_ != map[] && new_.Keys !! ts.Keys
    requires forall u :: u in ts ==> ts[u].order < order
    requires forall u :: u in new_ ==> new_[u].order == order
    ensures Entered(ts + new_, adv + [order])
  {
    var first: int :| Visits(ts, [first] + adv);
    hide Visits;
    VisitsNext(ts, [first] + adv, new_, order);
    assert [first] + (adv + [order]) == [first] + adv + [order];
  }

  lemma VisitsNext(ts: Tasks, trail: seq<int>, new_: Tasks, order: int)
    requires Visits(ts, trail) && new_ != map[] && new_.Keys !! ts.Keys
    requires forall u :: u in ts ==> ts[u].order < order
    requires forall u :: u in new_ ==> new_[u].order == order
    ensures Visits(ts + new_, trail + [order])
  {
    var all, next := ts + new_, trail + [order];
    forall k | 0 <= k < |next| ensures HasTask(all, next[k]) && (k < |trail| ==> trail[k] < order) {
      if k < |trail| {
        assert HasTask(ts, trail[k]);
        var u :| u in ts && ts[u].order == trail[k];
        assert u in all && all[u] == ts[u];
      } else {
        var n :| n in new_;
        assert n in all && all[n].order == order;
      }
    }
    forall u | u in all ensures all[u].order in next {
      assert u in ts ==> ts[u].order in trail;
      assert next[|trail|] == order;
    }
  }

  /** The decision leaves the node unfinished: an ALL node with somebody left. */
  lemma WaitingOk(nodes: seq<Node>, inst: Instance, ts: Tasks, adv: seq<int>, fin: nat, t: nat)
    requires FlowOk(nodes, inst, ts, adv, fin) && inst.status == Running && t in ts && ts[t].status == Pending
    requires IsAll(nodes, ts[t].order) && !NoPending(Decide(ts, t, Approve))
    ensures FlowOk(nodes, inst, Decide(ts, t, Approve), adv, fin)
  {
    hide PositionOf, Quorum, QuorumBehind, Entered;
    var us, here := Decide(ts, t, Approve), ts[t].order;
    assert StandsAt(nodes, ts, here);
    BehindStays(nodes, ts, us, here);
    EnteredStays(ts, us, adv);
    forall v | v in us && us[v].order < here ensures Quorum(nodes, us, us[v].order) {
      QuorumStays(nodes, ts, us, us[v].order);
    }
    assert StandsAt(nodes, us, here);
    assert forall u :: u in us && us[u].status == Pending ==> us[u].order == here;
  }

  /** Rejection, return and withdrawal end the flow with nothing left pending. */
  lemma StoppedOk(nodes: seq<Node>, inst: Instance, ts: Tasks, us: Tasks, adv: seq<int>, fin: nat, result: Status, fin': nat)
    requires FlowOk(nodes, inst, ts, adv, fin) && inst.status == Running
    requires result != Running && result != Approved && fin' == if Ended(result) then 1 else 0
    requires us.Keys == ts.Keys && (forall u :: u in ts ==> us[u].order == ts[u].order) && NoPending(us)
    requires forall u :: u in ts && us[u] != ts[u] ==> ts[u].status == Pending
    ensures FlowOk(nodes, inst.(status := result), us, adv, fin')
  {
    hide PositionOf, Quorum, QuorumBehind, Entered;
    var t :| t in ts && ts[t].status == Pending;
    assert StandsAt(nodes, ts, ts[t].order);
    forall u | u in ts && us[u] != ts[u] ensures ts[u].order == ts[t].order {
      assert StandsAt(nodes, ts, ts[u].order);
    }
    BehindStays(nodes, ts, us, ts[t].order);
    EnteredStays(ts, us, adv);
  }

  /** What remains of the tasks once the node of `t` is through. */
  function Through(nodes: seq<Node>, ts: Tasks, t: nat): Tasks
    requires t in ts
  {
    if IsAll(nodes, ts[t].order) then Decide(ts, t, Approve)
    else Close(Decide(ts, t, Approve), Some(ts[t].order), Skipped)
  }

  lemma ThroughRows(nodes: seq<Node>, ts: Tasks, t: nat)
    requires t in ts
    ensures Through(nodes, ts, t).Keys == ts.Keys
    ensures forall u :: u in ts ==>
              && Through(nodes, ts, t)[u].order == ts[u].order
              && (ts[u].order != ts[t].order ==> Through(nodes, ts, t)[u] == ts[u])
  {
    hide IsAll;
  }

  lemma HereQuorum(nodes: seq<Node>, ts: Tasks, t: nat)
    requires Known(nodes, ts) && t in ts && ts[t].status == Pending && StandsAt(nodes, ts, ts[t].order)
    requires IsAll(nodes, ts[t].order) ==> NoPending(Decide(ts, t, Approve))
    ensures Quorum(nodes, Through(nodes, ts, t), ts[t].order) && NoPending(Through(nodes, ts, t))
  {
    hide PositionOf;
    var us, here := Through(nodes, ts, t), ts[t].order;
    assert us[t] == ts[t].(status := TaskApproved);
    forall u | u in us && us[u].order == here
      ensures us[u].status == TaskApproved || (us[u].status == Skipped && !IsAll(nodes, here))
    {
      assert InProgress(nodes, ts[u]);
    }
  }

  /** Once a node is through, every node visited has its quorum. */
  lemma ThroughHasQuorum(nodes: seq<Node>, ts: Tasks, t: nat)
    requires Known(nodes, ts) && t in ts && ts[t].status == Pending && StandsAt(nodes, ts, ts[t].order)
    requires IsAll(nodes, ts[t].order) ==> NoPending(Decide(ts, t, Approve))
    ensures AllThrough(nodes, Through(nodes, ts, t), ts[t].order)
  {
    HereQuorum(nodes, ts, t);
    ThroughRows(nodes, ts, t);
    hide PositionOf, Quorum, IsAll, NoPending, InProgress, Through;
    var us, here := Through(nodes, ts, t), ts[t].order;
    forall v | v in us && us[v].order < here ensures Quorum(nodes, us, us[v].order) {
      QuorumStays(nodes, ts, us, us[v].order);
    }
  }

  predicate AllThrough(nodes: seq<Node>, ts: Tasks, upTo: int) {
    Known(nodes, ts) && NoPending(ts) && forall v :: v in ts ==> ts[v].order <= upTo && Quorum(nodes, ts, ts[v].order)
  }

  /** Approval of the last node. */
  lemma ApprovedOk(nodes: seq<Node>, inst: Instance, ts: Tasks, adv: seq<int>, fin: nat, t: nat, us: Tasks)
    requires FlowOk(nodes, inst, ts, adv, fin) && inst.status == Running && t in ts && ts[t].status == Pending
    requires IsAll(nodes, ts[t].order) ==> NoPending(Decide(ts, t, Approve))
    requires us == Through(nodes, ts, t)
    ensures FlowOk(nodes, inst.(status := Approved), us, adv, 1)
  {
    hide PositionOf, Quorum, Through, Entered, QuorumBehind, IsAll, Increasing;
    ThroughHasQuorum(nodes, ts, t);
    ThroughRows(nodes, ts, t);
    EnteredStays(ts, us, adv);
    ThroughIsBehind(nodes, us, ts[t].order);
  }

  lemma ThroughIsBehind(nodes: seq<Node>, ts: Tasks, upTo: int)
    requires AllThrough(nodes, ts, upTo)
    ensures QuorumBehind(nodes, ts)
  {
    hide Quorum;
  }

  /** Fresh tasks behind nodes that are all through. */
  lemma JoinOk(nodes: seq<Node>, us: Tasks, before: int, new_: Tasks, order: int)
    requires AllThrough(nodes, us, before) && before < order && PositionOf(nodes, order) >= 0
    requires new_ != map[] && new_.Keys !! us.Keys
    requires forall u :: u in new_ ==> new_[u].order == order && new_[u].status == Pending
    ensures Known(nodes, us + new_) && StandsAt(nodes, us + new_, order) && !NoPending(us + new_)
    ensures forall v :: v in us + new_ && (us + new_)[v].status == Pending ==> (us + new_)[v].order == order
  {
    hide PositionOf, Quorum;
    var all := us + new_;
    assert forall u :: u in us ==> all[u] == us[u];
    var n :| n in new_;
    assert all[n].status == Pending;
    forall v | v in us ensures Quorum(nodes, all, us[v].order) {
      QuorumStays(nodes, us, all, us[v].order);
    }
  }

  /** The next node: its tasks are the only open ones, and every node before it
      has its quorum. */
  lemma AdvancedOk(nodes: seq<Node>, inst: Instance, ts: Tasks, adv: seq<int>, fin: nat, t: nat, next: Node, new_: Tasks)
    requires FlowOk(nodes, inst, ts, adv, fin) && inst.status == Running && t in ts && ts[t].status == Pending
    requires IsAll(nodes, ts[t].order) ==> NoPending(Decide(ts, t, Approve))
    requires PositionOf(nodes, next.order) >= 0 && next.order > ts[t].order
    requires new_ != map[] && new_.Keys !! ts.Keys
    requires forall u :: u in new_ ==> new_[u].order == next.order && new_[u].status == Pending
    ensures FlowOk(nodes, inst.(currentSeq := next.order), Through(nodes, ts, t) + new_, adv + [next.order], fin)
  {
    ThroughHasQuorum(nodes, ts, t);
    assert Through(nodes, ts, t).Keys == ts.Keys;
    var all := Through(nodes, ts, t) + new_;
    JoinOk(nodes, Through(nodes, ts, t), ts[t].order, new_, next.order);
    OnePlaceFrom(nodes, all, next.order);
    PlacedNext(inst, ts, adv, t, all, next.order);
    StandingIsBehind(nodes, all, next.order);
    ThroughEntered(nodes, ts, adv, t, next.order, new_);
    hide PositionOf, Quorum, Through, StandsAt, AllThrough, OnePlace, PlacedAt, QuorumBehind, Entered;
  }

  lemma ThroughEntered(nodes: seq<Node>, ts: Tasks, adv: seq<int>, t: nat, order: int, new_: Tasks)
    requires Entered(ts, adv) && t in ts && AllThrough(nodes, Through(nodes, ts, t), ts[t].order) && ts[t].order < order
    requires new_ != map[] && new_.Keys !! ts.Keys && forall u :: u in new_ ==> new_[u].order == order
    ensures Entered(Through(nodes, ts, t) + new_, adv + [order])
  {
    hide Entered, Quorum, IsAll;
    var us := Through(nodes, ts, t);
    assert t in us;
    EnteredStays(ts, us, adv);
    EnteredNext(us, adv, new_, order);
  }

  lemma OnePlaceFrom(nodes: seq<Node>, ts: Tasks, here: int)
    requires Known(nodes, ts) && StandsAt(nodes, ts, here)
    requires forall v :: v in ts && ts[v].status == Pending ==> ts[v].order == here
    ensures OnePlace(nodes, ts)
  {
  }

  lemma PlacedNext(inst: Instance, ts: Tasks, adv: seq<int>, t: nat, all: Tasks, order: int)
    requires PlacedAt(inst, ts, adv) && t in ts && ts[t].status == Pending && order > ts[t].order
    requires forall v :: v in all && all[v].status == Pending ==> all[v].order == order
    ensures PlacedAt(inst.(currentSeq := order), all, adv + [order])
  {
    assert adv != [] ==> adv[|adv| - 1] == ts[t].order;
  }

  /** A new instance with the tasks of its first node. */
  lemma StartedOk(nodes: seq<Node>, inst: Instance, first: Node, ts: Tasks)
    requires inst.status == Running && inst.currentSeq == 1 && PositionOf(nodes, first.order) >= 0 && ts != map[]
    requires forall u :: u in ts ==> ts[u].order == first.order && ts[u].status == Pending
    ensures FlowOk(nodes, inst, ts, [], 0)
  {
    hide PositionOf;
    var n :| n in ts;
    assert ts[n].status == Pending;
    assert HasTask(ts, first.order);
    assert [first.order] + [] == [first.order] && Visits(ts, [first.order]);
  }
}
