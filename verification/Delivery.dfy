/** The event delivery protocol as a transition system: outbox, relays, topic
    log, consumers, claims, dead letters and operator replays. Every step is
    one database statement, one broker call or one process failure, so a run
    interleaves any number of relays, consumers and operators and stops any of
    them anywhere. */
module Delivery {
  import opened Text
  import opened EventKey

  type Ref = (string, int)

  function RefOf(e: Envelope): Ref {
    (e.aggregateType, e.eventId)
  }

  datatype Message = Malformed | Event(env: Envelope)

  type Log = map<nat, seq<Message>>

  // ------------------------------------------------- outbox, relays and topic

  datatype OutboxRow = OutboxRow(env: Envelope, published: bool, attempts: nat)

  /** A relay works through the batch it read; `sent` says that the head of the
      batch is in the topic and its row is about to be marked. */
  datatype Relay = Relay(todo: seq<Ref>, sent: bool)

  datatype Source = Source(outbox: map<Ref, OutboxRow>, relays: map<nat, Relay>, log: Log)

  datatype SourceStep =
    | Append(event: Envelope)
    | SelectBatch(relay: nat, refs: seq<Ref>)
    | Publish(relay: nat, part: nat, appended: bool, acked: bool)
    | Mark(relay: nat, stored: bool)
    | StopRelay(relay: nat)
    | Foreign(part: nat)

  const BATCH_SIZE: nat := 100

  function LogOf(log: Log, part: nat): seq<Message> {
    if part in log then log[part] else []
  }

  function Logging(log: Log, part: nat, m: Message): Log {
    log[part := LogOf(log, part) + [m]]
  }

  /** What `Append` demands of an event, and what a BIGSERIAL id is. */
  predicate Appendable(e: Envelope) {
    && e.aggregateType != "" && e.aggregateId != "" && e.eventType != ""
    && e.tenantId > 0 && IsInt64(e.eventId)
  }

  predicate Busy(s: Source, r: nat) {
    r in s.relays && s.relays[r].todo != [] && s.relays[r].todo[0] in s.outbox
  }

  predicate SourceCan(s: Source, a: SourceStep) {
    match a
    case Append(e) => Appendable(e) && RefOf(e) !in s.outbox
    case SelectBatch(r, refs) =>
      && r !in s.relays && |refs| <= BATCH_SIZE
      && forall k :: 0 <= k < |refs| ==> refs[k] in s.outbox && !s.outbox[refs[k]].published
    case Publish(r, _, appended, acked) => Busy(s, r) && !s.relays[r].sent && (acked ==> appended)
    case Mark(r, _) => Busy(s, r) && s.relays[r].sent
    case StopRelay(r) => r in s.relays
    case Foreign(_) => true
  }

  /** A publish may reach the topic without being acknowledged, and a row whose
      mark fails stays unpublished: either way the next batch sends it again. */
  function SourceNext(s: Source, a: SourceStep): Source
    requires SourceCan(s, a)
  {
    match a
    case Append(e) => s.(outbox := s.outbox[RefOf(e) := OutboxRow(e, false, 0)])
    case SelectBatch(r, refs) => s.(relays := s.relays[r := Relay(refs, false)])
    case Publish(r, part, appended, acked) =>
      var todo := s.relays[r].todo;
      var row := s.outbox[todo[0]];
      Source(if acked then s.outbox else s.outbox[todo[0] := row.(attempts := row.attempts + 1)],
             s.relays[r := if acked then Relay(todo, true) else Relay(todo[1..], false)],
             if appended then Logging(s.log, part, Event(row.env)) else s.log)
    case Mark(r, stored) =>
      var todo := s.relays[r].todo;
      Source(if stored then s.outbox[todo[0] := s.outbox[todo[0]].(published := true)] else s.outbox,
             s.relays[r := Relay(todo[1..], false)],
             s.log)
    case StopRelay(r) => s.(relays := s.relays - {r})
    case Foreign(part) => s.(log := Logging(s.log, part, Malformed))
  }

  // ------------------------------------------------ consumers and dead letters

  /** The tables of the consuming service, keyed as their unique constraints
      are, plus the business effects and the events a handler ignored. */
  datatype Db = Db(
    claims: set<(string, string)>,
    effects: multiset<(string, Ref)>,
    skipped: set<(string, string)>,
    parked: map<(string, string), Parked>,
    nextRow: nat,
    committed: map<(string, nat), nat>)

  /** Where `Run`, `handleOne` and `Replay` stand. `InTx` is the handler's open
      transaction with its claim inserted; nobody else sees the claim, but it
      locks the key. */
  datatype Pc = Fetching | Probing | Attempting(n: nat) | InTx(attempt: nat, key: string) | Parking | Concluded

  datatype Proc =
    | Consumer(group: string, part: nat, cursor: nat, gaveUp: set<nat>, pc: Pc)
    | Operator(group: string, key: string, rowId: nat, env: Envelope, pc: Pc)

  /** What the reader does with a message whose handling came back false: hand
      it out again, or go on to the next one. */
  datatype FetchRule = Redeliver | Advance

  datatype Move =
    | Fetch | Probe | GiveUp | Skip | Fail | Claim | Refused
    | Commit(acked: bool) | Park | CommitOffset(stored: bool) | Clear(cleared: bool) | Crash

  const HANDLER_ATTEMPTS: nat := 5

  /** The event a process has in hand. */
  function InHand(log: Log, p: Proc): Option<Envelope> {
    match p
    case Operator(_, _, _, env, _) => Some(env)
    case Consumer(_, part, cursor, _, _) =>
      var l := LogOf(log, part);
      if cursor < |l| && l[cursor].Event? then Some(l[cursor].env) else None
  }

  /** Whether the process alone allows the move; the claim also needs the key
      to be free. */
  predicate CanMove(log: Log, db: Db, p: Proc, m: Move) {
    var hand := InHand(log, p);
    match m
    case Fetch => p.Consumer? && p.pc == Fetching && p.cursor < |LogOf(log, p.part)|
    case Probe => hand.Some? && p.Consumer? && p.pc == Probing
    case GiveUp =>
      p.Consumer? && (p.pc == Probing || p.pc == Parking || (p.pc.Attempting? && p.pc.n > 1))
    case Skip => hand.Some? && p.pc.Attempting?
    case Fail => hand.Some? && (p.pc.Attempting? || p.pc.InTx?)
    case Claim => hand.Some? && p.pc.Attempting? && (p.group, DedupeKey(hand.value)) !in db.claims
    case Refused => hand.Some? && p.pc.Attempting? && (p.group, DedupeKey(hand.value)) in db.claims
    case Commit(_) => hand.Some? && p.pc.InTx?
    case Park => hand.Some? && p.Consumer? && p.pc == Parking && hand.value.tenantId > 0
    case CommitOffset(_) => p.Consumer? && p.pc == Concluded
    case Clear(_) => p.Operator? && p.pc == Concluded
    case Crash => true
  }

  function Goto(p: Proc, pc: Pc): Proc {
    p.(pc := pc)
  }

  /** A failed attempt leads to another one, to the dead letters or, for a
      replay, back to the operator. */
  function AfterFailure(p: Proc): Option<Proc> {
    if p.Operator? then None
    else
      var n := if p.pc.Attempting? then p.pc.n else if p.pc.InTx? then p.pc.attempt else 0;
      Some(Goto(p, if n < HANDLER_ATTEMPTS then Attempting(n + 1) else Parking))
  }

  function MoveProc(rule: FetchRule, log: Log, db: Db, p: Proc, m: Move): Option<Proc>
    requires CanMove(log, db, p, m)
  {
    match m
    case Fetch => Some(Goto(p, if LogOf(log, p.part)[p.cursor].Malformed? then Concluded else Probing))
    case Probe =>
      var at := (p.group, DedupeKey(InHand(log, p).value));
      Some(Goto(p, if at in db.claims then Concluded else Attempting(1)))
    case GiveUp =>
      Some(if rule == Redeliver then Consumer(p.group, p.part, p.cursor, p.gaveUp, Fetching)
           else Consumer(p.group, p.part, p.cursor + 1, p.gaveUp + {p.cursor}, Fetching))
    case Skip => Some(Goto(p, Concluded))
    case Fail => AfterFailure(p)
    case Claim => Some(Goto(p, InTx(p.pc.n, DedupeKey(InHand(log, p).value))))
    case Refused => if p.Operator? then None else Some(Goto(p, Concluded))
    case Commit(acked) => if acked then Some(Goto(p, Concluded)) else AfterFailure(p)
    case Park => Some(Goto(p, Concluded))
    case CommitOffset(_) => Some(Consumer(p.group, p.part, p.cursor + 1, p.gaveUp, Fetching))
    case Clear(_) => None
    case Crash => None
  }

  function MoveDb(log: Log, db: Db, p: Proc, m: Move): Db
    requires CanMove(log, db, p, m)
  {
    match m
    case Skip => db.(skipped := db.skipped + {(p.group, DedupeKey(InHand(log, p).value))})
    case Commit(_) =>
      db.(claims := db.claims + {(p.group, p.pc.key)},
          effects := db.effects + multiset{(p.group, RefOf(InHand(log, p).value))})
    case Park =>
      var e := InHand(log, p).value;
      if (p.group, DedupeKey(e)) in db.parked then db
      else db.(parked := db.parked[(p.group, DedupeKey(e)) := RowFor(db.nextRow, p.group, e)], nextRow := db.nextRow + 1)
    case CommitOffset(stored) =>
      if stored then db.(committed := db.committed[(p.group, p.part) := p.cursor + 1]) else db
    case Clear(cleared) =>
      var at := (p.group, p.key);
      if cleared && at in db.parked && db.parked[at].id == p.rowId then db.(parked := db.parked - {at}) else db
    case _ => db
  }

  // ------------------------------------------------------------ the whole system

  datatype Sys = Sys(source: Source, db: Db, procs: map<nat, Proc>)

  datatype Action =
    | Produce(step: SourceStep)
    | Join(pid: nat, group: string, part: nat)
    | Load(pid: nat, group: string, key: string)
    | Do(pid: nat, move: Move)

  const INIT: Sys :=
    Sys(Source(map[], map[], map[]), Db({}, multiset{}, {}, map[], 0, map[]), map[])

  function CommittedOf(db: Db, group: string, part: nat): nat {
    if (group, part) in db.committed then db.committed[(group, part)] else 0
  }

  /** Another open transaction has inserted this claim: the insert waits. */
  predicate Locked(procs: map<nat, Proc>, group: string, key: string) {
    exists pid :: pid in procs && procs[pid].group == group && procs[pid].pc.InTx? && procs[pid].pc.key == key
  }

  predicate Enabled(s: Sys, a: Action) {
    match a
    case Produce(step) => SourceCan(s.source, step)
    case Join(pid, _, _) => pid !in s.procs
    case Load(pid, group, key) =>
      pid !in s.procs && (group, key) in s.db.parked && EnvelopeOf(s.db.parked[(group, key)]).Env?
    case Do(pid, m) =>
      && pid in s.procs && CanMove(s.source.log, s.db, s.procs[pid], m)
      && (m == Claim ==> !Locked(s.procs, s.procs[pid].group, DedupeKey(InHand(s.source.log, s.procs[pid]).value)))
  }

  function Placed(procs: map<nat, Proc>, pid: nat, p: Option<Proc>): map<nat, Proc> {
    if p.Some? then procs[pid := p.value] else procs - {pid}
  }

  function Apply(rule: FetchRule, s: Sys, a: Action): Sys
    requires Enabled(s, a)
  {
    match a
    case Produce(step) => Sys(SourceNext(s.source, step), s.db, s.procs)
    case Join(pid, group, part) =>
      Sys(s.source, s.db, s.procs[pid := Consumer(group, part, CommittedOf(s.db, group, part), {}, Fetching)])
    case Load(pid, group, key) =>
      var row := s.db.parked[(group, key)];
      Sys(s.source, s.db, s.procs[pid := Operator(group, key, row.id, EnvelopeOf(row).env, Attempting(1))])
    case Do(pid, m) =>
      var p := s.procs[pid];
      Sys(s.source, MoveDb(s.source.log, s.db, p, m), Placed(s.procs, pid, MoveProc(rule, s.source.log, s.db, p, m)))
  }

  /** `acts` is a run from `s` to `t`. */
  ghost predicate Runs(rule: FetchRule, s: Sys, acts: seq<Action>, t: Sys)
    decreases |acts|
  {
    if acts == [] then s == t
    else Enabled(s, acts[0]) && Runs(rule, Apply(rule, s, acts[0]), acts[1..], t)
  }

  // ---------------------------------------------------------------- invariants

  predicate Settled(db: Db, group: string, e: Envelope) {
    (group, DedupeKey(e)) in db.claims || (group, DedupeKey(e)) in db.skipped
  }

  /** Nothing about this message is lost if the group never reads it again. */
  predicate Resolved(db: Db, group: string, m: Message) {
    m.Event? ==> Settled(db, group, m.env) || (group, DedupeKey(m.env)) in db.parked
  }

  ghost predicate Logged(log: Log, e: Envelope) {
    exists part, i :: part in log && 0 <= i < |log[part]| && log[part][i] == Event(e)
  }

  ghost predicate OutboxOk(s: Source) {
    forall r :: r in s.outbox ==>
      && RefOf(s.outbox[r].env) == r && Appendable(s.outbox[r].env)
      && (s.outbox[r].published ==> Logged(s.log, s.outbox[r].env))
  }

  ghost predicate RelaysOk(s: Source) {
    forall r :: r in s.relays ==>
      && (s.relays[r].sent ==> s.relays[r].todo != [])
      && (forall k :: 0 <= k < |s.relays[r].todo| ==> s.relays[r].todo[k] in s.outbox)
      && (s.relays[r].sent ==> Logged(s.log, s.outbox[s.relays[r].todo[0]].env))
  }

  predicate LogOk(log: Log) {
    forall p, i :: p in log && 0 <= i < |log[p]| && log[p][i].Event? ==> Appendable(log[p][i].env)
  }

  ghost predicate SourceOk(s: Source) {
    OutboxOk(s) && RelaysOk(s) && LogOk(s.log)
  }

  /** One committed effect where there is a claim, none where there is not. */
  ghost predicate EffectsMatchClaims(db: Db) {
    forall g: string, r: Ref :: db.effects[(g, r)] == if (g, KeyOf(r.0, r.1)) in db.claims then 1 else 0
  }

  predicate RowsOk(db: Db) {
    forall at :: at in db.parked ==>
      EnvelopeOf(db.parked[at]).Env? && DedupeKey(EnvelopeOf(db.parked[at]).env) == at.1
  }

  predicate OffsetsOk(log: Log, db: Db) {
    forall at :: at in db.committed ==> db.committed[at] <= |LogOf(log, at.1)|
  }

  predicate ClaimsExclusive(db: Db, procs: map<nat, Proc>) {
    && (forall i :: i in procs && procs[i].pc.InTx? ==> (procs[i].group, procs[i].pc.key) !in db.claims)
    && (forall i, j :: i in procs && j in procs && i != j && procs[i].pc.InTx? && procs[j].pc.InTx? ==>
          procs[i].group != procs[j].group || procs[i].pc.key != procs[j].pc.key)
  }

  predicate ProcOk(log: Log, db: Db, p: Proc) {
    var e := InHand(log, p);
    && (p.pc != Fetching && p.pc != Concluded ==> e.Some?)
    && (p.pc.InTx? ==> e.Some? && p.pc.key == DedupeKey(e.value))
    && match p
       case Operator(g, k, _, env, pc) =>
         && DedupeKey(env) == k
         && (pc.Attempting? || pc.InTx? || pc == Concluded)
         && (pc == Concluded ==> Settled(db, g, env))
       case Consumer(g, part, cursor, _, pc) =>
         && cursor <= |LogOf(log, part)|
         && (pc != Fetching ==> cursor < |LogOf(log, part)|)
         && (pc == Concluded ==> Resolved(db, g, LogOf(log, part)[cursor]))
  }

  predicate ProcsOk(log: Log, db: Db, procs: map<nat, Proc>) {
    forall i :: i in procs ==> ProcOk(log, db, procs[i])
  }

  /** What every run keeps, whatever the reader does. */
  ghost predicate Inv(s: Sys) {
    && SourceOk(s.source) && RowsOk(s.db) && OffsetsOk(s.source.log, s.db)
    && EffectsMatchClaims(s.db) && ClaimsExclusive(s.db, s.procs) && ProcsOk(s.source.log, s.db, s.procs)
  }

  /** The group needs the part of the partition before `upTo` no more, except
      for the given offsets. */
  predicate Covered(log: Log, db: Db, group: string, part: nat, upTo: nat, except: set<nat>) {
    forall k :: 0 <= k < upTo && k < |LogOf(log, part)| && k !in except ==> Resolved(db, group, LogOf(log, part)[k])
  }

  /** Everything a consumer session has passed by is accounted for, except what
      it gave up on. */
  predicate SessionOk(log: Log, db: Db, p: Proc) {
    p.Consumer? ==>
      && Covered(log, db, p.group, p.part, p.cursor, p.gaveUp)
      && forall k :: k in p.gaveUp ==> k < p.cursor
  }

  predicate SessionsOk(s: Sys) {
    forall i :: i in s.procs ==> SessionOk(s.source.log, s.db, s.procs[i])
  }

  predicate CommittedCovered(s: Sys) {
    forall at :: at in s.db.committed ==> Covered(s.source.log, s.db, at.0, at.1, s.db.committed[at], {})
  }

  predicate NobodyGaveUp(procs: map<nat, Proc>) {
    forall i :: i in procs && procs[i].Consumer? ==> procs[i].gaveUp == {}
  }
}
