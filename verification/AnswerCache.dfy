/** The calling side's memory of access answers (pkg/grpcx/answercache.go): its
    key, the mutex-guarded operations, and what any interleaving of calls,
    forgets and clock ticks may observe. */
module AnswerCache {
  import opened Text

  // ----------------------------------------------------------------------- key

  datatype Question = Question(method_: string, tenant: int, employee: int, body: string)

  predicate NoNul(s: string) {
    forall i :: 0 <= i < |s| ==> s[i] != '\0'
  }

  function CacheKey(q: Question): string {
    q.method_ + "\0" + (FormatInt(q.tenant) + "\0" + (FormatInt(q.employee) + "\0" + q.body))
  }

  lemma FormatHasNoNul(n: int)
    ensures NoNul(FormatInt(n))
  {
    assert AllDigits(Decimal(if n < 0 then -n else n));
  }

  lemma SplitUnique(a: string, x: string, b: string, y: string)
    requires NoNul(a) && NoNul(b) && a + "\0" + x == b + "\0" + y
    ensures a == b && x == y
  {
    var s := a + "\0" + x;
    assert s[|a|] == '\0' && s[|b|] == '\0';
    assert forall i :: 0 <= i < |a| ==> s[i] == a[i];
    assert forall i :: 0 <= i < |b| ==> s[i] == (b + "\0" + y)[i] == b[i];
    assert a == s[..|a|] && b == s[..|b|];
    assert x == s[|a| + 1..] && y == s[|b| + 1..];
  }

  /** Two questions share a key only if they are the same question: the same
      method, company, asker and request. Method names carry no NUL. */
  lemma CacheKeyInjective(p: Question, q: Question)
    requires NoNul(p.method_) && NoNul(q.method_) && CacheKey(p) == CacheKey(q)
    ensures p == q
  {
    FormatHasNoNul(p.tenant);
    FormatHasNoNul(q.tenant);
    FormatHasNoNul(p.employee);
    FormatHasNoNul(q.employee);
    SplitUnique(p.method_, FormatInt(p.tenant) + "\0" + (FormatInt(p.employee) + "\0" + p.body),
                q.method_, FormatInt(q.tenant) + "\0" + (FormatInt(q.employee) + "\0" + q.body));
    SplitUnique(FormatInt(p.tenant), FormatInt(p.employee) + "\0" + p.body,
                FormatInt(q.tenant), FormatInt(q.employee) + "\0" + q.body);
    SplitUnique(FormatInt(p.employee), p.body, FormatInt(q.employee), q.body);
    FormatInjective(p.tenant, q.tenant);
    FormatInjective(p.employee, q.employee);
  }

  // ---------------------------------------------------------------- operations

  /** An answer names the question it answers, the version of the company's
      access data it was read from, and the moment its fetch began. */
  datatype Reply = Reply(question: Question, version: nat, fetchedAt: nat)

  datatype Entry = Entry(tenant: int, reply: Reply, expires: int)

  datatype Ticket = Ticket(epoch: nat, global: nat)

  datatype Cache = Cache(entries: map<string, Entry>, epochs: map<int, nat>, global: nat)

  const UINT64: nat := 0x1_0000_0000_0000_0000

  function EpochOf(c: Cache, tenant: int): nat {
    if tenant in c.epochs then c.epochs[tenant] else 0
  }

  predicate IsHit(c: Cache, key: string, now: int) {
    key in c.entries && now < c.entries[key].expires
  }

  function TicketFor(c: Cache, tenant: int): Ticket {
    Ticket(EpochOf(c, tenant), c.global)
  }

  predicate Accepts(c: Cache, tenant: int, t: Ticket) {
    t == TicketFor(c, tenant)
  }

  /** The entries an insertion keeps: all while there is room, the unexpired
      ones when it is full, none when even those fill it. */
  function Kept(entries: map<string, Entry>, max: nat, now: int): map<string, Entry> {
    if |entries| < max then entries
    else
      var live := map k | k in entries && now < entries[k].expires :: entries[k];
      if |live| < max then live else map[]
  }

  function Stored(c: Cache, max: nat, ttl: nat, key: string, tenant: int, reply: Reply, t: Ticket, now: int): Cache {
    if !Accepts(c, tenant, t) then c
    else c.(entries := Kept(c.entries, max, now)[key := Entry(tenant, reply, now + ttl)])
  }

  function TenantForgotten(c: Cache, tenant: int): Cache {
    Cache(map k | k in c.entries && c.entries[k].tenant != tenant :: c.entries[k],
          c.epochs[tenant := (EpochOf(c, tenant) + 1) % UINT64], c.global)
  }

  function AllForgotten(c: Cache): Cache {
    Cache(map[], c.epochs, (c.global + 1) % UINT64)
  }

  // ------------------------------------------------ what these mean, entry by entry

  function Live(entries: map<string, Entry>, now: int): set<string> {
    set k | k in entries && now < entries[k].expires
  }

  /** What an accepted answer leaves of the others: all of them while there is
      room; those not yet expired when that makes room; else nothing. */
  ghost predicate MadeRoom(was: map<string, Entry>, left: map<string, Entry>, key: string, max: nat, now: int) {
    forall k: string :: k != key ==>
      && (k in left <==> k in was && (|was| < max || (now < was[k].expires && |Live(was, now)| < max)))
      && (k in left ==> left[k] == was[k])
  }

  lemma KeptMeans(was: map<string, Entry>, max: nat, now: int, key: string, e: Entry)
    ensures MadeRoom(was, Kept(was, max, now)[key := e], key, max, now)
  {
    var live := map k | k in was && now < was[k].expires :: was[k];
    assert live.Keys == Live(was, now);
  }

  /** The cache as the program keeps it; every method body runs under the mutex. */
  class Store {
    const ttl: nat
    const max: nat
    var entries: map<string, Entry>
    var epochs: map<int, nat>
    var global: nat
    var hits: nat
    var misses: nat

    function View(): Cache
      reads this
    {
      Cache(entries, epochs, global)
    }

    constructor (ttl: nat, max: nat)
      ensures View() == Cache(map[], map[], 0) && this.ttl == ttl && this.max == max && hits == misses == 0
    {
      this.ttl := ttl;
      this.max := max;
      entries := map[];
      epochs := map[];
      global := 0;
      hits := 0;
      misses := 0;
    }

    method Lookup(key: string, tenant: int, now: int) returns (reply: Option<Reply>, ticket: Ticket)
      modifies this`hits, this`misses
      ensures View() == old(View())
      ensures reply.Some? <==> key in entries && now < entries[key].expires
      ensures reply.Some? ==> reply.value == entries[key].reply
      ensures reply.None? ==> ticket == Ticket(if tenant in epochs then epochs[tenant] else 0, global)
      ensures reply == if IsHit(View(), key, now) then Some(entries[key].reply) else None
      ensures reply == None ==> ticket == TicketFor(View(), tenant)
      ensures hits + misses == old(hits + misses) + 1 && (hits == old(hits) + 1 <==> reply.Some?)
    {
      if key in entries && now < entries[key].expires {
        hits := hits + 1;
        return Some(entries[key].reply), Ticket(0, 0);
      }
      misses := misses + 1;
      return None, Ticket(if tenant in epochs then epochs[tenant] else 0, global);
    }

    method StoreAnswer(key: string, tenant: int, reply: Reply, t: Ticket, now: int)
      modifies this`entries
      ensures View() == Stored(old(View()), max, ttl, key, tenant, reply, t, now)
      // a ticket from before a forget stores nothing; otherwise the answer is in
      ensures var current := t.global == global && t.epoch == if tenant in epochs then epochs[tenant] else 0;
              if current then
                && key in entries && entries[key] == Entry(tenant, reply, now + ttl)
                && MadeRoom(old(entries), entries, key, max, now)
              else entries == old(entries)
    {
      KeptMeans(entries, max, now, key, Entry(tenant, reply, now + ttl));
      hide MadeRoom;
      var epoch := if tenant in epochs then epochs[tenant] else 0;
      if t.epoch != epoch || t.global != global {
        return;
      }
      if |entries| >= max {
        ghost var all := entries;
        var keys := entries.Keys;
        while keys != {}
          invariant keys <= all.Keys
          invariant forall k :: k in entries <==> k in all && (k in keys || now < all[k].expires)
          invariant forall k :: k in entries ==> entries[k] == all[k]
          decreases |keys|
        {
          var k :| k in keys;
          keys := keys - {k};
          if !(now < entries[k].expires) {
            entries := entries - {k};
          }
        }
        assert entries == map k | k in all && now < all[k].expires :: all[k];
        if |entries| >= max {
          entries := map[];
        }
      }
      entries := entries[key := Entry(tenant, reply, now + ttl)];
    }

    method ForgetTenant(tenant: int)
      modifies this`entries, this`epochs
      ensures View() == TenantForgotten(old(View()), tenant)
      // exactly the company's answers are gone, and only its epoch has moved
      ensures forall k :: k in entries <==> k in old(entries) && old(entries)[k].tenant != tenant
      ensures forall k :: k in entries ==> entries[k] == old(entries)[k]
      ensures epochs == old(epochs)[tenant := ((if tenant in old(epochs) then old(epochs)[tenant] else 0) + 1) % UINT64]
    {
      epochs := epochs[tenant := ((if tenant in epochs then epochs[tenant] else 0) + 1) % UINT64];
      ghost var all := entries;
      var keys := entries.Keys;
      while keys != {}
        invariant keys <= all.Keys && epochs == old(epochs)[tenant := (EpochOf(old(View()), tenant) + 1) % UINT64]
        invariant forall k :: k in entries <==> k in all && (k in keys || all[k].tenant != tenant)
        invariant forall k :: k in entries ==> entries[k] == all[k]
        decreases |keys|
      {
        var k :| k in keys;
        keys := keys - {k};
        if entries[k].tenant == tenant {
          entries := entries - {k};
        }
      }
      assert entries == map k | k in all && all[k].tenant != tenant :: all[k];
    }

    method ForgetAll()
      modifies this`entries, this`global
      ensures View() == AllForgotten(old(View()))
      ensures entries == map[] && global == (old(global) + 1) % UINT64
    {
      global := (global + 1) % UINT64;
      entries := map[];
    }
  }

  // ------------------------------------------------------------- interleavings

  datatype Forget = Forget(at: nat, tenant: Option<int>)

  predicate Concerns(f: Forget, tenant: int) {
    f.tenant == None || f.tenant == Some(tenant)
  }

  /** One call of the interceptor. `seen` is the number of forgets before its
      lookup. */
  datatype Call =
    | Began(question: Question, at: nat)
    | Missed(question: Question, ticket: Ticket, seen: nat, at: nat)
    | Asking(question: Question, ticket: Ticket, seen: nat, at: nat)
    | Answered(question: Question, ticket: Ticket, seen: nat, reply: Reply)
    | Hit(question: Question, began: nat, reply: Reply, now: int, storedAt: int)

  /** `tick` numbers the steps; `now` is the clock the entries expire by. */
  datatype Sys = Sys(
    cache: Cache, calls: map<nat, Call>, forgets: seq<Forget>, tick: nat, now: int,
    versions: map<int, nat>, changed: map<int, nat>, storedAt: map<string, int>)

  datatype Action =
    | Begin(call: nat, question: Question)
    | LookUp(call: nat)
    | Invoke(call: nat)
    | Answer(call: nat)
    | Drop(call: nat)
    | Keep(call: nat)
    | ForgetOne(tenant: int)
    | ForgetEvery
    | Wait(span: nat)
    | Change(tenant: int)

  const EMPTY: Sys := Sys(Cache(map[], map[], 0), map[], [], 1, 0, map[], map[], map[])

  function VersionOf(s: Sys, tenant: int): nat {
    if tenant in s.versions then s.versions[tenant] else 0
  }

  function ChangedAt(s: Sys, tenant: int): nat {
    if tenant in s.changed then s.changed[tenant] else 0
  }

  predicate Enabled(s: Sys, a: Action) {
    match a
    case Begin(c, q) => c !in s.calls && NoNul(q.method_)
    case LookUp(c) => c in s.calls && s.calls[c].Began?
    case Invoke(c) => c in s.calls && s.calls[c].Missed?
    case Answer(c) => c in s.calls && s.calls[c].Asking?
    case Drop(c) => c in s.calls
    case Keep(c) => c in s.calls && s.calls[c].Answered?
    case _ => true
  }

  function NextCall(s: Sys, a: Action): map<nat, Call>
    requires Enabled(s, a)
  {
    match a
    case Begin(c, q) => s.calls[c := Began(q, s.tick)]
    case LookUp(c) =>
      var q := s.calls[c].question;
      var key := CacheKey(q);
      s.calls[c := if IsHit(s.cache, key, s.now)
                   then Hit(q, s.calls[c].at, s.cache.entries[key].reply, s.now, if key in s.storedAt then s.storedAt[key] else 0)
                   else Missed(q, TicketFor(s.cache, q.tenant), |s.forgets|, s.tick)]
    case Invoke(c) => s.calls[c := Asking(s.calls[c].question, s.calls[c].ticket, s.calls[c].seen, s.tick)]
    case Answer(c) =>
      var q := s.calls[c].question;
      s.calls[c := Answered(q, s.calls[c].ticket, s.calls[c].seen, Reply(q, VersionOf(s, q.tenant), s.calls[c].at))]
    case Drop(c) => s.calls - {c}
    case Keep(c) => s.calls - {c}
    case _ => s.calls
  }

  function NextCache(s: Sys, a: Action, max: nat, ttl: nat): Cache
    requires Enabled(s, a)
  {
    match a
    case Keep(c) =>
      var call := s.calls[c];
      Stored(s.cache, max, ttl, CacheKey(call.question), call.question.tenant, call.reply, call.ticket, s.now)
    case ForgetOne(t) => TenantForgotten(s.cache, t)
    case ForgetEvery => AllForgotten(s.cache)
    case _ => s.cache
  }

  function Apply(s: Sys, a: Action, max: nat, ttl: nat): Sys
    requires Enabled(s, a)
  {
    Sys(NextCache(s, a, max, ttl), NextCall(s, a),
        match a case ForgetOne(t) => s.forgets + [Forget(s.tick, Some(t))] case ForgetEvery => s.forgets + [Forget(s.tick, None)] case _ => s.forgets,
        s.tick + 1,
        if a.Wait? then s.now + a.span else s.now,
        if a.Change? then s.versions[a.tenant := VersionOf(s, a.tenant) + 1] else s.versions,
        if a.Change? then s.changed[a.tenant := s.tick] else s.changed,
        if a.Keep? && Accepts(s.cache, s.calls[a.call].question.tenant, s.calls[a.call].ticket)
        then s.storedAt[CacheKey(s.calls[a.call].question) := s.now] else s.storedAt)
  }

  /** How many of the forgets concern this company alone, or everybody. */
  function ForgetsOf(fs: seq<Forget>, tenant: Option<int>): nat {
    if fs == [] then 0
    else ForgetsOf(fs[..|fs| - 1], tenant) + if fs[|fs| - 1].tenant == tenant then 1 else 0
  }

  predicate FreshReply(s: Sys, r: Reply) {
    forall i :: 0 <= i < |s.forgets| && Concerns(s.forgets[i], r.question.tenant) ==> s.forgets[i].at < r.fetchedAt
  }

  predicate ReplyOk(s: Sys, r: Reply) {
    && NoNul(r.question.method_) && r.fetchedAt < s.tick
    && (ChangedAt(s, r.question.tenant) < r.fetchedAt ==> r.version == VersionOf(s, r.question.tenant))
  }

  predicate EntryOk(s: Sys, ttl: nat, key: string, e: Entry) {
    && e.tenant == e.reply.question.tenant && CacheKey(e.reply.question) == key
    && ReplyOk(s, e.reply) && FreshReply(s, e.reply)
    && key in s.storedAt && e.expires == s.storedAt[key] + ttl
  }

  predicate TicketOk(s: Sys, q: Question, t: Ticket, seen: nat) {
    && seen <= |s.forgets|
    && t.epoch == ForgetsOf(s.forgets[..seen], Some(q.tenant)) % UINT64
    && t.global == ForgetsOf(s.forgets[..seen], None) % UINT64
  }

  /** Every forget up to the lookup came before `at`. */
  predicate SeenBefore(s: Sys, seen: nat, at: nat) {
    forall i :: 0 <= i < seen && i < |s.forgets| ==> s.forgets[i].at < at
  }

  predicate CallOk(s: Sys, ttl: nat, c: Call) {
    && NoNul(c.question.method_)
    && match c
       case Began(_, at) => at < s.tick
       case Missed(q, t, seen, at) => TicketOk(s, q, t, seen) && at < s.tick && SeenBefore(s, seen, at)
       case Asking(q, t, seen, at) =>
         TicketOk(s, q, t, seen) && at < s.tick && SeenBefore(s, seen, at)
       case Answered(q, t, seen, r) =>
         r.question == q && TicketOk(s, q, t, seen) && ReplyOk(s, r) && SeenBefore(s, seen, r.fetchedAt)
       case Hit(q, began, r, now, storedAt) =>
         && r.question == q && now < storedAt + ttl && began < s.tick
         && forall i :: 0 <= i < |s.forgets| && Concerns(s.forgets[i], q.tenant) && s.forgets[i].at <= began ==> s.forgets[i].at < r.fetchedAt
  }

  predicate Bookkeeping(s: Sys) {
    && (forall t :: t in s.changed ==> s.changed[t] < s.tick)
    && (forall i :: 0 <= i < |s.forgets| ==> s.forgets[i].at < s.tick)
    && s.cache.global == ForgetsOf(s.forgets, None) % UINT64
  }

  ghost predicate EpochsOk(s: Sys) {
    forall t: int :: EpochOf(s.cache, t) == ForgetsOf(s.forgets, Some(t)) % UINT64
  }

  ghost predicate Inv(s: Sys, max: nat, ttl: nat) {
    && Bookkeeping(s) && EpochsOk(s) && |s.cache.entries| <= max
    && (forall k :: k in s.cache.entries ==> EntryOk(s, ttl, k, s.cache.entries[k]))
    && (forall c :: c in s.calls ==> CallOk(s, ttl, s.calls[c]))
  }

  /** A 64-bit epoch cannot tell 2^64 forgets from none. */
  predicate NotWrapped(s: Sys, a: Action) {
    a.Keep? && a.call in s.calls && s.calls[a.call].Answered? ==> |s.forgets| - s.calls[a.call].seen < UINT64
  }
}
