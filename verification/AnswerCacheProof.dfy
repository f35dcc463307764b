/** What every interleaving of calls, forgets and clock ticks keeps. */
module AnswerCacheProof {
  import opened Text
  import opened AnswerCache

  lemma {:induction false} CountTail(fs: seq<Forget>, n: nat, t: Option<int>)
    requires n <= |fs|
    ensures ForgetsOf(fs[..n], t) <= ForgetsOf(fs, t) <= ForgetsOf(fs[..n], t) + |fs| - n
    ensures ForgetsOf(fs, t) == ForgetsOf(fs[..n], t) <==> forall i :: n <= i < |fs| ==> fs[i].tenant != t
    decreases |fs|
  {
    if n == |fs| {
      assert fs[..n] == fs;
    } else {
      var init := fs[..|fs| - 1];
      CountTail(init, n, t);
      assert init[..n] == fs[..n];
      assert ForgetsOf(fs, t) == ForgetsOf(init, t) + if fs[|fs| - 1].tenant == t then 1 else 0;
    }
  }

  lemma ModDistinguishes(a: nat, b: nat, m: nat)
    requires m > 0 && a <= b < a + m
    ensures a % m == b % m <==> a == b
  {
    if a % m == b % m {
      assert b - a == m * (b / m - a / m);
      DivModUnique(b - a, m, b / m - a / m, 0);
      DivModUnique(b - a, m, 0, b - a);
    }
  }

  lemma SuccMod(a: nat, m: nat)
    requires m > 1
    ensures (a % m + 1) % m == (a + 1) % m
  {
    var q, r := a / m, a % m;
    if r + 1 == m {
      DivModUnique(a + 1, m, q + 1, 0);
      DivModUnique(m, m, 1, 0);
    } else {
      DivModUnique(a + 1, m, q, r + 1);
      DivModUnique(r + 1, m, 0, r + 1);
    }
  }

  lemma CountSnoc(fs: seq<Forget>, f: Forget, t: Option<int>)
    ensures ForgetsOf(fs + [f], t) == ForgetsOf(fs, t) + if f.tenant == t then 1 else 0
  {
    assert (fs + [f])[..|fs|] == fs;
  }

  /** A ticket is honoured exactly when the numbers of forgets since its lookup,
      the company's own and the global ones, are both multiples of 2^64: in
      practice, when there were none. */
  lemma AcceptedExactly(s: Sys, q: Question, t: Ticket, seen: nat)
    requires Bookkeeping(s) && EpochsOk(s) && TicketOk(s, q, t, seen)
    ensures Accepts(s.cache, q.tenant, t) <==>
            && ForgetsOf(s.forgets[..seen], Some(q.tenant)) % UINT64 == ForgetsOf(s.forgets, Some(q.tenant)) % UINT64
            && ForgetsOf(s.forgets[..seen], None) % UINT64 == ForgetsOf(s.forgets, None) % UINT64
    ensures |s.forgets| - seen < UINT64 ==>
            (Accepts(s.cache, q.tenant, t) <==> forall i :: seen <= i < |s.forgets| ==> !Concerns(s.forgets[i], q.tenant))
  {
    CountTail(s.forgets, seen, Some(q.tenant));
    CountTail(s.forgets, seen, None);
    if |s.forgets| - seen < UINT64 {
      ModDistinguishes(ForgetsOf(s.forgets[..seen], Some(q.tenant)), ForgetsOf(s.forgets, Some(q.tenant)), UINT64);
      ModDistinguishes(ForgetsOf(s.forgets[..seen], None), ForgetsOf(s.forgets, None), UINT64);
    }
  }

  lemma KeptIsSmaller(entries: map<string, Entry>, max: nat, now: int)
    requires max > 0
    ensures |Kept(entries, max, now)| < max
    ensures forall k :: k in Kept(entries, max, now) ==> k in entries && Kept(entries, max, now)[k] == entries[k]
  {
  }

  lemma FilteredIsSmaller(m: map<string, Entry>, n: map<string, Entry>)
    requires n.Keys <= m.Keys
    ensures |n| <= |m|
  {
    KeysShrink(n.Keys, m.Keys);
  }

  lemma {:induction false} KeysShrink(a: set<string>, b: set<string>)
    requires a <= b
    ensures |a| <= |b|
    decreases |b|
  {
    if a != {} {
      var x :| x in a;
      KeysShrink(a - {x}, b - {x});
    }
  }

  lemma BoundKept(s: Sys, a: Action, max: nat, ttl: nat)
    requires max > 0 && |s.cache.entries| <= max && Enabled(s, a)
    ensures |NextCache(s, a, max, ttl).entries| <= max
  {
    match a
    case Keep(c) => KeptIsSmaller(s.cache.entries, max, s.now);
    case ForgetOne(t) => FilteredIsSmaller(s.cache.entries, NextCache(s, a, max, ttl).entries);
    case _ =>
  }

  lemma EpochsAfterForget(s: Sys, u: Sys, f: Forget)
    requires EpochsOk(s) && u.forgets == s.forgets + [f]
    requires u.cache.epochs == if f.tenant == None then s.cache.epochs
                               else s.cache.epochs[f.tenant.value := (EpochOf(s.cache, f.tenant.value) + 1) % UINT64]
    ensures EpochsOk(u)
  {
    forall x: int ensures EpochOf(u.cache, x) == ForgetsOf(u.forgets, Some(x)) % UINT64 {
      CountSnoc(s.forgets, f, Some(x));
      SuccMod(ForgetsOf(s.forgets, Some(x)), UINT64);
      assert EpochOf(s.cache, x) == ForgetsOf(s.forgets, Some(x)) % UINT64;
    }
  }

  lemma BookkeepingAfterForget(s: Sys, u: Sys, f: Forget)
    requires Bookkeeping(s) && u.forgets == s.forgets + [f] && f.at == s.tick && u.tick == s.tick + 1 && u.changed == s.changed
    requires u.cache.global == if f.tenant == None then (s.cache.global + 1) % UINT64 else s.cache.global
    ensures Bookkeeping(u)
  {
    CountSnoc(s.forgets, f, None);
    SuccMod(ForgetsOf(s.forgets, None), UINT64);
  }

  lemma CountsKept(s: Sys, a: Action, max: nat, ttl: nat)
    requires Bookkeeping(s) && EpochsOk(s) && Enabled(s, a)
    ensures Bookkeeping(Apply(s, a, max, ttl)) && EpochsOk(Apply(s, a, max, ttl))
  {
    var u := Apply(s, a, max, ttl);
    if a.ForgetOne? || a.ForgetEvery? {
      var f := Forget(s.tick, if a.ForgetOne? then Some(a.tenant) else None);
      EpochsAfterForget(s, u, f);
      BookkeepingAfterForget(s, u, f);
    } else {
      QuietStep(s, a, max, ttl);
    }
  }

  lemma QuietStep(s: Sys, a: Action, max: nat, ttl: nat)
    requires Bookkeeping(s) && EpochsOk(s) && Enabled(s, a) && !a.ForgetOne? && !a.ForgetEvery?
    ensures Bookkeeping(Apply(s, a, max, ttl)) && EpochsOk(Apply(s, a, max, ttl))
  {
    hide ForgetsOf;
    var u := Apply(s, a, max, ttl);
    assert u.forgets == s.forgets && u.cache.global == s.cache.global && u.cache.epochs == s.cache.epochs;
    forall x: int ensures EpochOf(u.cache, x) == ForgetsOf(u.forgets, Some(x)) % UINT64 {
      assert EpochOf(s.cache, x) == ForgetsOf(s.forgets, Some(x)) % UINT64;
    }
  }

  /** How one step changes the history that replies and tickets refer to. */
  ghost predicate Moves(s: Sys, u: Sys) {
    && u.tick == s.tick + 1 && s.forgets <= u.forgets && |u.forgets| <= |s.forgets| + 1
    && (|u.forgets| > |s.forgets| ==> u.forgets[|s.forgets|].at == s.tick)
    && (forall t: int :: (ChangedAt(u, t) == ChangedAt(s, t) && VersionOf(u, t) == VersionOf(s, t)) || ChangedAt(u, t) == s.tick)
  }

  lemma StepMoves(s: Sys, a: Action, max: nat, ttl: nat)
    requires Enabled(s, a)
    ensures Moves(s, Apply(s, a, max, ttl))
  {
  }

  lemma ReplyStaysOk(s: Sys, u: Sys, r: Reply)
    requires Moves(s, u) && ReplyOk(s, r)
    ensures ReplyOk(u, r)
  {
    assert ChangedAt(u, r.question.tenant) == s.tick || ChangedAt(u, r.question.tenant) == ChangedAt(s, r.question.tenant);
  }

  lemma CallStaysOk(s: Sys, u: Sys, ttl: nat, c: Call)
    requires Moves(s, u) && CallOk(s, ttl, c)
    ensures CallOk(u, ttl, c)
  {
    if c.Missed? || c.Asking? || c.Answered? {
      assert u.forgets[..c.seen] == s.forgets[..c.seen];
    }
    if c.Answered? {
      ReplyStaysOk(s, u, c.reply);
    }
  }

  lemma MovedCallOk(s: Sys, a: Action, max: nat, ttl: nat, c: nat)
    requires Inv(s, max, ttl) && Enabled(s, a) && c in NextCall(s, a)
    requires c !in s.calls || NextCall(s, a)[c] != s.calls[c]
    ensures CallOk(Apply(s, a, max, ttl), ttl, NextCall(s, a)[c])
  {
    var u := Apply(s, a, max, ttl);
    match a
    case Begin(_, q) =>
    case LookUp(_) =>
      var q := s.calls[c].question;
      var key := CacheKey(q);
      assert u.forgets == s.forgets && CallOk(s, ttl, s.calls[c]);
      if IsHit(s.cache, key, s.now) {
        var e := s.cache.entries[key];
        assert EntryOk(s, ttl, key, e);
        CacheKeyInjective(e.reply.question, q);
      } else {
        assert s.forgets[..|s.forgets|] == s.forgets;
        assert EpochOf(s.cache, q.tenant) == ForgetsOf(s.forgets, Some(q.tenant)) % UINT64;
      }
    case Invoke(_) =>
      assert u.forgets == s.forgets && CallOk(s, ttl, s.calls[c]);
    case Answer(_) =>
      assert u.forgets == s.forgets && CallOk(s, ttl, s.calls[c]);
  }

  /** What is stored was fetched after every forget that concerns it. */
  lemma StoredIsFresh(s: Sys, ttl: nat, c: Call)
    requires Bookkeeping(s) && EpochsOk(s) && CallOk(s, ttl, c) && c.Answered?
    requires Accepts(s.cache, c.question.tenant, c.ticket) && |s.forgets| - c.seen < UINT64
    ensures FreshReply(s, c.reply)
  {
    AcceptedExactly(s, c.question, c.ticket, c.seen);
  }

  lemma EntryStaysOk(s: Sys, u: Sys, ttl: nat, k: string, e: Entry)
    requires Moves(s, u) && EntryOk(s, ttl, k, e)
    requires |u.forgets| > |s.forgets| ==> !Concerns(u.forgets[|s.forgets|], e.tenant)
    requires k in u.storedAt && u.storedAt[k] == s.storedAt[k]
    ensures EntryOk(u, ttl, k, e)
  {
    ReplyStaysOk(s, u, e.reply);
  }

  lemma StoredEntryOk(s: Sys, a: Action, max: nat, ttl: nat)
    requires Inv(s, max, ttl) && Enabled(s, a) && NotWrapped(s, a) && a.Keep?
    requires Accepts(s.cache, s.calls[a.call].question.tenant, s.calls[a.call].ticket)
    ensures var u, call := Apply(s, a, max, ttl), s.calls[a.call];
            var key := CacheKey(call.question);
            EntryOk(u, ttl, key, Entry(call.question.tenant, call.reply, s.now + ttl))
  {
    hide ForgetsOf, CacheKey;
    var call := s.calls[a.call];
    assert CallOk(s, ttl, call);
    StoredIsFresh(s, ttl, call);
    StepMoves(s, a, max, ttl);
    ReplyStaysOk(s, Apply(s, a, max, ttl), call.reply);
  }

  lemma EntriesKept(s: Sys, a: Action, max: nat, ttl: nat)
    requires max > 0 && Inv(s, max, ttl) && Enabled(s, a) && NotWrapped(s, a)
    ensures var u := Apply(s, a, max, ttl);
            forall k :: k in u.cache.entries ==> EntryOk(u, ttl, k, u.cache.entries[k])
  {
    hide ForgetsOf, CacheKey, Kept;
    var u := Apply(s, a, max, ttl);
    StepMoves(s, a, max, ttl);
    var stores := a.Keep? && Accepts(s.cache, s.calls[a.call].question.tenant, s.calls[a.call].ticket);
    if stores {
      StoredEntryOk(s, a, max, ttl);
      KeptIsSmaller(s.cache.entries, max, s.now);
    }
    hide EntryOk;
    forall k | k in u.cache.entries ensures EntryOk(u, ttl, k, u.cache.entries[k]) {
      if !stores || k != CacheKey(s.calls[a.call].question) {
        EntryHasTime(s, ttl, k, s.cache.entries[k]);
        EntryStaysOk(s, u, ttl, k, s.cache.entries[k]);
      }
    }
  }

  lemma EntryHasTime(s: Sys, ttl: nat, k: string, e: Entry)
    requires EntryOk(s, ttl, k, e)
    ensures k in s.storedAt
  {
  }

  lemma StepKeepsInv(s: Sys, a: Action, max: nat, ttl: nat)
    requires max > 0 && Inv(s, max, ttl) && Enabled(s, a) && NotWrapped(s, a)
    ensures Inv(Apply(s, a, max, ttl), max, ttl)
  {
    var u := Apply(s, a, max, ttl);
    CountsKept(s, a, max, ttl);
    BoundKept(s, a, max, ttl);
    EntriesKept(s, a, max, ttl);
    StepMoves(s, a, max, ttl);
    forall c | c in u.calls ensures CallOk(u, ttl, u.calls[c]) {
      if c in s.calls && u.calls[c] == s.calls[c] {
        CallStaysOk(s, u, ttl, s.calls[c]);
      } else {
        MovedCallOk(s, a, max, ttl, c);
      }
    }
  }

  /** A run; it is short of 2^64 forgets during any one call. */
  ghost predicate Runs(s: Sys, acts: seq<Action>, u: Sys, max: nat, ttl: nat)
    decreases |acts|
  {
    if acts == [] then s == u
    else Enabled(s, acts[0]) && NotWrapped(s, acts[0]) && Runs(Apply(s, acts[0], max, ttl), acts[1..], u, max, ttl)
  }

  lemma {:induction false} RunKeepsInv(s: Sys, acts: seq<Action>, u: Sys, max: nat, ttl: nat)
    requires max > 0 && Inv(s, max, ttl) && Runs(s, acts, u, max, ttl)
    ensures Inv(u, max, ttl)
    decreases |acts|
  {
    if acts != [] {
      StepKeepsInv(s, acts[0], max, ttl);
      RunKeepsInv(Apply(s, acts[0], max, ttl), acts[1..], u, max, ttl);
    }
  }

  // ------------------------------------------------------------------ theorems

  lemma EmptyInv(max: nat, ttl: nat)
    ensures Inv(EMPTY, max, ttl)
  {
  }

  /** Whatever the interleaving, an answer from memory was given to the same
      question of the same company, less than the TTL before, and for every
      forget of that company (or of everything) before the call began, its
      fetch began after that forget. The map never exceeds its bound. */
  lemma Coherence(acts: seq<Action>, u: Sys, max: nat, ttl: nat, c: nat)
    requires max > 0 && Runs(EMPTY, acts, u, max, ttl)
    ensures |u.cache.entries| <= max
    ensures c in u.calls && u.calls[c].Hit? ==>
            var h := u.calls[c];
            && h.reply.question == h.question && h.now < h.storedAt + ttl
            && forall i :: 0 <= i < |u.forgets| && Concerns(u.forgets[i], h.question.tenant) && u.forgets[i].at <= h.began ==>
                 u.forgets[i].at < h.reply.fetchedAt
  {
    hide Runs, EntryOk, ForgetsOf;
    EmptyInv(max, ttl);
    RunKeepsInv(EMPTY, acts, u, max, ttl);
    if c in u.calls {
      assert CallOk(u, ttl, u.calls[c]);
    }
  }

  lemma HitEntry(u: Sys, max: nat, ttl: nat, q: Question)
    requires Inv(u, max, ttl) && NoNul(q.method_) && CacheKey(q) in u.cache.entries
    ensures var r := u.cache.entries[CacheKey(q)].reply; r.question == q && ReplyOk(u, r) && FreshReply(u, r)
  {
    hide CallOk, ForgetsOf;
    var e := u.cache.entries[CacheKey(q)];
    assert EntryOk(u, ttl, CacheKey(q), e);
    CacheKeyInjective(e.reply.question, q);
  }

  /** If the company's access data has not changed since it was last forgotten,
      a lookup that hits gives what iam would answer at that very moment. */
  lemma HitAgreesWithIam(acts: seq<Action>, u: Sys, max: nat, ttl: nat, q: Question, i: nat)
    requires max > 0 && Runs(EMPTY, acts, u, max, ttl) && NoNul(q.method_)
    requires IsHit(u.cache, CacheKey(q), u.now)
    requires i < |u.forgets| && Concerns(u.forgets[i], q.tenant) && ChangedAt(u, q.tenant) <= u.forgets[i].at
    ensures var r := u.cache.entries[CacheKey(q)].reply;
            r.question == q && r.version == VersionOf(u, q.tenant)
  {
    hide Runs, Inv, CacheKey;
    EmptyInv(max, ttl);
    RunKeepsInv(EMPTY, acts, u, max, ttl);
    HitEntry(u, max, ttl, q);
  }

  // --------------------------------------------------------------- remembering

  /** The step takes the entry `e` at `key` away: a forget that concerns it, an
      accepted store under its key, or one into a full map, when the entry has
      expired or when all that have not still fill the map. */
  predicate Dislodges(s: Sys, a: Action, max: nat, key: string, e: Entry) {
    match a
    case ForgetEvery => true
    case ForgetOne(t) => t == e.tenant
    case Keep(c) =>
      c in s.calls && s.calls[c].Answered? &&
      var call := s.calls[c];
      && call.ticket.global == s.cache.global && call.ticket.epoch == EpochOf(s.cache, call.question.tenant)
      && (CacheKey(call.question) == key
          || (|s.cache.entries| >= max && (s.now >= e.expires || |Live(s.cache.entries, s.now)| >= max)))
    case _ => false
  }

  lemma StepRemembers(s: Sys, a: Action, max: nat, ttl: nat, key: string, e: Entry)
    requires Enabled(s, a) && key in s.cache.entries && s.cache.entries[key] == e && !Dislodges(s, a, max, key, e)
    ensures var u := Apply(s, a, max, ttl); key in u.cache.entries && u.cache.entries[key] == e
  {
    hide CacheKey;
    if a.Keep? {
      var call := s.calls[a.call];
      KeptMeans(s.cache.entries, max, s.now, CacheKey(call.question), Entry(call.question.tenant, call.reply, s.now + ttl));
      hide Kept, Live;
    }
  }

  ghost predicate Undisturbed(s: Sys, acts: seq<Action>, u: Sys, max: nat, ttl: nat, key: string, e: Entry)
    requires Runs(s, acts, u, max, ttl)
    decreases |acts|
  {
    acts != [] ==> !Dislodges(s, acts[0], max, key, e) && Undisturbed(Apply(s, acts[0], max, ttl), acts[1..], u, max, ttl, key, e)
  }

  lemma {:induction false} RunRemembers(s: Sys, acts: seq<Action>, u: Sys, max: nat, ttl: nat, key: string, e: Entry)
    requires Runs(s, acts, u, max, ttl) && key in s.cache.entries && s.cache.entries[key] == e
    requires Undisturbed(s, acts, u, max, ttl, key, e)
    ensures key in u.cache.entries && u.cache.entries[key] == e
    decreases |acts|
  {
    if acts != [] {
      StepRemembers(s, acts[0], max, ttl, key, e);
      hide Apply, Dislodges;
      RunRemembers(Apply(s, acts[0], max, ttl), acts[1..], u, max, ttl, key, e);
    }
  }

  /** An answer stored under a current ticket is given to every later lookup of
      the same question until its time is up, whatever runs in between, unless a
      step on the way took it away. */
  lemma AnswersAreRemembered(s: Sys, c: nat, acts: seq<Action>, u: Sys, max: nat, ttl: nat, d: nat)
    requires Enabled(s, Keep(c)) && Accepts(s.cache, s.calls[c].question.tenant, s.calls[c].ticket)
    requires Runs(Apply(s, Keep(c), max, ttl), acts, u, max, ttl)
    requires var q := s.calls[c].question;
             Undisturbed(Apply(s, Keep(c), max, ttl), acts, u, max, ttl, CacheKey(q), Entry(q.tenant, s.calls[c].reply, s.now + ttl))
    requires u.now < s.now + ttl && d in u.calls && u.calls[d].Began? && u.calls[d].question == s.calls[c].question
    ensures var v := Apply(u, LookUp(d), max, ttl);
            d in v.calls && v.calls[d].Hit? && v.calls[d].reply == s.calls[c].reply
  {
    var q := s.calls[c].question;
    hide Runs, Undisturbed, CacheKey, Kept;
    RunRemembers(Apply(s, Keep(c), max, ttl), acts, u, max, ttl, CacheKey(q), Entry(q.tenant, s.calls[c].reply, s.now + ttl));
  }

  // ------------------------------------------------------------------ wrapping

  function ForgetTimes(c: Cache, tenant: int, n: nat): Cache {
    if n == 0 then c else TenantForgotten(ForgetTimes(c, tenant, n - 1), tenant)
  }

  lemma {:induction false} EpochAfter(c: Cache, tenant: int, n: nat)
    requires EpochOf(c, tenant) < UINT64
    ensures EpochOf(ForgetTimes(c, tenant, n), tenant) == (EpochOf(c, tenant) + n) % UINT64
    ensures ForgetTimes(c, tenant, n).global == c.global
  {
    if n > 0 {
      EpochAfter(c, tenant, n - 1);
      SuccMod(EpochOf(c, tenant) + n - 1, UINT64);
    }
  }

  /** The epoch is a uint64: after n forgets during one call the ticket is still
      honoured exactly when n is a multiple of 2^64. */
  lemma EpochWraps(c: Cache, tenant: int, n: nat)
    requires EpochOf(c, tenant) < UINT64
    ensures Accepts(ForgetTimes(c, tenant, n), tenant, TicketFor(c, tenant)) <==> n % UINT64 == 0
  {
    EpochAfter(c, tenant, n);
    var e := EpochOf(c, tenant);
    WrapsExactly(e, n, UINT64);
  }

  lemma WrapsExactly(e: nat, n: nat, m: nat)
    requires e < m
    ensures (e + n) % m == e <==> n % m == 0
  {
    if (e + n) % m == e {
      DivModUnique(n, m, (e + n) / m, 0);
    } else if n % m == 0 {
      DivModUnique(e + n, m, n / m, e);
    }
  }
}
