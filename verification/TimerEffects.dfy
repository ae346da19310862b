/** Timers as their owners see them: a ledger of registrations and their deadlines, kept from the calls and their
    answers alone. The table with its free list, generations and versions keeps that ledger in every run. */
module TimerEffects {
  import opened Status
  import opened Timers

  /** A call and, for a registration, its answer. */
  datatype Call = Registered(answer: Option<Token>) | ArmedFor(token: Token, deadline: nat) | Unregistered(token: Token)

  /** Live registrations and their deadlines; zero is unarmed. */
  type Ledger = map<Token, nat>

  function Enter(m: Ledger, c: Call): Ledger {
    match c
    case Registered(answer) => if answer.Some? then m[answer.value := 0] else m
    case ArmedFor(token, deadline) => if token in m then m[token := deadline] else m
    case Unregistered(token) => m - {token}
  }

  function EnterAll(m: Ledger, calls: seq<Call>): Ledger
    decreases |calls|
  {
    if calls == [] then m else EnterAll(Enter(m, calls[0]), calls[1..])
  }

  function LedgerOf(t: Timers): Ledger {
    map s | 0 <= s < |t.slots| && t.slots[s].used :: Token(s, t.slots[s].generation) := t.slots[s].deadline
  }

  /** The ledger holds exactly the live tokens. */
  lemma LedgerHas(t: Timers, k: Token)
    ensures k in LedgerOf(t) <==> Live(t, k)
    ensures Live(t, k) ==> LedgerOf(t)[k] == t.slots[k.slot].deadline
  {
    if Live(t, k) {
      assert k == Token(k.slot, t.slots[k.slot].generation);
    }
  }

  lemma LedgerIs(t: Timers, m: Ledger)
    requires forall k: Token :: (k in m <==> Live(t, k)) && (k in m ==> m[k] == t.slots[k.slot].deadline)
    ensures LedgerOf(t) == m
  {
    forall k: Token
      ensures k in LedgerOf(t) <==> k in m
      ensures k in m ==> LedgerOf(t)[k] == m[k]
    {
      LedgerHas(t, k);
    }
  }

  // The three calls.

  /** tr_timer_queue_register answers with a slot off the free list and the generation after its last. */
  function Answer(t: Timers): Option<Token> {
    if t.free == [] || t.free[0] >= |t.slots| then None
    else Some(Token(t.free[0], NextGeneration(t.slots[t.free[0]].generation)))
  }

  function CallOf(t: Timers, op: Op): Call {
    match op
    case Register => Registered(Answer(t))
    case Arm(token, deadline) => ArmedFor(token, deadline)
    case Unregister(token) => Unregistered(token)
  }

  /** `u` differs from `t` at most in `slot`. */
  predicate OnlySlot(t: Timers, u: Timers, slot: nat) {
    |u.slots| == |t.slots| && forall s :: 0 <= s < |t.slots| && s != slot ==> u.slots[s] == t.slots[s]
  }

  /** Arming with a live token sets exactly the deadline; arming with any other changes nothing. */
  lemma ArmIs(t: Timers, token: Token, deadline: nat)
    ensures var u := DoArm(t, token, deadline);
      if Live(t, token) then
        && OnlySlot(t, u, token.slot) && u.free == t.free && Live(u, token)
        && u.slots[token.slot].deadline == deadline
        && (Armed(u.slots[token.slot]) <==> deadline != 0)
        && u.slots[token.slot].running == t.slots[token.slot].running
        && u.slots[token.slot].version == NextVersion(t.slots[token.slot].version)
      else u == t
    ensures LedgerOf(DoArm(t, token, deadline)) == Enter(LedgerOf(t), ArmedFor(token, deadline))
  {
    var u, m := DoArm(t, token, deadline), Enter(LedgerOf(t), ArmedFor(token, deadline));
    forall k: Token
      ensures (k in m <==> Live(u, k)) && (k in m ==> m[k] == u.slots[k.slot].deadline)
    {
      LedgerHas(t, k);
    }
    LedgerIs(u, m);
  }

  /** Registering succeeds exactly while a slot is free, and enters one fresh unarmed timer. */
  lemma RegisterIs(t: Timers)
    requires Valid(t)
    ensures Answer(t).Some? <==> exists s :: 0 <= s < |t.slots| && !t.slots[s].used
    ensures var u := DoRegister(t);
      match Answer(t)
      case None => u == t
      case Some(k) =>
        && k !in LedgerOf(t) && Live(u, k) && OnlySlot(t, u, k.slot) && u.free == t.free[1..]
        && !Armed(u.slots[k.slot]) && !u.slots[k.slot].running && u.slots[k.slot].version == 1
        && k.generation == NextGeneration(t.slots[k.slot].generation)
    ensures LedgerOf(DoRegister(t)) == Enter(LedgerOf(t), Registered(Answer(t)))
  {
    var u, m := DoRegister(t), Enter(LedgerOf(t), Registered(Answer(t)));
    if t.free != [] {
      assert !t.slots[t.free[0]].used;
      LedgerHas(t, Answer(t).value);
    }
    forall k: Token
      ensures (k in m <==> Live(u, k)) && (k in m ==> m[k] == u.slots[k.slot].deadline)
    {
      LedgerHas(t, k);
    }
    LedgerIs(u, m);
  }

  /** Unregistering a live token ends that registration and frees its slot; any other changes nothing. */
  lemma UnregisterIs(t: Timers, token: Token)
    ensures var u := DoUnregister(t, token);
      if Live(t, token) then
        && OnlySlot(t, u, token.slot) && !Live(u, token) && !u.slots[token.slot].used
        && u.slots[token.slot].generation == token.generation && u.free == [token.slot] + t.free
        && u.slots[token.slot].version == (t.slots[token.slot].version + 1) % VERSIONS && !u.slots[token.slot].running
      else u == t
    ensures LedgerOf(DoUnregister(t, token)) == Enter(LedgerOf(t), Unregistered(token))
  {
    var u, m := DoUnregister(t, token), Enter(LedgerOf(t), Unregistered(token));
    forall k: Token
      ensures (k in m <==> Live(u, k)) && (k in m ==> m[k] == u.slots[k.slot].deadline)
    {
      LedgerHas(t, k);
    }
    LedgerIs(u, m);
  }

  lemma DoEnters(t: Timers, op: Op)
    requires Valid(t)
    ensures LedgerOf(Do(t, op)) == Enter(LedgerOf(t), CallOf(t, op))
  {
    match op
    case Register => RegisterIs(t);
    case Arm(token, deadline) => ArmIs(t, token, deadline);
    case Unregister(token) => UnregisterIs(t, token);
  }

  function Calls(t: Timers, ops: seq<Op>): (calls: seq<Call>)
    ensures |calls| == |ops|
    decreases |ops|
  {
    if ops == [] then [] else [CallOf(t, ops[0])] + Calls(Do(t, ops[0]), ops[1..])
  }

  /** After every run of calls the live registrations and their deadlines are those of the ledger. */
  lemma {:induction false} CallsAreEntered(t: Timers, ops: seq<Op>)
    requires Valid(t)
    ensures LedgerOf(DoAll(t, ops)) == EnterAll(LedgerOf(t), Calls(t, ops))
    decreases |ops|
  {
    if ops != [] {
      DoEnters(t, ops[0]);
      DoKeepsValid(t, ops[0]);
      CallsAreEntered(Do(t, ops[0]), ops[1..]);
      assert Calls(t, ops)[1..] == Calls(Do(t, ops[0]), ops[1..]);
    }
  }

  // A token that is no longer live.

  predicate Granted(t: Timers, op: Op, slot: nat) {
    op.Register? && Answer(t).Some? && Answer(t).value.slot == slot
  }

  /** How often the run was granted `slot`. */
  function Grants(t: Timers, ops: seq<Op>, slot: nat): nat
    decreases |ops|
  {
    if ops == [] then 0
    else
      var rest := Grants(Do(t, ops[0]), ops[1..], slot);
      if Granted(t, ops[0], slot) then rest + 1 else rest
  }

  /** `g`, `k` registrations later. */
  function Later(g: nat, k: nat): nat {
    1 + (g - 1 + k) % (GENERATIONS - 1)
  }

  lemma LaterSteps(g: nat, k: nat)
    requires 0 < g < GENERATIONS
    ensures Later(NextGeneration(g), k) == Later(g, k + 1)
  {
    if g + 1 == GENERATIONS {
      assert g - 1 + k + 1 == k + (GENERATIONS - 1);
    }
  }

  lemma GenerationSteps(t: Timers, op: Op, slot: nat)
    requires Valid(t) && slot < |t.slots| && slot < |Do(t, op).slots|
    ensures Do(t, op).slots[slot].generation ==
      if Granted(t, op, slot) then NextGeneration(t.slots[slot].generation) else t.slots[slot].generation
  {
  }

  lemma {:induction false} GenerationAfter(t: Timers, ops: seq<Op>, slot: nat)
    requires Valid(t) && slot < |t.slots| && 0 < t.slots[slot].generation < GENERATIONS
    ensures |DoAll(t, ops).slots| == |t.slots|
    ensures DoAll(t, ops).slots[slot].generation == Later(t.slots[slot].generation, Grants(t, ops, slot))
    decreases |ops|
  {
    if ops != [] {
      var u := Do(t, ops[0]);
      DoKeepsValid(t, ops[0]);
      GenerationSteps(t, ops[0], slot);
      GenerationAfter(u, ops[1..], slot);
      LaterSteps(t.slots[slot].generation, Grants(u, ops[1..], slot));
    }
  }

  lemma ModShift(x: nat, q: nat)
    ensures (x + q * (GENERATIONS - 1)) % (GENERATIONS - 1) == x % (GENERATIONS - 1)
  {
  }

  lemma LaterReturns(g: nat, k: nat)
    requires 0 < g < GENERATIONS
    ensures Later(g, k) == g <==> k % (GENERATIONS - 1) == 0
  {
    var m := GENERATIONS - 1;
    var q := k / m;
    assert k == q * m + k % m;
    var r := k % m;
    assert (g - 1 + k) % m == (g - 1 + r) % m by { ModShift(g - 1 + r, q); }
    if g - 1 + r < m {
      assert (g - 1 + r) % m == g - 1 + r;
    } else {
      assert (g - 1 + r) % m == g - 1 + r - m;
    }
  }

  lemma {:induction false} UnusedNeedsGrant(t: Timers, ops: seq<Op>, slot: nat)
    requires Valid(t) && slot < |t.slots| && !t.slots[slot].used && Grants(t, ops, slot) == 0
    ensures var u := DoAll(t, ops); |u.slots| == |t.slots| && !u.slots[slot].used
    decreases |ops|
  {
    if ops != [] {
      DoKeepsValid(t, ops[0]);
      UnusedNeedsGrant(Do(t, ops[0]), ops[1..], slot);
    }
  }

  /** An ended registration's token is live again exactly when its slot is registered and was granted a positive
      multiple of 2^32 - 1 times since: never within fewer calls. */
  lemma EndedTokenStaysStale(t: Timers, token: Token, ops: seq<Op>)
    requires Valid(t) && Live(t, token) && 0 < token.generation < GENERATIONS
    ensures var u := DoUnregister(t, token);
      var k := Grants(u, ops, token.slot);
      && (Live(DoAll(u, ops), token) <==>
            token.slot < |DoAll(u, ops).slots| && DoAll(u, ops).slots[token.slot].used && k % (GENERATIONS - 1) == 0)
      && (|ops| < GENERATIONS - 1 ==> !Live(DoAll(u, ops), token))
  {
    var u := DoUnregister(t, token);
    UnregisterKeepsValid(t, token);
    var k := Grants(u, ops, token.slot);
    GenerationAfter(u, ops, token.slot);
    LaterReturns(token.generation, k);
    GrantsAtMost(u, ops, token.slot);
    if k == 0 {
      UnusedNeedsGrant(u, ops, token.slot);
    }
  }

  lemma {:induction false} GrantsAtMost(t: Timers, ops: seq<Op>, slot: nat)
    ensures Grants(t, ops, slot) <= |ops|
    decreases |ops|
  {
    if ops != [] {
      GrantsAtMost(Do(t, ops[0]), ops[1..], slot);
    }
  }

  // Running due timers.

  /** One callback run: for which registration, what it called, what it returned. */
  datatype Firing = Firing(token: Token, calls: seq<Call>, next: nat)

  predicate Mentions(calls: seq<Call>, token: Token) {
    exists i :: 0 <= i < |calls| && !calls[i].Registered? && calls[i].token == token
  }

  /** The timer is unarmed, its callback's calls are entered, and its return value arms it unless it was mentioned. */
  function EnterFiring(m: Ledger, f: Firing): Ledger {
    var during := EnterAll(m[f.token := 0], f.calls);
    if Mentions(f.calls, f.token) || f.next == 0 then during else during[f.token := f.next]
  }

  function EnterFirings(m: Ledger, fs: seq<Firing>): Ledger
    decreases |fs|
  {
    if fs == [] then m else EnterFirings(EnterFiring(m, fs[0]), fs[1..])
  }

  lemma TakeEnters(t: Timers, s: nat)
    requires s < |t.slots| && t.slots[s].used
    ensures LedgerOf(Take(t, s)) == LedgerOf(t)[Token(s, t.slots[s].generation) := 0]
  {
    var u, m := Take(t, s), LedgerOf(t)[Token(s, t.slots[s].generation) := 0];
    forall k: Token
      ensures (k in m <==> Live(u, k)) && (k in m ==> m[k] == u.slots[k.slot].deadline)
    {
      LedgerHas(t, k);
    }
    LedgerIs(u, m);
  }

  lemma MentionsUnfolds(calls: seq<Call>, token: Token)
    requires calls != []
    ensures Mentions(calls, token) <==> (!calls[0].Registered? && calls[0].token == token) || Mentions(calls[1..], token)
  {
    if Mentions(calls, token) {
      var i :| 0 <= i < |calls| && !calls[i].Registered? && calls[i].token == token;
      if i != 0 {
        assert calls[1..][i - 1] == calls[i];
      }
    }
    if Mentions(calls[1..], token) {
      var i :| 0 <= i < |calls[1..]| && !calls[1..][i].Registered? && calls[1..][i].token == token;
      assert calls[i + 1] == calls[1..][i];
    }
  }

  /** Whoever holds the slot stays until mentioned: touching the slot is mentioning its token. */
  lemma {:induction false} TouchingIsMentioning(t: Timers, ops: seq<Op>, token: Token)
    requires Valid(t) && Live(t, token)
    ensures Touches(t, ops, token.slot) <==> Mentions(Calls(t, ops), token)
    ensures !Mentions(Calls(t, ops), token) ==> Live(DoAll(t, ops), token)
    decreases |ops|
  {
    if ops != [] {
      MentionsUnfolds(Calls(t, ops), token);
      assert Calls(t, ops)[1..] == Calls(Do(t, ops[0]), ops[1..]);
      if ops[0].Register? || ops[0].token != token {
        DoKeepsValid(t, ops[0]);
        TouchingIsMentioning(Do(t, ops[0]), ops[1..], token);
      }
    }
  }

  lemma SettleEnters(t: Timers, token: Token, version: nat, next: nat)
    ensures LedgerOf(Settle(t, token, version, next)) ==
      if Live(t, token) && t.slots[token.slot].version == version && next != 0 then LedgerOf(t)[token := next] else LedgerOf(t)
  {
    var u := Settle(t, token, version, next);
    var m := if Live(t, token) && t.slots[token.slot].version == version && next != 0
             then LedgerOf(t)[token := next] else LedgerOf(t);
    forall k: Token
      ensures (k in m <==> Live(u, k)) && (k in m ==> m[k] == u.slots[k.slot].deadline)
    {
      LedgerHas(t, k);
    }
    LedgerIs(u, m);
  }

  function FiringOf(t: Timers, s: nat, c: Script): Firing
    requires s < |t.slots|
  {
    Firing(Token(s, t.slots[s].generation), Calls(Take(t, s), c.ops), c.next)
  }

  /** Firing a timer changes the ledger as its callback says. */
  lemma FireEnters(t: Timers, s: nat, c: Script)
    requires Valid(t) && Numbered(t) && s < |t.slots| && Armed(t.slots[s]) && |c.ops| + 1 < GENERATIONS
    ensures LedgerOf(Fire(t, s, c)) == EnterFiring(LedgerOf(t), FiringOf(t, s, c))
  {
    var token := Token(s, t.slots[s].generation);
    var taken := Take(t, s);
    var u := DoAll(taken, c.ops);
    TakeEnters(t, s);
    CallsAreEntered(taken, c.ops);
    TouchingIsMentioning(taken, c.ops, token);
    ScriptTracked(taken, c.ops, s, t.slots[s], 0, false);
    SettleEnters(u, token, t.slots[s].version, c.next);
  }

  function Firings(t: Timers, now: nat, callbacks: seq<Script>): seq<Firing>
    decreases |callbacks|
  {
    var e := Earliest(t);
    if callbacks == [] || e.None? || t.slots[e.value].deadline > now then []
    else [FiringOf(t, e.value, callbacks[0])] + Firings(Fire(t, e.value, callbacks[0]), now, callbacks[1..])
  }

  /** `k` is due, and no other registration fires before it. */
  predicate NextDue(m: Ledger, k: Token, now: nat) {
    && k in m && m[k] != 0 && m[k] <= now
    && forall x :: x in m && x != k && m[x] != 0 ==> m[k] < m[x] || (m[k] == m[x] && k.slot < x.slot)
  }

  /** Every firing is of the registration that is next due in the ledger at that moment. */
  predicate FiredWhenDue(m: Ledger, fs: seq<Firing>, now: nat)
    decreases |fs|
  {
    fs == [] || (NextDue(m, fs[0].token, now) && FiredWhenDue(EnterFiring(m, fs[0]), fs[1..], now))
  }

  lemma EarliestIsNextDue(t: Timers, now: nat)
    requires Earliest(t).Some? && t.slots[Earliest(t).value].deadline <= now
    ensures NextDue(LedgerOf(t), Token(Earliest(t).value, t.slots[Earliest(t).value].generation), now)
  {
    var m, k := LedgerOf(t), Token(Earliest(t).value, t.slots[Earliest(t).value].generation);
    LedgerHas(t, k);
    forall x | x in m && x != k && m[x] != 0
      ensures m[k] < m[x] || (m[k] == m[x] && k.slot < x.slot)
    {
      LedgerHas(t, x);
      assert Before(t, k.slot, x.slot);
    }
  }

  lemma DoKeepsNumbered(t: Timers, op: Op)
    requires Valid(t) && Numbered(t)
    ensures Numbered(Do(t, op))
  {
  }

  lemma {:induction false} DoAllKeepsNumbered(t: Timers, ops: seq<Op>)
    requires Valid(t) && Numbered(t)
    ensures Numbered(DoAll(t, ops))
    decreases |ops|
  {
    if ops != [] {
      DoKeepsNumbered(t, ops[0]);
      DoKeepsValid(t, ops[0]);
      DoAllKeepsNumbered(Do(t, ops[0]), ops[1..]);
    }
  }

  lemma FireKeepsNumbered(t: Timers, s: nat, c: Script)
    requires Valid(t) && Numbered(t) && s < |t.slots| && Armed(t.slots[s])
    ensures Numbered(Fire(t, s, c))
  {
    DoAllKeepsNumbered(Take(t, s), c.ops);
  }

  // The running mark.

  predicate NoneRunning(t: Timers) {
    forall s :: 0 <= s < |t.slots| ==> !t.slots[s].running
  }

  /** Only the timer whose callback runs is marked, and only while it is registered. */
  predicate OnlyRunning(t: Timers, token: Token) {
    forall s :: 0 <= s < |t.slots| && t.slots[s].running ==> s == token.slot && Live(t, token)
  }

  lemma {:induction false} CallsKeepRunning(t: Timers, ops: seq<Op>, token: Token)
    requires Valid(t) && OnlyRunning(t, token)
    ensures OnlyRunning(DoAll(t, ops), token)
    decreases |ops|
  {
    if ops != [] {
      DoKeepsValid(t, ops[0]);
      CallsKeepRunning(Do(t, ops[0]), ops[1..], token);
    }
  }

  lemma FireEndsRunning(t: Timers, s: nat, c: Script)
    requires Valid(t) && NoneRunning(t) && s < |t.slots| && t.slots[s].used
    ensures NoneRunning(Fire(t, s, c))
  {
    CallsKeepRunning(Take(t, s), c.ops, Token(s, t.slots[s].generation));
  }

  /** No timer is marked as running once run_due has returned, whatever its callbacks did. */
  lemma {:induction false} RunDueEndsRunning(t: Timers, now: nat, callbacks: seq<Script>)
    requires Valid(t) && NoneRunning(t)
    ensures NoneRunning(RunDue(t, now, callbacks).timers)
    decreases |callbacks|
  {
    var e := Earliest(t);
    if callbacks != [] && e.Some? && t.slots[e.value].deadline <= now {
      FireKeepsValid(t, e.value, callbacks[0]);
      FireEndsRunning(t, e.value, callbacks[0]);
      RunDueEndsRunning(Fire(t, e.value, callbacks[0]), now, callbacks[1..]);
    }
  }

  // Whole runs.

  predicate Short(callbacks: seq<Script>) {
    forall i :: 0 <= i < |callbacks| ==> |callbacks[i].ops| + 1 < GENERATIONS
  }

  /** `fs` are due firings of `fired` and lead from ledger `m` to `end`. */
  predicate Accounts(m: Ledger, fs: seq<Firing>, now: nat, fired: seq<nat>, end: Ledger) {
    && |fs| == |fired| && (forall i :: 0 <= i < |fs| ==> fs[i].token.slot == fired[i])
    && EnterFirings(m, fs) == end && FiredWhenDue(m, fs, now)
  }

  lemma AccountsGrow(m: Ledger, f: Firing, fs: seq<Firing>, now: nat, s: nat, fired: seq<nat>, end: Ledger)
    requires f.token.slot == s && NextDue(m, f.token, now) && Accounts(EnterFiring(m, f), fs, now, fired, end)
    ensures Accounts(m, [f] + fs, now, [s] + fired, end)
  {
    assert ([f] + fs)[1..] == fs;
  }

  /** A run of due timers, with callbacks that do anything: each callback is run for the registration next due, and
      afterwards the ledger is what the firings and the calls made in them say. */
  lemma {:induction false} RunDueEnters(t: Timers, now: nat, callbacks: seq<Script>)
    requires Valid(t) && Numbered(t) && Short(callbacks)
    ensures Accounts(LedgerOf(t), Firings(t, now, callbacks), now, RunDue(t, now, callbacks).fired,
                     LedgerOf(RunDue(t, now, callbacks).timers))
    decreases |callbacks|
  {
    var e := Earliest(t);
    if callbacks != [] && e.Some? && t.slots[e.value].deadline <= now {
      var c := callbacks[0];
      var u := Fire(t, e.value, c);
      FireKeepsValid(t, e.value, c);
      FireKeepsNumbered(t, e.value, c);
      FireEnters(t, e.value, c);
      EarliestIsNextDue(t, now);
      RunDueEnters(u, now, callbacks[1..]);
      var rest := RunDue(u, now, callbacks[1..]);
      AccountsGrow(LedgerOf(t), FiringOf(t, e.value, c), Firings(u, now, callbacks[1..]), now, e.value, rest.fired,
                   LedgerOf(rest.timers));
    }
  }
}
