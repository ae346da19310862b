/** What the timer queue means (timer_queue.h): a table of timers with generations, a stack of free
    slots, and run_due as a fold over the earliest due timer. A callback is any sequence of
    operations on the queue and a return value. */
module Timers {
  import opened Status

  const GENERATIONS: nat := 0x1_0000_0000
  const VERSIONS: nat := 0x1_0000_0000_0000_0000

  datatype Timer = Timer(generation: nat, deadline: nat, version: nat, used: bool, running: bool)

  datatype Timers = Timers(slots: seq<Timer>, free: seq<nat>)

  datatype Token = Token(slot: nat, generation: nat)

  datatype Op = Register | Arm(token: Token, deadline: nat) | Unregister(token: Token)

  /** One callback: what it does to the queue, and the next deadline it returns. */
  datatype Script = Script(ops: seq<Op>, next: nat)

  function NextGeneration(g: nat): nat {
    if g + 1 == GENERATIONS then 1 else g + 1
  }

  function NextVersion(v: nat): nat {
    if v + 1 == VERSIONS then 1 else v + 1
  }

  predicate Live(t: Timers, token: Token) {
    token.slot < |t.slots| && t.slots[token.slot].used && t.slots[token.slot].generation == token.generation
  }

  // tr_timer_queue_register
  function DoRegister(t: Timers): Timers {
    if t.free == [] || t.free[0] >= |t.slots| then t else
      var slot := t.free[0];
      Timers(t.slots[slot := Timer(NextGeneration(t.slots[slot].generation), 0, 1, true, false)], t.free[1..])
  }

  // tr_timer_queue_arm
  function DoArm(t: Timers, token: Token, deadline: nat): Timers {
    if !Live(t, token) then t else
      var e := t.slots[token.slot];
      t.(slots := t.slots[token.slot := e.(deadline := deadline, version := NextVersion(e.version))])
  }

  // tr_timer_queue_unregister
  function DoUnregister(t: Timers, token: Token): Timers {
    if !Live(t, token) then t else
      var e := t.slots[token.slot];
      Timers(t.slots[token.slot := Timer(e.generation, 0, (e.version + 1) % VERSIONS, false, false)],
             [token.slot] + t.free)
  }

  function Do(t: Timers, op: Op): Timers {
    match op
    case Register => DoRegister(t)
    case Arm(token, deadline) => DoArm(t, token, deadline)
    case Unregister(token) => DoUnregister(t, token)
  }

  function DoAll(t: Timers, ops: seq<Op>): Timers
    decreases |ops|
  {
    if ops == [] then t else DoAll(Do(t, ops[0]), ops[1..])
  }

  predicate Armed(e: Timer) {
    e.used && e.deadline != 0
  }

  predicate Due(t: Timers, s: nat, now: nat) {
    s < |t.slots| && Armed(t.slots[s]) && t.slots[s].deadline <= now
  }

  /** `a` fires before `b`. */
  predicate Before(t: Timers, a: nat, b: nat) {
    && a < |t.slots| && b < |t.slots|
    && (t.slots[a].deadline < t.slots[b].deadline || (t.slots[a].deadline == t.slots[b].deadline && a < b))
  }

  /** The earliest armed slot among the first `n`. */
  function EarliestOf(t: Timers, n: nat): (r: Option<nat>)
    requires n <= |t.slots|
    ensures r.Some? ==> r.value < n && Armed(t.slots[r.value])
    ensures r.Some? ==> forall s :: 0 <= s < n && Armed(t.slots[s]) && s != r.value ==> Before(t, r.value, s)
    ensures r.None? ==> forall s :: 0 <= s < n ==> !Armed(t.slots[s])
  {
    if n == 0 then None else
      var r := EarliestOf(t, n - 1);
      if !Armed(t.slots[n - 1]) then r
      else if r.Some? && Before(t, r.value, n - 1) then r
      else Some(n - 1)
  }

  function Earliest(t: Timers): Option<nat> {
    EarliestOf(t, |t.slots|)
  }

  /** The timer leaves the queue for its callback. */
  function Take(t: Timers, s: nat): Timers
    requires s < |t.slots|
  {
    t.(slots := t.slots[s := t.slots[s].(deadline := 0, running := true)])
  }

  /** After the callback: the return value counts only if nothing touched the timer meanwhile. */
  function Settle(t: Timers, token: Token, version: nat, next: nat): Timers {
    if !Live(t, token) then t else
      var e := t.slots[token.slot];
      var u := t.(slots := t.slots[token.slot := e.(running := false)]);
      if e.version == version && next != 0 then DoArm(u, token, next) else u
  }

  /** Firing slot `s` with callback `c`. */
  function Fire(t: Timers, s: nat, c: Script): Timers
    requires s < |t.slots|
  {
    Settle(DoAll(Take(t, s), c.ops), Token(s, t.slots[s].generation), t.slots[s].version, c.next)
  }

  datatype Outcome = Outcome(timers: Timers, fired: seq<nat>)

  // tr_timer_queue_run_due: `callbacks[i]` is the i-th callback run
  function RunDue(t: Timers, now: nat, callbacks: seq<Script>): Outcome
    decreases |callbacks|
  {
    var e := Earliest(t);
    if callbacks == [] || e.None? || t.slots[e.value].deadline > now then Outcome(t, [])
    else
      var rest := RunDue(Fire(t, e.value, callbacks[0]), now, callbacks[1..]);
      Outcome(rest.timers, [e.value] + rest.fired)
  }

  /** Free slots are exactly the unused ones, each once; unused timers are unarmed. */
  predicate Valid(t: Timers) {
    && (forall i :: 0 <= i < |t.free| ==> t.free[i] < |t.slots| && !t.slots[t.free[i]].used)
    && (forall i, j :: 0 <= i < j < |t.free| ==> t.free[i] != t.free[j])
    && (forall s :: 0 <= s < |t.slots| && !t.slots[s].used ==> s in t.free && t.slots[s].deadline == 0)
  }

  predicate Numbered(t: Timers) {
    forall s :: 0 <= s < |t.slots| ==>
      && t.slots[s].generation < GENERATIONS
      && (t.slots[s].used ==> 0 < t.slots[s].generation && 0 < t.slots[s].version < VERSIONS)
  }

  lemma DoKeepsValid(t: Timers, op: Op)
    requires Valid(t)
    ensures Valid(Do(t, op)) && |Do(t, op).slots| == |t.slots|
  {
    match op
    case Arm(token, deadline) =>
    case Register => RegisterKeepsValid(t);
    case Unregister(token) => UnregisterKeepsValid(t, token);
  }

  lemma RegisterKeepsValid(t: Timers)
    requires Valid(t)
    ensures Valid(DoRegister(t))
  {
    if t.free != [] {
      var u := DoRegister(t);
      assert forall i :: 0 <= i < |u.free| ==> u.free[i] == t.free[i + 1];
      forall s | 0 <= s < |u.slots| && !u.slots[s].used
        ensures s in u.free
      {
        var i :| 0 <= i < |t.free| && t.free[i] == s;
        assert u.free[i - 1] == s;
      }
    }
  }

  lemma UnregisterKeepsValid(t: Timers, token: Token)
    requires Valid(t)
    ensures Valid(DoUnregister(t, token))
  {
    if Live(t, token) {
      var u := DoUnregister(t, token);
      assert forall i :: 1 <= i < |u.free| ==> u.free[i] == t.free[i - 1];
      assert u.free[0] == token.slot;
      forall s | 0 <= s < |u.slots| && !u.slots[s].used
        ensures s in u.free
      {
        if s != token.slot {
          var i :| 0 <= i < |t.free| && t.free[i] == s;
          assert u.free[i + 1] == s;
        }
      }
    }
  }

  lemma {:induction false} DoAllKeepsValid(t: Timers, ops: seq<Op>)
    requires Valid(t)
    ensures Valid(DoAll(t, ops)) && |DoAll(t, ops).slots| == |t.slots|
    decreases |ops|
  {
    if ops != [] {
      DoKeepsValid(t, ops[0]);
      DoAllKeepsValid(Do(t, ops[0]), ops[1..]);
    }
  }

  lemma FireKeepsValid(t: Timers, s: nat, c: Script)
    requires Valid(t) && s < |t.slots| && t.slots[s].used
    ensures Valid(Fire(t, s, c)) && |Fire(t, s, c).slots| == |t.slots|
  {
    DoAllKeepsValid(Take(t, s), c.ops);
  }

  // An explicit operation inside the callback wins over its return value.

  /** The script operates on the timer of `slot` while it holds. */
  predicate Touches(t: Timers, ops: seq<Op>, slot: nat)
    decreases |ops|
  {
    ops != [] &&
    ((!ops[0].Register? && ops[0].token.slot == slot && Live(t, ops[0].token)) || Touches(Do(t, ops[0]), ops[1..], slot))
  }

  /** How many steps of the cycle 1, ..., m - 1 lead from `a` to `b`. */
  function Steps(a: nat, b: nat, m: nat): int {
    if a <= b then b - a else b - a + m - 1
  }

  /** After `n` operations: still the same registration and version, or provably another one. */
  predicate Tracked(e: Timer, before: Timer, n: nat, touched: bool) {
    var g := Steps(before.generation, e.generation, GENERATIONS);
    var v := Steps(before.version, e.version, VERSIONS);
    && 0 < e.generation < GENERATIONS && 0 <= g <= n
    && (e.used ==> 0 < e.version < VERSIONS)
    && (g == 0 && e.used ==> 0 <= v <= n && (touched <==> v != 0))
    && (g != 0 || !e.used ==> touched)
  }

  lemma StepTracked(t: Timers, op: Op, slot: nat, before: Timer, n: nat, touched: bool)
    requires slot < |t.slots| && Valid(t) && Tracked(t.slots[slot], before, n, touched)
    requires 0 < before.generation < GENERATIONS && 0 < before.version < VERSIONS && n + 2 < GENERATIONS
    ensures Tracked(Do(t, op).slots[slot], before, n + 1,
                    touched || (!op.Register? && op.token.slot == slot && Live(t, op.token)))
  {
  }

  lemma {:induction false} ScriptTracked(t: Timers, ops: seq<Op>, slot: nat, before: Timer, n: nat, touched: bool)
    requires slot < |t.slots| && Valid(t) && Tracked(t.slots[slot], before, n, touched)
    requires 0 < before.generation < GENERATIONS && 0 < before.version < VERSIONS && n + |ops| + 1 < GENERATIONS
    ensures var u := DoAll(t, ops);
      && |u.slots| == |t.slots|
      && Tracked(u.slots[slot], before, n + |ops|, touched || Touches(t, ops, slot))
    decreases |ops|
  {
    if ops != [] {
      DoKeepsValid(t, ops[0]);
      StepTracked(t, ops[0], slot, before, n, touched);
      var now := touched || (!ops[0].Register? && ops[0].token.slot == slot && Live(t, ops[0].token));
      ScriptTracked(Do(t, ops[0]), ops[1..], slot, before, n + 1, now);
    }
  }

  /** The return value of a callback takes effect exactly when the callback itself neither armed nor
      unregistered the timer; otherwise what the callback did stands, apart from the running mark. */
  lemma ExplicitOperationWins(t: Timers, s: nat, c: Script)
    requires Valid(t) && Numbered(t) && s < |t.slots| && Armed(t.slots[s])
    requires |c.ops| + 1 < GENERATIONS
    ensures var e := DoAll(Take(t, s), c.ops).slots;
      var r := Fire(t, s, c).slots;
      && |e| == |r| == |t.slots|
      && r[s].deadline == (if !Touches(Take(t, s), c.ops, s) && c.next != 0 then c.next else e[s].deadline)
      && r[s].used == e[s].used && r[s].generation == e[s].generation
  {
    DoAllKeepsValid(Take(t, s), c.ops);
    ScriptTracked(Take(t, s), c.ops, s, t.slots[s], 0, false);
  }

  // What run_due fires.

  /** tr_timer_queue_next_deadline and has_more_due look at the earliest timer only, and that is enough. */
  lemma EarliestDecidesDue(t: Timers, now: nat)
    ensures (exists s: nat :: Due(t, s, now)) <==> Earliest(t).Some? && t.slots[Earliest(t).value].deadline <= now
  {
    if Earliest(t).Some? && t.slots[Earliest(t).value].deadline <= now {
      assert Due(t, Earliest(t).value, now);
    }
  }

  /** The callback of `slot` touches no other timer and arms its own only past `now`. */
  predicate QuietOp(op: Op, slot: nat, now: nat) {
    match op
    case Register => true
    case Arm(token, deadline) => token.slot == slot && (deadline == 0 || now < deadline)
    case Unregister(token) => token.slot == slot
  }

  predicate Quiet(c: Script, slot: nat, now: nat) {
    (forall i :: 0 <= i < |c.ops| ==> QuietOp(c.ops[i], slot, now)) && (c.next == 0 || now < c.next)
  }

  /** Every callback of the run is quiet for the timer it is run for. */
  predicate QuietRun(t: Timers, now: nat, callbacks: seq<Script>)
    decreases |callbacks|
  {
    var e := Earliest(t);
    callbacks == [] || e.None? || t.slots[e.value].deadline > now ||
    (Quiet(callbacks[0], e.value, now) && QuietRun(Fire(t, e.value, callbacks[0]), now, callbacks[1..]))
  }

  /** `s` is not due in `u`, and every other timer is as armed as it was in `t`. */
  predicate OnlyOwn(t: Timers, u: Timers, s: nat, now: nat) {
    && |u.slots| == |t.slots| && s < |t.slots|
    && (u.slots[s].deadline == 0 || now < u.slots[s].deadline)
    && (forall x :: 0 <= x < |t.slots| && x != s ==>
          u.slots[x].deadline == t.slots[x].deadline && Armed(u.slots[x]) == Armed(t.slots[x]))
  }

  lemma QuietOpOnlyOwn(t: Timers, u: Timers, op: Op, s: nat, now: nat)
    requires Valid(u) && OnlyOwn(t, u, s, now) && QuietOp(op, s, now)
    ensures OnlyOwn(t, Do(u, op), s, now)
  {
  }

  lemma {:induction false} QuietOpsOnlyOwn(t: Timers, u: Timers, ops: seq<Op>, s: nat, now: nat)
    requires Valid(u) && OnlyOwn(t, u, s, now)
    requires forall i :: 0 <= i < |ops| ==> QuietOp(ops[i], s, now)
    ensures OnlyOwn(t, DoAll(u, ops), s, now)
    decreases |ops|
  {
    if ops != [] {
      QuietOpOnlyOwn(t, u, ops[0], s, now);
      DoKeepsValid(u, ops[0]);
      QuietOpsOnlyOwn(t, Do(u, ops[0]), ops[1..], s, now);
    }
  }

  lemma QuietFireOnlyOwn(t: Timers, s: nat, c: Script, now: nat)
    requires Valid(t) && s < |t.slots| && Armed(t.slots[s]) && Quiet(c, s, now)
    ensures OnlyOwn(t, Fire(t, s, c), s, now)
  {
    QuietOpsOnlyOwn(t, Take(t, s), c.ops, s, now);
  }

  /** If callbacks touch no other timer and re-arm only past `now`, run_due fires distinct due timers in
      (deadline, slot) order, skips none, leaves the rest exactly as due as before, and stops early only when
      nothing is due. */
  lemma {:induction false} DueTimersFireOnceInOrder(t: Timers, now: nat, callbacks: seq<Script>)
    requires Valid(t) && QuietRun(t, now, callbacks)
    ensures var o := RunDue(t, now, callbacks);
      && |o.fired| <= |callbacks| && FiredInOrder(t, o.fired, now) && RestIsLater(t, o.fired, o.timers, now)
      && (|o.fired| < |callbacks| ==> forall s :: 0 <= s < |t.slots| ==> !Due(o.timers, s, now))
    decreases |callbacks|
  {
    var e := Earliest(t);
    if callbacks != [] && e.Some? && t.slots[e.value].deadline <= now {
      var u := Fire(t, e.value, callbacks[0]);
      FireKeepsValid(t, e.value, callbacks[0]);
      QuietFireOnlyOwn(t, e.value, callbacks[0], now);
      DueTimersFireOnceInOrder(u, now, callbacks[1..]);
      var rest := RunDue(u, now, callbacks[1..]);
      FiredAfter(t, e.value, u, now, rest.fired);
      RestAfter(t, e.value, u, now, rest.fired, rest.timers);
    }
  }

  /** `fired` are due timers of `t`, in order. */
  predicate FiredInOrder(t: Timers, fired: seq<nat>, now: nat) {
    && (forall i :: 0 <= i < |fired| ==> Due(t, fired[i], now))
    && (forall i, j :: 0 <= i < j < |fired| ==> Before(t, fired[i], fired[j]))
  }

  /** What is due in `end` is what was due in `t` and not fired, and it comes after what was. */
  predicate RestIsLater(t: Timers, fired: seq<nat>, end: Timers, now: nat) {
    && |end.slots| == |t.slots|
    && (forall s :: 0 <= s < |t.slots| ==> (Due(end, s, now) <==> Due(t, s, now) && s !in fired))
    && (forall s, i :: 0 <= s < |t.slots| && 0 <= i < |fired| && Due(end, s, now) ==> Before(t, fired[i], s))
  }

  /** What happened to the earliest timer concerns no other. */
  lemma OthersAsDue(t: Timers, e: nat, u: Timers, now: nat)
    requires OnlyOwn(t, u, e, now)
    ensures !Due(u, e, now) && forall s: nat :: s != e ==> Due(u, s, now) == Due(t, s, now)
    ensures forall a: nat, b: nat :: a != e && b != e ==> Before(u, a, b) == Before(t, a, b)
  {
  }

  /** Prepending the earliest timer to a run that starts after it fired. */
  lemma FiredAfter(t: Timers, e: nat, u: Timers, now: nat, fired: seq<nat>)
    requires Earliest(t) == Some(e) && Due(t, e, now) && OnlyOwn(t, u, e, now) && FiredInOrder(u, fired, now)
    ensures FiredInOrder(t, [e] + fired, now) && e !in fired
  {
    OthersAsDue(t, e, u, now);
    var all := [e] + fired;
    assert forall i :: 0 <= i < |fired| ==> fired[i] != e && all[i + 1] == fired[i];
  }

  lemma RestAfter(t: Timers, e: nat, u: Timers, now: nat, fired: seq<nat>, end: Timers)
    requires Earliest(t) == Some(e) && Due(t, e, now) && OnlyOwn(t, u, e, now) && e !in fired
    requires RestIsLater(u, fired, end, now)
    ensures RestIsLater(t, [e] + fired, end, now)
  {
    OthersAsDue(t, e, u, now);
    var all := [e] + fired;
    assert forall i :: 0 <= i < |fired| ==> all[i + 1] == fired[i];
    forall s: nat | s < |t.slots|
      ensures Due(end, s, now) <==> Due(t, s, now) && s !in all
    {
      assert s in all <==> s == e || s in fired;
    }
  }
}
