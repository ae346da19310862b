/** When a reservation succeeds (memory_budget.h): a call that no other thread interrupts is granted exactly when the
    amount fits its own budget and the root's, and what it leaves behind in either case. */
module BudgetAnswers {
  import opened MemoryBudget

  /** `n` undisturbed steps of thread `t`. */
  function Go(s: System, t: nat, n: nat): System
    decreases n
  {
    if n == 0 then s else Go(Do(s, Step(t, false)), t, n - 1)
  }

  lemma {:induction false} GoIsRun(s: System, t: nat, n: nat)
    ensures Go(s, t, n) == Run(s, seq(n, _ => Step(t, false)))
    decreases n
  {
    if n != 0 {
      GoIsRun(Do(s, Step(t, false)), t, n - 1);
      assert seq(n, _ => Step(t, false))[1..] == seq(n - 1, _ => Step(t, false));
    }
  }

  lemma {:induction false} GoOn(s: System, t: nat, m: nat, n: nat)
    ensures Go(s, t, m + n) == Go(Go(s, t, m), t, n)
    decreases m
  {
    if m != 0 {
      GoOn(Do(s, Step(t, false)), t, m - 1, n);
    }
  }

  lemma {:induction false} IdleStays(s: System, t: nat, n: nat)
    requires t < |s.threads| && s.threads[t] == Idle
    ensures Go(s, t, n) == s
  {
    if n != 0 {
      IdleStays(s, t, n - 1);
    }
  }

  // One budget.

  /** A limit of zero is no limit. */
  predicate Fits(x: Budget, bytes: nat) {
    x.current + bytes < TWO_64 && (x.limit == 0 || x.current + bytes <= x.limit)
  }

  function Charged(x: Budget, bytes: nat): Budget {
    x.(current := x.current + bytes, top := Max(x.top, x.current + bytes), peak := Max(x.peak, x.current + bytes))
  }

  function Held(x: Budget, bytes: nat): Budget {
    x.(held := x.held + bytes)
  }

  /** A refusal for lack of room is counted; one for overflow is not. */
  function Rejected(x: Budget, bytes: nat): Budget {
    if x.current + bytes < TWO_64 then x.(rejections := x.rejections + 1) else x
  }

  lemma ReserveTwo(s: System, t: nat, pc: Pc)
    requires t < |s.threads| && s.threads[t] == pc && pc.ReserveLoad? && Target(pc) < |s.budgets|
    requires Fits(s.budgets[Target(pc)], pc.bytes)
    ensures var x := s.budgets[Target(pc)];
      var next := x.current + pc.bytes;
      Go(s, t, 2) ==
        SetThread(SetBudget(s, Target(pc), x.(current := next, top := Max(x.top, next))), t,
                  PeakLoad(pc.b, pc.bytes, pc.stage, next))
  {
    var x := s.budgets[Target(pc)];
    var u := SetThread(s, t, ReserveCas(pc.b, pc.bytes, pc.stage, x.current));
    assert Do(s, Step(t, false)) == u;
    assert Go(s, t, 2) == Go(u, t, 1) == Do(u, Step(t, false));
  }

  /** Where the call goes once its local reservation is recorded: on to the child, or back with the amount held. */
  function Recorded(s: System, t: nat, pc: Pc, x: Budget): System
    requires t < |s.threads| && pc.ReserveLoad? && Target(pc) < |s.budgets|
  {
    if pc.stage == Parent then SetThread(SetBudget(s, Target(pc), x), t, ReserveLoad(pc.b, pc.bytes, Self))
    else SetThread(SetBudget(s, Target(pc), Held(x, pc.bytes)), t, Idle)
  }

  lemma WriteTwice(s: System, t: nat, pc: Pc, x: Budget, other: Pc, y: Budget)
    requires t < |s.threads| && pc.ReserveLoad? && Target(pc) < |s.budgets|
    ensures Recorded(SetThread(SetBudget(s, Target(pc), x), t, other), t, pc, y) == Recorded(s, t, pc, y)
  {
  }

  lemma PeakStep(s: System, t: nat, pc: Pc, next: nat, x: Budget)
    requires t < |s.threads| && pc.ReserveLoad? && pc.stage != Undo && Target(pc) < |s.budgets|
    requires x == s.budgets[Target(pc)] && s.threads[t] == PeakCas(pc.b, pc.bytes, pc.stage, next, x.peak)
    ensures Do(s, Step(t, false)) == Recorded(s, t, pc, x.(peak := Max(x.peak, next)))
  {
    SameBudget(s, Target(pc));
  }

  lemma PeakTwo(s: System, t: nat, pc: Pc, next: nat)
    requires t < |s.threads| && pc.ReserveLoad? && pc.stage != Undo && Target(pc) < |s.budgets|
    requires s.threads[t] == PeakLoad(pc.b, pc.bytes, pc.stage, next)
    ensures var x := s.budgets[Target(pc)]; Go(s, t, 2) == Recorded(s, t, pc, x.(peak := Max(x.peak, next)))
  {
    var x := s.budgets[Target(pc)];
    var mid := PeakCas(pc.b, pc.bytes, pc.stage, next, x.peak);
    var u := SetThread(s, t, mid);
    assert Do(s, Step(t, false)) == u;
    SameBudget(s, Target(pc));
    PeakStep(u, t, pc, next, x);
    WriteTwice(s, t, pc, x, mid, x.(peak := Max(x.peak, next)));
    assert Go(s, t, 2) == Go(u, t, 1) == Do(u, Step(t, false));
  }

  lemma LocalReserve(s: System, t: nat, pc: Pc)
    requires t < |s.threads| && s.threads[t] == pc && pc.ReserveLoad? && pc.stage != Undo && Target(pc) < |s.budgets|
    requires Fits(s.budgets[Target(pc)], pc.bytes)
    ensures Go(s, t, 4) == Recorded(s, t, pc, Charged(s.budgets[Target(pc)], pc.bytes))
  {
    var x := s.budgets[Target(pc)];
    var next := x.current + pc.bytes;
    ReserveTwo(s, t, pc);
    var y, mid := x.(current := next, top := Max(x.top, next)), PeakLoad(pc.b, pc.bytes, pc.stage, next);
    PeakTwo(SetThread(SetBudget(s, Target(pc), y), t, mid), t, pc, next);
    WriteTwice(s, t, pc, y, mid, Charged(x, pc.bytes));
    GoOn(s, t, 2, 2);
  }

  lemma LocalRefusal(s: System, t: nat, pc: Pc)
    requires t < |s.threads| && s.threads[t] == pc && pc.ReserveLoad? && Target(pc) < |s.budgets|
    requires !Fits(s.budgets[Target(pc)], pc.bytes)
    ensures Go(s, t, 2) ==
      SetThread(SetBudget(s, Target(pc), Rejected(s.budgets[Target(pc)], pc.bytes)), t,
                if pc.stage == Self && pc.b != 0 then ReleaseLoad(pc.b, pc.bytes, Undo) else Idle)
  {
    var x := s.budgets[Target(pc)];
    var u := SetThread(s, t, ReserveCas(pc.b, pc.bytes, pc.stage, x.current));
    assert Do(s, Step(t, false)) == u;
    assert Go(s, t, 2) == Go(u, t, 1) == Do(u, Step(t, false));
  }

  lemma LocalRelease(s: System, t: nat, pc: Pc)
    requires t < |s.threads| && s.threads[t] == pc && pc.ReleaseLoad? && Target(pc) < |s.budgets|
    requires pc.bytes <= s.budgets[Target(pc)].current
    ensures var x := s.budgets[Target(pc)];
      Go(s, t, 2) ==
        SetThread(SetBudget(s, Target(pc), x.(current := x.current - pc.bytes)), t,
                  if pc.stage == Self && pc.b != 0 then ReleaseLoad(pc.b, pc.bytes, Parent) else Idle)
  {
    var x := s.budgets[Target(pc)];
    var u := SetThread(s, t, ReleaseCas(pc.b, pc.bytes, pc.stage, x.current));
    assert Do(s, Step(t, false)) == u;
    assert Go(s, t, 2) == Go(u, t, 1) == Do(u, Step(t, false));
  }

  // A whole call.

  /** Charged and given back: only the peak remembers it. */
  function Undone(x: Budget, bytes: nat): Budget {
    Charged(x, bytes).(current := x.current)
  }

  /** The budgets after a reservation of `bytes` on budget `b`. */
  function Settled(s: seq<Budget>, b: nat, bytes: nat): seq<Budget>
    requires b < |s|
  {
    if !Fits(s[0], bytes) then s[0 := Rejected(s[0], bytes)]
    else if b == 0 then s[0 := Held(Charged(s[0], bytes), bytes)]
    else if !Fits(s[b], bytes) then s[0 := Undone(s[0], bytes)][b := Rejected(s[b], bytes)]
    else s[0 := Charged(s[0], bytes)][b := Held(Charged(s[b], bytes), bytes)]
  }

  predicate Free(s: System, t: nat, b: nat, bytes: nat) {
    t < |s.threads| && s.threads[t] == Idle && b < |s.budgets| && 0 < bytes
  }

  lemma RootReserves(s: System, t: nat, bytes: nat)
    requires Free(s, t, 0, bytes)
    ensures Go(Do(s, Reserve(t, 0, bytes)), t, 8) == s.(budgets := Settled(s.budgets, 0, bytes))
  {
    var u := Do(s, Reserve(t, 0, bytes));
    var pc := ReserveLoad(0, bytes, Self);
    assert u == SetThread(s, t, pc);
    if Fits(s.budgets[0], bytes) {
      LocalReserve(u, t, pc);
      GoOn(u, t, 4, 4);
      var v := s.(budgets := Settled(s.budgets, 0, bytes));
      assert Go(u, t, 4) == v;
      IdleStays(v, t, 4);
    } else {
      LocalRefusal(u, t, pc);
      GoOn(u, t, 2, 6);
      var v := s.(budgets := Settled(s.budgets, 0, bytes));
      assert Go(u, t, 2) == v;
      IdleStays(v, t, 6);
    }
  }

  /** The child's part, after the root was charged. */
  lemma ChildReserves(s: System, t: nat, b: nat, bytes: nat)
    requires t < |s.threads| && 0 < b < |s.budgets| && s.threads[t] == ReserveLoad(b, bytes, Self)
    requires bytes <= s.budgets[0].current
    ensures Go(s, t, 4) == System(
      if Fits(s.budgets[b], bytes) then s.budgets[b := Held(Charged(s.budgets[b], bytes), bytes)]
      else s.budgets[0 := s.budgets[0].(current := s.budgets[0].current - bytes)][b := Rejected(s.budgets[b], bytes)],
      s.threads[t := Idle])
  {
    var pc := ReserveLoad(b, bytes, Self);
    if Fits(s.budgets[b], bytes) {
      LocalReserve(s, t, pc);
    } else {
      LocalRefusal(s, t, pc);
      var u := Go(s, t, 2);
      LocalRelease(u, t, ReleaseLoad(b, bytes, Undo));
      GoOn(s, t, 2, 2);
    }
  }

  lemma ChildCallReserves(s: System, t: nat, b: nat, bytes: nat)
    requires Free(s, t, b, bytes) && b != 0
    ensures Go(Do(s, Reserve(t, b, bytes)), t, 8) == s.(budgets := Settled(s.budgets, b, bytes))
  {
    var u := Do(s, Reserve(t, b, bytes));
    var pc := ReserveLoad(b, bytes, Parent);
    assert u == SetThread(s, t, pc);
    var v := s.(budgets := Settled(s.budgets, b, bytes));
    assert s.threads[t := Idle] == s.threads;
    if Fits(s.budgets[0], bytes) {
      LocalReserve(u, t, pc);
      GoOn(u, t, 4, 4);
      ChildReserves(Go(u, t, 4), t, b, bytes);
    } else {
      LocalRefusal(u, t, pc);
      GoOn(u, t, 2, 6);
      assert Go(u, t, 2) == v;
      IdleStays(v, t, 6);
    }
  }

  /** An undisturbed reservation returns within eight steps. It is granted exactly when the amount fits the root and,
      for a child, the child too; then both are charged and the amount is held. A refusal changes a rejection count at
      most, and, if only the child refused, the root's peak. */
  lemma ReservationIsDecided(s: System, t: nat, b: nat, bytes: nat)
    requires Free(s, t, b, bytes)
    ensures Run(Do(s, Reserve(t, b, bytes)), seq(8, _ => Step(t, false))) == s.(budgets := Settled(s.budgets, b, bytes))
    ensures var after := Settled(s.budgets, b, bytes);
      && |after| == |s.budgets|
      && (after[b].held == s.budgets[b].held + bytes <==> Fits(s.budgets[0], bytes) && Fits(s.budgets[b], bytes))
      && (forall c :: 0 <= c < |after| && c != b && c != 0 ==> after[c] == s.budgets[c])
      && after[0].current == s.budgets[0].current + (if Fits(s.budgets[0], bytes) && Fits(s.budgets[b], bytes) then bytes else 0)
      && (b != 0 ==> after[b].current == s.budgets[b].current +
                       if Fits(s.budgets[0], bytes) && Fits(s.budgets[b], bytes) then bytes else 0)
  {
    GoIsRun(Do(s, Reserve(t, b, bytes)), t, 8);
    if b == 0 {
      RootReserves(s, t, bytes);
    } else {
      ChildCallReserves(s, t, b, bytes);
    }
  }

  function Discharged(x: Budget, bytes: nat): Budget
    requires bytes <= x.current
  {
    x.(current := x.current - bytes)
  }

  /** An undisturbed release of what is held returns within four steps and takes the amount off the budget and, for a
      child, off the root. */
  lemma ReleaseIsDone(s: System, t: nat, b: nat, bytes: nat)
    requires Free(s, t, b, bytes) && bytes <= s.budgets[b].held && bytes <= s.budgets[b].current && bytes <= s.budgets[0].current
    ensures Run(Do(s, Release(t, b, bytes)), seq(4, _ => Step(t, false))) ==
      var own := Discharged(s.budgets[b], bytes).(held := s.budgets[b].held - bytes);
      s.(budgets := if b == 0 then s.budgets[0 := own] else s.budgets[0 := Discharged(s.budgets[0], bytes)][b := own])
  {
    var u := Do(s, Release(t, b, bytes));
    GoIsRun(u, t, 4);
    GoOn(u, t, 2, 2);
    LocalRelease(u, t, ReleaseLoad(b, bytes, Self));
    var v := Go(u, t, 2);
    assert s.threads[t := Idle] == s.threads;
    if b == 0 {
      assert v.threads == s.threads;
      IdleStays(v, t, 2);
    } else {
      LocalRelease(v, t, ReleaseLoad(b, bytes, Parent));
    }
  }

  // Every run.

  predicate Unrejected(s: System) {
    forall b :: 0 <= b < |s.budgets| && s.budgets[b].limit == 0 ==> s.budgets[b].rejections == 0
  }

  lemma DoKeepsUnrejected(s: System, e: Event)
    requires Unrejected(s)
    ensures Unrejected(Do(s, e))
  {
  }

  lemma {:induction false} RunKeepsUnrejected(s: System, events: seq<Event>)
    requires Unrejected(s)
    ensures Unrejected(Run(s, events))
    decreases |events|
  {
    if events != [] {
      DoKeepsUnrejected(s, events[0]);
      RunKeepsUnrejected(Do(s, events[0]), events[1..]);
    }
  }

  /** Under every interleaving an unlimited budget rejects nothing. */
  lemma UnlimitedNeverRejects(limits: seq<nat>, threads: nat, events: seq<Event>, b: nat)
    requires b < |limits| && limits[b] == 0
    ensures var s := Run(Init(limits, threads), events); b < |s.budgets| && s.budgets[b].rejections == 0
  {
    RunKeepsUnrejected(Init(limits, threads), events);
    RunKeepsLimits(Init(limits, threads), events);
  }

  lemma {:induction false} RunKeepsLimits(s: System, events: seq<Event>)
    ensures |Run(s, events).budgets| == |s.budgets|
    ensures forall b :: 0 <= b < |s.budgets| ==> Run(s, events).budgets[b].limit == s.budgets[b].limit
    decreases |events|
  {
    if events != [] {
      RunKeepsLimits(Do(s, events[0]), events[1..]);
    }
  }
}
