/** The hierarchical memory budget (memory_budget.h) as a machine of atomic steps: every load and every
    compare-and-swap of every thread is one step, and threads interleave freely. Budget 0 is the root,
    all others are its children. */
module MemoryBudget {

  const TWO_64: nat := 0x1_0000_0000_0000_0000

  /** `held` is what completed reservations still hold; `top` is the highest value `current` ever had. */
  datatype Budget = Budget(limit: nat, current: nat, peak: nat, rejections: nat, held: nat, top: nat)

  /** Which local operation of a call is under way: the call's own budget, its parent, or the rollback. */
  datatype Stage = Self | Parent | Undo

  /** Where a thread stands in tr_memory_budget_reserve or tr_memory_budget_release on budget `b`. */
  datatype Pc =
    | Idle
    | ReserveLoad(b: nat, bytes: nat, stage: Stage)
    | ReserveCas(b: nat, bytes: nat, stage: Stage, cur: nat)
    | PeakLoad(b: nat, bytes: nat, stage: Stage, next: nat)
    | PeakCas(b: nat, bytes: nat, stage: Stage, next: nat, seen: nat)
    | ReleaseLoad(b: nat, bytes: nat, stage: Stage)
    | ReleaseCas(b: nat, bytes: nat, stage: Stage, cur: nat)
    | Broken

  datatype System = System(budgets: seq<Budget>, threads: seq<Pc>)

  datatype Event =
    | Reserve(thread: nat, b: nat, bytes: nat)
    | Release(thread: nat, b: nat, bytes: nat)
    | Step(thread: nat, spurious: bool)

  function Target(pc: Pc): nat {
    if pc.Idle? || pc.Broken? || pc.stage != Self then 0 else pc.b
  }

  function SetThread(s: System, t: nat, pc: Pc): System
    requires t < |s.threads|
  {
    s.(threads := s.threads[t := pc])
  }

  function SetBudget(s: System, b: nat, x: Budget): System
    requires b < |s.budgets|
  {
    s.(budgets := s.budgets[b := x])
  }

  /** A reservation starts with the parent; it charges the parent before the child. */
  function BeginReserve(s: System, t: nat, b: nat, bytes: nat): System
    requires t < |s.threads|
  {
    if s.threads[t] != Idle || b >= |s.budgets| || bytes == 0 then s
    else SetThread(s, t, ReserveLoad(b, bytes, if b == 0 then Self else Parent))
  }

  /** Callers release only what they hold. */
  function BeginRelease(s: System, t: nat, b: nat, bytes: nat): System
    requires t < |s.threads|
  {
    if s.threads[t] != Idle || b >= |s.budgets| || bytes == 0 || s.budgets[b].held < bytes then s
    else SetThread(SetBudget(s, b, s.budgets[b].(held := s.budgets[b].held - bytes)), t, ReleaseLoad(b, bytes, Self))
  }

  predicate Refused(x: Budget, cur: nat, bytes: nat) {
    cur + bytes >= TWO_64 || (x.limit != 0 && cur + bytes > x.limit)
  }

  /** The local reservation was refused: undo the parent's, or return. */
  function AfterRefusal(pc: Pc): Pc
    requires pc.ReserveCas?
  {
    if pc.stage == Self && pc.b != 0 then ReleaseLoad(pc.b, pc.bytes, Undo) else Idle
  }

  function AfterRelease(pc: Pc): Pc
    requires pc.ReleaseCas?
  {
    if pc.stage == Self && pc.b != 0 then ReleaseLoad(pc.b, pc.bytes, Parent) else Idle
  }

  function Max(a: nat, b: nat): nat {
    if a < b then b else a
  }

  /** The peak is recorded: go on with the child, or return with the amount held. */
  function FinishReserve(s: System, t: nat, pc: Pc): System
    requires t < |s.threads| && pc.PeakCas?
  {
    if pc.stage == Parent then SetThread(s, t, ReserveLoad(pc.b, pc.bytes, Self))
    else if pc.b < |s.budgets|
    then SetThread(SetBudget(s, pc.b, s.budgets[pc.b].(held := s.budgets[pc.b].held + pc.bytes)), t, Idle)
    else s
  }

  // One attempt of the compare-and-swap loop in tr_memory_budget_reserve_local.
  function TryReserve(s: System, t: nat, pc: Pc, spurious: bool): System
    requires t < |s.threads| && pc.ReserveCas? && Target(pc) < |s.budgets|
  {
    var x := s.budgets[Target(pc)];
    if Refused(x, pc.cur, pc.bytes) then
      var over := pc.cur + pc.bytes < TWO_64;
      SetThread(SetBudget(s, Target(pc), x.(rejections := x.rejections + if over then 1 else 0)), t, AfterRefusal(pc))
    else if x.current == pc.cur && !spurious then
      var next := pc.cur + pc.bytes;
      SetThread(SetBudget(s, Target(pc), x.(current := next, top := Max(x.top, next))), t,
                PeakLoad(pc.b, pc.bytes, pc.stage, next))
    else SetThread(s, t, ReserveCas(pc.b, pc.bytes, pc.stage, x.current))
  }

  // One attempt of the peak loop.
  function TryPeak(s: System, t: nat, pc: Pc, spurious: bool): System
    requires t < |s.threads| && pc.PeakCas? && Target(pc) < |s.budgets|
  {
    var x := s.budgets[Target(pc)];
    if pc.seen >= pc.next then FinishReserve(s, t, pc)
    else if x.peak == pc.seen && !spurious then FinishReserve(SetBudget(s, Target(pc), x.(peak := pc.next)), t, pc)
    else SetThread(s, t, PeakCas(pc.b, pc.bytes, pc.stage, pc.next, x.peak))
  }

  // One attempt of the compare-and-swap loop in tr_memory_budget_release_local.
  function TryRelease(s: System, t: nat, pc: Pc, spurious: bool): System
    requires t < |s.threads| && pc.ReleaseCas? && Target(pc) < |s.budgets|
  {
    var x := s.budgets[Target(pc)];
    if pc.cur < pc.bytes then SetThread(s, t, Broken)
    else if x.current == pc.cur && !spurious then
      SetThread(SetBudget(s, Target(pc), x.(current := pc.cur - pc.bytes)), t, AfterRelease(pc))
    else SetThread(s, t, ReleaseCas(pc.b, pc.bytes, pc.stage, x.current))
  }

  function Advance(s: System, t: nat, spurious: bool): System
    requires t < |s.threads|
  {
    var pc := s.threads[t];
    if Target(pc) >= |s.budgets| then s else
      var x := s.budgets[Target(pc)];
      match pc
      case Idle => s
      case Broken => s
      case ReserveLoad(b, bytes, stage) => SetThread(s, t, ReserveCas(b, bytes, stage, x.current))
      case PeakLoad(b, bytes, stage, next) => SetThread(s, t, PeakCas(b, bytes, stage, next, x.peak))
      case ReleaseLoad(b, bytes, stage) => SetThread(s, t, ReleaseCas(b, bytes, stage, x.current))
      case ReserveCas(_, _, _, _) => TryReserve(s, t, pc, spurious)
      case PeakCas(_, _, _, _, _) => TryPeak(s, t, pc, spurious)
      case ReleaseCas(_, _, _, _) => TryRelease(s, t, pc, spurious)
  }

  function Do(s: System, e: Event): System {
    if e.thread >= |s.threads| then s else
      match e
      case Reserve(t, b, bytes) => BeginReserve(s, t, b, bytes)
      case Release(t, b, bytes) => BeginRelease(s, t, b, bytes)
      case Step(t, spurious) => Advance(s, t, spurious)
  }

  function Run(s: System, events: seq<Event>): System
    decreases |events|
  {
    if events == [] then s else Run(Do(s, events[0]), events[1..])
  }

  function Init(limits: seq<nat>, threads: nat): System {
    System(seq(|limits|, i requires 0 <= i < |limits| => Budget(limits[i], 0, 0, 0, 0, 0)), seq(threads, _ => Idle))
  }

  // Conservation.

  /** What thread `pc` has in the current value of budget `b` besides completed reservations. */
  function SelfShare(pc: Pc, b: nat): nat {
    if (pc.PeakLoad? || pc.PeakCas? || pc.ReleaseLoad? || pc.ReleaseCas?) && pc.stage == Self && pc.b == b then pc.bytes
    else 0
  }

  /** What thread `pc` has in the root's current value besides the children's current values. */
  function UpShare(pc: Pc): nat {
    if pc.Idle? || pc.Broken? || pc.b == 0 then 0
    else if pc.ReserveLoad? || pc.ReserveCas? then if pc.stage == Self then pc.bytes else 0
    else if pc.PeakLoad? || pc.PeakCas? then if pc.stage == Parent then pc.bytes else 0
    else if pc.stage != Self then pc.bytes else 0
  }

  function Sum(threads: seq<Pc>, share: Pc -> nat): nat {
    if threads == [] then 0 else Sum(threads[..|threads| - 1], share) + share(threads[|threads| - 1])
  }

  function SelfShareOf(b: nat): Pc -> nat {
    (pc: Pc) => SelfShare(pc, b)
  }

  function UpShares(): Pc -> nat {
    (pc: Pc) => UpShare(pc)
  }

  /** The children's current values. */
  function Children(budgets: seq<Budget>): nat {
    if |budgets| <= 1 then 0 else Children(budgets[..|budgets| - 1]) + budgets[|budgets| - 1].current
  }

  predicate SelfConserved(s: System, b: nat)
    requires b < |s.budgets|
  {
    s.budgets[b].current ==
    s.budgets[b].held + Sum(s.threads, SelfShareOf(b)) +
    if b == 0 then Sum(s.threads, UpShares()) + Children(s.budgets) else 0
  }

  predicate Conserved(s: System) {
    forall b :: 0 <= b < |s.budgets| ==> SelfConserved(s, b)
  }

  lemma {:induction false} SumUpdate(threads: seq<Pc>, t: nat, pc: Pc, share: Pc -> nat)
    requires t < |threads|
    ensures Sum(threads[t := pc], share) == Sum(threads, share) - share(threads[t]) + share(pc)
    ensures share(threads[t]) <= Sum(threads, share)
  {
    var u := threads[t := pc];
    if t == |threads| - 1 {
      assert u[..|threads| - 1] == threads[..|threads| - 1];
    } else {
      SumUpdate(threads[..|threads| - 1], t, pc, share);
      assert u[..|threads| - 1] == threads[..|threads| - 1][t := pc];
    }
  }

  lemma {:induction false} ChildrenUpdate(budgets: seq<Budget>, b: nat, x: Budget)
    requires b < |budgets|
    ensures Children(budgets[b := x]) == Children(budgets) + if b == 0 then 0 else x.current - budgets[b].current
    ensures b != 0 ==> budgets[b].current <= Children(budgets)
    decreases |budgets|
  {
    var u := budgets[b := x];
    var last := |budgets| - 1;
    if last != 0 {
      if b == last {
        assert u[..last] == budgets[..last];
      } else {
        ChildrenUpdate(budgets[..last], b, x);
        assert u[..last] == budgets[..last][b := x];
      }
    }
  }

  /** A move of one thread and at most one budget conserves if it balances locally. */
  lemma BalancedMove(s: System, t: nat, pc: Pc, b: nat, x: Budget)
    requires Conserved(s) && t < |s.threads| && b < |s.budgets|
    requires forall c :: 0 <= c < |s.budgets| && c != b ==> SelfShare(pc, c) == SelfShare(s.threads[t], c)
    requires var was, grow := s.threads[t], x.current - s.budgets[b].current;
      && grow == (x.held - s.budgets[b].held) + (SelfShare(pc, b) - SelfShare(was, b)) +
                 (if b == 0 then UpShare(pc) - UpShare(was) else 0)
      && (b != 0 ==> UpShare(pc) - UpShare(was) == -grow)
    ensures Conserved(SetThread(SetBudget(s, b, x), t, pc))
  {
    var u := SetThread(SetBudget(s, b, x), t, pc);
    ChildrenUpdate(s.budgets, b, x);
    SumUpdate(s.threads, t, pc, UpShares());
    forall c | 0 <= c < |u.budgets|
      ensures SelfConserved(u, c)
    {
      SumUpdate(s.threads, t, pc, SelfShareOf(c));
      assert SelfConserved(s, c) && SelfConserved(s, 0);
    }
  }

  // What every step keeps.

  /** A thread is where it can be: a root call has no parent stage, only releases are undone, and what it read
      is still meaningful. */
  predicate ThreadOk(s: System, pc: Pc) {
    pc.Idle? ||
    (&& !pc.Broken?
     && pc.b < |s.budgets| && 0 < pc.bytes
     && (pc.b == 0 ==> pc.stage == Self)
     && (pc.stage == Undo ==> pc.ReleaseLoad? || pc.ReleaseCas?)
     && (pc.PeakLoad? || pc.PeakCas? ==> pc.next <= s.budgets[Target(pc)].top)
     && (pc.PeakCas? ==> pc.seen <= s.budgets[Target(pc)].peak)
     && (pc.ReleaseCas? ==> pc.bytes <= pc.cur))
  }

  predicate ThreadsOk(s: System) {
    forall t :: 0 <= t < |s.threads| ==> ThreadOk(s, s.threads[t])
  }

  predicate BudgetOk(x: Budget) {
    x.current < TWO_64 && (x.limit != 0 ==> x.current <= x.limit) && x.current <= x.top && x.peak <= x.top
  }

  predicate BudgetsOk(s: System) {
    0 < |s.budgets| && forall b :: 0 <= b < |s.budgets| ==> BudgetOk(s.budgets[b])
  }

  /** The thread is about to record `next` as the peak of budget `b`. */
  predicate Recording(pc: Pc, b: nat, next: nat) {
    (pc.PeakLoad? || pc.PeakCas?) && Target(pc) == b && pc.next == next
  }

  /** The recorded peak is the true one, or some thread is about to record it. */
  predicate PeakTracked(s: System, b: nat)
    requires b < |s.budgets|
  {
    s.budgets[b].peak == s.budgets[b].top ||
    exists t :: 0 <= t < |s.threads| && Recording(s.threads[t], b, s.budgets[b].top)
  }

  predicate PeaksTracked(s: System) {
    forall b :: 0 <= b < |s.budgets| ==> PeakTracked(s, b)
  }

  predicate Inv(s: System) {
    ThreadsOk(s) && BudgetsOk(s) && Conserved(s) && PeaksTracked(s)
  }

  /** What a thread still has in its target is really there: the value it is about to subtract from. */
  lemma ShareIsPresent(s: System, t: nat)
    requires Inv(s) && t < |s.threads| && (s.threads[t].ReleaseLoad? || s.threads[t].ReleaseCas?)
    ensures s.threads[t].bytes <= s.budgets[Target(s.threads[t])].current
  {
    var pc := s.threads[t];
    assert ThreadOk(s, pc) && SelfConserved(s, Target(pc));
    SumUpdate(s.threads, t, pc, SelfShareOf(pc.b));
    SumUpdate(s.threads, t, pc, UpShares());
  }

  /** The other threads and budgets do not mind a move that only raises peaks and tops. */
  lemma MoveKeepsThreads(s: System, t: nat, pc: Pc, b: nat, x: Budget)
    requires ThreadsOk(s) && BudgetsOk(s) && t < |s.threads| && b < |s.budgets| && BudgetOk(x)
    requires x.top >= s.budgets[b].top && x.peak >= s.budgets[b].peak
    requires ThreadOk(SetThread(SetBudget(s, b, x), t, pc), pc)
    ensures var u := SetThread(SetBudget(s, b, x), t, pc); ThreadsOk(u) && BudgetsOk(u)
  {
    var u := SetThread(SetBudget(s, b, x), t, pc);
    forall i | 0 <= i < |u.threads|
      ensures ThreadOk(u, u.threads[i])
    {
      if i != t {
        assert ThreadOk(s, s.threads[i]);
      }
    }
  }

  /** A move keeps the peaks tracked if its own budget is tracked after it and it abandons no other recording. */
  lemma MoveKeepsPeaks(s: System, t: nat, pc: Pc, b: nat, x: Budget)
    requires PeaksTracked(s) && t < |s.threads| && b < |s.budgets|
    requires forall c: nat, next: nat :: c != b && Recording(s.threads[t], c, next) ==> Recording(pc, c, next)
    requires PeakTracked(SetThread(SetBudget(s, b, x), t, pc), b)
    ensures PeaksTracked(SetThread(SetBudget(s, b, x), t, pc))
  {
    var u := SetThread(SetBudget(s, b, x), t, pc);
    forall c | 0 <= c < |u.budgets|
      ensures PeakTracked(u, c)
    {
      if c != b {
        assert PeakTracked(s, c);
        if s.budgets[c].peak != s.budgets[c].top {
          var i :| 0 <= i < |s.threads| && Recording(s.threads[i], c, s.budgets[c].top);
          assert Recording(u.threads[i], c, u.budgets[c].top);
        }
      }
    }
  }

  /** Another thread's recording, or an unchanged peak, is still there after the move. */
  lemma StillTracked(s: System, t: nat, pc: Pc, b: nat, x: Budget)
    requires t < |s.threads| && b < |s.budgets| && PeakTracked(s, b)
    requires x.top == s.budgets[b].top && x.peak == s.budgets[b].peak
    requires Recording(s.threads[t], b, x.top) ==> Recording(pc, b, x.top) || x.peak == x.top
    ensures PeakTracked(SetThread(SetBudget(s, b, x), t, pc), b)
  {
    var u := SetThread(SetBudget(s, b, x), t, pc);
    if x.peak != x.top {
      var i :| 0 <= i < |s.threads| && Recording(s.threads[i], b, s.budgets[b].top);
      assert Recording(u.threads[i], b, u.budgets[b].top);
    }
  }

  /** The balance a move of thread `t` to `pc` with budget `b` becoming `x` must strike. */
  predicate Balances(s: System, t: nat, pc: Pc, b: nat, x: Budget)
    requires t < |s.threads| && b < |s.budgets|
  {
    var was, grow := s.threads[t], x.current - s.budgets[b].current;
    && (forall c :: 0 <= c < |s.budgets| && c != b ==> SelfShare(pc, c) == SelfShare(was, c))
    && grow == (x.held - s.budgets[b].held) + (SelfShare(pc, b) - SelfShare(was, b)) +
               (if b == 0 then UpShare(pc) - UpShare(was) else 0)
    && (b != 0 ==> UpShare(pc) - UpShare(was) == -grow)
  }

  lemma Moves(s: System, t: nat, pc: Pc, b: nat, x: Budget)
    requires Inv(s) && t < |s.threads| && b < |s.budgets| && BudgetOk(x) && Balances(s, t, pc, b, x)
    requires x.top >= s.budgets[b].top && x.peak >= s.budgets[b].peak
    requires ThreadOk(SetThread(SetBudget(s, b, x), t, pc), pc)
    requires s.threads[t].Idle? || Target(s.threads[t]) == b
    requires PeakTracked(SetThread(SetBudget(s, b, x), t, pc), b)
    ensures Inv(SetThread(SetBudget(s, b, x), t, pc))
  {
    BalancedMove(s, t, pc, b, x);
    MoveKeepsThreads(s, t, pc, b, x);
    MoveKeepsPeaks(s, t, pc, b, x);
  }

  /** A move that leaves peak and top of its budget alone, and gives up no recording that is still needed. */
  lemma PlainMove(s: System, t: nat, pc: Pc, b: nat, x: Budget)
    requires Inv(s) && t < |s.threads| && b < |s.budgets| && BudgetOk(x) && Balances(s, t, pc, b, x)
    requires x.top == s.budgets[b].top && x.peak == s.budgets[b].peak
    requires ThreadOk(SetThread(SetBudget(s, b, x), t, pc), pc)
    requires s.threads[t].Idle? || Target(s.threads[t]) == b
    requires Recording(s.threads[t], b, x.top) ==> Recording(pc, b, x.top) || x.peak == x.top
    ensures Inv(SetThread(SetBudget(s, b, x), t, pc))
  {
    assert PeakTracked(s, b);
    StillTracked(s, t, pc, b, x);
    Moves(s, t, pc, b, x);
  }

  lemma SameBudget(s: System, b: nat)
    requires b < |s.budgets|
    ensures SetBudget(s, b, s.budgets[b]) == s
  {
  }

  lemma BeginKeepsInv(s: System, t: nat, b: nat, bytes: nat)
    requires Inv(s) && t < |s.threads|
    ensures Inv(BeginReserve(s, t, b, bytes)) && Inv(BeginRelease(s, t, b, bytes))
  {
    if s.threads[t] == Idle && b < |s.budgets| && bytes != 0 {
      assert BudgetOk(s.budgets[b]);
      SameBudget(s, b);
      PlainMove(s, t, ReserveLoad(b, bytes, if b == 0 then Self else Parent), b, s.budgets[b]);
      if bytes <= s.budgets[b].held {
        PlainMove(s, t, ReleaseLoad(b, bytes, Self), b, s.budgets[b].(held := s.budgets[b].held - bytes));
      }
    }
  }

  lemma LoadKeepsInv(s: System, t: nat, pc: Pc)
    requires Inv(s) && t < |s.threads| && pc == s.threads[t]
    requires pc.ReserveLoad? || pc.PeakLoad? || pc.ReleaseLoad?
    ensures Inv(Advance(s, t, false)) && Advance(s, t, true) == Advance(s, t, false)
  {
    assert ThreadOk(s, pc);
    var b := Target(pc);
    assert BudgetOk(s.budgets[b]);
    SameBudget(s, b);
    if pc.ReleaseLoad? {
      ShareIsPresent(s, t);
    }
    var u := Advance(s, t, false);
    PlainMove(s, t, u.threads[t], b, s.budgets[b]);
  }

  lemma ReserveKeepsInv(s: System, t: nat, pc: Pc, spurious: bool)
    requires Inv(s) && t < |s.threads| && pc == s.threads[t] && pc.ReserveCas?
    ensures Inv(Advance(s, t, spurious))
  {
    assert ThreadOk(s, pc);
    var b := Target(pc);
    var x := s.budgets[b];
    assert BudgetOk(x);
    if Refused(x, pc.cur, pc.bytes) {
      var over := pc.cur + pc.bytes < TWO_64;
      PlainMove(s, t, AfterRefusal(pc), b, x.(rejections := x.rejections + if over then 1 else 0));
    } else if x.current == pc.cur && !spurious {
      TakeKeepsInv(s, t, pc);
    } else {
      SameBudget(s, b);
      PlainMove(s, t, ReserveCas(pc.b, pc.bytes, pc.stage, x.current), b, x);
    }
  }

  /** The successful compare-and-swap of a reservation. */
  lemma TakeKeepsInv(s: System, t: nat, pc: Pc)
    requires Inv(s) && t < |s.threads| && pc == s.threads[t] && pc.ReserveCas?
    requires Target(pc) < |s.budgets| && pc.cur == s.budgets[Target(pc)].current
    requires !Refused(s.budgets[Target(pc)], pc.cur, pc.bytes)
    ensures Inv(Advance(s, t, false))
  {
    assert ThreadOk(s, pc);
    var b := Target(pc);
    var x := s.budgets[b];
    assert BudgetOk(x) && PeakTracked(s, b);
    var next := pc.cur + pc.bytes;
    var y := x.(current := next, top := Max(x.top, next));
    var to := PeakLoad(pc.b, pc.bytes, pc.stage, next);
    var u := SetThread(SetBudget(s, b, y), t, to);
    if next >= x.top {
      assert Recording(u.threads[t], b, u.budgets[b].top);
    } else {
      StillTracked(s, t, to, b, y);
    }
    Moves(s, t, to, b, y);
  }

  lemma PeakKeepsInv(s: System, t: nat, pc: Pc, spurious: bool)
    requires Inv(s) && t < |s.threads| && pc == s.threads[t] && pc.PeakCas?
    ensures Inv(Advance(s, t, spurious))
  {
    assert ThreadOk(s, pc);
    var b := Target(pc);
    var x := s.budgets[b];
    assert BudgetOk(x);
    SameBudget(s, b);
    if pc.seen >= pc.next {
      RecordKeepsInv(s, t, pc, x);
    } else if x.peak == pc.seen && !spurious {
      RecordKeepsInv(s, t, pc, x.(peak := pc.next));
    } else {
      PlainMove(s, t, PeakCas(pc.b, pc.bytes, pc.stage, pc.next, x.peak), b, x);
    }
  }

  /** The peak now covers the reservation: `y` is the budget with its peak recorded. */
  lemma RecordKeepsInv(s: System, t: nat, pc: Pc, y: Budget)
    requires Inv(s) && t < |s.threads| && pc == s.threads[t] && pc.PeakCas? && Target(pc) < |s.budgets|
    requires y == s.budgets[Target(pc)].(peak := y.peak) && s.budgets[Target(pc)].peak <= y.peak <= y.top && pc.next <= y.peak
    ensures Inv(FinishReserve(SetBudget(s, Target(pc), y), t, pc))
  {
    assert ThreadOk(s, pc);
    var b := Target(pc);
    assert BudgetOk(s.budgets[b]) && PeakTracked(s, b);
    var z := if pc.stage == Parent then y else y.(held := y.held + pc.bytes);
    var to := if pc.stage == Parent then ReserveLoad(pc.b, pc.bytes, Self) else Idle;
    var u := SetThread(SetBudget(s, b, z), t, to);
    assert FinishReserve(SetBudget(s, b, y), t, pc) == u;
    RecordTracks(s, t, to, b, z);
    Moves(s, t, to, b, z);
  }

  lemma RecordTracks(s: System, t: nat, to: Pc, b: nat, z: Budget)
    requires t < |s.threads| && b < |s.budgets| && PeakTracked(s, b) && z.top == s.budgets[b].top
    requires s.budgets[b].peak <= z.peak <= z.top && s.budgets[b].peak <= s.budgets[b].top
    requires s.threads[t].PeakCas? && s.threads[t].next <= z.peak
    ensures PeakTracked(SetThread(SetBudget(s, b, z), t, to), b)
  {
    var u := SetThread(SetBudget(s, b, z), t, to);
    if z.peak != z.top {
      var i :| 0 <= i < |s.threads| && Recording(s.threads[i], b, s.budgets[b].top);
      assert Recording(u.threads[i], b, u.budgets[b].top);
    }
  }

  lemma ReleaseKeepsInv(s: System, t: nat, pc: Pc, spurious: bool)
    requires Inv(s) && t < |s.threads| && pc == s.threads[t] && pc.ReleaseCas?
    ensures Inv(Advance(s, t, spurious))
  {
    assert ThreadOk(s, pc);
    ShareIsPresent(s, t);
    var b := Target(pc);
    var x := s.budgets[b];
    assert BudgetOk(x);
    if x.current == pc.cur && !spurious {
      PlainMove(s, t, AfterRelease(pc), b, x.(current := pc.cur - pc.bytes));
    } else {
      SameBudget(s, b);
      PlainMove(s, t, ReleaseCas(pc.b, pc.bytes, pc.stage, x.current), b, x);
    }
  }

  lemma DoKeepsInv(s: System, e: Event)
    requires Inv(s)
    ensures Inv(Do(s, e))
  {
    if e.thread < |s.threads| {
      var pc := s.threads[e.thread];
      assert ThreadOk(s, pc);
      match e
      case Reserve(t, b, bytes) => BeginKeepsInv(s, t, b, bytes);
      case Release(t, b, bytes) => BeginKeepsInv(s, t, b, bytes);
      case Step(t, spurious) =>
        if pc.ReserveLoad? || pc.PeakLoad? || pc.ReleaseLoad? {
          LoadKeepsInv(s, t, pc);
        } else if pc.ReserveCas? {
          ReserveKeepsInv(s, t, pc, spurious);
        } else if pc.PeakCas? {
          PeakKeepsInv(s, t, pc, spurious);
        } else if pc.ReleaseCas? {
          ReleaseKeepsInv(s, t, pc, spurious);
        }
    }
  }

  lemma {:induction false} RunKeepsInv(s: System, events: seq<Event>)
    requires Inv(s)
    ensures Inv(Run(s, events))
    decreases |events|
  {
    if events != [] {
      DoKeepsInv(s, events[0]);
      RunKeepsInv(Do(s, events[0]), events[1..]);
    }
  }

  lemma {:induction false} IdleSum(threads: seq<Pc>, share: Pc -> nat)
    requires share(Idle) == 0 && forall t :: 0 <= t < |threads| ==> threads[t] == Idle
    ensures Sum(threads, share) == 0
  {
    if threads != [] {
      IdleSum(threads[..|threads| - 1], share);
    }
  }

  lemma {:induction false} NoChildren(budgets: seq<Budget>)
    requires forall b :: 0 <= b < |budgets| ==> budgets[b].current == 0
    ensures Children(budgets) == 0
  {
    if |budgets| > 1 {
      NoChildren(budgets[..|budgets| - 1]);
    }
  }

  lemma InitInv(limits: seq<nat>, threads: nat)
    requires limits != []
    ensures Inv(Init(limits, threads))
  {
    var s := Init(limits, threads);
    NoChildren(s.budgets);
    IdleSum(s.threads, UpShares());
    forall b | 0 <= b < |s.budgets|
      ensures SelfConserved(s, b)
    {
      IdleSum(s.threads, SelfShareOf(b));
    }
  }

  /** Under every interleaving: no budget exceeds its limit, each child's value is what its callers hold plus
      what threads have in flight, and the root's is what is held at the root plus its children's
      values plus what is in flight between the levels. */
  lemma BudgetsAreConserved(limits: seq<nat>, threads: nat, events: seq<Event>, b: nat)
    requires b < |limits|
    ensures var s := Run(Init(limits, threads), events);
      && b < |s.budgets|
      && (s.budgets[b].limit != 0 ==> s.budgets[b].current <= s.budgets[b].limit)
      && s.budgets[b].current ==
           s.budgets[b].held + Sum(s.threads, SelfShareOf(b)) +
           (if b == 0 then Sum(s.threads, UpShares()) + Children(s.budgets) else 0)
  {
    InitInv(limits, threads);
    RunKeepsInv(Init(limits, threads), events);
    RunKeepsSize(Init(limits, threads), events);
    var s := Run(Init(limits, threads), events);
    assert SelfConserved(s, b) && BudgetOk(s.budgets[b]);
  }

  /** Under every interleaving, neither a rollback nor the release of a parent ever fails. */
  lemma ReleaseNeverFails(limits: seq<nat>, threads: nat, events: seq<Event>, t: nat)
    requires limits != [] && t < threads
    ensures var s := Run(Init(limits, threads), events); t < |s.threads| && s.threads[t] != Broken
  {
    InitInv(limits, threads);
    RunKeepsInv(Init(limits, threads), events);
    RunKeepsSize(Init(limits, threads), events);
    var s := Run(Init(limits, threads), events);
    assert ThreadOk(s, s.threads[t]);
  }

  /** At quiescence nothing is in flight: values are what is held, the root's is its own plus its children's, and
      every peak is the highest value ever reached. */
  lemma QuiescentBudgets(limits: seq<nat>, threads: nat, events: seq<Event>, b: nat)
    requires b < |limits|
    requires var s := Run(Init(limits, threads), events); forall t :: 0 <= t < |s.threads| ==> s.threads[t] == Idle
    ensures var s := Run(Init(limits, threads), events);
      && b < |s.budgets| && s.budgets[b].peak == s.budgets[b].top
      && s.budgets[b].current == s.budgets[b].held + if b == 0 then Children(s.budgets) else 0
  {
    BudgetsAreConserved(limits, threads, events, b);
    InitInv(limits, threads);
    RunKeepsInv(Init(limits, threads), events);
    var s := Run(Init(limits, threads), events);
    IdleSum(s.threads, SelfShareOf(b));
    IdleSum(s.threads, UpShares());
    assert PeakTracked(s, b);
  }

  lemma {:induction false} RunKeepsSize(s: System, events: seq<Event>)
    ensures |Run(s, events).budgets| == |s.budgets| && |Run(s, events).threads| == |s.threads|
    decreases |events|
  {
    if events != [] {
      RunKeepsSize(Do(s, events[0]), events[1..]);
    }
  }

  // `top` is the historical maximum of `current`.

  lemma DoKeepsTop(s: System, e: Event, b: nat)
    requires b < |s.budgets|
    ensures var u := Do(s, e);
      && |u.budgets| == |s.budgets| && s.budgets[b].top <= u.budgets[b].top
      && (u.budgets[b].top == s.budgets[b].top || u.budgets[b].top == u.budgets[b].current)
  {
  }

  lemma {:induction false} RunSnoc(s: System, events: seq<Event>, n: nat)
    requires n < |events|
    ensures Run(s, events[..n + 1]) == Do(Run(s, events[..n]), events[n])
    decreases n
  {
    if n == 0 {
      assert events[..1][1..] == [];
    } else {
      RunSnoc(Do(s, events[0]), events[1..], n - 1);
      assert events[..n + 1][1..] == events[1..][..n] && events[..n][1..] == events[1..][..n - 1];
    }
  }

  /** At every moment `top` is the value `current` had at some earlier moment, and no earlier value was higher. */
  lemma {:induction false} TopIsHistoricalMaximum(limits: seq<nat>, threads: nat, events: seq<Event>, b: nat, n: nat)
    returns (k: nat)
    requires b < |limits| && n <= |events|
    ensures k <= n
    ensures forall j :: 0 <= j <= n ==> |Run(Init(limits, threads), events[..j]).budgets| == |limits|
    ensures var top := Run(Init(limits, threads), events[..n]).budgets[b].top;
      && top == Run(Init(limits, threads), events[..k]).budgets[b].current
      && forall j :: 0 <= j <= n ==> Run(Init(limits, threads), events[..j]).budgets[b].current <= top
    decreases n
  {
    var s := Init(limits, threads);
    InitInv(limits, threads);
    if n == 0 {
      k := 0;
    } else {
      k := TopIsHistoricalMaximum(limits, threads, events, b, n - 1);
      StepTop(s, events, b, n);
      if Run(s, events[..n]).budgets[b].top != Run(s, events[..n - 1]).budgets[b].top {
        k := n;
      }
    }
  }

  lemma StepTop(s: System, events: seq<Event>, b: nat, n: nat)
    requires Inv(s) && 0 < n <= |events| && b < |s.budgets|
    ensures var before, after := Run(s, events[..n - 1]), Run(s, events[..n]);
      && |before.budgets| == |after.budgets| == |s.budgets|
      && before.budgets[b].top <= after.budgets[b].top && after.budgets[b].current <= after.budgets[b].top
      && (after.budgets[b].top == before.budgets[b].top || after.budgets[b].top == after.budgets[b].current)
  {
    RunKeepsSize(s, events[..n - 1]);
    RunSnoc(s, events, n - 1);
    DoKeepsTop(Run(s, events[..n - 1]), events[n - 1], b);
    RunKeepsInv(s, events[..n]);
    assert BudgetOk(Run(s, events[..n]).budgets[b]);
  }
}
