/** One connection from acceptance to the wire (reactor.c): the send path of SendPath feeding the TX queues of TxQueue.
    A reactor step hands whatever it entered into a connection's FIFO to that connection's TX queue, and a write
    that completes an item completes it in the reactor. The octets of an item are any function of it. */
module Wire {
  import opened Status
  import opened TxFrames
  import Q = CommandQueue
  import S = SendPath
  import O = SendOrder
  import T = TxQueue
  import X = TxOrder
  import W = TxStream

  type Content = S.Item -> Message

  /** `history[i]` is what happened to the TX queue of the connection in slot `i`. */
  datatype Link = Link(reactor: S.Reactor, history: seq<seq<T.Event>>)

  datatype Event = OnReactor(event: S.Event) | Write(slot: nat, n: nat) | Stall(slot: nat)

  function Queue(crc: Checksum, history: seq<T.Event>): T.Tx {
    T.Run(crc, T.EMPTY, history)
  }

  /** A send is prepared when it is admitted, a reserved item when it is selected. */
  function Sends(content: Content, items: seq<S.Item>): seq<T.Event> {
    if items == [] then [] else [T.Send(content(items[0]), items[0].Frame?)] + Sends(content, items[1..])
  }

  /** What a reactor step that turned `a` into `b` makes of the connection's TX history. */
  function Feed(content: Content, history: seq<T.Event>, a: S.Slot, b: S.Slot): seq<T.Event> {
    if a.state.Active? && b.state.Active? && a.generation == b.generation && |a.entered| <= |b.entered|
    then history + Sends(content, b.entered[|a.entered|..])
    else []
  }

  predicate Live(l: Link, slot: nat) {
    slot < |l.history| && slot < |l.reactor.slots| && l.reactor.slots[slot].state.Active?
  }

  function OnQueue(crc: Checksum, l: Link, slot: nat, e: T.Event): Link
    requires Live(l, slot)
  {
    var t := Queue(crc, l.history[slot]);
    var r := l.reactor;
    Link(if |T.Step(crc, t, e).fifo| < |t.fifo| then S.Complete(r, slot, T.Select(t)) else r,
         l.history[slot := l.history[slot] + [e]])
  }

  function FeedAll(content: Content, history: seq<seq<T.Event>>, a: seq<S.Slot>, b: seq<S.Slot>): (fed: seq<seq<T.Event>>)
    requires |history| == |a| == |b|
    ensures |fed| == |a| && forall i :: 0 <= i < |a| ==> fed[i] == Feed(content, history[i], a[i], b[i])
  {
    seq(|a|, i requires 0 <= i < |a| => Feed(content, history[i], a[i], b[i]))
  }

  function Step(crc: Checksum, content: Content, l: Link, e: Event): Link {
    match e
    case OnReactor(event) =>
      var r := S.Step(l.reactor, event);
      if event.EComplete? || !(|l.history| == |l.reactor.slots| == |r.slots|) then l
      else Link(r, FeedAll(content, l.history, l.reactor.slots, r.slots))
    case Write(slot, n) => if Live(l, slot) then OnQueue(crc, l, slot, T.Write(n)) else l
    case Stall(slot) => if Live(l, slot) then OnQueue(crc, l, slot, T.Stall) else l
  }

  function Run(crc: Checksum, content: Content, l: Link, events: seq<Event>): Link
    decreases |events|
  {
    if events == [] then l else Run(crc, content, Step(crc, content, l, events[0]), events[1..])
  }

  function Init(capacity: nat, connections: nat): Link {
    Link(S.Init(capacity, connections), seq(connections, _ => []))
  }

  // The two sides agree.

  predicate Carries(content: Content, messages: seq<Message>, items: seq<S.Item>) {
    |messages| == |items| && forall k :: 0 <= k < |items| ==> messages[k] == content(items[k])
  }

  /** The TX queue holds what the reactor's FIFO holds, item by item. */
  predicate SameFifo(fifo: seq<S.Item>, entered: seq<S.Item>, queue: seq<T.TxItem>) {
    |fifo| == |queue| && forall j :: 0 <= j < |fifo| ==> queue[j].id < |entered| && fifo[j] == entered[queue[j].id]
  }

  predicate Agrees(content: Content, s: S.Slot, t: T.Tx) {
    Carries(content, t.messages, s.entered) && SameFifo(s.fifo, s.entered, t.fifo)
  }

  predicate Coupled(crc: Checksum, content: Content, s: S.Slot, history: seq<T.Event>) {
    if s.state.Active? then Agrees(content, s, Queue(crc, history)) else history == []
  }

  predicate AllCoupled(crc: Checksum, content: Content, slots: seq<S.Slot>, history: seq<seq<T.Event>>) {
    |history| == |slots| && forall i :: 0 <= i < |slots| ==> Coupled(crc, content, slots[i], history[i])
  }

  ghost predicate Inv(crc: Checksum, content: Content, l: Link) {
    O.Inv(l.reactor) && AllCoupled(crc, content, l.reactor.slots, l.history)
  }

  // What a reactor step does to one slot.

  /** The same connection, with more items at the end of its FIFO. */
  predicate Grows(a: S.Slot, b: S.Slot) {
    && b.state == a.state && b.generation == a.generation && a.entered <= b.entered
    && b.fifo == a.fifo + b.entered[|a.entered|..]
  }

  predicate Evolves(a: S.Slot, b: S.Slot) {
    !b.state.Active? || (b.entered == [] && b.fifo == []) || Grows(a, b)
  }

  lemma StaysPut(a: S.Slot, b: S.Slot)
    requires b.state == a.state && b.generation == a.generation && b.entered == a.entered && b.fifo == a.fifo
    ensures Grows(a, b)
  {
    assert b.entered[|a.entered|..] == [];
  }

  lemma EnterGrows(a: S.Slot, b: S.Slot, item: S.Item)
    requires Grows(a, b)
    ensures Grows(a, S.Enter(b, item))
  {
    assert (b.entered + [item])[|a.entered|..] == b.entered[|a.entered|..] + [item];
  }

  lemma LifecycleGrows(a: S.Slot, b: S.Slot, lastProcessed: nat)
    requires Grows(a, b)
    ensures Grows(a, S.TryLifecycle(b, lastProcessed))
  {
    if b.resetFirst {
      TryGrows(a, b, lastProcessed);
      TryGrows(a, S.TryReset(b, lastProcessed), lastProcessed);
    } else {
      TryGrows(a, b, lastProcessed);
      TryGrows(a, S.TryGoaway(b, lastProcessed), lastProcessed);
    }
  }

  lemma TryGrows(a: S.Slot, b: S.Slot, lastProcessed: nat)
    requires Grows(a, b)
    ensures Grows(a, S.TryGoaway(b, lastProcessed)) && Grows(a, S.TryReset(b, lastProcessed))
  {
    if b.goaway.Waiting? {
      EnterGrows(a, b.(goaway := S.Queued(b.goaway.item)), b.goaway.item);
    }
    if b.reset.Waiting? {
      EnterGrows(a, b.(reset := S.Queued(b.reset.item)), b.reset.item);
    }
  }

  predicate AllEvolve(a: seq<S.Slot>, b: seq<S.Slot>) {
    |b| == |a| && forall i :: 0 <= i < |a| ==> Evolves(a[i], b[i])
  }

  lemma OneEvolves(a: seq<S.Slot>, i: nat, s: S.Slot)
    requires i < |a| && Evolves(a[i], s)
    ensures AllEvolve(a, a[i := s])
  {
    forall j | 0 <= j < |a| && j != i
      ensures Evolves(a[j], a[i := s][j])
    {
      StaysPut(a[j], a[j]);
    }
  }

  lemma NoneChanges(a: seq<S.Slot>)
    ensures AllEvolve(a, a)
  {
    forall j | 0 <= j < |a|
      ensures Evolves(a[j], a[j])
    {
      StaysPut(a[j], a[j]);
    }
  }

  lemma FlushEvolves(a: seq<S.Slot>, lastProcessed: nat)
    ensures AllEvolve(a, S.Flush(a, lastProcessed))
  {
    forall j | 0 <= j < |a|
      ensures Evolves(a[j], S.Flush(a, lastProcessed)[j])
    {
      StaysPut(a[j], a[j]);
      LifecycleGrows(a[j], a[j], lastProcessed);
    }
  }

  lemma SendEvolves(r: S.Reactor, onOwner: bool, slot: nat, generation: nat, id: nat)
    ensures AllEvolve(r.slots, S.Send(r, onOwner, slot, generation, id).1.slots)
  {
    NoneChanges(r.slots);
    if slot < |r.slots| {
      var s := r.slots[slot];
      var accepted := S.Accept(s, S.Frame(id));
      StaysPut(s, accepted);
      EnterGrows(s, accepted, S.Frame(id));
      OneEvolves(r.slots, slot, accepted);
      OneEvolves(r.slots, slot, S.Enter(accepted, S.Frame(id)));
    }
  }

  lemma ReservedEvolves(r: S.Reactor, slot: nat, pending: S.Slot)
    requires slot < |r.slots|
    requires var s := r.slots[slot];
      pending.state == s.state && pending.generation == s.generation && pending.entered == s.entered && pending.fifo == s.fifo
    ensures AllEvolve(r.slots, r.slots[slot := S.TryLifecycle(pending, r.lastProcessed)])
  {
    StaysPut(r.slots[slot], pending);
    LifecycleGrows(r.slots[slot], pending, r.lastProcessed);
    OneEvolves(r.slots, slot, S.TryLifecycle(pending, r.lastProcessed));
  }

  lemma GoawayEvolves(r: S.Reactor, slot: nat, generation: nat, lastStream: nat)
    ensures AllEvolve(r.slots, S.SendGoaway(r, slot, generation, lastStream).1.slots)
  {
    NoneChanges(r.slots);
    if slot < |r.slots| {
      var s := r.slots[slot];
      ReservedEvolves(r, slot, S.Accept(s, S.Goaway(lastStream)).(
        goaway := S.Waiting(S.Goaway(lastStream), r.queue.nextSequence, S.Frontier(r)), resetFirst := s.reset.Waiting?));
    }
  }

  lemma TerminalEvolves(r: S.Reactor, slot: nat, generation: nat, terminal: S.Item)
    ensures AllEvolve(r.slots, S.SendTerminal(r, slot, generation, terminal).1.slots)
  {
    NoneChanges(r.slots);
    if slot < |r.slots| {
      var s := r.slots[slot];
      ReservedEvolves(r, slot, S.Accept(s, terminal).(
        reset := S.Waiting(terminal, r.queue.nextSequence, S.Frontier(r)), resetFirst := !s.goaway.Waiting?));
    }
  }

  lemma AdoptEvolves(r: S.Reactor, onOwner: bool, succeeds: bool)
    ensures AllEvolve(r.slots, S.Adopt(r, onOwner, succeeds).slots)
  {
    NoneChanges(r.slots);
    var slot := S.FindFree(r.slots, 0);
    if slot < |r.slots| {
      var generation := r.slots[slot].generation + 1;
      OneEvolves(r.slots, slot, S.FreshSlot(generation, S.Active));
      OneEvolves(r.slots, slot, S.FreshSlot(generation, S.ReservedSlot));
      OneEvolves(r.slots, slot, S.FreshSlot(generation, S.FreeSlot));
    }
  }

  lemma CloseEvolves(r: S.Reactor, slot: nat, generation: nat)
    ensures AllEvolve(r.slots, S.CloseConnection(r, slot, generation).slots)
  {
    NoneChanges(r.slots);
    if slot < |r.slots| {
      OneEvolves(r.slots, slot, S.CloseSlot(r.slots[slot]));
    }
  }

  /** An ADOPT finds its slot reserved and untouched. */
  lemma AdoptedIsFresh(r: S.Reactor)
    requires O.Inv(r) && r.batch != [] && !r.midCommand && r.batch[0].kind.AdoptFd? && r.batch[0].slot < |r.slots|
    ensures r.slots[r.batch[0].slot].entered == []
  {
    var c := r.batch[0];
    var out := O.Outstanding(r);
    assert out[0] == c;
    assert O.SlotInv(r.slots[c.slot], c.slot, out, r.processed);
    assert O.AdoptsSlot(out[0], c.slot);
  }

  lemma DispatchEvolves(r: S.Reactor, succeeds: bool)
    requires O.Inv(r)
    ensures AllEvolve(r.slots, S.Dispatch(r, succeeds).slots)
  {
    NoneChanges(r.slots);
    if r.batch != [] && !r.midCommand && r.batch[0].slot < |r.slots| {
      var c := r.batch[0];
      var s := r.slots[c.slot];
      match c.kind
      case Send =>
        StaysPut(s, s);
        EnterGrows(s, s, S.Frame(c.payload));
        OneEvolves(r.slots, c.slot, S.Enter(s, S.Frame(c.payload)));
      case AdoptFd =>
        AdoptedIsFresh(r);
        OneEvolves(r.slots, c.slot, S.Dispatch(r, succeeds).slots[c.slot]);
      case CloseConn => CloseEvolves(r.(midCommand := true), c.slot, c.generation);
      case Abort => CloseEvolves(r.(midCommand := true), c.slot, c.generation);
      case _ =>
    }
  }

  lemma StepEvolves(r: S.Reactor, e: S.Event)
    requires O.Inv(r) && !e.EComplete?
    ensures AllEvolve(r.slots, S.Step(r, e).slots)
  {
    NoneChanges(r.slots);
    match e {
      case ESend(onOwner, slot, generation, id) => SendEvolves(r, onOwner, slot, generation, id);
      case EGoaway(slot, generation, lastStream) => GoawayEvolves(r, slot, generation, lastStream);
      case ETerminal(slot, generation, terminal) => TerminalEvolves(r, slot, generation, terminal);
      case EAdopt(onOwner, succeeds) => AdoptEvolves(r, onOwner, succeeds);
      case EBegin(max) => FlushEvolves(r.slots, r.lastProcessed);
      case EDispatch(succeeds) => DispatchEvolves(r, succeeds);
      case EFinish =>
        if r.batch != [] {
          FlushEvolves(r.slots, r.batch[0].sequence);
        }
      case EClose(slot, generation) => CloseEvolves(r, slot, generation);
      case _ =>
    }
  }

  // Feeding the TX queue.

  lemma RunUnfolds(crc: Checksum, t: T.Tx, events: seq<T.Event>)
    requires events != []
    ensures T.Run(crc, t, events) == T.Run(crc, T.Step(crc, t, events[0]), events[1..])
  {
  }

  lemma {:induction false} RunAppends(crc: Checksum, t: T.Tx, a: seq<T.Event>, b: seq<T.Event>)
    ensures T.Run(crc, t, a + b) == T.Run(crc, T.Run(crc, t, a), b)
    decreases |a|
  {
    if a == [] {
      assert a + b == b;
    } else {
      var ab := a + b;
      RunUnfolds(crc, t, a);
      RunUnfolds(crc, t, ab);
      assert ab[0] == a[0] && ab[1..] == a[1..] + b;
      RunAppends(crc, T.Step(crc, t, a[0]), a[1..], b);
    }
  }

  lemma QueueStep(crc: Checksum, history: seq<T.Event>, e: T.Event)
    ensures Queue(crc, history + [e]) == T.Step(crc, Queue(crc, history), e)
  {
    RunAppends(crc, T.EMPTY, history, [e]);
    assert [e][1..] == [];
  }

  ghost predicate AllSendable(content: Content) {
    forall x: S.Item :: Sendable(content(x))
  }

  lemma EnqueueAgrees(crc: Checksum, content: Content, s: S.Slot, t: T.Tx, item: S.Item)
    requires Agrees(content, s, t) && Sendable(content(item))
    ensures Agrees(content, S.Enter(s, item), T.Enqueue(crc, t, content(item), item.Frame?))
  {
  }

  lemma {:induction false} SendsAgree(crc: Checksum, content: Content, s: S.Slot, t: T.Tx, items: seq<S.Item>)
    requires Agrees(content, s, t) && AllSendable(content)
    ensures Agrees(content, s.(fifo := s.fifo + items, entered := s.entered + items), T.Run(crc, t, Sends(content, items)))
    decreases |items|
  {
    if items == [] {
      assert s.fifo + items == s.fifo && s.entered + items == s.entered;
    } else {
      var u := S.Enter(s, items[0]);
      EnqueueAgrees(crc, content, s, t, items[0]);
      SendsAgree(crc, content, u, T.Enqueue(crc, t, content(items[0]), items[0].Frame?), items[1..]);
      assert u.fifo + items[1..] == s.fifo + items && u.entered + items[1..] == s.entered + items;
      assert Sends(content, items)[1..] == Sends(content, items[1..]);
    }
  }

  lemma AgreesOnSame(content: Content, a: S.Slot, b: S.Slot, t: T.Tx)
    requires Agrees(content, a, t) && b.fifo == a.fifo && b.entered == a.entered
    ensures Agrees(content, b, t)
  {
  }

  lemma FeedGrown(crc: Checksum, content: Content, history: seq<T.Event>, a: S.Slot, b: S.Slot)
    requires Coupled(crc, content, a, history) && AllSendable(content) && a.state.Active? && Grows(a, b)
    ensures Coupled(crc, content, b, Feed(content, history, a, b))
  {
    var items := b.entered[|a.entered|..];
    RunAppends(crc, T.EMPTY, history, Sends(content, items));
    SendsAgree(crc, content, a, Queue(crc, history), items);
    assert b.entered == a.entered + items;
    AgreesOnSame(content, a.(fifo := a.fifo + items, entered := a.entered + items), b, Queue(crc, Feed(content, history, a, b)));
  }

  lemma FeedFresh(crc: Checksum, content: Content, history: seq<T.Event>, a: S.Slot, b: S.Slot)
    requires Coupled(crc, content, a, history) && b.state.Active? && b.entered == [] && b.fifo == []
    ensures Coupled(crc, content, b, Feed(content, history, a, b))
  {
    if Feed(content, history, a, b) != [] {
      assert a.entered == [] && Sends(content, []) == [];
      assert Feed(content, history, a, b) == history;
      NothingQueued(content, a, Queue(crc, history));
    }
  }

  lemma NothingQueued(content: Content, s: S.Slot, t: T.Tx)
    requires Agrees(content, s, t) && s.entered == []
    ensures t.fifo == []
  {
    assert forall j :: 0 <= j < |t.fifo| ==> t.fifo[j].id < 0;
    assert 0 < |t.fifo| ==> t.fifo[0].id < 0;
  }

  lemma ReactorKeepsInv(crc: Checksum, content: Content, l: Link, e: S.Event)
    requires Inv(crc, content, l) && AllSendable(content)
    ensures Inv(crc, content, Step(crc, content, l, OnReactor(e)))
  {
    if !e.EComplete? {
      var r := S.Step(l.reactor, e);
      O.StepKeepsInv(l.reactor, e);
      StepEvolves(l.reactor, e);
      forall i | 0 <= i < |r.slots|
        ensures Coupled(crc, content, r.slots[i], Feed(content, l.history[i], l.reactor.slots[i], r.slots[i]))
      {
        var a, b := l.reactor.slots[i], r.slots[i];
        assert Evolves(a, b) && Coupled(crc, content, a, l.history[i]);
        if b.state.Active? {
          if Grows(a, b) {
            FeedGrown(crc, content, l.history[i], a, b);
          } else {
            FeedFresh(crc, content, l.history[i], a, b);
          }
        }
      }
    }
  }

  // Writing.

  /** A queue step other than a send keeps every item in place, or takes out the selected one. */
  lemma StepRemovesSelected(crc: Checksum, t: T.Tx, e: T.Event)
    requires T.Shape(crc, t) && !e.Send?
    ensures var u := T.Step(crc, t, e);
      && u.messages == t.messages
      && (if |u.fifo| < |t.fifo| then T.Select(t) < |t.fifo| && u.fifo == T.Remove(t.fifo, T.Select(t))
          else |u.fifo| == |t.fifo| && forall j :: 0 <= j < |t.fifo| ==> u.fifo[j].id == t.fifo[j].id)
  {
    var i := T.Select(t);
    if e.Write? && i < |t.fifo| {
      CommitRemoves(crc, t, i, e.n + 1);
    }
  }

  lemma CommitRemoves(crc: Checksum, t: T.Tx, i: nat, k: nat)
    requires T.Shape(crc, t) && i < |t.fifo|
    ensures var u := T.Commit(t, i, T.Prepare(crc, t.fifo[i]), k);
      && u.messages == t.messages
      && (u.fifo == T.Remove(t.fifo, i) || (|u.fifo| == |t.fifo| && forall j :: 0 <= j < |t.fifo| ==> u.fifo[j].id == t.fifo[j].id))
  {
    X.PrepareIsFrameAt(crc, t.fifo[i]);
  }

  lemma RemoveAgrees(content: Content, s: S.Slot, t: T.Tx, i: nat, s': S.Slot, u: T.Tx)
    requires Agrees(content, s, t) && i < |t.fifo| && u.messages == t.messages && u.fifo == T.Remove(t.fifo, i)
    requires s'.entered == s.entered && s'.fifo == s.fifo[..i] + s.fifo[i + 1..]
    ensures Agrees(content, s', u)
  {
    assert forall j :: 0 <= j < |u.fifo| ==>
      u.fifo[j] == t.fifo[if j < i then j else j + 1] && s'.fifo[j] == s.fifo[if j < i then j else j + 1];
  }

  lemma StepAgrees(crc: Checksum, content: Content, s: S.Slot, t: T.Tx, e: T.Event, s': S.Slot, u: T.Tx)
    requires T.Shape(crc, t) && Agrees(content, s, t) && !e.Send? && u == T.Step(crc, t, e)
    requires s'.entered == s.entered
    requires |u.fifo| >= |t.fifo| ==> s'.fifo == s.fifo
    requires |u.fifo| < |t.fifo| && T.Select(t) < |s.fifo| ==> s'.fifo == s.fifo[..T.Select(t)] + s.fifo[T.Select(t) + 1..]
    ensures Agrees(content, s', u)
  {
    StepRemovesSelected(crc, t, e);
    if |u.fifo| < |t.fifo| {
      RemoveAgrees(content, s, t, T.Select(t), s', u);
    }
  }

  lemma CompleteIs(r: S.Reactor, slot: nat, i: nat)
    requires slot < |r.slots| && r.slots[slot].state.Active?
    ensures var r', s := S.Complete(r, slot, i), r.slots[slot];
      && |r'.slots| == |r.slots| && (forall j :: 0 <= j < |r.slots| && j != slot ==> r'.slots[j] == r.slots[j])
      && r'.slots[slot].state.Active? && r'.slots[slot].entered == s.entered
      && (i < |s.fifo| ==> r'.slots[slot].fifo == s.fifo[..i] + s.fifo[i + 1..])
  {
  }

  lemma QueueStepAgrees(crc: Checksum, content: Content, l: Link, slot: nat, e: T.Event)
    requires Live(l, slot) && Coupled(crc, content, l.reactor.slots[slot], l.history[slot]) && !e.Send?
    ensures var next := OnQueue(crc, l, slot, e);
      && |next.reactor.slots| == |l.reactor.slots|
      && (forall j :: 0 <= j < |l.reactor.slots| && j != slot ==> next.reactor.slots[j] == l.reactor.slots[j])
      && Coupled(crc, content, next.reactor.slots[slot], next.history[slot])
  {
    var h := l.history[slot];
    var t := Queue(crc, h);
    X.RunKeepsShape(crc, T.EMPTY, h);
    QueueStep(crc, h, e);
    CompleteIs(l.reactor, slot, T.Select(t));
    StepAgrees(crc, content, l.reactor.slots[slot], t, e, OnQueue(crc, l, slot, e).reactor.slots[slot], Queue(crc, h + [e]));
  }

  lemma QueueKeepsInv(crc: Checksum, content: Content, l: Link, slot: nat, e: T.Event)
    requires Inv(crc, content, l) && Live(l, slot) && !e.Send?
    ensures Inv(crc, content, OnQueue(crc, l, slot, e))
  {
    QueueStepAgrees(crc, content, l, slot, e);
    O.CompleteKeepsInv(l.reactor, slot, T.Select(Queue(crc, l.history[slot])));
    OthersStayCoupled(crc, content, l, OnQueue(crc, l, slot, e), slot);
  }

  lemma OthersStayCoupled(crc: Checksum, content: Content, l: Link, next: Link, slot: nat)
    requires AllCoupled(crc, content, l.reactor.slots, l.history) && slot < |l.history| == |next.history|
    requires |next.reactor.slots| == |l.reactor.slots| && Coupled(crc, content, next.reactor.slots[slot], next.history[slot])
    requires forall i :: 0 <= i < |l.history| && i != slot ==>
      next.reactor.slots[i] == l.reactor.slots[i] && next.history[i] == l.history[i]
    ensures AllCoupled(crc, content, next.reactor.slots, next.history)
  {
  }

  lemma StepKeepsInv(crc: Checksum, content: Content, l: Link, e: Event)
    requires Inv(crc, content, l) && AllSendable(content)
    ensures Inv(crc, content, Step(crc, content, l, e))
  {
    match e
    case OnReactor(event) => ReactorKeepsInv(crc, content, l, event);
    case Write(slot, n) => if Live(l, slot) { QueueKeepsInv(crc, content, l, slot, T.Write(n)); }
    case Stall(slot) => if Live(l, slot) { QueueKeepsInv(crc, content, l, slot, T.Stall); }
  }

  lemma {:induction false} RunKeepsInv(crc: Checksum, content: Content, l: Link, events: seq<Event>)
    requires Inv(crc, content, l) && AllSendable(content)
    ensures Inv(crc, content, Run(crc, content, l, events))
    decreases |events|
  {
    if events != [] {
      StepKeepsInv(crc, content, l, events[0]);
      RunKeepsInv(crc, content, Step(crc, content, l, events[0]), events[1..]);
    }
  }

  // End to end.

  /** The frames of item `k` so far. */
  function FramesOf(t: T.Tx, k: nat): seq<Frame> {
    W.Delivered(t.frames, k)
  }

  /** Of each accepted item a prefix of its fragments is out, and all of them unless it is still to be sent. */
  ghost predicate FragmentsOut(crc: Checksum, content: Content, accepted: seq<S.Item>, t: T.Tx)
    requires AllSendable(content)
  {
    && |t.messages| <= |accepted|
    && (forall k: nat :: k < |t.messages| ==>
          && FramesOf(t, k) <= Fragments(crc, content(accepted[k]), 0)
          && (!X.Queued(t, k) ==> FramesOf(t, k) == Fragments(crc, content(accepted[k]), 0)))
    && (forall k: nat :: |t.messages| <= k ==> FramesOf(t, k) == [])
  }

  /** The item at `x` may be sent before the one at `y`, which was accepted earlier: it is header-only control, the
      other is DATA, and no fence was accepted between them. */
  predicate MayPass(content: Content, accepted: seq<S.Item>, x: nat, y: nat) {
    && y < x < |accepted|
    && content(accepted[y]).kind.Data? && T.CanBypass(content(accepted[x]))
    && forall z :: y < z < x ==> !T.Fence(content(accepted[z]))
  }

  predicate WritesInOrder(content: Content, accepted: seq<S.Item>, sent: seq<nat>) {
    forall p, q :: 0 <= p < q < |sent| && sent[q] < sent[p] ==> MayPass(content, accepted, sent[p], sent[q])
  }

  lemma StreamIsFrames(crc: Checksum, h: seq<T.Event>)
    ensures var t := Queue(crc, h); W.StreamOk(t) && forall k: nat :: |t.messages| <= k ==> FramesOf(t, k) == []
  {
    W.RunKeepsStream(crc, T.EMPTY, h);
  }

  lemma FragmentsAreOut(crc: Checksum, content: Content, accepted: seq<S.Item>, entered: seq<S.Item>, h: seq<T.Event>)
    requires entered <= accepted && Carries(content, Queue(crc, h).messages, entered) && AllSendable(content)
    ensures FragmentsOut(crc, content, accepted, Queue(crc, h))
  {
    var t := Queue(crc, h);
    StreamIsFrames(crc, h);
    forall k: nat | k < |t.messages|
      ensures FramesOf(t, k) <= Fragments(crc, content(accepted[k]), 0)
      ensures !X.Queued(t, k) ==> FramesOf(t, k) == Fragments(crc, content(accepted[k]), 0)
    {
      W.FramesAreTheFragments(crc, h, k);
      assert t.messages[k] == content(accepted[k]);
    }
  }

  lemma WritesAreInOrder(crc: Checksum, content: Content, accepted: seq<S.Item>, entered: seq<S.Item>, h: seq<T.Event>)
    requires entered <= accepted && Carries(content, Queue(crc, h).messages, entered)
    ensures WritesInOrder(content, accepted, Queue(crc, h).sent)
  {
    var t := Queue(crc, h);
    forall p, q | 0 <= p < q < |t.sent| && t.sent[q] < t.sent[p]
      ensures MayPass(content, accepted, t.sent[p], t.sent[q])
    {
      X.OnlyControlOvertakesData(crc, h, p, q);
      assert forall z :: 0 <= z < |t.messages| ==> t.messages[z] == content(accepted[z]);
    }
  }

  /** Every frame out names the item it belongs to and carries the checksum of its payload. */
  predicate FramesAddressed(crc: Checksum, content: Content, accepted: seq<S.Item>, t: T.Tx) {
    forall p :: 0 <= p < |t.frames| ==>
      var f := t.frames[p];
      f.id < |accepted| && Names(f.frame.header, content(accepted[f.id])) && f.frame.header.payloadCrc == crc(f.frame.payload)
  }

  lemma FramesAreAddressed(crc: Checksum, content: Content, accepted: seq<S.Item>, entered: seq<S.Item>, h: seq<T.Event>)
    requires entered <= accepted && Carries(content, Queue(crc, h).messages, entered)
    ensures FramesAddressed(crc, content, accepted, Queue(crc, h))
  {
    var t := Queue(crc, h);
    forall p | 0 <= p < |t.frames|
      ensures var f := t.frames[p];
        f.id < |accepted| && Names(f.frame.header, content(accepted[f.id])) && f.frame.header.payloadCrc == crc(f.frame.payload)
    {
      W.FramesNameTheirMessage(crc, h, p);
    }
  }

  /** In every run of the reactor and its TX queues, for every connection: the octets on the wire are whole frames
      and what is half sent; the frames are the fragments of the accepted items, each naming its item's stream and
      message id, in acceptance order up to control overtaking DATA. Once no command is outstanding and the FIFO is empty, every accepted
      item is on the wire completely. */
  lemma WireIsAcceptanceOrder(
    crc: Checksum, content: Content, capacity: nat, connections: nat, events: seq<Event>, slot: nat)
    requires 0 < capacity <= S.UINT32_MAX && slot < connections && AllSendable(content)
    requires var l := Run(crc, content, Init(capacity, connections), events); Live(l, slot)
    ensures var l := Run(crc, content, Init(capacity, connections), events);
      var s, t := l.reactor.slots[slot], Queue(crc, l.history[slot]);
      && t.output == W.Flat(t.frames) + W.Partial(t.fifo)
      && FragmentsOut(crc, content, s.accepted, t) && WritesInOrder(content, s.accepted, t.sent)
      && FramesAddressed(crc, content, s.accepted, t)
      && (l.reactor.batch == [] && Q.Contents(l.reactor.queue) == [] && s.fifo == [] ==>
            && t.output == W.Flat(t.frames)
            && forall k :: 0 <= k < |s.accepted| ==> FramesOf(t, k) == Fragments(crc, content(s.accepted[k]), 0))
  {
    O.InitInv(capacity, connections);
    var l0 := Init(capacity, connections);
    assert Inv(crc, content, l0);
    RunKeepsInv(crc, content, l0, events);
    var l := Run(crc, content, l0, events);
    var s, t := l.reactor.slots[slot], Queue(crc, l.history[slot]);
    var out := O.Outstanding(l.reactor);
    assert O.SlotInv(s, slot, out, l.reactor.processed) && Coupled(crc, content, s, l.history[slot]);
    StreamIsFrames(crc, l.history[slot]);
    FragmentsAreOut(crc, content, s.accepted, s.entered, l.history[slot]);
    WritesAreInOrder(crc, content, s.accepted, s.entered, l.history[slot]);
    FramesAreAddressed(crc, content, s.accepted, s.entered, l.history[slot]);
    if l.reactor.batch == [] && Q.Contents(l.reactor.queue) == [] && s.fifo == [] {
      assert out == [] && O.Held(s) == [];
      assert t.fifo == [] && W.Partial([]) == [];
    }
  }
}
