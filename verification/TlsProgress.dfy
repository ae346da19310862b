/** When a TLS rotation succeeds, falls back or latches, as a function of which calls got through, and what it does
    to connections by itself. */
module TlsProgress {
  import opened Status
  import opened TlsRotation
  import opened TlsReferences
  import opened TlsSafety

  // Each call consumes one tick.

  lemma HappenShape(s: Server, h: Happening)
    ensures var t := Happen(s, h);
      |t.shards| == |s.shards| && t.clock == s.clock && t.listener == s.listener && t.failed == s.failed
  {
  }

  lemma {:induction false} HappenAllShape(s: Server, hs: seq<Happening>)
    ensures var t := HappenAll(s, hs);
      |t.shards| == |s.shards| && t.clock == s.clock && t.listener == s.listener && t.failed == s.failed
    decreases |hs|
  {
    if hs != [] {
      HappenShape(s, hs[0]);
      HappenAllShape(Happen(s, hs[0]), hs[1..]);
    }
  }

  lemma ArriveShape(s: Server, env: Env)
    ensures var t := Arrive(s, env);
      |t.shards| == |s.shards| && t.clock == s.clock + 1 && t.listener == s.listener && t.failed == s.failed
  {
    HappenAllShape(s, env(s.clock).happenings);
  }

  /** `r` answers the call made in `s`: it gets through exactly when its tick says so. */
  predicate Answers(r: Reply, s: Server, env: Env) {
    r.ok == env(s.clock).ok && r.server.clock == s.clock + 1 && |r.server.shards| == |s.shards| && r.server.failed == s.failed
  }

  ghost predicate TickByTick(step: (Server, nat) -> Reply, env: Env, n: nat) {
    forall x: Server, i: nat :: |x.shards| == n && i < n ==> Answers(step(x, i), x, env)
  }

  lemma GateTick(env: Env, n: nat, paused: bool)
    ensures TickByTick(GateStep(env, paused), env, n)
  {
    forall x: Server, i: nat | |x.shards| == n && i < n
      ensures Answers(Gate(x, env, i, paused), x, env)
    {
      ArriveShape(x, env);
    }
  }

  lemma CloseTick(env: Env, n: nat, lo: nat, hi: nat)
    ensures TickByTick(CloseStep(env, lo, hi), env, n)
  {
    forall x: Server, i: nat | |x.shards| == n && i < n
      ensures Answers(Close(x, env, i, lo, hi), x, env)
    {
      ArriveShape(x, env);
    }
  }

  lemma InstallTick(env: Env, n: nat, p: Profile, reverse: bool)
    ensures TickByTick(InstallStep(env, p, reverse), env, n)
  {
    forall x: Server, i: nat | |x.shards| == n && i < n
      ensures Answers(Install(x, env, Visit(n, i, reverse, x.listener.Some?), p), x, env)
    {
      ArriveShape(x, env);
    }
  }

  /** All of `n` calls from tick `c` on get through. */
  predicate AllOk(env: Env, c: nat, n: nat) {
    forall i: nat :: c <= i < c + n ==> env(i).ok
  }

  /** How many of `n` calls from tick `c` on get through before the first that does not. */
  function Until(env: Env, c: nat, n: nat): (k: nat)
    ensures k <= n && AllOk(env, c, k) && (k < n ==> !env(c + k).ok)
    decreases n
  {
    if n == 0 || !env(c).ok then 0 else 1 + Until(env, c + 1, n - 1)
  }

  /** A loop that goes on after a failure makes all its calls; one that stops makes them up to the first failure. */
  lemma {:induction false} LoopTicks(s: Server, k: nat, n: nat, step: (Server, nat) -> Reply, stop: bool, env: Env)
    requires k <= n == |s.shards| && TickByTick(step, env, n)
    ensures var r := Each(s, k, n, step, stop);
      && r.ok == AllOk(env, s.clock, n - k) && |r.server.shards| == n && r.server.failed == s.failed
      && r.server.clock == s.clock + if stop && !r.ok then Until(env, s.clock, n - k) + 1 else n - k
    decreases n - k
  {
    if k < n {
      var r := step(s, k);
      assert Answers(r, s, env);
      if r.ok || !stop {
        LoopTicks(r.server, k + 1, n, step, stop, env);
      }
      AllOkSplits(env, s.clock, n - k);
    }
  }

  lemma AllOkSplits(env: Env, c: nat, n: nat)
    requires 0 < n
    ensures AllOk(env, c, n) <==> env(c).ok && AllOk(env, c + 1, n - 1)
  {
  }

  lemma GateTicks(s: Server, env: Env, paused: bool)
    ensures var r, n := GateAll(s, env, paused), |s.shards|;
      && r.ok == AllOk(env, s.clock, n) && r.server.clock == s.clock + n && |r.server.shards| == n && r.server.failed == s.failed
  {
    GateTick(env, |s.shards|, paused);
    LoopTicks(s, 0, |s.shards|, GateStep(env, paused), false, env);
  }

  lemma CloseTicks(s: Server, env: Env, lo: nat, hi: nat)
    ensures var r, n := CloseAll(s, env, lo, hi), |s.shards|;
      && r.ok == AllOk(env, s.clock, n) && r.server.clock == s.clock + n && |r.server.shards| == n && r.server.failed == s.failed
  {
    CloseTick(env, |s.shards|, lo, hi);
    LoopTicks(s, 0, |s.shards|, CloseStep(env, lo, hi), false, env);
  }

  lemma InstallTicks(s: Server, env: Env, p: Profile, reverse: bool)
    ensures var r, n := InstallAll(s, env, p, reverse), |s.shards|;
      && r.ok == AllOk(env, s.clock, n) && |r.server.shards| == n && r.server.failed == s.failed
      && r.server.clock == s.clock + if r.ok then n else Until(env, s.clock, n) + 1
  {
    InstallTick(env, |s.shards|, p, reverse);
    LoopTicks(s, 0, |s.shards|, InstallStep(env, p, reverse), true, env);
  }

  // The fate of a rotation.

  datatype Fate = Fate(status: Status, latched: bool)

  /** Giving up at tick `c`: only the gates are left to reopen. */
  function AbandonFate(env: Env, c: nat, n: nat): Fate {
    Fate(Sys, !AllOk(env, c, n))
  }

  /** A failed installation: put the old profile back, reopen; latched if any of it fails. */
  function RollBackInstallFate(env: Env, c: nat, n: nat): Fate {
    Fate(Sys, !AllOk(env, c, n + n))
  }

  /** A failed reopening: close, purge, put back, reopen; latched if any of it fails. */
  function RollBackOpenFate(env: Env, c: nat, n: nat): Fate {
    if AllOk(env, c, n + n + n + n) then Fate(Sys, false) else Fate(State, true)
  }

  /** From the point where every shard holds the candidate: revoke if asked, reopen. */
  function PublishFate(env: Env, c: nat, n: nat, revoke: bool): Fate {
    var open := if revoke then c + n else c;
    if revoke && !AllOk(env, c, n) then Fate(State, true)
    else if AllOk(env, open, n) then Fate(Ok, false)
    else RollBackOpenFate(env, open + n, n)
  }

  /** What becomes of a rotation over `n` shards whose first call is numbered `c`: a function of the calls alone. */
  function FateOf(env: Env, c: nat, n: nat, revoke: bool): Fate {
    if !AllOk(env, c, n) then AbandonFate(env, c + n, n)
    else if !AllOk(env, c + n, n) then RollBackInstallFate(env, c + n + Until(env, c + n, n) + 1, n)
    else PublishFate(env, c + n + n, n, revoke)
  }

  /** It succeeds exactly when all calls of its way forward get through, and answers State only when latched. */
  lemma FateIsOk(env: Env, c: nat, n: nat, revoke: bool)
    ensures FateOf(env, c, n, revoke).status == Ok <==> AllOk(env, c, if revoke then n + n + n + n else n + n + n)
    ensures FateOf(env, c, n, revoke).status == State ==> FateOf(env, c, n, revoke).latched
  {
    AllOkJoins(env, c, n, n);
    AllOkJoins(env, c, n + n, n);
    AllOkJoins(env, c, n + n + n, n);
  }

  predicate Meets(r: Result, f: Fate) {
    r.status == f.status && r.server.failed == f.latched
  }

  lemma AllOkJoins(env: Env, c: nat, m: nat, n: nat)
    ensures AllOk(env, c, m + n) <==> AllOk(env, c, m) && AllOk(env, c + m, n)
  {
  }

  lemma RollBackInstallMeets(s: Server, env: Env, was: Profile, cand: Profile)
    requires !s.failed
    ensures Meets(RollBackInstall(s, env, was, cand), RollBackInstallFate(env, s.clock, |s.shards|))
  {
    var n := |s.shards|;
    InstallTicks(s, env, was, true);
    GateTicks(InstallAll(s, env, was, true).server, env, false);
    AllOkJoins(env, s.clock, n, n);
  }

  lemma RestoreMeets(s: Server, env: Env, was: Profile, cand: Profile)
    requires !s.failed
    ensures var n := |s.shards|; var r := Restore(s, env, was, cand);
      if AllOk(env, s.clock, n + n) then Meets(r, Fate(Sys, false)) else Meets(r, Fate(State, true))
  {
    var n := |s.shards|;
    InstallTicks(s, env, was, true);
    var back := InstallAll(s, env, was, true);
    GateTicks(Release(back.server.(profile := was, recovery := None), cand), env, false);
    AllOkJoins(env, s.clock, n, n);
  }

  lemma RollBackOpenMeets(s: Server, env: Env, was: Profile, cand: Profile)
    requires !s.failed
    ensures Meets(RollBackOpen(s, env, was, cand), RollBackOpenFate(env, s.clock, |s.shards|))
  {
    var n := |s.shards|;
    GateTicks(s, env, true);
    var shut := GateAll(s, env, true);
    CloseTicks(shut.server, env, cand.generation, cand.generation);
    var purged := CloseAll(shut.server, env, cand.generation, cand.generation);
    RestoreMeets(purged.server, env, was, cand);
    AllOkJoins(env, s.clock, n, n);
    AllOkJoins(env, s.clock, n + n, n + n);
  }

  lemma OpenMeets(s: Server, env: Env, was: Profile, cand: Profile)
    requires !s.failed
    ensures var n := |s.shards|; var reopened := GateAll(s, env, false);
      && (AllOk(env, s.clock, n) <==> reopened.ok) && !reopened.server.failed
      && (!reopened.ok ==> Meets(RollBackOpen(reopened.server, env, was, cand), RollBackOpenFate(env, s.clock + n, n)))
  {
    GateTicks(s, env, false);
    RollBackOpenMeets(GateAll(s, env, false).server, env, was, cand);
  }

  /** The fate of publishing, put together from its parts. */
  lemma PublishParts(env: Env, c: nat, n: nat, revoke: bool, revoked: bool, open: bool, done: Result, undone: Result, r: Result)
    requires revoked <==> !revoke || AllOk(env, c, n)
    requires revoked ==> (open <==> AllOk(env, if revoke then c + n else c, n))
    requires revoked && open ==> r == done && Meets(done, Fate(Ok, false))
    requires revoked && !open ==> r == undone && Meets(undone, RollBackOpenFate(env, (if revoke then c + n else c) + n, n))
    requires !revoked ==> Meets(r, Fate(State, true))
    ensures Meets(r, PublishFate(env, c, n, revoke))
  {
  }

  lemma PublishMeets(s: Server, env: Env, was: Profile, cand: Profile, revoke: bool)
    requires !s.failed && 0 < cand.generation
    ensures Meets(Publish(s, env, was, cand, revoke), PublishFate(env, s.clock, |s.shards|, revoke))
  {
    var t := s.(profile := cand, recovery := Some(was));
    CloseTicks(t, env, 1, cand.generation - 1);
    var revoked := if revoke then CloseAll(t, env, 1, cand.generation - 1) else Reply(t, true);
    OpenMeets(revoked.server, env, was, cand);
    var reopened := GateAll(revoked.server, env, false);
    PublishParts(env, s.clock, |s.shards|, revoke, revoked.ok, reopened.ok,
                 Result(Release(reopened.server.(recovery := None), was), Ok), RollBackOpen(reopened.server, env, was, cand),
                 Publish(s, env, was, cand, revoke));
  }

  /** Where a failed or complete installation leaves the rest of the fate. */
  lemma InstallDecides(env: Env, c: nat, n: nat, revoke: bool)
    requires AllOk(env, c, n)
    ensures FateOf(env, c, n, revoke) ==
      if AllOk(env, c + n, n) then PublishFate(env, c + n + n, n, revoke)
      else RollBackInstallFate(env, c + n + Until(env, c + n, n) + 1, n)
  {
  }

  lemma PutMeets(s: Server, env: Env, was: Profile, cand: Profile, revoke: bool, c: nat)
    requires var n := |s.shards|; AllOk(env, c, n) && AllOk(env, c + n, n) && s.clock == c + n + n
    requires !s.failed && 0 < cand.generation
    ensures Meets(Publish(s, env, was, cand, revoke), FateOf(env, c, |s.shards|, revoke))
  {
    InstallDecides(env, c, |s.shards|, revoke);
    PublishMeets(s, env, was, cand, revoke);
  }

  lemma BackMeets(s: Server, env: Env, was: Profile, cand: Profile, revoke: bool, c: nat)
    requires var n := |s.shards|;
      AllOk(env, c, n) && !AllOk(env, c + n, n) && s.clock == c + n + Until(env, c + n, n) + 1
    requires !s.failed
    ensures Meets(RollBackInstall(s, env, was, cand), FateOf(env, c, |s.shards|, revoke))
  {
    InstallDecides(env, c, |s.shards|, revoke);
    RollBackInstallMeets(s, env, was, cand);
  }

  lemma ReplaceMeets(s: Server, env: Env, was: Profile, cand: Profile, revoke: bool, f: Fate)
    requires 0 < cand.generation
    requires var put := InstallAll(s, env, cand, false);
      if put.ok then Meets(Publish(put.server, env, was, cand, revoke), f)
      else Meets(RollBackInstall(put.server, env, was, cand), f)
    ensures Meets(Replace(s, env, was, cand, revoke), f)
  {
  }

  predicate Refuses(s: Server, cand: Profile) {
    s.failed || !s.published || s.shards == [] || cand.generation == 0 || cand.generation >= TWO_64
  }

  /** A rotation is refused, without effect, exactly when failure is latched, the server is not published or has no
      shards, or there is no next generation. Otherwise its status and whether it latches are decided by which calls
      got through, whatever the connections did meanwhile. */
  lemma RotationMeetsItsFate(s: Server, env: Env, cand: Profile, revoke: bool)
    ensures var r := Rotate(s, env, cand, revoke);
      if Refuses(s, cand) then r == Result(s, State) else Meets(r, FateOf(env, s.clock, |s.shards|, revoke))
  {
    if !Refuses(s, cand) {
      var s0 := s.(refs := s.refs + multiset{cand});
      GateTicks(s0, env, true);
      var shut := GateAll(s0, env, true);
      if shut.ok {
        InstallTicks(shut.server, env, cand, false);
        var put := InstallAll(shut.server, env, cand, false);
        if put.ok {
          PutMeets(put.server, env, s.profile, cand, revoke, s.clock);
        } else {
          BackMeets(put.server, env, s.profile, cand, revoke, s.clock);
        }
        ReplaceMeets(shut.server, env, s.profile, cand, revoke, FateOf(env, s.clock, |s.shards|, revoke));
      } else {
        GateTicks(shut.server, env, false);
      }
    }
  }

  /** From a steady server a rotation succeeds if and only if every call of its way forward gets through: closing the
      gates, installing, under REVOKE_OLD closing the old connections, and reopening. Then the candidate is in force
      on every shard. */
  lemma RotationSucceedsExactly(s: Server, env: Env, cand: Profile, revoke: bool)
    requires Steady(s, s.profile) && 0 < s.profile.generation && cand.generation == s.profile.generation + 1 < TWO_64
    ensures var r, n := Rotate(s, env, cand, revoke), |s.shards|;
      && (r.status == Ok <==> AllOk(env, s.clock, if revoke then n + n + n + n else n + n + n))
      && (r.status == Ok ==> Steady(r.server, cand) && (revoke ==> Bounded(r.server, cand.generation, cand.generation)))
      && (r.status == State ==> r.server.failed)
  {
    RotationMeetsItsFate(s, env, cand, revoke);
    RotationIsAllOrNothing(s, env, cand, revoke);
    FateIsOk(env, s.clock, |s.shards|, revoke);
  }

  /** A shard admits exactly while its gate is open and its reactor runs; then the connection carries the shard's
      profile, or the listener's when it comes through the listener, and retains it. Nothing else changes. */
  lemma AdmissionIsGated(s: Server, i: nat, p: Profile)
    requires i < |s.shards|
    ensures var t := Accept(s, i, p);
      if s.shards[i].paused || !s.shards[i].running then t == s else
        && |t.shards| == |s.shards| && t.shards[i] == s.shards[i].(live := s.shards[i].live + [p])
        && (forall j :: 0 <= j < |s.shards| && j != i ==> t.shards[j] == s.shards[j])
        && t.refs == s.refs + multiset{p} && t.sessions == s.sessions && t.profile == s.profile
    ensures Happen(s, Adopt(i)) == Accept(s, i, s.shards[i].profile)
    ensures s.listener.Some? ==> Happen(s, Join) == Accept(s, 0, s.listener.value)
  {
  }

  /** `t` is `s` but for the connections of shard `i`, whether it runs, and references. */
  predicate OnlyShard(s: Server, t: Server, i: nat) {
    && |t.shards| == |s.shards| && t == s.(shards := t.shards, refs := t.refs, faulted := t.faulted)
    && forall j :: 0 <= j < |s.shards| && j != i ==> t.shards[j] == s.shards[j]
  }

  /** A closed connection is gone with its reference. */
  lemma DropIsExact(s: Server, i: nat, k: nat)
    requires i < |s.shards| && k < |s.shards[i].live|
    ensures var t, p := Happen(s, Drop(i, k)), s.shards[i].live[k];
      && OnlyShard(s, t, i) && t.refs == s.refs - multiset{p} && t.shards[i].running == s.shards[i].running
      && multiset(t.shards[i].live) == multiset(s.shards[i].live) - multiset{p}
  {
    var live := s.shards[i].live;
    assert live == live[..k] + [live[k]] + live[k + 1..];
  }

  /** A stopped reactor has no connection left and gives all of their references back; restarting brings none back. */
  lemma HaltIsExact(s: Server, i: nat)
    requires i < |s.shards|
    ensures var t := Happen(s, Halt(i));
      && OnlyShard(s, t, i) && t.refs == s.refs - multiset(s.shards[i].live)
      && t.shards[i].live == [] && !t.shards[i].running
    ensures var t := Happen(s, Restart(i));
      OnlyShard(s, t, i) && t.refs == s.refs && t.shards[i] == s.shards[i].(running := true)
  {
  }

  /** A control session retains the profile of its connection, and closing it gives that back. */
  lemma SessionsAreExact(s: Server, k: nat)
    ensures s.listener.Some? && s.shards != [] && k < |s.shards[0].live| ==>
      var t, p := Happen(s, OpenSession(k)), s.shards[0].live[k];
      t.sessions == s.sessions + [p] && t.refs == s.refs + multiset{p} && t.shards == s.shards
    ensures k < |s.sessions| ==>
      var t, p := Happen(s, CloseSession(k)), s.sessions[k];
      multiset(t.sessions) == multiset(s.sessions) - multiset{p} && t.refs == s.refs - multiset{p} && t.shards == s.shards
  {
    if k < |s.sessions| {
      assert s.sessions == s.sessions[..k] + [s.sessions[k]] + s.sessions[k + 1..];
    }
  }

  /** After a successful rotation every running shard admits again, and every new connection carries the candidate. */
  lemma AdmissionFollowsRotation(s: Server, env: Env, cand: Profile, revoke: bool, i: nat)
    requires Steady(s, s.profile) && 0 < s.profile.generation && cand.generation == s.profile.generation + 1 < TWO_64
    requires var r := Rotate(s, env, cand, revoke); r.status == Ok && i < |r.server.shards| && r.server.shards[i].running
    ensures var t := Rotate(s, env, cand, revoke).server;
      && Happen(t, Adopt(i)) == Accept(t, i, cand) && |Accept(t, i, cand).shards| == |t.shards|
      && Accept(t, i, cand).shards[i].live == t.shards[i].live + [cand]
      && (t.listener.Some? ==> t.listener == Some(cand))
  {
    RotationSucceedsExactly(s, env, cand, revoke);
    AdmissionIsGated(Rotate(s, env, cand, revoke).server, i, cand);
  }

  // What a rotation does to connections by itself.

  ghost predicate Quiet(env: Env) {
    forall c: nat :: env(c).happenings == []
  }

  predicate SameConnections(s: Server, t: Server) {
    |t.shards| == |s.shards| && forall i :: 0 <= i < |s.shards| ==> t.shards[i].live == s.shards[i].live
  }

  lemma QuietGate(s: Server, env: Env, paused: bool)
    requires Quiet(env)
    ensures SameConnections(s, GateAll(s, env, paused).server)
  {
    var any := (x: Server) => SameConnections(s, x);
    var step := GateStep(env, paused);
    forall x: Server, i: nat | i < |s.shards| && any(x)
      ensures any(step(x, i).server)
    {
    }
    EachKeeps(s, 0, |s.shards|, step, false, any, (x: Server, i: nat) => true);
  }

  lemma QuietInstallOne(s: Server, env: Env, i: nat, p: Profile)
    requires Quiet(env)
    ensures SameConnections(s, Install(s, env, i, p).server)
  {
    assert Arrive(s, env) == s.(clock := s.clock + 1);
  }

  lemma QuietInstall(s: Server, env: Env, p: Profile, reverse: bool)
    requires Quiet(env)
    ensures SameConnections(s, InstallAll(s, env, p, reverse).server)
  {
    var any := (x: Server) => SameConnections(s, x);
    var step := InstallStep(env, p, reverse);
    forall x: Server, i: nat | i < |s.shards| && any(x)
      ensures any(step(x, i).server)
    {
      QuietInstallOne(x, env, Visit(|x.shards|, i, reverse, x.listener.Some?), p);
    }
    EachKeeps(s, 0, |s.shards|, step, true, any, (x: Server, i: nat) => true);
  }

  /** A connection outside the range survives a purge, in its place. */
  lemma {:induction false} SurvivorsAreExact(live: seq<Profile>, lo: nat, hi: nat, p: Profile)
    ensures multiset(Chosen(live, lo, hi, false))[p] == if lo <= p.generation <= hi then 0 else multiset(live)[p]
    ensures NoneIn(live, lo, hi) ==> Chosen(live, lo, hi, false) == live
  {
    if live != [] {
      SurvivorsAreExact(live[1..], lo, hi, p);
      assert live == [live[0]] + live[1..];
    }
  }

  lemma QuietClose(s: Server, env: Env, lo: nat, hi: nat)
    requires Quiet(env) && NoneUpTo(s, |s.shards|, lo, hi)
    ensures SameConnections(s, CloseAll(s, env, lo, hi).server)
  {
    var any := (x: Server) => SameConnections(s, x);
    var step := CloseStep(env, lo, hi);
    forall x: Server, i: nat | i < |s.shards| && any(x)
      ensures any(step(x, i).server)
    {
      SurvivorsAreExact(s.shards[i].live, lo, hi, s.profile);
    }
    EachKeeps(s, 0, |s.shards|, step, false, any, (x: Server, i: nat) => true);
  }

  lemma QuietRollBackOpen(s: Server, env: Env, was: Profile, cand: Profile)
    requires Quiet(env) && NoneUpTo(s, |s.shards|, cand.generation, cand.generation)
    ensures SameConnections(s, RollBackOpen(s, env, was, cand).server)
  {
    QuietGate(s, env, true);
    var shut := GateAll(s, env, true);
    if shut.ok {
      SameNone(s, shut.server, cand.generation);
      QuietClose(shut.server, env, cand.generation, cand.generation);
      var purged := CloseAll(shut.server, env, cand.generation, cand.generation);
      QuietInstall(purged.server, env, was, true);
      var back := InstallAll(purged.server, env, was, true);
      QuietGate(Release(back.server.(profile := was, recovery := None), cand), env, false);
    }
  }

  lemma SameNone(s: Server, t: Server, g: nat)
    requires SameConnections(s, t) && NoneUpTo(s, |s.shards|, g, g)
    ensures NoneUpTo(t, |t.shards|, g, g)
  {
    forall i | 0 <= i < |t.shards|
      ensures NoneIn(t.shards[i].live, g, g)
    {
      assert t.shards[i].live == s.shards[i].live;
    }
  }

  lemma QuietPublish(s: Server, env: Env, was: Profile, cand: Profile)
    requires Quiet(env) && 0 < cand.generation && NoneUpTo(s, |s.shards|, cand.generation, cand.generation)
    ensures SameConnections(s, Publish(s, env, was, cand, false).server)
  {
    var t := s.(profile := cand, recovery := Some(was));
    QuietGate(t, env, false);
    var reopened := GateAll(t, env, false);
    SameNone(s, reopened.server, cand.generation);
    QuietRollBackOpen(reopened.server, env, was, cand);
  }

  /** A graceful rotation closes no connection, whatever calls fail. */
  lemma GracefulClosesNothing(s: Server, env: Env, cand: Profile)
    requires Quiet(env) && Steady(s, s.profile) && cand.generation == s.profile.generation + 1
    ensures SameConnections(s, Rotate(s, env, cand, false).server)
  {
    if !Refuses(s, cand) {
      var s0 := s.(refs := s.refs + multiset{cand});
      QuietGate(s0, env, true);
      var shut := GateAll(s0, env, true);
      if shut.ok {
        NoneYet(s, cand.generation);
        QuietInstall(shut.server, env, cand, false);
        var put := InstallAll(shut.server, env, cand, false);
        if put.ok {
          SameNone(s, put.server, cand.generation);
          QuietPublish(put.server, env, s.profile, cand);
        } else {
          QuietInstall(put.server, env, s.profile, true);
          QuietGate(InstallAll(put.server, env, s.profile, true).server, env, false);
        }
      } else {
        QuietGate(shut.server, env, false);
      }
    }
  }

  lemma NoneYet(s: Server, g: nat)
    requires 0 < g && Bounded(s, 1, g - 1)
    ensures NoneUpTo(s, |s.shards|, g, g)
  {
    forall i | 0 <= i < |s.shards|
      ensures NoneIn(s.shards[i].live, g, g)
    {
      assert ShardBounded(s.shards[i], 1, g - 1);
    }
  }
}
