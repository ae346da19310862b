/** TLS profile rotation over all shards (server.c, tr_server_tls_update_profile_impl). Every call into a
    shard may fail without effect, and before every call the environment may admit and drop
    connections and stop and restart reactors; both are given by an arbitrary `env`. */
module TlsRotation {
  import opened Status

  const TWO_64: nat := 0x1_0000_0000_0000_0000

  datatype Profile = Profile(id: nat, generation: nat)

  /** `live` are the profiles of the shard's active TLS connections. */
  datatype Shard = Shard(profile: Profile, paused: bool, running: bool, live: seq<Profile>)

  /** `listener` is the profile the connection-group listener on shard 0 borrows, and `sessions` are the profiles
      retained by its control sessions. `refs` counts the references to each profile, `faulted` records that
      a profile was retained or released after its last reference was gone, `clock` numbers the calls made. */
  datatype Server = Server(
    profile: Profile, recovery: Option<Profile>, listener: Option<Profile>, shards: seq<Shard>,
    sessions: seq<Profile>, failed: bool, published: bool, refs: multiset<Profile>, faulted: bool, clock: nat)

  datatype Happening =
    | Adopt(shard: nat) | Join | Drop(shard: nat, which: nat) | Halt(shard: nat) | Restart(shard: nat)
    | OpenSession(which: nat) | CloseSession(which: nat)

  /** What happens before a call, and whether the call gets through. */
  datatype Tick = Tick(happenings: seq<Happening>, ok: bool)

  type Env = nat -> Tick

  datatype Reply = Reply(server: Server, ok: bool)

  // References.

  // tr_tls_openssl_profile_retain
  function Retain(s: Server, p: Profile): Server {
    s.(refs := s.refs + multiset{p}, faulted := s.faulted || p !in s.refs)
  }

  /** tr_tls_openssl_profile_release, once per element of `ps`. */
  function ReleaseEach(s: Server, ps: multiset<Profile>): Server {
    s.(refs := s.refs - ps, faulted := s.faulted || !(ps <= s.refs))
  }

  function Release(s: Server, p: Profile): Server {
    ReleaseEach(s, multiset{p})
  }

  // The environment.

  /** tr_connection_adopt_tls_prepare: a TLS connection is admitted only while the gate is open, and retains
      its profile. */
  function Accept(s: Server, i: nat, p: Profile): Server {
    if i >= |s.shards| || s.shards[i].paused || !s.shards[i].running then s
    else Retain(s, p).(shards := s.shards[i := s.shards[i].(live := s.shards[i].live + [p])])
  }

  /** Closing one connection, or all of them when a reactor stops, releases what they retained. */
  function Disconnect(s: Server, i: nat, k: nat): Server {
    if i >= |s.shards| || k >= |s.shards[i].live| then s
    else
      var live := s.shards[i].live;
      Release(s, live[k]).(shards := s.shards[i := s.shards[i].(live := live[..k] + live[k + 1..])])
  }

  function Stop(s: Server, i: nat): Server {
    if i >= |s.shards| then s
    else ReleaseEach(s, multiset(s.shards[i].live)).(shards := s.shards[i := s.shards[i].(running := false, live := [])])
  }

  function Revive(s: Server, i: nat): Server {
    if i >= |s.shards| then s else s.(shards := s.shards[i := s.shards[i].(running := true)])
  }

  function Happen(s: Server, h: Happening): Server {
    match h
    case Adopt(i) => if i < |s.shards| then Accept(s, i, s.shards[i].profile) else s
    case Join => if s.listener.Some? then Accept(s, 0, s.listener.value) else s
    case Drop(i, k) => Disconnect(s, i, k)
    case Halt(i) => Stop(s, i)
    case Restart(i) => Revive(s, i)
    case OpenSession(k) =>
      if s.listener.None? || s.shards == [] || k >= |s.shards[0].live| then s
      else Retain(s, s.shards[0].live[k]).(sessions := s.sessions + [s.shards[0].live[k]])
    case CloseSession(k) =>
      if k >= |s.sessions| then s
      else Release(s, s.sessions[k]).(sessions := s.sessions[..k] + s.sessions[k + 1..])
  }

  function HappenAll(s: Server, hs: seq<Happening>): Server
    decreases |hs|
  {
    if hs == [] then s else HappenAll(Happen(s, hs[0]), hs[1..])
  }

  /** The state a call finds. */
  function Arrive(s: Server, env: Env): Server {
    HappenAll(s, env(s.clock).happenings).(clock := s.clock + 1)
  }

  // Calls into one shard.

  // tr_reactor_tls_admission_set
  function Gate(s: Server, env: Env, i: nat, paused: bool): Reply {
    var t := Arrive(s, env);
    if !env(s.clock).ok || i >= |t.shards| then Reply(t, false)
    else Reply(t.(shards := t.shards[i := t.shards[i].(paused := paused)]), true)
  }

  /** The connections whose generation lies in [lo, hi], or the others. */
  function Chosen(live: seq<Profile>, lo: nat, hi: nat, inside: bool): seq<Profile> {
    if live == [] then []
    else if (lo <= live[0].generation <= hi) == inside then [live[0]] + Chosen(live[1..], lo, hi, inside)
    else Chosen(live[1..], lo, hi, inside)
  }

  /** Close the connections of shard `i` whose generation lies in [lo, hi]. */
  function Purge(s: Server, i: nat, lo: nat, hi: nat): Server
    requires i < |s.shards|
  {
    var live := s.shards[i].live;
    ReleaseEach(s, multiset(Chosen(live, lo, hi, true)))
    .(shards := s.shards[i := s.shards[i].(live := Chosen(live, lo, hi, false))])
  }

  // tr_reactor_tls_close_generation, tr_reactor_tls_close_before_generation
  function Close(s: Server, env: Env, i: nat, lo: nat, hi: nat): Reply {
    var t := Arrive(s, env);
    if !env(s.clock).ok || i >= |t.shards| then Reply(t, false) else Reply(Purge(t, i, lo, hi), true)
  }

  /** tr_pipeline_listener_set_tls_profile_on_owner: the listener on shard 0 borrows the pointer. */
  function MoveListener(s: Server, i: nat, p: Profile): Server {
    if i == 0 && s.listener.Some? then s.(listener := Some(p)) else s
  }

  /** The shard's own reference moves from its old profile to `p`. */
  function MoveShard(s: Server, i: nat, p: Profile): Server
    requires i < |s.shards|
  {
    var t := MoveListener(Retain(s, p), i, p);
    Release(t.(shards := t.shards[i := t.shards[i].(profile := p)]), s.shards[i].profile)
  }

  // tr_server_tls_install_on_owner
  function Install(s: Server, env: Env, i: nat, p: Profile): Reply {
    var t := Arrive(s, env);
    if !env(s.clock).ok || i >= |t.shards| then Reply(t, false)
    else if t.shards[i].profile == p then Reply(t, true)
    else Reply(MoveShard(t, i, p), true)
  }

  // Loops over all shards.

  /** Call `step` for k, ..., n - 1, stopping at the first failure if `stop` is set. */
  function Each(s: Server, k: nat, n: nat, step: (Server, nat) -> Reply, stop: bool): Reply
    decreases n - k
  {
    if k >= n then Reply(s, true) else
      var r := step(s, k);
      if !r.ok && stop then r else
        var rest := Each(r.server, k + 1, n, step, stop);
        Reply(rest.server, r.ok && rest.ok)
  }

  function GateStep(env: Env, paused: bool): (Server, nat) -> Reply {
    (x: Server, i: nat) => Gate(x, env, i, paused)
  }

  function CloseStep(env: Env, lo: nat, hi: nat): (Server, nat) -> Reply {
    (x: Server, i: nat) => Close(x, env, i, lo, hi)
  }

  // tr_server_tls_gate_all
  function GateAll(s: Server, env: Env, paused: bool): Reply {
    Each(s, 0, |s.shards|, GateStep(env, paused), false)
  }

  // tr_server_tls_close_generation_all, tr_server_tls_close_before_generation_all
  function CloseAll(s: Server, env: Env, lo: nat, hi: nat): Reply {
    Each(s, 0, |s.shards|, CloseStep(env, lo, hi), false)
  }

  /** The shard visited at step `k` of an installation: backwards on rollback, and with the listener's shard
      last on the way forward. */
  function Visit(n: nat, k: nat, reverse: bool, listener: bool): nat {
    if reverse then (if k < n then n - k - 1 else 0)
    else if listener && n > 1 then (if k + 1 < n then k + 1 else 0)
    else k
  }

  function InstallStep(env: Env, p: Profile, reverse: bool): (Server, nat) -> Reply {
    (x: Server, k: nat) => Install(x, env, Visit(|x.shards|, k, reverse, x.listener.Some?), p)
  }

  // tr_server_tls_install_all
  function InstallAll(s: Server, env: Env, p: Profile, reverse: bool): Reply {
    Each(s, 0, |s.shards|, InstallStep(env, p, reverse), true)
  }

  function MarkFailed(s: Server): Server {
    s.(failed := true, published := false)
  }

  datatype Result = Result(server: Server, status: Status)

  function GiveUp(s: Server, latch: bool, cand: Profile): Result {
    Result(Release(if latch then MarkFailed(s) else s, cand), Sys)
  }

  /** After a failed installation: put the old profile back, then reopen. */
  function RollBackInstall(s: Server, env: Env, was: Profile, cand: Profile): Result {
    var back := InstallAll(s, env, was, true);
    if !back.ok then GiveUp(back.server, true, cand)
    else
      var reopened := GateAll(back.server, env, false);
      GiveUp(reopened.server, !reopened.ok, cand)
  }

  /** Put the old profile back and reopen. */
  function Restore(s: Server, env: Env, was: Profile, cand: Profile): Result {
    var back := InstallAll(s, env, was, true);
    if !back.ok then Result(MarkFailed(back.server), State) else
      var restored := Release(back.server.(profile := was, recovery := None), cand);
      var reopened := GateAll(restored, env, false);
      if !reopened.ok then Result(MarkFailed(reopened.server), State) else Result(reopened.server, Sys)
  }

  /** After a failed reopening: close again, drop the candidate's connections, then restore. */
  function RollBackOpen(s: Server, env: Env, was: Profile, cand: Profile): Result {
    var shut := GateAll(s, env, true);
    if !shut.ok then Result(MarkFailed(shut.server), State) else
      var purged := CloseAll(shut.server, env, cand.generation, cand.generation);
      if !purged.ok then Result(MarkFailed(purged.server), State) else Restore(purged.server, env, was, cand)
  }

  /** From the point where every shard holds the candidate. */
  function Publish(s: Server, env: Env, was: Profile, cand: Profile, revoke: bool): Result
    requires 0 < cand.generation
  {
    var t := s.(profile := cand, recovery := Some(was));
    var revoked := if revoke then CloseAll(t, env, 1, cand.generation - 1) else Reply(t, true);
    if !revoked.ok then Result(MarkFailed(revoked.server), State) else
      var reopened := GateAll(revoked.server, env, false);
      if reopened.ok then Result(Release(reopened.server.(recovery := None), was), Ok)
      else RollBackOpen(reopened.server, env, was, cand)
  }

  /** From the point where every gate is closed. */
  function Replace(s: Server, env: Env, was: Profile, cand: Profile, revoke: bool): Result
    requires 0 < cand.generation
  {
    var put := InstallAll(s, env, cand, false);
    if !put.ok then RollBackInstall(put.server, env, was, cand)
    else Publish(put.server, env, was, cand, revoke)
  }

  /** tr_server_tls_update_profile_impl once the candidate exists, held by its creator. */
  function Rotate(s: Server, env: Env, cand: Profile, revoke: bool): Result {
    if s.failed || !s.published || |s.shards| == 0 || !(0 < cand.generation < TWO_64) then Result(s, State) else
      var s0 := s.(refs := s.refs + multiset{cand});
      var shut := GateAll(s0, env, true);
      if !shut.ok then
        var reopened := GateAll(shut.server, env, false);
        GiveUp(reopened.server, !reopened.ok, cand)
      else Replace(shut.server, env, s.profile, cand, revoke)
  }

  // What the environment keeps.

  /** The profiles and gates of `t` are those of `s`; only connections and sessions came and went. */
  predicate OnlyConnections(s: Server, t: Server) {
    && t.profile == s.profile && t.recovery == s.recovery && t.failed == s.failed && t.published == s.published
    && t.listener == s.listener && |t.shards| == |s.shards|
    && forall i :: 0 <= i < |s.shards| ==>
         t.shards[i].profile == s.shards[i].profile && t.shards[i].paused == s.shards[i].paused
  }

  /** Live generations lie in [lo, hi], and so does whatever an open gate can admit. */
  predicate ShardBounded(d: Shard, lo: nat, hi: nat) {
    && (forall k :: 0 <= k < |d.live| ==> lo <= d.live[k].generation <= hi)
    && (!d.paused ==> lo <= d.profile.generation <= hi)
  }

  predicate Bounded(s: Server, lo: nat, hi: nat) {
    forall i :: 0 <= i < |s.shards| ==> ShardBounded(s.shards[i], lo, hi)
  }

  predicate AllPaused(s: Server, paused: bool) {
    forall i :: 0 <= i < |s.shards| ==> s.shards[i].paused == paused
  }

  predicate AllHold(s: Server, p: Profile) {
    forall i :: 0 <= i < |s.shards| ==> s.shards[i].profile == p
  }

  /** On a closed shard connections only go away. */
  predicate Shrinks(a: Shard, b: Shard) {
    a.paused ==> forall k :: 0 <= k < |b.live| ==> b.live[k] in a.live
  }

  predicate AllShrink(s: Server, t: Server) {
    |t.shards| == |s.shards| && forall i :: 0 <= i < |s.shards| ==> Shrinks(s.shards[i], t.shards[i])
  }

  /** The listener borrows the profile that shard 0 holds. */
  predicate ListenerFollows(s: Server) {
    s.listener.Some? ==> s.shards != [] && s.listener == Some(s.shards[0].profile)
  }

  lemma AcceptKeeps(s: Server, i: nat, lo: nat, hi: nat)
    requires i < |s.shards|
    ensures var t := Accept(s, i, s.shards[i].profile);
      OnlyConnections(s, t) && AllShrink(s, t) && (Bounded(s, lo, hi) ==> Bounded(t, lo, hi))
  {
  }

  lemma DisconnectKeeps(s: Server, i: nat, k: nat, lo: nat, hi: nat)
    ensures var t := Disconnect(s, i, k);
      OnlyConnections(s, t) && AllShrink(s, t) && (Bounded(s, lo, hi) ==> Bounded(t, lo, hi))
  {
    if i < |s.shards| && k < |s.shards[i].live| {
      var a, b := s.shards[i], Disconnect(s, i, k).shards[i];
      assert forall j :: 0 <= j < |b.live| ==> b.live[j] == a.live[if j < k then j else j + 1];
    }
  }

  lemma StopKeeps(s: Server, i: nat, lo: nat, hi: nat)
    ensures var t := Stop(s, i);
      OnlyConnections(s, t) && AllShrink(s, t) && (Bounded(s, lo, hi) ==> Bounded(t, lo, hi))
  {
  }

  lemma ReviveKeeps(s: Server, i: nat, lo: nat, hi: nat)
    ensures var t := Revive(s, i);
      OnlyConnections(s, t) && AllShrink(s, t) && (Bounded(s, lo, hi) ==> Bounded(t, lo, hi))
  {
  }

  lemma HappenKeeps(s: Server, h: Happening, lo: nat, hi: nat)
    requires ListenerFollows(s)
    ensures var t := Happen(s, h);
      OnlyConnections(s, t) && AllShrink(s, t) && (Bounded(s, lo, hi) ==> Bounded(t, lo, hi))
  {
    match h
    case Adopt(i) => if i < |s.shards| { AcceptKeeps(s, i, lo, hi); }
    case Join => if s.listener.Some? { AcceptKeeps(s, 0, lo, hi); }
    case Drop(i, k) => DisconnectKeeps(s, i, k, lo, hi);
    case Halt(i) => StopKeeps(s, i, lo, hi);
    case Restart(i) => ReviveKeeps(s, i, lo, hi);
    case OpenSession(k) =>
    case CloseSession(k) =>
  }

  lemma {:induction false} HappenAllKeeps(s: Server, hs: seq<Happening>, lo: nat, hi: nat)
    requires ListenerFollows(s)
    ensures var t := HappenAll(s, hs);
      OnlyConnections(s, t) && AllShrink(s, t) && (Bounded(s, lo, hi) ==> Bounded(t, lo, hi))
    decreases |hs|
  {
    if hs != [] {
      var u := Happen(s, hs[0]);
      HappenKeeps(s, hs[0], lo, hi);
      HappenAllKeeps(u, hs[1..], lo, hi);
      ShrinkOnward(s, u, HappenAll(u, hs[1..]));
    }
  }

  lemma ShrinkOnward(s: Server, u: Server, t: Server)
    requires OnlyConnections(s, u) && AllShrink(s, u) && AllShrink(u, t)
    ensures AllShrink(s, t)
  {
    forall i | 0 <= i < |s.shards|
      ensures Shrinks(s.shards[i], t.shards[i])
    {
      assert Shrinks(s.shards[i], u.shards[i]) && Shrinks(u.shards[i], t.shards[i]);
    }
  }

  lemma ArriveKeeps(s: Server, env: Env, lo: nat, hi: nat)
    requires ListenerFollows(s)
    ensures var t := Arrive(s, env);
      OnlyConnections(s, t) && AllShrink(s, t) && (Bounded(s, lo, hi) ==> Bounded(t, lo, hi))
  {
    HappenAllKeeps(s, env(s.clock).happenings, lo, hi);
  }
}
