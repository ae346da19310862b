/** Who holds references to TLS profiles. The server, its recovery field, every shard, every live TLS connection and
    every control session of the listener hold one each. The listener itself only borrows. */
module TlsReferences {
  import opened Status
  import opened TlsRotation

  function Holders(d: Shard): multiset<Profile> {
    multiset{d.profile} + multiset(d.live)
  }

  function ShardRefs(shards: seq<Shard>): multiset<Profile> {
    if shards == [] then multiset{}
    else ShardRefs(shards[..|shards| - 1]) + Holders(shards[|shards| - 1])
  }

  function Held(p: Option<Profile>): multiset<Profile> {
    if p.Some? then multiset{p.value} else multiset{}
  }

  /** The holders that are no shard and no connection; `extra` are references in the hands of the caller. */
  function Others(s: Server, extra: multiset<Profile>): multiset<Profile> {
    multiset(s.sessions) + multiset{s.profile} + Held(s.recovery) + extra
  }

  /** Every profile has exactly as many references as it has holders. */
  predicate Exact(s: Server, extra: multiset<Profile>) {
    s.refs == ShardRefs(s.shards) + Others(s, extra)
  }

  /** References are exact, the listener borrows what its shard holds, and no profile was used after its end. */
  predicate Sound(s: Server, extra: multiset<Profile>) {
    Exact(s, extra) && ListenerFollows(s) && !s.faulted
  }

  /** The listener's borrowed profile is alive: shard 0 holds a reference to it. */
  lemma ListenerIsBacked(s: Server, extra: multiset<Profile>)
    requires Sound(s, extra) && s.listener.Some?
    ensures s.refs[s.listener.value] > 0
  {
    HoldersCount(s, 0, extra);
  }

  // One shard changes.

  lemma {:induction false} SwapShard(shards: seq<Shard>, i: nat, d: Shard)
    requires i < |shards|
    ensures ShardRefs(shards[i := d]) + Holders(shards[i]) == ShardRefs(shards) + Holders(d)
  {
    var u, n := shards[i := d], |shards| - 1;
    if i == n {
      assert u[..n] == shards[..n];
      Exchange(ShardRefs(shards[..n]), Holders(d), Holders(shards[i]));
    } else {
      SwapShard(shards[..n], i, d);
      assert u[..n] == shards[..n][i := d];
      Carry(ShardRefs(u[..n]), Holders(shards[i]), ShardRefs(shards[..n]), Holders(d), Holders(shards[n]));
    }
  }

  lemma Exchange(a: multiset<Profile>, b: multiset<Profile>, c: multiset<Profile>)
    ensures a + b + c == a + c + b
  {
  }

  lemma Carry(a: multiset<Profile>, b: multiset<Profile>, c: multiset<Profile>, d: multiset<Profile>, e: multiset<Profile>)
    requires a + b == c + d
    ensures a + e + b == c + e + d
  {
    Exchange(a, e, b);
    Exchange(c, e, d);
  }

  lemma {:induction false} ShardCounts(shards: seq<Shard>, i: nat)
    requires i < |shards|
    ensures Holders(shards[i]) <= ShardRefs(shards)
  {
    if i < |shards| - 1 {
      ShardCounts(shards[..|shards| - 1], i);
    }
  }

  lemma HoldersCount(s: Server, i: nat, extra: multiset<Profile>)
    requires Exact(s, extra) && i < |s.shards|
    ensures Holders(s.shards[i]) <= s.refs
  {
    ShardCounts(s.shards, i);
  }

  lemma Balances(a: multiset<Profile>, b: multiset<Profile>, x: multiset<Profile>, y: multiset<Profile>, o: multiset<Profile>, r: multiset<Profile>)
    requires a + x == b + y && r + x == (b + o) + y
    ensures r == a + o
  {
    Exchange(b, o, y);
    Exchange(a, o, x);
    Cancels(r, a + o, x);
  }

  lemma Cancels(a: multiset<Profile>, b: multiset<Profile>, x: multiset<Profile>)
    requires a + x == b + x
    ensures a == b
  {
    assert a == (a + x) - x && b == (b + x) - x;
  }

  /** A shard may change if the references change with its holders. */
  lemma ShardChanges(s: Server, t: Server, i: nat, extra: multiset<Profile>)
    requires Exact(s, extra) && i < |s.shards| == |t.shards|
    requires t.shards == s.shards[i := t.shards[i]] && Others(t, extra) == Others(s, extra)
    requires t.refs + Holders(s.shards[i]) == s.refs + Holders(t.shards[i])
    ensures Exact(t, extra)
  {
    SwapShard(s.shards, i, t.shards[i]);
    Balances(ShardRefs(t.shards), ShardRefs(s.shards), Holders(s.shards[i]), Holders(t.shards[i]), Others(s, extra), t.refs);
  }

  lemma GainsOne(refs: multiset<Profile>, p: Profile, live: seq<Profile>, q: Profile)
    ensures (refs + multiset{q}) + (multiset{p} + multiset(live)) == refs + (multiset{p} + multiset(live + [q]))
  {
  }

  lemma LosesSome(refs: multiset<Profile>, p: Profile, live: seq<Profile>, left: seq<Profile>, gone: multiset<Profile>)
    requires multiset{p} + multiset(live) <= refs && multiset(live) == multiset(left) + gone
    ensures gone <= refs && (refs - gone) + (multiset{p} + multiset(live)) == refs + (multiset{p} + multiset(left))
  {
  }

  lemma Replaces(refs: multiset<Profile>, p: Profile, live: seq<Profile>, q: Profile)
    requires p in refs
    ensures (refs + multiset{q} - multiset{p}) + (multiset{p} + multiset(live)) == refs + (multiset{q} + multiset(live))
  {
  }

  lemma WithoutOne(xs: seq<Profile>, k: nat)
    requires k < |xs|
    ensures multiset(xs) == multiset(xs[..k] + xs[k + 1..]) + multiset{xs[k]}
  {
    assert xs == xs[..k] + [xs[k]] + xs[k + 1..];
  }

  // The environment.

  lemma AcceptIsSound(s: Server, i: nat, extra: multiset<Profile>)
    requires Sound(s, extra) && i < |s.shards|
    ensures Sound(Accept(s, i, s.shards[i].profile), extra)
  {
    var d := s.shards[i];
    if !d.paused && d.running {
      HoldersCount(s, i, extra);
      assert d.profile in Holders(d);
      GainsOne(s.refs, d.profile, d.live, d.profile);
      ShardChanges(s, Accept(s, i, d.profile), i, extra);
    }
  }

  lemma DisconnectIsSound(s: Server, i: nat, k: nat, extra: multiset<Profile>)
    requires Sound(s, extra)
    ensures Sound(Disconnect(s, i, k), extra)
  {
    if i < |s.shards| && k < |s.shards[i].live| {
      var d, t := s.shards[i], Disconnect(s, i, k);
      HoldersCount(s, i, extra);
      WithoutOne(d.live, k);
      LosesSome(s.refs, d.profile, d.live, t.shards[i].live, multiset{d.live[k]});
      ShardChanges(s, t, i, extra);
    }
  }

  lemma StopIsSound(s: Server, i: nat, extra: multiset<Profile>)
    requires Sound(s, extra)
    ensures Sound(Stop(s, i), extra)
  {
    if i < |s.shards| {
      var d := s.shards[i];
      HoldersCount(s, i, extra);
      LosesSome(s.refs, d.profile, d.live, [], multiset(d.live));
      ShardChanges(s, Stop(s, i), i, extra);
    }
  }

  lemma ReviveIsSound(s: Server, i: nat, extra: multiset<Profile>)
    requires Sound(s, extra)
    ensures Sound(Revive(s, i), extra)
  {
    if i < |s.shards| {
      ShardChanges(s, Revive(s, i), i, extra);
    }
  }

  lemma OpenSessionIsSound(s: Server, k: nat, extra: multiset<Profile>)
    requires Sound(s, extra)
    ensures Sound(Happen(s, OpenSession(k)), extra)
  {
    if s.listener.Some? && s.shards != [] && k < |s.shards[0].live| {
      var p := s.shards[0].live[k];
      HoldersCount(s, 0, extra);
      assert p in multiset(s.shards[0].live);
      OneMoreSession(ShardRefs(s.shards), s.sessions, p, multiset{s.profile}, Held(s.recovery), extra);
    }
  }

  lemma OneMoreSession(a: multiset<Profile>, xs: seq<Profile>, p: Profile,
                       b: multiset<Profile>, c: multiset<Profile>, d: multiset<Profile>)
    ensures a + (multiset(xs) + b + c + d) + multiset{p} == a + (multiset(xs + [p]) + b + c + d)
  {
  }

  lemma CloseSessionIsSound(s: Server, k: nat, extra: multiset<Profile>)
    requires Sound(s, extra)
    ensures Sound(Happen(s, CloseSession(k)), extra)
  {
    if k < |s.sessions| {
      WithoutOne(s.sessions, k);
    }
  }

  lemma HappenIsSound(s: Server, h: Happening, extra: multiset<Profile>)
    requires Sound(s, extra)
    ensures Sound(Happen(s, h), extra)
  {
    match h
    case Adopt(i) => if i < |s.shards| { AcceptIsSound(s, i, extra); }
    case Join => if s.listener.Some? { AcceptIsSound(s, 0, extra); }
    case Drop(i, k) => DisconnectIsSound(s, i, k, extra);
    case Halt(i) => StopIsSound(s, i, extra);
    case Restart(i) => ReviveIsSound(s, i, extra);
    case OpenSession(k) => OpenSessionIsSound(s, k, extra);
    case CloseSession(k) => CloseSessionIsSound(s, k, extra);
  }

  lemma {:induction false} HappenAllIsSound(s: Server, hs: seq<Happening>, extra: multiset<Profile>)
    requires Sound(s, extra)
    ensures Sound(HappenAll(s, hs), extra)
    decreases |hs|
  {
    if hs != [] {
      HappenIsSound(s, hs[0], extra);
      HappenAllIsSound(Happen(s, hs[0]), hs[1..], extra);
    }
  }

  lemma ArriveIsSound(s: Server, env: Env, extra: multiset<Profile>)
    requires Sound(s, extra)
    ensures Sound(Arrive(s, env), extra)
  {
    HappenAllIsSound(s, env(s.clock).happenings, extra);
  }

  // Calls into one shard.

  lemma GateIsSound(s: Server, env: Env, i: nat, paused: bool, extra: multiset<Profile>)
    requires Sound(s, extra)
    ensures Sound(Gate(s, env, i, paused).server, extra)
  {
    ArriveIsSound(s, env, extra);
    var t, r := Arrive(s, env), Gate(s, env, i, paused);
    if r.ok {
      ShardChanges(t, r.server, i, extra);
    }
  }

  lemma {:induction false} ChosenSplits(live: seq<Profile>, lo: nat, hi: nat)
    ensures multiset(live) == multiset(Chosen(live, lo, hi, false)) + multiset(Chosen(live, lo, hi, true))
  {
    if live != [] {
      ChosenSplits(live[1..], lo, hi);
      assert live == [live[0]] + live[1..];
    }
  }

  lemma PurgeIsSound(s: Server, i: nat, lo: nat, hi: nat, extra: multiset<Profile>)
    requires Sound(s, extra) && i < |s.shards|
    ensures Sound(Purge(s, i, lo, hi), extra)
  {
    var d := s.shards[i];
    HoldersCount(s, i, extra);
    ChosenSplits(d.live, lo, hi);
    LosesSome(s.refs, d.profile, d.live, Chosen(d.live, lo, hi, false), multiset(Chosen(d.live, lo, hi, true)));
    ShardChanges(s, Purge(s, i, lo, hi), i, extra);
  }

  lemma CloseIsSound(s: Server, env: Env, i: nat, lo: nat, hi: nat, extra: multiset<Profile>)
    requires Sound(s, extra)
    ensures Sound(Close(s, env, i, lo, hi).server, extra)
  {
    ArriveIsSound(s, env, extra);
    var t := Arrive(s, env);
    if i < |t.shards| {
      PurgeIsSound(t, i, lo, hi, extra);
    }
  }

  /** Some holder other than shards, connections and sessions keeps `p` alive. */
  predicate Kept(s: Server, p: Profile, extra: multiset<Profile>) {
    p == s.profile || s.recovery == Some(p) || p in extra
  }

  lemma KeptIsAlive(s: Server, p: Profile, extra: multiset<Profile>)
    requires Exact(s, extra) && Kept(s, p, extra)
    ensures p in s.refs
  {
    assert p in Others(s, extra);
  }

  lemma MoveShardRefs(s: Server, i: nat, p: Profile, extra: multiset<Profile>)
    requires i < |s.shards| && s.shards[i].profile in s.refs && p in s.refs
    ensures var t := MoveShard(s, i, p);
      && t.refs == s.refs + multiset{p} - multiset{s.shards[i].profile} && t.faulted == s.faulted
      && t.shards == s.shards[i := s.shards[i].(profile := p)] && Others(t, extra) == Others(s, extra)
      && (ListenerFollows(s) ==> ListenerFollows(t))
  {
  }

  lemma MoveShardIsSound(s: Server, i: nat, p: Profile, extra: multiset<Profile>)
    requires Sound(s, extra) && i < |s.shards| && p in s.refs
    ensures Sound(MoveShard(s, i, p), extra)
  {
    var d := s.shards[i];
    HoldersCount(s, i, extra);
    assert d.profile in Holders(d);
    MoveShardRefs(s, i, p, extra);
    Replaces(s.refs, d.profile, d.live, p);
    ShardChanges(s, MoveShard(s, i, p), i, extra);
  }

  lemma KeptArrives(s: Server, env: Env, p: Profile, extra: multiset<Profile>)
    requires Sound(s, extra) && Kept(s, p, extra)
    ensures var t := Arrive(s, env); Sound(t, extra) && p in t.refs && Kept(t, p, extra)
  {
    ArriveKeeps(s, env, 0, 0);
    ArriveIsSound(s, env, extra);
    KeptIsAlive(Arrive(s, env), p, extra);
  }

  lemma MovedOrNot(t: Server, u: Server, i: nat, p: Profile, extra: multiset<Profile>)
    requires Sound(t, extra) && Kept(t, p, extra) && p in t.refs
    requires u == t || (i < |t.shards| && u == MoveShard(t, i, p))
    ensures Sound(u, extra) && Kept(u, p, extra)
  {
    if u != t {
      MoveShardIsSound(t, i, p, extra);
    }
  }

  lemma InstallIsSound(s: Server, env: Env, i: nat, p: Profile, extra: multiset<Profile>)
    requires Sound(s, extra) && Kept(s, p, extra)
    ensures var t := Install(s, env, i, p).server; Sound(t, extra) && Kept(t, p, extra)
  {
    KeptArrives(s, env, p, extra);
    MovedOrNot(Arrive(s, env), Install(s, env, i, p).server, i, p, extra);
  }

  // The references of one profile that no shard holds.

  function Connections(shards: seq<Shard>): multiset<Profile> {
    if shards == [] then multiset{}
    else Connections(shards[..|shards| - 1]) + multiset(shards[|shards| - 1].live)
  }

  lemma {:induction false} OnlyConnectionsHold(shards: seq<Shard>, p: Profile)
    requires forall i :: 0 <= i < |shards| ==> shards[i].profile != p
    ensures ShardRefs(shards)[p] == Connections(shards)[p]
  {
    if shards != [] {
      OnlyConnectionsHold(shards[..|shards| - 1], p);
    }
  }

  lemma {:induction false} NoConnection(shards: seq<Shard>, p: Profile)
    requires forall i :: 0 <= i < |shards| ==> p !in shards[i].live
    ensures Connections(shards)[p] == 0
  {
    if shards != [] {
      NoConnection(shards[..|shards| - 1], p);
    }
  }
}
