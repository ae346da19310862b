/** What TLS rotation guarantees, whatever calls fail and whatever connections come and go: unless failure is
    latched, the rotation happens on all shards or on none. */
module TlsSafety {
  import opened Status
  import opened TlsRotation
  import opened TlsReferences

  /** Everything but gates, connections, sessions and the clock. */
  predicate SameProfiles(s: Server, t: Server) {
    && SameServer(s, t) && t.listener == s.listener
    && forall i :: 0 <= i < |s.shards| ==> t.shards[i].profile == s.shards[i].profile
  }

  predicate GenerationsIn(s: Server, lo: nat, hi: nat) {
    forall i :: 0 <= i < |s.shards| ==> lo <= s.shards[i].profile.generation <= hi
  }

  predicate PausedUpTo(s: Server, n: nat, paused: bool) {
    n <= |s.shards| && forall i :: 0 <= i < n ==> s.shards[i].paused == paused
  }

  /** The loop rule: `any` holds throughout, and `good` measures progress until a call fails. */
  lemma {:induction false} EachKeeps(s: Server, k: nat, n: nat, step: (Server, nat) -> Reply, stop: bool,
                                     any: Server -> bool, good: (Server, nat) -> bool)
    requires k <= n && any(s)
    requires forall x: Server, i: nat :: k <= i < n && any(x) ==>
      any(step(x, i).server) && (good(x, i) && step(x, i).ok ==> good(step(x, i).server, i + 1))
    ensures var r := Each(s, k, n, step, stop); any(r.server) && (good(s, k) && r.ok ==> good(r.server, n))
    decreases n - k
  {
    if k < n {
      var r := step(s, k);
      if r.ok || !stop {
        EachKeeps(r.server, k + 1, n, step, stop, any, good);
      }
    }
  }

  // Gates.

  lemma GateKeeps(s: Server, env: Env, i: nat, paused: bool, lo: nat, hi: nat)
    requires i < |s.shards| && ListenerFollows(s)
    ensures var r := Gate(s, env, i, paused);
      && SameProfiles(s, r.server) && ListenerFollows(r.server)
      && (PausedUpTo(s, i, paused) && r.ok ==> PausedUpTo(r.server, i + 1, paused))
      && (Bounded(s, lo, hi) && (paused || GenerationsIn(s, lo, hi)) ==> Bounded(r.server, lo, hi))
  {
    ArriveKeeps(s, env, lo, hi);
    GateSetKeeps(Arrive(s, env), i, paused, lo, hi);
  }

  lemma GateSetKeeps(s: Server, i: nat, paused: bool, lo: nat, hi: nat)
    requires i < |s.shards|
    ensures var t := s.(shards := s.shards[i := s.shards[i].(paused := paused)]);
      && SameProfiles(s, t) && (ListenerFollows(s) ==> ListenerFollows(t))
      && (PausedUpTo(s, i, paused) ==> PausedUpTo(t, i + 1, paused))
      && (Bounded(s, lo, hi) && (paused || GenerationsIn(s, lo, hi)) ==> Bounded(t, lo, hi))
  {
  }

  lemma GateAllIsSound(s: Server, env: Env, paused: bool, extra: multiset<Profile>)
    requires Sound(s, extra)
    ensures Sound(GateAll(s, env, paused).server, extra)
  {
    var step := GateStep(env, paused);
    forall x: Server, i: nat | Sound(x, extra)
      ensures Sound(step(x, i).server, extra)
    {
      GateIsSound(x, env, i, paused, extra);
    }
    EachKeeps(s, 0, |s.shards|, step, false, (x: Server) => Sound(x, extra), (x: Server, i: nat) => true);
  }

  lemma GateAllKeeps(s: Server, env: Env, paused: bool, lo: nat, hi: nat)
    requires ListenerFollows(s)
    ensures var r := GateAll(s, env, paused);
      && SameProfiles(s, r.server)
      && (r.ok ==> AllPaused(r.server, paused))
      && (Bounded(s, lo, hi) && (paused || GenerationsIn(s, lo, hi)) ==> Bounded(r.server, lo, hi))
  {
    var kept := Bounded(s, lo, hi) && (paused || GenerationsIn(s, lo, hi));
    var any := (x: Server) => GateRunning(s, x, kept, lo, hi);
    var good := (x: Server, i: nat) => PausedUpTo(x, i, paused);
    var step := GateStep(env, paused);
    forall x: Server, i: nat | i < |s.shards| && any(x)
      ensures any(step(x, i).server) && (good(x, i) && step(x, i).ok ==> good(step(x, i).server, i + 1))
    {
      GateRuns(s, x, env, i, paused, lo, hi);
    }
    EachKeeps(s, 0, |s.shards|, step, false, any, good);
  }

  /** The loop over the gates of `s` has come to `x`. */
  predicate GateRunning(s: Server, x: Server, kept: bool, lo: nat, hi: nat) {
    SameProfiles(s, x) && ListenerFollows(x) && (kept ==> Bounded(x, lo, hi))
  }

  lemma GateRuns(s: Server, x: Server, env: Env, i: nat, paused: bool, lo: nat, hi: nat)
    requires i < |s.shards|
    requires GateRunning(s, x, Bounded(s, lo, hi) && (paused || GenerationsIn(s, lo, hi)), lo, hi)
    ensures var r := Gate(x, env, i, paused);
      && GateRunning(s, r.server, Bounded(s, lo, hi) && (paused || GenerationsIn(s, lo, hi)), lo, hi)
      && (PausedUpTo(x, i, paused) && r.ok ==> PausedUpTo(r.server, i + 1, paused))
  {
    GateKeeps(x, env, i, paused, lo, hi);
  }

  // Closing connections by generation, behind closed gates.

  predicate NoneIn(live: seq<Profile>, lo: nat, hi: nat) {
    forall k :: 0 <= k < |live| ==> !(lo <= live[k].generation <= hi)
  }

  lemma {:induction false} SurvivorsAre(live: seq<Profile>, lo: nat, hi: nat)
    ensures var left := Chosen(live, lo, hi, false);
      NoneIn(left, lo, hi) && forall k :: 0 <= k < |left| ==> left[k] in live
  {
    if live != [] {
      SurvivorsAre(live[1..], lo, hi);
    }
  }

  predicate NoneUpTo(s: Server, n: nat, lo: nat, hi: nat) {
    n <= |s.shards| && forall i :: 0 <= i < n ==> NoneIn(s.shards[i].live, lo, hi)
  }

  lemma ShrinkKeepsNone(a: Shard, b: Shard, lo: nat, hi: nat)
    requires a.paused && Shrinks(a, b) && NoneIn(a.live, lo, hi)
    ensures NoneIn(b.live, lo, hi)
  {
  }

  lemma CloseKeeps(s: Server, env: Env, i: nat, lo: nat, hi: nat, blo: nat, bhi: nat)
    requires i < |s.shards| && AllPaused(s, true) && ListenerFollows(s)
    ensures var r := Close(s, env, i, lo, hi);
      && SameProfiles(s, r.server) && AllPaused(r.server, true)
      && (NoneUpTo(s, i, lo, hi) && r.ok ==> NoneUpTo(r.server, i + 1, lo, hi))
      && (Bounded(s, blo, bhi) ==> Bounded(r.server, blo, bhi))
  {
    ArriveKeeps(s, env, blo, bhi);
    var t := Arrive(s, env);
    var r := Close(s, env, i, lo, hi);
    SurvivorsAre(t.shards[i].live, lo, hi);
    if NoneUpTo(s, i, lo, hi) && r.ok {
      forall j | 0 <= j < i + 1
        ensures NoneIn(r.server.shards[j].live, lo, hi)
      {
        if j < i {
          ShrinkKeepsNone(s.shards[j], t.shards[j], lo, hi);
        }
      }
    }
  }

  lemma CloseAllIsSound(s: Server, env: Env, lo: nat, hi: nat, extra: multiset<Profile>)
    requires Sound(s, extra)
    ensures Sound(CloseAll(s, env, lo, hi).server, extra)
  {
    var step := CloseStep(env, lo, hi);
    forall x: Server, i: nat | Sound(x, extra)
      ensures Sound(step(x, i).server, extra)
    {
      CloseIsSound(x, env, i, lo, hi, extra);
    }
    EachKeeps(s, 0, |s.shards|, step, false, (x: Server) => Sound(x, extra), (x: Server, i: nat) => true);
  }

  lemma CloseAllKeeps(s: Server, env: Env, lo: nat, hi: nat, blo: nat, bhi: nat)
    requires AllPaused(s, true) && ListenerFollows(s)
    ensures var r := CloseAll(s, env, lo, hi);
      && SameProfiles(s, r.server) && AllPaused(r.server, true)
      && (r.ok ==> NoneUpTo(r.server, |r.server.shards|, lo, hi))
      && (Bounded(s, blo, bhi) ==> Bounded(r.server, blo, bhi))
  {
    var kept := Bounded(s, blo, bhi);
    var any := (x: Server) => SameProfiles(s, x) && AllPaused(x, true) && (kept ==> Bounded(x, blo, bhi));
    var good := (x: Server, i: nat) => NoneUpTo(x, i, lo, hi);
    var step := CloseStep(env, lo, hi);
    forall x: Server, i: nat | i < |s.shards| && any(x)
      ensures any(step(x, i).server) && (good(x, i) && step(x, i).ok ==> good(step(x, i).server, i + 1))
    {
      CloseKeeps(x, env, i, lo, hi, blo, bhi);
    }
    EachKeeps(s, 0, |s.shards|, step, false, any, good);
  }

  // Installing a profile, behind closed gates.

  /** The step at which shard `i` is visited. */
  function StepOf(n: nat, i: nat, reverse: bool, listener: bool): (k: nat)
    requires i < n
    ensures k < n && Visit(n, k, reverse, listener) == i
  {
    if reverse then n - i - 1
    else if listener && n > 1 then if i == 0 then n - 1 else i - 1
    else i
  }

  predicate Holds(s: Server, i: nat, p: Profile) {
    i < |s.shards| && s.shards[i].profile == p
  }

  predicate HoldUpTo(s: Server, k: nat, p: Profile, reverse: bool) {
    && k <= |s.shards|
    && forall j :: 0 <= j < k ==> Holds(s, Visit(|s.shards|, j, reverse, s.listener.Some?), p)
  }

  /** Everything but profiles of shards and listener, references, connections and the clock. */
  predicate SameServer(s: Server, t: Server) {
    && t.profile == s.profile && t.recovery == s.recovery && t.failed == s.failed && t.published == s.published
    && |t.shards| == |s.shards| && t.listener.Some? == s.listener.Some?
  }

  lemma MoveShardKeeps(s: Server, i: nat, p: Profile, lo: nat, hi: nat)
    requires i < |s.shards| && AllPaused(s, true)
    ensures var t := MoveShard(s, i, p);
      && SameServer(s, t) && AllPaused(t, true) && (Bounded(s, lo, hi) ==> Bounded(t, lo, hi))
      && (forall j :: 0 <= j < |s.shards| && j != i ==> t.shards[j].profile == s.shards[j].profile)
      && t.shards[i].profile == p && (ListenerFollows(s) ==> ListenerFollows(t))
  {
  }

  lemma InstallKeeps(s: Server, env: Env, i: nat, p: Profile, lo: nat, hi: nat)
    requires i < |s.shards| && AllPaused(s, true) && ListenerFollows(s)
    ensures var r := Install(s, env, i, p);
      && SameServer(s, r.server) && AllPaused(r.server, true)
      && (forall j :: 0 <= j < |s.shards| && j != i ==> r.server.shards[j].profile == s.shards[j].profile)
      && (r.ok ==> r.server.shards[i].profile == p) && ListenerFollows(r.server)
      && (Bounded(s, lo, hi) ==> Bounded(r.server, lo, hi))
  {
    ArriveKeeps(s, env, lo, hi);
    MoveShardKeeps(Arrive(s, env), i, p, lo, hi);
  }

  lemma VisitIsOneToOne(n: nat, a: nat, b: nat, reverse: bool, listener: bool)
    requires a < b < n
    ensures Visit(n, a, reverse, listener) != Visit(n, b, reverse, listener)
  {
  }

  lemma HoldOneMore(s: Server, t: Server, k: nat, p: Profile, reverse: bool)
    requires HoldUpTo(s, k, p, reverse) && k < |s.shards| == |t.shards| && t.listener.Some? == s.listener.Some?
    requires var i := Visit(|s.shards|, k, reverse, s.listener.Some?);
      Holds(t, i, p) && forall j :: 0 <= j < |s.shards| && j != i ==> t.shards[j].profile == s.shards[j].profile
    ensures HoldUpTo(t, k + 1, p, reverse)
  {
    forall j | 0 <= j < k + 1
      ensures Holds(t, Visit(|s.shards|, j, reverse, t.listener.Some?), p)
    {
      if j < k {
        VisitIsOneToOne(|s.shards|, j, k, reverse, s.listener.Some?);
      }
    }
  }

  lemma InstallStepKeeps(s: Server, env: Env, k: nat, p: Profile, reverse: bool, lo: nat, hi: nat)
    requires k < |s.shards| && AllPaused(s, true) && ListenerFollows(s)
    ensures var r := Install(s, env, Visit(|s.shards|, k, reverse, s.listener.Some?), p);
      && SameServer(s, r.server) && AllPaused(r.server, true) && (Bounded(s, lo, hi) ==> Bounded(r.server, lo, hi))
      && ListenerFollows(r.server) && (HoldUpTo(s, k, p, reverse) && r.ok ==> HoldUpTo(r.server, k + 1, p, reverse))
  {
    var i := Visit(|s.shards|, k, reverse, s.listener.Some?);
    InstallKeeps(s, env, i, p, lo, hi);
    if HoldUpTo(s, k, p, reverse) && Install(s, env, i, p).ok {
      HoldOneMore(s, Install(s, env, i, p).server, k, p, reverse);
    }
  }

  /** A profile that is kept alive throughout may be installed shard by shard. */
  lemma InstallAllIsSound(s: Server, env: Env, p: Profile, reverse: bool, extra: multiset<Profile>)
    requires Sound(s, extra) && Kept(s, p, extra)
    ensures Sound(InstallAll(s, env, p, reverse).server, extra)
  {
    var step := InstallStep(env, p, reverse);
    forall x: Server, i: nat | Sound(x, extra) && Kept(x, p, extra)
      ensures Sound(step(x, i).server, extra) && Kept(step(x, i).server, p, extra)
    {
      InstallIsSound(x, env, Visit(|x.shards|, i, reverse, x.listener.Some?), p, extra);
    }
    EachKeeps(s, 0, |s.shards|, step, true, (x: Server) => Sound(x, extra) && Kept(x, p, extra), (x: Server, i: nat) => true);
  }

  lemma InstallAllKeeps(s: Server, env: Env, p: Profile, reverse: bool, lo: nat, hi: nat)
    requires AllPaused(s, true) && ListenerFollows(s)
    ensures var r := InstallAll(s, env, p, reverse);
      && SameServer(s, r.server) && AllPaused(r.server, true)
      && (r.ok ==> AllHold(r.server, p))
      && (Bounded(s, lo, hi) ==> Bounded(r.server, lo, hi))
  {
    var kept := Bounded(s, lo, hi);
    var any := (x: Server) => InstallRunning(s, x, kept, lo, hi);
    var good := (x: Server, k: nat) => HoldUpTo(x, k, p, reverse);
    var step := InstallStep(env, p, reverse);
    forall x: Server, k: nat | k < |s.shards| && any(x)
      ensures any(step(x, k).server) && (good(x, k) && step(x, k).ok ==> good(step(x, k).server, k + 1))
    {
      InstallStepKeeps(x, env, k, p, reverse, lo, hi);
    }
    EachKeeps(s, 0, |s.shards|, step, true, any, good);
    var r := InstallAll(s, env, p, reverse);
    if r.ok {
      AllVisited(r.server, p, reverse);
    }
  }

  /** An installation on the shards of `s` has come to `x`. */
  predicate InstallRunning(s: Server, x: Server, kept: bool, lo: nat, hi: nat) {
    SameServer(s, x) && AllPaused(x, true) && ListenerFollows(x) && (kept ==> Bounded(x, lo, hi))
  }

  lemma AllVisited(s: Server, p: Profile, reverse: bool)
    requires HoldUpTo(s, |s.shards|, p, reverse)
    ensures AllHold(s, p)
  {
    forall i | 0 <= i < |s.shards|
      ensures s.shards[i].profile == p
    {
      var k := StepOf(|s.shards|, i, reverse, s.listener.Some?);
      assert Visit(|s.shards|, k, reverse, s.listener.Some?) == i;
    }
  }

  // The protocol.

  /** The state between rotations: one profile everywhere, gates open, no connection from the future, and every
      reference held by someone. */
  predicate Steady(s: Server, p: Profile) {
    && !s.failed && s.published && s.recovery == None && s.profile == p && s.shards != []
    && AllHold(s, p) && AllPaused(s, false) && Bounded(s, 1, p.generation) && Sound(s, multiset{})
  }

  /** The old profile is back, or failure is latched. */
  predicate FellBack(r: Result, was: Profile) {
    r.status != Ok && Sound(r.server, multiset{}) && (!r.server.failed ==> Steady(r.server, was))
  }

  /** The candidate is in force, under REVOKE_OLD without older connections, or the old profile is back. */
  predicate Decided(r: Result, was: Profile, cand: Profile, revoke: bool) {
    if r.status == Ok
    then Steady(r.server, cand) && (revoke ==> Bounded(r.server, cand.generation, cand.generation))
    else FellBack(r, was)
  }

  /** Under way: `p` and `q` are recorded, all gates closed, connections of generations 1 to `hi`. */
  predicate Closed(s: Server, p: Profile, recovery: Option<Profile>, lo: nat, hi: nat, extra: multiset<Profile>) {
    && !s.failed && s.published && s.profile == p && s.recovery == recovery && s.shards != []
    && AllPaused(s, true) && Bounded(s, lo, hi) && Sound(s, extra)
  }

  lemma HoldBounds(s: Server, p: Profile, lo: nat, hi: nat)
    requires AllHold(s, p) && lo <= p.generation <= hi
    ensures GenerationsIn(s, lo, hi)
  {
  }

  /** Reopening all gates when every shard holds `p`: all open if every call gets through. */
  lemma Reopens(s: Server, env: Env, p: Profile, lo: nat, hi: nat, extra: multiset<Profile>)
    requires AllHold(s, p) && lo <= p.generation <= hi && Bounded(s, lo, hi) && Sound(s, extra)
    ensures var r := GateAll(s, env, false);
      && SameProfiles(s, r.server) && AllHold(r.server, p) && Bounded(r.server, lo, hi) && Sound(r.server, extra)
      && (r.ok ==> AllPaused(r.server, false))
  {
    HoldBounds(s, p, lo, hi);
    GateAllKeeps(s, env, false, lo, hi);
    GateAllIsSound(s, env, false, extra);
  }

  lemma Shuts(s: Server, env: Env, lo: nat, hi: nat, extra: multiset<Profile>)
    requires Bounded(s, lo, hi) && Sound(s, extra)
    ensures var r := GateAll(s, env, true);
      && SameProfiles(s, r.server) && Bounded(r.server, lo, hi) && Sound(r.server, extra)
      && (r.ok ==> AllPaused(r.server, true))
  {
    GateAllKeeps(s, env, true, lo, hi);
    GateAllIsSound(s, env, true, extra);
  }

  lemma Releases(s: Server, p: Profile)
    requires Sound(s, multiset{p})
    ensures Sound(Release(s, p), multiset{})
  {
    var held := ShardRefs(s.shards) + Others(s, multiset{});
    assert s.refs == held + multiset{p};
    assert held + multiset{p} - multiset{p} == held;
  }

  lemma ReleaseKeepsRest(s: Server, p: Profile, q: Profile)
    ensures var t := Release(s, q);
      && SameProfiles(s, t) && AllHold(t, p) == AllHold(s, p) && AllPaused(t, false) == AllPaused(s, false)
      && Bounded(t, 1, p.generation) == Bounded(s, 1, p.generation)
  {
  }

  lemma LatchedIsSafe(s: Server, was: Profile)
    requires Sound(s, multiset{})
    ensures Sound(MarkFailed(s), multiset{}) && FellBack(Result(MarkFailed(s), State), was)
  {
  }

  lemma GiveUpLatched(s: Server, was: Profile, cand: Profile)
    requires Sound(s, multiset{cand})
    ensures FellBack(GiveUp(s, true, cand), was)
  {
    Releases(MarkFailed(s), cand);
  }

  /** Giving the candidate up while every shard holds the old profile. */
  lemma AbandonIsSafe(s: Server, env: Env, was: Profile, cand: Profile)
    requires !s.failed && s.published && s.profile == was && s.recovery == None && s.shards != [] && AllHold(s, was)
    requires 0 < was.generation && Bounded(s, 1, was.generation) && Sound(s, multiset{cand})
    ensures var reopened := GateAll(s, env, false);
      FellBack(GiveUp(reopened.server, !reopened.ok, cand), was)
  {
    Reopens(s, env, was, 1, was.generation, multiset{cand});
    var reopened := GateAll(s, env, false);
    if reopened.ok {
      Releases(reopened.server, cand);
      ReleaseKeepsRest(reopened.server, was, cand);
    } else {
      GiveUpLatched(reopened.server, was, cand);
    }
  }

  lemma RollBackInstallIsSafe(s: Server, env: Env, was: Profile, cand: Profile)
    requires Closed(s, was, None, 1, was.generation, multiset{cand}) && 0 < was.generation
    ensures FellBack(RollBackInstall(s, env, was, cand), was)
  {
    InstallAllKeeps(s, env, was, true, 1, was.generation);
    InstallAllIsSound(s, env, was, true, multiset{cand});
    var back := InstallAll(s, env, was, true);
    if back.ok {
      AbandonIsSafe(back.server, env, was, cand);
    } else {
      GiveUpLatched(back.server, was, cand);
    }
  }

  /** Handing the candidate to the server and keeping the old profile for recovery. */
  lemma Records(s: Server, cand: Profile)
    requires Exact(s, multiset{cand}) && s.recovery == None
    ensures Exact(s.(profile := cand, recovery := Some(s.profile)), multiset{})
  {
  }

  /** Letting go of the recovery profile, or swapping it back in. */
  lemma Settles(s: Server, was: Profile)
    requires Exact(s, multiset{}) && s.recovery == Some(was)
    ensures Exact(s.(recovery := None), multiset{was})
    ensures Exact(s.(profile := was, recovery := None), multiset{s.profile})
  {
  }

  /** With no connection in [lo, hi] left behind closed gates, the bounds tighten. */
  lemma Tightens(s: Server, lo: nat, mid: nat, hi: nat)
    requires AllPaused(s, true) && Bounded(s, lo, hi)
    ensures NoneUpTo(s, |s.shards|, mid + 1, hi) ==> Bounded(s, lo, mid)
    ensures NoneUpTo(s, |s.shards|, lo, hi) ==> Bounded(s, hi + 1, hi + 1)
  {
    if NoneUpTo(s, |s.shards|, mid + 1, hi) {
      forall i | 0 <= i < |s.shards|
        ensures ShardBounded(s.shards[i], lo, mid)
      {
        assert NoneIn(s.shards[i].live, mid + 1, hi) && ShardBounded(s.shards[i], lo, hi);
      }
    }
    if NoneUpTo(s, |s.shards|, lo, hi) {
      forall i | 0 <= i < |s.shards|
        ensures ShardBounded(s.shards[i], hi + 1, hi + 1)
      {
        assert NoneIn(s.shards[i].live, lo, hi) && ShardBounded(s.shards[i], lo, hi);
      }
    }
  }

  lemma Purges(s: Server, env: Env, was: Profile, cand: Profile)
    requires AllPaused(s, true) && Bounded(s, 1, cand.generation) && cand.generation == was.generation + 1
    requires Sound(s, multiset{})
    ensures var r := CloseAll(s, env, cand.generation, cand.generation);
      && SameProfiles(s, r.server) && AllPaused(r.server, true) && Sound(r.server, multiset{})
      && (r.ok ==> Bounded(r.server, 1, was.generation))
  {
    CloseAllKeeps(s, env, cand.generation, cand.generation, 1, cand.generation);
    CloseAllIsSound(s, env, cand.generation, cand.generation, multiset{});
    var r := CloseAll(s, env, cand.generation, cand.generation);
    Tightens(r.server, 1, was.generation, cand.generation);
  }

  lemma RollBackOpenIsSafe(s: Server, env: Env, was: Profile, cand: Profile)
    requires !s.failed && s.published && s.profile == cand && s.recovery == Some(was) && s.shards != []
    requires cand.generation == was.generation + 1 && 0 < was.generation
    requires Bounded(s, 1, cand.generation) && Sound(s, multiset{})
    ensures FellBack(RollBackOpen(s, env, was, cand), was)
  {
    Shuts(s, env, 1, cand.generation, multiset{});
    var shut := GateAll(s, env, true);
    if shut.ok {
      Purges(shut.server, env, was, cand);
      var purged := CloseAll(shut.server, env, cand.generation, cand.generation);
      if purged.ok {
        RestoreIsSafe(purged.server, env, was, cand);
      } else {
        LatchedIsSafe(purged.server, was);
      }
    } else {
      LatchedIsSafe(shut.server, was);
    }
  }

  /** The late rollback from the point where the candidate's connections are gone. */
  lemma RestoreIsSafe(s: Server, env: Env, was: Profile, cand: Profile)
    requires Closed(s, cand, Some(was), 1, was.generation, multiset{}) && 0 < was.generation
    ensures FellBack(Restore(s, env, was, cand), was)
  {
    InstallAllKeeps(s, env, was, true, 1, was.generation);
    InstallAllIsSound(s, env, was, true, multiset{});
    var back := InstallAll(s, env, was, true);
    if back.ok {
      Settles(back.server, was);
      var t := back.server.(profile := was, recovery := None);
      Releases(t, cand);
      Reopens(Release(t, cand), env, was, 1, was.generation, multiset{});
      LatchedIsSafe(GateAll(Release(t, cand), env, false).server, was);
    } else {
      LatchedIsSafe(back.server, was);
    }
  }

  lemma RevokeIsComplete(s: Server, env: Env, was: Profile, cand: Profile, revoke: bool)
    requires AllPaused(s, true) && Bounded(s, 1, was.generation) && cand.generation == was.generation + 1
    requires Sound(s, multiset{})
    ensures var r := if revoke then CloseAll(s, env, 1, cand.generation - 1) else Reply(s, true);
      && SameProfiles(s, r.server) && AllPaused(r.server, true) && Sound(r.server, multiset{})
      && (r.ok ==> Bounded(r.server, if revoke then cand.generation else 1, cand.generation))
  {
    if revoke {
      CloseAllKeeps(s, env, 1, was.generation, 1, was.generation);
      CloseAllIsSound(s, env, 1, was.generation, multiset{});
      var r := CloseAll(s, env, 1, was.generation);
      Tightens(r.server, 1, 0, was.generation);
    }
  }

  lemma PublishIsSafe(s: Server, env: Env, cand: Profile, revoke: bool)
    requires Closed(s, s.profile, None, 1, s.profile.generation, multiset{cand})
    requires AllHold(s, cand) && 0 < s.profile.generation && cand.generation == s.profile.generation + 1
    ensures Decided(Publish(s, env, s.profile, cand, revoke), s.profile, cand, revoke)
  {
    var was := s.profile;
    var t := s.(profile := cand, recovery := Some(was));
    Records(s, cand);
    RevokeIsComplete(t, env, was, cand, revoke);
    var revoked := if revoke then CloseAll(t, env, 1, cand.generation - 1) else Reply(t, true);
    if revoked.ok {
      OpenOrRollBack(revoked.server, env, was, cand, if revoke then cand.generation else 1);
    } else {
      LatchedIsSafe(revoked.server, was);
    }
  }

  lemma OpenOrRollBack(s: Server, env: Env, was: Profile, cand: Profile, lo: nat)
    requires Closed(s, cand, Some(was), lo, cand.generation, multiset{}) && AllHold(s, cand)
    requires 0 < was.generation && cand.generation == was.generation + 1 && 1 <= lo <= cand.generation
    ensures var reopened := GateAll(s, env, false);
      if reopened.ok then
        var t := Release(reopened.server.(recovery := None), was);
        Steady(t, cand) && Bounded(t, lo, cand.generation)
      else
        FellBack(RollBackOpen(reopened.server, env, was, cand), was)
  {
    Reopens(s, env, cand, lo, cand.generation, multiset{});
    var reopened := GateAll(s, env, false);
    Widens(reopened.server, lo, cand.generation);
    if reopened.ok {
      Settles(reopened.server, was);
      Releases(reopened.server.(recovery := None), was);
    } else {
      RollBackOpenIsSafe(reopened.server, env, was, cand);
    }
  }

  lemma Widens(s: Server, lo: nat, hi: nat)
    requires Bounded(s, lo, hi) && 1 <= lo
    ensures Bounded(s, 1, hi)
  {
    forall i | 0 <= i < |s.shards|
      ensures ShardBounded(s.shards[i], 1, hi)
    {
      assert ShardBounded(s.shards[i], lo, hi);
    }
  }

  /** Whatever calls fail and however connections come and go, a rotation that does not latch failure either
      puts the candidate on every shard with every gate open, under REVOKE_OLD without any older TLS
      connection left, or leaves every shard on the old profile with every gate open and no
      connection of the candidate's generation. Latched or not, references match their holders and no profile
      was used after its last reference was gone. */
  lemma RotationIsAllOrNothing(s: Server, env: Env, cand: Profile, revoke: bool)
    requires Steady(s, s.profile) && 0 < s.profile.generation && cand.generation == s.profile.generation + 1
    ensures Decided(Rotate(s, env, cand, revoke), s.profile, cand, revoke)
  {
    if cand.generation < TWO_64 {
      var was := s.profile;
      var s0 := s.(refs := s.refs + multiset{cand});
      Acquires(s, cand);
      Shuts(s0, env, 1, was.generation, multiset{cand});
      var shut := GateAll(s0, env, true);
      if shut.ok {
        ReplaceIsSafe(shut.server, env, cand, revoke);
      } else {
        AbandonIsSafe(shut.server, env, was, cand);
      }
    }
  }

  lemma Acquires(s: Server, cand: Profile)
    requires Exact(s, multiset{})
    ensures Exact(s.(refs := s.refs + multiset{cand}), multiset{cand})
  {
  }

  lemma ReplaceIsSafe(s: Server, env: Env, cand: Profile, revoke: bool)
    requires Closed(s, s.profile, None, 1, s.profile.generation, multiset{cand})
    requires 0 < s.profile.generation && cand.generation == s.profile.generation + 1
    ensures Decided(Replace(s, env, s.profile, cand, revoke), s.profile, cand, revoke)
  {
    InstallAllKeeps(s, env, cand, false, 1, s.profile.generation);
    InstallAllIsSound(s, env, cand, false, multiset{cand});
    var put := InstallAll(s, env, cand, false);
    if put.ok {
      PublishIsSafe(put.server, env, cand, revoke);
    } else {
      RollBackInstallIsSafe(put.server, env, s.profile, cand);
    }
  }

  // Any number of rotations.

  datatype Request = Request(env: Env, id: nat, revoke: bool)

  /** Rotations in a row: each asks for the next generation. */
  function RotateAll(s: Server, requests: seq<Request>): Server
    decreases |requests|
  {
    if requests == [] then s else
      var q := requests[0];
      RotateAll(Rotate(s, q.env, Profile(q.id, s.profile.generation + 1), q.revoke).server, requests[1..])
  }

  /** After any number of rotations with any failures, references are sound, and the server is steady unless
      failure is latched. */
  lemma {:induction false} RotationsStaySteady(s: Server, requests: seq<Request>)
    requires Steady(s, s.profile) && 0 < s.profile.generation
    ensures var t := RotateAll(s, requests); Sound(t, multiset{}) && (!t.failed ==> Steady(t, t.profile))
    decreases |requests|
  {
    if requests != [] {
      var q := requests[0];
      var cand := Profile(q.id, s.profile.generation + 1);
      RotationIsAllOrNothing(s, q.env, cand, q.revoke);
      var t := Rotate(s, q.env, cand, q.revoke).server;
      if t.failed {
        FailureIsLatched(t, requests[1..]);
      } else {
        RotationsStaySteady(t, requests[1..]);
      }
    }
  }

  lemma {:induction false} FailureIsLatched(s: Server, requests: seq<Request>)
    requires s.failed
    ensures RotateAll(s, requests) == s
    decreases |requests|
  {
    if requests != [] {
      FailureIsLatched(s, requests[1..]);
    }
  }

  /** The server as tr_server_create leaves it: one profile, held by the server and by each of its `n` shards and
      lent to the listener if there is one. */
  function Created(p: Profile, n: nat, listening: bool): Server {
    Server(p, None, if listening then Some(p) else None, seq(n, _ => Shard(p, false, true, [])), [],
           false, true, multiset{}[p := n + 1], false, 0)
  }

  lemma {:induction false} NewShardRefs(shards: seq<Shard>, p: Profile)
    requires forall i :: 0 <= i < |shards| ==> shards[i].profile == p && shards[i].live == []
    ensures ShardRefs(shards) == multiset{}[p := |shards|]
  {
    if shards != [] {
      NewShardRefs(shards[..|shards| - 1], p);
      assert Holders(shards[|shards| - 1]) == multiset{p};
    }
  }

  /** Rotation starts from a steady state. */
  lemma CreatedIsSteady(p: Profile, n: nat, listening: bool)
    requires 0 < n && 0 < p.generation
    ensures Steady(Created(p, n, listening), p)
  {
    var s := Created(p, n, listening);
    NewShardRefs(s.shards, p);
    assert s.refs == ShardRefs(s.shards) + multiset{p};
  }

  // What keeps the losing profile alive.

  /** Steady on `q`, another profile is referenced once by each of its connections and control sessions. */
  lemma OtherProfileRefs(s: Server, q: Profile, p: Profile)
    requires Steady(s, q) && p != q
    ensures s.refs[p] == Connections(s.shards)[p] + multiset(s.sessions)[p]
  {
    OnlyConnectionsHold(s.shards, p);
  }

  lemma OutOfRange(s: Server, p: Profile, lo: nat, hi: nat)
    requires Bounded(s, lo, hi) && !(lo <= p.generation <= hi)
    ensures Connections(s.shards)[p] == 0
  {
    forall i | 0 <= i < |s.shards|
      ensures p !in s.shards[i].live
    {
      assert ShardBounded(s.shards[i], lo, hi);
    }
    NoConnection(s.shards, p);
  }

  /** After a success the old profile is referenced by exactly its remaining connections and the control sessions
      opened under it, under REVOKE_OLD by the sessions alone. After an error that is not latched, the
      candidate is referenced by exactly the sessions opened under it. So a profile without sessions is freed
      as soon as its last connection is gone, and at once where all of them were closed. */
  lemma LosingProfileIsLetGo(s: Server, env: Env, cand: Profile, revoke: bool)
    requires Steady(s, s.profile) && 0 < s.profile.generation && cand.generation == s.profile.generation + 1
    ensures var r, was := Rotate(s, env, cand, revoke), s.profile;
      var sessions := multiset(r.server.sessions);
      && (r.status == Ok ==> r.server.refs[was] == Connections(r.server.shards)[was] + sessions[was])
      && (r.status == Ok && revoke ==> r.server.refs[was] == sessions[was])
      && (r.status != Ok && !r.server.failed ==> r.server.refs[cand] == sessions[cand])
  {
    RotationIsAllOrNothing(s, env, cand, revoke);
    var r, was := Rotate(s, env, cand, revoke), s.profile;
    if r.status == Ok {
      OtherProfileRefs(r.server, cand, was);
      if revoke {
        OutOfRange(r.server, was, cand.generation, cand.generation);
      }
    } else if !r.server.failed {
      OtherProfileRefs(r.server, was, cand);
      OutOfRange(r.server, cand, 1, was.generation);
    }
  }
}
