/** TLS profile rotation as it runs (server.c): the loops over the shards and the rollback branches, proved
    to compute TlsRotation. */
module TlsServer {
  import opened Status
  import opened TlsRotation
  import opened TlsSafety
  import opened TlsProgress

  class TlsServer {
    var state: Server
    const env: Env

    constructor (state: Server, env: Env)
      ensures this.state == state && this.env == env
    {
      this.state, this.env := state, env;
    }

    // tr_server_tls_gate_all: goes on after a failure and reports it at the end
    method SetGates(paused: bool) returns (ok: bool)
      modifies this`state
      ensures GateAll(old(state), env, paused) == Reply(state, ok)
    {
      ok := true;
      var n := |state.shards|;
      var i := 0;
      while i < n
        invariant 0 <= i <= n
        invariant Resumes(GateAll(old(state), env, paused), Each(state, i, n, GateStep(env, paused), false), ok)
      {
        var r := Gate(state, env, i, paused);
        EachUnfolds(state, i, n, GateStep(env, paused), false);
        state := r.server;
        ok := ok && r.ok;
        i := i + 1;
      }
    }

    // tr_server_tls_close_generation_all, tr_server_tls_close_before_generation_all
    method CloseGenerations(lo: nat, hi: nat) returns (ok: bool)
      modifies this`state
      ensures CloseAll(old(state), env, lo, hi) == Reply(state, ok)
    {
      ok := true;
      var n := |state.shards|;
      var i := 0;
      while i < n
        invariant 0 <= i <= n
        invariant Resumes(CloseAll(old(state), env, lo, hi), Each(state, i, n, CloseStep(env, lo, hi), false), ok)
      {
        var r := Close(state, env, i, lo, hi);
        EachUnfolds(state, i, n, CloseStep(env, lo, hi), false);
        state := r.server;
        ok := ok && r.ok;
        i := i + 1;
      }
    }

    // tr_server_tls_install_all: stops at the first failure
    method InstallEverywhere(p: Profile, reverse: bool) returns (ok: bool)
      modifies this`state
      ensures InstallAll(old(state), env, p, reverse) == Reply(state, ok)
    {
      var n := |state.shards|;
      var k := 0;
      while k < n
        invariant 0 <= k <= n
        invariant InstallAll(old(state), env, p, reverse) == Each(state, k, n, InstallStep(env, p, reverse), true)
      {
        var r := Install(state, env, Visit(|state.shards|, k, reverse, state.listener.Some?), p);
        EachUnfolds(state, k, n, InstallStep(env, p, reverse), true);
        state := r.server;
        if !r.ok {
          return false;
        }
        k := k + 1;
      }
      ok := true;
    }

    method Latch()
      modifies this`state
      ensures state == MarkFailed(old(state))
    {
      state := state.(failed := true, published := false);
    }

    /** The candidate is given up after gates or installation failed. */
    method Abandon(latch: bool, cand: Profile) returns (status: Status)
      modifies this`state
      ensures GiveUp(old(state), latch, cand) == Result(state, status)
    {
      if latch {
        Latch();
      }
      state := Release(state, cand);
      status := Sys;
    }

    /** Some shard did not reopen. */
    method UndoPublish(was: Profile, cand: Profile) returns (status: Status)
      modifies this`state
      ensures RollBackOpen(old(state), env, was, cand) == Result(state, status)
    {
      var ok := SetGates(true);
      if ok {
        ok := CloseGenerations(cand.generation, cand.generation);
      }
      if ok {
        ok := InstallEverywhere(was, true);
      }
      if !ok {
        Latch();
        return State;
      }
      state := Release(state.(profile := was, recovery := None), cand);
      ok := SetGates(false);
      if !ok {
        Latch();
        return State;
      }
      status := Sys;
    }

    /** Every shard holds the candidate: record it, revoke if asked, reopen. */
    method PublishCandidate(was: Profile, cand: Profile, revoke: bool) returns (status: Status)
      requires 0 < cand.generation
      modifies this`state
      ensures Publish(old(state), env, was, cand, revoke) == Result(state, status)
    {
      state := state.(profile := cand, recovery := Some(was));
      if revoke {
        var closed := CloseGenerations(1, cand.generation - 1);
        if !closed {
          Latch();
          return State;
        }
      }
      var ok := SetGates(false);
      if ok {
        state := Release(state.(recovery := None), was);
        return Ok;
      }
      status := UndoPublish(was, cand);
    }

    /** Every gate is closed: install the candidate, or put the old profile back. */
    method ReplaceEverywhere(was: Profile, cand: Profile, revoke: bool) returns (status: Status)
      requires 0 < cand.generation
      modifies this`state
      ensures Replace(old(state), env, was, cand, revoke) == Result(state, status)
    {
      var ok := InstallEverywhere(cand, false);
      if !ok {
        ok := InstallEverywhere(was, true);
        if ok {
          ok := SetGates(false);
        }
        status := Abandon(!ok, cand);
        return;
      }
      status := PublishCandidate(was, cand, revoke);
    }

    // tr_server_tls_update_profile_impl
    method UpdateProfile(cand: Profile, revoke: bool) returns (status: Status)
      modifies this`state
      ensures Rotate(old(state), env, cand, revoke) == Result(state, status)
    {
      if state.failed || !state.published || |state.shards| == 0 || !(0 < cand.generation < TWO_64) {
        return State;
      }
      var was := state.profile;
      state := state.(refs := state.refs + multiset{cand});
      var ok := SetGates(true);
      if !ok {
        ok := SetGates(false);
        status := Abandon(!ok, cand);
        return;
      }
      status := ReplaceEverywhere(was, cand, revoke);
    }

    /** A rotation of a steady server, whatever fails: all shards or none, unless failure is latched; and all of them
        exactly when every call forward gets through. */
    method RotateSafely(cand: Profile, revoke: bool) returns (status: Status)
      requires Steady(state, state.profile) && 0 < state.profile.generation
      requires cand.generation == state.profile.generation + 1
      modifies this`state
      ensures Decided(Result(state, status), old(state.profile), cand, revoke)
      ensures cand.generation < TWO_64 ==>
        (status == Ok <==>
         AllOk(env, old(state.clock), if revoke then 4 * |old(state.shards)| else 3 * |old(state.shards)|))
    {
      RotationIsAllOrNothing(state, env, cand, revoke);
      if cand.generation < TWO_64 {
        RotationSucceedsExactly(state, env, cand, revoke);
      }
      status := UpdateProfile(cand, revoke);
    }
  }

  /** What a loop has done so far, and what is left of it. */
  predicate Resumes(whole: Reply, rest: Reply, ok: bool) {
    whole == Reply(rest.server, ok && rest.ok)
  }

  lemma EachUnfolds(s: Server, k: nat, n: nat, step: (Server, nat) -> Reply, stop: bool)
    requires k < n
    ensures var r := step(s, k);
      Each(s, k, n, step, stop) ==
      if !r.ok && stop then r
      else var rest := Each(r.server, k + 1, n, step, stop); Reply(rest.server, r.ok && rest.ok)
  {
  }
}
