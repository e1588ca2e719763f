/** Whole runs: any interleaving of proposals, votes, timeouts, ticks and validator updates, with any contents. */
module ReplicaRuns {
  import opened Basics
  import opened BlockHistory
  import opened TreeSpec
  import opened ChainSpec
  import opened TallySpec
  import opened Election
  import opened ReplicaSpec
  import opened ReplicaSafety

  /** A configuration whose start value deserializes to the start block. */
  ghost predicate Initial(cfg: Config, s: Replica) {
    && Faithful(cfg.codec)
    && exists round: int, index: int, id: Bytes, value: Bytes, validators: seq<PeerID> ::
         && round >= 0 && id != [] && validators != [] && Names(cfg.codec, value, round, id)
         && s == NewReplica(round, index, id, value, validators)
  }

  ghost predicate Steps(cfg: Config, s: Replica, e: Event, u: Replica) {
    Admissible(e) && Steppable(cfg, s) && u == Step(cfg, s, e).0
  }

  ghost predicate IsRun(cfg: Config, run: seq<Replica>, events: seq<Event>) {
    && |run| == |events| + 1
    && Initial(cfg, run[0])
    && forall k :: 0 <= k < |events| ==> Steps(cfg, run[k], events[k], run[k + 1])
  }

  lemma InitialOk(cfg: Config, s: Replica)
    requires Initial(cfg, s)
    ensures ReplicaOk(cfg, s)
  {
    hide ReplicaOk;
    var round: int, index: int, id: Bytes, value: Bytes, validators: seq<PeerID> :|
      && round >= 0 && id != [] && validators != [] && Names(cfg.codec, value, round, id)
      && s == NewReplica(round, index, id, value, validators);
    NewReplicaOk(cfg, round, index, id, value, validators);
  }

  lemma MovesTrans(cfg: Config, s: Replica, u: Replica, v: Replica)
    requires Moves(s, u) && Moves(u, v) && ReplicaOk(cfg, v)
    ensures Moves(s, v)
  {
    hide Advances, ReplicaOk, HistoryOk;
    OkFacts(cfg, v);
    AdvancesTrans(s.chain, u.chain, v.chain);
  }

  /** Every state of every run satisfies the invariant. */
  lemma {:induction false} RunOk(cfg: Config, run: seq<Replica>, events: seq<Event>, k: nat)
    requires IsRun(cfg, run, events) && k < |run|
    ensures ReplicaOk(cfg, run[k])
  {
    hide ReplicaOk, Step, Initial, Moves, Steppable;
    if k == 0 {
      InitialOk(cfg, run[0]);
    } else {
      RunOk(cfg, run, events, k - 1);
      assert Steps(cfg, run[k - 1], events[k - 1], run[k]);
      StepKeeps(cfg, run[k - 1], events[k - 1]);
    }
  }

  /** No state of a run refuses a step: the guard in Steps is never what ends a run. */
  lemma RunGoesOn(cfg: Config, run: seq<Replica>, events: seq<Event>, e: Event)
    requires IsRun(cfg, run, events) && Admissible(e)
    ensures exists u :: IsRun(cfg, run + [u], events + [e])
  {
    hide ReplicaOk, Step, Initial;
    RunOk(cfg, run, events, |events|);
    OkFacts(cfg, run[|events|]);
    var u := Step(cfg, run[|events|], e).0;
    assert IsRun(cfg, run + [u], events + [e]);
  }

  /** From an initial state any admissible events have a run. */
  lemma {:induction false} RunFrom(cfg: Config, s: Replica, events: seq<Event>) returns (run: seq<Replica>)
    requires Initial(cfg, s) && forall k :: 0 <= k < |events| ==> Admissible(events[k])
    ensures IsRun(cfg, run, events) && run[0] == s
  {
    hide Steps, Admissible, Initial;
    if events == [] {
      run := [s];
    } else {
      var init, e := events[..|events| - 1], events[|events| - 1];
      var r := RunFrom(cfg, s, init);
      RunGoesOn(cfg, r, init, e);
      var u :| IsRun(cfg, r + [u], init + [e]);
      run := r + [u];
      assert init + [e] == events;
    }
  }

  lemma {:induction false} RunMoves(cfg: Config, run: seq<Replica>, events: seq<Event>, i: nat, j: nat)
    requires IsRun(cfg, run, events) && i <= j < |run|
    ensures Moves(run[i], run[j])
    decreases j
  {
    hide ReplicaOk, Step, Initial, Moves;
    RunOk(cfg, run, events, j);
    if i == j {
      KeepsSelf(cfg, run[i]);
    } else {
      RunOk(cfg, run, events, j - 1);
      StepKeeps(cfg, run[j - 1], events[j - 1]);
      RunMoves(cfg, run, events, i, j - 1);
      MovesTrans(cfg, run[i], run[j - 1], run[j]);
    }
  }

  // ---- Commit safety ----

  /**
   * Local commit safety: between any two moments of any run the committed root stays or moves to a
   * proper descendant of a strictly larger round, in a history that only grows.
   */
  lemma CommitSafety(cfg: Config, run: seq<Replica>, events: seq<Event>, i: nat, j: nat)
    requires IsRun(cfg, run, events) && i <= j < |run|
    ensures var s, u := run[i].chain.tree, run[j].chain.tree;
      && s.hist <= u.hist && s.root < |u.hist| && u.root < |u.hist|
      && Descends(u.hist, u.root, s.root)
      && (u.root != s.root ==> u.hist[s.root].round < u.hist[u.root].round)
  {
    RunMoves(cfg, run, events, i, j);
  }

  /** A parent link between two live blocks. */
  ghost predicate Link(t: Tree, x: nat, p: nat) {
    Live(t, x) && Live(t, p) && x != t.root && t.hist[x].parent == p && t.hist[p].round < t.hist[x].round
  }

  /** In every state the commit pointer is nil or heads a live chain of three parent links, rounds increasing. */
  lemma CommitHeadsChain(cfg: Config, run: seq<Replica>, events: seq<Event>, k: nat)
    requires IsRun(cfg, run, events) && k < |run| && run[k].chain.commit.Some?
    ensures var t := run[k].chain.tree;
      exists x: nat, p: nat, g: nat :: Link(t, x, p) && Link(t, p, g) && Link(t, g, run[k].chain.commit.value)
  {
    hide HistoryOk, TreeOk, Live, Link, Logged, ScheduleOk, RoundsOk, IsRun, Faithful, ValuesOk, HeadsChain;
    RunOk(cfg, run, events, k);
    OkFacts(cfg, run[k]);
    LinksUp(run[k].chain.tree, run[k].chain.commit.value);
  }

  lemma LinksUp(t: Tree, a: nat)
    requires TreeOk(t) && HeadsChain(t, a)
    ensures exists x: nat, p: nat, g: nat :: Link(t, x, p) && Link(t, p, g) && Link(t, g, a)
  {
    var x: nat :| Live(t, x) && Above(t, x, 3) == Some(a);
    var p := t.hist[x].parent;
    var g := t.hist[p].parent;
    LiveParent(t, x);
    LiveParent(t, p);
    LiveParent(t, g);
    assert Link(t, x, p) && Link(t, p, g) && Link(t, g, a);
  }

  // ---- The high certificate ----

  /** The high round never decreases, at an equal round the identifier is the same, and it stays behind the current round. */
  lemma HighIsMonotone(cfg: Config, run: seq<Replica>, events: seq<Event>, i: nat, j: nat)
    requires IsRun(cfg, run, events) && i <= j < |run|
    ensures var s, u := run[i].chain, run[j].chain;
      && s.high < |s.tree.hist| && u.high < |u.tree.hist|
      && HighRound(s) <= HighRound(u) < run[j].current
      && (HighRound(s) == HighRound(u) ==> s.tree.hist[s.high].id == u.tree.hist[u.high].id)
  {
    hide ReplicaOk, IsRun;
    RunMoves(cfg, run, events, i, j);
    RunOk(cfg, run, events, j);
    OkFacts(cfg, run[j]);
  }

  // ---- Timeouts ----

  /**
   * Once a timeout quorum has taken effect at round r, the current round is past r for good, so every later
   * timeout for a round up to r is turned away; and quorums take effect at strictly increasing rounds.
   */
  lemma TimeoutsAdvance(cfg: Config, run: seq<Replica>, events: seq<Event>, i: nat, j: nat, q: nat, t: TimeoutMsg, nextID: Bytes)
    requires IsRun(cfg, run, events) && i <= j < |run| && q < |run[i].timeoutQuorums| && t.round <= run[i].timeoutQuorums[q].round
    ensures Steppable(cfg, run[j]) && StepTimeout(cfg, run[j], t, nextID) == (run[j], Rejected(Stale))
    ensures forall a, b :: 0 <= a < b < |run[j].timeoutQuorums| ==> run[j].timeoutQuorums[a].round < run[j].timeoutQuorums[b].round
  {
    hide HistoryOk, TreeOk, ChainOk, Logged, ScheduleOk, Advances, IsRun, Faithful;
    RunMoves(cfg, run, events, i, j);
    RunOk(cfg, run, events, i);
    RunOk(cfg, run, events, j);
    OkFacts(cfg, run[j]);
  }
}
