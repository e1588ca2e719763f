/**
 * Exactly when high is lost. Only a proposal's commit prunes; whether it cuts high off can be told from
 * the state the proposal arrives in. A run in which no proposal does so has a live high throughout, and
 * no other run has.
 */
module HighLoss {
  import opened Basics
  import opened BlockHistory
  import opened TreeSpec
  import opened ChainSpec
  import opened TallySpec
  import opened Election
  import opened TimeoutNames
  import opened ReplicaSpec
  import opened ReplicaSafety
  import opened ReplicaSends
  import opened ReplicaRuns
  import opened HighAnchoring

  /** A redirect to block p leaves high where it is: its round is larger, or equal for another block. */
  ghost predicate Outranks(s: Chain, p: nat)
    requires s.high < |s.tree.hist| && p < |s.tree.hist|
  {
    var h := s.tree.hist;
    h[s.high].round > h[p].round || (h[s.high].round == h[p].round && h[s.high].id != h[p].id)
  }

  /** The commit above p is due at the commit pointer, high is not on that branch, and this proposal does not move it there. */
  ghost predicate Cuts(s: Chain, id: Bytes, p: nat)
    requires HistoryOk(s.tree.hist) && s.high < |s.tree.hist| && Live(s.tree, p)
  {
    && s.commit.Some? && Above(s.tree, p, 3) == s.commit
    && !Descends(s.tree.hist, s.high, s.commit.value)
    && (id in s.tree.keys || Outranks(s, p))
  }

  /** The whole effect of a redirect: nothing if b is outranked, and otherwise each pointer that b has an ancestor for. */
  lemma RedirectExact(c: Codec, s: Chain, b: nat)
    requires ChainOk(c, s) && Live(s.tree, b)
    ensures Redirect(c, s, b).Some?
    ensures var u := Redirect(c, s, b).value;
      && u.tree == s.tree
      && (Outranks(s, b) ==> u == s)
      && (!Outranks(s, b) ==>
            && u.high == b
            && u.generic == (if Above(s.tree, b, 1).Some? then Above(s.tree, b, 1).value else s.generic)
            && u.locked == (if Above(s.tree, b, 2).Some? then Above(s.tree, b, 2) else s.locked)
            && u.commit == if Above(s.tree, b, 3).Some? then Above(s.tree, b, 3) else s.commit)
  {
    hide HistoryOk, TreeOk, Live, Descends, ValuesOk, HeadsChain, LookUp, Above, ChainOk;
    ChainFacts(c, s);
    LiveInside(s.tree, b);
  }

  /** A redirect takes high off the commit pointer's branch exactly when b is shallow, off that branch, and not outranked. */
  lemma StraysExactly(c: Codec, s: Chain, b: nat)
    requires ChainOk(c, s) && Live(s.tree, b) && HistoryOk(s.tree.hist) && s.high < |s.tree.hist| && b < |s.tree.hist|
    ensures Redirect(c, s, b).Some?
    ensures Strays(s, Redirect(c, s, b).value) <==>
      && b != s.high && !Outranks(s, b) && Above(s.tree, b, 3).None?
      && s.commit.Some? && !Descends(s.tree.hist, b, s.commit.value)
  {
    hide HistoryOk, TreeOk, Live, Descends, Above, ChainOk, Redirect, Outranks;
    RedirectExact(c, s, b);
    if Above(s.tree, b, 3).Some? {
      AboveInside(s.tree, b, 3);
    }
  }

  /** What the commit above p does to a live block b. */
  lemma CommitCuts(c: Codec, s: Chain, p: nat, b: nat)
    requires ChainOk(c, s) && Live(s.tree, p) && Live(s.tree, b)
    ensures var u := CommitAbove(s, p);
      && u.high == s.high
      && (Live(u.tree, b) <==>
            !(s.commit.Some? && Above(s.tree, p, 3) == s.commit && !Descends(s.tree.hist, b, s.commit.value)))
  {
    hide HistoryOk, TreeOk, Live, Descends, ValuesOk, HeadsChain, LookUp, Above, ChainOk, Reset, Advances;
    ChainFacts(c, s);
    if s.commit.Some? && Above(s.tree, p, 3).Some? {
      var g := Above(s.tree, p, 3).value;
      LiveInside(s.tree, g);
      if s.tree.hist[s.commit.value].id == s.tree.hist[g].id {
        SameIdentifier(s.tree, s.commit.value, g);
        ResetEffect(s.tree, g);
      }
    }
  }

  lemma AboveInside(t: Tree, p: nat, n: nat)
    requires HistoryOk(t.hist) && Live(t, p) && Above(t, p, n).Some?
    ensures p < |t.hist| && Above(t, p, n).value < |t.hist| && Live(t, Above(t, p, n).value)
    ensures Descends(t.hist, p, Above(t, p, n).value)
  {
    hide Above;
  }

  /** Insert under p, then commit above p: high is lost exactly when the proposal cuts it off. */
  lemma AdoptCuts(c: Codec, s: Chain, n: QC, p: nat)
    requires ChainOk(c, s) && Faithful(c) && Live(s.tree, s.high) && Live(s.tree, p) && s.tree.hist[p].id == n.parentID
    requires n.id in s.tree.keys ==> Insert(s.tree, n.round, n.id, Some(c.ser(n)), n.parentID) == Err(RepeatInsert)
    requires n.id !in s.tree.keys ==> Insert(s.tree, n.round, n.id, Some(c.ser(n)), n.parentID).Ok?
    ensures var (u, e) := ExecuteNInsert(c, s, n);
      && ChainOk(c, u) && Live(u.tree, p)
      && (Live(CommitAbove(u, p).tree, CommitAbove(u, p).high) <==> !Cuts(s, n.id, p))
  {
    hide HistoryOk, TreeOk, Live, Descends, ValuesOk, HeadsChain, LookUp, Above, ChainOk, Insert, Redirect, Advances, CommitAbove,
      Extends, Faithful, Outranks;
    ChainFacts(c, s);
    LiveInside(s.tree, p);
    var (u, e) := ExecuteNInsert(c, s, n);
    if n.id in s.tree.keys {
      CommitCuts(c, s, p, s.high);
    } else {
      InsertedUnder(c, s, n, p);
      CommitCuts(c, u, p, u.high);
      if s.commit.Some? {
        DescendsPrefix(s.tree.hist, u.tree.hist, s.high, s.commit.value);
      }
      if Above(u.tree, p, 3).Some? {
        AboveInside(u.tree, p, 3);
      }
    }
  }

  /** After an insertion under p high is p, with commit its third ancestor if it has one, unless it outranked p. */
  lemma InsertedUnder(c: Codec, s: Chain, n: QC, p: nat)
    requires ChainOk(c, s) && Faithful(c) && Live(s.tree, s.high) && Live(s.tree, p) && s.tree.hist[p].id == n.parentID
    requires Insert(s.tree, n.round, n.id, Some(c.ser(n)), n.parentID).Ok?
    ensures var u := ExecuteNInsert(c, s, n).0;
      && ChainOk(c, u) && HistoryOk(u.tree.hist) && s.tree.hist <= u.tree.hist && s.high < |s.tree.hist| && p < |s.tree.hist|
      && Live(u.tree, p) && Live(u.tree, u.high) && Above(u.tree, p, 3) == Above(s.tree, p, 3)
      && (if Outranks(s, p) then u.high == s.high && u.commit == s.commit
          else u.high == p && u.commit == if Above(s.tree, p, 3).Some? then Above(s.tree, p, 3) else s.commit)
  {
    hide HistoryOk, TreeOk, Descends, ValuesOk, HeadsChain, LookUp, Above, ChainOk, Insert, Redirect, Advances, Faithful;
    ChainFacts(c, s);
    LookUpExact(s.tree, n.parentID, p);
    InsertEffect(s.tree, n.round, n.id, Some(c.ser(n)), n.parentID);
    InsertKeepsChain(c, s, n);
    var t := Insert(s.tree, n.round, n.id, Some(c.ser(n)), n.parentID).value;
    var s1 := s.(tree := t);
    ChainFacts(c, s1);
    ExecuteKeepsChain(c, s, n);
    RedirectExact(c, s1, p);
    InsertAbove(s.tree, t, p, p, 3);
  }

  // ---- Steps ----

  /** The tree takes the proposed block under p, or has its identifier already. */
  ghost predicate Taken(t: Tree, round: int, id: Bytes, p: nat)
    requires p < |t.hist|
  {
    round >= 0 && id != [] && (id in t.keys || t.hist[p].round < round)
  }

  /** A proposal that passes its guards, is taken, and cuts high off: all told from the state it arrives in. */
  ghost predicate Loses(cfg: Config, s: Replica, e: Event) {
    Steppable(cfg, s) && e.OnProposal? &&
    match cfg.codec.des(e.p.justify)
    case None => false
    case Some(j) =>
      match Search(s.chain, j.round, j.id)
      case Err(_) => false
      case Ok(p) =>
        && CheckProposal(s, QC(e.p.round, e.p.id, j.round, j.id, e.p.peer), j) == Done
        && Taken(s.chain.tree, e.p.round, e.p.id, p)
        && Cuts(s.chain, e.p.id, p)
  }

  lemma InsertTaken(t: Tree, q: QC, value: Bytes, p: nat)
    requires TreeOk(t) && Live(t, p) && p < |t.hist| && t.hist[p].id == q.parentID
    ensures var r := Insert(t, q.round, q.id, Some(value), q.parentID);
      if Taken(t, q.round, q.id, p) then (if q.id in t.keys then r == Err(RepeatInsert) else r.Ok?)
      else r.Err? && r != Err(RepeatInsert)
  {
    LookUpExact(t, q.parentID, p);
  }

  lemma ProposalLoses(cfg: Config, s: Replica, p: ProposalMsg)
    requires ReplicaOk(cfg, s) && Live(s.chain.tree, s.chain.high)
    ensures Steppable(cfg, s)
    ensures var u := StepProposal(cfg, s, p).0.chain;
      Live(u.tree, u.high) <==> !Loses(cfg, s, OnProposal(p))
  {
    hide ReplicaOk, HistoryOk, TreeOk, Live, ChainOk, Insert, CommitAbove, Cuts, CheckProposal, Search, Faithful, LeaderAt, Taken,
      ExecuteNInsert;
    OkFacts(cfg, s);
    var j := cfg.codec.des(p.justify);
    if j.Some? && Search(s.chain, j.value.round, j.value.id).Ok? {
      var parent := Search(s.chain, j.value.round, j.value.id).value;
      var n := QC(p.round, p.id, j.value.round, j.value.id, p.peer);
      SearchFound(s.chain, j.value.round, j.value.id, parent);
      InsertTaken(s.chain.tree, n, cfg.codec.ser(n), parent);
      ExecuteErrors(cfg.codec, s.chain, n);
      if Taken(s.chain.tree, p.round, p.id, parent) {
        AdoptCuts(cfg.codec, s.chain, n, parent);
      }
    }
  }

  lemma ExecuteErrors(c: Codec, s: Chain, n: QC)
    requires ChainOk(c, s) && Faithful(c)
    ensures var r := Insert(s.tree, n.round, n.id, Some(c.ser(n)), n.parentID);
      ExecuteNInsert(c, s, n).1 == if r.Err? then Some(InTree(r.error)) else None
    ensures ExecuteNInsert(c, s, n).1.Some? ==> ExecuteNInsert(c, s, n).0 == s
  {
    hide HistoryOk, TreeOk, Live, ChainOk, Insert, Redirect, Faithful, Advances, Extends;
    ChainFacts(c, s);
    ExecuteKeepsChain(c, s, n);
  }

  /** Redirects and insertions alone never lose high. */
  lemma ExecuteLive(c: Codec, s: Chain, n: QC)
    requires ChainOk(c, s) && Faithful(c) && Live(s.tree, s.high)
    ensures var u := ExecuteNInsert(c, s, n).0; ChainOk(c, u) && Live(u.tree, u.high) && u.tree.root == s.tree.root
  {
    hide HistoryOk, TreeOk, Live, ChainOk, Redirect, Faithful, Advances, Insert, LookUp;
    ChainFacts(c, s);
    ExecuteKeepsChain(c, s, n);
    ExecuteErrors(c, s, n);
    if ExecuteNInsert(c, s, n).1.None? {
      LiveInside(s.tree, s.high);
      var p := LookUp(s.tree, n.parentID).value;
      LookUpExact(s.tree, n.parentID, p);
      InsertedUnder(c, s, n, p);
    }
  }

  lemma VoteLive(c: Codec, s: Chain, q: QC)
    requires ChainOk(c, s) && Live(s.tree, s.high)
    ensures var u := ProcessVote(c, s, q).0; ChainOk(c, u) && Live(u.tree, u.high) && u.tree == s.tree
  {
    hide HistoryOk, TreeOk, Live, ChainOk, Redirect, Advances, LookUp;
    ChainFacts(c, s);
    VoteKeepsChain(c, s, q);
    if LookUp(s.tree, q.id).Some? {
      var b := LookUp(s.tree, q.id).value;
      LookUpExact(s.tree, q.id, b);
      RedirectEffect(c, s, b);
    }
  }

  lemma TimeoutLive(cfg: Config, s: Replica, t: TimeoutMsg, nextID: Bytes)
    requires ReplicaOk(cfg, s) && Live(s.chain.tree, s.chain.high)
    ensures Steppable(cfg, s)
    ensures var u := StepTimeout(cfg, s, t, nextID).0.chain; Live(u.tree, u.high) && u.tree.root == s.chain.tree.root
  {
    hide ReplicaOk, HistoryOk, TreeOk, Live, ChainOk, ExecuteNInsert, ProcessVote, Faithful, AddTimeout, TwoThirds, TallyAt,
      ValidatorsAt, TimeoutID, LeaderAt, CheckSender;
    OkFacts(cfg, s);
    var q := QC(t.round, TimeoutID(t.round, t.index), t.parentRound, t.parentID, t.sender);
    ExecuteLive(cfg.codec, s.chain, q);
    VoteLive(cfg.codec, ExecuteNInsert(cfg.codec, s.chain, q).0, q);
  }

  /** A step loses a live high exactly when it is such a proposal; no other kind of step moves the root. */
  lemma StepLoses(cfg: Config, s: Replica, e: Event)
    requires ReplicaOk(cfg, s) && Admissible(e) && Live(s.chain.tree, s.chain.high)
    ensures Steppable(cfg, s)
    ensures var u := Step(cfg, s, e).0.chain;
      && (Live(u.tree, u.high) <==> !Loses(cfg, s, e))
      && (!e.OnProposal? ==> u.tree.root == s.chain.tree.root)
  {
    hide ReplicaOk, StepProposal, StepVote, StepTimeout, Live, HistoryOk, TreeOk, ChainOk;
    OkFacts(cfg, s);
    match e
    case OnProposal(p) => ProposalLoses(cfg, s, p);
    case OnVote(v, nextID) =>
      VoteCases(cfg, s, v, nextID);
      VoteLive(cfg.codec, s.chain, QC(v.round, v.id, v.parentRound, v.parentID, v.sender));
    case OnTimeout(t, nextID) => TimeoutLive(cfg, s, t, nextID);
    case OnTick(_) =>
    case OnUpdate(_, _) =>
  }

  // ---- Runs ----

  /** High is live in every state up to k if and only if no event before that loses it. */
  lemma {:induction false} HighLiveExactly(cfg: Config, run: seq<Replica>, events: seq<Event>, k: nat)
    requires IsRun(cfg, run, events) && k < |run|
    ensures (forall i :: 0 <= i <= k ==> Live(run[i].chain.tree, run[i].chain.high)) <==>
            (forall i :: 0 <= i < k ==> !Loses(cfg, run[i], events[i]))
  {
    hide ReplicaOk, Step, Initial, Loses, Live, Steppable;
    if k == 0 {
      InitialLive(cfg, run[0]);
    } else {
      HighLiveExactly(cfg, run, events, k - 1);
      RunOk(cfg, run, events, k - 1);
      assert Steps(cfg, run[k - 1], events[k - 1], run[k]);
      if Live(run[k - 1].chain.tree, run[k - 1].chain.high) {
        StepLoses(cfg, run[k - 1], events[k - 1]);
      }
    }
  }

  lemma InitialLive(cfg: Config, s: Replica)
    requires Initial(cfg, s)
    ensures Live(s.chain.tree, s.chain.high)
  {
    hide Faithful;
  }

  /** High is live exactly when Search finds it under the round and the identifier its certificate names. */
  lemma JustifyFoundExactly(cfg: Config, run: seq<Replica>, events: seq<Event>, k: nat)
    requires IsRun(cfg, run, events) && k < |run|
    ensures var s := run[k].chain;
      && TreeOk(s.tree) && s.high < |s.tree.hist|
      && Names(cfg.codec, s.tree.hist[s.high].value, HighRound(s), s.tree.hist[s.high].id)
      && (Live(s.tree, s.high) <==> Search(s, HighRound(s), s.tree.hist[s.high].id) == Ok(s.high))
  {
    hide ReplicaOk, IsRun, ChainOk, TreeOk, HistoryOk, Live, LookUp;
    RunOk(cfg, run, events, k);
    OkFacts(cfg, run[k]);
    ReplicaChain(cfg, run[k]);
    ChainFacts(cfg.codec, run[k].chain);
    LookUpExact(run[k].chain.tree, run[k].chain.tree.hist[run[k].chain.high].id, run[k].chain.high);
  }
}
