/** The vote and timeout quorums of a run: when they form, and the validator lists they are quorums of. */
module QuorumRuns {
  import opened Basics
  import opened ChainSpec
  import opened TallySpec
  import opened Election
  import opened TimeoutNames
  import opened ReplicaSpec
  import opened ReplicaSafety
  import opened ReplicaRuns

  /** Every validator list that was in force for this round at some moment up to k. */
  ghost function Lists(run: seq<Replica>, k: nat, round: int): set<PeerID>
    requires k < |run|
  {
    Elements(ValidatorsAt(run[k].election, round)) + if k == 0 then {} else Lists(run, k - 1, round)
  }

  /** The tallies and the quorums of this round hold validators from these lists only. */
  ghost predicate Drawn<K(!new)>(sets: Tallies<K>, quorums: seq<Quorum<K>>, round: int, lists: set<PeerID>) {
    && (forall k :: TallyAt(sets, round, k).validators <= lists)
    && (forall a :: 0 <= a < |quorums| && quorums[a].round == round ==> quorums[a].validators <= lists)
  }

  ghost predicate BothDrawn(s: Replica, round: int, lists: set<PeerID>) {
    && Drawn(s.votes.sets, s.quorums, round, lists)
    && Drawn(s.timeouts.sets, s.timeoutQuorums, round, lists)
  }

  // ---- What a step does to tallies and quorums ----

  /** The log is as it was, or one quorum longer, and that one holds the whole list in force for its round. */
  ghost predicate Grows<K>(e: Schedule, quorums: seq<Quorum<K>>, after: seq<Quorum<K>>) {
    || after == quorums
    || (|after| == |quorums| + 1 && quorums <= after
        && Elements(ValidatorsAt(e, after[|quorums|].round)) <= after[|quorums|].validators)
  }

  lemma CountDraws<K(!new)>(sets: Tallies<K>, quorums: seq<Quorum<K>>, u: Tallies<K>, r: int, key: K, list: seq<PeerID>,
                            round: int, lists: set<PeerID>)
    requires Drawn(sets, quorums, round, lists) && OnlyAt(sets, u, r, key) && (r == round ==> Elements(list) <= lists)
    requires TallyAt(u, r, key).validators == TallyAt(sets, r, key).validators + Elements(list)
    ensures var t := TallyAt(u, r, key);
      && Drawn(u, quorums, round, lists)
      && Drawn(u, quorums + [Quorum(r, key, t.count, t.validators)], round, lists)
  {
    hide TallyAt;
  }

  lemma VoteLogs(cfg: Config, s: Replica, v: VoteMsg, nextID: Bytes)
    requires ReplicaOk(cfg, s)
    ensures Steppable(cfg, s)
    ensures var u := StepVote(cfg, s, v, nextID).0;
      var list := ValidatorsAt(s.election, v.round);
      var votes := AddVote(s.votes, v.round, v.id, v.sender, list);
      var tally := TallyAt(votes.sets, v.round, v.id);
      u.election == s.election && u.timeouts == s.timeouts && u.timeoutQuorums == s.timeoutQuorums
      && ((u.votes == s.votes && u.quorums == s.quorums)
          || (v.sender in list && u.votes == CheckVotes(votes, v.round, v.id)
              && u.quorums == if TwoThirds(tally) then s.quorums + [Quorum(v.round, v.id, tally.count, tally.validators)]
                              else s.quorums))
  {
    hide ReplicaOk, TwoThirds, AddVote, CheckVotes, TallyAt, ValidatorsAt, LeaderAt, Search, ProcessVote, Faithful;
    OkFacts(cfg, s);
  }

  lemma OtherLogs(cfg: Config, s: Replica, e: Event)
    requires ReplicaOk(cfg, s) && !e.OnVote? && !e.OnTimeout?
    ensures Steppable(cfg, s)
    ensures var u := Step(cfg, s, e).0;
      && u.votes == s.votes && u.quorums == s.quorums && u.timeouts.sets == s.timeouts.sets && u.timeoutQuorums == s.timeoutQuorums
      && u.election == if e.OnUpdate? then Updated(s.election, e.round, e.next) else s.election
  {
    hide ReplicaOk, TwoThirds, TallyAt, ValidatorsAt, LeaderAt, Search, ExecuteNInsert, CommitAbove, Faithful, CheckProposal, Updated,
      CheckSender;
    OkFacts(cfg, s);
  }

  lemma VoteDraws(cfg: Config, s: Replica, v: VoteMsg, nextID: Bytes, round: int, lists: set<PeerID>)
    requires ReplicaOk(cfg, s) && BothDrawn(s, round, lists) && Elements(ValidatorsAt(s.election, round)) <= lists
    ensures Steppable(cfg, s)
    ensures var u := StepVote(cfg, s, v, nextID).0;
      BothDrawn(u, round, lists) && Grows(s.election, s.quorums, u.quorums) && u.timeoutQuorums == s.timeoutQuorums
  {
    hide ReplicaOk, TwoThirds, AddVote, CheckVotes, TallyAt, ValidatorsAt, StepVote, OnlyAt;
    VoteLogs(cfg, s, v, nextID);
    var list := ValidatorsAt(s.election, v.round);
    var votes := AddVote(s.votes, v.round, v.id, v.sender, list);
    AddVoteEffect(s.votes, v.round, v.id, v.sender, list);
    CountDraws(s.votes.sets, s.quorums, votes.sets, v.round, v.id, list, round, lists);
    CheckVotesEffect(votes, v.round, v.id);
  }

  lemma TimeoutDraws(cfg: Config, s: Replica, t: TimeoutMsg, nextID: Bytes, round: int, lists: set<PeerID>)
    requires ReplicaOk(cfg, s) && BothDrawn(s, round, lists) && Elements(ValidatorsAt(s.election, round)) <= lists
    ensures Steppable(cfg, s)
    ensures var u := StepTimeout(cfg, s, t, nextID).0;
      && BothDrawn(u, round, lists) && Grows(s.election, s.timeoutQuorums, u.timeoutQuorums) && u.quorums == s.quorums
      && u.election == s.election
  {
    hide ReplicaOk, TwoThirds, AddTimeout, TallyAt, ValidatorsAt, StepTimeout, OnlyAt, Drawn, ExecuteNInsert, ProcessVote, ChainOk,
      Steppable, NewRoundEvent, TimeoutID;
    TimeoutCases(cfg, s, t, nextID);
    var list := ValidatorsAt(s.election, t.round);
    var after := AddTimeout(s.timeouts, t.round, t.index, t.sender, list);
    AddTimeoutEffect(s.timeouts, t.round, t.index, t.sender, list);
    CountDraws(s.timeouts.sets, s.timeoutQuorums, after.sets, t.round, t.index, list, round, lists);
    if CompletesTimeout(s, t) {
      var s3 := TimeoutQuorumEffect(cfg, s, t, nextID);
      NewRoundKeeps(cfg, s3, nextID);
    }
  }

  /** A step draws on the lists in force, and logs at most one quorum, which holds a whole list in force. */
  lemma StepDraws(cfg: Config, s: Replica, e: Event, round: int, lists: set<PeerID>)
    requires ReplicaOk(cfg, s) && Admissible(e)
    requires BothDrawn(s, round, lists) && Elements(ValidatorsAt(s.election, round)) <= lists
    ensures Steppable(cfg, s)
    ensures var u := Step(cfg, s, e).0;
      && BothDrawn(u, round, lists)
      && Grows(s.election, s.quorums, u.quorums) && Grows(s.election, s.timeoutQuorums, u.timeoutQuorums)
  {
    hide ReplicaOk, BothDrawn, ValidatorsAt, StepVote, StepProposal, StepTimeout, StepTick, Steppable;
    match e
    case OnVote(v, nextID) => VoteDraws(cfg, s, v, nextID, round, lists);
    case OnTimeout(t, nextID) => TimeoutDraws(cfg, s, t, nextID, round, lists);
    case _ =>
      OtherLogs(cfg, s, e);
      SameDrawn(s, Step(cfg, s, e).0, round, lists);
  }

  lemma SameDrawn(s: Replica, u: Replica, round: int, lists: set<PeerID>)
    requires BothDrawn(s, round, lists)
    requires u.votes == s.votes && u.quorums == s.quorums && u.timeouts.sets == s.timeouts.sets && u.timeoutQuorums == s.timeoutQuorums
    ensures BothDrawn(u, round, lists)
  {
  }

  lemma DrawnMore(s: Replica, round: int, a: set<PeerID>, b: set<PeerID>)
    requires BothDrawn(s, round, a) && a <= b
    ensures BothDrawn(s, round, b)
  {
  }

  lemma InitialDrawn(cfg: Config, s: Replica, round: int)
    requires Initial(cfg, s)
    ensures BothDrawn(s, round, {}) && s.quorums == [] && s.timeoutQuorums == []
  {
    hide Faithful;
  }

  // ---- Runs ----

  lemma {:induction false} RunDraws(cfg: Config, run: seq<Replica>, events: seq<Event>, k: nat, round: int)
    requires IsRun(cfg, run, events) && k < |run|
    ensures BothDrawn(run[k], round, Lists(run, k, round))
  {
    hide ReplicaOk, Step, Initial, BothDrawn, Steppable, ValidatorsAt, Admissible;
    if k == 0 {
      InitialDrawn(cfg, run[0], round);
      DrawnMore(run[0], round, {}, Lists(run, 0, round));
    } else {
      RunDraws(cfg, run, events, k - 1, round);
      RunOk(cfg, run, events, k - 1);
      assert Steps(cfg, run[k - 1], events[k - 1], run[k]);
      StepDraws(cfg, run[k - 1], events[k - 1], round, Lists(run, k - 1, round));
      DrawnMore(run[k], round, Lists(run, k - 1, round), Lists(run, k, round));
    }
  }

  /** The log grew from nothing, step by step. */
  ghost predicate Grown<K>(run: seq<Replica>, k: nat, logs: seq<seq<Quorum<K>>>)
    requires k < |run|
  {
    && |logs| == k + 1 && logs[0] == []
    && forall j :: 0 <= j < k ==> Grows(run[j].election, logs[j], logs[j + 1])
  }

  lemma {:induction false} RunGrows(cfg: Config, run: seq<Replica>, events: seq<Event>, k: nat)
    requires IsRun(cfg, run, events) && k < |run|
    ensures Grown(run, k, seq(k + 1, j requires 0 <= j <= k => run[j].quorums))
    ensures Grown(run, k, seq(k + 1, j requires 0 <= j <= k => run[j].timeoutQuorums))
  {
    hide ReplicaOk, Step, Initial, BothDrawn, Steppable, Grows, Admissible;
    InitialDrawn(cfg, run[0], 0);
    forall j | 0 <= j < k
      ensures Grows(run[j].election, run[j].quorums, run[j + 1].quorums)
      ensures Grows(run[j].election, run[j].timeoutQuorums, run[j + 1].timeoutQuorums)
    {
      RunOk(cfg, run, events, j);
      assert Steps(cfg, run[j], events[j], run[j + 1]);
      RunDraws(cfg, run, events, j, 0);
      StepDraws(cfg, run[j], events[j], 0, Lists(run, j, 0));
    }
  }

  /** Every logged quorum holds the whole list that was in force when it was completed, at some earlier moment j. */
  lemma {:induction false} QuorumLogged<K>(run: seq<Replica>, k: nat, logs: seq<seq<Quorum<K>>>, a: nat) returns (j: nat)
    requires k < |run| && Grown(run, k, logs) && a < |logs[k]|
    ensures j < k && Elements(ValidatorsAt(run[j].election, logs[k][a].round)) <= logs[k][a].validators
    decreases k
  {
    hide ValidatorsAt, Elements;
    if k == 0 {
      assert false;
    } else {
      assert Grows(run[k - 1].election, logs[k - 1], logs[k]);
      if a < |logs[k - 1]| {
        j := QuorumLogged(run, k - 1, logs[..k], a);
      } else {
        j := k - 1;
      }
    }
  }

  /** No accepted update up to moment k changes who validates this round. */
  ghost predicate Settled(run: seq<Replica>, events: seq<Event>, k: nat, round: int)
    requires |run| == |events| + 1 && k < |run|
  {
    forall j :: 0 <= j < k && events[j].OnUpdate? ==> !(run[j].election.start < events[j].round <= round)
  }

  lemma {:induction false} SettledLists(cfg: Config, run: seq<Replica>, events: seq<Event>, k: nat, round: int)
    requires IsRun(cfg, run, events) && k < |run| && Settled(run, events, k, round)
    ensures forall j :: 0 <= j <= k ==> ValidatorsAt(run[j].election, round) == ValidatorsAt(run[k].election, round)
    ensures Lists(run, k, round) == Elements(ValidatorsAt(run[k].election, round))
  {
    hide ReplicaOk, StepProposal, StepVote, StepTimeout, StepTick, Initial, Steppable, ValidatorsAt, Updated, NewRoundEvent;
    if k == 0 {
    } else {
      SettledLists(cfg, run, events, k - 1, round);
      var s, e := run[k - 1], events[k - 1];
      RunOk(cfg, run, events, k - 1);
      assert Steps(cfg, s, e, run[k]);
      ScheduleKnown(cfg, s);
      match e
      case OnVote(v, nextID) => VoteLogs(cfg, s, v, nextID);
      case OnTimeout(t, nextID) => TimeoutSchedule(cfg, s, t, nextID);
      case OnUpdate(r, next) =>
        OtherLogs(cfg, s, e);
        UpdateKeepsPast(s.election, r, next, round);
      case OnProposal(_) => OtherLogs(cfg, s, e);
      case OnTick(_) => OtherLogs(cfg, s, e);
    }
  }

  lemma TimeoutSchedule(cfg: Config, s: Replica, t: TimeoutMsg, nextID: Bytes)
    requires ReplicaOk(cfg, s)
    ensures Steppable(cfg, s) && StepTimeout(cfg, s, t, nextID).0.election == s.election
  {
    hide ReplicaOk, StepTimeout, Steppable, NewRoundEvent;
    OkFacts(cfg, s);
    var s3 := TimeoutKeeps(cfg, s, t, nextID);
    NewRoundKeeps(cfg, s3, nextID);
  }

  lemma ScheduleKnown(cfg: Config, s: Replica)
    requires ReplicaOk(cfg, s)
    ensures ScheduleOk(s.election)
  {
  }

  /**
   * A quorum's validators include the list in force when it was completed and come from the lists that were
   * ever in force for its round. When no update reached the round they are exactly its validator list.
   */
  ghost predicate OfSchedule<K>(run: seq<Replica>, events: seq<Event>, k: nat, q: Quorum<K>)
    requires |run| == |events| + 1 && k < |run|
  {
    && q.validators <= Lists(run, k, q.round)
    && (exists j :: 0 <= j < k && Elements(ValidatorsAt(run[j].election, q.round)) <= q.validators)
    && (Settled(run, events, k, q.round) ==> q.validators == Elements(ValidatorsAt(run[k].election, q.round)))
  }

  /**
   * Every vote quorum of a run and every timeout quorum of it: more than two thirds of its validators, no one
   * else, each accepted for that round and identifier or index; and the validators are those of the schedule.
   */
  lemma QuorumIsOfSchedule(cfg: Config, run: seq<Replica>, events: seq<Event>, k: nat, a: nat)
    requires IsRun(cfg, run, events) && k < |run|
    ensures a < |run[k].quorums| ==> QuorumOk(run[k].quorums[a], run[k].accepted) && OfSchedule(run, events, k, run[k].quorums[a])
    ensures a < |run[k].timeoutQuorums| ==>
      QuorumOk(run[k].timeoutQuorums[a], run[k].acceptedTimeouts) && OfSchedule(run, events, k, run[k].timeoutQuorums[a])
  {
    hide ReplicaOk, ValidatorsAt, Step, Initial, QuorumOk, Settled, IsRun, Grown, OfSchedule, BothDrawn;
    RunOk(cfg, run, events, k);
    QuorumKnown(cfg, run[k], a);
    RunGrows(cfg, run, events, k);
    if a < |run[k].quorums| {
      var q := run[k].quorums[a];
      var j := QuorumLogged(run, k, seq(k + 1, j requires 0 <= j <= k => run[j].quorums), a);
      VotesDrawn(cfg, run, events, k, q.round);
      Scheduled(cfg, run, events, k, q, j);
    }
    if a < |run[k].timeoutQuorums| {
      var q := run[k].timeoutQuorums[a];
      var j := QuorumLogged(run, k, seq(k + 1, j requires 0 <= j <= k => run[j].timeoutQuorums), a);
      VotesDrawn(cfg, run, events, k, q.round);
      Scheduled(cfg, run, events, k, q, j);
    }
  }

  lemma VotesDrawn(cfg: Config, run: seq<Replica>, events: seq<Event>, k: nat, round: int)
    requires IsRun(cfg, run, events) && k < |run|
    ensures var lists := Lists(run, k, round);
      && (forall a :: 0 <= a < |run[k].quorums| && run[k].quorums[a].round == round ==> run[k].quorums[a].validators <= lists)
      && (forall a :: 0 <= a < |run[k].timeoutQuorums| && run[k].timeoutQuorums[a].round == round ==>
            run[k].timeoutQuorums[a].validators <= lists)
  {
    hide IsRun, Lists;
    RunDraws(cfg, run, events, k, round);
  }

  lemma Scheduled<K>(cfg: Config, run: seq<Replica>, events: seq<Event>, k: nat, q: Quorum<K>, j: nat)
    requires IsRun(cfg, run, events) && j < k < |run| && q.validators <= Lists(run, k, q.round)
    requires Elements(ValidatorsAt(run[j].election, q.round)) <= q.validators
    ensures OfSchedule(run, events, k, q)
  {
    hide ValidatorsAt, IsRun, Settled, Lists;
    RunLength(cfg, run, events);
    if Settled(run, events, k, q.round) {
      SettledLists(cfg, run, events, k, q.round);
    }
  }

  lemma RunLength(cfg: Config, run: seq<Replica>, events: seq<Event>)
    requires IsRun(cfg, run, events)
    ensures |run| == |events| + 1
  {
  }

  lemma QuorumKnown(cfg: Config, s: Replica, a: nat)
    requires ReplicaOk(cfg, s)
    ensures a < |s.quorums| ==> QuorumOk(s.quorums[a], s.accepted)
    ensures a < |s.timeoutQuorums| ==> QuorumOk(s.timeoutQuorums[a], s.acceptedTimeouts)
  {
  }

  // ---- Quorums form ----

  lemma TallyPasses<K(!new)>(sets: Tallies<K>, accepted: Ballots<K>, quorums: seq<Quorum<K>>, pruned: seq<Quorum<K>>,
                             round: int, key: K, voters: set<PeerID>, lists: set<PeerID>)
    requires Logged(sets, accepted, quorums, pruned) && Drawn(sets, quorums, round, lists) && Remembered(pruned, round)
    requires (forall p :: p in voters ==> (round, key, p) in accepted) && 3 * |voters| > 2 * |lists|
    ensures exists a :: 0 <= a < |quorums| && quorums[a].round == round && quorums[a].key == key
  {
    hide TallyAt, Remembered;
    var t := TallyAt(sets, round, key);
    assert voters <= t.count && t.count <= t.validators;
    assert t.count * t.validators == t.count;
    SubsetSize(voters, t.count);
    SubsetSize(t.validators, lists);
    TwoThirdsExact(t);
    assert TwoThirds(TallyAt(sets, round, key));
  }

  /**
   * Votes are kept until they count: as soon as more than two thirds of the validators of a round have been
   * accepted for one block, in any order and over any number of steps, a quorum for it is logged, unless a
   * quorum at least three rounds further on has made the set forget the round.
   */
  lemma VoteQuorumForms(cfg: Config, run: seq<Replica>, events: seq<Event>, k: nat, round: int, id: Bytes, voters: set<PeerID>)
    requires IsRun(cfg, run, events) && k < |run| && Remembered(run[k].quorums, round)
    requires forall p :: p in voters ==> (round, id, p) in run[k].accepted
    requires 3 * |voters| > 2 * |Lists(run, k, round)|
             || (Settled(run, events, k, round) && 3 * |voters| > 2 * |Elements(ValidatorsAt(run[k].election, round))|)
    ensures exists a :: 0 <= a < |run[k].quorums| && run[k].quorums[a].round == round && run[k].quorums[a].key == id
  {
    hide ReplicaOk, ValidatorsAt, IsRun, Settled, Lists, Drawn, Remembered, Logged;
    RunLength(cfg, run, events);
    if Settled(run, events, k, round) {
      SettledLists(cfg, run, events, k, round);
    }
    RunOk(cfg, run, events, k);
    LedgersKnown(cfg, run[k]);
    RunDraws(cfg, run, events, k, round);
    TallyPasses(run[k].votes.sets, run[k].accepted, run[k].quorums, run[k].quorums, round, id, voters, Lists(run, k, round));
  }

  /** The same for timeouts, which are never forgotten. */
  lemma TimeoutQuorumForms(cfg: Config, run: seq<Replica>, events: seq<Event>, k: nat, round: int, index: int, voters: set<PeerID>)
    requires IsRun(cfg, run, events) && k < |run|
    requires forall p :: p in voters ==> (round, index, p) in run[k].acceptedTimeouts
    requires 3 * |voters| > 2 * |Lists(run, k, round)|
             || (Settled(run, events, k, round) && 3 * |voters| > 2 * |Elements(ValidatorsAt(run[k].election, round))|)
    ensures exists a :: 0 <= a < |run[k].timeoutQuorums| && run[k].timeoutQuorums[a].round == round
                        && run[k].timeoutQuorums[a].key == index
  {
    hide ReplicaOk, ValidatorsAt, IsRun, Settled, Lists, Drawn, Logged;
    RunLength(cfg, run, events);
    if Settled(run, events, k, round) {
      SettledLists(cfg, run, events, k, round);
    }
    RunOk(cfg, run, events, k);
    LedgersKnown(cfg, run[k]);
    RunDraws(cfg, run, events, k, round);
    TallyPasses(run[k].timeouts.sets, run[k].acceptedTimeouts, run[k].timeoutQuorums, [], round, index, voters, Lists(run, k, round));
  }

  lemma LedgersKnown(cfg: Config, s: Replica)
    requires ReplicaOk(cfg, s)
    ensures LedgersOk(s)
  {
  }

  // ---- Rounds and accountability ----

  /**
   * A vote starts a round only by completing a quorum for its own round and identifier: more than two
   * thirds of a validator set that holds the whole list now in force for the round, and that is this list
   * if no update reached the round.
   */
  lemma RoundsAreBacked(cfg: Config, run: seq<Replica>, events: seq<Event>, k: nat)
    requires IsRun(cfg, run, events) && k < |events| && events[k].OnVote? && run[k + 1].ticks != run[k].ticks
    ensures |run[k + 1].quorums| == |run[k].quorums| + 1
    ensures var q := run[k + 1].quorums[|run[k].quorums|];
      && q.round == events[k].v.round && q.key == events[k].v.id
      && QuorumOk(q, run[k + 1].accepted)
      && Elements(ValidatorsAt(run[k].election, q.round)) <= q.validators
      && (Settled(run, events, k + 1, q.round) ==> q.validators == Elements(ValidatorsAt(run[k].election, q.round)))
  {
    hide StepVote, ReplicaOk, NewRoundEvent, QuorumOk, Moves, Steppable, ValidatorsAt, Initial, Settled, Admissible;
    assert Steps(cfg, run[k], events[k], run[k + 1]);
    RunOk(cfg, run, events, k);
    var s3 := VoteKeeps(cfg, run[k], events[k].v, events[k].nextID);
    NewRoundKeeps(cfg, s3, events[k].nextID);
    QuorumIsOfSchedule(cfg, run, events, k + 1, |run[k].quorums|);
    VoteLogs(cfg, run[k], events[k].v, events[k].nextID);
  }

  /** A timeout starts a round only by completing a quorum for its own round and index, of the schedule's validators. */
  lemma TimeoutRoundsAreBacked(cfg: Config, run: seq<Replica>, events: seq<Event>, k: nat)
    requires IsRun(cfg, run, events) && k < |events| && events[k].OnTimeout? && run[k + 1].ticks != run[k].ticks
    ensures |run[k + 1].timeoutQuorums| == |run[k].timeoutQuorums| + 1
    ensures var q := run[k + 1].timeoutQuorums[|run[k].timeoutQuorums|];
      && q.round == events[k].t.round && q.key == events[k].t.index
      && QuorumOk(q, run[k + 1].acceptedTimeouts) && OfSchedule(run, events, k + 1, q)
  {
    hide StepTimeout, ReplicaOk, NewRoundEvent, QuorumOk, Moves, Steppable, ValidatorsAt, Initial, OfSchedule, Admissible, TwoThirds,
      TimeoutTally;
    assert Steps(cfg, run[k], events[k], run[k + 1]);
    RunOk(cfg, run, events, k);
    var s3 := TimeoutKeeps(cfg, run[k], events[k].t, events[k].nextID);
    if CompletesTimeout(run[k], events[k].t) {
      s3 := TimeoutQuorumEffect(cfg, run[k], events[k].t, events[k].nextID);
    }
    QuorumIsOfSchedule(cfg, run, events, k + 1, |run[k].timeoutQuorums|);
  }

  /**
   * Accountability: two quorums of a run for rounds with the same n validators share more than n/3 of
   * those validators, and each one shared was accepted as a voter on both sides; so if the identifiers
   * differ they voted twice.
   */
  lemma QuorumsShareVoters(cfg: Config, run: seq<Replica>, events: seq<Event>, k: nat, a: nat, b: nat)
    requires IsRun(cfg, run, events) && k < |run| && a < |run[k].quorums| && b < |run[k].quorums|
    requires Settled(run, events, k, run[k].quorums[a].round) && Settled(run, events, k, run[k].quorums[b].round)
    requires Elements(ValidatorsAt(run[k].election, run[k].quorums[a].round)) ==
             Elements(ValidatorsAt(run[k].election, run[k].quorums[b].round))
    ensures var p, q := run[k].quorums[a], run[k].quorums[b];
      var list := Elements(ValidatorsAt(run[k].election, p.round));
      && p.voters * q.voters <= list
      && 3 * |p.voters * q.voters| > |list|
      && forall v :: v in p.voters * q.voters ==> (p.round, p.key, v) in run[k].accepted && (q.round, q.key, v) in run[k].accepted
  {
    hide ReplicaOk, ValidatorsAt, IsRun, Settled, Lists;
    QuorumIsOfSchedule(cfg, run, events, k, a);
    QuorumIsOfSchedule(cfg, run, events, k, b);
    var p, q := run[k].quorums[a], run[k].quorums[b];
    assert p.voters * p.validators == p.voters && q.voters * p.validators == q.voters;
    QuorumsIntersect(p.voters, q.voters, p.validators);
    assert p.voters * q.voters * p.validators == p.voters * q.voters;
  }
}
