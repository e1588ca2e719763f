/** The vote and timeout tallies of state/set.go as values, and what a quorum means. */
module TallySpec {
  import opened Basics

  /** RoundVoteSet and RoundTimeoutSet: who was counted, and every validator list seen. */
  datatype Tally = Tally(count: set<PeerID>, validators: set<PeerID>)

  const EMPTY := Tally({}, {})

  type Tallies<!K> = map<int, map<K, Tally>>

  function TallyAt<K>(sets: Tallies<K>, round: int, key: K): Tally {
    if round in sets && key in sets[round] then sets[round][key] else EMPTY
  }

  function WithTally<K>(sets: Tallies<K>, round: int, key: K, tally: Tally): Tallies<K> {
    sets[round := (if round in sets then sets[round] else map[])[key := tally]]
  }

  lemma WithTallyAt<K>(sets: Tallies<K>, round: int, key: K, a: Tally, b: Tally)
    ensures TallyAt(WithTally(sets, round, key, a), round, key) == a
    ensures WithTally(WithTally(sets, round, key, a), round, key, b) == WithTally(sets, round, key, b)
  {
    var inner := if round in sets then sets[round] else map[];
    assert inner[key := a][key := b] == inner[key := b];
  }

  function Counted(tally: Tally, sender: PeerID, validators: seq<PeerID>): Tally {
    Tally(tally.count + {sender}, tally.validators + Elements(validators))
  }

  function TwoThirds(tally: Tally): bool {
    |tally.count * tally.validators| > |tally.validators| * 2 / 3
  }

  /** The integer test is exactly "more than two thirds". */
  lemma TwoThirdsExact(tally: Tally)
    ensures TwoThirds(tally) <==> 3 * |tally.count * tally.validators| > 2 * |tally.validators|
  {
    var n := |tally.validators|;
    assert n * 2 == n * 2 / 3 * 3 + n * 2 % 3;
  }

  /** Two quorums over the same n validators share more than n/3 of them. */
  lemma QuorumsIntersect(a: set<PeerID>, b: set<PeerID>, v: set<PeerID>)
    requires 3 * |a * v| > 2 * |v| && 3 * |b * v| > 2 * |v|
    ensures 3 * |a * b * v| > |v|
  {
    var x, y := a * v, b * v;
    assert x * y == a * b * v;
    SubsetSize(x + y, v);
    assert |x + y| == |x| + |y| - |x * y|;
  }

  lemma {:induction false} SubsetSize<T>(x: set<T>, y: set<T>)
    requires x <= y
    ensures |x| <= |y|
  {
    if x == {} {
    } else {
      var e :| e in x;
      SubsetSize(x - {e}, y - {e});
    }
  }

  // ---- Ledgers ----

  /** A voter, or a timed-out peer, for a round and an identifier or index. */
  type Ballots<!K(==)> = set<(int, K, PeerID)>

  /** A tally that passed the threshold, as it was then. */
  datatype Quorum<K> = Quorum(round: int, key: K, voters: set<PeerID>, validators: set<PeerID>)

  /** More than two thirds of the validators, and no one else, each accepted for this round and key. */
  ghost predicate QuorumOk<K(!new)>(q: Quorum<K>, accepted: Ballots<K>) {
    && q.voters <= q.validators
    && 3 * |q.voters| > 2 * |q.validators|
    && forall p :: p in q.voters ==> (q.round, q.key, p) in accepted
  }

  /** Everyone counted was accepted for exactly that round and key, and was on a validator list of the round. */
  ghost predicate Backed<K(!new)>(sets: Tallies<K>, accepted: Ballots<K>) {
    forall r, k, p :: p in TallyAt(sets, r, k).count ==> (r, k, p) in accepted && p in TallyAt(sets, r, k).validators
  }

  /** No quorum so far has made the set forget this round. */
  ghost predicate Remembered<K(!new)>(quorums: seq<Quorum<K>>, round: int) {
    forall a :: 0 <= a < |quorums| ==> quorums[a].round - CHAINED_STEP < round
  }

  /** Everyone accepted for a remembered round is counted. */
  ghost predicate Kept<K(!new)>(sets: Tallies<K>, accepted: Ballots<K>, pruned: seq<Quorum<K>>) {
    forall r, k, p :: (r, k, p) in accepted && Remembered(pruned, r) ==> p in TallyAt(sets, r, k).count
  }

  /** A tally past the threshold has been logged as a quorum. */
  ghost predicate Announced<K(!new)>(sets: Tallies<K>, quorums: seq<Quorum<K>>) {
    forall r, k :: TwoThirds(TallyAt(sets, r, k)) ==> exists a :: 0 <= a < |quorums| && quorums[a].round == r && quorums[a].key == k
  }

  /** The tallies hold exactly what was accepted and not forgotten, and quorums are logged exactly when they form. */
  ghost predicate Logged<K(!new)>(sets: Tallies<K>, accepted: Ballots<K>, quorums: seq<Quorum<K>>, pruned: seq<Quorum<K>>) {
    && Backed(sets, accepted) && Kept(sets, accepted, pruned) && Announced(sets, quorums)
    && forall a :: 0 <= a < |quorums| ==> QuorumOk(quorums[a], accepted)
  }

  /** No tally but this one has changed. */
  ghost predicate OnlyAt<K(!new)>(sets: Tallies<K>, u: Tallies<K>, round: int, key: K) {
    forall r, k :: (r != round || k != key) ==> TallyAt(u, r, k) == TallyAt(sets, r, k)
  }

  /** Counting one accepted validator, and logging the quorum if that completes one. */
  lemma CountLogged<K(!new)>(sets: Tallies<K>, accepted: Ballots<K>, quorums: seq<Quorum<K>>, pruned: seq<Quorum<K>>,
                             u: Tallies<K>, round: int, key: K, sender: PeerID)
    requires Logged(sets, accepted, quorums, pruned)
    requires TallyAt(u, round, key).count == TallyAt(sets, round, key).count + {sender}
    requires TallyAt(u, round, key).validators >= TallyAt(sets, round, key).validators + {sender}
    requires OnlyAt(sets, u, round, key)
    ensures var t := TallyAt(u, round, key);
      Logged(u, accepted + {(round, key, sender)},
             if TwoThirds(t) then quorums + [Quorum(round, key, t.count, t.validators)] else quorums, pruned)
  {
    hide TallyAt, TwoThirds, Remembered;
    var t := TallyAt(u, round, key);
    var more := accepted + {(round, key, sender)};
    var q := Quorum(round, key, t.count, t.validators);
    var after := if TwoThirds(t) then quorums + [q] else quorums;
    assert t.count <= t.validators && forall p :: p in t.count ==> (round, key, p) in more;
    if TwoThirds(t) {
      TwoThirdsExact(t);
      assert t.count * t.validators == t.count;
      assert QuorumOk(q, more);
    }
    forall r, k | TwoThirds(TallyAt(u, r, k)) ensures exists a :: 0 <= a < |after| && after[a].round == r && after[a].key == k {
      if r == round && k == key {
        assert after[|quorums|] == q;
      } else {
        var a :| 0 <= a < |quorums| && quorums[a].round == r && quorums[a].key == k;
        assert after[a] == quorums[a];
      }
    }
    forall a | 0 <= a < |after| ensures QuorumOk(after[a], more) {
      if a < |quorums| {
        assert QuorumOk(quorums[a], accepted);
      }
    }
  }

  /** Forgetting the rounds that a logged quorum makes the set forget. */
  lemma ForgetLogged<K(!new)>(sets: Tallies<K>, accepted: Ballots<K>, quorums: seq<Quorum<K>>, pruned: seq<Quorum<K>>,
                              u: Tallies<K>, last: Quorum<K>)
    requires Logged(sets, accepted, quorums, pruned)
    requires forall r, k :: TallyAt(u, r, k) == if r > last.round - CHAINED_STEP then TallyAt(sets, r, k) else EMPTY
    ensures Logged(u, accepted, quorums, pruned + [last])
  {
    hide TallyAt;
    forall r | Remembered(pruned + [last], r) ensures Remembered(pruned, r) && r > last.round - CHAINED_STEP {
      assert (pruned + [last])[|pruned|] == last;
      assert forall a :: 0 <= a < |pruned| ==> (pruned + [last])[a] == pruned[a];
    }
    assert !TwoThirds(EMPTY);
  }

  // ---- Votes ----

  datatype VoteState = VoteState(latestRound: int, latestID: Bytes, sets: Tallies<Bytes>)

  function NewVotes(rootRound: int): VoteState {
    VoteState(rootRound, [], map[rootRound := map[]])
  }

  function AddVote(s: VoteState, round: int, id: Bytes, sender: PeerID, validators: seq<PeerID>): VoteState {
    var tally := TallyAt(s.sets, round, id);
    var latest := sender !in tally.count && s.latestRound <= round;
    VoteState(if latest then round else s.latestRound, if latest then id else s.latestID,
              WithTally(s.sets, round, id, Counted(tally, sender, validators)))
  }

  /** reset, run when the threshold is passed: whole rounds at least three behind are forgotten. */
  function PruneVotes(s: VoteState, round: int): VoteState {
    s.(sets := map r | r in s.sets && r > round - CHAINED_STEP :: s.sets[r])
  }

  function CheckVotes(s: VoteState, round: int, id: Bytes): VoteState {
    if TwoThirds(TallyAt(s.sets, round, id)) then PruneVotes(s, round) else s
  }

  /**
   * Counting a vote changes no other tally and counts its sender, once; the list it was checked against
   * joins the tally's validators. A first vote for the latest round or a later one is the latest.
   */
  lemma AddVoteEffect(s: VoteState, round: int, id: Bytes, sender: PeerID, validators: seq<PeerID>)
    ensures var u := AddVote(s, round, id, sender, validators);
      && TallyAt(u.sets, round, id).validators == TallyAt(s.sets, round, id).validators + Elements(validators)
      && TallyAt(u.sets, round, id).count == TallyAt(s.sets, round, id).count + {sender}
      && OnlyAt(s.sets, u.sets, round, id)
      && (if sender !in TallyAt(s.sets, round, id).count && s.latestRound <= round then (u.latestRound, u.latestID) == (round, id)
          else (u.latestRound, u.latestID) == (s.latestRound, s.latestID))
  {
    assert TallyAt(AddVote(s, round, id, sender, validators).sets, round, id) ==
      Counted(TallyAt(s.sets, round, id), sender, validators);
  }

  /** Past the threshold the rounds at least three behind are forgotten, all of them, and no other tally changes. */
  lemma CheckVotesEffect(s: VoteState, round: int, id: Bytes)
    ensures var u := CheckVotes(s, round, id);
      forall r, i :: TallyAt(u.sets, r, i) ==
        if TwoThirds(TallyAt(s.sets, round, id)) && r <= round - CHAINED_STEP then EMPTY else TallyAt(s.sets, r, i)
  {
  }

  /** One accepted vote, counted and checked, keeps the ledger. */
  lemma VoteLogged(s: VoteState, accepted: Ballots<Bytes>, quorums: seq<Quorum<Bytes>>,
                   round: int, id: Bytes, sender: PeerID, validators: seq<PeerID>)
    requires Logged(s.sets, accepted, quorums, quorums) && sender in validators
    ensures var votes := AddVote(s, round, id, sender, validators);
      var t := TallyAt(votes.sets, round, id);
      var after := if TwoThirds(t) then quorums + [Quorum(round, id, t.count, t.validators)] else quorums;
      Logged(CheckVotes(votes, round, id).sets, accepted + {(round, id, sender)}, after, after)
  {
    hide Logged, AddVote, CheckVotes, TallyAt, TwoThirds, OnlyAt;
    var votes := AddVote(s, round, id, sender, validators);
    AddVoteEffect(s, round, id, sender, validators);
    assert sender in Elements(validators);
    CheckVotesEffect(votes, round, id);
    CountLogged(s.sets, accepted, quorums, quorums, votes.sets, round, id, sender);
    var t := TallyAt(votes.sets, round, id);
    if TwoThirds(t) {
      var q := Quorum(round, id, t.count, t.validators);
      ForgetLogged(votes.sets, accepted + {(round, id, sender)}, quorums + [q], quorums, CheckVotes(votes, round, id).sets, q);
    } else {
      assert CheckVotes(votes, round, id) == votes by { Unchecked(votes, round, id); }
    }
  }

  lemma Unchecked(s: VoteState, round: int, id: Bytes)
    requires !TwoThirds(TallyAt(s.sets, round, id))
    ensures CheckVotes(s, round, id) == s
  {
  }

  // ---- Timeouts ----

  datatype TimeoutState = TimeoutState(latestRound: int, latestIndex: int, sets: Tallies<int>)

  function NewTimeouts(rootRound: int, index: int): TimeoutState {
    TimeoutState(rootRound, index, map[rootRound := map[index := EMPTY]])
  }

  /** TimeoutSet.Reset, and the tail of AddTimeout. */
  function Raise(s: TimeoutState, round: int, index: int): TimeoutState {
    if round > s.latestRound then s.(latestRound := round, latestIndex := index)
    else if round == s.latestRound && index > s.latestIndex then s.(latestIndex := index)
    else s
  }

  function AddTimeout(s: TimeoutState, round: int, index: int, sender: PeerID, validators: seq<PeerID>): TimeoutState {
    var tally := TallyAt(s.sets, round, index);
    var u := s.(sets := WithTally(s.sets, round, index, Counted(tally, sender, validators)));
    if sender in tally.count then u else Raise(u, round, index)
  }

  /**
   * Counting a timeout changes no other tally and counts its sender, once, and no one else; the list it was
   * checked against joins the tally's validators.
   */
  lemma AddTimeoutEffect(s: TimeoutState, round: int, index: int, sender: PeerID, validators: seq<PeerID>)
    ensures var u := AddTimeout(s, round, index, sender, validators);
      && TallyAt(u.sets, round, index).validators == TallyAt(s.sets, round, index).validators + Elements(validators)
      && TallyAt(u.sets, round, index).count == TallyAt(s.sets, round, index).count + {sender}
      && OnlyAt(s.sets, u.sets, round, index)
  {
    assert TallyAt(AddTimeout(s, round, index, sender, validators).sets, round, index) ==
      Counted(TallyAt(s.sets, round, index), sender, validators);
  }

  /** One accepted timeout keeps the ledger; timeouts are never forgotten. */
  lemma TimeoutLogged(s: TimeoutState, accepted: Ballots<int>, quorums: seq<Quorum<int>>,
                      round: int, index: int, sender: PeerID, validators: seq<PeerID>)
    requires Logged(s.sets, accepted, quorums, []) && sender in validators
    ensures var u := AddTimeout(s, round, index, sender, validators);
      var t := TallyAt(u.sets, round, index);
      Logged(u.sets, accepted + {(round, index, sender)},
             if TwoThirds(t) then quorums + [Quorum(round, index, t.count, t.validators)] else quorums, [])
  {
    hide Logged, AddTimeout, TallyAt, TwoThirds, OnlyAt;
    AddTimeoutEffect(s, round, index, sender, validators);
    assert sender in Elements(validators);
    CountLogged(s.sets, accepted, quorums, [], AddTimeout(s, round, index, sender, validators).sets, round, index, sender);
  }

  datatype TimeoutOp =
    | Add(round: int, index: int, sender: PeerID, validators: seq<PeerID>)
    | Raised(round: int, index: int)

  function Apply(s: TimeoutState, op: TimeoutOp): TimeoutState {
    match op
    case Add(r, i, p, v) => AddTimeout(s, r, i, p, v)
    case Raised(r, i) => Raise(s, r, i)
  }

  function ApplyAll(s: TimeoutState, ops: seq<TimeoutOp>): TimeoutState {
    if ops == [] then s else Apply(ApplyAll(s, ops[..|ops| - 1]), ops[|ops| - 1])
  }

  predicate LexLe(r: int, i: int, q: int, j: int) {
    r < q || (r == q && i <= j)
  }

  /** A timeout that was counted has been taken into the latest pair. */
  ghost predicate Seen(s: TimeoutState) {
    forall r, i :: TallyAt(s.sets, r, i).count != {} ==> LexLe(r, i, s.latestRound, s.latestIndex)
  }

  /**
   * Over any sequence of calls the latest pair is the lexicographic maximum of the initial pair and
   * every pair passed in: it is one of them, and none is above it.
   */
  lemma {:induction false} LatestIsMaximum(round: int, index: int, ops: seq<TimeoutOp>)
    ensures var s := ApplyAll(NewTimeouts(round, index), ops);
      && Seen(s)
      && LexLe(round, index, s.latestRound, s.latestIndex)
      && (forall k :: 0 <= k < |ops| ==> LexLe(ops[k].round, ops[k].index, s.latestRound, s.latestIndex))
      && ((s.latestRound, s.latestIndex) == (round, index)
          || exists k :: 0 <= k < |ops| && (ops[k].round, ops[k].index) == (s.latestRound, s.latestIndex))
  {
    hide Apply, Seen;
    NewSeen(round, index);
    if ops == [] {
    } else {
      var init, op := ops[..|ops| - 1], ops[|ops| - 1];
      LatestIsMaximum(round, index, init);
      var s := ApplyAll(NewTimeouts(round, index), init);
      var u := Apply(s, op);
      ApplySeen(s, op);
      if (u.latestRound, u.latestIndex) == (s.latestRound, s.latestIndex) {
        if k :| 0 <= k < |init| && (init[k].round, init[k].index) == (s.latestRound, s.latestIndex) {
          assert ops[k] == init[k];
        }
      } else {
        assert ops[|init|] == op;
      }
    }
  }

  lemma NewSeen(round: int, index: int)
    ensures Seen(NewTimeouts(round, index))
  {
  }

  lemma ApplySeen(s: TimeoutState, op: TimeoutOp)
    requires Seen(s)
    ensures var u := Apply(s, op);
      && Seen(u)
      && LexLe(op.round, op.index, u.latestRound, u.latestIndex)
      && LexLe(s.latestRound, s.latestIndex, u.latestRound, u.latestIndex)
      && ((u.latestRound, u.latestIndex) == (s.latestRound, s.latestIndex)
          || (u.latestRound, u.latestIndex) == (op.round, op.index))
  {
    var u := Apply(s, op);
    forall r, i | TallyAt(u.sets, r, i).count != {} ensures LexLe(r, i, u.latestRound, u.latestIndex) {
      if op.Add? && (r, i) == (op.round, op.index) {
        assert op.sender in TallyAt(s.sets, r, i).count ==> TallyAt(s.sets, r, i).count != {};
      } else {
        assert TallyAt(u.sets, r, i) == TallyAt(s.sets, r, i);
      }
    }
    if op.Add? && op.sender in TallyAt(s.sets, op.round, op.index).count {
      assert TallyAt(s.sets, op.round, op.index).count != {};
    }
  }
}
