/** state/set.go on the heap: nested maps updated entry by entry, counted and pruned by loops. */
module Tallies {
  import opened Basics
  import opened TallySpec

  /** The key a Go map iteration happens to yield next. */
  method Next<K(==)>(todo: set<K>) returns (k: K)
    requires todo != {}
    ensures k in todo
  {
    k :| k in todo;
  }

  /** lens in HasTwoThirdsAny: the counted peers that are validators, in any iteration order. */
  method CountValidators(tally: Tally) returns (lens: nat)
    ensures lens == |tally.count * tally.validators|
  {
    lens := 0;
    var todo := tally.count;
    while todo != {}
      invariant todo <= tally.count
      invariant lens == |(tally.count - todo) * tally.validators|
    {
      var peer := Next(todo);
      if peer in tally.validators {
        lens := lens + 1;
        assert (tally.count - (todo - {peer})) * tally.validators == (tally.count - todo) * tally.validators + {peer};
      } else {
        assert (tally.count - (todo - {peer})) * tally.validators == (tally.count - todo) * tally.validators;
      }
      todo := todo - {peer};
    }
    assert tally.count - todo == tally.count;
  }

  /** Adds one validator list to the tally kept for (round, key), which may not exist yet. */
  method Enter<K(==)>(sets: map<int, map<K, Tally>>, round: int, key: K, validators: seq<PeerID>)
    returns (r: map<int, map<K, Tally>>)
    ensures r == WithTally(sets, round, key,
                           TallyAt(sets, round, key).(validators := TallyAt(sets, round, key).validators + Elements(validators)))
  {
    var tally := TallyAt(sets, round, key);
    ghost var before := tally.validators;
    r := WithTally(sets, round, key, tally);
    var i := 0;
    while i < |validators|
      invariant i <= |validators|
      invariant tally == TallyAt(sets, round, key).(validators := before + Elements(validators[..i]))
      invariant r == WithTally(sets, round, key, tally)
    {
      assert Elements(validators[..i + 1]) == Elements(validators[..i]) + {validators[i]};
      WithTallyAt(sets, round, key, tally, tally.(validators := tally.validators + {validators[i]}));
      tally := tally.(validators := tally.validators + {validators[i]});
      r := WithTally(r, round, key, tally);
      i := i + 1;
    }
    assert validators[..i] == validators;
  }

  class VoteSet {
    var latestRound: int
    var latestID: Bytes
    var roundVoteSets: map<int, map<Bytes, Tally>>

    ghost function Abs(): VoteState
      reads this
    {
      VoteState(latestRound, latestID, roundVoteSets)
    }

    constructor (rootRound: int)
      ensures Abs() == NewVotes(rootRound)
    {
      latestRound, latestID := rootRound, [];
      roundVoteSets := map[rootRound := map[]];
    }

    method AddVote(round: int, id: Bytes, sender: PeerID, validators: seq<PeerID>)
      modifies this
      ensures Abs() == TallySpec.AddVote(old(Abs()), round, id, sender, validators)
    {
      var tally := TallyAt(roundVoteSets, round, id);
      ghost var listed := tally.(validators := tally.validators + Elements(validators));
      WithTallyAt(roundVoteSets, round, id, listed, Counted(tally, sender, validators));
      roundVoteSets := Enter(roundVoteSets, round, id, validators);
      tally := TallyAt(roundVoteSets, round, id);
      if sender in tally.count {
        assert tally.count + {sender} == tally.count;
        return;
      }
      roundVoteSets := WithTally(roundVoteSets, round, id, tally.(count := tally.count + {sender}));
      if latestRound <= round {
        latestRound := round;
        latestID := id;
      }
    }

    method HasTwoThirdsAny(round: int, id: Bytes) returns (threshold: bool)
      modifies this
      ensures threshold == TwoThirds(TallyAt(old(roundVoteSets), round, id))
      ensures Abs() == CheckVotes(old(Abs()), round, id)
    {
      var tally := TallyAt(roundVoteSets, round, id);
      var lens := CountValidators(tally);
      threshold := lens > |tally.validators| * 2 / 3;
      if threshold {
        Reset(round);
      }
    }

    method Reset(round: int)
      modifies this
      ensures Abs() == PruneVotes(old(Abs()), round)
    {
      var todo: set<int> := roundVoteSets.Keys;
      ghost var was := roundVoteSets;
      while todo != {}
        invariant todo <= was.Keys
        invariant roundVoteSets == map r | r in was && (r in todo || r > round - CHAINED_STEP) :: was[r]
        invariant latestRound == old(latestRound) && latestID == old(latestID)
      {
        var pround := Next(todo);
        if pround <= round - CHAINED_STEP {
          roundVoteSets := roundVoteSets - {pround};
        }
        todo := todo - {pround};
      }
    }
  }

  class TimeoutSet {
    var latestRound: int
    var latestTimeoutIndex: int
    var timeoutSets: map<int, map<int, Tally>>

    ghost function Abs(): TimeoutState
      reads this
    {
      TimeoutState(latestRound, latestTimeoutIndex, timeoutSets)
    }

    constructor (rootRound: int, index: int)
      ensures Abs() == NewTimeouts(rootRound, index)
    {
      latestRound, latestTimeoutIndex := rootRound, index;
      timeoutSets := map[rootRound := map[index := EMPTY]];
    }

    method AddTimeout(round: int, idx: int, sender: PeerID, validators: seq<PeerID>)
      modifies this
      ensures Abs() == TallySpec.AddTimeout(old(Abs()), round, idx, sender, validators)
    {
      var tally := TallyAt(timeoutSets, round, idx);
      ghost var listed := tally.(validators := tally.validators + Elements(validators));
      WithTallyAt(timeoutSets, round, idx, listed, Counted(tally, sender, validators));
      timeoutSets := Enter(timeoutSets, round, idx, validators);
      tally := TallyAt(timeoutSets, round, idx);
      if sender in tally.count {
        assert tally.count + {sender} == tally.count;
        return;
      }
      timeoutSets := WithTally(timeoutSets, round, idx, tally.(count := tally.count + {sender}));
      Reset(round, idx);
    }

    method Reset(round: int, idx: int)
      modifies this
      ensures Abs() == Raise(old(Abs()), round, idx)
    {
      if round > latestRound {
        latestRound := round;
        latestTimeoutIndex := idx;
        return;
      }
      if round == latestRound && idx > latestTimeoutIndex {
        latestTimeoutIndex := idx;
      }
    }

    method HasTwoThirdsAny(round: int, idx: int) returns (threshold: bool)
      ensures threshold == TwoThirds(TallyAt(timeoutSets, round, idx))
    {
      var tally := TallyAt(timeoutSets, round, idx);
      var lens := CountValidators(tally);
      threshold := lens > |tally.validators| * 2 / 3;
    }

    /** The largest index of every round that has one, whatever order the maps are walked in. */
    method GetTimeoutIdxMap() returns (m: map<int, int>)
      ensures forall r :: r in m <==> r in timeoutSets && timeoutSets[r] != map[]
      ensures forall r :: r in m ==> m[r] in timeoutSets[r] && forall i :: i in timeoutSets[r] ==> i <= m[r]
    {
      m := map[];
      var rounds: set<int> := timeoutSets.Keys;
      while rounds != {}
        invariant rounds <= timeoutSets.Keys
        invariant forall r :: r in m <==> r in timeoutSets && r !in rounds && timeoutSets[r] != map[]
        invariant forall r :: r in m ==> m[r] in timeoutSets[r] && forall i :: i in timeoutSets[r] ==> i <= m[r]
      {
        var round := Next(rounds);
        var idxMap := timeoutSets[round];
        ghost var before := m;
        var todo: set<int> := idxMap.Keys;
        while todo != {}
          invariant todo <= idxMap.Keys
          invariant round in m <==> todo != idxMap.Keys
          invariant m == if round in m then before[round := m[round]] else before
          invariant round in m ==> m[round] in idxMap && forall i :: i in idxMap && i !in todo ==> i <= m[round]
        {
          var idx := Next(todo);
          if round !in m {
            m := m[round := idx];
          } else if m[round] < idx {
            m := m[round := idx];
          }
          todo := todo - {idx};
        }
        rounds := rounds - {round};
      }
    }
  }
}
