/** state/election.go: the history of validator lists, and state/pacemaker.go: the current round. */
module Election {
  import opened Basics

  datatype Epoch = Epoch(start: int, validators: seq<PeerID>)

  datatype Schedule = Schedule(start: int, validators: seq<PeerID>, steps: seq<Epoch>)

  /** Epochs start at strictly increasing rounds, each with someone to lead; the cached pair is the last one. */
  ghost predicate ScheduleOk(e: Schedule) {
    && |e.steps| > 0
    && e.steps[|e.steps| - 1] == Epoch(e.start, e.validators)
    && (forall i, j :: 0 <= i < j < |e.steps| ==> e.steps[i].start < e.steps[j].start)
    && (forall i :: 0 <= i < |e.steps| ==> e.steps[i].validators != [])
  }

  function NewSchedule(start: int, validators: seq<PeerID>): Schedule {
    Schedule(start, validators, [Epoch(start, validators)])
  }

  function ScanBack(steps: seq<Epoch>, n: nat, round: int): seq<PeerID>
    requires n <= |steps|
  {
    if n == 0 then []
    else if round >= steps[n - 1].start then steps[n - 1].validators
    else ScanBack(steps, n - 1, round)
  }

  function ValidatorsAt(e: Schedule, round: int): seq<PeerID> {
    if round >= e.start then e.validators else ScanBack(e.steps, |e.steps|, round)
  }

  /** Go's remainder keeps the sign of the dividend; a negative index aborts the program. */
  function LeaderAt(e: Schedule, round: int): Option<PeerID>
    requires e.validators != []
  {
    var n := |e.validators|;
    if round >= 0 then Some(e.validators[round % n])
    else if -round % n == 0 then Some(e.validators[0])
    else None
  }

  lemma LeaderNamed(e: Schedule, round: int)
    requires e.validators != [] && round >= 0
    ensures LeaderAt(e, round).Some?
  {
  }

  /**
   * Leadership goes round the list: the i-th validator leads the rounds i, i + n, i + 2n and so on, so each
   * leads one of any n rounds in a row. Below round 0 the source's index is negative, except at multiples of n.
   */
  lemma LeaderRotates(e: Schedule, i: nat, q: nat, round: nat) returns (k: nat)
    requires i < |e.validators|
    ensures var n := |e.validators|;
      && LeaderAt(e, q * n + i) == Some(e.validators[i])
      && LeaderAt(e, -(q * n) - i) == (if i == 0 then Some(e.validators[0]) else None)
      && k < n && LeaderAt(e, round + k) == Some(e.validators[i])
  {
    var n := |e.validators|;
    var p: nat;
    Leads(e, q, i);
    k, p := Wait(round, n, i);
    Leads(e, p, i);
  }

  lemma Leads(e: Schedule, q: nat, i: nat)
    requires i < |e.validators|
    ensures var n := |e.validators|;
      LeaderAt(e, q * n + i) == Some(e.validators[i]) && LeaderAt(e, -(q * n) - i) == if i == 0 then Some(e.validators[0]) else None
  {
    var n := |e.validators|;
    Remainder(q, n, i);
    var x := q * n + i;
    assert x >= 0 && -(q * n) - i == -x;
    if x == 0 {
      Remainder(0, n, i);
    }
  }

  /** Within n rounds the remainder i comes up. */
  lemma Wait(round: nat, n: nat, i: nat) returns (k: nat, p: nat)
    requires i < n
    ensures k < n && round + k == p * n + i
  {
    var q, r := round / n, round % n;
    if r <= i {
      k, p := i - r, q;
    } else {
      k, p := i + n - r, q + 1;
      assert p * n == q * n + n;
    }
  }

  function Updated(e: Schedule, round: int, next: seq<PeerID>): Schedule {
    if round <= e.start then e else Schedule(round, next, e.steps + [Epoch(round, next)])
  }

  /** Epoch k is in force at this round. */
  ghost predicate InForce(e: Schedule, k: nat, round: int) {
    && k < |e.steps|
    && e.steps[k].start <= round
    && (k + 1 < |e.steps| ==> round < e.steps[k + 1].start)
  }

  lemma {:induction false} ScanBackExact(e: Schedule, n: nat, k: nat, round: int)
    requires ScheduleOk(e) && InForce(e, k, round) && k < n <= |e.steps|
    ensures ScanBack(e.steps, n, round) == e.steps[k].validators
  {
    if k == n - 1 {
    } else {
      assert e.steps[k + 1].start <= e.steps[n - 1].start;
      ScanBackExact(e, n - 1, k, round);
    }
  }

  /** The validators of a round are those of the one epoch in force; there are none before the first. */
  lemma ValidatorsExact(e: Schedule, k: nat, round: int)
    requires ScheduleOk(e)
    ensures InForce(e, k, round) ==> ValidatorsAt(e, round) == e.steps[k].validators
    ensures round < e.steps[0].start ==> ValidatorsAt(e, round) == []
  {
    if InForce(e, k, round) {
      assert forall j :: 0 <= j < |e.steps| ==> e.steps[j].start <= e.start;
      if round < e.start {
        ScanBackExact(e, |e.steps|, k, round);
      }
    }
    if round < e.steps[0].start {
      assert e.steps[0].start <= e.start;
      ScanBackNone(e, |e.steps|, round);
    }
  }

  lemma {:induction false} ScanBackNone(e: Schedule, n: nat, round: int)
    requires ScheduleOk(e) && round < e.steps[0].start && n <= |e.steps|
    ensures ScanBack(e.steps, n, round) == []
  {
    if n == 0 {
    } else {
      assert e.steps[0].start <= e.steps[n - 1].start;
      ScanBackNone(e, n - 1, round);
    }
  }

  /** A new epoch leaves the validators of every earlier round as they were. */
  lemma UpdateKeepsPast(e: Schedule, round: int, next: seq<PeerID>, q: int)
    requires ScheduleOk(e)
    ensures next != [] ==> ScheduleOk(Updated(e, round, next))
    ensures ValidatorsAt(Updated(e, round, next), q) ==
      if e.start < round <= q then next else ValidatorsAt(e, q)
  {
    if e.start < round && q < round {
      ScanBackPrefix(e.steps, Updated(e, round, next).steps, |e.steps|, q);
    }
  }

  lemma {:induction false} ScanBackPrefix(s: seq<Epoch>, t: seq<Epoch>, n: nat, round: int)
    requires s <= t && n <= |s|
    ensures ScanBack(t, n, round) == ScanBack(s, n, round)
  {
    if n == 0 {
    } else {
      ScanBackPrefix(s, t, n - 1, round);
    }
  }

  class DefaultElection {
    var start: int
    var validators: seq<PeerID>
    var validatorsStep: seq<Epoch>

    ghost function Abs(): Schedule
      reads this
    {
      Schedule(start, validators, validatorsStep)
    }

    constructor (start: int, init: seq<PeerID>)
      ensures Abs() == NewSchedule(start, init)
    {
      this.start, this.validators, this.validatorsStep := start, init, [Epoch(start, init)];
    }

    method Validators(round: int) returns (r: seq<PeerID>)
      ensures r == ValidatorsAt(Abs(), round)
    {
      if round >= start {
        return validators;
      }
      var i := |validatorsStep| - 1;
      while i >= 0
        invariant -1 <= i < |validatorsStep|
        invariant ValidatorsAt(Abs(), round) == ScanBack(validatorsStep, i + 1, round)
      {
        if round >= validatorsStep[i].start {
          return validatorsStep[i].validators;
        }
        i := i - 1;
      }
      r := [];
    }

    /** None is the aborting index. */
    method Leader(round: int) returns (r: Option<PeerID>)
      requires validators != []
      ensures r == LeaderAt(Abs(), round)
    {
      var idx := if round >= 0 then round % |validators| else -(-round % |validators|);
      if idx < 0 {
        return None;
      }
      r := Some(validators[idx]);
    }

    /** False is the error "round invalid". */
    method Update(round: int, next: seq<PeerID>) returns (ok: bool)
      modifies this
      ensures ok == (round > old(start)) && Abs() == Updated(old(Abs()), round, next)
    {
      if round <= start {
        return false;
      }
      validatorsStep := validatorsStep + [Epoch(round, next)];
      start := round;
      validators := next;
      ok := true;
    }
  }

  class DefaultPacemaker {
    var current: int

    constructor (latest: int)
      ensures current == latest + 1
    {
      current := latest + 1;
    }

    method GetCurrentRound() returns (r: int)
      ensures r == current
    {
      r := current;
    }

    /** AdvanceRound and ProcessTimeoutRound have the same body: the round never goes back. */
    method AdvanceRound(r: int)
      modifies this
      ensures current == Max(old(current), r + 1)
    {
      if r + 1 > current {
        current := r + 1;
      }
    }

    method ProcessTimeoutRound(r: int)
      modifies this
      ensures current == Max(old(current), r + 1)
    {
      if r + 1 > current {
        current := r + 1;
      }
    }
  }
}
