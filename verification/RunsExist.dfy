/**
 * The assumptions on a configuration can be met: certificates written as the round in decimal, a separator
 * and the identifier are read back, so there are runs, of every length and with every event.
 */
module RunsExist {
  import opened Basics
  import opened ChainSpec
  import opened TimeoutNames
  import opened ReplicaSpec
  import opened ReplicaSafety
  import opened ReplicaRuns

  ghost function Text(q: QC): Bytes {
    Decimal(q.round) + ([95] + q.id)
  }

  ghost function Read(v: Option<Bytes>): Option<QC> {
    if v.Some? && exists q :: Text(q) == v.value then
      var q :| Text(q) == v.value;
      Some(q)
    else None
  }

  lemma TextIsFaithful()
    ensures Faithful(Codec(q => Text(q), v => Read(v)))
  {
    var c := Codec(q => Text(q), v => Read(v));
    forall q: QC ensures Names(c, c.ser(q), q.round, q.id) {
      var p := Read(Some(Text(q))).value;
      SplitUnique(Decimal(p.round), Decimal(q.round), p.id, q.id);
      DecimalInjective(p.round, q.round);
    }
  }

  /** Any list of events is the list of some run. */
  lemma EveryScheduleRuns(events: seq<Event>)
    requires forall k :: 0 <= k < |events| ==> Admissible(events[k])
    ensures exists cfg: Config, run: seq<Replica> :: IsRun(cfg, run, events)
  {
    var c := Codec(q => Text(q), v => Read(v));
    TextIsFaithful();
    var cfg := Config(c, []);
    var start := c.ser(QC(0, [0], 0, [], []));
    assert Names(c, start, 0, [0]);
    var s := NewReplica(0, 0, [0], start, [[]]);
    assert Initial(cfg, s);
    var run := RunFrom(cfg, s, events);
  }
}
