/** Failover runs one after the other on an unchanged engine registry. */
module FailoverChains {
  import opened HashRing
  import opened RoomState
  import opened Failover

  /** Every playing room is on a healthy pod after an active run, or the run counted it as skipped. */
  lemma HealthyOrSkipped(crc: HashFn, c: Cluster, o: Oracle, t: Table, id: string)
    requires Keyed(t) && Active(c) && id in t.rooms && t.roomData[t.rooms[id]].status == Playing
    ensures var node := FailoverRun(crc, c, o, t).roomData[t.rooms[id]].nodeID;
      (node in c.nodes && c.nodes[node].healthy) || id in SkippedOf(crc, c, o, t, Targets(c, o, t))
  {
    assert t.roomData[t.rooms[id]].id == id;
    if FateOf(crc, c, o, t, id).Migrated? {
      FateIsSound(crc, c, o, t, id);
      assert id in Targets(c, o, t);
    }
  }

  /** A room no run targets, whatever it can read: its pod is healthy, and its snapshot, if there is
      one, does not name another server. */
  ghost predicate Settled(c: Cluster, t: Table, id: string)
    requires Refers(t)
  {
    && id in t.rooms
    && var node := t.roomData[t.rooms[id]].nodeID;
       && node in c.nodes && c.nodes[node].healthy
       && (id in t.store ==> t.store[id].serverID == "" || t.store[id].serverID == c.nodes[node].serverID)
  }

  /** A sequence of runs from table to table. Before each next run late destroys may erase snapshots
      of rooms that this or an earlier run migrated. */
  datatype Chain = Chain(tables: seq<Table>, oracles: seq<Oracle>, lost: seq<set<string>>)

  ghost predicate Follows(crc: HashFn, c: Cluster, ch: Chain, i: nat)
    requires |ch.tables| == |ch.oracles| + 1 == |ch.lost| + 1 && i < |ch.oracles|
  {
    Keyed(ch.tables[i]) && ch.tables[i + 1] == Erase(FailoverRun(crc, c, ch.oracles[i], ch.tables[i]), ch.lost[i])
  }

  ghost predicate Migrates(crc: HashFn, c: Cluster, ch: Chain, i: nat, id: string)
    requires |ch.tables| == |ch.oracles| + 1 == |ch.lost| + 1 && i < |ch.oracles|
  {
    Refers(ch.tables[i]) && id in ch.tables[i].rooms && FateOf(crc, c, ch.oracles[i], ch.tables[i], id).Migrated?
  }

  ghost predicate IsChain(crc: HashFn, c: Cluster, ch: Chain) {
    && |ch.tables| == |ch.oracles| + 1 == |ch.lost| + 1
    && Keyed(ch.tables[0])
    && (forall i :: 0 <= i < |ch.oracles| ==> Follows(crc, c, ch, i))
    && (forall i, id :: 0 <= i < |ch.oracles| && id in ch.lost[i] ==>
          exists j :: 0 <= j <= i && Migrates(crc, c, ch, j, id))
  }

  /** Every migration saves its snapshot at least once. */
  ghost predicate Saves(crc: HashFn, c: Cluster, ch: Chain)
    requires IsChain(crc, c, ch)
  {
    forall i, id :: 0 <= i < |ch.oracles| && Migrates(crc, c, ch, i, id) ==>
      ch.oracles[i](id).save || ch.oracles[i](id).resave
  }

  /** Unless it is settled by then, the next run can read the room's snapshot iff run `i` could. */
  ghost predicate SameRead(c: Cluster, ch: Chain, i: nat, id: string)
    requires |ch.tables| == |ch.oracles| + 1 && i + 1 < |ch.oracles| && Refers(ch.tables[i + 1])
  {
    Settled(c, ch.tables[i + 1], id) || ch.oracles[i + 1](id).probe == ch.oracles[i](id).probe
  }

  ghost predicate SameReads(crc: HashFn, c: Cluster, ch: Chain)
    requires IsChain(crc, c, ch)
  {
    forall i, id {:trigger SameRead(c, ch, i, id)} :: 0 <= i < |ch.oracles| - 1 && Refers(ch.tables[i + 1]) ==>
      SameRead(c, ch, i, id)
  }

  lemma SettledIsNoTarget(c: Cluster, t: Table, id: string, probe: bool)
    requires Refers(t) && Settled(c, t, id)
    ensures !Targeted(c, t, id, probe)
  {
  }

  lemma MigrationSettles(crc: HashFn, c: Cluster, o: Oracle, t: Table, lost: set<string>, id: string)
    requires Keyed(t) && id in t.rooms && FateOf(crc, c, o, t, id).Migrated? && (o(id).save || o(id).resave)
    ensures Refers(Erase(FailoverRun(crc, c, o, t), lost)) && Settled(c, Erase(FailoverRun(crc, c, o, t), lost), id)
  {
    FateIsSound(crc, c, o, t, id);
    MigratedSnapshot(crc, c, o, t, id);
    assert id in Targets(c, o, t);
    assert t.roomData[t.rooms[id]].id == id;
  }

  lemma SettledStaysSettled(crc: HashFn, c: Cluster, o: Oracle, t: Table, lost: set<string>, id: string)
    requires Keyed(t) && Settled(c, t, id)
    ensures Refers(Erase(FailoverRun(crc, c, o, t), lost)) && Settled(c, Erase(FailoverRun(crc, c, o, t), lost), id)
  {
    SettledIsNoTarget(c, t, id, o(id).probe);
    RunKeepsOtherSnapshots(crc, c, o, t, id);
    assert t.roomData[t.rooms[id]].id == id;
  }

  lemma {:induction false} ChainKeeps(crc: HashFn, c: Cluster, ch: Chain, i: nat)
    requires IsChain(crc, c, ch) && i < |ch.tables|
    ensures Keyed(ch.tables[i]) && ch.tables[i].rooms == ch.tables[0].rooms
    ensures forall r :: r in ch.tables[0].roomData ==>
      r in ch.tables[i].roomData && ch.tables[i].roomData[r].status == ch.tables[0].roomData[r].status
  {
    if i > 0 {
      ChainKeeps(crc, c, ch, i - 1);
      assert Follows(crc, c, ch, i - 1);
      RunIsSound(crc, c, ch.oracles[i - 1], ch.tables[i - 1]);
    }
  }

  /** Once migrated, always settled. */
  lemma {:induction false} MigratedStaysSettled(crc: HashFn, c: Cluster, ch: Chain, j: nat, i: nat, id: string)
    requires IsChain(crc, c, ch) && Saves(crc, c, ch) && j < i < |ch.tables| && Migrates(crc, c, ch, j, id)
    ensures Refers(ch.tables[i]) && Settled(c, ch.tables[i], id)
  {
    assert Follows(crc, c, ch, i - 1);
    if i == j + 1 {
      MigrationSettles(crc, c, ch.oracles[j], ch.tables[j], ch.lost[j], id);
    } else {
      MigratedStaysSettled(crc, c, ch, j, i - 1, id);
      SettledStaysSettled(crc, c, ch.oracles[i - 1], ch.tables[i - 1], ch.lost[i - 1], id);
    }
  }

  ghost function PlayingTargets(c: Cluster, ch: Chain, i: nat): set<string>
    requires |ch.tables| == |ch.oracles| + 1 && i < |ch.oracles| && Refers(ch.tables[i])
  {
    var t := ch.tables[i];
    set id | id in Targets(c, ch.oracles[i], t) && t.roomData[t.rooms[id]].status == Playing
  }

  /** What a run migrated, or a late destroy hit, is settled by the next run. */
  lemma HitIsSettled(crc: HashFn, c: Cluster, ch: Chain, i: nat, id: string)
    requires IsChain(crc, c, ch) && Saves(crc, c, ch) && i + 1 < |ch.oracles|
    requires Migrates(crc, c, ch, i, id) || id in ch.lost[i]
    ensures Refers(ch.tables[i + 1]) && Settled(c, ch.tables[i + 1], id)
  {
    var j :| 0 <= j <= i && Migrates(crc, c, ch, j, id);
    MigratedStaysSettled(crc, c, ch, j, i + 1, id);
  }

  lemma TargetIsUnsettled(crc: HashFn, c: Cluster, ch: Chain, i: nat, id: string)
    requires IsChain(crc, c, ch) && Saves(crc, c, ch) && i + 1 < |ch.oracles|
    requires Refers(ch.tables[i + 1]) && id in PlayingTargets(c, ch, i + 1)
    ensures !Settled(c, ch.tables[i + 1], id) && !Migrates(crc, c, ch, i, id) && id !in ch.lost[i]
  {
    if Settled(c, ch.tables[i + 1], id) {
      SettledIsNoTarget(c, ch.tables[i + 1], id, ch.oracles[i + 1](id).probe);
    }
    if Migrates(crc, c, ch, i, id) || id in ch.lost[i] {
      HitIsSettled(crc, c, ch, i, id);
    }
  }

  lemma UnsettledWasTarget(crc: HashFn, c: Cluster, o: Oracle, o': Oracle, t: Table, lost: set<string>, id: string)
    requires Keyed(t) && id !in lost && o'(id).probe == o(id).probe
    requires id in t.rooms ==> !FateOf(crc, c, o, t, id).Migrated?
    requires Refers(Erase(FailoverRun(crc, c, o, t), lost))
    requires var t' := Erase(FailoverRun(crc, c, o, t), lost);
      id in Targets(c, o', t') && t'.roomData[t'.rooms[id]].status == Playing
    ensures id in Targets(c, o, t) && t.roomData[t.rooms[id]].status == Playing
  {
    RunIsSound(crc, c, o, t);
    UnmovedRetargeted(crc, c, o, o', t, lost, id);
  }

  lemma TargetWasTarget(crc: HashFn, c: Cluster, ch: Chain, i: nat, id: string)
    requires IsChain(crc, c, ch) && Saves(crc, c, ch) && SameReads(crc, c, ch) && i + 1 < |ch.oracles|
    requires Refers(ch.tables[i]) && Refers(ch.tables[i + 1]) && id in PlayingTargets(c, ch, i + 1)
    ensures id in PlayingTargets(c, ch, i) && !Migrates(crc, c, ch, i, id)
  {
    assert Follows(crc, c, ch, i) && SameRead(c, ch, i, id);
    TargetIsUnsettled(crc, c, ch, i, id);
    UnsettledWasTarget(crc, c, ch.oracles[i], ch.oracles[i + 1], ch.tables[i], ch.lost[i], id);
  }

  ghost function SkippedIn(crc: HashFn, c: Cluster, ch: Chain, i: nat): set<string>
    requires |ch.tables| == |ch.oracles| + 1 && i < |ch.oracles| && Refers(ch.tables[i])
  {
    SkippedOf(crc, c, ch.oracles[i], ch.tables[i], Targets(c, ch.oracles[i], ch.tables[i]))
  }

  lemma TargetsShrinkOnce(crc: HashFn, c: Cluster, ch: Chain, i: nat)
    requires IsChain(crc, c, ch) && Saves(crc, c, ch) && SameReads(crc, c, ch) && i + 1 < |ch.oracles|
    requires Refers(ch.tables[i]) && Refers(ch.tables[i + 1])
    ensures PlayingTargets(c, ch, i + 1) <= PlayingTargets(c, ch, i)
    ensures PlayingTargets(c, ch, i + 1) <= SkippedIn(crc, c, ch, i)
  {
    forall id | id in PlayingTargets(c, ch, i + 1)
      ensures id in PlayingTargets(c, ch, i) && id in SkippedIn(crc, c, ch, i)
    {
      TargetWasTarget(crc, c, ch, i, id);
    }
  }

  /** Over any sequence of runs with an unchanged engine and one save per migration, the playing rooms
      targeted only become fewer: those of a later run are among those an earlier one skipped. */
  lemma {:induction false} TargetsOnlyShrink(crc: HashFn, c: Cluster, ch: Chain, i: nat, j: nat)
    requires IsChain(crc, c, ch) && Saves(crc, c, ch) && SameReads(crc, c, ch) && i < j < |ch.oracles|
    ensures Keyed(ch.tables[i]) && Keyed(ch.tables[j])
    ensures PlayingTargets(c, ch, j) <= PlayingTargets(c, ch, i)
    ensures PlayingTargets(c, ch, j) <= SkippedIn(crc, c, ch, i)
    decreases j - i
  {
    ChainKeeps(crc, c, ch, i);
    ChainKeeps(crc, c, ch, i + 1);
    ChainKeeps(crc, c, ch, j);
    TargetsShrinkOnce(crc, c, ch, i);
    if i + 1 < j {
      TargetsOnlyShrink(crc, c, ch, i + 1, j);
    }
  }
}
