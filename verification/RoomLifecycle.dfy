/** How battles start and end: statuses, unresolved starts and accepted battles stay consistent
    while the steps of background starts interleave with everything else. */
module RoomLifecycle {
  import opened RoomState

  predicate Underway(status: Status) {
    status == Playing || status == Finished
  }

  ghost predicate StartOk(t: Table, k: nat)
    requires Refers(t) && k in t.starts
  {
    var a := t.starts[k];
    && k < t.nextStart && Underway(t.roomData[a.room].status)
    && a.room !in t.accepted && a.room !in t.resumed
    && (a.phase.Calling? ==> a.phase.failed < MAX_TRIES)
  }

  ghost predicate AcceptedOk(t: Table, r: GameRoom)
    requires r in t.accepted
  {
    r in t.roomData && Underway(t.roomData[r].status) && 1 <= t.accepted[r].tries <= MAX_TRIES
  }

  ghost predicate ResumedOk(t: Table, r: GameRoom) {
    r in t.roomData && Underway(t.roomData[r].status)
  }

  predicate Starting(t: Table, r: GameRoom) {
    exists k :: k in t.starts && t.starts[k].room == r
  }

  /** A room that plays is being started, was accepted by an engine, or was restored as playing. */
  ghost predicate PlayingOk(t: Table, r: GameRoom)
    requires r in t.roomData
  {
    t.roomData[r].status == Playing ==> Starting(t, r) || r in t.accepted || r in t.resumed
  }

  ghost predicate SingleFlight(t: Table) {
    forall k, l :: k in t.starts && l in t.starts && t.starts[k].room == t.starts[l].room ==> k == l
  }

  ghost predicate Lifecycle(t: Table) {
    && Refers(t)
    && SingleFlight(t)
    && (forall k {:trigger StartOk(t, k)} :: k in t.starts ==> StartOk(t, k))
    && (forall r {:trigger AcceptedOk(t, r)} :: r in t.accepted ==> AcceptedOk(t, r))
    && (forall r {:trigger ResumedOk(t, r)} :: r in t.resumed ==> ResumedOk(t, r))
    && (forall r {:trigger PlayingOk(t, r)} :: r in t.roomData ==> PlayingOk(t, r))
  }

  /** Starts are untouched; a room keeps its status or stops playing; new rooms do not play. */
  ghost predicate Winds(t: Table, t': Table) {
    && t'.starts == t.starts && t'.nextStart == t.nextStart && t'.accepted == t.accepted && t'.resumed == t.resumed
    && (forall r :: r in t.roomData ==>
          && r in t'.roomData
          && (t'.roomData[r].status == t.roomData[r].status ||
              (t.roomData[r].status == Playing && t'.roomData[r].status == Finished)))
    && (forall r :: r in t'.roomData && r !in t.roomData ==> t'.roomData[r].status == Waiting)
  }

  lemma WindsKeepsLifecycle(t: Table, t': Table)
    requires Lifecycle(t) && Refers(t') && Winds(t, t')
    ensures Lifecycle(t')
  {
    forall k | k in t'.starts ensures StartOk(t', k) {
      assert StartOk(t, k);
    }
    forall r | r in t'.accepted ensures AcceptedOk(t', r) {
      assert AcceptedOk(t, r);
    }
    forall r | r in t'.resumed ensures ResumedOk(t', r) {
      assert ResumedOk(t, r);
    }
    forall r | r in t'.roomData ensures PlayingOk(t', r) {
      assert r in t.roomData ==> PlayingOk(t, r);
    }
  }

  lemma WaitingHasNoStart(t: Table, r: GameRoom)
    requires Lifecycle(t) && r in t.roomData && t.roomData[r].status == Waiting
    ensures t.nextStart !in t.starts && r !in t.accepted && r !in t.resumed
    ensures forall k :: k in t.starts ==> k < t.nextStart && t.starts[k].room != r
  {
    assert r in t.accepted ==> AcceptedOk(t, r);
    assert r in t.resumed ==> ResumedOk(t, r);
    forall k | k in t.starts ensures k < t.nextStart && t.starts[k].room != r {
      assert StartOk(t, k);
    }
  }

  lemma ClaimedIsStarting(t: Table, t': Table, r: GameRoom, q: GameRoom)
    requires q in t.roomData && PlayingOk(t, q) && q != r
    requires t'.roomData.Keys == t.roomData.Keys && t'.roomData[q] == t.roomData[q]
    requires t'.accepted == t.accepted && t'.resumed == t.resumed
    requires forall k :: k in t.starts ==> k in t'.starts && t'.starts[k] == t.starts[k]
    ensures PlayingOk(t', q)
  {
    if Starting(t, q) {
      var k :| k in t.starts && t.starts[k].room == q;
      assert k in t'.starts && t'.starts[k].room == q;
    }
  }

  lemma ClaimKeepsLifecycle(t: Table, r: GameRoom)
    requires Lifecycle(t) && r in t.roomData
    ensures Lifecycle(Claim(t, r))
  {
    if t.roomData[r].status == Waiting {
      var t' := Claim(t, r);
      WaitingHasNoStart(t, r);
      assert t'.starts[t.nextStart].room == r;
      forall k | k in t'.starts ensures StartOk(t', k) {
        assert k in t.starts ==> StartOk(t, k);
      }
      forall q | q in t'.accepted ensures AcceptedOk(t', q) {
        assert AcceptedOk(t, q);
      }
      forall q | q in t'.resumed ensures ResumedOk(t', q) {
        assert ResumedOk(t, q);
      }
      forall q | q in t'.roomData ensures PlayingOk(t', q) {
        if q != r {
          assert PlayingOk(t, q);
          ClaimedIsStarting(t, t', r, q);
        }
      }
    }
  }

  lemma FailKeepsLifecycle(t: Table, k: nat)
    requires Lifecycle(t) && k in t.starts
    ensures Lifecycle(FailStart(t, k))
  {
    var t', r := FailStart(t, k), t.starts[k].room;
    assert StartOk(t, k);
    forall l | l in t'.starts ensures StartOk(t', l) {
      assert StartOk(t, l) && t.starts[l].room != r;
    }
    forall q | q in t'.accepted ensures AcceptedOk(t', q) {
      assert AcceptedOk(t, q);
    }
    forall q | q in t'.resumed ensures ResumedOk(t', q) {
      assert ResumedOk(t, q);
    }
    forall q | q in t'.roomData ensures PlayingOk(t', q) {
      assert PlayingOk(t, q);
      if q != r && Starting(t, q) {
        var l :| l in t.starts && t.starts[l].room == q;
        assert l in t'.starts && t'.starts[l].room == q;
      }
    }
  }

  /** A start moves on without being resolved: only its phase and the node of its room change. */
  ghost predicate Advances(t: Table, t': Table, k: nat)
    requires Refers(t) && k in t.starts
  {
    && k in t'.starts && t'.starts == t.starts[k := t.starts[k].(phase := t'.starts[k].phase)]
    && (t'.starts[k].phase.Calling? ==> t'.starts[k].phase.failed < MAX_TRIES)
    && t'.nextStart == t.nextStart && t'.accepted == t.accepted && t'.resumed == t.resumed
    && t'.roomData.Keys == t.roomData.Keys
    && (forall r :: r in t.roomData ==> t'.roomData[r] == t.roomData[r].(nodeID := t'.roomData[r].nodeID))
    && t'.rooms == t.rooms && t'.users == t.users && t'.sessions == t.sessions
  }

  /** No room was made and none changed its status. */
  ghost predicate SameStatuses(t: Table, t': Table) {
    && t'.roomData.Keys == t.roomData.Keys
    && (forall r :: r in t.roomData ==> t'.roomData[r].status == t.roomData[r].status)
  }

  lemma AdvancedStarts(t: Table, t': Table, k: nat)
    requires Refers(t) && Refers(t') && k in t.starts && Advances(t, t', k) && SameStatuses(t, t')
    requires forall l {:trigger StartOk(t, l)} :: l in t.starts ==> StartOk(t, l)
    ensures forall l {:trigger StartOk(t', l)} :: l in t'.starts ==> StartOk(t', l)
  {
    forall l | l in t'.starts ensures StartOk(t', l) {
      assert StartOk(t, l);
    }
  }

  lemma SettledBattles(t: Table, t': Table)
    requires Lifecycle(t) && SameStatuses(t, t') && t'.accepted == t.accepted && t'.resumed == t.resumed
    ensures forall r :: r in t'.accepted ==> AcceptedOk(t', r)
    ensures forall r :: r in t'.resumed ==> ResumedOk(t', r)
  {
    forall q | q in t'.accepted ensures AcceptedOk(t', q) {
      assert AcceptedOk(t, q);
    }
    forall q | q in t'.resumed ensures ResumedOk(t', q) {
      assert ResumedOk(t, q);
    }
  }

  lemma StillPlaying(t: Table, t': Table, r: GameRoom)
    requires r in t.roomData && SameStatuses(t, t') && PlayingOk(t, r)
    requires t'.accepted == t.accepted && t'.resumed == t.resumed
    requires forall l :: l in t.starts ==> l in t'.starts && t'.starts[l].room == t.starts[l].room
    ensures PlayingOk(t', r)
  {
    if Starting(t, r) {
      var l :| l in t.starts && t.starts[l].room == r;
      assert l in t'.starts && t'.starts[l].room == r;
    }
  }

  lemma AdvancedTable(t: Table, t': Table, k: nat)
    requires Refers(t) && k in t.starts && Advances(t, t', k)
    ensures SameStatuses(t, t') && Refers(t')
    ensures forall l :: l in t.starts ==> l in t'.starts && t'.starts[l].room == t.starts[l].room
    ensures SingleFlight(t) ==> SingleFlight(t')
  {
  }

  lemma AdvanceKeepsLifecycle(t: Table, t': Table, k: nat)
    requires Lifecycle(t) && k in t.starts && Advances(t, t', k)
    ensures Lifecycle(t')
  {
    AdvancedTable(t, t', k);
    AdvancedStarts(t, t', k);
    SettledBattles(t, t');
    forall q | q in t'.roomData ensures PlayingOk(t', q) {
      assert PlayingOk(t, q);
      StillPlaying(t, t', q);
    }
  }

  lemma AcceptKeepsLifecycle(t: Table, t': Table, k: nat)
    requires Lifecycle(t) && k in t.starts && t.starts[k].phase.Calling? && t' == Accept(t, k)
    ensures Lifecycle(t')
  {
    var r := t.starts[k].room;
    assert StartOk(t, k);
    forall l | l in t'.starts ensures StartOk(t', l) {
      assert StartOk(t, l) && t.starts[l].room != r;
    }
    forall q | q in t'.accepted ensures AcceptedOk(t', q) {
      assert q in t.accepted ==> AcceptedOk(t, q);
    }
    forall q | q in t'.resumed ensures ResumedOk(t', q) {
      assert ResumedOk(t, q);
    }
    forall q | q in t'.roomData ensures PlayingOk(t', q) {
      assert PlayingOk(t, q);
      if q != r && Starting(t, q) {
        var l :| l in t.starts && t.starts[l].room == q;
        assert l in t'.starts && t'.starts[l].room == q;
      }
    }
  }

  lemma RestoreKeepsLifecycle(t: Table, snap: RoomSnapshot, r: GameRoom, made: map<string, Session>)
    requires Lifecycle(t) && r !in t.roomData && Refers(Restore(t, snap, r, made))
    ensures Lifecycle(Restore(t, snap, r, made))
  {
    var t' := Restore(t, snap, r, made);
    forall l | l in t'.starts ensures StartOk(t', l) {
      assert StartOk(t, l);
    }
    forall q | q in t'.accepted ensures AcceptedOk(t', q) {
      assert AcceptedOk(t, q);
    }
    forall q | q in t'.resumed ensures ResumedOk(t', q) {
      assert q in t.resumed ==> ResumedOk(t, q);
    }
    forall q | q in t'.roomData ensures PlayingOk(t', q) {
      assert q in t.roomData ==> PlayingOk(t, q);
    }
  }
}
