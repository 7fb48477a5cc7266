/** When the rooms and sessions a start-up restores agree with one another: exactly. */
module RoomStartup {
  import opened RoomState
  import opened RoomRestore
  import opened RoomPlacement

  ghost predicate Named(t: Table, id: string) {
    exists s :: s in t.sessions && t.sessions[s].roomID == id
  }

  ghost predicate AllHeld(t: Table)
    requires Refers(t)
  {
    forall s {:trigger Held(t, s)} :: s in t.sessions ==> Held(t, s)
  }

  lemma RestoreKeepsSound(t: Table, snap: RoomSnapshot, r: GameRoom, made: map<string, Session>)
    requires Sound(t) && Restorable(t, snap, r, made)
    ensures Sound(Restore(t, snap, r, made))
  {
    var t' := Restore(t, snap, r, made);
    RestoredRefers(t, snap, r, made);
    RestoredUsers(t, snap, r, made);
    RestoredRosters(t, snap, r, made);
    forall q | q in t'.roomData ensures MembersOk(t', q) {
      assert q in t.roomData ==> MembersOk(t, q);
      RestoredMembers(t, snap, r, made, q);
    }
  }

  /** Afterwards the sessions of the snapshot name its room too. */
  lemma NamedAfter(t: Table, snap: RoomSnapshot, r: GameRoom, made: map<string, Session>, id: string)
    requires Restorable(t, snap, r, made)
    ensures Named(Restore(t, snap, r, made), id) <==> Named(t, id) || (id == snap.roomID && PlayersOf(snap) != {})
  {
    var t' := Restore(t, snap, r, made);
    RestoredObjects(t, snap, r, made);
    if s :| s in t.sessions && t.sessions[s].roomID == id {
      assert s in t'.sessions && t'.sessions[s].roomID == id;
    } else if p :| id == snap.roomID && p in PlayersOf(snap) {
      assert made[p] in t'.sessions && t'.sessions[made[p]].roomID == id;
    } else if s :| s in t'.sessions && t'.sessions[s].roomID == id {
      assert s !in t.sessions;
      RestoredNewcomers(t, snap, r, made, s);
    }
  }

  /** A session that was there before keeps its seat exactly when its room was not replaced. */
  lemma OldSeat(t: Table, snap: RoomSnapshot, r: GameRoom, made: map<string, Session>, s: Session)
    requires Refers(t) && Restorable(t, snap, r, made) && Refers(Restore(t, snap, r, made)) && s in t.sessions
    ensures s in Restore(t, snap, r, made).sessions
    ensures Held(Restore(t, snap, r, made), s) <==> Held(t, s) && t.sessions[s].roomID != snap.roomID
  {
    RestoredObjects(t, snap, r, made);
  }

  lemma NewSeat(t: Table, snap: RoomSnapshot, r: GameRoom, made: map<string, Session>, s: Session)
    requires Restorable(t, snap, r, made) && Refers(Restore(t, snap, r, made))
    requires s in Restore(t, snap, r, made).sessions && s !in t.sessions
    ensures Held(Restore(t, snap, r, made), s)
  {
    RestoredNewcomers(t, snap, r, made, s);
  }

  lemma HeldAfter(t: Table, snap: RoomSnapshot, r: GameRoom, made: map<string, Session>)
    requires Sound(t) && Restorable(t, snap, r, made)
    ensures Refers(Restore(t, snap, r, made))
    ensures AllHeld(Restore(t, snap, r, made)) <==> AllHeld(t) && !Named(t, snap.roomID)
  {
    var t' := Restore(t, snap, r, made);
    RestoredRefers(t, snap, r, made);
    forall s | s in t.sessions
      ensures s in t'.sessions && (Held(t', s) <==> Held(t, s) && t.sessions[s].roomID != snap.roomID)
    {
      OldSeat(t, snap, r, made, s);
    }
    forall s | s in t'.sessions && s !in t.sessions ensures Held(t', s) {
      NewSeat(t, snap, r, made, s);
    }
  }

  // ----- over a whole start-up -----

  /** Some wanted snapshot of the room names a player. */
  predicate Peopled(snapshots: seq<RoomSnapshot>, nodeID: int, id: string) {
    exists i :: 0 <= i < |snapshots| && Wanted(snapshots[i], nodeID) && snapshots[i].roomID == id &&
                PlayersOf(snapshots[i]) != {}
  }

  /** No wanted snapshot replaces a room that a session names: neither one of `t`, nor one restored
      from an earlier snapshot. */
  ghost predicate Undisturbed(t: Table, snapshots: seq<RoomSnapshot>, nodeID: int) {
    forall i {:trigger snapshots[i]} :: 0 <= i < |snapshots| && Wanted(snapshots[i], nodeID) ==>
      !Named(t, snapshots[i].roomID) && !Peopled(snapshots[..i], nodeID, snapshots[i].roomID)
  }

  lemma PeopledNext(snapshots: seq<RoomSnapshot>, nodeID: int, i: nat, id: string)
    requires i < |snapshots|
    ensures Peopled(snapshots[..i + 1], nodeID, id) <==>
            Peopled(snapshots[..i], nodeID, id) ||
            (Wanted(snapshots[i], nodeID) && snapshots[i].roomID == id && PlayersOf(snapshots[i]) != {})
  {
    var before, after := snapshots[..i], snapshots[..i + 1];
    assert after == before + [snapshots[i]];
    if k :| 0 <= k < |before| && Wanted(before[k], nodeID) && before[k].roomID == id && PlayersOf(before[k]) != {} {
      assert after[k] == before[k];
    }
    assert after[i] == snapshots[i];
  }

  lemma UndisturbedNext(t: Table, snapshots: seq<RoomSnapshot>, nodeID: int, i: nat)
    requires i < |snapshots|
    ensures Undisturbed(t, snapshots[..i + 1], nodeID) <==>
            Undisturbed(t, snapshots[..i], nodeID) &&
            (Wanted(snapshots[i], nodeID) ==>
               !Named(t, snapshots[i].roomID) && !Peopled(snapshots[..i], nodeID, snapshots[i].roomID))
  {
    var before, after := snapshots[..i], snapshots[..i + 1];
    forall k | 0 <= k < i ensures after[k] == before[k] && after[..k] == before[..k] {
    }
    assert after[i] == snapshots[i] && after[..i] == before;
  }

  /** After every step: who is named, and whether everybody is held. */
  lemma {:induction false} RestoredSeatsExactly(tables: seq<Table>, snapshots: seq<RoomSnapshot>, nodeID: int, i: nat)
    requires RestoreRun(tables, snapshots, nodeID) && i < |tables| && Sound(tables[0]) && AllHeld(tables[0])
    ensures Sound(tables[i])
    ensures forall id :: Named(tables[i], id) <==> Named(tables[0], id) || Peopled(snapshots[..i], nodeID, id)
    ensures AllHeld(tables[i]) <==> Undisturbed(tables[0], snapshots[..i], nodeID)
  {
    if i > 0 {
      RestoredSeatsExactly(tables, snapshots, nodeID, i - 1);
      SeatsStep(tables[0], tables[i - 1], tables[i], snapshots, nodeID, i - 1);
    }
  }

  lemma SeatsStep(t: Table, now: Table, next: Table, snapshots: seq<RoomSnapshot>, nodeID: int, i: nat)
    requires i < |snapshots| && Sound(now) && RestoreStep(now, snapshots[i], nodeID, next)
    requires forall id :: Named(now, id) <==> Named(t, id) || Peopled(snapshots[..i], nodeID, id)
    requires AllHeld(now) <==> Undisturbed(t, snapshots[..i], nodeID)
    ensures Sound(next)
    ensures forall id :: Named(next, id) <==> Named(t, id) || Peopled(snapshots[..i + 1], nodeID, id)
    ensures AllHeld(next) <==> Undisturbed(t, snapshots[..i + 1], nodeID)
  {
    var snap := snapshots[i];
    UndisturbedNext(t, snapshots, nodeID, i);
    if Wanted(snap, nodeID) {
      var r := next.rooms[snap.roomID];
      var made := next.roomData[r].sessions;
      RestoreKeepsSound(now, snap, r, made);
      HeldAfter(now, snap, r, made);
      forall id ensures Named(next, id) <==> Named(t, id) || Peopled(snapshots[..i + 1], nodeID, id) {
        NamedAfter(now, snap, r, made, id);
        PeopledNext(snapshots, nodeID, i, id);
      }
    } else {
      forall id ensures Peopled(snapshots[..i + 1], nodeID, id) <==> Peopled(snapshots[..i], nodeID, id) {
        PeopledNext(snapshots, nodeID, i, id);
      }
    }
  }

  /** The room a snapshot left is fit to be live exactly when the snapshot names one or two players. */
  lemma RestoredLiveExactly(t: Table, id: string, snap: RoomSnapshot)
    requires Refers(t) && HasRestored(t, id, snap) && id != ""
    ensures LiveOk(t, id) <==> 1 <= |PlayersOf(snap)| <= 2
  {
    var sessions := t.roomData[t.rooms[id]].sessions;
    assert |sessions| == |sessions.Keys|;
  }

  lemma PlannedLive(t: Table, t': Table, snapshots: seq<RoomSnapshot>, nodeID: int, id: string)
    requires AllRestored(t, t', PlanOf(snapshots, nodeID)) && id in PlanOf(snapshots, nodeID).rooms
    ensures id in t'.rooms
    ensures LiveOk(t', id) <==> 1 <= |PlayersOf(PlanOf(snapshots, nodeID).rooms[id])| <= 2
  {
    var rooms := PlanOf(snapshots, nodeID).rooms;
    OnlyWantedRooms(snapshots, nodeID, id);
    assert HasRestored(t', id, rooms[id]);
    RestoredLiveExactly(t', id, rooms[id]);
  }

  lemma UnplannedLive(t: Table, t': Table, plan: Plan, id: string)
    requires Placed(t) && AllRestored(t, t', plan) && id in t'.rooms && id !in plan.rooms
    ensures LiveOk(t', id)
  {
    assert LiveOk(t, id) && SameRoom(t, t', id);
  }

  ghost predicate AllLive(t: Table)
    requires Refers(t)
  {
    forall id {:trigger LiveOk(t, id)} :: id in t.rooms ==> LiveOk(t, id)
  }

  /** Every deciding snapshot names one or two players. */
  predicate AllPeopled(rooms: map<string, RoomSnapshot>) {
    forall id :: id in rooms ==> 1 <= |PlayersOf(rooms[id])| <= 2
  }

  lemma LiveAfter(t: Table, t': Table, snapshots: seq<RoomSnapshot>, nodeID: int)
    requires Placed(t) && AllRestored(t, t', PlanOf(snapshots, nodeID))
    ensures AllLive(t') <==> AllPeopled(PlanOf(snapshots, nodeID).rooms)
  {
    var plan := PlanOf(snapshots, nodeID);
    if AllLive(t') {
      forall id | id in plan.rooms ensures 1 <= |PlayersOf(plan.rooms[id])| <= 2 {
        PlannedLive(t, t', snapshots, nodeID, id);
        assert LiveOk(t', id);
      }
    }
    if AllPeopled(plan.rooms) {
      forall id | id in t'.rooms ensures LiveOk(t', id) {
        if id in plan.rooms {
          PlannedLive(t, t', snapshots, nodeID, id);
        } else {
          UnplannedLive(t, t', plan, id);
        }
      }
    }
  }

  /** A start-up keeps rooms and sessions in agreement exactly when no wanted snapshot replaces a room
      that a session names, and the snapshot that decides for a room names one or two players. */
  lemma RestoredTogetherExactly(tables: seq<Table>, snapshots: seq<RoomSnapshot>, nodeID: int)
    requires RestoreRun(tables, snapshots, nodeID) && Placed(tables[0])
    ensures Placed(tables[|snapshots|]) <==>
            && Undisturbed(tables[0], snapshots, nodeID)
            && (forall id :: id in PlanOf(snapshots, nodeID).rooms ==>
                  1 <= |PlayersOf(PlanOf(snapshots, nodeID).rooms[id])| <= 2)
  {
    var n := |snapshots|;
    assert snapshots[..n] == snapshots;
    RestoredSeatsExactly(tables, snapshots, nodeID, n);
    RunRestoresAll(tables, snapshots, nodeID, n);
    LiveAfter(tables[0], tables[n], snapshots, nodeID);
  }
  // ----- from an empty table -----

  lemma NothingNamed(id: string)
    ensures !Named(EMPTY_TABLE, id) && Placed(EMPTY_TABLE)
  {
  }

  lemma UndisturbedFromEmpty(snapshots: seq<RoomSnapshot>, nodeID: int)
    ensures Undisturbed(EMPTY_TABLE, snapshots, nodeID) <==>
            forall i {:trigger Replaced(snapshots, nodeID, i)} ::
              0 <= i < |snapshots| && Wanted(snapshots[i], nodeID) && Replaced(snapshots, nodeID, i) ==>
              PlayersOf(snapshots[i]) == {}
  {
    forall i | 0 <= i < |snapshots| && Undisturbed(EMPTY_TABLE, snapshots, nodeID) &&
               Wanted(snapshots[i], nodeID) && Replaced(snapshots, nodeID, i)
      ensures PlayersOf(snapshots[i]) == {}
    {
      var j :| i < j < |snapshots| && Wanted(snapshots[j], nodeID) && snapshots[j].roomID == snapshots[i].roomID;
      assert !Peopled(snapshots[..j], nodeID, snapshots[j].roomID) && snapshots[..j][i] == snapshots[i];
    }
    forall j | 0 <= j < |snapshots| && Wanted(snapshots[j], nodeID) &&
               Peopled(snapshots[..j], nodeID, snapshots[j].roomID)
      ensures exists i {:trigger Replaced(snapshots, nodeID, i)} :: 0 <= i < |snapshots| &&
                Wanted(snapshots[i], nodeID) && Replaced(snapshots, nodeID, i) && PlayersOf(snapshots[i]) != {}
    {
      var before := snapshots[..j];
      var i :| 0 <= i < |before| && Wanted(before[i], nodeID) && before[i].roomID == snapshots[j].roomID &&
               PlayersOf(before[i]) != {};
      assert snapshots[i] == before[i] && Replaced(snapshots, nodeID, i);
    }
    forall j | 0 <= j < |snapshots| ensures !Named(EMPTY_TABLE, snapshots[j].roomID) {
      NothingNamed(snapshots[j].roomID);
    }
  }

  lemma DecidingSnapshots(snapshots: seq<RoomSnapshot>, nodeID: int)
    ensures (forall id :: id in PlanOf(snapshots, nodeID).rooms ==>
               1 <= |PlayersOf(PlanOf(snapshots, nodeID).rooms[id])| <= 2) <==>
            (forall i {:trigger Replaced(snapshots, nodeID, i)} ::
               0 <= i < |snapshots| && Wanted(snapshots[i], nodeID) && !Replaced(snapshots, nodeID, i) ==>
               1 <= |PlayersOf(snapshots[i])| <= 2)
  {
    var rooms := PlanOf(snapshots, nodeID).rooms;
    forall i | 0 <= i < |snapshots| && Wanted(snapshots[i], nodeID) && !Replaced(snapshots, nodeID, i)
      ensures snapshots[i].roomID in rooms && rooms[snapshots[i].roomID] == snapshots[i]
    {
      LastSnapshotDecides(snapshots, nodeID, i);
    }
    forall id | id in rooms
      ensures exists i {:trigger Replaced(snapshots, nodeID, i)} :: 0 <= i < |snapshots| &&
                Wanted(snapshots[i], nodeID) && !Replaced(snapshots, nodeID, i) && snapshots[i] == rooms[id]
    {
      OnlyWantedRooms(snapshots, nodeID, id);
    }
  }

  /** A server that starts with an empty table has its rooms and sessions in agreement exactly when
      every wanted snapshot names one or two players, or is replaced by a later one and names none. */
  lemma FreshStartExactly(tables: seq<Table>, snapshots: seq<RoomSnapshot>, nodeID: int)
    requires RestoreRun(tables, snapshots, nodeID) && tables[0] == EMPTY_TABLE
    ensures Placed(tables[|snapshots|]) <==>
            forall i {:trigger Replaced(snapshots, nodeID, i)} ::
              0 <= i < |snapshots| && Wanted(snapshots[i], nodeID) ==>
              if Replaced(snapshots, nodeID, i) then PlayersOf(snapshots[i]) == {}
              else 1 <= |PlayersOf(snapshots[i])| <= 2
  {
    NothingNamed("");
    RestoredTogetherExactly(tables, snapshots, nodeID);
    UndisturbedFromEmpty(snapshots, nodeID);
    DecidingSnapshots(snapshots, nodeID);
  }

  /** When no wanted snapshot is empty: exactly when each names at most two players and no two are of
      the same room. */
  lemma DistinctRoomsExactly(tables: seq<Table>, snapshots: seq<RoomSnapshot>, nodeID: int)
    requires RestoreRun(tables, snapshots, nodeID) && tables[0] == EMPTY_TABLE
    requires forall i :: 0 <= i < |snapshots| && Wanted(snapshots[i], nodeID) ==> PlayersOf(snapshots[i]) != {}
    ensures Placed(tables[|snapshots|]) <==>
            && (forall i :: 0 <= i < |snapshots| && Wanted(snapshots[i], nodeID) ==> |PlayersOf(snapshots[i])| <= 2)
            && (forall i, j :: 0 <= i < j < |snapshots| &&
                               Wanted(snapshots[i], nodeID) && Wanted(snapshots[j], nodeID) ==>
                  snapshots[i].roomID != snapshots[j].roomID)
  {
    FreshStartExactly(tables, snapshots, nodeID);
    forall i | 0 <= i < |snapshots| && Wanted(snapshots[i], nodeID)
      ensures |PlayersOf(snapshots[i])| >= 1
      ensures Replaced(snapshots, nodeID, i) <==>
              exists j :: i < j < |snapshots| && Wanted(snapshots[j], nodeID) &&
                          snapshots[j].roomID == snapshots[i].roomID
    {
      assert PlayersOf(snapshots[i]) != {};
    }
  }
}
