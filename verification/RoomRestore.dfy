/** What a server restores when it starts: which snapshots decide, and what the rooms, the users and
    their sessions are afterwards. */
module RoomRestore {
  import opened RoomState

  /** A snapshot restored by a server asking for the rooms of `nodeID` (all of them if not positive). */
  predicate Wanted(snap: RoomSnapshot, nodeID: int) {
    snap.roomID != "" && (nodeID > 0 ==> snap.nodeID == nodeID)
  }

  function CountWanted(snapshots: seq<RoomSnapshot>, nodeID: int): nat {
    if snapshots == [] then 0
    else CountWanted(snapshots[..|snapshots| - 1], nodeID) + if Wanted(snapshots[|snapshots| - 1], nodeID) then 1 else 0
  }

  ghost function WantedPlaces(snapshots: seq<RoomSnapshot>, nodeID: int): set<int> {
    set i | 0 <= i < |snapshots| && snapshots[i].roomID != "" && (nodeID > 0 ==> snapshots[i].nodeID == nodeID)
  }

  /** The count is that of the snapshots with a room id and, if one is asked for, that node. */
  lemma {:induction false} CountWantedExactly(snapshots: seq<RoomSnapshot>, nodeID: int)
    ensures CountWanted(snapshots, nodeID) == |WantedPlaces(snapshots, nodeID)|
  {
    if snapshots != [] {
      var last := |snapshots| - 1;
      CountWantedExactly(snapshots[..last], nodeID);
      var before, wanted := WantedPlaces(snapshots[..last], nodeID), Wanted(snapshots[last], nodeID);
      forall i ensures i in WantedPlaces(snapshots, nodeID) <==> i in before || (wanted && i == last) {
        assert 0 <= i < last ==> snapshots[..last][i] == snapshots[i];
      }
      assert WantedPlaces(snapshots, nodeID) == before + if wanted then {last} else {};
    }
  }

  /** The status a snapshot's number stands for; numbers the server does not use stay distinguishable. */
  lemma StatusCodes(code: int)
    ensures StatusOf(0) == Waiting && StatusOf(1) == Playing && StatusOf(2) == Finished
    ensures code != 0 && code != 1 && code != 2 ==> StatusOf(code) == Other(code)
  {
  }

  /** Which snapshot decides for a room, and which for a user. */
  datatype Plan = Plan(rooms: map<string, RoomSnapshot>, users: map<string, RoomSnapshot>)

  function Naming(snap: RoomSnapshot): map<string, RoomSnapshot> {
    map p | p in PlayersOf(snap) :: snap
  }

  function Include(plan: Plan, snap: RoomSnapshot): Plan {
    Plan(plan.rooms[snap.roomID := snap], plan.users + Naming(snap))
  }

  /** The wanted snapshots by room and by user; of several, the last listed. */
  function PlanOf(snapshots: seq<RoomSnapshot>, nodeID: int): Plan {
    if snapshots == [] then Plan(map[], map[])
    else
      var others, snap := PlanOf(snapshots[..|snapshots| - 1], nodeID), snapshots[|snapshots| - 1];
      if Wanted(snap, nodeID) then Include(others, snap) else others
  }

  lemma WantedNext(snapshots: seq<RoomSnapshot>, nodeID: int, i: nat)
    requires i < |snapshots|
    ensures var before := PlanOf(snapshots[..i], nodeID);
            PlanOf(snapshots[..i + 1], nodeID) ==
            if Wanted(snapshots[i], nodeID) then Include(before, snapshots[i]) else before
    ensures CountWanted(snapshots[..i + 1], nodeID) ==
            CountWanted(snapshots[..i], nodeID) + if Wanted(snapshots[i], nodeID) then 1 else 0
  {
    assert snapshots[..i + 1][..i] == snapshots[..i];
  }

  /** A later wanted snapshot is of the same room. */
  predicate Replaced(snapshots: seq<RoomSnapshot>, nodeID: int, i: nat)
    requires i < |snapshots|
  {
    exists j :: i < j < |snapshots| && Wanted(snapshots[j], nodeID) && snapshots[j].roomID == snapshots[i].roomID
  }

  /** The last wanted snapshot of a room decides. */
  lemma {:induction false} LastSnapshotDecides(snapshots: seq<RoomSnapshot>, nodeID: int, i: nat)
    requires i < |snapshots| && Wanted(snapshots[i], nodeID)
    requires forall j :: i < j < |snapshots| && Wanted(snapshots[j], nodeID) ==>
                           snapshots[j].roomID != snapshots[i].roomID
    ensures var rooms := PlanOf(snapshots, nodeID).rooms;
      snapshots[i].roomID in rooms && rooms[snapshots[i].roomID] == snapshots[i]
  {
    var last := |snapshots| - 1;
    if i < last {
      LastSnapshotDecides(snapshots[..last], nodeID, i);
    }
  }

  /** The last wanted snapshot naming a user decides. */
  lemma {:induction false} LastNamingDecides(snapshots: seq<RoomSnapshot>, nodeID: int, i: nat, p: string)
    requires i < |snapshots| && Wanted(snapshots[i], nodeID) && p in PlayersOf(snapshots[i])
    requires forall j :: i < j < |snapshots| && Wanted(snapshots[j], nodeID) ==> p !in PlayersOf(snapshots[j])
    ensures p in PlanOf(snapshots, nodeID).users && PlanOf(snapshots, nodeID).users[p] == snapshots[i]
  {
    var last := |snapshots| - 1;
    if i < last {
      LastNamingDecides(snapshots[..last], nodeID, i, p);
    }
  }

  /** Every room of the plan is decided by a last wanted snapshot of it. */
  lemma {:induction false} OnlyWantedRooms(snapshots: seq<RoomSnapshot>, nodeID: int, id: string)
    requires id in PlanOf(snapshots, nodeID).rooms
    ensures exists i :: 0 <= i < |snapshots| && Wanted(snapshots[i], nodeID) && snapshots[i].roomID == id &&
                        !Replaced(snapshots, nodeID, i) && snapshots[i] == PlanOf(snapshots, nodeID).rooms[id]
  {
    var last := |snapshots| - 1;
    if Wanted(snapshots[last], nodeID) && snapshots[last].roomID == id {
      assert !Replaced(snapshots, nodeID, last);
    } else {
      var before := snapshots[..last];
      OnlyWantedRooms(before, nodeID, id);
      var i :| 0 <= i < last && Wanted(before[i], nodeID) && before[i].roomID == id &&
               !Replaced(before, nodeID, i) && before[i] == PlanOf(before, nodeID).rooms[id];
      forall j | 0 <= j < last ensures before[j] == snapshots[j] {
      }
      assert snapshots[i] == before[i] && !Replaced(snapshots, nodeID, i);
    }
  }

  lemma {:induction false} OnlyWantedUsers(snapshots: seq<RoomSnapshot>, nodeID: int, p: string)
    requires p in PlanOf(snapshots, nodeID).users
    ensures exists i :: 0 <= i < |snapshots| && Wanted(snapshots[i], nodeID) && p in PlayersOf(snapshots[i]) &&
                        snapshots[i] == PlanOf(snapshots, nodeID).users[p]
  {
    var last := |snapshots| - 1;
    if !Wanted(snapshots[last], nodeID) || p !in PlayersOf(snapshots[last]) {
      OnlyWantedUsers(snapshots[..last], nodeID, p);
    }
  }

  /** The session is known, belongs to the player, is offline in the snapshot's room, and holds the
      team the snapshot selects for the player, or none. */
  predicate HoldsRestored(t: Table, s: Session, snap: RoomSnapshot, p: string) {
    && s in t.sessions
    && t.sessions[s].player == p && t.sessions[s].roomID == snap.roomID && !t.sessions[s].online
    && t.sessions[s].team == if p in snap.selected then snap.selected[p] else []
  }

  /** The table has the room a snapshot describes, with the sessions it describes. */
  predicate HasRestored(t: Table, id: string, snap: RoomSnapshot)
    requires Refers(t)
  {
    && id in t.rooms
    && var room := t.roomData[t.rooms[id]];
       && room == RoomVal(id, room.sessions, RestoredReady(snap), StatusOf(snap.status), snap.nodeID)
       && room.sessions.Keys == PlayersOf(snap)
       && (forall p :: p in room.sessions ==> HoldsRestored(t, room.sessions[p], snap, p))
  }

  predicate SameRoom(t: Table, t': Table, id: string)
    requires Refers(t) && Refers(t') && id in t.rooms
  {
    id in t'.rooms && t'.rooms[id] == t.rooms[id] && t'.roomData[t.rooms[id]] == t.roomData[t.rooms[id]]
  }

  ghost predicate SessionsKept(t: Table, t': Table) {
    forall s :: s in t.sessions ==> s in t'.sessions && t'.sessions[s] == t.sessions[s]
  }

  /** The rooms of `t'` are those of `t` and those of the plan, each as its snapshot says or else
      as it was in `t`. */
  ghost predicate RoomsRestored(t: Table, t': Table, rooms: map<string, RoomSnapshot>)
    requires Refers(t) && Refers(t')
  {
    && (forall id :: id in t'.rooms ==> id in t.rooms || id in rooms)
    && (forall id {:trigger HasRestored(t', id, rooms[id])} :: id in rooms ==> HasRestored(t', id, rooms[id]))
    && (forall id {:trigger SameRoom(t, t', id)} :: id in t.rooms && id !in rooms ==> SameRoom(t, t', id))
  }

  /** The user is known, with a session that holds what the snapshot says. */
  predicate HasUser(t: Table, p: string, snap: RoomSnapshot) {
    p in t.users && HoldsRestored(t, t.users[p], snap, p)
  }

  predicate SameUser(t: Table, t': Table, p: string) {
    p in t.users && p in t'.users && t'.users[p] == t.users[p]
  }

  /** Likewise the registered users. */
  ghost predicate UsersRestored(t: Table, t': Table, users: map<string, RoomSnapshot>) {
    && (forall p {:trigger p in t'.users} :: p in t'.users ==> p in t.users || p in users)
    && (forall p {:trigger HasUser(t', p, users[p])} :: p in users ==> HasUser(t', p, users[p]))
    && (forall p {:trigger SameUser(t, t', p)} :: p in t.users && p !in users ==> SameUser(t, t', p))
  }

  ghost predicate AllRestored(t: Table, t': Table, plan: Plan) {
    && Refers(t) && Refers(t')
    && RoomsRestored(t, t', plan.rooms) && UsersRestored(t, t', plan.users) && SessionsKept(t, t')
    && t'.store == t.store && t'.starts == t.starts && t'.accepted == t.accepted
  }

  lemma OtherRoomsStay(now: Table, next: Table, id: string, r: GameRoom, v: RoomVal)
    requires Refers(now) && Refers(next)
    requires next.rooms == now.rooms[id := r] && next.roomData == now.roomData[r := v] && r !in now.roomData
    ensures forall i :: i in now.rooms && i != id ==> SameRoom(now, next, i)
  {
  }

  /** New objects for a snapshot: a room and one session per player. */
  ghost predicate NewFor(t: Table, snap: RoomSnapshot, r: GameRoom, made: map<string, Session>) {
    && r !in t.roomData && made.Keys == PlayersOf(snap)
    && (forall p :: p in made ==> made[p].player == p && made[p] !in t.sessions)
  }

  lemma RestoredSessionsHold(t: Table, snap: RoomSnapshot, r: GameRoom, made: map<string, Session>)
    requires NewFor(t, snap, r, made)
    ensures SessionsKept(t, Restore(t, snap, r, made))
    ensures forall p :: p in made ==> HoldsRestored(Restore(t, snap, r, made), made[p], snap, p)
  {
    var more := RestoredSessions(snap, made);
    forall s | s in t.sessions ensures s !in more {
    }
    forall p | p in made ensures made[p] in more && more[made[p]] == RestoredSession(snap, p) {
      assert made[p] in made.Values;
    }
  }

  lemma RestoredRoom(t: Table, snap: RoomSnapshot, r: GameRoom, made: map<string, Session>)
    requires NewFor(t, snap, r, made) && Refers(Restore(t, snap, r, made))
    ensures HasRestored(Restore(t, snap, r, made), snap.roomID, snap)
  {
    RestoredSessionsHold(t, snap, r, made);
  }

  lemma RestoredKept(now: Table, next: Table, id: string, snap: RoomSnapshot)
    requires Refers(now) && Refers(next) && HasRestored(now, id, snap)
    requires SameRoom(now, next, id) && SessionsKept(now, next)
    ensures HasRestored(next, id, snap)
  {
    var room := now.roomData[now.rooms[id]];
    forall p | p in room.sessions ensures HoldsRestored(next, room.sessions[p], snap, p) {
      assert HoldsRestored(now, room.sessions[p], snap, p);
    }
  }

  lemma RoomsOneMoreRestored(t: Table, now: Table, next: Table, rooms: map<string, RoomSnapshot>, snap: RoomSnapshot)
    requires Refers(t) && Refers(now) && Refers(next) && RoomsRestored(t, now, rooms) && SessionsKept(now, next)
    requires forall i :: i in next.rooms ==> i in now.rooms || i == snap.roomID
    requires forall i :: i in now.rooms && i != snap.roomID ==> SameRoom(now, next, i)
    requires HasRestored(next, snap.roomID, snap)
    ensures RoomsRestored(t, next, rooms[snap.roomID := snap])
  {
    var id := snap.roomID;
    forall i | i in rooms && i != id ensures HasRestored(next, i, rooms[i]) {
      assert HasRestored(now, i, rooms[i]);
      RestoredKept(now, next, i, rooms[i]);
    }
    forall i | i in t.rooms && i !in rooms && i != id ensures SameRoom(t, next, i) {
      assert SameRoom(t, now, i);
    }
  }

  lemma UsersOneMoreRestored(t: Table, now: Table, next: Table, users: map<string, RoomSnapshot>, snap: RoomSnapshot,
                             made: map<string, Session>)
    requires UsersRestored(t, now, users) && SessionsKept(now, next)
    requires made.Keys == PlayersOf(snap) && next.users == now.users + made
    requires forall p :: p in made ==> HoldsRestored(next, made[p], snap, p)
    ensures UsersRestored(t, next, users + Naming(snap))
  {
    var more := users + Naming(snap);
    forall p | p in more ensures HasUser(next, p, more[p]) {
      if p !in made {
        assert HasUser(now, p, users[p]);
      }
    }
    forall p | p in t.users && p !in more ensures SameUser(t, next, p) {
      assert SameUser(t, now, p);
    }
  }

  lemma RestoreOneMore(t: Table, now: Table, plan: Plan, snap: RoomSnapshot, r: GameRoom, made: map<string, Session>)
    requires AllRestored(t, now, plan) && NewFor(now, snap, r, made) && Refers(Restore(now, snap, r, made))
    ensures AllRestored(t, Restore(now, snap, r, made), Include(plan, snap))
  {
    var next := Restore(now, snap, r, made);
    OtherRoomsStay(now, next, snap.roomID, r, next.roomData[r]);
    RestoredSessionsHold(now, snap, r, made);
    RestoredRoom(now, snap, r, made);
    RoomsOneMoreRestored(t, now, next, plan.rooms, snap);
    UsersOneMoreRestored(t, now, next, plan.users, snap, made);
  }
  /** One snapshot restored, into new objects: those `t'` has under the room's id. */
  ghost predicate Restores(t: Table, snap: RoomSnapshot, t': Table)
    requires Refers(t')
  {
    && snap.roomID in t'.rooms
    && var r := t'.rooms[snap.roomID];
       var made := t'.roomData[r].sessions;
       NewFor(t, snap, r, made) && t' == Restore(t, snap, r, made)
  }

  ghost predicate RestoreStep(t: Table, snap: RoomSnapshot, nodeID: int, t': Table) {
    if Wanted(snap, nodeID) then Refers(t) && Refers(t') && Restores(t, snap, t') else t' == t
  }

  /** The tables a start-up goes through, snapshot by snapshot. */
  ghost predicate RestoreRun(tables: seq<Table>, snapshots: seq<RoomSnapshot>, nodeID: int) {
    && |tables| == |snapshots| + 1
    && (forall i :: 0 <= i < |snapshots| ==> RestoreStep(tables[i], snapshots[i], nodeID, tables[i + 1]))
  }

  /** The first `n` snapshots done. */
  ghost predicate RestoredUpTo(tables: seq<Table>, snapshots: seq<RoomSnapshot>, nodeID: int, n: nat)
    requires n <= |snapshots|
  {
    |tables| == n + 1 && forall i :: 0 <= i < n ==> RestoreStep(tables[i], snapshots[i], nodeID, tables[i + 1])
  }

  lemma OneStepMore(tables: seq<Table>, snapshots: seq<RoomSnapshot>, nodeID: int, n: nat, t: Table)
    requires n < |snapshots| && RestoredUpTo(tables, snapshots, nodeID, n)
    requires RestoreStep(tables[n], snapshots[n], nodeID, t)
    ensures RestoredUpTo(tables + [t], snapshots, nodeID, n + 1)
  {
    var more := tables + [t];
    forall i | 0 <= i < n + 1 ensures RestoreStep(more[i], snapshots[i], nodeID, more[i + 1]) {
      if i < n {
        assert RestoreStep(tables[i], snapshots[i], nodeID, tables[i + 1]);
      }
    }
  }

  lemma {:induction false} RunRestoresAll(tables: seq<Table>, snapshots: seq<RoomSnapshot>, nodeID: int, i: nat)
    requires RestoreRun(tables, snapshots, nodeID) && i < |tables| && Refers(tables[0])
    ensures AllRestored(tables[0], tables[i], PlanOf(snapshots[..i], nodeID))
  {
    if i > 0 {
      RunRestoresAll(tables, snapshots, nodeID, i - 1);
      var snap, plan := snapshots[i - 1], PlanOf(snapshots[..i - 1], nodeID);
      assert RestoreStep(tables[i - 1], snap, nodeID, tables[i]);
      WantedNext(snapshots, nodeID, i - 1);
      if Wanted(snap, nodeID) {
        var r := tables[i].rooms[snap.roomID];
        RestoreOneMore(tables[0], tables[i - 1], plan, snap, r, tables[i].roomData[r].sessions);
      }
    }
  }
}
