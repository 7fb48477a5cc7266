/** Who is in which room: the invariant that sessions, rooms and ready flags agree, and the proof
    that every command keeps it. */
module RoomPlacement {
  import opened HashRing
  import opened RoomState
  import opened RoomRestore
  import opened Failover

  // ----- who is in which room -----

  /** Ready flags are kept for exactly the players of a room, each player under its own name. */
  ghost predicate MembersOk(t: Table, r: GameRoom)
    requires r in t.roomData
  {
    t.roomData[r].ready.Keys == t.roomData[r].sessions.Keys && RosterOk(t, t.roomData[r].sessions)
  }

  /** A live room is stored under its own id and has one or two players. */
  ghost predicate LiveOk(t: Table, id: string)
    requires Refers(t) && id in t.rooms
  {
    id != "" && t.roomData[t.rooms[id]].id == id && 1 <= |t.roomData[t.rooms[id]].sessions| <= 2
  }

  /** The room a session names is live and holds that very session. */
  ghost predicate Held(t: Table, s: Session)
    requires Refers(t) && s in t.sessions
  {
    var v := t.sessions[s];
    v.roomID != "" ==>
      && v.roomID in t.rooms
      && v.player in t.roomData[t.rooms[v.roomID]].sessions
      && t.roomData[t.rooms[v.roomID]].sessions[v.player] == s
  }

  ghost predicate Placed(t: Table) {
    && Refers(t)
    && (forall r {:trigger MembersOk(t, r)} :: r in t.roomData ==> MembersOk(t, r))
    && (forall id {:trigger LiveOk(t, id)} :: id in t.rooms ==> LiveOk(t, id))
    && (forall s {:trigger Held(t, s)} :: s in t.sessions ==> Held(t, s))
    && (forall u :: u in t.users ==> t.sessions[t.users[u]].player == u)
    && (forall k {:trigger t.starts[k]} :: k in t.starts ==> RosterOk(t, t.starts[k].roster))
  }

  /** The part of it that does not depend on which rooms are live. */
  ghost predicate Sound(t: Table) {
    && Refers(t)
    && (forall r {:trigger MembersOk(t, r)} :: r in t.roomData ==> MembersOk(t, r))
    && (forall u :: u in t.users ==> t.sessions[t.users[u]].player == u)
    && (forall k {:trigger t.starts[k]} :: k in t.starts ==> RosterOk(t, t.starts[k].roster))
  }

  lemma PlacedIsKeyed(t: Table)
    requires Placed(t)
    ensures Keyed(t)
  {
    forall id | id in t.rooms ensures id != "" && t.roomData[t.rooms[id]].id == id {
      assert LiveOk(t, id);
    }
  }

  /** Session objects are never forgotten and never change their player. */
  ghost predicate SessionsGrow(t: Table, t': Table) {
    forall s :: s in t.sessions ==> s in t'.sessions && t'.sessions[s].player == t.sessions[s].player
  }

  lemma RosterStays(t: Table, t': Table, roster: map<string, Session>)
    requires RosterOk(t, roster) && SessionsGrow(t, t')
    ensures RosterOk(t', roster)
  {
  }

  lemma MembersStay(t: Table, t': Table, r: GameRoom)
    requires r in t.roomData && r in t'.roomData && MembersOk(t, r) && SessionsGrow(t, t')
    requires t'.roomData[r].sessions == t.roomData[r].sessions && t'.roomData[r].ready.Keys == t.roomData[r].ready.Keys
    ensures MembersOk(t', r)
  {
  }

  lemma LiveStays(t: Table, t': Table, id: string)
    requires Refers(t) && Refers(t') && id in t.rooms && id in t'.rooms && LiveOk(t, id)
    requires t'.roomData[t'.rooms[id]].sessions == t.roomData[t.rooms[id]].sessions
    requires t'.roomData[t'.rooms[id]].id == t.roomData[t.rooms[id]].id
    ensures LiveOk(t', id)
  {
  }

  /** `t'` has the rooms, sessions and users of `t`; one room may have changed, but not its id,
      players or whose ready flags it keeps. */
  ghost predicate Edits(t: Table, t': Table, r: GameRoom, v: RoomVal)
    requires r in t.roomData
  {
    && t'.rooms == t.rooms && t'.users == t.users && t'.sessions == t.sessions
    && t'.roomData == t.roomData[r := v]
    && v.id == t.roomData[r].id && v.sessions == t.roomData[r].sessions && v.ready.Keys == t.roomData[r].ready.Keys
  }

  lemma EditStaysPlaced(t: Table, t': Table, r: GameRoom, v: RoomVal)
    requires Placed(t) && r in t.roomData && Edits(t, t', r, v)
    requires forall k :: k in t'.starts ==> t'.starts[k].room in t.roomData && RosterOk(t, t'.starts[k].roster)
    ensures Placed(t')
  {
    assert SessionsGrow(t, t') && Refers(t');
    forall q | q in t'.roomData ensures MembersOk(t', q) {
      assert MembersOk(t, q);
      MembersStay(t, t', q);
    }
    forall id | id in t'.rooms ensures LiveOk(t', id) {
      assert LiveOk(t, id);
      LiveStays(t, t', id);
    }
    forall s | s in t'.sessions ensures Held(t', s) {
      assert Held(t, s);
      EditHolds(t, t', r, v, s);
    }
    forall k | k in t'.starts ensures RosterOk(t', t'.starts[k].roster) {
      RosterStays(t, t', t'.starts[k].roster);
    }
  }

  lemma EditHolds(t: Table, t': Table, r: GameRoom, v: RoomVal, s: Session)
    requires Refers(t) && Refers(t') && r in t.roomData && Edits(t, t', r, v)
    requires s in t.sessions && Held(t, s)
    ensures Held(t', s)
  {
  }

  lemma ClaimStaysPlaced(t: Table, r: GameRoom)
    requires Placed(t) && r in t.roomData
    ensures Placed(Claim(t, r))
  {
    if t.roomData[r].status == Waiting {
      assert MembersOk(t, r);
      EditStaysPlaced(t, Claim(t, r), r, t.roomData[r].(status := Playing));
    }
  }

  lemma ReadyStaysPlaced(t: Table, r: GameRoom, p: string)
    requires Placed(t) && r in t.roomData && p in t.roomData[r].sessions
    ensures Placed(MarkReady(t, r, p))
  {
    var room := t.roomData[r].(ready := t.roomData[r].ready[p := true]);
    assert MembersOk(t, r);
    EditStaysPlaced(t, SetRoom(t, r, room), r, room);
    ClaimStaysPlaced(SetRoom(t, r, room), r);
  }

  lemma SelectStaysPlaced(t: Table, s: Session, input: SelectInput)
    requires Placed(t) && s in t.sessions
    ensures Placed(Select(t, s, input))
  {
    var outcome := SelectOutcome(t, s, input);
    if outcome == BadAbility || outcome == Chosen {
      var stored := SetSession(t, s, t.sessions[s].(team := StoredTeam(input.team)));
      SameRoomsStayPlaced(t, stored);
      if outcome == Chosen {
        ReadyStaysPlaced(stored, t.rooms[t.sessions[s].roomID], t.sessions[s].player);
      }
    }
  }

  lemma FailStaysPlaced(t: Table, k: nat)
    requires Placed(t) && k in t.starts
    ensures Placed(FailStart(t, k))
  {
    var r := t.starts[k].room;
    EditStaysPlaced(t, FailStart(t, k), r, t.roomData[r].(status := Waiting));
  }

  lemma LaunchStaysPlaced(t: Table, k: nat, init: BattleInit, node: int)
    requires Placed(t) && k in t.starts
    ensures Placed(Launch(t, k, init, node))
  {
    var r := t.starts[k].room;
    EditStaysPlaced(t, Launch(t, k, init, node), r, t.roomData[r].(nodeID := node));
  }

  /** The starts may move on or be resolved without the rooms noticing. */
  lemma SettledStaysPlaced(t: Table, t': Table)
    requires Placed(t) && t' == t.(starts := t'.starts, accepted := t'.accepted)
    requires forall k :: k in t'.starts ==> k in t.starts && t'.starts[k] == t.starts[k].(phase := t'.starts[k].phase)
    ensures Placed(t')
  {
    assert Refers(t') && SessionsGrow(t, t');
    forall q | q in t'.roomData ensures MembersOk(t', q) {
      assert MembersOk(t, q);
      MembersStay(t, t', q);
    }
    forall id | id in t'.rooms ensures LiveOk(t', id) {
      assert LiveOk(t, id);
    }
    forall s | s in t'.sessions ensures Held(t', s) {
      assert Held(t, s);
    }
    forall k | k in t'.starts ensures RosterOk(t', t'.starts[k].roster) {
      RosterStays(t, t', t.starts[k].roster);
    }
  }

  lemma PhaseStaysPlaced(t: Table, k: nat, phase: Phase)
    requires Placed(t) && k in t.starts
    ensures Placed(SetPhase(t, k, phase))
  {
    SettledStaysPlaced(t, SetPhase(t, k, phase));
  }

  lemma AcceptStaysPlaced(t: Table, k: nat)
    requires Placed(t) && k in t.starts && t.starts[k].phase.Calling?
    ensures Placed(Accept(t, k))
  {
    SettledStaysPlaced(t, Accept(t, k));
  }

  lemma StartStepStaysPlaced(crc: HashFn, t: Table, k: nat, o: StartOracle)
    requires Placed(t) && k in t.starts
    ensures Placed(StartStep(crc, t, k, o))
  {
    match NextMove(crc, t, k, o)
    case Fails => FailStaysPlaced(t, k);
    case Launches(init, node) => LaunchStaysPlaced(t, k, init, node);
    case Proceeds(phase) => PhaseStaysPlaced(t, k, phase);
    case Succeeds => AcceptStaysPlaced(t, k);
  }

  /** Rooms may change nodes, and the store may change. */
  lemma RelocationStaysPlaced(t: Table, t': Table)
    requires Placed(t) && t' == t.(roomData := t'.roomData, store := t'.store) && t'.roomData.Keys == t.roomData.Keys
    requires forall r :: r in t.roomData ==> t'.roomData[r] == t.roomData[r].(nodeID := t'.roomData[r].nodeID)
    ensures Placed(t')
  {
    assert SessionsGrow(t, t') && Refers(t');
    forall q | q in t'.roomData ensures MembersOk(t', q) {
      assert MembersOk(t, q);
      MembersStay(t, t', q);
    }
    forall id | id in t'.rooms ensures LiveOk(t', id) {
      assert LiveOk(t, id);
      LiveStays(t, t', id);
    }
    forall s | s in t'.sessions ensures Held(t', s) {
      assert Held(t, s);
    }
    forall k | k in t'.starts ensures RosterOk(t', t'.starts[k].roster) {
      RosterStays(t, t', t'.starts[k].roster);
    }
  }

  /** `t'` differs from `t` in one room, one session and which rooms are live. */
  ghost predicate Rewrites(t: Table, t': Table, r: GameRoom, v: RoomVal, s: Session, w: SessionVal) {
    && t'.users == t.users && t'.starts == t.starts
    && t'.roomData == t.roomData[r := v] && t'.sessions == t.sessions[s := w]
  }

  /** The other sessions keep the room they name, and their seat in it. */
  ghost predicate OthersSeated(t: Table, t': Table, r: GameRoom, v: RoomVal, s: Session)
    requires Refers(t)
  {
    forall x {:trigger Held(t, x)} ::
      x in t.sessions && x != s && t.sessions[x].roomID != "" && t.sessions[x].roomID in t.rooms ==>
      var id, p := t.sessions[x].roomID, t.sessions[x].player;
      && id in t'.rooms && t'.rooms[id] == t.rooms[id]
      && (t.rooms[id] == r && p in t.roomData[r].sessions && t.roomData[r].sessions[p] == x ==>
            p in v.sessions && v.sessions[p] == x)
  }

  lemma RewrittenHeld(t: Table, t': Table, r: GameRoom, v: RoomVal, s: Session, w: SessionVal, x: Session)
    requires Refers(t) && Refers(t') && Rewrites(t, t', r, v, s, w) && OthersSeated(t, t', r, v, s)
    requires x in t.sessions && x != s && Held(t, x)
    ensures Held(t', x)
  {
  }

  lemma RewrittenMembers(t: Table, t': Table, r: GameRoom, v: RoomVal, s: Session, w: SessionVal, q: GameRoom)
    requires Rewrites(t, t', r, v, s, w) && s in t.sessions && w.player == t.sessions[s].player
    requires if q == r then v.ready.Keys == v.sessions.Keys && RosterOk(t, v.sessions)
             else q in t.roomData && MembersOk(t, q)
    ensures MembersOk(t', q)
  {
  }

  lemma RewriteStaysPlaced(t: Table, t': Table, r: GameRoom, v: RoomVal, s: Session, w: SessionVal)
    requires Placed(t) && Refers(t') && Rewrites(t, t', r, v, s, w)
    requires s in t.sessions && w.player == t.sessions[s].player
    requires v.ready.Keys == v.sessions.Keys && RosterOk(t, v.sessions)
    requires forall id {:trigger LiveOk(t', id)} :: id in t'.rooms ==> LiveOk(t', id)
    requires Held(t', s) && OthersSeated(t, t', r, v, s)
    ensures Placed(t')
  {
    forall q | q in t'.roomData ensures MembersOk(t', q) {
      assert q != r ==> MembersOk(t, q);
      RewrittenMembers(t, t', r, v, s, w, q);
    }
    forall x | x in t'.sessions ensures Held(t', x) {
      if x != s {
        assert Held(t, x);
        RewrittenHeld(t, t', r, v, s, w, x);
      }
    }
  }

  lemma CreatedLive(t: Table, s: Session, r: GameRoom, id: string, i: string)
    requires Refers(t) && s in t.sessions && r !in t.roomData && id != "" && id !in t.rooms
    requires if i in t.rooms then LiveOk(t, i) else i == id
    ensures Refers(Create(t, s, r, id)) && LiveOk(Create(t, s, r, id), i)
  {
  }

  lemma CreatedMember(t: Table, s: Session, r: GameRoom, id: string)
    requires Refers(t) && s in t.sessions && r !in t.roomData && id != "" && id !in t.rooms
    ensures Refers(Create(t, s, r, id)) && Held(Create(t, s, r, id), s) && MembersOk(Create(t, s, r, id), r)
  {
  }

  lemma CreatedStaysPlaced(t: Table, s: Session, r: GameRoom, id: string)
    requires Placed(t) && s in t.sessions && r !in t.roomData && id != "" && id !in t.rooms
    ensures Placed(Create(t, s, r, id))
  {
    var t' := Create(t, s, r, id);
    CreatedMember(t, s, r, id);
    forall i | i in t'.rooms ensures LiveOk(t', i) {
      assert i in t.rooms ==> LiveOk(t, i);
      CreatedLive(t, s, r, id, i);
    }
    RewriteStaysPlaced(t, t', r, t'.roomData[r], s, t'.sessions[s]);
  }

  lemma JoinedLive(t: Table, s: Session, id: string, i: string)
    requires Refers(t) && s in t.sessions && JoinOutcome(t, s, id) == Joined && i in t.rooms && LiveOk(t, i)
    requires t.rooms[i] == t.rooms[id] ==> i == id
    ensures Refers(Join(t, s, id)) && LiveOk(Join(t, s, id), i)
  {
    var room := t.roomData[t.rooms[id]];
    assert |room.sessions[t.sessions[s].player := s]| == |room.sessions| + 1;
  }

  lemma JoinedStaysPlaced(t: Table, s: Session, id: string)
    requires Placed(t) && s in t.sessions
    ensures Placed(Join(t, s, id))
  {
    if JoinOutcome(t, s, id) == Joined {
      var t' := Join(t, s, id);
      assert MembersOk(t, t.rooms[id]) && LiveOk(t, id);
      forall i | i in t'.rooms ensures LiveOk(t', i) {
        assert LiveOk(t, i);
        JoinedLive(t, s, id, i);
      }
      var r := t.rooms[id];
      RewriteStaysPlaced(t, t', r, t'.roomData[r], s, t'.sessions[s]);
    }
  }

  lemma LeaverAlone(t: Table, s: Session, id: string, x: Session)
    requires Placed(t) && s in t.sessions && t.sessions[s].roomID == id && id in t.rooms && id != ""
    requires x in t.sessions && x != s && t.sessions[x].roomID == id
    ensures t.sessions[x].player in t.roomData[t.rooms[id]].sessions - {t.sessions[s].player}
    ensures |t.roomData[t.rooms[id]].sessions - {t.sessions[s].player}| != 0
  {
    assert Held(t, s) && Held(t, x) && LiveOk(t, id);
  }

  lemma LeaverSeats(t: Table, s: Session, id: string)
    requires Placed(t) && s in t.sessions && t.sessions[s].roomID == id && id in t.rooms && id != ""
    ensures OthersSeated(t, Leave(t, s, id), t.rooms[id], Leave(t, s, id).roomData[t.rooms[id]], s)
  {
    forall x | x in t.sessions && x != s && t.sessions[x].roomID == id
      ensures t.sessions[x].player in t.roomData[t.rooms[id]].sessions - {t.sessions[s].player}
      ensures |t.roomData[t.rooms[id]].sessions - {t.sessions[s].player}| != 0
    {
      LeaverAlone(t, s, id, x);
    }
    assert LiveOk(t, id);
    forall x | x in t.sessions && t.sessions[x].roomID != "" && t.sessions[x].roomID in t.rooms
      ensures t.roomData[t.rooms[t.sessions[x].roomID]].id == t.sessions[x].roomID
    {
      assert LiveOk(t, t.sessions[x].roomID);
    }
  }

  lemma LeftRoomShape(t: Table, s: Session, id: string)
    requires Placed(t) && s in t.sessions && t.sessions[s].roomID == id && id in t.rooms && id != ""
    ensures var room := t.roomData[t.rooms[id]]; var left := LeftRoom(room, t.sessions[s].player);
      && left.id == id && left.ready.Keys == left.sessions.Keys && RosterOk(t, left.sessions)
      && |left.sessions| == |room.sessions| - 1 <= 1
  {
    assert MembersOk(t, t.rooms[id]) && LiveOk(t, id) && Held(t, s);
    var members, p := t.roomData[t.rooms[id]].sessions, t.sessions[s].player;
    assert |members - {p}| == |members| - 1;
  }

  lemma LeftLive(t: Table, t': Table, r: GameRoom, s: Session, id: string, i: string)
    requires Refers(t) && Refers(t') && i in t'.rooms && id in t.rooms && r == t.rooms[id]
    requires r in t'.roomData && s in t'.sessions && Rewrites(t, t', r, t'.roomData[r], s, t'.sessions[s])
    requires i in t.rooms && t'.rooms[i] == t.rooms[i] && LiveOk(t, i) && LiveOk(t, id)
    requires t'.roomData[r].id == t.roomData[r].id
    requires i == id ==> 1 <= |t'.roomData[r].sessions| <= 2
    ensures LiveOk(t', i)
  {
  }

  lemma LeftStaysPlaced(t: Table, s: Session)
    requires Placed(t) && s in t.sessions
    ensures Placed(Leave(t, s, t.sessions[s].roomID))
  {
    var id := t.sessions[s].roomID;
    if id in t.rooms {
      assert LiveOk(t, id);
      var t', r := Leave(t, s, id), t.rooms[id];
      LeftRoomShape(t, s, id);
      LeaverSeats(t, s, id);
      forall i | i in t'.rooms ensures LiveOk(t', i) {
        assert LiveOk(t, i);
        LeftLive(t, t', r, s, id, i);
      }
      RewriteStaysPlaced(t, t', r, t'.roomData[r], s, t'.sessions[s]);
    }
  }

  // ----- sessions that come and go without a room -----

  /** Rooms are untouched; sessions may be added, without a room. */
  ghost predicate SameRooms(t: Table, t': Table) {
    && t'.rooms == t.rooms && t'.roomData == t.roomData && t'.starts == t.starts
    && (forall s :: s in t.sessions ==>
          && s in t'.sessions
          && t'.sessions[s].player == t.sessions[s].player && t'.sessions[s].roomID == t.sessions[s].roomID)
    && (forall s :: s in t'.sessions && s !in t.sessions ==> t'.sessions[s].roomID == "")
    && (forall u :: u in t'.users ==> t'.users[u] in t'.sessions && t'.sessions[t'.users[u]].player == u)
  }

  lemma SameRoomsHold(t: Table, t': Table, s: Session)
    requires Refers(t) && Refers(t') && SameRooms(t, t') && s in t'.sessions
    requires s in t.sessions ==> Held(t, s)
    ensures Held(t', s)
  {
  }

  lemma SameRoomsStayPlaced(t: Table, t': Table)
    requires Placed(t) && SameRooms(t, t')
    ensures Placed(t')
  {
    assert SessionsGrow(t, t') && Refers(t');
    forall r | r in t'.roomData ensures MembersOk(t', r) {
      assert MembersOk(t, r);
      MembersStay(t, t', r);
    }
    forall id | id in t'.rooms ensures LiveOk(t', id) {
      assert LiveOk(t, id);
    }
    forall s | s in t'.sessions ensures Held(t', s) {
      assert s in t.sessions ==> Held(t, s);
      SameRoomsHold(t, t', s);
    }
    forall k | k in t'.starts ensures RosterOk(t', t'.starts[k].roster) {
      RosterStays(t, t', t.starts[k].roster);
    }
  }

  lemma CleanedStaysPlaced(t: Table, uid: string)
    requires Placed(t)
    ensures Placed(CleanUp(t, uid))
  {
    if uid in t.users && !t.sessions[t.users[uid]].online {
      SameRoomsStayPlaced(t, t.(users := t.users - {uid}));
      LeftStaysPlaced(t.(users := t.users - {uid}), t.users[uid]);
    }
  }

  ghost predicate Restorable(t: Table, snap: RoomSnapshot, r: GameRoom, made: map<string, Session>) {
    snap.roomID != "" && NewFor(t, snap, r, made)
  }

  lemma RestoredObjects(t: Table, snap: RoomSnapshot, r: GameRoom, made: map<string, Session>)
    requires Restorable(t, snap, r, made)
    ensures var t' := Restore(t, snap, r, made);
      && (forall s :: s in t.sessions ==> s in t'.sessions && t'.sessions[s] == t.sessions[s])
      && (forall p :: p in made ==>
            && made[p] in t'.sessions
            && t'.sessions[made[p]].player == p && t'.sessions[made[p]].roomID == snap.roomID)
  {
    forall s | s in t.sessions ensures s !in made.Values {
    }
    forall p | p in made ensures made[p] in made.Values && made[p].player == p {
    }
  }

  lemma RestoredNewcomers(t: Table, snap: RoomSnapshot, r: GameRoom, made: map<string, Session>, s: Session)
    requires Restorable(t, snap, r, made) && s in Restore(t, snap, r, made).sessions && s !in t.sessions
    ensures s.player in made && made[s.player] == s
    ensures Restore(t, snap, r, made).sessions[s] == RestoredSession(snap, s.player)
  {
    var p :| p in made && made[p] == s;
    assert made[p].player == p;
  }

  lemma RestoredLive(t: Table, snap: RoomSnapshot, r: GameRoom, made: map<string, Session>, i: string)
    requires Refers(t) && Restorable(t, snap, r, made) && 1 <= |PlayersOf(snap)| <= 2
    requires i in Restore(t, snap, r, made).rooms && (i in t.rooms ==> LiveOk(t, i))
    requires Refers(Restore(t, snap, r, made))
    ensures LiveOk(Restore(t, snap, r, made), i)
  {
    assert |made| == |made.Keys|;
  }

  lemma RestoredSeats(t: Table, snap: RoomSnapshot, r: GameRoom, made: map<string, Session>, x: Session)
    requires Placed(t) && Restorable(t, snap, r, made) && Refers(Restore(t, snap, r, made))
    requires forall s :: s in t.sessions ==> t.sessions[s].roomID != snap.roomID
    requires x in Restore(t, snap, r, made).sessions
    ensures Held(Restore(t, snap, r, made), x)
  {
    RestoredObjects(t, snap, r, made);
    if x in t.sessions {
      assert Held(t, x);
    } else {
      RestoredNewcomers(t, snap, r, made, x);
    }
  }

  lemma RestoredMembers(t: Table, snap: RoomSnapshot, r: GameRoom, made: map<string, Session>, q: GameRoom)
    requires Restorable(t, snap, r, made) && q in Restore(t, snap, r, made).roomData
    requires q in t.roomData ==> MembersOk(t, q)
    ensures MembersOk(Restore(t, snap, r, made), q)
  {
    RestoredObjects(t, snap, r, made);
    if q != r {
      MembersStay(t, Restore(t, snap, r, made), q);
    }
  }

  lemma RestoredRefers(t: Table, snap: RoomSnapshot, r: GameRoom, made: map<string, Session>)
    requires Sound(t) && Restorable(t, snap, r, made)
    ensures Refers(Restore(t, snap, r, made))
  {
    RestoredObjects(t, snap, r, made);
  }

  lemma RestoredUsers(t: Table, snap: RoomSnapshot, r: GameRoom, made: map<string, Session>)
    requires Sound(t) && Restorable(t, snap, r, made) && Refers(Restore(t, snap, r, made))
    ensures var t' := Restore(t, snap, r, made); forall u :: u in t'.users ==> t'.sessions[t'.users[u]].player == u
  {
    RestoredObjects(t, snap, r, made);
  }

  lemma RestoredRosters(t: Table, snap: RoomSnapshot, r: GameRoom, made: map<string, Session>)
    requires Sound(t) && Restorable(t, snap, r, made)
    ensures var t' := Restore(t, snap, r, made);
      forall k {:trigger t'.starts[k]} :: k in t'.starts ==> RosterOk(t', t'.starts[k].roster)
  {
    RestoredObjects(t, snap, r, made);
    var t' := Restore(t, snap, r, made);
    forall k | k in t'.starts ensures RosterOk(t', t'.starts[k].roster) {
      RosterStays(t, t', t.starts[k].roster);
    }
  }

  lemma RestoredStaysPlaced(t: Table, snap: RoomSnapshot, r: GameRoom, made: map<string, Session>)
    requires Placed(t) && Restorable(t, snap, r, made)
    requires 1 <= |PlayersOf(snap)| <= 2 && forall s :: s in t.sessions ==> t.sessions[s].roomID != snap.roomID
    ensures Placed(Restore(t, snap, r, made))
  {
    var t' := Restore(t, snap, r, made);
    RestoredRefers(t, snap, r, made);
    RestoredUsers(t, snap, r, made);
    RestoredRosters(t, snap, r, made);
    forall q | q in t'.roomData ensures MembersOk(t', q) {
      assert q in t.roomData ==> MembersOk(t, q);
      RestoredMembers(t, snap, r, made, q);
    }
    forall i | i in t'.rooms ensures LiveOk(t', i) {
      assert i in t.rooms ==> LiveOk(t, i);
      RestoredLive(t, snap, r, made, i);
    }
    forall x | x in t'.sessions ensures Held(t', x) {
      RestoredSeats(t, snap, r, made, x);
    }
  }

  /** A snapshot may be restored while the table is in use exactly when it names one or two players
      and does not replace a room that some session names. */
  lemma RestoredPlacedExactly(t: Table, snap: RoomSnapshot, r: GameRoom, made: map<string, Session>)
    requires Placed(t) && Restorable(t, snap, r, made)
    ensures Placed(Restore(t, snap, r, made)) <==>
            1 <= |PlayersOf(snap)| <= 2 && forall s :: s in t.sessions ==> t.sessions[s].roomID != snap.roomID
  {
    var t' := Restore(t, snap, r, made);
    RestoredObjects(t, snap, r, made);
    assert |made| == |made.Keys|;
    if !(1 <= |PlayersOf(snap)| <= 2) {
      assert Refers(t') ==> !LiveOk(t', snap.roomID);
    } else if s :| s in t.sessions && t.sessions[s].roomID == snap.roomID {
      assert Refers(t') ==> !Held(t', s);
    } else {
      RestoredStaysPlaced(t, snap, r, made);
    }
  }

  /** The first half of that condition can fail: a snapshot that names nobody restores a room
      without players. */
  lemma EmptySnapshotMisplaces(r: GameRoom)
    ensures Placed(EMPTY_TABLE) && Restorable(EMPTY_TABLE, RoomSnapshot("x", 0, 0, "", [], map[], map[]), r, map[])
    ensures !Placed(Restore(EMPTY_TABLE, RoomSnapshot("x", 0, 0, "", [], map[], map[]), r, map[]))
  {
    var snap := RoomSnapshot("x", 0, 0, "", [], map[], map[]);
    assert PlayersOf(snap) == {};
    RestoredPlacedExactly(EMPTY_TABLE, snap, r, map[]);
  }
}
