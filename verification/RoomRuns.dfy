/** Runs of the room table: events in any order, the invariant of every reachable state, and what
    it means for players and battles. */
module RoomRuns {
  import opened Ordering
  import opened HashRing
  import opened RoomState
  import opened RoomPlacement
  import opened RoomLifecycle
  import opened RoomEvents

  // ----- sides -----

  /** The request names as sides A and B the first two players of the roster in name order. */
  ghost predicate Fits(init: BattleInit, names: set<string>) {
    var ids := SortedNames(names);
    |ids| >= 2 && init.sideA.name == ids[0] && init.sideB.name == ids[1]
  }

  /** Each side carries the team its own player has chosen, and the seed is the hash of the room. */
  predicate Equips(init: BattleInit, crc: HashFn, t: Table, id: string, roster: map<string, Session>) {
    && init.sideA.name in roster && roster[init.sideA.name] in t.sessions
    && init.sideA.team == t.sessions[roster[init.sideA.name]].team
    && init.sideB.name in roster && roster[init.sideB.name] in t.sessions
    && init.sideB.team == t.sessions[roster[init.sideB.name]].team
    && init.seed == crc(id)
  }

  lemma BuildInitFits(crc: HashFn, t: Table, id: string, roster: map<string, Session>)
    requires |roster| >= 2 && RosterOk(t, roster)
    ensures Fits(BuildInit(crc, t, id, roster), roster.Keys)
    ensures Equips(BuildInit(crc, t, id, roster), crc, t, id, roster)
  {
    OrderMembers(SortedNames(roster.Keys), roster.Keys);
  }

  lemma FittingSides(init: BattleInit, names: set<string>, p: string)
    requires Fits(init, names)
    ensures SideOf(names, p) == Some(A) <==> p == init.sideA.name
    ensures SideOf(names, p) == Some(B) <==> p == init.sideB.name
  {
    OrderDistinct(SortedNames(names), names);
  }

  // ----- battles -----

  predicate Requested(phase: Phase) {
    phase.Launched? || phase.Calling?
  }

  ghost predicate SidedStart(a: Attempt) {
    Requested(a.phase) ==> Fits(a.phase.init, a.roster.Keys)
  }

  /** The battle a start has asked for, or an engine accepted, is between the sessions of its roster. */
  ghost predicate Sided(t: Table) {
    && (forall k {:trigger t.starts[k]} :: k in t.starts ==> SidedStart(t.starts[k]))
    && (forall r {:trigger t.accepted[r]} :: r in t.accepted ==> Fits(t.accepted[r].init, t.accepted[r].roster.Keys))
  }

  /** While a live room plays, its sessions are those the battle was claimed with. */
  ghost predicate BattleOk(t: Table, id: string)
    requires Refers(t) && id in t.rooms
  {
    var r := t.rooms[id];
    t.roomData[r].status == Playing ==>
      && (forall k :: k in t.starts && t.starts[k].room == r ==> t.starts[k].roster == t.roomData[r].sessions)
      && (r in t.accepted ==> t.accepted[r].roster == t.roomData[r].sessions)
  }

  ghost predicate Battles(t: Table) {
    Refers(t) && forall id {:trigger BattleOk(t, id)} :: id in t.rooms ==> BattleOk(t, id)
  }

  ghost predicate Inv(t: Table) {
    Placed(t) && Lifecycle(t) && Battles(t) && Sided(t)
  }

  lemma QuietKeepsBattles(t: Table, t': Table)
    requires Placed(t') && Battles(t) && Winds(t, t') && AllThin(t, t')
    ensures Battles(t')
  {
    forall id | id in t'.rooms ensures BattleOk(t', id) {
      var r := t'.rooms[id];
      assert LiveOk(t', id);
      if t'.roomData[r].status == Playing {
        assert r in t'.roomData && Thins(t, t', r);
        assert BattleOk(t, id);
      }
    }
  }

  lemma ClaimKeepsBattle(t: Table, r: GameRoom, id: string)
    requires Refers(t) && r in t.roomData && t.roomData[r].status == Waiting
    requires t.nextStart !in t.starts && r !in t.accepted && forall k :: k in t.starts ==> t.starts[k].room != r
    requires id in t.rooms && BattleOk(t, id)
    ensures BattleOk(Claim(t, r), id)
  {
  }

  lemma ClaimKeepsBattles(t: Table, r: GameRoom)
    requires Lifecycle(t) && Battles(t) && r in t.roomData
    ensures Battles(Claim(t, r))
  {
    if t.roomData[r].status == Waiting {
      WaitingHasNoStart(t, r);
      forall id | id in t.rooms ensures BattleOk(Claim(t, r), id) {
        assert BattleOk(t, id);
        ClaimKeepsBattle(t, r, id);
      }
    }
  }

  lemma ReadyKeepsBattles(t: Table, r: GameRoom, p: string)
    requires Lifecycle(t) && Battles(t) && r in t.roomData
    ensures Battles(MarkReady(t, r, p))
  {
    var room := t.roomData[r].(ready := t.roomData[r].ready[p := true]);
    var chosen := SetRoom(t, r, room);
    WindsKeepsLifecycle(t, chosen);
    forall id | id in chosen.rooms ensures BattleOk(chosen, id) {
      assert BattleOk(t, id);
    }
    ClaimKeepsBattles(chosen, r);
  }

  lemma SelectKeepsBattles(t: Table, s: Session, input: SelectInput)
    requires Lifecycle(t) && Battles(t) && s in t.sessions
    ensures Battles(Select(t, s, input))
  {
    var stored := SetSession(t, s, t.sessions[s].(team := if input.Request? then StoredTeam(input.team) else []));
    forall id | id in stored.rooms ensures BattleOk(stored, id) {
      assert BattleOk(t, id);
    }
    if SelectOutcome(t, s, input) == Chosen {
      WindsKeepsLifecycle(t, stored);
      ReadyKeepsBattles(stored, t.rooms[t.sessions[s].roomID], t.sessions[s].player);
    }
  }

  lemma FailKeepsBattles(t: Table, k: nat)
    requires Battles(t) && k in t.starts
    ensures Battles(FailStart(t, k))
  {
    forall id | id in t.rooms ensures BattleOk(FailStart(t, k), id) {
      assert BattleOk(t, id);
    }
  }

  lemma LaunchKeepsBattles(t: Table, k: nat, init: BattleInit, node: int)
    requires Battles(t) && k in t.starts
    ensures Battles(Launch(t, k, init, node))
  {
    forall id | id in t.rooms ensures BattleOk(Launch(t, k, init, node), id) {
      assert BattleOk(t, id);
    }
  }

  lemma PhaseKeepsBattles(t: Table, k: nat, phase: Phase)
    requires Battles(t) && k in t.starts
    ensures Battles(SetPhase(t, k, phase))
  {
    forall id | id in t.rooms ensures BattleOk(SetPhase(t, k, phase), id) {
      assert BattleOk(t, id);
    }
  }

  lemma AcceptKeepsBattles(t: Table, k: nat)
    requires Battles(t) && k in t.starts && t.starts[k].phase.Calling?
    ensures Battles(Accept(t, k))
  {
    forall id | id in t.rooms ensures BattleOk(Accept(t, k), id) {
      assert BattleOk(t, id);
    }
  }

  lemma StartStepKeepsBattles(crc: HashFn, t: Table, k: nat, o: StartOracle)
    requires Battles(t) && k in t.starts && RosterOk(t, t.starts[k].roster)
    ensures Battles(StartStep(crc, t, k, o))
  {
    match NextMove(crc, t, k, o)
    case Fails => FailKeepsBattles(t, k);
    case Launches(init, node) => LaunchKeepsBattles(t, k, init, node);
    case Proceeds(phase) => PhaseKeepsBattles(t, k, phase);
    case Succeeds => AcceptKeepsBattles(t, k);
  }

  lemma RestoreKeepsBattles(t: Table, snap: RoomSnapshot, r: GameRoom, made: map<string, Session>)
    requires Lifecycle(t) && Battles(t) && r !in t.roomData && Refers(Restore(t, snap, r, made))
    ensures Battles(Restore(t, snap, r, made))
  {
    var t' := Restore(t, snap, r, made);
    assert r in t.accepted ==> AcceptedOk(t, r);
    forall id | id in t'.rooms ensures BattleOk(t', id) {
      assert id in t.rooms ==> BattleOk(t, id);
    }
  }

  lemma EventKeepsBattles(crc: HashFn, t: Table, e: Event)
    requires Placed(t) && Lifecycle(t) && Battles(t) && Enabled(t, e) && Placed(Apply(crc, t, e))
    ensures Battles(Apply(crc, t, e))
  {
    if LeavesStarts(e) {
      EventWinds(crc, t, e);
      EventThins(crc, t, e);
      QuietKeepsBattles(t, Apply(crc, t, e));
    } else {
      match e
      case Selects(s, input) => SelectKeepsBattles(t, s, input);
      case Starts(s) =>
        if t.sessions[s].roomID in t.rooms {
          ClaimKeepsBattles(t, t.rooms[t.sessions[s].roomID]);
        }
      case StartSteps(k, answers) =>
        assert RosterOk(t, t.starts[k].roster);
        StartStepKeepsBattles(crc, t, k, answers);
      case Restores(snap, r, made) => RestoreKeepsBattles(t, snap, r, made);
    }
  }

  lemma QuietKeepsSided(t: Table, t': Table)
    requires Sided(t) && t'.starts == t.starts && t'.accepted == t.accepted
    ensures Sided(t')
  {
  }

  lemma FewerStartsKeepSided(t: Table, k: nat, t': Table)
    requires Sided(t) && t'.starts == t.starts - {k} && t'.accepted == t.accepted
    ensures Sided(t')
  {
  }

  lemma ClaimKeepsSided(t: Table, r: GameRoom)
    requires Sided(t) && r in t.roomData
    ensures Sided(Claim(t, r))
  {
    var t' := Claim(t, r);
    forall k | k in t'.starts ensures SidedStart(t'.starts[k]) {
      assert k in t.starts ==> SidedStart(t.starts[k]);
    }
  }

  lemma PhaseKeepsSided(t: Table, k: nat, phase: Phase, t': Table)
    requires Sided(t) && k in t.starts && t'.accepted == t.accepted
    requires t'.starts == t.starts[k := t.starts[k].(phase := phase)] && SidedStart(t'.starts[k])
    ensures Sided(t')
  {
    forall l | l in t'.starts ensures SidedStart(t'.starts[l]) {
      assert l in t.starts ==> SidedStart(t.starts[l]);
    }
  }

  lemma AcceptKeepsSided(t: Table, k: nat)
    requires Sided(t) && k in t.starts && t.starts[k].phase.Calling?
    ensures Sided(Accept(t, k))
  {
    assert SidedStart(t.starts[k]);
  }

  lemma LaunchedFits(crc: HashFn, t: Table, k: nat, o: StartOracle)
    requires Refers(t) && k in t.starts && RosterOk(t, t.starts[k].roster)
    requires NextMove(crc, t, k, o).Launches?
    ensures Fits(NextMove(crc, t, k, o).init, t.starts[k].roster.Keys)
    ensures Equips(NextMove(crc, t, k, o).init, crc, t, t.roomData[t.starts[k].room].id, t.starts[k].roster)
    ensures StartStep(crc, t, k, o).starts[k].phase == Launched(NextMove(crc, t, k, o).init, o.node.value)
  {
    var a := t.starts[k];
    BuildInitFits(crc, t, t.roomData[a.room].id, a.roster);
  }

  lemma StartStepKeepsSided(crc: HashFn, t: Table, k: nat, o: StartOracle)
    requires Refers(t) && Sided(t) && k in t.starts && RosterOk(t, t.starts[k].roster)
    ensures Sided(StartStep(crc, t, k, o))
  {
    assert SidedStart(t.starts[k]);
    match NextMove(crc, t, k, o)
    case Fails => FewerStartsKeepSided(t, k, FailStart(t, k));
    case Launches(init, node) =>
      LaunchedFits(crc, t, k, o);
      PhaseKeepsSided(t, k, Launched(init, node), Launch(t, k, init, node));
    case Proceeds(phase) => PhaseKeepsSided(t, k, phase, SetPhase(t, k, phase));
    case Succeeds => AcceptKeepsSided(t, k);
  }

  lemma SelectKeepsSided(t: Table, s: Session, input: SelectInput)
    requires Refers(t) && Sided(t) && s in t.sessions
    ensures Sided(Select(t, s, input))
  {
    if SelectOutcome(t, s, input) == Chosen {
      var stored := SetSession(t, s, t.sessions[s].(team := StoredTeam(input.team)));
      var r := t.rooms[t.sessions[s].roomID];
      var chosen := SetRoom(stored, r, t.roomData[r].(ready := t.roomData[r].ready[t.sessions[s].player := true]));
      QuietKeepsSided(t, chosen);
      ClaimKeepsSided(chosen, r);
    } else {
      QuietKeepsSided(t, Select(t, s, input));
    }
  }

  lemma EventKeepsSided(crc: HashFn, t: Table, e: Event)
    requires Placed(t) && Sided(t) && Enabled(t, e)
    ensures Sided(Apply(crc, t, e))
  {
    if LeavesStarts(e) {
      EventWinds(crc, t, e);
      QuietKeepsSided(t, Apply(crc, t, e));
    } else {
      match e
      case Selects(s, input) => SelectKeepsSided(t, s, input);
      case Starts(s) =>
        if t.sessions[s].roomID in t.rooms {
          ClaimKeepsSided(t, t.rooms[t.sessions[s].roomID]);
        }
      case StartSteps(k, answers) =>
        assert RosterOk(t, t.starts[k].roster);
        StartStepKeepsSided(crc, t, k, answers);
      case Restores(snap, r, made) => QuietKeepsSided(t, Restore(t, snap, r, made));
    }
  }

  // ----- battles that are over -----

  predicate Over(t: Table, r: GameRoom) {
    r in t.roomData && t.roomData[r].status == Finished && !Starting(t, r)
  }

  lemma ClaimKeepsOver(t: Table, q: GameRoom, r: GameRoom)
    requires q in t.roomData && Over(t, r)
    ensures Over(Claim(t, q), r)
  {
    var t' := Claim(t, q);
    forall k | k in t'.starts ensures t'.starts[k].room != r {
      assert k in t.starts ==> t.starts[k].room != r;
    }
  }

  lemma SelectKeepsOver(t: Table, s: Session, input: SelectInput, r: GameRoom)
    requires Refers(t) && s in t.sessions && Over(t, r)
    ensures Over(Select(t, s, input), r)
  {
    if SelectOutcome(t, s, input) == Chosen {
      var stored := SetSession(t, s, t.sessions[s].(team := StoredTeam(input.team)));
      var q := t.rooms[t.sessions[s].roomID];
      var chosen := SetRoom(stored, q, t.roomData[q].(ready := t.roomData[q].ready[t.sessions[s].player := true]));
      assert Over(chosen, r);
      ClaimKeepsOver(chosen, q, r);
    }
  }

  lemma OtherStepKeepsOver(t: Table, t': Table, k: nat, r: GameRoom)
    requires k in t.starts && Over(t, r)
    requires r in t'.roomData && (r != t.starts[k].room ==> t'.roomData[r].status == t.roomData[r].status)
    requires forall l :: l in t'.starts ==> l in t.starts && t'.starts[l].room == t.starts[l].room
    ensures Over(t', r)
  {
    assert t.starts[k].room != r;
  }

  lemma FailKeepsOver(t: Table, k: nat, r: GameRoom)
    requires Refers(t) && k in t.starts && Over(t, r)
    ensures Over(FailStart(t, k), r)
  {
    OtherStepKeepsOver(t, FailStart(t, k), k, r);
  }

  lemma LaunchKeepsOver(t: Table, k: nat, init: BattleInit, node: int, r: GameRoom)
    requires Refers(t) && k in t.starts && Over(t, r)
    ensures Over(Launch(t, k, init, node), r)
  {
    OtherStepKeepsOver(t, Launch(t, k, init, node), k, r);
  }

  lemma PhaseKeepsOver(t: Table, k: nat, phase: Phase, r: GameRoom)
    requires k in t.starts && Over(t, r)
    ensures Over(SetPhase(t, k, phase), r)
  {
    OtherStepKeepsOver(t, SetPhase(t, k, phase), k, r);
  }

  lemma AcceptKeepsOver(t: Table, k: nat, r: GameRoom)
    requires k in t.starts && t.starts[k].phase.Calling? && Over(t, r)
    ensures Over(Accept(t, k), r)
  {
    OtherStepKeepsOver(t, Accept(t, k), k, r);
  }

  lemma StartStepKeepsOver(crc: HashFn, t: Table, k: nat, o: StartOracle, r: GameRoom)
    requires Refers(t) && k in t.starts && RosterOk(t, t.starts[k].roster) && Over(t, r)
    ensures Over(StartStep(crc, t, k, o), r)
  {
    match NextMove(crc, t, k, o)
    case Fails => FailKeepsOver(t, k, r);
    case Launches(init, node) => LaunchKeepsOver(t, k, init, node, r);
    case Proceeds(phase) => PhaseKeepsOver(t, k, phase, r);
    case Succeeds => AcceptKeepsOver(t, k, r);
  }

  lemma EventKeepsOver(crc: HashFn, t: Table, e: Event, r: GameRoom)
    requires Placed(t) && Enabled(t, e) && Over(t, r)
    ensures Over(Apply(crc, t, e), r)
  {
    if LeavesStarts(e) {
      EventWinds(crc, t, e);
    } else {
      match e
      case Selects(s, input) => SelectKeepsOver(t, s, input, r);
      case Starts(s) =>
        if t.sessions[s].roomID in t.rooms {
          ClaimKeepsOver(t, t.rooms[t.sessions[s].roomID], r);
        }
      case StartSteps(k, answers) =>
        assert RosterOk(t, t.starts[k].roster);
        StartStepKeepsOver(crc, t, k, answers, r);
      case Restores(snap, q, made) =>
    }
  }

  // ----- runs -----

  /** One step. The guard only makes `Apply` defined; `ReachableStatesAreSound` shows it is met in
      every state of every run. */
  ghost predicate Next(crc: HashFn, t: Table, e: Event, t': Table) {
    Enabled(t, e) && (Placed(t) ==> t' == Apply(crc, t, e))
  }

  ghost predicate TableRun(crc: HashFn, events: seq<Event>, states: seq<Table>) {
    && |states| == |events| + 1
    && states[0] == EMPTY_TABLE
    && (forall i :: 0 <= i < |events| ==> Next(crc, states[i], events[i], states[i + 1]))
  }

  /** Every state of every run satisfies the whole invariant. */
  lemma {:induction false} ReachableStatesAreSound(crc: HashFn, events: seq<Event>, states: seq<Table>, i: nat)
    requires TableRun(crc, events, states) && i < |states|
    ensures Inv(states[i])
  {
    if i > 0 {
      var t, e := states[i - 1], events[i - 1];
      ReachableStatesAreSound(crc, events, states, i - 1);
      assert Next(crc, t, e, states[i]);
      EventKeepsPlaced(crc, t, e);
      EventKeepsLifecycle(crc, t, e);
      EventKeepsBattles(crc, t, e);
      EventKeepsSided(crc, t, e);
    }
  }

  /** Rooms, sessions and ready flags agree in every reachable state. */
  lemma RoomTableInvariant(crc: HashFn, events: seq<Event>, states: seq<Table>, i: nat)
    requires TableRun(crc, events, states) && i < |states|
    ensures Refers(states[i])
    ensures forall id :: id in states[i].rooms ==>
              var room := states[i].roomData[states[i].rooms[id]];
              room.id == id && room.ready.Keys == room.sessions.Keys && 1 <= |room.sessions| <= 2
    ensures forall s :: s in states[i].sessions && states[i].sessions[s].roomID != "" ==>
              var id, p := states[i].sessions[s].roomID, states[i].sessions[s].player;
              && id in states[i].rooms
              && p in states[i].roomData[states[i].rooms[id]].sessions
              && states[i].roomData[states[i].rooms[id]].sessions[p] == s
  {
    ReachableStatesAreSound(crc, events, states, i);
    var t := states[i];
    forall id | id in t.rooms ensures LiveOk(t, id) && MembersOk(t, t.rooms[id]) {
    }
    forall s | s in t.sessions ensures Held(t, s) {
    }
  }

  /** At most one start of a room is unresolved, and then the room is playing or finished; a room
      that plays with none unresolved was accepted by an engine within three tries or restored. */
  lemma SingleFlightStart(crc: HashFn, events: seq<Event>, states: seq<Table>, i: nat, r: GameRoom)
    requires TableRun(crc, events, states) && i < |states| && r in states[i].roomData
    ensures var t := states[i];
      && (forall k, l :: k in t.starts && l in t.starts && t.starts[k].room == r && t.starts[l].room == r ==> k == l)
      && (Starting(t, r) ==> t.roomData[r].status == Playing || t.roomData[r].status == Finished)
      && (t.roomData[r].status == Playing && !Starting(t, r) ==>
            (r in t.accepted && 1 <= t.accepted[r].tries <= 3) || r in t.resumed)
  {
    ReachableStatesAreSound(crc, events, states, i);
    var t := states[i];
    assert PlayingOk(t, r);
    if r in t.accepted {
      assert AcceptedOk(t, r);
    }
    if Starting(t, r) {
      var k :| k in t.starts && t.starts[k].room == r;
      assert StartOk(t, k);
    }
  }

  lemma SubsetSize<T>(small: set<T>, big: set<T>)
    requires small <= big
    ensures |small| <= |big| && (|small| == |big| ==> small == big)
  {
    assert big == small + (big - small);
  }

  /** The counting test fires exactly when there are two members and every one of them is ready. */
  lemma AutoStartExactness(crc: HashFn, events: seq<Event>, states: seq<Table>, i: nat, r: GameRoom)
    requires TableRun(crc, events, states) && i < |states| && r in states[i].roomData
    ensures var room := states[i].roomData[r];
      room.ready.Keys == room.sessions.Keys &&
      (AutoStart(room) <==> |room.sessions| == 2 && forall p :: p in room.sessions ==> room.ready[p])
  {
    ReachableStatesAreSound(crc, events, states, i);
    assert MembersOk(states[i], r);
    var room := states[i].roomData[r];
    SubsetSize(ReadyOnes(room.ready), room.sessions.Keys);
    assert |room.sessions| == |room.sessions.Keys|;
    if forall p :: p in room.sessions ==> room.ready[p] {
      SameSet(ReadyOnes(room.ready), room.sessions.Keys);
    }
    if AutoStart(room) {
      forall p | p in room.sessions ensures room.ready[p] {
        assert p in ReadyOnes(room.ready);
      }
    }
  }

  /** While a live room plays, nobody joins or leaves it. */
  lemma {:induction false} PlayersFixedWhilePlaying(crc: HashFn, events: seq<Event>, states: seq<Table>,
                                                    i: nat, j: nat, r: GameRoom)
    requires TableRun(crc, events, states) && i <= j < |states|
    requires forall m :: i <= m <= j ==>
      r in states[m].roomData && Live(states[m], r) && states[m].roomData[r].status == Playing
    ensures states[j].roomData[r].sessions == states[i].roomData[r].sessions
  {
    if i < j {
      PlayersFixedWhilePlaying(crc, events, states, i, j - 1, r);
      ReachableStatesAreSound(crc, events, states, j - 1);
      assert Next(crc, states[j - 1], events[j - 1], states[j]);
      EventThins(crc, states[j - 1], events[j - 1]);
      assert Thins(states[j - 1], states[j], r);
    }
  }

  /** `init` is the battle room `r` has requested from, or had accepted by, an engine. */
  ghost predicate BattleOf(t: Table, r: GameRoom, init: BattleInit) {
    || (exists k :: k in t.starts && t.starts[k].room == r &&
                    Requested(t.starts[k].phase) && t.starts[k].phase.init == init)
    || (r in t.accepted && t.accepted[r].init == init)
  }

  lemma BattleFitsPlayers(t: Table, r: GameRoom, init: BattleInit)
    requires Inv(t) && r in t.roomData && Live(t, r) && t.roomData[r].status == Playing && BattleOf(t, r, init)
    ensures Fits(init, t.roomData[r].sessions.Keys)
  {
    assert BattleOk(t, t.roomData[r].id);
    if k :| k in t.starts && t.starts[k].room == r && Requested(t.starts[k].phase) && t.starts[k].phase.init == init {
      assert SidedStart(t.starts[k]);
    }
  }

  /** Side agreement over a whole battle: whenever between two moments of uninterrupted play the
      battle was requested or accepted, the server answers "a" (or "b") at the later moment, and at
      the earlier one, for exactly the player the engine knows as side A (or B). */
  lemma SidesAgree(crc: HashFn, events: seq<Event>, states: seq<Table>, i: nat, m: nat, j: nat, r: GameRoom,
                   init: BattleInit, p: string)
    requires TableRun(crc, events, states) && i <= m <= j < |states|
    requires forall n :: i <= n <= j ==>
      r in states[n].roomData && Live(states[n], r) && states[n].roomData[r].status == Playing
    requires BattleOf(states[m], r, init)
    ensures forall n :: i <= n <= j ==>
      && states[n].roomData[r].sessions == states[i].roomData[r].sessions
      && (SideOf(states[n].roomData[r].sessions.Keys, p) == Some(A) <==> p == init.sideA.name)
      && (SideOf(states[n].roomData[r].sessions.Keys, p) == Some(B) <==> p == init.sideB.name)
    ensures forall n :: i <= n <= j && SideOf(states[n].roomData[r].sessions.Keys, p).Some? ==>
      var text := SideText(SideOf(states[n].roomData[r].sessions.Keys, p).value);
      (text == "a" <==> p == init.sideA.name) && (text == "b" <==> p == init.sideB.name)
  {
    ReachableStatesAreSound(crc, events, states, m);
    BattleFitsPlayers(states[m], r, init);
    FittingSides(init, states[m].roomData[r].sessions.Keys, p);
    PlayersFixedWhilePlaying(crc, events, states, i, m, r);
    forall n | i <= n <= j ensures states[n].roomData[r].sessions == states[i].roomData[r].sessions {
      PlayersFixedWhilePlaying(crc, events, states, i, n, r);
    }
  }

  /** While a room is not waiting, its players only become fewer. */
  lemma {:induction false} PlayersOnlyLeave(crc: HashFn, events: seq<Event>, states: seq<Table>, i: nat,
                                            j: nat, r: GameRoom)
    requires TableRun(crc, events, states) && i <= j < |states| && r in states[i].roomData
    requires forall m :: i <= m < j && r in states[m].roomData ==> states[m].roomData[r].status != Waiting
    ensures r in states[j].roomData && Within(states[j].roomData[r].sessions, states[i].roomData[r].sessions)
  {
    if i < j {
      PlayersOnlyLeave(crc, events, states, i, j - 1, r);
      ReachableStatesAreSound(crc, events, states, j - 1);
      assert Next(crc, states[j - 1], events[j - 1], states[j]);
      EventThins(crc, states[j - 1], events[j - 1]);
      assert r in states[j].roomData;
      assert Thins(states[j - 1], states[j], r);
    }
  }

  /** A finished room with no start unresolved stays finished, whatever follows. */
  lemma {:induction false} FinishedStaysFinished(crc: HashFn, events: seq<Event>, states: seq<Table>, i: nat,
                                                 j: nat, r: GameRoom)
    requires TableRun(crc, events, states) && i <= j < |states| && Over(states[i], r)
    ensures Over(states[j], r)
  {
    if i < j {
      FinishedStaysFinished(crc, events, states, i, j - 1, r);
      ReachableStatesAreSound(crc, events, states, j - 1);
      assert Next(crc, states[j - 1], events[j - 1], states[j]);
      EventKeepsOver(crc, states[j - 1], events[j - 1], r);
    }
  }

  /** The answers with which a start gives up. */
  predicate GivesUp(a: Attempt, o: StartOracle) {
    match a.phase
    case Claimed => |a.roster| < 2 || o.node.None?
    case Launched(_, _) => !o.targetFound && o.node.None?
    case Calling(_, _, _, failed) => !o.created && failed + 1 >= MAX_TRIES
  }

  lemma SelectStaysFinished(t: Table, s: Session, input: SelectInput, r: GameRoom)
    requires Refers(t) && s in t.sessions && r in t.roomData && t.roomData[r].status == Finished
    ensures r in Select(t, s, input).roomData && Select(t, s, input).roomData[r].status == Finished
  {
    if SelectOutcome(t, s, input) == Chosen {
      var stored := SetSession(t, s, t.sessions[s].(team := StoredTeam(input.team)));
      var q := t.rooms[t.sessions[s].roomID];
      var chosen := SetRoom(stored, q, t.roomData[q].(ready := t.roomData[q].ready[t.sessions[s].player := true]));
      assert chosen.roomData[r].status == Finished;
    }
  }

  lemma StartRequestStaysFinished(t: Table, s: Session, r: GameRoom)
    requires Refers(t) && s in t.sessions && r in t.roomData && t.roomData[r].status == Finished
    ensures r in StartRequest(t, s).roomData && StartRequest(t, s).roomData[r].status == Finished
  {
  }

  lemma RestoreStaysFinished(t: Table, snap: RoomSnapshot, q: GameRoom, made: map<string, Session>, r: GameRoom)
    requires q !in t.roomData && r in t.roomData && t.roomData[r].status == Finished
    ensures r in Restore(t, snap, q, made).roomData && Restore(t, snap, q, made).roomData[r].status == Finished
  {
  }

  lemma QuietStepStaysFinished(crc: HashFn, t: Table, e: Event, r: GameRoom)
    requires Placed(t) && Enabled(t, e) && r in t.roomData && t.roomData[r].status == Finished && !e.StartSteps?
    ensures r in Apply(crc, t, e).roomData && Apply(crc, t, e).roomData[r].status == Finished
  {
    match e
    case Selects(s, input) => SelectStaysFinished(t, s, input, r);
    case Starts(s) => StartRequestStaysFinished(t, s, r);
    case Restores(snap, q, made) => RestoreStaysFinished(t, snap, q, made, r);
    case _ => EventWinds(crc, t, e);
  }

  lemma GivesUpFails(crc: HashFn, t: Table, k: nat, o: StartOracle)
    requires Refers(t) && k in t.starts && RosterOk(t, t.starts[k].roster)
    ensures NextMove(crc, t, k, o).Fails? <==> GivesUp(t.starts[k], o)
  {
  }

  lemma StartStepReopens(crc: HashFn, t: Table, k: nat, o: StartOracle, r: GameRoom)
    requires Refers(t) && k in t.starts && RosterOk(t, t.starts[k].roster)
    requires r in t.roomData && t.roomData[r].status == Finished
    ensures r in StartStep(crc, t, k, o).roomData
    ensures StartStep(crc, t, k, o).roomData[r].status ==
            if t.starts[k].room == r && GivesUp(t.starts[k], o) then Waiting else Finished
  {
    GivesUpFails(crc, t, k, o);
    var move := NextMove(crc, t, k, o);
    assert move.Launches? ==> StartStep(crc, t, k, o) == Launch(t, k, move.init, move.node);
  }

  /** A finished room is not final while its start is unresolved: it waits again exactly when that
      start gives up. */
  lemma FinishedReopensExactly(crc: HashFn, t: Table, e: Event, r: GameRoom)
    requires Placed(t) && Enabled(t, e) && r in t.roomData && t.roomData[r].status == Finished
    ensures r in Apply(crc, t, e).roomData
    ensures Apply(crc, t, e).roomData[r].status != Finished <==>
            e.StartSteps? && t.starts[e.k].room == r && GivesUp(t.starts[e.k], e.answers)
  {
    if e.StartSteps? {
      assert RosterOk(t, t.starts[e.k].roster);
      StartStepReopens(crc, t, e.k, e.answers, r);
    } else {
      QuietStepStaysFinished(crc, t, e, r);
    }
  }
}
