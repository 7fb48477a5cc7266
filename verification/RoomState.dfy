/** Rooms and sessions: the objects, and the table of them as a value in which object references
    serve as identities. Every command and every step of a start is a function on that value. */
module RoomState {
  import opened Ordering
  import opened HashRing

  datatype Status = Waiting | Playing | Finished | Other(code: int)

  function StatusOf(code: int): Status {
    if code == 0 then Waiting else if code == 1 then Playing else if code == 2 then Finished else Other(code)
  }

  const MAX_PLAYERS_PER_ROOM := 2
  const MAX_TEAM := 6
  const MAX_TRIES := 3

  datatype Stats = Stats(hp: int, attack: int, defense: int, specialAttack: int, specialDefense: int, speed: int)

  datatype Pokemon = Pokemon(species: int, level: int, nature: int, ability: int, item: int,
                             ivs: Stats, evs: Stats, moves: seq<int>)

  type Team = seq<Pokemon>

  // A requested Pokemon; `hasAbility` is whether its ability field was a number at all.
  datatype PokemonRequest = PokemonRequest(pokemon: Pokemon, hasAbility: bool)

  datatype SelectInput = Empty | Malformed | Request(team: seq<PokemonRequest>)

  class Session {
    const player: string
    var roomID: string
    var online: bool
    var team: Team

    constructor (player: string, roomID: string, online: bool, team: Team)
      ensures this.player == player && Val() == SessionVal(player, roomID, online, team)
    {
      this.player, this.roomID, this.online, this.team := player, roomID, online, team;
    }

    function Val(): SessionVal
      reads this
    {
      SessionVal(player, roomID, online, team)
    }
  }

  class GameRoom {
    const id: string
    var sessions: map<string, Session>
    var ready: map<string, bool>
    var status: Status
    var nodeID: int

    constructor (id: string, status: Status, nodeID: int)
      ensures this.id == id && Val() == RoomVal(id, map[], map[], status, nodeID)
    {
      this.id, this.status, this.nodeID := id, status, nodeID;
      sessions, ready := map[], map[];
    }

    method Reseat(sessions: map<string, Session>, ready: map<string, bool>)
      modifies this`sessions, this`ready
      ensures Val() == old(Val()).(sessions := sessions, ready := ready)
    {
      this.sessions, this.ready := sessions, ready;
    }

    function Val(): RoomVal
      reads this
    {
      RoomVal(id, sessions, ready, status, nodeID)
    }
  }

  datatype SessionVal = SessionVal(player: string, roomID: string, online: bool, team: Team)

  datatype RoomVal = RoomVal(id: string, sessions: map<string, Session>, ready: map<string, bool>,
                             status: Status, nodeID: int)

  datatype RoomSnapshot = RoomSnapshot(roomID: string, status: int, nodeID: int, serverID: string,
                                       players: seq<string>, ready: map<string, bool>, selected: map<string, Team>)

  datatype Side = A | B

  datatype BattleSide = BattleSide(name: string, team: Team)

  datatype BattleInit = BattleInit(sideA: BattleSide, sideB: BattleSide, seed: Hash)

  /** How far a start has come: the room is claimed; a target node is assigned and the engine call
      is about to be made in the background; `node`, the target or a fallback, is being called and
      some of the tries have failed. */
  datatype Phase =
    | Claimed
    | Launched(init: BattleInit, target: int)
    | Calling(init: BattleInit, target: int, node: int, failed: nat)

  datatype Attempt = Attempt(room: GameRoom, roster: map<string, Session>, phase: Phase)

  datatype Acceptance = Acceptance(init: BattleInit, roster: map<string, Session>, target: int, node: int, tries: nat)

  /** The rooms by id, the sessions by user, the contents of every room and session object ever
      made, the unresolved starts, the battles engines accepted, the rooms restored as already
      playing, and the snapshot store. */
  datatype Table = Table(
    rooms: map<string, GameRoom>,
    users: map<string, Session>,
    roomData: map<GameRoom, RoomVal>,
    sessions: map<Session, SessionVal>,
    starts: map<nat, Attempt>,
    nextStart: nat,
    accepted: map<GameRoom, Acceptance>,
    resumed: set<GameRoom>,
    store: map<string, RoomSnapshot>)

  const EMPTY_TABLE := Table(map[], map[], map[], map[], map[], 0, map[], {}, map[])

  function SetRoom(t: Table, r: GameRoom, v: RoomVal): Table {
    t.(roomData := t.roomData[r := v])
  }

  function SetSession(t: Table, s: Session, v: SessionVal): Table {
    t.(sessions := t.sessions[s := v])
  }

  // ----- sessions -----

  /** A socket for `uid`: the known session comes back online, or `newcomer` is registered. */
  function ConnectUser(t: Table, uid: string, newcomer: Session): Table
    requires uid in t.users ==> t.users[uid] in t.sessions
  {
    if uid in t.users then SetSession(t, t.users[uid], t.sessions[t.users[uid]].(online := true))
    else SetSession(t, newcomer, SessionVal(uid, "", true, [])).(users := t.users[uid := newcomer])
  }

  function Disconnect(t: Table, s: Session): Table
    requires s in t.sessions
  {
    SetSession(t, s, t.sessions[s].(online := false))
  }

  // ----- rooms -----

  predicate Refers(t: Table) {
    && (forall id :: id in t.rooms ==> t.rooms[id] in t.roomData)
    && (forall u :: u in t.users ==> t.users[u] in t.sessions)
    && (forall k :: k in t.starts ==> t.starts[k].room in t.roomData)
  }

  lemma AddedUserRefers(t: Table, uid: string, s: Session)
    requires Refers(t)
    ensures Refers(ConnectUser(t, uid, s))
  {
  }

  /** `t` with one room and one session rewritten. */
  function Rewrite(t: Table, r: GameRoom, room: RoomVal, s: Session, session: SessionVal): Table {
    t.(roomData := t.roomData[r := room], sessions := t.sessions[s := session])
  }

  function Create(t: Table, s: Session, r: GameRoom, id: string): Table
    requires s in t.sessions
  {
    var p := t.sessions[s].player;
    Rewrite(t, r, RoomVal(id, map[p := s], map[p := false], Waiting, 0), s, t.sessions[s].(roomID := id)).(
      rooms := t.rooms[id := r])
  }

  datatype JoinResult = Joined | NoSuchRoom | AlreadyInside | NotWaiting | Full

  function JoinOutcome(t: Table, s: Session, id: string): JoinResult
    requires Refers(t) && s in t.sessions
  {
    if id !in t.rooms then NoSuchRoom
    else
      var room := t.roomData[t.rooms[id]];
      if t.sessions[s].player in room.sessions then AlreadyInside
      else if room.status != Waiting then NotWaiting
      else if |room.sessions| >= MAX_PLAYERS_PER_ROOM then Full
      else Joined
  }

  function Join(t: Table, s: Session, id: string): Table
    requires Refers(t) && s in t.sessions
  {
    if JoinOutcome(t, s, id) != Joined then t
    else
      var p, r := t.sessions[s].player, t.rooms[id];
      Rewrite(t, r, JoinedRoom(t.roomData[r], p, s), s, t.sessions[s].(roomID := id))
  }

  function JoinedRoom(room: RoomVal, p: string, s: Session): RoomVal {
    room.(sessions := room.sessions[p := s], ready := room.ready[p := false])
  }

  /** A room without player `p`; a battle in progress stops unless nobody is left. */
  function LeftRoom(room: RoomVal, p: string): RoomVal {
    room.(sessions := room.sessions - {p}, ready := room.ready - {p},
          status := if |room.sessions - {p}| != 0 && room.status == Playing then Finished else room.status)
  }

  /** Leaving empties the room, which deletes it, or stops a battle in progress. */
  function Leave(t: Table, s: Session, id: string): Table
    requires Refers(t) && s in t.sessions
  {
    if id !in t.rooms then t
    else
      var left := LeftRoom(t.roomData[t.rooms[id]], t.sessions[s].player);
      Rewrite(t, t.rooms[id], left, s, t.sessions[s].(roomID := "")).(
        rooms := if |left.sessions| == 0 then t.rooms - {id} else t.rooms)
  }

  /** The steps of creation, joined. */
  lemma CreateInSteps(t: Table, s: Session, r: GameRoom, id: string)
    requires s in t.sessions
    ensures var p := t.sessions[s].player;
            var added := SetRoom(t, r, RoomVal(id, map[], map[], Waiting, 0)).(rooms := t.rooms[id := r]);
            var named := SetSession(added, s, t.sessions[s].(roomID := id));
            var seated := named.roomData[r].(sessions := map[p := s], ready := map[p := false]);
            SetRoom(named, r, seated) == Create(t, s, r, id)
  {
  }

  /** The steps of leaving, joined. */
  lemma LeaveInSteps(t: Table, s: Session, id: string)
    requires Refers(t) && s in t.sessions && id in t.rooms
    ensures var r, p := t.rooms[id], t.sessions[s].player; var room := t.roomData[r];
            var emptied := SetRoom(t, r, room.(sessions := room.sessions - {p}, ready := room.ready - {p}));
            var out := SetSession(emptied, s, t.sessions[s].(roomID := ""));
            Leave(t, s, id) ==
              if |room.sessions - {p}| == 0 then out.(rooms := out.rooms - {id})
              else if room.status == Playing then SetRoom(out, r, out.roomData[r].(status := Finished)) else out
  {
  }

  /** A user still offline after the grace period is forgotten and leaves its room. */
  function CleanUp(t: Table, uid: string): Table
    requires Refers(t)
  {
    if uid !in t.users || t.sessions[t.users[uid]].online then t
    else
      var s := t.users[uid];
      var forgotten := t.(users := t.users - {uid});
      if t.sessions[s].roomID == "" then forgotten else Leave(forgotten, s, t.sessions[s].roomID)
  }

  // ----- choosing a team -----

  /** How many leading requests carry a numeric ability. */
  function ValidPrefix(team: seq<PokemonRequest>): (n: nat)
    ensures n <= |team|
    ensures forall i :: 0 <= i < n ==> team[i].hasAbility
    ensures n < |team| ==> !team[n].hasAbility
  {
    if team == [] || !team[0].hasAbility then 0 else 1 + ValidPrefix(team[1..])
  }

  /** What the conversion loop has stored when it ends or gives up. */
  function StoredTeam(team: seq<PokemonRequest>): Team {
    seq(ValidPrefix(team), i requires 0 <= i < ValidPrefix(team) => team[i].pokemon)
  }

  function ReadyOnes(ready: map<string, bool>): set<string> {
    set p | p in ready && ready[p]
  }

  /** The counting test that starts a battle by itself. */
  predicate AutoStart(room: RoomVal) {
    |room.sessions| == 2 && |ReadyOnes(room.ready)| == 2
  }

  function Claim(t: Table, r: GameRoom): Table
    requires r in t.roomData
  {
    var room := t.roomData[r];
    if room.status != Waiting then t
    else t.(roomData := t.roomData[r := room.(status := Playing)],
            starts := t.starts[t.nextStart := Attempt(r, room.sessions, Claimed)], nextStart := t.nextStart + 1)
  }

  /** A new attempt to start room `r` with the sessions in it. */
  function Begin(t: Table, r: GameRoom): Table
    requires r in t.roomData
  {
    t.(starts := t.starts[t.nextStart := Attempt(r, t.roomData[r].sessions, Claimed)], nextStart := t.nextStart + 1)
  }

  datatype SelectResult = NoRoom | NotInside | Started | NoData | BadData | TooMany | BadAbility | Chosen

  function SelectOutcome(t: Table, s: Session, input: SelectInput): SelectResult
    requires Refers(t) && s in t.sessions
  {
    var id := t.sessions[s].roomID;
    if id == "" || id !in t.rooms then NoRoom
    else
      var room := t.roomData[t.rooms[id]];
      if t.sessions[s].player !in room.sessions then NotInside
      else if room.status != Waiting then Started
      else if input.Empty? then NoData
      else if input.Malformed? then BadData
      else if |input.team| > MAX_TEAM then TooMany
      else if ValidPrefix(input.team) < |input.team| then BadAbility
      else Chosen
  }

  /** The player's flag goes up; with both up, the battle is claimed. */
  function MarkReady(t: Table, r: GameRoom, p: string): Table
    requires r in t.roomData
  {
    var room := t.roomData[r].(ready := t.roomData[r].ready[p := true]);
    if AutoStart(room) then Claim(SetRoom(t, r, room), r) else SetRoom(t, r, room)
  }

  function Select(t: Table, s: Session, input: SelectInput): Table
    requires Refers(t) && s in t.sessions
  {
    var outcome := SelectOutcome(t, s, input);
    if outcome != BadAbility && outcome != Chosen then t
    else
      var stored := SetSession(t, s, t.sessions[s].(team := StoredTeam(input.team)));
      if outcome == BadAbility then stored
      else MarkReady(stored, t.rooms[t.sessions[s].roomID], t.sessions[s].player)
  }

  function StartRequest(t: Table, s: Session): Table
    requires Refers(t) && s in t.sessions
  {
    var id := t.sessions[s].roomID;
    if id == "" || id !in t.rooms then t else Claim(t, t.rooms[id])
  }

  // ----- sides -----

  ghost function SortedNames(names: set<string>): seq<string> {
    StringLeTotal();
    Ascending(StringLe, names)
  }

  /** The side the server injects into a player's actions. */
  ghost function SideOf(names: set<string>, player: string): Option<Side> {
    var ids := SortedNames(names);
    if |ids| == 0 then None
    else if player == ids[0] then Some(A)
    else if |ids| >= 2 && player == ids[1] then Some(B)
    else None
  }

  /** Side A is the least name; side B the least of the others. */
  lemma SideOfMeaning(names: set<string>, p: string)
    ensures SideOf(names, p) == Some(A) <==> p in names && forall q :: q in names ==> StringLe(p, q)
    ensures SideOf(names, p) == Some(B) <==>
              p in names &&
              exists a :: a in names && a != p && StringLe(a, p) &&
                          (forall q :: q in names && q != a ==> StringLe(a, q) && StringLe(p, q))
  {
    StringLeTotal();
    var ids := SortedNames(names);
    OrderMembers(ids, names);
    OrderDistinct(ids, names);
    forall q | q in names && |ids| > 0 ensures StringLe(ids[0], q) {
      var i :| 0 <= i < |ids| && ids[i] == q;
    }
    forall q | q in names && |ids| >= 2 && q != ids[0] ensures StringLe(ids[1], q) {
      var i :| 0 <= i < |ids| && ids[i] == q;
    }
    if p in names && p != ids[0] {
      var i :| 0 <= i < |ids| && ids[i] == p;
      assert |ids| >= 2;
    }
  }

  /** How a side is written into an action. */
  function SideText(side: Side): string {
    if side == A then "a" else "b"
  }

  ghost predicate RosterOk(t: Table, roster: map<string, Session>) {
    forall p :: p in roster ==> roster[p] in t.sessions && t.sessions[roster[p]].player == p
  }

  /** The battle the engine is asked to set up for these sessions. */
  ghost function BuildInit(crc: HashFn, t: Table, id: string, roster: map<string, Session>): BattleInit
    requires |roster| >= 2 && RosterOk(t, roster)
  {
    var ids := SortedNames(roster.Keys);
    OrderMembers(ids, roster.Keys);
    BattleInit(BattleSide(ids[0], t.sessions[roster[ids[0]]].team),
               BattleSide(ids[1], t.sessions[roster[ids[1]]].team), crc(id))
  }

  // ----- the background start -----

  /** Answers of the outside world to one step of a start: the node chosen for the room, whether
      the assigned node is still registered, and whether the engine accepted this try. */
  datatype StartOracle = StartOracle(node: Option<int>, targetFound: bool, created: bool)

  function FailStart(t: Table, k: nat): Table
    requires Refers(t) && k in t.starts
  {
    var r := t.starts[k].room;
    t.(roomData := t.roomData[r := t.roomData[r].(status := Waiting)], starts := t.starts - {k})
  }

  function SetPhase(t: Table, k: nat, phase: Phase): Table
    requires k in t.starts
  {
    t.(starts := t.starts[k := t.starts[k].(phase := phase)])
  }

  /** The room gets its node and the engine call is handed to the background. */
  function Launch(t: Table, k: nat, init: BattleInit, node: int): Table
    requires Refers(t) && k in t.starts
  {
    var a := t.starts[k];
    t.(roomData := t.roomData[a.room := t.roomData[a.room].(nodeID := node)],
       starts := t.starts[k := a.(phase := Launched(init, node))])
  }

  function Accepted(a: Attempt): Acceptance
    requires a.phase.Calling?
  {
    Acceptance(a.phase.init, a.roster, a.phase.target, a.phase.node, a.phase.failed + 1)
  }

  function Accept(t: Table, k: nat): Table
    requires k in t.starts && t.starts[k].phase.Calling?
  {
    t.(accepted := t.accepted[t.starts[k].room := Accepted(t.starts[k])], starts := t.starts - {k})
  }

  /** What one step of a start decides. */
  datatype StartMove = Fails | Launches(init: BattleInit, node: int) | Proceeds(phase: Phase) | Succeeds

  /** Each step follows the phase; a start never changes its battle or its target once assigned,
      nor the node it calls once found. */
  ghost function NextMove(crc: HashFn, t: Table, k: nat, o: StartOracle): (move: StartMove)
    requires Refers(t) && k in t.starts && RosterOk(t, t.starts[k].roster)
    ensures move.Launches? ==> t.starts[k].phase.Claimed?
    ensures move.Succeeds? ==> t.starts[k].phase.Calling?
    ensures move.Proceeds? ==>
              var old_ := t.starts[k].phase;
              && move.phase.Calling? && !old_.Claimed?
              && move.phase.init == old_.init && move.phase.target == old_.target && move.phase.failed < MAX_TRIES
              && move.phase.failed == (if old_.Calling? then old_.failed + 1 else 0)
              && (old_.Calling? ==> move.phase.node == old_.node)
  {
    var a := t.starts[k];
    match a.phase
    case Claimed =>
      if |a.roster| < 2 || o.node.None? then Fails
      else Launches(BuildInit(crc, t, t.roomData[a.room].id, a.roster), o.node.value)
    case Launched(init, target) =>
      if o.targetFound then Proceeds(Calling(init, target, target, 0))
      else if o.node.Some? then Proceeds(Calling(init, target, o.node.value, 0))
      else Fails
    case Calling(init, target, node, failed) =>
      if o.created then Succeeds
      else if failed + 1 < MAX_TRIES then Proceeds(Calling(init, target, node, failed + 1))
      else Fails
  }

  ghost function StartStep(crc: HashFn, t: Table, k: nat, o: StartOracle): Table
    requires Refers(t) && k in t.starts && RosterOk(t, t.starts[k].roster)
  {
    match NextMove(crc, t, k, o)
    case Fails => FailStart(t, k)
    case Launches(init, node) => Launch(t, k, init, node)
    case Proceeds(phase) => SetPhase(t, k, phase)
    case Succeeds => Accept(t, k)
  }

  /** The step of a claimed start. */
  lemma ClaimedStep(crc: HashFn, t: Table, k: nat, o: StartOracle)
    requires Refers(t) && k in t.starts && RosterOk(t, t.starts[k].roster) && t.starts[k].phase.Claimed?
    ensures var a := t.starts[k];
            StartStep(crc, t, k, o) ==
            if |a.roster| < 2 || o.node.None? then FailStart(t, k)
            else Launch(t, k, BuildInit(crc, t, t.roomData[a.room].id, a.roster), o.node.value)
  {
  }

  /** The step of a start whose connection is being looked up. */
  lemma LaunchedStep(crc: HashFn, t: Table, k: nat, o: StartOracle)
    requires Refers(t) && k in t.starts && RosterOk(t, t.starts[k].roster) && t.starts[k].phase.Launched?
    ensures var target := t.starts[k].phase.target;
            var node := if o.targetFound then Some(target) else o.node;
            StartStep(crc, t, k, o) ==
            if node.None? then FailStart(t, k)
            else SetPhase(t, k, Calling(t.starts[k].phase.init, target, node.value, 0))
  {
  }

  /** The step of a start that calls an engine. */
  lemma CallingStep(crc: HashFn, t: Table, k: nat, o: StartOracle)
    requires Refers(t) && k in t.starts && RosterOk(t, t.starts[k].roster) && t.starts[k].phase.Calling?
    ensures var phase := t.starts[k].phase;
            StartStep(crc, t, k, o) ==
            if o.created then Accept(t, k)
            else if phase.failed + 1 < MAX_TRIES then SetPhase(t, k, phase.(failed := phase.failed + 1))
            else FailStart(t, k)
  {
  }

  /** A claim of a waiting room, in steps. */
  lemma ClaimInSteps(t: Table, r: GameRoom)
    requires r in t.roomData && t.roomData[r].status == Waiting
    ensures Begin(SetRoom(t, r, t.roomData[r].(status := Playing)), r) == Claim(t, r)
  {
  }

  /** A failing start, in steps. */
  lemma FailInSteps(t: Table, k: nat)
    requires Refers(t) && k in t.starts
    ensures var r := t.starts[k].room; var reopened := SetRoom(t, r, t.roomData[r].(status := Waiting));
            reopened.(starts := reopened.starts - {k}) == FailStart(t, k)
  {
  }

  /** The assignment of a node, in steps. */
  lemma LaunchInSteps(t: Table, k: nat, init: BattleInit, node: int)
    requires Refers(t) && k in t.starts
    ensures var r := t.starts[k].room;
            SetPhase(SetRoom(t, r, t.roomData[r].(nodeID := node)), k, Launched(init, node)) == Launch(t, k, init, node)
  {
  }

  // ----- restoring -----

  /** The players named by any part of a snapshot. */
  function PlayersOf(snap: RoomSnapshot): set<string> {
    (set p | p in snap.players) + snap.ready.Keys + snap.selected.Keys - {""}
  }

  function RestoredSession(snap: RoomSnapshot, player: string): SessionVal {
    SessionVal(player, snap.roomID, false, if player in snap.selected then snap.selected[player] else [])
  }

  function RestoredSessions(snap: RoomSnapshot, made: map<string, Session>): map<Session, SessionVal> {
    map s | s in made.Values :: RestoredSession(snap, s.player)
  }

  function ReadyFor(snap: RoomSnapshot, players: set<string>): map<string, bool> {
    map p | p in players :: p in snap.ready && snap.ready[p]
  }

  lemma ReadyForOneMore(snap: RoomSnapshot, players: set<string>, p: string)
    ensures ReadyFor(snap, players + {p}) == ReadyFor(snap, players)[p := p in snap.ready && snap.ready[p]]
  {
  }

  function RestoredReady(snap: RoomSnapshot): map<string, bool> {
    ReadyFor(snap, PlayersOf(snap))
  }

  /** A room object `r` and one new session per player, as the snapshot describes them. */
  function Restore(t: Table, snap: RoomSnapshot, r: GameRoom, made: map<string, Session>): Table {
    t.(rooms := t.rooms[snap.roomID := r],
       users := t.users + made,
       roomData := t.roomData[r := RoomVal(snap.roomID, made, RestoredReady(snap), StatusOf(snap.status), snap.nodeID)],
       sessions := t.sessions + RestoredSessions(snap, made),
       resumed := if StatusOf(snap.status) == Playing then t.resumed + {r} else t.resumed)
  }

  /** The steps of restoring, joined. */
  lemma RestoreInSteps(t: Table, snap: RoomSnapshot, r: GameRoom, made: map<string, Session>)
    ensures var adopted := t.(users := t.users + made,
                              sessions := t.sessions + RestoredSessions(snap, made));
            var status := StatusOf(snap.status);
            var added := SetRoom(adopted, r, RoomVal(snap.roomID, map[], map[], status, snap.nodeID)).(
                           rooms := t.rooms[snap.roomID := r],
                           resumed := if status == Playing then t.resumed + {r} else t.resumed);
            var seated := added.roomData[r].(sessions := made, ready := RestoredReady(snap));
            SetRoom(added, r, seated) == Restore(t, snap, r, made)
  {
  }
}
