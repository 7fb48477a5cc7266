/** Laws that relate commands to one another: what a leave undoes, what matching makes, which choice
    starts a battle, and how long a start can take. */
module RoomLaws {
  import opened Ordering
  import opened HashRing
  import opened RoomState
  import opened RoomPlacement
  import opened RoomLifecycle
  import opened RoomEvents
  import opened RoomRuns

  /** Leaving undoes joining: the room and every other object are as before, and the session that
      came and went is in no room. */
  lemma LeaveUndoesJoin(t: Table, s: Session, id: string)
    requires Placed(t) && s in t.sessions && JoinOutcome(t, s, id) == Joined
    ensures Refers(Join(t, s, id))
    ensures Leave(Join(t, s, id), s, id) == SetSession(t, s, t.sessions[s].(roomID := ""))
  {
    var r, p := t.rooms[id], t.sessions[s].player;
    var room := t.roomData[r];
    assert LiveOk(t, id) && MembersOk(t, r);
    var joined := JoinedRoom(room, p, s);
    assert joined.sessions - {p} == room.sessions && joined.ready - {p} == room.ready;
    assert LeftRoom(joined, p) == room;
    assert t.roomData[r := joined][r := room] == t.roomData;
    var inside, outside := t.sessions[s].(roomID := id), t.sessions[s].(roomID := "");
    assert t.sessions[s := inside][s := outside] == t.sessions[s := outside];
  }

  /** A second player `q` joins the room that player `p` has just made. */
  lemma SecondPlayerJoins(t: Table, s1: Session, s2: Session, r: GameRoom, id: string, p: string, q: string)
    requires Refers(t) && s1 in t.sessions && s2 in t.sessions && t.sessions[s2].player == q != p
    requires t.sessions[s1].roomID == id && id in t.rooms && t.rooms[id] == r
    requires t.roomData[r] == RoomVal(id, map[p := s1], map[p := false], Waiting, 0)
    ensures JoinOutcome(t, s2, id) == Joined
    ensures var t' := Join(t, s2, id);
      && t'.rooms == t.rooms
      && t'.roomData == t.roomData[r := RoomVal(id, map[p := s1, q := s2], map[p := false, q := false], Waiting, 0)]
      && t'.sessions[s1].roomID == id == t'.sessions[s2].roomID
  {
  }

  /** Two different users taken from the match queue end up, both not ready, in one waiting room. */
  lemma MatchPairsPlayers(t: Table, s1: Session, s2: Session, r: GameRoom, id: string)
    requires Refers(t) && s1 in t.sessions && s2 in t.sessions && t.sessions[s1].player != t.sessions[s2].player
    requires r !in t.roomData && id !in t.rooms
    ensures Refers(Create(t, s1, r, id))
    ensures JoinOutcome(Create(t, s1, r, id), s2, id) == Joined
    ensures var p1, p2 := t.sessions[s1].player, t.sessions[s2].player;
            var paired := RoomVal(id, map[p1 := s1, p2 := s2], map[p1 := false, p2 := false], Waiting, 0);
            var t' := Join(Create(t, s1, r, id), s2, id);
      && t'.rooms == t.rooms[id := r] && t'.roomData == t.roomData[r := paired]
      && t'.sessions[s1].roomID == id == t'.sessions[s2].roomID
  {
    SecondPlayerJoins(Create(t, s1, r, id), s1, s2, r, id, t.sessions[s1].player, t.sessions[s2].player);
  }

  /** A user queued twice is not matched with itself. */
  lemma MatchRefusesSelf(t: Table, s1: Session, s2: Session, r: GameRoom, id: string)
    requires Refers(t) && s1 in t.sessions && s2 in t.sessions && t.sessions[s1].player == t.sessions[s2].player
    requires r !in t.roomData && id !in t.rooms
    ensures Refers(Create(t, s1, r, id))
    ensures Join(Create(t, s1, r, id), s2, id) == Create(t, s1, r, id)
  {
  }

  /** An accepted choice starts the battle exactly when the room has a second member who was
      already ready. */
  lemma SecondChoiceStarts(t: Table, s: Session, input: SelectInput)
    requires Placed(t) && s in t.sessions && SelectOutcome(t, s, input) == Chosen
    ensures var room := t.roomData[t.rooms[t.sessions[s].roomID]];
      Select(t, s, input).nextStart ==
      t.nextStart + (if exists q :: q in room.ready && q != t.sessions[s].player && room.ready[q] then 1 else 0)
  {
    var r, p := t.rooms[t.sessions[s].roomID], t.sessions[s].player;
    assert MembersOk(t, r) && LiveOk(t, t.sessions[s].roomID);
    SecondFlag(t.roomData[r], p);
  }

  /** In a room of at most two, raising a flag completes the count exactly when another flag is up. */
  lemma SecondFlag(room: RoomVal, p: string)
    requires room.ready.Keys == room.sessions.Keys && |room.sessions| <= 2 && p in room.sessions
    ensures AutoStart(room.(ready := room.ready[p := true])) <==> exists q :: q in room.ready && q != p && room.ready[q]
  {
    var chosen := room.(ready := room.ready[p := true]);
    assert |room.sessions| == |room.sessions.Keys|;
    SubsetSize(ReadyOnes(chosen.ready), room.sessions.Keys);
    if q :| q in room.ready && q != p && room.ready[q] {
      SubsetSize({p, q}, ReadyOnes(chosen.ready));
    } else {
      SameSet(ReadyOnes(chosen.ready), {p});
    }
  }

  // ----- how long a start can take -----

  /** Steps a start may still take: assigning, finding the connection, and the tries left. */
  function StepsLeft(phase: Phase): int {
    match phase
    case Claimed => 2 + MAX_TRIES
    case Launched(_, _) => 1 + MAX_TRIES
    case Calling(_, _, _, failed) => MAX_TRIES - failed
  }

  function StepsTaken(events: seq<Event>, k: nat, i: nat): nat
    requires i <= |events|
  {
    if i == 0 then 0
    else StepsTaken(events, k, i - 1) + if events[i - 1].StartSteps? && events[i - 1].k == k then 1 else 0
  }

  ghost predicate OnSchedule(t: Table, k: nat, taken: nat) {
    && (k in t.starts ==> taken + StepsLeft(t.starts[k].phase) == 2 + MAX_TRIES)
    && (k >= t.nextStart ==> k !in t.starts && taken == 0)
    && taken <= 2 + MAX_TRIES
  }

  /** Every other event leaves a start where it is, and only a fresh number can begin. */
  ghost predicate StartsGrow(t: Table, t': Table) {
    || (t'.starts == t.starts && t'.nextStart == t.nextStart)
    || (&& t'.nextStart == t.nextStart + 1
        && t.nextStart in t'.starts && t'.starts[t.nextStart].phase == Claimed
        && t'.starts == t.starts[t.nextStart := t'.starts[t.nextStart]])
  }

  lemma ClaimGrows(t: Table, r: GameRoom)
    requires r in t.roomData
    ensures StartsGrow(t, Claim(t, r))
  {
  }

  lemma ReadyGrows(t: Table, r: GameRoom, p: string)
    requires r in t.roomData
    ensures StartsGrow(t, MarkReady(t, r, p))
  {
    ClaimGrows(SetRoom(t, r, t.roomData[r].(ready := t.roomData[r].ready[p := true])), r);
  }

  lemma SelectGrows(t: Table, s: Session, input: SelectInput)
    requires Refers(t) && s in t.sessions
    ensures StartsGrow(t, Select(t, s, input))
  {
    if SelectOutcome(t, s, input) == Chosen {
      var stored := SetSession(t, s, t.sessions[s].(team := StoredTeam(input.team)));
      ReadyGrows(stored, t.rooms[t.sessions[s].roomID], t.sessions[s].player);
    }
  }

  lemma OtherEventsGrow(crc: HashFn, t: Table, e: Event)
    requires Placed(t) && Enabled(t, e) && !e.StartSteps?
    ensures StartsGrow(t, Apply(crc, t, e))
  {
    match e
    case Selects(s, input) => SelectGrows(t, s, input);
    case Starts(s) =>
    case Restores(snap, r, made) =>
    case _ => EventWinds(crc, t, e);
  }

  /** Start `k` came one step nearer to its end, and no other start changed. */
  ghost predicate Advanced(t: Table, t': Table, k: nat)
    requires k in t.starts
  {
    && t'.nextStart == t.nextStart && t'.starts - {k} == t.starts - {k}
    && (k in t'.starts ==> StepsLeft(t'.starts[k].phase) == StepsLeft(t.starts[k].phase) - 1)
  }

  lemma MoveAdvances(t: Table, t': Table, k: nat, phase: Phase)
    requires k in t.starts && t'.nextStart == t.nextStart && t'.starts == t.starts[k := t.starts[k].(phase := phase)]
    requires StepsLeft(phase) == StepsLeft(t.starts[k].phase) - 1
    ensures Advanced(t, t', k)
  {
    assert t'.starts - {k} == t.starts - {k};
  }

  lemma FailAdvances(t: Table, k: nat)
    requires Refers(t) && k in t.starts
    ensures Advanced(t, FailStart(t, k), k)
  {
  }

  lemma PhaseAdvances(t: Table, k: nat, phase: Phase)
    requires k in t.starts && StepsLeft(phase) == StepsLeft(t.starts[k].phase) - 1
    ensures Advanced(t, SetPhase(t, k, phase), k)
  {
    MoveAdvances(t, SetPhase(t, k, phase), k, phase);
  }

  lemma LaunchAdvances(t: Table, k: nat, init: BattleInit, node: int)
    requires Refers(t) && k in t.starts && t.starts[k].phase.Claimed?
    ensures Advanced(t, Launch(t, k, init, node), k)
  {
    MoveAdvances(t, Launch(t, k, init, node), k, Launched(init, node));
  }

  lemma AcceptAdvances(t: Table, k: nat)
    requires k in t.starts && t.starts[k].phase.Calling?
    ensures Advanced(t, Accept(t, k), k)
  {
  }

  lemma StepAdvances(crc: HashFn, t: Table, k: nat, o: StartOracle)
    requires Refers(t) && k in t.starts && RosterOk(t, t.starts[k].roster)
    ensures Advanced(t, StartStep(crc, t, k, o), k)
  {
    match NextMove(crc, t, k, o)
    case Fails => FailAdvances(t, k);
    case Launches(init, node) => LaunchAdvances(t, k, init, node);
    case Proceeds(phase) => PhaseAdvances(t, k, phase);
    case Succeeds => AcceptAdvances(t, k);
  }

  lemma OtherStart(t: Table, t': Table, j: nat, k: nat)
    requires j in t.starts && k != j && Advanced(t, t', j)
    ensures k in t'.starts <==> k in t.starts
    ensures k in t.starts ==> t'.starts[k] == t.starts[k]
  {
    assert k in t'.starts - {j} <==> k in t.starts - {j};
    assert k in t.starts ==> (t'.starts - {j})[k] == (t.starts - {j})[k];
  }

  lemma StepOnSchedule(crc: HashFn, t: Table, j: nat, o: StartOracle, k: nat, taken: nat)
    requires Placed(t) && Lifecycle(t) && j in t.starts && OnSchedule(t, k, taken)
    ensures RosterOk(t, t.starts[j].roster)
    ensures OnSchedule(StartStep(crc, t, j, o), k, taken + if j == k then 1 else 0)
  {
    assert RosterOk(t, t.starts[j].roster) && StartOk(t, j);
    StepAdvances(crc, t, j, o);
    if j != k {
      OtherStart(t, StartStep(crc, t, j, o), j, k);
    }
  }

  lemma StepKeepsSchedule(crc: HashFn, t: Table, e: Event, k: nat, taken: nat)
    requires Placed(t) && Lifecycle(t) && Enabled(t, e) && OnSchedule(t, k, taken)
    ensures OnSchedule(Apply(crc, t, e), k, taken + if e.StartSteps? && e.k == k then 1 else 0)
  {
    if e.StartSteps? {
      StepOnSchedule(crc, t, e.k, e.answers, k, taken);
    } else {
      OtherEventsGrow(crc, t, e);
    }
  }

  lemma ScheduleBound(t: Table, k: nat, taken: nat)
    requires Lifecycle(t) && OnSchedule(t, k, taken)
    ensures taken <= 5 && (taken == 5 ==> k !in t.starts)
  {
    if k in t.starts {
      assert StartOk(t, k);
    }
  }

  /** In every run a start takes at most five steps, then it is resolved for good: its number is
      never in use again. */
  lemma {:induction false} StartResolvesInFiveSteps(crc: HashFn, events: seq<Event>, states: seq<Table>, k: nat, i: nat)
    requires TableRun(crc, events, states) && i < |states|
    ensures StepsTaken(events, k, i) <= 5
    ensures StepsTaken(events, k, i) == 5 ==> k !in states[i].starts
    ensures OnSchedule(states[i], k, StepsTaken(events, k, i))
  {
    if i > 0 {
      StartResolvesInFiveSteps(crc, events, states, k, i - 1);
      ReachableStatesAreSound(crc, events, states, i - 1);
      assert Next(crc, states[i - 1], events[i - 1], states[i]);
      StepKeepsSchedule(crc, states[i - 1], events[i - 1], k, StepsTaken(events, k, i - 1));
    }
    ReachableStatesAreSound(crc, events, states, i);
    ScheduleBound(states[i], k, StepsTaken(events, k, i));
  }

  lemma StepStaysResolved(crc: HashFn, t: Table, e: Event, k: nat)
    requires Placed(t) && Enabled(t, e) && k < t.nextStart && k !in t.starts
    ensures k < Apply(crc, t, e).nextStart && k !in Apply(crc, t, e).starts
  {
    if e.StartSteps? {
      assert RosterOk(t, t.starts[e.k].roster);
      StepAdvances(crc, t, e.k, e.answers);
      OtherStart(t, StartStep(crc, t, e.k, e.answers), e.k, k);
    } else {
      OtherEventsGrow(crc, t, e);
    }
  }

  /** A resolved start never comes back. */
  lemma {:induction false} ResolvedStaysResolved(crc: HashFn, events: seq<Event>, states: seq<Table>, k: nat,
                                                 i: nat, j: nat)
    requires TableRun(crc, events, states) && i <= j < |states|
    requires k < states[i].nextStart && k !in states[i].starts
    ensures k < states[j].nextStart && k !in states[j].starts
  {
    if i < j {
      ResolvedStaysResolved(crc, events, states, k, i, j - 1);
      ReachableStatesAreSound(crc, events, states, j - 1);
      assert Next(crc, states[j - 1], events[j - 1], states[j]);
      StepStaysResolved(crc, states[j - 1], events[j - 1], k);
    }
  }
}
