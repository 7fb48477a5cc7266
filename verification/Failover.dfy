/** Moving rooms away from unavailable nodes: what one run decides for each room, and the theorems
    about a run and the run after it. */
module Failover {
  import opened Ordering
  import opened HashRing
  import opened EngineState
  import opened RoomState

  /** The engine registry, frozen while a run lasts, and whether the two collaborators exist. */
  datatype Cluster = Cluster(hasEngine: bool, nodes: map<int, NodeVal>, hasStore: bool)

  datatype RpcOutcome = Unreachable | Refused | Created

  /** For one room, the outcome of every outside call a run may make on its behalf, and whether
      the asynchronous destroy on the old node erases the snapshot before it is saved again. */
  datatype RoomOracle = RoomOracle(probe: bool, load: bool, marshal: bool, rpc: RpcOutcome,
                                   save: bool, destroyErases: bool, resave: bool)

  type Oracle = string -> RoomOracle

  datatype Fate = Untouched | Skipped | Counted | Migrated(pod: int)

  function Loads(t: Table, id: string, answers: bool): bool {
    answers && id != "" && id in t.store
  }

  predicate Active(c: Cluster) {
    c.hasEngine && HealthyPods(c.nodes) != {}
  }

  /** A room is a target when its node is not healthy, or when a snapshot can be read that names
      another incarnation of the node's server. */
  predicate Targeted(c: Cluster, t: Table, id: string, probe: bool)
    requires Refers(t) && id in t.rooms
  {
    var node := t.roomData[t.rooms[id]].nodeID;
    Active(c) &&
    (node !in HealthyPods(c.nodes) ||
     (c.hasStore && Loads(t, id, probe) &&
      t.store[id].serverID != "" && t.store[id].serverID != c.nodes[node].serverID))
  }

  ghost function Pick(crc: HashFn, c: Cluster, id: string, exclude: int): Option<int> {
    Choose(HealthyPods(c.nodes) - {exclude}, crc(id))
  }

  /** What the migration phase does with a target. */
  ghost function FateOfTarget(crc: HashFn, c: Cluster, o: RoomOracle, t: Table, id: string): Fate
    requires Refers(t) && id in t.rooms
  {
    var room := t.roomData[t.rooms[id]];
    var pick := Pick(crc, c, id, room.nodeID);
    if pick.None? then Skipped
    else if room.status != Playing then Counted
    else if !c.hasStore || !Loads(t, id, o.load) || !o.marshal || o.rpc != Created then Skipped
    else Migrated(pick.value)
  }

  ghost function FateOf(crc: HashFn, c: Cluster, o: Oracle, t: Table, id: string): Fate
    requires Refers(t) && id in t.rooms
  {
    if Targeted(c, t, id, o(id).probe) then FateOfTarget(crc, c, o(id), t, id) else Untouched
  }

  /** The snapshot a migration writes. */
  function Relocated(snap: RoomSnapshot, id: string, status: int, pod: int, serverID: string): RoomSnapshot {
    snap.(roomID := id, status := status, nodeID := pod, serverID := serverID)
  }

  /** A save, the destroy on the old node, and a second save. */
  function EntryAfter(c: Cluster, o: RoomOracle, old_: RoomSnapshot, updated: RoomSnapshot,
                      oldNode: int): Option<RoomSnapshot> {
    var saved := if o.save then updated else old_;
    if o.resave then Some(updated)
    else if o.destroyErases && oldNode in c.nodes then None
    else Some(saved)
  }

  function PutEntry(store: map<string, RoomSnapshot>, id: string, e: Option<RoomSnapshot>): map<string, RoomSnapshot> {
    if e.Some? then store[id := e.value] else store - {id}
  }

  /** One migration as the loop performs it. */
  function Migrate(c: Cluster, o: RoomOracle, t: Table, id: string, pod: int): Table
    requires Refers(t) && id in t.rooms && id in t.store && pod in c.nodes
  {
    var r := t.rooms[id];
    var room := t.roomData[r];
    var updated := Relocated(t.store[id], id, 1, pod, c.nodes[pod].serverID);
    SetRoom(t, r, room.(nodeID := pod)).(
      store := PutEntry(t.store, id, EntryAfter(c, o, t.store[id], updated, room.nodeID)))
  }

  /** The rooms a run may visit are found under their own, non-empty, names. */
  ghost predicate Keyed(t: Table) {
    Refers(t) && forall id :: id in t.rooms ==> id != "" && t.roomData[t.rooms[id]].id == id
  }

  lemma FateIsSound(crc: HashFn, c: Cluster, o: Oracle, t: Table, id: string)
    requires Refers(t) && id in t.rooms && FateOf(crc, c, o, t, id).Migrated?
    ensures var pod := FateOf(crc, c, o, t, id).pod; var room := t.roomData[t.rooms[id]];
      && pod in c.nodes && c.nodes[pod].healthy && pod != room.nodeID
      && room.status == Playing && Targeted(c, t, id, o(id).probe) && id in t.store && c.hasStore
      && o(id).load && o(id).marshal && o(id).rpc == Created
  {
  }

  // ----- the whole run, as a function of the set of rooms already visited -----

  ghost function RoomAfter(crc: HashFn, c: Cluster, o: Oracle, t: Table, done: set<string>, r: GameRoom): RoomVal
    requires Keyed(t) && r in t.roomData
  {
    var room := t.roomData[r];
    if room.id in done && room.id in t.rooms && t.rooms[room.id] == r && FateOf(crc, c, o, t, room.id).Migrated?
    then room.(nodeID := FateOf(crc, c, o, t, room.id).pod)
    else room
  }

  ghost function Entry(crc: HashFn, c: Cluster, o: Oracle, t: Table, done: set<string>,
                       id: string): Option<RoomSnapshot>
    requires Keyed(t)
  {
    if id in done && id in t.rooms && FateOf(crc, c, o, t, id).Migrated? then
      FateIsSound(crc, c, o, t, id);
      var pod := FateOf(crc, c, o, t, id).pod;
      var updated := Relocated(t.store[id], id, 1, pod, c.nodes[pod].serverID);
      EntryAfter(c, o(id), t.store[id], updated, t.roomData[t.rooms[id]].nodeID)
    else if id in t.store then Some(t.store[id])
    else None
  }

  /** The table once the rooms in `done` have been visited: each of them as its own fate says. */
  ghost function After(crc: HashFn, c: Cluster, o: Oracle, t: Table, done: set<string>): Table
    requires Keyed(t)
  {
    t.(roomData := map r | r in t.roomData :: RoomAfter(crc, c, o, t, done, r),
       store := map id | id in t.store && Entry(crc, c, o, t, done, id).Some? :: Entry(crc, c, o, t, done, id).value)
  }

  lemma AfterNone(crc: HashFn, c: Cluster, o: Oracle, t: Table)
    requires Keyed(t)
    ensures After(crc, c, o, t, {}) == t
  {
    assert After(crc, c, o, t, {}).roomData == t.roomData;
    assert After(crc, c, o, t, {}).store == t.store;
  }

  /** Visiting one more room leaves its fate as it was in the beginning. */
  lemma FateUndisturbed(crc: HashFn, c: Cluster, o: Oracle, t: Table, done: set<string>, id: string)
    requires Keyed(t) && id in t.rooms && id !in done
    ensures Keyed(After(crc, c, o, t, done))
    ensures FateOf(crc, c, o, After(crc, c, o, t, done), id) == FateOf(crc, c, o, t, id)
    ensures After(crc, c, o, t, done).roomData[t.rooms[id]] == t.roomData[t.rooms[id]]
    ensures id in After(crc, c, o, t, done).store <==> id in t.store
    ensures id in t.store ==> After(crc, c, o, t, done).store[id] == t.store[id]
  {
  }

  lemma RoomOneMore(crc: HashFn, c: Cluster, o: Oracle, t: Table, done: set<string>, id: string, r: GameRoom)
    requires Keyed(t) && id in t.rooms && r in t.roomData
    ensures RoomAfter(crc, c, o, t, done + {id}, r) ==
            if r == t.rooms[id] && FateOf(crc, c, o, t, id).Migrated?
            then t.roomData[r].(nodeID := FateOf(crc, c, o, t, id).pod)
            else RoomAfter(crc, c, o, t, done, r)
  {
  }

  lemma EntryOneMore(crc: HashFn, c: Cluster, o: Oracle, t: Table, done: set<string>, id: string, x: string)
    requires Keyed(t) && id in t.rooms
    ensures x != id || !FateOf(crc, c, o, t, id).Migrated? ==>
              Entry(crc, c, o, t, done + {id}, x) == Entry(crc, c, o, t, done, x)
  {
  }

  /** The work on one room, as the loop does it to the table it finds. */
  ghost function Visit(crc: HashFn, c: Cluster, o: Oracle, t: Table, now: Table, id: string): Table
    requires Refers(now) && id in now.rooms && Refers(t) && id in t.rooms
  {
    var fate := FateOf(crc, c, o, t, id);
    if fate.Migrated? && id in now.store && fate.pod in c.nodes then Migrate(c, o(id), now, id, fate.pod) else now
  }

  lemma RoomsOneMore(crc: HashFn, c: Cluster, o: Oracle, t: Table, done: set<string>, id: string)
    requires Keyed(t) && id in t.rooms
    ensures var now, next := After(crc, c, o, t, done).roomData, After(crc, c, o, t, done + {id}).roomData;
            var r, fate := t.rooms[id], FateOf(crc, c, o, t, id);
      next == if fate.Migrated? then now[r := t.roomData[r].(nodeID := fate.pod)] else now
  {
    forall r | r in t.roomData
      ensures r != t.rooms[id] || !FateOf(crc, c, o, t, id).Migrated? ==>
                RoomAfter(crc, c, o, t, done + {id}, r) == RoomAfter(crc, c, o, t, done, r)
    {
      RoomOneMore(crc, c, o, t, done, id, r);
    }
    RoomOneMore(crc, c, o, t, done, id, t.rooms[id]);
  }

  lemma StoreOneMore(crc: HashFn, c: Cluster, o: Oracle, t: Table, done: set<string>, id: string)
    requires Keyed(t) && id in t.rooms
    ensures var now, next := After(crc, c, o, t, done).store, After(crc, c, o, t, done + {id}).store;
      next == if FateOf(crc, c, o, t, id).Migrated? then PutEntry(now, id, Entry(crc, c, o, t, done + {id}, id))
              else now
  {
    if FateOf(crc, c, o, t, id).Migrated? {
      FateIsSound(crc, c, o, t, id);
    }
    forall x: string | x != id || !FateOf(crc, c, o, t, id).Migrated?
      ensures Entry(crc, c, o, t, done + {id}, x) == Entry(crc, c, o, t, done, x)
    {
      EntryOneMore(crc, c, o, t, done, id, x);
    }
  }

  /** The loop's work on one room is exactly the next step of the pointwise description, whatever
      order the rooms come in. */
  lemma AfterOneMore(crc: HashFn, c: Cluster, o: Oracle, t: Table, done: set<string>, id: string)
    requires Keyed(t) && id in t.rooms && id !in done
    ensures Refers(After(crc, c, o, t, done))
    ensures After(crc, c, o, t, done + {id}) == Visit(crc, c, o, t, After(crc, c, o, t, done), id)
  {
    FateUndisturbed(crc, c, o, t, done, id);
    RoomsOneMore(crc, c, o, t, done, id);
    StoreOneMore(crc, c, o, t, done, id);
    if FateOf(crc, c, o, t, id).Migrated? {
      FateIsSound(crc, c, o, t, id);
    }
  }

  ghost function Targets(c: Cluster, o: Oracle, t: Table): set<string>
    requires Refers(t)
  {
    set id | id in t.rooms && Targeted(c, t, id, o(id).probe)
  }

  ghost function MovedOf(crc: HashFn, c: Cluster, o: Oracle, t: Table, ids: set<string>): set<string>
    requires Refers(t)
  {
    set id | id in ids && id in t.rooms && (FateOf(crc, c, o, t, id).Migrated? || FateOf(crc, c, o, t, id).Counted?)
  }

  ghost function SkippedOf(crc: HashFn, c: Cluster, o: Oracle, t: Table, ids: set<string>): set<string>
    requires Refers(t)
  {
    set id | id in ids && id in t.rooms && FateOf(crc, c, o, t, id).Skipped?
  }

  /** The first `k` entries of a list. */
  ghost function Seen(targets: seq<string>, k: nat): set<string>
    requires k <= |targets|
  {
    set i | i in targets[..k]
  }

  lemma SeenNext(targets: seq<string>, k: nat)
    requires k < |targets|
    requires forall i, j :: 0 <= i < j < |targets| ==> targets[i] != targets[j]
    ensures Seen(targets, k + 1) == Seen(targets, k) + {targets[k]}
    ensures targets[k] !in Seen(targets, k)
  {
    assert targets[..k + 1] == targets[..k] + [targets[k]];
  }

  lemma SeenAll(targets: seq<string>, all: set<string>)
    requires IsOrderOf(targets, all)
    ensures Seen(targets, |targets|) == all
  {
    OrderMembers(targets, all);
    assert targets[..|targets|] == targets;
    SameSet(Seen(targets, |targets|), all);
  }

  /** One more target raises exactly one of the two counts. */
  lemma CountOneMore(crc: HashFn, c: Cluster, o: Oracle, t: Table, done: set<string>, id: string)
    requires Refers(t) && id in t.rooms && id !in done && !FateOf(crc, c, o, t, id).Untouched?
    ensures |SkippedOf(crc, c, o, t, done + {id})| ==
            |SkippedOf(crc, c, o, t, done)| + if FateOf(crc, c, o, t, id).Skipped? then 1 else 0
    ensures |MovedOf(crc, c, o, t, done + {id})| ==
            |MovedOf(crc, c, o, t, done)| + if FateOf(crc, c, o, t, id).Skipped? then 0 else 1
  {
    var moved, skipped := MovedOf(crc, c, o, t, done), SkippedOf(crc, c, o, t, done);
    if FateOf(crc, c, o, t, id).Skipped? {
      SameSet(SkippedOf(crc, c, o, t, done + {id}), skipped + {id});
      SameSet(MovedOf(crc, c, o, t, done + {id}), moved);
    } else {
      SameSet(SkippedOf(crc, c, o, t, done + {id}), skipped);
      SameSet(MovedOf(crc, c, o, t, done + {id}), moved + {id});
    }
  }

  /** Distinct rooms of the table, each with something to decide. */
  ghost predicate Visiting(c: Cluster, o: Oracle, t: Table, targets: seq<string>) {
    && Keyed(t)
    && (forall i :: 0 <= i < |targets| ==> targets[i] in t.rooms && Targeted(c, t, targets[i], o(targets[i]).probe))
    && (forall i, j :: 0 <= i < j < |targets| ==> targets[i] != targets[j])
  }

  /** Where the loop stands after `k` targets. */
  ghost predicate Progress(crc: HashFn, c: Cluster, o: Oracle, t: Table, targets: seq<string>, k: nat,
                           now: Table, moved: nat, skipped: nat)
    requires k <= |targets|
  {
    Keyed(t) && now == After(crc, c, o, t, Seen(targets, k)) &&
    moved == |MovedOf(crc, c, o, t, Seen(targets, k))| && skipped == |SkippedOf(crc, c, o, t, Seen(targets, k))|
  }

  lemma TargetsToVisit(c: Cluster, o: Oracle, t: Table, targets: seq<string>)
    requires Keyed(t) && IsOrderOf(targets, Targets(c, o, t))
    ensures Visiting(c, o, t, targets)
  {
    OrderMembers(targets, Targets(c, o, t));
    OrderDistinct(targets, Targets(c, o, t));
    forall i | 0 <= i < |targets|
      ensures targets[i] in t.rooms && Targeted(c, t, targets[i], o(targets[i]).probe)
    {
      assert targets[i] in Targets(c, o, t);
    }
  }

  lemma NothingVisited(crc: HashFn, c: Cluster, o: Oracle, t: Table, targets: seq<string>)
    requires Keyed(t)
    ensures Progress(crc, c, o, t, targets, 0, t, 0, 0)
  {
    AfterNone(crc, c, o, t);
    assert Seen(targets, 0) == {};
    assert MovedOf(crc, c, o, t, {}) == {} && SkippedOf(crc, c, o, t, {}) == {};
  }

  /** A complete run. */
  ghost function FailoverRun(crc: HashFn, c: Cluster, o: Oracle, t: Table): Table
    requires Keyed(t)
  {
    After(crc, c, o, t, Targets(c, o, t))
  }

  /** Without an engine or a healthy node a run does nothing. */
  lemma InactiveRun(crc: HashFn, c: Cluster, o: Oracle, t: Table)
    requires Keyed(t) && !Active(c)
    ensures Targets(c, o, t) == {}
    ensures FailoverRun(crc, c, o, t) == t
    ensures MovedOf(crc, c, o, t, {}) == {} && SkippedOf(crc, c, o, t, {}) == {}
  {
    AfterNone(crc, c, o, t);
  }

  lemma RoomAfterIsSound(crc: HashFn, c: Cluster, o: Oracle, t: Table, r: GameRoom)
    requires Keyed(t) && r in t.roomData
    ensures var room, room' := t.roomData[r], RoomAfter(crc, c, o, t, Targets(c, o, t), r);
      && room' == room.(nodeID := room'.nodeID)
      && (room'.nodeID != room.nodeID ==>
            && room.id in t.rooms && t.rooms[room.id] == r && room.status == Playing
            && Targeted(c, t, room.id, o(room.id).probe)
            && room'.nodeID in c.nodes && c.nodes[room'.nodeID].healthy)
  {
    var id := t.roomData[r].id;
    if id in t.rooms && FateOf(crc, c, o, t, id).Migrated? {
      FateIsSound(crc, c, o, t, id);
    }
  }

  /** A run changes node ids and snapshots only; a node id only for a targeted room that is
      playing, and then to a healthy pod other than the old one. */
  lemma RunIsSound(crc: HashFn, c: Cluster, o: Oracle, t: Table)
    requires Keyed(t)
    ensures var t' := FailoverRun(crc, c, o, t);
      && t' == t.(roomData := t'.roomData, store := t'.store)
      && t'.roomData.Keys == t.roomData.Keys
      && Keyed(t')
    ensures var t' := FailoverRun(crc, c, o, t);
      forall r :: r in t.roomData ==>
        && t'.roomData[r] == t.roomData[r].(nodeID := t'.roomData[r].nodeID)
        && (t'.roomData[r].nodeID != t.roomData[r].nodeID ==>
              var id := t.roomData[r].id;
              && id in t.rooms && t.rooms[id] == r && t.roomData[r].status == Playing
              && Targeted(c, t, id, o(id).probe)
              && t'.roomData[r].nodeID in c.nodes && c.nodes[t'.roomData[r].nodeID].healthy)
  {
    forall r | r in t.roomData
      ensures FailoverRun(crc, c, o, t).roomData[r] == RoomAfter(crc, c, o, t, Targets(c, o, t), r)
    {
      RoomAfterIsSound(crc, c, o, t, r);
    }
  }

  /** The snapshots of rooms that did not move are not touched. */
  lemma RunKeepsOtherSnapshots(crc: HashFn, c: Cluster, o: Oracle, t: Table, id: string)
    requires Keyed(t)
    requires id in t.rooms ==> !FateOf(crc, c, o, t, id).Migrated?
    ensures id in t.store <==> id in FailoverRun(crc, c, o, t).store
    ensures id in t.store ==> FailoverRun(crc, c, o, t).store[id] == t.store[id]
  {
  }

  /** After a migration the snapshot is gone exactly when the destroy erased it and the second save
      failed; otherwise it names the new pod, unless neither save succeeded. */
  lemma MigratedSnapshot(crc: HashFn, c: Cluster, o: Oracle, t: Table, id: string)
    requires Keyed(t) && id in t.rooms && FateOf(crc, c, o, t, id).Migrated?
    ensures var store, pod := FailoverRun(crc, c, o, t).store, FateOf(crc, c, o, t, id).pod;
            var old_ := t.roomData[t.rooms[id]].nodeID;
      && id in t.store && pod in c.nodes
      && (id !in store <==> o(id).destroyErases && old_ in c.nodes && !o(id).resave)
      && (id in store ==> store[id] == if o(id).save || o(id).resave
                                       then Relocated(t.store[id], id, 1, pod, c.nodes[pod].serverID)
                                       else t.store[id])
      && (id in store && (o(id).save || o(id).resave) ==>
            && store[id].roomID == id && store[id].status == 1
            && store[id].nodeID == pod && store[id].serverID == c.nodes[pod].serverID
            && store[id].players == t.store[id].players
            && store[id].ready == t.store[id].ready && store[id].selected == t.store[id].selected)
  {
    FateIsSound(crc, c, o, t, id);
  }

  /** Every target is counted once, as moved or as skipped. */
  lemma RunAccounting(crc: HashFn, c: Cluster, o: Oracle, t: Table)
    requires Refers(t)
    ensures var targets := Targets(c, o, t);
      |MovedOf(crc, c, o, t, targets)| + |SkippedOf(crc, c, o, t, targets)| == |targets|
  {
    var targets := Targets(c, o, t);
    var moved, skipped := MovedOf(crc, c, o, t, targets), SkippedOf(crc, c, o, t, targets);
    SplitSize(targets, moved, skipped);
  }

  /** A targeted room that was playing keeps its node exactly when it was counted as skipped. */
  lemma StayedPutIsSkipped(crc: HashFn, c: Cluster, o: Oracle, t: Table, id: string)
    requires Keyed(t) && id in Targets(c, o, t) && t.roomData[t.rooms[id]].status == Playing
    ensures FailoverRun(crc, c, o, t).roomData[t.rooms[id]].nodeID == t.roomData[t.rooms[id]].nodeID <==>
            id in SkippedOf(crc, c, o, t, Targets(c, o, t))
  {
    if FateOf(crc, c, o, t, id).Migrated? {
      FateIsSound(crc, c, o, t, id);
    }
  }

  /** The conditions of a run in what it reads: the room's pod is not healthy, or the room's readable
      snapshot names a server that is not the pod's. */
  predicate Displaced(c: Cluster, t: Table, id: string, probe: bool)
    requires Refers(t) && id in t.rooms
  {
    var node := t.roomData[t.rooms[id]].nodeID;
    || node !in c.nodes || !c.nodes[node].healthy
    || (c.hasStore && probe && id in t.store &&
        t.store[id].serverID != "" && t.store[id].serverID != c.nodes[node].serverID)
  }

  lemma TargetedExactly(c: Cluster, t: Table, id: string, probe: bool)
    requires Keyed(t) && id in t.rooms
    ensures Targeted(c, t, id, probe) <==>
            c.hasEngine && (exists p :: p in c.nodes && c.nodes[p].healthy) && Displaced(c, t, id, probe)
  {
    if p :| p in c.nodes && c.nodes[p].healthy {
      assert p in HealthyPods(c.nodes);
    }
    if HealthyPods(c.nodes) != {} {
      var p := SomeMember(HealthyPods(c.nodes));
    }
  }

  lemma PickExactly(crc: HashFn, c: Cluster, id: string, exclude: int)
    ensures Pick(crc, c, id, exclude).Some? <==> exists p :: p in c.nodes && c.nodes[p].healthy && p != exclude
    ensures Pick(crc, c, id, exclude).Some? ==>
              var others := set p | p in c.nodes && c.nodes[p].healthy && p != exclude;
              && Pick(crc, c, id, exclude).value in others
              && |set q | q in others && q < Pick(crc, c, id, exclude).value| == crc(id) % |others|
  {
    var pods := HealthyPods(c.nodes) - {exclude};
    if p :| p in c.nodes && c.nodes[p].healthy && p != exclude {
      assert p in pods;
    }
    if pods != {} {
      var p := SomeMember(pods);
      SameSet(pods, set p | p in c.nodes && c.nodes[p].healthy && p != exclude);
      ChoiceRank(pods, crc(id));
    }
  }

  /** A run moves a room exactly when the room plays and is displaced, another healthy pod exists, its
      snapshot can be loaded and encoded, and the other pod's engine created the room. */
  lemma RunMovesExactly(crc: HashFn, c: Cluster, o: Oracle, t: Table, id: string)
    requires Keyed(t) && id in t.rooms
    ensures var room := t.roomData[t.rooms[id]];
      FailoverRun(crc, c, o, t).roomData[t.rooms[id]].nodeID != room.nodeID <==>
        && c.hasEngine && Displaced(c, t, id, o(id).probe) && room.status == Playing
        && (exists p :: p in c.nodes && c.nodes[p].healthy && p != room.nodeID)
        && c.hasStore && o(id).load && id in t.store && o(id).marshal && o(id).rpc == Created
  {
    var room := t.roomData[t.rooms[id]];
    assert room.id == id;
    TargetedExactly(c, t, id, o(id).probe);
    PickExactly(crc, c, id, room.nodeID);
    if FateOf(crc, c, o, t, id).Migrated? {
      FateIsSound(crc, c, o, t, id);
    }
  }

  /** The room goes to the healthy pod other than its own that the hash of its name selects. */
  lemma RunMovesWhere(crc: HashFn, c: Cluster, o: Oracle, t: Table, id: string)
    requires Keyed(t) && id in t.rooms
    requires FailoverRun(crc, c, o, t).roomData[t.rooms[id]].nodeID != t.roomData[t.rooms[id]].nodeID
    ensures var pod, own := FailoverRun(crc, c, o, t).roomData[t.rooms[id]].nodeID, t.roomData[t.rooms[id]].nodeID;
            var others := set p | p in c.nodes && c.nodes[p].healthy && p != own;
      pod in others && |set q | q in others && q < pod| == crc(id) % |others|
  {
    PickExactly(crc, c, id, t.roomData[t.rooms[id]].nodeID);
  }

  /** A run counts a room as skipped exactly when the room is displaced, some pod is healthy, and there
      is no other healthy pod, or the room plays and one of the steps of moving it fails. */
  lemma RunSkipsExactly(crc: HashFn, c: Cluster, o: Oracle, t: Table, id: string)
    requires Keyed(t)
    ensures id in SkippedOf(crc, c, o, t, Targets(c, o, t)) <==>
            id in t.rooms &&
            var room := t.roomData[t.rooms[id]];
            && c.hasEngine && (exists p :: p in c.nodes && c.nodes[p].healthy) && Displaced(c, t, id, o(id).probe)
            && ((forall p :: p in c.nodes && c.nodes[p].healthy ==> p == room.nodeID) ||
                (room.status == Playing &&
                 !(c.hasStore && o(id).load && id in t.store && o(id).marshal && o(id).rpc == Created)))
  {
    if id in t.rooms {
      TargetedExactly(c, t, id, o(id).probe);
      PickExactly(crc, c, id, t.roomData[t.rooms[id]].nodeID);
    }
  }

  /** And as moved exactly when it is displaced, another healthy pod exists, and it was moved or does
      not play. */
  lemma RunCountsExactly(crc: HashFn, c: Cluster, o: Oracle, t: Table, id: string)
    requires Keyed(t)
    ensures id in MovedOf(crc, c, o, t, Targets(c, o, t)) <==>
            id in t.rooms &&
            var room := t.roomData[t.rooms[id]];
            && c.hasEngine && Displaced(c, t, id, o(id).probe)
            && (exists p :: p in c.nodes && c.nodes[p].healthy && p != room.nodeID)
            && (room.status == Playing ==>
                  c.hasStore && o(id).load && id in t.store && o(id).marshal && o(id).rpc == Created)
  {
    if id in t.rooms {
      TargetedExactly(c, t, id, o(id).probe);
      PickExactly(crc, c, id, t.roomData[t.rooms[id]].nodeID);
    }
  }

  // ----- the run after -----

  /** Between two runs, late destroys may erase snapshots of migrated rooms. */
  function Erase(t: Table, lost: set<string>): Table {
    t.(store := t.store - lost)
  }

  /** A migrated room is targeted again exactly when neither save succeeded, nothing erased the
      old snapshot, it can be read, and it names a server that is not the new pod's. */
  lemma MigratedRetargeted(crc: HashFn, c: Cluster, o: Oracle, o': Oracle, t: Table, lost: set<string>, id: string)
    requires Keyed(t) && id in t.rooms && FateOf(crc, c, o, t, id).Migrated?
    ensures var t' := Erase(FailoverRun(crc, c, o, t), lost);
      Refers(t') && id in t.store && FateOf(crc, c, o, t, id).pod in c.nodes &&
      (Targeted(c, t', id, o'(id).probe) <==>
         && !o(id).save && !o(id).resave
         && !(o(id).destroyErases && t.roomData[t.rooms[id]].nodeID in c.nodes) && id !in lost
         && o'(id).probe
         && t.store[id].serverID != "" && t.store[id].serverID != c.nodes[FateOf(crc, c, o, t, id).pod].serverID)
  {
    FateIsSound(crc, c, o, t, id);
    assert t.roomData[t.rooms[id]].id == id;
  }

  /** A room that did not migrate is targeted by the next run exactly as by this one. */
  lemma UnmovedRetargeted(crc: HashFn, c: Cluster, o: Oracle, o': Oracle, t: Table, lost: set<string>, id: string)
    requires Keyed(t) && id in t.rooms && !FateOf(crc, c, o, t, id).Migrated?
    requires id !in lost && o'(id).probe == o(id).probe
    ensures Refers(Erase(FailoverRun(crc, c, o, t), lost))
    ensures Targeted(c, Erase(FailoverRun(crc, c, o, t), lost), id, o'(id).probe) <==> Targeted(c, t, id, o(id).probe)
  {
    RunKeepsOtherSnapshots(crc, c, o, t, id);
  }

  /** Stability: with the engine unchanged, the same reads of the rooms that did not move, and a
      successful save for each room that did, the playing rooms the next run targets are exactly
      the playing rooms this run skipped, whichever snapshots late destroys erase. */
  lemma SecondRunIsStable(crc: HashFn, c: Cluster, o: Oracle, o': Oracle, t: Table, lost: set<string>)
    requires Keyed(t)
    requires forall id :: id in lost ==> id in t.rooms && FateOf(crc, c, o, t, id).Migrated?
    requires forall id :: id in t.rooms && FateOf(crc, c, o, t, id).Migrated? ==> o(id).save || o(id).resave
    requires forall id :: id in t.rooms && !FateOf(crc, c, o, t, id).Migrated? ==> o'(id).probe == o(id).probe
    ensures Refers(Erase(FailoverRun(crc, c, o, t), lost))
    ensures forall id :: id in t.rooms && t.roomData[t.rooms[id]].status == Playing ==>
              (id in Targets(c, o', Erase(FailoverRun(crc, c, o, t), lost)) <==>
               id in SkippedOf(crc, c, o, t, Targets(c, o, t)))
  {
    var t' := Erase(FailoverRun(crc, c, o, t), lost);
    RunIsSound(crc, c, o, t);
    forall id | id in t.rooms && t.roomData[t.rooms[id]].status == Playing
      ensures id in Targets(c, o', t') <==> id in SkippedOf(crc, c, o, t, Targets(c, o, t))
    {
      if FateOf(crc, c, o, t, id).Migrated? {
        MigratedRetargeted(crc, c, o, o', t, lost, id);
      } else {
        UnmovedRetargeted(crc, c, o, o', t, lost, id);
      }
    }
  }

  // ----- restoring what failover wrote -----

  lemma RelocationKeepsPlayers(snap: RoomSnapshot, id: string, status: int, pod: int, serverID: string)
    ensures var moved := Relocated(snap, id, status, pod, serverID);
      PlayersOf(moved) == PlayersOf(snap) && RestoredReady(moved) == RestoredReady(snap)
    ensures snap.roomID == id ==>
              forall p :: RestoredSession(Relocated(snap, id, status, pod, serverID), p) == RestoredSession(snap, p)
  {
    var moved := Relocated(snap, id, status, pod, serverID);
    SameSet(PlayersOf(moved), PlayersOf(snap));
    assert RestoredReady(moved) == RestoredReady(snap);
  }

  lemma RestoredSessionsAgree(t: Table, snap: RoomSnapshot, snap': RoomSnapshot, r: GameRoom,
                              made: map<string, Session>)
    requires forall p :: RestoredSession(snap, p) == RestoredSession(snap', p)
    ensures Restore(t, snap, r, made).sessions == Restore(t, snap', r, made).sessions
  {
    assert RestoredSessions(snap, made) == RestoredSessions(snap', made);
  }

  /** Restoring the snapshot a migration writes gives the players, ready flags and teams that the
      loaded one gives; only the node and the status, taken from memory, differ. */
  lemma RestoreCommutesWithMigration(t: Table, snap: RoomSnapshot, id: string, pod: int, serverID: string,
                                     r: GameRoom, made: map<string, Session>)
    requires snap.roomID == id
    ensures var plain, moved := Restore(t, snap, r, made), Restore(t, Relocated(snap, id, 1, pod, serverID), r, made);
      && moved.sessions == plain.sessions && moved.users == plain.users && moved.rooms == plain.rooms
      && moved.roomData == plain.roomData[r := plain.roomData[r].(nodeID := pod, status := Playing)]
  {
    RelocationKeepsPlayers(snap, id, 1, pod, serverID);
    RestoredSessionsAgree(t, Relocated(snap, id, 1, pod, serverID), snap, r, made);
  }

  lemma RestoredIsKeyed(t: Table, snap: RoomSnapshot, r: GameRoom, made: map<string, Session>)
    requires Keyed(t) && snap.roomID != "" && r !in t.roomData
    ensures Keyed(Restore(t, snap, r, made))
  {
    forall p | p in made ensures made[p] in RestoredSessions(snap, made) {
      assert made[p] in made.Values;
    }
  }

  /** The restored players are the non-empty names of the three parts of the snapshot. */
  lemma RestoredPlayers(snap: RoomSnapshot, p: string)
    ensures p in PlayersOf(snap) <==> p != "" && (p in snap.players || p in snap.ready || p in snap.selected)
    ensures RestoredReady(snap).Keys == PlayersOf(snap)
    ensures p in PlayersOf(snap) ==> (RestoredReady(snap)[p] <==> p in snap.ready && snap.ready[p])
  {
  }

  /** The commuting square: restoring what a run left in the store gives what restoring the store
      before the run would have given, except for the node and the status of the migrated room. */
  lemma RestoreCommutesWithRun(crc: HashFn, c: Cluster, o: Oracle, t: Table, id: string, other: Table,
                               r: GameRoom, made: map<string, Session>)
    requires Keyed(t) && id in t.rooms && FateOf(crc, c, o, t, id).Migrated?
    requires id in FailoverRun(crc, c, o, t).store && (o(id).save || o(id).resave)
    requires id in t.store && t.store[id].roomID == id
    ensures var plain := Restore(other, t.store[id], r, made);
            var moved := Restore(other, FailoverRun(crc, c, o, t).store[id], r, made);
      && moved.sessions == plain.sessions && moved.users == plain.users && moved.rooms == plain.rooms
      && moved.roomData ==
         plain.roomData[r := plain.roomData[r].(nodeID := FateOf(crc, c, o, t, id).pod, status := Playing)]
  {
    MigratedSnapshot(crc, c, o, t, id);
    var pod := FateOf(crc, c, o, t, id).pod;
    RestoreCommutesWithMigration(other, t.store[id], id, pod, c.nodes[pod].serverID, r, made);
  }
}
