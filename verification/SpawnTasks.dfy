// Which execute call moves a ghost, and which task can stop it, over spawns, respawns, cancels and
// loop exits (ghosts/random-agent/src/executor.ts:82-152, 324-401, 488-507).
module SpawnTasks {

  /** How far an execute call has come. */
  datatype Stage =
    | Connecting                   // awaiting connect()
    | Moving                       // in the loop
    | NeverConnected               // connect() threw, before the try block
    | Leaving(failed: bool)        // past the loop, saying goodbye to the world
    | Returned(connected: bool)

  /** One execute call: its task and ghost, and the go flag of its loop's cancel handle. */
  datatype Call = Call(taskId: string, ghostId: string, go: bool, stage: Stage)

  datatype TaskEvent = Completed(taskId: string) | Failed(taskId: string) | Canceled(taskId: string, found: bool)

  /** The module's maps, the execute calls so far in their order, and the final events published.
      A cancel handle and a client are named by the place of the call that made them. */
  datatype Agent = Agent(
    loopsByGhostId: map<string, nat>,
    mcpByGhostId: map<string, nat>,
    ghostIdToTaskId: map<string, string>,
    spawnTaskMeta: map<string, string>,
    calls: seq<Call>,
    published: seq<TaskEvent>)

  /** A task may be spawned any number of times, for the same ghost or for others. */
  datatype Step =
    | Spawn(taskId: string, ghostId: string)
    | Connect(call: nat)
    | ConnectThrows(call: nat)
    | LoopExits(call: nat, failed: bool)
    | Finish(call: nat)
    | Cancel(taskId: string)

  // ----- The functions of the executor -----

  function Registered(a: Agent, t: string, g: string): Agent {
    var meta := if g in a.ghostIdToTaskId && a.ghostIdToTaskId[g] != t
                then a.spawnTaskMeta - {a.ghostIdToTaskId[g]} else a.spawnTaskMeta;
    a.(ghostIdToTaskId := a.ghostIdToTaskId[g := t], spawnTaskMeta := meta[t := g])
  }

  /** Clearing the go flag behind a ghost's handle. */
  function MovementCancelled(a: Agent, g: string): Agent {
    if g in a.loopsByGhostId && a.loopsByGhostId[g] < |a.calls| then
      var k := a.loopsByGhostId[g];
      a.(calls := a.calls[k := a.calls[k].(go := false)])
    else a
  }

  function Forgotten<V(==)>(m: map<string, V>, key: string, v: V): map<string, V> {
    if key in m && m[key] == v then m - {key} else m
  }

  predicate Enabled(a: Agent, step: Step) {
    match step
    case Spawn(_, _) => true
    case Connect(k) => k < |a.calls| && a.calls[k].stage == Connecting
    case ConnectThrows(k) => k < |a.calls| && a.calls[k].stage == Connecting
    case LoopExits(k, failed) => k < |a.calls| && a.calls[k].stage == Moving && (failed || !a.calls[k].go)
    case Finish(k) => k < |a.calls| && (a.calls[k].stage.NeverConnected? || a.calls[k].stage.Leaving?)
    case Cancel(_) => true
  }

  function Next(a: Agent, step: Step): Agent
    requires Enabled(a, step)
  {
    match step
    case Spawn(t, g) =>
      var b := MovementCancelled(Registered(a, t, g), g);
      b.(loopsByGhostId := b.loopsByGhostId[g := |b.calls|], calls := b.calls + [Call(t, g, true, Connecting)])
    case Connect(k) =>
      var c := a.calls[k];
      a.(mcpByGhostId := a.mcpByGhostId[c.ghostId := k], calls := a.calls[k := c.(stage := Moving)])
    case ConnectThrows(k) =>
      a.(calls := a.calls[k := a.calls[k].(stage := NeverConnected)])
    case LoopExits(k, failed) =>
      var c := a.calls[k];
      a.(loopsByGhostId := Forgotten(a.loopsByGhostId, c.ghostId, k),
         mcpByGhostId := Forgotten(a.mcpByGhostId, c.ghostId, k),
         calls := a.calls[k := c.(stage := Leaving(failed))])
    case Finish(k) =>
      var c := a.calls[k];
      var b := a.(calls := a.calls[k := c.(stage := Returned(!c.stage.NeverConnected?))]);
      if c.taskId in a.spawnTaskMeta && a.spawnTaskMeta[c.taskId] == c.ghostId then
        b.(spawnTaskMeta := a.spawnTaskMeta - {c.taskId},
           ghostIdToTaskId := Forgotten(a.ghostIdToTaskId, c.ghostId, c.taskId),
           published := a.published
             + [if c.stage.NeverConnected? || c.stage.failed then Failed(c.taskId) else Completed(c.taskId)])
      else b
    case Cancel(t) =>
      if t in a.spawnTaskMeta then
        var g := a.spawnTaskMeta[t];
        var b := MovementCancelled(a, g);
        b.(spawnTaskMeta := b.spawnTaskMeta - {t}, ghostIdToTaskId := Forgotten(b.ghostIdToTaskId, g, t),
           published := b.published + [Canceled(t, true)])
      else a.(published := a.published + [Canceled(t, false)])
  }

  // ----- The same, on the shared maps -----

  class RandomWanderer {
    var loopsByGhostId: map<string, nat>
    var mcpByGhostId: map<string, nat>
    var ghostIdToTaskId: map<string, string>
    var spawnTaskMeta: map<string, string>
    var calls: seq<Call>
    var published: seq<TaskEvent>

    constructor ()
      ensures Contents() == FRESH
    {
      loopsByGhostId, mcpByGhostId, ghostIdToTaskId, spawnTaskMeta := map[], map[], map[], map[];
      calls, published := [], [];
    }

    ghost function Contents(): Agent
      reads this
    {
      Agent(loopsByGhostId, mcpByGhostId, ghostIdToTaskId, spawnTaskMeta, calls, published)
    }

    method RegisterSpawnTask(taskId: string, ghostId: string)
      modifies this
      ensures Contents() == Registered(old(Contents()), taskId, ghostId)
    {
      if ghostId in ghostIdToTaskId {
        var prev := ghostIdToTaskId[ghostId];
        if prev != taskId {
          spawnTaskMeta := spawnTaskMeta - {prev};
        }
      }
      ghostIdToTaskId := ghostIdToTaskId[ghostId := taskId];
      spawnTaskMeta := spawnTaskMeta[taskId := ghostId];
    }

    method CancelMovementForGhost(ghostId: string)
      modifies this
      ensures Contents() == MovementCancelled(old(Contents()), ghostId)
    {
      if ghostId in loopsByGhostId {
        var loop := loopsByGhostId[ghostId];
        if loop < |calls| {
          calls := calls[loop := calls[loop].(go := false)];
        }
      }
    }

    /** execute, up to the first await of startMovementFromSpawn. */
    method BeginSpawn(taskId: string, ghostId: string) returns (call: nat)
      modifies this
      ensures Contents() == Next(old(Contents()), Spawn(taskId, ghostId))
      ensures call == |old(calls)|
    {
      RegisterSpawnTask(taskId, ghostId);
      CancelMovementForGhost(ghostId);
      call := |calls|;
      loopsByGhostId := loopsByGhostId[ghostId := call];
      calls := calls + [Call(taskId, ghostId, true, Connecting)];
    }

    /** The finally block of the movement loop. */
    method LeaveLoop(call: nat, failed: bool)
      requires Enabled(Contents(), LoopExits(call, failed))
      modifies this
      ensures Contents() == Next(old(Contents()), LoopExits(call, failed))
    {
      var c := calls[call];
      if c.ghostId in loopsByGhostId && loopsByGhostId[c.ghostId] == call {
        loopsByGhostId := loopsByGhostId - {c.ghostId};
      }
      if c.ghostId in mcpByGhostId && mcpByGhostId[c.ghostId] == call {
        mcpByGhostId := mcpByGhostId - {c.ghostId};
      }
      calls := calls[call := c.(stage := Leaving(failed))];
    }

    /** execute, once startMovementFromSpawn has settled. */
    method FinishExecute(call: nat)
      requires Enabled(Contents(), Finish(call))
      modifies this
      ensures Contents() == Next(old(Contents()), Finish(call))
    {
      var c := calls[call];
      calls := calls[call := c.(stage := Returned(!c.stage.NeverConnected?))];
      var stillOwned := c.taskId in spawnTaskMeta && spawnTaskMeta[c.taskId] == c.ghostId;
      if stillOwned {
        spawnTaskMeta := spawnTaskMeta - {c.taskId};
        if c.ghostId in ghostIdToTaskId && ghostIdToTaskId[c.ghostId] == c.taskId {
          ghostIdToTaskId := ghostIdToTaskId - {c.ghostId};
        }
        var failed := c.stage.NeverConnected? || c.stage.failed;
        published := published + [if failed then Failed(c.taskId) else Completed(c.taskId)];
      }
    }

    method CancelTask(taskId: string)
      modifies this
      ensures Contents() == Next(old(Contents()), Cancel(taskId))
    {
      var found := taskId in spawnTaskMeta;
      if found {
        var ghostId := spawnTaskMeta[taskId];
        CancelMovementForGhost(ghostId);
        spawnTaskMeta := spawnTaskMeta - {taskId};
        if ghostId in ghostIdToTaskId && ghostIdToTaskId[ghostId] == taskId {
          ghostIdToTaskId := ghostIdToTaskId - {ghostId};
        }
      }
      published := published + [Canceled(taskId, found)];
    }
  }

  // ----- What every interleaving keeps -----

  /** The latest call for a ghost, or -1. */
  function Latest(calls: seq<Call>, g: string): (k: int)
    ensures -1 <= k < |calls| && (k >= 0 ==> calls[k].ghostId == g)
    ensures forall j :: k < j < |calls| ==> calls[j].ghostId != g
  {
    if calls == [] then -1
    else
      var last := |calls| - 1;
      if calls[last].ghostId == g then last else Latest(calls[..last], g)
  }

  /** A loop that may still take a step in the world. */
  predicate Live(c: Call) { c.stage == Connecting || c.stage == Moving }

  /** A loop nobody has told to stop. */
  predicate Going(a: Agent, k: int) {
    0 <= k < |a.calls| && Live(a.calls[k]) && a.calls[k].go
  }

  /** Only a ghost's latest call keeps going. */
  ghost predicate OnlyLatestGoes(a: Agent) {
    forall k :: Going(a, k) ==> k == Latest(a.calls, a.calls[k].ghostId)
  }

  /** The loop is still to be left, or the call ended without ever entering it. */
  predicate KeepsHandle(c: Call) {
    !c.stage.Leaving? && c.stage != Returned(true)
  }

  /** A ghost has a handle exactly while its latest call keeps one, and the handle is that call's. */
  ghost predicate HandleExact(a: Agent, g: string) {
    var k := Latest(a.calls, g);
    && (g in a.loopsByGhostId <==> k >= 0 && KeepsHandle(a.calls[k]))
    && (g in a.loopsByGhostId ==> a.loopsByGhostId[g] == k)
  }

  ghost predicate HandlesExact(a: Agent) {
    forall g :: HandleExact(a, g)
  }

  /** The task recorded for a ghost is its latest call's. */
  ghost predicate TaskIsLatest(a: Agent, g: string) {
    g in a.ghostIdToTaskId ==>
      Latest(a.calls, g) >= 0 && a.calls[Latest(a.calls, g)].taskId == a.ghostIdToTaskId[g]
  }

  ghost predicate TasksAreLatest(a: Agent) {
    forall g :: TaskIsLatest(a, g)
  }

  /** A task with metadata is the one recorded for its ghost. */
  ghost predicate MetaIsRecorded(a: Agent, t: string) {
    t in a.spawnTaskMeta ==>
      a.spawnTaskMeta[t] in a.ghostIdToTaskId && a.ghostIdToTaskId[a.spawnTaskMeta[t]] == t
  }

  ghost predicate MetaAreRecorded(a: Agent) {
    forall t :: MetaIsRecorded(a, t)
  }

  function Closings(events: seq<TaskEvent>, t: string): nat {
    if events == [] then 0
    else
      var e := events[|events| - 1];
      Closings(events[..|events| - 1], t)
      + if e.taskId == t && (e.Completed? || e.Failed? || e.found) then 1 else 0
  }

  function Spawns(calls: seq<Call>, t: string): nat {
    if calls == [] then 0
    else Spawns(calls[..|calls| - 1], t) + if calls[|calls| - 1].taskId == t then 1 else 0
  }

  /** A task has been closed at most as often as it was spawned, less one while it has metadata. */
  ghost predicate ClosedOncePerSpawn(a: Agent) {
    forall t :: Closings(a.published, t) + (if t in a.spawnTaskMeta then 1 else 0) <= Spawns(a.calls, t)
  }

  ghost predicate Sound(a: Agent) {
    OnlyLatestGoes(a) && HandlesExact(a) && TasksAreLatest(a) && MetaAreRecorded(a) && ClosedOncePerSpawn(a)
  }

  lemma LatestSnoc(calls: seq<Call>, c: Call, g: string)
    ensures Latest(calls + [c], g) == if c.ghostId == g then |calls| else Latest(calls, g)
  {
    assert (calls + [c])[..|calls|] == calls;
  }

  /** Who is latest depends on the ghosts of the calls alone. */
  lemma LatestSame(before: seq<Call>, after: seq<Call>, g: string)
    requires |before| == |after| && forall k :: 0 <= k < |before| ==> before[k].ghostId == after[k].ghostId
    ensures Latest(before, g) == Latest(after, g)
  {
    hide Latest;
    var j := Latest(after, g);
    if j >= 0 {
      assert before[j].ghostId == g;
    }
    var i := Latest(before, g);
    if i >= 0 {
      assert after[i].ghostId == g;
    }
  }

  lemma {:induction false} SpawnsSame(before: seq<Call>, after: seq<Call>, t: string)
    requires |before| == |after| && forall k :: 0 <= k < |before| ==> before[k].taskId == after[k].taskId
    ensures Spawns(before, t) == Spawns(after, t)
  {
    if before != [] {
      SpawnsSame(before[..|before| - 1], after[..|after| - 1], t);
    }
  }

  lemma SpawnsSnoc(calls: seq<Call>, c: Call, t: string)
    ensures Spawns(calls + [c], t) == Spawns(calls, t) + if c.taskId == t then 1 else 0
  {
    assert (calls + [c])[..|calls|] == calls;
  }

  lemma ClosingsSnoc(events: seq<TaskEvent>, e: TaskEvent, t: string)
    ensures Closings(events + [e], t)
         == Closings(events, t) + if e.taskId == t && (e.Completed? || e.Failed? || e.found) then 1 else 0
  {
    assert (events + [e])[..|events|] == events;
  }

  // ----- One step at a time -----

  /** What a step does to the calls: a spawn adds one, and no step changes a task or a ghost. */
  ghost predicate SameCalls(before: seq<Call>, after: seq<Call>) {
    && |before| == |after|
    && forall k :: 0 <= k < |before| ==>
         before[k].ghostId == after[k].ghostId && before[k].taskId == after[k].taskId
  }

  lemma CallsFollow(a: Agent, step: Step)
    requires Enabled(a, step)
    ensures var b := Next(a, step);
            if step.Spawn? then
              && |b.calls| == |a.calls| + 1 && SameCalls(a.calls, b.calls[..|a.calls|])
              && b.calls == b.calls[..|a.calls|] + [Call(step.taskId, step.ghostId, true, Connecting)]
            else SameCalls(a.calls, b.calls)
  {
  }

  lemma LatestFollows(a: Agent, step: Step, g: string)
    requires Enabled(a, step)
    ensures Latest(Next(a, step).calls, g)
         == if step.Spawn? && step.ghostId == g then |a.calls| else Latest(a.calls, g)
  {
    hide Next, Enabled, Latest;
    CallsFollow(a, step);
    var b := Next(a, step);
    if step.Spawn? {
      LatestSame(a.calls, b.calls[..|a.calls|], g);
      LatestSnoc(b.calls[..|a.calls|], b.calls[|a.calls|], g);
    } else {
      LatestSame(a.calls, b.calls, g);
    }
  }

  lemma SpawnsFollow(a: Agent, step: Step, t: string)
    requires Enabled(a, step)
    ensures Spawns(Next(a, step).calls, t) == Spawns(a.calls, t) + if step.Spawn? && step.taskId == t then 1 else 0
  {
    hide Next, Enabled, Spawns;
    CallsFollow(a, step);
    var b := Next(a, step);
    if step.Spawn? {
      SpawnsSame(a.calls, b.calls[..|a.calls|], t);
      SpawnsSnoc(b.calls[..|a.calls|], b.calls[|a.calls|], t);
    } else {
      SpawnsSame(a.calls, b.calls, t);
    }
  }

  lemma RegisteredMaps(a: Agent, t: string, g: string)
    ensures var b := Registered(a, t, g); b.calls == a.calls && b.loopsByGhostId == a.loopsByGhostId
  {
  }

  /** What keeps going was going before or has just been spawned, and a spawn stops its ghost's
      latest call. */
  lemma GoingFollows(a: Agent, step: Step, k: int)
    requires HandlesExact(a) && Enabled(a, step) && Going(Next(a, step), k)
    ensures if k < |a.calls| then
              Going(a, k) && (step.Spawn? && a.calls[k].ghostId == step.ghostId ==> k != Latest(a.calls, step.ghostId))
            else step.Spawn? && k == |a.calls|
  {
    hide Latest, Registered;
    if step.Spawn? {
      RegisteredMaps(a, step.taskId, step.ghostId);
      assert HandleExact(a, step.ghostId);
    }
  }

  lemma StepKeepsGoing(a: Agent, step: Step)
    requires OnlyLatestGoes(a) && HandlesExact(a) && Enabled(a, step)
    ensures OnlyLatestGoes(Next(a, step))
  {
    hide Next, Enabled, HandlesExact, Latest;
    var b := Next(a, step);
    forall k | Going(b, k) ensures k == Latest(b.calls, b.calls[k].ghostId) {
      GoingFollows(a, step, k);
      CallsFollow(a, step);
      LatestFollows(a, step, b.calls[k].ghostId);
      assert k < |a.calls| && step.Spawn? ==> b.calls[..|a.calls|][k] == b.calls[k];
    }
  }

  lemma StepKeepsHandle(a: Agent, step: Step, g: string)
    requires HandleExact(a, g) && Enabled(a, step)
    requires step.Spawn? ==> Registered(a, step.taskId, step.ghostId).loopsByGhostId == a.loopsByGhostId
    requires step.Spawn? ==> Registered(a, step.taskId, step.ghostId).calls == a.calls
    requires Latest(Next(a, step).calls, g) == if step.Spawn? && step.ghostId == g then |a.calls| else Latest(a.calls, g)
    ensures HandleExact(Next(a, step), g)
  {
    hide Latest, Registered;
  }

  lemma StepKeepsHandles(a: Agent, step: Step)
    requires HandlesExact(a) && Enabled(a, step)
    ensures HandlesExact(Next(a, step))
  {
    hide Next, Enabled, HandleExact, Latest, Registered;
    forall g ensures HandleExact(Next(a, step), g) {
      assert HandleExact(a, g);
      LatestFollows(a, step, g);
      if step.Spawn? {
        RegisteredMaps(a, step.taskId, step.ghostId);
      }
      StepKeepsHandle(a, step, g);
    }
  }

  lemma TaskFollows(a: Agent, step: Step, g: string)
    requires TaskIsLatest(a, g) && Enabled(a, step)
    requires Latest(Next(a, step).calls, g) == if step.Spawn? && step.ghostId == g then |a.calls| else Latest(a.calls, g)
    ensures TaskIsLatest(Next(a, step), g)
  {
    hide Latest;
  }

  lemma StepKeepsTasks(a: Agent, step: Step)
    requires TasksAreLatest(a) && Enabled(a, step)
    ensures TasksAreLatest(Next(a, step))
  {
    hide Next, Enabled, TaskIsLatest, Latest;
    forall g ensures TaskIsLatest(Next(a, step), g) {
      assert TaskIsLatest(a, g);
      LatestFollows(a, step, g);
      TaskFollows(a, step, g);
    }
  }

  lemma MetaFollows(a: Agent, step: Step, t: string)
    requires MetaIsRecorded(a, t) && Enabled(a, step)
    ensures MetaIsRecorded(Next(a, step), t)
  {
  }

  lemma StepKeepsMeta(a: Agent, step: Step)
    requires MetaAreRecorded(a) && Enabled(a, step)
    ensures MetaAreRecorded(Next(a, step))
  {
    hide Next, Enabled, MetaIsRecorded;
    forall t ensures MetaIsRecorded(Next(a, step), t) {
      assert MetaIsRecorded(a, t);
      MetaFollows(a, step, t);
    }
  }

  /** A step closes a task only by taking its metadata away. */
  lemma ClosingFollows(a: Agent, step: Step, t: string)
    requires Enabled(a, step)
    ensures var b := Next(a, step);
            Closings(b.published, t) + (if t in b.spawnTaskMeta then 1 else 0)
            <= Closings(a.published, t) + (if t in a.spawnTaskMeta then 1 else 0)
               + if step.Spawn? && step.taskId == t then 1 else 0
  {
    hide Closings, MovementCancelled;
    CancelKeepsEvents(a, step);
    var b := Next(a, step);
    if |b.published| > |a.published| {
      ClosingsSnoc(a.published, b.published[|a.published|], t);
      assert b.published == a.published + [b.published[|a.published|]];
    }
  }

  lemma CancelKeepsEvents(a: Agent, step: Step)
    ensures step.Spawn? ==>
              MovementCancelled(Registered(a, step.taskId, step.ghostId), step.ghostId).published == a.published
    ensures step.Spawn? ==>
              MovementCancelled(Registered(a, step.taskId, step.ghostId), step.ghostId).spawnTaskMeta
              == Registered(a, step.taskId, step.ghostId).spawnTaskMeta
    ensures forall g :: MovementCancelled(a, g).published == a.published
                     && MovementCancelled(a, g).spawnTaskMeta == a.spawnTaskMeta
  {
  }

  lemma StepKeepsClosed(a: Agent, step: Step)
    requires ClosedOncePerSpawn(a) && Enabled(a, step)
    ensures ClosedOncePerSpawn(Next(a, step))
  {
    hide Next, Enabled, Closings, Spawns;
    var b := Next(a, step);
    forall t ensures Closings(b.published, t) + (if t in b.spawnTaskMeta then 1 else 0) <= Spawns(b.calls, t) {
      ClosingFollows(a, step, t);
      SpawnsFollow(a, step, t);
    }
  }

  lemma StepKeepsSound(a: Agent, step: Step)
    requires Sound(a) && Enabled(a, step)
    ensures Sound(Next(a, step))
  {
    hide OnlyLatestGoes, HandlesExact, TasksAreLatest, MetaAreRecorded, ClosedOncePerSpawn, Next, Enabled;
    StepKeepsGoing(a, step);
    StepKeepsHandles(a, step);
    StepKeepsTasks(a, step);
    StepKeepsMeta(a, step);
    StepKeepsClosed(a, step);
  }

  // ----- Every run -----

  predicate AgentRun(a: Agent, steps: seq<Step>)
    decreases |steps|
  {
    steps == [] || (Enabled(a, steps[0]) && AgentRun(Next(a, steps[0]), steps[1..]))
  }

  function After(a: Agent, steps: seq<Step>): Agent
    requires AgentRun(a, steps)
    decreases |steps|
  {
    if steps == [] then a else After(Next(a, steps[0]), steps[1..])
  }

  const FRESH := Agent(map[], map[], map[], map[], [], [])

  lemma FreshIsSound()
    ensures Sound(FRESH)
  {
  }

  lemma {:induction false} RunKeepsSound(a: Agent, steps: seq<Step>)
    requires Sound(a) && AgentRun(a, steps)
    ensures Sound(After(a, steps))
    decreases |steps|
  {
    hide Sound, Enabled, Next;
    if steps != [] {
      StepKeepsSound(a, steps[0]);
      RunKeepsSound(Next(a, steps[0]), steps[1..]);
    }
  }

  /** At no time do two loops move one ghost, unless one of them has been told to stop. */
  lemma OneLoopPerGhost(steps: seq<Step>, j: nat, k: nat)
    requires AgentRun(FRESH, steps)
    ensures var a := After(FRESH, steps);
            Going(a, j) && Going(a, k) && a.calls[j].ghostId == a.calls[k].ghostId ==> j == k
  {
    hide Next, Enabled, HandlesExact, TasksAreLatest, MetaAreRecorded, ClosedOncePerSpawn, Latest;
    FreshIsSound();
    RunKeepsSound(FRESH, steps);
  }

  /** Over every run, a ghost's handle is there exactly while its latest call's loop is still to
      be left, or if that loop was never entered because connecting threw. */
  lemma HandleIsThereExactly(steps: seq<Step>, g: string)
    requires AgentRun(FRESH, steps)
    ensures var a := After(FRESH, steps);
            var k := Latest(a.calls, g);
            && (g in a.loopsByGhostId <==> k >= 0 && KeepsHandle(a.calls[k]))
            && (g in a.loopsByGhostId ==> a.loopsByGhostId[g] == k)
  {
    hide Next, Enabled, TasksAreLatest, MetaAreRecorded, ClosedOncePerSpawn, OnlyLatestGoes, Latest, KeepsHandle;
    FreshIsSound();
    RunKeepsSound(FRESH, steps);
    assert HandleExact(After(FRESH, steps), g);
  }

  lemma ThreeSteps(s: Step, t: Step, u: Step)
    requires Enabled(FRESH, s) && Enabled(Next(FRESH, s), t) && Enabled(Next(Next(FRESH, s), t), u)
    ensures AgentRun(FRESH, [s, t, u]) && After(FRESH, [s, t, u]) == Next(Next(Next(FRESH, s), t), u)
  {
    hide Next, Enabled;
    var a := Next(FRESH, s);
    var b := Next(a, t);
    var c := Next(b, u);
    assert [s, t, u][1..] == [t, u] && [t, u][1..] == [u] && [u][1..] == [];
    assert After(c, []) == c;
    assert AgentRun(b, [u]) && After(b, [u]) == c;
    assert AgentRun(a, [t, u]) && After(a, [t, u]) == c;
  }

  /** A concrete handle that outlives its loop: connecting threw, the task has failed, and the
      ghost still has it. */
  lemma StaleHandle()
    ensures var steps := [Spawn("task", "ghost"), ConnectThrows(0), Finish(0)];
            && AgentRun(FRESH, steps)
            && var a := After(FRESH, steps);
               && "ghost" in a.loopsByGhostId && a.loopsByGhostId["ghost"] == 0
               && a.calls == [Call("task", "ghost", true, Returned(false))]
               && a.published == [Failed("task")]
  {
    ThreeSteps(Spawn("task", "ghost"), ConnectThrows(0), Finish(0));
  }

  // ----- Cancelling -----

  /** What cancelling t does to the calls. */
  ghost predicate StopsOnly(a: Agent, b: Agent, t: string) {
    && |b.calls| == |a.calls|
    && b.loopsByGhostId == a.loopsByGhostId
    && (forall k :: 0 <= k < |a.calls| && a.calls[k].taskId != t ==> b.calls[k] == a.calls[k])
    && (t !in a.spawnTaskMeta ==> b.calls == a.calls)
    && (t in a.spawnTaskMeta ==> Still(b, a.spawnTaskMeta[t]))
  }

  /** No live loop of this ghost is allowed to go on. */
  ghost predicate Still(a: Agent, g: string) {
    forall k :: 0 <= k < |a.calls| && a.calls[k].ghostId == g ==> !Going(a, k)
  }

  lemma CancelStops(a: Agent, t: string)
    requires OnlyLatestGoes(a) && HandlesExact(a) && TasksAreLatest(a) && MetaAreRecorded(a)
    ensures StopsOnly(a, Next(a, Cancel(t)), t)
  {
    hide Latest;
    assert MetaIsRecorded(a, t);
    if t in a.spawnTaskMeta {
      var g := a.spawnTaskMeta[t];
      assert HandleExact(a, g) && TaskIsLatest(a, g);
      var b := Next(a, Cancel(t));
      forall k | 0 <= k < |b.calls| && b.calls[k].ghostId == g ensures !Going(b, k) {
        assert Going(b, k) ==> Going(a, k);
      }
    }
  }

  /** Cancelling a task changes no other task's call, so never a replacement; and it stops the
      ghost if the task still has its metadata. */
  lemma CancelTouchesOnlyItsOwn(steps: seq<Step>, t: string)
    requires AgentRun(FRESH, steps)
    ensures StopsOnly(After(FRESH, steps), Next(After(FRESH, steps), Cancel(t)), t)
  {
    hide Next, HandlesExact, OnlyLatestGoes, TasksAreLatest, MetaAreRecorded, ClosedOncePerSpawn, StopsOnly;
    FreshIsSound();
    RunKeepsSound(FRESH, steps);
    CancelStops(After(FRESH, steps), t);
  }

  /** No call of the ghost but this one goes on. */
  ghost predicate GoesAlone(a: Agent, g: string, k: nat) {
    forall j :: 0 <= j < |a.calls| && a.calls[j].ghostId == g && Going(a, j) ==> j == k
  }

  /** A respawn takes the ghost over: every earlier loop of the ghost has been told to stop, and
      cancelling any other task afterwards leaves the new loop going. */
  lemma RespawnTakesOver(steps: seq<Step>, t: string, u: string, g: string)
    requires AgentRun(FRESH, steps) && t != u
    ensures var a := After(FRESH, steps);
            var b := Next(a, Spawn(u, g));
            && GoesAlone(b, g, |a.calls|) && Going(b, |a.calls|)
            && GoesAlone(Next(b, Cancel(t)), g, |a.calls|) && Going(Next(b, Cancel(t)), |a.calls|)
  {
    hide Next, HandlesExact, OnlyLatestGoes, TasksAreLatest, MetaAreRecorded, ClosedOncePerSpawn, Latest;
    FreshIsSound();
    RunKeepsSound(FRESH, steps);
    var a := After(FRESH, steps);
    StepKeepsSound(a, Spawn(u, g));
    var b := Next(a, Spawn(u, g));
    CallsFollow(a, Spawn(u, g));
    LatestFollows(a, Spawn(u, g), g);
    AloneIfSound(b, g);
    StepKeepsSound(b, Cancel(t));
    LatestFollows(b, Cancel(t), g);
    CallsFollow(b, Cancel(t));
    AloneIfSound(Next(b, Cancel(t)), g);
    CancelStops(b, t);
  }

  lemma AloneIfSound(a: Agent, g: string)
    requires OnlyLatestGoes(a) && Latest(a.calls, g) >= 0
    ensures GoesAlone(a, g, Latest(a.calls, g))
  {
    hide Latest;
  }

  /** Of execute's own final events and the cancels that found the task, at most one is ever
      published for each time the task was spawned; other cancels publish without having found it. */
  lemma ClosedAtMostOncePerSpawn(steps: seq<Step>, t: string)
    requires AgentRun(FRESH, steps)
    ensures Closings(After(FRESH, steps).published, t) <= Spawns(After(FRESH, steps).calls, t)
  {
    hide Next, Enabled, HandlesExact, OnlyLatestGoes, TasksAreLatest, MetaAreRecorded, Closings, Spawns;
    FreshIsSound();
    RunKeepsSound(FRESH, steps);
  }

  /** What the end of a call publishes: nothing once a cancel or another spawn has its metadata;
      otherwise that it failed, if connecting or the loop threw, or else that it completed. */
  lemma FinishPublishes(a: Agent, k: nat)
    requires Enabled(a, Finish(k))
    ensures var c, b := a.calls[k], Next(a, Finish(k));
            && b.calls[k].stage.Returned?
            && (!Owned(a, k) ==> b.published == a.published)
            && (Owned(a, k) ==> c.taskId !in b.spawnTaskMeta && |b.published| == |a.published| + 1)
            && (Owned(a, k) && c.stage in {NeverConnected, Leaving(true)} ==>
                  b.published == a.published + [Failed(c.taskId)])
            && (Owned(a, k) && c.stage == Leaving(false) ==> b.published == a.published + [Completed(c.taskId)])
  {
  }

  /** A cancel is always answered, and takes the task's metadata with it. */
  lemma CancelAnswers(a: Agent, t: string)
    ensures var b := Next(a, Cancel(t));
            && b.published == a.published + [Canceled(t, t in a.spawnTaskMeta)]
            && t !in b.spawnTaskMeta && forall u :: u != t ==> (u in b.spawnTaskMeta <==> u in a.spawnTaskMeta)
  {
  }

  /** The call that connected last, for each ghost. */
  function LastConnected(a: Agent, m: map<string, nat>, steps: seq<Step>): map<string, nat>
    requires AgentRun(a, steps)
    decreases |steps|
  {
    if steps == [] then m
    else
      var step := steps[0];
      LastConnected(Next(a, step), if step.Connect? then m[a.calls[step.call].ghostId := step.call] else m, steps[1..])
  }

  /** A ghost has a client exactly while the call that connected last is in its loop. */
  ghost predicate ClientExact(a: Agent, m: map<string, nat>, g: string) {
    && (g in m ==> m[g] < |a.calls| && a.calls[m[g]].ghostId == g && a.calls[m[g]].stage != Connecting)
    && (g in a.mcpByGhostId <==> g in m && a.calls[m[g]].stage == Moving)
    && (g in a.mcpByGhostId ==> a.mcpByGhostId[g] == m[g])
  }

  ghost predicate ClientsExact(a: Agent, m: map<string, nat>) {
    forall g :: ClientExact(a, m, g)
  }

  lemma StepKeepsClient(a: Agent, m: map<string, nat>, step: Step, g: string)
    requires ClientExact(a, m, g) && Enabled(a, step)
    ensures ClientExact(Next(a, step), if step.Connect? then m[a.calls[step.call].ghostId := step.call] else m, g)
  {
  }

  lemma {:induction false} RunKeepsClients(a: Agent, m: map<string, nat>, steps: seq<Step>)
    requires ClientsExact(a, m) && AgentRun(a, steps)
    ensures ClientsExact(After(a, steps), LastConnected(a, m, steps))
    decreases |steps|
  {
    hide ClientExact, Next;
    if steps != [] {
      var step := steps[0];
      var n := if step.Connect? then m[a.calls[step.call].ghostId := step.call] else m;
      forall g ensures ClientExact(Next(a, step), n, g) {
        assert ClientExact(a, m, g);
        StepKeepsClient(a, m, step, g);
      }
      RunKeepsClients(Next(a, step), n, steps[1..]);
    }
  }

  /** Over every run, a ghost speaks through the call that connected last, and through none once that
      one has left its loop. */
  lemma ClientIsThereExactly(steps: seq<Step>, g: string)
    requires AgentRun(FRESH, steps)
    ensures var a, m := After(FRESH, steps), LastConnected(FRESH, map[], steps);
            && (g in m ==> m[g] < |a.calls| && a.calls[m[g]].ghostId == g)
            && (g in a.mcpByGhostId <==> g in m && a.calls[m[g]].stage == Moving)
            && (g in a.mcpByGhostId ==> a.mcpByGhostId[g] == m[g])
  {
    hide Next, Enabled, After, AgentRun, LastConnected;
    NoClients();
    RunKeepsClients(FRESH, map[], steps);
    assert ClientExact(After(FRESH, steps), LastConnected(FRESH, map[], steps), g);
  }

  lemma NoClients()
    ensures ClientsExact(FRESH, map[])
  {
  }

  /** A concrete loop without its client: the replaced call connects late, takes the client over,
      and takes it away again when it leaves. */
  lemma LostClient()
    ensures var steps := [Spawn("one", "ghost"), Spawn("two", "ghost"), Connect(1)];
            && AgentRun(FRESH, steps) && Enabled(After(FRESH, steps), Connect(0))
            && var a := Next(After(FRESH, steps), Connect(0));
               && Enabled(a, LoopExits(0, false))
               && var b := Next(a, LoopExits(0, false));
                  Going(b, 1) && b.calls[1].stage == Moving && "ghost" !in b.mcpByGhostId
  {
    ThreeSteps(Spawn("one", "ghost"), Spawn("two", "ghost"), Connect(1));
  }

  // ----- When a running loop can no longer be cancelled -----

  /** The call's task still has its metadata, so cancelling the task reaches the call. */
  predicate Owned(a: Agent, k: nat)
    requires k < |a.calls|
  {
    var c := a.calls[k];
    c.taskId in a.spawnTaskMeta && a.spawnTaskMeta[c.taskId] == c.ghostId
  }

  /** A step that takes the metadata from a loop that goes on: an earlier call of the same task and
      ghost finishing, the task being spawned for another ghost, or another task being spawned for
      such a ghost. */
  predicate Overtakes(a: Agent, step: Step, k: nat)
    requires k < |a.calls|
  {
    var c := a.calls[k];
    match step
    case Spawn(u, h) =>
      if u == c.taskId then h != c.ghostId
      else h in a.ghostIdToTaskId && a.ghostIdToTaskId[h] == c.taskId
    case Finish(j) => j < |a.calls| && j != k && a.calls[j].taskId == c.taskId && a.calls[j].ghostId == c.ghostId
    case _ => false
  }

  lemma OwnershipFollows(a: Agent, step: Step, k: nat)
    requires OnlyLatestGoes(a) && HandlesExact(a) && Enabled(a, step)
    requires k < |a.calls| && Going(Next(a, step), k)
    ensures Going(a, k) && k < |Next(a, step).calls|
    ensures Owned(Next(a, step), k) <==> Owned(a, k) && !Overtakes(a, step, k)
  {
    hide Latest, HandlesExact, OnlyLatestGoes, Next, Enabled, Owned, Overtakes;
    GoingFollows(a, step, k);
    CancelledCall(a, step, k);
    CallsFollow(a, step);
    assert step.Spawn? ==> Next(a, step).calls[..|a.calls|][k] == Next(a, step).calls[k];
    MetaOfGoing(a, step, k);
  }

  /** What a step does to the metadata of a call that it does not stop. */
  lemma MetaOfGoing(a: Agent, step: Step, k: nat)
    requires k < |a.calls| && Going(a, k) && Enabled(a, step)
    requires step.Spawn? ==> step.ghostId != a.calls[k].ghostId
    requires step.Cancel? && step.taskId in a.spawnTaskMeta ==> a.spawnTaskMeta[step.taskId] != a.calls[k].ghostId
    requires var b := Next(a, step);
             k < |b.calls| && b.calls[k].taskId == a.calls[k].taskId && b.calls[k].ghostId == a.calls[k].ghostId
    ensures Owned(Next(a, step), k) <==> Owned(a, k) && !Overtakes(a, step, k)
  {
  }

  /** Neither a spawn for the ghost nor a cancel of the task that reaches it leaves the call going. */
  lemma CancelledCall(a: Agent, step: Step, k: nat)
    requires OnlyLatestGoes(a) && HandlesExact(a) && Enabled(a, step)
    requires k < |a.calls| && Going(a, k) && Going(Next(a, step), k)
    ensures step.Spawn? ==> step.ghostId != a.calls[k].ghostId
    ensures step.Cancel? && step.taskId in a.spawnTaskMeta ==> a.spawnTaskMeta[step.taskId] != a.calls[k].ghostId
  {
    hide Latest, Registered;
    assert HandleExact(a, a.calls[k].ghostId);
    if step.Spawn? {
      RegisteredMaps(a, step.taskId, step.ghostId);
    }
  }

  predicate NeverOvertaken(a: Agent, steps: seq<Step>, k: nat)
    requires AgentRun(a, steps) && k < |a.calls|
    decreases |steps|
  {
    steps == [] ||
    (CallsFollow(a, steps[0]); !Overtakes(a, steps[0], k) && NeverOvertaken(Next(a, steps[0]), steps[1..], k))
  }

  lemma {:induction false} OwnershipOverRuns(a: Agent, steps: seq<Step>, k: nat)
    requires Sound(a) && AgentRun(a, steps) && k < |a.calls|
    requires Going(After(a, steps), k)
    ensures Going(a, k)
    ensures Owned(After(a, steps), k) <==> Owned(a, k) && NeverOvertaken(a, steps, k)
    decreases |steps|
  {
    hide OnlyLatestGoes, HandlesExact, TasksAreLatest, MetaAreRecorded, ClosedOncePerSpawn, Enabled, Next, Overtakes, Owned,
      Going;
    if steps != [] {
      StepKeepsSound(a, steps[0]);
      CallsFollow(a, steps[0]);
      OwnershipOverRuns(Next(a, steps[0]), steps[1..], k);
      OwnershipFollows(a, steps[0], k);
    }
  }

  /** Over every run after it was spawned, a loop that still goes can be stopped through its task
      exactly if no step has overtaken it. */
  lemma CancellableExactly(steps: seq<Step>, t: string, g: string, later: seq<Step>)
    requires AgentRun(FRESH, steps)
    requires var a := Next(After(FRESH, steps), Spawn(t, g)); AgentRun(a, later)
    ensures var a := Next(After(FRESH, steps), Spawn(t, g));
            var k, b := |After(FRESH, steps).calls|, After(a, later);
            && k < |a.calls|
            && (Going(b, k) ==> (!Going(Next(b, Cancel(t)), k) <==> NeverOvertaken(a, later, k)))
  {
    hide Sound, Next, Overtakes, NeverOvertaken, Going, Owned;
    FreshIsSound();
    RunKeepsSound(FRESH, steps);
    var start := After(FRESH, steps);
    StepKeepsSound(start, Spawn(t, g));
    JustSpawned(start, t, g);
    var a := Next(start, Spawn(t, g));
    RunKeepsSound(a, later);
    if Going(After(a, later), |start.calls|) {
      OwnershipOverRuns(a, later, |start.calls|);
      CallStays(a, later, |start.calls|);
      CancelReaches(After(a, later), |start.calls|);
    }
  }

  lemma JustSpawned(a: Agent, t: string, g: string)
    ensures var b := Next(a, Spawn(t, g)); var k := |a.calls|;
            k < |b.calls| && b.calls[k].taskId == t && b.calls[k].ghostId == g && Owned(b, k)
  {
  }

  lemma {:induction false} CallStays(a: Agent, steps: seq<Step>, k: nat)
    requires AgentRun(a, steps) && k < |a.calls|
    ensures k < |After(a, steps).calls|
    ensures After(a, steps).calls[k].taskId == a.calls[k].taskId && After(a, steps).calls[k].ghostId == a.calls[k].ghostId
    decreases |steps|
  {
    hide Next, Enabled;
    if steps != [] {
      CallsFollow(a, steps[0]);
      var b := Next(a, steps[0]);
      assert steps[0].Spawn? ==> b.calls[..|a.calls|][k] == b.calls[k];
      CallStays(b, steps[1..], k);
    }
  }

  /** Cancelling a loop's task stops the loop exactly while the task has its metadata. */
  lemma CancelReaches(a: Agent, k: nat)
    requires Sound(a) && Going(a, k)
    ensures !Going(Next(a, Cancel(a.calls[k].taskId)), k) <==> Owned(a, k)
  {
    hide Latest, TasksAreLatest, ClosedOncePerSpawn;
    var t := a.calls[k].taskId;
    assert HandleExact(a, a.calls[k].ghostId) && MetaIsRecorded(a, t);
    if t in a.spawnTaskMeta {
      assert HandleExact(a, a.spawnTaskMeta[t]);
    }
  }

  /** A loop whose task was spawned for it alone is never overtaken: it can be stopped as long as
      it goes, whatever the other tasks do. */
  lemma SpawnedOnceIsCancellable(steps: seq<Step>, k: nat)
    requires AgentRun(FRESH, steps) && Going(After(FRESH, steps), k)
    requires Sole(After(FRESH, steps), k)
    ensures !Going(Next(After(FRESH, steps), Cancel(After(FRESH, steps).calls[k].taskId)), k)
  {
    hide Sound, Enabled, Next, Owned;
    FreshIsSound();
    RunKeepsSound(FRESH, steps);
    NothingGoes();
    SolesAreOwned(FRESH, steps);
    assert SoleIsOwned(After(FRESH, steps), k);
    CancelReaches(After(FRESH, steps), k);
  }

  lemma NothingGoes()
    ensures forall k :: SoleIsOwned(FRESH, k)
  {
  }

  /** No other call is for the same task. */
  predicate Sole(a: Agent, k: int)
    requires 0 <= k < |a.calls|
  {
    forall j :: 0 <= j < |a.calls| && j != k ==> a.calls[j].taskId != a.calls[k].taskId
  }

  ghost predicate SoleIsOwned(a: Agent, k: int) {
    Going(a, k) && Sole(a, k) ==> Owned(a, k)
  }

  lemma SoleFollows(a: Agent, step: Step, k: int)
    requires Sound(a) && Enabled(a, step) && SoleIsOwned(a, k)
    ensures SoleIsOwned(Next(a, step), k)
  {
    hide Latest, OnlyLatestGoes, HandlesExact, MetaAreRecorded, ClosedOncePerSpawn, Next, Owned;
    var b := Next(a, step);
    if Going(b, k) && Sole(b, k) {
      CallsFollow(a, step);
      GoingFollows(a, step, k);
      if k < |a.calls| {
        assert step.Spawn? ==> forall j :: 0 <= j < |a.calls| ==> b.calls[j] == b.calls[..|a.calls|][j];
        assert step.Spawn? ==> b.calls[|a.calls|].taskId == step.taskId;
        assert Sole(a, k);
        OwnershipFollows(a, step, k);
        CancelledCall(a, step, k);
        SoleIsNotOvertaken(a, step, k);
      } else {
        JustSpawned(a, step.taskId, step.ghostId);
      }
    }
  }

  lemma SoleIsNotOvertaken(a: Agent, step: Step, k: nat)
    requires TasksAreLatest(a) && k < |a.calls| && Sole(a, k) && Enabled(a, step)
    requires step.Spawn? ==> step.taskId != a.calls[k].taskId && step.ghostId != a.calls[k].ghostId
    ensures !Overtakes(a, step, k)
  {
    hide Latest;
    if step.Spawn? && step.ghostId in a.ghostIdToTaskId {
      assert TaskIsLatest(a, step.ghostId);
    }
  }

  lemma {:induction false} SolesAreOwned(a: Agent, steps: seq<Step>)
    requires Sound(a) && AgentRun(a, steps) && forall k :: SoleIsOwned(a, k)
    ensures forall k :: SoleIsOwned(After(a, steps), k)
    decreases |steps|
  {
    hide Sound, Enabled, Next, SoleIsOwned;
    if steps != [] {
      StepKeepsSound(a, steps[0]);
      forall k ensures SoleIsOwned(Next(a, steps[0]), k) {
        SoleFollows(a, steps[0], k);
      }
      SolesAreOwned(Next(a, steps[0]), steps[1..]);
    }
  }

  /** A concrete loop out of reach: one task spawned twice for a ghost, and the first call's end
      takes the metadata the second still needs. */
  lemma LostLoop()
    ensures var steps := [Spawn("task", "ghost"), Spawn("task", "ghost"), ConnectThrows(0)];
            && AgentRun(FRESH, steps) && Enabled(After(FRESH, steps), Finish(0))
            && var a := Next(After(FRESH, steps), Finish(0));
               && Going(a, 1) && a.published == [Failed("task")]
               && Next(a, Cancel("task")).calls == a.calls
  {
    ThreeSteps(Spawn("task", "ghost"), Spawn("task", "ghost"), ConnectThrows(0));
  }
}
