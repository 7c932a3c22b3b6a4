/**
 The shared-subscription hub: connections join and leave one execution per key, while that
 execution may be ending, may have been aborted, or may have been replaced.

 `State` and `Apply` describe the protocol as atomic steps (one critical section or one
 channel operation each); class `Hub` performs the same steps on its fields. The theorems
 hold of every interleaving of the steps.
 */
module SubscriptionHub {
  import opened Wrappers

  /** What makes two subscriptions the same, so they can share a stream. */
  datatype Key = Key(scope: string, query: string, operationName: Option<string>, variables: string)

  datatype Frame = Next(json: string) | Complete

  /** How far an execution has come. Its only suspension point is in `Streaming`, so that is
      the only phase in which a requested abort can take effect. */
  datatype Phase =
    | Streaming   // awaiting the next response
    | Ending      // the stream is over or a send failed; not yet forgotten by the hub
    | Forgotten   // `ended` has run; `Complete` not yet sent
    | Done        // `Complete` sent to whoever was subscribed
    | Aborted     // cancelled

  /** One execution. `log` is every frame its channel has carried. */
  datatype Task = Task(key: Key, phase: Phase, abortRequested: bool, log: seq<Frame>)

  datatype Standing =
    | Subscribed  // holds a receiver
    | Leaving     // has dropped its receiver; `leave` still to run
    | Left

  /** One subscriber's place in the stream of `generation`; it receives what the channel
      carries from `joinedAt` on. */
  datatype Member = Member(key: Key, generation: nat, joinedAt: nat, standing: Standing)

  /** `tasks` is indexed by generation. `alive` is whether the hub itself still exists: tasks
      hold it weakly. */
  datatype State = State(streams: map<Key, nat>, tasks: seq<Task>, members: seq<Member>, alive: bool)

  datatype Action =
    | Join(key: Key)
    | DropReceiver(member: nat)
    | Leave(member: nat)
    | Respond(generation: nat, json: string)
    | StreamOver(generation: nat)
    | Forget(generation: nat)
    | Finish(generation: nat)
    | TakeAbort(generation: nat)
    | DropHub

  // ---------- the steps

  /** A channel has a receiver while a member of its generation is subscribed. */
  ghost predicate HasReceiver(members: seq<Member>, generation: nat) {
    exists i :: 0 <= i < |members| && members[i].standing == Subscribed && members[i].generation == generation
  }

  ghost predicate Enabled(s: State, a: Action) {
    match a
    case Join(_) => s.alive
    case DropReceiver(m) => m < |s.members| && s.members[m].standing == Subscribed
    case Leave(m) => m < |s.members| && s.members[m].standing == Leaving
    case Respond(g, _) => g < |s.tasks| && s.tasks[g].phase == Streaming
    case StreamOver(g) => g < |s.tasks| && s.tasks[g].phase == Streaming
    case Forget(g) => g < |s.tasks| && s.tasks[g].phase == Ending
    case Finish(g) => g < |s.tasks| && s.tasks[g].phase == Forgotten
    case TakeAbort(g) => g < |s.tasks| && s.tasks[g].phase == Streaming && s.tasks[g].abortRequested
    case DropHub => s.alive && forall i :: 0 <= i < |s.members| ==> s.members[i].standing == Left
  }

  /** Joins the stream for `key`, starting it if nobody shares it yet. */
  ghost function ApplyJoin(s: State, key: Key): State {
    if key in s.streams && s.streams[key] < |s.tasks| then
      var g := s.streams[key];
      s.(members := s.members + [Member(key, g, |s.tasks[g].log|, Subscribed)])
    else
      var g := |s.tasks|;
      s.(streams := s.streams[key := g],
         tasks := s.tasks + [Task(key, Streaming, false, [])],
         members := s.members + [Member(key, g, 0, Subscribed)])
  }

  /** Stops the stream for the member's key if nobody is subscribed to it. */
  ghost function ApplyLeave(s: State, m: nat): State
    requires m < |s.members|
  {
    var key := s.members[m].key;
    var left := s.(members := s.members[m := s.members[m].(standing := Left)]);
    if key in s.streams && s.streams[key] < |s.tasks| && !HasReceiver(left.members, s.streams[key]) then
      var g := s.streams[key];
      left.(streams := s.streams - {key}, tasks := s.tasks[g := s.tasks[g].(abortRequested := true)])
    else
      left
  }

  /** Sends a response to everyone sharing the stream; with nobody there the send fails and
      the execution leaves its loop. */
  ghost function ApplyRespond(s: State, g: nat, json: string): State
    requires g < |s.tasks|
  {
    var task := s.tasks[g];
    s.(tasks := s.tasks[g := if HasReceiver(s.members, g) then task.(log := task.log + [Next(json)])
                             else task.(phase := Ending)])
  }

  /** The hub forgets the ending stream, unless it has been replaced already (or the hub is gone). */
  ghost function ApplyForget(s: State, g: nat): State
    requires g < |s.tasks|
  {
    var key := s.tasks[g].key;
    s.(streams := if s.alive && key in s.streams && s.streams[key] == g then s.streams - {key} else s.streams,
       tasks := s.tasks[g := s.tasks[g].(phase := Forgotten)])
  }

  /** Sends `Complete` to whoever is subscribed. */
  ghost function ApplyFinish(s: State, g: nat): State
    requires g < |s.tasks|
  {
    var task := s.tasks[g];
    s.(tasks := s.tasks[g := task.(phase := Done,
                                   log := if HasReceiver(s.members, g) then task.log + [Complete] else task.log)])
  }

  ghost function Apply(s: State, a: Action): State
    requires Enabled(s, a)
  {
    match a
    case Join(key) => ApplyJoin(s, key)
    case DropReceiver(m) => s.(members := s.members[m := s.members[m].(standing := Leaving)])
    case Leave(m) => ApplyLeave(s, m)
    case Respond(g, json) => ApplyRespond(s, g, json)
    case StreamOver(g) => s.(tasks := s.tasks[g := s.tasks[g].(phase := Ending)])
    case Forget(g) => ApplyForget(s, g)
    case Finish(g) => ApplyFinish(s, g)
    case TakeAbort(g) => s.(tasks := s.tasks[g := s.tasks[g].(phase := Aborted)])
    case DropHub => s.(streams := map[], alive := false)
  }

  const INITIAL := State(map[], [], [], true)

  ghost predicate Step(s: State, t: State) {
    exists a: Action :: Enabled(s, a) && t == Apply(s, a)
  }

  /** A run: the hub's states under any interleaving of steps. */
  ghost predicate Run(run: seq<State>) {
    |run| > 0 && run[0] == INITIAL && forall i :: 0 < i < |run| ==> Step(run[i - 1], run[i])
  }

  // ---------- the invariant

  /** The hub's entries are exactly the executions that neither were aborted nor have been
      forgotten. */
  ghost predicate EntriesAreActive(s: State) {
    && (forall k | k in s.streams ::
          && s.streams[k] < |s.tasks|
          && s.tasks[s.streams[k]].key == k)
    && (forall g | 0 <= g < |s.tasks| ::
          Active(s.tasks[g]) <==> (s.tasks[g].key in s.streams && s.streams[s.tasks[g].key] == g))
  }

  predicate Active(task: Task) {
    (task.phase == Streaming || task.phase == Ending) && !task.abortRequested
  }

  /** A subscribed member's execution was not aborted, and once it is done its `Complete` is
      among the frames the member receives. */
  ghost predicate MemberServed(s: State, m: Member) {
    && m.generation < |s.tasks|
    && s.tasks[m.generation].key == m.key
    && m.joinedAt <= |s.tasks[m.generation].log|
    && (m.standing == Subscribed ==>
          var task := s.tasks[m.generation];
          && !task.abortRequested
          && (task.phase == Done ==> Complete in task.log[m.joinedAt..]))
  }

  /** A member that keeps the entry for `k` from being left behind. */
  ghost predicate Keeps(m: Member, k: Key, g: nat) {
    m.key == k && ((m.standing == Subscribed && m.generation == g) || m.standing == Leaving)
  }

  ghost predicate Kept(s: State, k: Key)
    requires k in s.streams
  {
    exists i :: 0 <= i < |s.members| && Keeps(s.members[i], k, s.streams[k])
  }

  /** `Complete` is the last frame, sent only by an execution that is done. */
  ghost predicate CompletesOnce(task: Task) {
    forall j :: 0 <= j < |task.log| && task.log[j] == Complete ==> j == |task.log| - 1 && task.phase == Done
  }

  ghost predicate MembersServed(s: State) {
    forall i | 0 <= i < |s.members| :: MemberServed(s, s.members[i])
  }

  ghost predicate EntriesKept(s: State) {
    forall k | k in s.streams :: Kept(s, k)
  }

  ghost predicate TasksSound(tasks: seq<Task>) {
    forall g | 0 <= g < |tasks| :: TaskSound(tasks[g])
  }

  ghost predicate TaskSound(task: Task) {
    CompletesOnce(task) && (task.phase == Aborted ==> task.abortRequested)
  }

  ghost predicate EmptyOnceDropped(s: State) {
    !s.alive ==> s.streams == map[] && forall i | 0 <= i < |s.members| :: s.members[i].standing == Left
  }

  ghost predicate Invariant(s: State) {
    && EntriesAreActive(s)
    && MembersServed(s)
    && EntriesKept(s)
    && TasksSound(s.tasks)
    && EmptyOnceDropped(s)
  }

  // ---------- every step keeps the invariant

  lemma JoinServes(s: State, key: Key)
    requires Invariant(s) && Enabled(s, Join(key))
    ensures MembersServed(ApplyJoin(s, key))
  {
    var t := ApplyJoin(s, key);
    forall i | 0 <= i < |t.members| ensures MemberServed(t, t.members[i]) {
      if i < |s.members| {
        assert MemberServed(s, s.members[i]);
      } else if key in s.streams {
        assert Active(s.tasks[s.streams[key]]);
      }
    }
  }

  lemma JoinKeepsEntries(s: State, key: Key)
    requires Invariant(s) && Enabled(s, Join(key))
    ensures EntriesKept(ApplyJoin(s, key))
  {
    var t := ApplyJoin(s, key);
    forall k | k in t.streams ensures Kept(t, k) {
      if k in s.streams {
        var i :| 0 <= i < |s.members| && Keeps(s.members[i], k, s.streams[k]);
        assert t.members[i] == s.members[i];
      } else {
        assert Keeps(t.members[|s.members|], k, t.streams[k]);
      }
    }
  }

  lemma JoinKeepsActive(s: State, key: Key)
    requires EntriesAreActive(s)
    ensures EntriesAreActive(ApplyJoin(s, key))
  {
    var t := ApplyJoin(s, key);
    assert forall g | 0 <= g < |s.tasks| :: t.tasks[g] == s.tasks[g];
    if key !in s.streams {
      assert forall g | 0 <= g < |s.tasks| :: Active(s.tasks[g]) ==> s.tasks[g].key != key;
    }
  }

  lemma JoinKeeps(s: State, key: Key)
    requires Invariant(s) && Enabled(s, Join(key))
    ensures Invariant(ApplyJoin(s, key))
  {
    JoinServes(s, key);
    JoinKeepsEntries(s, key);
    JoinKeepsActive(s, key);
    var t := ApplyJoin(s, key);
    assert TasksSound(t.tasks) by {
      assert forall g | 0 <= g < |s.tasks| :: t.tasks[g] == s.tasks[g];
    }
  }

  lemma DropReceiverKeeps(s: State, m: nat)
    requires Invariant(s) && Enabled(s, DropReceiver(m))
    ensures Invariant(Apply(s, DropReceiver(m)))
  {
    var t := Apply(s, DropReceiver(m));
    forall k | k in t.streams ensures Kept(t, k) {
      var i :| 0 <= i < |s.members| && Keeps(s.members[i], k, s.streams[k]);
      assert Keeps(t.members[i], k, t.streams[k]);
    }
  }

  /** Leaving without stopping the stream: somebody else is subscribed, or there is none. */
  lemma LeaveOthersKeeps(s: State, t: State, m: nat)
    requires Invariant(s) && Enabled(s, Leave(m))
    requires t == s.(members := s.members[m := s.members[m].(standing := Left)])
    requires s.members[m].key in s.streams ==> HasReceiver(t.members, s.streams[s.members[m].key])
    ensures Invariant(t)
  {
    forall k | k in t.streams ensures Kept(t, k) {
      if k == s.members[m].key {
        var i :| 0 <= i < |t.members| && t.members[i].standing == Subscribed && t.members[i].generation == t.streams[k];
        assert MemberServed(s, s.members[i]);
        assert Keeps(t.members[i], k, t.streams[k]);
      } else {
        var i :| 0 <= i < |s.members| && Keeps(s.members[i], k, s.streams[k]);
        assert Keeps(t.members[i], k, t.streams[k]);
      }
    }
  }

  /** The last to leave stops the stream. */
  ghost predicate StopStep(s: State, t: State, key: Key, m: nat) {
    && m < |s.members| && s.members[m].key == key && s.members[m].standing == Leaving
    && key in s.streams && s.streams[key] < |s.tasks| && s.alive
    && t == State(s.streams - {key},
                  s.tasks[s.streams[key] := s.tasks[s.streams[key]].(abortRequested := true)],
                  s.members[m := s.members[m].(standing := Left)],
                  true)
    && !HasReceiver(t.members, s.streams[key])
  }

  lemma StopServes(s: State, t: State, key: Key, m: nat)
    requires MembersServed(s) && StopStep(s, t, key, m)
    ensures MembersServed(t)
  {
    forall i | 0 <= i < |t.members| ensures MemberServed(t, t.members[i]) {
      assert MemberServed(s, s.members[i]);
      assert t.members[i].standing == Subscribed ==> t.members[i].generation != s.streams[key];
    }
  }

  lemma StopKeepsEntries(s: State, t: State, key: Key, m: nat)
    requires EntriesKept(s) && StopStep(s, t, key, m)
    ensures EntriesKept(t)
  {
    forall k | k in t.streams ensures Kept(t, k) {
      var i :| 0 <= i < |s.members| && Keeps(s.members[i], k, s.streams[k]);
      assert Keeps(t.members[i], k, t.streams[k]);
    }
  }

  lemma StopKeeps(s: State, t: State, key: Key, m: nat)
    requires Invariant(s) && StopStep(s, t, key, m)
    ensures Invariant(t)
  {
    hide MembersServed, EntriesKept;
    StopServes(s, t, key, m);
    StopKeepsEntries(s, t, key, m);
  }

  lemma LeaveKeeps(s: State, m: nat)
    requires Invariant(s) && Enabled(s, Leave(m))
    ensures Invariant(ApplyLeave(s, m))
  {
    var key := s.members[m].key;
    var left := s.(members := s.members[m := s.members[m].(standing := Left)]);
    if key in s.streams && !HasReceiver(left.members, s.streams[key]) {
      StopKeeps(s, ApplyLeave(s, m), key, m);
    } else {
      LeaveOthersKeeps(s, left, m);
    }
  }

  /** A step that moves execution `g` on: it may leave the active phases, and then its entry
      goes; its channel may carry more frames; if it becomes done, `Complete` was carried to
      whoever was subscribed. */
  ghost predicate TaskStep(s: State, t: State, g: nat) {
    && g < |s.tasks| == |t.tasks|
    && t == s.(tasks := s.tasks[g := t.tasks[g]],
               streams := if Active(s.tasks[g]) && !Active(t.tasks[g]) then s.streams - {s.tasks[g].key} else s.streams)
    && TaskMoves(s.tasks[g], t.tasks[g], HasReceiver(s.members, g))
  }

  ghost predicate TaskMoves(before: Task, after: Task, heard: bool) {
    && after.key == before.key && after.abortRequested == before.abortRequested
    && before.log <= after.log
    && (Active(after) ==> Active(before))
    && before.phase != Done && TaskSound(after)
    && (after.phase == Done && heard ==> after.log == before.log + [Complete])
  }

  /** The steps an execution takes itself are of that kind. */
  lemma TaskActionIsTaskStep(s: State, a: Action, g: nat)
    requires EntriesAreActive(s) && EmptyOnceDropped(s) && TasksSound(s.tasks) && Enabled(s, a)
    requires (a.Respond? || a.StreamOver? || a.Forget? || a.Finish? || a.TakeAbort?) && a.generation == g
    ensures TaskStep(s, Apply(s, a), g)
  {
    assert TaskSound(s.tasks[g]);
    assert Active(s.tasks[g]) <==> s.tasks[g].key in s.streams && s.streams[s.tasks[g].key] == g;
  }

  lemma TaskStepServes(s: State, t: State, g: nat)
    requires Invariant(s) && TaskStep(s, t, g)
    ensures MembersServed(t)
  {
    forall i | 0 <= i < |t.members| ensures MemberServed(t, t.members[i]) {
      var m := s.members[i];
      assert MemberServed(s, m);
      if m.standing == Subscribed && m.generation == g && t.tasks[g].phase == Done {
        var log := t.tasks[g].log;
        assert HasReceiver(s.members, g);
        assert log[m.joinedAt..][|log| - 1 - m.joinedAt] == Complete;
      }
    }
  }

  lemma TaskStepKeeps(s: State, t: State, g: nat)
    requires Invariant(s) && TaskStep(s, t, g)
    ensures Invariant(t)
  {
    hide MembersServed;
    TaskStepServes(s, t, g);
    forall k | k in t.streams ensures Kept(t, k) {
      var i :| 0 <= i < |s.members| && Keeps(s.members[i], k, s.streams[k]);
      assert Keeps(t.members[i], k, t.streams[k]);
    }
    assert EntriesAreActive(t) by {
      var key := s.tasks[g].key;
      assert forall h | 0 <= h < |t.tasks| && h != g :: t.tasks[h] == s.tasks[h];
      assert Active(s.tasks[g]) <==> key in s.streams && s.streams[key] == g;
    }
  }

  /** Once every member has fully left, no stream remains. */
  lemma AllLeftMeansNoStreams(s: State)
    requires Invariant(s) && forall i | 0 <= i < |s.members| :: s.members[i].standing == Left
    ensures s.streams == map[]
    ensures forall g | 0 <= g < |s.tasks| :: !Active(s.tasks[g])
  {
    if k :| k in s.streams {
      assert false;
    }
  }

  lemma StepKeeps(s: State, a: Action)
    requires Invariant(s) && Enabled(s, a)
    ensures Invariant(Apply(s, a))
  {
    match a
    case Join(key) => JoinKeeps(s, key);
    case DropReceiver(m) => DropReceiverKeeps(s, m);
    case Leave(m) => LeaveKeeps(s, m);
    case DropHub => AllLeftMeansNoStreams(s);
    case Respond(g, _) =>
      TaskActionIsTaskStep(s, a, g);
      TaskStepKeeps(s, Apply(s, a), g);
    case StreamOver(g) =>
      TaskActionIsTaskStep(s, a, g);
      TaskStepKeeps(s, Apply(s, a), g);
    case Forget(g) =>
      TaskActionIsTaskStep(s, a, g);
      TaskStepKeeps(s, Apply(s, a), g);
    case Finish(g) =>
      TaskActionIsTaskStep(s, a, g);
      TaskStepKeeps(s, Apply(s, a), g);
    case TakeAbort(g) =>
      TaskActionIsTaskStep(s, a, g);
      TaskStepKeeps(s, Apply(s, a), g);
  }

  lemma {:induction false} RunKeeps(run: seq<State>, n: nat)
    requires Run(run) && n < |run|
    ensures Invariant(run[n])
  {
    if n > 0 {
      RunKeeps(run, n - 1);
      assert Step(run[n - 1], run[n]);
      var a :| Enabled(run[n - 1], a) && run[n] == Apply(run[n - 1], a);
      StepKeeps(run[n - 1], a);
    }
  }

  // ---------- what every run guarantees

  /** A subscribed member is never stranded: its execution has not been aborted and either has
      its `Complete` still to send, or sent it after the member joined, as the last frame the
      member receives. */
  lemma NoMemberStranded(run: seq<State>, n: nat, i: nat)
    requires Run(run) && n < |run|
    requires i < |run[n].members| && run[n].members[i].standing == Subscribed
    ensures var m := run[n].members[i];
            m.generation < |run[n].tasks| && m.joinedAt <= |run[n].tasks[m.generation].log|
    ensures var m := run[n].members[i];
            var task := run[n].tasks[m.generation];
            && !task.abortRequested && task.phase != Aborted
            && (task.phase == Streaming || task.phase == Ending || task.phase == Forgotten
                || (task.phase == Done && m.joinedAt < |task.log| && task.log[|task.log| - 1] == Complete))
            && (forall j | m.joinedAt <= j < |task.log| - 1 :: task.log[j].Next?)
  {
    RunKeeps(run, n);
    var m := run[n].members[i];
    assert MemberServed(run[n], m);
    assert CompletesOnce(run[n].tasks[m.generation]);
  }

  /** What a step never takes back: executions keep their key, an abort stays requested, and
      what a channel carried stays carried. */
  lemma StepIsMonotone(s: State, t: State, g: nat)
    requires Step(s, t) && g < |s.tasks|
    ensures g < |t.tasks| && t.tasks[g].key == s.tasks[g].key
    ensures s.tasks[g].abortRequested ==> t.tasks[g].abortRequested
    ensures s.tasks[g].log <= t.tasks[g].log
  {
    var a :| Enabled(s, a) && t == Apply(s, a);
  }

  lemma {:induction false} RunIsMonotone(run: seq<State>, n: nat, p: nat, g: nat)
    requires Run(run) && n <= p < |run| && g < |run[n].tasks|
    ensures g < |run[p].tasks| && run[p].tasks[g].key == run[n].tasks[g].key
    ensures run[n].tasks[g].abortRequested ==> run[p].tasks[g].abortRequested
    ensures run[n].tasks[g].log <= run[p].tasks[g].log
  {
    hide Step;
    if n < p {
      RunIsMonotone(run, n, p - 1, g);
      StepIsMonotone(run[p - 1], run[p], g);
    }
  }

  /** Once an abort has been requested of an execution, nobody is subscribed to it, then or at
      any later time, and no later join can reach it. */
  lemma AbortReachesNobody(run: seq<State>, n: nat, p: nat, g: nat)
    requires Run(run) && n <= p < |run|
    requires g < |run[n].tasks| && run[n].tasks[g].abortRequested
    ensures !HasReceiver(run[p].members, g)
    ensures g !in run[p].streams.Values
  {
    RunIsMonotone(run, n, p, g);
    RunKeeps(run, p);
    assert forall i | 0 <= i < |run[p].members| :: MemberServed(run[p], run[p].members[i]);
  }

  /** An entry goes only because nobody is subscribed to its stream, or because that very
      execution ended: an old execution never takes its successor's entry. */
  lemma EntryGoesOnlyWithItsStream(run: seq<State>, n: nat, k: Key)
    requires Run(run) && n + 1 < |run| && k in run[n].streams
    requires k !in run[n + 1].streams || run[n + 1].streams[k] != run[n].streams[k]
    ensures run[n].streams[k] < |run[n + 1].tasks|
    ensures var g := run[n].streams[k];
            || (run[n + 1].tasks[g].abortRequested && !HasReceiver(run[n + 1].members, g))
            || (run[n].tasks[g].phase == Ending && run[n + 1].tasks[g].phase == Forgotten)
  {
    hide Invariant, Apply, Enabled;
    RunKeeps(run, n);
    assert run[n + 1 - 1] == run[n];
    var a :| Enabled(run[n], a) && run[n + 1] == Apply(run[n], a);
    EntryGoesInStep(run[n], a, k);
  }

  lemma EntryGoesInStep(s: State, a: Action, k: Key)
    requires Invariant(s) && Enabled(s, a) && k in s.streams
    requires k !in Apply(s, a).streams || Apply(s, a).streams[k] != s.streams[k]
    ensures var t, g := Apply(s, a), s.streams[k];
            g < |t.tasks| && g < |s.tasks|
            && ((t.tasks[g].abortRequested && !HasReceiver(t.members, g))
                || (s.tasks[g].phase == Ending && t.tasks[g].phase == Forgotten))
  {
    assert Kept(s, k);
  }

  /** Every entry has a live receiver, or a member of its key about to run `leave`; entries are
      the executions still active, one for each key. */
  lemma EntriesAreAccountedFor(run: seq<State>, n: nat, k: Key)
    requires Run(run) && n < |run| && k in run[n].streams
    ensures run[n].streams[k] < |run[n].tasks|
    ensures var g := run[n].streams[k];
            && Active(run[n].tasks[g]) && run[n].tasks[g].key == k
            && (HasReceiver(run[n].members, g)
                || exists i :: && 0 <= i < |run[n].members| && run[n].members[i].key == k
                               && run[n].members[i].standing == Leaving)
    ensures forall h | 0 <= h < |run[n].tasks| ::
              Active(run[n].tasks[h]) && run[n].tasks[h].key == k ==> h == run[n].streams[k]
    ensures forall j | j in run[n].streams && j != k :: run[n].streams[j] != run[n].streams[k]
  {
    RunKeeps(run, n);
    var s := run[n];
    assert Kept(s, k);
    var i :| 0 <= i < |s.members| && Keeps(s.members[i], k, s.streams[k]);
    assert s.members[i].standing == Subscribed || s.members[i].standing == Leaving;
  }

  /** Subscribers of one key whose executions are still active share one execution. */
  lemma SubscribersShareOneExecution(run: seq<State>, n: nat, i: nat, j: nat)
    requires Run(run) && n < |run|
    requires i < |run[n].members| && j < |run[n].members| && run[n].members[i].key == run[n].members[j].key
    requires run[n].members[i].generation < |run[n].tasks| && Active(run[n].tasks[run[n].members[i].generation])
    requires run[n].members[j].generation < |run[n].tasks| && Active(run[n].tasks[run[n].members[j].generation])
    ensures run[n].members[i].generation == run[n].members[j].generation
  {
    RunKeeps(run, n);
    assert MemberServed(run[n], run[n].members[i]) && MemberServed(run[n], run[n].members[j]);
  }

  /** Once every member has fully left, no stream remains and no execution is left running
      that has not been told to stop. */
  lemma NothingOutlivesItsMembers(run: seq<State>, n: nat)
    requires Run(run) && n < |run|
    requires forall i | 0 <= i < |run[n].members| :: run[n].members[i].standing == Left
    ensures run[n].streams == map[]
    ensures forall g | 0 <= g < |run[n].tasks| :: run[n].tasks[g].phase == Streaming ==> run[n].tasks[g].abortRequested
  {
    RunKeeps(run, n);
    AllLeftMeansNoStreams(run[n]);
  }

  // ---------- what members receive

  /** A run with the actions it took. */
  ghost predicate RunOf(run: seq<State>, actions: seq<Action>) {
    && |run| == |actions| + 1
    && run[0] == INITIAL
    && forall i | 0 <= i < |actions| :: Enabled(run[i], actions[i]) && run[i + 1] == Apply(run[i], actions[i])
  }

  lemma RunOfIsRun(run: seq<State>, actions: seq<Action>)
    requires RunOf(run, actions)
    ensures Run(run)
  {
    hide Apply, Enabled;
    forall i | 0 < i < |run|
      ensures Step(run[i - 1], run[i])
    {
      var a := actions[i - 1];
      assert Enabled(run[i - 1], a) && run[i - 1 + 1] == Apply(run[i - 1], a);
    }
  }

  /** What execution `g` had to say in these actions: each response, and that it finished. */
  function Said(actions: seq<Action>, g: nat): seq<Frame> {
    if actions == [] then []
    else Said(actions[..|actions| - 1], g) + SaidIn(actions[|actions| - 1], g)
  }

  function SaidIn(a: Action, g: nat): seq<Frame> {
    match a
    case Respond(generation, json) => if generation == g then [Next(json)] else []
    case Finish(generation) => if generation == g then [Complete] else []
    case _ => []
  }

  /** A step while a member is subscribed: it was before, to the same execution, and receives exactly what
      that execution says in it. */
  lemma StepDelivers(s: State, a: Action, i: nat)
    requires Invariant(s) && Enabled(s, a) && i < |s.members|
    requires i < |Apply(s, a).members| && Apply(s, a).members[i].standing == Subscribed
    ensures var t, m := Apply(s, a), s.members[i];
            && t.members[i] == m
            && m.generation < |s.tasks|
            && m.generation < |t.tasks|
            && m.joinedAt <= |s.tasks[m.generation].log|
            && t.tasks[m.generation].log == s.tasks[m.generation].log + SaidIn(a, m.generation)
            && (t.tasks[m.generation].phase == Done
                <==> s.tasks[m.generation].phase == Done || a == Finish(m.generation))
  {
    hide EntriesAreActive, EntriesKept, TasksSound, EmptyOnceDropped;
    var m := s.members[i];
    assert MemberServed(s, m);
    assert Apply(s, a).members[i] == m;
    assert HasReceiver(s.members, m.generation);
    var log := s.tasks[m.generation].log;
    assert log + [] == log;
  }

  /** Joining: the new member's execution is active and has said nothing to it yet. */
  lemma JoinBegins(s: State, a: Action)
    requires Invariant(s) && Enabled(s, a) && |Apply(s, a).members| == |s.members| + 1
    ensures var t := Apply(s, a);
            var m := t.members[|s.members|];
            && a == Join(m.key)
            && m.generation < |t.tasks|
            && t.tasks[m.generation].key == m.key
            && t.tasks[m.generation].phase != Done
            && m.joinedAt == |t.tasks[m.generation].log|
            && (m.generation < |s.tasks| ==> t.tasks[m.generation].log == s.tasks[m.generation].log)
  {
    assert a.Join?;
    if a.key in s.streams {
      assert Active(s.tasks[s.streams[a.key]]);
    }
  }

  lemma {:induction false} DeliveredSince(run: seq<State>, actions: seq<Action>, n: nat, p: nat, i: nat)
    requires RunOf(run, actions) && n < p < |run|
    requires |run[n].members| == i && |run[n + 1].members| == i + 1
    requires i < |run[p].members| && run[p].members[i].standing == Subscribed
    ensures run[p].members[i] == run[n + 1].members[i]
    ensures var m := run[p].members[i];
            && m.generation < |run[p].tasks|
            && m.joinedAt <= |run[p].tasks[m.generation].log|
            && run[p].tasks[m.generation].log[m.joinedAt..] == Said(actions[n + 1..p], m.generation)
            && (run[p].tasks[m.generation].phase == Done <==> Finish(m.generation) in actions[n + 1..p])
    decreases p
  {
    hide Apply, Enabled, Invariant, INITIAL;
    RunOfIsRun(run, actions);
    RunKeeps(run, n);
    RunKeeps(run, p - 1);
    if p == n + 1 {
      JoinBegins(run[n], actions[n]);
      assert actions[n + 1..p] == [];
    } else {
      var s, a := run[p - 1], actions[p - 1];
      assert run[p - 1 + 1] == Apply(s, a) && Enabled(s, a);
      MembersStay(run, actions, n + 1, p - 1);
      StepDelivers(s, a, i);
      DeliveredSince(run, actions, n, p - 1, i);
      var m, earlier := s.members[i], actions[n + 1..p - 1];
      assert actions[n + 1..p] == earlier + [a];
      assert (earlier + [a])[..|earlier|] == earlier;
      var log := s.tasks[m.generation].log;
      assert (log + SaidIn(a, m.generation))[m.joinedAt..] == log[m.joinedAt..] + SaidIn(a, m.generation);
    }
  }

  lemma StepKeepsMembers(s: State, a: Action)
    requires Enabled(s, a)
    ensures |s.members| <= |Apply(s, a).members| <= |s.members| + 1
  {}

  lemma {:induction false} MembersStay(run: seq<State>, actions: seq<Action>, n: nat, p: nat)
    requires RunOf(run, actions) && n <= p < |run|
    ensures |run[n].members| <= |run[p].members|
  {
    hide Apply, Enabled, INITIAL;
    if n < p {
      MembersStay(run, actions, n, p - 1);
      assert run[p - 1 + 1] == Apply(run[p - 1], actions[p - 1]) && Enabled(run[p - 1], actions[p - 1]);
      StepKeepsMembers(run[p - 1], actions[p - 1]);
    }
  }

  /** The responses among what an execution said. */
  function Responses(actions: seq<Action>, g: nat): seq<string> {
    if actions == [] then []
    else
      var last := actions[|actions| - 1];
      Responses(actions[..|actions| - 1], g) + if last.Respond? && last.generation == g then [last.json] else []
  }

  function Frames(jsons: seq<string>): seq<Frame> {
    seq(|jsons|, i requires 0 <= i < |jsons| => Next(jsons[i]))
  }

  /** Executions respond before they finish, and finish once. */
  lemma {:induction false} SaidInOrder(run: seq<State>, actions: seq<Action>, n: nat, p: nat, g: nat)
    requires RunOf(run, actions) && n <= p < |run| && g < |run[n].tasks| && run[n].tasks[g].phase != Done
    ensures g < |run[p].tasks|
    ensures run[p].tasks[g].phase == Done <==> Finish(g) in actions[n..p]
    ensures Said(actions[n..p], g)
            == Frames(Responses(actions[n..p], g)) + if run[p].tasks[g].phase == Done then [Complete] else []
    decreases p
  {
    hide Apply, Enabled, INITIAL, Said, SaidIn, Responses, Frames;
    if n == p {
      assert actions[n..p] == [];
      NothingSaid(g);
    } else {
      var s, a, earlier := run[p - 1], actions[p - 1], actions[n..p - 1];
      SaidInOrder(run, actions, n, p - 1, g);
      assert run[p - 1 + 1] == Apply(s, a) && Enabled(s, a);
      assert actions[n..p] == earlier + [a];
      FinishingIsLast(s, a, g);
      SaidMore(earlier, a, g, s.tasks[g].phase == Done);
    }
  }

  lemma NothingSaid(g: nat)
    ensures Said([], g) == Frames(Responses([], g)) + []
  {}

  lemma SaidMore(earlier: seq<Action>, a: Action, g: nat, finished: bool)
    requires Said(earlier, g) == Frames(Responses(earlier, g)) + if finished then [Complete] else []
    requires finished ==> SaidIn(a, g) == []
    ensures Said(earlier + [a], g)
            == Frames(Responses(earlier + [a], g)) + if finished || a == Finish(g) then [Complete] else []
  {
    assert (earlier + [a])[..|earlier|] == earlier;
    FramesOfMore(Responses(earlier, g), a, g);
  }

  lemma FinishingIsLast(s: State, a: Action, g: nat)
    requires Enabled(s, a) && g < |s.tasks|
    ensures g < |Apply(s, a).tasks|
    ensures Apply(s, a).tasks[g].phase == Done <==> s.tasks[g].phase == Done || a == Finish(g)
    ensures s.tasks[g].phase == Done ==> SaidIn(a, g) == []
  {}

  lemma FramesOfMore(jsons: seq<string>, a: Action, g: nat)
    ensures var more := if a.Respond? && a.generation == g then [a.json] else [];
            Frames(jsons + more) + (if a == Finish(g) then [Complete] else []) == Frames(jsons) + SaidIn(a, g)
  {}

  /** A member subscribed from its join on has received exactly the responses its execution has sent since,
      once each and in order, and after them `Complete` once the execution has finished. It joined the
      execution of its own key. */
  lemma SubscriberReceivesEveryResponse(run: seq<State>, actions: seq<Action>, n: nat, p: nat, i: nat)
    requires RunOf(run, actions) && n < p < |run|
    requires |run[n].members| == i && |run[n + 1].members| == i + 1
    requires i < |run[p].members| && run[p].members[i].standing == Subscribed
    ensures var m := run[p].members[i];
            && actions[n] == Join(m.key)
            && m.generation < |run[p].tasks|
            && run[p].tasks[m.generation].key == m.key
            && m.joinedAt <= |run[p].tasks[m.generation].log|
            && run[p].tasks[m.generation].log[m.joinedAt..]
               == Frames(Responses(actions[n + 1..p], m.generation))
                  + if Finish(m.generation) in actions[n + 1..p] then [Complete] else []
  {
    hide Apply, Enabled, Invariant, INITIAL, Said, Frames, Responses;
    RunOfIsRun(run, actions);
    RunKeeps(run, n);
    assert run[n + 1] == Apply(run[n], actions[n]) && Enabled(run[n], actions[n]);
    JoinBegins(run[n], actions[n]);
    DeliveredSince(run, actions, n, p, i);
    var m := run[p].members[i];
    SaidInOrder(run, actions, n + 1, p, m.generation);
    RunIsMonotone(run, n + 1, p, m.generation);
  }

  // ---------- the hub itself

  /** The hub, its executions and its members, changed in place step by step. */
  class Hub {
    var streams: map<Key, nat>
    var generations: nat
    var tasks: seq<Task>
    var members: seq<Member>

    ghost predicate Valid()
      reads this
    {
      generations == |tasks| && Invariant(View())
    }

    ghost function View(): State
      reads this
    {
      State(streams, tasks, members, true)
    }

    constructor ()
      ensures Valid() && View() == INITIAL
    {
      streams, generations, tasks, members := map[], 0, [], [];
    }

    method Join(key: Key) returns (member: nat)
      requires Valid()
      modifies this
      ensures Valid() && View() == ApplyJoin(old(View()), key)
      ensures member == |old(members)| && |members| == member + 1
      ensures members[member].key == key && members[member].standing == Subscribed
      ensures key in streams && streams[key] == members[member].generation
    {
      JoinKeeps(View(), key);
      var generation;
      if key in streams {
        generation := streams[key];
      } else {
        generation := generations;
        generations := generations + 1;
        tasks := tasks + [Task(key, Streaming, false, [])];
        streams := streams[key := generation];
      }
      member := |members|;
      members := members + [Member(key, generation, |tasks[generation].log|, Subscribed)];
    }

    /** Whether a stream still has receivers: its count is zero exactly when nobody is subscribed. */
    method ReceiverCount(generation: nat) returns (count: nat)
      ensures count == 0 <==> !HasReceiver(members, generation)
    {
      count := 0;
      for i := 0 to |members|
        invariant count == 0 <==> !HasReceiver(members[..i], generation)
      {
        assert members[..i + 1] == members[..i] + [members[i]];
        if members[i].standing == Subscribed && members[i].generation == generation {
          count := count + 1;
          assert members[..i + 1][i] == members[i];
        }
        assert forall j :: 0 <= j < i ==> members[..i + 1][j] == members[..i][j];
      }
      assert members[..|members|] == members;
    }

    /** A member is dropped: first its receiver, then its place. */
    method DropMember(member: nat)
      requires Valid() && member < |members| && members[member].standing == Subscribed
      modifies this
      ensures Valid()
      ensures View() == ApplyLeave(Apply(old(View()), DropReceiver(member)), member)
      ensures members[member].standing == Left
    {
      DropReceiverKeeps(View(), member);
      members := members[member := members[member].(standing := Leaving)];
      LeaveHub(member);
    }

    method LeaveHub(member: nat)
      requires Valid() && member < |members| && members[member].standing == Leaving
      modifies this
      ensures Valid() && View() == ApplyLeave(old(View()), member)
    {
      LeaveKeeps(View(), member);
      var key := members[member].key;
      members := members[member := members[member].(standing := Left)];
      if key in streams {
        var generation := streams[key];
        var count := ReceiverCount(generation);
        if count == 0 {
          tasks := tasks[generation := tasks[generation].(abortRequested := true)];
          streams := streams - {key};
        }
      }
    }

    /** One turn of an execution's loop: whether it goes on after sending `json`. */
    method Send(generation: nat, json: string) returns (goesOn: bool)
      requires Valid() && generation < |tasks| && tasks[generation].phase == Streaming
      modifies this
      ensures Valid() && View() == ApplyRespond(old(View()), generation, json)
      ensures goesOn <==> HasReceiver(members, generation)
      ensures tasks[generation].phase == if goesOn then Streaming else Ending
      ensures tasks[generation].log
              == if goesOn then old(tasks[generation].log) + [Next(json)] else old(tasks[generation].log)
    {
      hide Invariant, HasReceiver;
      ghost var before := View();
      StepKeeps(before, Respond(generation, json));
      var task := tasks[generation];
      var count := ReceiverCount(generation);
      goesOn := count > 0;
      tasks := tasks[generation := if goesOn then task.(log := task.log + [Next(json)]) else task.(phase := Ending)];
    }

    method Ended(generation: nat)
      requires Valid() && generation < |tasks| && tasks[generation].phase == Ending
      modifies this
      ensures Valid() && View() == ApplyForget(old(View()), generation)
      ensures tasks[generation].key in streams ==> streams[tasks[generation].key] != generation
    {
      StepKeeps(View(), Forget(generation));
      var key := tasks[generation].key;
      if key in streams && streams[key] == generation {
        streams := streams - {key};
      }
      tasks := tasks[generation := tasks[generation].(phase := Forgotten)];
    }

    /** The end of an execution: the hub forgets it, then its members are told. */
    method End(generation: nat)
      requires Valid() && generation < |tasks| && tasks[generation].phase == Ending
      modifies this
      ensures Valid() && View() == ApplyFinish(ApplyForget(old(View()), generation), generation)
    {
      Ended(generation);
      StepKeeps(View(), Finish(generation));
      var task := tasks[generation];
      var count := ReceiverCount(generation);
      tasks := tasks[generation := task.(phase := Done, log := if count > 0 then task.log + [Complete] else task.log)];
    }
  }
}
