/**
 Transactions, `Multi` pipelines and the notifications they hold back.

 `Work` is what runs in a context: writes, dispatched notifications, failures, and the scopes
 that nest. Class `World` holds what outlives a context (the stored rows and what the
 notifiers have been given), and a queue is shared by the contexts of one outermost scope.
 */
module Notifications {
  import opened Sequences
  import opened Wrappers

  type Notifier = nat

  datatype Queued = Queued(notification: string, resourceNotifiers: seq<Notifier>)

  datatype Delivery = Delivery(notifier: Notifier, notification: string)

  datatype Error = Failure(message: string) | MultiFailure(step: string, source: Error)

  datatype Work =
    | Write(row: int)
    | Notify(item: Queued)
    | Fail(error: Error)
    | Both(first: Work, second: Work)
    | Transaction(body: Work)
    | Atomically(body: Work)
    | Multi(steps: seq<Step>)
    | MultiWithoutTransaction(steps: seq<Step>)
    | Ignoring(body: Work)  // whose failure the caller swallows

  datatype Step = Step(name: string, body: Work)

  // ---------- what work comes to

  function Outcome(work: Work): Result<(), Error> {
    match work
    case Fail(error) => Err(error)
    case Both(first, second) => if Outcome(first).Ok? then Outcome(second) else Outcome(first)
    case Transaction(body) => Outcome(body)
    case Atomically(body) => Outcome(body)
    case Multi(steps) => OutcomeOfSteps(steps)
    case MultiWithoutTransaction(steps) => OutcomeOfSteps(steps)
    case _ => Ok(())
  }

  function OutcomeOfSteps(steps: seq<Step>): Result<(), Error> {
    if steps == [] then Ok(())
    else match Outcome(steps[0].body)
         case Ok(_) => OutcomeOfSteps(steps[1..])
         case Err(source) => Err(MultiFailure(steps[0].name, source))
  }

  /** What work queues, in order, when run where there is a queue. A pipeline queues nothing
      there: it has a queue of its own. */
  function Queues(work: Work): seq<Queued> {
    match work
    case Notify(item) => [item]
    case Both(first, second) => if Outcome(first).Ok? then Queues(first) + Queues(second) else Queues(first)
    case Transaction(body) => Queues(body)
    case Atomically(body) => Queues(body)
    case Ignoring(body) => Queues(body)
    case _ => []
  }

  function QueuesOfSteps(steps: seq<Step>): seq<Queued> {
    if steps == [] then []
    else if Outcome(steps[0].body).Ok? then Queues(steps[0].body) + QueuesOfSteps(steps[1..])
    else Queues(steps[0].body)
  }

  /** What the pipelines within work hand to the notifiers themselves, when they are done,
      whatever scope is open around them. */
  function Leaks(work: Work): seq<Queued>
    decreases work, 0
  {
    match work
    case Both(first, second) => if Outcome(first).Ok? then Leaks(first) + Leaks(second) else Leaks(first)
    case Transaction(body) => Leaks(body)
    case Atomically(body) => Leaks(body)
    case Multi(steps) => LeaksOfPipeline(steps)
    case MultiWithoutTransaction(steps) => LeaksOfPipeline(steps)
    case Ignoring(body) => Leaks(body)
    case _ => []
  }

  function LeaksOfSteps(steps: seq<Step>): seq<Queued>
    decreases steps, 0
  {
    if steps == [] then []
    else if Outcome(steps[0].body).Ok? then Leaks(steps[0].body) + LeaksOfSteps(steps[1..])
    else Leaks(steps[0].body)
  }

  function LeaksOfPipeline(steps: seq<Step>): seq<Queued>
    decreases steps, 1
  {
    if OutcomeOfSteps(steps).Ok? then LeaksOfSteps(steps) + QueuesOfSteps(steps) else LeaksOfSteps(steps)
  }

  /** What the notifiers are given, in order, by work run where there is no queue. */
  function Delivers(work: Work, transacts: bool): seq<Queued> {
    match work
    case Notify(item) => [item]
    case Both(first, second) =>
      if Outcome(first).Ok? then Delivers(first, transacts) + Delivers(second, transacts)
      else Delivers(first, transacts)
    case Transaction(body) => DeliversOfScope(body)
    case Atomically(body) => if transacts then DeliversOfScope(body) else Delivers(body, transacts)
    case Ignoring(body) => Delivers(body, transacts)
    case _ => Leaks(work)
  }

  function DeliversOfScope(body: Work): seq<Queued> {
    if Outcome(body).Ok? then Leaks(body) + Queues(body) else Leaks(body)
  }

  /** The rows work leaves stored. A transaction of the data layer that fails leaves none; within
      a queue, `atomically` opens none. */
  function Stores(work: Work, transacts: bool, queued: bool): seq<int> {
    match work
    case Write(row) => [row]
    case Both(first, second) =>
      if Outcome(first).Ok? then Stores(first, transacts, queued) + Stores(second, transacts, queued)
      else Stores(first, transacts, queued)
    case Transaction(body) => Committed(Outcome(body), Stores(body, transacts, true), transacts)
    case Atomically(body) =>
      if queued || !transacts then Stores(body, transacts, queued)
      else Committed(Outcome(body), Stores(body, transacts, true), transacts)
    case Multi(steps) => Committed(OutcomeOfSteps(steps), StoresOfSteps(steps, transacts), transacts)
    case MultiWithoutTransaction(steps) => StoresOfSteps(steps, transacts)
    case Ignoring(body) => Stores(body, transacts, queued)
    case _ => []
  }

  function StoresOfSteps(steps: seq<Step>, transacts: bool): seq<int> {
    if steps == [] then []
    else if Outcome(steps[0].body).Ok?
    then Stores(steps[0].body, transacts, true) + StoresOfSteps(steps[1..], transacts)
    else Stores(steps[0].body, transacts, true)
  }

  function Committed(outcome: Result<(), Error>, rows: seq<int>, transacts: bool): seq<int> {
    if outcome.Ok? || !transacts then rows else []
  }

  // ---------- handing a notification out

  /** A notification goes to the context's notifiers, then to its resource's. */
  function FanOut(notifiers: seq<Notifier>, item: Queued): seq<Delivery> {
    ToEach(notifiers, item.notification) + ToEach(item.resourceNotifiers, item.notification)
  }

  function ToEach(notifiers: seq<Notifier>, notification: string): seq<Delivery> {
    seq(|notifiers|, i requires 0 <= i < |notifiers| => Delivery(notifiers[i], notification))
  }

  function FanOutAll(notifiers: seq<Notifier>, items: seq<Queued>): seq<Delivery> {
    if items == [] then [] else FanOut(notifiers, items[0]) + FanOutAll(notifiers, items[1..])
  }

  lemma {:induction false} FanOutAllConcat(notifiers: seq<Notifier>, a: seq<Queued>, b: seq<Queued>)
    ensures FanOutAll(notifiers, a + b) == FanOutAll(notifiers, a) + FanOutAll(notifiers, b)
  {
    if a == [] {
      assert a + b == b;
    } else {
      assert (a + b)[1..] == a[1..] + b;
      FanOutAllConcat(notifiers, a[1..], b);
    }
  }

  /** An item's deliveries are one to each of the context's notifiers and then one to each of its
      resource's, in the order they are listed. */
  lemma EachNotifierHears(notifiers: seq<Notifier>, item: Queued)
    ensures |FanOut(notifiers, item)| == |notifiers| + |item.resourceNotifiers|
    ensures forall i | 0 <= i < |notifiers| :: FanOut(notifiers, item)[i] == Delivery(notifiers[i], item.notification)
    ensures forall j | 0 <= j < |item.resourceNotifiers| ::
              FanOut(notifiers, item)[|notifiers| + j] == Delivery(item.resourceNotifiers[j], item.notification)
  {}

  /** How often a notifier is to hear a notification: once for each time it is listed, with the context or
      with the item's resource, and each item that carries it. */
  function Listings(notifiers: seq<Notifier>, items: seq<Queued>, notifier: Notifier, notification: string): nat {
    if items == [] then 0
    else (if items[0].notification == notification
          then multiset(notifiers)[notifier] + multiset(items[0].resourceNotifiers)[notifier] else 0)
         + Listings(notifiers, items[1..], notifier, notification)
  }

  /** And so often it does. */
  lemma {:induction false} HeardAsOftenAsListed(notifiers: seq<Notifier>, items: seq<Queued>, notifier: Notifier,
                                                notification: string)
    ensures multiset(FanOutAll(notifiers, items))[Delivery(notifier, notification)]
            == Listings(notifiers, items, notifier, notification)
  {
    hide FanOut;
    if items != [] {
      HeardAsOftenAsListed(notifiers, items[1..], notifier, notification);
      HeardOfOne(notifiers, items[0], notifier, notification);
    }
  }

  /** All hear of an item after the items before it, and before those after it. */
  lemma HeardInOrder(notifiers: seq<Notifier>, before: seq<Queued>, item: Queued, after: seq<Queued>)
    ensures FanOutAll(notifiers, before + [item] + after)
            == FanOutAll(notifiers, before) + FanOut(notifiers, item) + FanOutAll(notifiers, after)
  {
    hide FanOut;
    FanOutAllConcat(notifiers, before + [item], after);
    FanOutAllConcat(notifiers, before, [item]);
    assert FanOutAll(notifiers, [item]) == FanOut(notifiers, item) + [];
  }

  lemma HeardOfOne(notifiers: seq<Notifier>, item: Queued, notifier: Notifier, notification: string)
    ensures multiset(FanOut(notifiers, item))[Delivery(notifier, notification)]
            == if item.notification == notification
               then multiset(notifiers)[notifier] + multiset(item.resourceNotifiers)[notifier] else 0
  {
    hide ToEach;
    HeardAmong(notifiers, item.notification, notifier, notification);
    HeardAmong(item.resourceNotifiers, item.notification, notifier, notification);
  }

  lemma {:induction false} HeardAmong(notifiers: seq<Notifier>, text: string, notifier: Notifier, notification: string)
    ensures multiset(ToEach(notifiers, text))[Delivery(notifier, notification)]
            == if text == notification then multiset(notifiers)[notifier] else 0
  {
    if notifiers == [] {
      assert ToEach(notifiers, text) == [];
    } else {
      HeardAmong(notifiers[1..], text, notifier, notification);
      assert notifiers == [notifiers[0]] + notifiers[1..];
      assert ToEach(notifiers, text) == [Delivery(notifiers[0], text)] + ToEach(notifiers[1..], text);
    }
  }

  // ---------- where running work leaves the world

  /** The rows stored, what the notifiers were given, and what waits in the queue. */
  datatype Snapshot = Snapshot(rows: seq<int>, delivered: seq<Delivery>, waiting: seq<Queued>)

  function Handed(work: Work, transacts: bool, queued: bool): seq<Queued> {
    if queued then Leaks(work) else Delivers(work, transacts)
  }

  /** What is added to the world: rows, what goes to the notifiers, what goes to the queue. */
  datatype Effect = Effect(rows: seq<int>, handed: seq<Queued>, queued: seq<Queued>) {
    function Then(next: Effect): Effect {
      Effect(rows + next.rows, handed + next.handed, queued + next.queued)
    }
  }

  function EffectOf(work: Work, transacts: bool, queued: bool): Effect {
    Effect(Stores(work, transacts, queued), Handed(work, transacts, queued), if queued then Queues(work) else [])
  }

  function EffectOfSteps(steps: seq<Step>, transacts: bool): Effect {
    Effect(StoresOfSteps(steps, transacts), LeaksOfSteps(steps), QueuesOfSteps(steps))
  }

  function Plus(s: Snapshot, e: Effect, notifiers: seq<Notifier>): Snapshot {
    Snapshot(s.rows + e.rows, s.delivered + FanOutAll(notifiers, e.handed), s.waiting + e.queued)
  }

  function After(s: Snapshot, work: Work, transacts: bool, queued: bool, notifiers: seq<Notifier>): Snapshot {
    Plus(s, EffectOf(work, transacts, queued), notifiers)
  }

  lemma PlusTwice(s: Snapshot, a: Effect, b: Effect, notifiers: seq<Notifier>)
    ensures Plus(Plus(s, a, notifiers), b, notifiers) == Plus(s, a.Then(b), notifiers)
  {
    Regroup(s.rows, a.rows, b.rows);
    FanOutAllConcat(notifiers, a.handed, b.handed);
    Regroup(s.delivered, FanOutAll(notifiers, a.handed), FanOutAll(notifiers, b.handed));
    Regroup(s.waiting, a.queued, b.queued);
  }

  lemma EffectOfBoth(first: Work, second: Work, transacts: bool, queued: bool)
    ensures EffectOf(Both(first, second), transacts, queued)
            == if Outcome(first).Ok? then EffectOf(first, transacts, queued).Then(EffectOf(second, transacts, queued))
               else EffectOf(first, transacts, queued)
  {
    var nothing: seq<Queued> := [];
    assert nothing + nothing == nothing;
  }

  lemma AfterBoth(s: Snapshot, first: Work, second: Work, transacts: bool, queued: bool, notifiers: seq<Notifier>)
    ensures After(s, Both(first, second), transacts, queued, notifiers)
            == if Outcome(first).Ok?
               then After(After(s, first, transacts, queued, notifiers), second, transacts, queued, notifiers)
               else After(s, first, transacts, queued, notifiers)
  {
    EffectOfBoth(first, second, transacts, queued);
    PlusTwice(s, EffectOf(first, transacts, queued), EffectOf(second, transacts, queued), notifiers);
  }

  /** Closing a scope that made its own queue: what its body left waiting goes out if it succeeds,
      and its rows stay if it succeeds. */
  function CloseScope(before: Snapshot, inside: Snapshot, outcome: Result<(), Error>, transacts: bool,
                      notifiers: seq<Notifier>): Snapshot {
    Snapshot(if outcome.Ok? || !transacts then inside.rows else before.rows,
             if outcome.Ok? then inside.delivered + FanOutAll(notifiers, inside.waiting) else inside.delivered,
             before.waiting)
  }

  /** What a scope around `body` adds, seen from outside. */
  function ScopeEffect(body: Effect, outcome: Result<(), Error>, transacts: bool): Effect {
    Effect(Committed(outcome, body.rows, transacts), if outcome.Ok? then body.handed + body.queued else body.handed, [])
  }

  lemma PlusScope(s: Snapshot, body: Effect, outcome: Result<(), Error>, transacts: bool, notifiers: seq<Notifier>)
    ensures Plus(s, ScopeEffect(body, outcome, transacts), notifiers)
            == CloseScope(s, Plus(s.(waiting := []), body, notifiers), outcome, transacts, notifiers)
  {
    FanOutAllConcat(notifiers, body.handed, body.queued);
    Regroup(s.delivered, FanOutAll(notifiers, body.handed), FanOutAll(notifiers, body.queued));
    assert [] + body.queued == body.queued;
    assert s.waiting + [] == s.waiting;
    assert s.rows + [] == s.rows;
  }

  lemma AfterScope(s: Snapshot, body: Work, transacts: bool, notifiers: seq<Notifier>)
    ensures After(s, Transaction(body), transacts, false, notifiers)
            == CloseScope(s, After(s.(waiting := []), body, transacts, true, notifiers), Outcome(body), transacts,
                          notifiers)
    ensures transacts ==>
              After(s, Atomically(body), transacts, false, notifiers)
              == After(s, Transaction(body), transacts, false, notifiers)
  {
    PlusScope(s, EffectOf(body, transacts, true), Outcome(body), transacts, notifiers);
    assert EffectOf(Transaction(body), transacts, false)
           == ScopeEffect(EffectOf(body, transacts, true), Outcome(body), transacts);
  }

  /** Within a queue, a transaction's rows go if it fails; what it queued stays queued. */
  lemma AfterInnerTransaction(s: Snapshot, body: Work, transacts: bool, notifiers: seq<Notifier>)
    ensures var inside := After(s, body, transacts, true, notifiers);
            After(s, Transaction(body), transacts, true, notifiers)
            == inside.(rows := if Outcome(body).Ok? || !transacts then inside.rows else s.rows)
  {
    assert s.rows + [] == s.rows;
  }

  function AfterSteps(s: Snapshot, steps: seq<Step>, transacts: bool, notifiers: seq<Notifier>): Snapshot {
    Plus(s, EffectOfSteps(steps, transacts), notifiers)
  }

  lemma AfterFirstStep(s: Snapshot, steps: seq<Step>, transacts: bool, notifiers: seq<Notifier>)
    requires steps != []
    ensures var one := After(s, steps[0].body, transacts, true, notifiers);
            AfterSteps(s, steps, transacts, notifiers)
            == if Outcome(steps[0].body).Ok? then AfterSteps(one, steps[1..], transacts, notifiers) else one
  {
    var one := EffectOf(steps[0].body, transacts, true);
    var rest := EffectOfSteps(steps[1..], transacts);
    assert EffectOfSteps(steps, transacts) == if Outcome(steps[0].body).Ok? then one.Then(rest) else one;
    PlusTwice(s, one, rest, notifiers);
  }

  lemma AfterPipeline(s: Snapshot, steps: seq<Step>, transacts: bool, queued: bool, notifiers: seq<Notifier>)
    ensures var inside := AfterSteps(s.(waiting := []), steps, transacts, notifiers);
            && After(s, Multi(steps), transacts, queued, notifiers)
               == CloseScope(s, inside, OutcomeOfSteps(steps), transacts, notifiers)
            && After(s, MultiWithoutTransaction(steps), transacts, queued, notifiers)
               == CloseScope(s, inside, OutcomeOfSteps(steps), false, notifiers)
  {
    var body := EffectOfSteps(steps, transacts);
    PlusScope(s, body, OutcomeOfSteps(steps), transacts, notifiers);
    PlusScope(s, body, OutcomeOfSteps(steps), false, notifiers);
    assert Leaks(Multi(steps)) == LeaksOfPipeline(steps)
           && Leaks(MultiWithoutTransaction(steps)) == LeaksOfPipeline(steps);
    assert Handed(Multi(steps), transacts, queued) == LeaksOfPipeline(steps);
    assert Handed(MultiWithoutTransaction(steps), transacts, queued) == LeaksOfPipeline(steps);
    assert EffectOf(Multi(steps), transacts, queued) == ScopeEffect(body, OutcomeOfSteps(steps), transacts);
    assert EffectOf(MultiWithoutTransaction(steps), transacts, queued)
           == ScopeEffect(body, OutcomeOfSteps(steps), false);
  }

  class Queue {
    var items: seq<Queued>

    constructor ()
      ensures items == []
    {
      items := [];
    }
  }

  class World {
    const transacts: bool
    var rows: seq<int>
    var delivered: seq<Delivery>

    constructor (transacts: bool)
      ensures this.transacts == transacts && rows == [] && delivered == []
    {
      this.transacts, rows, delivered := transacts, [], [];
    }

    method HandOut(notifiers: seq<Notifier>, item: Queued)
      modifies this`delivered
      ensures delivered == old(delivered) + FanOut(notifiers, item)
    {
      ghost var all := ToEach(notifiers, item.notification);
      for i := 0 to |notifiers|
        invariant delivered == old(delivered) + all[..i]
      {
        delivered := delivered + [Delivery(notifiers[i], item.notification)];
      }
      ghost var rest := ToEach(item.resourceNotifiers, item.notification);
      for i := 0 to |item.resourceNotifiers|
        invariant delivered == old(delivered) + all + rest[..i]
      {
        delivered := delivered + [Delivery(item.resourceNotifiers[i], item.notification)];
      }
    }

    /** Dispatches everything queued, emptying the queue. */
    method Flush(queue: Queue, notifiers: seq<Notifier>)
      modifies this`delivered, queue
      ensures delivered == old(delivered) + FanOutAll(notifiers, old(queue.items))
      ensures queue.items == []
    {
      var queued := queue.items;
      queue.items := [];
      for i := 0 to |queued|
        invariant delivered + FanOutAll(notifiers, queued[i..]) == old(delivered) + FanOutAll(notifiers, queued)
        invariant queue.items == []
      {
        assert queued[i..][1..] == queued[i + 1..];
        ghost var before := delivered;
        HandOut(notifiers, queued[i]);
        assert before + (FanOut(notifiers, queued[i]) + FanOutAll(notifiers, queued[i + 1..]))
            == before + FanOut(notifiers, queued[i]) + FanOutAll(notifiers, queued[i + 1..]);
      }
    }

    method Dispatch(queue: Queue?, notifiers: seq<Notifier>, item: Queued)
      modifies this`delivered, queue
      ensures queue != null ==> queue.items == old(queue.items) + [item] && delivered == old(delivered)
      ensures queue == null ==> delivered == old(delivered) + FanOut(notifiers, item)
    {
      if queue != null {
        queue.items := queue.items + [item];
      } else {
        HandOut(notifiers, item);
      }
    }

    // ---------- running work

    function View(queue: Queue?): Snapshot
      reads this, queue
    {
      Snapshot(rows, delivered, if queue == null then [] else queue.items)
    }

    method Run(queue: Queue?, notifiers: seq<Notifier>, work: Work) returns (r: Result<(), Error>)
      modifies this, queue
      ensures r == Outcome(work) && View(queue) == After(old(View(queue)), work, transacts, queue != null, notifiers)
      decreases work, 2
    {
      ghost var before := View(queue);
      match work
      case Write(row) =>
        rows := rows + [row];
        r := Ok(());
      case Notify(item) =>
        Dispatch(queue, notifiers, item);
        assert FanOutAll(notifiers, [item]) == FanOut(notifiers, item);
        r := Ok(());
      case Fail(error) =>
        r := Err(error);
      case Both(first, second) =>
        r := Run(queue, notifiers, first);
        if r.Ok? {
          r := Run(queue, notifiers, second);
        }
        AfterBoth(before, first, second, transacts, queue != null, notifiers);
      case Transaction(body) =>
        r := RunTransaction(queue, notifiers, body);
      case Atomically(body) =>
        r := RunAtomically(queue, notifiers, body);
      case Multi(steps) =>
        r := Execute(queue, notifiers, steps);
      case MultiWithoutTransaction(steps) =>
        r := ExecuteWithoutTransaction(queue, notifiers, steps);
      case Ignoring(body) =>
        var ignored := Run(queue, notifiers, body);
        r := Ok(());
    }

    /** `Context::transaction`: shares the queue there is, or makes one and flushes or clears it. */
    method RunTransaction(queue: Queue?, notifiers: seq<Notifier>, body: Work) returns (r: Result<(), Error>)
      modifies this, queue
      ensures r == Outcome(body)
      ensures View(queue) == After(old(View(queue)), Transaction(body), transacts, queue != null, notifiers)
      ensures queue == null && notifiers != [] && r.Err? ==> (delivered == old(delivered) <==> Quiet(body))
      decreases body, 3
    {
      ghost var before := View(queue);
      var snapshot := rows;
      var shared: Queue;
      if queue == null {
        shared := new Queue();
        AfterScope(before, body, transacts, notifiers);
      } else {
        shared := queue;
        AfterInnerTransaction(before, body, transacts, notifiers);
      }
      r := Run(shared, notifiers, body);
      if r.Err? && transacts {
        rows := snapshot;
      }
      if queue == null {
        if r.Ok? {
          Flush(shared, notifiers);
        } else {
          shared.items := [];
          if notifiers != [] {
            FailedScopeIsSilentExactlyWhenQuiet(before, body, transacts, notifiers);
          }
        }
      }
    }

    /** `Context::atomically`: within a queue already, runs as it is. */
    method RunAtomically(queue: Queue?, notifiers: seq<Notifier>, body: Work) returns (r: Result<(), Error>)
      modifies this, queue
      ensures r == Outcome(body)
      ensures View(queue) == After(old(View(queue)), Atomically(body), transacts, queue != null, notifiers)
      decreases body, 3
    {
      if queue != null {
        r := Run(queue, notifiers, body);
        return;
      }
      if !transacts {
        r := Run(null, notifiers, body);
        return;
      }
      AfterScope(View(null), body, transacts, notifiers);
      var made := new Queue();
      var snapshot := rows;
      r := Run(made, notifiers, body);
      if r.Ok? {
        Flush(made, notifiers);
      } else {
        rows := snapshot;
        made.items := [];
      }
    }

    /** `Multi::run_pipeline`: every step in order, up to the first that fails. */
    method RunPipeline(queue: Queue, notifiers: seq<Notifier>, steps: seq<Step>) returns (r: Result<(), Error>)
      modifies this, queue
      ensures r == OutcomeOfSteps(steps)
      ensures View(queue) == AfterSteps(old(View(queue)), steps, transacts, notifiers)
      decreases steps, 0
    {
      ghost var final := AfterSteps(View(queue), steps, transacts, notifiers);
      assert steps[0..] == steps;
      for i := 0 to |steps|
        invariant OutcomeOfSteps(steps[i..]) == OutcomeOfSteps(steps)
        invariant AfterSteps(View(queue), steps[i..], transacts, notifiers) == final
      {
        assert steps[i..][1..] == steps[i + 1..] && steps[i..][0] == steps[i];
        AfterFirstStep(View(queue), steps[i..], transacts, notifiers);
        var outcome := Run(queue, notifiers, steps[i].body);
        if outcome.Err? {
          r := Err(MultiFailure(steps[i].name, outcome.error));
          return;
        }
      }
      r := Ok(());
    }

    /** `Multi::execute`: in a transaction, under a queue of its own whatever queue there is. */
    method Execute(queue: Queue?, notifiers: seq<Notifier>, steps: seq<Step>) returns (r: Result<(), Error>)
      modifies this
      ensures r == OutcomeOfSteps(steps)
      ensures View(queue) == After(old(View(queue)), Multi(steps), transacts, queue != null, notifiers)
      decreases steps, 1
    {
      AfterPipeline(View(queue), steps, transacts, queue != null, notifiers);
      var own := new Queue();
      var snapshot := rows;
      r := RunPipeline(own, notifiers, steps);
      if r.Err? {
        if transacts {
          rows := snapshot;
        }
        return;
      }
      Flush(own, notifiers);
    }

    method ExecuteWithoutTransaction(queue: Queue?, notifiers: seq<Notifier>, steps: seq<Step>)
      returns (r: Result<(), Error>)
      modifies this
      ensures r == OutcomeOfSteps(steps)
      ensures View(queue) == After(old(View(queue)), MultiWithoutTransaction(steps), transacts, queue != null,
                                   notifiers)
      decreases steps, 1
    {
      AfterPipeline(View(queue), steps, transacts, queue != null, notifiers);
      var own := new Queue();
      r := RunPipeline(own, notifiers, steps);
      if r.Ok? {
        Flush(own, notifiers);
      }
    }
  }

  // ---------- what scopes guarantee

  /** Every notification in work, in program order. */
  function Notes(work: Work): seq<Queued> {
    match work
    case Notify(item) => [item]
    case Both(first, second) => Notes(first) + Notes(second)
    case Transaction(body) => Notes(body)
    case Atomically(body) => Notes(body)
    case Multi(steps) => NotesOfSteps(steps)
    case MultiWithoutTransaction(steps) => NotesOfSteps(steps)
    case Ignoring(body) => Notes(body)
    case _ => []
  }

  function NotesOfSteps(steps: seq<Step>): seq<Queued> {
    if steps == [] then [] else Notes(steps[0].body) + NotesOfSteps(steps[1..])
  }

  /** Every write in work, in program order. */
  function Writes(work: Work): seq<int> {
    match work
    case Write(row) => [row]
    case Both(first, second) => Writes(first) + Writes(second)
    case Transaction(body) => Writes(body)
    case Atomically(body) => Writes(body)
    case Multi(steps) => WritesOfSteps(steps)
    case MultiWithoutTransaction(steps) => WritesOfSteps(steps)
    case Ignoring(body) => Writes(body)
    case _ => []
  }

  function WritesOfSteps(steps: seq<Step>): seq<int> {
    if steps == [] then [] else Writes(steps[0].body) + WritesOfSteps(steps[1..])
  }

  /** Errors propagate: nobody swallows a failure. */
  predicate Propagates(work: Work) {
    match work
    case Both(first, second) => Propagates(first) && Propagates(second)
    case Transaction(body) => Propagates(body)
    case Atomically(body) => Propagates(body)
    case Multi(steps) => forall i | 0 <= i < |steps| :: Propagates(steps[i].body)
    case MultiWithoutTransaction(steps) => forall i | 0 <= i < |steps| :: Propagates(steps[i].body)
    case Ignoring(_) => false
    case _ => true
  }

  /** No pipeline is nested in the work. */
  predicate NoPipelines(work: Work) {
    match work
    case Both(first, second) => NoPipelines(first) && NoPipelines(second)
    case Transaction(body) => NoPipelines(body)
    case Atomically(body) => NoPipelines(body)
    case Ignoring(body) => NoPipelines(body)
    case Multi(_) => false
    case MultiWithoutTransaction(_) => false
    case _ => true
  }

  lemma {:induction false} SuccessStoresEverything(work: Work, transacts: bool, queued: bool)
    requires Outcome(work).Ok? && Propagates(work)
    ensures Stores(work, transacts, queued) == Writes(work)
    decreases work, 1
  {
    match work
    case Both(first, second) =>
      SuccessStoresEverything(first, transacts, queued);
      SuccessStoresEverything(second, transacts, queued);
    case Transaction(body) => SuccessStoresEverything(body, transacts, true);
    case Atomically(body) =>
      SuccessStoresEverything(body, transacts, true);
      SuccessStoresEverything(body, transacts, queued);
    case Multi(steps) => SuccessfulStepsStoreEverything(steps, transacts);
    case MultiWithoutTransaction(steps) => SuccessfulStepsStoreEverything(steps, transacts);
    case _ =>
  }

  lemma {:induction false} SuccessfulStepsStoreEverything(steps: seq<Step>, transacts: bool)
    requires OutcomeOfSteps(steps).Ok? && forall i | 0 <= i < |steps| :: Propagates(steps[i].body)
    ensures StoresOfSteps(steps, transacts) == WritesOfSteps(steps)
    decreases steps, 0
  {
    if steps != [] {
      SuccessStoresEverything(steps[0].body, transacts, true);
      SuccessfulStepsStoreEverything(steps[1..], transacts);
    }
  }

  // ---------- pipelines within scopes

  /** No pipeline that the work reaches finishes with anything to send. */
  predicate Quiet(work: Work)
    decreases work, 1
  {
    match work
    case Both(first, second) => Quiet(first) && (Outcome(first).Ok? ==> Quiet(second))
    case Transaction(body) => Quiet(body)
    case Atomically(body) => Quiet(body)
    case Ignoring(body) => Quiet(body)
    case Multi(steps) => QuietSteps(steps) && (OutcomeOfSteps(steps).Ok? ==> QueuesOfSteps(steps) == [])
    case MultiWithoutTransaction(steps) =>
      QuietSteps(steps) && (OutcomeOfSteps(steps).Ok? ==> QueuesOfSteps(steps) == [])
    case _ => true
  }

  predicate QuietSteps(steps: seq<Step>)
    decreases steps, 0
  {
    steps == [] || (Quiet(steps[0].body) && (Outcome(steps[0].body).Ok? ==> QuietSteps(steps[1..])))
  }

  lemma {:induction false} QuietMeansNoLeaks(work: Work)
    ensures Quiet(work) <==> Leaks(work) == []
    decreases work, 1
  {
    match work
    case Both(first, second) =>
      QuietMeansNoLeaks(first);
      QuietMeansNoLeaks(second);
    case Transaction(body) => QuietMeansNoLeaks(body);
    case Atomically(body) => QuietMeansNoLeaks(body);
    case Ignoring(body) => QuietMeansNoLeaks(body);
    case Multi(steps) =>
      QuietStepsMeansNoLeaks(steps);
      assert Leaks(work) == LeaksOfPipeline(steps);
    case MultiWithoutTransaction(steps) =>
      QuietStepsMeansNoLeaks(steps);
      assert Leaks(work) == LeaksOfPipeline(steps);
    case _ =>
  }

  lemma {:induction false} QuietStepsMeansNoLeaks(steps: seq<Step>)
    ensures QuietSteps(steps) <==> LeaksOfSteps(steps) == []
    decreases steps, 0
  {
    if steps != [] {
      QuietMeansNoLeaks(steps[0].body);
      QuietStepsMeansNoLeaks(steps[1..]);
    }
  }

  lemma {:induction false} SomeoneHears(notifiers: seq<Notifier>, items: seq<Queued>)
    requires notifiers != []
    ensures FanOutAll(notifiers, items) == [] <==> items == []
  {
    if items != [] {
      assert FanOut(notifiers, items[0])[0] == Delivery(notifiers[0], items[0].notification);
    }
  }

  /** Run where there is no queue, a transaction that fails leaves the notifiers as they were exactly
      when no pipeline it reached had finished with something to send: what waits in the queue is
      dropped, but a pipeline sends as it finishes, not as the scope around it commits. */
  lemma FailedScopeIsSilentExactlyWhenQuiet(s: Snapshot, body: Work, transacts: bool, notifiers: seq<Notifier>)
    requires Outcome(body).Err? && notifiers != []
    ensures var after := After(s, Transaction(body), transacts, false, notifiers);
            && (after.delivered == s.delivered <==> Quiet(body))
            && after.waiting == s.waiting
            && (transacts ==> after.rows == s.rows)
  {
    QuietMeansNoLeaks(body);
    SomeoneHears(notifiers, Leaks(body));
    var after := After(s, Transaction(body), transacts, false, notifiers);
    assert after.delivered == s.delivered + FanOutAll(notifiers, Leaks(body));
    assert |after.delivered| == |s.delivered| + |FanOutAll(notifiers, Leaks(body))|;
  }

  lemma WriteAndNotify(row: int, item: Queued)
    ensures var noted := Both(Write(row), Notify(item));
            Outcome(noted).Ok? && Queues(noted) == [item] && Leaks(noted) == []
  {
    assert Queues(Write(row)) == [] && Leaks(Write(row)) == [] && Leaks(Notify(item)) == [];
  }

  /** So a pipeline in a transaction that then fails has already notified of a write that is
      rolled back. */
  lemma PipelineNotifiesBeforeItsScopeCommits(item: Queued, row: int, error: Error)
    ensures var body := Both(Multi([Step("step", Both(Write(row), Notify(item)))]), Fail(error));
            && Outcome(body) == Err(error)
            && Stores(Transaction(body), true, false) == []
            && Delivers(Transaction(body), true) == [item]
  {
    var noted := Both(Write(row), Notify(item));
    WriteAndNotify(row, item);
    var steps := [Step("step", noted)];
    assert steps[0].body == noted && steps[1..] == [] && OutcomeOfSteps(steps[1..]).Ok?;
    assert LeaksOfSteps(steps) == Leaks(noted) + LeaksOfSteps(steps[1..]);
    assert QueuesOfSteps(steps) == Queues(noted) + QueuesOfSteps(steps[1..]);
    assert Leaks(Multi(steps)) == LeaksOfPipeline(steps) == [item];
    assert Leaks(Both(Multi(steps), Fail(error))) == Leaks(Multi(steps)) + Leaks(Fail(error));
  }

  /** And a failure swallowed within a scope leaves what it queued: the notifiers hear of a write
      that was rolled back. */
  lemma SwallowedFailureStillNotifies(item: Queued, row: int, error: Error)
    ensures var body := Ignoring(Transaction(Both(Both(Write(row), Notify(item)), Fail(error))));
            && Outcome(body).Ok?
            && Stores(Transaction(body), true, false) == []
            && Delivers(Transaction(body), true) == [item]
  {
    var inner := Both(Both(Write(row), Notify(item)), Fail(error));
    WriteAndNotify(row, item);
    assert Leaks(inner) == Leaks(Both(Write(row), Notify(item))) + Leaks(Fail(error));
    assert Queues(inner) == Queues(Both(Write(row), Notify(item))) + Queues(Fail(error));
    assert Leaks(Transaction(inner)) == [] && Queues(Transaction(inner)) == [item];
    assert Outcome(inner) == Err(error);
    assert Stores(Transaction(inner), true, true) == Committed(Outcome(inner), Stores(inner, true, true), true) == [];
  }

  // ---------- swallowed failures

  /** What work queues, without what inner transactions that failed had queued. */
  function Kept(work: Work): seq<Queued> {
    match work
    case Notify(item) => [item]
    case Both(first, second) => if Outcome(first).Ok? then Kept(first) + Kept(second) else Kept(first)
    case Transaction(body) => if Outcome(body).Ok? then Kept(body) else []
    case Atomically(body) => Kept(body)
    case Ignoring(body) => Kept(body)
    case _ => []
  }

  /** No inner transaction that the work reaches fails with something queued. */
  predicate NoOrphans(work: Work) {
    match work
    case Both(first, second) => NoOrphans(first) && (Outcome(first).Ok? ==> NoOrphans(second))
    case Transaction(body) => if Outcome(body).Ok? then NoOrphans(body) else Queues(body) == []
    case Atomically(body) => NoOrphans(body)
    case Ignoring(body) => NoOrphans(body)
    case _ => true
  }

  lemma {:induction false} KeptIsQueuedWithoutOrphans(work: Work)
    ensures |Kept(work)| <= |Queues(work)|
    ensures Kept(work) == Queues(work) <==> |Kept(work)| == |Queues(work)|
    ensures Kept(work) == Queues(work) <==> NoOrphans(work)
    decreases work
  {
    match work
    case Both(first, second) =>
      KeptIsQueuedWithoutOrphans(first);
      KeptIsQueuedWithoutOrphans(second);
    case Transaction(body) => KeptIsQueuedWithoutOrphans(body);
    case Atomically(body) => KeptIsQueuedWithoutOrphans(body);
    case Ignoring(body) => KeptIsQueuedWithoutOrphans(body);
    case _ =>
  }

  /** Work whose every write is announced: it notifies of the row it has just written, and of no
      other. */
  predicate Announces(work: Work, rowOf: Queued -> int) {
    match work
    case Both(first, second) =>
      || (first.Write? && second.Notify? && first.row == rowOf(second.item))
      || (Announces(first, rowOf) && Announces(second, rowOf))
    case Fail(_) => true
    case Transaction(body) => Announces(body, rowOf)
    case Atomically(body) => Announces(body, rowOf)
    case Ignoring(body) => Announces(body, rowOf)
    case _ => false
  }

  function RowsOf(items: seq<Queued>, rowOf: Queued -> int): seq<int> {
    seq(|items|, i requires 0 <= i < |items| => rowOf(items[i]))
  }

  /** What is kept is what was notified of the rows that stay stored. */
  lemma {:induction false} StoredAreTheKept(work: Work, rowOf: Queued -> int)
    requires Announces(work, rowOf)
    ensures Stores(work, true, true) == RowsOf(Kept(work), rowOf) && Leaks(work) == []
    decreases work
  {
    match work
    case Both(first, second) =>
      if first.Write? && second.Notify? {
        AnnouncedRow(first.row, second.item, rowOf);
      } else {
        StoredAreTheKept(first, rowOf);
        StoredAreTheKept(second, rowOf);
        RowsOfBoth(Kept(first), Kept(second), rowOf);
      }
    case Transaction(body) => StoredAreTheKept(body, rowOf);
    case Atomically(body) => StoredAreTheKept(body, rowOf);
    case Ignoring(body) => StoredAreTheKept(body, rowOf);
    case _ =>
  }

  lemma AnnouncedRow(row: int, item: Queued, rowOf: Queued -> int)
    requires row == rowOf(item)
    ensures var noted := Both(Write(row), Notify(item));
            Stores(noted, true, true) == RowsOf(Kept(noted), rowOf) && Leaks(noted) == []
  {
    WriteAndNotify(row, item);
    assert Stores(Write(row), true, true) == [row] && Stores(Notify(item), true, true) == [];
    assert Kept(Write(row)) == [] && Kept(Notify(item)) == [item];
  }

  lemma RowsOfBoth(a: seq<Queued>, b: seq<Queued>, rowOf: Queued -> int)
    ensures RowsOf(a + b, rowOf) == RowsOf(a, rowOf) + RowsOf(b, rowOf)
  {}

  /** A transaction whose work announces its writes notifies of exactly the rows it leaves stored, in
      order, if and only if it fails, or no inner transaction it reached failed with something queued. */
  lemma NotifiesOfWhatIsStoredWithoutOrphans(body: Work, rowOf: Queued -> int)
    requires Announces(body, rowOf)
    ensures Stores(Transaction(body), true, false) == RowsOf(Delivers(Transaction(body), true), rowOf)
            <==> (Outcome(body).Ok? ==> NoOrphans(body))
  {
    StoredAreTheKept(body, rowOf);
    KeptIsQueuedWithoutOrphans(body);
    assert [] + Queues(body) == Queues(body);
    assert |RowsOf(Kept(body), rowOf)| == |Kept(body)| && |RowsOf(Queues(body), rowOf)| == |Queues(body)|;
  }

  lemma {:induction false} SuccessSendsEverything(work: Work)
    requires Outcome(work).Ok? && Propagates(work)
    ensures multiset(Leaks(work)) + multiset(Queues(work)) == multiset(Notes(work))
    decreases work, 1
  {
    match work
    case Both(first, second) =>
      SuccessSendsEverything(first);
      SuccessSendsEverything(second);
    case Transaction(body) => SuccessSendsEverything(body);
    case Atomically(body) => SuccessSendsEverything(body);
    case Multi(steps) =>
      SuccessfulStepsSendEverything(steps);
      assert Leaks(work) == LeaksOfPipeline(steps);
    case MultiWithoutTransaction(steps) =>
      SuccessfulStepsSendEverything(steps);
      assert Leaks(work) == LeaksOfPipeline(steps);
    case _ =>
  }

  lemma {:induction false} SuccessfulStepsSendEverything(steps: seq<Step>)
    requires OutcomeOfSteps(steps).Ok? && forall i | 0 <= i < |steps| :: Propagates(steps[i].body)
    ensures multiset(LeaksOfSteps(steps)) + multiset(QueuesOfSteps(steps)) == multiset(NotesOfSteps(steps))
    decreases steps, 0
  {
    if steps != [] {
      SuccessSendsEverything(steps[0].body);
      SuccessfulStepsSendEverything(steps[1..]);
    }
  }

  // ---------- in which order

  /** A pipeline does not overtake what was queued before it: of any two parts in a row, the first
      queued nothing or the second sends nothing of its own. */
  predicate InOrder(work: Work)
    decreases work, 1
  {
    match work
    case Both(first, second) => InOrder(first) && InOrder(second) && (Queues(first) == [] || Leaks(second) == [])
    case Transaction(body) => InOrder(body)
    case Atomically(body) => InOrder(body)
    case Ignoring(body) => InOrder(body)
    case Multi(steps) => InOrderSteps(steps)
    case MultiWithoutTransaction(steps) => InOrderSteps(steps)
    case _ => true
  }

  predicate InOrderSteps(steps: seq<Step>)
    decreases steps, 0
  {
    || steps == []
    || (&& InOrder(steps[0].body)
        && InOrderSteps(steps[1..])
        && (Queues(steps[0].body) == [] || LeaksOfSteps(steps[1..]) == []))
  }

  /** No two of them are the same. */
  predicate Distinct(items: seq<Queued>) {
    forall i, j | 0 <= i < j < |items| :: items[i] != items[j]
  }

  lemma DistinctParts(a: seq<Queued>, b: seq<Queued>)
    requires Distinct(a + b)
    ensures Distinct(a) && Distinct(b) && forall x | x in a :: x !in b
  {
    var all := a + b;
    forall i, j | 0 <= i < j < |b| ensures b[i] != b[j] {
      assert all[|a| + i] == b[i] && all[|a| + j] == b[j];
    }
    forall x | x in a ensures x !in b {
      var i :| 0 <= i < |a| && a[i] == x;
      forall j | 0 <= j < |b| ensures b[j] != x {
        assert all[i] == x && all[|a| + j] == b[j];
      }
    }
    forall i, j | 0 <= i < j < |a| ensures a[i] != a[j] {
      assert all[i] == a[i] && all[j] == a[j];
    }
  }

  /** What one part after another sends. */
  function Sends(leaked: seq<Queued>, next: seq<Queued>, queued: seq<Queued>, last: seq<Queued>): seq<Queued> {
    (leaked + next) + (queued + last)
  }

  lemma SendsInOrder(leaked: seq<Queued>, next: seq<Queued>, queued: seq<Queued>, last: seq<Queued>)
    requires queued == [] || next == []
    ensures Sends(leaked, next, queued, last) == (leaked + queued) + (next + last)
  {
    if queued == [] {
      assert leaked + queued == leaked && queued + last == last;
    } else {
      assert leaked + next == leaked && next + last == last;
    }
    Regroup(leaked, next, last);
    Regroup(leaked, queued, last);
  }

  lemma SendsInOrderOnlyIf(leaked: seq<Queued>, next: seq<Queued>, queued: seq<Queued>, last: seq<Queued>,
                           notes: seq<Queued>, rest: seq<Queued>)
    requires Sends(leaked, next, queued, last) == notes + rest && Distinct(notes + rest)
    requires multiset(leaked) + multiset(queued) == multiset(notes)
    requires multiset(next) + multiset(last) == multiset(rest)
    ensures queued == [] || next == []
    ensures leaked + queued == notes && next + last == rest
  {
    assert |notes| == |multiset(notes)| == |leaked| + |queued|;
    var sent := Sends(leaked, next, queued, last);
    if queued != [] && next != [] {
      assert next[0] == sent[|leaked|] == (notes + rest)[|leaked|] == notes[|leaked|];
      assert next[0] in multiset(next) && next[0] in multiset(rest) && next[0] in rest;
      DistinctParts(notes, rest);
      assert false;
    } else {
      SendsInOrder(leaked, next, queued, last);
      var first, second := leaked + queued, next + last;
      assert notes == (notes + rest)[..|notes|] == (first + second)[..|notes|] == first;
      assert rest == (notes + rest)[|notes|..] == (first + second)[|notes|..] == second;
    }
  }

  /** Work that succeeds sends what it leaked and then what it queued. These are its notifications in
      program order if nothing overtakes; and if no two notifications are the same, only then. */
  lemma {:induction false} SendsInProgramOrderExactlyWhenInOrder(work: Work)
    requires Outcome(work).Ok? && Propagates(work)
    ensures InOrder(work) ==> Leaks(work) + Queues(work) == Notes(work)
    ensures Distinct(Notes(work)) ==> (Leaks(work) + Queues(work) == Notes(work) <==> InOrder(work))
    decreases work, 1
  {
    match work
    case Both(first, second) =>
      SendsInProgramOrderExactlyWhenInOrder(first);
      SendsInProgramOrderExactlyWhenInOrder(second);
      SuccessSendsEverything(first);
      SuccessSendsEverything(second);
      PartsInOrder(Leaks(first), Leaks(second), Queues(first), Queues(second), Notes(first), Notes(second),
                   InOrder(first), InOrder(second));
    case Transaction(body) => SendsInProgramOrderExactlyWhenInOrder(body);
    case Atomically(body) => SendsInProgramOrderExactlyWhenInOrder(body);
    case Multi(steps) =>
      StepsSendInProgramOrderExactlyWhenInOrder(steps);
      assert Leaks(work) + [] == LeaksOfPipeline(steps);
    case MultiWithoutTransaction(steps) =>
      StepsSendInProgramOrderExactlyWhenInOrder(steps);
      assert Leaks(work) + [] == LeaksOfPipeline(steps);
    case _ =>
  }

  lemma {:induction false} StepsSendInProgramOrderExactlyWhenInOrder(steps: seq<Step>)
    requires OutcomeOfSteps(steps).Ok? && forall i | 0 <= i < |steps| :: Propagates(steps[i].body)
    ensures InOrderSteps(steps) ==> LeaksOfPipeline(steps) == NotesOfSteps(steps)
    ensures Distinct(NotesOfSteps(steps)) ==> (LeaksOfPipeline(steps) == NotesOfSteps(steps) <==> InOrderSteps(steps))
    decreases steps, 0
  {
    if steps != [] {
      var first, rest := steps[0].body, steps[1..];
      SendsInProgramOrderExactlyWhenInOrder(first);
      StepsSendInProgramOrderExactlyWhenInOrder(rest);
      SuccessSendsEverything(first);
      SuccessfulStepsSendEverything(rest);
      PartsInOrder(Leaks(first), LeaksOfSteps(rest), Queues(first), QueuesOfSteps(rest), Notes(first),
                   NotesOfSteps(rest), InOrder(first), InOrderSteps(rest));
    }
  }

  /** Two parts, of which it is known where each sends in order. */
  lemma {:induction false} PartsInOrder(leaked: seq<Queued>, next: seq<Queued>, queued: seq<Queued>, last: seq<Queued>,
                     notes: seq<Queued>, rest: seq<Queued>, firstInOrder: bool, secondInOrder: bool)
    requires multiset(leaked) + multiset(queued) == multiset(notes)
    requires multiset(next) + multiset(last) == multiset(rest)
    requires firstInOrder ==> leaked + queued == notes
    requires Distinct(notes) ==> (leaked + queued == notes <==> firstInOrder)
    requires secondInOrder ==> next + last == rest
    requires Distinct(rest) ==> (next + last == rest <==> secondInOrder)
    ensures var inOrder := firstInOrder && secondInOrder && (queued == [] || next == []);
            && (inOrder ==> Sends(leaked, next, queued, last) == notes + rest)
            && (Distinct(notes + rest) ==> (Sends(leaked, next, queued, last) == notes + rest <==> inOrder))
  {
    if queued == [] || next == [] {
      SendsInOrder(leaked, next, queued, last);
    }
    if Distinct(notes + rest) {
      DistinctParts(notes, rest);
      if Sends(leaked, next, queued, last) == notes + rest {
        SendsInOrderOnlyIf(leaked, next, queued, last, notes, rest);
      }
    }
  }

  /** Without pipelines nothing overtakes and nothing is sent early. */
  lemma {:induction false} WithoutPipelines(work: Work)
    requires NoPipelines(work)
    ensures Leaks(work) == [] && Quiet(work) && InOrder(work)
  {
    match work
    case Both(first, second) =>
      WithoutPipelines(first);
      WithoutPipelines(second);
    case Transaction(body) => WithoutPipelines(body);
    case Atomically(body) => WithoutPipelines(body);
    case Ignoring(body) => WithoutPipelines(body);
    case _ =>
  }

  lemma {:induction false} WithoutPipelinesInSteps(steps: seq<Step>)
    requires forall i | 0 <= i < |steps| :: NoPipelines(steps[i].body)
    ensures LeaksOfSteps(steps) == [] && QuietSteps(steps) && InOrderSteps(steps)
  {
    if steps != [] {
      WithoutPipelines(steps[0].body);
      WithoutPipelinesInSteps(steps[1..]);
    }
  }

  /** Whatever pipelines it holds, a transaction that succeeds has given the notifiers every
      notification exactly once, and in program order if nothing overtakes and, where no two are the
      same, only then. */
  lemma {:induction false} SuccessfulScopeNotifiesOfEachOnce(body: Work)
    requires Outcome(body).Ok? && Propagates(body)
    ensures multiset(Delivers(Transaction(body), true)) == multiset(Notes(body))
    ensures InOrder(body) ==> Delivers(Transaction(body), true) == Notes(body)
    ensures Distinct(Notes(body)) ==> (Delivers(Transaction(body), true) == Notes(body) <==> InOrder(body))
  {
    SuccessSendsEverything(body);
    SendsInProgramOrderExactlyWhenInOrder(body);
  }

  /** An outermost transaction, whatever nest of scopes it holds. Every write stays if it succeeds
      and none if it fails. The notifiers are given every notification once, in program order, if it
      succeeds with nothing overtaking, and nothing if it fails with nothing sent early; and, if no
      two notifications are the same, only then. With no pipeline in it that is always. */
  lemma {:induction false} OutermostScopeIsAllOrNothing(body: Work)
    requires Propagates(body)
    ensures Stores(Transaction(body), true, false) == if Outcome(body).Ok? then Writes(body) else []
    ensures var owed := if Outcome(body).Ok? then Notes(body) else [];
            var kept := if Outcome(body).Ok? then InOrder(body) else Quiet(body);
            && (kept ==> Delivers(Transaction(body), true) == owed)
            && (Distinct(owed) ==> (Delivers(Transaction(body), true) == owed <==> kept))
            && (NoPipelines(body) ==> kept)
    ensures Delivers(Atomically(body), true) == Delivers(Transaction(body), true)
    ensures Stores(Atomically(body), true, false) == Stores(Transaction(body), true, false)
  {
    QuietMeansNoLeaks(body);
    if NoPipelines(body) {
      WithoutPipelines(body);
    }
    if Outcome(body).Ok? {
      SuccessStoresEverything(body, true, true);
      SuccessfulScopeNotifiesOfEachOnce(body);
    }
  }

  /** The same of an outermost pipeline. */
  lemma {:induction false} OutermostPipelineIsAllOrNothing(steps: seq<Step>)
    requires forall i | 0 <= i < |steps| :: Propagates(steps[i].body)
    ensures Stores(Multi(steps), true, false) == if OutcomeOfSteps(steps).Ok? then WritesOfSteps(steps) else []
    ensures var owed := if OutcomeOfSteps(steps).Ok? then NotesOfSteps(steps) else [];
            var kept := if OutcomeOfSteps(steps).Ok? then InOrderSteps(steps) else QuietSteps(steps);
            && (kept ==> Delivers(Multi(steps), true) == owed)
            && (Distinct(owed) ==> (Delivers(Multi(steps), true) == owed <==> kept))
            && ((forall i | 0 <= i < |steps| :: NoPipelines(steps[i].body)) ==> kept)
  {
    QuietStepsMeansNoLeaks(steps);
    assert Delivers(Multi(steps), true) == Leaks(Multi(steps)) == LeaksOfPipeline(steps);
    if forall i | 0 <= i < |steps| :: NoPipelines(steps[i].body) {
      WithoutPipelinesInSteps(steps);
    }
    if OutcomeOfSteps(steps).Ok? {
      SuccessfulStepsStoreEverything(steps, true);
      StepsSendInProgramOrderExactlyWhenInOrder(steps);
    }
  }

  /** A pipeline overtakes: what it notifies of is heard before what was queued before it. */
  lemma {:induction false} PipelineOvertakes(earlier: Queued, later: Queued)
    ensures var body := Both(Notify(earlier), Multi([Step("step", Notify(later))]));
            && Outcome(body).Ok?
            && Notes(body) == [earlier, later]
            && Delivers(Transaction(body), true) == [later, earlier]
  {
    var steps := [Step("step", Notify(later))];
    var first, second := Notify(earlier), Multi(steps);
    assert steps[1..] == [] && OutcomeOfSteps(steps).Ok?;
    assert QueuesOfSteps(steps) == [later] && LeaksOfSteps(steps) == [] && NotesOfSteps(steps) == [later];
    assert Leaks(second) == LeaksOfPipeline(steps) == [] + [later];
    assert Queues(second) == [] && Leaks(first) == [];
    assert Leaks(Both(first, second)) == Leaks(first) + Leaks(second);
    assert Queues(Both(first, second)) == Queues(first) + Queues(second);
    assert Notes(Both(first, second)) == Notes(first) + Notes(second);
  }

  // ---------- which step failed

  /** A pipeline's failure names its first failing step and carries that step's error, and nothing
      is left by any step after it. */
  lemma {:induction false} FailureNamesTheFirstFailingStep(steps: seq<Step>, transacts: bool) returns (k: nat)
    requires OutcomeOfSteps(steps).Err?
    ensures k < |steps| && OutcomeOfSteps(steps).error.MultiFailure?
    ensures OutcomeOfSteps(steps).error.step == steps[k].name
    ensures Outcome(steps[k].body) == Err(OutcomeOfSteps(steps).error.source)
    ensures forall j | 0 <= j < k :: Outcome(steps[j].body).Ok?
    ensures EffectOfSteps(steps, transacts) == EffectOfSteps(steps[..k + 1], transacts)
  {
    if Outcome(steps[0].body).Err? {
      k := 0;
      assert steps[..1] == [steps[0]];
    } else {
      var rest := FailureNamesTheFirstFailingStep(steps[1..], transacts);
      k := rest + 1;
      assert steps[..k + 1][0] == steps[0] && steps[..k + 1][1..] == steps[1..][..rest + 1];
    }
  }
}
