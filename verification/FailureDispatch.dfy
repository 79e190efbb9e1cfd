// How an Instance ends broadcasts: application threads calling startBroadcast and endBroadcast,
// and the serial task queue that failures are posted to. All of them work on `broadcast` under
// broadcastMutex; the failure task takes the mutex twice, once to check and once to end.
module FailureDispatch {
  import opened Common

  type Id = nat

  // Who holds the mutex inside endBroadcast, and on which broadcast stop() was called.
  datatype Mutex = Free | Ending(byWorker: bool, id: Id)

  // The queue's worker: between tasks, before the check of task `task`, between the two
  // critical sections, inside the second one, and before the user's callback.
  datatype Worker =
    | Idle | Checking(task: Id) | Passed(task: Id) | InEnd(task: Id) | Calling(task: Id)

  // Ids are handed out in order, like the unique client ids; `created` of them exist.
  // `stops`, `joins` and `callbacks` count, per broadcast, the calls of stop(), its returns, and
  // the runs of the user's failed callback.
  datatype World = World(
    broadcast: Option<Id>, mutex: Mutex, worker: Worker, queue: seq<Id>, created: nat,
    stops: map<Id, nat>, joins: map<Id, nat>, callbacks: map<Id, nat>)

  const INITIAL := World(None, Free, Idle, [], 0, map[], map[], map[])

  datatype Step =
    // application threads
    | StartBroadcast
    | EndBroadcast
    // inside endBroadcast, whoever called it: stop() returns, then the broadcast is detached
    | StopReturns
    | Detach
    // any thread of a broadcast reporting a failure
    | Report(id: Id)
    // the worker
    | TakeTask | Check | EndFromTask | CallUser

  function Count(m: map<Id, nat>, id: Id): nat {
    if id in m then m[id] else 0
  }

  function Bump(m: map<Id, nat>, id: Id): (r: map<Id, nat>)
    ensures forall i :: Count(r, i) == Count(m, i) + if i == id then 1 else 0
  {
    m[id := Count(m, id) + 1]
  }

  predicate Enabled(w: World, step: Step) {
    match step
    case StartBroadcast => w.mutex.Free?
    case EndBroadcast => w.mutex.Free?
    case StopReturns => w.mutex.Ending? && Count(w.joins, w.mutex.id) < Count(w.stops, w.mutex.id)
    case Detach => w.mutex.Ending? && Count(w.joins, w.mutex.id) == Count(w.stops, w.mutex.id)
    case Report(id) => id < w.created
    case TakeTask => w.worker.Idle? && w.queue != []
    case Check => w.worker.Checking? && w.mutex.Free?
    case EndFromTask => w.worker.Passed? && w.mutex.Free?
    case CallUser => w.worker.Calling?
  }

  function Apply(w: World, step: Step): World
    requires Enabled(w, step)
  {
    match step
    case StartBroadcast =>
      // AlreadyBroadcasting leaves everything as it is.
      if w.broadcast.Some? then w else w.(broadcast := Some(w.created), created := w.created + 1)
    case EndBroadcast =>
      if w.broadcast.None? then w
      else w.(mutex := Ending(false, w.broadcast.value), stops := Bump(w.stops, w.broadcast.value))
    case StopReturns => w.(joins := Bump(w.joins, w.mutex.id))
    case Detach =>
      w.(broadcast := None, mutex := Free,
         worker := if w.mutex.byWorker && w.worker.InEnd? then Calling(w.worker.task) else w.worker)
    case Report(id) => w.(queue := w.queue + [id])
    case TakeTask => w.(worker := Checking(w.queue[0]), queue := w.queue[1..])
    case Check =>
      if w.broadcast == Some(w.worker.task) then w.(worker := Passed(w.worker.task)) else w.(worker := Idle)
    case EndFromTask =>
      // endBroadcast ends whatever is there now, not necessarily the broadcast that was checked.
      if w.broadcast.None? then w.(worker := Calling(w.worker.task))
      else w.(worker := InEnd(w.worker.task), mutex := Ending(true, w.broadcast.value),
              stops := Bump(w.stops, w.broadcast.value))
    case CallUser => w.(worker := Idle, callbacks := Bump(w.callbacks, w.worker.task))
  }

  predicate Valid(w: World, steps: seq<Step>)
    decreases |steps|
  {
    steps == [] || (Enabled(w, steps[0]) && Valid(Apply(w, steps[0]), steps[1..]))
  }

  function Run(w: World, steps: seq<Step>): World
    requires Valid(w, steps)
    decreases |steps|
  {
    if steps == [] then w else Run(Apply(w, steps[0]), steps[1..])
  }

  // Detached, stopped and joined.
  predicate Gone(w: World, id: Id) {
    && id < w.created
    && w.broadcast != Some(id)
    && Count(w.stops, id) == 1 && Count(w.joins, id) == 1
  }

  predicate Untouched(w: World, id: Id) {
    Count(w.stops, id) == 0 && Count(w.joins, id) == 0 && Count(w.callbacks, id) == 0
  }

  ghost predicate GoneInv(w: World) {
    forall id :: 0 <= id < w.created && w.broadcast != Some(id) ==> Gone(w, id)
  }

  ghost predicate BroadcastInv(w: World) {
    && (w.broadcast.Some? ==> w.broadcast.value < w.created)
    && (forall id: Id :: id >= w.created ==>
          Count(w.stops, id) == 0 && Count(w.joins, id) == 0 && Count(w.callbacks, id) == 0)
    && (match w.mutex
        case Free => w.broadcast.Some? ==> Untouched(w, w.broadcast.value)
        case Ending(_, id) =>
          && w.broadcast == Some(id)
          && Count(w.stops, id) == 1 && Count(w.joins, id) <= 1 && Count(w.callbacks, id) == 0)
  }

  ghost predicate WorkerInv(w: World) {
    && (forall i :: 0 <= i < |w.queue| ==> w.queue[i] < w.created)
    && (forall id :: Count(w.callbacks, id) <= 1)
    && (w.worker.InEnd? <==> w.mutex.Ending? && w.mutex.byWorker)
    && (match w.worker
        case Idle => true
        case Checking(task) => task < w.created
        case Passed(task) => task < w.created && Count(w.callbacks, task) == 0
        case InEnd(task) => task < w.created && Count(w.callbacks, task) == 0
        case Calling(task) => Gone(w, task) && Count(w.callbacks, task) == 0)
  }

  ghost predicate Inv(w: World) {
    GoneInv(w) && BroadcastInv(w) && WorkerInv(w)
  }

  lemma StepKeepsGone(w: World, step: Step)
    requires Inv(w) && Enabled(w, step)
    ensures GoneInv(Apply(w, step))
  {
  }

  lemma StepKeepsBroadcast(w: World, step: Step)
    requires Inv(w) && Enabled(w, step)
    ensures BroadcastInv(Apply(w, step))
  {
  }

  lemma StepKeepsWorker(w: World, step: Step)
    requires Inv(w) && Enabled(w, step)
    ensures WorkerInv(Apply(w, step))
  {
  }

  lemma {:induction false} RunKeepsInv(w: World, steps: seq<Step>)
    requires Inv(w) && Valid(w, steps)
    ensures Inv(Run(w, steps))
    decreases |steps|
  {
    if steps == [] {
    } else {
      StepKeepsGone(w, steps[0]);
      StepKeepsBroadcast(w, steps[0]);
      StepKeepsWorker(w, steps[0]);
      RunKeepsInv(Apply(w, steps[0]), steps[1..]);
    }
  }

  // Over every interleaving: stop() is called at most once per broadcast, the user's failed
  // callback runs at most once per broadcast, and when it runs (or has run) that broadcast has
  // been detached, stopped and joined. Every broadcast but the current one is gone.
  lemma {:induction false} Dispatch(steps: seq<Step>, w: World, id: Id)
    requires Valid(INITIAL, steps) && w == Run(INITIAL, steps)
    ensures Count(w.joins, id) <= Count(w.stops, id) <= 1
    ensures Count(w.callbacks, id) <= 1
    ensures w.worker == Calling(id) || Count(w.callbacks, id) > 0 ==> Gone(w, id)
    ensures id < w.created ==> w.broadcast == Some(id) || Gone(w, id)
  {
    RunKeepsInv(INITIAL, steps);
    if id < w.created && w.broadcast != Some(id) {
      assert Gone(w, id);
    } else {
      assert id >= w.created ==> Count(w.stops, id) == 0;
    }
  }

  // As long as failures are waiting or one is being handled, the worker or whoever is ending a
  // broadcast can go on: reporting never needs the mutex, so nothing waits for itself.
  lemma NeverStuck(w: World)
    requires Inv(w) && (w.queue != [] || !w.worker.Idle? || w.mutex.Ending?)
    ensures exists step :: step in {TakeTask, Check, EndFromTask, StopReturns, Detach, CallUser} && Enabled(w, step)
  {
    var step := match w.mutex
      case Ending(_, id) => if Count(w.joins, id) == 0 then StopReturns else Detach
      case Free =>
        (match w.worker
         case Idle => TakeTask
         case Checking(_) => Check
         case Passed(_) => EndFromTask
         case _ => CallUser);
    assert Enabled(w, step);
  }

  // The steps that handle a failure once its task has been taken.
  predicate IsHandling(step: Step) {
    step.Check? || step.EndFromTask? || step.StopReturns? || step.Detach? || step.CallUser?
  }

  function HandlingSteps(steps: seq<Step>): nat {
    if steps == [] then 0 else (if IsHandling(steps[0]) then 1 else 0) + HandlingSteps(steps[1..])
  }

  // The failure of `task` is `left` of them away from the return of its user's callback.
  predicate Pending(w: World, task: Id, left: nat) {
    match left
    case 5 => w.worker == Checking(task) && w.broadcast == Some(task) && w.mutex.Free?
    case 4 => w.worker == Passed(task) && w.broadcast == Some(task) && w.mutex.Free?
    case 3 => w.mutex == Ending(true, task) && w.worker == InEnd(task) && Count(w.joins, task) == 0
    case 2 => w.mutex == Ending(true, task) && w.worker == InEnd(task) && Count(w.joins, task) == 1
    case 1 => w.mutex.Free? && w.worker == Calling(task)
    case _ => left == 0 && Gone(w, task) && Count(w.callbacks, task) == 1
  }

  lemma StepHandles(w: World, step: Step, task: Id, left: nat)
    requires Inv(w) && Enabled(w, step) && !step.EndBroadcast? && Pending(w, task, left)
    ensures Pending(Apply(w, step), task, if IsHandling(step) && left > 0 then left - 1 else left)
  {
  }

  lemma {:induction false} RunHandles(w: World, steps: seq<Step>, task: Id, left: nat)
    requires Inv(w) && Valid(w, steps) && EndBroadcast !in steps && Pending(w, task, left)
    ensures Inv(Run(w, steps))
    ensures Pending(Run(w, steps), task, Max(left - HandlingSteps(steps), 0))
    decreases |steps|
  {
    if steps == [] {
    } else {
      var step := steps[0];
      StepKeepsGone(w, step);
      StepKeepsBroadcast(w, step);
      StepKeepsWorker(w, step);
      StepHandles(w, step, task, left);
      RunHandles(Apply(w, step), steps[1..], task, if IsHandling(step) && left > 0 then left - 1 else left);
    }
  }

  // A failed broadcast that the application does not end is ended and reported to its user in
  // every schedule: the fifth handling step is the return of the callback, until then the next
  // one can always be taken, and afterwards nobody is told again.
  lemma {:induction false} FailureReachesUser(w: World, task: Id, steps: seq<Step>)
    requires Inv(w) && w.mutex.Free? && w.worker == Checking(task) && w.broadcast == Some(task)
    requires Valid(w, steps) && EndBroadcast !in steps
    ensures var w' := Run(w, steps);
            if HandlingSteps(steps) >= 5 then Gone(w', task) && Count(w'.callbacks, task) == 1
            else Count(w'.callbacks, task) == 0 && exists step :: IsHandling(step) && Enabled(w', step)
  {
    RunHandles(w, steps, task, 5);
    var w' := Run(w, steps);
    if HandlingSteps(steps) < 5 {
      NeverStuck(w');
    }
  }

  predicate PassedNotTold(w: World, task: Id) {
    Count(w.callbacks, task) == 0 && w.worker in {Passed(task), InEnd(task), Calling(task)}
  }

  // Whatever the application does: a failure that passed the check is never dropped, its user is
  // told once and the worker takes no other task before that.
  lemma {:induction false} PassedIsTold(w: World, steps: seq<Step>, task: Id)
    requires Inv(w) && Valid(w, steps)
    requires PassedNotTold(w, task) || Count(w.callbacks, task) == 1
    ensures PassedNotTold(Run(w, steps), task) || Count(Run(w, steps).callbacks, task) == 1
    decreases |steps|
  {
    if steps == [] {
    } else {
      var step := steps[0];
      StepKeepsGone(w, step);
      StepKeepsBroadcast(w, step);
      StepKeepsWorker(w, step);
      assert PassedNotTold(Apply(w, step), task) || Count(Apply(w, step).callbacks, task) == 1;
      PassedIsTold(Apply(w, step), steps[1..], task);
    }
  }

  // Nobody else starts, checks or ends a broadcast while one is being ended.
  lemma Exclusive(w: World)
    requires w.mutex.Ending?
    ensures forall step :: step in {StartBroadcast, EndBroadcast, Check, EndFromTask} ==> !Enabled(w, step)
  {
  }

  function WorkerRank(worker: Worker): nat {
    match worker case Idle => 0 case Checking(_) => 3 case Passed(_) => 2 case InEnd(_) => 1 case Calling(_) => 1
  }

  predicate IsWork(step: Step) {
    step.Check? || step.EndFromTask? || step.CallUser?
  }

  function WorkSteps(steps: seq<Step>): nat {
    if steps == [] then 0 else (if IsWork(steps[0]) then 1 else 0) + WorkSteps(steps[1..])
  }

  function TakeSteps(steps: seq<Step>): nat {
    if steps == [] then 0 else (if steps[0].TakeTask? then 1 else 0) + TakeSteps(steps[1..])
  }

  // Whatever the others do, the worker is done with a task after at most three steps of its own,
  // whether it passed the check or not, and then takes the next one.
  lemma {:induction false} WorkerFinishes(w: World, steps: seq<Step>)
    requires Valid(w, steps)
    ensures WorkSteps(steps) + WorkerRank(Run(w, steps).worker) <= WorkerRank(w.worker) + 3 * TakeSteps(steps)
    decreases |steps|
  {
    if steps == [] {
    } else {
      WorkerStep(w, steps[0]);
      WorkerFinishes(Apply(w, steps[0]), steps[1..]);
    }
  }

  lemma WorkerStep(w: World, step: Step)
    requires Enabled(w, step)
    ensures (if IsWork(step) then 1 else 0) + WorkerRank(Apply(w, step).worker) <=
      WorkerRank(w.worker) + if step.TakeTask? then 3 else 0
  {
  }

  // The failed broadcast has been ended by the application while its task is between the two
  // critical sections.
  predicate EndedMeanwhile(w: World, task: Id) {
    && w.worker == Passed(task)
    && (w.broadcast == Some(task) ==> w.mutex.Ending?)
  }

  lemma {:induction false} StaysEnded(w: World, mid: seq<Step>, task: Id)
    requires Inv(w) && Valid(w, mid) && EndFromTask !in mid && EndedMeanwhile(w, task)
    ensures EndedMeanwhile(Run(w, mid), task)
    decreases |mid|
  {
    if mid == [] {
    } else {
      var step := mid[0];
      StepKeepsGone(w, step);
      StepKeepsBroadcast(w, step);
      StepKeepsWorker(w, step);
      assert EndedMeanwhile(Apply(w, step), task);
      StaysEnded(Apply(w, step), mid[1..], task);
    }
  }

  lemma {:induction false} BetweenSections(w: World, mid: seq<Step>, task: Id)
    requires Inv(w) && Valid(w, mid) && EndFromTask !in mid && Pending(w, task, 4)
    ensures if EndBroadcast in mid then EndedMeanwhile(Run(w, mid), task) else Pending(Run(w, mid), task, 4)
    decreases |mid|
  {
    if mid == [] {
    } else {
      var step := mid[0];
      StepKeepsGone(w, step);
      StepKeepsBroadcast(w, step);
      StepKeepsWorker(w, step);
      if step.EndBroadcast? {
        StaysEnded(Apply(w, step), mid[1..], task);
      } else {
        StepHandles(w, step, task, 4);
        BetweenSections(Apply(w, step), mid[1..], task);
      }
    }
  }

  // A broadcast was started behind the last one that was detached.
  predicate StartedSince(steps: seq<Step>) {
    exists i :: 0 <= i < |steps| && steps[i].StartBroadcast? && Detach !in steps[i..]
  }

  lemma StartedSinceCons(steps: seq<Step>)
    requires steps != []
    ensures StartedSince(steps) <==> StartedSince(steps[1..]) || (steps[0].StartBroadcast? && Detach !in steps[1..])
  {
    assert steps == [steps[0]] + steps[1..];
  }

  lemma {:induction false} BroadcastExactly(w: World, steps: seq<Step>)
    requires Valid(w, steps)
    ensures Run(w, steps).broadcast.Some? <==>
      StartedSince(steps) || (w.broadcast.Some? && Detach !in steps)
    ensures w.broadcast.Some? && Detach !in steps ==> Run(w, steps).broadcast == w.broadcast
    decreases |steps|
  {
    if steps == [] {
    } else {
      assert steps == [steps[0]] + steps[1..];
      StartedSinceCons(steps);
      BroadcastExactly(Apply(w, steps[0]), steps[1..]);
    }
  }

  // What a failure that passed the check ends: its own broadcast exactly if the application has
  // not called endBroadcast between the two critical sections, and another, later one exactly
  // if it has and has started that one since.
  lemma {:induction false} EndsOwnExactly(pre: seq<Step>, w0: World, task: Id, mid: seq<Step>, w: World)
    requires Valid(INITIAL, pre) && w0 == Run(INITIAL, pre)
    requires Enabled(w0, Check) && Apply(w0, Check).worker == Passed(task)
    requires Valid(Apply(w0, Check), mid) && EndFromTask !in mid && w == Run(Apply(w0, Check), mid)
    requires Enabled(w, EndFromTask)
    ensures var ended := Apply(w, EndFromTask).mutex;
            && (ended == Ending(true, task) <==> EndBroadcast !in mid)
            && (ended.Ending? && ended.id != task <==> EndBroadcast in mid && StartedSince(mid))
            && (ended.Ending? ==> ended.byWorker && task <= ended.id)
  {
    RunKeepsInv(INITIAL, pre);
    RunOrdersIds(INITIAL, pre);
    FromCheckOn(w0, task, mid);
  }

  lemma {:induction false} FromCheckOn(w0: World, task: Id, mid: seq<Step>)
    requires Inv(w0) && (w0.broadcast.Some? ==> w0.broadcast.value == w0.created - 1)
    requires Enabled(w0, Check) && Apply(w0, Check).worker == Passed(task)
    requires Valid(Apply(w0, Check), mid) && EndFromTask !in mid && Enabled(Run(Apply(w0, Check), mid), EndFromTask)
    ensures var b := Run(Apply(w0, Check), mid).broadcast;
            && (b == Some(task) <==> EndBroadcast !in mid)
            && (b.Some? && b.value != task <==> EndBroadcast in mid && StartedSince(mid))
            && (b.Some? ==> task <= b.value)
    ensures Run(Apply(w0, Check), mid).worker == Passed(task)
  {
    var w1 := Apply(w0, Check);
    StepKeepsGone(w0, Check);
    StepKeepsBroadcast(w0, Check);
    StepKeepsWorker(w0, Check);
    RunKeepsInv(w1, mid);
    RunOrdersIds(w1, mid);
    BetweenSections(w1, mid, task);
    BroadcastExactly(w1, mid);
  }

  function Reported(steps: seq<Step>): seq<Id> {
    if steps == [] then [] else (if steps[0].Report? then [steps[0].id] else []) + Reported(steps[1..])
  }

  function TasksTaken(w: World, steps: seq<Step>): seq<Id>
    requires Valid(w, steps)
    decreases |steps|
  {
    if steps == [] then []
    else
      var w' := Apply(w, steps[0]);
      (if steps[0].TakeTask? && w'.worker.Checking? then [w'.worker.task] else []) + TasksTaken(w', steps[1..])
  }

  // The queue is serial: failures are handled one by one in the order they were reported in, and
  // none is lost or repeated.
  lemma {:induction false} HandledInOrder(w: World, steps: seq<Step>)
    requires Valid(w, steps)
    ensures w.queue + Reported(steps) == TasksTaken(w, steps) + Run(w, steps).queue
    decreases |steps|
  {
    if steps == [] {
    } else {
      var step, w', rest := steps[0], Apply(w, steps[0]), steps[1..];
      HandledInOrder(w', rest);
      QueueStep(w, step, Reported(rest));
    }
  }

  lemma QueueStep(w: World, step: Step, later: seq<Id>)
    requires Enabled(w, step)
    ensures var w' := Apply(w, step);
            w.queue + ((if step.Report? then [step.id] else []) + later) ==
              (if step.TakeTask? then [w'.worker.task] else []) + (w'.queue + later)
  {
  }

  // The broadcast that is there is always the latest.
  lemma {:induction false} RunOrdersIds(w: World, steps: seq<Step>)
    requires Valid(w, steps) && (w.broadcast.Some? ==> w.broadcast.value == w.created - 1)
    ensures var w' := Run(w, steps); w'.broadcast.Some? ==> w'.broadcast.value == w'.created - 1
    decreases |steps|
  {
    if steps == [] {
    } else {
      RunOrdersIds(Apply(w, steps[0]), steps[1..]);
    }
  }

  lemma {:induction false} RunExtend(w: World, steps: seq<Step>, step: Step)
    requires Valid(w, steps) && Enabled(Run(w, steps), step)
    ensures Valid(w, steps + [step])
    ensures Run(w, steps + [step]) == Apply(Run(w, steps), step)
    decreases |steps|
  {
    if steps == [] {
      assert [] + [step] == [step] && [step][1..] == [];
    } else {
      assert (steps + [step])[1..] == steps[1..] + [step];
      RunExtend(Apply(w, steps[0]), steps[1..], step);
    }
  }

  // And it does happen: broadcast 0 fails and passes the check, the application ends it and
  // starts broadcast 1, ...
  lemma StaleFailurePassed() returns (steps: seq<Step>, w: World)
    ensures steps == [StartBroadcast, Report(0), TakeTask, Check, EndBroadcast, StopReturns, Detach, StartBroadcast]
    ensures Valid(INITIAL, steps) && w == Run(INITIAL, steps)
    ensures w == World(Some(1), Free, Passed(0), [], 2, map[0 := 1], map[0 := 1], map[])
  {
    steps, w := [], INITIAL;
    steps, w := Extend(steps, w, StartBroadcast);
    steps, w := Extend(steps, w, Report(0));
    steps, w := Extend(steps, w, TakeTask);
    assert w == World(Some(0), Free, Checking(0), [], 1, map[], map[], map[]);
    steps, w := Extend(steps, w, Check);
    assert w == World(Some(0), Free, Passed(0), [], 1, map[], map[], map[]);
    steps, w := Extend(steps, w, EndBroadcast);
    steps, w := Extend(steps, w, StopReturns);
    assert w == World(Some(0), Ending(false, 0), Passed(0), [], 1, map[0 := 1], map[0 := 1], map[]);
    steps, w := Extend(steps, w, Detach);
    steps, w := Extend(steps, w, StartBroadcast);
  }

  // ... and the failure of 0 then ends 1, ...
  lemma StaleFailureEnds() returns (steps: seq<Step>, w: World)
    ensures Report(1) !in steps && Valid(INITIAL, steps) && w == Run(INITIAL, steps)
    ensures Gone(w, 1) && w.worker == Calling(0) && w.callbacks == map[]
  {
    steps, w := StaleFailurePassed();
    steps, w := Extend(steps, w, EndFromTask);
    assert w == World(Some(1), Ending(true, 1), InEnd(0), [], 2, map[0 := 1, 1 := 1], map[0 := 1], map[]);
    steps, w := Extend(steps, w, StopReturns);
    steps, w := Extend(steps, w, Detach);
  }

  // ... which never failed and whose user is told nothing.
  lemma FailureCanEndAnother() returns (steps: seq<Step>, w: World)
    ensures Valid(INITIAL, steps) && w == Run(INITIAL, steps)
    ensures Report(1) !in steps && Gone(w, 1)
    ensures Count(w.callbacks, 0) == 1 && Count(w.callbacks, 1) == 0
  {
    steps, w := StaleFailureEnds();
    steps, w := Extend(steps, w, CallUser);
  }

  lemma Extend(steps: seq<Step>, w: World, step: Step) returns (steps': seq<Step>, w': World)
    requires Valid(INITIAL, steps) && w == Run(INITIAL, steps) && Enabled(w, step)
    ensures steps' == steps + [step] && w' == Apply(w, step)
    ensures Valid(INITIAL, steps') && w' == Run(INITIAL, steps')
  {
    RunExtend(INITIAL, steps, step);
    steps', w' := steps + [step], Apply(w, step);
  }
}
