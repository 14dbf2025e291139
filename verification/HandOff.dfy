/**
 * The worker thread and the GUI thread of the GTK client: callbacks registered under a mutex by
 * the GUI, taken and invoked by the worker, and their events handed back through a queue and a
 * socket pair. Every critical section and every system call is one step; the two threads take
 * their steps in any order.
 */
module HandOff {
  import opened Bytes

  datatype Kind = Started | StartFailed | Stopped

  /** An event, with the number of the callback that posted it. */
  datatype Event = Event(id: nat, kind: Kind)

  /** Where the worker thread is; `Invoking` holds a callback it has taken out of its field. */
  datatype Worker = Running | Invoking(event: Event) | Emitting

  /** Where the GUI thread's source is; `Removed` after a failed read. */
  datatype Gui = Waiting | GotByte | Removed

  datatype State = State(
    startCallback: Option<nat>,
    stopCallback: Option<nat>,
    destroyed: bool,
    worker: Worker,
    gui: Gui,
    queue: seq<Event>,
    pipe: nat,
    crashed: bool,
    // histories: callbacks registered, those of them by `Start`, callbacks dropped unused, events
    // posted and handled, bytes moved
    registered: nat,
    starters: set<nat>,
    dropped: set<nat>,
    pushed: seq<Event>,
    handled: seq<Event>,
    written: nat,
    read: nat,
    lost: nat)

  predicate Initial(s: State) {
    && s.startCallback.None? && s.stopCallback.None? && !s.destroyed && !s.crashed
    && s.worker == Running && s.gui == Waiting && s.queue == [] && s.pipe == 0
    && s.registered == 0 && s.starters == {} && s.dropped == {} && s.pushed == [] && s.handled == []
    && s.written == 0 && s.read == 0 && s.lost == 0
  }

  /** `Start` and `Stop` are called by the GUI; a quiet call registers an empty callback. */
  datatype Action =
    | Start(quiet: bool)
    | Stop(quiet: bool)
    | Destroy
    | ResolveDone(failed: bool)
    | RunReturned
    | Invoke
    | EmitByte
    | EmitInterrupted
    | EmitFailed
    | ReadByte
    | ReadInterrupted
    | ReadFailed
    | Dispatch

  function Dropping(s: State, callback: Option<nat>): set<nat> {
    if callback.Some? then s.dropped + {callback.value} else s.dropped
  }

  function Step(s: State, a: Action): State {
    match a
    case Start(quiet) =>
      if s.destroyed then s
      else s.(startCallback := if quiet then None else Some(s.registered), registered := s.registered + 1,
              starters := s.starters + {s.registered}, dropped := Dropping(s, s.startCallback))
    case Stop(quiet) =>
      if s.destroyed then s
      else s.(stopCallback := if quiet then None else Some(s.registered), registered := s.registered + 1,
              dropped := Dropping(s, s.stopCallback))
    case Destroy =>
      var cleared := s.(startCallback := None, dropped := Dropping(s, s.startCallback));
      cleared.(stopCallback := None, dropped := Dropping(cleared, s.stopCallback), destroyed := true)
    case ResolveDone(failed) =>
      if s.worker != Running || s.startCallback.None? then s
      else
        var kind := if failed then StartFailed else Started;
        s.(startCallback := None, worker := Invoking(Event(s.startCallback.value, kind)))
    case RunReturned =>
      if s.worker != Running || s.stopCallback.None? then s
      else s.(stopCallback := None, worker := Invoking(Event(s.stopCallback.value, Stopped)))
    case Invoke =>
      if !s.worker.Invoking? then s
      else s.(worker := Emitting, queue := s.queue + [s.worker.event], pushed := s.pushed + [s.worker.event])
    case EmitByte =>
      if s.worker != Emitting then s else s.(worker := Running, pipe := s.pipe + 1, written := s.written + 1)
    case EmitFailed =>
      if s.worker != Emitting then s else s.(worker := Running, lost := s.lost + 1)
    case ReadByte =>
      if s.gui != Waiting || s.pipe == 0 then s else s.(gui := GotByte, pipe := s.pipe - 1, read := s.read + 1)
    case ReadFailed =>
      if s.gui != Waiting then s else s.(gui := Removed)
    case Dispatch =>
      if s.gui != GotByte then s
      else if s.queue == [] then s.(crashed := true)
      else s.(gui := Waiting, queue := s.queue[1..], handled := s.handled + [s.queue[0]])
    case EmitInterrupted => s
    case ReadInterrupted => s
  }

  function Run(s: State, actions: seq<Action>): State
    decreases |actions|
  {
    if actions == [] then s else Step(Run(s, actions[..|actions| - 1]), actions[|actions| - 1])
  }

  // ---------------------------------------------------------------- the hand-off

  function One(b: bool): nat {
    if b then 1 else 0
  }

  /** Events posted are handled or queued, in order; a byte is read only for a queued event. */
  ghost predicate Counted(s: State) {
    && s.pushed == s.handled + s.queue
    && s.read == |s.handled| + One(s.gui == GotByte)
    && s.written == s.read + s.pipe
    && |s.pushed| == s.written + One(s.worker == Emitting) + s.lost
    && !s.crashed
  }

  lemma CountedStep(s: State, a: Action)
    requires Counted(s)
    ensures Counted(Step(s, a))
  {
    match a
    case Invoke =>
      if s.worker.Invoking? {
        Regroup(s.handled, s.queue, [s.worker.event]);
      }
    case Dispatch =>
      if s.gui == GotByte {
        assert s.queue == [s.queue[0]] + s.queue[1..];
        Regroup(s.handled, [s.queue[0]], s.queue[1..]);
      }
    case _ =>
  }

  // ---------------------------------------------------------------- the callbacks

  ghost predicate Invoked(s: State, id: nat) {
    exists i :: 0 <= i < |s.pushed| && s.pushed[i].id == id
  }

  /** Registered, and neither dropped nor invoked yet. */
  ghost predicate Unused(s: State, id: nat) {
    id < s.registered && id !in s.dropped && !Invoked(s, id)
  }

  /** A callback is in one place at a time: a field, the worker's hands, dropped, or invoked once. */
  ghost predicate Once(s: State) {
    && (s.startCallback.Some? ==> Unused(s, s.startCallback.value))
    && (s.stopCallback.Some? ==> Unused(s, s.stopCallback.value))
    && (s.worker.Invoking? ==> Unused(s, s.worker.event.id))
    && (s.startCallback.Some? ==> s.startCallback != s.stopCallback)
    && (s.worker.Invoking? ==> s.startCallback != Some(s.worker.event.id) && s.stopCallback != Some(s.worker.event.id))
    && (forall id :: id in s.dropped ==> id < s.registered && !Invoked(s, id))
    && (forall i :: 0 <= i < |s.pushed| ==> s.pushed[i].id < s.registered)
    && (forall i, j :: 0 <= i < j < |s.pushed| ==> s.pushed[i].id != s.pushed[j].id)
  }

  lemma OnceStep(s: State, a: Action)
    requires Once(s)
    ensures Once(Step(s, a)) && s.dropped <= Step(s, a).dropped
  {
    match a
    case Start(quiet) => RegisteredOnce(s, a);
    case Stop(quiet) => RegisteredOnce(s, a);
    case Destroy => RegisteredOnce(s, a);
    case Invoke =>
      if s.worker.Invoking? {
        InvokedOnce(s);
      }
    case ResolveDone(failed) => TakenOnce(s, a);
    case RunReturned => TakenOnce(s, a);
    case _ => OnceSame(s, Step(s, a));
  }

  lemma SameInvoked(s: State, t: State)
    requires t.pushed == s.pushed
    ensures forall id: nat :: Invoked(t, id) <==> Invoked(s, id)
  {
  }

  lemma RegisteredOnce(s: State, a: Action)
    requires Once(s) && (a.Start? || a.Stop? || a.Destroy?)
    ensures Once(Step(s, a)) && s.dropped <= Step(s, a).dropped
  {
    SameInvoked(s, Step(s, a));
    assert !Invoked(s, s.registered);
  }

  lemma TakenOnce(s: State, a: Action)
    requires Once(s) && (a.ResolveDone? || a.RunReturned?)
    ensures Once(Step(s, a)) && s.dropped <= Step(s, a).dropped
  {
    SameInvoked(s, Step(s, a));
  }

  /** The hand-off moves no callback. */
  lemma OnceSame(s: State, t: State)
    requires Once(s) && t.startCallback == s.startCallback && t.stopCallback == s.stopCallback
    requires t.registered == s.registered && t.dropped == s.dropped && t.pushed == s.pushed
    requires t.worker.Invoking? ==> t.worker == s.worker
    ensures Once(t)
  {
    SameInvoked(s, t);
  }

  lemma InvokedOnce(s: State)
    requires Once(s) && s.worker.Invoking?
    ensures Once(Step(s, Invoke))
  {
    var t, id := Step(s, Invoke), s.worker.event.id;
    forall i | 0 <= i < |s.pushed|
      ensures s.pushed[i].id != id
    {
      assert !Invoked(s, id);
    }
    forall other: nat | other != id && Invoked(t, other)
      ensures Invoked(s, other)
    {
      var i :| 0 <= i < |t.pushed| && t.pushed[i].id == other;
      assert i < |s.pushed| && s.pushed[i].id == other;
    }
  }

  // ---------------------------------------------------------------- what an event says

  /** Of a callback: what it may report. */
  ghost predicate Fitting(s: State, e: Event) {
    e.id < s.registered && (e.id in s.starters <==> e.kind != Stopped)
  }

  /** A start callback reports a start, failed or not, and a stop callback a stop. */
  ghost predicate Reported(s: State) {
    && (forall id :: id in s.starters ==> id < s.registered)
    && (s.startCallback.Some? ==> s.startCallback.value < s.registered && s.startCallback.value in s.starters)
    && (s.stopCallback.Some? ==> s.stopCallback.value < s.registered && s.stopCallback.value !in s.starters)
    && (s.worker.Invoking? ==> Fitting(s, s.worker.event))
    && (forall i :: 0 <= i < |s.pushed| ==> Fitting(s, s.pushed[i]))
  }

  lemma ReportedStep(s: State, a: Action)
    requires Reported(s)
    ensures Reported(Step(s, a))
  {
    var t := Step(s, a);
    forall i | 0 <= i < |t.pushed|
      ensures Fitting(t, t.pushed[i])
    {
      if i < |s.pushed| {
        assert Fitting(s, s.pushed[i]);
      }
    }
  }

  /** Whether a run resolves the server with this result. */
  ghost predicate Resolves(actions: seq<Action>, failed: bool) {
    exists i :: 0 <= i < |actions| && actions[i] == ResolveDone(failed)
  }

  ghost function StartKind(failed: bool): Kind {
    if failed then StartFailed else Started
  }

  /** Events of this kind are around. */
  ghost predicate Holds(s: State, kind: Kind) {
    (s.worker.Invoking? && s.worker.event.kind == kind) || (exists i :: 0 <= i < |s.pushed| && s.pushed[i].kind == kind)
  }

  lemma HoldsStep(s: State, a: Action, failed: bool)
    requires !Holds(s, StartKind(failed)) && a != ResolveDone(failed)
    ensures !Holds(Step(s, a), StartKind(failed))
  {
    var t := Step(s, a);
    forall i | 0 <= i < |t.pushed|
      ensures t.pushed[i].kind != StartKind(failed)
    {
      if i < |s.pushed| {
        assert s.pushed[i].kind != StartKind(failed);
      }
    }
  }

  lemma {:induction false} StartNeedsResolve(init: State, actions: seq<Action>, failed: bool)
    requires Initial(init) && !Resolves(actions, failed)
    ensures !Holds(Run(init, actions), StartKind(failed))
    decreases |actions|
  {
    if actions != [] {
      var n := |actions| - 1;
      forall i | 0 <= i < n
        ensures actions[..n][i] != ResolveDone(failed)
      {
        assert actions[..n][i] == actions[i];
      }
      StartNeedsResolve(init, actions[..n], failed);
      HoldsStep(Run(init, actions[..n]), actions[n], failed);
    }
  }

  /**
   * In every interleaving: events come from callbacks of their kind, and a start is reported as
   * failed, or as done, only if resolving the server ended that way.
   */
  lemma {:induction false} EventsTellTheTruth(init: State, actions: seq<Action>)
    requires Initial(init)
    ensures Reported(Run(init, actions))
    ensures forall i :: 0 <= i < |Run(init, actions).pushed| ==>
              var e := Run(init, actions).pushed[i];
              (e.kind == StartFailed ==> Resolves(actions, true)) && (e.kind == Started ==> Resolves(actions, false))
    decreases |actions|
  {
    if !Resolves(actions, true) {
      StartNeedsResolve(init, actions, true);
    }
    if !Resolves(actions, false) {
      StartNeedsResolve(init, actions, false);
    }
    if actions != [] {
      EventsTellTheTruth(init, actions[..|actions| - 1]);
      ReportedStep(Run(init, actions[..|actions| - 1]), actions[|actions| - 1]);
    }
  }

  // ---------------------------------------------------------------- whole runs

  ghost predicate Inv(s: State) {
    Counted(s) && Once(s)
  }

  lemma {:induction false} RunKeeps(s: State, actions: seq<Action>)
    requires Inv(s)
    ensures Inv(Run(s, actions)) && s.dropped <= Run(s, actions).dropped
    decreases |actions|
  {
    if actions != [] {
      var front := actions[..|actions| - 1];
      RunKeeps(s, front);
      CountedStep(Run(s, front), actions[|actions| - 1]);
      OnceStep(Run(s, front), actions[|actions| - 1]);
    }
  }

  lemma InitialInv(s: State)
    requires Initial(s)
    ensures Inv(s)
  {
    assert s.handled + s.queue == [];
  }

  /**
   * In every interleaving: the queue is never popped when empty, events are handled once each in
   * the order they were posted, and no callback posts twice.
   */
  lemma EventsHandledInOrder(init: State, actions: seq<Action>)
    requires Initial(init)
    ensures var s := Run(init, actions);
            && !s.crashed
            && s.handled <= s.pushed
            && |s.handled| <= s.read <= s.written <= |s.pushed|
            && (forall i, j :: 0 <= i < j < |s.pushed| ==> s.pushed[i].id != s.pushed[j].id)
  {
    InitialInv(init);
    RunKeeps(init, actions);
  }

  /** No wake-up is lost: an event that is not handled has a byte on its way, or its byte failed. */
  lemma UnhandledIsAnnounced(init: State, actions: seq<Action>)
    requires Initial(init)
    ensures var s := Run(init, actions);
            |s.pushed| - |s.handled| == s.pipe + One(s.gui == GotByte) + One(s.worker == Emitting) + s.lost
    ensures var s := Run(init, actions);
            s.lost == 0 && s.pipe == 0 && s.gui != GotByte && s.worker != Emitting ==> s.handled == s.pushed
  {
    InitialInv(init);
    RunKeeps(init, actions);
    var s := Run(init, actions);
    if s.queue == [] {
      assert s.handled + [] == s.handled;
    }
  }

  lemma {:induction false} RunOn(s: State, before: seq<Action>, after: seq<Action>)
    ensures Run(s, before + after) == Run(Run(s, before), after)
    decreases |after|
  {
    if after == [] {
      assert before + after == before;
    } else {
      var k := |after| - 1;
      assert (before + after)[..|before + after| - 1] == before + after[..k];
      RunOn(s, before, after[..k]);
    }
  }

  lemma RunOne(s: State, a: Action)
    ensures Run(s, [a]) == Step(s, a)
  {
    assert [a][..0] == [];
    assert Run(s, []) == s;
  }

  /** A callback still held when the destructor clears the fields is never invoked. */
  lemma ClearedNeverInvoked(init: State, before: seq<Action>, after: seq<Action>, id: nat)
    requires Initial(init)
    requires var s := Run(init, before); s.startCallback == Some(id) || s.stopCallback == Some(id)
    ensures !Invoked(Run(init, before + [Destroy] + after), id)
  {
    InitialInv(init);
    RunKeeps(init, before);
    var s := Run(init, before);
    RunOn(init, before, [Destroy]);
    RunOne(s, Destroy);
    RunOn(init, before + [Destroy], after);
    CountedStep(s, Destroy);
    OnceStep(s, Destroy);
    assert id in Step(s, Destroy).dropped;
    RunKeeps(Step(s, Destroy), after);
  }
}
