/** Watching who owns a manager selection (KSelectionWatcher): the object, split where it waits
    for the X server, and its runs against a server on which other clients do as they like. */
module SelectionWatcher {

  /** 0 stands for XCB_NONE. */
  type Window = nat

  datatype Event =
    | ManagerMessage(forUs: bool) // a MANAGER client message on the root window
    | DestroyNotify(window: Window)
    | OtherEvent

  datatype Signal = NewOwner(window: Window) | LostOwner

  /** Where a call of owner() waits; `lost` says that filterEvent made the call because the
      tracked owner was destroyed. */
  datatype Call =
    | NoCall
    | Asking(lost: bool)
    | Selecting(lost: bool, current: Window)
    | AskingAgain(lost: bool, current: Window, ok: bool)
    | Checking(lost: bool, current: Window, ok: bool, again: Window)

  datatype Watcher = Watcher(selectionOwner: Window, call: Call, signals: seq<Signal>)

  // ---------------------------------------------------------------- the methods as functions

  /** The end of owner(), and of filterEvent if that was the caller. */
  function Returned(x: Watcher, lost: bool, owner: Window): Watcher {
    x.(call := NoCall, signals := if lost && owner == 0 then x.signals + [LostOwner] else x.signals)
  }

  function OwnerCalled(x: Watcher): Watcher {
    x.(call := Asking(false))
  }

  function FirstReply(x: Watcher, current: Window): Watcher
    requires x.call.Asking?
  {
    if current == 0 then Returned(x, x.call.lost, 0)
    else if current == x.selectionOwner then Returned(x, x.call.lost, current)
    else x.(call := Selecting(x.call.lost, current))
  }

  function Selected(x: Watcher, ok: bool): Watcher
    requires x.call.Selecting?
  {
    x.(call := AskingAgain(x.call.lost, x.call.current, ok))
  }

  function SecondReply(x: Watcher, again: Window): Watcher
    requires x.call.AskingAgain?
  {
    x.(call := Checking(x.call.lost, x.call.current, x.call.ok, again))
  }

  function Checked(x: Watcher): Watcher
    requires x.call.Checking?
  {
    var Checking(lost, current, ok, again) := x.call;
    if ok && current == again then
      Returned(x.(selectionOwner := current, signals := x.signals + [NewOwner(current)]), lost, current)
    else Returned(x.(selectionOwner := 0), lost, 0)
  }

  /** filterEvent. */
  function Filtered(x: Watcher, ev: Event): Watcher {
    match ev
    case ManagerMessage(forUs) => if forUs then OwnerCalled(x) else x
    case DestroyNotify(w) =>
      if x.selectionOwner == 0 || w != x.selectionOwner then x
      else x.(selectionOwner := 0, call := Asking(true))
    case OtherEvent => x
  }

  class KSelectionWatcher {
    var selectionOwner: Window
    var call: Call
    ghost var signals: seq<Signal>

    ghost function Abs(): Watcher
      reads this
    {
      Watcher(selectionOwner, call, signals)
    }

    /** The constructor ends with a call of owner(). */
    constructor ()
      ensures Abs() == Watcher(0, Asking(false), [])
    {
      selectionOwner := 0;
      call := Asking(false);
      signals := [];
    }

    method Owner()
      requires call == NoCall
      modifies this`call
      ensures Abs() == OwnerCalled(old(Abs()))
    {
      call := Asking(false);
    }

    method GotOwner(currentOwner: Window)
      requires call.Asking?
      modifies this
      ensures Abs() == FirstReply(old(Abs()), currentOwner)
    {
      if currentOwner == 0 {
        Return(0);
        return;
      }
      if currentOwner == selectionOwner {
        Return(selectionOwner);
        return;
      }
      call := Selecting(call.lost, currentOwner);
    }

    method GotError(err: bool)
      requires call.Selecting?
      modifies this`call
      ensures Abs() == Selected(old(Abs()), !err)
    {
      call := AskingAgain(call.lost, call.current, !err);
    }

    method GotOwnerAgain(newOwner: Window)
      requires call.AskingAgain?
      modifies this`call
      ensures Abs() == SecondReply(old(Abs()), newOwner)
    {
      call := Checking(call.lost, call.current, call.ok, newOwner);
    }

    method Check()
      requires call.Checking?
      modifies this
      ensures Abs() == Checked(old(Abs()))
    {
      var current := call.current;
      if call.ok && current == call.again {
        selectionOwner := current;
        signals := signals + [NewOwner(selectionOwner)];
      } else {
        selectionOwner := 0;
      }
      Return(selectionOwner);
    }

    /** Return from owner() to its caller. */
    method Return(owner: Window)
      requires call != NoCall
      modifies this
      ensures Abs() == Returned(old(Abs()), old(call).lost, owner)
    {
      if call.lost && owner == 0 {
        signals := signals + [LostOwner];
      }
      call := NoCall;
    }

    method FilterEvent(ev: Event)
      requires call == NoCall
      modifies this
      ensures Abs() == Filtered(old(Abs()), ev)
    {
      match ev
      case ManagerMessage(forUs) =>
        if !forUs {
          return;
        }
        // a new manager has announced itself
        Owner();
      case DestroyNotify(w) =>
        if selectionOwner == 0 || w != selectionOwner {
          return;
        }
        selectionOwner := 0; // a later owner may have the same window id
        call := Asking(true);
      case OtherEvent =>
    }
  }

  // ---------------------------------------------------------------- the server

  /** The server as the watcher's connection sees it: window ids below `next` have been used,
      `selects` are the watcher's StructureNotify selections. */
  datatype System = System(
    x: Watcher,
    queue: seq<Event>,
    owner: Window,
    next: Window,
    alive: set<Window>,
    selects: set<Window>)

  datatype Step =
    | CallOwner          // the application calls owner()
    | Dispatch           // the first event of the queue is handled
    | Advance            // the server executes the request that owner() waits for
    | Other(event: Event)
    | Create
    | Destroy(w: Window)
    | SetOwner(w: Window)

  predicate Enabled(s: System, step: Step) {
    match step
    case CallOwner => s.x.call == NoCall
    case Dispatch => s.x.call == NoCall && s.queue != []
    case Advance => s.x.call != NoCall
    case Other(e) => !e.DestroyNotify?
    case Create => true
    case Destroy(w) => w in s.alive
    case SetOwner(w) => w == 0 || w in s.alive
  }

  function Next(s: System, step: Step): System
    requires Enabled(s, step)
  {
    match step
    case CallOwner => s.(x := OwnerCalled(s.x))
    case Dispatch => s.(x := Filtered(s.x, s.queue[0]), queue := s.queue[1..])
    case Advance => Advanced(s)
    case Other(e) => s.(queue := s.queue + [e])
    case Create => s.(alive := s.alive + {s.next}, next := s.next + 1)
    case Destroy(w) =>
      s.(alive := s.alive - {w},
         owner := if s.owner == w then 0 else s.owner,
         queue := if w in s.selects then s.queue + [DestroyNotify(w)] else s.queue)
    case SetOwner(w) => s.(owner := w)
  }

  function Advanced(s: System): System
    requires s.x.call != NoCall
  {
    match s.x.call
    case Asking(_) => s.(x := FirstReply(s.x, s.owner))
    case Selecting(_, w) =>
      if w in s.alive then s.(x := Selected(s.x, true), selects := s.selects + {w})
      else s.(x := Selected(s.x, false)) // BadWindow
    case AskingAgain(_, _, _) => s.(x := SecondReply(s.x, s.owner))
    case Checking(_, _, _, _) => s.(x := Checked(s.x))
    case NoCall => s
  }

  const START: System := System(Watcher(0, Asking(false), []), [], 0, 1, {}, {})

  ghost predicate Leads(s: System, steps: seq<Step>, end: System)
    decreases |steps|
  {
    if steps == [] then end == s
    else Enabled(s, steps[0]) && Leads(Next(s, steps[0]), steps[1..], end)
  }

  // ---------------------------------------------------------------- the invariant

  /** The watcher will hear of the end of w, or the news is already on its way. */
  predicate Watched(s: System, w: Window) {
    if w in s.alive then w in s.selects else DestroyNotify(w) in s.queue
  }

  /** Every lostOwner comes right after a newOwner. */
  predicate Paired(signals: seq<Signal>) {
    forall i :: 0 <= i < |signals| && signals[i] == LostOwner ==> i > 0 && signals[i - 1].NewOwner?
  }

  predicate LastIsNew(signals: seq<Signal>) {
    signals != [] && signals[|signals| - 1].NewOwner?
  }

  predicate Inv(s: System) {
    var x := s.x;
    && s.next >= 1 && 0 !in s.alive
    && (forall w :: w in s.alive ==> w < s.next)
    && (s.owner == 0 || s.owner in s.alive)
    && (forall e :: e in s.queue && e.DestroyNotify? ==> e.window !in s.alive && e.window < s.next)
    && Paired(x.signals)
    && (x.selectionOwner != 0 ==>
          Watched(s, x.selectionOwner) && x.selectionOwner < s.next
          && LastIsNew(x.signals) && x.signals[|x.signals| - 1].window == x.selectionOwner)
    && (x.call != NoCall && x.call.lost ==> x.selectionOwner == 0 && LastIsNew(x.signals))
    && (x.call.Selecting? || x.call.AskingAgain? || x.call.Checking? ==>
          0 < x.call.current < s.next && x.call.current != x.selectionOwner)
    && ((x.call.AskingAgain? || x.call.Checking?) && x.call.ok ==> Watched(s, x.call.current))
  }

  lemma PairedSnoc(signals: seq<Signal>, s: Signal)
    requires Paired(signals) && (s == LostOwner ==> LastIsNew(signals))
    ensures Paired(signals + [s])
    ensures (signals + [s])[|signals|] == s
  {
  }

  lemma WatchedStays(s: System, step: Step, w: Window)
    requires Inv(s) && Enabled(s, step) && Watched(s, w) && 0 < w < s.next
    requires step.Dispatch? ==> s.queue[0] != DestroyNotify(w)
    ensures Watched(Next(s, step), w)
  {
    if step.Dispatch? && DestroyNotify(w) in s.queue {
      assert DestroyNotify(w) in s.queue[1..];
    }
  }

  lemma AdvanceKeepsInv(s: System)
    requires Inv(s) && s.x.call != NoCall
    ensures Inv(Advanced(s))
  {
    PairedSnoc(s.x.signals, NewOwner(if s.x.call.Checking? then s.x.call.current else 0));
    if LastIsNew(s.x.signals) {
      PairedSnoc(s.x.signals, LostOwner);
    }
    assert Enabled(s, Advance) && Next(s, Advance) == Advanced(s);
    if s.x.selectionOwner != 0 {
      WatchedStays(s, Advance, s.x.selectionOwner);
    }
    if (s.x.call.AskingAgain? || s.x.call.Checking?) && s.x.call.ok {
      WatchedStays(s, Advance, s.x.call.current);
    }
    hide Paired;
  }

  lemma StepKeepsInv(s: System, step: Step)
    requires Inv(s) && Enabled(s, step)
    ensures Inv(Next(s, step))
  {
    if step.Advance? {
      AdvanceKeepsInv(s);
    } else {
      if s.x.selectionOwner != 0 && (step.Dispatch? ==> s.queue[0] != DestroyNotify(s.x.selectionOwner)) {
        WatchedStays(s, step, s.x.selectionOwner);
      }
      if (s.x.call.AskingAgain? || s.x.call.Checking?) && s.x.call.ok {
        WatchedStays(s, step, s.x.call.current);
      }
      hide Watched, Paired;
    }
  }

  lemma {:induction false} RunKeepsInv(s: System, steps: seq<Step>, end: System)
    requires Inv(s) && Leads(s, steps, end)
    ensures Inv(end)
    decreases |steps|
  {
    hide Inv, Next, Enabled;
    if steps != [] {
      StepKeepsInv(s, steps[0]);
      RunKeepsInv(Next(s, steps[0]), steps[1..], end);
    }
  }

  // ---------------------------------------------------------------- all runs

  /** Whatever the other clients do, the tracked owner is a window whose destruction the
      watcher has asked to hear of, or whose DestroyNotify it is about to handle. */
  lemma TrackedOwnerIsWatched(steps: seq<Step>, end: System)
    requires Leads(START, steps, end) && end.x.selectionOwner != 0
    ensures end.x.selectionOwner in end.alive ==> end.x.selectionOwner in end.selects
    ensures end.x.selectionOwner !in end.alive ==> DestroyNotify(end.x.selectionOwner) in end.queue
  {
    RunKeepsInv(START, steps, end);
  }

  /** No lostOwner without a newOwner since the previous lostOwner: the signal right before
      each lostOwner is a newOwner; and a tracked owner is the one announced last. */
  lemma LossFollowsNews(steps: seq<Step>, end: System, i: nat)
    requires Leads(START, steps, end) && i < |end.x.signals|
    ensures end.x.signals[i] == LostOwner ==> i > 0 && end.x.signals[i - 1].NewOwner?
    ensures end.x.selectionOwner != 0 ==>
              end.x.signals[|end.x.signals| - 1] == NewOwner(end.x.selectionOwner)
  {
    RunKeepsInv(START, steps, end);
  }

  /** The steps lead from sys to end, and owner() is under way until the last of them. */
  ghost predicate Finishes(s: System, steps: seq<Step>, end: System)
    decreases |steps|
  {
    if steps == [] then end == s && s.x.call == NoCall
    else s.x.call != NoCall && Enabled(s, steps[0]) && Finishes(Next(s, steps[0]), steps[1..], end)
  }

  /** What the application should have heard last. */
  function Report(x: Watcher): Signal {
    if x.selectionOwner == 0 then LostOwner else NewOwner(x.selectionOwner)
  }

  lemma {:induction false} LostCallReports(s: System, steps: seq<Step>, end: System)
    requires Inv(s) && s.x.call != NoCall && s.x.call.lost && Finishes(s, steps, end)
    ensures end.x.signals == s.x.signals + [Report(end.x)]
    decreases |steps|
  {
    var s1 := Next(s, steps[0]);
    StepKeepsInv(s, steps[0]);
    if s1.x.call == NoCall {
      assert steps[1..] == [] && end == s1;
    } else {
      assert s1.x.signals == s.x.signals && s1.x.call.lost;
      LostCallReports(s1, steps[1..], end);
    }
  }

  /** Handling the destruction of the tracked owner emits exactly one signal, whatever happens
      at the server meanwhile: newOwner with the owner then tracked, or lostOwner if there is
      none. */
  lemma DestructionIsReported(before: seq<Step>, s: System, steps: seq<Step>, end: System)
    requires Leads(START, before, s) && Enabled(s, Dispatch)
    requires s.x.selectionOwner != 0 && s.queue[0] == DestroyNotify(s.x.selectionOwner)
    requires Finishes(Next(s, Dispatch), steps, end)
    ensures end.x.signals == s.x.signals + [Report(end.x)]
  {
    RunKeepsInv(START, before, s);
    StepKeepsInv(s, Dispatch);
    LostCallReports(Next(s, Dispatch), steps, end);
  }

  /** The check of a call that the application or a MANAGER message caused fails. */
  predicate CheckFails(x: Watcher) {
    x.call.Checking? && !x.call.lost && !(x.call.ok && x.call.again == x.call.current)
  }

  /** In every reachable state a tracked owner stays tracked, without a signal, until its
      DestroyNotify is handled, or another owner is announced, or such a check fails; and the
      last of these is the only way in which it is forgotten without any report. */
  lemma TrackedUntil(steps: seq<Step>, s: System, step: Step)
    requires Leads(START, steps, s) && Enabled(s, step) && s.x.selectionOwner != 0
    ensures var x, x1 := s.x, Next(s, step).x;
            if step == Dispatch && s.queue[0] == DestroyNotify(x.selectionOwner)
            then x1 == x.(selectionOwner := 0, call := Asking(true))
            else if x1.selectionOwner == x.selectionOwner then x1.signals == x.signals
            else if x1.selectionOwner != 0
            then x1.signals == x.signals + [NewOwner(x1.selectionOwner)]
            else step == Advance && CheckFails(x) && x1.signals == x.signals && x1.call == NoCall
    ensures step == Advance && CheckFails(s.x) ==> Next(s, step).x.selectionOwner == 0
  {
    RunKeepsInv(START, steps, s);
  }

  lemma {:induction false} LeadsFurther(s: System, steps: seq<Step>, mid: System, step: Step)
    requires Leads(s, steps, mid) && Enabled(mid, step)
    ensures Leads(s, steps + [step], Next(mid, step))
    decreases |steps|
  {
    hide Enabled, Next;
    if steps != [] {
      LeadsFurther(Next(s, steps[0]), steps[1..], mid, step);
      assert (steps + [step])[1..] == steps[1..] + [step];
    }
  }

  lemma {:induction false} LeadsOn(s: System, steps: seq<Step>, mid: System, more: seq<Step>, end: System)
    requires Leads(s, steps, mid) && Leads(mid, more, end)
    ensures Leads(s, steps + more, end)
    decreases |more|
  {
    hide Enabled, Next;
    if more == [] {
      assert steps + more == steps;
    } else {
      LeadsFurther(s, steps, mid, more[0]);
      LeadsOn(s, steps + [more[0]], Next(mid, more[0]), more[1..], end);
      assert steps + [more[0]] + more[1..] == steps + more;
    }
  }

  lemma LeadsTwo(s: System, a: Step, b: Step)
    requires Enabled(s, a) && Enabled(Next(s, a), b)
    ensures Leads(s, [a, b], Next(Next(s, a), b))
  {
    hide Enabled, Next;
    assert Leads(s, [], s);
    LeadsFurther(s, [], s, a);
    assert [] + [a] == [a];
    LeadsFurther(s, [a], Next(s, a), b);
    assert [a] + [b] == [a, b];
  }

  /** A run in which window 1 is announced as the owner, window 2 takes over but is gone when
      the watcher looks, and window 1 is then forgotten, alive and without a lostOwner. */
  lemma SilentLoss()
    ensures exists steps :: Leads(START, steps, FORGOTTEN)
    ensures FORGOTTEN.x == Watcher(0, NoCall, [NewOwner(1)])
    ensures 1 in FORGOTTEN.alive && FORGOTTEN.queue == []
  {
    var s1 := System(Watcher(0, Asking(false), []), [], 1, 2, {1}, {});
    var s2 := System(Watcher(0, AskingAgain(false, 1, true), []), [], 1, 2, {1}, {1});
    var s3 := System(Watcher(1, NoCall, [NewOwner(1)]), [], 1, 2, {1}, {1});
    var s4 := System(Watcher(1, NoCall, [NewOwner(1)]), [], 2, 3, {1, 2}, {1});
    var s5 := System(Watcher(1, Selecting(false, 2), [NewOwner(1)]), [], 2, 3, {1, 2}, {1});
    var s6 := System(Watcher(1, AskingAgain(false, 2, false), [NewOwner(1)]), [], 0, 3, {1}, {1});
    LeadsTwo(START, Create, SetOwner(1));
    LeadsTwo(s1, Advance, Advance);
    LeadsTwo(s2, Advance, Advance);
    LeadsTwo(s3, Create, SetOwner(2));
    LeadsTwo(s4, CallOwner, Advance);
    LeadsTwo(s5, Destroy(2), Advance);
    LeadsTwo(s6, Advance, Advance);
    hide Leads;
    LeadsOn(START, [Create, SetOwner(1)], s1, [Advance, Advance], s2);
    LeadsOn(START, [Create, SetOwner(1)] + [Advance, Advance], s2, [Advance, Advance], s3);
    var toS3 := [Create, SetOwner(1)] + [Advance, Advance] + [Advance, Advance];
    LeadsOn(START, toS3, s3, [Create, SetOwner(2)], s4);
    LeadsOn(START, toS3 + [Create, SetOwner(2)], s4, [CallOwner, Advance], s5);
    var toS5 := toS3 + [Create, SetOwner(2)] + [CallOwner, Advance];
    LeadsOn(START, toS5, s5, [Destroy(2), Advance], s6);
    LeadsOn(START, toS5 + [Destroy(2), Advance], s6, [Advance, Advance], FORGOTTEN);
  }

  const FORGOTTEN: System := System(Watcher(0, NoCall, [NewOwner(1)]), [], 0, 3, {1}, {1})
}
