/** When the owner that the watcher tracks is the server's owner: the exact condition over runs,
    and what MANAGER messages do for it. */
module WatcherTracking {
  import opened SelectionWatcher

  // ---------------------------------------------------------------- history

  /** What a run has brought so far. Of the last call of owner() that got its first answer:
      `found` is that answer, `was` the window tracked until then, and `passed` says whether its
      check has passed. `changed` says whether the server's owner has changed since that answer,
      and `told` whether, since its last change, a MANAGER message was sent or the application
      called owner(). */
  datatype Past = Past(found: Window, was: Window, passed: bool, changed: bool, told: bool)

  const NO_PAST: Past := Past(0, 0, false, false, true)

  predicate CheckPasses(x: Watcher) {
    x.call.Checking? && x.call.ok && x.call.again == x.call.current
  }

  function Remembered(s: System, step: Step, p: Past): Past
    requires Enabled(s, step)
  {
    var moved := Next(s, step).owner != s.owner;
    var told := !moved && (p.told || step == CallOwner || step == Other(ManagerMessage(true)));
    if step == Advance && s.x.call.Asking? then Past(s.owner, s.x.selectionOwner, false, false, told)
    else
      p.(passed := p.passed || (step == Advance && CheckPasses(s.x)),
         changed := p.changed || moved,
         told := told)
  }

  /** The steps lead from s with the past p to end with the past q. */
  ghost predicate Traces(s: System, p: Past, steps: seq<Step>, end: System, q: Past)
    decreases |steps|
  {
    if steps == [] then end == s && q == p
    else Enabled(s, steps[0]) && Traces(Next(s, steps[0]), Remembered(s, steps[0], p), steps[1..], end, q)
  }

  /** Every run has its past. */
  lemma {:induction false} EveryRunHasAPast(s: System, p: Past, steps: seq<Step>, end: System) returns (q: Past)
    requires Leads(s, steps, end)
    ensures Traces(s, p, steps, end, q)
    decreases |steps|
  {
    if steps == [] {
      return p;
    }
    hide Enabled, Next, Remembered;
    q := EveryRunHasAPast(Next(s, steps[0]), Remembered(s, steps[0], p), steps[1..], end);
  }

  lemma {:induction false} TracesLeads(s: System, p: Past, steps: seq<Step>, end: System, q: Past)
    requires Traces(s, p, steps, end, q)
    ensures Leads(s, steps, end)
    decreases |steps|
  {
    hide Enabled, Next, Remembered;
    if steps != [] {
      TracesLeads(Next(s, steps[0]), Remembered(s, steps[0], p), steps[1..], end, q);
    }
  }

  // ---------------------------------------------------------------- the invariant

  /** What a call of owner() leaves as the tracked owner. */
  function Outcome(p: Past): Window {
    if p.found == 0 then p.was
    else if p.found == p.was || p.passed then p.found
    else 0
  }

  /** A call that has its first answer and goes on. */
  predicate Looking(x: Watcher, p: Past)
    requires x.call.Selecting? || x.call.AskingAgain? || x.call.Checking?
  {
    && x.call.current == p.found != 0 && x.selectionOwner == p.was != p.found && !p.passed
  }

  /** As long as the server's owner stays, a call under way will confirm it. */
  predicate Recalls(s: System, p: Past) {
    var x := s.x;
    && (!x.call.Asking? && !p.changed ==> s.owner == p.found)
    && (x.call == NoCall ==> x.selectionOwner == Outcome(p))
    && (x.call == NoCall && !p.changed && p.found != 0 ==> x.selectionOwner == p.found)
    && (x.call.Selecting? || x.call.AskingAgain? || x.call.Checking? ==> Looking(x, p))
    && ((x.call.AskingAgain? || x.call.Checking?) && !p.changed ==> x.call.ok)
    && (x.call.Checking? && !p.changed ==> x.call.again == p.found)
  }

  /** What was told is in the queue, or being looked at, or has been looked at. */
  predicate Heeds(s: System, p: Past) {
    p.told && p.changed ==> s.x.call.Asking? || ManagerMessage(true) in s.queue
  }

  lemma StepRecalls(s: System, p: Past, step: Step)
    requires Inv(s) && Enabled(s, step) && Recalls(s, p)
    ensures Recalls(Next(s, step), Remembered(s, step, p))
  {
    hide Watched, Paired, LastIsNew;
  }

  lemma StepHeeds(s: System, p: Past, step: Step)
    requires Enabled(s, step) && Heeds(s, p)
    ensures Heeds(Next(s, step), Remembered(s, step, p))
  {
    if step.Dispatch? {
      assert forall e :: e in s.queue <==> e == s.queue[0] || e in s.queue[1..];
    } else if step.Other? {
      assert step.event in s.queue + [step.event];
    }
  }

  lemma {:induction false} RunRecalls(s: System, p: Past, steps: seq<Step>, end: System, q: Past)
    requires Inv(s) && Recalls(s, p) && Heeds(s, p) && Traces(s, p, steps, end, q)
    ensures Inv(end) && Recalls(end, q) && Heeds(end, q)
    decreases |steps|
  {
    hide Inv, Recalls, Heeds, Enabled, Next, Remembered;
    if steps != [] {
      StepKeepsInv(s, steps[0]);
      StepRecalls(s, p, steps[0]);
      StepHeeds(s, p, steps[0]);
      RunRecalls(Next(s, steps[0]), Remembered(s, steps[0], p), steps[1..], end, q);
    }
  }

  lemma FromStart(steps: seq<Step>, end: System, q: Past)
    requires Traces(START, NO_PAST, steps, end, q)
    ensures Inv(end) && Recalls(end, q) && Heeds(end, q)
  {
    hide Traces;
    assert Inv(START) && Recalls(START, NO_PAST) && Heeds(START, NO_PAST);
    hide Inv, Recalls, Heeds;
    RunRecalls(START, NO_PAST, steps, end, q);
  }

  // ---------------------------------------------------------------- all runs

  /** Between calls of owner(), in every run: the tracked owner is the server's owner if and only
      if the server's owner now is what the last call found and could confirm; or, if that call
      found no owner, what had been tracked before it; or, if its check failed, none. */
  lemma TrackedExactly(steps: seq<Step>, end: System, q: Past)
    requires Traces(START, NO_PAST, steps, end, q) && end.x.call == NoCall
    ensures end.x.selectionOwner == end.owner
            <==> if q.found == 0 then end.owner == q.was
                 else if q.found == q.was || q.passed then end.owner == q.found
                 else end.owner == 0
  {
    hide Traces, Inv, Heeds;
    FromStart(steps, end, q);
  }

  /** While the server's owner stays what it was when the last call asked, and nothing is left to
      be handled, the tracked owner is the server's owner, except in one case: the selection has
      no owner, and the tracked window, alive, is one that gave it up. */
  lemma StableOwnerIsTracked(steps: seq<Step>, end: System, q: Past)
    requires Traces(START, NO_PAST, steps, end, q) && end.x.call == NoCall && end.queue == []
    requires !q.changed
    ensures end.x.selectionOwner == end.owner <==> end.owner != 0 || end.x.selectionOwner !in end.alive
  {
    hide Traces, Heeds;
    FromStart(steps, end, q);
  }

  /** The convention of manager selections (ICCCM section 2.8) is what the watcher relies on: if
      a MANAGER message was sent, or owner() called, after the last change of the owner, then as
      soon as everything is handled the tracked owner is the server's owner, with the same one
      exception. No other events are needed, and none can spoil it. */
  lemma AnnouncedOwnerIsTracked(steps: seq<Step>, end: System, q: Past)
    requires Traces(START, NO_PAST, steps, end, q) && end.x.call == NoCall && end.queue == []
    requires q.told
    ensures end.x.selectionOwner == end.owner <==> end.owner != 0 || end.x.selectionOwner !in end.alive
  {
    assert !q.changed by {
      FromStart(steps, end, q);
    }
    StableOwnerIsTracked(steps, end, q);
  }

  // ---------------------------------------------------------------- what is said, and what is asked

  /** What every step tells the application, from every reachable state: an owner when it comes to
      be tracked, and a loss when a call that a destruction has caused ends with none; nothing
      else. */
  lemma SignalsExactly(steps: seq<Step>, s: System, step: Step)
    requires Leads(START, steps, s) && Enabled(s, step)
    ensures var x, x1 := s.x, Next(s, step).x;
            x1.signals
            == x.signals
               + if x1.selectionOwner != x.selectionOwner && x1.selectionOwner != 0 then [NewOwner(x1.selectionOwner)]
                 else if x.call != NoCall && x1.call == NoCall && x.call.lost && x1.selectionOwner == 0 then [LostOwner]
                 else []
  {
    RunKeepsInv(START, steps, s);
    hide Paired, LastIsNew, Watched;
    assert s.x.signals + [] == s.x.signals;
  }

  /** When a call begins and what it asks: the application's call, a MANAGER message for us and the
      destruction of the tracked owner begin one, and nothing else; it asks for the owner,
      subscribes to it if it is a new one, asks again, and checks. */
  lemma CallsExactly(s: System, step: Step)
    requires Enabled(s, step)
    ensures var x, x1 := s.x, Next(s, step).x;
            match x.call
            case NoCall =>
              if step == CallOwner || (step == Dispatch && s.queue[0] == ManagerMessage(true)) then
                x1.call == Asking(false) && x1.selectionOwner == x.selectionOwner
              else if step == Dispatch && x.selectionOwner != 0 && s.queue[0] == DestroyNotify(x.selectionOwner) then
                x1.call == Asking(true) && x1.selectionOwner == 0
              else x1 == x
            case Asking(lost) =>
              if step != Advance then x1 == x
              else
                x1.selectionOwner == x.selectionOwner
                && x1.call == if s.owner == 0 || s.owner == x.selectionOwner then NoCall else Selecting(lost, s.owner)
            case Selecting(lost, w) =>
              if step != Advance then x1 == x
              else
                x1 == x.(call := AskingAgain(lost, w, w in s.alive))
                && Next(s, step).selects == if w in s.alive then s.selects + {w} else s.selects
            case AskingAgain(lost, w, ok) =>
              x1 == if step != Advance then x else x.(call := Checking(lost, w, ok, s.owner))
            case Checking(_, w, ok, again) =>
              if step != Advance then x1 == x
              else x1.call == NoCall && x1.selectionOwner == if ok && again == w then w else 0
  {
  }

  // ---------------------------------------------------------------- owners that are not noticed

  ghost predicate Reachable(s: System) {
    exists steps :: Leads(START, steps, s)
  }

  lemma Goes(s: System, a: Step, b: Step)
    requires Reachable(s) && Enabled(s, a) && Enabled(Next(s, a), b)
    ensures Reachable(Next(Next(s, a), b))
  {
    hide Enabled, Next;
    var steps :| Leads(START, steps, s);
    LeadsTwo(s, a, b);
    LeadsOn(START, steps, s, [a, b], Next(Next(s, a), b));
  }

  /** Window 1 is announced as the owner and subscribed to. */
  const ANNOUNCED: System := System(Watcher(1, NoCall, [NewOwner(1)]), [], 1, 2, {1}, {1})

  lemma OwnerAnnounced()
    ensures Reachable(ANNOUNCED)
  {
    var s1 := System(Watcher(0, Asking(false), []), [], 1, 2, {1}, {});
    var s2 := System(Watcher(0, AskingAgain(false, 1, true), []), [], 1, 2, {1}, {1});
    assert Leads(START, [], START);
    assert Next(Next(START, Create), SetOwner(1)) == s1;
    assert Next(Next(s1, Advance), Advance) == s2;
    assert Next(Next(s2, Advance), Advance) == ANNOUNCED;
    hide Reachable;
    assert Reachable(START) by {
      StartIsReachable();
    }
    Goes(START, Create, SetOwner(1));
    Goes(s1, Advance, Advance);
    Goes(s2, Advance, Advance);
  }

  lemma StartIsReachable()
    ensures Reachable(START)
  {
    assert Leads(START, [], START);
  }

  /** Another window takes the selection without a MANAGER message: nothing is left to handle,
      and the watcher still tracks window 1. */
  lemma OwnerNotNoticed()
    ensures Reachable(System(ANNOUNCED.x, [], 2, 3, {1, 2}, {1})) && ANNOUNCED.x == Watcher(1, NoCall, [NewOwner(1)])
  {
    OwnerAnnounced();
    hide Reachable;
    assert Next(Next(ANNOUNCED, Create), SetOwner(2)) == System(ANNOUNCED.x, [], 2, 3, {1, 2}, {1});
    Goes(ANNOUNCED, Create, SetOwner(2));
  }

  /** The owner gives the selection up but keeps its window. A MANAGER message makes the watcher
      look, but it goes on tracking window 1 although the selection has no owner. */
  lemma ReleaseNotNoticed()
    ensures Reachable(System(ANNOUNCED.x, [], 0, 2, {1}, {1})) && ANNOUNCED.x == Watcher(1, NoCall, [NewOwner(1)])
  {
    OwnerAnnounced();
    hide Reachable;
    var s1 := System(ANNOUNCED.x, [ManagerMessage(true)], 0, 2, {1}, {1});
    assert Next(Next(ANNOUNCED, SetOwner(0)), Other(ManagerMessage(true))) == s1;
    Goes(ANNOUNCED, SetOwner(0), Other(ManagerMessage(true)));
    assert s1.queue[1..] == [];
    assert Next(Next(s1, Dispatch), Advance) == System(ANNOUNCED.x, [], 0, 2, {1}, {1});
    Goes(s1, Dispatch, Advance);
  }
}
