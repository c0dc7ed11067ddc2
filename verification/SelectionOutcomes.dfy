/** What each step of a selection owner tells the application and the server, exactly, in terms
    of what the application asked for, what the server answered and what was heard. */
module SelectionOutcomes {
  import opened SelectionOwner
  import opened SelectionSystem
  import opened SelectionInvariant
  import opened SelectionRuns

  /** The signals and the requests that a step adds, and the window reported after it. */
  predicate Does(o: Owner, o1: Owner, signals: seq<Signal>, requests: seq<Request>, reported: Window) {
    && o1.signals == o.signals + signals
    && o1.requests == o.requests + requests
    && OwnerWindowOf(o1) == reported
  }

  /** The request that gives up a reported window. */
  function GivingUp(w: Window): seq<Request> {
    if w == 0 then [] else [DestroyWindow(w)]
  }

  lemma KnownParts(steps: seq<Step>, end: System, c: Client)
    requires Leads(START, steps, end) && c in end.clients
    ensures Phases(end.clients[c]) && Sending(end.clients[c].o) && Ids(end.server, c, end.clients[c])
  {
    hide Leads, Owning, Living, Heard, Ledgered;
    Reached(steps, end, c);
    hide Phases, Sending, Ids;
  }

  /** A claim or a release destroys the window that is reported; a claim then asks who owns the
      selection. Neither says anything to the application. */
  lemma AskingExactly(sys: System, s: Step)
    requires Enabled(sys, s) && (s.AppClaim? || s.AppRelease?)
    requires Phases(sys.clients[s.c])
    ensures var o, o1 := sys.clients[s.c].o, Next(sys, s).clients[s.c].o;
            Does(o, o1, [], GivingUp(OwnerWindowOf(o)) + if s.AppClaim? then [GetOwner] else [], 0)
  {
  }

  /** The end of the first part of a claim: it fails, at once and without any request, if and
      only if the selection had an owner and the claim was not forced. Otherwise a new window is
      made, its property is changed to get a timestamp, and the owner found is listened to. */
  lemma ClaimAnswered(steps: seq<Step>, end: System, c: Client)
    requires Leads(START, steps, end) && Enabled(end, ReadReply(c)) && end.clients[c].o.call.InClaim?
    ensures var k, k1 := end.clients[c], Next(end, ReadReply(c)).clients[c];
            var w := end.server.next;
            k1.o.call == NoCall
            && if k.found != 0 && !k.forced then
                 Does(k.o, k1.o, [FailedToClaimOwnership], [], 0) && k1.o.state == Idle
               else
                 Does(k.o, k1.o, [], (if k.found != 0 then [SelectStructure(k.found)] else [])
                                     + [CreateWindow(w), ChangeProperty(w)], 0)
                 && k1.o.state == WaitingForTimestamp && k1.o.window == w
                 && Next(end, ReadReply(c)).server.creator == end.server.creator[w := c]
  {
    hide Leads, Sending;
    KnownParts(steps, end, c);
    hide Phases;
  }

  /** The end of a verification: the claim fails if and only if the server named another owner.
      Otherwise it is announced and signalled at once, with the window and the timestamp that
      were verified, unless the owner found by the claim still has to go away because force-kill
      was asked for; then the object waits for that. */
  lemma VerificationAnswered(steps: seq<Step>, end: System, c: Client)
    requires Leads(START, steps, end) && Enabled(end, ReadReply(c)) && end.clients[c].o.call == InVerify
    ensures var k, k1 := end.clients[c], Next(end, ReadReply(c)).clients[c];
            var w, t := k.o.window, k.o.timestamp;
            k1.o.call == NoCall && w != 0 && t != 0
            && if k.answer != w then
                 Does(k.o, k1.o, [FailedToClaimOwnership], [DestroyWindow(w)], 0) && k1.o.state == Idle
               else if k.found != 0 && k.found !in k.seen && k.killing then
                 Does(k.o, k1.o, [], [], w) && k1.o.timestamp == t
                 && k1.o.state == WaitingForPreviousOwner && k1.o.timer
               else
                 Does(k.o, k1.o, [ClaimedOwnership], [Announce(w, t)], w) && k1.o.timestamp == t
                 && k1.o.state == Idle && !k1.o.timer
  {
    hide Leads, Sending;
    KnownParts(steps, end, c);
  }

  /** What `answer` records: the server's owner when the verification is executed. */
  lemma AnswerIsTheOwner(sys: System, s: Step, c: Client)
    requires Enabled(sys, s) && c in sys.clients && c in Next(sys, s).clients
    ensures Next(sys, s).clients[c].answer
            == if s == Execute(c) && sys.clients[c].o.call == InVerify && sys.clients[c].o.requests[0] == GetOwner
               then sys.server.owner else sys.clients[c].answer
  {
    if s.Execute? {
      ExecutedAnswers(WithConn(sys, s.c, PopRequest(sys.clients[s.c])), s.c, sys.clients[s.c].o.requests[0], c);
    }
    hide ClaimContinued, Filtered, TimedOut, Verified, Released, MayOwn, Executed, OwnerSet, WindowGone,
      ClearFor, PropertyFor, DestroyFor;
  }

  lemma ExecutedAnswers(sys: System, e: Client, r: Request, c: Client)
    requires e in sys.clients && c in sys.clients && c in Executed(sys, e, r).clients
    ensures Executed(sys, e, r).clients[c].answer
            == if c == e && sys.clients[c].o.call == InVerify && r == GetOwner then sys.server.owner
               else sys.clients[c].answer
  {
    hide MayOwn, OwnerSet, WindowGone, ClearFor, PropertyFor, DestroyFor;
  }

  /** What `forced` and `killing` record: the arguments of the application's last claim. */
  lemma ArgumentsAreKept(sys: System, s: Step, c: Client)
    requires Enabled(sys, s) && c in sys.clients && c in Next(sys, s).clients
    ensures var k, k1 := sys.clients[c], Next(sys, s).clients[c];
            if s.AppClaim? && s.c == c then k1.forced == s.force && k1.killing == s.forceKill
            else k1.forced == k.forced && k1.killing == k.killing
  {
    if s.Execute? {
      ExecutedArguments(WithConn(sys, s.c, PopRequest(sys.clients[s.c])), s.c, sys.clients[s.c].o.requests[0], c);
    }
    hide ClaimContinued, Filtered, TimedOut, Verified, Released, MayOwn, Executed, OwnerSet, WindowGone,
      ClearFor, PropertyFor, DestroyFor;
  }

  lemma ExecutedArguments(sys: System, e: Client, r: Request, c: Client)
    requires e in sys.clients && c in sys.clients && c in Executed(sys, e, r).clients
    ensures var k, k1 := sys.clients[c], Executed(sys, e, r).clients[c];
            k1.forced == k.forced && k1.killing == k.killing
  {
    hide MayOwn, OwnerSet, WindowGone, ClearFor, PropertyFor, DestroyFor;
  }

  /** The end of the wait, by time-out: the server is asked to kill the client of the owner found,
      and once it has answered the claim is announced and signalled. */
  lemma WaitEnds(steps: seq<Step>, end: System, c: Client, s: Step)
    requires Leads(START, steps, end) && Enabled(end, s)
    requires s == TimerFires(c) || (s == ReadReply(c) && end.clients[c].o.call == InKill)
    ensures var k, k1 := end.clients[c], Next(end, s).clients[c];
            && (s == TimerFires(c) ==>
                  Does(k.o, k1.o, [], [KillClient(k.found)], OwnerWindowOf(k.o)) && k.killing && k1.o.call == InKill)
            && (s != TimerFires(c) ==>
                  Does(k.o, k1.o, [ClaimedOwnership], [Announce(k.o.window, k.o.timestamp)], OwnerWindowOf(k.o))
                  && k1.o.call == NoCall)
            && k1.o.state == Idle && !k1.o.timer && k1.o.window == k.o.window
  {
    hide Leads, Sending;
    KnownParts(steps, end, c);
  }

  /** What handling an event does. The loss of a reported window is signalled, on SelectionClear
      and on its destruction alone; the destruction of the owner found ends the wait; and the
      notification of the new window's property makes the object ask for the selection with the
      time of that event, and verify. Nothing else does anything. */
  lemma EventExactly(steps: seq<Step>, end: System, c: Client)
    requires Leads(START, steps, end) && Enabled(end, Dispatch(c))
    ensures var k, k1 := end.clients[c], Next(end, Dispatch(c)).clients[c];
            var o, o1, w := k.o, k1.o, OwnerWindowOf(k.o);
            match k.queue[0]
            case SelectionClear =>
              Does(o, o1, if w != 0 then [LostOwnership] else [],
                   if w != 0 then [DeselectAll(w), DestroyWindow(w)] else [], 0)
            case DestroyNotify(v) =>
              if o.state == WaitingForPreviousOwner && v == k.found then
                Does(o, o1, [ClaimedOwnership], [Announce(o.window, o.timestamp)], w) && o1.state == Idle && !o1.timer
              else Does(o, o1, if v == w && w != 0 then [LostOwnership] else [], [], if v == w then 0 else w)
            case PropertyNotify(v, t) =>
              if o.state == WaitingForTimestamp && v == o.window then
                Does(o, o1, [], [SetOwner(v, t), GetOwner], v) && o1.timestamp == t && o1.call == InVerify
              else Does(o, o1, [], [], w)
            case OtherEvent => Does(o, o1, [], [], w)
  {
    hide Leads, Sending;
    KnownParts(steps, end, c);
    NotifiedTime(steps, end, c);
  }

  lemma NotifiedTime(steps: seq<Step>, end: System, c: Client)
    requires Leads(START, steps, end) && Enabled(end, Dispatch(c))
    ensures end.clients[c].queue[0].PropertyNotify? ==> end.clients[c].queue[0].time != 0
  {
    hide Leads, Shape, Ids, Living, Owning;
    Reached(steps, end, c);
    assert end.clients[c].queue[0] in end.clients[c].queue;
  }

  /** No other step tells an application anything, or changes what its object reports. */
  lemma OthersSayNothing(sys: System, s: Step, c: Client)
    requires Enabled(sys, s) && c in sys.clients && c in Next(sys, s).clients
    requires match s
             case AppClaim(d, _, _) => d != c
             case AppRelease(d) => d != c
             case Dispatch(d) => d != c
             case ReadReply(d) => d != c
             case TimerFires(d) => d != c
             case _ => true
    ensures var o, o1 := sys.clients[c].o, Next(sys, s).clients[c].o;
            o1 == o.(requests := if s == Execute(c) then o.requests[1..] else o.requests)
  {
    if s.Execute? {
      ExecutedSaysNothing(WithConn(sys, s.c, PopRequest(sys.clients[s.c])), s.c, sys.clients[s.c].o.requests[0], c);
    }
    hide ClaimContinued, Filtered, TimedOut, Verified, Released, MayOwn, Executed, OwnerSet, WindowGone,
      ClearFor, PropertyFor, DestroyFor;
  }

  lemma ExecutedSaysNothing(sys: System, e: Client, r: Request, c: Client)
    requires e in sys.clients && c in sys.clients && c in Executed(sys, e, r).clients
    ensures Executed(sys, e, r).clients[c].o == sys.clients[c].o
  {
    hide MayOwn, OwnerSet, WindowGone, ClearFor, PropertyFor, DestroyFor;
  }
}
