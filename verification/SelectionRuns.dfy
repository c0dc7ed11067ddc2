/** What holds in all runs of the selection system. */
module SelectionRuns {
  import opened SelectionOwner
  import opened SelectionSystem
  import opened SelectionInvariant

  // ---------------------------------------------------------------- every step keeps the invariant

  /** The client c takes a step of its own, of which the others notice nothing. */
  lemma OneChanges(sys: System, c: Client, sv1: Server, k1: Conn)
    requires Inv(sys) && c in sys.clients && ServerOk(sv1) && ClientOk(sv1, c, k1)
    requires forall d :: d != c ==> Grown(sys.server, sv1, d)
    ensures Inv(System(sv1, sys.clients[c := k1]))
  {
    hide Shape, Tied, ServerOk, Grown;
    forall d | d in sys.clients && d != c ensures Tied(sv1, d, sys.clients[d]) {
      OthersGrowKeepsTied(sys.server, sv1, d, sys.clients[d]);
    }
  }

  lemma AllocatedFacts(sv: Server, c: Client)
    requires ServerOk(sv)
    ensures ServerOk(Allocated(sv, c)) && forall d :: Grown(sv, Allocated(sv, c), d)
    ensures forall d :: Grown(sv, sv, d)
  {
    forall d ensures Grown(sv, Allocated(sv, c), d) {
    }
  }

  lemma OwnStepKeepsInv(sys: System, c: Client, sv1: Server, k1: Conn)
    requires Inv(sys) && c in sys.clients
    requires sv1 == sys.server || sv1 == Allocated(sys.server, c)
    requires ClientOk(sv1, c, k1)
    ensures Inv(System(sv1, sys.clients[c := k1]))
  {
    hide ClientOk, ServerOk, Grown, Allocated;
    AllocatedFacts(sys.server, c);
    OneChanges(sys, c, sv1, k1);
  }

  lemma TimerAtLoop(k: Conn)
    requires Shape(k) && k.o.timer
    ensures Phases(k) && k.o.call == NoCall
  {
  }

  lemma LoopStepKeepsInv(sys: System, s: Step)
    requires Inv(sys) && Enabled(sys, s)
    requires s.AppClaim? || s.AppRelease? || s.Dispatch? || s.TimerFires?
    ensures Inv(Next(sys, s))
  {
    hide Shape, Tied, ServerOk;
    var c := s.c;
    var k := sys.clients[c];
    match s
    case AppClaim(_, force, kill) => ClaimKeepsOk(sys.server, c, k, force, kill);
    case AppRelease(_) => ReleaseKeepsOk(sys.server, c, k);
    case Dispatch(_) => DispatchKeepsOk(sys.server, c, k);
    case TimerFires(_) =>
      TimerAtLoop(k);
      TimerShape(k);
      TimerTied(sys.server, c, k);
    OwnStepKeepsInv(sys, c, sys.server, Next(sys, s).clients[c]);
  }

  lemma ReplyKeepsInv(sys: System, c: Client)
    requires Inv(sys) && Enabled(sys, ReadReply(c))
    ensures Inv(Next(sys, ReadReply(c)))
  {
    hide Shape, Tied, ServerOk, ClaimContinued, Verified;
    var k := sys.clients[c];
    var sv := sys.server;
    if k.o.call == InVerify {
      VerifyKeepsOk(sv, c, k);
      OwnStepKeepsInv(sys, c, sv, VerifiedBy(k));
    } else if k.o.call == InKill {
      PhasesOfShape(k);
      KilledShape(k);
      KilledTied(sv, c, k);
      OwnStepKeepsInv(sys, c, sv, KilledBy(k));
    } else if k.reply.value != 0 && !k.o.call.force {
      PhasesOfShape(k);
      FailedClaimShape(k);
      FailedClaimTied(sv, c, k);
      FailedClaimIs(k, sv.next);
      OwnStepKeepsInv(sys, c, sv, FailedClaim(k));
    } else {
      StartedClaimKeepsOk(sv, c, k);
      OwnStepKeepsInv(sys, c, Allocated(sv, c), ClaimUnderWay(k, sv.next));
    }
  }

  /** A failed claim needs no window. */
  lemma FailedClaimIs(k: Conn, w: Window)
    requires k.o.call.InClaim? && k.reply.Some? && k.reply.value != 0 && !k.o.call.force
    ensures k.(o := ClaimContinued(k.o, k.reply.value, w), reply := None) == FailedClaim(k)
  {
  }

  /** The server changes and tells every client. */
  lemma ToldKeepsInv(sys: System, sv1: Server, evs: Client -> seq<Event>)
    requires ServerOk(sv1)
    requires forall c :: c in sys.clients ==> Shape(sys.clients[c])
    requires forall c :: c in sys.clients ==> Tied(sv1, c, Post(sys.clients[c], evs(c)))
    ensures Inv(Told(sys, sv1, evs))
  {
    forall c | c in sys.clients ensures Shape(Post(sys.clients[c], evs(c))) {
      PostShape(sys.clients[c], evs(c));
    }
    hide Tied, Shape;
  }

  lemma PostShape(k: Conn, evs: seq<Event>)
    requires Shape(k)
    ensures Shape(Post(k, evs))
  {
    hide Sending, Ledgered;
  }

  lemma GoneKeepsTied(sv: Server, w: Window, c: Client, k: Conn)
    requires ServerOk(sv) && ClientOk(sv, c, k)
    ensures Tied(WindowGone(sv, w), c, Post(k, DestroyFor(sv, w, c)))
  {
    hide Phases, Ids, Living, Heard, Owning, ServerOk;
    GoneLinked(sv, w, c, k);
    GoneOwning(sv, w, c, k);
  }

  lemma PropertyKeepsTied(sv: Server, w: Window, c: Client, k: Conn)
    requires ServerOk(sv) && ClientOk(sv, c, k)
    ensures Tied(sv, c, Post(k, PropertyFor(sv, w, c)))
  {
    hide Phases, Ids, Living, Heard, Owning, ServerOk;
    PropertyLinked(sv, w, c, k);
    PropertyOwning(sv, w, c, k);
  }

  lemma OwnerChangeKeepsTied(sv: Server, w: Window, t: Time, src: Client, c: Client, k: Conn)
    requires ServerOk(sv) && ClientOk(sv, c, k)
    requires c != src && !Mine(sv, c, w) && MayOwn(sv, w, t)
    ensures Tied(OwnerSet(sv, w, t), c, Post(k, ClearFor(sv, src, c)))
  {
    hide Phases, Sending, Ids, Living, Heard, Owning, ServerOk;
    OwnerChangeLinked(sv, w, t, src, c, k);
    OwnerChangeOwning(sv, w, t, src, c, k);
  }

  lemma DestroyStepKeepsInv(sys: System, w: Window)
    requires Inv(sys)
    ensures Inv(Told(sys, WindowGone(sys.server, w), (d: Client) => DestroyFor(sys.server, w, d)))
  {
    hide Shape, Tied;
    forall d | d in sys.clients
      ensures Tied(WindowGone(sys.server, w), d, Post(sys.clients[d], DestroyFor(sys.server, w, d)))
    {
      GoneKeepsTied(sys.server, w, d, sys.clients[d]);
    }
    ToldKeepsInv(sys, WindowGone(sys.server, w), (d: Client) => DestroyFor(sys.server, w, d));
  }

  lemma PropertyStepKeepsInv(sys: System, w: Window)
    requires Inv(sys)
    ensures Inv(Told(sys, sys.server, (d: Client) => PropertyFor(sys.server, w, d)))
  {
    hide Shape, Tied, ServerOk;
    forall d | d in sys.clients
      ensures Tied(sys.server, d, Post(sys.clients[d], PropertyFor(sys.server, w, d)))
    {
      PropertyKeepsTied(sys.server, w, d, sys.clients[d]);
    }
    ToldKeepsInv(sys, sys.server, (d: Client) => PropertyFor(sys.server, w, d));
  }

  /** A foreign client changes the owner. */
  lemma ForeignOwnerKeepsInv(sys: System, f: Client, w: Window, t: Time)
    requires Inv(sys) && f !in sys.clients && (w == 0 || Mine(sys.server, f, w))
    requires MayOwn(sys.server, w, t)
    ensures Inv(Told(sys, OwnerSet(sys.server, w, t), (d: Client) => ClearFor(sys.server, f, d)))
  {
    hide Shape, Tied;
    var sv1 := OwnerSet(sys.server, w, t);
    forall d | d in sys.clients
      ensures Tied(sv1, d, Post(sys.clients[d], ClearFor(sys.server, f, d)))
    {
      OwnerChangeKeepsTied(sys.server, w, t, f, d, sys.clients[d]);
    }
    ToldKeepsInv(sys, sv1, (d: Client) => ClearFor(sys.server, f, d));
  }

  lemma NewConnOk(sv: Server, c: Client)
    requires ServerOk(sv) && forall w :: w in sv.creator ==> sv.creator[w] != c
    ensures ClientOk(sv, c, NEW_CONN)
  {
  }

  lemma JoinKeepsInv(sys: System, c: Client)
    requires Inv(sys) && Enabled(sys, Join(c))
    ensures Inv(Next(sys, Join(c)))
  {
    NewConnOk(sys.server, c);
    hide ClientOk, ServerOk;
  }

  /** The server changes in a way no client has to be told about. */
  lemma QuietKeepsInv(sys: System, sv1: Server)
    requires Inv(sys) && ServerOk(sv1)
    requires forall d :: d in sys.clients ==> Grown(sys.server, sv1, d)
    ensures Inv(System(sv1, sys.clients))
  {
    hide Shape, Tied, Grown, ServerOk;
    forall d | d in sys.clients ensures Tied(sv1, d, sys.clients[d]) {
      OthersGrowKeepsTied(sys.server, sv1, d, sys.clients[d]);
    }
  }

  // ---------------------------------------------------------------- executing requests

  lemma ExecuteGetOwner(sys: System, c: Client)
    requires Inv(sys) && Enabled(sys, Execute(c)) && sys.clients[c].o.requests[0].GetOwner?
    ensures Inv(Next(sys, Execute(c)))
  {
    hide Shape, Tied, Phases, Sending, ServerOk;
    var k := sys.clients[c];
    PhasesOfShape(k);
    GetOwnerShape(sys.server, k);
    GetOwnerTied(sys.server, c, k);
    OwnStepKeepsInv(sys, c, sys.server, Answered(sys.server, PopRequest(k)));
  }

  /** Popping a request keeps the invariant, except for the four kinds treated apart. */
  lemma PopKeepsInv(sys: System, c: Client)
    requires Inv(sys) && Enabled(sys, Execute(c))
    requires var r := sys.clients[c].o.requests[0];
             !r.GetOwner? && !r.CreateWindow? && !r.DestroyWindow? && !r.KillClient?
    ensures Inv(WithConn(sys, c, PopRequest(sys.clients[c])))
  {
    hide ClientOk, ServerOk;
    PopKeepsOk(sys.server, c, sys.clients[c]);
    OwnStepKeepsInv(sys, c, sys.server, PopRequest(sys.clients[c]));
  }

  lemma CreateFacts(sv: Server, c: Client, k: Conn)
    requires ServerOk(sv) && ClientOk(sv, c, k) && k.o.requests != [] && k.o.requests[0].CreateWindow?
    ensures k.o.requests[0].window == k.o.window && ServerOk(Created(sv, c, k.o.window))
    ensures ClientOk(Created(sv, c, k.o.window), c, PopRequest(k))
    ensures forall d :: d != c ==> Grown(sv, Created(sv, c, k.o.window), d)
  {
    CreateIsFirst(sv, c, k);
    assert ServerOk(Created(sv, c, k.o.window));
    forall d | d != c ensures Grown(sv, Created(sv, c, k.o.window), d) {
    }
    hide Phases, Sending, Ledgered, Ids, Living, Heard, Owning, ServerOk, Grown, Created;
    PopShape(k);
    CreateLinked(sv, c, k);
    CreateOwning(sv, c, k);
  }

  lemma ExecuteCreate(sys: System, c: Client)
    requires Inv(sys) && Enabled(sys, Execute(c)) && sys.clients[c].o.requests[0].CreateWindow?
    ensures Inv(Next(sys, Execute(c)))
  {
    hide ClientOk, ServerOk, Grown;
    var k := sys.clients[c];
    CreateFacts(sys.server, c, k);
    OneChanges(sys, c, Created(sys.server, c, k.o.window), PopRequest(k));
  }

  lemma DestroyRequestOk(sv: Server, c: Client, k: Conn)
    requires ServerOk(sv) && ClientOk(sv, c, k) && k.o.requests != [] && k.o.requests[0].DestroyWindow?
    ensures var w := k.o.requests[0].window;
            && ServerOk(WindowGone(sv, w)) && Shape(PopRequest(k))
            && Tied(WindowGone(sv, w), c, Post(PopRequest(k), DestroyFor(sv, w, c)))
  {
    assert ServerOk(WindowGone(sv, k.o.requests[0].window));
    hide Phases, Sending, Ledgered, Ids, Living, Heard, Owning, ServerOk;
    PopShape(k);
    DestroyRequestLinked(sv, c, k);
    DestroyRequestOwning(sv, c, k);
  }

  lemma ExecuteDestroy(sys: System, c: Client)
    requires Inv(sys) && Enabled(sys, Execute(c)) && sys.clients[c].o.requests[0].DestroyWindow?
    ensures Inv(Next(sys, Execute(c)))
  {
    hide Shape, Tied, ServerOk;
    var k := sys.clients[c];
    var w := k.o.requests[0].window;
    var sv1 := WindowGone(sys.server, w);
    var evs := (d: Client) => DestroyFor(sys.server, w, d);
    var sys1 := WithConn(sys, c, PopRequest(k));
    DestroyRequestOk(sys.server, c, k);
    forall d | d in sys1.clients ensures Tied(sv1, d, Post(sys1.clients[d], evs(d))) {
      if d != c {
        GoneKeepsTied(sys.server, w, d, sys.clients[d]);
      }
    }
    ToldKeepsInv(sys1, sv1, evs);
  }

  lemma SetOwnerOk(sv: Server, c: Client, k: Conn)
    requires ServerOk(sv) && ClientOk(sv, c, k) && k.o.requests != [] && k.o.requests[0].SetOwner?
    ensures var SetOwner(w, t) := k.o.requests[0];
            && ServerOk(OwnerSet(sv, w, t)) && Mine(sv, c, w) && ClientOk(OwnerSet(sv, w, t), c, PopRequest(k))
  {
    SetOwnerFacts(k);
    assert ServerOk(OwnerSet(sv, k.o.window, k.o.timestamp));
    assert Mine(sv, c, k.o.window);
    hide Phases, Sending, Ledgered, Ids, Living, Heard, Owning, ServerOk, OwnerSet;
    PopShape(k);
    SetOwnerLinked(sv, c, k);
    SetOwnerOwning(sv, c, k);
  }

  lemma ExecuteSetOwner(sys: System, c: Client)
    requires Inv(sys) && Enabled(sys, Execute(c)) && sys.clients[c].o.requests[0].SetOwner?
    ensures Inv(Next(sys, Execute(c)))
  {
    hide ClientOk, ServerOk, MayOwn, OwnerSet;
    var k := sys.clients[c];
    var SetOwner(w, t) := k.o.requests[0];
    if MayOwn(sys.server, w, t) {
      SetOwnerOk(sys.server, c, k);
      SetOwnerTold(sys, c, w, t);
    } else {
      PopKeepsInv(sys, c);
    }
  }

  lemma SetOwnerTold(sys: System, c: Client, w: Window, t: Time)
    requires Inv(sys) && c in sys.clients && sys.clients[c].o.requests != []
    requires MayOwn(sys.server, w, t) && Mine(sys.server, c, w) && ServerOk(OwnerSet(sys.server, w, t))
    requires ClientOk(OwnerSet(sys.server, w, t), c, PopRequest(sys.clients[c]))
    ensures Inv(Told(WithConn(sys, c, PopRequest(sys.clients[c])), OwnerSet(sys.server, w, t),
                     (d: Client) => ClearFor(sys.server, c, d)))
  {
    hide Shape, Tied, ServerOk, MayOwn;
    var k1 := PopRequest(sys.clients[c]);
    var sv1 := OwnerSet(sys.server, w, t);
    var evs := (d: Client) => ClearFor(sys.server, c, d);
    var sys1 := WithConn(sys, c, k1);
    forall d | d in sys1.clients ensures Tied(sv1, d, Post(sys1.clients[d], evs(d))) {
      if d != c {
        OwnerChangeKeepsTied(sys.server, w, t, c, d, sys.clients[d]);
      } else {
        assert k1.queue + [] == k1.queue;
      }
    }
    ToldKeepsInv(sys1, sv1, evs);
  }

  lemma DeselectFacts(sv: Server, c: Client, k: Conn)
    requires ServerOk(sv) && ClientOk(sv, c, k) && k.o.requests != [] && k.o.requests[0].DeselectAll?
    ensures var sv1 := sv.(selects := sv.selects - {(c, k.o.requests[0].window)});
            && ServerOk(sv1) && ClientOk(sv1, c, PopRequest(k)) && forall d :: d != c ==> Grown(sv, sv1, d)
  {
    var sv1 := sv.(selects := sv.selects - {(c, k.o.requests[0].window)});
    forall d | d != c ensures Grown(sv, sv1, d) {
    }
    assert ServerOk(sv1);
    hide Phases, Sending, Ledgered, Ids, Living, Heard, Owning, ServerOk, Grown;
    PopShape(k);
    DeselectTied(sv, c, k);
  }

  lemma ExecuteDeselect(sys: System, c: Client)
    requires Inv(sys) && Enabled(sys, Execute(c)) && sys.clients[c].o.requests[0].DeselectAll?
    ensures Inv(Next(sys, Execute(c)))
  {
    hide ClientOk, ServerOk, Grown;
    var k := sys.clients[c];
    DeselectFacts(sys.server, c, k);
    OneChanges(sys, c, sys.server.(selects := sys.server.selects - {(c, k.o.requests[0].window)}), PopRequest(k));
  }

  lemma GoneFacts(sv: Server, d: Client)
    requires ServerOk(sv)
    ensures var sv1 := sv.(gone := sv.gone + {d});
            ServerOk(sv1) && forall e :: Grown(sv, sv1, e)
  {
    forall e ensures Grown(sv, sv.(gone := sv.gone + {d}), e) {
    }
  }

  /** The killed client disappears; the others notice nothing but the answer. */
  lemma ExecuteKill(sys: System, c: Client)
    requires Inv(sys) && Enabled(sys, Execute(c)) && sys.clients[c].o.requests[0].KillClient?
    ensures Inv(Next(sys, Execute(c)))
  {
    hide Shape, Tied, Phases, Sending, ServerOk, Grown;
    var k := sys.clients[c];
    var w := k.o.requests[0].window;
    PhasesOfShape(k);
    KillShape(k, w);
    KillTied(sys.server, c, k, w);
    OwnStepKeepsInv(sys, c, sys.server, Checked(PopRequest(k), w));
    var sys1 := System(sys.server, sys.clients[c := Checked(PopRequest(k), w)]);
    assert sys.clients[c := PopRequest(k)][c := Checked(PopRequest(k), w)] == sys1.clients;
    if w in sys.server.alive && w in sys.server.creator {
      GoneFacts(sys.server, sys.server.creator[w]);
      QuietKeepsInv(sys1, Next(sys, Execute(c)).server);
    }
  }

  lemma SelectFacts(sv: Server, ss: set<(Client, Window)>)
    requires ServerOk(sv) && sv.selects <= ss
    ensures ServerOk(sv.(selects := ss))
    ensures forall d :: Grown(sv, sv.(selects := ss), d)
  {
    forall d ensures Grown(sv, sv.(selects := ss), d) {
    }
  }

  lemma ExecuteKeepsInv(sys: System, c: Client)
    requires Inv(sys) && Enabled(sys, Execute(c))
    ensures Inv(Next(sys, Execute(c)))
  {
    hide ClientOk, ServerOk, Grown;
    var k := sys.clients[c];
    var sys1 := WithConn(sys, c, PopRequest(k));
    match k.o.requests[0]
    case GetOwner => ExecuteGetOwner(sys, c);
    case CreateWindow(_) => ExecuteCreate(sys, c);
    case DestroyWindow(_) => ExecuteDestroy(sys, c);
    case SetOwner(_, _) => ExecuteSetOwner(sys, c);
    case DeselectAll(_) => ExecuteDeselect(sys, c);
    case SelectStructure(w) =>
      PopKeepsInv(sys, c);
      SelectFacts(sys.server, sys.server.selects + {(c, w)});
      QuietKeepsInv(sys1, sys.server.(selects := sys.server.selects + {(c, w)}));
    case ChangeProperty(w) =>
      PopKeepsInv(sys, c);
      PropertyStepKeepsInv(sys1, w);
    case KillClient(_) => ExecuteKill(sys, c);
    case Announce(_, _) => PopKeepsInv(sys, c);
  }

  lemma WindowFacts(sys: System, f: Client)
    requires ServerOk(sys.server) && Enabled(sys, ForeignWindow(f))
    ensures var sv1 := Next(sys, ForeignWindow(f)).server;
            ServerOk(sv1) && forall d :: d in sys.clients ==> Grown(sys.server, sv1, d)
  {
    forall d | d in sys.clients ensures Grown(sys.server, Next(sys, ForeignWindow(f)).server, d) {
    }
  }

  lemma TimeFacts(sv: Server, sv1: Server)
    requires ServerOk(sv) && sv1 == sv.(now := sv.now + 1)
    ensures ServerOk(sv1) && forall d :: Grown(sv, sv1, d)
  {
    forall d ensures Grown(sv, sv1, d) {
    }
  }

  /** Every step of every client, of the server and of the environment keeps the invariant. */
  lemma StepKeepsInv(sys: System, s: Step)
    requires Inv(sys) && Enabled(sys, s)
    ensures Inv(Next(sys, s))
  {
    hide ClientOk, ServerOk, Grown;
    match s
    case AppClaim(_, _, _) => LoopStepKeepsInv(sys, s);
    case AppRelease(_) => LoopStepKeepsInv(sys, s);
    case Dispatch(_) => LoopStepKeepsInv(sys, s);
    case TimerFires(_) => LoopStepKeepsInv(sys, s);
    case ReadReply(c) => ReplyKeepsInv(sys, c);
    case Execute(c) => ExecuteKeepsInv(sys, c);
    case Join(c) => JoinKeepsInv(sys, c);
    case ForeignWindow(f) =>
      WindowFacts(sys, f);
      QuietKeepsInv(sys, Next(sys, s).server);
    case ForeignSetOwner(f, w, t) =>
      if MayOwn(sys.server, w, t) {
        ForeignOwnerKeepsInv(sys, f, w, t);
      }
    case ForeignProperty(w) => PropertyStepKeepsInv(sys, w);
    case ForeignDestroy(w) => DestroyStepKeepsInv(sys, w);
    case TimePasses =>
      TimeFacts(sys.server, Next(sys, s).server);
      QuietKeepsInv(sys, Next(sys, s).server);
  }

  lemma {:induction false} RunKeepsInv(sys: System, steps: seq<Step>, end: System)
    requires Inv(sys) && Leads(sys, steps, end)
    ensures Inv(end)
    decreases |steps|
  {
    hide Inv, Next, Enabled;
    if steps != [] {
      StepKeepsInv(sys, steps[0]);
      RunKeepsInv(Next(sys, steps[0]), steps[1..], end);
    }
  }

  // ---------------------------------------------------------------- all runs

  lemma Reached(steps: seq<Step>, end: System, c: Client)
    requires Leads(START, steps, end) && c in end.clients
    ensures ServerOk(end.server) && Shape(end.clients[c]) && Tied(end.server, c, end.clients[c])
  {
    assert Inv(START);
    hide Shape, Tied, ServerOk, Leads;
    RunKeepsInv(START, steps, end);
  }

  /** In every reachable state an object that is not blocked reports its window from
      ownerWindow while it is the server's owner or while the event that will make it drop the
      claim is still in its queue, and exactly one of the two is the case. */
  lemma ReportIsRightOrPending(steps: seq<Step>, end: System, c: Client)
    requires Leads(START, steps, end) && AtLoop(end, c)
    requires OwnerWindowOf(end.clients[c].o) != 0
    ensures end.server.owner == OwnerWindowOf(end.clients[c].o) <==> !LossPending(end.clients[c])
  {
    hide Leads, Sending, Ledgered;
    Reached(steps, end, c);
  }

  /** Conversely, a client that owns the selection at the server reports that very window,
      unless it has released it and its DestroyWindow request is still on the way. */
  lemma OwnerReportsItself(steps: seq<Step>, end: System, c: Client)
    requires Leads(START, steps, end) && AtLoop(end, c) && Mine(end.server, c, end.server.owner)
    ensures OwnerWindowOf(end.clients[c].o) == end.server.owner
            || (OwnerWindowOf(end.clients[c].o) == 0
                && DestroyWindow(end.server.owner) in end.clients[c].o.requests)
  {
    hide Leads, Ledgered;
    Reached(steps, end, c);
    if end.clients[c].o.timestamp != 0 {
      OwnerHasNotReleased(end.clients[c], end.server.owner);
    }
    hide Sending;
  }

  /** While the object reports a window, no DestroyWindow request is on the way. */
  lemma OwnerHasNotReleased(k: Conn, w: Window)
    requires Phases(k) && Sending(k.o) && k.o.timestamp != 0 && k.o.call == NoCall
    ensures DestroyWindow(w) !in k.o.requests
  {
  }

  /** lostOwnership is never a false alarm: when it is emitted the server's owner is no longer
      the reported window. In particular a SelectionClear for an earlier claim is always
      handled before the PropertyNotify that starts the next one. */
  lemma LossIsReal(steps: seq<Step>, end: System, c: Client)
    requires Leads(START, steps, end) && Enabled(end, Dispatch(c))
    ensures var k := end.clients[c];
            var k1 := Handled(k);
            && (k1.o.signals == k.o.signals + [LostOwnership] ==> end.server.owner != k.o.window)
            && (k1.o.call == InVerify && k.o.call == NoCall ==> SelectionClear !in k1.queue)
  {
    hide Leads;
    Reached(steps, end, c);
    LossFacts(end.server, c, end.clients[c]);
    ClearFacts(end.server, c, end.clients[c]);
  }

  lemma LossFacts(sv: Server, c: Client, k: Conn)
    requires ServerOk(sv) && Phases(k) && Heard(sv, k) && Owning(sv, c, k) && k.o.call == NoCall && k.queue != []
    ensures Handled(k).o.signals == k.o.signals + [LostOwnership] ==> sv.owner != k.o.window
  {
    assert k.queue[0] in k.queue;
    assert (k.o.signals + [ClaimedOwnership])[|k.o.signals|] != LostOwnership;
    hide ClearsFirst, Sets, Mine;
  }

  lemma ClearFacts(sv: Server, c: Client, k: Conn)
    requires Phases(k) && Owning(sv, c, k) && k.o.call == NoCall && k.queue != []
    ensures Handled(k).o.call == InVerify ==> SelectionClear !in Handled(k).queue
  {
    if Handled(k).o.call == InVerify {
      assert forall j :: 0 < j < |k.queue| ==> k.queue[j] != SelectionClear;
    }
    hide Sets, Mine;
  }

  /** Two clients never both report a window without one of them having the loss pending. */
  lemma AtMostOneOwner(steps: seq<Step>, end: System, a: Client, b: Client)
    requires Leads(START, steps, end) && a != b && AtLoop(end, a) && AtLoop(end, b)
    requires OwnerWindowOf(end.clients[a].o) != 0 && OwnerWindowOf(end.clients[b].o) != 0
    ensures LossPending(end.clients[a]) || LossPending(end.clients[b])
  {
    hide Leads, LossPending, Shape, Owning, Living, Heard, ServerOk;
    Reached(steps, end, a);
    Reached(steps, end, b);
    ReportIsRightOrPending(steps, end, a);
    ReportIsRightOrPending(steps, end, b);
  }

  /** Claim ledger: every claim has had one outcome, except one that is still running; the
      timer runs exactly while the object waits for the previous owner. */
  lemma ClaimLedger(steps: seq<Step>, end: System, c: Client)
    requires Leads(START, steps, end) && c in end.clients
    ensures var o := end.clients[c].o;
            && o.claims == Outcomes(o.signals) + (if o.state == Idle && o.call == NoCall then 0 else 1)
            && (o.timer <==> o.state == WaitingForPreviousOwner)
  {
    hide Leads, Tied, Sending;
    Reached(steps, end, c);
  }

  /** Kill safety: a timeout always asks the server to kill, and the client is that of the window
      which was the server's owner when the claim asked for it, a window of another client whose
      destruction has not been seen; and the claim was forced with force-kill. */
  lemma KillIsSafe(steps: seq<Step>, end: System, c: Client)
    requires Leads(START, steps, end) && Enabled(end, TimerFires(c))
    ensures var k := end.clients[c];
            var o1 := TimedOut(k.o);
            && k.forced && k.o.forceKill
            && k.o.prevOwner == k.found && k.found != 0 && k.found in end.server.owned
            && k.found in end.server.creator && end.server.creator[k.found] != c
            && k.found !in k.seen
            && o1.signals == k.o.signals && o1.call == InKill
            && o1.requests == k.o.requests + [KillClient(k.found)]
  {
    hide Leads, Sending, Ledgered, Owning, Living, Heard;
    Reached(steps, end, c);
  }

  lemma ExecutedFinds(sys: System, e: Client, r: Request, c: Client)
    requires e in sys.clients && c in sys.clients && c in Executed(sys, e, r).clients
    ensures Executed(sys, e, r).clients[c].found
            == if c == e && sys.clients[c].o.call.InClaim? && r == GetOwner then sys.server.owner
               else sys.clients[c].found
  {
    hide MayOwn, OwnerSet, WindowGone, ClearFor, PropertyFor, DestroyFor;
  }

  /** What `found` records: the server's owner at the moment when the claim's GetOwner request
      is executed, kept until the next claim asks. */
  lemma FoundIsTheOwner(sys: System, s: Step, c: Client)
    requires Enabled(sys, s) && c in sys.clients && c in Next(sys, s).clients
    ensures Next(sys, s).clients[c].found
            == if s == Execute(c) && sys.clients[c].o.call.InClaim? && sys.clients[c].o.requests[0] == GetOwner
               then sys.server.owner else sys.clients[c].found
  {
    if s.Execute? {
      ExecutedFinds(WithConn(sys, s.c, PopRequest(sys.clients[s.c])), s.c, sys.clients[s.c].o.requests[0], c);
    }
    hide ClaimContinued, Filtered, TimedOut, Verified, Released, MayOwn, Executed, OwnerSet, WindowGone,
      ClearFor, PropertyFor, DestroyFor;
  }

  /** What `owned` records: only an owner ever enters it, and no owner leaves it. */
  lemma OwnedAreOwners(sys: System, s: Step)
    requires Enabled(sys, s)
    ensures sys.server.owned <= Next(sys, s).server.owned
    ensures forall w :: w in Next(sys, s).server.owned ==>
              w in sys.server.owned || w == Next(sys, s).server.owner
  {
    hide ClaimContinued, Filtered, TimedOut, Verified, Released;
  }

  /** Kill requests on the way to the server name windows of other clients that have owned the
      selection. */
  lemma NoSelfKill(steps: seq<Step>, end: System, c: Client, r: Request)
    requires Leads(START, steps, end) && c in end.clients
    requires r in end.clients[c].o.requests && r.KillClient?
    ensures r.window in end.server.creator && end.server.creator[r.window] != c
    ensures r.window in end.server.owned
  {
    hide Leads, Shape, Owning, Living, Heard;
    Reached(steps, end, c);
  }

  /** claimedOwnership does not mean owning. When it is emitted, the claimed window owns the
      selection at the server exactly if the claim was not lost or released since it was
      verified and no event that will take it away is waiting in the queue; and it can only
      have been lost or released while the object waited for the previous owner, or for the
      server to kill it. */
  lemma ClaimedButNotOwning(steps: seq<Step>, end: System, s: Step)
    requires Leads(START, steps, end) && Enabled(end, s)
    requires s.Dispatch? || s.TimerFires? || s.ReadReply?
    requires var o := end.clients[s.c].o;
             Next(end, s).clients[s.c].o.signals == o.signals + [ClaimedOwnership]
    ensures var k1 := Next(end, s).clients[s.c];
            && (k1.o.window != 0 && Next(end, s).server.owner == k1.o.window
                <==> !k1.dropped && !LossPending(k1))
            && (k1.dropped ==> Waiting(end.clients[s.c].o))
  {
    hide Leads, Phases, Sending, Ledgered, Ids, Living, Heard, Owning, ServerOk, Handled;
    Reached(steps, end, s.c);
    if s.Dispatch? {
      DispatchClaims(end, s.c);
    } else if s.TimerFires? {
      TimerClaimsNothing(end.clients[s.c]);
      assert false;
    } else {
      ReplyClaims(end, s.c);
    }
  }

  /** The statement above, for the state after the emission. */
  predicate ClaimTold(sv: Server, k: Conn, k1: Conn) {
    && (k1.o.window != 0 && sv.owner == k1.o.window <==> !k1.dropped && !LossPending(k1))
    && (k1.dropped ==> Waiting(k.o))
  }

  /** The server's owner is alive, so no DestroyNotify for it is under way. */
  lemma OwnerIsAlive(sv: Server, k: Conn)
    requires ServerOk(sv) && Heard(sv, k) && sv.owner != 0
    ensures DestroyNotify(sv.owner) !in k.queue
  {
  }

  /** A timeout on its own claims nothing yet. */
  lemma TimerClaimsNothing(k: Conn)
    requires Phases(k) && k.o.timer
    ensures TimedOut(k.o).signals == k.o.signals
    ensures |k.o.signals + [ClaimedOwnership]| != |k.o.signals|
  {
  }

  lemma DispatchClaims(sys: System, c: Client)
    requires Enabled(sys, Dispatch(c)) && Phases(sys.clients[c]) && ServerOk(sys.server)
    requires Ids(sys.server, c, sys.clients[c]) && Owning(sys.server, c, sys.clients[c])
    requires Heard(sys.server, sys.clients[c])
    requires var o := sys.clients[c].o; Handled(sys.clients[c]).o.signals == o.signals + [ClaimedOwnership]
    ensures Next(sys, Dispatch(c)).server == sys.server
    ensures ClaimTold(sys.server, sys.clients[c], Next(sys, Dispatch(c)).clients[c])
  {
    var k := sys.clients[c];
    ClaimingEvent(k);
    if sys.server.owner != 0 {
      OwnerIsAlive(sys.server, k);
    }
    assert k.o.prevOwner != k.o.window;
    assert forall e :: e in k.queue <==> e == k.queue[0] || e in k.queue[1..];
    hide ClearsFirst, Sets, Mine, ServerOk, Heard, Ids, Filtered;
  }

  /** The only event that ends in claimedOwnership. */
  lemma ClaimingEvent(k: Conn)
    requires k.queue != [] && Handled(k).o.signals == k.o.signals + [ClaimedOwnership]
    ensures k.o.state == WaitingForPreviousOwner && k.queue[0] == DestroyNotify(k.o.prevOwner)
    ensures Handled(k).o == ClaimDone(k.o.(timer := false)) && Handled(k).dropped == k.dropped
  {
    assert (k.o.signals + [LostOwnership])[|k.o.signals|] != ClaimedOwnership;
    assert (k.o.signals + [ClaimedOwnership])[|k.o.signals|] == ClaimedOwnership;
    assert |k.o.signals + [ClaimedOwnership]| != |k.o.signals|;
  }

  lemma ReplyClaims(sys: System, c: Client)
    requires Enabled(sys, ReadReply(c)) && Phases(sys.clients[c]) && ServerOk(sys.server)
    requires Owning(sys.server, c, sys.clients[c]) && Heard(sys.server, sys.clients[c])
    requires var o := sys.clients[c].o;
             Next(sys, ReadReply(c)).clients[c].o.signals == o.signals + [ClaimedOwnership]
    ensures Next(sys, ReadReply(c)).server == sys.server
    ensures ClaimTold(sys.server, sys.clients[c], Next(sys, ReadReply(c)).clients[c])
  {
    var k := sys.clients[c];
    assert (k.o.signals + [FailedToClaimOwnership])[|k.o.signals|] != ClaimedOwnership;
    assert (k.o.signals + [ClaimedOwnership])[|k.o.signals|] == ClaimedOwnership;
    assert |k.o.signals + [ClaimedOwnership]| != |k.o.signals|;
    if sys.server.owner != 0 {
      OwnerIsAlive(sys.server, k);
    }
    hide ClearsFirst, Sets, Mine, ServerOk, Heard;
  }

  lemma ExecutedKeepsDropped(sys: System, e: Client, r: Request, c: Client)
    requires e in sys.clients && c in sys.clients && c in Executed(sys, e, r).clients
    ensures Executed(sys, e, r).clients[c].dropped == sys.clients[c].dropped
  {
    hide MayOwn, OwnerSet, WindowGone, ClearFor, PropertyFor, DestroyFor;
  }

  /** A request that the server executes changes no client's history but what it found. */
  lemma ExecuteKeepsDropped(sys: System, e: Client, c: Client)
    requires Enabled(sys, Execute(e)) && c in sys.clients && c in Next(sys, Execute(e)).clients
    ensures Next(sys, Execute(e)).clients[c].dropped == sys.clients[c].dropped
  {
    hide Executed;
    ExecutedKeepsDropped(WithConn(sys, e, PopRequest(sys.clients[e])), e, sys.clients[e].o.requests[0], c);
  }

  /** What `dropped` records: a loss that was signalled or a release, since the verification. */
  lemma DroppedIsHistory(sys: System, s: Step, c: Client)
    requires Enabled(sys, s) && c in sys.clients && c in Next(sys, s).clients
    ensures var k, k1 := sys.clients[c], Next(sys, s).clients[c];
            k1.dropped
            <==> !(s == ReadReply(c) && k.o.call == InVerify)
                 && (k.dropped
                     || (s == Dispatch(c) && k1.o.signals == k.o.signals + [LostOwnership])
                     || (s == AppRelease(c) && OwnerWindowOf(k.o) != 0)
                     || (s.AppClaim? && s.c == c && OwnerWindowOf(k.o) != 0))
  {
    if s.Execute? {
      ExecuteKeepsDropped(sys, s.c, c);
    }
    hide ClaimContinued, TimedOut, Verified, Released, MayOwn, Filtered, Executed, OwnerWindowOf;
  }

  // ---------------------------------------------------------------- reachable states

  lemma {:induction false} LeadsFurther(sys: System, steps: seq<Step>, mid: System, s: Step)
    requires Leads(sys, steps, mid) && Enabled(mid, s)
    ensures Leads(sys, steps + [s], Next(mid, s))
    decreases |steps|
  {
    hide Enabled, Next;
    if steps != [] {
      LeadsFurther(Next(sys, steps[0]), steps[1..], mid, s);
      assert (steps + [s])[1..] == steps[1..] + [s];
    }
  }

  ghost predicate Reachable(sys: System) {
    exists steps :: Leads(START, steps, sys)
  }

  lemma ReachesNext(sys: System, s: Step)
    requires Reachable(sys) && Enabled(sys, s)
    ensures Reachable(Next(sys, s))
  {
    hide Enabled, Next;
    var steps :| Leads(START, steps, sys);
    LeadsFurther(START, steps, sys, s);
  }
}
