/** What the wait for the kill request is worth: when the claim goes on, the previous owner is
    gone. */
module SelectionKills {
  import opened SelectionOwner
  import opened SelectionSystem
  import opened SelectionInvariant
  import opened SelectionRuns

  /** The window is destroyed, or the client that created it has been killed. */
  predicate Gone(sv: Server, w: Window) {
    w in sv.born && (w !in sv.alive || (w in sv.creator && sv.creator[w] in sv.gone))
  }

  /** The object has been told that its kill request is executed. */
  predicate KillAnswered(k: Conn) {
    k.o.call == InKill && k.reply.Some?
  }

  /** Killed clients are not connected, and answered kill requests have had their effect. */
  predicate KillsDone(sys: System) {
    && (forall c :: c in sys.clients ==> c !in sys.server.gone)
    && (forall c :: c in sys.clients && KillAnswered(sys.clients[c])
          ==> Gone(sys.server, sys.clients[c].o.prevOwner))
  }

  // ---------------------------------------------------------------- what `gone` records

  /** A kill request for a window that exists. */
  predicate KillsWindow(sv: Server, r: Request) {
    r.KillClient? && r.window in sv.alive && r.window in sv.creator
  }

  lemma RequestKills(sys: System, c: Client, r: Request)
    requires c in sys.clients
    ensures var sys1, sv := Executed(sys, c, r), sys.server;
            var killed := if KillsWindow(sv, r) then {sv.creator[r.window]} else {};
            sys1.server.gone == sv.gone + killed && sys1.clients.Keys == sys.clients.Keys - killed
  {
    hide MayOwn, ClearFor, PropertyFor, DestroyFor;
  }

  /** What `gone` records: exactly the clients whose window a kill request named while the
      window existed, from the moment when the server executes that request. */
  lemma GoneAreKilled(sys: System, s: Step, d: Client)
    requires Enabled(sys, s)
    ensures var sv := sys.server;
            d in Next(sys, s).server.gone
            <==> d in sv.gone
                 || (s.Execute? && var r := sys.clients[s.c].o.requests[0];
                                   KillsWindow(sv, r) && sv.creator[r.window] == d)
  {
    if s.Execute? {
      var k := sys.clients[s.c];
      RequestKills(WithConn(sys, s.c, PopRequest(k)), s.c, k.o.requests[0]);
    }
    hide Executed, MayOwn, ClaimContinued, ClearFor, PropertyFor, DestroyFor;
  }

  // ---------------------------------------------------------------- what is gone stays gone

  /** Nothing that existed comes back, and ids keep their creators. */
  predicate Older(sv: Server, sv1: Server) {
    && sv.born <= sv1.born && sv.gone <= sv1.gone
    && (forall w :: w in sv.born && w in sv1.alive ==> w in sv.alive)
    && (forall w :: w in sv.creator ==> w in sv1.creator && sv1.creator[w] == sv.creator[w])
  }

  lemma RequestKeepsOlder(sys: System, c: Client, r: Request)
    requires c in sys.clients && (r.CreateWindow? ==> r.window !in sys.server.born)
    ensures Older(sys.server, Executed(sys, c, r).server)
  {
    hide MayOwn, ClearFor, PropertyFor, DestroyFor;
  }

  lemma ExecuteKeepsOlder(sys: System, c: Client)
    requires Inv(sys) && Enabled(sys, Execute(c))
    ensures Older(sys.server, Next(sys, Execute(c)).server)
  {
    var k := sys.clients[c];
    assert ClientOk(sys.server, c, k);
    assert k.o.requests[0] in k.o.requests;
    hide Shape, Owning, Living, Heard, Executed;
    RequestKeepsOlder(WithConn(sys, c, PopRequest(k)), c, k.o.requests[0]);
  }

  lemma StepKeepsOlder(sys: System, s: Step)
    requires Inv(sys) && Enabled(sys, s)
    ensures Older(sys.server, Next(sys, s).server)
  {
    hide ClientOk, MayOwn, ClaimContinued, ClearFor, PropertyFor, DestroyFor;
    if s.Execute? {
      ExecuteKeepsOlder(sys, s.c);
    }
    hide Executed;
  }

  lemma GoneStays(sys: System, s: Step, w: Window)
    requires Inv(sys) && Enabled(sys, s) && Gone(sys.server, w)
    ensures Gone(Next(sys, s).server, w)
  {
    StepKeepsOlder(sys, s);
    hide Next, Inv;
  }

  /** Nobody who has been killed is connected afterwards. */
  lemma StepKeepsApart(sys: System, s: Step, d: Client)
    requires Enabled(sys, s) && forall c :: c in sys.clients ==> c !in sys.server.gone
    requires d in Next(sys, s).clients
    ensures d !in Next(sys, s).server.gone
  {
    if s.Execute? {
      var k := sys.clients[s.c];
      RequestKills(WithConn(sys, s.c, PopRequest(k)), s.c, k.o.requests[0]);
    }
    hide Executed, MayOwn, ClaimContinued, ClearFor, PropertyFor, DestroyFor;
  }

  // ---------------------------------------------------------------- who is told

  /** The first request of a waiting object is executed. */
  lemma KillExecuted(sys: System, c: Client)
    requires Inv(sys) && Enabled(sys, Execute(c)) && sys.clients[c].o.requests[0].KillClient?
    ensures Gone(Next(sys, Execute(c)).server, sys.clients[c].o.prevOwner)
  {
    var k := sys.clients[c];
    assert ClientOk(sys.server, c, k);
    PhasesOfShape(k);
    FirstRequest(k);
    hide Shape, Sending, Owning, Living, Heard;
  }

  /** Only the execution of its own kill request answers an object. */
  lemma AnsweredBefore(sys: System, s: Step, c: Client)
    requires Inv(sys) && Enabled(sys, s) && c in Next(sys, s).clients && KillAnswered(Next(sys, s).clients[c])
    ensures c in sys.clients && Next(sys, s).clients[c].o.prevOwner == sys.clients[c].o.prevOwner
    ensures KillAnswered(sys.clients[c]) || (s == Execute(c) && sys.clients[c].o.requests[0].KillClient?)
  {
    hide Shape, Tied, Executed, Next, KillAnswered;
    if s.Execute? {
      AnsweredByRequest(sys, s.c, c);
      var k := sys.clients[s.c];
      assert ClientOk(sys.server, s.c, k);
      PhasesOfShape(k);
      FirstRequest(k);
    } else {
      forall d | d in sys.clients ensures Phases(sys.clients[d]) {
        PhasesOfShape(sys.clients[d]);
      }
      AnsweredQuietly(sys, s, c);
    }
    hide Phases, Sending;
  }

  lemma AnsweredQuietly(sys: System, s: Step, c: Client)
    requires Enabled(sys, s) && c in Next(sys, s).clients && KillAnswered(Next(sys, s).clients[c])
    requires !s.Execute? && forall d :: d in sys.clients ==> Phases(sys.clients[d])
    ensures c in sys.clients && KillAnswered(sys.clients[c])
    ensures Next(sys, s).clients[c].o.prevOwner == sys.clients[c].o.prevOwner
  {
    if s.ReadReply? {
      RepliedQuietly(sys, s.c, c);
    }
    hide Continued, MayOwn, ClearFor, PropertyFor, DestroyFor, OwnerSet, WindowGone;
  }

  lemma RepliedQuietly(sys: System, d: Client, c: Client)
    requires Enabled(sys, ReadReply(d)) && c in Continued(sys, d).clients && KillAnswered(Continued(sys, d).clients[c])
    ensures c in sys.clients && c != d && Continued(sys, d).clients[c] == sys.clients[c]
  {
  }

  lemma RequestAnswers(sys: System, e: Client, r: Request, c: Client)
    requires e in sys.clients && c in Executed(sys, e, r).clients
    ensures c in sys.clients
    ensures var k, k1 := sys.clients[c], Executed(sys, e, r).clients[c];
            k1.o == k.o && (k1.reply == k.reply || (e == c && (r.KillClient? || r.GetOwner?)))
  {
    hide MayOwn, ClearFor, PropertyFor, DestroyFor, OwnerSet, WindowGone;
  }

  lemma AnsweredByRequest(sys: System, e: Client, c: Client)
    requires Enabled(sys, Execute(e)) && c in Next(sys, Execute(e)).clients
    requires KillAnswered(Next(sys, Execute(e)).clients[c])
    ensures c in sys.clients && Next(sys, Execute(e)).clients[c].o.prevOwner == sys.clients[c].o.prevOwner
    ensures KillAnswered(sys.clients[c])
            || (e == c && (sys.clients[c].o.requests[0].KillClient? || sys.clients[c].o.requests[0].GetOwner?))
    ensures sys.clients[c].o.call == InKill
  {
    hide Executed;
    RequestAnswers(WithConn(sys, e, PopRequest(sys.clients[e])), e, sys.clients[e].o.requests[0], c);
  }

  lemma StepKeepsKillsDone(sys: System, s: Step)
    requires Inv(sys) && Enabled(sys, s) && KillsDone(sys)
    ensures KillsDone(Next(sys, s))
  {
    hide Inv, Enabled, Next, Gone, KillAnswered;
    forall c | c in Next(sys, s).clients ensures c !in Next(sys, s).server.gone {
      StepKeepsApart(sys, s, c);
    }
    forall c | c in Next(sys, s).clients && KillAnswered(Next(sys, s).clients[c])
      ensures Gone(Next(sys, s).server, Next(sys, s).clients[c].o.prevOwner)
    {
      AnsweredBefore(sys, s, c);
      if KillAnswered(sys.clients[c]) {
        GoneStays(sys, s, sys.clients[c].o.prevOwner);
      } else {
        KillExecuted(sys, c);
      }
    }
  }

  lemma {:induction false} RunKeepsKillsDone(sys: System, steps: seq<Step>, end: System)
    requires Inv(sys) && KillsDone(sys) && Leads(sys, steps, end)
    ensures KillsDone(end)
    decreases |steps|
  {
    hide Inv, Next, Enabled, KillsDone;
    if steps != [] {
      StepKeepsInv(sys, steps[0]);
      StepKeepsKillsDone(sys, steps[0]);
      RunKeepsKillsDone(Next(sys, steps[0]), steps[1..], end);
    }
  }

  /** Along every run: when an object goes on after its kill request, the window that was found
      as the previous owner is destroyed or its client has been killed, and then, and only then,
      the object announces its claim. */
  lemma KilledOwnerIsGone(steps: seq<Step>, end: System, c: Client)
    requires Leads(START, steps, end) && Enabled(end, ReadReply(c)) && end.clients[c].o.call == InKill
    ensures var k := end.clients[c];
            && k.o.prevOwner == k.found && Gone(end.server, k.found)
            && Next(end, ReadReply(c)).clients[c].o.signals == k.o.signals + [ClaimedOwnership]
  {
    assert Inv(START) && KillsDone(START);
    hide Leads, Gone, Shape, Tied, Sending, Owning, Living, Heard, KillsDone;
    RunKeepsKillsDone(START, steps, end);
    Reached(steps, end, c);
    KillWasFound(end, c);
    hide Phases;
    AnsweredIsGone(end, c);
  }

  lemma KillWasFound(sys: System, c: Client)
    requires c in sys.clients && Shape(sys.clients[c]) && Tied(sys.server, c, sys.clients[c])
    requires sys.clients[c].o.call == InKill
    ensures sys.clients[c].o.prevOwner == sys.clients[c].found
  {
    hide Owning, Living, Heard, Sending;
  }

  lemma AnsweredIsGone(sys: System, c: Client)
    requires KillsDone(sys) && c in sys.clients && KillAnswered(sys.clients[c])
    ensures Gone(sys.server, sys.clients[c].o.prevOwner)
  {
    hide Gone;
  }

  // ---------------------------------------------------------------- what is gone does not own again

  /** Who a SetSelectionOwner request is for: a window of the client itself. */
  lemma SetsOwn(sys: System, c: Client)
    requires Inv(sys) && Enabled(sys, Execute(c)) && sys.clients[c].o.requests[0].SetOwner?
    ensures Mine(sys.server, c, sys.clients[c].o.requests[0].window)
  {
    var k := sys.clients[c];
    assert ClientOk(sys.server, c, k);
    PhasesOfShape(k);
    SetOwnerFacts(k);
    hide Shape, Sending, Owning, Living, Heard;
  }

  lemma RequestOwner(sys: System, c: Client, r: Request)
    requires c in sys.clients
    ensures var w := Executed(sys, c, r).server.owner;
            w == sys.server.owner || w == 0 || (r.SetOwner? && w == r.window && w in sys.server.alive)
  {
    hide ClearFor, PropertyFor, DestroyFor;
  }

  /** A step that gives the selection to another window is taken by the client of that window,
      which has not been killed. */
  lemma NewOwnerLives(sys: System, s: Step)
    requires Inv(sys) && KillsDone(sys) && Enabled(sys, s)
    ensures var w := Next(sys, s).server.owner;
            w == sys.server.owner || w == 0
            || (w in sys.server.alive && w in sys.server.creator && sys.server.creator[w] !in sys.server.gone)
  {
    if s.Execute? {
      var k := sys.clients[s.c];
      RequestOwner(WithConn(sys, s.c, PopRequest(k)), s.c, k.o.requests[0]);
      if k.o.requests[0].SetOwner? {
        SetsOwn(sys, s.c);
      }
    }
    hide Executed, Inv, Gone, KillAnswered, ClaimContinued, ClearFor, PropertyFor, DestroyFor;
  }

  /** What is gone and does not own the selection never owns it again. */
  lemma {:induction false} GoneNeverOwns(sys: System, steps: seq<Step>, end: System, w: Window)
    requires Inv(sys) && KillsDone(sys) && Leads(sys, steps, end) && Gone(sys.server, w)
    ensures Gone(end.server, w) && (sys.server.owner != w ==> end.server.owner != w)
    decreases |steps|
  {
    hide Next, Enabled, KillsDone;
    if steps != [] {
      var s := steps[0];
      StepKeepsInv(sys, s);
      StepKeepsKillsDone(sys, s);
      GoneStays(sys, s, w);
      NewOwnerLives(sys, s);
      BornIsReal(sys, w);
      hide Inv;
      GoneNeverOwns(Next(sys, s), steps[1..], end, w);
    }
    hide Inv, Gone;
  }

  lemma BornIsReal(sys: System, w: Window)
    requires Inv(sys) && Gone(sys.server, w)
    ensures w != 0
  {
    hide ClientOk;
  }

  /** What the wait for the kill request is worth: from the moment when the object goes on, the
      previous owner, if it does not own the selection then, never owns it again, whatever any
      client does; the kill cannot be answered by taking the selection back. */
  lemma KilledOwnerNeverReturns(steps: seq<Step>, mid: System, c: Client, more: seq<Step>, end: System)
    requires Leads(START, steps, mid) && Enabled(mid, ReadReply(c)) && mid.clients[c].o.call == InKill
    requires Leads(mid, more, end)
    ensures var w := mid.clients[c].found;
            Gone(end.server, w) && (mid.server.owner != w ==> end.server.owner != w)
  {
    assert Inv(START) && KillsDone(START);
    hide Leads, Gone, Inv, KillsDone;
    KilledOwnerIsGone(steps, mid, c);
    RunKeepsInv(START, steps, mid);
    RunKeepsKillsDone(START, steps, mid);
    GoneNeverOwns(mid, more, end, mid.clients[c].found);
  }
}
