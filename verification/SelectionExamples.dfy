/** Two runs of the selection system in which claimedOwnership is emitted by a client that does
    not own the selection. */
module SelectionExamples {
  import opened SelectionOwner
  import opened SelectionSystem
  import opened SelectionInvariant
  import opened SelectionRuns

  // ---------------------------------------------------------------- steps of a single client

  /** One client, with connection 0. */
  function Solo(sv: Server, k: Conn): System {
    System(sv, map[0 := k])
  }

  lemma Goes(a: System, s: Step, b: System)
    requires Reachable(a) && Enabled(a, s) && Next(a, s) == b
    ensures Reachable(b)
  {
    hide Next, Enabled;
    ReachesNext(a, s);
  }

  lemma ToldSolo(sv: Server, k: Conn, sv1: Server, evs: Client -> seq<Event>)
    ensures Told(Solo(sv, k), sv1, evs) == Solo(sv1, Post(k, evs(0)))
  {
  }

  lemma Joins(sv: Server)
    requires Reachable(System(sv, map[])) && sv.gone == {} && forall w :: w in sv.creator ==> sv.creator[w] != 0
    ensures Reachable(Solo(sv, NEW_CONN))
  {
    hide Reachable;
    Goes(System(sv, map[]), Join(0), Solo(sv, NEW_CONN));
  }

  lemma Claims(sv: Server, k: Conn, force: bool)
    requires Reachable(Solo(sv, k)) && k.o.call == NoCall && k.o.state == Idle
    ensures Reachable(Solo(sv, ClaimBegun(k, force, force)))
  {
    hide Reachable;
    hide ClaimStarted;
    Goes(Solo(sv, k), AppClaim(0, force, force), Solo(sv, ClaimBegun(k, force, force)));
  }

  lemma Dispatches(sv: Server, k: Conn)
    requires Reachable(Solo(sv, k)) && k.o.call == NoCall && k.queue != []
    ensures Reachable(Solo(sv, Handled(k)))
  {
    hide Reachable;
    hide Filtered;
    Goes(Solo(sv, k), Dispatch(0), Solo(sv, Handled(k)));
  }

  lemma Starts(sv: Server, k: Conn)
    requires Reachable(Solo(sv, k)) && k.o.call.InClaim? && k.reply.Some?
    requires k.reply.value == 0 || k.o.call.force
    ensures Reachable(Solo(Allocated(sv, 0), ClaimUnderWay(k, sv.next)))
  {
    hide Reachable;
    hide ClaimContinued;
    Goes(Solo(sv, k), ReadReply(0), Solo(Allocated(sv, 0), ClaimUnderWay(k, sv.next)));
  }

  lemma Verifies(sv: Server, k: Conn)
    requires Reachable(Solo(sv, k)) && k.o.call == InVerify && k.reply.Some?
    ensures Reachable(Solo(sv, VerifiedBy(k)))
  {
    hide Reachable;
    hide Verified;
    Goes(Solo(sv, k), ReadReply(0), Solo(sv, VerifiedBy(k)));
  }

  lemma GetsOwner(sv: Server, k: Conn)
    requires Reachable(Solo(sv, k)) && k.o.requests != [] && k.o.requests[0] == GetOwner
    ensures Reachable(Solo(sv, Answered(sv, PopRequest(k))))
  {
    hide Reachable;
    Goes(Solo(sv, k), Execute(0), Solo(sv, Answered(sv, PopRequest(k))));
  }

  lemma Creates(sv: Server, k: Conn)
    requires Reachable(Solo(sv, k)) && k.o.requests != [] && k.o.requests[0].CreateWindow?
    ensures Reachable(Solo(Created(sv, 0, k.o.requests[0].window), PopRequest(k)))
  {
    hide Reachable;
    Goes(Solo(sv, k), Execute(0), Solo(Created(sv, 0, k.o.requests[0].window), PopRequest(k)));
  }

  lemma Selects(sv: Server, k: Conn)
    requires Reachable(Solo(sv, k)) && k.o.requests != []
    requires k.o.requests[0].SelectStructure? && k.o.requests[0].window in sv.alive
    ensures Reachable(Solo(sv.(selects := sv.selects + {(0, k.o.requests[0].window)}), PopRequest(k)))
  {
    Goes(Solo(sv, k), Execute(0),
         Solo(sv.(selects := sv.selects + {(0, k.o.requests[0].window)}), PopRequest(k)));
  }

  lemma Notifies(sv: Server, k: Conn)
    requires Reachable(Solo(sv, k)) && k.o.requests != [] && k.o.requests[0].ChangeProperty?
    ensures Reachable(Solo(sv, Post(PopRequest(k), PropertyFor(sv, k.o.requests[0].window, 0))))
  {
    hide Reachable;
    hide PropertyFor, Post;
    var w := k.o.requests[0].window;
    ToldSolo(sv, PopRequest(k), sv, (d: Client) => PropertyFor(sv, w, d));
    hide Told;
    Goes(Solo(sv, k), Execute(0), Solo(sv, Post(PopRequest(k), PropertyFor(sv, w, 0))));
  }

  lemma Announces(sv: Server, k: Conn, w: Window, k1: Conn)
    requires Reachable(Solo(sv, k)) && k.o.requests == [ChangeProperty(w)] && k.queue == []
    requires w in sv.alive && Mine(sv, 0, w) && sv.now == 1
    requires k1 == k.(o := k.o.(requests := []), queue := [PropertyNotify(w, 1)])
    ensures Reachable(Solo(sv, k1))
  {
    hide Reachable;
    Notifies(sv, k);
    assert k.o.requests[1..] == [] && [] + [PropertyNotify(w, 1)] == [PropertyNotify(w, 1)];
    assert Post(PopRequest(k), PropertyFor(sv, w, 0)) == k1;
  }

  lemma Sets(sv: Server, k: Conn)
    requires Reachable(Solo(sv, k)) && k.o.requests != [] && k.o.requests[0].SetOwner?
    requires MayOwn(sv, k.o.requests[0].window, k.o.requests[0].time)
    ensures Reachable(Solo(OwnerSet(sv, k.o.requests[0].window, k.o.requests[0].time), PopRequest(k)))
  {
    hide Reachable;
    var SetOwner(w, t) := k.o.requests[0];
    var sv1 := OwnerSet(sv, w, t);
    ToldSolo(sv, PopRequest(k), sv1, (d: Client) => ClearFor(sv, 0, d));
    assert Post(PopRequest(k), []) == PopRequest(k);
    hide Told, MayOwn;
    Goes(Solo(sv, k), Execute(0), Solo(sv1, PopRequest(k)));
  }

  lemma OtherWindow(sv: Server, clients: map<Client, Conn>)
    requires Reachable(System(sv, clients)) && 9 !in clients && 9 !in sv.gone
    ensures Reachable(System(sv.(creator := sv.creator[sv.next := 9], next := sv.next + 1,
                                 born := sv.born + {sv.next}, alive := sv.alive + {sv.next}), clients))
  {
    ReachesNext(System(sv, clients), ForeignWindow(9));
  }

  lemma OtherOwns(sv: Server, k: Conn, w: Window)
    requires Reachable(Solo(sv, k)) && 9 !in sv.gone && Mine(sv, 9, w) && MayOwn(sv, w, 1)
    ensures Reachable(Solo(OwnerSet(sv, w, 1), Post(k, ClearFor(sv, 9, 0))))
  {
    hide Reachable;
    hide ClearFor, Post;
    ToldSolo(sv, k, OwnerSet(sv, w, 1), (d: Client) => ClearFor(sv, 9, d));
    hide Told;
    Goes(Solo(sv, k), ForeignSetOwner(9, w, 1), Solo(OwnerSet(sv, w, 1), Post(k, ClearFor(sv, 9, 0))));
  }

  lemma Deselects(sv: Server, k: Conn, w: Window)
    requires Reachable(Solo(sv, k)) && k.o.requests != [] && k.o.requests[0] == DeselectAll(w)
    ensures Reachable(Solo(sv.(selects := sv.selects - {(0, w)}), PopRequest(k)))
  {
    hide Reachable;
    Goes(Solo(sv, k), Execute(0), Solo(sv.(selects := sv.selects - {(0, w)}), PopRequest(k)));
  }

  lemma Destroys(sv: Server, k: Conn, w: Window)
    requires Reachable(Solo(sv, k)) && k.o.requests != [] && k.o.requests[0] == DestroyWindow(w)
    ensures Reachable(Solo(WindowGone(sv, w), Post(PopRequest(k), DestroyFor(sv, w, 0))))
  {
    hide Reachable, DestroyFor, Post, WindowGone;
    ToldSolo(sv, PopRequest(k), WindowGone(sv, w), (d: Client) => DestroyFor(sv, w, d));
    hide Told;
    Goes(Solo(sv, k), Execute(0), Solo(WindowGone(sv, w), Post(PopRequest(k), DestroyFor(sv, w, 0))));
  }

  lemma Kills(sv: Server, k: Conn, w: Window)
    requires Reachable(Solo(sv, k)) && k.o.requests != [] && k.o.requests[0] == KillClient(w)
    requires Mine(sv, 9, w) && w in sv.alive
    ensures Reachable(Solo(sv.(gone := sv.gone + {9}), Checked(PopRequest(k), w)))
  {
    hide Reachable;
    var k1 := Checked(PopRequest(k), w);
    assert map[0 := k1] - {9} == map[0 := k1];
    Goes(Solo(sv, k), Execute(0), Solo(sv.(gone := sv.gone + {9}), k1));
  }

  lemma OtherDies(sv: Server, k: Conn, w: Window)
    requires Reachable(Solo(sv, k))
    ensures Reachable(Solo(WindowGone(sv, w), Post(k, DestroyFor(sv, w, 0))))
  {
    hide Reachable, DestroyFor, Post, WindowGone;
    ToldSolo(sv, k, WindowGone(sv, w), (d: Client) => DestroyFor(sv, w, d));
    hide Told;
    Goes(Solo(sv, k), ForeignDestroy(w), Solo(WindowGone(sv, w), Post(k, DestroyFor(sv, w, 0))));
  }

  lemma GoesOn(sv: Server, k: Conn)
    requires Reachable(Solo(sv, k)) && k.o.call == InKill && k.reply.Some?
    ensures Reachable(Solo(sv, KilledBy(k)))
  {
    hide Reachable, Killed;
    Goes(Solo(sv, k), ReadReply(0), Solo(sv, KilledBy(k)));
  }

  // ---------------------------------------------------------------- a client claims

  /** The object of a first claim, from the claim on. */
  function Object(state: Phase, w: Window, prev: Window, time: Time, force: bool, call: Call,
                  rs: seq<Request>): Owner {
    Owner(state, w, prev, time, force, false, call, 1, [], rs)
  }

  /** A client that knows of `found` as the owner when it claimed. */
  function Claimant(o: Owner, queue: seq<Event>, reply: Option<Window>, found: Window): Conn {
    Conn(o, queue, reply, {}, found != 0, found != 0, found, if reply.Some? then reply.value else 0, false)
  }

  lemma FirstClaim(force: bool)
    ensures ClaimBegun(NEW_CONN, force, force)
            == NEW_CONN.(o := Object(Idle, 0, 0, 0, false, InClaim(force, force), [GetOwner]),
                         forced := force, killing := force)
  {
  }

  /** A new client asks for the owner and is told. */
  lemma AskedAndTold(sv: Server, force: bool)
    requires Reachable(System(sv, map[])) && sv.gone == {} && forall w :: w in sv.creator ==> sv.creator[w] != 0
    ensures Reachable(Solo(sv, Conn(Object(Idle, 0, 0, 0, false, InClaim(force, force), []), [],
                                    Some(sv.owner), {}, force, force, sv.owner, 0, false)))
  {
    Joins(sv);
    Claims(sv, NEW_CONN, force);
    FirstClaim(force);
    hide Reachable, ClaimBegun;
    var k := NEW_CONN.(o := Object(Idle, 0, 0, 0, false, InClaim(force, force), [GetOwner]),
                       forced := force, killing := force);
    assert k.o.requests[1..] == [];
    GetsOwner(sv, k);
  }

  lemma NotifiedObject(k: Conn, w: Window)
    requires k.o.state == WaitingForTimestamp && k.o.window == w && k.o.signals == []
    requires k.o.requests == [] && k.queue == [PropertyNotify(w, 1)]
    ensures Handled(k) == k.(o := k.o.(state := Idle, timestamp := 1,
                                       requests := [SetOwner(w, 1), GetOwner], call := InVerify), queue := [])
  {
    assert Filtered(k.o, k.queue[0]).signals != k.o.signals + [LostOwnership];
  }

  /** From the notification of the new window's property to the answer of the verification. */
  lemma NotifiedAndVerified(sv: Server, k: Conn, w: Window)
    requires Reachable(Solo(sv, k)) && MayOwn(sv, w, 1)
    requires k.o.state == WaitingForTimestamp && k.o.call == NoCall && k.o.window == w && k.o.signals == []
    requires k.o.requests == [] && k.queue == [PropertyNotify(w, 1)] && k.reply == None
    ensures Reachable(Solo(OwnerSet(sv, w, 1),
                           k.(o := k.o.(state := Idle, timestamp := 1, call := InVerify), queue := [],
                              reply := Some(w), answer := w)))
  {
    hide Reachable, Handled;
    Dispatches(sv, k);
    NotifiedObject(k, w);
    SetAndTold(sv, Handled(k), w);
  }

  lemma SetAndTold(sv: Server, k: Conn, w: Window)
    requires Reachable(Solo(sv, k)) && MayOwn(sv, w, 1) && k.o.call == InVerify
    requires k.o.requests == [SetOwner(w, 1), GetOwner]
    ensures Reachable(Solo(OwnerSet(sv, w, 1), k.(o := k.o.(requests := []), reply := Some(w), answer := w)))
  {
    hide Reachable;
    assert k.o.requests[1..] == [GetOwner] && [GetOwner][1..] == [];
    Sets(sv, k);
    GetsOwner(OwnerSet(sv, w, 1), PopRequest(k));
  }

  // ---------------------------------------------------------------- lost before it was told

  const SERVER_0: Server := Server(0, 0, 1, 1, map[], {}, {}, {}, {}, {})

  const SERVER_1: Server := Server(0, 0, 1, 2, map[1 := 0], {1}, {1}, {(0, 1)}, {}, {})

  const SERVER_2: Server := Server(1, 1, 1, 3, map[1 := 0, 2 := 9], {1, 2}, {1, 2}, {(0, 1)}, {1}, {})

  const SERVER_3: Server := Server(2, 1, 1, 3, map[1 := 0, 2 := 9], {1, 2}, {1, 2}, {(0, 1)}, {1, 2}, {})

  lemma StartIsReachable()
    ensures Reachable(System(SERVER_0, map[]))
  {
    assert Leads(START, [], START);
  }

  lemma FirstWindow()
    ensures Reachable(Solo(SERVER_1, Claimant(Object(WaitingForTimestamp, 1, 0, 0, false, NoCall, []),
                                              [PropertyNotify(1, 1)], None, 0)))
  {
    hide Reachable;
    StartIsReachable();
    AskedAndTold(SERVER_0, false);
    var k := Claimant(Object(Idle, 0, 0, 0, false, InClaim(false, false), []), [], Some(0), 0);
    Starts(SERVER_0, k);
    var k1 := Claimant(Object(WaitingForTimestamp, 1, 0, 0, false, NoCall, [CreateWindow(1), ChangeProperty(1)]),
                       [], None, 0);
    assert ClaimContinued(k.o, 0, 1).requests == [CreateWindow(1), ChangeProperty(1)];
    assert ClaimUnderWay(k, 1) == k1;
    assert k1.o.requests[1..] == [ChangeProperty(1)] && [ChangeProperty(1)][1..] == [];
    Creates(Allocated(SERVER_0, 0), k1);
    assert Created(Allocated(SERVER_0, 0), 0, 1) == SERVER_1;
    Announces(SERVER_1, PopRequest(k1), 1, Claimant(Object(WaitingForTimestamp, 1, 0, 0, false, NoCall, []),
                                                    [PropertyNotify(1, 1)], None, 0));
  }

  /** The client's claim has been verified, and then window 2 of another client takes over. */
  lemma TakenOver()
    ensures Reachable(Solo(SERVER_3, Claimant(Object(Idle, 1, 0, 1, false, InVerify, []),
                                              [SelectionClear], Some(1), 0)))
  {
    hide Reachable;
    FirstWindow();
    var k := Claimant(Object(WaitingForTimestamp, 1, 0, 0, false, NoCall, []), [PropertyNotify(1, 1)], None, 0);
    NotifiedAndVerified(SERVER_1, k, 1);
    var k1 := Claimant(Object(Idle, 1, 0, 1, false, InVerify, []), [], Some(1), 0);
    var sv := OwnerSet(SERVER_1, 1, 1);
    OtherWindow(sv, map[0 := k1]);
    assert sv.(creator := sv.creator[2 := 9], next := 3, born := sv.born + {2}, alive := sv.alive + {2}) == SERVER_2;
    OtherOwns(SERVER_2, k1, 2);
    assert OwnerSet(SERVER_2, 2, 1) == SERVER_3;
    assert Post(k1, ClearFor(SERVER_2, 9, 0)) == k1.(queue := [SelectionClear]);
  }

  /** A client that never had to wait for a previous owner is told that it owns the selection
      with window 1, while window 2 of another client owns it: the SelectionClear is still in
      its queue. */
  lemma ClaimedWhileLost()
    ensures exists k :: Reachable(Solo(SERVER_3, k)) && k.o.signals == [ClaimedOwnership]
                        && k.o.window == 1 && k.o.timestamp != 0
    ensures SERVER_3.owner == 2
  {
    hide Reachable;
    TakenOver();
    var k := Claimant(Object(Idle, 1, 0, 1, false, InVerify, []), [SelectionClear], Some(1), 0);
    Verifies(SERVER_3, k);
    assert VerifiedBy(k).o.signals == [ClaimedOwnership];
  }

  // ---------------------------------------------------------------- lost while waiting

  const SERVER_A: Server := Server(1, 1, 1, 2, map[1 := 9], {1}, {1}, {}, {1}, {})

  const SERVER_B: Server := Server(1, 1, 1, 3, map[1 := 9, 2 := 0], {1, 2}, {1, 2}, {(0, 1), (0, 2)}, {1}, {})

  const SERVER_C: Server := Server(1, 1, 1, 3, map[1 := 9, 2 := 0], {1, 2}, {1, 2}, {(0, 1), (0, 2)}, {1, 2}, {})

  lemma PreviousOwner()
    ensures Reachable(System(SERVER_A, map[]))
  {
    hide Reachable;
    StartIsReachable();
    OtherWindow(SERVER_0, map[]);
    var sv := SERVER_A.(owner := 0, lastChange := 0, owned := {});
    assert SERVER_0.creator[1 := 9] == sv.creator && SERVER_0.born + {1} == sv.born;
    ReachesNext(System(sv, map[]), ForeignSetOwner(9, 1, 1));
    assert Told(System(sv, map[]), SERVER_A, (d: Client) => ClearFor(sv, 9, d)) == System(SERVER_A, map[]);
    assert OwnerSet(sv, 1, 1) == SERVER_A;
  }

  lemma SecondWindow()
    ensures Reachable(Solo(SERVER_B, Claimant(Object(WaitingForTimestamp, 2, 1, 0, true, NoCall, []),
                                              [PropertyNotify(2, 1)], None, 1)))
  {
    hide Reachable;
    PreviousOwner();
    AskedAndTold(SERVER_A, true);
    var k := Conn(Object(Idle, 0, 0, 0, false, InClaim(true, true), []), [], Some(1), {}, true, true, 1, 0, false);
    Starts(SERVER_A, k);
    var rs := [SelectStructure(1), CreateWindow(2), ChangeProperty(2)];
    var k1 := Claimant(Object(WaitingForTimestamp, 2, 1, 0, true, NoCall, rs), [], None, 1);
    assert ClaimContinued(k.o, 1, 2).requests == rs;
    assert ClaimUnderWay(k, 2) == k1;
    MakesWindow(Allocated(SERVER_A, 0), k1);
  }

  lemma MakesWindow(sv: Server, k1: Conn)
    requires Reachable(Solo(sv, k1)) && sv == Allocated(SERVER_A, 0)
    requires k1 == Claimant(Object(WaitingForTimestamp, 2, 1, 0, true, NoCall,
                                   [SelectStructure(1), CreateWindow(2), ChangeProperty(2)]), [], None, 1)
    ensures Reachable(Solo(SERVER_B, Claimant(Object(WaitingForTimestamp, 2, 1, 0, true, NoCall, []),
                                              [PropertyNotify(2, 1)], None, 1)))
  {
    hide Reachable;
    var k2 := PopRequest(k1);
    var sv1 := sv.(selects := sv.selects + {(0, 1)});
    assert k2.o.requests == [CreateWindow(2), ChangeProperty(2)];
    assert k2.o.requests[1..] == [ChangeProperty(2)] && [ChangeProperty(2)][1..] == [];
    Selects(sv, k1);
    Creates(sv1, k2);
    assert Created(sv1, 0, 2) == SERVER_B;
    Announces(SERVER_B, PopRequest(k2), 2, Claimant(Object(WaitingForTimestamp, 2, 1, 0, true, NoCall, []),
                                                    [PropertyNotify(2, 1)], None, 1));
  }

  /** The client has verified its claim, waits for window 1 to go away, and loses to it. */
  lemma LostWhileWaiting()
    ensures exists k :: Reachable(Solo(SERVER_C, k)) && k.o.state == WaitingForPreviousOwner
                        && k.o.timer && k.o.forceKill && k.o.call == NoCall && k.dropped
                        && k.o.signals == [LostOwnership] && k.o.timestamp == 0 && k.o.prevOwner == 1
                        && k.o.requests == [DeselectAll(2), DestroyWindow(2)]
  {
    hide Reachable;
    SecondWindow();
    var k := Claimant(Object(WaitingForTimestamp, 2, 1, 0, true, NoCall, []), [PropertyNotify(2, 1)], None, 1);
    NotifiedAndVerified(SERVER_B, k, 2);
    var sv := OwnerSet(SERVER_B, 2, 1);
    var k1 := Claimant(Object(Idle, 2, 1, 1, true, InVerify, []), [], Some(2), 1);
    Verifies(sv, k1);
    var k2 := VerifiedBy(k1);
    assert k2.o == k1.o.(call := NoCall, timer := true, state := WaitingForPreviousOwner);
    OtherOwns(sv, k2, 1);
    assert OwnerSet(sv, 1, 1) == SERVER_C;
    assert Post(k2, ClearFor(sv, 9, 0)) == k2.(queue := [SelectionClear]);
    Dispatches(SERVER_C, k2.(queue := [SelectionClear]));
    var k3 := Handled(k2.(queue := [SelectionClear]));
    assert k3.o.signals == [LostOwnership];
    assert [] + [LostOwnership] == [LostOwnership];
    assert k3.o.requests == [] + [DeselectAll(2), DestroyWindow(2)] == [DeselectAll(2), DestroyWindow(2)];
  }

  /** Window 1 of the other client owns the selection. */
  predicate OwnsWindow1(sv: Server) {
    sv.owner == 1 && Mine(sv, 9, 1) && 1 in sv.alive
  }

  /** The two requests that give the window up. */
  lemma GivesUp(k: Conn, rest: seq<Request>)
    requires Reachable(Solo(SERVER_C, k)) && k.o.requests == [DeselectAll(2), DestroyWindow(2)] + rest
    ensures exists sv: Server :: OwnsWindow1(sv) && Reachable(Solo(sv, k.(o := k.o.(requests := rest))))
  {
    hide Reachable;
    assert k.o.requests[1..] == [DestroyWindow(2)] + rest && k.o.requests[1..][1..] == rest;
    Deselects(SERVER_C, k, 2);
    var sv := SERVER_C.(selects := SERVER_C.selects - {(0, 2)});
    Destroys(sv, PopRequest(k), 2);
    assert DestroyFor(sv, 2, 0) == [];
    assert Post(PopRequest(PopRequest(k)), []) == k.(o := k.o.(requests := rest));
  }

  /** The kill request is executed and the other client's window disappears. */
  lemma OtherKilled(sv: Server, k: Conn)
    requires Reachable(Solo(sv, k)) && k.o.requests == [KillClient(1)] && OwnsWindow1(sv)
    ensures exists sv1: Server, queue :: sv1.owner == 0
              && Reachable(Solo(sv1, k.(o := k.o.(requests := []), reply := Some(1), queue := queue)))
  {
    hide Reachable;
    assert k.o.requests[1..] == [];
    Kills(sv, k, 1);
    var k1 := Checked(PopRequest(k), 1);
    var sv1 := sv.(gone := sv.gone + {9});
    OtherDies(sv1, k1, 1);
    assert Post(k1, DestroyFor(sv1, 1, 0))
           == k.(o := k.o.(requests := []), reply := Some(1), queue := k.queue + DestroyFor(sv1, 1, 0));
  }

  /** The timer of a client that has lost its claim meanwhile. */
  lemma TimesOut(k: Conn)
    requires Reachable(Solo(SERVER_C, k)) && k.o.timer && k.o.forceKill && k.o.call == NoCall
    requires k.o.prevOwner == 1 && k.o.requests == [DeselectAll(2), DestroyWindow(2)]
    ensures exists sv: Server :: OwnsWindow1(sv)
                                 && Reachable(Solo(sv, k.(o := TimedOut(k.o).(requests := [KillClient(1)]))))
  {
    hide Reachable;
    var k1 := k.(o := TimedOut(k.o));
    Goes(Solo(SERVER_C, k), TimerFires(0), Solo(SERVER_C, k1));
    GivesUp(k1, [KillClient(1)]);
  }

  lemma ClaimsAtLast(sv: Server, k: Conn)
    requires Reachable(Solo(sv, k)) && k.o.call == InKill && k.o.requests == [KillClient(1)]
    requires OwnsWindow1(sv)
    ensures exists sv1, k1 :: Reachable(Solo(sv1, k1)) && sv1.owner == 0 && k1.dropped == k.dropped
                              && k1.o == Killed(k.o.(requests := []))
  {
    hide Reachable, Killed;
    OtherKilled(sv, k);
    var sv1: Server, queue :| sv1.owner == 0
                              && Reachable(Solo(sv1, k.(o := k.o.(requests := []), reply := Some(1), queue := queue)));
    GoesOn(sv1, k.(o := k.o.(requests := []), reply := Some(1), queue := queue));
  }

  /** A forced claim that is lost again while it waits for the previous owner: the timer then
      has that owner killed, and claimedOwnership is emitted after lostOwnership, while the
      selection has no owner at all. */
  lemma ClaimedAfterLoss()
    ensures exists sv, k :: Reachable(Solo(sv, k)) && sv.owner == 0 && OwnerWindowOf(k.o) == 0 && k.dropped
                            && k.o.signals == [LostOwnership, ClaimedOwnership]
  {
    hide Reachable;
    LostWhileWaiting();
    var k :| Reachable(Solo(SERVER_C, k)) && k.o.state == WaitingForPreviousOwner
             && k.o.timer && k.o.forceKill && k.o.call == NoCall && k.dropped
             && k.o.signals == [LostOwnership] && k.o.timestamp == 0 && k.o.prevOwner == 1
             && k.o.requests == [DeselectAll(2), DestroyWindow(2)];
    TimesOut(k);
    var k2 := k.(o := TimedOut(k.o).(requests := [KillClient(1)]));
    var sv: Server :| OwnsWindow1(sv) && Reachable(Solo(sv, k2));
    ClaimsAtLast(sv, k2);
    assert Killed(k2.o.(requests := [])).signals == [LostOwnership] + [ClaimedOwnership];
  }
}
