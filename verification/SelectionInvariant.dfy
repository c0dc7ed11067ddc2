/** The invariant of the selection system: what holds of every client, and that every step of
    every client, of the server and of the environment keeps it. */
module SelectionInvariant {
  import opened SelectionOwner
  import opened SelectionSystem

  // ---------------------------------------------------------------- the invariant

  predicate ServerOk(sv: Server) {
    && sv.now >= 1 && sv.next >= 1
    && (forall w :: w in sv.creator ==> 1 <= w < sv.next)
    && (forall w :: w in sv.alive ==> w in sv.born)
    && (forall w :: w in sv.born ==> w in sv.creator)
    && (sv.owner != 0 ==> sv.owner in sv.alive && sv.owner in sv.owned)
    && (forall w :: w in sv.owned && w != 0 ==> w in sv.born)
  }

  /** Requests left over from earlier claims: nothing that could gain the selection, and
      nothing that the object waits for. */
  predicate Harmless(r: Request) {
    !r.GetOwner? && !r.SetOwner? && !r.CreateWindow? && !r.KillClient?
  }

  predicate AllHarmless(rs: seq<Request>) {
    forall r :: r in rs ==> Harmless(r)
  }

  predicate AllSettled(rs: seq<Request>) {
    forall r :: r in rs ==> r.Announce?
  }

  /** The last steps of acquiring a window and a timestamp. */
  predicate StartingUp(rs: seq<Request>, w: Window) {
    || rs == [] || rs == [ChangeProperty(w)] || rs == [CreateWindow(w), ChangeProperty(w)]
    || (|rs| == 3 && rs[0].SelectStructure? && rs[1..] == [CreateWindow(w), ChangeProperty(w)])
  }

  predicate Verifying(rs: seq<Request>, w: Window, t: Time) {
    || rs == [] || rs == [GetOwner] || rs == [SetOwner(w, t), GetOwner]
    || rs == [ChangeProperty(w), SetOwner(w, t), GetOwner]
  }

  predicate Claiming(rs: seq<Request>) {
    rs == [] || (rs[|rs| - 1] == GetOwner && AllHarmless(rs[..|rs| - 1]))
  }

  predicate LeftOver(rs: seq<Request>, settled: bool) {
    if settled then AllSettled(rs) else AllHarmless(rs)
  }

  predicate Killing(rs: seq<Request>, w: Window, settled: bool) {
    rs == [] || (rs[|rs| - 1] == KillClient(w) && LeftOver(rs[..|rs| - 1], settled))
  }

  /** The object waits for the previous owner to go away, or for the server to kill it. */
  predicate Waiting(o: Owner) {
    o.state == WaitingForPreviousOwner || o.call == InKill
  }

  function Outcomes(signals: seq<Signal>): nat {
    if signals == [] then 0
    else (if signals[|signals| - 1].LostOwnership? then 0 else 1) + Outcomes(signals[..|signals| - 1])
  }

  /** The phases of a claim. */
  predicate Phases(k: Conn) {
    var o := k.o;
    && (o.timer <==> o.state == WaitingForPreviousOwner)
    && (o.state == WaitingForPreviousOwner ==>
          o.forceKill && o.prevOwner != 0 && o.call == NoCall)
    && (Waiting(o) ==> (k.dropped <==> o.timestamp == 0))
    && (o.call == InKill ==> o.state == Idle && o.prevOwner != 0)
    && (o.state == WaitingForTimestamp ==> o.call == NoCall && o.timestamp == 0 && o.window != 0)
    && (o.timestamp != 0 ==> o.window != 0)
    && (o.call == InVerify ==> o.state == Idle && o.timestamp != 0)
    && (o.call.InClaim? ==> o.state == Idle && o.timestamp == 0)
    && (if o.call == NoCall then k.reply == None else k.reply.Some? <==> o.requests == [])
  }

  /** What may be on the way to the server in each phase. */
  predicate Sending(o: Owner) {
    && (o.state == WaitingForTimestamp ==> StartingUp(o.requests, o.window))
    && (o.call == InVerify ==> Verifying(o.requests, o.window, o.timestamp))
    && (o.call.InClaim? ==> Claiming(o.requests))
    && (o.call == NoCall && o.state != WaitingForTimestamp ==>
          LeftOver(o.requests, o.timestamp != 0))
    && (o.call == InKill ==> Killing(o.requests, o.prevOwner, o.timestamp != 0))
  }

  predicate Ledgered(o: Owner) {
    o.claims == Outcomes(o.signals) + if o.state != Idle || o.call != NoCall then 1 else 0
  }

  /** What holds of a client on its own. */
  predicate Shape(k: Conn) {
    Phases(k) && Sending(k.o) && Ledgered(k.o)
  }

  /** Something in the queue will make the object drop the claim it reports. */
  predicate LossPending(k: Conn) {
    SelectionClear in k.queue || DestroyNotify(k.o.window) in k.queue
  }

  /** The object has set the selection and knows that it held it. */
  predicate Settled(k: Conn) {
    k.o.call != InVerify || k.reply == Some(k.o.window)
  }

  /** No SelectionClear can arrive after the notification that starts a claim. */
  predicate ClearsFirst(queue: seq<Event>, w: Window) {
    forall i, j :: 0 <= i < j < |queue| && queue[i].PropertyNotify? && queue[i].window == w
      ==> queue[j] != SelectionClear
  }

  predicate Sets(rs: seq<Request>) {
    exists r :: r in rs && r.SetOwner?
  }

  /** The window of an earlier owner, of another client. */
  predicate Foreign(sv: Server, c: Client, w: Window) {
    w in sv.creator && !Mine(sv, c, w) && w in sv.owned
  }

  /** The windows a client knows: its own, and the owner that its claim found. */
  predicate Ids(sv: Server, c: Client, k: Conn) {
    var o := k.o;
    && (o.window != 0 ==> Mine(sv, c, o.window))
    && (k.found != 0 ==> Foreign(sv, c, k.found))
    && (o.prevOwner != 0 ==> Foreign(sv, c, o.prevOwner))
    && (forall r :: r in o.requests && r.KillClient? ==> Foreign(sv, c, r.window))
    && (forall r :: r in o.requests && r.CreateWindow? ==> r.window !in sv.born)
    && (o.call.InClaim? && k.reply.Some? ==> k.reply.value == k.found && k.found !in k.seen)
    && (o.prevOwner != 0 && (o.state != Idle || o.call == InVerify || o.call == InKill) ==>
          o.prevOwner == k.found && k.found !in k.seen && k.forced)
    && (o.call.InClaim? ==> o.call.force == k.forced && o.call.forceKill == k.killing)
    && (o.state != Idle || o.call == InVerify || o.call == InKill ==>
          o.forceKill == k.killing && (k.found !in k.seen ==> o.prevOwner == k.found))
    && (o.call == InVerify && k.reply.Some? ==> k.reply.value == k.answer)
  }

  /** Who owns the selection, and what the client believes. */
  predicate Owning(sv: Server, c: Client, k: Conn) {
    var o := k.o;
    && (Mine(sv, c, sv.owner) ==>
          (o.timestamp != 0 && o.window == sv.owner) || DestroyWindow(sv.owner) in o.requests)
    && (o.timestamp != 0 && o.window == sv.owner ==> SelectionClear !in k.queue)
    && (o.timestamp != 0 && o.window != sv.owner && Settled(k) ==> LossPending(k))
    && (o.call == InVerify && k.reply.Some? && k.reply.value != o.window ==> o.window != sv.owner)
    && (Sets(o.requests) ==> SelectionClear !in k.queue && !Mine(sv, c, sv.owner))
    && (o.state == WaitingForTimestamp ==> ClearsFirst(k.queue, o.window))
    && (Waiting(o) && o.timestamp == 0 && o.window != 0 ==> sv.owner != o.window)
  }

  /** The object will hear of the end of its own window. */
  predicate Living(sv: Server, c: Client, o: Owner) {
    && (o.window in sv.alive && (o.timestamp != 0 || o.state == WaitingForTimestamp) ==>
          (c, o.window) in sv.selects)
    && (o.timestamp != 0 ==> o.window in sv.born)
    && (o.state == WaitingForTimestamp ==>
          (o.window in sv.born <==> CreateWindow(o.window) !in o.requests))
  }

  /** Events tell the truth. */
  predicate Heard(sv: Server, k: Conn) {
    && (forall e :: e in k.queue && e.DestroyNotify? ==> e.window in sv.born && e.window !in sv.alive)
    && (forall e :: e in k.queue && e.PropertyNotify? ==> e.window in sv.born && e.time != 0)
    && (forall w :: w in k.seen ==> w in sv.born && w !in sv.alive)
  }

  predicate Linked(sv: Server, c: Client, k: Conn) {
    Ids(sv, c, k) && Living(sv, c, k.o) && Heard(sv, k)
  }

  /** What ties a client to the server. */
  predicate Tied(sv: Server, c: Client, k: Conn) {
    Linked(sv, c, k) && Owning(sv, c, k)
  }

  predicate ClientOk(sv: Server, c: Client, k: Conn) {
    Shape(k) && Tied(sv, c, k)
  }

  predicate Inv(sys: System) {
    && ServerOk(sys.server)
    && forall c :: c in sys.clients ==> ClientOk(sys.server, c, sys.clients[c])
  }

  // ---------------------------------------------------------------- what server events do to a client

  lemma OwnerChangeOwning(sv: Server, w: Window, t: Time, src: Client, c: Client, k: Conn)
    requires ServerOk(sv) && Phases(k) && Sending(k.o) && Ids(sv, c, k) && Owning(sv, c, k)
    requires c != src && !Mine(sv, c, w) && MayOwn(sv, w, t)
    ensures Owning(OwnerSet(sv, w, t), c, Post(k, ClearFor(sv, src, c)))
  {
    if k.o.state == WaitingForTimestamp {
      StartingDestroysNothing(k.o.requests, k.o.window);
      assert k.queue + [] == k.queue;
    }
    hide Sending;
  }

  lemma StartingDestroysNothing(rs: seq<Request>, w: Window)
    requires StartingUp(rs, w)
    ensures forall r :: r in rs ==> !r.DestroyWindow?
  {
    if |rs| == 3 {
      assert rs == [rs[0]] + rs[1..];
    }
  }

  lemma OwnerChangeLinked(sv: Server, w: Window, t: Time, src: Client, c: Client, k: Conn)
    requires Linked(sv, c, k)
    ensures Linked(OwnerSet(sv, w, t), c, Post(k, ClearFor(sv, src, c)))
  {
    hide MayOwn;
  }

  lemma GoneOwning(sv: Server, w: Window, c: Client, k: Conn)
    requires ServerOk(sv) && Phases(k) && Ids(sv, c, k) && Living(sv, c, k.o) && Owning(sv, c, k)
    ensures Owning(WindowGone(sv, w), c, Post(k, DestroyFor(sv, w, c)))
  {
  }

  lemma GoneLinked(sv: Server, w: Window, c: Client, k: Conn)
    requires ServerOk(sv) && Linked(sv, c, k)
    ensures Linked(WindowGone(sv, w), c, Post(k, DestroyFor(sv, w, c)))
  {
  }

  lemma PropertyOwning(sv: Server, w: Window, c: Client, k: Conn)
    requires Phases(k) && Ids(sv, c, k) && Living(sv, c, k.o) && Owning(sv, c, k)
    ensures Owning(sv, c, Post(k, PropertyFor(sv, w, c)))
  {
  }

  lemma PropertyLinked(sv: Server, w: Window, c: Client, k: Conn)
    requires ServerOk(sv) && Linked(sv, c, k)
    ensures Linked(sv, c, Post(k, PropertyFor(sv, w, c)))
  {
  }

  /** sv1 differs from sv only by what other clients did. */
  ghost predicate Grown(sv: Server, sv1: Server, c: Client) {
    && sv1.owner == sv.owner && sv.owned <= sv1.owned
    && (forall w :: w in sv.creator ==> w in sv1.creator && sv1.creator[w] == sv.creator[w])
    && (forall w :: w in sv.born ==> w in sv1.born && (w in sv1.alive <==> w in sv.alive))
    && (forall w :: w in sv1.born && w !in sv.born ==> !Mine(sv1, c, w))
    && (forall w :: (c, w) in sv.selects ==> (c, w) in sv1.selects)
  }

  lemma GrownIds(sv: Server, sv1: Server, c: Client, k: Conn)
    requires ServerOk(sv) && Sending(k.o) && Ids(sv, c, k) && Grown(sv, sv1, c)
    requires Phases(k)
    ensures Ids(sv1, c, k)
  {
    forall r | r in k.o.requests && r.CreateWindow? ensures r.window !in sv1.born {
      CreatesOwn(k, r);
    }
    hide StartingUp, Verifying, Claiming, AllHarmless, AllSettled;
  }

  /** A client only creates its own window. */
  lemma CreatesOwn(k: Conn, r: Request)
    requires Phases(k) && Sending(k.o) && r in k.o.requests && r.CreateWindow?
    ensures k.o.state == WaitingForTimestamp && r.window == k.o.window
  {
    var rs := k.o.requests;
    if k.o.call.InClaim? {
      ClaimingCreatesNothing(rs);
    } else if k.o.call == InKill {
      KillingCreatesNothing(rs, k.o.prevOwner, k.o.timestamp != 0);
    } else if |rs| == 3 && k.o.state == WaitingForTimestamp {
      assert rs == [rs[0]] + rs[1..];
    }
  }

  lemma ClaimingCreatesNothing(rs: seq<Request>)
    requires Claiming(rs)
    ensures forall r :: r in rs ==> !r.CreateWindow?
  {
    if rs != [] {
      assert rs == rs[..|rs| - 1] + [GetOwner];
      assert forall r :: r in rs ==> r in rs[..|rs| - 1] || r == GetOwner;
    }
  }

  lemma KillingCreatesNothing(rs: seq<Request>, w: Window, settled: bool)
    requires Killing(rs, w, settled)
    ensures forall r :: r in rs ==> !r.CreateWindow?
  {
    if rs != [] {
      assert rs == rs[..|rs| - 1] + [KillClient(w)];
      assert forall r :: r in rs ==> r in rs[..|rs| - 1] || r == KillClient(w);
    }
  }

  lemma GrownLiving(sv: Server, sv1: Server, c: Client, k: Conn)
    requires ServerOk(sv) && ServerOk(sv1) && Ids(sv, c, k) && Living(sv, c, k.o) && Grown(sv, sv1, c) && Phases(k)
    ensures Living(sv1, c, k.o)
  {
  }

  lemma GrownOwning(sv: Server, sv1: Server, c: Client, k: Conn)
    requires ServerOk(sv) && ServerOk(sv1) && Owning(sv, c, k) && Grown(sv, sv1, c)
    ensures Owning(sv1, c, k)
  {
    hide ClearsFirst, Sets, LossPending, Settled;
  }

  lemma OthersGrowKeepsTied(sv: Server, sv1: Server, c: Client, k: Conn)
    requires ServerOk(sv) && ServerOk(sv1) && Shape(k) && Tied(sv, c, k) && Grown(sv, sv1, c)
    ensures Tied(sv1, c, k)
  {
    hide Phases, Sending, Ledgered, Ids, Owning, Living;
    GrownIds(sv, sv1, c, k);
    GrownLiving(sv, sv1, c, k);
    GrownOwning(sv, sv1, c, k);
  }

  // ---------------------------------------------------------------- the client's own steps

  lemma {:induction false} OutcomesSnoc(ss: seq<Signal>, s: Signal)
    ensures Outcomes(ss + [s]) == Outcomes(ss) + if s.LostOwnership? then 0 else 1
  {
    assert (ss + [s])[..|ss|] == ss;
  }

  lemma SettledIsHarmless(rs: seq<Request>)
    requires AllSettled(rs)
    ensures AllHarmless(rs) && !Sets(rs)
  {
  }

  lemma HarmlessSetsNothing(rs: seq<Request>)
    requires AllHarmless(rs)
    ensures !Sets(rs)
  {
  }

  lemma ReleasedShape(k: Conn)
    requires Shape(k) && k.o.call == NoCall
    ensures Shape(LetGo(k))
    ensures k.o.state == Idle ==> LetGo(k).o.timestamp == 0 && AllHarmless(LetGo(k).o.requests)
  {
    hide Outcomes, StartingUp, Verifying, Claiming;
    if k.o.timestamp != 0 {
      SettledIsHarmless(k.o.requests);
    }
  }

  lemma ReleasedLinked(sv: Server, c: Client, k: Conn)
    requires Phases(k) && Linked(sv, c, k) && k.o.call == NoCall
    ensures Linked(sv, c, LetGo(k))
  {
    hide Foreign, Mine;
  }

  lemma ReleasedOwning(sv: Server, c: Client, k: Conn)
    requires ServerOk(sv) && Shape(k) && Owning(sv, c, k) && k.o.call == NoCall
    ensures Owning(sv, c, LetGo(k))
  {
    hide Outcomes, StartingUp, Verifying, Claiming, ClearsFirst;
    if k.o.timestamp != 0 {
      SettledIsHarmless(k.o.requests);
      HarmlessSetsNothing(LetGo(k).o.requests);
    }
    hide Sets, AllHarmless, AllSettled;
  }

  lemma ReleaseKeepsOk(sv: Server, c: Client, k: Conn)
    requires ServerOk(sv) && ClientOk(sv, c, k) && k.o.call == NoCall
    ensures ClientOk(sv, c, LetGo(k))
  {
    ReleasedShape(k);
    hide Phases, Sending, Ledgered, Linked, Owning;
    PhasesOfShape(k);
    ReleasedLinked(sv, c, k);
    ReleasedOwning(sv, c, k);
  }

  lemma PhasesOfShape(k: Conn)
    requires Shape(k)
    ensures Phases(k) && Sending(k.o) && Ledgered(k.o)
  {
  }

  /** The second half of starting a claim: the question for the current owner. */
  function Asked(k: Conn, force: bool, forceKill: bool): Conn {
    k.(o := k.o.(requests := k.o.requests + [GetOwner], call := InClaim(force, forceKill),
                 claims := k.o.claims + 1),
       forced := force, killing := forceKill)
  }

  lemma AskedShape(k: Conn, force: bool, forceKill: bool)
    requires Shape(k) && k.o.call == NoCall && k.o.state == Idle
    requires k.o.timestamp == 0 && AllHarmless(k.o.requests)
    ensures Shape(Asked(k, force, forceKill))
  {
    hide Outcomes, StartingUp, Verifying, AllHarmless, AllSettled;
    var rs := Asked(k, force, forceKill).o.requests;
    assert rs[..|rs| - 1] == k.o.requests;
  }

  lemma AskedTied(sv: Server, c: Client, k: Conn, force: bool, forceKill: bool)
    requires Tied(sv, c, k) && Phases(k) && k.o.call == NoCall && k.o.state == Idle && k.o.timestamp == 0
    ensures Tied(sv, c, Asked(k, force, forceKill))
  {
    hide Foreign, Mine, ClearsFirst;
  }

  lemma ClaimKeepsOk(sv: Server, c: Client, k: Conn, force: bool, forceKill: bool)
    requires ServerOk(sv) && ClientOk(sv, c, k) && k.o.call == NoCall && k.o.state == Idle
    ensures ClientOk(sv, c, ClaimBegun(k, force, forceKill))
  {
    ReleaseKeepsOk(sv, c, k);
    ReleasedShape(k);
    hide Shape, Tied, AllHarmless;
    assert ClaimBegun(k, force, forceKill) == Asked(LetGo(k), force, forceKill);
    assert Phases(LetGo(k)) by {
      PhasesOfShape(LetGo(k));
    }
    hide Phases;
    AskedShape(LetGo(k), force, forceKill);
    AskedTied(sv, c, LetGo(k), force, forceKill);
  }

  lemma TimerShape(k: Conn)
    requires Shape(k) && k.o.timer
    ensures Shape(k.(o := TimedOut(k.o)))
  {
    OutcomesSnoc(k.o.signals, FailedToClaimOwnership);
    var rs := TimedOut(k.o).requests;
    assert rs[..|rs| - 1] == k.o.requests;
    hide Outcomes, StartingUp, Verifying, Claiming, LeftOver;
  }

  lemma KilledShape(k: Conn)
    requires Shape(k) && k.o.call == InKill && k.reply.Some?
    ensures Shape(KilledBy(k))
  {
    OutcomesSnoc(k.o.signals, ClaimedOwnership);
    assert [] + [Announce(k.o.window, k.o.timestamp)] == [Announce(k.o.window, k.o.timestamp)];
    hide Outcomes, StartingUp, Verifying, Claiming;
  }

  lemma KilledTied(sv: Server, c: Client, k: Conn)
    requires Phases(k) && Tied(sv, c, k) && k.o.call == InKill && k.reply.Some?
    ensures Tied(sv, c, KilledBy(k))
  {
    hide Foreign, Mine, ClearsFirst;
  }

  lemma TimerTied(sv: Server, c: Client, k: Conn)
    requires Phases(k) && Tied(sv, c, k) && k.o.timer
    ensures Tied(sv, c, k.(o := TimedOut(k.o)))
  {
    hide Foreign, Mine, ClearsFirst;
  }

  lemma VerifyShape(k: Conn)
    requires Shape(k) && k.o.call == InVerify && k.reply.Some?
    ensures Shape(VerifiedBy(k))
  {
    OutcomesSnoc(k.o.signals, ClaimedOwnership);
    OutcomesSnoc(k.o.signals, FailedToClaimOwnership);
    hide Outcomes, StartingUp, Claiming;
  }

  lemma VerifyLinked(sv: Server, c: Client, k: Conn)
    requires Phases(k) && Linked(sv, c, k) && k.o.call == InVerify && k.reply.Some?
    ensures Linked(sv, c, VerifiedBy(k))
  {
    hide Foreign, Mine;
  }

  lemma VerifyOwning(sv: Server, c: Client, k: Conn)
    requires Phases(k) && Owning(sv, c, k) && k.o.call == InVerify && k.reply.Some?
    ensures Owning(sv, c, VerifiedBy(k))
  {
    hide Mine, ClearsFirst;
  }

  lemma VerifyKeepsOk(sv: Server, c: Client, k: Conn)
    requires ClientOk(sv, c, k) && k.o.call == InVerify && k.reply.Some?
    ensures ClientOk(sv, c, VerifiedBy(k))
  {
    VerifyShape(k);
    PhasesOfShape(k);
    hide Shape, Phases, Linked, Owning;
    VerifyLinked(sv, c, k);
    VerifyOwning(sv, c, k);
  }

  // ---------------------------------------------------------------- events

  lemma ClearShape(k: Conn)
    requires Shape(k) && k.o.call == NoCall && k.queue != [] && k.queue[0].SelectionClear?
    ensures Shape(Handled(k))
  {
    OutcomesSnoc(k.o.signals, LostOwnership);
    SettledIsHarmless0(k.o.requests);
    hide Outcomes, StartingUp, Verifying, Claiming;
  }

  lemma SettledIsHarmless0(rs: seq<Request>)
    ensures AllSettled(rs) ==> AllHarmless(rs)
  {
  }

  lemma ClearLinked(sv: Server, c: Client, k: Conn)
    requires Phases(k) && Linked(sv, c, k) && k.o.call == NoCall
    requires k.queue != [] && k.queue[0].SelectionClear?
    ensures Linked(sv, c, Handled(k))
  {
    hide Foreign, Mine;
  }

  lemma ClearOwning(sv: Server, c: Client, k: Conn)
    requires Phases(k) && Sending(k.o) && Owning(sv, c, k) && k.o.call == NoCall
    requires k.queue != [] && k.queue[0].SelectionClear?
    ensures Owning(sv, c, Handled(k))
  {
    assert k.queue[0] in k.queue;
    TailClearsFirst(k.queue, k.o.window);
    hide Mine, ClearsFirst, StartingUp, Verifying, Claiming;
  }

  lemma TailClearsFirst(queue: seq<Event>, w: Window)
    requires queue != []
    ensures ClearsFirst(queue, w) ==> ClearsFirst(queue[1..], w)
  {
  }

  lemma DestroyShape(k: Conn)
    requires Shape(k) && k.o.call == NoCall && k.queue != [] && k.queue[0].DestroyNotify?
    ensures Shape(Handled(k))
  {
    OutcomesSnoc(k.o.signals, ClaimedOwnership);
    OutcomesSnoc(k.o.signals, LostOwnership);
    SettledIsHarmless0(k.o.requests);
    hide Outcomes, StartingUp, Verifying, Claiming;
  }

  lemma DestroyLinked(sv: Server, c: Client, k: Conn)
    requires Phases(k) && Linked(sv, c, k) && k.o.call == NoCall
    requires k.queue != [] && k.queue[0].DestroyNotify?
    ensures Linked(sv, c, Handled(k))
  {
    assert k.queue[0] in k.queue;
    hide Mine;
  }

  /** Any event but SelectionClear that leaves the claim as it was. */
  lemma TailOwning(sv: Server, c: Client, k: Conn)
    requires Owning(sv, c, k) && k.queue != [] && k.queue[0] != SelectionClear
    requires k.queue[0] == DestroyNotify(k.o.window) ==> k.o.timestamp == 0
    ensures Owning(sv, c, k.(queue := k.queue[1..]))
  {
    TailClearsFirst(k.queue, k.o.window);
    assert forall e :: e in k.queue <==> e == k.queue[0] || e in k.queue[1..];
    hide Mine, ClearsFirst;
  }

  /** A claim given up because its window is gone. */
  lemma GoneWindowOwning(sv: Server, c: Client, k: Conn)
    requires Phases(k) && Owning(sv, c, k) && k.o.call == NoCall && k.queue != []
    requires k.o.timestamp != 0 && sv.owner != k.o.window
    ensures Owning(sv, c, k.(o := k.o.(timestamp := 0), queue := k.queue[1..]))
  {
    assert forall e :: e in k.queue <==> e == k.queue[0] || e in k.queue[1..];
    hide Mine, ClearsFirst;
  }

  predicate SameClaim(o: Owner, o1: Owner) {
    o1.timestamp == o.timestamp && o1.window == o.window && o1.call == o.call
  }

  /** Owning depends on little of the object; harmless requests do not matter. */
  lemma OwningOf(sv: Server, c: Client, k: Conn, k1: Conn)
    requires Owning(sv, c, k) && SameClaim(k.o, k1.o) && k1.queue == k.queue && k1.reply == k.reply
    requires k1.o.state == k.o.state || k1.o.state == Idle
    requires k1.o.requests == k.o.requests || (exists r :: k1.o.requests == k.o.requests + [r] && Harmless(r))
    ensures Owning(sv, c, k1)
  {
    hide Mine, ClearsFirst;
  }

  lemma DestroyOwning(sv: Server, c: Client, k: Conn)
    requires ServerOk(sv) && Phases(k) && Ids(sv, c, k) && Heard(sv, k) && Owning(sv, c, k)
    requires k.o.call == NoCall && k.queue != [] && k.queue[0].DestroyNotify?
    ensures Owning(sv, c, Handled(k))
  {
    var w := k.queue[0].window;
    var o1 := Filtered(k.o, k.queue[0]);
    assert k.queue[0] in k.queue;
    assert sv.owner != w || w == 0;
    assert k.o.prevOwner != k.o.window || k.o.window == 0;
    hide Owning, Heard, Ids, Mine;
    if o1.timestamp != k.o.timestamp {
      GoneWindowOwning(sv, c, k);
      OwningOf(sv, c, k.(o := k.o.(timestamp := 0), queue := k.queue[1..]), Handled(k));
    } else {
      TailOwning(sv, c, k);
      assert o1.requests == k.o.requests
             || (o1.requests == k.o.requests + [Announce(k.o.window, k.o.timestamp)]
                 && Harmless(Announce(k.o.window, k.o.timestamp)));
      OwningOf(sv, c, k.(queue := k.queue[1..]), Handled(k));
    }
  }

  lemma StartedUp(rs: seq<Request>, w: Window)
    requires StartingUp(rs, w)
    ensures CreateWindow(w) in rs || rs == [] || rs == [ChangeProperty(w)]
  {
    if |rs| == 3 {
      assert rs[1] == rs[1..][0];
    }
  }

  /** When the notification of the new window's property arrives, only the request that caused
      it, or nothing, can still be on the way. */
  lemma NotifiedRequests(sv: Server, c: Client, k: Conn)
    requires Phases(k) && Sending(k.o) && Living(sv, c, k.o) && Heard(sv, k)
    requires k.o.state == WaitingForTimestamp && k.queue != []
    requires k.queue[0].PropertyNotify? && k.queue[0].window == k.o.window
    ensures k.o.requests == [] || k.o.requests == [ChangeProperty(k.o.window)]
    ensures k.queue[0].time != 0 && k.o.window in sv.born
  {
    assert k.queue[0] in k.queue;
    StartedUp(k.o.requests, k.o.window);
  }

  lemma PropertyShape(sv: Server, c: Client, k: Conn)
    requires Shape(k) && Living(sv, c, k.o) && Heard(sv, k) && k.o.call == NoCall
    requires k.queue != [] && k.queue[0].PropertyNotify?
    ensures Shape(Handled(k))
  {
    if k.o.state == WaitingForTimestamp && k.queue[0].window == k.o.window {
      NotifiedRequests(sv, c, k);
    }
    hide Outcomes, StartingUp, Claiming, Living, Heard;
  }

  lemma PropertyHandledLinked(sv: Server, c: Client, k: Conn)
    requires Phases(k) && Sending(k.o) && Linked(sv, c, k) && k.o.call == NoCall
    requires k.queue != [] && k.queue[0].PropertyNotify?
    ensures Linked(sv, c, Handled(k))
  {
    if k.o.state == WaitingForTimestamp && k.queue[0].window == k.o.window {
      NotifiedRequests(sv, c, k);
    }
    hide Foreign, Mine, Sending;
  }

  lemma PropertyHandledOwning(sv: Server, c: Client, k: Conn)
    requires Phases(k) && Sending(k.o) && Living(sv, c, k.o) && Heard(sv, k) && Owning(sv, c, k)
    requires k.o.call == NoCall && k.queue != [] && k.queue[0].PropertyNotify?
    ensures Owning(sv, c, Handled(k))
  {
    TailClearsFirst(k.queue, k.o.window);
    if k.o.state == WaitingForTimestamp && k.queue[0].window == k.o.window {
      NotifiedRequests(sv, c, k);
      assert SelectionClear !in k.queue[1..];
    }
    hide Mine, ClearsFirst, Sending, Living, Heard;
  }

  lemma OtherKeepsOk(sv: Server, c: Client, k: Conn)
    requires ClientOk(sv, c, k) && k.o.call == NoCall && k.queue != [] && k.queue[0].OtherEvent?
    ensures ClientOk(sv, c, Handled(k))
  {
    TailClearsFirst(k.queue, k.o.window);
    hide Foreign, Mine, ClearsFirst, Sending, Ledgered;
  }

  lemma DispatchKeepsOk(sv: Server, c: Client, k: Conn)
    requires ServerOk(sv) && ClientOk(sv, c, k) && k.o.call == NoCall && k.queue != []
    ensures ClientOk(sv, c, Handled(k))
  {
    hide Phases, Sending, Ledgered, Ids, Living, Heard, Owning, ServerOk;
    match k.queue[0]
    case SelectionClear =>
      ClearShape(k);
      ClearLinked(sv, c, k);
      ClearOwning(sv, c, k);
    case DestroyNotify(_) =>
      DestroyShape(k);
      DestroyLinked(sv, c, k);
      DestroyOwning(sv, c, k);
    case PropertyNotify(_, _) =>
      PropertyShape(sv, c, k);
      PropertyHandledLinked(sv, c, k);
      PropertyHandledOwning(sv, c, k);
    case OtherEvent => OtherKeepsOk(sv, c, k);
  }

  // ---------------------------------------------------------------- reading a reply

  function FailedClaim(k: Conn): Conn
    requires k.o.call.InClaim? && k.reply.Some?
  {
    k.(o := ClaimContinued(k.o, k.reply.value, 0), reply := None)
  }

  lemma FailedClaimShape(k: Conn)
    requires Shape(k) && k.o.call.InClaim? && k.reply.Some? && k.reply.value != 0 && !k.o.call.force
    ensures Shape(FailedClaim(k))
  {
    OutcomesSnoc(k.o.signals, FailedToClaimOwnership);
    hide Outcomes, StartingUp, Verifying;
  }

  lemma FailedClaimTied(sv: Server, c: Client, k: Conn)
    requires Phases(k) && Tied(sv, c, k)
    requires k.o.call.InClaim? && k.reply.Some? && k.reply.value != 0 && !k.o.call.force
    ensures Tied(sv, c, FailedClaim(k))
  {
    hide Foreign, Mine, ClearsFirst;
  }

  function Allocated(sv: Server, c: Client): Server {
    sv.(creator := sv.creator[sv.next := c], next := sv.next + 1)
  }

  function ClaimUnderWay(k: Conn, w: Window): Conn
    requires k.o.call.InClaim? && k.reply.Some?
  {
    k.(o := ClaimContinued(k.o, k.reply.value, w), reply := None)
  }

  lemma StartingRequests(rs: seq<Request>, before: seq<Request>, w: Window)
    requires before == [] || (|before| == 1 && before[0].SelectStructure?)
    requires rs == before + [CreateWindow(w), ChangeProperty(w)]
    ensures StartingUp(rs, w) && CreateWindow(w) in rs && !Sets(rs)
    ensures forall r :: r in rs ==> r.SelectStructure? || r == CreateWindow(w) || r == ChangeProperty(w)
  {
    assert CreateWindow(w) in [CreateWindow(w), ChangeProperty(w)];
    assert forall r :: r in rs ==> r in before || r in [CreateWindow(w), ChangeProperty(w)];
  }

  lemma StartedRequests(k: Conn, w: Window)
    requires k.o.call.InClaim? && k.reply.Some? && k.o.requests == []
    requires k.reply.value == 0 || k.o.call.force
    ensures var rs := ClaimUnderWay(k, w).o.requests;
            && StartingUp(rs, w) && CreateWindow(w) in rs && !Sets(rs)
            && (forall r :: r in rs ==> r.SelectStructure? || r == CreateWindow(w) || r == ChangeProperty(w))
  {
    hide StartingUp, Sets;
    var before := if k.reply.value != 0 then [SelectStructure(k.reply.value)] else [];
    StartingRequests(before + [CreateWindow(w), ChangeProperty(w)], before, w);
    assert ClaimUnderWay(k, w).o.requests == before + [CreateWindow(w), ChangeProperty(w)];
  }

  lemma StartedShape(k: Conn, w: Window)
    requires Shape(k) && k.o.call.InClaim? && k.reply.Some? && w != 0
    requires k.reply.value == 0 || k.o.call.force
    ensures Shape(ClaimUnderWay(k, w))
  {
    StartedRequests(k, w);
    StartedPhases(k, w);
    hide Outcomes, StartingUp, Verifying, Claiming, AllHarmless, AllSettled, Phases, Sets;
  }

  lemma StartedPhases(k: Conn, w: Window)
    requires Phases(k) && k.o.call.InClaim? && k.reply.Some? && w != 0
    requires k.reply.value == 0 || k.o.call.force
    ensures Phases(ClaimUnderWay(k, w))
    ensures k.o.requests == [] && k.o.state == Idle
  {
  }

  /** No event can be about a window whose id is new. */
  lemma NewIdIsUnseen(sv: Server, c: Client, k: Conn)
    requires ServerOk(sv) && Heard(sv, k)
    ensures ClearsFirst(k.queue, sv.next) && sv.next !in sv.born
  {
    assert forall i :: 0 <= i < |k.queue| ==> k.queue[i] in k.queue;
  }

  lemma StartedIds(sv1: Server, c: Client, k: Conn, w: Window)
    requires Phases(k) && Ids(sv1, c, k) && k.o.call.InClaim? && k.reply.Some?
    requires k.reply.value == 0 || k.o.call.force
    requires Mine(sv1, c, w) && w !in sv1.born
    ensures Ids(sv1, c, ClaimUnderWay(k, w))
  {
    StartedRequests(k, w);
    hide StartingUp, Sets, Foreign, Mine;
    assert forall r :: r in ClaimUnderWay(k, w).o.requests ==> !r.KillClient? && (r.CreateWindow? ==> r.window == w);
  }

  lemma StartedLiving(sv1: Server, c: Client, k: Conn, w: Window)
    requires Phases(k) && k.o.call.InClaim? && k.reply.Some?
    requires k.reply.value == 0 || k.o.call.force
    requires w !in sv1.born && w !in sv1.alive
    ensures Living(sv1, c, ClaimUnderWay(k, w).o)
  {
    StartedRequests(k, w);
    hide StartingUp, Sets;
  }

  lemma StartedLinked(sv1: Server, c: Client, k: Conn, w: Window)
    requires Phases(k) && Linked(sv1, c, k) && k.o.call.InClaim? && k.reply.Some?
    requires k.reply.value == 0 || k.o.call.force
    requires Mine(sv1, c, w) && w !in sv1.born && w !in sv1.alive
    ensures Linked(sv1, c, ClaimUnderWay(k, w))
  {
    hide Ids, Living, Phases, ClaimContinued;
    StartedIds(sv1, c, k, w);
    StartedLiving(sv1, c, k, w);
  }

  lemma StartedOwning(sv1: Server, c: Client, k: Conn, w: Window)
    requires Phases(k) && Owning(sv1, c, k) && k.o.call.InClaim? && k.reply.Some?
    requires k.reply.value == 0 || k.o.call.force
    requires ClearsFirst(k.queue, w)
    ensures Owning(sv1, c, ClaimUnderWay(k, w))
  {
    StartedRequests(k, w);
    hide StartingUp, Sets, Mine, ClearsFirst;
  }

  lemma StartedClaimKeepsOk(sv: Server, c: Client, k: Conn)
    requires ServerOk(sv) && ClientOk(sv, c, k) && k.o.call.InClaim? && k.reply.Some?
    requires k.reply.value == 0 || k.o.call.force
    ensures ServerOk(Allocated(sv, c))
    ensures ClientOk(Allocated(sv, c), c, ClaimUnderWay(k, sv.next))
  {
    var sv1 := Allocated(sv, c);
    assert ServerOk(sv1) && Grown(sv, sv1, c) && Mine(sv1, c, sv.next) && sv.next != 0;
    NewIdIsUnseen(sv, c, k);
    assert sv.next !in sv1.born && sv.next !in sv1.alive;
    hide Phases, Sending, Ledgered, Ids, Living, Heard, Owning, ServerOk, Grown, Mine, ClearsFirst;
    OthersGrowKeepsTied(sv, sv1, c, k);
    StartedShape(k, sv.next);
    StartedLinked(sv1, c, k, sv.next);
    StartedOwning(sv1, c, k, sv.next);
  }

  // ---------------------------------------------------------------- executing a request

  lemma TailOf(rs: seq<Request>)
    requires rs != []
    ensures forall r :: r in rs <==> r == rs[0] || r in rs[1..]
    ensures AllHarmless(rs) ==> AllHarmless(rs[1..])
    ensures AllSettled(rs) ==> AllSettled(rs[1..])
    ensures Sets(rs[1..]) ==> Sets(rs)
    ensures Claiming(rs) && rs[0] != GetOwner ==> Claiming(rs[1..]) && rs[1..] != []
    ensures forall w, s :: Killing(rs, w, s) && !rs[0].KillClient? ==> Killing(rs[1..], w, s) && rs[1..] != []
  {
    if |rs| > 1 {
      assert rs[1..][..|rs| - 2] == rs[..|rs| - 1][1..];
      var front := rs[..|rs| - 1];
      assert forall r :: r in front[1..] ==> r in front;
    }
  }

  lemma KillingFirst(rs: seq<Request>, w: Window, settled: bool)
    requires rs != [] && Killing(rs, w, settled)
    ensures rs[0].KillClient? ==> rs == [KillClient(w)]
    ensures !rs[0].KillClient? ==> Harmless(rs[0]) && (settled ==> rs[0].Announce?)
  {
    if |rs| > 1 {
      assert rs[..|rs| - 1][0] in rs[..|rs| - 1];
    }
  }

  lemma ClaimingFirst(rs: seq<Request>)
    requires rs != [] && Claiming(rs)
    ensures Harmless(rs[0]) || rs == [GetOwner]
  {
    if |rs| > 1 {
      assert rs[..|rs| - 1][0] in rs[..|rs| - 1];
    }
  }

  lemma StartingTail(rs: seq<Request>, w: Window)
    requires rs != [] && StartingUp(rs, w)
    ensures StartingUp(rs[1..], w)
    ensures !rs[0].GetOwner? && !rs[0].DestroyWindow? && !rs[0].SetOwner?
  {
  }

  lemma VerifyingTail(rs: seq<Request>, w: Window, t: Time)
    requires rs != [] && Verifying(rs, w, t)
    ensures Verifying(rs[1..], w, t)
    ensures rs[0] == GetOwner ==> |rs| == 1
    ensures rs[0] != GetOwner ==> rs[1..] != []
    ensures !rs[0].DestroyWindow? && !rs[0].CreateWindow? && (rs[0].SetOwner? ==> rs[0] == SetOwner(w, t))
  {
  }

  lemma PopPhases(k: Conn)
    requires Phases(k) && Sending(k.o) && k.o.requests != []
    requires !k.o.requests[0].GetOwner? && !k.o.requests[0].KillClient?
    ensures Phases(PopRequest(k))
  {
    var rs := k.o.requests;
    TailOf(rs);
    if k.o.call == InVerify {
      VerifyingTail(rs, k.o.window, k.o.timestamp);
    }
    hide StartingUp, Verifying, Claiming, Killing, AllHarmless, AllSettled;
  }

  lemma PopSending(o: Owner)
    requires Sending(o) && o.requests != [] && !o.requests[0].GetOwner? && !o.requests[0].KillClient?
    ensures Sending(o.(requests := o.requests[1..]))
  {
    var rs := o.requests;
    TailOf(rs);
    if o.state == WaitingForTimestamp {
      StartingTail(rs, o.window);
    }
    if o.call == InVerify {
      VerifyingTail(rs, o.window, o.timestamp);
    }
    hide StartingUp, Verifying, Claiming, Killing, AllHarmless, AllSettled;
  }

  lemma PopShape(k: Conn)
    requires Shape(k) && k.o.requests != []
    requires !k.o.requests[0].GetOwner? && !k.o.requests[0].KillClient?
    ensures Shape(PopRequest(k))
  {
    hide Phases, Sending, Outcomes;
    PopPhases(k);
    PopSending(k.o);
  }

  lemma PopLinked(sv: Server, c: Client, k: Conn)
    requires Linked(sv, c, k) && k.o.requests != [] && !k.o.requests[0].CreateWindow?
    ensures Linked(sv, c, PopRequest(k))
  {
    TailOf(k.o.requests);
    hide Foreign, Mine;
  }

  lemma PopOwning(sv: Server, c: Client, k: Conn)
    requires Owning(sv, c, k) && k.o.requests != [] && !k.o.requests[0].DestroyWindow?
    ensures Owning(sv, c, PopRequest(k))
  {
    TailOf(k.o.requests);
    hide Sets, Mine, ClearsFirst;
  }

  lemma PopKeepsOk(sv: Server, c: Client, k: Conn)
    requires ClientOk(sv, c, k) && k.o.requests != []
    requires var r := k.o.requests[0]; !r.GetOwner? && !r.CreateWindow? && !r.DestroyWindow? && !r.KillClient?
    ensures ClientOk(sv, c, PopRequest(k))
  {
    PopShape(k);
    hide Shape, Linked, Owning;
    PopLinked(sv, c, k);
    PopOwning(sv, c, k);
  }

  /** Which phase the first request belongs to. */
  lemma FirstRequest(k: Conn)
    requires Phases(k) && Sending(k.o) && k.o.requests != []
    ensures var r, o := k.o.requests[0], k.o;
            && (r.GetOwner? ==> o.requests == [GetOwner] && (o.call.InClaim? || o.call == InVerify))
            && (r.SetOwner? ==> o.call == InVerify)
            && (r.KillClient? ==> o.call == InKill && o.requests == [KillClient(o.prevOwner)])
            && (r.DestroyWindow? || r.DeselectAll? ==>
                  o.timestamp == 0 && o.state != WaitingForTimestamp && o.call != InVerify)
  {
    var rs, o := k.o.requests, k.o;
    assert rs[0] in rs;
    if o.state == WaitingForTimestamp {
      StartingTail(rs, o.window);
    } else if o.call == InVerify {
      VerifyingTail(rs, o.window, o.timestamp);
    } else if o.call.InClaim? {
      ClaimingFirst(rs);
    } else if o.call == InKill {
      KillingFirst(rs, o.prevOwner, o.timestamp != 0);
    }
    hide StartingUp, Verifying, Claiming, Killing;
  }

  lemma GetOwnerIsLast(k: Conn)
    requires Phases(k) && Sending(k.o) && k.o.requests != [] && k.o.requests[0].GetOwner?
    ensures k.o.requests == [GetOwner] && k.o.state == Idle && (k.o.call.InClaim? || k.o.call == InVerify)
  {
    FirstRequest(k);
  }

  lemma GetOwnerShape(sv: Server, k: Conn)
    requires Shape(k) && k.o.requests != [] && k.o.requests[0].GetOwner?
    ensures Shape(Answered(sv, PopRequest(k)))
  {
    GetOwnerIsLast(k);
    hide Outcomes, StartingUp;
  }

  lemma GetOwnerTied(sv: Server, c: Client, k: Conn)
    requires ServerOk(sv) && Phases(k) && Sending(k.o) && Tied(sv, c, k)
    requires k.o.requests != [] && k.o.requests[0].GetOwner?
    ensures Tied(sv, c, Answered(sv, PopRequest(k)))
  {
    GetOwnerIsLast(k);
    hide Sending, ClearsFirst;
  }

  function Created(sv: Server, c: Client, w: Window): Server {
    sv.(alive := sv.alive + {w}, born := sv.born + {w}, selects := sv.selects + {(c, w)})
  }

  lemma CreateIsFirst(sv: Server, c: Client, k: Conn)
    requires Phases(k) && Sending(k.o) && Ids(sv, c, k) && k.o.requests != []
    requires k.o.requests[0].CreateWindow?
    ensures k.o.state == WaitingForTimestamp && k.o.window == k.o.requests[0].window
    ensures k.o.window !in sv.born && Mine(sv, c, k.o.window) && k.o.window != 0
    ensures k.o.requests[1..] == [ChangeProperty(k.o.window)]
  {
    assert k.o.requests[0] in k.o.requests;
    CreatesOwn(k, k.o.requests[0]);
  }

  lemma CreateLinked(sv: Server, c: Client, k: Conn)
    requires Phases(k) && Sending(k.o) && Linked(sv, c, k) && k.o.requests != []
    requires k.o.requests[0].CreateWindow?
    ensures Linked(Created(sv, c, k.o.window), c, PopRequest(k))
  {
    CreateIsFirst(sv, c, k);
    hide Sending;
  }

  lemma CreateOwning(sv: Server, c: Client, k: Conn)
    requires Phases(k) && Sending(k.o) && Ids(sv, c, k) && Owning(sv, c, k) && k.o.requests != []
    requires k.o.requests[0].CreateWindow?
    ensures Owning(Created(sv, c, k.o.window), c, PopRequest(k))
  {
    CreateIsFirst(sv, c, k);
    hide Sending, ClearsFirst;
  }

  lemma DestroyRequestOwning(sv: Server, c: Client, k: Conn)
    requires ServerOk(sv) && Phases(k) && Sending(k.o) && Ids(sv, c, k) && Living(sv, c, k.o) && Owning(sv, c, k)
    requires k.o.requests != [] && k.o.requests[0].DestroyWindow?
    ensures var w := k.o.requests[0].window;
            Owning(WindowGone(sv, w), c, Post(PopRequest(k), DestroyFor(sv, w, c)))
  {
    var rs := k.o.requests;
    TailOf(rs);
    DestroyRequestPhase(k);
    hide Sets, Sending, AllHarmless;
  }

  /** The object only destroys windows after it has given up on them. */
  lemma DestroyRequestPhase(k: Conn)
    requires Phases(k) && Sending(k.o) && k.o.requests != [] && k.o.requests[0].DestroyWindow?
    ensures k.o.timestamp == 0 && k.o.state != WaitingForTimestamp && k.o.call != InVerify
  {
    FirstRequest(k);
  }

  lemma DestroyRequestLinked(sv: Server, c: Client, k: Conn)
    requires ServerOk(sv) && Linked(sv, c, k) && k.o.requests != [] && k.o.requests[0].DestroyWindow?
    ensures var w := k.o.requests[0].window;
            Linked(WindowGone(sv, w), c, Post(PopRequest(k), DestroyFor(sv, w, c)))
  {
    PopLinked(sv, c, k);
    GoneLinked(sv, k.o.requests[0].window, c, PopRequest(k));
  }

  lemma SetOwnerFacts(k: Conn)
    requires Phases(k) && Sending(k.o) && k.o.requests != [] && k.o.requests[0].SetOwner?
    ensures k.o.call == InVerify && k.o.requests == [SetOwner(k.o.window, k.o.timestamp), GetOwner]
    ensures k.reply == None
  {
    FirstRequest(k);
  }

  lemma SetOwnerOwning(sv: Server, c: Client, k: Conn)
    requires Phases(k) && Sending(k.o) && Ids(sv, c, k) && Owning(sv, c, k)
    requires k.o.requests != [] && k.o.requests[0].SetOwner?
    ensures Owning(OwnerSet(sv, k.o.window, k.o.timestamp), c, PopRequest(k))
  {
    SetOwnerFacts(k);
    assert k.o.requests[0] in k.o.requests;
    assert Sets(k.o.requests);
    assert PopRequest(k).o.requests == [GetOwner];
    assert !Sets([GetOwner]);
    hide Sending, ClearsFirst, MayOwn, Sets;
  }

  lemma SetOwnerLinked(sv: Server, c: Client, k: Conn)
    requires Linked(sv, c, k) && k.o.requests != [] && k.o.requests[0].SetOwner?
    ensures Linked(OwnerSet(sv, k.o.window, k.o.timestamp), c, PopRequest(k))
  {
    TailOf(k.o.requests);
    hide MayOwn;
  }

  lemma DeselectTied(sv: Server, c: Client, k: Conn)
    requires Phases(k) && Sending(k.o) && Tied(sv, c, k) && k.o.requests != []
    requires k.o.requests[0].DeselectAll?
    ensures Tied(sv.(selects := sv.selects - {(c, k.o.requests[0].window)}), c, PopRequest(k))
  {
    PopLinked(sv, c, k);
    PopOwning(sv, c, k);
    DeselectPhase(k);
    hide Sending, Sets, ClearsFirst, PopRequest;
  }

  lemma DeselectPhase(k: Conn)
    requires Phases(k) && Sending(k.o) && k.o.requests != [] && k.o.requests[0].DeselectAll?
    ensures k.o.timestamp == 0 && k.o.state != WaitingForTimestamp
  {
    FirstRequest(k);
  }

  lemma KillShape(k: Conn, w: Window)
    requires Shape(k) && k.o.requests != [] && k.o.requests[0].KillClient?
    ensures Shape(Checked(PopRequest(k), w))
  {
    FirstRequest(k);
    hide Outcomes, StartingUp;
  }

  lemma KillTied(sv: Server, c: Client, k: Conn, w: Window)
    requires Phases(k) && Sending(k.o) && Tied(sv, c, k)
    requires k.o.requests != [] && k.o.requests[0].KillClient?
    ensures Tied(sv, c, Checked(PopRequest(k), w))
  {
    FirstRequest(k);
    hide Sending, ClearsFirst;
  }
}
