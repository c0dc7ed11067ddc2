/** Any number of selection owners on separate connections, the X server's rules for one
    selection, and foreign clients: a transition system, and what holds in all its reachable
    states. */
module SelectionSystem {
  import opened SelectionOwner

  type Client = nat

  datatype Option<+T> = None | Some(value: T)

  /** What the server knows. Windows in `creator` have had their id allocated; `born` ones
      have existed; `alive` ones exist now. `owned` remembers the windows that have owned the
      selection. The clients in `gone` have been killed. */
  datatype Server = Server(
    owner: Window,
    lastChange: Time,
    now: Time,
    next: Window,
    creator: map<Window, Client>,
    born: set<Window>,
    alive: set<Window>,
    selects: set<(Client, Window)>, // StructureNotify selections
    owned: set<Window>,
    gone: set<Client>)

  /** A client: its object, its event queue, a reply not yet read. The other fields are history:
      `seen` has the windows whose DestroyNotify it has handled, `forced` and `killing` are the
      arguments of the application's last claim, `found` is the server's owner when that claim
      asked for it and `answer` when it was last verified, and `dropped` says whether ownership
      was lost or released since the last verification. */
  datatype Conn = Conn(
    o: Owner,
    queue: seq<Event>,
    reply: Option<Window>,
    seen: set<Window>,
    forced: bool,
    killing: bool,
    found: Window,
    answer: Window,
    dropped: bool)

  datatype System = System(server: Server, clients: map<Client, Conn>)

  const NEW_CONN: Conn := Conn(FRESH, [], None, {}, false, false, 0, 0, false)

  predicate Mine(sv: Server, c: Client, w: Window) {
    w in sv.creator && sv.creator[w] == c
  }

  // ---------------------------------------------------------------- the server's rules

  function Post(k: Conn, evs: seq<Event>): Conn {
    k.(queue := k.queue + evs)
  }

  /** The events a client gets when the owner changes at the request of another client. */
  function ClearFor(sv: Server, src: Client, c: Client): seq<Event> {
    if c != src && Mine(sv, c, sv.owner) then [SelectionClear] else []
  }

  function DestroyFor(sv: Server, w: Window, c: Client): seq<Event> {
    if w in sv.alive && (c, w) in sv.selects then [DestroyNotify(w)] else []
  }

  function PropertyFor(sv: Server, w: Window, c: Client): seq<Event> {
    if w in sv.alive && Mine(sv, c, w) then [PropertyNotify(w, sv.now)] else []
  }

  /** SetSelectionOwner is ignored when its time is too old or in the future, or its window
      does not exist. */
  predicate MayOwn(sv: Server, w: Window, t: Time) {
    (w == 0 || w in sv.alive) && sv.lastChange <= t <= sv.now
  }

  function OwnerSet(sv: Server, w: Window, t: Time): Server {
    if MayOwn(sv, w, t) then sv.(owner := w, lastChange := t, owned := sv.owned + {w}) else sv
  }

  /** Destroying the owner window leaves the selection without an owner; no SelectionClear is
      sent and the last-change time stays. */
  function WindowGone(sv: Server, w: Window): Server {
    sv.(alive := sv.alive - {w}, owner := if sv.owner == w then 0 else sv.owner)
  }

  function Told(sys: System, sv: Server, evs: Client -> seq<Event>): System {
    System(sv, map c | c in sys.clients :: Post(sys.clients[c], evs(c)))
  }

  // ---------------------------------------------------------------- steps

  datatype Step =
    | AppClaim(c: Client, force: bool, forceKill: bool)
    | AppRelease(c: Client)
    | Dispatch(c: Client)     // handle the first event of the queue
    | ReadReply(c: Client)    // go on after a round trip
    | TimerFires(c: Client)
    | Execute(c: Client)      // the server executes the client's first request
    | Join(c: Client)
    | ForeignWindow(f: Client)
    | ForeignSetOwner(f: Client, w: Window, t: Time)
    | ForeignProperty(w: Window)
    | ForeignDestroy(w: Window)
    | TimePasses

  /** The event loop runs only while the object is not blocked in a round trip. */
  predicate AtLoop(sys: System, c: Client) {
    c in sys.clients && sys.clients[c].o.call == NoCall
  }

  /** Another program on the server that has not been killed. */
  predicate IsForeign(sys: System, f: Client) {
    f !in sys.clients && f !in sys.server.gone
  }

  predicate Enabled(sys: System, s: Step) {
    match s
    case AppClaim(c, _, _) => AtLoop(sys, c) && sys.clients[c].o.state == Idle
    case AppRelease(c) => AtLoop(sys, c)
    case Dispatch(c) => AtLoop(sys, c) && sys.clients[c].queue != []
    case ReadReply(c) => c in sys.clients && sys.clients[c].reply.Some? && sys.clients[c].o.call != NoCall
    case TimerFires(c) => AtLoop(sys, c) && sys.clients[c].o.timer
    case Execute(c) => c in sys.clients && sys.clients[c].o.requests != []
    case Join(c) =>
      && c !in sys.clients && c !in sys.server.gone
      && forall w :: w in sys.server.creator ==> sys.server.creator[w] != c
    case ForeignWindow(f) => IsForeign(sys, f)
    case ForeignSetOwner(f, w, t) => IsForeign(sys, f) && (w == 0 || Mine(sys.server, f, w))
    case ForeignProperty(_) => true
    case ForeignDestroy(_) => true
    case TimePasses => true
  }

  function WithConn(sys: System, c: Client, k: Conn): System {
    sys.(clients := sys.clients[c := k])
  }

  function Handled(k: Conn): Conn
    requires k.queue != []
  {
    var ev := k.queue[0];
    k.(o := Filtered(k.o, ev), queue := k.queue[1..],
       seen := if ev.DestroyNotify? then k.seen + {ev.window} else k.seen,
       dropped := k.dropped || Filtered(k.o, ev).signals == k.o.signals + [LostOwnership])
  }

  function ClaimBegun(k: Conn, force: bool, forceKill: bool): Conn {
    k.(o := ClaimStarted(k.o, force, forceKill), dropped := k.dropped || OwnerWindowOf(k.o) != 0,
       forced := force, killing := forceKill)
  }

  function LetGo(k: Conn): Conn {
    k.(o := Released(k.o), dropped := k.dropped || OwnerWindowOf(k.o) != 0)
  }

  /** The server's answer to GetSelectionOwner. */
  function Answered(sv: Server, k: Conn): Conn {
    k.(reply := Some(sv.owner), found := if k.o.call.InClaim? then sv.owner else k.found,
       answer := if k.o.call == InVerify then sv.owner else k.answer)
  }

  /** The server's answer to a checked KillClient, an error or the end of the request. */
  function Checked(k: Conn, w: Window): Conn {
    k.(reply := Some(w))
  }

  function VerifiedBy(k: Conn): Conn
    requires k.reply.Some?
  {
    k.(o := Verified(k.o, k.reply.value), reply := None, dropped := false)
  }

  function KilledBy(k: Conn): Conn {
    k.(o := Killed(k.o), reply := None)
  }

  function Continued(sys: System, c: Client): System
    requires Enabled(sys, ReadReply(c))
  {
    var k := sys.clients[c];
    var k1 := k.(reply := None);
    match k.o.call
    case InClaim(force, _) =>
      if k.reply.value != 0 && !force then
        WithConn(sys, c, k1.(o := ClaimContinued(k.o, k.reply.value, sys.server.next)))
      else
        var sv := sys.server.(creator := sys.server.creator[sys.server.next := c],
                              next := sys.server.next + 1);
        WithConn(sys.(server := sv), c, k1.(o := ClaimContinued(k.o, k.reply.value, sys.server.next)))
    case InKill => WithConn(sys, c, KilledBy(k))
    case _ => WithConn(sys, c, VerifiedBy(k))
  }

  /** One request executed for client c. A client that is killed takes no further step, whether it
      is one of the objects or a foreign one. */
  function Executed(sys: System, c: Client, r: Request): System
    requires c in sys.clients
  {
    var sv := sys.server;
    match r
    case GetOwner => WithConn(sys, c, Answered(sv, sys.clients[c]))
    case SelectStructure(w) =>
      if w in sv.alive then sys.(server := sv.(selects := sv.selects + {(c, w)})) else sys
    case CreateWindow(w) =>
      sys.(server := sv.(alive := sv.alive + {w}, born := sv.born + {w},
                         selects := sv.selects + {(c, w)}))
    case ChangeProperty(w) => Told(sys, sv, (d: Client) => PropertyFor(sv, w, d))
    case SetOwner(w, t) =>
      if MayOwn(sv, w, t) then Told(sys, OwnerSet(sv, w, t), (d: Client) => ClearFor(sv, c, d)) else sys
    case DestroyWindow(w) => Told(sys, WindowGone(sv, w), (d: Client) => DestroyFor(sv, w, d))
    case DeselectAll(w) => sys.(server := sv.(selects := sv.selects - {(c, w)}))
    case KillClient(w) =>
      var sys1 := WithConn(sys, c, Checked(sys.clients[c], w));
      if w in sv.alive && w in sv.creator then
        System(sv.(gone := sv.gone + {sv.creator[w]}), sys1.clients - {sv.creator[w]})
      else sys1
    case Announce(_, _) => sys
  }

  function PopRequest(k: Conn): Conn
    requires k.o.requests != []
  {
    k.(o := k.o.(requests := k.o.requests[1..]))
  }

  function Next(sys: System, s: Step): System
    requires Enabled(sys, s)
  {
    var sv := sys.server;
    match s
    case AppClaim(c, force, kill) =>
      WithConn(sys, c, ClaimBegun(sys.clients[c], force, kill))
    case AppRelease(c) => WithConn(sys, c, LetGo(sys.clients[c]))
    case Dispatch(c) => WithConn(sys, c, Handled(sys.clients[c]))
    case ReadReply(c) => Continued(sys, c)
    case TimerFires(c) => WithConn(sys, c, sys.clients[c].(o := TimedOut(sys.clients[c].o)))
    case Execute(c) =>
      Executed(WithConn(sys, c, PopRequest(sys.clients[c])), c, sys.clients[c].o.requests[0])
    case Join(c) => WithConn(sys, c, NEW_CONN)
    case ForeignWindow(f) =>
      sys.(server := sv.(creator := sv.creator[sv.next := f], next := sv.next + 1,
                         born := sv.born + {sv.next}, alive := sv.alive + {sv.next}))
    case ForeignSetOwner(f, w, t) =>
      if MayOwn(sv, w, t) then Told(sys, OwnerSet(sv, w, t), (d: Client) => ClearFor(sv, f, d)) else sys
    case ForeignProperty(w) => Told(sys, sv, (d: Client) => PropertyFor(sv, w, d))
    case ForeignDestroy(w) => Told(sys, WindowGone(sv, w), (d: Client) => DestroyFor(sv, w, d))
    case TimePasses => sys.(server := sv.(now := sv.now + 1))
  }

  // ---------------------------------------------------------------- runs

  const START: System := System(Server(0, 0, 1, 1, map[], {}, {}, {}, {}, {}), map[])

  /** The steps lead from sys to end. */
  ghost predicate Leads(sys: System, steps: seq<Step>, end: System)
    decreases |steps|
  {
    if steps == [] then end == sys
    else Enabled(sys, steps[0]) && Leads(Next(sys, steps[0]), steps[1..], end)
  }
}
