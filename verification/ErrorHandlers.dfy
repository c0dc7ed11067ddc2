/** Nested handlers for X errors (KXErrorHandler), dispatched in a single thread. */
module ErrorHandlers {
  import opened Text
  import opened Timestamps

  type Display = nat

  datatype XErrorEvent = XErrorEvent(serial: ULong, requestCode: int, errorCode: int, resourceId: int)

  /** What XSetErrorHandler can install: handler_wrapper, or a function of somebody else. */
  datatype XHandler = Wrapper | Foreign(id: nat)

  datatype UserHandler =
    | NoHandler
    | Handler1(f1: (int, int, int) -> bool)
    | Handler2(f2: (Display, XErrorEvent) -> int)

  /** Who took an error: the handler at a position of the stack, whose return value is 0, or a
      foreign function. */
  datatype Taker = Ours(index: nat) | Theirs(id: nat)

  const NO_EVENT: XErrorEvent := XErrorEvent(0, 0, 0, 0)

  /** A handler object as a value. */
  datatype Handler = Handler(
    user: UserHandler,
    oldHandler: XHandler,
    firstRequest: ULong,
    display: Display,
    wasError: bool,
    errorEvent: XErrorEvent)

  // ---------------------------------------------------------------- dispatch as a function

  predicate IsFor(h: Handler, dpy: Display, e: XErrorEvent) {
    dpy == h.display && Compare(e.serial, h.firstRequest) >= 0
  }

  /** Does the handler's own function count this as an error? */
  predicate Counts(h: Handler, dpy: Display, e: XErrorEvent) {
    match h.user
    case NoHandler => true
    case Handler1(f) => f(e.requestCode, e.errorCode, e.resourceId)
    case Handler2(f) => f(dpy, e) != 0
  }

  function Noted(h: Handler, dpy: Display, e: XErrorEvent): Handler {
    if Counts(h, dpy, e) && !h.wasError then h.(wasError := true, errorEvent := e) else h
  }

  /** The lowest handler must not fall back on handler_wrapper. */
  predicate Grounded(stack: seq<Handler>) {
    stack != [] && stack[0].oldHandler.Foreign?
  }

  /** handler_wrapper and handle. */
  function Dispatched(stack: seq<Handler>, dpy: Display, e: XErrorEvent): (seq<Handler>, Taker)
    requires Grounded(stack)
    decreases |stack|
  {
    var n := |stack| - 1;
    var h := stack[n];
    if IsFor(h, dpy, e) then (stack[..n] + [Noted(h, dpy, e)], Ours(n))
    else
      match h.oldHandler
      case Foreign(id) => (stack, Theirs(id))
      case Wrapper =>
        var (below, taker) := Dispatched(stack[..n], dpy, e);
        (below + [h], taker)
  }

  // ---------------------------------------------------------------- the objects

  class KXErrorHandler {
    const user: UserHandler
    const oldHandler: XHandler
    const firstRequest: ULong
    const display: Display
    var wasError: bool
    var errorEvent: XErrorEvent

    ghost function Abs(): Handler
      reads this
    {
      Handler(user, oldHandler, firstRequest, display, wasError, errorEvent)
    }

    constructor (user: UserHandler, oldHandler: XHandler, nextRequest: ULong, dpy: Display)
      ensures Abs() == Handler(user, oldHandler, nextRequest, dpy, false, NO_EVENT)
    {
      this.user := user;
      this.oldHandler := oldHandler;
      firstRequest := nextRequest;
      display := dpy;
      wasError := false;
      errorEvent := NO_EVENT;
    }
  }

  ghost function StackOf(hs: seq<KXErrorHandler>): (s: seq<Handler>)
    reads hs
    ensures |s| == |hs| && forall i :: 0 <= i < |hs| ==> s[i] == hs[i].Abs()
  {
    if hs == [] then [] else StackOf(hs[..|hs| - 1]) + [hs[|hs| - 1].Abs()]
  }

  /** The static members, and the error handler that Xlib has installed. */
  class ErrorHandling {
    var handlers: array<KXErrorHandler?>
    var pos: int
    var size: int
    var installed: XHandler
    ghost var live: seq<KXErrorHandler>

    ghost predicate Valid()
      reads this, handlers
    {
      && handlers.Length == size && 0 <= pos <= |live| <= size
      && (forall i :: 0 <= i < |live| ==> handlers[i] == live[i])
      && (forall i, j :: 0 <= i < j < |live| ==> live[i] != live[j])
    }

    constructor (original: nat)
      ensures Valid() && fresh(handlers)
      ensures live == [] && pos == 0 && installed == Foreign(original)
    {
      handlers := new KXErrorHandler?[0];
      pos, size := 0, 0;
      installed := Foreign(original);
      live := [];
    }

    /** Construction of a handler. */
    method Create(user: UserHandler, dpy: Display, nextRequest: ULong) returns (h: KXErrorHandler)
      requires Valid() && pos == |live|
      modifies this, handlers
      ensures Valid() && pos == |live| && (handlers == old(handlers) || fresh(handlers))
      ensures live == old(live) + [h] && fresh(h)
      ensures h.Abs() == Handler(user, old(installed), nextRequest, dpy, false, NO_EVENT)
      ensures installed == Wrapper
    {
      h := new KXErrorHandler(user, installed, nextRequest, dpy);
      installed := Wrapper;
      AddHandler(h);
    }

    method AddHandler(h: KXErrorHandler)
      requires Valid() && pos == |live| && h !in live
      modifies this`handlers, this`size, this`pos, this`live, handlers
      ensures Valid() && pos == |live| && live == old(live) + [h]
      ensures handlers == old(handlers) || fresh(handlers)
    {
      if size == pos {
        size := size + 16;
        var grown := new KXErrorHandler?[size];
        forall i | 0 <= i < pos {
          grown[i] := handlers[i];
        }
        handlers := grown;
      }
      handlers[pos] := h;
      pos := pos + 1;
      live := live + [h];
    }

    /** Destruction; handlers must go in reverse order. */
    method Destroy(h: KXErrorHandler)
      requires Valid() && pos == |live| > 0 && h == live[pos - 1]
      modifies this`pos, this`installed, this`live
      ensures Valid() && pos == |live| && live == old(live)[..|old(live)| - 1]
      ensures installed == h.oldHandler
    {
      installed := h.oldHandler;
      pos := pos - 1;
      live := live[..pos];
    }

    method HandlerWrapper(dpy: Display, e: XErrorEvent) returns (taker: Taker)
      requires Valid() && pos > 0 && Grounded(StackOf(live[..pos]))
      modifies this`pos, live[..pos]
      ensures Valid() && pos == old(pos)
      ensures (StackOf(live[..pos]), taker) == Dispatched(old(StackOf(live[..pos])), dpy, e)
      decreases pos, 1
    {
      hide Dispatched, StackOf;
      pos := pos - 1;
      taker := Handle(handlers[pos], dpy, e);
      pos := pos + 1;
    }

    /** handle, called on the handler just above the position. */
    method Handle(h: KXErrorHandler, dpy: Display, e: XErrorEvent) returns (taker: Taker)
      requires Valid() && pos < |live| && h == live[pos] && Grounded(StackOf(live[..pos + 1]))
      modifies this`pos, live[..pos + 1]
      ensures Valid() && pos == old(pos)
      ensures (StackOf(live[..pos + 1]), taker) == Dispatched(old(StackOf(live[..pos + 1])), dpy, e)
      decreases pos, 2
    {
      hide Dispatched, StackOf, Noted;
      ghost var was := StackOf(live[..pos + 1]);
      DispatchedOne(was, dpy, e);
      assert was[pos] == h.Abs();
      if dpy == h.display && Compare(e.serial, h.firstRequest) >= 0 {
        Note(h, dpy, e);
        assert StackOf(live[..pos + 1]) == was[..pos] + [Noted(was[pos], dpy, e)];
        return Ours(pos);
      }
      match h.oldHandler
      case Foreign(id) => return Theirs(id);
      case Wrapper =>
        assert StackOf(live[..pos]) == was[..pos];
        taker := HandlerWrapper(dpy, e);
        assert StackOf(live[..pos + 1]) == StackOf(live[..pos]) + [was[pos]];
    }

    /** The part of handle that calls the user's function and remembers the error. */
    method Note(h: KXErrorHandler, dpy: Display, e: XErrorEvent)
      modifies h
      ensures h.Abs() == Noted(old(h.Abs()), dpy, e)
    {
      var error := false;
      match h.user {
        case Handler1(f) =>
          if f(e.requestCode, e.errorCode, e.resourceId) {
            error := true;
          }
        case Handler2(f) =>
          if f(dpy, e) != 0 {
            error := true;
          }
        case NoHandler => // without a handler function, every error counts
          error := true;
      }
      if error && !h.wasError {
        // the first error stays
        h.wasError := true;
        h.errorEvent := e;
      }
    }
  }

  lemma DispatchedOne(stack: seq<Handler>, dpy: Display, e: XErrorEvent)
    requires Grounded(stack)
    ensures var n := |stack| - 1;
            Dispatched(stack, dpy, e)
            == if IsFor(stack[n], dpy, e) then (stack[..n] + [Noted(stack[n], dpy, e)], Ours(n))
               else if stack[n].oldHandler.Foreign? then (stack, Theirs(stack[n].oldHandler.id))
               else (Dispatched(stack[..n], dpy, e).0 + [stack[n]], Dispatched(stack[..n], dpy, e).1)
  {
  }
}
