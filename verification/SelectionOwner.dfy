/** Claiming and holding a manager selection (KSelectionOwner), as one X client sees it. The
    object sends requests on its connection; where it waits for the answer to
    GetSelectionOwner or KillClient, the method is split into the part before and the part after. */
module SelectionOwner {

  /** 0 stands for XCB_NONE. */
  type Window = nat

  /** 0 stands for XCB_CURRENT_TIME. */
  type Time = nat

  datatype Event =
    | SelectionClear
    | DestroyNotify(window: Window)
    | PropertyNotify(window: Window, time: Time)
    | OtherEvent

  datatype Request =
    | GetOwner
    | SelectStructure(window: Window)
    | CreateWindow(window: Window)
    | ChangeProperty(window: Window)
    | SetOwner(window: Window, time: Time)
    | DestroyWindow(window: Window)
    | DeselectAll(window: Window)
    | KillClient(window: Window)
    | Announce(window: Window, time: Time)

  datatype Phase = Idle | WaitingForTimestamp | WaitingForPreviousOwner

  datatype Signal = ClaimedOwnership | FailedToClaimOwnership | LostOwnership

  /** The reply the object is blocked on, with the arguments of the interrupted call. */
  datatype Call = NoCall | InClaim(force: bool, forceKill: bool) | InVerify | InKill

  datatype Owner = Owner(
    state: Phase,
    window: Window,
    prevOwner: Window,
    timestamp: Time,
    forceKill: bool,
    timer: bool,
    call: Call,
    claims: nat,             // calls of claim so far
    signals: seq<Signal>,    // signals emitted so far
    requests: seq<Request>)  // requests sent and not yet executed by the server

  const FRESH: Owner := Owner(Idle, 0, 0, 0, false, false, NoCall, 0, [], [])

  // ---------------------------------------------------------------- the methods as functions

  function Released(o: Owner): Owner {
    if o.timestamp == 0 then o
    else o.(requests := o.requests + [DestroyWindow(o.window)], window := 0, timestamp := 0)
  }

  function OwnerWindowOf(o: Owner): Window {
    if o.timestamp == 0 then 0 else o.window
  }

  /** claim, up to reading the current owner. */
  function ClaimStarted(o: Owner, force: bool, forceKill: bool): Owner {
    var r := Released(o);
    r.(requests := r.requests + [GetOwner], call := InClaim(force, forceKill), claims := o.claims + 1)
  }

  /** claim, from the current owner on; newId is the id of the new window. */
  function ClaimContinued(o: Owner, owner: Window, newId: Window): Owner
    requires o.call.InClaim?
  {
    var o1 := o.(prevOwner := owner, call := NoCall);
    if owner != 0 && !o.call.force then
      o1.(signals := o.signals + [FailedToClaimOwnership])
    else
      o1.(requests := o.requests + (if owner != 0 then [SelectStructure(owner)] else [])
                      + [CreateWindow(newId), ChangeProperty(newId)],
          window := newId,
          forceKill := o.call.forceKill,
          state := WaitingForTimestamp)
  }

  function ClaimDone(o: Owner): Owner {
    o.(state := Idle,
       requests := o.requests + [Announce(o.window, o.timestamp)],
       signals := o.signals + [ClaimedOwnership])
  }

  /** gotTimestamp, up to verifying the claim. */
  function TimestampArrived(o: Owner, time: Time): Owner {
    o.(state := Idle,
       timestamp := time,
       requests := o.requests + [SetOwner(o.window, time), GetOwner],
       call := InVerify)
  }

  /** gotTimestamp, from the verification on. */
  function Verified(o: Owner, newOwner: Window): Owner {
    var o1 := o.(call := NoCall);
    if newOwner != o.window then
      o1.(requests := o.requests + [DestroyWindow(o.window)], timestamp := 0, window := 0,
          signals := o.signals + [FailedToClaimOwnership])
    else if o.prevOwner != 0 && o.forceKill then
      o1.(timer := true, state := WaitingForPreviousOwner)
    else ClaimDone(o1)
  }

  /** timerEvent and timeout, up to waiting for the end of the kill request. */
  function TimedOut(o: Owner): Owner {
    var o1 := o.(timer := false, state := Idle);
    if o.forceKill then o1.(requests := o.requests + [KillClient(o.prevOwner)], call := InKill)
    else o1.(signals := o.signals + [FailedToClaimOwnership])
  }

  /** timeout, from the end of the kill request on. */
  function Killed(o: Owner): Owner {
    ClaimDone(o.(call := NoCall))
  }

  /** filterEvent. */
  function Filtered(o: Owner, ev: Event): Owner {
    match ev
    case SelectionClear =>
      if o.timestamp == 0 then o
      else
        o.(timestamp := 0,
           signals := o.signals + [LostOwnership],
           requests := o.requests + [DeselectAll(o.window), DestroyWindow(o.window)])
    case DestroyNotify(w) =>
      if w == o.prevOwner && o.state == WaitingForPreviousOwner then ClaimDone(o.(timer := false))
      else
        var o1 := if w == o.prevOwner then o.(prevOwner := 0) else o;
        if o1.timestamp == 0 || w != o1.window then o1
        else o1.(timestamp := 0, signals := o1.signals + [LostOwnership])
    case PropertyNotify(w, t) =>
      if w == o.window && o.state == WaitingForTimestamp then TimestampArrived(o, t) else o
    case OtherEvent => o
  }

  // ---------------------------------------------------------------- the object

  class KSelectionOwner {
    var state: Phase
    var window: Window
    var prevOwner: Window
    var timestamp: Time
    var forceKill: bool
    var timer: bool
    var call: Call
    ghost var claims: nat
    ghost var signals: seq<Signal>
    ghost var requests: seq<Request>

    ghost function Abs(): Owner
      reads this
    {
      Owner(state, window, prevOwner, timestamp, forceKill, timer, call, claims, signals, requests)
    }

    constructor ()
      ensures Abs() == FRESH
    {
      state, window, prevOwner, timestamp := Idle, 0, 0, 0;
      forceKill, timer, call := false, false, NoCall;
      claims, signals, requests := 0, [], [];
    }

    method Send(r: Request)
      modifies this`requests
      ensures requests == old(requests) + [r]
    {
      requests := requests + [r];
    }

    method ClaimSucceeded()
      modifies this
      ensures Abs() == ClaimDone(old(Abs()))
    {
      state := Idle;
      Send(Announce(window, timestamp));
      signals := signals + [ClaimedOwnership];
    }

    method Release()
      modifies this
      ensures Abs() == Released(old(Abs()))
    {
      if timestamp == 0 {
        return;
      }
      Send(DestroyWindow(window));
      window := 0;
      timestamp := 0;
    }

    method OwnerWindow() returns (w: Window)
      ensures w == OwnerWindowOf(Abs())
    {
      if timestamp == 0 {
        return 0;
      }
      return window;
    }

    method Claim(force: bool, forceKill_P: bool)
      requires state == Idle && call == NoCall
      modifies this
      ensures Abs() == ClaimStarted(old(Abs()), force, forceKill_P)
    {
      claims := claims + 1;
      if timestamp != 0 {
        Release();
      }
      Send(GetOwner);
      call := InClaim(force, forceKill_P);
    }

    method ClaimReply(owner: Window, newId: Window)
      requires call.InClaim?
      modifies this
      ensures Abs() == ClaimContinued(old(Abs()), owner, newId)
    {
      var InClaim(force, forceKill_P) := call;
      call := NoCall;
      prevOwner := owner;
      if prevOwner != 0 {
        if !force {
          signals := signals + [FailedToClaimOwnership];
          return;
        }
        Send(SelectStructure(prevOwner));
      }
      window := newId;
      Send(CreateWindow(window));
      Send(ChangeProperty(window));
      forceKill := forceKill_P;
      state := WaitingForTimestamp;
    }

    method GotTimestamp()
      requires state == WaitingForTimestamp
      modifies this
      ensures Abs() == TimestampArrived(old(Abs()), timestamp) && timestamp == old(timestamp)
    {
      state := Idle;
      Send(SetOwner(window, timestamp));
      Send(GetOwner);
      call := InVerify;
    }

    method VerifyReply(newOwner: Window)
      requires call == InVerify
      modifies this
      ensures Abs() == Verified(old(Abs()), newOwner)
    {
      call := NoCall;
      if newOwner != window {
        Send(DestroyWindow(window));
        timestamp := 0;
        window := 0;
        signals := signals + [FailedToClaimOwnership];
        return;
      }
      if prevOwner != 0 && forceKill {
        timer := true;
        state := WaitingForPreviousOwner;
      } else {
        ClaimSucceeded();
      }
    }

    method TimerEvent()
      requires timer
      modifies this
      ensures Abs() == TimedOut(old(Abs()))
    {
      timer := false;
      state := Idle;
      if forceKill {
        Send(KillClient(prevOwner));
        call := InKill;
      } else {
        signals := signals + [FailedToClaimOwnership];
      }
    }

    /** The kill request has been executed, with or without an error. */
    method KillReply()
      requires call == InKill
      modifies this
      ensures Abs() == Killed(old(Abs()))
    {
      call := NoCall;
      ClaimSucceeded();
    }

    method FilterEvent(ev: Event)
      modifies this
      ensures Abs() == Filtered(old(Abs()), ev)
    {
      match ev
      case SelectionClear =>
        if timestamp == 0 {
          return;
        }
        timestamp := 0;
        signals := signals + [LostOwnership];
        Send(DeselectAll(window));
        Send(DestroyWindow(window));
      case DestroyNotify(w) =>
        if w == prevOwner {
          if state == WaitingForPreviousOwner {
            timer := false;
            ClaimSucceeded();
            return;
          }
          // gone before the claim got its timestamp
          prevOwner := 0;
        }
        if timestamp == 0 || w != window {
          return;
        }
        timestamp := 0;
        signals := signals + [LostOwnership];
      case PropertyNotify(w, t) =>
        if w == window && state == WaitingForTimestamp {
          timestamp := t;
          GotTimestamp();
        }
      case OtherEvent =>
    }
  }
}
