/** Who gets an X error when handlers are nested, and what nesting leaves behind. */
module ErrorHandlerRuns {
  import opened Text
  import opened Timestamps
  import opened ErrorHandlers

  // ---------------------------------------------------------------- who gets an error

  /** Whether a handler claims an error depends on 32-bit images of the serial and of its first
      request. For true numbers less than a wrap apart, it claims exactly the errors of its
      display from its first request on, if and only if the numbers are within half a wrap (or
      the display is another one). */
  lemma IsForExact(h: Handler, dpy: Display, e: XErrorEvent, first: int, serial: int)
    requires U32(h.firstRequest) == U32(first) && U32(e.serial) == U32(serial)
    requires -WRAP < serial - first < WRAP
    ensures (IsFor(h, dpy, e) <==> dpy == h.display && serial >= first)
            <==> dpy != h.display || -0x8000_0001 <= serial - first <= 0x7fff_fffe
  {
    assert Compare(e.serial, h.firstRequest) == Compare(serial, first);
    CompareExact(serial, first);
    CompareByDifference(serial, first);
  }

  /** Handlers created one inside the other, over an original handler. */
  predicate Nested(stack: seq<Handler>, original: nat) {
    && stack != []
    && stack[0].oldHandler == Foreign(original)
    && forall i :: 0 < i < |stack| ==> stack[i].oldHandler == Wrapper
  }

  /** The handlers' first requests and an error's serial, as true numbers less than half a wrap
      apart. */
  predicate HalfWindow(stack: seq<Handler>, e: XErrorEvent, firsts: seq<int>, serial: int) {
    && |firsts| == |stack| && U32(e.serial) == U32(serial)
    && forall i :: 0 <= i < |stack| ==>
         U32(stack[i].firstRequest) == U32(firsts[i]) && -0x8000_0001 <= serial - firsts[i] <= 0x7fff_fffe
  }

  predicate Responsible(h: Handler, dpy: Display, first: int, serial: int) {
    dpy == h.display && first <= serial
  }

  /** An error goes to the innermost handler on its display that was created no later than the
      failing request, or to the original handler if there is none. Only the handler that takes
      it is told. */
  lemma {:induction false} GoesToInnermost(stack: seq<Handler>, original: nat, dpy: Display, e: XErrorEvent,
                                           firsts: seq<int>, serial: int)
    requires Nested(stack, original) && HalfWindow(stack, e, firsts, serial)
    ensures var (after, taker) := Dispatched(stack, dpy, e);
            match taker
            case Ours(i) =>
              && i < |stack| && Responsible(stack[i], dpy, firsts[i], serial)
              && (forall j :: i < j < |stack| ==> !Responsible(stack[j], dpy, firsts[j], serial))
              && after == stack[i := Noted(stack[i], dpy, e)]
            case Theirs(id) =>
              && id == original && after == stack
              && (forall j :: 0 <= j < |stack| ==> !Responsible(stack[j], dpy, firsts[j], serial))
    decreases |stack|
  {
    hide Dispatched, IsFor, Noted;
    var n := |stack| - 1;
    var h := stack[n];
    DispatchedOne(stack, dpy, e);
    IsForExact(h, dpy, e, firsts[n], serial);
    if IsFor(h, dpy, e) {
      assert stack[..n] + [Noted(h, dpy, e)] == stack[n := Noted(h, dpy, e)];
    } else if n > 0 {
      GoesToInnermost(stack[..n], original, dpy, e, firsts[..n], serial);
      var (below, taker) := Dispatched(stack[..n], dpy, e);
      if taker.Ours? {
        var i := taker.index;
        assert below + [h] == stack[i := Noted(stack[i], dpy, e)];
      } else {
        assert below + [h] == stack;
      }
    }
  }

  // ---------------------------------------------------------------- runs

  datatype State = State(stack: seq<Handler>, installed: XHandler)

  datatype Op =
    | Create(user: UserHandler, dpy: Display, nextRequest: ULong)
    | Destroy
    | Error(dpy: Display, e: XErrorEvent)

  predicate Enabled(st: State, op: Op) {
    op.Destroy? ==> st.stack != []
  }

  /** Xlib calls the installed handler; a foreign one does not concern the stack. */
  function Next(st: State, op: Op): State
    requires Enabled(st, op)
  {
    var n := |st.stack|;
    match op
    case Create(user, dpy, next) =>
      State(st.stack + [Handler(user, st.installed, next, dpy, false, NO_EVENT)], Wrapper)
    case Destroy => State(st.stack[..n - 1], st.stack[n - 1].oldHandler)
    case Error(dpy, e) =>
      if st.installed == Wrapper && Grounded(st.stack) then st.(stack := Dispatched(st.stack, dpy, e).0)
      else st
  }

  /** The steps lead from st to end, and the lowest n handlers live all along. */
  ghost predicate LeadsAbove(st: State, ops: seq<Op>, end: State, n: nat)
    decreases |ops|
  {
    && n <= |st.stack|
    && if ops == [] then end == st
       else Enabled(st, ops[0]) && LeadsAbove(Next(st, ops[0]), ops[1..], end, n)
  }

  predicate NestedOver(st: State, original: nat) {
    if st.stack == [] then st.installed == Foreign(original)
    else st.installed == Wrapper && Nested(st.stack, original)
  }

  /** Dispatch changes nothing about a handler but what it remembers. */
  lemma {:induction false} DispatchedShape(stack: seq<Handler>, dpy: Display, e: XErrorEvent)
    requires Grounded(stack)
    ensures var (after, taker) := Dispatched(stack, dpy, e);
            && (taker.Ours? ==> taker.index < |stack|)
            && after == if taker.Ours? then stack[taker.index := Noted(stack[taker.index], dpy, e)] else stack
    decreases |stack|
  {
    hide Dispatched, IsFor, Noted;
    var n := |stack| - 1;
    DispatchedOne(stack, dpy, e);
    if IsFor(stack[n], dpy, e) {
      assert stack[..n] + [Noted(stack[n], dpy, e)] == stack[n := Noted(stack[n], dpy, e)];
    } else if stack[n].oldHandler.Wrapper? {
      DispatchedShape(stack[..n], dpy, e);
      var (below, taker) := Dispatched(stack[..n], dpy, e);
      if taker.Ours? {
        var i := taker.index;
        assert below + [stack[n]] == stack[i := Noted(stack[i], dpy, e)];
      } else {
        assert below + [stack[n]] == stack;
      }
    }
  }

  lemma StepKeepsNested(st: State, op: Op, original: nat)
    requires NestedOver(st, original) && Enabled(st, op)
    ensures NestedOver(Next(st, op), original)
  {
    if op.Error? && st.stack != [] {
      DispatchedShape(st.stack, op.dpy, op.e);
    }
    hide Dispatched;
  }

  /** However handlers are created and destroyed, the stack stays nested over the original
      handler, and when it is empty the original handler is installed again. */
  lemma {:induction false} OriginalRestored(st: State, ops: seq<Op>, end: State, original: nat)
    requires NestedOver(st, original) && LeadsAbove(st, ops, end, 0)
    ensures NestedOver(end, original)
    decreases |ops|
  {
    hide NestedOver, Next, Enabled;
    if ops != [] {
      StepKeepsNested(st, ops[0], original);
      OriginalRestored(Next(st, ops[0]), ops[1..], end, original);
    }
  }

  datatype Taken = Taken(dpy: Display, e: XErrorEvent)

  /** The errors that the handler at position i took, in order. */
  ghost function TakenBy(st: State, ops: seq<Op>, i: nat): seq<Taken>
    decreases |ops|
  {
    if ops == [] || !Enabled(st, ops[0]) then []
    else
      var op := ops[0];
      var now := if op.Error? && st.installed == Wrapper && Grounded(st.stack)
                    && Dispatched(st.stack, op.dpy, op.e).1 == Ours(i) then [Taken(op.dpy, op.e)] else [];
      now + TakenBy(Next(st, op), ops[1..], i)
  }

  /** One error after the other noted. */
  function NotedAll(h: Handler, taken: seq<Taken>): Handler
    decreases |taken|
  {
    if taken == [] then h else NotedAll(Noted(h, taken[0].dpy, taken[0].e), taken[1..])
  }

  lemma StepRemembers(st: State, op: Op, original: nat, n: nat, i: nat)
    requires NestedOver(st, original) && Enabled(st, op)
    requires i < n <= |st.stack| && n <= |Next(st, op).stack|
    ensures Next(st, op).stack[i] == NotedAll(st.stack[i], TakenBy(st, [op], i))
  {
    if op.Error? {
      DispatchedShape(st.stack, op.dpy, op.e);
    }
    assert TakenBy(Next(st, op), [op][1..], i) == [];
    assert forall t: Taken :: [t][1..] == [];
    hide Dispatched, Noted;
  }

  lemma TakenSplits(st: State, ops: seq<Op>, i: nat)
    requires ops != [] && Enabled(st, ops[0])
    ensures TakenBy(st, ops, i) == TakenBy(st, [ops[0]], i) + TakenBy(Next(st, ops[0]), ops[1..], i)
  {
    assert TakenBy(Next(st, ops[0]), [ops[0]][1..], i) == [];
  }

  lemma {:induction false} NotedConcat(h: Handler, a: seq<Taken>, b: seq<Taken>)
    ensures NotedAll(h, a + b) == NotedAll(NotedAll(h, a), b)
    decreases |a|
  {
    hide Noted;
    if a == [] {
      assert a + b == b;
    } else {
      assert (a + b)[0] == a[0] && (a + b)[1..] == a[1..] + b;
      NotedConcat(Noted(h, a[0].dpy, a[0].e), a[1..], b);
    }
  }

  lemma {:induction false} AllNoted(st: State, ops: seq<Op>, end: State, original: nat, n: nat, i: nat)
    requires NestedOver(st, original) && LeadsAbove(st, ops, end, n) && i < n
    ensures n <= |end.stack| && end.stack[i] == NotedAll(st.stack[i], TakenBy(st, ops, i))
    decreases |ops|
  {
    hide NestedOver, Next, Enabled, TakenBy, NotedAll;
    if ops == [] {
      TakenNone(st, i);
    } else {
      var st1 := Next(st, ops[0]);
      StepKeepsNested(st, ops[0], original);
      StepRemembers(st, ops[0], original, n, i);
      AllNoted(st1, ops[1..], end, original, n, i);
      TakenSplits(st, ops, i);
      NotedConcat(st.stack[i], TakenBy(st, [ops[0]], i), TakenBy(st1, ops[1..], i));
    }
  }

  lemma TakenNone(st: State, i: nat)
    ensures TakenBy(st, [], i) == [] && forall h :: NotedAll(h, []) == h
  {
  }

  /** The first of the errors for which something holds is the one at k. */
  predicate IsFirst(taken: seq<Taken>, counts: (Display, XErrorEvent) -> bool, k: nat) {
    k < |taken| && counts(taken[k].dpy, taken[k].e) && forall j :: 0 <= j < k ==> !counts(taken[j].dpy, taken[j].e)
  }

  /** From h, a handler comes to remember the first error that counts, for good. */
  ghost predicate Remembers(h: Handler, h1: Handler, taken: seq<Taken>, counts: (Display, XErrorEvent) -> bool) {
    && (h.wasError ==> h1 == h)
    && (!h.wasError ==>
          if exists k: nat :: k < |taken| && counts(taken[k].dpy, taken[k].e) then
            exists k: nat :: k < |taken| && IsFirst(taken, counts, k)
                             && h1 == h.(wasError := true, errorEvent := taken[k].e)
          else h1 == h)
  }

  /** What a handler may be created with: nothing, then every error counts; a function of codes
      and resource, then those for which it is true; or one of display and event, then those for
      which it is not 0. */
  ghost predicate RemembersFirst(h: Handler, h1: Handler, taken: seq<Taken>) {
    match h.user
    case NoHandler => Remembers(h, h1, taken, (_, _) => true)
    case Handler1(f) => Remembers(h, h1, taken, (_, e: XErrorEvent) => f(e.requestCode, e.errorCode, e.resourceId))
    case Handler2(f) => Remembers(h, h1, taken, (dpy: Display, e: XErrorEvent) => f(dpy, e) != 0)
  }

  lemma {:induction false} NotedIsFirst(h: Handler, taken: seq<Taken>, counts: (Display, XErrorEvent) -> bool)
    requires forall dpy, e :: counts(dpy, e) <==> Counts(h, dpy, e)
    ensures Remembers(h, NotedAll(h, taken), taken, counts)
    decreases |taken|
  {
    hide Counts;
    if taken != [] {
      var t, rest := taken[0], taken[1..];
      var h1 := Noted(h, t.dpy, t.e);
      SameCounts(h, t.dpy, t.e);
      NotedIsFirst(h1, rest, counts);
      if counts(t.dpy, t.e) {
        assert IsFirst(taken, counts, 0);
      } else {
        assert h1 == h;
        forall k: nat | k < |rest| && IsFirst(rest, counts, k) ensures IsFirst(taken, counts, k + 1) {
        }
        if k: nat :| k < |taken| && counts(taken[k].dpy, taken[k].e) {
          assert counts(rest[k - 1].dpy, rest[k - 1].e);
        }
      }
    }
  }

  /** Noting an error does not change what counts. */
  lemma SameCounts(h: Handler, dpy: Display, e: XErrorEvent)
    ensures forall d, x :: Counts(Noted(h, dpy, e), d, x) <==> Counts(h, d, x)
  {
  }

  lemma NotedRemembers(h: Handler, taken: seq<Taken>)
    ensures RemembersFirst(h, NotedAll(h, taken), taken)
  {
    hide NotedAll, Remembers;
    match h.user
    case NoHandler => NotedIsFirst(h, taken, (_, _) => true);
    case Handler1(f) => NotedIsFirst(h, taken, (_, e: XErrorEvent) => f(e.requestCode, e.errorCode, e.resourceId));
    case Handler2(f) => NotedIsFirst(h, taken, (dpy: Display, e: XErrorEvent) => f(dpy, e) != 0);
  }

  /** While a handler lives, it remembers the first error that it took, if it was created without
      a function, or else the first one for which its function returned true, or not 0; and it
      has seen an error if and only if there is one. */
  lemma FirstErrorRemembered(st: State, ops: seq<Op>, end: State, original: nat, n: nat, i: nat)
    requires NestedOver(st, original) && LeadsAbove(st, ops, end, n) && i < n
    ensures n <= |end.stack| && RemembersFirst(st.stack[i], end.stack[i], TakenBy(st, ops, i))
  {
    hide NestedOver, LeadsAbove, TakenBy, NotedAll, RemembersFirst;
    AllNoted(st, ops, end, original, n, i);
    StaysAbove(st, ops, end, n);
    NotedRemembers(st.stack[i], TakenBy(st, ops, i));
  }

  lemma StaysAbove(st: State, ops: seq<Op>, end: State, n: nat)
    requires LeadsAbove(st, ops, end, n)
    ensures n <= |st.stack|
  {
  }

  /** The use that KWindowInfo makes of a handler: created without a function, it reports an error
      if and only if one came to it. */
  lemma PlainHandlerReports(st: State, ops: seq<Op>, end: State, original: nat, dpy: Display, next: ULong)
    requires NestedOver(st, original)
    requires LeadsAbove(Next(st, Create(NoHandler, dpy, next)), ops, end, |st.stack| + 1)
    ensures var i := |st.stack|;
            var taken := TakenBy(Next(st, Create(NoHandler, dpy, next)), ops, i);
            && i < |end.stack| && (end.stack[i].wasError <==> taken != [])
            && (taken != [] ==> end.stack[i].errorEvent == taken[0].e)
  {
    var st1 := Next(st, Create(NoHandler, dpy, next));
    StepKeepsNested(st, Create(NoHandler, dpy, next), original);
    hide NestedOver, LeadsAbove, TakenBy;
    FirstErrorRemembered(st1, ops, end, original, |st.stack| + 1, |st.stack|);
    var taken := TakenBy(st1, ops, |st.stack|);
    if taken != [] {
      assert ((_: Display, _: XErrorEvent) => true)(taken[0].dpy, taken[0].e);
    }
  }

  lemma StepAbove(st: State, op: Op, n: nat, x: XHandler)
    requires Enabled(st, op) && n <= |st.stack| && n <= |Next(st, op).stack|
    requires if |st.stack| == n then st.installed == x else st.installed == Wrapper && AboveIs(st.stack, n, x)
    ensures var st1 := Next(st, op);
            if |st1.stack| == n then st1.installed == x else st1.installed == Wrapper && AboveIs(st1.stack, n, x)
  {
    if op.Error? && st.installed == Wrapper && Grounded(st.stack) {
      DispatchedShape(st.stack, op.dpy, op.e);
    }
    hide Dispatched;
  }

  predicate AboveIs(stack: seq<Handler>, n: nat, x: XHandler) {
    && n < |stack| && stack[n].oldHandler == x
    && forall i :: n < i < |stack| ==> stack[i].oldHandler == Wrapper
  }

  lemma {:induction false} BracketInstalls(st: State, ops: seq<Op>, end: State, n: nat, x: XHandler)
    requires LeadsAbove(st, ops, end, n)
    requires if |st.stack| == n then st.installed == x else st.installed == Wrapper && AboveIs(st.stack, n, x)
    ensures if |end.stack| == n then end.installed == x else end.installed == Wrapper && AboveIs(end.stack, n, x)
    decreases |ops|
  {
    hide Next, Enabled, AboveIs;
    if ops != [] {
      StepAbove(st, ops[0], n, x);
      BracketInstalls(Next(st, ops[0]), ops[1..], end, n, x);
    }
  }

  /** Creating handlers, taking errors and destroying the handlers again in reverse order
      leaves the installed X handler as it was, and every older handler too, except that it
      remembers the first error that it took and that counts. */
  lemma BracketRestores(st: State, ops: seq<Op>, end: State, original: nat)
    requires NestedOver(st, original) && LeadsAbove(st, ops, end, |st.stack|) && |end.stack| == |st.stack|
    ensures end.installed == st.installed
    ensures forall i :: 0 <= i < |st.stack| ==> RemembersFirst(st.stack[i], end.stack[i], TakenBy(st, ops, i))
  {
    BracketInstalls(st, ops, end, |st.stack|, st.installed);
    forall i | 0 <= i < |st.stack|
      ensures RemembersFirst(st.stack[i], end.stack[i], TakenBy(st, ops, i))
    {
      FirstErrorRemembered(st, ops, end, original, |st.stack|, i);
    }
  }
}
