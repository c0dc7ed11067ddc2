/** Runs of the strut cache against a server whose properties change, and what the cached work
    area is worth in each state. */
module StrutCacheRuns {
  import opened StrutCache

  // ---------------------------------------------------------------- the lists

  predicate Distinct(ws: seq<Window>) {
    forall i, j :: 0 <= i < j < |ws| ==> ws[i] != ws[j]
  }

  predicate DistinctCached(cached: seq<StrutData>) {
    forall i, j :: 0 <= i < j < |cached| ==> cached[i].window != cached[j].window
  }

  /** The cached and the possible strut windows are disjoint, duplicate-free parts of the
      managed windows. */
  predicate ListsOk(c: Cache) {
    && Distinct(c.windows) && Distinct(c.possible) && DistinctCached(c.cached)
    && (forall w :: w in c.possible ==> w in c.windows && !IsCached(c.cached, w))
    && (forall i :: 0 <= i < |c.cached| ==> c.cached[i].window in c.windows)
  }

  /** What the cache says about a window's strut is right, or it knows that it must ask. */
  predicate StrutFresh(c: Cache, sv: Server, w: Window) {
    if IsCached(c.cached, w) then c.cached[Find(c.cached, w)].strut == StrutOf(sv, w)
    else w in c.possible || StrutOf(sv, w) == NO_STRUT
  }

  predicate DesktopFresh(c: Cache, sv: Server, w: Window) {
    IsCached(c.cached, w) ==> c.cached[Find(c.cached, w)].desktop == DesktopOf(sv, w)
  }

  lemma {:induction false} DroppedFacts(ws: seq<Window>, w: Window)
    ensures forall v :: v in Dropped(ws, w) <==> v in ws && v != w
    ensures Distinct(ws) ==> Distinct(Dropped(ws, w))
  {
    if ws != [] {
      DroppedFacts(ws[1..], w);
      assert forall v :: v in ws <==> v == ws[0] || v in ws[1..];
      if Distinct(ws) {
        assert Distinct(ws[1..]) && ws[0] !in ws[1..];
      }
    }
  }

  lemma FindUnique(cached: seq<StrutData>, i: nat)
    requires DistinctCached(cached) && i < |cached|
    ensures IsCached(cached, cached[i].window) && Find(cached, cached[i].window) == i
  {
  }

  lemma AppendedEntry(cached: seq<StrutData>, e: StrutData, w: Window)
    requires DistinctCached(cached) && !IsCached(cached, e.window)
    ensures DistinctCached(cached + [e]) && IsCached(cached + [e], e.window)
    ensures IsCached(cached + [e], w) <==> IsCached(cached, w) || w == e.window
    ensures IsCached(cached, w) ==> (cached + [e])[Find(cached + [e], w)] == cached[Find(cached, w)]
    ensures (cached + [e])[Find(cached + [e], e.window)] == e
  {
    var s := cached + [e];
    assert s[|cached|] == e;
    FindUnique(s, |cached|);
    if IsCached(cached, w) {
      assert s[Find(cached, w)] == cached[Find(cached, w)];
      FindUnique(s, Find(cached, w));
    }
  }

  lemma RemovedEntry(cached: seq<StrutData>, w: Window, v: Window)
    requires DistinctCached(cached)
    ensures DistinctCached(Uncached(cached, w))
    ensures IsCached(Uncached(cached, w), v) <==> IsCached(cached, v) && v != w
    ensures IsCached(cached, v) && v != w
            ==> Uncached(cached, w)[Find(Uncached(cached, w), v)] == cached[Find(cached, v)]
  {
    var s := Uncached(cached, w);
    if IsCached(cached, w) {
      var i := Find(cached, w);
      assert forall j :: 0 <= j < |s| ==> s[j] == if j < i then cached[j] else cached[j + 1];
      assert DistinctCached(s);
      if IsCached(cached, v) && v != w {
        var k := Find(cached, v);
        var l := if k < i then k else k - 1;
        assert s[l] == cached[k];
        FindUnique(s, l);
      }
    }
  }

  // ---------------------------------------------------------------- one call of workArea

  lemma VisitedKeeps(c: Cache, sv: Server, w: Window, v: Window)
    requires ListsOk(c)
    ensures var c1 := Visited(c, sv, w).0;
            && ListsOk(c1)
            && c1 == c.(cached := c1.cached, possible := c1.possible)
            && (v in c1.possible <==> v in c.possible && v != w)
            && (IsCached(c.cached, v) ==>
                  IsCached(c1.cached, v) && c1.cached[Find(c1.cached, v)] == c.cached[Find(c.cached, v)])
            && (StrutFresh(c, sv, v) ==> StrutFresh(c1, sv, v))
            && (DesktopFresh(c, sv, v) ==> DesktopFresh(c1, sv, v))
  {
    if !IsCached(c.cached, w) && w in c.possible {
      var e := StrutData(w, StrutOf(sv, w), DesktopOf(sv, w));
      DroppedFacts(c.possible, w);
      AppendedEntry(c.cached, e, v);
      forall u | u in Dropped(c.possible, w) ensures !IsCached(c.cached + [e], u) {
        AppendedEntry(c.cached, e, u);
      }
      hide Find, Dropped, IsCached;
    }
  }

  /** A call keeps the lists in order and what is known about every window, and leaves no
      window that it looked at to be asked for again. */
  lemma {:induction false} WalkedKeeps(c: Cache, sv: Server, ws: seq<Window>, exclude: seq<Window>,
                                       desktop: int, a: Rect, v: Window)
    requires ListsOk(c) && sv.display.Rect?
    ensures var c1 := Walked(c, sv, ws, exclude, desktop, a).0;
            && ListsOk(c1)
            && c1 == c.(cached := c1.cached, possible := c1.possible)
            && (v in c1.possible <==> v in c.possible && (v in ws ==> v in exclude))
            && (StrutFresh(c, sv, v) ==> StrutFresh(c1, sv, v))
            && (DesktopFresh(c, sv, v) ==> DesktopFresh(c1, sv, v))
    decreases |ws|
  {
    hide ListsOk, StrutFresh, DesktopFresh, Intersected, Visited;
    if ws != [] {
      assert v in ws <==> v == ws[0] || v in ws[1..];
      var (c1, strut, d) := Visited(c, sv, ws[0]);
      var a1 := if Shows(d, desktop) then Intersected(a, Shrunk(sv.display, strut)) else a;
      VisitedKeeps(c, sv, ws[0], v);
      if ws[0] in exclude || Skipped(c, ws[0]) {
        WalkedKeeps(c, sv, ws[1..], exclude, desktop, a, v);
      } else {
        WalkedKeeps(c1, sv, ws[1..], exclude, desktop, a1, v);
      }
    }
  }

  /** A null rectangle, or one inside the display. */
  predicate Within(a: Rect, display: Rect)
    requires display.Rect?
  {
    a.Null? || (display.left <= a.left <= a.right <= display.right
                && display.top <= a.top <= a.bottom <= display.bottom)
  }

  /** The strut takes nothing from the display. */
  predicate ShrinksNothing(s: Strut) {
    s.left <= 0 && s.top <= 0 && s.right <= 0 && s.bottom <= 0
  }

  lemma IntersectedWithin(a: Rect, display: Rect, s: Strut)
    requires !IsEmpty(display) && Within(a, display) && !IsEmpty(Shrunk(display, s))
    ensures Within(Intersected(a, Shrunk(display, s)), display)
    ensures ShrinksNothing(s) ==> Intersected(a, Shrunk(display, s)) == a
  {
  }

  lemma StrutLeavesRoom(sv: Server, w: Window)
    requires ServerOk(sv)
    ensures !IsEmpty(Shrunk(sv.display, StrutOf(sv, w)))
  {
  }

  /** The cache is right about a window's strut, and about its desktop if that matters. */
  predicate Counted(c: Cache, sv: Server, w: Window) {
    StrutFresh(c, sv, w) && (DesktopFresh(c, sv, w) || ShrinksNothing(StrutOf(sv, w)))
  }

  lemma VisitedIsTrue(c: Cache, sv: Server, w: Window)
    requires Counted(c, sv, w)
    ensures var (_, strut, d) := Visited(c, sv, w);
            if Skipped(c, w) then StrutOf(sv, w) == NO_STRUT
            else strut == StrutOf(sv, w) && (d == DesktopOf(sv, w) || ShrinksNothing(strut))
  {
  }

  lemma VisitedKeepsCounted(c: Cache, sv: Server, w: Window, v: Window)
    requires ListsOk(c) && Counted(c, sv, v)
    ensures Counted(Visited(c, sv, w).0, sv, v)
  {
    VisitedKeeps(c, sv, w, v);
    hide ListsOk, StrutFresh, DesktopFresh, Visited, ShrinksNothing;
  }

  /** The cached computation is the one without a cache, as far as the windows asked for are
      counted rightly. */
  lemma {:induction false} WalkedIsTrue(c: Cache, sv: Server, ws: seq<Window>, exclude: seq<Window>,
                                        desktop: int, a: Rect)
    requires ListsOk(c) && ServerOk(sv) && Within(a, sv.display)
    requires forall w :: w in ws && w !in exclude ==> Counted(c, sv, w)
    ensures Walked(c, sv, ws, exclude, desktop, a).1 == TrueArea(sv, ws, exclude, desktop, a)
    decreases |ws|
  {
    hide ListsOk, Counted, Intersected, Visited, Within, ServerOk, IsEmpty;
    assert sv.display.Rect? by {
      DisplayIsRect(sv);
    }
    if ws != [] {
      var w := ws[0];
      var (c1, strut, d) := Visited(c, sv, w);
      DisplayNotEmpty(sv);
      StrutLeavesRoom(sv, w);
      IntersectedWithin(a, sv.display, StrutOf(sv, w));
      if w in exclude {
        WalkedIsTrue(c, sv, ws[1..], exclude, desktop, a);
      } else {
        VisitedIsTrue(c, sv, w);
        if Skipped(c, w) {
          WalkedIsTrue(c, sv, ws[1..], exclude, desktop, a);
        } else {
          VisitedKeeps(c, sv, w, w);
          forall v | v in ws[1..] && v !in exclude ensures Counted(c1, sv, v) {
            VisitedKeepsCounted(c, sv, w, v);
          }
          var a1 := if Shows(d, desktop) then Intersected(a, Shrunk(sv.display, strut)) else a;
          WalkedIsTrue(c1, sv, ws[1..], exclude, desktop, a1);
        }
      }
    }
  }

  lemma DisplayIsRect(sv: Server)
    requires ServerOk(sv)
    ensures sv.display.Rect?
  {
  }

  lemma DisplayNotEmpty(sv: Server)
    requires ServerOk(sv)
    ensures !IsEmpty(sv.display)
  {
  }

  // ---------------------------------------------------------------- runs

  /** `pending` holds the windows of strut PropertyNotify events not yet handled. */
  datatype System = System(sv: Server, c: Cache, pending: seq<Window>, subscribed: set<Window>)

  datatype Op =
    | Add(w: Window)
    | Remove(w: Window)
    | Connect                            // a slot is connected to strutChanged
    | SetStrut(w: Window, strut: Strut)  // another client changes a property
    | SetDesktop(w: Window, desktop: int)
    | HandleEvent
    | Call(exclude: seq<Window>, desktop: int)

  predicate Enabled(sys: System, op: Op) {
    && sys.sv.display.Rect?
    && match op
       case Add(w) => w !in sys.c.windows
       case Remove(w) => w in sys.c.windows
       case SetStrut(_, s) => !IsEmpty(Shrunk(sys.sv.display, s))
       case HandleEvent => sys.pending != []
       case _ => true
  }

  function Next(sys: System, op: Op): System
    requires Enabled(sys, op)
  {
    var sv, c := sys.sv, sys.c;
    match op
    case Add(w) =>
      sys.(c := Added(c, w, StrutOf(sv, w), DesktopOf(sv, w)), subscribed := sys.subscribed + {w})
    case Remove(w) => sys.(c := Removed(c, w, StrutOf(sv, w)))
    case Connect => sys.(c := c.(connected := true))
    case SetStrut(w, s) =>
      sys.(sv := sv.(struts := sv.struts[w := s]),
           pending := if w in sys.subscribed then sys.pending + [w] else sys.pending)
    case SetDesktop(w, d) => sys.(sv := sv.(desktops := sv.desktops[w := d]))
    case HandleEvent => sys.(c := Invalidated(c, sys.pending[0]), pending := sys.pending[1..])
    case Call(exclude, desktop) => sys.(c := WorkAreaCall(c, sv, exclude, desktop).0)
  }

  function START(sv: Server): System {
    System(sv, Cache([], [], [], false, []), [], {})
  }

  ghost predicate Leads(sys: System, ops: seq<Op>, end: System)
    decreases |ops|
  {
    if ops == [] then end == sys
    else Enabled(sys, ops[0]) && Leads(Next(sys, ops[0]), ops[1..], end)
  }

  /** No managed window changes its desktop. */
  ghost predicate DesktopsStay(sys: System, ops: seq<Op>)
    decreases |ops|
  {
    if ops == [] then true
    else
      && Enabled(sys, ops[0])
      && (ops[0].SetDesktop? ==> ops[0].w !in sys.c.windows)
      && DesktopsStay(Next(sys, ops[0]), ops[1..])
  }

  predicate Known(sys: System, w: Window) {
    StrutFresh(sys.c, sys.sv, w) || w in sys.pending
  }

  predicate Inv(sys: System) {
    && ServerOk(sys.sv) && ListsOk(sys.c)
    && forall w :: w in sys.c.windows ==> w in sys.subscribed && Known(sys, w)
  }

  predicate DesktopsFresh(sys: System) {
    forall w :: w in sys.c.windows ==> DesktopFresh(sys.c, sys.sv, w)
  }

  lemma AddedLists(c: Cache, w: Window, strut: Strut, desktop: int)
    requires ListsOk(c) && w !in c.windows
    ensures ListsOk(Added(c, w, strut, desktop))
  {
    var e := StrutData(w, strut, desktop);
    assert !IsCached(c.cached, w);
    AppendedEntry(c.cached, e, w);
    forall v | v in c.windows ensures v in c.possible ==> !IsCached(c.cached + [e], v) {
      AppendedEntry(c.cached, e, v);
    }
    hide Find, IsCached;
  }

  /** The new window is known, and about the others nothing changes. */
  lemma AddedKnows(c: Cache, sv: Server, w: Window, v: Window)
    requires ListsOk(c) && w !in c.windows
    ensures var c1 := Added(c, w, StrutOf(sv, w), DesktopOf(sv, w));
            && (v == w || StrutFresh(c, sv, v) ==> StrutFresh(c1, sv, v))
            && (v == w || DesktopFresh(c, sv, v) ==> DesktopFresh(c1, sv, v))
  {
    assert !IsCached(c.cached, w);
    AppendedEntry(c.cached, StrutData(w, StrutOf(sv, w), DesktopOf(sv, w)), v);
    hide Find, IsCached;
  }

  lemma AddKeeps(sys: System, w: Window)
    requires Inv(sys) && Enabled(sys, Add(w))
    ensures Inv(Next(sys, Add(w)))
    ensures DesktopsFresh(sys) ==> DesktopsFresh(Next(sys, Add(w)))
  {
    hide ListsOk, StrutFresh, DesktopFresh;
    var sys1 := Next(sys, Add(w));
    AddedLists(sys.c, w, StrutOf(sys.sv, w), DesktopOf(sys.sv, w));
    forall v | v in sys1.c.windows
      ensures Known(sys1, v)
      ensures v == w || DesktopFresh(sys.c, sys.sv, v) ==> DesktopFresh(sys1.c, sys1.sv, v)
    {
      AddedKnows(sys.c, sys.sv, w, v);
    }
  }

  lemma RemoveKeeps(sys: System, w: Window)
    requires Inv(sys) && Enabled(sys, Remove(w))
    ensures Inv(Next(sys, Remove(w)))
    ensures DesktopsFresh(sys) ==> DesktopsFresh(Next(sys, Remove(w)))
  {
    var sys1 := Next(sys, Remove(w));
    DroppedFacts(sys.c.windows, w);
    DroppedFacts(sys.c.possible, w);
    forall v | v in sys1.c.windows
      ensures Known(sys1, v)
      ensures DesktopFresh(sys.c, sys.sv, v) ==> DesktopFresh(sys1.c, sys1.sv, v)
    {
      RemovedEntry(sys.c.cached, w, v);
    }
    UncachedLists(sys.c, w);
    hide Find, IsCached, Dropped, Uncached;
  }

  lemma UncachedLists(c: Cache, w: Window)
    requires ListsOk(c)
    ensures var s := Uncached(c.cached, w);
            && DistinctCached(s)
            && (forall v :: IsCached(s, v) <==> IsCached(c.cached, v) && v != w)
            && (forall i :: 0 <= i < |s| ==> s[i].window in c.windows && s[i].window != w)
  {
    var s := Uncached(c.cached, w);
    forall v ensures IsCached(s, v) <==> IsCached(c.cached, v) && v != w {
      RemovedEntry(c.cached, w, v);
    }
    RemovedEntry(c.cached, w, w);
    forall i | 0 <= i < |s| ensures s[i].window in c.windows && s[i].window != w {
      assert IsCached(s, s[i].window);
    }
  }

  lemma InvalidatedLists(c: Cache, w: Window)
    requires ListsOk(c)
    ensures ListsOk(Invalidated(c, w))
  {
    UncachedLists(c, w);
    hide Find, IsCached, Uncached;
  }

  lemma InvalidatedKeeps(c: Cache, sv: Server, w: Window, v: Window)
    requires ListsOk(c) && v in c.windows
    ensures StrutFresh(c, sv, v) || v == w ==> StrutFresh(Invalidated(c, w), sv, v)
    ensures DesktopFresh(c, sv, v) ==> DesktopFresh(Invalidated(c, w), sv, v)
  {
    RemovedEntry(c.cached, w, v);
    hide Find, IsCached, Uncached;
  }

  lemma EventKeeps(sys: System)
    requires Inv(sys) && Enabled(sys, HandleEvent)
    ensures Inv(Next(sys, HandleEvent))
    ensures DesktopsFresh(sys) ==> DesktopsFresh(Next(sys, HandleEvent))
  {
    hide ListsOk, StrutFresh, DesktopFresh;
    var sys1 := Next(sys, HandleEvent);
    var w := sys.pending[0];
    InvalidatedLists(sys.c, w);
    forall v | v in sys1.c.windows
      ensures Known(sys1, v)
      ensures DesktopFresh(sys.c, sys.sv, v) ==> DesktopFresh(sys1.c, sys1.sv, v)
    {
      InvalidatedKeeps(sys.c, sys.sv, w, v);
      assert v in sys.pending ==> v == w || v in sys1.pending;
    }
  }

  lemma CallKeeps(sys: System, exclude: seq<Window>, desktop: int)
    requires Inv(sys) && Enabled(sys, Call(exclude, desktop))
    ensures Inv(Next(sys, Call(exclude, desktop)))
    ensures DesktopsFresh(sys) ==> DesktopsFresh(Next(sys, Call(exclude, desktop)))
  {
    hide ListsOk, StrutFresh, DesktopFresh, Walked;
    var sys1 := Next(sys, Call(exclude, desktop));
    WalkedKeeps(sys.c, sys.sv, sys.c.windows, exclude, desktop, sys.sv.display, 0);
    forall v | v in sys.c.windows
      ensures Known(sys1, v)
      ensures DesktopFresh(sys.c, sys.sv, v) ==> DesktopFresh(sys1.c, sys1.sv, v)
    {
      WalkedKeeps(sys.c, sys.sv, sys.c.windows, exclude, desktop, sys.sv.display, v);
    }
  }

  lemma StepKeeps(sys: System, op: Op)
    requires Inv(sys) && Enabled(sys, op)
    ensures Inv(Next(sys, op))
    ensures DesktopsFresh(sys) && (op.SetDesktop? ==> op.w !in sys.c.windows)
            ==> DesktopsFresh(Next(sys, op))
  {
    match op
    case Add(w) => AddKeeps(sys, w);
    case Remove(w) => RemoveKeeps(sys, w);
    case HandleEvent => EventKeeps(sys);
    case Call(exclude, desktop) => CallKeeps(sys, exclude, desktop);
    case _ => hide Find, IsCached;
  }

  lemma {:induction false} RunKeeps(sys: System, ops: seq<Op>, end: System)
    requires Inv(sys) && Leads(sys, ops, end)
    ensures Inv(end)
    ensures DesktopsFresh(sys) && DesktopsStay(sys, ops) ==> DesktopsFresh(end)
    decreases |ops|
  {
    hide Inv, Next, Enabled, DesktopsFresh;
    if ops != [] {
      StepKeeps(sys, ops[0]);
      RunKeeps(Next(sys, ops[0]), ops[1..], end);
    }
  }

  // ---------------------------------------------------------------- what holds of all runs

  /** In every reachable state the lists are disjoint, duplicate-free parts of the managed
      windows, and a wrong cached strut always has its event pending. */
  lemma ListsStayInOrder(sv: Server, ops: seq<Op>, end: System, w: Window)
    requires ServerOk(sv) && Leads(START(sv), ops, end)
    ensures ListsOk(end.c)
    ensures w in end.c.windows && w !in end.pending ==> StrutFresh(end.c, end.sv, w)
  {
    RunKeeps(START(sv), ops, end);
  }

  /** Cache transparency: along every run in which managed windows keep their desktop, the
      cached work area is the one read from the server, as soon as no window that counts has a
      strut event pending. */
  lemma CacheTransparency(sv: Server, ops: seq<Op>, end: System, exclude: seq<Window>, desktop: int)
    requires ServerOk(sv) && Leads(START(sv), ops, end) && DesktopsStay(START(sv), ops)
    requires forall w :: w in end.pending ==> w in exclude || w !in end.c.windows
    requires end.sv.display.Rect?
    ensures WorkAreaCall(end.c, end.sv, exclude, desktop).1
            == TrueArea(end.sv, end.c.windows, exclude, desktop, end.sv.display)
  {
    RunKeeps(START(sv), ops, end);
    hide ListsOk, StrutFresh, DesktopFresh, ShrinksNothing;
    WalkedIsTrue(end.c, end.sv, end.c.windows, exclude, desktop, end.sv.display);
  }

  /** After a call, only excluded windows are still to be asked for their strut. */
  lemma NothingLeftToAsk(sv: Server, ops: seq<Op>, end: System, exclude: seq<Window>, desktop: int, w: Window)
    requires ServerOk(sv) && Leads(START(sv), ops, end) && end.sv.display.Rect?
    requires w in WorkAreaCall(end.c, end.sv, exclude, desktop).0.possible
    ensures w in exclude && w in end.c.possible
  {
    RunKeeps(START(sv), ops, end);
    WalkedKeeps(end.c, end.sv, end.c.windows, exclude, desktop, end.sv.display, w);
    hide Walked;
  }

  // ---------------------------------------------------------------- pixel by pixel

  predicate Contains(a: Rect, x: int, y: int) {
    a.Rect? && a.left <= x <= a.right && a.top <= y <= a.bottom
  }

  /** The pixel lies in the strip that a panel with this strut keeps at one of the edges. */
  predicate Reserves(display: Rect, s: Strut, x: int, y: int)
    requires display.Rect?
  {
    || (s.left > 0 && x < display.left + s.left)
    || (s.right > 0 && x > display.right - s.right)
    || (s.top > 0 && y < display.top + s.top)
    || (s.bottom > 0 && y > display.bottom - s.bottom)
  }

  /** The window keeps the pixel free on a desktop: its properties at the server say so. */
  predicate Keeps(sv: Server, w: Window, desktop: int, x: int, y: int)
    requires sv.display.Rect?
  {
    var d := if w in sv.desktops then sv.desktops[w] else 0;
    w in sv.struts && (d == desktop || d == -1) && Reserves(sv.display, sv.struts[w], x, y)
  }

  lemma IntersectedPixel(a: Rect, b: Rect, x: int, y: int)
    ensures Contains(Intersected(a, b), x, y) <==> Contains(a, x, y) && Contains(b, x, y)
  {
  }

  lemma ShrunkPixel(display: Rect, s: Strut, x: int, y: int)
    requires display.Rect?
    ensures Contains(Shrunk(display, s), x, y) <==> Contains(display, x, y) && !Reserves(display, s, x, y)
  {
  }

  lemma {:induction false} AreaPixel(sv: Server, ws: seq<Window>, exclude: seq<Window>, desktop: int, a: Rect,
                                     x: int, y: int)
    requires sv.display.Rect? && (Contains(a, x, y) ==> Contains(sv.display, x, y))
    ensures Contains(TrueArea(sv, ws, exclude, desktop, a), x, y)
            <==> Contains(a, x, y) && forall w :: w in ws && w !in exclude ==> !Keeps(sv, w, desktop, x, y)
    decreases |ws|
  {
    hide Contains, Intersected, Shrunk, Reserves;
    if ws != [] {
      var s := StrutOf(sv, ws[0]);
      var a1 := if ws[0] !in exclude && Shows(DesktopOf(sv, ws[0]), desktop)
                then Intersected(a, Shrunk(sv.display, s)) else a;
      IntersectedPixel(a, Shrunk(sv.display, s), x, y);
      ShrunkPixel(sv.display, s, x, y);
      NothingReserved(sv.display, x, y);
      AreaPixel(sv, ws[1..], exclude, desktop, a1, x, y);
      assert forall w :: w in ws <==> w == ws[0] || w in ws[1..];
    }
  }

  lemma NothingReserved(display: Rect, x: int, y: int)
    requires display.Rect?
    ensures !Reserves(display, NO_STRUT, x, y)
  {
  }

  /** What workArea is: along every run in which managed windows keep their desktop, and once no
      window that counts has a strut event pending, a pixel is in the work area exactly when it is
      on the display and no managed window, not excluded and shown on the desktop, keeps it. */
  lemma WorkAreaPixels(sv: Server, ops: seq<Op>, end: System, exclude: seq<Window>, desktop: int, x: int, y: int)
    requires ServerOk(sv) && Leads(START(sv), ops, end) && DesktopsStay(START(sv), ops)
    requires forall w :: w in end.pending ==> w in exclude || w !in end.c.windows
    requires end.sv.display.Rect?
    ensures Contains(WorkAreaCall(end.c, end.sv, exclude, desktop).1, x, y)
            <==> && Contains(end.sv.display, x, y)
                 && forall w :: w in end.c.windows && w !in exclude ==> !Keeps(end.sv, w, desktop, x, y)
  {
    hide Leads, DesktopsStay, WorkAreaCall, TrueArea, Contains, Keeps, ServerOk;
    CacheTransparency(sv, ops, end, exclude, desktop);
    AreaPixel(end.sv, end.c.windows, exclude, desktop, end.sv.display, x, y);
  }

  // ---------------------------------------------------------------- who is managed, who is told

  predicate TakesSpace(sv: Server, w: Window) {
    w in sv.struts && sv.struts[w] != Strut(0, 0, 0, 0)
  }

  /** What listeners are told: of every window that comes and goes, and of a strut when a window
      that has one comes after somebody listens, when one goes that is cached or found to have
      one, and at every strut event of a managed window. */
  lemma SignalsExactly(sys: System, op: Op)
    requires Enabled(sys, op)
    ensures var c := sys.c;
            Next(sys, op).c.signals
            == c.signals
               + match op
                 case Add(w) =>
                   [WindowAdded(w)] + if c.connected && TakesSpace(sys.sv, w) then [StrutChanged] else []
                 case Remove(w) =>
                   [WindowRemoved(w)]
                   + if (exists e :: e in c.cached && e.window == w)
                        || (c.connected && w in c.possible && TakesSpace(sys.sv, w))
                     then [StrutChanged] else []
                 case HandleEvent => if sys.pending[0] in c.windows then [StrutChanged] else []
                 case _ => []
  {
    if op.Remove? {
      assert IsCached(sys.c.cached, op.w) <==> exists e :: e in sys.c.cached && e.window == op.w;
    } else if op.Call? {
      CallIsQuiet(sys.c, sys.sv, sys.c.windows, op.exclude, op.desktop, sys.sv.display);
    }
    hide Walked, Uncached, Dropped, Find, IsCached;
  }

  lemma {:induction false} CallIsQuiet(c: Cache, sv: Server, ws: seq<Window>, exclude: seq<Window>, desktop: int,
                                       a: Rect)
    requires sv.display.Rect?
    ensures var c1 := Walked(c, sv, ws, exclude, desktop, a).0;
            c1.signals == c.signals && c1.windows == c.windows && c1.connected == c.connected
    decreases |ws|
  {
    hide Intersected, Shrunk, Find, IsCached, Dropped;
    if ws != [] {
      var (c1, strut, d) := Visited(c, sv, ws[0]);
      CallIsQuiet(c, sv, ws[1..], exclude, desktop, a);
      CallIsQuiet(c1, sv, ws[1..], exclude, desktop,
                  if Shows(d, desktop) then Intersected(a, Shrunk(sv.display, strut)) else a);
    }
  }

  /** The windows that a run adds and does not remove again, in the order in which it adds them. */
  function Managed(ops: seq<Op>): seq<Window> {
    if ops == [] then []
    else (if ops[0].Add? && Remove(ops[0].w) !in ops[1..] then [ops[0].w] else []) + Managed(ops[1..])
  }

  /** The windows that a run does not remove. */
  function Spared(ws: seq<Window>, ops: seq<Op>): seq<Window> {
    if ws == [] then [] else (if Remove(ws[0]) in ops then [] else [ws[0]]) + Spared(ws[1..], ops)
  }

  lemma {:induction false} SparedSnoc(ws: seq<Window>, w: Window, ops: seq<Op>)
    ensures Spared(ws + [w], ops) == Spared(ws, ops) + if Remove(w) in ops then [] else [w]
  {
    if ws == [] {
      assert [] + [w] == [w] && [w][1..] == [];
    } else {
      assert (ws + [w])[1..] == ws[1..] + [w];
      SparedSnoc(ws[1..], w, ops);
    }
  }

  lemma SparedStep(w: Window, ws: seq<Window>, ops: seq<Op>)
    ensures Spared([w] + ws, ops) == (if Remove(w) in ops then [] else [w]) + Spared(ws, ops)
  {
    assert ([w] + ws)[1..] == ws;
  }

  lemma {:induction false} SparedFirst(ws: seq<Window>, ops: seq<Op>)
    requires ops != []
    ensures Spared(ws, ops) == Spared(if ops[0].Remove? then Dropped(ws, ops[0].w) else ws, ops[1..])
  {
    if ws != [] {
      var w, more := ws[0], ws[1..];
      SparedFirst(more, ops);
      assert Remove(w) in ops <==> ops[0] == Remove(w) || Remove(w) in ops[1..];
      assert ws == [w] + more;
      SparedStep(w, more, ops);
      if ops[0].Remove? {
        DroppedStep(w, more, ops[0].w);
        SparedStep(w, Dropped(more, ops[0].w), ops[1..]);
      } else {
        SparedStep(w, more, ops[1..]);
      }
      hide Spared, Dropped;
    }
  }

  lemma DroppedStep(w: Window, ws: seq<Window>, v: Window)
    ensures Dropped([w] + ws, v) == if w == v then Dropped(ws, v) else [w] + Dropped(ws, v)
  {
    assert ([w] + ws)[1..] == ws;
  }

  lemma {:induction false} AllSpared(ws: seq<Window>)
    ensures Spared(ws, []) == ws
  {
    if ws != [] {
      AllSpared(ws[1..]);
    }
  }

  lemma StepManages(sys: System, op: Op)
    requires Enabled(sys, op)
    ensures Next(sys, op).c.windows
            == if op.Add? then sys.c.windows + [op.w]
               else if op.Remove? then Dropped(sys.c.windows, op.w) else sys.c.windows
    ensures Next(sys, op).c.connected <==> sys.c.connected || op == Connect
  {
    if op.Call? {
      CallIsQuiet(sys.c, sys.sv, sys.c.windows, op.exclude, op.desktop, sys.sv.display);
    }
    hide Walked, Uncached, Dropped, Find, IsCached;
  }

  lemma {:induction false} ManagedFrom(sys: System, ops: seq<Op>, end: System)
    requires Leads(sys, ops, end)
    ensures end.c.windows == Spared(sys.c.windows, ops) + Managed(ops)
    ensures end.c.connected <==> sys.c.connected || Connect in ops
    decreases |ops|
  {
    hide Enabled, Next, Dropped, Spared;
    if ops == [] {
      assert Managed(ops) == [];
      AllSpared(sys.c.windows);
    } else {
      var op, rest := ops[0], ops[1..];
      StepManages(sys, op);
      ManagedFrom(Next(sys, op), rest, end);
      ManagedFirst(sys.c.windows, ops);
      assert Connect in ops <==> op == Connect || Connect in rest;
      hide Managed;
    }
  }

  lemma ManagedFirst(ws: seq<Window>, ops: seq<Op>)
    requires ops != []
    ensures Spared(ws, ops) + Managed(ops)
            == Spared(if ops[0].Add? then ws + [ops[0].w]
                      else if ops[0].Remove? then Dropped(ws, ops[0].w) else ws, ops[1..]) + Managed(ops[1..])
  {
    var op, rest := ops[0], ops[1..];
    SparedFirst(ws, ops);
    ManagedStep(ops);
    if op.Add? {
      SparedSnoc(ws, op.w, rest);
      Regroup(Spared(ws, rest), if Remove(op.w) in rest then [] else [op.w], Managed(rest));
    }
    hide Spared, Dropped, Managed;
  }

  lemma ManagedStep(ops: seq<Op>)
    requires ops != []
    ensures ops[0].Add? ==>
              Managed(ops) == (if Remove(ops[0].w) in ops[1..] then [] else [ops[0].w]) + Managed(ops[1..])
    ensures !ops[0].Add? ==> Managed(ops) == Managed(ops[1..])
  {
    assert [] + Managed(ops[1..]) == Managed(ops[1..]);
  }

  lemma Regroup(a: seq<Window>, b: seq<Window>, c: seq<Window>)
    ensures a + (b + c) == (a + b) + c
  {
  }

  /** Over every run: the managed windows are those added and not removed since, in the order in
      which they were added, and struts are read at once when windows appear if and only if
      somebody has connected to strutChanged. */
  lemma ManagedWindows(sv: Server, ops: seq<Op>, end: System)
    requires Leads(START(sv), ops, end)
    ensures end.c.windows == Managed(ops)
    ensures end.c.connected <==> Connect in ops
  {
    hide Leads, Managed;
    ManagedFrom(START(sv), ops, end);
    assert Spared([], ops) == [];
  }

  /** No strut disappears unheard: when a window goes whose strut has no event pending, listeners
      are told if that strut takes space. */
  lemma RemovalIsHeard(sv: Server, ops: seq<Op>, end: System, w: Window)
    requires ServerOk(sv) && Leads(START(sv), ops, end) && Enabled(end, Remove(w))
    requires Connect in ops && w !in end.pending && TakesSpace(end.sv, w)
    ensures Next(end, Remove(w)).c.signals == end.c.signals + [WindowRemoved(w), StrutChanged]
  {
    assert Inv(START(sv));
    hide Leads, ListsOk;
    ManagedWindows(sv, ops, end);
    RunKeeps(START(sv), ops, end);
    SignalsExactly(end, Remove(w));
    assert Known(end, w);
    if IsCached(end.c.cached, w) {
      assert end.c.cached[Find(end.c.cached, w)] in end.c.cached;
    }
    hide Next;
  }

  // ---------------------------------------------------------------- desktop changes

  function WithDesktop(sv: Server, w: Window, d: int): Server {
    sv.(desktops := sv.desktops[w := d])
  }

  /** The desktop of a cached window is not read again. */
  lemma {:induction false} CachedDesktopCounts(c: Cache, sv: Server, ws: seq<Window>, exclude: seq<Window>,
                                               desktop: int, a: Rect, w: Window, d: int)
    requires ListsOk(c) && sv.display.Rect? && IsCached(c.cached, w)
    ensures Walked(c, WithDesktop(sv, w, d), ws, exclude, desktop, a) == Walked(c, sv, ws, exclude, desktop, a)
    decreases |ws|
  {
    hide ListsOk, IsCached, Find, Intersected;
    if ws != [] {
      var (c1, strut, e) := Visited(c, sv, ws[0]);
      var a1 := if Shows(e, desktop) then Intersected(a, Shrunk(sv.display, strut)) else a;
      CachedNotPossible(c, w);
      VisitedKeeps(c, sv, ws[0], w);
      if ws[0] in exclude || Skipped(c, ws[0]) {
        CachedDesktopCounts(c, sv, ws[1..], exclude, desktop, a, w, d);
      } else {
        assert Visited(c, WithDesktop(sv, w, d), ws[0]) == Visited(c, sv, ws[0]);
        CachedDesktopCounts(c1, sv, ws[1..], exclude, desktop, a1, w, d);
      }
    }
  }

  lemma CachedNotPossible(c: Cache, w: Window)
    requires ListsOk(c) && IsCached(c.cached, w)
    ensures w !in c.possible
  {
  }

  /** Only the windows that are not excluded count. */
  lemma {:induction false} AreaOfOthers(sv: Server, ws: seq<Window>, exclude: seq<Window>, desktop: int, a: Rect)
    requires sv.display.Rect? && forall w :: w in ws ==> w in exclude
    ensures TrueArea(sv, ws, exclude, desktop, a) == a
    decreases |ws|
  {
    if ws != [] {
      AreaOfOthers(sv, ws[1..], exclude, desktop, a);
    }
  }

  lemma {:induction false} AreaOfOne(sv: Server, ws: seq<Window>, exclude: seq<Window>, desktop: int,
                                     a: Rect, w: Window)
    requires sv.display.Rect? && Distinct(ws) && w in ws
    requires forall v :: v in ws ==> (v in exclude <==> v != w)
    ensures TrueArea(sv, ws, exclude, desktop, a)
            == if Shows(DesktopOf(sv, w), desktop) then Intersected(a, Shrunk(sv.display, StrutOf(sv, w))) else a
    decreases |ws|
  {
    if ws[0] == w {
      assert forall v :: v in ws[1..] ==> v in exclude;
      AreaOfOthers(sv, ws[1..], exclude, desktop,
                   if Shows(DesktopOf(sv, w), desktop) then Intersected(a, Shrunk(sv.display, StrutOf(sv, w))) else a);
    } else {
      AreaOfOne(sv, ws[1..], exclude, desktop, a, w);
    }
  }

  predicate Includes(exclude: seq<Window>, ignored: seq<Window>) {
    forall w :: w in ignored ==> w in exclude
  }

  /** Every call that excludes at least the ignored windows gets the true work area. */
  ghost predicate AlwaysRight(c: Cache, sv: Server, ignored: seq<Window>)
    requires sv.display.Rect?
  {
    forall exclude, desktop :: Includes(exclude, ignored)
      ==> WorkAreaCall(c, sv, exclude, desktop).1
          == TrueArea(sv, c.windows, exclude, desktop, sv.display)
  }

  /** A desktop on which exactly one of two windows is shown. */
  function TellApart(d: int, e: int): int {
    if d == ON_ALL_DESKTOPS then if e == 0 then 1 else 0
    else if e == ON_ALL_DESKTOPS then if d == 0 then 1 else 0
    else d
  }

  /** A window whose cached desktop is stale and whose strut takes something is missed or
      counted wrongly by the call that excludes all others. */
  lemma StaleDesktopShows(c: Cache, sv: Server, w: Window, ignored: seq<Window>)
    requires ListsOk(c) && ServerOk(sv) && sv.display.Rect? && w in c.windows && w !in ignored
    requires StrutFresh(c, sv, w) && !DesktopFresh(c, sv, w) && !ShrinksNothing(StrutOf(sv, w))
    ensures !AlwaysRight(c, sv, ignored)
  {
    var d := c.cached[Find(c.cached, w)].desktop;
    var others := Dropped(c.windows, w) + ignored;
    var desktop := TellApart(d, DesktopOf(sv, w));
    var believed := WithDesktop(sv, w, d);
    assert ServerOk(believed) && Within(sv.display, sv.display) && Counted(c, believed, w);
    DroppedFacts(c.windows, w);
    hide ListsOk, StrutFresh, DesktopFresh, Counted, Walked, Dropped, TellApart;
    CachedDesktopCounts(c, sv, c.windows, others, desktop, sv.display, w, d);
    WalkedIsTrue(c, believed, c.windows, others, desktop, sv.display);
    MissesOne(c, sv, w, d, others);
    assert Includes(others, ignored);
  }

  /** The cache is not told when a cached window changes its desktop. With right struts, the
      work area is right, whatever is asked for, exactly when each of the windows that count
      still has its cached desktop, or a strut that takes nothing from the display. */
  lemma DesktopChangeExact(c: Cache, sv: Server, ignored: seq<Window>)
    requires ListsOk(c) && ServerOk(sv) && sv.display.Rect?
    requires forall v :: v in c.windows && v !in ignored ==> StrutFresh(c, sv, v)
    ensures AlwaysRight(c, sv, ignored)
            <==> forall v :: v in c.windows && v !in ignored
                   ==> DesktopFresh(c, sv, v) || ShrinksNothing(StrutOf(sv, v))
  {
    hide ListsOk, StrutFresh, DesktopFresh, Walked, ShrinksNothing;
    if w :| w in c.windows && w !in ignored && !DesktopFresh(c, sv, w) && !ShrinksNothing(StrutOf(sv, w)) {
      StaleDesktopShows(c, sv, w, ignored);
    } else {
      assert Within(sv.display, sv.display);
      forall exclude, desktop | Includes(exclude, ignored)
        ensures WorkAreaCall(c, sv, exclude, desktop).1
                == TrueArea(sv, c.windows, exclude, desktop, sv.display)
      {
        WalkedIsTrue(c, sv, c.windows, exclude, desktop, sv.display);
      }
    }
  }

  /** The same along every run, whatever changes its desktop: only the windows that have a
      strut event pending must be excluded. */
  lemma ReachableExact(sv: Server, ops: seq<Op>, end: System, ignored: seq<Window>)
    requires ServerOk(sv) && Leads(START(sv), ops, end) && end.sv.display.Rect?
    requires forall w :: w in end.pending && w in end.c.windows ==> w in ignored
    ensures AlwaysRight(end.c, end.sv, ignored)
            <==> forall v :: v in end.c.windows && v !in ignored
                   ==> DesktopFresh(end.c, end.sv, v) || ShrinksNothing(StrutOf(end.sv, v))
  {
    RunKeeps(START(sv), ops, end);
    hide ListsOk, StrutFresh, DesktopFresh, ShrinksNothing, AlwaysRight, Leads;
    DesktopChangeExact(end.c, end.sv, ignored);
  }

  /** With every other window excluded, a stale desktop shows. */
  lemma MissesOne(c: Cache, sv: Server, w: Window, d: int, others: seq<Window>)
    requires ListsOk(c) && ServerOk(sv) && w in c.windows && sv.display.Rect?
    requires d != DesktopOf(sv, w) && !ShrinksNothing(StrutOf(sv, w))
    requires forall v :: v in c.windows ==> (v in others <==> v != w)
    ensures var desktop := TellApart(d, DesktopOf(sv, w));
            TrueArea(WithDesktop(sv, w, d), c.windows, others, desktop, sv.display)
            != TrueArea(sv, c.windows, others, desktop, sv.display)
  {
    var desktop := TellApart(d, DesktopOf(sv, w));
    StrutLeavesRoom(sv, w);
    AreaOfOne(sv, c.windows, others, desktop, sv.display, w);
    AreaOfOne(WithDesktop(sv, w, d), c.windows, others, desktop, sv.display, w);
    assert Shows(d, desktop) != Shows(DesktopOf(sv, w), desktop);
    assert Intersected(sv.display, Shrunk(sv.display, StrutOf(sv, w))) != sv.display;
  }

  // ---------------------------------------------------------------- such a run

  lemma {:induction false} LeadsFurther(sys: System, ops: seq<Op>, mid: System, op: Op)
    requires Leads(sys, ops, mid) && Enabled(mid, op)
    ensures Leads(sys, ops + [op], Next(mid, op))
    decreases |ops|
  {
    hide Enabled, Next;
    if ops != [] {
      LeadsFurther(Next(sys, ops[0]), ops[1..], mid, op);
      assert (ops + [op])[1..] == ops[1..] + [op];
    }
  }

  ghost predicate Reachable(sv: Server, sys: System) {
    exists ops :: Leads(START(sv), ops, sys)
  }

  lemma Goes(sv: Server, a: System, op: Op, b: System)
    requires Reachable(sv, a) && Enabled(a, op) && Next(a, op) == b
    ensures Reachable(sv, b)
  {
    hide Enabled, Next;
    var ops :| Leads(START(sv), ops, a);
    LeadsFurther(START(sv), ops, a, op);
  }

  const SCREEN: Server := Server(Rect(0, 0, 99, 99), map[7 := Strut(0, 0, 10, 0)], map[7 := 1])

  const MOVED: Server := Server(Rect(0, 0, 99, 99), map[7 := Strut(0, 0, 10, 0)], map[7 := 2])

  const PANEL: Cache := Cache([7], [StrutData(7, Strut(0, 0, 10, 0), 1)], [], true, [WindowAdded(7), StrutChanged])

  const EMPTY: Cache := Cache([], [], [], true, [])

  lemma PanelAppears()
    ensures Reachable(SCREEN, System(SCREEN, PANEL, [], {7}))
  {
    assert Leads(START(SCREEN), [], START(SCREEN));
    hide Reachable;
    Goes(SCREEN, START(SCREEN), Connect, System(SCREEN, EMPTY, [], {}));
    assert Added(EMPTY, 7, Strut(0, 0, 10, 0), 1) == PANEL;
    Goes(SCREEN, System(SCREEN, EMPTY, [], {}), Add(7), System(SCREEN, PANEL, [], {7}));
  }

  lemma PanelMoves()
    ensures Reachable(SCREEN, System(MOVED, PANEL, [], {7}))
  {
    hide Reachable;
    PanelAppears();
    assert map[7 := 1][7 := 2] == map[7 := 2];
    Goes(SCREEN, System(SCREEN, PANEL, [], {7}), SetDesktop(7, 2), System(MOVED, PANEL, [], {7}));
  }

  lemma PanelNotCounted(c: Cache, sv: Server)
    requires c == PANEL && sv == MOVED
    ensures WorkAreaCall(c, sv, [], 2).1 == sv.display
  {
    hide Walked, Intersected, Find, IsCached, Dropped, Shrunk;
    assert c.cached[0].window == 7;
    FindUnique(c.cached, 0);
    var ws := c.windows;
    assert ws[1..] == [];
    WalkedOne(c, sv, ws, [], 2, sv.display);
    WalkedNone(c, sv, [], 2, sv.display);
  }

  /** A strut at the top moves the top of the work area. */
  lemma TopStrut(display: Rect, s: Strut)
    requires !IsEmpty(display) && s.left == 0 && s.right == 0 && s.bottom == 0
    requires 0 < s.top <= display.bottom - display.top
    ensures Intersected(display, Shrunk(display, s)).Rect?
            && Intersected(display, Shrunk(display, s)).top == display.top + s.top
  {
  }

  lemma PanelStrut(sv: Server)
    requires sv == MOVED
    ensures StrutOf(sv, 7) == Strut(0, 0, 10, 0) && DesktopOf(sv, 7) == 2 && sv.display == Rect(0, 0, 99, 99)
  {
  }

  lemma PanelCounts(sv: Server, ws: seq<Window>)
    requires sv == MOVED && ws == [7]
    ensures TrueArea(sv, ws, [], 2, sv.display).Rect? && TrueArea(sv, ws, [], 2, sv.display).top == 10
  {
    hide TrueArea, Intersected, Shrunk;
    PanelStrut(sv);
    TopStrut(sv.display, StrutOf(sv, 7));
    AreaOfOne(sv, ws, [], 2, sv.display, 7);
  }

  /** A panel of 10 pixels at the top moves from desktop 1 to desktop 2 after its strut was
      cached. No event is pending, and yet workArea gives desktop 2 the whole display. */
  lemma PanelIsMissed()
    ensures Reachable(SCREEN, System(MOVED, PANEL, [], {7}))
    ensures WorkAreaCall(PANEL, MOVED, [], 2).1 == MOVED.display && MOVED.display == Rect(0, 0, 99, 99)
    ensures TrueArea(MOVED, PANEL.windows, [], 2, MOVED.display).Rect?
            && TrueArea(MOVED, PANEL.windows, [], 2, MOVED.display).top == 10
  {
    hide Walked, WorkAreaCall, TrueArea, Reachable;
    PanelMoves();
    PanelNotCounted(PANEL, MOVED);
    PanelCounts(MOVED, PANEL.windows);
  }
}
