/** The strut cache of NETEventFilter and the work area computed from it
    (KX11Extras::workArea), at device pixel ratio 1. */
module StrutCache {

  type Window = nat

  datatype Strut = Strut(left: int, right: int, top: int, bottom: int)

  const NO_STRUT: Strut := Strut(0, 0, 0, 0)

  const ON_ALL_DESKTOPS: int := -1

  /** A QRect, given by its first and last pixels; Null is QRect(). */
  datatype Rect = Null | Rect(left: int, top: int, right: int, bottom: int)

  predicate IsEmpty(r: Rect) {
    r.Null? || r.left > r.right || r.top > r.bottom
  }

  function Max(a: int, b: int): int {
    if a < b then b else a
  }

  function Min(a: int, b: int): int {
    if a < b then a else b
  }

  /** QRect::intersected for rectangles that are null or not empty. */
  function Intersected(a: Rect, b: Rect): Rect {
    if a.Null? || b.Null? then Null
    else if a.left > b.right || b.left > a.right || a.top > b.bottom || b.top > a.bottom then Null
    else Rect(Max(a.left, b.left), Max(a.top, b.top), Min(a.right, b.right), Min(a.bottom, b.bottom))
  }

  /** What a strut leaves of the display. */
  function Shrunk(all: Rect, s: Strut): Rect
    requires all.Rect?
  {
    Rect(all.left + Max(s.left, 0), all.top + Max(s.top, 0),
         all.right - Max(s.right, 0), all.bottom - Max(s.bottom, 0))
  }

  predicate HasStrut(s: Strut) {
    s.left != 0 || s.top != 0 || s.right != 0 || s.bottom != 0
  }

  // ---------------------------------------------------------------- the server

  /** The properties of the windows; one that is not set reads as 0. */
  datatype Server = Server(display: Rect, struts: map<Window, Strut>, desktops: map<Window, int>)

  function StrutOf(sv: Server, w: Window): Strut {
    if w in sv.struts then sv.struts[w] else NO_STRUT
  }

  function DesktopOf(sv: Server, w: Window): int {
    if w in sv.desktops then sv.desktops[w] else 0
  }

  /** Every strut leaves some room. */
  predicate ServerOk(sv: Server) {
    !IsEmpty(sv.display) && forall w :: w in sv.struts ==> !IsEmpty(Shrunk(sv.display, sv.struts[w]))
  }

  predicate Shows(windowDesktop: int, desktop: int) {
    windowDesktop == desktop || windowDesktop == ON_ALL_DESKTOPS
  }

  /** The work area without a cache: every window's strut is read from the server. */
  function TrueArea(sv: Server, ws: seq<Window>, exclude: seq<Window>, desktop: int, a: Rect): Rect
    requires sv.display.Rect?
  {
    if ws == [] then a
    else
      var a1 := if ws[0] !in exclude && Shows(DesktopOf(sv, ws[0]), desktop)
                then Intersected(a, Shrunk(sv.display, StrutOf(sv, ws[0]))) else a;
      TrueArea(sv, ws[1..], exclude, desktop, a1)
  }

  // ---------------------------------------------------------------- the cache

  datatype StrutData = StrutData(window: Window, strut: Strut, desktop: int)

  datatype Signal = WindowAdded(w: Window) | WindowRemoved(w: Window) | StrutChanged

  datatype Cache = Cache(
    windows: seq<Window>,
    cached: seq<StrutData>,     // strutWindows
    possible: seq<Window>,      // possibleStrutWindows
    connected: bool,            // strutSignalConnected
    signals: seq<Signal>)

  predicate IsCached(cached: seq<StrutData>, w: Window) {
    exists i :: 0 <= i < |cached| && cached[i].window == w
  }

  /** The first entry of a window. */
  function Find(cached: seq<StrutData>, w: Window): (i: nat)
    requires IsCached(cached, w)
    ensures i < |cached| && cached[i].window == w
    ensures forall j :: 0 <= j < i ==> cached[j].window != w
  {
    if cached[0].window == w then 0
    else
      assert IsCached(cached[1..], w) by {
        var i :| 0 <= i < |cached| && cached[i].window == w;
        assert cached[1..][i - 1].window == w;
      }
      var i := Find(cached[1..], w);
      assert forall j :: 0 < j < i + 1 ==> cached[j] == cached[1..][j - 1];
      i + 1
  }

  /** removeStrutWindow. */
  function Uncached(cached: seq<StrutData>, w: Window): seq<StrutData> {
    if IsCached(cached, w) then cached[..Find(cached, w)] + cached[Find(cached, w) + 1..] else cached
  }

  /** QList::removeAll. */
  function Dropped(ws: seq<Window>, w: Window): seq<Window> {
    if ws == [] then [] else (if ws[0] == w then [] else [ws[0]]) + Dropped(ws[1..], w)
  }

  /** addClient; the strut and the desktop are read if strutChanged is connected. */
  function Added(c: Cache, w: Window, strut: Strut, desktop: int): Cache {
    var c1 := if !c.connected then c.(possible := c.possible + [w])
              else if HasStrut(strut) then c.(cached := c.cached + [StrutData(w, strut, desktop)])
              else c;
    c1.(windows := c.windows + [w],
        signals := c.signals + [WindowAdded(w)]
                   + if c.connected && HasStrut(strut) then [StrutChanged] else [])
  }

  /** removeClient. */
  function Removed(c: Cache, w: Window, strut: Strut): Cache {
    var changed := IsCached(c.cached, w) || (c.connected && w in c.possible && HasStrut(strut));
    c.(cached := Uncached(c.cached, w), possible := Dropped(c.possible, w),
       windows := Dropped(c.windows, w),
       signals := c.signals + [WindowRemoved(w)] + if changed then [StrutChanged] else [])
  }

  /** The strut part of nativeEventFilter. */
  function Invalidated(c: Cache, w: Window): Cache {
    if w !in c.windows then c
    else
      c.(cached := Uncached(c.cached, w),
         possible := if w in c.possible then c.possible else c.possible + [w],
         signals := c.signals + [StrutChanged])
  }

  /** One window in the loop of workArea: the cache afterwards and what it contributes. */
  function Visited(c: Cache, sv: Server, w: Window): (Cache, Strut, int) {
    if IsCached(c.cached, w) then
      var e := c.cached[Find(c.cached, w)];
      (c, e.strut, e.desktop)
    else if w in c.possible then
      (c.(possible := Dropped(c.possible, w),
          cached := c.cached + [StrutData(w, StrutOf(sv, w), DesktopOf(sv, w))]),
       StrutOf(sv, w), DesktopOf(sv, w))
    else (c, NO_STRUT, ON_ALL_DESKTOPS)
  }

  predicate Skipped(c: Cache, w: Window) {
    !IsCached(c.cached, w) && w !in c.possible
  }

  /** The loop of workArea over the windows ws. */
  function Walked(c: Cache, sv: Server, ws: seq<Window>, exclude: seq<Window>, desktop: int, a: Rect)
    : (Cache, Rect)
    requires sv.display.Rect?
    decreases |ws|
  {
    if ws == [] then (c, a)
    else if ws[0] in exclude || Skipped(c, ws[0]) then Walked(c, sv, ws[1..], exclude, desktop, a)
    else
      var (c1, strut, d) := Visited(c, sv, ws[0]);
      var a1 := if Shows(d, desktop) then Intersected(a, Shrunk(sv.display, strut)) else a;
      Walked(c1, sv, ws[1..], exclude, desktop, a1)
  }

  /** workArea(exclude, desktop). */
  function WorkAreaCall(c: Cache, sv: Server, exclude: seq<Window>, desktop: int): (Cache, Rect)
    requires sv.display.Rect?
  {
    Walked(c, sv, c.windows, exclude, desktop, sv.display)
  }

  // ---------------------------------------------------------------- the object

  lemma UncachedStep(cached: seq<StrutData>, w: Window, i: nat)
    requires i < |cached| && cached[i].window == w
    requires forall j :: 0 <= j < i ==> cached[j].window != w
    ensures IsCached(cached, w) && Find(cached, w) == i
  {
  }

  lemma NotCached(cached: seq<StrutData>, w: Window)
    requires forall j :: 0 <= j < |cached| ==> cached[j].window != w
    ensures !IsCached(cached, w)
  {
  }

  lemma WalkedNone(c: Cache, sv: Server, exclude: seq<Window>, desktop: int, a: Rect)
    requires sv.display.Rect?
    ensures Walked(c, sv, [], exclude, desktop, a) == (c, a)
  {
  }

  /** One turn of the loop of workArea. */
  lemma WalkedOne(c: Cache, sv: Server, ws: seq<Window>, exclude: seq<Window>, desktop: int, a: Rect)
    requires sv.display.Rect? && ws != []
    ensures Walked(c, sv, ws, exclude, desktop, a)
            == if ws[0] in exclude || Skipped(c, ws[0]) then Walked(c, sv, ws[1..], exclude, desktop, a)
               else
                 var (c1, strut, d) := Visited(c, sv, ws[0]);
                 Walked(c1, sv, ws[1..], exclude, desktop,
                        if Shows(d, desktop) then Intersected(a, Shrunk(sv.display, strut)) else a)
  {
  }

  class NETEventFilter {
    var windows: seq<Window>
    var strutWindows: seq<StrutData>
    var possibleStrutWindows: seq<Window>
    var strutSignalConnected: bool
    ghost var signals: seq<Signal>

    ghost function Abs(): Cache
      reads this
    {
      Cache(windows, strutWindows, possibleStrutWindows, strutSignalConnected, signals)
    }

    constructor ()
      ensures Abs() == Cache([], [], [], false, [])
    {
      windows, strutWindows, possibleStrutWindows := [], [], [];
      strutSignalConnected := false;
      signals := [];
    }

    method RemoveStrutWindow(w: Window) returns (found: bool)
      modifies this`strutWindows
      ensures found == IsCached(old(strutWindows), w)
      ensures strutWindows == Uncached(old(strutWindows), w)
    {
      var i := 0;
      while i < |strutWindows|
        invariant 0 <= i <= |strutWindows| && strutWindows == old(strutWindows)
        invariant forall j :: 0 <= j < i ==> strutWindows[j].window != w
      {
        if strutWindows[i].window == w {
          UncachedStep(strutWindows, w, i);
          strutWindows := strutWindows[..i] + strutWindows[i + 1..];
          return true;
        }
        i := i + 1;
      }
      return false;
    }

    method AddClient(w: Window, strut: Strut, desktop: int)
      modifies this
      ensures Abs() == Added(old(Abs()), w, strut, desktop)
    {
      var emitStrutChanged := false;
      if strutSignalConnected {
        if strut.left != 0 || strut.top != 0 || strut.right != 0 || strut.bottom != 0 {
          strutWindows := strutWindows + [StrutData(w, strut, desktop)];
          emitStrutChanged := true;
        }
      } else {
        possibleStrutWindows := possibleStrutWindows + [w];
      }
      windows := windows + [w];
      signals := signals + [WindowAdded(w)];
      if emitStrutChanged {
        signals := signals + [StrutChanged];
      }
    }

    method RemoveClient(w: Window, strut: Strut)
      modifies this
      ensures Abs() == Removed(old(Abs()), w, strut)
    {
      var emitStrutChanged := RemoveStrutWindow(w);
      if strutSignalConnected && w in possibleStrutWindows {
        if strut.left != 0 || strut.top != 0 || strut.right != 0 || strut.bottom != 0 {
          emitStrutChanged := true;
        }
      }
      possibleStrutWindows := Dropped(possibleStrutWindows, w);
      windows := Dropped(windows, w);
      signals := signals + [WindowRemoved(w)];
      if emitStrutChanged {
        signals := signals + [StrutChanged];
      }
    }

    /** A PropertyNotify that makes the strut of a window dirty. */
    method StrutEvent(w: Window)
      modifies this
      ensures Abs() == Invalidated(old(Abs()), w)
    {
      if w in windows {
        var _ := RemoveStrutWindow(w);
        if w !in possibleStrutWindows {
          possibleStrutWindows := possibleStrutWindows + [w];
        }
        signals := signals + [StrutChanged];
      }
    }

    method ConnectNotify(signalIsStrutChanged: bool)
      modifies this`strutSignalConnected
      ensures Abs() == if signalIsStrutChanged then old(Abs()).(connected := true) else old(Abs())
    {
      if !strutSignalConnected && signalIsStrutChanged {
        strutSignalConnected := true;
      }
    }

    /** desktop -1 stands for the current one. */
    method WorkArea(sv: Server, exclude: seq<Window>, desktop_P: int, currentDesktop: int) returns (a: Rect)
      requires sv.display.Rect?
      modifies this`strutWindows, this`possibleStrutWindows
      ensures (Abs(), a) == WorkAreaCall(old(Abs()), sv, exclude,
                                         if desktop_P == -1 then currentDesktop else desktop_P)
    {
      hide Walked, Intersected, Find, Dropped, IsCached;
      var all := sv.display;
      a := all;
      var desktop := desktop_P;
      if desktop == -1 {
        desktop := currentDesktop;
      }
      var it1 := 0;
      while it1 < |windows|
        invariant 0 <= it1 <= |windows|
        invariant Walked(Abs(), sv, windows[it1..], exclude, desktop, a)
                  == WorkAreaCall(old(Abs()), sv, exclude, desktop)
      {
        var w := windows[it1];
        assert windows[it1..][1..] == windows[it1 + 1..];
        WalkedOne(Abs(), sv, windows[it1..], exclude, desktop, a);
        it1 := it1 + 1;
        if w in exclude {
          continue;
        }
        var it2 := 0;
        while it2 < |strutWindows|
          invariant 0 <= it2 <= |strutWindows|
          invariant forall j :: 0 <= j < it2 ==> strutWindows[j].window != w
        {
          if strutWindows[it2].window == w {
            break;
          }
          it2 := it2 + 1;
        }
        if it2 == |strutWindows| {
          NotCached(strutWindows, w);
        }
        var strut: Strut;
        if it2 != |strutWindows| {
          UncachedStep(strutWindows, w, it2);
          if !(strutWindows[it2].desktop == desktop || strutWindows[it2].desktop == ON_ALL_DESKTOPS) {
            continue;
          }
          strut := strutWindows[it2].strut;
        } else if w in possibleStrutWindows {
          strut := StrutOf(sv, w);
          possibleStrutWindows := Dropped(possibleStrutWindows, w);
          strutWindows := strutWindows + [StrutData(w, strut, DesktopOf(sv, w))];
          if !(DesktopOf(sv, w) == desktop || DesktopOf(sv, w) == ON_ALL_DESKTOPS) {
            continue;
          }
        } else {
          continue; // no strut is known
        }
        var r := all;
        if strut.left > 0 {
          r := r.(left := r.left + strut.left);
        }
        if strut.top > 0 {
          r := r.(top := r.top + strut.top);
        }
        if strut.right > 0 {
          r := r.(right := r.right - strut.right);
        }
        if strut.bottom > 0 {
          r := r.(bottom := r.bottom - strut.bottom);
        }
        a := Intersected(a, r);
      }
      assert windows[it1..] == [];
      WalkedNone(Abs(), sv, exclude, desktop, a);
    }
  }
}
