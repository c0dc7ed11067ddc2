/** What every operation does to the entry of one id and what it tells the listeners about it,
    and what a listener who believes the signals knows after any run. */
module StartupSteps {
  import opened Text
  import opened StartupData
  import opened StartupText
  import opened IdOrder
  import opened StartupRegistry
  import opened RegistryRuns
  import opened StartupWindows

  // ---------------------------------------------------------------- the signals about an id

  /** The signals about one id, in order. */
  function About(log: seq<Signal>, id: Id): seq<Signal> {
    if log == [] then [] else (if log[0].id == id then [log[0]] else []) + About(log[1..], id)
  }

  lemma {:induction false} AboutConcat(a: seq<Signal>, b: seq<Signal>, id: Id)
    ensures About(a + b, id) == About(a, id) + About(b, id)
  {
    if a == [] {
      assert a + b == b;
    } else {
      var c := a + b;
      assert c[0] == a[0] && c[1..] == a[1..] + b;
      AboutConcat(a[1..], b, id);
      AboutFirst(a, id);
      AboutFirst(c, id);
      Regroup(if a[0].id == id then [a[0]] else [], About(a[1..], id), About(b, id));
      hide About;
    }
  }

  lemma Regroup(a: seq<Signal>, b: seq<Signal>, c: seq<Signal>)
    ensures a + (b + c) == (a + b) + c
  {
  }

  lemma AboutFirst(log: seq<Signal>, id: Id)
    requires log != []
    ensures About(log, id) == (if log[0].id == id then [log[0]] else []) + About(log[1..], id)
  {
  }

  lemma AboutOne(s: Signal, id: Id)
    ensures About([s], id) == if s.id == id then [s] else []
  {
    assert [s][1..] == [];
  }

  /** The place of an entry after an operation, and what listeners hear about it. */
  datatype Effect = Effect(place: Place, told: seq<Signal>)

  predicate Has(st: State, st1: State, id: Id, e: Effect) {
    Lookup(st1, id) == e.place && About(st1.log, id) == About(st.log, id) + e.told
  }

  /** Nothing happens to an id. */
  function Stays(p: Place): Effect {
    Effect(p, [])
  }

  /** An entry goes, with the record it then has; only an announced one is missed. */
  function Leaves(p: Place, id: Id, d: Data): Effect {
    Effect(Absent, if p.Announced? then [RemoveStartup(id, d)] else [])
  }

  lemma StaysFact(st: State, id: Id)
    ensures Has(st, st, id, Stays(Lookup(st, id)))
  {
  }

  lemma LogStays(st: State, st1: State, id: Id)
    requires st1.log == st.log
    ensures Has(st, st1, id, Stays(Lookup(st1, id)))
  {
  }

  lemma LogGains(st: State, st1: State, s: Signal, id: Id)
    requires st1.log == st.log + [s]
    ensures Has(st, st1, id, Effect(Lookup(st1, id), if s.id == id then [s] else []))
  {
    AboutConcat(st.log, [s], id);
    AboutOne(s, id);
  }

  // ---------------------------------------------------------------- new: and change:

  /** A record read for the id: what was stored is merged with it. A startup that listeners know
      of is reported as changed, or withdrawn when it has become silent and silence is not
      announced; a silent one is reported as changed as long as it is silent, and announced
      afterwards; one without a `new:` waits for it. Only the last keeps its age. */
  function RecordEffect(fl: Flags, p: Place, id: Id, d: Data, first: bool): Effect {
    match p
    case Absent =>
      if !first then Effect(Uninited(Startup(d, 0)), [])
      else if d.silent == Yes && !fl.announceSilenceChanges then Effect(Quiet(Startup(d, 0)), [])
      else Effect(Announced(Startup(d, 0)), [NewStartup(id, d)])
    case Announced(e) =>
      var m := Updated(e.data, d);
      if m.silent == Yes && !fl.announceSilenceChanges then Effect(Quiet(Startup(m, 0)), [RemoveStartup(id, m)])
      else Effect(Announced(Startup(m, 0)), [StartupChange(id, m)])
    case Quiet(e) =>
      var m := Updated(e.data, d);
      if m.silent == Yes then Effect(Quiet(Startup(m, 0)), [StartupChange(id, m)])
      else Effect(Announced(Startup(m, 0)), [NewStartup(id, m)])
    case Uninited(e) =>
      var m := Updated(e.data, d);
      if first then Effect(Announced(Startup(m, e.age)), [NewStartup(id, m)])
      else Effect(Uninited(Startup(m, e.age)), [])
  }

  /** The effect of a record read for the id i on the id id. */
  function InfoEffect(fl: Flags, st: State, i: Id, d: Data, first: bool, id: Id): Effect {
    if i == id && id != "" && id != "0" then RecordEffect(fl, Lookup(st, id), id, d, first) else Stays(Lookup(st, id))
  }

  lemma AnnouncedInfo(fl: Flags, st: State, i: Id, d: Data, first: bool, id: Id)
    requires InOneMap(st, i) && i in st.startups && !IsNull(i)
    ensures Has(st, OntoAnnounced(fl, st, i, d), id, InfoEffect(fl, st, i, d, first, id))
  {
    var st1 := OntoAnnounced(fl, st, i, d);
    var m := Updated(st.startups[i].data, d);
    hide Updated, Has;
    LogGains(st, st1, if i in st1.startups then StartupChange(i, m) else RemoveStartup(i, m), id);
    hide About;
  }

  lemma SilentInfo(fl: Flags, st: State, i: Id, d: Data, first: bool, id: Id)
    requires InOneMap(st, i) && i in st.silent && !IsNull(i)
    ensures Has(st, OntoSilent(st, i, d), id, InfoEffect(fl, st, i, d, first, id))
  {
    var st1 := OntoSilent(st, i, d);
    var m := Updated(st.silent[i].data, d);
    hide Updated, Has;
    LogGains(st, st1, if i in st1.startups then NewStartup(i, m) else StartupChange(i, m), id);
    hide About;
  }

  lemma UninitedInfo(fl: Flags, st: State, i: Id, d: Data, first: bool, id: Id)
    requires InOneMap(st, i) && i in st.uninited && !IsNull(i)
    ensures Has(st, OntoUninited(st, i, d, !first), id, InfoEffect(fl, st, i, d, first, id))
  {
    var st1 := OntoUninited(st, i, d, !first);
    var m := Updated(st.uninited[i].data, d);
    hide Updated, Has;
    if first {
      LogGains(st, st1, NewStartup(i, m), id);
    } else {
      LogStays(st, st1, id);
    }
    hide About;
  }

  lemma FirstInfo(fl: Flags, st: State, i: Id, d: Data, first: bool, id: Id)
    requires Lookup(st, i) == Absent && !IsNull(i)
    ensures Has(st, Stored(fl, st, i, d, !first), id, InfoEffect(fl, st, i, d, first, id))
  {
    var st1 := Stored(fl, st, i, d, !first);
    hide Has;
    if i in st1.startups {
      LogGains(st, st1, NewStartup(i, d), id);
    } else {
      LogStays(st, st1, id);
    }
    hide About;
  }

  lemma InfoExactly(fl: Flags, st: State, i: Id, d: Data, first: bool, id: Id)
    requires Good(fl, st)
    ensures Has(st, WithInfo(fl, st, i, d, !first), id, InfoEffect(fl, st, i, d, first, id))
  {
    GoodIsInOneMap(fl, st, i);
    hide Good, IsNull, Has, OntoAnnounced, OntoSilent, OntoUninited, Stored, InfoEffect, InOneMap;
    if IsNull(i) {
      NullInfo(fl, st, i, d, first, id);
    } else if i in st.startups {
      AnnouncedInfo(fl, st, i, d, first, id);
    } else if i in st.silent {
      SilentInfo(fl, st, i, d, first, id);
    } else if i in st.uninited {
      UninitedInfo(fl, st, i, d, first, id);
    } else {
      FirstInfo(fl, st, i, d, first, id);
    }
  }

  lemma NullInfo(fl: Flags, st: State, i: Id, d: Data, first: bool, id: Id)
    requires IsNull(i)
    ensures Has(st, st, id, InfoEffect(fl, st, i, d, first, id))
  {
    StaysFact(st, id);
    hide Has;
  }

  // ---------------------------------------------------------------- remove:

  /** A `remove:` without PIDs takes the entry away; one with PIDs takes them from the entry it
      names, or without an id from the first announced one with the hostname and the first PID,
      and takes that away when it has none left. */
  function RemovalEffect(st: State, i: Id, d: Data, id: Id): Effect {
    var p := Lookup(st, id);
    if p == Absent then Stays(p)
    else if d.pids == [] then if i == id then Leaves(p, id, p.entry.data) else Stays(p)
    else if (if i == "" || i == "0" then FirstOnHost(st, d, id) else i == id) then
      var left := Remaining(p.entry.data.pids, d.pids);
      if left == [] then Leaves(p, id, p.entry.data.(pids := [])) else Stays(WithPidsAt(p, left))
    else Stays(p)
  }

  lemma WithoutExactly(st: State, i: Id, id: Id)
    requires InOneMap(st, i)
    ensures Has(st, Without(st, i), id,
                if i == id && Lookup(st, id) != Absent then Leaves(Lookup(st, id), id, Lookup(st, id).entry.data)
                else Stays(Lookup(st, id)))
  {
    var st1 := Without(st, i);
    WithoutOnly(st, i, id);
    hide Has;
    if i in st.startups {
      LogGains(st, st1, RemoveStartup(i, st.startups[i].data), id);
    } else {
      LogStays(st, st1, id);
    }
    hide About;
  }

  /** PIDs taken from the entry of i, and the entry taken away if it has none left. */
  function PidEffect(st: State, i: Id, gone: seq<int>, id: Id): Effect {
    var p := Lookup(st, id);
    if p == Absent || i != id then Stays(p)
    else
      var left := Remaining(p.entry.data.pids, gone);
      if left == [] then Leaves(p, id, p.entry.data.(pids := [])) else Stays(WithPidsAt(p, left))
  }

  lemma PidsExactly(fl: Flags, st: State, i: Id, gone: seq<int>, id: Id)
    requires Good(fl, st)
    ensures Has(st, WithoutPids(st, i, gone), id, PidEffect(st, i, gone, id))
  {
    hide Remaining, Good, InOneMap, WithDroppedPids, Without;
    GoodIsInOneMap(fl, st, i);
    DropsOnly(st, i, gone, id);
    DropsOnly(st, i, gone, i);
    DroppedPidsQuiet(st, i, gone);
    var st1 := WithDroppedPids(st, i, gone);
    WithoutExactly(st1, i, id);
    LogStays(st, st1, id);
    assert Find(st1, i).Some? <==> Lookup(st1, i) != Absent;
    assert Find(st1, i).Some? ==> Find(st1, i).value == Lookup(st1, i).entry;
    hide About;
  }

  lemma RemovalExactly(fl: Flags, st: State, i: Id, d: Data, id: Id)
    requires Good(fl, st)
    ensures Has(st, WithoutInfo(st, i, d), id, RemovalEffect(st, i, d, id))
  {
    hide Good, Has, Lookup, Remaining, WithoutPids, Without, InOneMap, FirstOnHost, PidMatches;
    GoodIsInOneMap(fl, st, i);
    StaysFact(st, id);
    if d.pids == [] {
      WithoutExactly(st, i, id);
    } else if !IsNull(i) {
      PidsExactly(fl, st, i, d.pids, id);
    } else {
      FirstMatch(st.startups, d.pids[0], d.hostname, id);
      FirstIs(st, d, id);
      if PidMatches(st.startups, d.pids[0], d.hostname) != {} {
        PidsExactly(fl, st, Least(PidMatches(st.startups, d.pids[0], d.hostname)), d.pids, id);
      }
    }
  }

  /** The first announced entry on a host is where the walk in key order stops. */
  lemma FirstIs(st: State, d: Data, id: Id)
    requires d.pids != []
    ensures var hits := PidMatches(st.startups, d.pids[0], d.hostname);
            FirstOnHost(st, d, id) <==> hits != {} && id == Least(hits)
  {
    FirstMatch(st.startups, d.pids[0], d.hostname, id);
    var hits := PidMatches(st.startups, d.pids[0], d.hostname);
    hide PidMatches, HasPidOn, Less;
    if hits != {} && IsLeast(id, hits) {
      LeastIsUnique(id, Least(hits), hits);
    }
  }

  // ---------------------------------------------------------------- ticks and windows

  /** A tick or a clean-up: an entry goes when its age has reached the time-out, twenty times that
      for a silent one; KSTARTUPINFO_TIMEOUT overrides both. */
  function CleanUpEffect(st: State, older: bool, env: Option<UInt>, id: Id): Effect {
    var p := Lookup(st, id);
    if p == Absent then Stays(p)
    else
      var age := if older then (p.entry.age + 1) % UINT else p.entry.age;
      var limit := if env.Some? then env.value
                   else if p.entry.data.silent == Yes then (20 * st.timeout) % UINT else st.timeout;
      if age >= limit then Leaves(p, id, p.entry.data)
      else
        var e := Startup(p.entry.data, age);
        Stays(match p case Announced(_) => Announced(e) case Quiet(_) => Quiet(e) case _ => Uninited(e))
  }

  lemma {:induction false} RemovalsAbout(t: Table, ids: seq<Id>, id: Id)
    requires forall i :: i in ids ==> i in t
    requires forall i, j :: 0 <= i < j < |ids| ==> ids[i] != ids[j]
    ensures About(Removals(t, ids), id) == if id in ids then [RemoveStartup(id, t[id].data)] else []
  {
    if ids != [] {
      RemovalsAbout(t, ids[1..], id);
      assert Removals(t, ids)[1..] == Removals(t, ids[1..]);
      if ids[0] == id {
        assert id !in ids[1..];
      }
    }
  }

  lemma FarewellsAbout(t: Table, ids: set<Id>, id: Id)
    requires ids <= t.Keys
    ensures About(Farewells(t, ids), id) == if id in ids then [RemoveStartup(id, t[id].data)] else []
  {
    var s := Sorted(ids);
    forall i, j | 0 <= i < j < |s| ensures s[i] != s[j] {
      LessTotal(s[i], s[i]);
    }
    RemovalsAbout(t, s, id);
  }

  lemma TableCleanUp(t: Table, older: bool, timeout: UInt, env: Option<UInt>, id: Id)
    ensures var a := if older then Aged(t) else t;
            var gone := Expired(a, timeout, env);
            && gone <= a.Keys && (id in a <==> id in t)
            && (id in t ==>
                  var age := if older then (t[id].age + 1) % UINT else t[id].age;
                  var limit := if env.Some? then env.value
                               else if t[id].data.silent == Yes then (20 * timeout) % UINT else timeout;
                  a[id] == Startup(t[id].data, age) && (id in gone <==> age >= limit))
  {
  }

  lemma CleanUpExactly(st: State, older: bool, env: Option<UInt>, id: Id)
    requires InOneMap(st, id)
    ensures Has(st, CleanedUp(st, older, env), id, CleanUpEffect(st, older, env, id))
  {
    var a := if older then Aged(st.startups) else st.startups;
    var gone := Expired(a, st.timeout, env);
    hide Farewells, Aged, Expired;
    TableCleanUp(st.startups, older, st.timeout, env, id);
    TableCleanUp(st.silent, older, st.timeout, env, id);
    TableCleanUp(st.uninited, older, st.timeout, env, id);
    AboutConcat(st.log, Farewells(a, gone), id);
    FarewellsAbout(a, gone, id);
    hide About;
  }

  /** A window that takes a startup ends it. */
  ghost function CheckEffect(st: State, w: WindowInfo, id: Id): Effect {
    var p := Lookup(st, id);
    if Takes(st.startups, w, id) then Leaves(p, id, st.startups[id].data) else Stays(p)
  }

  lemma CheckExactly(fl: Flags, st: State, w: WindowInfo, id: Id)
    requires Good(fl, st)
    ensures Has(st, AfterCheck(st, w), id, CheckEffect(st, w, id))
  {
    GoodIsInOneMap(fl, st, id);
    if i :| Takes(st.startups, w, i) {
      TakenExactly(st, w, i, id);
    } else {
      NoneTaken(st, w);
      StaysFact(st, id);
      hide Takes, AfterCheck, Has;
    }
  }

  lemma TakenExactly(st: State, w: WindowInfo, i: Id, id: Id)
    requires InOneMap(st, id) && Takes(st.startups, w, i)
    ensures Has(st, AfterCheck(st, w), id, CheckEffect(st, w, id))
  {
    hide AfterCheck, Takes, About;
    TakenIsThere(st.startups, w, i);
    CheckTakes(st, w, i);
    TakesOne(st.startups, w, i, id);
    LogGains(st, AfterCheck(st, w), RemoveStartup(i, st.startups[i].data), id);
  }

  lemma NoneTaken(st: State, w: WindowInfo)
    requires forall i :: !Takes(st.startups, w, i)
    ensures AfterCheck(st, w) == st
  {
    hide AfterCheck, Takes, Fits;
    if w.startupId.Some? {
      CheckById(st, w);
    } else {
      TakesOrNone(st.startups, w);
      CheckTakesNone(st, w);
    }
  }

  lemma TakesOne(t: Table, w: WindowInfo, a: Id, b: Id)
    requires Takes(t, w, a)
    ensures Takes(t, w, b) <==> a == b
  {
    LessTotal(a, b);
    hide Fits;
  }

  /** A window that cannot be told apart from what a startup waits for, while nothing fits it. */
  predicate Undetected(st: State, w: WindowInfo) {
    && w.startupId == None && st.startups != map[] && MayBeAwaited(w)
    && !exists id :: id in st.startups && Fits(st.startups, w, id)
  }

  /** A new window is checked; if it is undetected and CleanOnCantDetect is set, all startups
      with WMCLASS "0" go. */
  ghost function WindowEffect(fl: Flags, st: State, w: WindowInfo, id: Id): Effect {
    var p := Lookup(st, id);
    if Undetected(st, w) && fl.cleanOnCantDetect then
      if p.Announced? && p.entry.data.wmclass == "0" then Leaves(p, id, p.entry.data) else Stays(p)
    else CheckEffect(st, w, id)
  }

  lemma WindowExactly(fl: Flags, st: State, w: WindowInfo, id: Id)
    requires Good(fl, st)
    ensures Has(st, AfterWindow(fl, st, w), id, WindowEffect(fl, st, w, id))
  {
    GoodIsInOneMap(fl, st, id);
    MatchExactly(st, w);
    UndetectedIs(st, w);
    if Undetected(st, w) && fl.cleanOnCantDetect {
      forall i ensures !Takes(st.startups, w, i) {
        assert i in st.startups ==> !Fits(st.startups, w, i);
      }
      NoneTaken(st, w);
      CleanedExactly(st, id);
    } else {
      CheckExactly(fl, st, w, id);
    }
    hide Good, Takes, Fits, Verdict, AfterCheck, Has, CheckEffect, WithoutAll;
  }

  lemma UndetectedIs(st: State, w: WindowInfo)
    ensures Undetected(st, w) <==> Verdict(st, w) == CantDetect
  {
    hide Fits, Takes;
    if w.startupId.Some? {
      CheckById(st, w);
    } else if id :| id in st.startups && Fits(st.startups, w, id) {
      MatchExactly(st, w);
    } else {
      forall id ensures !Fits(st.startups, w, id) {
        FitsIsThere(st.startups, w, id);
      }
      CheckTakesNone(st, w);
    }
    hide Verdict;
  }

  lemma FitsIsThere(t: Table, w: WindowInfo, id: Id)
    ensures Fits(t, w, id) ==> id in t
  {
  }

  lemma CleanedExactly(st: State, id: Id)
    requires InOneMap(st, id)
    ensures var p := Lookup(st, id);
            Has(st, WithoutAll(st, NonCompliant(st.startups)), id,
                if p.Announced? && p.entry.data.wmclass == "0" then Leaves(p, id, p.entry.data) else Stays(p))
  {
    var gone := NonCompliant(st.startups);
    hide Farewells;
    AboutConcat(st.log, Farewells(st.startups, gone), id);
    FarewellsAbout(st.startups, gone, id);
    hide About;
  }

  // ---------------------------------------------------------------- every operation

  /** What an operation does to an id and tells about it, in terms of the entry it had, the text
      of the message, the window, and the time. */
  ghost function Expected(fl: Flags, st: State, op: Op, id: Id): Effect {
    match op
    case Message(text) =>
      (match ReadMessage(text)
       case NewInfo(i, d) => InfoEffect(fl, st, i, d, true, id)
       case ChangeInfo(i, d) => InfoEffect(fl, st, i, d, false, id)
       case RemoveInfo(i, d) => RemovalEffect(st, i, d, id)
       case NoInfo => Stays(Lookup(st, id)))
    case WindowAdded(w) => WindowEffect(fl, st, w, id)
    case CheckWindow(w) => CheckEffect(st, w, id)
    case Tick(env) => CleanUpEffect(st, true, env, id)
    case SetTimeout(_) => Stays(Lookup(st, id))
    case CleanupNoAge(env) =>
      if st.scheduled > 0 then CleanUpEffect(st, false, env, id) else Stays(Lookup(st, id))
  }

  lemma TickExactly(fl: Flags, st: State, env: Option<UInt>, id: Id)
    requires Good(fl, st)
    ensures Has(st, Ticked(st, env), id, CleanUpEffect(st, true, env, id))
  {
    GoodIsInOneMap(fl, st, id);
    hide CleanedUp, GoodTable, About;
    CleanUpExactly(st, true, env, id);
    if !st.ticking || (st.startups == map[] && st.silent == map[] && st.uninited == map[]) {
      assert Lookup(st, id) == Absent;
      LogStays(st, Ticked(st, env), id);
    }
  }

  lemma SameForIds(st: State, st1: State, scheduled: nat, id: Id, e: Effect)
    requires Has(st, st1, id, e)
    ensures Has(st, st1.(scheduled := scheduled), id, e)
  {
  }

  lemma ScheduledExactly(fl: Flags, st: State, env: Option<UInt>, id: Id)
    requires Good(fl, st)
    ensures Has(st, CleanedUpLater(st, env), id, Expected(fl, st, CleanupNoAge(env), id))
  {
    GoodIsInOneMap(fl, st, id);
    hide Good, CleanedUp, CleanUpEffect, Has;
    StaysFact(st, id);
    CleanUpExactly(st, false, env, id);
    if st.scheduled > 0 {
      SameForIds(st, CleanedUp(st, false, env), st.scheduled - 1, id, CleanUpEffect(st, false, env, id));
    }
  }

  /** Every operation, from every state that can be reached, has exactly this effect on every id:
      on where it is stored, with which record and age, and on what listeners are told of it. */
  lemma StepExactly(fl: Flags, st: State, op: Op, id: Id)
    requires Good(fl, st)
    ensures Has(st, After(fl, st, op), id, Expected(fl, st, op, id))
  {
    hide Good, Has, ReadMessage, WithInfo, WithoutInfo, AfterWindow, AfterCheck, Ticked, CleanedUpLater;
    hide InfoEffect, RemovalEffect, WindowEffect, CheckEffect, CleanUpEffect;
    match op
    case Message(text) =>
      match ReadMessage(text) {
        case NewInfo(i, d) => InfoExactly(fl, st, i, d, true, id);
        case ChangeInfo(i, d) => InfoExactly(fl, st, i, d, false, id);
        case RemoveInfo(i, d) => RemovalExactly(fl, st, i, d, id);
        case NoInfo => StaysFact(st, id);
      }
    case WindowAdded(w) => WindowExactly(fl, st, w, id);
    case CheckWindow(w) => CheckExactly(fl, st, w, id);
    case Tick(env) => TickExactly(fl, st, env, id);
    case SetTimeout(secs) => TimeoutExactly(st, secs, id);
    case CleanupNoAge(env) => ScheduledExactly(fl, st, env, id);
  }

  lemma TimeoutExactly(st: State, secs: UInt, id: Id)
    ensures Has(st, WithTimeout(st, secs), id, Stays(Lookup(st, id)))
  {
    LogStays(st, WithTimeout(st, secs), id);
    hide About;
  }

  // ---------------------------------------------------------------- the timers

  /** Only a `new:` or `change:` message adds an entry. */
  lemma NothingIsAdded(fl: Flags, st: State, op: Op, id: Id)
    requires Good(fl, st) && !op.Message? && Lookup(st, id) == Absent
    ensures Lookup(After(fl, st, op), id) == Absent
  {
    UnknownIsNotTaken(st, id);
    StepExactly(fl, st, op, id);
    hide After, Good, About, Takes, Undetected;
  }

  lemma UnknownIsNotTaken(st: State, id: Id)
    requires Lookup(st, id) == Absent
    ensures forall w :: !Takes(st.startups, w, id)
  {
    forall w ensures !Takes(st.startups, w, id) {
      if Takes(st.startups, w, id) {
        TakenIsThere(st.startups, w, id);
      }
    }
    hide Takes;
  }

  lemma NothingIsAddedBy(fl: Flags, st: State, text: string, id: Id)
    requires Good(fl, st) && Lookup(st, id) == Absent
    requires ReadMessage(text).RemoveInfo? || ReadMessage(text).NoInfo?
    ensures Lookup(After(fl, st, Message(text)), id) == Absent
  {
    StepExactly(fl, st, Message(text), id);
    hide After, Good, About, ReadMessage;
  }

  /** Whether the one-second timer runs after a `new:` or `change:` message. */
  lemma InfoTicks(fl: Flags, st: State, i: Id, d: Data, first: bool)
    requires Good(fl, st)
    ensures var st1 := WithInfo(fl, st, i, d, !first);
            st1.ticking <==> st.ticking || exists id :: Lookup(st, id) == Absent && Lookup(st1, id) != Absent
  {
    var st1 := WithInfo(fl, st, i, d, !first);
    InfoStarts(fl, st, i, d, first);
    InfoAdds(fl, st, i, d, first, i);
    forall id ensures Lookup(st, id) == Absent && Lookup(st1, id) != Absent ==> id == i && !IsNull(i) {
      InfoAdds(fl, st, i, d, first, id);
      hide *;
    }
    hide *;
  }

  lemma InfoStarts(fl: Flags, st: State, i: Id, d: Data, first: bool)
    ensures WithInfo(fl, st, i, d, !first).ticking == (st.ticking || (Lookup(st, i) == Absent && !IsNull(i)))
  {
    hide Updated;
  }

  lemma InfoAdds(fl: Flags, st: State, i: Id, d: Data, first: bool, id: Id)
    requires Good(fl, st)
    ensures Lookup(st, id) == Absent ==>
              (Lookup(WithInfo(fl, st, i, d, !first), id) != Absent <==> id == i && !IsNull(i))
  {
    InfoExactly(fl, st, i, d, first, id);
    hide Good, WithInfo, About, Lookup;
  }

  predicate SameTimers(st: State, st1: State) {
    st1.ticking == st.ticking && st1.timeout == st.timeout && st1.scheduled == st.scheduled
  }

  lemma PidsKeepTimers(st: State, i: Id, gone: seq<int>)
    ensures SameTimers(st, WithoutPids(st, i, gone))
  {
    hide DropPids;
  }

  lemma RemovalKeepsTimers(fl: Flags, st: State, i: Id, d: Data)
    ensures SameTimers(st, WithoutInfo(st, i, d))
  {
    hide Least, PidMatches, WithoutPids;
    if d.pids != [] {
      PidsKeepTimers(st, i, d.pids);
      if PidMatches(st.startups, d.pids[0], d.hostname) != {} {
        PidsKeepTimers(st, Least(PidMatches(st.startups, d.pids[0], d.hostname)), d.pids);
      }
    }
  }

  lemma WindowKeepsTimers(fl: Flags, st: State, w: WindowInfo)
    ensures SameTimers(st, AfterCheck(st, w)) && SameTimers(st, AfterWindow(fl, st, w))
  {
    hide Least, Verdict, Matches, NonCompliant, Farewells;
  }

  lemma CleanUpKeepsTimers(st: State, older: bool, env: Option<UInt>)
    ensures SameTimers(st, CleanedUp(st, older, env))
  {
    hide Farewells, Expired, Aged;
  }

  /** The timers: the period is what setTimeout set last, each setTimeout puts one clean-up into
      the event loop and each clean-up takes one out, and the one-second timer runs from the first
      new entry until it finds nothing to watch. */
  lemma TimersExactly(fl: Flags, st: State, op: Op)
    requires Good(fl, st)
    ensures var st1 := After(fl, st, op);
            && st1.timeout == (if op.SetTimeout? then op.secs else st.timeout)
            && st1.scheduled == (if op.SetTimeout? then st.scheduled + 1
                                 else if op.CleanupNoAge? && st.scheduled > 0 then st.scheduled - 1
                                 else st.scheduled)
            && (st1.ticking <==>
                  if op.Tick? then st.ticking && exists id :: Lookup(st, id) != Absent
                  else st.ticking || exists id :: Lookup(st, id) == Absent && Lookup(st1, id) != Absent)
  {
    hide Good, Lookup, ReadMessage, WithInfo, WithoutInfo, AfterCheck, AfterWindow, CleanedUp;
    match op
    case Message(text) =>
      match ReadMessage(text) {
        case NewInfo(i, d) => InfoTicks(fl, st, i, d, true); InfoKeepsTimers(fl, st, i, d, false);
        case ChangeInfo(i, d) => InfoTicks(fl, st, i, d, false); InfoKeepsTimers(fl, st, i, d, true);
        case RemoveInfo(i, d) => RemovalKeepsTimers(fl, st, i, d); NothingNew(fl, st, op);
        case NoInfo =>
      }
    case WindowAdded(w) => WindowKeepsTimers(fl, st, w); NothingNew(fl, st, op);
    case CheckWindow(w) => WindowKeepsTimers(fl, st, w); NothingNew(fl, st, op);
    case Tick(env) => SomethingIsWatched(st); CleanUpKeepsTimers(st, true, env);
    case SetTimeout(_) => NothingNew(fl, st, op);
    case CleanupNoAge(env) => CleanUpKeepsTimers(st, false, env); NothingNew(fl, st, op);
  }

  lemma SomethingIsWatched(st: State)
    ensures (exists id :: Lookup(st, id) != Absent)
            <==> !(st.startups == map[] && st.silent == map[] && st.uninited == map[])
  {
    if st.startups != map[] {
      var id :| id in st.startups;
      assert Lookup(st, id) != Absent;
    } else if st.silent != map[] {
      var id :| id in st.silent;
      assert Lookup(st, id) != Absent;
    } else if st.uninited != map[] {
      var id :| id in st.uninited;
      assert Lookup(st, id) != Absent;
    }
  }

  lemma InfoKeepsTimers(fl: Flags, st: State, i: Id, d: Data, update: bool)
    ensures var st1 := WithInfo(fl, st, i, d, update);
            st1.timeout == st.timeout && st1.scheduled == st.scheduled
  {
  }

  lemma NothingNew(fl: Flags, st: State, op: Op)
    requires Good(fl, st)
    requires op.Message? ==> ReadMessage(op.text).RemoveInfo?
    ensures forall id :: Lookup(st, id) == Absent ==> Lookup(After(fl, st, op), id) == Absent
  {
    hide Good, Lookup, ReadMessage, After;
    forall id | Lookup(st, id) == Absent ensures Lookup(After(fl, st, op), id) == Absent {
      if op.Message? {
        NothingIsAddedBy(fl, st, op.text, id);
      } else {
        NothingIsAdded(fl, st, op, id);
      }
    }
  }

  // ---------------------------------------------------------------- every run

  /** What the operations of a run tell about an id. */
  ghost function ToldInRun(fl: Flags, st: State, ops: seq<Op>, id: Id): seq<Signal>
    decreases |ops|
  {
    if ops == [] then []
    else Expected(fl, st, ops[0], id).told + ToldInRun(fl, After(fl, st, ops[0]), ops[1..], id)
  }

  /** Over every run listeners are told this, and nothing else, about an id. */
  lemma {:induction false} RunTells(fl: Flags, st: State, ops: seq<Op>, id: Id)
    requires Good(fl, st)
    ensures About(Run(fl, st, ops).log, id) == About(st.log, id) + ToldInRun(fl, st, ops, id)
    decreases |ops|
  {
    hide Good, After, Expected, About;
    if ops != [] {
      AfterKeepsGood(fl, st, ops[0]);
      StepExactly(fl, st, ops[0], id);
      RunTells(fl, After(fl, st, ops[0]), ops[1..], id);
    }
  }

  // ---------------------------------------------------------------- what a listener knows

  /** A listener that keeps the record of the last New or Change signal until a Remove, and
      ignores changes of what it does not know. */
  function KnownFrom(heard: seq<Signal>): Option<Data> {
    if heard == [] then None
    else
      var before := KnownFrom(heard[..|heard| - 1]);
      match heard[|heard| - 1]
      case NewStartup(_, d) => Some(d)
      case StartupChange(_, d) => if before.Some? then Some(d) else None
      case RemoveStartup(_, _) => None
  }

  /** The listener knows exactly the announced startups, with their records, except that it is
      not told of PIDs that have gone. */
  predicate Mirrors(p: Place, k: Option<Data>) {
    (p.Announced? <==> k.Some?)
    && (p.Announced? ==>
          && k.value.(pids := p.entry.data.pids) == p.entry.data
          && forall x :: x in p.entry.data.pids ==> x in k.value.pids)
  }

  lemma KnownStep(heard: seq<Signal>, s: Signal)
    ensures KnownFrom(heard + []) == KnownFrom(heard)
    ensures KnownFrom(heard + [s])
            == match s
               case NewStartup(_, d) => Some(d)
               case StartupChange(_, d) => if KnownFrom(heard).Some? then Some(d) else None
               case RemoveStartup(_, _) => None
  {
    assert heard + [] == heard;
    assert (heard + [s])[..|heard|] == heard;
  }

  /** One signal at most, and it says what has happened. */
  predicate Honest(p: Place, e: Effect) {
    if e.told == [] then
      (p.Announced? <==> e.place.Announced?)
      && (p.Announced? ==>
            && p.entry.data.(pids := e.place.entry.data.pids) == e.place.entry.data
            && forall x :: x in e.place.entry.data.pids ==> x in p.entry.data.pids)
    else
      |e.told| == 1
      && match e.told[0]
         case NewStartup(_, d) => !p.Announced? && e.place.Announced? && e.place.entry.data == d
         case StartupChange(_, d) =>
           (p.Announced? <==> e.place.Announced?) && e.place != Absent && e.place.entry.data == d
         case RemoveStartup(_, _) => p.Announced? && !e.place.Announced?
  }

  lemma HonestMirrors(p: Place, heard: seq<Signal>, e: Effect)
    requires Mirrors(p, KnownFrom(heard)) && Honest(p, e)
    ensures Mirrors(e.place, KnownFrom(heard + e.told))
  {
    hide KnownFrom;
    if e.told == [] {
      assert heard + e.told == heard;
    } else {
      assert e.told == [e.told[0]];
      KnownStep(heard, e.told[0]);
    }
  }

  lemma RecordIsHonest(fl: Flags, p: Place, id: Id, d: Data, first: bool)
    ensures Honest(p, RecordEffect(fl, p, id, d, first))
  {
    hide Updated;
  }

  lemma StaysHonest(p: Place)
    ensures Honest(p, Stays(p))
  {
  }

  lemma LeavesHonest(p: Place, id: Id, d: Data)
    ensures Honest(p, Leaves(p, id, d))
  {
  }

  lemma PidsHonest(p: Place, gone: seq<int>)
    requires p != Absent && Distinct(p.entry.data.pids)
    ensures Honest(p, Stays(WithPidsAt(p, Remaining(p.entry.data.pids, gone))))
  {
    RemainingExact(p.entry.data.pids, gone);
    hide Remaining, Distinct;
  }

  lemma PlaceHasDistinctPids(fl: Flags, st: State, id: Id)
    requires Good(fl, st) && Lookup(st, id) != Absent
    ensures Distinct(Lookup(st, id).entry.data.pids)
  {
    hide Distinct, IsNull;
  }

  lemma RemovalIsHonest(fl: Flags, st: State, i: Id, d: Data, id: Id)
    requires Good(fl, st)
    ensures Honest(Lookup(st, id), RemovalEffect(st, i, d, id))
  {
    var p := Lookup(st, id);
    hide Good, Lookup, Remaining, FirstOnHost, Distinct, Leaves, Stays, Honest, WithPidsAt;
    StaysHonest(p);
    if p != Absent {
      PlaceHasDistinctPids(fl, st, id);
      PidsHonest(p, d.pids);
      LeavesHonest(p, id, p.entry.data);
      LeavesHonest(p, id, p.entry.data.(pids := []));
    }
  }

  lemma CleanUpIsHonest(st: State, older: bool, env: Option<UInt>, id: Id)
    ensures Honest(Lookup(st, id), CleanUpEffect(st, older, env, id))
  {
  }

  lemma WindowIsHonest(fl: Flags, st: State, w: WindowInfo, id: Id)
    ensures Honest(Lookup(st, id), CheckEffect(st, w, id)) && Honest(Lookup(st, id), WindowEffect(fl, st, w, id))
  {
    if Takes(st.startups, w, id) {
      TakenIsThere(st.startups, w, id);
    }
    hide Takes, Fits, Undetected;
  }

  lemma ExpectedIsHonest(fl: Flags, st: State, op: Op, id: Id)
    requires Good(fl, st)
    ensures Honest(Lookup(st, id), Expected(fl, st, op, id))
  {
    hide Good, Lookup, ReadMessage, RecordEffect, RemovalEffect, WindowEffect, CheckEffect, CleanUpEffect;
    hide Honest, Stays;
    StaysHonest(Lookup(st, id));
    match op
    case Message(text) =>
      match ReadMessage(text) {
        case NewInfo(i, d) => RecordIsHonest(fl, Lookup(st, id), id, d, true);
        case ChangeInfo(i, d) => RecordIsHonest(fl, Lookup(st, id), id, d, false);
        case RemoveInfo(i, d) => RemovalIsHonest(fl, st, i, d, id);
        case NoInfo =>
      }
    case WindowAdded(w) => WindowIsHonest(fl, st, w, id);
    case CheckWindow(w) => WindowIsHonest(fl, st, w, id);
    case Tick(env) => CleanUpIsHonest(st, true, env, id);
    case SetTimeout(_) =>
    case CleanupNoAge(env) => CleanUpIsHonest(st, false, env, id);
  }

  /** Over every run a listener that believes the signals knows exactly the announced startups,
      each with the record that is stored, except for PIDs that have been removed since. */
  lemma {:induction false} ListenersKnow(fl: Flags, st: State, ops: seq<Op>, id: Id)
    requires Good(fl, st) && Mirrors(Lookup(st, id), KnownFrom(About(st.log, id)))
    ensures var end := Run(fl, st, ops);
            Mirrors(Lookup(end, id), KnownFrom(About(end.log, id)))
    decreases |ops|
  {
    hide Good, After, Expected, About, Mirrors, KnownFrom, Lookup, Honest;
    if ops != [] {
      AfterKeepsGood(fl, st, ops[0]);
      StepExactly(fl, st, ops[0], id);
      ExpectedIsHonest(fl, st, ops[0], id);
      HonestMirrors(Lookup(st, id), About(st.log, id), Expected(fl, st, ops[0], id));
      ListenersKnow(fl, After(fl, st, ops[0]), ops[1..], id);
    }
  }

  lemma ListenersKnowFromTheStart(fl: Flags, ops: seq<Op>, id: Id)
    ensures var end := Run(fl, START, ops);
            Mirrors(Lookup(end, id), KnownFrom(About(end.log, id)))
  {
    StartIsGood(fl);
    assert Mirrors(Lookup(START, id), KnownFrom(About(START.log, id)));
    hide Run, Good, Mirrors, KnownFrom, About;
    ListenersKnow(fl, START, ops, id);
  }
}
