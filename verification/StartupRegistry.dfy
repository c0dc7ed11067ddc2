/** The receiving side of startup notification (KStartupInfo): three maps of startups, their
    ages, and the signals sent to listeners. */
module StartupRegistry {
  import opened Text
  import opened StartupData
  import opened StartupText
  import opened IdOrder

  datatype Option<+T> = None | Some(value: T)

  const UINT: nat := 0x1_0000_0000

  /** A C++ unsigned int. */
  type UInt = n: int | 0 <= n < UINT

  // ---------------------------------------------------------------- state

  /** KStartupInfo::Data: a record and its age in clean-up ticks (an unsigned int). */
  datatype Startup = Startup(data: Data, age: UInt)

  type Table = map<Id, Startup>

  datatype Signal =
    | NewStartup(id: Id, data: Data)
    | StartupChange(id: Id, data: Data)
    | RemoveStartup(id: Id, data: Data)

  datatype Flags = Flags(announceSilenceChanges: bool, cleanOnCantDetect: bool)

  datatype State = State(
    startups: Table,
    silent: Table,
    uninited: Table,
    timeout: UInt,
    ticking: bool,
    scheduled: nat,  // clean-ups that setTimeout has put into the event loop
    log: seq<Signal>)

  const START: State := State(map[], map[], map[], 60, false, 0, [])

  predicate IsSilent(e: Startup) {
    e.data.silent == Yes
  }

  // ---------------------------------------------------------------- new: and change:

  /** A message about an announced startup. */
  function OntoAnnounced(fl: Flags, st: State, id: Id, d: Data): State
    requires id in st.startups
  {
    var e := Startup(Updated(st.startups[id].data, d), 0);
    if IsSilent(e) && !fl.announceSilenceChanges then
      st.(silent := st.silent[id := e],
          startups := st.startups - {id},
          log := st.log + [RemoveStartup(id, e.data)])
    else
      st.(startups := st.startups[id := e], log := st.log + [StartupChange(id, e.data)])
  }

  /** A message about a silent startup. */
  function OntoSilent(st: State, id: Id, d: Data): State
    requires id in st.silent
  {
    var e := Startup(Updated(st.silent[id].data, d), 0);
    if !IsSilent(e) then
      st.(startups := st.startups[id := e],
          silent := st.silent - {id},
          log := st.log + [NewStartup(id, e.data)])
    else
      st.(silent := st.silent[id := e], log := st.log + [StartupChange(id, e.data)])
  }

  /** A message about a startup that has had no `new:` message. Its age stays. */
  function OntoUninited(st: State, id: Id, d: Data, update: bool): State
    requires id in st.uninited
  {
    var e := st.uninited[id].(data := Updated(st.uninited[id].data, d));
    if update then st.(uninited := st.uninited[id := e])
    else
      st.(startups := st.startups[id := e],
          uninited := st.uninited - {id},
          log := st.log + [NewStartup(id, e.data)])
  }

  /** The first message about a startup. */
  function Stored(fl: Flags, st: State, id: Id, d: Data, update: bool): State {
    var e := Startup(d, 0);
    if update then st.(uninited := st.uninited[id := e], ticking := true)
    else if !IsSilent(e) || fl.announceSilenceChanges then
      st.(startups := st.startups[id := e], log := st.log + [NewStartup(id, d)], ticking := true)
    else st.(silent := st.silent[id := e], ticking := true)
  }

  /** new_startup_info_internal. */
  function WithInfo(fl: Flags, st: State, id: Id, d: Data, update: bool): State {
    if IsNull(id) then st
    else if id in st.startups then OntoAnnounced(fl, st, id, d)
    else if id in st.silent then OntoSilent(st, id, d)
    else if id in st.uninited then OntoUninited(st, id, d, update)
    else Stored(fl, st, id, d, update)
  }

  // ---------------------------------------------------------------- remove:

  /** removeAllStartupInfoInternal. */
  function Without(st: State, id: Id): State {
    if id in st.startups then
      st.(log := st.log + [RemoveStartup(id, st.startups[id].data)],
          startups := st.startups - {id})
    else if id in st.silent then st.(silent := st.silent - {id})
    else if id in st.uninited then st.(uninited := st.uninited - {id})
    else st
  }

  function DropPids(e: Startup, gone: seq<int>): Startup {
    e.(data := e.data.(pids := Remaining(e.data.pids, gone)))
  }

  /** The state after the PIDs of one entry have been dropped, wherever the entry is. */
  function WithDroppedPids(st: State, id: Id, gone: seq<int>): State {
    if id in st.startups then st.(startups := st.startups[id := DropPids(st.startups[id], gone)])
    else if id in st.silent then st.(silent := st.silent[id := DropPids(st.silent[id], gone)])
    else if id in st.uninited then
      st.(uninited := st.uninited[id := DropPids(st.uninited[id], gone)])
    else st
  }

  /** The entry of an id: the three maps are searched in this order. */
  function Find(st: State, id: Id): Option<Startup> {
    if id in st.startups then Some(st.startups[id])
    else if id in st.silent then Some(st.silent[id])
    else if id in st.uninited then Some(st.uninited[id])
    else None
  }

  /** remove_startup_pids for a known id. */
  function WithoutPids(st: State, id: Id, gone: seq<int>): State {
    var st1 := WithDroppedPids(st, id, gone);
    match Find(st1, id)
    case Some(e) => if e.data.pids == [] then Without(st1, id) else st1
    case None => st1
  }

  predicate HasPidOn(e: Startup, pid: int, hostname: string) {
    pid in e.data.pids && e.data.hostname == hostname
  }

  function PidMatches(t: Table, pid: int, hostname: string): set<Id> {
    set id | id in t && HasPidOn(t[id], pid, hostname)
  }

  /** remove_startup_pids without an id: the first matching entry in key order. */
  ghost function WithoutAnyPids(st: State, d: Data): State
    requires d.pids != []
  {
    var found := PidMatches(st.startups, d.pids[0], d.hostname);
    if found == {} then st else WithoutPids(st, Least(found), d.pids)
  }

  /** got_remove_startup_info, after parsing. */
  ghost function WithoutInfo(st: State, id: Id, d: Data): State {
    if d.pids == [] then Without(st, id)
    else if !IsNull(id) then WithoutPids(st, id, d.pids)
    else WithoutAnyPids(st, d)
  }

  /** got_message. */
  ghost function WithMessage(fl: Flags, st: State, text: string): State {
    match ReadMessage(text)
    case NewInfo(id, d) => WithInfo(fl, st, id, d, false)
    case ChangeInfo(id, d) => WithInfo(fl, st, id, d, true)
    case RemoveInfo(id, d) => WithoutInfo(st, id, d)
    case NoInfo => st
  }

  // ---------------------------------------------------------------- removing many

  function Removals(t: Table, ids: seq<Id>): seq<Signal>
    requires forall id :: id in ids ==> id in t
  {
    if ids == [] then [] else [RemoveStartup(ids[0], t[ids[0]].data)] + Removals(t, ids[1..])
  }

  /** The removal signals for a set of ids, in key order. */
  ghost function Farewells(t: Table, ids: set<Id>): seq<Signal>
    requires ids <= t.Keys
  {
    Removals(t, Sorted(ids))
  }

  /** Removal of several announced startups, in key order. */
  ghost function WithoutAll(st: State, ids: set<Id>): State
    requires ids <= st.startups.Keys
  {
    st.(startups := st.startups - ids, log := st.log + Farewells(st.startups, ids))
  }

  function NonCompliant(t: Table): set<Id> {
    set id | id in t && t[id].data.wmclass == "0"
  }

  // ---------------------------------------------------------------- ageing

  function Aged(t: Table): Table {
    map id | id in t :: t[id].(age := (t[id].age + 1) % UINT)
  }

  /** The age at which an entry is dropped: env is KSTARTUPINFO_TIMEOUT, if set. */
  function Limit(e: Startup, timeout: UInt, env: Option<UInt>): UInt {
    match env
    case Some(n) => n
    case None => if IsSilent(e) then (timeout * 20) % UINT else timeout
  }

  function Expired(t: Table, timeout: UInt, env: Option<UInt>): set<Id> {
    set id | id in t && t[id].age >= Limit(t[id], timeout, env)
  }

  /** startups_cleanup_internal. */
  ghost function CleanedUp(st: State, age: bool, env: Option<UInt>): State {
    var a := if age then Aged(st.startups) else st.startups;
    var b := if age then Aged(st.silent) else st.silent;
    var c := if age then Aged(st.uninited) else st.uninited;
    var gone := Expired(a, st.timeout, env);
    st.(startups := a - gone,
        silent := b - Expired(b, st.timeout, env),
        uninited := c - Expired(c, st.timeout, env),
        log := st.log + Farewells(a, gone))
  }

  /** setTimeout. */
  function WithTimeout(st: State, secs: UInt): State {
    st.(timeout := secs, scheduled := st.scheduled + 1)
  }

  /** startups_cleanup_no_age, when the event loop comes to it. */
  ghost function CleanedUpLater(st: State, env: Option<UInt>): State {
    if st.scheduled == 0 then st else CleanedUp(st, false, env).(scheduled := st.scheduled - 1)
  }

  /** startups_cleanup, the slot of the one-second timer. */
  ghost function Ticked(st: State, env: Option<UInt>): State {
    if !st.ticking then st
    else if st.startups == map[] && st.silent == map[] && st.uninited == map[] then
      st.(ticking := false)
    else CleanedUp(st, true, env)
  }

  // ---------------------------------------------------------------- windows

  datatype WindowType =
    | Normal | Override | UnknownType | Dialog | Utility
    | Desktop | Dock | Toolbar | Menu | TopMenu | Splash

  /** What the server says about a window. A startup id of None is a missing property. */
  datatype WindowInfo = WindowInfo(
    startupId: Option<string>,
    pid: int,
    clientMachine: string,
    className: string,
    classClass: string,
    windowType: WindowType,
    transientForOther: bool)

  datatype Match = Match | NoMatch | CantDetect

  /** What a check reports through its out-parameters. */
  datatype Report = Report(id: Id, data: Data)

  function LowerChar(c: char): char {
    if 'A' <= c <= 'Z' then (c as int + 32) as char else c
  }

  function ToLower(s: string): string {
    seq(|s|, i requires 0 <= i < |s| => LowerChar(s[i]))
  }

  function FindWMClass(d: Data): string {
    if d.wmclass != "" && d.wmclass != "0" then d.wmclass else d.bin
  }

  predicate HasClass(e: Startup, name: string, cls: string) {
    var c := ToLower(FindWMClass(e.data));
    c == ToLower(name) || c == ToLower(cls)
  }

  function ClassMatches(t: Table, name: string, cls: string): set<Id> {
    set id | id in t && HasClass(t[id], name, cls)
  }

  /** The announced startups a window without a startup id belongs to, by PID first. */
  function Matches(t: Table, w: WindowInfo): set<Id> {
    var byPid := PidMatches(t, w.pid, w.clientMachine);
    if w.pid > 0 && w.clientMachine != "" && byPid != {} then byPid
    else ClassMatches(t, w.className, w.classClass)
  }

  /** check_startup_internal: the verdict for a window. */
  function Verdict(st: State, w: WindowInfo): Match {
    if st.startups == map[] then NoMatch
    else if w.startupId.Some? then
      if !IsNull(w.startupId.value) && w.startupId.value in st.startups then Match else NoMatch
    else if Matches(st.startups, w) != {} then Match
    else if !(w.windowType.Normal? || w.windowType.Override? || w.windowType.UnknownType?
              || w.windowType.Dialog? || w.windowType.Utility?) then NoMatch
    else if w.transientForOther then NoMatch
    else CantDetect
  }

  /** check_startup_internal: the startup it reports. */
  ghost function Reported(st: State, w: WindowInfo): Option<Report> {
    if Verdict(st, w) != Match then None
    else
      var id := if w.startupId.Some? then w.startupId.value else Least(Matches(st.startups, w));
      Some(Report(id, st.startups[id].data))
  }

  /** check_startup_internal: its effect. A match by PID or class ends the startup. */
  ghost function AfterCheck(st: State, w: WindowInfo): State {
    if st.startups == map[] || w.startupId.Some? || Matches(st.startups, w) == {} then st
    else WithoutAll(st, {Least(Matches(st.startups, w))})
  }

  /** window_added. */
  ghost function AfterWindow(fl: Flags, st: State, w: WindowInfo): State {
    var st1 := AfterCheck(st, w);
    if Verdict(st, w) == CantDetect && fl.cleanOnCantDetect
    then WithoutAll(st1, NonCompliant(st1.startups))
    else st1
  }

  // ---------------------------------------------------------------- the object

  class KStartupInfo {
    const flags: Flags
    var timeout: UInt
    var startups: Table
    var silentStartups: Table
    var uninitedStartups: Table
    var cleanupActive: bool
    var scheduled: nat
    ghost var log: seq<Signal>

    ghost function Abs(): State
      reads this
    {
      State(startups, silentStartups, uninitedStartups, timeout, cleanupActive, scheduled, log)
    }

    constructor (flags: Flags)
      ensures this.flags == flags && Abs() == START
    {
      this.flags := flags;
      timeout := 60;
      startups, silentStartups, uninitedStartups := map[], map[], map[];
      cleanupActive := false;
      scheduled := 0;
      log := [];
    }

    method GotMessage(msg: string)
      modifies this
      ensures Abs() == WithMessage(flags, old(Abs()), msg)
    {
      var text := Trimmed(msg);
      if StartsWith(text, "new:") {
        GotStartupInfo(text[4..], false);
      } else if StartsWith(text, "change:") {
        GotStartupInfo(text[7..], true);
      } else if StartsWith(text, "remove:") {
        GotRemoveStartupInfo(text[7..]);
      }
    }

    method GotStartupInfo(msg: string, update: bool)
      modifies this
      ensures Abs() == WithInfo(flags, old(Abs()), ReadId(msg), ReadData(msg), update)
    {
      var id := ParseId(msg);
      if IsNull(id) {
        return;
      }
      var data := ParseData(msg);
      NewStartupInfo(id, data, update);
    }

    method NewStartupInfo(id: Id, data: Data, update: bool)
      modifies this
      ensures Abs() == WithInfo(flags, old(Abs()), id, data, update)
    {
      if IsNull(id) {
        return;
      }
      if id in startups {
        UpdateAnnounced(id, data);
      } else if id in silentStartups {
        UpdateSilent(id, data);
      } else if id in uninitedStartups {
        UpdateUninited(id, data, update);
      } else {
        if update { // stored, but not announced
          uninitedStartups := uninitedStartups[id := Startup(data, 0)];
        } else if data.silent != Yes || flags.announceSilenceChanges {
          startups := startups[id := Startup(data, 0)];
          log := log + [NewStartup(id, data)];
        } else {
          silentStartups := silentStartups[id := Startup(data, 0)];
        }
        cleanupActive := true;
      }
    }

    method UpdateAnnounced(id: Id, data: Data)
      requires !IsNull(id) && id in startups
      modifies this
      ensures Abs() == WithInfo(flags, old(Abs()), id, data, false)
                    == WithInfo(flags, old(Abs()), id, data, true)
    {
      var updated := Update(startups[id].data, data);
      startups := startups[id := Startup(updated, 0)];
      if startups[id].data.silent == Yes && !flags.announceSilenceChanges {
        silentStartups := silentStartups[id := startups[id]];
        startups := startups - {id};
        assert startups == old(startups) - {id};
        log := log + [RemoveStartup(id, silentStartups[id].data)];
        return;
      }
      log := log + [StartupChange(id, startups[id].data)];
    }

    method UpdateSilent(id: Id, data: Data)
      requires !IsNull(id) && id !in startups && id in silentStartups
      modifies this
      ensures Abs() == WithInfo(flags, old(Abs()), id, data, false)
                    == WithInfo(flags, old(Abs()), id, data, true)
    {
      var updated := Update(silentStartups[id].data, data);
      silentStartups := silentStartups[id := Startup(updated, 0)];
      if silentStartups[id].data.silent != Yes {
        startups := startups[id := silentStartups[id]];
        silentStartups := silentStartups - {id};
        assert silentStartups == old(silentStartups) - {id};
        log := log + [NewStartup(id, startups[id].data)];
        return;
      }
      log := log + [StartupChange(id, silentStartups[id].data)];
    }

    method UpdateUninited(id: Id, data: Data, update: bool)
      requires !IsNull(id) && id !in startups && id !in silentStartups && id in uninitedStartups
      modifies this
      ensures Abs() == WithInfo(flags, old(Abs()), id, data, update)
    {
      var updated := Update(uninitedStartups[id].data, data);
      uninitedStartups := uninitedStartups[id := uninitedStartups[id].(data := updated)];
      if !update { // complete at last
        startups := startups[id := uninitedStartups[id]];
        uninitedStartups := uninitedStartups - {id};
        assert uninitedStartups == old(uninitedStartups) - {id};
        log := log + [NewStartup(id, startups[id].data)];
      }
    }

    method GotRemoveStartupInfo(msg: string)
      modifies this
      ensures Abs() == WithoutInfo(old(Abs()), ReadId(msg), ReadData(msg))
    {
      var id := ParseId(msg);
      var data := ParseData(msg);
      if data.pids != [] {
        if !IsNull(id) {
          RemoveStartupPids(id, data.pids);
        } else {
          RemoveAnyStartupPids(data);
        }
        return;
      }
      RemoveAllStartupInfo(id);
    }

    method RemoveAllStartupInfo(id: Id)
      modifies this
      ensures Abs() == Without(old(Abs()), id)
    {
      if id in startups {
        log := log + [RemoveStartup(id, startups[id].data)];
        startups := startups - {id};
      } else if id in silentStartups {
        silentStartups := silentStartups - {id};
      } else if id in uninitedStartups {
        uninitedStartups := uninitedStartups - {id};
      }
    }

    method RemoveStartupPids(id: Id, gone: seq<int>)
      modifies this
      ensures Abs() == WithoutPids(old(Abs()), id, gone)
    {
      var pids;
      if id in startups {
        pids := RemovePids(startups[id].data.pids, gone);
        startups := startups[id := startups[id].(data := startups[id].data.(pids := pids))];
      } else if id in silentStartups {
        pids := RemovePids(silentStartups[id].data.pids, gone);
        silentStartups :=
          silentStartups[id := silentStartups[id].(data := silentStartups[id].data.(pids := pids))];
      } else if id in uninitedStartups {
        pids := RemovePids(uninitedStartups[id].data.pids, gone);
        uninitedStartups :=
          uninitedStartups[id := uninitedStartups[id].(data := uninitedStartups[id].data.(pids := pids))];
      } else {
        return;
      }
      assert Abs() == WithDroppedPids(old(Abs()), id, gone);
      if pids == [] { // an entry lives as long as its last PID
        RemoveAllStartupInfo(id);
      }
    }

    method RemoveAnyStartupPids(data: Data)
      requires data.pids != []
      modifies this
      ensures Abs() == WithoutAnyPids(old(Abs()), data)
    {
      var todo := startups.Keys;
      ghost var found := PidMatches(startups, data.pids[0], data.hostname);
      while todo != {}
        invariant todo <= startups.Keys && found <= todo
        invariant Abs() == old(Abs())
        decreases todo
      {
        LeastExists(todo);
        var it :| it in todo && IsLeast(it, todo);
        if startups[it].data.hostname == data.hostname && data.pids[0] in startups[it].data.pids {
          assert it in found;
          LeastIsUnique(it, Least(found), found);
          RemoveStartupPids(it, data.pids);
          return;
        }
        todo := todo - {it};
      }
    }

    /** removeStartupInfoInternal. */
    method RemoveStartupInfo(id: Id)
      requires id in startups
      modifies this`startups, this`log
      ensures Abs() == old(Abs()).(startups := old(startups) - {id},
                                   log := old(log) + [RemoveStartup(id, old(startups)[id].data)])
    {
      log := log + [RemoveStartup(id, startups[id].data)];
      startups := startups - {id};
    }

    method FindId(id: Id) returns (hit: Option<Report>)
      ensures hit == if id in startups then Some(Report(id, startups[id].data)) else None
    {
      if id in startups {
        return Some(Report(id, startups[id].data));
      }
      return None;
    }

    /** find_pid: the first entry in key order with the PID and the hostname. */
    method FindPid(pid: int, hostname: string) returns (hit: Option<Report>)
      modifies this`startups, this`log
      ensures var found := PidMatches(old(startups), pid, hostname);
              if found == {} then hit == None && Abs() == old(Abs())
              else
                var id := Least(found);
                hit == Some(Report(id, old(startups)[id].data)) && Abs() == WithoutAll(old(Abs()), {id})
    {
      var todo := startups.Keys;
      ghost var found := PidMatches(startups, pid, hostname);
      while todo != {}
        invariant todo <= startups.Keys && found <= todo
        invariant Abs() == old(Abs())
        decreases todo
      {
        LeastExists(todo);
        var it :| it in todo && IsLeast(it, todo);
        if pid in startups[it].data.pids && startups[it].data.hostname == hostname {
          assert it in found;
          LeastIsUnique(it, Least(found), found);
          FarewellsOne(startups, it);
          hit := Some(Report(it, startups[it].data));
          RemoveStartupInfo(it); // the window has taken the startup over
          return;
        }
        todo := todo - {it};
      }
      return None;
    }

    /** find_wclass: the first entry in key order with the class, whatever its case. */
    method FindWClass(resName: string, resClass: string) returns (hit: Option<Report>)
      modifies this`startups, this`log
      ensures var found := ClassMatches(old(startups), resName, resClass);
              if found == {} then hit == None && Abs() == old(Abs())
              else
                var id := Least(found);
                hit == Some(Report(id, old(startups)[id].data)) && Abs() == WithoutAll(old(Abs()), {id})
    {
      var todo := startups.Keys;
      ghost var found := ClassMatches(startups, resName, resClass);
      while todo != {}
        invariant todo <= startups.Keys && found <= todo
        invariant Abs() == old(Abs())
        decreases todo
      {
        LeastExists(todo);
        var it :| it in todo && IsLeast(it, todo);
        if ToLower(FindWMClass(startups[it].data)) == ToLower(resName)
           || ToLower(FindWMClass(startups[it].data)) == ToLower(resClass) {
          assert it in found;
          LeastIsUnique(it, Least(found), found);
          FarewellsOne(startups, it);
          hit := Some(Report(it, startups[it].data));
          RemoveStartupInfo(it); // the window has taken the startup over
          return;
        }
        todo := todo - {it};
      }
      return None;
    }

    /** check_startup_internal; hit is what id_O and data_O report. */
    method CheckStartup(w: WindowInfo) returns (ret: Match, hit: Option<Report>)
      modifies this
      ensures ret == Verdict(old(Abs()), w) && hit == Reported(old(Abs()), w)
      ensures Abs() == AfterCheck(old(Abs()), w)
    {
      hide WithoutAll, PidMatches, ClassMatches;
      hit := None;
      if startups == map[] {
        return NoMatch, None;
      }
      if w.startupId.Some? {
        var id := w.startupId.value;
        if id == "" || id == "0" { // the window opts out of startup notification
          return NoMatch, None;
        }
        hit := FindId(id);
        return if hit.Some? then Match else NoMatch, hit;
      }
      if w.pid > 0 && w.clientMachine != "" {
        hit := FindPid(w.pid, w.clientMachine);
        if hit.Some? {
          return Match, hit;
        }
      }
      hit := FindWClass(w.className, w.classClass);
      if hit.Some? {
        return Match, hit;
      }
      if !(w.windowType.Normal? || w.windowType.Override? || w.windowType.UnknownType?
           || w.windowType.Dialog? || w.windowType.Utility?) {
        return NoMatch, None;
      }
      if w.transientForOther {
        return NoMatch, None;
      }
      return CantDetect, None;
    }

    method WindowAdded(w: WindowInfo)
      modifies this
      ensures Abs() == AfterWindow(flags, old(Abs()), w)
    {
      var ret, _ := CheckStartup(w);
      if ret == CantDetect && flags.cleanOnCantDetect {
        CleanAllNoncompliant();
      }
    }

    /** The erase-while-iterating loop over the announced startups. */
    method CleanAllNoncompliant()
      modifies this
      ensures Abs() == WithoutAll(old(Abs()), NonCompliant(old(startups)))
    {
      hide Farewells, Walked, NonCompliant, IsLeast;
      ghost var t := startups;
      ghost var bad := NonCompliant(t);
      var todo := startups.Keys;
      NonCompliantWalk(t);
      while todo != {}
        invariant todo <= t.Keys && startups == Walked(t, t, bad, todo)
        invariant log + Farewells(t, bad * todo) == old(log) + Farewells(t, bad)
        invariant Abs() == old(Abs()).(startups := startups, log := log)
        decreases todo
      {
        LeastExists(todo);
        var it :| it in todo && IsLeast(it, todo);
        WalkStep(t, bad, todo, it);
        WalkedStep(t, t, bad, todo, it);
        if startups[it].data.wmclass == "0" {
          log := log + [RemoveStartup(it, startups[it].data)];
          startups := startups - {it};
        }
        todo := todo - {it};
      }
      assert bad * todo == {};
      FarewellsNone(t);
    }

    method SetTimeout(secs: UInt)
      modifies this`timeout, this`scheduled
      ensures Abs() == WithTimeout(old(Abs()), secs)
    {
      timeout := secs;
      // the new timeout takes effect from the event loop
      scheduled := scheduled + 1;
    }

    /** The slot of a clean-up that setTimeout scheduled. */
    method StartupsCleanupNoAge(env: Option<UInt>)
      requires scheduled > 0
      modifies this
      ensures Abs() == CleanedUpLater(old(Abs()), env)
    {
      scheduled := scheduled - 1;
      StartupsCleanupInternal(false, env);
    }

    /** The loop that ages one map and erases its expired entries while iterating. */
    method CheckCleanup(s: Table, age: bool, env: Option<UInt>)
      returns (r: Table, ghost removed: seq<Signal>)
      ensures var a := if age then Aged(s) else s;
              r == a - Expired(a, timeout, env)
      ensures var a := if age then Aged(s) else s;
              removed == Farewells(a, Expired(a, timeout, env))
    {
      hide Farewells, Aged, Expired, Walked, IsLeast, Limit;
      r, removed := s, [];
      var todo := s.Keys;
      ghost var a := if age then Aged(s) else s;
      ghost var gone := Expired(a, timeout, env);
      WalkBounds(s, age, timeout, env);
      while todo != {}
        invariant todo <= s.Keys
        invariant r == Walked(s, a, gone, todo)
        invariant removed + Farewells(a, gone * todo) == Farewells(a, gone)
        decreases todo
      {
        LeastExists(todo);
        var it :| it in todo && IsLeast(it, todo);
        WalkStep(a, gone, todo, it);
        WalkedStep(s, a, gone, todo, it);
        StepOfCleanup(s, age, timeout, env, it);
        var e := r[it];
        if age {
          e := e.(age := (e.age + 1) % UINT);
        }
        var tout := if e.data.silent == Yes then (timeout * 20) % UINT else timeout;
        if env.Some? {
          tout := env.value;
        }
        assert e == a[it] && (e.age >= tout <==> it in gone);
        ghost var rest := Farewells(a, gone * (todo - {it}));
        if e.age >= tout {
          assert removed + ([RemoveStartup(it, e.data)] + rest) == removed + [RemoveStartup(it, e.data)] + rest;
          removed := removed + [RemoveStartup(it, e.data)];
          r := r - {it};
        } else {
          r := r[it := e];
        }
        todo := todo - {it};
      }
      assert gone * todo == {};
      FarewellsNone(a);
    }

    method StartupsCleanupInternal(age: bool, env: Option<UInt>)
      modifies this
      ensures Abs() == CleanedUp(old(Abs()), age, env)
    {
      hide Aged, Expired, Farewells;
      ghost var announced, quiet;
      startups, announced := CheckCleanup(startups, age, env);
      log := log + announced;
      silentStartups, quiet := CheckCleanup(silentStartups, age, env);
      uninitedStartups, quiet := CheckCleanup(uninitedStartups, age, env);
    }

    /** The slot of the running one-second timer. */
    method StartupsCleanup(env: Option<UInt>)
      requires cleanupActive
      modifies this
      ensures Abs() == Ticked(old(Abs()), env)
    {
      if startups == map[] && silentStartups == map[] && uninitedStartups == map[] {
        cleanupActive := false;
        return;
      }
      StartupsCleanupInternal(true, env);
    }
  }

  /** The map in the middle of a clean-up walk: the ids in todo are still to be visited. */
  function Walked(s: Table, a: Table, gone: set<Id>, todo: set<Id>): Table
    requires s.Keys == a.Keys
  {
    map id | id in s && (id in todo || id !in gone) :: if id in todo then s[id] else a[id]
  }

  lemma WalkedStep(s: Table, a: Table, gone: set<Id>, todo: set<Id>, k: Id)
    requires s.Keys == a.Keys && k in todo && k in s
    ensures var r := Walked(s, a, gone, todo);
            && k in r && r[k] == s[k]
            && Walked(s, a, gone, todo - {k}) == if k in gone then r - {k} else r[k := a[k]]
  {
  }

  lemma NonCompliantWalk(t: Table)
    ensures var bad := NonCompliant(t);
            && bad <= t.Keys && bad * t.Keys == bad
            && (forall id :: id in t ==> (id in bad <==> t[id].data.wmclass == "0"))
            && Walked(t, t, bad, t.Keys) == t && Walked(t, t, bad, {}) == t - bad
  {
  }

  lemma WalkBounds(s: Table, age: bool, timeout: UInt, env: Option<UInt>)
    ensures var a := if age then Aged(s) else s;
            var gone := Expired(a, timeout, env);
            && a.Keys == s.Keys && gone <= a.Keys && gone * s.Keys == gone
            && Walked(s, a, gone, s.Keys) == s
            && Walked(s, a, gone, {}) == a - gone
  {
  }

  /** What one step of the clean-up loop has to find out about an entry. */
  lemma StepOfCleanup(s: Table, age: bool, timeout: UInt, env: Option<UInt>, id: Id)
    requires id in s
    ensures var a := if age then Aged(s) else s;
            && id in a
            && a[id] == (if age then s[id].(age := (s[id].age + 1) % UINT) else s[id])
            && (id in Expired(a, timeout, env) <==>
                  a[id].age >= match env
                               case Some(n) => n
                               case None => if a[id].data.silent == Yes then (timeout * 20) % UINT else timeout)
  {
  }

  /** One step of a walk over todo, of which the ids in gone are removed. */
  lemma WalkStep(t: Table, gone: set<Id>, todo: set<Id>, k: Id)
    requires gone <= t.Keys && IsLeast(k, todo)
    ensures gone * (todo - {k}) <= t.Keys
    ensures Farewells(t, gone * todo)
            == (if k in gone then [RemoveStartup(k, t[k].data)] else []) + Farewells(t, gone * (todo - {k}))
  {
    hide Farewells;
    if k in gone {
      FarewellsStep(t, gone * todo, k);
      assert gone * todo - {k} == gone * (todo - {k});
    } else {
      assert gone * todo == gone * (todo - {k});
    }
  }

  lemma {:induction false} FarewellsNone(t: Table)
    ensures Farewells(t, {}) == []
  {
  }

  /** One step of a walk over the ids still to be removed. */
  lemma FarewellsStep(t: Table, ids: set<Id>, k: Id)
    requires ids <= t.Keys && IsLeast(k, ids)
    ensures Farewells(t, ids) == [RemoveStartup(k, t[k].data)] + Farewells(t, ids - {k})
  {
    SortedStep(ids, k);
    assert Sorted(ids)[1..] == Sorted(ids - {k});
  }

  lemma FarewellsOne(t: Table, id: Id)
    requires id in t
    ensures Farewells(t, {id}) == [RemoveStartup(id, t[id].data)]
  {
    FarewellsStep(t, {id}, id);
    assert {id} - {id} == {};
    FarewellsNone(t);
  }
}
