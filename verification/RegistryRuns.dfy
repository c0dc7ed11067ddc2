/** Properties of every run of the startup registry: its invariant, the ledger of announced
    and withdrawn startups, lifetimes, and PID removal. */
module RegistryRuns {
  import opened Text
  import opened StartupData
  import opened StartupText
  import opened IdOrder
  import opened StartupRegistry

  // ---------------------------------------------------------------- runs

  datatype Op =
    | Message(text: string)
    | WindowAdded(window: WindowInfo)
    | CheckWindow(window: WindowInfo)
    | Tick(env: Option<UInt>)
    | SetTimeout(secs: UInt)
    | CleanupNoAge(env: Option<UInt>)

  ghost function After(fl: Flags, st: State, op: Op): State {
    match op
    case Message(text) => WithMessage(fl, st, text)
    case WindowAdded(w) => AfterWindow(fl, st, w)
    case CheckWindow(w) => AfterCheck(st, w)
    case Tick(env) => Ticked(st, env)
    case SetTimeout(secs) => WithTimeout(st, secs)
    case CleanupNoAge(env) => CleanedUpLater(st, env)
  }

  ghost function Run(fl: Flags, st: State, ops: seq<Op>): State
    decreases |ops|
  {
    if ops == [] then st else Run(fl, After(fl, st, ops[0]), ops[1..])
  }

  // ---------------------------------------------------------------- the invariant

  /** A stored entry: its PIDs are distinct, its id is real, its age cannot wrap. */
  predicate GoodTable(t: Table) {
    forall id :: id in t ==> !IsNull(id) && Distinct(t[id].data.pids) && t[id].age + 1 < UINT
  }

  predicate Good(fl: Flags, st: State) {
    && st.startups.Keys !! st.silent.Keys !! st.uninited.Keys
    && (forall id :: id in st.silent ==> IsSilent(st.silent[id]))
    && (fl.announceSilenceChanges ==> st.silent == map[])
    && (st.startups != map[] || st.silent != map[] || st.uninited != map[] ==> st.ticking)
    && GoodTable(st.startups) && GoodTable(st.silent) && GoodTable(st.uninited)
  }

  lemma {:induction false} ReadPidsDistinct(d: Data, items: seq<string>)
    requires Distinct(d.pids)
    ensures Distinct(WithItems(d, items).pids)
    decreases |items|
  {
    hide Has, GetStr, GetNum, ReadDesktop, ToInt;
    if items != [] {
      ReadPidsDistinct(WithItem(d, items[0]), items[1..]);
    }
  }

  lemma UpdatedPidsDistinct(a: Data, b: Data)
    requires Distinct(a.pids)
    ensures Distinct(Updated(a, b).pids)
  {
    WithPidsFacts(a.pids, b.pids);
  }

  predicate GoodEntry(id: Id, e: Startup) {
    !IsNull(id) && Distinct(e.data.pids) && e.age + 1 < UINT
  }

  lemma PutKeepsGood(t: Table, id: Id, e: Startup)
    requires GoodTable(t) && GoodEntry(id, e)
    ensures GoodTable(t[id := e])
  {
    hide IsNull, Distinct;
  }

  lemma DropKeepsGood(t: Table, id: Id)
    requires GoodTable(t)
    ensures GoodTable(t - {id})
  {
    hide IsNull, Distinct;
  }

  lemma EntryIsGood(t: Table, id: Id, d: Data)
    requires GoodTable(t) && id in t
    ensures GoodEntry(id, Startup(Updated(t[id].data, d), 0))
    ensures GoodEntry(id, t[id].(data := Updated(t[id].data, d)))
  {
    UpdatedPidsDistinct(t[id].data, d);
    hide Updated, IsNull, Distinct;
  }

  lemma AnnouncedInfoKeepsGood(fl: Flags, st: State, id: Id, d: Data)
    requires Good(fl, st) && id in st.startups
    ensures Good(fl, OntoAnnounced(fl, st, id, d))
  {
    hide Updated, GoodTable, GoodEntry;
    var e := Startup(Updated(st.startups[id].data, d), 0);
    EntryIsGood(st.startups, id, d);
    PutKeepsGood(st.startups, id, e);
    PutKeepsGood(st.silent, id, e);
    DropKeepsGood(st.startups, id);
  }

  lemma SilentInfoKeepsGood(fl: Flags, st: State, id: Id, d: Data)
    requires Good(fl, st) && id in st.silent
    ensures Good(fl, OntoSilent(st, id, d))
  {
    hide Updated, GoodTable, GoodEntry;
    var e := Startup(Updated(st.silent[id].data, d), 0);
    EntryIsGood(st.silent, id, d);
    PutKeepsGood(st.startups, id, e);
    PutKeepsGood(st.silent, id, e);
    DropKeepsGood(st.silent, id);
  }

  lemma UninitedInfoKeepsGood(fl: Flags, st: State, id: Id, d: Data, update: bool)
    requires Good(fl, st) && id in st.uninited
    ensures Good(fl, OntoUninited(st, id, d, update))
  {
    hide Updated, GoodTable, GoodEntry;
    var e := st.uninited[id].(data := Updated(st.uninited[id].data, d));
    EntryIsGood(st.uninited, id, d);
    PutKeepsGood(st.startups, id, e);
    PutKeepsGood(st.uninited, id, e);
    DropKeepsGood(st.uninited, id);
  }

  lemma FreshInfoKeepsGood(fl: Flags, st: State, id: Id, d: Data, update: bool)
    requires Good(fl, st) && id !in st.startups && id !in st.silent && id !in st.uninited
    requires Distinct(d.pids) && !IsNull(id)
    ensures Good(fl, Stored(fl, st, id, d, update))
  {
    hide GoodTable, IsNull, Distinct;
    var e := Startup(d, 0);
    PutKeepsGood(st.startups, id, e);
    PutKeepsGood(st.silent, id, e);
    PutKeepsGood(st.uninited, id, e);
  }

  lemma InfoKeepsGood(fl: Flags, st: State, id: Id, d: Data, update: bool)
    requires Good(fl, st) && Distinct(d.pids)
    ensures Good(fl, WithInfo(fl, st, id, d, update))
  {
    hide Good, OntoAnnounced, OntoSilent, OntoUninited, Stored, Distinct, IsNull;
    if id in st.startups {
      AnnouncedInfoKeepsGood(fl, st, id, d);
    } else if id in st.silent {
      SilentInfoKeepsGood(fl, st, id, d);
    } else if id in st.uninited {
      UninitedInfoKeepsGood(fl, st, id, d, update);
    } else if !IsNull(id) {
      FreshInfoKeepsGood(fl, st, id, d, update);
    }
  }

  lemma WithoutKeepsGood(fl: Flags, st: State, id: Id)
    requires Good(fl, st)
    ensures Good(fl, Without(st, id))
  {
    hide GoodTable;
    DropKeepsGood(st.startups, id);
    DropKeepsGood(st.silent, id);
    DropKeepsGood(st.uninited, id);
  }

  lemma PidsDroppedIsGood(t: Table, id: Id, gone: seq<int>)
    requires GoodTable(t) && id in t
    ensures GoodTable(t[id := DropPids(t[id], gone)])
  {
    RemainingExact(t[id].data.pids, gone);
    hide IsNull, Distinct, Remaining;
  }

  lemma DroppedKeepsGood(fl: Flags, st: State, id: Id, gone: seq<int>)
    requires Good(fl, st)
    ensures Good(fl, WithDroppedPids(st, id, gone))
  {
    hide GoodTable, Remaining;
    if id in st.startups {
      PidsDroppedIsGood(st.startups, id, gone);
    } else if id in st.silent {
      PidsDroppedIsGood(st.silent, id, gone);
    } else if id in st.uninited {
      PidsDroppedIsGood(st.uninited, id, gone);
    }
  }

  lemma PidsKeepGood(fl: Flags, st: State, id: Id, gone: seq<int>)
    requires Good(fl, st)
    ensures Good(fl, WithoutPids(st, id, gone))
  {
    hide Good, WithDroppedPids, Without;
    DroppedKeepsGood(fl, st, id, gone);
    WithoutKeepsGood(fl, WithDroppedPids(st, id, gone), id);
  }

  lemma MessageKeepsGood(fl: Flags, st: State, text: string)
    requires Good(fl, st)
    ensures Good(fl, WithMessage(fl, st, text))
  {
    hide WithInfo, WithoutPids, Without, ReadId;
    var m := ReadMessage(text);
    if m != NoInfo {
      assert Distinct(m.data.pids) by { ReadMessagePids(text); }
      match m
      case NewInfo(id, d) => InfoKeepsGood(fl, st, id, d, false);
      case ChangeInfo(id, d) => InfoKeepsGood(fl, st, id, d, true);
      case RemoveInfo(id, d) =>
        WithoutKeepsGood(fl, st, id);
        PidsKeepGood(fl, st, id, d.pids);
        if d.pids != [] && PidMatches(st.startups, d.pids[0], d.hostname) != {} {
          PidsKeepGood(fl, st, Least(PidMatches(st.startups, d.pids[0], d.hostname)), d.pids);
        }
    }
  }

  lemma ReadMessagePids(text: string)
    ensures var m := ReadMessage(text);
            m != NoInfo ==> Distinct(m.data.pids)
  {
    hide WithItems, ReadId;
    forall t: string ensures Distinct(ReadData(t).pids) {
      ReadPidsDistinct(NO_DATA, Fields.FieldsOf(t));
    }
  }

  lemma CleanKeepsGood(t: Table, age: bool, timeout: UInt, env: Option<UInt>)
    requires GoodTable(t)
    ensures var a := if age then Aged(t) else t;
            GoodTable(a - Expired(a, timeout, env))
  {
  }

  lemma CleanKeepsEntries(t: Table, age: bool, timeout: UInt, env: Option<UInt>)
    ensures var a := if age then Aged(t) else t;
            var r := a - Expired(a, timeout, env);
            r.Keys <= t.Keys && forall id :: id in r ==> r[id].data == t[id].data
  {
  }

  lemma CleanedUpKeepsGood(fl: Flags, st: State, age: bool, env: Option<UInt>)
    requires Good(fl, st)
    ensures Good(fl, CleanedUp(st, age, env))
  {
    hide GoodTable, Farewells, Aged, Expired;
    CleanKeepsGood(st.startups, age, st.timeout, env);
    CleanKeepsGood(st.silent, age, st.timeout, env);
    CleanKeepsGood(st.uninited, age, st.timeout, env);
    CleanKeepsEntries(st.startups, age, st.timeout, env);
    CleanKeepsEntries(st.silent, age, st.timeout, env);
    CleanKeepsEntries(st.uninited, age, st.timeout, env);
    var st1 := CleanedUp(st, age, env);
    assert st1.startups.Keys !! st1.silent.Keys !! st1.uninited.Keys;
    assert forall id :: id in st1.silent ==> IsSilent(st1.silent[id]);
  }

  lemma CheckKeepsGood(fl: Flags, st: State, w: WindowInfo)
    requires Good(fl, st)
    ensures Good(fl, AfterCheck(st, w))
  {
    hide Farewells;
  }

  lemma AfterKeepsGood(fl: Flags, st: State, op: Op)
    requires Good(fl, st)
    ensures Good(fl, After(fl, st, op))
  {
    hide Farewells, WithMessage, CleanedUp, AfterCheck, Verdict;
    match op
    case Message(text) => MessageKeepsGood(fl, st, text);
    case WindowAdded(w) => CheckKeepsGood(fl, st, w);
    case CheckWindow(w) => CheckKeepsGood(fl, st, w);
    case Tick(env) => CleanedUpKeepsGood(fl, st, true, env);
    case SetTimeout(_) =>
    case CleanupNoAge(env) => CleanedUpKeepsGood(fl, st, false, env);
  }

  /** In every reachable state the three maps have disjoint keys, the silent map holds only
      silent entries and none under AnnounceSilenceChanges, the clean-up timer runs while any
      map is non-empty, PID lists are duplicate-free and ids are never null. */
  lemma {:induction false} RegistryInvariant(fl: Flags, st: State, ops: seq<Op>)
    requires Good(fl, st)
    ensures Good(fl, Run(fl, st, ops))
    decreases |ops|
  {
    if ops != [] {
      AfterKeepsGood(fl, st, ops[0]);
      RegistryInvariant(fl, After(fl, st, ops[0]), ops[1..]);
    }
  }

  lemma StartIsGood(fl: Flags)
    ensures Good(fl, START)
  {
  }

  // ---------------------------------------------------------------- the signal ledger

  /** The New (true) and Remove (false) signals of one id, in order. */
  function Ledger(log: seq<Signal>, id: Id): seq<bool> {
    if log == [] then [] else EntryOf(log[0], id) + Ledger(log[1..], id)
  }

  lemma {:induction false} LedgerConcat(a: seq<Signal>, b: seq<Signal>, id: Id)
    ensures Ledger(a + b, id) == Ledger(a, id) + Ledger(b, id)
  {
    if a == [] {
      assert a + b == b;
    } else {
      assert (a + b)[0] == a[0] && (a + b)[1..] == a[1..] + b;
      LedgerConcat(a[1..], b, id);
    }
  }

  lemma LedgerOne(s: Signal, id: Id)
    ensures Ledger([s], id) == EntryOf(s, id)
  {
    assert [s][1..] == [];
  }

  /** The entry that a change of membership in `startups` must leave in the ledger. */
  function Change(before: Table, after: Table, id: Id): seq<bool> {
    if id in after && id !in before then [true]
    else if id in before && id !in after then [false]
    else []
  }

  /** A step is accounted for when it writes exactly the change it makes. */
  ghost predicate Accounted(st: State, st1: State, id: Id) {
    Ledger(st1.log, id) == Ledger(st.log, id) + Change(st.startups, st1.startups, id)
  }

  lemma AccountedSilently(st: State, st1: State, id: Id)
    requires st1.log == st.log && (id in st.startups <==> id in st1.startups)
    ensures Accounted(st, st1, id)
  {
    assert Ledger(st.log, id) + [] == Ledger(st.log, id);
  }

  lemma AccountedOne(st: State, st1: State, s: Signal, id: Id)
    requires st1.log == st.log + [s]
    requires Ledger([s], id) == Change(st.startups, st1.startups, id)
    ensures Accounted(st, st1, id)
  {
    LedgerConcat(st.log, [s], id);
  }

  /** The ledger entry of one signal. */
  function EntryOf(s: Signal, id: Id): seq<bool> {
    match s
    case NewStartup(i, _) => if i == id then [true] else []
    case RemoveStartup(i, _) => if i == id then [false] else []
    case StartupChange(_, _) => []
  }

  lemma AccountedSignal(st: State, st1: State, s: Signal, id: Id)
    requires st1.log == st.log + [s]
    requires EntryOf(s, id) == Change(st.startups, st1.startups, id)
    ensures Accounted(st, st1, id)
  {
    LedgerConcat(st.log, [s], id);
    LedgerOne(s, id);
  }

  lemma AnnouncedInfoAccounted(fl: Flags, st: State, i: Id, d: Data, id: Id)
    requires i in st.startups
    ensures Accounted(st, OntoAnnounced(fl, st, i, d), id)
  {
    hide Updated, Accounted, Ledger;
    var st1 := OntoAnnounced(fl, st, i, d);
    var e := Startup(Updated(st.startups[i].data, d), 0);
    AccountedSignal(st, st1, if i in st1.startups then StartupChange(i, e.data) else RemoveStartup(i, e.data), id);
  }

  lemma SilentInfoAccounted(st: State, i: Id, d: Data, id: Id)
    requires i in st.silent && i !in st.startups
    ensures Accounted(st, OntoSilent(st, i, d), id)
  {
    hide Updated, Accounted, Ledger;
    var st1 := OntoSilent(st, i, d);
    var e := Startup(Updated(st.silent[i].data, d), 0);
    AccountedSignal(st, st1, if i in st1.startups then NewStartup(i, e.data) else StartupChange(i, e.data), id);
  }

  lemma UninitedInfoAccounted(st: State, i: Id, d: Data, update: bool, id: Id)
    requires i in st.uninited && i !in st.startups
    ensures Accounted(st, OntoUninited(st, i, d, update), id)
  {
    hide Updated, Accounted, Ledger;
    var st1 := OntoUninited(st, i, d, update);
    if update {
      AccountedSilently(st, st1, id);
    } else {
      AccountedSignal(st, st1, NewStartup(i, st1.startups[i].data), id);
    }
  }

  lemma FreshInfoAccounted(fl: Flags, st: State, i: Id, d: Data, update: bool, id: Id)
    requires i !in st.startups
    ensures Accounted(st, Stored(fl, st, i, d, update), id)
  {
    hide Accounted, Ledger;
    var st1 := Stored(fl, st, i, d, update);
    if i in st1.startups {
      AccountedSignal(st, st1, NewStartup(i, d), id);
    } else {
      AccountedSilently(st, st1, id);
    }
  }

  lemma InfoAccounted(fl: Flags, st: State, i: Id, d: Data, update: bool, id: Id)
    ensures Accounted(st, WithInfo(fl, st, i, d, update), id)
  {
    hide Accounted, OntoAnnounced, OntoSilent, OntoUninited, Stored, IsNull;
    if IsNull(i) {
      AccountedSilently(st, st, id);
    } else if i in st.startups {
      AnnouncedInfoAccounted(fl, st, i, d, id);
    } else if i in st.silent {
      SilentInfoAccounted(st, i, d, id);
    } else if i in st.uninited {
      UninitedInfoAccounted(st, i, d, update, id);
    } else {
      FreshInfoAccounted(fl, st, i, d, update, id);
    }
  }

  lemma WithoutAccounted(st: State, i: Id, id: Id)
    ensures Accounted(st, Without(st, i), id)
  {
    var st1 := Without(st, i);
    if i in st.startups {
      var s := RemoveStartup(i, st.startups[i].data);
      LedgerOne(s, id);
      AccountedOne(st, st1, s, id);
    } else {
      AccountedSilently(st, st1, id);
    }
  }

  lemma PidsAccounted(st: State, i: Id, gone: seq<int>, id: Id)
    ensures Accounted(st, WithoutPids(st, i, gone), id)
  {
    hide WithDroppedPids, Without, Ledger;
    DroppedPidsQuiet(st, i, gone);
    var st1 := WithDroppedPids(st, i, gone);
    AccountedSilently(st, st1, id);
    WithoutAccounted(st1, i, id);
  }

  lemma DroppedPidsQuiet(st: State, i: Id, gone: seq<int>)
    ensures WithDroppedPids(st, i, gone).log == st.log
    ensures WithDroppedPids(st, i, gone).startups.Keys == st.startups.Keys
  {
    hide Remaining;
  }

  lemma {:induction false} RemovalsLedger(t: Table, ids: seq<Id>, id: Id)
    requires forall i :: i in ids ==> i in t
    requires forall i, j :: 0 <= i < j < |ids| ==> ids[i] != ids[j]
    ensures Ledger(Removals(t, ids), id) == if id in ids then [false] else []
  {
    if ids != [] {
      RemovalsLedger(t, ids[1..], id);
      assert Removals(t, ids)[1..] == Removals(t, ids[1..]);
      if ids[0] == id {
        assert id !in ids[1..];
      }
    }
  }

  lemma FarewellsLedger(t: Table, ids: set<Id>, id: Id)
    requires ids <= t.Keys
    ensures Ledger(Farewells(t, ids), id) == if id in ids then [false] else []
  {
    var s := Sorted(ids);
    forall i, j | 0 <= i < j < |s| ensures s[i] != s[j] {
      LessTotal(s[i], s[i]);
    }
    RemovalsLedger(t, s, id);
  }

  /** Many removals at once: the table may have been aged before. */
  lemma ManyAccounted(st: State, st1: State, t: Table, ids: set<Id>, id: Id)
    requires t.Keys == st.startups.Keys && ids <= t.Keys
    requires st1.log == st.log + Farewells(t, ids) && st1.startups == t - ids
    ensures Accounted(st, st1, id)
  {
    LedgerConcat(st.log, Farewells(t, ids), id);
    FarewellsLedger(t, ids, id);
  }

  lemma CleanedUpAccounted(st: State, age: bool, env: Option<UInt>, id: Id)
    ensures Accounted(st, CleanedUp(st, age, env), id)
  {
    hide Farewells;
    var a := if age then Aged(st.startups) else st.startups;
    ManyAccounted(st, CleanedUp(st, age, env), a, Expired(a, st.timeout, env), id);
  }

  lemma CleanedUpLaterAccounted(st: State, env: Option<UInt>, id: Id)
    ensures Accounted(st, CleanedUpLater(st, env), id)
  {
    hide CleanedUp, Ledger;
    CleanedUpAccounted(st, false, env, id);
    AccountedSilently(st, st, id);
  }

  lemma CheckAccounted(st: State, w: WindowInfo, id: Id)
    ensures Accounted(st, AfterCheck(st, w), id)
  {
    hide Farewells, Matches;
    if AfterCheck(st, w) == st {
      AccountedSilently(st, st, id);
    } else {
      MatchesAreStartups(st.startups, w);
      ManyAccounted(st, AfterCheck(st, w), st.startups, {Least(Matches(st.startups, w))}, id);
    }
  }

  lemma MatchesAreStartups(t: Table, w: WindowInfo)
    ensures Matches(t, w) <= t.Keys
  {
  }

  /** Two accounted steps in a row, if only one of them changes the id. */
  lemma AccountedTwice(st: State, st1: State, st2: State, id: Id)
    requires Accounted(st, st1, id) && Accounted(st1, st2, id)
    requires id in st2.startups ==> id in st1.startups
    requires id in st1.startups ==> id in st.startups
    ensures Accounted(st, st2, id)
  {
    var l := Ledger(st.log, id);
    assert l + [] == l;
    assert l + [false] + [] == l + [false];
  }

  lemma MessageAccounted(fl: Flags, st: State, text: string, id: Id)
    ensures Accounted(st, WithMessage(fl, st, text), id)
  {
    hide WithInfo, WithoutPids, Without, Accounted, ReadId, ReadData;
    AccountedSilently(st, st, id);
    match ReadMessage(text)
    case NewInfo(i, d) => InfoAccounted(fl, st, i, d, false, id);
    case ChangeInfo(i, d) => InfoAccounted(fl, st, i, d, true, id);
    case RemoveInfo(i, d) =>
      WithoutAccounted(st, i, id);
      PidsAccounted(st, i, d.pids, id);
      if d.pids != [] && PidMatches(st.startups, d.pids[0], d.hostname) != {} {
        PidsAccounted(st, Least(PidMatches(st.startups, d.pids[0], d.hostname)), d.pids, id);
      }
    case NoInfo =>
  }

  /** Every step, whatever its path, writes a New exactly when an id enters `startups`, a
      Remove exactly when it leaves, and nothing otherwise. */
  lemma StepAccounted(fl: Flags, st: State, op: Op, id: Id)
    ensures Accounted(st, After(fl, st, op), id)
  {
    hide Farewells, WithMessage, CleanedUp, Accounted, Verdict, Matches;
    AccountedSilently(st, st, id);
    match op
    case Message(text) => MessageAccounted(fl, st, text, id);
    case CheckWindow(w) => CheckAccounted(st, w, id);
    case WindowAdded(w) =>
      var st1 := AfterCheck(st, w);
      CheckAccounted(st, w, id);
      MatchesAreStartups(st.startups, w);
      if Verdict(st, w) == CantDetect && fl.cleanOnCantDetect {
        var bad := NonCompliant(st1.startups);
        ManyAccounted(st1, WithoutAll(st1, bad), st1.startups, bad, id);
        AccountedTwice(st, st1, WithoutAll(st1, bad), id);
      }
    case Tick(env) =>
      CleanedUpAccounted(st, true, env, id);
      AccountedSilently(st, st.(ticking := false), id);
    case SetTimeout(secs) => AccountedSilently(st, WithTimeout(st, secs), id);
    case CleanupNoAge(env) => CleanedUpLaterAccounted(st, env, id);
  }

  /** New and Remove alternate, starting with New, and the last one tells whether the id is
      announced now. */
  predicate Balanced(ledger: seq<bool>, announced: bool) {
    && (forall i :: 0 <= i < |ledger| ==> ledger[i] == (i % 2 == 0))
    && announced == (|ledger| % 2 == 1)
  }

  lemma BalancedStep(ledger: seq<bool>, before: Table, after: Table, id: Id)
    requires Balanced(ledger, id in before)
    ensures Balanced(ledger + Change(before, after, id), id in after)
  {
    var more := ledger + Change(before, after, id);
    assert forall i :: 0 <= i < |ledger| ==> more[i] == ledger[i];
  }

  /** Over every run from a fresh object, the New and Remove signals of each id strictly
      alternate starting with New, and the id is in `startups` exactly when New leads. */
  lemma {:induction false} SignalLedger(fl: Flags, st: State, ops: seq<Op>, id: Id)
    requires Balanced(Ledger(st.log, id), id in st.startups)
    ensures Balanced(Ledger(Run(fl, st, ops).log, id), id in Run(fl, st, ops).startups)
    decreases |ops|
  {
    hide After, Ledger, Balanced;
    if ops != [] {
      StepAccounted(fl, st, ops[0], id);
      BalancedStep(Ledger(st.log, id), st.startups, After(fl, st, ops[0]).startups, id);
      SignalLedger(fl, After(fl, st, ops[0]), ops[1..], id);
    }
  }

  function Count(ledger: seq<bool>, which: bool): nat {
    if ledger == [] then 0 else (if ledger[0] == which then 1 else 0) + Count(ledger[1..], which)
  }

  lemma {:induction false} CountSnoc(l: seq<bool>, x: bool, which: bool)
    ensures Count(l + [x], which) == Count(l, which) + if x == which then 1 else 0
  {
    if l == [] {
      assert [x][1..] == [];
      assert l + [x] == [x];
    } else {
      assert (l + [x])[0] == l[0] && (l + [x])[1..] == l[1..] + [x];
      CountSnoc(l[1..], x, which);
    }
  }

  /** In numbers: New signals minus Remove signals is one when announced and zero otherwise. */
  lemma {:induction false} BalancedCounts(ledger: seq<bool>, announced: bool)
    requires Balanced(ledger, announced)
    ensures Count(ledger, true) == Count(ledger, false) + if announced then 1 else 0
  {
    if ledger != [] {
      var init := ledger[..|ledger| - 1];
      BalancedCounts(init, !announced);
      CountSnoc(init, ledger[|ledger| - 1], true);
      CountSnoc(init, ledger[|ledger| - 1], false);
      assert ledger == init + [ledger[|ledger| - 1]];
    }
  }

  // ---------------------------------------------------------------- lifetimes

  /** Where an id is stored. */
  datatype Place =
    | Absent
    | Announced(entry: Startup)
    | Quiet(entry: Startup)
    | Uninited(entry: Startup)

  function Lookup(st: State, id: Id): Place {
    if id in st.startups then Announced(st.startups[id])
    else if id in st.silent then Quiet(st.silent[id])
    else if id in st.uninited then Uninited(st.uninited[id])
    else Absent
  }

  function Ticks(ops: seq<Op>): nat {
    if ops == [] then 0 else (if ops[0].Tick? then 1 else 0) + Ticks(ops[1..])
  }

  /** A run in which only clock ticks, without the environment override, act on an id, and the
      timeout stays. Everything else may happen to every other id. */
  ghost predicate Untouched(fl: Flags, st: State, ops: seq<Op>, id: Id)
    decreases |ops|
  {
    ops == []
    || (var st1 := After(fl, st, ops[0]);
        && (if ops[0].Tick? then ops[0].env == None
            else Lookup(st1, id) == Lookup(st, id) && st1.timeout == st.timeout)
        && Untouched(fl, st1, ops[1..], id))
  }

  /** The number of ticks after which an entry is gone. */
  function TicksLeft(e: Startup, timeout: UInt): nat {
    var limit := Limit(e, timeout, None);
    if limit <= e.age + 1 then 1 else limit - e.age
  }

  function Older(p: Place, ticks: nat): Place
    requires p != Absent ==> p.entry.age + ticks < UINT
  {
    match p
    case Absent => Absent
    case Announced(e) => Announced(e.(age := e.age + ticks))
    case Quiet(e) => Quiet(e.(age := e.age + ticks))
    case Uninited(e) => Uninited(e.(age := e.age + ticks))
  }

  /** Where an entry is after some ticks that nothing else interrupted. */
  function PlaceAfter(p: Place, ticks: nat, timeout: UInt): Place
    requires p != Absent ==> p.entry.age + 1 < UINT
  {
    if p == Absent || ticks == 0 then p
    else if ticks < TicksLeft(p.entry, timeout) then Older(p, ticks)
    else Absent
  }

  lemma TickOnTable(t: Table, timeout: UInt, id: Id)
    requires GoodTable(t)
    ensures var r := Aged(t) - Expired(Aged(t), timeout, None);
            && (id in r <==> id in t && TicksLeft(t[id], timeout) > 1)
            && (id in r ==> r[id] == t[id].(age := t[id].age + 1))
  {
    hide Distinct, IsNull;
    if id in t {
      assert Aged(t)[id] == t[id].(age := t[id].age + 1);
    }
  }

  lemma TickOnPlace(fl: Flags, st: State, id: Id)
    requires Good(fl, st)
    ensures Lookup(After(fl, st, Tick(None)), id) == PlaceAfter(Lookup(st, id), 1, st.timeout)
    ensures After(fl, st, Tick(None)).timeout == st.timeout
  {
    hide Farewells, GoodTable, Aged, Expired, TicksLeft;
    TickOnTable(st.startups, st.timeout, id);
    TickOnTable(st.silent, st.timeout, id);
    TickOnTable(st.uninited, st.timeout, id);
  }

  lemma PlaceAfterStep(p: Place, n: nat, timeout: UInt)
    requires p != Absent ==> p.entry.age + 1 < UINT
    ensures var q := PlaceAfter(p, 1, timeout);
            && (q != Absent ==> q.entry.age + 1 < UINT)
            && PlaceAfter(q, n, timeout) == PlaceAfter(p, n + 1, timeout)
  {
  }

  lemma PlaceIsGood(fl: Flags, st: State, id: Id)
    requires Good(fl, st)
    ensures var p := Lookup(st, id);
            p != Absent ==> p.entry.age + 1 < UINT
  {
  }

  lemma {:induction false} UntouchedPlace(fl: Flags, st: State, ops: seq<Op>, id: Id)
    requires Good(fl, st) && Untouched(fl, st, ops, id)
    requires Lookup(st, id) != Absent ==> Lookup(st, id).entry.age + 1 < UINT
    ensures Lookup(Run(fl, st, ops), id) == PlaceAfter(Lookup(st, id), Ticks(ops), st.timeout)
    decreases |ops|
  {
    hide After, Good, Lookup, PlaceAfter;
    PlaceIsGood(fl, st, id);
    if ops == [] {
      assert PlaceAfter(Lookup(st, id), 0, st.timeout) == Lookup(st, id) by {
        PlaceAfterNone(Lookup(st, id), st.timeout);
      }
    } else {
      var st1 := After(fl, st, ops[0]);
      AfterKeepsGood(fl, st, ops[0]);
      PlaceIsGood(fl, st1, id);
      UntouchedPlace(fl, st1, ops[1..], id);
      if ops[0].Tick? {
        assert ops[0] == Tick(None);
        TickOnPlace(fl, st, id);
        PlaceAfterStep(Lookup(st, id), Ticks(ops[1..]), st.timeout);
      }
    }
  }

  lemma PlaceAfterNone(p: Place, timeout: UInt)
    requires p != Absent ==> p.entry.age + 1 < UINT
    ensures PlaceAfter(p, 0, timeout) == p
  {
  }

  lemma {:induction false} UntouchedLedger(fl: Flags, st: State, ops: seq<Op>, id: Id)
    requires Good(fl, st) && Untouched(fl, st, ops, id)
    ensures Accounted(st, Run(fl, st, ops), id)
    ensures id in Run(fl, st, ops).startups ==> id in st.startups
    decreases |ops|
  {
    hide After, Good, PlaceAfter, Accounted;
    if ops == [] {
      AccountedSilently(st, st, id);
    } else {
      var st1 := After(fl, st, ops[0]);
      AfterKeepsGood(fl, st, ops[0]);
      StepAccounted(fl, st, ops[0], id);
      UntouchedLedger(fl, st1, ops[1..], id);
      assert id in st1.startups ==> id in st.startups by {
        if ops[0].Tick? {
          TickOnPlace(fl, st, id);
          PlaceIsGood(fl, st, id);
          PlaceStays(Lookup(st, id), st.timeout);
        }
      }
      AccountedTwice(st, st1, Run(fl, st, ops), id);
    }
  }

  lemma PlaceStays(p: Place, timeout: UInt)
    requires p != Absent ==> p.entry.age + 1 < UINT
    ensures PlaceAfter(p, 1, timeout).Announced? ==> p.Announced?
  {
  }

  /** An entry that nothing touches disappears at exactly tick max(1, limit - age), where the
      limit is the timeout, or 20 times it for a silent entry. Until then it only ages. It is
      withdrawn with one Remove signal, exactly if it had been announced. */
  lemma BoundedLifetime(fl: Flags, st: State, ops: seq<Op>, id: Id)
    requires Good(fl, st) && Untouched(fl, st, ops, id) && Lookup(st, id) != Absent
    ensures var p := Lookup(st, id);
            var limit := if IsSilent(p.entry) then (st.timeout * 20) % UINT else st.timeout;
            var gone := Ticks(ops) >= (if limit - p.entry.age > 1 then limit - p.entry.age else 1);
            var end := Run(fl, st, ops);
            && (gone <==> Lookup(end, id) == Absent)
            && (!gone ==> p.entry.age + Ticks(ops) < UINT && Lookup(end, id) == Older(p, Ticks(ops)))
            && Ledger(end.log, id)
               == Ledger(st.log, id) + if p.Announced? && gone then [false] else []
  {
    PlaceIsGood(fl, st, id);
    UntouchedPlace(fl, st, ops, id);
    UntouchedLedger(fl, st, ops, id);
  }

  // ---------------------------------------------------------------- entries without a new: message

  /** A run in which an id stays uninited, the timeout stays and ticks have no override. */
  ghost predicate StaysUninited(fl: Flags, st: State, ops: seq<Op>, id: Id)
    decreases |ops|
  {
    && Lookup(st, id).Uninited?
    && (ops == []
        || (var st1 := After(fl, st, ops[0]);
            && (ops[0].Tick? ==> ops[0].env == None)
            && st1.timeout == st.timeout
            && StaysUninited(fl, st1, ops[1..], id)))
  }

  lemma InfoKeepsUninitedAge(fl: Flags, st: State, i: Id, d: Data, update: bool, id: Id)
    requires Good(fl, st) && Lookup(st, id).Uninited?
    requires Lookup(WithInfo(fl, st, i, d, update), id).Uninited?
    ensures WithInfo(fl, st, i, d, update).uninited[id].age == st.uninited[id].age
  {
    hide Updated, GoodTable, OntoAnnounced, OntoSilent, Stored, IsNull;
    if i != id {
      InfoElsewhere(fl, st, i, d, update, id);
    }
  }

  /** Only uninited entries and new ones touch the uninited map of other ids. */
  lemma InfoElsewhere(fl: Flags, st: State, i: Id, d: Data, update: bool, id: Id)
    requires i != id && id in st.uninited
    ensures var st1 := WithInfo(fl, st, i, d, update);
            id in st1.uninited && st1.uninited[id] == st.uninited[id]
  {
    hide Updated, IsNull, OntoUninited;
    if i in st.uninited {
      UninitedElsewhere(st, i, d, update, id);
    }
  }

  lemma UninitedElsewhere(st: State, i: Id, d: Data, update: bool, id: Id)
    requires i != id && id in st.uninited && i in st.uninited
    ensures var st1 := OntoUninited(st, i, d, update);
            id in st1.uninited && st1.uninited[id] == st.uninited[id]
  {
    hide Updated;
  }

  lemma PidsKeepUninitedAge(fl: Flags, st: State, i: Id, gone: seq<int>, id: Id)
    requires Good(fl, st) && Lookup(st, id).Uninited?
    requires Lookup(WithoutPids(st, i, gone), id).Uninited?
    ensures WithoutPids(st, i, gone).uninited[id].age == st.uninited[id].age
  {
    hide WithoutPids, Good;
    PidsOnly(fl, st, i, gone, id);
  }

  lemma WithoutKeepsUninitedAge(fl: Flags, st: State, i: Id, id: Id)
    requires Good(fl, st) && Lookup(st, id).Uninited?
    requires Lookup(Without(st, i), id).Uninited?
    ensures Without(st, i).uninited[id].age == st.uninited[id].age
  {
  }

  lemma MessageKeepsUninitedAge(fl: Flags, st: State, text: string, id: Id)
    requires Good(fl, st)
    requires Lookup(st, id).Uninited? && Lookup(WithMessage(fl, st, text), id).Uninited?
    ensures WithMessage(fl, st, text).uninited[id].age == st.uninited[id].age
  {
    hide WithInfo, WithoutPids, Without, ReadMessage, Good, Lookup;
    match ReadMessage(text)
    case NewInfo(i, d) => InfoKeepsUninitedAge(fl, st, i, d, false, id);
    case ChangeInfo(i, d) => InfoKeepsUninitedAge(fl, st, i, d, true, id);
    case RemoveInfo(i, d) =>
      if d.pids == [] {
        WithoutKeepsUninitedAge(fl, st, i, id);
      } else if !IsNull(i) {
        PidsKeepUninitedAge(fl, st, i, d.pids, id);
      } else if PidMatches(st.startups, d.pids[0], d.hostname) != {} {
        PidsKeepUninitedAge(fl, st, Least(PidMatches(st.startups, d.pids[0], d.hostname)), d.pids, id);
      }
    case NoInfo =>
  }

  lemma StepKeepsUninitedAge(fl: Flags, st: State, op: Op, id: Id)
    requires Good(fl, st) && (op.Tick? ==> op.env == None)
    requires Lookup(st, id).Uninited? && Lookup(After(fl, st, op), id).Uninited?
    ensures After(fl, st, op).uninited[id].age
            == st.uninited[id].age + if op.Tick? then 1 else 0
    ensures op.Tick? ==> st.uninited[id].age + 1 < 20 * st.timeout
  {
    hide WithMessage, CleanedUp, Farewells, Matches, Verdict, Distinct, Expired, Aged, NonCompliant;
    match op
    case Message(text) => MessageKeepsUninitedAge(fl, st, text, id);
    case WindowAdded(w) =>
    case CheckWindow(w) =>
    case Tick(env) =>
      TickOnTable(st.uninited, st.timeout, id);
      CleanedUpUninited(st, true, env);
    case SetTimeout(_) =>
    case CleanupNoAge(env) => CleanedUpUninited(st, false, env);
  }

  lemma CleanedUpUninited(st: State, age: bool, env: Option<UInt>)
    ensures var c := if age then Aged(st.uninited) else st.uninited;
            CleanedUp(st, age, env).uninited == c - Expired(c, st.timeout, env)
  {
  }

  /** However many `change:` messages arrive, an entry that never gets its `new:` message is
      dropped before it has seen 20 timeouts of ticks: only ticks move its age. */
  lemma {:induction false} UninitedIsDropped(fl: Flags, st: State, ops: seq<Op>, id: Id)
    requires Good(fl, st) && StaysUninited(fl, st, ops, id)
    ensures Lookup(Run(fl, st, ops), id).Uninited?
    ensures Run(fl, st, ops).uninited[id].age == st.uninited[id].age + Ticks(ops)
    ensures Ticks(ops) > 0 ==> st.uninited[id].age + Ticks(ops) < 20 * st.timeout
    decreases |ops|
  {
    hide After, Good;
    if ops != [] {
      var st1 := After(fl, st, ops[0]);
      AfterKeepsGood(fl, st, ops[0]);
      StepKeepsUninitedAge(fl, st, ops[0], id);
      UninitedIsDropped(fl, st1, ops[1..], id);
    }
  }

  // ---------------------------------------------------------------- removing PIDs

  /** The entry at a place with other PIDs. */
  function WithPidsAt(p: Place, pids: seq<int>): Place
    requires p != Absent
  {
    match p
    case Announced(e) => Announced(e.(data := e.data.(pids := pids)))
    case Quiet(e) => Quiet(e.(data := e.data.(pids := pids)))
    case Uninited(e) => Uninited(e.(data := e.data.(pids := pids)))
  }

  /** The place of an entry that loses PIDs. */
  function AfterLosing(p: Place, gone: seq<int>): Place {
    if p == Absent then Absent
    else
      var left := Remaining(p.entry.data.pids, gone);
      if left == [] then Absent else WithPidsAt(p, left)
  }

  lemma DropsOnly(st: State, id: Id, gone: seq<int>, other: Id)
    ensures var p, st1 := Lookup(st, id), WithDroppedPids(st, id, gone);
            && (other != id || p == Absent ==> Lookup(st1, other) == Lookup(st, other))
            && (p != Absent ==> Lookup(st1, id) == WithPidsAt(p, Remaining(p.entry.data.pids, gone)))
    ensures InOneMap(st, id) ==> InOneMap(WithDroppedPids(st, id, gone), id)
  {
    hide Remaining;
  }

  lemma WithoutOnly(st: State, id: Id, other: Id)
    requires InOneMap(st, id)
    ensures Lookup(Without(st, id), other) == if other == id then Absent else Lookup(st, other)
  {
  }

  lemma PidsOnly(fl: Flags, st: State, id: Id, gone: seq<int>, other: Id)
    requires Good(fl, st)
    ensures Lookup(WithoutPids(st, id, gone), other)
            == if other == id then AfterLosing(Lookup(st, id), gone) else Lookup(st, other)
  {
    hide Remaining, Good, InOneMap, WithDroppedPids, Without;
    GoodIsInOneMap(fl, st, id);
    DropsOnly(st, id, gone, other);
    WithoutOnly(WithDroppedPids(st, id, gone), id, other);
  }

  /** A `remove:` message with PIDs leaves the entry it names where it is, with its other PIDs
      in order, and drops it exactly when none is left. No other entry changes. */
  lemma PidRemoval(fl: Flags, st: State, text: string, id: Id, d: Data, other: Id)
    requires Good(fl, st) && ReadMessage(text) == RemoveInfo(id, d) && d.pids != [] && !IsNull(id)
    ensures Lookup(After(fl, st, Message(text)), other)
            == if other == id then AfterLosing(Lookup(st, id), d.pids) else Lookup(st, other)
  {
    hide ReadMessage, WithoutPids, Lookup, Good, IsNull, AfterLosing;
    PidsOnly(fl, st, id, d.pids, other);
  }

  /** A walk in key order stops at the first hit. */
  lemma FirstMatch(t: Table, pid: int, hostname: string, id: Id)
    ensures IsLeast(id, PidMatches(t, pid, hostname))
            <==> id in t && HasPidOn(t[id], pid, hostname)
                 && forall j :: j in t && Less(j, id) ==> !HasPidOn(t[j], pid, hostname)
  {
    hide HasPidOn, Less;
    var found := PidMatches(t, pid, hostname);
    forall j ensures !(Less(j, id) && Less(id, j)) && (j == id || Less(j, id) || Less(id, j)) && !Less(j, j) {
      LessTotal(j, id);
      LessTotal(j, j);
    }
    assert id in t && HasPidOn(t[id], pid, hostname) <==> id in found;
  }

  /** The lowest-keyed announced entry with the hostname and the first PID of a message. */
  predicate FirstOnHost(st: State, d: Data, id: Id)
    requires d.pids != []
  {
    && id in st.startups && HasPidOn(st.startups[id], d.pids[0], d.hostname)
    && forall j :: j in st.startups && Less(j, id) ==> !HasPidOn(st.startups[j], d.pids[0], d.hostname)
  }

  lemma AnyPidsOnly(fl: Flags, st: State, d: Data, id: Id)
    requires Good(fl, st) && d.pids != []
    ensures Lookup(WithoutAnyPids(st, d), id)
            == if FirstOnHost(st, d, id) then AfterLosing(Lookup(st, id), d.pids) else Lookup(st, id)
  {
    hide WithoutPids, Less, HasPidOn, Lookup, AfterLosing, Good, PidMatches;
    FirstMatch(st.startups, d.pids[0], d.hostname, id);
    var hits := PidMatches(st.startups, d.pids[0], d.hostname);
    if hits != {} {
      var k := Least(hits);
      PidsOnly(fl, st, k, d.pids, id);
      if k != id {
        NotLeast(hits, k, id);
      }
    }
  }

  lemma NotLeast(s: set<Id>, k: Id, other: Id)
    requires IsLeast(k, s) && other != k
    ensures !IsLeast(other, s)
  {
    LessTotal(k, other);
  }

  /** Without an id, a `remove:` message with PIDs affects one entry at most: the lowest-keyed
      announced one that has the message's hostname and first PID. It loses all the PIDs. */
  lemma AnonymousPidRemoval(fl: Flags, st: State, text: string, id: Id, d: Data, other: Id)
    requires Good(fl, st) && ReadMessage(text) == RemoveInfo(id, d) && d.pids != [] && IsNull(id)
    ensures Lookup(After(fl, st, Message(text)), other)
            == if FirstOnHost(st, d, other) then AfterLosing(Lookup(st, other), d.pids) else Lookup(st, other)
  {
    hide ReadMessage, WithoutAnyPids, Lookup, Good, IsNull, AfterLosing, FirstOnHost;
    AnyPidsOnly(fl, st, d, other);
  }

  // ---------------------------------------------------------------- the stored record

  /** The record of a `new:` or `change:` message about an id. */
  function InfoFor(op: Op, id: Id): Option<Data> {
    if !op.Message? then None
    else
      match ReadMessage(op.text)
      case NewInfo(i, d) => if i == id then Some(d) else None
      case ChangeInfo(i, d) => if i == id then Some(d) else None
      case _ => None
  }

  /** The records that a run brings for an id, in order. */
  function Records(ops: seq<Op>, id: Id): seq<Data> {
    if ops == [] then []
    else (match InfoFor(ops[0], id) case Some(d) => [d] case None => []) + Records(ops[1..], id)
  }

  predicate IsRemoval(op: Op) {
    op.Message? && ReadMessage(op.text).RemoveInfo?
  }

  /** A run in which an entry stays, in whatever map, and loses no PID. */
  ghost predicate Kept(fl: Flags, st: State, ops: seq<Op>, id: Id)
    decreases |ops|
  {
    && Lookup(st, id) != Absent
    && (ops == []
        || (var st1 := After(fl, st, ops[0]);
            && Kept(fl, st1, ops[1..], id)
            && (IsRemoval(ops[0]) ==>
                  Lookup(st1, id).entry.data.pids == Lookup(st, id).entry.data.pids)))
  }

  /** An id is in one map at most. */
  predicate InOneMap(st: State, id: Id) {
    && (id in st.startups ==> id !in st.silent && id !in st.uninited)
    && (id in st.silent ==> id !in st.uninited)
  }

  lemma GoodIsInOneMap(fl: Flags, st: State, id: Id)
    requires Good(fl, st)
    ensures InOneMap(st, id)
  {
    hide GoodTable;
  }

  /** What a message about the id i does to the entry of id. */
  predicate Merged(st: State, st1: State, i: Id, d: Data, id: Id) {
    && Lookup(st, id) != Absent && Lookup(st1, id) != Absent
    && Lookup(st1, id).entry.data == if i == id then Updated(Lookup(st, id).entry.data, d)
                                     else Lookup(st, id).entry.data
  }

  lemma AnnouncedOntoEntry(fl: Flags, st: State, i: Id, d: Data, id: Id)
    requires InOneMap(st, i) && i in st.startups && Lookup(st, id) != Absent
    ensures Merged(st, OntoAnnounced(fl, st, i, d), i, d, id)
  {
    hide Updated;
  }

  lemma SilentOntoEntry(st: State, i: Id, d: Data, id: Id)
    requires InOneMap(st, i) && i in st.silent && Lookup(st, id) != Absent
    ensures Merged(st, OntoSilent(st, i, d), i, d, id)
  {
    hide Updated;
  }

  lemma UninitedOntoEntry(st: State, i: Id, d: Data, update: bool, id: Id)
    requires InOneMap(st, i) && i in st.uninited && Lookup(st, id) != Absent
    ensures Merged(st, OntoUninited(st, i, d, update), i, d, id)
  {
    hide Updated;
  }

  lemma StoredOffEntry(fl: Flags, st: State, i: Id, d: Data, update: bool, id: Id)
    requires Lookup(st, i) == Absent && Lookup(st, id) != Absent
    ensures Merged(st, Stored(fl, st, i, d, update), i, d, id)
  {
    hide Updated;
  }

  lemma PresentIsReal(fl: Flags, st: State, id: Id)
    requires Good(fl, st) && Lookup(st, id) != Absent
    ensures !IsNull(id)
  {
    hide IsNull, Distinct;
  }

  lemma InfoOntoEntry(fl: Flags, st: State, i: Id, d: Data, update: bool, id: Id)
    requires Good(fl, st) && Lookup(st, id) != Absent
    ensures Merged(st, WithInfo(fl, st, i, d, update), i, d, id)
  {
    hide Updated, Good, IsNull, OntoAnnounced, OntoSilent, OntoUninited, Stored, InOneMap;
    GoodIsInOneMap(fl, st, i);
    PresentIsReal(fl, st, id);
    if i in st.startups {
      AnnouncedOntoEntry(fl, st, i, d, id);
    } else if i in st.silent {
      SilentOntoEntry(st, i, d, id);
    } else if i in st.uninited {
      UninitedOntoEntry(st, i, d, update, id);
    } else {
      StoredOffEntry(fl, st, i, d, update, id);
    }
  }

  /** An entry that is left after losing PIDs only differs in them. */
  lemma PidsOffEntry(fl: Flags, st: State, i: Id, gone: seq<int>, id: Id)
    requires Good(fl, st) && Lookup(st, id) != Absent && Lookup(WithoutPids(st, i, gone), id) != Absent
    ensures Lookup(WithoutPids(st, i, gone), id).entry.data
            == Lookup(st, id).entry.data.(pids := Lookup(WithoutPids(st, i, gone), id).entry.data.pids)
  {
    PidsOnly(fl, st, i, gone, id);
    hide WithoutPids, Lookup, Good, Remaining;
  }

  lemma RemovedOffEntry(fl: Flags, st: State, i: Id, id: Id)
    requires Good(fl, st) && Lookup(st, id) != Absent && Lookup(Without(st, i), id) != Absent
    ensures Lookup(Without(st, i), id).entry.data == Lookup(st, id).entry.data
  {
    hide GoodTable;
  }

  lemma RemovalOffEntry(fl: Flags, st: State, i: Id, d: Data, id: Id)
    requires Good(fl, st) && Lookup(st, id) != Absent
    requires var p := Lookup(WithoutInfo(st, i, d), id);
             p != Absent && p.entry.data.pids == Lookup(st, id).entry.data.pids
    ensures Lookup(WithoutInfo(st, i, d), id).entry.data == Lookup(st, id).entry.data
  {
    hide Good, Lookup, WithoutPids, Without, IsNull, PidMatches;
    if d.pids == [] {
      RemovedOffEntry(fl, st, i, id);
    } else if !IsNull(i) {
      PidsOffEntry(fl, st, i, d.pids, id);
    } else if PidMatches(st.startups, d.pids[0], d.hostname) != {} {
      PidsOffEntry(fl, st, Least(PidMatches(st.startups, d.pids[0], d.hostname)), d.pids, id);
    }
  }

  lemma MessageOntoEntry(fl: Flags, st: State, text: string, id: Id)
    requires Good(fl, st) && Lookup(st, id) != Absent && Lookup(WithMessage(fl, st, text), id) != Absent
    requires IsRemoval(Message(text)) ==>
               Lookup(WithMessage(fl, st, text), id).entry.data.pids == Lookup(st, id).entry.data.pids
    ensures Lookup(WithMessage(fl, st, text), id).entry.data
            == match InfoFor(Message(text), id)
               case Some(d) => Updated(Lookup(st, id).entry.data, d)
               case None => Lookup(st, id).entry.data
  {
    hide Good, Lookup, WithInfo, WithoutInfo, ReadMessage, Updated;
    match ReadMessage(text)
    case NewInfo(i, d) => InfoOntoEntry(fl, st, i, d, false, id);
    case ChangeInfo(i, d) => InfoOntoEntry(fl, st, i, d, true, id);
    case RemoveInfo(i, d) => RemovalOffEntry(fl, st, i, d, id);
    case NoInfo =>
  }

  /** The entry of an id is gone or still holds the same record. */
  predicate GoneOrSame(st: State, st1: State, id: Id) {
    Lookup(st1, id) == Absent
    || (Lookup(st, id) != Absent && Lookup(st1, id).entry.data == Lookup(st, id).entry.data)
  }

  lemma ManyOffEntry(st: State, ids: set<Id>, id: Id)
    requires ids <= st.startups.Keys && InOneMap(st, id)
    ensures GoneOrSame(st, WithoutAll(st, ids), id) && InOneMap(WithoutAll(st, ids), id)
  {
    hide Farewells;
  }

  lemma CheckOffEntry(st: State, w: WindowInfo, id: Id)
    requires InOneMap(st, id)
    ensures GoneOrSame(st, AfterCheck(st, w), id) && InOneMap(AfterCheck(st, w), id)
  {
    MatchesAreStartups(st.startups, w);
    hide Lookup, Matches, WithoutAll, InOneMap;
    if AfterCheck(st, w) != st {
      ManyOffEntry(st, {Least(Matches(st.startups, w))}, id);
    }
  }

  lemma WindowOffEntry(fl: Flags, st: State, w: WindowInfo, id: Id)
    requires Good(fl, st) && Lookup(st, id) != Absent
    ensures GoneOrSame(st, AfterCheck(st, w), id) && GoneOrSame(st, AfterWindow(fl, st, w), id)
  {
    hide Lookup, Good, Matches, Verdict, AfterCheck, WithoutAll, InOneMap;
    GoodIsInOneMap(fl, st, id);
    CheckOffEntry(st, w, id);
    var st1 := AfterCheck(st, w);
    ManyOffEntry(st1, NonCompliant(st1.startups), id);
  }

  lemma CleanOffEntry(fl: Flags, st: State, age: bool, env: Option<UInt>, id: Id)
    requires Good(fl, st) && Lookup(st, id) != Absent
    ensures Lookup(CleanedUp(st, age, env), id) != Absent ==>
              Lookup(CleanedUp(st, age, env), id).entry.data == Lookup(st, id).entry.data
  {
    hide GoodTable, Farewells, Limit;
  }

  /** A step that leaves an entry in place merges the record it brings, if any. */
  lemma StepOntoEntry(fl: Flags, st: State, op: Op, id: Id)
    requires Good(fl, st) && Lookup(st, id) != Absent && Lookup(After(fl, st, op), id) != Absent
    requires IsRemoval(op) ==> Lookup(After(fl, st, op), id).entry.data.pids == Lookup(st, id).entry.data.pids
    ensures Lookup(After(fl, st, op), id).entry.data
            == match InfoFor(op, id)
               case Some(d) => Updated(Lookup(st, id).entry.data, d)
               case None => Lookup(st, id).entry.data
  {
    hide Good, WithMessage, CleanedUp, AfterCheck, AfterWindow, Updated;
    match op
    case Message(text) => MessageOntoEntry(fl, st, text, id);
    case WindowAdded(w) => WindowOffEntry(fl, st, w, id);
    case CheckWindow(w) => WindowOffEntry(fl, st, w, id);
    case Tick(env) => CleanOffEntry(fl, st, true, env, id);
    case SetTimeout(_) =>
    case CleanupNoAge(env) => CleanOffEntry(fl, st, false, env, id);
  }

  /** While an entry is kept, its record is the first one updated by all later ones. */
  lemma {:induction false} KeptRecord(fl: Flags, st: State, ops: seq<Op>, id: Id)
    requires Good(fl, st) && Kept(fl, st, ops, id)
    ensures Lookup(Run(fl, st, ops), id) != Absent
    ensures Lookup(Run(fl, st, ops), id).entry.data
            == UpdatedAll(Lookup(st, id).entry.data, Records(ops, id))
    decreases |ops|
  {
    hide After, Good, Lookup, InfoFor, IsRemoval, Updated;
    if ops != [] {
      var st1 := After(fl, st, ops[0]);
      AfterKeepsGood(fl, st, ops[0]);
      KeptPresent(fl, st1, ops[1..], id);
      StepOntoEntry(fl, st, ops[0], id);
      KeptRecord(fl, st1, ops[1..], id);
      UpdatedByFirst(Lookup(st, id).entry.data, InfoFor(ops[0], id), Records(ops[1..], id));
    }
  }

  lemma KeptPresent(fl: Flags, st: State, ops: seq<Op>, id: Id)
    requires Kept(fl, st, ops, id)
    ensures Lookup(st, id) != Absent
  {
  }

  lemma UpdatedByFirst(d: Data, u: Option<Data>, us: seq<Data>)
    ensures u == None ==> UpdatedAll(d, [] + us) == UpdatedAll(d, us)
    ensures u.Some? ==> UpdatedAll(d, [u.value] + us) == UpdatedAll(Updated(d, u.value), us)
  {
    hide Updated;
    assert [] + us == us;
    if u.Some? {
      assert ([u.value] + us)[1..] == us;
    }
  }

  /** A run that begins with the first message about an id and then keeps its entry. */
  ghost predicate FirstSeen(fl: Flags, st: State, ops: seq<Op>, id: Id) {
    && ops != [] && Lookup(st, id) == Absent && !IsNull(id) && InfoFor(ops[0], id).Some?
    && Kept(fl, After(fl, st, ops[0]), ops[1..], id)
  }

  lemma FirstRecord(fl: Flags, st: State, op: Op, id: Id)
    requires Lookup(st, id) == Absent && !IsNull(id) && InfoFor(op, id).Some?
    ensures Lookup(After(fl, st, op), id) != Absent
    ensures Lookup(After(fl, st, op), id).entry.data == InfoFor(op, id).value
  {
    hide ReadMessage;
  }

  /** The record that the registry stores for an id is that of its first message, updated by
      those of all later ones. */
  lemma StoredRecord(fl: Flags, st: State, ops: seq<Op>, id: Id)
    requires Good(fl, st) && FirstSeen(fl, st, ops, id)
    ensures Lookup(Run(fl, st, ops), id) != Absent
    ensures var us := Records(ops, id);
            us != [] && Lookup(Run(fl, st, ops), id).entry.data == UpdatedAll(us[0], us[1..])
  {
    hide After, Good, Lookup, InfoFor, Kept, UpdatedAll, IsNull;
    FirstRecord(fl, st, ops[0], id);
    AfterKeepsGood(fl, st, ops[0]);
    KeptRecord(fl, After(fl, st, ops[0]), ops[1..], id);
    var d := InfoFor(ops[0], id).value;
    assert Records(ops, id) == [d] + Records(ops[1..], id);
    assert ([d] + Records(ops[1..], id))[1..] == Records(ops[1..], id);
  }

  /** So each stored field is the first value that a message set, or the last one, depending on
      the field. */
  lemma RegistryField(fl: Flags, st: State, ops: seq<Op>, id: Id, f: Field)
    requires Good(fl, st) && FirstSeen(fl, st, ops, id)
    ensures Lookup(Run(fl, st, ops), id) != Absent
    ensures var v := Get(Lookup(Run(fl, st, ops), id).entry.data, f);
            if FirstWins(f) then IsFirstSet(Records(ops, id), f, v) else IsLastSet(Records(ops, id), f, v)
  {
    hide Good, FirstSeen, Lookup, Run, Records, UpdatedAll, IsFirstSet, IsLastSet, Get;
    StoredRecord(fl, st, ops, id);
    StoredField(Records(ops, id), f);
  }

  /** The Xinerama screen is stored only if the first message sets it; then the last value wins. */
  lemma RegistryXinerama(fl: Flags, st: State, ops: seq<Op>, id: Id)
    requires Good(fl, st) && FirstSeen(fl, st, ops, id)
    ensures Lookup(Run(fl, st, ops), id) != Absent && Records(ops, id) != []
    ensures var us := Records(ops, id);
            var x := Lookup(Run(fl, st, ops), id).entry.data.xinerama;
            if us[0].xinerama == -1 then x == -1
            else Xineramas(us) != [] && x == Xineramas(us)[|Xineramas(us)| - 1]
  {
    hide Good, FirstSeen, Lookup, Run, Records, UpdatedAll, Xineramas;
    StoredRecord(fl, st, ops, id);
    StoredXinerama(Records(ops, id));
  }

  /** And the stored PID list names every PID of those messages once, in first-seen order. */
  lemma RegistryPids(fl: Flags, st: State, ops: seq<Op>, id: Id, x: int, y: int)
    requires Good(fl, st) && FirstSeen(fl, st, ops, id)
    ensures Lookup(Run(fl, st, ops), id) != Absent
    ensures var pids := Lookup(Run(fl, st, ops), id).entry.data.pids;
            var all := AllPids(Records(ops, id));
            && Distinct(pids)
            && (x in pids <==> x in all)
            && (x in pids && y in pids ==> (Before(pids, x, y) <==> FirstIndex(all, x) < FirstIndex(all, y)))
  {
    FirstPidsDistinct(fl, st, ops, id);
    hide Good, FirstSeen, Lookup, Run, Records, UpdatedAll, AllPids, Before, FirstIndex, Distinct;
    StoredRecord(fl, st, ops, id);
    StoredPids(Records(ops, id), x, y);
  }

  lemma FirstPidsDistinct(fl: Flags, st: State, ops: seq<Op>, id: Id)
    requires ops != [] && InfoFor(ops[0], id).Some?
    ensures Records(ops, id) != [] && Distinct(Records(ops, id)[0].pids)
  {
    ReadMessagePids(ops[0].text);
    hide ReadMessage, Distinct;
  }
}
