/** How ids get into the registry, and how silent startups get announced. */
module StartupEntries {
  import opened Text
  import opened StartupData
  import opened StartupText
  import opened IdOrder
  import opened StartupRegistry
  import opened RegistryRuns

  // ---------------------------------------------------------------- the first message

  /** Where the first message about an id puts it. */
  function Entered(fl: Flags, op: Op, id: Id): Place {
    if !op.Message? || IsNull(id) then Absent
    else
      match ReadMessage(op.text)
      case NewInfo(i, d) =>
        if i != id then Absent
        else if d.silent != Yes || fl.announceSilenceChanges then Announced(Startup(d, 0))
        else Quiet(Startup(d, 0))
      case ChangeInfo(i, d) => if i == id then Uninited(Startup(d, 0)) else Absent
      case _ => Absent
  }

  lemma InfoEnters(fl: Flags, st: State, i: Id, d: Data, update: bool, id: Id)
    requires Lookup(st, id) == Absent
    ensures var announced := d.silent != Yes || fl.announceSilenceChanges;
            Lookup(WithInfo(fl, st, i, d, update), id)
            == if i != id || IsNull(id) then Absent
               else if update then Uninited(Startup(d, 0))
               else if announced then Announced(Startup(d, 0)) else Quiet(Startup(d, 0))
  {
    hide Updated, IsNull;
  }

  lemma RemovalEnters(fl: Flags, st: State, i: Id, d: Data, id: Id)
    requires Good(fl, st) && Lookup(st, id) == Absent
    ensures Lookup(WithoutInfo(st, i, d), id) == Absent
  {
    hide Good, Lookup, WithoutPids, Without, IsNull, FirstOnHost, AfterLosing, WithoutAnyPids;
    if d.pids == [] {
      WithoutEnters(st, i, id);
    } else if !IsNull(i) {
      PidsOnly(fl, st, i, d.pids, id);
      NothingToLose(d.pids);
    } else {
      AnyPidsOnly(fl, st, d, id);
      NothingToLose(d.pids);
    }
  }

  lemma WithoutEnters(st: State, i: Id, id: Id)
    requires Lookup(st, id) == Absent
    ensures Lookup(Without(st, i), id) == Absent
  {
  }

  lemma NothingToLose(gone: seq<int>)
    ensures AfterLosing(Absent, gone) == Absent
  {
  }

  lemma CleanedUpEnters(st: State, age: bool, env: Option<UInt>, id: Id)
    requires Lookup(st, id) == Absent
    ensures Lookup(CleanedUp(st, age, env), id) == Absent
  {
    hide Farewells;
  }

  /** Nothing but the first `new:` or `change:` message about a real id creates an entry, and
      such a message always does: a `new:` an announced or a silent one, a `change:` an entry
      that waits for its `new:`. */
  lemma EntersExactly(fl: Flags, st: State, op: Op, id: Id)
    requires Good(fl, st) && Lookup(st, id) == Absent
    ensures Lookup(After(fl, st, op), id) == Entered(fl, op, id)
  {
    hide ReadMessage, Good, IsNull, WithInfo, WithoutInfo, CleanedUp, Farewells, Matches, Verdict, NonCompliant;
    match op
    case Message(text) =>
      match ReadMessage(text) {
        case NewInfo(i, d) => InfoEnters(fl, st, i, d, false, id);
        case ChangeInfo(i, d) => InfoEnters(fl, st, i, d, true, id);
        case RemoveInfo(i, d) => RemovalEnters(fl, st, i, d, id);
        case NoInfo =>
      }
    case WindowAdded(_) =>
    case CheckWindow(_) =>
    case Tick(env) => CleanedUpEnters(st, true, env, id);
    case SetTimeout(_) =>
    case CleanupNoAge(env) => CleanedUpEnters(st, false, env, id);
  }

  // ---------------------------------------------------------------- silent and yet announced

  /** A silent startup is in the map of announced ones. */
  predicate Shown(st: State, id: Id) {
    id in st.startups && IsSilent(st.startups[id])
  }

  /** A `new:` message completes an entry that only `change:` messages had created, and the
      merged record is silent. */
  predicate Completes(st: State, op: Op, id: Id) {
    op.Message?
    && match ReadMessage(op.text)
       case NewInfo(i, d) => i == id && id in st.uninited && Updated(st.uninited[id].data, d).silent == Yes
       case _ => false
  }

  lemma InfoShows(fl: Flags, st: State, i: Id, d: Data, update: bool, id: Id)
    requires Good(fl, st) && !fl.announceSilenceChanges
    ensures Shown(WithInfo(fl, st, i, d, update), id)
            <==> if i != id then Shown(st, id)
                 else !update && id in st.uninited && Updated(st.uninited[id].data, d).silent == Yes
  {
    hide Updated, Distinct, IsNull;
    if id in st.startups {
      assert id !in st.uninited;
    }
  }

  /** Announced entries only disappear; what stays keeps its silence. */
  predicate Narrowed(st: State, st1: State, id: Id) {
    id in st1.startups ==> id in st.startups && st1.startups[id].data.silent == st.startups[id].data.silent
  }

  lemma WithoutNarrows(st: State, i: Id, id: Id)
    ensures Narrowed(st, Without(st, i), id)
  {
  }

  lemma PidsNarrow(st: State, i: Id, gone: seq<int>, id: Id)
    ensures Narrowed(st, WithoutPids(st, i, gone), id)
  {
    hide Remaining;
  }

  lemma RemovalNarrows(st: State, i: Id, d: Data, id: Id)
    ensures Narrowed(st, WithoutInfo(st, i, d), id)
  {
    hide Narrowed, WithoutPids, Without, IsNull, PidMatches;
    WithoutNarrows(st, i, id);
    PidsNarrow(st, i, d.pids, id);
    if d.pids != [] && PidMatches(st.startups, d.pids[0], d.hostname) != {} {
      PidsNarrow(st, Least(PidMatches(st.startups, d.pids[0], d.hostname)), d.pids, id);
    }
    NarrowedItself(st, id);
  }

  lemma NarrowedItself(st: State, id: Id)
    ensures Narrowed(st, st, id)
  {
  }

  lemma CleanedUpNarrows(st: State, age: bool, env: Option<UInt>, id: Id)
    ensures Narrowed(st, CleanedUp(st, age, env), id)
  {
    hide Farewells;
  }

  /** One step: a silent startup is announced by such a `new:` message alone, and stays so until
      it leaves or the next record for it arrives. */
  lemma StepShows(fl: Flags, st: State, op: Op, id: Id)
    requires Good(fl, st) && !fl.announceSilenceChanges
    ensures Shown(After(fl, st, op), id)
            <==> Completes(st, op, id)
                 || (Shown(st, id) && InfoFor(op, id) == None && id in After(fl, st, op).startups)
  {
    hide ReadMessage, Good, IsNull, WithInfo, WithoutInfo, CleanedUp, Farewells, Matches, Verdict, NonCompliant;
    match op
    case Message(text) =>
      match ReadMessage(text) {
        case NewInfo(i, d) => InfoShows(fl, st, i, d, false, id);
        case ChangeInfo(i, d) => InfoShows(fl, st, i, d, true, id);
        case RemoveInfo(i, d) => RemovalNarrows(st, i, d, id);
        case NoInfo =>
      }
    case WindowAdded(_) =>
    case CheckWindow(_) =>
    case Tick(env) => CleanedUpNarrows(st, true, env, id);
    case SetTimeout(_) =>
    case CleanupNoAge(env) => CleanedUpNarrows(st, false, env, id);
  }

  /** A run in which an id stays announced and gets no further record. */
  ghost predicate StaysAnnounced(fl: Flags, st: State, ops: seq<Op>, id: Id)
    decreases |ops|
  {
    ops == []
    || (var st1 := After(fl, st, ops[0]);
        InfoFor(ops[0], id) == None && id in st1.startups && StaysAnnounced(fl, st1, ops[1..], id))
  }

  /** The last record that the id gets is the `new:` message at position k. */
  ghost predicate CompletedAt(fl: Flags, st: State, ops: seq<Op>, id: Id, k: nat)
    requires k < |ops|
  {
    && Completes(Run(fl, st, ops[..k]), ops[k], id)
    && StaysAnnounced(fl, Run(fl, st, ops[..k + 1]), ops[k + 1..], id)
  }

  lemma CompletedFirst(fl: Flags, st: State, ops: seq<Op>, id: Id)
    requires ops != []
    ensures CompletedAt(fl, st, ops, id, 0)
            <==> Completes(st, ops[0], id) && StaysAnnounced(fl, After(fl, st, ops[0]), ops[1..], id)
  {
    hide Completes, StaysAnnounced, After;
    assert ops[..0] == [] && ops[..1][0] == ops[0] && ops[..1][1..] == [];
    assert Run(fl, st, ops[..1]) == After(fl, st, ops[0]);
  }

  lemma CompletedLater(fl: Flags, st: State, ops: seq<Op>, id: Id, k: nat)
    requires k + 1 < |ops|
    ensures CompletedAt(fl, st, ops, id, k + 1)
            <==> CompletedAt(fl, After(fl, st, ops[0]), ops[1..], id, k)
  {
    hide Completes, StaysAnnounced, After;
    assert ops[..k + 1][1..] == ops[1..][..k];
    assert ops[..k + 2][1..] == ops[1..][..k + 1];
    assert ops[k + 2..] == ops[1..][k + 1..];
  }

  /** Over every run: without AnnounceSilenceChanges, a silent startup is among the announced
      ones exactly when the last record about it was a `new:` message that completed an entry
      created by `change:` messages, or when it was there from the beginning. */
  lemma {:induction false} SilentAnnouncedExactly(fl: Flags, st: State, ops: seq<Op>, id: Id)
    requires Good(fl, st) && !fl.announceSilenceChanges
    ensures Shown(Run(fl, st, ops), id)
            <==> (Shown(st, id) && StaysAnnounced(fl, st, ops, id))
                 || exists k: nat :: k < |ops| && CompletedAt(fl, st, ops, id, k)
    decreases |ops|
  {
    hide Shown, Completes, CompletedAt, After, Good;
    if ops != [] {
      var st1, rest := After(fl, st, ops[0]), ops[1..];
      AfterKeepsGood(fl, st, ops[0]);
      StepShows(fl, st, ops[0], id);
      SilentAnnouncedExactly(fl, st1, rest, id);
      CompletedFirst(fl, st, ops, id);
      forall k: nat | k < |rest|
        ensures CompletedAt(fl, st, ops, id, k + 1) <==> CompletedAt(fl, st1, rest, id, k)
      {
        CompletedLater(fl, st, ops, id, k);
      }
      if k: nat :| k < |ops| && CompletedAt(fl, st, ops, id, k) {
        if k > 0 {
          assert CompletedAt(fl, st1, rest, id, k - 1);
        }
      }
    }
  }

  lemma MergedSilence(a: Data, b: Data)
    requires b.silent == Yes
    ensures Updated(a, b).silent == Yes
  {
  }

  lemma LookupUninited(st: State, id: Id, e: Startup)
    requires Lookup(st, id) == Uninited(e)
    ensures id in st.uninited && st.uninited[id] == e
  {
  }

  /** A `change:` and a silent `new:` after it, from the start. */
  lemma ChangeThenNew(fl: Flags, change: string, new_: string, id: Id, a: Data, b: Data)
    requires !fl.announceSilenceChanges && !IsNull(id) && b.silent == Yes
    requires ReadMessage(change) == ChangeInfo(id, a) && ReadMessage(new_) == NewInfo(id, b)
    ensures Lookup(Run(fl, START, [Message(change)]), id) == Uninited(Startup(a, 0))
    ensures Shown(Run(fl, START, [Message(change), Message(new_)]), id)
  {
    hide ReadMessage, IsNull, Updated, After, Shown, Good;
    var st1 := After(fl, START, Message(change));
    assert Lookup(START, id) == Absent;
    StartIsGood(fl);
    EntersExactly(fl, START, Message(change), id);
    LookupUninited(st1, id, Startup(a, 0));
    AfterKeepsGood(fl, START, Message(change));
    MergedSilence(a, b);
    StepShows(fl, st1, Message(new_), id);
    RunOfTwo(fl, START, Message(change), Message(new_));
  }

  lemma RunOfTwo(fl: Flags, st: State, a: Op, b: Op)
    ensures Run(fl, st, [a]) == After(fl, st, a)
    ensures Run(fl, st, [a, b]) == After(fl, After(fl, st, a), b)
  {
    hide After;
    assert [a][1..] == [] && [a, b][1..] == [b] && [b][1..] == [];
    assert Run(fl, After(fl, st, a), [b]) == Run(fl, After(fl, After(fl, st, a), b), []);
  }
}
