/** Which startup a window belongs to: the exact answer of check_startup_internal, in terms of
    the records and of what the server says about the window. */
module StartupWindows {
  import opened Text
  import opened StartupData
  import opened StartupText
  import opened IdOrder
  import opened StartupRegistry
  import opened RegistryRuns

  // ---------------------------------------------------------------- the two kinds of match

  /** The record has the window's process, on the window's host. */
  predicate OfProcess(d: Data, w: WindowInfo) {
    w.pid > 0 && w.clientMachine != "" && w.pid in d.pids && d.hostname == w.clientMachine
  }

  /** Equal up to the case of the letters A to Z. */
  predicate SameLetter(a: char, b: char) {
    a == b || ('A' <= a <= 'Z' && b as int == a as int + 32) || ('A' <= b <= 'Z' && a as int == b as int + 32)
  }

  predicate SameName(a: string, b: string) {
    |a| == |b| && forall i :: 0 <= i < |a| ==> SameLetter(a[i], b[i])
  }

  /** The record's WMCLASS, or its BIN if there is none, is the window's name or class. */
  predicate OfClass(d: Data, w: WindowInfo) {
    var cls := if d.wmclass == "" || d.wmclass == "0" then d.bin else d.wmclass;
    SameName(cls, w.className) || SameName(cls, w.classClass)
  }

  predicate HasProcess(t: Table, w: WindowInfo) {
    exists id :: id in t && OfProcess(t[id].data, w)
  }

  /** The entry fits the window: by process if any entry does, else by class. */
  predicate Fits(t: Table, w: WindowInfo, id: Id) {
    id in t && if HasProcess(t, w) then OfProcess(t[id].data, w) else OfClass(t[id].data, w)
  }

  /** A window without a startup id takes the fitting startup with the lowest key. */
  ghost predicate Takes(t: Table, w: WindowInfo, id: Id) {
    w.startupId == None && Fits(t, w, id) && forall j :: Fits(t, w, j) ==> j == id || Less(id, j)
  }

  lemma LowerSame(a: char, b: char)
    ensures LowerChar(a) == LowerChar(b) <==> SameLetter(a, b)
  {
  }

  lemma LowerNames(a: string, b: string)
    ensures ToLower(a) == ToLower(b) <==> SameName(a, b)
  {
    forall i | 0 <= i < |a| && i < |b| ensures ToLower(a)[i] == ToLower(b)[i] <==> SameLetter(a[i], b[i]) {
      LowerSame(a[i], b[i]);
    }
    hide LowerChar, SameLetter;
  }

  lemma MatchesFit(t: Table, w: WindowInfo, id: Id)
    ensures id in Matches(t, w) <==> Fits(t, w, id)
  {
    forall j | j in t ensures HasClass(t[j], w.className, w.classClass) <==> OfClass(t[j].data, w) {
      var cls := FindWMClass(t[j].data);
      LowerNames(cls, w.className);
      LowerNames(cls, w.classClass);
      hide ToLower, SameName;
    }
    hide HasClass, OfClass;
    ProcessMatches(t, w);
  }

  lemma ProcessMatches(t: Table, w: WindowInfo)
    ensures w.pid > 0 && w.clientMachine != "" && PidMatches(t, w.pid, w.clientMachine) != {} <==> HasProcess(t, w)
    ensures w.pid > 0 && w.clientMachine != ""
            ==> forall id :: id in PidMatches(t, w.pid, w.clientMachine) <==> id in t && OfProcess(t[id].data, w)
  {
    if id :| id in t && OfProcess(t[id].data, w) {
      assert id in PidMatches(t, w.pid, w.clientMachine);
    }
  }

  lemma LeastTakes(t: Table, w: WindowInfo, id: Id)
    requires w.startupId == None
    ensures Takes(t, w, id) <==> Matches(t, w) != {} && id == Least(Matches(t, w))
  {
    forall j ensures j in Matches(t, w) <==> Fits(t, w, j) {
      MatchesFit(t, w, j);
    }
    hide Matches, Fits;
    if Matches(t, w) != {} {
      var k := Least(Matches(t, w));
      if Takes(t, w, id) {
        assert IsLeast(id, Matches(t, w));
        LeastIsUnique(id, k, Matches(t, w));
      }
    }
  }

  // ---------------------------------------------------------------- what a check answers and does

  /** The kinds of windows that could be what a startup is waiting for. */
  predicate MayBeAwaited(w: WindowInfo) {
    w.windowType in {Normal, Override, UnknownType, Dialog, Utility} && !w.transientForOther
  }

  /** A window with a startup id: only the id counts, and nothing is removed. */
  lemma CheckById(st: State, w: WindowInfo)
    requires w.startupId.Some?
    ensures var id := w.startupId.value;
            var known := id != "" && id != "0" && id in st.startups;
            && Verdict(st, w) == (if known then Match else NoMatch)
            && Reported(st, w) == (if known then Some(Report(id, st.startups[id].data)) else None)
            && AfterCheck(st, w) == st
  {
  }

  /** A window without a startup id that fits a startup: it is matched with the lowest-keyed one,
      which is reported and leaves, with one Remove signal that carries its record. */
  lemma CheckTakes(st: State, w: WindowInfo, id: Id)
    requires Takes(st.startups, w, id)
    ensures Verdict(st, w) == Match && Reported(st, w) == Some(Report(id, st.startups[id].data))
    ensures AfterCheck(st, w)
            == st.(startups := st.startups - {id}, log := st.log + [RemoveStartup(id, st.startups[id].data)])
  {
    LeastTakes(st.startups, w, id);
    hide Matches, Takes, Fits, Farewells;
    FarewellsOne(st.startups, id);
    assert st.startups != map[] by {
      TakenIsThere(st.startups, w, id);
    }
  }

  lemma TakenIsThere(t: Table, w: WindowInfo, id: Id)
    requires Takes(t, w, id)
    ensures id in t
  {
  }

  /** A window without a startup id that fits none: nothing changes, and it is undetectable if
      startups are waiting and it could be what one of them waits for. */
  lemma CheckTakesNone(st: State, w: WindowInfo)
    requires w.startupId == None && forall id :: !Fits(st.startups, w, id)
    ensures Verdict(st, w) == (if st.startups != map[] && MayBeAwaited(w) then CantDetect else NoMatch)
    ensures Reported(st, w) == None && AfterCheck(st, w) == st
  {
    forall id ensures id !in Matches(st.startups, w) {
      MatchesFit(st.startups, w, id);
    }
    hide Matches, Fits;
    assert Matches(st.startups, w) == {};
  }

  /** Every window without a startup id takes a startup, or none fits it. */
  lemma TakesOrNone(t: Table, w: WindowInfo)
    requires w.startupId == None
    ensures (exists id :: Takes(t, w, id)) <==> exists id :: Fits(t, w, id)
  {
    if id :| Fits(t, w, id) {
      MatchesFit(t, w, id);
      LeastTakes(t, w, Least(Matches(t, w)));
    }
    hide Fits, Matches;
  }

  /** For every window: it is a match if and only if it names an announced startup, or names none
      and some announced startup fits it. */
  lemma MatchExactly(st: State, w: WindowInfo)
    ensures Verdict(st, w) == Match
            <==> match w.startupId
                 case Some(id) => id != "" && id != "0" && id in st.startups
                 case None => exists id :: Fits(st.startups, w, id)
  {
    hide Verdict, Reported, AfterCheck, Fits, Takes;
    if w.startupId.Some? {
      CheckById(st, w);
    } else {
      TakesOrNone(st.startups, w);
      if id :| Takes(st.startups, w, id) {
        CheckTakes(st, w, id);
      } else {
        CheckTakesNone(st, w);
      }
    }
  }

  /** A window is added: if it cannot be detected and CleanOnCantDetect is set, every announced
      startup with WMCLASS "0" goes as well. */
  lemma AddedExactly(fl: Flags, st: State, w: WindowInfo)
    ensures var undetected := w.startupId == None && st.startups != map[] && MayBeAwaited(w)
                              && !exists id :: Fits(st.startups, w, id);
            var st1 := AfterWindow(fl, st, w);
            if undetected && fl.cleanOnCantDetect then
              && (forall id :: id in st1.startups <==> id in st.startups && st.startups[id].data.wmclass != "0")
              && (forall id :: id in st1.startups ==> st1.startups[id] == st.startups[id])
            else st1 == AfterCheck(st, w)
  {
    hide Fits, Takes, Farewells;
    MatchExactly(st, w);
    if w.startupId.Some? {
      CheckById(st, w);
    } else if !exists id :: Fits(st.startups, w, id) {
      CheckTakesNone(st, w);
    }
    hide Verdict, Reported, AfterCheck;
  }

  /** A startup by BIN only, and a window whose class differs from it in case. */
  lemma KonsoleIsFound(d: Data, w: WindowInfo)
    requires d.bin == "konsole" && d.wmclass == "" && w.classClass == "Konsole"
    ensures OfClass(d, w)
  {
    assert "konsole"[1..] == "Konsole"[1..] == "onsole";
    forall i | 0 <= i < 7 ensures SameLetter("konsole"[i], "Konsole"[i]) {
      if i > 0 {
        assert "konsole"[i] == "konsole"[1..][i - 1] && "Konsole"[i] == "Konsole"[1..][i - 1];
      }
    }
  }
}
