/** A startup notification from the sender's record to the receiver's registry: printing,
    fragmenting, interleaving, reassembling, tokenising, parsing and storing. */
module EndToEnd {
  import opened Text
  import opened Fields
  import opened StartupData
  import opened StartupText
  import X = XMessages
  import R = StartupRegistry
  import RegistryRuns
  import StartupEntries

  predicate NoNul(s: string) {
    '\0' !in s
  }

  predicate NulFree(d: Data) {
    NoNul(d.bin) && NoNul(d.name) && NoNul(d.description) && NoNul(d.icon) && NoNul(d.wmclass)
    && NoNul(d.hostname) && NoNul(d.applicationId)
  }

  lemma {:induction false} EscapedNoNul(s: string)
    requires NoNul(s)
    ensures NoNul(Escaped(s))
  {
    if s != [] {
      EscapedNoNul(s[1..]);
    }
  }

  lemma BodyNoNul(e: Entry)
    requires NoNul(e.value)
    ensures NoNul(Body(e))
  {
    EscapedNoNul(e.value);
    KeyFront(e.key);
    FrontNoNul(e.key);
  }

  lemma FrontNoNul(k: Key)
    ensures NoNul(Front(k))
  {
    var s := KeyText(k);
    assert forall i :: 0 <= i < |s| ==> 'A' <= s[i] <= 'Z' || s[i] == '_';
  }

  lemma {:induction false} RenderNoNul(es: seq<Entry>)
    requires forall e :: e in es ==> NoNul(e.value)
    ensures NoNul(Render(es))
  {
    hide Body;
    if es != [] {
      assert es[0] in es;
      BodyNoNul(es[0]);
      RenderNoNul(es[1..]);
    }
  }

  lemma NumberNoNul(n: int)
    ensures NoNul(IntText(n))
  {
  }

  lemma {:induction false} PidsNoNul(pids: seq<int>)
    ensures forall e :: e in PidEntries(pids) ==> NoNul(e.value)
  {
    hide IntText;
    if pids != [] {
      NumberNoNul(pids[0]);
      PidsNoNul(pids[1..]);
    }
  }

  predicate AllNoNul(es: seq<Entry>) {
    forall e :: e in es ==> NoNul(e.value)
  }

  lemma FourNoNul(a: seq<Entry>, b: seq<Entry>, c: seq<Entry>, e: seq<Entry>)
    requires AllNoNul(a) && AllNoNul(b) && AllNoNul(c) && AllNoNul(e)
    ensures AllNoNul(a + b + c + e)
  {
  }

  lemma OptNoNul(present: bool, e: Entry)
    requires NoNul(e.value)
    ensures AllNoNul(Opt(present, e))
  {
  }

  lemma NumberOptNoNul(present: bool, k: Key, n: int)
    ensures AllNoNul(Opt(present, NumberEntry(k, n)))
  {
    NumberNoNul(n);
  }

  lemma FrontEntriesNoNul(d: Data)
    requires NulFree(d)
    ensures AllNoNul(FrontEntries(d))
  {
    hide AllNoNul, NoNul, Opt;
    OptNoNul(d.bin != "", EscapedEntry(BinKey, d.bin));
    OptNoNul(d.name != "", EscapedEntry(NameKey, d.name));
    OptNoNul(d.description != "", EscapedEntry(DescriptionKey, d.description));
    OptNoNul(d.icon != "", QuotedEntry(IconKey, d.icon));
    FourNoNul(Opt(d.bin != "", EscapedEntry(BinKey, d.bin)),
      Opt(d.name != "", EscapedEntry(NameKey, d.name)),
      Opt(d.description != "", EscapedEntry(DescriptionKey, d.description)),
      Opt(d.icon != "", QuotedEntry(IconKey, d.icon)));
  }

  lemma MiddleEntriesNoNul(d: Data)
    requires NulFree(d)
    ensures AllNoNul(MiddleEntries(d))
  {
    PidsNoNul(d.pids);
    hide NoNul, Opt, PidEntries;
    NumberOptNoNul(d.desktop != 0, DesktopKey, WireDesktop(d.desktop));
    OptNoNul(d.wmclass != "", QuotedEntry(WmClassKey, d.wmclass));
    OptNoNul(d.hostname != "", BareEntry(HostnameKey, d.hostname));
    FourNoNul(Opt(d.desktop != 0, NumberEntry(DesktopKey, WireDesktop(d.desktop))),
      Opt(d.wmclass != "", QuotedEntry(WmClassKey, d.wmclass)),
      Opt(d.hostname != "", BareEntry(HostnameKey, d.hostname)), PidEntries(d.pids));
  }

  lemma BackEntriesNoNul(d: Data)
    requires NulFree(d)
    ensures AllNoNul(BackEntries(d))
  {
    hide AllNoNul, NoNul, Opt;
    NumberOptNoNul(d.silent != Unknown, SilentKey, SilentFlag(d.silent));
    NumberOptNoNul(d.screen != -1, ScreenKey, d.screen);
    NumberOptNoNul(d.xinerama != -1, XineramaKey, d.xinerama);
    OptNoNul(d.applicationId != "", QuotedEntry(ApplicationIdKey, d.applicationId));
    FourNoNul(Opt(d.silent != Unknown, NumberEntry(SilentKey, SilentFlag(d.silent))),
      Opt(d.screen != -1, NumberEntry(ScreenKey, d.screen)),
      Opt(d.xinerama != -1, NumberEntry(XineramaKey, d.xinerama)),
      Opt(d.applicationId != "", QuotedEntry(ApplicationIdKey, d.applicationId)));
  }

  lemma DataNoNul(d: Data, screen: int)
    requires NulFree(d)
    ensures NoNul(Render(DataEntries(d))) && NoNul(Render(RequiredEntries(d, screen)))
  {
    hide Render, FrontEntries, MiddleEntries, BackEntries, NoNul, Opt;
    FrontEntriesNoNul(d);
    MiddleEntriesNoNul(d);
    BackEntriesNoNul(d);
    DefaultNoNul(d);
    OptNoNul(d.name == "", EscapedEntry(NameKey, DefaultName(d)));
    NumberOptNoNul(d.screen == -1, ScreenKey, screen);
    RenderNoNul(DataEntries(d));
    RenderNoNul(RequiredEntries(d, screen));
  }

  lemma DefaultNoNul(d: Data)
    requires NulFree(d)
    ensures NoNul(DefaultName(d))
  {
  }

  lemma MessageNoNul(id: string, d: Data, screen: int)
    requires NoNul(id) && NulFree(d)
    ensures NoNul(NewMessage(id, d, screen)) && NoNul(ChangeMessage(id, d)) && NoNul(FinishDataMessage(id, d))
  {
    hide DataEntries, RequiredEntries, Escaped;
    EscapedNoNul(id);
    DataNoNul(d, screen);
  }

  lemma FinishNoNul(id: string)
    requires NoNul(id)
    ensures NoNul(FinishMessage(id))
  {
    hide Escaped;
    EscapedNoNul(id);
  }

  /** Collapsing white space never makes a real id null. */
  lemma CollapsedIdIsReal(id: string)
    ensures IsNull(Collapse(id)) <==> IsNull(id)
  {
    CollapseEmpty(id);
    if Collapse(id) == "0" {
      SqueezeReflects(id);
      SqueezeNoSpace(id, false);
    } else if id == "0" {
      SqueezeNoSpace(id, false);
    }
  }

  /** The texts that the messages of a run bring, in order. */
  function TextsIn(ops: seq<RegistryRuns.Op>): seq<string> {
    if ops == [] then []
    else (if ops[0].Message? then [ops[0].text] else []) + TextsIn(ops[1..])
  }

  function TextsDelivered(ds: seq<X.Delivery>): seq<string> {
    if ds == [] then [] else [ds[0].text] + TextsDelivered(ds[1..])
  }

  /** A run of the registry that is fed with what is delivered: each delivery in its order, and
      between them whatever else happens, ticks and windows. */
  predicate FedWith(ops: seq<RegistryRuns.Op>, ds: seq<X.Delivery>) {
    TextsIn(ops) == TextsDelivered(ds)
  }

  lemma {:induction false} DeliveredAt(ds: seq<X.Delivery>, k: nat)
    requires k < |ds|
    ensures |TextsDelivered(ds)| == |ds| && TextsDelivered(ds)[k] == ds[k].text
  {
    if |ds| > 1 {
      DeliveredAt(ds[1..], if k == 0 then 0 else k - 1);
    } else {
      assert TextsDelivered(ds[1..]) == [];
    }
  }

  /** The position in a run of its n-th message. */
  lemma {:induction false} NthMessage(ops: seq<RegistryRuns.Op>, n: nat) returns (j: nat)
    requires n < |TextsIn(ops)|
    ensures j < |ops| && ops[j] == RegistryRuns.Message(TextsIn(ops)[n]) && |TextsIn(ops[..j])| == n
    decreases |ops|
  {
    var rest := TextsIn(ops[1..]);
    if !ops[0].Message? {
      var i := NthMessage(ops[1..], n);
      j := i + 1;
    } else if n > 0 {
      assert TextsIn(ops) == [ops[0].text] + rest;
      var i := NthMessage(ops[1..], n - 1);
      j := i + 1;
    } else {
      assert TextsIn(ops) == [ops[0].text] + rest;
      return 0;
    }
    assert ops[..j][0] == ops[0] && ops[..j][1..] == ops[1..][..j - 1];
  }

  lemma {:induction false} RunConcat(fl: R.Flags, st: R.State, a: seq<RegistryRuns.Op>, b: seq<RegistryRuns.Op>)
    ensures RegistryRuns.Run(fl, st, a + b) == RegistryRuns.Run(fl, RegistryRuns.Run(fl, st, a), b)
    decreases |a|
  {
    hide RegistryRuns.After;
    if a == [] {
      assert a + b == b;
    } else {
      assert (a + b)[0] == a[0] && (a + b)[1..] == a[1..] + b;
      RunConcat(fl, RegistryRuns.After(fl, st, a[0]), a[1..], b);
    }
  }

  /** The delivery of the i-th text of a window. */
  lemma {:induction false} NthText(ds: seq<X.Delivery>, w: X.Window, i: nat) returns (k: nat)
    requires i < |X.TextsOf(ds, w)|
    ensures k < |ds| && ds[k] == X.Delivery(w, X.TextsOf(ds, w)[i])
    ensures |X.TextsOf(ds[..k], w)| == i
  {
    var rest := X.TextsOf(ds[1..], w);
    if ds[0].window != w {
      var j := NthText(ds[1..], w, i);
      k := j + 1;
    } else if i > 0 {
      assert X.TextsOf(ds, w) == [ds[0].text] + rest;
      var j := NthText(ds[1..], w, i - 1);
      k := j + 1;
    } else {
      assert X.TextsOf(ds, w) == [ds[0].text] + rest;
      return 0;
    }
    assert ds[..k][0] == ds[0] && ds[..k][1..] == ds[1..][..k - 1];
  }

  /** A position is determined by how much of its window has been delivered before. */
  lemma OnePosition(ds: seq<X.Delivery>, w: X.Window, j: nat, k: nat)
    requires j < k < |ds| && ds[j].window == w
    ensures |X.TextsOf(ds[..j], w)| < |X.TextsOf(ds[..k], w)|
  {
    assert ds[..k] == ds[..j] + ([ds[j]] + ds[j + 1..k]);
    X.TextsOfConcat(ds[..j], [ds[j]] + ds[j + 1..k], w);
    X.TextsOfConcat([ds[j]], ds[j + 1..k], w);
    assert X.TextsOf([ds[j]], w) == [ds[j].text] + X.TextsOf([ds[j]][1..], w);
  }

  /** The n-th message of a window is delivered exactly once, at k, and is what happens to the
      registry at j. */
  ghost predicate ArrivesOnce(fs: seq<X.Fragment>, w: X.Window, n: nat, text: string, ops: seq<RegistryRuns.Op>,
                              k: nat, j: nat)
  {
    var ds := X.HandleAll(X.START, fs).delivered;
    && k < |ds| && ds[k] == X.Delivery(w, text)
    && (forall i :: 0 <= i < |ds| && ds[i].window == w && |X.TextsOf(ds[..i], w)| == n <==> i == k)
    && j < |ops| && ops[j] == RegistryRuns.Message(text) && |TextsIn(ops[..j])| == k
  }

  /** The senders of each window, all of whose fragments reach the receiver. */
  ghost predicate AllSent(fs: seq<X.Fragment>, msgs: map<X.Window, seq<string>>) {
    && (forall f :: f in fs ==> f.window in msgs)
    && (forall v :: v in msgs ==> X.Sends(fs, v, msgs[v]))
  }

  /** Transport. A text without zero bytes, sent as the n-th message of a window, its fragments
      mixed in any way with those of other windows, is delivered exactly once; and a registry to
      which ticks, windows and all deliveries happen in any order makes one step for it. */
  lemma TextArrivesOnce(
      fl: R.Flags, st: R.State, fs: seq<X.Fragment>, msgs: map<X.Window, seq<string>>,
      w: X.Window, n: nat, text: string, ops: seq<RegistryRuns.Op>)
    returns (k: nat, j: nat)
    requires AllSent(fs, msgs) && w in msgs && n < |msgs[w]| && msgs[w][n] == text && NoNul(text)
    requires FedWith(ops, X.HandleAll(X.START, fs).delivered)
    ensures ArrivesOnce(fs, w, n, text, ops, k, j)
    ensures RegistryRuns.Run(fl, st, ops)
            == RegistryRuns.Run(fl, R.WithMessage(fl, RegistryRuns.Run(fl, st, ops[..j]), text), ops[j + 1..])
  {
    hide R.WithMessage, X.TextsOf, X.HandleAll, X.Sends, NoNul;
    hide TextsIn, TextsDelivered, RegistryRuns.Run, RegistryRuns.After;
    var ds := X.HandleAll(X.START, fs).delivered;
    X.Reassembly(fs, msgs);
    MessageArrives(msgs[w], n, text);
    k := NthText(ds, w, n);
    OnlyPosition(ds, w, n, k);
    DeliveredAt(ds, k);
    j := NthMessage(ops, k);
    MessageInRun(fl, st, ops, j, text);
  }

  /** End to end. A record sent with sendStartup arrives once, and the step that the registry
      makes for it stores the same id and record up to collapsed white space, with NAME and
      SCREEN completed. */
  lemma StartupArrivesOnce(
      fl: R.Flags, st: R.State, fs: seq<X.Fragment>, msgs: map<X.Window, seq<string>>,
      w: X.Window, n: nat, id: string, d: Data, screen: int, ops: seq<RegistryRuns.Op>)
    returns (k: nat, j: nat)
    requires AllSent(fs, msgs) && w in msgs && n < |msgs[w]| && msgs[w][n] == NewMessage(id, d, screen)
    requires !IsNull(id) && NoNul(id) && NulFree(d)
    requires Typed(d) && Printable(d) && IsInt(screen)
    requires FedWith(ops, X.HandleAll(X.START, fs).delivered)
    ensures ArrivesOnce(fs, w, n, NewMessage(id, d, screen), ops, k, j) && !IsNull(Collapse(id))
    ensures RegistryRuns.Run(fl, st, ops)
            == RegistryRuns.Run(fl,
                                R.WithInfo(fl, RegistryRuns.Run(fl, st, ops[..j]), Collapse(id),
                                           TidyData(Completed(d, screen)), false),
                                ops[j + 1..])
  {
    hide R.WithInfo, R.WithMessage, NewMessage, Printable, NulFree, Typed, NoNul, IsNull, FedWith, AllSent;
    hide RegistryRuns.Run, X.HandleAll;
    MessageNoNul(id, d, screen);
    k, j := TextArrivesOnce(fl, st, fs, msgs, w, n, NewMessage(id, d, screen), ops);
    ReadNew(fl, RegistryRuns.Run(fl, st, ops[..j]), id, d, screen);
  }

  /** A record sent with sendChange likewise, without completion. */
  lemma ChangeArrivesOnce(
      fl: R.Flags, st: R.State, fs: seq<X.Fragment>, msgs: map<X.Window, seq<string>>,
      w: X.Window, n: nat, id: string, d: Data, ops: seq<RegistryRuns.Op>)
    returns (k: nat, j: nat)
    requires AllSent(fs, msgs) && w in msgs && n < |msgs[w]| && msgs[w][n] == ChangeMessage(id, d)
    requires !IsNull(id) && NoNul(id) && NulFree(d) && Typed(d) && Printable(d)
    requires FedWith(ops, X.HandleAll(X.START, fs).delivered)
    ensures ArrivesOnce(fs, w, n, ChangeMessage(id, d), ops, k, j) && !IsNull(Collapse(id))
    ensures RegistryRuns.Run(fl, st, ops)
            == RegistryRuns.Run(fl,
                                R.WithInfo(fl, RegistryRuns.Run(fl, st, ops[..j]), Collapse(id), TidyData(d), true),
                                ops[j + 1..])
  {
    hide R.WithInfo, ChangeMessage, Printable, NulFree, Typed, NoNul, IsNull, FedWith, ArrivesOnce, AllSent;
    hide RegistryRuns.Run, X.HandleAll, TidyData, Collapse, ReadMessage;
    MessageNoNul(id, d, 0);
    CollapsedIdIsReal(id);
    ChangeRoundTrip(id, d);
    k, j := TextArrivesOnce(fl, st, fs, msgs, w, n, ChangeMessage(id, d), ops);
  }

  /** A removal sent with sendFinish and data likewise; the id may be null, for then the PIDs
      and the hostname count. */
  lemma FinishDataArrivesOnce(
      fl: R.Flags, st: R.State, fs: seq<X.Fragment>, msgs: map<X.Window, seq<string>>,
      w: X.Window, n: nat, id: string, d: Data, ops: seq<RegistryRuns.Op>)
    returns (k: nat, j: nat)
    requires AllSent(fs, msgs) && w in msgs && n < |msgs[w]| && msgs[w][n] == FinishDataMessage(id, d)
    requires NoNul(id) && NulFree(d) && Typed(d) && Printable(d)
    requires FedWith(ops, X.HandleAll(X.START, fs).delivered)
    ensures ArrivesOnce(fs, w, n, FinishDataMessage(id, d), ops, k, j) && (IsNull(Collapse(id)) <==> IsNull(id))
    ensures RegistryRuns.Run(fl, st, ops)
            == RegistryRuns.Run(fl,
                                R.WithoutInfo(RegistryRuns.Run(fl, st, ops[..j]), Collapse(id), TidyData(d)),
                                ops[j + 1..])
  {
    hide R.WithoutInfo, FinishDataMessage, Printable, NulFree, Typed, NoNul, IsNull, FedWith, ArrivesOnce, AllSent;
    hide RegistryRuns.Run, X.HandleAll, TidyData, Collapse, ReadMessage;
    MessageNoNul(id, d, 0);
    CollapsedIdIsReal(id);
    RemoveRoundTrip(id, d);
    k, j := TextArrivesOnce(fl, st, fs, msgs, w, n, FinishDataMessage(id, d), ops);
  }

  /** A removal sent with sendFinish and the id alone removes the entry of that id, whatever its
      white space has become. */
  lemma FinishArrivesOnce(
      fl: R.Flags, st: R.State, fs: seq<X.Fragment>, msgs: map<X.Window, seq<string>>,
      w: X.Window, n: nat, id: string, ops: seq<RegistryRuns.Op>)
    returns (k: nat, j: nat)
    requires AllSent(fs, msgs) && w in msgs && n < |msgs[w]| && msgs[w][n] == FinishMessage(id) && NoNul(id)
    requires FedWith(ops, X.HandleAll(X.START, fs).delivered)
    ensures ArrivesOnce(fs, w, n, FinishMessage(id), ops, k, j)
    ensures RegistryRuns.Run(fl, st, ops)
            == RegistryRuns.Run(fl, R.Without(RegistryRuns.Run(fl, st, ops[..j]), Collapse(id)), ops[j + 1..])
  {
    hide R.Without, FinishMessage, NoNul, FedWith, ArrivesOnce, AllSent;
    hide RegistryRuns.Run, X.HandleAll, Collapse, ReadMessage;
    FinishNoNul(id);
    FinishRoundTrip(id);
    k, j := TextArrivesOnce(fl, st, fs, msgs, w, n, FinishMessage(id), ops);
  }

  lemma OnlyPosition(ds: seq<X.Delivery>, w: X.Window, n: nat, k: nat)
    requires k < |ds| && ds[k].window == w && |X.TextsOf(ds[..k], w)| == n
    ensures forall i :: 0 <= i < |ds| && ds[i].window == w && |X.TextsOf(ds[..i], w)| == n <==> i == k
  {
    hide X.TextsOf;
    forall i | 0 <= i < |ds| && ds[i].window == w && |X.TextsOf(ds[..i], w)| == n ensures i == k {
      if i < k {
        OnePosition(ds, w, i, k);
      } else if k < i {
        OnePosition(ds, w, k, i);
      }
    }
  }

  lemma MessageInRun(fl: R.Flags, st: R.State, ops: seq<RegistryRuns.Op>, j: nat, text: string)
    requires j < |ops| && ops[j] == RegistryRuns.Message(text)
    ensures RegistryRuns.Run(fl, st, ops)
            == RegistryRuns.Run(fl, R.WithMessage(fl, RegistryRuns.Run(fl, st, ops[..j]), text), ops[j + 1..])
  {
    hide R.WithMessage;
    var st1 := RegistryRuns.Run(fl, st, ops[..j]);
    assert ops == ops[..j] + ops[j..] && ops[j..][1..] == ops[j + 1..];
    RunConcat(fl, st, ops[..j], ops[j..]);
    assert RegistryRuns.Run(fl, st1, ops[j..])
        == RegistryRuns.Run(fl, RegistryRuns.After(fl, st1, ops[j]), ops[j + 1..]);
  }

  lemma MessageArrives(msgs: seq<string>, n: nat, text: string)
    requires n < |msgs| && msgs[n] == text && NoNul(text)
    ensures |X.CStrings(msgs)| == |msgs| && X.CStrings(msgs)[n] == text
  {
    X.CStringFacts(text);
    CStringsAt(msgs, n);
  }

  lemma {:induction false} CStringsAt(msgs: seq<string>, n: nat)
    requires n < |msgs|
    ensures |X.CStrings(msgs)| == |msgs| && X.CStrings(msgs)[n] == X.CString(msgs[n])
  {
    if |msgs| > 1 {
      CStringsAt(msgs[1..], if n == 0 then 0 else n - 1);
    } else {
      assert X.CStrings(msgs[1..]) == [];
    }
  }

  /** The call a `new:` message makes into the registry. */
  lemma ReadNew(fl: R.Flags, st: R.State, id: string, d: Data, screen: int)
    requires !IsNull(id) && Typed(d) && Printable(d) && IsInt(screen)
    ensures !IsNull(Collapse(id))
    ensures R.WithMessage(fl, st, NewMessage(id, d, screen))
            == R.WithInfo(fl, st, Collapse(id), TidyData(Completed(d, screen)), false)
  {
    hide R.WithInfo, NewMessage, Printable, Typed, IsNull;
    NewRoundTrip(id, d, screen);
    CollapsedIdIsReal(id);
  }

  /** A registry that does not know the id announces exactly that record, or, if the record is
      silent and silence is not announced, keeps it without a signal. */
  lemma StartupIsStored(fl: R.Flags, st: R.State, id: string, d: Data, screen: int)
    requires !IsNull(id) && Typed(d) && Printable(d) && IsInt(screen)
    requires RegistryRuns.Lookup(st, Collapse(id)) == RegistryRuns.Absent
    ensures var data := TidyData(Completed(d, screen));
            var st1 := R.WithMessage(fl, st, NewMessage(id, d, screen));
            var announced := d.silent != Yes || fl.announceSilenceChanges;
            && RegistryRuns.Lookup(st1, Collapse(id))
               == (if announced then RegistryRuns.Announced(R.Startup(data, 0))
                   else RegistryRuns.Quiet(R.Startup(data, 0)))
            && st1.log == st.log + (if announced then [R.NewStartup(Collapse(id), data)] else [])
            && st1.ticking
  {
    hide R.WithMessage, NewMessage, Collapse, Printable, Typed, IsNull;
    ReadNew(fl, st, id, d, screen);
    SilenceKept(d, screen);
    hide TidyData, Completed;
  }

  lemma SilenceKept(d: Data, screen: int)
    ensures TidyData(Completed(d, screen)).silent == d.silent
  {
    hide Collapse, DefaultName;
  }

  // ---------------------------------------------------------------- a silent startup is announced

  /** Without AnnounceSilenceChanges, a silent `change:` creates an entry although no `new:` came
      before, and a silent `new:` after it announces the startup. */
  lemma SilentYetAnnounced(fl: R.Flags, id: string, d: Data, screen: int)
    requires !fl.announceSilenceChanges && !IsNull(id) && IsInt(screen)
    requires Typed(d) && Printable(d) && d.silent == Yes
    ensures var first := RegistryRuns.Message(ChangeMessage(id, d));
            var second := RegistryRuns.Message(NewMessage(id, d, screen));
            && RegistryRuns.Lookup(RegistryRuns.Run(fl, R.START, [first]), Collapse(id))
               == RegistryRuns.Uninited(R.Startup(TidyData(d), 0))
            && StartupEntries.Shown(RegistryRuns.Run(fl, R.START, [first, second]), Collapse(id))
  {
    var first := RegistryRuns.Message(ChangeMessage(id, d));
    var second := RegistryRuns.Message(NewMessage(id, d, screen));
    ChangeRoundTrip(id, d);
    NewRoundTrip(id, d, screen);
    CollapsedIdIsReal(id);
    SilenceKept(d, screen);
    hide ReadMessage, ChangeMessage, NewMessage, Collapse, Completed, TidyData, IsNull, Typed, Printable,
      StartupEntries.Shown, RegistryRuns.Run, RegistryRuns.Lookup;
    StartupEntries.ChangeThenNew(fl, first.text, second.text, Collapse(id), TidyData(d),
                                 TidyData(Completed(d, screen)));
  }

  /** Two concrete messages. */
  lemma SilentExample(fl: R.Flags)
    requires !fl.announceSilenceChanges
    ensures var d := NO_DATA.(silent := Yes);
            var first := RegistryRuns.Message(ChangeMessage("a", d));
            var second := RegistryRuns.Message(NewMessage("a", d, 0));
            && RegistryRuns.Lookup(RegistryRuns.Run(fl, R.START, [first]), "a").Uninited?
            && StartupEntries.Shown(RegistryRuns.Run(fl, R.START, [first, second]), "a")
  {
    var d := NO_DATA.(silent := Yes);
    assert Typed(d) && Printable(d);
    assert !IsNull("a") && Collapse("a") == "a";
    hide Typed, Printable, IsNull, Collapse, StartupEntries.Shown, RegistryRuns.Run, ChangeMessage, NewMessage;
    SilentYetAnnounced(fl, "a", d, 0);
  }
}
