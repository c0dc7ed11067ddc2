/** The text of startup-notification messages: what the sending functions print and what the
    receiving constructors read, and the proof that reading undoes printing. */
module StartupText {
  import opened Text
  import opened Fields
  import opened StartupData

  const ON_ALL_DESKTOPS: int := -1

  // ---------------------------------------------------------------- printing

  predicate IsNull(id: string) {
    id == "" || id == "0"
  }

  /** KStartupInfoId::Private::to_text. */
  function IdText(id: string): string {
    " ID=\"" + Escaped(id) + "\" "
  }

  function Opt(present: bool, e: Entry): seq<Entry> {
    if present then [e] else []
  }

  function NumberEntry(k: Key, n: int): Entry {
    BareEntry(k, IntText(n))
  }

  function PidEntries(pids: seq<int>): seq<Entry> {
    if pids == [] then [] else [NumberEntry(PidKey, pids[0])] + PidEntries(pids[1..])
  }

  function WireDesktop(desktop: int): int {
    if desktop == ON_ALL_DESKTOPS then ON_ALL_DESKTOPS else desktop - 1
  }

  function SilentFlag(t: TriState): int {
    if t == Yes then 1 else 0
  }

  function FrontEntries(d: Data): seq<Entry> {
    Opt(d.bin != "", EscapedEntry(BinKey, d.bin))
    + Opt(d.name != "", EscapedEntry(NameKey, d.name))
    + Opt(d.description != "", EscapedEntry(DescriptionKey, d.description))
    + Opt(d.icon != "", QuotedEntry(IconKey, d.icon))
  }

  function MiddleEntries(d: Data): seq<Entry> {
    Opt(d.desktop != 0, NumberEntry(DesktopKey, WireDesktop(d.desktop)))
    + Opt(d.wmclass != "", QuotedEntry(WmClassKey, d.wmclass))
    + Opt(d.hostname != "", BareEntry(HostnameKey, d.hostname))
    + PidEntries(d.pids)
  }

  function BackEntries(d: Data): seq<Entry> {
    Opt(d.silent != Unknown, NumberEntry(SilentKey, SilentFlag(d.silent)))
    + Opt(d.screen != -1, NumberEntry(ScreenKey, d.screen))
    + Opt(d.xinerama != -1, NumberEntry(XineramaKey, d.xinerama))
    + Opt(d.applicationId != "", QuotedEntry(ApplicationIdKey, d.applicationId))
  }

  /** The entries a record prints, in order. */
  function DataEntries(d: Data): seq<Entry> {
    FrontEntries(d) + MiddleEntries(d) + BackEntries(d)
  }

  function DefaultName(d: Data): string {
    if d.bin != "" then d.bin else "UNKNOWN"
  }

  /** The entries check_required_startup_fields appends. */
  function RequiredEntries(d: Data, screen: int): seq<Entry> {
    Opt(d.name == "", EscapedEntry(NameKey, DefaultName(d)))
    + Opt(d.screen == -1, NumberEntry(ScreenKey, screen))
  }

  lemma RenderOne(e: Entry)
    ensures Render([e]) == " " + Body(e)
  {
    hide Body;
    assert [e][1..] == [];
  }

  lemma QuotedForm(key: string, text: string)
    ensures " " + key + "=\"" + text + "\"" == " " + (key + "=" + "\"" + text + "\"")
  {
    assert "=\"" == "=" + "\"";
  }

  method PrintEntry(ret: string, e: Entry) returns (r: string)
    ensures r == ret + Render([e])
  {
    hide Render, KeyText, Escaped;
    RenderOne(e);
    match e
    case EscapedEntry(k, v) =>
      var t := EscapeStr(v);
      QuotedForm(KeyText(k), t);
      r := ret + (" " + KeyText(k) + "=\"" + t + "\"");
    case QuotedEntry(k, v) =>
      QuotedForm(KeyText(k), v);
      r := ret + (" " + KeyText(k) + "=\"" + v + "\"");
    case BareEntry(k, v) =>
      r := ret + (" " + KeyText(k) + "=" + v);
      assert " " + KeyText(k) + "=" + v == " " + (KeyText(k) + "=" + v);
  }

  /** The first optional entry, and one more. */
  lemma PrintedFirst(present: bool, e: Entry)
    ensures Render(Opt(present, e)) == if present then Render([e]) else []
  {
    hide Body;
  }

  lemma Printed(es: seq<Entry>, present: bool, e: Entry)
    ensures Render(es + Opt(present, e)) == Render(es) + if present then Render([e]) else []
  {
    hide Render;
    RenderConcat(es, Opt(present, e));
    PrintedFirst(present, e);
  }

  /** KStartupInfoData::Private::to_text, in three parts. */
  method DataToText(d: Data) returns (ret: string)
    ensures ret == Render(DataEntries(d))
  {
    hide Render;
    var front := FrontToText(d);
    var middle := MiddleToText(d);
    var back := BackToText(d);
    ret := front + middle + back;
    RenderConcat(FrontEntries(d), MiddleEntries(d));
    RenderConcat(FrontEntries(d) + MiddleEntries(d), BackEntries(d));
  }

  lemma NoPidEntries()
    ensures PidEntries([]) == []
  {
  }

  lemma {:induction false} PidEntriesStep(pids: seq<int>, k: nat)
    requires k < |pids|
    ensures PidEntries(pids[..k + 1]) == PidEntries(pids[..k]) + [NumberEntry(PidKey, pids[k])]
  {
    if k == 0 {
      assert pids[..1] == [pids[0]] && PidEntries([pids[0]][1..]) == [];
      assert pids[..0] == [];
    } else {
      PidEntriesStep(pids[1..], k - 1);
      assert pids[..k + 1][1..] == pids[1..][..k] && pids[..k][1..] == pids[1..][..k - 1];
    }
  }

  /** One PID more. */
  lemma PrintedPid(es: seq<Entry>, pids: seq<int>, k: nat)
    requires k < |pids|
    ensures Render(es + PidEntries(pids[..k + 1]))
            == Render(es + PidEntries(pids[..k])) + Render([NumberEntry(PidKey, pids[k])])
  {
    hide Render, PidEntries, NumberEntry;
    PidEntriesStep(pids, k);
    var e := NumberEntry(PidKey, pids[k]);
    RenderConcat(es + PidEntries(pids[..k]), [e]);
    assert es + (PidEntries(pids[..k]) + [e]) == es + PidEntries(pids[..k]) + [e];
  }

  method FrontToText(d: Data) returns (ret: string)
    ensures ret == Render(FrontEntries(d))
  {
    hide Render, Opt, NumberEntry, WireDesktop, SilentFlag, PidEntries;
    ret := [];
    if d.bin != "" {
      ret := PrintEntry(ret, EscapedEntry(BinKey, d.bin));
    }
    ghost var es0 := Opt(d.bin != "", EscapedEntry(BinKey, d.bin));
    PrintedFirst(d.bin != "", EscapedEntry(BinKey, d.bin));
    assert ret == Render(es0);
    if d.name != "" {
      ret := PrintEntry(ret, EscapedEntry(NameKey, d.name));
    }
    ghost var es1 := es0 + Opt(d.name != "", EscapedEntry(NameKey, d.name));
    Printed(es0, d.name != "", EscapedEntry(NameKey, d.name));
    assert ret == Render(es1);
    if d.description != "" {
      ret := PrintEntry(ret, EscapedEntry(DescriptionKey, d.description));
    }
    ghost var es2 := es1 + Opt(d.description != "", EscapedEntry(DescriptionKey, d.description));
    Printed(es1, d.description != "", EscapedEntry(DescriptionKey, d.description));
    assert ret == Render(es2);
    if d.icon != "" {
      ret := PrintEntry(ret, QuotedEntry(IconKey, d.icon));
    }
    ghost var es3 := es2 + Opt(d.icon != "", QuotedEntry(IconKey, d.icon));
    Printed(es2, d.icon != "", QuotedEntry(IconKey, d.icon));
    assert ret == Render(es3);
  }

  method MiddleToText(d: Data) returns (ret: string)
    ensures ret == Render(MiddleEntries(d))
  {
    hide Render, Opt, NumberEntry, WireDesktop, SilentFlag, PidEntries;
    ret := [];
    if d.desktop != 0 {
      ret := PrintEntry(ret, NumberEntry(DesktopKey, WireDesktop(d.desktop)));
    }
    ghost var es0 := Opt(d.desktop != 0, NumberEntry(DesktopKey, WireDesktop(d.desktop)));
    PrintedFirst(d.desktop != 0, NumberEntry(DesktopKey, WireDesktop(d.desktop)));
    assert ret == Render(es0);
    if d.wmclass != "" {
      ret := PrintEntry(ret, QuotedEntry(WmClassKey, d.wmclass));
    }
    ghost var es1 := es0 + Opt(d.wmclass != "", QuotedEntry(WmClassKey, d.wmclass));
    Printed(es0, d.wmclass != "", QuotedEntry(WmClassKey, d.wmclass));
    assert ret == Render(es1);
    if d.hostname != "" {
      ret := PrintEntry(ret, BareEntry(HostnameKey, d.hostname));
    }
    ghost var es2 := es1 + Opt(d.hostname != "", BareEntry(HostnameKey, d.hostname));
    Printed(es1, d.hostname != "", BareEntry(HostnameKey, d.hostname));
    assert ret == Render(es2);
    var it := 0;
    NoPidEntries();
    assert d.pids[..0] == [] && es2 + [] == es2;
    while it != |d.pids|
      invariant 0 <= it <= |d.pids|
      invariant ret == Render(es2 + PidEntries(d.pids[..it]))
    {
      PrintedPid(es2, d.pids, it);
      ret := PrintEntry(ret, NumberEntry(PidKey, d.pids[it]));
      it := it + 1;
    }
    assert d.pids[..it] == d.pids;
  }

  method BackToText(d: Data) returns (ret: string)
    ensures ret == Render(BackEntries(d))
  {
    hide Render, Opt, NumberEntry, WireDesktop, SilentFlag, PidEntries;
    ret := [];
    if d.silent != Unknown {
      ret := PrintEntry(ret, NumberEntry(SilentKey, SilentFlag(d.silent)));
    }
    ghost var es0 := Opt(d.silent != Unknown, NumberEntry(SilentKey, SilentFlag(d.silent)));
    PrintedFirst(d.silent != Unknown, NumberEntry(SilentKey, SilentFlag(d.silent)));
    assert ret == Render(es0);
    if d.screen != -1 {
      ret := PrintEntry(ret, NumberEntry(ScreenKey, d.screen));
    }
    ghost var es1 := es0 + Opt(d.screen != -1, NumberEntry(ScreenKey, d.screen));
    Printed(es0, d.screen != -1, NumberEntry(ScreenKey, d.screen));
    assert ret == Render(es1);
    if d.xinerama != -1 {
      ret := PrintEntry(ret, NumberEntry(XineramaKey, d.xinerama));
    }
    ghost var es2 := es1 + Opt(d.xinerama != -1, NumberEntry(XineramaKey, d.xinerama));
    Printed(es1, d.xinerama != -1, NumberEntry(XineramaKey, d.xinerama));
    assert ret == Render(es2);
    if d.applicationId != "" {
      ret := PrintEntry(ret, QuotedEntry(ApplicationIdKey, d.applicationId));
    }
    ghost var es3 := es2 + Opt(d.applicationId != "", QuotedEntry(ApplicationIdKey, d.applicationId));
    Printed(es2, d.applicationId != "", QuotedEntry(ApplicationIdKey, d.applicationId));
    assert ret == Render(es3);
  }

  /** The text that sendStartupXcb broadcasts. */
  function NewMessage(id: string, d: Data, screen: int): string {
    "new: " + IdText(id) + " " + Render(DataEntries(d)) + Render(RequiredEntries(d, screen))
  }

  /** The text that sendChangeXcb broadcasts. */
  function ChangeMessage(id: string, d: Data): string {
    "change: " + IdText(id) + " " + Render(DataEntries(d))
  }

  /** The text that sendFinishXcb broadcasts, without and with data. */
  function FinishMessage(id: string): string {
    "remove: " + IdText(id)
  }

  function FinishDataMessage(id: string, d: Data): string {
    "remove: " + IdText(id) + " " + Render(DataEntries(d))
  }

  // ---------------------------------------------------------------- reading

  function IndexOfEquals(s: string): (i: int)
    ensures -1 <= i < |s|
    ensures i >= 0 ==> s[i] == '=' && '=' !in s[..i]
    ensures i == -1 ==> '=' !in s
  {
    if s == [] then -1
    else if s[0] == '=' then 0
    else
      var i := IndexOfEquals(s[1..]);
      assert s == [s[0]] + s[1..];
      assert i >= 0 ==> s[..i + 1] == [s[0]] + s[1..][..i];
      if i == -1 then -1 else i + 1
  }

  /** get_str: what follows the first '=' (the whole item when there is none). */
  function GetStr(item: string): string {
    item[IndexOfEquals(item) + 1..]
  }

  /** get_num. */
  function GetNum(item: string): int {
    ToLong(GetStr(item))
  }

  function ReadDesktop(n: int): int {
    if ToInt(n) != ON_ALL_DESKTOPS then ToInt(ToInt(n) + 1) else ToInt(n)
  }

  /** item.startsWith("KEY="). */
  predicate Has(item: string, k: Key) {
    StartsWith(item, KeyText(k) + "=")
  }

  /** One step of the text constructor of KStartupInfoData. */
  function WithItem(d: Data, item: string): Data {
    if Has(item, BinKey) then d.(bin := GetStr(item))
    else if Has(item, NameKey) then d.(name := GetStr(item))
    else if Has(item, DescriptionKey) then d.(description := GetStr(item))
    else if Has(item, IconKey) then d.(icon := GetStr(item))
    else if Has(item, DesktopKey) then d.(desktop := ReadDesktop(GetNum(item)))
    else if Has(item, WmClassKey) then d.(wmclass := GetStr(item))
    else if Has(item, HostnameKey) then d.(hostname := GetStr(item))
    else if Has(item, PidKey) then d.(pids := WithPid(d.pids, ToInt(GetNum(item))))
    else if Has(item, SilentKey) then d.(silent := if GetNum(item) != 0 then Yes else No)
    else if Has(item, ScreenKey) then d.(screen := ToInt(GetNum(item)))
    else if Has(item, XineramaKey) then d.(xinerama := ToInt(GetNum(item)))
    else if Has(item, ApplicationIdKey) then d.(applicationId := GetStr(item))
    else d
  }

  function WithItems(d: Data, items: seq<string>): Data
    decreases |items|
  {
    if items == [] then d else WithItems(WithItem(d, items[0]), items[1..])
  }

  function IdFrom(id: string, items: seq<string>): string
    decreases |items|
  {
    if items == [] then id
    else IdFrom(if Has(items[0], IdKey) then GetStr(items[0]) else id, items[1..])
  }

  function ReadId(text: string): string {
    IdFrom("", FieldsOf(text))
  }

  function ReadData(text: string): Data {
    WithItems(NO_DATA, FieldsOf(text))
  }

  lemma {:induction false} WithItemsConcat(d: Data, a: seq<string>, b: seq<string>)
    ensures WithItems(d, a + b) == WithItems(WithItems(d, a), b)
    decreases |a|
  {
    if a == [] {
      assert a + b == b;
    } else {
      assert (a + b)[0] == a[0] && (a + b)[1..] == a[1..] + b;
      WithItemsConcat(WithItem(d, a[0]), a[1..], b);
    }
  }

  /** The text constructor of KStartupInfoId. */
  method ParseId(text: string) returns (id: string)
    ensures id == ReadId(text)
  {
    var items := GetFields(text);
    id := "";
    var it := 0;
    while it != |items|
      invariant 0 <= it <= |items|
      invariant ReadId(text) == IdFrom(id, items[it..])
    {
      assert items[it..][1..] == items[it + 1..];
      if Has(items[it], IdKey) {
        id := GetStr(items[it]);
      }
      it := it + 1;
    }
  }

  /** The text constructor of KStartupInfoData. */
  method ParseData(text: string) returns (d: Data)
    ensures d == ReadData(text)
  {
    var items := GetFields(text);
    d := NO_DATA;
    var it := 0;
    while it != |items|
      invariant 0 <= it <= |items|
      invariant ReadData(text) == WithItems(d, items[it..])
    {
      assert items[it..][1..] == items[it + 1..];
      d := WithItem(d, items[it]);
      it := it + 1;
    }
  }

  /** What a received text asks the registry to do. */
  datatype Incoming =
    | NewInfo(id: string, data: Data)
    | ChangeInfo(id: string, data: Data)
    | RemoveInfo(id: string, data: Data)
    | NoInfo

  /** The dispatch of got_message, up to the call into the registry. */
  function ReadMessage(text: string): Incoming {
    var msg := Trimmed(text);
    if StartsWith(msg, "new:") then NewInfo(ReadId(msg[4..]), ReadData(msg[4..]))
    else if StartsWith(msg, "change:") then ChangeInfo(ReadId(msg[7..]), ReadData(msg[7..]))
    else if StartsWith(msg, "remove:") then RemoveInfo(ReadId(msg[7..]), ReadData(msg[7..]))
    else NoInfo
  }

  // ---------------------------------------------------------------- reading undoes printing

  /** The values a record may hold: C++ ints and a PID list built by addPid. */
  predicate Typed(d: Data) {
    && IsInt(d.desktop) && IsInt(d.desktop - 1)
    && IsInt(d.screen) && IsInt(d.xinerama)
    && (forall p :: p in d.pids ==> IsInt(p))
    && Distinct(d.pids)
  }

  /** The values that the unescaped entries can carry. */
  predicate Printable(d: Data) {
    && NoSpecial(d.icon) && NoSpecial(d.wmclass) && NoSpecial(d.applicationId)
    && NoSpecial(d.hostname) && NoSpace(d.hostname)
  }

  /** A record with the white-space runs of its texts collapsed. */
  function TidyData(d: Data): Data {
    d.(bin := Collapse(d.bin), name := Collapse(d.name), description := Collapse(d.description),
       icon := Collapse(d.icon), wmclass := Collapse(d.wmclass),
       applicationId := Collapse(d.applicationId))
  }

  /** A record as sendStartup completes it: NAME from BIN or UNKNOWN, SCREEN from the sender. */
  function Completed(d: Data, screen: int): Data {
    d.(name := if d.name == "" then DefaultName(d) else d.name,
       screen := if d.screen == -1 then screen else d.screen)
  }

  lemma {:induction false} EqualsAfterKey(k: string, v: string)
    requires '=' !in k
    ensures IndexOfEquals(k + "=" + v) == |k|
  {
    var s := k + "=" + v;
    if k != [] {
      assert k[0] in k && s[0] == k[0];
      assert s[1..] == k[1..] + "=" + v;
      EqualsAfterKey(k[1..], v);
    }
  }

  /** startsWith(KEY=) recognises exactly the fields whose key is KEY. */
  lemma PrefixIsKey(k: string, v: string, key: string)
    requires '=' !in k && '=' !in key
    ensures StartsWith(k + "=" + v, key + "=") <==> k == key
  {
    var s := k + "=" + v;
    EqualsAfterKey(k, v);
    assert s[..|k| + 1] == k + "=";
    if StartsWith(s, key + "=") {
      var rest := s[|key| + 1..];
      assert s == key + "=" + rest;
      EqualsAfterKey(key, rest);
      assert k == s[..|k|] == key;
    }
  }

  lemma GetStrOf(k: string, v: string)
    requires '=' !in k
    ensures GetStr(k + "=" + v) == v
  {
    EqualsAfterKey(k, v);
  }

  /** WithItem on a field, by its key. */
  function WithKey(d: Data, k: Key, v: string): Data {
    if k == BinKey then d.(bin := v)
    else if k == NameKey then d.(name := v)
    else if k == DescriptionKey then d.(description := v)
    else if k == IconKey then d.(icon := v)
    else if k == DesktopKey then d.(desktop := ReadDesktop(ToLong(v)))
    else if k == WmClassKey then d.(wmclass := v)
    else if k == HostnameKey then d.(hostname := v)
    else if k == PidKey then d.(pids := WithPid(d.pids, ToInt(ToLong(v))))
    else if k == SilentKey then d.(silent := if ToLong(v) != 0 then Yes else No)
    else if k == ScreenKey then d.(screen := ToInt(ToLong(v)))
    else if k == XineramaKey then d.(xinerama := ToInt(ToLong(v)))
    else if k == ApplicationIdKey then d.(applicationId := v)
    else d
  }

  lemma HasKey(a: Key, v: string, b: Key)
    ensures Has(KeyText(a) + "=" + v, b) <==> a == b
  {
    KeyIsPlain(a);
    KeyIsPlain(b);
    PrefixIsKey(KeyText(a), v, KeyText(b));
    KeyTextsDiffer(a, b);
  }

  lemma WithItemIsWithKey(d: Data, k: Key, v: string)
    ensures WithItem(d, KeyText(k) + "=" + v) == WithKey(d, k, v)
  {
    hide Has, KeyText, GetStr, ToInt, ToLong, ReadDesktop;
    KeyIsPlain(k);
    GetStrOf(KeyText(k), v);
    forall b: Key ensures Has(KeyText(k) + "=" + v, b) <==> k == b {
      HasKey(k, v, b);
    }
  }

  /** What reading the fields of printed entries does to a record. */
  function Applied(d: Data, es: seq<Entry>): Data
    decreases |es|
  {
    if es == [] then d else Applied(WithKey(d, es[0].key, Collapse(es[0].value)), es[1..])
  }

  lemma {:induction false} WithItemsApplied(d: Data, es: seq<Entry>)
    ensures WithItems(d, FieldsOfEntries(es)) == Applied(d, es)
    decreases |es|
  {
    if es != [] {
      var v := Collapse(es[0].value);
      WithItemIsWithKey(d, es[0].key, v);
      WithItemsApplied(WithKey(d, es[0].key, v), es[1..]);
      assert FieldsOfEntries(es)[1..] == FieldsOfEntries(es[1..]);
    }
  }

  lemma {:induction false} AppliedConcat(d: Data, a: seq<Entry>, b: seq<Entry>)
    ensures Applied(d, a + b) == Applied(Applied(d, a), b)
    decreases |a|
  {
    if a == [] {
      assert a + b == b;
    } else {
      assert (a + b)[0] == a[0] && (a + b)[1..] == a[1..] + b;
      AppliedConcat(WithKey(d, a[0].key, Collapse(a[0].value)), a[1..], b);
    }
  }

  lemma AppliedOpt(d: Data, present: bool, e: Entry)
    ensures Applied(d, Opt(present, e))
            == if present then WithKey(d, e.key, Collapse(e.value)) else d
  {
    assert [e][1..] == [];
  }

  lemma NumberBack(n: int)
    requires IsInt(n)
    ensures Collapse(IntText(n)) == IntText(n) && ToInt(ToLong(IntText(n))) == n
  {
    DigitsAreVisible(IntText(n));
    SqueezeNoSpace(IntText(n), false);
    ToLongOfIntText(n);
  }

  lemma WithPidKey(d: Data, pid: int)
    requires IsInt(pid)
    ensures WithKey(d, PidKey, Collapse(IntText(pid))) == d.(pids := WithPid(d.pids, pid))
  {
    hide ToInt, ToLong, IntText, Squeeze;
    NumberBack(pid);
  }

  lemma {:induction false} AppliedPids(d: Data, pids: seq<int>)
    requires forall p :: p in pids ==> IsInt(p)
    ensures Applied(d, PidEntries(pids)) == d.(pids := WithPids(d.pids, pids))
    decreases |pids|
  {
    hide WithKey, IntText, Collapse, WithPid;
    if pids != [] {
      var next := d.(pids := WithPid(d.pids, pids[0]));
      assert pids[0] in pids;
      WithPidKey(d, pids[0]);
      AppliedPids(next, pids[1..]);
      assert PidEntries(pids)[1..] == PidEntries(pids[1..]);
    }
  }

  lemma AppliedFour(d: Data, a: seq<Entry>, b: seq<Entry>, c: seq<Entry>, e: seq<Entry>)
    ensures Applied(d, a + b + c + e) == Applied(Applied(Applied(Applied(d, a), b), c), e)
  {
    AppliedConcat(d, a + b + c, e);
    AppliedConcat(d, a + b, c);
    AppliedConcat(d, a, b);
  }

  /** A text that is printed only when it is not empty. */
  lemma AppliedText(x: Data, e: Entry)
    requires WithKey(x, e.key, "") == x
    ensures Applied(x, Opt(e.value != "", e)) == WithKey(x, e.key, Collapse(e.value))
  {
    hide WithKey;
    AppliedOpt(x, e.value != "", e);
    CollapseEmpty(e.value);
  }

  lemma AppliedFront(x: Data, d: Data)
    requires x.bin == x.name == x.description == x.icon == ""
    ensures Applied(x, FrontEntries(d))
            == x.(bin := Collapse(d.bin), name := Collapse(d.name),
                  description := Collapse(d.description), icon := Collapse(d.icon))
  {
    hide Applied, Collapse, Opt;
    AppliedFour(x, Opt(d.bin != "", EscapedEntry(BinKey, d.bin)),
      Opt(d.name != "", EscapedEntry(NameKey, d.name)),
      Opt(d.description != "", EscapedEntry(DescriptionKey, d.description)),
      Opt(d.icon != "", QuotedEntry(IconKey, d.icon)));
    var x1 := x.(bin := Collapse(d.bin));
    var x2 := x1.(name := Collapse(d.name));
    var x3 := x2.(description := Collapse(d.description));
    AppliedText(x, EscapedEntry(BinKey, d.bin));
    AppliedText(x1, EscapedEntry(NameKey, d.name));
    AppliedText(x2, EscapedEntry(DescriptionKey, d.description));
    AppliedText(x3, QuotedEntry(IconKey, d.icon));
  }

  lemma OwnPids(pids: seq<int>)
    requires Distinct(pids)
    ensures WithPids([], pids) == pids
  {
    assert [] + pids == pids;
    WithPidsOwn([], pids);
  }

  lemma AppliedNumber(x: Data, present: bool, k: Key, n: int)
    requires IsInt(n)
    ensures Applied(x, Opt(present, NumberEntry(k, n)))
            == if present then WithKey(x, k, IntText(n)) else x
    ensures ToInt(ToLong(IntText(n))) == n && ToLong(IntText(n)) == n
  {
    hide ToInt, ToLong, IntText, Squeeze;
    NumberBack(n);
    ToLongOfIntText(n);
    AppliedOpt(x, present, NumberEntry(k, n));
  }

  lemma AppliedDesktop(x: Data, d: Data)
    requires Typed(d) && x.desktop == 0
    ensures Applied(x, Opt(d.desktop != 0, NumberEntry(DesktopKey, WireDesktop(d.desktop))))
            == x.(desktop := d.desktop)
  {
    hide ToInt, ToLong, IntText, Applied, Opt, NumberEntry;
    AppliedNumber(x, d.desktop != 0, DesktopKey, WireDesktop(d.desktop));
  }

  lemma AppliedWmClass(x: Data, d: Data)
    requires x.wmclass == ""
    ensures Applied(x, Opt(d.wmclass != "", QuotedEntry(WmClassKey, d.wmclass)))
            == x.(wmclass := Collapse(d.wmclass))
  {
    CollapseEmpty(d.wmclass);
    AppliedOpt(x, d.wmclass != "", QuotedEntry(WmClassKey, d.wmclass));
  }

  lemma AppliedHostname(x: Data, d: Data)
    requires x.hostname == "" && NoSpace(d.hostname)
    ensures Applied(x, Opt(d.hostname != "", BareEntry(HostnameKey, d.hostname)))
            == x.(hostname := d.hostname)
  {
    SqueezeNoSpace(d.hostname, false);
    AppliedOpt(x, d.hostname != "", BareEntry(HostnameKey, d.hostname));
  }

  lemma AppliedMiddle(x: Data, d: Data)
    requires Typed(d) && NoSpace(d.hostname)
    requires x.desktop == 0 && x.wmclass == x.hostname == "" && x.pids == []
    ensures Applied(x, MiddleEntries(d))
            == x.(desktop := d.desktop, wmclass := Collapse(d.wmclass), hostname := d.hostname,
                  pids := d.pids)
  {
    hide Applied, Opt, Collapse, NumberEntry, PidEntries, WithPids, WireDesktop;
    var x1 := x.(desktop := d.desktop);
    var x2 := x1.(wmclass := Collapse(d.wmclass));
    AppliedFour(x, Opt(d.desktop != 0, NumberEntry(DesktopKey, WireDesktop(d.desktop))),
      Opt(d.wmclass != "", QuotedEntry(WmClassKey, d.wmclass)),
      Opt(d.hostname != "", BareEntry(HostnameKey, d.hostname)), PidEntries(d.pids));
    AppliedDesktop(x, d);
    AppliedWmClass(x1, d);
    AppliedHostname(x2, d);
    AppliedPids(x2.(hostname := d.hostname), d.pids);
    OwnPids(d.pids);
  }

  lemma AppliedSilent(x: Data, d: Data)
    requires x.silent == Unknown
    ensures Applied(x, Opt(d.silent != Unknown, NumberEntry(SilentKey, SilentFlag(d.silent))))
            == x.(silent := d.silent)
  {
    hide ToInt, ToLong, IntText, Applied, Opt, NumberEntry;
    AppliedNumber(x, d.silent != Unknown, SilentKey, SilentFlag(d.silent));
  }

  lemma AppliedScreen(x: Data, d: Data)
    requires Typed(d) && x.screen == -1
    ensures Applied(x, Opt(d.screen != -1, NumberEntry(ScreenKey, d.screen)))
            == x.(screen := d.screen)
  {
    hide ToInt, ToLong, IntText, Applied, Opt, NumberEntry;
    AppliedNumber(x, d.screen != -1, ScreenKey, d.screen);
  }

  lemma AppliedXinerama(x: Data, d: Data)
    requires Typed(d) && x.xinerama == -1
    ensures Applied(x, Opt(d.xinerama != -1, NumberEntry(XineramaKey, d.xinerama)))
            == x.(xinerama := d.xinerama)
  {
    hide ToInt, ToLong, IntText, Applied, Opt, NumberEntry;
    AppliedNumber(x, d.xinerama != -1, XineramaKey, d.xinerama);
  }

  lemma AppliedApplicationId(x: Data, d: Data)
    requires x.applicationId == ""
    ensures Applied(x, Opt(d.applicationId != "", QuotedEntry(ApplicationIdKey, d.applicationId)))
            == x.(applicationId := Collapse(d.applicationId))
  {
    ApplicationIdSet(x, "");
    ApplicationIdSet(x, Collapse(d.applicationId));
    hide Applied, Collapse, Opt, WithKey;
    AppliedText(x, QuotedEntry(ApplicationIdKey, d.applicationId));
  }

  lemma ApplicationIdSet(x: Data, v: string)
    ensures WithKey(x, ApplicationIdKey, v) == x.(applicationId := v)
  {
    hide ToInt, ToLong, ReadDesktop, WithPid;
  }

  lemma AppliedBack(x: Data, d: Data)
    requires Typed(d)
    requires x.silent == Unknown && x.screen == x.xinerama == -1 && x.applicationId == ""
    ensures Applied(x, BackEntries(d))
            == x.(silent := d.silent, screen := d.screen, xinerama := d.xinerama,
                  applicationId := Collapse(d.applicationId))
  {
    hide Applied, Opt, Collapse, NumberEntry, SilentFlag;
    var x1 := x.(silent := d.silent);
    var x2 := x1.(screen := d.screen);
    AppliedFour(x, Opt(d.silent != Unknown, NumberEntry(SilentKey, SilentFlag(d.silent))),
      Opt(d.screen != -1, NumberEntry(ScreenKey, d.screen)),
      Opt(d.xinerama != -1, NumberEntry(XineramaKey, d.xinerama)),
      Opt(d.applicationId != "", QuotedEntry(ApplicationIdKey, d.applicationId)));
    AppliedSilent(x, d);
    AppliedScreen(x1, d);
    AppliedXinerama(x2, d);
    AppliedApplicationId(x2.(xinerama := d.xinerama), d);
  }

  lemma AppliedRequired(x: Data, d: Data, screen: int)
    requires IsInt(screen) && x.name == Collapse(d.name) && x.screen == d.screen
    ensures Applied(x, RequiredEntries(d, screen))
            == x.(name := Collapse(Completed(d, screen).name), screen := Completed(d, screen).screen)
  {
    hide ToInt, ToLong, IntText, Squeeze;
    var a := Opt(d.name == "", EscapedEntry(NameKey, DefaultName(d)));
    AppliedConcat(x, a, Opt(d.screen == -1, NumberEntry(ScreenKey, screen)));
    AppliedOpt(x, d.name == "", EscapedEntry(NameKey, DefaultName(d)));
    NumberBack(screen);
    AppliedOpt(Applied(x, a), d.screen == -1, NumberEntry(ScreenKey, screen));
  }

  lemma AppliedData(d: Data)
    requires Typed(d) && NoSpace(d.hostname)
    ensures Applied(NO_DATA, DataEntries(d)) == TidyData(d)
  {
    AppliedConcat(NO_DATA, FrontEntries(d) + MiddleEntries(d), BackEntries(d));
    AppliedConcat(NO_DATA, FrontEntries(d), MiddleEntries(d));
    AppliedFront(NO_DATA, d);
    AppliedMiddle(Applied(NO_DATA, FrontEntries(d)), d);
    AppliedBack(Applied(NO_DATA, FrontEntries(d) + MiddleEntries(d)), d);
  }

  // ---------------------------------------------------------------- the printed entries are clean

  lemma NumberClean(k: Key, n: int)
    ensures Clean(NumberEntry(k, n))
  {
    DigitsAreVisible(IntText(n));
  }

  lemma {:induction false} PidsClean(pids: seq<int>)
    ensures forall e :: e in PidEntries(pids) ==> Clean(e) && e.key == PidKey
  {
    if pids != [] {
      NumberClean(PidKey, pids[0]);
      PidsClean(pids[1..]);
    }
  }

  /** Clean, and not an ID entry. */
  predicate CleanData(e: Entry) {
    Clean(e) && e.key != IdKey
  }

  lemma OptClean(present: bool, e: Entry)
    requires e.key != IdKey
    requires e.EscapedEntry? || NoSpecial(e.value)
    requires e.BareEntry? ==> NoSpace(e.value)
    ensures forall x :: x in Opt(present, e) ==> CleanData(x)
  {
  }

  lemma NumberOptClean(present: bool, k: Key, n: int)
    requires k != IdKey
    ensures forall x :: x in Opt(present, NumberEntry(k, n)) ==> CleanData(x)
  {
    DigitsAreVisible(IntText(n));
    OptClean(present, NumberEntry(k, n));
  }

  lemma FrontClean(d: Data)
    requires Printable(d)
    ensures forall e :: e in FrontEntries(d) ==> CleanData(e)
  {
    OptClean(d.bin != "", EscapedEntry(BinKey, d.bin));
    OptClean(d.name != "", EscapedEntry(NameKey, d.name));
    OptClean(d.description != "", EscapedEntry(DescriptionKey, d.description));
    OptClean(d.icon != "", QuotedEntry(IconKey, d.icon));
  }

  lemma MiddleClean(d: Data)
    requires Printable(d)
    ensures forall e :: e in MiddleEntries(d) ==> CleanData(e)
  {
    NumberOptClean(d.desktop != 0, DesktopKey, WireDesktop(d.desktop));
    OptClean(d.wmclass != "", QuotedEntry(WmClassKey, d.wmclass));
    OptClean(d.hostname != "", BareEntry(HostnameKey, d.hostname));
    PidsClean(d.pids);
  }

  lemma BackClean(d: Data)
    requires Printable(d)
    ensures forall e :: e in BackEntries(d) ==> CleanData(e)
  {
    NumberOptClean(d.silent != Unknown, SilentKey, SilentFlag(d.silent));
    NumberOptClean(d.screen != -1, ScreenKey, d.screen);
    NumberOptClean(d.xinerama != -1, XineramaKey, d.xinerama);
    OptClean(d.applicationId != "",
      QuotedEntry(ApplicationIdKey, d.applicationId));
  }

  lemma DataClean(d: Data)
    requires Printable(d)
    ensures forall e :: e in DataEntries(d) ==> CleanData(e)
  {
    FrontClean(d);
    MiddleClean(d);
    BackClean(d);
  }

  lemma RequiredClean(d: Data, screen: int)
    ensures forall e :: e in RequiredEntries(d, screen) ==> CleanData(e)
  {
    OptClean(d.name == "", EscapedEntry(NameKey, DefaultName(d)));
    NumberOptClean(d.screen == -1, ScreenKey, screen);
  }

  // ---------------------------------------------------------------- the round trips

  /** Reading the id: the ID entry gives it, the data entries never do. */
  lemma {:induction false} IdFromOthers(id: string, es: seq<Entry>)
    requires forall e :: e in es ==> CleanData(e)
    ensures IdFrom(id, FieldsOfEntries(es)) == id
    decreases |es|
  {
    if es != [] {
      var e := es[0];
      assert CleanData(e);
      HasKey(e.key, Collapse(e.value), IdKey);
      IdFromOthers(id, es[1..]);
      assert FieldsOfEntries(es)[1..] == FieldsOfEntries(es[1..]);
    }
  }

  function IdEntry(id: string): Entry {
    EscapedEntry(IdKey, id)
  }

  lemma IdFromFirst(id: string, es: seq<Entry>)
    requires forall e :: e in es ==> CleanData(e)
    ensures IdFrom("", FieldsOfEntries([IdEntry(id)] + es)) == Collapse(id)
  {
    var all := [IdEntry(id)] + es;
    assert all[0] == IdEntry(id) && all[1..] == es;
    assert FieldsOfEntries(all)[1..] == FieldsOfEntries(es);
    HasKey(IdKey, Collapse(id), IdKey);
    KeyIsPlain(IdKey);
    GetStrOf(KeyText(IdKey), Collapse(id));
    IdFromOthers(Collapse(id), es);
  }

  lemma AppliedAfterId(id: string, es: seq<Entry>)
    ensures Applied(NO_DATA, [IdEntry(id)] + es) == Applied(NO_DATA, es)
  {
    var all := [IdEntry(id)] + es;
    assert all[0] == IdEntry(id) && all[1..] == es;
  }

  /** The text after the message type, with any clean entries after the id. */
  lemma ReadEntries(id: string, gap: string, es: seq<Entry>, text: string)
    requires gap != [] && NoVisible(gap) && forall e :: e in es ==> CleanData(e)
    requires text == " " + Render([IdEntry(id)]) + gap + Render(es)
    ensures ReadId(text) == Collapse(id) && ReadData(text) == Applied(NO_DATA, es)
  {
    var first := [IdEntry(id)];
    assert NoVisible(" ");
    TokenisePrinted(first, es, " ", gap);
    IdFromFirst(id, es);
    WithItemsApplied(NO_DATA, first + es);
    AppliedAfterId(id, es);
  }

  /** Trimming the whole message and dropping its type leaves a text with the same fields. */
  lemma TrimmedMessage(kind: string, rest: string)
    requires kind != [] && NoSpace(kind)
    ensures var msg := Trimmed(kind + rest);
            && StartsWith(msg, kind)
            && FieldsOf(msg[|kind|..]) == FieldsOf(rest)
  {
    var t := kind + rest;
    assert t[0] == kind[0];
    assert TrimStart(t) == t;
    TrimEndKeepsPrefix(t, |kind|);
    assert t[..|kind|] == kind && t[|kind|..] == rest;
    SimplifiedIgnoresTrim(rest);
  }

  /** What is read after the message type does not depend on the trimming. */
  lemma ReadTrimmed(kind: string, rest: string)
    requires kind != [] && NoSpace(kind)
    ensures var msg := Trimmed(kind + rest);
            && StartsWith(msg, kind)
            && ReadId(msg[|kind|..]) == ReadId(rest)
            && ReadData(msg[|kind|..]) == ReadData(rest)
  {
    TrimmedMessage(kind, rest);
  }

  lemma IdTextRender(id: string)
    ensures IdText(id) == Render([IdEntry(id)]) + " "
  {
    assert Render([IdEntry(id)]) == " " + Body(IdEntry(id)) + Render([IdEntry(id)][1..]);
    assert [IdEntry(id)][1..] == [];
    assert " ID=\"" == " " + (KeyText(IdKey) + "=\"");
  }

  /** The message texts in terms of their entries. */
  lemma MessageShape(kind: string, id: string, es: seq<Entry>)
    ensures kind + " " + IdText(id) + " " + Render(es)
            == kind + (" " + Render([IdEntry(id)]) + "  " + Render(es))
  {
    hide IdText, Render;
    IdTextRender(id);
    var r, t := Render([IdEntry(id)]), Render(es);
    Regroup(kind + " ", r, " ");
    Regroup(kind + " " + r, " ", " ");
    assert " " + " " == "  ";
    Regroup(kind, " ", r);
    Regroup(kind, " " + r, "  ");
    Regroup(kind, " " + r + "  ", t);
  }

  lemma ReadShaped(kind: string, id: string, es: seq<Entry>)
    requires kind != [] && NoSpace(kind) && forall e :: e in es ==> CleanData(e)
    ensures var msg := Trimmed(kind + " " + IdText(id) + " " + Render(es));
            && StartsWith(msg, kind)
            && ReadId(msg[|kind|..]) == Collapse(id)
            && ReadData(msg[|kind|..]) == Applied(NO_DATA, es)
  {
    var rest := " " + Render([IdEntry(id)]) + "  " + Render(es);
    MessageShape(kind, id, es);
    ReadTrimmed(kind, rest);
    assert NoVisible("  ");
    ReadEntries(id, "  ", es, rest);
  }

  lemma KindsDiffer(msg: string)
    ensures StartsWith(msg, "new:") ==> !StartsWith(msg, "change:") && !StartsWith(msg, "remove:")
    ensures StartsWith(msg, "change:") ==> !StartsWith(msg, "remove:")
  {
    assert "new:"[0] == 'n' && "change:"[0] == 'c' && "remove:"[0] == 'r';
    assert msg != [] ==> forall k :: 1 <= k <= |msg| ==> msg[..k][0] == msg[0];
  }

  /** A `new:` message is read back as the same id and the same record, completed with the
      default NAME and SCREEN; only white-space runs in the texts are collapsed. */
  lemma NewRoundTrip(id: string, d: Data, screen: int)
    requires Typed(d) && Printable(d) && IsInt(screen)
    ensures ReadMessage(NewMessage(id, d, screen))
            == NewInfo(Collapse(id), TidyData(Completed(d, screen)))
  {
    hide Applied, DataEntries, RequiredEntries, Render, IdText, ReadId, ReadData;
    var a := DataEntries(d);
    var b := RequiredEntries(d, screen);
    DataClean(d);
    RequiredClean(d, screen);
    RenderConcat(a, b);
    var front := "new:" + " " + IdText(id) + " ";
    assert NewMessage(id, d, screen) == front + Render(a) + Render(b);
    assert front + Render(a) + Render(b) == front + (Render(a) + Render(b));
    ReadShaped("new:", id, a + b);
    AppliedConcat(NO_DATA, a, b);
    AppliedData(d);
    AppliedRequired(TidyData(d), d, screen);
  }

  /** A `change:` message is read back as the same id and record, texts collapsed. */
  lemma ChangeRoundTrip(id: string, d: Data)
    requires Typed(d) && Printable(d)
    ensures ReadMessage(ChangeMessage(id, d)) == ChangeInfo(Collapse(id), TidyData(d))
  {
    hide Applied, DataEntries, Render, IdText, ReadId, ReadData;
    DataClean(d);
    assert "change: " == "change:" + " ";
    ReadShaped("change:", id, DataEntries(d));
    KindsDiffer(Trimmed(ChangeMessage(id, d)));
    AppliedData(d);
  }

  /** A `remove:` message with data likewise, for a null id as well. */
  lemma RemoveRoundTrip(id: string, d: Data)
    requires Typed(d) && Printable(d)
    ensures ReadMessage(FinishDataMessage(id, d)) == RemoveInfo(Collapse(id), TidyData(d))
  {
    hide Applied, DataEntries, Render, IdText, ReadId, ReadData;
    DataClean(d);
    assert "remove: " == "remove:" + " ";
    ReadShaped("remove:", id, DataEntries(d));
    KindsDiffer(Trimmed(FinishDataMessage(id, d)));
    AppliedData(d);
  }

  /** A `remove:` message without data carries the id alone. */
  lemma FinishRoundTrip(id: string)
    ensures ReadMessage(FinishMessage(id)) == RemoveInfo(Collapse(id), NO_DATA)
  {
    hide IdText, ReadId, ReadData, Collapse, Render, Applied, Trimmed;
    var rest := " " + Render([IdEntry(id)]) + " ";
    IdTextRender(id);
    assert "remove: " + (Render([IdEntry(id)]) + " ") == "remove:" + rest;
    NothingRead();
    assert NoVisible(" ") && rest + "" == rest;
    ReadEntries(id, " ", [], rest);
    KindsDiffer(Trimmed(FinishMessage(id)));
    ReadTrimmed("remove:", rest);
  }

  lemma NothingRead()
    ensures Render([]) == "" && Applied(NO_DATA, []) == NO_DATA
  {
  }

  /** Collapsing a record is idempotent and keeps it printable. */
  lemma TidyTwice(d: Data)
    requires Typed(d) && Printable(d)
    ensures TidyData(TidyData(d)) == TidyData(d)
    ensures Typed(TidyData(d)) && Printable(TidyData(d))
  {
    SqueezeIdempotent(d.bin, false);
    SqueezeIdempotent(d.name, false);
    SqueezeIdempotent(d.description, false);
    SqueezeIdempotent(d.icon, false);
    SqueezeIdempotent(d.wmclass, false);
    SqueezeIdempotent(d.applicationId, false);
    SqueezeKeepsClean(d.icon, false);
    SqueezeKeepsClean(d.wmclass, false);
    SqueezeKeepsClean(d.applicationId, false);
  }

  /** A record that was completed and read has a name, so completing it again changes nothing. */
  lemma CompletedTwice(d: Data, screen: int, again: int)
    requires Completed(d, screen).screen != -1 || again == screen
    ensures Completed(TidyData(Completed(d, screen)), again) == TidyData(Completed(d, screen))
  {
    CollapseEmpty(Completed(d, screen).name);
    hide Collapse;
  }

  /** Printing and reading a record that was itself read changes nothing, whatever the kind of
      the message; a `new:` message may even come from another screen. */
  lemma SecondRoundTrip(id: string, d: Data, screen: int, again: int)
    requires Typed(d) && Printable(d) && IsInt(screen) && IsInt(again)
    requires Completed(d, screen).screen != -1 || again == screen
    ensures ReadMessage(ChangeMessage(Collapse(id), TidyData(d))) == ReadMessage(ChangeMessage(id, d))
    ensures ReadMessage(FinishDataMessage(Collapse(id), TidyData(d))) == ReadMessage(FinishDataMessage(id, d))
    ensures ReadMessage(NewMessage(Collapse(id), TidyData(Completed(d, screen)), again))
            == ReadMessage(NewMessage(id, d, screen))
  {
    SqueezeIdempotent(id, false);
    TidyTwice(d);
    CompletedTwice(d, screen, again);
    TidyTwice(Completed(d, screen));
    hide ReadMessage, ChangeMessage, FinishDataMessage, NewMessage, TidyData, Completed;
    ChangeRoundTrip(id, d);
    ChangeRoundTrip(Collapse(id), TidyData(d));
    RemoveRoundTrip(id, d);
    RemoveRoundTrip(Collapse(id), TidyData(d));
    NewRoundTrip(id, d, screen);
    NewRoundTrip(Collapse(id), TidyData(Completed(d, screen)), again);
  }
}
