/** The format of startup-notification texts, written out: what is printed for every record, how
    every text is cut into fields, and what every field means. */
module WireFormat {
  import opened Text
  import opened Fields
  import opened StartupData
  import opened StartupText

  // ---------------------------------------------------------------- what is printed

  function PidText(pids: seq<int>): string {
    if pids == [] then "" else " PID=" + IntText(pids[0]) + PidText(pids[1..])
  }

  function FrontText(d: Data): string {
    (if d.bin == "" then "" else " BIN=\"" + Escaped(d.bin) + "\"")
    + (if d.name == "" then "" else " NAME=\"" + Escaped(d.name) + "\"")
    + (if d.description == "" then "" else " DESCRIPTION=\"" + Escaped(d.description) + "\"")
    + (if d.icon == "" then "" else " ICON=\"" + d.icon + "\"")
  }

  /** Desktops are numbered from 0 in messages, and -1 stays. */
  function MiddleText(d: Data): string {
    (if d.desktop == 0 then "" else " DESKTOP=" + IntText(if d.desktop == -1 then -1 else d.desktop - 1))
    + (if d.wmclass == "" then "" else " WMCLASS=\"" + d.wmclass + "\"")
    + (if d.hostname == "" then "" else " HOSTNAME=" + d.hostname)
    + PidText(d.pids)
  }

  function BackText(d: Data): string {
    (match d.silent case Unknown => "" case Yes => " SILENT=1" case No => " SILENT=0")
    + (if d.screen == -1 then "" else " SCREEN=" + IntText(d.screen))
    + (if d.xinerama == -1 then "" else " XINERAMA=" + IntText(d.xinerama))
    + (if d.applicationId == "" then "" else " APPLICATION_ID=\"" + d.applicationId + "\"")
  }

  /** What sendStartup adds if they are missing. */
  function RequiredText(d: Data, screen: int): string {
    (if d.name != "" then "" else " NAME=\"" + Escaped(if d.bin == "" then "UNKNOWN" else d.bin) + "\"")
    + (if d.screen != -1 then "" else " SCREEN=" + IntText(screen))
  }

  lemma EntryForms(k: Key, v: string)
    ensures Render([EscapedEntry(k, v)]) == " " + KeyText(k) + "=\"" + Escaped(v) + "\""
    ensures Render([QuotedEntry(k, v)]) == " " + KeyText(k) + "=\"" + v + "\""
    ensures Render([BareEntry(k, v)]) == " " + KeyText(k) + "=" + v
  {
    hide KeyText, Escaped, Render;
    RenderOne(EscapedEntry(k, v));
    RenderOne(QuotedEntry(k, v));
    RenderOne(BareEntry(k, v));
    QuotedForm(KeyText(k), Escaped(v));
    QuotedForm(KeyText(k), v);
  }

  /** One optional entry: present, with its key and text, or nothing. */
  lemma OptForm(present: bool, e: Entry, text: string)
    requires Render([e]) == text
    ensures Render(Opt(present, e)) == if present then text else ""
  {
    hide Render;
    PrintedFirst(present, e);
  }

  lemma QuotedFronts()
    ensures " " + KeyText(BinKey) + "=\"" == " BIN=\""
    ensures " " + KeyText(NameKey) + "=\"" == " NAME=\""
    ensures " " + KeyText(DescriptionKey) + "=\"" == " DESCRIPTION=\""
    ensures " " + KeyText(IconKey) + "=\"" == " ICON=\""
    ensures " " + KeyText(WmClassKey) + "=\"" == " WMCLASS=\""
    ensures " " + KeyText(ApplicationIdKey) + "=\"" == " APPLICATION_ID=\""
  {
  }

  lemma BareFronts()
    ensures " " + KeyText(DesktopKey) + "=" == " DESKTOP="
    ensures " " + KeyText(HostnameKey) + "=" == " HOSTNAME="
    ensures " " + KeyText(PidKey) + "=" == " PID="
    ensures " " + KeyText(SilentKey) + "=" == " SILENT="
    ensures " " + KeyText(ScreenKey) + "=" == " SCREEN="
    ensures " " + KeyText(XineramaKey) + "=" == " XINERAMA="
  {
  }

  lemma QuotedKeys(v: string)
    ensures Render([EscapedEntry(BinKey, v)]) == " BIN=\"" + Escaped(v) + "\""
    ensures Render([EscapedEntry(NameKey, v)]) == " NAME=\"" + Escaped(v) + "\""
    ensures Render([EscapedEntry(DescriptionKey, v)]) == " DESCRIPTION=\"" + Escaped(v) + "\""
    ensures Render([QuotedEntry(IconKey, v)]) == " ICON=\"" + v + "\""
    ensures Render([QuotedEntry(WmClassKey, v)]) == " WMCLASS=\"" + v + "\""
    ensures Render([QuotedEntry(ApplicationIdKey, v)]) == " APPLICATION_ID=\"" + v + "\""
  {
    hide Render, Escaped, KeyText;
    QuotedFronts();
    EntryForms(BinKey, v);
    EntryForms(NameKey, v);
    EntryForms(DescriptionKey, v);
    EntryForms(IconKey, v);
    EntryForms(WmClassKey, v);
    EntryForms(ApplicationIdKey, v);
  }

  lemma BareKeys(v: string)
    ensures Render([BareEntry(DesktopKey, v)]) == " DESKTOP=" + v
    ensures Render([BareEntry(HostnameKey, v)]) == " HOSTNAME=" + v
    ensures Render([BareEntry(PidKey, v)]) == " PID=" + v
    ensures Render([BareEntry(SilentKey, v)]) == " SILENT=" + v
    ensures Render([BareEntry(ScreenKey, v)]) == " SCREEN=" + v
    ensures Render([BareEntry(XineramaKey, v)]) == " XINERAMA=" + v
  {
    hide Render, Escaped, KeyText;
    BareFronts();
    EntryForms(DesktopKey, v);
    EntryForms(HostnameKey, v);
    EntryForms(PidKey, v);
    EntryForms(SilentKey, v);
    EntryForms(ScreenKey, v);
    EntryForms(XineramaKey, v);
  }

  lemma FourForms(a: seq<Entry>, b: seq<Entry>, c: seq<Entry>, e: seq<Entry>)
    ensures Render(a + b + c + e) == Render(a) + Render(b) + Render(c) + Render(e)
  {
    hide Render;
    RenderConcat(a + b + c, e);
    RenderConcat(a + b, c);
    RenderConcat(a, b);
  }

  lemma FrontForm(d: Data)
    ensures Render(FrontEntries(d)) == FrontText(d)
  {
    hide Render, Escaped, Opt;
    QuotedKeys(d.bin);
    QuotedKeys(d.name);
    QuotedKeys(d.description);
    QuotedKeys(d.icon);
    var a, b := EscapedEntry(BinKey, d.bin), EscapedEntry(NameKey, d.name);
    var c, e := EscapedEntry(DescriptionKey, d.description), QuotedEntry(IconKey, d.icon);
    OptForm(d.bin != "", a, " BIN=\"" + Escaped(d.bin) + "\"");
    OptForm(d.name != "", b, " NAME=\"" + Escaped(d.name) + "\"");
    OptForm(d.description != "", c, " DESCRIPTION=\"" + Escaped(d.description) + "\"");
    OptForm(d.icon != "", e, " ICON=\"" + d.icon + "\"");
    FourForms(Opt(d.bin != "", a), Opt(d.name != "", b), Opt(d.description != "", c), Opt(d.icon != "", e));
  }

  lemma {:induction false} PidForm(pids: seq<int>)
    ensures Render(PidEntries(pids)) == PidText(pids)
  {
    if pids == [] {
    } else {
      PidForm(pids[1..]);
      RenderConcat([NumberEntry(PidKey, pids[0])], PidEntries(pids[1..]));
      BareKeys(IntText(pids[0]));
      hide Render, IntText;
    }
  }

  lemma MiddleForm(d: Data)
    ensures Render(MiddleEntries(d)) == MiddleText(d)
  {
    hide Render, Escaped, Opt, IntText, PidEntries, PidText;
    var n := if d.desktop == -1 then -1 else d.desktop - 1;
    BareKeys(IntText(n));
    QuotedKeys(d.wmclass);
    BareKeys(d.hostname);
    PidForm(d.pids);
    var a, b, c := NumberEntry(DesktopKey, n), QuotedEntry(WmClassKey, d.wmclass), BareEntry(HostnameKey, d.hostname);
    OptForm(d.desktop != 0, a, " DESKTOP=" + IntText(n));
    OptForm(d.wmclass != "", b, " WMCLASS=\"" + d.wmclass + "\"");
    OptForm(d.hostname != "", c, " HOSTNAME=" + d.hostname);
    FourForms(Opt(d.desktop != 0, a), Opt(d.wmclass != "", b), Opt(d.hostname != "", c), PidEntries(d.pids));
  }

  lemma FlagForm()
    ensures IntText(0) == "0" && IntText(1) == "1"
  {
  }

  lemma BackForm(d: Data)
    ensures Render(BackEntries(d)) == BackText(d)
  {
    FlagForm();
    hide Render, Escaped, Opt, IntText;
    var flag := if d.silent == Yes then 1 else 0;
    BareKeys(IntText(flag));
    BareKeys(IntText(d.screen));
    BareKeys(IntText(d.xinerama));
    QuotedKeys(d.applicationId);
    var a, b := NumberEntry(SilentKey, flag), NumberEntry(ScreenKey, d.screen);
    var c, e := NumberEntry(XineramaKey, d.xinerama), QuotedEntry(ApplicationIdKey, d.applicationId);
    OptForm(d.silent != Unknown, a, " SILENT=" + IntText(flag));
    assert " SILENT=" + "1" == " SILENT=1" && " SILENT=" + "0" == " SILENT=0";
    OptForm(d.screen != -1, b, " SCREEN=" + IntText(d.screen));
    OptForm(d.xinerama != -1, c, " XINERAMA=" + IntText(d.xinerama));
    OptForm(d.applicationId != "", e, " APPLICATION_ID=\"" + d.applicationId + "\"");
    FourForms(Opt(d.silent != Unknown, a), Opt(d.screen != -1, b), Opt(d.xinerama != -1, c),
              Opt(d.applicationId != "", e));
  }

  lemma RequiredForm(d: Data, screen: int)
    ensures Render(RequiredEntries(d, screen)) == RequiredText(d, screen)
  {
    hide Render, Escaped, Opt, IntText;
    QuotedKeys(DefaultName(d));
    BareKeys(IntText(screen));
    var a, b := EscapedEntry(NameKey, DefaultName(d)), NumberEntry(ScreenKey, screen);
    OptForm(d.name == "", a, " NAME=\"" + Escaped(DefaultName(d)) + "\"");
    OptForm(d.screen == -1, b, " SCREEN=" + IntText(screen));
    RenderConcat(Opt(d.name == "", a), Opt(d.screen == -1, b));
  }

  /** What is printed for a record, and for an id. */
  lemma RecordForm(d: Data)
    ensures Render(DataEntries(d)) == FrontText(d) + MiddleText(d) + BackText(d)
  {
    hide Render, FrontEntries, MiddleEntries, BackEntries, FrontText, MiddleText, BackText;
    FrontForm(d);
    MiddleForm(d);
    BackForm(d);
    RenderConcat(FrontEntries(d) + MiddleEntries(d), BackEntries(d));
    RenderConcat(FrontEntries(d), MiddleEntries(d));
  }

  /** The four kinds of messages, as they are sent. */
  lemma MessageForms(id: string, d: Data, screen: int)
    ensures var idText, record := " ID=\"" + Escaped(id) + "\" ", FrontText(d) + MiddleText(d) + BackText(d);
            && NewMessage(id, d, screen) == "new: " + idText + " " + record + RequiredText(d, screen)
            && ChangeMessage(id, d) == "change: " + idText + " " + record
            && FinishDataMessage(id, d) == "remove: " + idText + " " + record
            && FinishMessage(id) == "remove: " + idText
  {
    hide Render, DataEntries, RequiredEntries, FrontText, MiddleText, BackText, RequiredText, Escaped;
    RecordForm(d);
    RequiredForm(d, screen);
  }

  // ---------------------------------------------------------------- how a text is cut into fields

  /** The character at i follows a backslash that is not itself escaped. */
  predicate IsEscaped(t: string, i: nat)
    requires i <= |t|
  {
    i > 0 && t[i - 1] == '\\' && !IsEscaped(t, i - 1)
  }

  /** An odd number of quotes that are not escaped lies before i. */
  predicate InQuotes(t: string, i: nat)
    requires i <= |t|
  {
    i > 0 && (InQuotes(t, i - 1) != (t[i - 1] == '"' && !IsEscaped(t, i - 1)))
  }

  /** A field ends at a space that is neither escaped nor in quotes. */
  predicate IsCut(t: string, i: nat)
    requires i < |t|
  {
    t[i] == ' ' && !IsEscaped(t, i) && !InQuotes(t, i)
  }

  /** Backslashes and quotes are marks and not part of a field, unless they are escaped. */
  predicate IsMark(t: string, i: nat)
    requires i < |t|
  {
    (t[i] == '\\' || t[i] == '"') && !IsEscaped(t, i)
  }

  /** The characters from i to j without the marks. */
  function Unmarked(t: string, i: nat, j: nat): string
    requires i <= j <= |t|
    decreases j - i
  {
    if i == j then "" else (if IsMark(t, i) then "" else [t[i]]) + Unmarked(t, i + 1, j)
  }

  /** The next place at or after i where a field ends. */
  function NextCut(t: string, i: nat): (j: nat)
    requires i <= |t|
    ensures i <= j <= |t| && (j < |t| ==> IsCut(t, j)) && forall k :: i <= k < j ==> !IsCut(t, k)
    decreases |t| - i
  {
    if i == |t| || IsCut(t, i) then i else NextCut(t, i + 1)
  }

  /** The fields from i on: the stretches between the cuts. */
  function Stretches(t: string, i: nat): seq<string>
    requires i <= |t|
    decreases |t| - i
  {
    var j := NextCut(t, i);
    [Unmarked(t, i, j)] + if j < |t| then Stretches(t, j + 1) else []
  }

  /** One turn of the tokeniser, with what was read before it as flags. */
  lemma ScanTurn(t: string, i: nat, item: string)
    requires i < |t|
    ensures Scan(t[i..], item, InQuotes(t, i), IsEscaped(t, i))
            == if IsCut(t, i) then [item] + Scan(t[i + 1..], "", InQuotes(t, i + 1), IsEscaped(t, i + 1))
               else Scan(t[i + 1..], item + if IsMark(t, i) then "" else [t[i]],
                         InQuotes(t, i + 1), IsEscaped(t, i + 1))
  {
    var q, e := InQuotes(t, i), IsEscaped(t, i);
    FlagsStep(t, i);
    hide InQuotes, IsEscaped;
    assert t[i..] == [t[i]] + t[i + 1..];
    ScanChar(t[i], t[i + 1..], item, q, e);
    assert item + "" == item;
    hide Scan;
  }

  lemma FlagsStep(t: string, i: nat)
    requires i < |t|
    ensures IsEscaped(t, i + 1) <==> t[i] == '\\' && !IsEscaped(t, i)
    ensures InQuotes(t, i + 1) <==> InQuotes(t, i) != (t[i] == '"' && !IsEscaped(t, i))
  {
  }

  lemma UnmarkedStep(t: string, i: nat, j: nat)
    requires i < j <= |t|
    ensures Unmarked(t, i, j) == (if IsMark(t, i) then "" else [t[i]]) + Unmarked(t, i + 1, j)
  {
  }

  lemma Emptied(a: string)
    ensures a + "" == a && "" + a == a
  {
  }

  /** The fields from i on, when the characters of item belong to the first of them. */
  function StretchesWith(t: string, i: nat, item: string): seq<string>
    requires i <= |t|
  {
    var j := NextCut(t, i);
    [item + Unmarked(t, i, j)] + if j < |t| then Stretches(t, j + 1) else []
  }

  lemma StretchesFrom(t: string, i: nat)
    requires i <= |t|
    ensures Stretches(t, i) == StretchesWith(t, i, "")
  {
    Emptied(Unmarked(t, i, NextCut(t, i)));
  }

  lemma StretchesCut(t: string, i: nat, item: string)
    requires i < |t| && IsCut(t, i)
    ensures StretchesWith(t, i, item) == [item] + StretchesWith(t, i + 1, "")
  {
    StretchesFrom(t, i + 1);
    Emptied(item);
    hide IsCut, IsMark;
  }

  lemma StretchesGoOn(t: string, i: nat, item: string)
    requires i < |t| && !IsCut(t, i)
    ensures StretchesWith(t, i, item) == StretchesWith(t, i + 1, item + if IsMark(t, i) then "" else [t[i]])
  {
    NextCutStep(t, i);
    var j := NextCut(t, i);
    UnmarkedStep(t, i, j);
    Regroup(item, if IsMark(t, i) then "" else [t[i]], Unmarked(t, i + 1, j));
    hide IsCut, IsMark, Unmarked, NextCut, Stretches;
  }

  lemma {:induction false} ScanStretches(t: string, i: nat, item: string)
    requires i <= |t|
    ensures Scan(t[i..], item, InQuotes(t, i), IsEscaped(t, i)) == StretchesWith(t, i, item)
    decreases |t| - i
  {
    if i == |t| {
      assert t[i..] == [];
      Emptied(item);
    } else {
      ScanTurn(t, i, item);
      if IsCut(t, i) {
        ScanStretches(t, i + 1, "");
        StretchesCut(t, i, item);
      } else {
        ScanStretches(t, i + 1, item + if IsMark(t, i) then "" else [t[i]]);
        StretchesGoOn(t, i, item);
      }
      hide Scan, IsCut, IsMark, InQuotes, IsEscaped, StretchesWith;
    }
  }

  lemma NextCutStep(t: string, i: nat)
    requires i < |t| && !IsCut(t, i)
    ensures NextCut(t, i) == NextCut(t, i + 1) > i
  {
  }

  /** How every text is cut into fields: its words are joined by single spaces; the result is cut
      at the spaces that are neither escaped nor in quotes, and the marks are dropped. */
  lemma FieldsExactly(text: string)
    ensures FieldsOf(text) == Stretches(WithSpaces(Words(text)), 0)
  {
    SimplifiedIsWords(text);
    var t := Simplified(text);
    ScanStretches(t, 0, "");
    StretchesFrom(t, 0);
    assert t[0..] == t;
    hide Words, WithSpaces, Scan, Simplified, Stretches, StretchesWith;
  }

  // ---------------------------------------------------------------- what the fields mean

  datatype Found = Nothing | Value(text: string)

  /** The rest of the last item that starts with the prefix. */
  function LastWith(items: seq<string>, prefix: string): Found {
    if items == [] then Nothing
    else
      var item := items[|items| - 1];
      if StartsWith(item, prefix) then Value(item[|prefix|..]) else LastWith(items[..|items| - 1], prefix)
  }

  /** The numbers in all items that start with the prefix, each listed once, in order. */
  function NumbersWith(items: seq<string>, prefix: string): seq<int> {
    if items == [] then []
    else
      var before, item := NumbersWith(items[..|items| - 1], prefix), items[|items| - 1];
      if !StartsWith(item, prefix) then before
      else
        var n := ToInt(ToLong(item[|prefix|..]));
        if n in before then before else before + [n]
  }

  function TextOr(f: Found, otherwise: string): string {
    if f.Value? then f.text else otherwise
  }

  function NumberOr(f: Found, otherwise: int): int {
    if f.Value? then ToInt(ToLong(f.text)) else otherwise
  }

  lemma KeyedItem(item: string, k: Key, prefix: string)
    requires prefix == KeyText(k) + "="
    ensures Has(item, k) <==> StartsWith(item, prefix)
    ensures StartsWith(item, prefix) ==> GetStr(item) == item[|prefix|..]
    ensures Has(item, k) ==> forall j :: Has(item, j) ==> j == k
  {
    if StartsWith(item, prefix) {
      var v := item[|prefix|..];
      assert item == KeyText(k) + "=" + v;
      KeyIsPlain(k);
      EqualsAfterKey(KeyText(k), v);
      forall j | Has(item, j) ensures j == k {
        HasKey(k, v, j);
      }
    }
  }

  lemma WithItemsSnoc(d: Data, items: seq<string>)
    requires items != []
    ensures WithItems(d, items) == WithItem(WithItems(d, items[..|items| - 1]), items[|items| - 1])
  {
    var n := |items| - 1;
    assert items == items[..n] + [items[n]];
    WithItemsConcat(d, items[..n], [items[n]]);
    assert [items[n]][1..] == [];
    hide WithItem;
  }

  /** What the text fields of a record are after some items. */
  predicate TextsAre(d: Data, items: seq<string>) {
    && d.bin == TextOr(LastWith(items, "BIN="), "")
    && d.name == TextOr(LastWith(items, "NAME="), "")
    && d.description == TextOr(LastWith(items, "DESCRIPTION="), "")
    && d.icon == TextOr(LastWith(items, "ICON="), "")
    && d.wmclass == TextOr(LastWith(items, "WMCLASS="), "")
    && d.hostname == TextOr(LastWith(items, "HOSTNAME="), "")
    && d.applicationId == TextOr(LastWith(items, "APPLICATION_ID="), "")
  }

  /** What its numbers are; desktops count from 0 in messages, and -1 means all of them. */
  predicate NumbersAre(d: Data, items: seq<string>) {
    && (var n := NumberOr(LastWith(items, "DESKTOP="), -1);
        d.desktop == if LastWith(items, "DESKTOP=") == Nothing then 0 else if n == -1 then -1 else ToInt(n + 1))
    && d.screen == NumberOr(LastWith(items, "SCREEN="), -1)
    && d.xinerama == NumberOr(LastWith(items, "XINERAMA="), -1)
    && d.pids == NumbersWith(items, "PID=")
    && d.silent == match LastWith(items, "SILENT=")
                   case Nothing => Unknown
                   case Value(v) => if ToLong(v) != 0 then Yes else No
  }

  lemma ItemPrefixes(item: string)
    ensures Has(item, BinKey) <==> StartsWith(item, "BIN=")
    ensures Has(item, NameKey) <==> StartsWith(item, "NAME=")
    ensures Has(item, DescriptionKey) <==> StartsWith(item, "DESCRIPTION=")
    ensures Has(item, IconKey) <==> StartsWith(item, "ICON=")
    ensures Has(item, WmClassKey) <==> StartsWith(item, "WMCLASS=")
    ensures Has(item, HostnameKey) <==> StartsWith(item, "HOSTNAME=")
    ensures Has(item, ApplicationIdKey) <==> StartsWith(item, "APPLICATION_ID=")
    ensures Has(item, DesktopKey) <==> StartsWith(item, "DESKTOP=")
    ensures Has(item, ScreenKey) <==> StartsWith(item, "SCREEN=")
    ensures Has(item, XineramaKey) <==> StartsWith(item, "XINERAMA=")
    ensures Has(item, PidKey) <==> StartsWith(item, "PID=")
    ensures Has(item, SilentKey) <==> StartsWith(item, "SILENT=")
    ensures Has(item, IdKey) <==> StartsWith(item, "ID=")
  {
    assert "BIN" + "=" == "BIN=" && "NAME" + "=" == "NAME=" && "DESCRIPTION" + "=" == "DESCRIPTION=";
    assert "ICON" + "=" == "ICON=" && "WMCLASS" + "=" == "WMCLASS=" && "HOSTNAME" + "=" == "HOSTNAME=";
    assert "APPLICATION_ID" + "=" == "APPLICATION_ID=" && "DESKTOP" + "=" == "DESKTOP=" && "SCREEN" + "=" == "SCREEN=";
    assert "XINERAMA" + "=" == "XINERAMA=" && "PID" + "=" == "PID=";
    assert "SILENT" + "=" == "SILENT=" && "ID" + "=" == "ID=";
    hide StartsWith;
  }

  lemma ItemValue(item: string, k: Key)
    requires Has(item, k)
    ensures |KeyText(k)| + 1 <= |item| && GetStr(item) == item[|KeyText(k)| + 1..]
    ensures forall j :: Has(item, j) ==> j == k
  {
    KeyedItem(item, k, KeyText(k) + "=");
  }

  lemma LastWithStep(items: seq<string>, item: string, prefix: string)
    ensures LastWith(items + [item], prefix)
            == if StartsWith(item, prefix) then Value(item[|prefix|..]) else LastWith(items, prefix)
    ensures NumbersWith(items + [item], prefix)
            == if !StartsWith(item, prefix) then NumbersWith(items, prefix)
               else WithPid(NumbersWith(items, prefix), ToInt(ToLong(item[|prefix|..])))
  {
    assert (items + [item])[..|items|] == items;
    hide StartsWith;
  }

  /** One more item for the texts: the field of its key, if any, becomes its value. */
  lemma TextsStep(d: Data, items: seq<string>, item: string)
    requires TextsAre(d, items)
    ensures TextsAre(WithItem(d, item), items + [item])
  {
    ItemPrefixes(item);
    if k :| Has(item, k) {
      ItemValue(item, k);
    }
    LastWithStep(items, item, "BIN=");
    LastWithStep(items, item, "NAME=");
    LastWithStep(items, item, "DESCRIPTION=");
    LastWithStep(items, item, "ICON=");
    LastWithStep(items, item, "WMCLASS=");
    LastWithStep(items, item, "HOSTNAME=");
    LastWithStep(items, item, "APPLICATION_ID=");
    hide LastWith, NumbersWith, Has, StartsWith, GetStr, GetNum, ReadDesktop, ToInt, ToLong, WithPid;
  }

  /** What one item does to the numbers of a record. */
  lemma ItemNumbers(d: Data, item: string)
    ensures var e := WithItem(d, item);
            && e.desktop == (if Has(item, DesktopKey) then ReadDesktop(GetNum(item)) else d.desktop)
            && e.screen == (if Has(item, ScreenKey) then ToInt(GetNum(item)) else d.screen)
            && e.xinerama == (if Has(item, XineramaKey) then ToInt(GetNum(item)) else d.xinerama)
            && e.pids == (if Has(item, PidKey) then WithPid(d.pids, ToInt(GetNum(item))) else d.pids)
            && e.silent == if Has(item, SilentKey) then if GetNum(item) != 0 then Yes else No else d.silent
  {
    hide Has, GetStr, ReadDesktop, ToInt, WithPid, KeyText, ToLong;
    if k :| Has(item, k) {
      ItemValue(item, k);
      ItemIsKeyed(item, k);
      WithItemIsWithKey(d, k, GetStr(item));
      hide WithItem;
    }
  }

  lemma ItemIsKeyed(item: string, k: Key)
    requires Has(item, k)
    ensures item == KeyText(k) + "=" + GetStr(item)
  {
    ItemValue(item, k);
    assert item[..|KeyText(k)| + 1] == KeyText(k) + "=";
  }

  /** The rest of an item is its value. */
  lemma ItemNumber(item: string, k: Key, prefix: string)
    requires prefix == KeyText(k) + "=" && Has(item, k)
    ensures |prefix| <= |item| && GetNum(item) == ToLong(item[|prefix|..])
  {
    ItemValue(item, k);
  }

  lemma NumberItems(item: string)
    ensures Has(item, DesktopKey) ==> |item| >= 8 && GetNum(item) == ToLong(item[8..])
    ensures Has(item, ScreenKey) ==> |item| >= 7 && GetNum(item) == ToLong(item[7..])
    ensures Has(item, XineramaKey) ==> |item| >= 9 && GetNum(item) == ToLong(item[9..])
    ensures Has(item, PidKey) ==> |item| >= 4 && GetNum(item) == ToLong(item[4..])
    ensures Has(item, SilentKey) ==> |item| >= 7 && GetNum(item) == ToLong(item[7..])
  {
    hide Has, GetNum, ToLong;
    if Has(item, DesktopKey) {
      ItemNumber(item, DesktopKey, KeyText(DesktopKey) + "=");
    }
    if Has(item, ScreenKey) {
      ItemNumber(item, ScreenKey, KeyText(ScreenKey) + "=");
    }
    if Has(item, XineramaKey) {
      ItemNumber(item, XineramaKey, KeyText(XineramaKey) + "=");
    }
    if Has(item, PidKey) {
      ItemNumber(item, PidKey, KeyText(PidKey) + "=");
    }
    if Has(item, SilentKey) {
      ItemNumber(item, SilentKey, KeyText(SilentKey) + "=");
    }
  }

  lemma NumbersStep(d: Data, items: seq<string>, item: string)
    requires NumbersAre(d, items)
    ensures NumbersAre(WithItem(d, item), items + [item])
  {
    hide LastWith, NumbersWith, Has, StartsWith, GetStr, GetNum, ToInt, ToLong, WithPid, WithItem, KeyText;
    ItemPrefixes(item);
    ItemNumbers(d, item);
    NumberItems(item);
    LastWithStep(items, item, "DESKTOP=");
    LastWithStep(items, item, "SCREEN=");
    LastWithStep(items, item, "XINERAMA=");
    LastWithStep(items, item, "PID=");
    LastWithStep(items, item, "SILENT=");
  }

  lemma {:induction false} ItemsExactly(items: seq<string>)
    ensures TextsAre(WithItems(NO_DATA, items), items) && NumbersAre(WithItems(NO_DATA, items), items)
  {
    hide WithItem, TextsAre, NumbersAre;
    if items == [] {
      NoItems();
    } else {
      var n := |items| - 1;
      ItemsExactly(items[..n]);
      assert items == items[..n] + [items[n]];
      WithItemsSnoc(NO_DATA, items);
      TextsStep(WithItems(NO_DATA, items[..n]), items[..n], items[n]);
      NumbersStep(WithItems(NO_DATA, items[..n]), items[..n], items[n]);
    }
  }

  lemma NoItems()
    ensures TextsAre(NO_DATA, []) && NumbersAre(NO_DATA, [])
  {
  }

  lemma {:induction false} IdExactly(id: string, items: seq<string>)
    ensures IdFrom(id, items) == TextOr(LastWith(items, "ID="), id)
    decreases |items|
  {
    if items != [] {
      var item := items[0];
      var id1 := if Has(item, IdKey) then GetStr(item) else id;
      IdExactly(id1, items[1..]);
      ItemPrefixes(item);
      if Has(item, IdKey) {
        ItemValue(item, IdKey);
      }
      LastWithFirst(items, "ID=");
      hide LastWith, Has, StartsWith, GetStr;
    }
  }

  lemma {:induction false} LastWithFirst(items: seq<string>, prefix: string)
    requires items != []
    ensures LastWith(items, prefix)
            == if LastWith(items[1..], prefix).Value? then LastWith(items[1..], prefix)
               else if StartsWith(items[0], prefix) then Value(items[0][|prefix|..]) else Nothing
    decreases |items|
  {
    hide StartsWith;
    if |items| > 1 {
      var n := |items| - 1;
      LastWithFirst(items[..n], prefix);
      assert items[..n][1..] == items[1..][..n - 1];
    } else {
      assert items[1..] == [] && items[..0] == [];
    }
  }

  /** What every text means: the id is the last ID field, and each field of the record is that of
      the last field with its key, or the default; PIDs are collected. Other fields are ignored. */
  lemma ReadingExactly(text: string)
    ensures ReadId(text) == TextOr(LastWith(FieldsOf(text), "ID="), "")
    ensures TextsAre(ReadData(text), FieldsOf(text)) && NumbersAre(ReadData(text), FieldsOf(text))
  {
    hide FieldsOf, TextsAre, NumbersAre, LastWith, WithItems, IdFrom;
    IdExactly("", FieldsOf(text));
    ItemsExactly(FieldsOf(text));
  }

  /** What kind of message a text is: the first word decides, up to its colon. */
  lemma KindExactly(text: string)
    ensures var t := Trimmed(text);
            ReadMessage(text)
            == if |t| >= 4 && t[..4] == "new:" then NewInfo(ReadId(t[4..]), ReadData(t[4..]))
               else if |t| >= 7 && t[..7] == "change:" then ChangeInfo(ReadId(t[7..]), ReadData(t[7..]))
               else if |t| >= 7 && t[..7] == "remove:" then RemoveInfo(ReadId(t[7..]), ReadData(t[7..]))
               else NoInfo
  {
    hide Trimmed, ReadId, ReadData;
  }
}
