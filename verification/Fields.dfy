/** The KEY=value fields of a startup-notification message: escaping, tokenising, and the
    proof that tokenising undoes printing. */
module Fields {
  import opened Text

  // ---------------------------------------------------------------- escaping

  predicate IsSpecial(c: char) {
    c == '\\' || c == '"'
  }

  predicate NoSpecial(s: string) {
    forall i :: 0 <= i < |s| ==> !IsSpecial(s[i])
  }

  /** A backslash before every backslash and every quote. */
  function Escaped(s: string): string {
    if s == [] then []
    else (if IsSpecial(s[0]) then ['\\', s[0]] else [s[0]]) + Escaped(s[1..])
  }

  lemma {:induction false} EscapedConcat(a: string, b: string)
    ensures Escaped(a + b) == Escaped(a) + Escaped(b)
  {
    if a == [] {
      assert a + b == b;
    } else {
      assert (a + b)[0] == a[0] && (a + b)[1..] == a[1..] + b;
      EscapedConcat(a[1..], b);
    }
  }

  method EscapeStr(str: string) returns (ret: string)
    ensures ret == Escaped(str)
  {
    ret := [];
    var pos := 0;
    while pos < |str|
      invariant 0 <= pos <= |str|
      invariant ret == Escaped(str[..pos])
    {
      EscapedConcat(str[..pos], [str[pos]]);
      assert str[..pos + 1] == str[..pos] + [str[pos]];
      if str[pos] == '\\' || str[pos] == '"' {
        ret := ret + ['\\'];
      }
      ret := ret + [str[pos]];
      pos := pos + 1;
    }
    assert str[..pos] == str;
  }

  lemma {:induction false} EscapedClean(s: string)
    requires NoSpecial(s)
    ensures Escaped(s) == s
  {
    if s != [] {
      EscapedClean(s[1..]);
    }
  }

  /** Escaping adds one character for each backslash and each quote, and no other. */
  lemma {:induction false} EscapedLength(s: string)
    ensures |Escaped(s)| == |s| + multiset(s)['\\'] + multiset(s)['"']
  {
    if s != [] {
      EscapedLength(s[1..]);
      assert s == [s[0]] + s[1..];
    }
  }

  /** One escaped character. */
  function EscapedChar(c: char): string {
    if IsSpecial(c) then ['\\', c] else [c]
  }

  lemma SqueezeEscapedChar(c: char, prev: bool)
    ensures Squeeze(EscapedChar(c), prev) == Escaped(Squeeze([c], prev))
    ensures EndsInSpace(EscapedChar(c), prev) == IsSpace(c)
  {
    assert [c][1..] == [];
    if IsSpecial(c) {
      assert EscapedChar(c)[1..] == [c];
    }
  }

  /** Escaping and white-space squeezing commute. */
  lemma {:induction false} SqueezeEscaped(s: string, prev: bool)
    ensures Squeeze(Escaped(s), prev) == Escaped(Squeeze(s, prev))
    ensures EndsInSpace(Escaped(s), prev) == EndsInSpace(s, prev)
  {
    if s != [] {
      var c, t := s[0], s[1..];
      assert s == [c] + t && Escaped(s) == EscapedChar(c) + Escaped(t);
      SqueezeEscaped(t, IsSpace(c));
      SqueezeEscapedChar(c, prev);
      assert EndsInSpace([c], prev) == IsSpace(c);
      SpaceAtEnd(EscapedChar(c), Escaped(t), prev);
      SpaceAtEnd([c], t, prev);
      hide Squeeze, Escaped, EndsInSpace, EscapedChar;
      SqueezeConcat(EscapedChar(c), Escaped(t), prev);
      SqueezeConcat([c], t, prev);
      EscapedConcat(Squeeze([c], prev), Squeeze(t, IsSpace(c)));
    }
  }

  lemma SpaceAtEnd(a: string, b: string, prev: bool)
    ensures EndsInSpace(a + b, prev) == EndsInSpace(b, EndsInSpace(a, prev))
  {
    if b == [] {
      assert a + b == a;
    }
  }

  // ---------------------------------------------------------------- tokenising

  /** What the tokeniser still returns from the rest of the text, given the field read so
      far, whether it is inside quotes and whether the last character was a backslash. */
  function Scan(txt: string, item: string, quoted: bool, escape: bool): seq<string>
    decreases |txt|
  {
    if txt == [] then [item]
    else
      var c := txt[0];
      if escape then Scan(txt[1..], item + [c], quoted, false)
      else if c == '\\' then Scan(txt[1..], item, quoted, true)
      else if c == '"' then Scan(txt[1..], item, !quoted, false)
      else if c == ' ' && !quoted then [item] + Scan(txt[1..], [], quoted, false)
      else Scan(txt[1..], item + [c], quoted, false)
  }

  function FieldsOf(txt: string): seq<string> {
    Scan(Simplified(txt), [], false, false)
  }

  method GetFields(text: string) returns (ret: seq<string>)
    ensures ret == FieldsOf(text)
  {
    var txt := Simplified(text);
    ret := [];
    var item: string := [];
    var quoted := false;
    var escape := false;
    var pos := 0;
    while pos < |txt|
      invariant 0 <= pos <= |txt|
      invariant FieldsOf(text) == ret + Scan(txt[pos..], item, quoted, escape)
    {
      assert txt[pos..][1..] == txt[pos + 1..];
      if escape {
        item := item + [txt[pos]];
        escape := false;
      } else if txt[pos] == '\\' {
        escape := true;
      } else if txt[pos] == '"' {
        quoted := !quoted;
      } else if txt[pos] == ' ' && !quoted {
        ret := ret + [item];
        item := [];
      } else {
        item := item + [txt[pos]];
      }
      pos := pos + 1;
    }
    ret := ret + [item];
  }

  /** Characters that mean nothing to the tokeniser are copied. */
  lemma {:induction false} ScanPlain(s: string, rest: string, item: string, quoted: bool)
    requires NoSpecial(s) && (quoted || ' ' !in s)
    ensures Scan(s + rest, item, quoted, false) == Scan(rest, item + s, quoted, false)
  {
    if s == [] {
      assert s + rest == rest && item + s == item;
    } else {
      assert (s + rest)[0] == s[0] && (s + rest)[1..] == s[1..] + rest;
      assert s[0] in s;
      ScanPlain(s[1..], rest, item + [s[0]], quoted);
      assert item + [s[0]] + s[1..] == item + s;
    }
  }

  /** One character of the text, in front of the rest. */
  lemma ScanChar(c: char, rest: string, item: string, quoted: bool, escape: bool)
    ensures Scan([c] + rest, item, quoted, escape)
            == if escape then Scan(rest, item + [c], quoted, false)
               else if c == '\\' then Scan(rest, item, quoted, true)
               else if c == '"' then Scan(rest, item, !quoted, false)
               else if c == ' ' && !quoted then [item] + Scan(rest, [], quoted, false)
               else Scan(rest, item + [c], quoted, false)
  {
    assert ([c] + rest)[1..] == rest;
  }

  /** Inside quotes the tokeniser undoes escaping, for every value. */
  lemma {:induction false} ScanEscaped(s: string, rest: string, item: string)
    ensures Scan(Escaped(s) + rest, item, true, false) == Scan(rest, item + s, true, false)
  {
    hide Scan;
    if s == [] {
      assert Escaped(s) + rest == rest && item + s == item;
    } else {
      var c, t := s[0], s[1..];
      var tail := Escaped(t) + rest;
      ScanEscaped(t, rest, item + [c]);
      assert item + [c] + t == item + s by {
        Regroup(item, [c], t);
      }
      assert Escaped(s) == EscapedChar(c) + Escaped(t);
      hide Escaped;
      Regroup(EscapedChar(c), Escaped(t), rest);
      if IsSpecial(c) {
        assert EscapedChar(c) == ['\\'] + [c];
        Regroup(['\\'], [c], tail);
        ScanChar('\\', [c] + tail, item, true, false);
        ScanChar(c, tail, item, true, true);
      } else {
        ScanChar(c, tail, item, true, false);
      }
    }
  }

  // ---------------------------------------------------------------- keys

  datatype Key =
    | IdKey | BinKey | NameKey | DescriptionKey | IconKey | DesktopKey | WmClassKey
    | HostnameKey | PidKey | SilentKey | ScreenKey | XineramaKey | ApplicationIdKey

  function KeyText(k: Key): string {
    match k
    case IdKey => "ID"
    case BinKey => "BIN"
    case NameKey => "NAME"
    case DescriptionKey => "DESCRIPTION"
    case IconKey => "ICON"
    case DesktopKey => "DESKTOP"
    case WmClassKey => "WMCLASS"
    case HostnameKey => "HOSTNAME"
    case PidKey => "PID"
    case SilentKey => "SILENT"
    case ScreenKey => "SCREEN"
    case XineramaKey => "XINERAMA"
    case ApplicationIdKey => "APPLICATION_ID"
  }

  lemma KeyTextsDiffer(a: Key, b: Key)
    ensures KeyText(a) == KeyText(b) <==> a == b
  {
    if a != b && |KeyText(a)| == |KeyText(b)| {
      assert KeyText(a)[0] != KeyText(b)[0] || KeyText(a)[1] != KeyText(b)[1];
    }
  }

  predicate PlainKey(k: string) {
    k != [] && NoSpace(k) && NoSpecial(k) && '=' !in k
  }

  predicate KeyChars(s: string) {
    forall i :: 0 <= i < |s| ==> 'A' <= s[i] <= 'Z' || s[i] == '_'
  }

  lemma KeyCharsArePlain(s: string)
    requires s != [] && KeyChars(s)
    ensures PlainKey(s)
  {
  }

  lemma KeyIsPlain(k: Key)
    ensures PlainKey(KeyText(k))
  {
    assert KeyText(k) != [] && KeyChars(KeyText(k));
    hide KeyText, KeyChars, PlainKey;
    KeyCharsArePlain(KeyText(k));
  }

  /** A key and its '=' sign. */
  function Front(k: Key): string {
    KeyText(k) + "="
  }

  lemma KeyFront(k: Key)
    ensures Front(k) != [] && NoSpace(Front(k)) && NoSpecial(Front(k)) && ' ' !in Front(k)
  {
    KeyIsPlain(k);
    assert IsSpace(' ');
  }

  // ---------------------------------------------------------------- entries

  /** One KEY=value entry as the printers write it: quoted and escaped, quoted only, or bare. */
  datatype Entry =
    | EscapedEntry(key: Key, value: string)
    | QuotedEntry(key: Key, value: string)
    | BareEntry(key: Key, value: string)

  function Body(e: Entry): string {
    match e
    case EscapedEntry(k, v) => Front(k) + "\"" + Escaped(v) + "\""
    case QuotedEntry(k, v) => Front(k) + "\"" + v + "\""
    case BareEntry(k, v) => Front(k) + v
  }

  /** Printed entries: each one is preceded by a space. */
  function Render(es: seq<Entry>): string {
    if es == [] then [] else " " + Body(es[0]) + Render(es[1..])
  }

  /** The entries that survive printing: escaped ones always, quoted ones without
      backslashes and quotes, bare ones without white space as well. */
  predicate Clean(e: Entry) {
    && (e.QuotedEntry? ==> NoSpecial(e.value))
    && (e.BareEntry? ==> NoSpecial(e.value) && NoSpace(e.value))
  }

  function FieldOf(e: Entry): string {
    Front(e.key) + Collapse(e.value)
  }

  function FieldsOfEntries(es: seq<Entry>): seq<string> {
    if es == [] then [] else [FieldOf(es[0])] + FieldsOfEntries(es[1..])
  }

  lemma {:induction false} RenderConcat(a: seq<Entry>, b: seq<Entry>)
    ensures Render(a + b) == Render(a) + Render(b)
  {
    if a == [] {
      assert a + b == b;
    } else {
      assert (a + b)[0] == a[0] && (a + b)[1..] == a[1..] + b;
      RenderConcat(a[1..], b);
    }
  }

  lemma {:induction false} FieldsOfEntriesConcat(a: seq<Entry>, b: seq<Entry>)
    ensures FieldsOfEntries(a + b) == FieldsOfEntries(a) + FieldsOfEntries(b)
  {
    if a == [] {
      assert a + b == b;
    } else {
      assert (a + b)[0] == a[0] && (a + b)[1..] == a[1..] + b;
      FieldsOfEntriesConcat(a[1..], b);
    }
  }

  /** The same entry with its value collapsed. */
  function Tidy(e: Entry): Entry {
    e.(value := Collapse(e.value))
  }

  lemma {:induction false} SqueezeKeepsClean(s: string, prev: bool)
    ensures NoSpecial(s) ==> NoSpecial(Squeeze(s, prev))
    ensures NoSpace(s) ==> Squeeze(s, prev) == s
  {
    if s != [] {
      SqueezeKeepsClean(s[1..], IsSpace(s[0]));
      assert NoSpecial(s) ==> NoSpecial(s[1..]);
    }
  }

  lemma SqueezeWrapped(front: string, v: string, back: string, prev: bool)
    requires front != [] && NoSpace(front) && NoSpace(back)
    ensures Squeeze(front + v + back, prev) == front + Collapse(v) + back
  {
    SqueezeConcat(front + v, back, prev);
    SqueezeConcat(front, v, prev);
    SqueezeNoSpace(front, prev);
    SqueezeNoSpace(back, EndsInSpace(front + v, prev));
  }

  lemma BodyEnds(e: Entry)
    requires Clean(e)
    ensures Body(e) != [] && !IsSpace(Body(e)[0]) && !IsSpace(Body(e)[|Body(e)| - 1])
  {
    KeyFront(e.key);
    assert Body(e)[0] == Front(e.key)[0];
    if e.BareEntry? && e.value != [] {
      assert Body(e)[|Body(e)| - 1] == e.value[|e.value| - 1];
    }
  }

  /** Squeezing a printed entry prints the entry with its value collapsed. */
  lemma SqueezeBody(e: Entry, prev: bool)
    requires Clean(e)
    ensures Squeeze(Body(e), prev) == Body(Tidy(e))
  {
    KeyFront(e.key);
    var v := e.value;
    match e
    case EscapedEntry(k, _) =>
      SqueezeWrapped(Front(k) + "\"", Escaped(v), "\"", prev);
      SqueezeEscaped(v, false);
    case QuotedEntry(k, _) =>
      SqueezeWrapped(Front(k) + "\"", v, "\"", prev);
    case BareEntry(k, _) =>
      SqueezeWrapped(Front(k), v, "", prev);
      assert Front(k) + v + "" == Front(k) + v;
      assert Front(k) + Collapse(v) + "" == Front(k) + Collapse(v);
  }

  /** Entries separated by single spaces: the simplified form of the printed text. */
  function Joined(es: seq<Entry>): string
    requires es != []
  {
    if |es| == 1 then Body(Tidy(es[0])) else Body(Tidy(es[0])) + " " + Joined(es[1..])
  }

  /** Squeezing the text of one more entry in front of a printed group. */
  lemma SqueezeFront(e: Entry, rest: string, prev: bool)
    requires Clean(e)
    ensures Squeeze(" " + Body(e) + rest, prev)
            == (if prev then [] else " ") + Body(Tidy(e)) + Squeeze(rest, false)
  {
    hide Body;
    BodyEnds(e);
    var b := Body(e);
    assert " " + b + rest == [' '] + (b + rest);
    SqueezeChar(' ', b + rest, prev);
    SqueezeConcat(b, rest, true);
    SqueezeBody(e, true);
    var head := if prev then [] else " ";
    assert head + (Body(Tidy(e)) + Squeeze(rest, false)) == head + Body(Tidy(e)) + Squeeze(rest, false);
  }

  lemma JoinedMore(es: seq<Entry>)
    requires |es| > 1
    ensures Joined(es) == Body(Tidy(es[0])) + (" " + Joined(es[1..]))
  {
    hide Body, Tidy;
    var b, rest := Body(Tidy(es[0])), Joined(es[1..]);
    Regroup(b, " ", rest);
  }

  lemma {:induction false} SqueezeRender(es: seq<Entry>, prev: bool)
    requires forall e :: e in es ==> Clean(e)
    ensures Squeeze(Render(es), prev)
            == if es == [] then [] else (if prev then [] else " ") + Joined(es)
  {
    hide Body, Tidy, Clean;
    if es != [] {
      assert es[0] in es;
      var p := if prev then [] else " ";
      var b := Body(Tidy(es[0]));
      assert Render(es) == " " + Body(es[0]) + Render(es[1..]);
      if |es| == 1 {
        assert es[1..] == [];
        assert p + b + [] == p + b;
        SqueezeFront(es[0], [], prev);
      } else {
        JoinedMore(es);
        hide Squeeze, Joined, Render;
        SqueezeFront(es[0], Render(es[1..]), prev);
        SqueezeRender(es[1..], false);
        Regroup(p, b, " " + Joined(es[1..]));
      }
    }
  }

  lemma {:induction false} RenderEnds(es: seq<Entry>, prev: bool)
    requires es != [] && forall e :: e in es ==> Clean(e)
    ensures !EndsInSpace(Render(es), prev)
  {
    assert Clean(es[0]);
    BodyEnds(es[0]);
    if |es| > 1 {
      RenderEnds(es[1..], prev);
    }
  }

  lemma RenderNotEmpty(es: seq<Entry>)
    requires es != []
    ensures Render(es) != []
  {
  }

  lemma {:induction false} JoinedEnds(es: seq<Entry>)
    requires es != [] && forall e :: e in es ==> Clean(e)
    ensures Joined(es) != [] && !IsSpace(Joined(es)[|Joined(es)| - 1])
  {
    var e := es[0];
    assert Clean(e);
    if |es| == 1 {
      BodyEnds(e);
      SqueezeBody(e, false);
      SqueezeEnds(Body(e), false);
    } else {
      JoinedEnds(es[1..]);
    }
  }

  /** The tokeniser reads one printed entry as its field. */
  lemma ScanBody(e: Entry, rest: string)
    requires Clean(e)
    ensures Scan(Body(Tidy(e)) + rest, [], false, false) == Scan(rest, FieldOf(e), false, false)
  {
    SqueezeKeepsClean(e.value, false);
    if e.BareEntry? {
      ScanBare(e.key, Collapse(e.value), rest);
    } else {
      var v := Collapse(e.value);
      var mid := if e.EscapedEntry? then Escaped(v) else v;
      ScanQuoted(e, v, mid, rest);
      QuotedBodyText(Tidy(e), mid, rest);
    }
  }

  lemma Regroup(a: string, b: string, c: string)
    ensures (a + b) + c == a + (b + c)
  {
  }

  lemma QuotedBodyText(e: Entry, mid: string, rest: string)
    requires !e.BareEntry?
    requires mid == (if e.EscapedEntry? then Escaped(e.value) else e.value)
    ensures Body(e) + rest == Front(e.key) + (['"'] + (mid + (['"'] + rest)))
  {
    hide Front;
    var front := Front(e.key);
    var q := ['"'];
    assert Body(e) == front + q + mid + q;
    hide Body;
    Regroup(front + q + mid, q, rest);
    Regroup(front + q, mid, q + rest);
    Regroup(front, q, mid + (q + rest));
  }

  lemma ScanBare(k: Key, v: string, rest: string)
    requires NoSpecial(v) && NoSpace(v)
    ensures Scan(Front(k) + v + rest, [], false, false) == Scan(rest, Front(k) + v, false, false)
  {
    KeyFront(k);
    assert ' ' !in v by { assert IsSpace(' '); }
    ScanPlain(Front(k) + v, rest, [], false);
    assert [] + (Front(k) + v) == Front(k) + v;
  }

  lemma ScanQuoted(e: Entry, v: string, mid: string, rest: string)
    requires mid == (if e.EscapedEntry? then Escaped(v) else v)
    requires e.EscapedEntry? || NoSpecial(v)
    ensures Scan(Front(e.key) + (['"'] + (mid + (['"'] + rest))), [], false, false)
            == Scan(rest, Front(e.key) + v, false, false)
  {
    var front := Front(e.key);
    var closing := ['"'] + rest;
    KeyFront(e.key);
    ScanPlain(front, ['"'] + (mid + closing), [], false);
    assert [] + front == front;
    ScanChar('"', mid + closing, front, false, false);
    ScanValue(e, v, mid, closing, front);
    ScanChar('"', rest, front + v, true, false);
  }

  lemma ScanValue(e: Entry, v: string, mid: string, rest: string, item: string)
    requires mid == (if e.EscapedEntry? then Escaped(v) else v)
    requires e.EscapedEntry? || NoSpecial(v)
    ensures Scan(mid + rest, item, true, false) == Scan(rest, item + v, true, false)
  {
    if e.EscapedEntry? {
      ScanEscaped(v, rest, item);
    } else {
      ScanPlain(v, rest, item, true);
    }
  }

  lemma {:induction false} ScanJoined(es: seq<Entry>)
    requires es != [] && forall e :: e in es ==> Clean(e)
    ensures Scan(Joined(es), [], false, false) == FieldsOfEntries(es)
  {
    hide Body, FieldOf;
    var e := es[0];
    assert Clean(e);
    if |es| == 1 {
      ScanBody(e, []);
      assert Body(Tidy(e)) + [] == Body(Tidy(e));
      assert es[1..] == [];
    } else {
      var rest := " " + Joined(es[1..]);
      assert Joined(es) == Body(Tidy(e)) + rest;
      ScanBody(e, rest);
      assert rest[1..] == Joined(es[1..]);
      ScanJoined(es[1..]);
    }
  }

  lemma JoinedTokens(es: seq<Entry>, text: string)
    requires es != [] && forall e :: e in es ==> Clean(e)
    requires Squeeze(text, true) == Joined(es) || Squeeze(text, true) == Joined(es) + " "
    ensures FieldsOf(text) == FieldsOfEntries(es)
  {
    JoinedEnds(es);
    TrimEndVisible(Joined(es));
    ScanJoined(es);
    var s := Joined(es) + " ";
    assert s[..|s| - 1] == Joined(es);
  }

  /** The text between two printed groups may be any white space. */
  lemma SqueezeGroups(es: seq<Entry>, more: seq<Entry>, lead: string, gap: string)
    requires es != [] && NoVisible(lead) && gap != [] && NoVisible(gap)
    requires forall e :: e in es ==> Clean(e)
    requires forall e :: e in more ==> Clean(e)
    ensures Squeeze(lead + Render(es) + gap + Render(more), true)
            == if more == [] then Joined(es) + " " else Joined(es) + " " + Joined(more)
  {
    SqueezeLead(es, lead);
    SqueezeGap(lead + Render(es), gap, Render(more));
    SqueezeAll(more);
  }

  lemma SqueezeAll(es: seq<Entry>)
    requires forall e :: e in es ==> Clean(e)
    ensures Squeeze(Render(es), true) == if es == [] then [] else Joined(es)
  {
    SqueezeRender(es, true);
    assert es != [] ==> [] + Joined(es) == Joined(es);
  }

  lemma SqueezeGap(a: string, gap: string, b: string)
    requires !EndsInSpace(a, true) && gap != [] && NoVisible(gap)
    ensures Squeeze(a + gap + b, true) == Squeeze(a, true) + " " + Squeeze(b, true)
  {
    SqueezeConcat(a, gap, true);
    SqueezeBlank(gap, false);
    SqueezeConcat(a + gap, b, true);
  }

  lemma SqueezeLead(es: seq<Entry>, lead: string)
    requires es != [] && NoVisible(lead) && forall e :: e in es ==> Clean(e)
    ensures Squeeze(lead + Render(es), true) == Joined(es)
    ensures !EndsInSpace(lead + Render(es), true)
  {
    hide Squeeze, Render, Joined;
    SqueezeBlank(lead, true);
    SqueezeConcat(lead, Render(es), true);
    SqueezeRender(es, true);
    RenderEnds(es, true);
    RenderNotEmpty(es);
    hide Clean;
    assert [] + Joined(es) == Joined(es);
    SpaceAtEnd(lead, Render(es), true);
  }

  predicate NoVisible(s: string) {
    forall i :: 0 <= i < |s| ==> IsSpace(s[i])
  }

  lemma {:induction false} SqueezeBlank(s: string, prev: bool)
    requires NoVisible(s)
    ensures Squeeze(s, prev) == if prev || s == [] then [] else " "
    ensures EndsInSpace(s, prev) == (prev || s != [])
  {
    if s != [] {
      SqueezeBlank(s[1..], true);
    }
  }

  /** Printing entries and tokenising gives back each KEY=value with only its white-space
      runs collapsed, whatever white space surrounds the two printed groups. */
  lemma TokenisePrinted(es: seq<Entry>, more: seq<Entry>, lead: string, gap: string)
    requires es != [] && NoVisible(lead) && gap != [] && NoVisible(gap)
    requires forall e :: e in es ==> Clean(e)
    requires forall e :: e in more ==> Clean(e)
    ensures FieldsOf(lead + Render(es) + gap + Render(more)) == FieldsOfEntries(es + more)
  {
    SqueezeGroups(es, more, lead, gap);
    JoinedConcat(es, more);
    JoinedTokens(es + more, lead + Render(es) + gap + Render(more));
  }

  lemma {:induction false} JoinedConcat(a: seq<Entry>, b: seq<Entry>)
    requires a != []
    ensures Joined(a + b) == if b == [] then Joined(a) else Joined(a) + " " + Joined(b)
  {
    if b == [] {
      assert a + b == a;
    } else if |a| > 1 {
      assert (a + b)[0] == a[0] && (a + b)[1..] == a[1..] + b;
      JoinedConcat(a[1..], b);
    } else {
      assert (a + b)[0] == a[0] && (a + b)[1..] == b;
    }
  }

  /** A lone printed group. */
  lemma TokeniseGroup(es: seq<Entry>)
    requires es != [] && forall e :: e in es ==> Clean(e)
    ensures FieldsOf(Render(es)) == FieldsOfEntries(es)
  {
    SqueezeRender(es, true);
    JoinedTokens(es, Render(es));
  }

  // ---------------------------------------------------------------- what squeezing keeps

  /** Squeezing keeps every visible character and leaves a trace of white space. */
  lemma {:induction false} SqueezeReflects(s: string)
    ensures NoSpecial(Collapse(s)) ==> NoSpecial(s)
    ensures ' ' !in Collapse(s) ==> NoSpace(s)
  {
    SqueezeReflectsFrom(s, false);
  }

  lemma {:induction false} SqueezeReflectsFrom(s: string, prev: bool)
    ensures NoSpecial(Squeeze(s, prev)) ==> NoSpecial(s)
    ensures !prev && ' ' !in Squeeze(s, prev) ==> NoSpace(s)
  {
    if s != [] {
      var sp := IsSpace(s[0]);
      var t := Squeeze(s[1..], sp);
      var out := if !sp then [s[0]] else if prev then [] else " ";
      assert Squeeze(s, prev) == out + t;
      SqueezeReflectsFrom(s[1..], sp);
      if NoSpecial(Squeeze(s, prev)) {
        forall i | 0 <= i < |t| ensures !IsSpecial(t[i]) {
          assert (out + t)[|out| + i] == t[i];
        }
        assert !sp ==> (out + t)[0] == s[0];
        forall i | 0 <= i < |s| ensures !IsSpecial(s[i]) {
          assert i > 0 ==> s[i] == s[1..][i - 1];
        }
      }
      if !prev && ' ' !in Squeeze(s, prev) {
        SqueezeSeesSpace(s, t, out);
        assert forall i :: 0 <= i < |t| ==> t[i] == (out + t)[|out| + i];
        forall i | 0 <= i < |s| ensures !IsSpace(s[i]) {
          assert i > 0 ==> s[i] == s[1..][i - 1];
        }
      }
    }
  }

  lemma SqueezeSeesSpace(s: string, t: string, out: string)
    requires s != [] && ' ' !in out + t && out == if IsSpace(s[0]) then " " else [s[0]]
    ensures !IsSpace(s[0])
  {
    assert out[0] == (out + t)[0];
  }
}
