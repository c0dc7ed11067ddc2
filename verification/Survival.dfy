/** Exactly which records survive being printed and read: a count of what the tokeniser can put
    into fields shows that nothing an unescaped value loses is made up for elsewhere. */
module Survival {
  import opened Text
  import opened Fields
  import opened StartupData
  import opened StartupText

  // ---------------------------------------------------------------- counting

  /** The characters that are counted: they are lost in turn. */
  datatype Class = Backslash | Quote | Space

  predicate In(k: Class, c: char) {
    match k
    case Backslash => c == '\\'
    case Quote => c == '"'
    case Space => IsSpace(c)
  }

  function One(k: Class, c: char): nat {
    if In(k, c) then 1 else 0
  }

  function Count(k: Class, s: string): nat {
    if s == [] then 0 else One(k, s[0]) + Count(k, s[1..])
  }

  function CountAll(k: Class, ss: seq<string>): nat {
    if ss == [] then 0 else Count(k, ss[0]) + CountAll(k, ss[1..])
  }

  lemma {:induction false} CountConcat(k: Class, a: string, b: string)
    ensures Count(k, a + b) == Count(k, a) + Count(k, b)
  {
    if a == [] {
      assert a + b == b;
    } else {
      assert (a + b)[0] == a[0] && (a + b)[1..] == a[1..] + b;
      CountConcat(k, a[1..], b);
    }
  }

  lemma {:induction false} CountAllConcat(k: Class, a: seq<string>, b: seq<string>)
    ensures CountAll(k, a + b) == CountAll(k, a) + CountAll(k, b)
  {
    if a == [] {
      assert a + b == b;
    } else {
      assert (a + b)[0] == a[0] && (a + b)[1..] == a[1..] + b;
      CountAllConcat(k, a[1..], b);
    }
  }

  lemma {:induction false} CountNone(k: Class, s: string)
    ensures Count(k, s) == 0 <==> forall i :: 0 <= i < |s| ==> !In(k, s[i])
  {
    if s != [] {
      CountNone(k, s[1..]);
      assert s == [s[0]] + s[1..];
    }
  }

  /** Squeezing white space keeps all other characters. */
  lemma {:induction false} CountSqueezed(k: Class, s: string, prev: bool)
    requires k != Space
    ensures Count(k, Squeeze(s, prev)) == Count(k, s)
  {
    if s != [] {
      var sp := IsSpace(s[0]);
      var head := if !sp then [s[0]] else if prev then [] else " ";
      CountSqueezed(k, s[1..], sp);
      assert Squeeze(s, prev) == head + Squeeze(s[1..], sp);
      CountConcat(k, head, Squeeze(s[1..], sp));
      assert Count(k, head) == if sp then 0 else One(k, s[0]);
    }
  }

  // ---------------------------------------------------------------- what the tokeniser emits

  /** How many characters of a class the tokeniser puts into fields. */
  function Emitted(k: Class, txt: string, quoted: bool, escape: bool): nat
    decreases |txt|
  {
    if txt == [] then 0
    else if escape then One(k, txt[0]) + Emitted(k, txt[1..], quoted, false)
    else if txt[0] == '\\' then Emitted(k, txt[1..], quoted, true)
    else if txt[0] == '"' then Emitted(k, txt[1..], !quoted, false)
    else if txt[0] == ' ' && !quoted then Emitted(k, txt[1..], quoted, false)
    else One(k, txt[0]) + Emitted(k, txt[1..], quoted, false)
  }

  lemma CountOne(k: Class, c: char)
    ensures Count(k, [c]) == One(k, c)
  {
    assert [c][1..] == [];
  }

  lemma {:induction false} ScanEmits(k: Class, txt: string, item: string, quoted: bool, escape: bool)
    ensures CountAll(k, Scan(txt, item, quoted, escape)) == Count(k, item) + Emitted(k, txt, quoted, escape)
    decreases |txt|
  {
    if txt == [] {
      assert [item][1..] == [];
    } else {
      var c := txt[0];
      var t := txt[1..];
      CountConcat(k, item, [c]);
      CountOne(k, c);
      if !escape && c == ' ' && !quoted {
        ScanEmits(k, t, [], quoted, false);
        assert ([item] + Scan(t, [], quoted, false))[1..] == Scan(t, [], quoted, false);
      } else {
        hide Count, One, CountAll;
        if escape {
          ScanEmits(k, t, item + [c], quoted, false);
        } else if c == '\\' {
          ScanEmits(k, t, item, quoted, true);
        } else if c == '"' {
          ScanEmits(k, t, item, !quoted, false);
        } else {
          ScanEmits(k, t, item + [c], quoted, false);
        }
      }
    }
  }

  lemma {:induction false} EmittedPrefix(k: Class, a: string, b: string, quoted: bool, escape: bool)
    ensures Emitted(k, a, quoted, escape) <= Emitted(k, a + b, quoted, escape)
    decreases |a|
  {
    if a != [] {
      assert (a + b)[0] == a[0] && (a + b)[1..] == a[1..] + b;
      EmittedPrefix(k, a[1..], b, quoted, false);
      EmittedPrefix(k, a[1..], b, quoted, true);
      EmittedPrefix(k, a[1..], b, !quoted, false);
    }
  }

  lemma {:induction false} TrimEndIsPrefix(s: string)
    ensures exists b :: s == TrimEnd(s) + b
  {
    if s != [] && IsSpace(s[|s| - 1]) {
      TrimEndIsPrefix(s[..|s| - 1]);
      var b :| s[..|s| - 1] == TrimEnd(s[..|s| - 1]) + b;
      assert s == TrimEnd(s) + (b + [s[|s| - 1]]);
    } else {
      assert s == TrimEnd(s) + [];
    }
  }

  /** The fields of a text hold no more than its squeezed form emits. */
  lemma FieldsEmit(k: Class, text: string)
    ensures CountAll(k, FieldsOf(text)) <= Emitted(k, Squeeze(text, true), false, false)
  {
    var s := Squeeze(text, true);
    TrimEndIsPrefix(s);
    var b :| s == TrimEnd(s) + b;
    EmittedPrefix(k, TrimEnd(s), b, false, false);
    ScanEmits(k, TrimEnd(s), [], false, false);
  }

  // ---------------------------------------------------------------- backslashes and quotes

  /** Backslashes and quotes are emitted only after a backslash, quoted or not, and white space
      does not matter. */
  function Literal(k: Class, s: string, escape: bool): nat
    decreases |s|
  {
    if s == [] then 0
    else if escape then One(k, s[0]) + Literal(k, s[1..], false)
    else Literal(k, s[1..], s[0] == '\\')
  }

  function EscapeAfter(s: string, escape: bool): bool
    decreases |s|
  {
    if s == [] then escape else EscapeAfter(s[1..], !escape && s[0] == '\\')
  }

  lemma {:induction false} EmittedIsLiteral(k: Class, s: string, quoted: bool, escape: bool)
    requires k != Space
    ensures Emitted(k, s, quoted, escape) == Literal(k, s, escape)
    decreases |s|
  {
    if s != [] {
      EmittedIsLiteral(k, s[1..], quoted, false);
      EmittedIsLiteral(k, s[1..], quoted, true);
      EmittedIsLiteral(k, s[1..], !quoted, false);
    }
  }

  lemma {:induction false} LiteralSqueezed(k: Class, s: string, prev: bool, escape: bool)
    requires k != Space && !(escape && prev)
    ensures Literal(k, Squeeze(s, prev), escape) == Literal(k, s, escape)
    decreases |s|
  {
    if s != [] {
      var sp := IsSpace(s[0]);
      var t := s[1..];
      SqueezeChar(s[0], t, prev);
      assert s == [s[0]] + t;
      LiteralSqueezed(k, t, sp, !escape && s[0] == '\\');
      var q := Squeeze(s, prev);
      if sp && prev {
        assert q == Squeeze(t, true) && s[0] != '\\';
      } else {
        assert q[1..] == Squeeze(t, sp);
        assert q[0] == (if sp then ' ' else s[0]);
      }
    }
  }

  lemma {:induction false} LiteralConcat(k: Class, a: string, b: string, escape: bool)
    ensures Literal(k, a + b, escape) == Literal(k, a, escape) + Literal(k, b, EscapeAfter(a, escape))
    ensures EscapeAfter(a + b, escape) == EscapeAfter(b, EscapeAfter(a, escape))
    decreases |a|
  {
    if a == [] {
      assert a + b == b;
    } else {
      assert (a + b)[0] == a[0] && (a + b)[1..] == a[1..] + b;
      LiteralConcat(k, a[1..], b, !escape && a[0] == '\\');
    }
  }

  /** An escaped value emits exactly its own special characters. */
  lemma {:induction false} LiteralEscaped(k: Class, v: string)
    requires k != Space
    ensures Literal(k, Escaped(v), false) == Count(k, v) && !EscapeAfter(Escaped(v), false)
  {
    if v != [] {
      var head := if IsSpecial(v[0]) then ['\\', v[0]] else [v[0]];
      LiteralEscaped(k, v[1..]);
      LiteralConcat(k, head, Escaped(v[1..]), false);
      if IsSpecial(v[0]) {
        assert head[1..] == [v[0]] && [v[0]][1..] == [];
      } else {
        assert head[1..] == [];
      }
    }
  }

  /** A raw value emits at most half of its backslashes. */
  lemma {:induction false} LiteralBackslashes(v: string, escape: bool)
    ensures 2 * Literal(Backslash, v, escape) <= Count(Backslash, v) + if escape then 1 else 0
    decreases |v|
  {
    if v != [] {
      LiteralBackslashes(v[1..], !escape && v[0] == '\\');
    }
  }

  lemma {:induction false} LiteralPlain(k: Class, v: string)
    requires '\\' !in v
    ensures Literal(k, v, false) == 0 && !EscapeAfter(v, false)
  {
    if v != [] {
      assert v[0] in v;
      LiteralPlain(k, v[1..]);
    }
  }

  // ---------------------------------------------------------------- entries

  /** What the value of an entry holds when it has survived. */
  function Needs(k: Class, e: Entry): nat {
    if e.BareEntry? then Count(k, e.value) else Count(k, Collapse(e.value))
  }

  function NeedsAll(k: Class, es: seq<Entry>): nat {
    if es == [] then 0 else Needs(k, es[0]) + NeedsAll(k, es[1..])
  }

  /** What a printed entry emits. */
  function Yields(k: Class, e: Entry): nat {
    if k == Space then (if e.BareEntry? then 0 else Count(Space, Collapse(e.value)))
    else Literal(k, Body(e), false)
  }

  function YieldsAll(k: Class, es: seq<Entry>): nat {
    if es == [] then 0 else Yields(k, es[0]) + YieldsAll(k, es[1..])
  }

  lemma {:induction false} NeedsConcat(k: Class, a: seq<Entry>, b: seq<Entry>)
    ensures NeedsAll(k, a + b) == NeedsAll(k, a) + NeedsAll(k, b)
  {
    if a == [] {
      assert a + b == b;
    } else {
      assert (a + b)[0] == a[0] && (a + b)[1..] == a[1..] + b;
      NeedsConcat(k, a[1..], b);
    }
  }

  lemma {:induction false} YieldsConcat(k: Class, a: seq<Entry>, b: seq<Entry>)
    ensures YieldsAll(k, a + b) == YieldsAll(k, a) + YieldsAll(k, b)
  {
    if a == [] {
      assert a + b == b;
    } else {
      assert (a + b)[0] == a[0] && (a + b)[1..] == a[1..] + b;
      YieldsConcat(k, a[1..], b);
    }
  }

  /** If no entry yields more than it needs, and all together yield what they need, each does. */
  lemma {:induction false} AllTight(k: Class, es: seq<Entry>)
    requires forall e :: e in es ==> Yields(k, e) <= Needs(k, e)
    ensures YieldsAll(k, es) <= NeedsAll(k, es)
    ensures NeedsAll(k, es) <= YieldsAll(k, es) ==> forall e :: e in es ==> Yields(k, e) == Needs(k, e)
  {
    hide Yields, Needs;
    if es != [] {
      assert es[0] in es;
      AllTight(k, es[1..]);
      assert forall e :: e in es ==> e == es[0] || e in es[1..];
    }
  }

  lemma FrontLiteral(k: Class, key: Key, quote: bool)
    ensures var front := Front(key) + if quote then "\"" else "";
            Literal(k, front, false) == 0 && !EscapeAfter(front, false)
  {
    KeyFront(key);
    hide Front;
    var front := Front(key) + if quote then "\"" else "";
    assert forall i :: 0 <= i < |front| ==> front[i] != '\\';
    LiteralPlain(k, front);
  }

  /** The literal characters of a printed entry, by its value. */
  lemma BodyLiteral(k: Class, e: Entry)
    requires k != Space
    ensures e.EscapedEntry? ==> Yields(k, e) == Count(k, e.value)
    ensures e.QuotedEntry? ==>
              Yields(k, e) == Literal(k, e.value, false)
                              + if k == Quote && EscapeAfter(e.value, false) then 1 else 0
    ensures e.BareEntry? ==> Yields(k, e) == Literal(k, e.value, false)
    ensures !e.BareEntry? ==> !EscapeAfter(Body(e), false)
  {
    hide Front;
    FrontLiteral(k, e.key, !e.BareEntry?);
    match e
    case EscapedEntry(key, v) =>
      LiteralEscaped(k, v);
      WrappedLiteral(k, Front(key) + "\"", Escaped(v));
    case QuotedEntry(key, v) =>
      WrappedLiteral(k, Front(key) + "\"", v);
    case BareEntry(key, v) =>
      assert Front(key) + "" == Front(key);
      LiteralConcat(k, Front(key), v, false);
  }

  lemma WrappedLiteral(k: Class, front: string, v: string)
    requires k != Space && Literal(k, front, false) == 0 && !EscapeAfter(front, false)
    ensures Literal(k, front + v + "\"", false)
            == Literal(k, v, false) + if k == Quote && EscapeAfter(v, false) then 1 else 0
    ensures !EscapeAfter(front + v + "\"", false)
  {
    LiteralConcat(k, front, v, false);
    LiteralConcat(k, front + v, "\"", false);
    assert "\""[1..] == "";
  }

  /** The printed text emits what its entries emit: the space before each entry ends an escape. */
  lemma {:induction false} RenderLiteral(k: Class, es: seq<Entry>, escape: bool)
    requires k != Space
    ensures Literal(k, Render(es), escape) == YieldsAll(k, es)
    decreases |es|
  {
    hide Body;
    if es != [] {
      var b := Body(es[0]);
      var rest := Render(es[1..]);
      assert Render(es) == [' '] + (b + rest);
      LiteralConcat(k, b, rest, false);
      RenderLiteral(k, es[1..], EscapeAfter(b, false));
      assert Render(es)[0] == ' ' && Render(es)[1..] == b + rest;
    }
  }

  /** White space between printed groups emits no special character. */
  lemma {:induction false} BlankLiteral(k: Class, s: string, escape: bool)
    requires k != Space && NoVisible(s)
    ensures Literal(k, s, escape) == 0
    decreases |s|
  {
    if s != [] {
      BlankLiteral(k, s[1..], false);
    }
  }

  lemma TextLiteral(k: Class, lead: string, a: seq<Entry>, gap: string, b: seq<Entry>)
    requires k != Space && NoVisible(lead) && NoVisible(gap)
    ensures CountAll(k, FieldsOf(lead + Render(a) + gap + Render(b))) <= YieldsAll(k, a + b)
  {
    hide Render, Literal, YieldsAll, Squeeze;
    var text := lead + Render(a) + gap + Render(b);
    FieldsEmit(k, text);
    EmittedIsLiteral(k, Squeeze(text, true), false, false);
    LiteralSqueezed(k, text, true, false);
    LiteralConcat(k, lead + Render(a) + gap, Render(b), false);
    LiteralConcat(k, lead + Render(a), gap, false);
    LiteralConcat(k, lead, Render(a), false);
    BlankLiteral(k, lead, false);
    BlankLiteral(k, gap, EscapeAfter(lead + Render(a), false));
    RenderLiteral(k, a, EscapeAfter(lead, false));
    RenderLiteral(k, b, EscapeAfter(lead + Render(a) + gap, false));
    YieldsConcat(k, a, b);
  }

  // ---------------------------------------------------------------- white space

  /** With no special character in a raw value, what is emitted of white space is what the
      quoted values hold, and the tokeniser leaves each entry outside quotes. */
  predicate RawPlain(e: Entry) {
    !e.EscapedEntry? ==> NoSpecial(e.value)
  }

  /** The state after a text: inside quotes? */
  function QuotedAfter(s: string, quoted: bool, escape: bool): bool
    decreases |s|
  {
    if s == [] then quoted
    else QuotedAfter(s[1..], if !escape && s[0] == '"' then !quoted else quoted, !escape && s[0] == '\\')
  }

  /** What the first character of a text adds. */
  function Gives(k: Class, c: char, quoted: bool, escape: bool): nat {
    if !escape && (c == '\\' || c == '"' || (c == ' ' && !quoted)) then 0 else One(k, c)
  }

  lemma EmittedOne(k: Class, s: string, quoted: bool, escape: bool)
    requires s != []
    ensures Emitted(k, s, quoted, escape)
            == Gives(k, s[0], quoted, escape)
               + Emitted(k, s[1..], if !escape && s[0] == '"' then !quoted else quoted, !escape && s[0] == '\\')
  {
  }

  lemma {:induction false} EmittedConcat(k: Class, a: string, b: string, quoted: bool, escape: bool)
    ensures Emitted(k, a + b, quoted, escape)
            == Emitted(k, a, quoted, escape) + Emitted(k, b, QuotedAfter(a, quoted, escape), EscapeAfter(a, escape))
    ensures QuotedAfter(a + b, quoted, escape) == QuotedAfter(b, QuotedAfter(a, quoted, escape), EscapeAfter(a, escape))
    decreases |a|
  {
    hide One;
    if a == [] {
      assert a + b == b;
    } else {
      var q, e := if !escape && a[0] == '"' then !quoted else quoted, !escape && a[0] == '\\';
      assert (a + b)[0] == a[0] && (a + b)[1..] == a[1..] + b;
      EmittedOne(k, a, quoted, escape);
      EmittedOne(k, a + b, quoted, escape);
      hide Emitted;
      EmittedConcat(k, a[1..], b, q, e);
    }
  }

  lemma {:induction false} EmittedEscaped(v: string)
    ensures Emitted(Space, Escaped(v), true, false) == Count(Space, v)
    ensures QuotedAfter(Escaped(v), true, false) && !EscapeAfter(Escaped(v), false)
  {
    if v != [] {
      var head := if IsSpecial(v[0]) then ['\\', v[0]] else [v[0]];
      EmittedEscaped(v[1..]);
      EmittedConcat(Space, head, Escaped(v[1..]), true, false);
      LiteralConcat(Space, head, Escaped(v[1..]), false);
      if IsSpecial(v[0]) {
        assert head[1..] == [v[0]] && [v[0]][1..] == [];
      } else {
        assert head[1..] == [];
      }
    }
  }

  lemma {:induction false} EmittedPlain(v: string, quoted: bool)
    requires NoSpecial(v) && forall i :: 0 <= i < |v| && IsSpace(v[i]) ==> v[i] == ' '
    ensures Emitted(Space, v, quoted, false) == if quoted then Count(Space, v) else 0
    ensures QuotedAfter(v, quoted, false) == quoted && !EscapeAfter(v, false)
  {
    if v != [] {
      assert !IsSpecial(v[0]);
      EmittedPlain(v[1..], quoted);
    }
  }

  lemma {:induction false} SqueezedSpaces(s: string, prev: bool)
    ensures forall i :: 0 <= i < |Squeeze(s, prev)| && IsSpace(Squeeze(s, prev)[i]) ==> Squeeze(s, prev)[i] == ' '
  {
    if s != [] {
      SqueezedSpaces(s[1..], IsSpace(s[0]));
    }
  }

  lemma WrappedSpaces(front: string, v: string)
    requires NoSpace(front) && NoSpecial(front)
    requires QuotedAfter(v, true, false) && !EscapeAfter(v, false)
    ensures var t := front + "\"" + v + "\"";
            && Emitted(Space, t, false, false) == Emitted(Space, v, true, false)
            && !QuotedAfter(t, false, false) && !EscapeAfter(t, false)
  {
    var q := "\"";
    EmittedPlain(front, false);
    EmittedConcat(Space, front + q + v, q, false, false);
    EmittedConcat(Space, front + q, v, false, false);
    EmittedConcat(Space, front, q, false, false);
    LiteralConcat(Space, front + q + v, q, false);
    LiteralConcat(Space, front + q, v, false);
    LiteralConcat(Space, front, q, false);
    assert q[1..] == "";
  }

  /** The white space of one squeezed entry. */
  lemma BodySpaces(e: Entry, prev: bool)
    requires RawPlain(e)
    ensures var t := Squeeze(Body(e), prev);
            && Emitted(Space, t, false, false) == Yields(Space, e)
            && !QuotedAfter(t, false, false) && !EscapeAfter(t, false)
  {
    var front := Front(e.key);
    var c := Collapse(e.value);
    KeyFront(e.key);
    SqueezedSpaces(e.value, false);
    SqueezeKeepsClean(e.value, false);
    hide Front, Squeeze;
    match e
    case EscapedEntry(_, v) =>
      SqueezeWrapped(front + "\"", Escaped(v), "\"", prev);
      SqueezeEscaped(v, false);
      EmittedEscaped(c);
      WrappedSpaces(front, Escaped(c));
    case QuotedEntry(_, v) =>
      SqueezeWrapped(front + "\"", v, "\"", prev);
      EmittedPlain(c, true);
      WrappedSpaces(front, c);
    case BareEntry(_, v) =>
      SqueezeWrapped(front, v, "", prev);
      assert front + v + "" == front + v && front + c + "" == front + c;
      EmittedPlain(front, false);
      EmittedPlain(c, false);
      EmittedConcat(Space, front, c, false, false);
      LiteralConcat(Space, front, c, false);
  }

  /** A text that ends outside quotes and has emitted n white-space characters. */
  predicate EndsPlain(t: string, n: nat) {
    Emitted(Space, t, false, false) == n && !QuotedAfter(t, false, false) && !EscapeAfter(t, false)
  }

  lemma EndsPlainConcat(a: string, n: nat, b: string, m: nat)
    requires EndsPlain(a, n) && EndsPlain(b, m)
    ensures EndsPlain(a + b, n + m)
  {
    EmittedConcat(Space, a, b, false, false);
    LiteralConcat(Space, a, b, false);
  }

  /** One entry in front of a printed group. */
  lemma FrontSpaces(e: Entry, rest: string, prev: bool, n: nat)
    requires RawPlain(e) && EndsPlain(Squeeze(rest, EndsInSpace(Body(e), true)), n)
    ensures EndsPlain(Squeeze(" " + Body(e) + rest, prev), Yields(Space, e) + n)
  {
    hide Body, Yields, RawPlain;
    var b := Body(e);
    var head := if prev then "" else " ";
    assert " " + b + rest == [' '] + (b + rest);
    SqueezeChar(' ', b + rest, prev);
    SqueezeConcat(b, rest, true);
    hide Squeeze;
    BodySpaces(e, true);
    BlankEndsPlain(head);
    hide EndsPlain;
    EndsPlainConcat(Squeeze(b, true), Yields(Space, e), Squeeze(rest, EndsInSpace(b, true)), n);
    EndsPlainConcat(head, 0, Squeeze(b + rest, true), Yields(Space, e) + n);
  }

  lemma BlankEndsPlain(s: string)
    requires s == "" || s == " "
    ensures EndsPlain(s, 0)
  {
    assert " "[1..] == "";
  }

  lemma {:induction false} RenderSpaces(es: seq<Entry>, prev: bool)
    requires forall e :: e in es ==> RawPlain(e)
    ensures EndsPlain(Squeeze(Render(es), prev), YieldsAll(Space, es))
    decreases |es|
  {
    hide Body, Yields, RawPlain, EndsPlain, Squeeze;
    if es == [] {
      NothingSqueezed(prev);
      BlankEndsPlain("");
    } else {
      assert es[0] in es;
      RenderSpaces(es[1..], EndsInSpace(Body(es[0]), true));
      FrontSpaces(es[0], Render(es[1..]), prev, YieldsAll(Space, es[1..]));
    }
  }

  lemma NothingSqueezed(prev: bool)
    ensures Squeeze("", prev) == ""
  {
  }

  lemma BlankSpaces(s: string, prev: bool)
    requires NoVisible(s)
    ensures EndsPlain(Squeeze(s, prev), 0)
  {
    SqueezeBlank(s, prev);
    BlankEndsPlain(Squeeze(s, prev));
  }

  lemma TextSpaces(lead: string, a: seq<Entry>, gap: string, b: seq<Entry>)
    requires NoVisible(lead) && NoVisible(gap)
    requires forall e :: e in a + b ==> RawPlain(e)
    ensures CountAll(Space, FieldsOf(lead + Render(a) + gap + Render(b))) <= YieldsAll(Space, a + b)
  {
    var t := lead + Render(a) + gap;
    assert forall e :: e in a ==> e in a + b;
    assert forall e :: e in b ==> e in a + b;
    hide Render, YieldsAll, Squeeze, EndsPlain, EndsInSpace, RawPlain, NoVisible, FieldsOf, Emitted;
    FieldsEmit(Space, t + Render(b));
    GapSpaces(lead, a, gap);
    SqueezeConcat(t, Render(b), true);
    RenderSpaces(b, EndsInSpace(t, true));
    EndsPlainConcat(Squeeze(t, true), YieldsAll(Space, a), Squeeze(Render(b), EndsInSpace(t, true)),
                    YieldsAll(Space, b));
    YieldsConcat(Space, a, b);
    EndsPlainEmits(Squeeze(t + Render(b), true), YieldsAll(Space, a + b));
  }

  lemma GapSpaces(lead: string, a: seq<Entry>, gap: string)
    requires NoVisible(lead) && NoVisible(gap)
    requires forall e :: e in a ==> RawPlain(e)
    ensures EndsPlain(Squeeze(lead + Render(a) + gap, true), YieldsAll(Space, a))
  {
    hide Render, YieldsAll, Squeeze, EndsPlain, EndsInSpace, RawPlain, NoVisible;
    var t := lead + Render(a);
    SqueezeConcat(t, gap, true);
    SqueezeConcat(lead, Render(a), true);
    BlankSpaces(lead, true);
    RenderSpaces(a, EndsInSpace(lead, true));
    BlankSpaces(gap, EndsInSpace(t, true));
    EndsPlainConcat(Squeeze(lead, true), 0, Squeeze(Render(a), EndsInSpace(lead, true)), YieldsAll(Space, a));
    EndsPlainConcat(Squeeze(t, true), YieldsAll(Space, a), Squeeze(gap, EndsInSpace(t, true)), 0);
  }

  lemma EndsPlainEmits(t: string, n: nat)
    requires EndsPlain(t, n)
    ensures Emitted(Space, t, false, false) == n
  {
  }

  // ---------------------------------------------------------------- complete texts are clean

  /** Nothing that the entries need is missing from the fields. */
  predicate Complete(k: Class, es: seq<Entry>, fields: seq<string>) {
    NeedsAll(k, es) <= CountAll(k, fields)
  }

  lemma TightBackslash(e: Entry)
    ensures Yields(Backslash, e) <= Needs(Backslash, e)
    ensures Yields(Backslash, e) == Needs(Backslash, e) && !e.EscapedEntry? ==> '\\' !in e.value
  {
    hide Body, Literal;
    BodyLiteral(Backslash, e);
    CountSqueezed(Backslash, e.value, false);
    LiteralBackslashes(e.value, false);
    CountNone(Backslash, e.value);
  }

  lemma TightQuote(e: Entry)
    requires !e.EscapedEntry? ==> '\\' !in e.value
    ensures Yields(Quote, e) <= Needs(Quote, e)
    ensures Yields(Quote, e) == Needs(Quote, e) ==> RawPlain(e)
  {
    hide Body, Literal;
    BodyLiteral(Quote, e);
    CountSqueezed(Quote, e.value, false);
    if !e.EscapedEntry? {
      LiteralPlain(Quote, e.value);
    }
    CountNone(Quote, e.value);
  }

  lemma TightSpace(e: Entry)
    requires RawPlain(e)
    ensures Yields(Space, e) <= Needs(Space, e)
    ensures Yields(Space, e) == Needs(Space, e) ==> Clean(e)
  {
    CountNone(Space, e.value);
  }

  /** If the fields of a printed text hold all that the entries need, every entry is clean:
      first no raw value can hold a backslash, then none a quote, then no bare one white space. */
  lemma CompleteIsClean(lead: string, a: seq<Entry>, gap: string, b: seq<Entry>)
    requires NoVisible(lead) && NoVisible(gap)
    requires forall k :: Complete(k, a + b, FieldsOf(lead + Render(a) + gap + Render(b)))
    ensures forall e :: e in a + b ==> Clean(e)
  {
    hide Render, FieldsOf, Needs, Yields, YieldsAll, NeedsAll, RawPlain, Clean, NoVisible;
    var es := a + b;
    var fields := FieldsOf(lead + Render(a) + gap + Render(b));
    assert Complete(Backslash, es, fields) && Complete(Quote, es, fields) && Complete(Space, es, fields);
    forall e ensures Yields(Backslash, e) <= Needs(Backslash, e) {
      TightBackslash(e);
    }
    TextLiteral(Backslash, lead, a, gap, b);
    AllTight(Backslash, es);
    forall e | e in es ensures Yields(Quote, e) <= Needs(Quote, e) {
      TightBackslash(e);
      TightQuote(e);
    }
    TextLiteral(Quote, lead, a, gap, b);
    AllTight(Quote, es);
    forall e | e in es ensures RawPlain(e) && Yields(Space, e) <= Needs(Space, e) {
      TightBackslash(e);
      TightQuote(e);
      TightSpace(e);
    }
    TextSpaces(lead, a, gap, b);
    AllTight(Space, es);
    forall e | e in es ensures Clean(e) {
      TightSpace(e);
    }
  }

  // ---------------------------------------------------------------- what reading can find

  /** The characters of a class in the texts of a record. */
  function Weight(k: Class, d: Data): nat {
    Count(k, d.bin) + Count(k, d.name) + Count(k, d.description) + Count(k, d.icon)
    + Count(k, d.wmclass) + Count(k, d.hostname) + Count(k, d.applicationId)
  }

  lemma GetStrCount(k: Class, item: string)
    ensures Count(k, GetStr(item)) <= Count(k, item)
  {
    var i := IndexOfEquals(item) + 1;
    CountConcat(k, item[..i], item[i..]);
    assert item == item[..i] + item[i..];
  }

  /** A field has one key. */
  lemma OneKey(item: string, a: Key, b: Key)
    requires Has(item, a) && Has(item, b)
    ensures a == b
  {
    var v := item[|KeyText(a)| + 1..];
    assert item == KeyText(a) + "=" + v;
    HasKey(a, v, b);
  }

  predicate SameTexts(d: Data, e: Data) {
    && d.bin == e.bin && d.name == e.name && d.description == e.description && d.icon == e.icon
    && d.wmclass == e.wmclass && d.hostname == e.hostname && d.applicationId == e.applicationId
  }

  /** Only the text of the field's own key changes. */
  lemma ItemTexts(d: Data, item: string)
    ensures var v, e := GetStr(item), WithItem(d, item);
            || SameTexts(d, e)
            || SameTexts(d.(bin := v), e) || SameTexts(d.(name := v), e)
            || SameTexts(d.(description := v), e) || SameTexts(d.(icon := v), e)
            || SameTexts(d.(wmclass := v), e) || SameTexts(d.(hostname := v), e)
            || SameTexts(d.(applicationId := v), e)
  {
    hide Has, ReadDesktop, GetNum, GetStr, WithPid, ToInt;
  }

  lemma ItemWeight(k: Class, d: Data, item: string)
    ensures Weight(k, WithItem(d, item)) <= Weight(k, d) + Count(k, item)
  {
    hide WithItem, GetStr, Count;
    ItemTexts(d, item);
    GetStrCount(k, item);
  }

  lemma IdItemLeavesData(d: Data, item: string)
    requires Has(item, IdKey)
    ensures WithItem(d, item) == d
  {
    hide Has, ReadDesktop, GetNum, WithPid, GetStr;
    forall b: Key | Has(item, b) ensures b == IdKey {
      OneKey(item, IdKey, b);
    }
  }

  /** Whatever is read comes from the fields, and no field is read twice. */
  lemma {:induction false} ReadWeight(k: Class, id: string, d: Data, items: seq<string>)
    ensures Count(k, IdFrom(id, items)) + Weight(k, WithItems(d, items))
            <= Count(k, id) + Weight(k, d) + CountAll(k, items)
    decreases |items|
  {
    hide Weight, WithItem, Has, GetStr, Count;
    if items != [] {
      var item := items[0];
      if Has(item, IdKey) {
        GetStrCount(k, item);
        IdItemLeavesData(d, item);
        ReadWeight(k, GetStr(item), d, items[1..]);
      } else {
        ItemWeight(k, d, item);
        ReadWeight(k, id, WithItem(d, item), items[1..]);
      }
    }
  }

  lemma TextWeight(k: Class, text: string)
    ensures Count(k, ReadId(text)) + Weight(k, ReadData(text)) <= CountAll(k, FieldsOf(text))
  {
    hide FieldsOf, IdFrom, WithItems;
    ReadWeight(k, "", NO_DATA, FieldsOf(text));
  }

  // ---------------------------------------------------------------- what a record needs

  lemma OptNeeds(k: Class, present: bool, e: Entry)
    ensures NeedsAll(k, Opt(present, e)) == if present then Needs(k, e) else 0
  {
    hide Needs;
    assert [e][1..] == [];
  }

  /** A text field that is printed only when it is not empty. */
  lemma TextNeeds(k: Class, e: Entry)
    requires !e.BareEntry?
    ensures NeedsAll(k, Opt(e.value != "", e)) == Count(k, Collapse(e.value))
  {
    OptNeeds(k, e.value != "", e);
  }

  lemma NumberNeeds(k: Class, present: bool, key: Key, n: int)
    ensures NeedsAll(k, Opt(present, NumberEntry(key, n))) == 0
  {
    OptNeeds(k, present, NumberEntry(key, n));
    NumberCount(k, n);
  }

  lemma NumberCount(k: Class, n: int)
    ensures Count(k, IntText(n)) == 0
  {
    DigitsAreVisible(IntText(n));
    CountNone(k, IntText(n));
  }

  lemma {:induction false} PidsNeed(k: Class, pids: seq<int>)
    ensures NeedsAll(k, PidEntries(pids)) == 0
  {
    if pids != [] {
      NumberCount(k, pids[0]);
      PidsNeed(k, pids[1..]);
      assert PidEntries(pids)[1..] == PidEntries(pids[1..]);
    }
  }

  lemma FourNeed(k: Class, a: seq<Entry>, b: seq<Entry>, c: seq<Entry>, e: seq<Entry>)
    ensures NeedsAll(k, a + b + c + e) == NeedsAll(k, a) + NeedsAll(k, b) + NeedsAll(k, c) + NeedsAll(k, e)
  {
    hide NeedsAll;
    NeedsConcat(k, a, b);
    NeedsConcat(k, a + b, c);
    NeedsConcat(k, a + b + c, e);
  }

  lemma FrontNeeds(k: Class, d: Data)
    ensures NeedsAll(k, FrontEntries(d))
            == Count(k, Collapse(d.bin)) + Count(k, Collapse(d.name)) + Count(k, Collapse(d.description))
               + Count(k, Collapse(d.icon))
  {
    hide NeedsAll, Opt, Count, Collapse;
    TextNeeds(k, EscapedEntry(BinKey, d.bin));
    TextNeeds(k, EscapedEntry(NameKey, d.name));
    TextNeeds(k, EscapedEntry(DescriptionKey, d.description));
    TextNeeds(k, QuotedEntry(IconKey, d.icon));
    FourNeed(k, Opt(d.bin != "", EscapedEntry(BinKey, d.bin)), Opt(d.name != "", EscapedEntry(NameKey, d.name)),
             Opt(d.description != "", EscapedEntry(DescriptionKey, d.description)),
             Opt(d.icon != "", QuotedEntry(IconKey, d.icon)));
  }

  lemma MiddleNeeds(k: Class, d: Data)
    ensures NeedsAll(k, MiddleEntries(d)) == Count(k, Collapse(d.wmclass)) + Count(k, d.hostname)
  {
    OptNeeds(k, d.hostname != "", BareEntry(HostnameKey, d.hostname));
    assert d.hostname == "" ==> Count(k, d.hostname) == 0;
    hide NeedsAll, Opt, Count, Collapse, NumberEntry, WireDesktop;
    NumberNeeds(k, d.desktop != 0, DesktopKey, WireDesktop(d.desktop));
    TextNeeds(k, QuotedEntry(WmClassKey, d.wmclass));
    PidsNeed(k, d.pids);
    FourNeed(k, Opt(d.desktop != 0, NumberEntry(DesktopKey, WireDesktop(d.desktop))),
             Opt(d.wmclass != "", QuotedEntry(WmClassKey, d.wmclass)),
             Opt(d.hostname != "", BareEntry(HostnameKey, d.hostname)), PidEntries(d.pids));
  }

  lemma BackNeeds(k: Class, d: Data)
    ensures NeedsAll(k, BackEntries(d)) == Count(k, Collapse(d.applicationId))
  {
    hide NeedsAll, Opt, Count, Collapse, NumberEntry, SilentFlag;
    NumberNeeds(k, d.silent != Unknown, SilentKey, SilentFlag(d.silent));
    NumberNeeds(k, d.screen != -1, ScreenKey, d.screen);
    NumberNeeds(k, d.xinerama != -1, XineramaKey, d.xinerama);
    TextNeeds(k, QuotedEntry(ApplicationIdKey, d.applicationId));
    FourNeed(k, Opt(d.silent != Unknown, NumberEntry(SilentKey, SilentFlag(d.silent))),
             Opt(d.screen != -1, NumberEntry(ScreenKey, d.screen)),
             Opt(d.xinerama != -1, NumberEntry(XineramaKey, d.xinerama)),
             Opt(d.applicationId != "", QuotedEntry(ApplicationIdKey, d.applicationId)));
  }

  /** The entries of a record need exactly what the record, read back, holds. */
  lemma DataNeeds(k: Class, d: Data)
    ensures NeedsAll(k, DataEntries(d)) == Weight(k, TidyData(d))
  {
    hide NeedsAll, FrontEntries, MiddleEntries, BackEntries, Count, Collapse;
    FrontNeeds(k, d);
    MiddleNeeds(k, d);
    BackNeeds(k, d);
    NeedsConcat(k, FrontEntries(d), MiddleEntries(d));
    NeedsConcat(k, FrontEntries(d) + MiddleEntries(d), BackEntries(d));
  }

  lemma CompletedNeeds(k: Class, d: Data, screen: int)
    ensures NeedsAll(k, DataEntries(d) + RequiredEntries(d, screen)) == Weight(k, TidyData(Completed(d, screen)))
  {
    assert Collapse("") == "" && Count(k, "") == 0;
    hide NeedsAll, DataEntries, Count, Collapse, NumberEntry;
    DataNeeds(k, d);
    OptNeeds(k, d.name == "", EscapedEntry(NameKey, DefaultName(d)));
    NumberNeeds(k, d.screen == -1, ScreenKey, screen);
    hide Opt, DefaultName;
    NeedsConcat(k, Opt(d.name == "", EscapedEntry(NameKey, DefaultName(d))),
                Opt(d.screen == -1, NumberEntry(ScreenKey, screen)));
    NeedsConcat(k, DataEntries(d), RequiredEntries(d, screen));
  }

  // ---------------------------------------------------------------- the exact condition

  lemma IdNeeds(k: Class, id: string, es: seq<Entry>)
    ensures NeedsAll(k, [IdEntry(id)] + es) == Count(k, Collapse(id)) + NeedsAll(k, es)
  {
    assert ([IdEntry(id)] + es)[1..] == es;
  }

  /** A message that is read back as its id and a record holding what its entries need has only
      clean entries. */
  lemma ReadBackIsClean(kind: string, id: string, es: seq<Entry>, d: Data)
    requires kind != [] && NoSpace(kind)
    requires forall k :: NeedsAll(k, es) == Weight(k, d)
    requires var msg := Trimmed(kind + " " + IdText(id) + " " + Render(es));
             StartsWith(msg, kind) ==> ReadId(msg[|kind|..]) == Collapse(id) && ReadData(msg[|kind|..]) == d
    ensures forall e :: e in es ==> Clean(e)
  {
    hide Render, NeedsAll, Weight, ReadId, ReadData, IdText, Clean, FieldsOf, Collapse, Trimmed, Count;
    var first := [IdEntry(id)];
    var rest := " " + Render(first) + "  " + Render(es);
    MessageShape(kind, id, es);
    ReadTrimmed(kind, rest);
    forall k ensures Complete(k, first + es, FieldsOf(rest)) {
      TextWeight(k, rest);
      IdNeeds(k, id, es);
    }
    assert NoVisible(" ") && NoVisible("  ");
    CompleteIsClean(" ", first, "  ", es);
    assert forall e :: e in es ==> e in first + es;
  }

  /** All entries of a part are clean. */
  predicate AllClean(es: seq<Entry>) {
    forall e :: e in es ==> Clean(e)
  }

  lemma AllCleanParts(a: seq<Entry>, b: seq<Entry>)
    requires AllClean(a + b)
    ensures AllClean(a) && AllClean(b)
  {
    hide Clean;
    assert forall e :: e in a ==> e in a + b;
    assert forall e :: e in b ==> e in a + b;
  }

  lemma OptIsClean(present: bool, e: Entry)
    requires AllClean(Opt(present, e)) && present
    ensures Clean(e)
  {
    hide Clean;
    assert e in Opt(present, e);
  }

  /** The last of four optional entries, and what is before it. */
  lemma FourClean(a: seq<Entry>, b: seq<Entry>, c: seq<Entry>, e: seq<Entry>)
    requires AllClean(a + b + c + e)
    ensures AllClean(b) && AllClean(c) && AllClean(e)
  {
    hide AllClean;
    AllCleanParts(a + b + c, e);
    AllCleanParts(a + b, c);
    AllCleanParts(a, b);
  }

  lemma IconIsPlain(d: Data)
    requires AllClean(FrontEntries(d))
    ensures NoSpecial(d.icon)
  {
    hide AllClean, Opt;
    FourClean(Opt(d.bin != "", EscapedEntry(BinKey, d.bin)), Opt(d.name != "", EscapedEntry(NameKey, d.name)),
              Opt(d.description != "", EscapedEntry(DescriptionKey, d.description)),
              Opt(d.icon != "", QuotedEntry(IconKey, d.icon)));
    if d.icon != "" {
      OptIsClean(true, QuotedEntry(IconKey, d.icon));
    }
  }

  lemma MiddleIsPlain(d: Data)
    requires AllClean(MiddleEntries(d))
    ensures NoSpecial(d.wmclass) && NoSpecial(d.hostname) && NoSpace(d.hostname)
  {
    hide AllClean, Opt, NumberEntry, WireDesktop;
    FourClean(Opt(d.desktop != 0, NumberEntry(DesktopKey, WireDesktop(d.desktop))),
              Opt(d.wmclass != "", QuotedEntry(WmClassKey, d.wmclass)),
              Opt(d.hostname != "", BareEntry(HostnameKey, d.hostname)), PidEntries(d.pids));
    if d.wmclass != "" {
      OptIsClean(true, QuotedEntry(WmClassKey, d.wmclass));
    }
    if d.hostname != "" {
      OptIsClean(true, BareEntry(HostnameKey, d.hostname));
    }
  }

  lemma BackIsPlain(d: Data)
    requires AllClean(BackEntries(d))
    ensures NoSpecial(d.applicationId)
  {
    hide AllClean, Opt, NumberEntry, SilentFlag;
    FourClean(Opt(d.silent != Unknown, NumberEntry(SilentKey, SilentFlag(d.silent))),
              Opt(d.screen != -1, NumberEntry(ScreenKey, d.screen)),
              Opt(d.xinerama != -1, NumberEntry(XineramaKey, d.xinerama)),
              Opt(d.applicationId != "", QuotedEntry(ApplicationIdKey, d.applicationId)));
    if d.applicationId != "" {
      OptIsClean(true, QuotedEntry(ApplicationIdKey, d.applicationId));
    }
  }

  /** Clean entries make a printable record. */
  lemma CleanIsPrintable(d: Data)
    requires forall e :: e in DataEntries(d) ==> Clean(e)
    ensures Printable(d)
  {
    assert AllClean(DataEntries(d));
    hide AllClean, FrontEntries, MiddleEntries, BackEntries, NoSpecial, NoSpace, Clean;
    AllCleanParts(FrontEntries(d) + MiddleEntries(d), BackEntries(d));
    AllCleanParts(FrontEntries(d), MiddleEntries(d));
    IconIsPlain(d);
    MiddleIsPlain(d);
    BackIsPlain(d);
  }

  /** A `change:` message is read back as its id and record (texts collapsed) exactly when the
      unescaped values hold no quote and no backslash, and the host name no white space. */
  lemma ChangeExact(id: string, d: Data)
    requires Typed(d)
    ensures ReadMessage(ChangeMessage(id, d)) == ChangeInfo(Collapse(id), TidyData(d)) <==> Printable(d)
  {
    hide DataEntries, Render, IdText, ReadId, ReadData, NeedsAll, Weight, Printable, TidyData, Trimmed, Collapse;
    if Printable(d) {
      ChangeRoundTrip(id, d);
    } else if ReadMessage(ChangeMessage(id, d)) == ChangeInfo(Collapse(id), TidyData(d)) {
      assert "change: " == "change:" + " ";
      forall k ensures NeedsAll(k, DataEntries(d)) == Weight(k, TidyData(d)) {
        DataNeeds(k, d);
      }
      ReadBackIsClean("change:", id, DataEntries(d), TidyData(d));
      CleanIsPrintable(d);
    }
  }

  /** The same for a `remove:` message with data. */
  lemma RemoveExact(id: string, d: Data)
    requires Typed(d)
    ensures ReadMessage(FinishDataMessage(id, d)) == RemoveInfo(Collapse(id), TidyData(d)) <==> Printable(d)
  {
    hide DataEntries, Render, IdText, ReadId, ReadData, NeedsAll, Weight, Printable, TidyData, Trimmed, Collapse;
    if Printable(d) {
      RemoveRoundTrip(id, d);
    } else if ReadMessage(FinishDataMessage(id, d)) == RemoveInfo(Collapse(id), TidyData(d)) {
      assert "remove: " == "remove:" + " ";
      forall k ensures NeedsAll(k, DataEntries(d)) == Weight(k, TidyData(d)) {
        DataNeeds(k, d);
      }
      ReadBackIsClean("remove:", id, DataEntries(d), TidyData(d));
      CleanIsPrintable(d);
    }
  }

  /** The same for a `new:` message, with the defaults it sends. */
  lemma NewExact(id: string, d: Data, screen: int)
    requires Typed(d) && IsInt(screen)
    ensures ReadMessage(NewMessage(id, d, screen)) == NewInfo(Collapse(id), TidyData(Completed(d, screen)))
            <==> Printable(d)
  {
    hide DataEntries, RequiredEntries, Render, IdText, ReadId, ReadData, NeedsAll, Weight, Printable, TidyData;
    hide Trimmed, Collapse, Completed;
    if Printable(d) {
      NewRoundTrip(id, d, screen);
    } else if ReadMessage(NewMessage(id, d, screen)) == NewInfo(Collapse(id), TidyData(Completed(d, screen))) {
      var es := DataEntries(d) + RequiredEntries(d, screen);
      RenderConcat(DataEntries(d), RequiredEntries(d, screen));
      var front := "new:" + " " + IdText(id) + " ";
      assert NewMessage(id, d, screen) == front + Render(DataEntries(d)) + Render(RequiredEntries(d, screen));
      assert front + Render(DataEntries(d)) + Render(RequiredEntries(d, screen)) == front + Render(es);
      forall k ensures NeedsAll(k, es) == Weight(k, TidyData(Completed(d, screen))) {
        CompletedNeeds(k, d, screen);
      }
      ReadBackIsClean("new:", id, es, TidyData(Completed(d, screen)));
      assert forall e :: e in DataEntries(d) ==> e in es;
      CleanIsPrintable(d);
    }
  }

  // ---------------------------------------------------------------- a value that forges another

  /** The value `v" KEY="w`. */
  function Forging(v: string, other: Key, w: string): string {
    v + "\"" + " " + Front(other) + "\"" + w
  }

  lemma Regrouped(f: string, q: string, v: string, sp: string, g: string, w: string)
    ensures f + q + (v + q + sp + g + q + w) + q == (f + q + v + q) + sp + (g + q + w + q)
  {
    assert f + q + (v + q + sp + (g + q + w)) + q == f + q + v + q + sp + (g + q + w) + q;
    assert v + q + sp + g + q + w == v + q + sp + (g + q + w);
  }

  /** An unescaped value can end its own field and begin another one. */
  lemma ForgedField(k: Key, v: string, other: Key, w: string)
    ensures Render([QuotedEntry(k, Forging(v, other, w))])
            == Render([QuotedEntry(k, v), QuotedEntry(other, w)])
  {
    hide Front;
    var e, a, b := QuotedEntry(k, Forging(v, other, w)), QuotedEntry(k, v), QuotedEntry(other, w);
    Regrouped(Front(k), "\"", v, " ", Front(other), w);
    assert Body(e) == Body(a) + " " + Body(b);
    hide Body, Forging;
    RenderOne(e);
    RenderOne(b);
    assert [a, b] == [a] + [b];
    RenderConcat([a], [b]);
    RenderOne(a);
  }

  /** A record with an icon and such a WMCLASS is read back with another icon. */
  lemma ForgedIcon(id: string, icon: string, v: string, w: string)
    requires icon != "" && NoSpecial(icon) && NoSpecial(v) && NoSpecial(w)
    ensures var d := NO_DATA.(icon := icon, wmclass := Forging(v, IconKey, w));
            ReadMessage(ChangeMessage(id, d))
            == ChangeInfo(Collapse(id), NO_DATA.(icon := Collapse(w), wmclass := Collapse(v)))
  {
    var wmclass := Forging(v, IconKey, w);
    assert wmclass != "";
    hide Forging, Render, IdText, ReadMessage, Applied, Collapse, Clean, DataEntries;
    IconAndClass(icon, wmclass);
    ForgedText(icon, v, w);
    ForgedApplied(icon, v, w);
    var es := [QuotedEntry(IconKey, icon)] + [QuotedEntry(WmClassKey, v), QuotedEntry(IconKey, w)];
    ForgedClean(icon, v, w);
    ReadChange(id, es);
  }

  lemma ForgedText(icon: string, v: string, w: string)
    ensures Render([QuotedEntry(IconKey, icon)] + [QuotedEntry(WmClassKey, Forging(v, IconKey, w))])
            == Render([QuotedEntry(IconKey, icon)] + [QuotedEntry(WmClassKey, v), QuotedEntry(IconKey, w)])
  {
    hide Forging, Render;
    var a, b, c := QuotedEntry(IconKey, icon), QuotedEntry(WmClassKey, v), QuotedEntry(IconKey, w);
    ForgedField(WmClassKey, v, IconKey, w);
    RenderConcat([a], [QuotedEntry(WmClassKey, Forging(v, IconKey, w))]);
    RenderConcat([a], [b, c]);
  }

  lemma ForgedClean(icon: string, v: string, w: string)
    requires NoSpecial(icon) && NoSpecial(v) && NoSpecial(w)
    ensures forall e :: e in [QuotedEntry(IconKey, icon)] + [QuotedEntry(WmClassKey, v), QuotedEntry(IconKey, w)]
              ==> CleanData(e)
  {
    hide NoSpecial;
  }

  lemma ReadChange(id: string, es: seq<Entry>)
    requires forall e :: e in es ==> CleanData(e)
    ensures ReadMessage("change: " + IdText(id) + " " + Render(es))
            == ChangeInfo(Collapse(id), Applied(NO_DATA, es))
  {
    hide Render, IdText, ReadId, ReadData, Applied, Collapse, CleanData;
    assert "change: " == "change:" + " ";
    ReadShaped("change:", id, es);
    KindsDiffer(Trimmed("change: " + IdText(id) + " " + Render(es)));
  }

  lemma IconAndClass(icon: string, wmclass: string)
    requires icon != "" && wmclass != ""
    ensures DataEntries(NO_DATA.(icon := icon, wmclass := wmclass))
            == [QuotedEntry(IconKey, icon)] + [QuotedEntry(WmClassKey, wmclass)]
  {
    var d := NO_DATA.(icon := icon, wmclass := wmclass);
    assert FrontEntries(d) == [QuotedEntry(IconKey, icon)];
    assert MiddleEntries(d) == [QuotedEntry(WmClassKey, wmclass)];
    assert BackEntries(d) == [];
  }

  lemma AppliedFirst(d: Data, e: Entry, es: seq<Entry>)
    ensures Applied(d, [e] + es) == Applied(WithKey(d, e.key, Collapse(e.value)), es)
  {
    hide WithKey, Collapse;
    assert ([e] + es)[1..] == es;
  }

  lemma ForgedApplied(icon: string, v: string, w: string)
    ensures Applied(NO_DATA, [QuotedEntry(IconKey, icon)] + [QuotedEntry(WmClassKey, v), QuotedEntry(IconKey, w)])
            == NO_DATA.(icon := Collapse(w), wmclass := Collapse(v))
  {
    hide Applied, Collapse;
    var a, b, c := QuotedEntry(IconKey, icon), QuotedEntry(WmClassKey, v), QuotedEntry(IconKey, w);
    var d1 := NO_DATA.(icon := Collapse(icon));
    var d2 := d1.(wmclass := Collapse(v));
    var d3 := d2.(icon := Collapse(w));
    IconSet(NO_DATA, Collapse(icon));
    ClassSet(d1, Collapse(v));
    IconSet(d2, Collapse(w));
    hide WithKey;
    assert [b, c] == [b] + [c] && [c] == [c] + [];
    AppliedFirst(NO_DATA, a, [b, c]);
    AppliedFirst(d1, b, [c]);
    AppliedFirst(d2, c, []);
    AppliedNone(d3);
  }

  lemma IconSet(x: Data, v: string)
    ensures WithKey(x, IconKey, v) == x.(icon := v)
  {
  }

  lemma ClassSet(x: Data, v: string)
    ensures WithKey(x, WmClassKey, v) == x.(wmclass := v)
  {
    hide ReadDesktop, ToLong;
  }

  lemma AppliedNone(d: Data)
    ensures Applied(d, []) == d
  {
  }
}
