/** Startup ids: how KStartupInfo::createNewStartupIdForTimestamp builds them with QString::arg,
    and the timestamp that KStartupInfoId::timestamp reads out of them. */
module StartupIds {
  import opened Text

  // ---------------------------------------------------------------- the time in a startup id

  /** The start of the last occurrence of p in s, or -1. */
  function LastIndexOf(s: string, p: string): (r: int)
    ensures -1 <= r && r + |p| <= |s| + if r < 0 then |p| + 1 else 0
    decreases |s|
  {
    if |s| < |p| then -1
    else if s[|s| - |p|..] == p then |s| - |p|
    else if s == [] then -1
    else LastIndexOf(s[..|s| - 1], p)
  }

  datatype Parsed = NotOk | Ok(value: ULong)

  /** QString::toULong in base 10: no minus sign, and no value out of range. */
  function ToULong(text: string): Parsed {
    var s := Trimmed(text);
    var t := if s != [] && s[0] == '+' then s[1..] else s;
    if t == [] || !AllDigits(t) then NotOk
    else
      var v: int := DigitsValue(t);
      if v < 0x1_0000_0000_0000_0000 then Ok(v) else NotOk
  }

  /** KStartupInfoId::timestamp. */
  function TimestampOf(id: string): ULong {
    if id == "" || id == "0" then 0
    else
      var pos := LastIndexOf(id, "_TIME");
      if pos < 0 then 0
      else
        var text := id[pos + 5..];
        match ToULong(text)
        case Ok(time) => time
        case NotOk =>
          // a sign wraps around
          if text != [] && text[0] == '-' then ToLong(text) % 0x1_0000_0000_0000_0000 else 0
  }

  predicate OccursAt(s: string, p: string, k: nat) {
    k + |p| <= |s| && s[k..k + |p|] == p
  }

  lemma ShorterOccurs(s: string, p: string, k: nat)
    requires |s| > 0 && p != [] && (|s| >= |p| ==> s[|s| - |p|..] != p)
    ensures OccursAt(s, p, k) <==> OccursAt(s[..|s| - 1], p, k)
  {
    if k + |p| < |s| {
      assert s[..|s| - 1][k..k + |p|] == s[k..k + |p|];
    } else if k + |p| == |s| {
      assert s[k..k + |p|] == s[|s| - |p|..];
    }
  }

  /** The position found is that of an occurrence after which there is no other; it is -1 exactly
      if there is none. */
  lemma {:induction false} LastIndexExactly(s: string, p: string)
    requires p != []
    ensures var r := LastIndexOf(s, p);
            && (r >= 0 ==> OccursAt(s, p, r) && forall k: nat :: k > r ==> !OccursAt(s, p, k))
            && (r < 0 ==> forall k: nat :: !OccursAt(s, p, k))
    decreases |s|
  {
    if |s| < |p| {
      assert forall k: nat :: !OccursAt(s, p, k);
    } else if s[|s| - |p|..] == p {
      assert s[|s| - |p|..|s| - |p| + |p|] == p;
    } else {
      hide OccursAt;
      LastIndexExactly(s[..|s| - 1], p);
      forall k: nat ensures OccursAt(s, p, k) <==> OccursAt(s[..|s| - 1], p, k) {
        ShorterOccurs(s, p, k);
      }
    }
  }

  lemma FoundAt(s: string, p: string, r: nat)
    requires p != [] && OccursAt(s, p, r) && forall k: nat :: k > r ==> !OccursAt(s, p, k)
    ensures LastIndexOf(s, p) == r
  {
    LastIndexExactly(s, p);
    hide LastIndexOf, OccursAt;
  }

  lemma ToULongExactly(text: string)
    ensures var s := Trimmed(text);
            var digits := Unsigned(s);
            if digits == [] || !Decimal(digits) || s[0] == '-' then ToULong(text) == NotOk
            else
              var a := Weighted(digits);
              if a < 0x1_0000_0000_0000_0000 then ToULong(text).Ok? && ToULong(text).value == a
              else ToULong(text) == NotOk
  {
    var s := Trimmed(text);
    var digits := Unsigned(s);
    assert s != [] && s[0] == '-' ==> !IsDigit(s[0]);
    hide Trimmed, Weighted, DigitsValue;
    DecimalDigits(digits);
    if digits != [] && Decimal(digits) {
      DigitsAreDecimal(digits);
    }
  }

  lemma TrimmedKeepsSign(text: string)
    requires text != [] && text[0] == '-'
    ensures Trimmed(text) != [] && Trimmed(text)[0] == '-'
  {
    assert !IsSpace('-');
    TrimEndKeepsPrefix(text, 1);
    assert TrimEnd(text)[..1] == text[..1];
    assert TrimEnd(text)[..1][0] == TrimEnd(text)[0];
  }

  /** The time that a text stands for: its decimal value, for a negative number the image of that
      in 64 bits, and 0 for what is not a number or does not fit. */
  function WrittenTime(text: string): int {
    var s := Trimmed(text);
    var digits := Unsigned(s);
    if digits == [] || !Decimal(digits) then 0
    else
      var a := Weighted(digits);
      if s[0] != '-' then if a < 0x1_0000_0000_0000_0000 then a else 0
      else if text[0] == '-' && 0 < a <= 0x8000_0000_0000_0000 then 0x1_0000_0000_0000_0000 - a
      else 0
  }

  lemma WrittenExactly(text: string)
    ensures ToULong(text).Ok? ==> WrittenTime(text) == ToULong(text).value
    ensures !ToULong(text).Ok? ==>
              WrittenTime(text) == if text != [] && text[0] == '-' then ToLong(text) % 0x1_0000_0000_0000_0000 else 0
  {
    ToULongExactly(text);
    ReadIsDecimal(text);
    var digits := Unsigned(Trimmed(text));
    if text != [] && text[0] == '-' {
      TrimmedKeepsSign(text);
    }
    if digits != [] && Decimal(digits) {
      DigitsAreDecimal(digits);
      assert Weighted(digits) == DigitsValue(digits) >= 0;
    }
    hide ToULong, ToLong, Trimmed, Weighted, DigitsValue, Decimal;
  }

  /** The time of an id is what the text after the last _TIME stands for. */
  lemma TimestampExactly(id: string, k: nat)
    requires OccursAt(id, "_TIME", k) && forall j: nat :: j > k ==> !OccursAt(id, "_TIME", j)
    ensures TimestampOf(id) == WrittenTime(id[k + 5..])
  {
    FoundAt(id, "_TIME", k);
    assert |id| >= 5;
    WrittenExactly(id[k + 5..]);
    hide OccursAt, LastIndexOf, ToULong, ToLong, WrittenTime;
  }

  lemma NoTimestamp(id: string)
    requires forall k: nat :: !OccursAt(id, "_TIME", k)
    ensures TimestampOf(id) == 0
  {
    LastIndexExactly(id, "_TIME");
    hide OccursAt, LastIndexOf;
  }

  /** No letter of the text can end another _TIME. */
  lemma TimeAfter(prefix: string, text: string)
    requires 'E' !in text
    ensures TimestampOf(prefix + "_TIME" + text) == WrittenTime(text)
  {
    var id := prefix + "_TIME" + text;
    assert id[|prefix|..|prefix| + 5] == "_TIME";
    forall j: nat | j > |prefix| ensures !OccursAt(id, "_TIME", j) {
      if j + 5 <= |id| {
        assert id[j + 4] == text[j - 1 - |prefix|];
        assert id[j..j + 5][4] == id[j + 4] && "_TIME"[4] == 'E';
      }
    }
    assert id[|prefix| + 5..] == text;
    TimestampExactly(id, |prefix|);
  }

  lemma TimeOfNumber(n: nat)
    requires n < 0x1_0000_0000_0000_0000
    ensures WrittenTime(NatText(n)) == n && 'E' !in NatText(n) && '%' !in NatText(n)
  {
    var s := NatText(n);
    DigitsAreVisible(s);
    assert IsDigit(s[0]);
    assert TrimStart(s) == s && TrimEnd(s) == s;
    assert Unsigned(s) == s;
    NatTextValue(n);
    DigitsAreDecimal(s);
    hide NatText, Weighted, DigitsValue, TrimStart, TrimEnd;
  }

  // ---------------------------------------------------------------- QString::arg

  datatype Marker = NoMarker | Marker(number: nat, length: nat)

  function DigitOf(c: char): (n: nat)
    requires IsDigit(c)
    ensures n < 10
  {
    c as int - '0' as int
  }

  /** The place marker at the start of a text: a percent sign, perhaps an L, one or two digits. */
  function MarkerAt(s: string): (m: Marker)
    ensures m.Marker? ==> 0 < m.length <= |s| && m.number < 100
  {
    var i := if |s| > 1 && s[1] == 'L' then 2 else 1;
    if |s| <= i || s[0] != '%' || !IsDigit(s[i]) then NoMarker
    else if |s| <= i + 1 || !IsDigit(s[i + 1]) then Marker(DigitOf(s[i]), i + 1)
    else Marker(10 * DigitOf(s[i]) + DigitOf(s[i + 1]), i + 2)
  }

  /** The lowest number of a marker; 100 if there is none. */
  function Lowest(s: string): (n: nat)
    ensures n <= 100
    decreases |s|
  {
    if s == [] then 100
    else
      match MarkerAt(s)
      case NoMarker => Lowest(s[1..])
      case Marker(n, length) => if n < Lowest(s[length..]) then n else Lowest(s[length..])
  }

  /** The text with a for every marker of number n. */
  function Substituted(s: string, n: nat, a: string): string
    decreases |s|
  {
    if s == [] then []
    else
      match MarkerAt(s)
      case NoMarker => [s[0]] + Substituted(s[1..], n, a)
      case Marker(m, length) => (if m == n then a else s[..length]) + Substituted(s[length..], n, a)
  }

  /** QString::arg: every marker of the lowest number is replaced. */
  function Arg(s: string, a: string): string {
    Substituted(s, Lowest(s), a)
  }

  function Args(s: string, args: seq<string>): string
    decreases |args|
  {
    if args == [] then s else Args(Arg(s, args[0]), args[1..])
  }

  const TEMPLATE: string := "%1" + ";%2" + ";%3" + ";%4" + "_TIME%5"

  function Numbers(sec: int, usec: int, pid: int, timestamp: nat): seq<string> {
    [IntText(sec), IntText(usec), IntText(pid), NatText(timestamp)]
  }

  /** createNewStartupIdForTimestamp, from host name, time of day and process id. */
  function NewStartupId(hostname: string, sec: int, usec: int, pid: int, timestamp: nat): string {
    Args(TEMPLATE, [hostname] + Numbers(sec, usec, pid, timestamp))
  }

  // ---------------------------------------------------------------- what substitution does to the template

  /** A text that does not continue a marker before it. */
  predicate Breaks(t: string) {
    t == [] || !(IsDigit(t[0]) || t[0] == 'L')
  }

  lemma MarkerBefore(s: string, t: string)
    requires s != [] && Breaks(t)
    ensures MarkerAt(s + t) == MarkerAt(s)
  {
    var u := s + t;
    assert |s| > 1 ==> u[1] == s[1];
    assert |s| > 2 ==> u[2] == s[2];
    assert |s| > 3 ==> u[3] == s[3];
    assert |s| < |u| ==> u[|s|] == t[0];
  }

  lemma {:induction false} BeforeBreak(s: string, t: string, n: nat, a: string)
    requires Breaks(t)
    ensures Substituted(s + t, n, a) == Substituted(s, n, a) + Substituted(t, n, a)
    ensures Lowest(s + t) == if Lowest(s) < Lowest(t) then Lowest(s) else Lowest(t)
    decreases |s|
  {
    var u := s + t;
    if s == [] {
      assert u == t;
    } else {
      MarkerBefore(s, t);
      var length := if MarkerAt(s).Marker? then MarkerAt(s).length else 1;
      assert u[length..] == s[length..] + t && u[..length] == s[..length] && u[0] == s[0];
      BeforeBreak(s[length..], t, n, a);
      hide MarkerAt;
    }
  }

  lemma {:induction false} NoPercent(s: string, n: nat, a: string)
    requires '%' !in s
    ensures Substituted(s, n, a) == s && Lowest(s) == 100
  {
    if s != [] {
      assert s[0] in s;
      assert forall c :: c in s[1..] ==> c in s;
      NoPercent(s[1..], n, a);
    }
  }

  function Sep(k: nat): string {
    if k == 4 then "_TIME" else ";"
  }

  function Place(k: nat): string
    requires k < 10
  {
    ['%', Digit(k)]
  }

  /** The template behind its marker k. */
  function Tail(k: nat): string
    requires 1 <= k <= 5
    decreases 5 - k
  {
    if k == 5 then [] else Sep(k) + Place(k + 1) + Tail(k + 1)
  }

  lemma LastTail()
    ensures Tail(4) == "_TIME%5"
  {
    assert Place(5) == "%5" && Tail(5) == [];
  }

  lemma EarlierTails()
    ensures Tail(1) == ";%2" + Tail(2) && Tail(2) == ";%3" + Tail(3) && Tail(3) == ";%4" + Tail(4)
    ensures Place(1) == "%1"
  {
    assert Sep(1) + Place(2) == ";%2" && Sep(2) + Place(3) == ";%3" && Sep(3) + Place(4) == ";%4";
  }

  lemma FromTheRight(a: string, b: string, c: string, d: string, e: string)
    ensures a + b + c + d + e == a + (b + (c + (d + e)))
  {
  }

  lemma TemplateIsTail()
    ensures TEMPLATE == Place(1) + Tail(1)
  {
    LastTail();
    EarlierTails();
    FromTheRight("%1", ";%2", ";%3", ";%4", "_TIME%5");
    hide Tail, Place;
  }

  lemma PlaceAlone(k: nat, n: nat, a: string)
    requires k < 10
    ensures Substituted(Place(k), n, a) == if n == k then a else Place(k)
    ensures Lowest(Place(k)) == k
  {
    var s := Place(k);
    assert MarkerAt(s) == Marker(k, 2);
    assert s[2..] == [] && s[..2] == s;
    assert Substituted([], n, a) == [] && Lowest([]) == 100;
  }

  lemma TailIs(k: nat)
    requires 1 <= k < 5
    ensures Tail(k) == Sep(k) + (Place(k + 1) + Tail(k + 1)) && Breaks(Tail(k))
  {
  }

  lemma TailEmpty()
    ensures Tail(5) == []
  {
  }

  lemma TailParts(k: nat, n: nat, a: string)
    requires 1 <= k < 5
    ensures Lowest(Tail(k)) == if k + 1 < Lowest(Tail(k + 1)) then k + 1 else Lowest(Tail(k + 1))
    ensures Substituted(Tail(k), n, a)
            == Sep(k) + ((if n == k + 1 then a else Place(k + 1)) + Substituted(Tail(k + 1), n, a))
  {
    TailIs(k);
    TailEmpty();
    if k < 4 {
      TailIs(k + 1);
    }
    PlaceAlone(k + 1, n, a);
    NoPercent(Sep(k), n, a);
    hide Tail, Substituted, Lowest;
    BeforeBreak(Place(k + 1), Tail(k + 1), n, a);
    BeforeBreak(Sep(k), Place(k + 1) + Tail(k + 1), n, a);
  }

  lemma {:induction false} TailAsItIs(k: nat, n: nat, a: string)
    requires 1 <= k <= 5 && n <= k
    ensures Lowest(Tail(k)) == (if k == 5 then 100 else k + 1) && Substituted(Tail(k), n, a) == Tail(k)
    decreases 5 - k
  {
    if k == 5 {
      TailEmpty();
      assert Lowest([]) == 100 && Substituted([], n, a) == [];
    } else {
      TailIs(k);
      TailParts(k, n, a);
      TailAsItIs(k + 1, n, a);
      hide Tail, Substituted, Lowest;
    }
  }

  lemma TailFilled(k: nat, a: string)
    requires 1 <= k < 5
    ensures Substituted(Tail(k), k + 1, a) == Sep(k) + a + Tail(k + 1)
  {
    TailParts(k, k + 1, a);
    TailAsItIs(k + 1, k + 1, a);
    hide Tail, Substituted, Lowest;
    Grouped(Sep(k), a, Tail(k + 1));
  }

  lemma Grouped(a: string, b: string, c: string)
    ensures a + (b + c) == a + b + c
  {
  }

  /** One substitution into a text whose markers up to k of the template have been filled: it
      fills the next one, unless what was filled in has a lower marker. */
  lemma Fills(h: string, k: nat, a: string)
    requires 1 <= k < 5
    ensures Arg(h + Tail(k), a)
            == if Lowest(h) > k then Substituted(h, k + 1, a) + (Sep(k) + a + Tail(k + 1))
               else Substituted(h, Lowest(h), a) + Tail(k)
  {
    var n := if Lowest(h) > k then k + 1 else Lowest(h);
    TailIs(k);
    TailAsItIs(k, 0, a);
    if Lowest(h) > k {
      TailFilled(k, a);
    } else {
      TailAsItIs(k, n, a);
    }
    BeforeBreak(h, Tail(k), n, a);
    hide Tail, Substituted, Lowest;
  }

  lemma {:induction false} TailEnds(k: nat) returns (p: string)
    requires 1 <= k < 5
    ensures Tail(k) == p + "_TIME%5"
    decreases 5 - k
  {
    if k == 4 {
      p := [];
      assert Tail(5) == [];
    } else {
      var q := TailEnds(k + 1);
      p := Sep(k) + Place(k + 1) + q;
    }
  }

  /** With too few arguments left the last marker stays. */
  lemma {:induction false} FallsShort(h: string, k: nat, args: seq<string>) returns (p: string)
    requires 1 <= k < 5 && |args| < 5 - k
    ensures Args(h + Tail(k), args) == p + "_TIME%5"
    decreases |args|
  {
    hide Tail, Substituted, Lowest, Arg;
    if args == [] {
      var q := TailEnds(k);
      p := h + q;
    } else {
      Fills(h, k, args[0]);
      if Lowest(h) > k {
        var h1 := Substituted(h, k + 1, args[0]) + Sep(k) + args[0];
        assert Arg(h + Tail(k), args[0]) == h1 + Tail(k + 1);
        p := FallsShort(h1, k + 1, args[1..]);
      } else {
        p := FallsShort(Substituted(h, Lowest(h), args[0]), k, args[1..]);
      }
    }
  }

  /** No marker in the host name gets in the way: when the template's marker k + 1 is to be filled
      the host name, as it then is, has none below it. */
  predicate Undisturbed(h: string, k: nat, args: seq<string>)
    decreases |args|
  {
    args == [] || (Lowest(h) > k && Undisturbed(Substituted(h, k + 1, args[0]), k + 1, args[1..]))
  }

  lemma UndisturbedStep(h: string, k: nat, args: seq<string>)
    requires args != []
    ensures Undisturbed(h, k, args)
            <==> Lowest(h) > k && Undisturbed(Substituted(h, k + 1, args[0]), k + 1, args[1..])
  {
  }

  lemma NextFilled(h: string, x: string, k: nat, a: string)
    requires 1 <= k < 5 && Lowest(h) > k && Breaks(x) && '%' !in x
    ensures Arg(h + x + Tail(k), a) == Substituted(h, k + 1, a) + (x + (Sep(k) + a)) + Tail(k + 1)
  {
    hide *;
    calc {
      Arg(h + x + Tail(k), a);
      { LowestBefore(h, x); Fills(h + x, k, a); }
      Substituted(h + x, k + 1, a) + (Sep(k) + a + Tail(k + 1));
      { NoPercent(x, k + 1, a); BeforeBreak(h, x, k + 1, a); }
      Substituted(h, k + 1, a) + x + (Sep(k) + a + Tail(k + 1));
      { Joined(Substituted(h, k + 1, a), x, Sep(k), a, Tail(k + 1)); }
      Substituted(h, k + 1, a) + (x + (Sep(k) + a)) + Tail(k + 1);
    }
  }

  lemma LowestBefore(h: string, x: string)
    requires Breaks(x) && '%' !in x
    ensures Lowest(h + x) == Lowest(h)
  {
    hide *;
    NoPercent(x, 0, []);
    BeforeBreak(h, x, 0, []);
  }

  lemma Joined(a: string, b: string, c: string, d: string, e: string)
    ensures a + b + (c + d + e) == a + (b + (c + d)) + e
  {
  }

  lemma NoneFilled(h: string, x: string, k: nat, a: string)
    requires 1 <= k < 5 && Lowest(h) <= k && Breaks(x) && '%' !in x
    ensures Arg(h + x + Tail(k), a) == Substituted(h + x, Lowest(h), a) + Tail(k)
  {
    NoPercent(x, k + 1, a);
    BeforeBreak(h, x, k + 1, a);
    Fills(h + x, k, a);
    hide *;
  }

  lemma SeparatedBreaks(x: string, k: nat, a: string)
    requires Breaks(x) && '%' !in x && '%' !in a
    ensures Breaks(x + (Sep(k) + a)) && '%' !in x + (Sep(k) + a)
  {
  }

  lemma ArgsUnfold(s: string, args: seq<string>)
    requires args != []
    ensures Args(s, args) == Args(Arg(s, args[0]), args[1..])
  {
    hide Arg;
  }

  /** Exactly then the last argument ends up behind _TIME. */
  lemma {:induction false} LastArgument(h: string, x: string, k: nat, args: seq<string>) returns (p: string)
    requires 1 <= k < 5 && |args| == 5 - k && Breaks(x) && '%' !in x
    requires forall i :: 0 <= i < |args| ==> '%' !in args[i]
    ensures Undisturbed(h, k, args) ==> Args(h + x + Tail(k), args) == p + "_TIME" + args[|args| - 1]
    ensures !Undisturbed(h, k, args) ==> Args(h + x + Tail(k), args) == p + "_TIME%5"
    decreases |args|
  {
    hide *;
    var a := args[0];
    UndisturbedStep(h, k, args);
    ArgsUnfold(h + x + Tail(k), args);
    if Lowest(h) <= k {
      NoneFilled(h, x, k, a);
      p := FallsShort(Substituted(h + x, Lowest(h), a), k, args[1..]);
    } else if k < 4 {
      NextFilled(h, x, k, a);
      SeparatedBreaks(x, k, a);
      p := LastArgument(Substituted(h, k + 1, a), x + (Sep(k) + a), k + 1, args[1..]);
    } else {
      NextFilled(h, x, k, a);
      p := Substituted(h, k + 1, a) + x;
      LastFilled(Substituted(h, k + 1, a), x, a, args[1..], args);
    }
  }

  lemma LastFilled(h: string, x: string, a: string, rest: seq<string>, all: seq<string>)
    requires rest == []
    ensures Args(h + (x + (Sep(4) + a)) + Tail(5), rest) == h + x + "_TIME" + a
    ensures Undisturbed(h, 5, rest)
  {
    TailEmpty();
    hide Tail;
    assert h + (x + (Sep(4) + a)) + [] == h + x + Sep(4) + a;
  }

  lemma NumbersAreClean(sec: int, usec: int, pid: int, timestamp: nat)
    ensures forall i :: 0 <= i < 4 ==> '%' !in Numbers(sec, usec, pid, timestamp)[i]
  {
    hide NatText;
  }

  lemma IdIsFilled(hostname: string, sec: int, usec: int, pid: int, timestamp: nat)
    ensures var args := Numbers(sec, usec, pid, timestamp);
            && |args| == 4 && args[3] == NatText(timestamp)
            && NewStartupId(hostname, sec, usec, pid, timestamp) == Args(hostname + [] + Tail(1), args)
  {
    hide Args, Tail, NatText, IntText;
    HostFirst(hostname, Numbers(sec, usec, pid, timestamp));
    assert hostname + [] == hostname;
  }

  /** A new startup id carries its timestamp exactly if no marker in the host name gets in the
      way; otherwise the time in it is 0. */
  lemma StartupIdTimestamp(hostname: string, sec: int, usec: int, pid: int, timestamp: nat)
    requires timestamp < 0x1_0000_0000
    ensures TimestampOf(NewStartupId(hostname, sec, usec, pid, timestamp))
            == if Undisturbed(hostname, 1, Numbers(sec, usec, pid, timestamp)) then timestamp else 0
  {
    assert Breaks([]);
    hide *;
    var args := Numbers(sec, usec, pid, timestamp);
    IdIsFilled(hostname, sec, usec, pid, timestamp);
    NumbersAreClean(sec, usec, pid, timestamp);
    var p := LastArgument(hostname, [], 1, args);
    if Undisturbed(hostname, 1, args) {
      TimeCarried(p, timestamp);
    } else {
      TimeLost(p);
    }
  }

  lemma TimeCarried(p: string, timestamp: nat)
    requires timestamp < 0x1_0000_0000
    ensures TimestampOf(p + "_TIME" + NatText(timestamp)) == timestamp
  {
    TimeOfNumber(timestamp);
    TimeAfter(p, NatText(timestamp));
    hide *;
  }

  lemma TimeLost(p: string)
    ensures TimestampOf(p + "_TIME%5") == 0
  {
    MarkerIsNoTime();
    TimeAfter(p, "%5");
    hide TimestampOf, WrittenTime;
    assert p + "_TIME" + "%5" == p + "_TIME%5";
  }

  lemma HostFirst(hostname: string, args: seq<string>)
    ensures Args(TEMPLATE, [hostname] + args) == Args(hostname + Tail(1), args)
  {
    TemplateIsTail();
    TailIs(1);
    TailAsItIs(1, 1, hostname);
    PlaceAlone(1, 1, hostname);
    hide Tail, Substituted, Lowest;
    BeforeBreak(Place(1), Tail(1), 1, hostname);
    assert ([hostname] + args)[1..] == args;
  }

  lemma MarkerIsNoTime()
    ensures WrittenTime("%5") == 0 && 'E' !in "%5"
  {
    var s := "%5";
    assert !IsSpace(s[0]) && !IsSpace(s[1]);
    assert TrimStart(s) == s && TrimEnd(s) == s;
    assert Unsigned(s) == s && s[0] == '%';
  }

  /** A host name without a percent sign does not get in the way. */
  lemma {:induction false} PlainHost(hostname: string, k: nat, args: seq<string>)
    requires '%' !in hostname && k + |args| <= 100
    ensures Undisturbed(hostname, k, args)
    decreases |args|
  {
    if args != [] {
      NoPercent(hostname, k + 1, args[0]);
      PlainHost(hostname, k + 1, args[1..]);
    }
  }

  /** So its ids carry their time. */
  lemma PlainTimestamp(hostname: string, sec: int, usec: int, pid: int, timestamp: nat)
    requires timestamp < 0x1_0000_0000 && '%' !in hostname
    ensures TimestampOf(NewStartupId(hostname, sec, usec, pid, timestamp)) == timestamp
  {
    StartupIdTimestamp(hostname, sec, usec, pid, timestamp);
    PlainHost(hostname, 1, Numbers(sec, usec, pid, timestamp));
    hide NewStartupId, TimestampOf, Undisturbed;
  }

  /** An id of a host without a percent sign: the host name and the numbers, in decimal. */
  lemma PlainId(hostname: string, sec: int, usec: int, pid: int, timestamp: nat)
    requires '%' !in hostname
    ensures NewStartupId(hostname, sec, usec, pid, timestamp)
            == hostname + (";" + IntText(sec)) + (";" + IntText(usec)) + (";" + IntText(pid))
               + ("_TIME" + IntText(timestamp))
  {
    var args := Numbers(sec, usec, pid, timestamp);
    IdIsFilled(hostname, sec, usec, pid, timestamp);
    NumbersAreClean(sec, usec, pid, timestamp);
    assert args == [IntText(sec), IntText(usec), IntText(pid), IntText(timestamp)];
    hide *;
    assert hostname + [] == hostname;
    FourFilled(hostname, args[0], args[1], args[2], args[3]);
  }

  lemma FourFilled(h: string, a: string, b: string, c: string, d: string)
    requires '%' !in h && '%' !in a && '%' !in b && '%' !in c
    ensures Args(h + Tail(1), [a, b, c, d]) == h + (";" + a) + (";" + b) + (";" + c) + ("_TIME" + d)
  {
    hide *;
    ArgsOfFour(h + Tail(1), a, b, c, d);
    PlainStep(h, 1, a);
    PlainStep(h + (";" + a), 2, b);
    PlainStep(h + (";" + a) + (";" + b), 3, c);
    PlainStep(h + (";" + a) + (";" + b) + (";" + c), 4, d);
    TailEmpty();
  }

  lemma ArgsStep(s: string, a: string, rest: seq<string>)
    ensures Args(s, [a] + rest) == Args(Arg(s, a), rest)
  {
    assert ([a] + rest)[1..] == rest;
    hide Arg;
  }

  lemma ArgsOfFour(s: string, a: string, b: string, c: string, d: string)
    ensures Args(s, [a, b, c, d]) == Arg(Arg(Arg(Arg(s, a), b), c), d)
  {
    var s1 := Arg(s, a);
    var s2 := Arg(s1, b);
    var s3 := Arg(s2, c);
    hide Arg;
    assert [a, b, c, d] == [a] + [b, c, d] && [b, c, d] == [b] + [c, d] && [c, d] == [c] + [d] && [d] == [d] + [];
    ArgsStep(s, a, [b, c, d]);
    ArgsStep(s1, b, [c, d]);
    ArgsStep(s2, c, [d]);
    ArgsStep(s3, d, []);
  }

  lemma PlainStep(h: string, k: nat, a: string)
    requires 1 <= k < 5 && '%' !in h
    ensures Arg(h + Tail(k), a) == h + ((if k == 4 then "_TIME" else ";") + a) + Tail(k + 1)
  {
    Fills(h, k, a);
    NoPercent(h, k + 1, a);
    hide Arg, Tail, Substituted, Lowest;
  }

  /** A host called %1: every number slips one place forward and the time is lost. */
  lemma PercentHost(sec: int, usec: int, pid: int, timestamp: nat)
    requires timestamp < 0x1_0000_0000
    ensures TimestampOf(NewStartupId("%1", sec, usec, pid, timestamp)) == 0
  {
    PlaceAlone(1, 1, []);
    assert Place(1) == "%1";
    StartupIdTimestamp("%1", sec, usec, pid, timestamp);
    hide NewStartupId, TimestampOf, Lowest;
  }
}
