/** Character-level text functions that the startup-notification code takes from Qt:
    QString::simplified, QString::trimmed, QString::startsWith, decimal printing and
    QString::toLong. */
module Text {

  // ---------------------------------------------------------------- white space

  /** QChar::isSpace for the characters of one UTF-16 code unit. */
  predicate IsSpace(c: char) {
    var n := c as int;
    || 9 <= n <= 13 || n == 0x20 || n == 0x85 || n == 0xa0 || n == 0x1680
    || 0x2000 <= n <= 0x200a || n == 0x2028 || n == 0x2029 || n == 0x202f
    || n == 0x205f || n == 0x3000
  }

  predicate NoSpace(s: string) {
    forall i :: 0 <= i < |s| ==> !IsSpace(s[i])
  }

  /** Every run of white space becomes one space; after a space (prev) a run vanishes. */
  function Squeeze(s: string, prev: bool): string {
    if s == [] then []
    else if IsSpace(s[0]) then (if prev then [] else " ") + Squeeze(s[1..], true)
    else [s[0]] + Squeeze(s[1..], false)
  }

  /** White-space runs become single spaces; nothing is trimmed. */
  function Collapse(s: string): string {
    Squeeze(s, false)
  }

  function TrimStart(s: string): string {
    if s != [] && IsSpace(s[0]) then TrimStart(s[1..]) else s
  }

  function TrimEnd(s: string): string {
    if s != [] && IsSpace(s[|s| - 1]) then TrimEnd(s[..|s| - 1]) else s
  }

  /** QString::trimmed. */
  function Trimmed(s: string): string {
    TrimEnd(TrimStart(s))
  }

  /** QString::simplified. */
  function Simplified(s: string): string {
    TrimEnd(Squeeze(s, true))
  }

  /** True when the last character read is white space; prev stands for the empty text. */
  predicate EndsInSpace(s: string, prev: bool) {
    if s == [] then prev else IsSpace(s[|s| - 1])
  }

  lemma SqueezeChar(c: char, rest: string, prev: bool)
    ensures Squeeze([c] + rest, prev)
            == (if !IsSpace(c) then [c] else if prev then [] else " ") + Squeeze(rest, IsSpace(c))
  {
    assert ([c] + rest)[1..] == rest;
  }

  lemma {:induction false} SqueezeConcat(a: string, b: string, prev: bool)
    ensures Squeeze(a + b, prev) == Squeeze(a, prev) + Squeeze(b, EndsInSpace(a, prev))
  {
    if a == [] {
      assert a + b == b;
    } else {
      assert (a + b)[0] == a[0] && (a + b)[1..] == a[1..] + b;
      SqueezeConcat(a[1..], b, IsSpace(a[0]));
    }
  }

  lemma {:induction false} SqueezeNoSpace(s: string, prev: bool)
    requires NoSpace(s)
    ensures Squeeze(s, prev) == s
  {
    if s != [] {
      SqueezeNoSpace(s[1..], false);
    }
  }

  /** Collapsing keeps the first and the last character's kind and never empties a text. */
  lemma {:induction false} SqueezeEnds(s: string, prev: bool)
    requires s != [] && !IsSpace(s[|s| - 1])
    ensures Squeeze(s, prev) != []
    ensures Squeeze(s, prev)[|Squeeze(s, prev)| - 1] == s[|s| - 1]
  {
    if |s| > 1 {
      SqueezeEnds(s[1..], IsSpace(s[0]));
    }
  }

  lemma CollapseEmpty(s: string)
    ensures Collapse(s) == [] <==> s == []
  {
  }

  /** Collapsing is idempotent, and its result holds no white space other than single spaces. */
  lemma {:induction false} SqueezeIdempotent(s: string, prev: bool)
    ensures Squeeze(Squeeze(s, prev), prev) == Squeeze(s, prev)
  {
    if s != [] {
      SqueezeIdempotent(s[1..], IsSpace(s[0]));
      var rest := Squeeze(s[1..], IsSpace(s[0]));
      var head := if !IsSpace(s[0]) then [s[0]] else if prev then [] else " ";
      assert Squeeze(s, prev) == head + rest;
      if head != [] {
        assert (head + rest)[0] == head[0] && (head + rest)[1..] == rest;
      } else {
        assert head + rest == rest;
      }
    }
  }

  lemma TrimEndVisible(s: string)
    requires s != [] && !IsSpace(s[|s| - 1])
    ensures TrimEnd(s) == s
  {
  }

  /** Cutting white space off the end does not change what simplified() sees. */
  lemma {:induction false} SimplifiedIgnoresTrim(s: string)
    ensures Simplified(TrimEnd(s)) == Simplified(s)
  {
    if s != [] && IsSpace(s[|s| - 1]) {
      var t := s[..|s| - 1];
      SimplifiedIgnoresTrim(t);
      assert s == t + [s[|s| - 1]];
      SqueezeConcat(t, [s[|s| - 1]], true);
      var a := Squeeze(t, true);
      if !EndsInSpace(t, true) {
        assert Squeeze(s, true) == a + " ";
        assert (a + " ")[..|a + " "| - 1] == a;
      } else {
        assert Squeeze(s, true) == a + [] == a;
      }
    }
  }

  /** Trimming only removes white space from the end, so a visible prefix stays. */
  lemma {:induction false} TrimEndKeepsPrefix(s: string, n: nat)
    requires 0 < n <= |s| && !IsSpace(s[n - 1])
    ensures |TrimEnd(s)| >= n && TrimEnd(s)[..n] == s[..n]
    ensures TrimEnd(s)[n..] == TrimEnd(s[n..])
  {
    if IsSpace(s[|s| - 1]) {
      assert n < |s|;
      TrimEndKeepsPrefix(s[..|s| - 1], n);
      assert s[..|s| - 1][n..] == s[n..][..|s| - n - 1];
    }
  }

  // ---------------------------------------------------------------- what trimming and simplifying are

  /** Which characters are white space: the ASCII ones, the no-break space and next line, and the
      separators of Unicode that fit one code unit. Letters, digits and punctuation are not. */
  lemma SpaceExactly(c: char)
    ensures IsSpace(c)
            <==> c in {' ', '\t', '\n', '\U{b}', '\U{c}', '\r', '\U{85}', '\U{a0}', '\U{1680}', '\U{2028}', '\U{2029}',
                       '\U{202f}', '\U{205f}', '\U{3000}'}
                 || '\U{2000}' <= c <= '\U{200a}'
  {
  }

  lemma {:induction false} TrimStartExactly(s: string) returns (i: nat)
    ensures i <= |s| && TrimStart(s) == s[i..]
    ensures (forall k :: 0 <= k < i ==> IsSpace(s[k])) && (i < |s| ==> !IsSpace(s[i]))
  {
    if s != [] && IsSpace(s[0]) {
      var k := TrimStartExactly(s[1..]);
      i := k + 1;
    } else {
      i := 0;
    }
  }

  lemma {:induction false} TrimEndExactly(s: string) returns (j: nat)
    ensures j <= |s| && TrimEnd(s) == s[..j]
    ensures (forall k :: j <= k < |s| ==> IsSpace(s[k])) && (j > 0 ==> !IsSpace(s[j - 1]))
  {
    if s != [] && IsSpace(s[|s| - 1]) {
      j := TrimEndExactly(s[..|s| - 1]);
    } else {
      j := |s|;
    }
  }

  /** trimmed() cuts white space from both ends, all of it and nothing else. */
  lemma TrimmedExactly(s: string) returns (i: nat, j: nat)
    ensures i <= j <= |s| && Trimmed(s) == s[i..j]
    ensures forall k :: 0 <= k < i || j <= k < |s| ==> IsSpace(s[k])
    ensures i < j ==> !IsSpace(s[i]) && !IsSpace(s[j - 1])
  {
    i := TrimStartExactly(s);
    var t := s[i..];
    var n := TrimEndExactly(t);
    j := i + n;
    assert forall k :: j <= k < |s| ==> s[k] == t[k - i];
    hide TrimStart, TrimEnd, IsSpace;
  }

  /** The length of the word at the start of a text. */
  function WordLength(s: string): (n: nat)
    ensures n <= |s| && NoSpace(s[..n]) && (n < |s| ==> IsSpace(s[n])) && (s != [] && !IsSpace(s[0]) ==> n > 0)
  {
    if s == [] || IsSpace(s[0]) then 0
    else
      var n := WordLength(s[1..]);
      assert s[..n + 1] == [s[0]] + s[1..][..n];
      n + 1
  }

  /** The words of a text: its maximal parts without white space. */
  function Words(s: string): seq<string>
    decreases |s|
  {
    if s == [] then []
    else if IsSpace(s[0]) then Words(s[1..])
    else [s[..WordLength(s)]] + Words(s[WordLength(s)..])
  }

  function WithSpaces(ws: seq<string>): string {
    if ws == [] then [] else if |ws| == 1 then ws[0] else ws[0] + " " + WithSpaces(ws[1..])
  }

  lemma {:induction false} NoWords(s: string)
    ensures Words(s) == [] <==> forall i :: 0 <= i < |s| ==> IsSpace(s[i])
    decreases |s|
  {
    if s != [] && IsSpace(s[0]) {
      NoWords(s[1..]);
    }
  }

  lemma WithSpacesStep(w: string, ws: seq<string>)
    ensures WithSpaces([w] + ws) == if ws == [] then w else w + " " + WithSpaces(ws)
  {
    assert ([w] + ws)[1..] == ws;
  }

  /** The text ends in white space and has a word. */
  function Trailing(s: string): string {
    if Words(s) != [] && IsSpace(s[|s| - 1]) then " " else []
  }

  lemma {:induction false} SqueezedWords(s: string)
    ensures Squeeze(s, true) == WithSpaces(Words(s)) + Trailing(s)
    decreases |s|
  {
    if s != [] && IsSpace(s[0]) {
      SqueezedWords(s[1..]);
      assert Trailing(s) == Trailing(s[1..]);
    } else if s != [] {
      var n := WordLength(s);
      var word, rest := s[..n], s[n..];
      assert s == word + rest && Words(s) == [word] + Words(rest);
      assert rest != [] ==> s[|s| - 1] == rest[|rest| - 1];
      assert !IsSpace(word[n - 1]) && (rest == [] ==> s[|s| - 1] == word[n - 1]);
      assert rest == [] ==> Words(rest) == [];
      SqueezedWords(rest);
      WordInFront(word, rest);
      NoWords(rest);
      TrailingStep(s, word, rest);
      hide WithSpaces, Squeeze, IsSpace, Words, Trailing, NoSpace;
      JoinFront(word, rest, Words(rest), Trailing(rest), Trailing(s));
    }
  }

  lemma JoinFront(word: string, rest: string, ws: seq<string>, trailing: string, all: string)
    requires all == if rest == [] then [] else if ws == [] then " " else trailing
    requires (ws == [] ==> trailing == []) && (rest == [] ==> ws == [])
    ensures word + (if rest == [] then [] else " " + (WithSpaces(ws) + trailing)) == WithSpaces([word] + ws) + all
  {
    WithSpacesStep(word, ws);
    if ws != [] {
      hide WithSpaces;
      Grouped(word, " ", WithSpaces(ws), trailing);
    }
  }

  lemma TrailingStep(s: string, word: string, rest: string)
    requires Words(s) != [] && s != [] && (Words(rest) == [] <==> forall i :: 0 <= i < |rest| ==> IsSpace(rest[i]))
    requires if rest == [] then !IsSpace(s[|s| - 1]) else s[|s| - 1] == rest[|rest| - 1]
    ensures Trailing(s) == if rest == [] then [] else if Words(rest) == [] then " " else Trailing(rest)
    ensures Words(rest) == [] ==> Trailing(rest) == []
  {
    hide Words, IsSpace;
  }

  lemma Grouped(a: string, b: string, c: string, d: string)
    ensures a + (b + (c + d)) == a + b + c + d
  {
  }

  /** A word and what follows it, squeezed. */
  lemma WordInFront(word: string, rest: string)
    requires word != [] && NoSpace(word) && (rest != [] ==> IsSpace(rest[0]))
    ensures Squeeze(word + rest, true) == word + if rest == [] then [] else " " + Squeeze(rest, true)
  {
    SqueezeConcat(word, rest, true);
    SqueezeNoSpace(word, true);
  }

  lemma {:induction false} LastWord(s: string)
    ensures var t := WithSpaces(Words(s)); t != [] ==> !IsSpace(t[|t| - 1])
    decreases |s|
  {
    if s != [] && IsSpace(s[0]) {
      LastWord(s[1..]);
    } else if s != [] {
      var n := WordLength(s);
      LastWord(s[n..]);
      WithSpacesStep(s[..n], Words(s[n..]));
      WordsNotEmpty(s[n..]);
      assert !IsSpace(s[..n][n - 1]);
      hide WithSpaces, IsSpace;
    }
  }

  lemma WordsNotEmpty(s: string)
    ensures Words(s) != [] <==> WithSpaces(Words(s)) != []
    decreases |s|
  {
    if s != [] && IsSpace(s[0]) {
      WordsNotEmpty(s[1..]);
    } else if s != [] {
      WithSpacesStep(s[..WordLength(s)], Words(s[WordLength(s)..]));
      hide WithSpaces;
    }
  }

  /** simplified() gives the words of the text, in order, with one space between them. */
  lemma SimplifiedIsWords(s: string)
    ensures Simplified(s) == WithSpaces(Words(s))
  {
    SqueezedWords(s);
    LastWord(s);
    WordsNotEmpty(s);
    var t := WithSpaces(Words(s));
    hide Words, WithSpaces, Squeeze;
    if t != [] {
      TrimEndVisible(t);
      assert (t + " ")[..|t + " "| - 1] == t;
    }
    assert t + [] == t;
  }

  // ---------------------------------------------------------------- prefixes

  /** QString::startsWith. */
  predicate StartsWith(s: string, p: string) {
    |p| <= |s| && s[..|p|] == p
  }

  // ---------------------------------------------------------------- decimal numbers

  predicate IsDigit(c: char) {
    '0' <= c <= '9'
  }

  predicate AllDigits(s: string) {
    forall i :: 0 <= i < |s| ==> IsDigit(s[i])
  }

  function Digit(n: nat): (c: char)
    requires n < 10
    ensures IsDigit(c) && (c as int) - ('0' as int) == n
  {
    ('0' as int + n) as char
  }

  /** The decimal digits of a natural number, most significant first. */
  function NatText(n: nat): (s: string)
    ensures s != [] && forall i :: 0 <= i < |s| ==> IsDigit(s[i])
  {
    if n < 10 then [Digit(n)] else NatText(n / 10) + [Digit(n % 10)]
  }

  /** QString::arg(int). */
  function IntText(n: int): (s: string)
    ensures s != [] && forall i :: 0 <= i < |s| ==> IsDigit(s[i]) || s[i] == '-'
  {
    if n < 0 then "-" + NatText(-n) else NatText(n)
  }

  /** The value of a digit string. */
  function DigitsValue(s: string): nat
    requires forall i :: 0 <= i < |s| ==> IsDigit(s[i])
  {
    if s == [] then 0
    else
      assert IsDigit(s[|s| - 1]);
      10 * DigitsValue(s[..|s| - 1]) + (s[|s| - 1] as int - '0' as int)
  }

  /** An unsigned long has 64 bits. */
  type ULong = n: int | 0 <= n < 0x1_0000_0000_0000_0000

  const LONG_MAX: int := 0x7fff_ffff_ffff_ffff

  predicate IsLong(n: int) {
    -LONG_MAX - 1 <= n <= LONG_MAX
  }

  /** QString::toLong in base 10: surrounding white space and one sign are accepted;
      anything malformed or out of the 64-bit range is 0. */
  function ToLong(text: string): (n: int)
    ensures IsLong(n)
  {
    var s := Trimmed(text);
    var neg := s != [] && s[0] == '-';
    var t := if s != [] && (s[0] == '-' || s[0] == '+') then s[1..] else s;
    if t == [] || !AllDigits(t) then 0
    else
      var a: int := DigitsValue(t);
      var v := if neg then -a else a;
      if IsLong(v) then v else 0
  }

  predicate IsInt(n: int) {
    -0x8000_0000 <= n <= 0x7fff_ffff
  }

  /** The conversion of a long to a 32-bit int. */
  function ToInt(n: int): (r: int)
    ensures IsInt(r) && (IsInt(n) ==> r == n) && (r - n) % 0x1_0000_0000 == 0
  {
    (n + 0x8000_0000) % 0x1_0000_0000 - 0x8000_0000
  }

  lemma {:induction false} NatTextValue(n: nat)
    ensures DigitsValue(NatText(n)) == n
  {
    if n >= 10 {
      NatTextValue(n / 10);
      var s := NatText(n);
      assert s[..|s| - 1] == NatText(n / 10);
    }
  }

  function PowerOfTen(k: nat): nat {
    if k == 0 then 1 else 10 * PowerOfTen(k - 1)
  }

  /** The decimal value of a digit string, by the weight of each digit. */
  function Weighted(s: string): int
    requires forall i :: 0 <= i < |s| ==> '0' <= s[i] <= '9'
  {
    if s == [] then 0 else (s[0] as int - '0' as int) * PowerOfTen(|s| - 1) + Weighted(s[1..])
  }

  lemma TimesTen(d: int, p: int)
    ensures d * (10 * p) == 10 * (d * p)
  {
  }

  lemma {:induction false} WeightedSnoc(s: string, c: char)
    requires forall i :: 0 <= i < |s| ==> '0' <= s[i] <= '9'
    requires '0' <= c <= '9'
    ensures Weighted(s + [c]) == 10 * Weighted(s) + (c as int - '0' as int)
  {
    if s == [] {
      assert s + [c] == [c] && [c][1..] == [];
      assert PowerOfTen(0) == 1;
    } else {
      assert (s + [c])[1..] == s[1..] + [c];
      WeightedSnoc(s[1..], c);
      TimesTen(s[0] as int - '0' as int, PowerOfTen(|s| - 1));
    }
  }

  /** Reading a number weighs its digits in base ten. */
  lemma {:induction false} DigitsAreDecimal(s: string)
    requires forall i :: 0 <= i < |s| ==> '0' <= s[i] <= '9'
    ensures DigitsValue(s) == Weighted(s)
  {
    if s != [] {
      var t := s[..|s| - 1];
      assert s == t + [s[|s| - 1]];
      DigitsAreDecimal(t);
      WeightedSnoc(t, s[|s| - 1]);
    }
  }

  lemma {:induction false} NatTextFirst(n: nat)
    ensures NatText(n)[0] == '0' <==> n == 0
    ensures |NatText(n)| == 1 <==> n < 10
  {
    if n >= 10 {
      NatTextFirst(n / 10);
    }
  }

  /** Printing a number gives its decimal digits, without leading zeros, after a minus sign if
      it is negative. */
  lemma PrintedIsDecimal(n: int)
    ensures var s := IntText(n);
            var digits := if n < 0 then s[1..] else s;
            && (n < 0 ==> s[0] == '-')
            && (forall i :: 0 <= i < |digits| ==> '0' <= digits[i] <= '9')
            && Weighted(digits) == (if n < 0 then -n else n)
            && digits != [] && (digits[0] == '0' ==> |digits| == 1)
  {
    var m: nat := if n < 0 then -n else n;
    NatTextValue(m);
    NatTextFirst(m);
    DigitsAreDecimal(NatText(m));
    assert n < 0 ==> IntText(n)[1..] == NatText(m);
    hide NatText, Weighted, DigitsValue;
  }

  lemma LongRange(a: int)
    requires a >= 0
    ensures IsLong(-a) <==> a <= 0x8000_0000_0000_0000
    ensures IsLong(a) <==> a <= 0x7fff_ffff_ffff_ffff
  {
  }

  /** The part of a text that should be a number, without its sign. */
  function Unsigned(s: string): string {
    if s != [] && (s[0] == '-' || s[0] == '+') then s[1..] else s
  }

  /** toLong() of any text: the decimal value of its digits after at most one sign, white space
      around it ignored; anything else, and what does not fit 64 bits, is 0. */
  lemma ReadIsDecimal(text: string)
    ensures var s := Trimmed(text);
            var digits := Unsigned(s);
            if digits == [] || !Decimal(digits) then ToLong(text) == 0
            else
              var a := Weighted(digits);
              if s[0] == '-' then ToLong(text) == (if a <= 0x8000_0000_0000_0000 then 0 - a else 0)
              else ToLong(text) == if a <= 0x7fff_ffff_ffff_ffff then a else 0
  {
    var s := Trimmed(text);
    var digits := Unsigned(s);
    hide Weighted, DigitsValue, Trimmed, Decimal, IsLong, AllDigits;
    DecimalDigits(digits);
    if digits != [] && Decimal(digits) {
      DecimalIs(digits);
      DigitsAreDecimal(digits);
      assert Weighted(digits) == DigitsValue(digits) >= 0;
      LongRange(Weighted(digits));
    }
  }

  lemma DecimalIs(s: string)
    requires Decimal(s)
    ensures forall i :: 0 <= i < |s| ==> '0' <= s[i] <= '9'
  {
  }

  predicate Decimal(s: string) {
    forall i :: 0 <= i < |s| ==> '0' <= s[i] <= '9'
  }

  lemma DecimalDigits(s: string)
    ensures Decimal(s) <==> AllDigits(s)
  {
    assert forall i :: 0 <= i < |s| ==> (IsDigit(s[i]) <==> '0' <= s[i] <= '9');
  }

  lemma DigitsAreVisible(s: string)
    requires forall i :: 0 <= i < |s| ==> IsDigit(s[i]) || s[i] == '-'
    ensures NoSpace(s) && '"' !in s && '\\' !in s && ' ' !in s
  {
  }

  /** Printing a number and reading it back gives the number. */
  lemma ToLongOfIntText(n: int)
    requires IsLong(n)
    ensures ToLong(IntText(n)) == n
  {
    var s := IntText(n);
    DigitsAreVisible(s);
    assert TrimStart(s) == s;
    assert TrimEnd(s) == s;
    if n < 0 {
      NatTextValue(-n);
      assert s[1..] == NatText(-n);
    } else {
      NatTextValue(n);
      assert IsDigit(s[0]);
    }
  }
}
