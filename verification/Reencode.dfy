/** How the monitor command prints a feature's data on one line (cmd/nameq/command/monitor.go). */
module Reencode {
  import opened Base
  import opened Json

  /** Printable and no space; `printable` lists the characters beyond ASCII that are. */
  predicate Keep(c: char, printable: set<char>) {
    '!' <= c <= '~' || (c > '\U{7f}' && c in printable)
  }

  const HEX_DIGITS := "0123456789abcdef"

  /** The last `width` digits in base 16. */
  function HexPad(n: nat, width: nat): (s: string)
    ensures |s| == width
    ensures forall i :: 0 <= i < width ==> s[i] in HEX_DIGITS
  {
    if width == 0 then [] else HexPad(n / 16, width - 1) + [HEX_DIGITS[n % 16]]
  }

  /** A \u and at least four digits, more where four do not suffice. */
  function UnicodeEscape(c: char): string {
    var n := c as int;
    "\\u" + HexPad(n, if n < 0x10000 then 4 else if n < 0x100000 then 5 else 6)
  }

  function EscapeChar(c: char, printable: set<char>): string {
    if Keep(c, printable) then [c] else UnicodeEscape(c)
  }

  function Escape(s: string, printable: set<char>): string {
    if s == [] then [] else Escape(s[..|s| - 1], printable) + EscapeChar(s[|s| - 1], printable)
  }

  /** Characters that compaction escapes for the sake of HTML. */
  predicate IsHtml(c: char) {
    c == '<' || c == '>' || c == '&' || c == '\U{2028}' || c == '\U{2029}'
  }

  function HtmlEscape(c: char): string {
    if IsHtml(c) then UnicodeEscape(c) else [c]
  }

  /** Compaction drops the space outside strings. */
  function Compact(s: string): string {
    if s == [] then []
    else if IsSpace(s[0]) then Compact(s[1..])
    else if s[0] == '"' then ['"'] + CompactString(s[1..])
    else HtmlEscape(s[0]) + Compact(s[1..])
  }

  function CompactString(s: string): string {
    if s == [] then []
    else if s[0] == '"' then ['"'] + Compact(s[1..])
    else if s[0] == '\\' && |s| > 1 then ['\\'] + HtmlEscape(s[1]) + CompactString(s[2..])
    else HtmlEscape(s[0]) + CompactString(s[1..])
  }

  /** The rune loop: builds the output one rune at a time. */
  method EscapeRunes(result: string, printable: set<char>) returns (data: string)
    ensures data == Escape(result, printable)
  {
    data := "";
    var i := 0;
    while i < |result|
      invariant 0 <= i <= |result|
      invariant data == Escape(result[..i], printable)
    {
      var rune := result[i];
      assert result[..i + 1][..i] == result[..i];
      if Keep(rune, printable) {
        data := data + [rune];
      } else {
        data := data + UnicodeEscape(rune);
      }
      i := i + 1;
    }
    assert result[..i] == result;
  }

  lemma EscapeCharIsClean(c: char, printable: set<char>)
    ensures forall d :: d in EscapeChar(c, printable) ==>
      d == c || d == '\\' || d == 'u' || '0' <= d <= '9' || 'a' <= d <= 'f'
    ensures forall d :: d in EscapeChar(c, printable) ==> ' ' < d != '\U{7f}' && (d > '\U{7f}' ==> d in printable)
  {
    forall d | d in UnicodeEscape(c)
      ensures d == '\\' || d == 'u' || '0' <= d <= '9' || 'a' <= d <= 'f'
    {
      var i :| 0 <= i < |UnicodeEscape(c)| && UnicodeEscape(c)[i] == d;
      if i >= 2 {
        assert d in HEX_DIGITS;
        HexDigitIsLower(d);
      }
    }
  }

  lemma HexDigitIsLower(d: char)
    requires d in HEX_DIGITS
    ensures '0' <= d <= '9' || 'a' <= d <= 'f'
  {
    var k :| 0 <= k < 16 && HEX_DIGITS[k] == d;
  }

  /** Nothing printed is a space or a control character, and nothing beyond ASCII that is not printable is printed. */
  lemma {:induction false} NoSpaceRemains(s: string, printable: set<char>)
    ensures forall c :: c in Escape(s, printable) ==> ' ' < c != '\U{7f}' && (c > '\U{7f}' ==> c in printable)
  {
    if s != [] {
      NoSpaceRemains(s[..|s| - 1], printable);
      EscapeCharIsClean(s[|s| - 1], printable);
    }
  }

  /** What is printed comes from the text or from an escape, whose digits are lower case. */
  lemma {:induction false} OnlyEscapesAdded(s: string, printable: set<char>)
    ensures forall c :: c in Escape(s, printable) ==> c in s || c == '\\' || c == 'u' || '0' <= c <= '9' || 'a' <= c <= 'f'
  {
    if s != [] {
      OnlyEscapesAdded(s[..|s| - 1], printable);
      EscapeCharIsClean(s[|s| - 1], printable);
    }
  }

  lemma HtmlEscapeHasNoHtml(c: char)
    ensures forall d :: d in HtmlEscape(c) ==> !IsHtml(d)
  {
  }

  /** Compaction leaves no character that could be taken for HTML, nor a line separator of JavaScript. */
  lemma {:induction false} CompactHasNoHtml(s: string)
    ensures forall c :: c in Compact(s) ==> c != '<' && c != '>' && c != '&' && c != '\U{2028}' && c != '\U{2029}'
    ensures forall c :: c in CompactString(s) ==> !IsHtml(c)
  {
    if s != [] {
      HtmlEscapeHasNoHtml(s[0]);
      CompactHasNoHtml(s[1..]);
      if |s| > 1 {
        HtmlEscapeHasNoHtml(s[1]);
        CompactHasNoHtml(s[2..]);
      }
    }
  }

  lemma {:induction false} EscapeConcat(a: string, b: string, printable: set<char>)
    ensures Escape(a + b, printable) == Escape(a, printable) + Escape(b, printable)
  {
    if b == [] {
      assert a + b == a;
    } else {
      var init, last := b[..|b| - 1], b[|b| - 1];
      assert (a + b)[..|a + b| - 1] == a + init && (a + b)[|a + b| - 1] == last;
      EscapeConcat(a, init, printable);
      assert (Escape(a, printable) + Escape(init, printable)) + EscapeChar(last, printable)
          == Escape(a, printable) + (Escape(init, printable) + EscapeChar(last, printable));
    }
  }

  lemma EscapeOne(c: char, printable: set<char>)
    ensures Escape([c], printable) == EscapeChar(c, printable)
  {
    assert [c][..0] == [];
  }

  /** What has been escaped is not escaped again. */
  lemma {:induction false} EscapeKept(s: string, printable: set<char>)
    requires forall i :: 0 <= i < |s| ==> Keep(s[i], printable)
    ensures Escape(s, printable) == s
  {
    if s != [] {
      EscapeKept(s[..|s| - 1], printable);
      assert s == s[..|s| - 1] + [s[|s| - 1]];
    }
  }

  lemma CleanLineKept(s: string, printable: set<char>)
    ensures (forall c :: c in s ==> ' ' < c <= '~' || (c > '\U{7f}' && c in printable)) ==> Escape(s, printable) == s
  {
    if forall i :: 0 <= i < |s| ==> Keep(s[i], printable) {
      EscapeKept(s, printable);
    } else {
      var i :| 0 <= i < |s| && !Keep(s[i], printable);
      assert s[i] in s;
    }
  }

  // Compaction and escaping together, one character at a time.

  function Outside(s: string, printable: set<char>): string {
    Escape(Compact(s), printable)
  }

  function Inside(s: string, printable: set<char>): string {
    Escape(CompactString(s), printable)
  }

  /** What becomes of one character of a string. */
  function OutChar(c: char, printable: set<char>): string {
    if IsHtml(c) then UnicodeEscape(c) else EscapeChar(c, printable)
  }

  lemma UnicodeEscapeKept(c: char, printable: set<char>)
    ensures Escape(UnicodeEscape(c), printable) == UnicodeEscape(c)
  {
    var s := UnicodeEscape(c);
    forall i | 0 <= i < |s|
      ensures Keep(s[i], printable)
    {
      assert i >= 2 ==> s[i] in HEX_DIGITS;
    }
    EscapeKept(s, printable);
  }

  lemma EscapeHtmlEscape(c: char, s: string, printable: set<char>)
    ensures Escape(HtmlEscape(c) + s, printable) == OutChar(c, printable) + Escape(s, printable)
  {
    EscapeConcat(HtmlEscape(c), s, printable);
    EscapeOne(c, printable);
    UnicodeEscapeKept(c, printable);
  }

  /** An ASCII character that is neither control, space nor HTML is passed on. */
  predicate Plain(c: char) {
    '!' <= c <= '~' && c != '<' && c != '>' && c != '&'
  }

  lemma EscapePlain(c: char, s: string, printable: set<char>)
    requires Plain(c)
    ensures Escape([c] + s, printable) == [c] + Escape(s, printable)
  {
    EscapeConcat([c], s, printable);
    EscapeOne(c, printable);
  }

  lemma InsideChar(s: string, printable: set<char>)
    requires s != [] && s[0] != '"' && s[0] != '\\'
    ensures Inside(s, printable) == OutChar(s[0], printable) + Inside(s[1..], printable)
  {
    EscapeHtmlEscape(s[0], CompactString(s[1..]), printable);
  }

  lemma InsideQuote(s: string, printable: set<char>)
    requires s != [] && s[0] == '"'
    ensures Inside(s, printable) == ['"'] + Outside(s[1..], printable)
  {
    EscapePlain('"', Compact(s[1..]), printable);
  }

  lemma CompactEscape(s: string)
    requires |s| > 1 && s[0] == '\\' && Plain(s[1])
    ensures CompactString(s) == ['\\'] + ([s[1]] + CompactString(s[2..]))
  {
  }

  lemma EscapePlainPair(c: char, d: char, s: string, printable: set<char>)
    requires Plain(c) && Plain(d)
    ensures Escape([c] + ([d] + s), printable) == [c, d] + Escape(s, printable)
  {
    EscapePlain(c, [d] + s, printable);
    EscapePlain(d, s, printable);
  }

  lemma InsideEscape(s: string, printable: set<char>)
    requires |s| > 1 && s[0] == '\\' && Plain(s[1])
    ensures Inside(s, printable) == ['\\', s[1]] + Inside(s[2..], printable)
  {
    CompactEscape(s);
    EscapePlainPair('\\', s[1], CompactString(s[2..]), printable);
  }

  lemma InsideHex(s: string, rest: string, printable: set<char>)
    requires s != [] && IsHex(s[0]) && s[1..] == rest
    ensures Inside(s, printable) == [s[0]] + Inside(rest, printable)
  {
    InsideChar(s, printable);
  }

  lemma ConsTwice(c: char, d: char, rest: string)
    ensures [c] + ([d] + rest) == [c, d] + rest
  {
  }

  lemma InsideHexPair(s: string, printable: set<char>)
    requires |s| > 1 && IsHex(s[0]) && IsHex(s[1])
    ensures Inside(s, printable) == [s[0], s[1]] + Inside(s[2..], printable)
  {
    InsideHex(s, s[1..], printable);
    InsideHex(s[1..], s[2..], printable);
    ConsTwice(s[0], s[1], Inside(s[2..], printable));
  }

  lemma ThreePairs(s: string, rest: string)
    requires |s| >= 6
    ensures s[..6] + rest == [s[0], s[1]] + ([s[2], s[3]] + ([s[4], s[5]] + rest))
  {
    assert s[..6] == [s[0], s[1]] + ([s[2], s[3]] + [s[4], s[5]]);
  }

  lemma InsideUnit(s: string, printable: set<char>)
    requires Escaped(s).Some?
    ensures Inside(s, printable) == s[..6] + Inside(s[6..], printable)
  {
    InsideEscape(s, printable);
    InsideHexPair(s[2..], printable);
    InsideHexPair(s[4..], printable);
    assert s[2..][2..] == s[4..] && s[4..][2..] == s[6..];
    ThreePairs(s, Inside(s[6..], printable));
  }

  lemma OutsideChar(s: string, printable: set<char>)
    requires s != [] && !IsSpace(s[0]) && s[0] != '"' && Plain(s[0])
    ensures Outside(s, printable) == [s[0]] + Outside(s[1..], printable)
  {
    EscapeHtmlEscape(s[0], Compact(s[1..]), printable);
  }

  lemma OutsideQuote(s: string, printable: set<char>)
    requires s != [] && s[0] == '"'
    ensures Outside(s, printable) == ['"'] + Inside(s[1..], printable)
  {
    EscapePlain('"', CompactString(s[1..]), printable);
  }

  // Decoding the outcome.

  /** The escape of such a character has too many digits. */
  predicate TooLong(c: char, printable: set<char>) {
    !Keep(c, printable) && c as int > 0xFFFF
  }

  /** No character of the string, escapes aside, is escaped with too many digits. */
  predicate CleanString(s: string, printable: set<char>) {
    if s == [] || s[0] == '"' then true
    else if s[0] == '\\' then |s| < 2 || CleanString(s[2..], printable)
    else !TooLong(s[0], printable) && CleanString(s[1..], printable)
  }

  lemma HexDigitValue(k: nat)
    requires k < 16
    ensures IsHex(HEX_DIGITS[k]) && HexValue(HEX_DIGITS[k]) == k
  {
  }

  lemma FourDigits(n: nat)
    ensures HexPad(n, 4) ==
      [HEX_DIGITS[n / 16 / 16 / 16 % 16], HEX_DIGITS[n / 16 / 16 % 16], HEX_DIGITS[n / 16 % 16], HEX_DIGITS[n % 16]]
  {
    var n1 := n / 16;
    var n2 := n1 / 16;
    var n3 := n2 / 16;
    assert HexPad(n3, 1) == [HEX_DIGITS[n3 % 16]] by {
      assert HexPad(n3 / 16, 0) == [];
    }
    assert HexPad(n2, 2) == HexPad(n3, 1) + [HEX_DIGITS[n2 % 16]];
    assert HexPad(n1, 3) == HexPad(n2, 2) + [HEX_DIGITS[n1 % 16]];
    assert HexPad(n, 4) == HexPad(n1, 3) + [HEX_DIGITS[n % 16]];
  }

  lemma DigitsAddUp(n: nat, n1: nat, n2: nat, n3: nat)
    requires n <= 0xFFFF && n1 == n / 16 && n2 == n1 / 16 && n3 == n2 / 16
    ensures n == n3 % 16 * 0x1000 + n2 % 16 * 0x100 + n1 % 16 * 0x10 + n % 16
  {
    assert n3 < 16;
    assert n == 16 * n1 + n % 16 && n1 == 16 * n2 + n1 % 16 && n2 == 16 * n3 + n2 % 16;
  }

  /** Four digits that make up the number. */
  ghost predicate FourDigitsOf(pad: string, n: nat) {
    |pad| == 4 && IsHex(pad[0]) && IsHex(pad[1]) && IsHex(pad[2]) && IsHex(pad[3]) &&
    n == HexValue(pad[0]) * 0x1000 + HexValue(pad[1]) * 0x100 + HexValue(pad[2]) * 0x10 + HexValue(pad[3])
  }

  lemma DigitsOf(a: nat, b: nat, c: nat, d: nat)
    requires a < 16 && b < 16 && c < 16 && d < 16
    ensures FourDigitsOf([HEX_DIGITS[a], HEX_DIGITS[b], HEX_DIGITS[c], HEX_DIGITS[d]],
                         a * 0x1000 + b * 0x100 + c * 0x10 + d)
  {
    HexDigitValue(a);
    HexDigitValue(b);
    HexDigitValue(c);
    HexDigitValue(d);
  }

  lemma PadHasFourDigits(n: nat)
    requires n <= 0xFFFF
    ensures FourDigitsOf(HexPad(n, 4), n)
  {
    var n1 := n / 16;
    var n2 := n1 / 16;
    var n3 := n2 / 16;
    DigitsOf(n3 % 16, n2 % 16, n1 % 16, n % 16);
    DigitsAddUp(n, n1, n2, n3);
    FourDigits(n);
  }

  lemma FourDigitsReadBack(pad: string, t: string, n: nat)
    requires FourDigitsOf(pad, n)
    ensures Escaped("\\u" + pad + t) == Some(n)
  {
    var w := "\\u" + pad + t;
    assert w[2] == pad[0] && w[3] == pad[1] && w[4] == pad[2] && w[5] == pad[3];
  }

  /** A four-digit escape reads back as the character it was made from. */
  lemma EscapeReadsBack(c: char, t: string)
    requires c as int <= 0xFFFF
    ensures Escaped(UnicodeEscape(c) + t) == Some(c as int)
  {
    PadHasFourDigits(c as int);
    FourDigitsReadBack(HexPad(c as int, 4), t, c as int);
  }

  /** An escape that is not half of a pair reads back as at most four hex digits' worth. */
  lemma UnitReadsBack(w: string)
    requires |w| >= 7 && w[0] == '\\' && w[1] == 'u' && w[6] != '\\'
    ensures var u := Unquote(w); u.Some? ==> u.value.runes != [] && u.value.runes[0] <= 0xFFFF
  {
    assert Escaped(w[6..]) == None by {
      assert w[6..][0] == w[6];
    }
  }

  lemma LongEscapeDigits(c: char)
    requires c as int > 0xFFFF
    ensures var e := UnicodeEscape(c); |e| >= 7 && e[0] == '\\' && e[1] == 'u' && e[6] != '\\'
  {
    assert UnicodeEscape(c)[6] in HEX_DIGITS;
  }

  /** A longer escape reads back as something else, followed by a digit. */
  lemma LongEscapeMisreads(c: char, t: string)
    requires c as int > 0xFFFF
    ensures var u := Unquote(UnicodeEscape(c) + t); u.Some? ==> u.value.runes != [] && u.value.runes[0] != c as int
  {
    LongEscapeDigits(c);
    UnitReadsBack(UnicodeEscape(c) + t);
  }

  lemma UnquoteOutChar(c: char, t: string, printable: set<char>)
    requires c >= ' ' && c != '"' && c != '\\' && !TooLong(c, printable)
    ensures Unquote(OutChar(c, printable) + t) == Prepend(c as int, Unquote(t))
  {
    var w := OutChar(c, printable) + t;
    if OutChar(c, printable) == [c] {
      assert w[1..] == t;
    } else {
      EscapeReadsBack(c, t);
      assert w[6..] == t;
    }
  }

  lemma LowSurrogateStaysChar(s: string, printable: set<char>)
    requires s != [] && s[0] != '"' && s[0] != '\\' && !TooLong(s[0], printable)
    requires s[0] as int < 0xD800 || s[0] as int >= 0xE000
    ensures !IsLow(Escaped(Inside(s, printable)))
  {
    var rest := Inside(s[1..], printable);
    InsideChar(s, printable);
    if OutChar(s[0], printable) != [s[0]] {
      EscapeReadsBack(s[0], rest);
    } else {
      assert ([s[0]] + rest)[0] != '\\';
    }
  }

  lemma LowSurrogateStaysEscape(s: string, printable: set<char>)
    requires |s| > 1 && s[0] == '\\' && s[1] != 'u' && Plain(s[1])
    ensures !IsLow(Escaped(Inside(s, printable)))
  {
    InsideEscape(s, printable);
    assert Inside(s, printable)[1] == s[1];
  }

  /** A string goes on with a low surrogate after re-encoding only if it did before, or with a long escape. */
  lemma LowSurrogateStays(s: string, printable: set<char>)
    requires Unquote(s).Some? && !IsLow(Escaped(s))
    requires s[0] != '"' && s[0] != '\\' ==> !TooLong(s[0], printable)
    ensures !IsLow(Escaped(Inside(s, printable)))
  {
    if s[0] == '"' {
      InsideQuote(s, printable);
    } else if s[0] != '\\' {
      LowSurrogateStaysChar(s, printable);
    } else if s[1] == 'u' {
      InsideUnit(s, printable);
      SameUnit(Inside(s, printable), s);
    } else {
      LowSurrogateStaysEscape(s, printable);
    }
  }

  lemma CleanUnit(s: string, printable: set<char>)
    requires Escaped(s).Some?
    ensures CleanString(s, printable) == CleanString(s[6..], printable)
  {
    assert s[2..][1..] == s[3..] && s[3..][1..] == s[4..] && s[4..][1..] == s[5..] && s[5..][1..] == s[6..];
    assert CleanString(s, printable) == CleanString(s[2..], printable) == CleanString(s[3..], printable);
    assert CleanString(s[3..], printable) == CleanString(s[4..], printable) == CleanString(s[5..], printable);
    assert CleanString(s[5..], printable) == CleanString(s[6..], printable);
  }

  /** Both halves of the claim about a string: it is read back exactly when it is clean. */
  ghost predicate StringReadBack(s: string, u: Unquoted, printable: set<char>) {
    var v := Unquote(Inside(s, printable));
    if CleanString(s, printable) then v == Some(Unquoted(u.runes, Outside(u.rest, printable)))
    else v == None || v.value.runes != u.runes
  }

  /** Carries the claim over an element that is decoded alike before and after. */
  lemma StringReadBackStep(s: string, tail: string, rune: int, printable: set<char>)
    requires Unquote(s) == Prepend(rune, Unquote(tail)) && Unquote(tail).Some?
    requires Unquote(Inside(s, printable)) == Prepend(rune, Unquote(Inside(tail, printable)))
    requires CleanString(s, printable) == CleanString(tail, printable)
    requires StringReadBack(tail, Unquote(tail).value, printable)
    ensures StringReadBack(s, Unquote(s).value, printable)
  {
    var v := Unquote(Inside(tail, printable));
    if v.Some? && v.value.runes != Unquote(tail).value.runes {
      assert ([rune] + v.value.runes)[1..] == v.value.runes;
      assert ([rune] + Unquote(tail).value.runes)[1..] == Unquote(tail).value.runes;
    }
  }

  lemma {:induction false} StringSurvives(s: string, printable: set<char>)
    requires Unquote(s).Some?
    ensures StringReadBack(s, Unquote(s).value, printable)
    decreases |s|, 2
  {
    if s[0] == '"' {
      InsideQuote(s, printable);
      assert (['"'] + Outside(s[1..], printable))[1..] == Outside(s[1..], printable);
    } else if s[0] != '\\' {
      InsideChar(s, printable);
      if TooLong(s[0], printable) {
        LongEscapeMisreads(s[0], Inside(s[1..], printable));
      } else {
        UnquoteOutChar(s[0], Inside(s[1..], printable), printable);
        StringSurvives(s[1..], printable);
        StringReadBackStep(s, s[1..], s[0] as int, printable);
      }
    } else if s[1] == 'u' {
      UnitSurvives(s, printable);
    } else {
      InsideEscape(s, printable);
      assert (['\\', s[1]] + Inside(s[2..], printable))[2..] == Inside(s[2..], printable);
      StringSurvives(s[2..], printable);
      StringReadBackStep(s, s[2..], SimpleEscape(s[1]), printable);
    }
  }

  /** An escaped code unit, alone or as half of a pair. */
  lemma {:induction false} UnitSurvives(s: string, printable: set<char>)
    requires Unquote(s).Some? && Escaped(s).Some?
    ensures StringReadBack(s, Unquote(s).value, printable)
    decreases |s|, 1
  {
    var unit, tail := Escaped(s).value, s[6..];
    InsideUnit(s, printable);
    CleanUnit(s, printable);
    var w := Inside(s, printable);
    assert w[..6] == s[..6] && w[6..] == Inside(tail, printable);
    SameUnit(w, s);
    if IsHigh(unit) && IsLow(Escaped(tail)) {
      PairSurvives(s, printable);
    } else if IsHigh(unit) && IsLow(Escaped(w[6..])) {
      if tail[0] == '"' || tail[0] == '\\' || !TooLong(tail[0], printable) {
        LowSurrogateStays(tail, printable);
      } else {
        assert !CleanString(s, printable);
        assert Unquote(s).value.runes[0] == REPLACEMENT;
        assert Unquote(w).Some? ==> Unquote(w).value.runes[0] == Combine(unit, Escaped(w[6..]).value);
      }
    } else {
      StringSurvives(tail, printable);
      StringReadBackStep(s, tail, if 0xD800 <= unit < 0xE000 then REPLACEMENT else unit, printable);
    }
  }

  lemma SameUnit(a: string, b: string)
    requires |a| >= 6 && |b| >= 6 && a[..6] == b[..6]
    ensures Escaped(a) == Escaped(b)
  {
    assert a[0] == a[..6][0] && a[1] == a[..6][1] && a[2] == a[..6][2];
    assert a[3] == a[..6][3] && a[4] == a[..6][4] && a[5] == a[..6][5];
  }

  lemma {:induction false} PairSurvives(s: string, printable: set<char>)
    requires Unquote(s).Some? && Escaped(s).Some? && IsHigh(Escaped(s).value) && IsLow(Escaped(s[6..]))
    ensures StringReadBack(s, Unquote(s).value, printable)
    decreases |s|, 0
  {
    InsideUnit(s, printable);
    InsideUnit(s[6..], printable);
    CleanUnit(s, printable);
    CleanUnit(s[6..], printable);
    assert s[6..][6..] == s[12..];
    var w := Inside(s, printable);
    assert w[6..] == Inside(s[6..], printable) && w[12..] == w[6..][6..] == Inside(s[12..], printable);
    SameUnit(w, s);
    SameUnit(w[6..], s[6..]);
    StringSurvives(s[12..], printable);
    StringReadBackStep(s, s[12..], Combine(Escaped(s).value, Escaped(s[6..]).value), printable);
  }

  // Whole documents.

  /** No string of the document has a character whose escape is too long. */
  predicate Clean(s: string, printable: set<char>)
    decreases |s|
  {
    if s == [] then true
    else if s[0] == '"' then
      var u := Unquote(s[1..]);
      CleanString(s[1..], printable) && (u.Some? ==> Clean(u.value.rest, printable))
    else Clean(s[1..], printable)
  }

  /** Both halves of the claim about a document: its tokens are read back exactly when it is clean. */
  ghost predicate TokensReadBack(s: string, printable: set<char>) {
    if Clean(s, printable) then Lex(Outside(s, printable)) == Lex(s) else Lex(Outside(s, printable)) != Lex(s)
  }

  lemma StartOfOutside(s: string, printable: set<char>)
    requires Lex(s).Some? && Outside(s, printable) != [] && IsScalarChar(Outside(s, printable)[0])
    ensures Lex(s).value != [] && Lex(s).value[0].Scalar?
    decreases |s|
  {
    if s != [] {
      if IsSpace(s[0]) {
        StartOfOutside(s[1..], printable);
      } else if s[0] == '"' {
        OutsideQuote(s, printable);
      } else {
        OutsideChar(s, printable);
      }
    }
  }

  lemma OutsideScalar(s: string, rest: string, printable: set<char>)
    requires s != [] && IsScalarChar(s[0]) && s[1..] == rest
    ensures Outside(s, printable) == [s[0]] + Outside(rest, printable)
  {
    OutsideChar(s, printable);
  }

  lemma PrefixStep(s: string, k: nat, t: string)
    requires 0 < k <= |s|
    ensures s[1..][k - 1..] == s[k..] && [s[0]] + (s[1..][..k - 1] + t) == s[..k] + t
  {
  }

  lemma {:induction false} OutsideRun(s: string, k: nat, printable: set<char>)
    requires k <= |s| && forall i :: 0 <= i < k ==> IsScalarChar(s[i])
    ensures Outside(s, printable) == s[..k] + Outside(s[k..], printable)
    decreases k
  {
    if k == 0 {
      assert s[0..] == s;
    } else {
      OutsideScalar(s, s[1..], printable);
      OutsideRun(s[1..], k - 1, printable);
      PrefixStep(s, k, Outside(s[k..], printable));
    }
  }

  lemma {:induction false} RunIsMaximal(run: string, rest: string)
    requires forall c :: c in run ==> IsScalarChar(c)
    requires rest != [] ==> !IsScalarChar(rest[0])
    ensures ScalarRun(run + rest) == run
  {
    if run != [] {
      assert (run + rest)[1..] == run[1..] + rest;
      RunIsMaximal(run[1..], rest);
    } else {
      assert run + rest == rest;
    }
  }

  lemma {:induction false} CleanRun(s: string, k: nat, printable: set<char>)
    requires k <= |s| && forall i :: 0 <= i < k ==> IsScalarChar(s[i])
    ensures Clean(s, printable) == Clean(s[k..], printable)
  {
    if k > 0 {
      CleanRun(s[1..], k - 1, printable);
      assert s[1..][k - 1..] == s[k..];
    }
  }

  lemma ConsReadBack(token: Token, s: string, rest: string, printable: set<char>)
    requires Lex(s) == Cons(token, Lex(rest)) && Lex(rest).Some?
    requires Lex(Outside(s, printable)) == Cons(token, Lex(Outside(rest, printable)))
    requires Clean(s, printable) == Clean(rest, printable) && TokensReadBack(rest, printable)
    ensures TokensReadBack(s, printable)
  {
    var a, b := Lex(Outside(rest, printable)), Lex(rest);
    if a.Some? && a != b {
      assert ([token] + a.value)[1..] == a.value && ([token] + b.value)[1..] == b.value;
    }
  }

  lemma SeparatedTail(token: Token, tokens: seq<Token>)
    requires Separated([token] + tokens)
    ensures Separated(tokens)
    ensures token.Scalar? && tokens != [] ==> !tokens[0].Scalar?
  {
    var all := [token] + tokens;
    assert forall i :: 0 <= i < |tokens| ==> tokens[i] == all[i + 1];
    assert tokens != [] ==> all[0] == token && all[1] == tokens[0];
  }

  lemma {:induction false} StringTokenSurvives(s: string, printable: set<char>)
    requires s != [] && s[0] == '"' && Lex(s).Some? && Separated(Lex(s).value)
    ensures TokensReadBack(s, printable)
    decreases |s|, 0
  {
    var u := Unquote(s[1..]).value;
    OutsideQuote(s, printable);
    var w := Outside(s, printable);
    assert w[1..] == Inside(s[1..], printable);
    StringSurvives(s[1..], printable);
    if CleanString(s[1..], printable) {
      SeparatedTail(Str(u.runes), Lex(u.rest).value);
      TokensSurvive(u.rest, printable);
      ConsReadBack(Str(u.runes), s, u.rest, printable);
    } else if Lex(w).Some? {
      assert Lex(w).value[0] == Str(Unquote(w[1..]).value.runes);
      assert Lex(s).value[0] == Str(u.runes);
    }
  }

  lemma LexRun(run: string, rest: string)
    requires run != [] && forall c :: c in run ==> IsScalarChar(c)
    requires rest != [] ==> !IsScalarChar(rest[0])
    ensures Lex(run + rest) == Cons(Scalar(run), Lex(rest))
  {
    RunIsMaximal(run, rest);
    assert (run + rest)[|run|..] == rest && (run + rest)[0] == run[0];
  }

  /** A scalar followed by no scalar is lexed as it stands. */
  lemma ScalarLexed(s: string, k: nat, printable: set<char>)
    requires 0 < k <= |s| && forall i :: 0 <= i < k ==> IsScalarChar(s[i])
    requires Outside(s[k..], printable) != [] ==> !IsScalarChar(Outside(s[k..], printable)[0])
    ensures Lex(Outside(s, printable)) == Cons(Scalar(s[..k]), Lex(Outside(s[k..], printable)))
  {
    OutsideRun(s, k, printable);
    LexRun(s[..k], Outside(s[k..], printable));
  }

  lemma {:induction false} ScalarTokenSurvives(s: string, printable: set<char>)
    requires s != [] && IsScalarChar(s[0]) && Lex(s).Some? && Separated(Lex(s).value)
    ensures TokensReadBack(s, printable)
    decreases |s|, 0
  {
    var run := ScalarRun(s);
    var rest := s[|run|..];
    var t := Outside(rest, printable);
    assert s[..|run|] == run;
    SeparatedTail(Scalar(run), Lex(rest).value);
    if t != [] && IsScalarChar(t[0]) {
      StartOfOutside(rest, printable);
    }
    ScalarLexed(s, |run|, printable);
    CleanRun(s, |run|, printable);
    TokensSurvive(rest, printable);
    ConsReadBack(Scalar(run), s, rest, printable);
  }

  lemma {:induction false} TokensSurvive(s: string, printable: set<char>)
    requires Lex(s).Some? && Separated(Lex(s).value)
    ensures TokensReadBack(s, printable)
    decreases |s|, 1
  {
    if s == [] {
    } else if IsSpace(s[0]) {
      TokensSurvive(s[1..], printable);
    } else if IsPunct(s[0]) {
      OutsideChar(s, printable);
      SeparatedTail(Punct(s[0]), Lex(s[1..]).value);
      TokensSurvive(s[1..], printable);
      assert ([s[0]] + Outside(s[1..], printable))[1..] == Outside(s[1..], printable);
      ConsReadBack(Punct(s[0]), s, s[1..], printable);
    } else if s[0] == '"' {
      StringTokenSurvives(s, printable);
    } else {
      ScalarTokenSurvives(s, printable);
    }
  }

  // The condition, on the characters of the document.

  ghost predicate AllShort(s: string, printable: set<char>) {
    forall c :: c in s ==> !TooLong(c, printable)
  }

  lemma AllShortDrop(s: string, k: nat, printable: set<char>)
    requires k <= |s| && forall i :: 0 <= i < k ==> s[i] <= '~'
    ensures AllShort(s, printable) <==> AllShort(s[k..], printable)
  {
    assert s == s[..k] + s[k..];
  }

  lemma ShortUnit(s: string, printable: set<char>)
    requires Escaped(s).Some?
    ensures AllShort(s, printable) == AllShort(s[6..], printable)
    ensures CleanString(s, printable) == CleanString(s[6..], printable)
  {
    CleanUnit(s, printable);
    AllShortDrop(s, 6, printable);
  }

  lemma {:induction false} CleanStringIsShort(s: string, printable: set<char>)
    requires Unquote(s).Some?
    ensures AllShort(s, printable) <==> CleanString(s, printable) && AllShort(Unquote(s).value.rest, printable)
    decreases |s|
  {
    if s[0] == '"' {
      AllShortDrop(s, 1, printable);
    } else if s[0] != '\\' {
      assert s == [s[0]] + s[1..];
      CleanStringIsShort(s[1..], printable);
    } else if s[1] == 'u' {
      ShortUnit(s, printable);
      if IsHigh(Escaped(s).value) && IsLow(Escaped(s[6..])) {
        ShortUnit(s[6..], printable);
        assert s[6..][6..] == s[12..];
        CleanStringIsShort(s[12..], printable);
      } else {
        CleanStringIsShort(s[6..], printable);
      }
    } else {
      AllShortDrop(s, 2, printable);
      CleanStringIsShort(s[2..], printable);
    }
  }

  lemma RunIsShort(s: string, printable: set<char>)
    ensures var rest := s[|ScalarRun(s)|..];
      (AllShort(s, printable) <==> AllShort(rest, printable)) && (Clean(s, printable) <==> Clean(rest, printable))
  {
    var k := |ScalarRun(s)|;
    forall i | 0 <= i < k
      ensures IsScalarChar(s[i])
    {
      assert s[i] in ScalarRun(s);
    }
    AllShortDrop(s, k, printable);
    CleanRun(s, k, printable);
  }

  lemma {:induction false} CleanIsShort(s: string, printable: set<char>)
    requires Lex(s).Some?
    ensures AllShort(s, printable) <==> Clean(s, printable)
    decreases |s|
  {
    if s == [] {
    } else if s[0] == '"' {
      AllShortDrop(s, 1, printable);
      CleanStringIsShort(s[1..], printable);
      CleanIsShort(Unquote(s[1..]).value.rest, printable);
    } else if IsSpace(s[0]) || IsPunct(s[0]) {
      AllShortDrop(s, 1, printable);
      CleanIsShort(s[1..], printable);
    } else {
      var k := |ScalarRun(s)|;
      RunIsShort(s, printable);
      CleanIsShort(s[k..], printable);
    }
  }

  /**
   What is printed for a document decodes to the same value exactly when every character that needs an
   escape is at most U+FFFF: any but those from '!' to '~' and the printable ones beyond ASCII.
  */
  lemma ReencodingKeepsMeaning(data: string, printable: set<char>)
    requires Decode(data).Some?
    ensures Decode(Escape(Compact(data), printable)) == Decode(data) <==>
      forall c :: c in data && c as int > 0xFFFF ==> c in printable
  {
    var w := Outside(data, printable);
    DecodeIsInjectiveOnTokens(data);
    ValueIsSeparated(Decode(data).value);
    TokensSurvive(data, printable);
    CleanIsShort(data, printable);
    if Decode(w) == Decode(data) {
      DecodeIsInjectiveOnTokens(w);
    }
  }

  /**
   A document that does not decode is skipped. For any other the line has no space, control character or HTML, is
   the compacted document if that needs no escape, and decodes to the document's value if and only if no character
   above U+FFFF needed one.
  */
  method Encode(data: string, printable: set<char>) returns (line: Option<string>)
    ensures line.Some? <==> Decode(data).Some?
    ensures line.Some? ==>
      forall c :: c in line.value ==> ' ' < c != '\U{7f}' && (c > '\U{7f}' ==> c in printable)
    ensures line.Some? ==>
      forall c :: c in line.value ==> c != '<' && c != '>' && c != '&' && c != '\U{2028}' && c != '\U{2029}'
    ensures line.Some? ==> forall c :: c in line.value ==>
      c in Compact(data) || c == '\\' || c == 'u' || '0' <= c <= '9' || 'a' <= c <= 'f'
    ensures line.Some? && (forall c :: c in Compact(data) ==> ' ' < c <= '~' || (c > '\U{7f}' && c in printable)) ==>
      line.value == Compact(data)
    ensures line.Some? ==>
      (Decode(line.value) == Decode(data) <==> forall c :: c in data && c as int > 0xFFFF ==> c in printable)
  {
    if Decode(data) == None {
      return None;
    }
    var escaped := EscapeRunes(Compact(data), printable);
    NoSpaceRemains(Compact(data), printable);
    OnlyEscapesAdded(Compact(data), printable);
    CompactHasNoHtml(data);
    ReencodingKeepsMeaning(data, printable);
    CleanLineKept(Compact(data), printable);
    return Some(escaped);
  }

  lemma OneCharacterString(c: char)
    requires c > '~'
    ensures Decode(['"', c, '"']) == Some(Text([c as int]))
  {
    var data := ['"', c, '"'];
    assert data[1..] == [c, '"'] && data[1..][1..] == ['"'] && ['"'][1..] == [];
    assert Unquote(['"']) == Some(Unquoted([], []));
    assert [c as int] + [] == [c as int];
    assert Unquote(data[1..]) == Some(Unquoted([c as int], []));
    var token := Str([c as int]);
    assert [token] + [] == [token];
    assert Lex(data) == Some([token]);
    assert [token][1..] == [];
  }

  /** A document whose meaning is lost: a string of one tag character, U+E0001, which is not printable. */
  lemma TagCharacterIsLost()
    ensures var data := ['"', '\U{E0001}', '"'];
      Decode(data) == Some(Text([0xE0001])) && Decode(Escape(Compact(data), {})) != Decode(data)
  {
    var c := '\U{E0001}';
    var data := ['"', c, '"'];
    OneCharacterString(c);
    assert c in data && c as int == 0xE0001;
    ReencodingKeepsMeaning(data, {});
  }
}
