/** What a JSON text means (sections 2 to 7 of RFC 8259): its tokens, and the value they form. */
module Json {
  import opened Base

  /** Strings are decoded to code points, since escapes can name ones that are no character. */
  datatype Token = Punct(mark: char) | Scalar(text: string) | Str(runes: seq<int>)

  datatype Value =
    | Atom(text: string)
    | Text(runes: seq<int>)
    | Array(items: seq<Value>)
    | Object(members: seq<Member>)

  datatype Member = Member(name: seq<int>, value: Value)

  const REPLACEMENT := 0xFFFD

  predicate IsSpace(c: char) {
    c == ' ' || c == '\t' || c == '\n' || c == '\r'
  }

  predicate IsPunct(c: char) {
    c in "{}[],:"
  }

  predicate IsDigit(c: char) {
    '0' <= c <= '9'
  }

  predicate IsScalarChar(c: char) {
    IsDigit(c) || 'a' <= c <= 'z' || 'A' <= c <= 'Z' || c in "+-."
  }

  predicate IsHex(c: char) {
    IsDigit(c) || 'a' <= c <= 'f' || 'A' <= c <= 'F'
  }

  function HexValue(c: char): (v: nat)
    requires IsHex(c)
    ensures v < 16
  {
    if IsDigit(c) then c as int - '0' as int
    else if c <= 'F' then c as int - 'A' as int + 10
    else c as int - 'a' as int + 10
  }

  /** The code unit of a \u escape at the start of the text. */
  function Escaped(s: string): (unit: Option<int>)
    ensures unit.Some? ==> |s| >= 6 && s[0] == '\\' && s[1] == 'u' && 0 <= unit.value <= 0xFFFF
  {
    if |s| >= 6 && s[0] == '\\' && s[1] == 'u' && IsHex(s[2]) && IsHex(s[3]) && IsHex(s[4]) && IsHex(s[5])
    then Some(HexValue(s[2]) * 0x1000 + HexValue(s[3]) * 0x100 + HexValue(s[4]) * 0x10 + HexValue(s[5]))
    else None
  }

  predicate IsHigh(unit: int) {
    0xD800 <= unit < 0xDC00
  }

  predicate IsLow(unit: Option<int>) {
    unit.Some? && 0xDC00 <= unit.value < 0xE000
  }

  function Combine(high: int, low: int): int {
    0x10000 + (high - 0xD800) * 0x400 + (low - 0xDC00)
  }

  const SIMPLE_ESCAPES := "\"\\/bfnrt"

  function SimpleEscape(c: char): int {
    match c
    case 'b' => 8
    case 'f' => 12
    case 'n' => 10
    case 'r' => 13
    case 't' => 9
    case _ => c as int
  }

  /** The code points of a string and the text after it. */
  datatype Unquoted = Unquoted(runes: seq<int>, rest: string)

  function Prepend(rune: int, tail: Option<Unquoted>): Option<Unquoted> {
    if tail.Some? then Some(Unquoted([rune] + tail.value.runes, tail.value.rest)) else None
  }

  /** Decodes a string from after its opening quote; a lone surrogate decodes to the replacement character. */
  function Unquote(s: string): (u: Option<Unquoted>)
    ensures u.Some? ==> |u.value.rest| < |s|
    decreases |s|
  {
    if s == [] then None
    else if s[0] == '"' then Some(Unquoted([], s[1..]))
    else if s[0] < ' ' then None
    else if s[0] != '\\' then Prepend(s[0] as int, Unquote(s[1..]))
    else if |s| < 2 then None
    else if s[1] == 'u' then
      var unit := Escaped(s);
      if unit == None then None
      else if IsHigh(unit.value) && IsLow(Escaped(s[6..])) then
        Prepend(Combine(unit.value, Escaped(s[6..]).value), Unquote(s[12..]))
      else if 0xD800 <= unit.value < 0xE000 then Prepend(REPLACEMENT, Unquote(s[6..]))
      else Prepend(unit.value, Unquote(s[6..]))
    else if s[1] in SIMPLE_ESCAPES then Prepend(SimpleEscape(s[1]), Unquote(s[2..]))
    else None
  }

  function ScalarRun(s: string): (run: string)
    ensures run <= s && forall c :: c in run ==> IsScalarChar(c)
    ensures |run| < |s| ==> !IsScalarChar(s[|run|])
  {
    if s == [] || !IsScalarChar(s[0]) then [] else [s[0]] + ScalarRun(s[1..])
  }

  function Cons(token: Token, tail: Option<seq<Token>>): Option<seq<Token>> {
    if tail.Some? then Some([token] + tail.value) else None
  }

  function Lex(s: string): Option<seq<Token>>
    decreases |s|
  {
    if s == [] then Some([])
    else if IsSpace(s[0]) then Lex(s[1..])
    else if IsPunct(s[0]) then Cons(Punct(s[0]), Lex(s[1..]))
    else if s[0] == '"' then
      var u := Unquote(s[1..]);
      if u == None then None else Cons(Str(u.value.runes), Lex(u.value.rest))
    else if IsScalarChar(s[0]) then
      var run := ScalarRun(s);
      Cons(Scalar(run), Lex(s[|run|..]))
    else None
  }

  // The grammar over tokens.

  predicate IsDigits(s: string) {
    s != [] && forall i :: 0 <= i < |s| ==> IsDigit(s[i])
  }

  predicate IsExponent(s: string) {
    s == [] || (s[0] in "eE" && |s| > 1 && IsDigits(if s[1] in "+-" then s[2..] else s[1..]))
  }

  predicate IsFractionAndExponent(s: string) {
    if s != [] && s[0] == '.' then exists k :: 1 < k <= |s| && IsDigits(s[1..k]) && IsExponent(s[k..])
    else IsExponent(s)
  }

  predicate IsNumber(s: string) {
    var unsigned := if s != [] && s[0] == '-' then s[1..] else s;
    exists k :: 0 < k <= |unsigned| && IsDigits(unsigned[..k]) && (k > 1 ==> unsigned[0] != '0') &&
      IsFractionAndExponent(unsigned[k..])
  }

  predicate IsLiteral(s: string) {
    s == "true" || s == "false" || s == "null" || IsNumber(s)
  }

  datatype Parsed<T> = Parsed(result: T, rest: seq<Token>)

  function ParseValue(tokens: seq<Token>): (p: Option<Parsed<Value>>)
    ensures p.Some? ==> |p.value.rest| < |tokens|
    decreases |tokens|, 1
  {
    if tokens == [] then None
    else
      var rest := tokens[1..];
      match tokens[0]
      case Scalar(text) => if IsLiteral(text) then Some(Parsed(Atom(text), rest)) else None
      case Str(runes) => Some(Parsed(Text(runes), rest))
      case Punct('[') =>
        if rest != [] && rest[0] == Punct(']') then Some(Parsed(Array([]), rest[1..]))
        else
          var p := ParseItems(rest);
          if p == None then None else Some(Parsed(Array(p.value.result), p.value.rest))
      case Punct('{') =>
        if rest != [] && rest[0] == Punct('}') then Some(Parsed(Object([]), rest[1..]))
        else
          var p := ParseMembers(rest);
          if p == None then None else Some(Parsed(Object(p.value.result), p.value.rest))
      case _ => None
  }

  /** One or more values up to and including the closing bracket. */
  function ParseItems(tokens: seq<Token>): (p: Option<Parsed<seq<Value>>>)
    ensures p.Some? ==> |p.value.rest| < |tokens|
    decreases |tokens|, 2
  {
    var first := ParseValue(tokens);
    if first == None || first.value.rest == [] then None
    else
      var item, rest := first.value.result, first.value.rest;
      if rest[0] == Punct(']') then Some(Parsed([item], rest[1..]))
      else if rest[0] == Punct(',') then
        var p := ParseItems(rest[1..]);
        if p == None then None else Some(Parsed([item] + p.value.result, p.value.rest))
      else None
  }

  function ParseMembers(tokens: seq<Token>): (p: Option<Parsed<seq<Member>>>)
    ensures p.Some? ==> |p.value.rest| < |tokens|
    decreases |tokens|, 2
  {
    if |tokens| < 3 || !tokens[0].Str? || tokens[1] != Punct(':') then None
    else
      var first := ParseValue(tokens[2..]);
      if first == None || first.value.rest == [] then None
      else
        var member, rest := Member(tokens[0].runes, first.value.result), first.value.rest;
        if rest[0] == Punct('}') then Some(Parsed([member], rest[1..]))
        else if rest[0] == Punct(',') then
          var p := ParseMembers(rest[1..]);
          if p == None then None else Some(Parsed([member] + p.value.result, p.value.rest))
        else None
  }

  /** The value of a text, if it is a JSON document. */
  function Decode(s: string): Option<Value> {
    var tokens := Lex(s);
    if tokens == None then None
    else
      var p := ParseValue(tokens.value);
      if p.Some? && p.value.rest == [] then Some(p.value.result) else None
  }

  // A value determines its tokens.

  function Tokens(v: Value): seq<Token>
    decreases v, 0
  {
    match v
    case Atom(text) => [Scalar(text)]
    case Text(runes) => [Str(runes)]
    case Array(items) => [Punct('[')] + ItemTokens(items) + [Punct(']')]
    case Object(members) => [Punct('{')] + MemberTokens(members) + [Punct('}')]
  }

  function ItemTokens(items: seq<Value>): seq<Token>
    decreases items, 1
  {
    if items == [] then []
    else if |items| == 1 then Tokens(items[0])
    else Tokens(items[0]) + [Punct(',')] + ItemTokens(items[1..])
  }

  function MemberTokens(members: seq<Member>): seq<Token>
    decreases members, 1
  {
    if members == [] then []
    else
      var first := MemberStart(members[0]);
      if |members| == 1 then first else first + [Punct(',')] + MemberTokens(members[1..])
  }

  function MemberStart(member: Member): seq<Token>
    decreases member, 1
  {
    [Str(member.name), Punct(':')] + Tokens(member.value)
  }

  lemma Bracketed(open: Token, inner: seq<Token>, close: Token, rest: seq<Token>)
    ensures [open] + (inner + [close] + rest) == ([open] + inner + [close]) + rest
  {
  }

  lemma {:induction false} ParsedArrayTokens(tokens: seq<Token>)
    requires tokens != [] && tokens[0] == Punct('[') && ParseValue(tokens).Some?
    ensures tokens == Tokens(ParseValue(tokens).value.result) + ParseValue(tokens).value.rest
    decreases |tokens|, 0
  {
    var rest, p := tokens[1..], ParseValue(tokens).value;
    if rest[0] == Punct(']') {
      assert tokens == [tokens[0]] + ([] + [rest[0]] + rest[1..]);
    } else {
      ParsedItemTokens(rest);
      assert tokens == [tokens[0]] + rest;
    }
    Bracketed(Punct('['), ItemTokens(p.result.items), Punct(']'), p.rest);
  }

  lemma {:induction false} ParsedObjectTokens(tokens: seq<Token>)
    requires tokens != [] && tokens[0] == Punct('{') && ParseValue(tokens).Some?
    ensures tokens == Tokens(ParseValue(tokens).value.result) + ParseValue(tokens).value.rest
    decreases |tokens|, 0
  {
    var rest, p := tokens[1..], ParseValue(tokens).value;
    if rest[0] == Punct('}') {
      assert tokens == [tokens[0]] + ([] + [rest[0]] + rest[1..]);
    } else {
      ParsedMemberTokens(rest);
      assert tokens == [tokens[0]] + rest;
    }
    Bracketed(Punct('{'), MemberTokens(p.result.members), Punct('}'), p.rest);
  }

  lemma {:induction false} ParsedValueTokens(tokens: seq<Token>)
    ensures var p := ParseValue(tokens); p.Some? ==> tokens == Tokens(p.value.result) + p.value.rest
    decreases |tokens|, 1
  {
    if tokens != [] && ParseValue(tokens).Some? {
      if tokens[0] == Punct('[') {
        ParsedArrayTokens(tokens);
      } else if tokens[0] == Punct('{') {
        ParsedObjectTokens(tokens);
      } else {
        assert tokens == [tokens[0]] + tokens[1..];
      }
    }
  }

  lemma Regroup(first: seq<Token>, mark: Token, more: seq<Token>, close: Token, rest: seq<Token>)
    ensures first + ([mark] + (more + [close] + rest)) == (first + [mark] + more) + [close] + rest
  {
  }

  lemma ConsItemTokens(item: Value, items: seq<Value>)
    requires items != []
    ensures ItemTokens([item] + items) == Tokens(item) + [Punct(',')] + ItemTokens(items)
  {
    assert ([item] + items)[1..] == items;
  }

  lemma {:induction false} ParsedItemTokens(tokens: seq<Token>)
    ensures var p := ParseItems(tokens);
      p.Some? ==> p.value.result != [] && tokens == ItemTokens(p.value.result) + [Punct(']')] + p.value.rest
    decreases |tokens|, 2
  {
    if ParseItems(tokens).Some? {
      ParsedValueTokens(tokens);
      var item, rest := ParseValue(tokens).value.result, ParseValue(tokens).value.rest;
      assert rest == [rest[0]] + rest[1..];
      if rest[0] == Punct(',') {
        ParsedItemTokens(rest[1..]);
        var more := ParseItems(rest[1..]).value;
        ConsItemTokens(item, more.result);
        Regroup(Tokens(item), Punct(','), ItemTokens(more.result), Punct(']'), more.rest);
      } else {
        assert ItemTokens([item]) == Tokens(item);
        assert Tokens(item) + ([Punct(']')] + rest[1..]) == Tokens(item) + [Punct(']')] + rest[1..];
      }
    }
  }

  lemma StartOfMember(tokens: seq<Token>, value: Value, rest: seq<Token>)
    requires |tokens| >= 3 && tokens[0].Str? && tokens[1] == Punct(':') && tokens[2..] == Tokens(value) + rest
    ensures tokens == MemberStart(Member(tokens[0].runes, value)) + rest
  {
    assert tokens == [tokens[0], tokens[1]] + tokens[2..];
  }

  lemma ConsMemberTokens(member: Member, members: seq<Member>)
    requires members != []
    ensures MemberTokens([member] + members) == MemberStart(member) + [Punct(',')] + MemberTokens(members)
  {
    assert ([member] + members)[1..] == members;
  }

  lemma {:induction false} ParsedMemberTokens(tokens: seq<Token>)
    ensures var p := ParseMembers(tokens);
      p.Some? ==> p.value.result != [] && tokens == MemberTokens(p.value.result) + [Punct('}')] + p.value.rest
    decreases |tokens|, 2
  {
    if ParseMembers(tokens).Some? {
      ParsedValueTokens(tokens[2..]);
      var value, rest := ParseValue(tokens[2..]).value.result, ParseValue(tokens[2..]).value.rest;
      var member := Member(tokens[0].runes, value);
      StartOfMember(tokens, value, rest);
      assert rest == [rest[0]] + rest[1..];
      if rest[0] == Punct(',') {
        ParsedMemberTokens(rest[1..]);
        var more := ParseMembers(rest[1..]).value;
        ConsMemberTokens(member, more.result);
        Regroup(MemberStart(member), Punct(','), MemberTokens(more.result), Punct('}'), more.rest);
      } else {
        assert MemberTokens([member]) == MemberStart(member);
        assert MemberStart(member) + ([Punct('}')] + rest[1..]) == MemberStart(member) + [Punct('}')] + rest[1..];
      }
    }
  }

  /** Texts with the same value have the same tokens. */
  lemma DecodeIsInjectiveOnTokens(s: string)
    requires Decode(s).Some?
    ensures Lex(s) == Some(Tokens(Decode(s).value))
  {
    ParsedValueTokens(Lex(s).value);
    assert Tokens(Decode(s).value) + [] == Tokens(Decode(s).value);
  }

  /** No two scalars stand side by side, so the space between tokens is never needed. */
  ghost predicate Separated(tokens: seq<Token>) {
    forall i, j :: 0 <= i && j == i + 1 < |tokens| ==> !(tokens[i].Scalar? && tokens[j].Scalar?)
  }

  lemma SeparatedConcat(a: seq<Token>, mark: char, b: seq<Token>)
    requires Separated(a) && Separated(b)
    ensures Separated(a + [Punct(mark)] + b)
  {
  }

  lemma {:induction false} ValueIsSeparated(v: Value)
    ensures Separated(Tokens(v))
    decreases v, 0
  {
    match v
    case Array(items) =>
      ItemsAreSeparated(items);
      SeparatedConcat([], '[', ItemTokens(items));
      SeparatedConcat([Punct('[')] + ItemTokens(items), ']', []);
      assert [] + [Punct('[')] + ItemTokens(items) == [Punct('[')] + ItemTokens(items);
      assert Tokens(v) == ([Punct('[')] + ItemTokens(items)) + [Punct(']')] + [];
    case Object(members) =>
      MembersAreSeparated(members);
      SeparatedConcat([], '{', MemberTokens(members));
      SeparatedConcat([Punct('{')] + MemberTokens(members), '}', []);
      assert [] + [Punct('{')] + MemberTokens(members) == [Punct('{')] + MemberTokens(members);
      assert Tokens(v) == ([Punct('{')] + MemberTokens(members)) + [Punct('}')] + [];
    case _ =>
  }

  lemma {:induction false} ItemsAreSeparated(items: seq<Value>)
    ensures Separated(ItemTokens(items))
    decreases items, 1
  {
    if items != [] {
      ValueIsSeparated(items[0]);
      ItemsAreSeparated(items[1..]);
      SeparatedConcat(Tokens(items[0]), ',', ItemTokens(items[1..]));
    }
  }

  lemma {:induction false} MembersAreSeparated(members: seq<Member>)
    ensures Separated(MemberTokens(members))
    decreases members, 1
  {
    if members != [] {
      ValueIsSeparated(members[0].value);
      MembersAreSeparated(members[1..]);
      SeparatedConcat([Str(members[0].name)], ':', Tokens(members[0].value));
      var first := [Str(members[0].name)] + [Punct(':')] + Tokens(members[0].value);
      assert first == [Str(members[0].name), Punct(':')] + Tokens(members[0].value);
      SeparatedConcat(first, ',', MemberTokens(members[1..]));
    }
  }
}
