/** Canonical JSON over text: the printer, a lenient parser, and their agreement. */
module CanonicalJson {
  import opened Utf8
  import opened TextOrder

  const MAX_JSON_DEPTH := 16
  const MAX_CONTAINER_ITEMS := 10_000
  const MAX_STRING_BYTES := 262_144
  const MAX_KEY_BYTES := 256
  const MAX_INTEGER := 9_223_372_036_854_775_807

  /** A JSON value without floating-point numbers; the members of an object stand in the order in
      which they were inserted. */
  datatype Value =
    | Null
    | Bool(b: bool)
    | Int(n: int)
    | Str(s: string)
    | Arr(items: seq<Value>)
    | Obj(members: seq<Member>)

  datatype Member = Member(key: string, value: Value)

  // ----- what may be sent -----

  predicate DistinctKeys(members: seq<Member>) {
    forall i, j | 0 <= i < j < |members| :: members[i].key != members[j].key
  }

  /** `_validate_json_value`, together with the rule that an object has each key once. */
  predicate Admissible(v: Value, depth: nat)
    decreases v
  {
    depth <= MAX_JSON_DEPTH &&
    match v
    case Null => true
    case Bool(_) => true
    case Int(n) => -MAX_INTEGER <= n <= MAX_INTEGER
    case Str(s) => |Encode(s)| <= MAX_STRING_BYTES
    case Arr(items) =>
      |items| <= MAX_CONTAINER_ITEMS && forall i | 0 <= i < |items| :: Admissible(items[i], depth + 1)
    case Obj(members) =>
      && |members| <= MAX_CONTAINER_ITEMS
      && DistinctKeys(members)
      && forall i | 0 <= i < |members| ::
           |Encode(members[i].key)| <= MAX_KEY_BYTES && Admissible(members[i].value, depth + 1)
  }

  // ----- sorting the members -----

  function Inserted(m: Member, sorted: seq<Member>): seq<Member> {
    if sorted == [] || Precedes(m.key, sorted[0].key) then [m] + sorted
    else [sorted[0]] + Inserted(m, sorted[1..])
  }

  function SortedMembers(members: seq<Member>): seq<Member> {
    if members == [] then [] else Inserted(members[0], SortedMembers(members[1..]))
  }

  /** The value with the members of every object in key order; two values are the same JSON value
      exactly when their normal forms are equal. */
  function Normal(v: Value): Value
    decreases v
  {
    match v
    case Arr(items) => Arr(NormalItems(v, items))
    case Obj(members) => Obj(SortedMembers(NormalMembers(v, members)))
    case _ => v
  }

  function NormalItems(v: Value, items: seq<Value>): (normal: seq<Value>)
    requires forall i | 0 <= i < |items| :: items[i] < v
    ensures |normal| == |items| && forall i | 0 <= i < |items| :: normal[i] == Normal(items[i])
    decreases v, 0, |items|
  {
    if items == [] then [] else [Normal(items[0])] + NormalItems(v, items[1..])
  }

  function NormalMembers(v: Value, members: seq<Member>): (normal: seq<Member>)
    requires forall i | 0 <= i < |members| :: members[i].value < v
    ensures |normal| == |members|
    ensures forall i | 0 <= i < |members| :: normal[i] == Member(members[i].key, Normal(members[i].value))
    decreases v, 0, |members|
  {
    if members == [] then []
    else [Member(members[0].key, Normal(members[0].value))] + NormalMembers(v, members[1..])
  }

  // ----- the printer -----

  function DigitChar(d: nat): char
    requires d < 10
  {
    ('0' as int + d) as char
  }

  function NatText(n: nat): string {
    if n < 10 then [DigitChar(n)] else NatText(n / 10) + [DigitChar(n % 10)]
  }

  function HexChar(d: nat): char
    requires d < 16
  {
    if d < 10 then ('0' as int + d) as char else ('a' as int + d - 10) as char
  }

  function Escaped(c: char): string {
    if c == '\"' then "\\\""
    else if c == '\\' then "\\\\"
    else if c == '\n' then "\\n"
    else if c == '\r' then "\\r"
    else if c == '\t' then "\\t"
    else if c as int == 8 then "\\b"
    else if c as int == 12 then "\\f"
    else if (c as int) < 32 then "\\u00" + [HexChar(c as int / 16), HexChar(c as int % 16)]
    else [c]
  }

  function EscapedText(s: string): string {
    if s == "" then "" else Escaped(s[0]) + EscapedText(s[1..])
  }

  function Quoted(s: string): string {
    "\"" + EscapedText(s) + "\""
  }

  /** The compact form of a value, members in their given order, non-ASCII characters as they are. */
  function Printed(v: Value): string
    decreases v, 1
  {
    match v
    case Null => "null"
    case Bool(b) => if b then "true" else "false"
    case Int(n) => if n < 0 then "-" + NatText(-n) else NatText(n)
    case Str(s) => Quoted(s)
    case Arr(items) => "[" + (if items == [] then "]" else Printed(items[0]) + ItemsTail(v, items[1..]))
    case Obj(members) =>
      "{" + (if members == [] then "}" else PrintedMember(v, members[0]) + MembersTail(v, members[1..]))
  }

  function ItemsTail(v: Value, items: seq<Value>): string
    requires forall i | 0 <= i < |items| :: items[i] < v
    decreases v, 0, |items|
  {
    if items == [] then "]" else "," + Printed(items[0]) + ItemsTail(v, items[1..])
  }

  function PrintedMember(v: Value, m: Member): string
    requires m.value < v
    decreases v, 0, 0
  {
    Quoted(m.key) + ":" + Printed(m.value)
  }

  function MembersTail(v: Value, members: seq<Member>): string
    requires forall i | 0 <= i < |members| :: members[i].value < v
    decreases v, 0, |members| + 1
  {
    if members == [] then "}" else "," + PrintedMember(v, members[0]) + MembersTail(v, members[1..])
  }

  /** `canonical_json_bytes`. */
  function CanonicalBytes(v: Value): Option<seq<byte>> {
    if Admissible(v, 0) then Some(Encode(Printed(Normal(v)))) else None
  }

  // ----- the parser -----

  datatype Parse<+T> = Ok(value: T, rest: string) | Bad

  predicate Space(c: char) {
    c == ' ' || c == '\t' || c == '\n' || c == '\r'
  }

  function SkipSpace(s: string): (rest: string)
    ensures |rest| <= |s|
  {
    if s != "" && Space(s[0]) then SkipSpace(s[1..]) else s
  }

  predicate IsDigit(c: char) { '0' <= c <= '9' }

  function HexValue(c: char): Option<nat> {
    if IsDigit(c) then Some(c as int - '0' as int)
    else if 'a' <= c <= 'f' then Some(c as int - 'a' as int + 10)
    else if 'A' <= c <= 'F' then Some(c as int - 'A' as int + 10)
    else None
  }

  /** The number written by the four hexadecimal digits at the start. */
  function FourHex(s: string): Option<nat> {
    if |s| < 4 || HexValue(s[0]).None? || HexValue(s[1]).None? || HexValue(s[2]).None? || HexValue(s[3]).None? then None
    else
      Some(HexValue(s[0]).value * 0x1000 + HexValue(s[1]).value * 0x100 + HexValue(s[2]).value * 0x10
           + HexValue(s[3]).value)
  }

  /** An escape, from the character behind the backslash on.  A surrogate that is not half of a
      pair is refused. */
  function ParseEscape(s: string): (r: Parse<char>)
    ensures r.Ok? ==> |r.rest| < |s|
  {
    if s == "" then Bad
    else if s[0] == '\"' || s[0] == '\\' || s[0] == '/' then Ok(s[0], s[1..])
    else if s[0] == 'b' then Ok(8 as char, s[1..])
    else if s[0] == 'f' then Ok(12 as char, s[1..])
    else if s[0] == 'n' then Ok('\n', s[1..])
    else if s[0] == 'r' then Ok('\r', s[1..])
    else if s[0] == 't' then Ok('\t', s[1..])
    else if s[0] == 'u' && FourHex(s[1..]).Some? then
      var unit := FourHex(s[1..]).value;
      if unit < 0xD800 || 0xE000 <= unit < 0x1_0000 then Ok(unit as char, s[5..])
      else if unit < 0xDC00 && |s| >= 7 && s[5] == '\\' && s[6] == 'u' && FourHex(s[7..]).Some?
              && 0xDC00 <= FourHex(s[7..]).value < 0xE000
      then
        Ok((0x1_0000 + (unit - 0xD800) * 0x400 + (FourHex(s[7..]).value - 0xDC00)) as char, s[11..])
      else Bad
    else Bad
  }

  /** The text of a string, from behind its opening quote. */
  function ParseChars(s: string): (r: Parse<string>)
    ensures r.Ok? ==> |r.rest| < |s|
    decreases |s|
  {
    if s == "" then Bad
    else if s[0] == '\"' then Ok("", s[1..])
    else if s[0] == '\\' then
      match ParseEscape(s[1..])
      case Bad => Bad
      case Ok(c, rest) =>
        (match ParseChars(rest)
         case Bad => Bad
         case Ok(text, end) => Ok([c] + text, end))
    else if (s[0] as int) < 32 then Bad
    else
      match ParseChars(s[1..])
      case Bad => Bad
      case Ok(text, end) => Ok([s[0]] + text, end)
  }

  /** The leading digits. */
  function Digits(s: string): string {
    if s != "" && IsDigit(s[0]) then [s[0]] + Digits(s[1..]) else ""
  }

  lemma {:induction false} DigitsArePrefix(s: string)
    ensures Digits(s) <= s
  {
    if s != "" && IsDigit(s[0]) {
      DigitsArePrefix(s[1..]);
    }
  }

  function DigitsValue(s: string): nat
    requires forall i | 0 <= i < |s| :: IsDigit(s[i])
  {
    if s == "" then 0
    else
      assert IsDigit(s[|s| - 1]);
      DigitsValue(s[..|s| - 1]) * 10 + (s[|s| - 1] as int - '0' as int)
  }

  /** A fraction or an exponent follows, so that the number is a floating-point one. */
  predicate FloatFollows(s: string) {
    || (|s| >= 2 && s[0] == '.' && IsDigit(s[1]))
    || (|s| >= 2 && (s[0] == 'e' || s[0] == 'E')
        && (IsDigit(s[1]) || (|s| >= 3 && (s[1] == '+' || s[1] == '-') && IsDigit(s[2]))))
  }

  function ParseNatural(s: string): (r: Parse<nat>)
    ensures r.Ok? ==> |r.rest| < |s|
  {
    DigitsArePrefix(s);
    DigitsAreDigits(s);
    var digits := if s != "" && s[0] == '0' then "0" else Digits(s);
    if digits == "" || FloatFollows(s[|digits|..]) then Bad else Ok(DigitsValue(digits), s[|digits|..])
  }

  lemma {:induction false} DigitsAreDigits(s: string)
    ensures forall i | 0 <= i < |Digits(s)| :: IsDigit(Digits(s)[i])
  {
    if s != "" && IsDigit(s[0]) {
      DigitsAreDigits(s[1..]);
    }
  }

  /** A value at the start of the text; objects that name a key twice are refused. */
  function ParseValue(s: string): (r: Parse<Value>)
    ensures r.Ok? ==> |r.rest| < |s|
    decreases |s|, 0
  {
    if s == "" then Bad
    else if s[0] == '\"' then
      match ParseChars(s[1..])
      case Bad => Bad
      case Ok(text, rest) => Ok(Str(text), rest)
    else if s[0] == '{' then
      var inner := SkipSpace(s[1..]);
      if inner != "" && inner[0] == '}' then Ok(Obj([]), inner[1..])
      else
        match ParseMembers(inner)
        case Bad => Bad
        case Ok(members, rest) => if DistinctKeys(members) then Ok(Obj(members), rest) else Bad
    else if s[0] == '[' then
      var inner := SkipSpace(s[1..]);
      if inner != "" && inner[0] == ']' then Ok(Arr([]), inner[1..])
      else
        match ParseItems(inner)
        case Bad => Bad
        case Ok(items, rest) => Ok(Arr(items), rest)
    else if "null" <= s then Ok(Null, s[4..])
    else if "true" <= s then Ok(Bool(true), s[4..])
    else if "false" <= s then Ok(Bool(false), s[5..])
    else if s[0] == '-' then
      match ParseNatural(s[1..])
      case Bad => Bad
      case Ok(n, rest) => var magnitude: int := n; Ok(Int(-magnitude), rest)
    else
      match ParseNatural(s)
      case Bad => Bad
      case Ok(n, rest) => Ok(Int(n), rest)
  }

  function ParseItems(s: string): (r: Parse<seq<Value>>)
    ensures r.Ok? ==> |r.rest| < |s|
    decreases |s|, 1
  {
    match ParseValue(s)
    case Bad => Bad
    case Ok(v, rest) =>
      var tail := SkipSpace(rest);
      if tail == "" then Bad
      else if tail[0] == ']' then Ok([v], tail[1..])
      else if tail[0] == ',' then
        match ParseItems(SkipSpace(tail[1..]))
        case Bad => Bad
        case Ok(items, end) => Ok([v] + items, end)
      else Bad
  }

  function ParseMembers(s: string): (r: Parse<seq<Member>>)
    ensures r.Ok? ==> |r.rest| < |s|
    decreases |s|, 1
  {
    if s == "" || s[0] != '\"' then Bad
    else
      match ParseChars(s[1..])
      case Bad => Bad
      case Ok(key, afterKey) =>
        var colon := SkipSpace(afterKey);
        if colon == "" || colon[0] != ':' then Bad
        else
          match ParseValue(SkipSpace(colon[1..]))
          case Bad => Bad
          case Ok(v, rest) =>
            var tail := SkipSpace(rest);
            if tail == "" then Bad
            else if tail[0] == '}' then Ok([Member(key, v)], tail[1..])
            else if tail[0] == ',' then
              match ParseMembers(SkipSpace(tail[1..]))
              case Bad => Bad
              case Ok(members, end) => Ok([Member(key, v)] + members, end)
            else Bad
  }

  /** `json.loads` on float-free text. */
  function Loads(text: string): Option<Value> {
    match ParseValue(SkipSpace(text))
    case Bad => None
    case Ok(v, rest) => if SkipSpace(rest) == "" then Some(v) else None
  }

  /** `decode_canonical_json`. */
  function DecodeCanonical(payload: seq<byte>): Option<Value> {
    match Decode(payload)
    case None => None
    case Some(text) =>
      match Loads(text)
      case None => None
      case Some(v) => if CanonicalBytes(v) == Some(payload) then Some(v) else None
  }

  // ----- the parser reads back what the printer wrote -----

  lemma EscapeRoundTrip(c: char, rest: string)
    requires Escaped(c) != [c]
    ensures Escaped(c)[0] == '\\' && ParseEscape(Escaped(c)[1..] + rest) == Ok(c, rest)
  {
    var s := Escaped(c)[1..] + rest;
    if s[0] == 'u' {
      var n := c as int;
      assert s[1..][0] == '0' && s[1..][1] == '0' && s[1..][2] == HexChar(n / 16) && s[1..][3] == HexChar(n % 16);
      assert FourHex(s[1..]) == Some(n);
      assert s[5..] == rest;
    } else {
      assert s[1..] == rest;
    }
  }

  lemma CharsStep(c: char, later: string)
    ensures ParseChars(Escaped(c) + later) ==
              match ParseChars(later)
              case Bad => Bad
              case Ok(text, end) => Ok([c] + text, end)
  {
    var text := Escaped(c) + later;
    if Escaped(c) == [c] {
      assert text[0] == c && text[1..] == later;
      hide ParseEscape;
    } else {
      EscapeRoundTrip(c, later);
      hide ParseEscape, Escaped;
      assert text[0] == '\\' && text[1..] == Escaped(c)[1..] + later;
    }
  }

  lemma QuoteEnds(rest: string)
    ensures ParseChars("\"" + rest) == Ok("", rest)
  {
    hide ParseEscape;
    assert ("\"" + rest)[1..] == rest;
  }

  lemma {:induction false} CharsRoundTrip(s: string, rest: string)
    ensures ParseChars(EscapedText(s) + "\"" + rest) == Ok(s, rest)
  {
    hide ParseChars, Escaped;
    if s == "" {
      QuoteEnds(rest);
      assert EscapedText(s) + "\"" + rest == "\"" + rest;
    } else {
      var later := EscapedText(s[1..]) + "\"" + rest;
      CharsRoundTrip(s[1..], rest);
      CharsStep(s[0], later);
      assert EscapedText(s) + "\"" + rest == Escaped(s[0]) + later;
      assert s == [s[0]] + s[1..];
    }
  }

  /** The text after a value: its end, or one of the marks that follow values. */
  predicate Follows(rest: string) {
    rest == "" || rest[0] == ',' || rest[0] == ']' || rest[0] == '}'
  }

  lemma {:induction false} NatTextIsDigits(n: nat)
    ensures |NatText(n)| > 0 && forall i | 0 <= i < |NatText(n)| :: IsDigit(NatText(n)[i])
    ensures NatText(n)[0] == '0' <==> n == 0
    ensures n == 0 ==> NatText(n) == "0"
    ensures DigitsValue(NatText(n)) == n
  {
    if n >= 10 {
      NatTextIsDigits(n / 10);
      assert NatText(n)[..|NatText(n)| - 1] == NatText(n / 10);
    } else {
      assert NatText(n)[..0] == "";
    }
  }

  lemma {:induction false} DigitsOf(s: string, rest: string)
    requires forall i | 0 <= i < |s| :: IsDigit(s[i])
    requires rest == "" || !IsDigit(rest[0])
    ensures Digits(s + rest) == s
  {
    if s == "" {
      assert s + rest == rest;
    } else {
      assert (s + rest)[1..] == s[1..] + rest;
      DigitsOf(s[1..], rest);
      assert s == [s[0]] + s[1..];
    }
  }

  lemma NaturalRoundTrip(n: nat, rest: string)
    requires Follows(rest)
    ensures ParseNatural(NatText(n) + rest) == Ok(n, rest)
  {
    NatTextIsDigits(n);
    DigitsOf(NatText(n), rest);
    assert (NatText(n) + rest)[|NatText(n)|..] == rest;
    assert (NatText(n) + rest)[0] == NatText(n)[0];
  }

  lemma NumberStart(s: string)
    requires s != "" && (s[0] == '-' || IsDigit(s[0]))
    ensures ParseValue(s) ==
              if s[0] == '-' then
                match ParseNatural(s[1..])
                case Bad => Bad
                case Ok(n, rest) => var magnitude: int := n; Ok(Int(-magnitude), rest)
              else
                match ParseNatural(s)
                case Bad => Bad
                case Ok(n, rest) => Ok(Int(n), rest)
  {
    hide ParseNatural, ParseChars, ParseMembers, ParseItems, SkipSpace;
    assert "null"[0] == 'n' && "true"[0] == 't' && "false"[0] == 'f';
  }

  lemma IntRoundTrip(n: int, rest: string)
    requires Follows(rest)
    ensures ParseValue(Printed(Int(n)) + rest) == Ok(Int(n), rest)
  {
    hide ParseValue, ParseNatural, NatText;
    var text := Printed(Int(n)) + rest;
    var magnitude := if n < 0 then -n else n;
    NaturalRoundTrip(magnitude, rest);
    NatTextIsDigits(magnitude);
    assert IsDigit(NatText(magnitude)[0]);
    if n < 0 {
      assert text[1..] == NatText(magnitude) + rest && text[0] == '-';
    } else {
      assert text[0] == NatText(magnitude)[0];
    }
    NumberStart(text);
  }

  lemma ArrayStart(inner: string)
    requires inner != "" && !Space(inner[0]) && inner[0] != ']'
    ensures ParseValue("[" + inner) ==
              match ParseItems(inner)
              case Bad => Bad
              case Ok(items, rest) => Ok(Arr(items), rest)
  {
    hide ParseNatural, ParseChars, ParseMembers, ParseItems;
    assert ("[" + inner)[1..] == inner && SkipSpace(inner) == inner;
  }

  lemma ObjectStart(inner: string)
    requires inner != "" && !Space(inner[0]) && inner[0] != '}'
    ensures ParseValue("{" + inner) ==
              match ParseMembers(inner)
              case Bad => Bad
              case Ok(members, rest) => if DistinctKeys(members) then Ok(Obj(members), rest) else Bad
  {
    hide ParseNatural, ParseChars, ParseMembers, ParseItems, DistinctKeys;
    assert ("{" + inner)[1..] == inner && SkipSpace(inner) == inner;
  }

  lemma EmptyContainers(rest: string)
    ensures ParseValue("[]" + rest) == Ok(Arr([]), rest)
    ensures ParseValue("{}" + rest) == Ok(Obj([]), rest)
  {
    hide ParseNatural, ParseChars, ParseMembers, ParseItems;
    assert ("[]" + rest)[1..] == "]" + rest && ("]" + rest)[1..] == rest;
    assert ("{}" + rest)[1..] == "}" + rest && ("}" + rest)[1..] == rest;
  }

  lemma Words(rest: string)
    ensures ParseValue("null" + rest) == Ok(Null, rest)
    ensures ParseValue("true" + rest) == Ok(Bool(true), rest)
    ensures ParseValue("false" + rest) == Ok(Bool(false), rest)
  {
    hide ParseNatural, ParseChars, ParseMembers, ParseItems, SkipSpace;
    assert ("null" + rest)[4..] == rest && ("true" + rest)[4..] == rest && ("false" + rest)[5..] == rest;
    assert ("null" + rest)[0] == 'n' && ("true" + rest)[0] == 't' && ("false" + rest)[0] == 'f';
  }

  lemma TextStart(s: string)
    requires s != "" && s[0] == '\"'
    ensures ParseValue(s) ==
              match ParseChars(s[1..])
              case Bad => Bad
              case Ok(text, rest) => Ok(Str(text), rest)
  {
    hide ParseNatural, ParseChars, ParseMembers, ParseItems, SkipSpace;
  }

  /** One element of an array, when nothing but commas and brackets separates the elements. */
  lemma ItemStep(s: string, v: Value, tail: string)
    requires ParseValue(s) == Ok(v, tail) && tail != ""
    ensures tail[0] == ']' ==> ParseItems(s) == Ok([v], tail[1..])
    ensures tail[0] == ',' && |tail| > 1 && !Space(tail[1]) ==>
              ParseItems(s) ==
                match ParseItems(tail[1..])
                case Bad => Bad
                case Ok(items, end) => Ok([v] + items, end)
  {
    hide ParseValue, ParseMembers;
    assert !Space(tail[0]) ==> SkipSpace(tail) == tail;
    assert |tail| > 1 && !Space(tail[1]) ==> SkipSpace(tail[1..]) == tail[1..];
  }

  lemma MemberStep(s: string, key: string, text: string, v: Value, tail: string)
    requires s != "" && s[0] == '\"' && ParseChars(s[1..]) == Ok(key, ":" + text)
    requires text != "" && !Space(text[0]) && ParseValue(text) == Ok(v, tail) && tail != ""
    ensures tail[0] == '}' ==> ParseMembers(s) == Ok([Member(key, v)], tail[1..])
    ensures tail[0] == ',' && |tail| > 1 && !Space(tail[1]) ==>
              ParseMembers(s) ==
                match ParseMembers(tail[1..])
                case Bad => Bad
                case Ok(members, end) => Ok([Member(key, v)] + members, end)
  {
    hide ParseValue, ParseChars, ParseItems;
    assert SkipSpace(":" + text) == ":" + text && (":" + text)[1..] == text && SkipSpace(text) == text;
    assert !Space(tail[0]) ==> SkipSpace(tail) == tail;
    assert |tail| > 1 && !Space(tail[1]) ==> SkipSpace(tail[1..]) == tail[1..];
  }

  /** No printed value begins with a space. */
  lemma PrintedStart(v: Value)
    ensures |Printed(v)| > 0 && !Space(Printed(v)[0]) && Printed(v)[0] != ']' && Printed(v)[0] != '}'
  {
    if v.Int? {
      NatTextIsDigits(if v.n < 0 then -v.n else v.n);
      assert IsDigit(NatText(if v.n < 0 then -v.n else v.n)[0]);
    }
  }

  lemma StrRoundTrip(s: string, rest: string)
    ensures ParseValue(Quoted(s) + rest) == Ok(Str(s), rest)
  {
    hide ParseValue, ParseChars, EscapedText;
    CharsRoundTrip(s, rest);
    var text := Quoted(s) + rest;
    assert text[1..] == EscapedText(s) + "\"" + rest;
    TextStart(text);
  }

  /** The parser reads back a printed value and stops behind it. */
  lemma {:induction false} ValueRoundTrip(v: Value, depth: nat, rest: string)
    requires Admissible(v, depth) && Follows(rest)
    ensures ParseValue(Printed(v) + rest) == Ok(v, rest)
    decreases v, 1
  {
    hide ParseValue, ParseItems, ParseMembers, NatText, Quoted, Follows, SkipSpace, DistinctKeys, Encode, PrintedMember;
    hide ItemsTail, MembersTail;
    match v {
      case Null => Words(rest);
      case Bool(_) => Words(rest);
      case Int(n) => IntRoundTrip(n, rest);
      case Str(s) => StrRoundTrip(s, rest);
      case Arr(items) =>
        if items == [] {
          EmptyContainers(rest);
          assert Printed(v) == "[]";
        } else {
          ItemsRoundTrip(v, items, depth, rest);
          ArrayText(v, rest);
          ArrayStart(Printed(items[0]) + ItemsTail(v, items[1..]) + rest);
        }
      case Obj(members) =>
        if members == [] {
          EmptyContainers(rest);
          assert Printed(v) == "{}";
        } else {
          MembersRoundTrip(v, members, depth, rest);
          ObjectText(v, rest);
          ObjectStart(PrintedMember(v, members[0]) + MembersTail(v, members[1..]) + rest);
        }
    }
  }

  lemma ArrayText(v: Value, rest: string)
    requires v.Arr? && v.items != []
    ensures var inner := Printed(v.items[0]) + ItemsTail(v, v.items[1..]) + rest;
      && Printed(v) + rest == "[" + inner
      && inner != "" && !Space(inner[0]) && inner[0] != ']'
  {
    PrintedStart(v.items[0]);
    hide ItemsTail;
    var inner := Printed(v.items[0]) + ItemsTail(v, v.items[1..]) + rest;
    assert inner[0] == Printed(v.items[0])[0];
    assert Printed(v) == "[" + (Printed(v.items[0]) + ItemsTail(v, v.items[1..]));
  }

  lemma ObjectText(v: Value, rest: string)
    requires v.Obj? && v.members != []
    ensures var inner := PrintedMember(v, v.members[0]) + MembersTail(v, v.members[1..]) + rest;
      && Printed(v) + rest == "{" + inner
      && inner != "" && !Space(inner[0]) && inner[0] != '}'
  {
    MemberText(v, v.members[0], MembersTail(v, v.members[1..]) + rest);
    hide MembersTail, PrintedMember;
    var inner := PrintedMember(v, v.members[0]) + MembersTail(v, v.members[1..]) + rest;
    assert inner == PrintedMember(v, v.members[0]) + (MembersTail(v, v.members[1..]) + rest);
    assert Printed(v) == "{" + (PrintedMember(v, v.members[0]) + MembersTail(v, v.members[1..]));
  }

  lemma QuotedStart(s: string)
    ensures |Quoted(s)| > 0 && Quoted(s)[0] == '\"'
  {
  }

  lemma {:induction false} ItemsRoundTrip(v: Value, items: seq<Value>, depth: nat, rest: string)
    requires |items| > 0 && forall i | 0 <= i < |items| :: items[i] < v && Admissible(items[i], depth + 1)
    ensures ParseItems(Printed(items[0]) + ItemsTail(v, items[1..]) + rest) == Ok(items, rest)
    decreases v, 0, |items|
  {
    hide ParseValue, ParseItems, ParseMembers, Printed, Admissible, SkipSpace;
    var tail := ItemsTail(v, items[1..]) + rest;
    var text := Printed(items[0]) + ItemsTail(v, items[1..]) + rest;
    assert text == Printed(items[0]) + tail;
    ValueRoundTrip(items[0], depth + 1, tail);
    ItemStep(text, items[0], tail);
    if |items| == 1 {
      assert tail[1..] == rest && items == [items[0]];
    } else {
      ItemsRoundTrip(v, items[1..], depth, rest);
      PrintedStart(items[1]);
      var later := Printed(items[1]) + ItemsTail(v, items[2..]) + rest;
      assert items[1..][1..] == items[2..];
      assert tail[1..] == later && tail[1] == Printed(items[1])[0];
      assert items == [items[0]] + items[1..];
    }
  }

  lemma MemberText(v: Value, m: Member, tail: string)
    requires m.value < v
    ensures var text := PrintedMember(v, m) + tail;
      text != "" && text[0] == '\"' && text[1..] == EscapedText(m.key) + "\"" + (":" + (Printed(m.value) + tail))
  {
    hide Printed, EscapedText;
  }

  lemma MemberRoundTrip(v: Value, m: Member, depth: nat, tail: string)
    requires m.value < v && Admissible(m.value, depth + 1) && tail != "" && Follows(tail)
    requires ValueRoundTrips(m.value, tail)
    ensures var s := PrintedMember(v, m) + tail;
      && (tail[0] == '}' ==> ParseMembers(s) == Ok([m], tail[1..]))
      && (tail[0] == ',' && |tail| > 1 && !Space(tail[1]) ==>
            ParseMembers(s) ==
              match ParseMembers(tail[1..])
              case Bad => Bad
              case Ok(members, end) => Ok([m] + members, end))
  {
    hide ParseValue, ParseMembers, ParseChars, Printed, EscapedText, Admissible;
    var inner := Printed(m.value) + tail;
    MemberText(v, m, tail);
    CharsRoundTrip(m.key, ":" + inner);
    PrintedStart(m.value);
    MemberStep(PrintedMember(v, m) + tail, m.key, inner, m.value, tail);
  }

  predicate ValueRoundTrips(v: Value, rest: string) {
    ParseValue(Printed(v) + rest) == Ok(v, rest)
  }

  lemma MembersTailText(v: Value, members: seq<Member>, rest: string)
    requires |members| > 0 && forall i | 0 <= i < |members| :: members[i].value < v
    ensures |members| == 1 ==> MembersTail(v, members[1..]) + rest == "}" + rest
    ensures |members| > 1 ==>
              MembersTail(v, members[1..]) + rest
              == "," + (PrintedMember(v, members[1]) + MembersTail(v, members[1..][1..]) + rest)
    ensures PrintedMember(v, members[0]) + MembersTail(v, members[1..]) + rest
         == PrintedMember(v, members[0]) + (MembersTail(v, members[1..]) + rest)
  {
    hide PrintedMember;
  }

  lemma {:induction false} MembersRoundTrip(v: Value, members: seq<Member>, depth: nat, rest: string)
    requires |members| > 0
    requires forall i | 0 <= i < |members| :: members[i].value < v && Admissible(members[i].value, depth + 1)
    ensures ParseMembers(PrintedMember(v, members[0]) + MembersTail(v, members[1..]) + rest) == Ok(members, rest)
    decreases v, 0, |members|
  {
    hide ParseValue, ParseMembers, Printed, Admissible, MembersTail, Quoted;
    var m := members[0];
    var tail := MembersTail(v, members[1..]) + rest;
    MembersTailText(v, members, rest);
    ValueRoundTrip(m.value, depth + 1, tail);
    MemberRoundTrip(v, m, depth, tail);
    if |members| == 1 {
      assert ("}" + rest)[1..] == rest && members == [m];
    } else {
      MembersRoundTrip(v, members[1..], depth, rest);
      var later := PrintedMember(v, members[1]) + MembersTail(v, members[1..][1..]) + rest;
      assert tail[1..] == later;
      QuotedStart(members[1].key);
      assert members == [m] + members[1..];
    }
  }

  // ----- normal forms -----

  predicate KeysAscend(members: seq<Member>) {
    forall i, j | 0 <= i < j < |members| :: Precedes(members[i].key, members[j].key)
  }

  lemma {:induction false} InsertedSorts(m: Member, sorted: seq<Member>)
    requires KeysAscend(sorted) && forall i | 0 <= i < |sorted| :: sorted[i].key != m.key
    ensures KeysAscend(Inserted(m, sorted)) && |Inserted(m, sorted)| == |sorted| + 1
    ensures forall x :: x in Inserted(m, sorted) <==> x == m || x in sorted
  {
    if sorted != [] {
      var first, rest := sorted[0], sorted[1..];
      assert sorted == [first] + rest;
      if Precedes(m.key, first.key) {
        forall i | 0 <= i < |sorted|
          ensures Precedes(m.key, sorted[i].key)
        {
          if i > 0 {
            PrecedesIsTransitive(m.key, first.key, sorted[i].key);
          }
        }
      } else {
        PrecedesIsTotal(m.key, first.key);
        InsertedSorts(m, rest);
        var result := Inserted(m, rest);
        forall i | 0 <= i < |result|
          ensures Precedes(first.key, result[i].key)
        {
          assert result[i] in result;
        }
      }
    }
  }

  lemma {:induction false} SortedMembersSorts(members: seq<Member>)
    requires DistinctKeys(members)
    ensures KeysAscend(SortedMembers(members)) && |SortedMembers(members)| == |members|
    ensures forall x :: x in SortedMembers(members) <==> x in members
  {
    if members != [] {
      var rest := members[1..];
      assert members == [members[0]] + rest;
      SortedMembersSorts(rest);
      forall i | 0 <= i < |SortedMembers(rest)|
        ensures SortedMembers(rest)[i].key != members[0].key
      {
        assert SortedMembers(rest)[i] in rest;
      }
      InsertedSorts(members[0], SortedMembers(rest));
    }
  }

  lemma AscendingIsDistinct(members: seq<Member>)
    requires KeysAscend(members)
    ensures DistinctKeys(members)
  {
    forall i, j | 0 <= i < j < |members|
      ensures members[i].key != members[j].key
    {
      if members[i].key == members[j].key {
        PrecedesIsAsymmetric(members[i].key, members[j].key);
      }
    }
  }

  lemma {:induction false} SortingSortedIsIdle(members: seq<Member>)
    requires KeysAscend(members)
    ensures SortedMembers(members) == members
  {
    if members != [] {
      SortingSortedIsIdle(members[1..]);
      assert members == [members[0]] + members[1..];
    }
  }

  lemma {:induction false} NormalKeepsAdmissible(v: Value, depth: nat)
    requires Admissible(v, depth)
    ensures Admissible(Normal(v), depth)
    decreases v
  {
    match v {
      case Arr(items) =>
        forall i | 0 <= i < |items|
          ensures Admissible(Normal(items[i]), depth + 1)
        {
          NormalKeepsAdmissible(items[i], depth + 1);
        }
      case Obj(members) =>
        var normal := NormalMembers(v, members);
        forall i | 0 <= i < |members|
          ensures Admissible(normal[i].value, depth + 1) && |Encode(normal[i].key)| <= MAX_KEY_BYTES
        {
          NormalKeepsAdmissible(members[i].value, depth + 1);
        }
        SortedMembersSorts(normal);
        AscendingIsDistinct(SortedMembers(normal));
        forall i | 0 <= i < |members|
          ensures Admissible(SortedMembers(normal)[i].value, depth + 1)
                  && |Encode(SortedMembers(normal)[i].key)| <= MAX_KEY_BYTES
        {
          assert SortedMembers(normal)[i] in normal;
        }
      case _ =>
    }
  }

  lemma {:induction false} NormalIsIdempotent(v: Value, depth: nat)
    requires Admissible(v, depth)
    ensures Normal(Normal(v)) == Normal(v)
    decreases v
  {
    match v {
      case Arr(items) =>
        forall i | 0 <= i < |items|
          ensures Normal(Normal(items[i])) == Normal(items[i])
        {
          NormalIsIdempotent(items[i], depth + 1);
        }
        var normal := NormalItems(v, items);
        assert NormalItems(Arr(normal), normal) == normal;
      case Obj(members) =>
        forall i | 0 <= i < |members|
          ensures Normal(Normal(members[i].value)) == Normal(members[i].value)
        {
          NormalIsIdempotent(members[i].value, depth + 1);
        }
        var normal := NormalMembers(v, members);
        SortedMembersSorts(normal);
        var sorted := SortedMembers(normal);
        forall i | 0 <= i < |sorted|
          ensures Normal(sorted[i].value) == sorted[i].value
        {
          assert sorted[i] in normal;
          var k :| 0 <= k < |normal| && normal[k] == sorted[i];
          assert normal[k].value == Normal(members[k].value);
        }
        assert NormalMembers(Obj(sorted), sorted) == sorted;
        SortingSortedIsIdle(sorted);
      case _ =>
    }
  }

  lemma SameSortedIff(a: seq<Member>, b: seq<Member>)
    requires DistinctKeys(a) && DistinctKeys(b)
    ensures SortedMembers(a) == SortedMembers(b) <==> forall m :: m in a <==> m in b
  {
    SortedMembersSorts(a);
    SortedMembersSorts(b);
    hide SortedMembers, DistinctKeys;
    if forall m :: m in a <==> m in b {
      OneAscendingOrder(SortedMembers(a), SortedMembers(b));
    }
  }

  lemma NormalMembersDistinct(v: Value, members: seq<Member>)
    requires DistinctKeys(members) && forall i | 0 <= i < |members| :: members[i].value < v
    ensures DistinctKeys(NormalMembers(v, members))
  {
  }

  /** Two objects have the same normal form exactly when they map the same keys to values of the
      same normal form, in whatever order. */
  lemma SameObjectIff(a: Value, b: Value, depth: nat)
    requires a.Obj? && b.Obj? && Admissible(a, depth) && Admissible(b, depth)
    ensures Normal(a) == Normal(b) <==>
              forall m :: m in NormalMembers(a, a.members) <==> m in NormalMembers(b, b.members)
  {
    NormalMembersDistinct(a, a.members);
    NormalMembersDistinct(b, b.members);
    SameSortedIff(NormalMembers(a, a.members), NormalMembers(b, b.members));
    hide NormalMembers, SortedMembers, Admissible;
  }

  lemma {:induction false} OneAscendingOrder(a: seq<Member>, b: seq<Member>)
    requires KeysAscend(a) && KeysAscend(b) && forall m :: m in a <==> m in b
    ensures a == b
  {
    assert |a| > 0 ==> a[0] in b;
    assert |b| > 0 ==> b[0] in a;
    if |a| > 0 {
      var i :| 0 <= i < |b| && b[i] == a[0];
      var j :| 0 <= j < |a| && a[j] == b[0];
      if i > 0 && j > 0 {
        PrecedesIsAsymmetric(a[0].key, b[0].key);
      }
      assert a[0] == b[0];
      forall m
        ensures m in a[1..] <==> m in b[1..]
      {
        assert m in a <==> m == a[0] || m in a[1..];
        assert m in b <==> m == b[0] || m in b[1..];
        if m == a[0] && (m in a[1..] || m in b[1..]) {
          PrecedesIsAsymmetric(m.key, m.key);
        }
      }
      OneAscendingOrder(a[1..], b[1..]);
    }
  }

  // ----- the main laws -----

  lemma PrintedLoads(v: Value, depth: nat)
    requires Admissible(v, depth)
    ensures Loads(Printed(v)) == Some(v)
  {
    ValueRoundTrip(v, depth, "");
    assert Printed(v) + "" == Printed(v);
    PrintedStart(v);
    hide ParseValue, Printed;
  }

  /** What was sent is what is received, up to the order of the members of objects. */
  lemma DecodesWhatWasPrinted(v: Value)
    requires Admissible(v, 0)
    ensures CanonicalBytes(v).Some? && DecodeCanonical(CanonicalBytes(v).value) == Some(Normal(v))
  {
    NormalKeepsAdmissible(v, 0);
    NormalIsIdempotent(v, 0);
    PrintedLoads(Normal(v), 0);
    EncodeThenDecode(Printed(Normal(v)));
    hide Printed, Normal, Loads, Encode, Decode, Admissible;
  }

  /** Decoding accepts nothing but the canonical bytes of an admissible value in normal form. */
  lemma AcceptsOnlyCanonical(payload: seq<byte>)
    ensures DecodeCanonical(payload).Some? <==>
              exists v :: Admissible(v, 0) && CanonicalBytes(v) == Some(payload)
    ensures DecodeCanonical(payload).Some? ==>
              var v := DecodeCanonical(payload).value;
              Admissible(v, 0) && Normal(v) == v && CanonicalBytes(v) == Some(payload)
  {
    if DecodeCanonical(payload).Some? {
      var v := DecodeCanonical(payload).value;
      assert Admissible(v, 0) && CanonicalBytes(v) == Some(payload);
      DecodesWhatWasPrinted(v);
    }
    if v :| Admissible(v, 0) && CanonicalBytes(v) == Some(payload) {
      DecodesWhatWasPrinted(v);
    }
    hide Printed, Normal, Loads, Encode, Decode, Admissible;
  }

  /** Each value has one wire form, and different values have different ones. */
  lemma OneWireForm(v: Value, w: Value)
    requires Admissible(v, 0) && Admissible(w, 0)
    ensures CanonicalBytes(v) == CanonicalBytes(w) <==> Normal(v) == Normal(w)
  {
    DecodesWhatWasPrinted(v);
    DecodesWhatWasPrinted(w);
    hide Printed, Normal, DecodeCanonical, Encode, Admissible;
  }

  // ----- what the printed form looks like -----

  function Commas(parts: seq<string>): string {
    if parts == [] then ""
    else if |parts| == 1 then parts[0]
    else parts[0] + "," + Commas(parts[1..])
  }

  /** The texts of the items, and of the members, each on its own. */
  function ItemTexts(items: seq<Value>): (texts: seq<string>)
    ensures |texts| == |items| && forall i | 0 <= i < |items| :: texts[i] == Printed(items[i])
  {
    seq(|items|, i requires 0 <= i < |items| => Printed(items[i]))
  }

  function MemberTexts(members: seq<Member>): (texts: seq<string>)
    ensures |texts| == |members|
    ensures forall i | 0 <= i < |members| :: texts[i] == Quoted(members[i].key) + ":" + Printed(members[i].value)
  {
    seq(|members|, i requires 0 <= i < |members| => Quoted(members[i].key) + ":" + Printed(members[i].value))
  }

  lemma {:induction false} ItemsTailIs(v: Value, items: seq<Value>)
    requires forall i | 0 <= i < |items| :: items[i] < v
    ensures ItemsTail(v, items) == if items == [] then "]" else "," + Commas(ItemTexts(items)) + "]"
    decreases |items|
  {
    hide Printed;
    if items != [] {
      ItemsTailIs(v, items[1..]);
      assert ItemTexts(items)[1..] == ItemTexts(items[1..]);
    }
  }

  lemma {:induction false} MembersTailIs(v: Value, members: seq<Member>)
    requires forall i | 0 <= i < |members| :: members[i].value < v
    ensures MembersTail(v, members) == if members == [] then "}" else "," + Commas(MemberTexts(members)) + "}"
    decreases |members|
  {
    hide Printed, Quoted;
    if members != [] {
      MembersTailIs(v, members[1..]);
      assert MemberTexts(members)[1..] == MemberTexts(members[1..]);
    }
  }

  /** An array is its items between brackets and an object its members between braces, separated by
      single commas, a key before its colon. */
  lemma ContainersAreJoined(items: seq<Value>, members: seq<Member>)
    ensures Printed(Arr(items)) == "[" + Commas(ItemTexts(items)) + "]"
    ensures Printed(Obj(members)) == "{" + Commas(MemberTexts(members)) + "}"
  {
    hide Quoted, Commas;
    ArrayIsJoined(items);
    ObjectIsJoined(members);
  }

  lemma ArrayIsJoined(items: seq<Value>)
    ensures Printed(Arr(items)) == "[" + Commas(ItemTexts(items)) + "]"
  {
    if items != [] {
      ItemsTailIs(Arr(items), items[1..]);
      assert ItemTexts(items)[1..] == ItemTexts(items[1..]);
    }
  }

  lemma ObjectIsJoined(members: seq<Member>)
    ensures Printed(Obj(members)) == "{" + Commas(MemberTexts(members)) + "}"
  {
    hide Quoted;
    if members != [] {
      MembersTailIs(Obj(members), members[1..]);
      assert MemberTexts(members)[1..] == MemberTexts(members[1..]);
    }
  }

  /** Which characters are escaped, and how: section 7 of RFC 8259 leaves more than one form. */
  lemma EscapesAre(c: char)
    ensures 32 <= c as int && c != '\"' && c != '\\' ==> Escaped(c) == [c]
    ensures Escaped('\"') == "\\\"" && Escaped('\\') == "\\\\" && Escaped('\n') == "\\n"
    ensures Escaped('\r') == "\\r" && Escaped('\t') == "\\t"
    ensures Escaped(8 as char) == "\\b" && Escaped(12 as char) == "\\f"
    ensures Escaped(0 as char) == "\\u0000" && Escaped(27 as char) == "\\u001b" && Escaped(31 as char) == "\\u001f"
  {
  }

  /** A text is quoted character by character. */
  lemma {:induction false} QuotedJoins(a: string, b: string)
    ensures EscapedText(a + b) == EscapedText(a) + EscapedText(b)
    ensures Quoted(a) == "\"" + EscapedText(a) + "\"" && (|a| == 1 ==> EscapedText(a) == Escaped(a[0]))
  {
    hide Escaped;
    if a == "" {
      assert a + b == b;
    } else {
      assert (a + b)[1..] == a[1..] + b;
      QuotedJoins(a[1..], b);
    }
  }

  /** Numbers are decimal, without a plus sign. */
  lemma NumbersAre(n: nat)
    ensures Printed(Int(-120)) == "-120" && Printed(Int(0)) == "0" && Printed(Int(9)) == "9"
    ensures n > 0 ==> forall d | 0 <= d < 10 :: Printed(Int(10 * n + d)) == Printed(Int(n)) + ["0123456789"[d]]
  {
    assert NatText(1) == "1" && NatText(12) == "12" && NatText(120) == "120";
  }
}
