/** Compact JSON with escaped strings, as the digests of the program are fed, and the
    proof that a concatenation of such objects without separators decodes in one way.
    Escaping follows section 7 of RFC 8259; characters above U+001F other than the quote
    and the backslash stand for themselves. Every writer takes the text that follows, so
    `Write(j, k)` is the text of `j` followed by `k`. */
module CanonicalJson {

  datatype Json =
    | Null
    | Number(n: nat)
    | Text(s: string)
    | Object(fields: Fields)

  /** The members of one object, in the order they are written. */
  datatype Fields = End | Field(key: string, value: Json, rest: Fields)

  function HexDigit(n: nat): char
    requires n < 16
  {
    "0123456789abcdef"[n]
  }

  function Escape(c: char): string {
    if c == '\"' then "\\\""
    else if c == '\\' then "\\\\"
    else if c == '\n' then "\\n"
    else if c == '\r' then "\\r"
    else if c == '\t' then "\\t"
    else if c as int == 8 then "\\b"
    else if c as int == 12 then "\\f"
    else if (c as int) < 32 then ['\\', 'u', '0', '0', HexDigit(c as int / 16), HexDigit(c as int % 16)]
    else [c]
  }

  /** What a character takes: two with a short escape, six for the other control characters, one
      for everything else, whether ASCII or not. */
  lemma EscapeSize(c: char, rest: string, k: string)
    ensures |WriteEscaped([c] + rest, k)| == |WriteEscaped(rest, k)| +
      if c == '\"' || c == '\\' || c == '\n' || c == '\r' || c == '\t' || c as int == 8 || c as int == 12 then 2
      else if (c as int) < 32 then 6 else 1
  {
    assert ([c] + rest)[1..] == rest;
  }

  function WriteEscaped(s: string, k: string): string {
    if s == [] then k else Escape(s[0]) + WriteEscaped(s[1..], k)
  }

  function WriteString(s: string, k: string): string {
    ['\"'] + WriteEscaped(s, ['\"'] + k)
  }

  predicate IsDigit(c: char) {
    '0' <= c <= '9'
  }

  /** The decimal digits of `n`, without leading zeros. */
  function Digits(n: nat): (r: string)
    ensures r != [] && forall i | 0 <= i < |r| :: IsDigit(r[i])
  {
    if n < 10 then [('0' as int + n) as char]
    else Digits(n / 10) + [('0' as int + n % 10) as char]
  }

  function Write(j: Json, k: string): string
    decreases j, 0
  {
    match j
    case Null => "null" + k
    case Number(n) => Digits(n) + k
    case Text(s) => WriteString(s, k)
    case Object(fields) => ['{'] + WriteFields(fields, ['}'] + k)
  }

  function WriteFields(f: Fields, k: string): string
    decreases f, 1
  {
    match f
    case End => k
    case Field(key, value, rest) => WriteString(key, [':'] + Write(value, WriteRest(rest, k)))
  }

  function WriteRest(f: Fields, k: string): string
    decreases f, 2
  {
    if f.End? then k else [','] + WriteFields(f, k)
  }

  /** The text of one value on its own. */
  function Serialize(j: Json): string {
    Write(j, "")
  }

  /** What a hasher sees that is fed the values one after another. */
  function Stream(objects: seq<Json>): string {
    if objects == [] then "" else Serialize(objects[0]) + Stream(objects[1..])
  }

  // --- writing is appending ------------------------------------------------------------

  lemma {:induction false} WriteEscapedAppends(s: string, k: string, x: string)
    ensures WriteEscaped(s, k + x) == WriteEscaped(s, k) + x
  {
    if s != [] {
      WriteEscapedAppends(s[1..], k, x);
      assert Escape(s[0]) + (WriteEscaped(s[1..], k) + x) == Escape(s[0]) + WriteEscaped(s[1..], k) + x;
    }
  }

  lemma WriteStringAppends(s: string, k: string, x: string)
    ensures WriteString(s, k + x) == WriteString(s, k) + x
  {
    assert ['\"'] + (k + x) == (['\"'] + k) + x;
    WriteEscapedAppends(s, ['\"'] + k, x);
  }

  lemma {:induction false} WriteAppends(j: Json, k: string, x: string)
    ensures Write(j, k + x) == Write(j, k) + x
    decreases j, 0
  {
    match j
    case Null => assert "null" + (k + x) == "null" + k + x;
    case Number(n) => assert Digits(n) + (k + x) == Digits(n) + k + x;
    case Text(s) => WriteStringAppends(s, k, x);
    case Object(fields) =>
      assert ['}'] + (k + x) == (['}'] + k) + x;
      WriteFieldsAppends(fields, ['}'] + k, x);
  }

  lemma {:induction false} WriteFieldsAppends(f: Fields, k: string, x: string)
    ensures WriteFields(f, k + x) == WriteFields(f, k) + x
    decreases f, 1
  {
    if f.Field? {
      var rest := WriteRest(f.rest, k);
      if f.rest.Field? {
        WriteFieldsAppends(f.rest, k, x);
        assert [','] + (WriteFields(f.rest, k) + x) == rest + x;
      }
      assert WriteRest(f.rest, k + x) == rest + x;
      WriteAppends(f.value, rest, x);
      assert [':'] + (Write(f.value, rest) + x) == ([':'] + Write(f.value, rest)) + x;
      WriteStringAppends(f.key, [':'] + Write(f.value, rest), x);
    }
  }

  /** The stream is also what the continuation-style writers produce. */
  lemma StreamWrites(objects: seq<Json>)
    requires objects != []
    ensures Stream(objects) == Write(objects[0], Stream(objects[1..]))
  {
    WriteAppends(objects[0], "", Stream(objects[1..]));
    assert "" + Stream(objects[1..]) == Stream(objects[1..]);
  }

  lemma {:induction false} StreamConcat(a: seq<Json>, b: seq<Json>)
    ensures Stream(a + b) == Stream(a) + Stream(b)
  {
    if a == [] {
      assert a + b == b;
    } else {
      assert (a + b)[1..] == a[1..] + b;
      StreamConcat(a[1..], b);
      assert Serialize(a[0]) + (Stream(a[1..]) + Stream(b)) == Serialize(a[0]) + Stream(a[1..]) + Stream(b);
    }
  }

  // --- strings read back in one way ------------------------------------------------------

  lemma ConsInjective(c: char, d: char, x: string, y: string)
    requires [c] + x == [d] + y
    ensures c == d && x == y
  {
    assert ([c] + x)[0] == c && ([d] + y)[0] == d;
    assert ([c] + x)[1..] == x && ([d] + y)[1..] == y;
  }

  function HexValue(c: char): int {
    if IsDigit(c) then c as int - '0' as int else c as int - 'a' as int + 10
  }

  /** The character an escaped text begins with, and how long its escape is. */
  function Unescape(s: string): (int, nat)
    requires |s| >= 1 && (s[0] == '\\' ==> |s| >= 2 && (s[1] == 'u' ==> |s| >= 6))
  {
    if s[0] != '\\' then (s[0] as int, 1)
    else match s[1]
      case 'n' => (10, 2)
      case 'r' => (13, 2)
      case 't' => (9, 2)
      case 'b' => (8, 2)
      case 'f' => (12, 2)
      case 'u' => (16 * HexValue(s[4]) + HexValue(s[5]), 6)
      case other => (other as int, 2)
  }

  lemma HexRead(n: nat)
    requires n < 16
    ensures HexValue(HexDigit(n)) == n
  {
  }

  lemma EscapeReads(c: char, x: string)
    ensures var s := Escape(c) + x;
      && |s| >= 1 && (s[0] == '\\' ==> |s| >= 2 && (s[1] == 'u' ==> |s| >= 6))
      && Unescape(s) == (c as int, |Escape(c)|)
  {
    var e := Escape(c);
    var s := e + x;
    assert forall i | 0 <= i < |e| :: s[i] == e[i];
    assert |e| == 1 || |e| == 2 || |e| == 6;
    if |e| == 6 {
      HexRead(c as int / 16);
      HexRead(c as int % 16);
    }
  }

  lemma EscapePrefixFree(c: char, d: char, x: string, y: string)
    requires Escape(c) + x == Escape(d) + y
    ensures c == d && x == y
  {
    EscapeReads(c, x);
    EscapeReads(d, y);
    assert (Escape(c) + x)[|Escape(c)|..] == x;
    assert (Escape(d) + y)[|Escape(d)|..] == y;
  }

  lemma {:induction false} EscapedPrefixFree(a: string, b: string, x: string, y: string)
    requires WriteEscaped(a, ['\"'] + x) == WriteEscaped(b, ['\"'] + y)
    ensures a == b && x == y
  {
    var l, r := WriteEscaped(a, ['\"'] + x), WriteEscaped(b, ['\"'] + y);
    assert a != [] ==> l[0] == Escape(a[0])[0] != '\"';
    assert b != [] ==> r[0] == Escape(b[0])[0] != '\"';
    assert (a == [] ==> l[0] == '\"') && (b == [] ==> r[0] == '\"');
    if a == [] {
      ConsInjective('\"', '\"', x, y);
    } else {
      EscapePrefixFree(a[0], b[0], WriteEscaped(a[1..], ['\"'] + x), WriteEscaped(b[1..], ['\"'] + y));
      EscapedPrefixFree(a[1..], b[1..], x, y);
      assert a == [a[0]] + a[1..] && b == [b[0]] + b[1..];
    }
  }

  lemma StringPrefixFree(a: string, b: string, x: string, y: string)
    requires WriteString(a, x) == WriteString(b, y)
    ensures a == b && x == y
  {
    ConsInjective('\"', '\"', WriteEscaped(a, ['\"'] + x), WriteEscaped(b, ['\"'] + y));
    EscapedPrefixFree(a, b, x, y);
  }

  // --- numbers ---------------------------------------------------------------------------

  /** `s` does not go on with a digit. */
  predicate NoDigitFirst(s: string) {
    s == [] || !IsDigit(s[0])
  }

  /** How many digits `s` begins with. */
  function DigitRun(s: string): nat {
    if NoDigitFirst(s) then 0 else 1 + DigitRun(s[1..])
  }

  lemma {:induction false} DigitRunStops(a: string, x: string)
    requires NoDigitFirst(x) && forall i | 0 <= i < |a| :: IsDigit(a[i])
    ensures DigitRun(a + x) == |a|
  {
    if a == [] {
      assert a + x == x;
    } else {
      assert (a + x)[1..] == a[1..] + x;
      DigitRunStops(a[1..], x);
    }
  }

  /** The number a string of digits stands for. */
  function DigitsValue(s: string): int {
    if s == [] then 0 else 10 * DigitsValue(s[..|s| - 1]) + (s[|s| - 1] as int - '0' as int)
  }

  lemma {:induction false} DigitsRead(n: nat)
    ensures DigitsValue(Digits(n)) == n
  {
    if n >= 10 {
      DigitsRead(n / 10);
      assert Digits(n)[..|Digits(n)| - 1] == Digits(n / 10);
    } else {
      assert Digits(n)[..0] == [];
    }
  }

  lemma DigitsPrefixFree(n: nat, m: nat, x: string, y: string)
    requires Digits(n) + x == Digits(m) + y && NoDigitFirst(x) && NoDigitFirst(y)
    ensures n == m && x == y
  {
    var a, b := Digits(n), Digits(m);
    DigitRunStops(a, x);
    DigitRunStops(b, y);
    assert a == (a + x)[..|a|] && b == (b + y)[..|b|];
    assert x == (a + x)[|a|..] && y == (b + y)[|b|..];
    DigitsRead(n);
    DigitsRead(m);
  }

  // --- values ----------------------------------------------------------------------------

  lemma WriteFirst(j: Json, k: string)
    ensures Write(j, k) != []
    ensures var c := Write(j, k)[0];
      && (c == '{' <==> j.Object?) && (c == '\"' <==> j.Text?)
      && (c == 'n' <==> j.Null?) && (IsDigit(c) <==> j.Number?)
  {
    if j.Number? {
      assert Write(j, k)[0] == Digits(j.n)[0];
    }
  }

  /** A value is self-delimiting: what follows it never changes how it is read. */
  lemma {:induction false} WritePrefixFree(a: Json, b: Json, x: string, y: string)
    requires Write(a, x) == Write(b, y) && NoDigitFirst(x) && NoDigitFirst(y)
    ensures a == b && x == y
    decreases a, 0
  {
    WriteFirst(a, x);
    WriteFirst(b, y);
    match a
    case Null => assert ("null" + x)[4..] == x && ("null" + y)[4..] == y;
    case Number(n) => DigitsPrefixFree(n, b.n, x, y);
    case Text(s) => StringPrefixFree(s, b.s, x, y);
    case Object(f) =>
      ConsInjective('{', '{', WriteFields(f, ['}'] + x), WriteFields(b.fields, ['}'] + y));
      FieldsPrefixFree(f, b.fields, x, y);
  }

  lemma {:induction false} FieldsPrefixFree(f: Fields, g: Fields, x: string, y: string)
    requires WriteFields(f, ['}'] + x) == WriteFields(g, ['}'] + y)
    ensures f == g && x == y
    decreases f, 1
  {
    var l, r := WriteFields(f, ['}'] + x), WriteFields(g, ['}'] + y);
    assert l[0] == (if f.End? then '}' else '\"');
    assert r[0] == (if g.End? then '}' else '\"');
    if f.End? {
      ConsInjective('}', '}', x, y);
    } else {
      var tf, tg := WriteRest(f.rest, ['}'] + x), WriteRest(g.rest, ['}'] + y);
      StringPrefixFree(f.key, g.key, [':'] + Write(f.value, tf), [':'] + Write(g.value, tg));
      ConsInjective(':', ':', Write(f.value, tf), Write(g.value, tg));
      assert tf[0] == (if f.rest.End? then '}' else ',');
      assert tg[0] == (if g.rest.End? then '}' else ',');
      WritePrefixFree(f.value, g.value, tf, tg);
      if f.rest.End? {
        ConsInjective('}', '}', x, y);
      } else {
        ConsInjective(',', ',', WriteFields(f.rest, ['}'] + x), WriteFields(g.rest, ['}'] + y));
        FieldsPrefixFree(f.rest, g.rest, x, y);
      }
    }
  }

  ghost predicate AllObjects(s: seq<Json>) {
    forall j | j in s :: j.Object?
  }

  lemma StreamFirst(s: seq<Json>)
    requires AllObjects(s)
    ensures NoDigitFirst(Stream(s)) && (Stream(s) == [] <==> s == [])
  {
    if s != [] {
      StreamWrites(s);
      WriteFirst(s[0], Stream(s[1..]));
    }
  }

  /** Objects written one after another without separators can be read back in one way. */
  lemma {:induction false} StreamUniquelyDecodable(a: seq<Json>, b: seq<Json>)
    requires AllObjects(a) && AllObjects(b) && Stream(a) == Stream(b)
    ensures a == b
  {
    StreamFirst(a);
    StreamFirst(b);
    if a != [] {
      StreamWrites(a);
      StreamWrites(b);
      StreamFirst(a[1..]);
      StreamFirst(b[1..]);
      WritePrefixFree(a[0], b[0], Stream(a[1..]), Stream(b[1..]));
      StreamUniquelyDecodable(a[1..], b[1..]);
      assert a == [a[0]] + a[1..] && b == [b[0]] + b[1..];
    }
  }

  lemma SerializeInjective(a: Json, b: Json)
    requires Serialize(a) == Serialize(b)
    ensures a == b
  {
    WritePrefixFree(a, b, "", "");
  }
}
