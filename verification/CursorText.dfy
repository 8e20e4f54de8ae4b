/** The JSON text of a cursor's payload can be read back in one way only, so a reader that inverts
    it exists: no two payloads of the issued shape have the same bytes. */
module CursorText {
  import opened Wrappers
  import B = Base64Url
  import J = CanonicalJson
  import opened Cursor

  lemma Cut(a: string, x: string)
    ensures (a + x)[|a|..] == x
  {
  }

  // --- one character -------------------------------------------------------------------------

  /** The code that an escaped unit stands for. */
  function UnitCode(s: string): int
    requires |s| >= 6
  {
    J.HexValue(s[2]) * 4096 + J.HexValue(s[3]) * 256 + J.HexValue(s[4]) * 16 + J.HexValue(s[5])
  }

  lemma HexParts(n: nat)
    requires n < 0x1_0000
    ensures n / 4096 % 16 * 4096 + n / 256 % 16 * 256 + n / 16 % 16 * 16 + n % 16 == n
  {
    var a, b, c := n / 16, n / 256, n / 4096;
    assert n == 16 * a + n % 16;
    assert b == a / 16 && a == 16 * b + a % 16;
    assert c == b / 16 && b == 16 * c + b % 16;
    assert c % 16 == c;
  }

  lemma UnitReads(n: nat, x: string)
    requires n < 0x1_0000
    ensures UnitCode(Unit(n) + x) == n && (Unit(n) + x)[0] == '\\' && (Unit(n) + x)[1] == 'u'
  {
    HexParts(n);
    var a, b, c, d := n / 4096 % 16, n / 256 % 16, n / 16 % 16, n % 16;
    assert Unit(n) == ['\\', 'u', Hex(a), Hex(b), Hex(c), Hex(d)];
    UnitOf(a, b, c, d, x);
  }

  lemma UnitOf(a: nat, b: nat, c: nat, d: nat, x: string)
    requires a < 16 && b < 16 && c < 16 && d < 16
    ensures UnitCode(['\\', 'u', Hex(a), Hex(b), Hex(c), Hex(d)] + x) == a * 4096 + b * 256 + c * 16 + d
  {
    J.HexRead(a);
    J.HexRead(b);
    J.HexRead(c);
    J.HexRead(d);
    hide J.HexDigit, J.HexValue;
  }

  /** The character that an escaped text begins with, and how long its escape is. */
  function Unescape(s: string): (int, nat) {
    if s == "" then (0, 0)
    else if s[0] != '\\' then (s[0] as int, 1)
    else if |s| < 6 || s[1] != 'u' then (if |s| < 2 then 0 else Short(s[1]), 2)
    else if 0xD800 <= UnitCode(s) < 0xDC00 && |s| >= 12 then
      (0x1_0000 + (UnitCode(s) - 0xD800) * 1024 + UnitCode(s[6..]) - 0xDC00, 12)
    else (UnitCode(s), 6)
  }

  /** What a short escape stands for. */
  function Short(c: char): int {
    if c == 'n' then 10 else if c == 'r' then 13 else if c == 't' then 9
    else if c == 'b' then 8 else if c == 'f' then 12 else c as int
  }

  lemma Surrogates(n: int)
    requires 0 <= n < 0x10_0000
    ensures var high, low := 0xD800 + n / 1024, 0xDC00 + n % 1024;
      0xD800 <= high < 0xDC00 <= low < 0xE000 && (high - 0xD800) * 1024 + low - 0xDC00 == n
  {
  }

  lemma PairEscape(c: char)
    requires c as int >= 0x1_0000
    ensures var n := c as int - 0x1_0000;
      n < 0x10_0000 && Escape(c) == Unit(0xD800 + n / 1024) + Unit(0xDC00 + n % 1024)
  {
    hide Unit;
  }

  lemma UnescapePair(s: string)
    requires |s| >= 12 && s[0] == '\\' && s[1] == 'u' && 0xD800 <= UnitCode(s) < 0xDC00
    ensures Unescape(s) == (0x1_0000 + (UnitCode(s) - 0xD800) * 1024 + UnitCode(s[6..]) - 0xDC00, 12)
  {
    hide UnitCode;
  }

  lemma PairReads(c: char, x: string)
    requires c as int >= 0x1_0000
    ensures Unescape(Escape(c) + x) == (c as int, 12) && |Escape(c)| == 12
  {
    hide *;
    PairEscape(c);
    var n := c as int - 0x1_0000;
    Surrogates(n);
    var high, low := 0xD800 + n / 1024, 0xDC00 + n % 1024;
    var s := Escape(c) + x;
    assert s == Unit(high) + (Unit(low) + x);
    Cut(Unit(high), Unit(low) + x);
    UnitReads(high, Unit(low) + x);
    UnitReads(low, x);
    UnescapePair(s);
  }

  lemma UnitEscapeReads(c: char, x: string)
    requires Escape(c) == Unit(c as int) && (c as int) < 0x1_0000
    ensures Unescape(Escape(c) + x) == (c as int, 6)
  {
    hide Escape, Unit, UnitCode;
    UnitReads(c as int, x);
  }

  lemma EscapeReads(c: char, x: string)
    ensures Unescape(Escape(c) + x) == (c as int, |Escape(c)|)
    ensures |Escape(c)| > 0 && Escape(c)[0] != '\"'
  {
    if c as int >= 0x1_0000 {
      PairReads(c, x);
      hide Unit;
    } else if ShortEscape(c) {
      hide Unit, UnitCode;
    } else {
      UnitEscapeReads(c, x);
      hide UnitCode, Unescape;
    }
  }

  /** The escapes of one or two characters. */
  predicate ShortEscape(c: char) {
    ' ' <= c <= '~' || c == '\n' || c == '\r' || c == '\t' || c as int == 8 || c as int == 12
  }

  lemma EscapeSplits(c: char, d: char, x: string, y: string)
    requires Escape(c) + x == Escape(d) + y
    ensures c == d && x == y
  {
    EscapeReads(c, x);
    EscapeReads(d, y);
    hide *;
    Cut(Escape(c), x);
    Cut(Escape(d), y);
  }

  // --- one value -----------------------------------------------------------------------------

  /** A text in quotes, without its first quote, and what follows. */
  function Quoted(s: string, x: string): string {
    Escaped(s) + ['\"'] + x
  }

  lemma QuotedStep(s: string, x: string)
    ensures s != "" ==> Quoted(s, x) == Escape(s[0]) + Quoted(s[1..], x)
    ensures s != "" ==> Quoted(s, x) != "" && Quoted(s, x)[0] != '\"'
    ensures s == "" ==> Quoted(s, x) == ['\"'] + x
  {
    if s != "" {
      QuotedFirst(s, x);
    }
  }

  lemma QuotedFirst(s: string, x: string)
    requires s != ""
    ensures Quoted(s, x) == Escape(s[0]) + Quoted(s[1..], x)
    ensures Quoted(s, x) != "" && Quoted(s, x)[0] != '\"'
  {
    hide Escape, Unescape;
    assert Escaped(s) == Escape(s[0]) + Escaped(s[1..]);
    EscapeReads(s[0], "");
  }

  lemma {:induction false} QuotedSplits(s: string, t: string, x: string, y: string)
    requires Quoted(s, x) == Quoted(t, y)
    ensures s == t && x == y
  {
    hide *;
    QuotedStep(s, x);
    QuotedStep(t, y);
    if s == "" || t == "" {
      Cut(['\"'], x);
      Cut(['\"'], y);
    } else {
      EscapeSplits(s[0], t[0], Quoted(s[1..], x), Quoted(t[1..], y));
      QuotedSplits(s[1..], t[1..], x, y);
      assert s == [s[0]] + s[1..] && t == [t[0]] + t[1..];
    }
  }

  predicate IsText(v: Value) {
    v.Num? || v.Str?
  }

  lemma NumberIs(n: int, x: string)
    ensures n < 0 ==> NumberText(n) + x == ['-'] + (J.Digits(-n) + x)
    ensures n >= 0 ==> NumberText(n) + x == J.Digits(n) + x && J.IsDigit((J.Digits(n) + x)[0])
  {
    if n < 0 {
      assert "-" + J.Digits(-n) + x == ['-'] + (J.Digits(-n) + x);
    } else {
      assert (J.Digits(n) + x)[0] == J.Digits(n)[0];
    }
  }

  lemma NumberSplits(n: int, m: int, x: string, y: string)
    requires NumberText(n) + x == NumberText(m) + y && J.NoDigitFirst(x) && J.NoDigitFirst(y)
    ensures n == m && x == y
  {
    NumberIs(n, x);
    NumberIs(m, y);
    assert !J.IsDigit('-');
    hide *;
    if n < 0 && m < 0 {
      Cut(['-'], J.Digits(-n) + x);
      Cut(['-'], J.Digits(-m) + y);
      J.DigitsPrefixFree(-n, -m, x, y);
    } else if n >= 0 && m >= 0 {
      J.DigitsPrefixFree(n, m, x, y);
    }
  }

  lemma ValueIs(v: Value, x: string)
    requires IsText(v)
    ensures v.Num? ==> ValueText(v) + x == NumberText(v.n) + x && (NumberText(v.n) + x)[0] != '\"'
    ensures v.Str? ==> ValueText(v) + x == ['\"'] + Quoted(v.s, x)
  {
    if v.Num? {
      NumberIs(v.n, x);
    } else {
      hide Escaped;
      assert "\"" + Escaped(v.s) + "\"" + x == ['\"'] + (Escaped(v.s) + ['\"'] + x);
    }
  }

  lemma ValueSplits(v: Value, w: Value, x: string, y: string)
    requires ValueText(v) + x == ValueText(w) + y && IsText(v) && IsText(w)
    requires J.NoDigitFirst(x) && J.NoDigitFirst(y)
    ensures v == w && x == y
  {
    ValueIs(v, x);
    ValueIs(w, y);
    assert (v.Num? || v.Str?) && (w.Num? || w.Str?);
    hide *;
    if v.Num? && w.Num? {
      NumberSplits(v.n, w.n, x, y);
    } else if v.Str? && w.Str? {
      Cut(['\"'], Quoted(v.s, x));
      Cut(['\"'], Quoted(w.s, y));
      QuotedSplits(v.s, w.s, x, y);
    }
  }

  // --- the members ---------------------------------------------------------------------------

  /** The members with these keys, each after a comma, and the closing brace. */
  function Members(m: Payload, ks: string): (r: string)
    requires m.Keys == KEYS && forall k | k in ks :: [k] in KEYS && (k as int) < 128
    ensures B.Ascii(r) && r != "" && J.NoDigitFirst(r)
  {
    if ks == "" then "}" else Next(m, ks[0], Members(m, ks[1..]))
  }

  /** The keys after `a`, in order. */
  const LATER: string := ['c', 'e', 'f', 'i'] + (['k', 'l', 'n', 'r'] + (['s', 't', 'u', 'v'] + ""))

  lemma LaterKeys()
    ensures forall k | k in LATER :: [k] in KEYS && (k as int) < 128
    ensures LATER == ['c', 'e', 'f', 'i'] + (['k', 'l', 'n', 'r'] + (['s', 't', 'u', 'v'] + ""))
    ensures forall k | k in {'a', 'c', 'e', 'f', 'i', 'k', 'l', 'n', 'r', 's', 't', 'u', 'v'} ::
      [k] in KEYS && (k as int) < 128
    ensures forall key | key in KEYS :: key == "a" || (|key| == 1 && key[0] in LATER)
  {
    assert forall k :: k in LATER <==> k in ['c', 'e', 'f', 'i'] || k in ['k', 'l', 'n', 'r'] || k in ['s', 't', 'u', 'v'];
  }

  lemma MemberIs(m: Payload, k: char, x: string)
    requires [k] in m && (k as int) < 128 && B.Ascii(x)
    ensures Member(m, k, x) == ['\"', k, '\"', ':'] + (ValueText(m[[k]]) + x)
  {
    hide ValueText;
  }

  lemma MemberSplits(m: Payload, n: Payload, k: char, x: string, y: string)
    requires [k] in m && [k] in n && IsText(m[[k]]) && IsText(n[[k]])
    requires (k as int) < 128 && B.Ascii(x) && B.Ascii(y)
    requires J.NoDigitFirst(x) && J.NoDigitFirst(y) && Member(m, k, x) == Member(n, k, y)
    ensures m[[k]] == n[[k]] && x == y
  {
    hide *;
    MemberIs(m, k, x);
    MemberIs(n, k, y);
    Cut(['\"', k, '\"', ':'], ValueText(m[[k]]) + x);
    Cut(['\"', k, '\"', ':'], ValueText(n[[k]]) + y);
    ValueSplits(m[[k]], n[[k]], x, y);
  }

  lemma WritableAt(m: Payload, k: char)
    requires Writable(m) && [k] in KEYS
    ensures [k] in m && IsText(m[[k]])
  {
  }

  lemma MembersStep(m: Payload, ks: string)
    requires ks != "" && m.Keys == KEYS && forall k | k in ks :: [k] in KEYS && (k as int) < 128
    ensures [ks[0]] in m && (ks[0] as int) < 128 && forall k | k in ks[1..] :: [k] in KEYS && (k as int) < 128
    ensures Members(m, ks) == [','] + Member(m, ks[0], Members(m, ks[1..]))
  {
    hide Member;
  }

  lemma {:induction false} MembersSplit(m: Payload, n: Payload, ks: string)
    requires Writable(m) && Writable(n) && forall k | k in ks :: [k] in KEYS && (k as int) < 128
    requires Members(m, ks) == Members(n, ks)
    ensures forall k | k in ks :: [k] in m && [k] in n && m[[k]] == n[[k]]
  {
    assert m.Keys == KEYS && n.Keys == KEYS;
    hide *;
    if ks != "" {
      MembersStep(m, ks);
      MembersStep(n, ks);
      WritableAt(m, ks[0]);
      WritableAt(n, ks[0]);
      var x, y := Members(m, ks[1..]), Members(n, ks[1..]);
      Cut([','], Member(m, ks[0], x));
      Cut([','], Member(n, ks[0], y));
      MemberSplits(m, n, ks[0], x, y);
      MembersSplit(m, n, ks[1..]);
      assert forall k | k in ks :: k == ks[0] || k in ks[1..];
    }
  }

  ghost predicate Fields(ks: string) {
    forall k | k in ks :: [k] in KEYS && (k as int) < 128
  }

  lemma Link(m: Payload, k: char, tail: string) returns (ks: string)
    requires m.Keys == KEYS && Fields(tail) && [k] in KEYS && (k as int) < 128
    ensures ks == [k] + tail && Fields(tail) && Fields(ks)
    ensures (forall j | j in tail :: [j] in KEYS && (j as int) < 128) && forall j | j in ks :: [j] in KEYS && (j as int) < 128
    ensures [k] in m && Members(m, ks) == Next(m, k, Members(m, tail))
  {
    ks := [k] + tail;
    assert ks[1..] == tail;
    hide Next;
  }

  lemma NoMembers(m: Payload)
    requires m.Keys == KEYS
    ensures Fields("") && Members(m, "") == "}"
  {
  }

  lemma JsonIs(m: Payload)
    requires m.Keys == KEYS
    ensures forall k | k in {'a', 'c', 'e', 'f', 'i', 'k', 'l', 'n', 'r', 's', 't', 'u', 'v'} ::
      [k] in m && (k as int) < 128
    ensures JsonText(m) == ['{'] + Member(m, 'a', Next(m, 'c', Next(m, 'e', Next(m, 'f', Next(m, 'i', Next(m, 'k',
      Next(m, 'l', Next(m, 'n', Next(m, 'r', Next(m, 's', Next(m, 't', Next(m, 'u', Next(m, 'v', "}")))))))))))))
  {
    LaterKeys();
    hide Member, Next;
  }

  /** Four more members. */
  lemma FourLinks(m: Payload, a: char, b: char, c: char, d: char, tail: string) returns (ks: string)
    requires m.Keys == KEYS && Fields(tail) && forall k | k in {a, b, c, d} :: [k] in KEYS && (k as int) < 128
    ensures ks == [a, b, c, d] + tail && Fields(tail) && Fields(ks)
    ensures (forall j | j in tail :: [j] in KEYS && (j as int) < 128) && forall j | j in ks :: [j] in KEYS && (j as int) < 128
    ensures [a] in m && [b] in m && [c] in m && [d] in m
    ensures Members(m, ks) == Next(m, a, Next(m, b, Next(m, c, Next(m, d, Members(m, tail)))))
  {
    hide *;
    ks := Link(m, d, tail);
    ks := Link(m, c, ks);
    ks := Link(m, b, ks);
    ks := Link(m, a, ks);
  }

  lemma TextIs(m: Payload)
    requires m.Keys == KEYS
    ensures forall k | k in LATER :: [k] in KEYS && (k as int) < 128
    ensures ['a'] in KEYS && JsonText(m) == ['{'] + Member(m, 'a', Members(m, LATER))
  {
    hide *;
    LaterKeys();
    JsonIs(m);
    NoMembers(m);
    var ks := FourLinks(m, 's', 't', 'u', 'v', "");
    ks := FourLinks(m, 'k', 'l', 'n', 'r', ks);
    ks := FourLinks(m, 'c', 'e', 'f', 'i', ks);
    assert ks == LATER;
  }

  /** Two payloads of the issued shape with the same bytes are the same. */
  lemma WriteInjective(m: Payload, n: Payload)
    requires Writable(m) && Writable(n) && Write(m) == Write(n)
    ensures m == n
  {
    assert m.Keys == KEYS && n.Keys == KEYS;
    SameText(JsonText(m), JsonText(n));
    hide *;
    LaterKeys();
    TextIs(m);
    TextIs(n);
    WritableAt(m, 'a');
    WritableAt(n, 'a');
    Cut(['{'], Member(m, 'a', Members(m, LATER)));
    Cut(['{'], Member(n, 'a', Members(n, LATER)));
    MemberSplits(m, n, 'a', Members(m, LATER), Members(n, LATER));
    MembersSplit(m, n, LATER);
    SamePayload(m, n);
  }

  /** What a byte string says, if it is the text of a payload. */
  ghost function Read(bytes: B.Bytes): Option<Payload> {
    if exists m :: Writable(m) && Write(m) == bytes then
      var m :| Writable(m) && Write(m) == bytes;
      Some(m)
    else None
  }

  /** So there is a reader that inverts the writer. */
  lemma ReadWritten(m: Payload)
    requires Writable(m)
    ensures Read(Write(m)) == Some(m)
  {
    var bytes := Write(m);
    assert Writable(m) && Write(m) == bytes;
    hide Write;
    var n := Read(bytes).value;
    WriteInjective(m, n);
  }

  lemma SamePayload(m: Payload, n: Payload)
    requires m.Keys == KEYS && n.Keys == KEYS && ['a'] in m && ['a'] in n && m[['a']] == n[['a']]
    requires forall k | k in LATER :: [k] in m && [k] in n && m[[k]] == n[[k]]
    ensures m == n
  {
    LaterKeys();
    assert ['a'] == "a";
    forall key | key in KEYS
      ensures m[key] == n[key]
    {
      if key != "a" {
        assert key == [key[0]];
      }
    }
  }

  lemma SameText(s: string, t: string)
    requires B.Ascii(s) && B.Ascii(t) && AsBytes(s) == AsBytes(t)
    ensures s == t
  {
    forall i | 0 <= i < |s|
      ensures s[i] == t[i]
    {
      assert AsBytes(s)[i] == AsBytes(t)[i];
    }
  }
}
