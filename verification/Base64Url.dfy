/** Unpadded base64url (section 5 of RFC 4648): the encoder, the lenient decoder of Python's
    `binascii` that both callers go through, and the strict segment decoder on top of it. */
module Base64Url {
  import opened Wrappers

  type Byte = n: nat | n < 256
  type Bytes = seq<Byte>

  function Symbol(n: nat): char
    requires n < 64
  {
    if n < 26 then ('A' as int + n) as char
    else if n < 52 then ('a' as int + (n - 26)) as char
    else if n < 62 then ('0' as int + (n - 52)) as char
    else if n == 62 then '-' else '_'
  }

  predicate InAlphabet(c: char) {
    'A' <= c <= 'Z' || 'a' <= c <= 'z' || '0' <= c <= '9' || c == '-' || c == '_'
  }

  predicate AllInAlphabet(s: string) {
    forall i | 0 <= i < |s| :: InAlphabet(s[i])
  }

  /** The value of a symbol; both the URL-safe and the standard symbols are understood. */
  function Value(c: char): Option<nat> {
    if 'A' <= c <= 'Z' then Some(c as int - 'A' as int)
    else if 'a' <= c <= 'z' then Some(c as int - 'a' as int + 26)
    else if '0' <= c <= '9' then Some(c as int - '0' as int + 52)
    else if c == '-' || c == '+' then Some(62)
    else if c == '_' || c == '/' then Some(63)
    else None
  }

  function Encode(b: Bytes): string {
    if b == [] then ""
    else if |b| == 1 then [Symbol(b[0] / 4), Symbol(b[0] % 4 * 16)]
    else if |b| == 2 then [Symbol(b[0] / 4), Symbol(b[0] % 4 * 16 + b[1] / 16), Symbol(b[1] % 16 * 4)]
    else Group(b[0], b[1], b[2]) + Encode(b[3..])
  }

  /** The four symbols of three bytes. */
  function Group(x: Byte, y: Byte, z: Byte): (r: string)
    ensures |r| == 4
  {
    [Symbol(x / 4), Symbol(x % 4 * 16 + y / 16), Symbol(y % 16 * 4 + z / 64), Symbol(z % 64)]
  }

  /** As many `=` as fill the last group of four. */
  function Padding(length: nat): string {
    match length % 4
    case 0 => ""
    case 1 => "==="
    case 2 => "=="
    case _ => "="
  }

  function Cons(b: nat, rest: Option<Bytes>): Option<Bytes> {
    if rest.None? then None else Some([b % 256] + rest.value)
  }

  /** The decoder's scan: `quad` symbols of the current group are read, `left` holds the bits
      that wait, `pads` counts the pads just seen. Other characters are skipped. */
  function Scan(s: string, quad: nat, left: nat, pads: nat): Option<Bytes> {
    if s == "" then if quad == 0 then Some([]) else None
    else if s[0] == '=' then
      if quad >= 2 && quad + pads + 1 >= 4 then Some([])
      else Scan(s[1..], quad, left, if quad >= 2 then pads + 1 else pads)
    else match Value(s[0])
      case None => Scan(s[1..], quad, left, pads)
      case Some(v) =>
        if quad == 0 then Scan(s[1..], 1, v, 0)
        else if quad == 1 then Cons(left * 4 + v / 16, Scan(s[1..], 2, v % 16, 0))
        else if quad == 2 then Cons(left * 16 + v / 4, Scan(s[1..], 3, v % 4, 0))
        else Cons(left * 64 + v, Scan(s[1..], 0, 0, 0))
  }

  predicate Ascii(s: string) {
    forall i | 0 <= i < |s| :: (s[i] as int) < 128
  }

  /** Decoding after padding on the right; text outside ASCII is an error. */
  function Decode(s: string): Option<Bytes> {
    if !Ascii(s) then None else Scan(s + Padding(|s|), 0, 0, 0)
  }

  datatype SegmentError = InvalidSegment | NonCanonicalSegment

  /** The strict decoder of one segment. */
  function DecodeSegment(s: string, maximum: nat): Result<Bytes, SegmentError> {
    if s == "" || |s| > maximum || !AllInAlphabet(s) then Err(InvalidSegment)
    else
      var decoded := Decode(s);
      if decoded.None? then Err(InvalidSegment)
      else if Encode(decoded.value) != s then Err(NonCanonicalSegment)
      else Ok(decoded.value)
  }

  // --- reading back what was written ---------------------------------------------------------

  lemma SymbolValue(n: nat)
    requires n < 64
    ensures InAlphabet(Symbol(n)) && Value(Symbol(n)) == Some(n) && Symbol(n) != '='
  {
  }

  /** The six-bit parts of three bytes, and the bytes they make up again. */
  lemma Parts(x: Byte, y: Byte, z: Byte)
    ensures x / 4 < 64 && x % 4 * 16 + y / 16 < 64 && y % 16 * 4 + z / 64 < 64 && z % 64 < 64
    ensures x / 4 * 4 + (x % 4 * 16 + y / 16) / 16 == x
    ensures (x % 4 * 16 + y / 16) % 16 * 16 + (y % 16 * 4 + z / 64) / 4 == y
    ensures (y % 16 * 4 + z / 64) % 4 * 64 + z % 64 == z
  {
    assert (x % 4 * 16 + y / 16) / 16 == x % 4 && (x % 4 * 16 + y / 16) % 16 == y / 16;
    assert (y % 16 * 4 + z / 64) / 4 == y % 16 && (y % 16 * 4 + z / 64) % 4 == z / 64;
  }

  lemma GroupAlphabet(x: Byte, y: Byte, z: Byte)
    ensures AllInAlphabet(Group(x, y, z))
  {
    Parts(x, y, z);
    SymbolValue(x / 4);
    SymbolValue(x % 4 * 16 + y / 16);
    SymbolValue(y % 16 * 4 + z / 64);
    SymbolValue(z % 64);
    hide Symbol, InAlphabet, Value;
  }

  /** The last one or two bytes. */
  lemma TailAlphabet(b: Bytes)
    requires 1 <= |b| <= 2
    ensures AllInAlphabet(Encode(b)) && |Encode(b)| == |b| + 1
  {
    var y := if |b| == 2 then b[1] else 0;
    Parts(b[0], y, 0);
    SymbolValue(b[0] / 4);
    SymbolValue(b[0] % 4 * 16 + y / 16);
    SymbolValue(y % 16 * 4);
    hide Symbol, InAlphabet, Value;
  }

  lemma {:induction false} EncodedAlphabet(b: Bytes)
    ensures AllInAlphabet(Encode(b))
    ensures Encode(b) == "" <==> b == []
  {
    if b == [] {
    } else if |b| <= 2 {
      TailAlphabet(b);
      hide *;
    } else {
      EncodeLonger(b);
      hide Encode, Group, InAlphabet;
      GroupAlphabet(b[0], b[1], b[2]);
      EncodedAlphabet(b[3..]);
    }
  }

  /** How long the unpadded encoding of a byte string is. */
  lemma {:induction false} EncodedLength(b: Bytes)
    ensures |Encode(b)| == (4 * |b| + 2) / 3
  {
    hide Symbol;
    if |b| >= 3 {
      EncodedLength(b[3..]);
      assert 4 * |b| + 2 == 4 * |b[3..]| + 2 + 3 * 4;
    }
  }

  /** One symbol of value `v` in each position of a group. */
  lemma ScanSymbol(v: nat, s: string, quad: nat, left: nat)
    requires v < 64 && quad < 4
    ensures Scan([Symbol(v)] + s, quad, left, 0) ==
      if quad == 0 then Scan(s, 1, v, 0)
      else if quad == 1 then Cons(left * 4 + v / 16, Scan(s, 2, v % 16, 0))
      else if quad == 2 then Cons(left * 16 + v / 4, Scan(s, 3, v % 4, 0))
      else Cons(left * 64 + v, Scan(s, 0, 0, 0))
  {
    SymbolValue(v);
    hide Symbol, Value;
    assert ([Symbol(v)] + s)[0] == Symbol(v) && ([Symbol(v)] + s)[1..] == s;
  }

  lemma ScanGroup(x: Byte, y: Byte, z: Byte, s: string)
    ensures Scan(Group(x, y, z) + s, 0, 0, 0)
         == Cons(x, Cons(y, Cons(z, Scan(s, 0, 0, 0))))
  {
    Parts(x, y, z);
    ScanFour(x / 4, x % 4 * 16 + y / 16, y % 16 * 4 + z / 64, z % 64, s);
    hide Symbol, Scan, Cons;
  }

  lemma ScanFour(c0: nat, c1: nat, c2: nat, c3: nat, s: string)
    requires c0 < 64 && c1 < 64 && c2 < 64 && c3 < 64
    ensures Scan([Symbol(c0), Symbol(c1), Symbol(c2), Symbol(c3)] + s, 0, 0, 0)
         == Cons(c0 * 4 + c1 / 16, Cons(c1 % 16 * 16 + c2 / 4, Cons(c2 % 4 * 64 + c3, Scan(s, 0, 0, 0))))
  {
    hide *;
    ScanSymbol(c3, s, 3, c2 % 4);
    ScanSymbol(c2, [Symbol(c3)] + s, 2, c1 % 16);
    ScanSymbol(c1, [Symbol(c2)] + ([Symbol(c3)] + s), 1, c0);
    ScanSymbol(c0, [Symbol(c1)] + ([Symbol(c2)] + ([Symbol(c3)] + s)), 0, 0);
    assert [Symbol(c0), Symbol(c1), Symbol(c2), Symbol(c3)] + s
        == [Symbol(c0)] + ([Symbol(c1)] + ([Symbol(c2)] + ([Symbol(c3)] + s)));
  }

  lemma ScanPads()
    ensures forall left :: Scan("==", 2, left, 0) == Some([])
    ensures forall left :: Scan("=", 3, left, 0) == Some([])
  {
    forall left
      ensures Scan("==", 2, left, 0) == Some([])
    {
      assert "=="[1..] == "=";
      assert Scan("=", 2, left, 1) == Some([]);
    }
  }

  lemma ScanOne(x: Byte)
    ensures Scan([Symbol(x / 4), Symbol(x % 4 * 16)] + "==", 0, 0, 0) == Cons(x, Some([]))
  {
    var c0, c1 := x / 4, x % 4 * 16;
    Parts(x, 0, 0);
    ScanPads();
    hide *;
    ScanSymbol(c1, "==", 1, c0);
    ScanSymbol(c0, [Symbol(c1)] + "==", 0, 0);
    assert [Symbol(c0), Symbol(c1)] + "==" == [Symbol(c0)] + ([Symbol(c1)] + "==");
  }

  lemma ScanTwo(x: Byte, y: Byte)
    ensures Scan([Symbol(x / 4), Symbol(x % 4 * 16 + y / 16), Symbol(y % 16 * 4)] + "=", 0, 0, 0)
         == Cons(x, Cons(y, Some([])))
  {
    var c0, c1, c2 := x / 4, x % 4 * 16 + y / 16, y % 16 * 4;
    Parts(x, y, 0);
    ScanPads();
    hide *;
    ScanSymbol(c2, "=", 2, c1 % 16);
    ScanSymbol(c1, [Symbol(c2)] + "=", 1, c0);
    ScanSymbol(c0, [Symbol(c1)] + ([Symbol(c2)] + "="), 0, 0);
    assert [Symbol(c0), Symbol(c1), Symbol(c2)] + "=" == [Symbol(c0)] + ([Symbol(c1)] + ([Symbol(c2)] + "="));
  }

  lemma {:induction false} ScanEncoded(b: Bytes)
    ensures Scan(Encode(b) + Padding(|Encode(b)|), 0, 0, 0) == Some(b)
  {
    hide Scan, Symbol;
    if b == [] {
      assert Encode(b) + Padding(0) == "";
      ScanNothing();
    } else if |b| == 1 {
      ScanOne(b[0]);
      assert Encode(b) == [Symbol(b[0] / 4), Symbol(b[0] % 4 * 16)] && Padding(2) == "==";
      assert [b[0]] + [] == b;
    } else if |b| == 2 {
      ScanTwo(b[0], b[1]);
      assert [b[0]] + ([b[1]] + []) == b;
    } else {
      ScanEncoded(b[3..]);
      ScanLonger(b);
    }
  }

  lemma ScanLonger(b: Bytes)
    requires |b| >= 3 && Scan(Encode(b[3..]) + Padding(|Encode(b[3..])|), 0, 0, 0) == Some(b[3..])
    ensures Scan(Encode(b) + Padding(|Encode(b)|), 0, 0, 0) == Some(b)
  {
    hide *;
    var rest := Encode(b[3..]);
    EncodeLonger(b);
    ScanGroup(b[0], b[1], b[2], rest + Padding(|rest|));
    ConsThree(b);
    assert Group(b[0], b[1], b[2]) + rest + Padding(|rest|) == Group(b[0], b[1], b[2]) + (rest + Padding(|rest|));
  }

  lemma EncodeLonger(b: Bytes)
    requires |b| >= 3
    ensures Encode(b) == Group(b[0], b[1], b[2]) + Encode(b[3..])
    ensures Padding(|Encode(b)|) == Padding(|Encode(b[3..])|)
  {
    hide Symbol, Group, Padding;
    PaddingPeriod(|Encode(b[3..])|);
  }

  lemma PaddingPeriod(n: nat)
    ensures Padding(4 + n) == Padding(n)
  {
    assert (4 + n) % 4 == n % 4;
  }

  lemma ConsThree(b: Bytes)
    requires |b| >= 3
    ensures Cons(b[0], Cons(b[1], Cons(b[2], Some(b[3..])))) == Some(b)
  {
    assert [b[0]] + ([b[1]] + ([b[2]] + b[3..])) == b;
  }

  lemma ScanNothing()
    ensures Scan("", 0, 0, 0) == Some([])
  {
  }

  lemma AlphabetIsAscii(s: string)
    requires AllInAlphabet(s)
    ensures Ascii(s) && '.' !in s
  {
  }

  /** Decoding inverts encoding. */
  lemma DecodeEncode(b: Bytes)
    ensures Decode(Encode(b)) == Some(b) && '.' !in Encode(b)
  {
    EncodedAlphabet(b);
    ScanEncoded(b);
    hide Scan, Encode, Padding, InAlphabet;
    AlphabetIsAscii(Encode(b));
  }

  /** The strict decoder accepts exactly the encodings of non-empty byte strings within the bound. */
  lemma SegmentIff(s: string, maximum: nat, b: Bytes)
    ensures DecodeSegment(s, maximum) == Ok(b) <==> s == Encode(b) && b != [] && |s| <= maximum
  {
    DecodeEncode(b);
    EncodedAlphabet(b);
    hide Decode, Encode, InAlphabet;
    if DecodeSegment(s, maximum) == Ok(b) {
      assert s == Encode(b);
    }
  }

  /** There is one segment for each byte string and one byte string for each segment. */
  lemma OneSegmentPerBytes(s: string, t: string, m: nat, n: nat)
    requires DecodeSegment(s, m).Ok? && DecodeSegment(t, n).Ok?
    ensures DecodeSegment(s, m).value == DecodeSegment(t, n).value <==> s == t
  {
    SegmentIff(s, m, DecodeSegment(s, m).value);
    SegmentIff(t, n, DecodeSegment(t, n).value);
    DecodeEncode(DecodeSegment(s, m).value);
    DecodeEncode(DecodeSegment(t, n).value);
    hide DecodeSegment, Decode, Encode;
  }
}
