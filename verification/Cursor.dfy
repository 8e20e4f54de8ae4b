/** The opaque, signed page cursor that is bound to a customer, an employee, an authorisation,
    the filters and the page size, and how long it gets. Reading JSON, timestamps, the MAC and
    the hash are parameters. */
module Cursor {
  import opened Wrappers
  import opened Ordering
  import T = Text
  import B = Base64Url
  import J = CanonicalJson

  type Time = int
  type Uuid = n: nat | n < 0x1_0000_0000_0000_0000_0000_0000_0000_0000

  const MAXIMUM_SIZE := 512

  datatype Key = Key(id: string, raw: B.Bytes)
  datatype Keyring = Keyring(active: Key, previous: seq<Key>, ttl: nat)

  datatype Position = Position(ceiling: Time, submitted: Time, requestId: Uuid)
  datatype Bindings = Bindings(customer: string, employee: string, entities: seq<string>, snapshot: string,
                               filters: string, limit: nat)

  /** A JSON member value, as far as the checks can tell values apart. */
  datatype Value = Num(n: int) | Str(s: string) | Null | OtherValue
  type Payload = map<string, Value>

  datatype Primitives = Primitives(mac: (B.Bytes, string) -> B.Bytes, sha: string -> B.Bytes,
                                   read: B.Bytes -> Option<Payload>,
                                   iso: Time -> string, fromIso: string -> Option<Time>,
                                   hex: Uuid -> string, fromHex: string -> Option<Uuid>)

  datatype CursorError = InvalidCursor | UncaughtAttributeError

  function Short(b: B.Bytes): (r: B.Bytes)
    ensures r <= b && |r| == if |b| < 16 then |b| else 16
  {
    if |b| <= 16 then b else b[..16]
  }

  function DigestOf(p: Primitives, s: string): string {
    B.Encode(Short(p.sha(s)))
  }

  function Binding(p: Primitives, key: B.Bytes, s: string): string {
    B.Encode(Short(p.mac(key, s)))
  }

  function EntitiesText(entities: seq<string>): string {
    T.Join(Sort(entities, StringLe), "\0")
  }

  const KEYS: set<string> := {"v", "k", "i", "e", "s", "t", "r", "f", "c", "u", "l", "a", "n"}

  function PayloadOf(p: Primitives, key: Key, now: int, expiry: int, b: Bindings, at: Position): (r: Payload)
    ensures r.Keys == KEYS
  {
    map["v" := Num(1), "k" := Str(key.id), "i" := Num(now), "e" := Num(expiry),
        "s" := Str(p.iso(at.ceiling)), "t" := Str(p.iso(at.submitted)), "r" := Str(p.hex(at.requestId)),
        "f" := Str(b.filters), "c" := Str(Binding(p, key.raw, b.customer)),
        "u" := Str(Binding(p, key.raw, b.employee)), "l" := Str(DigestOf(p, EntitiesText(b.entities))),
        "a" := Str(Binding(p, key.raw, b.snapshot)), "n" := Num(b.limit)]
  }

  // --- the text of a payload -----------------------------------------------------------------

  function Unit(n: nat): (r: string)
    ensures |r| == 6 && B.Ascii(r)
  {
    ['\\', 'u', Hex(n / 4096 % 16), Hex(n / 256 % 16), Hex(n / 16 % 16), Hex(n % 16)]
  }

  function Hex(n: nat): (r: char)
    requires n < 16
    ensures (r as int) < 128
  {
    J.HexDigit(n)
  }

  /** Everything outside printable ASCII is escaped, above U+FFFF as a pair of surrogates. */
  function Escape(c: char): (r: string)
    ensures B.Ascii(r)
  {
    if c == '\"' then "\\\"" else if c == '\\' then "\\\\"
    else if c == '\n' then "\\n" else if c == '\r' then "\\r" else if c == '\t' then "\\t"
    else if c as int == 8 then "\\b" else if c as int == 12 then "\\f"
    else if ' ' <= c <= '~' then [c]
    else if (c as int) < 0x1_0000 then Unit(c as int)
    else Unit(0xD800 + (c as int - 0x1_0000) / 1024) + Unit(0xDC00 + (c as int - 0x1_0000) % 1024)
  }

  function Escaped(s: string): (r: string)
    ensures B.Ascii(r)
  {
    if s == "" then "" else Escape(s[0]) + Escaped(s[1..])
  }

  function ValueText(v: Value): (r: string)
    ensures B.Ascii(r)
  {
    match v
    case Num(n) => NumberText(n)
    case Str(s) => "\"" + Escaped(s) + "\""
    case _ => "null"
  }

  function NumberText(n: int): (r: string)
    ensures B.Ascii(r)
  {
    if n < 0 then "-" + J.Digits(-n) else J.Digits(n)
  }

  /** One member and what follows it. */
  function Member(m: Payload, k: char, rest: string): (r: string)
    requires [k] in m && (k as int) < 128 && B.Ascii(rest)
    ensures B.Ascii(r) && |r| == 4 + |ValueText(m[[k]])| + |rest|
  {
    ['\"', k, '\"', ':'] + ValueText(m[[k]]) + rest
  }

  function Next(m: Payload, k: char, rest: string): (r: string)
    requires [k] in m && (k as int) < 128 && B.Ascii(rest)
    ensures B.Ascii(r) && |r| == 5 + |ValueText(m[[k]])| + |rest|
  {
    "," + Member(m, k, rest)
  }

  /** Compact JSON with sorted members, in ASCII. */
  function JsonText(m: Payload): (r: string)
    requires m.Keys == KEYS
    ensures B.Ascii(r)
  {
    assert "a" in KEYS && "c" in KEYS && "e" in KEYS && "f" in KEYS && "i" in KEYS && "k" in KEYS && "l" in KEYS;
    assert "n" in KEYS && "r" in KEYS && "s" in KEYS && "t" in KEYS && "u" in KEYS && "v" in KEYS;
    "{" + Member(m, 'a', Next(m, 'c', Next(m, 'e', Next(m, 'f', Next(m, 'i', Next(m, 'k', Next(m, 'l',
      Next(m, 'n', Next(m, 'r', Next(m, 's', Next(m, 't', Next(m, 'u', Next(m, 'v', "}")))))))))))))
  }

  function AsBytes(s: string): (r: B.Bytes)
    requires B.Ascii(s)
    ensures |r| == |s|
  {
    seq(|s|, i requires 0 <= i < |s| => s[i] as int)
  }

  function Write(m: Payload): B.Bytes
    requires m.Keys == KEYS
  {
    AsBytes(JsonText(m))
  }

  function Body(p: Primitives, ring: Keyring, now: int, b: Bindings, at: Position): string {
    B.Encode(Write(PayloadOf(p, ring.active, now, now + ring.ttl, b, at)))
  }

  function Encode(p: Primitives, ring: Keyring, now: int, b: Bindings, at: Position): Result<string, CursorError> {
    var body := Body(p, ring, now, b, at);
    var cursor := body + "." + B.Encode(p.mac(ring.active.raw, body));
    if |cursor| > MAXIMUM_SIZE then Err(InvalidCursor) else Ok(cursor)
  }

  /** The position of the first dot, or the length. */
  function Dot(s: string): (n: nat)
    ensures n <= |s| && '.' !in s[..n] && (n < |s| ==> s[n] == '.')
  {
    if s == "" || s[0] == '.' then 0
    else
      var n := 1 + Dot(s[1..]);
      assert s[..n] == [s[0]] + s[1..][..n - 1];
      n
  }

  function Find(keys: seq<Key>, id: string): Option<Key> {
    if keys == [] then None else if keys[0].id == id then Some(keys[0]) else Find(keys[1..], id)
  }

  function Keys(ring: Keyring): seq<Key> {
    [ring.active] + ring.previous
  }

  /** The text before the dot, if its signature is the right one, with its payload and key. */
  function Authentic(p: Primitives, ring: Keyring, cursor: string): Option<(Payload, Key)> {
    var n := Dot(cursor);
    if |cursor| > MAXIMUM_SIZE || n == |cursor| || '.' in cursor[n + 1..] then None
    else
      var raw := B.Decode(cursor[..n]);
      if raw.None? then None
      else
        var payload := p.read(raw.value);
        if payload.None? || "k" !in payload.value || !payload.value["k"].Str? then None
        else
          var key := Find(Keys(ring), payload.value["k"].s);
          if key.None? then None
          else if B.Decode(cursor[n + 1..]) != Some(p.mac(key.value.raw, cursor[..n])) then None
          else Some((payload.value, key.value))
  }

  /** The payload has exactly its fields, is alive, and carries the caller's bindings. */
  predicate Bound(p: Primitives, payload: Payload, key: Key, now: int, b: Bindings) {
    && payload.Keys == KEYS && payload["v"] == Num(1)
    && payload["i"].Num? && payload["e"].Num? && payload["i"].n <= now <= payload["e"].n
    && payload["f"] == Str(b.filters) && payload["c"] == Str(Binding(p, key.raw, b.customer))
    && payload["u"] == Str(Binding(p, key.raw, b.employee))
    && payload["l"] == Str(DigestOf(p, EntitiesText(b.entities)))
    && payload["a"] == Str(Binding(p, key.raw, b.snapshot)) && payload["n"] == Num(b.limit)
  }

  function ReadTime(p: Primitives, v: Value): Option<Time> {
    if v.Str? then p.fromIso(v.s) else None
  }

  function Decode(p: Primitives, ring: Keyring, now: int, b: Bindings, cursor: string): Result<Position, CursorError> {
    var found := Authentic(p, ring, cursor);
    if found.None? then Err(InvalidCursor)
    else
      var (payload, key) := found.value;
      if !Bound(p, payload, key, now, b) then Err(InvalidCursor)
      else
        var ceiling, submitted := ReadTime(p, payload["s"]), ReadTime(p, payload["t"]);
        if ceiling.None? || submitted.None? then Err(InvalidCursor)
        else if payload["r"].Null? then Err(InvalidCursor)
        else if !payload["r"].Str? then Err(UncaughtAttributeError)
        else
          var id := p.fromHex(payload["r"].s);
          if id.None? then Err(InvalidCursor)
          else Ok(Position(ceiling.value, submitted.value, id.value))
  }

  // --- what is assumed of the primitives -----------------------------------------------------

  /** Payloads of the shape that is issued. */
  ghost predicate Writable(m: Payload) {
    m.Keys == KEYS && forall k | k in m :: m[k].Num? || m[k].Str?
  }

  /** JSON, timestamps and identifiers read back what was written. */
  ghost predicate Faithful(p: Primitives) {
    && (forall m | Writable(m) :: p.read(Write(m)) == Some(m))
    && (forall t :: p.fromIso(p.iso(t)) == Some(t))
    && (forall u: Uuid :: p.fromHex(p.hex(u)) == Some(u))
  }

  /** The shortened MACs and digests of these two sets of bindings do not collide. */
  ghost predicate NoCollision(p: Primitives, key: B.Bytes, b: Bindings, c: Bindings) {
    && MacApart(p, key, b.customer, c.customer) && MacApart(p, key, b.employee, c.employee)
    && MacApart(p, key, b.snapshot, c.snapshot)
    && (Short(p.sha(EntitiesText(b.entities))) == Short(p.sha(EntitiesText(c.entities))) ==>
          EntitiesText(b.entities) == EntitiesText(c.entities))
  }

  predicate MacApart(p: Primitives, key: B.Bytes, x: string, y: string) {
    Short(p.mac(key, x)) == Short(p.mac(key, y)) ==> x == y
  }

  /** No other key of that id signs this text in the same way. */
  ghost predicate OnlySigner(p: Primitives, ring: Keyring, key: Key, text: string) {
    var other := Find(Keys(ring), key.id);
    other.Some? && p.mac(other.value.raw, text) == p.mac(key.raw, text) ==> other.value.raw == key.raw
  }

  /** Identifiers are not empty and hold no NUL. */
  ghost predicate Identifiers(ids: seq<string>) {
    forall i | 0 <= i < |ids| :: ids[i] != "" && '\0' !in ids[i]
  }

  // --- the entity list -----------------------------------------------------------------------

  lemma SameUpToNul(a: string, b: string, x: string, y: string)
    requires '\0' !in a && '\0' !in b && a + ['\0'] + x == b + ['\0'] + y
    ensures a == b && x == y
  {
    var s := a + ['\0'] + x;
    assert s[|a|] == '\0' && (b + ['\0'] + y)[|b|] == '\0';
    assert forall i | 0 <= i < |a| :: s[i] == a[i] && a[i] in a;
    assert forall i | 0 <= i < |b| :: (b + ['\0'] + y)[i] == b[i] && b[i] in b;
    assert |a| == |b|;
    assert a == s[..|a|] && b == s[..|b|] && x == s[|a| + 1..] && y == s[|b| + 1..];
  }

  lemma JoinStep(ids: seq<string>)
    requires |ids| >= 2
    ensures T.Join(ids, "\0") == ids[0] + ['\0'] + T.Join(ids[1..], "\0")
  {
    assert "\0" == ['\0'];
  }

  lemma JoinOne(ids: seq<string>)
    requires |ids| == 1
    ensures T.Join(ids, "\0") == ids[0]
  {
  }

  lemma NoNul(a: string, b: string, x: string)
    requires '\0' !in a
    ensures a != b + ['\0'] + x
  {
    assert (b + ['\0'] + x)[|b|] == '\0';
  }

  lemma {:induction false} JoinInjective(a: seq<string>, b: seq<string>)
    requires Identifiers(a) && Identifiers(b) && T.Join(a, "\0") == T.Join(b, "\0")
    ensures a == b
  {
    hide T.Join;
    if a == [] || b == [] {
      JoinEmpty(a);
      JoinEmpty(b);
    } else if |a| == 1 && |b| == 1 {
      JoinOne(a);
      JoinOne(b);
    } else if |a| == 1 {
      JoinOne(a);
      JoinStep(b);
      NoNul(a[0], b[0], T.Join(b[1..], "\0"));
    } else if |b| == 1 {
      JoinOne(b);
      JoinStep(a);
      NoNul(b[0], a[0], T.Join(a[1..], "\0"));
    } else {
      JoinStep(a);
      JoinStep(b);
      SameUpToNul(a[0], b[0], T.Join(a[1..], "\0"), T.Join(b[1..], "\0"));
      JoinInjective(a[1..], b[1..]);
      assert a == [a[0]] + a[1..] && b == [b[0]] + b[1..];
    }
  }

  lemma JoinEmpty(a: seq<string>)
    requires Identifiers(a)
    ensures T.Join(a, "\0") == "" <==> a == []
  {
    if |a| == 1 {
      JoinOne(a);
    } else if |a| >= 2 {
      JoinStep(a);
    }
  }

  /** The entity text forgets the order of the entities and nothing else. */
  lemma EntitiesTextIff(a: seq<string>, b: seq<string>)
    requires Identifiers(a) && Identifiers(b)
    ensures EntitiesText(a) == EntitiesText(b) <==> multiset(a) == multiset(b)
  {
    var x, y := Sort(a, StringLe), Sort(b, StringLe);
    SortedIdentifiers(a);
    SortedIdentifiers(b);
    hide Sort, T.Join, Identifiers;
    if multiset(a) == multiset(b) {
      StringOrder(a);
      SortCanonical(a, b, StringLe);
    }
    if EntitiesText(a) == EntitiesText(b) {
      JoinInjective(x, y);
    }
  }

  lemma SortedIdentifiers(a: seq<string>)
    requires Identifiers(a)
    ensures Identifiers(Sort(a, StringLe)) && multiset(Sort(a, StringLe)) == multiset(a)
  {
    var s := Sort(a, StringLe);
    SameElements(a, s);
    hide Sort;
    forall i | 0 <= i < |s|
      ensures s[i] != "" && '\0' !in s[i]
    {
      assert s[i] in a;
    }
  }

  // --- round trip ----------------------------------------------------------------------------

  lemma PayloadFields(p: Primitives, key: Key, now: int, expiry: int, b: Bindings, at: Position)
    ensures var m := PayloadOf(p, key, now, expiry, b, at);
      && m.Keys == KEYS && Writable(m)
      && m["v"] == Num(1) && m["k"] == Str(key.id) && m["i"] == Num(now) && m["e"] == Num(expiry)
      && m["s"] == Str(p.iso(at.ceiling)) && m["t"] == Str(p.iso(at.submitted)) && m["r"] == Str(p.hex(at.requestId))
      && m["f"] == Str(b.filters) && m["c"] == Str(Binding(p, key.raw, b.customer))
      && m["u"] == Str(Binding(p, key.raw, b.employee)) && m["l"] == Str(DigestOf(p, EntitiesText(b.entities)))
      && m["a"] == Str(Binding(p, key.raw, b.snapshot)) && m["n"] == Num(b.limit)
  {
    hide Binding, DigestOf, EntitiesText;
  }

  lemma DotOf(body: string, rest: string)
    requires '.' !in body
    ensures var s := body + "." + rest;
      Dot(s) == |body| && s[..|body|] == body && s[|body| + 1..] == rest
  {
    var s := body + "." + rest;
    assert s[|body|] == '.';
    assert forall i | 0 <= i < |body| :: s[i] == body[i] && body[i] in body;
    DotAt(s, |body|);
    assert s[..|body|] == body;
  }

  lemma {:induction false} DotAt(s: string, n: nat)
    requires n < |s| && s[n] == '.' && forall i | 0 <= i < n :: s[i] != '.'
    ensures Dot(s) == n
  {
    if n > 0 {
      DotAt(s[1..], n - 1);
    }
  }

  /** How a text of two parts is authenticated. */
  lemma AuthenticParts(p: Primitives, ring: Keyring, body: string, signature: string, payload: Payload, id: string)
    requires '.' !in body && '.' !in signature && |body + "." + signature| <= MAXIMUM_SIZE
    requires B.Decode(body).Some? && p.read(B.Decode(body).value) == Some(payload)
    requires "k" in payload && payload["k"] == Str(id)
    ensures Authentic(p, ring, body + "." + signature) ==
      var key := Find(Keys(ring), id);
      if key.None? || B.Decode(signature) != Some(p.mac(key.value.raw, body)) then None
      else Some((payload, key.value))
  {
    DotOf(body, signature);
    hide B.Decode, Find, Dot, Keys;
  }

  lemma EncodeParts(p: Primitives, ring: Keyring, now: int, b: Bindings, at: Position)
    requires Encode(p, ring, now, b, at).Ok?
    ensures var body := Body(p, ring, now, b, at);
      var cursor := body + "." + B.Encode(p.mac(ring.active.raw, body));
      && body == B.Encode(Write(PayloadOf(p, ring.active, now, now + ring.ttl, b, at)))
      && Encode(p, ring, now, b, at).value == cursor && |cursor| <= MAXIMUM_SIZE
  {
    hide PayloadOf, B.Encode;
  }

  lemma SignsAlone(p: Primitives, ring: Keyring, key: Key, text: string)
    requires OnlySigner(p, ring, key, text)
    ensures var other := Find(Keys(ring), key.id);
      other.Some? && p.mac(other.value.raw, text) == p.mac(key.raw, text) ==> other.value.raw == key.raw
  {
  }

  lemma ReadsBack(p: Primitives, payload: Payload)
    requires Faithful(p) && Writable(payload)
    ensures p.read(Write(payload)) == Some(payload)
  {
  }

  /** What authentication makes of a cursor that this program issued. */
  lemma IssuedIsAuthentic(p: Primitives, ring: Keyring, now: int, b: Bindings, at: Position, other: Keyring)
    requires Faithful(p) && OnlySigner(p, other, ring.active, Body(p, ring, now, b, at))
    requires Encode(p, ring, now, b, at).Ok?
    ensures Authentic(p, other, Encode(p, ring, now, b, at).value) ==
      if Find(Keys(other), ring.active.id) == Some(ring.active)
      then Some((PayloadOf(p, ring.active, now, now + ring.ttl, b, at), ring.active)) else None
  {
    var body := Body(p, ring, now, b, at);
    var signature := B.Encode(p.mac(ring.active.raw, body));
    var payload := PayloadOf(p, ring.active, now, now + ring.ttl, b, at);
    var key := Find(Keys(other), ring.active.id);
    hide *;
    EncodeParts(p, ring, now, b, at);
    SignsAlone(p, other, ring.active, body);
    PayloadFields(p, ring.active, now, now + ring.ttl, b, at);
    ReadsBack(p, payload);
    B.DecodeEncode(Write(payload));
    B.DecodeEncode(p.mac(ring.active.raw, body));
    FoundId(Keys(other), ring.active.id);
    KeyIn(payload);
    AuthenticParts(p, other, body, signature, payload, ring.active.id);
  }

  lemma KeyIn(payload: Payload)
    requires payload.Keys == KEYS
    ensures "k" in payload && "s" in payload && "t" in payload && "r" in payload
  {
    assert "k" in KEYS && "s" in KEYS && "t" in KEYS && "r" in KEYS;
  }

  lemma {:induction false} FoundId(keys: seq<Key>, id: string)
    ensures Find(keys, id).Some? ==> Find(keys, id).value.id == id
  {
    if keys != [] {
      FoundId(keys[1..], id);
    }
  }

  /** Same customer, employee, authorisation, filters, page size and set of entities. */
  ghost predicate SameBindings(a: Bindings, b: Bindings) {
    && a.customer == b.customer && a.employee == b.employee && multiset(a.entities) == multiset(b.entities)
    && a.snapshot == b.snapshot && a.filters == b.filters && a.limit == b.limit
  }

  lemma EncodeInjective(x: B.Bytes, y: B.Bytes)
    requires B.Encode(x) == B.Encode(y)
    ensures x == y
  {
    B.DecodeEncode(x);
    B.DecodeEncode(y);
  }

  lemma BindingIff(p: Primitives, key: B.Bytes, x: string, y: string)
    requires MacApart(p, key, x, y)
    ensures Binding(p, key, x) == Binding(p, key, y) <==> x == y
  {
    hide B.Encode;
    if Binding(p, key, x) == Binding(p, key, y) {
      EncodeInjective(Short(p.mac(key, x)), Short(p.mac(key, y)));
    }
  }

  lemma DigestIff(p: Primitives, x: string, y: string)
    requires Short(p.sha(x)) == Short(p.sha(y)) ==> x == y
    ensures DigestOf(p, x) == DigestOf(p, y) <==> x == y
  {
    hide B.Encode;
    if DigestOf(p, x) == DigestOf(p, y) {
      EncodeInjective(Short(p.sha(x)), Short(p.sha(y)));
    }
  }

  lemma BoundIff(p: Primitives, key: Key, issued: int, expiry: int, b: Bindings, at: Position, now: int, c: Bindings)
    requires NoCollision(p, key.raw, b, c) && Identifiers(b.entities) && Identifiers(c.entities)
    ensures Bound(p, PayloadOf(p, key, issued, expiry, b, at), key, now, c) <==>
      issued <= now <= expiry && SameBindings(b, c)
  {
    PayloadFields(p, key, issued, expiry, b, at);
    hide PayloadOf, Binding, DigestOf, EntitiesText, Identifiers, MacApart;
    BindingIff(p, key.raw, b.customer, c.customer);
    BindingIff(p, key.raw, b.employee, c.employee);
    BindingIff(p, key.raw, b.snapshot, c.snapshot);
    DigestIff(p, EntitiesText(b.entities), EntitiesText(c.entities));
    EntitiesTextIff(b.entities, c.entities);
  }

  lemma DecodeAuthentic(p: Primitives, ring: Keyring, now: int, c: Bindings, cursor: string, payload: Payload, key: Key,
                        at: Position)
    requires Authentic(p, ring, cursor) == Some((payload, key))
    requires payload.Keys == KEYS && "s" in payload && "t" in payload && "r" in payload
    requires ReadTime(p, payload["s"]) == Some(at.ceiling) && ReadTime(p, payload["t"]) == Some(at.submitted)
    requires payload["r"].Str? && p.fromHex(payload["r"].s) == Some(at.requestId)
    ensures Decode(p, ring, now, c, cursor) == if Bound(p, payload, key, now, c) then Ok(at) else Err(InvalidCursor)
  {
    hide Bound, Authentic, ReadTime;
  }

  lemma TimeReads(p: Primitives, t: Time, u: Uuid)
    requires Faithful(p)
    ensures ReadTime(p, Str(p.iso(t))) == Some(t) && p.fromHex(p.hex(u)) == Some(u)
  {
  }

  lemma NotAuthentic(p: Primitives, ring: Keyring, now: int, c: Bindings, cursor: string)
    requires Authentic(p, ring, cursor) == None
    ensures Decode(p, ring, now, c, cursor) == Err(InvalidCursor)
  {
  }

  /** A cursor that was issued is accepted exactly while it is alive, by a keyring that still
      knows its key, for the very bindings it was issued for, in any order of the entities; then
      it yields the position it was issued for, and otherwise the documented error. */
  lemma DecodeIssued(p: Primitives, ring: Keyring, issued: int, b: Bindings, at: Position,
                     other: Keyring, now: int, c: Bindings)
    requires Faithful(p) && NoCollision(p, ring.active.raw, b, c)
    requires OnlySigner(p, other, ring.active, Body(p, ring, issued, b, at))
    requires Identifiers(b.entities) && Identifiers(c.entities)
    requires Encode(p, ring, issued, b, at).Ok?
    ensures Decode(p, other, now, c, Encode(p, ring, issued, b, at).value) ==
      if Find(Keys(other), ring.active.id) == Some(ring.active)
         && issued <= now <= issued + ring.ttl && SameBindings(b, c)
      then Ok(at) else Err(InvalidCursor)
  {
    hide *;
    var payload := PayloadOf(p, ring.active, issued, issued + ring.ttl, b, at);
    var cursor := Encode(p, ring, issued, b, at).value;
    IssuedIsAuthentic(p, ring, issued, b, at, other);
    if Authentic(p, other, cursor).None? {
      NotAuthentic(p, other, now, c, cursor);
    } else {
      BoundIff(p, ring.active, issued, issued + ring.ttl, b, at, now, c);
      PayloadFields(p, ring.active, issued, issued + ring.ttl, b, at);
      KeyIn(payload);
      TimeReads(p, at.ceiling, at.requestId);
      TimeReads(p, at.submitted, at.requestId);
      DecodeAuthentic(p, other, now, c, cursor, payload, ring.active, at);
    }
  }

  // --- how long a cursor gets ----------------------------------------------------------------

  /** Printable ASCII that JSON writes as it is. */
  predicate Plain(s: string) {
    forall i | 0 <= i < |s| :: ' ' <= s[i] <= '~' && s[i] != '\"' && s[i] != '\\'
  }

  /** MACs and digests have 32 bytes, identifiers 32 digits, and timestamps need no escape. */
  ghost predicate Sized(p: Primitives) {
    && (forall k: B.Bytes, s: string :: |p.mac(k, s)| == 32) && (forall s :: |p.sha(s)| == 32)
    && (forall t :: Plain(p.iso(t))) && (forall u: Uuid :: Plain(p.hex(u)) && |p.hex(u)| == 32)
  }

  lemma {:induction false} EscapedPlain(s: string)
    requires Plain(s)
    ensures Escaped(s) == s
  {
    if s != "" {
      EscapedPlain(s[1..]);
      assert s == [s[0]] + s[1..];
    }
  }

  lemma {:induction false} PlainSymbols(s: string)
    requires B.AllInAlphabet(s)
    ensures Plain(s)
  {
  }

  /** Shortened digests and MACs take 22 symbols and need no escape. */
  lemma ShortText(b: B.Bytes)
    requires |b| == 32
    ensures var s := B.Encode(Short(b)); |s| == 22 && Escaped(s) == s
  {
    B.EncodedLength(Short(b));
    B.EncodedAlphabet(Short(b));
    hide B.Encode, Escaped;
    PlainSymbols(B.Encode(Short(b)));
    EscapedPlain(B.Encode(Short(b)));
  }

  lemma TextSize(m: Payload)
    requires m.Keys == KEYS && forall k | k in KEYS :: k in m
    ensures |JsonText(m)| == 66 + |ValueText(m["a"])| + |ValueText(m["c"])| + |ValueText(m["e"])|
      + |ValueText(m["f"])| + |ValueText(m["i"])| + |ValueText(m["k"])| + |ValueText(m["l"])|
      + |ValueText(m["n"])| + |ValueText(m["r"])| + |ValueText(m["s"])| + |ValueText(m["t"])|
      + |ValueText(m["u"])| + |ValueText(m["v"])|
  {
    hide ValueText, Member, Next;
  }

  lemma TimeText(p: Primitives, t: Time, u: Uuid)
    requires Sized(p)
    ensures |ValueText(Str(p.iso(t)))| == 2 + |p.iso(t)| && |ValueText(Str(p.hex(u)))| == 34
  {
    EscapedPlain(p.iso(t));
    EscapedPlain(p.hex(u));
    hide Escaped;
  }

  lemma BindingText(p: Primitives, key: B.Bytes, s: string)
    requires Sized(p)
    ensures |ValueText(Str(Binding(p, key, s)))| == 24 && |ValueText(Str(DigestOf(p, s)))| == 24
    ensures |DigestOf(p, s)| == 22 && Escaped(DigestOf(p, s)) == DigestOf(p, s)
  {
    ShortText(p.mac(key, s));
    ShortText(p.sha(s));
    hide B.Encode, Escaped;
  }

  /** The parts of a payload that can vary in length, and what they add up to. */
  function Varying(p: Primitives, key: Key, now: int, expiry: int, b: Bindings, at: Position): nat {
    |Escaped(key.id)| + |Escaped(b.filters)| + |NumberText(now)| + |NumberText(expiry)| + |NumberText(b.limit)|
    + |p.iso(at.ceiling)| + |p.iso(at.submitted)|
  }

  lemma PayloadSize(p: Primitives, key: Key, now: int, expiry: int, b: Bindings, at: Position)
    requires Sized(p)
    ensures |Write(PayloadOf(p, key, now, expiry, b, at))| == 205 + Varying(p, key, now, expiry, b, at)
  {
    var m := PayloadOf(p, key, now, expiry, b, at);
    PayloadFields(p, key, now, expiry, b, at);
    assert forall k | k in KEYS :: k in m;
    assert |ValueText(Num(1))| == 1 by {
      assert J.Digits(1) == ['1'];
    }
    hide PayloadOf, Binding, DigestOf, EntitiesText, JsonText, Sized, Escaped, NumberText, Writable;
    TextSize(m);
    BindingText(p, key.raw, b.customer);
    BindingText(p, key.raw, b.employee);
    BindingText(p, key.raw, b.snapshot);
    BindingText(p, key.raw, EntitiesText(b.entities));
    TimeText(p, at.ceiling, at.requestId);
    TimeText(p, at.submitted, at.requestId);
  }

  /** There is room for the varying parts: 146 characters of them. */
  predicate Fits(p: Primitives, ring: Keyring, now: int, b: Bindings, at: Position) {
    Varying(p, ring.active, now, now + ring.ttl, b, at) <= 146
  }

  /** A cursor is issued exactly when what can vary in it fits. */
  lemma IssuedIff(p: Primitives, ring: Keyring, now: int, b: Bindings, at: Position)
    requires Sized(p)
    ensures Encode(p, ring, now, b, at).Ok? <==> Fits(p, ring, now, b, at)
  {
    hide *;
    CursorSize(p, ring, now, b, at);
    PayloadSize(p, ring.active, now, now + ring.ttl, b, at);
    B.EncodedLength(Write(PayloadOf(p, ring.active, now, now + ring.ttl, b, at)));
    FitsIff(p, ring, now, b, at);
  }

  lemma CursorSize(p: Primitives, ring: Keyring, now: int, b: Bindings, at: Position)
    requires Sized(p)
    ensures Encode(p, ring, now, b, at).Ok? <==>
      |B.Encode(Write(PayloadOf(p, ring.active, now, now + ring.ttl, b, at)))| + 1 + 43 <= 512
  {
    B.EncodedLength(p.mac(ring.active.raw, Body(p, ring, now, b, at)));
    hide B.Encode, Write, PayloadOf;
  }

  lemma FitsIff(p: Primitives, ring: Keyring, now: int, b: Bindings, at: Position)
    ensures Fits(p, ring, now, b, at) <==> Varying(p, ring.active, now, now + ring.ttl, b, at) <= 146
  {
    hide Varying;
  }

  function Power10(k: nat): (r: nat)
    ensures r >= 1
  {
    if k == 0 then 1 else 10 * Power10(k - 1)
  }

  lemma {:induction false} DigitsWidth(n: nat, k: nat)
    requires k >= 1
    ensures |J.Digits(n)| <= k <==> n < Power10(k)
  {
    if n >= 10 && k >= 2 {
      DigitsWidth(n / 10, k - 1);
      var p := Power10(k - 1);
      assert n < 10 * p <==> n / 10 < p;
    }
  }

  /** Ten digits of clock, two of page size. */
  lemma Widths(now: nat, limit: nat)
    ensures |NumberText(now)| <= 10 <==> now <= 9_999_999_999
    ensures |NumberText(now)| >= 10 <==> now >= 1_000_000_000
    ensures |NumberText(limit)| <= 2 <==> limit <= 99
    ensures |NumberText(limit)| >= 2 <==> limit >= 10
  {
    DigitsWidth(now, 10);
    DigitsWidth(now, 9);
    DigitsWidth(limit, 2);
    DigitsWidth(limit, 1);
    assert Power10(9) == 1_000_000_000 && Power10(10) == 10_000_000_000;
  }

  /** A key id of at most 38 characters, escapes counted, is enough for clocks of up to ten
      digits, timestamps of up to 32 characters and page sizes of up to two digits. */
  lemma KeyIdSuffices(p: Primitives, ring: Keyring, now: nat, b: Bindings, at: Position, filters: string)
    requires Sized(p) && b.filters == DigestOf(p, filters) && |Escaped(ring.active.id)| <= 38
    requires now + ring.ttl <= 9_999_999_999 && b.limit <= 99
    requires |p.iso(at.ceiling)| <= 32 && |p.iso(at.submitted)| <= 32
    ensures Encode(p, ring, now, b, at).Ok?
  {
    IssuedIff(p, ring, now, b, at);
    BindingText(p, [], filters);
    Widths(now, b.limit);
    Widths(now + ring.ttl, b.limit);
    hide Encode, Sized, Escaped, NumberText, DigestOf;
  }

  /** And it is necessary when all of these are as long as that: then a cursor is issued exactly
      when the key id, escapes counted, has at most 38 characters. */
  lemma KeyIdBound(p: Primitives, ring: Keyring, now: nat, b: Bindings, at: Position, filters: string)
    requires Sized(p) && b.filters == DigestOf(p, filters)
    requires 1_000_000_000 <= now && now + ring.ttl <= 9_999_999_999 && 10 <= b.limit <= 99
    requires |p.iso(at.ceiling)| == |p.iso(at.submitted)| == 32
    ensures Encode(p, ring, now, b, at).Ok? <==> |Escaped(ring.active.id)| <= 38
  {
    hide *;
    IssuedIff(p, ring, now, b, at);
    BindingText(p, [], filters);
    Widths(now, b.limit);
    Widths(now + ring.ttl, b.limit);
    FullSizeFits(p, ring, now, b, at);
  }

  lemma FullSizeFits(p: Primitives, ring: Keyring, now: nat, b: Bindings, at: Position)
    requires |NumberText(now)| == |NumberText(now + ring.ttl)| == 10 && |NumberText(b.limit)| == 2
    requires |p.iso(at.ceiling)| == |p.iso(at.submitted)| == 32 && |Escaped(b.filters)| == 22
    ensures Fits(p, ring, now, b, at) <==> |Escaped(ring.active.id)| <= 38
  {
    hide NumberText, Escaped;
  }

  /** How much one character of a key id takes. */
  lemma EscapedSize(c: char, rest: string)
    ensures |Escaped([c] + rest)| == |Escaped(rest)| +
      if c == '\"' || c == '\\' || c == '\n' || c == '\r' || c == '\t' || c as int == 8 || c as int == 12 then 2
      else if ' ' <= c <= '~' then 1
      else if (c as int) < 0x1_0000 then 6 else 12
  {
    assert ([c] + rest)[1..] == rest;
    hide Unit;
  }

  /** One cursor that was issued: by which keyring, when, for which bindings and position. */
  datatype Issue = Issue(ring: Keyring, now: int, bindings: Bindings, at: Position)

  /** An ideal MAC: a signature that a key of the ring verifies was made with that key, on the body
      of a cursor that was issued. */
  ghost predicate Unforged(p: Primitives, ring: Keyring, issued: seq<Issue>, cursor: string) {
    forall key | key in Keys(ring) && Verifies(p, key, cursor) :: exists i | 0 <= i < |issued| ::
      issued[i].ring.active.raw == key.raw && IssuedBody(p, issued[i]) == cursor[..Dot(cursor)]
  }

  predicate Verifies(p: Primitives, key: Key, cursor: string) {
    var n := Dot(cursor);
    n < |cursor| && B.Decode(cursor[n + 1..]) == Some(p.mac(key.raw, cursor[..n]))
  }

  function IssuedBody(p: Primitives, i: Issue): string {
    Body(p, i.ring, i.now, i.bindings, i.at)
  }

  /** The cursor was issued as `i`, for these bindings, and is still alive. */
  ghost predicate IssuedAs(i: Issue, now: int, b: Bindings, at: Position) {
    i.at == at && SameBindings(i.bindings, b) && i.now <= now <= i.now + i.ring.ttl
  }

  /** Under an ideal MAC whatever is accepted was issued: for the position it yields, for the same
      bindings, and not longer ago than its lifetime. Everything else ends in the documented error,
      so the uncaught one never happens. */
  lemma AcceptedWasIssued(p: Primitives, ring: Keyring, issued: seq<Issue>, now: int, b: Bindings, cursor: string)
    requires Faithful(p) && Unforged(p, ring, issued, cursor) && Identifiers(b.entities)
    requires forall i | 0 <= i < |issued| ::
      Identifiers(issued[i].bindings.entities) && NoCollision(p, issued[i].ring.active.raw, issued[i].bindings, b)
    ensures match Decode(p, ring, now, b, cursor)
            case Ok(at) => exists i | 0 <= i < |issued| :: IssuedAs(issued[i], now, b, at)
            case Err(error) => error == InvalidCursor
  {
    if Decode(p, ring, now, b, cursor) != Err(InvalidCursor) {
      DecodedMeans(p, ring, now, b, cursor);
      var (payload, key) := Authentic(p, ring, cursor).value;
      AuthenticMeans(p, ring, cursor);
      assert key in Keys(ring) && Verifies(p, key, cursor);
      var i :| 0 <= i < |issued| && issued[i].ring.active.raw == key.raw
               && IssuedBody(p, issued[i]) == cursor[..Dot(cursor)];
      hide *;
      IssuedMeans(p, issued[i], ring, now, b, cursor, payload, key);
    }
  }

  /** A cursor with the body of one that was issued yields that one's position. */
  lemma IssuedMeans(p: Primitives, i: Issue, ring: Keyring, now: int, b: Bindings, cursor: string, payload: Payload,
                    key: Key)
    requires Faithful(p) && Identifiers(b.entities) && Identifiers(i.bindings.entities)
    requires NoCollision(p, i.ring.active.raw, i.bindings, b)
    requires Authentic(p, ring, cursor) == Some((payload, key)) && Bound(p, payload, key, now, b)
    requires i.ring.active.raw == key.raw && IssuedBody(p, i) == cursor[..Dot(cursor)]
    ensures Decode(p, ring, now, b, cursor) == Ok(i.at) && IssuedAs(i, now, b, i.at)
  {
    var active, expiry := i.ring.active, i.now + i.ring.ttl;
    var made := PayloadOf(p, active, i.now, expiry, i.bindings, i.at);
    hide *;
    AuthenticMeans(p, ring, cursor);
    BodyIs(p, i);
    B.DecodeEncode(Write(made));
    PayloadFields(p, active, i.now, expiry, i.bindings, i.at);
    ReadsBack(p, made);
    SameKey(key, active);
    IssuedPayloadDecodes(p, i, ring, now, b, cursor);
  }

  lemma BodyIs(p: Primitives, i: Issue)
    ensures IssuedBody(p, i)
         == B.Encode(Write(PayloadOf(p, i.ring.active, i.now, i.now + i.ring.ttl, i.bindings, i.at)))
  {
    hide Write, PayloadOf, B.Encode;
  }

  lemma IssuedPayloadDecodes(p: Primitives, i: Issue, ring: Keyring, now: int, b: Bindings, cursor: string)
    requires Faithful(p) && Identifiers(b.entities) && Identifiers(i.bindings.entities)
    requires NoCollision(p, i.ring.active.raw, i.bindings, b)
    requires var payload := PayloadOf(p, i.ring.active, i.now, i.now + i.ring.ttl, i.bindings, i.at);
      Authentic(p, ring, cursor) == Some((payload, i.ring.active)) && Bound(p, payload, i.ring.active, now, b)
    ensures Decode(p, ring, now, b, cursor) == Ok(i.at) && IssuedAs(i, now, b, i.at)
  {
    var active, expiry := i.ring.active, i.now + i.ring.ttl;
    var made := PayloadOf(p, active, i.now, expiry, i.bindings, i.at);
    hide *;
    PayloadFields(p, active, i.now, expiry, i.bindings, i.at);
    BoundIff(p, active, i.now, expiry, i.bindings, i.at, now, b);
    KeyIn(made);
    TimeReads(p, i.at.ceiling, i.at.requestId);
    TimeReads(p, i.at.submitted, i.at.requestId);
    DecodeAuthentic(p, ring, now, b, cursor, made, active, i.at);
    IssuedAsIs(i, now, b);
  }

  lemma IssuedAsIs(i: Issue, now: int, b: Bindings)
    requires SameBindings(i.bindings, b) && i.now <= now <= i.now + i.ring.ttl
    ensures IssuedAs(i, now, b, i.at)
  {
  }

  lemma SameKey(a: Key, b: Key)
    requires a.id == b.id && a.raw == b.raw
    ensures a == b
  {
  }

  lemma DecodedMeans(p: Primitives, ring: Keyring, now: int, b: Bindings, cursor: string)
    requires Decode(p, ring, now, b, cursor) != Err(InvalidCursor)
    ensures Authentic(p, ring, cursor).Some?
    ensures var (payload, key) := Authentic(p, ring, cursor).value; Bound(p, payload, key, now, b)
  {
    hide Authentic, Bound;
  }

  /** What authentication has checked: one dot, a bounded size, and a key of the ring that is the
      one the payload names and that made the signature. */
  lemma AuthenticMeans(p: Primitives, ring: Keyring, cursor: string)
    requires Authentic(p, ring, cursor).Some?
    ensures var n := Dot(cursor);
      var (payload, key) := Authentic(p, ring, cursor).value;
      && n < |cursor| <= MAXIMUM_SIZE && '.' !in cursor[n + 1..]
      && key in Keys(ring) && Verifies(p, key, cursor)
      && B.Decode(cursor[..n]).Some? && p.read(B.Decode(cursor[..n]).value) == Some(payload)
      && "k" in payload && payload["k"] == Str(key.id)
  {
    var id := p.read(B.Decode(cursor[..Dot(cursor)]).value).value["k"].s;
    FoundMember(Keys(ring), id);
    FoundId(Keys(ring), id);
    hide B.Decode, Dot, Find, Keys;
  }

  lemma {:induction false} FoundMember(keys: seq<Key>, id: string)
    ensures Find(keys, id).Some? ==> Find(keys, id).value in keys
  {
    if keys != [] {
      FoundMember(keys[1..], id);
    }
  }

  lemma {:induction false} FindIs(keys: seq<Key>, id: string, key: Key)
    requires forall i, j | 0 <= i < j < |keys| :: keys[i].id != keys[j].id
    ensures Find(keys, id) == Some(key) <==> key in keys && key.id == id
  {
    if keys != [] {
      FindIs(keys[1..], id, key);
      assert key in keys <==> key == keys[0] || key in keys[1..];
    }
  }

  /** What an id finds in a ring is the active key or a previous one: retiring a key keeps it. */
  lemma RetiredKeysFound(ring: Keyring, id: string, key: Key)
    requires forall i | 0 <= i < |ring.previous| :: ring.previous[i].id != ring.active.id
    requires forall i, j | 0 <= i < j < |ring.previous| :: ring.previous[i].id != ring.previous[j].id
    ensures Find(Keys(ring), id) == Some(key) <==> (key == ring.active || key in ring.previous) && key.id == id
  {
    FindIs(Keys(ring), id, key);
  }
}
