/** The string operations the ingestion code relies on: Unicode white space, `split`,
    `strip`, `join` and the length of the UTF-8 form. */
module Text {

  /** The characters `str.isspace` accepts. */
  predicate IsSpace(c: char) {
    var n := c as int;
    || 9 <= n <= 13 || 28 <= n <= 32 || n == 0x85 || n == 0xA0 || n == 0x1680
    || 0x2000 <= n <= 0x200A || n == 0x2028 || n == 0x2029 || n == 0x202F
    || n == 0x205F || n == 0x3000
  }

  function CharBytes(c: char): nat {
    var n := c as int;
    if n < 0x80 then 1 else if n < 0x800 then 2 else if n < 0x10000 then 3 else 4
  }

  function Utf8Size(s: string): nat {
    if s == "" then 0 else CharBytes(s[0]) + Utf8Size(s[1..])
  }

  lemma {:induction false} Utf8SizeAdds(a: string, b: string)
    ensures Utf8Size(a + b) == Utf8Size(a) + Utf8Size(b)
  {
    if a == "" {
      assert a + b == b;
    } else {
      assert (a + b)[1..] == a[1..] + b;
      Utf8SizeAdds(a[1..], b);
    }
  }

  /** Where the characters from a code point on stand. */
  function From(s: string, bound: nat): set<nat> {
    set i: nat | i < |s| && s[i] as int >= bound
  }

  lemma FromLast(s: string, c: char, bound: nat)
    ensures |From(s + [c], bound)| == |From(s, bound)| + if c as int >= bound then 1 else 0
  {
    var longer := s + [c];
    assert From(longer, bound) == From(s, bound) + if c as int >= bound then {|s|} else {};
  }

  /** The size of the UTF-8 form: one byte for each character, and one more for each from
      U+0080, U+0800 and U+10000 on. */
  lemma {:induction false} Utf8SizeIs(s: string)
    ensures Utf8Size(s) == |s| + |From(s, 0x80)| + |From(s, 0x800)| + |From(s, 0x10000)|
  {
    if s != "" {
      var init, c := s[..|s| - 1], s[|s| - 1];
      assert s == init + [c];
      Utf8SizeIs(init);
      Utf8SizeAdds(init, [c]);
      assert Utf8Size([c]) == CharBytes(c);
      FromLast(init, c, 0x80);
      FromLast(init, c, 0x800);
      FromLast(init, c, 0x10000);
    }
  }

  // --- split ---------------------------------------------------------------------------

  ghost predicate SpaceFree(s: string) {
    forall i | 0 <= i < |s| :: !IsSpace(s[i])
  }

  /** A maximal run of characters that are not white space. */
  ghost predicate IsWord(s: string) {
    s != "" && SpaceFree(s)
  }

  function WordEnd(s: string): (n: nat)
    ensures n <= |s| && (forall i | 0 <= i < n :: !IsSpace(s[i]))
    ensures n < |s| ==> IsSpace(s[n])
  {
    if s == "" || IsSpace(s[0]) then 0 else 1 + WordEnd(s[1..])
  }

  /** `str.split()`. */
  function Words(s: string): (r: seq<string>)
    ensures forall w | w in r :: IsWord(w)
    decreases |s|
  {
    if s == "" then []
    else if IsSpace(s[0]) then Words(s[1..])
    else [s[..WordEnd(s)]] + Words(s[WordEnd(s)..])
  }

  lemma {:induction false} WordEndAt(w: string, rest: string)
    requires SpaceFree(w) && (rest == "" || IsSpace(rest[0]))
    ensures WordEnd(w + rest) == |w|
  {
    if w == "" {
      assert w + rest == rest;
    } else {
      assert (w + rest)[0] == w[0] && (w + rest)[1..] == w[1..] + rest;
      WordEndAt(w[1..], rest);
    }
  }

  lemma WordsCons(w: string, rest: string)
    requires IsWord(w) && (rest == "" || IsSpace(rest[0]))
    ensures Words(w + rest) == [w] + Words(rest)
  {
    WordEndAt(w, rest);
    assert (w + rest)[..|w|] == w && (w + rest)[|w|..] == rest;
    assert (w + rest)[0] == w[0];
  }

  /** The words stand at these places: stretches without white space that white space separates,
      and everything else is white space. */
  ghost predicate WordPlaces(s: string, places: seq<(nat, nat)>) {
    && (forall i | 0 <= i < |places| :: places[i].0 < places[i].1 <= |s|)
    && (forall i, j | 0 <= i < j < |places| :: places[i].1 < places[j].0)
    && (forall k: nat | k < |s| :: !IsSpace(s[k]) <==> InPlaces(places, k))
  }

  ghost predicate InPlaces(places: seq<(nat, nat)>, k: nat) {
    exists i :: 0 <= i < |places| && places[i].0 <= k < places[i].1
  }

  /** The same places further to the right. */
  function Shifted(places: seq<(nat, nat)>, offset: nat): (r: seq<(nat, nat)>)
    ensures |r| == |places| && forall i | 0 <= i < |r| :: r[i] == (places[i].0 + offset, places[i].1 + offset)
  {
    seq(|places|, i requires 0 <= i < |places| => (places[i].0 + offset, places[i].1 + offset))
  }

  lemma ShiftedIn(places: seq<(nat, nat)>, offset: nat, k: nat)
    ensures InPlaces(Shifted(places, offset), k) <==> k >= offset && InPlaces(places, k - offset)
  {
    var moved := Shifted(places, offset);
    if k >= offset && InPlaces(places, k - offset) {
      var i :| 0 <= i < |places| && places[i].0 <= k - offset < places[i].1;
      assert moved[i].0 <= k < moved[i].1;
    }
  }

  lemma LeadingSpace(s: string, rest: seq<(nat, nat)>)
    requires s != "" && IsSpace(s[0]) && WordPlaces(s[1..], rest)
    ensures WordPlaces(s, Shifted(rest, 1))
  {
    hide IsSpace;
    forall k: nat | k < |s|
      ensures !IsSpace(s[k]) <==> InPlaces(Shifted(rest, 1), k)
    {
      ShiftedIn(rest, 1, k);
      if k > 0 {
        assert s[1..][k - 1] == s[k];
      }
    }
  }

  lemma LeadingWord(s: string, n: nat, rest: seq<(nat, nat)>)
    requires 0 < n <= |s| && (forall k | 0 <= k < n :: !IsSpace(s[k])) && (n < |s| ==> IsSpace(s[n]))
    requires WordPlaces(s[n..], rest)
    ensures WordPlaces(s, [(0, n)] + Shifted(rest, n))
  {
    hide IsSpace;
    var places := [(0, n)] + Shifted(rest, n);
    forall k: nat | k < |s|
      ensures !IsSpace(s[k]) <==> InPlaces(places, k)
    {
      ShiftedIn(rest, n, k);
      FirstPlace((0, n), Shifted(rest, n), k);
      if k >= n {
        assert s[n..][k - n] == s[k];
      }
    }
    if rest != [] {
      StartsVisible(s[n..], rest);
      assert s[n..][rest[0].0] == s[n + rest[0].0];
      assert forall j | 0 <= j < |rest| :: rest[j].0 >= rest[0].0;
    }
  }

  lemma StartsVisible(s: string, places: seq<(nat, nat)>)
    requires WordPlaces(s, places) && places != []
    ensures places[0].0 < |s| && !IsSpace(s[places[0].0])
  {
    assert InPlaces(places, places[0].0);
  }

  lemma FirstPlace(first: (nat, nat), rest: seq<(nat, nat)>, k: nat)
    ensures InPlaces([first] + rest, k) <==> first.0 <= k < first.1 || InPlaces(rest, k)
  {
    var places := [first] + rest;
    assert places[0] == first && forall i | 0 <= i < |rest| :: places[i + 1] == rest[i];
    if InPlaces(rest, k) {
      var i :| 0 <= i < |rest| && rest[i].0 <= k < rest[i].1;
      assert places[i + 1].0 <= k < places[i + 1].1;
    }
  }

  /** `split` finds exactly the maximal stretches without white space, in order. */
  lemma {:induction false} WordsAre(s: string) returns (places: seq<(nat, nat)>)
    ensures WordPlaces(s, places) && |places| == |Words(s)|
    ensures forall i | 0 <= i < |places| ::
      places[i].0 < places[i].1 <= |s| && Words(s)[i] == s[places[i].0..places[i].1]
    decreases |s|
  {
    hide WordPlaces, IsSpace;
    if s == "" {
      places := [];
      NoPlaces();
    } else if IsSpace(s[0]) {
      var rest := WordsAre(s[1..]);
      places := Shifted(rest, 1);
      LeadingSpace(s, rest);
      MovedWords(s, 1, rest, Words(s[1..]));
    } else {
      var n := WordEnd(s);
      var rest := WordsAre(s[n..]);
      places := [(0, n)] + Shifted(rest, n);
      LeadingWord(s, n, rest);
      MovedWords(s, n, rest, Words(s[n..]));
      assert Words(s) == [s[..n]] + Words(s[n..]);
    }
  }

  lemma MovedWords(s: string, n: nat, rest: seq<(nat, nat)>, words: seq<string>)
    requires n <= |s| && WordPlaces(s[n..], rest) && |words| == |rest|
    requires forall i | 0 <= i < |rest| :: rest[i].0 < rest[i].1 <= |s| - n && words[i] == s[n..][rest[i].0..rest[i].1]
    ensures var moved := Shifted(rest, n);
      forall i | 0 <= i < |moved| :: moved[i].0 < moved[i].1 <= |s| && words[i] == s[moved[i].0..moved[i].1]
  {
    hide WordPlaces, Shifted;
    assert forall i | 0 <= i < |rest| :: s[n..][rest[i].0..rest[i].1] == s[rest[i].0 + n..rest[i].1 + n];
  }

  lemma NoPlaces()
    ensures WordPlaces("", [])
  {
  }

  // --- join ----------------------------------------------------------------------------

  function Join(parts: seq<string>, sep: string): string {
    if parts == [] then ""
    else if |parts| == 1 then parts[0]
    else parts[0] + sep + Join(parts[1..], sep)
  }

  lemma {:induction false} JoinConcat(a: seq<string>, b: seq<string>, sep: string)
    requires a != [] && b != []
    ensures Join(a + b, sep) == Join(a, sep) + sep + Join(b, sep)
  {
    assert (a + b)[0] == a[0] && (a + b)[1..] == a[1..] + b;
    if |a| == 1 {
      assert a[1..] + b == b;
    } else {
      JoinConcat(a[1..], b, sep);
      assert a[0] + sep + (Join(a[1..], sep) + sep + Join(b, sep))
          == (a[0] + sep + Join(a[1..], sep)) + sep + Join(b, sep);
    }
  }

  /** Splitting what was joined by single spaces gives the words back. */
  lemma {:induction false} WordsOfJoin(words: seq<string>)
    requires forall w | w in words :: IsWord(w)
    ensures Words(Join(words, " ")) == words
  {
    if |words| == 1 {
      WordsCons(words[0], "");
      assert words[0] + "" == words[0];
      assert words == [words[0]];
    } else if |words| > 1 {
      var tail := Join(words[1..], " ");
      WordsOfJoin(words[1..]);
      assert words[0] + " " + tail == words[0] + (" " + tail);
      WordsCons(words[0], " " + tail);
      assert (" " + tail)[1..] == tail;
      assert words == [words[0]] + words[1..];
    }
  }

  // --- strip ---------------------------------------------------------------------------

  /** Non-empty, and neither end is white space. */
  predicate Trimmed(s: string) {
    s != "" && !IsSpace(s[0]) && !IsSpace(s[|s| - 1])
  }

  function StripLeft(s: string): string {
    if s != "" && IsSpace(s[0]) then StripLeft(s[1..]) else s
  }

  function StripRight(s: string): string {
    if s != "" && IsSpace(s[|s| - 1]) then StripRight(s[..|s| - 1]) else s
  }

  /** `str.strip()`. */
  function Strip(s: string): string {
    StripRight(StripLeft(s))
  }

  lemma {:induction false} StripLeftIs(s: string) returns (a: nat)
    ensures a <= |s| && StripLeft(s) == s[a..] && (a == |s| || !IsSpace(s[a]))
    ensures forall k | 0 <= k < a :: IsSpace(s[k])
  {
    if s != "" && IsSpace(s[0]) {
      var rest := StripLeftIs(s[1..]);
      a := rest + 1;
      assert forall k | 0 < k < a :: s[k] == s[1..][k - 1];
    } else {
      a := 0;
    }
  }

  lemma {:induction false} StripRightIs(s: string) returns (b: nat)
    ensures b <= |s| && StripRight(s) == s[..b] && (b == 0 || !IsSpace(s[b - 1]))
    ensures forall k | b <= k < |s| :: IsSpace(s[k])
  {
    if s != "" && IsSpace(s[|s| - 1]) {
      b := StripRightIs(s[..|s| - 1]);
      assert s[..|s| - 1][..b] == s[..b];
    } else {
      b := |s|;
    }
  }

  /** `strip` drops the white space at both ends and nothing else. */
  lemma StripIs(s: string) returns (a: nat, b: nat)
    ensures a <= b <= |s| && Strip(s) == s[a..b]
    ensures forall k | 0 <= k < a || b <= k < |s| :: IsSpace(s[k])
    ensures a < b ==> !IsSpace(s[a]) && !IsSpace(s[b - 1])
    ensures a == b ==> forall k | 0 <= k < |s| :: IsSpace(s[k])
  {
    a := StripLeftIs(s);
    var n := StripRightIs(s[a..]);
    b := a + n;
    hide IsSpace;
    forall k | a <= k < |s|
      ensures s[k] == s[a..][k - a]
    {
    }
    assert s[a..][..n] == s[a..b];
  }

  ghost predicate IsSuffix(a: string, s: string) {
    |a| <= |s| && a == s[|s| - |a|..]
  }

  lemma {:induction false} StripLeftSuffix(s: string)
    ensures IsSuffix(StripLeft(s), s)
    ensures StripLeft(s) == "" || !IsSpace(StripLeft(s)[0])
    ensures s != "" && !IsSpace(s[|s| - 1]) ==> StripLeft(s) != ""
  {
    if s != "" && IsSpace(s[0]) {
      StripLeftSuffix(s[1..]);
    }
  }

  /** On a text that ends in a visible character, `strip` only drops leading space. */
  lemma StripSuffix(s: string)
    requires s != "" && !IsSpace(s[|s| - 1])
    ensures IsSuffix(Strip(s), s) && Trimmed(Strip(s))
  {
    StripLeftSuffix(s);
  }

  lemma JoinTrimmed(parts: seq<string>, sep: string)
    requires parts != [] && forall p | p in parts :: Trimmed(p)
    ensures Trimmed(Join(parts, sep))
  {
    assert Trimmed(parts[0]);
    if |parts| > 1 {
      JoinTrimmed(parts[1..], sep);
      var tail := Join(parts[1..], sep);
      var s := parts[0] + sep + tail;
      assert s[0] == parts[0][0] && s[|s| - 1] == tail[|tail| - 1];
    }
  }
}
