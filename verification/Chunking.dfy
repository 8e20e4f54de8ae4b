/** Greedy packing under a character budget and a byte budget at once: the shared shape of
    splitting an oversized block into pieces and of packing units into chunks. */
module Packing {
  import opened Text

  datatype Limits = Limits(maxCharacters: nat, maxBytes: nat, overlap: nat)

  /** One packed text: an overlap carried over from the text before, then a run of parts. */
  datatype Piece = Piece(prefix: string, run: seq<string>)

  predicate Fits(s: string, limits: Limits) {
    |s| <= limits.maxCharacters && Utf8Size(s) <= limits.maxBytes
  }

  function Render(p: Piece, sep: string): string {
    (if p.prefix == "" then "" else p.prefix + sep) + Join(p.run, sep)
  }

  function Flatten(pieces: seq<seq<string>>): seq<string> {
    if pieces == [] then [] else pieces[0] + Flatten(pieces[1..])
  }

  function Runs(pieces: seq<Piece>): (r: seq<seq<string>>)
    ensures |r| == |pieces| && forall i | 0 <= i < |r| :: r[i] == pieces[i].run
  {
    seq(|pieces|, i requires 0 <= i < |pieces| => pieces[i].run)
  }

  function Texts(pieces: seq<Piece>, sep: string): (r: seq<string>)
    ensures |r| == |pieces| && forall i | 0 <= i < |r| :: r[i] == Render(pieces[i], sep)
  {
    seq(|pieces|, i requires 0 <= i < |pieces| => Render(pieces[i], sep))
  }

  function Window(content: string, overlap: nat): string {
    if |content| > overlap then content[|content| - overlap..] else content
  }

  function AfterFirstBlank(s: string): string
    requires ' ' in s
  {
    Strip(s[FirstBlank(s) + 1..])
  }

  /** The tail of a finished text that is repeated at the head of the next one. */
  function OverlapSuffix(content: string, overlap: nat): string {
    if overlap == 0 then ""
    else
      var suffix := Strip(Window(content, overlap));
      if |content| > overlap && ' ' in suffix then AfterFirstBlank(suffix) else suffix
  }

  /** `str.find(" ")` where there is one. */
  function FirstBlank(s: string): (i: nat)
    requires ' ' in s
    ensures i < |s| && s[i] == ' ' && ' ' !in s[..i]
  {
    if s[0] == ' ' then 0
    else
      var i := FirstBlank(s[1..]);
      assert s[..i + 1] == [s[0]] + s[1..][..i];
      i + 1
  }

  /** How many parts of `s`, at least `n`, the greedy loop puts after `prefix`. */
  function RunLength(prefix: string, s: seq<string>, n: nat, sep: string, limits: Limits): (r: nat)
    requires n <= |s|
    ensures n <= r <= |s|
    decreases |s| - n
  {
    if n < |s| && Fits(Render(Piece(prefix, s[..n + 1]), sep), limits)
    then RunLength(prefix, s, n + 1, sep, limits)
    else n
  }

  function NextPrefix(content: string, rest: seq<string>, sep: string, limits: Limits): string {
    var carried := OverlapSuffix(content, limits.overlap);
    if rest != [] && carried != "" && Fits(Render(Piece(carried, rest[..1]), sep), limits)
    then carried else ""
  }

  /** The greedy packing of `s`, its first piece starting with `prefix`. */
  function Pack(prefix: string, s: seq<string>, sep: string, limits: Limits): seq<Piece>
    decreases |s|
  {
    if s == [] then []
    else
      var n := RunLength(prefix, s, 1, sep, limits);
      var piece := Piece(prefix, s[..n]);
      [piece] + Pack(NextPrefix(Render(piece, sep), s[n..], sep, limits), s[n..], sep, limits)
  }

  // --- sizes ---------------------------------------------------------------------------

  lemma FitsParts(a: string, b: string, limits: Limits)
    requires Fits(a + b, limits)
    ensures Fits(a, limits) && Fits(b, limits)
  {
    Utf8SizeAdds(a, b);
  }

  /** A run of parts inside a fitting run fits. */
  lemma SubRunFits(before: seq<string>, run: seq<string>, after: seq<string>, sep: string, limits: Limits)
    requires Fits(Join(before + run + after, sep), limits) && run != []
    ensures Fits(Join(run, sep), limits)
  {
    var upper := before + run;
    if after != [] {
      JoinConcat(upper, after, sep);
      FitsParts(Join(upper, sep) + sep, Join(after, sep), limits);
      FitsParts(Join(upper, sep), sep, limits);
    } else {
      assert upper + after == upper;
    }
    if before != [] {
      JoinConcat(before, run, sep);
      FitsParts(Join(before, sep) + sep, Join(run, sep), limits);
    } else {
      assert upper == run;
    }
  }

  // --- what packing keeps --------------------------------------------------------------

  /** Every part fits on its own. */
  ghost predicate PartsFit(s: seq<string>, limits: Limits) {
    forall p | p in s :: Fits(p, limits)
  }

  ghost predicate PieceFits(p: Piece, sep: string, limits: Limits) {
    && p.run != [] && |Render(p, sep)| <= limits.maxCharacters && Utf8Size(Render(p, sep)) <= limits.maxBytes
  }

  ghost predicate PrefixAllowed(prefix: string, s: seq<string>, sep: string, limits: Limits) {
    s != [] ==> Fits(Render(Piece(prefix, s[..1]), sep), limits)
  }

  lemma RenderAlone(p: string, sep: string)
    ensures Render(Piece("", [p]), sep) == p
  {
    assert "" + p == p;
  }

  lemma {:induction false} RunLengthFits(prefix: string, s: seq<string>, n: nat, sep: string, limits: Limits)
    requires 1 <= n <= |s| && Fits(Render(Piece(prefix, s[..n]), sep), limits)
    ensures Fits(Render(Piece(prefix, s[..RunLength(prefix, s, n, sep, limits)]), sep), limits)
    decreases |s| - n
  {
    if n < |s| && Fits(Render(Piece(prefix, s[..n + 1]), sep), limits) {
      RunLengthFits(prefix, s, n + 1, sep, limits);
    }
  }

  lemma NextPrefixAllowed(content: string, rest: seq<string>, sep: string, limits: Limits)
    requires PartsFit(rest, limits)
    ensures PrefixAllowed(NextPrefix(content, rest, sep, limits), rest, sep, limits)
  {
    if rest != [] {
      RenderAlone(rest[0], sep);
      assert rest[..1] == [rest[0]];
    }
  }

  /** Packing neither drops, repeats nor reorders a part, and every packed text meets both
      limits. */
  lemma {:induction false} PackPartitions(prefix: string, s: seq<string>, sep: string, limits: Limits)
    requires PartsFit(s, limits) && PrefixAllowed(prefix, s, sep, limits)
    ensures Flatten(Runs(Pack(prefix, s, sep, limits))) == s
    ensures forall p | p in Pack(prefix, s, sep, limits) :: PieceFits(p, sep, limits)
    ensures Pack(prefix, s, sep, limits) == [] <==> s == []
    decreases |s|
  {
    hide *;
    PackStep(prefix, s, sep, limits);
    NothingPacked();
    if s != [] {
      var n := RunLength(prefix, s, 1, sep, limits);
      var piece := Piece(prefix, s[..n]);
      var next := NextPrefix(Render(piece, sep), s[n..], sep, limits);
      FirstPieceFits(prefix, s, sep, limits);
      NextPrefixAllowed(Render(piece, sep), s[n..], sep, limits);
      PackPartitions(next, s[n..], sep, limits);
      OneMoreRun(piece, Pack(next, s[n..], sep, limits));
      assert s == s[..n] + s[n..];
    }
  }

  lemma PackStep(prefix: string, s: seq<string>, sep: string, limits: Limits)
    ensures Pack(prefix, s, sep, limits) ==
      if s == [] then []
      else
        var n := RunLength(prefix, s, 1, sep, limits);
        var piece := Piece(prefix, s[..n]);
        [piece] + Pack(NextPrefix(Render(piece, sep), s[n..], sep, limits), s[n..], sep, limits)
  {
    hide Render, NextPrefix, RunLength;
  }

  lemma NothingPacked()
    ensures Flatten(Runs([])) == []
  {
  }

  lemma OneMoreRun(piece: Piece, rest: seq<Piece>)
    ensures Flatten(Runs([piece] + rest)) == piece.run + Flatten(Runs(rest))
  {
    assert Runs([piece] + rest) == [piece.run] + Runs(rest);
  }

  lemma FirstPieceFits(prefix: string, s: seq<string>, sep: string, limits: Limits)
    requires s != [] && PartsFit(s, limits) && PrefixAllowed(prefix, s, sep, limits)
    ensures var n := RunLength(prefix, s, 1, sep, limits);
      PieceFits(Piece(prefix, s[..n]), sep, limits) && PartsFit(s[n..], limits)
  {
    RunLengthFits(prefix, s, 1, sep, limits);
    var n := RunLength(prefix, s, 1, sep, limits);
    assert forall p | p in s[n..] :: p in s;
    hide Fits, Render, RunLength;
  }

  // --- the overlap ---------------------------------------------------------------------

  lemma SuffixOfSuffix(a: string, b: string, c: string)
    requires IsSuffix(a, b) && IsSuffix(b, c)
    ensures IsSuffix(a, c)
  {
  }

  lemma WindowIsSuffix(content: string, overlap: nat)
    requires Trimmed(content) && overlap > 0
    ensures var w := Window(content, overlap);
      IsSuffix(w, content) && |w| <= overlap && w != "" && !IsSpace(w[|w| - 1])
  {
  }

  lemma AfterFirstBlankIsSuffix(s: string)
    requires Trimmed(s) && ' ' in s
    ensures IsSuffix(AfterFirstBlank(s), s) && Trimmed(AfterFirstBlank(s))
  {
    assert IsSpace(' ');
    var i := FirstBlank(s);
    assert i != |s| - 1;
    var tail := s[i + 1..];
    assert tail[|tail| - 1] == s[|s| - 1];
    StripSuffix(tail);
    SuffixOfSuffix(Strip(tail), tail, s);
  }

  /** What is carried over is a suffix of the finished text, no longer than allowed, and
      starts with a visible character. */
  lemma OverlapIsSuffix(content: string, overlap: nat)
    requires Trimmed(content)
    ensures IsSuffix(OverlapSuffix(content, overlap), content)
    ensures |OverlapSuffix(content, overlap)| <= overlap
    ensures OverlapSuffix(content, overlap) == "" || Trimmed(OverlapSuffix(content, overlap))
  {
    hide IsSpace, Strip, AfterFirstBlank, FirstBlank;
    if overlap > 0 {
      WindowIsSuffix(content, overlap);
      var suffix := Strip(Window(content, overlap));
      StripSuffix(Window(content, overlap));
      SuffixOfSuffix(suffix, Window(content, overlap), content);
      if ' ' in suffix {
        AfterFirstBlankIsSuffix(suffix);
        SuffixOfSuffix(AfterFirstBlank(suffix), suffix, content);
      }
    }
  }

  /** The first visible character from a position on. */
  ghost predicate FirstVisible(s: string, start: nat, p: nat) {
    start <= p < |s| && !IsSpace(s[p]) && forall k | start <= k < p :: IsSpace(s[k])
  }

  /** The first blank from a position on. */
  ghost predicate BlankFrom(s: string, start: nat, b: nat) {
    start <= b < |s| && s[b] == ' ' && forall k | start <= k < b :: s[k] != ' '
  }

  /** Where the text that is carried over begins: at the start of a text that is no longer than the
      overlap; otherwise in its last `overlap` characters, at the first visible one, or, when a
      blank follows that, at the first visible one after the blank. */
  ghost predicate CarriedFrom(content: string, overlap: nat, p: nat) {
    if |content| <= overlap then p == 0
    else exists a: nat :: FirstVisible(content, |content| - overlap, a) && CutAtWord(content, a, p)
  }

  ghost predicate CutAtWord(content: string, a: nat, p: nat) {
    if forall k | a <= k < |content| :: content[k] != ' ' then p == a
    else exists b: nat :: BlankFrom(content, a, b) && FirstVisible(content, b + 1, p)
  }

  /** Of a text that ends in a visible character, `strip` leaves what begins at its first one. */
  lemma StripFrom(s: string) returns (a: nat)
    requires s != "" && !IsSpace(s[|s| - 1])
    ensures FirstVisible(s, 0, a) && a < |s| && Strip(s) == s[a..]
  {
    var b;
    a, b := StripIs(s);
    assert b == |s|;
  }

  /** What is carried over, by positions of the finished text. */
  lemma OverlapIs(content: string, overlap: nat) returns (p: nat)
    requires Trimmed(content)
    ensures overlap == 0 ==> OverlapSuffix(content, overlap) == ""
    ensures overlap > 0 ==>
      && CarriedFrom(content, overlap, p) && p < |content| && OverlapSuffix(content, overlap) == content[p..]
      && |content[p..]| <= overlap && Trimmed(content[p..])
  {
    p := 0;
    if overlap > 0 {
      if |content| <= overlap {
        WholeCarried(content, overlap);
      } else {
        p := TailIs(content, overlap);
      }
      OverlapIsSuffix(content, overlap);
    }
    hide *;
  }

  lemma TailIs(content: string, overlap: nat) returns (p: nat)
    requires Trimmed(content) && 0 < overlap < |content|
    ensures CarriedFrom(content, overlap, p) && p < |content| && OverlapSuffix(content, overlap) == content[p..]
  {
    hide *;
    var lo := |content| - overlap;
    EndsVisible(content, lo);
    var n := StripFrom(content[lo..]);
    VisibleInside(content, lo, n);
    p := CutIs(content, lo + n);
    TailCarried(content, overlap, n, p);
  }

  lemma EndsVisible(content: string, lo: nat)
    requires Trimmed(content) && lo < |content|
    ensures var window := content[lo..]; window != "" && !IsSpace(window[|window| - 1])
  {
  }

  lemma WholeCarried(content: string, overlap: nat)
    requires Trimmed(content) && |content| <= overlap && overlap > 0
    ensures content != "" && CarriedFrom(content, overlap, 0) && OverlapSuffix(content, overlap) == content[0..]
  {
    WholeStays(content);
  }

  lemma TailCarried(content: string, overlap: nat, n: nat, p: nat)
    requires 0 < overlap < |content| && n <= overlap && p <= |content|
    requires var lo := |content| - overlap;
      && FirstVisible(content, lo, lo + n) && Strip(content[lo..]) == content[lo..][n..]
      && CutAtWord(content, lo + n, p)
      && (if ' ' in content[lo + n..] then AfterFirstBlank(content[lo + n..]) else content[lo + n..]) == content[p..]
    ensures CarriedFrom(content, overlap, p) && OverlapSuffix(content, overlap) == content[p..]
  {
    hide FirstVisible, CutAtWord, Strip, IsSpace, AfterFirstBlank;
    var lo := |content| - overlap;
    assert content[lo..][n..] == content[lo + n..];
  }

  /** What is left after the cut at the first blank, if there is one. */
  lemma CutIs(content: string, a: nat) returns (p: nat)
    requires Trimmed(content) && a < |content|
    ensures CutAtWord(content, a, p) && p < |content|
    ensures (if ' ' in content[a..] then AfterFirstBlank(content[a..]) else content[a..]) == content[p..]
  {
    hide AfterFirstBlank, FirstVisible, IsSpace;
    if ' ' in content[a..] {
      p := AfterBlank(content, a);
    } else {
      p := a;
      assert forall k | a <= k < |content| :: content[k] == content[a..][k - a];
    }
  }

  lemma WholeStays(content: string)
    requires Trimmed(content)
    ensures Strip(content) == content
  {
  }

  lemma VisibleInside(content: string, lo: nat, n: nat)
    requires lo <= |content| && FirstVisible(content[lo..], 0, n)
    ensures FirstVisible(content, lo, lo + n) && lo + n < |content|
  {
    hide IsSpace;
    assert forall k | lo <= k < |content| :: content[k] == content[lo..][k - lo];
  }

  /** After the first blank, from the next visible character on. */
  lemma AfterBlank(content: string, a: nat) returns (p: nat)
    requires Trimmed(content) && a < |content| && ' ' in content[a..]
    ensures CutAtWord(content, a, p) && p < |content| && AfterFirstBlank(content[a..]) == content[p..]
  {
    hide *;
    var suffix := content[a..];
    var i := FirstBlank(suffix);
    var b := a + i;
    BlankInside(content, a, i);
    EndsVisible(content, b + 1);
    var n := StripFrom(content[b + 1..]);
    VisibleInside(content, b + 1, n);
    p := b + 1 + n;
    AfterBlankIs(content, a, i, n);
  }

  lemma BlankInside(content: string, a: nat, i: nat)
    requires Trimmed(content) && a < |content| && ' ' in content[a..] && i == FirstBlank(content[a..])
    ensures a + i + 1 < |content| && BlankFrom(content, a, a + i)
  {
    var suffix := content[a..];
    assert IsSpace(' ') && content[a + i] == suffix[i];
    hide IsSpace;
    forall k | a <= k < a + i
      ensures content[k] != ' '
    {
      assert content[k] == suffix[..i][k - a];
    }
  }

  lemma AfterBlankIs(content: string, a: nat, i: nat, n: nat)
    requires a < |content| && ' ' in content[a..] && i == FirstBlank(content[a..]) && a + i + 1 + n < |content|
    requires BlankFrom(content, a, a + i) && FirstVisible(content, a + i + 1, a + i + 1 + n)
    requires Strip(content[a + i + 1..]) == content[a + i + 1..][n..]
    ensures CutAtWord(content, a, a + i + 1 + n) && AfterFirstBlank(content[a..]) == content[a + i + 1 + n..]
  {
    hide Strip, FirstBlank, FirstVisible, IsSpace;
    assert content[a..][i + 1..] == content[a + i + 1..];
    assert content[a + i + 1..][n..] == content[a + i + 1 + n..];
  }

  /** The prefix of the next text: what is carried over from `content`, when it and the first part
      fit together, and nothing otherwise. */
  ghost predicate Carries(content: string, part: string, prefix: string, sep: string, limits: Limits) {
    if limits.overlap == 0 then prefix == ""
    else
      exists p: nat ::
        CarriedFrom(content, limits.overlap, p) && p < |content|
        && prefix == if TooLong(content[p..] + sep + part, limits) then "" else content[p..]
  }

  /** From text to text: the next part did not fit any more, and the prefix is what is carried over. */
  ghost predicate Follows(pieces: seq<Piece>, sep: string, limits: Limits) {
    forall i | 0 < i < |pieces| ::
      && pieces[i].run != []
      && TooLong(Render(pieces[i - 1], sep) + sep + pieces[i].run[0], limits)
      && Carries(Render(pieces[i - 1], sep), pieces[i].run[0], pieces[i].prefix, sep, limits)
  }

  predicate TooLong(s: string, limits: Limits) {
    |s| > limits.maxCharacters || Utf8Size(s) > limits.maxBytes
  }

  lemma NextPrefixCarries(content: string, rest: seq<string>, sep: string, limits: Limits)
    requires Trimmed(content) && rest != []
    ensures Carries(content, rest[0], NextPrefix(content, rest, sep, limits), sep, limits)
  {
    if limits.overlap > 0 {
      var p := OverlapIs(content, limits.overlap);
      assert rest[..1] == [rest[0]];
      hide OverlapSuffix, CarriedFrom, Utf8Size, IsSpace;
    }
  }

  /** The loop stops only before a part that does not fit any more. */
  lemma {:induction false} RunLengthStops(prefix: string, s: seq<string>, n: nat, sep: string, limits: Limits)
    requires 1 <= n <= |s|
    ensures var r := RunLength(prefix, s, n, sep, limits);
      r < |s| ==> TooLong(Render(Piece(prefix, s[..r]), sep) + sep + s[r], limits)
    decreases |s| - n
  {
    if n < |s| {
      if Fits(Render(Piece(prefix, s[..n + 1]), sep), limits) {
        RunLengthStops(prefix, s, n + 1, sep, limits);
      } else {
        assert s[..n + 1] == s[..n] + [s[n]];
        RenderExtends(prefix, s[..n], s[n], sep);
      }
    }
  }

  lemma RenderExtends(prefix: string, run: seq<string>, part: string, sep: string)
    requires run != []
    ensures Render(Piece(prefix, run + [part]), sep) == Render(Piece(prefix, run), sep) + sep + part
  {
    JoinConcat(run, [part], sep);
    var head := if prefix == "" then "" else prefix + sep;
    assert head + (Join(run, sep) + sep + part) == (head + Join(run, sep)) + sep + part;
  }

  lemma FollowsCons(piece: Piece, rest: seq<Piece>, sep: string, limits: Limits)
    requires Follows(rest, sep, limits)
    requires rest != [] ==>
      && rest[0].run != [] && TooLong(Render(piece, sep) + sep + rest[0].run[0], limits)
      && Carries(Render(piece, sep), rest[0].run[0], rest[0].prefix, sep, limits)
    ensures Follows([piece] + rest, sep, limits)
  {
    hide Render, TooLong, Carries;
    var all := [piece] + rest;
    forall i | 0 < i < |all|
      ensures all[i].run != [] && TooLong(Render(all[i - 1], sep) + sep + all[i].run[0], limits)
      ensures Carries(Render(all[i - 1], sep), all[i].run[0], all[i].prefix, sep, limits)
    {
      assert all[i] == rest[i - 1];
      if i > 1 {
        assert all[i - 1] == rest[i - 2];
      }
    }
  }

  /** Packing fills each text as far as it goes and carries over exactly what fits. */
  lemma {:induction false} PackFollows(prefix: string, s: seq<string>, sep: string, limits: Limits)
    requires forall u | u in s :: Trimmed(u)
    requires prefix == "" || !IsSpace(prefix[0])
    ensures Follows(Pack(prefix, s, sep, limits), sep, limits)
    ensures s != [] ==> Pack(prefix, s, sep, limits) != [] && Pack(prefix, s, sep, limits)[0].prefix == prefix
    ensures s != [] ==> Pack(prefix, s, sep, limits)[0].run != [] && Pack(prefix, s, sep, limits)[0].run[0] == s[0]
    decreases |s|
  {
    if s != [] {
      var n := RunLength(prefix, s, 1, sep, limits);
      var piece := Piece(prefix, s[..n]);
      var content := Render(piece, sep);
      var next := NextPrefix(content, s[n..], sep, limits);
      assert forall u | u in s[..n] :: u in s;
      assert forall u | u in s[n..] :: u in s;
      hide *;
      PackStep(prefix, s, sep, limits);
      RenderTrimmed(piece, sep);
      NextPrefixFollows(content, s[n..], sep, limits);
      PackFollows(next, s[n..], sep, limits);
      RunLengthStops(prefix, s, 1, sep, limits);
      if n < |s| {
        NextPrefixCarries(content, s[n..], sep, limits);
      } else {
        NothingLeft(next, sep, limits);
      }
      FollowsCons(piece, Pack(next, s[n..], sep, limits), sep, limits);
    } else {
      assert Pack(prefix, s, sep, limits) == [];
    }
  }

  /** These texts pack the parts: their runs are the parts in order, each text meets both limits and
      was closed only because the next part did not fit, and each starts with what is carried over
      from the one before. */
  ghost predicate PackedAs(pieces: seq<Piece>, texts: seq<string>, s: seq<string>, sep: string, limits: Limits) {
    && Flatten(Runs(pieces)) == s && |texts| == |pieces|
    && (forall i | 0 <= i < |pieces| :: PieceFits(pieces[i], sep, limits) && texts[i] == Render(pieces[i], sep))
    && (pieces != [] ==> pieces[0].prefix == "") && Follows(pieces, sep, limits)
  }

  ghost predicate Packed(texts: seq<string>, s: seq<string>, sep: string, limits: Limits) {
    exists pieces :: PackedAs(pieces, texts, s, sep, limits)
  }

  lemma PackIsPacked(s: seq<string>, sep: string, limits: Limits)
    requires PartsFit(s, limits) && forall u | u in s :: Trimmed(u)
    ensures Packed(Texts(Pack("", s, sep, limits), sep), s, sep, limits)
  {
    var pieces := Pack("", s, sep, limits);
    if s != [] {
      RenderAlone(s[0], sep);
      assert s[..1] == [s[0]] && s[0] in s;
    }
    PackPartitions("", s, sep, limits);
    PackFollows("", s, sep, limits);
    hide Pack, Follows, PieceFits, Trimmed, PartsFit, Flatten;
    assert PackedAs(pieces, Texts(pieces, sep), s, sep, limits);
  }

  lemma NothingLeft(prefix: string, sep: string, limits: Limits)
    ensures Pack(prefix, [], sep, limits) == []
  {
  }

  lemma RenderTrimmed(p: Piece, sep: string)
    requires p.run != [] && (forall u | u in p.run :: Trimmed(u))
    requires p.prefix == "" || !IsSpace(p.prefix[0])
    ensures Trimmed(Render(p, sep))
  {
    JoinTrimmed(p.run, sep);
    var body := Join(p.run, sep);
    if p.prefix == "" {
      assert "" + body == body;
    } else {
      var s := p.prefix + sep + body;
      assert s[0] == p.prefix[0] && s[|s| - 1] == body[|body| - 1];
    }
  }

  /** Each prefix is empty or a bounded suffix of the text right before it. */
  ghost predicate OverlapsFollow(pieces: seq<Piece>, sep: string, overlap: nat) {
    forall i | 0 < i < |pieces| ::
      |pieces[i].prefix| <= overlap && IsSuffix(pieces[i].prefix, Render(pieces[i - 1], sep))
  }

  lemma OverlapsCons(piece: Piece, rest: seq<Piece>, sep: string, overlap: nat)
    requires OverlapsFollow(rest, sep, overlap)
    requires rest != [] ==>
      |rest[0].prefix| <= overlap && IsSuffix(rest[0].prefix, Render(piece, sep))
    ensures OverlapsFollow([piece] + rest, sep, overlap)
  {
    hide Render, IsSuffix;
    var all := [piece] + rest;
    forall i | 0 < i < |all|
      ensures |all[i].prefix| <= overlap && IsSuffix(all[i].prefix, Render(all[i - 1], sep))
    {
      assert all[i] == rest[i - 1];
      if i > 1 {
        assert all[i - 1] == rest[i - 2];
      }
    }
  }

  lemma NextPrefixFollows(content: string, rest: seq<string>, sep: string, limits: Limits)
    requires Trimmed(content)
    ensures var next := NextPrefix(content, rest, sep, limits);
      |next| <= limits.overlap && IsSuffix(next, content) && (next == "" || !IsSpace(next[0]))
  {
    OverlapIsSuffix(content, limits.overlap);
  }

  lemma {:induction false} PackOverlaps(prefix: string, s: seq<string>, sep: string, limits: Limits)
    requires forall u | u in s :: Trimmed(u)
    requires prefix == "" || !IsSpace(prefix[0])
    ensures OverlapsFollow(Pack(prefix, s, sep, limits), sep, limits.overlap)
    ensures s != [] ==> Pack(prefix, s, sep, limits)[0].prefix == prefix
    decreases |s|
  {
    hide Fits, Render, NextPrefix, RunLength, IsSuffix;
    if s != [] {
      var n := RunLength(prefix, s, 1, sep, limits);
      var piece := Piece(prefix, s[..n]);
      var content := Render(piece, sep);
      assert forall u | u in s[..n] :: u in s;
      assert forall u | u in s[n..] :: u in s;
      RenderTrimmed(piece, sep);
      var next := NextPrefix(content, s[n..], sep, limits);
      NextPrefixFollows(content, s[n..], sep, limits);
      PackOverlaps(next, s[n..], sep, limits);
      OverlapsCons(piece, Pack(next, s[n..], sep, limits), sep, limits.overlap);
    }
  }

  // --- greedy is optimal ---------------------------------------------------------------

  /** A cut of `s` into consecutive runs that fit. */
  ghost predicate FittingCut(cut: seq<seq<string>>, s: seq<string>, sep: string, limits: Limits) {
    Flatten(cut) == s && forall r | r in cut :: r != [] && Fits(Join(r, sep), limits)
  }

  lemma {:induction false} RunLengthMaximal(s: seq<string>, n: nat, m: nat, sep: string, limits: Limits)
    requires 1 <= n <= m <= |s| && Fits(Join(s[..m], sep), limits)
    ensures RunLength("", s, n, sep, limits) >= m
    decreases m - n
  {
    if n < m {
      assert s[..m] == [] + s[..n + 1] + s[n + 1..m];
      SubRunFits([], s[..n + 1], s[n + 1..m], sep, limits);
      assert "" + Join(s[..n + 1], sep) == Join(s[..n + 1], sep);
      RunLengthMaximal(s, n + 1, m, sep, limits);
    }
  }

  lemma SuffixSplit(before: seq<string>, s: seq<string>, head: seq<string>, tail: seq<string>)
    requires before + s == head + tail
    ensures |before| >= |head| ==> before[|head|..] + s == tail
    ensures |before| < |head| ==>
      |head| - |before| <= |s| && head == before + s[..|head| - |before|] && tail == s[|head| - |before|..]
  {
    var t := before + s;
    assert t[|head|..] == tail && t[..|head|] == head;
    if |before| >= |head| {
      assert t[|head|..] == before[|head|..] + s;
    } else {
      assert t[..|head|] == before + s[..|head| - |before|];
      assert t[|head|..] == s[|head| - |before|..];
    }
  }

  /** Without overlap, no cut of a longer text that ends in `s` into fitting runs has fewer
      runs than the greedy packing of `s`. */
  lemma {:induction false} GreedyStaysAhead(before: seq<string>, s: seq<string>, cut: seq<seq<string>>,
                                            sep: string, limits: Limits)
    requires limits.overlap == 0 && FittingCut(cut, before + s, sep, limits)
    ensures |Pack("", s, sep, limits)| <= |cut|
    decreases |cut|
  {
    hide Fits, Render, Join, FirstBlank;
    if s != [] {
      assert (before + s)[|before|] == s[0];
      var head, tail := cut[0], Flatten(cut[1..]);
      SuffixSplit(before, s, head, tail);
      if |before| >= |head| {
        GreedyStaysAhead(before[|head|..], s, cut[1..], sep, limits);
      } else {
        var m := |head| - |before|;
        assert head in cut && head == before + s[..m] + [];
        SubRunFits(before, s[..m], [], sep, limits);
        RunLengthMaximal(s, 1, m, sep, limits);
        var n := RunLength("", s, 1, sep, limits);
        assert tail == s[m..n] + s[n..];
        GreedyStaysAhead(s[m..n], s[n..], cut[1..], sep, limits);
      }
    }
  }

  /** Without overlap, packing uses as few texts as any cut into fitting runs, and is such
      a cut itself. */
  lemma GreedyOptimal(s: seq<string>, cut: seq<seq<string>>, sep: string, limits: Limits)
    requires limits.overlap == 0 && PartsFit(s, limits) && FittingCut(cut, s, sep, limits)
    ensures |Pack("", s, sep, limits)| <= |cut|
    ensures FittingCut(Runs(Pack("", s, sep, limits)), s, sep, limits)
  {
    assert [] + s == s;
    GreedyStaysAhead([], s, cut, sep, limits);
    GreedyIsCut(s, sep, limits);
  }

  lemma GreedyIsCut(s: seq<string>, sep: string, limits: Limits)
    requires limits.overlap == 0 && PartsFit(s, limits)
    ensures FittingCut(Runs(Pack("", s, sep, limits)), s, sep, limits)
  {
    if s != [] {
      RenderAlone(s[0], sep);
      assert s[..1] == [s[0]];
    }
    PackPartitions("", s, sep, limits);
    var pieces := Pack("", s, sep, limits);
    NoOverlapNoPrefix(s, sep, limits);
    forall r | r in Runs(pieces)
      ensures r != [] && Fits(Join(r, sep), limits)
    {
      var i :| 0 <= i < |pieces| && Runs(pieces)[i] == r;
      assert PieceFits(pieces[i], sep, limits);
      assert "" + Join(r, sep) == Join(r, sep);
    }
  }

  lemma {:induction false} NoOverlapNoPrefix(s: seq<string>, sep: string, limits: Limits)
    requires limits.overlap == 0
    ensures forall p | p in Pack("", s, sep, limits) :: p.prefix == ""
    decreases |s|
  {
    if s != [] {
      NoOverlapNoPrefix(s[RunLength("", s, 1, sep, limits)..], sep, limits);
    }
  }
}

/** Splitting oversized blocks and packing the units of each section into chunks. */
module Chunking {
  import opened Wrappers
  import opened Text
  import opened Packing

  datatype Section = Section(key: string, heading: string, blocks: seq<string>)
  datatype SectionChunk = SectionChunk(sectionKey: string, heading: string, content: string)
  datatype ChunkError = BlankBlock | IndivisibleToken | BlankChunk

  const BLANK_LINE := "\n\n"

  /** What validation of a section guarantees: at least one block, each of them trimmed. */
  ghost predicate Normalized(section: Section) {
    section.blocks != [] && forall b | b in section.blocks :: Trimmed(b)
  }

  function WithoutOverlap(limits: Limits): Limits {
    limits.(overlap := 0)
  }

  predicate AllFit(words: seq<string>, limits: Limits) {
    words == [] || (Fits(words[0], limits) && AllFit(words[1..], limits))
  }

  function SplitBlock(block: string, limits: Limits): Result<seq<string>, ChunkError> {
    if Fits(block, limits) then Ok([block])
    else if Words(block) == [] then Err(BlankBlock)
    else if !AllFit(Words(block), limits) then Err(IndivisibleToken)
    else Ok(Texts(Pack("", Words(block), " ", WithoutOverlap(limits)), " "))
  }

  function Prepend<T, E>(done: seq<T>, r: Result<seq<T>, E>): Result<seq<T>, E> {
    match r
    case Ok(value) => Ok(done + value)
    case Err(error) => Err(error)
  }

  function SectionUnits(blocks: seq<string>, limits: Limits): Result<seq<string>, ChunkError> {
    if blocks == [] then Ok([])
    else match SplitBlock(blocks[0], limits)
      case Err(error) => Err(error)
      case Ok(units) => Prepend(units, SectionUnits(blocks[1..], limits))
  }

  function Label(section: Section, contents: seq<string>): (r: seq<SectionChunk>)
    ensures |r| == |contents|
    ensures forall i | 0 <= i < |r| :: r[i] == SectionChunk(section.key, section.heading, contents[i])
  {
    seq(|contents|, i requires 0 <= i < |contents| =>
      SectionChunk(section.key, section.heading, contents[i]))
  }

  function SectionPieces(units: seq<string>, limits: Limits): seq<Piece> {
    Pack("", units, BLANK_LINE, limits)
  }

  function Chunks(sections: seq<Section>, limits: Limits): Result<seq<SectionChunk>, ChunkError> {
    if sections == [] then Ok([])
    else match SectionUnits(sections[0].blocks, limits)
      case Err(error) => Err(error)
      case Ok(units) =>
        Prepend(Label(sections[0], Texts(SectionPieces(units, limits), BLANK_LINE)),
                Chunks(sections[1..], limits))
  }

  // --- the packing loop ------------------------------------------------------------------

  /** The loop has finished the texts `done` and is filling a piece with `s[start..i]`. */
  ghost predicate Filling(done: seq<string>, prefix: string, start: nat, i: nat, s: seq<string>,
                          sep: string, limits: Limits) {
    && start <= i <= |s|
    && (start == i ==> i == 0)
    && Texts(Pack("", s, sep, limits), sep) == done + Texts(Pack(prefix, s[start..], sep, limits), sep)
    && (start < i ==>
          RunLength(prefix, s[start..], i - start, sep, limits) == RunLength(prefix, s[start..], 1, sep, limits))
  }

  lemma FillingStarts(s: seq<string>, sep: string, limits: Limits)
    ensures Filling([], "", 0, 0, s, sep, limits)
  {
    hide Pack, Texts;
    assert s[0..] == s;
    assert [] + Texts(Pack("", s, sep, limits), sep) == Texts(Pack("", s, sep, limits), sep);
  }

  lemma FillingExtends(done: seq<string>, prefix: string, start: nat, i: nat, s: seq<string>,
                       sep: string, limits: Limits)
    requires Filling(done, prefix, start, i, s, sep, limits) && i < |s|
    requires start < i ==> Fits(Render(Piece(prefix, s[start..i + 1]), sep), limits)
    ensures Filling(done, prefix, start, i + 1, s, sep, limits)
  {
    hide Fits, Pack, Render, Texts;
    assert s[start..][..i + 1 - start] == s[start..i + 1];
  }

  lemma FillingBreaks(done: seq<string>, prefix: string, start: nat, i: nat, s: seq<string>,
                      sep: string, limits: Limits)
    requires Filling(done, prefix, start, i, s, sep, limits) && start < i < |s|
    requires !Fits(Render(Piece(prefix, s[start..i + 1]), sep), limits)
    ensures var content := Render(Piece(prefix, s[start..i]), sep);
      Filling(done + [content], NextPrefix(content, s[i..], sep, limits), i, i + 1, s, sep, limits)
  {
    hide Fits, Render, NextPrefix;
    var content := Render(Piece(prefix, s[start..i]), sep);
    assert s[start..][..i + 1 - start] == s[start..i + 1];
    assert s[start..][..i - start] == s[start..i] && s[start..][i - start..] == s[i..];
    var next := NextPrefix(content, s[i..], sep, limits);
    var rest := Pack(next, s[i..], sep, limits);
    assert Pack(prefix, s[start..], sep, limits) == [Piece(prefix, s[start..i])] + rest;
    assert Texts([Piece(prefix, s[start..i])] + rest, sep) == [content] + Texts(rest, sep);
    assert done + ([content] + Texts(rest, sep)) == (done + [content]) + Texts(rest, sep);
  }

  lemma FillingEnds(done: seq<string>, prefix: string, start: nat, s: seq<string>,
                    sep: string, limits: Limits)
    requires Filling(done, prefix, start, |s|, s, sep, limits) && start < |s|
    ensures Texts(Pack("", s, sep, limits), sep) == done + [Render(Piece(prefix, s[start..]), sep)]
  {
    hide Fits, Render;
    assert s[start..][..|s| - start] == s[start..] && s[start..][|s| - start..] == [];
    assert Pack(prefix, s[start..], sep, limits) == [Piece(prefix, s[start..])];
  }

  /** The text of a piece that has just been opened. */
  function Opening(prefix: string, part: string, sep: string): string {
    if prefix == "" then part else prefix + sep + part
  }

  /** One turn of a packing loop: the candidate is kept exactly when it fits. */
  lemma PackingTurn(done: seq<string>, prefix: string, start: nat, i: nat, s: seq<string>,
                    current: string, sep: string, limits: Limits)
    requires Filling(done, prefix, start, i, s, sep, limits) && i < |s| && Fits(s[i], limits)
    requires if i == 0 then prefix == "" else current == Render(Piece(prefix, s[start..i]), sep)
    ensures var candidate := if i == 0 then s[i] else current + sep + s[i];
      var next := NextPrefix(current, s[i..], sep, limits);
      && (Fits(candidate, limits) ==>
            && Filling(done, prefix, start, i + 1, s, sep, limits)
            && candidate == Render(Piece(prefix, s[start..i + 1]), sep))
      && (!Fits(candidate, limits) ==>
            && i > 0 && Filling(done + [current], next, i, i + 1, s, sep, limits)
            && Opening(next, s[i], sep) == Render(Piece(next, s[i..i + 1]), sep))
  {
    hide Fits, Pack, RunLength, Texts, NextPrefix;
    assert s[start..i + 1] == s[start..i] + [s[i]] && s[i..i + 1] == [s[i]];
    var candidate := if i == 0 then s[i] else current + sep + s[i];
    RenderAlone(s[i], sep);
    if i > 0 {
      RenderExtends(prefix, s[start..i], s[i], sep);
    }
    if Fits(candidate, limits) {
      FillingExtends(done, prefix, start, i, s, sep, limits);
    } else {
      FillingBreaks(done, prefix, start, i, s, sep, limits);
    }
  }

  /** The same turn when nothing is carried over. */
  lemma PlainTurn(done: seq<string>, start: nat, i: nat, s: seq<string>,
                  current: string, sep: string, limits: Limits)
    requires Filling(done, "", start, i, s, sep, limits) && i < |s| && Fits(s[i], limits)
    requires i > 0 ==> current == Render(Piece("", s[start..i]), sep) && Trimmed(current)
    requires limits.overlap == 0 && Trimmed(s[i])
    ensures var candidate := if i == 0 then s[i] else current + sep + s[i];
      && Trimmed(candidate)
      && (Fits(candidate, limits) ==>
            && Filling(done, "", start, i + 1, s, sep, limits)
            && candidate == Render(Piece("", s[start..i + 1]), sep))
      && (!Fits(candidate, limits) ==>
            && i > 0 && Filling(done + [current], "", i, i + 1, s, sep, limits)
            && s[i] == Render(Piece("", s[i..i + 1]), sep))
  {
    hide Fits, Pack, Render, RunLength, Texts;
    PackingTurn(done, "", start, i, s, current, sep, limits);
    if i > 0 {
      JoinedTrimmed(current, sep, s[i]);
    }
    assert NextPrefix(current, s[i..], sep, limits) == "";
  }

  /** The word loop: packs words between single spaces, or stops at one that is too long. */
  method PackWords(words: seq<string>, limits: Limits) returns (r: Result<seq<string>, ChunkError>)
    requires words != [] && limits.overlap == 0 && forall w | w in words :: Trimmed(w)
    ensures r == if AllFit(words, limits) then Ok(Texts(Pack("", words, " ", limits), " "))
                 else Err(IndivisibleToken)
  {
    FillingStarts(words, " ", limits);
    hide Filling, Fits, IsSpace, Pack, Render, RunLength, Texts, NextPrefix;
    var pieces: seq<string>, current := [], "";
    ghost var start: nat := 0;
    for i := 0 to |words|
      invariant AllFit(words, limits) == AllFit(words[i..], limits)
      invariant start <= i && (start == i ==> i == 0)
      invariant Filling(pieces, "", start, i, words, " ", limits)
      invariant if i == 0 then current == ""
                else Trimmed(current) && current == Render(Piece("", words[start..i]), " ")
    {
      var word := words[i];
      assert Trimmed(word) && words[i..][0] == word && words[i..][1..] == words[i + 1..];
      if !Fits(word, limits) {
        return Err(IndivisibleToken);
      }
      var candidate := if current == "" then word else current + " " + word;
      PlainTurn(pieces, start, i, words, current, " ", limits);
      if Fits(candidate, limits) {
        current := candidate;
      } else {
        pieces := pieces + [current];
        current, start := word, i;
      }
    }
    FillingEnds(pieces, "", start, words, " ", limits);
    assert words[start..] == words[start..|words|] && words[|words|..] == [];
    r := Ok(pieces + [current]);
  }

  /** Cuts one block at white space so that every piece fits, or reports why it cannot. */
  method SplitBlockIntoPieces(block: string, limits: Limits) returns (r: Result<seq<string>, ChunkError>)
    ensures r == SplitBlock(block, limits)
  {
    if Fits(block, limits) {
      return Ok([block]);
    }
    var words := Words(block);
    if words == [] {
      return Err(BlankBlock);
    }
    WordsAreTrimmed(words);
    AllFitMeans(words, limits);
    AllFitMeans(words, WithoutOverlap(limits));
    r := PackWords(words, WithoutOverlap(limits));
  }

  /** Reopening after a full chunk: the overlap is kept only when the first unit still fits. */
  lemma Reopening(current: string, unit: string, rest: seq<string>, sep: string, limits: Limits)
    requires rest != [] && rest[0] == unit
    ensures var candidate := Opening(OverlapSuffix(current, limits.overlap), unit, sep);
      Opening(NextPrefix(current, rest, sep, limits), unit, sep)
      == if Fits(candidate, limits) then candidate else unit
  {
    assert rest[..1] == [unit];
  }

  lemma JoinedTrimmed(a: string, sep: string, b: string)
    requires Trimmed(b) && a != "" && !IsSpace(a[0])
    ensures Trimmed(a + sep + b)
  {
    var s := a + sep + b;
    assert s[0] == a[0] && s[|s| - 1] == b[|b| - 1];
  }

  lemma ContentsPacked(units: seq<string>, limits: Limits)
    requires PartsFit(units, limits) && forall u | u in units :: Trimmed(u)
    ensures Packed(Texts(SectionPieces(units, limits), BLANK_LINE), units, BLANK_LINE, limits)
  {
    hide Pack, Packed, Texts, PartsFit, Trimmed;
    PackIsPacked(units, BLANK_LINE, limits);
  }

  /** Packs the units of one section into the contents of its chunks. */
  method PackUnits(units: seq<string>, limits: Limits) returns (contents: seq<string>)
    requires PartsFit(units, limits) && forall u | u in units :: Trimmed(u)
    ensures contents == Texts(SectionPieces(units, limits), BLANK_LINE)
    ensures Packed(contents, units, BLANK_LINE, limits)
  {
    assert units == [] ==> Texts(SectionPieces(units, limits), BLANK_LINE) == [];
    FillingStarts(units, BLANK_LINE, limits);
    hide Filling, Fits, IsSpace, Pack, Render, RunLength, Texts, NextPrefix, OverlapSuffix, Packed;
    contents := [];
    var current := "";
    ghost var start: nat, prefix := 0, "";
    for i := 0 to |units|
      invariant start <= i && (start == i ==> i == 0)
      invariant Filling(contents, prefix, start, i, units, BLANK_LINE, limits)
      invariant if i == 0 then prefix == current == "" && contents == []
                else Trimmed(current) && current == Render(Piece(prefix, units[start..i]), BLANK_LINE)
    {
      var unit := units[i];
      assert Trimmed(unit) && Fits(unit, limits);
      var candidate := if current == "" then unit else current + BLANK_LINE + unit;
      PackingTurn(contents, prefix, start, i, units, current, BLANK_LINE, limits);
      if i > 0 {
        JoinedTrimmed(current, BLANK_LINE, unit);
      }
      if Fits(candidate, limits) {
        current := candidate;
        continue;
      }
      if current != "" {
        contents := contents + [current];
      }
      var overlap := OverlapSuffix(current, limits.overlap);
      OverlapIsSuffix(current, limits.overlap);
      Reopening(current, unit, units[i..], BLANK_LINE, limits);
      prefix, start := NextPrefix(current, units[i..], BLANK_LINE, limits), i;
      candidate := if overlap != "" then overlap + BLANK_LINE + unit else unit;
      if overlap != "" {
        JoinedTrimmed(overlap, BLANK_LINE, unit);
      }
      current := if Fits(candidate, limits) then candidate else unit;
    }
    if current != "" {
      FillingEnds(contents, prefix, start, units, BLANK_LINE, limits);
      assert units[start..] == units[start..|units|];
      contents := contents + [current];
    }
    ContentsPacked(units, limits);
  }

  /** The units of one section: its blocks, the oversized ones cut. */
  method CollectUnits(blocks: seq<string>, limits: Limits) returns (r: Result<seq<string>, ChunkError>)
    ensures r == SectionUnits(blocks, limits)
  {
    var units: seq<string> := [];
    assert blocks[0..] == blocks;
    PrependNothing(SectionUnits(blocks, limits));
    for k := 0 to |blocks|
      invariant SectionUnits(blocks, limits) == Prepend(units, SectionUnits(blocks[k..], limits))
    {
      var pieces := SplitBlockIntoPieces(blocks[k], limits);
      assert blocks[k..][0] == blocks[k] && blocks[k..][1..] == blocks[k + 1..];
      if pieces.Err? {
        return Err(pieces.error);
      }
      PrependTwice(units, pieces.value, SectionUnits(blocks[k + 1..], limits));
      units := units + pieces.value;
    }
    assert blocks[|blocks|..] == [] && units + [] == units;
    r := Ok(units);
  }

  /** Chunks every section in order; no chunk mixes two sections. The final test for blank
      chunks never succeeds. */
  method ChunkSections(sections: seq<Section>, limits: Limits)
    returns (r: Result<seq<SectionChunk>, ChunkError>)
    requires forall s | s in sections :: Normalized(s)
    ensures r == Chunks(sections, limits)
    ensures r.Ok? ==> Sectioned(sections, r.value, limits)
  {
    hide Sectioned;
    var chunks: seq<SectionChunk> := [];
    assert sections[0..] == sections;
    PrependNothing(Chunks(sections, limits));
    for n := 0 to |sections|
      invariant Chunks(sections, limits) == Prepend(chunks, Chunks(sections[n..], limits))
    {
      var section := sections[n];
      assert Normalized(section);
      assert sections[n..][0] == section && sections[n..][1..] == sections[n + 1..];
      var units := CollectUnits(section.blocks, limits);
      if units.Err? {
        return Err(units.error);
      }
      UnitsGood(section.blocks, limits);
      var contents := PackUnits(units.value, limits);
      PrependTwice(chunks, Label(section, contents), Chunks(sections[n + 1..], limits));
      chunks := chunks + Label(section, contents);
    }
    assert sections[|sections|..] == [] && chunks + [] == chunks;
    assert Chunks(sections, limits) == Ok(chunks);
    ChunksTrimmed(sections, limits);
    ChunksSectioned(sections, limits);
    if exists i | 0 <= i < |chunks| :: Strip(chunks[i].content) == "" {
      r := Err(BlankChunk);
    } else {
      r := Ok(chunks);
    }
  }

  /** The first `n` chunks are those of this section: they carry its key and heading, and their
      contents pack its units. */
  ghost predicate OwnChunks(section: Section, units: seq<string>, chunks: seq<SectionChunk>, contents: seq<string>,
                            limits: Limits) {
    && SectionUnits(section.blocks, limits) == Ok(units) && Packed(contents, units, BLANK_LINE, limits)
    && |contents| <= |chunks|
    && forall i | 0 <= i < |contents| ::
         chunks[i].sectionKey == section.key && chunks[i].heading == section.heading && chunks[i].content == contents[i]
  }

  /** Section after section, each with chunks of its own. */
  ghost predicate Sectioned(sections: seq<Section>, chunks: seq<SectionChunk>, limits: Limits) {
    if sections == [] then chunks == []
    else exists units, contents ::
      OwnChunks(sections[0], units, chunks, contents, limits)
      && Sectioned(sections[1..], chunks[|contents|..], limits)
  }

  lemma {:induction false} ChunksSectioned(sections: seq<Section>, limits: Limits)
    requires (forall s | s in sections :: Normalized(s)) && Chunks(sections, limits).Ok?
    ensures Sectioned(sections, Chunks(sections, limits).value, limits)
  {
    if sections != [] {
      assert Normalized(sections[0]);
      UnitsGood(sections[0].blocks, limits);
      var units := SectionUnits(sections[0].blocks, limits).value;
      var contents := Texts(SectionPieces(units, limits), BLANK_LINE);
      PackIsPacked(units, BLANK_LINE, limits);
      ChunksSectioned(sections[1..], limits);
      var chunks := Chunks(sections, limits).value;
      assert chunks == Label(sections[0], contents) + Chunks(sections[1..], limits).value;
      hide Chunks, SectionUnits, SectionPieces, Texts, Packed;
      assert chunks[|contents|..] == Chunks(sections[1..], limits).value;
      assert OwnChunks(sections[0], units, chunks, contents, limits);
    }
  }

  /** No chunk is blank: each starts and ends with a visible character. */
  lemma {:induction false} ChunksTrimmed(sections: seq<Section>, limits: Limits)
    requires (forall s | s in sections :: Normalized(s)) && Chunks(sections, limits).Ok?
    ensures forall c | c in Chunks(sections, limits).value :: Trimmed(c.content) && Strip(c.content) != ""
  {
    if sections != [] {
      assert Normalized(sections[0]);
      UnitsGood(sections[0].blocks, limits);
      var units := SectionUnits(sections[0].blocks, limits).value;
      var contents := Texts(SectionPieces(units, limits), BLANK_LINE);
      ContentsTrimmed(units, limits);
      ChunksTrimmed(sections[1..], limits);
      forall c | c in Label(sections[0], contents)
        ensures Trimmed(c.content) && Strip(c.content) != ""
      {
        assert c.content in contents;
        StripSuffix(c.content);
      }
    }
  }

  lemma PrependNothing<T, E>(r: Result<seq<T>, E>)
    ensures Prepend([], r) == r
  {
    if r.Ok? {
      assert [] + r.value == r.value;
    }
  }

  lemma PrependTwice<T, E>(a: seq<T>, b: seq<T>, r: Result<seq<T>, E>)
    ensures Prepend(a, Prepend(b, r)) == Prepend(a + b, r)
  {
    if r.Ok? {
      assert a + (b + r.value) == (a + b) + r.value;
    }
  }

  // --- splitting a block -----------------------------------------------------------------

  /** A word of a text is no longer than the text, in either measure. */
  lemma {:induction false} WordFits(s: string, w: string, limits: Limits)
    requires w in Words(s) && Fits(s, limits)
    ensures Fits(w, limits)
    decreases |s|
  {
    if IsSpace(s[0]) {
      assert s == [s[0]] + s[1..];
      FitsParts([s[0]], s[1..], limits);
      WordFits(s[1..], w, limits);
    } else {
      var n := WordEnd(s);
      assert s == s[..n] + s[n..];
      FitsParts(s[..n], s[n..], limits);
      if w != s[..n] {
        WordFits(s[n..], w, limits);
      }
    }
  }

  lemma {:induction false} VisibleHasWords(s: string)
    requires exists i :: 0 <= i < |s| && !IsSpace(s[i])
    ensures Words(s) != []
    decreases |s|
  {
    if IsSpace(s[0]) {
      var i :| 0 <= i < |s| && !IsSpace(s[i]);
      assert s[1..][i - 1] == s[i];
      VisibleHasWords(s[1..]);
    }
  }

  /** Splitting a trimmed block fails exactly when one of its words alone is too long. */
  lemma SplitFailsIff(block: string, limits: Limits)
    requires Trimmed(block)
    ensures SplitBlock(block, limits).Err? <==> exists w | w in Words(block) :: TooLong(w, limits)
    ensures SplitBlock(block, limits).Err? ==> SplitBlock(block, limits).error == IndivisibleToken
  {
    VisibleHasWords(block);
    AllFitMeans(Words(block), limits);
    if Fits(block, limits) {
      forall w | w in Words(block)
        ensures Fits(w, limits)
      {
        WordFits(block, w, limits);
      }
    }
  }

  lemma {:induction false} AllFitMeans(words: seq<string>, limits: Limits)
    ensures AllFit(words, limits) <==> PartsFit(words, limits)
    ensures AllFit(words, limits) <==> AllFit(words, WithoutOverlap(limits))
  {
    if words != [] {
      AllFitMeans(words[1..], limits);
      assert forall w :: w in words <==> w == words[0] || w in words[1..];
    }
  }

  lemma WordsAreTrimmed(words: seq<string>)
    requires forall w | w in words :: IsWord(w)
    ensures forall w | w in words :: Trimmed(w)
  {
    forall w | w in words
      ensures Trimmed(w)
    {
      assert IsWord(w);
    }
  }

  /** Every piece of a split meets both limits and is trimmed again. */
  lemma SplitPiecesFit(block: string, limits: Limits)
    requires Trimmed(block) && SplitBlock(block, limits).Ok?
    ensures var pieces := SplitBlock(block, limits).value;
      pieces != [] && PartsFit(pieces, limits) && forall p | p in pieces :: Trimmed(p)
  {
    hide IsSpace, Pack, Words, IsWord;
    if !Fits(block, limits) {
      var words, plain := Words(block), WithoutOverlap(limits);
      AllFitMeans(words, limits);
      var packed := Pack("", words, " ", plain);
      GreedyIsCut(words, " ", plain);
      NoOverlapNoPrefix(words, " ", plain);
      WordsAreTrimmed(words);
      forall p | p in Texts(packed, " ")
        ensures Fits(p, limits) && Trimmed(p)
      {
        var i :| 0 <= i < |packed| && Texts(packed, " ")[i] == p;
        var run := Runs(packed)[i];
        assert run in Runs(packed) && "" + Join(run, " ") == Join(run, " ") == p;
        FlattenMembers(Runs(packed), i);
        JoinTrimmed(run, " ");
      }
    }
  }

  lemma {:induction false} FlattenMembers(runs: seq<seq<string>>, i: nat)
    requires i < |runs|
    ensures forall p | p in runs[i] :: p in Flatten(runs)
  {
    if i > 0 {
      FlattenMembers(runs[1..], i - 1);
    }
  }

  function WordsOfAll(texts: seq<string>): seq<string> {
    if texts == [] then [] else Words(texts[0]) + WordsOfAll(texts[1..])
  }

  lemma {:induction false} WordsOfPieces(pieces: seq<Piece>)
    requires forall p | p in pieces :: p.prefix == "" && forall w | w in p.run :: IsWord(w)
    ensures WordsOfAll(Texts(pieces, " ")) == Flatten(Runs(pieces))
  {
    if pieces != [] {
      WordsOfPieces(pieces[1..]);
      assert Texts(pieces, " ")[1..] == Texts(pieces[1..], " ");
      assert Runs(pieces)[1..] == Runs(pieces[1..]);
      assert pieces[0] in pieces;
      assert "" + Join(pieces[0].run, " ") == Join(pieces[0].run, " ");
      WordsOfJoin(pieces[0].run);
    }
  }

  /** Splitting keeps the words of the block, all of them, in order. */
  lemma SplitKeepsWords(block: string, limits: Limits)
    requires SplitBlock(block, limits).Ok?
    ensures WordsOfAll(SplitBlock(block, limits).value) == Words(block)
  {
    if Fits(block, limits) {
      assert WordsOfAll([block]) == Words(block) + WordsOfAll([]);
    } else {
      var words, plain := Words(block), WithoutOverlap(limits);
      AllFitMeans(words, limits);
      var packed := Pack("", words, " ", plain);
      GreedyIsCut(words, " ", plain);
      NoOverlapNoPrefix(words, " ", plain);
      forall p | p in packed
        ensures forall w | w in p.run :: IsWord(w)
      {
        var i :| 0 <= i < |packed| && packed[i] == p;
        FlattenMembers(Runs(packed), i);
      }
      WordsOfPieces(packed);
    }
  }

  /** No way to cut the word list into consecutive fitting runs needs fewer pieces. */
  lemma SplitMinimal(block: string, limits: Limits, cut: seq<seq<string>>)
    requires Trimmed(block) && SplitBlock(block, limits).Ok?
    requires FittingCut(cut, Words(block), " ", WithoutOverlap(limits))
    ensures |SplitBlock(block, limits).value| <= |cut|
  {
    VisibleHasWords(block);
    AllFitMeans(Words(block), limits);
    if !Fits(block, limits) {
      GreedyOptimal(Words(block), cut, " ", WithoutOverlap(limits));
    }
  }

  // --- chunking a section ----------------------------------------------------------------

  lemma {:induction false} UnitsGood(blocks: seq<string>, limits: Limits)
    requires (forall b | b in blocks :: Trimmed(b)) && SectionUnits(blocks, limits).Ok?
    ensures var units := SectionUnits(blocks, limits).value;
      && PartsFit(units, limits) && (forall u | u in units :: Trimmed(u))
      && (units == [] <==> blocks == [])
      && WordsOfAll(units) == WordsOfAll(blocks)
  {
    if blocks != [] {
      assert blocks[0] in blocks;
      SplitPiecesFit(blocks[0], limits);
      SplitKeepsWords(blocks[0], limits);
      UnitsGood(blocks[1..], limits);
      WordsOfAllConcat(SplitBlock(blocks[0], limits).value, SectionUnits(blocks[1..], limits).value);
    }
  }

  lemma {:induction false} WordsOfAllConcat(a: seq<string>, b: seq<string>)
    ensures WordsOfAll(a + b) == WordsOfAll(a) + WordsOfAll(b)
  {
    if a == [] {
      assert a + b == b;
    } else {
      assert (a + b)[1..] == a[1..] + b;
      WordsOfAllConcat(a[1..], b);
      assert Words(a[0]) + (WordsOfAll(a[1..]) + WordsOfAll(b))
          == Words(a[0]) + WordsOfAll(a[1..]) + WordsOfAll(b);
    }
  }

  lemma ContentsTrimmed(units: seq<string>, limits: Limits)
    requires PartsFit(units, limits) && forall u | u in units :: Trimmed(u)
    ensures forall c | c in Texts(SectionPieces(units, limits), BLANK_LINE) :: Trimmed(c)
  {
    PiecesTrimmed("", units, BLANK_LINE, limits);
  }

  lemma {:induction false} PiecesTrimmed(prefix: string, s: seq<string>, sep: string, limits: Limits)
    requires (forall u | u in s :: Trimmed(u)) && (prefix == "" || !IsSpace(prefix[0]))
    ensures forall c | c in Texts(Pack(prefix, s, sep, limits), sep) :: Trimmed(c)
    decreases |s|
  {
    hide Fits, IsSpace, NextPrefix, Render, RunLength;
    if s != [] {
      var n := RunLength(prefix, s, 1, sep, limits);
      var piece := Piece(prefix, s[..n]);
      RenderTrimmed(piece, sep);
      var next := NextPrefix(Render(piece, sep), s[n..], sep, limits);
      NextPrefixFollows(Render(piece, sep), s[n..], sep, limits);
      PiecesTrimmed(next, s[n..], sep, limits);
      var rest := Pack(next, s[n..], sep, limits);
      assert Texts([piece] + rest, sep) == [Render(piece, sep)] + Texts(rest, sep);
    }
  }

  /** The chunks of one section: their runs, prefixes removed, are the units in order; each
      prefix is a bounded suffix of the chunk before it, the first has none; every chunk
      meets both limits. */
  lemma SectionPartition(section: Section, limits: Limits)
    requires Normalized(section) && SectionUnits(section.blocks, limits).Ok?
    ensures var units := SectionUnits(section.blocks, limits).value;
      var pieces := SectionPieces(units, limits);
      && pieces != [] && Flatten(Runs(pieces)) == units
      && WordsOfAll(units) == WordsOfAll(section.blocks)
      && (forall p | p in pieces :: PieceFits(p, BLANK_LINE, limits))
      && pieces[0].prefix == "" && OverlapsFollow(pieces, BLANK_LINE, limits.overlap)
      && Follows(pieces, BLANK_LINE, limits)
  {
    hide IsSpace, Pack, Fits;
    UnitsGood(section.blocks, limits);
    var units := SectionUnits(section.blocks, limits).value;
    RenderAlone(units[0], BLANK_LINE);
    assert units[..1] == [units[0]];
    PackPartitions("", units, BLANK_LINE, limits);
    PackOverlaps("", units, BLANK_LINE, limits);
    PackFollows("", units, BLANK_LINE, limits);
  }

  /** With no overlap the section gets as few chunks as any cut of its units allows. */
  lemma SectionMinimal(section: Section, limits: Limits, cut: seq<seq<string>>)
    requires Normalized(section) && SectionUnits(section.blocks, limits).Ok? && limits.overlap == 0
    requires FittingCut(cut, SectionUnits(section.blocks, limits).value, BLANK_LINE, limits)
    ensures |SectionPieces(SectionUnits(section.blocks, limits).value, limits)| <= |cut|
  {
    UnitsGood(section.blocks, limits);
    GreedyOptimal(SectionUnits(section.blocks, limits).value, cut, BLANK_LINE, limits);
  }

  /** All words of a document, in order. */
  function AllWords(sections: seq<Section>): seq<string> {
    if sections == [] then [] else WordsOfAll(sections[0].blocks) + AllWords(sections[1..])
  }

  ghost predicate HasLongWord(words: seq<string>, limits: Limits) {
    exists w :: w in words && TooLong(w, limits)
  }

  lemma LongWordConcat(a: seq<string>, b: seq<string>, limits: Limits)
    ensures HasLongWord(a + b, limits) <==> HasLongWord(a, limits) || HasLongWord(b, limits)
  {
    hide TooLong;
    assert forall w :: w in a + b <==> w in a || w in b;
  }

  lemma {:induction false} UnitsFailIff(blocks: seq<string>, limits: Limits)
    requires forall b | b in blocks :: Trimmed(b)
    ensures SectionUnits(blocks, limits).Err? <==> HasLongWord(WordsOfAll(blocks), limits)
  {
    if blocks != [] {
      assert blocks[0] in blocks;
      SplitFailsIff(blocks[0], limits);
      UnitsFailIff(blocks[1..], limits);
      LongWordConcat(Words(blocks[0]), WordsOfAll(blocks[1..]), limits);
      hide SplitBlock, TooLong, Words;
    }
  }

  /** Chunking a document fails exactly when some word of it is too long to fit on its own. */
  lemma {:induction false} ChunksFailIff(sections: seq<Section>, limits: Limits)
    requires forall s | s in sections :: Normalized(s)
    ensures Chunks(sections, limits).Err? <==> exists w :: w in AllWords(sections) && TooLong(w, limits)
  {
    DocumentFailsIff(sections, limits);
    hide Chunks, AllWords;
  }

  lemma {:induction false} DocumentFailsIff(sections: seq<Section>, limits: Limits)
    requires forall s | s in sections :: Normalized(s)
    ensures Chunks(sections, limits).Err? <==> HasLongWord(AllWords(sections), limits)
  {
    if sections != [] {
      assert Normalized(sections[0]);
      UnitsFailIff(sections[0].blocks, limits);
      DocumentFailsIff(sections[1..], limits);
      LongWordConcat(WordsOfAll(sections[0].blocks), AllWords(sections[1..]), limits);
      hide HasLongWord, SectionUnits;
    }
  }

  /** The chunks of one document are those of its sections, one section after another. */
  lemma {:induction false} SectionsStaySeparate(first: seq<Section>, rest: seq<Section>, limits: Limits)
    requires Chunks(first + rest, limits).Ok?
    ensures Chunks(first, limits).Ok? && Chunks(rest, limits).Ok?
    ensures Chunks(first + rest, limits).value == Chunks(first, limits).value + Chunks(rest, limits).value
  {
    if first == [] {
      assert first + rest == rest;
    } else {
      assert (first + rest)[0] == first[0] && (first + rest)[1..] == first[1..] + rest;
      SectionsStaySeparate(first[1..], rest, limits);
    }
  }
}
