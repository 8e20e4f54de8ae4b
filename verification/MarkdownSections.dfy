/** Grouping the tokens of a Markdown document into keyed sections under their headings. Inline
    text arrives extracted and normalised, or as a failure. */
module MarkdownSections {
  import opened Wrappers
  import opened CanonicalJson
  import C = Chunking

  /** A heading whose tag is not `h` and digits has no level. */
  datatype Token =
    | HeadingOpen(level: Option<nat>)
    | HeadingClose
    | Inline(content: Option<string>)
    | Code(content: Option<string>)
    | Rule
    | Structural
    | HtmlBlock
    | Unsupported

  datatype MarkdownError = MalformedHeading | EmptyHeading | BadText | RawHtml | UnsupportedToken | NoText

  // --- section keys --------------------------------------------------------------------------

  const PREAMBLE := "preamble"

  /** The decimal digits of `n`, padded with zeros to four. */
  function Padded(n: nat): string {
    var s := Digits(n);
    if |s| >= 4 then s else if |s| == 3 then "0" + s else if |s| == 2 then "00" + s else "000" + s
  }

  function SectionKey(n: nat): string {
    "section_" + Padded(n)
  }

  lemma {:induction false} ZeroFirst(s: string)
    ensures DigitsValue("0" + s) == DigitsValue(s)
  {
    var t := "0" + s;
    if s == "" {
      assert t[..|t| - 1] == "";
    } else {
      assert t[..|t| - 1] == "0" + s[..|s| - 1];
      ZeroFirst(s[..|s| - 1]);
    }
  }

  /** Numbers below a thousand have at most three digits, and digits are digits. */
  lemma DigitsShort(n: nat)
    ensures n < 1000 ==> |Digits(n)| <= 3
    ensures forall i | 0 <= i < |Digits(n)| :: '0' <= Digits(n)[i] <= '9'
  {
    if 10 <= n < 1000 {
      var m := n / 10;
      assert Digits(n) == Digits(m) + [('0' as int + n % 10) as char];
      if m >= 10 {
        assert Digits(m) == Digits(m / 10) + [('0' as int + m % 10) as char];
        assert |Digits(m / 10)| == 1;
      }
    }
  }

  /** A padded number has four digits or more, and four when it is below a thousand. */
  lemma PaddedDigits(n: nat)
    ensures |Padded(n)| >= 4 && (n < 1000 ==> |Padded(n)| == 4)
    ensures forall i | 0 <= i < |Padded(n)| :: '0' <= Padded(n)[i] <= '9'
  {
    DigitsShort(n);
    hide Digits;
  }

  lemma PaddedValue(n: nat)
    ensures DigitsValue(Padded(n)) == n
  {
    var s := Digits(n);
    DigitsRead(n);
    ZeroFirst(s);
    ZeroFirst("0" + s);
    ZeroFirst("00" + s);
    assert "0" + ("0" + s) == "00" + s && "0" + ("00" + s) == "000" + s;
  }

  lemma KeysDiffer(n: nat, m: nat)
    ensures SectionKey(n) == SectionKey(m) ==> n == m
    ensures SectionKey(n) != PREAMBLE
  {
    assert SectionKey(n)[0] == 's' && PREAMBLE[0] == 'p';
    if SectionKey(n) == SectionKey(m) {
      assert Padded(n) == SectionKey(n)[8..] && Padded(m) == SectionKey(m)[8..];
      PaddedValue(n);
      PaddedValue(m);
    }
  }

  // --- the heading path ----------------------------------------------------------------------

  /** `heading_path[level - 1:] = [content]`: at level zero the slice starts at the last entry. */
  function Headed(path: seq<string>, level: nat, content: string): seq<string> {
    if level == 0 then (if path == [] then [] else path[..|path| - 1]) + [content]
    else if |path| < level then path + [content]
    else path[..level - 1] + [content]
  }

  /** A heading of a level keeps the headings above that level and comes last: of the path before,
      the first `level - 1` entries stay, or all of them when there are fewer. So the path is no
      longer than the level, exactly for the levels Markdown has; at level zero the last entry
      would be replaced. */
  lemma PathBoundedIff(path: seq<string>, level: nat, content: string)
    ensures var headed := Headed(path, level, content);
      && headed != [] && headed[|headed| - 1] == content
      && (forall i | 0 <= i < |headed| - 1 :: i < |path| && headed[i] == path[i])
      && (level >= 1 ==> |headed| == if |path| < level - 1 then |path| + 1 else level)
      && (level == 0 ==> |headed| == if path == [] then 1 else |path|)
    ensures |Headed(path, level, content)| <= level <==> level >= 1
  {
  }

  /** The heading of a section joins the path. */
  lemma {:induction false} PathJoins(a: seq<string>, b: seq<string>)
    requires a != [] && b != []
    ensures JoinPath(a + b) == JoinPath(a) + " > " + JoinPath(b)
    ensures |a| == 1 ==> JoinPath(a) == a[0]
  {
    if |a| > 1 {
      PathJoins(a[1..], b);
      assert (a + b)[1..] == a[1..] + b;
    } else {
      assert (a + b)[1..] == b;
    }
  }

  // --- what the document says ----------------------------------------------------------------

  datatype Cursor = Cursor(pending: Option<nat>, blocks: seq<string>)

  /** The text and code that is not heading text, in order, and whether a heading still waits for
      its text. */
  function Reading(tokens: seq<Token>): Cursor {
    if tokens == [] then Cursor(None, [])
    else
      var c, t := Reading(tokens[..|tokens| - 1]), tokens[|tokens| - 1];
      match t
      case HeadingOpen(level) => if level.Some? then c.(pending := level) else c
      case Inline(content) =>
        if content.None? then c
        else if c.pending.Some? then c.(pending := None) else c.(blocks := c.blocks + [content.value])
      case Code(content) => if content.None? then c else c.(blocks := c.blocks + [content.value])
      case _ => c
  }

  /** The heading path after the tokens. */
  function PathAfter(tokens: seq<Token>): seq<string> {
    if tokens == [] then []
    else
      var before, t := tokens[..|tokens| - 1], tokens[|tokens| - 1];
      if t.Inline? && t.content.Some? && Reading(before).pending.Some?
      then Headed(PathAfter(before), Reading(before).pending.value, t.content.value)
      else PathAfter(before)
  }

  /** A token that the adapter accepts at this point. */
  predicate Acceptable(before: seq<Token>, t: Token) {
    match t
    case HeadingOpen(level) => level.Some?
    case HeadingClose => Reading(before).pending.None?
    case Inline(content) => content.Some?
    case Code(content) => content.Some?
    case Rule => true
    case Structural => true
    case _ => false
  }

  /** A token stream that the adapter accepts. */
  ghost predicate Accepted(tokens: seq<Token>) {
    && (forall i | 0 <= i < |tokens| :: Acceptable(tokens[..i], tokens[i]))
    && Reading(tokens).pending.None? && Reading(tokens).blocks != []
  }

  function AllBlocks(sections: seq<C.Section>): seq<string> {
    if sections == [] then [] else AllBlocks(sections[..|sections| - 1]) + sections[|sections| - 1].blocks
  }

  function JoinPath(path: seq<string>): string {
    if path == [] then "" else if |path| == 1 then path[0] else path[0] + " > " + JoinPath(path[1..])
  }

  /** Before the first heading text the heading is the document's. */
  function HeadingAfter(tokens: seq<Token>): string {
    if PathAfter(tokens) == [] then "Document" else JoinPath(PathAfter(tokens))
  }

  /** A heading or a rule ends what came before it. */
  predicate IsBreak(t: Token) {
    t.HeadingOpen? || t.Rule?
  }

  /** `tokens[a..b]` is the stretch between two neighbouring breaks or ends of the document. */
  ghost predicate Stretch(tokens: seq<Token>, a: nat, b: nat) {
    && a <= b <= |tokens| && (a == 0 || IsBreak(tokens[a - 1])) && (b == |tokens| || IsBreak(tokens[b]))
    && forall k | a <= k < b :: !IsBreak(tokens[k])
  }

  /** Section `i` holds all the text of one stretch, under the heading path at its end, and its
      key is its number, or the preamble's before any heading. */
  ghost predicate Holds(sections: seq<C.Section>, i: nat, tokens: seq<Token>, a: nat, b: nat)
    requires i < |sections|
  {
    && Stretch(tokens, a, b) && sections[i].blocks != []
    && AllBlocks(sections[..i]) == Reading(tokens[..a]).blocks
    && AllBlocks(sections[..i + 1]) == Reading(tokens[..b]).blocks
    && sections[i].heading == HeadingAfter(tokens[..b])
    && sections[i].key == if i == 0 && PathAfter(tokens[..b]) == [] then PREAMBLE else SectionKey(i + 1)
  }

  ghost predicate Placed(sections: seq<C.Section>, i: nat, tokens: seq<Token>)
    requires i < |sections|
  {
    exists a, b :: Holds(sections, i, tokens, a, b)
  }

  ghost predicate AllPlaced(sections: seq<C.Section>, tokens: seq<Token>) {
    forall i | 0 <= i < |sections| :: Placed(sections, i, tokens)
  }

  // --- the loop ------------------------------------------------------------------------------

  function Flushed(sections: seq<C.Section>, blocks: seq<string>, heading: string, sawHeading: bool): seq<C.Section> {
    if blocks == [] then sections
    else sections + [C.Section(if !sawHeading && sections == [] then PREAMBLE else SectionKey(|sections| + 1),
                               heading, blocks)]
  }

  /** The sections so far hold all text before `start`, and the stretch from there has no break
      before `i`. */
  ghost predicate Following(sections: seq<C.Section>, blocks: seq<string>, tokens: seq<Token>, start: nat, i: nat) {
    && start <= i <= |tokens| && (start == 0 || IsBreak(tokens[start - 1]))
    && (forall k | start <= k < i :: !IsBreak(tokens[k]))
    && AllPlaced(sections, tokens) && AllBlocks(sections) == Reading(tokens[..start]).blocks
    && AllBlocks(sections) + blocks == Reading(tokens[..i]).blocks
  }

  lemma AllBlocksSnoc(sections: seq<C.Section>, s: C.Section)
    ensures AllBlocks(sections + [s]) == AllBlocks(sections) + s.blocks
  {
    assert (sections + [s])[..|sections|] == sections;
  }

  /** Flushing at a break or at the end places one more section, or none. */
  lemma FlushPlaces(sections: seq<C.Section>, blocks: seq<string>, tokens: seq<Token>, start: nat, i: nat)
    requires Following(sections, blocks, tokens, start, i) && (i == |tokens| || IsBreak(tokens[i]))
    ensures var f := Flushed(sections, blocks, HeadingAfter(tokens[..i]), PathAfter(tokens[..i]) != []);
      AllPlaced(f, tokens) && AllBlocks(f) == Reading(tokens[..i]).blocks
  {
    hide SectionKey, HeadingAfter, Reading, PathAfter, AllBlocks, IsBreak;
    var f := Flushed(sections, blocks, HeadingAfter(tokens[..i]), PathAfter(tokens[..i]) != []);
    if blocks == [] {
      assert AllBlocks(sections) + [] == AllBlocks(sections);
    } else {
      AllBlocksSnoc(sections, f[|sections|]);
      forall k | 0 <= k < |f|
        ensures Placed(f, k, tokens)
      {
        if k < |sections| {
          assert Placed(sections, k, tokens);
          var a, b :| Holds(sections, k, tokens, a, b);
          assert f[..k] == sections[..k] && f[..k + 1] == sections[..k + 1];
          assert Holds(f, k, tokens, a, b);
        } else {
          assert f[..k] == sections && f[..k + 1] == f;
          assert Holds(f, k, tokens, start, i);
        }
      }
    }
  }

  /** After a break the next stretch begins. */
  lemma BreakStarts(sections: seq<C.Section>, tokens: seq<Token>, i: nat)
    requires i < |tokens| && IsBreak(tokens[i]) && AllPlaced(sections, tokens)
    requires AllBlocks(sections) == Reading(tokens[..i]).blocks
    ensures Following(sections, [], tokens, i + 1, i + 1)
  {
    assert tokens[..i + 1][..i] == tokens[..i];
    assert Reading(tokens[..i + 1]).blocks == Reading(tokens[..i]).blocks;
    hide Reading, AllPlaced;
    assert AllBlocks(sections) + [] == AllBlocks(sections);
  }

  /** A token that is no break leaves the stretch going. */
  lemma Continues(sections: seq<C.Section>, blocks: seq<string>, tokens: seq<Token>, start: nat, i: nat,
                  more: seq<string>)
    requires Following(sections, blocks, tokens, start, i) && i < |tokens| && !IsBreak(tokens[i])
    requires Reading(tokens[..i + 1]).blocks == Reading(tokens[..i]).blocks + more
    ensures Following(sections, blocks + more, tokens, start, i + 1)
  {
    hide Reading, AllPlaced;
    assert AllBlocks(sections) + (blocks + more) == AllBlocks(sections) + blocks + more;
  }

  /** What one acceptable token does to the reading and the path. */
  lemma NextToken(tokens: seq<Token>, i: nat)
    requires i < |tokens| && Acceptable(tokens[..i], tokens[i])
    ensures var before, after := Reading(tokens[..i]), Reading(tokens[..i + 1]);
      match tokens[i]
      case HeadingOpen(level) =>
        after.pending == level && after.blocks == before.blocks && PathAfter(tokens[..i + 1]) == PathAfter(tokens[..i])
      case Inline(content) =>
        if before.pending.Some? then
          && after.pending == None && after.blocks == before.blocks + []
          && PathAfter(tokens[..i + 1]) == Headed(PathAfter(tokens[..i]), before.pending.value, content.value)
        else
          && after.pending == None && after.blocks == before.blocks + [content.value]
          && PathAfter(tokens[..i + 1]) == PathAfter(tokens[..i])
      case Code(content) =>
        && after.pending == before.pending && after.blocks == before.blocks + [content.value]
        && PathAfter(tokens[..i + 1]) == PathAfter(tokens[..i])
      case _ =>
        && after.pending == before.pending && after.blocks == before.blocks + []
        && PathAfter(tokens[..i + 1]) == PathAfter(tokens[..i])
  {
    assert tokens[..i + 1][..i] == tokens[..i];
    hide Headed;
  }

  lemma HeadedText(path: seq<string>, level: nat, content: string)
    ensures Headed(path, level, content) != []
  {
  }

  /** Group the tokens: it fails exactly for a stream that is not accepted, and otherwise each
      section holds exactly the text between two neighbouring breaks, under the heading path
      there, and all text is held. */
  method Sections(tokens: seq<Token>) returns (r: Result<seq<C.Section>, MarkdownError>)
    ensures r.Ok? <==> Accepted(tokens)
    ensures r.Ok? ==> r.value != [] && AllPlaced(r.value, tokens) && AllBlocks(r.value) == Reading(tokens).blocks
  {
    var path: seq<string> := [];
    var heading := "Document";
    var blocks: seq<string> := [];
    var sections: seq<C.Section> := [];
    var sawHeading := false;
    var pending: Option<nat> := None;
    ghost var start := 0;
    Start(tokens);
    hide SectionKey, JoinPath, Headed, AllPlaced, Accepted, AllBlocks, Reading, PathAfter, Following, Acceptable, Flushed;
    for i := 0 to |tokens|
      invariant forall j | 0 <= j < i :: Acceptable(tokens[..j], tokens[j])
      invariant pending == Reading(tokens[..i]).pending && path == PathAfter(tokens[..i])
      invariant heading == HeadingAfter(tokens[..i]) && sawHeading == (PathAfter(tokens[..i]) != [])
      invariant Following(sections, blocks, tokens, start, i)
    {
      if !Acceptable(tokens[..i], tokens[i]) {
        Refuses(tokens, i);
        return Err(ErrorOf(tokens[i]));
      }
      NextToken(tokens, i);
      Kinds(tokens[..i], tokens[i]);
      match tokens[i] {
        case HeadingOpen(level) =>
          FlushPlaces(sections, blocks, tokens, start, i);
          sections, blocks := Flushed(sections, blocks, heading, sawHeading), [];
          BreakStarts(sections, tokens, i);
          start := i + 1;
          pending := level;
        case Inline(content) =>
          if pending.Some? {
            Continues(sections, blocks, tokens, start, i, []);
            assert blocks + [] == blocks;
            HeadedText(path, pending.value, content.value);
            path := Headed(path, pending.value, content.value);
            heading := JoinPath(path);
            pending, sawHeading := None, true;
          } else {
            Continues(sections, blocks, tokens, start, i, [content.value]);
            blocks := blocks + [content.value];
          }
        case Code(content) =>
          Continues(sections, blocks, tokens, start, i, [content.value]);
          blocks := blocks + [content.value];
        case Rule =>
          FlushPlaces(sections, blocks, tokens, start, i);
          sections, blocks := Flushed(sections, blocks, heading, sawHeading), [];
          BreakStarts(sections, tokens, i);
          start := i + 1;
        case _ =>
          Continues(sections, blocks, tokens, start, i, []);
          assert blocks + [] == blocks;
      }
    }
    assert tokens[..|tokens|] == tokens;
    if pending.Some? {
      NotAccepted(tokens);
      return Err(EmptyHeading);
    }
    FlushPlaces(sections, blocks, tokens, start, |tokens|);
    sections := Flushed(sections, blocks, heading, sawHeading);
    AcceptedIf(tokens);
    NoSections(sections, tokens);
    if sections == [] {
      return Err(NoText);
    }
    r := Ok(sections);
  }

  lemma Kinds(before: seq<Token>, t: Token)
    requires Acceptable(before, t)
    ensures t.HeadingOpen? ==> t.level.Some?
    ensures t.Inline? ==> t.content.Some?
    ensures t.Code? ==> t.content.Some?
  {
  }

  function ErrorOf(t: Token): MarkdownError {
    match t
    case HeadingOpen(_) => MalformedHeading
    case HeadingClose => EmptyHeading
    case Inline(_) => BadText
    case Code(_) => BadText
    case HtmlBlock => RawHtml
    case _ => UnsupportedToken
  }

  lemma Start(tokens: seq<Token>)
    ensures Following([], [], tokens, 0, 0)
    ensures Reading(tokens[..0]) == Cursor(None, []) && PathAfter(tokens[..0]) == []
  {
    assert tokens[..0] == [];
  }

  lemma Refuses(tokens: seq<Token>, i: nat)
    requires i < |tokens| && !Acceptable(tokens[..i], tokens[i])
    ensures !Accepted(tokens)
  {
  }

  lemma NotAccepted(tokens: seq<Token>)
    requires Reading(tokens).pending.Some?
    ensures !Accepted(tokens)
  {
  }

  lemma AcceptedIf(tokens: seq<Token>)
    requires forall i | 0 <= i < |tokens| :: Acceptable(tokens[..i], tokens[i])
    requires Reading(tokens).pending.None?
    ensures Accepted(tokens) <==> Reading(tokens).blocks != []
  {
    hide Acceptable, Reading;
  }

  /** No section at all means no text at all. */
  lemma NoSections(sections: seq<C.Section>, tokens: seq<Token>)
    requires AllPlaced(sections, tokens)
    ensures AllBlocks(sections) == [] <==> sections == []
  {
    if sections != [] {
      var n := |sections| - 1;
      assert Placed(sections, n, tokens);
      assert sections[n].blocks != [];
    }
  }

  // --- consequences --------------------------------------------------------------------------

  /** No section is empty, keys are pairwise distinct, and only the first section can be the
      preamble. */
  lemma KeysDistinct(sections: seq<C.Section>, tokens: seq<Token>, i: nat, j: nat)
    requires AllPlaced(sections, tokens) && i < j < |sections|
    ensures sections[i].key != sections[j].key && sections[j].key != PREAMBLE
    ensures sections[i].blocks != [] && sections[j].blocks != []
  {
    PlacedKey(sections, i, tokens);
    PlacedKey(sections, j, tokens);
    KeysDiffer(i + 1, j + 1);
    KeysDiffer(j + 1, i + 1);
    hide *;
  }

  lemma PlacedKey(sections: seq<C.Section>, i: nat, tokens: seq<Token>)
    requires AllPlaced(sections, tokens) && i < |sections|
    ensures sections[i].blocks != []
    ensures sections[i].key == SectionKey(i + 1) || (i == 0 && sections[i].key == PREAMBLE)
  {
    hide SectionKey, HeadingAfter, Reading, PathAfter, AllBlocks, Stretch;
    assert Placed(sections, i, tokens);
  }

  /** Every heading the document opens has a level of at least one. */
  ghost predicate Levelled(tokens: seq<Token>) {
    forall i | 0 <= i < |tokens| && tokens[i].HeadingOpen? && tokens[i].level.Some? :: tokens[i].level.value >= 1
  }

  lemma {:induction false} PendingLevelled(tokens: seq<Token>)
    requires Levelled(tokens)
    ensures Reading(tokens).pending.Some? ==> Reading(tokens).pending.value >= 1
  {
    if tokens != [] {
      PendingLevelled(tokens[..|tokens| - 1]);
    }
  }

  /** When a heading gets its text, the path is as long as its level at most. */
  lemma PathWithinLevel(tokens: seq<Token>, i: nat)
    requires Levelled(tokens) && i < |tokens| && tokens[i].Inline? && tokens[i].content.Some?
    requires Reading(tokens[..i]).pending.Some?
    ensures |PathAfter(tokens[..i + 1])| <= Reading(tokens[..i]).pending.value
  {
    assert tokens[..i + 1][..i] == tokens[..i];
    assert Levelled(tokens[..i]);
    PendingLevelled(tokens[..i]);
    PathBoundedIff(PathAfter(tokens[..i]), Reading(tokens[..i]).pending.value, tokens[i].content.value);
  }
}
