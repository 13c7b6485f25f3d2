/** The sticky-scroll work list: a scrolling column of entries whose active card
    follows the scroll progress, a preview card for the active entry, and the
    parsing of each entry's description into a first line and bullets. Scroll
    progress and breakpoints are exact reals here, not floating point. */
module StickyScroll {
  import opened Text

  datatype ContentItem = ContentItem(title: string, description: string, content: Option<string>)

  const Bullet: char := '\U{2022}'

  const LinearGradients: seq<string> := [
    "linear-gradient(135deg, #ef008f 0%, #6ec3f4 50%, #9be7ff 100%)",
    "linear-gradient(135deg, #6ec3f4 0%, #7038ff 60%, #c9c9c9 100%)",
    "linear-gradient(135deg, #7038ff 0%, #c9c9c9 60%, #9be7ff 100%)"
  ]

  const BackgroundColors: seq<string> := ["#000000"]

  function Abs(x: real): real
  {
    if x < 0.0 then -x else x
  }

  /** Card `i` of `n` is reached at scroll progress i/n - 0.1. */
  function Breakpoints(n: nat): (bps: seq<real>)
    ensures |bps| == n
  {
    seq(n, i requires 0 <= i < n => (i as real) / (n as real) - 0.1)
  }

  /** `k` is at least as close to `latest` as every breakpoint before `i`, and
      strictly closer than every breakpoint before `k`. */
  ghost predicate FirstNearestAmong(latest: real, bps: seq<real>, k: nat, i: nat)
  {
    && k < |bps|
    && (forall j :: 0 <= j < i && j < |bps| ==> Abs(latest - bps[k]) <= Abs(latest - bps[j]))
    && (forall j :: 0 <= j < k ==> Abs(latest - bps[j]) > Abs(latest - bps[k]))
  }

  /** The nearest breakpoint, the earliest one among equally near ones. */
  ghost predicate IsFirstNearest(latest: real, bps: seq<real>, k: nat)
  {
    FirstNearestAmong(latest, bps, k, |bps|)
  }

  /** `breakpoints.reduce(...)` from index `i` with accumulator `acc`: switch to
      breakpoint `i` only when it is strictly closer. */
  function ReduceClosest(latest: real, bps: seq<real>, i: nat, acc: nat): (r: nat)
    requires i <= |bps| && FirstNearestAmong(latest, bps, acc, i)
    ensures IsFirstNearest(latest, bps, r)
    decreases |bps| - i
  {
    if i == |bps| then acc
    else ReduceClosest(latest, bps, i + 1,
                       if Abs(latest - bps[i]) < Abs(latest - bps[acc]) then i else acc)
  }

  /** The reducer of the scroll callback, started at index 0 with accumulator 0. */
  function Closest(latest: real, bps: seq<real>): (r: nat)
    requires |bps| > 0
    ensures r < |bps| && IsFirstNearest(latest, bps, r)
  {
    ReduceClosest(latest, bps, 0, 0)
  }

  /** Only one index is the earliest nearest one, so the reducer picks it. */
  lemma FirstNearestUnique(latest: real, bps: seq<real>, k: nat, k': nat)
    requires IsFirstNearest(latest, bps, k) && IsFirstNearest(latest, bps, k')
    ensures k == k'
  {
    assert Abs(latest - bps[k]) == Abs(latest - bps[k']);
  }

  /** The breakpoints increase strictly. */
  lemma BreakpointsIncrease(n: nat, i: nat, j: nat)
    requires i < j < n
    ensures Breakpoints(n)[i] < Breakpoints(n)[j]
  {
    var bps := Breakpoints(n);
    var d := n as real;
    assert bps[j] - bps[i] == (j as real) / d - (i as real) / d;
    assert (j as real) / d - (i as real) / d == ((j - i) as real) / d;
  }

  /** Scrolled exactly onto breakpoint `i`, the active card is card `i`. */
  lemma ClosestAtBreakpoint(n: nat, i: nat)
    requires i < n
    ensures Closest(Breakpoints(n)[i], Breakpoints(n)) == i
  {
    var bps := Breakpoints(n);
    var latest := bps[i];
    forall j | 0 <= j < i
      ensures Abs(latest - bps[j]) > Abs(latest - bps[i])
    {
      BreakpointsIncrease(n, j, i);
    }
    FirstNearestUnique(latest, bps, Closest(latest, bps), i);
  }

  /** The gradient of the preview card, with the source's `|| linearGradients[0]`
      fallback; the index is always in range, so the fallback is never used. */
  function Gradient(activeCard: nat): (g: string)
    ensures g == LinearGradients[activeCard % 3]
  {
    var picked := LinearGradients[activeCard % |LinearGradients|];
    if picked != "" then picked else LinearGradients[0]
  }

  /** The panel background; there is one colour, so every card gets it. */
  function Background(activeCard: nat): (c: string)
    ensures c == "#000000"
  {
    BackgroundColors[activeCard % |BackgroundColors|]
  }

  /** `line.replace(/^•\s?/, "")`: drop one leading bullet and at most one white
      space character right after it. */
  function StripBullet(line: string): (r: string)
    ensures |r| <= |line| && r == line[|line| - |r|..]
    ensures |r| < |line| <==> |line| > 0 && line[0] == Bullet
    ensures |line| - |r| == 2 <==> |line| > 1 && line[0] == Bullet && IsJsWhitespace(line[1])
    ensures |line| - |r| == (if |line| > 0 && line[0] == Bullet
                             then (if |line| > 1 && IsJsWhitespace(line[1]) then 2 else 1)
                             else 0)
  {
    if |line| > 0 && line[0] == Bullet then
      if |line| > 1 && IsJsWhitespace(line[1]) then line[2..] else line[1..]
    else line
  }

  /** A second bullet is kept: the prefix is stripped once, not repeatedly. */
  lemma StripBulletOnce()
    ensures StripBullet("\U{2022} \U{2022} x") == "\U{2022} x"
  {
  }

  /** `text.split("\n").filter(Boolean)`. */
  function Lines(text: string): (ls: seq<string>)
    ensures forall k :: 0 <= k < |ls| ==> ls[k] != "" && '\n' !in ls[k]
  {
    SplitPiecesFree(text, '\n');
    SplitPiecesFreeNonEmpty(SplitOn(text, "\n"));
    NonEmpty(SplitOn(text, "\n"))
  }

  lemma SplitPiecesFreeNonEmpty(parts: seq<string>)
    requires forall k :: 0 <= k < |parts| ==> '\n' !in parts[k]
    ensures forall k :: 0 <= k < |NonEmpty(parts)| ==> '\n' !in NonEmpty(parts)[k]
  {
  }

  /** A text made of newline-free pieces, blank ones included, has as its lines
      exactly the non-empty pieces, in order. Every text is such a join, of the
      pieces of its own split (Text.SplitJoinRoundTrip and Text.SplitPiecesFree). */
  lemma LinesOfPieces(pieces: seq<string>)
    requires |pieces| > 0
    requires forall k :: 0 <= k < |pieces| ==> '\n' !in pieces[k]
    ensures Lines(Join(pieces, "\n")) == NonEmpty(pieces)
  {
    JoinSplitPieces(pieces, '\n');
  }

  function MapStrip(lines: seq<string>): (r: seq<string>)
    ensures |r| == |lines|
    ensures forall k :: 0 <= k < |lines| ==> r[k] == StripBullet(lines[k])
  {
    if |lines| == 0 then [] else [StripBullet(lines[0])] + MapStrip(lines[1..])
  }

  /** `Description`: nothing for an empty text; otherwise one bullet per non-empty
      line, the first line included, each with its bullet prefix stripped. */
  function Description(text: string): (r: Option<seq<string>>)
    ensures r.None? <==> text == ""
    ensures r.Some? ==> |r.value| == |Lines(text)|
                        && forall k :: 0 <= k < |Lines(text)| ==> r.value[k] == StripBullet(Lines(text)[k])
  {
    if text == "" then None else Some(MapStrip(Lines(text)))
  }

  /** A description written as newline-free pieces has one bullet per non-empty
      piece, in order; blank lines produce no bullet. */
  lemma DescriptionOfPieces(pieces: seq<string>)
    requires |pieces| > 0 && Join(pieces, "\n") != ""
    requires forall k :: 0 <= k < |pieces| ==> '\n' !in pieces[k]
    ensures Description(Join(pieces, "\n")) == Some(MapStrip(NonEmpty(pieces)))
  {
    LinesOfPieces(pieces);
  }

  /** The text "• a", a blank line, "• b": the blank line is dropped, and each
      bullet loses its prefix. */
  lemma DescriptionSkipsBlankLine()
    ensures Description(Join(["\U{2022} a", "", "\U{2022} b"], "\n")) == Some(["a", "b"])
  {
    var pieces := ["\U{2022} a", "", "\U{2022} b"];
    assert |Join(pieces, "\n")| >= |pieces[0]| > 0;
    assert forall k :: 0 <= k < |pieces| ==> '\n' !in pieces[k];
    DescriptionOfPieces(pieces);
    BlankLineFiltered();
    BlankLineStripped();
  }

  lemma BlankLineFiltered()
    ensures NonEmpty(["\U{2022} a", "", "\U{2022} b"]) == ["\U{2022} a", "\U{2022} b"]
  {
    var a, b := "\U{2022} a", "\U{2022} b";
    NonEmptySingle(a);
    NonEmptySingle("");
    NonEmptySingle(b);
    NonEmptyAppend([a], [""]);
    NonEmptyAppend([a, ""], [b]);
    assert [a] + [""] == [a, ""] && [a, ""] + [b] == [a, "", b];
  }

  lemma BlankLineStripped()
    ensures MapStrip(["\U{2022} a", "\U{2022} b"]) == ["a", "b"]
  {
    var a, b := "\U{2022} a", "\U{2022} b";
    assert StripBullet(a) == a[2..] == "a";
    assert StripBullet(b) == b[2..] == "b";
    var m := MapStrip([a, b]);
    assert m[0] == "a" && m[1] == "b";
  }

  /** What an entry shows under its title: the first line as a role line, and
      the remaining lines handed to `Description`. */
  datatype EntryText = EntryText(first: Option<string>, rest: string)

  function SplitEntry(description: string): (e: EntryText)
    ensures e.first.Some? <==> |Lines(description)| > 0
    ensures e.first.Some? ==> e.first.value == StripBullet(Lines(description)[0])
    ensures e.rest == "" <==> |Lines(description)| <= 1
  {
    var lines := Lines(description);
    EntryText(if |lines| > 0 then Some(StripBullet(lines[0])) else None,
              Join(if |lines| > 0 then lines[1..] else [], "\n"))
  }

  /** Re-splitting the joined rest gives back exactly the lines after the first. */
  lemma RestRoundTrip(description: string)
    ensures Lines(SplitEntry(description).rest) == (if |Lines(description)| > 0 then Lines(description)[1..] else [])
  {
    var lines := Lines(description);
    var tail := if |lines| > 0 then lines[1..] else [];
    JoinSplitRoundTrip(tail, '\n');
  }

  /** The bullets of an entry are its description's lines after the first: the
      caller, not `Description`, drops the first line. With one line or none,
      there are no bullets at all. */
  lemma EntryBullets(description: string)
    ensures |Lines(description)| > 1
            ==> Description(SplitEntry(description).rest) == Some(MapStrip(Lines(description)[1..]))
    ensures |Lines(description)| <= 1 ==> Description(SplitEntry(description).rest) == None
  {
    RestRoundTrip(description);
    assert Lines("") == [];
  }

  /** The preview card: the active item's content, or a placeholder. */
  datatype Preview = Content(c: string) | Placeholder

  function PreviewFor(items: seq<ContentItem>, activeCard: nat): (p: Preview)
    ensures p.Content? <==> activeCard < |items| && items[activeCard].content.Some?
    ensures p.Content? ==> p.c == items[activeCard].content.value
  {
    if activeCard < |items| && items[activeCard].content.Some? then Content(items[activeCard].content.value)
    else Placeholder
  }

  class StickyScroll {
    const contentItems: seq<ContentItem>
    var activeCard: nat

    constructor (items: seq<ContentItem>)
      ensures contentItems == items && activeCard == 0
    {
      contentItems := items;
      activeCard := 0;
    }

    /** The scroll-progress callback: with no cards nothing changes; otherwise the
        active card becomes the earliest nearest breakpoint. */
    method OnScrollChange(latest: real)
      modifies this`activeCard
      ensures |contentItems| == 0 ==> activeCard == old(activeCard)
      ensures |contentItems| > 0 ==> activeCard < |contentItems|
                                      && IsFirstNearest(latest, Breakpoints(|contentItems|), activeCard)
    {
      var cardLength := |contentItems|;
      if cardLength == 0 {
        return;
      }
      activeCard := Closest(latest, Breakpoints(cardLength));
    }
  }
}
