/** The role card of a work entry: an accent colour taken from its gradient, the
    "date • location" meta line split in two, a single-selection chip row, and two
    meta badges that each toggle on click. */
module RoleCard {
  import opened Text

  const DefaultAccent: string := "#EB7431"

  /** The separator of the meta line: a bullet with a space on each side. */
  const Sep: string := " \U{2022} "

  /** `gradient?.[0] ?? "#EB7431"`: a null gradient is `None`, and a missing or null
      first colour is `None` inside it. Only null and undefined fall back; an empty
      colour string is kept. */
  function Accent(gradient: Option<seq<Option<string>>>): (accent: string)
    ensures gradient.Some? && |gradient.value| > 0 && gradient.value[0].Some?
            ==> accent == gradient.value[0].value
    ensures !(gradient.Some? && |gradient.value| > 0 && gradient.value[0].Some?)
            ==> accent == DefaultAccent
  {
    if gradient.Some? && |gradient.value| > 0 && gradient.value[0].Some? then gradient.value[0].value
    else DefaultAccent
  }

  datatype MetaText = MetaText(dateText: string, locationText: string)

  /** An empty meta line gives two empty texts; otherwise the texts are the first
      two pieces of the split, the second one empty when there is no separator. */
  function SplitMeta(meta: string): (m: MetaText)
    ensures meta == "" ==> m == MetaText("", "")
    ensures meta != "" ==> m.dateText == SplitOn(meta, Sep)[0]
    ensures meta != "" ==> m.locationText == (if |SplitOn(meta, Sep)| > 1 then SplitOn(meta, Sep)[1] else "")
  {
    if meta == "" then MetaText("", "")
    else
      var parts := SplitOn(meta, Sep);
      MetaText(parts[0], if |parts| > 1 then parts[1] else "")
  }

  /** Without a separator the whole line is the date. */
  lemma MetaWithoutSep(meta: string)
    requires !Contains(meta, Sep)
    ensures SplitMeta(meta) == MetaText(meta, "")
  {
    SplitNoSep(meta, Sep);
  }

  /** A date and a location joined by the separator split back into themselves,
      when the separator does not occur in the location, nor in the date followed
      by the first two characters of the separator. */
  lemma MetaRoundTrip(d: string, l: string)
    requires !Contains(d + " \U{2022}", Sep) && !Contains(l, Sep)
    ensures SplitMeta(d + Sep + l) == MetaText(d, l)
  {
    assert Sep[..|Sep| - 1] == " \U{2022}";
    SplitConcat(d, Sep, l);
    SplitNoSep(l, Sep);
    assert d + Sep + l != "" by { assert |d + Sep + l| >= 3; }
  }

  /** Pieces after the second are ignored. */
  lemma MetaIgnoresLater(d: string, l: string, more: string)
    requires !Contains(d + " \U{2022}", Sep) && !Contains(l + " \U{2022}", Sep)
    ensures SplitMeta(d + Sep + l + Sep + more) == MetaText(d, l)
  {
    assert Sep[..|Sep| - 1] == " \U{2022}";
    assert d + Sep + l + Sep + more == d + Sep + (l + Sep + more);
    SplitConcat(d, Sep, l + Sep + more);
    SplitConcat(l, Sep, more);
    assert |d + Sep + l + Sep + more| >= 3;
  }

  /** A date that ends in " •" is cut short even though the separator does not
      occur in it: "Jan •" and "CA" come back as "Jan" and "• CA". */
  lemma MetaAmbiguous()
    ensures !Contains("Jan \U{2022}", Sep)
    ensures SplitMeta("Jan \U{2022}" + Sep + "CA") == MetaText("Jan", "\U{2022} CA")
  {
    var s := "Jan \U{2022}" + Sep + "CA";
    forall p: nat ensures !OccursAt("Jan \U{2022}", Sep, p) {
      if p + 3 <= 5 {
        assert "Jan \U{2022}"[p..p + 3][1] == "Jan \U{2022}"[p + 1];
      }
    }
    assert s == "Jan" + Sep + "\U{2022} CA";
    var d := "Jan";
    assert d + " \U{2022}" == "Jan \U{2022}";
    assert Sep[..|Sep| - 1] == " \U{2022}";
    SplitConcat(d, Sep, "\U{2022} CA");
    forall p: nat ensures !OccursAt("\U{2022} CA", Sep, p) {
      if p + 3 <= 4 {
        assert "\U{2022} CA"[p..p + 3][0] == "\U{2022} CA"[p];
        assert "\U{2022} CA"[p..p + 3][1] == "\U{2022} CA"[p + 1];
      }
    }
    SplitNoSep("\U{2022} CA", Sep);
  }

  /** The chip updater `prev === i ? null : i`: clicking the active chip clears the
      selection, clicking any other chip selects it. */
  function ToggleChip(prev: Option<nat>, i: nat): (next: Option<nat>)
    ensures next.None? <==> prev == Some(i)
    ensures next.Some? ==> next.value == i
  {
    if prev == Some(i) then None else Some(i)
  }

  /** Clicking the same chip twice restores the selection exactly when the chip was
      selected or nothing was; otherwise the second click clears it. */
  lemma ToggleChipTwice(prev: Option<nat>, i: nat)
    ensures ToggleChip(ToggleChip(prev, i), i) == (if prev == Some(i) then prev else None)
  {
  }

  /** Chip `idx` is drawn active when it is the selection, so at most one is. */
  predicate ChipActive(activeChip: Option<nat>, idx: nat)
    ensures ChipActive(activeChip, idx) ==> activeChip.Some? && activeChip.value == idx
  {
    activeChip == Some(idx)
  }

  lemma AtMostOneChip(activeChip: Option<nat>, j: nat, k: nat)
    requires ChipActive(activeChip, j) && ChipActive(activeChip, k)
    ensures j == k
  {
  }

  datatype MetaKey = Date | Loc

  datatype MetaFlags = MetaFlags(date: bool, loc: bool)

  function Get(s: MetaFlags, key: MetaKey): bool
  {
    match key
    case Date => s.date
    case Loc => s.loc
  }

  /** `{ ...s, [key]: !s[key] }`: the flag of `key` is negated, the other is kept. */
  function Flip(s: MetaFlags, key: MetaKey): (t: MetaFlags)
    ensures Get(t, key) == !Get(s, key)
    ensures forall other :: other != key ==> Get(t, other) == Get(s, other)
  {
    match key
    case Date => s.(date := !s.date)
    case Loc => s.(loc := !s.loc)
  }

  /** Flipping a key twice gives back the flags. */
  lemma FlipTwice(s: MetaFlags, key: MetaKey)
    ensures Flip(Flip(s, key), key) == s
  {
  }

  class RoleCard {
    const meta: string
    const gradient: Option<seq<Option<string>>>
    var activeChip: Option<nat>
    var activeMeta: MetaFlags

    constructor (meta: string, gradient: Option<seq<Option<string>>>)
      ensures this.meta == meta && this.gradient == gradient
      ensures activeChip == None && activeMeta == MetaFlags(false, false)
    {
      this.meta := meta;
      this.gradient := gradient;
      activeChip := None;
      activeMeta := MetaFlags(false, false);
    }

    method OnChipClick(i: nat)
      modifies this`activeChip
      ensures activeChip == ToggleChip(old(activeChip), i)
    {
      activeChip := ToggleChip(activeChip, i);
    }

    method ToggleMeta(key: MetaKey)
      modifies this`activeMeta
      ensures activeMeta == Flip(old(activeMeta), key)
    {
      activeMeta := Flip(activeMeta, key);
    }
  }
}
