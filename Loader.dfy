/** The loading screen: a greeting in one of nineteen languages, replaced by the
    next one on every tick of an interval, each greeting shown as a row of letter
    spans with a staggered delay. */
module Loader {
  import opened Text

  const Greetings: seq<string> := [
    "Hello",
    "Hola",
    "\U{0645}\U{0631}\U{062D}\U{0628}\U{0627}",
    "\U{3053}\U{3093}\U{306B}\U{3061}\U{306F}",
    "Bonjour",
    "\U{0BB5}\U{0BA3}\U{0B95}\U{0BCD}\U{0B95}\U{0BAE}\U{0BCD}",
    "Ciao",
    "\U{0C39}\U{0C32}\U{0C4B}",
    "\U{0928}\U{092E}\U{0938}\U{094D}\U{0915}\U{093E}\U{0930}",
    "\U{0A38}\U{0A24} \U{0A38}\U{0A4D}\U{0A30}\U{0A40} \U{0A05}\U{0A15}\U{0A3E}\U{0A32}",
    "\U{0AA8}\U{0AAE}\U{0AB8}\U{0ACD}\U{0AA4}\U{0AC7}",
    "\U{0CA8}\U{0CAE}\U{0CB8}\U{0CCD}\U{0C95}\U{0CBE}\U{0CB0}",
    "\U{0D28}\U{0D2E}\U{0D38}\U{0D4D}\U{0D15}\U{0D3E}\U{0D30}\U{0D02}",
    "\U{0B28}\U{0B2E}\U{0B38}\U{0B4D}\U{0B15}\U{0B3E}\U{0B30}",
    "\U{09A8}\U{09AE}\U{09B8}\U{09CD}\U{0995}\U{09BE}\U{09B0}",
    "\U{0E2A}\U{0E27}\U{0E31}\U{0E2A}\U{0E14}\U{0E35}",
    "\U{C548}\U{B155}\U{D558}\U{C138}\U{C694}",
    "\U{4F60}\U{597D}",
    "\U{0417}\U{0434}\U{0440}\U{0430}\U{0432}\U{0441}\U{0442}\U{0432}\U{0443}\U{0439}\U{0442}\U{0435}"
  ]

  /** The interval's updater `(i + 1) % GREETINGS.length`. */
  function NextIdx(i: nat): (j: nat)
    ensures j < |Greetings|
    ensures i < |Greetings| - 1 ==> j == i + 1
    ensures i == |Greetings| - 1 ==> j == 0
  {
    (i + 1) % |Greetings|
  }

  /** The index after `n` ticks. */
  function Ticks(i: nat, n: nat): nat
  {
    if n == 0 then i else NextIdx(Ticks(i, n - 1))
  }

  /** Taking the remainder before or after the increment makes no difference. */
  lemma ModSucc(a: nat)
    ensures ((a % 19) + 1) % 19 == (a + 1) % 19
  {
    var q := a / 19;
    var r := a % 19;
    assert a == 19 * q + r;
    if r == 18 {
      assert a + 1 == 19 * (q + 1);
    } else {
      assert a + 1 == 19 * q + (r + 1);
    }
  }

  lemma GreetingsCount()
    ensures |Greetings| == 19
  {
  }

  /** `n` ticks advance the index by `n` modulo the number of greetings. */
  lemma {:induction false} TicksClosedForm(i: nat, n: nat)
    requires i < |Greetings|
    ensures Ticks(i, n) == (i + n) % |Greetings|
  {
    GreetingsCount();
    if n > 0 {
      TicksClosedForm(i, n - 1);
      ModSucc(i + n - 1);
      assert Ticks(i, n) == NextIdx((i + n - 1) % 19);
    }
  }

  /** After nineteen ticks the same greeting is shown again, and not before. */
  lemma GreetingsCycle(i: nat)
    requires i < |Greetings|
    ensures Ticks(i, |Greetings|) == i
    ensures forall n :: 0 < n < |Greetings| ==> Ticks(i, n) != i
  {
    GreetingsCount();
    TicksClosedForm(i, 19);
    assert (i + 19) % 19 == i by { ModShift(i); }
    forall n | 0 < n < 19
      ensures Ticks(i, n) != i
    {
      TicksClosedForm(i, n);
      ModNotBack(i, n);
    }
  }

  lemma ModShift(i: nat)
    requires i < 19
    ensures (i + 19) % 19 == i
  {
  }

  lemma ModNotBack(i: nat, n: nat)
    requires i < 19 && 0 < n < 19
    ensures (i + n) % 19 != i
  {
    if i + n >= 19 {
      assert (i + n) % 19 == i + n - 19;
    }
  }

  /** `Array.from(GREETINGS[idx] || "")`: the greeting's code points, or none for an
      index without a greeting. */
  function Letters(idx: nat): (letters: seq<char>)
    ensures idx < |Greetings| ==> letters == Greetings[idx]
    ensures idx >= |Greetings| ==> letters == []
  {
    if idx < |Greetings| && Greetings[idx] != "" then Greetings[idx] else []
  }

  /** Every greeting has at least two letters, so every row is non-empty. */
  lemma LettersNonEmpty(idx: nat)
    requires idx < |Greetings|
    ensures |Letters(idx)| >= 2
  {
  }

  /** The animation delay of letter `i`, in milliseconds, and its CSS text. */
  function Delay(i: nat): (d: nat)
    ensures d % 45 == 0 && d / 45 == i
  {
    i * 45
  }

  /** The number printed in decimal, without a leading zero, then "ms". */
  function DelayText(i: nat): (t: string)
    ensures |t| >= 3 && ParseNat(t[..|t| - 2]) == Delay(i) && t[|t| - 2..] == "ms"
    ensures forall k :: 0 <= k < |t| - 2 ==> '0' <= t[k] <= '9'
    ensures |t| > 3 ==> t[0] != '0'
  {
    ParseNatRoundTrip(Delay(i));
    var t := NatToString(Delay(i)) + "ms";
    assert t[..|t| - 2] == NatToString(Delay(i));
    t
  }

  /** Later letters start later, each 45 ms after the one before. */
  lemma DelaysStagger(i: nat, j: nat)
    requires i < j
    ensures Delay(i) < Delay(j)
    ensures Delay(i + 1) == Delay(i) + 45
  {
  }

  /** The React key `${idx}-${i}-${ch}` of letter `i` showing `ch`. */
  function LetterKey(idx: nat, i: nat, ch: char): (key: string)
    ensures |key| >= 5 && key[|key| - 2..] == "-" + [ch]
    ensures |key| > |NatToString(idx)| && key[..|NatToString(idx)| + 1] == NatToString(idx) + "-"
  {
    NatToString(idx) + "-" + NatToString(i) + "-" + [ch]
  }

  /** Two letters of the same row have distinct keys, since their positions differ
      whatever the letters are. */
  lemma KeysDistinct(idx: nat, i: nat, j: nat, ch: char, ch': char)
    requires i != j
    ensures LetterKey(idx, i, ch) != LetterKey(idx, j, ch')
  {
    if LetterKey(idx, i, ch) == LetterKey(idx, j, ch') {
      var a := NatToString(idx) + "-";
      var b := NatToString(i);
      var b' := NatToString(j);
      assert LetterKey(idx, i, ch) == a + (b + "-" + [ch]);
      assert LetterKey(idx, j, ch') == a + (b' + "-" + [ch']);
      assert (a + (b + "-" + [ch]))[|a|..] == b + "-" + [ch];
      assert (a + (b' + "-" + [ch']))[|a|..] == b' + "-" + [ch'];
      assert |b| == |b'|;
      assert (b + "-" + [ch])[..|b|] == b;
      assert (b' + "-" + [ch'])[..|b'|] == b';
      ParseNatRoundTrip(i);
      ParseNatRoundTrip(j);
    }
  }

  class Loader {
    var idx: nat

    ghost predicate Valid()
      reads this
    {
      idx < |Greetings|
    }

    constructor ()
      ensures Valid() && idx == 0
    {
      idx := 0;
    }

    /** One tick of the 600 ms interval. */
    method Tick()
      requires Valid()
      modifies this`idx
      ensures Valid() && idx == NextIdx(old(idx))
    {
      idx := NextIdx(idx);
    }

    function CurrentLetters(): (letters: seq<char>)
      reads this
      requires Valid()
      ensures letters == Greetings[idx]
    {
      Letters(idx)
    }
  }
}
