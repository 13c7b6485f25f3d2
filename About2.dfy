/** The rotating word of the About section: one span per letter, a glitch morph
    from one word to the next, and a cycle of delayed calls that is started and
    stopped as the section scrolls in and out of view. Time is not modelled: a
    delayed call is an id that is pending until it fires or is killed, and the
    end of a morph's timeline is a separate event. */
module About2 {
  import opened Text

  const Words: seq<string> := ["pragmatic", "creative", "scalable", "reliable"]

  const GlitchChars: string := "ABCDEFGHIJKLMNOPQRSTUVWXYZabcdefghijklmnopqrstuvwxyz0123456789#@$%*"

  /** `nextWord`'s index step. */
  function NextIdx(i: nat): (j: nat)
    ensures j < |Words|
    ensures i < |Words| - 1 ==> j == i + 1
    ensures i == |Words| - 1 ==> j == 0
  {
    (i + 1) % |Words|
  }

  /** The index after `n` steps. */
  function Steps(i: nat, n: nat): nat
  {
    if n == 0 then i else NextIdx(Steps(i, n - 1))
  }

  /** After one step per word the same word is shown again. */
  lemma StepsCycle(i: nat)
    requires i < |Words|
    ensures Steps(i, |Words|) == i
    ensures forall n :: 0 < n < |Words| ==> Steps(i, n) != i
  {
    assert Steps(i, 1) == NextIdx(i);
    assert Steps(i, 2) == NextIdx(NextIdx(i));
    assert Steps(i, 3) == NextIdx(NextIdx(NextIdx(i)));
  }

  /** What a letter shows: a space becomes a no-break space. */
  function DisplayChar(c: char): (d: char)
    ensures d == c <==> c != ' '
    ensures c == ' ' ==> d == NBSP
  {
    if c == ' ' then NBSP else c
  }

  /** A letter span: its text and its `data-char` attribute. */
  datatype Span = Span(text: char, dataChar: char)

  /** The spans `buildSpans(w)` leaves in the wrapper. */
  function SpansFor(w: string): (spans: seq<Span>)
    ensures |spans| == |w|
    ensures forall i :: 0 <= i < |w| ==> spans[i].text == DisplayChar(w[i]) && spans[i].dataChar == spans[i].text
  {
    seq(|w|, i requires 0 <= i < |w| => Span(DisplayChar(w[i]), DisplayChar(w[i])))
  }

  /** What letter `i` of a morph towards `target` shows at progress `p`, with `rnd`
      the index the random pick produced: a glitch glyph below 0.7, the final
      letter from 0.7 on. */
  function FrameChar(target: string, i: nat, p: real, rnd: nat): (c: char)
    requires i < |target| && rnd < |GlitchChars|
    ensures p >= 0.7 ==> c == DisplayChar(target[i])
    ensures p < 0.7 ==> c in GlitchChars
  {
    if p < 0.7 then GlitchChars[rnd] else DisplayChar(target[i])
  }

  function TimerSet(timer: Option<nat>): set<nat>
  {
    match timer
    case Some(t) => {t}
    case None => {}
  }

  class WordCycler {
    var idx: nat
    var spans: seq<Span>
    var glitching: bool
    /** The delayed call `cycleTimerRef` refers to, whether it is still pending or
        has already fired. */
    var timer: Option<nat>
    /** The delayed calls scheduled and neither fired nor killed. */
    var pending: set<nat>
    var nextTimerId: nat
    /** Whether the section is in view: set by the enter triggers, cleared by the
        leave triggers. */
    var inView: bool
    /** Morphs whose timeline has not completed yet. */
    var morphsInFlight: nat

    /** At most one delayed call is pending, it is the one the ref holds, and none
        is pending while the section is out of view. */
    ghost predicate Valid()
      reads this
    {
      && idx < |Words|
      && pending <= TimerSet(timer)
      && (!inView ==> pending == {})
    }

    /** The layout effect seeds the first word. */
    constructor ()
      ensures Valid()
      ensures idx == 0 && spans == SpansFor(Words[0]) && !glitching
      ensures timer == None && pending == {} && nextTimerId == 0 && !inView && morphsInFlight == 0
    {
      idx := 0;
      spans := SpansFor(Words[0]);
      glitching := false;
      timer := None;
      pending := {};
      nextTimerId := 0;
      inView := false;
      morphsInFlight := 0;
    }

    /** `buildSpans`: empty the wrapper, then append one span per letter. */
    method BuildSpans(word: string)
      modifies this`spans
      ensures spans == SpansFor(word)
    {
      spans := [];
      var i := 0;
      while i < |word|
        invariant 0 <= i <= |word|
        invariant spans == SpansFor(word[..i])
      {
        var ch := DisplayChar(word[i]);
        spans := spans + [Span(ch, ch)];
        i := i + 1;
        assert SpansFor(word[..i]) == SpansFor(word[..i - 1]) + [Span(ch, ch)];
      }
      assert word[..i] == word;
    }

    /** `onUpdate` of letter `i`'s tween. */
    method LetterUpdate(target: string, i: nat, p: real, rnd: nat)
      requires i < |spans| && i < |target| && rnd < |GlitchChars|
      modifies this`spans
      ensures |spans| == |old(spans)|
      ensures spans[i].text == FrameChar(target, i, p, rnd) && spans[i].dataChar == spans[i].text
      ensures forall k :: 0 <= k < |spans| && k != i ==> spans[k] == old(spans[k])
    {
      var c := FrameChar(target, i, p, rnd);
      spans := spans[i := Span(c, c)];
    }

    /** `morphTo` up to the end of its timeline: the spans are rebuilt only when
        their number differs from the target's length, and every letter's tween
        ends at progress 1, showing its final letter. */
    method MorphTo(target: string) returns (rebuilt: bool)
      modifies this`spans, this`glitching
      ensures rebuilt <==> |old(spans)| != |target|
      ensures spans == SpansFor(target)
      ensures glitching
    {
      rebuilt := |spans| != |target|;
      if rebuilt {
        BuildSpans(target);
      }
      glitching := true;
      var i := 0;
      while i < |spans|
        invariant 0 <= i <= |spans| == |target|
        invariant forall k :: 0 <= k < i ==> spans[k] == SpansFor(target)[k]
        invariant glitching
      {
        LetterUpdate(target, i, 1.0, 0);
        i := i + 1;
      }
      assert spans == SpansFor(target);
    }

    /** `stopCycling`: kill the referenced call and clear the ref. */
    method Kill()
      modifies this`pending, this`timer
      ensures pending == old(pending) - TimerSet(old(timer))
      ensures timer == None
    {
      pending := pending - TimerSet(timer);
      timer := None;
    }

    /** `gsap.delayedCall(2.0, nextWord)` stored in the ref. */
    method Schedule()
      modifies this`pending, this`timer, this`nextTimerId
      ensures timer == Some(old(nextTimerId)) && nextTimerId == old(nextTimerId) + 1
      ensures pending == old(pending) + {old(nextTimerId)}
    {
      timer := Some(nextTimerId);
      pending := pending + {nextTimerId};
      nextTimerId := nextTimerId + 1;
    }

    /** The section scrolls into view: cancel the referenced call, then schedule a
        fresh one. A call that the ref no longer holds stays pending; from a valid
        state the fresh call is the only one. */
    method StartCycling()
      modifies this`pending, this`timer, this`nextTimerId, this`inView
      ensures inView && timer == Some(old(nextTimerId))
      ensures pending == old(pending) - TimerSet(old(timer)) + {old(nextTimerId)}
      ensures nextTimerId == old(nextTimerId) + 1
      ensures old(Valid()) ==> Valid() && pending == {old(nextTimerId)}
    {
      inView := true;
      Kill();
      Schedule();
    }

    /** The section scrolls out of view: only the referenced call is killed; from a
        valid state nothing is left pending. */
    method StopCycling()
      modifies this`pending, this`timer, this`inView
      ensures !inView && timer == None
      ensures pending == old(pending) - TimerSet(old(timer))
      ensures old(Valid()) ==> Valid() && pending == {}
    {
      inView := false;
      Kill();
    }

    /** Pending call `id` fires `nextWord`, in view or not: advance the index and
        start the morph. The ref keeps pointing at the call that fired. */
    method Fire(id: nat)
      requires id in pending
      modifies this`pending, this`idx, this`spans, this`glitching, this`morphsInFlight
      ensures pending == old(pending) - {id} && idx == NextIdx(old(idx))
      ensures spans == SpansFor(Words[idx]) && glitching
      ensures morphsInFlight == old(morphsInFlight) + 1
      ensures old(Valid()) ==> Valid()
    {
      pending := pending - {id};
      idx := NextIdx(idx);
      var _ := MorphTo(Words[idx]);
      morphsInFlight := morphsInFlight + 1;
    }

    /** A morph's timeline completes and runs `onDone` as written: a new call is
        scheduled whatever happened meanwhile. */
    method MorphCompleteAsWritten()
      requires morphsInFlight > 0
      modifies this`glitching, this`morphsInFlight, this`pending, this`timer, this`nextTimerId
      ensures !glitching && morphsInFlight == old(morphsInFlight) - 1
      ensures timer == Some(old(nextTimerId)) && pending == old(pending) + {old(nextTimerId)}
      ensures nextTimerId == old(nextTimerId) + 1
    {
      glitching := false;
      morphsInFlight := morphsInFlight - 1;
      Schedule();
    }

    /** The intended `onDone`: schedule the next word only while in view, and
        cancel the referenced call first, as `startCycling` does. */
    method MorphComplete()
      requires Valid() && morphsInFlight > 0
      modifies this`glitching, this`morphsInFlight, this`pending, this`timer, this`nextTimerId
      ensures Valid()
      ensures !glitching && morphsInFlight == old(morphsInFlight) - 1
      ensures inView ==> timer == Some(old(nextTimerId)) && pending == {old(nextTimerId)}
                         && nextTimerId == old(nextTimerId) + 1
      ensures !inView ==> timer == old(timer) && pending == {} && nextTimerId == old(nextTimerId)
    {
      glitching := false;
      morphsInFlight := morphsInFlight - 1;
      if inView {
        Kill();
        Schedule();
      }
    }
  }

  /** Leaving the section while a morph runs: the as-written callback leaves a call
      pending although the section is out of view. That call fires out of view,
      morphs to the next word and, when the morph ends, schedules yet another call,
      so the words keep cycling. */
  method StopDuringMorphAsWritten() returns (stillPending: set<nat>, inView: bool, shownOutOfView: nat,
                                             pendingLater: set<nat>)
    ensures stillPending == {1} && !inView
    ensures shownOutOfView == 2 && pendingLater == {2}
  {
    var w := new WordCycler();
    w.StartCycling();
    w.Fire(0);
    w.StopCycling();
    w.MorphCompleteAsWritten();
    stillPending, inView := w.pending, w.inView;
    w.Fire(1);
    w.MorphCompleteAsWritten();
    assert !w.inView;
    shownOutOfView, pendingLater := w.idx, w.pending;
  }

  /** Re-entering the section while a morph runs: the as-written callback adds a
      second pending call, and the ref keeps only one of them. Leaving again kills
      the referenced call and leaves the other pending out of view. */
  method RestartDuringMorphAsWritten() returns (stillPending: set<nat>, referenced: Option<nat>,
                                                afterLeaving: set<nat>)
    ensures stillPending == {1, 2} && referenced == Some(2)
    ensures afterLeaving == {1}
  {
    var w := new WordCycler();
    w.StartCycling();
    w.Fire(0);
    w.StopCycling();
    w.StartCycling();
    w.MorphCompleteAsWritten();
    stillPending, referenced := w.pending, w.timer;
    w.StopCycling();
    afterLeaving := w.pending;
  }

  /** The same two sequences with the intended callback: nothing is pending out of
      view, and one call is pending in view. */
  method StopDuringMorph() returns (stillPending: set<nat>, inView: bool)
    ensures stillPending == {} && !inView
  {
    var w := new WordCycler();
    w.StartCycling();
    w.Fire(0);
    w.StopCycling();
    w.MorphComplete();
    stillPending, inView := w.pending, w.inView;
  }

  method RestartDuringMorph() returns (stillPending: set<nat>, referenced: Option<nat>)
    ensures stillPending == {2} && referenced == Some(2)
  {
    var w := new WordCycler();
    w.StartCycling();
    w.Fire(0);
    w.StopCycling();
    w.StartCycling();
    w.MorphComplete();
    stillPending, referenced := w.pending, w.timer;
  }
}
