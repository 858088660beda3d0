/**
 * The splash screen's typewriter: once the fonts are loaded, each timer firing
 * types one more character of the phrase, then after a pause erases it one
 * character at a time, and once it is gone the splash hands over to the app.
 * A timer firing is one step; how long each timer waits is not modelled.
 */
module Splash {
  import opened Text

  /** The phrase that is typed and erased. */
  const Phrase: string := "amazonica project"

  /** The screen's `index`, `isErasing` and `displayedText`. */
  datatype Frame = Frame(index: int, erasing: bool, displayed: string)

  /** JavaScript `s.substring(0, end)`: the end is clamped into `0..|s|`. */
  function Substring(s: string, end: int): (r: string)
    ensures end <= 0 ==> r == ""
    ensures 0 <= end <= |s| ==> r == s[..end]
    ensures |s| <= end ==> r == s
  {
    if end <= 0 then "" else if end <= |s| then s[..end] else s
  }

  /** The frame before the first step. */
  const Start: Frame := Frame(0, false, "")

  /** Erasing is over: the splash hands over to the app, and nothing changes any more. */
  predicate FinishScheduled(f: Frame) {
    f.erasing && f.index < 0
  }

  /**
   * One timer firing. Before the fonts are loaded, and once the hand-over is
   * scheduled, nothing happens. While typing, the first `index` characters are
   * shown and the index goes up, until it passes the phrase's length: then the
   * screen switches to erasing, keeping the index. While erasing, the first
   * `index` characters are shown and the index goes down.
   */
  function Step(f: Frame, fontsLoaded: bool): (r: Frame)
    ensures !fontsLoaded || FinishScheduled(f) ==> r == f
    ensures fontsLoaded && !f.erasing ==> r.index >= f.index && r.displayed == if f.index <= |Phrase| then Substring(Phrase, f.index) else f.displayed
    ensures fontsLoaded && f.erasing ==> r.erasing && r.index <= f.index
  {
    if !fontsLoaded then f
    else if !f.erasing then
      if f.index <= |Phrase| then Frame(f.index + 1, false, Substring(Phrase, f.index))
      else f.(erasing := true)
    else if f.index >= 0 then Frame(f.index - 1, true, Substring(Phrase, f.index))
    else f
  }

  /** The frames the typewriter can be in: the index in range, and the text shown the prefix the index last asked for. */
  predicate Valid(f: Frame) {
    if !f.erasing then 0 <= f.index <= |Phrase| + 1 && f.displayed == Substring(Phrase, f.index - 1)
    else -1 <= f.index <= |Phrase| + 1 && f.displayed == Substring(Phrase, f.index + 1)
  }

  /** Steps left before the hand-over is scheduled. */
  function Remaining(f: Frame): int {
    if !f.erasing then (|Phrase| + 1 - f.index) + 1 + (|Phrase| + 2) else f.index + 1
  }

  lemma StartIsValid()
    ensures Valid(Start) && Remaining(Start) == 38
  {
  }

  /** Every step keeps the frame valid. */
  lemma StepPreservesValid(f: Frame, fontsLoaded: bool)
    requires Valid(f)
    ensures Valid(Step(f, fontsLoaded))
  {
  }

  /** The text shown is always a prefix of the phrase. */
  lemma DisplayedIsPrefix(f: Frame)
    requires Valid(f)
    ensures StartsWith(Phrase, f.displayed)
  {
  }

  /** With the fonts loaded, each step before the hand-over brings it one step closer. */
  lemma StepProgresses(f: Frame)
    requires Valid(f) && !FinishScheduled(f)
    ensures Remaining(Step(f, true)) == Remaining(f) - 1 >= 0
  {
  }

  /** A valid frame is at the hand-over exactly when no steps remain, and then nothing is shown. */
  lemma FinishedIffNoneRemaining(f: Frame)
    requires Valid(f)
    ensures FinishScheduled(f) <==> Remaining(f) == 0
    ensures FinishScheduled(f) ==> f.displayed == ""
  {
  }

  class Typewriter {
    var index: int
    var isErasing: bool
    var displayedText: string

    function State(): Frame
      reads this
    {
      Frame(index, isErasing, displayedText)
    }

    constructor ()
      ensures State() == Start
    {
      index := 0;
      isErasing := false;
      displayedText := "";
    }

    /** One timer firing, with the fonts loaded or not. */
    method Tick(fontsLoaded: bool)
      modifies this
      ensures State() == Step(old(State()), fontsLoaded)
    {
      if !fontsLoaded {
        return;
      }
      if !isErasing {
        if index <= |Phrase| {
          displayedText := Substring(Phrase, index);
          index := index + 1;
        } else {
          isErasing := true;
        }
      } else if index >= 0 {
        displayedText := Substring(Phrase, index);
        index := index - 1;
      }
    }
  }

  /**
   * The whole animation with the fonts loaded: it takes 38 steps to reach the
   * hand-over, every text shown on the way is a prefix of the phrase, the whole
   * phrase is shown at some point, and nothing is shown at the end.
   */
  method PlayToEnd() returns (steps: nat, shown: seq<string>)
    ensures steps == 38 && |shown| == steps
    ensures forall i :: 0 <= i < |shown| ==> StartsWith(Phrase, shown[i])
    ensures Phrase in shown
    ensures shown[|shown| - 1] == ""
  {
    var t := new Typewriter();
    StartIsValid();
    steps, shown := 0, [];
    while !FinishScheduled(t.State())
      invariant Valid(t.State())
      invariant steps + Remaining(t.State()) == 38
      invariant |shown| == steps
      invariant forall i :: 0 <= i < |shown| ==> StartsWith(Phrase, shown[i])
      invariant shown != [] ==> shown[|shown| - 1] == t.displayedText
      invariant t.isErasing || t.index > |Phrase| ==> Phrase in shown
      decreases Remaining(t.State())
    {
      StepPreservesValid(t.State(), true);
      StepProgresses(t.State());
      t.Tick(true);
      DisplayedIsPrefix(t.State());
      steps, shown := steps + 1, shown + [t.displayedText];
    }
    FinishedIffNoneRemaining(t.State());
  }
}
