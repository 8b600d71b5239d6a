/**
 * The landing page's typewriter headline (src/components/sections/hero-section.tsx):
 * a word is typed one character per tick, held, deleted one character per tick,
 * and the next of three words follows.
 */
module HeroSection {
  import opened Text

  const Words: seq<string> := ["эффективно", "быстро", "качественно"]

  /** The component's three state variables. */
  datatype Typing = Typing(text: string, wordIndex: int, deleting: bool)

  /** The state the component starts in. */
  const Initial := Typing("", 0, false)

  /** The shown text is a prefix of the current word, and the index picks one of the words. */
  predicate Valid(s: Typing) {
    0 <= s.wordIndex < |Words| && StartsWith(Words[s.wordIndex], s.text)
  }

  /**
   * One timer callback of the effect. The two-second pause before deleting is
   * folded into the step that sets the deleting flag.
   */
  function Step(s: Typing): (r: Typing)
    requires 0 <= s.wordIndex < |Words|
    ensures 0 <= r.wordIndex < |Words|
  {
    var word := Words[s.wordIndex];
    if !s.deleting then
      if |s.text| < |word| then s.(text := Take(word, |s.text| + 1))
      else s.(deleting := true)
    else if |s.text| > 0 then s.(text := s.text[..|s.text| - 1])
    else Typing(s.text, (s.wordIndex + 1) % |Words|, false)
  }

  /**
   * What one step does from a valid state: typing appends exactly the word's
   * next character, a full word starts deleting, deleting drops exactly the last
   * character, and an emptied word moves on to the next word (cyclically).
   */
  lemma StepSpec(s: Typing)
    requires Valid(s)
    ensures var r, word := Step(s), Words[s.wordIndex];
      && Valid(r)
      && (!s.deleting && |s.text| < |word| ==>
            r.text == s.text + [word[|s.text|]] && r.wordIndex == s.wordIndex && !r.deleting)
      && (!s.deleting && |s.text| >= |word| ==>
            r.text == s.text && r.wordIndex == s.wordIndex && r.deleting)
      && (s.deleting && s.text != [] ==>
            r.text + [s.text[|s.text| - 1]] == s.text && r.wordIndex == s.wordIndex && r.deleting)
      && (s.deleting && s.text == [] ==>
            r.text == [] && r.wordIndex == (s.wordIndex + 1) % 3 && !r.deleting)
  {
    var word := Words[s.wordIndex];
    if !s.deleting && |s.text| < |word| {
      assert word[..|s.text| + 1] == word[..|s.text|] + [word[|s.text|]];
    }
  }

  /** The bounds the headline relies on: the index stays in [0, 3) and the text is never longer than its word. */
  lemma ValidBounds(s: Typing)
    requires Valid(s)
    ensures 0 <= s.wordIndex < 3 && |s.text| <= |Words[s.wordIndex]|
  {
  }

  /** `n` ticks from `s`. */
  function Run(s: Typing, n: nat): (r: Typing)
    requires 0 <= s.wordIndex < |Words|
    ensures 0 <= r.wordIndex < |Words|
    decreases n
  {
    if n == 0 then s else Run(Step(s), n - 1)
  }

  /** Every state the component reaches from its initial state satisfies the invariant. */
  lemma {:induction false} RunValid(s: Typing, n: nat)
    requires Valid(s)
    ensures Valid(Run(s, n))
    decreases n
  {
    if n > 0 {
      StepSpec(s);
      RunValid(Step(s), n - 1);
    }
  }

  lemma {:induction false} RunAppend(s: Typing, m: nat, n: nat)
    requires 0 <= s.wordIndex < |Words|
    ensures 0 <= Run(s, m).wordIndex < |Words| && Run(s, m + n) == Run(Run(s, m), n)
    decreases m
  {
    if m > 0 {
      RunAppend(Step(s), m - 1, n);
    }
  }

  /** Typing the rest of the word takes as many ticks as characters remain. */
  lemma {:induction false} RunTyping(i: int, j: nat)
    requires 0 <= i < |Words| && j <= |Words[i]|
    ensures Run(Typing(Words[i][..j], i, false), |Words[i]| - j) == Typing(Words[i], i, false)
    decreases |Words[i]| - j
  {
    var w := Words[i];
    if j == |w| {
      assert w[..j] == w;
    } else {
      var s := Typing(w[..j], i, false);
      assert w[..j + 1][..j] == w[..j];
      assert Step(s) == Typing(w[..j + 1], i, false);
      RunTyping(i, j + 1);
    }
  }

  /** Deleting a prefix of the word takes as many ticks as it has characters. */
  lemma {:induction false} RunDeleting(i: int, j: nat)
    requires 0 <= i < |Words| && j <= |Words[i]|
    ensures Run(Typing(Words[i][..j], i, true), j) == Typing([], i, true)
    decreases j
  {
    var w := Words[i];
    if j > 0 {
      assert w[..j][..j - 1] == w[..j - 1];
      assert Step(Typing(w[..j], i, true)) == Typing(w[..j - 1], i, true);
      RunDeleting(i, j - 1);
    }
  }

  /**
   * One full cycle: from an empty text, typing the word, the hold, deleting it
   * and the switch take 2 * |word| + 2 ticks and leave an empty text on the next
   * word, so the headline shows the three words in turn forever.
   */
  lemma WordCycle(i: int)
    requires 0 <= i < |Words|
    ensures Run(Typing([], i, false), 2 * |Words[i]| + 2) == Typing([], (i + 1) % 3, false)
  {
    var w := Words[i];
    var s0 := Typing([], i, false);
    assert w[..0] == [];
    RunTyping(i, 0);
    RunAppend(s0, |w|, |w| + 2);
    var s1 := Typing(w, i, false);
    assert Step(s1) == Typing(w, i, true);
    assert w[..|w|] == w;
    RunDeleting(i, |w|);
    RunAppend(Typing(w, i, true), |w|, 1);
  }

  /** The component itself: the three `useState` variables, advanced by the effect's timer. */
  class Typewriter {
    var currentText: string
    var currentWordIndex: int
    var isDeleting: bool

    function State(): Typing
      reads this
    {
      Typing(currentText, currentWordIndex, isDeleting)
    }

    constructor ()
      ensures State() == Initial && Valid(State())
    {
      currentText := "";
      currentWordIndex := 0;
      isDeleting := false;
    }

    /** One firing of the effect's timeout (the deferred `setIsDeleting(true)` included). */
    method Tick()
      requires Valid(State())
      modifies this
      ensures State() == Step(old(State())) && Valid(State())
    {
      StepSpec(State());
      var word := Words[currentWordIndex];
      if !isDeleting {
        if |currentText| < |word| {
          currentText := Take(word, |currentText| + 1);
        } else {
          isDeleting := true;
        }
      } else {
        if |currentText| > 0 {
          currentText := currentText[..|currentText| - 1];
        } else {
          isDeleting := false;
          currentWordIndex := (currentWordIndex + 1) % |Words|;
        }
      }
    }
  }
}
