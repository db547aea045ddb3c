/**
 * The "Did You Know?" quiz card: a one-shot multiple-choice answer, the
 * classification of every option button once an answer is chosen, and the
 * feedback line under the options.
 */
module QuizModule {
  import opened Wrappers
  import opened Types
  import Words = WordData

  /** How an option button is drawn. */
  datatype Style = Idle | Correct | Wrong | Faded

  /** The icon at the right end of an option button. */
  datatype Mark = NoMark | Check | Cross

  /** The line shown under the options. */
  datatype Feedback = NoFeedback | WellDone | NotQuite

  /** The styling chain for the option at `idx`, before and after an answer is chosen. */
  function OptionStyle(selected: Option<int>, idx: int, correctIndex: int): (r: Style)
    ensures selected.None? ==> r == Idle
    ensures selected.Some? && idx == correctIndex ==> r == Correct
    ensures r == Wrong ==> selected == Some(idx) && idx != correctIndex
  {
    if selected.None? then Idle
    else if idx == correctIndex then Correct
    else if selected.value == idx && idx != correctIndex then Wrong
    else Faded
  }

  /** The check mark goes on the correct option once anything is chosen; the cross on a chosen wrong option. */
  function OptionMark(selected: Option<int>, idx: int, correctIndex: int): (r: Mark)
    ensures selected.None? ==> r == NoMark
    ensures r == Check ==> selected.Some? && idx == correctIndex
    ensures r == Cross ==> selected == Some(idx) && idx != correctIndex
  {
    if selected.Some? && idx == correctIndex then Check
    else if selected == Some(idx) && idx != correctIndex then Cross
    else NoMark
  }

  /** The feedback line, driven by `isCorrect` alone. */
  function FeedbackFor(isCorrect: Option<bool>): (r: Feedback)
    ensures r == NoFeedback <==> isCorrect.None?
  {
    match isCorrect
    case None => NoFeedback
    case Some(b) => if b then WellDone else NotQuite
  }

  /** How many of the option buttons `0 .. n - 1` are drawn with style `s`. */
  function CountStyled(selected: Option<int>, n: nat, correctIndex: int, s: Style): (k: nat)
    ensures k <= n
  {
    if n == 0 then 0
    else CountStyled(selected, n - 1, correctIndex, s) + (if OptionStyle(selected, n - 1, correctIndex) == s then 1 else 0)
  }

  /** The classification of one option: before an answer every option is idle; after
      it the correct option is correct, a chosen wrong option is wrong, and every other
      option is faded. */
  lemma StyleCharacterized(selected: Option<int>, idx: int, correctIndex: int)
    ensures OptionStyle(selected, idx, correctIndex) == Idle <==> selected.None?
    ensures OptionStyle(selected, idx, correctIndex) == Correct <==> selected.Some? && idx == correctIndex
    ensures OptionStyle(selected, idx, correctIndex) == Wrong <==> selected == Some(idx) && idx != correctIndex
    ensures OptionStyle(selected, idx, correctIndex) == Faded <==>
      selected.Some? && selected != Some(idx) && idx != correctIndex
  {
  }

  /** The icons agree with the styles: a check exactly on the correct option, a cross
      exactly on the wrong one, nothing on idle or faded options. */
  lemma MarkAgreesWithStyle(selected: Option<int>, idx: int, correctIndex: int)
    ensures OptionMark(selected, idx, correctIndex) == Check <==> OptionStyle(selected, idx, correctIndex) == Correct
    ensures OptionMark(selected, idx, correctIndex) == Cross <==> OptionStyle(selected, idx, correctIndex) == Wrong
    ensures OptionMark(selected, idx, correctIndex) == NoMark <==>
      OptionStyle(selected, idx, correctIndex) in {Idle, Faded}
  {
  }

  /** After an answer, exactly one option is drawn correct when the correct index is
      among the first `n`; before it, none. */
  lemma {:induction false} CountCorrect(selected: Option<int>, n: nat, correctIndex: int)
    ensures CountStyled(selected, n, correctIndex, Correct) ==
      if selected.Some? && 0 <= correctIndex < n then 1 else 0
  {
    if n > 0 {
      CountCorrect(selected, n - 1, correctIndex);
    }
  }

  /** At most one option is drawn wrong: the chosen one, when it is a wrong option in range. */
  lemma {:induction false} CountWrong(selected: Option<int>, n: nat, correctIndex: int)
    ensures CountStyled(selected, n, correctIndex, Wrong) ==
      if selected.Some? && 0 <= selected.value < n && selected.value != correctIndex then 1 else 0
  {
    if n > 0 {
      CountWrong(selected, n - 1, correctIndex);
    }
  }

  /** Before an answer every option is idle; after it none is. */
  lemma {:induction false} CountIdle(selected: Option<int>, n: nat, correctIndex: int)
    ensures CountStyled(selected, n, correctIndex, Idle) == if selected.None? then n else 0
  {
    if n > 0 {
      CountIdle(selected, n - 1, correctIndex);
    }
  }

  /** Every option gets exactly one of the four styles, so after an answer all options
      but the correct one and the chosen wrong one are faded. */
  lemma {:induction false} CountPartition(selected: Option<int>, n: nat, correctIndex: int)
    ensures CountStyled(selected, n, correctIndex, Idle) + CountStyled(selected, n, correctIndex, Correct)
      + CountStyled(selected, n, correctIndex, Wrong) + CountStyled(selected, n, correctIndex, Faded) == n
  {
    if n > 0 {
      CountPartition(selected, n - 1, correctIndex);
    }
  }

  /** The feedback follows the chosen option's style: "well done" exactly when the chosen
      option is drawn correct, "not quite" exactly when it is drawn wrong. */
  lemma FeedbackAgreesWithStyle(i: int, correctIndex: int)
    ensures FeedbackFor(Some(i == correctIndex)) == WellDone <==> OptionStyle(Some(i), i, correctIndex) == Correct
    ensures FeedbackFor(Some(i == correctIndex)) == NotQuite <==> OptionStyle(Some(i), i, correctIndex) == Wrong
  {
  }

  /** The feedback is shown exactly when `isCorrect` is set, and says "well done" exactly when it is true. */
  lemma FeedbackCharacterized(isCorrect: Option<bool>)
    ensures FeedbackFor(isCorrect) == NoFeedback <==> isCorrect.None?
    ensures FeedbackFor(isCorrect) == WellDone <==> isCorrect == Some(true)
    ensures FeedbackFor(isCorrect) == NotQuite <==> isCorrect == Some(false)
  {
  }

  /** On every entry of the word list, any answer leaves exactly one option drawn correct,
      and a wrong answer exactly one drawn wrong. */
  lemma WordListAnswers(k: int, i: int)
    requires 0 <= k < |Words.WordList| && 0 <= i < |Words.WordList[k].quiz.options|
    ensures var q := Words.WordList[k].quiz;
      CountStyled(Some(i), |q.options|, q.correctIndex, Correct) == 1 &&
      CountStyled(Some(i), |q.options|, q.correctIndex, Wrong) == (if i == q.correctIndex then 0 else 1)
  {
    Words.WordListWellFormed();
    var q := Words.WordList[k].quiz;
    CountCorrect(Some(i), |q.options|, q.correctIndex);
    CountWrong(Some(i), |q.options|, q.correctIndex);
  }

  /** The quiz card's state: the chosen option, whether it was right, and the entry it belongs to. */
  class Component {
    var selected: Option<int>
    var isCorrect: Option<bool>
    var currentWordId: int

    /** The answer and its verdict are set together and cleared together. */
    ghost predicate Valid()
      reads this`selected, this`isCorrect
    {
      selected.None? <==> isCorrect.None?
    }

    /** The verdict is the one for the quiz whose correct index is `correctIndex`. */
    ghost predicate AnsweredAgainst(correctIndex: int)
      reads this`selected, this`isCorrect
    {
      selected.Some? ==> isCorrect == Some(selected.value == correctIndex)
    }

    /** The feedback line for the current state. */
    function Shown(): (f: Feedback)
      reads this`isCorrect
      ensures f == NoFeedback <==> isCorrect.None?
    {
      FeedbackFor(isCorrect)
    }

    /** The first render: nothing chosen yet. */
    constructor (data: WordData)
      ensures Valid() && AnsweredAgainst(data.quiz.correctIndex)
      ensures selected == None && isCorrect == None && currentWordId == data.id
    {
      selected := None;
      isCorrect := None;
      currentWordId := data.id;
    }

    /** A render with `data`: a new entry id clears the answer; the same id keeps it. */
    method Render(data: WordData)
      requires Valid()
      modifies this
      ensures Valid() && currentWordId == data.id
      ensures data.id != old(currentWordId) ==> selected == None && isCorrect == None
      ensures data.id == old(currentWordId) ==> selected == old(selected) && isCorrect == old(isCorrect)
    {
      if data.id != currentWordId {
        currentWordId := data.id;
        selected := None;
        isCorrect := None;
      }
    }

    /** A click on option `index`: the first one records the answer and its verdict,
        any later one changes nothing (the buttons are also disabled by then). */
    method HandleOptionClick(data: WordData, index: int)
      requires Valid()
      modifies this`selected, this`isCorrect
      ensures Valid()
      ensures old(selected).None? ==>
        selected == Some(index) && isCorrect == Some(index == data.quiz.correctIndex)
      ensures old(selected).None? ==> AnsweredAgainst(data.quiz.correctIndex)
      ensures old(selected).Some? ==> selected == old(selected) && isCorrect == old(isCorrect)
    {
      if selected.Some? {
        return;
      }
      selected := Some(index);
      isCorrect := Some(index == data.quiz.correctIndex);
    }
  }

  /** A round on one entry: after a first click on `i`, a second click on `j` changes
      nothing, so the feedback is the verdict on `i`. */
  method ClickTwice(data: WordData, i: int, j: int) returns (f: Feedback)
    ensures f == (if i == data.quiz.correctIndex then WellDone else NotQuite)
  {
    var c := new Component(data);
    c.HandleOptionClick(data, i);
    c.HandleOptionClick(data, j);
    assert c.selected == Some(i);
    f := c.Shown();
  }
}
