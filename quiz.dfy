/** The quiz page (`TestPage`): the question set chosen for a direction, the current
    question and the answers given so far. Selecting an option records it and moves on, or
    completes the quiz on the last question; going back only moves the cursor. */
module Quiz {
  import opened Wrappers

  datatype Question = Question(question: string, options: seq<string>)

  /** `questionsByDirection[direction] || questionsByDirection['事业']`. An array is truthy
      even when empty, so only a direction missing from the bank falls back to 事业. */
  function QuestionSet(bank: map<string, seq<Question>>, direction: string): (r: Option<seq<Question>>)
    ensures direction in bank ==> r == Some(bank[direction])
    ensures direction !in bank && "事业" in bank ==> r == Some(bank["事业"])
    ensures r == None <==> direction !in bank && "事业" !in bank
  {
    if direction in bank then Some(bank[direction])
    else if "事业" in bank then Some(bank["事业"])
    else None
  }

  /** A direction the bank does not know gets exactly the questions of 事业. */
  lemma UnknownLikeCareer(bank: map<string, seq<Question>>, direction: string)
    requires direction !in bank
    ensures QuestionSet(bank, direction) == QuestionSet(bank, "事业")
  {
  }

  /** The page state: the index of the question shown and one answer slot per question,
      `-1` while unanswered. */
  datatype QuizState = QuizState(current: int, answers: seq<int>)

  /** What the page holds for a set of `n` questions: a slot per question and a cursor on
      one of them. */
  predicate Good(st: QuizState, n: int) {
    n >= 1 && |st.answers| == n && 0 <= st.current < n
  }

  function Start(n: nat): (st: QuizState)
    ensures st.current == 0 && |st.answers| == n
    ensures forall i :: 0 <= i < n ==> st.answers[i] == -1
  {
    QuizState(0, seq(n, i => -1))
  }

  /** One `handleOptionSelect`: the next state, and the answers handed to `onComplete`
      when the quiz is finished. */
  datatype Step = Step(next: QuizState, completed: Option<seq<int>>)

  function Select(st: QuizState, n: int, optionIndex: int): (s: Step)
    requires Good(st, n)
    ensures Good(s.next, n)
    ensures s.next.answers == st.answers[st.current := optionIndex]
    ensures s.completed.None? <==> st.current < n - 1
    ensures s.completed.None? ==> s.next.current == st.current + 1
    ensures s.completed.Some? ==> s.next.current == st.current && s.completed.value == s.next.answers
  {
    var answers := st.answers[st.current := optionIndex];
    if st.current < n - 1 then Step(QuizState(st.current + 1, answers), None)
    else Step(QuizState(st.current, answers), Some(answers))
  }

  /** `handlePrev`: back one question, never before the first; the answers stay. */
  function Prev(st: QuizState): (r: QuizState)
    ensures r.answers == st.answers
    ensures st.current > 0 ==> r.current == st.current - 1
    ensures st.current <= 0 ==> r.current == st.current
  {
    if st.current > 0 then QuizState(st.current - 1, st.answers) else st
  }

  /** The answers `onComplete` first receives when the options `picks` are chosen one after
      the other, or `None` when none of the selections completes the quiz. */
  function Run(st: QuizState, n: int, picks: seq<int>): Option<seq<int>>
    requires Good(st, n)
    decreases |picks|
  {
    if picks == [] then None
    else
      var s := Select(st, n, picks[0]);
      if s.completed.Some? then s.completed else Run(s.next, n, picks[1..])
  }

  /** Answering from question `c` on (with `n - c` picks) completes the quiz with the answers
      already given before `c` followed by the picks, in order. */
  lemma {:induction false} RunFrom(st: QuizState, n: int, picks: seq<int>)
    requires Good(st, n) && |picks| == n - st.current
    ensures Run(st, n, picks) == Some(st.answers[..st.current] + picks)
    decreases |picks|
  {
    var s := Select(st, n, picks[0]);
    if st.current < n - 1 {
      RunFrom(s.next, n, picks[1..]);
      RunUnfold(st, n, picks);
      PrefixAfterUpdate(st.answers, st.current, picks[0]);
      ConsTail(st.answers[..st.current], picks);
    } else {
      assert picks == [picks[0]];
      assert s.next.answers == st.answers[..st.current] + picks;
    }
  }

  /** A selection that does not complete hands the rest of the picks to the next state. */
  lemma RunUnfold(st: QuizState, n: int, picks: seq<int>)
    requires Good(st, n) && picks != [] && st.current < n - 1
    ensures Run(st, n, picks) == Run(Select(st, n, picks[0]).next, n, picks[1..])
  {
  }

  lemma ConsTail(before: seq<int>, picks: seq<int>)
    requires picks != []
    ensures before + [picks[0]] + picks[1..] == before + picks
  {
    assert [picks[0]] + picks[1..] == picks;
  }

  lemma PrefixAfterUpdate(a: seq<int>, c: nat, x: int)
    requires c < |a|
    ensures a[c := x][..c + 1] == a[..c] + [x]
  {
  }

  /** From the start, `n` selections without going back complete the quiz with exactly the
      options chosen, question by question. */
  lemma AnswersInOrder(n: nat, picks: seq<int>)
    requires n >= 1 && |picks| == n
    ensures Run(Start(n), n, picks) == Some(picks)
  {
    RunFrom(Start(n), n, picks);
    assert Start(n).answers[..0] + picks == picks;
  }

  /** Going back and answering again overwrites only the slot of the question shown. */
  lemma PrevThenSelect(st: QuizState, n: int, optionIndex: int)
    requires Good(st, n) && st.current > 0
    ensures Select(Prev(st), n, optionIndex).next.answers == st.answers[st.current - 1 := optionIndex]
    ensures Select(Prev(st), n, optionIndex).next.current == st.current
  {
  }

  /** The component state, with `qs.length` fixed when the page mounts. */
  class TestPage {
    const n: int
    var currentQuestion: int
    var answers: seq<int>

    function State(): QuizState
      reads this
    {
      QuizState(currentQuestion, answers)
    }

    predicate Valid()
      reads this
    {
      Good(State(), n)
    }

    constructor (questionCount: int)
      requires questionCount >= 1
      ensures Valid() && n == questionCount
      ensures State() == Start(questionCount)
    {
      n := questionCount;
      currentQuestion := 0;
      answers := seq(questionCount, i => -1);
    }

    method HandleOptionSelect(optionIndex: int) returns (completed: Option<seq<int>>)
      requires Valid()
      modifies this
      ensures Valid()
      ensures Step(State(), completed) == Select(old(State()), n, optionIndex)
    {
      var newAnswers := answers[currentQuestion := optionIndex];
      answers := newAnswers;
      if currentQuestion < n - 1 {
        currentQuestion := currentQuestion + 1;
        completed := None;
      } else {
        completed := Some(newAnswers);
      }
    }

    method HandlePrev()
      requires Valid()
      modifies this
      ensures Valid()
      ensures State() == Prev(old(State()))
    {
      if currentQuestion > 0 {
        currentQuestion := currentQuestion - 1;
      }
    }
  }
}
