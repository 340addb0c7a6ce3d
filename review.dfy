/**
 * The two "Check Your Work" summaries: src/modules/exams/ui/check-your-work.tsx
 * (the practice flow) and src/modules/exams/ui/review-screen.tsx (the review
 * page of the current module in the timed exam, shown for either module).
 *
 * Both draw one numbered button per question, styled as answered when the
 * question's selected answer is a non-empty string and marked when the
 * question is flagged, and show three counts. The review page is given the
 * questions and the lock of the module under review (its props are named
 * `modelAQuestions` and `moduleALocked` whichever module that is). While that
 * module is locked its buttons are disabled, the expiry message replaces the
 * instructions and the Back button disappears.
 */
module ExamReview {

  /** The one field of a question these screens use. */
  datatype Question = Question(id: int)

  /** `selected[id]` is truthy: present and not the empty string. */
  predicate Answered(selected: map<int, string>, id: int) {
    id in selected && selected[id] != ""
  }

  /** `questions.filter((q) => selected[q.id])`. */
  function AnsweredQuestions(qs: seq<Question>, selected: map<int, string>): (r: seq<Question>)
    ensures |r| <= |qs|
    ensures forall q :: q in r <==> q in qs && Answered(selected, q.id)
    ensures forall q :: multiset(r)[q] == if Answered(selected, q.id) then multiset(qs)[q] else 0
  {
    if |qs| == 0 then []
    else
      assert qs == [qs[0]] + qs[1..];
      var rest := AnsweredQuestions(qs[1..], selected);
      if Answered(selected, qs[0].id) then [qs[0]] + rest else rest
  }

  /** The questions whose answer is missing or empty, counted on their own. */
  function UnansweredQuestions(qs: seq<Question>, selected: map<int, string>): (r: seq<Question>)
    ensures |r| <= |qs|
    ensures forall q :: q in r <==> q in qs && !Answered(selected, q.id)
    ensures forall q :: multiset(r)[q] == if Answered(selected, q.id) then 0 else multiset(qs)[q]
  {
    if |qs| == 0 then []
    else
      assert qs == [qs[0]] + qs[1..];
      var rest := UnansweredQuestions(qs[1..], selected);
      if !Answered(selected, qs[0].id) then [qs[0]] + rest else rest
  }

  /** `questions.filter((q) => flagged.has(q.id))`. */
  function FlaggedQuestions(qs: seq<Question>, flagged: set<int>): (r: seq<Question>)
    ensures |r| <= |qs|
    ensures forall q :: q in r <==> q in qs && q.id in flagged
    ensures forall q :: multiset(r)[q] == if q.id in flagged then multiset(qs)[q] else 0
  {
    if |qs| == 0 then []
    else
      assert qs == [qs[0]] + qs[1..];
      var rest := FlaggedQuestions(qs[1..], flagged);
      if qs[0].id in flagged then [qs[0]] + rest else rest
  }

  /** A question button: React key, visible number, reported index and its styling. */
  datatype GridButton = GridButton(key: int, number: int, reports: int, answered: bool, flagged: bool, disabled: bool)

  function Grid(qs: seq<Question>, selected: map<int, string>, flagged: set<int>, disabled: bool): (g: seq<GridButton>)
    ensures |g| == |qs|
    ensures forall i :: 0 <= i < |g| ==>
      && g[i].number == i + 1 && g[i].reports == i && g[i].key == qs[i].id
      && (g[i].answered <==> qs[i] in AnsweredQuestions(qs, selected))
      && (g[i].flagged <==> qs[i] in FlaggedQuestions(qs, flagged))
      && g[i].disabled == disabled
  {
    seq(|qs|, i requires 0 <= i < |qs| =>
      GridButton(qs[i].id, i + 1, i, Answered(selected, qs[i].id), qs[i].id in flagged, disabled))
  }

  /** What a summary screen shows. */
  datatype Summary = Summary(
    expiredMessage: bool,
    buttons: seq<GridButton>,
    answeredCount: int,
    unansweredCount: int,
    flaggedCount: int,
    showBack: bool,
    showNext: bool)

  /** check-your-work.tsx: unanswered is computed as the length minus the answered count. */
  function CheckYourWork(qs: seq<Question>, selected: map<int, string>, flagged: set<int>): (v: Summary)
    ensures v.showBack && v.showNext && !v.expiredMessage
    ensures forall i :: 0 <= i < |v.buttons| ==> !v.buttons[i].disabled
    ensures 0 <= v.answeredCount && 0 <= v.unansweredCount && 0 <= v.flaggedCount <= |qs|
    ensures v.answeredCount + v.unansweredCount == |qs|
    ensures v.answeredCount == |AnsweredQuestions(qs, selected)|
    ensures v.unansweredCount == |UnansweredQuestions(qs, selected)|
    ensures v.flaggedCount == |FlaggedQuestions(qs, flagged)|
    ensures v.buttons == Grid(qs, selected, flagged, false)
  {
    AnsweredPlusUnanswered(qs, selected);
    var answered := |AnsweredQuestions(qs, selected)|;
    Summary(false, Grid(qs, selected, flagged, false), answered, |qs| - answered,
            |FlaggedQuestions(qs, flagged)|, true, true)
  }

  /** review-screen.tsx over the questions and the lock of the module under review. */
  function ReviewScreen(locked: bool, questions: seq<Question>, selected: map<int, string>, flagged: set<int>): (v: Summary)
    ensures v.expiredMessage <==> locked
    ensures v.showBack <==> !locked
    ensures v.showNext
    ensures forall i :: 0 <= i < |v.buttons| ==> (v.buttons[i].disabled <==> locked)
    ensures 0 <= v.answeredCount && 0 <= v.unansweredCount && 0 <= v.flaggedCount <= |questions|
    ensures v.answeredCount + v.unansweredCount == |questions|
    ensures v.answeredCount == |AnsweredQuestions(questions, selected)|
    ensures v.unansweredCount == |UnansweredQuestions(questions, selected)|
    ensures v.flaggedCount == |FlaggedQuestions(questions, flagged)|
    ensures v.buttons == Grid(questions, selected, flagged, locked)
  {
    AnsweredPlusUnanswered(questions, selected);
    var answered := |AnsweredQuestions(questions, selected)|;
    Summary(locked, Grid(questions, selected, flagged, locked), answered,
            |questions| - answered, |FlaggedQuestions(questions, flagged)|,
            !locked, true)
  }

  // ---------- Properties ----------

  /** Every question is counted exactly once, as answered or as unanswered. */
  lemma {:induction false} AnsweredPlusUnanswered(qs: seq<Question>, selected: map<int, string>)
    ensures |AnsweredQuestions(qs, selected)| + |UnansweredQuestions(qs, selected)| == |qs|
  {
    if |qs| > 0 {
      AnsweredPlusUnanswered(qs[1..], selected);
    }
  }

  /** Flags on ids outside the listed questions do not count. */
  lemma {:induction false} FlaggedCountIgnoresUnlisted(qs: seq<Question>, flagged: set<int>, others: set<int>)
    requires forall q :: q in qs ==> q.id !in others
    ensures FlaggedQuestions(qs, flagged + others) == FlaggedQuestions(qs, flagged)
  {
    if |qs| > 0 {
      assert qs[0] in qs;
      assert forall q :: q in qs[1..] ==> q in qs;
      FlaggedCountIgnoresUnlisted(qs[1..], flagged, others);
    }
  }

  /** An empty answer counts exactly as no answer at all. */
  lemma {:induction false} EmptyAnswerIsNoAnswer(qs: seq<Question>, selected: map<int, string>, id: int)
    ensures AnsweredQuestions(qs, selected[id := ""]) == AnsweredQuestions(qs, selected - {id})
  {
    if |qs| > 0 {
      EmptyAnswerIsNoAnswer(qs[1..], selected, id);
      assert Answered(selected[id := ""], qs[0].id) == Answered(selected - {id}, qs[0].id);
    }
  }

  /** With the reviewed module unlocked the review page shows exactly what check-your-work shows. */
  lemma UnlockedReviewMatchesCheckYourWork(qs: seq<Question>, selected: map<int, string>, flagged: set<int>)
    ensures ReviewScreen(false, qs, selected, flagged) == CheckYourWork(qs, selected, flagged)
  {
  }

  /** On a locked module every button is disabled and only Next leads on. */
  lemma LockedReviewIsReadOnly(qs: seq<Question>, selected: map<int, string>, flagged: set<int>)
    ensures var v := ReviewScreen(true, qs, selected, flagged);
      v.expiredMessage && !v.showBack && v.showNext
      && forall i :: 0 <= i < |v.buttons| ==> v.buttons[i].disabled
    ensures ReviewScreen(true, qs, selected, flagged).(expiredMessage := false, showBack := true,
        buttons := CheckYourWork(qs, selected, flagged).buttons)
      == CheckYourWork(qs, selected, flagged)
  {
  }
}
