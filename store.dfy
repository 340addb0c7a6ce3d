/**
 * The client-side exam-session store of lib/store.ts.
 *
 * The store holds the signed-in user and at most one exam session. Every
 * action replaces the store by a new value computed from the old one; the
 * session actions leave the store as it is when there is no session. Here
 * each action is a function from the old store to the new one, and the two
 * actions that build their new collection step by step (toggleFlag on a
 * copied set, addHighlight by pushing onto a list) are also given as methods
 * proved to compute the same store.
 */
module ExamStore {
  import opened Wrappers

  /** The part of the API's user record that the store is used with. */
  datatype User = User(id: int, name: string, email: string)

  datatype ExamSession = ExamSession(
    examId: string,
    sessionId: string,
    answers: map<string, string>,
    flags: set<string>,
    highlights: map<string, seq<string>>,
    notes: map<string, string>,
    currentQuestionIndex: int,
    startTime: int,
    timeRemaining: int)

  datatype Store = Store(user: Option<User>, examSession: Option<ExamSession>)

  const Empty: Store := Store(None, None)

  /** `m` agrees with `m0` everywhere except possibly at `k`. */
  ghost predicate SameElsewhere<V>(m: map<string, V>, m0: map<string, V>, k: string) {
    forall j :: j != k ==> (j in m <==> j in m0) && (j in m ==> m[j] == m0[j])
  }

  function SetUser(s: Store, user: Option<User>): (r: Store)
    ensures r.user == user && r.examSession == s.examSession
  {
    s.(user := user)
  }

  /** A fresh session: nothing answered, flagged, highlighted or noted; `duration` is in minutes. */
  function InitSession(s: Store, examId: string, sessionId: string, duration: int, now: int): (r: Store)
    ensures r.user == s.user && r.examSession.Some?
    ensures var e := r.examSession.value;
      && e.examId == examId && e.sessionId == sessionId
      && e.answers == map[] && e.flags == {} && e.highlights == map[] && e.notes == map[]
      && e.currentQuestionIndex == 0 && e.startTime == now
    ensures r.examSession.value.timeRemaining == duration * 60
  {
    s.(examSession := Some(ExamSession(examId, sessionId, map[], {}, map[], map[], 0, now, duration * 60)))
  }

  function SetAnswer(s: Store, questionId: string, answer: string): (r: Store)
    ensures s.examSession.None? ==> r == s
    ensures s.examSession.Some? ==>
      && r.user == s.user && r.examSession.Some?
      && r.examSession.value.(answers := s.examSession.value.answers) == s.examSession.value
      && questionId in r.examSession.value.answers
      && r.examSession.value.answers[questionId] == answer
      && SameElsewhere(r.examSession.value.answers, s.examSession.value.answers, questionId)
  {
    match s.examSession
    case None => s
    case Some(e) => s.(examSession := Some(e.(answers := e.answers[questionId := answer])))
  }

  /** The flag set with the membership of `id` flipped. */
  function Toggled(flags: set<string>, id: string): (r: set<string>)
    ensures id in r <==> id !in flags
    ensures forall j :: j != id ==> (j in r <==> j in flags)
  {
    if id in flags then flags - {id} else flags + {id}
  }

  function ToggleFlag(s: Store, questionId: string): (r: Store)
    ensures s.examSession.None? ==> r == s
    ensures s.examSession.Some? ==>
      && r.user == s.user && r.examSession.Some?
      && r.examSession.value.(flags := s.examSession.value.flags) == s.examSession.value
      && (questionId in r.examSession.value.flags <==> questionId !in s.examSession.value.flags)
      && (forall j :: j != questionId ==>
            (j in r.examSession.value.flags <==> j in s.examSession.value.flags))
  {
    match s.examSession
    case None => s
    case Some(e) => s.(examSession := Some(e.(flags := Toggled(e.flags, questionId))))
  }

  /** The highlight lists with `text` appended to the list of `id`, which starts empty if absent. */
  function Appended(highlights: map<string, seq<string>>, id: string, text: string): (r: map<string, seq<string>>)
    ensures id in r && |r[id]| > 0 && r[id][|r[id]| - 1] == text
    ensures r[id][..|r[id]| - 1] == if id in highlights then highlights[id] else []
    ensures SameElsewhere(r, highlights, id)
  {
    var list := if id in highlights then highlights[id] else [];
    highlights[id := list + [text]]
  }

  function AddHighlight(s: Store, questionId: string, text: string): (r: Store)
    ensures s.examSession.None? ==> r == s
    ensures s.examSession.Some? ==>
      && r.user == s.user && r.examSession.Some?
      && r.examSession.value.(highlights := s.examSession.value.highlights) == s.examSession.value
    ensures s.examSession.Some? ==>
      var h0, h := s.examSession.value.highlights, r.examSession.value.highlights;
      && questionId in h && |h[questionId]| > 0 && h[questionId][|h[questionId]| - 1] == text
      && h[questionId][..|h[questionId]| - 1] == (if questionId in h0 then h0[questionId] else [])
      && SameElsewhere(h, h0, questionId)
  {
    match s.examSession
    case None => s
    case Some(e) => s.(examSession := Some(e.(highlights := Appended(e.highlights, questionId, text))))
  }

  function SetNote(s: Store, questionId: string, note: string): (r: Store)
    ensures s.examSession.None? ==> r == s
    ensures s.examSession.Some? ==>
      && r.user == s.user && r.examSession.Some?
      && r.examSession.value.(notes := s.examSession.value.notes) == s.examSession.value
      && questionId in r.examSession.value.notes
      && r.examSession.value.notes[questionId] == note
      && SameElsewhere(r.examSession.value.notes, s.examSession.value.notes, questionId)
  {
    match s.examSession
    case None => s
    case Some(e) => s.(examSession := Some(e.(notes := e.notes[questionId := note])))
  }

  function SetCurrentQuestion(s: Store, index: int): (r: Store)
    ensures s.examSession.None? ==> r == s
    ensures s.examSession.Some? ==>
      && r.user == s.user && r.examSession.Some?
      && r.examSession.value.currentQuestionIndex == index
      && r.examSession.value.(currentQuestionIndex := s.examSession.value.currentQuestionIndex)
           == s.examSession.value
  {
    match s.examSession
    case None => s
    case Some(e) => s.(examSession := Some(e.(currentQuestionIndex := index)))
  }

  function UpdateTimeRemaining(s: Store, time: int): (r: Store)
    ensures s.examSession.None? ==> r == s
    ensures s.examSession.Some? ==>
      && r.user == s.user && r.examSession.Some?
      && r.examSession.value.timeRemaining == time
      && r.examSession.value.(timeRemaining := s.examSession.value.timeRemaining) == s.examSession.value
  {
    match s.examSession
    case None => s
    case Some(e) => s.(examSession := Some(e.(timeRemaining := time)))
  }

  function ClearSession(s: Store): (r: Store)
    ensures r.examSession.None? && r.user == s.user
  {
    s.(examSession := None)
  }

  /** toggleFlag as the source runs it: copy the set, then delete or add the id. */
  method ToggleFlagStep(s: Store, questionId: string) returns (r: Store)
    ensures r == ToggleFlag(s, questionId)
  {
    if s.examSession.None? {
      return s;
    }
    var e := s.examSession.value;
    var flags := e.flags;
    if questionId in flags {
      flags := flags - {questionId};
    } else {
      flags := flags + {questionId};
    }
    assert flags == Toggled(e.flags, questionId);
    r := s.(examSession := Some(e.(flags := flags)));
  }

  /** addHighlight as the source runs it: copy the lists, create an empty one if absent, push. */
  method AddHighlightStep(s: Store, questionId: string, text: string) returns (r: Store)
    ensures r == AddHighlight(s, questionId, text)
  {
    if s.examSession.None? {
      return s;
    }
    var e := s.examSession.value;
    var highlights := e.highlights;
    if questionId !in highlights {
      highlights := highlights[questionId := []];
    }
    highlights := highlights[questionId := highlights[questionId] + [text]];
    assert highlights == Appended(e.highlights, questionId, text);
    r := s.(examSession := Some(e.(highlights := highlights)));
  }

  // ---------- Properties ----------

  /** Toggling the same flag twice restores the store. */
  lemma ToggleFlagInvolution(s: Store, questionId: string)
    ensures ToggleFlag(ToggleFlag(s, questionId), questionId) == s
  {
    if s.examSession.Some? {
      var f := s.examSession.value.flags;
      var f2 := Toggled(Toggled(f, questionId), questionId);
      assert forall j :: j in f2 <==> j in f;
      assert f2 == f;
    }
  }

  /** Toggling different flags commutes. */
  lemma ToggleFlagsCommute(s: Store, a: string, b: string)
    ensures ToggleFlag(ToggleFlag(s, a), b) == ToggleFlag(ToggleFlag(s, b), a)
  {
    if s.examSession.Some? {
      var f := s.examSession.value.flags;
      var ab := Toggled(Toggled(f, a), b);
      var ba := Toggled(Toggled(f, b), a);
      assert forall j :: j in ab <==> j in ba;
      assert ab == ba;
    }
  }

  /** Highlights accumulate in order: two adds leave the two texts last, in the order added. */
  lemma HighlightsKeepOrder(s: Store, questionId: string, t1: string, t2: string)
    requires s.examSession.Some?
    ensures var h0 := s.examSession.value.highlights;
      var h := AddHighlight(AddHighlight(s, questionId, t1), questionId, t2).examSession.value.highlights;
      h[questionId] == (if questionId in h0 then h0[questionId] else []) + [t1, t2]
  {
    var h0 := s.examSession.value.highlights;
    var h1 := Appended(h0, questionId, t1);
    var h2 := Appended(h1, questionId, t2);
    var old0 := if questionId in h0 then h0[questionId] else [];
    assert h1[questionId] == old0 + [t1] by {
      assert h1[questionId] == h1[questionId][..|h1[questionId]| - 1] + [t1];
    }
    assert h2[questionId] == h1[questionId] + [t2] by {
      assert h2[questionId] == h2[questionId][..|h2[questionId]| - 1] + [t2];
    }
  }

  /** Writing an answer twice keeps the later one; writing the same answer again changes nothing. */
  lemma SetAnswerLastWins(s: Store, questionId: string, a1: string, a2: string)
    ensures SetAnswer(SetAnswer(s, questionId, a1), questionId, a2) == SetAnswer(s, questionId, a2)
    ensures SetAnswer(SetAnswer(s, questionId, a1), questionId, a1) == SetAnswer(s, questionId, a1)
  {
    if s.examSession.Some? {
      var m := s.examSession.value.answers;
      assert m[questionId := a1][questionId := a2] == m[questionId := a2];
      assert m[questionId := a1][questionId := a1] == m[questionId := a1];
    }
  }

  /** Signing a user in or out does not touch the session, and clearing the session does not touch the user. */
  lemma UserAndSessionIndependent(s: Store, u: Option<User>)
    ensures ClearSession(SetUser(s, u)) == SetUser(ClearSession(s), u)
  {
  }

  /** A cleared store ignores every session action. */
  lemma ClearedStoreIgnoresActions(s: Store, q: string, text: string, index: int, time: int)
    ensures SetAnswer(ClearSession(s), q, text) == ClearSession(s)
    ensures ToggleFlag(ClearSession(s), q) == ClearSession(s)
    ensures AddHighlight(ClearSession(s), q, text) == ClearSession(s)
    ensures SetNote(ClearSession(s), q, text) == ClearSession(s)
    ensures SetCurrentQuestion(ClearSession(s), index) == ClearSession(s)
    ensures UpdateTimeRemaining(ClearSession(s), time) == ClearSession(s)
  {
  }
}
