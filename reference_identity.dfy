/** The answered set of QuestionManager is a HashSet of TriviaQuestion, a
    class that overrides GetHashCode but not Equals: membership is decided
    by reference. Every fetch parses new objects, so a question that was
    already answered comes back into the pool when the provider sends it
    again. This module exhibits that on the model as written, and gives the
    content-keyed filter the hash code evidently aims at. */
module ReferenceIdentity {
  import opened Wrappers
  import opened Exceptions
  import opened Questions
  import opened OpenTriviaDatabase
  import opened QuestionManagement

  /** As written: two fetches of the same query, with the provider giving the
      same reply, yield questions with equal contents but distinct objects,
      position by position. */
  method FetchTwice(query: OpenTriviaDataBaseQuery, get: string -> Result<Option<Json.Json>, Exception>)
    returns (first: Result<seq<TriviaQuestion>, Exception>, second: Result<seq<TriviaQuestion>, Exception>)
    ensures var u := QueryUri(query);
      && (first.Success? <==> ReplyQuestions(u, get(u)).Success?)
      && (first.Success? ==> |first.value| == |ReplyQuestions(u, get(u)).value|)
      && (first.Success? ==> forall i :: 0 <= i < |first.value| ==>
            first.value[i].Content() == ReplyQuestions(u, get(u)).value[i])
    ensures first.Success? ==>
      && second.Success?
      && |second.value| == |first.value|
      && forall i :: 0 <= i < |first.value| ==>
           second.value[i] != first.value[i] && second.value[i].Content() == first.value[i].Content()
  {
    var _, earlier := GetQuestions(query, get);
    var _, later := GetQuestions(query, get);
    first, second := earlier, later;
  }

  /** As written: the provider replies to the query with a single question.
      The manager asks it, it is answered correctly, the pool is empty again,
      and the next refill gets the same reply. The question asked then is a
      different object with the same content, so it is asked a second time.
      `first` and `second` are the results of the two fetches; the manager's
      refills from them yield `asked` and `askedAgain`. */
  method AnsweredQuestionIsAskedAgain(query: OpenTriviaDataBaseQuery, get: string -> Result<Option<Json.Json>, Exception>)
    returns (asked: TriviaQuestion?, askedAgain: TriviaQuestion?,
             first: Result<seq<TriviaQuestion>, Exception>, second: Result<seq<TriviaQuestion>, Exception>,
             manager: QuestionManager)
    ensures var u := QueryUri(query);
      ReplyQuestions(u, get(u)).Success? && |ReplyQuestions(u, get(u)).value| == 1 ==> asked != null
    ensures asked != null ==>
      && asked in manager.AnsweredQuestions
      && askedAgain != null
      && askedAgain !in manager.AnsweredQuestions
      && askedAgain != asked
      && askedAgain.Content() == asked.Content()
    ensures asked != null ==>
      var u := QueryUri(query);
      && ReplyQuestions(u, get(u)).Success? && |ReplyQuestions(u, get(u)).value| == 1
      && first == Success([asked])
      && Refill([first], {}) == Refilled([asked], 1)
      && asked.Content() == ReplyQuestions(u, get(u)).value[0]
      && manager.AnsweredQuestions == {asked}
    ensures asked != null ==>
      && second == Success([askedAgain])
      && Refill([second], manager.AnsweredQuestions) == Refilled([askedAgain], 1)
      && manager.QuestionPool == []
  {
    manager := new QuestionManager();
    asked, askedAgain := null, null;
    first, second := FetchTwice(query, get);
    if first.Failure? || |first.value| != 1 {
      return;
    }
    UnseenBatchRefills(first.value, {});
    var outcome, _ := manager.GetNextQuestion([first]);
    asked := outcome.question;
    assert first.value == [asked] && manager.QuestionPool == [];
    manager.AnswerQuestion(asked, asked.CorrectAnswer);
    assert manager.QuestionPool == [] && manager.AnsweredQuestions == {asked};
    UnseenBatchRefills(second.value, {asked});
    var again, _ := manager.GetNextQuestion([second]);
    askedAgain := again.question;
    assert second.value == [askedAgain];
  }

  /** A fetched batch none of whose objects was answered refills the pool
      with the whole batch. */
  lemma UnseenBatchRefills(batch: seq<TriviaQuestion>, answered: set<TriviaQuestion>)
    requires batch != []
    requires forall x :: x in batch ==> x !in answered
    ensures Refill([Success(batch)], answered) == Refilled(batch, 1)
  {
    UnansweredKeepsUnseen(batch, answered);
  }

  /** What GetHashCode combines: the question text and the correct answer. */
  function ContentKey(q: TriviaQuestion): (string, string) {
    (q.Question, q.CorrectAnswer)
  }

  function AnsweredKeys(answered: set<TriviaQuestion>): set<(string, string)> {
    set q | q in answered :: ContentKey(q)
  }

  /** Corrected refill filter: keeps, in order, the questions whose content
      key has not been answered. */
  function UnansweredByContent(batch: seq<TriviaQuestion>, answeredKeys: set<(string, string)>): (r: seq<TriviaQuestion>)
    ensures forall x :: x in r ==> x in batch && ContentKey(x) !in answeredKeys
    ensures forall x :: x in batch && ContentKey(x) !in answeredKeys ==> x in r
    ensures |r| <= |batch|
    decreases |batch|
  {
    if batch == [] then
      []
    else
      var init := batch[..|batch| - 1];
      var last := batch[|batch| - 1];
      assert batch == init + [last];
      if ContentKey(last) in answeredKeys then
        UnansweredByContent(init, answeredKeys)
      else
        UnansweredByContent(init, answeredKeys) + [last]
  }

  /** Corrected: no question enqueued by the content filter shares question
      text and correct answer with an answered question, whatever object it is. */
  lemma ContentFilterNeverReoffers(batch: seq<TriviaQuestion>, answered: set<TriviaQuestion>, x: TriviaQuestion, p: TriviaQuestion)
    requires x in UnansweredByContent(batch, AnsweredKeys(answered))
    requires p in answered
    ensures x.Question != p.Question || x.CorrectAnswer != p.CorrectAnswer
  {
    assert ContentKey(p) in AnsweredKeys(answered);
  }

  /** Corrected: every question the content filter keeps is kept by the
      reference filter too, so the content filter drops everything the
      reference filter drops. */
  lemma KeptByContentKeptByReference(batch: seq<TriviaQuestion>, answered: set<TriviaQuestion>, x: TriviaQuestion)
    requires x in UnansweredByContent(batch, AnsweredKeys(answered))
    ensures x in Unanswered(batch, answered)
  {
    UnansweredCounts(batch, answered, x);
    assert x in multiset(batch);
  }

  /** Corrected: the content filter keeps no more questions than the
      reference filter. */
  lemma {:induction false} ContentFilterIsStricter(batch: seq<TriviaQuestion>, answered: set<TriviaQuestion>)
    ensures |UnansweredByContent(batch, AnsweredKeys(answered))| <= |Unanswered(batch, answered)|
    decreases |batch|
  {
    if batch != [] {
      var init := batch[..|batch| - 1];
      var last := batch[|batch| - 1];
      assert batch == init + [last];
      ContentFilterIsStricter(init, answered);
      if last in answered {
        assert ContentKey(last) in AnsweredKeys(answered);
      }
    }
  }
}
