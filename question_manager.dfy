/** The question manager (src/TriviaService/QuestionManager.cs): a FIFO pool
    of unasked questions refilled from the provider, and a set of answered
    questions whose first answer raises the QuestionAnswered event. */
module QuestionManagement {
  import opened Wrappers
  import opened Exceptions
  import opened Questions

  /** The payload of QuestionAnswered. */
  datatype QuestionAnsweredEventArgs = QuestionAnsweredEventArgs(Question: TriviaQuestion, Answer: string) {
    /** The submitted answer is the question's correct answer. */
    predicate IsCorrect() {
      Answer == Question.CorrectAnswer
    }
  }

  /** What one fetch of the provider gives: a batch of questions, or the
      exception GetQuestionsAsync threw. */
  type Batch = Result<seq<TriviaQuestion>, Exception>

  /** The questions of a batch the refill enqueues: those not in the answered
      set, in batch order, repeats included. The set holds references, so
      this asks whether the very same object was answered. */
  function Unanswered(batch: seq<TriviaQuestion>, answered: set<TriviaQuestion>): (r: seq<TriviaQuestion>)
    ensures forall x :: x in r ==> x in batch && x !in answered
    ensures |r| <= |batch|
    decreases |batch|
  {
    if batch == [] then
      []
    else
      var init := batch[..|batch| - 1];
      var last := batch[|batch| - 1];
      assert batch == init + [last];
      if last in answered then Unanswered(init, answered) else Unanswered(init, answered) + [last]
  }

  /** One more question of the batch is enqueued exactly when it is not in
      the answered set. */
  lemma UnansweredSnoc(batch: seq<TriviaQuestion>, x: TriviaQuestion, answered: set<TriviaQuestion>)
    ensures Unanswered(batch + [x], answered)
         == Unanswered(batch, answered) + (if x in answered then [] else [x])
  {
    assert (batch + [x])[..|batch + [x]| - 1] == batch;
  }

  /** Each question occurs in the filtered batch as often as in the batch,
      or not at all if it was answered: nothing unanswered is dropped and
      nothing answered is kept. */
  lemma {:induction false} UnansweredCounts(batch: seq<TriviaQuestion>, answered: set<TriviaQuestion>, x: TriviaQuestion)
    ensures multiset(Unanswered(batch, answered))[x] == if x in answered then 0 else multiset(batch)[x]
    decreases |batch|
  {
    if batch != [] {
      var init := batch[..|batch| - 1];
      var last := batch[|batch| - 1];
      assert batch == init + [last];
      UnansweredSnoc(init, last, answered);
      UnansweredCounts(init, answered, x);
    }
  }

  /** Filtering a concatenation filters each part, so the enqueued questions
      keep the batch's order. */
  lemma {:induction false} UnansweredDistributes(a: seq<TriviaQuestion>, b: seq<TriviaQuestion>, answered: set<TriviaQuestion>)
    ensures Unanswered(a + b, answered) == Unanswered(a, answered) + Unanswered(b, answered)
    decreases |b|
  {
    if b != [] {
      var init := b[..|b| - 1];
      var last := b[|b| - 1];
      assert b == init + [last];
      assert a + b == (a + init) + [last];
      UnansweredSnoc(a + init, last, answered);
      UnansweredSnoc(init, last, answered);
      UnansweredDistributes(a, init, answered);
    } else {
      assert a + b == a;
    }
  }

  /** A batch none of whose objects is in the answered set is enqueued whole. */
  lemma {:induction false} UnansweredKeepsUnseen(batch: seq<TriviaQuestion>, answered: set<TriviaQuestion>)
    requires forall x :: x in batch ==> x !in answered
    ensures Unanswered(batch, answered) == batch
    decreases |batch|
  {
    if batch != [] {
      var init := batch[..|batch| - 1];
      var last := batch[|batch| - 1];
      assert batch == init + [last];
      UnansweredSnoc(init, last, answered);
      UnansweredKeepsUnseen(init, answered);
    }
  }

  /** A fetched batch contributes nothing: it arrived and all of it was answered. */
  predicate AllAnswered(batch: Batch, answered: set<TriviaQuestion>) {
    batch.Success? && Unanswered(batch.value, answered) == []
  }

  /** How a refill of an empty pool ends, fetch by fetch. */
  datatype RefillOutcome =
    | Refilled(pool: seq<TriviaQuestion>, fetches: nat)
    | FetchFailed(error: Exception, fetches: nat)
    | OutOfBatches

  /** The same ending, n fetches later. */
  function Delay(r: RefillOutcome, n: nat): RefillOutcome {
    match r
    case Refilled(pool, k) => Refilled(pool, k + n)
    case FetchFailed(e, k) => FetchFailed(e, k + n)
    case OutOfBatches => OutOfBatches
  }

  /** The refill loop on an empty pool, fetching the given batches in turn
      until one fails or enqueues something. If the batches run out first,
      the source would go on fetching. */
  function Refill(batches: seq<Batch>, answered: set<TriviaQuestion>): RefillOutcome
  {
    if batches == [] then
      OutOfBatches
    else
      match batches[0]
      case Failure(e) => FetchFailed(e, 1)
      case Success(batch) =>
        var unseen := Unanswered(batch, answered);
        if unseen != [] then Refilled(unseen, 1) else Delay(Refill(batches[1..], answered), 1)
  }

  /** The refill stops at the first batch that fails or that holds an
      unanswered question, and then the pool is exactly that batch's
      unanswered questions; every earlier batch was entirely answered. */
  lemma {:induction false} RefillMeaning(batches: seq<Batch>, answered: set<TriviaQuestion>)
    ensures var r := Refill(batches, answered);
      && (r.Refilled? ==>
            && 1 <= r.fetches <= |batches|
            && batches[r.fetches - 1].Success?
            && r.pool == Unanswered(batches[r.fetches - 1].value, answered)
            && r.pool != [])
      && (r.FetchFailed? ==> 1 <= r.fetches <= |batches| && batches[r.fetches - 1] == Failure(r.error))
      && (!r.OutOfBatches? ==> forall k :: 0 <= k < r.fetches - 1 ==> AllAnswered(batches[k], answered))
      && (r.OutOfBatches? ==> forall k :: 0 <= k < |batches| ==> AllAnswered(batches[k], answered))
  {
    if batches != [] && batches[0].Success? && Unanswered(batches[0].value, answered) == [] {
      var tail := batches[1..];
      RefillMeaning(tail, answered);
      assert forall k :: 1 <= k < |batches| ==> batches[k] == tail[k - 1];
    }
  }

  lemma DelayAdds(r: RefillOutcome, m: nat, n: nat)
    ensures Delay(Delay(r, m), n) == Delay(r, m + n)
  {
  }

  /** After n entirely answered batches, the refill goes on as if it started
      at batch n. */
  lemma {:induction false} RefillSkipsAnswered(batches: seq<Batch>, answered: set<TriviaQuestion>, n: nat)
    requires n <= |batches|
    requires forall k :: 0 <= k < n ==> AllAnswered(batches[k], answered)
    ensures Refill(batches, answered) == Delay(Refill(batches[n..], answered), n)
  {
    if n == 0 {
      assert batches[0..] == batches;
      DelayAdds(Refill(batches, answered), 0, 0);
      match Refill(batches, answered)
      case Refilled(_, _) =>
      case FetchFailed(_, _) =>
      case OutOfBatches =>
    } else {
      var tail := batches[1..];
      assert AllAnswered(batches[0], answered);
      assert Refill(batches, answered) == Delay(Refill(tail, answered), 1);
      assert forall k :: 0 <= k < n - 1 ==> tail[k] == batches[k + 1];
      RefillSkipsAnswered(tail, answered, n - 1);
      assert tail[n - 1..] == batches[n..];
      DelayAdds(Refill(batches[n..], answered), n - 1, 1);
    }
  }

  /** What GetNextQuestionAsync gives back. */
  datatype NextQuestion =
    | Next(question: TriviaQuestion)
    /** A fetch threw; the exception escapes. */
    | Failed(error: Exception)
    /** The given batches ran out with the pool still empty: the source
        would fetch again, without bound. */
    | StillFetching

  class QuestionManager {
    /** The unasked questions, front first. */
    var QuestionPool: seq<TriviaQuestion>
    /** The answered questions, by reference. */
    var AnsweredQuestions: set<TriviaQuestion>
    /** Every QuestionAnswered event raised so far, in order. */
    ghost var AnsweredEvents: seq<QuestionAnsweredEventArgs>

    constructor ()
      ensures QuestionPool == [] && AnsweredQuestions == {} && AnsweredEvents == []
    {
      QuestionPool := [];
      AnsweredQuestions := {};
      AnsweredEvents := [];
    }

    /** GetNextQuestionAsync, with `batches` standing for the replies of the
        successive GetQuestionsAsync calls. A non-empty pool is dequeued
        without fetching; an empty one is refilled first, as Refill says.
        The answered set and the events never change. */
    method GetNextQuestion(batches: seq<Batch>) returns (outcome: NextQuestion, fetches: nat)
      modifies this
      ensures AnsweredQuestions == old(AnsweredQuestions) && AnsweredEvents == old(AnsweredEvents)
      ensures old(QuestionPool) != [] ==>
        fetches == 0 && outcome.Next? && [outcome.question] + QuestionPool == old(QuestionPool)
      ensures old(QuestionPool) == [] ==>
        match Refill(batches, old(AnsweredQuestions))
        case Refilled(pool, n) => fetches == n && outcome.Next? && [outcome.question] + QuestionPool == pool
        case FetchFailed(e, n) => fetches == n && outcome == Failed(e) && QuestionPool == []
        case OutOfBatches => fetches == |batches| && outcome == StillFetching && QuestionPool == []
    {
      fetches := 0;
      while QuestionPool == []
        invariant fetches <= |batches|
        invariant AnsweredQuestions == old(AnsweredQuestions) && AnsweredEvents == old(AnsweredEvents)
        invariant old(QuestionPool) != [] ==> fetches == 0 && QuestionPool == old(QuestionPool)
        invariant old(QuestionPool) == [] && QuestionPool == [] ==>
          forall k :: 0 <= k < fetches ==> AllAnswered(batches[k], AnsweredQuestions)
        invariant old(QuestionPool) == [] && QuestionPool != [] ==>
          Refill(batches, AnsweredQuestions) == Refilled(QuestionPool, fetches)
        decreases |batches| - fetches
      {
        RefillSkipsAnswered(batches, AnsweredQuestions, fetches);
        if fetches == |batches| {
          outcome := StillFetching;
          return;
        }
        var batch := batches[fetches];
        fetches := fetches + 1;
        if batch.Failure? {
          outcome := Failed(batch.error);
          return;
        }
        EnqueueUnanswered(batch.value);
      }
      outcome := Next(QuestionPool[0]);
      QuestionPool := QuestionPool[1..];
    }

    /** The foreach of GetNextQuestionAsync: enqueues, in order, each
        question of the batch that is not in the answered set. */
    method EnqueueUnanswered(newQuestions: seq<TriviaQuestion>)
      modifies this
      ensures QuestionPool == old(QuestionPool) + Unanswered(newQuestions, AnsweredQuestions)
      ensures AnsweredQuestions == old(AnsweredQuestions) && AnsweredEvents == old(AnsweredEvents)
    {
      var j := 0;
      while j < |newQuestions|
        invariant 0 <= j <= |newQuestions|
        invariant AnsweredQuestions == old(AnsweredQuestions) && AnsweredEvents == old(AnsweredEvents)
        invariant QuestionPool == old(QuestionPool) + Unanswered(newQuestions[..j], AnsweredQuestions)
      {
        assert newQuestions[..j + 1] == newQuestions[..j] + [newQuestions[j]];
        UnansweredSnoc(newQuestions[..j], newQuestions[j], AnsweredQuestions);
        if newQuestions[j] !in AnsweredQuestions {
          QuestionPool := QuestionPool + [newQuestions[j]];
        }
        j := j + 1;
      }
      assert newQuestions[..j] == newQuestions;
    }

    /** AnswerQuestion: the first answer to a question adds it to the set and
        raises exactly one event with the question and the answer; any later
        answer to the same object changes nothing. The pool is untouched. */
    method AnswerQuestion(question: TriviaQuestion, answer: string)
      modifies this
      ensures QuestionPool == old(QuestionPool)
      ensures AnsweredQuestions == old(AnsweredQuestions) + {question}
      ensures question !in old(AnsweredQuestions) ==>
        && |AnsweredQuestions| == |old(AnsweredQuestions)| + 1
        && AnsweredEvents == old(AnsweredEvents) + [QuestionAnsweredEventArgs(question, answer)]
        && (AnsweredEvents[|AnsweredEvents| - 1].IsCorrect() <==> answer == question.CorrectAnswer)
      ensures question in old(AnsweredQuestions) ==>
        AnsweredQuestions == old(AnsweredQuestions) && AnsweredEvents == old(AnsweredEvents)
    {
      var added := question !in AnsweredQuestions;
      AnsweredQuestions := AnsweredQuestions + {question};
      if added {
        OnQuestionAnswered(question, answer);
      }
    }

    /** Raises QuestionAnswered once. */
    method OnQuestionAnswered(question: TriviaQuestion, answer: string)
      modifies this
      ensures QuestionPool == old(QuestionPool) && AnsweredQuestions == old(AnsweredQuestions)
      ensures AnsweredEvents == old(AnsweredEvents) + [QuestionAnsweredEventArgs(question, answer)]
    {
      AnsweredEvents := AnsweredEvents + [QuestionAnsweredEventArgs(question, answer)];
    }
  }
}
