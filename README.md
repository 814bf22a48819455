# TriviaService in Dafny

This project models the core of TriviaService, a small client for the Open Trivia DB. The core has four parts:

- **Enums.** The three enumerations: categories with integer codes 9..32, difficulties and question types.
- **TriviaQuestion.** The immutable question object. Its hash code is computed from the question text and the correct answer.
- **OpenTriviaDatabase.** It builds the request URI from a query, encodes the filters as query values, decodes the provider's strings back into enum values, and turns each result entry of a JSON reply into a question.
- **QuestionManager.** It keeps a FIFO pool of unasked questions, refills the pool from the provider while skipping answered questions, and keeps a set of answered questions. The first answer to a question raises the `QuestionAnswered` event.

Modules:

- `Wrappers`, `Exceptions`, `Json`: the Option and Result types, the exceptions the code throws, and JSON as an already parsed tree. `JsonElement` accessors fail the way they throw: a wrong value kind or a missing property.
- `Enums` (`enums.dfy`) and `Questions` (`trivia_question.dfy`): the domain values. `TriviaQuestion` is a class with `const` fields, so question objects are compared by reference, as C# does for a class that does not override `Equals`.
- `Text`: `int.ToString()`, ASCII `ToLower()`, and splitting and joining strings.
- `Traversal`: `Select(f).ToList()` with a selector that can throw.
- `OpenTriviaDatabase`: the client. The HTTP GET is the parameter `get`.
- `QueryRoundTrip`: a reader for the URIs the client builds. It is used to prove that the encoding loses nothing.
- `QuestionManagement`: the manager as a class with a `seq` pool, a `set` of answered questions and a ghost log of raised events. Each fetch is a given batch result.
- `ReferenceIdentity`: the consequence of reference identity (see Findings), and the content-keyed filter that the hash code suggests was intended.

The background service expects more of the manager and the question than their code defines. It reads `e.Question.Answers` (`TriviaBackgroundService.cs:54`) and calls `new QuestionManager(TimeSpan)`, `QuestionAsked`, `RunAsync` and `DismissQuestion` (`TriviaBackgroundService.cs:37-38, 88, 128`). None of these is declared in `TriviaQuestion.cs` or `QuestionManager.cs`. The model follows the code as declared:

- one GET per fetch, with no retry;
- the texts are taken as received, with no HTML decoding;
- only `"General Knowledge"` decodes as a category;
- the manager has exactly the members `QuestionManager.cs` defines.

## Model

| member | source | states |
|---|---|---|
| Enums.Code | src/TriviaService/Enums.cs:6-32 | every category's integer value lies in 9..32 |
| Enums.CodesFollowDeclarationOrder | src/TriviaService/Enums.cs:6-32 | there are 24 categories; the first has code 9, each later one has one more than the one before it, and the last (`Entertainment_CartoonAndAnimations`) is 32 |
| Enums.CodeAtPosition | src/TriviaService/Enums.cs:8-31 | the category declared at position j has code 9 + j |
| Enums.CodeIndexesDeclaration | src/TriviaService/Enums.cs:6-32 | every category sits at position `Code(c) - 9` of the declaration list |
| Enums.CodeInjective | src/TriviaService/Enums.cs:6-32 | two categories with the same code are the same category |
| Questions.TriviaQuestion.constructor | src/TriviaService/TriviaQuestion.cs:21-30 | every field holds its argument unchanged, and the incorrect answers are the given elements in the given order |
| Questions.TriviaQuestion.GetHashCode | src/TriviaService/TriviaQuestion.cs:32-35 | the combiner applied to the question text and the correct answer; HashIgnoresOtherFields states what follows from it |
| Questions.HashIgnoresOtherFields | src/TriviaService/TriviaQuestion.cs:32-35 | two questions with equal text and correct answer have equal hash codes, whatever their other fields, for any combiner |
| Text.NatToDecimal | src/TriviaService/OpenTriviaDatabase.cs:18 | the digits of n, with no leading zero, denote n |
| Text.IntToDecimal | src/TriviaService/OpenTriviaDatabase.cs:18 | `n.ToString()` reads back as n and is canonical: digits with no leading zero (only 0 is written `0`), and a negative number is `-` followed by digits that do not start with `0` |
| Text.ToLowerAscii | src/TriviaService/OpenTriviaDatabase.cs:123 | same length, each character lower-cased |
| Text.SplitJoin | src/TriviaService/OpenTriviaDatabase.cs:16-33 | splitting at a separator that no part holds gives the joined parts back |
| OpenTriviaDatabase.GetCategory | src/TriviaService/OpenTriviaDatabase.cs:80-94 | only `"General Knowledge"` succeeds, as `GeneralKnowledge`; null is `ArgumentNullException`; any other string fails |
| OpenTriviaDatabase.GetDifficulty | src/TriviaService/OpenTriviaDatabase.cs:101-119 | succeeds exactly on `easy`, `medium`, `hard`; null is `ArgumentNullException` |
| OpenTriviaDatabase.GetType | src/TriviaService/OpenTriviaDatabase.cs:126-142 | succeeds exactly on `multiple`, `boolean`; null is `ArgumentNullException` |
| OpenTriviaDatabase.CategoryQueryValue | src/TriviaService/OpenTriviaDatabase.cs:96-99 | the token is all digits with no leading zero and reads back as the category's integer code |
| OpenTriviaDatabase.DifficultyQueryValue | src/TriviaService/OpenTriviaDatabase.cs:121-124 | the lower-cased member name; decoding it with GetDifficulty gives the difficulty back |
| OpenTriviaDatabase.TypeQueryValue | src/TriviaService/OpenTriviaDatabase.cs:144-156 | decoding the token with GetType gives the type back |
| OpenTriviaDatabase.DifficultyCodecBijective | src/TriviaService/OpenTriviaDatabase.cs:101-124 | `GetDifficulty(ToQueryValue(d)) == d`, and a string decodes to d only if it is d's token |
| OpenTriviaDatabase.TypeCodecBijective | src/TriviaService/OpenTriviaDatabase.cs:126-156 | a string decodes to t exactly when it is t's token |
| OpenTriviaDatabase.QueryUri | src/TriviaService/OpenTriviaDatabase.cs:16-33 | the base address, `?`, and the query's parameters rendered as `name=value` and joined with `&`; QueryUriShape and QueryUriRoundTrip state what it holds |
| OpenTriviaDatabase.QueryUriShape | src/TriviaService/OpenTriviaDatabase.cs:12-33 | the URI is the base address, `?amount=` and the amount in decimal, then `&category=`, `&difficulty=` and `&type=` with their tokens, each exactly when that filter is set, in this order |
| OpenTriviaDatabase.DefaultQuery | src/TriviaService/OpenTriviaDatabase.cs:159-170 | `new OpenTriviaDataBaseQuery()`: `Amount` 10 and no category, difficulty or type |
| OpenTriviaDatabase.DefaultQueryUri | src/TriviaService/OpenTriviaDatabase.cs:159-170 | the default query (10 questions, no filter) asks for exactly `https://opentdb.com/api.php?amount=10` |
| OpenTriviaDatabase.BuildQueryUri | src/TriviaService/OpenTriviaDatabase.cs:16-33 | the successive appends build exactly the query's URI |
| OpenTriviaDatabase.AppendParameter | src/TriviaService/OpenTriviaDatabase.cs:20-33 | `&name=value` is appended exactly when the value is present |
| OpenTriviaDatabase.ReadAnswers | src/TriviaService/OpenTriviaDatabase.cs:62 | succeeds exactly when every item is a string, and then gives the items' strings in array order |
| OpenTriviaDatabase.ReadCategory | src/TriviaService/OpenTriviaDatabase.cs:55 | succeeds exactly when `category` is the string `"General Knowledge"` |
| OpenTriviaDatabase.ReadDifficulty | src/TriviaService/OpenTriviaDatabase.cs:56 | succeeds exactly when `difficulty` is a string from the table, and then gives its decoding |
| OpenTriviaDatabase.ReadType | src/TriviaService/OpenTriviaDatabase.cs:57 | succeeds exactly when `type` is a string from the table, and then gives its decoding |
| OpenTriviaDatabase.ReadText | src/TriviaService/OpenTriviaDatabase.cs:59-60 | succeeds exactly when the property is a non-null string, and then gives it unchanged |
| OpenTriviaDatabase.ReadIncorrectAnswers | src/TriviaService/OpenTriviaDatabase.cs:62 | succeeds exactly when `incorrect_answers` is an array of strings, and then gives them in order |
| OpenTriviaDatabase.DecodeEntry | src/TriviaService/OpenTriviaDatabase.cs:53-65 | the six lookups of ParseJson in source order, the first that throws deciding the error; DecodeEntryMeaning states what it yields |
| OpenTriviaDatabase.DecodeEntryMeaning | src/TriviaService/OpenTriviaDatabase.cs:53-65 | an entry decodes exactly when it is well formed. The question then has the category `GeneralKnowledge`, the difficulty and type whose tokens are the entry's strings, the entry's text and correct answer unchanged, and the incorrect answers in array order |
| OpenTriviaDatabase.ParseJson | src/TriviaService/OpenTriviaDatabase.cs:53-65 | succeeds exactly when the entry decodes, with a new question object holding the decoded fields; otherwise it fails with the decoder's error |
| OpenTriviaDatabase.TryParseJson | src/TriviaService/OpenTriviaDatabase.cs:67-78 | true with the parsed question exactly when ParseJson succeeds, otherwise false and null |
| OpenTriviaDatabase.DecodeEntries | src/TriviaService/OpenTriviaDatabase.cs:43 | the batch decodes exactly when every entry does, and then holds the entries' questions in order |
| OpenTriviaDatabase.ResultEntries | src/TriviaService/OpenTriviaDatabase.cs:43 | succeeds exactly when the document is an object whose `results` is an array, and then gives that array's entries |
| OpenTriviaDatabase.ParseEntries | src/TriviaService/OpenTriviaDatabase.cs:43 | on success, one new and distinct object per entry, in order, with the decoded contents; otherwise the batch's error |
| OpenTriviaDatabase.ReplyQuestions | src/TriviaService/OpenTriviaDatabase.cs:36-50 | a transport failure escapes; a null document is the error naming the URI; a missing or non-array `results` fails; otherwise every entry must decode, and the questions come in order |
| OpenTriviaDatabase.GetQuestions | src/TriviaService/OpenTriviaDatabase.cs:14-51 | the GET goes to the query's URI, and the reply becomes new, pairwise distinct question objects with the contents ReplyQuestions gives, or that error |
| Traversal.MapResults | src/TriviaService/OpenTriviaDatabase.cs:43 | `Select(f).ToList()` with a throwing selector; a built list has one image per element |
| Traversal.MapResultsMeaning | src/TriviaService/OpenTriviaDatabase.cs:43 | `Select(f).ToList()` succeeds exactly when f succeeds on every element, and then holds the images in order |
| Traversal.MapResultsStep | src/TriviaService/OpenTriviaDatabase.cs:43 | one more element extends the list, or its failure fails the whole list |
| Traversal.MapResultsFirstFailure | src/TriviaService/OpenTriviaDatabase.cs:43 | the list fails with the error of its first failing element |
| QueryRoundTrip.CategoryOfCode | src/TriviaService/Enums.cs:6-32 | a code in 9..32 names the category with that code, and any other integer names none |
| QueryRoundTrip.CategoryCodeRoundTrip | src/TriviaService/Enums.cs:6-32 | every category is recovered from its code |
| QueryRoundTrip.QueryParametersAreClean | src/TriviaService/OpenTriviaDatabase.cs:18-33 | no parameter name holds `&` or `=`, and no value holds `&` |
| QueryRoundTrip.SplitRenderedParameters | src/TriviaService/OpenTriviaDatabase.cs:18-33 | clean `name=value` pairs joined with `&` split back into the same pairs |
| QueryRoundTrip.ParametersRoundTrip | src/TriviaService/OpenTriviaDatabase.cs:18-33 | the parameter list of a query reads back as that query |
| QueryRoundTrip.QueryUriRoundTrip | src/TriviaService/OpenTriviaDatabase.cs:16-33 | reading back the URI built from a query gives that query |
| QueryRoundTrip.QueryUriInjective | src/TriviaService/OpenTriviaDatabase.cs:16-33 | distinct queries are sent to distinct URIs |
| QuestionManagement.Unanswered | src/TriviaService/QuestionManager.cs:30-36 | what is enqueued comes from the batch and is not in the answered set |
| QuestionManagement.UnansweredSnoc | src/TriviaService/QuestionManager.cs:30-36 | each fetched question is enqueued exactly when it is not in the answered set |
| QuestionManagement.UnansweredCounts | src/TriviaService/QuestionManager.cs:30-36 | an answered question is never enqueued; any other occurs as often as in the batch |
| QuestionManagement.UnansweredDistributes | src/TriviaService/QuestionManager.cs:30-36 | the enqueued questions keep the fetch order |
| QuestionManagement.UnansweredKeepsUnseen | src/TriviaService/QuestionManager.cs:30-36 | a batch with no answered object is enqueued whole |
| QuestionManagement.Refill | src/TriviaService/QuestionManager.cs:26-37 | the refill loop on an empty pool, over the given fetch results; RefillMeaning states where it stops and what it enqueues |
| QuestionManagement.RefillMeaning | src/TriviaService/QuestionManager.cs:26-37 | the refill stops at the first fetch that throws or that enqueues something, and every earlier batch was entirely answered |
| QuestionManagement.RefillSkipsAnswered | src/TriviaService/QuestionManager.cs:26-37 | fully answered batches only delay the refill |
| QuestionManagement.QuestionAnsweredEventArgs.IsCorrect | src/TriviaService/QuestionManager.cs:64 | the answer equals the question's correct answer; AnswerQuestion states it for the event it raises |
| QuestionManagement.QuestionManager.constructor | src/TriviaService/QuestionManager.cs:16-22 | a new manager has an empty pool, no answered question and no event |
| QuestionManagement.QuestionManager.GetNextQuestion | src/TriviaService/QuestionManager.cs:24-40 | a non-empty pool yields its front element without fetching. An empty pool is refilled as RefillMeaning describes, and then its front is dequeued. A failed fetch escapes. The answered set never changes |
| QuestionManagement.QuestionManager.EnqueueUnanswered | src/TriviaService/QuestionManager.cs:30-36 | the pool grows by exactly the batch's unanswered questions, in order |
| QuestionManagement.QuestionManager.AnswerQuestion | src/TriviaService/QuestionManager.cs:42-48 | the pool is untouched and the set gains the question. A first answer grows the set by one and raises one event, whose `IsCorrect` holds exactly when the answer is the correct one. A repeated answer changes nothing |
| QuestionManagement.QuestionManager.OnQuestionAnswered | src/TriviaService/QuestionManager.cs:50-53 | exactly one event with the question and the answer is raised |
| ReferenceIdentity.FetchTwice | src/TriviaService/OpenTriviaDatabase.cs:53-65 | the first fetch succeeds exactly when the reply decodes, with one question per decoded entry whose content is that entry; the same reply fetched again gives questions with equal contents that are different objects |
| ReferenceIdentity.AnsweredQuestionIsAskedAgain | src/TriviaService/QuestionManager.cs:30-44 | whenever the reply to the query's URI decodes to exactly one question, a question is asked. The first fetch is then exactly that question, with the decoded content; the manager's refill from it enqueues it, and after it is answered the answered set is exactly that question. The second fetch is then exactly one question, `askedAgain`. The manager's refill over the answered set enqueues it, and the pool is empty again after it is asked. It is a new object with the same content and is not in the answered set |
| ReferenceIdentity.UnseenBatchRefills | src/TriviaService/QuestionManager.cs:26-37 | a batch with no answered object refills the pool with the whole batch after one fetch |
| ReferenceIdentity.UnansweredByContent | src/TriviaService/TriviaQuestion.cs:32-35 | keeps a question exactly when its (text, correct answer) key was not answered |
| ReferenceIdentity.ContentFilterNeverReoffers | src/TriviaService/QuestionManager.cs:32 | nothing the content filter keeps shares text and correct answer with an answered question |
| ReferenceIdentity.KeptByContentKeptByReference | src/TriviaService/QuestionManager.cs:32 | every question the content filter keeps is kept by the reference filter too |
| ReferenceIdentity.ContentFilterIsStricter | src/TriviaService/QuestionManager.cs:32 | the content filter keeps no more questions than the reference filter |

## Left out

- The HTTP GET and the JSON text parser (`HttpClient`, `GetFromJsonAsync`) are the parameter `get`. It returns a transport exception, a JSON null (`None`) or a parsed document.
- System.Text.Json exceptions are modelled by kind, not by message. A wrong value kind is `InvalidOperation(required, actual)` and a missing property is `KeyNotFound(name)`.
- `ArgumentOutOfRangeException(nameof(jsonValue))` carries the framework's default message. The model does not reproduce that text and puts `""` in its place.
- Text.IntToDecimal: C# formats the interpolated `Amount` with the current culture's `NegativeSign`. The model always writes `-`.
- The `results is null` branch (`OpenTriviaDatabase.cs:45-48`) is not modelled: `ToList()` never returns null, so the branch and its `response_code` message cannot happen.
- Enum values outside the declared members, and the `ArgumentOutOfRangeException` that `ToQueryValue(QuestionType)` throws for them, are not modelled: the Dafny enums have only the declared members.
- `ToLower()` is culture-sensitive in .NET. The model lower-cases ASCII letters only, which is all the difficulty names hold.
- `LastQuestionTimestamp` and `TimeSinceLastQuestionAnswered` read the wall clock, and the timestamp is never assigned.
- `HashCode.Combine` is seeded randomly per process, so the combiner is a parameter.
- The event's subscribers: the ghost log records every raise, whether or not a handler is attached.
- QuestionManagement.QuestionManager.AnswerQuestion: the handlers run inline, after `Add` (`QuestionManager.cs:44-46, 52`). An exception a handler throws escapes `AnswerQuestion` with the question already in the set. The model runs no handler code, so it does not capture either effect.
- The background service, toast notifications, hosting, logging and the tests are not part of this model. `TriviaBackgroundService.cs` calls manager members that `QuestionManager.cs` does not define.
- QuestionManagement.QuestionManager.GetNextQuestion: the fetches are a given finite list of batch results. When they run out with the pool still empty, the outcome is `StillFetching`, where the source would go on fetching without bound. `GetNextQuestionAsync` calls `GetQuestionsAsync()` with no query, which `OpenTriviaDatabase.cs` does not declare, so each batch stands for any fetch result rather than for a particular query.
- The `async` scheduling is not modelled. Each call runs to completion, so nothing interleaves with it.

## Findings

| source | as written | input that shows it | evidently intended | confidence | as-written member | corrected member |
|---|---|---|---|---|---|---|
| src/TriviaService/QuestionManager.cs:32 | `AnsweredQuestions.Contains` uses the default `Equals` of `TriviaQuestion` (reference identity), because `TriviaQuestion.cs:32-35` overrides only `GetHashCode`. Every fetch parses new objects, so no fetched question is ever found in the answered set | the provider answers two fetches with the same single question. The manager asks it, it is answered, the pool empties, and the refill enqueues and asks the same question again | skip a fetched question whose text and correct answer match an answered one, which is the key the hash code is computed from | medium; not executed | ReferenceIdentity.AnsweredQuestionIsAskedAgain | ReferenceIdentity.UnansweredByContent |

`QuestionManagement` keeps the behaviour as written, because the answered set is a set of references in the source. `ReferenceIdentity.ContentFilterNeverReoffers` proves the intended property of the corrected filter: nothing it keeps matches an answered question's text and correct answer. `ReferenceIdentity.KeptByContentKeptByReference` proves that it drops at least what the reference filter drops, and `ReferenceIdentity.ContentFilterIsStricter` that it keeps no more questions.
