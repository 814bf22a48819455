/** The Open Trivia DB client (src/TriviaService/OpenTriviaDatabase.cs) with
    the HTTP GET turned into a parameter: the request URI built from a query,
    the enum encoders and decoders, and the decoding of result entries into
    questions. */
module OpenTriviaDatabase {
  import opened Wrappers
  import opened Exceptions
  import opened Enums
  import opened Text
  import opened Json
  import opened Traversal
  import opened Questions

  const BaseUri: string := "https://opentdb.com/api.php"

  /** The request options; absent filters are left out of the URI. */
  datatype OpenTriviaDataBaseQuery = OpenTriviaDataBaseQuery(
    Amount: int,
    Category: Option<QuestionCategory>,
    Difficulty: Option<QuestionDifficulty>,
    Type: Option<QuestionType>)

  /** `new OpenTriviaDataBaseQuery()`: ten questions and no filter. */
  const DefaultQuery: OpenTriviaDataBaseQuery := OpenTriviaDataBaseQuery(10, None, None, None)

  // ---------------------------------------------------------------------
  // Enum decoders: exact-match tables from the provider's strings.

  function GetCategory(jsonValue: Option<string>): (r: Result<QuestionCategory, Exception>)
    ensures r.Success? <==> jsonValue == Some("General Knowledge")
    ensures r.Success? ==> r.value == GeneralKnowledge
    ensures jsonValue.None? ==> r == Failure(ArgumentNull("jsonValue"))
  {
    match jsonValue
    case None => Failure(ArgumentNull("jsonValue"))
    case Some(v) =>
      if v == "General Knowledge" then Success(GeneralKnowledge)
      else Failure(ArgumentOutOfRange("jsonValue", ""))
  }

  function GetDifficulty(jsonValue: Option<string>): (r: Result<QuestionDifficulty, Exception>)
    ensures r.Success? <==> jsonValue.Some? && jsonValue.value in {"easy", "medium", "hard"}
    ensures jsonValue.None? ==> r == Failure(ArgumentNull("jsonValue"))
  {
    match jsonValue
    case None => Failure(ArgumentNull("jsonValue"))
    case Some(v) =>
      if v == "easy" then Success(Easy)
      else if v == "medium" then Success(Medium)
      else if v == "hard" then Success(Hard)
      else Failure(ArgumentOutOfRange("jsonValue", ""))
  }

  function GetType(jsonValue: Option<string>): (r: Result<QuestionType, Exception>)
    ensures r.Success? <==> jsonValue.Some? && jsonValue.value in {"multiple", "boolean"}
    ensures jsonValue.None? ==> r == Failure(ArgumentNull("jsonValue"))
  {
    match jsonValue
    case None => Failure(ArgumentNull("jsonValue"))
    case Some(v) =>
      if v == "multiple" then Success(MultipleChoice)
      else if v == "boolean" then Success(TrueFalse)
      else Failure(ArgumentOutOfRange("jsonValue", ""))
  }

  // ---------------------------------------------------------------------
  // Enum encoders: the three ToQueryValue overloads.

  /** `((int)value).ToString()`: the category's integer code in decimal. */
  function CategoryQueryValue(c: QuestionCategory): (s: string)
    ensures ParseInt(s) == Some(Code(c))
    ensures AllDigits(s) && s[0] != '0'
  {
    IntToDecimal(Code(c))
  }

  /** `value.ToString().ToLower()`: the member's name in lower case. */
  function DifficultyQueryValue(d: QuestionDifficulty): (s: string)
    ensures GetDifficulty(Some(s)) == Success(d)
  {
    var s := ToLowerAscii(DifficultyName(d));
    assert s == match d case Easy => "easy" case Medium => "medium" case Hard => "hard";
    s
  }

  /** The type's token; decoding it gives t back. */
  function TypeQueryValue(t: QuestionType): (s: string)
    ensures GetType(Some(s)) == Success(t)
  {
    match t
    case MultipleChoice => "multiple"
    case TrueFalse => "boolean"
  }

  /** The difficulty tokens and the difficulties correspond one to one:
      decoding a token gives back the difficulty it encodes, and a string
      decodes to d only if it is d's token. */
  lemma DifficultyCodecBijective(d: QuestionDifficulty, s: string)
    ensures GetDifficulty(Some(DifficultyQueryValue(d))) == Success(d)
    ensures GetDifficulty(Some(s)) == Success(d) <==> DifficultyQueryValue(d) == s
  {
    var t := DifficultyQueryValue(d);
    assert t == match d case Easy => "easy" case Medium => "medium" case Hard => "hard";
  }

  /** The type tokens and the types correspond one to one. */
  lemma TypeCodecBijective(t: QuestionType, s: string)
    ensures GetType(Some(s)) == Success(t) <==> TypeQueryValue(t) == s
  {
  }

  // ---------------------------------------------------------------------
  // The request URI.

  /** The query's parameters as (name, value) pairs, in the order the URI
      carries them: amount, then category, difficulty and type when present. */
  function QueryParameters(query: OpenTriviaDataBaseQuery): seq<(string, string)> {
    [("amount", IntToDecimal(query.Amount))]
    + Optional("category", CategoryText(query))
    + Optional("difficulty", DifficultyText(query))
    + Optional("type", TypeText(query))
  }

  function CategoryText(query: OpenTriviaDataBaseQuery): Option<string> {
    if query.Category.Some? then Some(CategoryQueryValue(query.Category.value)) else None
  }

  function DifficultyText(query: OpenTriviaDataBaseQuery): Option<string> {
    if query.Difficulty.Some? then Some(DifficultyQueryValue(query.Difficulty.value)) else None
  }

  function TypeText(query: OpenTriviaDataBaseQuery): Option<string> {
    if query.Type.Some? then Some(TypeQueryValue(query.Type.value)) else None
  }

  /** A parameter that is present, or nothing. */
  function Optional(name: string, value: Option<string>): seq<(string, string)> {
    if value.Some? then [(name, value.value)] else []
  }

  /** What the builder appends for an optional parameter. */
  function OptionalText(name: string, value: Option<string>): string {
    if value.Some? then "&" + name + "=" + value.value else ""
  }

  function RenderParameter(p: (string, string)): string {
    p.0 + "=" + p.1
  }

  function RenderParameters(ps: seq<(string, string)>): seq<string> {
    seq(|ps|, i requires 0 <= i < |ps| => RenderParameter(ps[i]))
  }

  /** The request URI: the base, `?`, and the rendered parameters joined by `&`. */
  function QueryUri(query: OpenTriviaDataBaseQuery): string {
    BaseUri + "?" + Join(RenderParameters(QueryParameters(query)), '&')
  }

  /** The URI spelled out: `?amount=` and the amount, followed by each present
      filter as `&name=value`. */
  lemma QueryUriShape(query: OpenTriviaDataBaseQuery)
    ensures QueryUri(query) ==
      BaseUri + "?amount=" + IntToDecimal(query.Amount)
      + OptionalText("category", CategoryText(query))
      + OptionalText("difficulty", DifficultyText(query))
      + OptionalText("type", TypeText(query))
  {
    var amount := IntToDecimal(query.Amount);
    var category, difficulty, qtype := CategoryText(query), DifficultyText(query), TypeText(query);
    JoinedParameters(amount, category, difficulty, qtype);
    Reassociate(BaseUri, amount, OptionalText("category", category),
                OptionalText("difficulty", difficulty), OptionalText("type", qtype));
  }

  lemma Reassociate(base: string, amount: string, a: string, b: string, c: string)
    ensures base + "?" + ("amount=" + amount + a + b + c) == base + "?amount=" + amount + a + b + c
  {
    assert "?" + "amount=" == "?amount=";
  }

  lemma JoinedParameters(amount: string, category: Option<string>, difficulty: Option<string>, qtype: Option<string>)
    ensures Join(RenderParameters([("amount", amount)] + Optional("category", category)
                   + Optional("difficulty", difficulty) + Optional("type", qtype)), '&')
      == "amount=" + amount + OptionalText("category", category)
         + OptionalText("difficulty", difficulty) + OptionalText("type", qtype)
  {
    var ps := [("amount", amount)];
    assert Join(RenderParameters(ps), '&') == "amount=" + amount;
    JoinAppend(ps, "category", category);
    JoinAppend(ps + Optional("category", category), "difficulty", difficulty);
    JoinAppend(ps + Optional("category", category) + Optional("difficulty", difficulty), "type", qtype);
  }

  /** Appending an optional parameter adds what the builder appends. */
  lemma JoinAppend(ps: seq<(string, string)>, name: string, value: Option<string>)
    requires |ps| >= 1
    ensures Join(RenderParameters(ps + Optional(name, value)), '&') ==
      Join(RenderParameters(ps), '&') + OptionalText(name, value)
  {
    if value.None? {
      assert ps + Optional(name, value) == ps;
    } else {
      var p := (name, value.value);
      assert RenderParameters(ps + [p]) == RenderParameters(ps) + [RenderParameter(p)];
      JoinSnoc(RenderParameters(ps), RenderParameter(p), '&');
    }
  }

  /** The default query asks for exactly `https://opentdb.com/api.php?amount=10`. */
  lemma DefaultQueryUri()
    ensures QueryUri(DefaultQuery) == "https://opentdb.com/api.php?amount=10"
  {
    QueryUriShape(DefaultQuery);
    assert NatToDecimal(1) == "1";
    assert IntToDecimal(10) == NatToDecimal(1) + [DigitChar(0)];
  }

  /** The URI building of GetQuestionsAsync: the builder starts with the base
      address and `?amount=`, and each filter that has a value is appended in
      turn. */
  method BuildQueryUri(query: OpenTriviaDataBaseQuery) returns (uri: string)
    ensures uri == QueryUri(query)
  {
    uri := BaseUri;
    uri := uri + "?amount=" + IntToDecimal(query.Amount);
    uri := AppendParameter(uri, "category", CategoryText(query));
    uri := AppendParameter(uri, "difficulty", DifficultyText(query));
    uri := AppendParameter(uri, "type", TypeText(query));
    QueryUriShape(query);
  }

  /** `if (value.HasValue) uriSB.Append($"&{name}={value}")`. */
  method AppendParameter(uri: string, name: string, value: Option<string>) returns (r: string)
    ensures r == uri + OptionalText(name, value)
  {
    r := uri;
    if value.Some? {
      r := r + "&" + name + "=" + value.value;
    }
  }

  // ---------------------------------------------------------------------
  // Decoding result entries.

  /** `element.GetProperty(name).GetString()`. */
  function ReadString(element: Json, name: string): Result<Option<string>, Exception> {
    var property :- GetProperty(element, name);
    GetString(property)
  }

  /** `value ?? throw new ArgumentOutOfRangeException(nameof(element), message)`. */
  function Required(value: Option<string>, message: string): Result<string, Exception> {
    match value
    case Some(s) => Success(s)
    case None => Failure(ArgumentOutOfRange("element", message))
  }

  /** The incorrect answers: each item's string, in array order. The first
      item that is null or not a string fails the whole list. */
  function ReadAnswers(items: seq<Json>): (r: Result<seq<string>, Exception>)
    ensures r.Success? <==> forall i :: 0 <= i < |items| ==> items[i].JString?
    ensures r.Success? ==> |r.value| == |items| && forall i :: 0 <= i < |items| ==> r.value[i] == items[i].str
  {
    if items == [] then
      Success([])
    else
      var first :- GetString(items[0]);
      var answer :- Required(first, ".incorrect_answers[i] is null or undefined");
      var rest :- ReadAnswers(items[1..]);
      assert forall i :: 1 <= i < |items| ==> items[i] == items[1..][i - 1];
      Success([answer] + rest)
  }

  /** What a result entry must look like to decode: an object whose category,
      difficulty, type, question and correct_answer are strings, the first
      three from the accepted tables, and whose incorrect_answers is an array
      of strings. */
  predicate IsWellFormedEntry(element: Json) {
    && HasString(element, "category")
    && element.properties["category"].str == "General Knowledge"
    && HasString(element, "difficulty")
    && element.properties["difficulty"].str in {"easy", "medium", "hard"}
    && HasString(element, "type")
    && element.properties["type"].str in {"multiple", "boolean"}
    && HasString(element, "question")
    && HasString(element, "correct_answer")
    && "incorrect_answers" in element.properties
    && element.properties["incorrect_answers"].JArray?
    && AllStrings(element.properties["incorrect_answers"].items)
  }

  predicate AllStrings(items: seq<Json>) {
    forall i :: 0 <= i < |items| ==> items[i].JString?
  }

  /** Line by line, the six lookups of ParseJson in source order; the first
      that throws decides the error. */
  function DecodeEntry(element: Json): Result<QuestionArgs, Exception> {
    var category :- ReadCategory(element);
    var difficulty :- ReadDifficulty(element);
    var questionType :- ReadType(element);
    var question :- ReadText(element, "question", ".question is null or undefined");
    var correctAnswer :- ReadText(element, "correct_answer", ".correct_answer is null or undefined");
    var incorrectAnswers :- ReadIncorrectAnswers(element);
    Success(QuestionArgs(category, difficulty, questionType, question, correctAnswer, incorrectAnswers))
  }

  /** An entry decodes exactly when it is well formed, and then the question
      carries the entry's strings unchanged, the decoded enums whose tokens
      are the entry's strings, and the incorrect answers in array order. */
  lemma DecodeEntryMeaning(element: Json)
    ensures DecodeEntry(element).Success? <==> IsWellFormedEntry(element)
    ensures DecodeEntry(element).Success? ==>
      var args := DecodeEntry(element).value;
      && element.JObject?
      && args.category == GeneralKnowledge
      && DifficultyQueryValue(args.difficulty) == element.properties["difficulty"].str
      && TypeQueryValue(args.questionType) == element.properties["type"].str
      && args.question == element.properties["question"].str
      && args.correctAnswer == element.properties["correct_answer"].str
      && |args.incorrectAnswers| == |element.properties["incorrect_answers"].items|
      && forall i :: 0 <= i < |args.incorrectAnswers| ==>
           args.incorrectAnswers[i] == element.properties["incorrect_answers"].items[i].str
  {
    var r := DecodeEntry(element);
    if r.Success? {
      DifficultyCodecBijective(r.value.difficulty, element.properties["difficulty"].str);
      TypeCodecBijective(r.value.questionType, element.properties["type"].str);
    }
  }

  /** `GetCategory(element.GetProperty("category").GetString())`. */
  function ReadCategory(element: Json): (r: Result<QuestionCategory, Exception>)
    ensures r.Success? <==> HasString(element, "category") && element.properties["category"].str == "General Knowledge"
    ensures r.Success? ==> r.value == GeneralKnowledge
  {
    var value :- ReadString(element, "category");
    GetCategory(value)
  }

  /** `GetDifficulty(element.GetProperty("difficulty").GetString())`. */
  function ReadDifficulty(element: Json): (r: Result<QuestionDifficulty, Exception>)
    ensures r.Success? <==> HasString(element, "difficulty") && element.properties["difficulty"].str in {"easy", "medium", "hard"}
    ensures r.Success? ==> GetDifficulty(Some(element.properties["difficulty"].str)) == r
  {
    var value :- ReadString(element, "difficulty");
    GetDifficulty(value)
  }

  /** `GetType(element.GetProperty("type").GetString())`. */
  function ReadType(element: Json): (r: Result<QuestionType, Exception>)
    ensures r.Success? <==> HasString(element, "type") && element.properties["type"].str in {"multiple", "boolean"}
    ensures r.Success? ==> GetType(Some(element.properties["type"].str)) == r
  {
    var value :- ReadString(element, "type");
    GetType(value)
  }

  /** `element.GetProperty(name).GetString() ?? throw ...`. */
  function ReadText(element: Json, name: string, message: string): (r: Result<string, Exception>)
    ensures r.Success? <==> HasString(element, name)
    ensures r.Success? ==> r.value == element.properties[name].str
  {
    var value :- ReadString(element, name);
    Required(value, message)
  }

  /** The `incorrect_answers` array, each item's string in array order. */
  function ReadIncorrectAnswers(element: Json): (r: Result<seq<string>, Exception>)
    ensures r.Success? <==>
      && element.JObject? && "incorrect_answers" in element.properties
      && element.properties["incorrect_answers"].JArray?
      && AllStrings(element.properties["incorrect_answers"].items)
    ensures r.Success? ==>
      && |r.value| == |element.properties["incorrect_answers"].items|
      && forall i :: 0 <= i < |r.value| ==> r.value[i] == element.properties["incorrect_answers"].items[i].str
  {
    var answers :- GetProperty(element, "incorrect_answers");
    var items :- EnumerateArray(answers);
    ReadAnswers(items)
  }

  /** `ParseJson`: decode one entry into a new question object. */
  method ParseJson(element: Json) returns (r: Result<TriviaQuestion, Exception>)
    ensures r.Success? <==> DecodeEntry(element).Success?
    ensures r.Success? ==> fresh(r.value) && r.value.Content() == DecodeEntry(element).value
    ensures r.Failure? ==> r.error == DecodeEntry(element).error
  {
    match DecodeEntry(element)
    case Failure(e) =>
      r := Failure(e);
    case Success(args) =>
      var question := new TriviaQuestion(args.category, args.difficulty, args.questionType,
                                         args.question, args.correctAnswer, args.incorrectAnswers);
      r := Success(question);
  }

  /** `TryParseJson`: true and the decoded question exactly when ParseJson
      succeeds, otherwise false and null. */
  method TryParseJson(element: Json) returns (ok: bool, result: TriviaQuestion?)
    ensures ok <==> DecodeEntry(element).Success?
    ensures ok ==> result != null && fresh(result) && result.Content() == DecodeEntry(element).value
    ensures !ok ==> result == null
  {
    var parsed := ParseJson(element);
    match parsed
    case Success(question) =>
      ok, result := true, question;
    case Failure(_) =>
      ok, result := false, null;
  }

  // ---------------------------------------------------------------------
  // Decoding a whole response.

  /** `entries.Select(ParseJson).ToList()`, on values: the batch decodes
      exactly when each entry does, and then holds the entries' questions in
      order; otherwise the first failing entry's error fails it. */
  function DecodeEntries(entries: seq<Json>): (r: Result<seq<QuestionArgs>, Exception>)
    ensures r.Success? <==> forall i :: 0 <= i < |entries| ==> DecodeEntry(entries[i]).Success?
    ensures r.Success? ==>
      && |r.value| == |entries|
      && forall i :: 0 <= i < |entries| ==> r.value[i] == DecodeEntry(entries[i]).value
  {
    MapResultsMeaning(DecodeEntry, entries);
    MapResults(DecodeEntry, entries)
  }

  /** `jsonDoc.RootElement.GetProperty("results").EnumerateArray()`. */
  function ResultEntries(document: Json): (r: Result<seq<Json>, Exception>)
    ensures r.Success? <==>
      document.JObject? && "results" in document.properties && document.properties["results"].JArray?
    ensures r.Success? ==> r.value == document.properties["results"].items
  {
    var results :- GetProperty(document, "results");
    EnumerateArray(results)
  }

  /** `.Select(ParseJson).ToList()`: each entry becomes a new, distinct
      question object in order; the first entry that fails to decode fails the
      list with its error. */
  method ParseEntries(entries: seq<Json>) returns (r: Result<seq<TriviaQuestion>, Exception>)
    ensures r.Success? <==> DecodeEntries(entries).Success?
    ensures r.Failure? ==> r.error == DecodeEntries(entries).error
    ensures r.Success? ==>
      && |r.value| == |entries|
      && (forall i :: 0 <= i < |entries| ==> fresh(r.value[i]) && r.value[i].Content() == DecodeEntries(entries).value[i])
      && (forall i, j :: 0 <= i < j < |entries| ==> r.value[i] != r.value[j])
  {
    var questions: seq<TriviaQuestion> := [];
    ghost var decoded: seq<QuestionArgs> := [];
    var i := 0;
    while i < |entries|
      invariant 0 <= i <= |entries| && |questions| == |decoded| == i
      invariant MapResults(DecodeEntry, entries[..i]) == Success(decoded)
      invariant forall k :: 0 <= k < i ==> fresh(questions[k]) && questions[k].Content() == decoded[k]
      invariant forall k, l :: 0 <= k < l < i ==> questions[k] != questions[l]
    {
      var parsed := ParseJson(entries[i]);
      if parsed.Failure? {
        MapResultsStep(DecodeEntry, entries, i);
        r := Failure(parsed.error);
        return;
      }
      MapResultsStep(DecodeEntry, entries, i);
      questions := questions + [parsed.value];
      decoded := decoded + [parsed.value.Content()];
      i := i + 1;
    }
    assert entries[..i] == entries;
    r := Success(questions);
  }

  /** The questions, as field values, that GetQuestionsAsync yields when the
      HTTP GET of uri gives reply: a transport exception escapes; a JSON null
      is an error naming the URI; a document without a `results` array fails
      as GetProperty and EnumerateArray do; otherwise every entry is decoded
      in order, and the first entry that does not decode fails the batch. */
  function ReplyQuestions(uri: string, reply: Result<Option<Json>, Exception>): (r: Result<seq<QuestionArgs>, Exception>)
    ensures reply.Failure? ==> r == Failure(reply.error)
    ensures reply == Success(None) ==>
      r == Failure(GeneralException("Unable to parse JSON from response to \"" + uri + "\"."))
    ensures reply.Success? && reply.value.Some? ==>
      var entries := ResultEntries(reply.value.value);
      && (entries.Failure? ==> r == Failure(entries.error))
      && (entries.Success? ==>
            && (r.Success? <==> forall i :: 0 <= i < |entries.value| ==> DecodeEntry(entries.value[i]).Success?)
            && (r.Success? ==>
                  && |r.value| == |entries.value|
                  && forall i :: 0 <= i < |r.value| ==> r.value[i] == DecodeEntry(entries.value[i]).value))
  {
    match reply
    case Failure(e) => Failure(e)
    case Success(None) => Failure(GeneralException("Unable to parse JSON from response to \"" + uri + "\"."))
    case Success(Some(document)) =>
      var entries :- ResultEntries(document);
      DecodeEntries(entries)
  }

  /** GetQuestionsAsync with the HTTP GET as the parameter `get`: the request
      goes to the URI the query encodes, and the reply is turned into new,
      distinct question objects whose contents ReplyQuestions gives. */
  method GetQuestions(query: OpenTriviaDataBaseQuery, get: string -> Result<Option<Json>, Exception>)
    returns (uri: string, r: Result<seq<TriviaQuestion>, Exception>)
    ensures uri == QueryUri(query)
    ensures r.Success? <==> ReplyQuestions(uri, get(uri)).Success?
    ensures r.Failure? ==> r.error == ReplyQuestions(uri, get(uri)).error
    ensures r.Success? ==>
      && |r.value| == |ReplyQuestions(uri, get(uri)).value|
      && forall i :: 0 <= i < |r.value| ==>
           fresh(r.value[i]) && r.value[i].Content() == ReplyQuestions(uri, get(uri)).value[i]
    ensures r.Success? ==> forall i, j :: 0 <= i < j < |r.value| ==> r.value[i] != r.value[j]
  {
    uri := BuildQueryUri(query);
    var reply := get(uri);
    if reply.Failure? {
      r := Failure(reply.error);
      return;
    }
    if reply.value.None? {
      r := Failure(GeneralException("Unable to parse JSON from response to \"" + uri + "\"."));
      return;
    }
    var listed := ResultEntries(reply.value.value);
    if listed.Failure? {
      r := Failure(listed.error);
      return;
    }
    r := ParseEntries(listed.value);
  }
}
