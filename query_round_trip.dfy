/** A reader for the request URIs the client builds. It exists to state what
    the encoding preserves: reading a built URI back gives the query it was
    built from, so each filter appears exactly when it is set, with its own
    value, and the amount is always there. */
module QueryRoundTrip {
  import opened Wrappers
  import opened Enums
  import opened Text
  import opened OpenTriviaDatabase

  /** The category whose integer code is n, if any. */
  function CategoryOfCode(n: int): (r: Option<QuestionCategory>)
    ensures r.Some? ==> Code(r.value) == n
    ensures r.None? <==> n < 9 || 32 < n
  {
    if 9 <= n <= 32 then
      CodesFollowDeclarationOrder();
      CodeAtPosition(n - 9);
      Some(Categories[n - 9])
    else
      None
  }

  /** Every category is read back from its code. */
  lemma CategoryCodeRoundTrip(c: QuestionCategory)
    ensures CategoryOfCode(Code(c)) == Some(c)
  {
    CodeIndexesDeclaration(c);
  }

  function ParseCategory(s: string): Option<QuestionCategory> {
    match ParseInt(s)
    case None => None
    case Some(n) => CategoryOfCode(n)
  }

  function ParseDifficulty(s: string): Option<QuestionDifficulty> {
    match GetDifficulty(Some(s))
    case Success(d) => Some(d)
    case Failure(_) => None
  }

  function ParseType(s: string): Option<QuestionType> {
    match GetType(Some(s))
    case Success(t) => Some(t)
    case Failure(_) => None
  }

  /** `name=value` split at its first `=`. */
  function SplitPair(s: string): (string, string) {
    if '=' in s then
      var i := IndexOf(s, '=');
      (s[..i], s[i + 1..])
    else
      (s, "")
  }

  function SplitPairs(parts: seq<string>): seq<(string, string)> {
    seq(|parts|, i requires 0 <= i < |parts| => SplitPair(parts[i]))
  }

  /** Reads the optional parameter `name` if it comes first. A parameter with
      that name whose value does not decode makes the whole URI unreadable. */
  function TakeOptional<T>(ps: seq<(string, string)>, name: string, decode: string -> Option<T>)
    : Option<(Option<T>, seq<(string, string)>)>
  {
    if |ps| > 0 && ps[0].0 == name then
      match decode(ps[0].1)
      case None => None
      case Some(v) => Some((Some(v), ps[1..]))
    else
      Some((None, ps))
  }

  /** The parameters in the builder's order: amount, then category,
      difficulty and type each when present, and nothing else. */
  function ParseParameters(ps: seq<(string, string)>): Option<OpenTriviaDataBaseQuery> {
    if |ps| == 0 || ps[0].0 != "amount" then None
    else
      match ParseInt(ps[0].1)
      case None => None
      case Some(amount) =>
        match TakeOptional(ps[1..], "category", ParseCategory)
        case None => None
        case Some((category, afterCategory)) =>
          match TakeOptional(afterCategory, "difficulty", ParseDifficulty)
          case None => None
          case Some((difficulty, afterDifficulty)) =>
            match TakeOptional(afterDifficulty, "type", ParseType)
            case None => None
            case Some((questionType, rest)) =>
              if rest == [] then Some(OpenTriviaDataBaseQuery(amount, category, difficulty, questionType))
              else None
  }

  const UriHead: string := BaseUri + "?"

  /** The query a request URI encodes, or None if it is not one the builder
      can produce. */
  function ParseQueryUri(uri: string): Option<OpenTriviaDataBaseQuery> {
    if |uri| >= |UriHead| && uri[..|UriHead|] == UriHead then
      ParseParameters(SplitPairs(Split(uri[|UriHead|..], '&')))
    else
      None
  }

  /** A parameter the builder emits: its name holds neither separator and its
      value holds no `&`. */
  predicate IsCleanParameter(p: (string, string)) {
    '&' !in p.0 && '=' !in p.0 && '&' !in p.1
  }

  lemma QueryParametersAreClean(query: OpenTriviaDataBaseQuery)
    ensures forall k :: 0 <= k < |QueryParameters(query)| ==> IsCleanParameter(QueryParameters(query)[k])
  {
    var amount := IntToDecimal(query.Amount);
    var category, difficulty, qtype := CategoryText(query), DifficultyText(query), TypeText(query);
    AmountIsClean(query.Amount);
    if query.Category.Some? {
      CategoryValueIsClean(query.Category.value);
    }
    if query.Difficulty.Some? {
      DifficultyValueIsClean(query.Difficulty.value);
    }
    if query.Type.Some? {
      TypeValueIsClean(query.Type.value);
    }
    CleanList(amount, category, difficulty, qtype);
  }

  /** The builder's parameter list is clean whenever its values are. */
  lemma CleanList(amount: string, category: Option<string>, difficulty: Option<string>, qtype: Option<string>)
    requires '&' !in amount
    requires category.Some? ==> '&' !in category.value
    requires difficulty.Some? ==> '&' !in difficulty.value
    requires qtype.Some? ==> '&' !in qtype.value
    ensures var ps := [("amount", amount)] + Optional("category", category)
                      + Optional("difficulty", difficulty) + Optional("type", qtype);
      forall k :: 0 <= k < |ps| ==> IsCleanParameter(ps[k])
  {
    assert '&' !in "amount" && '=' !in "amount";
    assert '&' !in "category" && '=' !in "category";
    assert '&' !in "difficulty" && '=' !in "difficulty";
    assert '&' !in "type" && '=' !in "type";
  }

  lemma AmountIsClean(amount: int)
    ensures '&' !in IntToDecimal(amount)
  {
    var v := IntToDecimal(amount);
    forall i | 0 <= i < |v| ensures v[i] != '&' {
    }
  }

  lemma CategoryValueIsClean(c: QuestionCategory)
    ensures '&' !in CategoryQueryValue(c)
  {
    var v := CategoryQueryValue(c);
    forall i | 0 <= i < |v| ensures v[i] != '&' {
      assert IsDigit(v[i]);
    }
  }

  lemma DifficultyValueIsClean(d: QuestionDifficulty)
    ensures '&' !in DifficultyQueryValue(d)
  {
    var v := DifficultyQueryValue(d);
    forall i | 0 <= i < |v| ensures v[i] != '&' {
      assert v[i] == LowerChar(DifficultyName(d)[i]);
    }
  }

  lemma TypeValueIsClean(t: QuestionType)
    ensures '&' !in TypeQueryValue(t)
  {
  }

  /** Rendering clean parameters and splitting at the separators gives them back. */
  lemma SplitRenderedParameters(ps: seq<(string, string)>)
    requires |ps| >= 1
    requires forall k :: 0 <= k < |ps| ==> IsCleanParameter(ps[k])
    ensures SplitPairs(Split(Join(RenderParameters(ps), '&'), '&')) == ps
  {
    var rendered := RenderParameters(ps);
    forall k | 0 <= k < |rendered| ensures '&' !in rendered[k] {
      assert rendered[k] == ps[k].0 + ("=" + ps[k].1);
    }
    SplitJoin(rendered, '&');
    forall k | 0 <= k < |ps| ensures SplitPair(rendered[k]) == ps[k] {
      var name, value := ps[k].0, ps[k].1;
      assert rendered[k] == name + ['='] + value;
      IndexAfterPrefix(name, '=', value);
      var s := name + ['='] + value;
      assert s[..|name|] == name;
      assert s[|name| + 1..] == value;
    }
  }

  /** The parameter list of a query reads back as that query. */
  lemma ParametersRoundTrip(query: OpenTriviaDataBaseQuery)
    ensures ParseParameters(QueryParameters(query)) == Some(query)
  {
    if query.Category.Some? {
      CategoryCodeRoundTrip(query.Category.value);
    }
    if query.Difficulty.Some? {
      DifficultyCodecBijective(query.Difficulty.value, "");
    }
    ReadBackParameters(query.Amount, IntToDecimal(query.Amount), query.Category, CategoryText(query),
                       query.Difficulty, DifficultyText(query), query.Type, TypeText(query));
  }

  /** ParseParameters on a list shaped like the builder's, whatever the
      encoded values are, provided each value decodes to its field. */
  lemma ReadBackParameters(amount: int, a: string,
                           category: Option<QuestionCategory>, c: Option<string>,
                           difficulty: Option<QuestionDifficulty>, d: Option<string>,
                           questionType: Option<QuestionType>, t: Option<string>)
    requires ParseInt(a) == Some(amount)
    requires (c.Some? <==> category.Some?) && (c.Some? ==> ParseCategory(c.value) == category)
    requires (d.Some? <==> difficulty.Some?) && (d.Some? ==> ParseDifficulty(d.value) == difficulty)
    requires (t.Some? <==> questionType.Some?) && (t.Some? ==> ParseType(t.value) == questionType)
    ensures ParseParameters([("amount", a)] + Optional("category", c) + Optional("difficulty", d) + Optional("type", t))
      == Some(OpenTriviaDataBaseQuery(amount, category, difficulty, questionType))
  {
    var afterType: seq<(string, string)> := [];
    var afterDifficulty := Optional("type", t);
    var afterCategory := Optional("difficulty", d) + afterDifficulty;
    var afterAmount := Optional("category", c) + afterCategory;
    var ps := [("amount", a)] + afterAmount;
    assert [("amount", a)] + Optional("category", c) + Optional("difficulty", d) + Optional("type", t) == ps;
    assert ps[1..] == afterAmount;
    if c.Some? {
      TakePresent("category", c.value, afterCategory, ParseCategory, category.value);
    } else {
      TakeAbsent(afterAmount, "category", ParseCategory);
    }
    if d.Some? {
      TakePresent("difficulty", d.value, afterDifficulty, ParseDifficulty, difficulty.value);
    } else {
      TakeAbsent(afterCategory, "difficulty", ParseDifficulty);
    }
    if t.Some? {
      TakePresent("type", t.value, afterType, ParseType, questionType.value);
    } else {
      TakeAbsent(afterDifficulty, "type", ParseType);
    }
  }

  lemma TakePresent<T>(name: string, value: string, rest: seq<(string, string)>, decode: string -> Option<T>, v: T)
    requires decode(value) == Some(v)
    ensures TakeOptional([(name, value)] + rest, name, decode) == Some((Some(v), rest))
  {
    assert ([(name, value)] + rest)[1..] == rest;
  }

  lemma TakeAbsent<T>(ps: seq<(string, string)>, name: string, decode: string -> Option<T>)
    requires |ps| == 0 || ps[0].0 != name
    ensures TakeOptional(ps, name, decode) == Some((None, ps))
  {
  }

  /** Reading a built URI gives back the query it was built from. */
  lemma QueryUriRoundTrip(query: OpenTriviaDataBaseQuery)
    ensures ParseQueryUri(QueryUri(query)) == Some(query)
  {
    var ps := QueryParameters(query);
    var joined := Join(RenderParameters(ps), '&');
    var uri := QueryUri(query);
    assert uri == UriHead + joined;
    assert uri[..|UriHead|] == UriHead;
    assert uri[|UriHead|..] == joined;
    QueryParametersAreClean(query);
    SplitRenderedParameters(ps);
    ParametersRoundTrip(query);
  }

  /** Distinct queries are sent to distinct URIs. */
  lemma QueryUriInjective(a: OpenTriviaDataBaseQuery, b: OpenTriviaDataBaseQuery)
    requires QueryUri(a) == QueryUri(b)
    ensures a == b
  {
    QueryUriRoundTrip(a);
    QueryUriRoundTrip(b);
  }
}
