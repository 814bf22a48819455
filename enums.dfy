/** The three enumerations of the trivia domain (src/TriviaService/Enums.cs). */
module Enums {

  /** Topic of a question. The enum's integer values double as the
      provider's category codes. */
  datatype QuestionCategory =
    | GeneralKnowledge
    | Entertainment_Books
    | Entertainment_Film
    | Entertainment_Music
    | Entertainment_MusicalsAndTheatres
    | Entertainment_Television
    | Entertainment_VideoGames
    | Entertainment_BoardGames
    | ScienceAndNature
    | Science_Computers
    | Science_Mathematics
    | Mythology
    | Sports
    | Geography
    | History
    | Politics
    | Art
    | Celebrities
    | Animals
    | Vehicles
    | Entertainment_Comics
    | Science_Gadgets
    | Entertainment_JapaneseAnimeAndManga
    | Entertainment_CartoonAndAnimations

  /** The categories in the order the enum declares them. */
  const Categories: seq<QuestionCategory> := [
    GeneralKnowledge,
    Entertainment_Books,
    Entertainment_Film,
    Entertainment_Music,
    Entertainment_MusicalsAndTheatres,
    Entertainment_Television,
    Entertainment_VideoGames,
    Entertainment_BoardGames,
    ScienceAndNature,
    Science_Computers,
    Science_Mathematics,
    Mythology,
    Sports,
    Geography,
    History,
    Politics,
    Art,
    Celebrities,
    Animals,
    Vehicles,
    Entertainment_Comics,
    Science_Gadgets,
    Entertainment_JapaneseAnimeAndManga,
    Entertainment_CartoonAndAnimations
  ]

  /** The integer value of a category, `(int)value` in C#: the first member is
      pinned to 9 and every later member takes the next integer. */
  function Code(c: QuestionCategory): (n: int)
    ensures 9 <= n <= 32
  {
    match c
    case GeneralKnowledge => 9
    case Entertainment_Books => 10
    case Entertainment_Film => 11
    case Entertainment_Music => 12
    case Entertainment_MusicalsAndTheatres => 13
    case Entertainment_Television => 14
    case Entertainment_VideoGames => 15
    case Entertainment_BoardGames => 16
    case ScienceAndNature => 17
    case Science_Computers => 18
    case Science_Mathematics => 19
    case Mythology => 20
    case Sports => 21
    case Geography => 22
    case History => 23
    case Politics => 24
    case Art => 25
    case Celebrities => 26
    case Animals => 27
    case Vehicles => 28
    case Entertainment_Comics => 29
    case Science_Gadgets => 30
    case Entertainment_JapaneseAnimeAndManga => 31
    case Entertainment_CartoonAndAnimations => 32
  }

  /** C# enum numbering: GeneralKnowledge is 9 and each later member is one
      more than the one declared before it, so the last one is 32. */
  lemma CodesFollowDeclarationOrder()
    ensures |Categories| == 24
    ensures Code(Categories[0]) == 9
    ensures forall i :: 0 < i < |Categories| ==> Code(Categories[i]) == Code(Categories[i - 1]) + 1
    ensures Code(Entertainment_CartoonAndAnimations) == 32
  {
  }

  /** Every category is declared exactly at position `Code(c) - 9`. */
  lemma CodeIndexesDeclaration(c: QuestionCategory)
    ensures 0 <= Code(c) - 9 < |Categories| && Categories[Code(c) - 9] == c
  {
    assert c in Categories;
    var i :| 0 <= i < |Categories| && Categories[i] == c;
    CodeAtPosition(i);
  }

  /** The category declared at position j has code 9 + j. */
  lemma {:induction false} CodeAtPosition(j: nat)
    requires j < |Categories|
    ensures Code(Categories[j]) == 9 + j
  {
    CodesFollowDeclarationOrder();
    if j > 0 {
      CodeAtPosition(j - 1);
    }
  }

  /** Category codes are pairwise distinct. */
  lemma CodeInjective(a: QuestionCategory, b: QuestionCategory)
    requires Code(a) == Code(b)
    ensures a == b
  {
    CodeIndexesDeclaration(a);
    CodeIndexesDeclaration(b);
  }

  datatype QuestionDifficulty = Easy | Medium | Hard

  /** `value.ToString()`: the member's declared name. */
  function DifficultyName(d: QuestionDifficulty): string {
    match d
    case Easy => "Easy"
    case Medium => "Medium"
    case Hard => "Hard"
  }

  datatype QuestionType = MultipleChoice | TrueFalse
}
