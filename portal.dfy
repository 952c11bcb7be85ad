/**
  The portal's app list (App.tsx, `filteredApps`): the catalogue of apps,
  filtered by the selected category and by a case-insensitive search of the
  title and description in the current language.

  JavaScript's `toLowerCase` is a parameter `lower` of the filter, so that
  the properties hold for whatever case mapping the runtime applies.
 */
module Portal {
  import opened Text
  import opened SeqUtil

  /** The category tabs; `All` selects every app. */
  datatype AppCategory = All | Game | Tool | Utility | AI

  datatype Language = En | Ja

  datatype LocalizedText = LocalizedText(en: string, ja: string)
  {
    function In(language: Language): string
    {
      match language
      case En => en
      case Ja => ja
    }
  }

  datatype AppItem = AppItem(id: string, title: LocalizedText, description: LocalizedText, url: string, category: AppCategory)

  /** The catalogue the portal lists, in display order. */
  const MOCK_APPS: seq<AppItem> := [
    AppItem("1", LocalizedText("gemini-quiz-master", "ジェミニクイズマスター"),
      LocalizedText("quiz game.", "クイズゲーム。"),
      "https://mangazon.jp/gemini-quiz-master/", Game),
    AppItem("2", LocalizedText("JSON Formatter", "JSONフォーマッター"),
      LocalizedText("Beautify and validate JSON data instantly.", "JSONデータを瞬時に整形・検証する開発者向けツール。"),
      "#", Tool),
    AppItem("3", LocalizedText("Pixel Painter", "ピクセルペインター"),
      LocalizedText("Create pixel art directly in your browser.", "ブラウザで手軽にドット絵を作成できるお絵かきツール。"),
      "#", Tool),
    AppItem("4", LocalizedText("Space Invaders", "スペースインベーダー"),
      LocalizedText("Classic arcade action with modern physics.", "現代的な物理演算を取り入れたクラシックアーケードゲーム。"),
      "#", Game),
    AppItem("5", LocalizedText("Task Master", "タスクマスター"),
      LocalizedText("A simple, local-storage based Kanban board.", "ローカル保存に対応したシンプルで使いやすいカンバンボード。"),
      "#", Utility),
    AppItem("6", LocalizedText("AI Chat Client", "AIチャット"),
      LocalizedText("Interface for chatting with LLMs.", "最新の大規模言語モデルと対話できるチャットインターフェース。"),
      "#", AI),
    AppItem("7", LocalizedText("Color Palette Gen", "カラーパレット生成"),
      LocalizedText("Generate beautiful color schemes for your projects.", "プロジェクトに最適な美しい配色パターンを自動生成します。"),
      "#", Tool),
    AppItem("8", LocalizedText("Sudoku Solver", "数独ソルバー"),
      LocalizedText("Solve any Sudoku puzzle instantly.", "あらゆるナンプレ問題を一瞬で解くことができる便利ツール。"),
      "#", Game),
    AppItem("9", LocalizedText("System Monitor", "システムモニター"),
      LocalizedText("Check your browser capabilities and performance.", "ブラウザの機能やパフォーマンスをチェックするユーティリティ。"),
      "#", Utility)
  ]

  /** `selectedCategory === ALL || app.category === selectedCategory`. */
  predicate MatchesCategory(app: AppItem, category: AppCategory)
  {
    category == All || app.category == category
  }

  /** The lower-cased query occurs in the lower-cased title or description. */
  predicate MatchesSearch(app: AppItem, language: Language, query: string, lower: string -> string)
    ensures lower(query) == "" ==> MatchesSearch(app, language, query, lower)
  {
    IncludesEmpty(lower(app.title.In(language)));
    var title := lower(app.title.In(language));
    var desc := lower(app.description.In(language));
    var q := lower(query);
    Includes(title, q) || Includes(desc, q)
  }

  /** `MOCK_APPS.filter(app => matchesCategory && matchesSearch)`, over any list of apps. */
  function FilterApps(apps: seq<AppItem>, category: AppCategory, language: Language, query: string, lower: string -> string): (r: seq<AppItem>)
    ensures Subsequence(r, apps)
    ensures forall app :: app in r <==>
      app in apps && MatchesCategory(app, category) && MatchesSearch(app, language, query, lower)
  {
    if apps == [] then []
    else
      var rest := FilterApps(apps[1..], category, language, query, lower);
      assert apps == [apps[0]] + apps[1..];
      if MatchesCategory(apps[0], category) && MatchesSearch(apps[0], language, query, lower) then
        assert ([apps[0]] + rest)[1..] == rest;
        [apps[0]] + rest
      else
        SubsequenceSkipHead(apps[0], rest, apps[1..]);
        rest
  }

  /** The portal's list for the current controls. */
  function FilteredApps(category: AppCategory, language: Language, query: string, lower: string -> string): (r: seq<AppItem>)
    ensures Subsequence(r, MOCK_APPS)
    ensures forall app :: app in r <==>
      app in MOCK_APPS && MatchesCategory(app, category) && MatchesSearch(app, language, query, lower)
  {
    FilterApps(MOCK_APPS, category, language, query, lower)
  }

  /** A selected category other than `All` lets only apps of that category through. */
  lemma FilterKeepsCategory(apps: seq<AppItem>, category: AppCategory, language: Language, query: string, lower: string -> string)
    requires category != All
    ensures forall app :: app in FilterApps(apps, category, language, query, lower) ==> app.category == category
  {
  }

  /** The apps of a category, in catalogue order. */
  function AppsIn(apps: seq<AppItem>, category: AppCategory): seq<AppItem>
  {
    if apps == [] then []
    else (if MatchesCategory(apps[0], category) then [apps[0]] else []) + AppsIn(apps[1..], category)
  }

  /** An empty search box leaves exactly the apps of the selected category,
      whenever the case mapping sends the empty string to itself. */
  lemma {:induction false} EmptyQueryIsCategoryFilter(apps: seq<AppItem>, category: AppCategory, language: Language, lower: string -> string)
    requires lower("") == ""
    ensures FilterApps(apps, category, language, "", lower) == AppsIn(apps, category)
  {
    if apps != [] {
      IncludesEmpty(lower(apps[0].title.In(language)));
      EmptyQueryIsCategoryFilter(apps[1..], category, language, lower);
    }
  }

  /** With `All` selected, the category test never removes an app. */
  lemma {:induction false} AllCategoryKeepsEveryApp(apps: seq<AppItem>)
    ensures AppsIn(apps, All) == apps
  {
    if apps != [] {
      AllCategoryKeepsEveryApp(apps[1..]);
      assert apps == [apps[0]] + apps[1..];
    }
  }

  /** With ASCII case mapping the search is case-insensitive: typing the query
      in capitals lists the same apps. */
  lemma {:induction false} SearchIgnoresCase(apps: seq<AppItem>, category: AppCategory, language: Language, query: string)
    ensures FilterApps(apps, category, language, AsciiUpper(query), AsciiLower) == FilterApps(apps, category, language, query, AsciiLower)
  {
    AsciiLowerOfUpper(query);
    if apps != [] {
      SearchIgnoresCase(apps[1..], category, language, query);
    }
  }

  /** The portal's first screen (no query, `All`) lists the whole catalogue. */
  lemma InitialListIsCatalogue(language: Language, lower: string -> string)
    requires lower("") == ""
    ensures FilteredApps(All, language, "", lower) == MOCK_APPS
  {
    EmptyQueryIsCategoryFilter(MOCK_APPS, All, language, lower);
    AllCategoryKeepsEveryApp(MOCK_APPS);
  }
}
