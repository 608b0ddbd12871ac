/**
 * Choosing the workbook sheet that holds a dataset: the sheet named by the
 * caller, or else the first sheet, in workbook order, whose lower-cased name
 * contains one of the dataset's keywords.
 */
module Sheets {
  import opened Wrappers
  import opened Text
  import opened Tables

  datatype Sheet = Sheet(name: string, table: Table)

  /** The loaded workbook; its order is the order in which sheets are searched. */
  type Workbook = seq<Sheet>

  /** The keywords that mark a sheet as holding each dataset. */
  function RoleKeywords(role: Dataset): (r: seq<string>)
    ensures |r| > 0
    ensures forall k :: 0 <= k < |r| ==> |r[k]| > 0
  {
    match role
    case Ads => ["ads"]
    case Stock => ["stock", "balance", "остат", "склад"]
    case MinTarget => ["min", "target", "цел", "миним"]
  }

  /** Keywords are matched against lower-cased sheet names, so each is itself lower-case. */
  lemma RoleKeywordsLowerCase(role: Dataset)
    ensures forall k :: 0 <= k < |RoleKeywords(role)| ==> IsLowerCase(RoleKeywords(role)[k])
  {
  }

  predicate RoleMatches(role: Dataset, name: string) {
    ContainsAny(Lower(name), RoleKeywords(role))
  }

  function FirstMatching(book: Workbook, role: Dataset, from: nat): (r: Option<nat>)
    ensures r.Some? ==> from <= r.value < |book| && RoleMatches(role, book[r.value].name)
    ensures r.Some? ==> forall j :: from <= j < r.value ==> !RoleMatches(role, book[j].name)
    ensures r.None? ==> forall j :: from <= j < |book| ==> !RoleMatches(role, book[j].name)
    decreases |book| - from
  {
    if from >= |book| then None
    else if RoleMatches(role, book[from].name) then Some(from)
    else FirstMatching(book, role, from + 1)
  }

  function FirstNamed(book: Workbook, name: string, from: nat): (r: Option<nat>)
    ensures r.Some? ==> from <= r.value < |book| && book[r.value].name == name
    ensures r.None? ==> forall j :: from <= j < |book| ==> book[j].name != name
    decreases |book| - from
  {
    if from >= |book| then None
    else if book[from].name == name then Some(from)
    else FirstNamed(book, name, from + 1)
  }

  /**
   * The position of the sheet a `process_*` call reads. An empty workbook is
   * refused before anything else; an explicitly requested name must exist.
   */
  function SelectSheet(book: Workbook, role: Dataset, requested: Option<string>): (r: Result<nat>)
    ensures r.Ok? ==> r.value < |book|
    ensures book == [] ==> r == Err(NotLoaded)
    ensures book != [] && requested.None? ==>
      (r.Ok? <==> exists i :: 0 <= i < |book| && RoleMatches(role, book[i].name))
    ensures book != [] && requested.None? && r.Err? ==> r.error == NoMatchingSheet(role)
    ensures requested.None? && r.Ok? ==>
      RoleMatches(role, book[r.value].name) &&
      forall j :: 0 <= j < r.value ==> !RoleMatches(role, book[j].name)
    ensures book != [] && requested.Some? ==>
      (r.Ok? <==> exists i :: 0 <= i < |book| && book[i].name == requested.value)
    ensures book != [] && requested.Some? && r.Err? ==> r.error == UnknownSheet(requested.value)
    ensures requested.Some? && r.Ok? ==> book[r.value].name == requested.value
  {
    if book == [] then Err(NotLoaded)
    else match requested
      case Some(name) =>
        (match FirstNamed(book, name, 0)
         case Some(i) => Ok(i)
         case None => Err(UnknownSheet(name)))
      case None =>
        (match FirstMatching(book, role, 0)
         case Some(i) => Ok(i)
         case None => Err(NoMatchingSheet(role)))
  }

  /** A workbook whose sheets are "Sheet1", "ADS данные" and "Остатки". */
  function ExampleBook(t: Table): Workbook {
    [Sheet("Sheet1", t), Sheet("ADS данные", t), Sheet("Остатки", t)]
  }

  lemma Sheet1NotAds()
    ensures !RoleMatches(Ads, "Sheet1")
  {
    assert Lower("Sheet1") == "sheet1";
    AbsentChars("sheet1", RoleKeywords(Ads), "a");
  }

  lemma Sheet1NotStock()
    ensures !RoleMatches(Stock, "Sheet1")
  {
    assert Lower("Sheet1") == "sheet1";
    AbsentChars("sheet1", RoleKeywords(Stock), "cbос");
  }

  lemma Sheet1NotMinTarget()
    ensures !RoleMatches(MinTarget, "Sheet1")
  {
    assert Lower("Sheet1") == "sheet1";
    AbsentChars("sheet1", RoleKeywords(MinTarget), "maцм");
  }

  lemma AdsNameIsAds()
    ensures RoleMatches(Ads, "ADS данные")
  {
    assert Lower("ADS данные") == "ads данные";
    assert "ads данные"[..3] == "ads";
    ContainsAnyIff("ads данные", RoleKeywords(Ads));
  }

  lemma AdsNameNotStock()
    ensures !RoleMatches(Stock, "ADS данные")
  {
    assert Lower("ADS данные") == "ads данные";
    AbsentChars("ads данные", RoleKeywords(Stock), "tbос");
  }

  lemma AdsNameNotMinTarget()
    ensures !RoleMatches(MinTarget, "ADS данные")
  {
    assert Lower("ADS данные") == "ads данные";
    AbsentChars("ads данные", RoleKeywords(MinTarget), "mtцм");
  }

  lemma StockNameIsStock()
    ensures RoleMatches(Stock, "Остатки")
  {
    assert Lower("Остатки") == "остатки";
    assert "остатки"[..5] == "остат";
    assert RoleKeywords(Stock)[2] == "остат";
    ContainsAnyIff("остатки", RoleKeywords(Stock));
  }

  lemma StockNameNotMinTarget()
    ensures !RoleMatches(MinTarget, "Остатки")
  {
    assert Lower("Остатки") == "остатки";
    AbsentChars("остатки", RoleKeywords(MinTarget), "mtцм");
  }

  /** In the example workbook the ADS data is found in the second sheet. */
  lemma AdsSelectionExample(t: Table)
    ensures SelectSheet(ExampleBook(t), Ads, None) == Ok(1)
  {
    var book := ExampleBook(t);
    Sheet1NotAds();
    AdsNameIsAds();
    assert FirstMatching(book, Ads, 1) == Some(1);
  }

  /** The stock data is found in the third sheet, whose Cyrillic name is lower-cased first. */
  lemma StockSelectionExample(t: Table)
    ensures SelectSheet(ExampleBook(t), Stock, None) == Ok(2)
  {
    var book := ExampleBook(t);
    Sheet1NotStock();
    AdsNameNotStock();
    StockNameIsStock();
    assert FirstMatching(book, Stock, 2) == Some(2);
    assert FirstMatching(book, Stock, 1) == Some(2);
  }

  /** No sheet of the example workbook holds min-target data. */
  lemma MinTargetSelectionExample(t: Table)
    ensures SelectSheet(ExampleBook(t), MinTarget, None) == Err(NoMatchingSheet(MinTarget))
  {
    var book := ExampleBook(t);
    Sheet1NotMinTarget();
    AdsNameNotMinTarget();
    StockNameNotMinTarget();
    assert FirstMatching(book, MinTarget, 3) == None;
    assert FirstMatching(book, MinTarget, 2) == None;
    assert FirstMatching(book, MinTarget, 1) == None;
  }
}
