/**
 * Recognising what a column holds from its header: each header is compared,
 * lower-cased, with an ordered table of canonical fields and their keywords, and
 * the first field with a keyword occurring in the header names the column.
 */
module Columns {
  import opened Wrappers
  import opened Text
  import opened Tables

  /** The canonical fields a column can be recognised as. */
  datatype Field = Sku | ProductName | Category | DailySales | Price | OnHand | Branch

  /** The label a recognised column is renamed to. */
  function Label(f: Field): string {
    match f
    case Sku => "sku"
    case ProductName => "name"
    case Category => "category"
    case DailySales => "ads"
    case Price => "price"
    case OnHand => "stock"
    case Branch => "branch"
  }

  /** The keywords that recognise each field. */
  function Keywords(f: Field): (r: seq<string>)
    ensures |r| > 0
    ensures forall k :: 0 <= k < |r| ==> |r[k]| > 0
  {
    match f
    case Sku => ["sku", "код", "артикул", "id", "номер"]
    case ProductName => ["наименование", "название", "name", "товар", "продукт"]
    case Category => ["категория", "category", "группа", "group", "класс"]
    case DailySales => ["ads", "средн", "продаж", "sales", "день"]
    case Price => ["цена", "price", "стоимость", "cost"]
    case OnHand => ["остаток", "stock", "количество", "qty", "balance"]
    case Branch => ["филиал", "branch", "магазин", "store", "склад"]
  }

  /** Keywords are matched against lower-cased headers, so each is itself lower-case. */
  lemma KeywordsLowerCase(f: Field)
    ensures forall k :: 0 <= k < |Keywords(f)| ==> IsLowerCase(Keywords(f)[k])
  {
  }

  /** The fields in the order they are tried. */
  const Fields: seq<Field> := [Sku, ProductName, Category, DailySales, Price, OnHand, Branch]

  predicate FieldMatches(header: string, k: nat)
    requires k < |Fields|
  {
    ContainsAny(header, Keywords(Fields[k]))
  }

  /** Which fields recognise `header`, in the order they are tried. */
  function Hits(header: string): (r: seq<bool>)
    ensures |r| == |Fields|
    ensures forall k :: 0 <= k < |Fields| ==> r[k] == FieldMatches(header, k)
  {
    seq(|Fields|, k requires 0 <= k < |Fields| => FieldMatches(header, k))
  }

  /** The first set position at or after `from`. */
  function FirstHit(bs: seq<bool>, from: nat): (r: Option<nat>)
    ensures r.Some? ==> from <= r.value < |bs| && bs[r.value]
    ensures r.Some? ==> forall j :: from <= j < r.value ==> !bs[j]
    ensures r.None? ==> forall j :: from <= j < |bs| ==> !bs[j]
    decreases |bs| - from
  {
    if from >= |bs| then None
    else if bs[from] then Some(from)
    else FirstHit(bs, from + 1)
  }

  /** The first field at or after `from` with a keyword in `header`. */
  function FieldFrom(header: string, from: nat): (r: Option<nat>)
    ensures r.Some? ==> from <= r.value < |Fields|
  {
    FirstHit(Hits(header), from)
  }

  /** The search finds the first matching field at or after `from`, or reports that none matches. */
  lemma FieldFromFirst(header: string, from: nat)
    ensures FieldFrom(header, from).Some? ==>
      FieldMatches(header, FieldFrom(header, from).value) &&
      forall j :: from <= j < FieldFrom(header, from).value ==> !FieldMatches(header, j)
    ensures FieldFrom(header, from).None? ==> forall j :: from <= j < |Fields| ==> !FieldMatches(header, j)
  {
    var hits := Hits(header);
    var r := FirstHit(hits, from);
    if r.Some? {
      assert hits[r.value];
      forall j | from <= j < r.value
        ensures !FieldMatches(header, j)
      {
        assert !hits[j];
      }
    } else {
      forall j | from <= j < |Fields|
        ensures !FieldMatches(header, j)
      {
        assert !hits[j];
      }
    }
  }

  /** The canonical name a header is given, if any field recognises it. */
  function FieldFor(header: string): Option<string> {
    match FieldFrom(Lower(header), 0)
    case Some(k) => Some(Label(Fields[k]))
    case None => None
  }

  /** The renaming `_identify_columns` returns: recognised headers only, each to its field. */
  function ColumnMapping(columns: seq<string>): map<string, string> {
    map c | c in columns && FieldFor(c).Some? :: FieldFor(c).value
  }

  /** Tries the fields in table order and stops at the first with a keyword in `header`. */
  method FirstField(header: string) returns (k: nat)
    ensures k <= |Fields|
    ensures k < |Fields| ==> FieldFrom(header, 0) == Some(k)
    ensures k == |Fields| ==> FieldFrom(header, 0) == None
  {
    k := 0;
    while k < |Fields|
      invariant k <= |Fields|
      invariant forall j :: 0 <= j < k ==> !FieldMatches(header, j)
    {
      if FieldMatches(header, k) {
        FieldFromFirst(header, 0);
        return;
      }
      k := k + 1;
    }
    FieldFromFirst(header, 0);
  }

  /**
   * Builds the header renaming with the nested search of the source: each
   * header, lower-cased, is given the first field with a keyword in it.
   */
  method IdentifyColumns(columns: seq<string>) returns (mapping: map<string, string>)
    ensures mapping == ColumnMapping(columns)
  {
    ghost var expected := ColumnMapping(columns);
    mapping := map[];
    for i := 0 to |columns|
      invariant forall c :: c in mapping <==> c in columns[..i] && c in expected
      invariant forall c :: c in mapping ==> mapping[c] == expected[c]
    {
      var column := columns[i];
      var k := FirstField(Lower(column));
      FieldForFound(column, k);
      assert column in columns;
      if k < |Fields| {
        mapping := mapping[column := Label(Fields[k])];
      }
      assert columns[..i + 1] == columns[..i] + [column];
    }
    assert columns[..|columns|] == columns;
  }

  lemma FieldForFound(header: string, k: nat)
    requires k < |Fields| ==> FieldFrom(Lower(header), 0) == Some(k)
    requires k >= |Fields| ==> FieldFrom(Lower(header), 0) == None
    ensures k < |Fields| ==> FieldFor(header) == Some(Label(Fields[k]))
    ensures k >= |Fields| ==> FieldFor(header) == None
  {
  }

  /** Different fields have different labels. */
  lemma LabelInjective(f: Field, g: Field)
    ensures Label(f) == Label(g) ==> f == g
  {
    if f != g {
      assert Label(f)[0] != Label(g)[0] || |Label(f)| != |Label(g)|;
    }
  }

  /**
   * A header is given field `k` exactly when a keyword of field `k` occurs in it
   * and no keyword of an earlier field does.
   */
  lemma FirstFieldWins(header: string, k: nat)
    requires k < |Fields|
    ensures FieldFor(header) == Some(Label(Fields[k])) <==>
      FieldMatches(Lower(header), k) && forall j :: 0 <= j < k ==> !FieldMatches(Lower(header), j)
  {
    var r := FieldFrom(Lower(header), 0);
    FieldFromFirst(Lower(header), 0);
    if r.Some? && Label(Fields[r.value]) == Label(Fields[k]) {
      LabelInjective(Fields[r.value], Fields[k]);
    }
  }

  /** A header in which no keyword occurs is left out of the renaming. */
  lemma UnrecognisedHeadersKept(columns: seq<string>, c: string)
    requires c in columns
    requires forall k :: 0 <= k < |Fields| ==> !FieldMatches(Lower(c), k)
    ensures c !in ColumnMapping(columns)
  {
    FieldFromFirst(Lower(c), 0);
  }

  /** A header that is itself keyword `m` of field `k` matches field `k`. */
  lemma KeywordHit(h: string, k: nat, m: nat)
    requires k < |Fields| && m < |Keywords(Fields[k])| && Keywords(Fields[k])[m] == h
    ensures FieldMatches(h, k)
  {
    assert h[..|h|] == h;
    ContainsAnyIff(h, Keywords(Fields[k]));
  }

  lemma SkuRecognised()
    ensures FieldFor("sku") == Some("sku")
  {
    LowerCaseFixed("sku");
    KeywordHit("sku", 0, 0);
    FirstFieldWins("sku", 0);
  }

  lemma NameNotSku()
    ensures !FieldMatches("name", 0)
  {
    AbsentChars("name", Keywords(Fields[0]), "sкаiн");
  }

  lemma NameRecognised()
    ensures FieldFor("name") == Some("name")
  {
    LowerCaseFixed("name");
    NameNotSku();
    KeywordHit("name", 1, 2);
    FirstFieldWins("name", 1);
  }

  lemma CategoryNotSku()
    ensures !FieldMatches("category", 0)
  {
    AbsentChars("category", Keywords(Fields[0]), "sкаiн");
  }

  lemma CategoryNotProductName()
    ensures !FieldMatches("category", 1)
  {
    AbsentChars("category", Keywords(Fields[1]), "ннnтп");
  }

  lemma CategoryRecognised()
    ensures FieldFor("category") == Some("category")
  {
    LowerCaseFixed("category");
    CategoryNotSku();
    CategoryNotProductName();
    KeywordHit("category", 2, 1);
    FirstFieldWins("category", 2);
  }

  lemma AdsNotSku()
    ensures !FieldMatches("ads", 0)
  {
    AbsentChars("ads", Keywords(Fields[0]), "kкаiн");
  }

  lemma AdsNotProductName()
    ensures !FieldMatches("ads", 1)
  {
    AbsentChars("ads", Keywords(Fields[1]), "ннnтп");
  }

  lemma AdsNotCategory()
    ensures !FieldMatches("ads", 2)
  {
    AbsentChars("ads", Keywords(Fields[2]), "кcгgк");
  }

  lemma AdsRecognised()
    ensures FieldFor("ads") == Some("ads")
  {
    LowerCaseFixed("ads");
    AdsNotSku();
    AdsNotProductName();
    AdsNotCategory();
    KeywordHit("ads", 3, 0);
    FirstFieldWins("ads", 3);
  }

  lemma PriceNotSku()
    ensures !FieldMatches("price", 0)
  {
    AbsentChars("price", Keywords(Fields[0]), "sкаdн");
  }

  lemma PriceNotProductName()
    ensures !FieldMatches("price", 1)
  {
    AbsentChars("price", Keywords(Fields[1]), "ннnтп");
  }

  lemma PriceNotCategory()
    ensures !FieldMatches("price", 2)
  {
    AbsentChars("price", Keywords(Fields[2]), "кaгgк");
  }

  lemma PriceNotDailySales()
    ensures !FieldMatches("price", 3)
  {
    AbsentChars("price", Keywords(Fields[3]), "aспsд");
  }

  lemma PriceRecognised()
    ensures FieldFor("price") == Some("price")
  {
    LowerCaseFixed("price");
    PriceNotSku();
    PriceNotProductName();
    PriceNotCategory();
    PriceNotDailySales();
    KeywordHit("price", 4, 1);
    FirstFieldWins("price", 4);
  }

  lemma StockNotSku()
    ensures !FieldMatches("stock", 0)
  {
    AbsentChars("stock", Keywords(Fields[0]), "uкаiн");
  }

  lemma StockNotProductName()
    ensures !FieldMatches("stock", 1)
  {
    AbsentChars("stock", Keywords(Fields[1]), "ннnтп");
  }

  lemma StockNotCategory()
    ensures !FieldMatches("stock", 2)
  {
    AbsentChars("stock", Keywords(Fields[2]), "кaгgк");
  }

  lemma StockNotDailySales()
    ensures !FieldMatches("stock", 3)
  {
    AbsentChars("stock", Keywords(Fields[3]), "aспaд");
  }

  lemma StockNotPrice()
    ensures !FieldMatches("stock", 4)
  {
    AbsentChar("stock", "цена", 'ц');
    AbsentChar("stock", "price", 'p');
    AbsentChar("stock", "стоимость", 'с');
    Mismatch("stock", "cost", 0);
    ContainsAnyIff("stock", Keywords(Fields[4]));
  }

  lemma StockRecognised()
    ensures FieldFor("stock") == Some("stock")
  {
    LowerCaseFixed("stock");
    StockNotSku();
    StockNotProductName();
    StockNotCategory();
    StockNotDailySales();
    StockNotPrice();
    KeywordHit("stock", 5, 1);
    FirstFieldWins("stock", 5);
  }

  lemma BranchNotSku()
    ensures !FieldMatches("branch", 0)
  {
    AbsentChars("branch", Keywords(Fields[0]), "sкаiн");
  }

  lemma BranchNotProductName()
    ensures !FieldMatches("branch", 1)
  {
    AbsentChars("branch", Keywords(Fields[1]), "ннmтп");
  }

  lemma BranchNotCategory()
    ensures !FieldMatches("branch", 2)
  {
    AbsentChars("branch", Keywords(Fields[2]), "кtгgк");
  }

  lemma BranchNotDailySales()
    ensures !FieldMatches("branch", 3)
  {
    AbsentChars("branch", Keywords(Fields[3]), "dспsд");
  }

  lemma BranchNotPrice()
    ensures !FieldMatches("branch", 4)
  {
    AbsentChars("branch", Keywords(Fields[4]), "цpсo");
  }

  lemma BranchNotOnHand()
    ensures !FieldMatches("branch", 5)
  {
    AbsentChars("branch", Keywords(Fields[5]), "оsкql");
  }

  lemma BranchRecognised()
    ensures FieldFor("branch") == Some("branch")
  {
    LowerCaseFixed("branch");
    BranchNotSku();
    BranchNotProductName();
    BranchNotCategory();
    BranchNotDailySales();
    BranchNotPrice();
    BranchNotOnHand();
    KeywordHit("branch", 6, 1);
    FirstFieldWins("branch", 6);
  }

  /** Every canonical field name is recognised as that field. */
  lemma CanonicalNamesRecognised()
    ensures forall f :: FieldFor(Label(f)) == Some(Label(f))
  {
    forall f
      ensures FieldFor(Label(f)) == Some(Label(f))
    {
      match f
      case Sku => SkuRecognised();
      case ProductName => NameRecognised();
      case Category => CategoryRecognised();
      case DailySales => AdsRecognised();
      case Price => PriceRecognised();
      case OnHand => StockRecognised();
      case Branch => BranchRecognised();
    }
  }

  /** A sheet whose headers are already canonical is renamed to itself. */
  lemma CanonicalHeadersUnchanged(columns: seq<string>)
    requires forall c :: c in columns ==> exists f :: Label(f) == c
    ensures forall c :: c in columns ==> c in ColumnMapping(columns) && ColumnMapping(columns)[c] == c
  {
    CanonicalNamesRecognised();
  }

  /** The header as it is compared: surrounding white space removed, lower-cased. */
  function StandardName(header: string): string {
    Lower(Strip(header))
  }

  function StandardNames(columns: seq<Column>): (r: seq<string>)
    ensures |r| == |columns|
    ensures forall j :: 0 <= j < |columns| ==> r[j] == StandardName(columns[j].name)
  {
    seq(|columns|, j requires 0 <= j < |columns| => StandardName(columns[j].name))
  }

  /** The labels after renaming: recognised headers take their field name, the rest keep theirs. */
  function Renamed(names: seq<string>, mapping: map<string, string>): (r: seq<string>)
    ensures |r| == |names|
  {
    seq(|names|, j requires 0 <= j < |names| => if names[j] in mapping then mapping[names[j]] else names[j])
  }

  predicate Distinct(names: seq<string>) {
    forall i, j :: 0 <= i < j < |names| ==> names[i] != names[j]
  }

  /** The first label, from position `from` on, that repeats an earlier label. */
  function DuplicateFrom(names: seq<string>, from: nat): (r: Option<string>)
    requires from <= |names|
    requires Distinct(names[..from])
    ensures r.None? <==> Distinct(names)
    ensures r.Some? ==> exists i, j :: 0 <= i < j < |names| && names[i] == r.value && names[j] == r.value
    decreases |names| - from
  {
    if from == |names| then
      assert names[..from] == names;
      None
    else if names[from] in names[..from] then
      var i :| 0 <= i < from && names[i] == names[from];
      Some(names[from])
    else
      assert names[..from + 1] == names[..from] + [names[from]];
      DuplicateFrom(names, from + 1)
  }

  /** Replaces the labels of a table's columns, keeping their kinds and the rows. */
  function Relabel(t: Table, names: seq<string>): (r: Table)
    requires |names| == |t.columns|
    ensures Names(r.columns) == names && r.rows == t.rows
    ensures forall j :: 0 <= j < |names| ==> r.columns[j].kind == t.columns[j].kind
  {
    Table(seq(|names|, j requires 0 <= j < |names| => Column(names[j], t.columns[j].kind)), t.rows)
  }
}
