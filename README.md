# Autosort_tovar: the Excel data processor, modelled in Dafny

Autosort_tovar plans store stock from an Excel workbook exported by an
inventory system. Its core is the class `ExcelDataProcessor`
(`excel_processor.py`), a forward pipeline of small rules:

1. **Sheet selection.** `process_ads_data`, `process_stock_data` and
   `process_min_target_data` each take the sheet the caller names. Otherwise
   they take the first sheet, in workbook order, whose lower-cased name holds
   one of the dataset's keywords.
2. **Header standardisation.** Headers are stripped and lower-cased. For the
   ADS (average daily sales) sheet, each header is then renamed to the first
   canonical field (`sku`, `name`, `category`, `ads`, `price`, `stock`,
   `branch`) with a keyword occurring in it.
3. **Cleaning.**
   - Empty rows are dropped, then columns left empty.
   - Gaps in numeric columns become 0; gaps in text columns become `"Unknown"`.
4. **Category analysis.** Per category:
   - the SKU count and its share of all rows;
   - the ADS sum and mean;
   - the share of the ADS grand total.
5. **Shelf distribution.** Each category gets its ADS share of the shelves, truncated.
6. **Minimum stock.** ADS times the days of supply, per row and per category.
7. **Order list.**
   - Deficit against current stock, scaled by a safety factor.
   - Only positive quantities are kept.
   - Each line is valued at its price.
   - Lines are sorted by category, then by quantity (largest first).
8. **Package rounding.** Quantities are raised to the next multiple of the SKU's pack size.
9. **Export.** The orders with a summary of their totals, plus the analyses when they are non-empty.

The model works on exact rationals (`real`) in place of floats. Shelves, days
and pack sizes are integers.

- **Tables.** A table is a list of typed columns (`Numeric`, `Textual` or
  `OtherKind`, standing for the pandas dtype) and rows of cells (`Missing`,
  `Num`, `Text`).
- **Workbook.** An ordered list of named sheets; its order decides "first match".
- **Errors.** Every exception of the code is a `Result` error:
  - `NotLoaded`;
  - `NoMatchingSheet`;
  - `UnknownSheet`;
  - `NotProcessed`;
  - `MissingColumn` (the `KeyError` of a column access);
  - `NonNumericColumn`;
  - `DuplicateColumn`.
- **Processor state.** `ExcelDataProcessor` is a class with the source's two
  fields, `rawData` and `processedData`. Its invariant `Valid` says every
  prepared dataset is clean (cleaning it again changes nothing) and has distinct labels.
- **Loops.** Where the source loops, the model loops too:
  - the nested keyword search with `break`;
  - the per-category dictionaries;
  - the in-place rewrite of the order rows, on an array.

  Each loop is proved equal to a specification function. The properties are proved about that function.

What the code does at three places that are easy to misread:

- Cleaning drops only rows that are empty throughout. A row whose SKU or category is empty stays, with the gap filled.
- Cleaning does not convert text to numbers. A numeric column holds what the sheet held, gaps aside.
- Renaming can give two columns the same label. The model refuses that case (see `Processor.Prepare` below).

The class's category analysis (`CalculateCategoryAnalysis`) uses the corrected
rules of the two rows under "Findings": a missing price column does not stop the
analysis, and a zero ADS grand total gives every category a zero ADS share.

Modules: `Wrappers`, `Numbers`, `Text`, `Tables`, `Sheets`, `Columns`,
`Cleaning`, `Categories`, `Space`, `MinStock`, `Orders`, `Packages`, `Export`
and `Processor`, one file each.

## Model

| member | source | states |
|---|---|---|
| Numbers.Round2 | excel_processor.py:176 | rounding to two decimals moves a value by at most 1/200 and keeps it non-negative |
| Numbers.Trunc | excel_processor.py:200 | `int()` of a float: the integer toward zero, within 1 of the value |
| Numbers.Ceil | excel_processor.py:278 | `np.ceil`: the least integer not below the value |
| Numbers.Max | excel_processor.py:249 | `max(0, x)`: an upper bound equal to one of its arguments |
| Text.Lower | excel_processor.py:60 | lower-casing keeps the length and maps each character (ASCII and Cyrillic capitals) to its lower case |
| Text.LowerChar | excel_processor.py:134 | a lower-cased character is never an ASCII or Cyrillic capital |
| Text.LowerCaseFixed | excel_processor.py:134-136 | lower-casing always yields a lower-case string and leaves a string unchanged iff it is lower-case already |
| Text.LowerIdempotent | excel_processor.py:134 | lower-casing a header that was already lower-cased changes nothing |
| Text.TrimStart | excel_processor.py:60 | strip removes exactly the leading white space: the result is a suffix, starts with non-space, and everything cut was space |
| Text.TrimEnd | excel_processor.py:60 | strip removes exactly the trailing white space: the result is a prefix, ends with non-space, and everything cut was space |
| Text.ContainsAnyIff | excel_processor.py:136 | `any(pattern in col)` holds iff some keyword of the list occurs in the header |
| Text.ContainsAt | excel_processor.py:136 | `p in s` holds iff `p` occurs at some position of `s` |
| Tables.Names | excel_processor.py:165 | the labels of the columns, in order |
| Tables.ColumnIndex | excel_processor.py:165 | `name in df.columns`: the first column with that label, or none has it |
| Tables.SetColumn | excel_processor.py:218-223 | assigning `df[name]` keeps the rows, makes `name` readable with the given values, and leaves every other label and cell as it was |
| Sheets.RoleKeywords | excel_processor.py:52-105 | every dataset has at least one keyword, and no keyword is empty |
| Sheets.RoleKeywordsLowerCase | excel_processor.py:52-105 | each keyword is lower-case, so it can occur in a lower-cased sheet name |
| Sheets.FirstMatching | excel_processor.py:51-55 | the first sheet from a position on whose lower-cased name holds a role keyword; all before it fail; none means none matches |
| Sheets.FirstNamed | excel_processor.py:57 | the sheet with the requested name, or no sheet has it |
| Sheets.SelectSheet | excel_processor.py:46-57 | empty workbook is NotLoaded before any search; without a name, success iff some sheet matches the role and the chosen one is the first match, else NoMatchingSheet; with a name, success iff a sheet has it, else UnknownSheet |
| Sheets.AdsSelectionExample | excel_processor.py:51-55 | in "Sheet1", "ADS данные", "Остатки" the ADS data is the second sheet |
| Sheets.StockSelectionExample | excel_processor.py:82-86 | the stock data is the third sheet, found through its Cyrillic keyword after lower-casing |
| Sheets.MinTargetSelectionExample | excel_processor.py:104-108 | no sheet of that workbook matches the min-target keywords, so selection fails |
| Columns.Keywords | excel_processor.py:123-131 | every field has at least one keyword, and no keyword is empty |
| Columns.KeywordsLowerCase | excel_processor.py:123-136 | each keyword is lower-case, so it can occur in a lower-cased header |
| Columns.FieldFromFirst | excel_processor.py:135-138 | the field found is one whose keyword occurs in the header and no earlier field's does; none found means no field matches |
| Columns.FirstField | excel_processor.py:135-138 | the inner loop with `break` stops at exactly the first matching field, or runs off the end when none matches |
| Columns.IdentifyColumns | excel_processor.py:118-140 | the nested loop builds exactly the renaming `ColumnMapping`: recognised headers only, each to its first matching field |
| Columns.FirstFieldWins | excel_processor.py:133-138 | a header is renamed to field k iff a keyword of k occurs in it and none of an earlier field does |
| Columns.UnrecognisedHeadersKept | excel_processor.py:133-138 | a header matching no keyword is absent from the renaming |
| Columns.LabelInjective | excel_processor.py:123-131 | distinct fields have distinct canonical names |
| Columns.CanonicalNamesRecognised | excel_processor.py:123-131 | each canonical name (sku, name, category, ads, price, stock, branch) is recognised as itself |
| Columns.CanonicalHeadersUnchanged | excel_processor.py:133-138 | a sheet whose headers are already canonical is renamed to itself |
| Columns.StandardNames | excel_processor.py:60 | each label is its header stripped and lower-cased |
| Columns.DuplicateFrom | excel_processor.py:67 | a repeated label is found iff the labels are not distinct, and it occurs twice |
| Columns.Relabel | excel_processor.py:60 | replacing the labels keeps the column kinds and the rows |
| Cleaning.KeptRows | excel_processor.py:145 | the kept rows, in order, are exactly the rows holding a value |
| Cleaning.KeptColumns | excel_processor.py:145 | the kept columns, in order, are exactly those holding a value in a kept row |
| Cleaning.Fill | excel_processor.py:148-153 | a cell holding a value is kept; a gap becomes 0 in a numeric column and "Unknown" in a text column, and stays a gap only in a column of another kind |
| Cleaning.Clean | excel_processor.py:142-155 | the cleaned table has the kept rows and columns, the kept columns unchanged, rows as wide as the header |
| Cleaning.CleanCell | excel_processor.py:148-153 | each cleaned cell is its original cell with the gap filled by column kind |
| Cleaning.CleanKeepsExactly | excel_processor.py:145 | rows are dropped first, then columns empty among the remaining rows: both iff statements |
| Cleaning.CleanFillsGaps | excel_processor.py:148-153 | after cleaning no numeric or text cell is missing |
| Cleaning.CleanKeepsValues | excel_processor.py:148-153 | cleaning never alters a cell that held a value |
| Cleaning.FillTwice | excel_processor.py:149-153 | filling a filled cell changes nothing |
| Cleaning.CleanRowsHoldValues | excel_processor.py:145 | no cleaned row is empty |
| Cleaning.CleanColumnsHoldValues | excel_processor.py:145 | no cleaned column is empty |
| Cleaning.CleanLeavesNothingToFill | excel_processor.py:148-153 | no cleaned cell is a gap the fill rule would change |
| Cleaning.CleanIsTight | excel_processor.py:142-155 | a cleaned table is one cleaning leaves alone: no empty row, no empty column, no gap |
| Cleaning.TightKeepsAll | excel_processor.py:145 | on such a table both drops keep every row and column |
| Cleaning.TightRowUnchanged | excel_processor.py:142-155 | on such a table every row comes out as it went in |
| Cleaning.TightColumnsUnchanged | excel_processor.py:142-155 | on such a table the columns come out as they went in |
| Cleaning.CleanTightUnchanged | excel_processor.py:142-155 | cleaning such a table returns it unchanged |
| Cleaning.CleanIdempotent | excel_processor.py:142-155 | cleaning twice equals cleaning once |
| Categories.AnalysisError | excel_processor.py:165-176 | the analysis runs iff category and sku exist, ads holds numbers and a price column, when present, holds numbers; category is checked first, then sku; a text price column is refused exactly when everything before it passes |
| Categories.AnalysisErrorAsWritten | excel_processor.py:172-176 | as written, the aggregation also refuses a table without a price column, and refuses a text price column exactly as the corrected checks do |
| Categories.GroupSize | excel_processor.py:172 | the rows of a group, never more than the rows seen; it bounds the SKU count and the ADS count |
| Categories.AdsCount | excel_processor.py:174 | the rows of a group whose ADS holds a number, the divisor of pandas' mean, never more than the group's rows |
| Categories.GroupAdsWithinTotal | excel_processor.py:174-188 | with non-negative ADS values a group's ADS sum lies between 0 and the grand total |
| Categories.GroupAdsPartition | excel_processor.py:174-188 | when every row falls in one of a list of distinct groups, the groups' ADS sums add up to the ADS grand total that the shares divide by |
| Categories.CategorySet | excel_processor.py:172-178 | the group keys are exactly the non-empty categories that occur in some row |
| Categories.SkuCount | excel_processor.py:173 | `count` of SKUs in a group never exceeds the group's rows |
| Categories.Counted | excel_processor.py:173 | the rows with both a category and an SKU, never more than the rows seen |
| Categories.AdsShare | excel_processor.py:188 | the ADS share is within 1/200 of total/grand·100, and 0 when the grand total is 0 |
| Categories.AdsShareAsWritten | excel_processor.py:188 | as written the share is undefined exactly when the grand total is 0, and otherwise equals the corrected share |
| Categories.StatFor | excel_processor.py:178-189 | item count is the group's SKU count; percentage and total ADS are within 1/200 of their exact values; the mean is NaN (None) iff no row of the group has an ADS value, and otherwise within 1/200 of the ADS sum over that count; the ADS share uses the rounded group total |
| Categories.CategoryStats | excel_processor.py:157-191 | errors exactly as AnalysisError, a text price column included; otherwise one entry per distinct non-empty category, each its statistics |
| Categories.CategoryAnalysis | excel_processor.py:178-189 | the loop filling the dictionary returns exactly CategoryStats |
| Categories.ItemCountsSum | excel_processor.py:172-173 | over a list of the distinct categories, the SKU counts add up to the rows with a category and an SKU |
| Categories.ItemCountsTotal | excel_processor.py:172-184 | the item counts of the result add up to the rows with both a category and an SKU |
| Categories.CleanedRowsCounted | excel_processor.py:145-153 | in a cleaned table with filled category and SKU columns every row has both |
| Categories.ItemCountsRowCount | excel_processor.py:170-184 | for a cleaned dataset the item counts of the result add up to the row count |
| Categories.PercentagesNearShares | excel_processor.py:185 | the summed percentages are within one rounding step per category of the exact share of the summed counts |
| Categories.PercentagesTotalOf | excel_processor.py:185 | counts that add up to the rows give percentages adding up to 100 within one rounding step per category |
| Categories.PercentagesTotal | excel_processor.py:185 | when every row has a category and an SKU the percentages sum to 100 within one two-hundredth per category |
| Categories.ZeroAdsGivesZeroShares | excel_processor.py:188 | with a zero ADS grand total every category's ADS share is 0 |
| Categories.RoundedSumShareExceedsHundred | excel_processor.py:176-188 | dividing the rounded group sum by the unrounded total can exceed 100: one row with ADS 0.006 gets 166.67 |
| Categories.PriceColumnDemanded | excel_processor.py:172-176 | a table without price is refused as written but analysed by the corrected checks |
| Categories.TextPriceRefused | excel_processor.py:172-176 | a table whose price column holds text is refused with NonNumericColumn("price") by both forms of the checks and by the analysis |
| Categories.ZeroAdsShareUndefined | excel_processor.py:188 | all-zero ADS makes the written share undefined where the corrected one is 0 |
| Space.Share | excel_processor.py:200 | the exact share is non-negative for a non-negative percentage and shelf count, and a 100 percent share is all the shelves |
| Space.Shelves | excel_processor.py:200 | the shelves of a category are the whole part of its exact share, never above it and less than one below |
| Space.AtLeastOne | excel_processor.py:205 | `max(shelves, 1)` is at least 1, so items per shelf never divides by zero |
| Space.Allocate | excel_processor.py:200-205 | shelves from the ADS share, the percentage copied from it, items per shelf times the divisor equal to the item count |
| Space.Distribution | excel_processor.py:196-208 | one allocation per category of the analysis and no other |
| Space.SpaceDistribution | excel_processor.py:198-206 | the loop filling the dictionary returns exactly Distribution |
| Space.SharesAdd | excel_processor.py:200 | the exact shares add up to the share of the summed percentages |
| Space.ShelvesBelowShares | excel_processor.py:200 | truncation never hands out more shelves than the exact shares sum to |
| Space.ShareAtMostWhole | excel_processor.py:200 | a share of at most 100 percent is at most all the shelves |
| Space.ShelfBudget | excel_processor.py:198-206 | non-negative shares summing to at most 100 never allocate more shelves than there are |
| Space.NoSalesNoShelf | excel_processor.py:200-205 | a category with ADS share 0 gets no shelf and all its items count against one shelf |
| Space.ThreeCategoriesExample | excel_processor.py:200 | 786 shelves with shares 40, 35, 25 give 314, 275, 196 |
| Space.ThreeCategoriesLeaveOneShelf | excel_processor.py:198-206 | those allocations add up to 785, one shelf short |
| MinStock.Times | excel_processor.py:218 | scaling a cell by the days multiplies its value and keeps an empty cell empty |
| MinStock.MinStockError | excel_processor.py:218 | the minimum stock can be computed iff the ads column holds numbers |
| MinStock.MinStockCell | excel_processor.py:218 | a row's minimum stock is its ADS times the days, and empty when its ADS is |
| MinStock.CategoryMinStockCell | excel_processor.py:222-223 | a row with a category carries the category's ADS sum times the days, so every row of one category carries the same total; a row without one carries a gap |
| MinStock.MinimumStock | excel_processor.py:210-225 | same rows; every row gets ADS·days as min_stock and the days as days_supply; with categories, each row gets its category total; every other column and cell unchanged |
| MinStock.GroupMinStockIsScaledAds | excel_processor.py:223 | a group's minimum-stock sum is its ADS sum times the days |
| Orders.Number | excel_processor.py:248 | a non-text cell enters arithmetic as its number, and as NaN (None) exactly when it is empty |
| Orders.FirstWithSku | excel_processor.py:241 | the first stock row with the SKU (no earlier row has it), or no row has it |
| Orders.StockCell | excel_processor.py:230-245 | 0 without a joinable stock table; the orders' own stock cell when they have one; else the stock cell of the first stock row with the SKU, a gap when none has it; 0 when neither table has stock |
| Orders.CurrentStock | excel_processor.py:230-245 | the current stock is 0 without a join, NaN (None) exactly when its cell is a gap, otherwise the cell's number |
| Orders.Quantity | excel_processor.py:248-249 | the order quantity is non-negative, and positive iff both operands are numbers and the scaled deficit is positive |
| Orders.OrderError | excel_processor.py:235-256 | the list is refused iff min_stock is missing or a text cell meets arithmetic: missing column first, then text in min_stock, then in the current stock, then in the price of an ordered row |
| Orders.QuantityOf | excel_processor.py:249 | `max(0, deficit·factor)`: non-negative, the product when positive, 0 for NaN or a non-positive product |
| Orders.LineFor | excel_processor.py:247-258 | a line exists iff the quantity is positive; deficit is min stock minus current stock; quantity is deficit times factor; the price is present iff the orders have a price column; value is quantity times price, or 0 without prices |
| Orders.Lines | excel_processor.py:252 | filtering keeps at most one line per row |
| Orders.LinesFromRows | excel_processor.py:252 | a line is kept iff some row produces it |
| Orders.OrderedIffDeficit | excel_processor.py:248-252 | with a positive factor a row is ordered iff its stock is known and below the minimum |
| Orders.NoStockOrdersMinimum | excel_processor.py:231-235 | without a stock dataset the current stock is 0 and the quantity is minimum stock times factor |
| Orders.UnmatchedSkuNotOrdered | excel_processor.py:241-252 | an SKU missing from the stock table has unknown stock and is not ordered |
| Orders.StringLessTotal | excel_processor.py:262 | any two category names are equal or ordered one way |
| Orders.StringLessTransitive | excel_processor.py:262 | the name order is transitive |
| Orders.StringLessIrreflexive | excel_processor.py:262 | no name precedes itself |
| Orders.CellLessTotal | excel_processor.py:262 | any two category cells are equal or ordered one way (numbers, then text, then empty) |
| Orders.CellLessTransitive | excel_processor.py:262 | the cell order is transitive |
| Orders.CellLessIrreflexive | excel_processor.py:262 | no cell precedes itself |
| Orders.BeforeTotal | excel_processor.py:262 | of any two lines one may precede the other |
| Orders.BeforeTransitive | excel_processor.py:262 | the line order is transitive |
| Orders.Insert | excel_processor.py:262 | inserting a line adds exactly that line |
| Orders.InsertSorted | excel_processor.py:262 | inserting into a sorted list keeps it sorted |
| Orders.Sort | excel_processor.py:262 | sorting is a permutation |
| Orders.SortSorted | excel_processor.py:262 | sorting orders by category ascending, then quantity descending |
| Orders.GenerateOrders | excel_processor.py:227-264 | refused iff OrderError names an error, with that error; otherwise every row is computable and the list is a permutation of the rows' lines, in row order when there is no category column |
| Orders.OrdersSorted | excel_processor.py:261-262 | with a category column the list is sorted by category, then quantity descending |
| Orders.OrdersPositive | excel_processor.py:252 | every listed line has a positive quantity |
| Orders.OrderExample | excel_processor.py:218-249 | ADS 5 over 10 days gives a minimum of 50 by the minimum-stock rule; against a stock of 20 with factor 1.2 the row orders 36 |
| Packages.RoundToMultiple | excel_processor.py:275-277 | a pack size up to 1 leaves the quantity alone |
| Packages.RoundingLaw | excel_processor.py:275-278 | for a pack size m above 1, the result is a whole multiple of m, not below the quantity and less than m above it |
| Packages.MultipleFor | excel_processor.py:282-283 | the pack size is the SKU's entry in the table, 1 when the SKU has none; a line without an SKU looks up "" |
| Packages.Pack | excel_processor.py:282-293 | the line records its pack size (1 when absent), its quantity is rounded, its value recomputed when it has a price, nothing else changes |
| Packages.PackAll | excel_processor.py:281-293 | the same number of lines, each packed |
| Packages.ApplyPackageMultiples | excel_processor.py:266-295 | rewriting the rows of a copy in place yields exactly PackAll |
| Packages.PackingNeverLowers | excel_processor.py:286 | packing never lowers a quantity |
| Packages.PackExample | excel_processor.py:278 | 36 in packs of 10 becomes 40 |
| Export.TotalQuantity | excel_processor.py:305 | the summed quantity is never negative when no quantity is |
| Export.TotalValue | excel_processor.py:306 | the summed value is never negative when no line value is |
| Export.Summarise | excel_processor.py:304 | the position count is the number of lines |
| Export.NonEmpty | excel_processor.py:310-314 | a dictionary is kept iff given and non-empty |
| Export.ExportResults | excel_processor.py:297-316 | the orders with their summary; analysis and distribution present iff given and non-empty, and then unchanged |
| Export.QuantitiesPositive | excel_processor.py:305 | positive quantities give a positive total for a non-empty list |
| Export.GeneratedTotalPositive | excel_processor.py:305 | a non-empty generated order list has a positive total quantity |
| Export.PackingRaisesTotal | excel_processor.py:281-305 | packing keeps the positions and never lowers the total quantity |
| Export.InsertTotal | excel_processor.py:262 | inserting a line adds its quantity and value to the totals |
| Export.SortKeepsTotals | excel_processor.py:262 | sorting keeps the total quantity and value |
| Export.SummaryOfRows | excel_processor.py:301-308 | the summary of the sorted list equals that of the rows' lines |
| Processor.Labels | excel_processor.py:60-67 | one label per column: the header stripped and lower-cased; for the ADS sheet, the canonical name of the first field recognising it, or the standardised header when none does |
| Processor.Prepare | excel_processor.py:57-70 | refused iff the labels collide, naming a repeated label; otherwise the relabelled table, cleaned |
| Processor.DatasetOf | excel_processor.py:44-70 | selection errors pass through, NotLoaded first; otherwise the selected sheet prepared |
| Processor.CleanKeepsDistinct | excel_processor.py:145 | cleaning keeps distinct labels distinct |
| Processor.PreparedIsClean | excel_processor.py:70 | a prepared dataset is clean, has distinct labels, and cleaning it again changes nothing |
| Processor.ExcelDataProcessor.constructor | excel_processor.py:18-20 | a new processor has no workbook and no datasets |
| Processor.ExcelDataProcessor.LoadExcelFile | excel_processor.py:22-27 | loading replaces the workbook and keeps the datasets |
| Processor.ExcelDataProcessor.ProcessAdsData | excel_processor.py:44-73 | returns the ADS dataset of the workbook and stores it under ADS on success, changing nothing else |
| Processor.ExcelDataProcessor.ProcessStockData | excel_processor.py:75-95 | returns the stock dataset and stores it under stock on success, changing nothing else |
| Processor.ExcelDataProcessor.ProcessMinTargetData | excel_processor.py:97-116 | returns the min-target dataset and stores it under min-target on success, changing nothing else |
| Processor.ExcelDataProcessor.CalculateCategoryAnalysis | excel_processor.py:157-191 | NotProcessed without an ADS dataset, otherwise the analysis of it, refusing a text price column as the price mean does; when its category and SKU columns are filled, the item counts add up to the dataset's rows |
| Processor.ExcelDataProcessor.CalculateMinimumStock | excel_processor.py:210-215 | NotProcessed without an ADS dataset, otherwise its minimum stock table; ten days of supply by default |
| Processor.ExcelDataProcessor.GenerateOrderList | excel_processor.py:227-245 | the order list against the stored stock dataset, or with no stock when none is stored; a safety factor of 1.2 by default |

## Left out

- Reading the workbook file. `LoadExcelFile` takes the sheets as a value. The structure report it returns (rows, columns and sample rows per sheet) is not modelled, nor the wrapping of read errors.
- `get_processing_summary` is not modelled. It reports pandas dtypes and null counts.
- pandas dtype inference is not modelled. Each column carries an explicit kind.
- Lenient float arithmetic on text is not modelled. The `ads` column must be numeric for the analysis and the minimum stock, and a present `price` column must be numeric for the analysis; otherwise the model reports `NonNumericColumn`, where pandas would concatenate strings or raise.
- Floating point is not modelled. Infinity is not a value of the model; NaN appears only as `None` where the code produces it (an unmatched stock row, the mean of a group without ADS values). Rounding rounds halves up, and only its 1/200 bound is relied on, not pandas' half-even tie-breaking.
- Processor.Prepare: colliding labels after renaming are refused with `DuplicateColumn`. The code has no rule: pandas keeps duplicate labels and later column accesses return several columns.
- Orders.CurrentStock: the left merge is modelled as a lookup of the first stock row with the same SKU. Row duplication for repeated SKUs in the stock sheet is left out. Columns the stock sheet would add to the orders through the merge (its price or category, for example) are left out; prices and categories come from the minimum-stock table.
- Orders.LineFor: a price column that only the stock sheet has, and that the merge would add to the orders, is not used; without a price column in the minimum-stock table the line has no price and value 0.
- Orders.GenerateOrders: a category column that only the stock sheet has, and that the merge would add to the orders, is not used; without a category column in the minimum-stock table the list stays in row order.
- Orders.Sort: pandas sorts the two keys stably, numbers before text and empty categories last. The model's insertion sort is also stable and uses the same order of cells, but its stability is not stated as a proved property; only the order and the permutation are.
- Orders.LineFor: an empty price cell counts as 0, where pandas gives the line a NaN value. The value total skips NaN, so the exported total is the same; the line's own value differs.
- Orders.LineFor: a text price is an error (`NonNumericColumn("price")`), as multiplying a float by a string raises. Python would repeat the string if the quantity were a whole `int`, which the float safety factor rules out in practice.
- Orders.Number: a text cell is excluded by its requires. Which cells may hold text is not tied to the column kinds; `OrderError` checks the cells that enter arithmetic one by one.
- Orders.OrderLine keeps the SKU, category, minimum stock, current stock, deficit, quantity, price, value and pack size. The other columns of the minimum-stock table (name, ADS, days of supply, category minimum stock, branch and so on), which the code carries into the order table and the export, are not kept.
- Defaults: days of supply 10, safety factor 1.2, no pack sizes and no sheet name are the methods' default arguments. Export takes absent analyses as `None` by default.
- Packages.MultipleFor: pack sizes are integers. A line without an SKU column looks up the empty string.
- Export.Summarise: the fallback of the value total to 0 without an `order_value` column is not modelled. Generated orders always have that column.
- Text.Lower: lower-casing covers ASCII, Cyrillic А–Я and Ё only, not full Unicode case mapping.
- The user interface, the Telegram bot and the Excel writer are not part of this model.

## Findings

| source | as written | input that shows it | evidently intended | confidence | as-written member | corrected member |
|---|---|---|---|---|---|---|
| excel_processor.py:172-176 | the aggregation always names the `price` column; only its aggregator depends on whether the column exists, so a table without prices is refused with a missing-column error | one row with category "A", SKU "1", ADS 0 and no price column (`Categories.NoPriceTable`, shown by `Categories.PriceColumnDemanded`) | price is optional: without it the analysis runs | high, not executed | Categories.AnalysisErrorAsWritten | Categories.AnalysisError |
| excel_processor.py:188 | the ADS share divides by the ADS grand total with no guard, so a dataset whose ADS values are all 0 gives an undefined share (NaN) | any table whose ADS values are all 0 (`Categories.ZeroAdsShareUndefined`) | the share is 0 when the grand total is 0, so shelf allocation gives 0 shelves | medium, not executed | Categories.AdsShareAsWritten | Categories.AdsShare |
