/**
 * project.py: composition lookup and budget costing.
 *
 * The reference table (SINAPI) is a sequence of `Composition` rows; the
 * user's budget is a table of text cells.  The menu loops, console output and
 * file loading are not modelled; their results are parameters here.
 */
module Project {
  import opened Wrappers
  import opened Text
  import opened Numbers
  import opened Prompts

  // ---------------------------------------------------------------------------
  // filename_add_extension (project.py:69-76)
  // ---------------------------------------------------------------------------

  const Extension := ".xlsx"

  /**
   * Strips the name and appends ".xlsx" unless it already ends with it: the
   * result always ends with ".xlsx", and it is the stripped name itself
   * exactly when that already ends with ".xlsx".
   */
  function FilenameAddExtension(filename: string): (r: string)
    ensures EndsWith(r, Extension) && IsStripped(r)
    ensures r == Strip(filename) || r == Strip(filename) + Extension
    ensures r == Strip(filename) <==> EndsWith(Strip(filename), Extension)
  {
    var name := Strip(filename);
    if EndsWith(name, Extension) then name
    else
      var r := name + Extension;
      assert r[|r| - 1] == 'x' && r[0] == (if name == [] then '.' else name[0]);
      r
  }

  /** Adding the extension twice is the same as adding it once. */
  lemma FilenameAddExtensionIdempotent(filename: string)
    ensures FilenameAddExtension(FilenameAddExtension(filename)) == FilenameAddExtension(filename)
  {
    StripStripped(FilenameAddExtension(filename));
  }

  // ---------------------------------------------------------------------------
  // The reference table and filter (project.py:129-141)
  // ---------------------------------------------------------------------------

  /**
   * A "CUSTO TOTAL" cell: the text read from the spreadsheet, or the float
   * that the cost normalisation stored over it.
   */
  datatype CostCell = Raw(text: string) | Number(float: Float)

  /**
   * A row of the reference table: "CODIGO  DA COMPOSICAO",
   * "DESCRICAO DA COMPOSICAO" and "CUSTO TOTAL".
   */
  datatype Composition = Composition(code: int, description: string, cost: CostCell)

  /** `all(keyword in description for keyword in keywords)`: every keyword occurs somewhere in the description. */
  predicate MatchesAll(keywords: seq<string>, description: string)
    ensures MatchesAll(keywords, description) <==>
      forall k :: 0 <= k < |keywords| ==> Occurs(description, keywords[k])
  {
    KeywordsOccur(keywords, description);
    forall k :: 0 <= k < |keywords| ==> Contains(description, keywords[k])
  }

  /** `sub` occurs at some position of `s`. */
  ghost predicate Occurs(s: string, sub: string) {
    exists i :: OccursAt(s, sub, i)
  }

  lemma KeywordsOccur(keywords: seq<string>, description: string)
    ensures (forall k :: 0 <= k < |keywords| ==> Contains(description, keywords[k])) <==>
      forall k :: 0 <= k < |keywords| ==> Occurs(description, keywords[k])
  {
    forall k | 0 <= k < |keywords|
      ensures Contains(description, keywords[k]) <==> Occurs(description, keywords[k])
    {
      ContainsIff(description, keywords[k]);
    }
  }

  /** The list comprehension of `filter`: the descriptions holding every keyword, in table order. */
  function MatchingDescriptions(keywords: seq<string>, rows: seq<Composition>): (r: seq<string>)
    ensures forall d :: d in r ==> MatchesAll(keywords, d)
    ensures forall row :: row in rows && MatchesAll(keywords, row.description) ==> row.description in r
  {
    if rows == [] then []
    else
      (if MatchesAll(keywords, rows[0].description) then [rows[0].description] else [])
        + MatchingDescriptions(keywords, rows[1..])
  }

  /** `df[df["DESCRICAO DA COMPOSICAO"].isin(allowed)]`: the rows whose description is listed, in table order. */
  function SelectByDescription(rows: seq<Composition>, allowed: seq<string>): (r: seq<Composition>)
    ensures forall row :: row in r <==> row in rows && row.description in allowed
  {
    if rows == [] then []
    else
      (if rows[0].description in allowed then [rows[0]] else [])
        + SelectByDescription(rows[1..], allowed)
  }

  /**
   * `filter`: the rows whose description contains every keyword as a
   * substring.  Sound and complete: a row is returned exactly when it is in
   * the table and matches.
   */
  function Filter(keywords: seq<string>, rows: seq<Composition>): (r: seq<Composition>)
    ensures forall row :: row in r <==> row in rows && MatchesAll(keywords, row.description)
  {
    SelectByDescription(rows, MatchingDescriptions(keywords, rows))
  }

  /** The reference meaning of `filter`: one pass over the table keeping the matching rows in order. */
  function Keep(keywords: seq<string>, rows: seq<Composition>): (r: seq<Composition>)
    ensures |r| <= |rows|
    ensures forall row :: row in r <==> row in rows && MatchesAll(keywords, row.description)
  {
    if rows == [] then []
    else (if MatchesAll(keywords, rows[0].description) then [rows[0]] else []) + Keep(keywords, rows[1..])
  }

  /** Selecting from a part of the table by the whole table's matching descriptions keeps exactly the matching rows. */
  lemma {:induction false} SelectIsKeep(keywords: seq<string>, part: seq<Composition>, rows: seq<Composition>)
    requires forall row :: row in part ==> row in rows
    ensures SelectByDescription(part, MatchingDescriptions(keywords, rows)) == Keep(keywords, part)
  {
    if part != [] {
      var row := part[0];
      assert row.description in MatchingDescriptions(keywords, rows) <==> MatchesAll(keywords, row.description);
      SelectIsKeep(keywords, part[1..], rows);
    }
  }

  /** `filter` returns the matching rows in their original order, each once per occurrence. */
  lemma FilterIsKeep(keywords: seq<string>, rows: seq<Composition>)
    ensures Filter(keywords, rows) == Keep(keywords, rows)
  {
    SelectIsKeep(keywords, rows, rows);
  }

  /** With no keywords every row matches. */
  lemma {:induction false} KeepNoKeywords(rows: seq<Composition>)
    ensures Keep([], rows) == rows
  {
    if rows != [] {
      KeepNoKeywords(rows[1..]);
    }
  }

  /** Keeping the kept rows again changes nothing. */
  lemma {:induction false} KeepIdempotent(keywords: seq<string>, rows: seq<Composition>)
    ensures Keep(keywords, Keep(keywords, rows)) == Keep(keywords, rows)
  {
    if rows != [] {
      var rest := Keep(keywords, rows[1..]);
      KeepIdempotent(keywords, rows[1..]);
      if MatchesAll(keywords, rows[0].description) {
        var kept := [rows[0]] + rest;
        assert Keep(keywords, rows) == kept;
        assert kept[0] == rows[0] && kept[1..] == rest;
        assert Keep(keywords, kept) == [rows[0]] + Keep(keywords, rest);
      } else {
        assert Keep(keywords, rows) == rest;
      }
    }
  }

  /** An empty keyword list returns the whole table. */
  lemma FilterNoKeywords(rows: seq<Composition>)
    ensures Filter([], rows) == rows
  {
    FilterIsKeep([], rows);
    KeepNoKeywords(rows);
  }

  /** Filtering the result again with the same keywords changes nothing. */
  lemma FilterIdempotent(keywords: seq<string>, rows: seq<Composition>)
    ensures Filter(keywords, Filter(keywords, rows)) == Filter(keywords, rows)
  {
    FilterIsKeep(keywords, rows);
    FilterIsKeep(keywords, Filter(keywords, rows));
    KeepIdempotent(keywords, rows);
  }

  /**
   * When no description matches, `filter` returns an empty frame rather than
   * raising (project.py:136-141): the "no results" case the lookup menu
   * reports.
   */
  lemma FilterNoMatch(keywords: seq<string>, rows: seq<Composition>)
    requires forall row :: row in rows ==> !MatchesAll(keywords, row.description)
    ensures Filter(keywords, rows) == []
  {
    FilterIsKeep(keywords, rows);
    KeepNoMatch(keywords, rows);
  }

  lemma {:induction false} KeepNoMatch(keywords: seq<string>, rows: seq<Composition>)
    requires forall row :: row in rows ==> !MatchesAll(keywords, row.description)
    ensures Keep(keywords, rows) == []
  {
    if rows != [] {
      assert rows[0] in rows;
      KeepNoMatch(keywords, rows[1..]);
    }
  }

  // ---------------------------------------------------------------------------
  // get_composition_index / get_quantities_index (project.py:271-296)
  // ---------------------------------------------------------------------------

  /**
   * One answer to an index prompt: `int()` of the line, accepted when it lies
   * in `range(columnCount)`.  `None` both where `int()` raises `ValueError`
   * and for an integer out of range: either way the prompt asks again.
   */
  function ColumnIndex(line: string, columnCount: nat): (r: Option<nat>)
    ensures r.Some? <==> ParseInt(line).Some? && 0 <= ParseInt(line).value < columnCount
    ensures r.Some? ==> r.value as int == ParseInt(line).value
  {
    match ParseInt(line)
    case None => None
    case Some(n) => if 0 <= n < columnCount then Some(n as nat) else None
  }

  /** `ColumnIndex` for a budget with `columnCount` columns, as the reader of a prompt. */
  function ColumnIndexReader(columnCount: nat): string -> Option<nat> {
    line => ColumnIndex(line, columnCount)
  }

  /**
   * The answer of an index prompt: the first line naming a column, with the
   * number of lines read.  Lines before it are not integers or are out of
   * range; they are skipped, never clamped.
   */
  function FirstColumnIndex(inputs: seq<string>, columnCount: nat): (r: Option<(nat, nat)>)
    ensures r.Some? ==> r.value.0 < columnCount && 0 < r.value.1 <= |inputs|
    ensures r.Some? ==> ParseInt(inputs[r.value.1 - 1]) == Some(r.value.0 as int)
    ensures r.Some? ==> forall j :: 0 <= j < r.value.1 - 1 ==> ColumnIndex(inputs[j], columnCount).None?
    ensures r.None? <==> forall j :: 0 <= j < |inputs| ==> ColumnIndex(inputs[j], columnCount).None?
  {
    var read := ColumnIndexReader(columnCount);
    var r := FirstAccepted(inputs, read);
    if r.Some? then
      assert read(inputs[r.value.1 - 1]) == Some(r.value.0);
      r
    else r
  }

  /** `get_composition_index`: the first line naming a column of the budget. */
  method GetCompositionIndex(inputs: seq<string>, budgetColumns: seq<string>) returns (index: Option<nat>, used: nat)
    ensures index.Some? ==> FirstColumnIndex(inputs, |budgetColumns|) == Some((index.value, used))
    ensures index.None? <==> FirstColumnIndex(inputs, |budgetColumns|).None?
  {
    index, used := ReadUntilAccepted(inputs, ColumnIndexReader(|budgetColumns|));
  }

  /** `get_quantities_index`: the first line naming a column of the budget. */
  method GetQuantitiesIndex(inputs: seq<string>, budgetColumns: seq<string>) returns (index: Option<nat>, used: nat)
    ensures index.Some? ==> FirstColumnIndex(inputs, |budgetColumns|) == Some((index.value, used))
    ensures index.None? <==> FirstColumnIndex(inputs, |budgetColumns|).None?
  {
    index, used := ReadUntilAccepted(inputs, ColumnIndexReader(|budgetColumns|));
  }

  /**
   * The inputs of test_project.py:27-29 and 38-40: with three columns, "5"
   * and "4" fail the range check of project.py:277 and are asked again, and
   * "1" and "2" are accepted after two lines.
   */
  lemma ColumnIndexExample()
    ensures ColumnIndex("5", 3).None? && ColumnIndex("4", 3).None?
    ensures FirstColumnIndex(["5", "1"], 3) == Some((1, 2))
    ensures FirstColumnIndex(["4", "2"], 3) == Some((2, 2))
  {
    ParseIntText(5);
    ParseIntText(4);
    ParseIntText(2);
    ParseIntText(1);
    assert IntText(5) == "5" && IntText(4) == "4" && IntText(2) == "2" && IntText(1) == "1";
    assert ["5", "1"][1..] == ["1"] && ["4", "2"][1..] == ["2"];
  }

  // ---------------------------------------------------------------------------
  // Numeric text normalisation (project.py:243-244)
  // ---------------------------------------------------------------------------

  /** Line 243: a quantity's decimal comma becomes a point; nothing else changes. */
  function QuantityText(s: string): (r: string)
    ensures |r| == |s| && ',' !in r
    ensures forall i :: 0 <= i < |s| ==> r[i] == if s[i] == ',' then '.' else s[i]
  {
    Replace(s, ',', '.')
  }

  /** Line 244: a cost's thousands points are dropped, then its decimal comma becomes a point. */
  function CostText(s: string): (r: string)
    ensures |r| <= |s| && ',' !in r
    ensures '.' !in s && ',' !in s ==> r == s
  {
    Replace(Remove(s, '.'), ',', '.')
  }

  /** "1.234" written with thousands points: the digit groups joined by '.'. */
  function JoinGroups(groups: seq<string>): string {
    if groups == [] then "" else if |groups| == 1 then groups[0] else groups[0] + "." + JoinGroups(groups[1..])
  }

  function Concat(groups: seq<string>): string {
    if groups == [] then "" else groups[0] + Concat(groups[1..])
  }

  predicate DigitGroups(groups: seq<string>) {
    forall i :: 0 <= i < |groups| ==> AllDigits(groups[i])
  }

  lemma {:induction false} ConcatDigits(groups: seq<string>)
    requires DigitGroups(groups)
    ensures AllDigits(Concat(groups))
  {
    if groups != [] {
      ConcatDigits(groups[1..]);
    }
  }

  /** Dropping the points of grouped digits leaves the digits alone. */
  lemma {:induction false} RemoveGroupPoints(groups: seq<string>)
    requires DigitGroups(groups)
    ensures Remove(JoinGroups(groups), '.') == Concat(groups)
  {
    if |groups| == 1 {
      assert '.' !in groups[0] by {
        assert forall i :: 0 <= i < |groups[0]| ==> IsDigit(groups[0][i]);
      }
      assert Concat(groups) == groups[0] + Concat([]);
    } else if |groups| > 1 {
      var g, tail := groups[0], groups[1..];
      assert '.' !in g by {
        assert forall i :: 0 <= i < |g| ==> IsDigit(g[i]);
      }
      var rest := JoinGroups(tail);
      assert JoinGroups(groups) == g + ("." + rest);
      RemoveGroupPoints(tail);
      RemoveAppend(g, "." + rest, '.');
      RemoveAppend(".", rest, '.');
      assert Remove(".", '.') == [];
      assert Remove("." + rest, '.') == Concat(tail);
      assert Concat(groups) == g + Concat(tail);
    }
  }

  /** Dropping points leaves a comma and point-free fraction in place. */
  lemma RemovePointsBeforeComma(g: string, fraction: string)
    requires '.' !in fraction
    ensures Remove(g + "," + fraction, '.') == Remove(g, '.') + "," + fraction
  {
    RemoveAppend(g, "," + fraction, '.');
    RemoveAppend(",", fraction, '.');
    assert Remove(",", '.') == ",";
    assert g + "," + fraction == g + ("," + fraction);
  }

  /** Replacing the only comma of text turns it into a point. */
  lemma ReplaceOnlyComma(c: string, fraction: string)
    requires ',' !in c && ',' !in fraction
    ensures Replace(c + "," + fraction, ',', '.') == c + "." + fraction
  {
    var s, r := c + "," + fraction, c + "." + fraction;
    assert forall i :: 0 <= i < |c| ==> s[i] == c[i] && r[i] == c[i];
    assert forall i :: |c| < i < |s| ==> s[i] == fraction[i - |c| - 1] && r[i] == fraction[i - |c| - 1];
  }

  lemma DigitsHaveNoSeparators(s: string)
    requires AllDigits(s)
    ensures '.' !in s && ',' !in s
  {
    assert forall i :: 0 <= i < |s| ==> IsDigit(s[i]);
  }

  /**
   * The cost rule on thousands-grouped comma-decimal text ("1.234,56")
   * gives the plain positional text ("1234.56").
   */
  lemma CostTextOfLocale(groups: seq<string>, fraction: string)
    requires DigitGroups(groups) && AllDigits(fraction)
    ensures CostText(JoinGroups(groups) + "," + fraction) == Concat(groups) + "." + fraction
  {
    DigitsHaveNoSeparators(fraction);
    RemovePointsBeforeComma(JoinGroups(groups), fraction);
    RemoveGroupPoints(groups);
    ConcatDigits(groups);
    DigitsHaveNoSeparators(Concat(groups));
    ReplaceOnlyComma(Concat(groups), fraction);
  }

  /** The cost rule parses thousands-grouped comma-decimal text to the number it denotes. */
  lemma CostValueOfLocale(groups: seq<string>, fraction: string)
    requires DigitGroups(groups) && AllDigits(fraction) && |Concat(groups)| >= 1 && |fraction| >= 1
    ensures AllDigits(Concat(groups))
    ensures ParseFloat(CostText(JoinGroups(groups) + "," + fraction)).Some?
    ensures ParseFloat(CostText(JoinGroups(groups) + "," + fraction)).value.value
         == DigitsValue(Concat(groups)) as real + FractionValue(fraction)
  {
    CostTextOfLocale(groups, fraction);
    ConcatDigits(groups);
    ParseNormalised(CostText(JoinGroups(groups) + "," + fraction), Concat(groups), fraction);
  }

  /** Normalised text of the form digits "." digits parses to the number it denotes. */
  lemma ParseNormalised(t: string, whole: string, fraction: string)
    requires AllDigits(whole) && AllDigits(fraction) && |whole| >= 1 && |fraction| >= 1
    requires t == whole + "." + fraction
    ensures ParseFloat(t).Some? && ParseFloat(t).value.value == DigitsValue(whole) as real + FractionValue(fraction)
  {
    ParsePositional(whole, fraction);
  }

  /** The quantity rule on comma-decimal text ("1234,56") gives positional text ("1234.56"). */
  lemma QuantityTextOfLocale(whole: string, fraction: string)
    requires AllDigits(whole) && AllDigits(fraction)
    ensures QuantityText(whole + "," + fraction) == whole + "." + fraction
  {
    var s := whole + "," + fraction;
    assert forall i :: 0 <= i < |whole| ==> IsDigit(s[i]);
    assert forall i :: |whole| < i < |s| ==> IsDigit(s[i]);
  }

  /** The quantity rule on "1234,56". */
  lemma QuantityExample()
    ensures QuantityText("1234,56") == "1234.56"
  {
    QuantityTextOfLocale("1234", "56");
    assert "1234" + "," + "56" == "1234,56";
  }

  /** The cost rule on "1.234,56". */
  lemma CostExample()
    ensures CostText("1.234,56") == "1234.56"
  {
    var groups := ["1", "234"];
    CostTextOfLocale(groups, "56");
    var joined := JoinGroups(groups);
    assert joined == "1" + "." + JoinGroups(["234"]);
    assert joined + "," + "56" == "1.234,56";
    var digits := Concat(groups);
    assert digits == "1" + ("234" + Concat([]));
    assert digits + "." + "56" == "1234.56";
  }

  /** The cost rule is not idempotent: on text it already produced, it drops the decimal point. */
  lemma RemoveGroupPoint()
    ensures Remove("1234.56", '.') == "123456"
  {
    var groups := ["1234", "56"];
    assert DigitGroups(groups);
    assert JoinGroups(groups) == "1234.56";
    assert Concat(groups) == "123456";
    RemoveGroupPoints(groups);
  }

  lemma CostTextDropsPoint()
    ensures CostText("1234.56") == "123456"
  {
    RemoveGroupPoint();
    var t := Remove("1234.56", '.');
    var r := Replace(t, ',', '.');
    assert forall i :: 0 <= i < |r| ==> r[i] == t[i];
    assert r == t;
    assert CostText("1234.56") == r;
  }

  /** Applying the cost rule to its own result changes it. */
  lemma CostTextNotIdempotent()
    ensures CostText(CostText("1.234,56")) == "123456" != CostText("1.234,56")
  {
    CostExample();
    CostTextDropsPoint();
  }

  // ---------------------------------------------------------------------------
  // Converting "CUSTO TOTAL" (project.py:244)
  // ---------------------------------------------------------------------------

  /** `str(x)` of a "CUSTO TOTAL" cell: the text as read, or the printed float. */
  function CellText(c: CostCell): string {
    match c
    case Raw(text) => text
    case Number(f) => f.text
  }

  /** `float(str(x))` of a float Python printed itself gives that float back, value and text. */
  lemma CellTextRoundTrip(d: Decimal)
    requires WellFormed(d)
    ensures var f := Float(Value(d), FloatText(d));
      ParseFloat(CellText(Number(f))) == Some(f)
  {
    FloatTextRoundTrip(d);
  }

  /**
   * Line 244's lambda on one cell; `None` where `float()` raises `ValueError`.
   * Every cell is converted from the text `str()` gives for it, so a float
   * already stored is treated as if it were still text.
   */
  function ConvertCell(c: CostCell): (r: Option<Float>)
    ensures r == CellCost(Raw(CellText(c)))
  {
    var t := CellText(c);
    assert CellCost(Raw(t)) == ParseFloat(CostText(t));
    ParseFloat(CostText(t))
  }

  /** Every "CUSTO TOTAL" cell holds a float. */
  predicate Normalised(rows: seq<Composition>) {
    forall row :: row in rows ==> row.cost.Number?
  }

  /**
   * `df["CUSTO TOTAL"].apply(convert)` stored back into the column: every cell
   * is converted, in table order.  It succeeds exactly when every cell
   * converts; otherwise `apply` raises and the column keeps its old values.
   */
  function MapCosts(rows: seq<Composition>, convert: CostCell -> Option<Float>): (r: Option<seq<Composition>>)
    ensures r.Some? <==> forall i :: 0 <= i < |rows| ==> convert(rows[i].cost).Some?
    ensures r.Some? ==> |r.value| == |rows| && Normalised(r.value)
    ensures r.Some? ==> forall i :: 0 <= i < |rows| ==>
      r.value[i] == rows[i].(cost := Number(convert(rows[i].cost).value))
  {
    if rows == [] then Some([])
    else
      var first := convert(rows[0].cost);
      var rest := MapCosts(rows[1..], convert);
      if first.Some? && rest.Some? then Some([rows[0].(cost := Number(first.value))] + rest.value)
      else
        assert exists i :: 0 <= i < |rows| && convert(rows[i].cost).None? by {
          if first.Some? {
            var j :| 0 <= j < |rows[1..]| && convert(rows[1..][j].cost).None?;
            assert convert(rows[j + 1].cost).None?;
          }
        }
        None
  }

  /**
   * Line 244 as written: every cell is printed, rewritten and parsed again,
   * including the floats an earlier costing stored in the shared table.
   */
  function ConvertCostsAsWritten(rows: seq<Composition>): (r: Option<seq<Composition>>)
    ensures r.Some? <==> forall i :: 0 <= i < |rows| ==> ConvertCell(rows[i].cost).Some?
    ensures r.Some? ==> |r.value| == |rows| && Normalised(r.value)
    ensures r.Some? ==> forall i :: 0 <= i < |rows| ==>
      r.value[i] == rows[i].(cost := Number(ConvertCell(rows[i].cost).value))
  {
    MapCosts(rows, ConvertCell)
  }

  /** The cost a cell stands for: a float already stored is kept; text goes through line 244's rule. */
  function CellCost(c: CostCell): (r: Option<Float>)
    ensures c.Number? ==> r == Some(c.float)
  {
    match c
    case Number(f) => Some(f)
    case Raw(text) => ParseFloat(CostText(text))
  }

  /** The conversion line 244 evidently intends: text cells are rewritten and parsed, floats are kept. */
  function ConvertCostsOnce(rows: seq<Composition>): (r: Option<seq<Composition>>)
    ensures r.Some? <==> forall i :: 0 <= i < |rows| ==> CellCost(rows[i].cost).Some?
    ensures r.Some? ==> |r.value| == |rows| && Normalised(r.value)
    ensures r.Some? ==> forall i :: 0 <= i < |rows| ==>
      r.value[i] == rows[i].(cost := Number(CellCost(rows[i].cost).value))
    ensures r.Some? ==> forall i :: 0 <= i < |rows| && rows[i].cost.Number? ==> r.value[i] == rows[i]
  {
    MapCosts(rows, CellCost)
  }

  /** Conversions that agree on every cell of the table give the same column. */
  lemma MapCostsAgree(rows: seq<Composition>, f: CostCell -> Option<Float>, g: CostCell -> Option<Float>)
    requires forall i :: 0 <= i < |rows| ==> f(rows[i].cost) == g(rows[i].cost)
    ensures MapCosts(rows, f) == MapCosts(rows, g)
  {
    if MapCosts(rows, f).Some? {
      var a, b := MapCosts(rows, f).value, MapCosts(rows, g).value;
      assert forall i :: 0 <= i < |rows| ==> a[i] == b[i];
    }
  }

  /** A conversion that gives back every cell's own float leaves the column as it is. */
  lemma MapCostsKeeps(rows: seq<Composition>, convert: CostCell -> Option<Float>)
    requires forall i :: 0 <= i < |rows| ==> rows[i].cost.Number? && convert(rows[i].cost) == Some(rows[i].cost.float)
    ensures MapCosts(rows, convert) == Some(rows)
  {
    assert MapCosts(rows, convert).Some?;
    var r := MapCosts(rows, convert).value;
    assert forall i :: 0 <= i < |rows| ==> r[i] == rows[i];
    assert r == rows;
  }

  /** A table whose costs are all floats is left as it is. */
  lemma ConvertNormalisedUnchanged(rows: seq<Composition>)
    requires Normalised(rows)
    ensures ConvertCostsOnce(rows) == Some(rows)
  {
    forall i | 0 <= i < |rows|
      ensures rows[i].cost.Number? && CellCost(rows[i].cost) == Some(rows[i].cost.float)
    {
      assert rows[i] in rows;
    }
    MapCostsKeeps(rows, CellCost);
  }

  /** Converting a second time changes nothing. */
  lemma ConvertCostsOnceIdempotent(rows: seq<Composition>)
    requires ConvertCostsOnce(rows).Some?
    ensures ConvertCostsOnce(ConvertCostsOnce(rows).value) == ConvertCostsOnce(rows)
  {
    ConvertNormalisedUnchanged(ConvertCostsOnce(rows).value);
  }

  /** On a table as read from the spreadsheet, where every cost is text, both conversions agree. */
  lemma ConvertAgreesOnRaw(rows: seq<Composition>)
    requires forall i :: 0 <= i < |rows| ==> rows[i].cost.Raw?
    ensures ConvertCostsAsWritten(rows) == ConvertCostsOnce(rows)
  {
    forall i | 0 <= i < |rows|
      ensures ConvertCell(rows[i].cost) == CellCost(rows[i].cost)
    {
      var t := rows[i].cost.text;
      assert rows[i].cost == Raw(t);
      assert CellText(Raw(t)) == t;
    }
    MapCostsAgree(rows, ConvertCell, CellCost);
  }

  /** The cost rule on "1,5". */
  lemma CostTextOneAndAHalf()
    ensures CostText("1,5") == "1.5"
  {
    CostTextOfLocale(["1"], "5");
    assert JoinGroups(["1"]) + "," + "5" == "1,5";
    assert Concat(["1"]) == "1" + Concat([]);
    assert Concat(["1"]) + "." + "5" == "1.5";
  }

  /** `float("1.5")` is 1.5, printed "1.5". */
  lemma ParseOneAndAHalf()
    ensures ParseFloat("1.5") == Some(Float(1.5, "1.5"))
  {
    assert "1" + "." + "5" == "1.5";
    assert Value(Decimal(false, "1", "5")) == 1.5 by {
      assert DigitsValue("1") == 1 && DigitsValue("5") == 5;
    }
    ParseCanonical("1", "5");
  }

  /** The cost rule on the printed float "1.5" drops its decimal point. */
  lemma CostTextPrintedOneAndAHalf()
    ensures CostText("1.5") == "15"
  {
    var t := Remove("1.5", '.');
    assert t == "15";
    var r := Replace(t, ',', '.');
    assert forall i :: 0 <= i < |r| ==> r[i] == t[i];
    assert r == t;
  }

  /** `float("15")` is 15, printed "15.0". */
  lemma ParseFifteen()
    ensures ParseFloat("15") == Some(Float(15.0, "15.0"))
  {
    FifteenText();
    assert NatText(15) + ".0" == "15.0";
    ParseWhole("15");
  }

  /** The digits "15" denote 15, which prints as "15". */
  lemma FifteenText()
    ensures AllDigits("15") && DigitsValue("15") == 15 && NatText(15) == "15"
  {
    assert "15"[..1] == "1";
  }

  /** "1,5" converts to the float 1.5, printed "1.5", under both conversions. */
  lemma ConvertOneAndAHalf()
    ensures CellCost(Raw("1,5")) == Some(Float(1.5, "1.5"))
    ensures ConvertCell(Raw("1,5")) == Some(Float(1.5, "1.5"))
  {
    CostTextOneAndAHalf();
    ParseOneAndAHalf();
    assert CellText(Raw("1,5")) == "1,5";
  }

  /** The printed float "1.5" goes through line 244's rule as the whole number 15. */
  lemma ConvertPrintedOneAndAHalf()
    ensures ConvertCell(Number(Float(1.5, "1.5"))) == Some(Float(15.0, "15.0"))
  {
    CostTextPrintedOneAndAHalf();
    ParseFifteen();
    assert CellText(Number(Float(1.5, "1.5"))) == "1.5";
  }

  /** A one-row table under a conversion. */
  lemma MapCostsSingle(row: Composition, convert: CostCell -> Option<Float>)
    ensures convert(row.cost).Some? ==> MapCosts([row], convert) == Some([row.(cost := Number(convert(row.cost).value))])
    ensures convert(row.cost).None? ==> MapCosts([row], convert) == None
  {
    assert [row][1..] == [];
    if convert(row.cost).Some? {
      var r := MapCosts([row], convert).value;
      assert r == [r[0]];
    }
  }

  /**
   * Costing twice with the same reference table, as the main menu allows,
   * converts the stored floats again: the cost written "1,5" becomes 1.5 on the
   * first run and 15 on the second.
   */
  lemma ConvertAsWrittenTwice(code: int, description: string)
    ensures var first := ConvertCostsAsWritten([Composition(code, description, Raw("1,5"))]);
      && first == Some([Composition(code, description, Number(Float(1.5, "1.5")))])
      && ConvertCostsAsWritten(first.value) == Some([Composition(code, description, Number(Float(15.0, "15.0")))])
  {
    ConvertOneAndAHalf();
    ConvertPrintedOneAndAHalf();
    var row := Composition(code, description, Raw("1,5"));
    MapCostsSingle(row, ConvertCell);
    MapCostsSingle(row.(cost := Number(Float(1.5, "1.5"))), ConvertCell);
  }

  /** The corrected conversion keeps the cost at 1.5 however often the table is costed. */
  lemma ConvertOnceTwice(code: int, description: string)
    ensures var first := ConvertCostsOnce([Composition(code, description, Raw("1,5"))]);
      && first == Some([Composition(code, description, Number(Float(1.5, "1.5")))])
      && ConvertCostsOnce(first.value) == first
  {
    ConvertOneAndAHalf();
    var row := Composition(code, description, Raw("1,5"));
    MapCostsSingle(row, CellCost);
    ConvertCostsOnceIdempotent([row]);
  }

  /** The SINAPI dataframe, which `calculate_total_cost` updates in place and the main menu shares between runs. */
  class ReferenceTable {
    var rows: seq<Composition>

    constructor (rows: seq<Composition>)
      ensures this.rows == rows
    {
      this.rows := rows;
    }

    /** Line 244 as written: the column is overwritten when every cell converts, and kept otherwise. */
    method NormaliseCostsAsWritten() returns (ok: bool)
      modifies this
      ensures ok <==> ConvertCostsAsWritten(old(rows)).Some?
      ensures rows == if ok then ConvertCostsAsWritten(old(rows)).value else old(rows)
    {
      var converted := ConvertCostsAsWritten(rows);
      if converted.Some? {
        rows := converted.value;
        return true;
      }
      return false;
    }

    /** The corrected line 244: only text cells are converted, so a second call changes nothing. */
    method NormaliseCosts() returns (ok: bool)
      modifies this
      ensures ok <==> ConvertCostsOnce(old(rows)).Some?
      ensures rows == if ok then ConvertCostsOnce(old(rows)).value else old(rows)
      ensures ok ==> Normalised(rows)
    {
      var converted := ConvertCostsOnce(rows);
      if converted.Some? {
        rows := converted.value;
        return true;
      }
      return false;
    }
  }

  // ---------------------------------------------------------------------------
  // The budget and its left join to the reference table (project.py:243, 247-257)
  // ---------------------------------------------------------------------------

  /** Why `calculate_total_cost` stops: an index prompt ran out of input, or a conversion raised. */
  datatype CostError = NoColumnIndex | QuantityNotNumeric | CostNotNumeric | CodeNotInteger

  /** The user's budget as read from CSV: column names and rows of text cells. */
  datatype Budget = Budget(columns: seq<string>, rows: seq<seq<string>>)

  predicate WellFormedBudget(budget: Budget) {
    forall i :: 0 <= i < |budget.rows| ==> |budget.rows[i]| == |budget.columns|
  }

  /** A budget row with its composition code and its quantity as converted by line 243. */
  datatype BudgetLine = BudgetLine(cells: seq<string>, code: int, quantity: real)

  /** Line 243 on one cell; `None` where `float()` raises `ValueError`. */
  function QuantityOf(cell: string): (r: Option<real>)
    ensures r.Some? ==> forall k :: 0 <= k < |cell| ==>
      IsDigit(cell[k]) || IsSpace(cell[k]) || cell[k] == '.' || cell[k] == ',' || cell[k] == '-' || cell[k] == '+'
  {
    match ParseFloat(QuantityText(cell))
    case Some(f) => Some(f.value)
    case None => None
  }

  /**
   * `df_budget[column].apply(parse)`: the cells of column `k` parsed in row
   * order.  It succeeds exactly when every cell parses; otherwise `apply`
   * raises.
   */
  function ParseColumn<T>(rows: seq<seq<string>>, k: nat, parse: string -> Option<T>): (r: Option<seq<T>>)
    requires forall i :: 0 <= i < |rows| ==> k < |rows[i]|
    ensures r.Some? <==> forall i :: 0 <= i < |rows| ==> parse(rows[i][k]).Some?
    ensures r.Some? ==> |r.value| == |rows| && forall i :: 0 <= i < |rows| ==> r.value[i] == parse(rows[i][k]).value
  {
    if rows == [] then Some([])
    else
      var first := parse(rows[0][k]);
      var rest := ParseColumn(rows[1..], k, parse);
      if first.Some? && rest.Some? then Some([first.value] + rest.value)
      else
        assert exists i :: 0 <= i < |rows| && parse(rows[i][k]).None? by {
          if first.Some? {
            var j :| 0 <= j < |rows[1..]| && parse(rows[1..][j][k]).None?;
            assert rows[1..][j] == rows[j + 1];
          }
        }
        None
  }

  /** The budget rows as the merge sees them: each with its code and its converted quantity. */
  function Lines(rows: seq<seq<string>>, codes: seq<int>, quantities: seq<real>): (r: seq<BudgetLine>)
    requires |codes| == |rows| && |quantities| == |rows|
    ensures |r| == |rows| && forall i :: 0 <= i < |rows| ==> r[i] == BudgetLine(rows[i], codes[i], quantities[i])
  {
    seq(|rows|, i requires 0 <= i < |rows| => BudgetLine(rows[i], codes[i], quantities[i]))
  }

  /** The reference rows whose code equals `code`, in table order. */
  function Matches(code: int, reference: seq<Composition>): (r: seq<Composition>)
    ensures forall row :: row in r <==> row in reference && row.code == code
  {
    if reference == [] then []
    else (if reference[0].code == code then [reference[0]] else []) + Matches(code, reference[1..])
  }

  /** A row of `left_join`: the budget row, the matched reference row (or none) and "_Total_Cost". */
  datatype JoinedRow = JoinedRow(line: BudgetLine, reference: Option<Composition>, lineCost: Option<real>)

  /** The float in a converted "CUSTO TOTAL" cell. */
  function UnitCost(row: Composition): real
    requires row.cost.Number?
  {
    row.cost.float.value
  }

  /** The joined row for `line` and one matching reference row: "_Total_Cost" is quantity times unit cost. */
  function Joined(line: BudgetLine, row: Composition): JoinedRow
    requires row.cost.Number?
  {
    JoinedRow(line, Some(row), Some(line.quantity * UnitCost(row)))
  }

  /**
   * The left join for one budget row: one joined row per matching reference
   * row, in table order, or a single row with no reference and no cost
   * (pandas' NaN) when nothing matches.
   */
  function JoinLine(line: BudgetLine, reference: seq<Composition>): (r: seq<JoinedRow>)
    requires Normalised(reference)
    ensures |r| >= 1 && forall j :: 0 <= j < |r| ==> r[j].line == line
    ensures Matches(line.code, reference) == [] ==> r == [JoinedRow(line, None, None)]
    ensures var m := Matches(line.code, reference);
      m != [] ==> |r| == |m| && forall j :: 0 <= j < |m| ==> m[j].cost.Number? && r[j] == Joined(line, m[j])
  {
    var m := Matches(line.code, reference);
    if m == [] then [JoinedRow(line, None, None)]
    else
      assert forall j :: 0 <= j < |m| ==> m[j] in reference;
      seq(|m|, j requires 0 <= j < |m| => Joined(line, m[j]))
  }

  /** `df_budget.merge(df, left_on=..., right_on="CODIGO  DA COMPOSICAO", how="left")`, in budget order. */
  function LeftJoin(lines: seq<BudgetLine>, reference: seq<Composition>): (r: seq<JoinedRow>)
    requires Normalised(reference)
    ensures |r| >= |lines|
  {
    if lines == [] then [] else JoinLine(lines[0], reference) + LeftJoin(lines[1..], reference)
  }

  /** No two reference rows share a code. */
  predicate UniqueCodes(reference: seq<Composition>) {
    forall i, j :: 0 <= i < j < |reference| ==> reference[i].code != reference[j].code
  }

  /** The joined row for `line` when codes are unique: the row with its code, if any. */
  function JoinRow(line: BudgetLine, reference: seq<Composition>): JoinedRow
    requires Normalised(reference)
  {
    var m := Matches(line.code, reference);
    if m == [] then JoinedRow(line, None, None)
    else
      assert m[0] in reference;
      Joined(line, m[0])
  }

  /** A joined row is sound for `reference`: its matched row carries the row's code, and it has no match only when no reference row has that code. */
  predicate SoundJoin(row: JoinedRow, reference: seq<Composition>) {
    match row.reference
    case Some(match_) => match_ in reference && match_.code == row.line.code
    case None => Matches(row.line.code, reference) == []
  }

  /** Every row `JoinLine` produces is sound. */
  lemma JoinLineSound(line: BudgetLine, reference: seq<Composition>)
    requires Normalised(reference)
    ensures forall j :: 0 <= j < |JoinLine(line, reference)| ==> SoundJoin(JoinLine(line, reference)[j], reference)
  {
    var m := Matches(line.code, reference);
    var r := JoinLine(line, reference);
    forall j | 0 <= j < |r|
      ensures SoundJoin(r[j], reference)
    {
      if m != [] {
        assert r[j] == Joined(line, m[j]) && m[j] in m;
      }
    }
  }

  /** Some row of the join `r` belongs to the budget row `line`. */
  predicate Survives(line: BudgetLine, r: seq<JoinedRow>) {
    exists j :: 0 <= j < |r| && r[j].line == line
  }

  /** Every budget row survives into the left join, whatever the reference table's codes. */
  lemma {:induction false} LeftJoinKeepsLines(lines: seq<BudgetLine>, reference: seq<Composition>)
    requires Normalised(reference)
    ensures forall i :: 0 <= i < |lines| ==> Survives(lines[i], LeftJoin(lines, reference))
  {
    if lines != [] {
      var first, rest := JoinLine(lines[0], reference), LeftJoin(lines[1..], reference);
      var r := LeftJoin(lines, reference);
      assert r == first + rest;
      LeftJoinKeepsLines(lines[1..], reference);
      forall i | 0 <= i < |lines|
        ensures Survives(lines[i], r)
      {
        if i == 0 {
          assert r[0] == first[0];
        } else {
          assert lines[i] == lines[1..][i - 1];
          var k :| 0 <= k < |rest| && rest[k].line == lines[1..][i - 1];
          assert r[|first| + k] == rest[k];
        }
      }
    }
  }

  /**
   * Every row of the left join comes from a budget row, and its match is a
   * reference row with that row's code: reference rows that match no budget
   * row are dropped.
   */
  lemma {:induction false} LeftJoinRowsSound(lines: seq<BudgetLine>, reference: seq<Composition>)
    requires Normalised(reference)
    ensures forall j :: 0 <= j < |LeftJoin(lines, reference)| ==>
      LeftJoin(lines, reference)[j].line in lines && SoundJoin(LeftJoin(lines, reference)[j], reference)
  {
    if lines != [] {
      var first, rest := JoinLine(lines[0], reference), LeftJoin(lines[1..], reference);
      var r := LeftJoin(lines, reference);
      assert r == first + rest;
      LeftJoinRowsSound(lines[1..], reference);
      JoinLineSound(lines[0], reference);
      forall j | 0 <= j < |r|
        ensures r[j].line in lines && SoundJoin(r[j], reference)
      {
        if j < |first| {
          assert r[j] == first[j];
        } else {
          assert r[j] == rest[j - |first|];
          assert rest[j - |first|].line in lines[1..];
        }
      }
    }
  }

  /** No row has the code: nothing matches. */
  lemma {:induction false} MatchesNone(code: int, reference: seq<Composition>)
    requires forall j :: 0 <= j < |reference| ==> reference[j].code != code
    ensures Matches(code, reference) == []
  {
    if reference != [] {
      MatchesNone(code, reference[1..]);
    }
  }

  /** With unique codes at most one reference row matches a code. */
  lemma {:induction false} MatchesUnique(code: int, reference: seq<Composition>)
    requires UniqueCodes(reference)
    ensures |Matches(code, reference)| <= 1
  {
    if reference != [] {
      var rest := reference[1..];
      assert UniqueCodes(rest) by {
        assert forall i :: 0 <= i < |rest| ==> rest[i] == reference[i + 1];
      }
      MatchesUnique(code, rest);
      if reference[0].code == code {
        forall j | 0 <= j < |rest|
          ensures rest[j].code != code
        {
          assert rest[j] == reference[j + 1];
        }
        MatchesNone(code, rest);
      }
    }
  }

  /** With unique codes one budget row joins to exactly its `JoinRow`. */
  lemma JoinLineUnique(line: BudgetLine, reference: seq<Composition>)
    requires Normalised(reference) && UniqueCodes(reference)
    ensures JoinLine(line, reference) == [JoinRow(line, reference)]
  {
    MatchesUnique(line.code, reference);
  }

  /** With unique codes the join has one row per budget row, in budget order. */
  lemma {:induction false} LeftJoinUnique(lines: seq<BudgetLine>, reference: seq<Composition>)
    requires Normalised(reference) && UniqueCodes(reference)
    ensures var r := LeftJoin(lines, reference);
      |r| == |lines| && forall i :: 0 <= i < |lines| ==> r[i] == JoinRow(lines[i], reference)
  {
    if lines != [] {
      JoinLineUnique(lines[0], reference);
      LeftJoinUnique(lines[1..], reference);
      var first, rest := JoinLine(lines[0], reference), LeftJoin(lines[1..], reference);
      var r := LeftJoin(lines, reference);
      assert r == first + rest;
      forall i | 0 <= i < |lines|
        ensures r[i] == JoinRow(lines[i], reference)
      {
        if i > 0 {
          assert r[i] == rest[i - 1] && lines[i] == lines[1..][i - 1];
        }
      }
    }
  }

  /** `left_join["_Total_Cost"].sum()`: the sum over rows that have a cost (NaN is skipped; no costs give 0). */
  function Total(rows: seq<JoinedRow>): (r: real)
    ensures (forall i :: 0 <= i < |rows| && rows[i].lineCost.Some? ==> rows[i].lineCost.value >= 0.0) ==> r >= 0.0
  {
    if rows == [] then 0.0
    else (if rows[0].lineCost.Some? then rows[0].lineCost.value else 0.0) + Total(rows[1..])
  }

  /** The number of rows that have a cost. */
  function CostedCount(rows: seq<JoinedRow>): (n: nat)
    ensures n <= |rows|
    ensures n == 0 <==> forall i :: 0 <= i < |rows| ==> rows[i].lineCost.None?
  {
    if rows == [] then 0
    else
      var n := (if rows[0].lineCost.Some? then 1 else 0) + CostedCount(rows[1..]);
      assert forall i :: 1 <= i < |rows| ==> rows[i] == rows[1..][i - 1];
      n
  }

  /** `left_join["_Total_Cost"].mean()`: NaN (`None`) when no row has a cost. */
  function Mean(rows: seq<JoinedRow>): (r: Option<real>)
    ensures r.None? <==> forall i :: 0 <= i < |rows| ==> rows[i].lineCost.None?
    ensures r.Some? ==> r.value * CostedCount(rows) as real == Total(rows)
  {
    var n := CostedCount(rows);
    if n == 0 then None else Some(Total(rows) / n as real)
  }

  /** Rows without a cost add nothing to the total. */
  lemma {:induction false} TotalUncosted(rows: seq<JoinedRow>)
    requires forall i :: 0 <= i < |rows| ==> rows[i].lineCost.None?
    ensures Total(rows) == 0.0
  {
    if rows != [] {
      assert forall i :: 0 <= i < |rows[1..]| ==> rows[1..][i] == rows[i + 1];
      TotalUncosted(rows[1..]);
    }
  }

  /** The total of a join adds up the line totals. */
  lemma {:induction false} TotalAppend(a: seq<JoinedRow>, b: seq<JoinedRow>)
    ensures Total(a + b) == Total(a) + Total(b)
  {
    if a != [] {
      assert (a + b)[1..] == a[1..] + b;
      TotalAppend(a[1..], b);
    } else {
      assert a + b == b;
    }
  }

  /** The total of a budget, line by line: quantity times unit cost for each matched line. */
  function LinesTotal(lines: seq<BudgetLine>, reference: seq<Composition>): real
    requires Normalised(reference)
  {
    if lines == [] then 0.0
    else
      var row := JoinRow(lines[0], reference);
      (if row.lineCost.Some? then row.lineCost.value else 0.0) + LinesTotal(lines[1..], reference)
  }

  /** With unique codes the join's total is the sum of quantity times unit cost over the matched lines. */
  lemma {:induction false} TotalOfJoin(lines: seq<BudgetLine>, reference: seq<Composition>)
    requires Normalised(reference) && UniqueCodes(reference)
    ensures Total(LeftJoin(lines, reference)) == LinesTotal(lines, reference)
  {
    if lines != [] {
      MatchesUnique(lines[0].code, reference);
      var first := JoinLine(lines[0], reference);
      assert first == [JoinRow(lines[0], reference)];
      TotalAppend(first, LeftJoin(lines[1..], reference));
      TotalOfJoin(lines[1..], reference);
    }
  }

  /** When no budget code is in the reference table, every row is unmatched: the total is 0 and the mean is NaN. */
  lemma {:induction false} AllUnmatched(lines: seq<BudgetLine>, reference: seq<Composition>)
    requires Normalised(reference)
    requires forall i :: 0 <= i < |lines| ==> Matches(lines[i].code, reference) == []
    ensures var r := LeftJoin(lines, reference);
      |r| == |lines| && Total(r) == 0.0 && Mean(r).None?
  {
    if lines != [] {
      AllUnmatched(lines[1..], reference);
      var r := LeftJoin(lines, reference);
      var rest := LeftJoin(lines[1..], reference);
      assert r == [JoinedRow(lines[0], None, None)] + rest;
      assert forall i :: 1 <= i < |r| ==> r[i] == rest[i - 1];
      assert forall i :: 0 <= i < |rest| ==> rest[i].lineCost.None?;
      TotalUncosted(r);
    }
  }

  /**
   * Two budget lines, coded 1 and 2, against reference codes 1 and 3: the
   * left merge of project.py:247-251 keeps the unmatched line with no cost,
   * and the sum and mean of project.py:256-257 skip it.
   */
  lemma JoinExample(cells: seq<string>)
    ensures var a, b := BudgetLine(cells, 1, 2.0), BudgetLine(cells, 2, 3.0);
      var c1, c3 := Composition(1, "a", Number(Float(10.0, "10.0"))), Composition(3, "b", Number(Float(5.0, "5.0")));
      var r := LeftJoin([a, b], [c1, c3]);
      && r == [JoinedRow(a, Some(c1), Some(20.0)), JoinedRow(b, None, None)]
      && Total(r) == 20.0 && Mean(r) == Some(20.0)
  {
    var a, b := BudgetLine(cells, 1, 2.0), BudgetLine(cells, 2, 3.0);
    var c1, c3 := Composition(1, "a", Number(Float(10.0, "10.0"))), Composition(3, "b", Number(Float(5.0, "5.0")));
    var reference := [c1, c3];
    assert reference[1..] == [c3] && [c3][1..] == [];
    assert Matches(1, [c3]) == [] + Matches(1, []);
    assert Matches(1, reference) == [c1] + Matches(1, [c3]);
    assert Matches(2, [c3]) == [] + Matches(2, []);
    assert Matches(2, reference) == [] + Matches(2, [c3]);
    assert [a, b][1..] == [b] && [b][1..] == [];
    var first := JoinLine(a, reference);
    assert first == [Joined(a, c1)];
    var r := LeftJoin([a, b], reference);
    assert LeftJoin([b], reference) == JoinLine(b, reference) + LeftJoin([], reference);
    assert r == first + LeftJoin([b], reference);
    assert r == [JoinedRow(a, Some(c1), Some(20.0)), JoinedRow(b, None, None)];
    var tail := [JoinedRow(b, None, None)];
    assert tail[1..] == [];
    assert Total(tail) == 0.0 && CostedCount(tail) == 0;
    assert r[1..] == tail;
    assert Total(r) == 20.0 && CostedCount(r) == 1;
  }

  // ---------------------------------------------------------------------------
  // calculate_total_cost (project.py:213-257)
  // ---------------------------------------------------------------------------

  /** The two index prompts in turn: the quantities prompt reads the lines the composition prompt left. */
  function PromptIndices(inputs: seq<string>, columnCount: nat): (r: Option<(nat, nat)>)
    ensures r.Some? ==> r.value.0 < columnCount && r.value.1 < columnCount
  {
    match FirstColumnIndex(inputs, columnCount)
    case None => None
    case Some((ci, used)) =>
      match FirstColumnIndex(inputs[used..], columnCount)
      case None => None
      case Some((qi, _)) => Some((ci, qi))
  }

  /** What `calculate_total_cost` prints: the joined rows, the sum and the mean of "_Total_Cost". */
  datatype CostReport = CostReport(joined: seq<JoinedRow>, total: real, mean: Option<real>)

  /**
   * Lines 243-257 for chosen columns, with the corrected cost conversion: the
   * report, and the reference table as the run leaves it.  The quantities are
   * converted first, then the shared table's costs (which stay converted even
   * when the merge then fails on a non-integer code).
   */
  function Costing(reference: seq<Composition>, budget: Budget, ci: nat, qi: nat): (r: (Result<CostReport, CostError>, seq<Composition>))
    requires WellFormedBudget(budget) && ci < |budget.columns| && qi < |budget.columns|
    ensures r.0 == Err(QuantityNotNumeric) <==> !QuantitiesParse(budget, qi)
    ensures r.0 == Err(CostNotNumeric) <==> QuantitiesParse(budget, qi) && !CostsConvert(reference)
    ensures r.0 == Err(CodeNotInteger) <==>
      QuantitiesParse(budget, qi) && CostsConvert(reference) && !CodesParse(budget, ci)
    ensures r.0.Ok? ==> |r.0.value.joined| >= |budget.rows|
    ensures !QuantitiesParse(budget, qi) || !CostsConvert(reference) ==> r.1 == reference
    ensures QuantitiesParse(budget, qi) && CostsConvert(reference) ==>
      |r.1| == |reference| && Normalised(r.1) &&
      forall i :: 0 <= i < |reference| ==>
        r.1[i].code == reference[i].code && r.1[i].description == reference[i].description
  {
    var quantities := ParseColumn(budget.rows, qi, QuantityOf);
    var converted := ConvertCostsOnce(reference);
    var lines := BudgetLines(budget, ci, qi);
    assert quantities.Some? <==> QuantitiesParse(budget, qi);
    assert converted.Some? <==> CostsConvert(reference);
    if quantities.None? then (Err(QuantityNotNumeric), reference)
    else if converted.None? then (Err(CostNotNumeric), reference)
    else if lines.None? then (Err(CodeNotInteger), converted.value)
    else
      var joined := LeftJoin(lines.value, converted.value);
      (Ok(CostReport(joined, Total(joined), Mean(joined))), converted.value)
  }

  /** Every cell of the quantity column converts under line 243. */
  predicate QuantitiesParse(budget: Budget, qi: nat)
    requires WellFormedBudget(budget) && qi < |budget.columns|
  {
    forall i :: 0 <= i < |budget.rows| ==> QuantityOf(budget.rows[i][qi]).Some?
  }

  /** Every cell of the code column is an integer to `int()`. */
  predicate CodesParse(budget: Budget, ci: nat)
    requires WellFormedBudget(budget) && ci < |budget.columns|
  {
    forall i :: 0 <= i < |budget.rows| ==> ParseInt(budget.rows[i][ci]).Some?
  }

  /** Every "CUSTO TOTAL" cell of the reference table converts under the corrected line 244. */
  predicate CostsConvert(reference: seq<Composition>) {
    forall i :: 0 <= i < |reference| ==> CellCost(reference[i].cost).Some?
  }

  /** The budget rows with their codes (read by `int()`) and quantities (line 243); `None` when a cell does not parse. */
  function BudgetLines(budget: Budget, ci: nat, qi: nat): (r: Option<seq<BudgetLine>>)
    requires WellFormedBudget(budget) && ci < |budget.columns| && qi < |budget.columns|
    ensures r.Some? <==> CodesParse(budget, ci) && QuantitiesParse(budget, qi)
    ensures r.Some? ==> |r.value| == |budget.rows|
  {
    match (ParseColumn(budget.rows, ci, ParseInt), ParseColumn(budget.rows, qi, QuantityOf))
    case (Some(codes), Some(quantities)) => Some(Lines(budget.rows, codes, quantities))
    case (None, _) => None
    case (Some(_), None) => None
  }

  /** Costing again with the table a run left behind gives the same report and leaves the table as it is. */
  lemma CostingRepeatable(reference: seq<Composition>, budget: Budget, ci: nat, qi: nat)
    requires WellFormedBudget(budget) && ci < |budget.columns| && qi < |budget.columns|
    ensures Costing(Costing(reference, budget, ci, qi).1, budget, ci, qi) == Costing(reference, budget, ci, qi)
  {
    if ConvertCostsOnce(reference).Some? {
      ConvertCostsOnceIdempotent(reference);
    }
  }

  /** Conversion keeps the codes, so unique codes stay unique. */
  lemma ConvertKeepsCodes(reference: seq<Composition>)
    requires UniqueCodes(reference) && ConvertCostsOnce(reference).Some?
    ensures UniqueCodes(ConvertCostsOnce(reference).value)
  {
    var converted := ConvertCostsOnce(reference).value;
    assert forall i :: 0 <= i < |reference| ==> converted[i].code == reference[i].code;
  }

  /**
   * With unique reference codes a successful run reports one joined row per
   * budget row, and its total is the sum of quantity times unit cost over the
   * matched rows.
   */
  lemma CostingUnique(reference: seq<Composition>, budget: Budget, ci: nat, qi: nat)
    requires WellFormedBudget(budget) && ci < |budget.columns| && qi < |budget.columns|
    requires UniqueCodes(reference)
    ensures var (report, after) := Costing(reference, budget, ci, qi);
      report.Ok? ==>
        && BudgetLines(budget, ci, qi).Some?
        && |report.value.joined| == |budget.rows|
        && Normalised(after)
        && report.value.total == LinesTotal(BudgetLines(budget, ci, qi).value, after)
  {
    var converted := ConvertCostsOnce(reference);
    var lines := BudgetLines(budget, ci, qi);
    if ParseColumn(budget.rows, qi, QuantityOf).Some? && converted.Some? && lines.Some? {
      ConvertKeepsCodes(reference);
      LeftJoinUnique(lines.value, converted.value);
      TotalOfJoin(lines.value, converted.value);
    }
  }

  method PromptColumns(inputs: seq<string>, columns: seq<string>) returns (indices: Option<(nat, nat)>)
    ensures indices == PromptIndices(inputs, |columns|)
  {
    var n := |columns|;
    var ci, used := GetCompositionIndex(inputs, columns);
    if ci.None? {
      return None;
    }
    var qi, _ := GetQuantitiesIndex(inputs[used..], columns);
    if qi.None? {
      return None;
    }
    return Some((ci.value, qi.value));
  }

  /** Lines 243-257 on the shared table for chosen columns. */
  method CostWithColumns(table: ReferenceTable, budget: Budget, ci: nat, qi: nat) returns (report: Result<CostReport, CostError>)
    requires WellFormedBudget(budget) && ci < |budget.columns| && qi < |budget.columns|
    modifies table
    ensures (report, table.rows) == Costing(old(table.rows), budget, ci, qi)
  {
    var quantities := ParseColumn(budget.rows, qi, QuantityOf);
    ghost var converted := ConvertCostsOnce(table.rows);
    var lines := BudgetLines(budget, ci, qi);
    CostingSteps(table.rows, budget, ci, qi, quantities, converted, lines);
    if quantities.None? {
      return Err(QuantityNotNumeric);
    }
    var ok := table.NormaliseCosts();
    if !ok {
      return Err(CostNotNumeric);
    }
    if lines.None? {
      return Err(CodeNotInteger);
    }
    var joined := LeftJoin(lines.value, table.rows);
    report := Ok(CostReport(joined, Total(joined), Mean(joined)));
  }

  /** `Costing` step by step: which conversion decides the outcome, and the table each outcome leaves. */
  lemma {:induction false} CostingSteps(reference: seq<Composition>, budget: Budget, ci: nat, qi: nat,
      quantities: Option<seq<real>>, converted: Option<seq<Composition>>, lines: Option<seq<BudgetLine>>)
    requires WellFormedBudget(budget) && ci < |budget.columns| && qi < |budget.columns|
    requires quantities == ParseColumn(budget.rows, qi, QuantityOf)
    requires converted == ConvertCostsOnce(reference) && lines == BudgetLines(budget, ci, qi)
    ensures quantities.None? ==> Costing(reference, budget, ci, qi) == (Err(QuantityNotNumeric), reference)
    ensures quantities.Some? && converted.None? ==> Costing(reference, budget, ci, qi) == (Err(CostNotNumeric), reference)
    ensures quantities.Some? && converted.Some? ==> Costing(reference, budget, ci, qi).1 == converted.value
    ensures quantities.Some? && converted.Some? && lines.None? ==> Costing(reference, budget, ci, qi).0 == Err(CodeNotInteger)
    ensures quantities.Some? && converted.Some? && lines.Some? ==>
      Costing(reference, budget, ci, qi).0 == Ok(CostReport(LeftJoin(lines.value, converted.value),
        Total(LeftJoin(lines.value, converted.value)), Mean(LeftJoin(lines.value, converted.value))))
  {
  }

  /**
   * `calculate_total_cost` once the budget is loaded: reads the two column
   * indexes from `inputs`, converts the quantities, normalises the shared
   * table's costs in place (corrected conversion), joins and totals.
   */
  method CalculateTotalCost(table: ReferenceTable, budget: Budget, inputs: seq<string>) returns (report: Result<CostReport, CostError>)
    requires WellFormedBudget(budget)
    modifies table
    ensures PromptIndices(inputs, |budget.columns|).None? ==> report == Err(NoColumnIndex) && table.rows == old(table.rows)
    ensures PromptIndices(inputs, |budget.columns|).Some? ==>
      var (ci, qi) := PromptIndices(inputs, |budget.columns|).value;
      (report, table.rows) == Costing(old(table.rows), budget, ci, qi)
  {
    var indices := PromptColumns(inputs, budget.columns);
    if indices.None? {
      return Err(NoColumnIndex);
    }
    report := CostWithColumns(table, budget, indices.value.0, indices.value.1);
  }
}
