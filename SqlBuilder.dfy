/** The SQL request builder: turns one block request of the grid (a row range, a sort
    model and a filter model) into a bounded SELECT over a view and the matching
    COUNT(*) query. */
module SqlBuilder {
  import opened Wrappers
  import opened Text

  /** A `filterType` the builder has no branch for ('date', 'set', ...). */
  type OtherFilterType = t: string | t != "text" && t != "number" witness "date"

  /** One entry of the grid's filter model, told apart by its `filterType`. */
  datatype FilterSpec =
    | TextFilter(op: string, text: string)                 // filterType 'text', `filter` a string
    | NumberFilter(op: string, number: int)                // filterType 'number', `filter` a number
    | OtherFilter(filterType: OtherFilterType, op: string) // any other filterType

  /** One entry of the grid's sort model. */
  datatype SortEntry = SortEntry(colId: string, sort: string)

  /** The grid's block request; the filter model is taken in key-iteration order. */
  datatype Request = Request(
    startRow: int,
    endRow: int,
    sortModel: seq<SortEntry>,
    filterModel: seq<(string, FilterSpec)>)

  datatype SqlPair = SqlPair(query: string, countQuery: string)

  // ---------------------------------------------------------------------------
  // Quoting

  /** Every occurrence of `c` in `s` doubled, everything else kept. */
  function DoubleChar(s: string, c: char): string
  {
    if s == [] then [] else (if s[0] == c then [c, c] else [s[0]]) + DoubleChar(s[1..], c)
  }

  /** The text-filter escape: each single quote doubled, the rule for character string
      literals in ISO/IEC 9075-2 section 5.3. */
  function EscapeQuotes(s: string): string
  {
    DoubleChar(s, '\'')
  }

  /** How the builder writes a column name: between double quotes, verbatim. */
  function QuoteIdent(key: string): string
  {
    "\"" + key + "\""
  }

  /** A delimited identifier as ISO/IEC 9075-2 section 5.2 writes it: embedded double
      quotes doubled. The builder does not do this; see QuoteIdentIsDelimitedIff. */
  function DelimitedIdentifier(key: string): string
  {
    "\"" + DoubleChar(key, '"') + "\""
  }

  lemma {:induction false} DoubleCharAppend(a: string, b: string, c: char)
    ensures DoubleChar(a + b, c) == DoubleChar(a, c) + DoubleChar(b, c)
    decreases |a|
  {
    if a != [] {
      assert (a + b)[1..] == a[1..] + b;
      DoubleCharAppend(a[1..], b, c);
    } else {
      assert a + b == b;
    }
  }

  /** Doubling adds exactly one character per occurrence of `c`. */
  lemma {:induction false} DoubleCharLength(s: string, c: char)
    ensures |DoubleChar(s, c)| == |s| + multiset(s)[c]
    decreases |s|
  {
    if s != [] {
      assert s == [s[0]] + s[1..];
      assert multiset(s) == multiset([s[0]]) + multiset(s[1..]);
      DoubleCharLength(s[1..], c);
    }
  }

  /** Doubling changes nothing exactly when `c` does not occur. */
  lemma {:induction false} DoubleCharUnchangedIff(s: string, c: char)
    ensures DoubleChar(s, c) == s <==> c !in s
    decreases |s|
  {
    DoubleCharLength(s, c);
    if s != [] {
      assert s == [s[0]] + s[1..];
      DoubleCharUnchangedIff(s[1..], c);
      if c !in s {
        assert c !in s[1..];
      }
    }
  }

  /** The builder's column quoting is a proper delimited identifier only when the
      name holds no double quote. */
  lemma QuoteIdentIsDelimitedIff(key: string)
    ensures QuoteIdent(key) == DelimitedIdentifier(key) <==> '"' !in key
  {
    DoubleCharUnchangedIff(key, '"');
    if QuoteIdent(key) == DelimitedIdentifier(key) {
      assert QuoteIdent(key)[1..|QuoteIdent(key)| - 1] == key;
      assert DelimitedIdentifier(key)[1..|DelimitedIdentifier(key)| - 1] == DoubleChar(key, '"');
    }
  }

  /** Every quote in `t` is immediately followed by a second one (no lone quote). */
  predicate QuotesPaired(t: string)
    decreases |t|
  {
    if t == [] then true
    else if t[0] == '\'' then |t| >= 2 && t[1] == '\'' && QuotesPaired(t[2..])
    else QuotesPaired(t[1..])
  }

  lemma {:induction false} EscapeQuotesPaired(s: string)
    ensures QuotesPaired(EscapeQuotes(s))
    decreases |s|
  {
    if s != [] {
      EscapeQuotesPaired(s[1..]);
      var t := EscapeQuotes(s);
      if s[0] == '\'' {
        assert t[2..] == EscapeQuotes(s[1..]);
      } else {
        assert t[1..] == EscapeQuotes(s[1..]);
      }
    }
  }

  /** Reads the body of a SQL character string literal whose opening quote has been
      consumed: `''` stands for one quote, a lone `'` closes the literal. Gives the
      literal's value and the text after the closing quote; None if it never closes. */
  function ReadQuotedBody(t: string): Option<(string, string)>
    decreases |t|
  {
    if t == [] then None
    else if t[0] == '\'' then
      if |t| >= 2 && t[1] == '\'' then
        var inner := ReadQuotedBody(t[2..]);
        if inner.None? then None else Some(("'" + inner.value.0, inner.value.1))
      else Some(("", t[1..]))
    else
      var inner := ReadQuotedBody(t[1..]);
      if inner.None? then None else Some(([t[0]] + inner.value.0, inner.value.1))
  }

  /** Escaping is undone by reading the literal back: `'` + EscapeQuotes(s) + `'` is read
      as exactly `s`, and the literal ends at the closing quote, provided the text after
      it does not itself begin with a quote. */
  lemma {:induction false} ReadEscapedLiteral(s: string, rest: string)
    requires rest == [] || rest[0] != '\''
    ensures ReadQuotedBody(EscapeQuotes(s) + "'" + rest) == Some((s, rest))
    decreases |s|
  {
    var t := EscapeQuotes(s) + "'" + rest;
    if s == [] {
      assert t == "'" + rest;
      assert t[1..] == rest;
    } else if s[0] == '\'' {
      assert t == "''" + (EscapeQuotes(s[1..]) + "'" + rest);
      assert t[2..] == EscapeQuotes(s[1..]) + "'" + rest;
      ReadEscapedLiteral(s[1..], rest);
      assert "'" + s[1..] == s;
    } else {
      assert t == [s[0]] + (EscapeQuotes(s[1..]) + "'" + rest);
      assert t[1..] == EscapeQuotes(s[1..]) + "'" + rest;
      ReadEscapedLiteral(s[1..], rest);
      assert [s[0]] + s[1..] == s;
    }
  }

  // ---------------------------------------------------------------------------
  // Filters

  /** Text operators: SQL operator, and what the pattern puts before and after the value. */
  const TextOperators: map<string, (string, string, string)> := map[
    "contains" := ("ILIKE", "%", "%"),
    "notContains" := ("NOT ILIKE", "%", "%"),
    "equals" := ("=", "", ""),
    "notEqual" := ("!=", "", ""),
    "startsWith" := ("ILIKE", "", "%"),
    "endsWith" := ("ILIKE", "%", "")
  ]

  /** Number operators and their SQL comparison. */
  const NumberOperators: map<string, string> := map[
    "equals" := "=",
    "notEqual" := "!=",
    "greaterThan" := ">",
    "lessThan" := "<",
    "greaterThanOrEqual" := ">=",
    "lessThanOrEqual" := "<="
  ]

  /** A filter entry the builder turns into a clause. */
  predicate Supported(item: FilterSpec)
  {
    match item
    case TextFilter(op, _) => op in TextOperators
    case NumberFilter(op, _) => op in NumberOperators
    case OtherFilter(_, _) => false
  }

  /** The clause one filter entry pushes, if any: one pass of the `forEach` body. */
  function FilterClause(key: string, item: FilterSpec): (r: Option<string>)
    ensures r.Some? <==> Supported(item)
  {
    match item
    case TextFilter(op, text) =>
      var val := EscapeQuotes(text);
      var col := QuoteIdent(key);
      if op == "contains" then Some(col + " ILIKE '%" + val + "%'")
      else if op == "notContains" then Some(col + " NOT ILIKE '%" + val + "%'")
      else if op == "equals" then Some(col + " = '" + val + "'")
      else if op == "notEqual" then Some(col + " != '" + val + "'")
      else if op == "startsWith" then Some(col + " ILIKE '" + val + "%'")
      else if op == "endsWith" then Some(col + " ILIKE '%" + val + "'")
      else None
    case NumberFilter(op, number) =>
      var val := IntToDecimal(number);
      var col := QuoteIdent(key);
      if op == "equals" then Some(col + " = " + val)
      else if op == "notEqual" then Some(col + " != " + val)
      else if op == "greaterThan" then Some(col + " > " + val)
      else if op == "lessThan" then Some(col + " < " + val)
      else if op == "greaterThanOrEqual" then Some(col + " >= " + val)
      else if op == "lessThanOrEqual" then Some(col + " <= " + val)
      else None
    case OtherFilter(_, _) => None
  }

  /** Escaping a pattern leaves its quote-free wildcards alone. */
  lemma EscapePattern(before: string, text: string, after: string)
    requires '\'' !in before && '\'' !in after
    ensures EscapeQuotes(before + text + after) == before + EscapeQuotes(text) + after
  {
    DoubleCharAppend(before, text, '\'');
    DoubleCharAppend(before + text, after, '\'');
    DoubleCharUnchangedIff(before, '\'');
    DoubleCharUnchangedIff(after, '\'');
  }

  lemma RegroupClause(col: string, sqlOp: string, before: string, val: string, after: string)
    ensures col + " " + sqlOp + " '" + (before + val + after) + "'"
      == col + (" " + sqlOp + " '" + before) + val + (after + "'")
  {
  }

  /** The text before and after the escaped value in each row of `TextOperators`. */
  lemma TextOperatorPieces(op: string)
    requires op in TextOperators
    ensures var (sqlOp, before, after) := TextOperators[op];
      && '\'' !in before && '\'' !in after
      && (op == "contains" ==> " " + sqlOp + " '" + before == " ILIKE '%" && after + "'" == "%'")
      && (op == "notContains" ==> " " + sqlOp + " '" + before == " NOT ILIKE '%" && after + "'" == "%'")
      && (op == "equals" ==> " " + sqlOp + " '" + before == " = '" && after + "'" == "'")
      && (op == "notEqual" ==> " " + sqlOp + " '" + before == " != '" && after + "'" == "'")
      && (op == "startsWith" ==> " " + sqlOp + " '" + before == " ILIKE '" && after + "'" == "%'")
      && (op == "endsWith" ==> " " + sqlOp + " '" + before == " ILIKE '%" && after + "'" == "'")
  {
  }

  /** A text clause is the quoted column, the operator from the table, and a single-quoted
      literal holding the escaped pattern. */
  lemma TextClauseForm(key: string, op: string, text: string)
    requires op in TextOperators
    ensures var (sqlOp, before, after) := TextOperators[op];
      FilterClause(key, TextFilter(op, text))
        == Some(QuoteIdent(key) + " " + sqlOp + " '" + EscapeQuotes(before + text + after) + "'")
  {
    var (sqlOp, before, after) := TextOperators[op];
    TextOperatorPieces(op);
    EscapePattern(before, text, after);
    RegroupClause(QuoteIdent(key), sqlOp, before, EscapeQuotes(text), after);
  }

  /** The literal of a text clause reads back as the pattern around the original value,
      however many quotes the value holds, and closes where the clause ends. */
  lemma TextClauseLiteral(key: string, op: string, text: string, rest: string)
    requires op in TextOperators
    requires rest == [] || rest[0] != '\''
    ensures var (sqlOp, before, after) := TextOperators[op];
      var head := QuoteIdent(key) + " " + sqlOp + " '";
      var clause := FilterClause(key, TextFilter(op, text)).value;
      head <= clause && ReadQuotedBody(clause[|head|..] + rest) == Some((before + text + after, rest))
  {
    var (sqlOp, before, after) := TextOperators[op];
    var head := QuoteIdent(key) + " " + sqlOp + " '";
    var lit := EscapeQuotes(before + text + after);
    TextClauseForm(key, op, text);
    var clause := FilterClause(key, TextFilter(op, text)).value;
    assert clause == head + (lit + "'");
    assert clause[|head|..] == lit + "'";
    ReadEscapedLiteral(before + text + after, rest);
  }

  /** A number clause is the quoted column, the comparison from the table and the number
      unquoted, in decimal, reading back as the number. */
  lemma NumberClauseForm(key: string, op: string, number: int)
    requires op in NumberOperators
    ensures FilterClause(key, NumberFilter(op, number))
      == Some(QuoteIdent(key) + " " + NumberOperators[op] + " " + IntToDecimal(number))
    ensures ParseInt(IntToDecimal(number)) == number
  {
    ParseIntToDecimal(number);
    var col := QuoteIdent(key);
    var val := IntToDecimal(number);
    if op == "equals" {
      assert col + " = " + val == col + " " + "=" + " " + val;
    } else if op == "notEqual" {
      assert col + " != " + val == col + " " + "!=" + " " + val;
    } else if op == "greaterThan" {
      assert col + " > " + val == col + " " + ">" + " " + val;
    } else if op == "lessThan" {
      assert col + " < " + val == col + " " + "<" + " " + val;
    } else if op == "greaterThanOrEqual" {
      assert col + " >= " + val == col + " " + ">=" + " " + val;
    } else {
      assert col + " <= " + val == col + " " + "<=" + " " + val;
    }
  }

  /** Every clause starts with its own key in double quotes. */
  lemma FilterClauseColumn(key: string, item: FilterSpec)
    requires FilterClause(key, item).Some?
    ensures QuoteIdent(key) + " " <= FilterClause(key, item).value
  {
    var c := FilterClause(key, item).value;
    var col := QuoteIdent(key);
    match item
    case TextFilter(op, text) =>
      assert c[..|col| + 1] == col + " ";
    case NumberFilter(op, number) =>
      assert c[..|col| + 1] == col + " ";
  }

  /** The clauses pushed while walking the filter model, in iteration order. */
  function Clauses(filterModel: seq<(string, FilterSpec)>): (r: seq<string>)
    ensures |r| <= |filterModel|
  {
    if filterModel == [] then []
    else
      var last := filterModel[|filterModel| - 1];
      var pushed := FilterClause(last.0, last.1);
      Clauses(filterModel[..|filterModel| - 1]) + (if pushed.Some? then [pushed.value] else [])
  }

  /** Clauses keep the order of the entries: the clauses of a concatenation are the
      concatenation of the clauses. */
  lemma {:induction false} ClausesAppend(a: seq<(string, FilterSpec)>, b: seq<(string, FilterSpec)>)
    ensures Clauses(a + b) == Clauses(a) + Clauses(b)
    decreases |b|
  {
    if b == [] {
      assert a + b == a;
    } else {
      var ab := a + b;
      assert ab[..|ab| - 1] == a + b[..|b| - 1];
      assert ab[|ab| - 1] == b[|b| - 1];
      ClausesAppend(a, b[..|b| - 1]);
    }
  }

  /** One clause per entry exactly when every entry is supported. */
  lemma {:induction false} ClausesOnePerEntryIff(filterModel: seq<(string, FilterSpec)>)
    ensures |Clauses(filterModel)| == |filterModel|
        <==> forall i :: 0 <= i < |filterModel| ==> Supported(filterModel[i].1)
    decreases |filterModel|
  {
    if filterModel != [] {
      var n := |filterModel| - 1;
      var init, last := filterModel[..n], filterModel[n];
      ClausesOnePerEntryIff(init);
      assert filterModel == init + [last];
      ClausesSnoc(init, last.0, last.1);
      assert forall i :: 0 <= i < n ==> init[i] == filterModel[i];
    }
  }

  /** No clause at all exactly when no entry is supported. */
  lemma {:induction false} ClausesEmptyIff(filterModel: seq<(string, FilterSpec)>)
    ensures Clauses(filterModel) == []
        <==> forall i :: 0 <= i < |filterModel| ==> !Supported(filterModel[i].1)
    decreases |filterModel|
  {
    if filterModel != [] {
      var n := |filterModel| - 1;
      var init, last := filterModel[..n], filterModel[n];
      ClausesEmptyIff(init);
      assert filterModel == init + [last];
      ClausesSnoc(init, last.0, last.1);
      assert forall i :: 0 <= i < n ==> init[i] == filterModel[i];
    }
  }

  /** Every clause comes from some entry of the filter model and names that entry's
      column in double quotes. */
  lemma {:induction false} ClauseOrigin(filterModel: seq<(string, FilterSpec)>, j: int)
    requires 0 <= j < |Clauses(filterModel)|
    ensures exists i :: (0 <= i < |filterModel|
      && FilterClause(filterModel[i].0, filterModel[i].1) == Some(Clauses(filterModel)[j])
      && QuoteIdent(filterModel[i].0) + " " <= Clauses(filterModel)[j])
    decreases |filterModel|
  {
    var n := |filterModel| - 1;
    var init := filterModel[..n];
    var last := filterModel[n];
    if j < |Clauses(init)| {
      ClauseOrigin(init, j);
      var i :| 0 <= i < |init| && FilterClause(init[i].0, init[i].1) == Some(Clauses(init)[j])
        && QuoteIdent(init[i].0) + " " <= Clauses(init)[j];
      assert init[i] == filterModel[i];
    } else {
      FilterClauseColumn(last.0, last.1);
    }
  }

  /** The WHERE part: empty, or `WHERE ` and the clauses joined with ` AND `. */
  function WhereSql(clauses: seq<string>): (r: string)
    ensures r == "" <==> clauses == []
    ensures clauses != [] ==> "WHERE " <= r
  {
    if |clauses| > 0 then "WHERE " + Join(clauses, " AND ") else ""
  }

  /** The WHERE part is absent exactly when no entry is supported. */
  lemma WhereSqlEmptyIff(filterModel: seq<(string, FilterSpec)>)
    ensures WhereSql(Clauses(filterModel)) == ""
        <==> forall i :: 0 <= i < |filterModel| ==> !Supported(filterModel[i].1)
    ensures WhereSql(Clauses(filterModel)) != "" ==> "WHERE " <= WhereSql(Clauses(filterModel))
  {
    ClausesEmptyIff(filterModel);
  }

  /** Appending an entry appends its clause, if it has one. */
  lemma ClausesSnoc(filterModel: seq<(string, FilterSpec)>, key: string, item: FilterSpec)
    ensures var pushed := FilterClause(key, item);
      Clauses(filterModel + [(key, item)])
        == Clauses(filterModel) + (if pushed.Some? then [pushed.value] else [])
  {
    var fm := filterModel + [(key, item)];
    assert fm[..|fm| - 1] == filterModel;
    assert fm[|fm| - 1] == (key, item);
  }

  /** Clauses are joined with ` AND `: the first supported entry opens the WHERE part,
      and each further one is appended after ` AND `. */
  lemma WhereSqlAddFilter(filterModel: seq<(string, FilterSpec)>, key: string, item: FilterSpec)
    requires Supported(item)
    ensures var clause := FilterClause(key, item).value;
      WhereSql(Clauses(filterModel + [(key, item)]))
        == if Clauses(filterModel) == [] then "WHERE " + clause
           else WhereSql(Clauses(filterModel)) + " AND " + clause
  {
    var clauses := Clauses(filterModel);
    var clause := FilterClause(key, item).value;
    ClausesSnoc(filterModel, key, item);
    if clauses != [] {
      PrefixedJoinSnoc("WHERE ", clauses, " AND ", clause);
    } else {
      assert clauses + [clause] == [clause];
    }
  }

  /** An unsupported entry leaves the WHERE part as it was. */
  lemma WhereSqlSkipsUnsupported(filterModel: seq<(string, FilterSpec)>, key: string, item: FilterSpec)
    requires !Supported(item)
    ensures WhereSql(Clauses(filterModel + [(key, item)])) == WhereSql(Clauses(filterModel))
  {
    ClausesSnoc(filterModel, key, item);
    assert Clauses(filterModel) + [] == Clauses(filterModel);
  }

  // ---------------------------------------------------------------------------
  // Sorting

  /** `s.sort === 'asc' || s.sort === 'desc'`: exact, case-sensitive. */
  predicate IsValidSort(sort: string)
  {
    sort == "asc" || sort == "desc"
  }

  /** The sort model with every entry of another direction dropped. */
  function ValidSortModel(sortModel: seq<SortEntry>): (r: seq<SortEntry>)
    ensures |r| <= |sortModel|
  {
    if sortModel == [] then []
    else (if IsValidSort(sortModel[0].sort) then [sortModel[0]] else []) + ValidSortModel(sortModel[1..])
  }

  /** An entry is kept exactly when it is in the model with a valid direction. */
  lemma {:induction false} ValidSortModelMembers(sortModel: seq<SortEntry>, e: SortEntry)
    ensures e in ValidSortModel(sortModel) <==> e in sortModel && IsValidSort(e.sort)
    decreases |sortModel|
  {
    if sortModel != [] {
      ValidSortModelMembers(sortModel[1..], e);
      assert sortModel == [sortModel[0]] + sortModel[1..];
    }
  }

  /** Filtering keeps the order: it distributes over concatenation. */
  lemma {:induction false} ValidSortModelAppend(a: seq<SortEntry>, b: seq<SortEntry>)
    ensures ValidSortModel(a + b) == ValidSortModel(a) + ValidSortModel(b)
    decreases |a|
  {
    if a == [] {
      assert a + b == b;
    } else {
      var keep := if IsValidSort(a[0].sort) then [a[0]] else [];
      assert (a + b)[0] == a[0];
      assert (a + b)[1..] == a[1..] + b;
      assert ValidSortModel(a + b) == keep + ValidSortModel(a[1..] + b);
      assert ValidSortModel(a) == keep + ValidSortModel(a[1..]);
      ValidSortModelAppend(a[1..], b);
      assert keep + (ValidSortModel(a[1..]) + ValidSortModel(b))
          == (keep + ValidSortModel(a[1..])) + ValidSortModel(b);
    }
  }

  /** Nothing is dropped exactly when every direction is valid. */
  lemma {:induction false} ValidSortModelKeepsAllIff(sortModel: seq<SortEntry>)
    ensures ValidSortModel(sortModel) == sortModel
        <==> forall i :: 0 <= i < |sortModel| ==> IsValidSort(sortModel[i].sort)
    decreases |sortModel|
  {
    if sortModel != [] {
      ValidSortModelKeepsAllIff(sortModel[1..]);
      assert forall i :: 1 <= i < |sortModel| ==> sortModel[1..][i - 1] == sortModel[i];
      if !IsValidSort(sortModel[0].sort) {
        assert |ValidSortModel(sortModel)| < |sortModel|;
      }
    }
  }

  /** `"col" ASC` or `"col" DESC`. */
  function SortTerm(e: SortEntry): string
  {
    QuoteIdent(e.colId) + " " + ToUpper(e.sort)
  }

  lemma SortTermForm(e: SortEntry)
    requires IsValidSort(e.sort)
    ensures SortTerm(e) == QuoteIdent(e.colId) + (if e.sort == "asc" then " ASC" else " DESC")
  {
    if e.sort == "asc" {
      assert ToUpper(e.sort) == "ASC";
    } else {
      assert ToUpper(e.sort) == "DESC";
    }
  }

  function SortTerms(entries: seq<SortEntry>): (r: seq<string>)
  {
    seq(|entries|, i requires 0 <= i < |entries| => SortTerm(entries[i]))
  }

  /** The ORDER BY part: empty, or `ORDER BY ` and the kept entries' terms joined with `, `. */
  function OrderBySql(sortModel: seq<SortEntry>): (r: string)
    ensures r == "" <==> ValidSortModel(sortModel) == []
    ensures ValidSortModel(sortModel) != [] ==> "ORDER BY " <= r
  {
    var valid := ValidSortModel(sortModel);
    if |valid| > 0 then "ORDER BY " + Join(SortTerms(valid), ", ") else ""
  }

  /** ORDER BY is absent exactly when no entry has a valid direction. */
  lemma OrderByEmptyIff(sortModel: seq<SortEntry>)
    ensures OrderBySql(sortModel) == ""
        <==> forall i :: 0 <= i < |sortModel| ==> !IsValidSort(sortModel[i].sort)
  {
    if ValidSortModel(sortModel) != [] {
      var e := ValidSortModel(sortModel)[0];
      ValidSortModelMembers(sortModel, e);
    } else {
      forall i | 0 <= i < |sortModel| ensures !IsValidSort(sortModel[i].sort) {
        ValidSortModelMembers(sortModel, sortModel[i]);
      }
    }
  }

  /** A valid entry appended to the sort model is kept, last. */
  lemma ValidSortModelSnoc(sortModel: seq<SortEntry>, e: SortEntry)
    requires IsValidSort(e.sort)
    ensures ValidSortModel(sortModel + [e]) == ValidSortModel(sortModel) + [e]
  {
    ValidSortModelAppend(sortModel, [e]);
    assert ValidSortModel([e]) == [e] by {
      assert [e][1..] == [];
    }
  }

  /** Appending an entry appends its term. */
  lemma SortTermsSnoc(entries: seq<SortEntry>, e: SortEntry)
    ensures SortTerms(entries + [e]) == SortTerms(entries) + [SortTerm(e)]
  {
    var l, r := SortTerms(entries + [e]), SortTerms(entries) + [SortTerm(e)];
    assert |l| == |r|;
    forall i | 0 <= i < |l| ensures l[i] == r[i] {
      if i < |entries| {
        assert (entries + [e])[i] == entries[i];
      }
    }
  }

  /** Sort terms are joined with `, `: the first valid entry opens the ORDER BY part,
      and each further one is appended after `, `. */
  lemma OrderByAddEntry(sortModel: seq<SortEntry>, e: SortEntry)
    requires IsValidSort(e.sort)
    ensures OrderBySql(sortModel + [e])
      == if ValidSortModel(sortModel) == [] then "ORDER BY " + SortTerm(e)
         else OrderBySql(sortModel) + ", " + SortTerm(e)
  {
    var valid := ValidSortModel(sortModel);
    ValidSortModelSnoc(sortModel, e);
    SortTermsSnoc(valid, e);
    if valid != [] {
      PrefixedJoinSnoc("ORDER BY ", SortTerms(valid), ", ", SortTerm(e));
    } else {
      assert valid + [e] == [e];
    }
  }

  /** An entry with another direction leaves the ORDER BY part as it was. */
  lemma OrderBySkipsInvalid(sortModel: seq<SortEntry>, e: SortEntry)
    requires !IsValidSort(e.sort)
    ensures OrderBySql(sortModel + [e]) == OrderBySql(sortModel)
  {
    ValidSortModelAppend(sortModel, [e]);
    assert ValidSortModel([e]) == [] by {
      assert [e][1..] == [];
    }
    assert ValidSortModel(sortModel + [e]) == ValidSortModel(sortModel);
  }

  // ---------------------------------------------------------------------------
  // Assembly

  /** The closing `LIMIT (endRow - startRow) OFFSET startRow`, with no guard on the sign. */
  function PagingSql(request: Request): string
  {
    " LIMIT " + IntToDecimal(request.endRow - request.startRow)
      + " OFFSET " + IntToDecimal(request.startRow)
  }

  /** The bounded SELECT the builder returns. */
  function Query(tableName: string, request: Request): string
  {
    "SELECT * FROM " + tableName + " " + WhereSql(Clauses(request.filterModel)) + " "
      + OrderBySql(request.sortModel) + PagingSql(request)
  }

  /** The matching count query. */
  function CountQuery(tableName: string, request: Request): string
  {
    "SELECT COUNT(*) as total FROM " + tableName + " " + WhereSql(Clauses(request.filterModel))
  }

  /** `buildSql`: the filter entries are walked in order, pushing each entry's clause, and
      the two queries are assembled from the clauses and the sort model. */
  method BuildSql(tableName: string, request: Request) returns (r: SqlPair)
    ensures r.query == Query(tableName, request)
    ensures r.countQuery == CountQuery(tableName, request)
  {
    var filterModel := request.filterModel;
    var whereClauses: seq<string> := [];
    var i := 0;
    while i < |filterModel|
      invariant 0 <= i <= |filterModel|
      invariant whereClauses == Clauses(filterModel[..i])
    {
      var (key, item) := filterModel[i];
      match FilterClause(key, item) {
        case Some(clause) => whereClauses := whereClauses + [clause];
        case None =>
      }
      assert filterModel[..i + 1][..i] == filterModel[..i];
      i := i + 1;
    }
    assert filterModel[..i] == filterModel;

    var whereSql := WhereSql(whereClauses);
    var orderBySql := OrderBySql(request.sortModel);
    var limit := request.endRow - request.startRow;
    var offset := request.startRow;
    var query := "SELECT * FROM " + tableName + " " + whereSql + " " + orderBySql
      + (" LIMIT " + IntToDecimal(limit) + " OFFSET " + IntToDecimal(offset));
    var countQuery := "SELECT COUNT(*) as total FROM " + tableName + " " + whereSql;
    r := SqlPair(query, countQuery);
  }

  /** The query always ends with `LIMIT (endRow - startRow) OFFSET startRow`, both numbers
      reading back exactly; a request with endRow < startRow yields a negative LIMIT. */
  lemma QueryPaging(tableName: string, request: Request)
    ensures var limit := IntToDecimal(request.endRow - request.startRow);
      var offset := IntToDecimal(request.startRow);
      && EndsWith(Query(tableName, request), " LIMIT " + limit + " OFFSET " + offset)
      && ParseInt(limit) == request.endRow - request.startRow
      && ParseInt(offset) == request.startRow
      && (limit[0] == '-' <==> request.endRow < request.startRow)
  {
    assert EndsWith(Query(tableName, request), PagingSql(request)) by {
      var head := "SELECT * FROM " + tableName + " " + WhereSql(Clauses(request.filterModel)) + " "
        + OrderBySql(request.sortModel);
      assert Query(tableName, request) == head + PagingSql(request);
      EndsWithAppend(head, PagingSql(request));
    }
    ParseIntToDecimal(request.endRow - request.startRow);
    ParseIntToDecimal(request.startRow);
  }

  /** Between the WHERE part and the paging sits the ORDER BY part: after
      `SELECT * FROM <table> <where> ` the query is the ORDER BY text, then LIMIT/OFFSET. */
  lemma QuerySortSlot(tableName: string, request: Request)
    ensures var p := "SELECT * FROM " + tableName + " " + WhereSql(Clauses(request.filterModel)) + " ";
      p <= Query(tableName, request)
      && Query(tableName, request)[|p|..] == OrderBySql(request.sortModel) + PagingSql(request)
  {
    var p := "SELECT * FROM " + tableName + " " + WhereSql(Clauses(request.filterModel)) + " ";
    SplitAfter(p, OrderBySql(request.sortModel), PagingSql(request));
  }

  /** The count query carries the query's WHERE text and stops right after it: nothing
      from the sort model or the row range reaches it. */
  lemma CountQuerySharesWhere(tableName: string, request: Request, other: Request)
    requires other.filterModel == request.filterModel
    ensures var where := WhereSql(Clauses(request.filterModel));
      && CountQuery(tableName, request) == "SELECT COUNT(*) as total FROM " + tableName + " " + where
      && "SELECT * FROM " + tableName + " " + where + " " <= Query(tableName, request)
      && CountQuery(tableName, other) == CountQuery(tableName, request)
  {
    QuerySortSlot(tableName, request);
  }

  /** With no filters and no sort the WHERE and ORDER BY slots are empty: three spaces
      before LIMIT in the query, a trailing space in the count query. */
  lemma EmptyRequest(tableName: string, startRow: int, endRow: int)
    ensures Query(tableName, Request(startRow, endRow, [], []))
      == "SELECT * FROM " + tableName + "  " + " LIMIT " + IntToDecimal(endRow - startRow)
         + " OFFSET " + IntToDecimal(startRow)
    ensures CountQuery(tableName, Request(startRow, endRow, [], []))
      == "SELECT COUNT(*) as total FROM " + tableName + " "
  {
    var request := Request(startRow, endRow, [], []);
    assert Clauses([]) == [];
    assert ValidSortModel([]) == [];
    var p := "SELECT * FROM " + tableName;
    var paging := PagingSql(request);
    assert Query(tableName, request) == p + " " + "" + " " + "" + paging;
    assert p + " " + "" + " " + "" == p + " " + " ";
    assert " " + " " == "  ";
    assert p + " " + " " + paging == p + "  " + paging;
    var limit, offset := IntToDecimal(endRow - startRow), IntToDecimal(startRow);
    var gap := p + "  ";
    assert gap + paging == gap + " LIMIT " + limit + " OFFSET " + offset;
  }

  /** `O'Brien` is escaped as `O''Brien`. */
  lemma EscapeExample()
    ensures EscapeQuotes("O'Brien") == "O''Brien"
  {
    var first, quote, rest := "O", "'", "Brien";
    assert "O'Brien" == first + (quote + rest);
    assert "O''Brien" == first + ("''" + rest);
    DoubleCharAppend(first, quote + rest, '\'');
    DoubleCharAppend(quote, rest, '\'');
    DoubleCharUnchangedIff(first, '\'');
    DoubleCharUnchangedIff(rest, '\'');
    assert DoubleChar(quote, '\'') == "''";
  }

  /** The quote in `O'Brien` is doubled inside a contains pattern. */
  lemma ContainsExample()
    ensures FilterClause("name", TextFilter("contains", "O'Brien"))
      == Some("\"name\" ILIKE '%O''Brien%'")
  {
    ContainsExampleUnfolded();
    EscapeExample();
    ContainsExampleSpelled(EscapeQuotes("O'Brien"));
  }

  lemma ContainsExampleUnfolded()
    ensures FilterClause("name", TextFilter("contains", "O'Brien"))
      == Some(QuoteIdent("name") + " ILIKE '%" + EscapeQuotes("O'Brien") + "%'")
  {
  }

  lemma ContainsExampleSpelled(val: string)
    requires val == "O''Brien"
    ensures QuoteIdent("name") + " ILIKE '%" + val + "%'" == "\"name\" ILIKE '%O''Brien%'"
  {
  }
}
