/**
 CSV import (cmd/sparkdb/commands/import.go): the inference of column types, the printer of
 SQL row lists in batches of 100, and a reader of SQL row lists that is independent of it.
 */
module CsvImport {
  import opened Text
  import opened Numerals
  import opened Wrappers

  /**
   What the grammars of module Numerals leave open about Go's `strconv`: which whole numbers
   fit into 64 bits, and which numbers are not out of range for a float.
   */
  datatype Strconv = Strconv(fitsInt: string -> bool, inRange: string -> bool)

  predicate ParseInt(c: Strconv, s: string) {
    GoWhole(s) && c.fitsInt(s)
  }

  predicate ParseFloat(c: Strconv, s: string) {
    GoFloat(s) && (Special(s) || c.inRange(s))
  }

  /** A whole number that fits into 64 bits is in the range of a float. */
  ghost predicate Lawful(c: Strconv) {
    forall s :: ParseInt(c, s) ==> c.inRange(s)
  }

  // ---------------------------------------------------------------- column types

  datatype ColType = TEXT | INTEGER | REAL

  datatype Kind = Empty | Whole | Fraction | Other

  function KindOf(c: Strconv, cell: string): Kind {
    var v := TrimSpace(cell);
    if v == "" then Empty
    else if ParseInt(c, v) then Whole
    else if ParseFloat(c, v) then Fraction
    else Other
  }

  function Kinds(c: Strconv, cells: seq<string>): (r: seq<Kind>)
    ensures |r| == |cells|
  {
    seq(|cells|, i requires 0 <= i < |cells| => KindOf(c, cells[i]))
  }

  /** The position after the last cell that is neither empty nor numeric. */
  function Cut(kinds: seq<Kind>): (k: nat)
    ensures k <= |kinds|
  {
    if kinds == [] then 0
    else if kinds[|kinds| - 1] == Other then |kinds|
    else Cut(kinds[..|kinds| - 1])
  }

  /** The position of the first numeric cell from `k` on, or the end. */
  function FirstNumeric(kinds: seq<Kind>, k: nat): (r: nat)
    requires k <= |kinds|
    ensures k <= r <= |kinds|
    decreases |kinds| - k
  {
    if k == |kinds| || kinds[k] in {Whole, Fraction} then k else FirstNumeric(kinds, k + 1)
  }

  function TypeOfKinds(kinds: seq<Kind>): ColType {
    var k := FirstNumeric(kinds, Cut(kinds));
    if k == |kinds| then TEXT else if kinds[k] == Whole then INTEGER else REAL
  }

  /** The type of a column: the class of the first numeric cell after the last non-numeric one. */
  function ColumnType(c: Strconv, cells: seq<string>): ColType {
    TypeOfKinds(Kinds(c, cells))
  }

  /** What the loop does with one more cell. */
  function Refine(t: ColType, kind: Kind): ColType {
    match kind
    case Empty => t
    case Whole => if t == TEXT then INTEGER else t
    case Fraction => if t != INTEGER then REAL else t
    case Other => TEXT
  }

  lemma {:induction false} FirstNumericNext(kinds: seq<Kind>, kind: Kind, k: nat)
    requires k <= |kinds|
    ensures var r := FirstNumeric(kinds, k);
            var r' := FirstNumeric(kinds + [kind], k);
            if r < |kinds| then r' == r
            else if kind in {Whole, Fraction} then r' == |kinds| else r' == |kinds| + 1
    decreases |kinds| - k
  {
    if k < |kinds| {
      assert (kinds + [kind])[k] == kinds[k];
      FirstNumericNext(kinds, kind, k + 1);
    } else {
      assert (kinds + [kind])[k] == kind;
    }
  }

  lemma TypeOfKindsNext(kinds: seq<Kind>, kind: Kind)
    ensures TypeOfKinds(kinds + [kind]) == Refine(TypeOfKinds(kinds), kind)
  {
    assert (kinds + [kind])[..|kinds|] == kinds;
    if kind != Other {
      FirstNumericNext(kinds, kind, Cut(kinds));
    }
  }

  /** The closed form follows the loop, cell by cell. */
  lemma ColumnTypeNext(c: Strconv, cells: seq<string>, cell: string)
    ensures ColumnType(c, []) == TEXT
    ensures ColumnType(c, cells + [cell]) == Refine(ColumnType(c, cells), KindOf(c, cell))
  {
    assert Kinds(c, cells + [cell]) == Kinds(c, cells) + [KindOf(c, cell)];
    TypeOfKindsNext(Kinds(c, cells), KindOf(c, cell));
  }

  /** The cells of the i-th column; rows that are too short have none. */
  function Column(data: seq<seq<string>>, i: nat): seq<string> {
    if data == [] then []
    else
      var row := data[|data| - 1];
      Column(data[..|data| - 1], i) + if i < |row| then [row[i]] else []
  }

  /** The inner loop: one row refines the types of its columns; surplus cells are skipped. */
  method RefineRow(c: Strconv, before: seq<ColType>, row: seq<string>) returns (types: seq<ColType>)
    ensures |types| == |before|
    ensures forall i :: 0 <= i < |types| ==> types[i] == if i < |row| then Refine(before[i], KindOf(c, row[i])) else before[i]
  {
    types := before;
    for i := 0 to |row|
      invariant |types| == |before|
      invariant forall j :: 0 <= j < |types| ==> types[j] == if j < i then Refine(before[j], KindOf(c, row[j])) else before[j]
    {
      if i >= |types| {
        continue;
      }
      var val := TrimSpace(row[i]);
      if val == "" {
        continue;
      }
      if ParseInt(c, val) {
        if types[i] == TEXT {
          types := types[i := INTEGER];
        }
        continue;
      }
      if ParseFloat(c, val) {
        if types[i] != INTEGER {
          types := types[i := REAL];
        }
        continue;
      }
      types := types[i := TEXT];
    }
  }

  // What the type of a column says of its cells, without the kinds and the loop.

  /** The cell is not blank, and parses as a number. */
  ghost predicate Numeric(c: Strconv, cell: string) {
    TrimSpace(cell) != "" && (ParseInt(c, TrimSpace(cell)) || ParseFloat(c, TrimSpace(cell)))
  }

  /** The cell is not blank, and does not parse as a number. */
  ghost predicate NonNumeric(c: Strconv, cell: string) {
    TrimSpace(cell) != "" && !ParseInt(c, TrimSpace(cell)) && !ParseFloat(c, TrimSpace(cell))
  }

  /** The first numeric cell after the last that is not: none that is not comes after it, and such a one between it and any earlier numeric cell. */
  ghost predicate Decides(c: Strconv, cells: seq<string>, j: nat) {
    && j < |cells| && Numeric(c, cells[j])
    && (forall i :: j < i < |cells| ==> !NonNumeric(c, cells[i]))
    && (forall i :: 0 <= i < j && Numeric(c, cells[i]) ==> exists k :: i < k < j && NonNumeric(c, cells[k]))
  }

  /** TEXT if no cell decides; otherwise INTEGER if the deciding cell parses as an integer, and REAL if it does not. */
  ghost predicate InferredAs(c: Strconv, cells: seq<string>, t: ColType) {
    && (t == TEXT <==> forall j: nat :: !Decides(c, cells, j))
    && (forall j: nat :: Decides(c, cells, j) ==> t == if ParseInt(c, TrimSpace(cells[j])) then INTEGER else REAL)
  }

  lemma KindsSay(c: Strconv, cells: seq<string>, i: nat)
    requires i < |cells|
    ensures Kinds(c, cells)[i] in {Whole, Fraction} <==> Numeric(c, cells[i])
    ensures Kinds(c, cells)[i] == Other <==> NonNumeric(c, cells[i])
    ensures Numeric(c, cells[i]) ==> (Kinds(c, cells)[i] == Whole <==> ParseInt(c, TrimSpace(cells[i])))
  {
  }

  /** What the kinds of the cells say, cell by cell. */
  ghost predicate KindsRight(c: Strconv, cells: seq<string>, kinds: seq<Kind>) {
    && |kinds| == |cells|
    && forall i :: 0 <= i < |cells| ==>
         && (kinds[i] in {Whole, Fraction} <==> Numeric(c, cells[i]))
         && (kinds[i] == Other <==> NonNumeric(c, cells[i]))
  }

  lemma KindsAreRight(c: Strconv, cells: seq<string>)
    ensures KindsRight(c, cells, Kinds(c, cells))
  {
    forall i: nat | i < |cells|
      ensures Kinds(c, cells)[i] in {Whole, Fraction} <==> Numeric(c, cells[i])
      ensures Kinds(c, cells)[i] == Other <==> NonNumeric(c, cells[i])
    {
      KindsSay(c, cells, i);
    }
  }

  /** The same of the kinds alone. */
  ghost predicate KindDecides(kinds: seq<Kind>, j: nat) {
    && j < |kinds| && kinds[j] in {Whole, Fraction}
    && (forall i :: j < i < |kinds| ==> kinds[i] != Other)
    && (forall i :: 0 <= i < j && kinds[i] in {Whole, Fraction} ==> exists k :: i < k < j && kinds[k] == Other)
  }

  lemma FirstKindDecides(kinds: seq<Kind>, k: nat, r: nat)
    requires k == Cut(kinds) && r == FirstNumeric(kinds, k) && r < |kinds|
    ensures KindDecides(kinds, r)
  {
    CutMeaning(kinds);
    FirstNumericMeaning(kinds, k);
    forall i | 0 <= i < r && kinds[i] in {Whole, Fraction} ensures exists q :: i < q < r && kinds[q] == Other {
      assert i < k - 1 && kinds[k - 1] == Other;
    }
  }

  lemma KindDecidesCell(c: Strconv, cells: seq<string>, kinds: seq<Kind>, j: nat)
    requires KindsRight(c, cells, kinds) && KindDecides(kinds, j)
    ensures Decides(c, cells, j)
  {
    forall i | 0 <= i < j && Numeric(c, cells[i]) ensures exists q :: i < q < j && NonNumeric(c, cells[q]) {
      var q :| i < q < j && kinds[q] == Other;
      assert NonNumeric(c, cells[q]);
    }
  }

  /** The cell at the position that the closed form looks at decides. */
  lemma FirstDecides(c: Strconv, cells: seq<string>, kinds: seq<Kind>, k: nat, r: nat)
    requires KindsRight(c, cells, kinds) && k == Cut(kinds) && r == FirstNumeric(kinds, k) && r < |cells|
    ensures Decides(c, cells, r)
  {
    FirstKindDecides(kinds, k, r);
    KindDecidesCell(c, cells, kinds, r);
  }

  lemma OnlyFirstKind(kinds: seq<Kind>, k: nat, r: nat, j: nat)
    requires k == Cut(kinds) && r == FirstNumeric(kinds, k) && KindDecides(kinds, j)
    ensures j == r
  {
    CutMeaning(kinds);
    FirstNumericMeaning(kinds, k);
    assert k > 0 ==> kinds[k - 1] == Other;
    assert r <= j;
  }

  lemma CellDecidesKind(c: Strconv, cells: seq<string>, kinds: seq<Kind>, j: nat)
    requires KindsRight(c, cells, kinds) && Decides(c, cells, j)
    ensures KindDecides(kinds, j)
  {
    forall i | 0 <= i < j && kinds[i] in {Whole, Fraction} ensures exists q :: i < q < j && kinds[q] == Other {
      var q :| i < q < j && NonNumeric(c, cells[q]);
      assert kinds[q] == Other;
    }
  }

  /** No other cell decides. */
  lemma OnlyFirstDecides(c: Strconv, cells: seq<string>, kinds: seq<Kind>, k: nat, r: nat, j: nat)
    requires KindsRight(c, cells, kinds) && k == Cut(kinds) && r == FirstNumeric(kinds, k) && Decides(c, cells, j)
    ensures j == r
  {
    CellDecidesKind(c, cells, kinds, j);
    OnlyFirstKind(kinds, k, r, j);
  }

  lemma InferredFrom(c: Strconv, cells: seq<string>, r: nat, t: ColType)
    requires r <= |cells| && forall j: nat :: Decides(c, cells, j) ==> j == r
    requires r < |cells| ==> Decides(c, cells, r) && t == if ParseInt(c, TrimSpace(cells[r])) then INTEGER else REAL
    requires r == |cells| ==> t == TEXT
    ensures InferredAs(c, cells, t)
  {
  }

  lemma ColumnTypeInferred(c: Strconv, cells: seq<string>)
    ensures InferredAs(c, cells, ColumnType(c, cells))
  {
    var kinds := Kinds(c, cells);
    var k := Cut(kinds);
    var r := FirstNumeric(kinds, k);
    KindsAreRight(c, cells);
    forall j: nat | Decides(c, cells, j) ensures j == r {
      OnlyFirstDecides(c, cells, kinds, k, r, j);
    }
    if r < |cells| {
      FirstDecides(c, cells, kinds, k, r);
      KindsSay(c, cells, r);
    }
    InferredFrom(c, cells, r, ColumnType(c, cells));
  }

  /** Where every row has it, a column is the i-th cells of the rows. */
  lemma {:induction false} ColumnCells(data: seq<seq<string>>, i: nat)
    requires forall k :: 0 <= k < |data| ==> i < |data[k]|
    ensures |Column(data, i)| == |data|
    ensures forall k :: 0 <= k < |data| ==> Column(data, i)[k] == data[k][i]
  {
    if data != [] {
      ColumnCells(data[..|data| - 1], i);
    }
  }

  /** The nested loops compute, for every column, its closed form. */
  method InferTypes(c: Strconv, headers: seq<string>, data: seq<seq<string>>) returns (types: seq<ColType>)
    ensures |types| == |headers|
    ensures forall i :: 0 <= i < |types| ==> types[i] == ColumnType(c, Column(data, i))
    ensures forall i :: 0 <= i < |types| ==> InferredAs(c, Column(data, i), types[i])
  {
    types := seq(|headers|, i => TEXT);
    for k := 0 to |data|
      invariant |types| == |headers|
      invariant forall i :: 0 <= i < |types| ==> types[i] == ColumnType(c, Column(data[..k], i))
    {
      assert data[..k + 1][..k] == data[..k];
      ghost var before := types;
      types := RefineRow(c, types, data[k]);
      forall i | 0 <= i < |types| ensures types[i] == ColumnType(c, Column(data[..k + 1], i)) {
        var cells := Column(data[..k], i);
        assert cells + [] == cells;
        if i < |data[k]| {
          ColumnTypeNext(c, cells, data[k][i]);
        }
      }
    }
    assert data[..|data|] == data;
    forall i | 0 <= i < |types| ensures InferredAs(c, Column(data, i), types[i]) {
      ColumnTypeInferred(c, Column(data, i));
    }
  }

  // ---------------------------------------------------------------- the printer

  /** `strings.ReplaceAll(val, "'", "''")`. */
  function DoubleQuotes(s: string): string {
    if s == "" then ""
    else (if s[0] == '\'' then "''" else [s[0]]) + DoubleQuotes(s[1..])
  }

  function EscapeValue(c: Strconv, cell: string, t: ColType): string {
    var val := TrimSpace(cell);
    if val == "" || ToUpper(val) == "NULL" then "NULL"
    else if t in {INTEGER, REAL} && ParseFloat(c, val) then val
    else "'" + DoubleQuotes(val) + "'"
  }

  function PrintCells(c: Strconv, row: seq<string>, types: seq<ColType>): seq<string>
    requires |row| == |types|
  {
    if row == [] then [] else [EscapeValue(c, row[0], types[0])] + PrintCells(c, row[1..], types[1..])
  }

  function PrintRow(c: Strconv, row: seq<string>, types: seq<ColType>): string
    requires |row| == |types|
  {
    "(" + Join(PrintCells(c, row, types), ",") + ")"
  }

  /** The CSV reader hands over rows that are as long as the header, which has at least one field. */
  ghost predicate Rectangular(data: seq<seq<string>>, types: seq<ColType>) {
    types != [] && forall k :: 0 <= k < |data| ==> |data[k]| == |types|
  }

  predicate Fits(data: seq<seq<string>>, types: seq<ColType>) {
    forall k :: 0 <= k < |data| ==> |data[k]| == |types|
  }

  function PrintRows(c: Strconv, rows: seq<seq<string>>, types: seq<ColType>): (r: seq<string>)
    requires Fits(rows, types)
    ensures |r| == |rows|
  {
    if rows == [] then [] else [PrintRow(c, rows[0], types)] + PrintRows(c, rows[1..], types)
  }

  /** How texts are quoted, at one that has a quote in it. */
  lemma QuotingExample(c: Strconv)
    ensures EscapeValue(c, "it's", TEXT) == "'it''s'"
  {
    assert TrimSpace("it's") == "it's";
    assert ToUpper("it's")[0] == 'I';
    assert DoubleQuotes("s") == "s" + DoubleQuotes("") == "s";
    assert DoubleQuotes("'s") == "''" + DoubleQuotes("s");
    assert DoubleQuotes("t's") == "t" + DoubleQuotes("'s");
    assert DoubleQuotes("it's") == "i" + DoubleQuotes("t's");
  }

  /** How cells and rows are put together. */
  lemma RowsExample(c: Strconv, a: string, b: string, types: seq<ColType>)
    requires types == [TEXT, TEXT]
    ensures var x, y := EscapeValue(c, a, TEXT), EscapeValue(c, b, TEXT);
            var text := "(" + (x + "," + y) + ")" + ", " + ("(" + (y + "," + x) + ")");
            Join(PrintRows(c, [[a, b], [b, a]], types), ", ") == text
  {
    TwoCells(c, a, b, types);
    TwoCells(c, b, a, types);
    var rows := [[a, b], [b, a]];
    assert rows[1..] == [[b, a]] && rows[1..][1..] == [];
    assert PrintRows(c, rows, types) == [PrintRow(c, [a, b], types)] + PrintRows(c, rows[1..], types);
    assert PrintRows(c, rows[1..], types) == [PrintRow(c, [b, a], types)];
    TwoJoined(PrintRow(c, [a, b], types), PrintRow(c, [b, a], types), ", ");
  }

  lemma TwoJoined(a: string, b: string, sep: string)
    ensures Join([a] + [b], sep) == a + sep + b
  {
    assert ([a] + [b])[1..] == [b];
  }

  lemma TwoCells(c: Strconv, a: string, b: string, types: seq<ColType>)
    requires types == [TEXT, TEXT]
    ensures PrintRow(c, [a, b], types) == "(" + (EscapeValue(c, a, TEXT) + "," + EscapeValue(c, b, TEXT)) + ")"
  {
    assert [a, b][1..] == [b] && [b][1..] == [] && types[1..] == [TEXT] && types[1..][1..] == [];
    assert PrintCells(c, [a, b], types) == [EscapeValue(c, a, TEXT)] + PrintCells(c, [b], types[1..]);
    assert PrintCells(c, [b], types[1..]) == [EscapeValue(c, b, TEXT)];
    TwoJoined(EscapeValue(c, a, TEXT), EscapeValue(c, b, TEXT), ",");
  }

  // ---------------------------------------------------------------- the reader

  /** A literal of a SQL row: NULL, a number as it is written, or a string. */
  datatype Literal = Null | Bare(token: string) | Quoted(text: string)

  /** The rest of a string literal, after its opening quote: a doubled quote stands for one. */
  function ReadQuoted(s: string): (r: Option<(string, string)>)
    ensures r.Some? ==> |r.value.1| < |s|
  {
    if s == "" then None
    else if s[0] != '\'' then
      match ReadQuoted(s[1..])
      case None => None
      case Some((text, rest)) => Some(([s[0]] + text, rest))
    else if |s| > 1 && s[1] == '\'' then
      match ReadQuoted(s[2..])
      case None => None
      case Some((text, rest)) => Some((['\''] + text, rest))
    else Some(("", s[1..]))
  }

  /** The longest token at the start of `s`. */
  function ReadToken(s: string): (r: (string, string))
    ensures s == r.0 + r.1
  {
    if s == "" || !NumeralChar(s[0]) then ("", s)
    else
      var (token, rest) := ReadToken(s[1..]);
      ([s[0]] + token, rest)
  }

  function SkipSpaces(s: string): (r: string)
    ensures |r| <= |s|
  {
    if s != "" && s[0] == ' ' then SkipSpaces(s[1..]) else s
  }

  function ReadLiteral(s: string): (r: Option<(Literal, string)>)
    ensures r.Some? ==> |r.value.1| < |s|
  {
    if s == "" then None
    else if s[0] == '\'' then
      match ReadQuoted(s[1..])
      case None => None
      case Some((text, rest)) => Some((Quoted(text), rest))
    else
      var (token, rest) := ReadToken(s);
      if ToUpper(token) == "NULL" then Some((Null, rest))
      else if SqlNumber(token) then Some((Bare(token), rest))
      else None
  }

  /** The literals of one row, after its opening parenthesis, and what follows its closing one. */
  function ReadCells(s: string): (r: Option<(seq<Literal>, string)>)
    ensures r.Some? ==> |r.value.1| < |s|
    decreases |s|
  {
    match ReadLiteral(SkipSpaces(s))
    case None => None
    case Some((lit, rest)) =>
      var rest' := SkipSpaces(rest);
      if rest' == "" then None
      else if rest'[0] == ')' then Some(([lit], rest'[1..]))
      else if rest'[0] == ',' then
        match ReadCells(rest'[1..])
        case None => None
        case Some((lits, after)) => Some(([lit] + lits, after))
      else None
  }

  /** A list of rows up to the end of the text. */
  function ReadRows(s: string): Option<seq<seq<Literal>>>
    decreases |s|
  {
    var s' := SkipSpaces(s);
    if s' == "" || s'[0] != '(' then None
    else
      match ReadCells(s'[1..])
      case None => None
      case Some((row, rest)) =>
        var rest' := SkipSpaces(rest);
        if rest' == "" then Some([row])
        else if rest'[0] == ',' then
          match ReadRows(rest'[1..])
          case None => None
          case Some(rows) => Some([row] + rows)
        else None
  }

  // ---------------------------------------------------------------- the round trip

  /** What a cell is meant to arrive as. */
  function Meaning(c: Strconv, cell: string, t: ColType): Literal {
    var val := TrimSpace(cell);
    if val == "" || ToUpper(val) == "NULL" then Null
    else if t in {INTEGER, REAL} && ParseFloat(c, val) then Bare(val)
    else Quoted(val)
  }

  function RowMeaning(c: Strconv, row: seq<string>, types: seq<ColType>): (r: seq<Literal>)
    requires |row| == |types|
    ensures |r| == |row|
  {
    if row == [] then [] else [Meaning(c, row[0], types[0])] + RowMeaning(c, row[1..], types[1..])
  }

  function RowsMeaning(c: Strconv, rows: seq<seq<string>>, types: seq<ColType>): (r: seq<seq<Literal>>)
    requires Fits(rows, types)
    ensures |r| == |rows|
  {
    if rows == [] then [] else [RowMeaning(c, rows[0], types)] + RowsMeaning(c, rows[1..], types)
  }

  lemma ReadDoubled(tail: string, text: string, rest: string)
    requires ReadQuoted(tail) == Some((text, rest))
    ensures ReadQuoted("''" + tail) == Some((['\''] + text, rest))
  {
    assert ("''" + tail)[2..] == tail;
  }

  lemma ReadPlain(ch: char, tail: string, text: string, rest: string)
    requires ch != '\'' && ReadQuoted(tail) == Some((text, rest))
    ensures ReadQuoted([ch] + tail) == Some(([ch] + text, rest))
  {
    assert ([ch] + tail)[1..] == tail;
  }

  lemma ReadClosing(rest: string)
    requires rest == "" || rest[0] != '\''
    ensures ReadQuoted("'" + rest) == Some(("", rest))
  {
    assert ("'" + rest)[1..] == rest;
  }

  /** Doubling the quotes is undone by the reader, whatever the text, and nothing after is touched. */
  lemma {:induction false} QuotedRoundTrip(s: string, rest: string)
    requires rest == "" || rest[0] != '\''
    ensures ReadQuoted(DoubleQuotes(s) + ("'" + rest)) == Some((s, rest))
  {
    if s == "" {
      ReadClosing(rest);
      assert DoubleQuotes(s) + ("'" + rest) == "'" + rest;
    } else {
      QuotedRoundTrip(s[1..], rest);
      var d, tail := DoubleQuotes(s[1..]), DoubleQuotes(s[1..]) + ("'" + rest);
      assert [s[0]] + s[1..] == s;
      if s[0] == '\'' {
        ReadDoubled(tail, s[1..], rest);
        assert ("''" + d) + ("'" + rest) == "''" + tail;
      } else {
        ReadPlain(s[0], tail, s[1..], rest);
        assert ([s[0]] + d) + ("'" + rest) == [s[0]] + tail;
      }
    }
  }

  lemma {:induction false} TokenRoundTrip(token: string, rest: string)
    requires forall i :: 0 <= i < |token| ==> NumeralChar(token[i])
    requires rest == "" || !NumeralChar(rest[0])
    ensures ReadToken(token + rest) == (token, rest)
  {
    if token == "" {
      assert token + rest == rest;
    } else {
      TokenRoundTrip(token[1..], rest);
      assert (token + rest)[1..] == token[1..] + rest;
      assert [token[0]] + token[1..] == token;
    }
  }

  /**
   The cells that no SQL reader takes back: in a numeric column, the words for infinity and
   not-a-number, and hexadecimal floats. They are printed bare, and SQL has no such numbers.
   */
  predicate Unreadable(c: Strconv, cell: string, t: ColType) {
    var val := TrimSpace(cell);
    t != TEXT && (Special(val) || (HexFloat(Unsigned(val)) && c.inRange(val)))
  }

  lemma BareRoundTrip(val: string, rest: string)
    requires GoFloat(val) && ToUpper(val) != "NULL" && rest != "" && rest[0] in {',', ')'}
    ensures SkipSpaces(val + rest) == val + rest
    ensures ReadLiteral(val + rest)
         == if Special(val) || HexFloat(Unsigned(val)) then None else Some((Bare(val), rest))
  {
    GoFloatChars(val);
    TokenRoundTrip(val, rest);
    SqlTakesDecimals(val);
    assert NumeralChar(val[0]) && (val + rest)[0] == val[0];
  }

  lemma NullRoundTrip(rest: string)
    requires rest != "" && rest[0] in {',', ')'}
    ensures SkipSpaces("NULL" + rest) == "NULL" + rest
    ensures ReadLiteral("NULL" + rest) == Some((Null, rest))
  {
    TokenRoundTrip("NULL", rest);
    assert ToUpper("NULL") == "NULL";
  }

  lemma TextRoundTrip(val: string, rest: string)
    requires rest != "" && rest[0] in {',', ')'}
    ensures var s := ("'" + DoubleQuotes(val) + "'") + rest;
            SkipSpaces(s) == s && ReadLiteral(s) == Some((Quoted(val), rest))
  {
    QuotedRoundTrip(val, rest);
    var s := ("'" + DoubleQuotes(val) + "'") + rest;
    assert s[1..] == DoubleQuotes(val) + ("'" + rest);
  }

  lemma WordsAreNotNull(val: string)
    requires Special(val) || HexFloat(Unsigned(val))
    ensures val != "" && ToUpper(val) != "NULL"
  {
    if Special(val) {
      SpecialStart(val);
      if |val| == 4 {
        assert ToUpper(val)[0] == UpperChar(val[0]) && ToUpper(val)[1] == UpperChar(val[1]);
      }
    } else {
      assert ToUpper(val)[0] == UpperChar(val[0]);
    }
  }

  /**
   One printed cell reads back as what it means, and the reader stops at the delimiter, if and
   only if it is not one of the unreadable ones.
   */
  lemma CellRoundTrip(c: Strconv, cell: string, t: ColType, rest: string)
    requires rest != "" && rest[0] in {',', ')'}
    ensures var s := EscapeValue(c, cell, t) + rest;
            && SkipSpaces(s) == s
            && ReadLiteral(s) == if Unreadable(c, cell, t) then None else Some((Meaning(c, cell, t), rest))
  {
    var val := TrimSpace(cell);
    if Special(val) || HexFloat(Unsigned(val)) {
      WordsAreNotNull(val);
    }
    if val == "" || ToUpper(val) == "NULL" {
      NullRoundTrip(rest);
    } else if t != TEXT && ParseFloat(c, val) {
      BareRoundTrip(val, rest);
    } else {
      TextRoundTrip(val, rest);
    }
  }

  lemma SkipDelimiter(s: string)
    requires s != "" && s[0] != ' '
    ensures SkipSpaces(s) == s
  {
  }

  lemma LastCell(s: string, x: Literal, rest: string)
    requires SkipSpaces(s) == s && ReadLiteral(s) == Some((x, ")" + rest))
    ensures ReadCells(s) == Some(([x], rest))
  {
    SkipDelimiter(")" + rest);
    assert (")" + rest)[1..] == rest;
  }

  lemma MoreCells(s: string, x: Literal, tail: string)
    requires SkipSpaces(s) == s && ReadLiteral(s) == Some((x, "," + tail))
    ensures ReadCells(s) == match ReadCells(tail)
                            case None => None
                            case Some((row, rest)) => Some(([x] + row, rest))
  {
    SkipDelimiter("," + tail);
    assert ("," + tail)[1..] == tail;
  }

  /** Some cell of the row is unreadable. */
  predicate RowUnreadable(c: Strconv, row: seq<string>, types: seq<ColType>)
    requires |row| == |types|
  {
    row != [] && (Unreadable(c, row[0], types[0]) || RowUnreadable(c, row[1..], types[1..]))
  }

  /** A joined list with its closing parenthesis, split at its first element. */
  lemma JoinedCells(first: string, cells: seq<string>, rest: string)
    ensures Join([first] + cells, ",") + ")" + rest ==
            if cells == [] then first + (")" + rest) else first + ("," + (Join(cells, ",") + ")" + rest))
  {
    assert ([first] + cells)[1..] == cells;
  }

  /** A row reads back cell by cell, none merging into its neighbour, unless one is unreadable. */
  lemma {:induction false} CellsRoundTrip(c: Strconv, row: seq<string>, types: seq<ColType>, rest: string)
    requires |row| == |types| > 0
    ensures ReadCells(Join(PrintCells(c, row, types), ",") + ")" + rest)
         == if RowUnreadable(c, row, types) then None else Some((RowMeaning(c, row, types), rest))
  {
    JoinedCells(EscapeValue(c, row[0], types[0]), PrintCells(c, row[1..], types[1..]), rest);
    var first, x := EscapeValue(c, row[0], types[0]), Meaning(c, row[0], types[0]);
    var tail := Join(PrintCells(c, row[1..], types[1..]), ",") + ")" + rest;
    CellRoundTrip(c, row[0], types[0], if |row| == 1 then ")" + rest else "," + tail);
    if |row| > 1 {
      CellsRoundTrip(c, row[1..], types[1..], rest);
    }
    if !Unreadable(c, row[0], types[0]) {
      if |row| == 1 {
        LastCell(first + (")" + rest), x, rest);
        assert [x] + RowMeaning(c, row[1..], types[1..]) == [x];
      } else {
        MoreCells(first + ("," + tail), x, tail);
      }
    }
  }

  lemma LastRow(s: string)
    ensures ReadRows("(" + s) == match ReadCells(s)
                                 case None => None
                                 case Some((row, rest)) => if rest == "" then Some([row]) else ReadRows("(" + s)
  {
    assert ("(" + s)[1..] == s;
  }

  lemma MoreRows(s: string, row: seq<Literal>, tail: string)
    requires ReadCells(s) == Some((row, "," + tail))
    ensures ReadRows("(" + s) == match ReadRows(tail)
                                 case None => None
                                 case Some(rows) => Some([row] + rows)
  {
    assert ("(" + s)[1..] == s;
    assert ("," + tail)[1..] == tail;
  }

  lemma LeadingSpace(s: string)
    requires s != "" && s[0] == '('
    ensures ReadRows(" " + s) == ReadRows(s)
  {
    assert (" " + s)[1..] == s;
    SkipDelimiter(s);
  }

  /** A printed list of rows, split at its first row. */
  lemma JoinedRows(first: string, printed: seq<string>)
    ensures Join(["(" + first + ")"] + printed, ", ") ==
            if printed == [] then "(" + (first + ")" + "")
            else "(" + (first + ")" + ("," + (" " + Join(printed, ", "))))
  {
    assert ", " == "," + " ";
    assert (["(" + first + ")"] + printed)[1..] == printed;
  }

  lemma RowsSplit(c: Strconv, rows: seq<seq<string>>, types: seq<ColType>)
    requires Rectangular(rows, types) && rows != []
    ensures var first := Join(PrintCells(c, rows[0], types), ",");
            Join(PrintRows(c, rows, types), ", ") ==
            if |rows| == 1 then "(" + (first + ")" + "")
            else "(" + (first + ")" + ("," + (" " + Join(PrintRows(c, rows[1..], types), ", "))))
  {
    JoinedRows(Join(PrintCells(c, rows[0], types), ","), PrintRows(c, rows[1..], types));
  }

  /** Some cell of some row is unreadable. */
  predicate AnyUnreadable(c: Strconv, rows: seq<seq<string>>, types: seq<ColType>)
    requires Fits(rows, types)
  {
    rows != [] && (RowUnreadable(c, rows[0], types) || AnyUnreadable(c, rows[1..], types))
  }

  /** A printed list of rows reads back row by row and cell by cell, unless a cell is unreadable. */
  lemma {:induction false} RowsRoundTrip(c: Strconv, rows: seq<seq<string>>, types: seq<ColType>)
    requires Rectangular(rows, types) && rows != []
    ensures ReadRows(Join(PrintRows(c, rows, types), ", "))
         == if AnyUnreadable(c, rows, types) then None else Some(RowsMeaning(c, rows, types))
  {
    RowsSplit(c, rows, types);
    var first, row := Join(PrintCells(c, rows[0], types), ","), RowMeaning(c, rows[0], types);
    var rest := Join(PrintRows(c, rows[1..], types), ", ");
    CellsRoundTrip(c, rows[0], types, if |rows| == 1 then "" else "," + (" " + rest));
    if |rows| == 1 {
      LastRow(first + ")" + "");
      assert [row] + RowsMeaning(c, rows[1..], types) == [row];
    } else {
      RowsRoundTrip(c, rows[1..], types);
      RowsSplit(c, rows[1..], types);
      LeadingSpace(rest);
      if RowUnreadable(c, rows[0], types) {
        LastRow(first + ")" + ("," + (" " + rest)));
      } else {
        MoreRows(first + ")" + ("," + (" " + rest)), row, " " + rest);
      }
    }
  }

  // ---------------------------------------------------------------- batches

  const BATCH := 100

  /** The end of the batch that starts at position `b`. */
  function BatchEnd(data: seq<seq<string>>, b: nat): (end: nat)
    requires b < |data|
    ensures b < end <= |data| && end - b <= 100
    ensures end < |data| ==> end == b + 100
  {
    if b + BATCH > |data| then |data| else b + BATCH
  }

  /** The statement for the batch that starts at position `b`. */
  function BatchStatement(c: Strconv, prefix: string, types: seq<ColType>, data: seq<seq<string>>, b: nat): string
    requires Fits(data, types) && b < |data|
  {
    prefix + Join(PrintRows(c, data[b..BatchEnd(data, b)], types), ", ")
  }

  /** The statements for the rows from position `b` on, one INSERT per batch. */
  function InsertStatements(c: Strconv, prefix: string, types: seq<ColType>, data: seq<seq<string>>, b: nat): seq<string>
    requires Fits(data, types) && b <= |data|
    decreases |data| - b
  {
    if b == |data| then []
    else [BatchStatement(c, prefix, types, data, b)] + InsertStatements(c, prefix, types, data, BatchEnd(data, b))
  }

  /** What a database that reads the statements one after the other receives. */
  function ReadAll(prefix: string, stmts: seq<string>): Option<seq<seq<Literal>>> {
    if stmts == [] then Some([])
    else if !(prefix <= stmts[0]) then None
    else
      match (ReadRows(stmts[0][|prefix|..]), ReadAll(prefix, stmts[1..]))
      case (Some(rows), Some(more)) => Some(rows + more)
      case _ => None
  }

  lemma CutAt<T>(s: seq<T>, b: nat, end: nat)
    requires b <= end <= |s|
    ensures s[b..] == s[b..end] + s[end..]
  {
  }

  lemma {:induction false} MeaningSplit(c: Strconv, types: seq<ColType>, a: seq<seq<string>>, b: seq<seq<string>>)
    requires Fits(a, types) && Fits(b, types)
    ensures Fits(a + b, types)
    ensures RowsMeaning(c, a + b, types) == RowsMeaning(c, a, types) + RowsMeaning(c, b, types)
    ensures AnyUnreadable(c, a + b, types) <==> AnyUnreadable(c, a, types) || AnyUnreadable(c, b, types)
  {
    if a == [] {
      assert a + b == b;
    } else {
      assert (a + b)[1..] == a[1..] + b;
      MeaningSplit(c, types, a[1..], b);
    }
  }

  lemma ReadFirst(prefix: string, list: string, stmts: seq<string>)
    ensures ReadAll(prefix, [prefix + list] + stmts)
         == match (ReadRows(list), ReadAll(prefix, stmts))
            case (Some(rows), Some(more)) => Some(rows + more)
            case _ => None
  {
    assert (prefix + list)[|prefix|..] == list;
    assert ([prefix + list] + stmts)[1..] == stmts;
  }

  lemma {:induction false} RestOfImport(c: Strconv, prefix: string, types: seq<ColType>, data: seq<seq<string>>, b: nat)
    requires Rectangular(data, types) && b <= |data|
    ensures ReadAll(prefix, InsertStatements(c, prefix, types, data, b))
         == if AnyUnreadable(c, data[b..], types) then None else Some(RowsMeaning(c, data[b..], types))
    decreases |data| - b
  {
    if b == |data| {
      assert RowsMeaning(c, data[b..], types) == [];
    } else {
      var end := BatchEnd(data, b);
      var batch := data[b..end];
      RestOfImport(c, prefix, types, data, end);
      RowsRoundTrip(c, batch, types);
      CutAt(data, b, end);
      MeaningSplit(c, types, batch, data[end..]);
      ReadFirst(prefix, Join(PrintRows(c, batch, types), ", "), InsertStatements(c, prefix, types, data, end));
    }
  }

  /**
   The import round trip, for every table of cells and every column types: what a SQL reader
   takes from the statements together is, in order across all batches, what every cell means,
   if and only if the table has no unreadable cell. If it has one, its statement is refused.
   */
  lemma ImportRoundTrip(c: Strconv, prefix: string, types: seq<ColType>, data: seq<seq<string>>)
    requires Rectangular(data, types)
    ensures var read := ReadAll(prefix, InsertStatements(c, prefix, types, data, 0));
            && (read == Some(RowsMeaning(c, data, types)) <==> !AnyUnreadable(c, data, types))
            && (AnyUnreadable(c, data, types) ==> read == None)
            && (read.Some? ==> |read.value| == |data| && forall k :: 0 <= k < |data| ==> Arrives(c, data[k], types, read.value[k]))
  {
    RestOfImport(c, prefix, types, data, 0);
    assert data[0..] == data;
    forall k | 0 <= k < |data| ensures Arrives(c, data[k], types, RowsMeaning(c, data, types)[k]) {
      RowsMeaningAt(c, data, types, k);
      RowArrives(c, data[k], types);
    }
  }

  /** Cell by cell: NULL, the trimmed cell as a number, or the trimmed cell as a text. */
  ghost predicate Arrives(c: Strconv, row: seq<string>, types: seq<ColType>, lits: seq<Literal>)
    requires |row| == |types|
  {
    && |lits| == |row|
    && forall i :: 0 <= i < |row| ==>
         && (lits[i] == Null <==> TrimSpace(row[i]) == "" || ToUpper(TrimSpace(row[i])) == "NULL")
         && (lits[i].Bare? ==> lits[i].token == TrimSpace(row[i]) && types[i] != TEXT && ParseFloat(c, TrimSpace(row[i])))
         && (lits[i].Quoted? ==> lits[i].text == TrimSpace(row[i]) && (types[i] == TEXT || !ParseFloat(c, TrimSpace(row[i]))))
  }

  lemma {:induction false} RowArrives(c: Strconv, row: seq<string>, types: seq<ColType>)
    requires |row| == |types|
    ensures Arrives(c, row, types, RowMeaning(c, row, types))
  {
    if row != [] {
      var more := RowMeaning(c, row[1..], types[1..]);
      RowArrives(c, row[1..], types[1..]);
      forall i | 0 < i < |row| ensures RowMeaning(c, row, types)[i] == more[i - 1] && row[i] == row[1..][i - 1] && types[i] == types[1..][i - 1] {
      }
    }
  }

  lemma {:induction false} RowsMeaningAt(c: Strconv, rows: seq<seq<string>>, types: seq<ColType>, k: nat)
    requires Fits(rows, types) && k < |rows|
    ensures RowsMeaning(c, rows, types)[k] == RowMeaning(c, rows[k], types)
  {
    if k > 0 {
      RowsMeaningAt(c, rows[1..], types, k - 1);
    }
  }

  lemma AddNothing<T>(s: seq<T>)
    ensures [] + s == s
  {
  }

  lemma MoveOne<T>(sent: seq<T>, x: T, rest: seq<T>)
    ensures sent + ([x] + rest) == (sent + [x]) + rest
  {
  }

  /** The inner loop: one row's cells. */
  method PrintCellsOf(c: Strconv, row: seq<string>, types: seq<ColType>) returns (phs: seq<string>)
    requires |row| == |types|
    ensures phs == PrintCells(c, row, types)
  {
    phs := [];
    for i := 0 to |row|
      invariant PrintCells(c, row, types) == phs + PrintCells(c, row[i..], types[i..])
    {
      assert row[i..][1..] == row[i + 1..] && types[i..][1..] == types[i + 1..];
      var ph := EscapeValue(c, row[i], types[i]);
      MoveOne(phs, ph, PrintCells(c, row[i + 1..], types[i + 1..]));
      phs := phs + [ph];
    }
  }

  /** The loops that print one batch. */
  method PrintBatch(c: Strconv, batch: seq<seq<string>>, types: seq<ColType>) returns (placeholders: seq<string>)
    requires Fits(batch, types)
    ensures placeholders == PrintRows(c, batch, types)
  {
    placeholders := [];
    for k := 0 to |batch|
      invariant PrintRows(c, batch, types) == placeholders + PrintRows(c, batch[k..], types)
    {
      assert batch[k..][1..] == batch[k + 1..];
      var phs := PrintCellsOf(c, batch[k], types);
      MoveOne(placeholders, PrintRow(c, batch[k], types), PrintRows(c, batch[k + 1..], types));
      placeholders := placeholders + ["(" + Join(phs, ",") + ")"];
    }
  }

  /** One statement, for the batch at `b`. */
  method PrintStatement(c: Strconv, prefix: string, types: seq<ColType>, data: seq<seq<string>>, b: nat)
      returns (stmt: string, end: nat)
    requires Fits(data, types) && b < |data|
    ensures stmt == BatchStatement(c, prefix, types, data, b) && end == BatchEnd(data, b)
  {
    end := b + BATCH;
    if end > |data| {
      end := |data|;
    }
    var placeholders := PrintBatch(c, data[b..end], types);
    stmt := prefix + Join(placeholders, ", ");
  }

  /** The server accepted each of the first `n` statements. */
  predicate Accepted(accepted: nat -> bool, n: int)
    decreases n
  {
    n <= 0 || (Accepted(accepted, n - 1) && accepted(n - 1))
  }

  /**
   The batch loop. `accepted` is the server's answer to the k-th statement; a refusal ends the
   import. What has been sent, and the statements for the rows from `b` on, are all statements;
   no rows are left unless a statement was refused.
   */
  method ImportBatches(c: Strconv, prefix: string, types: seq<ColType>, data: seq<seq<string>>, accepted: nat -> bool)
      returns (ok: bool, sent: seq<string>, b: nat)
    requires Fits(data, types)
    ensures b <= |data|
    ensures InsertStatements(c, prefix, types, data, 0) == sent + InsertStatements(c, prefix, types, data, b)
    ensures ok ==> b == |data|
    ensures !ok ==> sent != [] && !accepted(|sent| - 1)
    ensures Accepted(accepted, if ok then |sent| else |sent| - 1)
  {
    ok, sent, b := true, [], 0;
    AddNothing(InsertStatements(c, prefix, types, data, 0));
    while b < |data|
      invariant b <= |data| && ok
      invariant InsertStatements(c, prefix, types, data, 0) == sent + InsertStatements(c, prefix, types, data, b)
      invariant Accepted(accepted, |sent|)
    {
      var stmt;
      stmt, b := PrintStatement(c, prefix, types, data, b);
      MoveOne(sent, stmt, InsertStatements(c, prefix, types, data, b));
      sent := sent + [stmt];
      if !accepted(|sent| - 1) {
        return false, sent, b;
      }
    }
  }

  // ---------------------------------------------------------------- inference and printing

  lemma {:induction false} DoublingIsLonger(s: string)
    ensures |DoubleQuotes(s)| >= |s|
  {
    if s != "" { DoublingIsLonger(s[1..]); }
  }

  lemma NumbersAreNotNull(val: string)
    requires GoFloat(val)
    ensures val != "" && val[0] != '\'' && ToUpper(val) != "NULL"
  {
    if Special(val) || HexFloat(Unsigned(val)) {
      WordsAreNotNull(val);
    } else {
      DecimalStart(Unsigned(val));
      assert ToUpper(val)[0] == UpperChar(val[0]);
    }
    GoFloatChars(val);
    assert NumeralChar(val[0]);
  }

  lemma NumericKind(c: Strconv, cell: string)
    requires Lawful(c)
    ensures KindOf(c, cell) in {Whole, Fraction} <==> ParseFloat(c, TrimSpace(cell))
  {
    var val := TrimSpace(cell);
    if GoWhole(val) { WholeIsDecimal(val); }
    if ParseFloat(c, val) { NumbersAreNotNull(val); }
  }

  /**
   In a numeric column exactly the numeric cells are printed bare, in a text column none is;
   every other cell that is not NULL is printed in quotes.
   */
  lemma BareIffNumeric(c: Strconv, cell: string, t: ColType)
    requires Lawful(c)
    ensures var val, printed := TrimSpace(cell), EscapeValue(c, cell, t);
            var numeric := KindOf(c, cell) in {Whole, Fraction};
            && (printed == val && ToUpper(val) != "NULL" <==> t != TEXT && numeric)
            && (printed[0] == '\'' <==> val != "" && ToUpper(val) != "NULL" && (t == TEXT || !numeric))
  {
    var val := TrimSpace(cell);
    NumericKind(c, cell);
    DoublingIsLonger(val);
    if ParseFloat(c, val) { NumbersAreNotNull(val); }
  }

  /**
   The unreadable cells do come up: a column of "1" and then "NaN" is inferred to be numeric,
   and its second cell is printed as the bare word, which no SQL reader takes for a number.
   */
  lemma NaNIsPrintedBare(c: Strconv)
    requires c.fitsInt("1")
    ensures ColumnType(c, ["1"] + ["NaN"]) == INTEGER
    ensures EscapeValue(c, "NaN", INTEGER) == "NaN"
    ensures Unreadable(c, "NaN", INTEGER)
  {
    ColumnTypeNext(c, [], "1");
    ColumnTypeNext(c, ["1"], "NaN");
    assert [] + ["1"] == ["1"];
    assert TrimSpace("1") == "1" && TrimSpace("NaN") == "NaN";
    assert GoWhole("1");
    assert Lower('N') == 'n' && Lower('a') == 'a';
    assert IsWord("NaN", "nan");
    assert !IsDigit("NaN"[0], false);
    WordsAreNotNull("NaN");
  }

  /**
   The closed form's parts mean what they say: the cut is right after the last cell that is
   neither empty nor numeric, and a column is TEXT exactly when every later cell is empty.
   */
  lemma InferredColumn(c: Strconv, cells: seq<string>)
    ensures var kinds := Kinds(c, cells);
            var k := Cut(kinds);
            && (k > 0 ==> kinds[k - 1] == Other)
            && (forall j :: k <= j < |kinds| ==> kinds[j] != Other)
            && (ColumnType(c, cells) == TEXT <==> forall j :: k <= j < |kinds| ==> kinds[j] == Empty)
  {
    CutMeaning(Kinds(c, cells));
    FirstNumericMeaning(Kinds(c, cells), Cut(Kinds(c, cells)));
  }

  lemma {:induction false} CutMeaning(kinds: seq<Kind>)
    ensures var k := Cut(kinds);
            && (k > 0 ==> kinds[k - 1] == Other)
            && (forall j :: k <= j < |kinds| ==> kinds[j] != Other)
  {
    if kinds != [] && kinds[|kinds| - 1] != Other {
      CutMeaning(kinds[..|kinds| - 1]);
    }
  }

  lemma {:induction false} FirstNumericMeaning(kinds: seq<Kind>, k: nat)
    requires k <= |kinds|
    ensures var r := FirstNumeric(kinds, k);
            && (r < |kinds| ==> kinds[r] in {Whole, Fraction})
            && (forall j :: k <= j < r ==> kinds[j] !in {Whole, Fraction})
    decreases |kinds| - k
  {
    if k < |kinds| && kinds[k] !in {Whole, Fraction} {
      FirstNumericMeaning(kinds, k + 1);
    }
  }
}
