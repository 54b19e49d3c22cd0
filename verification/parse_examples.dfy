/**
 * Worked inputs of `parseDelimitedText`, derived from the general lemmas of
 * the parser rather than by evaluation: a text without a line break, a
 * comma-separated text with a number and a non-number cell, a text whose
 * tab header makes the parser split a comma-separated row on tabs, and a text
 * with a `__proto__` column, which no record keeps.
 */
module ParseExamples {
  import opened Options
  import opened Text
  import opened Numbers
  import opened Delimited

  // ---------------------------------------------------------------- general steps

  /** A text without a line feed has fewer than two lines, hence no records. */
  lemma NoLineBreakNoRecords(text: string)
    requires '\n' !in text
    ensures Parse(text) == []
  {
    ParseCount(text);
    TrimSlice(text);
    var i :| SpaceAround(text, Trim(text), i);
    assert forall k :: 0 <= k < |Trim(text)| ==> Trim(text)[k] == text[i + k];
  }

  /** The lines of a trimmed, CR-free text made by joining LF-free pieces are those pieces. */
  lemma LinesOfJoined(text: string, parts: seq<string>)
    requires |parts| >= 1 && forall i :: 0 <= i < |parts| ==> '\n' !in parts[i]
    requires text == Join(parts, "\n") && Trimmed(text) && '\r' !in text
    ensures Lines(Trim(text)) == parts
  {
    TrimFixed(text);
    LinesWithoutCR(text);
    JoinSplit(parts, '\n');
  }

  /** A line holding one separator splits into the two pieces around it. */
  lemma SplitPair(line: string, x: string, y: string, d: char)
    requires d !in x && d !in y && line == x + [d] + y
    ensures Split(line, d) == [x, y]
  {
    JoinSplit([x, y], d);
    assert Join([x, y], [d]) == line;
  }

  /** A header line of two trimmed names around its delimiter yields those two names. */
  lemma HeaderPair(h: string, x: string, y: string)
    requires Delimiter(h) !in x && Delimiter(h) !in y && h == x + [Delimiter(h)] + y
    requires Trimmed(x) && Trimmed(y)
    ensures Headers(h) == [x, y]
  {
    SplitPair(h, x, y, Delimiter(h));
    TrimFixed(x);
    TrimFixed(y);
  }

  /** With two distinct header names, neither `__proto__`, a record is the two cells under those names, in order. */
  lemma TwoColumns(h1: string, h2: string, vs: seq<string>)
    requires h1 != h2 && h1 != ProtoKey && h2 != ProtoKey
    ensures MakeRecord([h1, h2], vs) == [Field(h1, CellAt(vs, 0)), Field(h2, CellAt(vs, 1))]
  {
    var hs, cs := [h1, h2], Cells(vs, 2);
    var f1 := Field(h1, cs[0]);
    assert Build(hs, cs, 1) == Put([], h1, cs[0]) == [f1];
    assert Put([f1], h2, cs[1]) == [f1] + Put([], h2, cs[1]);
  }

  /** A `__proto__` column before another column leaves only the other column's cell. */
  lemma ProtoThenColumn(h2: string, vs: seq<string>)
    requires h2 != ProtoKey
    ensures MakeRecord([ProtoKey, h2], vs) == [Field(h2, CellAt(vs, 1))]
  {
    var hs, cs := [ProtoKey, h2], Cells(vs, 2);
    assert Build(hs, cs, 1) == Put([], ProtoKey, cs[0]) == [];
  }

  /** A token holding the text of an integer becomes that integer. */
  lemma IntegerCell(vs: seq<string>, i: nat, n: int)
    requires i < |vs| && vs[i] == IntText(n) && Trimmed(vs[i])
    ensures CellAt(vs, i) == Num(n as real)
  {
    TrimFixed(vs[i]);
    CoerceIntegerText(n);
  }

  /** A trimmed token that fails the number test stays text. */
  lemma TextCell(vs: seq<string>, i: nat)
    requires i < |vs| && Trimmed(vs[i]) && !IsFiniteNumber(vs[i])
    ensures CellAt(vs, i) == Str(vs[i])
  {
    TrimFixed(vs[i]);
    CoerceRule(vs[i]);
  }

  /** The records of a text with one data line. */
  lemma OneDataLine(text: string, h: string, l1: string, hs: seq<string>, t1: seq<string>)
    requires Lines(Trim(text)) == [h, l1]
    requires Headers(h) == hs && Split(l1, Delimiter(h)) == t1
    ensures Parse(text) == [MakeRecord(hs, t1)]
  {
    assert [h, l1][1..] == [l1];
    assert Parse(text) == Rows(Headers(h), Delimiter(h), [l1]);
  }

  /** The records of a text with two data lines. */
  lemma TwoDataLines(text: string, h: string, l1: string, l2: string, hs: seq<string>, t1: seq<string>, t2: seq<string>)
    requires Lines(Trim(text)) == [h, l1, l2]
    requires Headers(h) == hs && Split(l1, Delimiter(h)) == t1 && Split(l2, Delimiter(h)) == t2
    ensures Parse(text) == [MakeRecord(hs, t1), MakeRecord(hs, t2)]
  {
    assert [h, l1, l2][1..] == [l1, l2];
    assert Parse(text) == Rows(Headers(h), Delimiter(h), [l1, l2]);
  }

  // ---------------------------------------------------------------- the inputs

  // Each text, and the lines and tokens it is made of, enters a lemma as a
  // parameter pinned by `requires` rather than as a literal in its body, so
  // that the solver meets every literal once instead of unfolding it at each use.

  /** The empty text and a header line alone both give no records. */
  lemma ShortTexts()
    ensures Parse("") == []
    ensures Parse("onlyheader") == []
  {
    NoLineBreakNoRecords("");
    NoLineBreakNoRecords("onlyheader");
  }

  /** The lines of `a,b` / `1,2` / `3,x`. */
  lemma CommaLines(text: string)
    requires text == "a,b\n1,2\n3,x"
    ensures Lines(Trim(text)) == ["a,b", "1,2", "3,x"]
  {
    LinesOfJoined(text, ["a,b", "1,2", "3,x"]);
  }

  /** `a,b` / `1,2` / `3,x` gives one record per data line, keyed by the header tokens. */
  lemma CommaRows(text: string, h: string, l1: string, l2: string, hs: seq<string>, t1: seq<string>, t2: seq<string>)
    requires text == "a,b\n1,2\n3,x" && h == "a,b" && l1 == "1,2" && l2 == "3,x"
    requires hs == ["a", "b"] && t1 == ["1", "2"] && t2 == ["3", "x"]
    ensures Parse(text) == [MakeRecord(hs, t1), MakeRecord(hs, t2)]
  {
    CommaLines(text);
    CommaFields(h, l1, l2, hs, t1, t2);
    TwoDataLines(text, h, l1, l2, hs, t1, t2);
  }

  /** The header names and the row tokens of `a,b` / `1,2` / `3,x`, all split on commas. */
  lemma CommaFields(h: string, l1: string, l2: string, hs: seq<string>, t1: seq<string>, t2: seq<string>)
    requires h == "a,b" && l1 == "1,2" && l2 == "3,x"
    requires hs == ["a", "b"] && t1 == ["1", "2"] && t2 == ["3", "x"]
    ensures Headers(h) == hs && Split(l1, Delimiter(h)) == t1 && Split(l2, Delimiter(h)) == t2
  {
    assert Delimiter(h) == ',';
    HeaderPair(h, hs[0], hs[1]);
    SplitPair(l1, t1[0], t1[1], ',');
    SplitPair(l2, t2[0], t2[1], ',');
  }

  /** The tokens `1` and `2` under `a` and `b` become the numbers 1 and 2. */
  lemma CommaFirstRecord(hs: seq<string>, t1: seq<string>)
    requires hs == ["a", "b"] && t1 == ["1", "2"]
    ensures MakeRecord(hs, t1) == [Field("a", Num(1.0)), Field("b", Num(2.0))]
  {
    assert IntText(1) == t1[0] && IntText(2) == t1[1];
    IntegerCell(t1, 0, 1);
    IntegerCell(t1, 1, 2);
    TwoColumns(hs[0], hs[1], t1);
  }

  /** The tokens `3` and `x` under `a` and `b` become the number 3 and the text `x`. */
  lemma CommaSecondRecord(hs: seq<string>, t2: seq<string>)
    requires hs == ["a", "b"] && t2 == ["3", "x"]
    ensures MakeRecord(hs, t2) == [Field("a", Num(3.0)), Field("b", Str("x"))]
  {
    assert IntText(3) == t2[0];
    IntegerCell(t2, 0, 3);
    assert !IsDigit(t2[1][0]) && IntPart(t2[1]) == t2[1];
    TextCell(t2, 1);
    TwoColumns(hs[0], hs[1], t2);
  }

  /** `a,b` over `1,2` and `3,x`: two records keyed a and b; `x` is not a number and stays text. */
  lemma CommaText(text: string)
    requires text == "a,b\n1,2\n3,x"
    ensures Parse(text)
         == [[Field("a", Num(1.0)), Field("b", Num(2.0))], [Field("a", Num(3.0)), Field("b", Str("x"))]]
  {
    CommaRows(text, "a,b", "1,2", "3,x", ["a", "b"], ["1", "2"], ["3", "x"]);
    CommaFirstRecord(["a", "b"], ["1", "2"]);
    CommaSecondRecord(["a", "b"], ["3", "x"]);
  }

  /** `a<TAB>b` / `1,2` gives one record, from the data line split on tabs. */
  lemma TabRow(text: string, h: string, l1: string, hs: seq<string>, t1: seq<string>)
    requires text == "a\tb\n1,2" && h == "a\tb" && l1 == "1,2"
    requires hs == ["a", "b"] && t1 == ["1,2"]
    ensures Parse(text) == [MakeRecord(hs, t1)]
  {
    LinesOfJoined(text, [h, l1]);
    TabFields(h, l1, hs, t1);
    OneDataLine(text, h, l1, hs, t1);
  }

  /** The tab header gives the names `a` and `b`; the comma row, split on tabs, is one token. */
  lemma TabFields(h: string, l1: string, hs: seq<string>, t1: seq<string>)
    requires h == "a\tb" && l1 == "1,2"
    requires hs == ["a", "b"] && t1 == ["1,2"]
    ensures Headers(h) == hs && Split(l1, Delimiter(h)) == t1
  {
    assert Delimiter(h) == '\t';
    HeaderPair(h, hs[0], hs[1]);
    JoinSplit(t1, '\t');
  }

  /** The one token `1,2` is not a number and stays text; `b` has no token and gets the empty text. */
  lemma TabValues(hs: seq<string>, t1: seq<string>)
    requires hs == ["a", "b"] && t1 == ["1,2"]
    ensures MakeRecord(hs, t1) == [Field("a", Str("1,2")), Field("b", Str(""))]
  {
    assert !IsDigit(t1[0][1]) && IntPart(t1[0]) == t1[0];
    TextCell(t1, 0);
    CellPastEnd(t1, 1);
    TwoColumns(hs[0], hs[1], t1);
  }

  /**
   * A tab in the header line makes tab the delimiter for every row: the
   * comma-separated data line stays one token, the first column gets all of
   * it, and the second column, past the end of the row, gets the empty text.
   */
  lemma TabHeaderWins(text: string)
    requires text == "a\tb\n1,2"
    ensures Parse(text) == [[Field("a", Str("1,2")), Field("b", Str(""))]]
  {
    TabRow(text, "a\tb", "1,2", ["a", "b"], ["1,2"]);
    TabValues(["a", "b"], ["1,2"]);
  }

  /** `__proto__,b` / `1,2` gives one record, from the data line split on commas. */
  lemma ProtoRow(text: string, h: string, l1: string, hs: seq<string>, t1: seq<string>)
    requires text == "__proto__,b\n1,2" && h == "__proto__,b" && l1 == "1,2"
    requires hs == ["__proto__", "b"] && t1 == ["1", "2"]
    ensures Parse(text) == [MakeRecord(hs, t1)]
  {
    LinesOfJoined(text, [h, l1]);
    ProtoFields(h, l1, hs, t1);
    OneDataLine(text, h, l1, hs, t1);
  }

  /** The header names and the row tokens of `__proto__,b` / `1,2`, split on commas. */
  lemma ProtoFields(h: string, l1: string, hs: seq<string>, t1: seq<string>)
    requires h == "__proto__,b" && l1 == "1,2"
    requires hs == ["__proto__", "b"] && t1 == ["1", "2"]
    ensures Headers(h) == hs && Split(l1, Delimiter(h)) == t1
  {
    assert Delimiter(h) == ',';
    HeaderPair(h, hs[0], hs[1]);
    SplitPair(l1, t1[0], t1[1], ',');
  }

  /** Under `__proto__` and `b`, only `b` is stored, holding the number 2. */
  lemma ProtoValues(hs: seq<string>, t1: seq<string>)
    requires hs == ["__proto__", "b"] && t1 == ["1", "2"]
    ensures MakeRecord(hs, t1) == [Field("b", Num(2.0))]
  {
    assert IntText(2) == t1[1];
    IntegerCell(t1, 1, 2);
    ProtoThenColumn(hs[1], t1);
  }

  /**
   * A `__proto__` header names no key: the assignment to it is taken by the
   * prototype setter, so each record holds only the other columns.
   */
  lemma ProtoHeaderDropped(text: string)
    requires text == "__proto__,b\n1,2"
    ensures Parse(text) == [[Field("b", Num(2.0))]]
  {
    ProtoRow(text, "__proto__,b", "1,2", ["__proto__", "b"], ["1", "2"]);
    ProtoValues(["__proto__", "b"], ["1", "2"]);
  }
}
