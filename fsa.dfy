/**
  A deterministic finite automaton driven by an explicit transition table.
  It is loaded from the lines of a text file: the alphabet symbols in
  column order, comma-separated; one line of comma-separated next states
  per state; and a last line `{a1,...,ak}` naming the accept states. State 0
  is the initial state. A transition that cannot be looked up leaves the
  state as it is.
 */
module Automata {
  import opened Wrappers
  import opened Text

  const DELIMITER: char := ','
  const INITIAL_STATE: int := 0

  // ---------------------------------------------------------------------------
  // Reading the table text
  // ---------------------------------------------------------------------------

  /** Every token reads as a Java `int`. */
  predicate AllInts(tokens: seq<string>) {
    forall k :: 0 <= k < |tokens| ==> ParseInt(tokens[k]).Some?
  }

  /** The values of tokens that all read as `int`s, in order. */
  function IntsOf(tokens: seq<string>): (values: seq<int>)
    requires AllInts(tokens)
    ensures |values| == |tokens|
    ensures forall k :: 0 <= k < |tokens| ==> ParseInt(tokens[k]) == Some(values[k]) && IsInt32(values[k])
  {
    seq(|tokens|, k requires 0 <= k < |tokens| => ParseInt(tokens[k]).value)
  }

  /** A state line's fields all read as `int`s and there are no more of them than columns. */
  predicate RowParsable(line: string, width: nat) {
    AllInts(Split(line, DELIMITER)) && |Split(line, DELIMITER)| <= width
  }

  /** The accept line without its first and last characters (the braces). */
  function AcceptText(line: string): string
    requires |line| >= 2
  {
    line[1..|line| - 1]
  }

  /**
    What the constructor needs of the lines to finish without an exception:
    when there are at least three lines, every state line is parsable for
    as many columns as the alphabet line has fields, and the last line has
    at least two characters with a list of `int`s between them.
   */
  predicate Parsable(rows: seq<string>) {
    |rows| < 3 ||
    (&& (forall i :: 1 <= i <= |rows| - 2 ==> RowParsable(rows[i], |Split(rows[0], DELIMITER)|))
     && |rows[|rows| - 1]| >= 2
     && AllInts(Split(AcceptText(rows[|rows| - 1]), DELIMITER)))
  }

  /** One row of the table: the values of the line's fields, left to right, then zeros up to the width. */
  function ParseRow(line: string, width: nat): (row: seq<int>)
    requires RowParsable(line, width)
    ensures |row| == width
  {
    var values := IntsOf(Split(line, DELIMITER));
    values + seq(width - |values|, _ => 0)
  }

  /** The alphabet the constructor reads: the first line split at commas, when there are at least three lines. */
  function ParseAlphabet(rows: seq<string>): (alphabet: Option<seq<string>>)
    ensures alphabet.Some? <==> |rows| >= 3
  {
    if |rows| - 2 > 0 then Some(Split(rows[0], DELIMITER)) else None
  }

  /**
    The table the constructor reads: one row per line between the first and
    the last, each exactly as wide as the alphabet.
   */
  function ParseTable(rows: seq<string>): (table: Option<seq<seq<int>>>)
    requires Parsable(rows)
    ensures table.Some? <==> |rows| >= 3
    ensures table.Some? ==> |table.value| == |rows| - 2
    ensures table.Some? ==> forall i :: 0 <= i < |table.value| ==>
              |table.value[i]| == |ParseAlphabet(rows).value| && forall k :: 0 <= k < |table.value[i]| ==> IsInt32(table.value[i][k])
    ensures table.Some? ==> forall i, k :: 0 <= i < |table.value| && 0 <= k < |table.value[i]| ==>
              if k < |Split(rows[i + 1], DELIMITER)| then ParseInt(Split(rows[i + 1], DELIMITER)[k]) == Some(table.value[i][k])
              else table.value[i][k] == 0
  {
    if |rows| - 2 > 0 then
      var width := |Split(rows[0], DELIMITER)|;
      Some(seq(|rows| - 2, i requires 0 <= i < |rows| - 2 => ParseRow(rows[i + 1], width)))
    else None
  }

  /** The accept states the constructor reads: the last line, braces dropped, split at commas. */
  function ParseAccepts(rows: seq<string>): (accepts: Option<seq<int>>)
    requires Parsable(rows)
    ensures accepts.Some? <==> |rows| >= 3
    ensures accepts.Some? ==> var tokens := Split(AcceptText(rows[|rows| - 1]), DELIMITER);
              |accepts.value| == |tokens| && forall k :: 0 <= k < |tokens| ==> ParseInt(tokens[k]) == Some(accepts.value[k])
  {
    if |rows| - 2 > 0 then Some(IntsOf(Split(AcceptText(rows[|rows| - 1]), DELIMITER))) else None
  }

  // ---------------------------------------------------------------------------
  // Writing the table text
  // ---------------------------------------------------------------------------

  /** `String.valueOf` of each value. */
  function Decimals(values: seq<int>): (tokens: seq<string>)
    ensures |tokens| == |values|
  {
    seq(|values|, k requires 0 <= k < |values| => IntToString(values[k]))
  }

  /** The values written in decimal and joined by commas. */
  function JoinInts(values: seq<int>): string
  {
    Join(Decimals(values), DELIMITER)
  }

  /** One line per table row. */
  function RowLines(table: seq<seq<int>>): (lines: seq<string>)
    ensures |lines| == |table|
  {
    seq(|table|, i requires 0 <= i < |table| => JoinInts(table[i]))
  }

  /**
    The lines `toString` writes: the alphabet joined by commas, each table
    row joined by commas, and the accept states in braces; a field that is
    not set contributes no line.
   */
  function RenderLines(alphabet: Option<seq<string>>, table: Option<seq<seq<int>>>, accepts: Option<seq<int>>): seq<string>
  {
    AlphabetLines(alphabet) + TableLines(table) + AcceptLines(accepts)
  }

  function AlphabetLines(alphabet: Option<seq<string>>): seq<string>
  {
    if alphabet.Some? then [Join(alphabet.value, DELIMITER)] else []
  }

  function TableLines(table: Option<seq<seq<int>>>): seq<string>
  {
    if table.Some? then RowLines(table.value) else []
  }

  function AcceptLines(accepts: Option<seq<int>>): seq<string>
  {
    if accepts.Some? then ["{" + JoinInts(accepts.value) + "}"] else []
  }

  /**
    Fills one row of the table, as the constructor's inner loop does: a
    fresh row of zeros, then each field of the line read as an `int` into
    the next column.
   */
  method ReadRow(line: string, width: nat) returns (row: seq<int>)
    requires RowParsable(line, width)
    ensures row == ParseRow(line, width)
  {
    var column := 0;
    var entries := new int[width](_ => 0);
    var fields := Split(line, DELIMITER);
    ghost var values := IntsOf(fields);
    for f := 0 to |fields|
      invariant column == f
      invariant forall k :: 0 <= k < f ==> entries[k] == values[k]
      invariant forall k :: f <= k < entries.Length ==> entries[k] == 0
    {
      entries[column] := ParseInt(fields[f]).value;
      column := column + 1;
    }
    FilledRowIsParsed(entries[..], values, width);
    row := entries[..];
  }

  class TableDrivenFsa {
    /** Alphabet symbols, ordered by column of the transition table. */
    const alphabet: Option<seq<string>>
    /** The next state for each state (row) and symbol column. */
    const table: Option<seq<seq<int>>>
    /** The accept states. */
    const acceptStates: Option<seq<int>>

    /**
      The three fields are set and every row is as wide as the alphabet, as
      they are after reading a table of at least three lines.
     */
    predicate Valid() {
      && alphabet.Some? && table.Some? && acceptStates.Some?
      && forall i :: 0 <= i < |table.value| ==> |table.value[i]| == |alphabet.value|
    }

    /**
      Reads the automaton from the lines of its table file. With fewer than
      three lines nothing is set; otherwise the first line gives the
      alphabet, each following line but the last gives one row of the table
      (fields left to right, unfilled columns 0), and the last line gives
      the accept states.
     */
    constructor (rows: seq<string>)
      requires Parsable(rows)
      ensures alphabet == ParseAlphabet(rows)
      ensures table == ParseTable(rows)
      ensures acceptStates == ParseAccepts(rows)
      ensures Valid() <==> |rows| >= 3
    {
      var numStates := |rows| - 2;
      if numStates > 0 {
        var symbols := Split(rows[0], DELIMITER);
        var transitions: seq<seq<int>> := [];
        for i := 1 to numStates + 1
          invariant |transitions| == i - 1
          invariant forall k :: 0 <= k < i - 1 ==> transitions[k] == ParseRow(rows[k + 1], |symbols|)
        {
          assert RowParsable(rows[i], |symbols|);
          var row := ReadRow(rows[i], |symbols|);
          transitions := transitions + [row];
        }
        ParsedRowsAreTable(transitions, rows);
        var last := rows[|rows| - 1];
        var accepts := Split(last[1..|last| - 1], DELIMITER);
        alphabet := Some(symbols);
        table := Some(transitions);
        acceptStates := Some(IntsOf(accepts));
      } else {
        alphabet := None;
        table := None;
        acceptStates := None;
      }
    }

    /** Writes the automaton back in the layout the constructor reads, each line followed by a newline. */
    method ToString() returns (retVal: string)
      ensures retVal == Unlines(RenderLines(alphabet, table, acceptStates))
    {
      retVal := "";
      ghost var lines: seq<string> := [];
      if alphabet.Some? {
        retVal := Join(alphabet.value, DELIMITER);
        retVal := retVal + "\n";
        UnlinesSnoc([], Join(alphabet.value, DELIMITER));
        lines := [Join(alphabet.value, DELIMITER)];
      }
      assert lines == AlphabetLines(alphabet) && retVal == Unlines(lines);
      ghost var head := lines;
      if table.Some? {
        var rows := table.value;
        for i := 0 to |rows|
          invariant lines == head + RowLines(rows[..i])
          invariant retVal == Unlines(lines)
        {
          RowLinesStep(head, rows, i);
          UnlinesSnoc(lines, JoinInts(rows[i]));
          lines := lines + [JoinInts(rows[i])];
          retVal := retVal + JoinInts(rows[i]);
          retVal := retVal + "\n";
        }
        assert rows[..|rows|] == rows;
      } else {
        assert head + [] == head;
      }
      assert lines == AlphabetLines(alphabet) + TableLines(table) && retVal == Unlines(lines);
      ghost var body := lines;
      if acceptStates.Some? {
        ghost var line := "{" + JoinInts(acceptStates.value) + "}";
        UnlinesSnoc(lines, line);
        BracedLineAppend(retVal, JoinInts(acceptStates.value));
        lines := lines + [line];
        retVal := retVal + "{";
        retVal := retVal + JoinInts(acceptStates.value);
        retVal := retVal + "}\n";
      } else {
        assert body + [] == body;
      }
      assert lines == RenderLines(alphabet, table, acceptStates) && retVal == Unlines(lines);
    }

    /** The alphabet as `nextState` searches it: the symbols joined by commas, then every comma removed. */
    function SymbolText(): (text: string)
      requires alphabet.Some?
      ensures DELIMITER !in text
      ensures (forall k :: 0 <= k < |alphabet.value| ==> DELIMITER !in alphabet.value[k]) ==> text == Flatten(alphabet.value)
    {
      var text := Remove(Join(alphabet.value, DELIMITER), DELIMITER);
      if forall k :: 0 <= k < |alphabet.value| ==> DELIMITER !in alphabet.value[k] then
        RemoveOfJoin(alphabet.value, DELIMITER);
        text
      else
        text
    }

    /**
      The state after reading one symbol. The column is the character offset
      of the symbol's first occurrence in `SymbolText()`; when the symbol is
      null, does not occur, or the state or column is outside the table, the
      state stays as it is.
     */
    function NextState(currentState: int, inputSymbol: Option<string>): (r: int)
      requires inputSymbol.Some? ==> Valid()
      ensures inputSymbol.None? ==> r == currentState
      ensures inputSymbol.Some? && !(0 <= currentState < |table.value|) ==> r == currentState
      ensures inputSymbol.Some? && (forall k :: !OccursAt(SymbolText(), inputSymbol.value, k)) ==> r == currentState
      ensures r != currentState ==> inputSymbol.Some? && 0 <= currentState < |table.value| && r in table.value[currentState]
    {
      if inputSymbol.Some? then
        var x := IndexOf(SymbolText(), inputSymbol.value);
        if 0 <= currentState < |table.value| && 0 <= x < |table.value[currentState]| then
          table.value[currentState][x]
        else
          currentState // the ArrayIndexOutOfBoundsException is caught
      else
        currentState
    }

    /** The state reached from `state` by reading `input` one character at a time, left to right. */
    function Run(state: int, input: string): int
      requires |input| > 0 ==> Valid()
      decreases |input|
    {
      if |input| == 0 then state
      else NextState(Run(state, input[..|input| - 1]), Some([input[|input| - 1]]))
    }

    /**
      Whether the automaton accepts the input: the state reached from the
      initial state is an accept state. A null or empty input is rejected
      outright, even when the initial state is an accept state.
     */
    method ProcessString(inputString: Option<string>) returns (accept: bool)
      requires inputString.Some? && |inputString.value| > 0 ==> Valid()
      ensures inputString.None? || inputString == Some("") ==> !accept
      ensures inputString.Some? && |inputString.value| > 0 ==>
                (accept <==> Run(INITIAL_STATE, inputString.value) in acceptStates.value)
    {
      var start := INITIAL_STATE;
      if inputString.Some? {
        var input := inputString.value;
        for j := 0 to |input|
          invariant |input| == 0 || j < |input|
          invariant start == Run(INITIAL_STATE, input[..j])
        {
          var c := input[j];
          // The first and the later characters are handled alike.
          assert input[..j + 1][..j] == input[..j];
          start := NextState(start, Some([c]));
          if j == |input| - 1 {
            assert input[..j + 1] == input;
            accept := start in acceptStates.value;
            return;
          }
        }
      }
      accept := false;
    }
  }

  // ---------------------------------------------------------------------------
  // Properties
  // ---------------------------------------------------------------------------

  /**
    What `toString` needs of an automaton for its lines to read back: a
    non-empty alphabet of symbols without commas whose last symbol is
    non-empty when there are several (`split` drops trailing empty
    fields), at least one state, rows as wide as the alphabet holding
    `int`s, and at least one accept state.
   */
  predicate Renderable(alphabet: seq<string>, table: seq<seq<int>>, accepts: seq<int>) {
    && |alphabet| > 0
    && (forall k :: 0 <= k < |alphabet| ==> DELIMITER !in alphabet[k])
    && (|alphabet| == 1 || alphabet[|alphabet| - 1] != "")
    && |table| > 0
    && (forall i :: 0 <= i < |table| ==> |table[i]| == |alphabet|)
    && (forall i, k :: 0 <= i < |table| && 0 <= k < |table[i]| ==> IsInt32(table[i][k]))
    && |accepts| > 0
    && (forall k :: 0 <= k < |accepts| ==> IsInt32(accepts[k]))
  }

  /** A non-empty list of `int`s written with commas reads back as the same list. */
  lemma DecimalsRoundTrip(values: seq<int>)
    requires |values| > 0
    requires forall k :: 0 <= k < |values| ==> IsInt32(values[k])
    ensures Split(JoinInts(values), DELIMITER) == Decimals(values)
    ensures AllInts(Decimals(values)) && IntsOf(Decimals(values)) == values
  {
    var tokens := Decimals(values);
    forall k | 0 <= k < |tokens| ensures ParseInt(tokens[k]) == Some(values[k]) {
      ParseIntToString(values[k]);
    }
    SplitOfJoin(tokens, DELIMITER);
  }

  /**
    Reading back what `toString` writes gives the same alphabet in the same
    order, the same table and the same accept states.
   */
  lemma RenderThenParse(alphabet: seq<string>, table: seq<seq<int>>, accepts: seq<int>)
    requires Renderable(alphabet, table, accepts)
    ensures var lines := RenderLines(Some(alphabet), Some(table), Some(accepts));
      && Parsable(lines)
      && ParseAlphabet(lines) == Some(alphabet)
      && ParseTable(lines) == Some(table)
      && ParseAccepts(lines) == Some(accepts)
  {
    var lines := RenderLines(Some(alphabet), Some(table), Some(accepts));
    RenderLinesLayout(alphabet, table, accepts);
    SplitOfJoin(alphabet, DELIMITER);
    forall i | 1 <= i <= |lines| - 2
      ensures RowParsable(lines[i], |alphabet|) && ParseRow(lines[i], |alphabet|) == table[i - 1]
    {
      RowReadsBack(table[i - 1]);
    }
    assert AcceptText(lines[|lines| - 1]) == JoinInts(accepts);
    DecimalsRoundTrip(accepts);
    assert ParseTable(lines).value == table;
  }

  /** Where each part of the automaton lands among the lines `toString` writes. */
  lemma RenderLinesLayout(alphabet: seq<string>, table: seq<seq<int>>, accepts: seq<int>)
    ensures var lines := RenderLines(Some(alphabet), Some(table), Some(accepts));
      && |lines| == |table| + 2
      && lines[0] == Join(alphabet, DELIMITER)
      && (forall i :: 1 <= i <= |table| ==> lines[i] == JoinInts(table[i - 1]))
      && lines[|lines| - 1] == "{" + JoinInts(accepts) + "}"
  {
    var first, rowLines, last := Join(alphabet, DELIMITER), RowLines(table), "{" + JoinInts(accepts) + "}";
    assert RenderLines(Some(alphabet), Some(table), Some(accepts)) == [first] + rowLines + [last];
    BetweenFirstAndLast(first, rowLines, last);
    RowLinesAt(table);
  }

  lemma BetweenFirstAndLast(first: string, middle: seq<string>, last: string)
    ensures var lines := [first] + middle + [last];
      && |lines| == |middle| + 2
      && lines[0] == first
      && (forall i :: 1 <= i <= |middle| ==> lines[i] == middle[i - 1])
      && lines[|lines| - 1] == last
  {
  }

  /** Line i of the written rows is row i written with commas. */
  lemma RowLinesAt(table: seq<seq<int>>)
    ensures forall i :: 0 <= i < |table| ==> RowLines(table)[i] == JoinInts(table[i])
  {
  }

  /** A row written by `toString` reads back as the same row. */
  lemma RowReadsBack(row: seq<int>)
    requires |row| > 0
    requires forall k :: 0 <= k < |row| ==> IsInt32(row[k])
    ensures RowParsable(JoinInts(row), |row|) && ParseRow(JoinInts(row), |row|) == row
  {
    DecimalsRoundTrip(row);
  }

  /**
    The round trip needs an accept state: with none, `toString` writes the
    last line `{}`, and the empty text between the braces is not an `int`,
    so the constructor cannot read that text.
   */
  lemma NoAcceptStatesDoNotReadBack(alphabet: seq<string>, table: seq<seq<int>>)
    requires |table| > 0
    ensures !Parsable(RenderLines(Some(alphabet), Some(table), Some([])))
  {
    var lines := RenderLines(Some(alphabet), Some(table), Some([]));
    assert JoinInts([]) == "";
    assert lines[|lines| - 1] == "{}";
    var tokens := Split(AcceptText(lines[|lines| - 1]), DELIMITER);
    assert tokens == [""];
    assert ParseInt(tokens[0]) == None;
  }

  /**
    When every symbol is one character other than the comma and no two are
    the same, symbol `k` is found at column `k`: from a state of the table
    it takes the transition in that column.
   */
  lemma NextStateOfSingleCharSymbols(fsa: TableDrivenFsa, state: int, k: int)
    requires fsa.Valid()
    requires forall j :: 0 <= j < |fsa.alphabet.value| ==> |fsa.alphabet.value[j]| == 1 && fsa.alphabet.value[j][0] != DELIMITER
    requires forall i, j :: 0 <= i < j < |fsa.alphabet.value| ==> fsa.alphabet.value[i] != fsa.alphabet.value[j]
    requires 0 <= state < |fsa.table.value|
    requires 0 <= k < |fsa.alphabet.value|
    ensures fsa.NextState(state, Some(fsa.alphabet.value[k])) == fsa.table.value[state][k]
  {
    var symbols := fsa.alphabet.value;
    var text := fsa.SymbolText();
    RemoveOfJoin(symbols, DELIMITER);
    FlattenOfSingles(symbols);
    var x := IndexOf(text, symbols[k]);
    assert OccursAt(text, symbols[k], k) by {
      assert text[k..k + 1] == [text[k]];
    }
    assert x != -1 && x <= k;
    assert text[x..x + 1] == [text[x]];
    assert symbols[x] == [symbols[x][0]];
  }

  /** Reading `u + v` is reading `u`, then `v` from wherever `u` led. */
  lemma {:induction false} RunAppend(fsa: TableDrivenFsa, state: int, u: string, v: string)
    requires |u + v| > 0 ==> fsa.Valid()
    ensures fsa.Run(state, u + v) == fsa.Run(fsa.Run(state, u), v)
    decreases |v|
  {
    if |v| == 0 {
      assert u + v == u;
    } else {
      var w := u + v;
      assert w[..|w| - 1] == u + v[..|v| - 1];
      RunAppend(fsa, state, u, v[..|v| - 1]);
    }
  }

  /**
    A character that occurs in no symbol never moves the automaton: the
    input reads as if it were not there. This holds for the comma in
    particular, which `nextState` removes from the alphabet text.
   */
  lemma RunSkipsForeignChar(fsa: TableDrivenFsa, state: int, u: string, c: char, v: string)
    requires fsa.Valid()
    requires c !in fsa.SymbolText()
    ensures fsa.Run(state, u + [c] + v) == fsa.Run(state, u + v)
  {
    RunAppend(fsa, state, u + [c], v);
    RunAppend(fsa, state, u, v);
    assert (u + [c])[..|u|] == u;
  }

  /**
    With multi-character symbols the column is a character offset rather
    than a symbol index: for the alphabet `ab,c` the symbol `c` is found at
    offset 2, past the last column, and leaves the state as it is, while
    `b` (offset 1) takes the transition in the column of `c`.
   */
  lemma MultiCharSymbolsUseCharacterOffsets(fsa: TableDrivenFsa)
    requires fsa.Valid() && fsa.alphabet.value == ["ab", "c"]
    requires |fsa.table.value| > 0
    ensures fsa.NextState(0, Some("ab")) == fsa.table.value[0][0]
    ensures fsa.NextState(0, Some("b")) == fsa.table.value[0][1]
    ensures fsa.NextState(0, Some("c")) == 0
  {
    assert Join(["ab", "c"], DELIMITER) == "ab,c";
    RemoveOfJoin(["ab", "c"], DELIMITER);
    assert fsa.SymbolText() == "abc";
    assert OccursAt("abc", "ab", 0);
    assert OccursAt("abc", "b", 1) && !OccursAt("abc", "b", 0);
    assert OccursAt("abc", "c", 2) && !OccursAt("abc", "c", 0) && !OccursAt("abc", "c", 1);
  }

  lemma TwoStateText()
    ensures ["a,b", "1,0", "0,1", "{1}"] == RenderLines(Some(["a", "b"]), Some([[1, 0], [0, 1]]), Some([1]))
  {
    assert Join(["a", "b"], DELIMITER) == "a,b";
    assert IntToString(0) == "0" && IntToString(1) == "1";
    assert Decimals([1, 0]) == ["1", "0"] && Decimals([0, 1]) == ["0", "1"] && Decimals([1]) == ["1"];
    assert JoinInts([1, 0]) == "1,0" && JoinInts([0, 1]) == "0,1" && JoinInts([1]) == "1";
    assert RowLines([[1, 0], [0, 1]]) == ["1,0", "0,1"];
    assert "{" + "1" + "}" == "{1}";
  }

  lemma TwoStateParse()
    ensures var lines := ["a,b", "1,0", "0,1", "{1}"];
      && Parsable(lines)
      && ParseAlphabet(lines) == Some(["a", "b"])
      && ParseTable(lines) == Some([[1, 0], [0, 1]])
      && ParseAccepts(lines) == Some([1])
  {
    TwoStateText();
    RenderThenParse(["a", "b"], [[1, 0], [0, 1]], [1]);
  }

  lemma TwoStateRuns(fsa: TableDrivenFsa)
    requires fsa.alphabet == Some(["a", "b"]) && fsa.table == Some([[1, 0], [0, 1]]) && fsa.acceptStates == Some([1])
    ensures fsa.Run(INITIAL_STATE, "a") == 1 && fsa.Run(INITIAL_STATE, "b") == 0
  {
    NextStateOfSingleCharSymbols(fsa, 0, 0);
    NextStateOfSingleCharSymbols(fsa, 0, 1);
    assert "a"[..0] == "" && "b"[..0] == "";
  }

  /**
    The automaton over `a,b` with rows `1,0` and `0,1` and accept states
    `{1}`: it accepts `a`, rejects `b`, and rejects the empty input.
   */
  method TwoStateExample() returns (onA: bool, onB: bool, onEmpty: bool)
    ensures onA && !onB && !onEmpty
  {
    TwoStateParse();
    var fsa := new TableDrivenFsa(["a,b", "1,0", "0,1", "{1}"]);
    TwoStateRuns(fsa);
    onA := fsa.ProcessString(Some("a"));
    onB := fsa.ProcessString(Some("b"));
    onEmpty := fsa.ProcessString(Some(""));
  }

  // ---------------------------------------------------------------------------
  // Helpers for the proofs
  // ---------------------------------------------------------------------------

  /** A row filled field by field, zeros elsewhere, is the parsed row. */
  lemma FilledRowIsParsed(row: seq<int>, values: seq<int>, width: nat)
    requires |values| <= width && |row| == width
    requires forall k :: 0 <= k < |values| ==> row[k] == values[k]
    requires forall k :: |values| <= k < width ==> row[k] == 0
    ensures row == values + seq(width - |values|, _ => 0)
  {
  }

  /** The rows read one per line between the first and the last make up the parsed table. */
  lemma ParsedRowsAreTable(transitions: seq<seq<int>>, rows: seq<string>)
    requires Parsable(rows) && |rows| >= 3
    requires |transitions| == |rows| - 2
    requires forall k :: 0 <= k < |rows| - 2 ==> transitions[k] == ParseRow(rows[k + 1], |Split(rows[0], DELIMITER)|)
    ensures ParseTable(rows) == Some(transitions)
  {
    assert ParseTable(rows).value == transitions;
  }

  lemma BracedLineAppend(text: string, values: string)
    ensures text + "{" + values + "}\n" == text + ("{" + values + "}") + "\n"
  {
    assert "}\n" == "}" + "\n";
  }

  lemma RowLinesStep(head: seq<string>, rows: seq<seq<int>>, i: nat)
    requires i < |rows|
    ensures head + RowLines(rows[..i + 1]) == head + RowLines(rows[..i]) + [JoinInts(rows[i])]
  {
    assert RowLines(rows[..i + 1]) == RowLines(rows[..i]) + [JoinInts(rows[i])];
  }
}
