# Finite languages and table-driven automata in Dafny

This project models two small classes from a theory-of-computation
teaching repository and proves properties of them.

- **`Language`** is a finite language. It is a set of strings that is
  changed in place by `addString` and `addAllStrings`. It can be queried
  with `isEmpty`, `cardinality` and `includes`, and it is listed in
  ascending `String.compareTo` order by its iterator. `concatenate` builds
  a fresh language with a nested loop over both operands. `equals`
  compares the underlying sets.
- **`TableDrivenFSA`** is a deterministic finite automaton. It reads three
  things from the lines of a text file: an alphabet line, one line of next
  states per state, and an accept-state line in braces. `nextState` looks
  up one transition and falls back to the current state when the lookup
  fails. `processString` runs the automaton over an input string from
  state 0. `toString` writes the three fields back in the same line
  layout.

The model is laid out in five files:

- `language.dfy` (module `Languages`) is a class with a `set<string>`
  field and imperative `AddString`, `AddAllStrings` and `Concatenate`.
- `fsa.dfy` (module `Automata`) is a class whose three fields are set
  once, by a constructor that parses the lines in nested loops. The inner
  loop, which fills one row, is the method `ReadRow`. The module also
  holds a `ToString` method with an accumulating loop, a `NextState`
  lookup function, and a `ProcessString` method proved against the fold
  `Run`.
- `text.dfy` (module `Text`) models the Java library pieces the
  automaton relies on:
  - `String.split` with a one-character delimiter, dropping trailing
    empty fields;
  - `String.join`;
  - `String.replace` of one character by nothing;
  - `String.indexOf`;
  - `Integer.parseInt` within the 32-bit range;
  - `String.valueOf(int)`.
- `string_order.dfy` (module `StringOrder`) models the `String.compareTo`
  order and the ascending listing of a set, which is what iterating a
  `TreeSet<String>` yields.
- `wrappers.dfy` holds `Option`, which stands for a Java reference that
  may be null.

The model keeps two behaviours of the code exactly as written:

- **Symbol lookup by character offset.** `nextState` finds a symbol's
  column by its character offset in the alphabet symbols written
  together. When the symbols are distinct single characters other than
  the comma, the offset is the symbol's index
  (`NextStateOfSingleCharSymbols`). With longer symbols the two can
  differ, as `MultiCharSymbolsUseCharacterOffsets` shows for the alphabet
  `ab,c`.
- **Empty input is rejected.** `processString` rejects the empty string
  even when state 0 is an accept state.

The round trip from `toString` back through the constructor is proved
under these conditions:

- there is at least one symbol;
- the symbols are comma-free;
- when there are several symbols, the last one is non-empty, since
  `split` drops trailing empty fields;
- there is at least one state;
- there is at least one accept state.

The round trip is proved for the list of lines, not for the text that
joins them with newlines. A symbol that contains a line break would split
its line when the text is read back line by line. That case is not
covered.

With no accept states, `toString` writes `{}`, which the constructor
cannot read back (`NoAcceptStatesDoNotReadBack`).

## Model

| member | source | states |
|---|---|---|
| Languages.Language.constructor | Language.java:26-28 | a new language holds no strings, is empty and has cardinality 0 |
| Languages.Language.IsEmpty | Language.java:35-38 | true exactly when the language has no strings |
| Languages.Language.Cardinality | Language.java:44-47 | the number of strings, between 0 and `Integer.MAX_VALUE`, exact whenever it fits in an `int`; 0 exactly when the language is empty |
| Languages.Language.Includes | Language.java:55-58 | membership agrees with what iteration lists |
| Languages.Language.AddString | Language.java:66-71 | afterwards the set is the old set plus the string, which is then included; returns true exactly when the string was absent before, so repeating the call returns false |
| Languages.Language.AddAllStrings | Language.java:79-84 | afterwards the set is the old set plus every string of the collection; returns true exactly when some string of the collection was absent before |
| Languages.Language.Elements | Language.java:90-94 | the iteration order: strictly ascending in `compareTo` order, each member exactly once, nothing else |
| StringOrder.SortedIsUnique | Language.java:90-94 | any strictly ascending listing of exactly the members is the iteration order, so the order strings were inserted in cannot show |
| StringOrder.Sorted | Language.java:27 | the listing of a set that a `TreeSet` iterator gives is ascending, has the same members and the same size |
| Languages.Language.Concatenate | Language.java:102-130 | returns a fresh language holding exactly the strings x + y for x in this language and y in the argument; neither operand changes |
| Languages.ReferenceTestsAddConcatenation | Language.java:113-124 | whichever empty strings are the literal `""` object, one of the three reference-comparison branches fires and adds a string equal to x + y |
| Languages.ConcatIdentity | Language.java:102-130 | `{""}` is a left and a right identity of concatenation |
| Languages.ConcatEmpty | Language.java:107-110 | concatenating with the empty language on either side gives the empty language |
| Languages.ConcatTwoByTwo | Language.java:102-130 | `{a, b}` concatenated with `{x, y}` is `{ax, ay, bx, by}` |
| Languages.ConcatCollapsesDuplicates | Language.java:113-124 | pairs that concatenate to the same string count once: `{"", w}` with itself gives the three strings `""`, w and ww |
| Languages.Language.Equals | Language.java:133-139 | two languages are equal exactly when they list the same strings |
| Languages.EqualsIsEquivalence | Language.java:133-139 | equality of languages is reflexive, symmetric and transitive |
| Languages.InsertionOrderIrrelevant | Language.java:66-84 | for any two sequences with the same members, a language built by adding the first one string at a time equals a language built by adding all of the second at once, whatever the order and repetitions |
| Languages.SecondAddReportsNoChange | Language.java:66-71 | adding a string to a language reports a change the first time and no change the second time |
| Languages.ContributionByReference | Language.java:113-124 | whichever empty strings are the literal `""` object, some branch fires and adds a string as long as x and y together |
| StringOrder.Below | Language.java:27 | the order is irreflexive, and a proper prefix comes before the longer string |
| Text.Split | TableDrivenFSA.java:52 | no field contains the delimiter; a string without the delimiter is its own single field; otherwise the last field kept is non-empty, since trailing empty fields are dropped |
| Text.JoinLayout | TableDrivenFSA.java:75 | the joined text is as long as the parts plus one separator between each pair of neighbours, and starts with the first part followed by a separator when a second part follows |
| Text.Remove | TableDrivenFSA.java:108 | the result contains no occurrence of the removed character and is never longer than the input |
| Text.IntToString | TableDrivenFSA.java:81 | the decimal text of an `int` is non-empty and contains no comma, so it can be a field of a comma-joined line |
| Automata.TableDrivenFsa.SymbolText | TableDrivenFSA.java:107-108 | the text the symbol is searched in has no comma, and it is the symbols written one after the other whenever no symbol contains a comma |
| Text.SplitOfJoin | TableDrivenFSA.java:52 | splitting at a delimiter undoes joining with it, for delimiter-free parts whose last part is non-empty |
| Text.IndexOf | TableDrivenFSA.java:109 | the offset of the first occurrence of the pattern, or -1 exactly when it occurs nowhere |
| Text.RemoveOfJoin | TableDrivenFSA.java:107-108 | removing the commas from the comma-joined symbols writes the symbols one after the other |
| Text.ParseInt | TableDrivenFSA.java:59 | a token read as an integer always yields a 32-bit `int` |
| Text.ParseIntToString | TableDrivenFSA.java:81 | every `int` written in decimal reads back as itself |
| Automata.IntsOf | TableDrivenFSA.java:65-67 | one value per token, each the token's value as an `int` |
| Automata.ParseAlphabet | TableDrivenFSA.java:50-52 | the alphabet is set exactly when there are at least three lines |
| Automata.ParseRow | TableDrivenFSA.java:56-60 | a parsed row has exactly one entry per alphabet symbol |
| Automata.ReadRow | TableDrivenFSA.java:56-60 | filling a fresh row of zeros column by column from the line's fields gives exactly the parsed row |
| Automata.ParseTable | TableDrivenFSA.java:50-61 | with at least three lines, L - 2 rows each as wide as the alphabet; entry k of row i is field k of line i + 1, or 0 when the line has fewer fields; unset with fewer lines |
| Automata.ParseAccepts | TableDrivenFSA.java:62-67 | with at least three lines, one accept state per field of the last line between its first and last characters; unset with fewer lines |
| Automata.TableDrivenFsa.constructor | TableDrivenFSA.java:40-69 | the fields are what the lines parse to; all three are set, with every row as wide as the alphabet, exactly when there are at least three lines |
| Automata.TableDrivenFsa.ToString | TableDrivenFSA.java:72-94 | the text is the alphabet line, one line per row and the braced accept line, each ending in a newline, with unset fields omitted |
| Automata.DecimalsRoundTrip | TableDrivenFSA.java:80-82 | a non-empty list of `int`s joined with commas splits and reads back as the same list |
| Automata.RenderThenParse | TableDrivenFSA.java:72-94 | parsing the lines `toString` writes gives back the same alphabet, in the same order, the same table and the same accept states |
| Automata.NoAcceptStatesDoNotReadBack | TableDrivenFSA.java:86-92 | with no accept states the written text ends in `{}`, which the constructor cannot parse |
| Automata.TableDrivenFsa.NextState | TableDrivenFSA.java:104-125 | a null symbol, a symbol that occurs nowhere in the alphabet text, or a state outside the table leaves the state unchanged; any other result is an entry of the current state's row |
| Automata.NextStateOfSingleCharSymbols | TableDrivenFSA.java:107-114 | with distinct one-character symbols other than the comma, symbol k from state s moves to entry k of row s |
| Automata.MultiCharSymbolsUseCharacterOffsets | TableDrivenFSA.java:107-109 | for the alphabet `ab,c`, `c` falls past the last column and leaves the state unchanged, while `b` takes the transition in the column of `c` |
| Automata.TableDrivenFsa.ProcessString | TableDrivenFSA.java:132-156 | a null or empty input is rejected; otherwise the input is accepted exactly when the state reached from state 0 by reading it character by character is an accept state |
| Automata.RunAppend | TableDrivenFSA.java:137-146 | reading u then v is reading u and then reading v from where u led |
| Automata.RunSkipsForeignChar | TableDrivenFSA.java:109-117 | a character that occurs in no symbol never moves the automaton; the input reads as if it were absent |
| Automata.TwoStateExample | TableDrivenFSA.java:132-156 | the automaton with alphabet `a,b`, rows `1,0` and `0,1` and accept states `{1}` accepts `a` and rejects `b` and the empty input |

## Left out

- Automata.TableDrivenFsa.NextState counts the symbol's offset in code points (Dafny characters). Java's `indexOf` counts UTF-16 code units, so with a supplementary character such as U+1F600 in the alphabet the column can differ.
- Text.IndexOf returns an offset in code points, where Java's `indexOf` returns one in UTF-16 code units.
- Reading the table file and reporting a failed read (TableDrivenFSA.java:41-48) is I/O. The constructor takes the lines already read, and an unreadable file corresponds to zero lines.
- The debug printing of each state in `processString`, the `main` demo driver, and `Serializable`/`serialVersionUID` have no effect on any result.
- `hashCode` depends on Java's string and set hash algorithms, which are not part of this model.
- `iterator()` is modelled by the sequence it yields (`Elements`). The `Iterator` object and its `remove` operation are not modelled.
- Java exceptions on malformed input are excluded by preconditions rather than modelled:
  - `Parsable` excludes the `NumberFormatException` for a non-numeric field and the array overflow for a row with more fields than symbols;
  - `Valid()` excludes the `NullPointerException` of `nextState` on an automaton built from fewer than three lines;
  - `Equals` takes a non-null `Language`, excluding the `ClassCastException` and `NullPointerException`;
  - `Concatenate` takes a non-null `Language`, excluding the `NullPointerException` of `concatenate(null)` (Language.java:106);
  - `AddAllStrings` takes a sequence, never null, excluding the `NullPointerException` of `addAllStrings(null)` (Language.java:82);
  - strings are never null, so `TreeSet`'s null-element exceptions cannot arise.
- Languages.Language.AddString compares exact set sizes. Java's `size()` saturates at `Integer.MAX_VALUE`, so for sets of more than 2^31 - 1 strings Java would report no change where the model reports one.
- Languages.Language.AddAllStrings compares exact set sizes, with the same saturation caveat as `AddString`.
- Languages.Language.Concatenate tests for the empty string by value where the code compares references. `ReferenceTestsAddConcatenation` proves that every outcome of the reference tests adds the same string.
- Text.ParseInt accepts ASCII digits only. `Integer.parseInt` also accepts other Unicode decimal digits.
- StringOrder.Below compares Dafny characters, which are Unicode scalar values. Java compares UTF-16 code units, so the order differs for characters outside the Basic Multilingual Plane.
- Automata.TableDrivenFsa.ProcessString steps over Dafny characters. Java's `charAt` steps over UTF-16 code units, so a supplementary character is one step here and two in Java.
- Text.Split covers only a one-character delimiter that is not a regular-expression metacharacter, which is the only way the code calls `split`.
- The transition table and the other fields are immutable sequences. The Java arrays are never changed after construction, so aliasing them is not modelled.
