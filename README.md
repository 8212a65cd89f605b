# SLR(1) parser generator, modelled in Dafny

`app.py` reads a context-free grammar written one production line per row
(`E -> E + T | T`, `^` for the empty body), builds the SLR(1) parsing table
for it, and runs the table-driven shift-reduce parser on a line of input,
recording a trace (step, stack, symbols, input, action) of every pass of
its loop. This project models that core and proves properties of it:

- **Text** (`text.dfy`): the Python string operations the reader uses:
  `splitlines`, `split()`, `split('|')`, `partition(' -> ')`, `join`,
  `isupper` and `str` of a number, written out on `seq<char>`, with their
  round trips proved.
- **GrammarModel / GrammarFacts** (`grammar.dfy`): `Grammar.__init__`. An
  imperative reader (`ParseGrammar`) is proved equal to a line-by-line
  specification (`Build`). The two `ValueError`s are modelled as
  `GrammarError`s: a head that is not upper case, and `^` beside other
  symbols. Lemmas say what a successful read holds: its productions and
  symbols, its start symbol, and that terminals and nonterminals are
  disjoint.
- **FirstFollow** (`firstfollow.dfy`): `first_follow` and its inner
  `union`. The `while True` loop is proved to end with FIRST and FOLLOW
  closed under the FIRST and FOLLOW rules. The result is the least such
  pair, so it is the same whatever order the loop visits bodies in.
- **Automaton / Transitions / Collection** (`automaton.dfy`, `goto.dfy`,
  `items.dfy`): `CLOSURE`, `GOTO` and `items`, each a method proved equal
  to a specification function. `items` ends with a collection of distinct,
  non-empty states. The collection holds the closed start state, and every
  non-empty `GOTO` of a state on a grammar symbol is in it.
- **Cells / Table / TableFacts** (`cells.dfy`, `table.dfy`,
  `tablefacts.dfy`): `construct_table`, proved equal row by row to a
  specification. Lemmas tie each cell to the actions the items of its state
  demand. A cell is empty iff nothing is demanded. A single demand is
  written as `sN` / `rJ`. A cell holds `/` iff two different actions are
  demanded, and holds more than one `r` iff two different reductions are.
  An accept renders as text starting with `acc`, and goto columns hold the
  index of the `GOTO` state.
- **SlrParser** (`parser.dfy`): `SLRParser.__init__`. It builds the
  augmented grammar from the text `S' -> S` followed by the grammar's own
  lines, numbers the productions (`G_indexed`), and assembles FIRST/FOLLOW,
  the collection and the table. Lemmas state, for each state of a parser,
  what its shift, reduce, accept and goto cells hold.
- **Driver / ParserRuns** (`driver.dfy`, `runs.dfy`): `LR_parser`. Its
  loop is a method proved equal to a pass-by-pass specification (`Step`,
  `Run`). Outcomes: the loop goes on, it breaks with its trace, or it
  raises `IndexError`, `ValueError`, `KeyError` or `TypeError`. Lemmas
  cover:
  - what a shift and a reduce do to the stacks;
  - that the trace stays aligned;
  - that `accept` is recorded exactly when the cell is `acc`;
  - that, on a table built by `SLRParser` and for an input `w` with no `$`
    token, `accept` happens only once the whole input has been shifted.

The modelled code keeps the behaviours of `app.py` that a reader might not
expect:
- The reader stores body tuples in a set, so equal bodies collapse.
  An empty piece such as the one after a trailing `|` becomes the empty body.
- `CLOSURE` stops as soon as a pass adds no new head. It can then miss
  start items that pass added under an existing head.
  `Automaton.ClosureCanStopEarly` exhibits this on the grammar
  `A -> x B | D`, `B -> A`, `D -> d`: the closure of `A -> x . B` lacks
  `D -> . d`.
- The accept of CASE 2 c overwrites the "$" cell. A later reduce in that
  column is appended after it (`acc/r3`).
- If a grammar uses `$` as a terminal, a shift can be appended to `acc`
  (`accs3`). No branch of `LR_parser` handles that cell, so the loop never
  ends: `Driver.IllegibleLoops`.

## Model

| member | source | states |
|---|---|---|
| `Text.Fields` | app.py:26 | every piece is non-empty and free of separators (the shape `str.split()` gives) |
| `Text.FieldsKeepEverythingElse` | app.py:26 | concatenating the pieces of a split gives back exactly the non-separator characters of the input |
| `Text.FieldsAroundSeparator` | app.py:26 | splitting `s + [sep] + t` splits `s` and `t` separately and concatenates the results |
| `Text.FieldsOfJoin` | app.py:8 | splitting a join of non-empty, separator-free parts gives back the parts (the `grammar_str` round trip) |
| `Text.SplitOn` | app.py:26 | `s.split(c)` gives at least one piece and no piece contains `c` |
| `Text.JoinSplitOn` | app.py:26 | joining the pieces of `s.split(c)` with `c` gives back `s` |
| `Text.SplitOnJoin` | app.py:26 | splitting a join of `c`-free parts on `c` gives back the parts |
| `Text.Partition` | app.py:15 | when the separator is found the line is `before + sep + after`; otherwise `before` is the whole line and `after` is empty |
| `Text.PartitionAtFirst` | app.py:15 | `partition` cuts at the first occurrence of the separator |
| `Text.PartitionAt` | app.py:15 | an occurrence at `n` with none before it gives the text before position `n` and the text after that occurrence |
| `Text.WordsWithEndMarker` | app.py:192 | the buffer of `f'{w} $'.split()` is the words of `w` followed by `$` |
| `Text.UpperWithSuffix` | app.py:17 | appending non-lower-case characters (the prime of `S'`) keeps a head upper case |
| `Text.Decimal` | app.py:161 | `str(n)` is a non-empty string of decimal digits |
| `GrammarModel.ParseGrammar` | app.py:6-40 | the reader's loop over the non-empty lines returns exactly `Build` of those lines: the grammar, or the first line's error |
| `GrammarModel.ReadLine` | app.py:15-38 | one pass of the line loop is one `ReadStep`: a bad head or a misused `^` is an error, otherwise the line's head and bodies are added |
| `GrammarModel.ReadBodies` | app.py:26-38 | the body loop succeeds iff no body misuses `^`, and then adds exactly those bodies and classifies their symbols |
| `GrammarModel.ClassifySymbols` | app.py:34-38 | a body symbol is a terminal iff it is not upper case and not `^`, and a nonterminal iff it is upper case |
| `GrammarModel.BuildKeepsError` | app.py:17-30 | once a line has raised, the lines after it do not change the outcome |
| `GrammarFacts.BuildFailsAtFirstBadLine` | app.py:14-30 | the error reported is the one of the first bad line |
| `GrammarFacts.BuildSucceedsOnGoodLines` | app.py:8-22 | with no bad line the read succeeds, keeps the lines, and takes the head of the first line as the start symbol |
| `GrammarFacts.BuildStart` | app.py:21-22 | the start symbol is the head of the first non-empty line (none for empty text) |
| `GrammarFacts.BuildWellFormed` | app.py:6-40 | a successful read has distinct heads in reading order, the first of them the start symbol, each with a non-empty set of bodies; nonterminals are upper case, terminals are not, and every body symbol other than `^` is one of the two |
| `GrammarFacts.BuildProductions` | app.py:24-32 | `b` is a body of `h` iff some line with head `h` writes `b` |
| `GrammarFacts.BuildTerminals` | app.py:34-36 | `s` is a terminal iff some line mentions it as a non-upper-case body symbol other than `^` |
| `GrammarFacts.BuildNonterminals` | app.py:25-38 | `s` is a nonterminal iff some line has it as its head or as an upper-case body symbol |
| `GrammarFacts.SymbolKindsDisjoint` | app.py:34-40 | no symbol is both a terminal and a nonterminal, and `^` is neither |
| `GrammarFacts.LineHasBody` | app.py:26 | every line yields at least one body |
| `FirstFollow.Union` | app.py:44-47 | the first set becomes the union, and the result says whether anything was added |
| `FirstFollow.FirstOfBody` | app.py:57-67 | the symbol walk adds exactly the FIRST demand of the body to FIRST(head), and reports a change iff the FIRST rule did not already hold |
| `FirstFollow.FirstRuleIsDemand` | app.py:57-67 | the FIRST rule holds for a production iff its demand is already in FIRST(head) |
| `FirstFollow.FollowOfBody` | app.py:69-78 | the reversed walk adds exactly the FOLLOW demands of the body, and reports a change iff the FOLLOW rule did not already hold |
| `FirstFollow.FollowRuleIsDemand` | app.py:69-78 | the FOLLOW rule holds iff every demand of the walk is already met |
| `FirstFollow.Pass` | app.py:55-79 | one pass only grows the sets; it reports `updated` iff they were not yet closed under the rules (and then changes them), and stays below every closed pair above the sets it started from |
| `FirstFollow.InitialShape` | app.py:49-52 | the initial FIRST and FOLLOW have the right keys, and the start symbol is a nonterminal |
| `FirstFollow.FirstFollow` | app.py:43-81 | the loop ends with FIRST and FOLLOW closed under the rules, containing the initial sets and below every other closed pair; `$` is in FOLLOW(start) and `^` is in no FOLLOW set |
| `FirstFollow.LeastIsUnique` | app.py:54-81 | two least closed pairs are equal, so the result does not depend on the order of the bodies |
| `Automaton.IndexOf` | app.py:161 | `list.index` gives the first position holding the element |
| `Automaton.AfterDotAt` | app.py:108-109 | an item has a symbol after the dot iff the dot is not last, and that symbol follows the first dot |
| `Automaton.Closure` | app.py:101-117 | the pass loop returns exactly `ClosureOf` of the argument and its key order |
| `Automaton.ClosureKeeps` | app.py:102 | the closure keeps every item of its argument |
| `Automaton.ClosureAddsStartItems` | app.py:108-114 | every item the closure adds is a start item `N -> . β` of a nonterminal `N` |
| `Automaton.ClosureKeys` | app.py:111-113 | the closure's heads are the argument's heads and nonterminals |
| `Automaton.ClosureExpandsArgument` | app.py:106-114 | for an argument item with a nonterminal after the dot, that nonterminal's start items are in the closure |
| `Automaton.ClosureExpandsAdded` | app.py:106-114 | the same for items under a head the closure added |
| `Automaton.ClosureCanStopEarly` | app.py:104-117 | in the grammar with productions `A -> x B`, `A -> D`, `B -> A`, `D -> d`, the closure of `A -> x . B` holds `A -> . D` but not `D -> . d` |
| `Transitions.Advance` | app.py:128 | moving the dot keeps the item's length |
| `Transitions.Goto` | app.py:119-133 | the loop returns exactly `GotoOf`, the union of the closures of the advanced items |
| `Transitions.GotoEmpty` | app.py:145 | `GOTO(I, X)` is empty iff no item of `I` has `X` after the dot |
| `Transitions.GotoAdvances` | app.py:124-131 | every item with `X` after the dot appears, advanced, in `GOTO(I, X)` |
| `Transitions.GotoItems` | app.py:119-133 | every item of `GOTO(I, X)` is an advanced item of `I` or a start item that a closure added |
| `Transitions.GotoKeys` | app.py:130-131 | the heads of `GOTO(I, X)` are heads of `I` or nonterminals |
| `Collection.Items` | app.py:135-149 | `items` ends with a canonical collection: state 0 is the closure of `S' -> . S`; the states are distinct and non-empty; each later state is a `GOTO` of an earlier one; every non-empty `GOTO` of every state on every symbol is listed; every state is within the finite set of the grammar's items |
| `Collection.ItemsPass` | app.py:139-146 | one pass only appends new non-empty states, and afterwards every state it scanned has its `GOTO`s listed |
| `Collection.ItemsSymbol` | app.py:143-146 | after one `X` the `GOTO` on `X` is empty or listed |
| `Collection.CountBounded` | app.py:138-149 | a list of distinct bounded states is no longer than the number of possible states, which is why the loop ends |
| `Collection.ListedWalk` | app.py:135-149 | every state is reached from state 0 by a sequence of `GOTO`s |
| `Collection.WalkListed` | app.py:135-149 | every non-empty state reached from state 0 by `GOTO`s is listed |
| `Collection.Earlier` | app.py:145-146 | every state after the first is the `GOTO` of an earlier state on some symbol |
| `Table.ConstructTable` | app.py:151-189 | one row per state; each row is CASE 2 applied to that state's items in some order that visits each item once, followed by CASE 3 |
| `Table.TableRow` | app.py:154-187 | a state's row is built from every item once, starting from an all-empty row |
| `Table.ItemStep` | app.py:157-181 | one item applies exactly its CASE 2 writes to the row |
| `Table.FindProduction` | app.py:170-178 | the `enumerate(G_indexed)` search with `break` finds the first matching production |
| `Table.ReduceAll` | app.py:172-176 | `rj` is put into every FOLLOW(head) column, after a `/` where the cell already held text |
| `Table.GotoCells` | app.py:183-187 | CASE 3 stores the index of every listed `GOTO(I, A)` |
| `TableFacts.ActionCell` | app.py:152-181 | an action cell is the rendering of the actions the state's items write there, which are exactly the actions demanded |
| `TableFacts.CellEmpty` | app.py:173-176 | an action cell is empty iff no item demands an action there |
| `TableFacts.CellSingle` | app.py:161-176 | a single demanded shift or reduce is written as exactly `sN` or `rJ` |
| `TableFacts.CellAccept` | app.py:180-181 | a demanded accept is in column `$`, and the cell's text starts with `acc` |
| `TableFacts.CellConflict` | app.py:163-176 | the cell holds `/` iff two different actions are demanded; it holds more than one `r` iff two different reductions are; it holds `s` iff a shift is |
| `TableFacts.ShiftDemanded` | app.py:157-161 | an item with terminal `a` after the dot demands the shift to the index of `GOTO(I, a)` |
| `TableFacts.ShiftDemandedOnly` | app.py:157-161 | a demanded shift comes only from such an item, and names the index of `GOTO(I, c)` |
| `TableFacts.ReduceDemanded` | app.py:169-176 | a completed non-start item demands the reduce by its first matching production in every FOLLOW(head) column |
| `TableFacts.ReduceDemandedOnly` | app.py:169-176 | a demanded reduce comes only from a completed item whose first match is that production, in a column of FOLLOW(head) |
| `TableFacts.AcceptDemanded` | app.py:169-181 | accept is demanded iff the column is `$` and some item is complete without being a completed non-start item |
| `TableFacts.FirstMatchIs` | app.py:170-171 | the production found matches, and no earlier one does; none is found iff none matches |
| `TableFacts.ReducesOnce` | app.py:169-176 | the same reduce is never written twice into a cell |
| `TableFacts.ActsTidy` | app.py:157-176 | without an accept, a cell receives one shift target at most and distinct reductions |
| `TableFacts.GotoCell` | app.py:183-187 | a goto cell holds the index of `GOTO(I, A)` when that is listed, and otherwise stays empty (the start symbol has no column) |
| `TableFacts.NoDemandOn` | app.py:157-181 | no action is written to a column that is neither a terminal nor `$` |
| `TableFacts.CompletedMatches` | app.py:169-171 | every completed non-start item of a state has a matching production in `G_indexed` |
| `TableFacts.BoundedNoNullItem` | app.py:113-114 | no state holds the item `^ .`, because the closure writes empty bodies as a lone dot |
| `Cells.RenderEmpty` | app.py:152 | a cell's text is empty iff nothing was written to it |
| `Cells.RenderAccept` | app.py:181 | a cell that received an accept has text starting with `acc` |
| `Cells.RenderFirst` | app.py:163-176 | without an accept, a non-empty cell starts with `s` or `r` |
| `Cells.RenderAccepted` | app.py:173-181 | a cell that received an accept and no shift is `acc`, or holds a `/` |
| `Cells.RenderSingle` | app.py:163-176 | one action written once or repeatedly renders as its own text |
| `Cells.RenderTidy` | app.py:163-176 | for tidy writes: `/` iff two kinds of action, the count of `r` is the number of reductions, `s` iff a shift, and every shift's text is contained |
| `Cells.TextOfAction` | app.py:161-176 | `sN` starts with `s` and `rJ` with `r`; the rest is digits with no `/` |
| `SlrParser.AugmentedLines` | app.py:86 | the lines of the augmented text are `S' -> S` followed by the original non-empty lines, and the new line's head is `S'` |
| `SlrParser.StartNameIsPlain` | app.py:86 | the start symbol's name is non-empty, is not `^`, and holds no line break or ` -> ` |
| `SlrParser.AugmentedStart` | app.py:86 | a successful augmented read has start symbol `S'` (dropping its prime gives `S`) and is well formed |
| `SlrParser.EmptyGrammarRejected` | app.py:86 | for a grammar text with no lines, the augmented read fails on the head `None'` |
| `SlrParser.RankAt` | app.py:90 | a head's rank is its position in the production dictionary |
| `SlrParser.IndexProductions` | app.py:88-92 | `G_indexed` lists every production exactly once, grouped by head in dictionary order |
| `SlrParser.ReadyFor` | app.py:151-187 | on a canonical collection of a complete grammar, every lookup of `construct_table` succeeds |
| `SlrParser.NewParser` | app.py:84-99 | a reader error is returned as such; otherwise the result is an error iff some nonterminal has no productions, and a parser otherwise; the parser holds the augmented grammar with start symbol `S'` and satisfies `Valid` |
| `SlrParser.Assemble` | app.py:88-99 | the parser's fields are the numbered productions, least FIRST/FOLLOW, the canonical collection and its table |
| `SlrParser.ValidState` | app.py:151-187 | each state of a valid parser, with its row, satisfies `StateOf` |
| `SlrParser.NoEmptyState` | app.py:145 | no state of the collection is empty |
| `SlrParser.GotoListed` | app.py:145-146 | `GOTO(I, X)` is listed iff some item of `I` has `X` after the dot |
| `SlrParser.TableShift` | app.py:157-167 | for an item with terminal `a` after the dot, `a`'s cell contains `s` plus the index of `GOTO(I, a)`, and is exactly that when no reduce is demanded there |
| `SlrParser.TableReduce` | app.py:169-178 | for a completed non-start item and `f` in FOLLOW(head), the first matching production `j` is demanded at `f`; the cell is non-empty, holds an `r` unless accepted, and is exactly `rj` when that is the only demand |
| `SlrParser.TableAccept` | app.py:180-181 | for a completed start item, the `$` cell's text starts with `acc` |
| `SlrParser.TableGoto` | app.py:183-187 | a goto cell holds `n` iff state `n` is `GOTO(I, A)`; when nothing has `A` after the dot, the cell is empty (absent for the start symbol) |
| `SlrParser.IndexUnique` | app.py:187 | in a list of distinct states, a state's only position is its index |
| `SlrParser.AcceptOnlyAtEnd` | app.py:180-181 | a cell of a parser's table whose text starts with `a` is in column `$` |
| `Driver.ParseDecimal` | app.py:207 | `int(str(n)) == n` |
| `Driver.Step` | app.py:206-249 | a pass that goes on keeps the input position inside the buffer |
| `Driver.Run` | app.py:206-249 | a run that goes on keeps the input position inside the buffer |
| `Driver.Resume` | app.py:206-249 | the rest of a run after a pass that goes on keeps the input position inside the buffer |
| `Driver.LRParser` | app.py:191-251 | the loop's outcome is exactly `Parse`: the pass-by-pass specification from the initial variables over the buffer `w` + `$` |
| `Driver.Pass` | app.py:206-249 | one iteration of the loop body is exactly one `Step` |
| `Driver.ReduceBy` | app.py:234-245 | the reduce branch is exactly `ReduceStep` |
| `Driver.StepLockstep` | app.py:225-245 | a pass keeps the state stack and the symbol stack of equal length |
| `Driver.RunLockstep` | app.py:206-249 | a whole run keeps the two stacks in lockstep |
| `Driver.StepTrace` | app.py:208-249 | a pass that does not raise appends its step label and remaining input; it appends one action when the table is legible, and at most one otherwise |
| `Driver.RunAligned` | app.py:206-249 | on a legible table, the trace has one step, input and action entry per pass |
| `Driver.IllegibleLoops` | app.py:206-249 | on a cell no branch handles, the loop runs forever without moving the stack or the input |
| `Driver.StepHalts` | app.py:212-249 | a pass that breaks leaves the stacks and the pointer alone and records an action; that action is `accept` iff the current cell is `acc` |
| `Driver.ShiftEffect` | app.py:225-232 | the cell `sN` pushes `N` (read back as `N` by the next pass) and the token, and advances to the next token; past `$` it raises IndexError |
| `Driver.ReduceEffect` | app.py:234-245 | the cell `rJ` pops as many entries as the body has symbols from both stacks (none for `^`) and pushes the goto of the uncovered state and the head; an empty body, or one no shorter than the stack, raises IndexError |
| `Driver.ReduceStepEffect` | app.py:234-245 | the same pops and pushes stated for the reduce once the pass has begun, on any configuration whose two stacks are in lockstep |
| `Driver.RunSplit` | app.py:206-249 | `f1 + f2` passes are `f1` passes followed, unless the loop stopped, by `f2` more |
| `Driver.RunStops` | app.py:206-249 | once the loop has stopped, further passes change nothing |
| `Driver.RunAcceptsAtEnd` | app.py:247-249 | on a table whose `acc` cells are all in column `$`, a run accepts only with `$` as the current token |
| `Driver.ParseAcceptsAtEnd` | app.py:191-249 | then `LR_parser(w)`, for `w` without `$`, accepts only after shifting every token of `w` |
| `ParserRuns.CellLegible` | app.py:157-187 | when the grammar does not use `$` as a terminal, every cell of a parser's table is one the loop handles |
| `ParserRuns.ParserLegible` | app.py:151-189 | so the whole table of such a parser is legible |
| `ParserRuns.ParserAcceptsAtEnd` | app.py:180-181 | the `acc` cells of a parser's table are all in column `$` |
| `ParserRuns.AcceptConsumesInput` | app.py:191-249 | for `w` with no `$` token, `LR_parser(w)` on a parser's table accepts only once every token of `w` has been shifted |

## Left out

- `main` (app.py:254-316), the Streamlit interface and its graphviz drawing of the automaton, are user interface; `StringIO`, `st` and `Digraph` are not modelled.
- `max_G_prime_len` (app.py:87) is computed but never used by the core. It cannot raise, because the augmented grammar always has a production, so it is not modelled.
- The order of `action` and `goto` in `parse_table_symbols` (app.py:96-98) only fixes the key order of a row's dictionary. Rows are modelled as maps over the set of columns.
- Set iteration order: Python's order over a set of bodies or of symbols is unspecified.
  - FIRST/FOLLOW is proved independent of it.
  - `CLOSURE` takes its argument's key order as a parameter.
  - `construct_table` returns the item orders it used beside the table.
  - `items` numbers the states in one order. Its contract holds for every numbering.
- Driver.LRParser: runs at most `fuel` passes of `while True`, because the Python loop need not end (`Driver.IllegibleLoops`). `Running` after `fuel` passes means "not stopped yet".
- Driver.ParseInt: models `int()` on strings of ASCII decimal digits only. Python also accepts signs, surrounding white space and `_`. Every number the table writes is plain digits (`Driver.ParseDecimal`), so the difference only matters on a table `construct_table` cannot produce.
- Exceptions are modelled as outcomes in the Dafny model: `GrammarError`, `BuildError`, and `Driver.Failure` for the loop. The partially filled `results` of a loop that raises are discarded, as in Python.
- SlrParser.NewParser: reports a nonterminal without productions before any table is built. Python raises KeyError only when `CLOSURE` reaches such a nonterminal (app.py:112), and succeeds when none is ever reached.
- Text.IsUpper: models `str.isupper` with the ASCII letters as the cased characters. Python also counts non-ASCII cased letters.
- `CLOSURE` works on a shallow copy of its dictionary (app.py:102, 106). The model follows the resulting order of additions. The sharing of set objects between the copy and the dictionary is not observable otherwise and is not modelled.
- TableFacts.CellAccept and SlrParser.TableAccept: state only that the `$` cell starts with `acc`. A later reduce in that column is appended as `/rJ`, and with `$` as a user terminal a shift can be appended too.
- SlrParser.TableShift: requires the terminal to differ from `$`. With `$` as a user terminal, the accept of CASE 2 c can overwrite the shift already written.
- ParserRuns.CellLegible and ParserRuns.ParserLegible: require that the grammar does not use `$` as a terminal. With such a grammar a cell like `accs3` can arise, and no branch of the loop handles it.
- ParserRuns.AcceptConsumesInput: requires that `w` holds no `$` token. The buffer is `f'{w} $'.split()` (app.py:192), so a `$` typed inside `w` reads as the end marker, and `LR_parser` can accept the prefix before it with the rest unread. For example, with the grammar `S -> a` and `w = "a $ b"` the loop shifts, reduces and accepts at pointer 1. `main` passes the user's tokens through unchecked.
- GrammarModel.GrammarError: keeps only the head of the offending line. Python's message text also carries the right-hand side (app.py:19) or the offending body (app.py:30). When two bodies of one line misuse `^`, which body the message names depends on set order. The message text is abstracted to the head, and only the error's kind is modelled.
