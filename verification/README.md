# The regular expression engine, the SHA-1 object and the line buffer of luanet

A Dafny model, with proofs, of the three parts of luanet that compute something
difficult: GNU regex 0.12 as luanet calls it, the streaming SHA-1 object, and the
receive buffer of the client socket.

## The regular expression engine

luanet compiles patterns with the POSIX extended syntax, without a translate table
and without `newline_anchor`. The modelled fragment has literals, `.`, bracket
lists of characters and ranges, `^`, `$`, concatenation, `|`, groups, and runs of
`*`, `+`, `?` after a group or a single character.

The layers, from the specification down to the code:

1. `Ere` is the abstract syntax, with the meaning IEEE Std 1003.1 gives it in
   sections 9.3.5 and 9.4 of the Base Definitions, and the spelling of an
   expression as text. `RegexLang` is the core tree the engine works on.
2. `Parse`, `ParseOk`: the one-pass compiler as a fold over tokens, and that the
   tree it builds means what the expression means. `Codegen`, `Emit`: the bytes of
   a tree. `CodeBuffer`, `CompilerState`, `Compiler` are the imperative compiler on
   an array that grows: it inserts jumps into code already written, leaves holes
   for the ends of alternatives and fills them, and keeps a stack of open groups.
   `CodeSize` bounds what it has written. `Compilation` puts these together.
3. `Bytecode`, `Layout`, `Closings`: decoding, where instructions start, where jumps
   land, and what stands in front of a closing jump.
4. `Machine`: one step of the matcher on values, with the failure stack, the
   active register range, the group flags, and the overwriting of opcodes.
   `Rewriting` and `Twins`: what was overwritten never matters.
5. `Forks` reads the code as a nondeterministic program, a failure jump being a fork
   and every other jump a jump, and proves that it takes exactly the matches.
6. `Backtrack` is the search tree of a pattern, in which only empty iterations are
   cut, and the proof that its leaves are exactly the matches. A `Play` in `Plays` is
   this tree with what the failure stack sees of it: where something is put aside,
   and where a closing jump drops what was put aside last. `Visits` plays it out, as
   a list of the ends of the pattern that are come to, each with the number of
   failure points left there, and `Returns` is what the matcher makes of that list.
   `Invariant`, `Choices`, `Commands`, `FailureStack`, `Moves`, `Simulation` and
   `MatchTheorem` prove that a run of the machine, for any compiled code, returns
   just that, or runs out of room. `GroupFlags` and `EveryTurn` say what holds all
   along a run, `Nest` and `PopDiscipline` which failure point a closing jump drops,
   and `Room` computes, from the lengths of text and code, a size of the failure
   stack that suffices. `FixedRoom` is about patterns whose loops each take what they
   can: for those a size suffices that does not depend on the text. `OneLoop` says
   exactly when one failure point is enough for a loop over one byte in front of a byte.
7. `Verdict`, `Outcome` and `Longest` compare the list with the matches there are: it
   holds matches only; one, when there is one and the code is safe; and when the
   greatest is returned. `LastChoice` is about patterns for which it always is.
8. `Matcher` is the imperative `re_match_2` on two strings, with pointers, a stack
   of records and an array of opcodes it overwrites, each command proved against
   the step of the machine.
9. `Fastmap`, `FastmapWalk`, `FastmapRoom` and `Search` are `re_compile_fastmap` and
   `re_search_2`; `Posix` is `regcomp`, `regexec` and luanet's `regex_match`.
10. `SafeSets` and `QuietGroups` give conditions on an expression under which its code
    is safe. `Limits` and `NotLongest` are about where the code falls short of its
    promise, with the exact condition on families of patterns; `PlaySteps` works out
    the plays of these.
11. `Literals` stands beside all this, as a check on the definitions: how each construct
    is written, in bytes; and in which texts patterns like `^x*$`, `[lo-hi]` or `u|v`
    are found, said of the bytes of pattern and text alone.

The end-to-end statement is `Posix.RegexMatch`: for an expression of the fragment,
spelled out and passed as a C string, the call answers true only if some part of
the text is in the language of the expression. It answers false only if none is, or
the code is not safe, or the failure stack ran out of room before anything was
found; `Posix.RoomForAnswer` says that it does not run out with room for
`len * (1 + size * (nsub + 1))` failure points, where `len` and `size` are the lengths
of code and text and `nsub` is the number of groups; and `QuietGroups.FoundExactly`
that for a class of expressions, given by their syntax, the code is safe.

### Conditions

The code needs these, and the contracts state them:

- at most 255 groups; later ones are compiled without `start_memory`
  (`Compilation.Supported`);
- at most 32767 bytes of code, since jumps are signed 16-bit numbers while the
  buffer may grow to 65536 bytes (`Compilation.MAX_CODE`). An expression written in
  2730 bytes or fewer keeps to that (`Compilation.ShortFits`).

These are needed only where an answer of "no match" is said to be right, or a match to
be the longest (`Outcome.Safe`): not for termination, nor for what is found to be a
match, nor for the value returned, which `Plays.Returns` gives for any code:

- `Invariant.PeekSafe`: the byte two before the `stop_memory` of a repeated group is
  not 5. The matcher reads that byte as an opcode, and 5 is `start_memory`.
  `QuietGroups.QuietPeekSafe` gives a condition on the expression: no literal byte 5,
  and every group under `*` or `+` ends in a literal;
- `Invariant.PopSafe`: where a closing jump is settled by the byte that follows the
  loop, that byte cannot start the loop's body. The cast of a map's bit count to
  `unsigned char` makes a full 32-byte map look empty. `SafeSets.LowSetsPopSafe`
  gives the condition on the expression: no repeated positive list holds a byte
  from 248 up.

And one for a search with a fastmap:

- `Search.LastFilled`: the last top-level alternative is not empty. Otherwise the
  code ends in a jump of zero bytes, and `re_compile_fastmap` looks at the byte
  behind the end of the code.

### Where the code differs from what is said of it

- `re_match_2` is meant to return the longest match, and need not.
  - At the end of the pattern with no failure point left, the best match remembered
    is returned without a look at the one in hand. `Longest.LongestExactly` says
    exactly when that costs the longest match, `NotLongest.EitherRuns` for which texts
    it does for `u|uv`: those that begin with `uv` and go on.
    `LastChoice.EndingInAlternatives`: never, in safe code, for an expression that ends
    in a group of alternatives.
  - A repeated group with nothing but group ends behind it drops a choice made inside
    the group each time round. `NotLongest.HastyRuns`: the pattern `(xy?(yz)?)*`, for
    three distinct bytes, takes what it can in each round and gets the longest match
    exactly when it does not stop behind `xy` with `z` to come, as it does on `xyz`.
    `Verdict.Tame` is the code with no such group.
- A repeated group that ends in the fifth group of a pattern is always subject to
  the peek (`Limits.FifthGroupLast`). `(xy)*$` is matched rightly on all inputs
  exactly when `x` is not the byte 5 (`Limits.PeekRight`), and `regex_match` itself
  finds every occurrence of `^(xy)*$` exactly then (`Limits.AnchoredAnswer`).
- `[...]*c` is matched rightly on all inputs exactly when the map is shorter than 32
  bytes or does not hold `c` (`Limits.SetRight`).
- A loop that what follows it excludes should need no room. `[^...]*y` does, though the
  list does not take `y`, when its map is full, that is, when it names a byte from 248
  up: it piles up a failure point for each byte (`OneLoop.PilesUp`). `OneLoop.ListRoom`
  has the exact condition.
- `.` does not match a NUL, since the syntax has `RE_DOT_NOT_NULL`.

## The SHA-1 object

`Fips180` is sections 4 to 7 of FIPS PUB 180-1 for messages of whole bytes;
`Fips180Example` works out the example of its Appendix A, round by round. `Sha1`
is the class with its 64-byte block, its length in two 32-bit words, its padding
that may spill into a second block, and its compression in four loops over an
80-word schedule. `Life` is what a caller may know of an object: the message put in
so far, that it has been asked for its digest, or that it is broken.

## The line buffer

`Framing` is a connection as a value, with every byte received and consumed;
`ClientSocket` is the class. What `select` and `recv` bring and what `send` returns
are arguments, so every statement holds for every way the network cuts the stream.
What a call hands to its caller is `Framing.Output`; that nothing else leaves the buffer,
but the endings of lines, is said of every call and of every sequence of calls.

## Model

| member | source | states |
|---|---|---|
| `Posix.RegexMatch` | src/luanet_regex.cpp:34-58 | end to end: true only if part of the text is in the language of the expression, and the matcher finds it; false only if the matcher finds nothing, and in safe code nothing is there, or a run overflows its stack before anything is found |
| `Posix.RoomForAnswer` | src/regex.c:2352-2424 | with room for `len * (1 + size * (nsub + 1))` failure points, computed from the lengths of the code and the text and the number of groups before the call, no run of `regex_match` overflows |
| `Posix.Regexec` | src/regex.c:4810-4869 | whether the matcher finds something from some start in the bytes before the first NUL; a false no needs a run that overflows at a start before the first one found |
| `Posix.FindsOccurs` | src/luanet_regex.cpp:34-58 | what the matcher finds occurs in the text; in safe code everything that occurs is found |
| `QuietGroups.FoundExactly` | src/luanet_regex.cpp:34-58 | for expressions with no literal byte 5, groups under `*` and `+` that end in a literal, and no high byte in a repeated list, the code is safe, so that found and occurring are the same |
| `Posix.SpellingIsCString` | src/regex.c:4780-4785 | a spelled expression holds no NUL, so `strlen` of it loses nothing |
| `OneLoop.StarAnswer` | src/luanet_regex.cpp:34-58 | `x*y`, for two different ordinary bytes, is found exactly in the texts with a `y`, and with room for one failure point `regex_match` does not run out, however long the text |
| `OneLoop.FixedAnswer` | src/luanet_regex.cpp:34-58 | when every loop takes what it can, room for as many failure points as the pattern has forks, and one more if it repeats a group, is enough for any text |
| `Literals.FoundIsThere` | src/luanet_regex.cpp:34-58 | for every expression without groups and with no high byte in a repeated list, written in up to 2730 bytes, the code is safe, so that found and occurring are the same |
| `Literals.StarLine` | src/regex.c:1226-1339 | `^x*$` is found exactly in the texts of nothing but `x` |
| `Literals.PlusLine` | src/regex.c:1226-1339 | `^x+$` exactly in those that are not empty |
| `Literals.OptLine` | src/regex.c:1226-1339 | `^x?$` exactly in the empty text and in `x` |
| `Literals.PlusFound` | src/regex.c:1226-1339 | `x+` exactly in the texts that hold an `x` |
| `Literals.RangeFound` | src/regex.c:2199-2242 | `[lo-hi]` exactly in the texts with a byte from lo to hi |
| `Literals.OtherFound` | src/regex.c:1350-1526 | `[^lo-hi]` exactly in the texts with a byte outside |
| `Literals.DotFound` | src/regex.c:3562-3574 | `.` exactly in the texts with a byte other than NUL |
| `Literals.CaretFound` | src/regex.c:3847-3861 | `^x` exactly in the texts that begin with `x`, unless their beginning is declared not to be one |
| `Literals.DollarFound` | src/regex.c:3863-3885 | `x$` exactly in those that end with `x`, unless their end is declared not to be one |
| `Literals.WordFound` | src/regex.c:1994-2029 | a string of ordinary bytes is its own pattern, found exactly where it stands |
| `Literals.EitherFound` | src/regex.c:1692-1731 | `u|v`, for two such strings, is found exactly where one of them stands |
| `Literals.CopiesLine` | src/regex.c:1282-1341 | `^(w)*$`, for such a string without the byte 5, is found exactly in the copies of `w` in a row |
| `Compilation.RegexCompile` | src/regex.c:1061-2056 | the spelling of an expression, each construct as `Literals` writes it, is compiled without error unless the buffer would pass its limit, with one group number for each parenthesis, and the code, read with forks and jumps, takes the text from i to j exactly when the expression means what lies between |
| `Compilation.CodeMeans` | src/regex.c:1061-2056 | code that fits its jumps means exactly what the expression means: no side condition on the bytes |
| `Compilation.CodeBound` | src/regex.c:1172-2037 | the code is at most twelve times as long as the text of the expression |
| `Compilation.ShortFits` | src/regex.c:1172-2037 | so 2730 bytes of text make code that fits its jumps |
| `Literals.SpellsRepetition` | src/regex.c:1211-1280 | `*`, `+` and `?` are the bytes 42, 43 and 63, behind what is repeated, be that a repetition or not |
| `Literals.SpellsByte` | src/regex.c:1987-1999 | a byte is written as itself, but for the twelve special ones, which take a backslash |
| `Literals.SpellsList` | src/regex.c:1350-1526 | a list is written between brackets, behind `^` when complemented |
| `Literals.SpellsItem` | src/regex.c:1405-1432 | in a list a byte is written as itself and a range with a hyphen |
| `Literals.SpellsOr` | src/regex.c:1550-1555 | `|` is the byte 124, between the alternatives |
| `Literals.SpellsParen` | src/regex.c:1529-1545 | parentheses are the bytes 40 and 41 |
| `Literals.WordCode` | src/regex.c:1994-2029 | a string of up to 255 bytes compiles to one literal command with its length and its bytes |
| `OneLoop.StarBytes` | src/regex.c:1296-1339 | `x*y` compiles to the twelve bytes 14 6 0, 1 1 x, 17 247 255, 1 1 y |
| `Forks.ReadsMatches` | src/regex.c:1172-2037 | with a failure jump read as a fork and the other jumps as jumps, code laid out for a tree takes the text from i to j exactly when the tree matches there, for all texts, i and j |
| `Compiler.Compiler.Compile` | src/regex.c:1172-2056 | the main loop: the array ends up holding exactly the bytes of the tree read from the tokens, however often it inserted, patched and grew; an unclosed group is reported only when one is open, want of space only near the limit |
| `Compiler.Compiler.Turn` | src/regex.c:1176-2030 | one turn keeps the layout of code, begalt, laststart, fixup hole, pending literal and group stack in step with what has been read |
| `Compiler.Compiler.Repetition` | src/regex.c:1211-1341 | a run of `*`, `+`, `?` around the last operand leaves the code of the one operator it collapses to |
| `Compiler.Compiler.GatherOps` | src/regex.c:1226-1280 | the two flags gathered over a run say whether zero and whether many iterations are allowed by the operator it collapses to, the run being of the bytes 42, 43 and 63 that `Literals.SpellsRepetition` names |
| `Compiler.Compiler.Alternative` | src/regex.c:1692-1731 | inserts the failure jump, fills the hole of the alternative before and leaves one of its own |
| `Compiler.Compiler.BeginGroup` | src/regex.c:1578-1625 | opens a group: a frame with offsets for what is to be restored, and a `start_memory` whose count of inner groups is still 0 |
| `Compiler.Compiler.CloseGroup` | src/regex.c:1628-1687 | closes a group: the last hole filled, the count of inner groups patched, the outer branch restored |
| `Compiler.Compiler.Bracketed` | src/regex.c:1350-1526 | a bracket list leaves a charset command whose trimmed map is that of the items, or complemented |
| `Compiler.Compiler.NormalChar` | src/regex.c:1994-2029 | a byte joins the literal before it, or starts one when a repetition, `^` or the length limit forbids it |
| `CodeBuffer.Buffer.InsertJump` | src/regex.c:915-927 | all bytes from the place on move up by three and the jump is put in front |
| `CodeBuffer.Buffer.MoveUp` | src/regex.c:2090-2104 | the shift in place, from the end downwards, moves every byte by three and keeps those below |
| `CodeBuffer.Buffer.Store` | src/regex.c:2063-2070 | the three bytes at a place are overwritten with opcode and 16-bit argument, and nothing else |
| `CodeBuffer.Buffer.Extend` | src/regex.c:941-964 | an array twice as large, or of 65536 bytes, with the same contents; refusal when that limit is reached |
| `Compilation.ReadsWhole` | src/regex.c:1172-2037 | reading an expression's tokens ends with all groups closed, in a tree with exactly the meaning of the expression and the numbering and shape the matcher needs |
| `Ere.CollapseMeans` | src/regex.c:1226-1280 | any run of repetition characters means the one operator it collapses to |
| `Codegen.BytesLaidOut` | src/regex.c:1296-1339 | the bytes of a tree, anywhere in code, decode to the layout the matcher runs: every 16-bit offset reads back as the distance meant |
| `CodeSize.NearlyFull` | src/regex.c:934-964 | at every turn the code written so far, holes and open groups included, is no longer than the finished code will be |
| `ParseOk.ReadAllOk` | src/regex.c:1172-2037 | over a whole reading groups stay numbered in order of opening and only groups and single bytes are repeated |
| `Bitmap.MapOfLists` | src/regex.c:1520-1524 | a byte's bit is set in the trimmed map exactly when the list names it, singly or in a range |
| `Bitmap.FullMap` | src/regex.c:1520-1524 | the trimmed map keeps all 32 bytes exactly when a byte from 248 up is listed |
| `Octets.BitIsDigit` | src/regex.c:1011-1013 | bit `k` of a byte, as it is tested and set in a map, is its binary digit of weight 2^k |
| `Compiler.Compiler.CompileRange` | src/regex.c:2199-2242 | the loop of a range sets the bits from its first to its last byte and no others |
| `SafeSets.LowSetsPopSafe` | src/regex.c:4013-4050 | an expression with no repeated positive list of a byte from 248 up compiles to code whose closing jumps are all settled rightly |
| `SafeSets.LowReadAll` | src/regex.c:1172-2037 | no token sequence without repetition characters right behind such a list is read into a tree that repeats a full map |
| `QuietGroups.QuietPeekSafe` | src/regex.c:3710-3712 | an expression with no literal byte 5 whose groups under `*` and `+` end in literals compiles to code in which no operand is taken for an opcode |
| `Bytecode.LaidOutStarts` | src/regex.c:3515-3560 | code laid out from an instruction start ends at an instruction start |
| `Layout.CodeWired` | src/regex.c:915-964 | every jump in compiled code lands on an instruction or on the end, and each closing jump on its loop's failure jump, which leads just behind it |
| `Layout.StepGrounded` | src/regex.c:3512-4340 | every step keeps the place in the pattern, and every place saved, an instruction start of the compiled code, and the registers saved within bounds |
| `Layout.StepOrdered` | src/regex.c:4286-4340 | every step keeps saved string positions in order and none beyond the current one |
| `Backtrack.ExploreCorrect` | src/regex.c:3652-3779 | cutting empty iterations loses nothing: the leaves of the cut search tree are exactly the ends of matches, nested nullable loops included |
| `Nest.CodeNested` | src/regex.c:1282-1341 | every instruction and every jump of compiled code respects the nesting of groups and loops read off the code from its front |
| `Nest.EnclosingGroups` | src/regex.c:1578-1687 | the groups whose code a place is inside of are, in order, those open in any work done from that place |
| `Choices.GroupsToByte` | src/regex.c:3990-4013 | behind a loop, past group commands, stands a literal byte: the rest fails wherever the text does not show that byte |
| `Choices.GroupsToEnd` | src/regex.c:4001-4011 | behind a loop only group commands are left: the rest succeeds wherever the loop stops |
| `Verdict.PopJustified` | src/regex.c:3977-4056 | where a closing jump may pop and is settled rightly, either the rest ends wherever the loop stops, or it finds nothing wherever the byte of the body could be taken |
| `Verdict.PlayGood` | src/regex.c:3160-4341 | work at any place reaches every leaf of its search tree when no operand is taken for an opcode; and when closing jumps are settled rightly what one drops is covered by what it goes on with, in tame code by an end as far or further |
| `Verdict.WholePlay` | src/regex.c:3160-4341 | the play of the whole pattern reaches matches only, in any code; all of them, and fairly, under the two conditions |
| `Outcome.PlayHolds` | src/regex.c:4065-4080 | work inside of n loops drops at most n of the failure points there before it, one for each loop it leaves that way |
| `Outcome.OnTop` | src/regex.c:4065-4080 | played on top of any stack, work that drops only its own comes to its own ends and then, unless the text is matched to its end, to all of those of the stack below: nothing below is lost |
| `Outcome.VisitsCover` | src/regex.c:4286-4340 | every end that can be reached from the place at hand or from a failure point is covered by one that is visited, as far or further in tame code |
| `Commands.EmptyIterationStep` | src/regex.c:3710-3775 | the end of an iteration that consumed nothing, or whose peeked byte is 5, closes the group and goes on behind the loop, or overflows |
| `Commands.FullIterationStep` | src/regex.c:3652-3779 | the end of an iteration that consumed something closes the group and goes on to the closing jump, unless the byte peeked at is 5 |
| `Commands.StartStep` | src/regex.c:3609-3646 | opening a group keeps the flags of the groups around it and adds its own, active and with nothing matched |
| `Machine.CloseGroupRange` | src/regex.c:3668-3700 | the end of a group makes it inactive and no other; the highest active group is then the last of those still active with a lower number, or nothing is active when there is none or the group was alone in the range |
| `Machine.WholeTextAccepted` | src/regex.c:3374-3433 | a match up to the end of the text is returned at once, whatever is on the stack |
| `Machine.LastAccepted` | src/regex.c:3378-3433 | short of it, with no failure point left, the best match before is returned, and the one in hand only when there was none |
| `FailureStack.RestoredOk` | src/regex.c:2461-2516 | a failure point brings back exactly the active range and the group flags of the work it stands for |
| `FailureStack.GroupSaved` | src/regex.c:3941-3970 | a failure point pushed right in front of a group brings back the flags of the group and of all those inside it, whatever has become of them since |
| `FailureStack.FailResumes` | src/regex.c:4286-4340 | failing ends the run only when nothing but dummies is left, with the best match or -1; else it resumes at the newest choice point, with the invariant re-established |
| `Simulation.Advance` | src/regex.c:3512-4340 | from every state of a run at most four steps lead to a state with the same invariant and less to do, or to a failure, or to the end; the ends still to be visited are those there were, but for one just seen and taken into account |
| `Moves.PlusByteMove` | src/regex.c:4106-4113 | the first turn of a `+` over a byte, from its dummy failure point to its closing jump, keeps the invariant and the list of ends to be visited |
| `Simulation.Run` | src/regex.c:3160-4341 | from every state of a run the machine stops, is never undefined, and returns what the best match so far and the ends still to be visited amount to, or -2 |
| `MatchTheorem.MatchReturns` | src/regex.c:3160-4341 | for any compiled code, any overwritten copy of it, text, start and stack size the run ends, and returns the value the play of the pattern determines, or -2 |
| `Longest.ReturnsRight` | src/regex.c:3160-4341 | that value is the length of a match, always, or -1, which in safe code means that there is none |
| `Longest.MatchCorrect` | src/regex.c:3160-4341 | both of these, of every run |
| `Longest.VisitFacts` | src/regex.c:3374-3433 | the ends visited are matches, and all but the last let the run go on; in safe code every match is covered by one of them |
| `EveryTurn.AlwaysATurn` | src/regex.c:3160-4341 | after any number of steps of any run, the run ends or comes within three more to a state where the ends of the whole pattern are those seen, the best of which is remembered, and then those still to come from the place at hand and the failure points; at that state and after any number of steps every group the place is inside of is flagged rightly |
| `GroupFlags.AlwaysFlagged` | src/regex.c:3609-3646 | after every number of steps of any run, each group whose code the place is inside of is in the active range and active, and marked as having matched something exactly when input was consumed since its `start_memory` last ran; and so it will be when any failure point on the stack is resumed |
| `GroupFlags.StepFlags` | src/regex.c:3512-4340 | one step of the machine, from any state with the flags right and in code that is wired, numbered upwards and nested, keeps them right in the state and in all failure points: an invariant on the code alone, without the pending work |
| `Closings.CodeOpen` | src/regex.c:1282-1341 | in compiled code no jump forward, no `start_memory`, no anchor and no dummy leads to a closing jump |
| `Closings.ClosingBefore` | src/regex.c:1282-1341 | what falls into a closing jump is the end of its loop's group, or the single byte of its body |
| `EveryTurn.TurnFlags` | src/regex.c:3609-3646 | at every such state each group whose code the place is inside of is in the active range and active, and marked as having matched something exactly when input was consumed since its `start_memory` last ran, a position recorded and restored with the registers |
| `PopDiscipline.PopsItsOwn` | src/regex.c:4065-4080 | in any run, at any closing jump of a loop: there is an earlier step at which the run stood in front of that loop, since when the stack has always held all it held then and something more; what was there then is there after the jump, so that what it drops was pushed since |
| `MatchTheorem.EntryInv` | src/regex.c:3326-3363 | on entry the whole pattern is pending work, with the registers, the flags and the stack to match |
| `Longest.LongestExactly` | src/regex.c:3374-3433 | the length returned is the greatest exactly when it is not so that the last end come to is longer than all before it, is not the end of the text, and has no failure point left, nor that an end beyond all of them was dropped at a closing jump, which never happens in safe code where no repeated group is followed by group commands only |
| `LastChoice.ChoiceLongest` | src/regex.c:1633-1643 | in safe code a pattern that ends in a group of alternatives, not repeated, gets its longest match from every start, or -1 when there is none |
| `LastChoice.EndingInAlternatives` | src/regex.c:1633-1643 | the same of the expression, by its last piece, and the meaning POSIX gives it |
| `NotLongest.EitherLongest` | src/regex.c:3378-3433 | `u|uv`, for all byte strings, texts and starts: found exactly when `u` is there, and the length is the greatest exactly when the text does not go on with `uv` and more |
| `NotLongest.EitherRuns` | src/regex.c:3378-3433 | the same of every run of the matcher, on that code as compiled: it overflows, or says no exactly when `u` is not there, or returns the longest exactly on those texts |
| `NotLongest.HastyLongest` | src/regex.c:3977-4056 | `(xy?(yz)?)*` for three distinct bytes, on every text from every start: the value is where rounds that each take what they can stop, and that is the longest exactly when they do not stop behind `xy` with `z` to come |
| `NotLongest.HastyRuns` | src/regex.c:3977-4056 | the same of every run of the matcher that does not overflow |
| `NotLongest.HastyNotLongest` | src/regex.c:3977-4056 | that pattern on `xyz`, for any `z` other than `x`: 2 is returned and 3 bytes match, though no end is overtaken |
| `Limits.CodeDecides` | src/regex.c:3160-4341 | two trees laid out as the same code are matched alike |
| `MatchTheorem.RunsToOne` | src/regex.c:3160-4341 | a run has one result and leaves one code |
| `Rewriting.CanPopRelated` | src/regex.c:3977-4056 | what a closing jump is settled to depends on the code as compiled only |
| `Rewriting.FetchRelated` | src/regex.c:4005-4050 | after any amount of overwriting every instruction reads as compiled, or as the settled form of its closing jump |
| `Twins.RewritingInvisible` | src/regex.c:3977-4091 | two runs from the same start on copies of the code overwritten differently return the same |
| `Twins.TwinStep` | src/regex.c:3977-4091 | each step of two such runs leads to states that differ in the code only |
| `Room.EnoughRoom` | src/regex.c:2352-2424 | for every compiled pattern and text the computed size of the stack, and every larger one, suffices for every start and every overwritten copy of the code |
| `Room.NoOverflow` | src/regex.c:2352-2424 | with that size no run returns -2 |
| `Room.StepFits` | src/regex.c:3512-4340 | every step keeps the height of the stack, and of the stack below each failure point, together with what may still be pushed from there, within one bound: each byte still to come and each open group that has matched something pays for one more passage through the code, and a closing jump uses one up |
| `FixedRoom.FixedRuns` | src/regex.c:3977-4056 | a pattern in which behind every loop stands nothing but ends of groups, or a byte its body cannot take, never overflows a stack with room for its forks (and one more, if it repeats a group), on any text, from any start, on any overwritten copy of the code |
| `FixedRoom.GreedyCloses` | src/regex.c:3977-4056 | there every closing jump settles to a pop, and goes back to a place at most one failure point lower |
| `FixedRoom.StepLow` | src/regex.c:3512-4340 | in such code every step keeps the stack, and the stack below each failure point, no higher than a height that depends on the place in the code only |
| `FixedRoom.Climbs` | src/regex.c:1282-1341 | that height grows, from in front of a part of the pattern to behind it, by its forks |
| `OneLoop.OneSufficesExactly` | src/regex.c:3990-4056 | for a loop over one byte in front of a byte `y` one failure point is enough on all texts exactly when the body excludes `y` by the tests of the source, or takes no byte at all |
| `OneLoop.PilesUp` | src/regex.c:3934-3972 | otherwise every stack overflows, on a text of as many bytes as it has room for |
| `OneLoop.ListRoom` | src/regex.c:4027-4048 | for `[...]*y` and `[^...]*y` one is enough exactly when the list does not take `y`, if the map is short; if it is full, exactly when the list is not complemented, or takes nothing |
| `OneLoop.StarRuns` | src/regex.c:4019-4025 | for two different bytes no run of the code of `x*y` overflows, with room for one failure point |
| `OneLoop.StarExactly` | src/regex.c:4019-4025 | and for one byte twice some run does |
| `Matcher.ReMatch2` | src/regex.c:3160-4341 | the imperative matcher on two strings does, step for step, the run of the machine on their concatenation: so the cut does not matter; it returns what the pattern, code, text and start determine, or -2; nothing behind the code is touched |
| `Matcher.Matcher.Command` | src/regex.c:3512-4340 | each command on pointers, records and the opcode array does exactly one step of the machine |
| `Matcher.Matcher.Prefetch` | src/regex.c:3060-3070 | reading at the end of the first string goes on in the second; at the end of both it fails |
| `Matcher.Matcher.Backtrack` | src/regex.c:4286-4340 | the loop that pops failure points, and sets the end of the string the position is in, is the machine's failure |
| `Matcher.Matcher.AtPatternEnd` | src/regex.c:3374-3433 | at the end of the pattern: accept, or remember the best and fail, as the machine does |
| `Matcher.Matcher.StopMemory` | src/regex.c:3652-3779 | the end of a group: new active range, and out of the loop when nothing was matched or the peek says so |
| `Matcher.Matcher.Decide` | src/regex.c:3977-4056 | looks past group commands, at the byte behind the loop and the start of its body, and pops exactly when the machine would: when nothing is left, or the byte is not one the body takes, by the tests of the source (`FixedRoom.GreedyCloses`, `OneLoop.OneSufficesExactly`) |
| `Matcher.Matcher.CharSet` | src/regex.c:3577-3601 | a byte passes exactly when its bit, in range, differs from the complement flag |
| `Matcher.Matcher.PushFailurePoint` | src/regex.c:2352-2424 | one record more, with the flags of the whole active range; refused when the stack is full |
| `Matcher.Matcher.PopFailurePoint` | src/regex.c:2461-2516 | one record less, flags and range restored from it |
| `Fastmap.MatchBegins` | src/regex.c:2531-2801 | every match is empty, of a nullable pattern, or begins with a byte the pattern's first set holds |
| `Fastmap.BeginsExactly` | src/regex.c:2531-2801 | of a pattern without anchors the first bytes, but for NUL, are exactly those that begin a match of some text, and it is nullable exactly when it matches the empty text |
| `Fastmap.CodeSame` | src/regex.c:2588-2780 | the bytes and emptiness found by following the code are those of the tree it stands for |
| `Fastmap.EmptyLastJump` | src/regex.c:2696-2725 | the code ends in a jump of zero bytes exactly when the last top-level alternative is empty |
| `FastmapWalk.CoversFork` | src/regex.c:2728-2755 | putting a failure jump's target aside keeps everything that can begin a match either in the map or still to be visited |
| `FastmapRoom.RoomyNext` | src/regex.c:2728-2755 | each command of the walk keeps the stack no higher than a height that depends only on the place in the pattern, and the places on it no lower than theirs |
| `FastmapRoom.RoomyFull` | src/regex.c:2742-2747 | where a place is put aside there are at most twice the number of groups and one aside already |
| `Search.PatternBuffer.CompileFastmap` | src/regex.c:2531-2801 | the walk ends; the map then holds exactly the first bytes of the pattern and the flag says exactly whether it is nullable; it fails only when the stack has room for no more than twice the number of groups and one |
| `Search.PatternBuffer.MarkSet` | src/regex.c:2605-2634 | a list's bytes, or all others, including those behind a trimmed map, are entered and no more |
| `Search.PatternBuffer.Skip` | src/regex.c:2914-2945 | at no start skipped by the map, within the string the search is in, does the matcher find anything |
| `Search.PatternBuffer.ReSearch2` | src/regex.c:2876-2990 | forwards: the first start in the range at which the matcher finds something, -1 exactly when there is none; -2 only if a run overflows at a start before the first one found, or the walk has no room for twice the number of groups and one; the buffer stays valid but in that last case |
| `Search.HitIs` | src/regex.c:2914-2990 | what is found at a start matches there; in safe code what matches is found |
| `Search.FirstHitIs` | src/regex.c:2914-2990 | in safe code the first start found is the first start with a match |
| `Search.PatternBuffer.RuledOut` | src/regex.c:2914-2960 | at a byte outside the map, or the end of the text, the matcher finds nothing when the pattern is not nullable |
| `Limits.FifthGroupLast` | src/regex.c:3710-3712 | any repeated group that ends in group number 5 fails the condition on the peek |
| `Limits.PeekRight` | src/regex.c:3710-3775 | for `(xy)*$` the matcher is right on every text, start and stack size exactly when `x` is not the byte 5 |
| `Limits.AnchoredAnswer` | src/luanet_regex.cpp:34-58 | for the expression `^(xy)*$` everything that occurs is found exactly when `x` is not the byte 5; otherwise `regex_match` answers no to the text of two pairs, which is in the language |
| `Limits.SetMisses` | src/regex.c:4035-4040 | `[...]*c`, its map full and holding `c`, matches the text `c`, and the matcher returns -1 |
| `Limits.SetRight` | src/regex.c:4035-4040 | for that pattern the matcher is right on every text, start and stack size exactly when the map is shorter than 32 bytes or does not hold the byte |
| `Limits.SetSafe` | src/regex.c:4013-4050 | and that is exactly when its code meets the condition on closing jumps |
| `Sha1.SHA1.constructor` | src/sha1.cpp:58-61 | a fresh object has been put nothing into |
| `Sha1.SHA1.Reset` | src/sha1.cpp:97-113 | from any state, valid or not, the object is as a fresh one |
| `Sha1.SHA1.Input` | src/sha1.cpp:174-211 | the message is what was put in before and then this; a message that reaches 2^64 bits, or input after the digest was asked for, breaks the object; empty input does nothing |
| `Sha1.SHA1.Result` | src/sha1.cpp:133-154 | the digest FIPS PUB 180-1 defines for the message put in, `Fips180Example.AbcDigest` being one, the same when asked again; or failure exactly when broken |
| `Sha1.SHA1.ProcessMessageBlock` | src/sha1.cpp:410-497 | the 80 rounds in place are the compression of sections 5 to 7 on the block, added to the hash so far |
| `Sha1.SHA1.PadMessage` | src/sha1.cpp:520-565 | padding in place, in one block or two, hashes to the digest of the padded message |
| `Sha1.SHA1.CountByte` | src/sha1.cpp:189-203 | the two words count eight bits a byte, and the wrap to zero is noticed exactly at 2^64 |
| `Sha1.CircularShift` | src/sha1.cpp:587-590 | for every shift C defines, the S of section 3 of FIPS PUB 180-1 |
| `Sha1.PiecesDoNotMatter` | src/sha1.cpp:174-211 | any way of cutting a message into inputs is as good as putting it in whole |
| `Sha1.BrokenStays` | src/sha1.cpp:177-187 | once the digest has been asked for, any non-empty input breaks the object, and nothing repairs it |
| `Fips180.PadLeast` | src/sha1.cpp:520-565 | the padding is the least that reaches a multiple of 64 bytes |
| `Fips180.PadInjective` | src/sha1.cpp:520-565 | two messages with the same padded form are the same |
| `Fips180Example.AbcDigest` | src/sha1.cpp:410-497 | the digest of `abc` is A9993E36 4706816A BA3E2571 7850C26C 9CD0D89D, as Appendix A of FIPS PUB 180-1 has it |
| `Fips180.ChoiceSelects` | src/sha1.cpp:445-454 | the first of the functions takes the bits of its second word where the first has a 1, and those of its third elsewhere |
| `Fips180.CompressAdds` | src/sha1.cpp:439-494 | a block is worked on from the hash so far, and what comes of it is added to that |
| `ClientSocket.ClientSocket.Bufferize` | src/client_socket.cpp:116-156 | what has arrived goes to the end of the buffer, all of it, and only the end of the stream disconnects |
| `ClientSocket.ClientSocket.CanGetline` | src/client_socket.cpp:345-355 | true exactly when the buffer, after looking, holds a newline |
| `ClientSocket.ClientSocket.Getline` | src/client_socket.cpp:181-208 | takes what stands before the first newline out, with that ending, and hands it out without the newline and one carriage return before it, leaving the rest; takes nothing and answers the empty string when no line is complete |
| `ClientSocket.ClientSocket.Getchar` | src/client_socket.cpp:242-254 | hands out the first byte and leaves all the others, or throws and changes nothing |
| `ClientSocket.ClientSocket.Getchars` | src/client_socket.cpp:214-237 | hands out everything and leaves nothing |
| `ClientSocket.ClientSocket.Write` | src/client_socket.cpp:276-296 | offers the bytes before the first NUL, and stays connected only if all of the data was sent |
| `ClientSocket.ClientSocket.WriteLine` | src/client_socket.cpp:328-331 | the same of the line and a newline |
| `ClientSocket.UpToNul` | src/client_socket.cpp:276-285 | the scan of `strlen` finds the C string |
| `Framing.NothingLost` | src/client_socket.cpp:116-254 | in every interleaving of arrivals and reads the bytes received are the bytes consumed and then the buffer |
| `Framing.HandedOut` | src/client_socket.cpp:181-254 | what a call takes from the front of the buffer is what it hands out, and of a line, the ending: LF, or CR LF |
| `Framing.AllHandedOut` | src/client_socket.cpp:116-254 | read a byte at a time or all at once, in any interleaving with arrivals, what has been handed out and then the buffer are what has come in |
| `Framing.UpUntilHangup` | src/client_socket.cpp:150-154 | a connection is up exactly until a look at the socket finds it closed |
| `Framing.LinesOfStream` | src/client_socket.cpp:181-208 | when only lines are read, those read are the first lines of the whole stream and the rest are in the buffer |
| `Framing.CutsDoNotMatter` | src/client_socket.cpp:116-208 | two connections that read the same stream to the end, cut differently, return the same lines |
| `Framing.LineSurvives` | src/client_socket.cpp:276-331 | a line written comes out as it went in exactly when it holds no newline and no NUL and does not end in a carriage return |
| `Framing.EndingsOff` | src/client_socket.cpp:181-208 | a line comes out of CR LF whole, and out of LF exactly when it does not end in a carriage return |
| `Framing.EndingsRoundTrip` | src/client_socket.cpp:181-208 | any lines sent with CR LF or LF behind each, delivered in arbitrary pieces and read to the end, come out without their endings and in order |
| `Framing.RoundTrip` | src/client_socket.cpp:181-331 | any sequence of such lines, delivered in arbitrary pieces and read to the end, comes out unchanged and in order, and nothing is left over |

## Left out

- Intervals, back references, word operators, character classes, the Emacs opcodes,
  and the keep-string jump, which the syntax makes unreachable.
- Register contents (`regs`, `regstart`, `regend` and their best copies, and
  `group_match_null_string_p`, which serves them): only the flags and the active
  range that steer control are modelled.
- Translate tables, `newline_anchor`, backward search, and a `stop` before the end
  of the text.
- Posix.RegexMatch: is about expressions of the fragment as they are spelled here;
  other texts, among them those the compiler rejects, are not modelled, and groups
  left unclosed or closed too early do not occur.
- Compilation.RegexCompile: the 256th and later groups, which the source compiles
  without group commands, are outside `Supported`; of code longer than 32767 bytes,
  whose jumps may wrap, only the bytes are described.
- Longest.MatchCorrect: in code that is not safe -1 is not said to mean that there is
  no match; the families of `Limits` show that it need not.
- Longest.LongestExactly: assumes that no operand is taken for an opcode; where one is,
  matches may be missed altogether.
- Compiler.Compiler.Compile: token texts the grammar refuses, such as an unmatched `)`.
- Compiler.Compiler.Bracketed: lists with character classes.
- Search.PatternBuffer.ReSearch2: backward ranges, and, with a map, patterns whose last
  top-level alternative is empty.
- Search.PatternBuffer.CompileFastmap: patterns whose last top-level alternative is
  empty, for which the source reads behind the code.
- The failure stack is counted in failure points, not in the words each takes;
  `alloca` and `malloc` do not fail.
- The stream operators of the SHA-1 class, which call `Input` byte by byte or with
  `strlen`, and message lengths that are not whole bytes.
- `select`, `recv`, `send`, DNS, clocks and the ping and poke times; `write` of a
  single character.
- The Lua bindings, sleep, directory listing, random strings and formatting.
