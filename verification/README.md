# Bash in Dafny: expressions, braces, sparse arrays, control flow

This project models five parts of a Bash 5.3 fork and proves what they promise.

* **Arithmetic (expr.c).** `Tokens` and `Trees` define the language: tokens, precedence trees with the tokens they
  stand for, and their evaluation from left to right on 64-bit words and a store of variables that hold text.
  `Machine` is the evaluator of expr.c, which evaluates while it reads, as functions on the explicit state;
  `Evaluator` is the same in the source's form, a class whose fields are the file-level variables and whose methods
  are the loops and saved contexts, each method proved equal to its function. `Reading`, `Levels`, `EvalCorrect` show
  that one pass computes what the tree does; `Acceptance` that what is accepted has a tree; `Spelling` that every tree
  has a text; `Grammar` that no text has two trees; `Suppression` that operands not chosen do nothing. `Arithmetic`
  puts the results together. What these agree on is said a second time without the shared definitions: `Operators`
  gives the laws of what each operator computes, `Precedence` groups operators by the documented list, `Laws` says
  operators through one another. `Exponent` and `Numbers` treat powers and number literals.
* **Brace expansion (braces.c).** `Sequences` is `{a..b..c}` with its overflow argument, `Braces` the scanner and the
  mutually recursive expander, `BraceTrees` the denotation of nested alternatives, sequences and quoted segments,
  `BraceRanges` sequences from text to words, `BraceQuoting` what quotes protect, `BraceClosing` which close brace ends
  an expression.
* **Brace compression (bracecomp.c).** `BraceCompress` groups names by common prefixes and proves that expansion gives
  the names back.
* **Sparse arrays (array.c).** `Entries` is the list of entries and the map it stands for, `Rings` the circular doubly
  linked lists with a sentinel, `SparseArrays` the class with counters and the roving pointer `lastref`, `ArrayRuns`
  and `ArrayMaps` whole runs of operations, `ArrayStacks` runs of pushes and pops.
* **Control flow (execute_cmd.c).** `Commands` gives commands a structured meaning, in which a break or continue is a
  signal that names the loop it is for. `Executor` is the executor with the counters `breaking`, `continuing` and
  `loop_level` updated in place, proved against that meaning. Words, patterns and expressions may hold commands
  substituted in the same shell (`${ ...; }`), which can break and continue the loops around them. `Signals` and
  `Slips` prove what the counters keep and when single loops leave them astray; `Places` says where a run can be and
  what comes next, `Strays` exactly which runs leave a signal pending, `Nesting` what `break n` and `continue n` do
  from anywhere, `ArithForms` when an arithmetic `for` is a `while` loop, `CaseClauses` which clauses of a `case` run;
  `Statuses` gives the exit status of every kind of command; `Blindness` and `Fuel` show what the meaning does not
  depend on.

Functions carry names of their own where the source has one function with several parts; a method in a class stands for
the C function of its name or for the part of it that its comment names.

## Where code and comments differ

The model follows the code.

* `% name op=` is accepted after the most negative number `% -1`, because that path (expr.c:923-927) does not record that
  an operand was read. `Trees` has a tree of its own for it, so that every text the evaluator accepts has a tree. With
  plain `=` the name is not read before, so the remainder is by zero. See `Arithmetic.RemainderAccepted`.
* `continue` in the test of an `until` loop leaves the loop if its status is 0, which ends the loop and uses the counter
  up (execute_cmd.c:3904-3911); the manual text of the builtin says the next round is resumed. See `Nesting.TestResumes`
  for the exact condition and `Nesting.UntilContinueEnds` for an input. In the test of a `while` loop it skips the body and
  tests again (`Nesting.WhileContinueGoesOn`).
* A comment says that an arithmetic `for` is exactly a `while` loop around three evaluations (execute_cmd.c:3217-3230).
  An arithmetic `for` that ends does the same, and the `while` loop ends as well, exactly if its first expression and
  every third one it comes to can be calculated and no body continues it: see `ArithForms.ArithForIsWhile`. For inputs that
  tell the two apart see `ArithForms.CountingExample`, whose `while` loop never ends, `InitExample`, `TestExample`,
  `ContinueExample` and `StepExample`.
* A loop can end without looking at `breaking` and `continuing`: a `for` loop whose list is empty or whose variable cannot
  be assigned (execute_cmd.c:3155-3165, 3191), and an arithmetic `for` whose first or third expression fails. What its word
  list or expressions have broken is then pending one loop too far out, or outside of all loops, where the next command is
  skipped. See `Slips.SlipExactly` for one loop, `Strays.StraysExactly` for whole runs, and `Slips.FailingExample` and
  `Slips.EmptyListExample` for inputs.
* `break 0` and `continue -1` fail, and break all loops.
* After a break under `;;&` the patterns of later clauses are still expanded and matched; their actions do not run.

## Model

| member | source | states |
|---|---|---|
| `Integers.WrapMulBoth` | expr.c:21-23 | unchecked 64-bit multiplication: wrapping both factors first does not change the wrapped product |
| `Integers.TruncDivRem` | expr.c:888-945 | `/` and `%` truncate toward zero: quotient and remainder recompose the dividend, the remainder is smaller than the divisor and has the dividend's sign |
| `Integers.BitOpRange` | expr.c:733-787 | bitwise and, exclusive or, and or of two words in two's complement stay within the word |
| `Operators.Defined` | expr.c:888-945 | only `/` and `%` can fail, and exactly for a divisor 0 |
| `Operators.WordsDiffer` | expr.c:21-23 | a word is the only one in its class modulo 2^64, so that the laws below leave no choice |
| `Operators.SumLaws` | expr.c:865-886 | `+` counts on by ones, across the end of the word as well, and `-` undoes it |
| `Operators.ProductLaws` | expr.c:888-945 | `*` is repeated addition modulo 2^64 |
| `Operators.QuotientLaws` | expr.c:888-945 | divisor times quotient plus remainder is the dividend, the remainder smaller than the divisor and with the sign of the dividend; modulo 2^64 this holds for the most negative number and -1 as well |
| `Operators.OrderLaws` | expr.c:789-839 | comparisons are 0 or 1; `<` is a strict order that goes up by ones, exactly one of `<`, `==` and `>` holds, and `>=`, `!=`, `<=` are their negations |
| `Operators.ShiftLaws` | expr.c:841-863 | a left shift multiplies by a power of two modulo 2^64, a right shift divides by it and rounds down |
| `Operators.BitLaws` | expr.c:733-787 | every bit of `&`, `^` and the bitwise or is that function of the two bits at its place |
| `Operators.BitsDetermine` | expr.c:733-787 | the bits determine the number, so that these laws leave no choice |
| `Operators.UnaryLaws` | expr.c:988-1021 | `-a + a` is 0, `~a + a` is -1, `+a` is a, and `!a` is 1 for 0 only |
| `Exponent.SquaredIsPower` | expr.c:947-962 | repeated squaring yields result * base^exp modulo 2^64, for every base and exponent |
| `Exponent.IPow` | expr.c:947-962 | the loop returns base^exp modulo 2^64 and squares exactly once per binary digit of the exponent |
| `Exponent.BitLengthBound` | expr.c:947-962 | so for an exponent below 2^n there are at most n squarings |
| `Numbers.DigitsDistinctAbove36` | expr.c:1606-1620 | the digit map is one-to-one above base 36; up to base 36 two letters have the same digit exactly when they differ in case only |
| `Numbers.DigitsInOrder` | expr.c:1606-1620 | the 64 digits in order are 0 to 9, a to z, A to Z, @ and _: each stands for one more than the one before; up to base 36 a capital letter stands for the small one |
| `Numbers.ReadInBase` | expr.c:1585-1636 | from any point on, the digit loop continues the positional value modulo 2^64 of all digits in the base, or rejects if one of them is not below it |
| `Numbers.ReadDecimal` | expr.c:1551-1636 | a number without leading 0 is its decimal value, or the value of what follows `base#` in that base, with bases outside 2 to 64 and repeated `#` rejected |
| `Numbers.ReadPrefixed` | expr.c:1561-1583 | leading 0 selects base 8, 0x base 16, and a lone 0 is 0 |
| `Numbers.StrLong` | expr.c:1551-1636 | the loop of strlong computes the positional value, or fails, on every text |
| `Text.DecimalRoundTrip` | expr.c:1688-1692 | the digits written for a number denote it |
| `Machine.ReadTok` | expr.c:1318-1522 | reading a token, the peek behind a name included, keeps text, depth and suppression; while suppressed it binds nothing and can only fail on syntax; it terminates by depth left and characters left |
| `Machine.StreVal` | expr.c:1149-1256 | reading a variable changes nothing but the variables and the last assignment operator seen, and nothing at all while suppressed |
| `Machine.SubExpr` | expr.c:458-493 | evaluating a nested text comes back to the expression, position, tokens, depth and suppression of entry |
| `Machine.ExpCond` | expr.c:629-675 | a conditional keeps text, depth and suppression; entered suppressed, it binds nothing and fails only on syntax |
| `Suppression.YesOnly` | expr.c:637-670 | behind a condition that is not 0, the first branch gives the value, and from its end on nothing is bound and only syntax can fail |
| `Suppression.NoOnly` | expr.c:637-670 | behind a condition that is 0, nothing is bound before the second branch, which runs as it would alone and gives the value |
| `Machine.ExpLor` | expr.c:677-703 | a logical or keeps text, depth and suppression; entered suppressed, it binds nothing and fails only on syntax |
| `Suppression.RightOfOr` | expr.c:677-703 | behind a left side that is not 0, nothing is bound, only syntax can fail, and the value is 1 |
| `Machine.ExpLand` | expr.c:705-731 | `&&` likewise when entered suppressed |
| `Suppression.RightOfAnd` | expr.c:705-731 | behind a left side that is 0, nothing is bound, only syntax can fail, and the value is 0 |
| `Machine.ExpBinary` | expr.c:733-945 | every level of binary operators keeps text, depth and suppression and reads forward |
| `Machine.Exp0` | expr.c:1023-1123 | so do operands, parentheses, pre- and post-increments, including the early look at the token behind a name |
| `Evaluator.Evaluator.PushExp` | expr.c:266-288 | the context goes on the stack unless 1024 are on it already |
| `Evaluator.Evaluator.PopExp` | expr.c:290-309 | the variables are those of the context that was on top |
| `Evaluator.Evaluator.ReadNameTok` | expr.c:1345-1405 | the peek and the early reading of a name, in place, do what the function does on the state |
| `Evaluator.Evaluator.ReadTok` | expr.c:1318-1522 | all token variables, updated in place, are those of the function; on error the store is |
| `Evaluator.Evaluator.StreVal` | expr.c:1149-1256 | the variable's value, store and state, or the error, are the function's |
| `Evaluator.Evaluator.SubExpr` | expr.c:458-493 | with the real stack of contexts: value, state and stack on return, the store on error |
| `Evaluator.Evaluator.ExpComma` | expr.c:495-508 | the comma loop |
| `Evaluator.Evaluator.ExpAssign` | expr.c:510-627 | assignment and operator assignment, with the tokens saved across the right-hand side |
| `Evaluator.Evaluator.BindVariable` | expr.c:330-354 | the assignment of a variable, and the error for a readonly one |
| `Evaluator.Evaluator.ExpCond` | expr.c:629-675 | the conditional |
| `Evaluator.Evaluator.CondTail` | expr.c:637-670 | its branches, with the counter that suppresses them raised and lowered in place |
| `Evaluator.Evaluator.ElseTail` | expr.c:657-664 | the second of them, from the colon on |
| `Evaluator.Evaluator.ExpLor` | expr.c:677-703 | the loop of the logical or |
| `Evaluator.Evaluator.ExpLand` | expr.c:705-731 | the loop of `&&` |
| `Evaluator.Evaluator.ExpBinary` | expr.c:733-945 | the loops of the eight levels from bitwise or to `%`, with the most negative word divided by -1 special |
| `Evaluator.Evaluator.ExpPower` | expr.c:963-986 | exponentiation, associating right; ipow is never called with a negative exponent |
| `Evaluator.Evaluator.ExpUnary` | expr.c:988-1021 | the unary operators |
| `Evaluator.Evaluator.Exp0` | expr.c:1023-1123 | operands |
| `Evaluator.Evaluator.StepName` | expr.c:1034-1059 | pre-increment and pre-decrement |
| `Evaluator.Evaluator.NameOperand` | expr.c:1077-1118 | a name and what may follow it |
| `Evaluator.Evaluator.AfterPeek` | expr.c:1086-1117 | post-increment and post-decrement behind the second look at the text |
| `Evaluator.Evaluator.EvalExp` | expr.c:416-456 | the whole evaluator: for every precedence tree of the text its value and store are those of evaluating the tree, and after an error the stack is unwound and suppression is off |
| `Spelling.LexSpelled` | expr.c:1318-1522 | tokens written out, where they may be written, are read back as the same tokens |
| `Spelling.LexBlanks` | expr.c:1325-1330 | spaces, tabs and newlines in front of a token change nothing |
| `Spelling.DoubledSigns` | expr.c:1458-1490 | `++` and `--` step the name behind which or in front of which they stand, blanks allowed; behind a name stepped already they are an error, and anywhere else two signs |
| `Tokens.NameCharacters` | expr.c:1344-1360 | names are letters, digits and underscores, not beginning with a digit |
| `Spelling.TreeOfItsText` | expr.c:25-60 | every well-formed precedence tree has a text whose tokens are those of the tree |
| `EvalCorrect.RunCorrect` | expr.c:495-1123 | at every precedence level, wherever an expression of that level stands, the one-pass evaluator returns the tree's value and store, or its error, and stops right behind it |
| `EvalCorrect.TextCorrect` | expr.c:458-493 | the text of a variable is evaluated as its tree is, recursively through variables that hold expressions |
| `Acceptance.AcceptRun` | expr.c:495-1123 | whatever a level accepts is a tree of that level followed by the tokens not yet read, on every text |
| `Acceptance.AcceptText` | expr.c:458-493 | a text that is accepted and not blank has a precedence tree |
| `Grammar.Unambiguous` | expr.c:25-60 | a text has at most one tree: precedence and associativity leave no choice |
| `Precedence.Grouping` | expr.c:25-60 | in the text `a p b q c`, for all operands and all infix operators, q takes the middle operand exactly when its group in the documented list is strictly tighter than that of p, or when both are `**` |
| `Precedence.UnaryFirst` | expr.c:25-60 | a unary operator in front takes only its operand, before every infix operator, `**` included |
| `Precedence.UnarySecond` | expr.c:25-60 | and so it does behind every infix operator |
| `Precedence.TestOfConditional` | expr.c:25-60 | in front of `?` every infix operator but the comma binds more tightly |
| `Precedence.EndOfConditional` | expr.c:25-60 | and so it does behind the colon |
| `Precedence.ConditionalsNest` | expr.c:25-60 | conditionals group to the right |
| `Precedence.RightOfAssignment` | expr.c:25-60 | behind an assignment operator every infix operator but the comma binds more tightly |
| `Precedence.AssignmentsNest` | expr.c:25-60 | assignments group to the right, and a conditional behind one is assigned as a whole |
| `Precedence.CommaThenAssignment` | expr.c:25-60 | the comma binds more loosely than the assignment behind it |
| `Grammar.RegularExactly` | expr.c:923-927 | the tree of a text is one of the documented grammar exactly when the text does not hold `% name op=` |
| `Arithmetic.OnePassIsTreeEvaluation` | expr.c:495-1123 | one-pass evaluation of a text and left-to-right evaluation of its precedence tree agree on value, store and error, for every tree, irregular ones included |
| `Arithmetic.EveryTextIsEvaluated` | expr.c:458-493 | on every text, blank or without a tree as well, value, store and error are those of the reference |
| `Arithmetic.EveryTreeIsEvaluated` | expr.c:25-60 | every well-formed tree, written out, is evaluated to its value |
| `Arithmetic.AcceptedExactly` | expr.c:458-493 | every text succeeds exactly when it is blank or its tree evaluates to a value, and its tree is one of the documented grammar unless it holds `% name op=` |
| `Arithmetic.ReadBack` | expr.c:606-612 | the text that an assignment stores is evaluated to the number assigned |
| `Arithmetic.ReadAfterBind` | expr.c:330-354 | a variable read after an assignment has the value assigned |
| `Arithmetic.SelfReference` | expr.c:266-288 | a variable that holds its own name ends in the recursion-limit error and changes nothing |
| `Laws.DepthLimit` | expr.c:266-288 | a text is evaluated inside 1023 others, but not inside 1024 |
| `Laws.BlankIsZero` | expr.c:458-493 | text of spaces, tabs and newlines is 0, and so is a variable without a text |
| `Laws.AssignmentHolds` | expr.c:510-627 | the value of an assignment is what the variable holds afterwards |
| `Laws.OperatorAssignment` | expr.c:510-627 | `x op= r` is `x = x op r`, value, store and errors |
| `Laws.ReadOnlyStays` | expr.c:330-354 | a read-only variable is not assigned |
| `Laws.StepFirst` | expr.c:1034-1059 | `++x` is `x += 1` and `--x` is `x -= 1` |
| `Laws.StepAfter` | expr.c:1086-1117 | `x++` and `x--` do the same, and have the value x had before |
| `Laws.PowerSteps` | expr.c:963-986 | `a ** 0` is 1, `a ** (n + 1)` is `a ** n * a`, and a negative exponent is an error |
| `Laws.AndValue` | expr.c:705-731 | `a && b` is 1 or 0 as C has it, and b is evaluated only if a is not 0 |
| `Laws.OrValue` | expr.c:677-703 | the or-operator likewise, with b evaluated only if a is 0 |
| `Laws.DeMorgan` | expr.c:677-731 | `!` exchanges the two, values and side effects included |
| `Laws.ConditionalNot` | expr.c:629-675 | negating the condition exchanges the branches |
| `Laws.ConditionalTruth` | expr.c:629-675 | `a ? 1 : 0` is `!!a` |
| `Laws.CommaAndParentheses` | expr.c:495-508 | `a , b` is b after a, and parentheses change no value |
| `Arithmetic.RemainderAccepted` | expr.c:923-927 | `dividend % name op= rhs`, which the grammar does not have, is accepted exactly when the dividend is the most negative number, the name is -1, and the operation on 0 and the right side can be done and stored |
| `Arithmetic.RemainderAssignsExample` | expr.c:923-927 | for instance with x holding -1, `9223372036854775808 % x += 5` sets x to 5 |
| `Sequences.MkSeq` | braces.c:372-476 | every step of mkseq fits the 64-bit word, for all start, end and increment; the result is the rejected or generated sequence |
| `Sequences.CountUp` | braces.c:407-475 | the generating loop yields exactly the counted terms, with no step out of range |
| `Sequences.NthInRange` | braces.c:372-476 | every term lies between start and end |
| `Sequences.NoFurtherTerm` | braces.c:372-476 | and the last term is less than one step away from the end |
| `Sequences.StepSize` | braces.c:372-406 | from term to term the numbers go towards the end by the increment, by 1 if it is 0, whatever its sign |
| `Sequences.QuickTest` | braces.c:478-515 | what passes the quick test, by the texts on both sides of the first two dots: numbers begin on both, or a letter stands on both |
| `Sequences.PaddedTermDenotes` | braces.c:423-442 | a padded term has the width asked for and denotes its number, minus sign in front |
| `Sequences.PaddedSequence` | braces.c:599-617 | in a zero-padded sequence all terms have the length of the longer endpoint text and denote start plus i increments |
| `Braces.Gobble` | braces.c:637-805 | the scanner never goes back, stops only on the character looked for, and finds nothing only at the end of the text |
| `Braces.BraceGobbler` | braces.c:637-805 | the loop is that scanner |
| `Braces.BraceExpand` | braces.c:103-292 | terminates on strictly shorter text and never returns an empty list, on every text |
| `Braces.CrossAssociative` | braces.c:806-866 | the ordered cross product is associative: adjacent groups can be expanded in any grouping |
| `Braces.ArrayConcat` | braces.c:812-866 | the nested loops with their short cuts yield the ordered cross product |
| `Braces.FindOpening` | braces.c:121-159 | the search for the first brace that opens a valid expression |
| `Braces.ExpandWord` | braces.c:103-292 | the expander in its loops and recursion is the recursive definition |
| `Braces.SplitAmble` | braces.c:299-363 | the split at commas, each part expanded, in order |
| `BraceTrees.ExpandPrinted` | braces.c:103-363 | expanding the printed text of any tree of literals, escapes, quoted and substituted segments, `${...}`, nested comma alternatives and sequences gives the tree's words: ordered cross products, appended alternatives, the terms of sequences, and segments unchanged |
| `BraceTrees.ExpandBranches` | braces.c:299-363 | the inside of a brace, split and expanded, gives the words of its branches in order, nesting matched and commas in quotes and substitutions passed over |
| `BraceTrees.QuotedComma` | braces.c:729-734 | for instance `{a,"b,c"}` is two words |
| `BraceRanges.RangeExpansion` | braces.c:516-635 | wherever in a word of such parts a sequence stands, integers, padded ones or letters, its terms take its place |
| `BraceRanges.WrittenRange` | braces.c:516-635 | `{a..b}` and `{a..b..incr}` with ends written in any way, a sign and leading zeros included, read as decimal: exactly the counted integers; if an end has leading zeros behind no sign or a minus sign, all terms are as long as the longer end and denote their numbers, otherwise they have no padding; the text itself when the increment or the distance is out of range |
| `BraceRanges.BlanksAllowed` | general.c:244-279 | a number may have blanks in front of it and behind it |
| `BraceRanges.IntRange` | braces.c:516-635 | `{a..b}` and `{a..b..incr}` stand for exactly the counted integers in order, or for their own text when the increment or the distance is out of range |
| `BraceRanges.LetterRange` | braces.c:516-635 | between letters they stand for exactly the counted characters |
| `BraceQuoting.NothingUnquotedOpens` | braces.c:121-159 | a text in which no brace outside of quotes, escapes and substitutions opens a valid expression is the one word itself |
| `BraceQuoting.FindsUnquoted` | braces.c:637-805 | the brace that the expander finds stands outside of quotes, escapes and substitutions |
| `BraceQuoting.StopsUnquoted` | braces.c:637-805 | whether it looks for an open brace, a close brace or a comma, and at any depth, the scanner stops only outside of quotes, escapes and substitutions |
| `BraceQuoting.PassGuarded` | braces.c:637-805 | it passes each of these at once, its variables unchanged |
| `BraceQuoting.ProtectedByQuotes` | braces.c:637-805 | text in quotes closed at its end is such a segment wherever it stands, with substitutions in it if where these end does not depend on the text around them |
| `BraceQuoting.ProtectedBySubstitution` | braces.c:637-805 | so is a command or process substitution |
| `BraceQuoting.ProtectedByNofork` | braces.c:637-805 | and a nofork substitution |
| `BraceQuoting.AloneUnchanged` | braces.c:750-760 | a text in which every open brace stands alone between blanks, or before a close brace, is left unchanged, such as `{}` |
| `BraceClosing.FirstClosing` | braces.c:637-805 | in a text without quotes, escapes and substitutions the scanner ends a brace expression at the first close brace on its level that has a comma or two dots on that level in front of it, two dots right before a close brace not counting, and finds nothing exactly when there is none |
| `BraceClosing.NothingCloses` | braces.c:121-159 | such a text is left unchanged if no open brace in it has such a close brace |
| `BraceClosing.NothingSeparated` | braces.c:121-159 | a text without a comma and two dots in a row is left unchanged, whatever it quotes, substitutes and nests: `{a}` stays |
| `BraceQuoting.QuotedUnchanged` | braces.c:637-805 | text in single quotes, double quotes or backquotes is left unchanged, whatever braces, escapes and substitutions stand in it |
| `BraceQuoting.ProtectedUnchanged` | braces.c:637-805 | so is any text that is one escape or one substitution throughout |
| `BraceCompress.UnquoteQuoted` | lib/sh/shquote.c:258-308 | removing the backslashes from a quoted name gives the name, whatever follows it |
| `BraceCompress.NothingBare` | lib/sh/shquote.c:258-308 | quoting leaves no character bare that means something to the shell, and no `#` in front; where there are none it changes nothing |
| `BraceCompress.CommonPrefixIs` | bracecomp.c:46-62 | the common prefix is the longest one |
| `BraceCompress.StringGcd` | bracecomp.c:46-62 | the loop finds its length |
| `BraceCompress.OrderIs` | bracecomp.c:150-160 | the comparison is by bytes where the names first differ, signed at the very beginning, and a name comes before the longer ones that begin with it |
| `BraceCompress.SortedPrefixOrdered` | bracecomp.c:150-160 | names sorted by the comparison function share their prefixes in runs |
| `BraceCompress.GroupGcd` | bracecomp.c:84-98 | the prefix kept for a group is that of its first and last name, and strictly longer than the one around it |
| `BraceCompress.InnerSplits` | bracecomp.c:84-98 | a group splits again into at least two inner groups |
| `BraceCompress.FindGroup` | bracecomp.c:84-98 | the inner loop finds that group |
| `BraceCompress.ReallyMungeBraces` | bracecomp.c:64-148 | the loops and recursion over a growing text, with its last character overwritten, produce the defined text |
| `BraceCompress.CompressRoundTrip` | bracecomp.c:64-148 | expanding the compressed text of the names from any start on and removing quotes gives back these names, in order, duplicates included, if they share prefixes in runs |
| `BraceCompress.CompletionRoundTrip` | bracecomp.c:160-184 | the only call, which starts behind the first entry: expanding the completion gives the sorted matches, or the single match; when nothing needs quoting, expansion alone does |
| `Entries.ContentsDetermineEntries` | array.h:28-48 | an ordered list of entries is determined by its map from index to value |
| `Entries.InsertedContents` | array.c:515-595 | insertion is the update of the map |
| `Entries.RemovedContents` | array.c:601-651 | removal takes the index out of the map |
| `Entries.IndexAtLeast` | array.c:192-243 | the n-th element of a sparse array has at least index n |
| `Entries.ShiftedLeftOrdered` | array.c:192-243 | after a shift the remaining indices are non-negative and increasing, the largest one lowered by n |
| `Entries.ShiftedLeftContents` | array.c:192-243 | after a shift the array holds exactly what was at n higher indices from the n-th element on |
| `Entries.ShiftedRightFits` | array.c:250-281 | no index leaves the index type exactly when the largest does not |
| `Entries.PushPop` | array.c:250-293 | a push then a pop restores any array, the empty one included, and yields the value pushed |
| `Rings.AddBefore` | array.c:48-54 | the ring with the new element linked in is circular, doubly linked and free of duplicates, the data unchanged |
| `Rings.AddAfter` | array.c:56-62 | the same on the other side |
| `Rings.Unlink` | array.c:627-628 | the ring without the element is intact |
| `Rings.Cut` | array.c:222-225 | the cut leaves a ring of the later elements and a null-terminated chain of the first n, in order |
| `Rings.CutAll` | array.c:210-216 | the chain of all elements and an empty ring |
| `Rings.Renumber` | array.c:227-228 | the renumbering loop moves every index from one element on, and nothing else |
| `SparseArrays.SparseArray.constructor` | array.c:80-94 | an empty, consistent array |
| `SparseArrays.SparseArray.Flush` | array.c:96-112 | empty again, counters and roving pointer reset |
| `SparseArrays.SparseArray.SearchStart` | array.c:549-561 | wherever the roving pointer is, the start and direction chosen cannot miss the index |
| `SparseArrays.SparseArray.Place` | array.c:567-591 | the search of an insertion stops at the index or right past it, before the sentinel |
| `SparseArrays.SparseArray.Insert` | array.c:515-595 | the new list is the entries with the value at its place, structure and counters consistent; the "problem" return is never reached |
| `SparseArrays.SparseArray.Remove` | array.c:601-651 | the element with the index leaves and is handed back with its value, or there is none; counters and roving pointer stay consistent |
| `SparseArrays.SparseArray.Reference` | array.c:656-703 | the value is the map's, the array unchanged; the roving pointer ends on an element, never on the sentinel |
| `SparseArrays.SparseArray.Shift` | array.c:192-243 | the first n elements go, in order, as a chain unless disposed of; the others move down by n |
| `SparseArrays.SparseArray.RShift` | array.c:250-281 | all indices move up by n, a value becomes element 0, and the new number of elements is returned |
| `SparseArrays.SparseArray.Copy` | array.c:124-142 | new elements with the same entries, the roving pointer at the same place |
| `ArrayRuns.Perform` | array.c:515-703 | each operation's answer and new contents depend on the old contents alone |
| `ArrayRuns.Run` | array.c:68-78 | so do those of any run of inserts, removes, references, shifts and flushes: the roving pointer is never observable |
| `ArrayMaps.RunsAgree` | array.c:515-703 | any run on the array is the same run on a plain map, answer by answer, the elements shifted out being the n least keys |
| `ArrayMaps.RankIs` | array.c:192-243 | an element's position is the number of smaller indices in the map |
| `ArrayStacks.BalancedRun` | array.c:283-293 | a balanced run of pushes and pops is possible exactly when the largest index has room for its height; then every pop hands back the value pushed last and the array is as it was |
| `Commands.Meaning` | execute_cmd.c:3058-3935 | a signal that leaves a command names a loop around it, the last exit status is then the command's, and what has happened stays |
| `Blindness.SameMeaning` | execute_cmd.c:657-1277 | if nothing that a command runs looks at the last exit status, neither does the command |
| `Executor.Shell.BreakBuiltin` | builtins/break.def:62-91 | `break n` aims at the n-th enclosing loop, the outermost if there are fewer, all when n is not positive, none outside of loops |
| `Executor.Shell.ContinueBuiltin` | builtins/break.def:107-136 | `continue n` likewise; n not positive breaks all loops |
| `Executor.Shell.Execute` | execute_cmd.c:657-1277 | the counters, the depth, the last status and everything that happened are those of the structured meaning; while a counter is set nothing runs |
| `Executor.Shell.ExpandWords` | execute_cmd.c:3083-3086 | commands substituted in the same shell run among the loops where their word stands, and what they break or continue is pending afterwards |
| `Executor.Shell.ExecuteSimple` | execute_cmd.c:657-1277 | a simple command runs even if one of its words has broken or continued |
| `Executor.Shell.ExecuteArith` | execute_cmd.c:3970-4043 | `((...))`: status 0 for a value that is not 0, and 1 for 0 or an error |
| `Executor.Shell.ExecuteConnection` | execute_cmd.c:2879-3027 | `;`, `&&` and the or-list |
| `Executor.Shell.ExecuteIf` | execute_cmd.c:3939-3967 | `if` |
| `Executor.Shell.TakeSignal` | execute_cmd.c:3919-3930 | a loop takes a signal of its own and hands on one for a loop further out |
| `Executor.Shell.ExecuteWhileOrUntil` | execute_cmd.c:3874-3935 | `while` and `until` as rounds of the structured meaning, the depth restored |
| `Executor.Shell.ExecuteFor` | execute_cmd.c:3058-3215 | `for`: the words are expanded one loop deeper, the depth is restored on every way out, and with an empty list or a failing assignment the counters are not looked at |
| `Executor.Shell.EvalArithForExpr` | execute_cmd.c:3231-3285 | an expression is calculated even while a signal is pending |
| `Executor.Shell.ExecuteArithFor` | execute_cmd.c:3287-3369 | the arithmetic `for`, where test and step may raise signals |
| `Executor.Shell.RunActions` | execute_cmd.c:3817-3829 | the actions chained by `;&` |
| `Executor.Shell.ExecuteCase` | execute_cmd.c:3711-3848 | the nested loops do what the recursive definition of `;;`, `;&` and `;;&` says, also while a signal is pending, and the clause pointer is not null when it is advanced |
| `Executor.Shell.ExecuteFunction` | execute_cmd.c:5576-5831 | a function body is outside of its caller's loops; the caller's depth comes back |
| `Statuses.NotStatus` | execute_cmd.c:1247-1251 | `! a` has status 0 exactly when a has not, and 1 otherwise; signal and events are those of a |
| `Statuses.IfNot` | execute_cmd.c:3939-3967 | negating the test of an `if` exchanges its branches |
| `Statuses.IfStatus` | execute_cmd.c:3939-3967 | the first branch runs exactly when the test ends with status 0, and the status is that of the branch |
| `Statuses.ThenStatus` | execute_cmd.c:2879-3027 | `a ; b` has the status of b, unless a raises a signal |
| `Statuses.AndStatus` | execute_cmd.c:2879-3027 | `a && b`: b runs exactly when a has status 0; otherwise the status is that of a |
| `Statuses.OrStatus` | execute_cmd.c:2879-3027 | the or-list: b runs exactly when a has another status; otherwise the status is that of a |
| `Statuses.RepeatStatus` | execute_cmd.c:3874-3935 | `while` and `until` have the status of the last body, the one that leaves the loop included, and 0 if none ran; only a signal for a loop further out is handed on |
| `Statuses.ForStatus` | execute_cmd.c:3058-3215 | so has `for`; a word that cannot be assigned is an error |
| `Statuses.ForUnnamed` | execute_cmd.c:3058-3215 | so is a variable whose name is not valid, and then nothing else happens |
| `Statuses.ArithForStatus` | execute_cmd.c:3287-3369 | the arithmetic `for` has the status of the last body, 0 if none ran, and 1 if an expression cannot be calculated |
| `Statuses.CaseStatus` | execute_cmd.c:3768-3848 | a `case` in which nothing matches has status 0 |
| `Statuses.TerminatorStatus` | execute_cmd.c:3768-3848 | `;;`, `;&` and `;;&` behind a clause that runs, with a second clause: what runs, and whose status remains |
| `Statuses.CalcStatus` | execute_cmd.c:3970-4043 | `((...))` has status 0 exactly for a value that is not 0 |
| `Statuses.CallStatus` | execute_cmd.c:5576-5831 | a function has the status of its body |
| `Statuses.CountStatuses` | builtins/break.def:62-136 | `break n` and `continue n` fail exactly when n is not positive, and then leave all loops; otherwise they aim at the n-th loop or the outermost |
| `Statuses.NoLoopToLeave` | builtins/break.def:62-136 | outside of all loops they do nothing |
| `Statuses.SimpleStatus` | execute_cmd.c:657-1277 | a simple command without substitutions has the status it was run with |
| `Signals.SaneMeaning` | execute_cmd.c:3058-3935 | a signal names an existing loop, and none further out than the command's own breaks and continues count, if none of them escapes from the word list of a `for` or from the first or third expression of an arithmetic `for` |
| `Signals.CountersStay` | execute_cmd.c:3058-3935 | then breaking and continuing never exceed the depth, are never both set, and are zero outside of loops |
| `Signals.ExecuteLine` | execute_cmd.c:657-1277 | so after any such command line all counters are zero again |
| `Slips.SlipExactly` | execute_cmd.c:3083-3369 | where a loop stands, its parts aiming at most m loops out from inside it, it hands on a signal for a loop still further out exactly when it ends without looking at its counters while one for the outermost of the m is pending: a `for` with nothing to assign or a failing assignment, an arithmetic `for` whose first or third expression fails |
| `Slips.SlipsOneLoopOut` | execute_cmd.c:3083-3369 | when a loop ends so, what is pending counts from one loop further out, at any depth |
| `Slips.TameReaches` | execute_cmd.c:3083-3369 | the premise of the above can be read off the parts: it holds for all m loops that their breaks and continues count out, and for all loops around whatever they count, `break 0`, `break 99` and `continue -1` included |
| `Slips.HarmlessExample` | execute_cmd.c:3309-3369 | a break for a loop inside of the expression is harmless |
| `Slips.FailingExample` | execute_cmd.c:3309-3369 | an arithmetic `for` after which a break is pending outside of all loops and the next command is skipped |
| `Slips.EmptyListExample` | execute_cmd.c:3083-3191 | a `for` whose list is `${ break n; }` and empty, for every n: the break is pending one loop further out, or outside of all loops where the next command is skipped |
| `Strays.StraysExactly` | execute_cmd.c:657-1277 | after any command a signal is pending that is for no loop around it exactly when the run has come, through any loops, substitutions and functions, to a loop that ended without looking at its counters with a signal for the outermost loop of all pending |
| `Strays.LineStraysExactly` | execute_cmd.c:657-1277 | so exactly then a signal is pending after a command line, and then the next one does not run |
| `Strays.ExecuteAnyLine` | execute_cmd.c:657-1277 | for any command line, tame or not: both counters are zero afterwards exactly when the run came to no such loop |
| `Nesting.BreakLeaves` | execute_cmd.c:3058-3935 | `break n` anywhere within nested loops of the four kinds, in any round, behind and within any other commands, words, patterns and expressions of one function, where no loop on the way ends without looking at its counters: the n innermost loops end, the next one out goes on, and nothing more happens but that the expansions the break stands in are completed, each by the events given, and patterns tested |
| `Nesting.BreakInTest` | execute_cmd.c:3309-3345 | for instance a break in the test of an arithmetic `for` |
| `Nesting.ContinueResumes` | execute_cmd.c:3058-3935 | `continue n` from such a place ends n - 1 loops, and the n-th, if the place is in its body, goes on with its next word, its third expression or its test |
| `Nesting.TestResumes` | execute_cmd.c:3904-3930 | a `continue` of a loop in its own test: the next round comes exactly if the status of the test would let the body run, otherwise the loop ends |
| `Nesting.UntilContinueEnds` | execute_cmd.c:3904-3930 | `until continue; do ...; done` ends at once |
| `Nesting.WhileContinueGoesOn` | execute_cmd.c:3904-3930 | `while continue; do ...; done` never ends, and neither does `until ! continue; do ...; done` |
| `ArithForms.ArithForIsWhile` | execute_cmd.c:3217-3230 | an arithmetic `for` without substitutions that ends does what the `while` loop of the comment does, which then ends too, event by event and with the same signal, exactly when its first expression and every third one it comes to can be calculated and no body continues the loop; while this is so each loop ends exactly when the other does, and the statuses are given |
| `ArithForms.CountingExample` | execute_cmd.c:3352-3361 | `for ((i=0; i<3; i++)) do continue; done` ends after three rounds, and its `while` loop never ends |
| `ArithForms.InitExample` | execute_cmd.c:3309-3369 | the forms differ when the first expression fails |
| `ArithForms.TestExample` | execute_cmd.c:3309-3369 | their statuses differ when the test fails |
| `ArithForms.ContinueExample` | execute_cmd.c:3352-3361 | they differ when the body continues: the third expression is still calculated |
| `ArithForms.StepExample` | execute_cmd.c:3309-3369 | they differ when the third expression fails |
| `Fuel.EnoughFuel` | execute_cmd.c:3874-3935 | a run that ends is the same under every larger bound on its rounds and calls |
| `CaseClauses.CaseRuns` | execute_cmd.c:3768-3848 | a `case` with any actions, patterns and signals goes through its clauses once, in order: each is tested, runs untested behind one that ran and ends in `;&`, or is passed over |
| `CaseClauses.FirstMatchOnly` | execute_cmd.c:3768-3848 | with `;;` only, no clause runs after the first that matches |

## Left out

- Integers.ShiftCount: shifts by counts outside 0 to 63 are undefined in C and are modelled by the low six bits of the count.
- Machine.ReadTok: a `[` behind a name is an error of its own; array subscripts, associative arrays and namerefs inside expressions are not modelled.
- Machine.StreVal: unset variables read as 0; the nounset option, dynamic variables and variables with side effects on assignment are not modelled.
- Evaluator.Evaluator.EvalExp: the jump on error is a return value; error texts are kept only as kinds of error.
- Braces.BraceExpand: the extractors of command substitutions are a parameter that may return any later position; multibyte characters and failed allocation are not modelled.
- BraceTrees.ExpandPrinted: a segment counts as quoted or substituted if the scanner passes it at once in every context; for a substitution this needs an extractor whose answer depends on its own text only (`BraceQuoting.ProtectedBySubstitution`).
- BraceCompress.CompletionRoundTrip: the sort itself is left to qsort, which the shell calls in multibyte locales only; names are byte strings without NUL; the quoting is sh_backslash_quote with its default table, outside of multibyte locales.
- SparseArrays.SparseArray.RShift: requires that the largest index plus n fits the index type, since C leaves the overflow undefined.
- SparseArrays.SparseArray.Copy: freeing of memory is not modelled, here and in the other operations.
- Executor.Shell.Execute: redirections, pipelines, subshells, traps, `return`, errexit, job control, hooks and the debugger are not modelled; what simple commands, word expansions, arithmetic and pattern matching come to is a parameter that may depend on everything that happened before, apart from the commands substituted in the same shell, which are modelled. Runs are bounded by a number of rounds and nested calls, on which the result does not depend (`Fuel.EnoughFuel`).
- Executor.Shell.BreakBuiltin: an operand that is not a number ends the command line, and an operand may hold a substituted command; neither is modelled, and operands are numbers.
- ArithForms.ArithForIsWhile: for expressions without substituted commands and for commands that do not look at the last exit status, which a `((...))` sets and an expression of an arithmetic `for` does not.
- Slips.SlipExactly: speaks of a loop whose parts aim no further out than m loops; a loop whose parts have left a signal astray themselves is the subject of `Strays.StraysExactly`, and what a slip of a signal for a loop further in does of `Slips.SlipsOneLoopOut`.
- execute_select_command, which is interactive.
- array_slice, array_from_argv, the conversions to and from word lists, and array2.c, an alternative implementation.
- Ordering of side effects in the `let` builtin and in expansion; bashline.c and the completion code around bracecomp.c.
