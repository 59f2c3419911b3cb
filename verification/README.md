# Aetherius, modelled and proved

Aetherius runs *Blueprints*: lists of steps, with `{{ … }}` expressions in them, executed by drivers
(*acts*) on a device or by a daemon. This project models the parts of it where a mistake would be hard
to see, and proves what they are for. `dafny verify dfyconfig.toml` checks all of it.

## How the model is built

Thrown errors are values (`Result`, `Fault`, `Thrown`), undefined is a value of its own, and whatever
the platform answers (fetch, timers, storage, drivers, number formatting, text order) is a parameter,
usually a function of a clock so that every answer is arbitrary and independent of the previous ones.
Code that runs step by step is a class or a method with loops, tied by its `ensures` to a
specification function; the properties are then lemmas about those functions, for all inputs and for
all runs. Concurrent code is a state machine over its steps: an `await`, a callback or a timer is a
point where anything else may happen.

- **Expressions** (`Expr*.dfy`). The lexer and the precedence ladder over a mutable cursor
  (`ExprLexer`, `ExprParser`) compute the grammar of `ExprGrammar`, on every text. `ExprMinimal` reads
  back every tree written with the parentheses its precedence asks for, `ExprHeard` characterises the
  trees that survive being written with all of them. `ExprLaws` says what each operator, test and filter
  answers, on the answers alone, and `ExprStrict` what an undefined value does to them; Python's `repr` is
  read back as the value it prints, and comparison chains mean what Python says they mean.
- **Bytes and digests** (`Utf8*.dfy`, `Sha256*.dfy`). The decoder that reprocesses bytes equals "one
  scalar per well-formed sequence, one U+FFFD per maximal subpart" (section 3.9 of the Unicode
  Standard, Table 3-7); encoder and decoder are inverse exactly where they can be; the in-place digest
  over signed 32-bit operators is the function of sections 5.1.1 and 6.2 of FIPS 180-4, whose constants are
  proved to be the roots of primes that section 4.2.2 says they are (`Sha256Constants`).
- **Runs** (`Blueprint.dfy`, `RunModel.dfy`, `Execution.dfy`, `RunLaws.dfy`, `StepLaws.dfy`,
  `SeedLaws.dfy`, `CallLaws.dfy`, `ValidationLaws.dfy`, `OptionalBlocks.dfy`, `RunVisits.dfy`, `FlowLaws.dfy`,
  `Engine.dfy`). A recursive interpreter of flow actions with guards, tolerated failures, cancellation and
  drivers set up on demand. `RunModel` is its meaning, `Execution` the executor with its fields and loops,
  `FlowLaws` what each step does in terms of the fields written in the Blueprint, the rest what every run keeps.
- **Delivery** (`Versions.dfy`, `Delivery.dfy`, `Registry.dfy`, `RegistryRuns.dfy`, `DeliveryLaws.dfy`).
  Remote versions of bundled Blueprints: an overlay in memory over a document in a store that may hold
  anything, and a manifest that may say anything, with operations interleaving at every `await`; whatever is
  served is traced to a stored document or to a text under the digest a manifest announced.
- **Approvals** (`Approvals.dfy`, `ApprovalRuns.dfy`). A parked run, a human, a timer and a cancellation
  racing for one rendezvous, and the queue of questions many runs share.
- **The daemon's jobs** (`Jobs.dfy`, `JobRuns.dfy`). Events posted by a worker thread to the event loop
  and fanned out to subscribers that come and go.
- **JSONPath** (`JsonPath.dfy`, `JsonPathText.dfy`). Slices as CPython takes them, preorder descent, and
  the scanner of the written form.
- **Redaction and recording** (`Redaction.dfy`, `Names.dfy`, `Recorder.dfy`, `Gestures.dfy`). The last
  curtain before an application sees a text; the transformation of captured events into a Blueprint,
  and what the expression language makes of the placeholders it writes (`Placeholders.dfy`).

Results that differ from what the documentation of the source says are proved as they are:

- a stored entry whose `min_engine` is not text makes every resolution of that name throw, where the
  registry is said to heal itself by purging it: `Registry.JammedExactly` says exactly when, and
  `Registry.StoredDocumentJams` gives such a document for every entitled name;
- two operations that both start by reading the cache can leave the memory on the old document and the
  store on the new one, even when the store answers in order (`RegistryRuns.StaleReadParts`). Over
  every run with a store that works, this is so if and only if the last thing to touch the memory was
  the answer of a read overtaken by a write (`RegistryRuns.PartedExactly`, a condition on the run, not one
  a caller can check). What a caller can see to is enough but not necessary: once the overlay is in
  memory, agrees with the store and no first read is pending, it never happens again
  (`RegistryRuns.SettledForever`);
- `repr` of a string with an apostrophe, a backslash and no double quote does not read back, nor does any
  value that holds one, as a key included (`ExprReprExact.ReprReadsBackExactly`);
- a secret that is part of the text `[secret]` is put back by its own redaction; for values that cannot
  straddle that text this is the only way one can be left (`Redaction.RedactionHoldsIff`), and one that
  can straddle it may be left too (`Redaction.StraddlingValueLeft`);
- a recorded name that begins with a digit gives a placeholder the expression language cannot read
  (`Placeholders.RecordedSecretReads`, `Placeholders.RecordedOutputReads`);
- the word `not` is also a variable, but only where the grammar does not look for the operator first: as the
  operand of a sign, and as the right operand of an arithmetic operator, of `~` or of a comparison other
  than `is`. A tree can be read back if and only if all its variables `not` stand there
  (`ExprHeard.ParseInvertsRender`);
- comparing versions is a total preorder on numeric ones only: what is not a number compares as greater
  on either side (`Versions.CompareFlips` says exactly when the comparison flips).

## Model

| member | source | states |
|---|---|---|
| ExprLexer.Tokenize | sdks/engine/src/expr/lexer.ts:49-104 | the scanning loop returns the tokens, or the first error, that the grammar of tokens gives the text |
| ExprLexer.ReadString | sdks/engine/src/expr/lexer.ts:106-126 | the loop over a quoted body yields the unescaped text and stops just past the closing quote, or finds none |
| ExprLexer.ReadNumber | sdks/engine/src/expr/lexer.ts:142-151 | digits and an optional fraction that has digits, with their value; a trailing dot is not consumed |
| ExprScanning.LexSpelled | sdks/engine/src/expr/lexer.ts:49-151 | any sequence of well-formed tokens, spelled out, lexes back to itself |
| ExprScanning.ScanToken | sdks/engine/src/expr/lexer.ts:49-151 | each token, followed by anything that cannot extend it, is scanned back whole |
| ExprTexts.EscapesRead | sdks/engine/src/expr/lexer.ts:106-140 | in either quotes, a text whose line ends, tabs, backslashes and quotes are escaped reads as that text |
| ExprTexts.BlanksAreSkipped | sdks/engine/src/expr/lexer.ts:49-59 | blanks, and only they, are skipped before a token |
| ExprTexts.NamesRead | sdks/engine/src/expr/parser.ts:20-27 | the six names that are literals read as their value, any other as a variable |
| ExprParser.ParseSource | sdks/engine/src/expr/parser.ts:29-39 | the class over a mutable cursor returns exactly what the grammar says of the text, tree or error |
| ExprParser.Parser.ParseExpression | sdks/engine/src/expr/parser.ts:40-48 | conditional on the or-tier, right-nested else, cursor left on the first token not read |
| ExprParser.Parser.ParseOr | sdks/engine/src/expr/parser.ts:50-56 | left-associated `or`, at its tier of the ladder |
| ExprParser.Parser.ParseAnd | sdks/engine/src/expr/parser.ts:58-64 | left-associated `and`, at its tier of the ladder |
| ExprParser.Parser.ParseNot | sdks/engine/src/expr/parser.ts:66-74 | prefix `not` binds looser than comparison |
| ExprParser.Parser.ParseCompare | sdks/engine/src/expr/parser.ts:76-99 | collects the links of a comparison and builds the chain |
| ExprParser.Parser.ParseMath1 | sdks/engine/src/expr/parser.ts:117-124 | left-associated sums, at their tier |
| ExprParser.Parser.ParseConcat | sdks/engine/src/expr/parser.ts:126-132 | left-associated concatenation, at its tier |
| ExprParser.Parser.ParseMath2 | sdks/engine/src/expr/parser.ts:134-146 | left-associated products, at their tier |
| ExprParser.Parser.ParseUnary | sdks/engine/src/expr/parser.ts:148-159 | signs, then postfix, then filters and tests |
| ExprParser.Parser.ParsePostfix | sdks/engine/src/expr/parser.ts:161-181 | the loop over attribute, subscript and call suffixes |
| ExprParser.Parser.ParseFilterExpression | sdks/engine/src/expr/parser.ts:183-207 | the loop over filters and `is` tests, `is not` included |
| ExprParser.Parser.ParsePrimary | sdks/engine/src/expr/parser.ts:221-275 | literals, names, lists, dictionaries and parentheses |
| ExprParser.Parser.Accept | sdks/engine/src/expr/cursor.ts:12-63 | advances past the token if it is the one asked for, and says so |
| ExprGrammar.PExpr | sdks/engine/src/expr/parser.ts:40-48 | on every token list the ladder ends, consumes at least one token when it succeeds, and gives a well-formed tree |
| ExprGrammar.ParseTokens | sdks/engine/src/expr/parser.ts:29-39 | success leaves no token over, and only trees of the language come out |
| ExprHeard.ParseInvertsRender | sdks/engine/src/expr/parser.ts:29-275 | for every tree: parsing its parenthesised text gives it back if and only if it is a tree of the language, is not the variable `not`, and has that variable only where it can be read |
| ExprHeard.AtomReadsExactly | sdks/engine/src/expr/parser.ts:221-275 | the parenthesised tokens of a tree of the language are read as that tree, whatever follows, if and only if its variables `not` stand where they can be read |
| ExprHeard.ReparseIsStable | sdks/engine/src/expr/parser.ts:29-275 | parsing yields trees of the language; rendering one and parsing again yields it again if and only if its variables `not` stand where the rendering can be read |
| ExprHeard.NeverNot | sdks/engine/src/expr/parser.ts:66-74 | no text that begins an expression parses as the variable `not`, in any number of parentheses |
| ExprMinimal.ParseInvertsMinimalRender | sdks/engine/src/expr/parser.ts:29-275 | for every tree, written with no more parentheses than precedence and associativity ask for: parsing gives the tree back, chains of filters and tests, operators leaning left, the order of all the tiers and nested conditionals included, as long as the variable `not` stands only where it can be read |
| ExprMinimal.ParseReadsChains | sdks/engine/src/expr/parser.ts:76-115 | the text `a < b < c …`, of any length, is parsed to the chain of its links |
| ExprMinimal.BareReads | sdks/engine/src/expr/parser.ts:29-275 | the minimal tokens of a tree, before anything that its level would not take, are read as that tree, and the loop of its level goes on from there |
| ExprBrackets.Exact | sdks/engine/src/expr/parser.ts:221-275 | the parenthesised tokens of any tree, if read as a primary at all and as whatever tree, are consumed exactly |
| ExprChain.ChainIsPythonChain | sdks/engine/src/expr/parser.ts:76-99 | the tree built for `a < b < c …` evaluates to Python's chain: left to right, stopping at the first false link |
| ExprLaws.NumbersCompute | sdks/engine/src/expr/operators.ts:22-33 | sums, differences and products of numbers are those numbers; a quotient times the divisor is the dividend; dividing by zero fails |
| ExprLaws.FloorsCompute | sdks/engine/src/expr/operators.ts:33-38 | `//` is whole, `(a // b) * b + a % b` is `a`, and `a % b` lies between zero and `b` on the side of `b` |
| ExprLaws.Undone | sdks/engine/src/expr/operators.ts:14-39 | `(l - r) + r`, `(l + r) - r` and `(l / r) * r` evaluate to `l` |
| ExprLaws.DividedAndLeft | sdks/engine/src/expr/operators.ts:33-38 | `(l // r) * r + l % r` evaluates to `l` |
| ExprLaws.BooleansCount | sdks/engine/src/expr/operators.ts:127-131 | in arithmetic a boolean is one or zero |
| ExprLaws.JoinsCompute | sdks/engine/src/expr/operators.ts:14-21 | `+` joins texts and lists, `~` joins what its sides print as, and anything else that is no number is refused |
| ExprLaws.SignsCompute | sdks/engine/src/expr/eval.ts:154-161 | a plus does nothing, two minuses cancel, a number and its opposite sum to zero, and a sign on anything else is refused |
| ExprLaws.TruthComputes | sdks/engine/src/expr/operators.ts:85-94 | `not`, `and` and `or` go by which values count as false, and the last two answer an operand |
| ExprLaws.ConditionalComputes | sdks/engine/src/expr/eval.ts:88-98 | the inline conditional evaluates the branch its condition chooses, and no other |
| ExprLaws.OrderComputes | sdks/engine/src/expr/operators.ts:96-116 | the four order operators on numbers, booleans among them, and on texts; anything else is refused |
| ExprLaws.OrderOpposites | sdks/engine/src/expr/operators.ts:96-116 | `<` and `>=` answer opposites, so do `>` and `<=`, and swapping the sides swaps `<` and `>` |
| ExprLaws.EqualityComputes | sdks/engine/src/expr/operators.ts:61-82 | `==` is equality of shape and content, key order aside, with `True` as one, of values whose objects repeat no key; `!=` is its opposite |
| ExprLaws.EqualityIsAnEquivalence | sdks/engine/src/expr/operators.ts:61-82 | `==` is reflexive, symmetric and transitive |
| ExprLaws.Trichotomy | sdks/engine/src/expr/operators.ts:61-116 | of two numbers exactly one of `<`, `==` and `>` holds |
| ExprLaws.MembershipComputes | sdks/engine/src/expr/operators.ts:118-125 | `in` finds an item `==` to it in a list, a part of a text, a key of an object; `not in` is its opposite; other right sides are refused |
| ExprLaws.IdentityComputes | sdks/engine/src/expr/operators.ts:51-54 | `is` and `is not` with a literal name, on values that are no lists or objects |
| ExprLaws.SubscriptsCompute | sdks/engine/src/expr/eval.ts:123-142 | a subscript counts from the start, from the end when negative, and is undefined outside; on texts it takes characters |
| ExprLaws.AttributesCompute | sdks/engine/src/expr/eval.ts:123-142 | an attribute, or a text subscript, is the property of that name or undefined |
| ExprLaws.TestsCompute | sdks/engine/src/expr/eval.ts:144-152 | `is defined` and `is undefined` say whether there is a value, their negations the opposite; other tests are refused |
| ExprLaws.DictsCompute | sdks/engine/src/expr/eval.ts:103-109 | of entries with one key the last one counts |
| ExprLaws.EndsCompute | sdks/engine/src/expr/filters.ts:58-74 | `first`, `last` and `length` of lists, texts and objects; the ends of nothing are undefined |
| ExprLaws.JoinsItems | sdks/engine/src/expr/filters.ts:91-94 | one more item joined is the separator and its text after the others |
| ExprLaws.DefaultsCompute | sdks/engine/src/expr/filters.ts:104-108 | `default` catches the undefined, and any false value when asked to; otherwise the value stays |
| ExprRepr.ReprRoundTrip | sdks/engine/src/expr/truthy.ts:30-49 | evaluating the parse of the printed form of null, booleans, safe integers, readable strings, lists and objects of them yields the value |
| ExprReprExact.ReprReadsBackExactly | sdks/engine/src/expr/truthy.ts:30-49 | the printed form of a value made of null, booleans, safe integers, strings, lists and objects parses to its tree if and only if every string in it, keys included, lacks an apostrophe, a backslash, or has a double quote |
| ExprReprExact.StringReprReadsBack | sdks/engine/src/expr/truthy.ts:44-49 | a printed string reads back if and only if it lacks an apostrophe, a backslash, or has a double quote |
| ExprRepr.ReprScans | sdks/engine/src/expr/lexer.ts:106-140 | the printed form of a value lexes to its own tokens |
| ExprRepr.TreeEvaluates | sdks/engine/src/expr/eval.ts:30-112 | the tree a value prints to evaluates to that value in every context |
| ExprStrict.FirstFailureDecides | sdks/engine/src/expr/eval.ts:30-121 | of the operands a node always uses, the first in evaluation order that is undefined or fails decides its answer: the undefined-variable error, or that very failure |
| ExprStrict.UndefinedNeverHides | sdks/engine/src/expr/eval.ts:30-121 | no value comes out of a tree with an undefined value or a failure in a strict position, at any depth |
| ExprFilters.TrimChars | sdks/engine/src/expr/filters.ts:80-90 | the two closing cursors leave what stripping both ends leaves |
| ExprFilters.StripStartIs | sdks/engine/src/expr/filters.ts:80-90 | only listed characters are taken from the front, and as many as there are |
| ExprFilters.StripEndIs | sdks/engine/src/expr/filters.ts:80-90 | only listed characters are taken from the end, and as many as there are |
| Utf8Decoder.DecodeUtf8 | sdks/engine/src/extraction/charset.ts:80-152 | on every byte sequence the state machine ends, reprocessed bytes included, with the text of the maximal-subpart specification; chunk flushing does not show |
| Utf8.Decode | sdks/engine/src/extraction/charset.ts:70-152 | every code point the specification yields is a scalar value |
| Utf8.MaximalSubpartIsMaximal | sdks/engine/src/extraction/charset.ts:70-152 | the subpart replaced by one U+FFFD is the longest beginning of a well-formed sequence |
| Utf8.WellFormedPrefixUnique | sdks/engine/src/extraction/charset.ts:98-148 | no byte sequence has two well-formed prefixes |
| Utf8.DecodeTextEncodeText | sdks/react-native/src/delivery/sha256.ts:31-63 | decoding an encoded text gives the text with each lone surrogate replaced by U+FFFD |
| Utf8.CleanTextSurvives | sdks/react-native/src/delivery/sha256.ts:31-63 | a text survives encoding and decoding if and only if it has no lone surrogate |
| Utf8.EncodeTextDecodeText | sdks/engine/src/extraction/charset.ts:80-152 | decoding and encoding gives bytes back if and only if they are well-formed UTF-8 |
| Utf8.Utf8Bytes | sdks/react-native/src/delivery/sha256.ts:31-63 | the loop over code units produces the encoding of the text, pairs joined and lone surrogates replaced |
| Sha256.Sha256Hex | sdks/react-native/src/delivery/sha256.ts:70-134 | the in-place loops return the FIPS 180-4 digest of the encoded text, in 64 lowercase hexadecimal digits |
| Sha256.TurnIsRound | sdks/react-native/src/delivery/sha256.ts:109-126 | one turn over signed 32-bit operators is one round of section 6.2.2 on unsigned words |
| Sha256.PadMessage | sdks/react-native/src/delivery/sha256.ts:72-83 | the array filled in place is the padded message of section 5.1.1 |
| Sha256.FillSchedule | sdks/react-native/src/delivery/sha256.ts:87-97 | the 64 words written in place are the message schedule of the block |
| Sha256.CompressBlock | sdks/react-native/src/delivery/sha256.ts:89-129 | one pass over a block updates the chaining value as section 6.2.2 says |
| Sha256Constants.ConstantsAreCubeRoots | sdks/react-native/src/delivery/sha256.ts:16-26 | each of the 64 round constants is the first 32 bits of the fraction of the cube root of its prime, the primes proved prime and in order |
| Sha256Constants.InitialAreSquareRoots | sdks/react-native/src/delivery/sha256.ts:84-86 | each initial word is the first 32 bits of the fraction of the square root of its prime |
| Sha256Words.BigSumsOfOneBit | sdks/react-native/src/delivery/sha256.ts:110-113 | one bit shows by how much the big sums rotate a word |
| Sha256Words.ChoiceAndMajority | sdks/react-native/src/delivery/sha256.ts:111-114 | on words that hold every combination of three bits, the choice and the majority are their truth tables |
| Sha256Words.LeftShiftMultiplies | sdks/react-native/src/delivery/sha256.ts:65-67 | a left shift multiplies by a power of two and drops what leaves the word |
| Sha256Words.RightShiftDivides | sdks/react-native/src/delivery/sha256.ts:65-67 | a right shift divides by a power of two |
| Sha256Words.DigestReads | sdks/react-native/src/delivery/sha256.ts:131-133 | the digest is sixty-four lowercase hexadecimal digits, and read as a number it is the digest |
| Sha256Words.TextsTellDigestsApart | sdks/react-native/src/delivery/verify.ts:103-104 | two digest texts are equal if and only if the digests are |
| Sha256Spec.PadIsAligned | sdks/react-native/src/delivery/sha256.ts:72-83 | the padded length is a multiple of 64 bytes |
| Sha256Spec.PadIsShortest | sdks/react-native/src/delivery/sha256.ts:72-83 | no shorter multiple of 64 has room for the mark and the length |
| Sha256Spec.PadInjective | sdks/react-native/src/delivery/sha256.ts:72-83 | messages with the same padding are the same |
| Execution.Executor.Walk | sdks/engine/src/runtime/steps.ts:114-133 | the loop runs steps in order as the interpreter does; a tolerated failure seeds, skips the rest and reports |
| Execution.Executor.RunOne | sdks/engine/src/runtime/steps.ts:135-205 | cancellation first, then guard, work and recording: results, events, outputs and what is thrown |
| Execution.Executor.Settle | sdks/engine/src/runtime/steps.ts:180-204 | what is published, recorded, reported and rethrown for each way a step can end |
| Execution.Executor.SkipRest | sdks/engine/src/runtime/steps.ts:214-223 | every remaining step is seeded, recorded and reported as skipped under its own index |
| Execution.Executor.RunLeaf | sdks/engine/src/runtime/steps.ts:225-232 | the driver of the effective act is resolved, then called once |
| Execution.Executor.RunFlow | sdks/engine/src/runtime/flow.ts:57-70 | the four flow actions with their outputs, statuses and errors |
| Execution.Executor.ForEach | sdks/engine/src/runtime/flow.ts:187-202 | the rounds with the variable bound, and the scope restored however they end |
| Execution.Executor.Repeat | sdks/engine/src/runtime/flow.ts:149-155 | the body runs the coerced number of times under indexed paths, stopping at the first throw |
| Execution.Executor.SeedBlockOutputs | sdks/engine/src/runtime/flow.ts:106-122 | the recursive loops publish what the seeding function says |
| Execution.DriverManager.ResolveDriver | sdks/engine/src/runtime/drivers.ts:47-58 | set up on first use, kept in order of first use, nothing kept when setup fails |
| Execution.DriverManager.TeardownAll | sdks/engine/src/runtime/drivers.ts:61-74 | every driver goes, newest first, also past a failing one; the first failure is reported |
| StepLaws.RunOneKeeps | sdks/engine/src/runtime/steps.ts:135-205 | whatever the world answers: scope back, published outputs kept, one error event per failure, the last fault is the one that leaves |
| StepLaws.WalkKeeps | sdks/engine/src/runtime/steps.ts:114-133 | the same for a list of steps; an absorbed failure leaves exactly one partial to record |
| StepLaws.RunFlowKeeps | sdks/engine/src/runtime/flow.ts:57-202 | the same through every flow action |
| StepLaws.RoundsKeep | sdks/engine/src/runtime/flow.ts:187-201 | the same for any number of rounds, with the loop variable restored at the end |
| RunLaws.RestoredIsBefore | sdks/engine/src/runtime/flow.ts:188-200 | restoring undoes any binding of the variable and changes nothing else |
| SeedLaws.SeedSeeds | sdks/engine/src/runtime/flow.ts:106-122 | an empty table appears under exactly the unpublished identified steps at any depth; nothing published changes |
| SeedLaws.SkipRestSeeds | sdks/engine/src/runtime/steps.ts:214-223 | skipping the rest of a block seeds all of it |
| RunVisits.EveryVisitInOrder | sdks/engine/src/runtime/steps.ts:114-205 | at every step a run reaches, at any nesting depth and in any round: every failure so far was reported once and in order, no driver is held twice, no name hides a reserved table; and all that was published at any earlier place of the run, in an enclosing list, an earlier round or a block now over, still is, there and at the end of the run |
| RunVisits.AnyTwoAreOrdered | sdks/engine/src/runtime/flow.ts:57-202 | that order is total: of any two places of one run, one comes before the other |
| RunVisits.OptionalStaysReadable | sdks/engine/src/runtime/flow.ts:93-122 | once a block gave way, reading any identified step from the failed one on with a default never raises, at any later place of the run (after the block, after the blocks around it, in later rounds of the loops around it) or at its end |
| FlowLaws.GuardedOutDoesNothing | sdks/engine/src/runtime/steps.ts:153-164 | a step whose guard renders to something false starts nothing, changes nothing but the record, and throws nothing |
| FlowLaws.NothingStartsUnguarded | sdks/engine/src/runtime/steps.ts:141-166 | a block, a round, a call or a driver is started only by a step that was not cancelled and whose guard, if any, renders to something true |
| FlowLaws.IfChooses | sdks/engine/src/runtime/flow.ts:124-138 | the block an `if` starts is its `then` when the rendered condition is true, its `else` when it is not, in the state the step opened, under its path and act |
| FlowLaws.IfRuns | sdks/engine/src/runtime/flow.ts:124-138 | an `if` that ends well publishes the branch it ran; null, having run nothing, exactly when the condition is false and there is no `else`; a branch that is no list of steps is refused |
| FlowLaws.TimesRead | sdks/engine/src/runtime/flow.ts:220-236 | a count is a whole number or a text that spells one, with a sign and space around; negative ones and all else are refused |
| FlowLaws.RepeatStarts | sdks/engine/src/runtime/flow.ts:140-155 | round `j` of a `repeat` runs its steps under the path indexed `j`, and only when its count is above `j` |
| FlowLaws.RepeatRuns | sdks/engine/src/runtime/flow.ts:140-155 | a `repeat` that ends well started every one of its rounds and publishes their number |
| FlowLaws.ForEachStarts | sdks/engine/src/runtime/flow.ts:157-201 | round `j` of a `for_each` starts with the `j`-th item of the rendered list under its variable, `item` unless `as` names another |
| FlowLaws.ForEachRuns | sdks/engine/src/runtime/flow.ts:157-202 | a `for_each` refuses what is no list, then a bad variable, then bad steps; one that ends well started a round for each item and publishes their number |
| FlowLaws.RoundsFollow | sdks/engine/src/runtime/flow.ts:149-201 | a round starts in the state the previous one left without throwing, but for the loop variable |
| FlowLaws.OptionalRuns | sdks/engine/src/runtime/flow.ts:84-91 | an `optional` step runs its steps tolerated, and is partial exactly when they gave way |
| FlowLaws.MissingIsRefused | sdks/engine/src/runtime/flow.ts:124-174 | without its parameter a flow step fails, recorded and reported; what keeps the parameter from rendering is what it throws |
| FlowLaws.LeafIsCalledOnce | sdks/engine/src/runtime/steps.ts:225-232 | a leaf action is handed once to the driver of its act, set up if it was not; its answer is published, its error leaves the step |
| FlowLaws.AThrowEndsTheList | sdks/engine/src/runtime/steps.ts:122-132 | a step that throws ends its list at once, unless the list tolerates it and the step recorded it |
| FlowLaws.TablesVisible | sdks/engine/src/runtime/context.ts:49-58 | expressions see inputs, secrets, variables, environment and publications under their names, and each loop variable |
| FlowLaws.ItemIsRead | sdks/engine/src/runtime/flow.ts:187-201 | at every step of round `j` of a `for_each` the loop variable evaluates to the `j`-th item, whatever ran before in the round, loops over the same variable included |
| FlowLaws.UnnamedKeepApart | sdks/engine/src/runtime/steps.ts:145-149 | steps without an id publish under different names, in one list and in different rounds |
| FlowLaws.TruthIs | sdks/engine/src/expr/truthy.ts:16-21 | a text is true when it says `true`, `1` or `yes` in any case with space around; of booleans `true` is; null, lists and objects are not |
| OptionalBlocks.OptionalDefaults | sdks/engine/src/runtime/flow.ts:93-122 | the same at the state the block leaves, from any state in order, together with where the block was cut and what it published |
| OptionalBlocks.DefaultNeedsThePublication | sdks/engine/src/expr/filters.ts:104-112 | reading a field of a step with a default: the field if there, the fallback if not, and an error exactly when the step never published |
| OptionalBlocks.CutPoint | sdks/engine/src/runtime/steps.ts:122-131 | a tolerated list is cut at a step that threw a recorded failure, and nowhere else |
| OptionalBlocks.LoopVariableShadowsNothing | sdks/engine/src/runtime/flow.ts:180-186 | an accepted loop variable never hides a reserved table |
| CallLaws.WalkLawful | sdks/engine/src/blueprint/validator.ts:55-82 | what the validator accepted hands drivers only leaf actions granted to their effective act, in every run |
| CallLaws.AcceptedIsAdmitted | sdks/engine/src/blueprint/validator.ts:55-82 | an accepted step is granted to its effective act, and its nested lists are accepted under it |
| ValidationLaws.AcceptedExactly | sdks/engine/src/blueprint/validator.ts:32-82 | a Blueprint is accepted if and only if its act is embedded, it has steps, and every step at every depth may run under its effective act; a field left out or null nests nothing |
| ValidationLaws.FirstFaultIsReported | sdks/engine/src/blueprint/validator.ts:44-82 | of several steps the fault reported is that of the first one that may not run |
| ValidationLaws.ReasonsAreRight | sdks/engine/src/blueprint/validator.ts:138-164 | an action is refused as not portable, unknown, needing another act, or staying elsewhere, exactly by which acts have it |
| ValidationLaws.GrantsAreThePortable | sdks/engine/src/blueprint/capabilities.ts:33-72 | each act has the actions the shared contract lists, and the engine grants all of them but the four that are not portable |
| Engine.RunBlueprint | sdks/engine/src/runtime/engine.ts:54-149 | validation, root driver, steps, teardown, verdict, outputs and final event, on every path |
| Engine.EveryEndingCleansUp | sdks/engine/src/runtime/engine.ts:79-111 | on every ending each driver that was set up is torn down exactly once, newest first; every call was granted; the scope is as before |
| Engine.EveryResultAccounts | sdks/engine/src/runtime/engine.ts:95-119 | errors reported equal partial results plus an escaped failure; finished and skipped events match results; partial exactly when nothing escaped and a step is partial; cancelled exactly when a cancellation was seen |
| Engine.SuccessIsSilent | sdks/engine/src/runtime/engine.ts:113-119 | a run nothing stopped is a success if and only if no error was reported |
| Engine.OutputsAreAsked | sdks/engine/src/runtime/engine.ts:95-149 | a result carries the rendered outputs of the Blueprint, none when the run failed; outputs that do not render, errors of no known kind, a driver that does not come up and the first one that does not go down are thrown instead |
| Versions.CompareVersions | sdks/react-native/src/delivery/manifest.ts:142-151 | the loop returns the sign of the first segment that differs, missing segments read as zero |
| Versions.CompareZero | sdks/react-native/src/delivery/manifest.ts:142-151 | zero if and only if all segments agree, trailing zeros aside |
| Versions.CompareFlips | sdks/react-native/src/delivery/manifest.ts:142-151 | swapping sides flips the sign if and only if the first difference is between numbers |
| Versions.CompareTransitive | sdks/react-native/src/delivery/manifest.ts:142-151 | transitive on numeric versions, strictly when either comparison is strict |
| Versions.DottedCompares | sdks/react-native/src/delivery/manifest.ts:142-151 | dotted decimal numbers compare number by number, so 1.10 comes after 1.9 |
| Delivery.ConfiguredExactly | sdks/react-native/src/delivery/scope.ts:50-108 | a registry exists if and only if bundled keys are honest and the reserved prefix names a namespace with its secrets; default secrets are those of the bundle |
| Delivery.AcceptedIsGuarded | sdks/react-native/src/delivery/verify.ts:76-149 | an entry is accepted if and only if digest, engine, version, name, secrets and entitlement all hold |
| Delivery.ThrowsExactlyWhen | sdks/react-native/src/delivery/verify.ts:102-113 | verification throws if and only if the digest holds and the stored minimum engine is not text |
| Delivery.RefreshOverlay | sdks/react-native/src/delivery/refresh.ts:34-135 | the loop builds the overlay and the report of the pass, or touches nothing when the manifest is unreadable |
| Delivery.RefreshIsFate | sdks/react-native/src/delivery/refresh.ts:57-134 | each name ends as a freshly verified entry, its unchanged previous one, or nothing, by the manifest |
| Delivery.PassLines | sdks/react-native/src/delivery/refresh.ts:60-118 | one report line per manifest entry, in order, each the outcome of its own entry |
| Delivery.UpdatedMeansVerified | sdks/react-native/src/delivery/refresh.ts:73-117 | a line says updated if and only if an entitled, enabled, changed entry was downloaded and passed every guard |
| DeliveryLaws.LinesJudge | sdks/react-native/src/delivery/refresh.ts:60-118 | the line of each manifest entry, first reason first; it says updated only of a text whose digest is the announced one, and what then stands under the name has the announced version, digest and minimum engine |
| DeliveryLaws.RefreshLeaves | sdks/react-native/src/delivery/refresh.ts:60-134 | after a refresh a name has the text its manifest entry announced, what it had before, or nothing, exactly by that line |
| Registry.BlueprintRegistry.Entries | sdks/react-native/src/delivery/registry.ts:265-275 | read once, pruned to what may be served, written back only when something was dropped |
| Registry.BlueprintRegistry.Remote | sdks/react-native/src/delivery/registry.ts:186-211 | the usable remote version, or the entry purged from memory and store |
| Registry.BlueprintRegistry.Resolve | sdks/react-native/src/delivery/registry.ts:100-109 | remote if it passes, else bundled, else an error; the memo of parsed bundles never shows |
| Registry.BlueprintRegistry.List | sdks/react-native/src/delivery/registry.ts:118-135 | one line per bundled name in order, then one per served added name |
| Registry.BlueprintRegistry.Refresh | sdks/react-native/src/delivery/registry.ts:148-162 | publishes the new overlay to memory and store, or changes nothing |
| Registry.BlueprintRegistry.Revert | sdks/react-native/src/delivery/registry.ts:173-183 | forgets one entry or all, in memory and store |
| Registry.ListingTellsTheTruth | sdks/react-native/src/delivery/registry.ts:118-135 | from any cell, loaded or not: the listing fails if and only if some entry held when it began jams, bundled or added; otherwise it is one line per bundled name in order, each what resolving it would have served, then in sorted order one line per served name that is not bundled |
| Registry.OperationsSound | sdks/react-native/src/delivery/registry.ts:100-211 | after any resolutions, listings, refreshes and reverts one after the other, from any stored content, the store mirrors the memory while writes succeed |
| Registry.RebuiltResolvesTheSame | sdks/react-native/src/delivery/cache.ts:58-124 | a registry rebuilt over the same store answers every name alike |
| Registry.JammedExactly | sdks/react-native/src/delivery/registry.ts:186-211 | resolving throws if and only if the loaded entry is intact and its minimum engine is not text; then nothing is purged and resolving throws again |
| Registry.StoredDocumentJams | sdks/react-native/src/delivery/registry.ts:186-211 | for every entitled name and every text there is a stored document on which a new registry throws and stays as it is |
| Registry.UpdatedIsServed | sdks/react-native/src/delivery/refresh.ts:99-117 | what a refresh reports as updated is what the next resolution serves |
| DeliveryLaws.ServedAfterRefresh | sdks/react-native/src/delivery/registry.ts:148-211 | right after a refresh only names its manifest announces are served: the announced text under the announced digest, or the very entry there was before |
| DeliveryLaws.EveryServingHasAnOrigin | sdks/react-native/src/delivery/registry.ts:100-275 | in every interleaving, each entry served or remembered comes from a document found in the store, or from a refresh of the run whose manifest announced its version, minimum engine and digest, over a text that has that digest |
| DeliveryLaws.ResolvesExactly | sdks/react-native/src/delivery/registry.ts:100-109 | resolving answers the remembered entry if and only if it passes every guard, throws if and only if it jams, and falls back to the bundle otherwise |
| DeliveryLaws.RevertForgets | sdks/react-native/src/delivery/registry.ts:173-183 | after a revert the name, or every name, has no remote version, and all others answer as before |
| Registry.UnreadableChangesNothing | sdks/react-native/src/delivery/registry.ts:155-161 | an unreadable manifest, or delivery switched off, does no more than load: nothing changes when the overlay is in memory, and the store changes only if entries no longer entitled are pruned |
| RegistryRuns.EveryServingIsGuarded | sdks/react-native/src/delivery/registry.ts:185-275 | under every interleaving, any cache content, tampering and any network, all that is served passed every guard |
| RegistryRuns.SettledStays | sdks/react-native/src/delivery/registry.ts:157-160 | once no first read is pending, any one step keeps memory and store together while writes succeed |
| RegistryRuns.SettledForever | sdks/react-native/src/delivery/registry.ts:148-275 | from such a world on, no run of any length, in any order, parts memory and store |
| RegistryRuns.StepPartsExactly | sdks/react-native/src/delivery/registry.ts:148-275 | with a store that works, one step leaves memory and store apart if and only if it is the arrival of a read that pruning leaves whole and that the store has moved past, or they were apart and it publishes nothing |
| RegistryRuns.PartedExactly | sdks/react-native/src/delivery/registry.ts:148-275 | over every run of a new registry with a store that works, memory and store part if and only if such a read came last among the steps that set the memory |
| RegistryRuns.StaleReadParts | sdks/react-native/src/delivery/registry.ts:265-275 | reads answered in the order they were issued: the second, begun before a refresh and answered after it, puts the old overlay back in memory but not in the store |
| RegistryRuns.EmptiedManifestParts | sdks/react-native/src/delivery/registry.ts:265-275 | such a run exists for every non-empty stored overlay |
| Approvals.Rendezvous.Wait | sdks/engine/src/runtime/approvals.ts:92-120 | waits, or answers at once when the meeting is settled or the run is cancelled |
| Approvals.Rendezvous.Resolve | sdks/engine/src/runtime/approvals.ts:123-129 | accepts exactly an unsettled, unexpired meeting, settles it and wakes the waiter |
| Approvals.ConfirmGateway.Open | sdks/react-native/src/confirm/gateway.ts:47-58 | one more request at the end of the queue, expiring at once when nobody listens; listeners know the head |
| Approvals.ConfirmGateway.Close | sdks/react-native/src/confirm/gateway.ts:60-65 | the request leaves the queue, and its slot if the slot is still its own |
| Approvals.ConfirmGateway.Resolve | sdks/engine/src/runtime/approvals.ts:167-172 | only the right token reaches the rendezvous; all others are untouched |
| Approvals.ConfirmGateway.Decide | sdks/react-native/src/confirm/gateway.ts:76-80 | decides the request on screen, or nothing when it is gone; a refused decision changes no meeting, an accepted one no other |
| Approvals.ConfirmGateway.Subscribe | sdks/react-native/src/confirm/gateway.ts:83-89 | a late listener is told the current request |
| ApprovalRuns.EveryRunKeeps | sdks/react-native/src/confirm/gateway.ts:47-80 | in every interleaving the queue is the open requests in arrival order and every confirm is coherent |
| ApprovalRuns.ApprovedOnlyIf | sdks/engine/src/acts/confirm.ts:62-93 | approved only by one decision bearing that token before its deadline in a run not cancelled, or by the policy |
| ApprovalRuns.AcceptedIsTheOutcome | sdks/engine/src/acts/confirm.ts:62-117 | at most one decision is accepted and it is the outcome; no decision gives the policy; a cancelled run always throws |
| ApprovalRuns.SilenceFollowsThePolicy | sdks/engine/src/acts/confirm.ts:101-117 | nobody decided: `approve` approves, `fail:` raises with its code or none, anything else refuses |
| ApprovalRuns.OldestIsOnScreen | sdks/react-native/src/confirm/gateway.ts:67-89 | in every interleaving the question on screen is the open one that has waited longest |
| ApprovalRuns.UnattendedTakesNoDecision | sdks/react-native/src/confirm/gateway.ts:47-58 | a question nobody was there to see takes no decision, unless the clock runs backwards |
| Jobs.Job.Ingest | src/aetherius/server/jobs.py:123-131 | in any state, the event ends the history and the stream of every live subscriber; a job not yet over keeps every stream equal to its history |
| Jobs.Job.Close | src/aetherius/server/jobs.py:192-198 | a final status, then exactly one end for every live subscriber |
| Jobs.Job.Subscribe | src/aetherius/server/jobs.py:209-225 | a queue with the whole history, ended at once if the run is over, live otherwise |
| Jobs.RunManager.Ingest | src/aetherius/server/jobs.py:123-131 | events of unknown runs are dropped, events of a run, over or not, reach its own followers and nobody else's |
| JobRuns.FollowersGetEverything | src/aetherius/server/jobs.py:192-230 | for every schedule, at the end: whoever stayed has every event in order and one end; whoever left has a prefix; the status is final |
| JobRuns.FollowersKeepUp | src/aetherius/server/jobs.py:209-230 | before the end: whoever stayed has exactly the events delivered so far and no end |
| JobRuns.NothingComesLate | src/aetherius/server/jobs.py:123-131 | no schedule delivers an event to a finished job, or lets its worker emit one |
| JobRuns.StatusTellsTheOutcome | src/aetherius/server/jobs.py:173-191 | a finished job succeeded if and only if the engine returned a result that is not a failure; otherwise it failed |
| JobRuns.EveryScheduleKeeps | src/aetherius/server/jobs.py:123-231 | callbacks run in posting order, so no event is delivered after the end |
| JsonPath.SliceItems | sdks/engine/src/extraction/jsonpath.ts:242-265 | for all bounds and steps the loop ends and yields the items of CPython's slice |
| JsonPath.PositionsValid | sdks/engine/src/extraction/jsonpath.ts:242-265 | no position a slice visits is outside the list |
| JsonPath.MinusOneReverses | sdks/engine/src/extraction/jsonpath.ts:236-265 | step minus one without bounds reverses |
| JsonPath.CutsJoin | sdks/engine/src/extraction/jsonpath.ts:242-265 | the two slices at any cut, negative or beyond the end included, make up the list |
| JsonPath.DescendInto | sdks/engine/src/extraction/jsonpath.ts:268-279 | the recursion pushes the descended values after what the accumulator held |
| JsonPath.DescentIsPreorder | sdks/engine/src/extraction/jsonpath.ts:268-279 | recursive descent is the preorder walk of all nodes, each asked for its own field |
| JsonPath.JsonPathFind | sdks/engine/src/extraction/jsonpath.ts:165-173 | the nested loops return the matches of the path, or the first error |
| JsonPath.PushMatches | sdks/engine/src/extraction/jsonpath.ts:175-233 | one segment on one value pushes its matches or raises |
| JsonPath.IndexReads | sdks/engine/src/extraction/jsonpath.ts:217-233 | a subscript counts from the start, from the end when negative; past the end is nothing, before the start an error |
| JsonPath.IndexIsShortSlice | sdks/engine/src/extraction/jsonpath.ts:217-265 | a subscript that is not before the start finds what the slice of that one position finds |
| JsonPath.FieldsRead | sdks/engine/src/extraction/jsonpath.ts:175-187 | a field is what stands under its name, the wildcard every field in order; neither means anything but on objects |
| JsonPath.FindComposes | sdks/engine/src/extraction/jsonpath.ts:165-173 | finding a longer path is finding its second part in the matches of the first |
| JsonPath.FindDistributes | sdks/engine/src/extraction/jsonpath.ts:165-173 | matches of earlier values come before those of later ones |
| JsonPathText.ParseJsonPath | sdks/engine/src/extraction/jsonpath.ts:39-104 | the scanner over a cursor reads the segments of the text, or names the construct it refuses |
| JsonPathText.ParseInvertsSpelling | sdks/engine/src/extraction/jsonpath.ts:39-158 | every list of segments the scanner can produce is read back from its spelling |
| JsonPathText.CanonicalMeansTheSame | sdks/engine/src/extraction/jsonpath.ts:39-158 | every accepted path has a canonical spelling that parses to the same segments |
| Redaction.RedactText | sdks/react-native/src/secrets/redact.ts:32-36 | the loop replaces the values, longest first |
| Redaction.RedactionHoldsIff | sdks/react-native/src/secrets/redact.ts:32-36 | non-empty values that cannot straddle the marker (they hold none, do not end as it begins, nor begin as it ends) are kept out of every text, whatever they overlap of one another, if and only if none of them is part of the marker |
| Redaction.NoSecretLeft | sdks/react-native/src/secrets/redact.ts:32-36 | no such value is left in any redacted text |
| Redaction.SecretIsMaskedWhole | sdks/react-native/src/secrets/redact.ts:83-85 | a secret alone becomes one marker even when another secret is its beginning |
| Redaction.UnbracketedIsFree | sdks/react-native/src/secrets/redact.ts:32-36 | in particular a value without brackets cannot straddle the marker |
| Redaction.StraddlingValueLeft | sdks/react-native/src/secrets/redact.ts:32-36 | a value that can straddle the marker may be left: masking `x` in `ax` puts `a[` together |
| Redaction.MarkerPartsSurvive | sdks/react-native/src/secrets/redact.ts:32-36 | a value that is part of the marker is left in the redaction of its own text, whatever the other values |
| Redaction.ValueIsSilent | sdks/react-native/src/secrets/redact.ts:39-48 | no text anywhere inside a redacted value contains a secret |
| Redaction.ValueIsMasked | sdks/react-native/src/secrets/redact.ts:39-48 | a redacted value is the same value with each text redacted: keys, order, numbers, booleans and null stay |
| Redaction.UnmentionedIsKept | sdks/react-native/src/secrets/redact.ts:32-36 | a text without any of the values is left as it is |
| Names.Unique | src/aetherius/recorder/_names.py:14-20 | ends on every finite set, with the first name of the series that is free |
| Names.IdentIsTidy | src/aetherius/recorder/_names.py:8-11 | a name is not empty, holds only letters, digits and underscores, and no underscore at either end |
| Names.IdentKeepsLetters | src/aetherius/recorder/_names.py:8-11 | a name has the letters and digits of its text, lowered, in order; without any it is the fallback |
| Names.TidyStays | src/aetherius/recorder/_names.py:8-11 | a text that is a tidy name already is its own name |
| Recorder.Recording.Handle | src/aetherius/recorder/_transform.py:86-100 | each event changes steps, secrets, inputs and outputs as its kind says |
| Recorder.EventsToSteps | src/aetherius/recorder/_transform.py:227-234 | the loop over the events returns the notes of the whole recording |
| Recorder.EveryRecordingIsCoherent | src/aetherius/recorder/_transform.py:70-224 | for every sequence of events the recording stays coherent |
| Recorder.PlaceholdersAreDeclared | src/aetherius/recorder/_transform.py:132-174 | each placeholder names a declared secret or input, and no name is declared twice |
| Recorder.OutputsMatchFields | src/aetherius/recorder/_transform.py:177-187 | a step holds a field if and only if the output of that name is read from that step |
| Recorder.ExtractIdsNeverRepeat | src/aetherius/recorder/_transform.py:178-182 | two extract steps never share an id |
| Recorder.NoConcealedLiteral | src/aetherius/recorder/_transform.py:132-151 | a literal is written for an element only if some fill of that very element, neither redacted nor a credential, showed that text |
| Recorder.HiddenIsNeverWritten | src/aetherius/recorder/_transform.py:46-56 | a text in the Blueprint was typed in the open: never redacted, and, with credentials kept apart, never into a password field or one whose name or autofill speaks of a login |
| Recorder.FillIsWritten | src/aetherius/recorder/_transform.py:132-160 | a fill is the last step written: in the open with its text, hidden with the name of a declared secret |
| Recorder.InputIsDeclared | src/aetherius/recorder/_transform.py:162-174 | a parameterised field reads a new input, declared with the kind of its field, and no other step changes |
| Recorder.RecordFieldsDistinct | src/aetherius/recorder/_transform.py:210-224 | the fields of a record table keep apart, one per configured field |
| Placeholders.PlaceholderReads | src/aetherius/recorder/_transform.py:138-187 | a dotted path ending in a recorder's name parses, to the path it spells, if and only if the name does not begin with a digit |
| Placeholders.RecordedNamesAreWords | src/aetherius/recorder/_names.py:8-20 | every secret, input and output a recording names is a non-empty word |
| Placeholders.RecordedSecretReads | src/aetherius/recorder/_transform.py:138-160 | a recorded secret can be read by the Blueprint if and only if its name does not begin with a digit |
| Placeholders.RecordedOutputReads | src/aetherius/recorder/_transform.py:177-187 | the same of an output, through the extract step it comes from |
| Gestures.CutTrace | src/aetherius/recorder/gesture_recorder.py:79-98 | the runs partition the samples in order, none is empty, none spans a pause, and each ends on a click, a pause or the end; with samples and clicks in time order no click falls inside a run |

## Left out

- Texts of error messages and positions in them; the cases they distinguish are kept.
- Numbers are reals in expressions: IEEE rounding, NaN, infinities, negative zero and exponent notation are not modelled, and the platform formats what is not an integer.
- Host filters of the expression language (dates, `int`, `float`, `lower`, `upper`) and text order are parameters.
- `is` on lists and objects compares identities; only keyword literals can stand on its right in the grammar.
- A keyword literal is looked up with `in` on an object, which also finds what every object inherits (`constructor`, `toString`, …); such names are plain variables and tests here.
- Strings in expressions are sequences of characters: lone surrogates inside them are not modelled.
- The label table, the single-byte codecs and the byte-order mark of the response decoder.
- Template strings around expressions: rendering is a parameter of a run, except in `OptionalBlocks`, which evaluates the expression itself.
- Inputs and secrets of a run are taken as already resolved; run ids, time stamps and durations are left out.
- A run takes parameter checks (extraction dialects, portability) as an arbitrary predicate on steps.
- Steps of an optional block that a guard skipped, or that sat in an untaken branch, before the failure are not seeded by the code, so nothing is claimed of them.
- `Error.Other` stands for all errors a leaf action can raise; the leaf actions themselves are not modelled.
- Reading a manifest out of JSON, resolving URLs and the limits of a download: a manifest is a value or unreadable.
- The exact overlay of a refresh is stated with no other operation in flight, since it works from a snapshot taken before the network; the guards hold under every interleaving.
- The order in which a refresh reports names gone from the manifest, and the order of added names in a listing, which the platform sorts.
- Redaction.RedactionHoldsIff: says nothing of values that can straddle the marker; whether such a value is ever left depends on the other values too, and is not characterised.
- Redaction sorts values by their length in UTF-16 units; lengths here are in characters, which differ outside the basic plane.
- Tables keep the order in which keys were first assigned; the platform lists integer-like keys first.
- A token opened for a confirmation is taken to be fresh, as its random generator makes it.
- Writes to the store take effect in the order they are issued, and a read sees what the store holds when it is issued.
- Object keys are not redacted by the code, so nothing is claimed of them.
- The audit trail and the store behind the daemon, its routes and its scheduler; a daemon that shuts down mid-run.
- Lowercasing outside ASCII and the choice of a selector for an element are parameters of the recorder; a typed text that looks like a placeholder is kept apart from one.
- Gestures: the sorting of samples and clicks, rebasing and rounding, and the length filters.
- Liveness and wall-clock timing: loops and recursion are proved to end, waiting is not.
- Self-healing, stealth, the network identity layer, cognition, notification channels, the builder, the demo application and the command line.
