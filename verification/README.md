# Sakura SLEMU: a verified model

SLEMU loads a serialised LSL program (SLBC), walks its syntax tree with an interpreter
that signals `return`, `jump` and `state` through sticky flags, and runs many scripts in a
deterministic event loop on virtual time. This project models that core in Dafny and
proves what it keeps, computes and undoes.

* **MachineWords, Values, Ast** – bytes and word ranges, the value domain with the pure operators, and the syntax tree.
* **OperatorLaws, BitLaws, TextOrder, CellLaws, StatementLaws** – what operators, comparisons, casts,
  assignments, steps and statements do, told by laws of their results: congruences, quotients with remainders, bits, units
  and linearity of the products, first differences of strings, what a cell reads as afterwards.
* **Semantics** – a reference semantics for every program: returns and jumps are outcomes
  instead of flags, and the state asked for is kept in the store. `fuel` bounds call depth plus
  backward jumps, and running out of it is a result of its own (`Halt`), so no program is left out.
* **Outcomes** – the same without any stored request: a `state` statement is an outcome that ends
  everything around it.
* **Lifecycle** – handlers one after the other with the state changes between them: when both
  semantics agree over whole runs of a script, and what happens when they do not.
* **Walker** – the interpreter itself: frames and flags as mutable objects, every method
  proved to agree with the reference semantics.
* **Scoping, Requests, Termination, Typing, Soundness, TypedRuns** – laws of the language.
* **LoopProgram, DoProgram, JumpProgram, GcdProgram, WalkedPrograms, TypedPrograms** – programs with
  every kind of loop, a branch and a backward jump, followed to their ends for all arguments, by the
  reference semantics and by the interpreter; one of them type-checked.
* **ProgramRuns, LateRuns** – the event loop over scripts that are programs: what the interpreter
  makes of the events the loop dispatches.
* **Slbc, SlbcRoundTrip, SlbcLayout, Loader** – a strict parser, an encoder, the bytes it writes, and
  the cursor-based reader with its sticky error flag.
* **Scheduler, SchedulerLaws, SchedulerRuns, SchedulerRequests, SchedulerEffects, TimerLaws, RegionLoop** –
  the event loop as a step machine, invariants over all runs, what each action and command changes,
  timers from llSetTimerEvent to the events they queue, and the loop over linked queues refining it.
* **Json, JsonGrammar, JsonLaws, JsonEndings, JsonEscapes, JsonText, JsonLists** – scanners and setters
  on JSON text, against trees of a JSON grammar that keep their white space.
* **Digest, Codecs, ListSort, Strings, Economy** – streaming digests, base64 and URL
  codecs, the strided sort, splitting and joining, and Linden-dollar transfers.
* **Positional, DigestLaws, CodecLaws, Splitting** – the same against descriptions of their own: bytes
  and digits by the numbers they stand for, padded messages and pads of HMAC by what stands where,
  escapes by tables of characters, and a string by the one way it can be cut.

## Reading the model

Integers of LSL wrap at 64 bits where the operators wrap; floats are reals; strings are
sequences of bytes without NUL. libc formatting and parsing, the built-in table and the
bit pattern of doubles are functions of a `Host` record; what handlers do, the wall-clock
timeout and the command file are fields of an `Env` record. Both are arbitrary, so the
results hold for all of them.

Where the code and its documentation disagree the model follows the code: `llSleep` adds
to a virtual clock and does not sleep; the loader takes versions 1 and 2; files of
version 2 carry line numbers that the format summary does not list.

Results about code that does not do what one would expect:

* Dividing an integer by the integer zero gives a float. That is the only way an operator misses
  its type (`Typing.OperatorTypes`), and one such assignment leaves a float in an integer variable
  (`Soundness.ZeroDivisionChangesType`).
* A `state` statement inside a user function does not end the event
  (`Requests.StateInFunctionGoesOn`). One inside state_exit leaves its request to the next event:
  the handler for it runs only the first statement of its body (`Lifecycle.LateBlock`), and then
  the state changes; without a handler it changes at once (`Lifecycle.LateTurn`). That happens in
  runs of the loop (`Lifecycle.LateRequest`, `LateRuns.LateRun`). Where user functions and
  state_exit handlers hold no `state` statement, every handler of every run starts with nothing
  asked for, and the flags compute what outcomes alone decide (`Lifecycle.TurnsAgree`,
  `ProgramRuns.RunsGoByOutcome`).
* MD5 counts bytes in 32 bits, so its length field is the standard's exactly for messages
  of less than 2^32 bytes modulo 2^61 (`Digest.NarrowCount`).
* Integers survive base64 exactly when they are 0, or lie between 0 and 2^32 and have no zero
  byte (`Codecs.IntegerRoundTrip`).
* `llJsonSetValue` does not escape its value, which reads back at a one-level path exactly when it
  can stand in a string literal as it is (`JsonEscapes.ReadsBackIff`). At a two-level path the first
  key must in addition be absent or hold an object (`JsonEscapes.ReadsBackIff2`); through anything
  else nothing is set (`JsonLaws.SetBlocked`).
* A JSON search never ends exactly when its path has a negative index and the steps before that lead
  to an array whose items stop taking text (`JsonEndings.EndlessIff`), as on the text `[}`
  (`JsonText.StuckArray`). On text that ends in the quote that opens a key, a search copies memory
  without bound exactly when it comes to that key (`JsonEndings.OverrunIff`); `llJson2List` does the
  same (`JsonLists.ListOverrunHappens`).
* `llList2Json` does not escape either: a list comes back from JSON exactly when all that is put
  between quotes can stand there (`JsonLists.ListRoundTrip`).
* The sort keeps whole groups exactly when no head is to go behind that of a short group at the end
  (`ListSort.GroupsKeptIff`, `ListSort.ShortGroupMixes`). In a list of mixed kinds numbers and texts
  are sorted past each other, and all else stays where it is (`ListSort.KindsStay`).
* A loop stops without a word after a million iterations, so a script that adds up the first n integers
  gives the sum of the first million for every greater n (`LoopProgram.SumIs`).
* A payment changes the owner of the object exactly when it adds somebody else to an empty avatar
  table (`Economy.OwnerStaysIff`).
* With neither a step limit nor a wall-clock limit, a script that answers every message by sending
  itself another keeps the loop going for ever (`SchedulerRuns.EchoNeverEnds`).

## Model

| member | source | states |
|---|---|---|
| OperatorLaws.IntegerArithmetic | src/vm.c:178-241 | `+`, `-` and `*` of integers give the one 64-bit word that is congruent, modulo 2^64, to the sum, to what with the right side makes up the left, and to the product |
| OperatorLaws.IntegerDivision | src/vm.c:242-267 | `/` and `%` of integers give the quotient and the remainder that make up the dividend, the remainder less than the divisor and with the sign of the dividend |
| OperatorLaws.DivisionByZero | src/vm.c:249-267 | Dividing an integer by the integer 0 gives the float 0, with remainder 0 |
| OperatorLaws.FloatArithmetic | src/vm.c:163-267 | With a float on either side the operators give the float that arithmetic of the numbers denoted gives |
| OperatorLaws.TextSum | src/vm.c:178-187 | `+` of strings and keys gives a string with the characters of both, one behind the other |
| OperatorLaws.ListSum | src/vm.c:194-203 | `+` with a list joins the items, a value beside a list counting as one item |
| OperatorLaws.VectorSum | src/vm.c:188-208 | Vectors add and subtract member by member, and the difference and what was taken off make up the whole |
| OperatorLaws.RotationSum | src/vm.c:191-210 | The same for rotations |
| OperatorLaws.Scaling | src/vm.c:216-229 | A vector is scaled by a number from either side, and by the real part of a rotation |
| OperatorLaws.ScalingBack | src/vm.c:243-248 | Dividing a vector by a number and multiplying again gives it back; by zero it gives the zero vector |
| OperatorLaws.DotLaws | src/vm.c:214-215 | The product of vectors is symmetric, linear, and 1 or 0 on the unit vectors |
| OperatorLaws.CrossLaws | src/vm.c:256-263 | `%` of vectors is antisymmetric, linear and right-handed on the unit vectors |
| OperatorLaws.HamiltonUnits | src/vm.c:230-240 | The products of the units are Hamilton's |
| OperatorLaws.HamiltonProduct | src/vm.c:230-240 | The product of rotations, by real and vector parts, is made of the products and scalings of vectors |
| OperatorLaws.NoArithmetic | src/vm.c:163-267 | No other operands add, subtract, multiply or divide, and no other remainder is anything but 0 |
| OperatorLaws.NumberOrder | src/vm.c:275-302 | On numbers, integers and floats alike, `<`, `==` and `>` go by what they denote, and `<=` and `>=` are the denials of `>` and `<` |
| OperatorLaws.TextOrdering | src/vm.c:275-302 | Strings and keys go by the first place where they differ; `<=` and `>=` never hold of them |
| OperatorLaws.ListOrder | src/vm.c:275-302 | Lists go by their lengths, for equality too |
| OperatorLaws.MemberEquality | src/value.c:140-145 | Vectors and rotations are equal when all members are, and never ordered |
| OperatorLaws.DifferentKinds | src/value.c:130-149 | Values of different kinds are neither equal nor ordered |
| OperatorLaws.Truth | src/value.c:89-103 | Of every type exactly the initial value counts as false, and the logical operators go by that |
| OperatorLaws.Negation | src/vm.c:435-440 | A value and its negation sum up to nothing |
| OperatorLaws.NumberCasts | src/vm.c:306-322 | A float loses its fraction as an integer, and an integer comes back from a float unchanged |
| OperatorLaws.OtherCasts | src/vm.c:306-346 | Strings and keys keep their text, a value becomes the list that holds it, and what cannot be converted becomes the initial value of the type |
| OperatorLaws.Coercions | src/vm.c:108-124 | Storing converts integers to floats and strings to keys and back, and nothing else |
| OperatorLaws.Members | src/vm.c:397-410 | Members go by the codes of their letters; vectors have no fourth |
| OperatorLaws.ArithmeticTokens | src/vm.c:20-33 | The numbers of the byte code that name the arithmetic operators |
| OperatorLaws.TestTokens | src/vm.c:20-33 | Those of the logical operators, `==` and `!=` |
| OperatorLaws.OrderTokens | src/vm.c:20-33 | Those of the comparisons |
| OperatorLaws.BitTokens | src/vm.c:20-33 | Those of the bit operators |
| OperatorLaws.ShiftTokens | src/vm.c:20-33 | Those of the shifts |
| OperatorLaws.UnaryTokens | src/vm.c:20-33 | Those of the unary operators and steps |
| TextOrder.LessIsBefore | src/vm.c:277-290 | Of two texts strcmp finds the lesser by the first place where they differ: there it ends, or has the lesser character |
| TextOrder.OneComesFirst | src/vm.c:277-290 | Of two texts one comes before the other or they are equal, and only one of the three |
| BitLaws.BitByBit | src/vm.c:268-270 | Bitwise and, or and exclusive or give the word whose 64 bits are those of both sides so joined |
| BitLaws.WordBitsFix | src/vm.c:268-272 | 64 bits fix a word |
| BitLaws.Complement | src/vm.c:443 | `~` turns every bit over |
| BitLaws.ShiftUp | src/vm.c:271 | `<<` moves the bits up by the right side modulo 32 and fills with zeros |
| BitLaws.ShiftDown | src/vm.c:272 | `>>` moves the bits down, the sign moving in from above |
| BitLaws.OtherOperands | src/vm.c:163-177 | Bit operators read floats without their fraction, and both sides as 0 when one is no number |
| CellLaws.AssignCell | src/vm.c:477-509 | After an assignment the cell reads as the value assigned, converted to the type the cell had, and other cells as before; the operator of a compound assignment has its token plus five |
| CellLaws.AssignMember | src/vm.c:488-521 | A member reads as the number assigned, other members as before; compound assignment reads a vector's member and not a rotation's |
| CellLaws.MemberWritten | src/vm.c:510-521 | A member written reads as written, the others as before, and an unknown member changes nothing |
| CellLaws.AssignUnknownMember | src/vm.c:488-515 | An unknown member of a vector reads as z in a compound assignment and is not written |
| CellLaws.MemberCells | src/vm.c:151-158 | A member of a variable is that member of its cell |
| CellLaws.StepCell | src/vm.c:428-454 | Prefix and postfix steps change a number by one alike and leave other values alone; the former give the new value, the latter the old one |
| CellLaws.StepMember | src/vm.c:420-427 | A prefix step of a vector's member moves that member alone; whatever is not x or y counts as z |
| StatementLaws.Branches | src/vm.c:639-645 | `if` runs its first branch exactly when the condition does not have the initial value of its type |
| StatementLaws.LoopTurns | src/vm.c:646-656 | A `while` is over when its condition fails; else its body runs, and every outcome of it but the normal one leaves the loop |
| StatementLaws.DoTurns | src/vm.c:657-667 | A `do` runs its body first and is left in the same ways |
| StatementLaws.ForTurns | src/vm.c:668-689 | The post expressions of a `for` run behind a body that completes, and only then |
| StatementLaws.SequenceGoesOn | src/vm.c:618-625 | Behind a statement that completes the next one runs; a return and a switch leave the block at once |
| StatementLaws.JumpsGo | src/vm.c:626-635 | A jump goes on behind the first label of its name in the block, or leaves the block |
| StatementLaws.StateAsked | src/vm.c:706-714 | `state` asks for the first state of the name, and without one for nothing |
| StatementLaws.Declares | src/vm.c:598-617 | A variable starts with the value given, converted to its type, or with the initial value of the type |
| StatementLaws.Returns | src/vm.c:690-698 | `return` returns the value of its expression, or nothing |
| CellLaws.ShortCircuit | src/vm.c:455-472 | Logical and with a false left side, and logical or with a true one, do not evaluate the right side; otherwise its truth is the result |
| CellLaws.InnermostFirst | src/vm.c:359-374 | The innermost binding of a name hides all others |
| CellLaws.GlobalsNext | src/vm.c:359-374 | Then come globals, the first of the name, and then the constants of the emulator |
| Semantics.Eval | src/vm.c:348-527 | Reference meaning of expressions: evaluating any expression, nested user calls included, leaves every binding in place under its name |
| Semantics.Exec | src/vm.c:589-716 | Reference meaning of statements: bindings that existed stay in place; a state request is pending behind the outcome Switching, and none behind Normal or Jumping |
| Outcomes.Exec | src/vm.c:589-716 | Meaning of statements when outcomes alone decide: bindings that existed stay in place; no request is stored anywhere, and only a `state` statement yields a switch |
| Outcomes.EvalAgrees | src/vm.c:348-574 | With `state` in handlers only, every expression has the same value, memory and failure in both semantics, and asks for nothing |
| Outcomes.ExecAgrees | src/vm.c:578-716 | With `state` in handlers only, both semantics agree on every statement that starts with nothing asked for: same memory, returns, jumps and failures, and a state is asked for exactly when the outcome is the switch to it, which like a return leaves all blocks and loops at once |
| Outcomes.DispatchAgrees | src/vm.c:719-730 | The same for event handlers that start with nothing asked for |
| Lifecycle.TurnAgrees | src/region.c:276-313 | With `state` in handlers only, an event that starts with nothing asked for and the state change behind it go as outcomes decide; a request is left for the next handler exactly when state_exit ends in a switch of its own |
| Lifecycle.TurnsAgree | src/region.c:276-313 | When user functions and state_exit hold no `state`, every handler of a run starts with nothing asked for, and whole runs give the same states, memories and failures in both semantics |
| Lifecycle.LateBlock | src/vm.c:624-625 | In every program, a block that starts with a request pending runs its first statement and no other |
| Lifecycle.LateTurn | src/region.c:276-313 | In every program, an event that is dispatched with a request pending ends in a state change: to the state asked for when the state has no handler for the event, else to the one asked for when the handler ends |
| Lifecycle.LateRequest | src/region.c:286-313 | A script whose state_exit asks for a state, touched: the state_entry behind the switch runs one of its two statements and the script changes back, where outcomes alone would run both and stay |
| LateRuns.LateRun | src/region.c:240-323 | The loop makes that run: started and touched, the script is dispatched state_entry, touch and state_entry, and ends up in its first state with one call made |
| ProgramRuns.RunsAreTurns | src/region.c:226-323 | However long the loop runs scripts that do what their programs do, each script is in the state, with the store and the request that its program comes to by taking the events dispatched to the script one after the other |
| ProgramRuns.RunsGoByOutcome | src/region.c:226-323 | Where a script's user functions and state_exit hold no `state`, in every state of such a run its state and memory are those that outcomes alone decide for the events dispatched to it, and no request is pending |
| ProgramRuns.QuietProgramsAreSilent | src/region.c:286-313 | When the state_exit handlers that the loop runs are those of such programs, no state_exit asks for a state |
| Semantics.Write | src/vm.c:139-161 | Writing a cell makes it read as the value written, and every other cell as before |
| Semantics.FindLocal | src/vm.c:91-96 | The innermost binding of a name is found, or none has the name |
| Semantics.FindLabel | src/vm.c:578-587 | The first label of a name directly in a block is found, or the block has none |
| Walker.Frame.Define | src/vm.c:80-89 | Appends one binding at the current scope depth |
| Walker.Frame.Find | src/vm.c:91-96 | Finds the latest binding of a name |
| Walker.Frame.Leave | src/vm.c:98-104 | Leaving a scope drops exactly the bindings made inside it |
| Walker.Machine.ResolveLvalue | src/vm.c:139-161 | Finds the cell the reference semantics names: innermost local, else global, else a member of one |
| Walker.Machine.EvalExpr | src/vm.c:348-527 | Agrees with the reference semantics on value, store and failure; the frame on top, its depth, flags, names and depths of bindings are untouched |
| Walker.Machine.EvalCall | src/vm.c:529-559 | A user function of the name if there is one, else the built-in with all arguments; agrees with the reference semantics |
| Walker.Machine.BindParams | src/vm.c:561-567 | Arguments are evaluated in the caller, coerced, and defined in the callee's frame only; surplus ones are skipped |
| Walker.Machine.RunUserFunc | src/vm.c:561-574 | The body runs in a frame of its own and the caller's frame is back on top unchanged, whatever flags the body raised |
| Walker.Machine.EvalPrefix | src/vm.c:415-432 | Prefix ++ and -- as in the reference semantics, including the null cell for members of anything but a vector |
| Walker.Machine.EvalPostfix | src/vm.c:447-454 | Gives the old value and steps the cell; does nothing and gives 0 on members |
| Walker.Machine.EvalAssign | src/vm.c:477-523 | The cell is resolved before the right-hand side runs and written after it; agrees with the reference semantics |
| Walker.Machine.ExecStmt | src/vm.c:589-716 | With `returning` or `jumping` up nothing happens; otherwise the flags afterwards signal the outcome of the reference semantics, with the same store; and with `state` in handlers only and none asked for before, all three flags are those of the outcome in the semantics without stored requests |
| Walker.Machine.ExecBlock | src/vm.c:618-638 | Agrees with the reference semantics, jumps caught at the nearest block with the label; names, depths, count and scope depth are restored by every exit |
| Walker.Machine.ExecFor | src/vm.c:668-689 | Agrees with the reference semantics up to the cap of 1,000,000 iterations, and restores the frame by every exit |
| Walker.Machine.ExecWhile | src/vm.c:646-656 | Agrees with the reference semantics: condition first, at most 1,000,000 iterations |
| Walker.Machine.ExecDoWhile | src/vm.c:657-667 | Agrees with the reference semantics: body first, at most 1,000,000 iterations |
| Walker.Machine.VmDispatch | src/vm.c:719-730 | A handler runs in a fresh frame which is gone afterwards; agrees with the reference semantics, and when nothing is asked for at the start and `state` sits in handlers only, with the outcome semantics, so that a state is asked for afterwards exactly when the handler switches to it |
| LoopProgram.SumIs | src/vm.c:668-689 | A function that adds up in a `for` loop gives the sum of the first n integers for every n: of none when n is negative, of a million when n is greater; the store is as before |
| DoProgram.DownIs | src/vm.c:657-667 | A function that adds up downward in a `do` loop gives n + (n - 1) + ... for every 32-bit n: at least n itself, never more than a million numbers |
| JumpProgram.MinusIs | src/vm.c:618-645 | A function that loops by jumping back out of a branch gives minus the sum for every 32-bit n when there is fuel for its jumps, and is cut off otherwise |
| GcdProgram.GcdIs | src/vm.c:646-656 | Euclid's algorithm in a `while` loop gives the greatest common divisor of all words that are not negative |
| WalkedPrograms.WalkGcd | src/vm.c:348-716 | The interpreter, run on that program, finds greatest common divisors |
| WalkedPrograms.WalkSum | src/vm.c:348-716 | Run on the first, it gives the sums, cut at a million |
| WalkedPrograms.WalkDown | src/vm.c:348-716 | Run on the second, it gives them up to a million |
| WalkedPrograms.WalkMinus | src/vm.c:348-716 | Run on the third, it gives their negatives |
| Scoping.FindLocalByNames | src/vm.c:91-96 | Lookup depends on the names of bindings only, not on their values |
| Scoping.ResolveStable | src/vm.c:477-523 | A cell resolved in one store is the cell of the same variable in every store with the same layout |
| Scoping.AssignThenRead | src/vm.c:477-523 | After `n = r`, whatever r ran, n reads as the value assigned |
| Scoping.AssignChangesOneCell | src/vm.c:477-523 | Beyond what the right-hand side did, an assignment changes one cell |
| Scoping.CalleesCannotWriteLocals | src/vm.c:561-574 | An expression without assignments of its own leaves every local of its frame unchanged, whatever its callees do |
| Scoping.JumpsLeaveByName | src/vm.c:626-635 | A jump leaves a statement only toward a label that the statement names and does not itself hold |
| Requests.ExpressionsDoNotAsk | src/vm.c:706-714 | When `state` statements sit in handlers only, no expression asks for a state change |
| Requests.SwitchingComesFromState | src/vm.c:706-714 | Then a statement without a `state` statement of its own never ends up switching |
| Requests.StateInFunctionGoesOn | src/vm.c:624-625 | A program where code runs on after a `state` statement in a user function |
| Termination.EvalTerminates | src/vm.c:348-574 | With an acyclic call graph and no backward jump, evaluation never needs more fuel than the rank of the functions it calls |
| Termination.ExecTerminates | src/vm.c:646-689 | The same for statements, by call rank, syntax and iterations left |
| Termination.EvalFuel | src/vm.c:348-574 | A run that ends with some fuel ends in the same way with more |
| Termination.HandlersTerminate | src/vm.c:719-730 | Every handler of such a program terminates, with one result for all amounts of fuel from the ranks up |
| Typing.OperatorTypes | src/vm.c:163-304 | An operator gives the expected type if and only if it does not divide an integer by the integer zero |
| Typing.NothingWithoutType | src/vm.c:163-304 | Operands have no type under an operator if and only if the operator gives nothing for them |
| Typing.CastTypes | src/vm.c:306-346 | A cast gives the type it names, whatever it is given |
| Typing.EvalTyped | src/vm.c:348-527 | Well-typed expressions give values of their type and keep the type of every cell |
| Typing.ExecTyped | src/vm.c:589-716 | Well-typed statements keep the type of every cell by every exit |
| Typing.CallTyped | src/vm.c:529-574 | A user function returns its declared type on every path |
| Typing.MustReturnReturns | src/vm.c:690-698 | A body that ends in `return` on every path cannot complete normally |
| TypedPrograms.GcdIsTyped | src/vm.c:589-716 | The discipline accepts a program with a loop, locals and assignments: Euclid's algorithm, whatever the built-ins |
| Soundness.EvalLax | src/vm.c:250-252 | A run that meets no zero divisor is the same run whether division by zero is reported or gives a float |
| Soundness.HandlersKeepTypes | src/vm.c:719-730 | A well-typed handler keeps the declared type of every global and never writes through a null cell, unless the run divides an integer by zero |
| TypedRuns.RunsKeepTypes | src/region.c:276-313 | Over a whole run of a well-typed script with no `state` in user functions and state_exit, every global keeps its declared type and nothing is written through a null cell, unless the run divides an integer by zero |
| Soundness.ZeroDivisionChangesType | src/vm.c:250-252 | `x = 1 / 0` leaves a float in the integer variable x |
| SlbcRoundTrip.RoundTrip | src/loader.c:267-371 | Parsing the encoding of any program, whatever follows it, gives the program back: all of it in version 2, with line numbers zeroed in version 1 |
| SlbcRoundTrip.EncodingIsInjective | src/loader.c:267-371 | No two programs share an encoding of version 2 |
| SlbcLayout.LeafLayout | src/loader.c:59-73 | The bytes of literals and names: tag, type, lvalue byte, value |
| SlbcLayout.TupleLayout | src/loader.c:74-101 | The bytes of vectors, rotations, lists and calls |
| SlbcLayout.OperatorLayout | src/loader.c:102-127 | The bytes of members, casts and operators |
| SlbcLayout.PlainLayout | src/loader.c:134-203 | The bytes of statements without others inside |
| SlbcLayout.NestedLayout | src/loader.c:153-174 | The bytes of blocks, branches and loops |
| SlbcLayout.ForLayout | src/loader.c:175-188 | The bytes of `for` |
| SlbcLayout.HeaderLayout | DOCUMENTATION.md:92-104 | A file starts with "SLBC", a zero byte, and the version |
| CodecLaws.ScalarBytes | src/loader.c:30-37 | Words are stored low byte first, negative ones in two's complement |
| CodecLaws.LongScalarBytes | src/loader.c:38-43 | The same for long words |
| SlbcRoundTrip.ReadExpr | src/loader.c:59-132 | Each of the fourteen expression kinds is read back from its encoding, ending at its last byte |
| SlbcRoundTrip.ReadStmt | src/loader.c:134-202 | The same for each statement kind, with and without line numbers |
| Loader.Rdr.ReadBytes | src/loader.c:49-52 | Gives the next n bytes, or sets the error flag and gives whatever was there; an error stays, and the cursor never passes the end nor goes back |
| Loader.Rdr.ReadExpr | src/loader.c:59-132 | An error stays; without one, value and cursor are those of the strict parser, and an error arises exactly when the parser fails |
| Loader.Rdr.ReadStmt | src/loader.c:134-202 | The same for statements |
| Loader.LoadProgram | src/loader.c:267-371 | A file is accepted if and only if the strict parser accepts it, and gives the parser's program |
| SchedulerLaws.RunsKeep | src/region.c:226-323 | In every state any run reaches: virtual time is within the offset, no armed timer is overdue, timers have fired in order of due time, and every script keeps its ledger and schedule |
| SchedulerLaws.IterateKeeps | src/region.c:240-323 | Every iteration keeps that invariant, and virtual time never decreases |
| SchedulerLaws.TickKeeps | src/region.c:252-273 | Firing the earliest due timer keeps it, at the timer's due time |
| SchedulerLaws.IdleTimerCount | src/region.c:257-273 | When the loop is idle at T, a timer of interval I armed at t0 and not re-armed has fired exactly floor((T - t0) / I) times, the k-th at t0 + k * I |
| TimerLaws.ApplyAllTimer | src/builtins.c:667-672 | After a handler's actions its timer is as the last of them that concerns timers has left it: set at x > 0 it is due x after the time of the handler, with nothing fired since; stopped it has no interval; without one it is as before |
| TimerLaws.TimerEvents | src/region.c:251-275 | A handler sets its timer to I > 0 at t0 and no later handler of the script sets or stops it: whenever the loop is idle, at T, exactly floor((T - t0) / I) events have been queued since, the k-th at t0 + k * I |
| TimerLaws.RunsQueue | src/region.c:266-270 | In every state of every run, each firing was followed at once by the timer event it queues |
| SchedulerEffects.OffsetAfter | src/builtins.c:661-666 | A handler moves the virtual offset on by the sum of its sleeps |
| SchedulerEffects.OthersGet | src/region.c:153-160 | A script that is not running gets exactly the events pushed to it, in order |
| SchedulerEffects.OwnQueueCut | src/builtins.c:693-717 | After llDie and llResetScript a script's queue holds what was pushed behind them, and behind a reset state_entry first |
| SchedulerEffects.StateAfter | src/builtins.c:714-716 | A reset puts a script into its default state, if it has one, and nothing else a handler does changes the state it is in |
| SchedulerEffects.StartedIs | src/region.c:218-224 | A script starts in its default state, or else its first, with state_entry queued |
| SchedulerEffects.PumpDoes | src/commands.c:152-170 | WAIT moves the offset on by what it is given, EXIT uses up the steps, other commands queue exactly their events, and each counts one step |
| SchedulerLaws.FifoWithoutFlush | src/region.c:153-160 | Without a flush the events dispatched are the first ones queued, in order |
| SchedulerRuns.BusyMeansDispatch | src/region.c:265-314 | A fired timer is dispatched in its own iteration; an iteration dispatches something exactly when a timer is due or a queue is not empty |
| SchedulerRuns.IterationCounts | src/region.c:240-323 | Within a budget, each iteration that goes on raises the step count; without EXIT by at most one per script, or one for a command |
| SchedulerRuns.StepBudget | src/region.c:240-327 | Without EXIT the loop ends with at most max_steps - 1 + max(1, scripts) steps |
| SchedulerRuns.LoopEndIsReached | src/region.c:239-324 | The loop ends after some number of iterations and stays ended |
| SchedulerRuns.EndIsUnique | src/region.c:239-324 | However many more iterations one allows a loop that ends, it ends in the same state, with or without a step limit |
| SchedulerRuns.EchoNeverEnds | src/region.c:239-324 | With neither a step limit nor a wall-clock limit, a started region whose script answers state_entry and every message with a message to itself never ends its loop |
| SchedulerRequests.SwitchLeavesIff | src/region.c:286-313 | Behind a switch a request is pending if and only if state_exit of the old state asked for a state |
| SchedulerRequests.RunsAskNothing | src/region.c:226-323 | When no state_exit asks for a state, no script has a request pending in any state that a run reaches |
| SchedulerRuns.LoopEndsQuiet | src/region.c:316-323 | A loop that ends within its budget leaves no event queued, no timer due and no command |
| SchedulerRuns.WholeRun | src/region.c:226-331 | A whole run keeps the invariant and carries out every command, those after EXIT included |
| SchedulerRuns.SwitchQueue | src/region.c:286-313 | Right after a switch the queue is what state_exit left in it, then state_entry |
| SchedulerRuns.PlainQueueAfter | src/region.c:286-313 | A state_exit that neither dies nor resets leaves exactly what it queued to its own script |
| RegionLoop.Script.PushEvent | src/region.c:153-160 | Linking a node behind the tail appends the event to the queue and touches no other queue |
| RegionLoop.Script.PopEvent | src/region.c:275-281 | Unlinking the head takes off the first event |
| RegionLoop.Script.FlushQueue | src/region.c:291-295 | Walking and freeing the nodes empties the queue |
| RegionLoop.Region.AdvanceTime | src/region.c:248-273 | Moves virtual time and fires the earliest due timer as the step machine does |
| RegionLoop.Region.TakeTurn | src/region.c:276-315 | One script's dispatch, with the state switch behind it, is the machine's step |
| RegionLoop.Region.PumpCommand | src/commands.c:152-166 | Carrying out a command is the machine's step |
| RegionLoop.Region.Round | src/region.c:240-323 | One iteration over linked queues is one step of the machine |
| RegionLoop.Region.Run | src/region.c:226-331 | With or without a step limit, a run whose loop ends within some number of iterations is the machine's run: start, loop, commands left over |
| JsonGrammar.MatchNode | src/builtins.c:1269-1277 | Counting one kind of bracket outside string literals finds an object's or array's own closing bracket |
| JsonGrammar.WalkValue | src/builtins.c:1266-1280 | The scanner runs over exactly one value, plus the carriage returns behind a number or word |
| JsonLaws.FindOk | src/builtins.c:1287-1354 | Searching text finds the place of what the path leads to in the tree, or reports it missing, for every path |
| JsonLaws.GetReads | src/builtins.c:1356-1365 | Reading a well-formed document, a bare number or word included, by any path gives the text of what the path leads to, else the invalid marker |
| JsonLaws.ExtractTrims | src/builtins.c:1281-1286 | The text of a value is read without the white space around it and without the quotes of a string |
| JsonLaws.SpliceOk | src/builtins.c:1381-1446 | Splicing text under a key of an object is updating the tree: in place of the first value of the key, or as a last member |
| JsonLaws.SetOne | src/builtins.c:1448-1462 | Setting a one-level path gives a well-formed object; the value reads back, and every path under another key reads as before |
| JsonLaws.SetTwo | src/builtins.c:1463-1544 | The same for a two-level path whose first key is absent or an object; other paths under the first key read as before too |
| JsonLaws.SetBlocked | src/builtins.c:1463-1544 | Where the first key holds anything else, the document stays as it is and the path leads nowhere |
| JsonEscapes.PlainBody | src/builtins.c:1260-1265 | Text free of quotes and backslashes can stand in a string literal |
| JsonEscapes.ReadsBackIff2 | src/builtins.c:1463-1544 | At a two-level path it reads back if and only if the first key is absent or holds an object and the value can stand in a string literal; through anything else the path reads as the invalid marker |
| JsonEscapes.ReadsBackIff | src/builtins.c:1381-1462 | A value set at a one-level path reads back if and only if it can stand in a string literal |
| JsonText.JsonMatch | src/builtins.c:1269-1277 | The depth-counting loop finds the matching bracket |
| JsonText.JsonExtract | src/builtins.c:1281-1286 | Trimming by two pointers gives the text without surrounding white space and one pair of quotes |
| JsonEndings.FindSplits | src/builtins.c:1287-1354 | Searching for a path is searching for its start and on from there for its rest |
| JsonEndings.NonNegativeEnds | src/builtins.c:1287-1354 | On any text, well-formed or not, a search for a path without negative indices does not go on for ever |
| JsonEndings.NegativeIndex | src/builtins.c:1326-1352 | A search for a negative index never ends if and only if the walk over the items comes to a place where no text is taken |
| JsonEndings.EndlessIff | src/builtins.c:1287-1354 | A search never ends if and only if its path has a negative index, the steps before it lead to an array, and the walk over that array's items stalls |
| JsonEndings.LoneQuoteIff | src/builtins.c:1296-1300 | The length of a key is taken to be -1 if and only if the quote that opens it is the last character of the text |
| JsonEndings.OverrunIff | src/builtins.c:1287-1354 | A search copies a key of that length if and only if some steps lead to an object whose members, none of them with the key of the next step, come to such a quote |
| JsonText.JsonFind | src/builtins.c:1287-1354 | The loops over members and items compute the search, on every text and path on which it does not go on for ever; where the code would copy a key of length -1 the outcome is Overrun |
| JsonText.JsonSplice | src/builtins.c:1381-1446 | The scan and the copies compute the splice, on any text |
| JsonText.JsonSetValue | src/builtins.c:1448-1545 | Computes the setter for every path and text, but for two-level paths whose first key is looked up past a lone quote |
| JsonText.WellFormedEnds | src/builtins.c:1333-1351 | On a well-formed document every search ends, for negative indices too, and copies no key of length -1 |
| JsonText.StuckArray | src/builtins.c:1333-1351 | On the text `[}` a search for item -1 never ends |
| JsonLists.Lists | src/builtins.c:1546-1572 | llJson2List of a well-formed object or array gives its keys and values in order |
| JsonLists.JsonToList | src/builtins.c:1546-1572 | The loop computes the list of any text on which no key is a lone quote at the end |
| JsonLists.ListOverrunEndsInQuote | src/builtins.c:1553-1559 | Only the text of an object that ends in a quote has such a key |
| JsonLists.ListToJson | src/builtins.c:1573-1605 | The buffer holds the printed object or array of the list |
| JsonLists.ListRoundTrip | src/builtins.c:1546-1605 | A list turned into JSON and back gives its values as strings if and only if all keys and values put between quotes can stand in a string literal |
| Digest.ChainConcat | src/builtins.c:1038-1049 | Chaining blocks over a concatenation is chaining over its parts with the left-over bytes carried along |
| Digest.NarrowCount | src/builtins.c:1040-1057 | A 32-bit byte count gives RFC 1321's length field if and only if the length modulo 2^61 is below 2^32 |
| Digest.PaddedChain | src/builtins.c:1050-1057 | The padding of the standard closes one block when at most 55 bytes wait in the buffer, two otherwise |
| Digest.Absorb | src/builtins.c:1038-1049 | The update loop chains every full block and leaves the rest in the buffer, indices in range |
| Digest.MD5.Update | src/builtins.c:1038-1049 | The state stands for the message so far, with any chunk appended |
| Digest.MD5.Final | src/builtins.c:1050-1061 | The digest is the block function chained over the message padded per sections 3.1 and 3.2 of RFC 1321 |
| Digest.SHA1.Final | src/builtins.c:1103-1112 | The digest is the block function chained over the message padded per section 5.1.1 of FIPS 180-4 |
| Digest.Md5Of | src/builtins.c:1063-1074 | Every split of a message into chunks gives the digest of the whole |
| Digest.Sha1Of | src/builtins.c:1094-1112 | Every split of a message into chunks gives the digest of the whole |
| Digest.HmacOf | src/builtins.c:1223-1243 | The two passes compute HMAC of section 2 of RFC 2104 for every key length |
| DigestLaws.BigReads | src/builtins.c:1103-1112 | k bytes high byte first stand for the number modulo 256^k |
| DigestLaws.LittleReads | src/builtins.c:1050-1061 | k bytes low byte first stand for the number modulo 256^k |
| DigestLaws.Md5Padding | src/builtins.c:1050-1057 | The padded message is the one message, marker, fewest zeros, and eight bytes that stand for the number of bits modulo 2^64, low byte first |
| DigestLaws.Sha1Padding | src/builtins.c:1103-1107 | The same for SHA-1: the eight bytes stand for the number of bits, high byte first |
| DigestLaws.ChainIs | src/builtins.c:1038-1049 | Chaining runs through the values that the block function makes of block after block |
| DigestLaws.Md5Is | src/builtins.c:998-1061 | RFC 1321: the digest is the words of the last chaining value, started from the initial values of the standard, each low byte first |
| DigestLaws.Sha1Is | src/builtins.c:1077-1112 | FIPS 180-4: the same, each word high byte first |
| DigestLaws.HmacIs | src/builtins.c:1223-1243 | RFC 2104: the key is filled up or hashed, and its bits are flipped by 0x36 for the inner and by 0x5c for the outer digest |
| Digest.JoinedIs | src/builtins.c:1038-1049 | Chunks joined are their bytes, one behind the other |
| Codecs.CharValue | src/builtins.c:1138-1139 | Looking a character up in the table gives its six-bit value |
| Codecs.StringToBase64 | src/builtins.c:1141-1158 | The loop over 24-bit words computes the encoding of section 4 of RFC 4648 |
| Codecs.Base64ToString | src/builtins.c:1159-1174 | The loop computes the decoding, with an accumulator of 32 bits that is never masked |
| Codecs.RoundTrip | src/builtins.c:1141-1174 | Decoding an encoding gives the bytes back, whatever the accumulator held before |
| Codecs.StringRoundTrip | src/builtins.c:1141-1174 | As C strings, they come back up to the first NUL: all of them if and only if there is none |
| Codecs.IntegerRoundTrip | src/builtins.c:1175-1191 | An integer comes back modulo 2^32, or as 0 with a zero byte; unchanged if and only if it is 0 or below 2^32 without a zero byte |
| Codecs.UrlRoundTrip | src/builtins.c:1193-1222 | Unescaping an escaped text gives it back |
| CodecLaws.Base64Once | src/builtins.c:1141-1158 | The one text in which groups of three bytes, as one number, are spelled by four digits of table 1 of RFC 4648, with what is left at the end shifted up and padded |
| CodecLaws.DecodeIs | src/builtins.c:1159-1174 | Of any text the digits are read four by four as three bytes, other characters are passed over, and of digits left at the end whole bytes are taken |
| CodecLaws.EscapeIs | src/builtins.c:1193-1205 | An escaped text is made of the letters, digits and `-_.~` as they are, and of `%` with two capital hexadecimal digits for every other byte |
| CodecLaws.UnescapeIs | src/builtins.c:1206-1222 | A percent sign with two hexadecimal digits of either case stands for a byte, every other character for itself |
| CodecLaws.IntegerBytes | src/builtins.c:1175-1191 | The four bytes stand for the integer modulo 2^32, high byte first |
| ListSort.Exchange | src/builtins.c:499-505 | The inner loop exchanges two groups item by item, as far as the last one goes |
| ListSort.ExchangedGroups | src/builtins.c:499-505 | Exchanging whole groups keeps the multiset of groups |
| ListSort.ExchangeKeeps | src/builtins.c:487-506 | An exchange keeps the sorted front and brings the lesser head to its end |
| ListSort.Sort | src/builtins.c:480-509 | The array ends up as the sorted list of the sort as a function |
| ListSort.SortedIs | src/builtins.c:480-509 | The sorted list is a permutation of the items; its heads that are numbers, and those that are text, are in the requested order; whole groups are permuted when the length is a multiple of the stride or nothing is to go behind a short group |
| ListSort.GroupsKeptIff | src/builtins.c:480-509 | Whole groups are permuted if and only if the length is a multiple of the stride or no head is to go behind that of the short group |
| ListSort.HeadsInOrder | src/builtins.c:480-509 | Items at multiples of the stride: of two numbers the former is not the greater, of two texts it is equal or comes before by the first difference; the other way round when descending |
| ListSort.KindsStay | src/builtins.c:490-499 | Where a number, a text or something else stood, one stands afterwards; something else is the very same value |
| ListSort.WholeGroups | src/builtins.c:480-509 | A list that divides into groups of the stride comes out as the same groups |
| ListSort.ShortGroupMixes | src/builtins.c:480-509 | Sorting 2, "b", 1 by twos gives 1, "b", 2: the "b" changes groups |
| Strings.JBuf.Reserve | src/util.c:103-109 | Doubling makes room for the text and its terminator, keeps the contents, and at most doubles what is needed |
| Strings.JBuf.Append | src/util.c:110-113 | The contents are the concatenation of what was appended, with a terminator behind |
| Strings.DumpList2String | src/builtins.c:510-520 | Joins the items with the separator |
| Strings.ParseString2List | src/builtins.c:547-582 | The loop computes the pieces for all separators and spacers: first separator in list order, then first spacer |
| Splitting.MatchIs | src/builtins.c:557-572 | No separator is found exactly when no non-empty string of the list stands there, and otherwise the first of the list that does |
| Splitting.ParseCuts | src/builtins.c:547-582 | There is one way to cut a string so that nothing stands inside a piece, a piece ends where something stands, that is the first separator, and a spacer only where no separator stands; pieces and cuts make up the string, and the lists show it, for all separators and spacers |
| Strings.JoinPieces | src/builtins.c:510-582 | Joining the KeepNulls pieces of one separator gives the string back, and no piece contains the separator |
| Strings.WithoutNulls | src/builtins.c:547-584 | llParseString2List is llParseStringKeepNulls without the empty strings, for all separators and spacers |
| Strings.SpacersKept | src/builtins.c:547-582 | Split at spacers alone, the pieces concatenate to the string |
| Economy.Region.AddAvatar | src/region.c:117-133 | Adds an avatar or overwrites its balance; UUIDs stay unique |
| Economy.AddedHas | src/region.c:117-133 | That avatar has the balance given, whatever it had, and all others what they had |
| Economy.DebitIsBit | src/builtins.c:891 | The permission to debit is what `perms & 2` leaves |
| Economy.Region.GiveMoney | src/builtins.c:888-912 | The table afterwards and the result are those of the transfer function, newcomers added first |
| Economy.Region.Transfer | src/builtins.c:913-926 | The same, and exactly one transaction_result event says how it went |
| Economy.Region.MoneyFrom | src/commands.c:302-324 | A known avatar that has the amount pays the owner, and the first script hears of it |
| Economy.GiveSettles | src/builtins.c:888-912 | Paid if and only if the script may debit and the owner has the amount; then the owner has it less, the receiver more, nobody else changes, the sum stays |
| Economy.PaySettles | src/commands.c:302-324 | The same for MONEY_FROM |
| Economy.OwnerStaysIff | src/builtins.c:888-912 | A payment leaves the owner as it is if and only if the table is not empty, the script may not debit, or the receiver is the owner named by the environment |
| Economy.FirstReceiverOwns | src/builtins.c:679-684 | With an empty table the first receiver becomes the owner |
| Economy.RunConserves | src/builtins.c:888-926 | Over every run of transfers and payments the sum stays, UUIDs stay unique, and with non-negative amounts no avatar gets into debt, or deeper into it, whatever the others have |

## Left out

- Soundness.HandlersKeepTypes: holds for programs in which `state` sits in handlers, no jump crosses a declaration of the block that catches it, functions with a return type end in `return` on every path with a value of exactly that type, globals start with their declared types, and arguments coerce to the parameter types, and for handlers that start with nothing asked for. The code itself coerces neither return values nor global initialisers.
- TypedRuns.RunsKeepTypes: the same restrictions, for every handler of the script; and state_exit holds no `state` and takes no parameters.
- Lifecycle.TurnsAgree: the events of a script come as a list; ProgramRuns.RunsAreTurns says that this list is what the loop dispatches.
- ProgramRuns.RunsAreTurns: ties what handlers ask for to their programs; which events and timers a built-in makes is left to the environment, handlers must end, and llResetScript is excluded.
- Typing.ExecTyped: the same restrictions on the program; prefix `++` and `--` on, and compound assignment to, a member of a rotation have no type.
- Outcomes.ExecAgrees: starts with nothing asked for, which Lifecycle.TurnsAgree shows of whole runs and Lifecycle.LateBlock explains otherwise. Having `state` in handlers only is sufficient and not necessary, since a `state` statement in a function may never be reached or name no state; the flags of all other programs are described by Semantics.
- Termination.HandlersTerminate: backward jumps and recursive functions are not covered; the 1,000,000 cap bounds loops only.
- SchedulerRuns.StepBudget: says nothing without a step limit, when there is no budget to keep.
- RegionLoop.Region.Run: a run whose loop never ends has no last state, and nothing is said of it beyond SchedulerLaws.RunsKeep.
- RegionLoop.Region.PumpCommand: commands other than WAIT and EXIT appear by the events they push.
- Walker.Frame.Define: the growable array of locals is a sequence; its doubling is not modelled here (Strings.JBuf models the same scheme).
- Walker.Machine.EvalCall: a built-in gives a value that may depend on all calls so far, but does not write globals, as only llResetScript does.
- Semantics.Eval: a string literal keeps the type byte of its node in the code; here every byte but that of a key makes a string, which are the two a compiler writes.
- DoProgram.DownIs, JumpProgram.MinusIs: arguments of 32 bits, as LSL has them; the sums of greater ones would wrap.
- Digest.MD5.Final: the block functions of MD5 and SHA-1 are a parameter; the SHA-256 stand-in is left out.
- JsonText.JsonFind: searches that never end are excluded by precondition, since the loop of the code does not end on them; a copy of length -1, which has no result, is the outcome Overrun.
- JsonText.JsonSetValue: the lookups that meet such a copy are excluded by precondition.
- JsonLists.JsonToList: text on which such a copy is made is excluded by precondition.
- JsonLists.ListRoundTrip: numbers are shown by a parameter, which is taken to give words: no blanks, quotes, brackets, commas or colons.
- Initialising globals and resetting them in llResetScript run expressions outside a handler; the queue and state part of a reset is modelled, the new global values are not.
- The debugger hook, event and dialog logs, HTTP, volumes, sensors, links and chat: no effect on the state modelled here.
- Handlers of the scheduler are arbitrary lists of actions, tied to runs of the interpreter only in ProgramRuns.
- Splitting the text of commands into words, and matching listeners.
- Dividing the least integer by -1, or taking its remainder, traps in the code and wraps here; and a float cast to an integer is not limited to 64 bits.
- Rounding of doubles, overflow of `long long` sums in transfers, signed shifts beyond their range, and the order of integers above 2^53 against floats in a sort.
- Memory allocation and release, and pool strings with an embedded NUL.
- CSV functions, llJsonValueType, list and string accessors, trigonometry, formatting, and the constants and stubs of the built-in table: simple computations or libc.
