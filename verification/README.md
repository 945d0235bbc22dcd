# kscm: verified models of a Scheme kernel

A Dafny model of the parts of the repository where most can go wrong, with proofs about them:

- **The Scheme compiler and its virtual machine** (`Exptype`, `Svm`, `Compiler`, `CompilerLabels`,
  `LabelPlaces`, `Semantics`, `SemanticLaws`, `CompilerCorrect`, `CallTyping`, `CallDiscipline`,
  `ProcedureCalls`, `TailCalls`). The compiler is a set of recursive functions that thread the label counter;
  the machine is a step function over the registers, the evaluation stack and the continuation chain. A program
  counter is the code still to run, and jumps look labels up in the whole program. Source expressions get their
  meaning in `Semantics`, by section 4.2.1 of R5RS; `SemanticLaws` says what that comes to on literals.
  `ProcedureCalls` is about runs through calls: where a call arrives, in which environment, with which operands
  bound to which parameters, and what is left when it returns. `TailCalls` does the same for the tail positions
  of section 3.5.
- **The kernel memory stack** (`Frames`, `PageTables`, `Memory`, `HeapBlocks`, `Malloc`, `RegionSupply`, `Gc`):
  the frame bitmap as 32-bit words, two-level page tables in physical memory, regions that grow towards each
  other, the first-fit heap with its circular free list, and the ring of object regions. These are classes
  whose methods change bitmap words, table entries, header fields and pointers in place; what the structures
  stand for (a set of free frames, a flat page map, a tiling of pages by blocks) is a value the contracts
  speak about.
- **The interpreter's analyser and evaluator** (`Analyzer`, `Evaluator`, `EvalEquivalence`, `KeywordSearch`,
  `Interpreter`, `EvaluatorLaws`): the functions that rewrite a form once into tagged cells and evaluate the
  cells, a second evaluator that never analyses anything, the proof that the two agree, and the loops of the
  source proved against the functions, the search for a keyword with its two bounds among them.
  `EvaluatorLaws` says what a form means by the name written at its head, and what primitives and closures make
  of a list of arguments; no law mentions the table of keywords.
- **Reader, printers, numerals, symbols, rationals** (`CStrings`, `Decimal`, `Number`, `Syntax`, `Scanner`,
  `Parser`, `WellFormed`, `Printer`, `RoundTrip`, `QuoteReading`, `ScanLaws`, `Symbols`, `Interning`,
  `Rational`): the character scanner over a port and a token buffer, the three token parsers on one cursor, the
  printers that write into a character array, laws over characters for what printers never write (quote marks,
  points, at signs), `strtol` and the decimal writer with 32-bit arithmetic, the symbol table, and the
  subtractive greatest common divisor.

## Where the code does not do what one expects

The model keeps the code as it is. Each of these is a contract or a lemma with its exact condition, unless
only a witness is named.

- A procedure that returns leaves its operands on the stack (`ProcedureCalls.CallReturns`), where R5RS would
  have them gone. So a builtin of two operands whose first is such a call gets the first operand of that call in
  place of its own second one, and the right operands only if the call has none or the two values happen to be
  equal (`ProcedureCalls.NestedOperand`).
- Only `(define (f x ...) ...)` gets code that loads its parameters. A `lambda`, and a definition with a rest
  parameter, runs its body with the operands on the stack and nothing bound to its parameters
  (`ProcedureCalls.ProcedureMade`, with `ProcCode([], ...)`).
- `kfree` keeps the free list a list exactly when the lower neighbour of the block is free
  (`KernelHeap.Kfree`). Otherwise lib/malloc.c:157-164 links the block behind its predecessor, reads that link
  back, and makes the block its own successor; nothing behind it can be reached any more.
  `Malloc.FreeUpperFirst` is such a call: two requests, and the first block freed.
- `kmalloc` keeps the free list exactly unless first fit ends at the head, the head is exactly as large as
  asked, and other blocks are free (`KernelHeap.Kmalloc`): then lib/malloc.c:114-117 leaves the list on a block
  in use, off the cycle of the others. `Malloc.TakeHeadRun` is a run of three requests that ends so.
- A request above 2^32 - 8 bytes wraps in the rounding and gets a block that is too small (`Malloc.UnitsHold`).
- `put_page` answers with success although it had no frame for the page table; it maps the page exactly when
  the directory slot has a table or a frame below the end of memory is free (`Mmu.PutPage`).
- A failed `expand_region` leaves the region grown exactly when no neighbour was in the way, that is, when it
  failed for want of a frame (`Mmu.ExpandRegion`). The frame it then gives back is never the null pointer: the
  bitmap covers more frames than a short count of kilobytes can announce (`Memory.NeverEmpty`).
- `gc_alloc_obj` hands out an address behind the page when the region is full and no other can be set up,
  and generation numbers rise exactly as long as they fit a short (`Collector.AllocObj`, `Gc.RingOrder`).
- `_analyze` is idempotent on all forms but those with `else` at their head (`Analyzer.AnalyzeIdempotent`).
- `isalpha` of include/ctype.h:47 holds of no character, so `toupper` changes nothing (`CStrings.NoAlpha`,
  `CStrings.ToUpperKeeps`), and in `strtol` no letter is a digit and only `0X` is a prefix, whatever follows it.
  The result is that of section 7.20.1.4 of C99 if and only if the digits C99 would take are decimal, a prefix
  it would take has the capital X, and no `0X` stands where C99 takes just the zero (`Number.StandardExactly`).
  `Number.LettersLost` is the input `ff` in base 16.
- `_create_vector` counts and fills the same number of slots on every well-formed sequence
  (`WellFormed.ParsesVector`). In a malformed list inside a vector the parser gives up early, and more slots may
  be filled than were counted (`WellFormed.OverfilledVector`), or fewer, which leaves the others as they were
  allocated (`WellFormed.UnderfilledVector`). These two are witnesses; malformed sequences on which the two
  passes agree all the same are not told apart.
- A word of digits and `#` alone is read as a number, so a plain name is read back as a symbol exactly when it
  has some other character (`RoundTrip.ReadsAsSymbol`). `#t` and `#f` do not end the scan.
- A word right before `(` is lost, an `@` inside a word is left out of it, and `1.2.3` is a symbol
  (`ScanLaws.WordBeforeParIsLost`, `ScanLaws.AtSignIsLost`, `ScanLaws.TwoPointsAreSymbol`).
- A second datum behind a dotted tail replaces the cdr of the tail where the tail is a pair, and otherwise ends
  the list with void (`WellFormed.SecondTail`).
- Any beginning of a keyword selects the form of the first keyword it begins, the empty name that of `and`; `else`
  at the head of a form makes evaluation go wrong (`EvaluatorLaws.SpecialName`, `EvaluatorLaws.ElseLaw`). `and`
  and `or` give only `#t` and `#f`, `set!` gives the old value and looks in the innermost frame alone
  (`EvaluatorLaws.AndLaw`, `EvaluatorLaws.OrLaw`, `EvaluatorLaws.SetLaw`).
- The loop of `_gcd` ends exactly when both numbers are positive or they are equal, and its result can be
  divided by exactly when, besides, they are not zero (`Rational.LoopEnds`). With a negative number below the
  other one the subtraction goes on until it overflows an int (`Rational.NegativeGrows`).

## Model

| member | source | states |
|---|---|---|
| Decimal.NumeralInjective | tools/compiler/src/Compiler.hs:42-43 | Different counter values have different decimal renderings, the premise of label freshness. |
| Compiler.CompileExpr | tools/compiler/src/Compiler.hs:69-184 | Compiling never takes the label counter back. |
| CompilerLabels.LabelNameInjective | tools/compiler/src/Compiler.hs:38-43 | Two labels with the same text come from the same counter value. |
| CompilerLabels.ExprLabels | tools/compiler/src/Compiler.hs:69-182 | For every supported expression and starting counter: the labels emitted, closures included, are pairwise distinct, come from the counter interval used, and every jump and pushed continuation refers to a label strictly later in the same procedure body. |
| CompilerLabels.ProgramLabels | tools/compiler/src/Compiler.hs:190-191 | The same for whole programs. |
| CompilerLabels.JumpsHaveOneLabel | tools/compiler/src/Compiler.hs:42-54 | In a compiled program every jump and every pushed continuation has exactly one label definition to go to, in the whole program. |
| LabelPlaces.ProgramLocated | tools/compiler/include/svm.h:145-147 | With distinct labels, looking a label up in the whole program leads to the code behind its one definition, out of nested blocks. |
| CompilerCorrect.ExprCorrect | tools/compiler/src/Compiler.hs:69-182 | Meaning preservation: from any machine state with room for the stack need, compiled call-free code runs to what follows it with the source value in the value register, the source effects on the variables, and everything else, the stack included, as on entry. |
| CompilerCorrect.SeqCorrect | tools/compiler/src/Compiler.hs:56-67 | The same for sequences, tail position or not. |
| CompilerCorrect.CondCorrect | tools/compiler/src/Compiler.hs:147-156 | The same for cond, whose clauses leave nested blocks for the end label. |
| CompilerCorrect.TestsFormCorrect | tools/compiler/src/Compiler.hs:158-182 | The same for and/or: evaluation stops at the deciding value, which is the result. |
| CompilerCorrect.OperandsCorrect | tools/compiler/src/Compiler.hs:81-97 | Operand code leaves all operand values on the stack, the first argument on top, and never overflows within the computed need. |
| CompilerCorrect.RunsBuiltin | tools/compiler/include/builtin.h:56-62 | A builtin call finds argument i at stack offset i, and MoveSp takes the operands off again. |
| CompilerCorrect.ProgramCorrect | tools/compiler/src/Compiler.hs:190-191 | A whole call-free program terminates without the overflow exit, with the source value and bindings and all other state untouched. |
| SemanticLaws.IfOfLiteral | tools/compiler/src/Compiler.hs:139-145 | Every literal but #f takes the first branch of if. |
| SemanticLaws.AndOfLiterals | tools/compiler/src/Compiler.hs:158-169 | and of literals gives the first #f, or else the last of them. |
| SemanticLaws.OrOfLiterals | tools/compiler/src/Compiler.hs:171-182 | or of literals gives the first that is not #f, or else #f. |
| SemanticLaws.CondOfLiteral | tools/compiler/src/Compiler.hs:147-156 | cond goes on to its other clauses exactly for the test #f. |
| SemanticLaws.DefineThenUse | tools/compiler/src/Compiler.hs:109-113 | After a definition or an assignment the variable has the value of the expression and every other one what it had. |
| SemanticLaws.UnboundVariable | tools/compiler/include/svm.h:168-169 | A variable nothing was bound to is unassigned. |
| SemanticLaws.BuiltinsByName | tools/compiler/src/Builtin.hs:8-14 | The eight names that are builtins. |
| SemanticLaws.BuiltinOfLiterals | tools/compiler/src/Compiler.hs:86-90 | A builtin gets its operands in the order of the source, the parser handing them over reversed. |
| CallTyping.TypedExpr | tools/compiler/src/Compiler.hs:48-131 | Compiled code pushes and consumes continuations in a stack discipline: at each point the labels of pending calls are known, and a tail call has none. |
| CallDiscipline.StepOk | tools/compiler/include/svm.h:104-143 | Every machine step keeps the invariant that ties the continuation chain to the pending calls of all activations. |
| CallDiscipline.CallFrame | tools/compiler/src/Compiler.hs:81-93 | In every reachable state a non-tail call finds its own frame on top of the chain: its label's code, and the environment and template of the caller. |
| CallDiscipline.LeaveHasFrame | tools/compiler/include/svm.h:128-143 | In every reachable state a return finds a continuation to resume. |
| CallDiscipline.JumpsResolve | tools/compiler/include/svm.h:145-147 | In every reachable state a jump or pushed label resolves, and the code it leads to is strictly shorter than the code left. |
| CallDiscipline.ReturnMatchesCall | tools/compiler/include/svm.h:104-139 | A non-tail call that returns arrives at its own label with the continuation chain, environment and template of before its PushCont. |
| CallDiscipline.TailCallsConstantSpace | tools/compiler/src/Compiler.hs:48-54 | From the entry of a procedure on, each tail call at its level happens with exactly the chain the procedure was entered with, over any number of steps. |
| ProcedureCalls.CallReaches | tools/compiler/src/Compiler.hs:81-97 | Over runs: a call, in either position, reaches the first instruction of the closure its operator evaluates to, in that closure's environment and template, its operand values on the stack with the first on top; the chain is as it was in tail position, and otherwise longer by the one frame that resumes behind the call with the caller's environment and template. |
| ProcedureCalls.ProcedureMade | tools/compiler/src/Compiler.hs:104-131 | Running lambda or a definition of a procedure makes a closure of the environment in force there, with its own code, whose labels resolve; the definition binds its name to it and nothing else. |
| ProcedureCalls.HeaderRuns | tools/compiler/src/Compiler.hs:124-124 | The header of a defined procedure leaves parameter j bound to the operand in stack slot j, all other variables and the stack alone. |
| ProcedureCalls.ProcedureRuns | tools/compiler/include/svm.h:128-143 | A procedure without calls of its own runs from its entry to the continuation on top of the chain, with the value and effects of its body where the parameters are the operands, and with the environment and template of the frame. |
| ProcedureCalls.CallReturns | tools/compiler/include/svm.h:104-143 | A whole call arrives behind itself with that value, both effects, and the environment, template and chain of before; the operands stay on the stack. |
| ProcedureCalls.NestedOperand | tools/compiler/src/Compiler.hs:86-93 | A builtin of two operands whose first is such a call gets the value of the call and then the operand the call left on top of the stack: the first one of the call, or its own second one if the call has none. |
| TailCalls.TailCorrect | tools/compiler/src/Compiler.hs:48-182 | Compiled for a tail position, begin, if, cond, and, or of calls in tail position compute their value, or reach the procedure the source calls last, in its environment, with its operands and the chain of before. |
| TailCalls.ProcedureTail | tools/compiler/src/Compiler.hs:104-131 | A procedure whose calls all stand in tail position returns to its caller or reaches the next procedure with the chain it was entered with. |
| Svm.StackBounded | tools/compiler/include/svm.h:73-78 | Over every run nothing is pushed outside the stack, and the overflow exit is taken only at a full one. |
| Analyzer.AnalyzeIdempotent | kscm/scheme/eval.c:173-227 | Analysing twice is analysing once if and only if the form does not have else at its head. |
| EvalEquivalence.FormOfOperator | kscm/scheme/eval.c:610-628 | On operator names that are no strict prefix of a keyword the prefix search selects the form of exactly that name. |
| KeywordSearch.SearchKeyword | kscm/scheme/eval.c:610-628 | The two bounds that close in on the table character by character find the first keyword the name begins, for every name. |
| KeywordSearch.Closer | kscm/scheme/eval.c:616-625 | One character more: the words from the lower bound to before the upper one are exactly those that begin with what was read of the name. |
| EvaluatorLaws.SpecialName | kscm/scheme/eval.c:117-134 | A name selects a form exactly when it begins one of the seventeen keywords, which are spelt out. |
| EvaluatorLaws.AndOfConstants | kscm/scheme/eval.c:320-329 | (and c ...) of constants is false exactly when one of them is #f. |
| EvaluatorLaws.OrOfConstants | kscm/scheme/eval.c:331-340 | (or c ...) of constants is true exactly when one of them is not #f. |
| EvaluatorLaws.AndLaw | kscm/scheme/eval.c:320-329 | (and e . es): the first false value ends it; behind the last true one it is #t. |
| EvaluatorLaws.OrLaw | kscm/scheme/eval.c:331-340 | (or e . es): the first true value ends it, as #t; behind the last false one it is #f. |
| EvaluatorLaws.BeginLaw | kscm/scheme/eval.c:159-170 | (begin e . es): all effects in order, the last value. |
| EvaluatorLaws.CondLaw | kscm/scheme/eval.c:289-303 | (cond (test . body) . clauses): the body of the first clause whose test is true; void without any. |
| EvaluatorLaws.IfLaw | kscm/scheme/eval.c:266-279 | (if test then else); without an alternative a false test gives the empty list. |
| EvaluatorLaws.QuoteLaw | kscm/scheme/eval.c:583-593 | (quote d) is d. |
| EvaluatorLaws.DefineLaw | kscm/scheme/eval.c:246-251 | (define x e) binds x in the current frame to the value of e and changes no other binding (lines 188-216 of env.c). |
| EvaluatorLaws.DefineProcLaw | kscm/scheme/eval.c:253-264 | (define (f . paras) . body) binds f to a procedure of the current environment. |
| EvaluatorLaws.SetLaw | kscm/scheme/eval.c:239-244 | (set! x e) gives the old value and changes the binding of the innermost frame, which must have one; otherwise void and no change (lines 218-235 of env.c). |
| EvaluatorLaws.LambdaLaw | kscm/scheme/eval.c:281-285 | (lambda paras . body) is a procedure of the current environment. |
| EvaluatorLaws.ElseLaw | kscm/scheme/eval.c:482-485 | (else . rest) is no expression. |
| EvaluatorLaws.VariableLaw | kscm/scheme/eval.c:234-237 | A variable has its value in the innermost frame that binds it, and void in none (lines 128-148 of env.c). |
| EvaluatorLaws.CallLaw | kscm/scheme/eval.c:305-318 | Any other name, or a form, at the head is a call: operator, then operands, then the procedure applied to the list of their values. |
| EvaluatorLaws.OperandsLaw | kscm/scheme/eval.c:342-360 | That list has the operand values in order, evaluated from left to right. |
| EvaluatorLaws.PrimitiveLaw | kscm/scheme/proc.c:69-94 | A primitive gets the arguments in order when there are as many as it takes, and otherwise the value is void and nothing changes. |
| EvaluatorLaws.ApplyLaw | kscm/scheme/proc.c:109-113 | (apply f l) applies f to the list l. |
| EvaluatorLaws.ParametersLaw | kscm/scheme/proc.c:37-44 | Parameter i is bound to argument i, a rest parameter to the list of those behind, and nothing else is bound; for too few arguments there are no bindings (lines 150-186 of env.c). |
| EvaluatorLaws.ClosureLaw | kscm/scheme/proc.c:37-44 | A closure evaluates its body in a new frame of these bindings behind the environment it was made in. |
| EvalEquivalence.EvalAgrees | kscm/scheme/eval.c:138-157 | For every well-formed form, fuel, environment and store: analysing and then evaluating, and evaluating the analysed form again, give the direct evaluator's result and store, up to closure bodies being stored analysed. |
| EvalEquivalence.FormAgrees | kscm/scheme/eval.c:393-608 | The same for each special form. |
| EvalEquivalence.CondAgrees | kscm/scheme/eval.c:289-303 | The same for cond over analysed clauses. |
| EvalEquivalence.TestsAgree | kscm/scheme/eval.c:320-340 | The same for and/or, which give only booleans. |
| EvalEquivalence.ApplyAgrees | kscm/scheme/proc.c:69-107 | Applying a closure with an analysed body agrees with applying the one with the raw body, in an environment extended alike; primitives see the same arguments, and apply applies the same procedure to them. |
| EvalEquivalence.SequenceAgrees | kscm/scheme/eval.c:159-170 | The same for sequences. |
| Interpreter.AnalyzeForm | kscm/scheme/eval.c:173-227 | The dispatch on object types analyses a form as specified. |
| Interpreter.AnalyzeElements | kscm/scheme/eval.c:372-391 | The loop that appends analysed elements builds the analysed list in order. |
| Interpreter.AnalyzeCondClauses | kscm/scheme/eval.c:420-442 | The same for the clause loop. |
| Interpreter.AnalyzeConditional | kscm/scheme/eval.c:487-526 | if with one and two arms, and its error exits. |
| Interpreter.AnalyzeSpecial | kscm/scheme/eval.c:393-608 | The analysers of the other special forms. |
| Interpreter.Machine.SchemeEval | kscm/scheme/eval.c:138-157 | Evaluation with a store that define and set! change in place gives the specified result and store. |
| Interpreter.Machine.RunSequence | kscm/scheme/eval.c:159-170 | The sequence loop evaluates all and gives the last value. |
| Interpreter.Machine.RunCond | kscm/scheme/eval.c:289-303 | The clause loop stops at the first true test. |
| Interpreter.Machine.RunTests | kscm/scheme/eval.c:320-340 | The and/or loops stop at the first deciding value. |
| Interpreter.Machine.RunList | kscm/scheme/eval.c:342-360 | The operand loop collects the values left to right. |
| Interpreter.Machine.RunApplication | kscm/scheme/eval.c:305-318 | Operator first; an unbound operator ends the call before its operands. |
| Interpreter.Machine.RunApply | kscm/scheme/proc.c:30-94 | Arity checks and argument collection of primitives, environment extension for closures, and the primitive apply, which comes back here. |
| Frames.ClearBit | mm/memory.c:157-161 | Clearing a bit of a word changes the membership of that frame and of no other. |
| Frames.SetBit | mm/memory.c:166-170 | The same for setting one. |
| Frames.NoBits | mm/memory.c:152-155 | A word is zero exactly if none of its frames is free. |
| Frames.FrameMap.GetFreeFrame | mm/memory.c:146-164 | Refines taking the least element of a finite set: the lowest free frame, exactly one bit changed; 0 exactly when nothing is free, with nothing changed. |
| Frames.FrameMap.FreeFrame | mm/memory.c:166-170 | Refines adding one element, so that it undoes GetFreeFrame. |
| Frames.FreeNotHeld | mm/memory.c:146-170 | Over every run of the two calls no frame is free and held at once. |
| Frames.NeverTwice | mm/memory.c:146-170 | Over every run no frame is handed out that was handed out before and not given back. |
| Frames.FramesConserved | mm/memory.c:146-170 | Free and held frames are together those of the start, all along a run, if and only if every frame given back was one of them. |
| PageTables.SetEntryRefines | mm/memory.c:201-207 | Writing one table entry updates the flat page map at that page and nowhere else. |
| PageTables.AddTableKeeps | mm/memory.c:191-196 | A fresh page table changes no translation, and stays distinct from all tables and mapped frames. |
| PageTables.SetEntryOk | mm/memory.c:207-207 | Page tables stay distinct from each other and from mapped frames, and frames are mapped once. |
| PageTables.WindowKeeps | mm/memory.c:61-67 | Moving the temporary window changes no translation. |
| PageTables.WindowReaches | mm/memory.c:61-67 | Through the window the kernel reaches exactly the bytes of the frame it was opened for. |
| PageTables.WalkTranslates | mm/memory.c:172-212 | What the processor finds by its walk over directory and table, bit field by bit field, is what the flat page map says. |
| Memory.Mmu.PutPage | mm/memory.c:172-212 | Fails, changing nothing, exactly for frames outside memory; otherwise refines one update of the flat map exactly when a page table exists or can be made, and keeps one use for each frame exactly when, besides, the frame had none. |
| Memory.GrowOk | mm/memory.c:225-241 | Any growth step keeps text, heap, stack and slots ordered and disjoint and gains a page that was in no region. |
| Memory.MemoryMap | mm/memory.c:20-29 | The region table and the frame bitmap at boot, in addresses. |
| Memory.GrowExactly | mm/memory.c:225-241 | A region is refused a page exactly when it is the text, or when heap and stack would meet, or the slots would leave their range; otherwise it gets the page at its end (the stack: below its start) and is larger by that page. |
| Memory.Mmu.GrowRegion | mm/memory.c:225-241 | The page is refused exactly when heap and stack would meet or the slots would leave their range, and always for the text, with nothing changed; otherwise the region is one page larger, by the page at its old end, or at its new start for the stack, and no other region changes. |
| Memory.Mmu.ExpandRegion | mm/memory.c:214-250 | Over every run: the page gained was never granted before, is mapped to a frame that was free, and nothing else is remapped; fails exactly when heap and stack would meet, the slots would leave their range, the region is the text or none, or no frame is left, and then maps nothing and gives the frame back; the region is grown exactly when no neighbour is in the way, failure or not. |
| Memory.NeverEmpty | mm/memory.c:87-87 | As long as the frames behind the end of memory are free, which all of the above keep, get_free_frame does not answer 0, whatever memory size a short can announce. |
| Memory.Mmu.InitPaging | mm/memory.c:77-140 | Boot establishes the invariant of all of the above, with the first stack and heap pages mapped. |
| Memory.Mmu.BootTable | mm/memory.c:112-118 | The first page table. |
| Memory.Mmu.BootStack | mm/memory.c:120-121 | The first stack page. |
| Memory.Mmu.BootHeap | mm/memory.c:137-139 | The first heap page. |
| RegionSupply.AnswersRise | mm/memory.c:225-249 | Over any run of expand_region calls each page of a region that grows up lies above all pages given before. |
| RegionSupply.FromBoot | mm/memory.c:20-26 | From boot on the heap is given 0x801000 and the pages after it one by one, the slots 0x40001000 and those after it, as long as no call fails. |
| RegionSupply.AnswersAscend | mm/memory.c:225-249 | So the heap's pages ascend from its first page, which is what the allocator relies on. |
| RegionSupply.SlotsDistinct | kscm/scheme/gc.c:134-134 | And the pages of the slots region are aligned and distinct, which is what the collector relies on. |
| Malloc.UnitsHold | lib/malloc.c:103-103 | The rounded unit count holds the request if and only if the rounding does not wrap 32 bits. |
| Malloc.KernelHeap.constructor | lib/malloc.c:75-86 | The first heap page is one free block. |
| Malloc.KernelHeap.Kmalloc | lib/malloc.c:97-140 | Blocks tile the pages; the block returned was not in use, holds exactly the units asked for, and no other live block moves; whatever pages are obtained on the way, each is asked for only when no free block fits, and the heap becomes the one with those pages where the first block that fits is cut; null only when nothing fits and the region refuses a page, which leaves the heap with the pages obtained before; the list stays one address-ordered cycle with the head lowest if and only if the head is not taken as it is, and otherwise no choice of free blocks makes a free list of the links. Terminates by pages to come, then blocks before the head. |
| Malloc.KernelHeap.Find | lib/malloc.c:110-139 | The walk itself: it ends at the first block that fits from behind the head on. |
| Malloc.KernelHeap.Take | lib/malloc.c:113-126 | Taking a block: the upper end, the whole block, or the last block of all. |
| Malloc.KernelHeap.Kfree | lib/malloc.c:142-165 | If and only if the lower neighbour is free the heap stays well formed: the block is live no more, all others are where they were, every unit is still owned; otherwise no choice of free blocks makes a free list of the links. |
| Malloc.KernelHeap.Behind | lib/malloc.c:148-152 | The search ends behind the last free block below, or the last of all, and that block ends at the freed one exactly when the lower neighbour is free. |
| Malloc.KernelHeap.Close | lib/malloc.c:159-164 | Joining with the upper neighbour, or linking to it. |
| Malloc.ListLost | lib/malloc.c:157-164 | A block linked to itself behind its predecessor heads or continues no free list. |
| Malloc.FreeUpperFirst | lib/malloc.c:142-165 | A run that loses the free list. |
| Malloc.TakeHeadRun | lib/malloc.c:97-140 | A run of three requests that leaves the list on a block in use. |
| Malloc.HeadOffCycle | lib/malloc.c:113-117 | Links from the head into a cycle it is not on are no free list. |
| HeapBlocks.SplitOk | lib/malloc.c:119-123 | Cutting the upper end keeps the tiling and the free list and adds one live block. |
| HeapBlocks.UnlinkOk | lib/malloc.c:114-117 | Unlinking a block behind the head keeps the tiling and the cycle. |
| HeapBlocks.ExtendOk | lib/malloc.c:129-136 | A new page above all others becomes the last block of the cycle; live blocks stay. |
| HeapBlocks.MergeLowOk | lib/malloc.c:152-155 | Growing the lower neighbour over the freed block. |
| HeapBlocks.MergeNextOk | lib/malloc.c:159-162 | Taking over the next free block when it is adjacent. |
| HeapBlocks.LowerFreeEnds | lib/malloc.c:152-152 | The comparison p + p->size == bp decides whether the lower neighbour is free. |
| HeapBlocks.HeapUnits | lib/malloc.c:84-84 | Conservation: a well-formed heap owns 512 units per page. |
| Gc.ObjectsApart | kscm/scheme/gc.h:67-86 | Objects handed out overlap neither one another nor any region header. |
| Gc.MaskFindsRegion | kscm/scheme/gc.h:124-127 | Masking the address of any byte of an object finds its region. |
| Gc.HeaderSize | kscm/scheme/gc.h:67-86 | Header and slot sizes are those of the C structures, fields laid out at multiples of their sizes; header and 254 slots fill a page. |
| Gc.FieldsApart | kscm/scheme/gc.h:67-86 | No object handed out lies over a field of any region header. |
| Gc.RingOrder | kscm/scheme/gc.c:182-195 | From the oldest region on generation numbers rise strictly if and only if they fit a short. |
| Gc.ObjectCount | kscm/scheme/gc.h:96-96 | 254 objects in every region but the newest; the newest is full, by the equality test, exactly when it holds 254. |
| Gc.BumpOk | kscm/scheme/gc.c:113-113 | Bumping the top hands out a slot that was not handed out before. |
| Gc.AddOk | kscm/scheme/gc.c:188-200 | Linking a page behind the newest region keeps the doubly linked ring and the numbering. |
| Gc.Collector.constructor | kscm/scheme/gc.c:98-106 | Start with one empty region, or with none when table or page is refused. |
| Gc.Collector.NewGeneration | kscm/scheme/gc.c:164-203 | Succeeds exactly when table and page are given; otherwise changes nothing. |
| Gc.Collector.AllocObj | kscm/scheme/gc.c:108-114 | A new object in the newest region, and the invariant kept, exactly when there is room or a new generation can be set up; otherwise the address is behind the page and masks to another region. |
| CStrings.NoAlpha | include/ctype.h:45-47 | The letter class of the macros is empty. |
| CStrings.ToUpperKeeps | include/ctype.h:59-59 | toupper is the identity. |
| CStrings.ClassesOfC | include/ctype.h:49-52 | Blanks are the space and the codes 9 to 13; printing characters the 95 codes from the space on. |
| Number.ScanDigits | lib/strtol.c:93-116 | The accumulator never wraps, and overflow is set exactly when the value exceeds an unsigned long; the branch for letters and its conversion to a byte never count. |
| Number.NoWrap | lib/strtol.c:109-115 | The cutoff test holds exactly when appending the digit would exceed an unsigned long. |
| Number.Strtol | lib/strtol.c:35-153 | By the kernel's rules, which know no letters, the signed value of the maximal digit run, clamped to a long; the end index; ERANGE exactly when clamped; no conversion gives 0 and index 0. |
| Number.StandardExactly | lib/strtol.c:28-33 | Value, end and range are those of section 7.20.1.4 of C99 if and only if the numeral is plain: decimal digits, a capital X in a prefix, and no 0X without a hexadecimal digit behind it. |
| Number.LettersLost | lib/strtol.c:98-103 | `ff` in base 16 converts to nothing, where C99 gives 255. |
| Number.ConvertsUniquely | lib/strtol.c:35-153 | Either set of rules determines the result for every string and base. |
| Number.CanConvert | lib/strtol.c:35-153 | Either gives one for every string and base. |
| Number.BadBaseIsTen | lib/strtol.c:47-48 | A base that is negative, 1 or above 36 counts as 10. |
| Number.Atoi | lib/number.c:12-15 | The conversion in base 10. |
| Number.AtoiSigned | lib/number.c:12-15 | Blanks, an optional sign and a numeral give the signed number, clamped to an int. |
| Number.ItoaUDec | lib/number.c:36-56 | Writes exactly the decimal numeral and a null character at the buffer position, for every unsigned int. |
| Number.AtoiOfNumeral | lib/number.c:12-56 | atoi inverts itoa on 0 to INT_MAX and gives INT_MAX above. |
| Symbols.HashSymbol | kscm/scheme/symbol.c:148-160 | The hash with 32-bit wrap-around at every step is the wrapped sum, and in range. |
| Symbols.SumWrapsOnce | kscm/scheme/symbol.c:148-160 | Wrapping at every step comes to wrapping the polynomial in 34 once. |
| Symbols.HashOfOne | kscm/scheme/symbol.c:148-160 | The hash of a name of one character, which is signed. |
| Symbols.SymbolEq | kscm/scheme/symbol.c:137-146 | Compares C strings for equality. |
| Symbols.EntryOnce | kscm/scheme/symbol.c:84-114 | A name sits in the table at most once, in the bucket of its hash. |
| Symbols.SymbolsDiffer | kscm/scheme/symbol.c:84-114 | Two names share a symbol exactly when they are equal. |
| Symbols.SymbolTable.MakeSymbol | kscm/scheme/symbol.c:84-114 | The object the table holds for the name, or a fresh one added; all other names keep theirs. |
| Symbols.SymbolTable.MakeAll | kscm/scheme/symbol.c:84-114 | Over any sequence of calls, same object if and only if same name. |
| Scanner.Port.GetChar | kscm/scheme/port.c:192-216 | Gives the character at the offset in the tag, or EOF at the null character, and advances. |
| Scanner.Lexer.Turn | kscm/scheme/read.c:354-525 | One turn of the scanner loop on the buffer is the step of the specification, look-ahead included. |
| Scanner.MakeTokenSeq | kscm/scheme/read.c:346-536 | The loop fills the token buffer with the scan of the input and leaves the port where the scan stops; no write leaves the token buffer or the text buffer when the tokens and the texts fit. |
| Scanner.WritesBound | kscm/scheme/read.c:354-529 | A scan puts no more characters into the text buffer than it takes from the port, and one. |
| Scanner.RunGrows | kscm/scheme/read.c:354-526 | Tokens made or begun are never dropped to fewer by the rest of a scan. |
| Parser.CreateList | kscm/scheme/read.c:202-257 | The list loop, dotted data and error exits included, on every token sequence; it always ends. |
| Parser.CreateVector | kscm/scheme/read.c:259-310 | The counting and the filling pass on every token sequence. |
| Parser.CountPass | kscm/scheme/read.c:265-283 | The counting pass. |
| Parser.CreateQuoted | kscm/scheme/read.c:312-341 | Quoted data: the parser on every token sequence. |
| QuoteReading.ReadsQuoted | kscm/scheme/read.c:312-341 | Reading n quote marks and the text of a datum gives (quote (quote ... d)), n deep, and stops behind the text, whatever the token buffer holds behind. |
| QuoteReading.ReadsQuotedInList | kscm/scheme/read.c:202-341 | The same inside a list: ('d) reads as the list of (quote d). |
| QuoteReading.ScansQuoted | kscm/scheme/read.c:461-463 | Each quote mark is a token of its own, and what follows is scanned as if nothing were before it. |
| QuoteReading.MarkScans | kscm/scheme/read.c:409-478 | The other marks: backquote, comma, comma-at and the sharp prefixes give their own token each. |
| Parser.TokenToObj | kscm/scheme/read.c:171-200 | Single tokens. |
| WellFormed.ParsesForm | kscm/scheme/read.c:202-341 | On every well-formed sequence, at every depth, each parser takes exactly one balanced datum, gives its value and leaves the cursor right behind it. |
| WellFormed.ParsesVector | kscm/scheme/read.c:259-310 | The length found by the counting pass is the number of slots filled. |
| WellFormed.CountsForm | kscm/scheme/read.c:265-283 | A datum counts as one slot at the vector's own depth and as none inside a nested datum. |
| WellFormed.ParsesTop | kscm/scheme/read.c:111-148 | read dispatches to the parser of the first token. |
| WellFormed.SecondTail | kscm/scheme/read.c:202-257 | A second datum behind a dotted tail replaces the cdr of the tail when that is a pair; otherwise the list is void. |
| WellFormed.OverfilledVector | kscm/scheme/read.c:223-241 | A malformed sequence on which more slots are filled than counted. |
| WellFormed.UnderfilledVector | kscm/scheme/read.c:223-241 | One on which fewer are. |
| Printer.ObjToString | kscm/scheme/display.c:43-127 | Writes exactly the text of the object and a null character, gives its length, and touches nothing else of the buffer. |
| Printer.CharTexts | kscm/scheme/display.c:47-65 | The blank prints as #\space, the newline as #\newline, any other character as itself behind #\. |
| Printer.CharTextsDiffer | kscm/scheme/display.c:47-65 | No two characters print alike. |
| Printer.StringText | kscm/scheme/display.c:43-127 | A string prints as itself between quote marks, nothing escaped. |
| Printer.NegativeText | kscm/scheme/display.c:43-127 | A negative integer prints as the unsigned number of its 32 bits. |
| Printer.ListToString | kscm/scheme/list.c:120-146 | The same for proper and dotted lists, by blanks that the last parenthesis overwrites. |
| Printer.VectorToString | kscm/scheme/vector.c:74-94 | The same for vectors; an empty one prints as #). |
| RoundTrip.ScanDatum | kscm/scheme/read.c:354-525 | Scanning the text of any datum inside a list yields exactly its tokens. |
| RoundTrip.ScansText | kscm/scheme/read.c:346-536 | Scanning the text of a whole datum yields its tokens and stops at its end: behind a bracketed datum whatever follows. |
| RoundTrip.FormOfGood | kscm/scheme/read.c:202-341 | The tokens of a datum are well formed, and their value is the datum. |
| RoundTrip.ReadsBack | kscm/scheme/read.c:111-148 | Reading the text of a datum gives the datum, whatever earlier calls left behind it in the token buffer. |
| RoundTrip.ReadsAsSymbol | kscm/scheme/read.c:499-521 | A plain word is one token, a symbol if and only if some character is neither a digit nor #. |
| ScanLaws.DecimalIsNumber | kscm/scheme/read.c:486-511 | Digits, a point and digits are one number. |
| ScanLaws.PointFirstIsNumber | kscm/scheme/read.c:486-511 | So are a point and digits. |
| ScanLaws.TwoPointsAreSymbol | kscm/scheme/read.c:492-493 | With a second point they are a symbol. |
| ScanLaws.WordBeforeParIsLost | kscm/scheme/read.c:367-371 | A word right before a left parenthesis leaves no token. |
| ScanLaws.AtSignIsLost | kscm/scheme/read.c:479-485 | An at sign inside a word leaves no character. |
| RoundTrip.Read | kscm/scheme/read.c:111-148 | The reader as the source composes it. |
| RoundTrip.PrintAndRead | kscm/scheme/read.c:95-148 | Printing into a buffer and reading the buffer gives the datum back. |
| Interning.Intern | kscm/scheme/read.c:176-178 | Making the symbols of a datum left to right gives an object whose symbols are those of the table, and the table only grows. |
| Interning.SameObject | kscm/scheme/symbol.c:84-114 | Objects over one table that read alike are the same object structure with identical symbol objects. |
| Interning.PrintAndReadObject | kscm/scheme/read.c:95-200 | Printing an object and reading the text gives the object back, with identical symbol objects. |
| Rational.LoopEnds | kscm/scheme/numb.c:144-160 | The jump back stops being taken if and only if both numbers are positive or they are equal; with a result other than zero if and only if, besides, they are not zero. |
| Rational.NegativeGrows | kscm/scheme/numb.c:154-154 | With a negative number below the other one, the difference grows by one at least in every round. |
| Rational.Gcd | kscm/scheme/numb.c:144-160 | On all numbers on which the loop ends the result is that of the first round that does not jump back; for positive ones it is the greatest common divisor. |
| Rational.MakeRational | kscm/scheme/numb.c:162-173 | The same ratio, in lowest terms, on all numbers on which the loop ends with a divisor other than zero. |
| Rational.SameCommon | kscm/scheme/numb.c:154-154 | A step keeps the common divisors. |

## Left out

- Boot and port assembly, console, keyboard, `cpuid` and port primitives: hardware.
- TLB invalidation, the stack relocation of boot (mm/memory.c:123-135) and the swap branch of `put_page`
  (mm/memory.c:197-200).
- CompilerCorrect.ProgramCorrect: covers programs without user procedure calls. The machine does not reload
  the stack top when it resumes a continuation, and no argument-loading header is emitted for lambda, so with
  calls compiled programs do not have the meaning of R5RS; `ProcedureCalls`, `TailCalls` and `CallDiscipline`
  say what they do instead.
- ProcedureCalls.CallReturns: one call of a procedure that makes no calls itself, or (`TailCalls`) only tail
  calls; calls nested deeper are covered by `CallDiscipline`, which speaks of registers and chain only.
- KeywordSearch.SearchKeyword: the C loop reads behind the end of keywords shorter than the name; the model
  reads no character there that a name can have.
- Compiler: the error exit of `Case` and `Let` is the result None; tools/compiler/src/Convert.hs and the
  rendering to C are not part of this model, nor are the label text's uses by an assembler beyond one name
  space for a program.
- Svm: `reg_argc`, the failure exit of a continuation allocation, and `builtin_add`, which pops its operands
  itself, are not modelled; builtins are functions of their operands.
- Evaluator: environments follow kscm/scheme/env.c with frames as maps; evaluation has fuel, and both
  evaluators run out of it at the same point. What C leaves undefined is an explicit outcome.
- Interpreter: cells are values, so that the analyser's patching of cdrs is appending to a list; aliasing of
  cells is not modelled.
- EvalEquivalence.EvalAgrees: asks for operator names that are keywords or no prefixes of one, and for
  nonempty sequences; the stub forms (`let`, `let*`, `letrec`, `do`, `case`, `delay`, `quasiquote`) are out.
  `apply` is a case of both evaluators; the primitive `eval` is out, because it evaluates objects made at run
  time, which need not be well-formed forms, in environments that are values.
- EvalEquivalence.ApplyAgrees: primitives other than `apply` are functions of their arguments that do not look
  into closures.
- Malloc: pages come from a list of answers that ascend (`RegionSupply` shows that the heap region gives such
  answers); `malloc` beyond the rounding ignores 32-bit address wrap, which regions below 1 GB rule out.
- Malloc.KernelHeap.Kmalloc: must not be called with no free block and no page to get, where the C code writes
  through a null pointer.
- Malloc.KernelHeap.Kfree: needs a free block to start its search from, where the C code reads through a null
  pointer.
- Gc: forwarding, the entry-table barrier, `_free_region`, reuse of freed regions and collection.
- Scanner.MakeTokenSeq: strings and character constants are out (include/ctype.h:51 evaluates its argument
  twice), as are quote marks glued to the end of a word, which make a token of what an earlier call left in
  the buffer, and input that ends behind `#` or `,`, where the port is read past its end. Token texts are
  values; of the 64 K text buffer the model has the number of characters written.
- Parser.CreateList: cells are values; patching the cdr of the last pair is appending, and a datum behind a
  dotted tail replaces the tail's cdr. Tokens behind the buffer are not modelled.
- Parser.CreateVector: slots are a sequence beside the counted length, so that filling more slots than were
  counted shows as a longer sequence.
- Syntax: in the scanner and the parsers a symbol stands for its name; `Interning` makes the symbol objects
  after parsing, in the order the parsers would, rather than token by token.
- Printer.ObjToString: procedures, environments, ports and void, which have no text of their own or an address in
  it, and symbols and strings with a null character.
- RoundTrip.PrintAndRead: negative integers (printed as unsigned), empty vectors, names with points, quotes or
  blanks, strings and characters do not read back and are outside its domain.
- Symbols.SymbolTable.MakeSymbol: allocation of the name is not modelled (the source reserves no room for the
  null character).
- Rational.Gcd: asks for numbers on which the loop ends; on others the C code does not end or overflows an int.
- Rational: floating-point and the argument checks of the arithmetic primitives.
- `append`, `list`, `reverse`, the string comparisons, kscm/scheme/hash.c, the generated LALR tables and the
  Alex lexer, and the rest of the `printf` family.
