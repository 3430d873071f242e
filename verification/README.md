# Verified model of icn-covm

icn-covm is a cooperative virtual machine with a governance language. This project models the parts of it that carry the most
logic and proves what they are for. All of it is Dafny; `dafny verify dfyconfig.toml` checks everything.

1. **Two executors.** A program is a tree of operations. It is either interpreted as a tree or compiled to flat bytecode with
   absolute, backpatched jumps (`README.md:119-124` of the repository offers both as modes of the same machine). The compiler is
   modelled as the class that pushes, truncates and patches instructions, and is proved to produce position-indexed code. That
   code is proved to simulate the tree interpreter in both directions: same end, same error, same stack, same user memory, same
   messages and events, and divergence exactly when the tree diverges. Counted loops have three lowerings. The one that keeps its
   counter on the operand stack (1000 iterations, at most five operations) is wrong for some bodies: `[push 2]` ends as a tree and
   never ends as bytecode. `LoopGuardExact` says for which loops the lowering can be trusted whatever the body, and `SimOps` covers
   the guarded loops whose body is neutral on the operand stack; `Checked` is a static check for whole programs. Even with a neutral body
   an error inside such a loop finds the counter on the stack: `StackAtError` says which stack it finds, `SameStackExact` when it is
   the same, and `ErrorStackExact` for which loops it always is.
2. **Liquid delegation.** A map from voters to delegates with a cycle-detecting walk before each insertion.
3. **The DAG ledger.** Traversals over a graph that may have cycles and missing parents, diff and import as a synchronisation
   protocol, and the three governance steps that append nodes.
4. **The indentation parser.** Mutually recursive block parsers over one line cursor, with a printer: a tree of statements, `if`,
   `while`, `loop`, `match` and `def` comes back from its printed form *if and only if* it is canonical. The dangling `else` is the
   interesting exception: an `else:` line is taken by whichever `if` ended last, at any indent. Around it the top loop with its
   governance and template blocks, and which directive decides each setting.
5. **The transactional store.** An overlay with tombstones that refines a plain map with one saved snapshot.

## How to read it

| files | content |
|---|---|
| Values, Ast, TreeVm, TreeFacts, ValueLaws | values, operation trees, the tree interpreter with fuel, fuel and frame lemmas, the laws values and primitives obey |
| Bytecode, CodeGen, Compiler, CodeFacts, Interpreter | instructions and steps, position-indexed code, the backpatching compiler class, relocation and function table, the interpreter class |
| ErrorStack, Simulation, CompilerCorrectness, LoopGuard, StackShape | the stack at an error, the simulation, whole-program theorems, the stack-counter loops, a static check |
| Delegation | delegation chains and the handler |
| Graph, Ledger, Sync, Governance, GovernanceRuns | reachability, the ledger class, synchronisation, governance steps, what whole runs leave in the ledger |
| ParserSpec, Parser, Printer, RoundTrip, LineCount, Exactness, ImplicitForms, BlankLines | the block parsers as functions and as loops, the printer, both directions of the round trip, texts that are not printed, refused texts, blank lines |
| Lifecycle, Roles, ParseDsl, ProgramRoundTrip, ProgramText | configuration and templates, required roles, the top loop, whole programs and whole texts |
| Storage | the transactional store |

Numbers are exact reals, and how a number is written as text is a parameter (`NumberText`). Node hashes are an arbitrary function of
the hashed fields; a ledger file is a sequence of nodes and unreadable lines. A line of program text is its indent and a token. The
clock, the vote count and the text of log messages are parameters of the steps or are dropped.

## Model

| member | source | states |
|---|---|---|
| Ast.TempsDistinct | crates/icn-covm/src/bytecode.rs:841-845 | the memory cells of loop counters and match values never collide: not with each other, not across addresses |
| ValueLaws.AdditionLaws | crates/icn-covm/src/typed.rs:92-122 | on numbers addition is commutative and associative with the unit zero, and subtraction undoes it |
| ValueLaws.MultiplicationLaws | crates/icn-covm/src/typed.rs:124-176 | multiplication is commutative with the unit one, distributes over addition, division by anything but zero undoes it, and division by zero is an error |
| ValueLaws.RemainderLaw | crates/icn-covm/src/typed.rs:163-176 | x is a whole number of times y and the remainder, which is smaller than y and does not have the opposite sign of x |
| ValueLaws.OrderLaws | crates/icn-covm/src/typed.rs:198-223 | on numbers and on texts exactly one of less, same and greater holds, greater is less the other way round, less is transitive |
| ValueLaws.PrefixLess | crates/icn-covm/src/typed.rs:212-223 | a proper beginning of a text is less than the text |
| ValueLaws.EqualityLaws | crates/icn-covm/src/typed.rs:179-196 | equality never fails, is reflexive and symmetric, exact on texts and truth values, within 2^-52 on numbers, and sets null apart |
| ValueLaws.FalseyIsNeutral | crates/icn-covm/src/typed.rs:47-54 | what counts as false is exactly what addition does not notice |
| ValueLaws.LogicLaws | crates/icn-covm/src/typed.rs:226-243 | conjunction, disjunction and negation follow what counts as true, with the laws of De Morgan |
| ValueLaws.BranchLaws | crates/icn-covm/src/vm/vm.rs:394-412 | a test on a conjunction takes the branch that the tests on both values agree to take, and on a negation the other one |
| ValueLaws.TextLaws | crates/icn-covm/src/typed.rs:92-114 | adding to a text puts one text behind the other, whatever the other value is written as |
| ValueLaws.RepeatLaws | crates/icn-covm/src/typed.rs:124-145 | multiplying a text repeats it: once gives the text, the repetitions add up, fractions do not count, either order of the operands |
| ValueLaws.RepeatLimit | crates/icn-covm/src/typed.rs:124-145 | negative counts give the empty text, more than a thousand repetitions an error |
| ValueLaws.CoercionLaws | crates/icn-covm/src/typed.rs:57-70 | how truth values, null and texts count as numbers, and that other texts are an error |
| ValueLaws.OperandOrder | crates/icn-covm/src/bytecode.rs:1023-1029 | the operand below the top is the left one |
| ValueLaws.SwapLaws | crates/icn-covm/src/bytecode.rs:1104-1108 | `a b swap` is `b a`, and `a b swap pop` leaves b |
| ValueLaws.DupPopLaws | crates/icn-covm/src/bytecode.rs:1094-1103 | `a pop` is nothing and `a dup` is `a a` |
| ValueLaws.MemoryLaws | crates/icn-covm/src/bytecode.rs:1004-1015 | a stored value is loaded again from its own cell and no other, and an unknown cell is an error that changes nothing |
| ValueLaws.MessageLaws | crates/icn-covm/src/bytecode.rs:1044-1053 | messages and events are appended in the order they are sent and change nothing else |
| ValueLaws.UnderflowExact | crates/icn-covm/src/bytecode.rs:999-1164 | a primitive reports an underflow if and only if it lacks operands, and a failing primitive leaves memory, messages and events alone |
| TreeFacts.SelectFirst | crates/icn-covm/src/vm/vm.rs:573-590 | a match runs the first case that equals its value |
| TreeFacts.SelectDefault | crates/icn-covm/src/vm/vm.rs:585-590 | the default, or nothing, is run only when no case equals the value |
| TreeFacts.MoreFuel | crates/icn-covm/src/vm/vm.rs:311-700 | a tree evaluation that ends gives the same answer with any larger fuel, so fuel is only a way to speak of divergence |
| TreeFacts.ExecFrame | crates/icn-covm/src/vm/vm.rs:358-560 | a primitive that does not run out of operands acts the same on top of any other values |
| TreeFacts.Frame | crates/icn-covm/src/vm/vm.rs:311-700 | the same for whole blocks: values below the operands are never touched |
| ErrorStack.StackAtError | crates/icn-covm/src/bytecode.rs:792-833 | when a block fails, the compiled program has the tree interpreter's stack with one counter put in for every stack-counter loop that is running |
| ErrorStack.InsertedSize | crates/icn-covm/src/bytecode.rs:794-803 | so the two stacks differ in length by the number of running stack-counter loops, and are equal if and only if none is running |
| ErrorStack.LiveFrame | crates/icn-covm/src/vm/vm.rs:311-700 | values below the operands do not change in which loops a block fails |
| ErrorStack.NoneLive | crates/icn-covm/src/bytecode.rs:782-882 | a block without stack-counter loops never fails inside one |
| Bytecode.EndUnique | crates/icn-covm/src/bytecode.rs:985-994 | a run that has ended stays as it is, so two runs that end, end alike |
| CodeGen.Code | crates/icn-covm/src/bytecode.rs:446-710 | the length of generated code does not depend on the address it is generated for |
| Compiler.BytecodeCompiler.Compile | crates/icn-covm/src/bytecode.rs:386-396 | the backpatching compiler yields exactly the position-indexed code, with the function table of the first pass |
| Compiler.BytecodeCompiler.PreProcessFunctions | crates/icn-covm/src/bytecode.rs:399-443 | the first pass leaves the instructions as they were and enters each definition where definitions alone would put it |
| Compiler.BytecodeCompiler.CompileOps | crates/icn-covm/src/bytecode.rs:446-710 | earlier instructions are untouched and the code for the current address is appended, with no placeholder left |
| Compiler.BytecodeCompiler.CompileIf | crates/icn-covm/src/bytecode.rs:713-754 | both jumps of an `if` end patched to the addresses the position-indexed code has |
| Compiler.BytecodeCompiler.CompileThen | crates/icn-covm/src/bytecode.rs:714-722 | condition, open test and then branch stand behind the earlier code, and the test is where it is reported |
| Compiler.BytecodeCompiler.CompileElse | crates/icn-covm/src/bytecode.rs:724-744 | the test is patched to the else branch and the skip jump past it |
| Compiler.BytecodeCompiler.CompileWhile | crates/icn-covm/src/bytecode.rs:757-779 | the exit jump is patched past the backward jump |
| Compiler.BytecodeCompiler.CompileLoop | crates/icn-covm/src/bytecode.rs:782-882 | the lowering is chosen by count and body length, and each appends its own code |
| Compiler.BytecodeCompiler.CompileUnrolled | crates/icn-covm/src/bytecode.rs:784-789 | one copy of the body per iteration, each compiled for its own address |
| Compiler.BytecodeCompiler.CompileFast | crates/icn-covm/src/bytecode.rs:792-833 | the stack-counter loop, its exit jump patched to the final pop |
| Compiler.BytecodeCompiler.CompileSlow | crates/icn-covm/src/bytecode.rs:837-881 | the memory-counter loop, its counter named after the address of its first store |
| Compiler.BytecodeCompiler.CompileDef | crates/icn-covm/src/bytecode.rs:885-899 | entry, body and return, or nothing when the name is not in the table |
| Compiler.BytecodeCompiler.CompileMatch | crates/icn-covm/src/bytecode.rs:902-957 | value, store, cases and default, every exit jump patched past the end |
| Compiler.BytecodeCompiler.CompileCases | crates/icn-covm/src/bytecode.rs:912-943 | the cases with open exits, and exactly the addresses of those exits |
| Compiler.BytecodeCompiler.PatchExits | crates/icn-covm/src/bytecode.rs:950-956 | patching the collected exits gives the code of the cases with the right exit and changes nothing else |
| Compiler.ExitOnly | crates/icn-covm/src/bytecode.rs:950-956 | where a match exits changes its code at the exit jumps and nowhere else |
| Compiler.CodeAppend | crates/icn-covm/src/bytecode.rs:446-448 | compiling two lists in a row is compiling their concatenation |
| CodeFacts.CodeMoves | crates/icn-covm/src/bytecode.rs:713-957 | relocation: compiled k addresses further on, code is the same with jumps and its own cells moved by k; every jump lands inside the block or just behind it, and every other cell it uses is one the program names itself |
| CodeFacts.BlocksCarried | crates/icn-covm/src/bytecode.rs:662-691 | `if passed` and `else` blocks become one instruction each, told apart, which keeps the pushes in their places and nothing else |
| CodeFacts.LenGrows | crates/icn-covm/src/bytecode.rs:885-899 | with more functions known code only gets longer, and stays as long if and only if no definition inside becomes known |
| CodeFacts.EntriesKeys | crates/icn-covm/src/bytecode.rs:415-439 | the table names exactly the top-level definitions |
| CodeFacts.EntryOf | crates/icn-covm/src/bytecode.rs:415-439 | the first pass enters the last definition of a name at the length it measured for the definitions before it, nested definitions included |
| CodeFacts.PrefixLen | crates/icn-covm/src/bytecode.rs:399-443 | the final code before a definition is as long as the first pass measured if and only if all of it was foreseen |
| CodeFacts.FunctionTableExact | crates/icn-covm/src/bytecode.rs:399-443 | a function stands in the final code as entry, body and return, and its table entry points there if and only if everything before it was foreseen: only definitions emit code, and none of them holds a definition that becomes known later |
| Interpreter.BytecodeInterpreter.constructor | crates/icn-covm/src/bytecode.rs:980-982 | the interpreter starts at address zero with the given machine and program |
| Interpreter.BytecodeInterpreter.ExecuteInstruction | crates/icn-covm/src/bytecode.rs:997-1164 | one instruction makes the step of the small-step machine, error included |
| Interpreter.BytecodeInterpreter.Execute | crates/icn-covm/src/bytecode.rs:985-994 | the loop reports finished, failed or still running exactly as the run of that many steps does |
| Interpreter.CompileAndRun | crates/icn-covm/src/bytecode.rs:386-396 | compiling and running reports only ends that the tree interpreter reaches: the same state, or the same error with its stack up to the counters of running loops |
| Interpreter.CheckAndRun | crates/icn-covm/src/bytecode.rs:386-396 | the same behind a check that can be made of any program |
| Interpreter.DefinitionStops | crates/icn-covm/src/bytecode.rs:1080-1087 | a program that starts with a definition stops there as bytecode, while the tree interpreter passes over it |
| Simulation.SimOps | crates/icn-covm/src/bytecode.rs:446-957 | three-way simulation: code standing anywhere leaves, stops with the same error and exactly the predicted stack, or is still inside after at least `fuel` steps, as the tree evaluation ends, fails or runs out of fuel; cells of other addresses are kept |
| Simulation.SimIf | crates/icn-covm/src/bytecode.rs:713-754 | the simulation for `if`, with and without else |
| Simulation.SimWhile | crates/icn-covm/src/bytecode.rs:757-779 | the simulation for `while`, each iteration costing at least one step |
| Simulation.SimTimes | crates/icn-covm/src/bytecode.rs:784-789 | an unrolled loop runs its body exactly count times |
| Simulation.SimFast | crates/icn-covm/src/bytecode.rs:792-833 | a stack-counter loop with a neutral body runs it exactly count times and gives the operand stack back; an error in the body finds the counter under the body's operands |
| Simulation.SimSlow | crates/icn-covm/src/bytecode.rs:837-881 | a memory-counter loop runs its body exactly count times, whatever the body |
| Simulation.SimMatch | crates/icn-covm/src/bytecode.rs:902-957 | the simulation for `match`: value, cell, then the first equal case or the default |
| Simulation.SimCase | crates/icn-covm/src/bytecode.rs:916-943 | one case: its body and the exit, or the next case |
| CompilerCorrectness.Simulate | crates/icn-covm/src/bytecode.rs:985-994 | the simulation for whole programs from address zero, with the exact stack at an error |
| CompilerCorrectness.Forward | crates/icn-covm/src/bytecode.rs:386-396 | if the tree interpreter ends, so does the compiled program, in the same way: same state, or same error, effects and stack with the counters of running stack-counter loops put in |
| CompilerCorrectness.Backward | crates/icn-covm/src/bytecode.rs:985-994 | if the compiled program ends within n steps, the tree interpreter ends in the same way with fuel n + 1 |
| CompilerCorrectness.SameStackExact | crates/icn-covm/src/bytecode.rs:985-994 | at an error the two operand stacks are the same if and only if no stack-counter loop is running |
| CompilerCorrectness.DivergesAlike | crates/icn-covm/src/bytecode.rs:757-779 | a program diverges as a tree if and only if it diverges as bytecode |
| LoopGuard.LoopGuardExact | crates/icn-covm/src/bytecode.rs:791-833 | every body of a given length agrees with the tree interpreter if and only if the guard (count 1000, one to five operations) does not hold |
| LoopGuard.PusherDisagrees | crates/icn-covm/src/bytecode.rs:791-833 | for every guarded length a body on which the tree ends and the bytecode never does |
| LoopGuard.UnguardedAgrees | crates/icn-covm/src/bytecode.rs:782-789 | a loop outside the guard agrees from every state, and with the same stack at every error when its body holds no stack-counter loop |
| LoopGuard.LoweringExact | crates/icn-covm/src/bytecode.rs:784-881 | up to five iterations are unrolled, a thousand iterations of at most five operations keep the counter on the stack, all others in memory |
| LoopGuard.ErrorStackExact | crates/icn-covm/src/bytecode.rs:791-833 | among the loops the simulation covers, without such loops inside, every body of a given length finds the tree interpreter's stack at every error if and only if the guard does not hold |
| LoopGuard.ProberError | crates/icn-covm/src/bytecode.rs:791-833 | for every guarded length a checked loop on which both executors report the same undefined variable, the tree with an empty stack and the bytecode with the counter 1000 on it |
| StackShape.ShapeSound | crates/icn-covm/src/vm/vm.rs:311-700 | a block the depth check accepts never underflows and ends at the predicted depth |
| StackShape.ShapeNeutral | crates/icn-covm/src/bytecode.rs:793-794 | a body the depth check accepts is neutral from every state |
| StackShape.CheckedSupported | crates/icn-covm/src/bytecode.rs:791-833 | a decidable check of a whole program under which the simulation applies to it |
| Delegation.ChainBound | crates/icn-covm/src/governance/liquid_delegate.rs:66-81 | no chain of an acyclic map is longer than the map |
| Delegation.FinalDelegate | crates/icn-covm/src/governance/liquid_delegate.rs:66-81 | in an acyclic map every chain ends, at one voter only, who has not delegated |
| Delegation.AcceptExact | crates/icn-covm/src/governance/liquid_delegate.rs:59-84 | replacing the delegation of `from` keeps the map acyclic if and only if the chain of `to` does not pass through `from` |
| Delegation.DelegateEffect | crates/icn-covm/src/governance/liquid_delegate.rs:83-84 | accepting moves exactly those whose chain passes through `from`, to the final delegate of `to` |
| Delegation.RevokeEffect | crates/icn-covm/src/governance/liquid_delegate.rs:47-57 | revoking keeps the map acyclic and moves exactly those whose chain passed through `from`, to `from` |
| Delegation.RequestExact | crates/icn-covm/src/governance/liquid_delegate.rs:21-101 | a request is refused if and only if it names nobody, or delegates to somebody whose chain has no end or meets `from`; a revocation never is; a refusal changes nothing; an accepted request sets or removes exactly the delegation of `from`, stores the size, and leaves one event |
| Delegation.EventFor | crates/icn-covm/src/governance/liquid_delegate.rs:49-57 | the event tells a delegation, a revocation and a revocation of nothing apart, and names the voters |
| Delegation.LastAccepted | crates/icn-covm/src/governance/liquid_delegate.rs:21-101 | after any run a voter's delegation is what the last of their requests that was accepted asked for |
| Delegation.NeverAccepted | crates/icn-covm/src/governance/liquid_delegate.rs:21-101 | a voter none of whose requests was accepted has the delegation they had before the run |
| Delegation.LiquidDelegateHandler.Handle | crates/icn-covm/src/governance/liquid_delegate.rs:21-101 | on every stored map the handler performs the request or refuses it, and changes nothing on refusal; count and events included |
| Delegation.LiquidDelegateHandler.Walk | crates/icn-covm/src/governance/liquid_delegate.rs:59-81 | the walk terminates on every stored map, cyclic ones and ones with empty names included, and reports a cycle if and only if the chain of `to` does not end or meets `from` |
| Delegation.LiquidDelegateHandler.constructor | crates/icn-covm/src/governance/liquid_delegate.rs:41-44 | a machine without stored delegations starts from the empty map |
| Delegation.RespondSound | crates/icn-covm/src/governance/liquid_delegate.rs:21-99 | on an acyclic map a non-empty request is accepted if and only if the updated map is acyclic, and the stored count stays the size |
| Delegation.EveryRunSound | crates/icn-covm/src/governance/liquid_delegate.rs:21-99 | every run keeps the map acyclic and the count equal to its size |
| Delegation.RequestEffect | crates/icn-covm/src/governance/liquid_delegate.rs:47-84 | how an accepted request, of either kind, moves everybody's final delegate |
| Delegation.ReachableDelegates | crates/icn-covm/src/governance/liquid_delegate.rs:21-99 | after any run from the empty map each voter has one final delegate, and one more request moves exactly the right ones |
| Ledger.FindById | crates/icn-ledger/src/lib.rs:147-149 | the node found has the id and is in the ledger, and there is one whenever the id occurs |
| Ledger.FindsFirst | crates/icn-ledger/src/lib.rs:147-149 | it is the first such node |
| Ledger.SealKeeps | crates/icn-ledger/src/lib.rs:136-141 | the appended node has the drafted parents, time, namespace and data, under their hash |
| Ledger.DagLedger.Append | crates/icn-ledger/src/lib.rs:136-141 | the hashed node is added at the end and its id returned |
| Ledger.DagLedger.ImportFromFile | crates/icn-ledger/src/lib.rs:326-358 | the ledger becomes the merge with the readable nodes of the file, and the count is the number of nodes added |
| Ledger.DagLedger.ExportSelected | crates/icn-ledger/src/lib.rs:366-376 | on every ledger, cycles and missing parents included: exactly the present nodes reachable from the start ids, each id once, every node but a start behind one that names it as parent, and parent-closed when the ledger is |
| Ledger.DagLedger.ExportRecursive | crates/icn-ledger/src/lib.rs:379-400 | what was visited stays visited, every new visit is reachable and has its parents visited, and the result lists the visited nodes |
| Ledger.DagLedger.ExportParents | crates/icn-ledger/src/lib.rs:395-398 | the same for the parents of one node |
| Ledger.ExportClosed | crates/icn-ledger/src/lib.rs:366-400 | reachability from the start ids on a parent-closed ledger is parent-closed |
| Ledger.DagLedger.Trace | crates/icn-ledger/src/lib.rs:276-281 | succeeds if and only if every node reachable from the given one has all its parents present, and then lists each reachable id exactly once, each but the first behind a node that names it as parent |
| Ledger.DagLedger.TraceRecursive | crates/icn-ledger/src/lib.rs:284-309 | progress of the trace, or a proof that a parent is missing |
| Ledger.DagLedger.TraceParents | crates/icn-ledger/src/lib.rs:300-306 | the same for the parents of one node |
| Ledger.Without | crates/icn-ledger/src/lib.rs:440-452 | one side of a diff holds exactly the nodes whose ids the other ledger lacks |
| Ledger.DiffSides | crates/icn-ledger/src/lib.rs:432-462 | a node is listed as added or removed if and only if the other ledger lacks its id, the common ids are in both, and the diff the other way swaps the sides |
| Sync.MergeIds | crates/icn-ledger/src/lib.rs:338-355 | importing keeps what was there, gives the union of the ids, and counts exactly the distinct new ids |
| Sync.MergeNothing | crates/icn-ledger/src/lib.rs:343-346 | importing known ids changes nothing |
| Sync.MergeFinds | crates/icn-ledger/src/lib.rs:338-355 | after an import every id is found with the node it had, and every new id with the first incoming node of that id |
| Sync.ParsedParts | crates/icn-ledger/src/lib.rs:338-355 | unreadable lines are passed over wherever they stand, and the nodes come in the order of the file |
| Sync.SyncOnce | crates/icn-ledger/src/lib.rs:432-480 | diff, export and import give the union and the exact count; a repeat imports nothing and the next diff is empty |
| Sync.SyncBothWays | crates/icn-ledger/src/lib.rs:432-480 | exchanged both ways, the two ledgers hold the same ids |
| Sync.SyncOrder | crates/icn-ledger/src/lib.rs:326-358 | parents-first order of both ledgers is kept by the exchange |
| Sync.MergeOrder | crates/icn-ledger/src/lib.rs:338-355 | the order is kept node by node while a diff is imported |
| Governance.FindProposalNode | crates/icn-ledger/src/lib.rs:252-259 | the parent found for a vote is the first node that created the proposal, and none is found only if there is no such node |
| Governance.VoteIds | crates/icn-ledger/src/lib.rs:262-273 | the parents found for an execution are nodes of the ledger |
| Governance.VotesExact | crates/icn-ledger/src/lib.rs:262-273 | every vote on the proposal stands among them once, in the order of the ledger, and nothing else does |
| Governance.Record | crates/icn-covm/src/cli/proposal.rs:338-366 | one governance step appends the node it describes |
| GovernanceRuns.StepsRecorded | crates/icn-covm/src/cli/proposal.rs:237-252 | every step of a run leaves one node, in order, with the proposal, the person, the vote or the outcome, the time and the namespace of the step; yes, no, abstain and other votes are told apart |
| GovernanceRuns.VoteParent | crates/icn-covm/src/cli/proposal.rs:347-366 | in every run a vote cast after its proposal was created has the first creating node as its only parent, and a vote cast before none |
| GovernanceRuns.ExecutionParents | crates/icn-covm/src/cli/proposal.rs:478-498 | in every run an execution has exactly the earlier votes on its proposal as parents, once each and in order |
| GovernanceRuns.PlacesExact | crates/icn-ledger/src/lib.rs:262-273 | the places of the votes, in order |
| GovernanceRuns.ExecutionTrace | crates/icn-ledger/src/lib.rs:276-309 | in every run without hash collisions the trace of an execution lists itself, exactly the earlier votes on its proposal, and the proposal's first creation if such a vote came after it |
| GovernanceRuns.NoCollisions | crates/icn-ledger/src/lib.rs:45-50 | a hash without collisions makes every run free of them |
| GovernanceRuns.CollisionMisleads | crates/icn-ledger/src/lib.rs:147-149 | with colliding vote ids the trace of the execution of one proposal leads to the creation of another |
| Governance.RunsParentsFirst | crates/icn-covm/src/cli/proposal.rs:237-252 | in every run each parent id belongs to a strictly earlier node, whatever the hash |
| Governance.PathEarlier | crates/icn-covm/src/cli/proposal.rs:477-498 | along any parent path the place in the ledger goes down |
| Governance.RunsAcyclic | crates/icn-covm/src/cli/proposal.rs:477-498 | the parent graph of every run is acyclic |
| Governance.RunsTraceable | crates/icn-ledger/src/lib.rs:276-309 | tracing any node of any run finds every parent |
| ParserSpec.ParseBlock | crates/icn-covm/src/compiler/line_parser.rs:667-784 | terminates on all lines; the cursor never goes back and never passes the end |
| ParserSpec.ParseItem | crates/icn-covm/src/compiler/line_parser.rs:694-779 | every item of a block moves the cursor forward |
| ParserSpec.ParseIf | crates/icn-covm/src/compiler/if_block.rs:5-37 | an `if` moves the cursor forward and stays within the lines |
| ParserSpec.ParseWhile | crates/icn-covm/src/compiler/while_block.rs:5-78 | the same for `while` |
| ParserSpec.ParseMatch | crates/icn-covm/src/compiler/match_block.rs:5-85 | the same for `match` |
| Parser.Block | crates/icn-covm/src/compiler/line_parser.rs:667-784 | the loop with its shared cursor computes the recursive reading |
| Parser.Item | crates/icn-covm/src/compiler/line_parser.rs:694-779 | one line or nested block, errors included |
| Parser.Collect | crates/icn-covm/src/compiler/line_parser.rs:705-731 | the lines an `if passed:` or `else:` block takes out |
| Parser.LoopBlock | crates/icn-covm/src/compiler/loop_block.rs:5-39 | a loop header and its block |
| Parser.FunctionBlock | crates/icn-covm/src/compiler/function_block.rs:5-33 | a definition header and its block |
| Parser.IfBlock | crates/icn-covm/src/compiler/if_block.rs:5-37 | an `if`, with the else line looked for where the then block stopped |
| Parser.WhileBlock | crates/icn-covm/src/compiler/while_block.rs:5-78 | a `while` with explicit or implicit condition |
| Parser.MatchBlock | crates/icn-covm/src/compiler/match_block.rs:5-85 | a `match` with its sections in any order |
| RoundTrip.BlockBack | crates/icn-covm/src/compiler/line_parser.rs:667-784 | parsing a printed canonical block gives the block back and stops right behind it, whatever else stands around it |
| RoundTrip.HeaderBack | crates/icn-covm/src/compiler/line_parser.rs:694-705 | the same for one nested block |
| RoundTrip.IfBack | crates/icn-covm/src/compiler/if_block.rs:17-30 | the same for `if` |
| RoundTrip.WhileBack | crates/icn-covm/src/compiler/while_block.rs:18-77 | the same for `while` |
| RoundTrip.MatchBack | crates/icn-covm/src/compiler/match_block.rs:18-84 | the same for `match` |
| LineCount.BlockWeight | crates/icn-covm/src/compiler/line_parser.rs:667-784 | on lines where every `while` and `match` opens with its first section, as printed ones do: a parsed block never stands for more lines than were read, and it stops at a line that closes it |
| LineCount.WhileItemsWeight | crates/icn-covm/src/compiler/while_block.rs:18-69 | on such lines: operations are only added to a body, and a replaced condition leaves its line unaccounted for |
| LineCount.MatchItemsWeight | crates/icn-covm/src/compiler/match_block.rs:18-74 | on such lines: cases are only added, and a replaced value leaves its line unaccounted for |
| Exactness.BlockExact | crates/icn-covm/src/compiler/if_block.rs:20-30 | a printed block that is read back as itself is canonical, and an else line behind it finds no open `if` at its end |
| Exactness.RoundTripExact | crates/icn-covm/src/compiler/line_parser.rs:667-784 | for every tree without `if passed:` and stray `else:` blocks: the printed lines are parsed to that tree and all read if and only if the tree is canonical |
| Exactness.DanglingElse | crates/icn-covm/src/compiler/if_block.rs:20-30 | an else behind a then block that ends in an `if` goes to that inner `if`, with nothing under it, and what stands under the else line is read as the rest of the then block, at every indent |
| ImplicitForms.ImplicitWhile | crates/icn-covm/src/compiler/while_block.rs:71-75 | a printed `while` without its condition section comes back with the first operation of the body as condition |
| ImplicitForms.EmptyWhile | crates/icn-covm/src/compiler/while_block.rs:71-77 | a `while` with nothing under it has neither condition nor body |
| ImplicitForms.ImplicitMatch | crates/icn-covm/src/compiler/match_block.rs:66-73 | a printed `match` with its value directly under the header comes back |
| ImplicitForms.TwoConditions | crates/icn-covm/src/compiler/while_block.rs:28-34 | of two condition sections the second counts |
| ImplicitForms.SectionKeeps | crates/icn-covm/src/compiler/match_block.rs:29-65 | a value or default section takes the place of an earlier one, a case is added behind the earlier ones |
| ImplicitForms.TakenOut | crates/icn-covm/src/compiler/line_parser.rs:705-758 | an `if passed:` or `else:` block that is last in its block and deep enough comes back as such a block |
| ImplicitForms.BlockRefused | crates/icn-covm/src/compiler/line_parser.rs:694-779 | a block is refused at its first line that no block accepts, with the error for that line |
| ImplicitForms.WhileRefused | crates/icn-covm/src/compiler/while_block.rs:31-68 | the same for the lines under a `while` |
| ImplicitForms.MatchRefused | crates/icn-covm/src/compiler/match_block.rs:36-73 | the same for the lines under a `match` |
| ImplicitForms.NoValue | crates/icn-covm/src/compiler/match_block.rs:76-78 | a match with sections but no value is refused for that |
| BlankLines.BlankBlock | crates/icn-covm/src/compiler/line_parser.rs:683-690 | a blank line anywhere, if it is deeper than every `while` and `match` header, changes nothing that is read |
| BlankLines.BlankInWhile | crates/icn-covm/src/compiler/while_block.rs:19-25 | a blank line between the statements of a `while` is passed over if and only if it is deeper than the header; otherwise the loop ends there |
| BlankLines.BlankEndsWhile | crates/icn-covm/src/compiler/while_block.rs:20-25 | a blank line that is not deeper than a `while` ends it, and the rest of its body is read as what follows the loop |
| Lifecycle.LifecycleConfig.constructor | crates/icn-covm/src/compiler/parse_dsl.rs:8-20 | a new configuration has nothing set |
| Lifecycle.LifecycleConfig.MergeFrom | crates/icn-covm/src/compiler/parse_dsl.rs:27-43 | fills what is unset and keeps what is set |
| Lifecycle.LifecycleConfig.Assign | crates/icn-covm/src/compiler/parse_dsl.rs:219-290 | one setting overwrites its field, a role is added |
| Lifecycle.ScopeSound | crates/icn-covm/src/compiler/parse_dsl.rs:138-164 | inside a template block the draft holds the last value set since the block was opened |
| Lifecycle.TemplateSound | crates/icn-covm/src/compiler/parse_dsl.rs:159-164 | a known template holds what the latest block of that name set |
| Lifecycle.TemplateComplete | crates/icn-covm/src/compiler/parse_dsl.rs:159-164 | every known template comes from such a block |
| Lifecycle.FieldStep | crates/icn-covm/src/compiler/parse_dsl.rs:181-290 | one directive changes a field only by setting it, or by supplying it when it was unset |
| Lifecycle.SettingRule | crates/icn-covm/src/compiler/parse_dsl.rs:138-300 | for every sequence of directives each scalar setting is the last explicit assignment, otherwise the value of the first used template that defined it at that time, and comes from nowhere else |
| Roles.TemplateRoles | crates/icn-covm/src/compiler/parse_dsl.rs:159-164 | a known template has the roles named in the latest block of that name, in order |
| Roles.UseLends | crates/icn-covm/src/compiler/parse_dsl.rs:40-42 | using a template gives its roles when there are none yet, and changes nothing otherwise |
| Roles.RolesRule | crates/icn-covm/src/compiler/parse_dsl.rs:138-300 | for every sequence of directives the required roles are those of the first used template that has any, unless a role was named before it, followed by all roles named outside templates, in order |
| ParseDsl.ReadAll | crates/icn-covm/src/compiler/parse_dsl.rs:126-339 | terminates on all lines, and an accepted program has been read to its last line |
| ParseDsl.ParseDsl | crates/icn-covm/src/compiler/parse_dsl.rs:112-340 | the loop with its flags, template map and configurations computes that reading |
| ParseDsl.CodeLine | crates/icn-covm/src/compiler/parse_dsl.rs:301-336 | one statement or block of the top level |
| ParseDsl.DirectivesDecide | crates/icn-covm/src/compiler/parse_dsl.rs:126-339 | the configuration of an accepted program is what its directives, taken alone, amount to |
| ParseDsl.ProgramSettings | crates/icn-covm/src/compiler/parse_dsl.rs:126-339 | the rule for settings, for every accepted program |
| ParseDsl.ProgramRoles | crates/icn-covm/src/compiler/parse_dsl.rs:126-339 | the rule for roles, for every accepted program |
| ProgramText.TextRead | crates/icn-covm/src/compiler/parse_dsl.rs:126-339 | a text of code, template blocks, template uses and governance blocks is accepted if and only if every template is defined before it is used, and then exactly its code and its directives are read, in order |
| ProgramText.TextConfigured | crates/icn-covm/src/compiler/parse_dsl.rs:126-339 | the rules for settings and roles, from the text |
| ProgramText.FaultRefused | crates/icn-covm/src/compiler/parse_dsl.rs:138-336 | a text is refused at its first faulty line, with the error for that line, whatever follows |
| ProgramText.BlockFaultRefused | crates/icn-covm/src/compiler/parse_dsl.rs:204-300 | inside a governance or template block every line must be a setting |
| ProgramRoundTrip.ProgramBack | crates/icn-covm/src/compiler/parse_dsl.rs:301-336 | the top loop reads a printed canonical program back |
| ProgramRoundTrip.ProgramExact | crates/icn-covm/src/compiler/parse_dsl.rs:301-336 | a printed program that the top loop reads back as itself is canonical |
| ProgramRoundTrip.ProgramRoundTrip | crates/icn-covm/src/compiler/parse_dsl.rs:112-340 | a printed program is parsed to the same operations if and only if it is canonical, and then with nothing configured |
| Storage.InMemoryStorage.constructor | docs/storage_backend_example.rs:72-78 | a new store stands for the empty map without snapshot |
| Storage.InMemoryStorage.Get | docs/storage_backend_example.rs:107-127 | the value of the current view, nothing for an invalid key |
| Storage.InMemoryStorage.Contains | docs/storage_backend_example.rs:165-181 | true exactly for the keys of the current view |
| Storage.InMemoryStorage.SetValue | docs/storage_backend_example.rs:129-145 | a write in or out of a transaction does to the view what it does to a map |
| Storage.InMemoryStorage.DeleteKey | docs/storage_backend_example.rs:147-163 | the same for a deletion |
| Storage.InMemoryStorage.BeginTransaction | docs/storage_backend_example.rs:219-227 | saves the view, or refuses a second transaction |
| Storage.InMemoryStorage.CommitTransaction | docs/storage_backend_example.rs:229-255 | leaves every read as it is, in whatever order the staged changes are applied |
| Storage.InMemoryStorage.RollbackTransaction | docs/storage_backend_example.rs:257-267 | restores the saved view |
| Storage.InMemoryStorage.ListKeys | docs/storage_backend_example.rs:183-217 | exactly the keys of the current view with the prefix, none twice |
| Storage.Perform | docs/storage_backend_example.rs:106-272 | one operation, as on the plain map with a snapshot |
| Storage.PerformAll | docs/storage_backend_example.rs:106-272 | every sequence of operations does the same to the store and to the plain map, and gets the same answers |
| Storage.WritesSame | docs/storage_backend_example.rs:129-163 | writes inside a transaction answer and act as outside, and leave the snapshot alone |
| Storage.TransactionAtomic | docs/storage_backend_example.rs:219-267 | a rolled-back transaction leaves no trace and a committed one is the same as its writes |
| Storage.ReadAfter | docs/storage_backend_example.rs:129-267 | an accepted write decides the next read of its key and of no other, in and out of a transaction; a write is refused exactly for an invalid key; opening and committing change no read, rolling back changes every read to the snapshot; a refusal changes nothing |
| Storage.LastWriteWins | docs/storage_backend_example.rs:106-272 | after any run a key has the value of the last write to it that was accepted and not rolled back, and the value it had before if there is none |
| Storage.KeyLaws | docs/storage_backend_example.rs:81-103 | no key is empty or holds a forbidden character, and valid parts make valid keys |

## Where the code and its documentation differ

- The two execution modes are offered as the same machine. They part on 1000-count loops with a body of one to five operations: the
  counter lies on the operand stack under the body, so a body that leaves a value there has that value taken for the counter
  (`LoopGuard.PusherDisagrees`), and an error inside the body leaves the counter behind (`LoopGuard.ProberError`).
- Blocks are told apart by indentation, and the nested-`if` test in `crates/icn-covm/src/compiler/if_block.rs:74-85` is laid out as if
  an `else:` belonged to the `if` at its own indent. The parser does not look at that indent (`Exactness.DanglingElse`). A comment line
  between the two blocks closes the inner `if`, since it is read as a statement of the outer block.
- Blank lines are skipped in blocks, but inside a `while` or a `match` one that is not deeper than the header ends it
  (`BlankLines.BlankEndsWhile`); where they change nothing is `BlankLines.BlankBlock`.
- A function definition is passed over by the tree interpreter and stops the bytecode interpreter (`Interpreter.DefinitionStops`).
- The function table holds addresses of a program made of definitions alone, measured before later names are known; they fit the
  final code only when everything before the function is foreseen (`CodeFacts.FunctionTableExact`).

## Left out

- SimOps: for stack-counter loops the neutral body is a sufficient condition, not a necessary one; a body may hold nested loops, so
  no condition that can be checked before the call decides agreement for each single body. What is exact is the guard
  (`LoopGuardExact`, `ErrorStackExact`).
- ExecutionTrace: is about runs in which equal ids mean equal nodes; `CollisionMisleads` shows what a collision does.
- Execute: takes a number of steps, since a run of the original loop may never end; the theorems quantify over that number.
- RoundTripExact: trees with `if passed:` blocks or `else:` blocks of their own are excluded; such a block takes in its later siblings.
  Both are parsed as the code parses them.
- Operations that the bytecode side does not carry or carries differently: calls, returns, break, continue, over, dumps, assertions,
  negation, ranked votes, identity, reputation, resource and storage operations. A definition has no effect in the tree model.
- Floating point: numbers are exact, so rounding, infinities, not-a-number and loop counts above 2^53 are not modelled.
- Characters: how a line becomes a token, how numbers, durations and quoted names are read, positions in error messages.
- The second top loop in `crates/icn-covm/src/compiler/mod.rs` and the proposal block parser.
- JSON, SHA-256, reading and writing files, the in-memory layout of hash maps; `FileStorage` and the demonstration stores.
- Proposal lifecycle state other than the ledger nodes, networking, the HTTP interface, the command line, the REPL, signatures.
