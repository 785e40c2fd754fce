# Verification of iLL

iLL is a small language for integration tests. A program declares *actors* (a Postgres client, an
MQTT client, a container, a process, command-line arguments) and drives them in `as` blocks. This
project models the parts of the implementation that hold its hard state, and proves what they
promise, for every input, every run and every behaviour of the outside world.

Reading order:

- `Scanner`, `ScannerRuns`, `ScannerLayout`: the indentation scanner, a mutable machine called by a
  parser that may ask for any tokens. Conservation, progress, serialization, and refinement of a
  declarative layout.
- `Validation` (meaning) and `Validator` (the class): the static checker. `Execution` (meaning) and
  `Harness` (the class): the interpreter it predicts. `Windows`, `ModeSimulation`, `Shadowing`,
  `TypePreservation`, `SquiggleProgress` and `Teardown` hold the theorems that tie the two together
  over whole runs; `Counterexamples` gives, for each way an actor can drift, an accepted program and a
  run that drifts so.
- `Acceptance` says which programs the validator accepts, and `StaticTypes` how precise its types are.
  `Declarations`, `Statements` and `Outcomes` say what a run comes to: what a declaration constructs,
  when an assert, a let or a command lets the run go on, and what the statements after it see.
- `MqttWaiters` and `MqttProtocol`: the acknowledgement queues and the interleaving of the command
  task, the event loop and the broker. `ConnectRetry`: the connect loop of both network clients.
- `Evaluation` (meaning), `Evaluator` (methods), `EvaluationLaws`, `QueryResults`, `Normalize`,
  `NormalizeLaws`, `StringEscapes`, `Hex`: the text and value transforms everything else rests on.
  `NormalizedLayout` puts normalization and scanner together.

Conventions. Each imperative piece of the source is a method or a class with the same loops and
updates, proved to compute a specification function; theorems are lemmas about those functions. The
world (what a command answers, whether a construction or teardown succeeds, the command line, library
calls such as UTF-8 decoding) is a parameter, so every theorem holds for all of its behaviours. Time
in the connect loop is virtual, in nanoseconds. Machine widths are written out where they matter: the
scanner's 16-bit indents and 8-bit counters wrap, and part of what is proved is that the counters
never do.

Findings. Where the code does not meet the property one would want, the model follows the code, shows an
input or a run on which it fails, and proves when it holds:

- The validator's mode and the live mode of an actor agree exactly while the actor has not drifted
  (`ModeSimulation.ModesSimulated`, for every accepted program). It drifts in three ways, each shown by
  a run of an accepted program: a container `stop` that fails (`Counterexamples.FailedStopDrifts`), a
  `receive disconnect` on a lost connection (`LostConnectionDrifts`), and a mode-changing command that
  succeeds although the run gets through a window that refers to `error`, because a `let`
  (`ErrorNameMisleads`) or an actor with a view (`ErrorActorMisleads`) bears that name. Nothing rejects
  such a name.
- The third way is excluded by a condition on the program text alone, `Shadowing.ErrorLeftAlone`: in no
  window that refers to `error` does a `let error` come before the first reference, and no earlier item
  declares a container or args_actor called `error` (`Shadowing.NeverDeceived`). This condition is
  one-way: whether a program outside it really gets through such a window depends on what its
  expressions evaluate to at run time.
- A block that a run reaches stops for want of a live actor exactly when no earlier item declares the
  actor, since only the validator hoists declarations (`Counterexamples.EarlyBlockStops`);
  `EarlyIsAcceptedAndStops` has an accepted program.
- The scanner meets the layout exactly up to 64 open levels; beyond that INDENTs and DEDENTs no longer
  balance (`ScannerLayout.ScannerRefinesLayout`; `DeepStairsUnbalance` has the texts).
- A subscribe or publish that waits for its acknowledgement can no longer return, whatever broker and
  connection do next, in exactly two cases (`MqttProtocol.ReturnsUnlessDead`): its waiter joined the
  queue after the event loop had drained it (`SubscribeCanHang`, `StuckForever`), or the event loop is
  blocked on a full inbox that only the waiting task could empty (`SubscribeCanStall`,
  `StalledForever`).
- `ok.col[j]` is the j-th column, for every column, exactly when the result set has rows and distinct
  column names, or no columns at all (`QueryResults.ColumnsByPositionIff`); `TwinColumnsCollapse` and
  `NoRowsNoColumns` have result sets on which it is not.
- A `let` that takes the name of one of its actor's variables changes the type the validator gives to
  `self.x`, but not the value (`Counterexamples.RetypedVariable`, in an accepted program). Type
  preservation holds in the blocks of every actor whose names do not clash
  (`TypePreservation.TypesPreserved`). This condition is one-way: a `let` may as well bind a value of
  the variable's own type.

Where comments and code disagree the code is modelled: `error` holds `type` and the variant but no
`message` (crates/ill-core/src/runtime/harness.rs:380-389), and a full publish inbox makes the event
loop wait rather than lose the packet (crates/ill-core/src/actor_type/mqtt_client/runtime.rs:479-484).

## Model

| member | source | states |
|---|---|---|
| `IndentScanner.Scanner.constructor` | tree-sitter-ill/src/scanner.c:27-34 | A new scanner has the single level 0 and nothing queued. |
| `IndentScanner.Scanner.Scan` | tree-sitter-ill/src/scanner.c:90-192 | Token, position and live state of one call are those of `ScanResult`, and the fixed buffer stays within bounds for every choice of valid symbols. |
| `IndentScanner.Scanner.TakeLine` | tree-sitter-ill/src/scanner.c:144-173 | INDENT, DEDENT, NEWLINE or refusal at the first line that is not blank, with the whole new state. |
| `IndentScanner.Scanner.CloseLevels` | tree-sitter-ill/src/scanner.c:153-167 | Levels deeper than the line are closed, one DEDENT fewer than levels is queued, and a NEWLINE is queued exactly when the line lands on an open level. |
| `IndentScanner.Scanner.PopLevels` | tree-sitter-ill/src/scanner.c:154-159 | The popping loop keeps exactly the levels not deeper than the line and queues one DEDENT for each other, without 8-bit wrap. |
| `IndentScanner.Scanner.Serialize` | tree-sitter-ill/src/scanner.c:40-55 | The buffer holds the encoding of the live state, at most 131 bytes. |
| `IndentScanner.Scanner.Deserialize` | tree-sitter-ill/src/scanner.c:57-84 | All fields, dead stack slots included, are what `Restored` gives for the old fields and the memory handed over; the only demand on the caller is that the second byte can be read when the length is not zero. |
| `IndentScanner.ScanKeepsWellformed` | tree-sitter-ill/src/scanner.c:94-189 | Every call keeps 1 to 64 strictly increasing levels from 0 and fewer than 64 queued DEDENTs. |
| `ScannerRuns.Conservation` | tree-sitter-ill/src/scanner.c:94-189 | Over any sequence of calls, INDENTs minus DEDENTs emitted equals open levels plus queued DEDENTs plus INDENTs emitted on a full stack. |
| `ScannerRuns.ReachableStates` | tree-sitter-ill/src/scanner.c:15-25 | In every reachable state the stack has 1 to 64 strictly increasing levels from 0 and the DEDENT counter fits 8 bits. |
| `ScannerRuns.Progress` | tree-sitter-ill/src/scanner.c:94-189 | A token strictly decreases (remaining text, queued DEDENTs + levels + queued NEWLINE); a refusal leaves the state unchanged. |
| `ScannerRuns.OneCallPays` | tree-sitter-ill/src/scanner.c:118-189 | What a token leaves queued is paid for by two credits per line break its call consumed. |
| `ScannerRuns.AmortisedBound` | tree-sitter-ill/src/scanner.c:118-189 | Over any run, at most twice as many tokens as line-break characters consumed. |
| `ScannerRuns.RestoreEncoded` | tree-sitter-ill/src/scanner.c:40-84 | Restoring a state's bytes over arbitrary old fields, whatever lies behind them in memory, gives that state back; the encoding has at most 131 bytes. |
| `ScannerRuns.RestoredScannerIsBisimilar` | tree-sitter-ill/src/scanner.c:40-192 | A scanner restored from the bytes of any reachable state, into any old contents, emits the same tokens and goes through the same states on every later sequence of calls. |
| `ScannerLayout.DriveIsBoundedLayout` | tree-sitter-ill/src/scanner.c:90-192 | On every text, with all tokens valid, the emitted stream is the layout of the lines' indents with a stack bounded at 64 levels. |
| `ScannerLayout.ScannerRefinesLayout` | tree-sitter-ill/src/scanner.c:90-192 | The stream is the declarative layout if and only if at most 64 levels are ever open, and INDENTs and DEDENTs balance at the end in exactly those cases. |
| `ScannerLayout.DeepStairsUnbalance` | tree-sitter-ill/src/scanner.c:144-151 | A staircase of n lines, each one column deeper, is laid out and balanced if and only if n is below 64. |
| `MqttWaiters.WaiterTable.PushWaiter` | crates/ill-core/src/actor_type/mqtt_client/runtime.rs:181-185 | An open channel under an id that no waiter, queued or settled, has ever had joins the end of one queue; the other queues and channels are untouched. |
| `MqttWaiters.WaiterTable.PopWaiter` | crates/ill-core/src/actor_type/mqtt_client/runtime.rs:187-189 | The front waiter, if any, leaves its queue and its channel is settled; an empty queue is left alone. |
| `MqttWaiters.WaiterTable.DrainWaiters` | crates/ill-core/src/actor_type/mqtt_client/runtime.rs:191-196 | The queue ends empty, every waiter that was in it is sent connection_lost, and no other queue or channel changes. |
| `MqttWaiters.WaiterTable.FailAll` | crates/ill-core/src/actor_type/mqtt_client/runtime.rs:156-163 | All three queues are drained in order and end empty. |
| `MqttProtocol.StepKeepsInv` | crates/ill-core/src/actor_type/mqtt_client/runtime.rs:445-510 | Every enabled step of command task, event loop and broker keeps the protocol invariant. |
| `MqttProtocol.AckSafety` | crates/ill-core/src/actor_type/mqtt_client/runtime.rs:608-715 | Under every interleaving: queues empty at command boundaries; no waiter resolved twice; success only after the command's own acknowledgement with a code below 0x80 or a PUBCOMP; a rejection only with the code, from 0x80 on, of its own SUBACK or PUBACK; connection_lost only after a refused send or a failed event loop; withdrawing after a failed send removes the command's own waiter or nothing. |
| `MqttProtocol.DeliveryConservation` | crates/ill-core/src/actor_type/mqtt_client/runtime.rs:479-484 | Under every interleaving: delivered ++ inbox ++ the blocked packet equals the packets arrived, in order; the inbox holds at most 64; connection_lost is reported only once everything was delivered. |
| `MqttProtocol.RoundTrip` | crates/ill-core/src/actor_type/mqtt_client/runtime.rs:486-576 | From any quiet moment of a live connection, a command of any kind can be sent, acknowledged and returned, and the acknowledgement code alone decides between success and that very rejection. |
| `MqttProtocol.AllDeliverable` | crates/ill-core/src/actor_type/mqtt_client/runtime.rs:721-743 | Whatever has arrived can be received, in order, by receive steps and the loop unblocking alone. |
| `MqttProtocol.StuckForever` | crates/ill-core/src/actor_type/mqtt_client/runtime.rs:618-641 | A command awaiting a waiter that was queued after the drain never returns, whatever steps follow. |
| `MqttProtocol.StalledForever` | crates/ill-core/src/actor_type/mqtt_client/runtime.rs:479-484 | A command awaiting while the loop is blocked on a full inbox never returns: every step still possible leaves command, loop and inbox as they are. |
| `MqttProtocol.ReturnsUnlessDead` | crates/ill-core/src/actor_type/mqtt_client/runtime.rs:452-484 | An awaiting command has some continuation in which it returns if and only if it is in neither of these two dead ends. |
| `MqttProtocol.SubscribeCanHang` | crates/ill-core/src/actor_type/mqtt_client/runtime.rs:608-642 | An interleaving that reaches a stuck subscribe exists. |
| `MqttProtocol.SubscribeCanStall` | crates/ill-core/src/actor_type/mqtt_client/runtime.rs:51-55 | An interleaving that reaches a stalled subscribe exists: 64 undelivered packets, then one more ahead of the SUBACK. |
| `ConnectRetry.Connect` | crates/ill-core/src/actor_type/pg_client/runtime.rs:131-190 | Against any environment: each attempt begins exactly when the one before has failed and 200 ms, or what was left of the budget, have passed; every attempt but the last failed with a network error in its time; the last one decides outcome and time of return; at most ceil(T/200) attempts, none at or after the deadline; total time at most T + min(200, T); Connected exactly on success. |
| `ConnectRetry.GoesOnIff` | crates/ill-core/src/actor_type/mqtt_client/runtime.rs:224-250 | An attempt is followed by another if and only if it failed with a network error in its own time and the pause after it ends before the deadline. |
| `ConnectRetry.EnvironmentDecides` | crates/ill-core/src/actor_type/pg_client/runtime.rs:145-188 | Attempts, outcome and time of return are determined by the environment alone: two results that meet the contract are equal. |
| `ConnectRetry.Budget` | crates/ill-core/src/actor_type/pg_client/runtime.rs:235-238 | A positive timeout is taken as it is; a missing or non-positive one falls back to ten seconds; so the budget is positive. |
| `Validator.Validator.RegisterActor` | crates/ill-core/src/validate.rs:127-190 | Declares, poisons or reports the actor; the whole new checker state. |
| `Validator.Validator.CheckKeywordArgs` | crates/ill-core/src/validate.rs:412-457 | Appends one diagnostic per undeclared key and one per missing required key, in order. |
| `Validation.KeywordsPassIff` | crates/ill-core/src/validate.rs:412-457 | Keyword arguments raise nothing if and only if each is declared and each required one is provided. |
| `Registry.ResolvesIff` | crates/ill-core/src/actor_type/mqtt_client/mod.rs:51-65 | A statement resolves to a command if and only if its actor offers it and the statement names it, or names `receive` and, as its first argument, the event. |
| `Registry.KindByNameIff` | crates/ill-core/src/registry.rs:27-50 | An actor type is found under its own name and no other. |
| `Validator.Validator.CheckSquigglesInExpr` | crates/ill-core/src/validate.rs:541-574 | A pre-order visit reports each unregistered tag at any nesting, in order, and nothing else. |
| `Validator.Validator.CheckCommandOf` | crates/ill-core/src/validate.rs:324-410 | Resolution, mode, argument and squiggle diagnostics of one command, none exactly for the commands `Acceptance.CommandFineIff` describes, and the window it opens. |
| `Validator.Validator.AdvanceWindow` | crates/ill-core/src/validate.rs:635-654 | The window commits to the branch first referred to; a reference to the other branch is a conflict. |
| `Validator.Validator.CheckStatementOf` | crates/ill-core/src/validate.rs:210-307 | One statement's effect on checker state and window, including let types and held-back transitions. |
| `Validator.Validator.CheckAsBlock` | crates/ill-core/src/validate.rs:194-317 | A whole block: unknown and poisoned actors, every statement, and the final held-back transition. |
| `Validator.Validator.RunOn` | crates/ill-core/src/validate.rs:108-123 | Two passes: all declarations first, then the blocks in order. |
| `Validator.Validate` | crates/ill-core/src/validate.rs:87-95 | The diagnostics of the symbolic walk that the theorems below are about. |
| `Acceptance.AcceptsIff` | crates/ill-core/src/validate.rs:108-123 | A program is accepted if and only if every declaration has a new name, a known type, the right keywords and known tags, and every block belongs to a declared actor and has only statements that are fine where the walk finds them: commands known, valid in mode, well supplied and with known tags, other statements without conflicting references or unknown tags. |
| `Acceptance.CommandFineIff` | crates/ill-core/src/validate.rs:324-410 | A command raises nothing if and only if it resolves, is valid in the mode, has enough arguments beyond those its name took up, has only declared keywords and all required ones, and has no unknown tag at any depth. |
| `Acceptance.AcceptedArguments` | crates/ill-core/src/validate.rs:365-400 | In an accepted program every command of every block has its positional arguments, only declared keywords and all required ones, and so has every declaration its constructor keywords. |
| `Acceptance.RequiredKeys` | crates/ill-core/src/actor_type/pg_client/commands.rs:96-135 | `user` and `database` to connect a pg_client and `command` for an exec actor cannot be left out; no other command or declaration requires a keyword. |
| `Acceptance.NeededArguments` | crates/ill-core/src/validate.rs:365-383 | A query, subscribe or HTTP command needs one positional argument, a publish two, every other command none. |
| `Acceptance.TagsIff` | crates/ill-core/src/validate.rs:464-489 | No unknown tag is reported if and only if every squiggle, however deep, is one of the five registered ones. |
| `StaticTypes.LiteralTypesExact` | crates/ill-core/src/validate.rs:669-682 | A literal or squiggle that evaluates has a value of exactly its static type. |
| `StaticTypes.OutcomeTypes` | crates/ill-core/src/validate.rs:576-627 | `ok.f` has the type the command declares for `f` and is unknown without one; `error.v.f` has that of `f` in variant `v`. |
| `StaticTypes.WindowDeclares` | crates/ill-core/src/validate.rs:403-410 | In an accepted program the window of each command has the transition, the ok fields and the error types of that command. |
| `StaticTypes.LetIsRecorded` | crates/ill-core/src/validate.rs:244-284 | A let records the type of its expression under its name; nothing else changes a recorded type. |
| `StaticTypes.DeclaredVariables` | crates/ill-core/src/validate.rs:160-178 | A declared variable is recorded with the type of its last default, and as unknown without one. |
| `StaticTypes.QueryAnswersAsDeclared` | crates/ill-core/src/actor_type/pg_client/commands.rs:177-203 | A query result has exactly the fields the command declares, each of its declared type. |
| `Values.IsOfTypeIff` | crates/ill-core/src/runtime/value.rs:59-72 | A concrete type has exactly the values of that type, and an array is of none. |
| `Evaluator.EvalExpr` | crates/ill-core/src/runtime/eval.rs:48-110 | The recursive evaluator computes `Eval`: same value or same first error. |
| `Evaluator.EvalItems` | crates/ill-core/src/runtime/eval.rs:74-80 | Array elements in order, or the first error. |
| `Evaluator.FollowIndices` | crates/ill-core/src/runtime/eval.rs:99-108 | Indices are evaluated and applied one after the other. |
| `Evaluator.ConcatFragments` | crates/ill-core/src/runtime/squiggle/mod.rs:48-86 | Text and interpolations concatenated in order, or the first error. |
| `EvaluationLaws.ArrayElements` | crates/ill-core/src/runtime/eval.rs:74-80 | An array literal holds its elements' values, each at its own place, or fails as its first element that cannot be evaluated. |
| `EvaluationLaws.IndexMeans` | crates/ill-core/src/runtime/eval.rs:114-148 | Arrays are indexed by number, dictionaries by name or position, with errors for negative, too large or missing ones; nothing else can be indexed and only dictionaries have members. |
| `EvaluationLaws.MemberIsIndexByName` | crates/ill-core/src/runtime/eval.rs:60-73 | On a dictionary `e.name` and `e["name"]` are the same, value or error. |
| `EvaluationLaws.StringsConcatenate` | crates/ill-core/src/runtime/squiggle/mod.rs:48-86 | A string is the concatenation of its fragments in order: any cut of the fragment list gives the same text or first error. |
| `EvaluationLaws.InterpolationShows` | crates/ill-core/src/runtime/squiggle/mod.rs:56-83 | What one interpolation contributes, kind of value by kind of value, and which values cannot be interpolated. |
| `EvaluationLaws.SquigglesMean` | crates/ill-core/src/runtime/eval.rs:81-98 | `sql`, `json` and `re` mean the text itself, `b` its bytes, `hex` the bytes it spells out; any other tag is an error. |
| `EvaluationLaws.KeywordArguments` | crates/ill-core/src/runtime/harness.rs:319-355 | Under each key the value of its last occurrence and no other key, or the error of the first keyword that cannot be evaluated. |
| `EvaluationLaws.MapArguments` | crates/ill-core/src/runtime/harness.rs:325-349 | A map evaluates if and only if every key stands for a name and every value evaluates; under each name it has the value of the last entry whose key stands for it. |
| `Harness.EvalKeywordArgs` | crates/ill-core/src/runtime/harness.rs:319-355 | Keyword arguments and nested maps, later keys replacing earlier ones, or the first error. |
| `Harness.BlockHasErrorRefAfter` | crates/ill-core/src/runtime/harness.rs:394-417 | True exactly when a statement before the next command refers to `error`. |
| `Harness.InstantiatedActors.RefreshScope` | crates/ill-core/src/runtime/harness.rs:367-378 | Every actor's name is bound to its view or unbound, then `self`. |
| `Harness.InstantiatedActors.RunOneCommand` | crates/ill-core/src/runtime/harness.rs:179-244 | One command: cleared outcomes, resolution, arguments, dispatch, and the expected-error rule. |
| `Harness.InstantiatedActors.RunAsBlock` | crates/ill-core/src/runtime/harness.rs:148-283 | The block's walk stops at its first failure with the actors and log of `RunBlock`; what makes a statement fail is in `Statements.AssertVerdict`, `LetVerdict` and `CommandVerdict`. |
| `Harness.InstantiatedActors.ConstructActor` | crates/ill-core/src/runtime/harness.rs:114-144 | The actor is built and appended, or nothing changes and the failure is returned: unknown type, first bad expression, then the construction checks of its type (for a container exactly one of image and dockerfile). |
| `Harness.InstantiatedActors.TeardownAll` | crates/ill-core/src/runtime/harness.rs:466-486 | Pops every actor; reports and events are those of `TearDown`. |
| `Harness.Execute` | crates/ill-core/src/runtime/harness.rs:71-112 | The report of the whole run, teardown included, is `Report`. |
| `Harness.BodyFailureStays` | crates/ill-core/src/runtime/harness.rs:176-280 | After a failed statement no later statement of the block changes anything. |
| `Declarations.DeclarationDecides` | crates/ill-core/src/runtime/harness.rs:80-94 | A declaration appends its actor if and only if its type is known, its keywords and defaults evaluate and the actor can be constructed from them; otherwise nothing changes. |
| `Declarations.DefaultsEvaluate` | crates/ill-core/src/runtime/harness.rs:126-136 | Each default is the value of its own expression in an empty scope, in declaration order, or the error is that of one of them. |
| `Declarations.ArgsActorMembers` | crates/ill-core/src/actor_type/args_actor/runtime.rs:19-81 | An args_actor is constructed if and only if every command-line key is declared and every variable has a value; each member is the command-line value read in the shape of its default, or else the default. |
| `Declarations.ContainerConstructed` | crates/ill-core/src/actor_type/container/runtime.rs:117-171 | A container is constructed if and only if exactly one of image and dockerfile is given, as a string, the port fits 16 bits, and the world provides the image; it starts stopped and shows its last defaults. |
| `Declarations.ExecConstructed` | crates/ill-core/src/actor_type/exec/runtime.rs:88-120 | A process is constructed if and only if it has a command, and a working directory, if named, that the world has. |
| `Declarations.ArgumentsAreSeen` | crates/ill-core/src/actor_type/args_actor/runtime.rs:33-51 | In every statement a run of an accepted program reaches in a block of an args_actor, `self.x` evaluates to what command line and default make of `x`. |
| `Statements.ScopeSeen` | crates/ill-core/src/runtime/harness.rs:367-378 | Before each statement `self` is the view of the block's actor, every live actor's name is its view or unbound, and every other name is as the block left it. |
| `Statements.AssertVerdict` | crates/ill-core/src/runtime/assert.rs:16-60 | The run goes on past an assert if and only if both sides evaluate and compare true, or the only side is none of false, 0, 0.0, "", [], an empty dictionary, empty bytes and null; it is an assert failure if and only if it was evaluated to the end and is false. |
| `Statements.LetVerdict` | crates/ill-core/src/runtime/harness.rs:285-296 | A let goes on if and only if its expression evaluates, and binds that value and nothing else. |
| `Statements.CommandVerdict` | crates/ill-core/src/runtime/harness.rs:179-244 | A command is carried out if and only if its actor knows it and every argument evaluates; one event is logged, and the outcome is bound as `ok`, or as `error` with its type and its fields under the variant. |
| `Statements.StatementDecides` | crates/ill-core/src/runtime/harness.rs:176-283 | A reached statement decides whether the next is reached; if it fails, its failure is the report's. |
| `Statements.AssertDecides` | crates/ill-core/src/runtime/harness.rs:263-280 | In any run, a reached assert lets the run go on if and only if it holds, and is the report if it is false. |
| `Statements.PassedReachesAll` | crates/ill-core/src/runtime/harness.rs:95-112 | A report that passed went through every statement of every block. |
| `Statements.PassedAssertsHold` | crates/ill-core/src/runtime/assert.rs:16-60 | In a report that passed, every assert of the program was reached and held. |
| `Statements.AssertFailureExplained` | crates/ill-core/src/runtime/harness.rs:269-279 | An assert failure in a report is that of a reached assert that is false. |
| `Outcomes.CommandDecides` | crates/ill-core/src/runtime/harness.rs:208-244 | In an accepted program a run gets past a reached command if and only if its arguments evaluate and, the actor not having drifted, the command cannot fail, the world lets it succeed or its window refers to `error`; if the world refuses it otherwise, that command failure is the report. A drifted actor needs a window that refers to `error` and to be a container or process. |
| `Outcomes.NamesPersist` | crates/ill-core/src/runtime/harness.rs:172-178 | A name keeps its value through a block unless it is `self`, the name of a live actor, or bound anew. |
| `Outcomes.LetsPersist` | crates/ill-core/src/runtime/harness.rs:285-296 | What a let bound is what later statements of its block see under that name. |
| `Outcomes.AnswerIsSeen` | crates/ill-core/src/runtime/harness.rs:208-236 | In an accepted program the world's answer to a command of an actor that has not drifted is what every statement of its window sees: its fields under `ok`, or variant and fields under `error`, never both (as long as no let and no actor takes one of these names). |
| `Outcomes.QueryIsSeen` | crates/ill-core/src/actor_type/pg_client/runtime.rs:275-295 | A result set the database returned is seen, cell by cell and in all four spellings, throughout the window of its query. |
| `Windows.UnboundRootFails` | crates/ill-core/src/runtime/eval.rs:55-73 | An expression rooted at an unbound name always fails to evaluate, with that name's error. |
| `Windows.StartsWithIff` | crates/ill-core/src/validate.rs:659-667 | The test for a reference finds exactly the chains of members and indices rooted at the name. |
| `Windows.WindowAgreement` | crates/ill-core/src/runtime/harness.rs:394-417 | In a window without conflicts the look-ahead finds `error` if and only if the fold of the outcome ends in the error branch. |
| `Windows.ValidatorFolds` | crates/ill-core/src/validate.rs:224-316 | The validator's window outcome after any statement is that fold, and no diagnostics means no conflict. |
| `Windows.ValidatorExpectsWhatHarnessExpects` | crates/ill-core/src/validate.rs:635-666 | For every window checked without diagnostics, the validator commits to the error branch if and only if the harness would expect an error there. |
| `ModeSimulation.DispatchMatches` | crates/ill-core/src/actor_type/pg_client/runtime.rs:396-449 | From matching modes, one dispatch under any response ends in modes that match in the branch the window takes, drift included; a drifted actor never succeeds again. |
| `ModeSimulation.DispatchReachesActor` | crates/ill-core/src/actor_type/exec/runtime.rs:276-286 | For every response, a command valid in the validator's mode is turned away exactly when the actor has drifted, and otherwise its outcome is the response, variant and fields included (an empty success for `disconnect` and `check`); run and stop meet the mode they need exactly when it has not drifted. |
| `ModeSimulation.ValidModesExact` | crates/ill-core/src/actor_type/mqtt_client/runtime.rs:825-879 | A command's declared modes are exactly the modes in which the live actor carries it out; in the others it turns it away. |
| `ModeSimulation.FreshActors` | crates/ill-core/src/actor_type/pg_client/runtime.rs:122-129 | A new client can only be connected, a new container or process only be run. |
| `ModeSimulation.BodyInStep` | crates/ill-core/src/runtime/harness.rs:148-283 | Before every statement of a block, the live mode matches the mode that the validator's window will settle to. |
| `ModeSimulation.ProgramStaysInStep` | crates/ill-core/src/validate.rs:108-123 | Before every item a run reaches, every live actor is known, of its declared kind, and in the matching mode; the others are still as declared. |
| `ModeSimulation.ModesSimulated` | crates/ill-core/src/validate.rs:194-410 | At every command any run of an accepted program reaches, the live mode is the validator's mode if and only if the actor has not drifted; if not, every answer of the world gets through unchanged (no NotImplemented, already_running or not_running of the dispatch's own); if it has, none does. |
| `ModeSimulation.FailuresExplained` | crates/ill-core/src/runtime/harness.rs:179-244 | No run of an accepted program fails on an unresolved command, nor on one that is not implemented unless its actor has drifted; a command fails by the world's own answer unless its actor has drifted. |
| `Shadowing.NeverDeceived` | crates/ill-core/src/runtime/harness.rs:285-296 | In any program that leaves `error` alone, a run that got through a window has no success that passed for an error, so an actor has drifted if and only if it absorbed one of the two mode-changing errors. |
| `Shadowing.BranchesAgree` | crates/ill-core/src/runtime/harness.rs:180-235 | Where a window ends, the validator has committed it to the error branch if and only if its command failed or succeeded unnoticed, and if and only if it failed when the program leaves `error` alone. |
| `Shadowing.ErrorBoundIffCommitted` | crates/ill-core/src/validate.rs:635-666 | With no let and no actor of that name, `error` is bound at the end of a window if and only if the validator committed the window to the error branch. |
| `Shadowing.NoNameLeavesAlone` | crates/ill-core/src/runtime/harness.rs:394-417 | A program in which nothing is named `error` leaves it alone. |
| `Counterexamples.ErrorNameMisleads` | crates/ill-core/src/runtime/harness.rs:285-296 | An accepted program with a let named `error` and a run of it that drifts: the second connect is not implemented in the live mode. |
| `Counterexamples.ErrorActorMisleads` | crates/ill-core/src/runtime/harness.rs:367-378 | An accepted program with a container named `error`, with an image and a variable, and a run of it that drifts: the second run meets a container already running. |
| `Counterexamples.LateLetIsHarmless` | crates/ill-core/src/runtime/harness.rs:394-417 | A program with a let named `error` behind the first reference still leaves `error` alone. |
| `Counterexamples.FailedStopDrifts` | crates/ill-core/src/actor_type/container/runtime.rs:354-376 | An accepted program (a container with an image) and a run of it that reaches its last command with a drifted actor: the container is not running when stopped again, because the first stop failed. |
| `Counterexamples.LostConnectionDrifts` | crates/ill-core/src/actor_type/mqtt_client/runtime.rs:745-769 | An accepted program and a run of it that reaches its last command with a drifted actor: after a lost connection the live client has no disconnect to run. |
| `Counterexamples.LiveIffDeclared` | crates/ill-core/src/runtime/harness.rs:80-94 | While a run goes on, the live actors are exactly those declared by earlier items. |
| `Counterexamples.EarlyBlockStops` | crates/ill-core/src/runtime/harness.rs:158-165 | A reached block stops for want of a live actor if and only if no earlier item declares it. |
| `Counterexamples.EarlyIsAcceptedAndStops` | crates/ill-core/src/validate.rs:108-123 | An accepted program whose block precedes the declaration, and every run of it stops there. |
| `Counterexamples.RetypedVariable` | crates/ill-core/src/validate.rs:244-284 | An accepted program in which `self.x` evaluates to a number where the validator types it as a boolean, because a let took the name of the variable. |
| `TypePreservation.DispatchTyped` | crates/ill-core/src/actor_type/container/runtime.rs:420-457 | The outcomes dispatch makes up itself also match the declared fields. |
| `TypePreservation.CoercionKeepsType` | crates/ill-core/src/actor_type/args_actor/runtime.rs:59-81 | A command-line value coerced to a default's shape has the default's type. |
| `TypePreservation.ArgMembersTyped` | crates/ill-core/src/actor_type/args_actor/runtime.rs:33-51 | Every member of an args_actor, coerced or default, has the type the validator recorded for it. |
| `TypePreservation.ExpressionTyped` | crates/ill-core/src/validate.rs:493-535 | In a well-typed scope, an expression that evaluates has a value of its static type. |
| `TypePreservation.ProgramStaysTyped` | crates/ill-core/src/validate.rs:127-190 | Before every item a run reaches, the view of any live actor whose names do not clash inhabits its recorded variable types. |
| `TypePreservation.TypesPreserved` | crates/ill-core/src/validate.rs:576-627 | Wherever a run of an accepted program gets to, in the blocks of an actor whose own lets and variables clash neither with each other nor with actors or `ok`, `error`, `self`, any expression that evaluates has a value of the type the validator gives it there. |
| `TypePreservation.LetsHoldTheirTypes` | crates/ill-core/src/validate.rs:244-284 | Every let-bound variable holds a value of the type recorded for it. |
| `SquiggleProgress.SquigglesKeepTheirType` | crates/ill-core/src/runtime/squiggle/mod.rs:29-43 | Every registered squiggle produces a value of its declared type. |
| `SquiggleProgress.ExprSound` | crates/ill-core/src/runtime/eval.rs:81-98 | An expression without unknown tags, at any nesting, never evaluates to a squiggle error. |
| `SquiggleProgress.NoSquiggleFailure` | crates/ill-core/src/validate.rs:464-489 | No run of an accepted program fails with an unknown squiggle or a declared-type mismatch, in commands, asserts, lets, declarations or defaults. |
| `Teardown.ItemsAccounted` | crates/ill-core/src/runtime/harness.rs:76-102 | Up to teardown, the live actors are exactly the constructed ones in order, and none was torn down. |
| `Teardown.TeardownComplete` | crates/ill-core/src/runtime/harness.rs:466-486 | For every program and every pattern of failures: each constructed actor is torn down exactly once, in reverse order, after everything else; reports are in construction order with each actor's own outcome; passed if and only if no failure. |
| `Teardown.NothingAfterFailure` | crates/ill-core/src/runtime/harness.rs:85-100 | Once an item failed, replacing the rest of the program leaves the report unchanged. |
| `Teardown.FirstFailureEndsRun` | crates/ill-core/src/runtime/harness.rs:95-112 | When a statement fails, its failure is the report's, and after its last event the log holds nothing but the teardown of the live actors. |
| `QueryResults.BuildResultDict` | crates/ill-core/src/actor_type/pg_client/convert.rs:19-53 | One pass fills the row view and the transposed column view. |
| `QueryResults.QueryViewsAgree` | crates/ill-core/src/actor_type/pg_client/convert.rs:15-53 | With distinct column names, `ok.row[i][j]`, `ok.row[i, j]`, `ok.col[j][i]` and `ok.col[name][i]` all evaluate to the cell. |
| `QueryResults.ViewsEndAtCounts` | crates/ill-core/src/actor_type/pg_client/convert.rs:47-53 | `row_count` and `col_count` are the numbers of rows and of columns, none of the latter without rows, and one row, cell or column further is out of bounds. |
| `QueryResults.UnknownColumn` | crates/ill-core/src/actor_type/pg_client/convert.rs:42-45 | A name that no column bears is not a field of the column view. |
| `QueryResults.NamedCell` | crates/ill-core/src/actor_type/pg_client/convert.rs:42-45 | Under any names, indexing by name reaches the last column that bears it. |
| `QueryResults.ColumnsByPositionIff` | crates/ill-core/src/actor_type/pg_client/convert.rs:19-45 | Every position of the column view is that column if and only if there are no columns, or there are rows and the names are distinct; otherwise some position is out of bounds. |
| `QueryResults.NoRowsNoColumns` | crates/ill-core/src/actor_type/pg_client/convert.rs:20-24 | A result without rows has no column, by position or by name, whatever its columns are called. |
| `QueryResults.TwinColumnsCollapse` | crates/ill-core/src/actor_type/pg_client/convert.rs:42-45 | With two columns of one name, position 0 shows the second and position 1 is out of bounds, while the row view holds both cells. |
| `QueryResults.IndexAllSplit` | crates/ill-core/src/runtime/eval.rs:99-148 | Following a concatenated index list is following its parts, value or error alike. |
| `QueryResults.NestedIndexing` | crates/ill-core/src/runtime/eval.rs:99-108 | Any split of a multi-index into nested index expressions gives the same value or error. |
| `Values.GetInsert` | crates/ill-core/src/runtime/value.rs:10-24 | A dictionary insertion changes the looked-up value of that key and no other. |
| `Normalize.NormalizeSource` | crates/ill-core/src/lower.rs:44-65 | The two loops compute `Normalized`. |
| `Normalize.NormalizedIsNormal` | crates/ill-core/src/lower.rs:44-65 | The output has no CR, no tab, no trailing whitespace on any line and exactly one final newline. |
| `Normalize.NormalFormIsFixed` | crates/ill-core/src/lower.rs:44-65 | Text already in that form is returned as it is. |
| `Normalize.NormalizeIdempotent` | crates/ill-core/src/lower.rs:44-65 | Normalizing twice is normalizing once. |
| `Normalize.NormalizeKeepsIndents` | tree-sitter-ill/src/scanner.c:121-130 | The scanner-measured indents (tab = 2) of all lines with ink are unchanged, in order. |
| `Normalize.NormalizeKeepsInk` | crates/ill-core/src/lower.rs:44-65 | Every character that is not whitespace survives, in order. |
| `NormalizeLaws.CrLfIsLf` | crates/ill-core/src/lower.rs:44-65 | CRLF and LF are not distinguished. |
| `NormalizeLaws.CrIsLf` | crates/ill-core/src/lower.rs:44-65 | Nor is a carriage return by itself. |
| `NormalizeLaws.TabIsTwoSpaces` | crates/ill-core/src/lower.rs:44-65 | Nor are a tab and two spaces, anywhere. |
| `NormalizeLaws.TrailingIsNothing` | crates/ill-core/src/lower.rs:44-65 | Whitespace before the end of a line or of the text does not count. |
| `NormalizeLaws.FinalLineFeed` | crates/ill-core/src/lower.rs:44-65 | Nor does a line feed at the end of the text. |
| `NormalizeLaws.LawsDetermine` | crates/ill-core/src/lower.rs:44-65 | Any way of normalizing that makes none of these distinctions and leaves text in normal form alone is this one. |
| `NormalizedLayout.MeasureIsLeadingWidth` | tree-sitter-ill/src/scanner.c:121-130 | The width those indents are taken from is what the scanner measures on the line, in 16 bits. |
| `NormalizedLayout.NormalizedTokens` | crates/ill-core/src/lower.rs:44-65 | The scanner on a normalized source emits the layout of the indents, as written in the source, of all lines with ink after the first, closed by the empty last line. |
| `NormalizedLayout.SameInkSameTokens` | tree-sitter-ill/src/scanner.c:118-189 | Sources with the same ink indents after the first line, whatever their line endings, tabs, trailing whitespace and blank lines, yield the same tokens. |
| `StringEscapes.Unescape` | crates/ill-core/src/lower.rs:12-33 | The single pass computes `Unescaped`: the text, an unknown escape or a dangling backslash. |
| `StringEscapes.EscapesExactly` | crates/ill-core/src/lower.rs:18-30 | Seven characters can be escaped, each with its meaning; a backslash before any other is an error. |
| `StringEscapes.UnescapeInvertsEscape` | crates/ill-core/src/lower.rs:12-33 | Unescaping inverts escaping for every text. |
| `StringEscapes.TokenwiseUnescape` | tree-sitter-ill/grammar.js:251-253 | For every interpolation-free body the grammar can tokenize, unescaping token by token gives the string, or the first error, of unescaping the whole body. |
| `StringEscapes.LowerStringFragments` | crates/ill-core/src/lower.rs:744-759 | Fragments are rewritten in place where they unescape and kept where they do not, with one error for each of the latter. |
| `StringEscapes.NoEscapeErrorIffBodyUnescapes` | crates/ill-core/src/lower.rs:744-759 | Lowering reports no escape error if and only if the whole body unescapes. |
| `Hex.DecodeHex` | crates/ill-core/src/runtime/squiggle/hex.rs:28-56 | The loop computes `Decode`: the first bad character, then an odd count, otherwise the bytes. |
| `Hex.DecodeInvertsBase16` | crates/ill-core/src/runtime/squiggle/hex.rs:28-56 | Decoding inverts base16 (section 8 of RFC 4648) of every byte sequence under any letter case and whitespace insertion. |
| `Hex.DecodeSucceedsIff` | crates/ill-core/src/runtime/squiggle/hex.rs:28-56 | Success if and only if all non-whitespace characters are hex digits and even in number. |
| `Hex.DecodeDistributes` | crates/ill-core/src/runtime/squiggle/hex.rs:28-56 | Text that decodes can be cut off: decoding distributes over concatenation, errors included. |

## Left out

- Parsing and lowering other than the scanner, `normalize`, `unescape` and fragment rewriting: they walk trees of a foreign parser.
- Actor I/O (Postgres, MQTT, Docker, process spawning, signals): any response at any time, through the `World` parameter.
- Library semantics (UTF-8, integer display and parsing, comparison operators and regular expressions): fields of the `Library` parameter, without assumptions. Floats are `real`, and only compared with zero.
- Spans, messages and related notes of diagnostics and reports: a diagnostic or failure keeps its code and the names involved.
- Pulling and building images and the existence of working directories: a yes-or-no answer of the world, asked only after the checks that construction itself makes on its keywords.
- The sorted order of a container's assigned members: the model keeps them in declaration order, which only a numeric index into the view would see.
- The `receive` timeouts, QoS 0 publishing and `receive disconnect` inside `MqttProtocol`: they touch no waiter queue; their modes are in `Execution`.
- A broker that acknowledges a request twice or without one: excluded by the FIFO environment of `MqttProtocol` (QoS flows of sections 4.3.2 and 4.3.3 of OASIS MQTT Version 5.0).
- Reason-code tables: a rejection keeps its code and not the name the source gives it.
- The tables of optional keywords and of outcome fields other than a query's: stated once in `Registry`, and used as they are.
- `http_client`: it has a table of commands and no runtime, so constructing one fails.
- `let ... parse` and assignment: the runtime rejects both, and so does the model.
- ConnectRetry.Connect: time spent between an attempt's end and the next clock reading is zero, as in a paused virtual clock; the same loop stands for crates/ill-core/src/actor_type/mqtt_client/runtime.rs:210-253.
- MqttProtocol.ReturnsUnlessDead: says that a return is possible, not that a broker ever answers or a connection ever fails.
- MqttProtocol.SubscribeCanStall: the bound of the request channel of the client library is not modelled, so a send is accepted or refused but never blocks.
- Shadowing.NeverDeceived: the condition on names is sufficient, not necessary, because what lies outside it depends on the values of expressions at run time.
- TypePreservation.TypesPreserved: asks that the actor's let and variable names, actor names and `ok`, `error`, `self` do not clash and that actors answer with the fields they declare; neither is enforced by the source.
- Execution.Carry: a command that is not implemented is reported under its actor's name; the source puts the name of the actor type there.
- CLI, report formatting and editor support.
