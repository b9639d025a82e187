# batect core pieces in Dafny

This project models four small parts of batect (and of decompose, its earlier name) and proves properties about them:

- **The image-pulled rule of the task engine** (`app/src/main/kotlin/batect/model/events/ImagePulledEvent.kt`). When an image has been pulled, the event's `apply` looks at the task event context. If the run is aborting, it does nothing. If the context's log holds no network-created event, it does nothing either. Otherwise it queues one `CreateContainerStep` for every container of the task whose image source is `PullImage(image.id)`. The context is a class: its event log and step queue are sequences, its abort flag is a boolean, and its container list and command resolver are fixed at construction. `apply` is a method that loops over the matching containers. It is proved against `ImagePulledReaction`, a function that gives the steps queued. The lemmas cover the abort case, the missing network, exactly-once-per-container, step contents, order, and independence from the order of the log.
- **The console's ANSI styling** (`src/main/kotlin/batect/Console.kt`). A console has a fixed colour and bold flag and writes to a shared output stream. `withColor` and `inBold` run a block of print statements on a nested console. They skip the escape sequence when the style is already active. After a nested block they write reset, bold and colour to restore the enclosing console's style. The blocks, which are Kotlin lambdas with the console as receiver, are a `PrintCommand` datatype. `Render` gives what a block writes, as a sequence of text and SGR (Select Graphic Rendition, ECMA-48 section 8.3.117) outputs, and `Flatten` turns that into characters. The `Console` methods are proved to write exactly `Flatten(Render(…))`. A terminal interpreter for SGR parameters 0, 1 and 30 to 37 serves as an independent reference. It reads the text and SGR items of `Render`, not the characters they flatten to. The main theorem, `RenderDisplaysIntended`, says that every printed character is displayed in the style of its innermost enclosing block, and that the terminal is back in the console's style afterwards. This holds for printed text that contains no escape sequence of its own.
- **The value option of the command-line parser** (`src/main/kotlin/decompose/cli/ValueOption.kt`). The option definition checks its name, description and short name on construction. `ValueOption` is a class with the mutable fields `value` and `valueHasBeenSet`, which `reset` and `applyValue` overwrite. The invariant "a value is held exactly when one has been set" is kept, and over any run of resets and values the last one wins.
- **Positional parameter validation** (`src/main/kotlin/decompose/cli/PositionalParameterDefinition.kt`). The name must be non-empty and must equal its own upper-case form. The empty check comes first. The description is not checked.

Module layout: `Wrappers` (Option, Result), `TaskModel` (containers, events, steps, the context class), `ImagePulledEvents`, `Ansi` (colours, escape sequences, the terminal interpreter), `Consoles`, `ValueOptions`, `PositionalParameters`.

Two points about the image-pulled rule:
- `apply` matches a container when its image source equals `PullImage(image.id)` (`ImagePulledEvent.kt:35`), that is, when it names the id of the pulled image. The model compares the same way.
- `apply` looks up the network with `getSinglePastEventOfType` (`ImagePulledEvent.kt:31`), whose implementation is not part of this model. A log with two network-created events is therefore outside the model: `ImagePulledReaction` and `Apply` require at most one when the run is not aborting. The aborting path returns before the lookup (`ImagePulledEvent.kt:27-29`) and has no such requirement.

## Model

| member | source | states |
|---|---|---|
| TaskModel.SinglePastNetworkCreatedEvent | app/src/main/kotlin/batect/model/events/ImagePulledEvent.kt:31 | For a log with at most one network-created event: none exactly when the log holds none; otherwise the network of the one that is there |
| TaskModel.LookupAfterFirstNetworkCreated | app/src/main/kotlin/batect/model/events/ImagePulledEvent.kt:31-33 | After the first network-created event is posted, the lookup finds exactly that network |
| TaskModel.SecondNetworkCreatedIsDefect | app/src/main/kotlin/batect/model/events/ImagePulledEvent.kt:31 | A second network-created event puts the log outside the lookup's domain (two such events) |
| TaskModel.TaskEventContext.QueueStep | app/src/main/kotlin/batect/model/events/ImagePulledEvent.kt:42 | Queuing appends the step and leaves the log and the abort flag alone |
| ImagePulledEvents.ContainersUsing | app/src/main/kotlin/batect/model/events/ImagePulledEvent.kt:34-35 | A container is kept exactly when it is one of the task's containers and its image source is `PullImage(image.id)` |
| ImagePulledEvents.ContainersUsingKeepsOrder | app/src/main/kotlin/batect/model/events/ImagePulledEvent.kt:34-36 | The matching containers appear in the order they have in the task's container list |
| ImagePulledEvents.ContainersUsingCounts | app/src/main/kotlin/batect/model/events/ImagePulledEvent.kt:34-36 | A matching container occurs as often as in the task's list (once for the task's distinct containers); any other container does not occur |
| ImagePulledEvents.CreateSteps | app/src/main/kotlin/batect/model/events/ImagePulledEvent.kt:36 | One create step per matching container, position by position |
| ImagePulledEvents.ImagePulledReaction | app/src/main/kotlin/batect/model/events/ImagePulledEvent.kt:26-38 | Everything the rule queues is a create-container step for the pulled image |
| ImagePulledEvents.AbortingQueuesNothing | app/src/main/kotlin/batect/model/events/ImagePulledEvent.kt:27-29 | While the run is aborting, the rule queues nothing |
| ImagePulledEvents.NoNetworkQueuesNothing | app/src/main/kotlin/batect/model/events/ImagePulledEvent.kt:31-33 | Before any network-created event is in the log, the rule queues nothing |
| ImagePulledEvents.ReactionWithNetwork | app/src/main/kotlin/batect/model/events/ImagePulledEvent.kt:33-43 | With the network created and no abort: one step per matching container, in order, each bound to that container, its command, the image and the single network; a step is queued exactly when it is the step of a matching container |
| ImagePulledEvents.ReactionIgnoresLogOrder | app/src/main/kotlin/batect/model/events/ImagePulledEvent.kt:31-37 | Two logs holding the same events, in any order, give the same queued steps |
| ImagePulledEvents.CreateContainer | app/src/main/kotlin/batect/model/events/ImagePulledEvent.kt:40-43 | `createContainer` appends exactly that container's step to the queue and changes nothing else |
| ImagePulledEvents.Apply | app/src/main/kotlin/batect/model/events/ImagePulledEvent.kt:26-38 | `apply` only appends to the step queue, and appends exactly the reaction's steps; log and abort flag unchanged |
| ImagePulledEvents.ToString | app/src/main/kotlin/batect/model/events/ImagePulledEvent.kt:45 | `toString` is `ImagePulledEvent(image: '`, the image id, then `')` |
| ImagePulledEvents.ToStringInjective | app/src/main/kotlin/batect/model/events/ImagePulledEvent.kt:45 | Two events print alike exactly when they pulled the same image |
| Ansi.ConsoleColor.Code | src/main/kotlin/batect/Console.kt:78-87 | Each colour's SGR code lies between 30 and 37 |
| Ansi.ColorOfCode | src/main/kotlin/batect/Console.kt:78-87 | A code names a colour exactly when it is 30 to 37, and that colour's code is the code |
| Ansi.ColorCodeRoundTrip | src/main/kotlin/batect/Console.kt:78-87 | Each colour's code selects that colour again |
| Ansi.ColorCodesDistinct | src/main/kotlin/batect/Console.kt:78-87 | The eight colours have pairwise distinct codes |
| Ansi.DecimalRoundTrip | src/main/kotlin/batect/Console.kt:73 | The code is written as non-empty decimal digits that read back as the code |
| Ansi.EscapeSequence | src/main/kotlin/batect/Console.kt:72-73 | An escape sequence has at least four characters, starts with ESC and `[`, and ends with `m` |
| Ansi.EscapeSequenceParses | src/main/kotlin/batect/Console.kt:72-73 | `escapeSequence(code)` is ESC, `[`, decimal digits, `m`, and the digits are the code |
| Ansi.EscapeSequenceInjective | src/main/kotlin/batect/Console.kt:73 | Different codes give different escape sequences |
| Ansi.EscapeSequenceValues | src/main/kotlin/batect/Console.kt:72-75 | Reset is `ESC[0m`, bold is `ESC[1m`, and colour codes give `ESC[30m` to `ESC[37m` |
| Consoles.RenderUsesConsoleCodes | src/main/kotlin/batect/Console.kt:24-58 | What a block renders to holds no SGR parameter other than reset, bold and the eight colour codes |
| Consoles.RenderDisplaysIntended | src/main/kotlin/batect/Console.kt:24-70 | For any nesting of blocks, a terminal in the console's style displays each character in the style of its innermost `withColor`/`inBold` (colour `c` with the original bold flag, or the original colour with bold), and ends in the console's style |
| Consoles.RestoreReturnsToStyle | src/main/kotlin/batect/Console.kt:60-70 | Whatever style the terminal is in, the restore puts it back into the console's own style and displays nothing |
| Consoles.PrefixSelects | src/main/kotlin/batect/Console.kt:30-38 | The sequences written before a block of another colour take the terminal to the nested console's style |
| Consoles.SwitchText | src/main/kotlin/batect/Console.kt:30-38 | Switching colour writes reset, then bold if the console is bold, only when the console has a colour; then the new colour code |
| Consoles.WithColorSwitchText | src/main/kotlin/batect/Console.kt:30-40 | `withColor` of another colour writes the switch, the block as the nested console writes it, then the restore |
| Consoles.WithColorSameColorText | src/main/kotlin/batect/Console.kt:25-28 | `withColor` of the console's own colour writes exactly what the block writes |
| Consoles.InBoldText | src/main/kotlin/batect/Console.kt:43-51 | `inBold` on a bold console writes exactly the block; otherwise `ESC[1m`, the block in bold, then the restore |
| Consoles.RestoreTextValue | src/main/kotlin/batect/Console.kt:60-70 | The restore writes reset, then bold if bold, then the console's colour if it has one |
| Consoles.PrintBoldOnPlainConsole | src/main/kotlin/batect/Console.kt:54-58 | `printBold(t)` on a plain console writes `ESC[1m`, t, `ESC[0m` |
| Consoles.Console.constructor | src/main/kotlin/batect/Console.kt:17 | A console holds the given stream, colour and bold flag |
| Consoles.Console.Plain | src/main/kotlin/batect/Console.kt:18 | The one-argument console has no colour and is not bold |
| Consoles.Console.Print | src/main/kotlin/batect/Console.kt:20 | Appends the text to the stream |
| Consoles.Console.Println | src/main/kotlin/batect/Console.kt:21 | Appends the text and a line separator |
| Consoles.Console.PrintlnEmpty | src/main/kotlin/batect/Console.kt:22 | Appends a line separator |
| Consoles.Console.Run | src/main/kotlin/batect/Console.kt:26 | Running a block on a console appends what the block renders to in the console's style |
| Consoles.Console.WriteSwitch | src/main/kotlin/batect/Console.kt:30-38 | Appends reset, then bold if bold, only when the console has a colour; then the new colour's sequence |
| Consoles.Console.WithColor | src/main/kotlin/batect/Console.kt:24-41 | Appends exactly the rendering of `withColor(c) { body }` in the console's style |
| Consoles.Console.InBold | src/main/kotlin/batect/Console.kt:43-52 | Appends exactly the rendering of `inBold { body }` in the console's style |
| Consoles.Console.PrintBold | src/main/kotlin/batect/Console.kt:54-58 | Appends what `inBold { print(text) }` writes |
| Consoles.Console.ReturnConsoleToCurrentState | src/main/kotlin/batect/Console.kt:60-70 | Appends reset, bold if bold, and the colour if any |
| ValueOptions.ValidateOptionDefinition | src/test/kotlin/decompose/cli/OptionDefinitionSpec.kt:38-72 | A definition is accepted exactly when the name is non-empty, does not start with `-` and has at least two characters, the description is non-empty, and any short name is alphanumeric; an empty name gives the empty-name message, not the length message |
| ValueOptions.OptionDefinitionExamples | src/test/kotlin/decompose/cli/OptionDefinitionSpec.kt:20-72 | Each definition the tests create is accepted or rejected with the message the tests expect |
| ValueOptions.Step | src/main/kotlin/decompose/cli/ValueOption.kt:13-21 | Reset and applying a value both leave a consistent state |
| ValueOptions.LastEventWins | src/main/kotlin/decompose/cli/ValueOption.kt:13-21 | After any non-empty run of resets and values, the state is fixed by the last one alone: the last value applied, or cleared after a final reset |
| ValueOptions.ReplayKeepsConsistent | src/main/kotlin/decompose/cli/ValueOption.kt:13-21 | Any run of resets and values keeps "value held exactly when set" |
| ValueOptions.ResetIdempotent | src/main/kotlin/decompose/cli/ValueOption.kt:13-16 | Resetting twice is resetting once |
| ValueOptions.ValueOption.constructor | src/main/kotlin/decompose/cli/ValueOption.kt:6-11 | A new option has no value and no value set |
| ValueOptions.ValueOption.Create | src/main/kotlin/decompose/cli/ValueOption.kt:6-11 | Construction fails exactly when a definition check fails, with that check's message; otherwise a fresh option with no value |
| ValueOptions.ValueOption.Reset | src/main/kotlin/decompose/cli/ValueOption.kt:13-16 | After `reset`, no value and `valueHasBeenSet` false, whatever came before |
| ValueOptions.ValueOption.ApplyValue | src/main/kotlin/decompose/cli/ValueOption.kt:18-21 | After `applyValue(v)`, the value is v and `valueHasBeenSet` is true |
| ValueOptions.OptionParser.AddOption | src/main/kotlin/decompose/cli/ValueOption.kt:24 | `addOption` appends the option to the parser's list |
| ValueOptions.ValueOption.ProvideDelegate | src/main/kotlin/decompose/cli/ValueOption.kt:23-26 | Registers the option with the parser, returns the option itself, leaves its state alone |
| ValueOptions.ValueOption.GetValue | src/main/kotlin/decompose/cli/ValueOption.kt:28 | Returns the current value, present exactly when one has been set |
| PositionalParameters.NewPositionalParameter | src/main/kotlin/decompose/cli/PositionalParameterDefinition.kt:3-12 | An empty name gives the empty-name error, checked first; a name that differs from its upper case gives the upper-case error; a non-empty name equal to its upper case is accepted, with name and description stored unchanged |
| PositionalParameters.ToUpperCase | src/main/kotlin/decompose/cli/PositionalParameterDefinition.kt:9 | Upper-casing keeps the length and maps each character to its upper case, position by position |
| PositionalParameters.UppercaseIffNoLowerCase | src/main/kotlin/decompose/cli/PositionalParameterDefinition.kt:9-11 | A name equals its upper case exactly when it holds no lower-case letter |
| PositionalParameters.ToUpperCaseIdempotent | src/main/kotlin/decompose/cli/PositionalParameterDefinition.kt:9 | Upper-casing an upper-cased name changes nothing |
| PositionalParameters.AcceptedNames | src/main/kotlin/decompose/cli/PositionalParameterDefinition.kt:3-12 | Accepted exactly when the name is non-empty and has no lower-case letter, whatever the description |
| PositionalParameters.UpperCasedNamesAccepted | src/main/kotlin/decompose/cli/PositionalParameterDefinition.kt:9-11 | Every non-empty upper-cased string is accepted |
| PositionalParameters.AcceptedExamples | src/main/kotlin/decompose/cli/PositionalParameterDefinition.kt:3-12 | Names without letters and empty descriptions are accepted; a lower-case name and an empty name are rejected with their messages |

## Left out

- The implementations of the event context's `getSinglePastEventOfType`, `commandForContainer` and `queueStep` are not part of this model. The lookup is modelled as "the one matching event, or none". A log with two network-created events is a precondition violation when the run is not aborting, not an error path. `queueStep` is an append to the step queue. `commandForContainer` is a function the context is given.
- The network-created rule (the other half of the join), the other events and steps, the executors, `postEvent` and its serialisation, and the worker pool are not part of this model. The image-pulled reaction is a pure function of the log, the abort flag and the containers, so the other half can be composed with it.
- The task's containers are a Kotlin collection. The model keeps them as a sequence in iteration order. Distinctness is not assumed; `ContainersUsingCounts` states the multiplicity in general.
- `toString` uses the runtime class name. The model writes it as the literal `ImagePulledEvent`.
- Console: the `PrintStream` and the real write are modelled as an object holding the text written so far. `println` ends a line with `"\n"` rather than the platform's line separator.
- Console: blocks are a first-order command datatype. A Kotlin lambda that calls an enclosing console, or that computes between prints, is not captured.
- Console: the terminal interpreter knows only SGR parameters 0, 1 and 30 to 37, which are the ones the console writes.
- Console: the terminal interprets the console's writes as text and SGR items, not as characters. An escape sequence inside printed text is shown as plain characters, whereas a real terminal would act on it: `print("\u001B[31m")` followed by `print("x")` writes the same characters as `withColor(Red) { print("x") }`, but the model displays that `x` in the console's style.
- `OptionDefinition.kt` is not part of this model. The five conditions in `ValidateOptionDefinition`'s if-and-only-if are inferred from the nine definitions in `OptionDefinitionSpec.kt`. The tests fix one thing about the order of the checks: an empty name is reported with the empty-name message, not the length message. The rest of the order is a modelling choice: empty name, leading dash, length, description, then short name. In particular, the description check comes before the short-name check.
- ValueOptions.ValidateOptionDefinition: the short-name alphanumeric check is modelled on ASCII letters and digits only.
- `valueHasBeenSet` is declared in `OptionDefinition`; its initial value is taken to be false.
- `provideDelegate`: the Kotlin property-delegation machinery is left out. Registration is an append to the parser's option list.
- PositionalParameters.ToUpperCase: `toUpperCase` is modelled on ASCII only. Locale rules and Unicode case mappings that change length are not captured.
