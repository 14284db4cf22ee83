# Injector symbol processor, modelled in Dafny

This project models the Kotlin symbol processor `InjectorProcessor` of melijn-bot. It runs once per
compilation round:

- It takes the declarations marked `@Inject`.
- It hands back to the host every declaration whose types do not resolve yet.
- For each valid marked class, it renders one Koin registration line of the form
  `single { C(get(), …) } bind C::class`, with one `get()` per primary-constructor parameter.
- It writes a generated module file, `InjectionKoinModule<count>` in package `me.melijn.gen`,
  that holds the accumulated registration lines.
- It bumps a counter that lives as long as the processor.

The files:

- `symbols.dfy` (module `Symbols`) has the marked declarations and the processor's exceptions.
  It also has the two filters the round applies and their partition lemmas.
- `rendering.dfy` (module `Rendering`) has the registration line and the generated file's text.
  - The lookup list (`LookupList`/`ParseLookups`) and the registration line
    (`RenderLine`/`ParseLine`) each have a parser, proved inverse in both directions.
  - The module body has a one-way splitter, `SplitBody`, proved to give back the joined lines.
  - The counter's decimal rendering, and so the module name, is proved injective; it has no parser.
  - The module header and the file layout (`ModuleHeader`, `ModuleFile`) have no parser.
- `host.dfy` (module `Host`) has the host's code generator: an in-memory map from file key to the
  strings appended to the file, plus the set of closed files.
- `injector.dfy` (module `Injector`) has three classes:
  - `LineList`: the shared mutable list.
  - `InjectorVisitor`: the visitor, which appends to that list.
  - `InjectorProcessor`: holds `count` and `lines`. Its `Process` method is proved to follow the
    pure function `Round`.
- `rounds.dfy` (module `Rounds`) states what a round and a run of rounds guarantee, as lemmas
  about `Round`.

Three behaviours of the processor are easy to overlook, and the model states each one:

- The `lines` buffer is a field of the processor and is never cleared. The module written by a
  later round therefore repeats every line of the earlier modules (`Rounds.LaterRoundReEmits`,
  and concretely `Rounds.LateBazRounds`).
- A processed class without a primary constructor, or without a qualified name, throws. This ends
  the whole round after the file has been created: the file keeps its header, is never closed,
  the counter does not move, and the classes after it are not visited (`Rounds.RoundFailsAt`).
- A valid marked declaration that is not a class is dropped without any diagnostic
  (`Symbols.DroppedOf`).

## Model

| member | source | states |
|---|---|---|
| `Symbols.DeferredOf` | annotation-processors/src/main/kotlin/me/melijn/annotationprocessors/injector/InjectorProcessor.kt:22 | the returned list holds exactly the scanned symbols that do not validate |
| `Symbols.ReadyOf` | annotation-processors/src/main/kotlin/me/melijn/annotationprocessors/injector/InjectorProcessor.kt:24-25 | the processed list holds exactly the scanned symbols that are class declarations and validate |
| `Symbols.DroppedOf` | annotation-processors/src/main/kotlin/me/melijn/annotationprocessors/injector/InjectorProcessor.kt:22-25 | the symbols neither filter keeps are exactly the valid non-classes |
| `Symbols.Partition` | annotation-processors/src/main/kotlin/me/melijn/annotationprocessors/injector/InjectorProcessor.kt:21-25 | deferred, processed and dropped symbols together are the scanned symbols, each occurrence in exactly one of them |
| `Symbols.DeferredAndReadyDisjoint` | annotation-processors/src/main/kotlin/me/melijn/annotationprocessors/injector/InjectorProcessor.kt:22-25 | no symbol is both handed back and processed |
| `Symbols.DeferredOfAppend` | annotation-processors/src/main/kotlin/me/melijn/annotationprocessors/injector/InjectorProcessor.kt:22 | the deferred list keeps scan order (the filter distributes over concatenation) |
| `Symbols.ReadyOfAppend` | annotation-processors/src/main/kotlin/me/melijn/annotationprocessors/injector/InjectorProcessor.kt:24-25 | the processed list keeps scan order |
| `Rendering.NatToString` | annotation-processors/src/main/kotlin/me/melijn/annotationprocessors/injector/InjectorProcessor.kt:29 | the counter prints as a non-empty string of decimal digits |
| `Rendering.NatToStringInjective` | annotation-processors/src/main/kotlin/me/melijn/annotationprocessors/injector/InjectorProcessor.kt:29 | different counter values print differently |
| `Rendering.ModuleNamesDistinct` | annotation-processors/src/main/kotlin/me/melijn/annotationprocessors/injector/InjectorProcessor.kt:29 | `InjectionKoinModule<count>` names differ for different counter values |
| `Rendering.LookupListRoundTrip` | annotation-processors/src/main/kotlin/me/melijn/annotationprocessors/injector/InjectorProcessor.kt:66 | the joined argument list reads back as exactly n `get()` lookups; zero parameters give the empty list |
| `Rendering.ParseLookupsExact` | annotation-processors/src/main/kotlin/me/melijn/annotationprocessors/injector/InjectorProcessor.kt:66 | the only text that reads as n lookups is the rendered list of n `get()` |
| `Rendering.ParseRenderedLine` | annotation-processors/src/main/kotlin/me/melijn/annotationprocessors/injector/InjectorProcessor.kt:66 | a registration line reads back as its class name and its parameter count |
| `Rendering.ParsedLineIsRendered` | annotation-processors/src/main/kotlin/me/melijn/annotationprocessors/injector/InjectorProcessor.kt:66 | every line the parser accepts is the registration line of what it read |
| `Rendering.RenderedLineIsOneLine` | annotation-processors/src/main/kotlin/me/melijn/annotationprocessors/injector/InjectorProcessor.kt:66 | a registration line ends in its only newline |
| `Rendering.SplitJoinedBody` | annotation-processors/src/main/kotlin/me/melijn/annotationprocessors/injector/InjectorProcessor.kt:44 | the body joined with "\n" splits back into the buffered lines, each once and in order |
| `Host.CodeGenerator.constructor` | annotation-processors/src/main/kotlin/me/melijn/annotationprocessors/injector/InjectorProcessor.kt:12 | the host starts with no files |
| `Host.CodeGenerator.CreateNewFile` | annotation-processors/src/main/kotlin/me/melijn/annotationprocessors/injector/InjectorProcessor.kt:28-29 | creates an empty file under package and name, or refuses a name already created |
| `Host.CodeGenerator.AppendLine` | annotation-processors/src/main/kotlin/me/melijn/annotationprocessors/injector/InjectorProcessor.kt:31-47 | appends one string to an open file, nothing else changes |
| `Host.CodeGenerator.Close` | annotation-processors/src/main/kotlin/me/melijn/annotationprocessors/injector/InjectorProcessor.kt:48 | marks the file closed, contents unchanged |
| `Injector.LineList.constructor` | annotation-processors/src/main/kotlin/me/melijn/annotationprocessors/injector/InjectorProcessor.kt:18 | the buffer starts empty |
| `Injector.LineList.Add` | annotation-processors/src/main/kotlin/me/melijn/annotationprocessors/injector/InjectorProcessor.kt:66 | appends exactly one line at the end |
| `Injector.InjectorVisitor.constructor` | annotation-processors/src/main/kotlin/me/melijn/annotationprocessors/injector/InjectorProcessor.kt:57 | the visitor shares the processor's list, not a copy |
| `Injector.InjectorVisitor.VisitClassDeclaration` | annotation-processors/src/main/kotlin/me/melijn/annotationprocessors/injector/InjectorProcessor.kt:58-60 | a class without a primary constructor throws and appends nothing; otherwise it visits that constructor |
| `Injector.InjectorVisitor.VisitFunctionDeclaration` | annotation-processors/src/main/kotlin/me/melijn/annotationprocessors/injector/InjectorProcessor.kt:62-67 | a parent that is not a class, or that has no qualified name, throws and appends nothing; otherwise exactly the parent's registration line is appended |
| `Injector.VisitAllStops` | annotation-processors/src/main/kotlin/me/melijn/annotationprocessors/injector/InjectorProcessor.kt:43 | once a visit has thrown, later classes are not visited |
| `Injector.VisitAllFailures` | annotation-processors/src/main/kotlin/me/melijn/annotationprocessors/injector/InjectorProcessor.kt:59-65 | visiting throws only the missing-constructor and missing-name exceptions |
| `Injector.VisitAllSucceeds` | annotation-processors/src/main/kotlin/me/melijn/annotationprocessors/injector/InjectorProcessor.kt:43-66 | the visits succeed if and only if every class has a constructor and a name; then there is one line per class, in order |
| `Injector.VisitAllFailsAt` | annotation-processors/src/main/kotlin/me/melijn/annotationprocessors/injector/InjectorProcessor.kt:43-65 | the first failing class decides the exception, and the lines of the classes before it stay |
| `Injector.InjectorProcessor.constructor` | annotation-processors/src/main/kotlin/me/melijn/annotationprocessors/injector/InjectorProcessor.kt:11-18 | the counter starts at 0 and the buffer empty |
| `Injector.InjectorProcessor.Process` | annotation-processors/src/main/kotlin/me/melijn/annotationprocessors/injector/InjectorProcessor.kt:20-54 | the new counter, buffer, files and result are those `Round` gives; the counter's name and all later names stay free after a round that does not throw |
| `Injector.InjectorProcessor.WriteModuleFile` | annotation-processors/src/main/kotlin/me/melijn/annotationprocessors/injector/InjectorProcessor.kt:27-50 | the create, header, visit, body, close and increment steps give the state `WriteModule` describes |
| `Injector.InjectorProcessor.WriteHeader` | annotation-processors/src/main/kotlin/me/melijn/annotationprocessors/injector/InjectorProcessor.kt:31-41 | appends the package line, the import block, the class opening and the module opening, in that order, to the open file, and changes nothing else |
| `Injector.InjectorProcessor.WriteBodyAndClose` | annotation-processors/src/main/kotlin/me/melijn/annotationprocessors/injector/InjectorProcessor.kt:44-48 | after the header, appends the buffer joined by newlines and the two closing braces, then closes the file, so the file is the complete module |
| `Injector.InjectorProcessor.VisitEach` | annotation-processors/src/main/kotlin/me/melijn/annotationprocessors/injector/InjectorProcessor.kt:43 | the forEach appends the lines of the visited classes in order and stops at the first exception |
| `Rounds.RoundReturnsDeferred` | annotation-processors/src/main/kotlin/me/melijn/annotationprocessors/injector/InjectorProcessor.kt:27-53 | a round that does not throw returns the deferred symbols; with nothing to process it changes no file, counter or buffer |
| `Rounds.RoundWritesOneModule` | annotation-processors/src/main/kotlin/me/melijn/annotationprocessors/injector/InjectorProcessor.kt:27-49 | with every processed class well formed, exactly one file named after the counter is added and closed, it holds the fixed header, the whole buffer and the closing braces, and the counter rises by one |
| `Rounds.RoundAppendsInOrder` | annotation-processors/src/main/kotlin/me/melijn/annotationprocessors/injector/InjectorProcessor.kt:43-66 | the buffer grows by one line per processed class, in processing order, without reordering or deduplication |
| `Rounds.RoundFailsAt` | annotation-processors/src/main/kotlin/me/melijn/annotationprocessors/injector/InjectorProcessor.kt:28-65 | a failing class ends the round with its exception; the file keeps only the header, stays open, and the counter stays |
| `Rounds.RoundWritesWhenOk` | annotation-processors/src/main/kotlin/me/melijn/annotationprocessors/injector/InjectorProcessor.kt:27-65 | a round that processed something and did not throw found its module name free and every processed class with a constructor and a name |
| `Rounds.BindingFailures` | annotation-processors/src/main/kotlin/me/melijn/annotationprocessors/injector/InjectorProcessor.kt:59-65 | a missing constructor throws a null-pointer error before the name is checked; a missing name throws "Annotation not on class ?" |
| `Rounds.BindingLookups` | annotation-processors/src/main/kotlin/me/melijn/annotationprocessors/injector/InjectorProcessor.kt:66 | for every class name, the line is the fixed prefix, the name, the argument list and the tail that repeats the name; the argument list reads back as one lookup per constructor parameter |
| `Rounds.BindingReadsBack` | annotation-processors/src/main/kotlin/me/melijn/annotationprocessors/injector/InjectorProcessor.kt:65-66 | for a name without '(', a class's line parses back to its qualified name and its number of constructor parameters |
| `Rounds.RoundBufferGrows` | annotation-processors/src/main/kotlin/me/melijn/annotationprocessors/injector/InjectorProcessor.kt:18-43 | no round removes a line from the buffer |
| `Rounds.WrittenBodyIsBuffer` | annotation-processors/src/main/kotlin/me/melijn/annotationprocessors/injector/InjectorProcessor.kt:43-44 | the body of the written file splits back into exactly the accumulated buffer |
| `Rounds.InitialTidy` | annotation-processors/src/main/kotlin/me/melijn/annotationprocessors/injector/InjectorProcessor.kt:16 | a fresh processor over a host without module files holds the naming invariant |
| `Rounds.RoundKeepsTidy` | annotation-processors/src/main/kotlin/me/melijn/annotationprocessors/injector/InjectorProcessor.kt:28-49 | from the invariant a round never collides with an existing file name, and a round that does not throw keeps it |
| `Rounds.RunWritesDistinctModules` | annotation-processors/src/main/kotlin/me/melijn/annotationprocessors/injector/InjectorProcessor.kt:16-49 | over rounds that do not throw, the counter counts the rounds that processed something, and the module files are exactly those numbered below it, all distinct and closed |
| `Rounds.LaterRoundReEmits` | annotation-processors/src/main/kotlin/me/melijn/annotationprocessors/injector/InjectorProcessor.kt:18-44 | the module of a later round is written from a buffer that starts with every line of the earlier module |
| `Rounds.FooBazRound` | annotation-processors/src/main/kotlin/me/melijn/annotationprocessors/injector/InjectorProcessor.kt:21-49 | with `Foo(bar: Bar)`, a stray function and `Baz()`, module 0 registers Foo with one lookup and then Baz with none, and the function is dropped |
| `Rounds.LateBazRounds` | annotation-processors/src/main/kotlin/me/melijn/annotationprocessors/injector/InjectorProcessor.kt:18-49 | with `Foo` valid and `Baz` not yet valid, module 0 registers Foo and Baz is handed back; once Baz is valid, module 1 registers Foo again and then Baz |

## Left out

- `Resolver.getSymbolsWithAnnotation` and `validate()` are library calls, so they are inputs here. A round receives the marked symbols as a sequence, and each symbol carries its validity as a boolean.
- `Dependencies(false)` is the incremental-build dependency information. The model ignores it, and a file is identified by its package and name only.
- The `appendLine` helper (`me.melijn.annotationprocessors.util`) is not part of this model. Each call appends one opaque string to the file, and its exact newline handling is not modelled.
- Host I/O failures during writing or closing are not modelled: appending to an open file always succeeds.
- Host.CodeGenerator.CreateNewFile: refusing a name that was already created is how the model's host behaves. The host library's own code is not part of this model.
- Injector.InjectorProcessor.Process: `count` is a Kotlin `Int`, modelled as an unbounded `nat`. A build would need 2^31 rounds to wrap it around.
- Injector.InjectorVisitor.VisitFunctionDeclaration: the `as KSClassDeclaration` cast is modelled as a `ClassCast` error. No processed class can reach it, because a primary constructor's parent is its class.
- KSP's visitor dispatch (`accept`) is modelled as direct calls to the matching visit method.
- Rendering.ParseRenderedLine: requires a class name without '('. Qualified names never contain one outside backticks.
- Rounds.BindingReadsBack: requires a class name without '('. A Kotlin name in backticks can contain one, and for such a name the parser stops at the wrong parenthesis. `Rounds.BindingLookups` states the line's shape and the lookup count for every name.
- Rounds.WrittenBodyIsBuffer: requires class names without newlines. A Kotlin name cannot contain a line break, even in backticks.
- The logger is never used by the processor.
- `bot/src/main/kotlin/me/melijn/bot/commands/OsuExtension.kt` is not part of this model. It is an HTTP client and chat UI.
- `bot/src/main/kotlin/me/melijn/bot/music/TrackLoader.kt` is not part of this model. It consists of network calls and a database cache.
- `bot/src/main/kotlin/me/melijn/bot/database/model/GuildSettings.kt` and `GuildUserSettings.kt` are not part of this model. They are declarative table definitions with no behaviour.
