/**
 * The injector symbol processor: one call of `Process` per compilation round.
 * It hands the host back the marked symbols that do not validate yet, renders
 * one Koin registration per valid marked class into a line buffer it shares
 * with its visitors, and writes one module file per round that rendered
 * anything, numbered by a counter that lives as long as the processor.
 */
module Injector {
  import opened Symbols
  import opened Rendering
  import opened Host

  const NotOnClassMessage := "Annotation not on class ?"

  /** The key of the module file written when the counter reads `index`. */
  function ModuleKey(index: nat): FileKey
  {
    FileKey(GeneratedPackage, ModuleName(index))
  }

  // ---------------------------------------------------------------------
  // Visiting one class (InjectorProcessor.kt lines 57-68)
  // ---------------------------------------------------------------------

  /** A mutable list of strings, shared by reference. */
  class LineList {
    var items: seq<string>

    constructor ()
      ensures items == []
    {
      items := [];
    }

    method Add(line: string)
      modifies this
      ensures items == old(items) + [line]
    {
      items := items + [line];
    }
  }

  /**
   * What visiting a processed class produces: its registration line, or the
   * exception the visit throws. A missing primary constructor is found first.
   */
  function Binding(classDeclaration: Symbol): Result<string>
    requires classDeclaration.ClassDecl?
  {
    match classDeclaration.primaryConstructor
    case None => Err(NullPointer)
    case Some(parameters) =>
      match classDeclaration.qualifiedName
      case None => Err(IllegalState(NotOnClassMessage))
      case Some(className) => Ok(RenderLine(className, |parameters|))
  }

  class InjectorVisitor {
    const lines: LineList

    constructor (lines: LineList)
      ensures this.lines == lines
    {
      this.lines := lines;
    }

    /** Visits the class's primary constructor, which must exist. */
    method VisitClassDeclaration(classDeclaration: Symbol) returns (failure: Option<Failure>)
      requires classDeclaration.ClassDecl?
      modifies lines
      ensures Binding(classDeclaration).Ok? ==>
        failure == None && lines.items == old(lines.items) + [Binding(classDeclaration).value]
      ensures Binding(classDeclaration).Err? ==>
        failure == Some(Binding(classDeclaration).error) && lines.items == old(lines.items)
    {
      match classDeclaration.primaryConstructor
      case None =>
        failure := Some(NullPointer);
      case Some(constructorParameters) =>
        failure := VisitFunctionDeclaration(constructorParameters, classDeclaration);
    }

    /**
     * Visits a constructor with the given parameters, declared in `parent`:
     * appends the parent's registration line, one lookup per parameter.
     */
    method VisitFunctionDeclaration(parameters: seq<Param>, parent: Symbol) returns (failure: Option<Failure>)
      modifies lines
      ensures !parent.ClassDecl? ==> failure == Some(ClassCast) && lines.items == old(lines.items)
      ensures parent.ClassDecl? && parent.qualifiedName.None? ==>
        failure == Some(IllegalState(NotOnClassMessage)) && lines.items == old(lines.items)
      ensures parent.ClassDecl? && parent.qualifiedName.Some? ==>
        failure == None && lines.items == old(lines.items) + [RenderLine(parent.qualifiedName.value, |parameters|)]
    {
      if !parent.ClassDecl? {
        return Some(ClassCast);
      }
      match parent.qualifiedName
      case None =>
        failure := Some(IllegalState(NotOnClassMessage));
      case Some(className) =>
        lines.Add(RenderLine(className, |parameters|));
        failure := None;
    }
  }

  // ---------------------------------------------------------------------
  // The forEach over the processed classes (line 43)
  // ---------------------------------------------------------------------

  predicate AllClasses(symbols: seq<Symbol>)
  {
    forall s :: s in symbols ==> s.ClassDecl?
  }

  /**
   * The lines appended by visiting `classes` in order, and the exception
   * that stopped the visits, if one did. Defined on the last class so that
   * it follows the loop step by step.
   */
  function VisitAll(classes: seq<Symbol>): (seq<string>, Option<Failure>)
    requires AllClasses(classes)
  {
    if classes == [] then ([], None)
    else
      var (appended, failure) := VisitAll(classes[..|classes| - 1]);
      if failure.Some? then (appended, failure)
      else match Binding(classes[|classes| - 1])
        case Err(e) => (appended, Some(e))
        case Ok(line) => (appended + [line], None)
  }

  /** Once a visit has thrown, later classes change nothing. */
  lemma {:induction false} VisitAllStops(classes: seq<Symbol>, k: nat)
    requires AllClasses(classes) && k <= |classes|
    requires VisitAll(classes[..k]).1.Some?
    ensures VisitAll(classes) == VisitAll(classes[..k])
    decreases |classes| - k
  {
    if k < |classes| {
      var next := classes[..k + 1];
      assert next[..k] == classes[..k];
      assert VisitAll(next) == VisitAll(classes[..k]);
      VisitAllStops(classes, k + 1);
    } else {
      assert classes[..k] == classes;
    }
  }

  /** A visit throws only the two exceptions of the visitor, never a file error. */
  lemma {:induction false} VisitAllFailures(classes: seq<Symbol>)
    requires AllClasses(classes)
    ensures VisitAll(classes).1.Some? ==>
      VisitAll(classes).1.value == NullPointer ||
      VisitAll(classes).1.value == IllegalState(NotOnClassMessage)
  {
    if classes != [] {
      VisitAllFailures(classes[..|classes| - 1]);
    }
  }

  /**
   * The visits all succeed exactly when every class has a primary
   * constructor and a qualified name; then there is one line per class, in
   * the order of the classes, each that class's registration.
   */
  lemma {:induction false} VisitAllSucceeds(classes: seq<Symbol>)
    requires AllClasses(classes)
    ensures VisitAll(classes).1.None? <==> forall c :: c in classes ==> Binding(c).Ok?
    ensures VisitAll(classes).1.None? ==>
      |VisitAll(classes).0| == |classes| &&
      forall i :: 0 <= i < |classes| ==> VisitAll(classes).0[i] == Binding(classes[i]).value
  {
    if classes != [] {
      var init := classes[..|classes| - 1];
      VisitAllSucceeds(init);
      assert classes == init + [classes[|classes| - 1]];
    }
  }

  /**
   * The first class whose visit throws decides the exception; the lines of
   * the classes before it stay appended.
   */
  lemma {:induction false} VisitAllFailsAt(classes: seq<Symbol>, k: nat)
    requires AllClasses(classes) && k < |classes|
    requires forall j :: 0 <= j < k ==> Binding(classes[j]).Ok?
    requires Binding(classes[k]).Err?
    ensures VisitAll(classes).1 == Some(Binding(classes[k]).error)
    ensures VisitAll(classes).0 == VisitAll(classes[..k]).0
    ensures |VisitAll(classes).0| == k
  {
    var before := classes[..k];
    VisitAllSucceeds(before);
    var upTo := classes[..k + 1];
    assert upTo[..k] == before;
    assert VisitAll(upTo) == (VisitAll(before).0, Some(Binding(classes[k]).error));
    VisitAllStops(classes, k + 1);
    assert classes[..k + 1] == upTo;
  }

  // ---------------------------------------------------------------------
  // One round (InjectorProcessor.kt lines 20-54)
  // ---------------------------------------------------------------------

  /** What a round can observe and change. */
  datatype RoundState = RoundState(
    count: nat,
    buffer: seq<string>,
    files: map<FileKey, seq<string>>,
    closed: set<FileKey>)

  /**
   * No module file is named after the current counter value or a later
   * one, so every coming round has a free name.
   */
  ghost predicate NamesAhead(s: RoundState)
  {
    forall k: nat :: k >= s.count ==> ModuleKey(k) !in s.files
  }

  /**
   * A round: the new state and either the deferred symbols or the exception
   * that ended the round. No file is touched when nothing is ready.
   */
  function Round(s: RoundState, symbols: seq<Symbol>): (RoundState, Result<seq<Symbol>>)
  {
    var ready := ReadyOf(symbols);
    if ready == [] then (s, Ok(DeferredOf(symbols)))
    else
      var (s', failure) := WriteModule(s, ready);
      (s', if failure.Some? then Err(failure.value) else Ok(DeferredOf(symbols)))
  }

  /**
   * Creating, filling and closing the module file for the classes `ready`.
   * When a visit throws, the file keeps the four header lines, is not
   * closed, and the counter stays.
   */
  function WriteModule(s: RoundState, ready: seq<Symbol>): (RoundState, Option<Failure>)
    requires AllClasses(ready)
  {
    var key := ModuleKey(s.count);
    if key in s.files then (s, Some(FileAlreadyExists(ModuleName(s.count))))
    else
      var (appended, failure) := VisitAll(ready);
      var buffer := s.buffer + appended;
      if failure.Some? then (s.(buffer := buffer, files := s.files[key := ModuleHeader(s.count)]), failure)
      else (RoundState(s.count + 1, buffer, s.files[key := ModuleFile(s.count, buffer)], s.closed + {key}), None)
  }

  // ---------------------------------------------------------------------
  // The processor object
  // ---------------------------------------------------------------------

  class InjectorProcessor {
    const codeGenerator: CodeGenerator
    var count: nat
    var lines: LineList

    ghost function State(): RoundState
      reads this, lines, codeGenerator
    {
      RoundState(count, lines.items, codeGenerator.files, codeGenerator.closed)
    }

    constructor (codeGenerator: CodeGenerator)
      ensures this.codeGenerator == codeGenerator && fresh(lines)
      ensures count == 0 && lines.items == []
    {
      this.codeGenerator := codeGenerator;
      count := 0;
      lines := new LineList();
    }

    method Process(symbols: seq<Symbol>) returns (r: Result<seq<Symbol>>)
      requires codeGenerator.Valid()
      modifies this, lines, codeGenerator
      ensures codeGenerator.Valid() && lines == old(lines)
      ensures (State(), r) == Round(old(State()), symbols)
      ensures old(NamesAhead(State())) && r.Ok? ==> NamesAhead(State())
    {
      var ret := DeferredOf(symbols);
      var process := ReadyOf(symbols);
      if process != [] {
        var failure := WriteModuleFile(process);
        if failure.Some? {
          return Err(failure.value);
        }
      }
      r := Ok(ret);
    }

    /** Lines 27-50 of the source, for a non-empty list of classes to process. */
    method WriteModuleFile(process: seq<Symbol>) returns (failure: Option<Failure>)
      requires codeGenerator.Valid() && AllClasses(process)
      modifies this, lines, codeGenerator
      ensures codeGenerator.Valid() && lines == old(lines)
      ensures (State(), failure) == WriteModule(old(State()), process)
      ensures old(NamesAhead(State())) && failure.None? ==> NamesAhead(State())
    {
      var index := count;
      var created := codeGenerator.CreateNewFile(GeneratedPackage, ModuleName(index));
      if created.Err? {
        return Some(created.error);
      }
      var file := created.value;
      assert file == ModuleKey(index);
      WriteHeader(file, index);
      assert [] + ModuleHeader(index) == ModuleHeader(index);
      ghost var withHeader := codeGenerator.files;
      assert withHeader == old(codeGenerator.files)[file := ModuleHeader(index)];

      failure := VisitEach(process);
      if failure.Some? {
        assert State() == old(State()).(buffer := lines.items, files := withHeader);
        return;
      }

      WriteBodyAndClose(file, index);
      count := count + 1;
      assert State() == WriteModule(old(State()), process).0;
      forall k: nat | k >= count
        ensures ModuleKey(k) in codeGenerator.files ==> ModuleKey(k) in old(codeGenerator.files)
      {
        ModuleNamesDistinct(k, index);
      }
    }

    /** Lines 31-41 of the source: the package line, the imports and the class opening. */
    method WriteHeader(file: FileKey, index: nat)
      requires codeGenerator.Valid() && file in codeGenerator.files && file !in codeGenerator.closed
      modifies codeGenerator
      ensures codeGenerator.Valid() && codeGenerator.closed == old(codeGenerator.closed)
      ensures codeGenerator.files == old(codeGenerator.files)[file := old(codeGenerator.files[file]) + ModuleHeader(index)]
    {
      var header := ModuleHeader(index);
      ghost var before := codeGenerator.files[file];
      codeGenerator.AppendLine(file, header[0]);
      codeGenerator.AppendLine(file, header[1]);
      codeGenerator.AppendLine(file, header[2]);
      codeGenerator.AppendLine(file, header[3]);
      assert before + [header[0]] + [header[1]] + [header[2]] + [header[3]] == before + header;
    }

    /** Lines 44-48 of the source: the buffered lines, the closing braces, and the close. */
    method WriteBodyAndClose(file: FileKey, index: nat)
      requires codeGenerator.Valid() && file in codeGenerator.files && file !in codeGenerator.closed
      requires codeGenerator.files[file] == ModuleHeader(index)
      modifies codeGenerator
      ensures codeGenerator.Valid() && codeGenerator.closed == old(codeGenerator.closed) + {file}
      ensures codeGenerator.files == old(codeGenerator.files)[file := ModuleFile(index, lines.items)]
    {
      var body := JoinToString(lines.items, "\n");
      codeGenerator.AppendLine(file, body);
      codeGenerator.AppendLine(file, "    }");
      codeGenerator.AppendLine(file, "}");
      assert ModuleHeader(index) + [body] + ["    }"] + ["}"] == ModuleFile(index, lines.items);
      codeGenerator.Close(file);
    }

    /** Visits each processed class in order with a fresh visitor over the shared list; the first exception ends the loop. */
    method VisitEach(process: seq<Symbol>) returns (failure: Option<Failure>)
      requires AllClasses(process)
      modifies lines
      ensures lines.items == old(lines.items) + VisitAll(process).0
      ensures failure == VisitAll(process).1
    {
      var i := 0;
      while i < |process|
        invariant 0 <= i <= |process|
        invariant VisitAll(process[..i]).1.None?
        invariant lines.items == old(lines.items) + VisitAll(process[..i]).0
      {
        var visitor := new InjectorVisitor(lines);
        var thrown := visitor.VisitClassDeclaration(process[i]);
        assert process[..i + 1][..i] == process[..i];
        if thrown.Some? {
          VisitAllStops(process, i + 1);
          return thrown;
        }
        i := i + 1;
      }
      assert process[..i] == process;
      failure := None;
    }
  }
}
