/**
 * What one round and a run of rounds of the injector processor guarantee,
 * stated over the `Round` function that `InjectorProcessor.Process` is
 * proved to follow.
 */
module Rounds {
  import opened Symbols
  import opened Rendering
  import opened Host
  import opened Injector

  // ---------------------------------------------------------------------
  // One round
  // ---------------------------------------------------------------------

  /**
   * The round hands back exactly the symbols that do not validate, in scan
   * order, whenever it does not throw; a round with nothing to render
   * touches no file, no counter and no buffer.
   */
  lemma RoundReturnsDeferred(s: RoundState, symbols: seq<Symbol>)
    ensures Round(s, symbols).1.Ok? ==> Round(s, symbols).1.value == DeferredOf(symbols)
    ensures ReadyOf(symbols) == [] ==> Round(s, symbols) == (s, Ok(DeferredOf(symbols)))
  {
  }

  /**
   * A round whose classes all have a primary constructor and a qualified
   * name writes exactly one new, closed module file named after the counter
   * and bumps the counter by one. The file's body is the whole buffer,
   * earlier rounds' lines included.
   */
  lemma RoundWritesOneModule(s: RoundState, symbols: seq<Symbol>)
    requires ReadyOf(symbols) != [] && ModuleKey(s.count) !in s.files
    requires forall c :: c in ReadyOf(symbols) ==> Binding(c).Ok?
    ensures Round(s, symbols).1 == Ok(DeferredOf(symbols))
    ensures Round(s, symbols).0.count == s.count + 1
    ensures Round(s, symbols).0.files
         == s.files[ModuleKey(s.count) := ModuleFile(s.count, Round(s, symbols).0.buffer)]
    ensures Round(s, symbols).0.closed == s.closed + {ModuleKey(s.count)}
  {
    VisitAllSucceeds(ReadyOf(symbols));
  }

  /**
   * Such a round appends one line per class to the buffer, each that
   * class's registration, in the order the classes were scanned.
   */
  lemma RoundAppendsInOrder(s: RoundState, symbols: seq<Symbol>)
    requires ReadyOf(symbols) != [] && ModuleKey(s.count) !in s.files
    requires forall c :: c in ReadyOf(symbols) ==> Binding(c).Ok?
    ensures var ready, buffer := ReadyOf(symbols), Round(s, symbols).0.buffer;
      && |buffer| == |s.buffer| + |ready|
      && buffer[..|s.buffer|] == s.buffer
      && forall i :: 0 <= i < |ready| ==> buffer[|s.buffer| + i] == Binding(ready[i]).value
  {
    var ready := ReadyOf(symbols);
    VisitAllSucceeds(ready);
    var appended := VisitAll(ready).0;
    var buffer := s.buffer + appended;
    assert Round(s, symbols).0.buffer == buffer;
    assert buffer[..|s.buffer|] == s.buffer;
    forall i | 0 <= i < |ready| ensures buffer[|s.buffer| + i] == Binding(ready[i]).value {
      assert buffer[|s.buffer| + i] == appended[i];
    }
  }

  /**
   * The first class without a primary constructor or a qualified name ends
   * the round with its exception. The file was already created: it keeps the
   * four header lines and stays open, the counter does not move, and the
   * lines of the classes visited before it stay in the buffer.
   */
  lemma RoundFailsAt(s: RoundState, symbols: seq<Symbol>, k: nat)
    requires ModuleKey(s.count) !in s.files
    requires k < |ReadyOf(symbols)|
    requires forall j :: 0 <= j < k ==> Binding(ReadyOf(symbols)[j]).Ok?
    requires Binding(ReadyOf(symbols)[k]).Err?
    ensures Round(s, symbols).1 == Err(Binding(ReadyOf(symbols)[k]).error)
    ensures Round(s, symbols).0.count == s.count
    ensures Round(s, symbols).0.files == s.files[ModuleKey(s.count) := ModuleHeader(s.count)]
    ensures Round(s, symbols).0.closed == s.closed
    ensures |Round(s, symbols).0.buffer| == |s.buffer| + k
    ensures s.buffer <= Round(s, symbols).0.buffer
  {
    var ready := ReadyOf(symbols);
    VisitAllFailsAt(ready, k);
    var buffer := s.buffer + VisitAll(ready).0;
    assert Round(s, symbols).0.buffer == buffer;
    assert buffer[..|s.buffer|] == s.buffer;
  }

  /** The exceptions a processed class can raise, in the order they are checked. */
  lemma BindingFailures(c: Symbol)
    requires c.ClassDecl?
    ensures c.primaryConstructor.None? ==> Binding(c) == Err(NullPointer)
    ensures c.primaryConstructor.Some? && c.qualifiedName.None? ==>
      Binding(c) == Err(IllegalState("Annotation not on class ?"))
    ensures Binding(c).Ok? <==> c.primaryConstructor.Some? && c.qualifiedName.Some?
  {
  }

  /**
   * For every class name, the line of a class is the fixed prefix, the name,
   * the argument list and the fixed tail that repeats the name, and the
   * argument list reads back as one lookup per constructor parameter.
   */
  lemma BindingLookups(c: Symbol)
    requires c.ClassDecl? && c.primaryConstructor.Some? && c.qualifiedName.Some?
    ensures Binding(c).Ok?
    ensures var name, n := c.qualifiedName.value, |c.primaryConstructor.value|;
      && Binding(c).value == LinePrefix + name + "(" + LookupList(n) + LineTail(name)
      && ParseLookups(LookupList(n)) == Some(n)
  {
    LookupListRoundTrip(|c.primaryConstructor.value|);
  }

  /**
   * When the name holds no '(', the whole line reads back as its qualified
   * name and the number of its primary constructor's parameters.
   */
  lemma BindingReadsBack(c: Symbol)
    requires c.ClassDecl? && c.primaryConstructor.Some? && c.qualifiedName.Some?
    requires '(' !in c.qualifiedName.value
    ensures Binding(c).Ok?
    ensures ParseLine(Binding(c).value) == Some((c.qualifiedName.value, |c.primaryConstructor.value|))
  {
    ParseRenderedLine(c.qualifiedName.value, |c.primaryConstructor.value|);
  }

  /** Nothing is ever removed from the buffer: it only grows. */
  lemma RoundBufferGrows(s: RoundState, symbols: seq<Symbol>)
    ensures s.buffer <= Round(s, symbols).0.buffer
  {
    var ready := ReadyOf(symbols);
    if ready != [] && ModuleKey(s.count) !in s.files {
      var buffer := s.buffer + VisitAll(ready).0;
      assert buffer[..|s.buffer|] == s.buffer;
    }
  }

  // ---------------------------------------------------------------------
  // The body of a module is the buffer, line for line
  // ---------------------------------------------------------------------

  /** Every buffered line is a single line of text. */
  predicate LinesWellFormed(buffer: seq<string>)
  {
    forall i :: 0 <= i < |buffer| ==> OneLine(buffer[i])
  }

  /** Qualified names carry no newline. */
  predicate NamesOnOneLine(symbols: seq<Symbol>)
  {
    forall c :: c in symbols && c.ClassDecl? && c.qualifiedName.Some? ==> '\n' !in c.qualifiedName.value
  }

  lemma {:induction false} VisitAllWellFormed(classes: seq<Symbol>)
    requires AllClasses(classes) && NamesOnOneLine(classes)
    ensures LinesWellFormed(VisitAll(classes).0)
  {
    if classes != [] {
      var init, last := classes[..|classes| - 1], classes[|classes| - 1];
      VisitAllWellFormed(init);
      if VisitAll(init).1.None? && Binding(last).Ok? {
        RenderedLineIsOneLine(last.qualifiedName.value, |last.primaryConstructor.value|);
      }
    }
  }

  /**
   * When every buffered line is one line of text, the body of the module a
   * round writes splits back into the buffer exactly: every line once, in
   * order, earlier rounds' lines first.
   */
  lemma WrittenBodyIsBuffer(s: RoundState, symbols: seq<Symbol>)
    requires LinesWellFormed(s.buffer) && NamesOnOneLine(symbols)
    requires ReadyOf(symbols) != [] && ModuleKey(s.count) !in s.files
    requires Round(s, symbols).1.Ok?
    ensures var s' := Round(s, symbols).0;
      ModuleKey(s.count) in s'.files && |s'.files[ModuleKey(s.count)]| == 7 &&
      SplitBody(s'.files[ModuleKey(s.count)][4]) == s'.buffer &&
      LinesWellFormed(s'.buffer)
  {
    var ready := ReadyOf(symbols);
    VisitAllWellFormed(ready);
    var buffer := s.buffer + VisitAll(ready).0;
    assert LinesWellFormed(buffer) by {
      forall i | 0 <= i < |buffer| ensures OneLine(buffer[i]) {
        if i >= |s.buffer| { assert buffer[i] == VisitAll(ready).0[i - |s.buffer|]; }
      }
    }
    SplitJoinedBody(buffer);
  }

  // ---------------------------------------------------------------------
  // Runs of rounds
  // ---------------------------------------------------------------------

  /**
   * The module files of the processor are exactly those numbered below the
   * counter, and all of them are closed.
   */
  ghost predicate Tidy(s: RoundState)
  {
    && NamesAhead(s)
    && (forall k: nat :: k < s.count ==> ModuleKey(k) in s.files && ModuleKey(k) in s.closed)
  }

  /** A fresh processor over a host without module files is tidy. */
  lemma InitialTidy(files: map<FileKey, seq<string>>, closed: set<FileKey>)
    requires forall k: nat :: ModuleKey(k) !in files
    ensures Tidy(RoundState(0, [], files, closed))
  {
  }

  /**
   * From a tidy state a round never collides with an existing file, and a
   * round that does not throw leaves the state tidy: the name it used is new
   * and the next round's name is free.
   */
  lemma RoundKeepsTidy(s: RoundState, symbols: seq<Symbol>)
    requires Tidy(s)
    ensures !Round(s, symbols).1.Err?  || !Round(s, symbols).1.error.FileAlreadyExists?
    ensures Round(s, symbols).1.Ok? ==> Tidy(Round(s, symbols).0)
  {
    var (s', r) := Round(s, symbols);
    assert ModuleKey(s.count) !in s.files;
    VisitAllFailures(ReadyOf(symbols));
    if r.Ok? && ReadyOf(symbols) != [] {
      forall k: nat ensures ModuleKey(k) in s'.files <==> k < s'.count {
        if k != s.count { ModuleNamesDistinct(k, s.count); }
      }
    }
  }

  /** The host calling `Process` once per round until a round throws. */
  function Run(s: RoundState, rounds: seq<seq<Symbol>>): (RoundState, Option<Failure>)
    decreases |rounds|
  {
    if rounds == [] then (s, None)
    else
      var (s', r) := Round(s, rounds[0]);
      if r.Err? then (s', Some(r.error)) else Run(s', rounds[1..])
  }

  /** How many of the rounds had a class to render. */
  function WritingRounds(rounds: seq<seq<Symbol>>): nat
  {
    if rounds == [] then 0
    else (if ReadyOf(rounds[0]) != [] then 1 else 0) + WritingRounds(rounds[1..])
  }

  /**
   * Over a run that does not throw, each round with something to render
   * adds one module file, every file has a name no other round used, and
   * all of them are closed.
   */
  lemma {:induction false} RunWritesDistinctModules(s: RoundState, rounds: seq<seq<Symbol>>)
    requires Tidy(s)
    requires Run(s, rounds).1.None?
    ensures Tidy(Run(s, rounds).0)
    ensures Run(s, rounds).0.count == s.count + WritingRounds(rounds)
    decreases |rounds|
  {
    if rounds != [] {
      RoundKeepsTidy(s, rounds[0]);
      RoundReturnsDeferred(s, rounds[0]);
      RunWritesDistinctModules(Round(s, rounds[0]).0, rounds[1..]);
    }
  }

  /**
   * The buffer is never cleared, so the module written by a later round
   * repeats every line of the modules written before it.
   */
  lemma LaterRoundReEmits(s: RoundState, first: seq<Symbol>, second: seq<Symbol>)
    requires ReadyOf(first) != [] && ReadyOf(second) != []
    requires Round(s, first).1.Ok?
    requires Round(Round(s, first).0, second).1.Ok?
    ensures Round(s, first).0.files[ModuleKey(s.count)] == ModuleFile(s.count, Round(s, first).0.buffer)
    ensures var s2 := Round(Round(s, first).0, second).0;
      s2.files[ModuleKey(s.count + 1)] == ModuleFile(s.count + 1, s2.buffer)
    ensures Round(s, first).0.buffer <= Round(Round(s, first).0, second).0.buffer
  {
    var s1 := Round(s, first).0;
    RoundWritesWhenOk(s, first);
    RoundWritesOneModule(s, first);
    RoundWritesWhenOk(s1, second);
    RoundWritesOneModule(s1, second);
    RoundBufferGrows(s1, second);
  }

  /** A round that rendered something and did not throw found its name free and every class well formed. */
  lemma RoundWritesWhenOk(s: RoundState, symbols: seq<Symbol>)
    requires ReadyOf(symbols) != [] && Round(s, symbols).1.Ok?
    ensures ModuleKey(s.count) !in s.files
    ensures forall c :: c in ReadyOf(symbols) ==> Binding(c).Ok?
  {
    VisitAllSucceeds(ReadyOf(symbols));
  }

  // ---------------------------------------------------------------------
  // A concrete round
  // ---------------------------------------------------------------------

  const Foo := ClassDecl(Some("Foo"), Some([Param("bar", "Bar")]), true)
  const Baz := ClassDecl(Some("Baz"), Some([]), true)
  const Stray := FunctionDecl([], true)

  lemma FooBazFilters()
    ensures ReadyOf([Foo, Stray, Baz]) == [Foo, Baz]
    ensures DeferredOf([Foo, Stray, Baz]) == []
  {
    var symbols := [Foo, Stray, Baz];
    assert symbols[1..] == [Stray, Baz] && symbols[1..][1..] == [Baz];
    if DeferredOf(symbols) != [] {
      assert DeferredOf(symbols)[0] in DeferredOf(symbols);
    }
  }

  lemma FooBazVisits()
    ensures VisitAll([Foo, Baz]) == ([RenderLine("Foo", 1), RenderLine("Baz", 0)], None)
  {
    var one, two := [Foo], [Foo, Baz];
    assert one[..|one| - 1] == [] && one[|one| - 1] == Foo;
    assert VisitAll(one) == ([] + [RenderLine("Foo", 1)], None);
    assert two[..|two| - 1] == one && two[|two| - 1] == Baz;
    assert VisitAll(two) == (VisitAll(one).0 + [RenderLine("Baz", 0)], None);
    assert [] + [RenderLine("Foo", 1)] + [RenderLine("Baz", 0)] == [RenderLine("Foo", 1), RenderLine("Baz", 0)];
  }

  lemma FooBazLines()
    ensures RenderLine("Foo", 1) == "         single { Foo(get()) } bind Foo::class\n"
    ensures RenderLine("Baz", 0) == "         single { Baz() } bind Baz::class\n"
  {
    assert LookupList(1) == "get()";
    assert LookupList(0) == "";
  }

  /**
   * A first round over `Foo(bar: Bar)` and `Baz()`, both valid, and a valid
   * function marked by mistake: module 0 registers Foo with one lookup and
   * Baz with none, in scan order, and the function is dropped.
   */
  lemma FooBazRound()
    ensures Round(RoundState(0, [], map[], {}), [Foo, Stray, Baz]).1 == Ok([])
    ensures var s' := Round(RoundState(0, [], map[], {}), [Foo, Stray, Baz]).0;
      && s'.count == 1
      && s'.buffer == ["         single { Foo(get()) } bind Foo::class\n",
                       "         single { Baz() } bind Baz::class\n"]
      && s'.files == map[FileKey("me.melijn.gen", "InjectionKoinModule0") := ModuleFile(0, s'.buffer)]
  {
    FooBazFilters();
    FooBazVisits();
    FooBazLines();
    assert NatToString(0) == "0";
    assert ModuleName(0) == "InjectionKoinModule0";
    assert ModuleKey(0) == FileKey("me.melijn.gen", "InjectionKoinModule0");
  }

  // ---------------------------------------------------------------------
  // A class deferred to a second round
  // ---------------------------------------------------------------------

  /** `Baz` while its types do not resolve yet. */
  const LateBaz := ClassDecl(Some("Baz"), Some([]), false)

  lemma LateBazFilters()
    ensures ReadyOf([Foo, LateBaz]) == [Foo] && DeferredOf([Foo, LateBaz]) == [LateBaz]
    ensures ReadyOf([Baz]) == [Baz] && DeferredOf([Baz]) == []
  {
    var first := [Foo, LateBaz];
    assert first[1..] == [LateBaz] && first[1..][1..] == [];
    assert [Baz][1..] == [];
  }

  lemma LateBazVisits()
    ensures VisitAll([Foo]) == ([RenderLine("Foo", 1)], None)
    ensures VisitAll([Baz]) == ([RenderLine("Baz", 0)], None)
  {
    var foo, baz := [Foo], [Baz];
    assert foo[..|foo| - 1] == [] && foo[|foo| - 1] == Foo;
    assert VisitAll(foo) == ([] + [RenderLine("Foo", 1)], None);
    assert baz[..|baz| - 1] == [] && baz[|baz| - 1] == Baz;
    assert VisitAll(baz) == ([] + [RenderLine("Baz", 0)], None);
    assert [] + [RenderLine("Foo", 1)] == [RenderLine("Foo", 1)];
    assert [] + [RenderLine("Baz", 0)] == [RenderLine("Baz", 0)];
  }

  /** Round 0: module 0 registers Foo, and the not yet valid Baz is handed back. */
  lemma LateBazFirstRound()
    ensures var foo := RenderLine("Foo", 1);
      Round(RoundState(0, [], map[], {}), [Foo, LateBaz])
      == (RoundState(1, [foo], map[ModuleKey(0) := ModuleFile(0, [foo])], {ModuleKey(0)}), Ok([LateBaz]))
  {
    LateBazFilters();
    LateBazVisits();
    var foo := RenderLine("Foo", 1);
    var s1 := RoundState(1, [foo], map[ModuleKey(0) := ModuleFile(0, [foo])], {ModuleKey(0)});
    assert [] + [foo] == [foo];
    assert WriteModule(RoundState(0, [], map[], {}), [Foo]).0 == s1;
  }

  /** Round 1: module 1 is written from the buffer that still holds Foo's line. */
  lemma LateBazSecondRound()
    ensures var foo, baz := RenderLine("Foo", 1), RenderLine("Baz", 0);
      var s1 := RoundState(1, [foo], map[ModuleKey(0) := ModuleFile(0, [foo])], {ModuleKey(0)});
      && Round(s1, [Baz]).1 == Ok([])
      && Round(s1, [Baz]).0.count == 2
      && Round(s1, [Baz]).0.files == s1.files[ModuleKey(1) := ModuleFile(1, [foo, baz])]
  {
    LateBazFilters();
    LateBazVisits();
    ModuleNamesDistinct(0, 1);
    var foo, baz := RenderLine("Foo", 1), RenderLine("Baz", 0);
    assert [foo] + [baz] == [foo, baz];
  }

  /**
   * Round 0 sees `Foo` valid and `Baz` not yet valid: module 0 registers Foo
   * and Baz is handed back. Round 1 sees `Baz` valid: module 1 registers Foo
   * a second time, then Baz.
   */
  lemma LateBazRounds()
    ensures var (s1, r1) := Round(RoundState(0, [], map[], {}), [Foo, LateBaz]);
      && r1 == Ok([LateBaz])
      && s1.files == map[FileKey("me.melijn.gen", "InjectionKoinModule0")
                         := ModuleFile(0, ["         single { Foo(get()) } bind Foo::class\n"])]
    ensures var s2 := Round(Round(RoundState(0, [], map[], {}), [Foo, LateBaz]).0, [Baz]).0;
      && s2.count == 2
      && FileKey("me.melijn.gen", "InjectionKoinModule1") in s2.files
      && s2.files[FileKey("me.melijn.gen", "InjectionKoinModule1")]
         == ModuleFile(1, ["         single { Foo(get()) } bind Foo::class\n",
                           "         single { Baz() } bind Baz::class\n"])
  {
    LateBazFirstRound();
    LateBazSecondRound();
    FooBazLines();
    assert NatToString(0) == "0" && NatToString(1) == "1";
    assert ModuleKey(0) == FileKey("me.melijn.gen", "InjectionKoinModule0");
    assert ModuleKey(1) == FileKey("me.melijn.gen", "InjectionKoinModule1");
  }
}
