/**
 * The symbols a round of the injector processor sees: the declarations that
 * carry the `@Inject` marker, as the host hands them over, and the two
 * filters the processor applies to them (the deferred list it returns and
 * the classes it renders).
 */
module Symbols {

  datatype Option<+T> = None | Some(value: T)

  /** One constructor parameter; only its position matters to the generator. */
  datatype Param = Param(name: string, typeName: string)

  /**
   * A marked declaration. `valid` is the host's verdict on whether every type
   * the declaration mentions resolves in this round. A class may lack a
   * qualified name (a local or anonymous class) or a primary constructor.
   */
  datatype Symbol =
    | ClassDecl(qualifiedName: Option<string>, primaryConstructor: Option<seq<Param>>, valid: bool)
    | FunctionDecl(parameters: seq<Param>, valid: bool)
    | Other(valid: bool)

  /** What the processor can throw while visiting or creating its file. */
  datatype Failure =
    | NullPointer                      // the class has no primary constructor
    | IllegalState(message: string)    // the class has no qualified name
    | ClassCast                        // the constructor's parent is not a class
    | FileAlreadyExists(fileName: string)

  /**
   * A step that returns a value or throws. A step that returns nothing says
   * whether it threw with an `Option<Failure>`.
   */
  datatype Result<+T> = Ok(value: T) | Err(error: Failure)

  /** The symbols the processor hands back to the host for a later round. */
  function DeferredOf(symbols: seq<Symbol>): (r: seq<Symbol>)
    ensures |r| <= |symbols|
    ensures forall s :: s in r <==> s in symbols && !s.valid
  {
    if symbols == [] then []
    else (if !symbols[0].valid then [symbols[0]] else []) + DeferredOf(symbols[1..])
  }

  /** The symbols the processor renders: valid class declarations. */
  function ReadyOf(symbols: seq<Symbol>): (r: seq<Symbol>)
    ensures |r| <= |symbols|
    ensures forall s :: s in r <==> s in symbols && s.ClassDecl? && s.valid
  {
    if symbols == [] then []
    else (if symbols[0].ClassDecl? && symbols[0].valid then [symbols[0]] else []) + ReadyOf(symbols[1..])
  }

  /** The symbols neither filter keeps: valid declarations that are not classes. */
  function DroppedOf(symbols: seq<Symbol>): (r: seq<Symbol>)
    ensures forall s :: s in r <==> s in symbols && !s.ClassDecl? && s.valid
  {
    if symbols == [] then []
    else (if !symbols[0].ClassDecl? && symbols[0].valid then [symbols[0]] else []) + DroppedOf(symbols[1..])
  }

  /**
   * The three filters split the scanned symbols: every occurrence lands in
   * exactly one of them.
   */
  lemma {:induction false} Partition(symbols: seq<Symbol>)
    ensures multiset(DeferredOf(symbols)) + multiset(ReadyOf(symbols)) + multiset(DroppedOf(symbols))
            == multiset(symbols)
  {
    if symbols != [] {
      var x, rest := symbols[0], symbols[1..];
      Partition(rest);
      assert symbols == [x] + rest;
      var d, r, o := DeferredOf(rest), ReadyOf(rest), DroppedOf(rest);
      if !x.valid {
        assert DeferredOf(symbols) == [x] + d;
        assert ReadyOf(symbols) == r;
        assert DroppedOf(symbols) == o;
      } else if x.ClassDecl? {
        assert DeferredOf(symbols) == d;
        assert ReadyOf(symbols) == [x] + r;
        assert DroppedOf(symbols) == o;
      } else {
        assert DeferredOf(symbols) == d;
        assert ReadyOf(symbols) == r;
        assert DroppedOf(symbols) == [x] + o;
      }
    }
  }

  /** No symbol is both handed back and rendered in the same round. */
  lemma DeferredAndReadyDisjoint(symbols: seq<Symbol>)
    ensures multiset(DeferredOf(symbols)) * multiset(ReadyOf(symbols)) == multiset{}
  {
    var d, r := multiset(DeferredOf(symbols)), multiset(ReadyOf(symbols));
    forall s ensures (d * r)[s] == 0 {
      if d[s] > 0 { assert s in DeferredOf(symbols); assert s !in ReadyOf(symbols); }
    }
  }

  /** Filtering keeps scan order: it distributes over concatenation. */
  lemma {:induction false} DeferredOfAppend(a: seq<Symbol>, b: seq<Symbol>)
    ensures DeferredOf(a + b) == DeferredOf(a) + DeferredOf(b)
  {
    if a != [] {
      DeferredOfAppend(a[1..], b);
      assert (a + b)[1..] == a[1..] + b;
    } else {
      assert a + b == b;
    }
  }

  lemma {:induction false} ReadyOfAppend(a: seq<Symbol>, b: seq<Symbol>)
    ensures ReadyOf(a + b) == ReadyOf(a) + ReadyOf(b)
  {
    if a != [] {
      ReadyOfAppend(a[1..], b);
      assert (a + b)[1..] == a[1..] + b;
    } else {
      assert a + b == b;
    }
  }
}
