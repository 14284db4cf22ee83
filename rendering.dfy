/**
 * The text the injector processor writes: one Koin registration line per
 * rendered class, and the generated module file around those lines. The
 * lookup list and the registration line each have a parser, and lemmas prove
 * each pair inverse in both directions, so a line holds exactly the class
 * name and the number of `get()` lookups. The module body has a splitter
 * proved to give back the joined lines, in order. The counter's decimal
 * rendering, and so the module name, is proved injective.
 */
module Rendering {
  import opened Symbols

  // ---------------------------------------------------------------------
  // Decimal numbers, as a Kotlin string template prints a non-negative Int
  // ---------------------------------------------------------------------

  const Digits := "0123456789"

  function NatToString(n: nat): (s: string)
    ensures |s| >= 1
    ensures forall i :: 0 <= i < |s| ==> s[i] in Digits
  {
    if n < 10 then [Digits[n]] else NatToString(n / 10) + [Digits[n % 10]]
  }

  /** Different numbers print differently. */
  lemma {:induction false} NatToStringInjective(a: nat, b: nat)
    requires NatToString(a) == NatToString(b)
    ensures a == b
  {
    var sa, sb := NatToString(a), NatToString(b);
    if a >= 10 && b >= 10 {
      assert sa[..|sa| - 1] == NatToString(a / 10);
      assert sb[..|sb| - 1] == NatToString(b / 10);
      NatToStringInjective(a / 10, b / 10);
      assert Digits[a % 10] == sa[|sa| - 1] == sb[|sb| - 1] == Digits[b % 10];
    }
  }

  // ---------------------------------------------------------------------
  // joinToString and the search helper the parsers use
  // ---------------------------------------------------------------------

  /** The items with the separator between each two of them, as Kotlin's list joining does. */
  function JoinToString(items: seq<string>, separator: string): string
  {
    if |items| == 0 then ""
    else if |items| == 1 then items[0]
    else items[0] + separator + JoinToString(items[1..], separator)
  }

  /** The position of the first `c` in `s`, or `|s|` when there is none. */
  function IndexOf(s: string, c: char): (r: nat)
    ensures r <= |s|
    ensures r < |s| ==> s[r] == c
    ensures forall i :: 0 <= i < r ==> s[i] != c
  {
    if s == [] then 0
    else if s[0] == c then 0
    else 1 + IndexOf(s[1..], c)
  }

  lemma IndexOfFirst(s: string, c: char, k: nat)
    requires k < |s| && s[k] == c
    requires forall i :: 0 <= i < k ==> s[i] != c
    ensures IndexOf(s, c) == k
  {
  }

  // ---------------------------------------------------------------------
  // One registration line (InjectorProcessor.kt line 66)
  // ---------------------------------------------------------------------

  const LinePrefix := "         single { "

  /** One `get()` lookup per constructor parameter, separated by a comma and a space. */
  function LookupList(n: nat): string
  {
    JoinToString(seq(n, _ => "get()"), ", ")
  }

  /**
   * The registration line for class `className` whose primary constructor
   * takes `arity` parameters: each parameter becomes one `get()`, whatever
   * its type.
   */
  function RenderLine(className: string, arity: nat): string
  {
    LinePrefix + className + "(" + LookupList(arity) + ") } bind " + className + "::class\n"
  }

  /** Reads back the number of lookups of an argument list, if it is one. */
  function ParseLookups(s: string): Option<nat>
  {
    if s == "" then Some(0) else ParseLookupList(s)
  }

  function ParseLookupList(s: string): Option<nat>
    decreases |s|
  {
    if |s| < 5 || s[..5] != "get()" then None
    else if |s| == 5 then Some(1)
    else if |s| < 7 || s[5..7] != ", " then None
    else match ParseLookupList(s[7..])
      case None => None
      case Some(k) => Some(k + 1)
  }

  lemma LookupListUnfold(n: nat)
    requires n >= 2
    ensures LookupList(n) == "get()" + ", " + LookupList(n - 1)
  {
    var f := (_: int) => "get()";
    assert seq(n, f)[1..] == seq(n - 1, f);
  }

  /** The argument list holds exactly one lookup per parameter. */
  lemma {:induction false} LookupListRoundTrip(n: nat)
    ensures ParseLookups(LookupList(n)) == Some(n)
  {
    if n >= 2 {
      LookupListUnfold(n);
      LookupListRoundTrip(n - 1);
      var t := LookupList(n - 1);
      assert t != "" by { if n - 1 == 1 { assert t == "get()"; } else { LookupListUnfold(n - 1); } }
      var s := LookupList(n);
      assert s[..5] == "get()" && s[5..7] == ", " && s[7..] == t;
    } else if n == 1 {
      assert LookupList(1) == "get()";
    }
  }

  /** Conversely, the only strings read as `n` lookups are the rendered ones. */
  lemma {:induction false} ParseLookupsExact(s: string, n: nat)
    requires ParseLookups(s) == Some(n)
    ensures s == LookupList(n)
  {
    if s != "" {
      ParseLookupListExact(s, n);
    }
  }

  lemma {:induction false} ParseLookupListExact(s: string, n: nat)
    requires ParseLookupList(s) == Some(n)
    ensures n >= 1 && s == LookupList(n)
    decreases |s|
  {
    if |s| == 5 {
      assert s == s[..5] == "get()";
      assert LookupList(1) == "get()";
    } else {
      ParseLookupListExact(s[7..], n - 1);
      LookupListUnfold(n);
      assert s == s[..5] + s[5..7] + s[7..];
    }
  }

  /** The fixed text after the argument list; it repeats the class name. */
  function LineTail(className: string): string
  {
    ") } bind " + className + "::class\n"
  }

  /** `s` without its leading `prefix`, if it starts with one. */
  function StripPrefix(s: string, prefix: string): (r: Option<string>)
    ensures r.Some? <==> prefix <= s
    ensures r.Some? ==> s == prefix + r.value
  {
    if |s| < |prefix| || s[..|prefix|] != prefix then None
    else Some(s[|prefix|..])
  }

  /** `s` without its trailing `suffix`, if it ends with one. */
  function StripSuffix(s: string, suffix: string): (r: Option<string>)
    ensures r.Some? ==> s == r.value + suffix
    ensures forall t :: s == t + suffix ==> r == Some(t)
  {
    if |s| < |suffix| || s[|s| - |suffix|..] != suffix then None
    else
      var t := s[..|s| - |suffix|];
      assert s == t + suffix;
      Some(t)
  }

  /**
   * Reads a registration line back into its class name and lookup count:
   * the fixed prefix, the name up to the first '(', the argument list, and
   * the fixed tail that repeats the name.
   */
  function ParseLine(line: string): Option<(string, nat)>
  {
    match StripPrefix(line, LinePrefix)
    case None => None
    case Some(rest) =>
      var open := IndexOf(rest, '(');
      if open == |rest| then None
      else
        var name := rest[..open];
        match StripSuffix(rest[open + 1..], LineTail(name))
        case None => None
        case Some(args) =>
          match ParseLookups(args)
          case None => None
          case Some(n) => Some((name, n))
  }

  /** Splitting at the first '(' of a name without one gives the name back. */
  lemma SplitAtOpen(className: string, after: string)
    requires '(' !in className
    ensures var s := className + "(" + after;
      IndexOf(s, '(') == |className| && s[..|className|] == className && s[|className| + 1..] == after
  {
    var s := className + "(" + after;
    forall i | 0 <= i < |className| ensures s[i] != '(' {
      assert s[i] == className[i];
    }
    IndexOfFirst(s, '(', |className|);
  }

  /**
   * A rendered line names its class and holds one `get()` per constructor
   * parameter, nothing else: parsing it gives both back. Qualified names
   * never contain '(' outside backticks.
   */
  lemma {:induction false} ParseRenderedLine(className: string, arity: nat)
    requires '(' !in className
    ensures ParseLine(RenderLine(className, arity)) == Some((className, arity))
  {
    var args, tail := LookupList(arity), LineTail(className);
    var rest := className + "(" + (args + tail);
    assert RenderLine(className, arity) == LinePrefix + rest;
    assert StripPrefix(RenderLine(className, arity), LinePrefix) == Some(rest);
    SplitAtOpen(className, args + tail);
    assert StripSuffix(args + tail, tail) == Some(args);
    LookupListRoundTrip(arity);
  }

  /** What an accepted line consists of: the prefix, the name, '(' and the rest. */
  lemma ParsedLineParts(line: string, className: string, n: nat) returns (rest: string, after: string)
    requires ParseLine(line) == Some((className, n))
    ensures line == LinePrefix + rest
    ensures IndexOf(rest, '(') == |className| < |rest| && className == rest[..|className|]
    ensures after == rest[|className| + 1..]
    ensures StripSuffix(after, LineTail(className)).Some?
    ensures ParseLookups(StripSuffix(after, LineTail(className)).value) == Some(n)
  {
    rest := StripPrefix(line, LinePrefix).value;
    after := rest[IndexOf(rest, '(') + 1..];
  }

  /** Every line the parser accepts is the rendering of what it read. */
  lemma {:induction false} ParsedLineIsRendered(line: string, className: string, n: nat)
    requires ParseLine(line) == Some((className, n))
    ensures '(' !in className
    ensures line == RenderLine(className, n)
  {
    var rest, after := ParsedLineParts(line, className, n);
    var args := StripSuffix(after, LineTail(className)).value;
    assert after == args + LineTail(className);
    ParseLookupsExact(args, n);
    assert forall i :: 0 <= i < |className| ==> rest[i] != '(';
    RenderedFromParts(line, rest, after, className, n);
  }

  /** The parts an accepted line consists of assemble into a rendered line. */
  lemma RenderedFromParts(line: string, rest: string, after: string, className: string, n: nat)
    requires line == LinePrefix + rest
    requires |className| < |rest| && className == rest[..|className|] && rest[|className|] == '('
    requires forall i :: 0 <= i < |className| ==> rest[i] != '('
    requires after == rest[|className| + 1..]
    requires after == LookupList(n) + LineTail(className)
    ensures '(' !in className
    ensures line == RenderLine(className, n)
  {
    forall i | 0 <= i < |className| ensures className[i] != '(' {
      assert className[i] == rest[i];
    }
    assert rest == className + "(" + after;
    AssembleLine(line, rest, className, after, n);
  }

  lemma AssembleLine(line: string, rest: string, className: string, after: string, n: nat)
    requires line == LinePrefix + rest
    requires rest == className + "(" + after
    requires after == LookupList(n) + LineTail(className)
    ensures line == RenderLine(className, n)
  {
  }

  // ---------------------------------------------------------------------
  // The generated module file (InjectorProcessor.kt lines 29-47)
  // ---------------------------------------------------------------------

  const GeneratedPackage := "me.melijn.gen"

  /** The import block once Kotlin has stripped its common indentation and its blank first and last lines. */
  const ImportBlock :=
    "import me.melijn.bot.model.ksp.InjectorInterface\nimport org.koin.dsl.bind\nimport org.koin.dsl.module\n"

  /** The name of the module generated when the counter reads `index`. */
  function ModuleName(index: nat): string
  {
    "InjectionKoinModule" + NatToString(index)
  }

  /** Two rounds with different counter values generate differently named modules. */
  lemma ModuleNamesDistinct(a: nat, b: nat)
    requires a != b
    ensures ModuleName(a) != ModuleName(b)
  {
    if ModuleName(a) == ModuleName(b) {
      var p := "InjectionKoinModule";
      assert NatToString(a) == ModuleName(a)[|p|..];
      assert NatToString(b) == ModuleName(b)[|p|..];
      NatToStringInjective(a, b);
    }
  }

  /** The four lines written before any class is visited. */
  function ModuleHeader(index: nat): seq<string>
  {
    [ "package " + GeneratedPackage + "\n",
      ImportBlock,
      "class " + ModuleName(index) + " : InjectorInterface() {\n",
      "    override val module = module {" ]
  }

  /** The lines of a completed module file whose body is the whole buffer. */
  function ModuleFile(index: nat, buffer: seq<string>): seq<string>
  {
    ModuleHeader(index) + [JoinToString(buffer, "\n"), "    }", "}"]
  }

  // ---------------------------------------------------------------------
  // The module body determines the buffer it was joined from
  // ---------------------------------------------------------------------

  /** A line that ends in a newline and has no other. */
  predicate OneLine(s: string)
  {
    |s| >= 1 && s[|s| - 1] == '\n' && '\n' !in s[..|s| - 1]
  }

  /** Every rendered line is one line of text, given a name without newlines. */
  lemma RenderedLineIsOneLine(className: string, arity: nat)
    requires '\n' !in className
    ensures OneLine(RenderLine(className, arity))
  {
    var s := RenderLine(className, arity);
    var body := LinePrefix + className + "(" + LookupList(arity) + ") } bind " + className + "::class";
    assert s == body + "\n";
    assert s[..|s| - 1] == body;
    LookupListNoNewline(arity);
  }

  lemma {:induction false} LookupListNoNewline(n: nat)
    ensures '\n' !in LookupList(n)
  {
    if n >= 2 {
      LookupListUnfold(n);
      LookupListNoNewline(n - 1);
    } else if n == 1 {
      assert LookupList(1) == "get()";
    }
  }

  /** Splits a module body back into the lines joined by `JoinToString(_, "\n")`. */
  function SplitBody(body: string): seq<string>
    decreases |body|
  {
    var end := IndexOf(body, '\n');
    if body == "" then []
    else if end == |body| || end + 1 == |body| then [body]
    else if body[end + 1] == '\n' then [body[..end + 1]] + SplitBody(body[end + 2..])
    else [body]
  }

  /**
   * The written body holds the buffer's lines exactly, in order, none merged,
   * dropped or repeated.
   */
  lemma {:induction false} SplitJoinedBody(buffer: seq<string>)
    requires forall i :: 0 <= i < |buffer| ==> OneLine(buffer[i])
    ensures SplitBody(JoinToString(buffer, "\n")) == buffer
  {
    if |buffer| == 1 {
      var l := buffer[0];
      IndexOfFirst(l, '\n', |l| - 1);
    } else if |buffer| >= 2 {
      var l, rest := buffer[0], JoinToString(buffer[1..], "\n");
      var body := JoinToString(buffer, "\n");
      assert body == l + "\n" + rest;
      assert body[|l| - 1] == '\n';
      forall i | 0 <= i < |l| - 1 ensures body[i] != '\n' {
        assert body[i] == l[..|l| - 1][i];
      }
      IndexOfFirst(body, '\n', |l| - 1);
      assert body[..|l|] == l;
      assert body[|l| + 1..] == rest;
      SplitJoinedBody(buffer[1..]);
      assert buffer == [l] + buffer[1..];
    }
  }
}
