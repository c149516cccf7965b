/**
 Properties that relate several members of the engine facade: normalisation
 is idempotent and insensitive to padding and to a missing terminator, the
 expression and script paths agree on what they share, the configuration
 setters behave as independent registers, and joining lines inverts the
 reader's line splitting.
 */
module JexlEngineProperties {
  import opened JavaLang
  import opened Parser
  import opened JexlEngine
  import JavaIo

  // ---------------------------------------------------------------------
  // cleanExpression

  /** Cleaning an already cleaned text changes nothing. */
  lemma CleanIdempotent(s: string)
    ensures CleanExpression(CleanExpression(s)) == CleanExpression(s)
  {
    TrimOfTrimmed(CleanExpression(s));
  }

  /** Surrounding a text with further characters up to U+0020 does not
      change its cleaned form. */
  lemma CleanIgnoresPadding(p: string, s: string, q: string)
    requires AllTrimmable(p) && AllTrimmable(q)
    ensures CleanExpression(p + s + q) == CleanExpression(s)
  {
    TrimIgnoresPadding(p, s, q);
  }

  /** A text whose trimmed form lacks a final ';' cleans to the same text as
      that trimmed form followed by ';': " 1 + 1 " and "1 + 1;" alike. */
  lemma CleanSupplyingTerminator(s: string)
    requires !EndsWithSemicolon(Trim(s))
    ensures CleanExpression(Trim(s) + ";") == CleanExpression(s)
  {
    var t := Trim(s) + ";";
    assert IsTrimmed(t);
    TrimOfTrimmed(t);
  }

  /** The cleaned text of any text made of trimmable padding around a
      trimmed core is that core, with one ';' added precisely when the core
      does not already end in one. */
  lemma CleanCharacterisation(p: string, core: string, q: string)
    requires AllTrimmable(p) && AllTrimmable(q)
    requires IsTrimmed(core)
    ensures EndsWithSemicolon(core) ==> CleanExpression(p + core + q) == core
    ensures !EndsWithSemicolon(core) ==> CleanExpression(p + core + q) == core + ";"
  {
    TrimUnique(p, core, q);
  }

  // ---------------------------------------------------------------------
  // createExpression and createScript

  /** Compiling a script from its own cleaned text yields the same outcome as
      compiling the raw text. */
  lemma ScriptOfCleanedText(s: string, parse: string -> ParseResult)
    ensures CreateScript(CleanExpression(s), parse) == CreateScript(s, parse)
  {
    CleanIdempotent(s);
  }

  /** Writing the terminator out does not change which node an expression
      evaluates, whether the warning is raised, or which exception is thrown;
      only the stored text differs. */
  lemma ExpressionTerminatorInsensitive(s: string, parse: string -> ParseResult)
    requires !EndsWithSemicolon(Trim(s))
    ensures var a := CreateExpression(s, parse);
      var b := CreateExpression(Trim(s) + ";", parse);
      && a.Returns? == b.Returns?
      && (a.Returns? ==> a.value.expression.node == b.value.expression.node)
      && (a.Returns? ==> a.value.warned == b.value.warned)
      && (a.Returns? ==> b.value.expression.text == Trim(s) + ";")
      && (a.Throws? ==> a == b)
  {
    CleanSupplyingTerminator(s);
  }

  /** Whenever the script path accepts a text with at least one statement,
      the expression path accepts it too and keeps the script's first
      statement, with the warning raised exactly when the script has more. */
  lemma ExpressionIsFirstStatementOfScript(s: string, parse: string -> ParseResult)
    requires CreateScript(s, parse).Returns?
    requires CreateScript(s, parse).value.root.children != []
    ensures CreateExpression(s, parse).Returns?
    ensures CreateExpression(s, parse).value.expression.node
      == CreateScript(s, parse).value.root.children[0]
    ensures CreateExpression(s, parse).value.warned
      <==> |CreateScript(s, parse).value.root.children| > 1
  {
  }

  /** The two entry points treat a failing parse alike for the parser's own
      failures, and differ only in that `createExpression` wraps any other
      exception in a `RuntimeException`. */
  lemma ParseFailureMappingsAgree(t: Throwable)
    ensures t.TokenMgrError? || t.ParseException? ==>
      ExpressionParseFailure(t) == ScriptParseFailure(t) == ParseException(t.message)
    ensures ExpressionParseFailure(t) == ScriptParseFailure(t)
      || ExpressionParseFailure(t) == RuntimeException(ScriptParseFailure(t))
    ensures ExpressionParseFailure(t) != ScriptParseFailure(t)
      <==> t.IsException() && !t.ParseException?
  {
    NotOwnCause(t);
  }

  /** No throwable is its own wrapper. */
  lemma {:induction false} NotOwnCause(t: Throwable)
    ensures t != RuntimeException(t)
  {
    if t.RuntimeException? {
      NotOwnCause(t.cause);
    }
  }

  /** Neither entry point lets a `TokenMgrError` escape. */
  lemma NoTokenErrorEscapes(s: string, parse: string -> ParseResult)
    ensures CreateExpression(s, parse).Throws? ==> !CreateExpression(s, parse).thrown.TokenMgrError?
    ensures CreateScript(s, parse).Throws? ==> !CreateScript(s, parse).thrown.TokenMgrError?
  {
  }

  // ---------------------------------------------------------------------
  // Configuration

  /** `setFunctions(null)`, and a constructor given null functions whatever
      its other arguments, leave the function map of a default engine. */
  lemma NullFunctionsRestoreDefault(e: Engine, u: Nullable<Uberspect>, a: Nullable<Arithmetic>)
    ensures GetFunctions(SetFunctions(e, Null)) == GetFunctions(DefaultEngine())
    ensures GetFunctions(NewEngine(u, a, Null)) == GetFunctions(DefaultEngine())
  {
  }

  /** `LastSilent` over a sequence that starts with one more setting. */
  lemma {:induction false} LastSilentCons(x: Setting, rest: seq<Setting>, current: bool)
    ensures LastSilent([x] + rest, current) == LastSilent(rest, LastSilent([x], current))
    decreases |rest|
  {
    if rest == [] {
      assert [x] + rest == [x];
    } else {
      var xs := [x] + rest;
      assert xs[..|xs| - 1] == [x] + rest[..|rest| - 1];
      LastSilentCons(x, rest[..|rest| - 1], current);
    }
  }

  /** `LastFunctions` over a sequence that starts with one more setting. */
  lemma {:induction false} LastFunctionsCons(x: Setting, rest: seq<Setting>, current: Functions)
    ensures LastFunctions([x] + rest, current) == LastFunctions(rest, LastFunctions([x], current))
    decreases |rest|
  {
    if rest == [] {
      assert [x] + rest == [x];
    } else {
      var xs := [x] + rest;
      assert xs[..|xs| - 1] == [x] + rest[..|rest| - 1];
      LastFunctionsCons(x, rest[..|rest| - 1], current);
    }
  }

  /** After any sequence of setter calls the engine reports the last value
      given to each setter (or its earlier value when that setter was not
      called), and the introspection and arithmetic strategies never
      change. */
  lemma {:induction false} ConfigureKeepsLastSettings(e: Engine, settings: seq<Setting>)
    ensures IsSilent(Configure(e, settings)) == LastSilent(settings, IsSilent(e))
    ensures GetFunctions(Configure(e, settings)) == LastFunctions(settings, GetFunctions(e))
    ensures Configure(e, settings).uberspect == e.uberspect
    ensures Configure(e, settings).arithmetic == e.arithmetic
    decreases |settings|
  {
    if settings != [] {
      var x := settings[0];
      var rest := settings[1..];
      assert settings == [x] + rest;
      ConfigureKeepsLastSettings(Apply(e, x), rest);
      LastSilentCons(x, rest, IsSilent(e));
      LastFunctionsCons(x, rest, GetFunctions(e));
    }
  }

  /** An engine from any constructor stays silent under any sequence of
      setter calls that never calls `setSilent`. */
  lemma SilentUnlessSetSilent(
    u: Nullable<Uberspect>, a: Nullable<Arithmetic>, f: Nullable<Functions>,
    settings: seq<Setting>)
    requires forall k :: 0 <= k < |settings| ==> settings[k].FunctionsSetting?
    ensures IsSilent(Configure(NewEngine(u, a, f), settings))
    ensures IsSilent(Configure(DefaultEngine(), settings))
  {
    ConfigureKeepsLastSettings(NewEngine(u, a, f), settings);
    ConfigureKeepsLastSettings(DefaultEngine(), settings);
    LastSilentWithoutSetSilent(settings, true);
  }

  lemma {:induction false} LastSilentWithoutSetSilent(settings: seq<Setting>, current: bool)
    requires forall k :: 0 <= k < |settings| ==> settings[k].FunctionsSetting?
    ensures LastSilent(settings, current) == current
    decreases |settings|
  {
    if settings != [] {
      LastSilentWithoutSetSilent(settings[..|settings| - 1], current);
    }
  }

  // ---------------------------------------------------------------------
  // readerToString

  /** The first '\n' of a line followed by '\n' is that terminator. */
  lemma {:induction false} NewlineAfterLine(line: string, rest: string)
    requires '\n' !in line
    ensures JavaIo.NewlineIndex(line + "\n" + rest) == |line|
    decreases |line|
  {
    if line != [] {
      assert (line + "\n" + rest)[1..] == line[1..] + "\n" + rest;
      NewlineAfterLine(line[1..], rest);
    }
  }

  /** Reading back the joined lines yields the lines, for lines a reader can
      produce (no '\n' inside). */
  lemma {:induction false} ReadJoinedLines(lines: seq<string>)
    requires forall k :: 0 <= k < |lines| ==> '\n' !in lines[k]
    ensures JavaIo.ReadLines(JoinLines(lines)) == lines
    decreases |lines|
  {
    if lines != [] {
      var rest := JoinLines(lines[1..]);
      var text := JoinLines(lines);
      assert text == lines[0] + "\n" + rest;
      NewlineAfterLine(lines[0], rest);
      assert text[..|lines[0]|] == lines[0];
      assert text[|lines[0]| + 1..] == rest;
      ReadJoinedLines(lines[1..]);
    }
  }

  /** One step of the reader: a text whose first '\n' is at `i` yields the
      line before it, then the lines of the rest. */
  lemma ReadLinesStep(s: string, i: nat)
    requires i < |s| && i == JavaIo.NewlineIndex(s)
    ensures JavaIo.ReadLines(s) == [s[..i]] + JavaIo.ReadLines(s[i + 1..])
    ensures s == s[..i] + "\n" + s[i + 1..]
  {
    SplitAtIndex(s, i);
  }

  lemma SplitAtIndex(s: string, i: nat)
    requires i < |s|
    ensures s == s[..i] + [s[i]] + s[i + 1..]
  {
    assert s == s[..i] + s[i..];
  }

  /** Joining the lines a reader yields for `s` gives `s` back, with a '\n'
      added when the last line had no terminator. */
  lemma {:induction false} JoinReadLines(s: string)
    ensures JoinLines(JavaIo.ReadLines(s)) ==
      if s == [] || s[|s| - 1] == '\n' then s else s + "\n"
    decreases |s|
  {
    if s != [] {
      var i := JavaIo.NewlineIndex(s);
      if i < |s| {
        var line := s[..i];
        var tail := s[i + 1..];
        ReadLinesStep(s, i);
        JoinReadLines(tail);
        JoinLinesCons(line, JavaIo.ReadLines(tail));
        LastOfJoined(line, tail);
      } else {
        JoinLinesCons(s, []);
      }
    }
  }

  /** `JoinLines` with its first line unfolded. */
  lemma JoinLinesCons(line: string, rest: seq<string>)
    ensures JoinLines([line] + rest) == line + "\n" + JoinLines(rest)
  {
    assert ([line] + rest)[1..] == rest;
  }

  /** The last character of `line + "\n" + tail` and what appending a
      '\n' to it gives. */
  lemma LastOfJoined(line: string, tail: string)
    ensures var s := line + "\n" + tail;
      s[|s| - 1] == (if tail == [] then '\n' else tail[|tail| - 1])
    ensures line + "\n" + (tail + "\n") == (line + "\n" + tail) + "\n"
  {
  }

  /** File and URL sources agree: a file that passes `canRead` and a URL
      whose connection succeeds, both delivering the same lines, compile to
      the same outcome, and failures while opening either propagate as
      thrown. A script compiled from either holds the cleaned join of the
      lines. */
  lemma FileAndUrlSourcesAgree(f: ScriptFile, lines: seq<string>, parse: string -> ParseResult)
    requires f.canRead
    ensures f.content == Returns(lines) ==>
      CreateScriptFromFile(NonNull(f), parse) == CreateScriptFromUrl(NonNull(ScriptUrl(Returns(lines))), parse)
    ensures f.content.Throws? ==>
      CreateScriptFromFile(NonNull(f), parse) == Throws(f.content.thrown)
    ensures var r := CreateScriptFromFile(NonNull(f), parse);
      r.Returns? ==> f.content.Returns? && r.value.text == CleanExpression(JoinLines(f.content.value))
  {
  }
}
