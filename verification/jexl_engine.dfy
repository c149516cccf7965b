/**
 The JEXL engine facade (`org.apache.commons.jexl.JexlEngine`): its
 configuration record, the text normalisation applied before parsing, the
 shaping of a parse tree into an expression or a script, the mapping of
 parser failures onto the exceptions callers see, and the joining of lines
 read from a script source.

 The engine is a value here: each setter returns the engine as it is after
 the call. The parser is a parameter, a function from the normalised text to
 a `ParseResult`.
 */
module JexlEngine {
  import opened JavaLang
  import opened Parser

  /** The introspection strategy: the default one from
      `Introspector.getUberspect()`, or one the caller supplied. */
  datatype Uberspect = IntrospectorUberspect | SuppliedUberspect(id: nat)

  /** The arithmetic strategy: a fresh `JexlArithmetic`, or one the caller
      supplied. */
  datatype Arithmetic = DefaultArithmetic | SuppliedArithmetic(id: nat)

  /** An object registered as a function namespace. */
  datatype Bean = Bean(id: nat)

  /** The map from namespace prefix to the bean implementing its functions;
      the `null` prefix is the top-level namespace. */
  type Functions = map<Nullable<string>, Bean>

  /** The engine's configuration. The shared parser and the logger are not
      part of it. */
  datatype Engine = Engine(
    uberspect: Uberspect,
    arithmetic: Arithmetic,
    functions: Functions,
    silent: bool)

  /** `new JexlEngine(uberspect, arithmetic, funcs, log)`: every `null`
      argument falls back to its default, and a new engine is silent. */
  function NewEngine(
    uberspect: Nullable<Uberspect>,
    arithmetic: Nullable<Arithmetic>,
    funcs: Nullable<Functions>): (e: Engine)
    ensures e.silent
    ensures uberspect.NonNull? ==> e.uberspect == uberspect.value
    ensures uberspect.Null? ==> e.uberspect == IntrospectorUberspect
    ensures arithmetic.NonNull? ==> e.arithmetic == arithmetic.value
    ensures arithmetic.Null? ==> e.arithmetic == DefaultArithmetic
    ensures funcs.NonNull? ==> e.functions == funcs.value
    ensures funcs.Null? ==> e.functions == map[]
  {
    Engine(
      if uberspect.Null? then IntrospectorUberspect else uberspect.value,
      if arithmetic.Null? then DefaultArithmetic else arithmetic.value,
      if funcs.Null? then map[] else funcs.value,
      true)
  }

  /** `new JexlEngine()`: all defaults. */
  function DefaultEngine(): (e: Engine)
    ensures e.silent && e.functions == map[]
    ensures e.uberspect == IntrospectorUberspect && e.arithmetic == DefaultArithmetic
  {
    NewEngine(Null, Null, Null)
  }

  function IsSilent(e: Engine): bool {
    e.silent
  }

  /** `setSilent`: changes the failure mode and nothing else. */
  function SetSilent(e: Engine, silent: bool): (r: Engine)
    ensures IsSilent(r) == silent
    ensures r.uberspect == e.uberspect && r.arithmetic == e.arithmetic
    ensures r.functions == e.functions
  {
    e.(silent := silent)
  }

  function GetFunctions(e: Engine): Functions {
    e.functions
  }

  /** `setFunctions`: a `null` map is replaced by the empty map; nothing but
      the functions changes. */
  function SetFunctions(e: Engine, funcs: Nullable<Functions>): (r: Engine)
    ensures funcs.NonNull? ==> GetFunctions(r) == funcs.value
    ensures funcs.Null? ==> GetFunctions(r) == map[]
    ensures r.uberspect == e.uberspect && r.arithmetic == e.arithmetic
    ensures IsSilent(r) == IsSilent(e)
  {
    e.(functions := if funcs.NonNull? then funcs.value else map[])
  }

  /** One call of a configuration setter. */
  datatype Setting = SilentSetting(silent: bool) | FunctionsSetting(funcs: Nullable<Functions>)

  function Apply(e: Engine, s: Setting): Engine {
    match s
    case SilentSetting(b) => SetSilent(e, b)
    case FunctionsSetting(f) => SetFunctions(e, f)
  }

  /** The engine after the setter calls `settings`, in order. */
  function Configure(e: Engine, settings: seq<Setting>): Engine
    decreases |settings|
  {
    if settings == [] then e else Configure(Apply(e, settings[0]), settings[1..])
  }

  /** The argument of the last `setSilent` in `settings`, or `current` when
      there is none. */
  function LastSilent(settings: seq<Setting>, current: bool): bool
    decreases |settings|
  {
    if settings == [] then current
    else
      var s := settings[|settings| - 1];
      if s.SilentSetting? then s.silent else LastSilent(settings[..|settings| - 1], current)
  }

  /** The functions installed by the last `setFunctions` in `settings`, or
      `current` when there is none. */
  function LastFunctions(settings: seq<Setting>, current: Functions): Functions
    decreases |settings|
  {
    if settings == [] then current
    else
      var s := settings[|settings| - 1];
      if s.FunctionsSetting? then
        (if s.funcs.NonNull? then s.funcs.value else map[])
      else
        LastFunctions(settings[..|settings| - 1], current)
  }

  /** `endsWith(";")`. */
  predicate EndsWithSemicolon(s: string) {
    |s| > 0 && s[|s| - 1] == ';'
  }

  /** `cleanExpression`: trim, then add a ';' unless the trimmed text already
      ends with one. */
  function CleanExpression(expression: string): (r: string)
    ensures EndsWithSemicolon(r)
    ensures IsTrimmed(r) && !IsTrimmable(r[0])
    ensures EndsWithSemicolon(Trim(expression)) ==> |r| == |Trim(expression)|
    ensures !EndsWithSemicolon(Trim(expression)) ==> |r| == |Trim(expression)| + 1
    ensures r[..|Trim(expression)|] == Trim(expression)
    ensures Trim(expression) == [] ==> r == ";"
  {
    var expr := Trim(expression);
    if !EndsWithSemicolon(expr) then expr + ";" else expr
  }

  /** `ExpressionImpl`: the text as the caller gave it and the node that
      evaluates it. The reference back to the engine is not modelled. */
  datatype Expression = Expression(text: string, node: Node)

  /** `ScriptImpl`: the normalised text and the whole-program root. */
  datatype Script = Script(text: string, root: Node)

  /** A created expression, and whether the engine logged the warning that
      only the first of several top-level statements was kept. */
  datatype CreatedExpression = CreatedExpression(expression: Expression, warned: bool)

  /** The catch clauses around `parse` in `createExpression`. */
  function ExpressionParseFailure(t: Throwable): (r: Throwable)
    ensures !r.TokenMgrError?
    ensures r.ParseException? <==> t.TokenMgrError? || t.ParseException?
    ensures r.ParseException? ==> r.message == t.message
    ensures r.RuntimeException? <==> t.IsException() && !t.ParseException?
    ensures r.RuntimeException? ==> r.cause == t
    ensures !t.IsException() && !t.TokenMgrError? ==> r == t
  {
    match t
    case TokenMgrError(m) => ParseException(m)
    case ParseException(_) => t
    case _ => if t.IsException() then RuntimeException(t) else t
  }

  /** The catch clause around `parse` in `createScript`. */
  function ScriptParseFailure(t: Throwable): (r: Throwable)
    ensures !r.TokenMgrError?
    ensures t.TokenMgrError? ==> r == ParseException(t.message)
    ensures !t.TokenMgrError? ==> r == t
  {
    if t.TokenMgrError? then ParseException(t.message) else t
  }

  /** `createExpression(String)`: parse the cleaned text and keep the first
      top-level node together with the text as given. More than one
      top-level node only raises a warning; a root without children makes
      `jjtGetChild(0)` dereference the node's null child array. */
  function CreateExpression(expression: string, parse: string -> ParseResult): (r: Outcome<CreatedExpression>)
    ensures var p := parse(CleanExpression(expression));
      && (r.Returns? <==> p.Parsed? && |p.root.children| > 0)
      && (r.Returns? ==> r.value.expression == Expression(expression, p.root.children[0]))
      && (r.Returns? ==> (r.value.warned <==> |p.root.children| > 1))
      && (p.Threw? ==> r == Throws(ExpressionParseFailure(p.thrown)))
      && (p.Parsed? && p.root.children == [] ==> r.Throws? && r.thrown.NullPointerException?)
  {
    match parse(CleanExpression(expression))
    case Threw(t) => Throws(ExpressionParseFailure(t))
    case Parsed(tree) =>
      if |tree.children| == 0 then
        Throws(NullPointerException(""))
      else
        Returns(CreatedExpression(Expression(expression, tree.children[0]), |tree.children| > 1))
  }

  /** `createScript(String)`: parse the cleaned text and accept only a
      whole-program root, kept together with the cleaned text. */
  function CreateScript(scriptText: string, parse: string -> ParseResult): (r: Outcome<Script>)
    ensures var p := parse(CleanExpression(scriptText));
      && (r.Returns? <==> p.Parsed? && IsScript(p.root))
      && (r.Returns? ==> r.value == Script(CleanExpression(scriptText), p.root))
      && (p.Threw? ==> r == Throws(ScriptParseFailure(p.thrown)))
      && (p.Parsed? && !IsScript(p.root) ==> r.Throws? && r.thrown.IllegalStateException?)
  {
    var cleanText := CleanExpression(scriptText);
    match parse(cleanText)
    case Threw(t) => Throws(ScriptParseFailure(t))
    case Parsed(script) =>
      if IsScript(script) then
        Returns(Script(cleanText, script))
      else
        Throws(IllegalStateException("Parsed script is not an ASTJexlScript"))
  }

  /** The text `readerToString` builds: every line read, each followed by
      '\n'. */
  function JoinLines(lines: seq<string>): (text: string)
    ensures text == [] <==> lines == []
    ensures lines != [] ==> text[|text| - 1] == '\n'
    ensures |text| >= |lines|
  {
    if lines == [] then [] else lines[0] + "\n" + JoinLines(lines[1..])
  }

  /** `JoinLines` of a suffix starting at line `i`, one line unfolded. */
  lemma JoinLinesAt(lines: seq<string>, i: nat)
    requires i < |lines|
    ensures JoinLines(lines[i..]) == lines[i] + "\n" + JoinLines(lines[i + 1..])
  {
    assert lines[i..][1..] == lines[i + 1..];
  }

  /** Appending a line to the buffer moves it out of what remains. */
  lemma AppendLine(buffer: string, line: string, rest: string)
    ensures buffer + (line + "\n" + rest) == (buffer + line + "\n") + rest
  {
  }

  /** The loop of `readerToString`, appending each line and a '\n' to a
      buffer. */
  method ReaderToString(lines: seq<string>) returns (text: string)
    ensures text == JoinLines(lines)
  {
    var buffer := "";
    var i := 0;
    while i < |lines|
      invariant 0 <= i <= |lines|
      invariant buffer + JoinLines(lines[i..]) == JoinLines(lines)
    {
      JoinLinesAt(lines, i);
      AppendLine(buffer, lines[i], JoinLines(lines[i + 1..]));
      buffer := buffer + lines[i] + "\n";
      i := i + 1;
    }
    assert lines[i..] == [];
    text := buffer;
  }

  /** A script file, as the calls `createScript(File)` makes on it see it:
      what `canRead()` answers, what `getCanonicalPath()` returns or throws,
      and what opening a `FileReader` on it and reading it yields (the lines
      read, or the exception thrown, e.g. for a directory or a file removed
      after `canRead`). */
  datatype ScriptFile = ScriptFile(
    canRead: bool,
    canonicalPath: Outcome<string>,
    content: Outcome<seq<string>>)

  /** `createScript(File)`. */
  function CreateScriptFromFile(scriptFile: Nullable<ScriptFile>, parse: string -> ParseResult): (r: Outcome<Script>)
    ensures scriptFile.Null? ==> r == Throws(NullPointerException("scriptFile is null"))
    ensures scriptFile.NonNull? && !scriptFile.value.canRead && scriptFile.value.canonicalPath.Returns? ==>
      r == Throws(IOException("Can't read scriptFile (" + scriptFile.value.canonicalPath.value + ")"))
    ensures scriptFile.NonNull? && !scriptFile.value.canRead && scriptFile.value.canonicalPath.Throws? ==>
      r == Throws(scriptFile.value.canonicalPath.thrown)
    ensures scriptFile.NonNull? && scriptFile.value.canRead && scriptFile.value.content.Throws? ==>
      r == Throws(scriptFile.value.content.thrown)
    ensures scriptFile.NonNull? && scriptFile.value.canRead && scriptFile.value.content.Returns? ==>
      r == CreateScript(JoinLines(scriptFile.value.content.value), parse)
  {
    match scriptFile
    case Null => Throws(NullPointerException("scriptFile is null"))
    case NonNull(f) =>
      if !f.canRead then
        match f.canonicalPath
        case Throws(t) => Throws(t)
        case Returns(path) => Throws(IOException("Can't read scriptFile (" + path + ")"))
      else
        match f.content
        case Throws(t) => Throws(t)
        case Returns(lines) => CreateScript(JoinLines(lines), parse)
  }

  /** A script URL: what opening a connection and its input stream yields,
      either the lines read from it or the exception thrown. */
  datatype ScriptUrl = ScriptUrl(content: Outcome<seq<string>>)

  /** `createScript(URL)`. */
  function CreateScriptFromUrl(scriptUrl: Nullable<ScriptUrl>, parse: string -> ParseResult): (r: Outcome<Script>)
    ensures scriptUrl.Null? ==> r == Throws(NullPointerException("scriptUrl is null"))
    ensures scriptUrl.NonNull? && scriptUrl.value.content.Throws? ==>
      r == Throws(scriptUrl.value.content.thrown)
    ensures scriptUrl.NonNull? && scriptUrl.value.content.Returns? ==>
      r == CreateScript(JoinLines(scriptUrl.value.content.value), parse)
  {
    match scriptUrl
    case Null => Throws(NullPointerException("scriptUrl is null"))
    case NonNull(u) =>
      match u.content
      case Throws(t) => Throws(t)
      case Returns(lines) => CreateScript(JoinLines(lines), parse)
  }
}
