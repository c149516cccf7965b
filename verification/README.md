# JEXL engine facade, modelled in Dafny

This project models the facade class `org.apache.commons.jexl.JexlEngine` of
Apache Commons JEXL. The engine turns source text into reusable `Expression` and
`Script` objects and holds the configuration they are later evaluated under.
That configuration is the introspection strategy (`Uberspect`), the arithmetic,
the map of function namespaces, and the `silent` failure mode.

The model covers:

- **Normalisation.** `cleanExpression` applies Java's `String.trim`, which drops
  leading and trailing characters up to U+0020. It then appends `;` unless the
  trimmed text already ends in one.
- **Compile shaping.** `createExpression(String)` keeps the first top-level node
  of the parse tree and the text exactly as the caller gave it. More than one
  top-level node raises a warning, not an error. `createScript(String)` accepts
  only a whole-program root (`ASTJexlScript`) and keeps the cleaned text.
- **Error mapping.** Parser failures are mapped onto the exceptions callers
  see, and the two entry points map them differently.
- **Script sources.** `createScript(File)` and `createScript(URL)` keep their
  null and readability guards. Opening and reading the source is an outcome:
  either the lines read or the exception thrown. The text they compile is the
  one `readerToString` builds from those lines.
- **Configuration.** The engine's configuration is a record: constructor
  defaults, `setSilent`/`isSilent` and `setFunctions`/`getFunctions`.

The parser is a parameter: a total function from text to a `ParseResult`. That
result is either a tree of tagged nodes or the throwable the parse ended with.
Java `null` is `Nullable.Null`. A thrown exception is `Outcome.Throws`. Each
setter returns the engine as it is after the call.

Files:
- `java_lang.dfy`: nullable references, the throwables involved, `String.trim`.
- `java_io.dfy`: the line splitting of `BufferedReader.readLine` for '\n'.
- `parser.dfy`: the parser's interface (nodes, parse results, the script tag).
- `jexl_engine.dfy`: the members of `JexlEngine`.
- `jexl_engine_properties.dfy`: lemmas relating those members.

The model follows what the code does, including three behaviours its own
documentation does not state:
- The Javadoc of `createExpression` (JexlEngine.java lines 169-171) promises a
  `ParseException` for text that is neither an expression nor a reference.
  A parse tree with no top-level node instead makes `jjtGetChild(0)` at
  line 200 throw a `NullPointerException`, and the model says so.
- `createExpression` wraps exceptions the parser throws, other than
  `ParseException`, in a `RuntimeException` (line 188). `createScript`
  catches only `TokenMgrError` (line 223), so it lets them through unchanged.
- Throwables that are `java.lang.Error`s but not `TokenMgrError` escape every
  catch clause and pass through both entry points unchanged.

## Model

| member | source | states |
|---|---|---|
| JavaLang.Trim | src/java/org/apache/commons/jexl/JexlEngine.java:293 | the trimmed text is a contiguous slice of the input, everything cut off on either side is a character up to U+0020, and the result neither starts nor ends with such a character |
| JavaLang.TrimUnique | src/java/org/apache/commons/jexl/JexlEngine.java:293 | trim is characterised independently of its algorithm: for any padding p, q of characters up to U+0020 around a trimmed core r, trim(p + r + q) is r |
| JavaLang.TrimIdempotent | src/java/org/apache/commons/jexl/JexlEngine.java:293 | trimming an already trimmed text changes nothing |
| JavaLang.TrimIgnoresPadding | src/java/org/apache/commons/jexl/JexlEngine.java:293 | adding more leading or trailing characters up to U+0020 does not change the trimmed text |
| JavaIo.ReadLines | src/java/org/apache/commons/jexl/JexlEngine.java:312 | the lines a reader hands out never contain the '\n' terminator, and there are none exactly when the text is empty |
| JexlEngine.NewEngine | src/java/org/apache/commons/jexl/JexlEngine.java:97-101 | a new engine is silent; each null argument is replaced by its default (Introspector uberspect, a new JexlArithmetic, the empty function map) and each non-null one is kept as given |
| JexlEngine.DefaultEngine | src/java/org/apache/commons/jexl/JexlEngine.java:86-88 | the no-argument engine is silent, has no functions and uses the default uberspect and arithmetic |
| JexlEngine.SetSilent | src/java/org/apache/commons/jexl/JexlEngine.java:113-122 | isSilent afterwards returns the value given, and the functions, uberspect and arithmetic are unchanged |
| JexlEngine.SetFunctions | src/java/org/apache/commons/jexl/JexlEngine.java:148-161 | getFunctions afterwards returns the map given, or the empty map for null; the failure mode, uberspect and arithmetic are unchanged |
| JexlEngine.CleanExpression | src/java/org/apache/commons/jexl/JexlEngine.java:292-298 | the result always ends with ';', starts with a character above U+0020 and has the trimmed text as prefix; it is one character longer than the trimmed text exactly when that text did not end in ';', and is ";" for blank input |
| JexlEngine.ExpressionParseFailure | src/java/org/apache/commons/jexl/JexlEngine.java:181-189 | a TokenMgrError becomes a ParseException with the same message, a ParseException propagates as is, any other exception is wrapped as the cause of a RuntimeException, and other errors pass through; a TokenMgrError never escapes |
| JexlEngine.ScriptParseFailure | src/java/org/apache/commons/jexl/JexlEngine.java:221-225 | a TokenMgrError becomes a ParseException with the same message; every other throwable propagates unchanged |
| JexlEngine.CreateExpression | src/java/org/apache/commons/jexl/JexlEngine.java:173-203 | succeeds exactly when the cleaned text parses to a root with at least one child; the expression holds the original, uncleaned text and child 0; the warning is raised exactly when there is more than one child; parse failures are mapped as above; a childless root throws NullPointerException |
| JexlEngine.CreateScript | src/java/org/apache/commons/jexl/JexlEngine.java:215-233 | succeeds exactly when the cleaned text parses to a whole-program (ASTJexlScript) root, and then holds the cleaned text and that root; any other root throws IllegalStateException; parse failures are mapped as above |
| JexlEngine.ReaderToString | src/java/org/apache/commons/jexl/JexlEngine.java:307-320 | the buffer built line by line equals every line read followed by '\n', concatenated in order |
| JexlEngine.JoinLines | src/java/org/apache/commons/jexl/JexlEngine.java:309-315 | the joined text is empty exactly when no line was read, otherwise it ends with '\n' |
| JexlEngine.CreateScriptFromFile | src/java/org/apache/commons/jexl/JexlEngine.java:246-257 | a null file throws NullPointerException("scriptFile is null"); an unreadable one throws an IOException naming its canonical path, or whatever getCanonicalPath throws; a readable file whose FileReader or reading throws propagates that exception; otherwise the outcome is that of createScript on the joined lines |
| JexlEngine.CreateScriptFromUrl | src/java/org/apache/commons/jexl/JexlEngine.java:270-279 | a null URL throws NullPointerException("scriptUrl is null"); a failing connection propagates its exception; otherwise the outcome is that of createScript on the joined lines |
| JexlEngineProperties.CleanIdempotent | src/java/org/apache/commons/jexl/JexlEngine.java:292-298 | cleaning is idempotent: clean(clean(s)) == clean(s) |
| JexlEngineProperties.CleanIgnoresPadding | src/java/org/apache/commons/jexl/JexlEngine.java:292-298 | leading and trailing characters up to U+0020 never change the cleaned text |
| JexlEngineProperties.CleanSupplyingTerminator | src/java/org/apache/commons/jexl/JexlEngine.java:292-298 | a text whose trimmed form lacks a final ';' cleans to the same text as that trimmed form followed by ';' |
| JexlEngineProperties.CleanCharacterisation | src/java/org/apache/commons/jexl/JexlEngine.java:292-298 | for any trimmed core between padding, the cleaned text is the core when it ends in ';' and the core plus ';' otherwise |
| JexlEngineProperties.ScriptOfCleanedText | src/java/org/apache/commons/jexl/JexlEngine.java:215-228 | compiling a script from its own cleaned text gives the same outcome as compiling the raw text |
| JexlEngineProperties.ExpressionTerminatorInsensitive | src/java/org/apache/commons/jexl/JexlEngine.java:175-202 | a text whose trimmed form lacks a final ';', and that trimmed form followed by ';', compile to expressions with the same node and warning, or to the same exception; only the stored text differs |
| JexlEngineProperties.ExpressionIsFirstStatementOfScript | src/java/org/apache/commons/jexl/JexlEngine.java:192-228 | when createScript accepts a text whose root has statements, createExpression accepts it too, keeps the first statement, and warns exactly when there are several |
| JexlEngineProperties.ParseFailureMappingsAgree | src/java/org/apache/commons/jexl/JexlEngine.java:181-225 | both entry points turn TokenMgrError and ParseException into the same ParseException; they differ exactly on other exceptions, which createExpression wraps in a RuntimeException around what createScript throws |
| JexlEngineProperties.NoTokenErrorEscapes | src/java/org/apache/commons/jexl/JexlEngine.java:183-224 | neither createExpression nor createScript ever throws a TokenMgrError |
| JexlEngineProperties.NullFunctionsRestoreDefault | src/java/org/apache/commons/jexl/JexlEngine.java:148-150 | setFunctions(null), and a constructor given null funcs whatever its uberspect and arithmetic arguments, both leave the default engine's empty function map |
| JexlEngineProperties.ConfigureKeepsLastSettings | src/java/org/apache/commons/jexl/JexlEngine.java:113-161 | after any sequence of setter calls, isSilent and getFunctions report the last value given to their setter (or the earlier value if it was never called), and uberspect and arithmetic never change |
| JexlEngineProperties.SilentUnlessSetSilent | src/java/org/apache/commons/jexl/JexlEngine.java:71 | an engine from any constructor, whatever its uberspect, arithmetic and functions arguments, stays silent through any sequence of setter calls that never calls setSilent |
| JexlEngineProperties.ReadJoinedLines | src/java/org/apache/commons/jexl/JexlEngine.java:309-315 | reading back the text readerToString builds yields exactly the lines it was built from (lines without '\n') |
| JexlEngineProperties.JoinReadLines | src/java/org/apache/commons/jexl/JexlEngine.java:309-315 | readerToString over a reader on text s (for text whose only line terminator is '\n') returns s itself when s is empty or ends in '\n', and s plus a final '\n' otherwise |
| JexlEngineProperties.FileAndUrlSourcesAgree | src/java/org/apache/commons/jexl/JexlEngine.java:246-279 | a readable file and a URL delivering the same lines compile to the same outcome; a file whose reader fails propagates that failure; a script compiled from a file holds the cleaned join of the lines read |

## Left out

- The `synchronized (parser)` blocks and the shared `Parser` instance (lines 65, 179, 219) exist for concurrency. Compilation here is one sequential call of the parse function.
- The grammar, `Parser.parse`, `SimpleNode`, `ASTJexlScript` and `TokenMgrError` are not part of this model. The parser is an uninterpreted total function, and the `ASTJexlScript` class test is a tag comparison.
- Logging is left out: `LOG.debug`, `LOG.warn`, the logger argument, and the null-logger `NullPointerException` (lines 102-106). The warning is a boolean in the result.
- `Introspector.getUberspect()` and `new JexlArithmetic()` are opaque default values. Beans, uberspects and arithmetics are identity tokens.
- The static `DEFAULT` engine (line 81) is left out.
- `createInterpreter` (lines 284-286) is a constructor call passing the configuration through, so it is left out.
- `ExpressionImpl` and `ScriptImpl` keep a live reference to the engine. The model's `Expression` and `Script` do not. A later `setSilent` or `setFunctions` would be visible to objects compiled earlier, and the model says nothing about that.
- A `null` String passed to `createExpression` or `createScript(String)` is not modelled. Java throws a `NullPointerException` at `trim`.
- Reading a file or URL is abstracted into a thrown-or-lines outcome: for a file, what opening the `FileReader` and reading it yields (lines 254-255); for a URL, what opening the connection and its stream and reading it yields (lines 274-278). `canRead` and `getCanonicalPath` (lines 250-252) are inputs, the latter as a returned-or-thrown outcome. Lines read before a failure partway through are not distinguished from a failure at the start, and `reader.close()` (lines 316-318) is not modelled.
- JavaIo.ReadLines: only '\n' is treated as a line terminator. `BufferedReader.readLine` also accepts "\r" and "\r\n".
- JexlEngine.CreateExpression: for a root without children it only says that a `NullPointerException` is thrown. This assumes a JavaCC `SimpleNode` with a null child array. The message of that exception is not modelled.
- JavaLang.Trim: Java strings are UTF-16 code units and Dafny strings are Unicode scalar values. The U+0020 cut-off is the same for both, but surrogate pairs are not modelled.
