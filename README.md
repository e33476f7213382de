# Taint analysis: trust resolution and call rewriting

This Dafny project models the core of a taint-analysis tool for Java sources. The tool parses a user's
compilation unit and visits every method call. For a call on an object, it resolves the receiver's
class and the called method, and it rebuilds the argument types the receiver was constructed with.
It then looks the triple up in a configuration of external sources. When the configuration names an
untrusted source for that class, method and constructor profile, the tool wraps the call in the
sanitizer registered for that source (`InputSanitizer.sanitizeUserInput(...)` and so on).

Four modules mirror the four core classes:

- `ConfigLoader` holds the loaded configuration as a map from class name to source. The class
  `ConfigLoader.ConfigLoader` has the map as a field, and `InsertSources` fills it with nested loops.
  The trust and lookup queries are functions that read the map. HashMap iteration order is an input
  sequence `order`; results that do not depend on it are proved for every order that lists the keys.
- `ConstructorAnalyzer` collects the argument-type tokens of an object creation into a
  `DescriptorList`, a class over a `seq<Option<string>>` where `None` stands for Java's `null`
  placeholder. It does this with the same recursive dispatch and loop as the source. The methods are
  proved against the specification functions `ArgDescriptors`/`ArgsDescriptors`. A lemma shows that
  the reversed depth-first list equals an independently defined mirrored order (`MirrorArgs`).
- `MethodCallVisitor` is the per-call analysis (`AnalyzeMethodCall`, proved equal to the function
  `SiteRewrite`) plus the scope lookups of a receiver's declaration. The walk over the tree
  (`Visit`, following the visitor adapter's child order) is written on values and returns the
  rewritten compilation unit or the first error.
- `InputSanitizer` builds the source-to-sanitizer table (`CreationMapping`) and the sanitizers.
  Each sanitizer performs the source's steps in order. Steps done by libraries, or by regular
  expressions with lazy quantifiers or keyword alternations, are the fields of a `TextLibrary`
  parameter. The character-level steps are in the module `Text`.

Supporting modules: `Wrappers` (`Option`, `Result`), `ConfigRecords` (the JSON records `Source`,
`ConfigClass`, `ConstructorInfo`, `Config`) and `Syntax` (the parsed tree, pre-order `findAll`
listings, and the symbol resolver `Resolver`). In `Resolver`, each query answers `None` where the
library throws.

Conventions:

- A Java exception is an `Err` of `Result`, and `Err` carries the message.
- A Java `null` is `None`.
- The JavaParser resolver is a set of total functions over the tree's values.

The notes below abbreviate the four core files:

- `CL` = `taint_analysis_project/src/main/java/taintanalysis/config/ConfigLoader.java`
- `CA` = `taint_analysis_project/src/main/java/taintanalysis/service/ConstructorAnalyzer.java`
- `MCV` = `taint_analysis_project/src/main/java/taintanalysis/service/MethodCallVisitor.java`
- `IS` = `taint_analysis_project/src/main/java/taintanalysis/service/InputSanitizer.java`

Four behaviours of the code that the model keeps as they are:

- A static call, or a configured class with no constructors, never matches a source: the
  profile stream is empty for it (`CL` lines 79-80).
- An exception raised while analysing one call is rethrown (`MCV` lines 72-74), so the whole walk
  fails.
- The constructor tokens of a receiver are the reverse of the depth-first list (`MCV` line 221).
  For `new BufferedReader(new FileReader(path))` the tokens are `[FileReader, type of path]`.
- After a call is replaced (`MCV` line 236), the visitor still walks the children of the
  replaced call (`MCV` line 76), which is no longer in the unit. Its direct arguments and
  receiver are nested calls and are skipped. A call further down with a receiver is analysed,
  and resolving the receiver's type then throws, so the walk fails (`MCV` lines 58-74).
  `Context.attached` records this.

## Model

| member | source | states |
|---|---|---|
| ConfigLoader.ConfigLoader.constructor | taint_analysis_project/src/main/java/taintanalysis/config/ConfigLoader.java:23-25 | the loader starts from an empty map and registers the configuration's sources |
| ConfigLoader.ConfigLoader.InsertSources | taint_analysis_project/src/main/java/taintanalysis/config/ConfigLoader.java:44-52 | the new map is the old one with every class of every source registered in order; a null config, a null source list or an empty one changes nothing |
| ConfigLoader.RegisterClassesEffect | taint_analysis_project/src/main/java/taintanalysis/config/ConfigLoader.java:47-49 | registering one source adds exactly its class names as keys, maps each of them to that source and keeps every other entry |
| ConfigLoader.RegisterSourcesKeys | taint_analysis_project/src/main/java/taintanalysis/config/ConfigLoader.java:44-52 | after loading, a class name is a key iff it was one before or some source lists it |
| ConfigLoader.RegisterSourcesLastWins | taint_analysis_project/src/main/java/taintanalysis/config/ConfigLoader.java:46-49 | when several sources list a class, the last of them in the file owns it |
| ConfigLoader.RegisterSourcesKeeps | taint_analysis_project/src/main/java/taintanalysis/config/ConfigLoader.java:44-52 | an entry no loaded source lists keeps its old source |
| ConfigLoader.RegisteredSourcesAreConfigured | taint_analysis_project/src/main/java/taintanalysis/config/ConfigLoader.java:44-52 | loading into an empty registry stores only sources the configuration lists |
| ConfigLoader.FirstTrustFlag | taint_analysis_project/src/main/java/taintanalysis/config/ConfigLoader.java:55-59 | no flag iff no source in the stream has the name; a flag is the trusted flag of the first source in the stream with that name |
| ConfigLoader.ValuesInOrder | taint_analysis_project/src/main/java/taintanalysis/config/ConfigLoader.java:55 | the stream of map values holds only registered sources, and every source reached by the iteration order |
| ConfigLoader.ConfigLoader.IsSourceTrusted | taint_analysis_project/src/main/java/taintanalysis/config/ConfigLoader.java:54-60 | fail-open: a name no registered source carries is trusted; an untrusted answer means a registered source with that name is untrusted |
| ConfigLoader.IsSourceTrustedWhenAgreed | taint_analysis_project/src/main/java/taintanalysis/config/ConfigLoader.java:54-60 | when all registered sources with the name agree on the flag, the answer is that flag for every iteration order |
| ConfigLoader.Contributions | taint_analysis_project/src/main/java/taintanalysis/config/ConfigLoader.java:75-86 | one source's stream yields only that source, and yields something iff one of its classes has the class name, lists the method, the call is not static, the class has constructors and one of them matches |
| ConfigLoader.Candidates | taint_analysis_project/src/main/java/taintanalysis/config/ConfigLoader.java:74-86 | the flat-mapped stream contains exactly the sources with a matching class profile |
| ConfigLoader.ConfigLoader.GetSourceDetailsForResolvedType | taint_analysis_project/src/main/java/taintanalysis/config/ConfigLoader.java:72-89 | nothing for a static call or an unlisted class; a result is a registered source with a matching profile; and, for an iteration order that visits every key, one is found whenever such a source exists |
| ConfigLoader.SourceNames | taint_analysis_project/src/main/java/taintanalysis/config/ConfigLoader.java:67 | the names of the configured sources, one per source, in file order |
| ConfigLoader.UntrustedSourcesAsWritten | taint_analysis_project/src/main/java/taintanalysis/config/ConfigLoader.java:63-70 | as written the list is either every source name (first source untrusted) or empty (first source trusted or no source) |
| ConfigLoader.UntrustedSourceMissed | taint_analysis_project/src/main/java/taintanalysis/config/ConfigLoader.java:67-69 | with a trusted first source and an untrusted second one, the untrusted name is missing from the list as written |
| ConfigLoader.UntrustedSources | taint_analysis_project/src/main/java/taintanalysis/config/ConfigLoader.java:62-70 | a name is listed iff some source with that name is untrusted |
| ConfigLoader.UntrustedSourcesAgreeWhenUniform | taint_analysis_project/src/main/java/taintanalysis/config/ConfigLoader.java:67-69 | the code as written and the intended filter agree whenever all sources carry the same flag |
| ConstructorAnalyzer.ResolveVariableType | taint_analysis_project/src/main/java/taintanalysis/service/ConstructorAnalyzer.java:39-44 | nothing iff no declarator in the unit has the name; otherwise the declared type of the first declarator with the name in pre-order |
| ConstructorAnalyzer.DescriptorList.constructor | taint_analysis_project/src/main/java/taintanalysis/service/MethodCallVisitor.java:61 | a new list is empty |
| ConstructorAnalyzer.DescriptorList.Add | taint_analysis_project/src/main/java/taintanalysis/service/ConstructorAnalyzer.java:53 | the token is appended at the end |
| ConstructorAnalyzer.DescriptorList.Reverse | taint_analysis_project/src/main/java/taintanalysis/service/MethodCallVisitor.java:221 | the list becomes the reverse of what it was |
| ConstructorAnalyzer.ArgAsNameExpr | taint_analysis_project/src/main/java/taintanalysis/service/ConstructorAnalyzer.java:52-54 | appends the resolved type of the name, or fails when it cannot be solved |
| ConstructorAnalyzer.ArgAsLiteralExpr | taint_analysis_project/src/main/java/taintanalysis/service/ConstructorAnalyzer.java:62-64 | appends the resolved type of the literal, or fails when it cannot be solved |
| ConstructorAnalyzer.ArgAsObjectCreationExpr | taint_analysis_project/src/main/java/taintanalysis/service/ConstructorAnalyzer.java:73-76 | appends the inner arguments' tokens first and the created class's type after them; fails with the first unsolved symbol |
| ConstructorAnalyzer.ArgAsMethodCallExpr | taint_analysis_project/src/main/java/taintanalysis/service/ConstructorAnalyzer.java:85-108 | a call on a declared variable appends `Type.method()` then the return type; an undeclared one appends the null placeholder; no scope or a non-name scope appends nothing |
| ConstructorAnalyzer.ArgAsFieldAccessExpr | taint_analysis_project/src/main/java/taintanalysis/service/ConstructorAnalyzer.java:116-123 | appends `Owner.field` then the field's type; fails when the owner is not a name or the field cannot be solved |
| ConstructorAnalyzer.AnalyzeArgument | taint_analysis_project/src/main/java/taintanalysis/service/ConstructorAnalyzer.java:134-146 | one argument appends exactly its specified tokens, or fails with its specified error; other kinds append nothing |
| ConstructorAnalyzer.AnalyzeConstructorDetails | taint_analysis_project/src/main/java/taintanalysis/service/ConstructorAnalyzer.java:132-148 | the loop appends the tokens of all arguments left to right, or stops at the first failure with its error |
| ConstructorAnalyzer.ArgsDescriptorsAppend | taint_analysis_project/src/main/java/taintanalysis/service/ConstructorAnalyzer.java:133-147 | the tokens of two argument lists in a row are the tokens of the first then those of the second, and the first failure wins |
| ConstructorAnalyzer.ArgsDescriptorsSnoc | taint_analysis_project/src/main/java/taintanalysis/service/ConstructorAnalyzer.java:133-147 | adding one argument at the end adds its tokens at the end |
| ConstructorAnalyzer.ReversedDescriptors | taint_analysis_project/src/main/java/taintanalysis/service/MethodCallVisitor.java:219-221 | reversing one argument's depth-first tokens gives the mirrored order (outer type before inner arguments), and both fail on the same inputs |
| ConstructorAnalyzer.ReversedArgsDescriptors | taint_analysis_project/src/main/java/taintanalysis/service/MethodCallVisitor.java:220-221 | the same for a whole argument list: last argument first, each mirrored |
| ConstructorAnalyzer.MatchesConstructor | taint_analysis_project/src/main/java/taintanalysis/service/ConstructorAnalyzer.java:158-161 | true iff same length and each token equals the configured parameter type at its place, nulls included (`List.equals`); a matching list with a null placeholder has a configured null |
| ConstructorAnalyzer.NullPlaceholderMatchesOnlyNull | taint_analysis_project/src/main/java/taintanalysis/service/ConstructorAnalyzer.java:158-161 | in a match, a token is the null placeholder exactly where the configured type is null |
| ConstructorAnalyzer.MatchIsExact | taint_analysis_project/src/main/java/taintanalysis/service/ConstructorAnalyzer.java:158-161 | changing any one token of a matching list breaks the match |
| MethodCallVisitor.IsNestedMethodCall | taint_analysis_project/src/main/java/taintanalysis/service/MethodCallVisitor.java:85-89 | nested iff the parent is a method call or an object creation |
| MethodCallVisitor.CheckIntoLocalScope | taint_analysis_project/src/main/java/taintanalysis/service/MethodCallVisitor.java:115-127 | a declarator of that name inside the enclosing block, and nothing iff there is no block or none has the name |
| MethodCallVisitor.CheckIntoMethodScope | taint_analysis_project/src/main/java/taintanalysis/service/MethodCallVisitor.java:135-141 | a declarator of that name inside the enclosing method's body, and nothing iff there is no body or none has the name |
| MethodCallVisitor.FirstCreationAssigned | taint_analysis_project/src/main/java/taintanalysis/service/MethodCallVisitor.java:153-161 | the value of the first assignment of an object creation to the name, and nothing iff there is none |
| MethodCallVisitor.CheckIntoConstructor | taint_analysis_project/src/main/java/taintanalysis/service/MethodCallVisitor.java:150-167 | a declarator built from a creation assigned to the name in the first constructor, typed by the created class; nothing iff no constructor or no such assignment |
| MethodCallVisitor.CheckIntoClassFields | taint_analysis_project/src/main/java/taintanalysis/service/MethodCallVisitor.java:175-185 | the first field variable of that name, otherwise the constructor lookup; nothing outside a class |
| MethodCallVisitor.FindVariableNodeInScope | taint_analysis_project/src/main/java/taintanalysis/service/MethodCallVisitor.java:193-197 | block first, then method body, then class fields and constructor; a result always has the name |
| MethodCallVisitor.InitializerDescriptors | taint_analysis_project/src/main/java/taintanalysis/service/MethodCallVisitor.java:216-224 | no tokens unless the initializer is an object creation; otherwise the mirrored tokens of its arguments, failing exactly when they fail |
| MethodCallVisitor.ScopeDescriptors | taint_analysis_project/src/main/java/taintanalysis/service/MethodCallVisitor.java:97-107 | no tokens for a non-name receiver or an unfound declaration; otherwise the initializer's tokens, computed with a solver that answers nothing when the declaration was built from a constructor's assignment (the built declarator takes the creation out of the unit, lines 160 and 182) |
| MethodCallVisitor.RebuiltDeclarationDescriptors | taint_analysis_project/src/main/java/taintanalysis/service/MethodCallVisitor.java:150-167 | for a receiver declared only by a constructor's assignment, tokens come back exactly when no argument of the creation needs the solver (no name, literal, creation or field access, and no call on a name declared in the unit), and they are then all null placeholders |
| ConstructorAnalyzer.UnattachedArgsDescriptors | taint_analysis_project/src/main/java/taintanalysis/service/ConstructorAnalyzer.java:132-148 | out of the unit, an argument list yields tokens exactly when none of its arguments needs the solver; the tokens are then all null placeholders |
| ConstructorAnalyzer.UnattachedArgDescriptors | taint_analysis_project/src/main/java/taintanalysis/service/ConstructorAnalyzer.java:132-148 | the same for one argument |
| MethodCallVisitor.SubmittedQuery | taint_analysis_project/src/main/java/taintanalysis/service/MethodCallVisitor.java:52-75 | no query without a receiver or for a primitive receiver; a failure when the receiver's type or the method is unsolved; for a resolved static method the query is the receiver's type, `name()`, no tokens and the static flag; for an instance method it carries the receiver's constructor tokens, or fails with their error |
| MethodCallVisitor.SanitizedCall | taint_analysis_project/src/main/java/taintanalysis/service/MethodCallVisitor.java:232-240 | a wrapper exists iff the source has a sanitizer, and it is that sanitizer applied to the original call |
| MethodCallVisitor.SiteRewrite | taint_analysis_project/src/main/java/taintanalysis/service/MethodCallVisitor.java:52-77 | fails iff the query fails; rewrites iff the registry answers the query with an untrusted source that has a sanitizer, and then wraps the call in the sanitizer of exactly that source |
| MethodCallVisitor.StaticCallNeverRewritten | taint_analysis_project/src/main/java/taintanalysis/service/MethodCallVisitor.java:64-70 | a static call is never wrapped |
| MethodCallVisitor.NoRewriteWithoutUntrustedSource | taint_analysis_project/src/main/java/taintanalysis/service/MethodCallVisitor.java:250-258 | with no sanitizers or only trusted sources, no call is wrapped |
| MethodCallVisitor.UntrustedMatchAlwaysSanitized | taint_analysis_project/src/main/java/taintanalysis/service/MethodCallVisitor.java:250-258 | with the table built by the intended filter from the loaded configuration, a call is wrapped iff the registry answers its query with an untrusted source |
| MethodCallVisitor.AsWrittenTableSanitizesNothing | taint_analysis_project/src/main/java/taintanalysis/config/ConfigLoader.java:67-69 | with the table built from the list as the code computes it and a trusted first source, no call is wrapped |
| MethodCallVisitor.AnalyzeVariableInitializer | taint_analysis_project/src/main/java/taintanalysis/service/MethodCallVisitor.java:216-224 | leaves the list alone unless the initializer is a creation; otherwise appends the creation's tokens and reverses the whole list, or fails with their error |
| MethodCallVisitor.ConstructorScope | taint_analysis_project/src/main/java/taintanalysis/service/MethodCallVisitor.java:97-107 | from an empty list, the list ends as the receiver's constructor tokens (`ScopeDescriptors`, including the solver-less analysis of a declaration built from a constructor), or the step fails with their error |
| MethodCallVisitor.InsertSanitizeMethod | taint_analysis_project/src/main/java/taintanalysis/service/MethodCallVisitor.java:232-240 | a replacement iff the source is in the table, namely the sanitizer applied to the call |
| MethodCallVisitor.CompareWithConfigurationData | taint_analysis_project/src/main/java/taintanalysis/service/MethodCallVisitor.java:250-258 | a replacement only for an untrusted configured source, and it is that source's sanitizer wrapper |
| MethodCallVisitor.AnalyzeMethodCall | taint_analysis_project/src/main/java/taintanalysis/service/MethodCallVisitor.java:52-77 | the imperative analysis computes exactly the specified site outcome |
| MethodCallVisitor.NestedCallKept | taint_analysis_project/src/main/java/taintanalysis/service/MethodCallVisitor.java:54-55 | a call inside another call or creation is left as it is, subtree included |
| MethodCallVisitor.ReplacedCallWrapsOriginal | taint_analysis_project/src/main/java/taintanalysis/service/MethodCallVisitor.java:232-236 | a rewritten call becomes a sanitizer call whose only argument is the original call |
| MethodCallVisitor.SiteErrorPropagates | taint_analysis_project/src/main/java/taintanalysis/service/MethodCallVisitor.java:72-74 | an error at a call that is not nested makes its visit fail with that error, before its arguments and receiver are visited (below a replaced call, with the error for a node outside the unit) |
| MethodCallVisitor.VisitExpr | taint_analysis_project/src/main/java/taintanalysis/service/MethodCallVisitor.java:41-77 | every node keeps its kind, labels and number of children; a call that is not nested is visited only after its site succeeds, and becomes the site's wrapper when there is one, otherwise the same call with its children visited; below a replaced call, which is no longer in the unit, a call that is not nested and has a receiver fails the visit |
| MethodCallVisitor.ReplacedCallFailsOnDeeperCall | taint_analysis_project/src/main/java/taintanalysis/service/MethodCallVisitor.java:58-76 | when a call is replaced, a call with a receiver inside its first argument (one level below the argument itself) makes the visit fail, since it is analyzed after its ancestor left the unit |
| MethodCallVisitor.DetachedArgumentFails | taint_analysis_project/src/main/java/taintanalysis/service/MethodCallVisitor.java:58-76 | out of the unit, an argument whose first part is a call with a receiver fails the visit |
| MethodCallVisitor.VisitMember | taint_analysis_project/src/main/java/taintanalysis/service/MethodCallVisitor.java:41-44 | fields, methods and constructors keep their kind; a method keeps its name and whether it has a body |
| MethodCallVisitor.VisitTypes | taint_analysis_project/src/main/java/taintanalysis/service/MethodCallVisitor.java:41-44 | the classes keep their names and order, each with as many members |
| MethodCallVisitor.Visit | taint_analysis_project/src/main/java/taintanalysis/service/MethodCallVisitor.java:41-44 | a rewritten unit has the same classes, in order, each with as many members |
| MethodCallVisitor.VisitUnchanged | taint_analysis_project/src/main/java/taintanalysis/service/MethodCallVisitor.java:41-44 | with nothing to sanitize, a successful walk returns the compilation unit unchanged |
| MethodCallVisitor.VisitExprUnchanged | taint_analysis_project/src/main/java/taintanalysis/service/MethodCallVisitor.java:41-44 | the same for one expression and its subtree |
| MethodCallVisitor.VisitOptExprUnchanged | taint_analysis_project/src/main/java/taintanalysis/service/MethodCallVisitor.java:41-44 | the same for an optional expression |
| MethodCallVisitor.VisitExprsUnchanged | taint_analysis_project/src/main/java/taintanalysis/service/MethodCallVisitor.java:41-44 | the same for a list of expressions |
| MethodCallVisitor.VisitDeclaratorsUnchanged | taint_analysis_project/src/main/java/taintanalysis/service/MethodCallVisitor.java:41-44 | the same for variable declarators and their initializers |
| MethodCallVisitor.VisitStmtUnchanged | taint_analysis_project/src/main/java/taintanalysis/service/MethodCallVisitor.java:41-44 | the same for a statement |
| MethodCallVisitor.VisitOptStmtUnchanged | taint_analysis_project/src/main/java/taintanalysis/service/MethodCallVisitor.java:41-44 | the same for an optional statement |
| MethodCallVisitor.VisitStmtsUnchanged | taint_analysis_project/src/main/java/taintanalysis/service/MethodCallVisitor.java:41-44 | the same for a statement list |
| MethodCallVisitor.VisitMembersUnchanged | taint_analysis_project/src/main/java/taintanalysis/service/MethodCallVisitor.java:41-44 | the same for class members |
| MethodCallVisitor.VisitTypesUnchanged | taint_analysis_project/src/main/java/taintanalysis/service/MethodCallVisitor.java:41-44 | the same for the unit's classes |
| Syntax.DeclaratorsIn | taint_analysis_project/src/main/java/taintanalysis/service/MethodCallVisitor.java:119 | the declarator search finds exactly the declarators of the subtree |
| Syntax.AssignmentsIn | taint_analysis_project/src/main/java/taintanalysis/service/MethodCallVisitor.java:154 | the assignment search finds exactly the assignments of the subtree |
| Syntax.FieldVariables | taint_analysis_project/src/main/java/taintanalysis/service/MethodCallVisitor.java:178-179 | exactly the variables of the class's field declarations |
| Syntax.FirstConstructor | taint_analysis_project/src/main/java/taintanalysis/service/MethodCallVisitor.java:151 | the body of the first constructor, present iff the class declares one |
| Syntax.FirstNamed | taint_analysis_project/src/main/java/taintanalysis/service/MethodCallVisitor.java:180-181 | the first declarator with the name, and nothing iff none has it |
| InputSanitizer.CapitalizeFirstLetter | taint_analysis_project/src/main/java/taintanalysis/service/InputSanitizer.java:53-58 | same length; the first character upper-cased and the rest unchanged; empty stays empty |
| InputSanitizer.CapitalizeIdempotent | taint_analysis_project/src/main/java/taintanalysis/service/InputSanitizer.java:53-58 | capitalizing twice is capitalizing once |
| InputSanitizer.SanitizerName | taint_analysis_project/src/main/java/taintanalysis/service/InputSanitizer.java:40-41 | the qualified name starts with `InputSanitizer.sanitize` and is followed by as many characters as the source name |
| InputSanitizer.SanitizerNameOf | taint_analysis_project/src/main/java/taintanalysis/service/InputSanitizer.java:40-41 | the name is `InputSanitizer.sanitize`, the source's initial upper-cased, then the rest of the source name |
| InputSanitizer.UserInputHasSanitizer | taint_analysis_project/src/main/java/taintanalysis/service/InputSanitizer.java:40-41 | the `userInput` source maps to `InputSanitizer.sanitizeUserInput`, a method the class defines |
| InputSanitizer.SanitizerTable | taint_analysis_project/src/main/java/taintanalysis/service/InputSanitizer.java:34-45 | the table has a key iff the name is in the list, and maps it to its sanitizer name |
| InputSanitizer.CreationMapping | taint_analysis_project/src/main/java/taintanalysis/service/InputSanitizer.java:34-45 | the loop builds exactly the table: keys are the untrusted source names, each mapped to its sanitizer name |
| InputSanitizer.SanitizeString | taint_analysis_project/src/main/java/taintanalysis/service/InputSanitizer.java:408-414 | `""` for null; no quote or angle bracket; no whitespace at either end; only characters of the input; every other non-whitespace character of the input survives; an input without those characters and without surrounding whitespace comes back unchanged |
| InputSanitizer.SanitizeStringIdempotent | taint_analysis_project/src/main/java/taintanalysis/service/InputSanitizer.java:408-414 | sanitizing a sanitized string changes nothing |
| InputSanitizer.SanitizeUserInput | taint_analysis_project/src/main/java/taintanalysis/service/InputSanitizer.java:66-93 | `""` for null; at most 1024 characters; stripped; only the filter's characters whenever normalization keeps ASCII text |
| InputSanitizer.UserInputCharsAreAscii | taint_analysis_project/src/main/java/taintanalysis/service/InputSanitizer.java:81 | the user-input class is ASCII |
| InputSanitizer.SanitizeCommandLineArgs | taint_analysis_project/src/main/java/taintanalysis/service/InputSanitizer.java:142-172 | `""` for null; at most 1024 characters of the allowed class and no shell symbol; whitespace only as single spaces; stripped |
| InputSanitizer.SanitizeEmailInput | taint_analysis_project/src/main/java/taintanalysis/service/InputSanitizer.java:364-400 | `""` for null; at most 512 characters among letters, digits, `@._%+-` and single spaces; stripped |
| InputSanitizer.SanitizeApiResponse | taint_analysis_project/src/main/java/taintanalysis/service/InputSanitizer.java:180-202 | `""` for null; rejects more than 4096 characters; JSON-like text goes to the JSON cleaner, then markup-like text to the HTML cleaner, anything else to the string sanitizer |
| InputSanitizer.UploadCandidate | taint_analysis_project/src/main/java/taintanalysis/service/InputSanitizer.java:428-443 | the cleaned file name has at most 255 characters, all letters, digits, `.`, `_` or `-` |
| InputSanitizer.SanitizeUploadFile | taint_analysis_project/src/main/java/taintanalysis/service/InputSanitizer.java:422-459 | rejects null and empty names; rejects iff the cleaned name is a reserved device name in any case; otherwise returns the cleaned name unchanged by the final strip |
| Text.Filter | taint_analysis_project/src/main/java/taintanalysis/service/InputSanitizer.java:81 | a character is kept iff it is in the input and accepted; never longer |
| Text.FilterKeepsAccepted | taint_analysis_project/src/main/java/taintanalysis/service/InputSanitizer.java:413 | filtering a string whose characters are all accepted returns it unchanged |
| Text.FilterAppend | taint_analysis_project/src/main/java/taintanalysis/service/InputSanitizer.java:81 | filtering distributes over concatenation |
| Text.ReplaceChar | taint_analysis_project/src/main/java/taintanalysis/service/InputSanitizer.java:435 | every occurrence of the character is replaced, every other position kept |
| Text.RemoveAll | taint_analysis_project/src/main/java/taintanalysis/service/InputSanitizer.java:434 | the result is made of the input's characters; it is the input itself iff the pattern does not occur, and at least one occurrence shorter otherwise |
| Text.RemoveAllIsSinglePass | taint_analysis_project/src/main/java/taintanalysis/service/InputSanitizer.java:434 | a single pass removing `../` from `....//` leaves `../` |
| Text.RemoveAllKeepsPrefix | taint_analysis_project/src/main/java/taintanalysis/service/InputSanitizer.java:434 | text before the first occurrence of the pattern is kept unchanged in front of the rest, processed |
| Text.RemoveAllKeepsFirst | taint_analysis_project/src/main/java/taintanalysis/service/InputSanitizer.java:434 | the first `n` characters are kept when no occurrence starts among them |
| Text.RemoveAllDropsLeading | taint_analysis_project/src/main/java/taintanalysis/service/InputSanitizer.java:434 | an occurrence at the front is removed and the rest is processed after it |
| Text.RemoveTags | taint_analysis_project/src/main/java/taintanalysis/service/InputSanitizer.java:72 | never longer, only input characters, and a string without `>` is unchanged |
| Text.RemoveTagsLeavesNoTag | taint_analysis_project/src/main/java/taintanalysis/service/InputSanitizer.java:72 | after tag removal no `<` is followed later by `>` |
| Text.RemoveTagsKeepsPrefix | taint_analysis_project/src/main/java/taintanalysis/service/InputSanitizer.java:72 | text before the first `<` is kept unchanged in front of the rest, processed |
| Text.RemoveTagsKeepsFirst | taint_analysis_project/src/main/java/taintanalysis/service/InputSanitizer.java:72 | the first `n` characters are kept when none of them is `<` |
| Text.RemoveTagsDropsTag | taint_analysis_project/src/main/java/taintanalysis/service/InputSanitizer.java:72 | a tag `<t>` at the front (no `>` inside `t`) is removed and the rest is processed after it |
| Text.StripWith | taint_analysis_project/src/main/java/taintanalysis/service/InputSanitizer.java:92 | the result is a slice of the input, every cut character was whitespace, neither end is whitespace, and every other character survives |
| Text.StripWithStable | taint_analysis_project/src/main/java/taintanalysis/service/InputSanitizer.java:458 | stripping a string with no whitespace at its ends returns it unchanged |
| Text.StripWithIsSlice | taint_analysis_project/src/main/java/taintanalysis/service/InputSanitizer.java:92 | the stripped string sits at a known offset inside the input |
| Text.Strip | taint_analysis_project/src/main/java/taintanalysis/service/InputSanitizer.java:92 | `String.strip`: neither end is Java whitespace, only input characters, every non-whitespace character kept, and an input without whitespace at its ends unchanged |
| Text.Trim | taint_analysis_project/src/main/java/taintanalysis/service/InputSanitizer.java:191 | `String.trim`: neither end is a character up to U+0020 |
| Text.Truncate | taint_analysis_project/src/main/java/taintanalysis/service/InputSanitizer.java:87-89 | a prefix of at most the limit, the whole input when it fits and exactly the limit otherwise |
| Text.CollapseWhitespace | taint_analysis_project/src/main/java/taintanalysis/service/InputSanitizer.java:171 | every character is a space or a non-`\s` character of the input; never two spaces in a row; the first character is a space iff the input starts with `\s` |
| Text.CollapseKeepsText | taint_analysis_project/src/main/java/taintanalysis/service/InputSanitizer.java:171 | collapsing keeps the input's non-`\s` characters exactly, in order |
| Text.CollapseAppend | taint_analysis_project/src/main/java/taintanalysis/service/InputSanitizer.java:171 | a piece ending in a non-`\s` character collapses on its own: the collapse of `a + b` is that of `a` followed by that of `b` |
| Text.CollapseRun | taint_analysis_project/src/main/java/taintanalysis/service/InputSanitizer.java:171 | a non-empty run of `\s` becomes exactly one space |
| Text.DropSpacesKeepsText | taint_analysis_project/src/main/java/taintanalysis/service/InputSanitizer.java:171 | dropping leading `\s` keeps the other characters exactly |
| Text.StripKeepsSingleSpaces | taint_analysis_project/src/main/java/taintanalysis/service/InputSanitizer.java:171 | stripping keeps whitespace as single spaces |
| Text.AsciiUpper | taint_analysis_project/src/main/java/taintanalysis/service/InputSanitizer.java:57 | lower-case ASCII letters move up by 32; every other character is unchanged |

## Left out

- The configuration file is not read (`sourcesConfiguration`, `getConfigInformation`). The loader receives the parsed `Config` value.
- ConfigLoader.UntrustedSourcesAsWritten: modelled over the parsed source records, in which every source has a flag. The code reads the JSON tree instead. `findValue("trusted")` there returns the first `trusted` field in the whole sources subtree, so a first source without the field takes the flag of the next source that has one. When no source has the field the lookup is null and the code fails on a null dereference. The registry side parses with Gson, which reads a missing field as false. These cases are not represented.
- A configuration with a null class list, method list or constructor list, which makes the Java code fail on a null dereference, is not represented. The records hold sequences.
- HashMap iteration order is not modelled. It is the `order` parameter, and order-independent results assume only that it lists every key.
- `isSourceTrusted` is modelled, but its caller, the application entry point, is not part of this model.
- Parsing and symbol resolution belong to the parser library. The tree is a value, and the resolver is a `Resolver` of total functions in which `None` stands for a thrown exception.
- Nested and local classes are not in `Syntax`. A compilation unit is a list of top-level classes.
- Statements are limited to blocks, expression statements, `if`, `while` and `return`. `try` (with or without resources), `catch`, `for`, for-each, `switch`, `do` and lambdas are not represented, though the sample class `data/source/ClassToAnalyze.java` uses several of them. Their child order in the visitor adapter, and the blocks they open for the local-scope lookup, are not modelled.
- The `Resolver` answers by the value of an expression, so two equal expressions at different positions resolve alike. Position-dependent resolution is not modelled.
- Source names are taken to be Java identifiers. The wrapper is re-parsed from text (`MCV` line 236). A source name like `user input` would make that parse throw, which is rethrown (`MCV` lines 72-74). A name like `user-input` would parse as a subtraction. The model always builds the wrapper call.
- In-place replacement of a node (`Node.replace`) is modelled by rebuilding the tree. The wrapper is `Call(None, sanitizer, [call])` with the qualified sanitizer name kept as one string, where the library would re-parse it into a scoped call.
- Scope lookups search the original tree, not the partly rewritten one. A rewrite never changes a declarator, an assignment target or a creation's arguments outside calls nested in other calls, and nested calls are never rewritten.
- Messages of exceptions are the model's own. Below a replaced call, the exception for a node outside the unit is the one message `DetachedNode`. For the creation held by a declarator built from a constructor's assignment, the `Unattached` solver answers nothing, so the message is that of the first failed resolution. The library's exception classes, and their wrapping by `generateException`, are not modelled.
- MethodCallVisitor.VisitExpr: once a declarator has been built from a constructor's assignment, the creation it holds stays out of the unit for the rest of the walk. Later visits of that creation's subtree, and later lookups that would search it, are modelled on the unit as parsed. A call with a receiver deep inside those arguments, which the code would then fail on, is analyzed as if attached.
- Printing to standard output (unknown argument kinds, missing keys, unsolved names) and logging are left out.
- `sanitizeStreamInput`, `sanitizeRemoteServiceCall`, `isJson` and `isXml` are not part of this model. Nothing in the rewrite path names them.
- `sanitizeJson`, `sanitizeJsonNode` and `sanitizeHtmlOrXml` rely on Jackson and Jsoup. They are the `TextLibrary` fields `sanitizeJson` and `sanitizeHtmlOrXml`.
- These steps are the corresponding `TextLibrary` fields:
  - NFKC normalization;
  - URL decoding;
  - the lazy or keyword-alternation patterns: scripts, SQL keywords, path sequences, shell keywords, HTML comments, unsafe schemes, links.
- InputSanitizer.SanitizeUserInput: the character class of the result is stated only when normalization leaves ASCII text unchanged. NFKC is not modelled, so the statement is conditional.
- String lengths count characters, not UTF-16 code units. Surrogate pairs are not distinguished.
- Case handling (`toUpperCase`, `(?i)`, `equalsIgnoreCase`) is ASCII only. Upper-casing a non-ASCII initial is not modelled, and a null input to `capitalizeFirstLetter` cannot arise because the names are strings.
- InputSanitizer.UserInputHasSanitizer: the sanitizer name is checked for one concrete source only. `SanitizerNameOf` states the rule for every name. Checking the other literal names (`commandLineArgs`, `emailInput`, `apiResponse`, `uploadFile`) the same way is left out, because the literal string equalities are too costly for the verifier.
- The command-line character class in `IS` line 163 reads `'-_` as the range from `'` to `_`, which admits characters such as `<`, `=` and upper-case letters. The model keeps the range as written. Shell symbols were already removed by the preceding step.

## Findings

| source | as written | input that shows it | evidently intended | confidence | as-written member | corrected member |
|---|---|---|---|---|---|---|
| taint_analysis_project/src/main/java/taintanalysis/config/ConfigLoader.java:67-69 | the filter tests the `trusted` field of the first source (`findValue`) for every name, so the list holds every source name or none | sources `[trustedApi (trusted), userInput (untrusted)]`: the list is empty, so `userInput` gets no sanitizer | list the names of the sources whose own `trusted` flag is false | not executed | ConfigLoader.UntrustedSourcesAsWritten, ConfigLoader.UntrustedSourceMissed, MethodCallVisitor.AsWrittenTableSanitizesNothing | ConfigLoader.UntrustedSources, ConfigLoader.UntrustedSourcesAgreeWhenUniform, MethodCallVisitor.UntrustedMatchAlwaysSanitized |
