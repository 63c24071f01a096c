# efind, modelled in Dafny

efind is a file-search tool built around find(1). The user writes a boolean
filter expression over file attributes ("size > 1M and name = '*.c'"), which
efind translates into find(1) arguments. Extension functions, written in C
or Python and loaded at run time, take part in a second evaluation step.
Matching paths can be printed with a printf-like format, sorted by
attributes, limited or skipped. Options come from the command line and from
an INI file.

This project models the core of that program and proves properties of the
model. Each module follows one source file.

- `Ast` (ast.c): the AST node types and the words for properties,
  operators, units, intervals and file types.
- `Translate` and `TranslateFacts` (translate.c): an expression tree becomes
  find(1) arguments. This covers unit conversion, the operator/property
  compatibility tests, parenthesising and the first error reported.
- `Eval` and `EvalFacts` (eval.c): the second pass, which calls extension
  functions through the first module that exports them and compares the
  results. It covers short-circuit AND/OR and the fixed-size argument stack.
- `Extension` (extension.c): the callback registry, signature tests and
  argument slots. The dynamic-library and CPython backends are a function
  parameter.
- `CTest` (test/extensions/c-test.c): a registry fixture.
- `Buffers` (buffer.c), `Utils` (utils.c), `Words` and `Decimal`:
  - the byte buffer with power-of-two growth;
  - `utils_next_pow2` on 64-bit words;
  - integer widths and decimal text.
- The printf-like format, from field names to output:
  - `FormatFields` (format-fields.c): field names;
  - `FormatLexer` (format-lexer.c): tokens;
  - `FormatParser` (format-parser.c): nodes;
  - `Format` (format.c): the written output.
- `FileInfo` (fileinfo.c): file attributes as strings and integers, taken
  from a stat record given as input.
- `FileList` (filelist.c) and `Processor` / `ProcessorFacts` (processor.c,
  sort.c, and the limit, skip and print processors): the output pipeline.
  It covers the `--order-by` keys, the multi-key comparison and the
  processor chain.
- `Fs` (fs.c): the mount-point table, searched longest prefix first.
- The options:
  - `ExecArgs` (exec-args.c): the argument list of an `--exec`;
  - `Options` (efind.h): the options structure;
  - `OptionsGetopt` (options_getopt.c): the command line;
  - `OptionsIni` (options_ini.c): the INI file handler;
  - `Log` (log.c): the verbosity filter.
- `Taglib`, `CExample` and `PyExample` (examples/): the regex escaping of
  the TagLib extension and the file-extension checks of the C and Python
  example extensions.

Where the source mutates structures in place, the model has classes with
`modifies` frames. Each such method is proved equal to a specification
function on values, and the properties are lemmas about those functions.
Pure code is modelled as functions and lemmas. Integer widths (int32, int64,
size_t) are written out where the source depends on them.

## Model

| member | source | states |
|---|---|---|
| Ast.StrToInterval | ast.c:8-30 | the interval is minutes, hours or days exactly when the word starts with 'm', 'h' or 'd'; any other word is undefined |
| Ast.StrToPropertyId | ast.c:32-87 | the result is undefined exactly when the word is no property name; otherwise it is the property the name table pairs with that word |
| Ast.StrToOperator | ast.c:89-93 | AND exactly for "and"; every other word is OR |
| Ast.StrToUnit | ast.c:95-121 | the unit is bytes, KB, MB or GB exactly when the first character is 'b', 'k', 'M'/'m' or 'G'/'g' ('K' is no unit) |
| Ast.StrToType | ast.c:123-161 | the file type is undefined exactly when the first letter is none of f d b c p s l, and each of those letters gives its find(1) type |
| Ast.NewStr | ast.c:177-186 | a value node of string type holding the string |
| Ast.NewInt | ast.c:188-197 | a value node of numeric type holding the integer |
| Ast.NewType | ast.c:199-208 | a value node of file-type type holding the type |
| Ast.NewIntPair | ast.c:210-220 | a time or size value node with the amount, and the interval or unit whose code is the second integer (undefined for an unknown code) |
| Ast.NewCond | ast.c:222-232 | a condition node with the given property, comparison and value |
| Ast.NewExpr | ast.c:234-244 | an expression node with the given operands and operator |
| Ast.UnitWords | ast.c:95-121 | every unit word of the command line maps to the unit it spells |
| Ast.IntervalWords | ast.c:8-30 | "minutes", "hours" and "days" map to their intervals; NULL and a capitalised word are undefined |
| Buffers.GrowthFits | buffer.c:87-109 | an accepted grown capacity is a power of two, holds the old capacity plus the data, and is less than twice that |
| Buffers.FillAcceptsIff | buffer.c:87-107 | a fill is accepted exactly when the data fits the free room, or the capacity plus the data is at most MAX_BUFFER_SIZE |
| Buffers.RefusesDataThatWouldFit | buffer.c:87-99 | with capacity 2048 and 2000 bytes in use, a fill of 2049 bytes is refused although 4049 bytes would fit in MAX_BUFFER_SIZE |
| Buffers.Buffer.constructor | buffer.c:34-42 | a valid, empty buffer with capacity 64 |
| Buffers.Buffer.Clear | buffer.c:52-58 | a valid buffer forgets its bytes and keeps its capacity; an invalid one is unchanged |
| Buffers.Buffer.Len | buffer.c:60-66 | the number of bytes in use, 0 for an invalid buffer |
| Buffers.Buffer.IsEmpty | buffer.c:74-80 | true exactly when the buffer is valid and holds no bytes |
| Buffers.Buffer.Grow | buffer.c:109-110 | the bytes in use are kept in a fresh array of the new capacity |
| Buffers.Buffer.Fill | buffer.c:82-121 | the result is true exactly when the buffer was valid and the fill is accepted; the contents are then the old ones plus the data, and a refused fill invalidates the buffer |
| Buffers.Buffer.Reserve | buffer.c:87-111 | the capacity test and resize keep the bytes in use and succeed exactly when the fill is accepted |
| Buffers.Buffer.Append | buffer.c:113-118 | the contents become the old contents plus the data |
| Buffers.Buffer.FillFromRead | buffer.c:123-140 | a positive read count is appended and returned, or 0 is returned if the buffer refuses it; a count of zero or less changes nothing; an invalid buffer gives 0 |
| Buffers.Buffer.ReadLine | buffer.c:155-178 | succeeds exactly when the buffer is valid and holds a newline; the line before the first newline is returned, and it and the newline are removed |
| Buffers.Buffer.FindNewline | buffer.c:162-163 | the position found is that of the first newline among the buffered bytes, and the length exactly when there is none |
| Buffers.Buffer.ShiftDown | buffer.c:170-172 | the buffered bytes afterwards are those from the given position on; the storage and its size stay |
| Buffers.Buffer.Flush | buffer.c:180-193 | true exactly when the buffer is valid and not empty, and then a copy of its bytes is returned |
| Buffers.Buffer.ToString | buffer.c:195-211 | NULL when invalid or empty, otherwise a copy of the bytes in use |
| Utils.Dec | utils.c:43 | `n -= 1` on a size_t keeps the word width; DecValue gives its value |
| Utils.DecValue | utils.c:43 | subtracting one takes 0 around to 2^64 - 1 and otherwise lowers the value by one |
| Utils.IncValue | utils.c:54 | adding one takes 2^64 - 1 around to 0 and otherwise raises the value by one |
| Utils.Shr | utils.c:45-51 | bit i of n >> k is bit i + k of n, or clear past the top |
| Utils.Or | utils.c:45-51 | bit i of a \| b is set exactly when it is set in a or in b |
| Utils.SmearCovers | utils.c:45-51 | after the six shift-or lines, bit i is set exactly when some bit at or above i was set |
| Utils.SmearTop | utils.c:45-51 | on a non-zero word whose highest set bit is h, the cascade sets exactly bits 0..h |
| Utils.NextPow2 | utils.c:40-55 | the result is a 64-bit word; NextPow2Value and the lemmas after it give its value |
| Utils.NextPow2Value | utils.c:40-55 | when n - 1 is 0 or has its highest bit at k - 1, the result is 2^k, with k at most 63 |
| Utils.NextPow2Bounds | utils.c:40-55 | for 1 <= n <= 2^63 the result is a power of two r with n <= r < 2n |
| Utils.NextPow2Least | utils.c:40-55 | for 1 <= n <= 2^63 the result is at most every power of two that is at least n |
| Utils.NextPow2OfPow2 | utils.c:40-55 | a power of two up to 2^63 is returned unchanged |
| Utils.NextPow2OfZero | utils.c:43-54 | n = 0 wraps around and gives 0 |
| Utils.NextPow2Wraps | utils.c:43-54 | every n above 2^63 gives 0, since no 64-bit power of two is that large |
| Utils.NextPow2NatBounds | utils.c:40-55 | on values: for 1 <= n <= 2^63 the result is the least power of two at least n, and is below 2n |
| Utils.NextPow2NatWraps | utils.c:40-55 | on values: 0 and every n above 2^63 give 0 |
| Translate.PropertyToStr | translate.c:163-219 | NULL exactly for the undefined property; every name given reads back, through ast_str_to_property_id, as the same property |
| Translate.PropertyToArg | translate.c:222-278 | the find test for a property: "-" and the property name, and for time properties "-" and its first letter followed by "time" for days and "min" otherwise |
| Translate.CheckProperty | translate.c:349-373 | no error exactly when the property supports the value kind and the operator is '=' or the property has numeric operators; otherwise the "cannot compare" or "invalid operator" error naming the property |
| Translate.CheckPropertyAsWritten | translate.c:349-373 | the same errors in the same cases, but the "invalid operator" message shows the value-type word (see Findings) |
| Translate.NumericCondArgs | translate.c:378-432 | no arguments exactly for an unsupported operator; '<=' and '>=' give seven arguments (a parenthesised or of two tests), the others two |
| Translate.HoursToMinutes | translate.c:441-453 | the hours value times 60, refused exactly when the product leaves the int32 range |
| Translate.ConvertSize | translate.c:469-509 | the byte count and the overflow flag are those of the 64-bit scaling by 1024 per loop, and the count stays below 2^64 |
| Translate.StringArg | translate.c:571-593 | a quoted value is the value in double quotes and an unquoted one the value itself when it fits the 512-byte buffer; the argument never exceeds that buffer |
| Translate.Wrapped | translate.c:611-669 | an operand keeps its errors and success, and gains "(" when it is opened and ")" when it is opened and succeeded |
| Translate.FirstError | translate.c:126-156 | an existing error is kept; otherwise the first of the reported errors, or none |
| Translate.FirstErrorConcat | translate.c:126-156 | reporting two batches of errors in turn keeps the same error as reporting them together |
| Translate.DoubleWraps | translate.c:76-84 | doubling a power of two up to 2^63 in a 64-bit size_t wraps exactly at 2^63 |
| Translate.TranslationCtx.constructor | translate.c:56-67 | capacity 8, no arguments, no error, the quote setting given |
| Translate.TranslationCtx.AppendArg | translate.c:70-99 | the argument is appended unless 2^63 arguments are already held; a full array doubles its capacity |
| Translate.TranslationCtx.AppendArgs | translate.c:101-123 | the arguments are appended in order until an append fails, and the result says whether all of them were appended |
| Translate.TranslationCtx.SetError | translate.c:126-156 | a message is recorded only when none is set yet; nothing else changes |
| Translate.TranslationCtx.Emit | translate.c:70-156 | the arguments and errors a translation step describes are appended and recorded |
| Translate.TranslationCtx.AppendNumericCondArg | translate.c:378-432 | the context grows by the numeric test's arguments and error, as NumericCondArgs describes |
| Translate.TranslationCtx.AppendTimeCond | translate.c:434-462 | the context grows by the time test, with hours converted to minutes and an out-of-range product reported as an error (the corrected check) |
| Translate.TranslationCtx.AppendSizeCond | translate.c:464-517 | the context grows by a byte-exact "-size Nc" test and the overflow error of the scaling, if any |
| Translate.TranslationCtx.ProcessCondition | translate.c:671-733 | the context grows by the translation of the condition node |
| Translate.TranslationCtx.AppendCheckedCondition | translate.c:683-723 | once the property accepts the value's type, the context grows by the condition's translation |
| Translate.TranslationCtx.ProcessOperand | translate.c:611-669 | the context grows by one operand, parenthesised as Wrapped says |
| Translate.TranslationCtx.ProcessExpression | translate.c:611-669 | the context grows by the translation of the expression node |
| Translate.TranslationCtx.ProcessJoinedOperand | translate.c:611-669 | after a successful first operand: the join argument, then the second operand |
| Translate.TranslationCtx.ProcessNode | translate.c:744-771 | the context grows by the translation of any node; an unsupported node is an error |
| Translate.Translate | translate.c:784-804 | the argument vector, success flag and first error of translating a tree are those of TranslateNode |
| TranslateFacts.NumberWithSign | translate.c:400-423 | the printed number with its sign prefix and unit suffix reads back as the find test intended for the value |
| TranslateFacts.NumericCondMeaning | translate.c:378-432 | the arguments emitted for a non-negative value, read as find reads them, hold exactly when the attribute compares to the value as the operator says |
| TranslateFacts.SizeCondMeaning | translate.c:464-517 | a non-negative size in bytes, K, M or G becomes "-size Nc" with N = val * 1024^k, and no overflow is reported |
| TranslateFacts.NegativeSizeReportsButEmits | translate.c:500-513 | a negative size in K, M or G reports the overflow, yet the test is still emitted with the negative number and translation succeeds |
| TranslateFacts.HoursBecomeMinutes | translate.c:441-458 | hours are emitted as a -Xmin test on the minutes when the product fits in an int32 |
| TranslateFacts.HoursCheckAsWrittenNeverFires | translate.c:443-445 | as written, the range check never fires, because the product has already wrapped to an int |
| TranslateFacts.HoursOverflowExample | translate.c:443-445 | 40000000 hours: as written -1894967296 minutes are emitted; the corrected check refuses the value |
| TranslateFacts.InvalidOperatorMessageExample | translate.c:367 | for "gid > 5" the message as written names "numeric"; the corrected one names "gid" |
| TranslateFacts.FailureLeavesError | translate.c:611-771 | a translation that fails always leaves an error message |
| TranslateFacts.OrBelowAndIsParenthesised | translate.c:600-669 | an OR operand of an AND is enclosed in parentheses when it succeeds |
| TranslateFacts.OrJoinsPlainly | translate.c:611-669 | under OR the operands are joined by "-o" without parentheses, and the errors are those of the operands |
| Extension.MapFileExtension | extension.c:51-76 | a shared library exactly for a name longer than three characters ending in ".so"; a Python module exactly for such a name ending in ".py" when Python support is built in; undefined otherwise and for NULL |
| Extension.ModuleFileNames | extension.c:51-76 | "c-test.so" is a shared library, ".so" is too short, "ext.py" is Python only with Python support, and NULL is undefined |
| Extension.DecodeTypes | extension.c:202-243 | the declared codes decode exactly when each is INTEGER or STRING, into as many types, each INTEGER exactly where the code was |
| Extension.DecodeTypesSnoc | extension.c:202-243 | decoding one more code appends its type |
| Extension.ModuleCallbacks.constructor | extension.c:153-177 | a new module has no callbacks |
| Extension.ModuleCallbacks.FunctionDiscovered | extension.c:202-243 | the callback is recorded, replacing one of the same name, exactly when every declared type is INTEGER or STRING |
| Extension.FirstProvider | extension.c:303-329 | the first module in iteration order whose table holds the name; no earlier module holds it; none exactly when no module holds it |
| Extension.FindCallback | extension.c:303-329 | the walk over the modules stops at FirstProvider |
| Extension.FirstProviderUnique | extension.c:303-329 | any index meeting the first-provider conditions is the one FirstProvider returns |
| Extension.CallbackStatus | extension.c:448-481 | NOT_FOUND exactly when the name is NULL or no module exports it; OK exactly when the count and every type match the first exporter's signature; INVALID_SIGNATURE otherwise |
| Extension.TestCallback | extension.c:448-481 | comparing the count and then the types one by one gives CallbackStatus |
| Extension.Invoke | extension.c:483-510 | only the count is checked; OK exactly when the backend returns a result; INVALID_SIGNATURE exactly when an exporter exists and the count differs; NOT_FOUND when no module exports the name |
| Extension.TestedCallReachesBackend | extension.c:448-510 | a call whose signature test passed reaches the backend of the first exporter, and its result is the backend's |
| Extension.JoinTypesSnoc | extension.c:551-565 | appending a type to a non-empty list adds ", " and its word |
| Extension.SignatureLine | extension.c:512-573 | the export line of a callback is a tab, the name and the type words in parentheses, separated by ", " |
| Extension.CallbackArgs.constructor | extension.c:575-594 | argc slots, all empty and of undefined type |
| Extension.CallbackArgs.SetInteger | extension.c:617-631 | the slot holds the value and is typed INTEGER; nothing else changes |
| Extension.CallbackArgs.SetString | extension.c:633-650 | the slot holds a copy of the string, or is empty for NULL, and is typed STRING either way; nothing else changes |
| CTest.CTestCallbacks | test/extensions/c-test.c:11-17 | discover registers c_name_equals(string), c_add(integer, integer) and c_sub(integer, integer) |
| CTest.CTestSignatures | test/testsuite.py:631-633 | the export lists the signatures as "string" and "integer, integer" |
| CTest.NameEquals | test/extensions/c-test.c:19-23 | 1 exactly when the file name equals the argument, 0 otherwise |
| CTest.Add | test/extensions/c-test.c:25-32 | the sum, wrapped to a C int |
| CTest.Sub | test/extensions/c-test.c:34-41 | the difference, wrapped to a C int |
| CTest.ArithmeticCall | test/extensions/c-test.c:25-41 | calling c_add or c_sub on two literals through the registry yields the sum or the difference |
| CTest.AddExample | test/testsuite.py:732 | c_add(-523, 58212)=57689 evaluates to true |
| CTest.AndExample | test/testsuite.py:735 | c_add(913, 37) >= 950 and c_sub(-17, 987) > -1005 evaluates to true |
| CTest.CallsOnBothSides | test/testsuite.py:738 | c_add(23750235, 523597) = c_sub(24517089, 243257) evaluates to true |
| CTest.WrongArityAborts | test/testsuite.py:749 | c_add(1, 2, 3) > ... aborts the evaluation |
| CTest.UnknownFunctionAborts | eval.c:67-169 | a call of a name no module exports aborts the evaluation |
| Eval.ValueSlot | eval.c:42-65 | a numeric value becomes an integer argument and a string value a string argument; any other value fails |
| Eval.Types | eval.c:107-125 | the argument types are those of the filled slots, one by one |
| Eval.FuncArgs | eval.c:82-140 | the argument loop fills the slots and succeeds exactly as CollectArgs describes with the FN_STACK_SIZE bound (the corrected walk), and the slots are typed as they were filled |
| Eval.SetSlot | eval.c:107-125 | one slot is filled through set_integer or set_string, extending the typed prefix of the argument vector |
| Eval.EvalNode | eval.c:293-320 | a NULL node is FALSE, and only expressions and comparisons give anything other than ABORTED |
| Eval.EvalExpression | eval.c:171-204 | AND is TRUE exactly when both operands are, OR is FALSE exactly when both operands are, and any other operator aborts |
| Eval.GetInt | eval.c:206-238 | only a call or a numeric literal reads as an integer, and a numeric literal reads as its value |
| Eval.CompareInts | eval.c:258-284 | ABORTED exactly for an undefined operator; for equal integers TRUE exactly for =, <= and >=; for a < b exactly for < and <=; for a > b exactly for > and >= |
| Eval.EvalCompare | eval.c:240-291 | a comparison whose left side does not read as an integer aborts, and so does an undefined operator |
| Eval.CollectArgs | eval.c:82-140 | a successful walk keeps the slots already filled and adds at least one for a non-empty chain, each holding an integer or a string |
| Eval.CollectArgsAsWritten | eval.c:82-140 | the walk as written, without the FN_STACK_SIZE bound: where the bounded walk succeeds it gives the same slots, and where it fills at most 32 slots the bounded walk gives the same |
| Eval.BoundOnlyFails | eval.c:135-138 | the bound only turns walks into failures: a bounded walk that succeeds equals the unbounded one, and an unbounded one that fits equals the bounded one |
| Eval.FuncCall | eval.c:67-169 | a call has a value only if its arguments were collected under the bound and some module exports its name |
| Eval.Evaluate | eval.c:322-339 | a non-NULL root gives ABORTED unless it is an expression or a comparison |
| EvalFacts.AndMeaning | eval.c:180-188 | AND is TRUE exactly when both operands are; a first result other than TRUE is the result |
| EvalFacts.OrMeaning | eval.c:189-197 | OR is FALSE exactly when both operands are; a first result other than FALSE is the result |
| EvalFacts.ShortCircuit | eval.c:180-197 | the second operand does not matter once the first decides |
| EvalFacts.AbortPropagates | eval.c:171-204 | an aborted first operand aborts AND and OR, and a comma expression always aborts |
| EvalFacts.Associative | eval.c:171-204 | three-valued AND and OR are associative, so grouping does not change the result |
| EvalFacts.CompareMeaning | eval.c:240-291 | for two readable integers the comparison is TRUE exactly when their order is one the operator admits; an undefined operator aborts |
| EvalFacts.CompareWithTrue | eval.c:252-255 | '=' against TRUE is TRUE exactly when the left integer is non-zero |
| EvalFacts.StringOperandAborts | eval.c:206-238 | a string literal as an operand of a comparison aborts it |
| EvalFacts.OtherNodes | eval.c:293-320 | a NULL node is FALSE, and nodes that are neither expressions nor comparisons abort |
| EvalFacts.CallNeedsSignature | eval.c:143-161 | a call has a value only if its arguments were collected and its signature tested OK against the first module exporting the name |
| EvalFacts.ChainArgs | eval.c:88-128 | literal arguments chained by commas fill the slots in order, while they fit under the bound |
| EvalFacts.ArgsFit | eval.c:135-138 | the bounded walk never fills more than FN_STACK_SIZE slots |
| EvalFacts.StackOverflowAsWritten | eval.c:135-138 | with 33 literal arguments the walk as written fills a 33rd slot past the 32 allocated; the bounded walk fails the call instead |
| EvalFacts.BoundedChainFails | eval.c:135-138 | a chain with more literals than the slots left fails under the bound |
| Fs.Truncate | fs.c:75-79 | strncpy into n characters with the last set to NUL keeps a prefix of at most n - 1 characters, and the whole string when it is shorter than n |
| Fs.ProperPrefixLess | fs.c:33-40 | under strcmp a proper prefix sorts first |
| Fs.StrLessTotal | fs.c:33-40 | strcmp order is total: two different paths are ordered one way or the other |
| Fs.StrLessTrans | fs.c:33-40 | strcmp order is transitive |
| Fs.InsertDescending | fs.c:87-91 | inserting a mount adds exactly that mount |
| Fs.SortDescending | fs.c:87-91 | the sorted mounts are a permutation of the mounts read |
| Fs.SortIsDescending | fs.c:33-40 | the sorted mounts are in descending path order, the order the comparator asks qsort for |
| Fs.InsertKeepsDescending | fs.c:33-40 | inserting into a descending list keeps it descending |
| Fs.GrownSizeBounds | fs.c:53-71 | the array always has room for one more entry, and once grown is at most twice the entry count |
| Fs.FirstMatch | fs.c:126-137 | the index found, if any, is within the mount list |
| Fs.FirstMatchIsFirst | fs.c:126-137 | the loop finds the first mount whose path is a prefix of the resolved path, and finds none only when there is none |
| Fs.FirstMatchIsLongest | fs.c:87-137 | in descending order the first prefix found is the longest mount path that is a prefix |
| Fs.LoadedMapFindsLongest | fs.c:42-145 | on a loaded map the file system reported for a path is that of the longest mount path that is a prefix of it |
| Fs.PrefixIgnoresSeparators | fs.c:130-134 | the prefix need not end at a '/': with "/home" mounted, "/homework/a" is reported on the "/home" file system |
| Fs.FSMap.constructor | fs.c:52-55 | room for 32 mounts, none held |
| Fs.FSMap.Append | fs.c:61-81 | one mount is appended, the array doubling first when all but one slot is used |
| Fs.FSMap.Sort | fs.c:87-91 | the mounts are put in descending path order |
| Fs.FSMap.Load | fs.c:42-99 | no map exactly when the mount table cannot be opened; otherwise the table's mounts, sorted descending, in an array of the grown size |
| Fs.FSMap.AddAll | fs.c:52-83 | a fresh map of the grown size whose mount points are the table's entries in order |
| Fs.FSMap.MapPath | fs.c:116-145 | the file system reported for a resolved path is the one PathFs gives, "Unknown" when realpath fails or no mount matches |
| FileInfo.Get | fileinfo.c:136-154 | succeeds exactly when the stat call succeeds and both names fit in PATH_MAX, and then holds the names and the stat record |
| FileInfo.LastSlash | fileinfo.c:45 | strrchr: the index of a '/' with none after it, and none exactly when the path has no '/' |
| FileInfo.DirnameBasenameSplit | fileinfo.c:35-62 | the dirname, a '/' and a basename free of '/' make the path again; without a '/' the dirname is "." and the basename the whole path |
| FileInfo.SymbolicMode | fileinfo.c:84-112 | the corrected permission string: nine characters, each the one its mode bits call for, with the setuid letter in the owner's execute position |
| FileInfo.TablePermissionsAreSymbolic | fileinfo.c:87-109 | the table lookups with the special chars written over them spell the symbolic mode once the setuid char goes to index 2 |
| FileInfo.RwxEntry | fileinfo.c:87 | table entry t shows r, w and x exactly where t has the bits 4, 2 and 1 |
| FileInfo.SetUidLandsOnGroupRead | fileinfo.c:96-98 | for mode 4755 the code as written gives "rwxs-xr-x"; the corrected string is "rwsr-xr-x" |
| FileInfo.CopyTriple | fileinfo.c:92-94 | strcpy of a table entry writes its three characters and a NUL at the given position and nothing else |
| FileInfo.Permissions | fileinfo.c:84-112 | the character buffer filled by the copies and special-bit writes holds SymbolicMode |
| FileInfo.PlainModeIsOctalDigits | fileinfo.c:92-94 | without special bits the string is the table entries of the three octal digits |
| FileInfo.GetString | fileinfo.c:322-331 | the string exactly when the attribute holds one, NULL otherwise |
| FileInfo.GetInteger | fileinfo.c:333-342 | the integer when the attribute holds one, 0 otherwise |
| FileInfo.GetTime | fileinfo.c:344-353 | the corrected getter: the full time value when the attribute holds one, 0 otherwise |
| FileInfo.TimeTruncatedTo32Bits | fileinfo.c:344-353 | a time of 2^31 seconds (January 2038) comes back as -2^31 from the getter as written, and unchanged from the corrected one |
| FileInfo.GetAttrKinds | fileinfo.c:156-311 | an unknown field character fails, 'S' of an empty file is undefined, and each known field yields a value of the kind it promises |
| FileInfo.GetAttr | fileinfo.c:156-311 | no such field exactly for a char outside the field table, and undefined exactly for 'S' of an empty file |
| FileInfo.ModeFieldsAgree | fileinfo.c:296-305 | without special bits, 'm' is a permission value below 512 and 'M' spells its three octal digits |
| FileInfo.RelativePath | fileinfo.c:172-176 | 'P' of a file found under an argument is its path relative to that argument |
| FileInfo.DirectoryAndName | fileinfo.c:167-186 | 'h', a '/', and 'f' make up the path of a file whose path holds a '/' |
| FileInfo.SizeFields | fileinfo.c:253-267 | for a file below 2 GiB, 's' is the size and 'k' the size in whole kilobytes |
| FileList.SortStringTest | filelist.c:35-77 | the result is the number of fields the string names (capped at INT_MAX), -1 when it holds anything but spaces and optionally '-'-prefixed sortable field characters, and 0 for NULL |
| FileList.CountField | filelist.c:49-73 | one optionally '-'-prefixed field char is passed over: a bad char or a missing one makes the whole string invalid, a good one accounts for exactly one sort key |
| FileList.SortStringPop | filelist.c:79-132 | skipping spaces and reading the direction and the field gives Popped: the field, its direction, and the rest after the following spaces, or NULL at the end |
| FileList.SkipSpacesFrom | filelist.c:93-97 | the space-skipping loop stops at the first non-space at or after the position |
| FileList.PopFollowsKeys | filelist.c:79-132 | popping a valid sort string yields its first field and direction; the rest names the remaining fields, and is NULL exactly with the last field |
| FileList.OrderOf | filelist.c:155-188 | the field count lies between 0 and the number of fields, and a valid string has all its fields read |
| FileList.ParseOrderBy | filelist.c:155-188 | testing the string and then popping its fields one by one yields OrderOf: the fields and directions of a valid string in order, none for NULL or an invalid string |
| FileList.PopFields | filelist.c:169-181 | popping a valid string field by field yields its fields and directions in order |
| FileList.FileList.constructor | filelist.c:134-189 | no entries, capacity 512, the argument kept, and the sort settings of OrderOf |
| FileList.FileList.Append | filelist.c:258-300 | the array doubles when full; the entry is added exactly when the file's details can be read; the sort settings are unchanged |
| FileList.CompareEntries | filelist.c:302-350 | the loop over the sort fields gives Compared on the first n fields |
| FileList.FirstUnequalFieldDecides | filelist.c:313-347 | the comparison is 0 exactly when every field compares equal; otherwise the first unequal field decides, negated for a descending field |
| FileList.ComparedAntisymmetric | filelist.c:302-350 | with an antisymmetric attribute comparison, swapping the two entries negates the result |
| FileList.FlippedReverses | filelist.c:340-343 | turning every field's direction around reverses the order |
| FileList.SortBy | filelist.c:352-360 | the sorted entries are a permutation of the entries |
| FileList.SortByOrdered | filelist.c:352-360 | with an antisymmetric attribute comparison, no sorted entry compares greater than the one after it |
| FileList.InsertOrdered | filelist.c:352-360 | inserting into an ordered list keeps it ordered |
| FileList.FileList.Sort | filelist.c:352-360 | the entries are put in the order SortBy gives |
| FormatFields.NamesDistinct | format-fields.c:34-42 | the long field names of the table are pairwise distinct |
| FormatFields.FieldNameChars | format-fields.c:34-42 | every long field name is spelled with lower-case letters and '-' |
| FormatFields.MapFieldName | format-fields.c:88-105 | the char paired with the name, and '\0' exactly when the name is not in the table |
| FormatFields.MapFieldNameOfTable | format-fields.c:88-105 | every table name maps to its own char |
| FormatFields.MapFieldNameUnknown | format-fields.c:88-105 | an unknown or empty name maps to '\0' |
| FormatFields.BracedPrefixFree | format-fields.c:62-79 | at most one "{name}" of the table can start a given string |
| FormatFields.MatchFrom | format-fields.c:62-79 | the first table entry, from the given index on, whose "{name}" starts the string, or none |
| FormatFields.SubstituteShrinks | format-fields.c:44-86 | the rewrite never lengthens the string, leaves it unchanged exactly when no "{name}" occurs, and shortens it otherwise |
| FormatFields.SubstituteField | format-fields.c:62-79 | a "{name}" at the front becomes its char and the pass continues after it |
| FormatFields.SinglePass | format-fields.c:44-86 | what a replacement writes is not rescanned: "{{kb}b}" becomes "{kb}" |
| FormatFields.ReplaceAt | format-fields.c:62-79 | at one position, the entry whose "{name}" starts there is overwritten by its char with the rest moved down; otherwise nothing changes |
| FormatFields.FormatSubstitute | format-fields.c:44-86 | the walk over the copied string yields Substitute of the input |
| Format.PaddedShape | format.c:28-64 | the padded string is width long when the text is shorter, holds the text on its aligned side and spaces elsewhere |
| Format.WriteString | format.c:28-64 | the buffer of width spaces with the text copied to its aligned end is Padded, aligned left with FLAG_MINUS |
| Format.WidthDropsConversion | format.c:102-109 | with a width, the format as written ends in 'd' whatever conversion was asked for; the corrected one keeps it |
| Format.BuildIntegerFormat | format.c:66-113 | the format string built flag by flag is IntegerFormat |
| Format.IntegerFormatReadsBack | format.c:66-113 | printf reads back from the built format the node's five flags, its width and the conversion asked for |
| Format.SpecReads | format.c:66-113 | a format of flag chars, digits and a conversion char reads back as those three |
| Format.InterleavedInjective | format.c:134-138 | the expansion with a '%' before each char determines the date format |
| Format.ExpandDateFormat | format.c:120-153 | the expansion exists exactly when the format has fewer than 32 chars, and is then the interleaving |
| Format.DateOutput | format.c:116-153 | ctime's line exactly for an empty format, the too-long message exactly for formats of 32 chars or more, otherwise strftime of the format with a '%' before each char, for the same time |
| Format.WrittenBounds | format.c:163-233 | each node writes at most one piece, and a fault is only ever the last one |
| Format.NodeOutput | format.c:184-226 | at most one piece; nothing exactly for a field the file info does not know, and a fault exactly for 'S' of an empty file |
| Format.FormatWritten | format.c:163-233 | nothing without a stat record; at most one piece per node, and a fault only as the last piece |
| Format.PlainFormatWritesItself | format.c:184-187 | a format without fields writes itself |
| Format.UnknownFieldWritesNothing | format.c:188-221 | a field the file info does not know writes nothing |
| Format.ModeWithWidthIsOctal | format.c:102-109 | the corrected format of the Findings row for format.c:102-109: "%5m" prints the permission bits with "%5o", in octal; the code as written uses "%5d" (Format.WidthDropsConversion) |
| Format.DateFieldExpands | format.c:209-212 | "%TY" prints the modification time with the strftime format "%Y" |
| Format.NameWithWidth | format.c:194-197 | "%8f" prints the file name right-aligned with spaces |
| Format.WriteNode | format.c:184-226 | one node, written with the methods that build the padded string and the formats, gives NodeOutput |
| Format.FormatWrite | format.c:163-233 | the loop over the nodes writes FormatWritten: nothing when the file info cannot be read |
| FormatLexer.EscapeLength | format-lexer.c:507-548 | a backslash escape spans 2 to 4 chars, never past the end, and none when no char follows the backslash |
| FormatLexer.StepProgress | format-lexer.c:584-637 | a step that continues keeps the lexer invariant and lowers a measure, so the scan loop ends |
| FormatLexer.Scanned | format-lexer.c:672-698 | the scan loop stops only on a step that does not continue |
| FormatLexer.Lex | format-lexer.c:672-698 | a format of FORMAT_TEXT_BUFFER_MAX chars or more is refused |
| FormatLexer.LexWellFormed | format-lexer.c:672-698 | the lexer only produces tokens of the shapes the parser relies on |
| FormatLexer.PlainTextLexes | format-lexer.c:550-576 | plain text is one string token, or none when empty |
| FormatLexer.TrailingPercentFails | format-lexer.c:433-468 | a '%' with nothing after it fails the scan |
| FormatLexer.TrailingBackslashFails | format-lexer.c:507-548 | a backslash with nothing after it fails the scan |
| FormatLexer.DoublePercentLexes | format-lexer.c:433-468 | "%%" is a string token holding one '%' |
| FormatLexer.FieldCharLexes | format-lexer.c:391-431 | "%a" for an attribute char is one attribute token, and for a date attribute char one date-attribute token |
| FormatLexer.FlagFieldLexes | format-lexer.c:391-431 | a flag char before the attribute char is a flag token |
| FormatLexer.WidthFieldLexes | format-lexer.c:207-254 | the digits of a width are one number token, and the field goes on with the attribute char |
| FormatLexer.PrecisionFieldLexes | format-lexer.c:190-254 | a width and precision "w.q" are one number token |
| FormatLexer.DanglingWidthLexes | format-lexer.c:228-254 | a width with no attribute char after it still ends the scan successfully |
| FormatLexer.DateFormatLexes | format-lexer.c:166-188 | the date and time chars after a date attribute are one date-format token |
| FormatLexer.FieldNameLexes | format-lexer.c:265-349 | "%{name}" for a name of the table lexes exactly as "%c" for its field char |
| FormatLexer.UnknownFieldNameFails | format-lexer.c:265-307 | "%{name}" for a name outside the table fails the scan, whatever follows |
| FormatLexer.HexEscapeLexes | format-lexer.c:470-505 | "\x41f" is an escape token and then a string token |
| FormatLexer.Lexer.constructor | format-lexer.c:639-670 | the lexer starts at the head of the format, in the string state, with no tokens |
| FormatLexer.Lexer.Pop | format-lexer.c:74-83 | the top state is removed |
| FormatLexer.Lexer.Push | format-lexer.c:85-94 | the state is pushed and the position moves by the offset |
| FormatLexer.Lexer.FoundToken | format-lexer.c:141-164 | a text token holds the chars from start to tail and is appended only when non-empty; a char token holds the char at tail |
| FormatLexer.Lexer.StepDateAttr | format-lexer.c:174-188 | the state after one date-attribute step is AfterDateAttr |
| FormatLexer.Lexer.ProcessPrecision | format-lexer.c:190-205 | the state after the precision digits is AfterPrecision |
| FormatLexer.Lexer.ProcessWidth | format-lexer.c:207-226 | the state after the width digits is AfterWidth |
| FormatLexer.Lexer.SubstituteCurrentFieldChar | format-lexer.c:265-307 | a known field name is replaced in the format by its char and the field-name state is popped; an unknown one fails and changes nothing |
| FormatLexer.Lexer.StepFieldName | format-lexer.c:325-349 | the state after one field-name step is AfterFieldName |
| FormatLexer.Lexer.StepField | format-lexer.c:391-431 | the state after one field step is AfterField |
| FormatLexer.Lexer.ProcessPercentInString | format-lexer.c:433-468 | the state after a '%' in text is AfterPercent |
| FormatLexer.Lexer.ProcessBackslashInString | format-lexer.c:507-548 | the state after a backslash in text is AfterBackslash |
| FormatLexer.Lexer.StepString | format-lexer.c:550-576 | the state after one text step is AfterString |
| FormatLexer.Lexer.Step | format-lexer.c:584-637 | one step dispatches on the top state and gives Stepped |
| FormatLexer.Lexer.Scan | format-lexer.c:672-698 | the scan loop over a lexer object yields Lex of the format |
| FormatParser.CString | format-parser.c:314-327 | the text a char buffer holds is its chars up to the first NUL |
| FormatParser.DecodeEscape | format-parser.c:328-398 | an escape of more than four chars appends nothing; shorter ones decode by the switch or by strtol over the token's own digits |
| FormatParser.DecodeEscapeAsWritten | format-parser.c:379-394 | the decoding as written, which reads on past the token into the following chars, also appends nothing exactly for escapes of more than four chars |
| FormatParser.DecodeReadsPastToken | format-parser.c:386-393 | "\x41" followed by "f" decodes as written to 0x1f instead of 'A' |
| FormatParser.OctalReadsPastToken | format-parser.c:386-393 | "\123" followed by "4" decodes as written to 0o1234 mod 256 instead of 'S' |
| FormatParser.AccumulateStops | format-parser.c:386-393 | strtol stops at the first char that is not a digit of the base, so the chars after it do not change the value |
| FormatParser.DecodeAgreesWithoutTrailingDigit | format-parser.c:379-394 | the decoding as written equals the corrected one whenever the chars after the token are empty or start with a char that is no digit of the base and, after "\x", no 'x' or 'X' |
| FormatParser.HexPrefixReadsPastToken | format-parser.c:386-393 | "\x0" followed by "x5" decodes as written to 5 instead of 0: the copied "0x5" reads as a hex prefix |
| FormatParser.HexEscapeValue | format-parser.c:379-394 | "\x" and two hex digits decode to the char of their value, 16 times the first digit plus the second |
| FormatParser.OctalEscapeValue | format-parser.c:379-394 | "\" and three octal digits decode to the char of their value, cut to a byte |
| FormatParser.FormatParsed | format-parser.c:602-631 | a failed scan or a failed parse gives no nodes |
| FormatParser.StepEmitsOne | format-parser.c:530-600 | a step emits at most one node, after the earlier ones, and leaves the cache reset after it |
| FormatParser.NodesOnlyGrow | format-parser.c:530-600 | the nodes of a parse extend the nodes found before |
| FormatParser.StepShaped | format-parser.c:530-600 | each step keeps the cache in the shape of its state, and emits only plain text nodes |
| FormatParser.ParsedTextNodesArePlain | format-parser.c:602-631 | every text node format_parse returns has no flags, width or precision |
| FormatParser.ParseNeedsLex | format-parser.c:602-631 | a successful parse had a successful scan |
| FormatParser.TextOverflowAborts | format-parser.c:316-326 | a text token that does not fit the buffer aborts the parse |
| FormatParser.FullBufferEscapeContinues | format-parser.c:400-406 | an escape that meets a full buffer is dropped and the parse goes on |
| FormatParser.WidthOfDigits | format-parser.c:227-241 | a number token "W" sets the width atoi("W"): W when it fits an int, otherwise W saturated at LONG_MAX and cut to 32 bits (IntOfDigitsValue); the precision is kept |
| FormatParser.WidthOfPrecision | format-parser.c:227-241 | a number token "W.P" sets the width atoi("W") and the precision atoi("P"), each cut to an int as IntOfDigitsValue says |
| FormatParser.WidthOfLongNumber | format-parser.c:210-242 | a number token of 128 chars or more sets nothing |
| FormatParser.IntOfDigitsValue | format-parser.c:231-237 | the int atoi gives a digit string: within the int range, the value itself when it fits an int, and congruent to it modulo 2^32 when it fits a long |
| FormatParser.Atoi | format-parser.c:231-237 | an int: 0 when no digit leads, and the value of the leading digits when it fits an int |
| FormatParser.AtoiWrapsLongWidth | format-parser.c:231-237 | atoi("99999999999") is 1215752191, the low 32 bits of the value |
| FormatParser.WithWidth | format-parser.c:210-242 | the width state is pushed and only the width and precision may change; a token of 128 chars or more changes neither; otherwise the width is atoi of the digits before the '.', and without a '.' the precision is kept |
| FormatParser.PlainTextParses | format-parser.c:602-631 | plain text parses to one text node, none for the empty string |
| FormatParser.DoublePercentParses | format-parser.c:306-327 | "%%" adds a '%' to the text node of the text before it |
| FormatParser.TrailingPercentParseFails | format-parser.c:602-631 | a '%' with nothing after it makes the parse fail with no nodes |
| FormatParser.FieldParses | format-parser.c:252-304 | a field char after text gives the text node and a bare field node |
| FormatParser.FieldNameParses | format-parser.c:602-631 | "%{name}" parses exactly like the field char the name maps to |
| FormatParser.FlagFieldParses | format-parser.c:416-481 | a flag before an attribute char sets that flag's bit on the field node |
| FormatParser.WidthFieldParses | format-parser.c:483-504 | "%Wc" gives the field node the width atoi("W"), cut to an int as IntOfDigitsValue says |
| FormatParser.PrecisionFieldParses | format-parser.c:483-504 | "%W.Pc" gives the field node the width atoi("W") and the precision atoi("P"), each cut to an int as IntOfDigitsValue says |
| FormatParser.DanglingWidthParses | format-parser.c:530-600 | a width with no attribute after it is dropped |
| FormatParser.DateFormatParses | format-parser.c:506-528 | a date attribute with a date format gives one field node holding the format |
| FormatParser.HexEscapeParses | format-parser.c:386-393 | the corrected decoding of the Findings row for format-parser.c:386-393: "\x41f" parses to the text "Af"; the code as written gives the char 0x1f and then "f" (FormatParser.DecodeReadsPastToken) |
| FormatParser.Parser.constructor | format-parser.c:63-76 | the context starts with no state, an empty cache and no nodes |
| FormatParser.Parser.ResetCache | format-parser.c:147-158 | the cached flags, width, precision, text and attribute are cleared |
| FormatParser.Parser.FoundAttribute | format-parser.c:160-172 | a field node built from the cache is appended and the cache cleared |
| FormatParser.Parser.FoundString | format-parser.c:174-179 | a text node built from the buffer is appended and the cache cleared |
| FormatParser.Parser.Pop | format-parser.c:181-196 | the top state is removed, with the node it was building emitted |
| FormatParser.Parser.BeginString | format-parser.c:198-208 | the text state is pushed and the token is handled again |
| FormatParser.Parser.BeginWidth | format-parser.c:210-242 | the width state is pushed and the width and precision are atoi of the token's parts, as WithWidth says |
| FormatParser.Parser.BeginFlags | format-parser.c:244-250 | the flag state is pushed and the token is handled again |
| FormatParser.Parser.BeginAttribute | format-parser.c:252-259 | a field node for the attribute is emitted |
| FormatParser.Parser.BeginDateAttribute | format-parser.c:261-271 | the date-attribute state is pushed with the attribute cached |
| FormatParser.Parser.StepNone | format-parser.c:273-304 | one step from the empty state is AfterNone |
| FormatParser.Parser.StepString | format-parser.c:306-414 | one step in the text state is AfterText, with the escape decoded as DecodeEscape |
| FormatParser.Parser.StepFlag | format-parser.c:416-481 | one step in the flag state is AfterFlag |
| FormatParser.Parser.StepWidth | format-parser.c:483-504 | one step in the width state is AfterWidth |
| FormatParser.Parser.StepDateAttribute | format-parser.c:506-528 | one step in the date-attribute state is AfterDate |
| FormatParser.Parser.Step | format-parser.c:530-600 | the switch on the top state gives Stepped |
| FormatParser.Parser.Parse | format-parser.c:530-600 | the loop over the tokens gives Parsed |
| FormatParser.Parser.FormatParse | format-parser.c:602-631 | scanning and parsing with the two objects gives FormatParsed |
| Processor.Fresh | range.c:109-127 | a new processor has no flags set and a zero count |
| Processor.ProcRead | processor.c:30-43 | the read hook runs exactly on a readable, open processor; a read leaves only a sort processor readable and shortens what is pending; otherwise nothing changes |
| Processor.ProcWrite | processor.c:45-55 | a closed processor is left as it is; a write closes only a limit processor of range 0; a sort processor stays quiet |
| Processor.ProcClose | processor.c:77-93 | a closed processor is left as it is; every kind but sort ends closed |
| Processor.StateResult | processor.c:108-126 | ERROR exactly when the error bit is set, COMPLETED exactly when closed without error |
| Processor.ChainWritten | processor.c:128-162 | the chain keeps its kinds and is quiet afterwards |
| Processor.Drained | processor.c:148-153 | the loop that reads the head and writes to the tail keeps the head's kind and the tail's kinds |
| Processor.ChainCompleted | processor.c:164-194 | the chain keeps its kinds, and the answer is never CONTINUE |
| Processor.Processor.constructor | range.c:109-127 | the new processor is Fresh for its kind |
| Processor.Processor.ReadHook | range.c:39-54 | the read hooks of the range, print and sort processors give HookRead |
| Processor.Processor.WriteHook | range.c:56-107 | the write hooks of the range, print and sort processors give HookWrite |
| Processor.Processor.CloseHook | sort.c:74-90 | the close hooks give HookClose: a sort processor sorts a non-empty list, every other kind closes |
| Processor.Processor.Read | processor.c:30-43 | processor_read on the object gives ProcRead |
| Processor.Processor.Write | processor.c:45-55 | processor_write on the object gives ProcWrite |
| Processor.Processor.Close | processor.c:77-93 | processor_close on the object gives ProcClose |
| Processor.LimitNew | range.c:109-133 | a fresh limit processor |
| Processor.SkipNew | range.c:135-139 | a fresh skip processor |
| Processor.PrintNew | print.c:72-84 | a fresh print processor |
| Processor.PrintFormatNew | print.c:137-165 | NULL exactly when the format does not parse; otherwise a fresh processor holding the parsed nodes |
| Processor.SortNew | sort.c:103-127 | NULL exactly when the sort string is invalid; otherwise a processor over an empty list with the string's fields |
| Processor.ChainWrite | processor.c:128-162 | the chain of objects afterwards and the lines written are ChainWritten |
| Processor.WriteThenDrain | processor.c:146-153 | writing the path to a head that answers CONTINUE and then draining it gives what ProcWrite and Drained give |
| Processor.DrainTurn | processor.c:150-152 | one turn of the loop reads a path from the head and writes it to the rest of the chain, as ProcRead and ChainWritten say |
| Processor.DrainedStop | processor.c:148-153 | the loop ends when the head is not readable or the result stops it |
| Processor.Drain | processor.c:148-153 | the while loop over processor objects gives Drained |
| Processor.ChainComplete | processor.c:164-194 | completing the chain of objects gives ChainCompleted |
| Processor.CloseThenDrain | processor.c:179-184 | closing the head and draining it in completing mode gives Drained of the closed head |
| Processor.Prepended | processor.c:234-249 | the builder has failed afterwards exactly when it had failed or no processor was given |
| Processor.Failed | processor.c:251-266 | the builder ends failed, and its chain is dropped |
| Processor.Builder.constructor | processor.c:206-213 | an empty chain and not failed |
| Processor.Builder.TryPrependProcessor | processor.c:234-249 | the processor goes to the front while the builder has not failed; the answer is whether it still has not failed |
| Processor.Builder.Fail | processor.c:251-266 | the builder state after Failed |
| Processor.Builder.Do | processor.c:215-232 | the steps run in order until the builder fails, as Built; a failed builder has an empty chain |
| ProcessorFacts.PrintWrite | print.c:49-62 | a print processor at the end of a chain prints the path and answers CONTINUE |
| ProcessorFacts.PrintEchoes | print.c:49-62 | a print processor on its own prints every path written to it |
| ProcessorFacts.LimitWrite | range.c:56-76 | one write to a limit processor in front of a print processor passes the path on while the limit has room |
| ProcessorFacts.LimitRun | range.c:39-76 | writing paths to a limit processor before a print processor prints as many as the limit has left |
| ProcessorFacts.LimitPrintsFirst | range.c:129-133 | limit_processor_new(N) before a print processor prints the first N paths |
| ProcessorFacts.SkipWrite | range.c:88-107 | one write to a skip processor before a print processor passes the path on only once N have been skipped |
| ProcessorFacts.SkipRun | range.c:78-107 | writing paths to a skip processor prints all but as many as it has left to skip |
| ProcessorFacts.SkipPrintsRest | range.c:135-139 | skip_processor_new(N) before a print processor prints every path after the first N |
| ProcessorFacts.SortWrite | sort.c:62-72 | writing to a sort processor collects the file and prints nothing |
| ProcessorFacts.SortRun | sort.c:62-72 | writing paths to a sort processor collects the readable ones in order and prints nothing |
| ProcessorFacts.SortDrains | sort.c:39-60 | after closing, a sort processor hands its entries from the offset on to the print processor |
| ProcessorFacts.SortCompletes | sort.c:74-90 | completing a sort processor before a print processor prints its list sorted |
| ProcessorFacts.SortPrintsSorted | sort.c:103-127 | writing paths to sort_processor_new before a print processor prints nothing, and completing the chain prints the collected files sorted by the string's fields |
| ExecArgs.Resized | exec-args.c:66-88 | a full array doubles unless doubling would overflow SIZE_MAX |
| ExecArgs.RefusedOnlyWhenHuge | exec-args.c:90-117 | an append drops the argument only past SIZE_MAX / 2 arguments |
| ExecArgs.AppendedShaped | exec-args.c:103-117 | appending keeps the capacity shape; once the path is set the argument joins argv |
| ExecArgs.BuiltInOrder | exec-args.c:103-117 | appending strings to a new list makes the first the path and the others argv in order, in a capacity that is a doubling of 8 |
| ExecArgs.AppendKeepsEarlier | exec-args.c:103-117 | an append never changes the path once set, nor an argument already there |
| ExecArgs.ExecArgs.constructor | exec-args.c:30-39 | no path, no arguments, room for 8 |
| ExecArgs.ExecArgs.ResizeIfNecessary | exec-args.c:66-88 | succeeds exactly when Resized does, with room left afterwards; a refusal changes nothing |
| ExecArgs.ExecArgs.AppendArg | exec-args.c:90-101 | the argument is pushed when the array has room or can grow; the path is unchanged |
| ExecArgs.ExecArgs.Append | exec-args.c:103-117 | the list afterwards is Appended |
| OptionsGetopt.Steal | options_getopt.c:342-414 | the argv left after stealing is no longer than the input |
| OptionsGetopt.NewExecArgs | options_getopt.c:342-414 | exec_args_new followed by an append of each token gives ExecArgs.Built of the tokens |
| OptionsGetopt.StealExecArgs | options_getopt.c:342-414 | the new argv holds the arguments outside "--exec ... ;" groups in order, each group becomes one ExecArgs appended to the options, and nothing else changes; success is Steal's verdict |
| OptionsGetopt.ScanGroup | options_getopt.c:342-414 | reading a group's tokens and its ";" closes the group with all of them |
| OptionsGetopt.StealRendered | options_getopt.c:342-414 | an argv made of plain arguments and well-formed groups is stolen with success, its plain arguments kept in order and its groups collected in order |
| OptionsGetopt.ParseRenders | options_getopt.c:342-414 | what a scan reads spells exactly the tokens it read |
| OptionsGetopt.StealSucceedsIffRendered | options_getopt.c:342-414 | stealing succeeds exactly on the argv vectors that plain arguments and well-formed groups spell |
| OptionsGetopt.UnclosedFails | options_getopt.c:342-414 | a group never closed by ";" makes the scan fail |
| OptionsGetopt.MissingSemicolonFails | options_getopt.c:342-414 | an "--exec" without a closing ";" makes stealing fail |
| OptionsGetopt.EmptyGroupFails | options_getopt.c:342-414 | an empty "--exec ;" makes stealing fail |
| OptionsGetopt.IndexOfFirstOption | options_getopt.c:303-324 | the number of arguments after argv[0] before the first option: none of them is an option, and the one after them is |
| OptionsGetopt.AddDirsElements | options_getopt.c:38-41 | the directories afterwards are those before plus those added |
| OptionsGetopt.AddDirsNoDuplicates | options_getopt.c:38-41 | a directory list without duplicates keeps none |
| OptionsGetopt.AddDirsKeepsPrefix | options_getopt.c:63-69 | the directories already listed stay first, in their order |
| OptionsGetopt.AddDirsOrderFree | options_getopt.c:63-69 | adding the same directories in another order or with repeats gives the same set |
| OptionsGetopt.PlacedPositionals | options_getopt.c:72-89 | each leading positional becomes a directory, except the last of several when no expression was set, which becomes the expression; nothing else changes and the list stays free of duplicates |
| OptionsGetopt.PlacedOrderFree | options_getopt.c:72-89 | listing the directories in another order or with repeats finds the same directories and expression |
| OptionsGetopt.AppendSingleSearchDir | options_getopt.c:32-42 | the options afterwards are SingleDir |
| OptionsGetopt.AppendMultipleSearchDirs | options_getopt.c:44-70 | the options afterwards are MultipleDirs |
| OptionsGetopt.AppendSearchDirsAndExprFromArgv | options_getopt.c:72-89 | the options afterwards are Placed |
| OptionsGetopt.ParseFlag | options_getopt.c:91-118 | true sets the flag, false clears it, a malformed argument fails and changes nothing; no other flag or field changes |
| OptionsGetopt.QuoteOption | options_getopt.c:203-212 | without an argument FLAG_QUOTE is set; with one it is parsed as a boolean, and a malformed one aborts; nothing else changes |
| OptionsGetopt.ExprOption | options_getopt.c:191-194 | the expression is replaced and FLAG_STDIN cleared; nothing else changes |
| OptionsGetopt.DirOption | options_getopt.c:196-201 | the directory is listed afterwards, appended only when new; nothing else changes |
| OptionsIni.LeadingSpaces | options_ini.c:34-52 | strtol skips exactly the white space at the start |
| OptionsIni.ClampLong | options_ini.c:34-52 | a value out of range saturates at LONG_MAX or LONG_MIN |
| OptionsIni.Strtol | options_ini.c:34-52 | strtol in base 10: the value lies in the long range; a tail of 0 means nothing was converted and the value is 0; otherwise the chars from the digits' start to the tail are all digits, and no digit follows |
| OptionsIni.ParseIntegerAsWritten | options_ini.c:34-52 | an accepted value lies in [min, max] |
| OptionsIni.ParseInteger | options_ini.c:34-52 | an accepted value lies in [min, max] |
| OptionsIni.EmptyValueReadAsZero | options_ini.c:34-52 | the empty value is accepted as 0 as written and refused as intended |
| OptionsIni.ParseIntegerIsDecimal | options_ini.c:34-52 | a value accepted as intended is white space, an optional sign and at least one digit, and nothing else |
| OptionsIni.StrtolNegative | options_ini.c:34-52 | a '-' and digits read whole as the negated value |
| OptionsIni.ParseIntegerReadsDecimal | options_ini.c:34-52 | every number in range written in decimal is read back |
| OptionsIni.ParseBool | options_ini.c:54-78 | "yes" is true, "no" is false, anything else is refused |
| OptionsIni.SetString | options_ini.c:80-92 | a present value replaces the old string, an absent one keeps it |
| OptionsIni.Logging | options_ini.c:94-110 | only the log level and colour can change; the level only for "verbosity" and only to a value in NONE..FATAL, the colour only for "color" |
| OptionsIni.General | options_ini.c:112-156 | the logging fields never change, nor any field but the quote flag, follow-links, max-depth, regex-type, order-by and printf; max-depth changes only for "max-depth" and only to 0..INT32_MAX |
| OptionsIni.Handled | options_ini.c:158-175 | a section other than "logging" leaves the logging fields alone, and one other than "general" leaves every other field alone |
| OptionsIni.Loaded | options_ini.c:177-205 | a configuration of unknown keys only changes nothing, and one without a "logging" line keeps the log level |
| OptionsIni.UnknownIgnored | options_ini.c:158-175 | unknown sections and keys change nothing |
| OptionsIni.VerbosityInRange | options_ini.c:94-110 | verbosity takes a value in NONE..FATAL and otherwise keeps the old one; nothing else changes |
| OptionsIni.MaxDepthInRange | options_ini.c:112-156 | max-depth takes a value in 0..INT32_MAX and otherwise keeps the old one; nothing else changes |
| OptionsIni.QuoteOnlyTouchesQuote | options_ini.c:112-156 | quote sets or clears FLAG_QUOTE and leaves every other flag and field alone |
| OptionsIni.StringOptionReplaced | options_ini.c:80-156 | a string option is replaced by a present value and kept when the value is absent |
| OptionsIni.LastPrintfWins | options_ini.c:158-175 | after a whole configuration the format string is the last one it gives |
| OptionsIni.LoadedKeepsLogLevel | options_ini.c:94-110 | reading a configuration never takes the log level out of NONE..FATAL |
| OptionsIni.HandleLoggingSection | options_ini.c:94-110 | the options afterwards are Logging |
| OptionsIni.HandleGeneralSection | options_ini.c:112-156 | the options afterwards are General |
| OptionsIni.IniHandler | options_ini.c:158-175 | always answers 1, with the options afterwards Handled |
| Log.FileFor | log.c:131-135 | stdout exactly for the levels below WARNING |
| Log.NoneIsSilent | log.c:116-129 | verbosity NONE emits no level |
| Log.EmitsMonotone | log.c:116-129 | a higher verbosity emits every level a lower one does |
| Log.EmittedLevels | log.c:116-129 | verbosity v emits exactly the v most severe levels |
| Log.QuietVerbosityUsesStderr | log.c:116-135 | up to verbosity 3 every emitted message goes to stderr |
| Log.LogSettings.constructor | log.c:32-36 | verbosity NONE with colour on |
| Log.LogSettings.SetVerbosity | log.c:93-108 | a level above FATAL becomes FATAL, below NONE becomes NONE, others are kept |
| Log.LogSettings.EnableColor | log.c:110-114 | the colour setting is replaced and the verbosity kept |
| Log.LogSettings.CheckLevel | log.c:116-129 | a level is printed exactly as Emits says |
| Taglib.SpecialCount | examples/taglib.c:152-187 | no more specials than chars |
| Taglib.Escaped | examples/taglib.c:152-187 | the escaped query is one char longer per special char |
| Taglib.EscapedIsLiteral | examples/taglib.c:152-187 | the escaped query reads back as a regular expression matching exactly the query |
| Taglib.LiteralIsEscaped | examples/taglib.c:152-187 | escaping is the only way to write a string as such a literal |
| Taglib.ClosersCopied | examples/taglib.c:165-180 | ']' and '}' are copied without a backslash |
| Taglib.ComparePatternAnchorsLiteral | examples/taglib.c:205-230 | the pattern of the equals callbacks is '^', a literal spelling of the query and '$' |
| Taglib.MatchPatternIsLiteral | examples/taglib.c:232-246 | the pattern of the matches callbacks reads as the query, and a NULL query gives the empty pattern |
| Taglib.RegexEscape | examples/taglib.c:152-187 | a fresh buffer of 2 * len + 1 chars holding the escaped query and a NUL after it |
| Taglib.PutEscaped | examples/taglib.c:170-175 | one char is written at the position, preceded by a backslash when it is special, and the position advances past it |
| CExample.LastIndex | examples/c/c-example.c:24 | the index of the last occurrence of the char, none exactly when it does not occur |
| CExample.ExactMeansDottedSuffix | examples/c/c-example.c:17-53 | compared exactly, the answer is 1 precisely when the extension is a suffix of the file name starting with '.' and holding no other '.' |
| CExample.NoDotOrNullGivesZero | examples/c/c-example.c:24-32 | no '.' in the file name or a NULL extension gives 0 |
| CExample.IcaseWeakensExact | examples/c/c-example.c:36-48 | ignoring case only turns a 0 into a 1 |
| CExample.CCheckExtension | examples/c/c-example.c:17-53 | the length test and the loop give CheckExtension |
| CExample.DiscoverRegistersCheckExtension | examples/c/c-example.c:11-15 | discover registers c_check_extension taking a string and an integer |
| PyExample.SplitExtParts | examples/python/py-example.py:10 | the root and the extension make up the path, and the extension is empty or a '.' followed by neither '.' nor '/' |
| PyExample.Compare | examples/python/py-example.py:13-16 | 1 exactly when the two strings are equal, ignoring case when icase is non-zero |
| PyExample.GuardOnlyMattersWithoutExtension | examples/python/py-example.py:7-22 | the two Python versions agree on a file name with an extension; without one, py-example.py answers 0 and example.py answers 1 exactly for the extension "" |
| PyExample.NoExtensionMatchesEmpty | examples/python/example.py:7-17 | "README" matches "" in example.py only |
| PyExample.PyAgreesWithC | examples/python/py-example.py:7-22 | for a file name without '/' that does not start with '.', the Python and C examples agree |
| PyExample.DotFileDiffers | examples/python/py-example.py:7-22 | ".bashrc" has an extension for the C example and none for splitext |
| PyExample.SignatureIsStringInteger | examples/python/py-example.py:20-22 | the exported function takes a string and an integer |

## Left out

- I/O of every kind is outside the model: printing, log output with its timestamps and colours, stat(2), realpath, readlink, getpwuid/getgrgid, ctime, localtime/strftime, reading /proc/mounts and the INI file. Each becomes an input record or a function parameter: a stat record, a World of lookups, a parsed list of lines.
- The dynamic-library and CPython extension backends (dl-ext-backend.c, py-ext-backend.c) are a function parameter that answers an optional 32-bit integer. py-ext-backend.c's mapping from Python types to type codes is not part of this model; PyExample.TypeCode states the mapping it assumes.
- Memory management is left out: malloc failure, free, and the destroy and free functions. realloc is a copy into a new array.
- regcomp and regexec are left out. Taglib models the pattern the callbacks build and proves it reads as the literal query. Whether a tag matches it is not modelled.
- The getopt_long loop of options_getopt.c (_get_opt, lines 139-301) is modelled through the options it sets: -e, -d and -q. The options that only choose an action (-p, -v, -h, -L) and the long-only options are left out. The top-level options_getopt and options_load_ini, which chain the pieces, are left out too.
- utils_parse_bool is not part of this model. OptionsGetopt.ParseFlag takes its result as a parameter. _get_opt_parse_flag reads the global optarg rather than its value argument; both are the same string at every call site.
- Flags words (the processor's readable/closed/error bits and the options' FLAG_STDIN/FLAG_QUOTE) are booleans or sets rather than bits of an int.
- FileList.SortBy: an insertion sort, which is stable. qsort is not, so the order of entries that compare equal may differ from the source's.
- FileList.CompareEntries: file_attr_compare is not part of this model and is a parameter. The negation for a descending field is unbounded, so `-INT_MIN` does not wrap.
- ProcessorFacts.SortRun: the sort processor's list is a value, not a FileList object that sort.c appends to through a pointer.
- Processor.Builder.Do: the builder's user_data argument is left out. The steps are a list of prepend attempts and failures.
- Taglib.RegexEscape: the buffer holds 2 * len + 1 chars. The source allocates sizeof(char *) times that, which only adds unused room.
- CExample.LowerChar: tolower in the C locale only. PyExample.Compare uses the same ASCII lowering for Python's str.lower, which also folds non-ASCII letters.
- PyExample.PyCheckExtension: Python answers a bool (True/False) or 0. The model answers 0 or 1.
- FormatParser.FullBufferEscapeContinues: the code as written sets ABORT for an escape that meets a full buffer and then overwrites it with NEXT. The model follows the code, so the escape is dropped and the parse goes on.
- Words and Decimal hold helpers (32-bit integer ranges, decimal digits and printing) that the other modules use. They model no source function of their own.
- Translate.TranslationCtx.AppendTimeCond: uses the corrected Translate.HoursToMinutes. 40000000 hours is reported as an error, where translate.c:443-445 emits -1894967296 minutes.
- Translate.TimeCondOut: uses the corrected Translate.HoursToMinutes. 40000000 hours is an error, where translate.c:443-445 emits -1894967296 minutes.
- Translate.ConditionOut: uses the corrected Translate.HoursToMinutes and Translate.CheckProperty. 40000000 hours is an error, where the source emits -1894967296 minutes. The message for "gid > 5" names "gid", where translate.c:367 names "numeric".
- Translate.TranslationCtx.ProcessCondition: uses the corrected Translate.HoursToMinutes and Translate.CheckProperty, with the same two differences as Translate.ConditionOut.
- Translate.TranslationCtx.AppendCheckedCondition: uses the corrected Translate.HoursToMinutes and Translate.CheckProperty, with the same two differences as Translate.ConditionOut.
- Translate.TranslationCtx.ProcessOperand: translates its conditions with the corrected Translate.HoursToMinutes and Translate.CheckProperty, with the same two differences as Translate.ConditionOut.
- Translate.TranslationCtx.ProcessExpression: translates its conditions with the corrected Translate.HoursToMinutes and Translate.CheckProperty, with the same two differences as Translate.ConditionOut.
- Translate.TranslationCtx.ProcessJoinedOperand: translates its conditions with the corrected Translate.HoursToMinutes and Translate.CheckProperty, with the same two differences as Translate.ConditionOut.
- Translate.TranslationCtx.ProcessNode: translates its conditions with the corrected Translate.HoursToMinutes and Translate.CheckProperty, with the same two differences as Translate.ConditionOut.
- Translate.Translate: translates its conditions with the corrected Translate.HoursToMinutes and Translate.CheckProperty, with the same two differences as Translate.ConditionOut.
- Eval.FuncArgs: walks the arguments with the corrected bound of Eval.CollectArgs. A call with 33 arguments fails, where eval.c:135-138 only reports and writes past the 32 slots.
- Eval.FuncCall: collects its arguments with the corrected bound of Eval.CollectArgs. A call with 33 arguments has no value, where eval.c:135-138 writes past the 32 slots.
- Eval.GetInt: reads calls through Eval.FuncCall and its corrected bound. A call with 33 arguments cannot be read, where eval.c:135-138 writes past the 32 slots.
- Eval.EvalCompare: reads calls through Eval.FuncCall and its corrected bound. A comparison with a 33-argument call aborts, where eval.c:135-138 writes past the 32 slots.
- Eval.EvalNode: reads calls through Eval.FuncCall and its corrected bound. A comparison with a 33-argument call aborts, where eval.c:135-138 writes past the 32 slots.
- Eval.EvalExpression: reads calls through Eval.FuncCall and its corrected bound. A comparison with a 33-argument call aborts, where eval.c:135-138 writes past the 32 slots.
- Eval.Evaluate: reads calls through Eval.FuncCall and its corrected bound. A comparison with a 33-argument call aborts, where eval.c:135-138 writes past the 32 slots.
- FileInfo.Permissions: fills the buffer as the corrected FileInfo.SymbolicMode. Mode 4755 gives "rwsr-xr-x", where fileinfo.c:96-98 gives "rwxs-xr-x".
- FileInfo.GetAttr: 'M' is the corrected FileInfo.SymbolicMode. Mode 4755 gives "rwsr-xr-x", where fileinfo.c:96-98 gives "rwxs-xr-x".
- Format.NodeOutput: uses the corrected Format.IntegerFormat, FileInfo.GetTime and FileInfo.SymbolicMode. "%5m" prints "%5o", in octal, where format.c:102-109 prints "%5d". A %T time of 2^31 or more stays positive, where fileinfo.c:344-353 makes it negative. %M of mode 4755 prints "rwsr-xr-x", not "rwxs-xr-x".
- Format.WriteNode: gives Format.NodeOutput, so it has the same three differences from the source.
- Format.FormatWrite: writes through Format.NodeOutput, so it has the same three differences from the source.
- Format.FormatWritten: writes through Format.NodeOutput, so it has the same three differences from the source.
- FormatParser.AfterText: decodes escapes with the corrected FormatParser.DecodeEscape. "\x41f" gives "Af", where format-parser.c:386-393 gives the char 0x1f and then "f".
- FormatParser.Parser.StepString: decodes escapes with the corrected FormatParser.DecodeEscape. "\x41f" gives "Af", where format-parser.c:386-393 gives the char 0x1f and then "f".
- FormatParser.Parser.Step: decodes escapes with the corrected FormatParser.DecodeEscape. "\x41f" gives "Af", where format-parser.c:386-393 gives the char 0x1f and then "f".
- FormatParser.Parser.Parse: decodes escapes with the corrected FormatParser.DecodeEscape. "\x41f" gives "Af", where format-parser.c:386-393 gives the char 0x1f and then "f".
- FormatParser.Parser.FormatParse: decodes escapes with the corrected FormatParser.DecodeEscape. "\x41f" gives "Af", where format-parser.c:386-393 gives the char 0x1f and then "f".
- FormatParser.Parsed: decodes escapes with the corrected FormatParser.DecodeEscape. "\x41f" gives "Af", where format-parser.c:386-393 gives the char 0x1f and then "f".
- FormatParser.FormatParsed: decodes escapes with the corrected FormatParser.DecodeEscape. "\x41f" gives "Af", where format-parser.c:386-393 gives the char 0x1f and then "f".
- OptionsIni.Logging: reads numbers with the corrected OptionsIni.ParseInteger. "verbosity =" keeps the old level, where options_ini.c:34-52 sets it to 0.
- OptionsIni.General: reads numbers with the corrected OptionsIni.ParseInteger. "max-depth =" keeps the old depth, where options_ini.c:34-52 sets it to 0.
- OptionsIni.Handled: reads numbers with the corrected OptionsIni.ParseInteger. "verbosity =" keeps the old level, where options_ini.c:34-52 sets it to 0.
- OptionsIni.Loaded: reads numbers with the corrected OptionsIni.ParseInteger. "verbosity =" keeps the old level, where options_ini.c:34-52 sets it to 0.
- OptionsIni.VerbosityInRange: is about the corrected OptionsIni.ParseInteger. "verbosity =" keeps the old level, where options_ini.c:34-52 sets it to 0.
- OptionsIni.MaxDepthInRange: is about the corrected OptionsIni.ParseInteger. "max-depth =" keeps the old depth, where options_ini.c:34-52 sets it to 0.
- OptionsIni.HandleLoggingSection: reads numbers with the corrected OptionsIni.ParseInteger. "verbosity =" keeps the old level, where options_ini.c:34-52 sets it to 0.
- OptionsIni.HandleGeneralSection: reads numbers with the corrected OptionsIni.ParseInteger. "max-depth =" keeps the old depth, where options_ini.c:34-52 sets it to 0.
- OptionsIni.IniHandler: reads numbers with the corrected OptionsIni.ParseInteger. "verbosity =" keeps the old level, where options_ini.c:34-52 sets it to 0.
- FileList.CompareEntries: an 'S' key on an empty file compares as equal. In the source, file_attr_compare reaches fileinfo.c:270 from filelist.c:317-323 and divides by the zero st_size, so the process dies.
- FileList.FieldOrder: maps the undefined 'S' attribute of an empty file to "equal". The source divides by zero at fileinfo.c:270 and the process dies.
- Fs.SortDescending: an insertion sort, which is stable. qsort (fs.c:87-91) is not, so mount points whose paths compare equal may come out in another order.
- CTest.Add: wraps the sum to 32 bits. In c-test.c:25-32 a signed overflow is undefined behaviour in C.
- CTest.Sub: wraps the difference to 32 bits. In c-test.c:34-41 a signed overflow is undefined behaviour in C.

## Findings

| source | as written | input that shows it | evidently intended | confidence | as-written member | corrected member |
|---|---|---|---|---|---|---|
| translate.c:367 | the "Invalid operator" message fills its one %s with the type description, not the property name | `gid > 5`: the message names "numeric" | the message names the property | high, not executed | TranslateFacts.InvalidOperatorMessageExample | Translate.CheckProperty |
| translate.c:443-445 | `val * 60` is computed in 32-bit int before it is widened, so the overflow test can never fire | 40000000 hours gives -1894967296 minutes | an hour count whose minutes overflow int32 is refused | high, not executed | TranslateFacts.HoursOverflowExample | Translate.HoursToMinutes |
| eval.c:135-138 | a full argument stack is only reported, and the walk goes on writing past the 32 slots | a function call with 33 literal arguments | the call fails once the stack is full | high, not executed | EvalFacts.StackOverflowAsWritten | EvalFacts.BoundedChainFails |
| format-parser.c:386-393 | strncpy copies as many chars as the whole token holds, starting after "\" or "\x", so digits that follow the token join the number | "\x41f" decodes to 0x1f instead of "A" followed by "f" | the escape is decoded from its own digits | high, not executed | FormatParser.DecodeReadsPastToken | FormatParser.DecodeEscape |
| fileinfo.c:96-98 | the setuid char is written at index 3, the group read position, instead of index 2 | mode 4755 prints "rwxs-xr-x" | "rwsr-xr-x" | high, not executed | FileInfo.SetUidLandsOnGroupRead | FileInfo.SymbolicMode |
| fileinfo.c:344-353 | file_attr_get_time returns the 32-bit int field of the attribute as time_t, so times from 2038 on come back negative | a time of 0x80000000 seconds | the full time value | medium, not executed | FileInfo.TimeTruncatedTo32Bits | FileInfo.GetTime |
| format.c:102-109 | with a width, the format ends in 'd' whatever conversion was asked for | "%5m" prints the permission bits in decimal | "%5o", in octal as without a width | high, not executed | Format.WidthDropsConversion | Format.BuildIntegerFormat |
| options_ini.c:34-52 | strtol converts nothing from an empty value, yet its tail is the end of the string, so the value is accepted as 0 | "verbosity =" sets verbosity 0 | an empty value is refused | medium, not executed | OptionsIni.EmptyValueReadAsZero | OptionsIni.ParseInteger |
