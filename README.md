# mpp — the MFEM source preprocessor, modelled in Dafny

`mpp` (general/mpp.cpp) reads a C++ source file one character at a time and
copies it to its output. Three directives take over the copy when they
appear:

- **`MFEM_EMBED { ... }`** collects a block of code. The code is still copied
  through as usual. `MFEM_KERNEL` later pastes it into the kernels it
  generates.
- **`MFEM_KERNEL`** applies to a `void`, `static` or `template<...>` function.
  - Its arguments are classified as *dispatch* values, runtime values or
    pointer-like values. Dispatch values are the `const` non-pointer
    arguments.
  - The body is kept as the source text of a `ker_<name>` template, which a
    just-in-time compiler instantiates for each tuple of dispatch values.
  - The host side of the function hashes the dispatch values and calls the
    matching compiled instance.
- **`MFEM_TEMPLATE`** applies to a function whose arguments may carry
  `MFEM_RANGE(...)` lists such as `(1-3,5)`.
  - The function becomes a template `__<name>`.
  - A launcher under the original name looks up the specialisation for the
    runtime values in a table.
  - The table has one entry for every combination of the listed values,
    keyed by a hash of that combination.

The state of the preprocessor is one `context_t`: the input and output
streams, the line counter, the brace depth `block` and the state of the open
directive (`kernel_t`, `template_t`). Every directive works by changing that
state step by step, so the model is imperative where the source is:

- **`Preprocessor.Context`** is a class holding the context.
  - The input is a string read at `pos`.
  - The output is the string `out`.
  - `line`, `block`, `ker` (the flags and strings of `kernel_t`), `embed`
    and `args` are updated in place.
  - Each function of general/mpp.cpp that works on the context is a method,
    with field-level `modifies` frames.
  - The contracts state the new position and what was written. Copying
    through `put` is summarised by the predicate `Wrote`: the output grows by
    the text, the line counter by its newlines, and the embedded text by the
    same text exactly when `MFEM_EMBED` is on.
- **`Text`**: white-space and name runs, C strings, decimal and hexadecimal
  numerals, comma-joined lists, and `strrnc`.
- **`Hashing`**: `hash_combine` and `hash_args` on 64-bit words.
- **`Ranges`**: the range-list grammar of `MFEM_RANGE` as a function, and
  `templateOuterProduct` as a method proved against the Cartesian product.
- **`Arguments`**: the entries each argument contributes to the kernel strings
  of `kerArgs`, with a reference definition of those strings and the lemmas
  on how arguments are partitioned.
- **`Lexer`**: where comments end, `peekid`, and where a word and the
  white space after it end.
- **`Signatures`**: reference readers of the kernel and template
  signatures. Each states, as a function of the input and a start index,
  what the loops of `kerGetArgs`, `templateGetArgs`, `__kernel` and
  `__template` read: the arguments, the declaration, where they stop and
  which diagnostic they fail with. The methods of `Context` are proved to
  read exactly what these functions say.
- **`KernelSamples`** and **`TemplateSamples`**: two argument lists read
  through the reference readers, field by field.
- **`Blocks`**: the brace-depth automaton shared by the three postfixes.
- **`Emit`**: the fixed texts written around the copied code: header,
  prologue, epilogue, template head, launcher and table.
- **`Findings`**: five places where the code as written does not do what it
  evidently means to.
- **`Outcomes`**: the error type.
  - `check(pp, test, msg)` throws an `error_t` holding the line, the file and
    the message; here it becomes `Failure(Diagnostic(line, file, msg))`.
  - An `assert(!pp.in.eof())` that can fail becomes `Failure(Abort)`. It
    fails exactly when the input is exhausted at that point.

The compile-time strings `MFEM_CXX`, `MFEM_BUILD_FLAGS` and `MFEM_SRC` are
parameters of the `Context` constructor.

## Model

| member | source | states |
|---|---|---|
| Hashing.HashArgsIsFold | general/mpp.cpp:44-51 | The variadic recursion of `hash_args` is the left fold of `hash_combine` over the values, the last value combined last |
| Hashing.FoldHashCons | general/mpp.cpp:41-43 | Folding a list that starts with `v` is folding the rest from the seed `hash_combine(s, v)` |
| Hashing.TableKey | general/mpp.cpp:1053-1054 | The key loop (`hash = hash_args(hash, r)` for each value, from 0) computes the fold of the combination from seed 0 |
| Hashing.KeyAgreement | general/mpp.cpp:1044-1054 | The key written into the table for a combination equals the key the emitted launcher computes from the same values with `hash_args(std::hash<size_t>()(0), ...)` |
| Hashing.OrderMatters | general/mpp.cpp:41-43 | The mixing depends on order: hashing (1, 2) and (2, 1) gives different keys |
| Hashing.IntHash | general/mpp.cpp:36-40 | Defines `std::hash` of an integer value: the value converted to `size_t`, taken modulo 2^64 |
| Hashing.HashCombine | general/mpp.cpp:41-43 | Defines `hash_combine`: the seed xor the value's hash plus `0x9e3779b9` plus the seed shifted left 6 and right 2, modulo 2^64 |
| Hashing.HashArgs | general/mpp.cpp:44-51 | Defines the variadic `hash_args` over one or more values: combine the first into the seed, then the rest |
| Text.RunEnd | general/mpp.cpp:181-196 | Where a `while (pred(peek))` loop stops: never before its start, never past the end |
| Text.RunEndMaximal | general/mpp.cpp:181-196 | Every character skipped satisfies the predicate, and the one it stops at (if any) does not: the run is maximal |
| Text.RunEndIdempotent | general/mpp.cpp:187-196 | Skipping white space a second time skips nothing |
| Text.RunEndAt | general/mpp.cpp:181-196 | A run that holds up to `e` and fails at `e` ends exactly at `e` |
| Text.CStr | general/mpp.cpp:142 | A C string is the longest prefix without NUL, ending at the first NUL or at the end |
| Text.NewlinesAppend | general/mpp.cpp:169-175 | The line count of two texts put one after the other adds up |
| Text.JoinSnoc | general/mpp.cpp:930-931 | A separator-joined list grows by the separator and the new item, with no separator before the first item |
| Text.JoinNonEmpty | general/mpp.cpp:432 | Joining non-empty items, at least one, gives a non-empty text |
| Text.ListingIsJoin | general/mpp.cpp:442-445 | The idiom "add a comma if the string is not empty, then the item" builds the comma-joined list of non-empty items |
| Text.DecimalString | general/mpp.cpp:268-273 | The decimal numeral of a number is a non-empty run of digits |
| Text.DecimalRoundTrip | general/mpp.cpp:268-273 | Reading back the decimal numeral of `n` (the value `get_digit` computes) gives `n` |
| Text.HexString | general/mpp.cpp:1055 | The hexadecimal numeral of a number is non-empty |
| Text.HexRoundTrip | general/mpp.cpp:1055 | Reading back the hexadecimal numeral of `n` gives `n` |
| Text.StrRnc | general/mpp.cpp:140-152 | An answer is a position of `c` in the C string with exactly `n` occurrences of `c` from there on (the `n`-th last); no answer exactly when `n < 1` or `c` occurs fewer than `n` times |
| Text.IsSpace | general/mpp.cpp:181-196 | Defines `isspace` in the C locale |
| Text.IsIdChar | general/mpp.cpp:248-252 | Defines `is_id`: a letter, a digit or `_` |
| Text.DigitsValue | general/mpp.cpp:268-273 | Defines the value `atoi` reads from a run of decimal digits |
| Ranges.IntervalAt | general/mpp.cpp:862-865 | The span the `for` loop pushes after a dash has `hi - lo` values (none if `hi <= lo`), the k-th being `lo + k` |
| Ranges.ItemAt | general/mpp.cpp:857-876 | One pass of the `do ... while`: it moves forward and keeps the values already read as a prefix. On a dash the next pass has a value to start from. It ends after a `)`. Errors are "unknown number" or "unknown MFEM_TEMPLATE range" |
| Ranges.RangeItems | general/mpp.cpp:857-877 | The whole loop ends just after a `)`, extending the values it started with; it fails only with the two range messages |
| Ranges.RangeList | general/mpp.cpp:851-878 | A successful list starts with `(` and ends with `)`, extending the argument's range. A missing `(` fails with "templated kernel should declare the range", and only then |
| Ranges.NumberRun | general/mpp.cpp:268-273 | A decimal numeral followed by a non-digit is read as exactly that numeral, with its value |
| Ranges.ItemStep | general/mpp.cpp:859-876 | One item written in decimal is read as its value, after the span a preceding dash asks for |
| Ranges.ItemClose | general/mpp.cpp:869-877 | A number followed by `)` ends the list with that number appended |
| Ranges.ItemComma | general/mpp.cpp:869-877 | A number followed by `,` appends it and reads the rest of the list |
| Ranges.ItemDash | general/mpp.cpp:869-875 | A number followed by `-` appends it and reads the rest with the dash set |
| Ranges.ItemsCons | general/mpp.cpp:857-877 | In a written comma list, reading the first value and then the rest is reading the whole list |
| Ranges.ItemsRoundTrip | general/mpp.cpp:857-877 | A comma list of values followed by `)` reads back exactly those values, in order, ending after the `)` |
| Ranges.RangeRoundTrip | general/mpp.cpp:851-878 | `(v1,...,vk)` reads back as `[v1, ..., vk]` whatever follows it |
| Ranges.DashThenClose | general/mpp.cpp:860-877 | `a-b)` appends `a`, every value strictly between them, then `b` |
| Ranges.SpanExpands | general/mpp.cpp:860-868 | A span `(a-b)` with `a < b` expands to `a, a+1, ..., b` |
| Ranges.ExampleSpan | general/mpp.cpp:857-877 | In `(1-3,5)`, the first two items read `1` and the span up to `3` |
| Ranges.RangeExample | general/mpp.cpp:851-878 | `(1-3,5)` expands to `[1, 2, 3, 5]` |
| Ranges.BadSeparatorRejected | general/mpp.cpp:871 | A number followed by anything other than `,`, `-`, `)` or a digit fails with "unknown MFEM_TEMPLATE range" |
| Ranges.Block | general/mpp.cpp:1015-1019 | Extending one tuple by every value of a list gives one tuple per value |
| Ranges.ExtendSize | general/mpp.cpp:1013-1020 | One pass of the outer loop multiplies the number of tuples by the size of the list |
| Ranges.ProductSize | general/mpp.cpp:1007-1024 | The product has exactly the product of the list sizes as its number of tuples (one empty tuple for no lists) |
| Ranges.BlockMember | general/mpp.cpp:1015-1019 | The tuples `x` extended by a value of `u` are exactly the tuples of length one more with prefix `x` and last value in `u` |
| Ranges.ExtendMember | general/mpp.cpp:1013-1020 | After one pass, the tuples are exactly the old tuples each extended by a value of the list |
| Ranges.ProductLengths | general/mpp.cpp:1007-1024 | Every tuple has one value per list |
| Ranges.ProductMember | general/mpp.cpp:1007-1024 | A tuple is in the product exactly when it has one value per list and its i-th value is in the i-th list |
| Ranges.BlockSorted | general/mpp.cpp:1015-1019 | Extending a tuple by the values of an increasing list gives lexicographically increasing tuples |
| Ranges.ExtendSorted | general/mpp.cpp:1013-1020 | One pass keeps the tuples strictly increasing in lexicographic order, the rightmost list fastest |
| Ranges.ProductSorted | general/mpp.cpp:1007-1024 | For increasing lists the product is strictly increasing in lexicographic order, so every combination appears exactly once |
| Ranges.OuterProduct | general/mpp.cpp:1007-1024 | The nested loops of `templateOuterProduct` compute the Cartesian product |
| Ranges.Interval | general/mpp.cpp:860-866 | Defines the values a dash range spans, from the low bound up to but excluding the high one |
| Ranges.Extend | general/mpp.cpp:1013-1020 | Defines one pass of the outer loop of `templateOuterProduct` |
| Ranges.Product | general/mpp.cpp:1007-1024 | Defines `templateOuterProduct` as the passes over the lists in order |
| Arguments.CollectSnoc | general/mpp.cpp:416-561 | Processing one more argument appends its entry, if it has one, after all earlier ones |
| Arguments.GrowSnoc | general/mpp.cpp:488-505 | Appending "comma if not empty, then the entry" to the list of the earlier arguments gives the list with the new argument |
| Arguments.DeriveSnoc | general/mpp.cpp:416-561 | The reference strings of a list with one more argument are the earlier strings grown by that argument's entries |
| Arguments.DeriveFromIsDerive | general/mpp.cpp:408-561 | Building the kernel strings one argument at a time from cleared strings gives the comma lists of all entries (the reference definition) |
| Arguments.DeriveEmpty | general/mpp.cpp:408-415 | With no arguments every kernel string stays cleared |
| Arguments.CountSplit | general/mpp.cpp:428-560 | Every argument is in exactly one of two complementary groups |
| Arguments.DispatchArity | general/mpp.cpp:428-445 | `Tformat` and `Targs` have one entry per dispatch argument, so the format and the hashed values line up |
| Arguments.CallArity | general/mpp.cpp:446-560 | `Tparams` has one entry per dispatch argument without default. `params`, `args` and `args_wo_amp` each have one entry per other argument, so the three lists line up |
| Arguments.DoubleConversions | general/mpp.cpp:457-483 | `d2u` and `u2d` are non-empty exactly when some dispatch argument is a `double` |
| Arguments.AliasesMatchPointers | general/mpp.cpp:739-764 | Exactly the pointer-like arguments get an alias line. Each binds the argument's own name to the `_name` under which `args_wo_amp` passes it, and that argument has a `params` entry |
| Arguments.TformatEntry | general/mpp.cpp:428-440 | Defines an argument's `Tformat` entry: `0x%lx` for a dispatch `double`, `%ld` otherwise |
| Arguments.TargsEntry | general/mpp.cpp:442-445 | Defines an argument's `Targs` entry, `u` before a `double` name |
| Arguments.TparamsEntry | general/mpp.cpp:447-456 | Defines an argument's `Tparams` entry, present only without a default value |
| Arguments.ParamsEntry | general/mpp.cpp:486-560 | Defines an argument's `params` entry in each of the three classes |
| Arguments.ArgsEntry | general/mpp.cpp:486-542 | Defines an argument's `args` entry in each of the three classes |
| Arguments.ArgsWoAmpEntry | general/mpp.cpp:486-549 | Defines an argument's `args_wo_amp` entry in each of the three classes |
| Arguments.D2uEntry | general/mpp.cpp:457-473 | Defines an argument's `d2u` unpacking lines, present for a dispatch `double` |
| Arguments.U2dEntry | general/mpp.cpp:474-482 | Defines an argument's `u2d` packing line, present for a dispatch `double` |
| Arguments.Derive | general/mpp.cpp:408-566 | Defines the kernel strings of an argument list: each one the comma list of the arguments' entries, `Tparams` followed by the single-source parameters |
| Arguments.DeriveNext | general/mpp.cpp:416-560 | Defines one turn of the `kerArgs` loop: each string grown by the argument's entry |
| Arguments.AliasLine | general/mpp.cpp:739-764 | Defines the alias line `kerAmpFromPtr` writes for a pointer-like argument |
| Signatures.ArrayTypeAt | general/mpp.cpp:629-647 | Reading `<name>` after `Array`: success ends after what it started from, within the input; a failure is one of its three diagnostics, never an abort |
| Signatures.DefaultAt | general/mpp.cpp:711-723 | The default after an argument's name: success stays within the input; the only failure is "unknown number", never an abort |
| Signatures.KernelTurn | general/mpp.cpp:662-732 | One turn of the `kerGetArgs` loop: going on moves forward at a non-negative nesting level; ending the list stops at its `)` with exactly one argument more |
| Signatures.WordTurn | general/mpp.cpp:686-732 | A turn that reads a word: the same guarantees as a whole turn |
| Signatures.NamedTurn | general/mpp.cpp:709-732 | A turn that has read a name: after the default, the argument is recorded, and a `)` either closes a nesting level or the list; the same guarantees |
| Signatures.SeparatorTurn | general/mpp.cpp:724-731 | After a recorded argument: going on keeps the arguments and moves forward; the list ends only at a `)` at level 0, answering the arguments recorded; any other character than `)` or `,` fails with "no coma while in args" |
| Signatures.KernelArgsFrom | general/mpp.cpp:662-732 | The loop turn after turn: a list read stops at a `)` and holds more arguments than it started with |
| Signatures.KernelArgList | general/mpp.cpp:650-736 | A list read is empty exactly when `void` comes first; a non-empty one stops at its closing `)` |
| Signatures.AngleAt | general/mpp.cpp:783-791 | The text found is the text between the `<` and the first `>` after it, ending past the `>`. A missing `<` fails with its message, and a missing `>` aborts |
| Signatures.AngleTextUnique | general/mpp.cpp:786-790 | The text between angle brackets is determined by where the `<` is |
| Signatures.KernelHeadAt | general/mpp.cpp:769-792 | Template parameters are found exactly when `template` comes first, and they are the text between its angle brackets. Failures are the keyword and `<` messages |
| Signatures.KernelNameAt | general/mpp.cpp:793-802 | The name found is a non-empty run of name characters. The only failure is "name w/o alnum 1st letter", never an abort |
| Signatures.KernelDeclarationAt | general/mpp.cpp:767-802 | The declaration is single-source exactly when `template` comes first, and names the kernel with a non-empty name. Failures are the keyword, `<` and name messages |
| Signatures.KernelParamsAt | general/mpp.cpp:803-815 | A missing `(` fails with "no 1st '(' in kernel". Success ends right after the `{` of the body, with no arguments exactly when the list is `void` |
| Signatures.ListCloseAt | general/mpp.cpp:809-815 | Success ends right after the `{` of the body. Without `)` first it fails with "no last ')' in kernel"; the only other failure is "no compound statement found"; never an abort |
| Signatures.KernelSignatureAt | general/mpp.cpp:767-815 | Success ends right after the `{` of the body, with a named declaration that is single-source exactly when `template` comes first |
| Signatures.TemplateTurn | general/mpp.cpp:893-922 | One turn of the `templateGetArgs` loop inside an argument: going on moves forward and keeps a ranged argument's range non-empty; an argument read differs from the one it had only by its name, made of name characters |
| Signatures.TemplateWordTurn | general/mpp.cpp:908-922 | A turn that reads a word: the same guarantees as a whole turn |
| Signatures.TemplateArgumentAt | general/mpp.cpp:891-924 | One argument read up to its name: a ranged one has a non-empty range, and its name is made of name characters |
| Signatures.TemplateListTurn | general/mpp.cpp:924-958 | One argument and its separator: going on moves forward at a non-negative level; ending the list stops at its `)` |
| Signatures.TemplateListAfter | general/mpp.cpp:924-958 | After an argument's name: ending the list stops at the `)` found right there |
| Signatures.SeparatorAt | general/mpp.cpp:949-958 | The separator after an argument keeps the arguments read; a `)` that ends the list is not consumed and answers exactly the arguments read |
| Signatures.TemplateArgsFrom | general/mpp.cpp:891-959 | The loop turn after turn: a list read stops at its closing `)` |
| Signatures.TemplateList | general/mpp.cpp:881-960 | A list read stops at its closing `)`; a `void` list aborts |
| Signatures.ListTurnSplit | general/mpp.cpp:924-945 | One turn of the loop keeps the runtime arguments unranged and gives every ranged argument a non-empty range: an argument read with `MFEM_RANGE` goes to the ranged ones, any other to the runtime ones |
| Signatures.ArgsFromSplit | general/mpp.cpp:891-959 | The whole loop keeps that split, to the end of the list |
| Signatures.TemplateListSplit | general/mpp.cpp:881-960 | Every list read splits into runtime arguments without a range and ranged arguments, each with a non-empty range |
| Signatures.TemplateDeclarationAt | general/mpp.cpp:965-984 | Success stops right after the `(`, with a non-empty name made of name characters |
| Signatures.TemplateWordsAt | general/mpp.cpp:967-984 | The words of the declaration: the same guarantees, from past the comment |
| Signatures.TemplateNameAt | general/mpp.cpp:977-984 | Success stops right after the `(`, with a non-empty name of name characters; failures are the name and `(` messages, never an abort |
| Signatures.TemplateSignatureAt | general/mpp.cpp:963-989 | Success ends right after the `)` of the list, with a non-empty name made of name characters |
| Signatures.KernelKeywordAt | general/mpp.cpp:773-775 | Defines the words a kernel signature must start with: `void`, `static` or `template` |
| Signatures.DefaultValueAt | general/mpp.cpp:715-722 | The default read after `=` and a digit is the value of the digit run, read up to its end |
| KernelSamples.KernelSampleRead | general/mpp.cpp:650-736 | Reading `(const double a, int &b, const char *c)` records three arguments: `a` a `const double`, `b` an `int` reference, `c` a `const char` pointer, and stops at the `)` |
| KernelSamples.KernelSampleArguments | general/mpp.cpp:650-736 | For that list `a` is a dispatch `double`, `b` a non-`const` reference to `int`, `c` a `const` pointer to `char` |
| TemplateSamples.RangeOfD | general/mpp.cpp:851-878 | `MFEM_RANGE(2,3)` reads the values 2 and 3 |
| TemplateSamples.TemplateSampleRead | general/mpp.cpp:881-960 | Reading `(int n, MFEM_RANGE(2,3) int D, double *x)` gives the runtime arguments `n` and the pointer `x`, and the ranged argument `D` with range `[2, 3]`, and stops at the `)` |
| TemplateSamples.TemplateSampleArguments | general/mpp.cpp:881-960 | For that list the runtime arguments are `n` and `x`, neither ranged, in order; `D` alone is ranged, with values 2 and 3 |
| Blocks.InertAfterFiring | general/mpp.cpp:599-604 | At depth -2 (closed, or not yet counting) the postfix never moves the depth and never fires |
| Blocks.FiresAtClosingBrace | general/mpp.cpp:599-627 | From depth 0 a postfix fires exactly once, at the `}` that closes the body, and the depth is -2 afterwards; until then the depth is the nesting depth, never negative |
| Blocks.FiresAtMostOnce | general/mpp.cpp:835-846 | A postfix fires at most once per directive body |
| Blocks.Track | general/mpp.cpp:602-603 | Defines the two depth updates a postfix makes on the peeked character |
| Blocks.Fires | general/mpp.cpp:604 | Defines when a postfix fires: the tracked depth is -1 |
| Blocks.Advance | general/mpp.cpp:835-844 | Defines the depth after one postfix call, -2 once it has fired |
| Emit.IntString | general/mpp.cpp:1059 | `to_string` of a value is non-empty |
| Emit.IntStrings | general/mpp.cpp:1057-1061 | One numeral per value of a combination |
| Emit.Entries | general/mpp.cpp:1048-1063 | One table entry per combination |
| Emit.EntriesAt | general/mpp.cpp:1048-1063 | The k-th entry is the entry of the k-th combination, after those of the earlier ones |
| Emit.TableAt | general/mpp.cpp:1048-1063 | The entry of the k-th combination occurs in the table right after the entries of the earlier ones |
| Emit.KeyReadsBack | general/mpp.cpp:1053-1055 | The key written for a combination is `0x` followed by a numeral that reads back as the dispatch hash of its values |
| Emit.ListedInTable | general/mpp.cpp:1048-1063 | Every combination given to the table has its entry in it |
| Emit.EveryCombinationListed | general/mpp.cpp:1038-1069 | Every tuple with one value from each range occurs as an entry in the launcher |
| Emit.TableSize | general/mpp.cpp:1048 | The launcher lists as many combinations as the product of the range sizes |
| Emit.GatheredNothing | general/mpp.cpp:883-890 | Before any argument, the template strings are those the directive started with |
| Emit.GatheredPlain | general/mpp.cpp:925-934 | Recording a runtime argument adds its name to the call arguments and its text to the signature, keeping the template strings consistent with the arguments read |
| Emit.GatheredRanged | general/mpp.cpp:935-945 | Recording a ranged argument adds its parameter, its name and its range, keeping them consistent |
| Emit.GatheredGrow | general/mpp.cpp:946 | Growing the launcher's parameter list keeps the others consistent |
| Emit.GatheredClosed | general/mpp.cpp:989 | Closing the signature with `)` keeps the others consistent |
| Emit.Header | general/mpp.cpp:393-400 | Defines the text `kerHeader` writes: the includes, the hashing source and a `#line 1` directive naming the input file |
| Emit.Prologue | general/mpp.cpp:570-596 | Defines the text `kerPrefix` writes after the opening brace of a kernel body |
| Emit.Epilogue | general/mpp.cpp:605-627 | Defines the text `kerPostfix` writes when the kernel body closes |
| Emit.TemplateHead | general/mpp.cpp:991-996 | Defines the `template<...>` head and `__<name>(` signature `__template` writes before the body |
| Emit.LauncherHead | general/mpp.cpp:1038-1047 | Defines the launcher up to its table: signature, typedef and run-time key |
| Emit.LauncherTail | general/mpp.cpp:1064-1068 | Defines the launcher after its table: the lookup and the call |
| Emit.Entry | general/mpp.cpp:1049-1062 | Defines one table entry: the key and the specialisation `&__<name><v1,...,vk>` |
| Emit.KeyText | general/mpp.cpp:1051-1055 | Defines the key text of a combination: `0x` and the hexadecimal hash |
| Emit.Table | general/mpp.cpp:1048-1063 | Defines the table as the entries of the combinations, in order |
| Emit.Launcher | general/mpp.cpp:1038-1069 | Defines the launcher `templatePostfix` writes: head, the table over the product of the ranges, tail |
| Preprocessor.WroteCompose | general/mpp.cpp:169-175 | Putting `a` and then `b` is putting `a + b`: output, line count and embedded text compose |
| Preprocessor.WroteSlices | general/mpp.cpp:178 | Copying two adjacent stretches of the input copies their union |
| Lexer.BlockCommentEnd | general/mpp.cpp:217-229 | A block comment stops at or after where it starts, and never past the end |
| Lexer.BlockCommentClosed | general/mpp.cpp:217-229 | A block comment ends at its first star-slash and the white space after it |
| Lexer.BlockCommentUnclosed | general/mpp.cpp:217-229 | An unclosed block comment runs to the end of the input |
| Lexer.CommentEnd | general/mpp.cpp:232-238 | `comments` never moves backwards nor past the end |
| Preprocessor.Context.constructor | general/mpp.cpp:118-119 | A new context is at line 1, at the start of the input, with nothing written and no block counted (depth -2) |
| Preprocessor.Context.PutChar | general/mpp.cpp:169-175 | `put(c)` writes `c`, counts a line exactly when `c` is a newline, and collects `c` exactly when `MFEM_EMBED` is on |
| Preprocessor.Context.Put | general/mpp.cpp:178 | `put(pp)` copies the next input character, with the same bookkeeping |
| Preprocessor.Context.Get | general/mpp.cpp:166 | `get` answers the peeked character and consumes it; at the end nothing is consumed |
| Preprocessor.Context.SkipSpace | general/mpp.cpp:187-190 | The maximal white-space run is copied |
| Preprocessor.Context.SkipSpaceInto | general/mpp.cpp:181-184 | The maximal white-space run is moved into the string, not the output |
| Preprocessor.Context.DropSpace | general/mpp.cpp:193-196 | The maximal white-space run is discarded |
| Preprocessor.Context.SingleLineComments | general/mpp.cpp:211-214 | Copies up to, not including, the end of the line, or to the end of the input |
| Preprocessor.Context.BlockComments | general/mpp.cpp:217-229 | Copies the comment up to its first star-slash and the white space after it, or to the end of the input |
| Preprocessor.Context.BlockCommentStep | general/mpp.cpp:219-227 | One turn moves forward; it either closes the comment or leaves its end where it was |
| Preprocessor.Context.CommentClose | general/mpp.cpp:224-225 | The closing slash and the following white space are copied |
| Preprocessor.Context.Comments | general/mpp.cpp:199-238 | A comment starting here, of either form, is copied; otherwise nothing happens |
| Preprocessor.Context.Next | general/mpp.cpp:241-245 | White space, then one comment, are copied |
| Preprocessor.Context.GetId | general/mpp.cpp:248-261 | Succeeds exactly when a name character comes next, answering the maximal run of name characters. Otherwise it fails with "name w/o alnum 1st letter" and consumes nothing |
| Preprocessor.Context.IdRun | general/mpp.cpp:259 | The loop reads the maximal non-empty run of name characters |
| Preprocessor.Context.GetDigit | general/mpp.cpp:264-274 | Succeeds exactly when a digit comes next, answering the value of the maximal digit run. Otherwise it fails with "unknown number" and consumes nothing |
| Preprocessor.Context.PeekN | general/mpp.cpp:277-288 | The next `n` characters (fewer at the end, cut at a NUL), without consuming |
| Lexer.IdAt | general/mpp.cpp:291-306 | The name starting at an index, cut to 64 characters: a prefix of the maximal name run, non-empty exactly when a name character comes there |
| Lexer.CommentAt | general/mpp.cpp:199-209 | Defines `is_comments`: a slash followed by a slash or a star |
| Preprocessor.Context.PeekId | general/mpp.cpp:291-306 | The name starting here, up to 64 characters, without consuming |
| Preprocessor.Context.DropName | general/mpp.cpp:309-310 | The name starting here is discarded |
| Preprocessor.Context.Keyword | general/mpp.cpp:313-340 | After copying white space, tells whether the keyword comes next; it aborts exactly when the input is exhausted there |
| Preprocessor.Context.Sees | general/mpp.cpp:343-388 | After copying white space, tells whether the given character comes next |
| Preprocessor.Context.GetArrayType | general/mpp.cpp:629-647 | Answers exactly what the reference reader finds, `<name>` with a name of name characters, and stops where it does; its failures are the reader's diagnostics |
| Preprocessor.Context.ArrayTypeName | general/mpp.cpp:637-645 | After white space, a missing name fails with "no type found while in get_array_type", and a missing `>` after the name with "no '>' while in get_array_type"; otherwise answers the name run itself and stops past the `>` |
| Preprocessor.Context.ArgStrings | general/mpp.cpp:418-560 | One turn of the `kerArgs` loop grows each kernel string by the argument's entry |
| Preprocessor.Context.DeriveAll | general/mpp.cpp:408-561 | The `kerArgs` loop builds the reference kernel strings of the argument list |
| Preprocessor.Context.KerArgs | general/mpp.cpp:403-567 | With `MFEM_KERNEL` on, the kernel strings are rebuilt from the arguments, a single-source kernel adding its own template parameters; otherwise nothing changes |
| Preprocessor.Context.ArgMark | general/mpp.cpp:664-686 | A mark is taken exactly when `*`, `&`, `,` or `(` comes after white space: `*` marks a pointer, `&` a reference, `(` opens a nesting level, each consumed; otherwise everything stays as it was |
| Preprocessor.Context.ArgWord | general/mpp.cpp:689-708 | `const` and `__restrict` set their flag; type names set the type; each is written out. `Array` reads `<T>` with the reference reader and sets the type `Array<T>`, failing where the reader does. Any other name changes nothing |
| Preprocessor.Context.ArgTurn | general/mpp.cpp:662-732 | One turn of the loop does what the reference turn says: it moves to the same place with the same arguments recorded |
| Preprocessor.Context.ArgWordTurn | general/mpp.cpp:686-732 | A turn that reads a word does what the reference turn says |
| Preprocessor.Context.ArgName | general/mpp.cpp:709-732 | A turn that has read a name does what the reference turn says |
| Preprocessor.Context.ArgSeparator | general/mpp.cpp:724-731 | The separator does what the reference separator says, and stops where it does |
| Preprocessor.Context.ArgDefault | general/mpp.cpp:714-723 | A default exists exactly when `=` follows the name; its value is that of the digits read, written in decimal so that it reads back as the same value; a missing number fails with "unknown number" |
| Preprocessor.Context.KerGetArgs | general/mpp.cpp:650-736 | Records exactly the arguments the reference reader reads and stops where it does, failing where it fails. The list is empty exactly when it is `void`, which answers `empty`; otherwise it stops at the closing `)` |
| Preprocessor.Context.ArgList | general/mpp.cpp:662-732 | The loop records exactly the arguments of the reference loop, stops where it does and fails where it fails; `empty` is answered exactly when the first turn closes the list |
| Preprocessor.Context.KerAmpFromPtr | general/mpp.cpp:739-764 | Writes one alias line per pointer-like argument, in order |
| Preprocessor.Context.KerPrefix | general/mpp.cpp:570-596 | With `MFEM_KERNEL` on, writes the prologue and starts counting blocks at depth 0; otherwise nothing changes |
| Preprocessor.Context.KerPostfix | general/mpp.cpp:599-627 | With `MFEM_KERNEL` on, the depth follows the automaton. When it fires, the epilogue is written and the kernel is closed; otherwise nothing is written. With it off nothing changes |
| Preprocessor.Context.SingleSourceParams | general/mpp.cpp:783-791 | Answers the text between `<` and the next `>`, the reference reader's. A missing `<` fails with its message; a missing `>` aborts |
| Preprocessor.Context.TemplateParams | general/mpp.cpp:776-792 | Without a name next fails with "name w/o alnum 1st letter"; otherwise answers the text between the angle brackets after the `template` word, with the reader's failures |
| Preprocessor.Context.KernelStart | general/mpp.cpp:770-775 | Fails exactly when none of `void`, `static` or `template` comes after the white space: an abort at the end of the input, "kernel w/o void, static or template" otherwise |
| Preprocessor.Context.SingleSourceHead | general/mpp.cpp:776-792 | Without `template` next nothing happens; otherwise answers the text between the angle brackets after it, failing where the reader does |
| Preprocessor.Context.StaticWord | general/mpp.cpp:793 | After white space a `static` word is taken in; the end of the input aborts |
| Preprocessor.Context.KernelHead | general/mpp.cpp:769-794 | Answers exactly what the reference head reader finds: template parameters exactly when `template` comes first, the text between its angle brackets. Stops and fails where it does |
| Preprocessor.Context.KernelName | general/mpp.cpp:795-802 | Answers exactly the name the reference reader finds, a non-empty run of name characters, or fails with "name w/o alnum 1st letter" |
| Preprocessor.Context.KernelParams | general/mpp.cpp:803-815 | Records exactly the arguments of the reference reader and stops right after the `{` of the body, failing where it fails |
| Preprocessor.Context.KernelClose | general/mpp.cpp:809-815 | Without `)` next fails with "no last ')' in kernel"; otherwise stops right after the `{` that follows the white space and a comment, or fails with "no compound statement found": exactly what the reference reader of the list's end says |
| Preprocessor.Context.KernelDeclaration | general/mpp.cpp:767-802 | Follows the reference declaration reader: `MFEM_KERNEL` is on, the kernel is named by the declaration and is single-source exactly when its own head says `template` |
| Preprocessor.Context.KernelSignature | general/mpp.cpp:767-815 | On success the body is open and `args` are the arguments read. The kernel strings are the reference strings of this kernel's own list, `void` included, and it is single-source exactly when its own head says `template` |
| Preprocessor.Context.KernelOpen | general/mpp.cpp:816-819 | The output ends with the prologue and the alias lines; counting starts at depth 0 |
| Preprocessor.Context.Kernel | general/mpp.cpp:767-820 | Follows the reference signature reader. On success the kernel is open at depth 0 just after its `{`, named, with the reference kernel strings of its own arguments, and the output ends with the prologue and aliases |
| Preprocessor.Context.Range | general/mpp.cpp:851-878 | Reads exactly what the range grammar accepts, with its values, and fails with its message or aborts where it does |
| Preprocessor.Context.RangeItem | general/mpp.cpp:857-876 | One pass of the `do ... while` is one step of the range grammar |
| Preprocessor.Context.Span | general/mpp.cpp:860-866 | Fills in every value strictly between the last value and the new number |
| Preprocessor.Context.Embed | general/mpp.cpp:825-832 | Turns collection on. It succeeds exactly when a `{` follows, copying (and collecting) up to and including the first one, with counting at depth 0; otherwise it reaches the end and fails |
| Preprocessor.Context.CopyToBrace | general/mpp.cpp:829 | Copies up to and including the first `{`, found exactly when one exists, else to the end |
| Preprocessor.Context.EmbedPostfix | general/mpp.cpp:835-846 | With `MFEM_EMBED` on, the depth follows the automaton. When it fires on a `}`, the brace is copied, collection stops and the collected text gets a newline. When it fires elsewhere it fails with "no compound statements found" |
| Preprocessor.Context.JoinValues | general/mpp.cpp:1057-1061 | The values of a combination are written comma-joined |
| Preprocessor.Context.WriteEntry | general/mpp.cpp:1050-1062 | Writes the entry of one combination |
| Preprocessor.Context.WriteTable | general/mpp.cpp:1048-1063 | Writes the table of all combinations, in order |
| Preprocessor.Context.WriteLauncher | general/mpp.cpp:1038-1069 | Writes the launcher of the template |
| Preprocessor.Context.TemplatePostfix | general/mpp.cpp:1027-1070 | With `MFEM_TEMPLATE` on, the depth follows the automaton. When it fires on a `}`, the brace is copied, the directive closed and the launcher written. When it fires elsewhere it fails with "no compound statements found" |
| Preprocessor.Context.PutBrace | general/mpp.cpp:1033-1034 | The closing brace is copied |
| Preprocessor.Context.CloseTemplate | general/mpp.cpp:1033-1069 | The brace is copied, the directive closed and the depth set to -2, and the launcher written |
| Preprocessor.Context.TemplateMark | general/mpp.cpp:893-907 | A mark is taken exactly when `*` or `,` comes next: `*` marks the argument a pointer and is consumed, a `,` is consumed; the argument text gains the white space and the mark |
| Preprocessor.Context.CopyMark | general/mpp.cpp:893-907 | The character is consumed exactly when it comes next, after white space and a comment; the argument text gains the white space and the character |
| Preprocessor.Context.TemplateArgTurn | general/mpp.cpp:893-922 | One turn inside an argument does what the reference turn says; the argument text only grows |
| Preprocessor.Context.TemplateWordStep | general/mpp.cpp:908-922 | A turn that reads a word does what the reference turn says |
| Preprocessor.Context.TemplateWord | general/mpp.cpp:908-922 | `MFEM_RANGE` reads a range list into the argument and makes it a ranged one, failing where the list is rejected. `const` and type names are recorded. Any other name is left alone |
| Preprocessor.Context.RecordTemplateArg | general/mpp.cpp:924-948 | A runtime argument is pushed to `args` and its text added to the signature; a ranged one is recorded as ranged. The launcher's parameters grow in both cases, with the trailing comma rule of the source |
| Preprocessor.Context.TemplateSeparator | general/mpp.cpp:949-958 | Tracks the parenthesis count. A `)` at level 0 ends the list without consuming it; otherwise a `,` is required and consumed, else it fails with "no coma while in args"; the end of the input aborts |
| Preprocessor.Context.TemplateArgument | general/mpp.cpp:891-924 | Reads exactly the argument the reference reader reads and stops where it does, failing where it fails; the argument text only grows |
| Preprocessor.Context.TemplateArgsTurn | general/mpp.cpp:924-958 | One argument and its separator do what the reference turn says, keeping the template strings consistent with the arguments gathered |
| Preprocessor.Context.TemplateArgsAfter | general/mpp.cpp:924-958 | Recording an argument and reading its separator do what the reference step says |
| Preprocessor.Context.TemplateArgsSeparator | general/mpp.cpp:949-958 | The separator does what the reference separator says |
| Preprocessor.Context.TemplateArgsLoop | general/mpp.cpp:891-959 | Records exactly the runtime and ranged arguments of the reference loop, stops where it does and fails where it fails; the template strings stay consistent with the arguments gathered |
| Preprocessor.Context.TemplateGetArgs | general/mpp.cpp:881-960 | Records exactly the runtime and ranged arguments of the reference reader, a `void` list aborting; on success the runtime arguments carry no range and each ranged one a non-empty range. The template strings are consistent with them, and nothing else of the kernel changes |
| Preprocessor.Context.TemplateStart | general/mpp.cpp:967-970 | Succeeds exactly when `void` or `static` comes next, answering whether it is `static`; otherwise it fails with "template w/o void or static" or aborts at the end |
| Preprocessor.Context.KeywordAgain | general/mpp.cpp:967-968 | Tells whether the keyword comes next, changing nothing; aborts exactly at the end of the input |
| Preprocessor.Context.TemplateReturnType | general/mpp.cpp:970-976 | The return type is exactly the text read |
| Preprocessor.Context.TemplateDeclaration | general/mpp.cpp:965-984 | Answers exactly the name and return type of the reference declaration reader and stops right after the `(`, failing where it fails |
| Preprocessor.Context.TemplateWords | general/mpp.cpp:967-984 | The words of the declaration, past its comment, are those of the reference reader |
| Preprocessor.Context.TemplateName | general/mpp.cpp:977-984 | Without a name next fails with "name w/o alnum 1st letter"; otherwise answers the name run and the return type extended by the white space after it, and stops after `(`, or fails with "no 1st '(' in kernel" |
| Preprocessor.Context.TemplateArgs | general/mpp.cpp:986-996 | Records exactly the arguments of the reference reader and stops past the `)`. The signature ends with `)`, and the head of `__<name>` is written |
| Preprocessor.Context.TemplateSignature | general/mpp.cpp:963-996 | Turns the directive on. Follows the reference signature reader: name, return type, runtime and ranged arguments; the strings are consistent with them from an empty template, and the head is written |
| Preprocessor.Context.TemplateOpen | general/mpp.cpp:998-1003 | Succeeds exactly when `{` follows the white space, which is copied, and counting starts at depth 0; otherwise it fails with "no compound statement found" |
| Preprocessor.Context.Template | general/mpp.cpp:963-1004 | Follows the reference signature reader; succeeds exactly when `{` comes after it, opening the body at depth 0. The output ends with the head of `__<name>` and the copied text up to `{`; the ranged arguments are those whose combinations the launcher lists |
| Preprocessor.Context.Tokens | general/mpp.cpp:1075-1084 | Without `MFEM` next nothing happens. The three directives turn their flag on. Any other `MFEM...` word is written out and collected exactly when `MFEM_EMBED` is on |
| Preprocessor.Context.AtEof | general/mpp.cpp:1087-1093 | At the end answers true and changes nothing; otherwise copies one character |
| Preprocessor.Context.Round | general/mpp.cpp:1103-1110 | With no `MFEM` word and no directive open, a round only copies a comment |
| Preprocessor.Context.Preprocess | general/mpp.cpp:1096-1113 | Success consumes the whole input. An input with no `MFEM` word is reproduced character for character after the header, its newlines counted, with no embedded text |
| Preprocessor.Context.Declared | general/mpp.cpp:769-792 | Defines the kernel state after a declaration is read: the name, and the single-source flag and parameters from this kernel's own head |
| Preprocessor.Context.Rebuilt | general/mpp.cpp:403-567 | Defines the kernel state after `kerArgs`: the strings derived from the argument list |
| Findings.LineCommentAsWritten | general/mpp.cpp:211-214 | The loop as written, for a bounded number of rounds, stays within the input |
| Findings.LineCommentAtEndLoops | general/mpp.cpp:211-214 | A line comment without a newline after it never stops, writing one character per round |
| Findings.LineCommentAtEndExample | general/mpp.cpp:211-214 | `//` at the end of the file: after three rounds the loop still runs, having written 0xFF three times |
| Findings.LineCommentAgrees | general/mpp.cpp:211-214 | When a newline follows, the loop as written copies exactly what the corrected method copies |
| Findings.EmbedAsWritten | general/mpp.cpp:825-832 | The loop as written, for a bounded number of rounds, stays within the input |
| Findings.EmbedWithoutBraceLoops | general/mpp.cpp:829 | With no `{` ahead the loop never stops, writing one character per round |
| Findings.EmbedWithoutBraceExample | general/mpp.cpp:829 | ` x` at the end: after four rounds the loop still runs, having written 0xFF twice |
| Findings.EmbedAgrees | general/mpp.cpp:829 | With a `{` ahead, the loop as written copies exactly what the corrected method copies |
| Findings.SizeProductPositive | general/mpp.cpp:1007-1024 | Non-empty ranges give a non-empty product |
| Findings.TableLeavesHex | general/mpp.cpp:1048-1055 | Every template launcher writes at least one key with `std::hex`, leaving the stream in hexadecimal |
| Findings.StickyHexDefault | general/mpp.cpp:722 | After a template, a default value of 10 is written `a`. Values below 10 come out unchanged |
| Findings.StringsAsWritten | general/mpp.cpp:657-661 | As written, a `void` list returns before `kerArgs`, so the kernel strings stay as the previous kernel left them; any other list rebuilds them |
| Findings.VoidKernelKeepsStrings | general/mpp.cpp:657-661 | After a kernel with an argument `n`, a `void` kernel still has `n` in its `args` string, where its own (empty) list gives the empty string |
| Findings.SingleSourceAsWritten | general/mpp.cpp:781 | As written, `__single_source` is on after a kernel exactly when it was already on or this kernel is a template |
| Findings.StickySingleSource | general/mpp.cpp:781 | A template kernel followed by a plain kernel leaves the plain one single-source, so its strings carry the earlier template parameters |

## Left out

- `main` (general/mpp.cpp:1118-1160) is not modelled: argument handling, opening and removing files, usage messages. The input is a string and the output a string.
- `help` and the `DBG` macro only print.
- `std::hash<int>` and `std::hash<size_t>` are taken to be the identity modulo 2^64, as in the common standard libraries. The standard leaves them to the implementation.
- The code the directives write (the `kernel::kernel` just-in-time compiler, the `unordered_map` caches, the `extern "C"` entry point, the `union_du` reinterpretation of a `double`) is modelled only as text. What it does at run time lives in other files.
- Stream states are not modelled: `eofbit`, `failbit`, `unget` and `good`. Looking ahead is reading a slice of the input. An `assert` on the end of the input fails exactly when the input is exhausted there.
- Default values and range values are unbounded numbers. The 32-bit `int` of `atoi` and of `arg.range.back()+1` does not overflow in the model.
- `is_right_parenthesis` (general/mpp.cpp:367-372) is never called and is not modelled.
- Text.StrRnc: matches any character `c`. The source compares a plain `char` with an `unsigned char` (general/mpp.cpp:140, 146), so where `char` is signed a `c` of 128 or more never matches. The only caller (general/mpp.cpp:1133) passes `'.'`.
- Preprocessor.Context.KerGetArgs: the source runs `kerArgs` at the end of a non-`void` list; here `KernelSignature` does it right after the list is closed, for a `void` list too (see Findings). Nothing between the two reads or changes the kernel strings.
- Preprocessor.Context.GetArrayType: does not state what is written to the output.
- Preprocessor.Context.TemplateParams: does not state the output.
- Preprocessor.Context.KernelParams: does not state the output between the parentheses.
- Preprocessor.Context.TemplateArgument: the argument text is stated only to grow.
- Preprocessor.Context.TemplateArgTurn: the argument text is stated only to grow.
- Preprocessor.Context.PeekId: `peekid` copies at most 64 characters into a buffer of 64 and builds a `string` from it, which has no terminating NUL when the name has 64 characters or more; what the source does then is undefined. The model takes the first 64 characters.
- Preprocessor.Context.TemplateGetArgs: states the launcher's parameters and the signature only as what each argument appends, not as one closed formula.
- Preprocessor.Context.TemplateSignature: sets the return type once after reading it, where the source appends to `return_t` piece by piece. The final value is the same.
- Preprocessor.Context.Tokens: for the three directives, states only the flag, progress and the depth on success, not the text written.
- Preprocessor.Context.Round: its effect is stated only when no `MFEM` word comes and no directive is open.
- Preprocessor.Context.Preprocess: the output is characterised only for an input without `MFEM` words.
- The check "no last ')' in kernel" in `__template` (general/mpp.cpp:988) cannot fail, because `templateGetArgs` returns only at a `)` that it has not consumed. It is not modelled. The same check in `__kernel` (general/mpp.cpp:810) can fail after a `void` list and is modelled by `KernelClose`.
- The model follows these behaviours of the code:
  - An input that ends inside a directive body is not an error in the code. The postfix simply never fires.
  - Only newlines written through `put` are counted. White space dropped or moved into a string by `drop_space` and `skip_space(pp, s)` is not counted.
  - A name may start with a digit, since `is_id` uses `isalnum`.

## Findings

| source | as written | input that shows it | evidently intended | confidence | as-written member | corrected member |
|---|---|---|---|---|---|---|
| general/mpp.cpp:211-214 | `singleLineComments` loops while the peeked character is not a newline; at the end of the input `peek` answers `EOF` forever | a file ending in a `//` comment without a final newline | stop at the newline or at the end of the input | not executed | Findings.LineCommentAtEndLoops | Preprocessor.Context.SingleLineComments |
| general/mpp.cpp:825-832 | `__embed` puts characters until one of them is `{`; at the end of the input `get` answers `EOF` (0xFF) forever | `MFEM_EMBED` with no `{` after it | fail with a diagnostic when no body follows | not executed | Findings.EmbedWithoutBraceLoops | Preprocessor.Context.Embed |
| general/mpp.cpp:1055 | each table key is written with `std::hex`, which stays set on the output stream, so a later `pp.out << arg.default_value` (line 722) writes hexadecimal | an `MFEM_TEMPLATE` kernel followed by an `MFEM_KERNEL` with an argument `= 10` | the default is written in decimal, as it was read | not executed | Findings.StickyHexDefault | Preprocessor.Context.ArgDefault |
| general/mpp.cpp:657-661 | a `void` list returns from `kerGetArgs` before `kerArgs` runs (line 734), so the kernel strings stay those of the previous kernel | `MFEM_KERNEL void f(int n)` followed by `MFEM_KERNEL void g(void)` | every kernel's strings are built from its own argument list | not executed | Findings.VoidKernelKeepsStrings | Preprocessor.Context.KernelSignature |
| general/mpp.cpp:781 | `__single_source` is set for a template kernel and cleared only when a new file starts (line 1102) | a `template<...>` kernel followed by a plain `void` kernel | a kernel is single-source exactly when its own head says `template` | not executed | Findings.StickySingleSource | Preprocessor.Context.KernelSignature |
