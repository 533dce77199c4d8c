# Verified models of llama.cpp's host-side algorithms

This project models the parts of llama.cpp that are algorithms in their own right rather than calls into a
tensor library, and proves what they are for. It covers these places of the repository:

- **LoRA factor algebra** (`convert_lora_to_gguf.py`). A weight delta is kept as two factors A and B, and every
  operation on it acts on the factors. `Tensors`, `Lora`, `LoraJoins` and `LoraPrograms` prove that any program of
  the supported operations gives factors whose product is the same program run on the product, and find out exactly
  where reshapes, subscripts and concatenations silently return something else; `LoraFailures` has an input for each.
  `LoraEntries` and `LoraPieces` say of each operation, in the terms of Python and torch, which shape and which entries
  the product has afterwards, and when the operation succeeds.
- **Streaming chat output** (`common/chat-peg-parser.cpp`, `common/chat.cpp`, `common/chat.h`). `Quotes` is the
  scanner that turns Python-style values into JSON, `PythonValues` what it makes of the values Python writes. `Mapper` is
  the event-driven mapper with the fields of the C++ class, `MapperStreams` and `MapperCalls` its runs, `MapperFields`
  which field everything ends in, `Gemma` and `GemmaFields` the mapper of partial Gemma 4 trees, and `Chat` the
  differ, the client and the tool-call ids; `ServerTask` is the server's task state (`tools/server/server-task.cpp`)
  with the variant that holds tool-call names back, and `Turns` the builder that folds tool answers into Gemma 4 turns.
  The main results are about whole streams: output only grows, no diff throws, and the client ends with the final
  message.
- **Message delimiters** (`Delimiters`): splitting tokens into spans with skipped regions.
- **Base64** (`Base64`): encoding, decoding with a detected alphabet, decoding in place.
- **Legacy model files** (`Ggml`, `GgmlBlocks`, `GgmlFiles`, `GgmlCuts`): the reader of GGML, GGMF and GGJT files
  against a writer and the block structures of every tensor type, for whole files and for every prefix of one.
- **String algorithms** (`Glob`, `Lcs`, `Strings`, `Escapes`): the glob matcher, the longest common substring, split,
  join and replace, and unescaping in place.
- **Repository ids** (`HfCache`): the id automaton and the two translations between ids and folder names.
- **Marker-aligned diff** (`DiffSplit`, `DiffEnds`): the segment tokenizer, the matching loop with its repairs, and
  that everything in common is taken out.
- **Command line** (`Args`, `ArgsReading`, `Csv`): the two hand-duplicated argument loops, what a command line means,
  and the CSV row parser.

`Json` writes out the string escaping of section 7 of RFC 8259 character by character, a compact printer, and an
independent reader (sections 2 to 7); it is the yardstick for every claim about JSON text. `Text` holds trimming and
small facts about strings, `Wrappers` the two failure-carrying datatypes.

Code that works by changing things is modelled by classes, arrays and loops, each method proved against a function
on values; what the program promises is then proved about those functions. C++ exceptions and Python exceptions are
`Result` values. Strings are sequences of characters where the program only compares them, and sequences of bytes or
signed `char` values where it does arithmetic on them.

## Findings

Where a property one would expect does not hold of the code, the code is kept and the exact condition is proved:

- `calculate_diff_split` does not look at its "consumed" flags after the loop. The split puts its inputs together
  again if and only if no segment is matched twice (`DiffSplit.DecomposesExactly`); `<a><b>` against `<a><b><b>` is
  reported as no difference (`DiffSplit.DifferenceMissed`).
- The reader of legacy model files accepts a file whose last tensor is cut short and returns an offset behind the
  end of the data (`GgmlFiles.LoadInverts`; a file without any byte of its only tensor: `GgmlFiles.TruncatedLoads`).
  A file cut inside the name of a tensor loads too, and gives the tensor a shorter name (`GgmlCuts.NameCut`). For every
  prefix of a written file `GgmlCuts.LoadCut` says which load (the cut falls inside no tensor's first twelve bytes and
  dimensions, and the feed-forward tensor is found before it), what is read (the tensors that begin before the cut, the
  last with what is left of its name), and that the recorded ranges lie in the prefix if and only if the cut is at the
  end of a tensor. The length of a tensor is computed right if and only if its size fits 63 bits
  (`Ggml.SizeExactly`; `Ggml.SizeWraps`). The table of sizes it uses agrees with the block structures of
  `ggml/src/ggml-common.h` for every type but Q8_1, which it takes for four bytes longer (`GgmlBlocks.SizesExactly`).
- `normalize_quotes_to_json` is monotone along a growing input exactly for cuts that do not separate a backslash from
  a single quote and do not turn a rewritten word into a longer one (`Quotes.NormalizeMonotone`; one input of each
  kind: `Quotes.OutputShrinks`), and a streamed untyped argument extends exactly then
  (`MapperStreams.ValueGrowsExactly`). A streamed string argument extends unless an empty piece turns up while a piece
  is open (`MapperStreams.StringGrowsExactly`, `MapperStreams.StringShrinks`).
- Four operations on LoRA factors raise no error and return factors that do not multiply to the reported shape, or not
  to the operation on the product: a slice of the first of three or more dimensions (`LoraPrograms.FirstExact`), a tuple
  with a slice that shortens a batch dimension of A (`LoraPrograms.TupleExact`), a concatenation along three or more
  dimensions (`LoraPrograms.CatExact`), and a reshape of factors of rank 0 (`LoraPrograms.ReshapeExact`). An ellipsis
  before the end of a tuple becomes as many slices as there are other entries, which is what torch makes of it only for some
  numbers of dimensions, and too many when the entries cover more than half (`LoraPrograms.EllipsisExact`). Inputs are
  in `LoraFailures`.
- With tool-call names held back, a client ends with the server's message if and only if no call is given another name
  by a parse result after it was announced (`ServerTask.FilteredExactly`, a condition on the parse results alone); a
  name that arrives in two parts, the first beside some text, stays short (`ServerTask.NameCutShort`). No caller in the
  repository turns the filtering on (`tools/server/server-task.h:129-133`).
- A repository id is recovered from its folder name exactly when no dash stands before a dash or a slash
  (`HfCache.RepoRoundTrip`); `a-/b` and `a/-b` share a folder (`HfCache.SharedFolder`).
- The Gemma 4 turn builder drops the content that stands beside tool calls, and the reasoning of the final message it
  absorbs; where every turn can be built, a history keeps everything it says, in order, exactly if there is none
  (`Turns.ConversionKeeps`, `Turns.ContentLost`).
- `common_params_to_map` stops at options with two values, which the parsing loop accepts (`Args.MapExactly`,
  `Args.PairRejected`), and goes on where a handler throws, which it does not call.

## Model

| member | source | states |
|---|---|---|
| LoraPrograms.ProgramCorrect | convert_lora_to_gguf.py:40-276 | for every program of reshape, permute, transpose, split, subscripts, scale, stack and cat whose steps meet the exact conditions of the rows below, the product of the resulting factors is the same program run on the product, and the constructor's assertions never fail |
| LoraPrograms.ReportedShape | convert_lora_to_gguf.py:121-124 | the reported shape of such a program's factors is the shape of the matrix the program computes |
| LoraEntries.MatrixProduct | convert_lora_to_gguf.py:41-55 | in two dimensions the matrix meant is B times A: every entry is a row of B against a column of A |
| LoraEntries.BatchProduct | convert_lora_to_gguf.py:41-55 | in more dimensions it is the product of the batches, where unit dimensions of A repeat |
| LoraEntries.TransposeEntries | convert_lora_to_gguf.py:181-184 | after `transpose` the shape has two entries exchanged, and the entry at an index is the one before at the index with these two exchanged |
| LoraEntries.PermuteEntries | convert_lora_to_gguf.py:171-179 | after `permute` dimension `i` is the dimension the list names `i`-th, and every entry has moved along |
| LoraEntries.TransposeSucceeds | convert_lora_to_gguf.py:171-184 | when `transpose` succeeds: both dimensions are in range, and either two dimensions of a matrix are meant or the batch dimensions of A are units and the last dimension stays |
| LoraEntries.PermuteSucceeds | convert_lora_to_gguf.py:171-179 | when `permute` succeeds, likewise for a list that is an ordering of the dimensions |
| LoraPieces.ReshapeEntries | convert_lora_to_gguf.py:136-160 | a reshaped matrix has the requested shape and the same entries in row-major order |
| LoraPieces.ReshapeSucceeds | convert_lora_to_gguf.py:136-160 | when `reshape` succeeds: with -1 filled in the columns stay, the rows of B fit, and A has no batches of its own, with less asked of factors without entries |
| LoraPieces.SliceEntries | convert_lora_to_gguf.py:72-76 | slot `k` of a slice is the position Python reads there, for negative, absent and out-of-range bounds, and there are as many slots as positions before the stop |
| LoraPieces.PositionEntries | convert_lora_to_gguf.py:67-71 | a position drops the first dimension and reads one place of it, counted from either end |
| LoraPieces.FirstSucceeds | convert_lora_to_gguf.py:66-76 | a slice succeeds exactly with a positive step, and a position exactly on three or more dimensions, inside the first one of both factors |
| LoraPieces.TupleEntries | convert_lora_to_gguf.py:77-112 | every entry of a tuple subscript is the entry the positions and slices of the tuple read |
| LoraPieces.TupleSucceeds | convert_lora_to_gguf.py:77-112 | a tuple with slices for row and column succeeds exactly if it has as many entries as dimensions and each is usable in its own |
| LoraPieces.SplitEntries | convert_lora_to_gguf.py:186-205 | part `k` of `split` is as long as its section, and holds the entries from the sum of the sections before it on |
| LoraPieces.SplitSucceeds | convert_lora_to_gguf.py:186-205 | `split` has a part `k` exactly for a dimension in range whose sections add up to it, or that is cut into parts of a positive size or is empty |
| LoraPieces.StackEntries | convert_lora_to_gguf.py:240-248 | a stack has a new first dimension that counts the parts, with each part's entries behind its number |
| LoraPieces.StackSucceeds | convert_lora_to_gguf.py:240-248 | when `stack` succeeds: the factors of all parts have the same shapes |
| LoraPieces.CatEntries | convert_lora_to_gguf.py:249-266 | in a concatenation every part stands behind the rows of the parts before it |
| LoraPieces.CatSucceeds | convert_lora_to_gguf.py:249-266 | when `cat` succeeds: the factors differ in the first dimension only, and two-dimensional parts share their A |
| LoraPieces.ScaleEntries | convert_lora_to_gguf.py:210-218 | scaling multiplies every entry by the multiplier there, unit dimensions of either side repeating |
| LoraPieces.ScaleSucceeds | convert_lora_to_gguf.py:210-218 | which multipliers are accepted: numbers, and tensors whose last dimension is 1 and whose others fit those of B |
| LoraPrograms.TupleExact | convert_lora_to_gguf.py:77-112 | where the expansion is torch's, a tuple subscript that succeeds leaves the subscripted product if and only if rows and columns are slices and every slice of a batch dimension A does not repeat keeps its length |
| LoraPrograms.TupleShapesExact | convert_lora_to_gguf.py:99-112 | with slices of rows and columns the factors left multiply to the reported shape if and only if no batch slice shortens a dimension of A, which is not sliced |
| LoraPrograms.TuplePositions | convert_lora_to_gguf.py:99-112 | a position for the row or the column alone never succeeds, and positions for both leave one dimension too many |
| LoraPrograms.TupleCorrect | convert_lora_to_gguf.py:77-112 | a tuple subscript under that condition never fails the constructor's assertions, and where it succeeds it is the subscript of the product |
| LoraPrograms.FirstCorrect | convert_lora_to_gguf.py:66-77 | a single subscript on the factors is the subscript on the product |
| LoraPrograms.FirstExact | convert_lora_to_gguf.py:66-77 | which slices of the first of three or more dimensions leave factors that still multiply to the reported shape: exactly the safe ones |
| LoraPrograms.EllipsisExact | convert_lora_to_gguf.py:79-96 | when the expansion of an ellipsis that is not the last entry is the one torch makes: exactly if the other entries cover half the dimensions, or fewer with full slices behind the ellipsis |
| LoraPrograms.TrailingEllipsis | convert_lora_to_gguf.py:78-96 | an ellipsis at the end is expanded as torch does unless it stands alone |
| LoraPrograms.ReshapeExact | convert_lora_to_gguf.py:136-160 | a reshape that succeeds is the reshape of the product, except for factors of rank 0 and a shape with another number of elements |
| LoraPrograms.SplitCorrect | convert_lora_to_gguf.py:186-205 | every part `split` returns is the part of the product, along rows, columns and batch dimensions |
| LoraPrograms.CatExact | convert_lora_to_gguf.py:249-266 | concatenating three or more dimensions leaves factors that multiply to the reported shape exactly if every A spans the first dimension of its B, or all parts but one are empty, or the A's together happen to be as long as the B's, which takes an empty part |
| LoraPrograms.CatCorrect | convert_lora_to_gguf.py:249-266 | under the first two conditions, and for two dimensions always, concatenating the factors concatenates the products |
| Lora.MultipliesAsReported | convert_lora_to_gguf.py:121-124 | the condition on the shapes used throughout holds exactly if torch broadcasts the batch dimensions of the factors to those the shape property reports |
| LoraFailures.FirstGoesWrong | convert_lora_to_gguf.py:72-74 | a slice of a batch A repeats, after which the factors multiply to no batch while one is reported |
| LoraFailures.TupleGoesWrong | convert_lora_to_gguf.py:99-112 | a tuple that slices a batch A does not repeat, after which the factors multiply to two batches while one is reported |
| LoraFailures.CatGoesWrong | convert_lora_to_gguf.py:254-258 | two parts whose A repeats, after which the factors do not multiply |
| LoraFailures.CatMisaligned | convert_lora_to_gguf.py:254-258 | two parts, one of them empty, after which the factors multiply to the reported shape but not to the concatenated products |
| LoraFailures.EllipsisGoesWrong | convert_lora_to_gguf.py:82-96 | `[..., :, :]` on three dimensions becomes four entries, and `[..., 0]` picks the second dimension |
| LoraFailures.ReshapeGoesWrong | convert_lora_to_gguf.py:152-160 | factors of rank 0 with two rows take the shape of five, which torch refuses for the product |
| Lora.ReshapeDense | convert_lora_to_gguf.py:136-160 | reshaping the factors reshapes the product, entry by entry in row-major order, for every rank but 0 and for rank 0 exactly if the number of elements stays |
| Lora.PermuteDense | convert_lora_to_gguf.py:171-184 | permuting the factors, or exchanging and permuting them for a matrix, permutes the product |
| Lora.SubscriptedDense | convert_lora_to_gguf.py:100-116 | gathering aligned entries of both factors gathers the product |
| LoraJoins.StackDense | convert_lora_to_gguf.py:240-248 | stacking factors stacks products |
| LoraJoins.ScaleDense | convert_lora_to_gguf.py:210-218 | scaling B on the output side scales the product |
| LoraJoins.CatDense | convert_lora_to_gguf.py:249-266 | concatenating factors concatenates products, with one shared A or batch-wide A's |
| Quotes.NormalizeQuotesToJson | common/chat-peg-parser.cpp:83-185 | the scanner computes the normalised form turn by turn |
| Quotes.WordAt | common/chat-peg-parser.cpp:161-164 | the inner loop finds the length of the word at a position |
| Quotes.NormalizeTwice | common/chat-peg-parser.cpp:83-185 | normalising is idempotent on every input |
| Quotes.NormalizedDepth | common/chat-peg-parser.cpp:41-67 | the brace depth of the output is the balance of braces outside both kinds of strings of the input |
| Quotes.NormalizeMonotone | common/chat-peg-parser.cpp:152-180 | the output grows with the input exactly at clean cuts |
| Quotes.OutputShrinks | common/chat-peg-parser.cpp:152-180 | two cuts at which the output does not grow |
| Quotes.JsonBraceDepth | common/chat-peg-parser.cpp:41-67 | the loop computes the balance of braces outside double-quoted strings |
| PythonValues.WholeWords | common/chat-peg-parser.cpp:152-180 | outside strings the whole words True, False and None become true, false and null |
| PythonValues.PythonReadsBack | common/chat-peg-parser.cpp:78-185 | every value as Python writes it, with or without spaces behind the separators, becomes JSON that parses to that value |
| Text.TrimTrailingSpace | common/chat-peg-parser.cpp:11-21 | all trailing spaces go, or as many as allowed |
| Text.TrimLeadingSpace | common/chat-peg-parser.cpp:23-33 | leading spaces go, as many as allowed |
| Text.TrimText | common/chat-peg-parser.cpp:35-37 | at most one leading space and all trailing ones go |
| Text.TrimMonotone | common/chat-peg-parser.cpp:11-21 | trimming the end keeps prefixes prefixes |
| Json.EscapeMonotone | common/chat-peg-parser.cpp:70-76 | a longer text escapes to a longer text |
| Json.ReadEscaped | common/chat-peg-parser.cpp:70-76 | escaped text followed by a quote reads back as the text |
| Json.ParsePrinted | common/chat-peg-parser.cpp:926-1018 | printed JSON reads back as the printed value |
| Mapper.PegMapper.Map | common/chat-peg-parser.cpp:277-418 | one event changes the mapper's fields as its specification says, whatever the state |
| Mapper.PegMapper.MapName | common/chat-peg-parser.cpp:320-335 | naming a call moves the buffered arguments into it and makes it visible |
| Mapper.PegMapper.MapArgName | common/chat-peg-parser.cpp:350-363 | an argument name adds a separator, the quoted trimmed name and a colon to the current target |
| Mapper.PegMapper.MapArgValue | common/chat-peg-parser.cpp:365-388 | a value is escaped inside one pair of quotes if declared a string, and normalised otherwise |
| Mapper.PegMapper.MapClose | common/chat-peg-parser.cpp:397-417 | closing ends the open string and the open braces and drops a call without a name |
| Mapper.PegMapper.Flush | common/chat-peg-parser.cpp:249-274 | what is pending is added and reasoning of spaces only is dropped |
| Mapper.PegMapper.FromAst | common/chat-peg-parser.cpp:246-275 | the message after a list of events is that of the specification's run |
| MapperFields.RunTexts | common/chat-peg-parser.cpp:282-290 | over any run the content grows by the texts of the content events in order, and the reasoning by those of the reasoning events |
| MapperFields.MessageTexts | common/chat-peg-parser.cpp:246-275 | so the message has exactly these texts, reasoning of spaces only dropped |
| MapperFields.CallFields | common/chat-peg-parser.cpp:304-335 | a call adds one entry behind the others, with the name and the id given last, or nothing if it is never named |
| MapperFields.ObjectCall | common/chat-peg-parser.cpp:337-348 | arguments that come as one object are kept as they are, with open braces closed |
| MapperFields.IdIs | common/chat-peg-parser.cpp:312-318 | the id of a call is the text between its quotes, or the text itself, without trailing spaces |
| MapperStreams.WellFormedDefined | common/chat-peg-parser.cpp:277-418 | a well-formed run never uses a discarded call |
| MapperStreams.StepKeeps | common/chat-peg-parser.cpp:277-418 | every event in order keeps the invariant and only extends the message |
| MapperStreams.MessageGrows | common/chat-peg-parser.cpp:246-418 | the message of a later, longer view of a parse extends that of an earlier one |
| MapperStreams.VisibleRun | common/peg-parser.cpp:318-327 | the untagged nodes the visit also reaches change neither the run nor whether it is well-formed |
| MapperStreams.PrefixLater | common/chat-peg-parser.cpp:246-418 | every prefix of a well-formed run is an earlier view of it |
| MapperStreams.GrowsAboveItsNodes | common/peg-parser.cpp:852-876 | a view in which a value has grown while the untagged nodes below it changed is a later view, whatever follows |
| MapperStreams.ValueGrowsExactly | common/chat-peg-parser.cpp:382-387 | a growing untyped value extends the message exactly when the cut is clean |
| MapperStreams.StringGrowsExactly | common/chat-peg-parser.cpp:369-381 | a growing string value extends it unless an empty piece turned up while a piece was open |
| MapperStreams.StringShrinks | common/chat-peg-parser.cpp:369-381 | a call in which it does not |
| MapperStreams.ClientEndsWithFinalMessage | common/chat.cpp:264-330 | over a whole stream of views no diff throws and the client ends with the final content, reasoning and calls |
| MapperCalls.CallReadsBack | common/chat-peg-parser.cpp:304-418 | after a call is closed its arguments read back as the trimmed names and the values in order with brace depth 0, wherever the name comes, whatever text the markers have and whatever quiet events stand between |
| MapperCalls.TaggedCallReadsBack | common/chat-peg-parser.cpp:304-418 | in particular a call with one argument, for any marker texts |
| Gemma.CompleteReadsBack | common/chat-peg-parser.cpp:926-1018 | the text printed for a complete tree reads back as the value the tree stands for |
| Gemma.Grows | common/chat-peg-parser.cpp:926-1018 | the text printed for a partial tree is a prefix of the text of every completion |
| Gemma.GemmaGrows | common/chat-peg-parser.cpp:1021-1056 | the message of a later Gemma 4 parse extends that of an earlier one |
| Gemma.TreesGrow | common/chat-peg-parser.cpp:1021-1056 | the message of later trees extends that of earlier ones, with the name and arguments nodes found by the search |
| Gemma.GemmaMapper.FromAst | common/chat-peg-parser.cpp:920-924 | the loop visits every node in order |
| Gemma.GemmaMapper.VisitNode | common/chat-peg-parser.cpp:1021-1056 | the recursive visit adds the texts and the calls below a node in order, and a call only when both parts are found and its name is complete |
| Gemma.FindByTag | common/peg-parser.cpp:286-300 | the first node with the tag in a depth-first walk of limited depth |
| GemmaFields.FindIsFirst | common/peg-parser.cpp:286-300 | what the search finds is the first tagged node of the walk, and it finds nothing only if the walk has none |
| GemmaFields.FieldsOf | common/chat-peg-parser.cpp:1021-1056 | the reasoning and the content grow by the texts of the nodes of these tags in order, and the calls by those the tool nodes make, each with the name and the value below the first such nodes |
| Turns.TurnBuilder.Build | common/chat.cpp:2236-2319 | one turn: the calling message, its answers named after calls or call ids, and the final message, and how many messages it takes; or the exception, exactly if an answer cannot be named |
| Turns.TurnBuilder.CollectResult | common/chat.cpp:2266-2299 | an answer is parsed if it parses and named after the call of its place, or the exception for a name that is no text |
| Turns.ConvertToolResponses | common/chat.cpp:2339-2359 | the whole history, turn by turn, unless a turn throws |
| Turns.ConversionKeeps | common/chat.cpp:2217-2225 | where every turn can be built, converting keeps reasoning, calls, answers and content in order if and only if nothing is dropped, and every lost item is counted |
| Turns.AnswersNamed | common/chat.cpp:2266-2299 | every answer of a turn has the name of the call in its place, or without one its own call id, and its own parsed content; the builder throws exactly if an answer has no such name |
| Turns.ContentLost | common/chat.cpp:2236-2263 | content beside tool calls is always lost |
| Chat.ComputeDiffs | common/chat.cpp:264-330 | the diffs and the three errors, for every pair of messages |
| Chat.ReplayExactly | common/chat.cpp:54-67 | the differ accepts a pair and brings the client exactly to the second message if and only if the second extends the first |
| Chat.ExtendsTransitive | common/chat.cpp:264-330 | extending is transitive |
| Chat.SetToolCallIds | common/chat.h:108-119 | cached ids stay; a call behind the cache keeps its own id and otherwise gets the next generated one; as many ids are generated as such calls have none |
| Chat.IdsAreGiven | common/chat.h:108-119 | the same of the specification the streams are proved with |
| ServerTask.TaskState.UpdateChatMsg | tools/server/server-task.cpp:158-234 | one parse result changes the message, the ids, the announced calls and what is sent, with and without filtering |
| ServerTask.TaskState.FilterDiffs | tools/server/server-task.cpp:178-229 | the loop over the deltas and the check at the end of the stream |
| ServerTask.AnnouncedOnce | tools/server/server-task.cpp:178-229 | whatever is parsed, over a whole filtered stream the first delta about a call is the only one that may carry its name or id, and later ones only add arguments |
| ServerTask.ReceivedExactly | tools/server/server-task.cpp:178-229 | one filtered parse result keeps a client in step if and only if no announced call is renamed, and at the end every named call is announced |
| ServerTask.ReceivedSent | tools/server/server-task.cpp:178-229 | which calls a parse result announces, told from the result and the one before: named ones when something else moves, moved ones when they get arguments, all at the end |
| ServerTask.FilteredExactly | tools/server/server-task.cpp:158-234 | over a whole filtered stream that ends with names for all calls, no diff throws and the client ends with the server's message if and only if, along the parse results, no call is given another name after it is announced |
| ServerTask.NameCutShort | tools/server/server-task.cpp:180-192 | a stream after which the client holds a shorter name |
| Chat.StreamFaithful | tests/test-chat.cpp:1081-1103 | over a stream of growing results no diff throws, client and server agree, and no id the client has seen changes |
| Delimiters.Split | common/chat.cpp:150-182 | the spans start exactly at the unskipped matching positions, have the role of the first matching delimiter, and tile the tokens to the end |
| Delimiters.FindMatches | common/chat.cpp:153-171 | the scan ends and finds the starts in order, past regions of any length including zero |
| Delimiters.FirstMatch | common/chat.cpp:160-168 | the role of the first listed delimiter that matches, if one does |
| Delimiters.SplitUnique | common/chat.cpp:150-182 | the split is determined by these properties |
| Delimiters.Spans.IsUserStart | common/chat.h:174-181 | whether a user span starts at the position |
| Delimiters.Spans.LastUserMessagePos | common/chat.h:183-190 | the position of the last user span, or -1 |
| Delimiters.LastUserStart | common/chat.h:183-190 | that position is the greatest user start among the tokens |
| Base64.Encode | common/base64.hpp:80-144 | the loop writes the encoding of RFC 4648 with padding |
| Base64.EncodedSize | common/base64.hpp:338-341 | the encoded length is exactly the announced one |
| Base64.Decode | common/base64.hpp:200-244 | the loop decodes what the alphabet and the behaviour accept and rejects everything else |
| Base64.DecodeInplace | common/base64.hpp:294-313 | decoding into the buffer being read gives the same bytes and leaves the rest of the buffer alone |
| Base64.DecodedSize | common/base64.hpp:324-327 | no text decodes to more than the announced maximum |
| Base64.RoundTrip | common/base64.hpp:79-244 | decoding inverts encoding for every byte string, both alphabets given or detected, either behaviour, with all, some or none of the padding |
| Base64.AutoDetects | common/base64.hpp:344-389 | detecting the alphabet succeeds exactly when one of the two does, with the same bytes |
| Base64.SameBytes | common/base64.hpp:344-389 | a text both alphabets accept has the same bytes under both |
| Base64.Base64Value | common/base64.hpp:344-389 | the value of a character and the alphabet it settles, or a rejection |
| Base64.SymbolsAre | common/base64.hpp:83-86 | the two alphabets as RFC 4648 tabulates them |
| Ggml.Hyperparameters.Load | convert_llama_ggml_to_gguf.py:59-73 | the seven words, or the error |
| Ggml.Hyperparameters.SetNFf | convert_llama_ggml_to_gguf.py:53-57 | the feed-forward width is the second dimension of the last tensor of the name |
| Ggml.Vocab.Load | convert_llama_ggml_to_gguf.py:84-98 | the items, with scores where the format has them, and the bytes consumed |
| Ggml.Tensor.Load | convert_llama_ggml_to_gguf.py:110-131 | the header, the padded start and the length of a tensor, and the bytes consumed, in 64-bit arithmetic that wraps around |
| Ggml.SizeExactly | convert_llama_ggml_to_gguf.py:125-126 | the computed length is the size of the tensor if and only if the size fits 63 bits |
| Ggml.SizeWraps | convert_llama_ggml_to_gguf.py:125-126 | a tensor whose computed length is zero |
| GgmlBlocks.SizesExactly | gguf-py/gguf/constants.py:4683-4719 | the table of sizes has exactly the types that have a block structure, and the size of every block but that of Q8_1 |
| GgmlBlocks.LengthExactly | convert_llama_ggml_to_gguf.py:116-126 | for every type but Q8_1 the length of a tensor is the number of bytes its blocks take if and only if the product fits 63 bits |
| GgmlFiles.HeaderExactly | convert_llama_ggml_to_gguf.py:145-166 | a file begins with a header exactly if it begins with a magic word and, but for the oldest format, a version that exists |
| GgmlFiles.Spelled | convert_llama_ggml_to_gguf.py:145-166 | the magic words and the name of the feed-forward tensor, as texts |
| Ggml.GGMLModel.ValidateHeader | convert_llama_ggml_to_gguf.py:145-166 | the format and version, or why the file is refused |
| Ggml.GGMLModel.ValidateConversion | convert_llama_ggml_to_gguf.py:168-178 | which quantised files of which version are refused |
| Ggml.GGMLModel.Load | convert_llama_ggml_to_gguf.py:180-200 | the fields of the model and the returned offset |
| GgmlFiles.LoadInverts | convert_llama_ggml_to_gguf.py:180-200 | loading a file whose tensors are written block by block finds everything that was written and ends behind the last tensor, even if bytes of that tensor are missing |
| GgmlFiles.StoredBytes | convert_llama_ggml_to_gguf.py:125-131 | the bytes of every tensor stand where the load says |
| GgmlFiles.TruncatedLoads | convert_llama_ggml_to_gguf.py:189-194 | a file without any byte of its only tensor that loads |
| GgmlCuts.LoadCut | convert_llama_ggml_to_gguf.py:180-200 | for every prefix of a written file: whether it loads, what is read, and that the recorded ranges lie inside it exactly if the cut is at the end of a tensor |
| GgmlCuts.CutTensors | convert_llama_ggml_to_gguf.py:189-194 | the loop over the tensors reads those that begin before a cut, or stops with an error exactly if the cut falls into the part of a header that is unpacked |
| GgmlCuts.BegunExactly | convert_llama_ggml_to_gguf.py:189-194 | the tensors counted as begun are those whose place is before the cut |
| GgmlCuts.FrontMissing | convert_llama_ggml_to_gguf.py:180-188 | a file cut before its tensors never loads |
| GgmlCuts.NameCut | convert_llama_ggml_to_gguf.py:122-123 | a file that loads with a tensor named `b` instead of `bb` |
| GgmlFiles.RangesInOrder | convert_llama_ggml_to_gguf.py:189-194 | in every file that loads going forward, written or not, the ranges are increasing, disjoint and aligned for GGJT, and the last one ends at the offset the load returns |
| Glob.GlobMatch | common/common.cpp:768-812 | the matcher ends and decides exactly the language of the pattern |
| Glob.GlobMatchStrings | common/common.cpp:814-816 | the same on C++ strings, up to their first NUL |
| Glob.GlobClassMatch | common/common.cpp:727-765 | whether a character is in a class, negated or not |
| Glob.LanguageCons | common/common.cpp:768-812 | a string is in the language if and only if its first part takes a prefix and the rest takes the rest |
| Glob.SameSlashes | common/common.cpp:767-812 | a pattern without `**` and classes matches only strings with as many slashes |
| Lcs.StringLcs | common/common.cpp:469-488 | the result is a common substring, none is longer, and none of its length starts earlier in the first string |
| Lcs.CommonAt | common/common.cpp:478-481 | a table entry is the length of the longest common suffix of the two prefixes |
| Strings.StringReplaceAll | common/common.cpp:506-521 | replacing is splitting on the search string and joining with the replacement; nothing changes for an empty one |
| Strings.StringJoin | common/common.cpp:528-537 | the parts with separators between them |
| Strings.StringSplit | common/common.cpp:539-553 | the parts between the occurrences of the delimiter, from the left |
| Strings.SplitJoin | common/common.cpp:528-553 | joining a split gives the string back, and no part contains the delimiter |
| Strings.ReplacedFront | common/common.cpp:506-521 | replacing read from the front, one occurrence or character at a time |
| Escapes.ProcessEscapes | common/common.cpp:644-682 | rewriting the buffer in place gives the unescaped text |
| Escapes.RoundTrip | common/common.cpp:644-682 | processing the escapes of an escaped text gives the text, whichever bytes were written in hexadecimal, in small letters or capitals |
| Escapes.Unchanged | common/common.cpp:644-682 | a text is left alone exactly if no backslash in it stands before a named letter or mark, or before an x and two characters that are read |
| HfCache.IsValidRepoId | common/hf-cache.cpp:121-142 | the automaton accepts exactly ids whose special characters stand between base characters, with one slash |
| HfCache.RepoToFolderName | common/hf-cache.cpp:79-84 | prefix and id with slashes replaced |
| HfCache.FolderNameToRepo | common/hf-cache.cpp:69-77 | the rest with dashes replaced, or nothing without the prefix |
| HfCache.RepoRoundTrip | common/hf-cache.cpp:69-84 | an id is recovered from its folder name exactly when no dash comes before a dash or slash |
| HfCache.SharedFolder | common/hf-cache.cpp:69-84 | two ids with one folder name |
| HfCache.ValidRoundTrip | common/hf-cache.cpp:118-142 | every valid id is recovered |
| HfCache.FolderRoundTrip | common/hf-cache.cpp:69-84 | a folder name is recovered from its id exactly when it has the prefix and no slash |
| DiffSplit.SegmentizeMarkers | common/chat-auto-parser-helpers.cpp:269-299 | markers run from an opener to its first closer, everything else is text |
| DiffSplit.Lossless | common/chat-auto-parser-helpers.cpp:269-299 | the segments concatenate to the input and none is empty |
| DiffSplit.CalculateDiffSplit | common/chat-auto-parser-helpers.cpp:87-207 | the loop, the branches after it, the character comparison and the repairs, for every pair of inputs |
| DiffSplit.CommonPrefixLen | common/chat-auto-parser-helpers.cpp:69-76 | the length of the longest common prefix |
| DiffSplit.CommonSuffixLen | common/chat-auto-parser-helpers.cpp:78-85 | the length of the longest common suffix |
| DiffSplit.DecomposesExactly | common/chat-auto-parser-helpers.cpp:87-207 | the split puts both inputs together again if and only if no used-up segment is matched twice |
| DiffSplit.BothOrNeitherDecomposes | common/chat-auto-parser-helpers.cpp:114-140 | in particular whenever the loop does not mark exactly one side as used up |
| DiffSplit.EmptyDecomposes | common/chat-auto-parser-helpers.cpp:93-100 | with an empty input it always does |
| DiffSplit.DifferenceMissed | common/chat-auto-parser-helpers.cpp:142-166 | a pair of inputs on which it does not |
| DiffSplit.NoneDiffers | common/chat-auto-parser-helpers.cpp:186-190 | equal inputs give the whole input as prefix |
| DiffSplit.NoDifference | common/chat-auto-parser-helpers.cpp:186-190 | where the split is faithful it reports no difference exactly for equal inputs |
| DiffEnds.SegmentsAre | common/chat-auto-parser-helpers.cpp:269-299 | markers go from an opening bracket to the first closing one of its kind, text holds no opening bracket, and only the last segment may be left open |
| DiffEnds.PlainSplit | common/chat-auto-parser-helpers.cpp:174-207 | without brackets the split is determined: all prefix if the right input goes on from the left one; else the suffix is the longest common tail and the prefix the longest common head before it |
| DiffEnds.LoopStops | common/chat-auto-parser-helpers.cpp:114-140 | the loop stops only where a side has one segment left or neither the first nor the last segments are equal |
| DiffEnds.SegmentsDiffer | common/chat-auto-parser-helpers.cpp:142-166 | after the branches behind it a side is used up, or the segments left over differ at both ends, or two equal texts are left |
| DiffEnds.EndsDiffer | common/chat-auto-parser-helpers.cpp:87-207 | what is reported as different on both sides shares no first or last character but a bracket, and no complete marker at the front |
| Args.ParseCliArgs | common/arg.cpp:636-698 | the handler calls in order, or the argument rejected and why |
| ArgsReading.ReadExactly | common/arg.cpp:636-698 | the loop succeeds with a list of calls if and only if the arguments are these calls written down (names with dashes for underscores, the last registration of a name, then the values) and no handler throws |
| ArgsReading.OwnerIs | common/arg.cpp:594-602 | the index resolves a name to the last option that has it, positive unless it is listed as negative |
| Args.ParamsToMap | common/arg.cpp:965-1029 | the map filled, or the argument rejected and why |
| Args.BuildSignedIndex | common/arg.cpp:594-602 | later registrations of a name replace earlier ones, with their sign |
| Args.BuildPlainIndex | common/arg.cpp:969-977 | later registrations of a name replace earlier ones |
| Args.IndexesAgree | common/arg.cpp:594-602 | both indexes resolve a name to one option, and the registered sign is the one found by searching the negative names |
| Args.LoopsAgree | common/arg.cpp:636-698 | for every option table and command line the loops accept with the same entries or reject at the same argument for the same reason, up to throwing handlers and two-valued options |
| Args.MapExactly | common/arg.cpp:965-1029 | whatever the handlers do, where the command line parses the map is filled exactly when there is no two-valued option, and it never is where parsing fails outside a handler; so with handlers that return, the map is filled exactly when the command line parses without two-valued options |
| Args.PairRejected | common/arg.cpp:1022 | a command line the parsing loop accepts and the map rejects |
| Args.LastValueWins | common/arg.h:90-101 | with distinct first names the map holds each option's last value |
| Csv.ParseCsvRow | common/arg.cpp:1127-1169 | the loop splits a row into its fields |
| Csv.RoundTrip | common/arg.cpp:1123-1169 | parsing a printed row gives its fields, for every non-empty list, with quotes where needed and anywhere else |
| Csv.PlainExactly | common/arg.cpp:1135-1143 | a text needs no quotes exactly if it has no comma and does not start with a quote |

## Left out

- LoraPrograms.ProgramCorrect: requires of every step what the methods accept without an error but get wrong otherwise; `FirstExact`, `TupleExact`, `CatExact`, `EllipsisExact` and `ReshapeExact` say exactly what that is. A scale with more dimensions than the tensor fails the constructor's assertion.
- LoraPieces.TupleEntries: stated under the conditions of `LoraPrograms.ProgramCorrect`, as are the entries after slices, reshapes and concatenations.
- PythonValues.PythonReadsBack: texts with control characters other than newline, return and tab are excluded, because Python writes them with escapes JSON does not have; a character Python does not print is written as itself here.
- LoraPrograms.SplitCorrect: a dimension out of range is an error here; torch's own error is not distinguished.
- Tensor-valued and boolean subscripts, conversion between element types, and rounding: factors are over the reals.
- Escapes of surrogate pairs and malformed UTF-8 in `Json`: a character is a whole code point, and the printer's exception on malformed bytes is not modelled.
- The PEG engine that produces the events and trees, and the templates of single models; the mapper starts from its events, in the order the parse tree is visited.
- Mapper.PegMapper.Map: requires that no event uses a call that was discarded, because the program then reads a destroyed object.
- MapperCalls.CallReadsBack: calls whose arguments come as one object or as untyped values are not read back, because their text is the language model's own; `MapperFields.ObjectCall` keeps an object as it is, and `PythonValues.PythonReadsBack` reads a value in Python's notation back.
- ServerTask.FilteredExactly: requires names for all calls of the last message; a call that never gets a name may stay unknown to the client.
- ServerTask.TaskState.UpdateChatMsg: parsing is a foreign call, its result a parameter; the assistant prefill of the constructor and the fields for other response formats are left out.
- Turns.ConvertToolResponses: fields of a message other than the six modelled are left out, and a role is a text.
- Delimiters.Split: requires disjoint regions in order; tokenizing the delimiters is a foreign call.
- Ggml.GGMLModel.Load: a tensor that ends at or before its own offset, because its length or the sum wraps around, is an error here, while the program goes back in the data and may not terminate; `GgmlFiles.RangesInOrder` inherits that.
- GgmlFiles.LoadInverts: files of less than 2^63 bytes without Q8_1 tensors, whose length the reader gets wrong, and tensors whose elements times the bytes of a block stay below 2^63; the same for `GgmlCuts.LoadCut`.
- The conversion of a loaded model to GGUF, its metadata and file I/O.
- Strings.StringSplit: requires a non-empty delimiter; with an empty one the program does not terminate.
- Glob.GlobMatch: `char` is signed, as on x86; ranges with bytes above 127 differ where it is unsigned.
- Args.LastValueWins: options without any positive name are not told apart by the program's map (`common_arg::operator<`, common/arg.h:90-95, makes them equivalent to every key); here their key is the empty text.
- Args.ParamsToMap: the same; no option of the program is without a positive name.
- Args.ParseCliArgs: handlers are abstract (a call returns or throws), and environment variables, presets, warnings and the option table itself are left out.
- Downloads, caches on disk, logging, sampling, inference and everything else that calls into the tensor library or the operating system.
