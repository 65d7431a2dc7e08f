# deepx_core configuration and graph-building core, in Dafny

This project models four self-contained pieces of the deepx_core training
framework and proves what they promise.

- **Group configuration** (`src/common/group_config.cc`). A group
  configuration maps each sparse feature group to the shape (rows x cols) of
  its embedding table.
  - Items come from an inline string (`g:c` or `g:r:c`, comma separated) or
    from a file with one `g r c` line per item.
  - Both loaders validate every item, reject a repeated group id and report
    the largest group id plus one.
  - Three derived views are computed from an item list: the LR projection,
    the FM check and the total embedding width.
- **Shard configuration** (`src/graph/shard.cc`).
  - A registry of named shard-function pairs: one function for dense tensors,
    one for sparse-row ids.
  - The default sparse-row shard rule.
  - The `Shard` object (mode, size, function name) with its two initialisers.
  - Its versioned binary record, and the legacy record that is a single int.
- **Class factory** (`include/deepx_core/common/class_factory.h`). A registry
  from a subclass name to the creator that builds it, plus the set of names.
- **Graph-building helpers** (`src/graph/graph_module_creator.cc`). These are
  the index and shape bookkeeping of:
  - the four `Split` overloads;
  - `StackedFullyConnect`;
  - the eight group embedding lookup creators;
  - the three target creators, with and without a prefix.

  The graph nodes are modelled as records of a plan (`Node`): which
  constructor is called, with which name, inputs, shape and initializer.

Modules:

- `Base` (`base.dfy`): the shared C++ vocabulary.
  - The C `int` range.
  - Casts to `uint16_t`, `uint32_t` and `uint64_t`.
  - Truncating `/` and `%`.
  - `std::to_string`, with a proof that it is one-to-one.
  - `Outcome`: a call either returns a value or throws (`DXTHROW_*`, `DXCHECK_THROW`).
- `GroupConfig` (`group_config.dfy`):
  - `CheckGroupConfigItem`.
  - The `istream >> int` extraction the file form uses.
  - Both loaders as loop methods. They are proved against one specification
    fold, `ScanAll`, over per-token or per-line candidates.
  - The derived views.
- `ShardConfig` (`shard.dfy`):
  - `ShardFuncMap` and `Shard` as classes whose methods update their fields.
  - Streams as sequences of typed fields (`IntField` | `StrField`).
- `Factory` (`class_factory.dfy`): `ClassFactory<T>` as a class with a map of
  creators and a set of names.
- `GraphModuleCreator` (`graph_module_creator.dfy`): the plan datatype and
  the creators as methods, each proved against the plan it must build.

What the loaders promise, proved for both input forms (`LoadResultMeaning`):
- The load succeeds exactly when all of these hold:
  - no token or line is malformed;
  - every item is valid;
  - no group id repeats;
  - at least one item was read.
- On success the items are all of them, in input order, and `max_group_id`
  is the largest id plus one.
- Whatever happens, the items returned form a valid configuration.
- In the file form, a line holding `#` or `//` anywhere is skipped. An empty
  line is not a comment, and since it holds no integers it fails the load.
- Writing a valid configuration one `g r c` line per item and loading it back
  gives it back unchanged (`LoadFormattedConfig`).

`MAX_GROUP_ID` is declared in `group_config.h`, which is not part of this
model. Its value is taken as 65535. That value is an assumption, not
something established here: the "18" lookup creators keep ids as `int`,
which suggests ids wider than 16 bits may be valid. The lemmas about lookup
ids therefore state the 16-bit bound as their own precondition, and
`PlainLookupCollision` shows what happens to ids beyond it.

## Model

| member | source | states |
|---|---|---|
| Base.ToUint16 | src/graph/graph_module_creator.cc:72 | `(uint16_t)x` lies in [0, 2^16) and keeps every value already in that range |
| Base.ToUint32 | src/graph/shard.cc:26 | `(uint32_t)x` lies in [0, 2^32) and keeps every value already in that range |
| Base.ToUint64 | src/common/group_config.cc:33-34 | `(uint64_t)x` lies in [0, 2^64) and keeps every value already in that range |
| Base.Uint32ToInt32 | src/graph/shard.cc:26 | casting a 32-bit unsigned value back to `int` gives an `int`, and keeps every value up to INT_MAX |
| Base.CDivNonNegative | src/graph/graph_module_creator.cc:323-324 | for a non-negative dividend and a positive divisor, C++ `/` and `%` agree with Euclidean division |
| Base.CDiv | src/graph/graph_module_creator.cc:324 | C++ `k / n` truncates toward zero: the magnitude of the quotient is the largest q with abs(n)·q <= abs(k), and a non-zero quotient is negative iff exactly one operand is |
| Base.CRem | src/graph/graph_module_creator.cc:323 | C++ `k % n` is what the truncated quotient leaves: k == n·(k / n) + r, abs(r) < abs(n), and a non-zero remainder takes the sign of k |
| Base.IntToString | src/graph/graph_module_creator.cc:73 | `std::to_string` is never empty, and it starts with '-' exactly for a negative number |
| Base.DecValue | src/graph/graph_module_creator.cc:73 | the decimal digits printed for n read back as n |
| Base.IntToStringInjective | src/graph/graph_module_creator.cc:73 | distinct ints print as distinct strings |
| Base.NumberedNamesInjective | src/graph/graph_module_creator.cc:228-231 | names built as prefix + `std::to_string(i)` are equal only when the numbers are equal |
| GroupConfig.CheckGroupConfigItem | src/common/group_config.cc:17-40 | accepts exactly the items with 0 <= group_id <= MAX_GROUP_ID, row > 0, col > 0 and row*col <= INT_MAX; the product is taken in 64 bits, where it cannot wrap |
| GroupConfig.ExtractDigits | src/common/group_config.cc:76 | reading the digits of one int fails when no digit comes first; on success it consumes at least one character, stops before a digit-free rest that is a suffix of the input, and a value read without a minus sign is not negative |
| GroupConfig.ExtractDigitsOfSplit | src/common/group_config.cc:76 | a run of digits followed by a non-digit is read as its decimal value, negated after a minus sign, and the read stops right after it; a value outside int fails |
| GroupConfig.ExtractInt | src/common/group_config.cc:76 | `iss >> int` fails on blank text; on success it consumes something and leaves a suffix of the text that does not start with a digit |
| GroupConfig.ExtractThreeInts | src/common/group_config.cc:73-79 | a blank line, or a line whose first read fails, is invalid; on success the group id is the first int read (all three values: ExtractThreeIntsOfNumbers) |
| GroupConfig.ExtractIntOfNumber | src/common/group_config.cc:76 | any white space (space, tab, newline, vertical tab, form feed, return), an optional `+` or `-`, and digits, with leading zeros allowed, followed by a non-digit: the value is read and the read stops after the last digit; a value outside int fails |
| GroupConfig.ExtractIntNoNumber | src/common/group_config.cc:76 | when, after white space and an optional sign, no digit follows (end of text, a sign followed by a non-digit, or any other character) the read fails |
| GroupConfig.ExtractThreeIntsOfNumbers | src/common/group_config.cc:73-79 | a line of three numbers, each after white space or a sign, then any text not starting with a digit, gives the item of the three values, whatever the trailing text; if any value is outside int the line is invalid |
| GroupConfig.ExtractTwoNumbersOnly | src/common/group_config.cc:73-79 | a line of only two numbers and white space is invalid |
| GroupConfig.CommentAnywhere | src/common/group_config.cc:65-71 | a `#` or a `//` anywhere in a line makes it a comment line |
| GroupConfig.LineCandidate | src/common/group_config.cc:64-79 | a line is skipped iff it is a comment line; a blank line is invalid |
| GroupConfig.Step | src/common/group_config.cc:76-96 | after a failure nothing changes; an invalid line fails; a failing step keeps items and maximum; otherwise the item is appended, the maximum never decreases, and every id stays at most the maximum |
| GroupConfig.ScanAll | src/common/group_config.cc:64-97 | the loop keeps at most one item per input, a non-negative maximum, and every kept id at most the maximum |
| GroupConfig.Finish | src/common/group_config.cc:99-103 | the result returns the scanned items; success needs no failure and a non-empty list, and then the maximum is incremented once; after a failure the result is false with the maximum as it was |
| GroupConfig.ExtractIntRoundTrip | src/common/group_config.cc:76 | `iss >> x` on the text `std::to_string` printed for an int, followed by a non-digit, gives that int back and stops right after it |
| GroupConfig.ExtractIntAfterSpace | src/common/group_config.cc:76 | the same after one leading space: extraction skips white space first |
| GroupConfig.TokenCandidate | src/common/group_config.cc:135-146 | a token gives an item exactly when it has 2 or 3 fields and all are integers; `g:c` gives row 1, and `g:r:c` gives row r; every other token is malformed |
| GroupConfig.ScanAllMeaning | src/common/group_config.cc:64-97 | the loader loop runs to the end exactly when no candidate is malformed, every item is valid and no id repeats; it then keeps every item in order with the running maximum id; the items it holds are always a valid configuration |
| GroupConfig.FailureIsFinal | src/common/group_config.cc:76-88 | once the loop has returned false, later tokens or lines change nothing |
| GroupConfig.LoadResultMeaning | src/common/group_config.cc:90-103 | success iff the input is well formed, has distinct ids and yields an item; on success every id is below max_group_id and one id equals max_group_id - 1 |
| GroupConfig.DuplicateGroupIdRejected | src/common/group_config.cc:85-88 | two candidates carrying the same group id, at any positions, make the load fail |
| GroupConfig.Admit | src/common/group_config.cc:148-163 | one iteration of the loop body is exactly one step of the specification fold, and the dedup set stays equal to the ids of the items |
| GroupConfig.ParseGroupConfig | src/common/group_config.cc:116-171 | result as the fold gives it; items always valid; true iff there is a token, every token gives a valid item and no two give the same id; on success one item per token, in order |
| GroupConfig.TokensLoadMeaning | src/common/group_config.cc:135-170 | the inline form's success condition and its items, stated directly on the tokens |
| GroupConfig.DuplicateTokenRejected | src/common/group_config.cc:152-155 | a repeated group id fails the inline form |
| GroupConfig.LoadGroupConfigLines | src/common/group_config.cc:55-103 | the file loop's result is the fold over its lines; comment lines are skipped; on success the items are those of the non-comment lines in order, and they are not empty |
| GroupConfig.LoadGroupConfig | src/common/group_config.cc:47-104 | a file that cannot be opened gives false before the outputs are cleared; otherwise the result is that of its lines, and success means a valid, non-empty configuration |
| GroupConfig.DuplicateLineRejected | src/common/group_config.cc:85-88 | a repeated group id fails the file form, whatever lines lie between |
| GroupConfig.NothingLoadedIsFailure | src/common/group_config.cc:103 | an input that is empty or all comments returns false |
| GroupConfig.InlineExample | src/common/group_config.cc:135-170 | "1:4,2:8" gives the items (1,1,4), (2,1,8) and max_group_id 3 |
| GroupConfig.FormatLineNotComment | src/common/group_config.cc:65-71 | a `g r c` line printed from an item is never taken for a comment |
| GroupConfig.FormatLineExtract | src/common/group_config.cc:73-79 | reading three ints from a printed `g r c` line gives the item back |
| GroupConfig.LineRoundTrip | src/common/group_config.cc:64-79 | a printed line is read back as the item it was printed from |
| GroupConfig.LoadFormattedConfig | src/common/group_config.cc:47-104 | writing a valid non-empty configuration one line per item and loading it returns true, the same items, and the largest id plus one |
| GroupConfig.GetLRGroupConfig | src/common/group_config.cc:203-214 | the LR projection has the same length, order, ids and rows, with every col 1 |
| GroupConfig.LRProjectionProperties | src/common/group_config.cc:203-214 | the LR projection of a valid configuration is valid and has the same ids; if non-empty it is an FM configuration; its total width is its number of groups |
| GroupConfig.IsFMGroupConfig | src/common/group_config.cc:216-228 | false on an empty list, otherwise true iff every col equals the first item's col |
| GroupConfig.CheckFMGroupConfig | src/common/group_config.cc:230-244 | true iff the list is non-empty and all cols are pairwise equal, the same answer as IsFMGroupConfig |
| GroupConfig.GetTotalEmbeddingCol | src/common/group_config.cc:246-252 | the loop total equals the sum of the cols |
| GroupConfig.FMTotalWidth | src/common/group_config.cc:246-252 | the total width of an FM configuration is its number of groups times the shared col |
| GroupConfig.SumColsAtLeastCount | src/common/group_config.cc:246-252 | for valid items the total width is at least the number of groups |
| ShardConfig.SrmShardFunc | src/graph/shard.cc:25-27 | for a positive shard size the shard lies in [0, shard_size), and it is id % shard_size for ids in [0, 2^32) |
| ShardConfig.SrmShardUsesLow32Bits | src/graph/shard.cc:26 | ids that agree in their low 32 bits go to the same shard |
| ShardConfig.OrDefault | src/graph/shard.cc:45-50 | a null function becomes the default, and any other is kept |
| ShardConfig.ShardFuncMap.constructor | src/graph/shard.cc:74-79 | after start-up the registry holds exactly "default", with both default functions |
| ShardConfig.ShardFuncMap.Register | src/graph/shard.cc:40-52 | throws iff the name is present, and then leaves the map unchanged; otherwise it adds the pair with nulls replaced by defaults; no stored function is ever null and a registered "default" stays |
| ShardConfig.ShardFuncMap.Get | src/graph/shard.cc:54-62 | throws iff the name is unregistered; otherwise returns exactly the stored pair |
| ShardConfig.EncodeShard | src/graph/shard.cc:130-133 | a record is four fields, opening with the magic version 0x203de81b |
| ShardConfig.LegacyRecord | src/graph/shard.cc:153-164 | legacy size 0 means mode 0 and size 1; any other s means mode 1 and size s; the name is always "default" |
| ShardConfig.ShardRoundTrip | src/graph/shard.cc:130-151 | decoding what Write emitted restores mode, size and name, and consumes exactly four fields |
| ShardConfig.LegacyDecode | src/graph/shard.cc:151-165 | a stream opening with an int other than the magic number is read as a legacy record of one field |
| ShardConfig.DecodeFailures | src/graph/shard.cc:143-150 | an empty stream, a versioned record cut short and a stream not opening with an int all fail |
| ShardConfig.DecodeShard | src/graph/shard.cc:141-165 | a successful read consumes between one field and the whole stream; it consumes 4 iff the stream opens with the magic version, and those 4 fields are then exactly the encoding of the record read (the inverse of Write); otherwise one legacy field with name "default"; it fails iff the stream is empty, opens with a string, or opens with the magic version without a full encoded record |
| ShardConfig.PartialRead | src/graph/shard.cc:148-170 | a failed read never assigns the function name; a legacy or empty stream assigns nothing; mode and size are either unchanged or the values read from the stream |
| ShardConfig.PartialReadCutShort | src/graph/shard.cc:148-150 | a versioned record cut after k fields assigns the mode once it was read and the size once it was read |
| ShardConfig.Shard.Init | src/graph/shard.cc:115-122 | the three fields are assigned; the pair is looked up, which throws iff the name is unregistered and leaves the function references alone when it does |
| ShardConfig.Shard.InitNonShard | src/graph/shard.cc:124 | sets (0, 1, "default") and takes the default pair; it never throws, since "default" is registered at start-up and never removed |
| ShardConfig.Shard.InitShard | src/graph/shard.cc:126-128 | sets (1, size, name); throws iff the name is unregistered, and then leaves the function references alone; otherwise takes the registered pair |
| ShardConfig.Shard.Write | src/graph/shard.cc:130-139 | appends exactly the encoded record of the shard's three fields |
| ShardConfig.Shard.Read | src/graph/shard.cc:141-175 | on a stream that fails: false, with the fields read before the failure assigned. On a complete record: the fields equal the decoded record and exactly that record is consumed; it throws iff the name is unregistered, and otherwise returns true with the registered pair. The function references change only on true |
| ShardConfig.RegisterThenInitShard | src/graph/shard.cc:108-128 | registering a fresh name and initialising with it succeeds and installs the given functions, nulls replaced by defaults |
| ShardConfig.WriteThenRead | src/graph/shard.cc:130-175 | writing one shard and reading the stream into another copies mode, size, name and function pair |
| Factory.ClassFactory.constructor | include/deepx_core/common/class_factory.h:49 | a new factory is empty, with map keys equal to names |
| Factory.ClassFactory.Register | include/deepx_core/common/class_factory.h:29-35 | throws iff the name is registered, and then leaves map and set unchanged; otherwise it adds the creator and the name; other names keep their creators; map keys always equal the name set |
| Factory.ClassFactory.New | include/deepx_core/common/class_factory.h:37-44 | null iff the name is unregistered; otherwise the registered creator's result |
| Factory.ClassFactory.Names | include/deepx_core/common/class_factory.h:46 | the names are exactly the registered keys |
| Factory.RegisterThenNew | include/deepx_core/common/class_factory.h:29-44 | after registering a fresh name, it is listed and New invokes its creator |
| Factory.RegisterTwice | include/deepx_core/common/class_factory.h:29-44 | a second registration of a name throws, New still invokes the first creator, and the factory stays consistent |
| GraphModuleCreator.SplitEven | src/graph/graph_module_creator.cc:319-354 | returns iff the axis is accepted, k % n == 0 and n > 0; then n pieces named prefix + i (or ""), each of length k / n, contiguous from 0 to k |
| GraphModuleCreator.SumConstant | src/graph/graph_module_creator.cc:326-335 | n pieces of length d add up to n * d |
| GraphModuleCreator.CDivExact | src/graph/graph_module_creator.cc:323-324 | when the C remainder is 0 and n > 0, the C quotient times n is k |
| GraphModuleCreator.SplitDims | src/graph/graph_module_creator.cc:356-400 | returns iff the axis is accepted and k equals the sum of split_dims; then one piece per entry, piece i of length split_dims[i], contiguous from 0 to k |
| GraphModuleCreator.DimPieces | src/graph/graph_module_creator.cc:367-377 | the piece loop: piece i spans from the sum of the earlier lengths to the sum including its own |
| GraphModuleCreator.PrefixSumRangesTile | src/graph/graph_module_creator.cc:371-376 | ranges at the prefix sums have the given lengths and tile [0, total) |
| GraphModuleCreator.TilesBegin | src/graph/graph_module_creator.cc:371-376 | in any tiling, piece i begins at the sum of the earlier pieces' lengths |
| GraphModuleCreator.PieceNamesDistinct | src/graph/graph_module_creator.cc:331 | with a prefix, pieces get pairwise distinct names |
| GraphModuleCreator.ParseActivation | src/graph/graph_module_creator.cc:218-219 | only "sigmoid", "tanh" and "relu" are accepted |
| GraphModuleCreator.LayerDims | src/graph/graph_module_creator.cc:220-224 | the widths are deep_dims, with X's width put in front iff deep_dims[0] differs from it |
| GraphModuleCreator.LayerAt | src/graph/graph_module_creator.cc:227-243 | layer i has W of shape (d_i, d_i+1) named prefix+"W"+i, and b of shape (1, d_i+1) named prefix+"b"+i; it is activated unless it is the last layer and the last width is 1 |
| GraphModuleCreator.Layers | src/graph/graph_module_creator.cc:226-227 | there is one layer fewer than there are widths, layer i as LayerAt gives it |
| GraphModuleCreator.ApplyLayer | src/graph/graph_module_creator.cc:232-243 | one layer gives a fully connected node on Z with the layer's W and b, wrapped in an unnamed activation iff the layer has one |
| GraphModuleCreator.Chain | src/graph/graph_module_creator.cc:225-245 | no layers leaves X; otherwise the output is a fully connected or activation node, bare iff the last layer has no activation |
| GraphModuleCreator.StackedFullyConnect | src/graph/graph_module_creator.cc:213-246 | throws unless X has rank 2, deep_dims is non-empty and the activation is known; otherwise X is fed through the layers in order |
| GraphModuleCreator.StackLayers | src/graph/graph_module_creator.cc:225-245 | the layer loop builds exactly X fed through the layers |
| GraphModuleCreator.LayersCompose | src/graph/graph_module_creator.cc:220-231 | the layers fit together: the first takes X's width, each takes the previous output width, each bias matches its layer, the last gives the last of deep_dims |
| GraphModuleCreator.LayerCount | src/graph/graph_module_creator.cc:220-226 | there are len(deep_dims) - 1 layers when deep_dims starts with X's width, otherwise len(deep_dims) |
| GraphModuleCreator.LayerNamesDistinct | src/graph/graph_module_creator.cc:228-231 | weight and bias names are pairwise distinct across layers |
| GraphModuleCreator.ChainDepth | src/graph/graph_module_creator.cc:227-244 | for any input node X, the output stacks exactly one fully connected step per layer on X |
| GraphModuleCreator.ChainSize | src/graph/graph_module_creator.cc:227-244 | each stacked layer wraps at least one more fully connected or activation step around X |
| GraphModuleCreator.OutputLinearIffWidthOne | src/graph/graph_module_creator.cc:233-243 | the output is un-activated iff the final width is 1 |
| GraphModuleCreator.LookupGroupId | src/graph/graph_module_creator.cc:72 | the plain creators cast the id to uint16_t; the "18" ones pass it unchanged (lines 147, 182) |
| GraphModuleCreator.TableShape | src/graph/graph_module_creator.cc:74 | tables are (row, 1) for wide and (row, col) for deep (line 110) |
| GraphModuleCreator.GroupEmbeddingLookup | src/graph/graph_module_creator.cc:63-115 | throws unless X has rank 2 and items is non-empty; otherwise one variable per item, named prefix+"W"+id with the item's shape, initializer, tensor type and need_grad; the lookup gets the ids in item order. The same holds for the "18" creators at lines 138-190 |
| GraphModuleCreator.SharedGroupEmbeddingLookup | src/graph/graph_module_creator.cc:81-133 | throws unless X has rank 2 and the items are a (non-empty) FM configuration; otherwise a single variable prefix+"W" shaped from items[0], and the ids in item order. The same holds for the "18" creators at lines 156-208 |
| GraphModuleCreator.LookupGroupIdOfValid | src/graph/graph_module_creator.cc:72 | for a valid item the "18" family keeps the id, and the plain family's uint16_t cast keeps an id below 2^16 |
| GraphModuleCreator.TableNamesDistinct | src/graph/graph_module_creator.cc:72-74 | in a valid configuration the per-group tables get distinct ids and distinct names: always in the "18" family, and in the plain family when every id is below 2^16 |
| GraphModuleCreator.PlainLookupCollision | src/graph/graph_module_creator.cc:72 | plain-family lookup ids are equal iff the group ids agree modulo 2^16, and then the tables get the same name; "18"-family ids are equal iff the group ids are |
| GraphModuleCreator.TablesWidthTotal | src/graph/graph_module_creator.cc:98-115 | deep tables together are as wide as GetTotalEmbeddingCol; wide tables are one column per group |
| GraphModuleCreator.SharedTableWidth | src/graph/graph_module_creator.cc:117-133 | the shared table is as wide as each group's own table would be |
| GraphModuleCreator.Target | src/graph/graph_module_creator.cc:418-517 | throws unless X has rank 2 with one column. The loss is the mean of the instance loss against Y(1), weighted by W(1) iff has_w. The prediction is sigmoid(X) for binary classification and X for MSE and MAE. Nodes are named prefix+"L", "P", "WL", "WM", "M", or "" without a prefix |
| GraphModuleCreator.TargetNamesDistinct | src/graph/graph_module_creator.cc:418-433 | with a prefix, the target's node names are pairwise distinct |

## Left out

- File and filesystem I/O is not modelled:
  - LoadGroupConfig's file is given as its lines, or None when it cannot be opened; `GetLine` itself is not modelled.
  - The `GuessGroupConfig` probe (file or inline string) is not modelled.
  - `Shard::Save`/`Load` and `SaveShard`/`LoadShard`, including the choice between `shard_info.bin` and `shard.bin`, only open files around Write and Read.
- The `gflag` overloads of LoadGroupConfig, ParseGroupConfig and GuessGroupConfig are not modelled. They only refuse an empty argument with a log message.
- GroupConfig.ParseGroupConfig: the `str_util` Split is not part of this model. The inline form takes the tokens already split at ',' and ':', with each field parsed to an int or marked as not an integer. How Split treats empty or trailing tokens, and when it fails, is not modelled.
- The `max_group_id` output is always computed; passing null for it only skips the maximum.
- Logging (`DXERROR`, `DXINFO`) is left out: it has no effect on results.
- `TSRShardFunc` is left out because MurmurHash2 is not part of this model. Functions are modelled as references: null, the built-in default, or one supplied by the caller.
- Process-wide singletons and static initialisation order are not modelled. `ShardFuncMap::GetInstance`, `ClassFactory::GetInstance`, `default_shard_func_register`, `ClassFactoryRegister` and the `CLASS_FACTORY_*` macros become explicit registry objects passed to their users.
- Factory.ClassFactory.Names: returns a set, so the sorted order of `std::set` is not modelled.
- Streams are sequences of typed fields (one int, one string), not bytes:
  - ShardConfig.Shard.Read: a stream that opens with a string fails, whereas on bytes the string's length prefix would be peeked as an int.
  - ShardConfig.Shard.Write: always succeeds; the failure of an output stream is not modelled.
- ShardConfig.SrmShardFunc: a shard size of 0 is excluded, since the source would divide by zero. The id is an unbounded integer, of which only the low 32 bits matter.
- GraphModuleCreator.SplitEven: n == 0 is excluded whenever the axis is accepted, since `k % n` would divide by zero.
- GraphModuleCreator.SplitEven: a negative n throws, because a vector cannot take that size. Which exception it is is not modelled.
- Shape internals are not modelled, because `shape.cc` is not part of this model:
  - X's shape is passed beside the node as a sequence of ints.
  - `Shape::real_axis` is taken as its outcome: the normalised axis, or None when it rejects the axis.
- GroupConfig.GetTotalEmbeddingCol: does not model `int` overflow of the running total.
- GraphModuleCreator.SplitDims: does not model `int` overflow of `total_split_dim` or of `end_index`.
- GraphModuleCreator.StackedFullyConnect: `GetVariableRandXavier` and `GetVariableZeros` are not part of this model, so their variables record only name, shape and initializer, not tensor type or need_grad.
- Floating-point initializer parameters (randn scale 1e-3, Xavier) are left out; only the kind of initializer is recorded.
- `sparse`, `need_grad` and `has_w` are C `int` flags, modelled as booleans.
- These creators are left out: they only wire node constructors that are not part of this model, or compute in floating point.
  - the instance getters `GetX`, `GetXUser`, `GetXCand`, `GetXHist`, `GetXHistSize` and `GetInstance` (`GetY` and `GetW` are kept as the `InstanceY`/`InstanceW` records);
  - `FullyConnect`, `AddBias`;
  - `SelfAttention`, `CrossNet`, `CIN`, `BatchNorm`.
- `MAX_GROUP_ID` is taken as 65535, an unverified assumption, because `group_config.h` is not part of this model.
- GraphModuleCreator.LookupGroupIdOfValid: requires an id below 2^16 for the plain family. That bound follows from the assumed `MAX_GROUP_ID` only; PlainLookupCollision states what happens to ids beyond it.
- GraphModuleCreator.TableNamesDistinct: requires every id below 2^16 for the plain family, for the same reason; without the bound, ids such as 1 and 65537 name the same table.
- GroupConfig.ExtractThreeInts: its own contract states only the first value read; the three values and the failure cases are stated by ExtractThreeIntsOfNumbers and ExtractTwoNumbersOnly, for lines made of numbers as `>>` reads them.
