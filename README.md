# cebeq core in Dafny

This project models the core of cebeq, a C backup tool that keeps
incremental snapshots. It has four parts.

- **The cson value store and its text codec** (`src/cson.c`, `include/cson.h`).
  - Values are Int (a C `int`, modelled as `int32`), Float, Bool, Null, String, Array and Map.
  - An array is a slot buffer that starts at 16 slots and doubles when it is full.
  - A map has 16 buckets. Each bucket is a singly linked chain, and a key lives in bucket `djb2(key) % 16`.
  - Values and strings are allocated from a bump arena of word-sized regions.
  - The lexer tracks row and column.
  - The parser is recursive descent, and the writer is an indented depth-first dump.
- **The snapshot resolver** (`src/merge.c`).
  - It rebuilds the newest surviving file set of a snapshot.
  - It copies the snapshot's own files, then walks the chain of parent snapshots.
  - At each parent it consumes names from an "unresolved" map. A recorded time of 0 or less (the tombstone -1) consumes a name without copying it.
- **The progress message queue** (`src/message_queue.c`): a ring of 100 slots of 256 bytes that drops its oldest message on overflow.
- **The command-line state machine** (`src/cli.c`).

Each part follows the form of its source.

- **Data:** values, tokens, map chains, snapshot levels and the destination tree are datatypes.
- **Objects the source updates in place are classes:**
  - the array's slot buffer (`CsonContainers.CsonArray`) and the map's bucket table (`CsonContainers.CsonMap`);
  - the arena (`CsonArena.Arena`), the lexer (`CsonLexer.Lexer`) and the output stream (`CsonWriter.Writer`);
  - the destination directory (`Merge.DestTree`), the ring buffer (`MessageQueue.Queue`) and `argc`/`argv` (`Cli.Args`).
- **Loops of the source are methods with loop invariants.** Each is proved equal to a recursive function, and the properties the source promises are lemmas about those functions:
  - the hash and string comparison;
  - the chain walks, the copy loops and the lexer scans;
  - the parser and writer loops;
  - the three merge walks, and the CLI loop.

Conventions:
- A C `char` is a Dafny `char`.
- The terminating NUL one past the end of a buffer is `CharAt(buf, |buf|) == '\0'`.
- NULL is `None`.
- The destination file system is a record of directory and file paths.

## Model

| member | source | states |
|---|---|---|
| CsonValue.WrapInt32 | include/cson.h:170-181 | Storing a wider integer in the `int` payload keeps it modulo 2^32, and keeps it unchanged when it fits in 32 bits |
| CsonValue.CString | src/cson.c:618-623 | What `strlen` sees of a buffer: the prefix before the first NUL, which holds no NUL and is followed by one when shorter than the buffer |
| CsonValue.SignedChar | src/cson.c:602 | A signed `char` adds a value in [-128, 128) to the hash |
| CsonValue.Djb2 | src/cson.c:597-605 | The DJB2 hash (start 5381, `h*33 + c`) stays below 2^32, as `uint32_t` arithmetic wraps |
| CsonValue.Hash | src/cson.c:597-605 | The accumulator loop of `cson_hash` computes exactly DJB2 of the bytes |
| CsonValue.StrEquals | src/cson.c:635-645 | `cson_str_equals` returns true if and only if the two strings are equal: same length and the same bytes |
| CsonValue.BucketOf | src/cson.c:393 | The bucket index `hash % capacity` lies inside the table |
| CsonValue.ChainFind | src/cson.c:444-448 | The chain search finds a value exactly when a node has the key, and the value found is part of the chain |
| CsonValue.ChainUpsert | src/cson.c:395-408 | After the chain upsert the chain has the new key plus all old keys, and grows by one node exactly when the key was new |
| CsonValue.ChainRemove | src/cson.c:419-434 | The chain unlink shortens the chain by one node exactly when the key was in it, and adds no key |
| CsonValue.EmptyMap | src/cson.c:367-376 | A new map satisfies the map invariant and has no key |
| CsonValue.InsertSpec | src/cson.c:388-411 | Insert keeps the invariant: 16 buckets, every node in its key's bucket, keys unique and `size` equal to the node count. Afterwards the key maps to the new value and every other key is unchanged. `size` is unchanged for an existing key and grows by one for a new key |
| CsonValue.RemoveSpec | src/cson.c:413-435 | Remove fails with KeyError exactly when the key is absent. Otherwise the map stays valid, `size` drops by one, `cson_map_get` finds nothing for the key and every other key keeps its value |
| CsonValue.KeysSpec | src/cson.c:478-491 | The keys listed bucket by bucket are distinct, there are `size` of them, and they are exactly the keys `cson_map_get` finds |
| CsonValue.RebuildFromEntries | src/cson.c:388-411 | Inserting a valid map's entries in visiting order into a fresh map rebuilds the very same chains and size |
| CsonValue.InsertChain | src/cson.c:404 | Inserting the entries of a chain of new keys links them, in order, after the end of their bucket's chain |
| CsonValue.LenCounts | src/cson.c:33-44 | `cson_len` is the number of items of an array and the number of distinct keys of a map; any other kind has length 0 |
| CsonValue.WalkAppend | src/cson.c:3-31 | Following a path in two parts equals following the first part and then the second; a failure in the first part is final |
| CsonValue.GetPath | src/cson.c:3-31 | The loop of `cson__get` returns NULL for a NULL root. Otherwise it returns a value exactly when the recursive walk succeeds: zero steps give the root, a key step needs a map holding the key, an index step needs an array with the index in range. The value returned is the one the walk reaches |
| CsonContainers.ShiftDownRemoves | src/cson.c:338-340 | Within the first `size - 1` slots, the shift of the pop loop removes exactly the element at `index` and keeps the others in order |
| CsonContainers.PopLeavesNullElement | src/cson.c:332-342 | Popping the only element of a fresh array leaves the length at one, with the NULL moved down from slot 1 as its element, which is not the empty sequence a removal gives |
| CsonContainers.CsonArray.constructor | src/cson.c:295-303 | A new array has size 0 and 16 empty slots |
| CsonContainers.CsonArray.Get | src/cson.c:319-323 | `cson_array_get(i)` is the i-th element for `i < size` and NULL otherwise |
| CsonContainers.CsonArray.Push | src/cson.c:305-317 | A NULL value is InvalidParam and changes nothing. Otherwise the value is appended and `size` grows by one. A full buffer first doubles `capacity`, copying the old slots and zeroing the new ones; otherwise `capacity` is unchanged |
| CsonContainers.CsonArray.Pop | src/cson.c:332-342 | As written: an index not below `size` is IndexError with nothing changed. Otherwise slots `index+1 .. capacity-1` move down by one and `size` stays as it was |
| CsonContainers.CsonArray.PopFixed | src/cson.c:332-342 | As intended: the same shift, then `size` drops by one, so the elements are the old ones with the one at `index` removed |
| CsonContainers.ChainKeyList | src/cson.c:485-488 | The inner loop of `cson_map_keys` yields the copied keys of one chain, head first |
| CsonContainers.CsonMap.constructor | src/cson.c:367-376 | A new map object holds the empty map: 16 empty buckets and size 0 |
| CsonContainers.CsonMap.Get | src/cson.c:437-449 | The bucket walk returns what the map lookup specifies |
| CsonContainers.CsonMap.Insert | src/cson.c:388-411 | A NULL value is InvalidParam and changes nothing. Otherwise the in-place relinking leaves the table equal to the specified upsert, which `InsertSpec` characterises |
| CsonContainers.CsonMap.Remove | src/cson.c:413-435 | An absent key is KeyError and changes nothing. Otherwise the in-place unlink leaves the table equal to the specified removal, which `RemoveSpec` characterises |
| CsonContainers.CsonMap.KeyList | src/cson.c:478-491 | `cson_map_keys` returns a copy of every key, bucket by bucket and each chain from its head |
| CsonArena.Words | src/cson.c:522 | A request is rounded up to whole words: `size <= words*8 < size + 8` |
| CsonArena.NewRegion | src/cson.c:495-504 | A new region is zeroed and empty, with capacity equal to the request or the default, whichever is larger |
| CsonArena.AllocSpec | src/cson.c:519-541 | As intended, an allocation always succeeds and keeps every region within its capacity. It opens a region exactly when there is none or the last one lacks room, and a region it opens is zeroed with capacity `max(words, default)`. The block starts at the old `size` of the last region (0 in a new one), and that size grows by the rounded request. No earlier byte and no other region changes |
| CsonArena.AllocFresh | src/cson.c:536-540 | The block handed out lies inside its region and overlaps no range that was in use before the call |
| CsonArena.AllocAsWrittenSpec | src/cson.c:519-541 | As written, an allocation exits exactly when an existing last region lacks room for the request; otherwise it does what the intended one does |
| CsonArena.FullRegionExits | src/cson.c:531-537 | With the first region full, a one-byte request exits, where the intended allocation opens a second region |
| CsonArena.WriteRead | src/cson.c:549-553 | Bytes written at a block read back from it |
| CsonArena.WriteFrame | src/cson.c:549-553 | A write leaves every byte outside the written range as it was |
| CsonArena.CopyStep | src/cson.c:551-553 | One pass of the copy loop of `cson_realloc` extends the copied prefix by the next source byte |
| CsonArena.DupTerminates | src/cson.c:618-628 | A duplicate one byte longer than its source is the source followed by a NUL terminator |
| CsonArena.DupAfterFullRegion | src/cson.c:618-622 | Once the first region is full, duplicating a three-character string exits as written, where the intended allocator places the copy at the start of a second region |
| CsonArena.Arena.constructor | include/cson.h:183-186 | A new arena has no region |
| CsonArena.Arena.AllocChecked | src/cson.c:519-541 | `cson_alloc` as written: it exits or places exactly as the as-written allocation function says, and it keeps the regions well formed |
| CsonArena.Arena.AllocBlock | src/cson.c:519-541 | `cson_alloc` as intended: it places the block where the intended allocation says |
| CsonArena.Arena.CopyBytes | src/cson.c:549-553 | The copy loop of `cson_realloc` writes the old block's bytes to the start of the new one |
| CsonArena.Arena.FillBytes | src/cson.c:560-566 | The copy loop of `cson_dup` writes the first `oldSize` source bytes, then zeros up to `newSize` |
| CsonArena.Arena.Realloc | src/cson.c:543-555 | Over the intended allocator: a request no larger than the old size keeps the old block and changes nothing. Otherwise a new block is allocated and the old bytes are copied to its start |
| CsonArena.Arena.ReallocChecked | src/cson.c:543-555 | As written: a request no larger than the old size keeps the old block. Otherwise it exits exactly when `cson_alloc` as written exits, and else copies the old bytes into the block that allocation places |
| CsonArena.Arena.Dup | src/cson.c:557-568 | Over the intended allocator: a new block of `newSize` bytes holds the first `oldSize` bytes of the source, followed by zeros |
| CsonArena.Arena.DupChecked | src/cson.c:557-568 | As written: it exits exactly when `cson_alloc` as written exits, and else the new block holds the first `oldSize` source bytes, followed by zeros |
| CsonLexer.Trimmed | src/cson.c:907-914 | `cson_lex_trim_left` moves forward only, stops on a non-whitespace character at most at the terminating NUL, and changes nothing past the end |
| CsonLexer.TrimmedSkipsWhitespace | include/cson.h:264 | Everything `trim_left` skips is space, newline or tab, and nothing else (`\r` is not whitespace) |
| CsonLexer.FindChar | src/cson.c:896-905 | When found, the cursor stands on the character, inside the buffer; otherwise it stands at the end |
| CsonLexer.FindCharSkips | src/cson.c:896-905 | `cson_lex_find` stops at the first occurrence: none lies between the start and the cursor |
| CsonLexer.LiteralEndSpan | src/cson.c:791-794 | A bare literal is the whole run of non-delimiters, ending at a delimiter or the end of the buffer |
| CsonLexer.LiteralKinds | src/cson.c:798-813 | Every non-empty prefix of `true`, `false` and `null` lexes as that keyword, because `memcmp` compares only the token's length. A lone `+` or `-` lexes as Int |
| CsonLexer.SignedDigitsAreInt | src/cson.c:934-942 | An optional minus and a non-empty run of digits form an Int literal |
| CsonLexer.Lex | src/cson.c:738-825 | `cson_lex_next` fails without moving when the index is past the buffer; otherwise it moves forward by at least one, at most one past the end |
| CsonLexer.NextSpec | src/cson.c:738-825 | A token starts after whitespace only. A punctuation token is its one character. A string token lies between two quotes with no quote inside. A literal is a maximal run of non-delimiters of the kind `LiteralKind` gives. A failure is End (on NUL or EOF), Invalid, or an unclosed string leaving the token as it was |
| CsonLexer.Extract | src/cson.c:838-879 | The extracted text holds no NUL and is never longer than the token |
| CsonLexer.UnescapeEscapes | src/cson.c:847-866 | Each known escape decodes to the byte it names; an unknown one keeps its backslash and character |
| CsonLexer.UnescapePlain | src/cson.c:847-872 | A string token without backslashes extracts to itself |
| CsonLexer.Lexer.constructor | src/cson.c:733-736 | `cson_lex_init`: index 0, row 1, column 1 |
| CsonLexer.Lexer.Advance | include/cson.h:265 | `cson_lex_check_line` plus `index++`: a newline moves to the next row at column 1, any other character one column right |
| CsonLexer.Lexer.Inc | include/cson.h:266 | `cson_lex_inc` adds exactly one to both the index and the column |
| CsonLexer.Lexer.Next | src/cson.c:738-825 | The imperative lexer (its trim, find and literal loops) yields the token and position the lexing function specifies |
| CsonParser.Atoll | src/cson.c:1045 | `atoll` skips leading space and reads an optional sign and the longest run of digits. The result stays within the 64-bit range |
| CsonParser.ParseValue | src/cson.c:1027-1065 | A value parsed from a value token leaves the cursor where it was or further on |
| CsonParser.ParseArray | src/cson.c:1001-1025 | The array loop, when it succeeds, yields an array and has moved forward |
| CsonParser.ParseMap | src/cson.c:964-999 | The map loop, when it succeeds, yields a map and has moved forward |
| CsonParser.ParseTopLevel | src/cson.c:1069-1104 | A document is accepted only as an array or a map, and only when its first character after whitespace is `[` or `{` |
| CsonParser.LexOpening | src/cson.c:738-768 | A lexed `[` or `{` was found at the first non-whitespace position |
| CsonParser.ParseValueFrom | src/cson.c:1027-1065 | The imperative value parser agrees with the parsing function, including where it fails |
| CsonParser.ParseArrayFrom | src/cson.c:1001-1025 | The `while (true)` array loop on the lexer agrees with the parsing function |
| CsonParser.ParseMapFrom | src/cson.c:964-999 | The `while (true)` map loop on the lexer agrees with the parsing function |
| CsonParser.ParseBuffer | src/cson.c:1069-1104 | `cson_parse_buffer` returns exactly the document the parsing function gives, NULL where it gives none |
| CsonParserCases.EmptyContainers | src/cson.c:964-1025 | `[]` parses to the empty array and `{}` to the empty map |
| CsonParserCases.ArrayCloseAfterItems | src/cson.c:1006-1012 | In the array loop, a closing bracket where an item should start is rejected once an item has been pushed |
| CsonParserCases.TrailingCommaRejected | src/cson.c:1006-1021 | For every array loop pass: an item followed by `,` and then `]`, with only white space between, rejects the array |
| CsonParserCases.MapCloseAfterEntries | src/cson.c:971-977 | In the map loop, a closing brace where a key should start is rejected once the map holds an entry |
| CsonParserCases.MapTrailingCommaRejected | src/cson.c:968-995 | For every map loop pass: an entry followed by `,` and then `}`, with only white space between, rejects the map |
| CsonParserCases.TrailingTokensRejected | src/cson.c:1068-1102 | A buffer is accepted exactly when its first token opens a container that parses and only white space and the end (or a NUL or EOF byte) follow it. The value is then that container |
| CsonParserCases.EndToken | src/cson.c:738-786 | From inside the buffer, the lexer reports End exactly when only white space comes before the end, a NUL or an EOF byte |
| CsonParserCases.DuplicateKeyLastWins | src/cson.c:984-997 | Reading a key the map already holds overwrites it: the size stays, the key maps to the value read last and the other keys are unchanged |
| CsonWriter.Indent | include/cson.h:254 | The indentation of level `n` is `4n` spaces |
| CsonWriter.Digits | src/cson.c:662-664 | The decimal text of a number is digits only, non-empty, and has no leading zero |
| CsonWriter.EntrySeparators | src/cson.c:705-712 | With `size` equal to the entry count, the `--size > 0` counter puts a comma after every entry but the last |
| CsonWriter.Writer.WriteValue | src/cson.c:658-688 | `cson_fprint` appends the rendering of the value to the stream |
| CsonWriter.Writer.WriteArray | src/cson.c:690-700 | `cson_array_fprint` appends `[`, one indented line per item and the closing line |
| CsonWriter.Writer.WriteItems | src/cson.c:693-697 | The item loop writes every item's line in order, with a comma after each but the last |
| CsonWriter.Writer.WriteMap | src/cson.c:702-718 | `cson_map_fprint` appends `{`, one line per entry and the closing line |
| CsonWriter.Writer.WriteEntries | src/cson.c:706-715 | The bucket loop writes the entries in bucket order and, within a bucket, from the chain's head |
| CsonWriter.Writer.WriteChain | src/cson.c:708-714 | The chain loop writes the lines of one chain's entries and decrements the counter once per node |
| CsonWriter.Writer.WriteEntry | src/cson.c:709-712 | One entry line: indentation, the quoted key, `": "`, the value and the separator the counter chooses |
| CsonRoundTrip.RoundTrip | src/cson.c:658-718 | Printing an array or a map of int32 Ints, Bools, Nulls, Strings without quote, backslash or NUL, Arrays and Maps, then parsing the text, gives back the same value: equal items in equal order, equal chains and the same size |
| CsonRoundTrip.ValueRoundTrip | src/cson.c:1027-1065 | A printed value standing after whitespace and before a delimiter parses back to itself, ending right after its text |
| CsonRoundTrip.ArrayRoundTrip | src/cson.c:1001-1025 | A printed array, read from after its `[`, parses back to itself |
| CsonRoundTrip.MapRoundTrip | src/cson.c:964-999 | A printed map, read from after its `{`, parses back to itself |
| CsonRoundTrip.ItemsRoundTrip | src/cson.c:1005-1023 | The array loop over printed items `j ..` appends each item in turn and stops at the closing bracket |
| CsonRoundTrip.EntriesRoundTrip | src/cson.c:968-998 | The map loop over printed entries `k ..` inserts each entry in turn and stops at the closing brace |
| CsonRoundTrip.ItemLast | src/cson.c:1015-1020 | The last pass of the array loop pushes the last item and returns at the closing bracket |
| CsonRoundTrip.ItemMore | src/cson.c:1015-1019 | Any other pass of the array loop pushes the item and continues after a comma |
| CsonRoundTrip.EntryLast | src/cson.c:984-995 | The last pass of the map loop inserts the last entry and returns at the closing brace |
| CsonRoundTrip.EntryMore | src/cson.c:984-994 | Any other pass of the map loop inserts the entry and continues after a comma |
| CsonRoundTrip.ArrayStep | src/cson.c:1014-1022 | One pass of the array loop: a parsed item is pushed, then a comma continues the loop, a closing bracket ends it, and anything else fails |
| CsonRoundTrip.MapStep | src/cson.c:984-997 | One pass of the map loop: a key, a colon and a parsed value are inserted, then a comma continues the loop, a closing brace ends it, and anything else fails |
| CsonRoundTrip.LexPunct | src/cson.c:745-768 | After whitespace, a punctuation character lexes as its own token |
| CsonRoundTrip.LexString | src/cson.c:769-780 | After whitespace, quoted text without a quote lexes as a string token of exactly that text |
| CsonRoundTrip.LexLiteral | src/cson.c:787-817 | After whitespace, a literal running to a delimiter lexes as a token of the kind its text has |
| CsonRoundTrip.IntTextReadsBack | src/cson.c:1045 | A printed `int32` is an Int literal, and `atoll` reads it back as the same number |
| CsonRoundTrip.AtollSigned | src/cson.c:1045 | `atoll` of a sign and digits is the signed decimal value |
| Merge.Find | src/merge.c:18-22 | `opendir` finds the level with that path when there is one, and reports none otherwise |
| Merge.ParentOf | src/merge.c:54 | The parent path is the `parent` string of the manifest, read as a C string, and NULL when the entry is missing or not a string |
| Merge.CreateDir | src/merge.c:160 | `flib_create_dir` succeeds exactly when nothing exists at the path, and then adds the directory |
| Merge.CopyFile | src/merge.c:63-66 | `copy_file` makes the destination a copy of the source and changes no other path |
| Merge.DeleteDir | src/merge.c:199-203 | `flib_delete_dir` removes the directory and everything below it, and nothing else |
| Merge.DestTree.IsDir | src/merge.c:23 | `flib_isdir` reports whether a directory exists |
| Merge.DestTree.CreateDirectory | src/merge.c:160 | Creating a directory changes the tree as `CreateDir` says |
| Merge.DestTree.Copy | src/merge.c:65 | Copying a file changes the tree as `CopyFile` says |
| Merge.DestTree.DeleteDirectory | src/merge.c:201 | Deleting a directory changes the tree as `DeleteDir` says |
| Merge.MergeRec | src/merge.c:16-93 | The imperative `merge_rec` (entry loop, map removals, recursion into the parent) returns the code and leaves the tree the chain-walk function gives |
| Merge.MergeRoot | src/merge.c:95-176 | The imperative `merge_root` returns the code and leaves the tree the snapshot-directory function gives |
| Merge.MergeBackup | src/merge.c:178-210 | The imperative `merge` returns the code and leaves the tree the top-level function gives |
| MergeProofs.RemoveKeySpec | src/merge.c:67 | Removing a name from the unresolved map keeps it valid, resolves that name and leaves every other name as it was |
| MergeProofs.AncestorStepSpec | src/merge.c:58-75 | At an ancestor, a present, still-unresolved file is removed from the set in every case, and copied only if its recorded time is positive. Files not in the set are skipped. A present directory fails the level exactly when it is not listed in `dirs` |
| MergeProofs.AncestorScanResolves | src/merge.c:58-76 | Seen from one name, the entry loop at an ancestor resolves the name when it is unresolved and present, copying it exactly when its time is positive; otherwise the name and its destination are left alone |
| MergeProofs.RecResolves | src/merge.c:16-93 | The newest surviving version wins. Walking the chain, an unresolved name is copied, if at all, from the first level where it is present. When the walk returns 0, such a level exists, and the name was copied from it exactly when its time is positive |
| MergeProofs.RecUntouched | src/merge.c:59-61 | A name already resolved is never copied again further down the chain |
| MergeProofs.TombstoneWins | src/merge.c:62-67 | A name recorded with a time of 0 or less, such as the tombstone -1, is never copied by the chain walk |
| MergeProofs.AncestorScanConfined | src/merge.c:58-76 | The entry loop at an ancestor copies only into the destination and creates no directory |
| MergeProofs.RecConfined | src/merge.c:16-93 | The chain walk changes nothing outside the destination and creates no directory |
| MergeProofs.RootConfined | src/merge.c:95-176 | Merging a snapshot directory changes nothing outside its destination and removes no directory |
| MergeProofs.FileConfined | src/merge.c:144-153 | A file entry of a snapshot directory is copied inside the destination or fails the level |
| MergeProofs.DirConfined | src/merge.c:154-164 | A directory entry is merged inside the destination or fails the level |
| MergeProofs.SubdirConfined | src/merge.c:160-163 | When a listed subdirectory exists or can be created, merging its snapshot into `dest/name` and going on with the loop changes nothing outside the destination and removes no directory |
| MergeProofs.SubdirKeeps | src/merge.c:154-164 | Merging one subdirectory leaves the destination of every other name alone |
| MergeProofs.RootScanKeeps | src/merge.c:141-167 | The loop of `merge_root` leaves a name alone, in the tree and in the unresolved set, when no remaining entry carries it |
| MergeProofs.RootScanCopies | src/merge.c:144-153 | When a remaining entry is the file `name` and the loop gets through, the destination holds this level's copy of it and the name is resolved |
| MergeProofs.RootCopiesPresent | src/merge.c:141-170 | A snapshot directory merged with result 0 holds, for every file present in it, its own version. The ignored chain-walk result does not change that |
| MergeProofs.RootScanOk | src/merge.c:141-166 | The entry loop of `merge_root` gets through exactly when every remaining file (the manifest aside) is registered in `files` and every directory in `dirs`. Failed creations and subdirectory merges do not change that |
| MergeProofs.FileOk | src/merge.c:144-153 | At a file entry, the loop goes on exactly when that file and all later entries are registered |
| MergeProofs.DirOk | src/merge.c:154-164 | At a directory entry, the loop goes on exactly when that directory and all later entries are registered |
| MergeProofs.RootCode | src/merge.c:95-176 | `merge_root` returns 0 or 1. It returns 0 exactly when the snapshot and destination directories exist, the manifest reads and has `files` and `dirs`, and every entry is registered in them. A failed subdirectory merge and the chain walk's result do not change the code |
| MergeProofs.MergeAllSpec | src/merge.c:178-210 | `merge` changes nothing outside the destination. When it returns 0, the backup exists and every snapshot root has its own new directory |
| MergeProofs.FailedRootRemoved | src/merge.c:199-203 | A snapshot root that fails ends the merge with 1, and its new destination directory is deleted with everything below it |
| MessageQueue.Prefix | src/message_queue.c:34-35 | `strncpy` of `n` characters keeps a prefix no longer than `n`, all of a shorter text |
| MessageQueue.Stored | src/message_queue.c:21-22 | A stored message is at most 255 characters, holds no NUL, and is a prefix of the C string pushed, all of it when it fits |
| MessageQueue.EnqueueBound | src/message_queue.c:23-24 | A push never lets the ring hold 100 messages: the count grows by one, or stays at 99 when full. The newest stored message comes last |
| MessageQueue.EnqueueAllAppends | src/message_queue.c:19-26 | While the ring does not fill up, each push appends its stored message at the end |
| MessageQueue.FifoOrder | src/message_queue.c:19-38 | First in, first out: pushed messages are popped back in push order |
| MessageQueue.DrainIsIdentity | src/message_queue.c:28-38 | Popping until empty returns the held messages, oldest first |
| MessageQueue.OverflowKeepsNewest | src/message_queue.c:23-24 | Pushing into a full ring drops the oldest message: the newest 99 are kept |
| MessageQueue.TailSlot | src/message_queue.c:7-8 | The slot after the last held message is `tail`, and no held message sits there |
| MessageQueue.AdvanceTail | src/message_queue.c:23-24 | Advancing `tail` adds one message; it meets `head` exactly when 99 were held |
| MessageQueue.AdvanceHead | src/message_queue.c:36 | Advancing `head` past a message leaves one message less |
| MessageQueue.Queue.constructor | src/message_queue.c:7-8 | The static state: every slot empty, `head == tail == 0` |
| MessageQueue.Queue.Push | src/message_queue.c:19-26 | The message is stored at `tail` and `tail` advances modulo 100. When it meets `head`, `head` advances too. Both stay in [0, 100), and the held messages become the enqueue of the old ones |
| MessageQueue.Queue.Pop | src/message_queue.c:28-39 | An empty queue (`head == tail`) returns 0 and changes nothing. Otherwise it returns 1 and the oldest message cut to `max_len - 1` characters, and `head` advances modulo 100 |
| Cli.Args.constructor | src/cli.c:55 | `argc` and `argv` as the program receives them |
| Cli.Args.Shift | src/cli.c:12-19 | With `argc > 0`: returns the first argument, decrements `argc` and advances `argv` by one |
| Cli.Execute | src/cli.c:55-129 | The argument loop of `main` computes the exit code and screen the recursive definition gives |
| Cli.SucceedsExactly | src/cli.c:60-126 | `main` returns 0 exactly for `-h`/`--help`/`-v`/`--version` first, or `backup`/`merge` followed by `-h`/`--help`. Every other run returns 1 with an error. No arguments, an unknown word and a command with nothing after it all end with 1, the last because `command_option_count` is never incremented |
| Cli.CommandNeedsOption | src/cli.c:89-126 | After `backup` or `merge` the command's usage is shown. With nothing after the command the exit code is 1, and otherwise only the next argument decides |

## Left out

- Floats: `cson_new_float`, `atof` and `%lf` printing are not modelled. `cson_lex_is_float` (`strtod`) is modelled as its decimal subset: an optional sign, digits with an optional point, and an optional exponent. Hexadecimal floats, `inf`, `nan` and leading `\r\v\f` are not recognised. Printed floats are outside the round trip.
- The file wrappers `cson_read`, `cson_write` and `cson_file_size` are left out. Parsing works on a character sequence and printing appends to a string.
- `cson_memsize`, `cson_array_dup`, `cson_map_dup` and `cson_array_get_last` are left out: they depend on platform `sizeof` or are not used by the modelled core.
- Diagnostics (`cson_error`, `cson__error_unexpected`, `cson_lex_print`, `eprintf`) and the error location they print are left out. `cson__lex_expect` is modelled by its effect: a lex followed by a token-kind test.
- Usage and version text are a `Screen` tag, not the printed strings.
- The global arena and `cson_swap_arena`/`cson__free`: the arena is passed explicitly, and freeing is not modelled.
- The value layer does not allocate from the arena. Value constructors, containers, string copies and the parser (src/cson.c:63-137, 297, 312, 369, 380, 621, 627) build values directly. So the exit of `cson_alloc` as written, once the first region is full (2048 words by default), is modelled only for the arena's own operations (`AllocChecked`, `ReallocChecked`, `DupChecked`), not for documents that large.
- Raw pointers inside regions are left out. A block is a (region, word) pair over each region's byte data.
- CsonContainers.CsonArray.Push: the grown buffer is a fresh array, not a block of the arena, so the oversized request `new_capacity*sizeof(Cson)` at src/cson.c:312 is not modelled.
- CsonWriter.Writer.WriteValue: `%PRId64` is given an `int` argument, which is undefined behaviour. The model prints the decimal of the `int32`.
- CsonLexer.Extract: a string token ending in a backslash makes the source read past the token. The model keeps that backslash.
- CsonLexer.LiteralKinds: a literal token longer than a keyword plus its NUL makes `memcmp` read past the keyword, which is undefined behaviour. The model takes such a token not to match the keyword (`MatchesLiteral`).
- The mutex, `msgq_init` and `msgq_destroy` are left out: the queue is sequential.
- MessageQueue.Queue.Pop: requires `max_len >= 1`. With 0 the source writes `out[-1]`.
- CsonParser.ParseArray: the routine's token variable is uninitialised in C (src/cson.c:1004). When its first lexer call fails on an unclosed string, the kind it reads is indeterminate, which is undefined behaviour. The model takes that kind to be Invalid, so the array is rejected.
- CsonParser.ParseMap: the same holds for the map routine's token variable (src/cson.c:967). The model rejects the map there.
- Cli.Run: requires a program name (`argc >= 1`). With `argc == 0` the source aborts at the assert of `_shift_args` (src/cli.c:14), and that abort is not modelled.
- Cli.Execute: requires `argc >= 1`, for the same reason as Cli.Run.
- Cli.SucceedsExactly: requires `argc >= 1`, for the same reason as Cli.Run.
- `tmerge` (src/merge.c:212) is a thread wrapper and is left out. So are the GUI, `flib`, `backup.c`, `cebeq.c`, the threading code and the build script.
- The file system is a record of paths.
  - The listing of a directory is a sequence of entries in the order `readdir` gives them.
  - `opendir` on a path is a lookup among the snapshot levels.
  - Termination needs the levels ordered: subdirectories after their directory, parents before their snapshot. A cyclic parent chain is not modelled.
  - `cwk_path_join` is `dir + "/" + name`.
  - `copy_file` always succeeds, since every caller ignores its result.
- Directory handles (`opendir`/`closedir`) are not modelled.

Where the code and the design description of the resolver differ, the model follows the code.
- A tombstoned name stays in the unresolved set. It is consumed without copying at the first ancestor where the file is present.
- The walk recurses into the parent even when the set is empty.
- A snapshot directory's own files are copied only when listed; an unlisted one fails the level.
- `merge_root` ignores the chain walk's result, so names left unresolved at the end of the chain do not fail the merge.

## Findings

| source | as written | input that shows it | evidently intended | confidence | as-written member | corrected member |
|---|---|---|---|---|---|---|
| src/cson.c:533 | When the last region lacks room, `cson_assert(arena->last == NULL, ...)` fails (the last region is never NULL there), so the program exits | An arena whose first region is full, asked for one more byte | Link a new region of `max(words, default)` capacity after the last one and allocate there | high (not executed) | CsonArena.FullRegionExits | CsonArena.AllocSpec |
| src/cson.c:332-342 | `cson_array_pop` shifts the later slots down but never decrements `size`, so the removed element is replaced and the slot from past the end becomes an element | Pop index 0 of a fresh array holding one value: size stays 1 and element 0 is NULL | Decrement `size` after the shift, so the elements are the old ones without the one at `index` | high (not executed) | CsonContainers.PopLeavesNullElement | CsonContainers.CsonArray.PopFixed |
