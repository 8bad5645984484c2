# RainbowSquirrel: verified model

RainbowSquirrel is a small SQL layer over `database/sql`: it binds `:name` placeholders, rewrites
`?` for a dialect, caches the rows of `Get` and `Select`, nests transactions on savepoints, and maps
rows onto structs. This project models those five parts and proves what they are for. To verify it:
`dafny verify dfyconfig.toml`.

**Placeholders (`bind.go`).** `Lexer` gives the placeholder scanner twice: as an automaton that takes
one byte at a time and as the nested scanning loops of the original, and proves that the loops find
what the automaton finds. Text is split into items (a byte, a `?`, a `:name`); an item sequence is
lexer output if and only if it walks the automaton (`ItemsUnique`). `Tokens` says what a placeholder
is without either, by a grammar of literals, comments and marks. `Rewrite` turns that into a
substitution theorem: replacing placeholders by items that read as code from any code position
commutes with lexing. `Bind`, `BindMany`, `Rebind` and `Dispatch` are the rewriters with their string
builders, and their main results say what the written SQL lexes to. `Batches` says exactly which
queries a batch binds right, and `BatchLimits` works out one that it does not, and one that it does
although its parenthesis stands in a comment. `Runes` has the spaces of UTF-8 text.

**Cache keys (`Keys`)**, the **row codec (`Bits`, `Varints`, `Codec`, `CodecMachine`)** and the **LRU
store (`Store`, `StoreRuns`)**. The codec is a value-level grammar with round trips, and beside it the
buffer and cursor code proved equal to it; words are integers, and shifts, masks and ors are functions
on their binary digits. The store is the map and linked list of the original, each method proved
against a plain recency sequence; theorems over every trace are about that sequence.

**The cache protocol (`Flight`, `Protocol`, `Singleflight`, `Scan`, `Transparency`, `Clashes`).** Any
number of cached calls run as interleaved steps: acquire, wait, look up, query and scan, store,
release. A step is one critical section, or one call into the store or the database. The store may lose entries at any
time, and queries may be refused, break off, or fail on close. `Flight` is the table of flights as a
class and as a value; `Hooks` has the cache's hooks as methods, whose contracts say which steps they
take; `Ops` is the flow of an operation around its plugins, and `Calls` ties its events to the steps of
a call. `Scan` is the row scanner over an arbitrary destination type, behind a recorder and without
one, with the library's and the driver's cell conversion as arbitrary functions; `Fields` says which
cell lands where and when the two conversions come to the same. `Transparency` compares cached calls
with calls that have no cache, and `Clashes` says in terms of calls and rows when they differ.

**Nested transactions (`Savepoints`)** and **field metadata (`Meta`)**.

What the code does where its comments say otherwise, or where a promise fails, was kept:

- Over a fixed database whose zone offsets are in whole minutes, and without plugins that supply rows,
  the cache shows in two ways and in no other (`Clashes.TransparentUnlessMixed`;
  `Transparency.TransparentExactly` also covers offsets that the codec does not keep).
  - A key does not say how many rows a call scans (`cache/cache.go:286-290`). What matters is not the
    operation but the destination: a `Get` into a slice records every row, like a `Select`
    (`scan.go:26-28`). When a one-row call that leaves the first of several rows shares its key with a
    slice call that can scan that row, the slice call can be served one row (`Clashes.Mixed`).
  - Behind the cache's recorder, on a miss or a hit, the library converts every cell. Without it the
    driver converts into the struct fields it knows (`scan.go:142-166`), and by rules of its own: a NULL
    for an int field is 0 in a cached call and an error in one that is not (`Clashes.NullShows`).
    `Fields.StructAgrees` says exactly for which rows the two come to the same.
- Rows that another plugin supplies do not pass through the recorder (`core.go:355-370`). Behind a miss
  the cache then stores an entry without columns and rows (`Clashes.SuppliedEmpties`).
- `bindNamedMany` looks for `(` and `)` by byte and lexes the fragment on its own. It still binds right
  if and only if the fragment so cut out has the group's names at their places and, for more than one
  object, reads again behind a comma as it does in place (`Batches.BatchLexes`). Parentheses read as
  code are enough (`Batches.CodeSuffices`) but not necessary: a `(` in a line comment before the names
  can do no harm (`BatchLimits.ParenthesisInComment`). The condition is about all text of the
  statement: where the fragment takes in a `:name` of a comment, that comment is rewritten too, and
  then the statement may still have the right marks although it is not the repeated query.
  `BatchLimits.ParenthesisInLiteral` is a query outside the condition: the batch succeeds and still
  has a named placeholder in its text.
- `CacheKey` binds by default rules, a call by its own (`Keys.KeysAgree` gives all cases). It fails on
  the slices that a call binds as a batch or expands. With slice expansion, a slice in a struct or map
  goes into the call's key as it is, while `CacheKey` marshals it under a json tag and fails without.
  A slice type with a Value method is one value to `CacheKey` (`bind.go:457-468`), but the call is
  dispatched by its kind first (`bind.go:764-789`): it is refused, or bound as a batch under another
  key. And `CacheKey` looks up struct fields by the default tag name and mapper (`Keys.NamingKeys`).
- A parent `Tx` can be finished before its child. The child stays open, its writes go to the enclosing
  transaction, and it can neither be committed nor rolled back (`Savepoints.OrphanWrites`;
  `Savepoints.Finishable` says exactly when a nested Tx can be finished).
- `resolveFieldOffset` also refuses a path whose last field is a pointer, not only one that crosses a
  pointer (`Meta.ResolveFieldOffset`).
- `After` flushes, or drops a namespace, also behind an `Exec` that failed or that runs in a transaction
  still open, although the option comments speak of successful ones (`Hooks.Cache.After`). `WithNoCache`
  does not win over a caching option behind it (`Hooks.LastDecides`).
- Of several fields with one name the one collected last wins, however deeply it is embedded
  (`Meta.IndexSearches`); Go's own rule prefers the shallowest.
- The codec keeps zone offsets in whole minutes; `Codec.RoundTripExact` is an if-and-only-if.

## Model

| member | source | states |
|---|---|---|
| `Lexer.ParsePlaceholders` | bind.go:26-89 | the nested loops, with the index overshoot after an unterminated block comment, terminate and return exactly the places of the one-byte automaton |
| `Lexer.ScanQuoted` | bind.go:32-46 | a quoted stretch with doubled quotes is skipped as close-and-reopen; the automaton is in the same state behind it |
| `Lexer.ScanDash` | bind.go:47-55 | a line comment, or a lone dash, adds no place and leaves loop and automaton in step |
| `Lexer.ScanSlash` | bind.go:56-65 | a block comment, terminated or not, adds no place; past the end of the text the loop still agrees with the automaton |
| `Lexer.ScanColon` | bind.go:66-80 | casts and lone colons add nothing; a name is taken to its last identifier byte |
| `Lexer.LexIsWalk` | bind.go:26-89 | lexing loses no byte, and what it yields walks the automaton item by item |
| `Lexer.WalkIsLex` | bind.go:26-89 | the converse: the text of any item sequence that walks lexes back to those items |
| `Lexer.ItemsUnique` | bind.go:26-89 | items are the lexing of a text if and only if they walk and spell it |
| `Tokens.PlacesExactly` | bind.go:26-96 | what is a placeholder, told without the automaton: when a text is a row of quoted literals, comments, `::` casts, `:name` tokens, `?` marks and other single bytes, each ended where it must be, with perhaps a literal or comment left open at its end, then its places are exactly the names and marks; the identifier alphabet is spelled out |
| `Tokens.EveryTextReads` | bind.go:26-96 | every text is such a row of tokens |
| `Rewrite.PlacesShape` | bind.go:17-24 | the places found are increasing, disjoint and in bounds, and each is a `?` or a colon with a maximal identifier |
| `Rewrite.LexSubst` | bind.go:111-219 | lexing commutes with replacing placeholders by items that are safe in code |
| `Rewrite.SpliceIsSubst` | bind.go:174-218 | cutting the text at the places and writing replacements between is substitution on the items |
| `Rewrite.LexFresh` | bind.go:306-313 | from a settled code position, the rest of a text lexes as if it stood alone |
| `Rewrite.NamedPlaces` | bind.go:443-451 | exactly the places with a name, in order |
| `Values.BindValueIs` | bind.go:515-614 | the one value under a name: for a map the entry, for a struct the field that the index gives; NULL for nil, nil pointers and the zero value of an omitempty field, the JSON of a list or record under the json flag and under no other, else the scalar itself; a name that is not there, or lies behind a nil embedded pointer, is `PlaceholderNotFound` |
| `Values.BindValueFails` | bind.go:515-614 | which error it is when there is none |
| `Values.ExpandSlice` | bind.go:710-730 | an empty slice is an error; otherwise every element normalised in order, or the first failure |
| `Bind.BindNamed` | bind.go:111-219 | every branch (positional, scalar, expanded slice, struct or map, errors) returns the specified SQL, arguments and key arguments |
| `Bind.BindLoop` | bind.go:174-218 | the loop over names writes each name's marks between the untouched text and collects values and key values, or stops at the first error |
| `Bind.BindPlace` | bind.go:180-215 | what one name contributes: NULL for an empty omitempty field, one mark per element of an expanded slice, else one value |
| `Bind.ReplaceOnly` | bind.go:124-160 | a scalar or an expanded slice at the only name |
| `Bind.BindLexes` | bind.go:111-219 | for every query and successful binding, the SQL lexes to the query's items with each name replaced by its marks: no name left, exactly one `?` per argument plus the original ones, each at the mapped position, all other text identical |
| `Bind.BindSupplies` | bind.go:179-216 | for an object: the arguments of the j-th name follow those of the names before it. They are read off the map entry or the struct field: NULL for the zero value of an omitempty field; the elements of a slice in order, under slice expansion; else the one value, JSON exactly where the json flag asks for it. The key argument is the slice itself, or that one value |
| `Bind.BindFills` | bind.go:124-160 | for a scalar: its normalised value is the only argument; for an expanded slice: one argument per element, in order, and the slice itself goes into the key |
| `Bind.BindsExactly` | bind.go:111-219 | what binds to a query with names: a scalar or a Valuer to a single name; a slice to a single name when it is expanded, not empty, and its elements bind; a struct or map when it supplies every name; nothing else |
| `Bind.ObjectBinds` | bind.go:166-218 | a struct with a bad tag is refused; otherwise the error is that of the first name that the object does not supply |
| `Bind.BindRefuses` | bind.go:111-165 | which error any other argument gets |
| `BindMany.GroupNamedPlaces` | bind.go:369-396 | there is one group if and only if only separators stand between all neighbouring names, and then it is the whole list |
| `BindMany.SeparatorsAre` | bind.go:388-396 | a text is only separators if and only if it is the UTF-8 of a sequence of commas and Unicode White_Space code points |
| `BindMany.FindGroup` | bind.go:292-305 | the fragment begins with the last `(` in front of the group and has no other there, or begins with the query when there is none; its last byte is the first `)` behind the group, or it ends with the query |
| `BindMany.Resolve` | bind.go:263-282 | all objects and the first struct's type info, or the first error in order |
| `BindMany.CollectRows` | bind.go:339-347 | the values object by object in group order, or the first error |
| `BindMany.ReplaceNamedInFragment` | bind.go:398-412 | the fragment with every name replaced by one `?` |
| `BindMany.WriteGroup` | bind.go:306-335 | the text before the fragment, the comma-joined copies, the text after |
| `BindMany.BindNamedMany` | bind.go:246-364 | all checks in the order of the original, then text and values as specified |
| `Batches.BatchLexes` | bind.go:246-364 | for every query and number of objects, the repeated text lexes to the query's own items with those of the group, names replaced, repeated, if and only if the fragment cut out and lexed alone has the group's names at their places and, for more than one copy, the group reads again behind a comma from the state in which the fragment ends |
| `Batches.BatchCounts` | bind.go:246-364 | a batch that meets this condition has no name left, and N*k marks when the query had no `?` |
| `Batches.CodeSuffices` | bind.go:292-305 | it is met when the parentheses found are read as code: the opening one for a batch of one, both for more |
| `Batches.BatchValues` | bind.go:339-347 | N*k values; place i*k + j holds what object i has under the j-th name, by the type info of the first struct: the map entry or struct field with its flags, as in `Values.BindValueIs` |
| `Batches.BatchBinds` | bind.go:246-364 | a batch binds if and only if there are objects and names, the names form one group, all arguments are structs or maps, and every object has a value under every name |
| `Batches.BatchFails` | bind.go:246-364 | the error when it does not: that of the first unfit argument, or else of the first name of the first object without a value under it |
| `Batches.BatchOfOne` | bind.go:246-364 | for every query with names, a batch of one equals single binding without expansion, in SQL, arguments and errors, if and only if: for one group of names, single binding fails or the fragment lexed alone has the group's names; for several groups, single binding fails as the batch does |
| `BatchLimits.ParenthesisInLiteral` | bind.go:292-305 | a query that fails the condition: on `'(':a)` a batch of two succeeds with two arguments, but its SQL still has a named placeholder, since the `(` found lies in a literal |
| `BatchLimits.ParenthesisInComment` | bind.go:292-305 | a query that meets it although the `(` found lies in a line comment: `--(`, then `:a)` on the next line |
| `Rebind.Rebind` | bind.go:417-441 | the loop writes the n-th marker for the n-th `?` and copies the rest |
| `Rebind.RebindLexes` | bind.go:417-441 | no `?` placeholder is left, the named ones are the same in the same order, everything else is untouched |
| `Rebind.RebindIdempotent` | bind.go:417-441 | rewriting twice, in whatever styles, changes nothing more |
| `Rebind.MarkersRead` | bind.go:428-438 | the markers stand at known offsets in text order: `$` or `@`, then a maximal run of digits without leading zero that reads as 1, 2, ..., if and only if no digit follows a `?` |
| `Rebind.DigitsRead` | bind.go:431-435 | decimal digits read back as their number |
| `Dispatch.BindForExec` | bind.go:750-800 | the argument dispatch by kind, slice types with a Value method included. What binds is sent in the dialect: in Question style the bound SQL, in Dollar and At style its items with the n-th `?` replaced by the n-th marker and no `?` left. A query without names always binds, as it stands, with no arguments for nil, the elements of a `[]any`, else the one value |
| `Dispatch.SentInDialect` | bind.go:750-800 | the same about the specification, with names or without |
| `Dispatch.ExecBinds` | bind.go:750-793 | which binding a query with names gets: a slice of structs or maps the batch, any other slice a single one under slice expansion only, nil none, the rest a single one; SQL, arguments and key arguments are those of the binding, or the error is |
| `Dispatch.DialectMarkers` | bind.go:750-800 | for an all-named query, single or batch within the condition of `Batches.BatchLexes`, the SQL sent has markers 1..len(args) in text order, each followed by a non-digit, and no placeholder |
| `Keys.KeysAgree` | cache/cache.go:161-167 | under every configuration and for every argument: exactly when only the call has a key, when only CacheKey has one, and when both do but from different SQL or arguments; the placeholder style is in none of the conditions |
| `Keys.KeyParts` | cache/cache.go:284-290 | a key is namespace, NUL and digest: a call's is made from the SQL before the dialect rewriting and the arguments before expansion, `CacheKey`'s from SQL and arguments bound by default rules |
| `Keys.ObjectKey` | bind.go:750-793 | for a struct or map the key has one argument per name: what the object holds under it, a slice as it is where the driver gets its elements |
| `Keys.NamingKeys` | cache/cache.go:161-167 | for a struct under a tag name or name mapper of the call's own, which CacheKey does not know: where both bind, they bind the same if and only if every name has the same key argument |
| `Keys.SameKeys` | cache/cache.go:284-290 | when the digest tells payloads apart, the two keys are the same if and only if SQL and arguments are |
| `Keys.KeyDialectIndependent` | cache/cache.go:161-167 | without slice expansion and slice types with a Value method, a key that CacheKey computes is the one the call uses, whatever the placeholder style, and the call has a key where CacheKey fails if and only if it binds a batch |
| `Keys.PrefixReaches` | cache/cache.go:188-190 | a namespace's prefix matches a key of another namespace if and only if that name continues it behind a NUL |
| `Keys.InvalidatesExactly` | cache/cache.go:188-190 | for NUL-free namespaces, an entry is gone if and only if it is in the invalidated namespace |
| `Keys.CallEntry` | cache/cache.go:284-290 | for a NUL-free digest, what is stored under the prefix and the key of a call in a NUL-free namespace is in that namespace and in no other, for calls and for `CacheKey` |
| `Keys.InvalidatesCalls` | cache/cache.go:188-190 | invalidating a NUL-free namespace removes the entry of a call, or of a `CacheKey`, if and only if it is the namespace of that |
| `Keys.NamespacesApart` | cache/cache.go:284-290 | calls in different NUL-free namespaces never share a key |
| `Varints.UvarintRoundTrip` | cache/codec.go:204-208 | every 64-bit word takes at most ten bytes and reads back, whatever follows |
| `Varints.UvarintIs` | cache/codec.go:204-208 | the encoding: groups of seven bits, low ones first, the high bit set on all but the last, no last group of zero but for 0 itself |
| `Varints.ReadLocal` | cache/codec.go:239-245 | reading takes a non-empty front and does not depend on what follows it |
| `Varints.ZigZagInverse` | cache/codec.go:210-214 | zigzag is a bijection between signed and unsigned words, small magnitudes first |
| `Varints.VarintRoundTrip` | cache/codec.go:247-254 | every signed word reads back |
| `Varints.GroupForms` | cache/codec.go:204-208 | `v & 0x7f`, `v >> 7` and `byte(v) | 0x80`, on binary digits, are the remainder, the quotient and the continued group |
| `Varints.GroupAbove` | cache/codec.go:239-245 | or-ing a group shifted above those already read, cut to 64 bits, adds it and stays within the word: the digits never meet |
| `Varints.Shl1` | cache/codec.go:210-214 | the shift of zigzag, on binary digits cut to 64, doubles modulo 2^64 |
| `Varints.NotU64` | cache/codec.go:210-214 | turning over all 64 digits is 2^64 - 1 - u |
| `Codec.RoundTrip` | cache/codec.go:41-106 | Decode(Encode(rd)) returns rd, up to the odd seconds of zone offsets |
| `Codec.RoundTripExact` | cache/codec.go:41-106 | it returns exactly rd if and only if every offset is in whole minutes |
| `Codec.HeaderIs` | cache/codec.go:26-29 | what is encoded, and what Decode accepts, begins with 0x52, 0x53, 1; anything else is an invalid header |
| `Codec.TagsRead` | cache/codec.go:31-37 | the tag bytes 0 to 6 and what each kind of cell is read from |
| `Codec.LittleEndianAt` | cache/codec.go:115-118 | byte k of a float is digit k of its bits to base 256, the lowest first |
| `Codec.KeptIs` | cache/codec.go:136-139 | an offset is kept without its odd seconds, cut towards zero |
| `Codec.ChunkIs` | cache/codec.go:216-237 | a string is as many bytes as the number in front says; no number is malformed, one too large cut short |
| `Codec.Trailing` | cache/codec.go:102-104 | an accepted input with bytes behind it is refused for them |
| `Codec.PrefixFree` | cache/codec.go:65-106 | no strict prefix and no strict extension of an accepted byte string is accepted |
| `Codec.DecodedIsEncodable` | cache/codec.go:65-106 | what Decode accepts has rows as wide as its columns and only supported cells |
| `Codec.Normalises` | cache/codec.go:65-106 | every accepted byte string re-encodes, and decoding that gives the same data if and only if the offsets read are whole minutes |
| `Codec.MinutesWithinRange` | cache/codec.go:188-198 | a minute offset is kept if and only if it does not overflow as seconds |
| `Codec.TimeEntryAgain` | cache/codec.go:188-198 | for every minute offset, an accepted entry holding it decodes to the same again after re-encoding if and only if the seconds, as an int64, are whole minutes |
| `Codec.OverflowingMinutes` | cache/codec.go:188-198 | accepted bytes whose data changes when it is encoded and decoded again |
| `CodecMachine.Buffer.WriteByte` | cache/codec.go:42-46 | the buffer grows by the byte |
| `CodecMachine.PutUvarint` | cache/codec.go:204-208 | Go's loop of masks and shifts, unsigned LEB128 as in section 7.6 of DWARF 5, fits the ten-byte array and leaves the encoding in front |
| `CodecMachine.WriteVarint` | cache/codec.go:210-214 | appends the zigzag encoding |
| `CodecMachine.WriteCell` | cache/codec.go:108-144 | appends the tagged cell, or reports the unsupported one |
| `CodecMachine.WriteRows` | cache/codec.go:52-61 | appends all rows, or reports the first wrong width or unsupported cell in row order |
| `CodecMachine.RowsErrorIs` | cache/codec.go:52-61 | there is an error if and only if some row has the wrong width or an unsupported cell; it is the first such row that decides, its width before its cells |
| `CodecMachine.Encode` | cache/codec.go:41-63 | succeeds if and only if widths and cells fit, with the specified bytes; else the first error |
| `CodecMachine.GetUvarint` | cache/codec.go:239-245 | the loop that ors shifted groups together fails exactly on truncated and overflowing numbers, else returns value and length |
| `CodecMachine.Reader.Raw` | cache/codec.go:230-237 | the next n bytes and the moved cursor, or an end-of-data error |
| `CodecMachine.ReadCellFrom` | cache/codec.go:146-202 | reads the cell in front of the cursor, or its error |
| `CodecMachine.ReadRowsFrom` | cache/codec.go:90-101 | fills the rows cell by cell, or stops at the first error |
| `CodecMachine.Decode` | cache/codec.go:65-106 | the cursor code accepts, refuses and returns exactly what the grammar says |
| `Store.MemoryStore.Get` | cache/store.go:53-67 | a live entry moves to the front, an expired one is removed; the recency sequence changes as specified |
| `Store.MemoryStore.Set` | cache/store.go:69-91 | overwrites in place and moves to the front, or pushes and evicts; map, list and sequence stay in step |
| `Store.MemoryStore.Evict` | cache/store.go:126-131 | the least recently used entry leaves map and list |
| `Store.MemoryStore.RemoveElement` | cache/store.go:121-124 | one entry leaves map and list, the others keep their order |
| `Store.MemoryStore.Delete` | cache/store.go:93-100 | the key is gone, the rest unchanged |
| `Store.MemoryStore.DeletePrefix` | cache/store.go:102-111 | exactly the keys with the prefix are gone, whatever the order of the map iteration |
| `Store.MemoryStore.Flush` | cache/store.go:113-119 | nothing is left |
| `StoreRuns.Inclusion` | cache/store.go:53-131 | on every trace the small store's recency list is the large one's restricted to some keys, the sizes differ by at most the difference of the capacities, and every hit of the small store is the same hit in the large or unlimited one |
| `StoreRuns.HoldsLatest` | cache/store.go:53-131 | on every trace the entries have distinct keys, are latest Sets not removed since, and never exceed a positive capacity |
| `StoreRuns.GetIs` | cache/store.go:53-67 | a Get hits if and only if there is an entry that has not expired, which then stands in front; behind a miss the key is gone; the other entries keep their order |
| `StoreRuns.HitIsLatest` | cache/store.go:53-67 | every hit is the latest Set of its key, not deleted or flushed since and not expired |
| `StoreRuns.SetLasts` | cache/store.go:53-91 | without a capacity and behind a Set at time t with nothing else on the key, a Get at time u hits with that value if and only if u <= t + ttl when the ttl is positive, u <= t + default when only the default is, and always when neither is |
| `StoreRuns.NeverLate` | cache/store.go:53-91 | with any capacity and clock, such a Get never hits later than that |
| `StoreRuns.UnlimitedExact` | cache/store.go:53-67 | without a capacity and under an ascending clock, a Get hits if and only if there is such a Set |
| `StoreRuns.OrderedByUse` | cache/store.go:53-131 | the sequence is ordered by last use |
| `StoreRuns.EvictsLeastRecent` | cache/store.go:69-91 | a Set evicts if and only if a new key meets a full store, and then exactly the key used longest ago |
| `Flight.Flights.Acquire` | cache/flight.go:24-34 | the caller leads and a fresh open channel is entered, or it gets the channel of the running flight |
| `Flight.Flights.Done` | cache/flight.go:38-45 | the key's channel, open until then, is closed and the key removed; other flights stay |
| `Singleflight.FlightSafe` | cache/cache.go:222-238 | in every reachable state of every interleaving: one leader per key at most, every channel in the table is open and has a live leader, every waiter's channel is closed or has a live leader |
| `Singleflight.NeverStuck` | cache/cache.go:222-238 | no wakeup is lost: in no reachable state are all unfinished calls blocked |
| `Singleflight.RunBound` | cache/cache.go:222-238 | every run is finite although leaders fail and waiters retry: n calls make at most n(n+1)(5n+1) + 2n moves |
| `Singleflight.StepLowers` | cache/cache.go:222-238 | the variant: calls that have not led, then open channels, then ranks |
| `Singleflight.WinsOnce` | cache/cache.go:222-238 | a call leads at most once |
| `Singleflight.WaitsOnce` | cache/flight.go:24-34 | a call waits on each channel at most once |
| `Hooks.Cache.TryHit` | cache/cache.go:296-307 | rows are returned if and only if the store still has the entry and it decodes, and they are what it decodes to |
| `Hooks.LastDecides` | cache/cache.go:126-152 | of each kind of option the last decides: the last caching option whether to cache, and without one there is no caching; the last TTL, the last namespace, the last namespace to invalidate |
| `Hooks.Cache.Before` | cache/cache.go:202-249 | skips exactly the calls in a transaction, those that are no Get or Select, and those whose options do not ask for caching; else one turn of the loop: wait on the running flight, or return the decoded entry, or record. Entries, flights and call are left as the protocol steps of that turn leave them: Acquire; or Acquire, Look and, for a leader that hit, Release; a recorder carries the TTL of the call if that is positive, else the default |
| `Hooks.Cache.After` | cache/cache.go:251-282 | an Exec, in a transaction or not, removes everything under invalidateOnWrite, else exactly the keys that continue the namespace to invalidate behind a NUL, and touches no flight; a cached call with a recorder takes the protocol's Put and Release: a clean recording that can be encoded is stored unless the store fails, and the flight ends; any other call changes nothing |
| `Hooks.Cache.Woken` | cache/cache.go:231-236 | behind a wait: the decoded entry ends the call, a miss starts it over, as the protocol's Look |
| `Ops.RunBefore` | core.go:242-251 | the Before hooks run in order through the first that fails, which is reported |
| `Ops.RunAfter` | core.go:253-273 | all After hooks run, in reverse order |
| `Ops.Operate` | core.go:334-452 | binding, hooks, query or supplied rows, scan and close in order; the error returned is that of the first stage that fails, and the After hooks see the same one |
| `Ops.VerdictIs` | core.go:334-392 | which error an operation has: binding, the first hook that fails, the query unless rows were supplied, the scan, the close, in this order; and none if and only if none of these fails |
| `Ops.AfterOnce` | core.go:253-273 | on every path each plugin's After runs exactly once, behind everything but later plugins' After, even if its Before did not run; a Before that ran is the i-th event, and no earlier one failed |
| `Ops.BeforeRuns` | core.go:242-251 | a Before hook runs, in its turn, if and only if binding and all hooks before it went well |
| `Ops.QueriesAndCloses` | core.go:353-391 | the database is asked if and only if nothing failed before and no plugin supplied rows; rows are closed if and only if they were scanned, right behind the scan |
| `Calls.CallEnds` | core.go:334-392 | with the cache as any one of the plugins, the events of an operation, taken as protocol steps between which other calls do what they like, bring the call to its end; a leader's last step, and no other, releases its flight, also when a later plugin's Before fails; the answer is good if and only if the operation has no error, unless a hook failed; and behind a miss the recording is stored if and only if it has none, an empty one where another plugin supplied the rows |
| `Calls.NoStep` | core.go:340-353 | when binding or an earlier plugin fails, the call takes no protocol step: it leads nothing and stores nothing |
| `Scan.ScanOneValue` | scan.go:76-176 | one row into a struct, map or scalar: behind a recorder the raw row is recorded and then converted; a struct without one is scanned by the driver |
| `Scan.RowExactly` | scan.go:76-176 | when a row is refused unseen, when reading it is an error, and what the recorder gets: the row exactly when it was read behind one |
| `Scan.ScanOne` | scan.go:34-51 | the first row, no-rows and source errors, and the error reported after the row |
| `Scan.OneExactly` | scan.go:34-51 | the first row when it scans and the source has no error behind it; without a row the source's error, else `NoRows` |
| `Scan.ScanRows` | scan.go:58-71 | the loop over rows collects values and recordings until the first error |
| `Scan.ScanSlice` | scan.go:53-72 | the same behind the columns call |
| `Scan.SliceExactly` | scan.go:53-72 | a slice scan succeeds if and only if every row scans and the source ends well, with one value per row in order; otherwise the error of the first row that fails, or the source's |
| `Scan.SliceRecords` | scan.go:53-72 | behind a recorder the rows up to the first that fails are recorded, that one too if it was read; without one, none |
| `Scan.ScanStruct` | scan.go:112-132 | behind a recorder, field by field; an unknown column is an error in strict mode and skipped otherwise |
| `Scan.ScanDirect` | scan.go:135-176 | without a recorder: all names looked up first, then the driver into the fields it knows, then the others from their slots |
| `Fields.StructAgrees` | scan.go:103-176 | a struct row comes out alike both ways (the same fields, or an error both times) if and only if: where the library stops at a column, some column stops the other way too; else the driver converts every column of a field it writes, and the last one to the library's value |
| `Fields.NullDiffers` | convert.go:115-127 | a NULL for an int field, which the library makes 0 and the driver refuses: 0 behind a recorder, an error without one |
| `Scan.SetMapRow` | scan.go:223-245 | one entry per column, later columns over earlier ones |
| `Fields.MapHoldsRow` | scan.go:208-245 | a scanned map has exactly the keys of the columns, and those it had before; under each stands the value of the last column with that key, the zero value where the cell is null or does not convert; it never fails |
| `Fields.StructHoldsRow` | scan.go:112-132 | behind a recorder a struct scan fails, with the first column that has no field, when strict, or whose cell does not convert, if and only if there is one; otherwise each field gets the converted cell of its last column and the others keep what they held |
| `Fields.PlainHoldsRow` | scan.go:135-176 | the same without a recorder, with the driver's conversion for the fields it writes |
| `Fields.PlainStops` | scan.go:135-176 | which column such a scan stops at: in strict mode the first without a field, before any cell is converted; else the first that the driver refuses; else the first that the library does |
| `Scan.RowSource.Columns` | cache/source.go:73-79 | passes the columns on and records them when there is no error |
| `Scan.RowSource.RecordRow` | cache/source.go:60-63 | a recorded row is appended; a replay records nothing |
| `Scan.RowSource.Next` | scan.go:296-302 | advances to the next row, if any |
| `Scan.CleanRecords` | cache/source.go:60-84 | a scan that ran clean recorded every row |
| `Scan.HitEqualsMissSlice` | scan.go:53-72 | replaying a clean recording into any target, under any strictness, gives the value or error of scanning the original rows behind a recorder |
| `Scan.HitEqualsMissOne` | scan.go:34-51 | the same for a one-row scan and the one row it recorded |
| `Transparency.TransparentExactly` | cache/cache.go:202-282 | over every interleaving, each call that succeeds and each call served from the cache has the answer of the same call without a cache and its recorder, errors counted as one, if and only if each call that succeeds behind the recorder has it, and what any call leaves when run alone gives it to every other call on its key |
| `Clashes.TransparentUnlessMixed` | cache/cache.go:286-290 | with whole-minute offsets, the cache is transparent if and only if no call that can succeed or be served drifts (its scan behind the recorder is not like the one without), and no one-row call that leaves the first of several rows shares its key with a slice call that can scan that row |
| `Clashes.OneDrifts` | scan.go:34-51 | a one-row call drifts if and only if there is a first row and it comes out different |
| `Clashes.SliceDrifts` | scan.go:53-72 | a slice call drifts if and only if some row comes out different, and all rows succeed one way or the other |
| `Clashes.OnlyStructsDrift` | scan.go:208-259 | maps and scalars never drift |
| `Clashes.StructRowAlike` | scan.go:103-176 | a struct row comes out alike if and only if the driver agrees with the library as `Fields.StructAgrees` says |
| `Clashes.NullShows` | convert.go:115-127 | a single call into a struct with an int field, for one row with a NULL: the cache is not transparent, although nothing clashes |
| `Clashes.ServesUnlessClash` | scan.go:53-72 | what one call leaves gives another its uncached answer if and only if the other does not drift and the two are not such a pair |
| `Transparency.Reachable` | cache/cache.go:251-282 | under that condition, in every reachable state each entry is the encoding of what a call on that key recorded from the full result, that call has passed its Put, and failed or unclean runs store nothing |
| `Transparency.CleanFetch` | core.go:353-391 | a query that scanned and closed cleanly gave the answer of the full result behind the recorder, and recorded what that records |
| `Transparency.HitGood` | core.go:371-375 | under that condition, a call that finds an entry scans its uncached answer from it |
| `Clashes.Mixed` | cache/cache.go:286-290 | for each such pair some run serves the slice call one row in place of several, or of an error at another one |
| `Clashes.SuppliedEmpties` | core.go:353-370 | behind a miss, rows that another plugin supplies leave an empty entry when nothing goes wrong: some run serves the next call no rows |
| `Savepoints.Tx.Begin` | core.go:128-137 | a fresh nested Tx on a new savepoint, or the error; session, counter and name are those of the specification, also when the database refuses |
| `Savepoints.Tx.Commit` | core.go:150-164 | root: the session ends; nested: the savepoint is released, or the Tx stays open |
| `Savepoints.Tx.Rollback` | core.go:169-187 | root: the session ends; nested: back to the savepoint and release it, in two statements either of which may fail |
| `Savepoints.Tx.Exec` | core.go:194-199 | refused when closed, else executed in the shared transaction |
| `Savepoints.NameInjective` | core.go:132-132 | savepoint names differ when their numbers do |
| `Savepoints.NameSpells` | core.go:132-132 | a name is the fixed prefix and digits that read as the number |
| `Savepoints.BeginTakes` | core.go:128-137 | a Begin on an open Tx takes the next number even when the database refuses; the savepoint so named keeps the data and lies on top of the stack; else nothing changes |
| `Savepoints.ClosedRefuses` | core.go:139-146 | a finished Tx refuses everything and changes nothing |
| `Savepoints.ExecWrites` | core.go:194-199 | an Exec writes if and only if its Tx is open, the session is not ended and the database does not fail |
| `Savepoints.Reachable` | core.go:128-187 | in every reachable state the names on the stack are pairwise distinct, will not be made again, and each belongs to an open nested Tx |
| `Savepoints.ClosedIsGone` | core.go:150-187 | a finished nested Tx has no savepoint on the stack |
| `Savepoints.RollbackRestores` | core.go:166-187 | a nested Rollback that succeeds restores data and stack as at its Begin, whatever its descendants did, committed or left open |
| `Savepoints.CommitReleases` | core.go:148-164 | a nested Commit that succeeds keeps the data and leaves the enclosing stack, so the enclosing Tx can still undo it |
| `Savepoints.Live` | core.go:128-187 | a savepoint is on the stack if and only if nothing since its Begin ended the session, finished or rolled back an enclosing Tx, or finished its Tx |
| `Savepoints.Finishable` | core.go:150-187 | unless the database fails, a nested Tx can be committed, and rolled back, if and only if its savepoint was not cut |
| `Savepoints.RootIsFinal` | core.go:154-178 | after the root's Commit or Rollback its outcome stands for ever and every Tx is refused |
| `Savepoints.OrphanWrites` | core.go:150-164 | a Tx left open under a committed parent still writes, and can no longer undo |
| `Meta.TypeInfo.AddField` | meta.go:163-197 | the field is appended, with its trimmed name, options and fast-scan flag, and the four indexes with it; ignored and nameless fields are handled as such |
| `Meta.ParseTag` | meta.go:201-215 | the trimmed name and the set of trimmed non-empty options, or the error for an empty name |
| `Meta.SplitIs` | meta.go:201-215 | a tag is cut at its commas: the parts joined by commas are the tag, and none holds a comma |
| `Meta.EntryIs` | meta.go:163-197 | what becomes of a field: none under the tag `-`; without a tag the mapped name and no options; else the trimmed first part as the name, and json and omitempty if and only if they are among the other parts; an error without a name |
| `Meta.CanFastScan` | meta.go:256-278 | behind any number of pointers, basic types, byte slices and scanners, but not times |
| `Runes.TrimSpaceIs` | meta.go:203-209 | trimming takes off spaces at both ends, encoded wide ones too, all there are and nothing else |
| `Runes.SpacesAre` | meta.go:203-209 | a text begins with a space if and only if it begins with the UTF-8 (RFC 3629) of a Unicode White_Space code point, and the space is as long as that |
| `Runes.SpacesBehindAre` | meta.go:203-209 | and so at its end |
| `Meta.TypeInfo.CollectFields` | meta.go:115-161 | the recursion appends the flattened fields in order, or fails on the first bad tag |
| `Meta.CollectedExactly` | meta.go:115-161 | a path is collected if and only if it leads through flattened embedded structs to an exported field that is not ignored |
| `Meta.CollectedEntries` | meta.go:115-197 | each collected field is the entry of the struct field its path leads to |
| `Meta.CollectedFails` | meta.go:115-161 | collecting fails if and only if some column path leads to a field without a name |
| `Meta.CollectedInOrder` | meta.go:115-161 | fields are collected in the order of declaration, embedded ones in place of their embedding |
| `Meta.CollectedRooted` | meta.go:115-161 | every collected path leads to a field of the recorded type |
| `Meta.CollectedApart` | meta.go:115-161 | collected paths are distinct and none is a prefix of another |
| `Meta.IndexSearches` | meta.go:187-195 | a map lookup is a linear search for the last field with the name |
| `Meta.SearchIs` | meta.go:187-195 | the column index finds the last tagged field with that name, the mapped index the last one without a tag, the others the last with that field name, as it is and in lower case |
| `Meta.TypeInfo.LookupBind` | meta.go:217-231 | the last field with that tag name, else with that mapped name, else with that field name |
| `Meta.TypeInfo.LookupScan` | meta.go:233-247 | the same with the field name compared in lower case |
| `Meta.ResolveFieldOffset` | meta.go:100-112 | the sum of the offsets when no field on the path, the last included, is a pointer; else none |
| `Meta.OffsetNone` | meta.go:100-112 | there is no offset if and only if some field on the path, the last included, is a pointer |
| `Meta.BuildTypeInfo` | meta.go:73-94 | the collected fields with resolved offsets and consistent indexes, or the tag error |
| `Meta.FieldByIndex` | meta.go:282-299 | the walk along a path through embedded pointers, invalid at a nil one |
| `Meta.FollowMore` | meta.go:282-299 | a path with one more field leads to that field of what the path leads to, behind the pointer if that is one and at the field's offset; nowhere behind nil |
| `Meta.OffsetFollows` | meta.go:301-310 | the address of a pointer-free path is its offset from the top, in every memory |
| `Meta.FieldValue` | meta.go:304-310 | the offset form and the walk give the same value |
| `Meta.FieldsDisjoint` | meta.go:73-94 | fields addressed by offset lie inside the struct and do not overlap |

## Left out

- Bytes of SQL text are characters; lengths and positions are unbounded integers, so nothing is said about texts, buffers or counts that overflow a machine word.
- CodecMachine.Decode: a claimed length near 2^63 is compared without the overflow of the original's `pos + n`; capacities preallocated from claimed counts are not modelled.
- CodecMachine.Encode: a nil and an empty byte slice are one value, which decodes to an empty one; requires lengths a Go program can have; time zones are offsets without names, and times outside the nanosecond range are not modelled.
- Keys.KeysAgree: a time location, which the call applies to times inside JSON arguments and `CacheKey` does not, is not modelled; the tag name and mapper of both are the same here, and `Keys.NamingKeys` compares different ones.
- Batches.BatchLexes: compares all text, comments included; when a statement outside the condition has the right number of marks by chance is not characterised.
- Values of arguments are scalars, lists, records, pointers and nil; reflection, `driver.Valuer`, JSON text and its failures, and conversion of times to a location are abstracted (`normalizeBindValue` keeps its branches).
- BindMany.BindNamedMany: the loops for placeholders outside the group are omitted, since a query with a second group is refused before them.
- Dispatch.DialectMarkers: for a batch it supposes the condition of `Batches.BatchLexes`.
- The digest in a cache key is a parameter, and distinct payloads are taken to have distinct digests where entries are told apart; `json.Marshal` of the arguments is part of it.
- Store.MemoryStore.Set: the expiry time is an unbounded sum; the mutex makes each method one step; stored bytes are values, so sharing of a slice between caller and store is not modelled.
- Transparency.TransparentExactly: one fixed result of a machine-sized length per key, and no other plugin that supplies rows; all errors count as one, since the two ways of scanning may stop at different columns. Freshness after writes is not claimed: a leader in flight may store an older result after an invalidation.
- Clashes.TransparentUnlessMixed: the same, for drivers whose zone offsets are in whole minutes.
- Protocol: calls that `Before` skips are left out; its retry loop is a sequence of turns (`Hooks`) between which other calls step, and a context or plugin error before the query counts as a refused query. A panicking scanner, which would leave a flight open, is not modelled.
- Hooks.Cache.Before: the key is a parameter, computed as in `Keys`; the methods run without interruption, while in the protocol other calls may step in between.
- Hooks.Cache.After: entries are known by their keys behind the key prefix; the recorder found in the context is a parameter.
- Calls.CallEnds: a waiter's earlier turns are left out, the query, scan and close are one step, and no plugin replaces the rows of a hit.
- Ops.Operate: the hooks are known by what fails and by whether rows are supplied; contexts, durations and the handler of hook errors are left out, and a panic inside After counts as its end.
- Scan.ScanOneValue: the conversion of a cell, time locations and JSON fields are one arbitrary function, and clones of byte cells are values.
- Scan.ScanStruct: the branch behind a recorder; the other one is `Scan.ScanDirect`.
- Clashes.NullShows: that `database/sql` refuses a NULL for an int is a hypothesis, as its code is not part of this model.
- Scan.ScanDirect: the driver's conversion is one arbitrary function, applied in column order until it fails.
- Savepoints.Tx.Exec: a statement changes data only, so savepoint statements written by the user and the raw transaction are excluded; a failing statement has no effect on the session, and the database's rules for savepoints are the usual ones: a name means its most recent savepoint, and releasing it or rolling back to it drops the later ones. Calls on one session are atomic and do not interleave inside.
- Meta.TypeInfo.CollectFields: type trees are finite, so an embedded pointer to the struct's own type is excluded; the loop's body is a method of its own; alignment is whatever offsets the type carries, and fields are assumed laid out in order where non-overlap is claimed. The process-wide type cache is left out, and lower-casing is a parameter.
- Meta.CanFastScan: a type carries whether it is a time, has a Scan method, or is basic.
- `convert.go`, `config.go`, `snakeCase`, error wrapping, the log plugins, the Redis store and live `Rows` would add only easy members.
