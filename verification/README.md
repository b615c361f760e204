# Verified model of the BSON codec, the broker queues and two async protocols

This project models the BSON codec of `packages/bson/src`, the queues and snapshots of `packages/broker/src`, and the
helpers `throttleMessages` (`packages/core-rxjs/src/utils.ts`) and `stack`/`singleStack`
(`packages/core/src/decorators.ts`), and proves properties of them. The wire format is the BSON specification 1.1
("Basic Types" and "Non-terminals"); text is UTF-8 as in sections 3 and 4 of RFC 3629.

The codec generates JavaScript at run time. Each `build…`, `serialize…` and `deserialize…Into` function is modelled as
the function it generates code for: a function or method over a type, a buffer and an offset. A type is a datatype
(`Types.Ty`); object types are numbered in an environment, so they may refer to each other and to themselves.

## How the modules fit together

| module | content |
|---|---|
| `Bytes`, `Wire`, `Utf8` | byte reads and writes, the wire format as a syntax tree (`Wire`, `Doc`) with its encoding, cursor movement of `skipValue`, UTF-16 and UTF-8 |
| `Types`, `Meaning` | values, reflected types, engine functions; `DocOf`, the meaning of decoding a tree at a type, with no bytes, cursors or state |
| `Fields` | `DocOf` field by field, with the defaults, the treatment of null and the coercions written out |
| `Readers`, `SlowPath`, `TopArrays`, `Shapes` | the three typed decoders: per-type readers, while-loop matcher and unrolled readers, and shape learning; each is proved to compute `DocOf`. `TopArrays`: arrays as top-level types |
| `Target`, `Names`, `BinaryBigInt`, `Serializer` | in-place writers; a `Script` is what a writer does to an ideal unbounded buffer, and every writer realises its script in a buffer of any size |
| `RoundTrip`, `Canonical` | reading back what was written: the normal form of a value, and which values are their own normal form |
| `Untyped`, `Parser`, `UntypedRoundTrip` | the run-time serializer and parser of `any` |
| `Cycles`, `Unfolding` | cycle cutting on object graphs, down to the bytes, and graphs without cycles as typed values |
| `Growth`, `EndToEnd`, `Interop` | the growing shared buffer; serializer, buffer and decoders run together; the typed serializer against the untyped parser |
| `Stream` | the chunked document reader |
| `Trees` | documents read back from their bytes: the inverse of the encoding |
| `Snapshot`, `SnapshotTypes`, `SnapshotFile` | broker snapshots: documents and probing, entries and messages as types of the codec, and files, whole and cut off anywhere, written and restored by the codec |
| `BrokerQueue` | queue runs |
| `Throttle`, `Stacking` | the async protocols as step relations over all interleavings, and the closures that take the steps |

The main results, hardest first:

1. **Shape learning is invisible.** `Shapes.ShapeDecoder` keeps learned shapes and failed first bytes for every
   top-level and nested type. In every state it can be in, a decode returns `DocOf`, which is what the slow path
   returns, errors included, and `Replay` states this for whole histories of decodes. `RunShape` also says exactly when
   a learned reader succeeds and when it bails out. Where the learned readers and the slow path differ, the difference
   is stated as an if-and-only-if (`ShapeScalarExact`, `ShapeElemExact`, `LearnShape`).
2. **The unrolled readers and the while loop are one function**, results, errors and end offsets, for every field order,
   with missing, duplicate and unknown fields, although the result cell is shared between re-entrant calls.
3. **Round trips, typed and untyped**, over unbounded nesting, through the real writers, the growing buffer and any
   learned state (`EndToEnd.Echo`, `EndToEnd.EchoAny`): every storable value without NaN in an array of numbers comes
   back as its normal form, and unchanged if and only if it is canonical (`Canonical.CanonicalIff`,
   `UntypedRoundTrip.CanonicalAnyIff`). Across the codecs, what is written typed is read untyped
   (`Interop.TypedToUntyped`). What a decoded object holds is also given field by field, from the elements of each name
   alone (`Fields.DocIsFields`, `Fields.DocFailsIff`).
4. **The growing buffer is as good as an unbounded one**: the outcome is a function of the value's script alone,
   although byte stores past the end are dropped, wide stores throw and sizes are written back.
5. **Cycle cutting** terminates, omits an object exactly when it is its own ancestor and leaves no residue; the bytes
   that come out of the growing buffer are the encoding of the cut tree (`Growth.BufferPool.SerializeGraph`), which for
   a graph without cycles is the document of the value it unfolds to (`Unfolding.AcyclicIsTyped`).
6. **Chunking invariance** of the stream reader, over every stream and every way of cutting it, and what the reader
   keeps and does after an error.
7. **Snapshots**: what is saved is restored, by the typed serializer with its growing buffer and the typed deserializer
   with its learned shapes, without over-read; a file cut off anywhere gives all that is in it or makes the restorer
   spin, and which of the two is stated exactly (`SnapshotFile.SaveAndRestore`).
8. **Queue runs and `throttleMessages`**, each over all interleavings.
9. **`stack()` and `singleStack()`**, over all interleavings and nestings of calls: one run at a time if and only if no
   call is made during the synchronous part of a run (`Stacking.ExclusionIff`), every call accounted for, and every set
   of calls able to end (`Stacking.AllCanEnd`, `Stacking.CloserIff`).

## Where the program differs from what it promises

Each of these is kept as the code has it and stated exactly.

- Arrays of numbers read by a learned shape keep NaN; the slow path turns it into 0. Identifier strings in such arrays
  are not validated (`Shapes.ShapeElemExact`).
- A learned field accepts an OID at a UUID, a document at a Date or Uint8Array, and does not clamp a negative LONG at
  an unsigned BinaryBigInt (`Shapes.ShapeScalarExact`); the unrolled readers skip that clamp too
  (`SlowPath.UnrolledSkipsClamp`).
- The array readers of a learned shape skip an index name without a bound: on a name that is not terminated before the
  end of the buffer they never end (`Shapes.NameEndsIff`).
- Learning throws on MIN_KEY and MAX_KEY, which skipValue accepts and the slow path skips in a field it does not know
  (`Shapes.LearnShape`, `Shapes.KeySentinelDiverges`).
- The in-line UUID read always advances 21 bytes (`Readers.UuidCursorExact`).
- A top-level array is left early, with the pair of one object and its offset, as soon as an object of 1 to 24 properties
  has one that is unknown or out of order (`TopArrays.TopIff`, `TopArrays.LeftoverIff`, `TopArrays.UnknownEscapes`).
- A property named "" is matched by the unrolled and learned readers but never by the while loop
  (`SlowPath.EmptyNameDiverges`).
- An invalid Date in an untyped value raises a RangeError that the growing buffer takes for an overflow
  (`EndToEnd.UntypedVerdict`).
- Property names known from the type are written and compared one byte for each char code. Up to code 255 these are
  the UTF-8 bytes of the name exactly for ASCII names (`Names.StaticNameIff`).
- `batchSize` is documented as a maximum; a batch holds all messages waiting when it is started, by a message, by
  completion or by a handler that returns (`Throttle.BatchSizeIff`, `Throttle.BatchMayExceedSize`).
- `maxWait` is documented as a maximum wait; it is only looked at when a message arrives (`Throttle.StaysIff`,
  `Throttle.WaitsIff`, `Throttle.MaxWaitMayPass`).
- A deduplication interval of 2^31 ms or more is forgotten after a millisecond (`BrokerQueue.DedupWindowIff`).
- `queueSubscribe` ignores `maxParallel`; every consumer's cap is 1 (`BrokerQueue.SubscribeCapIff`).
- On a snapshot that ends within a document the restorer never ends (`Snapshot.EndsIff`, `Snapshot.CutDocumentIff`).
- After an invalid size the stream reader is as new if nothing was buffered before; otherwise the invalid size stays at
  the front, and every further chunk throws and is kept (`Stream.AfterError`, `Stream.DeadForever`).
- `stack` is documented to run calls one after another and not in parallel, `singleStack` to run only once at a time. The
  slot is assigned after the synchronous part of the method has returned its promise, so a call made during that part
  starts a second run, whose promise is then overwritten; the slot may be cleared by a call that does not hold it, and
  further calls start (`Stacking.ExclusionIff`, `Stacking.HolderIff`, `Stacking.ReentrantTrace`).
- A method that awaits its own stacked call after its first await waits for ever (`Stacking.SelfAwaitIff`,
  `Stacking.SelfAwaitHangs`).

## Model

| member | source | states |
|---|---|---|
| Bytes.ReadLe64 | packages/bson/src/reader.ts:303-313 | eight stored bytes are read as the 64-bit two's complement value, from a signed high word and an unsigned low word |
| Bytes.WordBytes | packages/bson/src/serializer.ts:1496-1507 | an int32 is stored least significant byte first |
| Bytes.WordRead | packages/bson/src/reader.ts:277-279 | an int32 is read least significant byte first, in two's complement, bytes behind the buffer counting as 0 |
| Wire.SkipPastNul | packages/bson/src/deserializer.ts:466-474 | the loop stops behind the first NUL, or at the end of the buffer |
| Wire.ElementBytes | packages/bson/src/types.ts:57-79 | an element is the type byte of the specification, the name, a NUL and the value |
| Wire.SkipValueExact | packages/bson/src/reader.ts:429-479 | over the encoding of any well-formed value, sized, fixed or two cstrings, skipValue moves exactly past it |
| Wire.SkipFailsIff | packages/bson/src/reader.ts:429-479 | on any bytes it fails if and only if the type is unknown, a length negative, a document size below 5, or an expression without end |
| Utf8.EncodeIsRfc | packages/bson/src/serializer.ts:114-139 | writeStringUTF8 emits the RFC 3629 octets of the scalar values of every well-formed UTF-16 string |
| Utf8.DecodeEncode | packages/bson/src/serializer.ts:114-139 | the RFC 3629 decoder gives the string back from the written bytes |
| Utf8.EncodeNul | packages/bson/src/serializer.ts:1116-1124 | a written string holds a zero byte exactly when it holds U+0000, so NUL-free names are safe cstrings |
| Utf8.LoneLow | packages/bson/src/serializer.ts:114-139 | a low surrogate without a high one before it is not written |
| Utf8.LoneHigh | packages/bson/src/serializer.ts:114-139 | a high surrogate at the end of a string is written as F0 80 80 80 |
| Utf8.HighTakesNext | packages/bson/src/serializer.ts:114-139 | any other high surrogate is paired with the next unit, whatever that is |
| Utf8.TextIsHost | packages/bson/src/reader.ts:35-261 | the ASCII fast paths of decodeUTF8 agree with the RFC 3629 decoder for every length |
| Utf8.DecodeUtf8 | packages/bson/src/reader.ts:35-261 | OR-accumulating up to 64 bytes and falling back on a high bit computes that text; bytes missing at the end of the buffer read as NUL |
| Utf8.TextOfEncoded | packages/bson/src/reader.ts:353-361 | names and strings written are the ones read, unless they start with U+FEFF |
| Readers.ReadScalarExact | packages/bson/src/deserializer.ts:3049-3337 | for every scalar type and every well-formed value, coercions and skipped mismatches included, the reader returns the value's meaning and ends where skipValue would |
| Readers.StringExact | packages/bson/src/deserializer.ts:918-946 | readStringValue: the coercions to string, and an error for every BSON type without one |
| Readers.NumberExact | packages/bson/src/deserializer.ts:953-977 | readNumberValue: NaN becomes 0, unknown BSON types are skipped as 0 |
| Readers.BooleanExact | packages/bson/src/deserializer.ts:984-1005 | readBooleanValue: zero, -0, empty text and nulls are false |
| Readers.LongExact | packages/bson/src/deserializer.ts:1012-1034 | readBigIntValue: truncation and parse failures surface as errors |
| Readers.BigExact | packages/bson/src/deserializer.ts:3184-3226 | bigint types: BINARY through the digit readers, everything else coerced, negatives clamped to 0 for unsigned BinaryBigInt |
| Readers.DateExact | packages/bson/src/deserializer.ts:1080-1102 | readDateValue over every BSON type |
| Readers.UuidExact | packages/bson/src/deserializer.ts:1109-1123 | a UUID from a 16-byte binary or a validated string, an error otherwise |
| Readers.MongoIdExact | packages/bson/src/deserializer.ts:1130-1144 | a MongoId from an OID or a validated string, an error otherwise |
| Readers.TextOrNumberExact | packages/bson/src/deserializer.ts:3899-4175 | the union of string and number: the member is chosen by the BSON type, booleans count as numbers, any other type is an error |
| Readers.BinaryExact | packages/bson/src/deserializer.ts:1174-1184 | Uint8Array: the bytes of a BINARY of any subtype, no bytes for any other type |
| Readers.EnumExact | packages/bson/src/deserializer.ts:3864-3894 | enums: any number or string is taken, any other type is skipped and leaves the target untouched |
| Readers.UuidCursorExact | packages/bson/src/deserializer.ts:3067-3073 | the in-line UUID read agrees with skipValue on the end offset if and only if the binary has 16 bytes |
| Fields.DocIsFields | packages/bson/src/deserializer.ts:2363-2828 | every property of a decoded object is what the last assigning element of its name says, or else its default; there are no other properties |
| Fields.DocFailsIff | packages/bson/src/deserializer.ts:2363-2828 | decoding fails if and only if some element cannot be read at its field, or a property that must be there is never assigned |
| Fields.MissingField | packages/bson/src/deserializer.ts:2779-2825 | a name that does not occur: "" for text and identifiers, 0, false, 0n, the literal; an error for objects, dates, bytes and unions; absent if optional, nullable, enum or array |
| Fields.NullField | packages/bson/src/deserializer.ts:2931-2984 | null at a property: null if nullable, undefined if optional, the falsy value of text, numbers, booleans and bigints, skipped for enums, an error for the rest |
| Fields.ToText | packages/bson/src/deserializer.ts:918-946 | the coercions to text, written out |
| Fields.ToNumber | packages/bson/src/deserializer.ts:953-977 | the coercions to a number, written out |
| Fields.ToBoolean | packages/bson/src/deserializer.ts:984-1005 | what is true and what is false, written out |
| Fields.ToBigInt | packages/bson/src/deserializer.ts:1012-1034 | the coercions to a bigint, failures of the engine being errors, unsigned ones clamped |
| Fields.StoredBigInt | packages/bson/src/deserializer.ts:3184-3226 | bytes of a bigint: at most 16777216, sign byte 255 for negative numbers |
| Fields.ToDate | packages/bson/src/deserializer.ts:1080-1102 | the coercions to a date, written out |
| Fields.ToIdentifier | packages/bson/src/deserializer.ts:1109-1144 | which texts are MongoIds and UUIDs, written out |
| SlowPath.NameCheckExact | packages/bson/src/deserializer.ts:2582-2593 | the byte comparison of a name holds if and only if the names are equal |
| SlowPath.EmptyNameDiverges | packages/bson/src/deserializer.ts:3032-3044 | the two name checks agree unless both names are empty |
| SlowPath.MatchNameExact | packages/bson/src/deserializer.ts:2918-2923 | the if-chain over the bytes finds the field of that name, or none |
| SlowPath.UnrolledSkipsClamp | packages/bson/src/deserializer.ts:2634-2638 | the in-line LONG read equals the clamped read if and only if the value is not negative |
| SlowPath.PrimaryExact | packages/bson/src/deserializer.ts:2599-2650 | the in-line read of a reader's primary BSON type is the full reader's result, with the same end offset |
| SlowPath.Decoder.DecodeValue | packages/bson/src/deserializer.ts:3049-3337 | deserializeValueInto computes ValueOf and, unless it fails, moves exactly past the value |
| SlowPath.Decoder.DecodeArray | packages/bson/src/deserializer.ts:3479-3525 | anything but an array is an error; an array is read element by element to exactly its end |
| SlowPath.Decoder.DecodeElems | packages/bson/src/deserializer.ts:3492-3513 | the element loop reads all elements in order; an untouched target is undefined |
| SlowPath.Decoder.DecodeObject | packages/bson/src/deserializer.ts:3431-3474 | documents are decoded in line or through the extracted function with the same result; null is an error, other types are skipped |
| SlowPath.Decoder.MatchField | packages/bson/src/deserializer.ts:2903-3015 | one element updates its slot, and only that; unknown names and values are skipped exactly |
| SlowPath.Decoder.DecodeLoop | packages/bson/src/deserializer.ts:2702-2712 | the while loop computes DocOf and ends behind the document |
| SlowPath.Decoder.Reader | packages/bson/src/deserializer.ts:2573-2668 | one unrolled reader leaves value and offset in the shared cell, whatever nested calls did to the cell before |
| SlowPath.Decoder.DecodeUnrolled | packages/bson/src/deserializer.ts:2456-2701 | readers, terminator check and fallback compute DocOf and the end offset for every field order, with missing, duplicate or unknown fields |
| SlowPath.Decoder.DecodeBody | packages/bson/src/deserializer.ts:2363-2828 | whichever path is generated, the result is DocOf |
| TopArrays.TopIff | packages/bson/src/deserializer.ts:1449-1480 | a top-level array is decoded to its elements if and only if none of its in-line objects needs the fallback of the unrolled readers, or an error comes first |
| TopArrays.LeftoverIff | packages/bson/src/deserializer.ts:2670-2701 | the fallback is needed if and only if the elements are not in declaration order, missing ones aside |
| TopArrays.EscapesIff | packages/bson/src/deserializer.ts:1449-1480 | an in-line object makes the array return early if and only if its type has 1 to 24 properties and it is not in declaration order |
| TopArrays.TopReturns | packages/bson/src/deserializer.ts:1449-1480 | what is returned then is the first such object |
| TopArrays.UnknownEscapes | packages/bson/src/deserializer.ts:2699-2701 | one unknown property is enough |
| TopArrays.TopArray | packages/bson/src/deserializer.ts:1449-1480 | the loop computes TopOf: the elements in order up to the first error or early return, also through arrays within arrays |
| Shapes.ShapeScalarExact | packages/bson/src/deserializer.ts:390-512 | a learned field bails out if and only if it meets NaN, else moves past the value, and equals the slow path if and only if AgreesScalar holds |
| Shapes.ShapeElemExact | packages/bson/src/deserializer.ts:577-666 | a primitive array element is read in line if and only if its BSON type fits, and equals the slow path if and only if it is not NaN, an invalid identifier or a document at a Date or Uint8Array |
| Shapes.NameEndsIff | packages/bson/src/deserializer.ts:592-594 | the loop over an index name ends if and only if a NUL lies ahead in the buffer |
| Shapes.LearnSkipExact | packages/bson/src/deserializer.ts:181-231 | skipping while learning moves past every well-formed value but throws on the key sentinels |
| Shapes.LearnShape | packages/bson/src/deserializer.ts:146-176 | the learned fields are the names and BSON types in document order; it throws if and only if there is a key sentinel |
| Shapes.KeySentinelDiverges | packages/bson/src/deserializer.ts:228-229 | a sentinel in an unknown field makes learning throw, while the slow path ignores it |
| Shapes.BuildShapeExact | packages/bson/src/deserializer.ts:796-811 | the result object bails out if and only if a required property is missing, and is otherwise the slow path's object |
| Shapes.ShapeDecoder.constructor | packages/bson/src/deserializer.ts:1363-1378 | a fresh decoder has learned nothing and satisfies the invariant |
| Shapes.ShapeDecoder.RunShape | packages/bson/src/deserializer.ts:689-818 | a compiled shape returns DocOf, throws its error, or bails out; it succeeds only if, and bails out only unless, the document follows the shape and is complete |
| Shapes.ShapeDecoder.ShapeTurn | packages/bson/src/deserializer.ts:717-751 | one learned field: bounds, type and name check, in-line read; it bails out exactly when the element is not the learned one or not readable in line |
| Shapes.ShapeDecoder.ReadElems | packages/bson/src/deserializer.ts:529-671 | the element loops of learned array fields: elements as the slow path reads them, or a bailout exactly on an element they do not handle |
| Shapes.ShapeDecoder.CallNested | packages/bson/src/deserializer.ts:1359-1424 | in any learned state a nested handle returns DocOf; the state only grows, keeps its invariant, and remembers a new first byte as learned or failed |
| Shapes.ShapeDecoder.DecodeTop | packages/bson/src/deserializer.ts:1486-1567 | in any learned state a top-level decode returns DocOf; a new fitting shape is appended |
| Shapes.ShapeDecoder.Replay | packages/bson/src/deserializer.ts:1486-1567 | every decode of every history of decodes returns what the slow path returns, also between decodes of malformed and other documents, whatever those learn |
| Target.Sequence | packages/bson/src/serializer.ts:178-189 | effects of writers compose: two writers in sequence realise the concatenated script, errors and overruns included |
| Target.StoreBlock | packages/bson/src/serializer.ts:185-186 | a wide store throws unless all of it fits, and then writes exactly its bytes |
| Target.Backfill | packages/bson/src/serializer.ts:742-745 | the size written back replaces the placeholder and nothing else |
| Names.StoreBatched | packages/bson/src/serializer.ts:1214-1258 | eight bytes at a time, then four, then an overrunning word: exactly the name lies in the advanced range, and the reach is the length rounded up to four |
| Names.WriteName | packages/bson/src/serializer.ts:1184-1263 | every branch of writeNameJIT writes name and terminator and leaves what precedes it |
| Names.WriteHeader | packages/bson/src/serializer.ts:1274-1355 | every branch of writeHeader realises its script for names of any length |
| Names.HeaderBytes | packages/bson/src/serializer.ts:1274-1355 | whatever the branch, the advanced range holds type, name, 0; at most three bytes beyond it are touched |
| Names.StaticNameIff | packages/bson/src/serializer.ts:1198-1201 | char codes up to 255, one byte each, are the UTF-8 bytes of the name if and only if the name is ASCII |
| Names.WriteIndex | packages/bson/src/serializer.ts:2182-2208 | all four branches write the decimal digits of the index and a terminator |
| Names.DigitsDecimal | packages/bson/src/serializer.ts:2183-2211 | the index is written as its decimal numeral: digits of that value, without leading zeros |
| Names.WriteUtf8 | packages/bson/src/serializer.ts:114-139 | the loop appends the encoding of the string, unpaired surrogates included |
| BinaryBigInt.BigRoundTrip | packages/bson/src/serializer.ts:1564-1611 | reading what the signed writer wrote gives the integer back, the unsigned one its absolute value; the reader rejects data above 16 MB |
| BinaryBigInt.BigSize | packages/bson/src/serializer.ts:1564-1611 | sizes follow the exact hexadecimal digit count, rounded up to bytes, with the zero case and the signum byte |
| BinaryBigInt.BigDataIs | packages/bson/src/serializer.ts:1564-1612 | nothing for 0; otherwise the absolute value, most significant byte first and not 0, behind 255 or 0 for the sign in the signed form |
| BinaryBigInt.WriteBig | packages/bson/src/serializer.ts:1564-1611 | both writers realise the script of size, subtype and data |
| BinaryBigInt.ReadBig | packages/bson/src/deserializer.ts:1044-1073 | the digit loops compute the big-endian value, with the size bounds |
| Serializer.DateWords | packages/bson/src/serializer.ts:1726-1754 | the low and the floored high word form the 64-bit date, before 1970 too |
| Serializer.StoredNumber | packages/bson/src/serializer.ts:1472-1489 | -0 is stored as int32 0, NaN as 7FF8000000000000, other doubles as they are |
| Serializer.SerializeNumber | packages/bson/src/serializer.ts:1449-1490 | name first, then type byte and value: the element of an int32, or of a double |
| Serializer.SerializeStringBody | packages/bson/src/serializer.ts:1400-1421 | the length written back is that of the text and its terminator |
| Serializer.SerializeBytesBody | packages/bson/src/serializer.ts:1851-1861 | length, subtype 0 and the bytes in one store, which throws as a whole if they do not fit |
| Serializer.SerializeValue | packages/bson/src/serializer.ts:832-926 | in a buffer of any size, the writer of a typed value realises its script: RangeError exactly if a wide store overruns, an error exactly on a bad identifier, else its bytes |
| Serializer.SerializeDocument | packages/bson/src/serializer.ts:686-762 | placeholder, properties, terminator and size of a document |
| Serializer.SerializeProperties | packages/bson/src/serializer.ts:474-576 | properties in order: absent optionals omitted, nullish ones null, nothing lost when a store throws |
| Serializer.SerializeElements | packages/bson/src/serializer.ts:2163-2166 | elements with their decimal index names |
| Serializer.ElemsIndexed | packages/bson/src/serializer.ts:2183-2211 | the elements of a typed array are named by their positions |
| Serializer.NamesDiffer | packages/bson/src/serializer.ts:2183-2211 | so no two elements of an array have the same name |
| Serializer.EmitExact | packages/bson/src/serializer.ts:832-926 | the script of a typed value consists of the encoding of its wire element |
| Serializer.EmitDocExact | packages/bson/src/serializer.ts:686-762 | a serialized document is the encoding of the tree ToDoc |
| RoundTrip.ScalarReadsBack | packages/bson/src/deserializer.ts:3049-3337 | every storable scalar is read back as its normal form |
| RoundTrip.DocReadsBack | packages/bson/src/deserializer.ts:2363-2828 | decoding the tree of a typed object gives its normal form: NaN and -0 to 0, bigints and dates to int64, absolute value for unsigned, lower-case identifiers |
| RoundTrip.WireFits | packages/bson/src/serializer.ts:832-926 | the tree of a typed value is well formed and in the domain of the decoders |
| Canonical.CanonicalIff | packages/bson/src/serializer.ts:832-926 | a value is its own normal form if and only if it is canonical: no NaN or -0, int64 ranges, lower-case identifiers, no unknown properties, null where null is meant |
| Canonical.UuidExact | packages/bson/src/serializer.ts:1821-1831 | a 36-character string survives as a UUID if and only if it is lower-case hexadecimal with dashes in place |
| Canonical.MongoIdExact | packages/bson/src/serializer.ts:1806-1813 | a 24-character string survives as a MongoId if and only if it is lower-case hexadecimal |
| Canonical.MongoIdLowered | packages/bson/src/serializer.ts:1806-1813 | a MongoId comes back in lower case, characters that are no digits as 0 |
| Canonical.UuidLowered | packages/bson/src/serializer.ts:1821-1831 | a UUID comes back in lower case with dashes in place |
| Canonical.HexSpelled | packages/bson/src/reader.ts:390-399 | a byte is rendered as two lower-case hexadecimal digits, the high one first |
| Canonical.UuidSpelled | packages/bson/src/reader.ts:406-423 | a UUID is rendered as its bytes in order in groups of 4, 2, 2, 2 and 6 |
| Untyped.SerializeAny | packages/bson/src/serializer.ts:955-1059 | in a buffer of any size the untyped writer realises its script; undefined writes nothing |
| Untyped.SerializeAnyArray | packages/bson/src/serializer.ts:1129-1147 | elements keep their index, undefined ones are dropped, the size is written last |
| Untyped.ItemsIndexed | packages/bson/src/serializer.ts:1129-1147 | the elements of an untyped array are named by their positions, those of undefined ones being missing |
| Untyped.SerializeAnyObject | packages/bson/src/serializer.ts:1153-1176 | properties in order of their keys, the size written last |
| Untyped.BodyExact | packages/bson/src/serializer.ts:955-1059 | without invalid dates the script is the encoding of the value's tree and stays within it; with one it fits no buffer |
| Parser.ParseFields | packages/bson/src/parser.ts:54-91 | on arbitrary bytes every recorded value lies strictly behind the document's start and inside the buffer |
| Parser.FramedIff | packages/bson/src/parser.ts:63-66 | a document is accepted if and only if its size is there, positive and covered by the buffer |
| Parser.ParseElems | packages/bson/src/parser.ts:93-127 | the same for array elements |
| Parser.ParseDocumentFields | packages/bson/src/parser.ts:54-91 | the loop keeps the last field of each name and all names in order |
| Parser.ParseDocumentToObject | packages/bson/src/parser.ts:180-190 | without any precondition the mutually recursive parser ends with a value or an error; `__proto__` is skipped |
| Parser.ParseArrayToArray | packages/bson/src/parser.ts:192-200 | arrays likewise, element by element |
| Parser.ParseValueAny | packages/bson/src/parser.ts:129-178 | the dispatch over BSON types terminates on arbitrary bytes, with the bytes left as measure |
| UntypedRoundTrip.ParseExact | packages/bson/src/parser.ts:129-178 | on well-formed bytes the parser is a function of the tree: last element of each name wins, errors included |
| UntypedRoundTrip.ScanEntry | packages/bson/src/parser.ts:73-84 | the recorded field of a name is its last element |
| UntypedRoundTrip.ParsedKeys | packages/bson/src/parser.ts:180-190 | the keys of a parsed object are the names in the document other than `__proto__`, and each holds the value of the last element of its name |
| UntypedRoundTrip.AnyReadsBack | packages/bson/src/parser.ts:129-200 | the tree of a value denotes its normal form: undefined dropped, NaN and -0 to 0, `__proto__` removed, to any depth |
| UntypedRoundTrip.NormalKeys | packages/bson/src/parser.ts:185 | the normal form of an object has the keys of its defined properties other than `__proto__` |
| UntypedRoundTrip.CanonicalAnyIff | packages/bson/src/parser.ts:129-200 | an untyped value comes back unchanged if and only if it holds no undefined, NaN, -0, integer or date beyond 64 bits, or key `__proto__` |
| UntypedRoundTrip.OptionsSpelled | packages/bson/src/serializer.ts:2488-2505 | the options of an expression are written in the order i, s, m, global as s |
| UntypedRoundTrip.GlobalFlagsAt | packages/bson/src/parser.ts:155-160 | every s among the options is read as g |
| UntypedRoundTrip.ForeignValues | packages/bson/src/parser.ts:129-178 | timestamps, undefined, ids and binaries of other programs; only subtype 4 of 16 bytes is a UUID |
| UntypedRoundTrip.ParsesBack | packages/bson/src/parser.ts:202-204 | parsing the bytes written for an object or array gives its normal form |
| Growth.BufferPool.Allocate | packages/bson/src/serializer.ts:160-176 | large enough and at most 2^31-1 bytes, an error exactly above that; kept as the shared buffer up to 16 MB, which never shrinks |
| Growth.BufferPool.SerializeWithGrowth | packages/bson/src/serializer.ts:190-207 | terminates; the outcome is Verdict of the job's script whatever buffer was found, on success the prefix is byte-equal to the ideal output, and every attempt starts with an empty seen set |
| Growth.BufferPool.RunSerialize | packages/bson/src/serializer.ts:224-237 | the same, and no call leaves marks in the seen set, errors included |
| Growth.BufferPool.SerializeGraph | packages/bson/src/serializer.ts:686-762 | for every object graph, with cycles and shared objects, the bytes are the encoding of the cut tree |
| Growth.VerdictIff | packages/bson/src/serializer.ts:190-207 | which of the three failures a script ends in, by the limit of 2147483647 bytes |
| EndToEnd.TypedRoundTrip | packages/bson/src/serializer.ts:276-311 | wherever the serialized bytes lie, decoding them gives the normal form |
| EndToEnd.WireAgrees | packages/bson/src/deserializer.ts:288-373 | the tree of every storable value without NaN in an array of numbers is in the domain on which learned shapes agree with the slow path |
| EndToEnd.Echo | packages/bson/src/deserializer.ts:1486-1567 | serializing a storable value without NaN in an array of numbers and decoding it in any learned state gives its normal form; otherwise the failure is the script's |
| EndToEnd.CanonicalComesBack | packages/bson/src/deserializer.ts:1486-1567 | canonical values are among these, and are their own normal form |
| EndToEnd.TypedVerdict | packages/bson/src/serializer.ts:190-207 | typed serialization fails on identifiers of the wrong length and above 2^31-1 bytes and succeeds otherwise, the last three bytes below that size excepted |
| EndToEnd.TopRoundTrip | packages/bson/src/deserializer.ts:1449-1480 | an array that was serialized is decoded at the top as a whole, to the normal forms of its elements |
| Interop.TypedToUntyped | packages/bson/src/parser.ts:180-190 | the untyped parser reads a typed document: properties in declaration order, identifiers as lower-case text, bigints stored as bytes as binary |
| EndToEnd.UntypedVerdict | packages/bson/src/serializer.ts:451-465 | untyped serialization succeeds if and only if the document is at most 2^31-1 bytes and holds no invalid date; with one it ends in a RangeError |
| EndToEnd.EchoAny | packages/bson/src/serializer.ts:451-465 | serializing and parsing an untyped value gives its normal form, and fails exactly on size |
| Cycles.OwnAncestor | packages/bson/src/serializer.ts:2080-2091 | only objects of types marked by hasCircularReference can be their own ancestors |
| Cycles.SeenIsAncestor | packages/bson/src/serializer.ts:1962-1968 | the test on the seen set is the test for an own ancestor, across types and through arrays |
| Cycles.CycleGuard.NestedObject | packages/bson/src/serializer.ts:2067-2097 | with the seen set equal to the marked objects on the path, nothing is written for an object on the path and header and document for any other, and the set is restored |
| Cycles.CycleGuard.Properties | packages/bson/src/serializer.ts:474-576 | properties of cut objects are omitted, all others written in order, in a buffer of any size; the seen set is restored |
| Cycles.CycleGuard.Root | packages/bson/src/serializer.ts:686-762 | the root is entered first, and the whole graph realises its script |
| Cycles.CutEmitExact | packages/bson/src/serializer.ts:2067-2097 | the script of a reference is empty if and only if it is cut, and else the encoding of its tree |
| Cycles.GraphExact | packages/bson/src/serializer.ts:686-762 | the script of a graph is the encoding of the cut tree |
| Cycles.CutIndexed | packages/bson/src/serializer.ts:2183-2211 | the elements of an array in a graph are named by their positions, those of cut ones being missing |
| Unfolding.AcyclicIsTyped | packages/bson/src/serializer.ts:686-762 | for a graph without cycles the tree is the document of the typed value it unfolds to, shared objects written several times |
| Stream.SplitConserves | packages/bson/src/stream.ts:25-65 | messages and left-over bytes together are the stream |
| Stream.SplitResumes | packages/bson/src/stream.ts:25-65 | splitting a stream can be resumed anywhere, and an invalid size is found at the same place |
| Stream.SplitFramed | packages/bson/src/stream.ts:25-65 | every message has the length in its first four bytes, and what is left is no message: less than four bytes, longer than what is there, or of a size below 1 |
| Stream.BSONStreamReader.PeekInt32 | packages/bson/src/stream.ts:67-82 | the size is that of the concatenated chunks, also when it is spread over several |
| Stream.BSONStreamReader.Consume | packages/bson/src/stream.ts:84-114 | exactly the first bytes are taken, chunks stay non-empty and the total is their length |
| Stream.BSONStreamReader.ProcessChunks | packages/bson/src/stream.ts:57-65 | emits exactly the messages of the buffered bytes and fails exactly on an invalid size |
| Stream.BSONStreamReader.Feed | packages/bson/src/stream.ts:25-51 | from any state, dead ones included: exactly the messages of buffered plus new bytes, an error exactly on an invalid size, and what is buffered then |
| Stream.FeedAll | packages/bson/src/stream.ts:25-65 | for every way of cutting a stream, messages, left-over and failure depend on the concatenated bytes alone |
| Stream.AfterError | packages/bson/src/stream.ts:25-65 | after an error nothing is buffered if nothing was before; otherwise an invalid size is at the front of the buffer |
| Stream.DeadForever | packages/bson/src/stream.ts:48-62 | from then on every non-empty chunk throws, nothing is emitted and all bytes are kept |
| Stream.FeedOn | packages/bson/src/stream.ts:25-65 | what feeding on after caught errors emits, keeps and throws |
| Snapshot.EntrySize | packages/broker/src/model.ts:271-276 | a snapshot entry takes at least 53 bytes |
| Snapshot.MessageSize | packages/broker/src/model.ts:291-303 | a queue message takes at least 67 bytes |
| Snapshot.EntrySpelled | packages/broker/src/model.ts:271-276 | the properties of an entry under their names, in order |
| Snapshot.MessageSpelled | packages/broker/src/model.ts:291-303 | the properties of a message under their names, optional ones only if given |
| Snapshot.EnsureDocument | packages/broker/src/snapshot.ts:32-42 | on any stream: it spins if and only if the stream is not empty and does not cover a size of at least 1; otherwise the size is that of the stream, and exactly what the probe read beyond it is in the buffer |
| Snapshot.ReadAheadIff | packages/broker/src/snapshot.ts:32-53 | nothing is read ahead, so nothing is lost when the buffer is dropped, if and only if the document is at least 32 bytes long or the last |
| Snapshot.EndsIff | packages/broker/src/snapshot.ts:32-42 | the loop ends if and only if the stream is empty, or has four bytes and covers the size in them, which is not 0 |
| Snapshot.NeverEnds | packages/broker/src/snapshot.ts:32-42 | on any other stream everything is read, and from then on a turn changes nothing |
| Snapshot.CutDocumentIff | packages/broker/src/snapshot.ts:32-42 | of a document's first bytes, the loop ends on none and on all |
| Snapshot.ProblemIff | packages/broker/src/snapshot.ts:73-79 | only exactly-once messages need a hash and a ttl, and a falsy one is missing, the hash being looked at first |
| Snapshot.FirstProblemIff | packages/broker/src/snapshot.ts:67-83 | of several problems the first counts |
| Snapshot.HashesIff | packages/broker/src/snapshot.ts:73-82 | the hashes to remember are those of the exactly-once messages |
| Trees.TreeReadsBack | packages/bson/src/reader.ts:429-479 | a well-formed document is read back from its bytes, so no two documents share them |
| SnapshotTypes.EntryReadsBack | packages/broker/src/model.ts:271-276 | the document of an entry is that of the typed serializer, and is decoded, by the slow path and by learned shapes, to the same entry |
| SnapshotTypes.MessageReadsBack | packages/broker/src/model.ts:291-303 | the same for messages, with enums, the union at hash, binary payload and absent or undefined options |
| SnapshotTypes.MessageIs | packages/broker/src/model.ts:291-303 | the properties of the decoded object are those of the message |
| SnapshotFile.SnapshotState | packages/broker/src/snapshot.ts:10-30 | with any shared buffer: entry and messages of each queue, in order; it fails if and only if one of them fits no buffer |
| SnapshotFile.ReadMessage | packages/broker/src/snapshot.ts:70 | with any learned shapes the deserializer gives back the message whose document it is handed |
| SnapshotFile.RestoreMessages | packages/broker/src/snapshot.ts:67-83 | the messages that are in the file, in order, and the hashes of the exactly-once ones, or the first missing hash or ttl; it spins exactly if the file ends within a message |
| SnapshotFile.RestoreQueue | packages/broker/src/snapshot.ts:51-84 | one turn: the next queue as far as it is in the file, the first of its problems, or the end of the file |
| SnapshotFile.PrefixIsCut | packages/broker/src/snapshot.ts:10-30 | wherever a snapshot is cut off, it is whole queues followed by a part of an entry, or by an entry, some messages and a part of the next |
| SnapshotFile.RestoreState | packages/broker/src/snapshot.ts:47-85 | on a snapshot cut off anywhere: name, counter, messages and dedup hashes of every queue up to the cut, or the first missing hash or ttl, or spinning exactly within a document |
| SnapshotFile.SaveAndRestore | packages/broker/src/snapshot.ts:10-85 | saving, cutting the file off anywhere and restoring, with any buffer and any learned shapes: all that is in the file, or spinning exactly within a document |
| SnapshotFile.RestoredQueue | packages/broker/src/snapshot.ts:57-65 | with distinct names each queue is found under its name, with its counter, its messages and the hashes of its exactly-once messages |
| SnapshotFile.RestoredPart | packages/broker/src/snapshot.ts:57-72 | the queue whose messages are cut off is found with those that are in the file |
| BrokerQueue.StepKeepsInv | packages/broker/src/kernel.ts:471-562 | publish, subscribe, unsubscribe, handled and timers keep caps, id uniqueness and one expiry for each hash |
| BrokerQueue.RunKeepsInv | packages/broker/src/kernel.ts:471-562 | the same over every interleaving of these with time going forward |
| BrokerQueue.DedupWindow | packages/broker/src/utils.ts:25-35 | in every run, two accepted exactly-once messages of one hash are at least the first one's interval apart, for intervals below 2^31 |
| BrokerQueue.DedupWindowIff | packages/broker/src/utils.ts:31 | an interval is kept in every run if and only if it is below 2^31 |
| BrokerQueue.OverlongBreaks | packages/broker/src/utils.ts:31 | for each longer interval a run accepts the same hash twice within a millisecond |
| BrokerQueue.SubscribeCapIff | packages/broker/src/kernel.ts:471-474 | a consumer's cap is the one asked for if and only if that is 1 |
| BrokerQueue.UnsubscribeIff | packages/broker/src/kernel.ts:476-481 | the first consumer of the connection is removed, and nothing changes if and only if it has none |
| BrokerQueue.HandledIff | packages/broker/src/kernel.ts:535-552 | the message leaves the first consumer of the connection if that is handling it; otherwise nothing changes |
| BrokerQueue.AnswerIs | packages/broker/src/kernel.ts:553-559 | an error counts before success, success before a delay, which leaves the state alone |
| BrokerQueue.PublishedIff | packages/broker/src/kernel.ts:483-511 | when a publication is refused for its interval or its hash, a duplicate, delayed or delivered |
| BrokerQueue.PublishedRecord | packages/broker/src/kernel.ts:486-518 | state, tries, delay and ttl of the new message, whose id is used up in any case |
| BrokerQueue.AcceptedIff | packages/broker/src/utils.ts:25-35 | which publications are remembered, and for how long |
| BrokerQueue.SentInOrder | packages/broker/src/kernel.ts:513-527 | the message is sent to the free consumers in their order |
| BrokerQueue.DuplicateIff | packages/broker/src/utils.ts:25-35 | a publication is a duplicate exactly while the timer of its hash is pending |
| BrokerQueue.DeliveredIff | packages/broker/src/kernel.ts:508-527 | a delivered message is in flight at exactly the consumers below their cap, and other messages stay; refused or delayed ones are nowhere |
| BrokerQueue.BrokerState.QueuePublish | packages/broker/src/kernel.ts:483-530 | publishing changes the named queue as Publish says and no other |
| BrokerQueue.BrokerState.DeliverToFree | packages/broker/src/kernel.ts:513-527 | the loop hands the message to the free consumers in order and counts the tries on the shared message |
| BrokerQueue.BrokerState.QueueUnsubscribe | packages/broker/src/kernel.ts:476-481 | the first consumer of the connection is removed |
| BrokerQueue.BrokerState.QueueMessageHandled | packages/broker/src/kernel.ts:535-562 | the message leaves the consumer's map and takes the answered state; unknown queues, consumers and ids change nothing |
| Throttle.StepKeepsInv | packages/core-rxjs/src/utils.ts:164-216 | conservation, one handler at a time and the settling rule are kept by every callback |
| Throttle.ThrottleCorrect | packages/core-rxjs/src/utils.ts:164-216 | in every error-free run at most one handler runs, the batches are the messages in order, and the promise is resolved once, exactly when the source has completed and no handler runs, the i-th result being the answer to the i-th batch |
| Throttle.CompletionProgress | packages/core-rxjs/src/utils.ts:190-197 | after completion at most two handler runs are left |
| Throttle.RejectedIff | packages/core-rxjs/src/utils.ts:198-213 | the promise is rejected if and only if the source or a handler fails |
| Throttle.BatchIff | packages/core-rxjs/src/utils.ts:178-213 | each event starts a batch if and only if its guard holds, and the batch is all messages waiting |
| Throttle.BatchSizeIff | packages/core-rxjs/src/utils.ts:178-213 | the batches of a run are within batchSize if and only if at most that many messages wait whenever one is started |
| Throttle.PromptInBounds | packages/core-rxjs/src/utils.ts:178-213 | they are if fewer wait whenever a handler returns |
| Throttle.LastFlushIs | packages/core-rxjs/src/utils.ts:185 | in every run lastFlush is the time of the last event that started a batch, or the start time |
| Throttle.WaitsIff | packages/core-rxjs/src/utils.ts:204-209 | in every run an arriving message keeps waiting for an idle handler if and only if it comes within maxWait of the last start of a batch and does not fill the batch |
| Throttle.StaysIff | packages/core-rxjs/src/utils.ts:204-209 | in every run waiting messages stay, for however long, if and only if the source goes on, all further messages come within maxWait of the last start of a batch and do not fill the batch |
| Throttle.MaxWaitMayPass | packages/core-rxjs/src/utils.ts:154-162 | a first message is overdue once maxWait has passed, with nothing handed to the handler |
| Throttle.BatchMayExceedSize | packages/core-rxjs/src/utils.ts:157-162 | a concrete run with a batch above the documented maximum |
| Throttle.Throttler.FlushNow | packages/core-rxjs/src/utils.ts:178-202 | flush changes the closure's variables as the step function says |
| Throttle.Throttler.Returned | packages/core-rxjs/src/utils.ts:190-197 | the fulfilment callback resolves, flushes again or waits |
| Stacking.ExclusionIff | packages/core/src/decorators.ts:57-80 | for any number and nesting of calls and any order of resumptions: at most one run is in flight throughout if and only if no call is made during the synchronous part of a run |
| Stacking.OnlyHolderClears | packages/core/src/decorators.ts:73-77 | in such runs only the call that holds the slot clears it, after its run has ended |
| Stacking.HolderIff | packages/core/src/decorators.ts:67-77 | one more call leaves the slot to its holders, whatever follows without nesting, if and only if it is not made during the synchronous part of a run |
| Stacking.ReentrantTrace | packages/core/src/decorators.ts:71 | a method that calls itself before its first await: two runs in flight, the slot cleared by a call that does not hold it, a third call in the method |
| Stacking.EveryCallAccounted | packages/core/src/decorators.ts:57-80 | nested calls included, by the history of runs: an ended call ran once and returns that run's outcome, or never ran and rejects with the error of another call's run; under singleStack it takes that run's outcome |
| Stacking.RunsAreOwners | packages/core/src/decorators.ts:57-80 | there are as many runs as calls that hold or held the slot |
| Stacking.CloserIff | packages/core/src/decorators.ts:67-77 | in every run each step but a new call brings the calls closer to their end, if and only if it is not a call that tries again and finds the slot taken, which keeps all distances |
| Stacking.AllCanEnd | packages/core/src/decorators.ts:67-77 | from every reachable state all calls made so far can end without further calls, in at most as many steps as the sum of their distances |
| Stacking.SelfAwaitIff | packages/core/src/decorators.ts:67-69 | while a run awaits a call of its own instance, that call can end if and only if it has ended or is about to take an earlier run's outcome |
| Stacking.SelfAwaitHangs | packages/core/src/decorators.ts:67-69 | a new call that the run in flight awaits never ends |
| Stacking.Instance.Returned | packages/core/src/decorators.ts:71 | the assignment to the slot, once the method has returned its promise |
| Stacking.Instance.Resumed | packages/core/src/decorators.ts:67-77 | the continuation of a call: look at the slot again and enter the method, reject, share or release |

## Assumptions about the engine

`Types.Host` and `Untyped.Engine` hold the engine functions the codec calls: `TextDecoder` and `TextEncoder` (assumed to
follow RFC 3629 on valid input), the number in eight bytes, conversions between numbers, bigints, strings and dates, and
the RegExp constructor. Doubles are int32, NaN or opaque eight bytes. readInt64AsNumber adds two words in double arithmetic;
as a number its result is `bigToNum` of the 64-bit integer, and as a Date, where it is exact within the range of valid
dates, it is kept as an integer. Timers fire when they are due or later; setTimeout takes a delay outside 1..2^31-1 for 1.

## Left out

- Generated JavaScript, the `Builder` and V8: only what the emitted code does is modelled.
- Reflection: annotations, naming strategies, `hasCircularReference` (its result is a parameter of `Cycles`), classes,
  inheritance, references, excluded and embedded properties, default values and index signatures.
- Unions beyond `T | null` and `string | number`, tuples, enums that are not int32, Map, Set, RegExp and binary types
  beyond `Uint8Array` in typed documents. They would add cases of the same kinds.
- Property names known from the type with char codes above 255: they spill into neighbouring bytes when written and never
  match when read. A field's name is given by its bytes.
- Number types with a brand (`integer`, `uint8`, `float` and the like), which fix int32 or double at generation time.
- Values whose JavaScript type does not match the declared one: the `typeof` guards of the serializer.
- Order of properties in decoded objects: objects are maps (typed) or lists in insertion order (untyped), where
  integer-like keys are not moved to the front.
- Stream.BSONStreamReader.Feed: calls of `feed` from within `onMessage`, an `onMessage` that throws, and callers that
  change a chunk after feeding it, whose bytes the reader may still hold as a view.
- SnapshotFile.RestoreState: the timers armed for restored hashes are not part of the result; nor are the queues already
  restored when it throws.
- Type-wrapped values (`BSONValue`) in untyped documents, and the tolerant mode of the parsers.
- BrokerQueue.BrokerState.QueuePublish: the message sent to a connection is its number in the result.
- Queue delivery guarantees, delays and retries, which the program leaves open; bus, cache, locks and the RPC transport.
- Wrapped methods that throw synchronously or return no promise, for `stack` and `singleStack`.
- Throttle.ThrottleCorrect: runs in which the source or the handler fails only keep conservation and one handler at a
  time, and reject.
