# A verified model of the Aerospike client

The client library talks to a cluster of database nodes. This project models the parts of it in which
a mistake would be hard to see, and proves what they are for:

- **The codec** (`bytes`, `values`, `encoding`, `encoder`, `decoding`, `decoder`, `roundtrip`, `particles`, `formats`). The
  recursive printer and parser for values in MessagePack with a particle byte inside every string. The printer
  runs twice over the same code, once without a buffer to add up the size and once to write. `Enc` and `DecValue`
  say what the bytes are and how any bytes are read; the methods of `Encoder` and `Decoder` work on the mutable
  buffer as the program does and are proved against them. `Formats` says of each format what is read from it, also of those
  that only a server writes.
- **Expressions and collection operations** (`skipper`, `cdt`, `expressions`, `cdtreader`, `expreader`, `misread`). Array
  headers are written before the elements; a reader that knows only the structure of MessagePack checks that every count
  is right, and readers of the two formats find every code, name, flag and value in its place.
- **The commands** (`buffer`, `messages`, `commands`, `headers`, `told`, `asked`, `builders`, `recordbuilders`,
  `scanbuilders`, `batches`, `batchbuilder`, `stored`). Every builder sizes the reused buffer in one pass and fills it
  in another. `Commands` says which message each call stands for, `Messages` and `Batches` hold independent readers of messages
  and batch rows, and the builders are proved to leave exactly the bytes that these readers take apart again. `Told` and `Asked` state
  what is found in these bytes by the numbers of the protocol alone.
- **The record queue** (`recordsets`, `fullqueues`). A bounded queue between producers and consumers made of separate atomics.
  Every atomic operation is a step of a state machine; the theorems hold for every run.
- **Connections** (`accounts`, `pools`, `roundrobin`, `retries`). The count of a queue, the split of a node's capacity
  over queues, the rotating search, and the retry loop that must give every connection back once.
- **Partitions and batches** (`partitions`, `routing`, `jobs`). The map of owners, its readers, the groups of
  a batch and the threads that share them.
- **Host lists** (`hosts`).
- **Counterexamples** (`counterexamples`). Inputs on which the program does not do what one would expect.

Run `dafny verify dfyconfig.toml` to check everything.

## Conventions

- A byte is a number below 256. A hash map is the sequence of its entries in the order of one iteration; its meaning
  is a map, so every statement about it holds for every order. Floats are bit patterns.
- A write out of bounds panics in the program. In the model the room is a precondition, so that the builders
  are proved never to panic there. Reads meet whatever a server sent, so reading methods return `Panic`.
- `Outcome` has a value, an error, or a panic. Arithmetic is checked: an overflow of a narrow integer is a
  panic, as in a build with overflow checks.
- Text is bytes that are valid UTF-8. Lengths are unbounded numbers; where the program casts them to a
  narrower type, the model takes the remainder, and the theorems say from where on that matters.
- Locked sections, and atomics with relaxed ordering, are steps that take effect one after the other.

## Where the program does not do what one would expect

These are proved, each with its exact condition, and `Counterexamples` has an input for most of them:

- An unsigned integer that fits a signed one, a NaN with unusual bits and an HLL inside a list or map do not come back
  as they were (`Values.ReadBackIsExact`).
- An ext element whose length is the largest of its width makes the decoder panic (`RoundTrip.ListOrderFlag`).
- A query with an index filter and an empty list of bins counts a field that is not written
  (`ScanBuilders.QueryIsReadBack`).
- A batch read with a filter expression announces a field that is longer than the message (`Batches.BatchFraming`).
- A connection that is put back into a queue at its capacity is closed, so a queue of one connection never reuses
  it (`Accounts.KeptExactly`, `Accounts.IdleBelowCapacity`).
- A producer that holds a record for a full queue does not notice that the user has closed the recordset; it ends
  only if somebody goes on reading or there is room for what has been parsed (`FullQueues.CanEndExactly`).
- A batch with a maximum of zero threads succeeds without asking anybody (`Jobs.OkMeansAllRanExactly`).
- An operate command that only reads is sent like a write, with the user key and the write policy, if one of its
  operations is on a map, bits or an HLL or is an expression (`Headers.SentLikeWriteExactly`).
- A counter that wraps around on the way may miss a queue with room, and one that goes through zero may miss an active
  node (`Pools.SearchMissesExactly`, `Routing.RandomNodeMissesExactly`).
- A list or map operation without a context is packed to more than one object (`Cdt.CdtIsObject`).
- A list that is not quoted is packed to the bytes of another expression (`Misread.ExpressionIsSeen`).
- More than 65,535 bin names in a row of a batch wrap its count (`Batches.CompressionLosesNothing`), and 256 names, or a
  name of 256 bytes, in the list of a query with an index filter do the same (`Asked.ListIsRead`).
- A port that does not parse is taken for a TLS name, and the default port is used (`Hosts.PortOrDefault`).

## Model

| member | source | states |
|---|---|---|
| `Values.ReadBackIsExact` | src/msgpack/encoder.rs:28-45 | A value, with its hash maps in any iteration order, comes back from the wire with the meaning it was given exactly if no unsigned integer in it fits a signed one, no NaN in it has unusual bits, and no HLL is nested in it. |
| `Values.NormalMeaning` | src/msgpack/encoder.rs:28-45 | If what a value means would survive the wire unchanged, then every scalar in it is one the wire keeps; distinct map keys hide no counterexample. |
| `Values.ScalarReadBackIsNormal` | src/value.rs:73-130 | What comes back of a scalar would come back again unchanged, and equals the scalar exactly if that was normal: NaN bits are made canonical, small unsigned integers become signed, an HLL becomes a blob. |
| `Encoder.PackValue` | src/msgpack/encoder.rs:28-45 | Whether there is a buffer or not, the returned size is the length of the encoding; with a buffer exactly these bytes are written at the offset, everything else stays, and the offset moves by the size. |
| `Encoder.PackArray` | src/msgpack/encoder.rs:166-175 | The count of the header is the number of elements that follow it; the size passes and the write passes agree. |
| `Encoder.PackMap` | src/msgpack/encoder.rs:178-188 | The same for the entries of a hash map, in whatever order they are iterated. |
| `Encoder.PackInteger` | src/msgpack/encoder.rs:332-361 | One of the nine forms by the range of the value, in place and with its size; with the round trip, no form is read back as another number. |
| `Encoder.PackU64` | src/msgpack/encoder.rs:392-402 | Values that fit a signed integer take its form, the others the unsigned marker; size and bytes agree. |
| `Encoder.PackRawString` | src/msgpack/encoder.rs:307-316 | A string without the particle byte, with its length in the header. |
| `Encoder.PackText` | src/msgpack/encoder.rs:281-328 | A blob, string or GeoJSON: the header counts the particle byte in front of the text. |
| `Encoder.PackScalar` | src/msgpack/encoder.rs:28-45 | Each scalar kind is written by its own branch, with size and bytes in agreement. |
| `Encoder.PackMapBegin` | src/msgpack/encoder.rs:254-260 | The header with the number of entries, of 1, 3 or 5 bytes. |
| `Encoder.PackArrayBegin` | src/msgpack/encoder.rs:263-269 | The header with the number of elements, of 1, 3 or 5 bytes. |
| `Encoder.PackByteArrayBegin` | src/msgpack/encoder.rs:272-278 | The header with the number of bytes, of 1, 3 or 5 bytes; no 8-bit form is used. |
| `Decoder.UnpackValue` | src/msgpack/decoder.rs:114-220 | On any bytes whatever: the value, the error or the panic of `DecValue`, and the offset behind what was read; `Formats` says form by form what that is. The recursion ends because every value takes at least one byte. |
| `Decoder.UnpackList` | src/msgpack/decoder.rs:58-71 | Reads the announced number of elements, but first skips an ext element that stands for an ordering flag, which counts as one of them. |
| `Decoder.UnpackMap` | src/msgpack/decoder.rs:73-88 | Inserts the announced number of entries, a later one over an earlier one with the same key; a leading ext key is skipped with the value behind it. |
| `Decoder.UnpackBlob` | src/msgpack/decoder.rs:90-112 | The particle byte decides between string, blob and GeoJSON; the length counts it, text must be UTF-8, and other particles are an error. |
| `Decoder.UnpackSizedBlob` | src/msgpack/decoder.rs:155-176 | The same behind a length of 1, 2 or 4 bytes. |
| `Decoder.SkipSizedExt` | src/msgpack/decoder.rs:137-194 | Skips an ext object behind its length; the sum of the length and its type byte is computed in the width of the length and panics if it does not fit. |
| `Decoder.UnpackInt` | src/msgpack/decoder.rs:114-220 | Integers of every width, two's complement where the marker says so, with the offset behind them. |
| `Decoder.UnpackWide` | src/msgpack/decoder.rs:114-220 | Floats, with NaN made canonical, and 64-bit unsigned integers, which stay unsigned. |
| `Formats.BigEndianDigit` | src/commands/buffer.rs:1378-1420 | Byte for byte: a number is written with its most significant digit to the base of 256 first. |
| `Formats.UnsignedForms` | src/msgpack/decoder.rs:157-160 | Between any bytes, each unsigned form, of one byte or behind 0xcc, 0xcd, 0xce and 0xcf, is read as the number in it, also the short form 0xcc that the packer never writes; only the last one stays unsigned. |
| `Formats.SignedForms` | src/msgpack/decoder.rs:161-165 | Each signed form, a single byte from 0xe0 on or behind 0xd0 to 0xd3, is read as the number of which it holds the two's complement. |
| `Formats.FloatForms` | src/msgpack/decoder.rs:155-156 | Both floats are read bit by bit, except that a NaN, with an exponent of ones and a mantissa that is not zero, becomes the quiet one. |
| `Formats.TextForms` | src/msgpack/decoder.rs:90-112 | A text is the same behind each of the seven headers that can announce it; its first byte alone decides between string, blob, GeoJSON, error and panic, and a string must be valid. |
| `Formats.EmptyTextPanics` | src/msgpack/decoder.rs:90-112 | A text without a particle byte panics, behind each of the headers. |
| `Formats.ListForms` | src/msgpack/decoder.rs:58-71 | A list is the same behind each header that can announce its elements. |
| `Formats.MapForms` | src/msgpack/decoder.rs:73-88 | A map is the same behind each header that can announce its entries. |
| `Formats.LastEntryWins` | src/msgpack/decoder.rs:73-88 | A key that is sent twice has the value that was sent last, and only keys that were sent are in the map. |
| `Formats.ByteBins` | src/value.rs:658-696 | A bin of code 4 or 18 is a blob or a sketch, byte for byte, and one of code 3 a string or an error. |
| `Formats.NumberBins` | src/value.rs:658-696 | A bin of code 1 is a two's complement integer, of code 2 a float, and of code 17 false exactly for a zero or no byte. |
| `Formats.GeoBin` | src/value.rs:658-696 | A GeoJSON bin with any number of cells: eight bytes are skipped for each, and the text behind them is read, or is an error; a number of cells that is negative panics. |
| `RoundTrip.NormalRoundTrip` | src/msgpack/encoder.rs:28-45 | Main result of the codec: packed anywhere, between any prefix and any suffix, and in any map order, a value unpacks to its meaning with the offset at the end of its bytes, exactly if it is in normal form. |
| `RoundTrip.ValueRoundTrip` | src/msgpack/decoder.rs:114-220 | Every value, normal or not, unpacks to a definite datum and consumes exactly the packed bytes. |
| `RoundTrip.ItemsRoundTrip` | src/msgpack/encoder.rs:166-175 | The elements of a list unpack one after the other, each from where the one before ended. |
| `RoundTrip.EntriesRoundTrip` | src/msgpack/encoder.rs:178-188 | The entries of a map unpack into the map that inserting them in order gives, on top of any map read so far. |
| `RoundTrip.IntRoundTrip` | src/msgpack/encoder.rs:332-361 | Every 64-bit integer, in whichever of the nine forms it is packed, unpacks to itself. |
| `RoundTrip.TextRoundTrip` | src/msgpack/encoder.rs:281-328 | Every blob and every valid text unpacks to itself with its kind, at all three lengths of header. |
| `RoundTrip.ScalarRoundTrip` | src/msgpack/encoder.rs:234-420 | Every scalar unpacks to what the wire makes of it. |
| `RoundTrip.NoValueIsExt` | src/msgpack/decoder.rs:222-224 | No packed value begins with an ext marker, so a plain list or map is never taken for a flagged one. |
| `RoundTrip.ValidIsHashable` | src/value.rs:196-220 | The keys that a hash map can hold are keys that the decoder can hash. |
| `RoundTrip.ExtIsSkipped` | src/msgpack/decoder.rs:137-194 | An ext object of any of the eight forms is read as nil and skipped to its end, or panics, exactly by whether its length plus one fits the width of the length. |
| `RoundTrip.ListOrderFlag` | src/msgpack/decoder.rs:58-71 | With an ext element in front and a count one higher, a list reads as the same list, exactly if the length of the ext element does not overflow. |
| `RoundTrip.MapOrderFlag` | src/msgpack/decoder.rs:73-88 | With an ext key and a nil value in front and a count one higher, a map reads as the same map, exactly if the length of the ext element does not overflow. |
| `Particles.EstimateSize` | src/value.rs:268-286 | The size is the number of bytes that writing the value as a particle produces. |
| `Particles.WriteTo` | src/value.rs:289-306 | Writes those bytes at the offset, changes nothing else, and moves the offset behind them. |
| `Particles.BytesToParticle` | src/value.rs:658-696 | For any type code, length and data: the value, error or panic that the particle formats give, and the final offset. |
| `Particles.UnpackValueList` | src/msgpack/decoder.rs:24-39 | The top of a list bin: only an array marker is accepted, and an empty buffer is an empty list. |
| `Particles.UnpackValueMap` | src/msgpack/decoder.rs:41-56 | The top of a map bin: only a map marker is accepted, and an empty buffer is an empty map. |
| `Particles.ReadGeo` | src/value.rs:658-696 | GeoJSON behind its flags and cells, and a panic where the subtraction of the header would go below zero. |
| `Particles.ParticleRoundTrip` | src/value.rs:658-696 | A particle of any kind reads back, with the estimated size given as its length, and all its bytes are consumed. |
| `Particles.NormalParticleRoundTrip` | src/value.rs:268-306 | A bin value reads back with the meaning it was written with exactly if it is normal: HLL, unlike inside a list, is, and so is every scalar but a NaN of unusual bits. |
| `Skipper.ValueIsObject` | src/msgpack/encoder.rs:28-45 | A reader that only knows the structure of MessagePack takes a packed value, however nested, for exactly one object. |
| `Cdt.PackCdt` | src/operations/cdt.rs:45-58 | The encoder of a collection operation returns the same size with a buffer and without, and writes exactly these bytes. |
| `Cdt.PackWithContext` | src/msgpack/encoder.rs:56-100 | With a context, the operation is written as a triple of a marker, the context and the operation. |
| `Cdt.PackContext` | src/msgpack/encoder.rs:131-144 | The context array counts an identifier and a value for each entry; flags are left out of identifier 0 and of the expression form. |
| `Cdt.ContextWraps` | src/msgpack/encoder.rs:131-144 | A context in front of one complete object makes one complete object of both. |
| `Cdt.CdtIsObject` | src/msgpack/encoder.rs:56-163 | A packed list, map, bit or HLL operation, with any arguments, is one complete object exactly if it is not a list or map operation without a context. |
| `Cdt.PlainOperationIsNoObject` | src/msgpack/encoder.rs:62-66 | The old form is never one object: the zero in front of it is an object of its own. |
| `Expressions.Pack` | src/expressions/mod.rs:309-320 | A filter expression of any shape packs to the same size with and without a buffer, and to exactly the bytes of `EncExp`, which `Misread.ExpressionIsSeen` takes apart again. |
| `Expressions.PackExpression` | src/expressions/mod.rs:169-197 | Compound expressions: the count is written before the parts are, and its value depends on the command. |
| `Expressions.PackCommand` | src/expressions/mod.rs:199-302 | Every other command, with its own layout, agrees in size and bytes with `EncExp`. |
| `Expressions.PackCall` | src/expressions/mod.rs:220-262 | Module calls: contexts first, then the array of the other arguments, then the bin. |
| `Expressions.PackContexts` | src/expressions/mod.rs:229-247 | The first pass over the arguments writes the contexts and counts the others. |
| `Expressions.ExpIsObject` | src/expressions/mod.rs:169-320 | A well-formed expression of any nesting is one object for the structural reader, or two for a definition, wherever it stands. |
| `Expressions.ExpressionIsComplete` | src/expressions/mod.rs:169-320 | Main result for expressions: the structural reader, started at the first byte of a packed well-formed expression, between any bytes, ends on the last one, so every header counts exactly what follows. |
| `Expressions.CompoundIsComplete` | src/expressions/mod.rs:169-197 | The counts of a compound expression come out right exactly if it has as many definitions as its command expects: all parts but the last of a let, and none elsewhere. |
| `Expressions.ArgumentsAreObject` | src/expressions/mod.rs:229-258 | The arguments of a call, with any number of contexts among them, are one complete object. |
| `Misread.ExpressionIsSeen` | src/expressions/mod.rs:169-320 | Main result: between any bytes, a reader of the wire format (an array, a code, and the parts of that code by position) sees in a packed well-formed expression its codes, bin types, flags, module, names, patterns, values, contexts, arguments and operands, each in its place, and ends on its last byte, exactly if the format can tell the expression apart. |
| `Misread.ArgumentsMisread` | src/expressions/mod.rs:229-258 | A list that is not quoted among the arguments, or the number 255 in front of two others, and the call is never seen as it is. |
| `Misread.LetMisread` | src/expressions/mod.rs:178-184 | If some part of a let is mistaken for another, then the let is not seen as it is, wherever the part stands. |
| `ExpReader.BinRead` | src/expressions/mod.rs:263-272 | A bin is read as the code 81, its type and then its name. |
| `ExpReader.RegexRead` | src/expressions/mod.rs:202-211 | A regex is read as the code 7, its flags, its pattern and then the bin. |
| `ExpReader.CallRead` | src/expressions/mod.rs:212-262 | A call is read as the code 127, its module, its flags, its contexts and arguments or its value, and then what it is made on. |
| `ExpReader.ContextsRead` | src/expressions/mod.rs:229-247 | All contexts are read in their order, wherever they stand among the arguments. |
| `ExpReader.LetRead` | src/expressions/mod.rs:169-197 | A let is read as pairs of a name and an expression, and then the expression they are for. |
| `CdtReader.CdtIsSeen` | src/msgpack/encoder.rs:56-163 | Main result: between any bytes, a reader finds in a packed operation its code, its arguments in order, and the steps of its context, with their flags merged into their ids unless the id is 0; an HLL operation sends no context, and a list or map operation without one has the old form. |
| `CdtReader.PathRead` | src/msgpack/encoder.rs:66-84 | The steps of a context come as pairs of an id with its flags and a value. |
| `CommandBuffer.SizedThenFilled` | src/commands/buffer.rs:121-140 | Whatever a buffer held before, longer or shorter, once it is resized to a message and filled with it, it holds the message and nothing else. |
| `CommandBuffer.UnsignedReadsBack` | src/commands/buffer.rs:1246-1300 | A number that was written in some number of bytes is read back from there exactly if it fits them; otherwise another number is. |
| `CommandBuffer.TextReadsBack` | src/commands/buffer.rs:1336-1340 | Bytes that were written are read back as the same text if they are valid UTF-8, and are an error if not. |
| `CommandBuffer.Buffer.WriteBytes` | src/commands/buffer.rs:1449-1458 | Writing byte by byte overwrites exactly the range at the offset. |
| `CommandBuffer.Buffer.WriteGeo` | src/commands/buffer.rs:1460-1466 | GeoJSON is written behind three zero bytes. |
| `Messages.FramingRoundTrip` | src/commands/buffer.rs:148-158 | Main result of framing: a reader that takes the header, walks the counted fields and then the counted operations by their lengths finds the command and ends on the last byte, exactly if the operations can be counted in 16 bits. |
| `Messages.FieldsRead` | src/commands/buffer.rs:1127-1146 | Walking the fields by their lengths gives back each code and body and ends behind the last one. |
| `Messages.OpsRead` | src/commands/buffer.rs:1168-1202 | The same for the operations. |
| `Messages.HeaderRead` | src/commands/buffer.rs:995-1097 | The attributes, generation, expiration and both counts are found where a reader expects them. |
| `Messages.PreludeSize` | src/commands/buffer.rs:1302-1306 | The length that is read from the first eight bytes is the length of the message without them. |
| `Messages.TimeoutKeepsCommand` | src/commands/buffer.rs:1468-1473 | Putting a timeout into a finished message does not change what a reader finds in it, for any bytes. |
| `Told.MessageTells` | src/commands/buffer.rs:148-158 | Whatever the number of fields in its header: a message begins with version 2, type 3 and its length in 48 bits, has a header of 22 bytes with the attributes, generation, expiration and counts in their places, and then its fields and its operations, to its last byte. |
| `Told.FindInRecord` | src/commands/buffer.rs:1099-1125 | Looking a field up by its number: 0 is the namespace, 1 the set, 2 the user key, 4 the digest and 43 the filter, and every other code only what follows. |
| `Told.OperateTold` | src/commands/buffer.rs:472-567 | The message of an operate command: the read bits 1, 2 and 32 by what its operations read, the write bits 1 and 128 by what they write and ask for, the policy and the user key exactly if one of these two is set, and the operations position by position. |
| `Builders.WriteFieldHeader` | src/commands/buffer.rs:1127-1132 | The length of the body plus its code, then the code. |
| `Builders.WriteField` | src/commands/buffer.rs:1134-1146 | A field of text or bytes, with a length that covers its code and body. |
| `Builders.WriteFieldValue` | src/commands/buffer.rs:1148-1154 | A field with a particle, whose length is the estimate and not measured. |
| `Builders.WriteFilterExpression` | src/commands/buffer.rs:1120-1125 | The filter field, whose length is the size from the size pass. |
| `Builders.WriteArgs` | src/commands/buffer.rs:1156-1166 | The field of UDF arguments, with the size of a dry run as its length; no arguments are an empty array. |
| `Builders.WriteKey` | src/commands/buffer.rs:1099-1118 | The key fields that the size pass counted; reading them back from where they were written, the namespace is found under the code 0 and the set under 1, each exactly if not empty, the digest under 4, and the user key with its particle code under 2 exactly if it is sent. |
| `Builders.EstimateKeySize` | src/commands/buffer.rs:930-955 | Adds exactly the bytes, and counts exactly the fields, that writing the key produces. |
| `Builders.EstimateFilterSize` | src/commands/buffer.rs:920-928 | Adds the bytes of the filter field; the size is positive exactly if there is a filter. |
| `Builders.EstimateArgsSize` | src/commands/buffer.rs:957-965 | Adds exactly the bytes of the arguments field. |
| `Builders.EstimateUdfSize` | src/commands/buffer.rs:967-977 | Adds exactly the bytes, and counts exactly the fields, of a UDF call. |
| `Builders.WriteOperationForBin` | src/commands/buffer.rs:1168-1181 | A bin behind its length, which is computed from the estimate; the length byte of its name is cut to 8 bits. |
| `Builders.WriteOperationForBinName` | src/commands/buffer.rs:1183-1202 | A bin name, or an operation without one, behind its length. |
| `Builders.WriteHeader` | src/commands/buffer.rs:995-1025 | The 22 bytes behind the prelude, whatever the buffer held before. |
| `Builders.WriteHeaderWithPolicy` | src/commands/buffer.rs:1028-1097 | The same with generation, expiration and the flags of a write policy. |
| `Builders.End` | src/commands/buffer.rs:148-158 | Length, message type and version in front, and the offset behind them. |
| `Builders.WriteTimeout` | src/commands/buffer.rs:1468-1473 | The timeout is found as a number in the bytes 22 to 25 of the finished message, no other byte changes, and a reader finds the same command as before. |
| `Builders.EstimateOperation` | src/operations/mod.rs:98-116 | The estimate of an operation is the length of its name and of what its data writes. |
| `Builders.WriteOperation` | src/operations/mod.rs:118-165 | Writes the header, the name and the data of an operation of any kind, with the length of the estimate in front. |
| `RecordBuilders.SetWrite` | src/commands/buffer.rs:161-198 | Main result of the builder: a message above the limit is refused, any other is left in the buffer as the bytes of the command and nothing else, so size pass and write pass agree, no write leaves the buffer, and nothing remains of what the buffer held before. In the buffer, by the numbers of the protocol, the namespace is found under the code 0, the set under 1, the digest under 4, the filter under 43, the user key under 2 exactly if the policy sends it; the header has the write bit 1 and the bits of the policy; and there is one operation for each bin with its code, type, name and value in their positions. |
| `RecordBuilders.SetDelete` | src/commands/buffer.rs:200-224 | As SetWrite, with the bits 1 and 2 for a delete, no operations and never a user key. |
| `RecordBuilders.SetTouch` | src/commands/buffer.rs:226-245 | As SetWrite, with the one operation 11, which has neither a name nor a value. |
| `RecordBuilders.SetExists` | src/commands/buffer.rs:247-271 | As SetWrite, with the read bits 1 and 32, no policy but the consistency level, no operations and no user key. |
| `RecordBuilders.SetRead` | src/commands/buffer.rs:273-305 | As SetExists, with the read bit 1 and an operation 1 for each bin name; or one of the two short forms. |
| `RecordBuilders.SetReadHeader` | src/commands/buffer.rs:307-326 | As SetExists, with one nameless operation. |
| `RecordBuilders.SetReadForKeyOnly` | src/commands/buffer.rs:328-347 | As SetExists, with the read bits 1 and 2 for all bins. |
| `RecordBuilders.CollectOperations` | src/commands/buffer.rs:472-535 | The attributes after all operations in order, and the bytes of all of them added to the offset. |
| `RecordBuilders.SetOperate` | src/commands/buffer.rs:472-567 | As SetWrite, for any mix of operations: the read bits 1, 2 and 32 by what they read, the write bits 1 and 128 by what they write and ask for, the policy and the user key exactly if one of the latter is set, and the operations in order. |
| `RecordBuilders.SetUdf` | src/commands/buffer.rs:569-598 | As SetWrite, with the write bit 1, no policy but the consistency level, and package, function and arguments under the codes 30, 31 and 32. |
| `Headers.PolicyIsTold` | src/commands/buffer.rs:1028-1097 | Every choice of a write policy (what to do with existing records, the expected generation and which, expiration, commit level, durable delete, consistency) can be read off the header, if the attributes of the command leave its bits open. |
| `Headers.CommandsTellPolicy` | src/commands/buffer.rs:161-245 | Write, delete and touch leave them open, so their headers tell the whole policy. |
| `Headers.WriteAttrTells` | src/commands/buffer.rs:480-533 | The write attribute after all operations is 1 if some operation writes, plus 128 if some operation asks for a response of its own, in whatever order they come. |
| `Headers.ReadAttrTells` | src/commands/buffer.rs:480-519 | The read bit is set exactly if some operation reads. |
| `Headers.ReadAttrStaysOpen` | src/commands/buffer.rs:480-519 | No combination of operations sets the bit of the consistency level. |
| `Headers.SentLikeWriteExactly` | src/commands/buffer.rs:535-558 | An operate command has the full header, which tells the whole write policy, and the user key, exactly if an operation writes or asks for a response of its own; otherwise the header tells the read bits and the consistency level and is empty apart from these. Map, bit, HLL and expression operations always ask, also when they only read. |
| `Headers.PolicySums` | src/commands/buffer.rs:1028-1097 | The attributes are those of the command plus 64 for consistency; 32, 4, 8 and 16 for create only, the two generation checks and durable delete; and 2, 8, 16 and 32 for the commit level and what to do with existing records. |
| `Headers.ReadAttrSum` | src/commands/buffer.rs:480-519 | The read attribute of an operate command is 1 if some operation reads, 2 more exactly if one reads every bin and 32 more exactly if one reads none. |
| `Headers.BitIsDigit` | src/commands/buffer.rs:1035-1063 | Testing a bit of an attribute is asking for a binary digit. |
| `ScanBuilders.WritePids` | src/commands/buffer.rs:682-685 | The partitions of a scan, two little-endian bytes each, behind their total length. |
| `ScanBuilders.SetScan` | src/commands/buffer.rs:600-711 | For scans, a message above the limit is refused and any other is left in the buffer to the last byte; the partitions are found under the code 11, two bytes each with the low one first, the timeout under 9, the task under 7, namespace, set and filter as in SetWrite; the read bits are 1, and 32 if no bins are wanted. |
| `ScanBuilders.EstimateIndexFields` | src/commands/buffer.rs:757-790 | The size pass is right about the fields of an index filter or of partitions, except that it counts an empty list of bins as a field of six bytes. |
| `ScanBuilders.EstimateIndexFilter` | src/query/filter.rs:72-76 | The estimate is the number of bytes that are written for the filter. |
| `ScanBuilders.WriteIndexFilter` | src/query/filter.rs:79-91 | The bin name, the particle type and both ends of the range, each end behind its length. |
| `ScanBuilders.SetQuery` | src/commands/buffer.rs:714-918 | As SetScan, for queries: the index name under 21, its type under 26 and the range under 22, the list of bins under 40 or as operations, and a call under 33, 30, 31 and 32; except that with a filter and an empty list of bins the message is six bytes short of the buffer and announces one field too many. |
| `ScanBuilders.QueryFraming` | src/commands/buffer.rs:757-775 | A query that was sent can be read back exactly if it is not in that case and its operations can be counted. |
| `ScanBuilders.QueryIsReadBack` | src/commands/buffer.rs:714-918 | In terms of the arguments: a query that was sent is read back exactly if it does not combine an index filter with an empty list of bins, and its bin names can be counted. |
| `ScanBuilders.SentIsFramed` | src/commands/buffer.rs:148-158 | Every other command that was sent can be read back from the buffer, and the length in front is the length of the buffer less eight. |
| `ScanBuilders.FewFields` | src/commands/buffer.rs:714-918 | No command has so many fields that their count wraps. |
| `Asked.QueryIsAsked` | src/commands/buffer.rs:800-918 | Looking the fields of a query up by their numbers gives, for every statement: namespace, set, index name, task and filter; partitions, or the type and the range of an index and the list of bins; and the call, with 2 if no bins are returned and 1 otherwise. |
| `Asked.RangeIsRead` | src/query/filter.rs:79-91 | A range is read back, with the bin, the type of its values and the bytes of its begin and its end in this order, exactly if the name of the bin is shorter than 256 bytes. |
| `Asked.ListIsRead` | src/commands/buffer.rs:866-885 | A list of bins in a query is read back exactly if it has fewer than 256 names, each shorter than 256 bytes. |
| `Asked.PairsAt` | src/commands/buffer.rs:682-685 | Partition for partition, two bytes with the low one first. |
| `Stored.BinIsReadBack` | src/commands/buffer.rs:1168-1181 | Decoding the operation of a bin by the client's own rules finds its name and the meaning of its value exactly if the name is shorter than 256 bytes and the value is normal. |
| `Stored.WriteIsReadBack` | src/commands/buffer.rs:161-198 | End to end: from the buffer that set_write leaves, a reader recovers the command, and each bin with its name and meaning under exactly that condition. |
| `BatchBuilder.SetBatchRead` | src/commands/buffer.rs:349-470 | A batch read above the limit is refused; any other is left in the buffer with one row for each offset and the back-patched length, without slack and without old bytes. Its header has the bits 1 and 8; without a filter its one field has the code 41, or 42 if sets are named, the number of rows, the flag for inline answers, and the rows that were asked for. |
| `Batches.RepeatsExactly` | src/batch/batch_read.rs:46-52 | A row repeats the header of the one before it exactly if set names are sent and both ask for the same bins of the same namespace and set. |
| `BatchBuilder.EstimateRows` | src/commands/buffer.rs:367-388 | The size pass adds up exactly the bytes of the rows, compressed where a row repeats the one before. |
| `BatchBuilder.WriteRow` | src/commands/buffer.rs:414-459 | A row: its index and digest, then the flag for a repeated header or the header itself. |
| `BatchBuilder.WriteBatchField` | src/commands/buffer.rs:404-466 | The field is written with length zero, and then patched with the distance from the end of the header to the end of the message. |
| `Batches.BatchFraming` | src/commands/buffer.rs:404-466 | The message can be read back exactly if there is no filter: with one, the patched length reaches behind the end. |
| `Batches.SentPlain` | src/commands/buffer.rs:349-470 | Without a filter the message is the framed command with the rows as its only field. |
| `Batches.SentFiltered` | src/commands/buffer.rs:404-466 | With a filter, no reader of the framing accepts the message. |
| `Batches.CompressionLosesNothing` | src/commands/buffer.rs:413-460 | A reader that takes flag 1 for the header of the row before finds, in order, the index, digest, namespace, set (when sent) and bins of every offset, exactly if every index, every number of bin names and every length of a name fits its field. |
| `Batches.RowRead` | src/batch/batch_read.rs:46-52 | A row is found with its digest, with flag 1 in 25 bytes exactly if set names are sent and it asks for the same as the row before it, and otherwise with flag 0 and a header whose operations are cut to their 16-bit count. |
| `Batches.RowsRead` | src/commands/buffer.rs:413-460 | From any row on whose predecessor was read well, the rest is read as it was asked for exactly if all of it can be. |
| `Recordsets.InvariantKept` | src/query/recordset.rs:67-108 | Every atomic step of any producer or consumer, and the user's close, keeps all seven invariants. |
| `Recordsets.QueueIsBounded` | src/query/recordset.rs:67-76 | In every reachable state the count is what is queued, reserved, refused and not yet undone, and popped and not yet subtracted; it never underflows, exceeds the size by at most the number of producers, and the queue never exceeds its size. |
| `Recordsets.CountKept` | src/query/recordset.rs:67-76 | Add-and-compare, push, undo, pop and subtract each keep that balance and the bound. |
| `Recordsets.OrderKept` | src/commands/stream_command.rs:104-134 | Each step keeps, for every producer, that what it parsed is what was taken from it, then what is queued, then what it holds, in order. |
| `Recordsets.EndsKept` | src/query/recordset.rs:84-88 | The number of instances is the number of producers that have not signalled, and at most one of them finds itself the last. |
| `Recordsets.ClosesWithLastProducer` | src/commands/stream_command.rs:35-40 | Unless the user closes it, the recordset is inactive exactly if there was a producer and all have ended. |
| `Recordsets.ExactlyOnce` | src/query/recordset.rs:91-108 | Main result: in every interleaving without a user's close, a consumer sees None only when every producer has ended and the queue is empty; each producer's records were taken completely and in order, and each was delivered as often as it was parsed, but for those in another consumer's hands. |
| `Recordsets.AllDelivered` | src/query/recordset.rs:91-108 | When all consumers have seen None, every record of every producer has been delivered as often as it was parsed. |
| `Recordsets.AtMostOnce` | src/query/recordset.rs:91-108 | Also when the user closes it: no record is delivered more often than it was parsed, and what was taken is a prefix of what was parsed. |
| `Recordsets.CanComplete` | src/commands/stream_command.rs:104-134 | From every reachable state that the user has not closed, and for any records that are still to come on the connections, there is a way to go on by which exactly these are parsed, all producers end, every record is delivered as often as it was parsed, and every consumer sees None: no interleaving deadlocks, if the queue has room for one record. |
| `FullQueues.CanEndExactly` | src/commands/stream_command.rs:104-134 | From every state, also after the user has closed the recordset, all producers can end exactly if a reader is left and the queue has room for a record at all, or if there is room for every record that is parsed and not accepted. |
| `FullQueues.OffHandsExactly` | src/query/recordset.rs:67-76 | A producer can get rid of a record without an item being taken exactly if the queued and the accepted items are fewer than the size of the queue; whether the recordset is closed makes no difference. |
| `FullQueues.SpaceShrinks` | src/query/recordset.rs:67-76 | As long as nothing is taken, the places of queued and accepted items never become fewer, and neither do they together with the records that wait for one. |
| `FullQueues.ReachableStates` | src/query/recordset.rs:67-108 | Both conditions hold in every reachable state. |
| `Accounts.TakesFirstUsable` | src/net/connection_pool.rs:63-93 | Of the idle connections, get takes the first that was not idle for too long and closes exactly those in front of it. |
| `Accounts.MakesNewOne` | src/net/connection_pool.rs:63-93 | If all were idle for too long, they are all closed, and get makes a new connection, or fails by the capacity, the connect or the timeout, in this order. |
| `Accounts.RunConserves` | src/net/connection_pool.rs:63-112 | Over any run of get, put_back and drop_conn the count is the number of idle and checked-out connections, within the capacity, and every connection is in one place. |
| `Accounts.GetConserves` | src/net/connection_pool.rs:63-93 | get keeps the count right through reaping, a failed connect and a failed timeout, loses no connection, and checks out one exactly if it returns one. |
| `Accounts.ReapedConserves` | src/net/connection_pool.rs:66-73 | The reaping loop loses no connection and uncounts exactly those it closes. |
| `Accounts.PutBackConserves` | src/net/connection_pool.rs:96-104 | put_back keeps the count right and loses no connection, whether it keeps the connection or closes it. |
| `Accounts.DropConserves` | src/net/connection_pool.rs:106-112 | drop_conn keeps the count right and loses no connection. |
| `Accounts.ClearConservesExactly` | src/net/connection_pool.rs:114-120 | clear leaves a count that is right exactly if nothing was checked out. |
| `Accounts.KeptExactly` | src/net/connection_pool.rs:96-104 | A connection that is put back stays open exactly if the queue is not at its capacity, itself included; otherwise it is closed. |
| `Accounts.NoMoreExactly` | src/net/connection_pool.rs:75-78 | get finds no more connections exactly if all are checked out, and then changes nothing. |
| `Accounts.IdleBelowCapacity` | src/net/connection_pool.rs:96-104 | A queue never keeps as many idle connections as its capacity: a queue of one never reuses its connection. |
| `Pools.Queue.Get` | src/net/connection_pool.rs:63-93 | The first idle connection that was not idle for too long is taken, those in front of it are closed and those behind it stay; if there is none, all are closed, and a new one is made, unless as many as there may be are out, which is exactly when it fails for want of connections. |
| `Pools.Queue.PutBack` | src/net/connection_pool.rs:96-104 | The connection joins the idle ones while the count is below the capacity, and is closed and uncounted otherwise; the books stay right. |
| `Pools.Queue.DropConn` | src/net/connection_pool.rs:106-112 | The connection is uncounted and closed, and nothing else changes; the books stay right. |
| `Pools.Queue.Clear` | src/net/connection_pool.rs:114-120 | Empties the queue, and leaves it valid exactly if nothing was out. |
| `Pools.PooledConnection.Invalidate` | src/net/connection_pool.rs:200-204 | Gives the connection back to be closed, once: the drop that follows finds nothing to do. |
| `Pools.PooledConnection.Drop` | src/net/connection_pool.rs:207-213 | Puts the connection back if it is still there. |
| `Pools.InitializeQueues` | src/net/connection_pool.rs:148-166 | The loop gives every queue its share: the quotient, and one more to as many as the remainder. |
| `Pools.SharesAddUp` | src/net/connection_pool.rs:148-166 | The shares add up to the connections of the node and differ by at most one. |
| `Pools.ConnectionPool.BoundedByNode` | src/net/connection_pool.rs:136-166 | All queues of a node together never count more connections than the node may have. |
| `Pools.ConnectionPool.Get` | src/net/connection_pool.rs:168-186 | Asks the queues in turn, each at most once, until one is not full or fails for another reason, and changes only that one. It finds no connection exactly if all its attempts meet full queues, and these are all queues when the counter covers all. |
| `Pools.SearchMissesExactly` | src/net/connection_pool.rs:172-184 | Some state of the queues makes the search fail although one has room, exactly if the counter wraps on the way and the number of queues does not divide its range. |
| `RoundRobin.CoversExactly` | src/net/connection_pool.rs:172-184 | Consecutive values of the wrapping counter reach every queue exactly if the counter does not wrap on the way or the number of queues divides the number of words. |
| `Retries.Execute` | src/commands/single_command.rs:66-145 | At most max_retries + 1 attempts, and an end by then. It completes exactly if its last attempt had a connection, prepared, timed and sent the command and read a success; it fails exactly if the last one had a connection and ended otherwise but for a command that was not sent, and only such a one is tried again. A connection over which the command was not sent, or whose reply failed other than by a missing key, is closed and never idle again; any other is the last idle one, or closed if its queue was full. Exactly the connections are checked out that were before. |
| `Retries.TryOnce` | src/commands/single_command.rs:97-140 | The same for one attempt, on the queue that gave the connection; the other queues stay as they are. |
| `Retries.Converse` | src/commands/single_command.rs:106-139 | With a connection in hand: what the caller is told, and whether the connection is closed or put back, in terms of what was prepared, timed, sent and read. |
| `Partitions.UpdatePartition` | src/cluster/partition_tokenizer.rs:48-83 | An accepted reply has a bitmap for every name; entry i of a namespace that was known goes to the node exactly if bit i % 8, from the top, of byte i / 8 of a bitmap for it is set, and otherwise stays; a new namespace is all the node's, and all others stay. |
| `Partitions.TakeOver` | src/cluster/partition_tokenizer.rs:66-72 | Entry i goes to the node exactly if byte i / 8 has an odd quotient by the place 128, 64, ..., 1 of i % 8, and otherwise stays; a bitmap panics exactly if it is too short. |
| `Partitions.BitMeaning` | src/cluster/partition_tokenizer.rs:68 | The shifted mask tests one binary digit of the byte, counted from the most significant. |
| `Partitions.ReplyIsFolded` | src/cluster/partition_tokenizer.rs:55-83 | A reply is an error exactly if its parts do not pair up or a bitmap does not decode; otherwise its bitmaps are folded into the map one after the other. |
| `Partitions.LastSetterOwns` | src/cluster/partition_tokenizer.rs:60-73 | Main result: after any sequence of replies, a partition belongs to the last node whose bitmap set its bit, or to the first node that named the namespace. |
| `Partitions.LastClaimOwns` | src/cluster/partition_tokenizer.rs:60-73 | The same in terms of the updates alone: the entry is the node of the last update whose bit for the partition is set, or, if there is none, of the first update of the namespace. |
| `Partitions.TrueOwners` | src/cluster/partition_tokenizer.rs:60-73 | If nodes claim only their own partitions, then in every order of replies an entry is the true owner exactly if some reply claimed the partition or its owner replied first. |
| `Partitions.NodePartitions` | src/cluster/mod.rs:247-263 | The loop lists the partitions of the node, or none for an unknown namespace. |
| `Partitions.ListIsIncreasing` | src/cluster/mod.rs:247-263 | The list is strictly increasing. |
| `Partitions.ListCounts` | src/cluster/mod.rs:247-263 | It holds each partition of the node once and no other. |
| `Partitions.ScanCovers` | src/cluster/mod.rs:247-263 | The lists of distinct nodes never overlap, and together hold every partition exactly once, exactly if every owner is among the nodes. |
| `Routing.PartitionIdInRange` | src/cluster/partition.rs:38-48 | The partition of a key is the first byte of its digest and the low half of the second, so it always falls inside the array of a namespace. |
| `Routing.Cluster.GetNode` | src/cluster/mod.rs:501-512 | A key of a known namespace goes to the owner of its partition, without the counter moving; otherwise the search decides, with its error and its panic. |
| `Routing.Cluster.GetRandomNode` | src/cluster/mod.rs:514-528 | For every value of the signed counter: the first active node in its order; an error exactly if all attempts meet inactive nodes; a panic exactly if they do until the sum with one overflows. |
| `Routing.RandomNodeMissesExactly` | src/cluster/mod.rs:514-528 | The search can fail although a node is active exactly if the counter goes from below to above zero on the way. |
| `RoundRobin.SignedCoversExactly` | src/cluster/mod.rs:519 | The absolute remainders of consecutive signed numbers, as many as the divisor, take every value exactly if the numbers do not change sign. |
| `Routing.Cluster.UpdatePartitions` | src/cluster/mod.rs:265-276 | A reply whose parts pair up and decode is folded into the map, and then replaces it; any other leaves the map as it was. |
| `Routing.KeyGoesToOwner` | src/cluster/mod.rs:501-512 | After any replies to an empty map, the entry for a key is the node of the last update whose bit for its partition is set, or of the first that named the namespace. |
| `Routing.GetBatchNodes` | src/batch/batch_executor.rs:95-105 | The loop groups the indices by node, or fails exactly if a key has no node. |
| `Routing.GroupsPartition` | src/batch/batch_executor.rs:95-105 | Every group is ascending and not empty, and every index is in exactly one of them. |
| `Jobs.EachJobOnce` | src/batch/batch_executor.rs:62-93 | In every interleaving jobs are taken in order, none is taken twice, and no two threads run the same one. |
| `Jobs.OkMeansAllSucceeded` | src/batch/batch_executor.rs:62-93 | The call succeeds exactly if no job failed, and if there is a thread, then every job has run and succeeded. |
| `Jobs.OkMeansAllRanExactly` | src/batch/batch_executor.rs:62-93 | Success means that every job has run and succeeded, in every interleaving, exactly unless there are jobs and the policy is a maximum of zero threads. |
| `Jobs.NothingRuns` | src/batch/batch_executor.rs:67-93 | Without a thread the call succeeds at once, and no job has run. |
| `Jobs.NoSharedSlot` | src/commands/batch_read_command.rs:137-152 | If the jobs ask for disjoint slots and servers answer only what they were asked for, no two jobs write the same slot. |
| `Jobs.BatchCovers` | src/batch/batch_executor.rs:45-60 | The jobs of a batch ask for disjoint sets of keys, and a batch that succeeds has run, for every key, the job of the key's node. |
| `Hosts.Parser.ReadHosts` | src/net/parser.rs:34-62 | On any text the loop ends, accepts exactly what splitting at commas and colons accepts, with the same hosts, and consumes all of it. |
| `Hosts.Parser.ReadAddrTuple` | src/net/parser.rs:64-75 | The parts of the address in front of the next comma, or an error exactly if one of them is empty; the cursor stops behind them. |
| `Hosts.Parser.ReadAddrPart` | src/net/parser.rs:77-96 | The longest piece without a colon or a comma, or an error exactly if it is empty. |
| `Hosts.OneHost` | src/net/host.rs:56-60 | A printed host without a comma in its name parses to itself exactly if the name is not empty and has no colon. |
| `Hosts.PortOrDefault` | src/net/parser.rs:40-45 | An address of two parts names a host in any case: with the port if the second part is one, and otherwise with the default port. |
| `Hosts.HostsRoundTrip` | src/net/host.rs:56-60 | Printing a list of hosts and parsing the text gives the list back exactly if it is not empty and every name is not empty and has neither a colon nor a comma. |
| `Counterexamples.UnsignedSeven` | src/msgpack/encoder.rs:392-402 | The unsigned number 7 comes back as the signed one. |
| `Counterexamples.HllInList` | src/msgpack/encoder.rs:40 | An HLL inside a list comes back as a blob. |
| `Counterexamples.ExtOf255Bytes` | src/msgpack/decoder.rs:137-142 | An ext object of 255 bytes behind an 8-bit length makes the decoder panic. |
| `Counterexamples.ListAppendWithoutContext` | src/msgpack/encoder.rs:62-66 | A list operation with an argument and without a context is more than one object. |
| `Counterexamples.UnquotedList` | src/expressions/mod.rs:304-307 | The list [80, 3] that is not quoted is packed to the bytes of the key of a record as a string. |
| `Counterexamples.QueryForNoBins` | src/commands/buffer.rs:765-775 | A range query with an empty list of bins is not read back. |
| `Counterexamples.FilteredBatch` | src/commands/buffer.rs:462-466 | A batch read with the filter expression nil is not accepted by a reader, whatever its rows. |
| `Counterexamples.LongBinName` | src/commands/buffer.rs:1178 | A bin with a name of 256 bytes is not found under its name. |
| `Counterexamples.QueueOfOne` | src/net/connection_pool.rs:96-104 | In a queue of one, a connection that is opened and put back is closed. |
| `Counterexamples.ClearedTooEarly` | src/net/connection_pool.rs:114-120 | A queue that is cleared while a connection is out has a wrong count. |
| `Counterexamples.WrappingCounter` | src/net/connection_pool.rs:172-184 | Of three queues the third has room, and the search fails, because a counter at its last value looks at the first one twice. |
| `Counterexamples.CounterThroughZero` | src/cluster/mod.rs:519 | Of three nodes the third is active, and the search from -2 fails, because it looks at the second one twice. |
| `Counterexamples.NoRoomAtAll` | src/query/recordset.rs:67-76 | A producer with a record and a queue of size 0 never ends, although there is a reader. |
| `Counterexamples.NoThreads` | src/batch/batch_executor.rs:67-93 | One job and a maximum of zero threads: success does not mean that it has run. |
| `Counterexamples.MapRead` | src/commands/buffer.rs:522-533 | A single read of a map tells the whole write policy. |
| `Counterexamples.HostWithColon` | src/net/parser.rs:39-50 | A host with a colon in its name is not read back. |

## Left out

- `OrderedMap` values, on which the encoder panics, and maps inside map keys, on which hashing panics.
- The branch of `pack_integer` for values of at least 128 and below 127, which no value reaches.
- `Storable` excludes unsigned integers and 32-bit floats as bin values, because the program panics on them there.
- `filters == Some([])` in a statement: the program indexes the first filter and panics; `Statement.filters` holds that filter or none.
- Text forms of expression values other than strings (`Packable` asks for a string where the program prints one).
- Reclaiming memory in `resize_buffer`: capacity is not observable in the bytes.
- Sockets, DNS, authentication, sleeping and clocks: whether a connection is stale, opens, sends or parses, and whether a deadline has passed, are inputs (`Accounts.World`, `Retries.Attempt`).
- `Accounts.World`: a new connection is a number that was not used before.
- Concurrent callers of one pool: each queue operation runs under its lock and is one step in `Accounts.RunConserves`; the search over several queues in `Pools.ConnectionPool.Get` and the loop in `Retries.Execute` are for one caller at a time.
- RIPEMD-160, base64 and bcrypt: a digest is 20 given bytes, a decoded bitmap is given with its part of the reply, or its failure is.
- Splitting the reply of `replicas-master` into parts, which is one call of the standard library.
- Two threads that both read the partition map, update it and write it back; the tending of the cluster does this from one thread.
- Recordsets.ExactlyOnce: speaks about records; an error that meets a full queue is dropped, as in the program, because the result of that push is ignored.
- `Recordsets`, `Jobs`: state machines on values, because the steps of several threads interleave; what a thread reads from its connection is an input.
- Parsing the responses of single reads and of streams beyond the bin values, cluster tending, seeding and node removal, info, admin, UDF and index commands, policies, and the many constructor functions for operations and expressions, which only fill in the records modelled here.
- CdtReader.CdtIsSeen: leaves out an operation with the code 255, two arguments and no context, which a reader would take for a context; the client has no such operation.
- Retries.Execute: the number of retries is unbounded, so that adding one to it does not overflow; without a maximum it may go on for as long as the script does.
