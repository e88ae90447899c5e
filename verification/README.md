# Verification of rapid-rust-replay

This Dafny project models the parts of the replay tool whose behaviour over whole runs is
hard to see from the code, and proves what they keep:

- **CDR transcoding** (`Wire`, `Messages`, `CdrWriter`, `CdrReader`, `Cdr`, and the laws in
  `WireLaws`, `CdrLaws` and `Layouts`). The format is OMG CDR (section 15.3 of CORBA 3.0 GIOP) under the
  encapsulation header of section 10 of DDSI-RTPS 2.2. Each of the twelve message types has a
  schema; a generic printer and reader over schemas are the reference definition. The imperative
  writer and reader methods are proved to agree with it at every offset, and the laws (round
  trip, truncation, canonical bytes, normalisation) are proved once for all schemas. `Layouts` spells
  the ROS definitions of src/schema.rs out as named, typed fields, names the fields of every message,
  and proves that what is printed and read is those fields in that order, and that the stamp table
  agrees with the lengths the definitions call for.
- **Stamps, audit and frame graph** (`Stamps`, `Auditing`, `FrameGraph`, `TfFiltering`).
  Rewriting stamps in place, the online summary of each stream's clock, and what the number of
  parents and roots does and does not say about a `tf` graph.
- **Reading a database** (`Source`). Lazily filled pages refine the one sorted merge of all
  tables; the rows that paging can lose are characterised exactly.
- **Replay** (`Clocks`, `Watching`, `Lockstepping`, `Pacing`, `Accounts`, `Replay`, `AccountLaws`,
  `ArrivalLaws`, `Restamping`). One pass as a state machine over an anchor, a rate and a retimer that must agree at
  every publish, across gate re-anchoring and rate changes, and `--loop` over it. `Accounts` says, as
  values, what a record does given the state the one before handed on: its fate, its wait, the
  setting it leaves, and what the sink, the audit, the recorder, the gate, the filter and the
  counters gain. The methods of `Replay` are proved against that step by step, up to whole replays;
  the two law modules prove what follows for every pass. `Restamping` tells the pins, the rates and
  the times on outgoing stamps from the records and the looks at the clock alone.
- **Recording** (`Loopback`, `Naming`, `Agreement`, `Codecs`, `Recording`). Dropping our own messages when
  they loop back, naming and type agreement between writer and reader, and the writer loop with
  its accounting.

Objects the program updates in place are classes; what they are proved against are functions of
the whole history, kept in ghost fields or recomputed from it. Foreign code is a parameter with
the law it is assumed to obey: `LcmCodec` (decoding inverts encoding and yields the type asked
for), `Compressor` (unpacking inverts packing), `Clock` (one monotone clock that every look
advances and that reaches every time), `Arrivals` (a reply count that never goes back), and the
sink's choice to accept a message. Seconds and rates are reals with explicit rounding,
nanoseconds are unbounded integers, floats inside messages are bit patterns, and a string is the
sequence of its UTF-8 bytes.

Where the code does less than its comments or documentation say, the model follows the code:

- A mapped arrival can read as later than its publish instant by more than a nanosecond: rounding
  both recording times to whole nanoseconds is divided by the rate, and a gate's anchor reads the
  system clock after the one that paces (`Pacing.SlackIsBounded`, `Pacing.SlowRatesMagnifyRounding`).
  One nanosecond and the time between the two reads suffice exactly when rounding does not spread the
  two times (`Pacing.OneNanoSufficesIff`). The first anchor reads the system clock first, so without
  a gate 1 ns and 1 ns / rate bound the lateness (`ArrivalLaws.UngatedPassIsOnTime`).
- Mapped arrivals never go back under one pinning of the anchor, and so never without a gate; across
  a re-anchoring they can (`Pacing.NewAnchorCanGoBack`), and do not exactly when the old anchor maps
  a message no later than it schedules it (`Pacing.NewAnchorKeepsOrderIff`); if every message of a
  pass is mapped so, they never go back over the pass
  (`ArrivalLaws.PassThatReadsWhenDueArrivesInOrder`).
- `next_reply` returns the instant of the latest reply, not the first (src/lockstep.rs:97-104).
- A closed reply channel waits out the deadline; the comment at src/lockstep.rs:110 says otherwise.
- A reply that lands between the publish and `sent` reading the counter does not answer the gate
  (`Lockstepping.LostReply`); one that a later read finds before the deadline has come always does.
- `next_reply` reads the counter before it reads the clock (src/lockstep.rs:102-106), so a reply that
  lands in between, when the clock then shows the deadline, is missed although it came in time.
  `Arrivals.count(k)` is what a read just before look k finds.
- Noting a live key again does not extend its life (`Loopback.ReNotingDoesNotRefresh`); own messages
  are always dropped exactly when no note does so at a later instant (`Loopback.RunProtectsIff`).
- `unrenderable` counts messages the type check then turns away
  (`Recording.UnrenderableCountsUnwritten`), although src/record.rs:225 speaks of written ones.
- `WHERE ts > ?1` skips the rows that tie with the last row of a page (`Source.AllDeliveredIff`).
- A cycle beside an ordinary edge leaves the tree report clean (`FrameGraph.ACycleGoesUnreported`).
- A tf message that arrives without transforms is counted as emptied by `--drop-tf`.
- `geometry_msgs.Transform` streams bypass `--drop-tf` but reach the frame-graph audit, so the
  guarantee about dropped edges is about `tf2_msgs.TFMessage` streams.
- Lengths of 2^32 and more wrap in the printer; the round trips assume lengths that fit.
- LaserScan has a CDR transcoder and a header but no entry in the stamp table (src/stamp.rs:403-437), so its
  stamps stay as recorded in every mode and it is keyed by its channel alone
  (`Layouts.StampsFollowDefinition`); it is the only such type of the twelve.
- Shifting a stamp out of range and back does not restore it; `Stamps.ShiftAndBackIff` says when.

Verify everything with `dafny verify dfyconfig.toml`.

## Model

| member | source | states |
|---|---|---|
| `Utf8.Lossy` | src/cdr.rs:122-126 | a CDR string is decoded to valid UTF-8 at most three times as long, and text that is already valid is unchanged |
| `Utf8.ValidIffEncoded` | src/cdr.rs:122-126 | text is valid exactly when it is what encoding some sequence of Unicode scalar values gives, surrogates and overlong forms excluded |
| `Wire.BytesRoundTrip` | src/cdr.rs:99-119 | a number printed in either byte order reads back as itself, at 4 and 8 bytes alike |
| `Wire.BytesBound` | src/cdr.rs:99-119 | any bytes read as a number fit the width they were read at and print back as the same bytes, so float and integer bit patterns survive |
| `Wire.LittleBytesAre` | src/cdr.rs:183-187 | the four bytes of a little-endian word weigh 1, 2^8, 2^16 and 2^24 in that order |
| `Wire.BigBytesAre` | src/cdr.rs:99-102 | the four bytes of a big-endian word weigh 2^24, 2^16, 2^8 and 1 in that order |
| `WireLaws.RoundTrip` | src/cdr.rs:78-154 | reading what was printed returns the value and stops exactly at the end of what was printed, for every nested type, at every start offset, in either byte order, whatever follows |
| `WireLaws.Stable` | src/cdr.rs:83-154 | a successful read depends on the bytes it consumed and nothing after them: appending bytes changes neither value nor end |
| `WireLaws.TruncationFails` | src/cdr.rs:83-89 | no strict prefix of an encoding decodes |
| `WireLaws.ParsedFits` | src/cdr.rs:122-145 | whatever is read from fewer than a third of 2^32 bytes fits the u32 lengths it is printed with again, although lossy decoding can lengthen text |
| `WireLaws.ReprintsIffCanonical` | src/cdr.rs:168-249 | printing what was read gives the same bytes exactly when the padding was zero, flags were 0 or 1, and text ended in its null and was valid UTF-8 |
| `Messages.ValueDetermines` | src/cdr.rs:377-522 | two messages of one type with the same fields on the wire differ in `header.seq` at most: no printer loses a field |
| `Messages.SeqIsNotPrinted` | src/cdr.rs:377-379 | `header.seq`, nested headers included, never reaches the wire |
| `Messages.SeqIsDroppedOnce` | src/cdr.rs:526-532 | clearing `header.seq` twice is clearing it once |
| `CdrWriter.Writer.Align` | src/cdr.rs:168-172 | pads with zeros to the next multiple of the alignment, counted from the start of the body, and no further |
| `CdrWriter.Writer.U8` | src/cdr.rs:174-177 | appends one byte |
| `CdrWriter.Writer.Bool` | src/cdr.rs:179-181 | appends 1 or 0 |
| `CdrWriter.Writer.U32` | src/cdr.rs:183-187 | appends padding to 4 and the little-endian word |
| `CdrWriter.Writer.I32` | src/cdr.rs:189-191 | appends the two's-complement word |
| `CdrWriter.Writer.F32` | src/cdr.rs:193-195 | appends the bit pattern as a word |
| `CdrWriter.Writer.F64` | src/cdr.rs:197-201 | appends padding to 8 and the little-endian double |
| `CdrWriter.Writer.String` | src/cdr.rs:204-209 | appends a length that counts the null, the text and the null, the length wrapping at 2^32 as the cast does |
| `CdrWriter.Writer.Bytes` | src/cdr.rs:211-215 | appends a wrapping length and the raw bytes |
| `CdrWriter.Writer.Count` | src/cdr.rs:217-219 | appends the element count, cut to 32 bits |
| `CdrWriter.Writer.F64Sequence` | src/cdr.rs:222-225 | appends a count and each double at its own alignment |
| `CdrWriter.Writer.F32Sequence` | src/cdr.rs:227-233 | appends a count and each float |
| `CdrWriter.Writer.F64Array` | src/cdr.rs:236-241 | appends the doubles without a count |
| `CdrWriter.Writer.Finish` | src/cdr.rs:243-248 | the payload is the little-endian encapsulation header and the body |
| `CdrWriter.Writer.PutHeader` | src/cdr.rs:377-379 | extends the body by exactly what the schema of the type prescribes at the current offset: stamp and frame, no `seq` |
| `CdrWriter.Writer.PutVector3` | src/cdr.rs:381-383 | extends the body by exactly what the schema of the type prescribes at the current offset: x, y, z |
| `CdrWriter.Writer.PutPoint` | src/cdr.rs:385-387 | extends the body by exactly what the schema of the type prescribes at the current offset: x, y, z |
| `CdrWriter.Writer.PutQuaternion` | src/cdr.rs:389-391 | extends the body by exactly what the schema of the type prescribes at the current offset: x, y, z, w |
| `CdrWriter.Writer.PutPose` | src/cdr.rs:393-396 | extends the body by exactly what the schema of the type prescribes at the current offset: position and orientation |
| `CdrWriter.Writer.PutTwist` | src/cdr.rs:398-401 | extends the body by exactly what the schema of the type prescribes at the current offset: linear and angular |
| `CdrWriter.Writer.PutPoseStamped` | src/cdr.rs:403-406 | extends the body by exactly what the schema of the type prescribes at the current offset: header and pose |
| `CdrWriter.Writer.PutTransformStamped` | src/cdr.rs:408-413 | extends the body by exactly what the schema of the type prescribes at the current offset: header, child frame, translation, rotation |
| `CdrWriter.Writer.PutTFMessage` | src/cdr.rs:415-420 | extends the body by exactly what the schema of the type prescribes at the current offset: a counted sequence of transforms, each aligned where it falls |
| `CdrWriter.Writer.PutOdometry` | src/cdr.rs:422-429 | extends the body by exactly what the schema of the type prescribes at the current offset: both covariances of 36 as fixed arrays |
| `CdrWriter.Writer.PutPath` | src/cdr.rs:431-437 | extends the body by exactly what the schema of the type prescribes at the current offset: header and a counted sequence of stamped poses |
| `CdrWriter.Writer.PutImu` | src/cdr.rs:439-447 | extends the body by exactly what the schema of the type prescribes at the current offset: three vectors with their covariances of 9 |
| `CdrWriter.Writer.PutImage` | src/cdr.rs:449-458 | extends the body by exactly what the schema of the type prescribes at the current offset: seven fields in schema order |
| `CdrWriter.Writer.PutCompressedImage` | src/cdr.rs:460-463 | extends the body by exactly what the schema of the type prescribes at the current offset: header, format and data |
| `CdrWriter.Writer.PutCameraInfo` | src/cdr.rs:465-482 | extends the body by exactly what the schema of the type prescribes at the current offset: distortion, K, R, P, binning and region of interest |
| `CdrWriter.Writer.PutField` | src/cdr.rs:484-496 | extends the body by exactly what the schema of the type prescribes at the current offset: one cloud field |
| `CdrWriter.Writer.PutPointCloud2` | src/cdr.rs:484-496 | extends the body by exactly what the schema of the type prescribes at the current offset: fields, layout, data and density flag |
| `CdrWriter.Writer.PutJointState` | src/cdr.rs:498-508 | extends the body by exactly what the schema of the type prescribes at the current offset: names and three sequences of doubles |
| `CdrWriter.Writer.PutLaserScan` | src/cdr.rs:510-522 | extends the body by exactly what the schema of the type prescribes at the current offset: scan geometry, ranges and intensities |
| `CdrReader.Reader.constructor` | src/cdr.rs:78-81 | strips four bytes, starts at offset 0 and takes the byte order from the low bit of the second |
| `CdrReader.Reader.Take` | src/cdr.rs:83-89 | agrees with the schema reader in value, end offset and failure: returns the bytes after padding and ends just past them, or fails when the body ends first |
| `CdrReader.Reader.U8` | src/cdr.rs:91-93 | agrees with the schema reader in value, end offset and failure: one byte |
| `CdrReader.Reader.Bool` | src/cdr.rs:95-97 | agrees with the schema reader in value, end offset and failure: any non-zero byte is true |
| `CdrReader.Reader.U32` | src/cdr.rs:99-102 | agrees with the schema reader in value, end offset and failure: an aligned word in the declared byte order |
| `CdrReader.Reader.I32` | src/cdr.rs:104-106 | agrees with the schema reader in value, end offset and failure: a word as two's complement |
| `CdrReader.Reader.F32` | src/cdr.rs:108-110 | agrees with the schema reader in value, end offset and failure: a word as a bit pattern |
| `CdrReader.Reader.F64` | src/cdr.rs:112-119 | agrees with the schema reader in value, end offset and failure: an aligned double in the declared byte order |
| `CdrReader.Reader.String` | src/cdr.rs:122-126 | agrees with the schema reader in value, end offset and failure: a counted run, one trailing null dropped, decoded lossily |
| `CdrReader.Reader.Count` | src/cdr.rs:128-130 | agrees with the schema reader in value, end offset and failure: an aligned word |
| `CdrReader.Reader.Bytes` | src/cdr.rs:132-135 | agrees with the schema reader in value, end offset and failure: a counted run |
| `CdrReader.Reader.F32Sequence` | src/cdr.rs:137-140 | agrees with the schema reader in value, end offset and failure: a count and that many floats |
| `CdrReader.Reader.F64Sequence` | src/cdr.rs:142-145 | agrees with the schema reader in value, end offset and failure: a count and that many doubles |
| `CdrReader.Reader.F64Array` | src/cdr.rs:147-153 | agrees with the schema reader in value, end offset and failure: N doubles, no count |
| `CdrReader.Reader.ReadHeader` | src/cdr.rs:526-532 | returns exactly the message the schema of the type finds at the current offset, with `seq` 0, and fails exactly when the schema does; every field lands where its printer took it from |
| `CdrReader.Reader.ReadVector3` | src/cdr.rs:534-536 | returns exactly the message the schema of the type finds at the current offset, with `seq` 0, and fails exactly when the schema does; every field lands where its printer took it from |
| `CdrReader.Reader.ReadPoint` | src/cdr.rs:538-540 | returns exactly the message the schema of the type finds at the current offset, with `seq` 0, and fails exactly when the schema does; every field lands where its printer took it from |
| `CdrReader.Reader.ReadQuaternion` | src/cdr.rs:542-549 | returns exactly the message the schema of the type finds at the current offset, with `seq` 0, and fails exactly when the schema does; every field lands where its printer took it from |
| `CdrReader.Reader.ReadPose` | src/cdr.rs:551-553 | returns exactly the message the schema of the type finds at the current offset, with `seq` 0, and fails exactly when the schema does; every field lands where its printer took it from |
| `CdrReader.Reader.ReadTwist` | src/cdr.rs:555-557 | returns exactly the message the schema of the type finds at the current offset, with `seq` 0, and fails exactly when the schema does; every field lands where its printer took it from |
| `CdrReader.Reader.ReadPoseStamped` | src/cdr.rs:559-561 | returns exactly the message the schema of the type finds at the current offset, with `seq` 0, and fails exactly when the schema does; every field lands where its printer took it from |
| `CdrReader.Reader.ReadTransformStamped` | src/cdr.rs:563-572 | returns exactly the message the schema of the type finds at the current offset, with `seq` 0, and fails exactly when the schema does; every field lands where its printer took it from |
| `CdrReader.Reader.ReadTFMessage` | src/cdr.rs:574-578 | returns exactly the message the schema of the type finds at the current offset, with `seq` 0, and fails exactly when the schema does; every field lands where its printer took it from |
| `CdrReader.Reader.ReadOdometry` | src/cdr.rs:580-593 | returns exactly the message the schema of the type finds at the current offset, with `seq` 0, and fails exactly when the schema does; every field lands where its printer took it from |
| `CdrReader.Reader.ReadPath` | src/cdr.rs:595-600 | returns exactly the message the schema of the type finds at the current offset, with `seq` 0, and fails exactly when the schema does; every field lands where its printer took it from |
| `CdrReader.Reader.ReadImu` | src/cdr.rs:602-612 | returns exactly the message the schema of the type finds at the current offset, with `seq` 0, and fails exactly when the schema does; every field lands where its printer took it from |
| `CdrReader.Reader.ReadImage` | src/cdr.rs:614-630 | returns exactly the message the schema of the type finds at the current offset, with `seq` 0, and fails exactly when the schema does; every field lands where its printer took it from |
| `CdrReader.Reader.ReadCompressedImage` | src/cdr.rs:632-636 | returns exactly the message the schema of the type finds at the current offset, with `seq` 0, and fails exactly when the schema does; every field lands where its printer took it from |
| `CdrReader.Reader.ReadCameraInfo` | src/cdr.rs:638-663 | returns exactly the message the schema of the type finds at the current offset, with `seq` 0, and fails exactly when the schema does; every field lands where its printer took it from |
| `CdrReader.Reader.ReadPointCloud2` | src/cdr.rs:665-696 | returns exactly the message the schema of the type finds at the current offset, with `seq` 0, and fails exactly when the schema does; every field lands where its printer took it from |
| `CdrReader.Reader.ReadJointState` | src/cdr.rs:698-711 | returns exactly the message the schema of the type finds at the current offset, with `seq` 0, and fails exactly when the schema does; every field lands where its printer took it from |
| `CdrReader.Reader.ReadLaserScan` | src/cdr.rs:713-735 | returns exactly the message the schema of the type finds at the current offset, with `seq` 0, and fails exactly when the schema does; every field lands where its printer took it from |
| `Cdr.ReadMsg` | src/cdr.rs:47-61 | the reader a type name selects is the one for that type, for all twelve |
| `Cdr.WriteMsg` | src/cdr.rs:296-326 | the printer a type name selects is the one for that type, for all twelve |
| `Cdr.ToLcm` | src/cdr.rs:45-63 | succeeds exactly for a supported name and a payload its schema accepts, and then encodes the message that payload holds |
| `Cdr.ToCdr` | src/cdr.rs:262-327 | fails exactly for an unsupported name or undecodable wire bytes, and otherwise prints the message, retyped when it is a disguised codec stream, under the type it ended up as |
| `Layouts.FieldsFollowDefinition` | src/schema.rs:51-366 | every message of every type has the fields that its ROS definition lists, under those names, of those types and in that order, nested ones included |
| `Layouts.SchemaIsDefinition` | src/schema.rs:51-366 | the schema that printer and reader go by is, value by value, the ROS definition of the type |
| `Layouts.PrintedAsDefined` | src/cdr.rs:377-522 | a printed payload is the encapsulation header and then the message's named fields one after another, each where its definition lists it: seconds before nanoseconds, height before width, x before y before z |
| `Layouts.ReadAsDefined` | src/cdr.rs:526-733 | a payload is refused exactly when a field of its type's definition cannot be read, and otherwise what stands under each name is the field of that name in the message it decodes to |
| `Layouts.StampInBytes` | src/cdr.rs:377-379 | in bytes: a payload that carries a header shows the seconds in two's complement, lowest byte first, in the four bytes behind the encapsulation header (and behind the count, for tf), and the nanoseconds in the next four |
| `Layouts.PutsCells` | src/cdr.rs:168-249 | printing a value of any type is printing what it consists of in the order the type lists it, rows behind their count |
| `Layouts.ReadsCells` | src/cdr.rs:78-154 | reading a value of any type is reading what it consists of in that order: both fail together, end together and find the same |
| `CdrLaws.DecodesToOne` | src/cdr.rs:526-735 | a payload holds at most one message |
| `CdrLaws.EveryMessageRoundTrips` | src/cdr.rs:377-735 | every message of all twelve types whose lengths fit in u32 reads back as itself with `seq` 0 and ends where it was printed to, in both byte orders, with any trailing bytes |
| `CdrLaws.EveryTruncationIsAnError` | src/cdr.rs:83-89 | cutting an encoded message of any type anywhere makes it an error |
| `CdrLaws.PayloadReadsBack` | src/cdr.rs:243-249 | what the program prints is accepted in full and is the message that was printed |
| `CdrLaws.RetypedStillFits` | src/cdr.rs:278-293 | retyping never makes a length overflow and never happens twice |
| `CdrLaws.RetypedImageKeepsItsContent` | src/cdr.rs:278-293 | read back under the type it was recorded as, a retyped image has its stamp, frame and data exactly |
| `CdrLaws.PixelsComeBackAsAnImage` | src/cdr.rs:345-359 | an Image that names no codec, or whose size is exactly height times step, is recorded as an Image whatever its first bytes, is not reported, and comes back with every field but `seq` |
| `CdrLaws.TranscodingIsIdempotent` | src/cdr.rs:915-920 | transcoding an accepted payload and transcoding the result under the returned name is transcoding once, retyped images included |
| `CdrLaws.TranscodedPayloadIsAccepted` | src/cdr.rs:45-63 | the second trip is never refused, and any payload below a third of 4 GiB qualifies |
| `CdrLaws.ByteIdenticalIffCanonical` | src/cdr.rs:915-920 | a payload that is not retyped comes back byte for byte exactly when it was canonical little-endian |
| `CdrLaws.BigEndianTwinNormalisesAlike` | src/cdr.rs:99-119 | a big-endian payload and its little-endian twin are transcoded to the same bytes |
| `TypeNames.NameRoundTrip` | src/cdr.rs:27-43 | the twelve supported names are distinct |
| `Stamps.SecondsToNanosIsNear` | src/stamp.rs:452-457 | half a nanosecond of rounding at most |
| `Stamps.SecondsToNanosIsMonotone` | src/stamp.rs:452-457 | keeps order, negative seconds included |
| `Stamps.PartsReadBackIff` | src/stamp.rs:571-581 | a time split into seconds and nanoseconds reads back exactly when it lies in [1 s, 2^31 s) |
| `Stamps.StampingIsLocalAndReadsBackIff` | src/stamp.rs:558-568 | patching changes at most the eight stamp bytes, and the new stamp reads back exactly when it lies in [1 s, 2^31 s) |
| `Stamps.ScaledIsMonotone` | src/stamp.rs:475-485 | scaled mapping keeps order, and intervals come out within 1 ns of (b - a) / rate |
| `Stamps.Buffer.WriteNanos` | src/stamp.rs:564-568 | the buffer becomes the old one with its eight stamp bytes replaced |
| `Stamps.Buffer.Apply` | src/stamp.rs:492-525 | the buffer and the flag are those of the specification for every support kind; a payload that cannot be restamped is an error and is left alone |
| `Stamps.RetimedFixedPayload` | src/stamp.rs:498-508 | only the eight stamp bytes may change; they show the mapping of the payload's own stamp if that has positive seconds and lies within an hour of a known reception, and of the reception otherwise, exactly when a stamp can hold it; and the flag says which of the two it was |
| `Stamps.WordIsBigEndian` | src/stamp.rs:558-562 | a stamp word is read with its highest byte first |
| `Stamps.RetimedTfPayload` | src/stamp.rs:509-523 | every transform is kept, in order, with nothing but its stamp changed; each shows the mapping of its own stamp or, where that is unset or an hour off, of the reception, exactly when a stamp can hold it; the flag is set exactly when some transform's stamp was so |
| `Stamps.ShiftedKeepsSpacing` | src/stamp.rs:482 | two shifted payloads show times exactly as far apart as the times they were recorded at, to the nanosecond |
| `Stamps.ShiftAndBackIff` | src/stamp.rs:492-526 | shifting by d and then by -d restores a normalised stamp byte for byte exactly when the shifted stamp fits, or fell to zero while -d spells the old stamp |
| `Layouts.StampsFollowDefinition` | src/stamp.rs:1-10 | for every transcodable type with one fixed stamp, the table's offset is the 8-byte fingerprint, 4 bytes for each variable-length field its definition lists and 4 of `seq`; only tf is stamped per transform, and only LaserScan has a header and no entry |
| `Layouts.StampIsShown` | src/stamp.rs:541-556 | what a payload of one of the twelve types is captured and keyed with: the big-endian seconds and nanoseconds at that offset (an Image: bytes 16 to 24), the first transform's stamp for tf, and nothing if the seconds are not positive or the bytes are not there |
| `Auditing.Throttle.Ready` | src/stamp.rs:125-132 | over any run, calls = prints + swallowed counts reported + still pending; it prints on first sight and then exactly when five seconds have passed by the time of the call |
| `Auditing.BackwardsIffOutOfOrder` | src/stamp.rs:252-259 | `backwards` is 0 exactly when all believable stamps of the stream are nondecreasing, over every pair and not just neighbours |
| `Auditing.FallIsBounded` | src/stamp.rs:252-259 | for any two stamps, earlier minus later is at most `backwards` times `worst_backstep` |
| `Auditing.WorstStepIsExact` | src/stamp.rs:252-259 | the worst step back is attained by two stamps in a row, or is 0 when none falls back, and no step is larger |
| `Auditing.AheadIsExact` | src/stamp.rs:247-251 | `ahead` counts exactly the stamps more than 10 ms past their reception, and the worst one is attained and bounds all |
| `Auditing.SampleIs` | src/stamp.rs:231-242 | a payload adds to its stream's history exactly when it has one fixed stamp, with positive seconds, within an hour of a known reception, and adds that time |
| `Auditing.EdgesAre` | src/stamp.rs:282-289 | a tf payload adds one edge per transform, from its `frame_id` to its `child_frame_id`, in order, and nothing when it cannot be decoded |
| `Auditing.Audit.constructor` | src/stamp.rs:206-219 | starts from empty histories |
| `Auditing.Audit.Inspect` | src/stamp.rs:223-229 | whatever the interleaving of streams, the state stays the summary of the whole history: the stamp goes to its stream only, the edges to the frame graph |
| `Auditing.Audit.CheckStamp` | src/stamp.rs:231-279 | unknown reception, short payload, unset or foreign-clock stamp contribute nothing; each defect counted is handed to its throttle once |
| `Auditing.Audit.Measure` | src/stamp.rs:244-259 | folds one stamp into its stream and reports a step back exactly when it counted one |
| `Auditing.Audit.CheckTree` | src/stamp.rs:281-320 | learns every edge of a decodable message and then checks for a split; an undecodable one changes nothing |
| `Auditing.Audit.CheckEdge` | src/stamp.rs:286-302 | warns about a second parent exactly the first time that parent is seen |
| `Auditing.Audit.CheckSplit` | src/stamp.rs:304-319 | a split is timed from the look that found it, forgotten when it heals, and handed to its throttle exactly when it has lasted a whole window |
| `Auditing.Audit.TreeFindings` | src/stamp.rs:365-388 | the report names exactly the frames seen under two parents, each with exactly the parents it was seen under, and, exactly when there are two frames that parent others and hang from none, all of those |
| `FrameGraph.EveryFrameReachesARoot` | src/stamp.rs:324-331 | in an acyclic graph every frame reaches some root by walking parents |
| `FrameGraph.CleanAndAcyclicIffTree` | src/stamp.rs:365-388 | a report without tree faults on an acyclic graph means one root that every frame reaches by one path only, and the converse |
| `FrameGraph.SeveralRootsShareNoAncestor` | src/stamp.rs:375-382 | two or more roots always mean no frame is above all others, cycle or not |
| `FrameGraph.ACycleGoesUnreported` | src/stamp.rs:324-331 | two frames parenting each other beside one ordinary edge: the report is clean and names one root, yet the graph is no tree |
| `FrameGraph.LearnedExactly` | src/stamp.rs:286-289 | what is recorded is exactly the set of edges seen |
| `FrameGraph.ReportIgnoresOrder` | src/stamp.rs:365-388 | the report does not depend on the order or multiplicity of arrivals |
| `FrameGraph.ReportIs` | src/stamp.rs:365-388 | which frames, parents and roots a report names, in terms of the edges seen |
| `TfFiltering.TfFilter.Apply` | src/stamp.rs:61-78 | the payload becomes exactly its survivors in order and something is left exactly when some transform has no rule whose parent and child are each `*` or its own; for every edge, the drops counted are the transforms of that edge a rule matches; an empty result is counted and leaves the buffer, an undecodable one changes nothing |
| `TfFiltering.TfFilter.Sift` | src/stamp.rs:63-71 | survivors and counts are those of the rules |
| `TfFiltering.TfFilter.Drop` | src/stamp.rs:66-67 | one drop is counted under its own edge |
| `TfFiltering.KeptAndLostMakeUpAll` | src/stamp.rs:63-71 | every transform pulled through the filter is either kept or counted |
| `TfFiltering.KeptExactly` | src/stamp.rs:63-71 | a transform survives exactly when no rule names its `frame_id` (or `*`) as parent and its `child_frame_id` (or `*`) as child |
| `TfFiltering.SiftedExactly` | src/stamp.rs:63-71 | something survives exactly when some transform is not ruled out, and each edge is dropped as often as a ruled-out transform carries it |
| `TfFiltering.KeptInOrder` | src/stamp.rs:63-71 | the survivors are a subsequence of the message: each is the transform that stood at its place, in the same order |
| `TfFiltering.FilteringIsIdempotent` | src/stamp.rs:61-78 | filtering what was kept changes nothing and drops nothing, and no rules means no drops |
| `TfFiltering.FilteredEdges` | src/main.rs:478-486 | what the audit learns from a filtered message is exactly its surviving edges |
| `Source.DeliveredInOrder` | src/source.rs:174-193 | page after page, a table comes out in nondecreasing time order |
| `Source.DeliveredOnce` | src/source.rs:174-193 | no row is delivered twice |
| `Source.MissingRowsTie` | src/source.rs:176-179 | the only rows that can be missing tie with a delivered row |
| `Source.AllDeliveredIff` | src/source.rs:176-179 | every row is delivered exactly when no page ends inside a tie |
| `Source.DistinctTimesDeliverAll` | src/source.rs:176-179 | distinct timestamps deliver every row at any page size |
| `Source.MergeIsUnique` | src/source.rs:195-223 | the order by time with ties to the lowest stream admits one merge |
| `Source.MergeOfMerges` | src/source.rs:195-223 | taking the earliest head, ties to the lowest stream, until nothing is left, is that merge |
| `Source.DbSource.constructor` | src/source.rs:231-244 | every stream starts with all it will deliver |
| `Source.DbSource.Fill` | src/source.rs:174-193 | fetching a page changes nothing about what is still to come, and leaves the cursor with a row or done |
| `Source.DbSource.FindEarliest` | src/source.rs:201-207 | picks a head no other head precedes, the first of several equally early |
| `Source.DbSource.Next` | src/source.rs:195-223 | takes the first item of the merge still to come, which is the earliest head of all streams, and touches no other stream; None exactly when all are exhausted, an error exactly for a missing blob |
| `Source.DbSource.Drain` | src/source.rs:195-223 | calling `next` until None yields the merge of all streams, each row once: at every pair the earlier time comes first, and at one time the lower stream; it fails exactly when some blob of it is missing |
| `Source.DbSource.Rewind` | src/source.rs:225-228 | nothing has been taken off the source |
| `Source.DbSource.DrainAgain` | src/source.rs:225-228 | a drain after a rewind gives what the first drain gave, whatever the ties and the page size |
| `Source.PagingNeverShows` | src/source.rs:104-106 | two page sizes neither of which ends a page inside a tie give the same output, the complete merge of the tables |
| `Source.DeliveredQueuesAreOrdered` | src/source.rs:174-244 | whatever the ties, a pass starts on ordered streams, so it always drains to their merge |
| `Lockstepping.BlendStaysWithinReach` | src/lockstep.rs:121-127 | from any positive start the rate stays positive and within [min(r0, 0.001), max(r0, 1000)] |
| `Lockstepping.BlendConverges` | src/lockstep.rs:121-127 | n equal measurements leave rate - limit = 0.7^n (r0 - limit), the limit being recorded / wall where that lies between 0.001 and 1000, and the nearer of the two outside; no step at all when either time is not positive |
| `Lockstepping.WaitKeepsReach` | src/lockstep.rs:73-88 | however a wait comes out, the rate stays positive and within reach of where it started |
| `Watching.AnsweredExactlyBy` | src/sink.rs:183-185 | under one prefix, a topic is answered exactly by the channel of that full name and by those that continue it with a type; for names and types without `#`, by the stream whose bare or full name it is |
| `Watching.AnswersGrow` | src/sink.rs:83-91 | the published count never goes back and never outruns the messages heard |
| `Watching.Watch` | src/sink.rs:83-91 | the k-th count sent is k, at the message that is the k-th answer; other messages send nothing |
| `Watching.Receive` | src/sink.rs:77-91 | at every look the receiver a wait reads shows how many of the messages heard by then answered the topic, and the instant the last of those was counted at; the count never goes back |
| `Lockstepping.Arrivals.Changed` | src/lockstep.rs:110-114 | reports a timeout exactly when the deadline has passed over a count that has not moved; a closed channel wakes it like a change |
| `Lockstepping.Lockstep.NextReply` | src/lockstep.rs:99-116 | the instant of the latest reply once more than the given count have arrived; None only when the read before the look that found the deadline past found no such reply, so a reply that a read finds ahead of a look earlier than the deadline is never missed |
| `Lockstepping.Lockstep.Wait` | src/lockstep.rs:73-88 | consumes the outstanding gate: a timeout, with the rate untouched, only if the last read before the look past the deadline found no reply beyond the count; otherwise one more answered count, later than all before, and 0.7 of the old rate plus 0.3 of (this recording time - the gate's) / (the reply's instant - the gate's publish instant), held between 0.001 and 1000 |
| `Lockstepping.Lockstep.Fold` | src/lockstep.rs:73-88 | one answer counted, and the rate eased towards the pace between publish and reply |
| `Lockstepping.WaitEases` | src/lockstep.rs:73-88 | an answered wait eases the rate towards the measured pace, a timeout or no gate out leaves it |
| `Lockstepping.Lockstep.Sent` | src/lockstep.rs:92-95 | one more gate is out, with its publish instant and recording time, answered only by replies counted after this read |
| `Lockstepping.Lockstep.GatesAreAnswered` | src/lockstep.rs:73-96 | gate publishes are at most replies counted + timeouts, plus one while a wait is outstanding |
| `Lockstepping.ReplyBeforeSentIsLost` | src/lockstep.rs:92-95 | if every reply was counted by the time `sent` looks, the next wait is a timeout |
| `Lockstepping.ReplyAfterSentAnswers` | src/lockstep.rs:92-109 | a reply that is beyond that count, and that a read finds ahead of a look earlier than the deadline, always answers |
| `Lockstepping.LostReply` | src/lockstep.rs:92-95 | such a run: the only reply comes between the publish and the look, and is waited for in vain |
| `Pacing.GrainIsSmall` | src/stamp.rs:475-485 | rounding two recording times moves their distance by at most 1 ns, and not at all when both are whole nanoseconds |
| `Pacing.SlackIsBounded` | src/main.rs:434-445 | a mapped arrival is late by at most 1 ns plus 1 ns / rate plus the time between the two clock reads of its anchor |
| `Pacing.OneNanoSufficesIff` | src/stamp.rs:475-485 | 1 ns plus that time suffices at every rate and on every clock exactly when rounding the two recording times to nanoseconds does not spread them |
| `Pacing.SlowRatesMagnifyRounding` | src/stamp.rs:475-485 | one nanosecond does not suffice in general: at rate 0.001 a time 0.6 ns past its anchor is mapped 400 ns after it is due |
| `Pacing.HeldBackIsOnTime` | src/main.rs:472-475 | a message held until its schedule is never stamped later than it goes out, up to that slack |
| `Pacing.PinnedNow` | src/main.rs:464-471 | a new anchor is not before anything already published |
| `Pacing.NewAnchorKeepsOrderIff` | src/main.rs:464-471 | whenever and at whatever rate the next gate is pinned, nothing from then on reads as earlier than a message of the old anchor, exactly when old anchor and rate map that message no later than they schedule it |
| `Pacing.NewAnchorCanGoBack` | src/main.rs:464-471 | two looks at the clock a microsecond apart and a prompt second gate: its arrival is a microsecond before that of the frame sent before it |
| `Pacing.Pacer.Pin` | src/main.rs:433-445 | the first message pins base, anchor and retimer from two looks in a row, the system clock's first and then the one that paces, so its arrival cannot read as later than it; later ones leave all of it alone |
| `Pacing.Pacer.Gate` | src/main.rs:457-471 | a gate waits from the look it was called at, its rate is the old one or the blend of the measured cycle, and the anchor is this record and the two looks that follow the wait |
| `Pacing.Pacer.Repin` | src/main.rs:464-471 | the anchor is this record and these two looks at the clock, the rate is the new rate, and the retimer is again (anchor.recorded, anchor.wall_ns, rate) |
| `Pacing.Pacer.SleepUntilDue` | src/main.rs:472-475 | with a positive rate, a message is released no earlier than anchor and rate schedule it, by the first look past the one sleep that shows it, and with rate 0 no look is taken at all |
| `Pacing.Pacer.SleepUntil` | src/main.rs:512-521 | returns at the first look that shows the target has come; it sleeps once and only if the first look was more than a millisecond early |
| `Pacing.Pacer.Published` | src/main.rs:485-494 | the arrival a message is mapped around goes on record, with rate, skew, grain, pinning and publish look taken from the setting at hand |
| `Pacing.Pacer.PacedLogIsOnTime` | src/main.rs:425-503 | in scaled mode with pacing, a start after the epoch and records in order, no published arrival reads as later than its publish instant or than any later arrival, beyond the slack, whose skew is the time between the two looks that made its anchor; under one pinning arrivals never go back at all |
| `Replay.Sink.Publish` | src/sink.rs:62-73 | appends the message on its stream when the transport takes it, and changes nothing otherwise |
| `Replay.Pass.Pinned` | src/main.rs:432-445 | the first record with a wire form pins the clocks at the two looks it begins with, whatever becomes of it |
| `Replay.Pass.AwaitAnswer` | src/main.rs:456-471 | a gate's wait, begun at the look at hand and on the gate that is out, is answered or times out as the watched topic has it; then anchor and rate are replaced together, and nothing is outstanding |
| `Replay.Pass.HoldBack` | src/main.rs:472-475 | with a positive rate the record is due when it returns, and the setting is as it was |
| `Replay.Pass.Pace` | src/main.rs:456-475 | gate or clock: the setting is the one such a wait leaves, one more timeout is counted exactly if the wait was in vain |
| `Replay.Pass.Filter` | src/main.rs:477-484 | the payload becomes what the rules leave; emptied is counted exactly when nothing is left |
| `Replay.Pass.Audited` | src/main.rs:485-486 | the audit gains the sample and the edges of this payload on this stream, and nothing else changes |
| `Replay.Pass.Restamp` | src/main.rs:487-489 | the payload becomes the retimed one, and a substituted stamp is tallied exactly when there was one |
| `Replay.Pass.Finish` | src/main.rs:485-489 | the audit saw the payload as it was before restamping |
| `Replay.Pass.Prepare` | src/main.rs:477-489 | the bytes are the wire form, filtered, then restamped; the audit saw them filtered and not yet restamped; an emptied or failing record is told apart |
| `Replay.Pass.Noted` | src/main.rs:490-492 | the recorder's history gains one note of the key of these bytes, and it claims that key afterwards |
| `Replay.Pass.Launch` | src/main.rs:493-494 | the sink gains exactly this message, or nothing when it refuses, and the log its arrival under the setting at hand |
| `Replay.Pass.GateSent` | src/main.rs:496-500 | the gate is outstanding with this recording time, the instant of the look after the publish, and the count read then |
| `Replay.Pass.Deliver` | src/main.rs:493-500 | published, and, for a gate, counted and outstanding exactly if it went out |
| `Replay.Pass.Send` | src/main.rs:490-500 | noted first, and then published or refused |
| `Replay.Pass.Emit` | src/main.rs:477-500 | sink, audit, recorder, gate, filter and tally change as one record under the mapping at hand changes them, and its fate is the one codecs, rules and transport give it |
| `Replay.Pass.Release` | src/main.rs:456-500 | paced and then emitted under the setting that pacing left, no earlier than that setting schedules it |
| `Replay.Pass.Place` | src/main.rs:447-500 | before the start skipped, past the duration the end, and otherwise released |
| `Replay.Pass.Take` | src/main.rs:432-500 | the clocks are pinned by the first of them, and each is placed by where that put the start |
| `Replay.Pass.Step` | src/main.rs:425-501 | one record meets what it has to from the state at hand: fate, looks at the clock, gate wait, new setting and gate, and every change to sink, audit, recorder, filter, gate, tally and log |
| `Replay.Pass.Turning` | src/main.rs:425-501 | one more record keeps the account truthful and everything it speaks of as it says |
| `Replay.Pass.Run` | src/main.rs:425-503 | every record the source yields, in merge order, met what it had to; sink, audit, recorder, filter, gate, tally and log are what these records make of what was there before; the log is on time; the pass ends at the end of the source, at the first record past the duration, or where it was refused; and the gates, which are the messages on the gate's stream, are answered, timed out, or the one outstanding |
| `Accounts.Config.GatesAreMessages` | src/main.rs:493-500 | over any pass the gates counted are the messages that went out on the gate's stream, no more and no fewer |
| `Accounts.AllGatesAreMessages` | src/main.rs:386-404 | and so over any number of passes |
| `AccountLaws.EveryRecordIsCounted` | src/main.rs:425-503 | every record pulled was published, skipped or emptied and counted as that once, but the one that ended the pass |
| `AccountLaws.PublishedAtExactly` | src/main.rs:493-494 | the published records are exactly those with that fate, in order, each once |
| `AccountLaws.MessagesArePublished` | src/main.rs:477-494 | the sink gained exactly one message for each published record, in order: its payload, filtered and restamped under the setting then in force, on its stream |
| `Restamping.StampsAreAsAsked` | src/main.rs:425-503 | told from the records and the looks at the clock alone, for every pass, gates included: each message published is its record's filtered wire form, unchanged under original stamps; under shifted stamps with every stamp at its own-or-reception time + ns(first look) - ns(first record + `--start`); under scaled stamps within half a nanosecond of ns(pin's look) + (own-or-reception - ns(pinned time)) / rate; clamped only where a stamp cannot hold that; transform by transform for tf |
| `Restamping.SettingsArePins` | src/main.rs:433-470 | at every record of a pass, anchor, base, rate and both clocks are those of the first record with a wire form and of the last gate released since |
| `Restamping.ShiftedPassMovesAllAlike` | src/main.rs:438-440 | under shifted stamps, gates or not, every holdable stamp of a pass moves by one and the same distance, from `--start` past the first record with a wire form to the look that record began with |
| `Restamping.OriginalPassChangesNothing` | src/main.rs:438 | under original stamps what goes out is, byte for byte, the filtered wire forms of the published records, in order |
| `Restamping.ShownAsRuled` | src/main.rs:477-484 | what a record shows the audit and sends on: its wire form, but of a `tf2_msgs.TFMessage` under rules only, and all, the transforms that no rule matches, in order, and nothing when that is none; it fails exactly without a wire form or when such a one cannot be decoded |
| `Restamping.ScaledStampIsDueTime` | src/main.rs:441-470 | under scaled stamps a message stamped at the time it is paced by shows the instant it was due, plus its pin's skew, to 1 ns and 1 ns / rate either way |
| `Restamping.NothingGoesOutEarly` | src/main.rs:472-494 | in a paced pass no record is sent before the last pin has it due |
| `Restamping.RatesFollowReplies` | src/main.rs:456-470 | at every record of a pass the rate is the one before, except at an answered gate, where it is eased by 0.3 towards the pace between the publish of the last gate that went out, of an earlier pass if need be, and the reply |
| `Restamping.StandInsAreCounted` | src/main.rs:487-489 | the tally of restamped messages is the number of released records that reached restamping with an unset stamp or one an hour off, none under original stamps |
| `AccountLaws.MessagesAreNoted` | src/main.rs:490-493 | the messages on the wire are the messages noted, in the same order, each under the key of its own bytes; only a stopped pass may have noted one more |
| `AccountLaws.AuditSawWhatWasShown` | src/main.rs:477-486 | edges and, stream by stream, samples are exactly those of the payloads of released records, filtered and not yet restamped |
| `AccountLaws.NoDroppedEdgeIsLearned` | src/main.rs:478-486 | an edge that a rule matches reaches the audit only through a stream that `--drop-tf` does not look at |
| `AccountLaws.FatesAreMeasuredFromTheFirst` | src/main.rs:427-454 | every fate of a pass follows from the first record with a wire form plus the start: skipped before it, the end past the duration, emptied when the rules leave nothing, and otherwise published or refused |
| `ArrivalLaws.LogIsPublished` | src/main.rs:487-494 | the log is the arrivals of the published records in order, each under the setting its record left |
| `ArrivalLaws.OneSettingWithoutGate` | src/main.rs:433-475 | without a gate the clocks are pinned once, system clock first, and every released record goes by that setting, no earlier than it is due |
| `ArrivalLaws.UngatedPassIsOnTime` | src/main.rs:425-503 | a paced pass without a gate, with scaled stamps and a start after the epoch: nothing reads as later than 1 ns and 1 ns / rate after it went out, whatever the order of records, 1 ns alone does when rounding did not spread its time and the start, and records in order arrive in order |
| `ArrivalLaws.TurnLeavesPast` | src/main.rs:456-475 | whatever a record does to the clocks, an arrival that is over, and that nothing from then on would undercut, stays so |
| `ArrivalLaws.PassThatReadsWhenDueArrivesInOrder` | src/main.rs:425-503 | gates and blended rates included: if every message a pass over records in order published reads no later than it was due, arrivals never go back over the whole pass |
| `ArrivalLaws.LaterReadsLater` | src/stamp.rs:475-485 | under one setting, a later record reads as arriving no earlier, to the nanosecond |
| `Accounts.PulledIsChronological` | src/main.rs:425 | what the database source yields is a recording in order, so the timing guarantees apply to it |
| `Replay.RunOnce` | src/main.rs:409-504 | a pass with clocks unpinned and the rate it was given, on the gate that is out, gives such an account, leaves sink, audit, recorder, filter and gate as it says, and returns its tally |
| `Replay.Again` | src/main.rs:386-404 | one pass more keeps what holds of all passes so far |
| `Replay.ReplayAll` | src/main.rs:375-406 | over any number of `--loop` passes, rewinding in between, every pass gives such an account of the same source, beginning with the gate the one before left out; sink, audit, recorder, filter and gate are what all of them make of it; the total is that of the passes that came to their end; and the gates, which are the messages on the gate's stream, stay within one of replies plus timeouts |
| `Loopback.SelfPublished.Expire` | src/record.rs:197-205 | afterwards the set holds exactly the keys whose accepted note is younger than ten seconds; keys stay distinct and times sorted |
| `Loopback.SelfPublished.Note` | src/record.rs:185-190 | puts one note on the history the accepted times are computed from: a live key keeps its old time |
| `Loopback.SelfPublished.Claims` | src/record.rs:192-195 | true exactly when, by the whole history of notes, the last accepted note of the key is younger than ten seconds |
| `Loopback.SelfPublished.PopFront` | src/record.rs:202-203 | one expired entry leaves queue and set together |
| `Loopback.SelfPublished.Push` | src/record.rs:187-189 | one new entry joins queue and set together |
| `Loopback.OnlyRecentNotesDrop` | src/record.rs:173-206 | in any history, no message is dropped unless its key was noted within the last ten seconds |
| `Loopback.OwnMessagesAreDropped` | src/record.rs:162-171 | an own message delivered within ten seconds of a note is dropped, unless that note repeated an earlier one still live |
| `Loopback.RunProtectsIff` | src/record.rs:185-190 | every own message within ten seconds of every note is dropped, however the run goes on, exactly when each note of a live key falls at the very instant of the one it repeats |
| `Loopback.ReNotingDoesNotRefresh` | src/record.rs:187 | a key noted at 0 s and 9 s is not claimed at 11 s |
| `Naming.SplitsAt` | src/record.rs:468 | splitting at the last separator finds the one that was put there |
| `Naming.SplitInvertsNameIff` | src/record.rs:465-472 | splitting a published name gives back stream and type exactly when the stream has no leading slash, the type no separator, an untyped stream no separator either, and a typed one is not empty on Zenoh |
| `Naming.TypeComesBack` | src/record.rs:465-472 | the type comes back for every nonempty stream name, slash or not |
| `Naming.DeliveredTypeIs` | src/record.rs:465-472 | the type read off a published channel, for every prefix, stream and type: the own one, its last piece, what an untyped name seems to end in, or none |
| `Naming.KeysAgreeIff` | src/record.rs:349-356 | the key noted when publishing is the key looked up on delivery exactly when the payload shows the same stamp under the type read off the channel as under its own; for a named stream whose type holds no separator, exactly when the stream is typed, its name does not seem to end in a type, or the payload shows no stamp under that type |
| `Naming.KeyIsTimeShown` | src/record.rs:383-386 | a message of one of the twelve types is keyed by its channel and the time its bytes show where the definition puts the stamp, or 0 |
| `Agreement.OwnKeyIsDeliveredIff` | src/main.rs:490-494 | the key a replayed stream notes is the one the recorder computes from the same bytes exactly when they show one stamp under both types |
| `Agreement.NotedAsShown` | src/record.rs:383-386 | what a replay notes of a message of the twelve types is its channel and the time its bytes show, or 0 |
| `Agreement.OwnMessageIsNotCaptured` | src/main.rs:490-494 | a message is noted under its key, published and handed back on its channel; whatever comes in between, a wanted one is captured exactly when its delivered key is not claimed by then, and it is not captured less than ten seconds after a note that repeated no live one, if it shows one stamp under both types |
| `Naming.TypeSurvivesMetadataIff` | src/record.rs:448-451 | the type written to channel metadata is read back exactly when it is unknown or does not end in a dot |
| `Naming.RosSpellingNamesType` | src/cdr.rs:18-25 | `package/msg/Class` names `package.Class` |
| `Naming.DdsSpellingNamesType` | src/cdr.rs:18-25 | `package::msg::dds_::Class_` names the same type |
| `Naming.SchemaNamesType` | src/schema.rs:14-30 | for each of the twelve types the schema name written is read back as the type |
| `Codecs.Encode` | src/record.rs:70-84 | the recorded type, bytes and defect are those of the specification for each codec; only CDR can fail |
| `Codecs.ToWire` | src/source.rs:347-357 | yields what the storage holds, and fails exactly when it holds nothing |
| `Codecs.ReopensAsRecordedIff` | src/source.rs:265-275 | a written channel reopens as the stream, type and storage it was recorded as; outside CDR exactly when the type is unknown or does not end in a dot |
| `Codecs.ChannelsReadAs` | src/source.rs:26-32 | what a channel of any encoding is replayed as: `lcm` and `jpeg` as they are, `lz4+lcm` and `lz4+jpeg` unpacked, `cdr` as the message of the type its schema names if that is one of the twelve, and everything else not at all |
| `Codecs.StoredReadsBack` | src/source.rs:347-357 | the stored bytes are replayed as exactly one thing: the captured bytes, or through CDR the captured message retyped and without `seq` |
| `Codecs.RecordingAReplayChangesNothing` | src/record.rs:70-84 | recording what a recording replays gives the same type, bytes and defect again |
| `Recording.Capture.Take` | src/record.rs:272-336 | keeps every clause of the file invariant for one more message, whatever it is |
| `Recording.Capture.CountDefect` | src/record.rs:296-300 | the unrenderable count follows the encoder, before the type of the stream is looked at |
| `Recording.Capture.Lose` | src/record.rs:287-294 | a message that is not kept changes no channel and no row, and is counted under its stream |
| `Recording.Capture.Store` | src/record.rs:301-335 | written exactly when the stream has no type yet or this one |
| `Recording.Capture.Next` | src/record.rs:301-324 | the channel is the one of the stream's type and codec, registered once, and the sequence number is one more than the rows on it |
| `Recording.Capture.Register` | src/record.rs:311-322 | registering one stream leaves every other channel as it was |
| `Recording.Capture.Put` | src/record.rs:325-333 | the file gains exactly this message on this channel, negative times clamped to 0 |
| `Recording.Capture.Write` | src/record.rs:325-335 | messages and the count of the stream grow by one with the file |
| `Recording.Capture.KeptIffTypeAgrees` | src/record.rs:302-309 | the check against the registered type is the specification's decision |
| `Recording.RecordAll` | src/record.rs:270-336 | for any captured sequence: received = written + sum of unencodable, written = sum of by_stream = rows in the file, and the file reads as specified |
| `Recording.FirstStoredNamesType` | src/record.rs:278-280 | a stream is recorded as the type of its first message that could be stored |
| `Recording.WrittenCameFrom` | src/record.rs:272-336 | every row is a captured message that was kept, in capture order |
| `Recording.RowsCameFrom` | src/record.rs:272-336 | row by row: its channel has the stream as topic and the encoding asked for that stream, or else the general one; its log time and its publish time are those of the message it came from, negatives clamped to 0; plain and lz4 rows hold that payload; and no message is in the file twice or out of order |
| `Recording.StoredAsAsked` | src/record.rs:273-277 | a per-stream codec wins over the general one, and CDR falls back to plain for a type without a transcoder |
| `Recording.SequencesCountUp` | src/record.rs:311-312 | sequence numbers on a channel are 1, 2, 3 and so on, in file order |
| `Recording.OneChannelPerStream` | src/record.rs:315-322 | every row of a stream is on one channel, of the stream's type, under the codec that type resolves to |
| `Recording.TypeFixesCodec` | src/record.rs:60-65 | messages of one stream recorded as one type went through one codec |
| `Recording.EveryWrittenMessageReopens` | src/source.rs:317-336 | a row whose captured message fits and whose type does not end in a dot reopens as the captured stream and recorded type and is replayed as what was captured |
| `Recording.UnrenderableIsExactIff` | src/record.rs:296-309 | the unrenderable count is the number of such rows exactly when none was turned away for changing type |
| `Recording.UnrenderableCountsUnwritten` | src/record.rs:296-309 | a jpeg stream with one damaged frame: the frame is counted as unrenderable and is not in the file |
| `Recording.Hear` | src/record.rs:346-370 | a delivery is captured exactly when its stream is wanted and its key is not a live own one, under the split name, with its own stamp or else the log time |
| `Recording.HearAll` | src/record.rs:346-370 | over any deliveries, what is captured comes from them in order, each at most once, with its own stamp or else the log time |
| `Recording.Record` | src/record.rs:270-370 | from the transport to the file: every row is a delivery of its own, in order, under its stream, published at the time its payload shows, or when it was logged if it shows none |
| `Recording.CapturedAtTimeShown` | src/record.rs:352-364 | for the twelve types that time is read from the bytes where the definition puts the stamp |

## Left out

- LCM and Zenoh sessions, multicast delivery, tokio tasks and ctrl-c: what arrives, and when, is a parameter.
- SQLite, the mcap library, LZ4, zstd, mmap and `statvfs`: a table is its rows in time order, a file is its channels and messages, compression is an inverse pair.
- The `lcm-msgs` encoders are not part of this model; that the byte offsets of `support_for` (src/stamp.rs:403-437) are where they put a stamp is not provable here. For the twelve transcodable types the offsets are proved to be those of the rule at src/stamp.rs:3-10; the others are taken as written.
- IEEE 754 rounding of times and rates: reals are used, so `seconds_to_nanos` is exact up to its one rounding and non-finite times do not occur.
- Overflow of `i64` nanoseconds, of `usize` offsets, of the `u64` counters, of the `u32` sequence number and of the `u16` channel id.
- The schema texts in src/schema.rs as text: their fields are modelled, by name, type and order, and the name table; comments, constants and signedness are not.
- Command-line parsing, `--rename`, `--record` selection patterns, SQL quoting, `--list` and report or warning texts: easy or presentation only. A selection is a predicate, an error is just an error.
- `McapSource` iteration: the mcap library decides the order; only how a channel is opened is modelled, and a replay pass is modelled over the database source.
- `key_expr` and Zenoh's own matching of key expressions: foreign; the LCM side of the same question is `Watching.ChannelAnswers`.
- Write errors of the recorder's file, which end the capture, and `Recorder::finish`, which only waits and formats.
- Byte buffers (`Vec<u8>`) are a sequence held in a field, so patching in place is modelled as replacing the sequence; aliasing does not arise in the source.
- The system clock and `Instant` are one monotone clock in the model; a system clock that is set back during a replay is not covered.
- A negative `--rate`, which the command line does not exclude, and which the code does not pace by but maps scaled stamps with; a rate that is not a number. The model asks for 0 or more.
- Pacing.Pacer.PacedLogIsOnTime: about scaled stamps with a positive rate and a start after the epoch; records that come out of order carry no promise about their arrivals.
- What other tasks do in the middle of a pass: the recorder's deliveries are modelled beside a published message (`Agreement`), not between the steps of one record.
- Replay.ReplayAll: stops after a chosen number of passes, because the source loops until interrupted.
