# servers.dat converter: NBT reader and server-list codecs

This project models the core of a converter that turns between Minecraft
`servers.dat` files and text formats for server lists. It covers four parts:

- **The streaming NBT reader** (`NBT::NBTReader`). The reader object holds:
  - a file cursor;
  - the stream's sticky fail bit;
  - a byte counter;
  - a "twin stack" of up to 128 frames (`CLA` / `Size`), which tells compound
    context from list context and counts the elements left in each open list.

  Class `NBTReader.Reader` keeps the two arrays and `top`. Every method is
  proved to follow one function of `ReaderSpec`. A `ReaderSpec` function maps
  the reader state before an operation to the state after it, together with
  the value read or the error thrown. The lemmas in `ReaderSpec` (the
  `…Facts` lemmas) and in `ReaderProps` state what each operation consumes,
  checks and pushes. They also state how `elementRead` cascades, how far
  `skipTag` moves for each tag type, and how skipping agrees with reading.
- **`parse_servers_dat`**. Module `ParseDat` defines the pure reading of a
  servers.dat file (`ParseServersDatSpec`). It also runs the same loop
  imperatively on a `Reader`. `DatRoundTrip` proves that the file written for
  a list of entries reads back as the entries that have a name and an address.
- **`parse_servers_csv`**. Module `ParseCsv` holds the getline loop and the
  delimiter-splitting loop as methods, proved against the line and field
  splitting functions of module `Text`.
- **`serialize_servers_csv` and `serialize_servers_toml`**. Module
  `Serialize` holds both writers as methods over their text functions. It
  counts newlines and table headers. `CsvRoundTrip` proves that CSV parsing
  inverts CSV writing when no field contains a delimiter or a newline. It also
  proves what happens when a field does contain one: nothing is escaped, so
  the fields shift.

Modules:

| module | file | role |
|---|---|---|
| `Wire` | wire.dfy | bytes, tag ids, big-endian and two's-complement integers, bytes as `std::string` |
| `ReaderSpec` | reader_spec.dfy | the reader as a state machine, the twin stack, skipping |
| `NBTReader` | reader.dfy | class `Reader`: arrays `cla`/`size`, `top`, cursor, fail bit, byte counter |
| `ReaderProps` | reader_props.dfy | properties relating several reader operations; the as-written defects |
| `Servers` | servers.dfy | `nbtserver` and the required-fields test |
| `ParseDat` | parse_dat.dfy | `parse_servers_dat` on the reader |
| `DatRoundTrip` | dat_roundtrip.dfy | reading back, and skipping, a well-formed servers.dat |
| `Text` | text.dfy | `std::find_if` / `std::getline` splitting |
| `ParseCsv` | csv.dfy | `parse_servers_csv` |
| `Serialize` | serialize.dfy | `serialize_servers_csv`, `serialize_servers_toml` |
| `CsvRoundTrip` | csv_roundtrip.dfy | CSV write-then-parse |

How the program's integer types are modelled:

- The file's bytes are a `byte` newtype.
- `short`, `int` and `long long` values are the two's-complement value of
  their big-endian bytes (`Wire.Signed`).
- `float` and `double` are returned as their raw bit patterns.
- A `std::string` read from the file is one `char` below 256 per byte.

## Model

| member | source | states |
|---|---|---|
| NBTReader.Reader.Open | src/NBTReader.cpp:32-64 | The reader opens exactly when the file starts with the root header 0A 00 00. A short file fails with Eof; any other three bytes fail with BadRoot. The new reader sits after the header, inside the root compound. |
| NBTReader.Reader.constructor | src/NBTReader.cpp:66-79 | A reader with an empty stack and the cursor at 0. |
| NBTReader.Reader.IsEmpty | src/NBTReader.cpp:126-129 | True exactly when the twin stack holds no frame. |
| NBTReader.Reader.IsFull | src/NBTReader.cpp:131-134 | True exactly when the stack holds all 128 frames. This is the corrected bound; see Findings. |
| NBTReader.Reader.IsListFinished | src/NBTReader.cpp:136-139 | True exactly when the top frame has no elements left. The empty stack counts as finished and nothing outside the arrays is read; see Findings. |
| NBTReader.Reader.CurrentType | src/NBTReader.cpp:141-144 | The top frame's tag. On the empty stack it is End (compound context). |
| NBTReader.Reader.IsInCompound | src/NBTReader.cpp:151-154 | True exactly when the stack is empty or the top frame's tag is End. |
| NBTReader.Reader.IsInList | src/NBTReader.cpp:156-159 | The negation of compound context. |
| NBTReader.Reader.TypeMatch | src/NBTReader.cpp:161-164 | True exactly when the top frame's element type is the tag asked for. |
| NBTReader.Reader.Pop | src/NBTReader.cpp:176-184 | Removes the top frame; does nothing on the empty stack. |
| NBTReader.Reader.Push | src/NBTReader.cpp:186-196 | Adds the frame on top, or does nothing when the stack is full. |
| NBTReader.Reader.ElementRead | src/NBTReader.cpp:198-205 | Counts one element of the current list. Finished lists are popped and each counts as one element of its parent, cascading. |
| NBTReader.Reader.EndList | src/NBTReader.cpp:166-174 | Pops a finished list and counts it in its parent. Otherwise nothing changes. |
| NBTReader.Reader.ReadValue | src/NBTReader.cpp:209-223 | Reads n bytes at the cursor and adds n to ByteCount. It fails with Eof, and sets the fail bit, when fewer than n bytes are left or the stream has already failed. |
| NBTReader.Reader.PeekTagType | src/NBTReader.cpp:236-251 | Yields the next byte and leaves cursor, counter and stack unchanged. |
| NBTReader.Reader.ReadTagType | src/NBTReader.cpp:254-265 | Consumes one byte and yields it; fails at end of input. |
| NBTReader.Reader.ReadTagName | src/NBTReader.cpp:268-280 | Reads an int16 length and then that many bytes as the name. A negative length or a short input is an error. |
| NBTReader.Reader.ReadHeader | src/NBTReader.cpp:436-447 | The named-tag header: the type byte must be the expected tag, and the name must equal the expected one when one is given. |
| NBTReader.Reader.Prologue | src/NBTReader.cpp:436-452 | In compound context a header is read. In list context nothing is read and the list's element type must match. |
| NBTReader.Reader.CompoundHeader | src/NBTReader.cpp:404-418 | Headers of lists and arrays are read only in compound context. In list context they are not checked at all. |
| NBTReader.Reader.SkipTag | src/NBTReader.cpp:283-348 | Succeeds exactly when `ReaderSpec.SkipPayload` does, and leaves the cursor at the offset it gives. On a sound stream a failure throws the error `SkipPayload` gives: Eof, NegativeLength, or UnknownTag for End and unknown tags. Negative String and array lengths are refused; see Findings. |
| NBTReader.Reader.SeekBy | src/NBTReader.cpp:286-327 | `seekg(n, cur)` with `ByteCount += n`: ByteCount always grows by n; the seek succeeds exactly when the stream has not failed and n bytes are left, and then moves the cursor by exactly n; otherwise it fails with Eof. |
| NBTReader.Reader.SkipList | src/NBTReader.cpp:328-335 | The List case of skipTag, with the same contract: succeeds exactly when `SkipPayload(List)` does, at its offset, and otherwise throws its error (that of the head or of the first element that fails). |
| NBTReader.Reader.SkipCompound | src/NBTReader.cpp:336-344 | The Compound case of skipTag, with the same contract: succeeds exactly when `SkipPayload(Compound)` does, at its offset, and otherwise throws its error (that of the first member that fails, or Eof before End). |
| NBTReader.Reader.SkipNameAndPayload | src/NBTReader.cpp:338-342 | One member of a skipped compound: name, then payload. It succeeds exactly when `ReaderSpec.SkipNamed` does, at its offset, and otherwise throws the error it gives. |
| NBTReader.Reader.SkipCurrentTag | src/NBTReader.cpp:350-360 | In compound context, skips a whole named tag and leaves the stack as it was. In list context, skips one element and counts it. On success the stream stays sound, so `ByteCount` equals the cursor. On a sound stream a failure throws the error `ReaderSpec.SkipCurrentSpec` gives. On error the stack is unchanged. |
| NBTReader.Reader.EnterCompound | src/NBTReader.cpp:363-383 | Pushes a compound frame. A header is read only in compound context with an expected name. |
| NBTReader.Reader.ExitCompound | src/NBTReader.cpp:386-399 | Outside compound context it fails with NotInCompound. Otherwise it reads a type byte, fails with ExpectedEnd unless the byte is End, then pops and counts the compound as an element. |
| NBTReader.Reader.ReadListHead | src/NBTReader.cpp:402-431 | Yields the element type and the int32 count, and pushes their frame. A list with count 0 is popped at once. |
| NBTReader.Reader.ReadArrayHead | src/NBTReader.cpp:626-649 | The shared array head: header, int32 count, and a frame of the element type. |
| NBTReader.Reader.ReadByteArrayHead | src/NBTReader.cpp:626-649 | An array head of Byte elements. |
| NBTReader.Reader.ReadIntArrayHead | src/NBTReader.cpp:651-674 | An array head of Int elements. |
| NBTReader.Reader.ReadLongArrayHead | src/NBTReader.cpp:676-699 | An array head of Long elements. |
| NBTReader.Reader.ReadPrimitive | src/NBTReader.cpp:434-458 | The shape shared by the fixed-width reads: prologue, payload bytes, elementRead. |
| NBTReader.Reader.ReadByte | src/NBTReader.cpp:434-458 | The signed value of one payload byte. |
| NBTReader.Reader.ReadShort | src/NBTReader.cpp:460-484 | The signed value of two big-endian payload bytes. |
| NBTReader.Reader.ReadInt | src/NBTReader.cpp:486-510 | The signed value of four big-endian payload bytes. |
| NBTReader.Reader.ReadLong | src/NBTReader.cpp:512-536 | The signed value of eight big-endian payload bytes. |
| NBTReader.Reader.ReadFloat | src/NBTReader.cpp:538-562 | The 4-byte bit pattern. |
| NBTReader.Reader.ReadDouble | src/NBTReader.cpp:564-588 | The 8-byte bit pattern. |
| NBTReader.Reader.ReadString | src/NBTReader.cpp:591-623 | Prologue, an int16 length, that many bytes as the string, then elementRead. |
| NBTReader.Reader.GetByteCount | src/NBTReader.cpp:230-233 | The byte counter. It equals the cursor while the stream has not failed. |
| ReaderSpec.Pushed | src/NBTReader.cpp:186-196 | A push never takes the stack past 128 frames. It adds the frame exactly when fewer than 128 are held. |
| ReaderSpec.Popped | src/NBTReader.cpp:176-184 | Removes exactly the top frame; the empty stack stays empty. |
| ReaderSpec.DecrementTop | src/NBTReader.cpp:200-201 | Only the top frame's count changes, and it drops by one. |
| ReaderSpec.AfterElementReadShape | src/NBTReader.cpp:198-205 | elementRead only removes list frames from the top and lowers the count of the frame left on top. It never pops a compound frame. |
| ReaderSpec.EndListFramesShape | src/NBTReader.cpp:166-174 | endList has the same shape. |
| ReaderSpec.Seek | src/NBTReader.cpp:287-303 | A seek succeeds exactly when it stays inside the input, and moves the cursor by n. |
| ReaderSpec.SkipPayload | src/NBTReader.cpp:283-348 | A successful skip always moves the cursor forward and stays inside the input; negative String and array lengths are refused. See Findings. The exact distances are stated by the ReaderProps.Skip… lemmas and DatRoundTrip.SkipServerAt. |
| ReaderSpec.SkipElements | src/NBTReader.cpp:328-335 | Skipping count > 0 elements moves forward; a count of 0 or less skips nothing. |
| ReaderSpec.SkipMembers | src/NBTReader.cpp:336-344 | A compound is skipped up to and including its End byte. |
| ReaderSpec.SkipNamed | src/NBTReader.cpp:338-342 | A named member ends past its type byte, its name length and its name. |
| ReaderSpec.SkipCurrentSpec | src/NBTReader.cpp:350-360 | skipCurrentTag leaves the stack unchanged in compound context and counts one element in list context. |
| ReaderSpec.TagTypeStepFacts | src/NBTReader.cpp:254-265 | readTagType consumes exactly one byte and yields it. It succeeds exactly when a byte is left and the stream has not failed. |
| ReaderSpec.LengthPrefixedStepFacts | src/NBTReader.cpp:268-280 | A successful length-prefixed read yields exactly the bytes its int16 prefix announces. |
| ReaderSpec.HeaderStepFacts | src/NBTReader.cpp:436-447 | A header read succeeds only on the expected type byte. It yields the name stored after it, which equals the expected name when one is given. |
| ReaderSpec.PrologueStepFacts | src/NBTReader.cpp:436-452 | In list context nothing is consumed, and the read succeeds exactly when the element type matches. In compound context a successful read saw the right type byte. |
| ReaderSpec.PrimitiveStepFacts | src/NBTReader.cpp:434-458 | A successful fixed-width read yields the width bytes before the new cursor and counts one element. A failed one leaves the stack alone. |
| ReaderSpec.StringStepFacts | src/NBTReader.cpp:591-623 | A successful readString consumes at least the length prefix and the string, and counts one element. A failed one leaves the stack alone. |
| ReaderSpec.StringStepValue | src/NBTReader.cpp:591-623 | The string a successful readString yields is exactly the bytes just before the new cursor, preceded by an int16 prefix holding their number. In list context nothing else is consumed. |
| ReaderSpec.LengthPrefixedStepAt | src/NBTReader.cpp:268-280 | A successful length-prefixed read consumes exactly the int16 prefix and the string, and the string is the bytes after the prefix. |
| ReaderSpec.CompoundHeaderStepFacts | src/NBTReader.cpp:404-418 | In list context a list or array head reads no header. In compound context a successful one saw the right type byte. |
| ReaderSpec.ListHeadStepFacts | src/NBTReader.cpp:402-431 | The element type and count are the five bytes before the new cursor, and their frame is pushed (popped again when the count is 0). A failed read leaves the stack alone. |
| ReaderSpec.ListHeadValueFacts | src/NBTReader.cpp:421-425 | The values readListHead returns are the bytes it read. |
| ReaderSpec.ArrayHeadStepFacts | src/NBTReader.cpp:626-649 | An array head yields the int32 before the new cursor and pushes a frame of the element type. |
| ReaderSpec.EnterStepFacts | src/NBTReader.cpp:363-383 | enterCompound always pushes the compound frame on success. Without an expected name, or in list context, it reads nothing. |
| ReaderSpec.ExitStepFacts | src/NBTReader.cpp:386-399 | exitCompound succeeds exactly in compound context on an End byte. It consumes that one byte, then pops and counts one element. |
| ReaderSpec.PeekStepFacts | src/NBTReader.cpp:236-251 | peekTagType yields the next byte and leaves the whole state unchanged. |
| ReaderSpec.PeekThenRead | src/NBTReader.cpp:236-265 | A second peek, or a readTagType after a peek, sees the byte the peek saw. |
| ReaderProps.ElementReadInList | src/NBTReader.cpp:198-205 | With more than one element left, elementRead only counts down. With one left, it pops the list and counts it as an element of the parent. |
| ReaderProps.NestedListsCascade | src/NBTReader.cpp:166-205 | Over a compound-context stack, any number of nested lists, each on its last element or empty, are all popped by one elementRead, which stops at the compound and leaves it as it was. |
| ReaderProps.EmptyListCountsInParent | src/NBTReader.cpp:427-430 | A list head with count 0 leaves the stack exactly as if the parent had read one element. |
| ReaderProps.EmptyEndListLeavesFrame | src/NBTReader.cpp:427-430 | An empty list of End elements leaves an (End, 0) frame, which reads as compound context. |
| ReaderProps.WrongTagInCompound | src/NBTReader.cpp:436-440 | In compound context, a wrong type byte makes a typed read throw TagMismatch naming both types. |
| ReaderProps.NameCheck | src/NBTReader.cpp:442-447 | With an expected name, the header reads the same bytes and throws exactly when the stored name differs. Without one, every name is accepted. |
| ReaderProps.ListElementRead | src/NBTReader.cpp:448-456 | In list context the expected name is ignored. A type mismatch throws and consumes nothing. A match consumes exactly the payload and counts one element. |
| ReaderProps.SkipStringMatchesRead | src/NBTReader.cpp:304-309 | skipTag(String) stops where readString's payload read stops, and fails with the same error. |
| ReaderProps.LengthPrefixedOutcome | src/NBTReader.cpp:268-280 | The outcome of a length-prefixed read, case by case: too short, negative length, truncated, or read. |
| ReaderProps.SkipStringOutcome | src/NBTReader.cpp:304-309 | The same case split for skipTag(String). |
| ReaderProps.FixedWidth | src/NBTReader.cpp:286-303 | Fixed-width payloads are 1, 2, 4 or 8 bytes. |
| ReaderProps.SkipFixedMatchesRead | src/NBTReader.cpp:286-303 | Skipping a fixed-width list element moves as far as reading it does, and fails exactly when the read does. |
| ReaderProps.ArrayWidth | src/NBTReader.cpp:310-327 | Array elements are 1, 4 or 8 bytes wide. |
| ReaderProps.SkipArrayOutcome | src/NBTReader.cpp:310-327 | skipTag of an array, case by case: too short for the count, negative count, truncated, or the cursor exactly 4 + count * width bytes on. |
| ReaderProps.SkipUnknownTag | src/NBTReader.cpp:345-346 | skipTag of End, or of a byte that is no tag type, throws UnknownTag. |
| ReaderProps.SkipFixedElements | src/NBTReader.cpp:328-335 | count elements of a fixed-size type, skipped one by one, take exactly count times its width. |
| ReaderProps.SkipFixedList | src/NBTReader.cpp:328-335 | skipTag(List) of a fixed-size type moves past the 5-byte head and exactly count elements; a count of zero or less skips the head only. |
| ReaderProps.PushOverrunsAsWritten | src/NBTReader.cpp:131-134 | As written, push writes slot 128, outside both arrays, exactly when the stack already holds 128 frames. |
| ReaderProps.ExitRootReadsBelowStackAsWritten | src/NBTReader.cpp:136-139 | As written, exitCompound on the root of 0A 00 00 00 makes isListFinished read Size[-1]. The model leaves the stack empty instead. |
| ReaderProps.SkipCompoundLoopsAsWritten | src/NBTReader.cpp:304-309 | As written, skipping a String of length -5 moves the cursor back onto its own member, so skipTag(Compound) loops. The model refuses the length. |
| ReaderProps.SkipArrayLoopsAsWritten | src/NBTReader.cpp:310-315 | As written, skipping a ByteArray of count -7 moves the cursor back onto its own member, so skipTag(Compound) loops. The model refuses the count. |
| Wire.Signed | src/NBTReader.cpp:209-223 | The two's-complement value of big-endian bytes: in range for the width, and negative exactly when the top bit is set. |
| Wire.SignBit | src/NBTReader.cpp:209-223 | The leading byte alone decides the sign. |
| Wire.CharsOfBytes | src/NBTReader.cpp:268-280 | Bytes copied into a std::string and back are unchanged. |
| Wire.CharsInjective | src/NBTReader.cpp:268-280 | Two names compare equal exactly when their bytes do. |
| ParseDat.ReadFields | src/parse.cpp:169-177 | The four reads in file order. The first one that throws ends the block, keeping the fields read before it. |
| ParseDat.RecordStep | src/parse.cpp:162-189 | One loop iteration. An entry is kept only when it has a name and an ip; an exitCompound failure aborts. |
| ParseDat.ReadRecordsBound | src/parse.cpp:161-190 | At most one entry is kept per declared element, and none when the count is 0 or less. |
| ParseDat.ReadRecordsKeepsComplete | src/parse.cpp:182-189 | Every entry kept has a non-empty name and ip. |
| ParseDat.ParseServersDatKeepsComplete | src/parse.cpp:145-198 | Whatever the file holds, every returned server has a name and an ip. A file that fails to open, or a list declaring no elements, yields nothing. |
| ParseDat.ReadServerFields | src/parse.cpp:164-177 | The inner try block on the reader equals `ReadFields`. |
| ParseDat.ReadServer | src/parse.cpp:162-189 | One iteration on the reader equals `RecordStep`. |
| ParseDat.RecordsAfterOne | src/parse.cpp:161-190 | One iteration advances the loop's invariant by one record. |
| ParseDat.ReadNextServer | src/parse.cpp:161-190 | One iteration on the reader, stated against the loop invariant. |
| ParseDat.ReadServers | src/parse.cpp:161-190 | The loop's outcome is `ReadRecords` of the state it starts in. |
| ParseDat.ParseServersDat | src/parse.cpp:145-198 | parse_servers_dat on the file's bytes is `ParseServersDatSpec`. Every exception yields the empty list. |
| DatRoundTrip.Kept | src/parse.cpp:182-189 | The entries kept: the ones with a name and an ip, in order. |
| DatRoundTrip.ListHeadAt | src/parse.cpp:151-156 | The head of the list "servers" of n compounds is read and its frame pushed. |
| DatRoundTrip.RecordAt | src/parse.cpp:162-189 | One encoded entry is read and kept exactly when it has a name and an ip. |
| DatRoundTrip.RecordsAt | src/parse.cpp:161-190 | The encoded entries are read back as the kept ones. |
| DatRoundTrip.ParseEncodedServersDat | src/parse.cpp:145-198 | The servers.dat written for xs parses to exactly the entries of xs with a name and an ip, in order. |
| DatRoundTrip.LengthPrefixedSkip | src/NBTReader.cpp:304-309 | An encoded length prefix holds the string's length, and the string fits in the data. |
| DatRoundTrip.SkipNamedStringAt | src/NBTReader.cpp:336-344 | Skipping a named String member (type, name, value) lands exactly past it. |
| DatRoundTrip.SkipNamedByteAt | src/NBTReader.cpp:336-344 | Skipping a named Byte member lands exactly past it. |
| DatRoundTrip.SkipServerAt | src/NBTReader.cpp:336-344 | skipTag(Compound) over an encoded entry (its four tags and End) lands exactly at the entry's end. |
| DatRoundTrip.SkipServerMatchesRead | src/NBTReader.cpp:350-360 | skipCurrentTag on an element of the servers list ends at the same cursor, with the same stack, as one iteration of the reading loop in parse_servers_dat. |
| Text.FindFirst | src/parse.cpp:113 | std::find_if returns a separator or the end, at or after the start. |
| Text.FindFirstSkipsNone | src/parse.cpp:113 | No separator lies before what find_if returns. |
| Text.SplitFromSeparatorFree | src/parse.cpp:112-116 | No piece holds a separator. |
| Text.SplitCons | src/parse.cpp:108-116 | A separator-free piece followed by a separator is split off first. |
| Text.SplitSingle | src/parse.cpp:112-116 | A non-empty separator-free text is one piece. |
| Text.TrailingSeparator | src/parse.cpp:112-116 | A final separator adds no empty piece. |
| Text.SplitJoin | src/parse.cpp:112-116 | Splitting separator-free pieces joined by a separator gives the pieces back. |
| Text.SplitUnlines | src/parse.cpp:108 | getline reads back every newline-terminated line, whatever follows. |
| ParseCsv.EntriesBound | src/parse.cpp:118-121 | Each line yields at most one server. It yields one for every line exactly when every line has at least four items. |
| ParseCsv.EmptyContent | src/parse.cpp:96-99 | Empty content yields no server. |
| ParseCsv.SplitFields | src/parse.cpp:112-116 | The inner loop pushes exactly the items of the line. |
| ParseCsv.ParseLine | src/parse.cpp:112-128 | A line yields its server when it has at least four items, and nothing otherwise. |
| ParseCsv.NextLine | src/parse.cpp:108-129 | One getline iteration keeps the loop invariant. |
| ParseCsv.ParseServersCsv | src/parse.cpp:95-132 | parse_servers_csv returns `CsvServers` of the content. |
| Serialize.FlagDigit | src/serialize.cpp:11 | The flag digit is '1' exactly when textures are accepted. |
| Serialize.SerializeCsv | src/serialize.cpp:5-14 | The output is the records in list order. |
| Serialize.CsvTextCons | src/serialize.cpp:7-12 | The text of a list is its first record followed by the text of the rest. |
| Serialize.CsvNewlines | src/serialize.cpp:5-14 | The text has exactly one newline per record when no field holds one. |
| Serialize.TomlRecordWrites | src/serialize.cpp:37-42 | The six writes of one entry append exactly its table. |
| Serialize.SerializeToml | src/serialize.cpp:33-46 | The output is the tables in list order. |
| Serialize.TomlTextCons | src/serialize.cpp:36-43 | The text of a list is its first table followed by the text of the rest. |
| Serialize.TomlLines | src/serialize.cpp:33-46 | Read back line by line, the text is the blocks of the records, when no field holds a newline. |
| Serialize.TomlBlockFacts | src/serialize.cpp:37-42 | A block is six lines, and exactly one of them is the header. |
| Serialize.TomlOneHeaderPerRecord | src/serialize.cpp:33-46 | Among the lines of all the servers' blocks, "[[servers]]" occurs exactly once per server. These block lines are the output text's lines only when no field holds a newline, by `Serialize.TomlLines`. |
| CsvRoundTrip.CsvLineJoin | src/serialize.cpp:8-11 | A record line is its four fields joined by commas. |
| CsvRoundTrip.CsvLineFields | src/serialize.cpp:8-11 | A record line splits back into its four fields when none holds a delimiter. |
| CsvRoundTrip.CsvLineEntry | src/parse.cpp:123-128 | A written record line parses back to its server. |
| CsvRoundTrip.CsvLineOneLine | src/serialize.cpp:8-11 | A record line holds no newline when no field does. |
| CsvRoundTrip.CsvRoundTrip | src/parse.cpp:95-132 | Parsing the CSV written for xs gives xs, when no field holds ',', '\|', ';' or a newline. |
| CsvRoundTrip.CommaInNameFields | src/serialize.cpp:8-11 | A name holding a comma makes its record line split into five items. |
| CsvRoundTrip.CommaInNameShiftsFields | src/parse.cpp:123-128 | Such a record parses back shifted: the name's two parts become name and icon, the icon becomes the address, the flag is read from the address, and the result differs from the input. |

## Left out

- **Opening the file.** Opening files and the filesystem checks of
  `parse_servers_dat` (src/parse.cpp:135-143) are not modelled. The model
  takes the file's bytes as input. An empty path and a missing file both give
  the empty list, exactly as an unopenable file does.
- **`close`, `open` and `isOpen`.** The destructor, `close` and the
  default-constructor-then-`open` path are left out. `isOpen` is always true
  for a reader built from a path, so peekTagType's "File not open" branch
  cannot happen.
- **Console output.** Warnings and errors are not modelled; only the returned
  values are.
- **Other formats.** The JSON and TOML parsers (src/parse.cpp:10-93), the JSON
  serializer and the NBT writer are not part of this model.
- **`readFloat` and `readDouble`.** They yield bit patterns, not IEEE-754
  values, because floating point is outside the model.
- **The stream position.** A seek past the end fails at once in the model.
  With `std::ifstream`, the failure shows only at the next read.
- **`NBTReader.Reader.SeekBy` on a failed stream.** It fails with Eof in the
  model. In the source, `seekg` on a failed stream does nothing and throws
  nothing, while `ByteCount` still grows. So after a caller has caught an
  exception, `skipTag` of a fixed-width tag and `skipCurrentTag` in list
  context return normally in the source but fail in the model.
  `parse_servers_dat` never reaches this, because it calls neither `skipTag`
  nor `skipCurrentTag`.
- **`NBTReader.Reader.SkipTag` on failure.** After a failed skip the error
  is specified (on a stream that had not failed before), but the cursor is
  not.
- **`NBTReader.Reader.SkipList` on failure.** The same: the error, not the
  cursor.
- **`NBTReader.Reader.SkipCompound` on failure.** The same: the error, not
  the cursor.
- **`NBTReader.Reader.SkipCurrentTag` on failure.** The same: the error, not
  the cursor.
- **`ReaderSpec.SkipPayload` with a negative length.** It refuses a negative
  String length and a negative ByteArray, IntArray or LongArray count with
  NegativeLength. The source seeks backwards by that amount and throws
  nothing; see Findings.
- **`ReaderSpec.SkipPayload` with a large array.** It multiplies IntArray and
  LongArray counts without the 32-bit `int` overflow of `count * 4` and
  `count * 8`.
- **`NBTReader.Reader.CurrentType` on an empty stack.** It yields End, where
  the source reads `CLA[-1]`.
- **The `server_count` reservation** in `parse_servers_csv`
  (src/parse.cpp:101-104) affects capacity only, not behaviour.
- **`servers.reserve(serverCount)` in `parse_servers_dat`**
  (src/parse.cpp:159). A negative count converts to a huge `size_t`, so
  `reserve` throws `std::length_error` and the outer catch returns the empty
  list. The model gives the same empty list for any count of zero or less,
  by reading no entries. A count so large that the allocation fails also
  yields the empty list in the source; the model then reads entries, and it
  fails too unless the file holds that many.
- **`char` signedness and `std::string` contents.** `char` values are
  modelled as bytes 0-255, so `items[3][0] == '1'` and the tag comparisons do
  not depend on it. Strings read from the file are bytes, and text is
  compared character by character, with no encoding.
- **Byte order.** The host byte-order detection (`isSysBE` / `IE2BE`) is
  modelled by its effect: values are read big-endian.

## Findings

| source | as written | input that shows it | evidently intended | confidence | as-written member | corrected member |
|---|---|---|---|---|---|---|
| src/NBTReader.cpp:131-134 | `isFull` tests `top >= TwinStackSize`, so with 128 frames held (`top == 127`) `push` writes `CLA[128]` and `Size[128]` | 128 nested compounds or lists | full at 128 frames (`top >= TwinStackSize - 1`), so push never writes outside the arrays | not executed | ReaderProps.PushOverrunsAsWritten | ReaderSpec.Pushed |
| src/NBTReader.cpp:136-139 | `isListFinished` reads `Size[top]` also when the stack is empty (`top == -1`), as `exitCompound` on the root compound does through `elementRead` | the file 0A 00 00 00, then `exitCompound()` | an empty stack counts as finished and nothing below the arrays is read | not executed | ReaderProps.ExitRootReadsBelowStackAsWritten | NBTReader.Reader.IsListFinished |
| src/NBTReader.cpp:304-309 | `skipTag(String)` seeks by the signed int16 length, so a negative length moves the cursor backwards and `skipTag(Compound)` can reread the same member forever | compound member 08 00 00 FF FB (String, empty name, length -5) | a negative length is an error, as `readString` and `readTagName` make it, and every skip moves forward | not executed | ReaderProps.SkipCompoundLoopsAsWritten | ReaderSpec.SkipPayload |
| src/NBTReader.cpp:310-327 | `skipTag` of ByteArray, IntArray and LongArray seeks by the signed int32 count times the width, so a negative count moves the cursor backwards and `skipTag(Compound)` can reread the same member forever | compound member 07 00 00 FF FF FF F9 (ByteArray, empty name, count -7) | a negative count is an error and every skip moves forward | not executed | ReaderProps.SkipArrayLoopsAsWritten | ReaderSpec.SkipPayload |
