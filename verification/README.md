# A verified model of PowerDNS and splitpipe

This project models the parts of the repository whose behaviour depends on state kept over many
calls, and proves what they promise.

* **DNS messages.** `DNSPacketWriter` with its pending record, its label map of compression offsets
  and its header counts (`Names`, `NameWriter`, `PacketWriter`), and what its compression promises
  (`Compression`); `PacketReader` and `MOADNSParser` with the hop limit and the offset arithmetic in 16
  bits (`MessageReader`, `RecordReader`, `MessageParser`), also on packets cut short (`CutMessage`). `Wire` is an independent statement of sections 4.1 and 4.1.4 of RFC 1035: what a
  name, a record and a list of records at a place in a message mean. Writer and reader are each proved
  against it. On top: transaction signatures (`Tsig`, section 3.4 of RFC 2845), the recursor's packing
  loop (`Packing`), the in-place ageing of packets and what it does to their records (`Ageing`,
  `AgedRecords`), the NSEC type bitmap (`NsecBitmap`, section 4.1.2 of RFC 4034), and base32hex (`Base32`,
  section 7 of RFC 4648).
* **splitpipe and joinpipe.** The ring buffer (`RingBuffer`), streaming MD5 (`Md5`, sections 3.1 to 3.3
  of RFC 1321), the volume-splitting main loop (`Splitpipe`) proved against a state machine over the
  loop's events (`SplitCourse`, `SplitMedia`, `SplitFates`, `SplitRejects`), the stretch-reading loop
  (`Joinpipe`) and what it makes of any media (`JoinTrail`), and the two end to end (`Stretches`,
  `SessionLog`, `PipeRoundTrip`).
* **MTasker**, the cooperative scheduler, as a transition system (`MTasker`, `SchedulerInvariant`,
  `SchedulerQueues`, `SchedulerTimeouts`).
* **The authoritative answering loop** over an arbitrary backend, in the manner of section 4.3.2 of RFC
  1034 (`AnswerLoop`, `AnswerVerdicts`, `AnswerChain`, `AnswerReplies`, `PacketHandler`), and the recursing proxy's
  connection tracking (`DnsProxy`).
* **The packet cache**: its order on reversed names and the purge of a zone (`PacketCache`).

Objects whose methods change fields are classes here; where a class has more state than a contract
can carry, its methods are proved against a function on values (`MTasker.Schedule`,
`AnswerLoop.Follow`, `Ageing.Aged`, `SplitCourse.Run`), and the lemmas are about that function: they say
what it means in terms of bytes, numbers, queues and the backend's records, without its own helpers.

Results that go against the code's own comments or intentions, each stated with its exact condition:

* A thread that waits without a deadline traps MTasker's timeout scan: with idle queues `schedule` does
  not return (`SchedulerTimeouts.HangsIff`).
* joinpipe rejects the output of splitpipe if and only if the reads and writes are such that a stretch is
  started with exactly three bytes left in its volume, which makes an empty Data stretch
  (`PipeRoundTrip.SplitThenJoin`). 988 bytes are enough with `-b 1 -s 3` (`PipeRoundTrip.SmallRejected`), and
  such reads and writes exist for every volume with room for twice the buffer and every input that fills it
  (`SplitRejects.AnySizesStartAtThree`).
* If a new volume has no room for a byte of data, no run of splitpipe on a non-empty input ends; if it has,
  every run can be brought to its end (`SplitFates.EndsIff`, `SplitFates.CanEnd`).
* Only the low byte of ARCOUNT is decremented when a signed message is rebuilt, so verification works
  if and only if that byte was not 255 before signing (`Tsig.RebuildsIff`, `Tsig.CarryStays`).
* The comment on the packet cache's purge overlooks names such as `use-powerdns.com`: a purge of
  `powerdns.com$` is exact if and only if no name that ends in the suffix after a character sorting
  below the dot is cached beside a name below the zone (`PacketCache.PurgeExactIff`, `DashBlocks`).
* The proxy displaces an unanswered entry if and only if all 65536 ids are taken, and then the one with
  id 0, because the chosen number is cut to 16 bits (`DnsProxy.DisplacesIff`, `DnsProxy.FullTableDisplaces`).

## Model

| member | source | states |
|---|---|---|
| Names.LabelTok | pdns/pdns/dnswriter.cc:166-192 | splits a name without escapes into exactly its labels, each part beginning right behind the dot of the one before, and from each part on the text stands for the labels from there on |
| Names.PresentReads | pdns/pdns/dnsparser.cc:449-462 | whatever bytes the labels hold, dots, backslashes and spaces included, the text shown for a name reads back as its labels; only the root is shown as a dot |
| NameWriter.Find | pdns/pdns/dnswriter.cc:159-165 | the label map is searched linearly and the first entry equal up to case is found |
| NameWriter.WriteName | pdns/pdns/dnswriter.cc:195-263 | what is written is fixed: a name that may be compressed has in full the labels before the first suffix that equals, up to case, an entry of the map from before, and then a pointer to the first such entry; any other name has all labels and a zero. Each label written in full below 16384 is remembered with those after it, and nothing else. The bytes decode to the name up to case with at most as many pointers as labels, and every entry of the map decodes to its remembered name |
| NameWriter.SpelledShort | pdns/pdns/dnswriter.cc:218-262 | whatever has been remembered, a name never takes more bytes than uncompressed |
| NameWriter.PointerTail | pdns/pdns/dnswriter.cc:224-231 | a pointer to a remembered suffix stands for the labels still to be written, with one pointer more than the suffix needs |
| NameWriter.EncodedDecode | pdns/pdns/dnswriter.cc:252-260 | uncompressed labels decode to themselves without any pointer |
| NameWriter.FoundOld | pdns/pdns/dnswriter.cc:221-231 | a suffix found in the map was remembered for an earlier name, never for the one being written |
| NameWriter.AddedOk | pdns/pdns/dnswriter.cc:233-236 | every suffix remembered while a name is written decodes to itself once the name is finished |
| Compression.LeanName | pdns/pdns/dnswriter.cc:218-262 | writing a name keeps the map complete, which holds every label in reach of a pointer; and what a name that may be compressed spells out is not to be read, up to case, at any place in reach within an earlier name |
| Compression.SpelledOut | pdns/pdns/dnswriter.cc:218-262 | the labels a name spells out before its zero or pointer are those written in full, and from each on it reads as the labels from there |
| Compression.OwnerOnce | pdns/pdns/dnswriter.cc:218-231 | in a packet so compressed, a record with the owner of an earlier record, spelled out there in reach of a pointer, has a pointer of two bytes for a name |
| Wire.DecodeMono | pdns/pdns/dnsparser.cc:431-466 | a name that decodes keeps its meaning and its end when unknown bytes are filled in and the message grows |
| Wire.DecodeMore | pdns/pdns/dnsparser.cc:431-466 | a larger hop limit does not change what a name that decodes means |
| PacketWriter.DNSPacketWriter.constructor | pdns/pdns/dnswriter.cc:7-49 | a new packet is a header counting one question, and that question uncompressed |
| PacketWriter.DNSPacketWriter.StartRecord | pdns/pdns/dnswriter.cc:56-82 | completes a pending record, leaves everything finished as it was, and names the new record by a pointer to the question or through the label map, spelling out nothing that an earlier name has in reach |
| PacketWriter.DNSPacketWriter.XfrLabel | pdns/pdns/dnswriter.cc:195-263 | appends a name that decodes where the record will stand, although its header is not written yet, in full if it may not be compressed, and else spelling out nothing that an earlier name has in reach |
| PacketWriter.DNSPacketWriter.XfrBlob | pdns/pdns/dnswriter.cc:265-269 | appends bytes to the open record and keeps the packet well formed |
| PacketWriter.DNSPacketWriter.Commit | pdns/pdns/dnswriter.cc:293-327 | the open record becomes the last finished one: the whole packet is again a question and records in place with correct counts, and no name in it runs through a record header |
| PacketWriter.DNSPacketWriter.Rollback | pdns/pdns/dnswriter.cc:286-291 | the open record is dropped and the packet is exactly the finished one before it |
| PacketWriter.DNSPacketWriter.SetFlags | pdns/pdns/dnswriter.cc:51-54 | header flags change nothing else |
| PacketWriter.CommitComplete | pdns/pdns/dnswriter.cc:293-327 | committing keeps the question and all earlier records in place and adds the new one; names keep off all record headers, which stay holes of the frame that names and label map are decoded in |
| PacketWriter.ConcisePacket | pdns/pdns/dnswriter.cc:293-327 | with its record headers filled in a packet is as compressed: no name in it that may be compressed spells out what a name before it has in reach of a pointer |
| PacketWriter.BumpCounts | pdns/pdns/dnswriter.cc:313-324 | the header counts equal the number of records per section after each commit |
| PacketWriter.SeeQuestion | pdns/pdns/dnswriter.cc:70-73 | a pointer to offset 12 names the question, up to case |
| MessageReader.GetLabelFromContent | pdns/pdns/dnsparser.cc:431-466 | reading a name, with its hop limit and 16-bit offsets, gives the escaped text of what the name means in RFC 1035's terms, or the exception the code throws, and ends where the name ends |
| MessageReader.PointerIsTarget | pdns/pdns/dnsparser.cc:444-448 | the offset that wraps below the header reads as a target outside the packet |
| RecordReader.PacketReader.NextRecord | pdns/pdns/dnsparser.cc:233-260 | one record is read as name, header and items by the registered shape |
| RecordReader.PacketReader.XfrBlob | pdns/pdns/dnsparser.cc:468-476 | the rest of the record's data, with the errors for data past the end and inverted ranges |
| RecordReader.PacketReader.GetDnsRecordHeader | pdns/pdns/dnsparser.cc:290-306 | ten bytes of record header become type, class, TTL and length |
| RecordReader.RecordReads | pdns/pdns/dnsparser.cc:233-260 | a record standing in a message is read back: name and embedded names equal up to case, the rest equal, and the reader ends where the record ends |
| RecordReader.NameReads | pdns/pdns/dnsparser.cc:431-466 | a name of at most ten labels never trips the hop limit |
| MessageParser.Init | pdns/pdns/dnsparser.cc:197-287 | the packet is parsed as the specification function says, including the forgiven error in truncated packets |
| MessageParser.PlacesAgree | pdns/pdns/dnsparser.cc:233-241 | in natural order the header counts determine the section of every record |
| MessageParser.WrittenReads | pdns/pdns/dnsparser.cc:197-287 | parsing a finished packet gives its question and its records in order, with the counts per section and the place of a final TSIG record |
| CutMessage.RecordPrefix | pdns/pdns/dnsparser.cc:233-260 | reading a record from a prefix of a packet gives what the whole packet gives, or runs out; it never reads anything else |
| CutMessage.CutReads | pdns/pdns/dnsparser.cc:222-287 | a written packet cut at any byte: without its whole question it is rejected; cut within a record it reads as the packet of the records before that one, counts adjusted, if TC is set, and is rejected if it is not |
| MessageParser.WriteMessage | pdns/pdns/dnswriter.cc:56-327 | any list of records with data, each started and filled and closed by one commit, is a complete packet of exactly the size that compression gives it, unless that size exceeds 65535; no name in it that may be compressed spells out a suffix that an earlier name has below offset 16384 |
| MessageParser.WriteRecords | pdns/pdns/dnswriter.cc:56-327 | the same on a given writer: it gives up if and only if the compressed packet is larger than 65535 bytes |
| MessageParser.PacketGrows | pdns/pdns/dnswriter.cc:280-284 | every further record makes the packet larger, however well it compresses |
| MessageParser.PacketShort | pdns/pdns/dnswriter.cc:195-263 | the packet is never larger than its uncompressed size |
| MessageParser.WriteThenParse | pdns/pdns/dnswriter.cc:56-327 | the whole round trip: any question and records whose compressed packet fits 65535 bytes are written, and parsing the bytes describes the same message |
| Tsig.SignBytes | pdns/pdns/dnssecinfra.cc:472-491 | the signed variables, computed by a scratch writer whose offsets rule out compression; what they are is `SignedVariables` and `SignedTimers` |
| Tsig.SignedVariables | pdns/pdns/dnssecinfra.cc:472-491 | the signed string reads as the variables of section 3.4.2 of RFC 2845 in their order: a name with the labels of the key name, class 0x00ff, TTL 0, a name with the labels of the algorithm, the time in 48 bits (cut to 32), the fudge, the error, and the length of the other data |
| Tsig.SignedTimers | pdns/pdns/dnssecinfra.cc:472-491 | with timersonly it is eight bytes, the time and the fudge |
| Tsig.SignedWhole | pdns/pdns/dnssecinfra.cc:460-493 | before the variables stand the message and, if there is one, the previous MAC with its length |
| Tsig.SameSigned | pdns/pdns/dnssecinfra.cc:460-493 | two signed strings under one message and previous MAC are equal only if the names have the same labels and time modulo 2^32, fudge, error and other length agree |
| Tsig.TsigRecordIs | pdns/pdns/dnsrecords.cc:131-143 | the TSIG record field by field: type 250, class 255, TTL 0, algorithm uncompressed, time in 48 bits, fudge, MAC, original id, error and other data |
| Tsig.SizedIs | pdns/pdns/dnsrecords.cc:131-143 | the MAC and the other data stand behind their length in 16 bits |
| Tsig.AddTSIG | pdns/pdns/dnssecinfra.cc:460-498 | the MAC covers the previous MAC, the message and the variables; the packet ends in one TSIG record and is otherwise unchanged but for ARCOUNT |
| Tsig.MakeTSIGMessageFromTSIGPacket | pdns/pdns/dnssecinfra.cc:421-458 | the message the verifier rebuilds |
| Tsig.StripBump | pdns/pdns/dnssecinfra.cc:426-427 | removing the record and decrementing one byte undoes the signer's change exactly if that byte was not 255 |
| Tsig.CarryStays | pdns/pdns/dnssecinfra.cc:421-498 | a packet with 255 additional records is written and signed, and what the verifier rebuilds from it differs from what was signed |
| Tsig.DetailsRead | pdns/pdns/dnspacket.cc:429-453 | from a received packet the verifier gets the place of the TSIG record, the key name without its dot and the record's content |
| Tsig.ShownLabels | pdns/pdns/dnspacket.cc:442-444 | the text shown for a plain name, with or without its trailing dot, has the labels of the name |
| Tsig.NameExact | pdns/pdns/dnsparser.cc:431-466 | where only lower-case names have been written, a compressed name is read back exactly |
| Tsig.RebuildsIff | pdns/pdns/dnssecinfra.cc:421-498 | the rebuilt message equals the signed one if and only if the additional records before signing were not 255 modulo 256 in number |
| Packing.OrderAndShuffle | pdns/pdns/misc.cc:535-573 | whatever the random numbers: the same records, in section order; authority records, and the CNAMEs that lead a section, are in the order in which they came, at the places a stable sort gives them |
| Packing.StableSortedStable | pdns/pdns/misc.cc:569-573 | sorting by section keeps the order within each section |
| Packing.RandomShuffle | pdns/pdns/misc.cc:546-547 | only the given range is permuted |
| Packing.PackRecords | pdns/pdns/pdns_recursor.cc:559-578 | exactly as many records are packed as fit: a prefix of the records fits the limit, names compressed, if and only if it is no longer than the one in the packet |
| Packing.Respond | pdns/pdns/pdns_recursor.cc:489-583 | the response is a complete packet within the allowed size, compressed as far as the writer can, holds the longest prefix of a section-ordered permutation of the records that fits, leading CNAMEs in their order, and has TC set exactly if an answer record was left out; QR and RA are set, and the low four bits of the fourth byte are the result, or 2 if there is none |
| Packing.HeadNumbers | pdns/pdns/pdns_recursor.cc:489-520 | the first four bytes in numbers: the identification, QR with TC and RD, RA with the result |
| Ageing.AgeDNSPacket | pdns/pdns/dnsparser.cc:599-633 | the packet is changed in place exactly as specified, also when the mangler throws half-way |
| Ageing.DNSPacketMangler.SkipLabel | pdns/pdns/dnsparser.cc:535-545 | skipping a name ends where the reader's name rule ends it, and fails where that fails |
| Ageing.DNSPacketMangler.AgeRecord | pdns/pdns/dnsparser.cc:617-628 | one turn lowers one TTL, or stops at an OPT record or at the end of the packet |
| Ageing.AgedIs | pdns/pdns/dnsparser.cc:571-583 | length and every byte outside the TTLs are kept, and each TTL is lowered modulo 2^32 |
| Ageing.AllSpotsSame | pdns/pdns/dnsparser.cc:599-633 | the places of the TTLs do not depend on the TTLs |
| Ageing.AgeTwice | pdns/pdns/dnsparser.cc:599-633 | ageing by a and then b is ageing by their sum, for every packet |
| Ageing.SpotsOfRecords | pdns/pdns/dnsparser.cc:617-628 | from any record on, the mangler's record boundaries are the reader's, up to the first OPT |
| AgedRecords.PacketSpots | pdns/pdns/dnsparser.cc:599-633 | in a packet that holds a question and records, the TTLs found are those of the records before the first OPT |
| AgedRecords.RecordAged | pdns/pdns/dnsparser.cc:599-633 | every record before the first OPT has its TTL lowered modulo 2^32, and every record header is otherwise as it was |
| AgedRecords.AgedComplete | pdns/pdns/dnsparser.cc:599-633 | a packet whose names keep off its record headers is after ageing a packet of the same question and the same records with those TTLs lowered |
| AgedRecords.WriteAgeParse | pdns/pdns/dnsparser.cc:599-633 | a packet written, aged in place and parsed describes the question and the records with the TTLs before the first OPT lowered |
| AgedRecords.RespondAgeParse | pdns/pdns/pdns_recursor.cc:824-829 | a response the recursor packed, aged in place and parsed describes the longest prefix of the ordered records that fits, with the TTLs before the first OPT lowered |
| AgedRecords.KnotAged | pdns/pdns/dnsparser.cc:571-583 | a packet whose one record is named through its own TTL: after ageing the name cannot be read |
| NsecBitmap.Encode | pdns/pdns/nsecrecords.cc:25-58 | the bytes written are windows in strictly increasing order, each of 1 to 32 octets with no trailing zero octet, holding exactly the given types; the empty set is one empty window |
| NsecBitmap.Decode | pdns/pdns/nsecrecords.cc:60-92 | the parse loop computes what the bitmap means, or the exception it throws |
| NsecBitmap.OctetTypesIs | pdns/pdns/nsecrecords.cc:84-90 | a window contributes exactly the numbers of its set bits |
| NsecBitmap.TypeIsBit | pdns/pdns/nsecrecords.cc:84-90 | type t is the bit worth 128, 64, .. 1 (for t modulo 8) of octet (t modulo 256) / 8 of window t / 256 |
| NsecBitmap.AddBit | pdns/pdns/nsecrecords.cc:50-51 | setting a bit adds its type and no other |
| NsecBitmap.ParseFlat | pdns/pdns/nsecrecords.cc:74-91 | parsing proper windows gives the union of their types |
| NsecBitmap.RoundTrip | pdns/pdns/nsecrecords.cc:148-222 | for every set of types, empty included, parsing the bitmap written for it gives the set back |
| Base32.ExtractIs | pdns/pdns/base32.cc:11-23 | five bits from a position on, highest first, whatever lies beyond the string |
| Base32.SetBitsIs | pdns/pdns/base32.cc:26-50 | five bits are or-ed in at their place, a sixth just before them if it lies in the same byte, and nothing else changes |
| Base32.Alphabet | pdns/pdns/base32.cc:67-71 | the digits are 0 to 9 and A to V in this order |
| Base32.ToBase32Hex | pdns/pdns/base32.cc:67-96 | every five bits become a digit, the last filled with zero bits, and groups are padded |
| Base32.FromBase32Hex | pdns/pdns/base32.cc:99-118 | the bits of the characters before the first one that is no digit or letter, cut to whole bytes; the sixth bit of W to Z is or-ed into the character before, within a group |
| Base32.EncodedUnique | pdns/pdns/base32.cc:67-96 | a string has one encoded form |
| Base32.RoundTrip | pdns/pdns/base32.cc:11-118 | decoding the encoded form in upper or lower case gives the bytes back |
| Base32.OrderKept | pdns/pdns/packethandler.cc:598-600 | for strings of one length the encoding keeps and reflects the order, also in lower case |
| RingBuffers.RingBuffer.Store | splitpipe/ringbuffer.hh:76-97 | appends the block to the queue if it fits, and refuses it otherwise |
| RingBuffers.RingBuffer.Get | splitpipe/ringbuffer.hh:99-106 | a non-empty prefix of a non-empty queue, up to the end of the vector, also when the read position stands one past the end |
| RingBuffers.RingBuffer.Advance | splitpipe/ringbuffer.hh:108-113 | drops what was reported from the queue's front, which moves on modulo the length of the vector |
| RingBuffers.RingBuffer.Room | splitpipe/ringbuffer.hh:42-50 | room is capacity minus queue length |
| RingBuffers.RingBuffer.Available | splitpipe/ringbuffer.hh:52-60 | available is the queue length |
| RingBuffers.GetKeepsQueueIff | splitpipe/ringbuffer.hh:99-106 | taking a position one past the end back to 0 keeps the queue if and only if the queue is not empty or the write position is there too |
| Md5.MD5Summer.Feed | splitpipe/md5.cc:170-215 | the block loop absorbs the input after everything fed before, with a 64-bit length in two words |
| Md5.MD5Summer.Get | splitpipe/md5.cc:260-269 | the digest of everything fed, leaving the state for later feeding alone |
| Md5.MD5Summer.Finish | splitpipe/md5.cc:217-240 | padding and length as sections 3.1 and 3.2 of RFC 1321 ask |
| Md5.LengthWords | splitpipe/md5.cc:223-227 | the two shifted words are the 64-bit bit count |
| Md5.PaddedIs | splitpipe/md5.cc:217-234 | the padded message is whole blocks: the message, 0x80, zeros, and eight bytes that, lowest first, are its length in bits modulo 2^64 |
| Md5.StartState | splitpipe/md5.cc:36-46 | the start state written out is 01 23 45 67 89 ab cd ef fe dc ba 98 76 54 32 10 |
| Md5.DigestOfChunks | splitpipe/md5.cc:249-269 | however a message is cut, the digest is the one-shot digest |
| Stretches.JoinVolume | splitpipe/joinpipe.cc:144-247 | joinpipe reads a closed volume stretch by stretch and goes on to the next, whatever follows on the medium |
| Stretches.JoinLast | splitpipe/joinpipe.cc:144-247 | on the last volume it stops at SessionEOF |
| Joinpipe.JoinpipeMain | splitpipe/joinpipe.cc:144-247 | the reading loop computes the specified reader |
| JoinTrail.JoinsTrail | splitpipe/joinpipe.cc:144-247 | on any media whatever: joinpipe meets a trail of stretches, each as it stands on its volume; it changes volumes exactly at VolumeEOF, at another session than the first and at a number other than the expected; it writes their data in order; it ends well only at SessionEOF with every checksum on the way met, and fails only at an empty data stretch, a wrong checksum, or where no whole stretch is left |
| SessionLog.OpenVolume | splitpipe/splitpipe.cc:297-325 | the opening stretches of a volume are accepted in sequence |
| SessionLog.AddChecksum | splitpipe/splitpipe.cc:284-294 | a running checksum is accepted |
| Splitpipe.Spawn | splitpipe/splitpipe.cc:226-271 | a new output command gets the opening stretches and the invariant holds again |
| Splitpipe.Lifecycle | splitpipe/splitpipe.cc:438-466 | when a new output command is started, when the user is asked for new media, and when an exited command counts as dead; in numbers this is `SplitMedia.PassOpens` |
| SplitMedia.PassOpens | splitpipe/splitpipe.cc:438-552 | a pass opens a volume exactly if no command is alive and the buffer is more than half full or the input has ended, without prompts or for the first volume, or if the user has been asked and presses enter; it leaves the user asked exactly as long as he has not pressed it |
| SplitMedia.EachVolumeAsked | splitpipe/splitpipe.cc:438-552 | over every run with prompts, at all times: at most one volume more than enter was pressed |
| SplitMedia.VolumesAsked | splitpipe/splitpipe.cc:438-689 | so a run with prompts leaves at most one volume more than there were key presses |
| SplitMedia.OpenedOnRequest | splitpipe/splitpipe.cc:438-552 | with prompts, every volume after the first is opened by a key press in a pass without an output command in which the user had been asked |
| SplitMedia.NeverAsked | splitpipe/splitpipe.cc:438-445 | without prompts the user is never asked |
| SplitMedia.OpeningBytes | splitpipe/splitpipe.cc:297-325 | the bytes a volume begins with: the session id, the date, the label if any and the number of the volume, each with its length and type |
| SplitMedia.ClosingBytes | splitpipe/splitpipe.cc:607-622 | a volume ends in the digest of all data so far and VolumeEOF, the session in the digest and SessionEOF |
| SplitMedia.WritesExactly | splitpipe/splitpipe.cc:575-659 | between stretches, with room for a header, the longest stretch is started that 65535, the buffered piece and the volume allow; with less room the volume is closed; within a stretch data go out unless the write takes none |
| SplitMedia.ReadsExactly | splitpipe/splitpipe.cc:554-570 | input is read exactly if it has not ended, there is room and it is readable: at most 100000 bytes, the room and what is left |
| Splitpipe.Turn | splitpipe/splitpipe.cc:575-659 | a stretch is started with the size the buffer and the volume allow, or a full volume is closed with the running checksum, or a piece is written; the rest of the open stretch is buffered in one piece and fits the volume |
| Splitpipe.SendOut | splitpipe/splitpipe.cc:573-661 | the inner loop does what the machine says, and data sent plus data buffered stays the same |
| Splitpipe.Serve | splitpipe/splitpipe.cc:471-661 | after select: a key press brings a command online, a read fills the ring, and the output is written to only if there was something to write to a working command before select |
| Splitpipe.ReadInput | splitpipe/splitpipe.cc:554-570 | reads go to the end of the ring; input read is data sent plus data buffered |
| Splitpipe.Pass | splitpipe/splitpipe.cc:438-664 | every pass of the main loop, over the ring buffer and the checksum, is the pass of the machine without them, keeps the invariant, and stops exactly when all input has been read and sent |
| Splitpipe.InvFinish | splitpipe/splitpipe.cc:672-689 | a finished run ends in checksum and SessionEOF within the configured size |
| Splitpipe.Go | splitpipe/splitpipe.cc:366-692 | over every run: it ends when the machine ends and leaves the machine's volumes; volumes within their size, the last ending in checksum and SessionEOF, and the reader's fate decided by whether the machine starts a stretch at three |
| SplitFates.CanEnd | splitpipe/splitpipe.cc:438-664 | splitpipe never gets stuck: from every state that any events lead to, further events end the run, if a new volume has room for a byte of data |
| SplitFates.EndsIff | splitpipe/splitpipe.cc:580-602 | a non-empty input can be split to its end if and only if a new volume has room for a stretch header and one byte |
| SplitRejects.SmallStartsAtThree | splitpipe/splitpipe.cc:580-602 | with a buffer of one kilobyte and volumes of three, a run on any 988 bytes, from start to end, in which a stretch is started with three bytes left |
| SplitRejects.AnySizesStartAtThree | splitpipe/splitpipe.cc:438-664 | whatever the sizes of buffer and volume, if the volume has room for twice the buffer, and whatever the input, if it fills a volume: some run from start to end starts a stretch with three bytes left |
| Splitpipe.FinalJoin | splitpipe/joinpipe.cc:144-247 | joinpipe on the finished volumes, each followed by anything, ends as the log says |
| PipeRoundTrip.SplitThenJoin | splitpipe/splitpipe.cc:438-689 | joinpipe gives back exactly the input, and accepts every checksum, if and only if on the given events no stretch is started with three bytes left in its volume |
| PipeRoundTrip.SmallRejected | splitpipe/joinpipe.cc:144-247 | joinpipe fails on the volumes of that run on 988 bytes |
| MTasker.DeadlineAhead | pdns/pdns/mtasker.cc:167-181 | a timeout counted from a clock not behind a time has not expired by that time, in spite of the carry rule of normalizeTV |
| MTasker.MTasker.WaitEvent | pdns/pdns/mtasker.cc:161-200 | a waiter is entered in deadline order unless the key is taken |
| MTasker.MTasker.NewThread | pdns/pdns/mtasker.cc:263-283 | a new thread gets a fresh number and is queued |
| MTasker.MTasker.RunOn | pdns/pdns/mtasker.cc:375-384 | a thread runs until it waits, yields or ends as a zombie; where it then is, is `SchedulerQueues.RunExact` |
| MTasker.MTasker.Send | pdns/pdns/mtasker.cc:222-245 | sendEvent as specified |
| MTasker.MTasker.TimeOuts | pdns/pdns/mtasker.cc:311-337 | the scan loop as specified, including the case in which it does not end |
| MTasker.MTasker.ScheduleOnce | pdns/pdns/mtasker.cc:292-340 | one call of schedule as specified |
| SchedulerInvariant.EachThreadOnce | pdns/pdns/mtasker.cc:292-340 | the invariant thread by thread: a live thread is in exactly one of run queue, zombies and waiters, once |
| SchedulerInvariant.RunAccounts | pdns/pdns/mtasker.cc:375-384 | whatever a thread does while it runs, it is held exactly once afterwards, together with the threads it made |
| SchedulerQueues.RunExact | pdns/pdns/mtasker.cc:161-245 | a turn of any thread: it uses exactly the calls before the first that suspends it; the threads it made are runnable in order; if it yielded it stands behind all of them, if it waits there is one more waiter with its number, key and deadline, and it is a zombie if and only if it used all its calls |
| SchedulerQueues.ScheduleRuns | pdns/pdns/mtasker.cc:292-303 | with a runnable thread, schedule takes the first off the run queue and gives it such a turn, and nothing else |
| SchedulerQueues.SendEventTurns | pdns/pdns/mtasker.cc:222-245 | sendEvent gives such a turn to the thread that waits on the key, which waits no longer |
| SchedulerQueues.ScheduleReaps | pdns/pdns/mtasker.cc:304-310 | without a runnable thread, schedule takes the first zombie out of the thread table |
| SchedulerQueues.ScheduleScans | pdns/pdns/mtasker.cc:311-340 | with idle queues and deadlines on all waiters, exactly the expired ones get such a turn each, in deadline order |
| SchedulerQueues.FirstInFirstOut | pdns/pdns/mtasker.cc:205-340 | whatever kernel calls are made, the thread at position i of the run queue is first in it after i calls of schedule, so that the next one gives it control |
| SchedulerQueues.ReapedZombie | pdns/pdns/mtasker.cc:292-340 | a thread leaves the thread table only in schedule, on an empty run queue, as the first of the zombies |
| SchedulerInvariant.ScheduleKeeps | pdns/pdns/mtasker.cc:292-340 | schedule keeps the invariant |
| SchedulerInvariant.EveryRunKeeps | pdns/pdns/mtasker.cc:161-384 | after every sequence of kernel calls each live thread is held once, waiter keys are unique, and the thread table is their union |
| SchedulerInvariant.SendEventExact | pdns/pdns/mtasker.cc:222-245 | sendEvent resumes exactly the thread waiting on the key, with that key and value, and no other; without one it changes nothing |
| SchedulerTimeouts.HangsIff | pdns/pdns/mtasker.cc:322-337 | with idle queues schedule never returns if and only if some thread waits without a deadline |
| SchedulerTimeouts.WaiterTraps | pdns/pdns/mtasker.cc:322-337 | a run of two kernel calls after which schedule does not return |
| SchedulerTimeouts.ScanExact | pdns/pdns/mtasker.cc:311-337 | with deadlines on all waiters and re-waits not expired already, the scan ends and wakes exactly the expired waiters, in deadline order |
| AnswerLoop.ChopOffIs | pdns/pdns/misc.cc:122-138 | the first label goes with its dot, and nothing else |
| PacketHandlers.DNSPacket.AddRecord | pdns/pdns/dnspacket.cc:158-170 | a record that the reply has already is left out |
| PacketHandlers.PacketHandler.GetAuth | pdns/pdns/packethandler.cc:276-292 | the closest ancestor that has a SOA |
| PacketHandlers.PacketHandler.GetBestReferralNS | pdns/pdns/packethandler.cc:294-310 | the deepest NS set below the apex |
| PacketHandlers.PacketHandler.GetBestWildcard | pdns/pdns/packethandler.cc:312-334 | the closest wildcard, searched up to the apex, or to the root if asked at the apex |
| PacketHandlers.PacketHandler.TryReferral | pdns/pdns/packethandler.cc:982-1000 | a referral adds the NS set to the authority section and clears AA |
| PacketHandlers.PacketHandler.TryWildcard | pdns/pdns/packethandler.cc:1026-1058 | wildcard records are given out under the asked name, and a CNAME retargets |
| PacketHandlers.PacketHandler.AnswerTarget | pdns/pdns/packethandler.cc:1228-1325 | the records at the target: redirection, answer, no data |
| PacketHandlers.PacketHandler.QuestionOrRecurse | pdns/pdns/packethandler.cc:1161-1325 | the loop with its gotos computes the specified reply; what that holds is `AnswerReplies` |
| AnswerVerdicts.ServFailIff | pdns/pdns/packethandler.cc:1161-1165 | for every backend the loop makes at most eleven passes, and gives up exactly if the chain does not end within ten redirections |
| AnswerChain.NoRevisit | pdns/pdns/packethandler.cc:1294-1303 | no name is met twice on a chain that ends |
| AnswerChain.RepliesWithChain | pdns/pdns/packethandler.cc:1161-1303 | unless it gives up, the reply starts with all the CNAMEs followed, a chain from the asked name to the final target |
| AnswerVerdicts.NXDomainIff | pdns/pdns/packethandler.cc:1264-1292 | NXDOMAIN is set if and only if the final target has no records, no NS set from it up to below the apex, and no wildcard at any ancestor up to the apex |
| AnswerVerdicts.UnauthoritativeIff | pdns/pdns/packethandler.cc:276-292 | a pass finds no authority exactly if no ancestor of the target has a SOA |
| AnswerVerdicts.ReferralIff | pdns/pdns/packethandler.cc:294-310 | a pass ends in a referral exactly if the target is delegated below the apex, with the NS set of the closest delegation |
| AnswerVerdicts.DataExact | pdns/pdns/packethandler.cc:1228-1325 | exactly the authoritative records of the asked type are given out, and a CNAME is followed exactly if there is one and it was not asked for |
| AnswerReplies.NegativeReply | pdns/pdns/packethandler.cc:928-966 | if the chain ends in a name that does not exist, or in one without data of the type, at itself or at the closest wildcard, the reply is the CNAMEs and one record: the SOA of the closest zone, as the zone has it, in the authority section, with AA; NXDOMAIN only if there was nothing at the name and no wildcard |
| AnswerReplies.AuthoritativeIff | pdns/pdns/packethandler.cc:1161-1180 | AA is set if and only if some ancestor of the name asked for has a SOA and the chain does not end in a referral |
| AnswerReplies.ReferralReply | pdns/pdns/packethandler.cc:982-1000 | a referral is the CNAMEs and then the NS records of the closest delegation, all of them, none twice and no others, in the authority section |
| AnswerReplies.DataReply | pdns/pdns/packethandler.cc:1228-1325 | an answer is the CNAMEs and then the name's own records of the type asked for, all of them, none twice and no others; the zone's own SOA has the zone's serial |
| AnswerReplies.WildcardReply | pdns/pdns/packethandler.cc:1026-1058 | a wildcard answer is the CNAMEs and then the wildcard's records of the type asked for under the name asked for, all of them, none twice and no others |
| AnswerReplies.ForeignReply | pdns/pdns/packethandler.cc:1305-1325 | a name whose only records of the type are not ours to give: the reply is the CNAMEs alone |
| AnswerReplies.OutsideReply | pdns/pdns/packethandler.cc:1166-1184 | a chain that leaves our zones: the reply is the CNAMEs alone |
| AnswerReplies.FollowsCName | pdns/pdns/packethandler.cc:1264-1303 | a name with a CNAME that was not asked for, or without records under a wildcard with a CNAME, sends the loop on to that CNAME's content, with that CNAME in the reply under the name |
| AnswerReplies.EveryCase | pdns/pdns/packethandler.cc:1161-1325 | these cases are all there are: every name under every backend falls under one of them |
| DnsProxy.DNSProxy.GetId | pdns/pdns/dnsproxy.cc:124-141 | the first number without a fresh entry |
| DnsProxy.DNSProxy.SendPacket | pdns/pdns/dnsproxy.cc:92-122 | a question is tracked under an id of our own and sent with that id scrambled |
| DnsProxy.DNSProxy.Receive | pdns/pdns/dnsproxy.cc:164-196 | a reply is passed on exactly if its entry waits and name and type match, and the entry is marked answered |
| DnsProxy.ReplyFinds | pdns/pdns/dnsproxy.cc:112-172 | a reply to what was sent on finds its entry |
| DnsProxy.DisplacesIff | pdns/pdns/dnsproxy.cc:124-141 | a live entry is displaced if and only if every id is taken and it has id 0 |
| DnsProxy.FullIs | pdns/pdns/dnsproxy.cc:124-141 | the table is full exactly if each of the 65536 ids has an entry of the last 60 seconds |
| DnsProxy.UsableIs | pdns/pdns/dnsproxy.cc:124-141 | an id is free if it was never given out or its entry is older than 60 seconds |
| DnsProxy.AnsweredFree | pdns/pdns/dnsproxy.cc:124-196 | an answered question's id is free again |
| DnsProxy.FullTableDisplaces | pdns/pdns/dnsproxy.cc:92-141 | after any 65536 questions within 60 seconds, none answered yet, the next one takes the place of the first, which waits no longer and was never answered |
| DnsProxy.AnsweredOnce | pdns/pdns/dnsproxy.cc:164-196 | over every run each question is answered at most once, with its own id, to the client that asked it, and with its name and type |
| DnsProxy.NeverDisplaced | pdns/pdns/dnsproxy.cc:92-141 | over every run with fewer than 65536 ids taken, an unanswered question at most 60 seconds old keeps its entry until it is answered |
| PacketCache.Compare | pdns/pdns/packetcache.hh:47-62 | the comparator's loop computes the order of names read backwards without case, on signed characters |
| PacketCache.StrictWeakOrder | pdns/pdns/packetcache.hh:47-62 | a strict weak order whose equivalence is equality up to case |
| PacketCache.PacketCache.Insert | pdns/pdns/packetcache.cc:134-169 | an entry is inserted or replaced and the index stays in order |
| PacketCache.PacketCache.GetEntry | pdns/pdns/packetcache.cc:276-288 | the value under the key if it has not expired |
| PacketCache.PacketCache.Purge | pdns/pdns/packetcache.cc:182-254 | a plain purge removes exactly the entries of one name; a zone purge is the lower bound and forward scan |
| PacketCache.PurgeSafe | pdns/pdns/packetcache.cc:230-246 | a zone purge never removes an entry outside the zone |
| PacketCache.PurgeRemoves | pdns/pdns/packetcache.cc:230-246 | which entries go: the zone's own name always, names below it exactly if no blocker is cached |
| PacketCache.PurgeExactIff | pdns/pdns/packetcache.cc:230-246 | a zone purge removes exactly the zone if and only if no blocker is cached beside a name below the zone |
| PacketCache.DashBlocks | pdns/pdns/packetcache.cc:134-254 | two entries are inserted and the zone of one is purged: the purge removes nothing, because the other is a blocker |

## Left out

- Names.LabelTok: labels with a backslash, whose unescaping in the writer does not invert the reader's
  escaping, and NUL bytes, at which the remembered suffixes stop (pdns/pdns/dnswriter.cc:205-246).
- PacketWriter.DNSPacketWriter.Rollback: nothing is said about names written after it, because the label
  map keeps offsets of the dropped record (pdns/pdns/dnswriter.cc:286-291). `Packing` writes nothing after it.
- PacketWriter.DNSPacketWriter.StartRecord: an open record must hold data, since the code does not commit
  an empty one (pdns/pdns/dnswriter.cc:58-59); messages are at most 65535 bytes long.
- AgedRecords.AgedComplete: that names keep off record headers suffices but is not necessary, as a name that
  runs through a TTL may be led from one root to another. The writer guarantees it, so it holds of all that
  the recursor ages (`RespondAgeParse`); the packet of `KnotAged`, whose name ageing breaks, would have to
  come from another program. For the record headers no condition is needed (`RecordAged`).
- AnswerChain.RepliesWithChain: a CNAME is alone at its owner, as RFC 1034 demands of a zone, and the backend
  gives out records that carry the name they were looked up by, up to case.
- PipeRoundTrip.SplitThenJoin: at most 65536 volumes, because volume numbers are 16 bits wide.
- MTasker.MTasker.NewThread: thread numbers do not wrap.
- `addOpt`, `xfrText` and the lower-casing mode of the writer. Record types are shapes of fixed fields,
  counted blobs, a rest and names; the text forms of records are not part of this model.
- MD5's rounds (`md5_process`) and `calculateMD5HMAC` are function parameters. A shift combined with an
  or, where the operands share no bits, is written as a sum, except in `Base32` and `NsecBitmap`.
- The clock, `select`, reads and writes with their byte counts, a command's death and the user's
  key presses are events or parameters; logging, curses and the command line are left out.
- splitpipe interrupted by a signal, and an output command that dies or closes its input before it is
  told to.
- `sendEvent` called from inside a thread, stack sizes and `getEvents` of MTasker. What a thread does
  while it has control is a list of calls given from outside.
- In the answering loop: class ANY, recursion, DNSSEC-secured zones, the question types DS, SOA, DNSKEY,
  NSEC3PARAM, NSEC and RRSIG, version.bind, fancy records, root referrals, additional processing and
  the packet cache insertion after it, and fields of a record that the loop only copies.
- Locks are taken as granted, except that an insertion into the packet cache may find its lock taken;
  expiry by `cleanup` and the statistics are left out.
- The DNS proxy's parse errors, its socket set-up and its insertion into the packet cache.
- Signing engines, `addRRSigs` and the selection of NSEC and NSEC3 proofs.
- pdns/pdns/dnslabel.cc, pdns/pdns/dbdnsseckeeper.cc and the packet-capture tools.
