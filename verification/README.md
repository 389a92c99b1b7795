# A verified model of rs-iec61850's protocol cores

This project models, in Dafny 4.11, the parts of rs-iec61850 where several
functions, or several parties, have to agree, and proves that they do:

- **GOOSE.** `GoosePublisher` is the publisher as a system of steps: any number
  of `publish` and `refresh` calls, superseded retransmission tasks that wake
  late, failed sends, `close`. `GooseSubscriber` is the sequence tracker and the
  time-allowed-to-live supervision, `GooseLink` puts publisher and tracker at the
  two ends of a link with and without loss, `GooseSchedule` makes the schedule
  and `GooseMessage` is the APDU.
- **Group key distribution.** `Isakmp`, `IkeCrypto`, `Exchange` and `Teks` are
  the message, protection and payload codecs; `KeyServer` is the key server one
  datagram at a time, `KeyServerRuns` all sequences of datagrams, `GroupMember`
  the initiator, `Registration` both over a link that loses messages,
  `HonestRun` and `HonestRegistration` the registration from end to end,
  `HonestExample` an instance of its conditions. `Groups` is the server's TEK
  table and `Keeper` the member's key table with its timers.
- **BER and MMS.** `Ber`, `Decoding`, `Elements`, `Primitives` and `Oids` are the
  runtime, `ValueCodec`, `TypeSpecs` and `AltAccess` the MMS codecs on it.
- **Time.** `Calendar` is the proleptic Gregorian calendar over all integers,
  `Timestamps` its text forms.

Code that is expressions and recursion is modelled as functions; loops, cursors
and objects that change are methods and classes, each proved against such a
function. Cryptography is symbolic: the PRF and the digest are any functions with
outputs of the right length, the block cipher any pair of inverse functions,
Diffie-Hellman any operation both ends agree on (`IkeCrypto.Lawful`). The octets
that go through it (chains, padding, IVs, hashed ranges) are the real ones.

Where the code does not keep a property in full, the exact condition is proved:

- `Element::size` is one octet short for each tag numbered 2^28 or above
  (`Elements.SizeExact`, `Elements.WideTagExample`).
- `TypeSpec::value_count` can reach its ceiling although fewer values would be
  built, and leaves out the elements of an array that names no element type
  (`TypeSpecs.CountExact`, `TypeSpecs.EarlySaturationExample`,
  `TypeSpecs.NoElementTypeExample`).
- A formatted time reads back for the years -999 to 9999
  (`Timestamps.ParseOfFormat`, `Timestamps.YearTenThousandExample`): a negative
  year is padded to four characters, sign included.
- An object identifier reads back when its first two arcs are ones a single
  number can stand for (`Oids.OidRoundTrip`, `Oids.JoinedArcsExample`), a group
  identity when the group is named in one way only (`Teks.GroupIdRoundTrip`,
  `Teks.SelectorLostExample`).
- `timeAllowedToLive` covers the interval that follows it as far as 32 bits of
  milliseconds reach (`GoosePublisher.TatlCovers`, `GoosePublisher.TatlExample`).
- A message without a lifetime does not end a silence for the supervision, though
  the documentation says the next message does
  (`GooseSubscriber.ZeroLifetimeExample`, `GooseSubscriber.ReportedOncePerSilence`).
- The default value can be followed along a resolved path unless an array without
  elements is indexed, which `access_path` allows (`AltAccess.PathSelectsDefault`,
  `AltAccess.EmptyArrayExample`).

## Model

| member | source | states |
|---|---|---|
| Octets.BeRoundTrip | src/asn1/primitives.rs:5-79 | Writing a number that fits in big-endian octets and reading it back gives the number. |
| Octets.BeOctetsOfValue | src/asn1/primitives.rs:24-79 | Reading octets as a number and writing it back gives the octets. |
| Ber.AppendBase128 | src/asn1/oid.rs:52-69 | The 5-octet array loop appends exactly the base-128 form. |
| Ber.AppendTag | src/asn1/mod.rs:155-182 | The identifier octets are appended to what is there. |
| Ber.TagSizeExact | src/asn1/mod.rs:155-214 | A tag takes as many octets as `tag_size` says, and one more exactly when it is numbered 2^28 or above. |
| Ber.LengthSizeExact | src/asn1/mod.rs:185-225 | The length octets number what `length_size` says. |
| Decoding.TlvAt | src/asn1/decoder.rs:145-181 | Any successful read takes at least two octets and stays in the buffer, so every scan ends. |
| Decoding.Decoder.ReadTag | src/asn1/decoder.rs:40-82 | The cursor's tag loop reads what `TagAt` says, and its offset ends where that read ends or fails. |
| Decoding.Decoder.ReadLength | src/asn1/decoder.rs:86-120 | The same for the length octets. |
| Decoding.Decoder.ReadTlvAt | src/asn1/decoder.rs:145-181 | The same for a whole element, the indefinite form's scan included, on every input. |
| Decoding.Decoder.Expect | src/asn1/decoder.rs:184-195 | The cursor moves past an element of the wanted tag, and any other is an error. |
| Decoding.Decoder.Optional | src/asn1/decoder.rs:199-208 | The cursor moves only over an element of the wanted tag. |
| Decoding.TagReads | src/asn1/decoder.rs:40-82 | Every tag, with any 32-bit number, reads back from its octets. |
| Decoding.TlvReads | src/asn1/decoder.rs:145-181 | An element in the definite form reads back whole wherever its octets stand. |
| Decoding.TlvShift | src/asn1/decoder.rs:145-181 | What reads in one buffer reads the same, at any smaller depth, where that buffer stands inside another. |
| Decoding.IndefiniteReads | src/asn1/decoder.rs:145-181 | Whole elements wrapped in the indefinite form read as the tag and the children before the first that starts 00 00. |
| Decoding.IndefiniteIsDefinite | src/asn1/decoder.rs:145-181 | The indefinite form reads as the definite form does exactly when no child starts 00 00. |
| Elements.AppendElement | src/asn1/element.rs:142-164 | Appending a tree writes its encoding after what is there. |
| Elements.SizeExact | src/asn1/element.rs:120-171 | The encoding's length is `size` and one more for each tag numbered 2^28 or above in the tree. |
| Elements.WideTagExample | src/asn1/element.rs:120-171 | An empty element of tag number 2^28 is one octet longer than `size` says. |
| Elements.EncodedReadsBack | src/asn1/element.rs:120-171 | Every tree with tag numbers below 2^28 and lengths below 2^32 reads back wherever it stands: tag, content, and the children in order inside it, with no octet over. |
| Elements.ElementExpects | src/asn1/decoder.rs:184-208 | One encoded element under the cursor's other reads: taken by its own tag, left alone by others. |
| Primitives.IntRoundTrip | src/asn1/primitives.rs:5-37 | Every 64-bit integer reads back from its octets. |
| Primitives.IntShortest | src/asn1/primitives.rs:5-37 | No octets that read as a number are fewer than those written for it. |
| Primitives.IntSize | src/asn1/primitives.rs:13-21 | The shift loop counts the octets of the minimal two's-complement form. |
| Primitives.AppendInt | src/asn1/primitives.rs:5-10 | The shift loop appends that form. |
| Primitives.DecodeInt | src/asn1/primitives.rs:24-36 | The accumulator loop yields the two's-complement value, or the error. |
| Primitives.UintRoundTrip | src/asn1/primitives.rs:40-79 | Every 64-bit unsigned integer reads back. |
| Primitives.UintWidthMono | src/asn1/primitives.rs:50-58 | A larger number takes no fewer octets. |
| Primitives.AppendUint | src/asn1/primitives.rs:40-47 | The loop appends the minimal form with a clear top bit. |
| Primitives.DecodeUint | src/asn1/primitives.rs:64-79 | The accumulator loop yields the number, or the error. |
| Primitives.BitsRead | src/asn1/primitives.rs:173-193 | A packed bit string reads back with its padding count. |
| Oids.AppendOid | src/asn1/oid.rs:42-50 | The arcs' octets are appended in order. |
| Oids.DecodeOid | src/asn1/oid.rs:72-101 | The accumulator loop yields the arcs, or the error. |
| Oids.OidRoundTrip | src/asn1/oid.rs:42-101 | An object identifier reads back exactly when its first two arcs are ones a single 32-bit number can stand for. |
| Oids.JoinedArcsExample | src/asn1/oid.rs:42-101 | 0.40 is written as the number that reads as 1.0. |
| ValueCodec.DecodeDataAt | src/mms/value_codec.rs:90-98 | One value under the cursor is decoded, with the nesting limit. |
| ValueCodec.DecodeDataTlv | src/mms/value_codec.rs:100-160 | The children loop and the scalar alternatives decode what the specification of `Data` says. |
| ValueCodec.DataReads | src/mms/value_codec.rs:29-160 | A well-formed value nested at most 32 deep reads back wherever its encoding stands, without the members that have none. |
| ValueCodec.DataRoundTrip | src/mms/value_codec.rs:29-160 | It round-trips whole exactly when it has no member without an encoding. |
| ValueCodec.DecodeReencode | src/mms/value_codec.rs:29-160 | Whatever octets decode to is encoded to octets that decode to the same value, as long as a 32-bit length can tell its size, which holds for every input of up to 2^31 octets. |
| ValueCodec.AccessResultIsData | src/mms/value_codec.rs:164-172 | An access result is read, on every input, exactly as data would be. |
| TypeSpecs.CountValuesOf | src/mms/typespec.rs:195-223 | The count in 64-bit arithmetic is the saturating count: nothing overflows however arrays nest. |
| TypeSpecs.CountExact | src/mms/typespec.rs:144-223 | Below the ceiling, the count is the number of values `default_value` builds exactly when no array saturates early and none that is built names no element type; where each names one, the count is the ceiling from the ceiling on. |
| TypeSpecs.EarlySaturationExample | src/mms/typespec.rs:195-223 | 52428 structures of 19 booleans are 1048561 values, within the limit, and are costed over it. |
| TypeSpecs.NoElementTypeExample | src/mms/typespec.rs:195-223 | An array of five elements of no type counts as one value and builds six. |
| TypeSpecs.DecodeTypeSpecAt | src/mms/typespec.rs:239-329 | The recursive decode under a cursor yields the specification, or the error. |
| TypeSpecs.DecodedCanonical | src/mms/typespec.rs:239-329 | Whatever is decoded has only the fields of its kind, within the declared limits. |
| TypeSpecs.SpecReads | src/mms/typespec.rs:76-142 | A canonical specification reads back wherever its encoding stands. |
| TypeSpecs.SpecRoundTrip | src/mms/typespec.rs:76-237 | A specification round-trips exactly when it is canonical and within the decoder's limits. |
| TypeSpecs.AcceptedSpecBounded | src/mms/typespec.rs:187-237 | An accepted specification materialises to exactly the number of values it was costed at, 2^20 at most. |
| AltAccess.ParseAlternateAccess | src/mms/altaccess.rs:67-92 | The element loop yields the steps, or the error. |
| AltAccess.AlternateAccessRoundTrip | src/mms/altaccess.rs:67-180 | Any step list reads back with its names taken apart at `$`, so whole exactly when no name holds one. |
| AltAccess.AccessPath | src/mms/altaccess.rs:115-151 | The loop over steps yields the child indices and the type found, or the error. |
| AltAccess.PathSelectsDefault | src/mms/altaccess.rs:115-151 | The default value of a type, followed along a resolved path, is the default value of the type found there, exactly when no array without elements is indexed. |
| AltAccess.EmptyArrayExample | src/mms/altaccess.rs:115-151 | In an array of no booleans, the first element is found in the type and not in the default value. |
| GooseMessage.MarshalMessage | src/goose/message.rs:64-95 | The buffer holds the header and the PDU. |
| GooseMessage.ParseMessage | src/goose/message.rs:99-163 | The walk over the fields, and the loop over the members, yield the message, or the error. |
| GooseMessage.MessageRoundTrip | src/goose/message.rs:64-163 | A message shorter than 65536 octets reads back from its octets, padded or not, without the members that have no encoding. |
| GooseMessage.WidestIsLongest | src/goose/publisher.rs:231-246 | No copy of a message with another sqNum and timeAllowedToLive is longer than the one with both at their widest. |
| GooseMessage.LengthFieldTrue | src/goose/message.rs:87-94 | The 16-bit length field is the true length exactly when that fits. |
| GoosePublisher.Accepted | src/goose/publisher.rs:119-151 | A configuration is accepted exactly when it has a control block reference and no zero interval; an empty identifier becomes the reference, an empty schedule the default one, and the rest stays as given. |
| GoosePublisher.TatlCovers | src/goose/publisher.rs:295-298 | timeAllowedToLive is never 0, and covers the interval that follows exactly when 32 bits of milliseconds can. |
| GoosePublisher.TatlExample | src/goose/publisher.rs:295-298 | An interval of 2^32 milliseconds outlasts the lifetime announced for it. |
| GoosePublisher.StateCell.Announce | src/goose/publisher.rs:202-252 | The locked part of a publish: a message that may outgrow a frame changes nothing, any other advances the state as `Announced` says. |
| GoosePublisher.StateCell.Recheck | src/goose/publisher.rs:330-337 | The locked part of a retransmission: a superseded task changes nothing, the current one sets sqNum. |
| GoosePublisher.SqAtClosed | src/goose/publisher.rs:325-328 | The sqNum of transmission k: 0, then 1 to 2^32 - 1 and round again to 1. |
| GoosePublisher.NextKeeps | src/goose/publisher.rs:196-342 | Every step of every thread keeps the invariant that ties the state, all retransmission tasks, the lock holder, the announcements and the wire together. |
| GoosePublisher.RunKeeps | src/goose/publisher.rs:196-342 | Every interleaving reaches only states with that invariant. |
| GoosePublisher.WireOrder | src/goose/publisher.rs:196-342 | In every interleaving generations never go back on the wire; the frames of one stand together, numbered from 0 without a break; they differ from the announcement in sqNum and timeAllowedToLive alone; stNum is never 0. |
| GoosePublisher.StateNumbers | src/goose/publisher.rs:204-212 | stNum starts at 1 and moves by one, past 0, exactly with a state change; a refresh keeps it and the time. |
| GoosePublisher.FramesFit | src/goose/publisher.rs:231-246 | No frame of any interleaving exceeds 1500 octets, and its length field is its true length. |
| GoosePublisher.StateReportsAdvertised | src/goose/publisher.rs:266-274 | The reported stNum is the newest announcement's, 0 until there is one. |
| GoosePublisher.CloseSilences | src/goose/publisher.rs:277-323 | However long it goes on, a closed publisher sends at most one frame for each call already past its check and each task already awake. |
| GooseSubscriber.SequenceTracker.Observe | src/goose/subscriber.rs:171-210 | The verdict is `Judge` of the block's last message, and only that block's state changes. |
| GooseSubscriber.SequenceTracker.ObserveAll | src/goose/subscriber.rs:160-210 | A tracker fed a stream yields each arrival's verdict. |
| GooseSubscriber.VerdictOnConsecutive | src/goose/subscriber.rs:171-210 | A verdict depends on the previous arrival of the same control block alone, whatever other streams come between. |
| GooseSubscriber.FirstIsRegular | src/goose/subscriber.rs:167-210 | The first message of a control block is never irregular. |
| GooseSubscriber.Supervision.Arrived | src/goose/subscriber.rs:90-98 | A message with a lifetime restarts the block's deadline; one without changes nothing. |
| GooseSubscriber.Supervision.Scan | src/goose/subscriber.rs:112-129 | The scan marks and returns exactly the deadlines that are due and unreported, each once. |
| GooseSubscriber.Supervision.NextWake | src/goose/subscriber.rs:130-139 | The watcher sleeps until the earliest unreported deadline, or without end if there is none. |
| GooseSubscriber.ReportedOncePerSilence | src/goose/subscriber.rs:88-142 | Over any history a check reports a block exactly when its last message with a lifetime is out of date and has not been reported since. |
| GooseSubscriber.ReportsAreSeparated | src/goose/subscriber.rs:88-142 | Between two reports of a block lies a message that restarted it. |
| GooseSubscriber.ZeroLifetimeExample | src/goose/subscriber.rs:90-93 | A block is reported although a message without a lifetime has just arrived. |
| GooseSchedule.RetransFromScl | src/goose/scl.rs:27-46 | The loop doubles from MinTime, stops at MaxTime or after 16 steps, and ends with MaxTime. |
| GooseSchedule.ScheduleIsSound | src/goose/scl.rs:15-46 | Every schedule is non-empty, positive, strictly increasing and at most 17 long; it is never above MaxTime when MaxTime is positive and not below MinTime. |
| GooseLink.FrameIsReceived | src/goose/subscriber.rs:330-362 | Every frame a publisher sends, padded or not, is parsed to the message it carries. |
| GooseLink.EntriesAgree | src/goose/subscriber.rs:349 | The declared entry count differs from the received one exactly when a published value had no encoding. |
| GooseLink.LosslessVerdict | src/goose/subscriber.rs:171-210 | With every send successful and nothing lost, no frame is a regression, and the only gap is the first frame of a later refresh, in every interleaving and across both counter wraps. |
| GooseLink.TimelyVerdict | src/goose/subscriber.rs:190 | A frame that arrives within the interval after the one before it is not stale, if the interval fits 32 bits of milliseconds. |
| GooseLink.SclTimelyVerdict | src/goose/scl.rs:27-46 | With a schedule from MinTime and MaxTime no frame that arrives within its interval is stale. |
| GooseLink.LossyVerdict | src/goose/subscriber.rs:175-196 | Without refreshes, in up to 2^32 - 1 states: a same-state frame after a loss is flagged exactly when the number lost is no multiple of 2^32 - 1, a new state exactly when its announcing frame was lost; loss is never a regression. |
| Calendar.DaysOfCivil | src/time_util.rs:47-71 | Every integer is the day count of the valid date it converts to. |
| Calendar.CivilOfDays | src/time_util.rs:47-71 | Every valid date comes back from its day count. |
| Calendar.DaysOfTomorrow | src/time_util.rs:47-56 | The next date of the calendar, by its month lengths and leap years, has the next day count. |
| Calendar.Epochs | src/time_util.rs:14-56 | 1 January 1970 is day 0 and 1 January 1984 day 5113. |
| Timestamps.FormatRfc3339 | src/time_util.rs:92-106 | The text built is the date, the clock, the shortest exact fraction of three, six or nine digits, and Z. |
| Timestamps.ParseFraction | src/time_util.rs:168-180 | The digit scan and the filling loop read a fraction as nine digits. |
| Timestamps.ParseIso8601 | src/time_util.rs:121-199 | The step-by-step parse yields the time, or nothing. |
| Timestamps.NanosBelowSecond | src/time_util.rs:168-180 | Whatever text is read, the nanoseconds are below one second. |
| Timestamps.ParseOfFormat | src/time_util.rs:92-199 | A formatted time reads back exactly when its year is from -999 to 9999 and its nanoseconds are below one second; other years do not parse. |
| Timestamps.YearTenThousandExample | src/time_util.rs:92-199 | The last second of the year 9999 reads back, the next does not. |
| Isakmp.HeaderRoundTrip | src/gdoi/isakmp.rs:56-90 | A header reads back exactly when the length it states is there and at most 65535. |
| Isakmp.AppendChain | src/gdoi/isakmp.rs:115-124 | The loop writes the chain, each payload naming the next. |
| Isakmp.ReadChain | src/gdoi/isakmp.rs:129-156 | The loop yields the payloads and the octets they take, or the error. |
| Isakmp.ChainRoundTrip | src/gdoi/isakmp.rs:115-156 | Encodable payloads read back, padding aside, exactly when there are at most 64. |
| Isakmp.AppendAttrs | src/gdoi/isakmp.rs:200-213 | The loop writes basic attributes, by the last two octets of their values, and variable ones in order. |
| Isakmp.ReadAttrs | src/gdoi/isakmp.rs:215-243 | The loop yields the attributes, or the error. |
| Isakmp.AttrsRoundTrip | src/gdoi/isakmp.rs:200-243 | Attributes with 15-bit kinds and 16-bit lengths, the basic ones of two octets, read back. |
| Isakmp.IdRoundTrip | src/gdoi/isakmp.rs:267-282 | An identification reads back from its body. |
| IkeCrypto.SuiteRoundTrip | src/gdoi/crypto.rs:67-125 | A transform's attributes name its suite and method; unsupported suites are refused. |
| IkeCrypto.EncryptBuffer | src/gdoi/crypto.rs:360-375 | Padding and the in-place chunk loop yield the CBC ciphertext and its last block. |
| IkeCrypto.DecryptBuffer | src/gdoi/crypto.rs:379-392 | The in-place chunk loop yields the CBC plaintext and the last block, or the error. |
| IkeCrypto.DecryptOfEncrypt | src/gdoi/crypto.rs:360-392 | Decrypting gives the padded plaintext and the sender's next IV. |
| IkeCrypto.DeriveKeys | src/gdoi/crypto.rs:325-348 | The derivation with its expansion loop yields SKEYID_a and the cipher key. |
| IkeCrypto.KeyIsSkeyidE | src/gdoi/crypto.rs:329-344 | With either hash the cipher key is the start of SKEYID_e. |
| IkeCrypto.ConstantEq | src/gdoi/crypto.rs:516-518 | The comparison that does not stop at a difference is equality. |
| Exchange.ReadPhase1Sa | src/gdoi/exchange.rs:210-242 | The proposal walk and the transform loop yield the supported transforms, or the error. |
| Exchange.OffersRead | src/gdoi/exchange.rs:185-242 | Up to 64 valid suites are offered and read back in order. |
| Exchange.ChosenReads | src/gdoi/exchange.rs:198-242 | A single transform echoed under the initiator's DOI reads back as itself. |
| Exchange.Seal | src/gdoi/exchange.rs:270-281 | The message built is the header and the encrypted chain. |
| Exchange.OpenBuffer | src/gdoi/exchange.rs:286-304 | Header, decryption, chain walk and truncation yield the opened message, or the error. |
| Exchange.OpenMessage | src/gdoi/exchange.rs:245-304 | A clear message opens to its payloads. |
| Exchange.OpenSealed | src/gdoi/exchange.rs:270-304 | A sealed message opened with the same key and IV gives its payloads, the chain without padding, and the sender's next IV. |
| Exchange.HashedReads | src/gdoi/exchange.rs:308-313 | The octets after a leading HASH are the chain of the payloads after it. |
| Exchange.HashedInRange | src/gdoi/exchange.rs:308-313 | Taking the octets after the first payload cannot fail, whatever was opened. |
| Exchange.CertsRead | src/gdoi/exchange.rs:333-355 | A certificate chain among other payloads reads back. |
| Exchange.NotificationReads | src/gdoi/exchange.rs:360-399 | A notification reaches the other end, clear before there are keys and with a hash that verifies after. |
| Teks.OidAndSelectorRoundTrip | src/gdoi/tek.rs:102-134 | Identifier and selector read back, whatever follows, exactly when the identifier is valid. |
| Teks.GroupIdRoundTrip | src/gdoi/tek.rs:49-85 | A group's identity reads back exactly when the group is named one way only. |
| Teks.SelectorLostExample | src/gdoi/tek.rs:49-85 | A group numbered 1 with a selector is read back without the selector. |
| Teks.RoundingUp | src/gdoi/tek.rs:379-385 | A time left never becomes none, and is never shortened unless it exceeds 32 bits of seconds. |
| Teks.SatReads | src/gdoi/tek.rs:358-422 | A TEK's policy reads back with its times rounded up. |
| Teks.AppendKd | src/gdoi/tek.rs:468-487 | The loop writes one key packet for each TEK. |
| Teks.ReadKd | src/gdoi/tek.rs:497-534 | The packet loop yields the keys by SPI, or the error. |
| Teks.JoinKeys | src/gdoi/member.rs:323-334 | The loop joins policies with keys and checks each. |
| Teks.JoinRestores | src/gdoi/tek.rs:358-534 | At most 64 allowed TEKs with distinct SPIs, sent as policy and keys apart and joined by SPI, are the same TEKs in order, with their own keys and times rounded up. |
| Groups.Group.Add | src/gdoi/server.rs:52-65 | A TEK with a bad policy or an SPI in use is refused and nothing changes. |
| Groups.Group.Remove | src/gdoi/server.rs:69-71 | Exactly the TEK with that SPI goes. |
| Groups.Group.TakeSnapshot | src/gdoi/server.rs:76-89 | Expired TEKs go, and the result is the snapshot. |
| Groups.SnapshotMeans | src/gdoi/server.rs:52-89 | A snapshot is the TEKs not expired, each once, with what they have left, soonest activation first; one that expires has time left; and a registration can carry it. |
| KeyServer.ChooseOffer | src/gdoi/server.rs:419-446 | The loop finds the member's first offer the server accepts, and the pre-shared key for it. |
| KeyServer.MainAuth | src/gdoi/server.rs:481-544 | A message 5 that fails changes nothing; one that holds leaves keys with a final block and a peer; neither lookup it takes for granted can fail. |
| KeyServer.Server.Expire | src/gdoi/server.rs:328-337 | Only recently active peers stay, fewer than 4096; a recent one goes only when there are too many and none staying is older. |
| KeyServer.Server.Handle | src/gdoi/server.rs:237-323 | One datagram changes the state and is answered as `HandleIn` says, and the server's invariant holds after. |
| KeyServer.StepKeeps | src/gdoi/server.rs:396-633 | Every responder step keeps its identity, its stage's guarantees and at most 16 pulls. |
| KeyServerRuns.RunBounds | src/gdoi/server.rs:237-633 | After any datagrams from any addresses there are at most 4096 peers with at most 16 pulls each, and every stage has the keys, the key exchange value, the peer and the final block it relies on. |
| KeyServerRuns.RegistrationsEarned | src/gdoi/server.rs:570-633 | After any datagrams, each registration told was preceded by the peer's authentication, its HASH(1), its authorisation for that group and its HASH(3), in that order, and is told once. |
| GroupMember.DoRoundTrip | src/gdoi/member.rs:138-169 | The nested loops return the first reply taken or refused, sending the request once for each window up to then. |
| GroupMember.Initiator.Register | src/gdoi/member.rs:88-335 | Main mode and the pull, with the fields set as replies come, yield what `MemberRun` says of the datagrams heard. |
| Registration.ReplayReplies | src/gdoi/server.rs:282-287 | The last answered request is given the identical reply again, and nothing changes but the time. |
| Registration.AnswerIsRemembered | src/gdoi/server.rs:297-303 | Whatever the server answers, notifications apart, it remembers with its request. |
| Registration.PullReplayReplies | src/gdoi/server.rs:549-568 | The last request of a pull gets that pull's reply again, whatever else was answered since. |
| Registration.LossyCarry | src/gdoi/server.rs:282-303 | However many copies of a request or of its replies are lost, the reply that arrives is the one the first copy was given, and the server is as after one copy but for the time. |
| Registration.OtherCookie | src/gdoi/server.rs:237-323 | A datagram under another cookie leaves a peer as it is, unless it begins an exchange and the peer has to make room, and brings no peer back. |
| Registration.AmidOthers | src/gdoi/server.rs:237-323 | After any datagrams under other cookies, a peer that is still there gets the reply to its next request that it would have got before them, and its record ends up the same, as long as no group changed. |
| Registration.LossyRegistration | src/gdoi/member.rs:138-335 | A registration in which each request gets through in the end has the outcome of the one without loss, if that one succeeds, and leaves the server in the same state but for the time. |
| HonestRun.AgreedTransform | src/gdoi/server.rs:419-446 | The transform agreed on is one of the member's offers, by the member's method, and reads back as itself. |
| HonestRun.MemberTakesKe | src/gdoi/member.rs:208-235 | From message 4 the member derives the keys and the IV the server derived. |
| HonestRun.ServerConvinced | src/gdoi/server.rs:481-526 | The member's proof, by pre-shared key or by certificate, convinces the server. |
| HonestRun.MemberConvinced | src/gdoi/member.rs:240-270 | The server's proof convinces the member. |
| HonestRun.ServerTakesAsk | src/gdoi/server.rs:570-615 | HASH(1) verifies, the group is found and authorised, and its policy is sealed under the next IV. |
| HonestRun.MemberTakesPolicy | src/gdoi/member.rs:295-314 | HASH(2) verifies, the policy is the snapshot's, and HASH(3) goes out under the next IV. |
| HonestRun.ServerTakesConfirm | src/gdoi/server.rs:617-633 | HASH(3) verifies, the keys are sealed, and the registration is told. |
| HonestRun.MemberTakesKeys | src/gdoi/member.rs:316-335 | HASH(4) verifies and the member has the snapshot's TEKs, rounded. |
| HonestRegistration.HonestRunCompletes | src/gdoi/member.rs:172-335 | With compatible configurations and mutual authentication and authorisation, both ends agree on the member's first acceptable offer, on SKEYID_a, the cipher key and the final block, all hashes verify, the member has exactly the TEKs of the server's snapshot rounded to seconds, and the server records that one registration. |
| HonestRegistration.HonestLossyRunCompletes | src/gdoi/member.rs:138-335 | The same when any messages are lost and each request gets through in the end. |
| HonestExample.HonestExists | src/gdoi/member.rs:172-335 | The conditions of an honest registration can be met together. |
| Keeper.SessionKey | src/gdoi/tek.rs:329-354 | The session key of an allowed TEK is one the key store takes, under the TEK's SPI. |
| Keeper.KeyStore.Add | src/rsession/keys.rs:212-216 | A key is taken exactly when it is valid. |
| Keeper.KeyStore.Remove | src/rsession/keys.rs:220-226 | Removing the active key leaves none active. |
| Keeper.KeyStore.SetActive | src/rsession/keys.rs:229-236 | Only a key that is held becomes active. |
| Keeper.Keeper.ChooseActive | src/gdoi/keeper.rs:246-260 | The active key is the added one with the greatest activation instant, the longest-lived on a tie, and the flags agree with the store. |
| Keeper.Keeper.Activate | src/gdoi/keeper.rs:227-242 | An entry not yet added is put in the store; nothing else changes but the choice of the active key; the table's invariant holds. |
| Keeper.Keeper.RemoveLocked | src/gdoi/keeper.rs:262-278 | The entry and its key go together, another key becomes active if need be, and the invariant holds. |
| Keeper.Keeper.Install | src/gdoi/keeper.rs:145-193 | After a registration the entries are exactly the listed ones that were there or are usable; those there keep their activation; each usable one has the deadline of its last usable TEK, the others the one they had; the invariant holds. |
| Keeper.Keeper.Fire | src/gdoi/keeper.rs:166-186 | An expiry task removes its entry, an activation task adds its entry's key, early, late or left over from an earlier entry; neither brings back an entry that is gone, and the invariant holds. |
| Keeper.Keeper.RemoveAll | src/gdoi/keeper.rs:280-289 | No entry, no key and no active key remain. |
| Keeper.Keeper.Follow | src/gdoi/keeper.rs:111-289 | Any sequence of registrations, timers in any order, aborted tasks and shutdowns keeps the invariant: the store holds exactly the added SPIs, exactly one is active if there is any, none activated after it, every deadline and every activation still due has a task pending. After a shutdown with no later registration, whatever tasks still wake, no entry, no key and no active key remain. |

## Left out

- GoosePublisher: the u64 generation is an unbounded number, so a wrap of it after 2^64 publishes is not modelled.
- GoosePublisher: the message time is the eight octets it travels in, with its quality; the conversion from the system clock is not modelled.
- GooseSubscriber: the reader thread, the filter and the callbacks are not modelled; the tracker and the supervision are given each message and the time.
- Timestamps.ParseIso8601: white space is trimmed by its ASCII characters only, not by all Unicode ones.
- Calendar: day counts are all integers, so overflow of `i64` at the ends of its range is not modelled.
- ValueCodec: floating-point values are their bit patterns, and text is its octets, taken to be valid UTF-8.
- IkeCrypto: AES, HMAC, SHA-2, Diffie-Hellman groups, signatures and certificate checks are symbolic; key sizes and certificate parsing are not modelled.
- KeyServer: responders are values in the server's map, as the source's map owns them; their steps are functions on those values.
- KeyServer: callbacks are recorded as events of a log, and the authorisation, the pre-shared keys and the credentials are functions of the configuration.
- GroupMember: the cancellation of a registration and errors of the socket are not modelled.
- Registration.LossyRegistration: states loss of requests and of replies in a registration that succeeds without loss; duplicated and delayed replies are not covered, since both pull replies are accepted by the same rule.
- HonestRegistration.HonestRunCompletes: the server serves only this member during the run; other traffic is stated one request at a time (`Registration.AmidOthers`).
- Keeper: the registration loop with its waiting times, the events it reports, and dropping a member without shutdown are not modelled; the store is changed by one keeper only.
- Sockets, Ethernet frames and VLAN tags, TLS, the MMS connection and client services, SCL loading and the R-GOOSE session layer are not modelled: input and output, or request and response wrappers with easier properties.
- Enumerations, display text, notification names and the remaining element builders are not modelled: finite tables.
