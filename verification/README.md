# Marstek BLE: a verified model

Marstek batteries speak one frame format over Bluetooth: start byte, length, identifier, command,
payload, XOR checksum. This project models, in Dafny, the parts of the integration that decode that
format, keep the decoded state, turn it into entities, and poll the device, and proves what they
promise. `dafny verify dfyconfig.toml` checks everything.

How the modules follow the program:

| modules | what they model |
|---|---|
| `Wrappers`, `Bytes`, `Frames` | optional results, bytes, exclusive or, the frame format and its builders and whole-frame checks |
| `Decoder`, `Stream`, `Ledger` | the resynchronising decoder, streams cut into chunks, the account of every byte |
| `Session`, `Delivery` | the session that matches responses to waiting requests |
| `Schema`, `SchemaProofs` | the declarative packet parser, for every schema tree |
| `Text`, `VenusModel`, `VenusLegacy`, `VenusProduct`, `VenusDropIn` | the Venus schema, the hand-written parser, the product runtime, and that the second replaces the first |
| `TextLaws`, `VenusReadings`, `VenusTexts` | what the text operations and the number formats mean, apart from how they are computed |
| `Paths`, `PathKeys`, `Freshness` | update metadata over whole runs, for any product |
| `VenusNames`, `VenusFreshness`, `Jupiter`, `JupiterTexts`, `JupiterData` | the two products as instances, with their parsers, names and aliases |
| `EntityPlans`, `EntityLaws`, `EntityPlanProofs`, `EntityDiff`, `EntityWalk` | the entity planner and the search for grown sections |
| `EntityManager`, `EntityPacks`, `Sequences` | the manager that adds entities as records appear |
| `Polling`, `Backoff` | one coordinator's schedule; the backoff that all coordinators share |
| `Device`, `Answering` | the command protocol: one request in flight, retries, accounting; parsing before waking |

The code that works in place is modelled in place: `FrameBuffer`, `BLEDeviceSession`,
`ProductObject`, `MarstekData`, `TrackedProduct`, `Planner`, `ProductEntityManager`, `Coordinator`,
`GlobalBackoff` and `MarstekBLEDevice` are classes whose methods are proved against functions, and
the properties are lemmas about those functions.

What the proofs show about the code, beyond what one function says:

- Independence of chunk boundaries does not hold for every stream. `NestedFrameIsAbandoned` gives
  the bytes, and `CutInvariantIffUnnested` the exact condition: no frame that the greedy scan takes
  may properly contain another that ends before it. Disjoint occurrences are enough.
- `BLEDeviceSession.send_command` queues its future before it builds the frame. A payload of more
  than 250 bytes raises outside the `try`, so that its request stays queued and takes the next
  response to that command: `OversizedRequestTakesResponse` is such a run. A waiting request gets
  the next response exactly if none is queued ahead of it (`NextResponseIff`). No queue ever holds a
  request that nobody waits for exactly if no payload is too long (`EveryQueuedRequestIsWaitedIff`).
- `close` empties the queues once. A request sent on a closed session stays pending after a second
  `close`: `SecondCloseLeavesRequest` is the run, `CloseLeavesNone` the exact condition.
- `MarstekBLEDevice.send_command` can return True for any notification with its command byte, parsed
  or not, and for no other (`WaitEndsByAnswer`, `TrueMeansAnswered`). It may still time out in the turn in which the
  notification arrives.
- A key is handed to Home Assistant twice only where one plan holds a key twice that was new to it
  (`HandedOnceIff`); `TwinsAreHandedTwice` is such a plan.
- After an option change the medium polls need not be one in c: a change that arrives while a medium
  poll runs lets that poll count for the new cycle (`ChangeDuringMediumPoll`), and one before the
  initial poll leaves that poll as an extra one. `Cadence` is exact in all cases.

Values: bytes are integers below 256; fixed-point readings are exact real numbers; text is a
sequence of ASCII characters; times are numbers on an abstract clock.

## Model

| member | source | states |
|---|---|---|
| Frames.CreateCommandFrame | standalone_test/marstek_basic_info.py:211-220 | gives the frame of the command and payload, or fails exactly when the payload is longer than 250 bytes |
| Frames.BuildCommand | custom_components/marstek_ble/marstek_device.py:176-191 | the second builder (its text recurs in the product runtime) gives the same frame and fails on the same inputs |
| Frames.ParseFrame | standalone_test/marstek_basic_info.py:223-240 | accepts exactly the frames and recovers command and payload |
| Frames.CheckEnvelope | custom_components/marstek_ble/marstek_device.py:199-225 | the whole-frame check of the other two implementations accepts exactly the same byte strings, with the same command and payload |
| Frames.BuildDecodes | standalone_test/marstek_basic_info.py:211-240 | every built frame is a frame and decodes to its command and payload |
| Frames.FrameIsBuilt | standalone_test/marstek_basic_info.py:211-240 | every frame is the one built from its own command and payload |
| Frames.XorUpdate | standalone_test/marstek_basic_info.py:216-218 | replacing one byte changes the checksum by the exclusive or of the old and the new byte |
| Bytes.XorByteBit | standalone_test/marstek_basic_info.py:217-218 | a bit of an exclusive or is set if and only if exactly one of the two bits is |
| Bytes.BitsReadBack | custom_components/marstek_ble/schema.py:525-531 | each bit put into a number is read back by the bit test |
| Frames.ChecksumIsParity | standalone_test/marstek_basic_info.py:216-219 | bit k of the checksum is the parity of the number of bytes that have bit k |
| Frames.FrameIffEvenParity | standalone_test/marstek_basic_info.py:223-240 | a byte string is a frame if and only if it has the two marker bytes, its own length, and an even number of bytes with each of the eight bits |
| Frames.SingleByteCorruptionIsRejected | standalone_test/marstek_basic_info.py:223-240 | no substitution of one byte of a frame, at any position, gives a frame |
| Decoder.FrameBuffer.IsCompleteValidFrame | standalone_test/marstek_basic_info.py:58-76 | true exactly if a complete valid frame starts at the offset of the buffer |
| Decoder.FrameBuffer.FindCompleteValidFrame | standalone_test/marstek_basic_info.py:78-85 | the least offset, from the start on, of a complete valid frame, if there is one |
| Decoder.FrameBuffer.Feed | standalone_test/marstek_basic_info.py:87-125 | terminates, emits the greedy leftmost scan of buffer plus chunk and keeps that scan's residue |
| Decoder.Residue | standalone_test/marstek_basic_info.py:87-125 | at most 254 bytes stay buffered, whatever came before |
| Decoder.ResidueHasNone | standalone_test/marstek_basic_info.py:87-125 | no complete valid frame starts at any offset of what stays buffered |
| Decoder.DropSkips | standalone_test/marstek_basic_info.py:94-124 | bytes dropped before the first frame do not change what the scan emits or keeps |
| Stream.Replay | standalone_test/marstek_basic_info.py:87-125 | successive calls of the decoder emit what the specification of the run says |
| Stream.CutInvariantIffUnnested | standalone_test/marstek_basic_info.py:87-125 | every way of cutting a stream gives the same frames if and only if no frame of the scan is overtaken by one that starts later and ends before it |
| Stream.DisjointStreamDelivered | standalone_test/marstek_basic_info.py:87-125 | a stream whose frame occurrences are disjoint is delivered occurrence by occurrence, each once and in order, however it is cut, empty chunks included |
| Stream.ScanIsOccurrences | standalone_test/marstek_basic_info.py:87-125 | on such a stream the greedy scan is the list of all occurrences |
| Stream.WireRoundTrip | standalone_test/marstek_basic_info.py:87-125 | frames built from messages and sent back to back come out as those messages' frames |
| Stream.NestedFrameIsAbandoned | standalone_test/marstek_basic_info.py:107-112 | concrete bytes: a frame that arrives in two pieces is abandoned for a valid frame nested in it, and delivered if it arrives whole |
| Ledger.FeedAccounts | standalone_test/marstek_basic_info.py:94-124 | one call splits buffer plus chunk into emitted frames, skipped and dead bytes and the residue, nothing twice and nothing missing |
| Ledger.RunAccounts | standalone_test/marstek_basic_info.py:94-124 | the same over any run; a dropped offset either starts no frame under any continuation or was skipped for a frame emitted by the same call |
| Ledger.PiecesMakeStream | standalone_test/marstek_basic_info.py:94-124 | the pieces of an account and the rest, put together, are the stream |
| Ledger.PieceTells | standalone_test/marstek_basic_info.py:94-124 | every emitted piece is a frame, every skipped one comes before an emitted one, and no frame begins within a dead one, however the stream goes on |
| Session.BLEDeviceSession.SendCommand | standalone_test/marstek_basic_info.py:604-608 | queues the request behind the others of its command, before the frame is built; an oversized payload leaves it queued with nobody waiting |
| Session.BLEDeviceSession.Fail | standalone_test/marstek_basic_info.py:617-620 | a failed write or a timeout takes the request out of its queue if it is still there, and leaves the others |
| Session.BLEDeviceSession.HandleNotification | standalone_test/marstek_basic_info.py:572-591 | delivers every frame that the decoder emits, in order, to the head of the queue of its command |
| Session.BLEDeviceSession.CloseSession | standalone_test/marstek_basic_info.py:540-550 | the first close fails every waiting request; later ones do nothing |
| Delivery.StepsSound | standalone_test/marstek_basic_info.py:540-620 | in every reachable state each queue holds, oldest first, exactly the unanswered requests of its command |
| Delivery.Conservation | standalone_test/marstek_basic_info.py:540-620 | in every reachable state: sent = answered + failed + pending |
| Delivery.AnswersOldest | standalone_test/marstek_basic_info.py:580-584 | a response goes to the oldest request that still waits for its command, and to no other |
| Delivery.OutcomesAreFinal | standalone_test/marstek_basic_info.py:580-584 | a request gets at most one outcome and keeps it |
| Delivery.SentExactly | standalone_test/marstek_basic_info.py:604-608 | sending puts the request last in the queue of its command, changes no other queue and no outcome, and raises if and only if the frame length does not fit in one byte |
| Delivery.WithdrawnExactly | standalone_test/marstek_basic_info.py:617-620 | a failed write or a timeout gives a waiting request that outcome and takes it out of its queue, where the others keep their places; nothing else changes, and any other request stays as it is |
| Delivery.ResponseAfterTimeout | standalone_test/marstek_basic_info.py:572-620 | a run for every command: after a timeout the next response goes to the next request |
| Delivery.ClosedExactly | standalone_test/marstek_basic_info.py:540-550 | the first close gives every waiting request the end of the session as its outcome and changes no other |
| Delivery.CloseLeavesNone | standalone_test/marstek_basic_info.py:540-550 | close leaves nothing pending if and only if it is the first close or nothing was pending |
| Delivery.SecondCloseLeavesRequest | standalone_test/marstek_basic_info.py:540-550 | a reachable state: a request sent on a closed session is still pending after another close |
| Delivery.EveryQueuedRequestIsWaitedIff | standalone_test/marstek_basic_info.py:604-620 | at no point of a run does a queue hold a request that nobody waits for, if and only if every payload sent was at most 250 bytes |
| Delivery.NextResponseIff | standalone_test/marstek_basic_info.py:580-584 | a waiting request gets the next response to its command if and only if no request for that command is queued ahead of it |
| Delivery.OversizedRequestTakesResponse | standalone_test/marstek_basic_info.py:604-608 | a run for every command: an oversized request takes the response to the one sent after it, which stays pending |
| Delivery.EmittedFramesParse | standalone_test/marstek_basic_info.py:573-578 | the frame parser accepts every frame the decoder emits |
| Delivery.FragmentationIsInvisible | standalone_test/marstek_basic_info.py:572-591 | with a fixed set of waiters the outcomes do not depend on how an unnested stream was cut |
| Schema.ValidatePayload | custom_components/marstek_ble/schema.py:57-75 | succeeds exactly on the lengths the packet allows |
| Schema.ProductObject.ParseInto | custom_components/marstek_ble/schema.py:501-516 | decodes the whole packet first; on failure nothing changes, otherwise exactly the decoded updates are applied |
| SchemaProofs.FieldsInBounds | custom_components/marstek_ble/schema.py:131-164 | for every tree, nesting and payload length the walk never meets the length error of a read |
| SchemaProofs.FieldsExact | custom_components/marstek_ble/schema.py:412-495 | the walk yields a value for a path exactly if the leaf located there declares the packet and passes its gates, read at section offsets + index * stride + field offset |
| SchemaProofs.FieldsDistinct | custom_components/marstek_ble/schema.py:412-495 | no path is yielded twice |
| SchemaProofs.SuppliedExactly | custom_components/marstek_ble/schema.py:131-164 | a leaf supplies something if and only if its bytes lie in the payload and the length is within its limits, both inclusive, and its converter gets exactly those bytes |
| SchemaProofs.RefusedIff | custom_components/marstek_ble/schema.py:412-516 | with a valid length a packet is refused if and only if some gated leaf has a converter that fails |
| SchemaProofs.SetThenRead | custom_components/marstek_ble/schema.py:234-237 | assigning one path changes the value there, no other value, and no source |
| SchemaProofs.AfterParse | custom_components/marstek_ble/schema.py:501-516 | after an accepted packet exactly the gated leaves have changed, to what their converters give; shape and sources are as before |
| VenusModel.ConvertInSlice | custom_components/marstek_ble/schema.py:147-164 | converting the bytes cut out for a field is converting them in place |
| VenusModel.BinaryReads | custom_components/marstek_ble/products/venus.py:87-537 | which attributes a binary packet supplies, and with which values, by its declared offsets, formats and length gates |
| VenusReadings.ReadsBack | custom_components/marstek_ble/schema.py:162-164 | a number written low byte first in any scalar format, negative ones as two's complement, is read back |
| VenusReadings.ConvertBecomes | custom_components/marstek_ble/schema.py:519-570 | a quotient times the divisor is the number, a bit is that of the number, and the other converters likewise |
| VenusReadings.MessageReads | custom_components/marstek_ble/products/venus.py:87-537 | a number written at a declared field is what the message supplies there, converted |
| VenusReadings.CellsRead | custom_components/marstek_ble/products/venus.py:452-453 | sixteen numbers written one after another are the sixteen cells times 1000 |
| VenusReadings.ChargeOf85 | custom_components/marstek_ble/marstek_device.py:509-510 | a 0x14 frame with bytes 85 and 0 at offset 8 reads a charge of 85 |
| VenusReadings.GridPowerOfMinus100 | custom_components/marstek_ble/marstek_device.py:318-319 | a long 0x03 frame that begins with 0x9C, 0xFF reads a grid power of -100 |
| VenusTexts.DeviceReads | custom_components/marstek_ble/marstek_device.py:386-428 | a list of pairs with trimmed keys and values gives each attribute the value of the last pair with a key of its own, and no other attribute a value |
| VenusTexts.NetworkReads | custom_components/marstek_ble/marstek_device.py:637-672 | the whole text between the white space becomes the network information, and its pairs are read as those of the device information are |
| VenusTexts.WifiReads | custom_components/marstek_ble/marstek_device.py:430-442 | the network name is the text between the white space |
| VenusTexts.MeterReads | custom_components/marstek_ble/marstek_device.py:602-624 | the meter address is the text between the zero bytes |
| VenusTexts.NoMeterReads | custom_components/marstek_ble/marstek_device.py:611-613 | a payload of 0xFF bytes alone stands for no address |
| VenusTexts.LocalApiReads | custom_components/marstek_ble/marstek_device.py:681-692 | the first byte tells enabled from disabled, and the two next hold the port, low byte first |
| TextLaws.AsciiIgnoreJoin | custom_components/marstek_ble/products/venus_runtime.py:28-28 | decoding goes byte by byte |
| TextLaws.StripOf | custom_components/marstek_ble/products/venus_runtime.py:31-35 | stripping takes exactly the white space at both ends |
| TextLaws.StripNulOf | custom_components/marstek_ble/products/venus_runtime.py:52-52 | and the zero characters for the meter address |
| TextLaws.SplitOnceAt | custom_components/marstek_ble/products/venus_runtime.py:31-31 | a pair is split at its first separator |
| TextLaws.SplitAt | custom_components/marstek_ble/products/venus_runtime.py:28-28 | a list is split at every separator |
| TextLaws.PairsOf | custom_components/marstek_ble/marstek_device.py:395-415 | each further pair with a known key overwrites, any other leaves the values alone |
| TextLaws.TableOf | custom_components/marstek_ble/products/jupiter_runtime.py:128-133 | the same for the Jupiter dictionary |
| TextLaws.KeySplits | custom_components/marstek_ble/product_runtime.py:50-52 | splitting a dotted key at its dots gives the parts of the path |
| VenusLegacy.Blocks | custom_components/marstek_ble/products/venus.py:87-537 | the hand-written parser's assignments cover every attribute that a fixed-size packet declares |
| VenusLegacy.RuntimeBlocks | custom_components/marstek_ble/marstek_device.py:262-383 | in each length band of 0x03 they cover exactly the declared attributes whose gate is open |
| VenusLegacy.Complete | custom_components/marstek_ble/marstek_device.py:262-637 | a parse that has assigned every supplied attribute has changed nothing else |
| VenusLegacy.MarstekData.ParseRuntimeInfo | custom_components/marstek_ble/marstek_device.py:262-383 | refuses below 37 bytes, otherwise assigns what the declared packet supplies, in the bands from 37, 60 and 100 bytes |
| VenusLegacy.ReadCells | custom_components/marstek_ble/marstek_device.py:532-539 | the loop over the sixteen cells, each at its own offset: a cell whose two bytes are there gets their value over 1000, another keeps its own |
| VenusLegacy.CellsAgree | custom_components/marstek_ble/products/venus.py:452-453 | on a payload of allowed length that is the declared field of sixteen numbers |
| VenusLegacy.MarstekData.ParseBmsData | custom_components/marstek_ble/marstek_device.py:496-581 | the same as 0x03 for 0x14, the cells included |
| VenusLegacy.MarstekData.ParseSystemData | custom_components/marstek_ble/marstek_device.py:444-470 | the same for 0x0D |
| VenusLegacy.MarstekData.ParseTimerInfo | custom_components/marstek_ble/marstek_device.py:473-493 | the same for 0x13 |
| VenusLegacy.MarstekData.ParseConfigData | custom_components/marstek_ble/marstek_device.py:584-600 | the same for 0x1A |
| VenusLegacy.MarstekData.ParseCtPollingRate | custom_components/marstek_ble/marstek_device.py:626-637 | the same for 0x22 |
| VenusLegacy.MarstekData.ParseDeviceInfo | custom_components/marstek_ble/marstek_device.py:386-427 | the text packet 0x04: the last value for each known key wins, three keys share the firmware version |
| VenusLegacy.MarstekData.ParseWifiSsid | custom_components/marstek_ble/marstek_device.py:430-441 | 0x08: always accepted |
| VenusLegacy.MarstekData.ParseMeterIp | custom_components/marstek_ble/marstek_device.py:603-623 | 0x21: all bytes 0xFF mean that no address is set |
| VenusLegacy.MarstekData.ParseNetworkInfo | custom_components/marstek_ble/marstek_device.py:640-679 | 0x24: the whole text and its known keys |
| VenusLegacy.MarstekData.ParseLocalApiStatus | custom_components/marstek_ble/marstek_device.py:682-697 | 0x28: refuses below 3 bytes |
| VenusLegacy.MarstekData.ParseCommand | custom_components/marstek_ble/marstek_device.py:228-255 | dispatches on the command byte: accepts exactly the supported commands at their allowed lengths and assigns what the message supplies |
| VenusLegacy.MarstekData.ParseNotification | custom_components/marstek_ble/marstek_device.py:194-259 | accepts a byte string exactly if it is a frame with a supported command and an allowed length, and assigns what that message supplies |
| VenusProduct.TreeLocates | custom_components/marstek_ble/products/venus.py:604-733 | a path from the root leads to a leaf exactly if it is the flat path of an attribute, and then to that attribute's own source |
| VenusProduct.Walked | custom_components/marstek_ble/product_runtime.py:199-205 | the declarative walk never fails on a packet of allowed length and changes the flat values by what the packet supplies |
| VenusProduct.WalkReports | custom_components/marstek_ble/product_runtime.py:205 | the walk reports the paths of exactly the attributes it changed, each once |
| VenusProduct.ParsePairs | custom_components/marstek_ble/products/venus_runtime.py:28-40 | the loop over the pairs of a text packet: its assignments, and each changed path reported once |
| VenusProduct.ParsePayload | custom_components/marstek_ble/product_runtime.py:175-205 | refuses exactly the messages the declared model refuses and otherwise applies what it supplies, through the walk or a custom parser |
| VenusProduct.ParseNotification | custom_components/marstek_ble/product_runtime.py:228-287 | the same for whole byte strings, with the reported paths |
| VenusDropIn.FeedOne | custom_components/marstek_ble/marstek_device.py:194-259 | one byte string given to both parsers: the same boolean, and equal flat values afterwards if equal before |
| VenusDropIn.HeldFromLast | custom_components/marstek_ble/product_runtime.py:194-205 | after any frames an attribute holds what the last frame that supplies it supplies |
| VenusDropIn.HeldFromStart | custom_components/marstek_ble/product_runtime.py:194-205 | an attribute that no frame supplies keeps the value it had |
| VenusDropIn.FeedBoth | custom_components/marstek_ble/product_runtime.py:175-287 | every sequence of arbitrary byte strings: the same booleans, and the same value of every flat attribute after each one |
| VenusDropIn.DefaultsAreUnset | custom_components/marstek_ble/marstek_device.py:32-124 | every attribute begins unset, each of the sixteen cells too |
| PathKeys.PathKeyInjective | custom_components/marstek_ble/product_runtime.py:50-52 | two paths of attribute names and indices never share a dotted key |
| Freshness.TrackedProduct.MarkFieldUpdate | custom_components/marstek_ble/product_runtime.py:54-77 | writes the entry under the dotted key and the aliases of the path, and nowhere else |
| Freshness.TrackedProduct.ParsePayload | custom_components/marstek_ble/product_runtime.py:175-205 | applies the updates of an accepted payload in order and returns their paths; a refused one changes nothing |
| Freshness.TrackedProduct.ParseNotification | custom_components/marstek_ble/product_runtime.py:228-287 | one step of the run: values and entries change together, or neither |
| Freshness.RunIsFresh | custom_components/marstek_ble/product_runtime.py:54-77 | after any run every field holds what the last accepted frame supplying it decodes to, and every key names the last frame that touched one of its fields |
| Freshness.ValueAndMetadataAgree | custom_components/marstek_ble/product_runtime.py:175-279 | under the dotted key of a field the entry names command, time and payload of the very frame its value came from; a field never supplied has its first value and no entry |
| Freshness.DottedKeyHasOneOwner | custom_components/marstek_ble/product_runtime.py:43-77 | no alias and no other field ever writes under the dotted key of a field |
| Freshness.DottedKeysAreFields | custom_components/marstek_ble/product_runtime.py:54-77 | every dotted key that has an entry is that of a field |
| Freshness.SuppliesByShape | custom_components/marstek_ble/product_runtime.py:199-205 | what a frame supplies does not depend on the current values |
| VenusNames.FlatPathsDiffer | custom_components/marstek_ble/products/venus.py:604-704 | every flat path of Venus consists of identifiers, and no two are spelt alike |
| VenusFreshness.VenusAliasesArePlain | custom_components/marstek_ble/products/venus.py:735-742 | no alias of a Venus field has a dot |
| VenusFreshness.OnceDistinct | custom_components/marstek_ble/products/venus_runtime.py:36-38 | no path is reported twice, and each is reported where it is first assigned |
| VenusFreshness.VenusKeys | custom_components/marstek_ble/products/venus.py:735-742 | the keys of an attribute are its dotted path, its own name, and one per cell for the cells |
| VenusFreshness.VenusIsSound | custom_components/marstek_ble/products/venus_runtime.py:96-121 | Venus meets what the theorems about runs ask of a product, on its own data tree, with its own parsers, names and aliases |
| VenusFreshness.VenusSupplies | custom_components/marstek_ble/product_runtime.py:175-205 | what the Venus runtime supplies for an attribute is what the message supplies for it |
| VenusFreshness.VenusIsFresh | custom_components/marstek_ble/product_runtime.py:175-287 | after any frames at any times every Venus attribute holds what the last frame supplying it decodes to, and its entry names that frame; one never supplied is at its default without an entry |
| Jupiter.JupiterAliasesArePlain | custom_components/marstek_ble/products/jupiter_runtime.py:105-112 | no alias of a Jupiter field has a dot, whichever of the 27 flat names it has |
| Jupiter.JupiterAliasesExact | custom_components/marstek_ble/products/jupiter_runtime.py:105-112 | the aliases of a field are its own name, its flat names, and the names of what is derived from it |
| JupiterData.TreeHasShape | custom_components/marstek_ble/products/jupiter.py:62-265 | every Jupiter field has an identifier for its name, distinct within its record, and the fields that the two parsers assign exist |
| JupiterData.JupiterIsSound | custom_components/marstek_ble/products/jupiter_runtime.py:179-195 | Jupiter meets what the theorems about runs ask of a product, on its own data tree, with its own parsers, names and aliases, whatever its packet sources |
| JupiterData.JupiterIsFresh | custom_components/marstek_ble/product_runtime.py:175-287 | the run theorem for every Jupiter field, of repeated records too |
| Jupiter.JupiterDispatch | custom_components/marstek_ble/product_runtime.py:175-205 | device information and the network name go to their parsers at any length, each of the seven fixed packets through the walk at its own length alone, and no other command is taken |
| Jupiter.ParseDeviceInformation | custom_components/marstek_ble/products/jupiter_runtime.py:118-163 | collects the pairs and assigns the identity and version attributes as the specification says |
| Jupiter.DeviceInformationExact | custom_components/marstek_ble/products/jupiter_runtime.py:118-163 | each attribute gets the last value given for its own key, a version only if it is a number; the paths returned are those of the fields set, which are among these seven; text that is not ASCII is accepted and changes nothing |
| JupiterTexts.IdentityReads | custom_components/marstek_ble/products/jupiter_runtime.py:118-148 | the last text written under a key of the identity becomes the attribute of that key: type, id, mac |
| JupiterTexts.VersionsRead | custom_components/marstek_ble/products/jupiter_runtime.py:118-163 | the last number written under the key of a version becomes that version |
| Jupiter.WifiSsidExact | custom_components/marstek_ble/products/jupiter_runtime.py:166-176 | the network name without trailing zero bytes; a payload that is not UTF-8 changes nothing |
| EntityPlans.Clamp | custom_components/marstek_ble/entity.py:507-510 | a missing or negative count is 0, one in range is itself, one above the maximum is the maximum |
| EntityLaws.ActiveCount | custom_components/marstek_ble/entity.py:501-510 | a section without an active count is full; one with it has the clamped number in that field |
| EntityLaws.ConfiguredCount | custom_components/marstek_ble/entity.py:419-420 | an override replaces the count that was read, and is clamped too |
| EntityLaws.OwnExact | custom_components/marstek_ble/entity.py:331-365 | a field has one binding for each of its entities and for each index of its indexed entities, with exactly these keys and paths; planning raises exactly if it has too few items |
| EntityLaws.DerivedExact | custom_components/marstek_ble/entity.py:241-250 | the derived entities lie on the main device and have no path |
| EntityLaws.KeyOfField | custom_components/marstek_ble/entity.py:136-143 | the unique key: the entity's own on the main device, after the record's in a repeated record, after the device's on a child device |
| EntityLaws.KeyOfItem | custom_components/marstek_ble/product_entity_platform.py:52-70 | an item of an indexed field of the main device keeps its own key |
| EntityWalk.BuildEntityPlan | custom_components/marstek_ble/entity.py:207-251 | the recursive, appending walk builds the specified plan, or raises where that has none |
| EntityWalk.DetectExpansionIncreases | custom_components/marstek_ble/entity.py:253-262 | the same for the search for grown sections |
| EntityWalk.Planner.Collect | custom_components/marstek_ble/entity.py:316-397 | the walk of one record appends exactly the plan of that record |
| EntityWalk.Planner.CollectRepeated | custom_components/marstek_ble/entity.py:400-465 | the walk of a repeated section records its count and appends the plans of the configured records |
| EntityWalk.Planner.FindIncreases | custom_components/marstek_ble/entity.py:468-498 | the search appends exactly the changes of one record |
| EntityLaws.PlanSucceedsIff | custom_components/marstek_ble/entity.py:345-425 | planning raises if and only if a covered field has too few items for an indexed entity, or a covered section has no readable count or fewer records than it is configured to have |
| EntityPlanProofs.BindingsExact | custom_components/marstek_ble/entity.py:316-465 | a plan holds the derived entities and the bindings of exactly the fields on live paths, whose every index is below the count of its section |
| EntityPlanProofs.CountsExact | custom_components/marstek_ble/entity.py:418-421 | a plan records a count for exactly the sections on live paths; it is the clamped count or override, within 0 and the limit |
| EntityPlanProofs.CountsAreSections | custom_components/marstek_ble/entity.py:418-421 | every recorded count is filed under the path of such a section |
| EntityPlanProofs.DevicesExist | custom_components/marstek_ble/entity.py:432-449 | every binding lies on a device of the plan, and every child device has its parent there |
| EntityPlanProofs.BindingsResolve | custom_components/marstek_ble/entity.py:513-517 | every path binding of a plan resolves in the data it was planned from |
| EntityDiff.PlanAndDiffAgree | custom_components/marstek_ble/entity.py:253-262 | the reported increases are exactly the recorded sections whose clamped count is larger in the other data, with both counts, each once |
| EntityDiff.UnchangedDataHasNotGrown | custom_components/marstek_ble/entity.py:253-262 | for the data the plan came from nothing is reported, and the search raises exactly if some active count cannot be read |
| EntityDiff.SearchSucceedsIff | custom_components/marstek_ble/entity.py:468-510 | the search raises if and only if the active count of some section, in some record, is not a scalar field |
| EntityDiff.PresenceIsCount | custom_components/marstek_ble/entity.py:116-119 | in any data a repeated record is present if and only if its index is below the clamped count of its section |
| EntityDiff.PlannedIsPresent | custom_components/marstek_ble/entity.py:154-157 | everything a plan without overrides holds is present in the data it was planned from |
| EntityManager.ProductEntityManager.Synchronise | custom_components/marstek_ble/product_entity_platform.py:37-79 | one call of sync: hands over the plan's unknown keys and knows them afterwards, or, if they are not taken, changes nothing |
| EntityManager.KnownExact | custom_components/marstek_ble/product_entity_platform.py:37-79 | over any run a key is known if and only if some call whose entities were taken planned it, and exactly the known keys were handed over |
| EntityManager.HandedOnceIff | custom_components/marstek_ble/product_entity_platform.py:65-79 | no key is handed over twice if and only if no taken call planned a new key twice |
| EntityManager.TwinsAreHandedTwice | custom_components/marstek_ble/product_entity_platform.py:65-79 | data whose two fields declare an entity under one key: one call hands that key over twice |
| EntityManager.HandedOnce | custom_components/marstek_ble/product_entity_platform.py:65-79 | key-unique plans never hand a key over twice |
| EntityPacks.AddedIffSeen | custom_components/marstek_ble/product_entity_platform.py:37-79 | the key of record i's entity is added if and only if some taken call saw a clamped count above i or planned that key for another binding |
| EntityPacks.PresentIffCounted | custom_components/marstek_ble/entity.py:116-119 | the binding that was planned for record i, from whatever data, is present in the current data if and only if the clamped count there is above i |
| Polling.Sanitized | custom_components/marstek_ble/coordinator.py:169-213 | any request gives 1 <= fast <= 60 and max(5, fast) <= medium <= 300, each the nearest allowed value, allowed requests are kept, and clamping again changes nothing |
| Polling.CycleCovers | custom_components/marstek_ble/coordinator.py:217-220 | the cycle c is the least with medium <= c * fast, and c * fast < medium + fast |
| Polling.NextMultiple | custom_components/marstek_ble/coordinator.py:363-370 | counting on by one completes a cycle exactly at the multiples of c |
| Polling.Coordinator.SetPollIntervals | custom_components/marstek_ble/coordinator.py:235-264 | an unchanged outcome leaves counters and schedule alone, a changed one starts a new count, at any point of a poll |
| Polling.Coordinator.FastPolled | custom_components/marstek_ble/coordinator.py:363-370 | a medium poll follows the initial fast poll and every c-th one |
| Polling.Coordinator.BeginPoll | custom_components/marstek_ble/coordinator.py:326-349 | a poll starts, with no results, unless the shared backoff holds it back |
| Polling.Coordinator.PollCommands | custom_components/marstek_ble/product_coordinator.py:44-52 | every command of a schedule is sent and its result recorded, in order, whichever fail |
| Polling.Coordinator.FinishPoll | custom_components/marstek_ble/coordinator.py:372-376 | the poll counts as failed for the shared backoff if and only if one of its commands failed |
| Polling.Coordinator.Cadence | custom_components/marstek_ble/coordinator.py:363-376 | since counting began, at the creation or at an option change, n polls had floor(n / c) medium polls, and one more if and only if it began during a medium poll, or before the initial poll was decided with c > 1 and n >= 1 since |
| Polling.ChangeDuringMediumPoll | custom_components/marstek_ble/coordinator.py:235-264 | a run: options changed during the first medium poll leave one medium poll counted and no fast poll |
| Backoff.GlobalBackoff.HandleBackoff | custom_components/marstek_ble/coordinator.py:391-413 | a failed poll raises the level up to 4 and sets the deadline, a successful one clears both |
| Backoff.LevelCountsFailures | custom_components/marstek_ble/coordinator.py:391-413 | over any interleaving of coordinators the level is min(4, consecutive failures), and a deadline is set exactly while the level is above 0 |
| Backoff.PauseByFailures | custom_components/marstek_ble/const.py:33-39 | the pause is 5 seconds after the first failure in a row, then 15, then 30, and 60 from the fourth on |
| Backoff.StartsAfterDeadline | custom_components/marstek_ble/coordinator.py:326-341 | a poll starts if and only if the last completed poll of any coordinator succeeded or its level's interval has passed since it failed |
| Backoff.FailuresAreSpaced | custom_components/marstek_ble/coordinator.py:326-413 | for a single coordinator the k-th consecutive failure, k >= 4, ends at least 50 + 60 * (k - 4) seconds after the first |
| Device.MarstekBLEDevice.RecordNotification | custom_components/marstek_ble/marstek_device.py:1109-1145 | sets the event of the command in flight if its command byte matches, whether or not the notification is valid, and counts nothing |
| Device.MarstekBLEDevice.RecordCommandResult | custom_components/marstek_ble/marstek_device.py:1067-1107 | counts one result for its command and in total |
| Device.MarstekBLEDevice.Start | custom_components/marstek_ble/marstek_device.py:894-911 | an oversized payload raises before anything is counted |
| Device.MarstekBLEDevice.WaitEnded | custom_components/marstek_ble/marstek_device.py:945-983 | the wait ends by a set event or by timeout, the slot is cleared, and the call returns True or takes its next turn |
| Device.MarstekBLEDevice.AttemptFailed | custom_components/marstek_ble/marstek_device.py:994-1020 | a failed connection or write clears the slot and pauses, except after the last attempt |
| Device.OneInFlight | custom_components/marstek_ble/marstek_device.py:914-937 | in every reachable state one call at most writes or waits, the slot is full exactly then, no call writes more than retry times, and False comes only after all attempts |
| Device.WaitEndsByAnswer | custom_components/marstek_ble/marstek_device.py:944-965 | a waiting attempt can end with True if and only if a notification with its command byte has arrived since its event was created |
| Device.TrueMeansAnswered | custom_components/marstek_ble/marstek_device.py:944-983 | a call that has returned True was answered: a notification with its command byte arrived after the event of its last connection was created |
| Device.AfterTimeout | custom_components/marstek_ble/marstek_device.py:953-992 | a timeout with attempts left begins the next one and counts nothing; one after the last makes the call return False and counts one failure |
| Device.GoesOn | custom_components/marstek_ble/marstek_device.py:911-1037 | in every reachable state a call that has neither returned nor raised can go on, once no other call holds the lock, by every outcome of what it is doing |
| Device.NotifiedExactly | custom_components/marstek_ble/marstek_device.py:1109-1145 | a notification of more than three bytes sets the event exactly if its command is in flight, counts nothing and moves no call; a shorter one does nothing |
| Device.CallsAreIssues | custom_components/marstek_ble/marstek_device.py:894-911 | the calls are the ones issued, in order and with their command and number of attempts, and exactly those whose frame length does not fit in one byte have raised |
| Device.CallHistory | custom_components/marstek_ble/marstek_device.py:911-1037 | in every run a call has written once a connection, has had one attempt for each that failed and the one it is at, has returned True if and only if a wait saw its event set, and False if and only if all its attempts failed |
| Device.ReturnLeavesSlotEmpty | custom_components/marstek_ble/marstek_device.py:962-965 | when a call returns, slot and lock are free |
| Device.AccountsBalance | custom_components/marstek_ble/marstek_device.py:1091-1107 | in every reachable state sent = success + failure for every command and in total, each returned call is counted once, and the totals are the sums over the commands |
| Answering.HandleNotification | custom_components/marstek_ble/product_coordinator.py:75-107 | one notification is parsed into the data first and recorded by the device second |
| Answering.AnswerWasParsed | custom_components/marstek_ble/product_coordinator.py:75-107 | when a call has returned True, the frame that answered it has been parsed: each field it supplies holds what it, or a frame parsed after it, supplies |
| Device.OutcomeIsFinal | custom_components/marstek_ble/marstek_device.py:894-1037 | a call that has returned stays as it is |

## Left out

- Bluetooth and ESPHome transport, connection set-up, GATT discovery, idle disconnects: connecting and writing are steps that may fail.
- Task cancellation in the middle of a write or a wait.
- Floating-point rounding: quotients are exact real numbers, and `math.ceil` of a quotient is exact.
- UTF-8 decoding, `int()` on text and wall-clock formatting: parameters, or not modelled. Whitespace stripping is that of ASCII text.
- Update metadata of the hand-written Venus parser: it marks every attribute that is set, where the product parser marks what the packet carried; values and booleans are compared. `tests/test_venus_drop_in_compatibility.py` compares the same.
- VenusLegacy.MarstekData.ParseRuntimeInfo: the inner guards of the short form, at 16 to 29 bytes, always hold from 37 bytes on and are not repeated.
- VenusLegacy.MarstekData.ParseBmsData: the cell list is a value; that others may hold the same list is not modelled.
- `ProductProtocol.build_command` and the envelope check of `ProductProtocol.parse_notification` have the text of their counterparts in `marstek_device.py`; one model stands for both.
- Freshness.ValueAndMetadataAgree: is about fields at paths of two or more parts, which is where the products have their fields; the key of a one-part path may also be an alias. A payload parser is a function of the payload.
- JupiterData.JupiterIsSound: the packet sources of the Jupiter fields are a parameter, not the table of offsets; the theorem holds for every table.
- Schema.ProductObject.ParseInto: the struct format and the converter of a source are one function on bytes; a converter that raises gives None.
- Session.BLEDeviceSession.Fail: an outcome is that of the future. A write that fails after the response was delivered leaves the future answered, although its caller gets the exception.
- Decoder.FrameBuffer.Feed: the single-byte-corruption claim is not extended to it, since a changed length byte can make a shorter prefix look like a frame.
- EntityWalk.BuildEntityPlan: names, units, manufacturers and stale paths of entities and devices, and the issue identifiers of changes, are not modelled; value functions of derived entities neither.
- EntityPacks.AddedIffSeen: is stated for data of one declaration, in which every record of the section declares the entity.
- Polling.Coordinator.Cadence: counts the polls that a coordinator runs; a poll that the backoff holds back is not one of them.
- Polling.Coordinator.PollCommands: the outcomes of the commands are inputs; `Device` is where they come from.
- The listeners that the coordinator notifies, and the diagnostic histories of the last 25 commands and notifications.
- The remaining entity descriptions of both products: instances of the planner theorems.
- Home Assistant platforms, configuration flow, diagnostics, redaction, discovery, logging, and the telemetry parsers and tables of the standalone script.
