# Proofs about the LANLink and PTZ wire stack

A Dafny model of the protocol code of the Aqara LANLink integration, with proofs. It covers the
binary-field curve arithmetic and key exchange, the checksums and framing codecs, the device-key
derivation, the encoder's stream splitter, the PTZ cipher and packet nesting, the name tokenizer, and
the long-running state machines around them. Nothing of the original is executed here.
`dafny verify dfyconfig.toml` checks everything.

## Layout

| files | what they model |
|---|---|
| `Bits`, `Bytes` | bits of natural numbers; bytes, byte orders, exclusive or |
| `GfPoly`, `GfInverse`, `Curve`, `Scalar`, `Ecdh` | hub/ecc.py and src/protocol/ecc.js, for any field polynomial |
| `Crc`, `CrcPolynomial`, `FrameCodec`, `FrameStream`, `DeviceKey` | hub/crypto.py, src/protocol/crypto.js, and the two receive loops over `parse_frame` |
| `CameraPacket`, `Adts` | device/camera/protocol.py and device/camera/encoder.py |
| `Humanize` | device/humanize.py |
| `Cs2Table`, `Cs2`, `PtzFraming`, `PtzSession` | ptz/cs2.py, framing.py, ioctl.py and session.py |
| `Rearm`, `RearmProgress`, `Session`, `Watchdog`, `WatchdogTicks`, `ReportBuffer`, `ReportRouting`, `PtzController`, `PtzRetry` | hub/rearm.py, hub/session.py, the watchdog of `__init__.py`, hub/coordinator.py, ptz/controller.py |

Loops and in-place updates of the source are methods, each proved against a function; the lemmas are
about the functions. The last group is modelled as steps: coroutines run from one `await` to the next
in any order, and time, the network, the camera and cancellation are arbitrary parameters of the
steps. `Reached` is the state after any sequence of steps, so a lemma about `Reached` is about every
run. Each of those state machines has a class with the fields of the source whose methods make the steps.
Some fields of those states and classes are a record of what happened (activations, fates of frames,
deliveries, IOCTLs sent); no step depends on them.

Curve constants are those of sect163r2 in section 3.2.3 of SEC 2 version 2.0; the group law follows
section 2.2.2 of SEC 1. The table of the reflected checksum is that of appendix C.2 of RFC 1662.

## Where the code does not do what it says

Each point is a theorem with its exact condition in the table below.

- The encoder's buffer is trimmed by the length of the frames alone, so bytes skipped before a frame
  leave the wrong bytes behind (`Adts.TrimIsRight`, `Adts.RunIsRight`); a last frame of seven bytes stays in the buffer
  (`Adts.AllFramesEmitted`).
- `parse_control` and `parse_packet` raise an index error on one family of inputs each
  (`PtzFraming.ControlFaults`, `CameraPacket.IndexFaultIff`).
- Calling an unregister function again is not a no-op when the handler is still, or again, registered
  (`ReportBuffer.LaterUnregister`, with the runs `RegisteredTwice` and `RegisteredAnew`).
- A keepalive acknowledgement can be taken for the answer to a check-in under way
  (`Session.KeepaliveAck`).
- An exception in the third re-arm pass suppresses the stall Repair until reports resume
  (`Watchdog.RepairIff`, `Watchdog.MissedStays`, with the run `MissedRun`). The source catches all errors
  of the cloud read itself; what gets past that is a cancellation, or a response entry whose `path` is
  unhashable, a list say, which raises where device/base.py line 468 looks it up in a set.
- A preset recall interrupted before it discards its session leaves that session in use
  (`PtzController.RecallStaysLast`, with the run of `InterruptedRecallIsFollowed`).

## Model

| member | source | states |
|---|---|---|
| GfPoly.GfMul | custom_components/aqara_lanlink/hub/ecc.py:91-99 | the shift-and-xor loop computes the carry-less product |
| GfPoly.GfMod | custom_components/aqara_lanlink/hub/ecc.py:102-108 | the reduction loop ends, for any non-zero `poly`, with the remainder, which is shorter than `poly` |
| GfPoly.GfMulMod | custom_components/aqara_lanlink/hub/ecc.py:111-113 | product and reduction give the modular product |
| GfPoly.GfSqr | custom_components/aqara_lanlink/hub/ecc.py:116-125 | spreading the bits of `a` and reducing is the modular product of `a` with itself |
| GfPoly.SpreadIsSquare | custom_components/aqara_lanlink/hub/ecc.py:118-124 | spreading the bits of a polynomial is multiplying it by itself |
| GfPoly.RemainderUnique | custom_components/aqara_lanlink/hub/ecc.py:102-108 | the result of the reduction is the only remainder shorter than `poly`, and the quotient is unique too |
| GfPoly.ModXor | custom_components/aqara_lanlink/hub/ecc.py:102-108 | reduction is additive |
| GfPoly.ModMul | custom_components/aqara_lanlink/hub/ecc.py:111-113 | either factor may be reduced first |
| GfPoly.MulModComm | custom_components/aqara_lanlink/hub/ecc.py:111-113 | the modular product is commutative |
| GfPoly.MulModAssoc | custom_components/aqara_lanlink/hub/ecc.py:111-113 | the modular product is associative |
| GfPoly.MulModDist | custom_components/aqara_lanlink/hub/ecc.py:111-113 | the modular product distributes over the exclusive or, on both sides |
| GfPoly.SqrModAdditive | custom_components/aqara_lanlink/hub/ecc.py:116-125 | the modular square of a sum is the sum of the squares |
| GfInverse.StepRuns | custom_components/aqara_lanlink/hub/ecc.py:138-145 | one turn of the inversion loop keeps `u` non-zero, `v` not 1 and both without a common factor, and lowers the sum of the bit lengths |
| GfInverse.BezoutStep | custom_components/aqara_lanlink/hub/ecc.py:138-145 | one turn keeps `a*g1 = u` and `a*g2 = v` modulo `poly` |
| GfInverse.InverseLoopEnds | custom_components/aqara_lanlink/hub/ecc.py:136-145 | the loop ends if and only if `a` and `poly` have no common factor |
| GfInverse.InverseCorrect | custom_components/aqara_lanlink/hub/ecc.py:128-146 | for `a` coprime to `poly` the result is the one reduced number whose modular product with `a` is 1 |
| GfInverse.GfInv | custom_components/aqara_lanlink/hub/ecc.py:128-146 | the extended Euclid loop terminates with that inverse, and raises exactly for zero |
| GfInverse.InvertibleIsCoprime | custom_components/aqara_lanlink/hub/ecc.py:128-146 | conversely, only numbers coprime to `poly` have an inverse |
| GfInverse.ReducedIsCoprime | custom_components/aqara_lanlink/hub/ecc.py:128-146 | over an irreducible `poly` every non-zero reduced number is coprime to it |
| Curve.DoubleOnCurve | custom_components/aqara_lanlink/hub/ecc.py:212-222 | doubling a point of the curve gives a point of the curve, or infinity |
| Curve.AddOnCurve | custom_components/aqara_lanlink/hub/ecc.py:225-242 | adding two points of the curve gives a point of the curve, or infinity |
| Curve.AddCommutes | custom_components/aqara_lanlink/hub/ecc.py:225-242 | addition is commutative on all reduced points |
| Curve.AddInverse | custom_components/aqara_lanlink/hub/ecc.py:205-209 | the negative of a point is on the curve and the sum of both is infinity |
| Curve.ChordAndTangent | custom_components/aqara_lanlink/hub/ecc.py:212-242 | a sum that is not infinity comes from one line: through both points and the negative of the sum, and these are all the points where that line meets the curve |
| Curve.EqualXIsNegation | custom_components/aqara_lanlink/hub/ecc.py:231-235 | the branch for equal x and unequal y is reached only with a point and its negative |
| Curve.SumIsInfinity | custom_components/aqara_lanlink/hub/ecc.py:225-242 | a sum of curve points is infinity exactly when one is the negative of the other |
| Scalar.TimesAdd | custom_components/aqara_lanlink/hub/ecc.py:245-264 | given associativity, (m+n)-fold sums add up |
| Scalar.TimesTimes | custom_components/aqara_lanlink/hub/ecc.py:245-264 | an m-fold sum of an n-fold sum is the mn-fold sum |
| Scalar.TimesMod | custom_components/aqara_lanlink/hub/ecc.py:253-256 | on a point killed by n only the scalar modulo n matters: `scalar_mult` and `_mul_no_reduce` agree there |
| Scalar.MulNoReduce | custom_components/aqara_lanlink/hub/ecc.py:287-299 | left-to-right double-and-add is the k-fold sum, for every k |
| Scalar.ScalarMult | custom_components/aqara_lanlink/hub/ecc.py:245-264 | with the reduction first it is the sum taken k modulo the order times |
| Scalar.IsInPrimeSubgroup | custom_components/aqara_lanlink/hub/ecc.py:302-308 | the test is true exactly for the points killed by the order |
| Scalar.CommonFactor | custom_components/aqara_lanlink/hub/ecc.py:302-308 | a point killed by two numbers is killed by a common factor of them |
| Scalar.PrimeOrder | custom_components/aqara_lanlink/hub/ecc.py:302-308 | a point other than infinity killed by a prime n is killed by exactly the multiples of n |
| Ecdh.FieldRoundTrip | custom_components/aqara_lanlink/hub/ecc.py:50-63 | number to 24 bytes and back, in both directions |
| Bytes.LeDigits | custom_components/aqara_lanlink/hub/ecc.py:50-56 | byte i of the little-endian form is the digit of weight 256 to the i |
| Bytes.BeDigits | custom_components/aqara_lanlink/hub/crypto.py:163-167 | the byte that i bytes follow in the big-endian form is that digit |
| Ecdh.PubkeyRoundTrip | custom_components/aqara_lanlink/hub/ecc.py:66-77 | a public key is read back as its coordinates |
| Ecdh.FieldToBytesLoop | src/protocol/ecc.js:46-56 | the byte loop writes the little-endian digits of any number |
| Ecdh.BytesToFieldLoop | src/protocol/ecc.js:62-72 | the byte loop reads the number that the digits spell, and refuses other lengths |
| Ecdh.PublicKeyFromPrivate | custom_components/aqara_lanlink/hub/ecc.py:274-284 | the method computes the specified public key or the specified error |
| Ecdh.ComputeSharedSecret | custom_components/aqara_lanlink/hub/ecc.py:311-335 | the method computes the specified secret, with the curve, subgroup and infinity checks in their order |
| Ecdh.PublicKeyIsValid | custom_components/aqara_lanlink/hub/ecc.py:274-284 | a private key is refused exactly when it is a multiple of the order; otherwise its public key decodes to a point in the prime subgroup |
| Ecdh.PublicKeyCoordinates | custom_components/aqara_lanlink/hub/ecc.py:274-284 | the public key is refused exactly for a wrong length or a multiple of the order; its two halves are the coordinates of the unreduced key times G |
| Ecdh.SecretErrors | custom_components/aqara_lanlink/hub/ecc.py:311-335 | the exact condition on both keys for each error, in the order of the checks, and for success |
| Ecdh.SecretIsX | custom_components/aqara_lanlink/hub/ecc.py:332-335 | the bytes of an accepted exchange spell the x coordinate of the unreduced private key times the point of the peer |
| Ecdh.KeyAgreement | custom_components/aqara_lanlink/hub/ecc.py:311-335 | both ends accept each other and compute the same 24 bytes |
| Ecdh.LanlinkSizes | custom_components/aqara_lanlink/hub/ecc.py:30-43 | the constants are a field polynomial of 164 bits and reduced coefficients and generator |
| Crc.TableIsShifts | custom_components/aqara_lanlink/device/camera/protocol.py:24-57 | each of the 256 table entries is eight reflected shifts of its index |
| Crc.ChecksumsMirror | custom_components/aqara_lanlink/device/camera/protocol.py:60-68 | the bit-reversed table-driven checksum of any message is the bitwise checksum of the message with every byte bit-reversed |
| Crc.Crc16Ccitt | custom_components/aqara_lanlink/hub/crypto.py:50-64 | the bitwise loop computes the specified checksum |
| Crc.Crc16Kermit | custom_components/aqara_lanlink/device/camera/protocol.py:60-68 | the table loop computes the specified reflected checksum |
| CrcPolynomial.ShiftIsRemainder | custom_components/aqara_lanlink/hub/crypto.py:56-63 | one turn of the bit loop multiplies the register by x and takes the remainder by x^16 + x^12 + x^5 + 1 |
| CrcPolynomial.RunIsRemainder | custom_components/aqara_lanlink/hub/crypto.py:54-63 | after any message the register is the remainder of the message polynomial, with its initial contents added in front |
| CrcPolynomial.ChecksumIsRemainder | custom_components/aqara_lanlink/hub/crypto.py:50-64 | the checksum is the inverted remainder of the message with sixteen zeros after it and its first sixteen bits inverted |
| Crc.CheckValues | custom_components/aqara_lanlink/hub/crypto.py:50-64 | both checksums of nothing, of a zero byte, and of the digits 1 to 9 |
| Crc.ChecksumDifference | custom_components/aqara_lanlink/hub/crypto.py:50-64 | for messages of equal length the checksum difference depends on the exclusive or of the messages only |
| Crc.BurstDetected | custom_components/aqara_lanlink/hub/crypto.py:50-64 | different messages of equal length that differ within sixteen adjacent bits never share a checksum |
| FrameCodec.ParseOfWire | custom_components/aqara_lanlink/hub/crypto.py:160-202 | an encoded frame with a ciphertext of at most 256 KiB is read back, and what follows it is left over |
| FrameCodec.EncodedBytes | custom_components/aqara_lanlink/hub/crypto.py:160-170 | each byte of an encoded frame by its position: magic, type, length, ciphertext, checksum with its high byte first; and when encoding fails |
| FrameCodec.ParseVerdicts | custom_components/aqara_lanlink/hub/crypto.py:173-202 | the exact condition of every verdict of the parser, in the bytes of the buffer |
| FrameCodec.ParseIsSound | custom_components/aqara_lanlink/hub/crypto.py:173-202 | what is read as a frame is, byte for byte, that frame encoded, followed by the rest |
| FrameCodec.ParseExtends | custom_components/aqara_lanlink/hub/crypto.py:173-202 | a frame or an error found in a buffer is found again when more bytes follow |
| FrameCodec.HeldBackBound | custom_components/aqara_lanlink/hub/crypto.py:179-194 | a buffer that needs more bytes is shorter than 262154 bytes |
| FrameCodec.AlteredFrameRejected | custom_components/aqara_lanlink/hub/crypto.py:195-201 | a frame whose ciphertext was altered within sixteen adjacent bits is rejected |
| FrameStream.Receiver.OnData | src/protocol/tunnel.js:304-324 | one chunk takes the receiver to the specified state: frames handed on, rest kept, closed by an error, or left by an exception in the handling of a frame |
| FrameStream.ThrowPutsOff | src/protocol/tunnel.js:304-324 | such an exception loses nothing: what was handed on and what the next event finds are together what the buffer held |
| FrameStream.NothingThrows | src/protocol/tunnel.js:304-324 | where no frame throws the event drains the whole buffer |
| FrameStream.StopsAtFirstThrow | src/protocol/tunnel.js:304-324 | the event goes on to the end of the buffer or up to the first frame that throws, which has been handed on by then |
| FrameStream.RecvFrame | custom_components/aqara_lanlink/hub/tunnel.py:243-270 | the pulling loop returns the first frame of the stream up to the end of file, which is the first empty chunk, or its error, or the end, and leaves the remaining stream as it was |
| FrameStream.DrainExtends | src/protocol/tunnel.js:304-324 | draining a stream is draining its head and then receiving the rest |
| FrameStream.DrainEnds | src/protocol/tunnel.js:304-324 | reading stops only where the parser needs more bytes or rejects the buffer, and with its error |
| FrameStream.ChunkingIsIrrelevant | src/protocol/tunnel.js:304-324 | for any cutting into chunks the frames and the failure are those of the whole stream |
| FrameStream.DrainConserves | src/protocol/tunnel.js:304-324 | the frames encoded again, followed by the buffer, are the bytes received |
| FrameStream.FramesComeBack | src/protocol/tunnel.js:304-324 | encoded frames in any chunks come back, all and in order, and nothing is left over |
| FrameStream.BufferBound | src/protocol/tunnel.js:304-324 | the buffer left after any chunks stays below 262154 bytes |
| DeviceKey.RunPass1 | custom_components/aqara_lanlink/hub/crypto.py:84-87 | the first loop in place is the specified pass |
| DeviceKey.RunPass2 | custom_components/aqara_lanlink/hub/crypto.py:89-92 | the second loop in place is the specified pass |
| DeviceKey.RunPass3 | custom_components/aqara_lanlink/hub/crypto.py:94-97 | the folding loop in place is the specified pass |
| DeviceKey.RunPass4 | custom_components/aqara_lanlink/hub/crypto.py:99-102 | the fourth loop in place is the specified pass |
| DeviceKey.RunPass5 | custom_components/aqara_lanlink/hub/crypto.py:111-115 | the fifth loop in place is the specified pass |
| DeviceKey.RunPass6 | custom_components/aqara_lanlink/hub/crypto.py:117-122 | the sixth loop in place is the specified pass |
| DeviceKey.Pass1Is | custom_components/aqara_lanlink/hub/crypto.py:84-87 | what pass 1 leaves at a position, in the bytes of the identifier: past the middle the mirrored byte has been rewritten, and the last byte stays |
| DeviceKey.Pass2Is | custom_components/aqara_lanlink/hub/crypto.py:89-92 | what pass 2 leaves at a position: the tail reads what the pass itself has written |
| DeviceKey.Operations | custom_components/aqara_lanlink/hub/crypto.py:87-101 | the two operations on bytes that the passes are made of |
| DeviceKey.Pass4Is | custom_components/aqara_lanlink/hub/crypto.py:99-102 | each byte after pass 4, in the bytes of the fold and the bytes mixed before it |
| DeviceKey.DeriveDeviceKey | custom_components/aqara_lanlink/hub/crypto.py:71-124 | the six passes and the checksum, with all indices in range for every length of identifier, give the specified key |
| DeviceKey.FoldIs | custom_components/aqara_lanlink/hub/crypto.py:94-97 | byte r of the fold, in the bytes of the identifier: the exclusive or, over the positions at distance r, r+6, ... from the end, of what passes 1 and 2 leave there |
| DeviceKey.KeyBytes | custom_components/aqara_lanlink/hub/crypto.py:104-124 | the sixteen key bytes in the six mixed bytes and the two bytes of their checksum |
| DeviceKey.KeyIsPalindrome | custom_components/aqara_lanlink/hub/crypto.py:111-122 | the first fifteen bytes of every key read the same in both directions |
| DeviceKey.KeyOfFoldInjective | custom_components/aqara_lanlink/hub/crypto.py:99-124 | everything after the fold is injective |
| DeviceKey.KeysMeetExactlyOnFolds | custom_components/aqara_lanlink/hub/crypto.py:71-124 | two identifiers share a key exactly when their six-byte folds agree |
| CameraPacket.PacketRoundTrip | custom_components/aqara_lanlink/device/camera/protocol.py:83-131 | a packet of a known type is read back with its value (the low byte of it for an acknowledgement), whatever follows |
| CameraPacket.WireBytes | custom_components/aqara_lanlink/device/camera/protocol.py:98-101 | each byte of a packet by its position: magic, type, length, payload, checksum with its high byte first |
| CameraPacket.BuildErrors | custom_components/aqara_lanlink/device/camera/protocol.py:83-101 | which types and values can be built, and with which payload |
| CameraPacket.EveryPacketIsRead | custom_components/aqara_lanlink/device/camera/protocol.py:104-131 | conversely to the soundness, every packet of a known type and of eight bytes or more is read, with any payload and whatever follows |
| CameraPacket.ParseIsSound | custom_components/aqara_lanlink/device/camera/protocol.py:104-131 | whatever is accepted starts with a packet under its checksum, and its value is the one its payload spells |
| CameraPacket.IndexFaultIff | custom_components/aqara_lanlink/device/camera/protocol.py:125-130 | parsing raises an index error for exactly one family of inputs: an acknowledgement without payload under its right checksum |
| CameraPacket.AdjacentBytesDetected | custom_components/aqara_lanlink/device/camera/protocol.py:60-68 | the table-driven checksum, too, tells apart messages that differ in two adjacent bytes at most |
| CameraPacket.AlteredPacketRejected | custom_components/aqara_lanlink/device/camera/protocol.py:120-123 | a packet whose payload was altered in two adjacent bytes at most is rejected |
| Adts.ExtractAdtsFrames | custom_components/aqara_lanlink/device/camera/protocol.py:160-182 | the scanning loop returns the specified frames |
| Adts.LengthBits | custom_components/aqara_lanlink/device/camera/protocol.py:173-177 | the thirteen bits of the length field, and where they come from |
| Adts.ScanFinds | custom_components/aqara_lanlink/device/camera/protocol.py:160-182 | each frame is taken at the first sync word after the frame before, and the scan stops only where no sync word is left or its length is too short or too long |
| Adts.AacEncoder.WritePcm | custom_components/aqara_lanlink/device/camera/encoder.py:82-111 | the frames returned and the buffer kept are those of the old buffer followed by the chunks; it raises exactly before the start and once `flush` has closed the input, and a broken pipe changes nothing |
| Adts.AacEncoder.Flush | custom_components/aqara_lanlink/device/camera/encoder.py:113-141 | likewise for the rest of the output, or without it after a timeout; an exception of the wait leaves the buffer as it was |
| Adts.ExtractFits | custom_components/aqara_lanlink/device/camera/protocol.py:160-182 | the frames found are together no longer than the data |
| Adts.ConsumeReaches | custom_components/aqara_lanlink/device/camera/encoder.py:106-109 | one read emits exactly the frames it completes and holds back exactly the new end of the stream |
| Adts.StreamingSplit | custom_components/aqara_lanlink/device/camera/encoder.py:98-111 | for a stream of frames in any chunks: emitted frames and buffer are together the bytes read, the emitted ones are the first frames in order, and the buffer is the start of the next |
| Adts.AllFramesEmitted | custom_components/aqara_lanlink/device/camera/encoder.py:98-111 | once all is read all frames have been emitted, if and only if the last one has eight bytes or more; one of seven stays in the buffer |
| Adts.TrimIsRight | custom_components/aqara_lanlink/device/camera/encoder.py:107-109 | on arbitrary bytes in one read the trimming drops the right bytes exactly when none was skipped before a frame |
| Adts.NoFrameMeans | custom_components/aqara_lanlink/device/camera/protocol.py:169-181 | no frame is found exactly when the first sync word has a length below the header or beyond the data, or there is none |
| Adts.RunIsRight | custom_components/aqara_lanlink/device/camera/encoder.py:98-111 | on arbitrary bytes in any reads, emitted frames and buffer are together the bytes read exactly when no read skipped bytes before a frame |
| Adts.StrayByteExample | custom_components/aqara_lanlink/device/camera/encoder.py:107-109 | one stray byte before a frame: the frame is emitted and its last byte stays behind |
| Humanize.HumanizeName | custom_components/aqara_lanlink/device/humanize.py:32-75 | the token loop computes the specified name |
| Humanize.TokenLengthIs | custom_components/aqara_lanlink/device/humanize.py:27-29 | what the five alternatives with their look-aheads match, in terms of maximal runs |
| Humanize.RestyledAt | custom_components/aqara_lanlink/device/humanize.py:67-74 | every character of every word of the result |
| Humanize.CasesApart | custom_components/aqara_lanlink/device/humanize.py:67-74 | the two cases of a letter are 32 apart, and nothing else has a case |
| Humanize.TokenIsWord | custom_components/aqara_lanlink/device/humanize.py:27-29 | whatever the expression matches is all capitals, a capital and small letters, all small letters, or all digits |
| Humanize.WordIsToken | custom_components/aqara_lanlink/device/humanize.py:27-29 | such a word, followed by a space or the end, is matched whole |
| Humanize.TokensOfJoin | custom_components/aqara_lanlink/device/humanize.py:27-29 | words joined by spaces are cut into those words again |
| Humanize.DisplayFormStays | custom_components/aqara_lanlink/device/humanize.py:64-75 | text that already is a list of display words is left as it is |
| Humanize.Idempotent | custom_components/aqara_lanlink/device/humanize.py:53-54 | applying the transform twice is applying it once, for every string |
| Humanize.LettersKept | custom_components/aqara_lanlink/device/humanize.py:62-75 | letters and digits are kept in order, ignoring case, for every string |
| Humanize.NoTokens | custom_components/aqara_lanlink/device/humanize.py:64-66 | there are no tokens exactly when there is no letter or digit |
| Cs2Table.TablePermutes | custom_components/aqara_lanlink/ptz/cs2.py:36-54 | the table lists every byte value exactly once |
| Cs2.BuildKeyTable | custom_components/aqara_lanlink/ptz/cs2.py:57-78 | the 32-bit accumulators give sum, negated sum, weighted sum and exclusive or of the effective key |
| Cs2.EncryptBytes | custom_components/aqara_lanlink/ptz/cs2.py:87-98 | the loop computes the specified ciphertext |
| Cs2.DecryptBytes | custom_components/aqara_lanlink/ptz/cs2.py:101-111 | the loop computes the specified plaintext |
| Cs2.StreamBytes | custom_components/aqara_lanlink/ptz/cs2.py:57-111 | the byte with which each position is enciphered and deciphered: the table entry at one of four sums over the effective key, chosen by the low two bits of the ciphertext byte before, plus that byte |
| Cs2.TwoByteKey | custom_components/aqara_lanlink/ptz/cs2.py:57-78 | the four sums for one key |
| Cs2.CipherRoundTrip | custom_components/aqara_lanlink/ptz/cs2.py:87-111 | encrypting and decrypting undo each other, in both orders, for every key and all data |
| Cs2.PrefixCommutes | custom_components/aqara_lanlink/ptz/cs2.py:87-111 | both commute with taking prefixes |
| Cs2.ErrorPropagation | custom_components/aqara_lanlink/ptz/cs2.py:101-111 | one altered ciphertext byte alters that plaintext byte by the same difference and at most the next one |
| Cs2.Resynchronises | custom_components/aqara_lanlink/ptz/cs2.py:101-111 | the cipher synchronises itself: after different beginnings all but the first byte of a shared stream are deciphered alike |
| Cs2.KeysAlike | custom_components/aqara_lanlink/ptz/cs2.py:57-84 | two keys encipher everything alike exactly when their four key bytes are equal |
| PtzFraming.ParseControlIff | custom_components/aqara_lanlink/ptz/framing.py:52-74 | from four bytes on, a datagram is read as a control packet exactly when it starts with that packet as it is built |
| PtzFraming.ShortControl | custom_components/aqara_lanlink/ptz/framing.py:62-74 | what is read, and raised, on shorter datagrams |
| PtzFraming.ControlFaults | custom_components/aqara_lanlink/ptz/framing.py:62-74 | an index error escapes for exactly one datagram under each key: the enciphered magic byte alone |
| PtzFraming.ControlRoundTrip | custom_components/aqara_lanlink/ptz/framing.py:52-74 | type (its low byte) and payload come back, whatever follows |
| PtzFraming.UnwrapIff | custom_components/aqara_lanlink/ptz/framing.py:103-138 | bytes unwrap to a number and an IOCTL exactly when they start with that IOCTL wrapped under that number |
| PtzFraming.WrapRoundTrip | custom_components/aqara_lanlink/ptz/framing.py:103-138 | an IOCTL can be wrapped exactly up to 65531 bytes, and comes back under its number modulo two to the 24 |
| PtzFraming.PacketBytes | custom_components/aqara_lanlink/ptz/framing.py:52-59 | the header of every packet, and marker and number of a data packet, by position |
| PtzFraming.IoctlRoundTrip | custom_components/aqara_lanlink/ptz/ioctl.py:6-28 | type, id and body are read back, whatever follows |
| PtzFraming.IoctlHeader | custom_components/aqara_lanlink/ptz/ioctl.py:6-9 | the header of an IOCTL: tag, type, id and text length |
| PtzFraming.EveryIoctlIsRead | custom_components/aqara_lanlink/ptz/ioctl.py:11-28 | conversely, every IOCTL whose text is JSON is read, and one whose text is not is refused |
| PtzFraming.ParseIoctlSound | custom_components/aqara_lanlink/ptz/ioctl.py:11-28 | what is read as an IOCTL was written as one, with a type and an id of 32 bits |
| PtzFraming.ChainRoundTrip | custom_components/aqara_lanlink/ptz/framing.py:144-152 | the whole chain: a packet can be built exactly up to 65515 bytes of body text, and the other end receives number, type, id and body |
| PtzFraming.ControlIsNoIoctl | custom_components/aqara_lanlink/ptz/session.py:482-495 | a control packet of another type is never taken for an IOCTL |
| PtzSession.HandshakeIff | custom_components/aqara_lanlink/ptz/session.py:297-417 | the handshake succeeds exactly when a reply and a ready packet arrive, in either order; without waiting for ready, when a reply and any of confirm and ready do |
| PtzSession.FatalBreaks | custom_components/aqara_lanlink/ptz/session.py:339-342 | an error that the loop does not catch breaks the handshake exactly when it was not over before |
| PtzSession.ConnectIff | custom_components/aqara_lanlink/ptz/session.py:209-243 | the search ends with the first control packet from the camera, and the session gets ready exactly when a reply and a ready packet follow it (or a confirm, where no ready packet is expected) |
| PtzSession.PtzSession.Connect | custom_components/aqara_lanlink/ptz/session.py:245-295 | discovery adopts the sender of the first answer, and the outcome is the specified one |
| PtzSession.PtzSession.RunHandshake | custom_components/aqara_lanlink/ptz/session.py:297-402 | the loop over the flags has the specified outcome |
| PtzSession.PtzSession.RunAwaitReady | custom_components/aqara_lanlink/ptz/session.py:403-416 | the last wait has the specified outcome |
| PtzSession.PtzSession.SendIoctl | custom_components/aqara_lanlink/ptz/session.py:439-457 | each call takes the next number of both counters; what is sent is that packet, and nothing where it cannot be built |
| PtzSession.PtzSession.RecvIoctl | custom_components/aqara_lanlink/ptz/session.py:459-495 | the first datagram that holds an IOCTL is returned, all before it are skipped, and none is missed |
| PtzSession.NthIoctl | custom_components/aqara_lanlink/ptz/session.py:445-457 | call n of a session travels under DRW sequence n (24 bits wide) and lumi id n+1 with its own body, whenever it can be built |
| PtzSession.WiresInOrder | custom_components/aqara_lanlink/ptz/session.py:445-457 | the packets go out in the order of the calls |
| Rearm.StepKeeps | custom_components/aqara_lanlink/hub/rearm.py:82-237 | every step of the manager, of a loop, or of the surroundings keeps the invariant |
| Rearm.ActivateKeeps | custom_components/aqara_lanlink/hub/rearm.py:181-192 | activating keeps it: the clock is past the cooldown of the last activation, whoever made it |
| Rearm.OneLoopPerDevice | custom_components/aqara_lanlink/hub/rearm.py:140-146 | in every run a device has at most one loop that is neither ended nor cancelled |
| Rearm.ActivationsApart | custom_components/aqara_lanlink/hub/rearm.py:168-192 | in every run two activations of one device are at least the cooldown apart, across all loops |
| Rearm.LoopBound | custom_components/aqara_lanlink/hub/rearm.py:167-207 | in every run a loop activates at most `max_rounds` times |
| Rearm.NoteTopologyStops | custom_components/aqara_lanlink/hub/rearm.py:96-102 | right after a push a loop for a device in it lives exactly when it lived before and the device is not configured |
| Rearm.NoteTopologyStarts | custom_components/aqara_lanlink/hub/rearm.py:96-102 | right after a push every configured device missing from it has a loop that has not ended |
| Rearm.CancelAllStopsAll | custom_components/aqara_lanlink/hub/rearm.py:118-123 | `cancel_all` leaves no live loop |
| Rearm.OnlyOwnSlot | custom_components/aqara_lanlink/hub/rearm.py:218-221 | a running loop touches no slot but its own, and frees its own exactly when it ends |
| RearmProgress.EndsIff | custom_components/aqara_lanlink/hub/rearm.py:161-237 | a loop neither cancelled nor failing ends when resumed exactly if its device is back at one of the looks of the source, or its rounds are spent |
| RearmProgress.StopsAtOnce | custom_components/aqara_lanlink/hub/rearm.py:210-221 | a cancelled or failing loop ends without an activation |
| RearmProgress.RunsOnTo | custom_components/aqara_lanlink/hub/rearm.py:161-237 | where every other resumption leads, and that only one after discovery activates |
| RearmProgress.RoundActivates | custom_components/aqara_lanlink/hub/rearm.py:167-192 | at the head of a round that is left, out of the cooldown and the device away, the next two resumptions activate it exactly once, whatever happens between them |
| RearmProgress.RoundsAccounted | custom_components/aqara_lanlink/hub/rearm.py:167-205 | in every run a loop has spent each round it used on exactly one activation or one wait for the cooldown |
| RearmProgress.GivesUpSpent | custom_components/aqara_lanlink/hub/rearm.py:167-209 | a loop that gives up has spent exactly `max_rounds` of them |
| RearmProgress.SweepStarts | custom_components/aqara_lanlink/hub/rearm.py:105-116 | after a sweep every configured device missing from the last topology has a loop that has not ended; none is started for another device, and no loop is touched |
| RearmProgress.SweepsByLatestPush | custom_components/aqara_lanlink/hub/rearm.py:89-89 | the topology a sweep goes by is that of the latest push |
| Rearm.RearmManager.NoteTopology | custom_components/aqara_lanlink/hub/rearm.py:82-102 | the loop over the targets is the specified step |
| Rearm.RearmManager.Sweep | custom_components/aqara_lanlink/hub/rearm.py:105-116 | the loop over the targets is the specified step |
| Rearm.RearmManager.CancelAll | custom_components/aqara_lanlink/hub/rearm.py:118-123 | all tasks in the slots are cancelled and the slots emptied |
| Rearm.RearmManager.EnsureRearm | custom_components/aqara_lanlink/hub/rearm.py:140-146 | a loop is started unless one that has not ended has the slot |
| Rearm.RearmManager.RearmLoop | custom_components/aqara_lanlink/hub/rearm.py:148-237 | each stretch of the loop between two awaits is the specified step |
| Session.StepKeeps | custom_components/aqara_lanlink/hub/session.py:84-248 | every step of a caller, of the receive loop, or of the tunnel keeps the invariant, as long as numbers come from `next_seq` |
| Session.CompletesOnce | custom_components/aqara_lanlink/hub/session.py:97-111 | in every run and every continuation of it a resolved future and a finished call never change again |
| Session.ValueIsOwn | custom_components/aqara_lanlink/hub/session.py:84-111 | a call returns only a frame that bears its number and came after it began, and that frame went nowhere else |
| Session.FrameFate | custom_components/aqara_lanlink/hub/session.py:226-234 | a frame answers the waiting call with its number, if there is one, and is dispatched otherwise |
| Session.ResolvedBy | custom_components/aqara_lanlink/hub/session.py:84-248 | the only ways in which the future of a waiting call is resolved, and in which the receive loop ends |
| Session.LeavesWith | custom_components/aqara_lanlink/hub/session.py:103-111 | when a call leaves, and with what |
| Session.ReturnsItsFrame | custom_components/aqara_lanlink/hub/session.py:84-111 | a call to which a frame with its number came returns that frame, at any later time and also if it came during the send, unless its send fails or it is overtaken |
| Session.CloseFailsAll | custom_components/aqara_lanlink/hub/session.py:239-248 | the end of the stream fails every waiting call, and touches no other |
| Session.LosesConnection | custom_components/aqara_lanlink/hub/session.py:239-248 | a call that waits when the stream ends leaves with the connection error, at any later time |
| Session.KeepaliveAck | custom_components/aqara_lanlink/hub/tunnel.py:478-483 | a keepalive acknowledgement answers a call exactly while the call with number 1 waits: never once the check-in is over |
| Session.CheckinTakesAck | custom_components/aqara_lanlink/hub/tunnel.py:478-483 | a run in which the acknowledgement does answer the check-in |
| Session.LANLinkClient.AllocateSeq | custom_components/aqara_lanlink/hub/session.py:71-75 | a number never handed out before |
| Session.LANLinkClient.SendAndAwait | custom_components/aqara_lanlink/hub/session.py:97-105 | the call registers under its number, or raises for a number that is pending |
| Session.LANLinkClient.AfterSend | custom_components/aqara_lanlink/hub/session.py:106-111 | after the send the call waits, or leaves with the future's outcome |
| Session.LANLinkClient.AfterWait | custom_components/aqara_lanlink/hub/session.py:107-111 | the call leaves with the outcome of its future and frees its number |
| Session.LANLinkClient.Listen | custom_components/aqara_lanlink/hub/session.py:216-234 | one turn of the loop is the specified step |
| Session.LANLinkClient.FailAll | custom_components/aqara_lanlink/hub/session.py:242-248 | every pending future that is not done is failed and the table emptied |
| Watchdog.StepKeeps | custom_components/aqara_lanlink/__init__.py:315-425 | every tick, trigger and cloud call, interleaved in any way, keeps the invariant |
| Watchdog.CountBounded | custom_components/aqara_lanlink/__init__.py:390-408 | the counter is the number of re-arms since the last healthy tick and at most three |
| Watchdog.AtMostThreeRearms | custom_components/aqara_lanlink/__init__.py:390-408 | between two healthy ticks, at any time of any run, there are at most three re-arms |
| Watchdog.RearmsApart | custom_components/aqara_lanlink/__init__.py:402-408 | any two re-arms of the watchdog are at least the stall time apart |
| Watchdog.OnePass | custom_components/aqara_lanlink/__init__.py:332-350 | at most one pass runs, only while the flag is up, and it starts re-authentication exactly when the token is rejected, once |
| WatchdogTicks.TickDoes | custom_components/aqara_lanlink/__init__.py:359-425 | in every run: when a tick is healthy, when it re-arms, and when the re-arm starts a pass |
| WatchdogTicks.TriggerDoes | custom_components/aqara_lanlink/__init__.py:315-340 | a trigger starts a pass over all targets exactly if there are any and none is running |
| WatchdogTicks.PassCalls | custom_components/aqara_lanlink/__init__.py:237-267 | in every run a pass over without rejection or exception has made one call for each target, and no pass calls again after a call that was not good |
| Watchdog.RepairIff | custom_components/aqara_lanlink/__init__.py:415-425 | the Repair is present exactly when three re-arms have gone unanswered since the last healthy tick and the third either started no pass or its pass is over without any call that ended in another error than a rejected token |
| Watchdog.MissedStays | custom_components/aqara_lanlink/__init__.py:400-401 | once a call of the third pass has raised, neither the Repair nor another re-arm comes in any continuation without a healthy tick |
| Watchdog.MissedRun | custom_components/aqara_lanlink/__init__.py:963-974 | a run that gets there: a response with an entry whose `path` is a list makes the third pass raise |
| Watchdog.RuntimeData.WatchdogTick | custom_components/aqara_lanlink/__init__.py:374-425 | the tick up to its await is the specified step |
| Watchdog.RuntimeData.RearmSubscriptions | custom_components/aqara_lanlink/__init__.py:325-336 | the pass starts exactly when there is something to do and none is in flight |
| Watchdog.RuntimeData.AfterCloudCall | custom_components/aqara_lanlink/__init__.py:255-267 | the pass goes on, short-circuits after a rejected token, or ends by an exception, as specified |
| ReportBuffer.StepKeeps | custom_components/aqara_lanlink/hub/coordinator.py:646-747 | every report, registration, unregistration and push keeps the invariant |
| ReportBuffer.BuffersBounded | custom_components/aqara_lanlink/hub/coordinator.py:690-705 | no device has both handlers and a buffer; at most 64 buffers of one to ten reports |
| ReportBuffer.NoneTwice | custom_components/aqara_lanlink/hub/coordinator.py:707-747 | no report is handed on twice, live or in a replay |
| ReportBuffer.BufferIsNewest | custom_components/aqara_lanlink/hub/coordinator.py:690-705 | a buffer holds exactly the newest ten of the reports admitted since the last registration, in order |
| ReportRouting.HandlersAreRegistered | custom_components/aqara_lanlink/hub/coordinator.py:646-688 | the handlers of a device are those registered and not unregistered, in order; an unregistration takes the earliest |
| ReportRouting.ReportReaches | custom_components/aqara_lanlink/hub/coordinator.py:707-747 | in every run a report reaches at once exactly the handlers registered for its sub-device, or its device if it names none, in the order of registration |
| ReportBuffer.RegistrationReplays | custom_components/aqara_lanlink/hub/coordinator.py:659-675 | a registration replays exactly those, in order of arrival, and nothing else |
| ReportBuffer.OfflineIff | custom_components/aqara_lanlink/hub/coordinator.py:234-245 | offline exactly when not the hub, in some past push, and not in the latest |
| ReportBuffer.UnregisterTakesOne | custom_components/aqara_lanlink/hub/coordinator.py:677-686 | the unregister callable takes one registration of the handler away and changes nothing else |
| ReportBuffer.UnregisterTwice | custom_components/aqara_lanlink/hub/coordinator.py:651-653 | calling the callable again at once is a no-op exactly when the handler was registered for the device at most once |
| ReportBuffer.TimesIsExcess | custom_components/aqara_lanlink/hub/coordinator.py:659-686 | in every run a handler is left registered as often as, over some final stretch, its registrations exceed its unregistrations, and over none by more |
| ReportBuffer.LaterUnregister | custom_components/aqara_lanlink/hub/coordinator.py:651-653 | calling the callable again at any later time is a no-op exactly when over no final stretch of the run so far the registrations exceed the unregistrations |
| ReportBuffer.RegisteredTwice | custom_components/aqara_lanlink/hub/coordinator.py:676-686 | a run: registered twice, the second call of one callable takes the other registration away |
| ReportBuffer.RegisteredAnew | custom_components/aqara_lanlink/hub/coordinator.py:676-686 | a run: registered again after an unregistration, the old callable takes the new registration away |
| ReportBuffer.HubCoordinator.RegisterReportHandler | custom_components/aqara_lanlink/hub/coordinator.py:646-675 | registration and replay loop are the specified step |
| ReportBuffer.HubCoordinator.UnregisterHandler | custom_components/aqara_lanlink/hub/coordinator.py:677-686 | the specified step |
| ReportBuffer.HubCoordinator.DispatchReport | custom_components/aqara_lanlink/hub/coordinator.py:707-747 | the specified step |
| ReportBuffer.HubCoordinator.RecordPush | custom_components/aqara_lanlink/hub/coordinator.py:229-232 | the specified step |
| ReportBuffer.HubCoordinator.IsLanDirectOffline | custom_components/aqara_lanlink/hub/coordinator.py:234-245 | the specified answer |
| PtzController.StepKeeps | custom_components/aqara_lanlink/ptz/controller.py:47-209 | every stretch of every task, interrupted or not, and the shutdown keep the invariant |
| PtzController.CommandsAuthenticated | custom_components/aqara_lanlink/ptz/controller.py:52-75 | AUTH is the first IOCTL of every session and sent once, and commands travel only where it was answered with code 0 |
| PtzController.RecallIsLast | custom_components/aqara_lanlink/ptz/controller.py:109-125 | a preset recall is the last IOCTL of its session, unless its task was interrupted before it discarded the session |
| PtzController.RecallLeaves | custom_components/aqara_lanlink/ptz/controller.py:100-131 | when the task of a recall goes on after waiting for the acknowledgement, its session is still ready exactly if the wait was interrupted while it was; then it is current, too |
| PtzController.RecallStaysLast | custom_components/aqara_lanlink/ptz/controller.py:100-131 | the recall stays the last IOCTL of its session in every continuation exactly if its task was not interrupted in that wait while the session was ready |
| PtzController.WarmIsUsed | custom_components/aqara_lanlink/ptz/controller.py:77-81 | any command that gets the lock while a session is current and ready is sent on it |
| PtzController.SpentStays | custom_components/aqara_lanlink/ptz/controller.py:77-93 | on a session once used and closed nothing is ever sent again |
| PtzController.InterruptedRecallIsFollowed | custom_components/aqara_lanlink/ptz/controller.py:95-131 | a run in which such an interruption lets a further command out on the session of the recall |
| PtzController.SessionUnderLock | custom_components/aqara_lanlink/ptz/controller.py:95-209 | session and credentials change only by the task that has the lock, or by the shutdown, and no task that is over keeps the lock |
| PtzController.OneReconnectAtATime | custom_components/aqara_lanlink/ptz/controller.py:143-153 | at most one reconnect is queued or under way |
| PtzRetry.StepOthers | custom_components/aqara_lanlink/ptz/controller.py:95-98 | while a task has the lock no other step moves it, the credentials, or what was sent |
| PtzRetry.RetryConnects | custom_components/aqara_lanlink/ptz/controller.py:82-91 | after a first rejection, whatever others do meanwhile, the task drops and renews the credentials and sends AUTH on a second session |
| PtzRetry.SecondReply | custom_components/aqara_lanlink/ptz/controller.py:88-93 | the second reply decides: the session becomes current and the command is sent on it, or the task is over |
| PtzRetry.RunAccepted | custom_components/aqara_lanlink/ptz/controller.py:66-101 | an accepted AUTH makes the session current, and a command is then sent on it |
| PtzRetry.TriesTwice | custom_components/aqara_lanlink/ptz/controller.py:77-93 | in every run a task sends AUTH on at most two sessions, on the second only after the first was rejected and the credentials were dropped and renewed |
| PtzRetry.ColdStart | custom_components/aqara_lanlink/ptz/controller.py:77-83 | without a ready session a task starts with its credentials, or fetches them; a reconnect with a session or while closing is over |
| PtzRetry.SessionGivenUp | custom_components/aqara_lanlink/ptz/controller.py:109-153 | a preset and the idle timer close and then forget the session, and only the preset queues a reconnect, under the guards of the source |
| PtzRetry.LeavesAsItWas | custom_components/aqara_lanlink/ptz/controller.py:95-209 | an interrupted task, and a plain command after its acknowledgement, change nothing but their end; what the shutdown closes |
| PtzController.PtzController.TakeLock | custom_components/aqara_lanlink/ptz/controller.py:95-98 | the stretch from getting the lock to the first await is the specified step |
| PtzController.PtzController.EnsureSession | custom_components/aqara_lanlink/ptz/controller.py:77-93 | a ready session is reused; otherwise credentials or a connection come first |
| PtzController.PtzController.DiscardSession | custom_components/aqara_lanlink/ptz/controller.py:133-141 | the session is closed before the task waits |
| PtzController.PtzController.FinishAndWarm | custom_components/aqara_lanlink/ptz/controller.py:143-153 | after a preset one reconnect is scheduled, unless one is under way or the controller closes |
| PtzController.PtzController.RunOn | custom_components/aqara_lanlink/ptz/controller.py:47-131 | each later stretch is the specified step |

## Left out

- Irreducibility of the 163-bit polynomial, associativity of point addition, primality of the order, and that the generator is on the curve and killed by the order: hypotheses (`IsField`, `IsGroup`, `Sound`) of the lemmas that need them.
- Ecdh.ComputeSharedSecret: peer coordinates of more than 163 bits are outside its domain (`PeerReduced`); the code would go on with numbers that are not field elements.
- GfInverse.GfInv: requires `a` to be coprime to `poly`, because the loop of the source does not end otherwise (`InverseLoopEnds`).
- Negative arguments of the arithmetic, and integers in JavaScript's number type: naturals throughout.
- AES, RSA and JSON: JSON enters `PtzFraming` as two functions, and the round trips ask that the one undoes the other on the body at hand.
- DeviceKey.DeriveDeviceKey: takes the bytes of the identifier; a non-ASCII identifier raises before.
- Cs2.BuildKeyTable: takes the bytes of the key; a key outside Latin-1 raises before.
- Humanize.HumanizeName: decimal digits that a version of Unicode after 15 adds.
- CameraPacket.PacketRoundTrip: the type names that `parse_packet` adds for logging; `build_rtp_header`.
- The ffmpeg process behind the encoder: its output is an arbitrary list of chunks, and whether waiting for it raises (as some Python versions do when the input is closed already) is a parameter of `Flush`.
- PtzSession.PtzSession.Connect: the packets it sends, their re-send timers, host name resolution and the trailing session bytes; what arrives before the deadline is an arbitrary list of datagrams.
- src/protocol/tunnel.js: the handshake queues `frames` and `frameWaiters`, and its own pending table, which numbers keepalives like requests and so lacks the point about number 1.
- hub/tunnel.py: the handshake payloads and the test for lost acknowledgements.
- Session.CloseFailsAll: is about the end of the stream or an error; a receive loop that is itself cancelled fails nothing, and calls begun after the loop has ended wait for their timeout.
- Session.LANLinkClient.Listen: what callbacks do; a callback that raises is caught by the source, and one that makes the report unreadable is the `faulty` case.
- Rearm.RearmManager.RearmLoop: how long a loop sleeps; it may be resumed at any later time. Discovery and activation are assumed not to swallow a cancellation.
- Watchdog.RuntimeData.WatchdogTick: a reload of the entry, which starts with fresh runtime data.
- ReportBuffer.HubCoordinator.DispatchReport: handlers that call back into the coordinator while a report is handed on, and the arm latency diagnostics.
- PtzController.PtzController.TakeLock: fairness of the lock and when the idle timer fires: any waiting task may be next, and the timer may fire at any time. Zoom tracking and the feature checks.
- src/protocol/discovery.js, the cloud client, flows, services, entity platforms, HomeKit and Matter adapters, composites and catalogues.
