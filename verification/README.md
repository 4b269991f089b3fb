# Models of libsmb2

libsmb2 is a client and a server for the SMB2 and SMB3 protocols. This project models the parts of it that stand on
their own as codecs, stream transforms and state machines, and proves what each of them is for. The code that works by
changing buffers and structures step by step is modelled so: classes with the fields of the C structures, arrays for
their buffers, loops with invariants. Beside each stands a specification, taken from the standard the code follows or
from what its interface promises, and the lemmas about that.

`dafny verify dfyconfig.toml` checks everything.

| files | of the library | what is proved |
|---|---|---|
| Numbers, Sequences, Octets | | What the others share. |
| NdrGrammar, NdrMemory, NdrWire, NdrCoder, Srvsvc, NdrLayout, SrvsvcWire | lib/dcerpc.c, lib/dcerpc-srvsvc.c | One coder both encodes and decodes; every value of a grammar has one encoding, after chapter 14 of C706, and is read back from it; requests and responses are the fields of MS-SRVS in order. |
| Buffers, Unfragment | lib/dcerpc.c | Fragments are joined in place. |
| AesField, AesTables, Aes, AesStandard | lib/aes_reference.c | The cipher is FIPS 197, and its inverse undoes it. |
| CcmSpec, Rfc3610, Ccm | lib/aes128ccm.c | Authenticated encryption over any block cipher, then with AES: round trip, tamper check, agreement with RFC 3610. |
| Hashing, Md5Steps, Md5, Md4Steps, Md4, SuiteMessage, Md5Vector, Md4Vector | lib/md5.c, lib/md4c.c | Streaming digests equal the one-shot digests of RFC 1321 and RFC 1320 for every chunking. |
| Hmac | lib/hmac.c, lib/hmac-md5.c | RFC 2104 over any streaming hash, and over MD5. |
| Errors, Preauth, Dialect, Connect, Directory, Clamp | lib/errors.c, lib/libsmb2.c, lib/socket.c | Both sides of a handshake hold the same keys; callbacks come once; listings, cursors and repeated reads are whole. |
| BerSpec, Ber, BerOid | lib/asn1-ber.c | Lengths reserved and annotated in place, numbers, object identifiers and trees come back. |
| Url | lib/init.c | The parser that cuts in place inverts the printer. |

## How to read the models

Octets are integers below 256 where the code computes with values (NDR, BER, fragments) and 8-bit vectors where it
computes with bits (ciphers and hashes). Fixed-width arithmetic is written out with its modulus wherever it can wrap.

*NDR.* A `Shape` is a grammar, a `Val` a value of it, and `Message` the octets the value has on the wire, with the
octets that alignment skips left open. The `Pdu` class is the engine: `Code` runs it in either direction on the caller's
structures, which are a sequence of cells with array pointers between them. A ghost argument says which value is being
coded, so that one contract covers both directions: encoding writes `Message`, decoding needs it and leaves the value.

*Standards.* The function that a method is proved against follows the code where that makes the proof short. What a
standard says is then stated once more without it, by octets, weights and indices: `NdrLayout` and `SrvsvcWire` for the
wire, `AesStandard`, `Rfc3610`, the test suites of RFC 1320 and RFC 1321, and the literal octets beside the BER, key
derivation and fragment models.

*Hashes.* `Hashing.Holds` is what a context keeps between two updates. MD4 and MD5 differ in how they count and in how
they pad, and share the rest. SHA-256 and SHA-512 are not part of this model; HMAC and the session keys take them as any
hash with fixed sizes.

*State machines.* In `Connect` and `Directory` the environment (statuses, allocation, authentication) is an argument of
each event, so that a statement about all events is one about all environments. The status of a reply is any 32-bit
number, and what the user is told follows from `Errors.Errno`, with the errno values of Linux.

## Where the code differs from what one might expect

* A NULL string is encoded like an empty one and comes back empty (`NdrMemory.NullStringComesBackEmpty`).
* `MD4Update` overruns its input when an update ends within 63 octets of 2^32 and a full block ends there
  (`Md4.OverrunExample`); `Md4.Bounded` is the exact condition (`Md4.BoundedExactly`).
* The server takes the last dialect of the request that it allows. The comment in lib/libsmb2.c speaks of the highest;
  `Dialect.EveryServerExactly` says which requests get it from the servers of every version setting. Requests in
  ascending order, as the library's own client sends them, do (`Dialect.OwnClientGetsHighest`).
* A read or write of no octets wraps around and asks for as much as the credits pay for (`Clamp.SentWithinRequest`).
* An object identifier comes back only if its first two elements share a single octet, and one of more than 127 content
  octets is damaged while it is written (`BerOid.WriteThenRead`).
* SMB2_STATUS_END_OF_FILE has errno 0. A server that answers a negotiate, session setup or tree connect request with it
  has the user told 0, success, without a connection (`Connect.EndOfFileTellsSuccess`, `Connect.ToldSuccess`); on a
  create, query or close request the user gets 0 with no list (`Directory.EndOfFileTellsNoList`,
  `Directory.Context.List`).
* In passthrough an interim reply, of status SMB2_STATUS_PENDING, runs the callback and leaves the request queued. The
  negotiate and session setup callbacks free their data then, and the next reply, a timeout or the end of the context
  uses it again. The data is called and freed exactly once and never touched after in every run in which no interim
  reply meets an outstanding request in passthrough, and in no other complete run (`Connect.CompleteRun`). The
  callbacks of a listing do the same with their directory (`Directory.CompleteRun`).
* A listing whose offsets wrap around 2^32 back to an earlier record never ends (`Directory.EndsExactly`).
* If the buffer ends within the conformance words of a string, a failed encoding leaves the caller's string pointer
  swapped for the conversion record (`NdrCoder.Pdu.Code`).
* `smb2_connect_share_async` leaks its connect data when no user name is set (`Connect.Context.ConnectShareAsync`).
* `asn1ber_annotate_length` and `asn1ber_save_out_state` refuse a buffer that is exactly full, so a tree needs one octet
  more than its encoding (`Ber.Need`).
* Up to dialect 2.1 a session key shorter than 16 octets leaves the end of the old signing key in place
  (`Preauth.KeysAgree`).

## Model

| member | source | states |
|---|---|---|
| Srvsvc.EncodeThenDecodeRep | lib/dcerpc-srvsvc.c:613-639 | For every NetrShareEnum response (levels 0, 1, 2 and unknown ones, any number of entries, any strings, at most 1024 deferred pointers), in NDR32 or NDR64 and in either byte order: encoding succeeds exactly when the output fits; then decoding gives the response back and ends at the encoder's offset, both sides have coded every deferred pointer, and the caller's structures, swapped string pointers included, are as before. |
| Srvsvc.EncodeThenDecodeReq | lib/dcerpc-srvsvc.c:585-612 | The same for every NetrShareEnum request. |
| SrvsvcWire.EncodeRep | lib/dcerpc-srvsvc.c:613-639 | Encoding a response fills the buffer with its fields one after another, each number in its byte order at the next multiple of its size: level, discriminant, pointer, count, pointer, array count, the shares, then all their strings, then total, resume handle and status; nothing else in the buffer changes. |
| SrvsvcWire.EncodeReq | lib/dcerpc-srvsvc.c:585-612 | The same for a request, from the server name to the resume handle. |
| SrvsvcWire.RepOnTheWire | lib/dcerpc-srvsvc.c:613-639 | For every response, offset, byte order and transfer syntax the message of the grammar is that list of fields. |
| SrvsvcWire.ReqOnTheWire | lib/dcerpc-srvsvc.c:585-612 | The same for every request. |
| NdrLayout.MessageLaid | lib/dcerpc.c:1622-2206 | Every message of every grammar is a list of numbers and alignments, laid one after another. |
| NdrLayout.AlignLeast | lib/dcerpc.c:379-509 | An aligned offset is the least multiple of the size that is not before the offset. |
| Octets.StoredAt | lib/dcerpc.c:379-434 | The octet of weight 256^k stands k octets from the front, or from the back in the other byte order. |
| Srvsvc.RepHoldsUnique | lib/dcerpc-srvsvc.c:613-639 | Memory holds at most one response at an address, so "gives the response back" leaves no choice. |
| Srvsvc.RepValInjective | lib/dcerpc-srvsvc.c:86-451 | Different responses are different values of the grammar. |
| Srvsvc.RepCounts | lib/dcerpc-srvsvc.c:613-639 | A response is a well-typed value with one array at most, and its pointer count is the one the caller can compute from level and entries. |
| Srvsvc.ReqCounts | lib/dcerpc-srvsvc.c:585-612 | The same for a request. |
| NdrCoder.RoundTrip | lib/dcerpc.c:1622-2206 | The round trip for every grammar built from integers, strings, reference and unique pointers, structures, conformant arrays and unions, not only for NetrShareEnum; if the output does not fit, whether the caller's memory is as it was. |
| NdrCoder.Pdu.Code | lib/dcerpc-srvsvc.c:585-639 | Coding a message writes, or on decoding accepts, exactly the octets of its grammar, fails exactly when they do not fit, and ends with no pointer left uncoded. A failed encoding leaves the caller's memory as it was if and only if the buffer does not end within the conformance words of a string. |
| NdrCoder.Pdu.TopPtr | lib/dcerpc.c:1776-1950 | A top-level pointer is followed by its referent and then by everything deferred; afterwards the cursor is at the end of the queue and the top-level mark is restored. |
| NdrCoder.Pdu.ProcessDeferredPointers | lib/dcerpc.c:656-673 | The queue drains first in first out although coding a referent may add to it; it terminates on the number of pointer nodes not yet coded, and each referent is coded once; a failure tells by the referent it happened in whether memory is as it was. |
| NdrCoder.Pdu.CodeNextPointer | lib/dcerpc.c:661-670 | Coding the first queued referent leaves the rest of the queue followed by the referents it deferred. |
| NdrCoder.Pdu.DoCoder | lib/dcerpc.c:1622-1638 | Two runs of one coder: the conformance run fixes the alignment, the data run starts on it, together they code the construct. |
| NdrCoder.Pdu.Run | lib/dcerpc.c:1622-1638 | One run of a coder: conformance octets and alignment, or the body, from the same traversal. |
| NdrCoder.Pdu.Fields | lib/dcerpc-srvsvc.c:86-129 | The fields of a structure in order, each with its place in the caller's memory. |
| NdrCoder.Pdu.FieldThenField | lib/dcerpc-srvsvc.c:173-193 | Coding two fields one after the other composes their octets, their deferred pointers and their memory. |
| NdrCoder.Pdu.ContainerField | lib/dcerpc-srvsvc.c:132-164 | A count, size_is when it is not zero, an allocation when decoding, and a unique pointer that is null exactly for an empty array. |
| NdrCoder.Pdu.UnionField | lib/dcerpc.c:1980-2002 | Level, repeated discriminant, alignment of the largest arm and the selected arm; an unknown level has an empty arm. |
| NdrCoder.Pdu.LevelThenSwitch | lib/dcerpc-srvsvc.c:423-443 | The discriminant that the union reads back is the level before it. |
| NdrCoder.Pdu.CarrayConformance | lib/dcerpc.c:1952-1968 | The element count goes out in the conformance run with the element alignment; the elements do not. |
| NdrCoder.Pdu.CarrayData | lib/dcerpc.c:1952-1979 | The elements in order, each at its offset in the array. |
| NdrCoder.Pdu.EncodePtr | lib/dcerpc.c:1776-1877 | Below the top level a pointer writes its referent identifier, or zero, and queues its referent. |
| NdrCoder.Pdu.DecodePtr | lib/dcerpc.c:1879-1950 | Decoding queues the same referent that encoding queued, and none for a null pointer. |
| NdrCoder.Pdu.NestedPtr | lib/dcerpc.c:2012-2025 | Both directions leave the same queue. |
| NdrCoder.Pdu.AddDeferredPointer | lib/dcerpc.c:631-640 | The referent joins the end of the queue. |
| NdrCoder.Pdu.Utf16zCoder | lib/dcerpc.c:2154-2203 | The caller's string pointer is swapped for a conversion record in the first run and swapped back in the second, whether that fails or not: encoding restores it, decoding leaves the text read. If the first run fails, the record stays. |
| NdrCoder.Pdu.EncodeUtf16 | lib/dcerpc.c:2026-2091 | Maximum count, offset and actual count of a string with its terminator, then its code units. |
| NdrCoder.Pdu.DecodeUtf16 | lib/dcerpc.c:2092-2152 | The code units read back are the text up to its terminator. |
| NdrCoder.Pdu.SwapUnits | lib/dcerpc.c:2120-2136 | In big endian the units are turned to host order where they lie, and nothing behind them changes. |
| NdrCoder.Pdu.Uint32 | lib/dcerpc.c:1641-1656 | A 32-bit integer: alignment only in the conformance run, four octets in the data run, in the byte order of the PDU. |
| NdrCoder.Pdu.Uint3264 | lib/dcerpc.c:1696-1739 | The same for an integer of four or eight octets by transfer syntax. |
| NdrCoder.Pdu.Conformance | lib/dcerpc.c:1740-1774 | Conformance words are coded in the conformance run and skipped in the data run. |
| NdrCoder.Pdu.SetUint | lib/dcerpc.c:379-434 | Alignment relative to the message, a bounds check, and the octets in the byte order; nothing else in the buffer changes. |
| NdrCoder.Pdu.GetUint | lib/dcerpc.c:446-509 | Reads back what SetUint writes, with the same alignment and the same bounds check. |
| NdrMemory.HoldsUnique | lib/dcerpc-srvsvc.c:86-451 | Memory determines the value of every grammar. |
| NdrMemory.NullStringComesBackEmpty | lib/dcerpc.c:2154-2196 | A string comes back unchanged if and only if it was not NULL; NULL comes back as the empty string. |
| NdrMemory.KidsAreRefs | lib/dcerpc.c:631-640 | The places that the coder queues are those of the referents of the value, in order, whichever side queues them. |
| NdrMemory.KidsComplete | lib/dcerpc.c:1879-1950 | Once every queued place holds its referent, the structure that queued them holds its value. |
| NdrMemory.QueueNext | lib/dcerpc.c:656-673 | Coding one referent keeps the rest of the queue codable, the memory it refers to untouched. |
| NdrGrammar.RefsPending | lib/dcerpc.c:656-673 | A value has as many pointer nodes below it as its referents have, each counted with itself. |
| NdrGrammar.NextPending | lib/dcerpc.c:656-673 | Every turn of the drain takes one pointer node off the count of those pending. |
| NdrGrammar.NextSize | lib/dcerpc-srvsvc.c:132-164 | The one size_is slot holds the right count whenever an array is coded, although the array is deferred. |
| NdrWire.UntilNulTerminated | lib/dcerpc.c:2137-2150 | Cutting a text at its first NUL gives the text. |
| NdrWire.MatchUnits | lib/dcerpc.c:2120-2136 | Unit k of a string lies at twice k octets from its start, in the byte order of the PDU. |
| Unfragment.Iovec.Unfragment | lib/dcerpc.c:1083-1140 | In place: a run of fragments becomes the first fragment followed by all later stubs and the length is their total; if the octets run out before a last fragment, the length stays; a PDU that is no response, or is already the last, is left alone. |
| Unfragment.Iovec.Gather | lib/dcerpc.c:1104-1138 | The loop ends on the octets left; unread fragments are never damaged. |
| Unfragment.Iovec.Next | lib/dcerpc.c:1108-1128 | One fragment: its stub moves down to the end of those before it. |
| Unfragment.RunHasStubs | lib/dcerpc.c:1104-1138 | Every run of fragments of at least 24 octets whose last one alone is flagged is walked to its end, whatever lies behind it. |
| Unfragment.LaidNext | lib/dcerpc.c:1119-1122 | The overlapping move leaves everything from the next offset on as it was. |
| Unfragment.Reassemble | lib/dcerpc.c:1083-1140 | For every such run in one buffer the result is the first fragment and the stubs in order. |
| Unfragment.ResponseFragment | lib/dcerpc.c:1083-1103 | Octets 2, 3 and 8 to 9 of a header are the packet type, the flags with the last-fragment bit, and the length in either byte order; the stub starts at octet 24. |
| Buffers.Memmove | lib/dcerpc.c:1119-1120 | Overlapping octets arrive unharmed. |
| AesField.FourteenIsField | lib/aes_reference.c:290-302 | smb2_Multiply by 0x0e is the product of polynomials modulo x^8 + x^4 + x^3 + x + 1. |
| AesField.ThirteenIsField | lib/aes_reference.c:290-302 | The same for 0x0d. |
| AesField.ElevenIsField | lib/aes_reference.c:290-302 | The same for 0x0b. |
| AesField.NineIsField | lib/aes_reference.c:290-302 | The same for 0x09. |
| AesField.TwiceIsField | lib/aes_reference.c:270-273 | smb2_Multiply by 0x02, which is one smb2_xtime, is the product in the field. |
| AesField.XTimeLinear | lib/aes_reference.c:270-273 | xtime distributes over exclusive or. |
| AesField.MixIsStandard | lib/aes_reference.c:276-288 | A byte of smb2_MixColumns is the row {02} {03} {01} {01} of section 5.1.3 of FIPS 197 times the column. |
| AesField.UnmixIsStandard | lib/aes_reference.c:314-331 | A byte of smb2_InvMixColumns is the row {0e} {0b} {0d} {09} of section 5.3.3. |
| AesField.UnmixMix | lib/aes_reference.c:276-331 | Mixing and unmixing any column gives it back, by linearity. |
| AesTables.SBoxInverse | lib/aes_reference.c:66-108 | The inverse table undoes the table for every octet. |
| AesTables.SBoxIsStandard | lib/aes_reference.c:66-86 | Each entry is the affine map of section 5.1.1 of FIPS 197 applied to the inverse in the field. |
| AesTables.RconPowers | lib/aes_reference.c:110-130 | Rcon[i] is the power i - 1 of {02}. |
| Aes.KeyExpansion | lib/aes_reference.c:146-209 | The round keys are the words of the recurrence of section 5.2 of FIPS 197. |
| Aes.NextWord | lib/aes_reference.c:163-208 | One turn of the second loop adds the next word and keeps the others. |
| Aes.AddRoundKeyTo | lib/aes_reference.c:213-223 | Section 5.1.4, in place. |
| Aes.SubBytesOf | lib/aes_reference.c:227-237 | Section 5.1.1, in place, in the order of the loops. |
| Aes.InvSubBytesOf | lib/aes_reference.c:335-345 | Section 5.3.2, in place. |
| Aes.ShiftRowsOf | lib/aes_reference.c:242-268 | The twelve swaps move row r by r columns to the left. |
| Aes.InvShiftRowsOf | lib/aes_reference.c:347-373 | The twelve swaps move row r by r columns to the right. |
| Aes.MixColumnsOf | lib/aes_reference.c:276-288 | Every column mixed, with the sum of a column taken once. |
| Aes.InvMixColumnsOf | lib/aes_reference.c:314-331 | Every column unmixed. |
| Aes.CipherOn | lib/aes_reference.c:377-400 | Figure 5 of FIPS 197, in place. |
| Aes.InvCipherOn | lib/aes_reference.c:402-425 | Figure 12 of FIPS 197, in place. |
| Aes.InvRoundsRetrace | lib/aes_reference.c:377-425 | After each inverse round the state is the one the cipher had, back through every round. |
| Aes.InvCipherUndoes | lib/aes_reference.c:377-425 | Whatever the 176 octets of round keys are, the inverse cipher undoes the cipher. |
| Aes.InvMixColumnsUndoes | lib/aes_reference.c:276-331 | On whole states. |
| Aes.Encrypt | lib/aes_reference.c:444-456 | AES-128 of one block; the output may be the input. |
| Aes.Decrypt | lib/aes_reference.c:458-470 | The inverse of one block; the output may be the input. |
| Aes.DecryptUndoesEncrypt | lib/aes_reference.c:444-470 | For every key and block, decryption undoes encryption. |
| AesStandard.EncryptedIsStandard | lib/aes_reference.c:146-400 | The cipher octet by octet: the key schedule, and in each round row r of the matrix of section 5.1.3 of FIPS 197 times the substituted octets that have moved into the column, combined with the round key; the last round does not mix. |
| AesStandard.ScheduleOctets | lib/aes_reference.c:146-209 | Octet j of word i is octet j of word i - 4 combined with that of word i - 1, or in every fourth word with the substituted octet j + 1 and the round constant. |
| AesStandard.AppendixA1 | lib/aes_reference.c:146-209 | Word 4 of the example in appendix A.1 of FIPS 197. |
| Ccm.Encrypt | lib/aes128ccm.c:154-167 | p becomes the payload combined with the key stream and m the sealed tag of the payload, for every key, nonce of at most 15 octets, tag of at most 16, associated data and payload. |
| Ccm.Decrypt | lib/aes128ccm.c:169-185 | p becomes the plaintext, and the result is 0 if and only if m is the sealed tag of that plaintext. |
| Ccm.RoundTrip | lib/aes128ccm.c:154-185 | Decrypting what Encrypt left restores the payload and returns 0. |
| Ccm.GenerateB0 | lib/aes128ccm.c:38-54 | The first block as built: flags, nonce, and what the nonce leaves of the 32-bit length. |
| Ccm.GenerateT | lib/aes128ccm.c:65-117 | The tag is the CBC-MAC over B_0, the associated data and the payload. |
| Ccm.AbsorbAad | lib/aes128ccm.c:77-103 | A two-octet length and 14 octets first, then blocks of 16, is the padded encoding as a whole. |
| Ccm.AbsorbPayload | lib/aes128ccm.c:105-115 | Blocks of 16 with a short last one are the padded payload as a whole. |
| Ccm.GenerateS | lib/aes128ccm.c:119-133 | A key block, encrypted in place. |
| Ccm.Crypt | lib/aes128ccm.c:135-152 | The payload is combined with the key stream block by block, in place. |
| Ccm.Bxory | lib/aes128ccm.c:56-63 | Exclusive or of a stretch; nothing else changes. |
| CcmSpec.CryptedTwice | lib/aes128ccm.c:135-152 | Encryption is its own inverse, over any block cipher and any length. |
| CcmSpec.CryptedAt | lib/aes128ccm.c:135-152 | Octet k of the result is octet k of the payload and octet k mod 16 of key block k div 16 + 1. |
| Rfc3610.FirstBlockIs | lib/aes128ccm.c:38-54 | For nonces of 7 to 13 octets and payloads that fit the length field the first block is B_0 of section 2.2 of RFC 3610, octet by octet. |
| Rfc3610.CounterBlockIs | lib/aes128ccm.c:119-133 | The counter block is A_i of section 2.3, octet by octet. |
| Rfc3610.CryptedIsRfc | lib/aes128ccm.c:135-152 | Octet k of the ciphertext is the payload octet combined with octet k of S_1, S_2, ... one after another. |
| Rfc3610.SealedTagIsRfc | lib/aes128ccm.c:65-167 | For associated data shorter than 0xFF00, the tag that travels is the value U of the RFC: the chain over B_0, the blocks of the associated data and then those of the payload, each block given by its octets, combined with S_0. |
| Rfc3610.PacketVector1 | lib/aes128ccm.c:38-54 | B_0 and A_1 of packet vector 1, section 8 of RFC 3610. |
| Md5.Context.Update | lib/md5.c:72-106 | For every split, after an update the chain is that of the full blocks so far, the rest waits in the buffer, and the two counters are the length modulo 2^64. |
| Md5.Context.Final | lib/md5.c:112-142 | The digest of section 3 of RFC 1321, whether the padding fits the block or spills into a second. |
| Md5.Context.Pad | lib/md5.c:114-128 | Both padding cases put the one bit and the zeros of section 3.1 behind the message. |
| Md5.Context.Count | lib/md5.c:77-79 | The carry into the high counter keeps the pair equal to the length modulo 2^64. |
| Md5.BitLength | lib/md5.c:133-135 | The two appended words are eight times the length modulo 2^64. |
| Md5.HashInPieces | lib/md5.c:56-143 | One digest whatever way the message is cut into updates. |
| Md5Steps.Transform | lib/md5.c:165-247 | The 64 unrolled steps are the steps of section 3.4 of RFC 1321 by index, shift and table. |
| Md5Vector.SuiteDigest | lib/md5.c:165-247 | The digest that section A.5 of RFC 1321 gives for the letters and digits, a message of two blocks. |
| Hashing.RotatedBits | lib/md5.c:157-158 | Bit k of a word is bit k + n, around the word, of the rotated one, for every distance. |
| Md5Steps.F1IsAuxiliary | lib/md5.c:146-154 | The optimised selection is the function F of the RFC. |
| Md5Steps.StepReassociated | lib/md5.c:156-158 | The order of additions in MD5STEP makes no difference. |
| Hashing.FourSteps | lib/md5.c:174-241 | Four steps bring every register back to its place. |
| Hashing.HoldsMore | lib/md5.c:82-86 | Data short of a block only joins the buffer. |
| Hashing.HoldsFull | lib/md5.c:87-102 | Data that completes a block goes into the chain with what was waiting. |
| Hashing.HoldsPadded | lib/md5.c:112-143 | Once the padded message is in, the chain is the digest. |
| Md4.Context.Update | lib/md4c.c:109-142 | As for MD5, with a bit count in two words; the requirement is the exact bound below which the loop test does not wrap. |
| Md4.Context.Final | lib/md4c.c:147-170 | The digest of section 3 of RFC 1320, through two more updates. |
| Md4.Context.Blocks | lib/md4c.c:127-131 | The loop takes every full block of the input and no more. |
| Md4.BitsGrow | lib/md4c.c:116-120 | Adding length << 3 with its carry and length >> 29 keeps the pair equal to eight times the length modulo 2^64. |
| Md4.BoundedExactly | lib/md4c.c:130-131 | The loop, at every position it comes to, goes on exactly if a full block of the input is left, if and only if the bound holds; beyond the bound it comes to the end of the last full block and overruns. |
| Md4.OverrunExample | lib/md4c.c:130-131 | An update of 2^32 - 1 octets onto 63 waiting ones does that. |
| Md4.BeforeEnd | lib/md4c.c:130-131 | Within the bound the test holds exactly when a full block is left. |
| Md4.HashInPieces | lib/md4c.c:93-170 | One digest whatever way the message is cut into updates that keep the bound. |
| Md4Steps.Transform | lib/md4c.c:174-242 | The 48 unrolled steps are those of section 3.4 of RFC 1320. |
| Md4Vector.SuiteDigest | lib/md4c.c:174-242 | The digest that section A.5 of RFC 1320 gives for the same message. |
| Md4Steps.Decode | lib/md4c.c:262-269 | The block as little-endian words. |
| Hmac.Context.Reset | lib/hmac.c:82-147 | For keys shorter than, equal to and longer than a block the pads are those of section 2 of RFC 2104, and the inner pad has gone in. |
| Hmac.Context.Input | lib/hmac.c:169-176 | Input joins the text. |
| Hmac.Context.Result | lib/hmac.c:227-245 | H((K^opad) and H((K^ipad) and text)), although the caller's digest holds the inner hash meanwhile. |
| Hmac.Context.FillPads | lib/hmac.c:131-146 | Both loops together XOR the whole padded key. |
| Hmac.MacInPieces | lib/hmac.c:82-245 | One value whatever way the text is cut into inputs. |
| Hmac.Whole | lib/hmac.c:52-60 | hmac in one call. |
| Hmac.MacIsStandard | lib/hmac.c:82-245 | H(K XOR opad, H(K XOR ipad, text)) with the pads 0x5c and 0x36 over the octets of the key. |
| Hmac.HmacMd5 | lib/hmac-md5.c:21-84 | smb2_hmac_md5 is the RFC 2104 form over the MD5 specification. |
| Hmac.Md5Pad | lib/hmac-md5.c:52-63 | A pad of 65 octets of which 64 are used. |
| Hmac.ZerosChangeNothing | lib/hmac.c:131-146 | Zeros at the end of a short key change nothing. |
| Preauth.Handshake | lib/libsmb2.c:571-1056 | For every number of MORE_PROCESSING rounds over a faithful channel and one session key, a client and a signing server that both get through hold the same three keys from 3.0 on, derived from the chain over all messages but the final success reply; up to 2.1 the same signing key, for a session key of less than 16 octets if and only if the octets behind were the same on both sides. The HMAC input of each key is written out octet by octet for 3.0 and 3.0.2, and for 3.1.1. A sealing server does not sign, and a server that does not sign derives nothing. |
| Preauth.Rounds | lib/libsmb2.c:692-705 | Round by round both sides have hashed the same messages. |
| Preauth.KeysAgree | lib/libsmb2.c:625-681 | Keys depend on dialect, session key and hash alone; for 2.0.2 and 2.1 with a short session key, exactly when the rest of the old signing keys agreed. |
| Preauth.KeysByDialect | lib/libsmb2.c:625-681 | Which keys belong to which dialect: the session key itself up to 2.1; labels and fixed contexts for 3.0 and 3.0.2; other labels and the hash for 3.1.1; the input of every key octet by octet. |
| Preauth.SameKeysOn302 | lib/libsmb2.c:636-656 | The keys of 3.0.2 are those of 3.0, whatever was hashed and whatever the keys were. |
| Preauth.HashOfFive | lib/libsmb2.c:600-623 | The hash after a handshake of one round, in full: from 64 zeros, each time of the hash so far followed by the message. |
| Preauth.TranscriptOfOne | lib/libsmb2.c:692-705 | The order of the messages of a handshake of one round. |
| Preauth.UsableKeyIs | lib/libsmb2.c:742-746 | A session key is usable if one of its first sixteen octets is not zero. |
| Preauth.WillSignBy | lib/libsmb2.c:3975-3990 | A server signs if the client requires it, or for an authenticated client of 2.1 or 3.1.1. |
| Preauth.Peer.CreateSigningKey | lib/libsmb2.c:625-681 | The branch of each dialect. |
| Preauth.Peer.DeriveKey | lib/libsmb2.c:571-598 | The KDF in counter mode over HMAC-SHA-256: first 16 octets, labels with their terminators. |
| Preauth.Peer.UpdatePreauthHash | lib/libsmb2.c:608-623 | The chain goes on by one message, however it is cut into vectors, with the old hash in the way of the new. |
| Preauth.Peer.ClientSendsNegotiate | lib/libsmb2.c:1047-1055 | The client starts its chain with its negotiate request. |
| Preauth.Peer.ClientTakesNegotiateReply | lib/libsmb2.c:865-925 | The reply is hashed before its content is judged; when the client refuses, and whether it signs. |
| Preauth.Peer.ClientFinishes | lib/libsmb2.c:718-770 | The success reply is not hashed; keys are derived if the client signs, seals or speaks 3.1.1. |
| Preauth.Peer.ServerNegotiates | lib/libsmb2.c:3949-4046 | Chain and signing decision of the server. |
| Preauth.Peer.ServerSetsUp | lib/libsmb2.c:3645-3841 | Keys are derived after the request is hashed and before the reply is. |
| Dialect.Choose | lib/libsmb2.c:3872-3941 | The nested loops find the last allowed dialect of the request. |
| Dialect.AllowedDialects | lib/libsmb2.c:3872-3896 | The dialects of each version setting. |
| Dialect.EveryServerExactly | lib/libsmb2.c:3872-3934 | A request gets the highest common dialect from the servers of every version setting if and only if, on each of the three lists of the settings, every dialect that stands before a lower one of the list is followed later still by one at least as high. |
| Dialect.HighestWhenSettled | lib/libsmb2.c:3921-3934 | The same for one list of allowed dialects, whatever it is. |
| Dialect.AscendingExactly | lib/libsmb2.c:3921-3934 | For any list of allowed dialects, not only those of the version settings: a request without repetitions gets the highest from all of them if and only if it is in ascending order. |
| Dialect.UnorderedRequest | lib/libsmb2.c:3872-3934 | 3.0.2, 2.1, 3.1.1 is not in ascending order and still gets the highest from the server of every version setting. |
| Dialect.HighestExactly | lib/libsmb2.c:3872-3934 | For one server: the choice is the highest common dialect if and only if no higher allowed one stands earlier in the request. |
| Dialect.DescendingRequest | lib/libsmb2.c:3872-3934 | A request that lists 3.1.1 before 3.0.2 gets 3.0.2, against the comment in the code. |
| Dialect.OwnClientGetsHighest | lib/libsmb2.c:1004-1043 | Between a client and a server of this library the choice is the highest common dialect, and none is chosen only if there is none. |
| Dialect.LastCommonIsCommon | lib/libsmb2.c:3921-3941 | What is chosen is common; nothing is chosen only if nothing is common. |
| Connect.Context.Run | lib/libsmb2.c:551-1056 | For every run of events the connect data is held exactly once until it is called exactly once and freed exactly once, and it is never touched after that unless an interim reply struck. |
| Connect.CompleteRun | lib/init.c:313-352 | After the context is destroyed the user has been told exactly once, unless an interim reply struck: then the freed data is used again. |
| Connect.StruckExactly | lib/socket.c:776-793 | An interim reply strikes exactly in passthrough, while a request is outstanding: its callback runs but it stays queued. |
| Connect.InterimReplyStrikes | lib/socket.c:776-793 | The shortest such run: SMB2_STATUS_PENDING for the negotiate request, then the end of the context. |
| Connect.Context.Interim | lib/socket.c:776-793 | An interim reply changes nothing outside passthrough; in passthrough the callback runs on an outstanding request, which stays queued. |
| Connect.Context.RunCallback | lib/socket.c:789-793 | pdu->cb on connect data that is alive does what its phase says; on data that is gone it counts as a late use. |
| Connect.Context.ConnectShareAsync | lib/libsmb2.c:1058-1151 | On 0 the chain has started, or has ended already with one callback; on an error no callback comes and the data is freed, except that it leaks when there is no user name. |
| Connect.Context.OnConnect | lib/libsmb2.c:989-1056 | connect_cb: one of callback and free, or the next request. |
| Connect.Context.OnNegotiate | lib/libsmb2.c:865-987 | negotiate_cb: the same. |
| Connect.Context.OnSessionSetup | lib/libsmb2.c:683-815 | session_setup_cb: the same, with every branch from MORE_PROCESSING to passthrough; MORE_PROCESSING without a token is a failure. |
| Connect.Context.OnTreeConnect | lib/libsmb2.c:551-569 | tree_connect_cb: one callback, then one free. |
| Connect.Context.SendSessionSetup | lib/libsmb2.c:818-863 | It queues exactly one request or none; it never calls or frees. |
| Connect.Context.DestroyContext | lib/init.c:313-381 | Destroying the context completes every chain, and what it frees at the end is no longer this data. |
| Connect.ToldSuccess | lib/libsmb2.c:551-815 | For every run: the user is told 0 if and only if every step succeeded, up to the tree connect, or the session setup in passthrough, or the reply that ended the run had status SMB2_STATUS_END_OF_FILE. |
| Connect.EndOfFileTellsSuccess | lib/libsmb2.c:876-886 | That reply to the negotiate request: the user is told 0 without a session. |
| Connect.AnyRoundsSucceed | lib/libsmb2.c:683-815 | Any number of session setup rounds with good replies ends in code 0. |
| Connect.FailuresTold | lib/libsmb2.c:551-1056 | What the user is told of each failure on the way. |
| Errors.NoErrno | lib/errors.c:1068-1191 | Of all statuses only SMB2_STATUS_SUCCESS and SMB2_STATUS_END_OF_FILE have errno 0. |
| Directory.Context.List | lib/libsmb2.c:335-456 | For every run of events, interim replies, timeouts and the end of the context included, over any number of batches: the callback gets the list exactly when every request is answered as it should be, and then the list is all entries received, last first, with the cursor at its start; it is told 0 without the list exactly when a reply of status SMB2_STATUS_END_OF_FILE ended the run. It comes once at most, the directory is freed then unless it got the list, and it is never touched after that unless an interim reply struck. |
| Directory.ListedExactly | lib/libsmb2.c:335-456 | On the replies alone: an opened directory, any number of well-formed batches, the end of them and the close give the list of all their entries, and no other replies give a list. |
| Directory.ToldZeroExactly | lib/libsmb2.c:335-437 | On the replies alone: the run came as far as a request that was answered with SMB2_STATUS_END_OF_FILE. |
| Directory.CompleteRun | lib/init.c:325-344 | After the context is destroyed the user has been told exactly once, unless an interim reply struck: then the freed directory is used again. |
| Directory.StruckExactly | lib/socket.c:776-793 | An interim reply strikes exactly in passthrough, while a request is outstanding. |
| Directory.InterimReplyStrikes | lib/socket.c:776-793 | The shortest such run: SMB2_STATUS_PENDING for the create request, then the end of the context. |
| Directory.Context.Interim | lib/socket.c:776-793 | An interim reply changes nothing outside passthrough; in passthrough the callback runs and its request stays queued. |
| Directory.Context.RunCallback | lib/socket.c:789-793 | pdu->cb on a directory that is there does what its phase says; on one that is gone it counts as a late use. |
| Directory.Context.OpendirAsync | lib/libsmb2.c:458-505 | The create request is queued with a fresh directory, or nothing is and an allocated directory is freed without a callback. |
| Directory.EndOfFileTellsNoList | lib/libsmb2.c:422-437 | That status for the create request: code 0 and no list, whatever follows. |
| Directory.FailuresTold | lib/libsmb2.c:335-456 | What the user is told of each failure on the way. |
| Directory.EntryOfRecord | lib/libsmb2.c:304-326 | Name, number and size of an entry; a reparse point is a link whatever else it is. |
| Directory.SmbDir.DecodeDirents | lib/libsmb2.c:277-333 | Entries along the chain of 32-bit offsets are put in front one by one; the chain is refused exactly when it leaves the buffer. |
| Directory.EndsExactly | lib/libsmb2.c:285-330 | The loop over the entries ends if and only if the chain does not come back, by wrapping around 2^32, to an offset it has been at. |
| Directory.NoWrapEnds | lib/libsmb2.c:285-330 | A chain of which no step taken wraps around ends. |
| Directory.TwoRecordsLoop | lib/libsmb2.c:328-330 | Two records that point at each other keep the loop going for ever. |
| Directory.SmbDir.OnQuery | lib/libsmb2.c:355-420 | query_cb: another query, the close, or one callback without the list and one free, whatever the errno of the status. |
| Directory.SmbDir.OnCreate | lib/libsmb2.c:422-456 | opendir_cb: the first query, or one callback without the list and one free. |
| Directory.SmbDir.OnClose | lib/libsmb2.c:335-353 | od_close_cb: one callback; the list is given and kept only for SMB2_STATUS_SUCCESS. |
| Directory.SmbDir.Seek | lib/libsmb2.c:216-230 | Past the end and from a negative position the cursor goes to the end; otherwise to the position. |
| Directory.SmbDir.Read | lib/libsmb2.c:252-266 | The entry at the index, or nothing at the end; the cursor stays the entry at the index. |
| Directory.SmbDir.Rewind | lib/libsmb2.c:241-249 | Back to the first entry. |
| Directory.SmbDir.ReadMany | lib/libsmb2.c:252-266 | Reads give the entries from the index on, in order. |
| Directory.SmbDir.SeekToTold | lib/libsmb2.c:216-266 | Seeking to a told position makes the reads repeat, wherever the cursor went in between. |
| Directory.AlongNext | lib/libsmb2.c:285-330 | One record goes from the chain ahead to the front of the list, and the loop goes on exactly until the step at which the chain ends. |
| Clamp.Length | lib/libsmb2.c:1492-1510 | The 32-bit arithmetic comes to the least of the request, the maximum and the credits, and wraps for an empty request. |
| Clamp.ClampedBounds | lib/libsmb2.c:1492-1510 | With count, maximum and credits of at least one: at least one octet, within request and maximum, at most 65536 on 2.0.2, and otherwise charged at most min(credits, 1008), with no overflow. |
| Clamp.ClampedIsLargest | lib/libsmb2.c:1486-1510 | The length is the largest that the request, the server and the credits allow. |
| Clamp.OverwrittenAt | lib/libsmb2.c:1557-1664 | Written data stands at its place and the rest of the file stays. |
| Clamp.SentWithinRequest | lib/libsmb2.c:1492-1510 | The length stays within the request exactly when something is asked for and allowed, or the dialect is 2.0.2, or the limit itself is. |
| Clamp.EmptyRead | lib/libsmb2.c:1492-1510 | A read of no octets on 3.1.1 with one credit asks for 65536. |
| Clamp.FileHandle.Read | lib/libsmb2.c:1438-1459 | A read returns the slice at the offset and moves the offset past it. |
| Clamp.FileHandle.ReadSome | lib/libsmb2.c:1438-1548 | Reads of any sizes add up to the file as far as the offset. |
| Clamp.FileHandle.ReadToEnd | lib/libsmb2.c:1438-1548 | Reading until nothing comes gives the whole file. |
| Clamp.FileHandle.Write | lib/libsmb2.c:1557-1664 | A write stores what the server takes at the offset and moves past it. |
| Clamp.FileHandle.WriteAll | lib/libsmb2.c:1557-1664 | Writing on until the buffer is done puts all of it at the offset. |
| Ber.Context.Write | lib/asn1-ber.c:85-210 | Writing a tree by typecode, mark, reserve, contents and annotation gives its definite-length encoding (section 8.1.3 of X.690), and succeeds exactly when the buffer has the room that Need computes, one octet more than it fills. |
| Ber.WriteThenRead | lib/asn1-ber.c:85-210 | A tree written in place is read back from the same buffer, whenever the room that Need computes is there. |
| Ber.ReadTrees | lib/asn1-ber.c:200-210 | Header by header ber_typelen_from_ber finds the trees that were written, nested ones included. |
| Ber.Context.AnnotateLength | lib/asn1-ber.c:95-125 | With a large enough reserve the length replaces it and the contents close up to it; with a smaller one the length goes over the first contents and the head ends up behind the last; it fails exactly when the buffer is full. |
| Ber.Context.FromLength | lib/asn1-ber.c:684-727 | Short form below 128, otherwise the fewest octets; all of it or a failure. |
| Ber.Context.FromTypelen | lib/asn1-ber.c:749-766 | Tag and length. |
| Ber.Context.FromBytes | lib/asn1-ber.c:1052-1072 | Tag, length and contents. |
| Ber.Context.FromUint32 | lib/asn1-ber.c:816-845 | The number in as few octets as it needs, zero in four. |
| Ber.Context.UintSize | lib/asn1-ber.c:822-829 | The shifting loop counts the octets in use. |
| Ber.Context.ReserveLength | lib/asn1-ber.c:729-742 | So many zeros, or a failure. |
| Ber.Context.LengthFromBer | lib/asn1-ber.c:127-170 | Reads what ReadLength finds, and fails exactly when it finds nothing. |
| Ber.Context.TypecodeFromBer | lib/asn1-ber.c:172-198 | One octet, or the second after an escape, less 0x30 if it is that large. |
| Ber.Context.TypelenFromBer | lib/asn1-ber.c:200-210 | Both in turn. |
| Ber.Context.Uint32FromBer | lib/asn1-ber.c:337-400 | Type, length 1 to 4 and value. |
| BerSpec.LengthRoundTrip | lib/asn1-ber.c:127-170 | For every 32-bit length the reader finds the writer's length, whatever follows. |
| BerSpec.LengthByRange | lib/asn1-ber.c:684-727 | The octets of every length, by range. |
| BerSpec.SequenceOctets | lib/asn1-ber.c:95-125 | The nine octets of a sequence of an octet string and an integer. |
| BerSpec.EscapedTypecode | lib/asn1-ber.c:172-198 | What is made of an escape and the octet after it. |
| Ber.UintByRange | lib/asn1-ber.c:816-845 | The octets of every number, by range. |
| BerOid.MicrosoftOid | lib/asn1-ber.c:979-1049 | The nine octets of 1.3.6.1.4.1.311. |
| BerSpec.ReadUndoes | lib/asn1-ber.c:85-210 | Reading the encodings of any trees header by header gives the trees back. |
| BerSpec.TreeRoundTrip | lib/asn1-ber.c:85-210 | The same for one tree. |
| BerSpec.TypelenRoundTrip | lib/asn1-ber.c:200-210 | For every single-octet tag. |
| Ber.UintRoundTrip | lib/asn1-ber.c:816-845 | Every 32-bit number comes back, zero included, for the types the reader takes. |
| Ber.BranchWritten | lib/asn1-ber.c:95-125 | The annotated contents and the tag before them are the encoding. |
| Ber.ClosesUp | lib/asn1-ber.c:112-123 | The overlapping move leaves length and contents side by side. |
| Ber.CountFromShift | lib/asn1-ber.c:822-829 | A number that fills the top octet after k shifts has 4 - k octets. |
| BerOid.WriteThenRead | lib/asn1-ber.c:979-1049 | An identifier written into a buffer is read back from it if and only if it survives: 2 to 31 elements, the second below 40, 40 times the first plus the second below 128, and at most 32 content octets. It is written exactly if it has fewer than 32 elements and there is room. |
| BerOid.OidComesBack | lib/asn1-ber.c:538-623 | The same on the encoding, for contents that take one length octet. |
| BerSpec.OidRoundTrip | lib/asn1-ber.c:538-623 | The same on the content octets. |
| BerSpec.SingleOidIsMinimal | lib/asn1-ber.c:928-977 | No identifier starts with an empty group (section 8.19.2 of X.690). |
| BerSpec.ReadArcsUndoes | lib/asn1-ber.c:928-977 | Arcs of any 32-bit values are read back from their groups. |
| BerOid.FiveGroups | lib/asn1-ber.c:928-977 | The five conditional octets are the groups without the leading empty ones. |
| BerOid.FromOid | lib/asn1-ber.c:979-1049 | 32 elements and more are refused; otherwise it succeeds exactly when tag, length octet, contents and one more octet fit. Contents below 128 octets are written whole; longer ones lose their first octet to the second length octet. |
| BerOid.FromSingleOid | lib/asn1-ber.c:928-977 | One arc, all of it or a failure. |
| BerOid.FromElements | lib/asn1-ber.c:1016-1044 | The joint first group and the loop. |
| BerOid.NextArc | lib/asn1-ber.c:587-609 | One arc read octet by octet, ending with the contents if they end first. |
| BerOid.NextArcs | lib/asn1-ber.c:584-616 | All arcs, if they fit the element array. |
| BerOid.OidFromBer | lib/asn1-ber.c:538-623 | Reads what ReadOid finds, and fails exactly when it finds nothing. |
| Url.UrlRoundTrip | lib/init.c:179-254 | Printing parts and parsing the result comes back if and only if no part holds a character that would end it or pass for an absent part, and none a question mark. |
| Url.PrintParses | lib/init.c:211-251 | Canonical parts are parsed from what they print. |
| Url.ParsePrints | lib/init.c:211-251 | What is parsed prints the body again and is canonical. |
| Url.WholeUrl | lib/init.c:202-251 | Where each part of a URL stands, for one with every part and one with only a server and a share. |
| Url.ParseUrl | lib/init.c:179-254 | Cutting a copy of at most 1023 characters in place computes the parse; no scheme, too long, bad arguments and no slash give nothing. |
| Url.ParseBody | lib/init.c:202-251 | Domain and user count only before the first slash. |
| Url.ParseFolder | lib/init.c:228-251 | Server, share and path by successive cuts. |
| Url.CutPart | lib/init.c:216-226 | A separator counts exactly if the string from it is longer than from the first slash. |
| Url.CutOff | lib/init.c:216-226 | A NUL over the separator ends the part and leaves the rest. |
| Url.PrintThenParse | lib/init.c:179-254 | In place, for canonical parts below 1024 characters. |

## Left out

- Ccm.Crypt: does not model that the index `j * 16` is an `int`, which overflows beyond 2^31 octets of payload; counters and indices are unbounded here, and the counter block takes the counter modulo 2^32.
- Ber.Context.Write: requires reserves that are large enough; the callers in lib/spnego-wrapper.c reserve five octets.
- Ber.ReadTrees: the loop over a body is the reader's own; the library's callers walk the trees they expect by hand.
- Url.ParseUrl: takes the verdict on the arguments after the question mark as a parameter; the options they set are not modelled.
- Unfragment.Iovec.Unfragment: requires length fields of at least 24 that stay within the buffer. The header that the loop decodes again over the first fragment is only read, so it changes no octet and is not modelled.
- Directory.SmbDir.DecodeDirents: requires that the chain of offsets ends, as nothing comes after a loop that does not; the record decoder is a parameter that always finds a record, where the code goes on with the previous one if a name does not fit; times are not copied, and allocation does not fail.
- Directory.Context.RunCallback: does not follow what a callback does with a directory that was freed; the use is counted.
- Directory.Context.OpendirAsync: does not model the variant that hands the PDU to its caller, with a function of the caller's to free it.
- Directory.Context.List: other requests of the same context and user callbacks that close the directory from inside the callback are not modelled.
- Preauth.Peer.ClientFinishes: a session key of less than 16 zeros is unusable here, where the code compares 16 octets whatever the size of the key.
- Preauth.Handshake: takes messages, session key and authentication results as given; the signature on the final reply is not computed.
- Preauth.Peer.ServerSetsUp: NTLMSSP and Kerberos are a session key and a verdict.
- Connect.Context.RunCallback: does not follow what a callback does with data that was freed; the use is counted.
- Connect.Context.Run: user callbacks that start or destroy connections from inside the callback are not modelled.
- NdrCoder.Pdu.Code: PTR_FULL, which decoding does not implement, context handles, UUIDs and the YAML coders are not modelled; strings are UTF-16 units without NUL, their conversion from UTF-8 being taken as exact.
- NdrCoder.Pdu.TopPtr: null top-level pointers and coders other than those of the NetrShareEnum grammar's constructs are not modelled.
- The bind exchange and its decoder, which the code leaves unfinished.
- dcerpc_uint64_coder, whose encoder writes 32 bits.
- The BER encoders for signed and 64-bit integers, which do not round trip on their whole domain.
- The WORDS_BIGENDIAN build of MD5: the context is modelled by the octets that are hashed.
- CBC mode of the AES reference code, SHA-1, SHA-2, SPNEGO, PDU encoding, sockets and transports.
- Freeing of memory except for connect data and directory handles; clearing of contexts except for the MD4 and MD5 counters.
- Null context pointers, which every entry point refuses.
