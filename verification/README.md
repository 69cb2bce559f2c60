# drew: verified models of the block ciphers, the modes and the hash framework

drew is a cryptography library whose plugins implement block ciphers, modes of operation, hash functions and stream
ciphers in C and C++. This project models the parts of it where the written code is furthest from the standard it
implements, and proves the distance away: two table-driven and one carry-less GF(2^128) multiplier, the GCM, CTR, OFB
and CFB contexts with their buffering and fast paths, the buffering, counting and padding of the hash template, and
eight block ciphers (AES, Rijndael with five block sizes, ARIA, Camellia, DES and triple DES, MARS, SAFER, Serpent)
with their key schedules.

Code that works in place is modelled in place: the contexts are classes with the source's fields, the block routines
are methods over arrays, and `out` may be `inp` wherever the source allows it. Each is proved against a specification
function on values, and the properties are proved of those functions, of the methods, or of methods that run several
of them one after the other. An inverse or a round trip holds for any round function; so further lemmas say in bits, in
numbers or in field elements what the round functions, boxes, tags and constants are, as their standards do. Ghost
fields hold the history of a stream (`ct`, `aad`, `msg`, `used`).

The block cipher under a mode, and the compression function of a hash, are arbitrary functions. Machine words are bit
vectors; sizes that the code lets wrap (`len0`, `len1`, `boff` in CFB, `len << 3`) wrap in the model.

| files | part of drew |
|---|---|
| Words, Bits, Quads, Rotates, RotatedBits, Numbers, LongNumbers, Arithmetic, Linear, Endian | words, bytes, byte orders, sums over bits, the numbers of words |
| GF128, GcmTables, GcmPclmul | the field of GCM and its three multipliers |
| GcmSpec, GcmCounter, GcmTag, Gcm, GcmMessage, GcmRuns | the GCM context, the standard, whole messages |
| Calls | sequences of calls on a context |
| Keystream, Counter, CopyXor, Ctr, Ofb, StreamRuns | keystream modes |
| CfbSpec, Cfb, CfbRuns | cipher feedback with any feedback width |
| Hash, HashRuns | the hash template |
| Sbox, SboxField, RijndaelSpec, AesTables, Aes, Rijndael, SameCipher | AES and Rijndael |
| AriaSbox, AriaSpec, AriaKeys, Aria | ARIA and its two key schedules |
| CamelliaSpec, Camellia, CamelliaTables, CamelliaBox, CamelliaLayers | Camellia; its tables, box and constants against RFC 3713 |
| DesSpec, Des | DES and triple DES |
| DesPermutation, DesRounds, DesBoxes, DesStandard | the source's boxes, permutations and rounds against FIPS 46-3 |
| MarsBits, MarsSpec, MarsKeys, MarsNumbers, Mars | MARS |
| SaferTables, SaferSpec, SaferRounds, Safer | SAFER K and SK |
| SerpentBoxes, SerpentSpec, SerpentBits, Serpent | Serpent |

`dafny verify dfyconfig.toml` checks everything.

## Model

| member | source | states |
|---|---|---|
| `GF128.MulComm` | impl/mode/gcm.cc:129-147 | the product of section 6.3 of SP 800-38D commutes, which is what lets the table be indexed by the other operand |
| `GF128.MulAssoc` | impl/mode/gcm.cc:129-147 | the product is associative |
| `GF128.MulXor` | impl/mode/gcm.cc:129-147 | the product is linear in both operands |
| `GF128.Reduction` | impl/mode/gcm.cc:129-147 | x^128 = x^7 + x^2 + x + 1 for the shift-and-fold step of the loop |
| `GcmTables.MulBitwise` | impl/mode/gcm.cc:129-147 | the bitwise loop overwrites the buffer with its field product with H, for every H and block |
| `GcmTables.GenTable` | impl/mode/gcm.cc:182-206 | row i, entry w of the 64 KiB table is the product of H with byte w at position i, although entries are made from powers of two and sums of earlier entries |
| `GcmTables.MulTable` | impl/mode/gcm.cc:150-180 | sixteen lookups in that table give the same product as the bitwise loop |
| `GcmPclmul.MulPclmul` | impl/mode/gcm-pclmulqdq.cc:139-198 | the carry-less-multiply sequence gives the same product as the bitwise loop |
| `GcmPclmul.FourProducts` | impl/mode/gcm-pclmulqdq.cc:139-198 | the four 64-bit polynomial products, shifted by one bit across the lanes and reduced, are the field product |
| `GcmPclmul.QIsPow128` | impl/mode/gcm-pclmulqdq.cc:139-198 | the two-phase reduction is multiplication by x^128 |
| `GcmPclmul.CrossLane` | impl/mode/gcm-pclmulqdq.cc:139-198 | four lane shifts and or's move a 256-bit value by one bit |
| `Gcm.Gcm.constructor` | impl/mode/gcm.cc:75-127 | a new context with any of the three multipliers is ready and at the start of a block |
| `Gcm.Gcm.SetIv` | impl/mode/gcm-impl.cc:168-217 | J0 for every IV length (section 7.1, step 2), the exact case that is refused, and what is left behind then; the context is ready for a message exactly when `boff` was 0 |
| `Gcm.Gcm.SetData` | impl/mode/gcm-impl.cc:397-412 | the hash state afterwards is that of the additional data, of any length, as this code pads it |
| `Gcm.Gcm.Encrypt` | impl/mode/gcm-impl.cc:240-281 | for any length and any state of the buffer: the output is the text xor the keystream at the stream position, the rest of `out` is unchanged, and the hash state is that of all ciphertext so far |
| `Gcm.Gcm.Decrypt` | impl/mode/gcm-impl.cc:319-360 | the same with the input hashed, also in place |
| `Gcm.Gcm.CryptFast` | impl/mode/gcm-impl.cc:284-317 | the fast calls encrypt with the long counter; the context stays that of the standard's stream exactly when the low counter word does not wrap |
| `Gcm.Gcm.EncryptFinal` | impl/mode/gcm-impl.cc:414-440 | last text, then the tag, which under the encryption of the first counter is the hash of the data, the ciphertext and their lengths in bits; too small an output buffer changes nothing |
| `Gcm.Gcm.DecryptFinal` | impl/mode/gcm-impl.cc:442-465 | the text is written, and accepted exactly when the tag that follows it is, under the encryption of the first counter, the hash of the data, all the ciphertext and their lengths |
| `Gcm.Gcm.Reset` | impl/mode/gcm-impl.cc:120-131 | the same message from its start, whatever was done before |
| `GcmCounter.FastCounterExactly` | impl/mode/gcm-impl.cc:219-238 | m steps of the long counter are m steps of inc32 if and only if the low word does not wrap |
| `GcmCounter.TwelveByteIv` | impl/mode/gcm-impl.cc:168-217 | after a 12-byte IV the low word does not wrap for 2^32 - 2 blocks |
| `GcmMessage.TagConforms` | impl/mode/gcm-impl.cc:397-440 | the tag of the code is that of section 7.1 of SP 800-38D when the additional data is empty or ends in an incomplete block; what both are is `GcmTag.SpecUnmasks` and `GcmTag.CodeUnmasks` |
| `GcmMessage.ConformsExactly` | impl/mode/gcm-impl.cc:407-409 | every message with n bytes of additional data is sealed as in the standard if and only if n = 0 or n is not a multiple of 16; the failing cipher is a permutation of blocks |
| `GcmMessage.FastCanWrap` | impl/mode/gcm-impl.cc:229-238 | a permutation and a 16-byte IV for which the first block of a fast call differs from the slow one |
| `GcmMessage.OpenExactlySealed` | impl/mode/gcm-impl.cc:442-465 | a ciphertext and tag open to a text exactly when they are what sealing that text gives |
| `GcmTag.GhashIsSum` | impl/mode/gcm-impl.cc:152-166 | the hash of m blocks is X_1 H^m + X_2 H^(m-1) + ... + X_m H (section 6.4 of SP 800-38D) |
| `GcmTag.SpecUnmasks` | impl/mode/gcm-impl.cc:414-440 | every byte of the standard's tag xor the byte of E(K, J0) is a byte of the hash of padded data, padded ciphertext and one block with both lengths in bits, each as a number modulo 2^64 |
| `GcmTag.CodeUnmasks` | impl/mode/gcm-impl.cc:397-440 | the same of the code's tag with the data padded as `gcm_setdata` pads it |
| `GcmTag.OneTag` | impl/mode/gcm-impl.cc:428-440 | only one tag of a given length unmasks to that hash, so the property above determines the tag |
| `GcmTag.StartIsFirst` | impl/mode/gcm-impl.cc:168-217 | the block that masks the tag is J0: the vector and the number 1 for twelve bytes, otherwise the hash of the padded vector and its length in bits |
| `GcmTag.EmptyTag` | impl/mode/gcm-impl.cc:428-440 | a message with neither data nor text has the first bytes of E(K, J0) as its tag |
| `GcmRuns.SealMessage` | impl/mode/gcm-impl.cc:168-317 | setiv, setdata, any sequence of slow and fast calls, then the final call on one context: ciphertext and tag are those of the one-shot function, for every split; byte for byte the tag xor the encryption of the first counter is the sum over the padded blocks, the last of which holds the two lengths in bits as numbers modulo 2^64; with no text and no data the tag is that encryption itself |
| `GcmRuns.OpenMessage` | impl/mode/gcm-impl.cc:319-465 | the same for opening: the text, and accepted exactly when the tag, unmasked, is that sum |
| `GcmRuns.RoundTrip` | impl/mode/gcm-impl.cc:168-465 | two contexts, different multipliers, independent splits: the plaintext comes back, exactly the tag that was made is accepted, and with conforming additional data ciphertext and tag are those of section 7.1, the tag unmasked byte by byte |
| `GcmRuns.LegalTwelve` | impl/mode/gcm-impl.cc:284-317 | with a 12-byte IV every run of block-aligned fast calls of up to 4096 bytes below 2^36 - 32 bytes in all is covered |
| `Counter.NextAddsOne` | impl/mode/ctr.cc:197-205 | the bytewise carry adds one modulo 256^n, for every counter length |
| `Counter.IncrementFast` | impl/mode/ctr.cc:207-216 | the wordwise carry is the bytewise one |
| `Ctr.Ctr.SetIv` | impl/mode/ctr.cc:183-195 | the new stream; at `boff` = k > 0 it starts with bytes k and on of the IV itself |
| `Ctr.Ctr.Reset` | impl/mode/ctr.cc:124-133 | the stream from position 0 again |
| `Ctr.Ctr.Encrypt` | impl/mode/ctr.cc:218-256 | output byte i is input byte i xor keystream byte p + i, for any length and position p |
| `Ctr.Ctr.EncryptFast` | impl/mode/ctr.cc:258-289 | the same on the same stream, so slow and fast calls interleave |
| `StreamRuns.CtrRoundTrip` | impl/mode/ctr.cc:124-289 | slow and fast calls in any mixture, a reset, then any other mixture: the ciphertext is the text xor the keystream, and the text comes back |
| `Ofb.Ofb.SetIv` | impl/mode/ofb.c:168-182 | as for CTR |
| `Ofb.Ofb.Reset` | impl/mode/ofb.c:119-128 | the stream from position 0 again |
| `Ofb.Ofb.Encrypt` | impl/mode/ofb.c:184-222 | output is the text xor the iterated encryption of the IV at the stream position |
| `Ofb.Ofb.EncryptFast` | impl/mode/ofb.c:224-237 | the same on the same stream |
| `StreamRuns.OfbRoundTrip` | impl/mode/ofb.c:119-237 | the same for OFB |
| `CopyXor.CopyAndXor` | include/util.hh:136-168 | one keystream whatever the calls, and the one call that loses a block of it |
| `CfbSpec.RegisterStep` | impl/mode/cfb.c:202-241 | the shift register follows the recurrence of section 6.3 of SP 800-38A |
| `Cfb.Cfb.Encrypt` | impl/mode/cfb.c:202-241 | for every feedback width, length and place in a segment the output is the segment recurrence on all ciphertext so far |
| `Cfb.Cfb.Decrypt` | impl/mode/cfb.c:243-281 | one call from a right place always writes the right text; what `boff` becomes, and that the context can go on if and only if `KeepsPlace` |
| `Cfb.Cfb.OneByteCalls` | impl/mode/cfb.c:243-281 | two one-byte calls with 16-byte segments leave `boff` at 0 instead of 2 |
| `Cfb.Cfb.EncryptFast` | impl/mode/cfb.c:288-306 | the fast form is the slow one |
| `Cfb.Cfb.DecryptFast` | impl/mode/cfb.c:308-331 | encrypting all the registers at once gives the same text |
| `Cfb.Cfb.SetIv` | impl/mode/cfb.c:188-200 | the new stream; the context is usable exactly when `boff` was 0 |
| `CfbRuns.SealPieces` | impl/mode/cfb.c:202-306 | for every feedback width and every split into calls the whole ciphertext is the segment recurrence on the whole text |
| `CfbRuns.OpenPieces` | impl/mode/cfb.c:243-331 | every split whose calls but the last keep their place opens to the text of the whole |
| `CfbRuns.RoundTrip` | impl/mode/cfb.c:188-331 | what a new context sealed in any pieces, another one opens in one call, or in pieces that keep their place |
| `Hash.Hash.Update` | impl/hash/hash.hh:59-81 | after any calls the state has absorbed exactly the whole blocks of the message and the buffer holds the rest; the length words are right exactly while each call is shorter than the low word counts |
| `Hash.Hash.UpdateFast` | impl/hash/hash.hh:83-93 | the same without the buffer |
| `Hash.Hash.Pad` | impl/hash/hash.hh:95-119 | the state has absorbed message, 0x80, the zeros, and the bit length in the order of the hash |
| `Hash.Hash.GetDigest` | impl/hash/hash.hh:121-127 | the first bytes of the padded state in the order of the hash |
| `HashRuns.Digest` | impl/hash/hash.hh:53-127 | reset, any calls on the pieces of a message, digest: the first bytes of the state after the blocks of the padded message, whatever the pieces |
| `Hash.FillLeast` | impl/hash/hash.hh:95-119 | the zeros are the fewest that end a block (section 5.1 of FIPS 180-4) |
| `Hash.CarryExactly` | impl/hash/hash.hh:65-66 | the carry between the two length words is right if and only if the call is shorter than the low word's range |
| `Hash.LongCall` | impl/hash/hash.hh:65-66 | a call of 2^32 bytes with 32-bit words counts as no bytes |
| `Endian.CopyBackwards` | include/util.hh:236-246 | every chunk of `sz` bytes reversed, a last one cut short, nothing else touched |
| `Endian.DoubleWord` | impl/hash/hash.hh:95-119 | two words in memory, placed by the host's order, are one word of twice the size |
| `RijndaelSpec.MixInverse` | impl/block/rijndael/rijndael.cc:427-448 | the two matrices over GF(2^8) are inverse |
| `RijndaelSpec.InvMixColumnsLinear` | impl/block/aes/aes.cc:278-315 | what lets the keys be transformed instead of the state (section 5.3.5 of FIPS 197) |
| `SboxField.SubConforms` | impl/block/rijndael/rijndael.cc:966-982 | section 5.1.1 of FIPS 197: the S-box of b is, bit by bit, the sum of five bits of the inverse of b in GF(2^8) and a bit of 0x63 |
| `SboxField.InverseExists` | impl/block/rijndael/rijndael.cc:966-982 | every byte has an inverse in GF(2^8), zero for zero, for the product made of doublings |
| `SboxField.InverseIs` | impl/block/rijndael/rijndael.cc:966-982 | and only one: an element is the inverse of b exactly when it is the entry of b with the affine map undone |
| `SboxField.Sub2Conforms` | impl/block/aria/aria.cc:214-247 | section 2.4.2 of RFC 5794: the second S-box of ARIA is, bit by bit, a sum of the bits of the 247th power that the matrix selects and a bit of 0xe2 |
| `Aes.Aes.SetKey` | impl/block/aes/aes.cc:172-315 | the key words are the FIPS 197 expansion and their reversed, transformed copy; the refused lengths and what stays then |
| `Aes.Aes.Encrypt` | impl/block/aes/aes.cc:348-417 | the fused tables and the fall-through switch compute the cipher with exactly nr rounds |
| `Aes.Aes.Decrypt` | impl/block/aes/aes.cc:449-516 | the table rounds over the transformed schedule compute the inverse cipher |
| `Aes.Aes.RoundTrip` | impl/block/aes/aes.cc:348-516 | Decrypt after Encrypt on one object leaves every block as it was, for the three key sizes |
| `Rijndael.Rijndael.SetKey` | impl/block/rijndael/rijndael.cc:292-349 | all (nr + 1) nb columns of the expansion, in rows and in bytes, for five key and five block sizes |
| `Rijndael.GroupBound` | impl/block/rijndael/rijndael.cc:292-349 | the expansion never runs past the 30 entries of `rcon` |
| `Rijndael.Rijndael.Encrypt` | impl/block/rijndael/rijndael.cc:352-357 | the hand-written byte indices of five block sizes compute the cipher |
| `Rijndael.Rijndael.Decrypt` | impl/block/rijndael/rijndael.cc:359-385 | the packed rows, shifted and substituted in words, compute the inverse cipher |
| `Rijndael.Rijndael.RoundTrip` | impl/block/rijndael/rijndael.cc:352-385 | row-packed Decrypt inverts byte-indexed Encrypt on one object, for all five block and five key sizes |
| `SameCipher.EncryptBoth` | impl/block/aes/aes.cc:348-417 | an AES and a Rijndael128 object with the same key encrypt every block alike |
| `SameCipher.DecryptBoth` | impl/block/aes/aes.cc:449-516 | and decrypt every block alike |
| `SameCipher.Across` | impl/block/rijndael/rijndael.cc:352-385 | what one of them encrypts, the other decrypts |
| `SameCipher.SameSchedule` | impl/block/aes/aes.cc:190-276 | every key word of AES, split, is the column that the four rows of Rijndael hold |
| `AriaSpec.DiffuseTwice` | impl/block/aria/aria.hh:96-128 | `afunc` is an involution |
| `AriaSpec.DiffuseXor` | impl/block/aria/aria.hh:96-128 | `afunc` is linear |
| `AriaSpec.DiffusionConforms` | impl/block/aria/aria.hh:96-128 | between the two transpositions `afunc` is the diffusion layer of section 2.4.3 of RFC 5794 |
| `AriaSpec.LayerConforms` | impl/block/aria/aria.hh:47-92 | between the two transpositions `sl1` and `sl2` are the substitution layers of section 2.4.2 of RFC 5794 |
| `AriaSpec.CryptInverse` | impl/block/aria/aria.cc:67-177 | the encryption routine with ends swapped and middle keys diffused in reverse order undoes itself, for every even number of rounds |
| `AriaKeys.RotationsAgree` | impl/block/aria/ariabyte.cc:40-50 | bytewise rotation by any number of bits is rotation of the 128-bit number |
| `AriaKeys.KeyConforms` | impl/block/aria/ariabyte.cc:118-141 | each round key is a word xor the next one rotated right by 19 or 31 bits or left by 61, 31 or 19 (section 2.2 of RFC 5794) |
| `Aria.Aria.SetKeyBytewise` | impl/block/aria/ariabyte.cc:52-141 | the keys of section 2.2 of RFC 5794, both directions; the lengths accepted; nothing changes otherwise |
| `Aria.Aria.SetKeyInteger` | impl/block/aria/aria128.cc:109-175 | the schedule on 128-bit integers ends in the same state as the bytewise one |
| `Aria.Aria.RoundTrip` | impl/block/aria/aria.cc:151-177 | Decrypt after Encrypt leaves every block as it was, for 12, 14 and 16 rounds |
| `CamelliaSpec.FLInverse` | impl/block/camellia/camellia.cc:236-256 | `flinv` undoes `fl` and the other way round, for every key (section 2.4 of RFC 3713) |
| `CamelliaTables.RoundConforms` | impl/block/camellia/camellia.cc:231-261 | section 2.4.1 of RFC 3713, for any tables that spread eight byte boxes over the rows of the matrix P: each byte of the round function is the sum of the boxes its row selects, at the bytes of the half xor the key |
| `CamelliaTables.SourceSpreads` | impl/block/camellia/sboxes.c:46-130 | the eight tables that the generator makes, by replicating and masking, spread the boxes of RFC 3713 over those rows |
| `CamelliaBox.BoxConforms` | impl/block/camellia/sboxes.c:26-43 | the first box of every byte is a linear map of the inverse in GF(2^8) of a linear map, with the two constants of the Camellia specification |
| `CamelliaLayers.FLConforms` | impl/block/camellia/camellia.cc:236-245 | every bit of both halves of `fl`: the right half changes first, by the left half under the key rotated by one (section 2.4.2 of RFC 3713) |
| `CamelliaLayers.SigmaConforms` | impl/block/camellia/camellia.cc:147-206 | the six constants are hexadecimal digits 2 to 17 of the square roots of 2, 3, 5, 7, 11 and 13 |
| `CamelliaLayers.LeftNumber` | impl/block/camellia/camellia.cc:111-118 | the rotations of the schedule turn the 128-bit number to the left, one bit at a time |
| `Camellia.Camellia.SetKey` | impl/block/camellia/camellia.cc:126-229 | the schedules of section 2.2 of RFC 3713, with the rotations that the source does by exchanging halves |
| `Camellia.Camellia.RoundTrip` | impl/block/camellia/camellia.cc:263-399 | Decrypt after Encrypt leaves every block as it was |
| `DesSpec.PermInverse` | impl/block/des/des.cc:473-515 | FPERM undoes IPERM with the halves exchanged |
| `DesSpec.PermBack` | impl/block/des/des.cc:473-515 | and IPERM undoes FPERM |
| `DesSpec.ProcessInverse` | impl/block/des/des.cc:580-611 | sixteen unswapped rounds with the pairs of keys in reverse order undo the rounds, halves exchanged |
| `DesPermutation.IPermConforms` | impl/block/des/des.cc:473-493 | the six exchanges of IPERM put every bit where the initial permutation of FIPS 46-3 does, both halves then rotated left by one |
| `DesRounds.RoundConforms` | impl/block/des/des.cc:580-611 | across the schedule and the round, for any boxes: box n is looked up with bits 6 n to 6 n + 5 of E(R) xor K, where K is the round key made of the key bits and R comes rotated left by one |
| `DesRounds.RotationsConform` | impl/block/des/des.cc:450-453 | the totals of rotations add one in rounds 1, 2, 9 and 16 and two in the others |
| `DesRounds.SourceRotates` | impl/block/des/des.cc:527-569 | each half of the chosen key bits turns round by that total |
| `DesRounds.ColumnBelow` | impl/block/des/des.cc:437-448 | the first choice reads the key bytes column by column, without the parity bits |
| `DesRounds.KeyBitIs` | impl/block/des/des.cc:527-569 | the bits of the key are counted from the most significant one of each byte |
| `DesRounds.SelectionConforms` | impl/block/des/des.cc:455-467 | the second choice takes 24 different bits from each half |
| `DesBoxes.ByteConforms` | impl/block/des/des.cc:675-748 | every entry of the combined boxes is the output of the S-box of FIPS 46-3 under P, rotated left by one |
| `DesStandard.StandardBit` | impl/block/des/des.cc:580-611 | bit p of the function f that the next members use is bit P(p) of the outputs of the eight boxes |
| `DesStandard.FConforms` | impl/block/des/des.cc:580-611 | with the boxes of the source the function of a round on a rotated half is f(R, K) of FIPS 46-3, rotated |
| `DesStandard.CryptConforms` | impl/block/des/des.cc:613-656 | permutations, rounds and schedule together encipher every block as sections 3 and 4 of FIPS 46-3 do |
| `DesStandard.HalfNumbers` | impl/block/des/des.cc:613-625 | the halves of a block are big-endian words |
| `Des.Des.SetKey` | impl/block/des/des.cc:527-569 | every bit of every round key is the key bit that the permuted choices and rotations select; the second array is the first in reverse pairs |
| `Des.Des.RoundTrip` | impl/block/des/des.cc:613-656 | Decrypt after Encrypt leaves every block as it was, for every key and any boxes |
| `DesStandard.EncryptBlock` | impl/block/des/des.cc:613-625 | on an object with any key every block is enciphered as FIPS 46-3 enciphers it |
| `DesStandard.DecryptBlock` | impl/block/des/des.cc:644-656 | and every block is deciphered to the one that FIPS 46-3 enciphers to it |
| `DesSpec.TripleIsThree` | impl/block/des/des.cc:627-642 | triple encryption, with one permutation at each end, is a whole encryption with the first keys, a decryption with the second and an encryption with the third |
| `Des.TripleDes.SetKey` | impl/block/des/des.cc:571-578 | which part of a 16- or 24-byte key each pass has |
| `Des.TripleDes.RoundTrip` | impl/block/des/des.cc:627-673 | the same for two and three keys |
| `Des.TripleDes.OneKey` | impl/block/des/des.cc:627-642 | with one key repeated three times triple DES encrypts as DES |
| `MarsBits.MaskBit` | impl/block/mars/mars.cc:203-243 | the modification mask, computed by doubling, has bit k set, for k from 2 to 30, exactly inside a run of ten equal bits, and no other bit |
| `MarsKeys.MultiplierBit` | impl/block/mars/mars.cc:203-243 | every bit of a multiplication key: changed by the pattern exactly inside those runs |
| `MarsKeys.MultiplierEnds` | impl/block/mars/mars.cc:203-243 | every multiplication key ends in binary 11 |
| `MarsNumbers.ExpansionNumbers` | impl/block/mars/mars.cc:245-260 | the expansion function in numbers: the first key word is added and the second multiplies modulo 2^32, the box is looked up at the sum modulo 512, and the low five bits of each rotated product turn the other words |
| `MarsNumbers.ExpansionInjective` | impl/block/mars/mars.cc:245-260 | with a multiplication key the third word determines the input, whatever the added key: what the last two bits of the key are for |
| `MarsNumbers.ForwardNumbers` | impl/block/mars/mars.cc:263-270 | which digit of the first word looks up which half of the box in a forward mixing step, and what is added modulo 2^32 |
| `MarsNumbers.ReverseNumbers` | impl/block/mars/mars.cc:272-280 | the same for the backward mixing step, with differences |
| `MarsNumbers.LittleEndian` | impl/block/mars/mars.cc:309-318 | the words of a block have the numbers of their bytes backwards |
| `Mars.Mars.SetKey` | impl/block/mars/mars.cc:203-243 | the forty words of the expansion for keys of up to fourteen words |
| `Mars.Mars.RoundTrip` | impl/block/mars/mars.cc:309-437 | the register-rotating Decrypt after the unrolled Encrypt leaves every block as it was |
| `SaferTables.Order` | impl/block/safer/gentables.c:38-55 | no power of 45 below the 256th is 1 modulo 257 |
| `SaferTables.GenerateTables` | impl/block/safer/gentables.c:38-55 | the loop fills one table with the powers of 45 and the other with their logarithms |
| `SaferSpec.BoxInverse` | impl/block/safer/safer.cc:316-338 | the two tables are inverse to each other |
| `SaferRounds.RoundConforms` | impl/block/safer/safer.cc:340-357 | every byte of a round is a sum modulo 256 of what the eight bytes give, powers of 45 and a key or exponents and a key, with the weights of the three-level pseudo-Hadamard transform |
| `SaferRounds.TransformConforms` | impl/block/safer/safer.cc:284-307 | the three layers of two-point transforms with their permutations multiply by that matrix of weights |
| `SaferRounds.BiasConforms` | impl/block/safer/safer.cc:113-161 | the bias of byte j of key i is 45 to the power 45 to the power 9 (i + 1) + j + 1, inside the table |
| `SaferSpec.BiasInside` | impl/block/safer/safer.cc:113-221 | the key schedules read inside the table exactly for at most 13 rounds |
| `SaferSpec.EqualHalves` | impl/block/safer/safer.cc:113-221 | a 16-byte key with equal halves has the schedule of the 8-byte one |
| `Safer.Safer.SetKeyK` | impl/block/safer/safer.cc:113-161 | both loops of the SAFER K schedule, the number of rounds and the refusals |
| `Safer.Safer.SetKeySK` | impl/block/safer/safer.cc:163-221 | both loops of the SAFER SK schedule, with the parity bytes |
| `Safer.Safer.RoundTrip` | impl/block/safer/safer.cc:340-375 | Decrypt after Encrypt leaves every block as it was, whatever keys and number of rounds up to 16 |
| `SerpentBoxes.BoxSliced` | impl/block/serpent/serpent-impl.cc:47-257 | each bitsliced box looks up the table of the Serpent proposal at all 32 positions at once |
| `SerpentBoxes.BoxInverse` | impl/block/serpent/serpent-impl.cc:47-471 | si0 to si7 undo s0 to s7 on every four words, and the other way round |
| `SerpentSpec.UnmixMix` | impl/block/serpent/serpent-impl.cc:499-529 | the linear part of `dround` undoes that of `eround` |
| `SerpentBits.MixBits` | impl/block/serpent/serpent-impl.cc:499-512 | every bit of the linear transformation as a sum of bits of the four words |
| `SerpentBits.PrekeyBits` | impl/block/serpent/serpent-impl.cc:473-496 | every bit of every prekey past the key as the sum of bits of four earlier ones, of the constant and of the index |
| `SerpentBits.GoldenRatio` | impl/block/serpent/serpent-impl.cc:481-481 | the constant is the whole part of 2^32 times half of the root of 5 less 1 |
| `Serpent.Serpent.SetKey` | impl/block/serpent/serpent-impl.cc:473-496 | for every key of up to 32 bytes: padding with a one, the recurrence, and each round key through its box |
| `Serpent.Serpent.RoundTrip` | impl/block/serpent/serpent-impl.cc:531-586 | Decrypt after Encrypt leaves every block as it was |

## Findings

What the project shows the code not to do, each with its exact condition.

- Additional data in GCM (impl/mode/gcm-impl.cc:407-409): one more padded block is hashed even when none is left. Sealed
  messages are those of SP 800-38D if and only if the additional data is empty or its length is not a multiple of 16
  (`GcmMessage.ConformsExactly`). Both sides pad alike, so the round trip does not need this.
- The fast counter of GCM (impl/mode/gcm-impl.cc:229-238) carries beyond the low 32 bits, the slow one does not. They
  agree if and only if the low word does not wrap (`GcmCounter.FastCounterExactly`); a wrap on the first block is
  reachable with a 16-byte IV (`GcmMessage.FastCanWrap`), and with a 12-byte IV only after 2^32 - 2 blocks
  (`GcmCounter.TwelveByteIv`).
- `gcm_setiv` (impl/mode/gcm-impl.cc:199-200) refuses an IV that is not 12 bytes long if and only if the tag is not 16
  bytes long, and it has by then cleared both counter blocks and the hash (`Gcm.Gcm.SetIv`).
- `cfb_decrypt` (impl/mode/cfb.c:256) subtracts from `boff` where `cfb_encrypt` (impl/mode/cfb.c:215) adds. A call of
  `len` bytes from place k leaves a context that can go on if and only if k or `len` is 0, or the call ends the segment
  and then either ends inside another one or k is half a segment (`Cfb.Cfb.Decrypt`, `Cfb.Cfb.OneByteCalls`).
- The hash length (impl/hash/hash.hh:65-66): the carry is right if and only if a call is shorter than the range of the
  low word (`Hash.CarryExactly`); 2^32 bytes in one call count as none with 32-bit words (`Hash.LongCall`).
- `CopyAndXor` (include/util.hh:136-168): an empty call with a full buffer reports the buffer as empty, so its block of
  keystream is skipped; no other call loses anything (`CopyXor.CopyAndXor`). The RC4 of
  impl/stream/rc4/rc4.cc:284-302 has a full buffer after a reset when its drop count is a multiple of 256.
- `ctr_setiv`, `ofb_setiv`, `cfb_setiv` and `gcm_setiv` (impl/mode/ctr.cc:183-195, impl/mode/ofb.c:168-182,
  impl/mode/cfb.c:188-200, impl/mode/gcm-impl.cc:168-217) do not clear `boff`. In the middle of a block, at place k, CTR
  and OFB go on with the text xor bytes k and on of the IV itself (`Ctr.Ctr.SetIv`, `Ofb.Ofb.SetIv`); a CFB or GCM
  context is usable if and only if `boff` was 0 (`Cfb.Cfb.SetIv`, `Gcm.Gcm.SetIv`).
- The SAFER key schedules (impl/block/safer/safer.cc:113-221) allow 16 rounds, and read inside the 256-byte table if and
  only if there are at most 13 (`SaferSpec.BiasInside`). What lies behind the table is the parameter `past`. The number
  of rounds is chosen by the first key of an object and kept for later ones (`Safer.Safer.SetKeyK`).
- Both ARIA schedules (impl/block/aria/ariabyte.cc:52-141, impl/block/aria/aria128.cc:109-175) copy the key into 32 bytes
  before they look at its length, so the methods require at most 32 bytes; they accept every length from 16 to 32 bytes
  (`Aria.Aria.SetKeyBytewise`, `Aria.Aria.SetKeyInteger`).

## Left out

- Fast calls longer than 4096 bytes in CTR, CFB decryption and GCM: the loops pass the length of the whole call where the
  length of the chunk is meant (impl/mode/ctr.cc:280, impl/mode/cfb.c:323, impl/mode/gcm-impl.cc:307 and 386); one pass
  of the loop is modelled.
- OFB and CFB fast forms with 8-byte blocks (impl/mode/ofb.c:233, impl/mode/cfb.c:299), which encrypt two blocks
  independently.
- Buffers that overlap without being equal: `out` and `inp` are the same array or different ones.
- The block cipher under a mode and the compression function of a hash are arbitrary functions, so what a particular
  hash does with a block is not modelled.
- `Gcm.Gcm.constructor`: requires a tag of at most 16 bytes; the source takes any length and would copy past its
  16-byte hash.
- `Hash.Hash.Update`: length words of 4 or 8 bytes and blocks with room for the length only; MD2, with words of one byte,
  and Fugue, with blocks of 4 bytes, inherit the same code.
- `Cfb.Cfb.Decrypt`: says what `boff` becomes and when it is wrong, not what the next call from a wrong place writes.
- The table of `gen_table_fl` is held as blocks, and the Te and Td tables of AES and the tables of ARIA by their
  formulas over the S-boxes; the rows of Rijndael as eight bytes each.
- The substitution box of MARS is a parameter: the results hold for any. The results about DES, triple DES and Camellia
  hold for any tables too; the source's own are in DesBoxes, and in CamelliaTables as the generator sboxes.c makes them
  (the listing of the same words in tables.cc is not repeated).
- The listing of the SAFER tables in safer.cc: the tables are those that gentables.c makes.
- An `or` of words without common bits is written as a sum in the 128-bit rotations of ARIA.
- The copy constructor of Serpent, and `Serpent1` and `Serpent24`, which serve Sosemanuk.
- Twofish, Blowfish, CAST, SEED, TEA, RC2 and CBC: round trips of the same kind as those here, but easier.
- Threefish and SHACAL; AES-NI, the Linux cipher, bignums and everything else that wraps other code.
- SIMD and alignment variants, locks, wiping of memory, plugin tables, memory allocation and I/O.
