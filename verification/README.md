# Protocol helpers of a TTCN-3 test suite, modelled and proved in Dafny

The test suite drives mobile network elements and SIM servers. Most of it is TTCN-3, but the arithmetic that the tests
rest on is C and C++: a secure channel for eSIM profiles, the SNOW 3G cipher and MAC, an RLC/MAC block codec, TLV
rewriting, three CRCs and the Milenage authentication. This project models these helpers and proves what their
standards promise of them.

| part | files | standard |
|---|---|---|
| BSP secure channel | BspPrimitives, BspChannel, BspWire, BspRuns, BspArrivals, BspCrypto, BspPackages | GSMA SGP.22, sections 2.5.3 and 2.6.4; SEC 1, section 3.6.1; ITU-T X.690, section 8.1.3 |
| SNOW 3G, f8, f9 | Gf8, Alpha, SBox, SqTable, Snow3g, Snow3gStandard, Snow3gRun, Gf64, Gf64Field, UeaUia, UeaStandard, F9Lengths, F9Collisions, F9Forgeries | 3GPP TS 35.216, sections 3.4 and 4; TS 35.215, sections 3 and 4 |
| RLC/MAC blocks | RlcBits, RlcUplink, RlcBlocks, RlcEgprs, RlcWire | 3GPP TS 44.060, sections 10.2.2 and 10.3a |
| TLV lengths, LLC frame check sequence | TlvLength, TlvOctets, LlcFcs, CrcDoubleErrors, FrameChecks | 3GPP TS 48.016, section 10.1.2; TS 44.064, section 5.5 |
| IuUP checksums | CrcTheory, CrcOrder, IuUp, CrcDoubleErrors, FrameChecks | 3GPP TS 25.415, section 6.6.3 |
| Milenage | Milenage, MilenageStandard | 3GPP TS 35.206, section 4.1; TS 33.102, sections 6.3.3 and 6.3.5 |

MsbBits holds the bits of an octet, highest first, Options the shared datatype of optional values, Numbers a few
shared functions.

Code that works step by step is a method, with the source's loops, arrays and static registers, proved equal to a
function of its inputs or of the old state; what the standards promise is proved of those functions. What these
functions compute is also stated apart from them, as octets, bits, words and numbers with the constants written out:
in BspWire, BspPackages, Snow3gStandard, Snow3gRun, SqTable, UeaStandard, MilenageStandard, RlcWire, TlvOctets and
FrameChecks. Exceptions and error returns are values. Integer widths are written out where they matter: the 32-bit
block counter, the word count of f8, the 7- and 15-bit lengths.

`dafny verify dfyconfig.toml` checks the whole project.

## Where the code does not do what its comments or documents say

Each of these is kept as the code has it, and the exact condition under which the code does meet its purpose is
proved.

- `put_egprs_data_block` and `get_egprs_data_block` fit together only at offsets on the last bit of an octet, which of
  the uplink types leaves header type 3 (`RlcBits.RoundTripsExactly`, `RlcBlocks.OnlyType3RoundTrips`). The encoder
  uses it for types 1 and 2 all the same (`RlcEgprs.Type1HeaderOverwritten`, `RlcEgprs.Type2HeaderDamaged`).
- The EGPRS uplink encoder reverses the TLLI and the decoder does not (`RlcEgprs.UlEgprsSurvivesExactly`), and the
  encoder writes lists of LLC blocks that the decoder cannot tell apart from others (`RlcBlocks.SurvivesExactly`,
  `RlcBlocks.TrailingBlockLost`).
- Both TLV scanners compare an element with the whole input and not with what is left (`TlvLength.TruncationDetected`,
  `TlvLength.CompactTruncationDetected`), and compacting sets the E bit by accident for values over 0x7fff octets
  (`TlvLength.ExpandUndoesCompact`).
- The IuUP encoder writes a payload checksum into the payload of frames of type 1 (`IuUp.TypeOnePayload`).
- `milenage_check` compares sequence numbers before it checks the MAC, other than TS 33.102, section 6.3.3
  (`Milenage.WrongMacRefused`).
- BSP segments can be longer than the limit of 1020 octets that the size check is meant to keep
  (`BspRuns.SegmentSize`), and an empty MAC-only segment is sealed but never opened (`BspChannel.OpenUndoesSend`).
- f8 leaves messages of more than 2^32 - 32 bits as they are (`UeaUia.F8Coverage`), and writes beyond the octets of
  most messages (`UeaUia.F8StaysInside`). Its caller passes octets where bits are meant, so that most of the data
  stays in clear and some of it may not be deciphered (`UeaUia.CallLeavesClear`, `UeaUia.CallDecipheredExactly`).
- f9 computes the standard's MAC exactly for lengths from 1 bit to 2^35 bits (`F9Lengths.ReadsMessageExactly`,
  `F9Lengths.StandardExactly`). Longer messages are read in their first 2^32 octets alone (`F9Lengths.LateBitMissed`),
  and for the empty message, which the test suite's call can pass, it reads 2^32 octets of memory
  (`F9Lengths.EmptyMisread`, `UeaUia.EmptyCallReads`).

## Model

| member | source | states |
|---|---|---|
| BspPrimitives.CbcRoundTrip | smdpp/bsp_crypto.cc:152-221 | CBC decryption undoes CBC encryption for every key, chaining vector and whole number of blocks, given only that the block cipher can be inverted |
| BspPrimitives.add_padding | smdpp/bsp_crypto.cc:338-347 | the loop appends 0x80 and the zeros up to the next multiple of 16, no more |
| BspPrimitives.remove_padding | smdpp/bsp_crypto.cc:349-362 | the scan from the end takes off the zeros and one 0x80, and leaves data without that mark as it is |
| BspPrimitives.PaddingRoundTrip | smdpp/bsp_crypto.cc:338-362 | padding adds 1 to 16 octets up to a multiple of 16, and removing it gives back any data, whatever it ends with |
| BspPrimitives.LengthRoundTrip | smdpp/bsp_crypto.cc:223-268 | a length up to 65535, encoded behind any octets and before any others, is read back with the offset behind it |
| BspPrimitives.IcvInjective | smdpp/bsp_crypto.cc:375-383 | different block numbers have different chaining vectors |
| BspWire.IcvLayout | smdpp/bsp_crypto.cc:375-383 | read back with an invertible cipher, the chaining vector is twelve zeros and then the block number, highest octet first |
| BspWire.PaddedIsPadded | smdpp/bsp_crypto.cc:338-347 | padded data are the plaintext, 0x80 and zeros up to the next multiple of 16, stated octet by octet |
| BspWire.UnpaddedExactly | smdpp/bsp_crypto.cc:349-362 | what is removed is exactly a run of zeros with one 0x80 before it; data that do not end so stay as they are |
| BspWire.CbcIsCbc | smdpp/bsp_crypto.cc:152-221 | for every k, block k of the ciphertext is the cipher of block k of the data plus the block of ciphertext before it, digit by digit modulo 2 |
| BspChannel.FrameIsRead | smdpp/bsp_crypto.cc:385-405 | a frame is read as the tag, payload and MAC put in, whatever follows it; one with an empty payload is refused |
| BspChannel.ReadIsFrame | smdpp/bsp_crypto.cc:385-405 | and nothing is read that is not tag, length field, payload, MAC and a rest |
| BspChannel.OpenUndoesSend | smdpp/bsp_crypto.cc:385-477 | what one end seals (encrypted or MAC only), the other end in the same state opens to the same plaintext, and both are in the same state again; only an empty plaintext in clear is refused, and then the receiver stays behind |
| BspWire.SealedOnTheWire | smdpp/bsp_crypto.cc:434-473 | a sealed segment on the wire: tag, shortest length field, payload, half a MAC; the MAC is over the old chain and these octets and is the new chain; the payload is the plaintext, or padded and enciphered block by block from the vector of the block number, which goes on modulo 2^32 |
| BspWire.TooLargeExactly | smdpp/bsp_crypto.cc:455-460 | sealing fails exactly for more than 1010 octets, and then changes nothing |
| BspWire.OpenedOnTheWire | smdpp/bsp_crypto.cc:385-432 | whatever is opened: what the MAC was over, the new chain and number, and the payload as it is or deciphered block by block and freed of padding |
| BspWire.BadLengths | smdpp/bsp_crypto.cc:223-268 | which segments are refused for their size or their length field, in both directions |
| BspWire.BadContents | smdpp/bsp_crypto.cc:385-432 | behind a length field, the four outcomes in the order of the checks: too few octets, no payload, a wrong MAC, half a block |
| BspChannel.RefusedLeavesState | smdpp/bsp_crypto.cc:401-431 | the receiver moves on exactly by segments whose framing and MAC it accepts, by one block and to the full MAC, whether asked to decrypt or not; a refused segment changes nothing; an accepted one fails only by decrypting a payload that is no multiple of 16 |
| BspChannel.AcceptedExactly | smdpp/bsp_crypto.cc:385-420 | acceptance in terms of the wire, both directions: any of the three length forms, a payload that is not empty, the MAC over the shortest form, and anything behind |
| BspChannel.MacInputInjective | smdpp/bsp_crypto.cc:401-411 | what the MAC is computed over determines chain, tag and payload |
| BspChannel.AcceptedTwiceIsCollision | smdpp/bsp_crypto.cc:401-420 | a segment accepted under two different chains, replayed or moved, exhibits two inputs of CMAC with the same 8 octets of result |
| BspRuns.Lockstep | smdpp/bsp_crypto.cc:385-477 | over every interleaving of sealed segments and of foreign ones that are refused where they arrive, each plaintext is delivered, each foreign segment yields an error, and both ends finish in the same state |
| BspArrivals.ChainsDiffer | smdpp/bsp_crypto.cc:434-453 | along the sender's run the chain never takes a value twice, unless two of its CMAC inputs, or one and the initial chain, collide |
| BspArrivals.AcceptedIsNext | smdpp/bsp_crypto.cc:385-420 | short of a forgery or a collision, the one segment that a receiver in step accepts is the sender's next one |
| BspArrivals.OnlyTheSentIsDelivered | smdpp/bsp_crypto.cc:385-477 | whatever arrives, in whatever order: what is delivered is a prefix of what was sent and the receiver is in the sender's state after it; or an accepted segment carries a valid truncated CMAC for an input the sender never used; or CMAC collided on the sender's own inputs |
| BspRuns.OpenAllUndoesSendAll | smdpp/bsp_crypto.cc:577-601 | any sequence of segments of one kind, opened in order, gives the plaintexts strung together and equal states |
| BspRuns.IcvsRepeat | smdpp/bsp_crypto.cc:331-336 | along a run, two chaining vectors are equal if and only if the number of segments between them is a multiple of 2^32 |
| BspRuns.SplitIsWhole | smdpp/bsp_crypto.cc:577-601 | splitting gives ceil(n / 1010) pieces, all of 1010 octets but the last, none empty, which together are the data |
| BspRuns.SegmentSize | smdpp/bsp_crypto.cc:455-473 | the size of a segment stays within the 1020 octets meant as its limit exactly up to 1007 octets of plaintext encrypted and 1008 in clear, and never exceeds 1036 and 1022 |
| BspCrypto.x963_kdf_sha256 | smdpp/bsp_crypto.cc:270-302 | the loop yields exactly the asked number of octets, the i-th from the hash with counter i / 32 + 1 |
| BspCrypto.KdfOctet | smdpp/bsp_crypto.cc:270-302 | octet i is octet i mod 32 of the hash of the secret, a counter of four octets, highest first, that stands for i / 32 + 1, and the info, in this order |
| BspCrypto.KdfPrefix | smdpp/bsp_crypto.cc:270-302 | a shorter output is a prefix of a longer one |
| BspCrypto.SharedInfoInjective | smdpp/bsp_crypto.cc:304-319 | different key kinds, hosts or cards never give the same shared info |
| BspCrypto.BspCrypto.from_kdf | smdpp/bsp_crypto.cc:304-329 | fails exactly for names over 255 octets, with that error; otherwise a fresh end of the channel with counter 1: chain and encryption key are the halves of the hash of secret, counter 1 and shared info, the MAC key the first half of that with counter 2 |
| BspCrypto.BspCrypto.reset | smdpp/bsp_crypto.cc:537-540 | chain replaced, counter back to 1, keys kept |
| BspCrypto.BspCrypto.generate_icv | smdpp/bsp_crypto.cc:331-336 | the vector of the current block number, which then advances modulo 2^32 |
| BspCrypto.BspCrypto.aes_encrypt | smdpp/bsp_crypto.cc:364-368 | pads, encrypts under the vector of the old block number, advances the number |
| BspCrypto.BspCrypto.compute_mac | smdpp/bsp_crypto.cc:434-453 | the chain becomes the full MAC over the old chain, tag, length and data; 8 octets of it are returned; data beyond 65527 octets are refused and change nothing |
| BspCrypto.BspCrypto.encrypt_and_mac_one | smdpp/bsp_crypto.cc:455-473 | state and result are those of the sealing function for an encrypted segment, errors included |
| BspCrypto.BspCrypto.mac_only_one | smdpp/bsp_crypto.cc:556-575 | state and result are those of the sealing function for a segment in clear |
| BspCrypto.BspCrypto.verify_and_decrypt_helper | smdpp/bsp_crypto.cc:385-432 | state and result are those of the opening function under the chain passed in; a refusal leaves the object's own chain |
| BspCrypto.BspCrypto.decrypt_and_verify | smdpp/bsp_crypto.cc:475-477 | state and result are those of the opening function |
| BspCrypto.BspCrypto.encrypt_and_mac_seg | smdpp/bsp_crypto.cc:577-588 | the loop seals the pieces of the split in order; no piece is refused |
| BspCrypto.BspCrypto.mac_only_seg | smdpp/bsp_crypto.cc:590-601 | the same in clear |
| BspCrypto.BspCrypto.process_bound_profile_package | smdpp/bsp_crypto.cc:603-688 | the four sequences in order, with a new instance for the profile when keys are replaced, and the state left behind at whichever step fails |
| BspCrypto.ProcessUndoesPack | smdpp/bsp_crypto.cc:603-688 | end to end: a package built from ConfigureISDP, any number of metadata segments, an optional request for new keys and any number of profile segments is processed to exactly these plaintexts, and the session ends are in step |
| BspCrypto.ProcessUndoesSplitAndPack | smdpp/bsp_crypto.cc:577-688 | the same for metadata and profile of any length, split by the sender |
| BspCrypto.NewKeysOpenProfile | smdpp/bsp_crypto.cc:646-670 | with a request that reads as new keys, a profile sealed under its encryption and MAC key from its chain and block number 1 is opened, the sender's four steps written out one by one |
| BspCrypto.SameKeysOpenProfile | smdpp/bsp_crypto.cc:603-688 | without one, the profile goes on under the session keys, the sender's steps written out |
| BspPackages.PackageOpened | smdpp/bsp_crypto.cc:603-688 | without new keys, a package is one run of openings, each in the state left by the one before: it gives the plaintexts of all, or the error and the state of the first that is refused, wherever it stands |
| BspPackages.RequestOpened | smdpp/bsp_crypto.cc:603-656 | with new keys the run ends with the request: the first refusal decides, and a request that cannot be read is an error of its own |
| BspPackages.ProfileOpened | smdpp/bsp_crypto.cc:646-688 | and the profile is a second run under the new keys, whose first refusal is the result while the session stays where the request left it |
| Gf8.MULxLinear | library/snow_3g/snow-3g.c:81-87 | multiplication by x is linear for every reduction constant |
| Gf8.PowAdd | library/snow_3g/snow-3g.c:97-103 | exponents of MULxPOW add up |
| Alpha.Order255 | library/snow_3g/snow-3g.c:97-103 | with the constant 0xa9, 255 multiplications by x are the identity |
| Alpha.OverUndoesTimes | library/snow_3g/snow-3g.c:111-131 | the map made of DIValpha undoes the one made of MULalpha, for all 2^32 words |
| Alpha.TimesUndoesOver | library/snow_3g/snow-3g.c:111-131 | and the other way round |
| Snow3gStandard.AlphaOctets | library/snow_3g/snow-3g.c:111-131 | both maps octet by octet, with the exponents of the standard |
| SBox.SRIsRijndael | library/snow_3g/snow-3g.c:34-51 | every entry of SR is the Rijndael S-box: undoing the affine map gives the inverse in GF(2^8) |
| SBox.SQPermutation | library/snow_3g/snow-3g.c:55-72 | SQ is a permutation of the octets, with the inverse table |
| SqTable.SQIsDickson | library/snow_3g/snow-3g.c:55-72 | every entry of SQ is 0x25 plus the value of x + x^9 + x^13 + x^15 + x^33 + x^41 + x^45 + x^47 + x^49 in GF(2^8) |
| SqTable.DicksonIsSum | library/snow_3g/snow-3g.c:55-72 | the value is the sum of these nine powers, each a product of squares of squares of x |
| SqTable.DoubleIsMULx | library/snow_3g/snow-3g.c:81-87 | the field is the one whose product with x is MULx with 0x69 |
| SqTable.DicksonOfSquare | library/snow_3g/snow-3g.c:55-72 | that polynomial commutes with squaring, from which the table follows along the cycles of squaring |
| SBox.MixFourTimes | library/snow_3g/snow-3g.c:146-165 | the column mix of both S-boxes, taken four times, is the identity, for every reduction constant |
| SBox.S1Permutation | library/snow_3g/snow-3g.c:139-169 | S1 is a permutation of the words |
| SBox.S2Permutation | library/snow_3g/snow-3g.c:177-206 | S2 is a permutation of the words |
| Snow3gStandard.BoxOctets | library/snow_3g/snow-3g.c:139-206 | S1 and S2 octet by octet: which substituted octets enter each output octet, which of them doubled, and with which reduction |
| Snow3g.UnclockClock | library/snow_3g/snow-3g.c:246-270 | every keystream clock of the feedback register can be undone |
| Snow3g.ClockUnclock | library/snow_3g/snow-3g.c:246-270 | and every register state is reached by one: the clock is a bijection |
| Snow3g.NeverZero | library/snow_3g/snow-3g.c:246-270 | a register that is not zero never becomes zero, however long the keystream |
| Snow3g.UnstepStep | library/snow_3g/snow-3g.c:333-347 | a clock of the whole machine in keystream mode, FSM included, can be undone |
| Snow3g.UninitInitStep | library/snow_3g/snow-3g.c:318-322 | so can a clock in initialisation mode, in which the FSM feeds the register |
| Snow3g.LoadInjective | library/snow_3g/snow-3g.c:299-317 | different keys or variables load different states |
| Snow3g.RunsNeverMerge | library/snow_3g/snow-3g.c:295-347 | runs from different keys or variables are in different states after initialisation and any number of words |
| Snow3g.KeyStreamPrefix | library/snow_3g/snow-3g.c:333-347 | a shorter keystream is a prefix of a longer one |
| Snow3gStandard.WordOperations | library/snow_3g/snow-3g.c:278-286 | the two operations are addition modulo 2^32 and exclusive or |
| Snow3gStandard.InitializedIn32 | library/snow_3g/snow-3g.c:295-323 | for every sequence of 33 states that begins with the loaded one, word for word, and goes on by initialisation clocks, the last is what initialisation leaves |
| Snow3gStandard.WordsOfRun | library/snow_3g/snow-3g.c:333-347 | for every sequence that goes on by keystream clocks, word t is F plus s0 in its state t + 1, the first output being dropped |
| Snow3gRun.TestSet1 | library/snow_3g/snow-3g.c:295-347 | test set 1 of TS 35.217, evaluated: from that key and variable the first two words are abee9704 and 7ac31373 |
| Snow3g.Snow.ClockLFSRInitializationMode | library/snow_3g/snow-3g.c:214-239 | the register shifts down by a word and takes feedback plus F on top |
| Snow3g.Snow.ClockLFSRKeyStreamMode | library/snow_3g/snow-3g.c:246-270 | the same without F |
| Snow3g.Snow.ClockFSM | library/snow_3g/snow-3g.c:278-286 | returns the output word and moves on the three registers, leaving the feedback register alone |
| Snow3g.Snow.snow_3g_initialize | library/snow_3g/snow-3g.c:295-323 | whatever the static registers held, they now hold the state of this key and variable |
| Snow3g.Snow.snow_3g_generate_key_stream | library/snow_3g/snow-3g.c:333-347 | one word is discarded, the next n are written, nothing behind them is, and the state is n + 1 clocks on |
| UeaUia.F8NeverSharesState | library/snow_3g/snow-3g.c:378-402 | two uses of f8 that differ in key, count, bearer or direction never meet in a generator state |
| UeaUia.F9NeverSharesState | library/snow_3g/snow-3g.c:514-531 | nor do two uses of f9 that differ in key, count, fresh or direction |
| UeaStandard.KeyWordsAre | library/snow_3g/snow-3g.c:389-391 | key octets 12 to 15 are the first word, 0 to 3 the last |
| UeaStandard.F8VariableIs | library/snow_3g/snow-3g.c:394-398 | the variable of f8: COUNT twice, and twice five bits of bearer, one of direction and zeros |
| UeaStandard.F9VariableIs | library/snow_3g/snow-3g.c:522-526 | the variable of f9: FRESH with 0x80 added to its octet 2 for direction 1, COUNT with 0x80 added to its octet 0, FRESH and COUNT |
| UeaUia.LoadKey | library/snow_3g/snow-3g.c:389-391 | the loop puts the key into four words, the last one first |
| UeaUia.F8Involution | library/snow_3g/snow-3g.c:378-418 | f8 twice gives the data back, octet by octet, for every length, with the unused low bits of the last octet zero |
| UeaUia.F8Bits | library/snow_3g/snow-3g.c:404-417 | each message bit is exclusive-ored with its own keystream bit, for lengths up to 2^32 - 32 |
| UeaStandard.F8Standard | library/snow_3g/snow-3g.c:378-418 | every octet of f8 for every message, from the key's and the parameters' octets: data plus keystream octet, and the octet in which the message ends cut to its bits |
| UeaUia.F8Coverage | library/snow_3g/snow-3g.c:381 | every bit has a keystream bit exactly for lengths up to 2^32 - 32; beyond, the word count wraps to 0 and the message stays as it came, but for the unused low bits |
| UeaUia.F8At | library/snow_3g/snow-3g.c:404-417 | what becomes of every octet of the memory from the message on: keystream up to the last whole word, also beyond the message, and the unused bits of the message's last octet cleared |
| UeaUia.F8StaysInside | library/snow_3g/snow-3g.c:404-413 | for every 32-bit length, nothing beyond the octets of the message is written if and only if the length modulo 32 is 0 or over 24, or the length exceeds 2^32 - 32, where nothing is written at all |
| UeaUia.snow_3g_f8 | library/snow_3g/snow-3g.c:378-418 | the memory from the message on becomes the f8 of what it was, in place, from any static state left by earlier calls; the memory need only reach as far as the source writes |
| UeaUia.f__snow__3g__f8 | library/snow_3g/Snow3G_FunctionDefs.cc:85-97 | the test suite's call, which passes the number of octets as the number of bits |
| UeaUia.CallDecipheredExactly | library/snow_3g/Snow3G_FunctionDefs.cc:85-97 | the call made again on its own output, with anything behind it in memory, gives the data back if and only if the number of octets is a multiple of 8 or the bits that f8 clears at an eighth of the data were zero |
| UeaUia.CallLeavesClear | library/snow_3g/Snow3G_FunctionDefs.cc:85-97 | and only the first 4 * ceil(n / 32) of n octets are enciphered: every octet behind them is returned in clear |
| Gf64.Commutative | library/snow_3g/snow-3g.c:466-477 | the product is commutative, for every reduction constant |
| Gf64.Distributive | library/snow_3g/snow-3g.c:466-477 | it distributes over exclusive or |
| Gf64.Associative | library/snow_3g/snow-3g.c:466-477 | it is associative |
| Gf64.MUL64 | library/snow_3g/snow-3g.c:466-477 | the loop over the bits of P computes the product by Horner's rule |
| Gf64Field.SquareIsProduct | library/snow_3g/snow-3g.c:466-477 | spreading the bits apart and folding back the upper half is the product of an element with itself |
| Gf64Field.FrobeniusIsIdentity | library/snow_3g/snow-3g.c:542 | with c = 0x1b, squaring 64 times gives every element back |
| Gf64Field.InverseLaw | library/snow_3g/snow-3g.c:542 | with c = 0x1b, every element but zero has an inverse |
| Gf64Field.NoZeroDivisors | library/snow_3g/snow-3g.c:542 | so a product is zero only if a factor is |
| UeaUia.HornerIsPolynomial | library/snow_3g/snow-3g.c:545-571 | EVAL is the sum of block j times P^(n - j), for every number of blocks |
| UeaUia.LastBlock | library/snow_3g/snow-3g.c:555-568 | the last block is the remaining bits, padded with zeros, from any place in the memory; no octet behind the last message bit is read |
| UeaUia.F9DependsOnMessageBits | library/snow_3g/snow-3g.c:499-586 | buffers that agree on the first length bits get the same MAC |
| UeaUia.MacDifference | library/snow_3g/snow-3g.c:545-585 | under equal key, count, fresh, direction and length, two MACs differ by the upper half of (polynomial of the difference of the messages) times Q |
| UeaUia.snow_3g_f9 | library/snow_3g/snow-3g.c:499-586 | for every 64-bit length, 0 included, and from any static state, the four octets are the MAC that the source's loop with its 32-bit block count and octet index comes to |
| UeaUia.SourceIsF9 | library/snow_3g/snow-3g.c:533-571 | from 1 bit to 2^35 bits this reads the octets of the message and no others, and is the MAC of the standard |
| UeaStandard.F9Standard | library/snow_3g/snow-3g.c:499-586 | from 1 bit to 2^35 bits the source's MAC is: the sum of block j times P^(n - j), plus the length as a number, times Q, the upper half, plus z5, where P, Q and z5 are named words of the keystream from octets of key, COUNT, FRESH and direction |
| UeaUia.FarOctetsIgnored | library/snow_3g/snow-3g.c:548-551 | at every length, messages that agree on their first 2^32 octets have the same MAC from the source, whatever follows; F9Lengths.LateBitMissed shows what the standard's polynomial makes of such a pair |
| F9Lengths.ReadsMessageExactly | library/snow_3g/snow-3g.c:533-571 | the source may be run on a memory if and only if the message is there, for every memory, exactly for lengths from 1 bit to 2^35 bits |
| F9Lengths.StandardExactly | library/snow_3g/snow-3g.c:533-585 | for every 64-bit length: the source's MAC is the standard's for all messages and keystream words if and only if the length is from 1 bit to 2^35 bits |
| F9Lengths.LateBitMissed | library/snow_3g/snow-3g.c:548-551 | for every longer length, the input that fails: one bit set behind the first 2^32 octets, P = 1; the source's EVAL is 0 and the standard's is not |
| F9Lengths.EmptyMisread | library/snow_3g/snow-3g.c:533-571 | for length 0, the input that fails: 2^32 octets read, one bit set in the last, and a point P at which the source's EVAL is not the standard's 0 |
| UeaUia.f__snow__3g__f9 | library/snow_3g/Snow3G_FunctionDefs.cc:109-131 | the test suite's call, with eight times the number of octets as the length |
| UeaUia.CallIsF9 | library/snow_3g/Snow3G_FunctionDefs.cc:109-131 | for data of at least one octet the call reads no memory behind them and returns the standard's MAC |
| UeaUia.EmptyCallReads | library/snow_3g/Snow3G_FunctionDefs.cc:124-125 | for no data at all it reads 2^32 octets of the memory behind them |
| F9Collisions.FewRoots | library/snow_3g/snow-3g.c:545-571 | a polynomial over the field that is not zero has fewer roots than coefficients |
| F9Collisions.FewCollidingPoints | library/snow_3g/snow-3g.c:545-571 | two different messages of n blocks have the same EVAL at no more than n of the 2^64 points P |
| F9Collisions.FewMeetingPoints | library/snow_3g/snow-3g.c:545-573 | for messages of any two lengths and any two constants added to EVAL, different in the constant or else equally long and different in a bit, the sums agree at no more points P than the longer message has blocks |
| F9Collisions.FewCollidingLengths | library/snow_3g/snow-3g.c:545-573 | so messages of different lengths, with the length entering as the last coefficient, agree at no more points than the longer one has blocks |
| F9Collisions.DifferenceExactly | library/snow_3g/snow-3g.c:573-585 | for equal lengths, when EVAL differs, a given difference of the MACs comes about for exactly the multipliers w / d with that difference as the upper half of w |
| F9Collisions.MacsDifferExactly | library/snow_3g/snow-3g.c:573-585 | the same for messages of any two lengths |
| F9Forgeries.MacIsHashed | library/snow_3g/snow-3g.c:573-585 | a MAC is a value that depends on P, Q and the message, masked with z5 |
| F9Forgeries.FewMultipliers | library/snow_3g/snow-3g.c:577 | where EVAL differs, at most 2^32 multipliers Q give a chosen difference of the MACs |
| F9Forgeries.FewForgingPairs | library/snow_3g/snow-3g.c:533-585 | of all pairs (P, Q), at most N * 2^64 + (2^64 - N) * 2^32 give two different messages of any lengths MACs with a chosen difference, equal MACs included, where N is the number of blocks of the longer one |
| RlcBits.clone_aligned_buffer_lsbf | library/RLCMAC_EncDec.cc:307-337 | the loop with its carried octet writes the merged octets and nothing behind them |
| RlcBits.AlignedIsSlice | library/RLCMAC_EncDec.cc:307-337 | the copy is the slice of the source's bits, lowest bit first, that starts at the offset, aligned or not, for every length |
| RlcBits.get_egprs_data_block | library/RLCMAC_EncDec.cc:341-366 | takes a block out, its first two bits alone in the first octet |
| RlcBits.GotBits | library/RLCMAC_EncDec.cc:341-366 | in bits: two bits at the offset, six zeros, the bits behind |
| RlcBits.clone_unaligned_buffer_lsbf | library/RLCMAC_EncDec.cc:371-409 | the loop, the octet after it and the two octets written again, for every offset |
| RlcBits.put_egprs_data_block | library/RLCMAC_EncDec.cc:413-446 | the header and the block together, with the length that the source asks for |
| RlcBits.PutBits | library/RLCMAC_EncDec.cc:386-408 | at an offset on the last bit of an octet: the header's bits stay, the block's two bits and then its octets follow |
| RlcBits.GetAfterPut | library/RLCMAC_EncDec.cc:341-446 | there, taking a block out of any stream that begins with what was put in gives the block, and then what follows |
| RlcBits.RoundTripsExactly | library/RLCMAC_EncDec.cc:341-446 | for all headers and blocks, putting and getting fit together if and only if the offset is on the last bit of an octet |
| RlcBlocks.OnlyType3RoundTrips | library/RLCMAC_EncDec.cc:272-302 | of the three uplink header types, whose data blocks put_egprs_data_block places, only type 3 has such an offset |
| RlcBlocks.SchemeRoundTrip | library/RLCMAC_EncDec.cc:192-229 | every coding scheme but MCS-0 is recognised by the length of its blocks |
| RlcBlocks.DataBlocksFillBlock | library/RLCMAC_EncDec.cc:231-302 | for MCS-1 to MCS-9, the tables of block lengths, data block lengths and header offsets agree: header and data blocks reach exactly into the last octet |
| RlcWire.GprsBlockLengths | library/RLCMAC_Templates.ttcn:64-124 | with CS-1 to CS-4 a block is its 184, 271, 315 or 431 bits rounded up to octets, and without spare bits rounded down |
| RlcWire.EgprsBlockLengths | library/RLCMAC_EncDec.cc:231-302 | data blocks are whole numbers of payload units of 37, 28, 22 or 34 octets, and header and data blocks rounded up are the block |
| RlcWire.SchemeOfLength | library/RLCMAC_EncDec.cc:192-229 | a scheme is recognised exactly by its block length, MCS-5 to MCS-9 also by one octet less, and anything else is CS-1 |
| RlcUplink.Type1IsPacked | library/RLCMAC_EncDec.cc:1235-1257 | the bit-fields of the type 1 header, split across octets, are the numbers one after the other, lowest bit first, and nine spare bits |
| RlcUplink.Type2IsPacked | library/RLCMAC_EncDec.cc:1259-1280 | the same for type 2, with thirteen spare bits |
| RlcUplink.Type3IsPacked | library/RLCMAC_EncDec.cc:1282-1302 | the same for type 3, with two spare bits |
| RlcWire.Type1Values | library/RLCMAC_EncDec.cc:1235-1257 | the six octets of the type 1 header as numbers, for fields of any size: which bits of which field, times which power of two |
| RlcWire.Type2Values | library/RLCMAC_EncDec.cc:1259-1280 | the five of type 2 |
| RlcWire.Type3Values | library/RLCMAC_EncDec.cc:1282-1302 | the four of type 3 |
| RlcUplink.Type3RoundTrip | library/RLCMAC_EncDec.cc:858-885 | every header in its ranges is read back, and the two bits behind it are clear |
| RlcWire.Type3ReadFrom | library/RLCMAC_EncDec.cc:858-885 | any four octets taken apart: every field of the type 3 header as a number of their bits |
| RlcUplink.LiRoundTrip | library/RLCMAC_Types.ttcn:156-165 | a length indicator octet is read back, GPRS and EGPRS |
| RlcWire.LiReadFrom | library/RLCMAC_Types.ttcn:156-165 | any octet taken apart: E its lowest bit, then M in GPRS only, then the length |
| RlcBlocks.encode_trailing_padding_spb | library/RLCMAC_EncDec.cc:448-469 | 0x2b up to the length without spare bits, zeros up to the block length, nothing for a block that is too large |
| RlcBlocks.get_li_octets | library/RLCMAC_EncDec.cc:766-789 | the loop stops at the first octet with E set, or for want of input |
| RlcBlocks.get_payloads | library/RLCMAC_EncDec.cc:817-824 | each indicator gets its payload, as far as there is any left |
| RlcBlocks.BodyRoundTrip | library/RLCMAC_EncDec.cc:735-835 | LLC blocks with indicators that give their lengths, and E in the last only, come back with TLLI and PFI, whatever padding follows |
| RlcBlocks.PayloadsArePrefix | library/RLCMAC_EncDec.cc:799-824 | on any input, the decoded payloads strung together are the start of what follows the headers, all of it without indicators, and none is longer than its indicator says |
| RlcWire.BodyRead | library/RLCMAC_EncDec.cc:735-835 | every outcome of the decoder on every input: indicators up to the first with E, four octets of TLLI or read beyond the end, one of PFI or incomplete, and to each indicator the octets at its place, as many as it says or as there are |
| RlcWire.BodyWithoutEnd | library/RLCMAC_EncDec.cc:766-789 | and incomplete if no octet has E |
| RlcBlocks.FixedBits | library/RLCMAC_EncDec.cc:1159-1174 | the encoder sets E, TI and PI for what follows and changes no other bit of the header |
| RlcBlocks.enc__RlcmacUlDataBlock | library/RLCMAC_EncDec.cc:1151-1233 | header, indicators, TLLI, PFI, payloads and padding, in this order |
| RlcWire.UplinkOctets | library/RLCMAC_EncDec.cc:1151-1233 | the whole block, octet by octet: PI 0x40 and TI 0x01 in the second octet, E 0x01 in the third, each indicator as a number, TLLI, PFI, payloads, 0x2b and zeros up to the block's lengths |
| RlcBlocks.dec__RlcmacUlDataBlock | library/RLCMAC_EncDec.cc:735-835 | the decoder's result for every input, incomplete or too short ones included |
| RlcBlocks.UlDataBlockRoundTrip | library/RLCMAC_EncDec.cc:1151-1233 | what decoding makes of an encoded block: the same with indicators everywhere; padding at the end of a single block without; one empty block for none; the coding scheme kept whenever the block fits |
| RlcBlocks.SurvivesExactly | library/RLCMAC_EncDec.cc:1176-1233 | for every list of LLC blocks with indicators in their fields' ranges: it comes back, with TLLI and PFI, if and only if it is one block without a header and no padding follows, or all have headers with E in the last alone and each indicator gives its payload's length, or more where nothing follows |
| RlcBlocks.TrailingBlockLost | library/RLCMAC_EncDec.cc:1204-1225 | a block without a header behind others with theirs is written, and the decoder returns the others alone |
| RlcBlocks.UlDataBlockSurvivesExactly | library/RLCMAC_EncDec.cc:735-835 | the same if-and-only-if for whole uplink data blocks and the padding that they get |
| RlcEgprs.enc__RlcmacUlEgprsDataBlock | library/RLCMAC_EncDec.cc:1304-1421 | for all three header types: the header, the unaligned data block with its TLLI last octet first, and padding |
| RlcWire.DataBlockOctets | library/RLCMAC_EncDec.cc:1341-1402 | the data block before it is moved: E and TI as a number, indicators, the TLLI last octet first, PFI, payloads |
| RlcWire.EgprsOctets | library/RLCMAC_EncDec.cc:1304-1421 | header, data block at bit 46, 37 or 31, and padding |
| RlcWire.PutAt31 | library/RLCMAC_EncDec.cc:371-446 | behind a type 3 header, every octet that is written, the octet across the border included |
| RlcWire.PutAt37 | library/RLCMAC_EncDec.cc:371-446 | behind a type 2 header likewise, whose fifth octet is lost |
| RlcEgprs.Type1HeaderOverwritten | library/RLCMAC_EncDec.cc:1406-1414 | with a type 1 header nothing of it is left: the octets written are the data block's own, without its first five |
| RlcEgprs.Type2HeaderDamaged | library/RLCMAC_EncDec.cc:1406-1414 | with a type 2 header the data block's E bit lands on rsb and its TI bit on the PFI indicator |
| RlcEgprs.dec__RlcmacUlEgprsDataBlock | library/RLCMAC_EncDec.cc:887-980 | the decoder's result for every input of every length: a block, incomplete, or, for lengths of other schemes than MCS-1 to MCS-4, a header that stays unbound |
| RlcEgprs.DataBlockComesOut | library/RLCMAC_EncDec.cc:1304-1421 | a block that fits its scheme is as long as the scheme asks for, and header and data block come out as they went in |
| RlcEgprs.UlEgprsRoundTrip | library/RLCMAC_EncDec.cc:887-980 | what decoding makes of an encoded EGPRS block, in all three cases, across the bit shift |
| RlcEgprs.UlEgprsSurvivesExactly | library/RLCMAC_EncDec.cc:1386-1395 | since only the encoder reverses the TLLI, a type 3 block survives if and only if it has none or one that reads the same in both directions, and its LLC blocks survive what fills the data block behind them |
| TlvLength.expand_tlv_part | library/BSSGP_Helper.cc:12-68 | the loop's result on every input: the list with 16-bit lengths, an error, or a value read from beyond the end |
| TlvLength.compact_tlv_part | library/BSSGP_Helper.cc:72-124 | the same for the other direction |
| TlvLength.ExpandReadsWire | library/BSSGP_Helper.cc:12-68 | expanding succeeds with z if and only if the input is a list of elements in wire form, each in the form of its choice, and z the same list with 16-bit lengths |
| TlvLength.ExpandUndoesCompact | library/BSSGP_Helper.cc:12-124 | whatever compacting accepts, expanding gives it back if and only if no element is longer than 0x7fff octets |
| TlvLength.CompactIsUniqueShortest | library/BSSGP_Helper.cc:12-124 | compacting what was expanded gives a form that expands to the same, is no longer than the original, and as long only if it is the original |
| TlvLength.TruncationDetected | library/BSSGP_Helper.cc:43-46 | an element cut short at the end of the input, in its head or its value, is noticed exactly if its head is incomplete or announces more than the whole input has, the offset being left out of the check |
| TlvLength.TruncationMissed | library/BSSGP_Helper.cc:43-46 | two elements, the second short of three octets, are not noticed |
| TlvLength.CompactTruncationDetected | library/BSSGP_Helper.cc:88-108 | the same exact condition for the compacting scanner, which has the same check |
| TlvLength.CompactTruncationMissed | library/BSSGP_Helper.cc:105-108 | two elements with 16-bit lengths, the second short of three octets, are not noticed either |
| TlvLength.f__BSSGP__expand__len | library/BSSGP_Helper.cc:130-149 | header of 1 or 8 octets kept, the rest expanded, too short messages refused |
| TlvLength.f__BSSGP__compact__len | library/BSSGP_Helper.cc:151-170 | the same, compacted |
| TlvLength.f__NS__expand__len | library/BSSGP_Helper.cc:175-194 | NS-UNITDATA untouched, other messages expanded behind the type octet |
| TlvLength.f__NS__compact__len | library/BSSGP_Helper.cc:196-215 | the same, compacted |
| TlvLength.BssgpExpandUndoesCompact | library/BSSGP_Helper.cc:130-170 | the round trip for whole BSSGP messages, with the same exact condition |
| TlvLength.BssgpCompactIsUniqueShortest | library/BSSGP_Helper.cc:130-170 | the unique shortest form for whole BSSGP messages |
| TlvLength.NsExpandUndoesCompact | library/BSSGP_Helper.cc:175-215 | the round trip for NS messages |
| TlvLength.NsCompactIsUniqueShortest | library/BSSGP_Helper.cc:175-215 | the unique shortest form for NS messages |
| TlvOctets.BssgpExpanded | library/BSSGP_Helper.cc:130-149 | for every list of elements, octet by octet: behind eight octets of header for the types 0x00 and 0x01, or one for any other, elements with length octet 0x80 + n or two length octets become elements with two; types 0x00 and 0x01 are refused below eight octets |
| TlvOctets.BssgpCompacted | library/BSSGP_Helper.cc:151-170 | the other direction: up to 0x7f octets one length octet, otherwise two |
| TlvOctets.NsExpanded | library/BSSGP_Helper.cc:175-194 | the same behind the one octet of an NS message; those of type 0x00 stay as they are |
| TlvOctets.NsCompacted | library/BSSGP_Helper.cc:196-215 | and back |
| LlcFcs.TableIsEightClocks | library/BSSGP_Helper.cc:241-274 | each of the 256 table entries is eight clocks of the reflected bit-serial CRC with 0xad85dd |
| LlcFcs.TableRefinesSerial | library/BSSGP_Helper.cc:278-283 | over every octet string and from every 24-bit start value, the table CRC is the bit-serial division register, and its value never leaves 24 bits |
| LlcFcs.crc24_calc | library/BSSGP_Helper.cc:278-283 | the loop is the table CRC of the octets |
| LlcFcs.f__LLC__compute__fcs | library/BSSGP_Helper.cc:285-301 | the complement of the CRC, lowest octet first |
| LlcFcs.FcsChecks | library/BSSGP_Helper.cc:285-301 | the CRC over a message and three more octets is one constant, 0x0c91b6, if and only if these are its check sequence |
| FrameChecks.FcsStandard | library/BSSGP_Helper.cc:278-301 | three octets are the check sequence of a message if and only if, complemented and lowest bits first, they are the remainder of the message with its first 24 bits inverted and 24 zeros behind it, by x^24 + x^23 + x^21 + x^20 + x^19 + x^17 + x^16 + x^15 + x^13 + x^8 + x^7 + x^5 + x^4 + x^2 + 1 |
| LlcFcs.BurstChangesFcs | library/BSSGP_Helper.cc:278-301 | messages that differ within one window of at most 24 bits, at any bit position, have different check sequences |
| LlcFcs.ThreeOctetsChangeFcs | library/BSSGP_Helper.cc:278-301 | so changing one, two or three neighbouring octets always changes it |
| CrcDoubleErrors.FcsMissesExactly | library/BSSGP_Helper.cc:278-301 | messages that differ in two bits have the same check sequence if and only if the distance between them is a multiple of 255 |
| CrcDoubleErrors.ShortMessagesProtected | library/BSSGP_Helper.cc:278-301 | so two flipped bits in less than 32 octets always change it |
| CrcDoubleErrors.FcsMissesTwoBits | library/BSSGP_Helper.cc:278-301 | with 32 octets they do not: first and last bit flipped, same check sequence |
| CrcTheory.RegisterIsRemainder | library/IuUP_EncDec.cc:60-114 | a CRC register ends at r if and only if r is the remainder of message times x^n modulo the generator |
| CrcTheory.DivisionUnique | library/IuUP_EncDec.cc:60-114 | quotient and remainder are unique |
| CrcTheory.CodewordHasZeroRemainder | library/IuUP_EncDec.cc:60-114 | a message followed by its CRC leaves zero |
| CrcTheory.BurstDetected | library/IuUP_EncDec.cc:60-114 | messages that agree outside a window of at most n bits have equal CRCs if and only if they are equal |
| CrcTheory.OddErrorDetected | library/IuUP_EncDec.cc:60-114 | with x + 1 in the generator, flipping an odd number of bits is always detected |
| CrcOrder.OrderDivides | library/IuUP_EncDec.cc:60-114 | x^k is 1 modulo the generator exactly for the multiples of the order of x |
| CrcOrder.TwoFlipsExactly | library/IuUP_EncDec.cc:60-114 | flipping two bits of a message leaves its CRC as it is if and only if the distance between them is a multiple of the order of x modulo the generator |
| CrcDoubleErrors.Orders | library/IuUP_EncDec.cc:119-131 | the orders of x for CRC-6, CRC-10 and the LLC frame check sequence are 31, 511 and 255 |
| CrcDoubleErrors.Crc6MissesExactly | library/IuUP_EncDec.cc:119-131 | octet strings that differ in two bits have the same CRC-6 if and only if the distance is a multiple of 31 |
| CrcDoubleErrors.Crc10MissesExactly | library/IuUP_EncDec.cc:119-131 | and the same CRC-10 if and only if it is a multiple of 511 |
| CrcDoubleErrors.ShortFramesProtected | library/IuUP_EncDec.cc:147-183 | so two flipped bits in the two octets of a header, or in a payload of up to 63 octets, are always detected |
| IuUp.osmo_pbit2ubit | library/IuUP_EncDec.cc:15-49 | unpacks the bits, highest first, and nothing more; asked for none, it still writes one |
| IuUp.osmo_crc8gen_compute_bits | library/IuUP_EncDec.cc:59-82 | the loop runs the bit step over the input, for every code of 1 to 8 bits |
| IuUp.osmo_crc16gen_compute_bits | library/IuUP_EncDec.cc:91-114 | the same for 1 to 16 bits |
| IuUp.CrcIsRemainder | library/IuUP_EncDec.cc:119-131 | the CRC-6 and CRC-10 of an octet string are r if and only if r is the remainder of its bits by the generator |
| IuUp.osmo_iuup_compute_payload_crc | library/IuUP_EncDec.cc:147-172 | the payload checksum, 0 for type 1, -1 for unknown types and short frames |
| IuUp.osmo_iuup_compute_header_crc | library/IuUP_EncDec.cc:174-183 | the header checksum, -1 for short frames |
| IuUp.f__enc__IuUP__PDU | library/IuUP_EncDec.cc:230-248 | octets 2 and 3 replaced by both checksums |
| IuUp.EncodedFields | library/IuUP_EncDec.cc:230-248 | for types 0 and 14 nothing but octets 2 and 3 changes, and recomputing both checksums gives what they hold |
| FrameChecks.FrameStandard | library/IuUP_EncDec.cc:230-248 | octets 2 and 3 of every encoded frame, bit by bit: the remainder of the first two octets by x^6 + x^5 + x^3 + x^2 + x + 1, then that of the payload by x^10 + x^9 + x^5 + x^4 + x + 1 in types 0 and 14, zeros in type 1, ones in any other |
| IuUp.EncodedFrameChecks | library/IuUP_EncDec.cc:230-248 | header with its CRC-6, and payload with its CRC-10, leave zero in a receiver's registers |
| IuUp.TypeOnePayload | library/IuUP_EncDec.cc:245 | frames of type 1 keep their payload if and only if its first octet is zero, since the encoder writes into it |
| IuUp.PayloadBurstDetected | library/IuUP_EncDec.cc:91-114 | payloads that differ within a window of at most 10 bits have different CRC-10s |
| IuUp.HeaderBurstDetected | library/IuUP_EncDec.cc:59-82 | the same for 6 bits and CRC-6 |
| IuUp.OddDamageDetected | library/IuUP_EncDec.cc:59-131 | an odd number of flipped bits changes both checksums |
| Milenage.MemcmpIsNumeric | library/milenage/milenage.c:387 | memcmp orders octet strings as the big-endian numbers they stand for |
| Milenage.milenage_f1 | library/milenage/milenage.c:119-156 | the loops over three temporary arrays compute MAC-A and MAC-S |
| Milenage.milenage_f2345 | library/milenage/milenage.c:171-240 | and RES, CK, IK, AK and AK* |
| MilenageStandard.MacsAreStandard | library/milenage/milenage.c:119-156 | MAC-A and MAC-S are the halves of a block stated octet by octet: what of SQN, AMF, OPc and TEMP the cipher gets at each place, and OPc added |
| MilenageStandard.KeysAreStandard | library/milenage/milenage.c:171-240 | RES, AK, CK, IK and AK* likewise: TEMP plus OPc turned by 0, 4, 8 and 12 octets, with 1, 2, 4 and 8 added to the last, and which octets of the result each of them is |
| Milenage.milenage_generate | library/milenage/milenage.c:256-279 | AUTN, IK, CK and RES, or nothing without room for RES |
| Milenage.milenage_auts | library/milenage/milenage.c:291-306 | the USIM's sequence number, or failure if MAC-S is wrong |
| Milenage.milenage_check | library/milenage/milenage.c:353-424 | the three ways out; RES, CK and IK are filled in in every case, equal to the network's |
| MilenageStandard.TokensAreStandard | library/milenage/milenage.c:256-406 | AUTN and AUTS octet by octet, with AMF zero in the MAC of AUTS |
| Milenage.Agreement | library/milenage/milenage.c:256-424 | a genuine token is accepted if and only if its sequence number exceeds the USIM's; otherwise the answer lets the network recover the USIM's number |
| Milenage.OneResyncIsEnough | library/milenage/milenage.c:256-424 | after one resynchronisation every larger number is accepted, under any challenge |
| Milenage.AcceptedIsGenuine | library/milenage/milenage.c:353-424 | the USIM accepts exactly the tokens that the network makes for larger sequence numbers |
| Milenage.RecoveredIsGenuine | library/milenage/milenage.c:291-306 | the network recovers a number from exactly the answer that a USIM at that number gives |
| Milenage.WrongMacRefused | library/milenage/milenage.c:387-421 | a token with a wrong MAC is refused if and only if it claims a larger number; otherwise it is answered like a genuine one |
| Milenage.WrongMacAnswered | library/milenage/milenage.c:387-402 | such tokens exist for every challenge |

## Left out

- AES, CMAC and SHA-256 are functions passed in. Of AES the channel assumes that a block can be decrypted, Milenage
  nothing; of the others nothing is assumed.
- ASN.1: a bound profile package is the segments that the library hands out, and a request for new keys is parsed by a
  function passed in. The overload of process_bound_profile_package with one segment per sequence is not modelled: it
  is the same with lists of one.
- generate_replace_session_keys_data, which is no inverse of the ASN.1 parser, and the printing of keys.
- BspRuns.Lockstep: that a foreign segment is refused is its premise; BspArrivals.OnlyTheSentIsDelivered goes without
  it.
- BspArrivals.OnlyTheSentIsDelivered: how likely a forged or colliding CMAC is depends on CMAC. Both ends are taken to
  go by the tag in whether a segment is encrypted, as process_bound_profile_package does.
- Snow3g.Snow.ClockLFSRKeyStreamMode: the sixteen words of the feedback register are one record in one field, not
  sixteen static variables.
- Gf64.MUL64: the loop carries P shifted right by i along instead of shifting P by i in every pass.
- UeaUia.snow_3g_f8: the memory behind the message, as far as the source writes to it, is part of the array; lengths
  are those of the source's 32-bit parameter.
- UeaUia.snow_3g_f9: the memory that the source reads must be there, which for 1 bit to 2^35 bits are the octets of
  the message.
- F9Lengths.StandardExactly: it speaks of all keystream words; which of them some key produces is not known.
- UeaUia.f__snow__3g__f9: the memory behind the data in TITAN's buffer is passed in, as for f8.
- UeaUia.f__snow__3g__f8: the memory behind the data in TITAN's buffer, which f8 may write to, is passed in; whether
  that buffer shares its memory with the caller's data is not modelled.
- F9Forgeries.FewForgingPairs: it counts pairs; that keystream words P and Q are evenly distributed is not claimed.
- RlcBits.put_egprs_data_block: the memory behind the block and behind the buffer, which the source reads and writes
  because it asks for the header's octets twice, is passed in; the fixed size of the temporary header buffer is not
  modelled.
- RlcBlocks.dec__RlcmacUlDataBlock: of the MAC header only PI, TI and E are looked at; the code that TITAN generates
  for it, for length indicators and for the PFI octet is modelled by the place of the bits alone.
- RlcEgprs.dec__RlcmacUlEgprsDataBlock: what the generated code does when asked for the type of a header that stays
  unbound. The two bits spb are one number, since their order is TITAN's.
- Downlink RLC/MAC blocks and control blocks.
- TlvLength.expand_tlv_part: what lies behind the end of the input when a value is read from there.
- IuUp.f__enc__IuUP__PDU: the generated encoder in front of it; frames are octets. The limit of 1024 octets of
  payload, the size of a local buffer, is not needed by the proofs.
- gsm_milenage, which folds RES, CK and IK by exclusive or.
- The TTCN-3 suites, the RSP client with its TLS and certificates, lte_crypto and ng_crypto key derivation, the MNCC
  struct copies, the one-line codec ports, and the scripts that start the tests.
