# MultiCS, modelled and proved in Dafny

MultiCS is a proxy that relays and caches the 16-byte control words of a conditional access system between clients, card
servers and cache peers. This project models the parts of it that carry rules of their own and proves what they promise.

* **The message cipher** (`Des*.dfy`): a Feistel cipher whose key registers are turned in place, tripled, chained over a
  message with padding, checksum and trailing vector, under a session key that is spread, made odd and permuted; the design
  criteria of its S-boxes and permutations, and a worked block.
* **Both AES implementations** (`Aes*.dfy`): the table-driven one for three key lengths and the byte-wise one for 256 bits,
  against one description of the cipher in terms of columns, with the meaning of its box and the worked block of FIPS 197;
  ECB, counter mode and the sealed messages on top.
* **Digests** (`Hash*.dfy`, `Hmac.dfy`, `Rc4.dfy`): SHA-1 and SHA-256 with their padding, the roots their constants come from and
  a worked digest of each, the keyed hash, keys from passwords, and the stream cipher.
* **The request cache** (`Ecm*.dfy`, `Rings.dfy`, `Walks.dfy`): nodes that sit in two circular lists at once and are recycled where
  they stand, lookups that stop at the first dead node, and runs of stores and retries.
* **The word cache** (`Cache*.dfy`): words that peers report, a threshold, a judgement, and at most one notification.
* **The cycle check** (`Cycle*.dfy`): an automaton of five stages that learns how a channel changes its words.
* **Peers** (`PeerCards.dfy`, `PeerProbe.dfy`): common cards and the search among them, and the failure detector.
* **Reload** (`ReloadPlan.dfy`, `Reload.dfy`): two linked lists reconciled so that survivors stay the same objects, for clients,
  servers and cache peers.
* **Searching and coding** (`Horspool.dfy`, `Crc32.dfy`, `Base64*.dfy`).

Where the source updates things in place the model does too: classes with their fields, arrays and loops, each tied to a
function of the old state, and the lemmas speak of those functions, over every input and every run.

Some promises turned out to hold only under a condition; then the model keeps the code and the lemma states the condition:

* A message of fewer than two bytes is encrypted but never accepted again (`DesMessage.MessageRoundTrip`). The block index of the
  encryption is a C `short` (`src/des.c:586`): the padded message and its checksum have at most 32767 bytes
  (`DesMessage.Encrypt`, `DesMessage.Exchange`).
* The request lookups rely on the newest node coming first. A client that repeats a failed request gives its node a new date
  where it stands (`src/srv-cccam.c:917`, `src/srv-camd35.c:407`, `src/srv-mgcamd.c:774`, `src/srv-newcamd.c:518` and
  `src/srv-cs378x.c:528`, which count the tries, and `src/srv-cs378x.c:636` and `src/srv-freecccam.c:497`, which do not). The
  lookups are then complete at every time exactly when all nodes in front of it carry that date (`EcmStore.Store.Retry`);
  `EcmStore.LostLookup` is a store in which a lookup returns null although a living match is there.
* A node is recycled by its date, and a retry puts the date ahead of the birth. The number of nodes is bounded by the stores in one
  window of 34 seconds and d, where d is how far dates are ahead (`EcmRuns.BoundedRun`), which R retries of each request bound by
  17 R seconds (`EcmRuns.BoundedByRetries`; where the source counts the tries, R is its limit, `EcmStore.Store.Repeat`). A store
  breaks the bound of 34 seconds exactly when the oldest node is young by its date but not by its birth
  (`EcmRuns.BoundBreaksIff`, reached in `EcmStore.OverfullStore`), and where the source does not count the retries there is no
  bound (`EcmRuns.NodesPileUp`, on the store `EcmStore.PileUp`).
* The counter of reports has 16 bits; when it has gone round, a word that was passed on can be marked as wrong
  (`CacheWords.NeverBoth`, `CacheWords.RoundMarks`, on a bucket `CacheBucket.MarkedEntry`).
* A running node that was deleted by hand is marked; the reload takes it out even when the new configuration has its name, and a new
  node takes its place. A cache peer made at run time stays although the new configuration does not have it
  (`Reload.SurvivesIff`, `Reload.LiveHasNewNames`).
* In the cycle check the length of the window of stage 3 is read as unsigned. It stays open for ever exactly when twice the cycle
  time does not reach the last delay and a second, or exceeds what is left of the clock (`CycleWindow.ReachableStaysOpenIff`). A
  lapse of stage 3 leaves the learning lock off and the delay in force, so that one gap near the old cycle is learned, however
  short: the window then fails to close, or is shorter than the cycle, under the conditions of `CycleWindow.RelearnedWindow`, and
  both are reached (`CycleWindow.StuckRun`, `CycleWindow.ShortRun`). Until such a lapse it has room for a cycle
  (`CycleWindow.RoomyFromFirstArrival`).
  The comment at `src/cwc.c:23` says that the bytes of the half that must not change are counted; the code counts the other
  half, and the model follows the code.
* The cards of a peer end at the first zero. A peer that announces the card zero loses its other cards with the next message
  (`PeerCards.FaithfulIff`, `PeerCards.ForgottenCards`).
* The common cards are sorted as unsigned and searched as signed numbers. All of them are found exactly when they lie on one side of
  2^31, otherwise the first only (`PeerCards.Peer.BinarySearch`, `PeerCards.FindsAllIff`, `PeerCards.MissedCard`).
* A node that survives a reload keeps its old share limits while its cache exchange mode is on, and a server keeps its old key while
  it speaks another protocol (`Reload.TakesAllIff`).
* The text encoder and decoder never clear their chunk. A text comes back exactly when its length is a multiple of three or the
  byte behind its last group has no high bits (`Base64Spec.RoundTripIff`).
* With a time to live for each entry a dead one can hide a living one behind it: lookups are complete at every time exactly when
  the entries die from the last to the first (`CacheBucket.Bucket.FetchCompleteIff`, `CacheBucket.HiddenEntry`).

Time is a parameter of each step: a natural number that does not run backwards and does not wrap (below 2^31 milliseconds in the
cycle check, which casts to signed integers). Random bytes are arbitrary. Messages sent to other parts of the program are
entries of a log. The digests that the request cache stores are parameters.

## Model

| member | source | states |
|---|---|---|
| `DesKeys.LeftIsRight27` | src/des.c:234-253 | 27 rotations to the right by one place are one to the left, for a register of 28 bits |
| `DesKeys.RotFull` | src/des.c:218-232 | 28 rotations bring a register back, so the shifts of a key schedule may be counted modulo 28 |
| `DesKeys.RightRot` | src/des.c:218-232 | the byte loop rotates the 28-bit register right by one place |
| `DesKeys.LeftRot` | src/des.c:240-247 | 27 calls of the right rotation leave the register rotated left by one place |
| `DesKeys.RightRotKeys` | src/des.c:234-238 | both 28-bit registers of the key turn right by one place |
| `DesKeys.LeftRotKeys` | src/des.c:249-253 | both 28-bit registers of the key turn left by one place |
| `DesKeys.SixteenRounds` | src/des.c:359-407 | a non-zero mask that is shifted once a round is used up after exactly sixteen rounds |
| `DesKeys.TotalSixteen` | src/des.c:359-407 | the shifts of the sixteen rounds of each direction add up to 28 |
| `DesKeys.Mirrored` | src/des.c:359-407 | round i of decryption has turned the registers as far as round 15 - i of encryption, modulo 28 |
| `DesPermutation.IpRoundTrip` | src/des.c:129-186 | the final permutation undoes the initial one and the other way round |
| `DesPermutation.DoIp` | src/des.c:129-156 | the bit loops compute the permutation and overwrite every byte of the buffer, whatever it held |
| `DesPermutation.DoIpInverse` | src/des.c:158-186 | the bit loops compute the inverse permutation, also over an arbitrary buffer |
| `DesRound.ChunkBit` | src/des.c:188-216 | which register bit each bit of a six-bit group of the round key is |
| `DesRound.MakeK` | src/des.c:188-216 | the loops build the round key of the two registers |
| `DesRound.DesCore` | src/des.c:255-280 | expansion, key, substitution: the loops fill all four bytes of the result, whatever it held |
| `DesRound.Permut32` | src/des.c:282-306 | the loop that shifts bits into a zeroed word computes the permutation of the half |
| `DesRound.NoTwist` | src/des.c:317-357 | with a zero byte 7 of the key the byte twist of the round is the identity |
| `DesRound.HalvesRoundTrip` | src/des.c:317-357 | cutting a block into two halves and joining them loses nothing |
| `DesCipher.RoundUndone` | src/des.c:317-357 | a Feistel round between two swaps undoes itself, for every round function |
| `DesCipher.RoundsUndone` | src/des.c:359-407 | n decryption rounds undo the last n encryption rounds |
| `DesCipher.CipherRoundTrip` | src/des.c:359-407 | one direction of the cipher undoes the other, for every pair of registers and every block |
| `DesCipher.CoreRoundTrip` | src/des.c:359-407 | one direction of the block cipher, between the initial and the final permutation, undoes the other |
| `DesCipher.SixteenTimes` | src/des.c:359-407 | the loop over the mask makes the sixteen rounds with the round keys of its direction |
| `DesCipher.OneRound` | src/des.c:317-357 | the round updates the block in place as specified |
| `DesCipher.Des` | src/des.c:359-407 | the in-place routine computes the specified cipher of its key and mode |
| `DesCipher.EuroRoundTrip` | src/des.c:481-518 | for every key whose byte 7 is zero the triple cipher with the decryption operation undoes the encryption one |
| `DesCipher.TripleIsThreeCores` | src/des.c:481-518 | the middle permutations cancel: the triple operation is three core ciphers in a row |
| `DesCipher.EuroDes` | src/des.c:481-518 | the in-place routine computes the triple cipher at an offset and leaves the rest of the buffer alone |
| `DesMessage.ChecksumCancels` | src/des.c:580-644 | the xor of some bytes and of their checksum is zero |
| `DesMessage.BlockRoundTrip` | src/des.c:580-644 | one chained block is recovered with the vector it was chained with |
| `DesMessage.ChainRoundTrip` | src/des.c:580-644 | the chained blocks are recovered, for every number of blocks, key and vector |
| `DesMessage.PadAligns` | src/des.c:580-617 | padding and checksum bring the length to two more than a multiple of eight, with at most seven padding bytes |
| `DesMessage.MessageRoundTrip` | src/des.c:580-644 | decryption accepts an encrypted message if and only if it has at least two bytes, and then returns the message, the padding and one more byte |
| `DesMessage.Encrypt` | src/des.c:580-617 | the in-place routine builds padding, checksum, chained blocks and trailing vector; without a key nothing changes |
| `DesMessage.Decrypt` | src/des.c:619-644 | -1 for a bad size or checksum, otherwise the opened message in place and its length |
| `DesMessage.ChainBlocks` | src/des.c:604-615 | the chaining loop works block by block on the buffer |
| `DesMessage.UnchainBlocks` | src/des.c:619-644 | the loop deciphers block by block in place with the block before as vector |
| `DesMessage.Exchange` | src/des.c:580-656 | a message encrypted under a login key and decrypted again in the same buffer: the original bytes come back |
| `DesLoginKey.SpreadIsGroups` | src/des.c:544-564 | spreading cuts seven bytes into eight groups of seven bits |
| `DesLoginKey.AdjustedIsOdd` | src/des.c:523-542 | the adjusted byte has odd parity in its upper seven bits and the lowest one, and keeps the upper bits of an even byte |
| `DesLoginKey.Pc1Keeps` | src/des.c:67-128 | the key permutation of two bytes lists is equal only where their upper seven bits are |
| `DesLoginKey.LoginKeyInjective` | src/des.c:646-656 | no bit of the fourteen mixed bytes is lost on the way to the session key |
| `DesLoginKey.LoginKeyGet` | src/des.c:646-656 | the routine computes the session key; its bytes 7 and 15 are zero, so the triple cipher is used |
| `DesCriteria.OneBitTwoBits` | src/des.c:40-83 | two inputs of an S-box that differ in one bit have outputs that differ in at least two, for all eight boxes |
| `DesCriteria.MiddleBitsTwoBits` | src/des.c:40-83 | so have two inputs that differ in just the middle two bits |
| `DesCriteria.OuterBitsDiffer` | src/des.c:40-83 | two inputs that differ in the first two bits and agree in the last two have different outputs |
| `DesCriteria.RowsPermute` | src/des.c:40-83 | with the outer two index bits fixed the sixteen outputs of a box are 0 to 15, each exactly once |
| `DesCriteria.PermutedOnce` | src/des.c:33-37 | the 32-bit permutation moves every bit to one place and fills every place |
| `DesCriteria.OutputsSpread` | src/des.c:19-37 | the four outputs of a box go to four other chunks of the next round, two of them to the middle bits and two to the outer ones |
| `DesCriteria.NoReturn` | src/des.c:19-37 | no two boxes reach the middle bits of one another |
| `DesCriteria.ExpansionIs` | src/des.c:19-29 | chunk i of the expanded half is its group of four bits with one neighbour on each side |
| `DesCriteria.KeyBitsOnce` | src/des.c:6-16 | no key bit is taken twice; the first four chunks take theirs from the left register and the others from the right |
| `DesExample.ExpandedIs` | src/des.c:255-280 | the expanded half is the half turned by four places more for each chunk |
| `DesExample.AllRounds` | src/des.c:359-407 | under the key 133457799bbcdff1 the sixteen rounds take the halves cc00ccff f0aaf0aa to 0a4cd995 43423234 |
| `DesExample.Example` | src/des.c:359-407 | this key makes 85e813540f0ab405 of the block 0123456789abcdef |
| `AesTables.SboxUndone` | src/ccam3_crypto.c:218-253 | the reverse substitution table undoes the substitution table, for every byte |
| `AesTables.RSboxUndone` | src/ccam3_crypto.c:218-253 | the substitution table undoes the reverse one, for every byte |
| `AesBox.SboxIs` | src/ccam3_crypto.c:218-253 | the substitution box holds for every byte the bits of its inverse in the field, mixed and added to 0x63 as section 5.1.1 of FIPS 197 has it |
| `AesTables.Te0Is` | src/aes.c:8-73 | table Te0 holds the column (2, 1, 1, 3) times the substituted byte |
| `AesTables.Te1Is` | src/aes.c:74-139 | table Te1, the same turned by one byte |
| `AesTables.Te2Is` | src/aes.c:140-205 | table Te2, turned by two |
| `AesTables.Te3Is` | src/aes.c:206-272 | table Te3, turned by three |
| `AesTables.Te4Is` | src/aes.c:273-338 | table Te4 repeats the substituted byte |
| `AesTables.Td0Is` | src/aes.c:339-404 | table Td0 holds the column (14, 9, 13, 11) times the byte substituted backwards |
| `AesTables.Td1Is` | src/aes.c:405-470 | table Td1, turned by one byte |
| `AesTables.Td2Is` | src/aes.c:471-537 | table Td2, turned by two |
| `AesTables.Td3Is` | src/aes.c:538-603 | table Td3, turned by three |
| `AesTables.Td4Is` | src/aes.c:604-669 | table Td4 repeats the byte substituted backwards |
| `AesField.MixUndone` | src/ccam3_crypto.c:255-259 | the inverse column mixing, written with the products by 9, 11, 13 and 14, undoes the mixing by 2 and 3 |
| `AesField.InvMixAdd` | src/ccam3_crypto.c:255-259 | the inverse column mixing is linear: it may be applied to a round key beforehand |
| `AesSpec.CipherRoundTrip` | src/ccam3_crypto.c:282-389 | the inverse cipher undoes the cipher, for every schedule, number of rounds and state |
| `AesSpec.EqCipherIsInverse` | src/aes.c:780-827 | the equivalent inverse cipher of section 5.3.5 of FIPS 197, with reversed and mixed round keys, is the inverse cipher |
| `AesSpec.BlockRoundTrip` | src/ccam3_crypto.c:282-389 | the inverse cipher undoes the cipher on blocks of sixteen bytes |
| `AesWord.TeRoundIs` | src/aes.c:866-1000 | a round of table lookups is SubBytes, ShiftRows and MixColumns, and the last one the first two |
| `AesWord.TdRoundIs` | src/aes.c:1057-1190 | a round of inverse lookups is the inverse steps in the order of the equivalent cipher |
| `AesWord.MixKeyWordIs` | src/aes.c:806-825 | four lookups through Td and Te4 mix a word of the schedule inversely |
| `AesWord.SetEncryptKey` | src/aes.c:679-775 | for 128, 192 and 256 bits the schedule of section 5.2 of FIPS 197 with 10, 12 or 14 rounds; -1 for null, -2 for another length, and then nothing changes |
| `AesWord.ReverseKeys` | src/aes.c:780-805 | the exchange loop reverses the order of the round keys |
| `AesWord.SetDecryptKey` | src/aes.c:780-827 | the encryption schedule with its round keys reversed and all but the outer two mixed inversely |
| `AesWord.Encrypt` | src/aes.c:832-1017 | the loop of two rounds a turn computes the cipher under the schedule in the key |
| `AesWord.Decrypt` | src/aes.c:1023-1208 | the loop of two rounds a turn over the inverse tables computes the equivalent inverse cipher of the schedule in the key |
| `AesWord.ReversedUndoes` | src/aes.c:1023-1208 | under such a pair of schedules decryption returns the block that was encrypted |
| `AesWord.RoundTrip` | src/aes.c:679-1208 | set the encryption key, encrypt, set the decryption key, decrypt: the block comes back, for all three key lengths |
| `AesBytes.KeySchedule` | src/ccam3_crypto.c:261-280 | the byte-wise schedule is the one of section 5.2 of FIPS 197 |
| `AesBytes.EncryptBlock` | src/ccam3_crypto.c:282-335 | the byte-wise rounds in place compute the cipher |
| `AesBytes.DecryptBlock` | src/ccam3_crypto.c:337-389 | the byte-wise inverse rounds in place compute the inverse cipher |
| `AesModes.BothImplementations` | src/ccam3_crypto.c:261-335 | for every 256-bit key both implementations return the same sixty words, those of FIPS 197, and encrypt to the same block |
| `AesExample.Example` | src/ccam3_crypto.c:261-335 | the block of appendix C.3 of FIPS 197: the key 00 01 .. 1f makes 8ea2b7ca516745bfeafc49904b496089 of 00112233445566778899aabbccddeeff |
| `AesModes.EcbRoundTrip` | src/ccam3_crypto.c:391-401 | decrypting what was encrypted returns the data, for every length; a last partial block stays as it is |
| `AesModes.EcbInPlace` | src/ccam3_crypto.c:391-401 | the in-place loop enciphers or deciphers every whole block and leaves the bytes behind the data alone |
| `AesModes.IncrementInPlace` | src/ccam3_crypto.c:446-463 | the carry loop adds one to the last four bytes of the counter, modulo 2^32 |
| `AesModes.CtrRoundTrip` | src/ccam3_crypto.c:446-463 | counter mode is its own inverse, for every length |
| `AesModes.CtrInPlace` | src/ccam3_crypto.c:446-463 | the in-place loop xors the data with the enciphered counters, the last of them cut short |
| `AesGcm.GcmRoundTrip` | src/ccam3_crypto.c:465-513 | opening a sealed text under the same key and nonce succeeds with the plaintext, for every key, nonce and length |
| `AesGcm.Gf128Mul` | src/ccam3_crypto.c:403-423 | the bit loops accumulate the shifted doublings of the hash key as specified |
| `AesGcm.GhashOf` | src/ccam3_crypto.c:425-444 | whole blocks, a padded rest and the length block are accumulated in this order |
| `AesGcm.Encrypt` | src/ccam3_crypto.c:465-488 | ciphertext in counter mode and the tag of it; the rest of the buffer is untouched |
| `AesGcm.Decrypt` | src/ccam3_crypto.c:490-513 | -1 and an untouched buffer for a wrong tag, otherwise 0 and the opened text |
| `HashConstants.RoundConstant` | src/ccam3_crypto.c:63-73 | round constant t of SHA-256 is the first 32 bits behind the point of the cube root of the prime with t primes below it, for all 64 |
| `HashConstants.StartWord` | src/ccam3_crypto.c:105-106 | initial word t of SHA-256 is the same of the square root, for all eight |
| `HashConstants.Sha1Constant` | src/ccam3_crypto.c:23-26 | the four constants of SHA-1 are the square roots of 2, 3, 5 and 10 in units of 2^-30 |
| `HashConstants.Sha1Start` | src/ccam3_crypto.c:35-35 | the bytes of the initial words of SHA-1 count up, then down, then apart |
| `HashExample.Sha256OfAbc` | src/ccam3_crypto.c:63-130 | SHA-256 of the bytes of abc is ba7816bf8f01cfea414140de5dae2223b00361a396177a9cb410ff61f20015ad |
| `HashExample.Sha1OfAbc` | src/ccam3_crypto.c:12-61 | SHA-1 of them is a9993e364706816aba3e25717850c26c9cd0d89d |
| `HashBlocks.ChooseOrIs` | src/ccam3_crypto.c:23-23 | the choice written with a disjunction is the one of section 4.1.1 of FIPS 180-4 |
| `HashBlocks.MajorityOrIs` | src/ccam3_crypto.c:25-25 | the majority written with disjunctions is the one with exclusive ors |
| `HashBlocks.CompressSha1` | src/ccam3_crypto.c:12-31 | the loop over eighty words and rounds computes the compression of one block |
| `HashBlocks.CompressSha256` | src/ccam3_crypto.c:75-101 | the loop over sixty-four words and rounds computes the compression of one block |
| `Hash.PaddedOnce` | src/ccam3_crypto.c:42-52 | a rest of fewer than 56 bytes: the padded message of section 5.1.1 ends in one more block |
| `Hash.PaddedTwice` | src/ccam3_crypto.c:42-52 | a longer rest: it ends in two more blocks |
| `Hash.Finish` | src/ccam3_crypto.c:42-52 | the buffer code hashes exactly the last one or two blocks of the padded message |
| `Hash.Compute` | src/ccam3_crypto.c:33-130 | SHA-1 and SHA-256 of every length are the fold of the compression over the padded message; the output may overwrite the input |
| `Hmac.Compute` | src/ccam3_crypto.c:133-158 | the keyed hash of section 2 of RFC 2104, for short and long keys, also when the output overwrites the text |
| `Hmac.OneBlock` | src/ccam3_crypto.c:168-186 | the loop that hashes u in place xors the first c values of the chain |
| `Hmac.Pbkdf2` | src/ccam3_crypto.c:161-191 | the derived key of section 5.2 of RFC 8018, cut to the wanted length; fewer than one iteration counts as one |
| `Rc4.Rc4` | src/ccam3_crypto.c:194-211 | the in-place loop xors the data with the key stream |
| `Rc4.CryptedTwice` | src/ccam3_crypto.c:194-211 | encryption is its own inverse |
| `Rc4.StaysPermutation` | src/ccam3_crypto.c:194-211 | at every moment the state holds each byte once |
| `EcmRings.ComputeHash` | src/ecmdata.c:48-54 | the loop computes the polynomial hash modulo 2^32 |
| `EcmRings.AddEcmData` | src/ecmdata.c:143-168 | the node becomes the head of a well formed ring of one more |
| `EcmRings.DelEcmData` | src/ecmdata.c:170-206 | the ring of the other nodes is well formed, whichever node leaves and however many there are |
| `EcmStore.Store.Take` | src/ecmdata.c:219-284 | the node is new, or the oldest when it has been dead for twice its life; the ring of all is well formed again and the profile rings hold the others |
| `EcmStore.Store.StoreEcm` | src/ecmdata.c:214-315 | both rings stay well formed with their counts, the new request heads them, no other request changes, and the dates stay those of the run of stores and retries so far |
| `EcmStore.Store.OneRingEach` | src/ecmdata.c:214-315 | every node is once in the ring of all, once in the ring of its own profile and in no other; the counts are the sizes |
| `EcmRuns.RunInBirthOrder` | src/ecmdata.c:214-315 | over every run of stores and retries the ring is in the order of the births: the nodes are those of the latest stores |
| `EcmRuns.BoundBreaksIff` | src/ecmdata.c:243-284 | a store allocates beyond the bound of 34 seconds if and only if the oldest node is still young by its date but not by its birth (and no window holds the new number of stores) |
| `EcmRuns.BoundedRun` | src/ecmdata.c:214-315 | over every run the nodes are no more than the larger of two and the most stores in one window of 34 seconds and d, d being the most a date is ahead of its birth |
| `EcmRuns.BoundedByRetries` | src/ecmdata.c:214-315 | with at most R retries of each request, each while it lives, d is at most 17 R seconds |
| `EcmRuns.NodesPileUp` | src/srv-cs378x.c:632-639 | where retries are not limited there is no bound: for every n a run reaches n nodes, though no four of its stores lie in one window of 34 seconds |
| `EcmStore.PileUp` | src/srv-cs378x.c:632-639 | the same run on the store, for every n: every retry follows a lookup by request that finds the failed node |
| `EcmStore.Store.NodesBounded` | src/ecmdata.c:214-315 | the same for the store itself: order of the births, and the bound by d |
| `EcmStore.Store.NodesBoundedByLimit` | src/ecmdata.c:214-315 | where every retry is counted against a limit of at most R, the bound of the store is that of one window of 34 and 17 R seconds |
| `EcmStore.Store.RecordedMeans` | src/ecmdata.c:214-315 | without retries both rings stand newest first, and the nodes are no more than the larger of two and the most stores in one window of 34 seconds |
| `EcmStore.OverfullStore` | src/srv-cccam.c:902-924 | two stores, a failure, a retry and a store: three nodes, though no three stores lie in one window of 34 seconds |
| `EcmRings.OfNewest` | src/ecmdata.c:143-206 | the ring of a profile is newest first when the ring of all is |
| `EcmStore.FindsNewest` | src/ecmdata.c:321-395 | a lookup in a ring that stands newest first returns the newest living match, and null if and only if there is none |
| `Walks.EarlyStop` | src/ecmdata.c:321-395 | a walk that stops at the first dead node misses no living match, whatever is asked, if and only if no living node stands behind a dead one |
| `EcmStore.Store.SearchDcw` | src/ecmdata.c:321-338 | the walk with its hash test finds what the lookup specifies: a node found lives, has the word state, service and length asked for and the same bytes from the fourth on; null in a ring newest first means that no living node has |
| `EcmStore.Store.SearchAny` | src/ecmdata.c:341-359 | the same for the lookup by request in the ring of a profile: system, provider and service agree, and the bytes |
| `EcmStore.Store.SearchByHash` | src/ecmdata.c:362-377 | a node found lives and has the hash, system and service; null in a ring newest first means that none has |
| `EcmStore.Store.SearchByMd5` | src/ecmdata.c:380-395 | a node found lives and has the digest, system and provider; null in a ring newest first means that none has |
| `Walks.CompleteIff` | src/ecmdata.c:321-395 | such walks are complete at every time if and only if the nodes die from the last to the first |
| `EcmStore.Store.Repeat` | src/srv-cccam.c:899-933 | a client asks again: the node that the lookup by request finds is dated anew if and only if it failed and its tries are within the limit, and counted retries keep the run within that limit |
| `EcmStore.Store.Retry` | src/srv-cccam.c:902-924 | a retry dates a failed request anew where it stands; the rings stay well formed, and the lookups stay complete at every time if and only if all nodes in front carry the same date |
| `EcmStore.LookupsCompleteIff` | src/ecmdata.c:321-395 | the lookups in a ring are complete at every time if and only if its nodes die from the last to the first, that is if and only if the newest stands first |
| `EcmStore.LostLookup` | src/srv-cccam.c:902-924 | two stores, a failure and a retry: the lookup returns null although a living request it asks for is in the ring |
| `Walks.RetryHides` | src/srv-cccam.c:902-924 | after a retry the lookups stay complete at every time if and only if every node in front lives exactly as long; otherwise a living request is missed |
| `CacheWords.SimilarCw` | src/dcw.c:128-135 | the counting loop says whether more than three of eight bytes agree |
| `CacheWords.WordsDistinct` | src/clustredcache.c:1475-1551 | in every run an entry holds no word twice |
| `CacheWords.PassedOnOnce` | src/clustredcache.c:1475-1675 | in every run a word is passed on at most once, only after as many reports as the threshold, and exactly the words marked so are passed on |
| `CacheWords.NeverBoth` | src/clustredcache.c:1544-1675 | a word that is both passed on and marked as wrong was reported at least 65536 and the threshold times |
| `CacheWords.RoundMarks` | src/clustredcache.c:1544-1675 | that bound is met: a run in which the 16-bit counter goes round marks a word that was passed on |
| `CacheWords.RunKeeps` | src/clustredcache.c:1475-1675 | the invariant of every run: counters modulo 2^16, distinct words, marks and log agree |
| `CacheWords.PassedOnFits` | src/clustredcache.c:1572-1675 | in every run a word that is passed on has enough reports, and it follows the previous word, or carries the cycle the entry expects, or has a null half |
| `CacheWords.FoundServes` | src/clustredcache.c:2394-2441 | a waiting client gets exactly the unmarked words with enough reports that follow its previous word and carry no other cycle, or without a previous word those whose cycle it allows |
| `CacheWords.JudgeFair` | src/clustredcache.c:1572-1656 | the judgement keeps word, mark and counter, and passes no word that it marks as wrong unless the word was judged before |
| `CacheWords.SweptStays` | src/clustredcache.c:2394-2441 | a pass over the words for a waiting client keeps the invariant |
| `CacheMarks.MarkedIff` | src/clustredcache.c:1572-1656 | a word with two halves that does not follow the previous one is marked as wrong if and only if the older entries are asked and hold it, or its cycle is known and is not the expected one; one that follows never is; one with a null half is when that half is bad |
| `CacheMarks.PassesIff` | src/clustredcache.c:1572-1656 | it may be passed on if and only if it follows, or its cycle is known and is the expected one, or its null half is not bad |
| `CacheMarks.CarriesCycle` | src/clustredcache.c:1572-1656 | the cycle it carries then: the expected one when it follows, the one that was named, or that of the half that is not null |
| `CacheMarks.AnswerTells` | src/clustredcache.c:1494-1675 | the answer to a report: 9 when it is skipped or the threshold is not met, 1 for a word marked before, and otherwise what became of the word |
| `CacheMarks.KnowsClient` | src/clustredcache.c:2357-2456 | after every run the words are judged against the previous word and the cycle that clients told last, and are passed on as soon as a client or a request came |
| `CacheMarks.NoTraceIff` | src/clustredcache.c:1512-1551 | a report changes nothing if and only if a profile skips it and it repeats the previous word, which is not null |
| `CacheMarks.MarkedStaysOut` | src/clustredcache.c:1475-1675 | over every run a word marked as wrong before it was passed on is never passed on |
| `CacheMarks.FoundElsewhereStaysOut` | src/clustredcache.c:1590-1602 | over every run: with the filter on, a word that comes without a cycle, does not follow and is held by an older entry is answered as wrong at the threshold, marked, and never passed on |
| `CacheEntry.Entry.JudgeWord` | src/clustredcache.c:1572-1656 | the branches behind the threshold compute the specified judgement and whether the word passes |
| `CacheEntry.Entry.SetDcw` | src/clustredcache.c:1494-1675 | the new state of the entry is one step of its run, and the answer is the status byte or the code for error or skip |
| `CacheEntry.Entry.Sweep` | src/clustredcache.c:2396-2441 | the loop over the words passes on those wanted, in order |
| `CacheEntry.Entry.Find` | src/clustredcache.c:2357-2456 | the new state of the entry is the step of a waiting client in its run |
| `CacheEntry.Entry.Store` | src/clustredcache.c:2484-2508 | a word found elsewhere is added when it is not there, and not counted |
| `CacheScan.ChecksumsSuffice` | src/dcw.c:19-122 | outside system 0500 a word is acceptable if and only if its checksums fit and it is neither null nor bad: the filter against altered last bytes rejects nothing more |
| `CacheScan.OneByteBreaks` | src/dcw.c:19-122 | the checksums cover every byte: of two words that differ in just one at least one fails |
| `CacheScan.FindSkip` | src/clustredcache.c:1512-1532 | the walk over the profiles says whether one of them skips repeated words of this channel |
| `CacheScan.ScanWords` | src/clustredcache.c:1248-1287 | the words of one older entry are heeded in order, and the first one that settles the matter ends the scan |
| `CacheScan.PastMeans` | src/clustredcache.c:1219-1295 | what the words of the older entries say: bad if and only if the first that settles the matter is the same word, in cycle if and only if some word is the last from which one half changed, and that one names the cycle; nothing if and only if no word is the same or changed in one half |
| `CacheScan.FetchCycle` | src/clustredcache.c:1219-1295 | the walk through the links answers for all words of the older entries of the channel in order; the early end loses none |
| `CacheScan.CheckSame` | src/clustredcache.c:1339-1375 | true if and only if no older entry of the channel holds the half |
| `CacheBucket.HiddenEntry` | src/clustredcache.c:485-502 | two entries, made before and after the cycle of their channel was learned: the lookup returns null although a living entry answers |
| `CacheBucket.MarkedEntry` | src/clustredcache.c:1475-1675 | the run of that bound on a bucket, for every threshold and word, two reports a millisecond within a life of 45 seconds: the word was passed on and is marked as wrong |
| `CacheBucket.Bucket.FilteredWordHasAncestor` | src/clustredcache.c:1590-1602 | with the filter on, a word without a cycle that does not follow the previous one passes only if an older entry holds a good word from which exactly the named half changed |
| `CacheBucket.Bucket.SameWordStaysOut` | src/clustredcache.c:1219-1295 | the same on the bucket: when the first older word that settles the matter is the same word, the report is answered as wrong, the word is marked and never passed on |
| `CacheBucket.Bucket.Fetch` | src/clustredcache.c:485-502 | the walk returns the first answering entry in front of the first dead one: it has the hash and service of the key, a tag that is equal or zero on one side, under the strict option a provider that fits, and lives; null with no dead entry means that none answers |
| `CacheBucket.Bucket.FetchFindsNewest` | src/clustredcache.c:485-502 | when all entries share one time to live this is the newest living match, and null if and only if there is none |
| `CacheBucket.Bucket.FetchCompleteIff` | src/clustredcache.c:485-502 | with times to live of their own the lookup is complete at every time if and only if the entries die from the last to the first |
| `CacheBucket.Bucket.Place` | src/clustredcache.c:404-468 | the three branches on the links: the ring has a new head, fresh or the oldest when it is dead and not alone |
| `CacheBucket.Bucket.New` | src/clustredcache.c:404-483 | the head starts a new life; the ring stays well formed and newest first, and the others keep their lives |
| `CacheBucket.Bucket.SetDcw` | src/clustredcache.c:1475-1675 | a report adds one event to the life of the entry found or made, the event that the profiles and the older entries determine, and no other life changes; the status is the answer to that event; -1 and nothing for an unacceptable word |
| `CacheBucket.Bucket.Find` | src/clustredcache.c:2347-2456 | a waiting client adds one event to the life of the entry, and no other life changes |
| `CacheBucket.Bucket.Ask` | src/clustredcache.c:2459-2477 | a request to the peers adds one event to the life of the entry, and no other life changes |
| `CacheBucket.Bucket.Store` | src/clustredcache.c:2480-2511 | a word found elsewhere adds one event to the life of the entry, and no other life changes |
| `CacheBucket.Bucket.EntryPromises` | src/clustredcache.c:1475-1675 | in every reachable bucket each entry holds distinct words, passes each on at most once, only after the threshold, and none that is wrong before its counter has gone round |
| `CycleCheck.ReachableChannels` | src/cwc.c:98-331 | in every reachable channel stage 3 is exactly where the half to stay is known; the first time there three steady gaps were learned, and the window is as long as the cycle at least |
| `CycleCheck.Stage3Knows` | src/cwc.c:98-331 | that stage 3 is exactly where the half to stay is known is kept by every run |
| `CycleCheck.FirstArrival` | src/cwc.c:275-325 | the first time in stage 3 three gaps in a row were learned, each above 3000 ms, neighbours closer than 2000 ms, the last being the cycle time |
| `CycleCheck.StretchAlternates` | src/cwc.c:142-228 | in an uninterrupted stretch of stage 3 the accepted words alternate in the half that stays |
| `CycleCheck.RefusedLeavesNoTrace` | src/cwc.c:142-228 | taking a judged word that was not accepted out of a run changes no verdict on the others and nothing but counters |
| `CycleCheck.StepBlind` | src/cwc.c:98-331 | verdict and next state do not depend on the counters |
| `CycleVerdict.KeptIff` | src/cwc.c:142-228 | with dropbad on, a judged word other than the stored one is kept if and only if it is accepted, or dropold is off and the first place with its non-zero hash holds that same word |
| `CycleVerdict.DroppedIff` | src/cwc.c:142-228 | exactly which words are dropped, for all options: the stored one when late, one whose hash was heard with another word or under dropold, and an unheard one under dropbad; none outside the window |
| `CycleVerdict.CountersTell` | src/cwc.c:98-331 | over every run bad counts the dropped words, ok the accepted ones and checked all of them |
| `CycleVerdict.AcceptedTells` | src/cwc.c:142-228 | an accepted word is stored, the other half must stay next, and the delay is what it came later than the cycle; a judged word that is not accepted changes none of this |
| `CycleVerdict.LapseTells` | src/cwc.c:229-274 | when stage 3 is left and for which stage, and when stage 4 goes back to it or gives up |
| `CycleVerdict.ArrivalTells` | src/cwc.c:275-325 | whoever comes to stage 3 has just seen one half change, and that half must stay next |
| `CycleVerdict.LearningTells` | src/cwc.c:275-325 | what a word in stages 0 to 2 leads to: nothing while the lock is on, one stage on for a gap near the last, otherwise back |
| `CycleVerdict.HistoryTells` | src/cwc.c:68-75 | over every run the history holds the last fifteen stored words with their hashes, in order |
| `CycleWindow.TimedRun` | src/cwc.c:98-331 | over every run the learned times are not negative and not longer than the clock has run, and the lock is off from stage 3 on |
| `CycleWindow.ReachableStaysOpenIff` | src/cwc.c:142-186 | in every reachable channel of stage 3 the window stays open for ever if and only if twice the cycle time does not reach the last delay and a second, or exceeds what is left of the clock |
| `CycleWindow.RoomyStep` | src/cwc.c:142-228 | in a window with room for a cycle a word is judged if and only if it came within the length, and no judged word takes the room away |
| `CycleWindow.RoomyRun` | src/cwc.c:98-331 | over every run that stays in stages 3 and 4 the window keeps its room for a cycle |
| `CycleWindow.RoomyFromFirstArrival` | src/cwc.c:98-331 | from the first arrival in stage 3 on, as long as the cycle is not learned anew, the window has room for a cycle |
| `CycleWindow.LapseKeepsTimes` | src/cwc.c:229-274 | a lapse of stage 3 keeps both times and leaves the lock off |
| `CycleWindow.RelearnedWindow` | src/cwc.c:275-325 | when a cycle is learned anew, and the exact conditions on its gap under which the window never closes and under which it has room for a cycle |
| `CycleWindow.StuckRun` | src/cwc.c:98-331 | eight words after the birth of a channel the cycle is 2 ms and the window never closes |
| `CycleWindow.ShortRun` | src/cwc.c:98-331 | seven words after the birth of a channel the cycle is 8500 ms and the window 8000 ms |
| `CycleChannel.MemCmp` | src/cwc.c:251-252 | zero if and only if the words agree |
| `CycleChannel.CountCWpart` | src/cwc.c:24-30 | the loop counts the equal bytes of the half that is not checked to be fixed |
| `CycleChannel.Channel.constructor` | src/cwc.c:42-66 | a new channel in stage 0 with 99000 ms and no known half |
| `CycleChannel.Channel.HistPush` | src/cwc.c:68-75 | the history ring takes the word in its next place |
| `CycleChannel.Channel.Judge` | src/cwc.c:142-228 | a word judged in stage 3 leaves the channel, and is dropped, as the automaton says: accepted, or refused with counters only |
| `CycleChannel.Channel.Learn` | src/cwc.c:275-325 | a word in stages 0 to 2 takes the channel through the learning step of the automaton |
| `CycleChannel.Channel.Relearn` | src/cwc.c:249-274 | a word in stage 4 takes the channel back to stage 3 or on to stage 1 as the automaton says |
| `CycleChannel.Channel.Check` | src/cwc.c:98-331 | one call is one step of the automaton, and nothing happens when the check does not apply |
| `Horspool.Memmem` | src/bmsearch.c:9-62 | the first occurrence of the needle, or -1 if and only if there is none or a pointer is null or the needle empty |
| `Horspool.BadCharSkip` | src/bmsearch.c:26-36 | the table holds for every byte the distance from its last place |
| `Horspool.Skip` | src/bmsearch.c:26-36 | every skip is between one and the length of the needle |
| `Horspool.SkipIsSafe` | src/bmsearch.c:57-58 | a skip passes over no occurrence |
| `ReloadPlan.KeptIff` | src/config.c:5631-5699 | an old entry finds a partner if and only if it was not marked before and the new configuration has more entries of its name than unmarked ones stand before it |
| `ReloadPlan.TakenCount` | src/config.c:5631-5699 | after i old entries as many new ones of a name are taken as there are unmarked old ones, or all of them |
| `ReloadPlan.LiveNames` | src/config.c:6230-6283 | the names that stay and the new ones not taken are the names of the new configuration, each as often, and those of the unmarked entries made at run time that it does not have |
| `Reload.Append` | src/config.c:608-630 | the walk to the end adds the node there |
| `Reload.FindPartner` | src/config.c:5637-5642 | the first unmarked node of the same name, or null, also for a node that is marked itself |
| `Reload.Adopt` | src/config.c:5643-5686 | the survivor takes the settings over, but for the share limits of a client in a cache exchange mode and the key of a server of another protocol, and is cut off if and only if one of these settings changed; the infos change hands, and a cache peer counts as configured from then on |
| `Reload.TakesAllIff` | src/config.c:5643-5686 | the survivor comes to have the new settings if and only if those it leaves alone agree |
| `Reload.MergedMeans` | src/config.c:5643-5686 | field by field: every setting is the new one but for those limits and that key, and something changed if and only if one of the settings taken over differs |
| `Reload.AdoptServer` | src/config.c:6646-6681 | the same for the five settings of a server |
| `Reload.MarkAll` | src/config.c:5633-5699 | after the nested walk exactly the new nodes taken are marked, and the old ones that were marked before or found no partner and were not made at run time; every survivor is renewed by its partner |
| `Reload.Move` | src/config.c:5692-5702 | the nodes with a mark move to the end of the other list, the others stay, both in order |
| `Reload.Update` | src/config.c:5631-5723 | for every running list, marked nodes included: afterwards it is the nodes that stay and the new nodes without partner, none of them marked, and the other list is the rest; every survivor has, field by field, the settings of its partner, the limits of a client only if the new mode is 0 and the key of a server only for the one protocol, and is cut off if and only if it was before or one of these fields changed |
| `Reload.LiveHasNewNames` | src/config.c:6230-6283 | the running list has the names of the configuration just read, each as often, and those of the unmarked cache peers made at run time that it does not have |
| `Reload.NothingLeftOver` | src/config.c:6629-6707 | among clients and servers there are no such nodes |
| `Reload.NodesArePartitioned` | src/config.c:6629-6707 | the two lists together hold every node once: none is lost and none is doubled |
| `Reload.SurvivesIff` | src/config.c:6230-6283 | a running node stays, as the same object, if and only if it was not marked before and the new configuration has more entries of its name than unmarked ones stand before it, or it is a cache peer made at run time |
| `PeerCards.Sort` | src/clustredcache.c:2131-2134 | the exchange sort in place: sorted, the same values, nothing behind them touched |
| `PeerCards.GatherHas` | src/clustredcache.c:2136-2166 | a card is common if and only if it was before or the peer has it and a profile decodes it |
| `PeerCards.AddCommon` | src/clustredcache.c:2137-2165 | the search through the common cards stays in the array, and the card joins when it is new and decoded |
| `PeerCards.FaithfulIff` | src/clustredcache.c:2108-2134 | after a message without a reset the cards are still the first 1024 words since the last reset if and only if none of the words before it was zero |
| `PeerCards.ForgottenCards` | src/clustredcache.c:2108-2134 | the words zero and five, then nine: one card is left of the three |
| `PeerCards.Peer.CardList` | src/clustredcache.c:2108-2173 | the words are written over the cards from the first zero on and sorted in; the common cards are strictly increasing, those from before and those of the peer that a profile decodes, and without zeros exactly the latter |
| `PeerCards.Peer.BinarySearch` | src/clustredcache.c:830-852 | it stays in bounds, ends, and says yes if and only if the card is common and, when the common cards lie on both sides of 2^31, is the first of them |
| `PeerCards.FindsAllIff` | src/clustredcache.c:830-852 | every common card is found if and only if they do not lie on both sides of 2^31 |
| `PeerCards.MissedCard` | src/clustredcache.c:830-852 | a peer announces two cards that a profile decodes, and the search misses the second |
| `PeerProbe.OpenProbes` | src/clustredcache.c:2545-2617 | in every run an online peer that owes an answer has one, two or three open probes |
| `PeerProbe.OfflineIsSilence` | src/clustredcache.c:2576-2606 | a check takes a peer offline only after three probes without an answer and more than 27 seconds after the first |
| `PeerProbe.PatienceRunsOut` | src/clustredcache.c:2576-2617 | every check that finds a silent peer due uses up one chance, and no other check does |
| `PeerProbe.SilentGoesOffline` | src/clustredcache.c:2545-2617 | a silent online peer is offline after exactly as many due checks as it had chances, at most four |
| `PeerProbe.Backoff` | src/clustredcache.c:2545-2575 | an offline peer is probed at growing intervals, over every sequence of checks: 9, 19 and 29 seconds and from then on 59, and stays offline |
| `PeerProbe.AnsweredIff` | src/clustredcache.c:1991-2016 | an answer brings a peer online if and only if it was or its address was found good; the delay then lies between the old one and the time the answer took |
| `PeerProbe.Peer.CheckPeer` | src/clustredcache.c:2545-2617 | the periodic check changes a peer, and probes it, as the detector says |
| `PeerProbe.Peer.PingReply` | src/clustredcache.c:1991-2016 | an answer to a ping averages the delay and brings a known peer online |
| `PeerProbe.Peer.Moved` | src/clustredcache.c:1982-1986 | a hello from another port takes the peer offline |
| `PeerProbe.Peer.KeepaliveReply` | src/clustredcache.c:2190-2205 | an answer to a keepalive averages the delay and brings the peer online |
| `PeerProbe.Peer.Reconfigured` | src/config.c:7110-7113 | a change in the configuration takes the peer offline and forgets the last probe |
| `Crc32.TableIs` | src/crc32.c:12-65 | each of the 256 entries is the division of its byte, bit by bit |
| `Crc32.StepIs` | src/crc32.c:67-67 | a step through the table is eight steps of the reflected division, on 64-bit words |
| `Crc32.Compute` | src/crc32.c:72-85 | eight bytes at a time and the rest one by one: the checksum of section 8 of RFC 1952; zero for a null pointer |
| `Crc32.Chains` | src/crc32.c:72-85 | the checksum of two buffers in a row is that of the second started with that of the first |
| `Crc32.ChecksumNarrow` | src/crc32.c:72-85 | a checksum that starts with 32 bits has 32 bits |
| `Base64Spec.RealOfChr` | src/base64.c:8-127 | the decoder reads each of the 64 characters as the value that the encoder gave it |
| `Base64Spec.ChrIs` | src/base64.c:8-33 | the alphabet is A to Z, a to z, 0 to 9, + and / in this order |
| `Base64Spec.GroupsAre` | src/base64.c:35-47 | the four values of a group are the 24 bits of its three bytes, the first bits first |
| `Base64Spec.DecodesTo` | src/base64.c:35-161 | decoding a code of any line width gives the text and behind it the stale bits of its last group |
| `Base64Spec.StaleIff` | src/base64.c:35-47 | nothing stale comes out if and only if the length is a multiple of three or the byte behind the end has no high bits |
| `Base64Spec.RoundTripIff` | src/base64.c:59-161 | the decoder gives a text without zeros back if and only if that condition holds |
| `Base64.Encode` | src/base64.c:59-89 | the loops over the reused chunk write the code, with line breaks, and a final zero |
| `Base64.Decode` | src/base64.c:129-161 | the loops over the reused chunk write the decoded bytes and a final zero |
| `Base64.ThereAndBack` | src/base64.c:59-161 | encoding into a buffer and decoding that buffer returns the text if and only if nothing stale comes out |
| `Base64.CodeIsText` | src/base64.c:59-89 | the code holds no zero byte |

## Left out

- Sockets, pipes, threads, locks, logging, files, the web pages and the keyword parser of the configuration.
- The Viaccess branch of the triple cipher with its masks, and the handshake of the peers: they state no inverse.
- CacheBucket.Bucket.SetDcw: the sends to other entries under `dcwcheck2` and `dcwcheck3`, which may repeat a word, are not modelled; both options are off.
- CacheBucket.Bucket.New: the choice of the bucket by system and service is not modelled.
- EcmStore.Store.StoreEcm: the links between duplicate requests, the clients of a request and the fields no lookup reads are not modelled; the digest of the request is a parameter.
- CycleChannel.Channel.Check: the list of channels and its cleanup are not modelled, nor is the definition of a half-null word, which is not part of this model.
- Reload.Update: the settings that are copied without a comparison are one list, and so are the infos of a client and the services of a server, which change hands. The lists of camd35, mgcamd and newcamd clients and those of cache-exchange entries follow the pattern of clients and are left out, and so are the lists of the servers that clients connect to.
- PeerCards.Peer.CardList: a profile that decodes the card zero is left out, and so is a peer that, after a zero word, keeps more common cards than there are places for; words arrive as numbers, not as four bytes each.
- PeerProbe.Peer.PingReply: the check that a peer is not known twice, and the peer lists that are rebuilt, are one boolean.
- AesGcm.GhashOf: conformance to the product of NIST SP 800-38D is not claimed; the accumulation is specified as the code does it.
- Hash.Compute: `size_t` is unbounded; the eight length bytes are those of the bit length modulo 2^64.
- The budget of channels, the address lists, the buffers, the feeds and the converters: easy members.
