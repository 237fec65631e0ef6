# Ciphers, checksums, random numbers and item limits

This project models the bit-exact parts of libsylverant, the support library of the Sylverant game
server, and proves what they are for.

- **Lagged generators** (`Lagged`, `KeyStream`). The GameCube cipher, the PC cipher and MT19937 all renew
  a fixed window in place, a batch at a time. One library proves that such a batch is a slide of a
  window over one infinite sequence, that reads see that sequence whatever the batches, and that an
  invertible step never loses state.
- **GameCube cipher** (`GcCrypt`, `GcRecurrence`). The congruential seeding, the shift-and-xor fill
  and the word mix are one bit-level recurrence with lags 32 and 521: the mix is the 32nd power of
  the recurrence that the fill starts, by five squarings over GF(2).
- **PC cipher** (`PcCrypt`, `PcRecurrence`). The subtractive generator: its scattered fill, the closed form
  of the fill, the lagged subtraction, invertibility.
- **Blue Burst cipher** (`Feistel`, `BbCrypt`, `BbSchedule`, `BbReference`). Encryption and decryption are the four-round
  instances and the key schedule step the sixteen-round instance of one Feistel network; the schedule is
  the subkey generation of Blowfish (Schneier, 1993), chained 521 times over the array it is rewriting.
- **Front end** (`CryptState`, `Encryption`). Two endpoints stay in lockstep over every packet sequence,
  and the receiver may cut the stream differently.
- **MT19937** (`Mt19937`, `Tempering`, `MtReference`). Refinement to the recurrence, bijectivity of the twist on the 19937
  live bits and of the tempering, both seeding procedures.
- **CRC-32** (`Crc32`, `Crc32Remainder`). The loop against polynomial division over GF(2), with existence
  and uniqueness of the remainder; linearity, burst detection, the fixed residue.
- **MD5** (`Md5Compression`, `Md5Bits`, `Md5`, `Md5Message`, `Md5Vectors`). The unrolled compression against a 64-step fold, the
  buffered stream against the whole message, and the exact lengths for which one call is MD5.
- **Item limits** (`Items`, `ItemLists`, `ItemPercents`, `PercentTightening`, `MagBlasts`, `ItemChecks`,
  `ItemBytes`, `RecordTightening`). Which limits bind an attribute slot, when one set of limits is stricter than another,
  how the left photon blast is decoded, which record decides, and that every downcast is right.

Words are `bv32`, bytes `bv8`, so wrap-around is that of the C types. State the C code updates in place is a
class with mutable fields (`CryptState.CryptSetup`, `Mt19937.MtState`, `Md5.Md5Context`,
`Items.Limits`), and pointers into the key array are indices.

Three of the results are exact conditions, because the code does not meet the plain statement for every input:

- `size << 3` is computed in 32 bits (src/utils/md5.c:264). One call gives RFC 1321 padding if and
  only if the message is shorter than 2^29 bytes (`Md5Message.OneCallPadding`). Any sequence of calls keeps
  the count of one call if and only if the low 29 bits of the call lengths sum below 2^29, modulo 2^61
  (`Md5Message.SplitCount`), and gets RFC 1321 padding if and only if the uncounted 2^29s are a
  multiple of 2^32 (`Md5Message.StreamedPadding`). The registers and the buffer are right for any
  lengths (`Md5Message.AnySplit`).
- The left photon blast is the rank-th free one if and only if the centre and right blasts differ, or the
  rank is below them (`MagBlasts.DecodesTheRank`). The code comment that it cannot overlap
  holds always (`MagBlasts.NeverCollides`).
- One set of percent and hit limits is at least as strict as another if and only if the value ranges
  it leaves to hit slots and to other slots are contained in those of the other, with one more clause for
  the kill count of a J-Sword (`PercentTightening.StricterIsExact`). Tightening limits that are set, or
  setting a default percent limit, is always safe; setting a hit limit is not, and the exact condition for
  that is `PercentTightening.SettingMaxHit` (an item that shows it: `PercentTightening.SettingALimitCanAccept`).

A method and its specification share the small definitions that both are made of: a round function, a rotation, a
mask, a byte position. Each of these is also pinned on its own, by laws that determine it, by a statement
in the bits or bytes it reads, or by known values: `BbReference`, `MtReference`, `Md5Bits`, `Md5Vectors`,
`ItemLists` and `ItemBytes` hold those.

Some code that the C repeats is modelled once: the two copies of the 16-round block in the Blue Burst
schedule, the list scan of the checkers, the record tests of the two mag checkers, and the left blast
adjustment. The 64 macro lines of MD5 are written as sixteen groups of four, with the indices
and shift amounts as literals. Loop bodies that need a proof of their own are methods.

## Model

| member | source | states |
|---|---|---|
| Lagged.InPlaceStep | src/encryption/psogc-crypt.c:30-47 | In any lagged generator, overwriting the oldest slot of the in-place array with the new element is one slide of the window; GameCube, PC and MT19937 batches all rest on it |
| Lagged.WindowIsStream | src/encryption/psogc-crypt.c:30-47 | After n renewals slot i of the window is element n + i of one infinite sequence |
| Lagged.Recurrence | src/utils/mt19937ar.c:117-129 | Element n + N of that sequence is the rule applied to the N elements before it |
| Lagged.OutputIsStream | src/encryption/psogc-crypt.c:50-55 | Read k of a generator that refills in batches returns element next + k of the infinite sequence, however the reads fall on the batches |
| Lagged.AfterAdd | src/encryption/psopc-crypt.c:68-79 | Reading m and then n words leaves the state that reading m + n words leaves |
| Lagged.RunInjective | src/utils/mt19937ar.c:117-129 | If one step can be undone on the live part of the state, any number of steps is injective on it |
| Lagged.NeverReaches | src/utils/mt19937ar.c:109-109 | If a step can be undone and fixes the zero state, no run from another state reaches zero |
| KeyStream.MaskIsPositional | src/encryption/psogc-crypt.c:100-112 | Byte i is xored with byte i % 4 of stream word next + i / 4: the cipher output has no trace of the batches |
| KeyStream.MaskTwice | src/encryption/psogc-crypt.c:107-111 | Masking twice with equal states gives the plaintext back |
| KeyStream.MaskSplit | src/encryption/psopc-crypt.c:81-89 | Masking a then b equals masking their concatenation, for every cut on a word boundary |
| GcCrypt.MixKeys | src/encryption/psogc-crypt.c:20-48 | The two pointer loops leave the 521-word window 521 steps on in the recurrence s[m] = s[m-521] ^ s[m-32], touch no word past the window, and reset the block pointer |
| GcCrypt.MixStep | src/encryption/psogc-crypt.c:32-47 | Each slot takes the right mix of already renewed and still old words, whichever loop is running |
| GcCrypt.GetNextKey | src/encryption/psogc-crypt.c:50-55 | One call is one read of the abstract generator, and the pointer stays below 521 |
| GcCrypt.SeedKeys | src/encryption/psogc-crypt.c:67-79 | The first 17 words hold the top bits of 544 steps of the congruential generator, shifted in from the top |
| GcCrypt.ExtendKeys | src/encryption/psogc-crypt.c:80-93 | Word 16 is rebuilt and words 17 to 520 are filled from words x-1, x-17 and x-16 |
| GcCrypt.CreateKeys | src/encryption/psogc-crypt.c:57-98 | The array is the filled window advanced three batches and the pointer is on word 520, so the next read mixes first |
| GcCrypt.CryptData | src/encryption/psogc-crypt.c:100-112 | The first size bytes are masked with size / 4 reads, the rest of the buffer and of the keys is unchanged, and the state advances by exactly those reads |
| GcRecurrence.OneRecurrence | src/encryption/psogc-crypt.c:20-96 | For every seed and every t >= 521 the most-significant-first bit string of the whole key word sequence satisfies b[t] = b[t-32] xor b[t-521]: fill and word mix are one bit-level linear recurrence |
| GcRecurrence.KeyStreamIsLinear | src/encryption/psogc-crypt.c:20-96 | Every key bit follows by the recurrence from 521 start bits that are given by the congruential generator alone |
| GcRecurrence.StartsFromSeed | src/encryption/psogc-crypt.c:67-83 | Those start bits: within words 0 to 15 the generator bits in reverse, and in the nine joint bits of word 16 the xor of two generator bits |
| GcRecurrence.FillBit | src/encryption/psogc-crypt.c:80-93 | Inside the fill, across the joint at word 16, every bit from 521 on obeys the lags 32 and 521 |
| GcRecurrence.MixBit | src/encryption/psogc-crypt.c:30-47 | In mixed words every bit obeys the lags 32 * 32 and 521 * 32 |
| GcRecurrence.Squaring | src/encryption/psogc-crypt.c:30-47 | A bit sequence that obeys lags p and q from q on obeys 2p and 2q from 2q on |
| GcRecurrence.RepeatedSquaring | src/encryption/psogc-crypt.c:30-47 | It obeys p * 2^k and q * 2^k for every k; k = 5 turns the bit recurrence into the word mix |
| GcRecurrence.SameStartSameSequence | src/encryption/psogc-crypt.c:20-96 | Two bit sequences that obey the same lags and agree on the first q bits agree everywhere |
| GcRecurrence.KeyWordFilled | src/encryption/psogc-crypt.c:67-93 | The first 521 elements of the key word sequence are the filled words |
| GcRecurrence.KeyWordMixed | src/encryption/psogc-crypt.c:20-48 | Every later key word is the xor of the words 521 and 32 back |
| GcRecurrence.OutputAfterCreate | src/encryption/psogc-crypt.c:50-98 | For every seed and k, call k (from zero) after key creation returns word 4 * 521 + k of the key word sequence |
| GcRecurrence.PushedBit | src/encryption/psogc-crypt.c:69-76 | Bit i of the shift register after n steps is the top bit of generator state n + i - 31 |
| GcRecurrence.SeededBit | src/encryption/psogc-crypt.c:67-79 | Bit y of seeded word x is the top bit of the generator state after 32x + y + 1 steps |
| GcRecurrence.TopSetIsBit31 | src/encryption/psogc-crypt.c:74-75 | The bit a step contributes is bit 31 of the generator state |
| GcRecurrence.AdvanceIsAffine | src/encryption/psogc-crypt.c:71-73 | The generator is the affine map modulo 2^32 that takes 0 to 1 and 1 to 0x5D588B66 |
| GcRecurrence.MixCanBeUndone | src/encryption/psogc-crypt.c:30-47 | One step of the mix has an explicit inverse on every window |
| GcRecurrence.MixInjective | src/encryption/psogc-crypt.c:20-48 | Any number of steps is injective on the 521-word state |
| GcRecurrence.MixIsLinear | src/encryption/psogc-crypt.c:20-48 | Any number of steps maps the xor of two states to the xor of the results |
| GcRecurrence.StateNeverDies | src/encryption/psogc-crypt.c:20-48 | A state that is not all zero never becomes all zero |
| GcRecurrence.SeedDiesExactly | src/encryption/psogc-crypt.c:57-98 | The state a seed makes is ever all zero if and only if the top bits of the first 521 generator states are all clear, and then it is zero from the start |
| PcCrypt.MixKeys | src/encryption/psopc-crypt.c:13-40 | The two countdown loops advance the window keys[1..55] by 55 steps of X[n] = X[n-55] - X[n-24] mod 2^32 and change no other slot |
| PcCrypt.MixStep | src/encryption/psopc-crypt.c:18-39 | Each slot subtracts the right old or already renewed slot |
| PcCrypt.FillKeys | src/encryption/psopc-crypt.c:45-60 | The loop leaves in every slot 1 to 55 the sequence element its scattered index names, and the seed in slot 56 |
| PcCrypt.ScatterTwice | src/encryption/psopc-crypt.c:50-60 | k -> 21k mod 55 is its own inverse, so the fill visits every slot once |
| PcCrypt.CreateKeys | src/encryption/psopc-crypt.c:42-66 | The window is the filled one advanced four batches, the position is 56, and the words outside it are as stated |
| PcCrypt.GetNextKey | src/encryption/psopc-crypt.c:68-79 | One call is one read of the abstract generator; the position stays in 1 to 56 |
| PcCrypt.CryptData | src/encryption/psopc-crypt.c:81-89 | The first size bytes are masked with size / 4 reads, the rest is unchanged, the state advances by exactly those reads |
| PcRecurrence.KeyWordFilled | src/encryption/psopc-crypt.c:45-60 | The first 55 key words are the scattered Fibonacci-like sequence |
| PcRecurrence.KeyWordMixed | src/encryption/psopc-crypt.c:13-40 | Every later key word is the word 55 back minus the word 24 back, mod 2^32 |
| PcRecurrence.OutputAfterCreate | src/encryption/psopc-crypt.c:42-79 | For every seed and k, call k after key creation returns key word 5 * 55 + k |
| PcRecurrence.FillClosedForm | src/encryption/psopc-crypt.c:50-60 | Element k of the fill is (-1)^k (F(k-1) * seed - F(k)) mod 2^32, F the Fibonacci numbers |
| PcRecurrence.MixCanBeUndone | src/encryption/psopc-crypt.c:18-39 | One step of the mix has an explicit inverse on every window |
| PcRecurrence.MixInjective | src/encryption/psopc-crypt.c:13-40 | Any number of steps is injective on the 55-word state |
| PcRecurrence.StateNeverDies | src/encryption/psopc-crypt.c:42-66 | From no seed does the state ever become all zero |
| Feistel.BackwardRounds | src/encryption/psobb-crypt.c:192-226 | For every round function and subkey list, j rounds with reversed subkeys after the whole network give the swapped state j rounds before the end |
| Feistel.NetworkInverse | src/encryption/psobb-crypt.c:155-226 | For every round count, subkey list and round function the network with reversed subkeys undoes the network |
| Feistel.NetworkTrace | src/encryption/psobb-crypt.c:202-223 | The network as a trace of halves: mask, round function, xor, swap, and the final whitening without a swap |
| BbCrypt.FourRounds | src/encryption/psobb-crypt.c:200-224 | The register-allocated straight-line code is the four-round network |
| BbCrypt.EncryptBlock | src/encryption/psobb-crypt.c:202-223 | One pass of the loop replaces eight bytes by the four-round network with subkeys 0 to 5 and touches nothing else |
| BbCrypt.DecryptBlock | src/encryption/psobb-crypt.c:165-186 | One pass replaces eight bytes by the same network with the subkeys reversed |
| BbCrypt.Encrypt | src/encryption/psobb-crypt.c:192-226 | The whole buffer is mapped block by block through the network; bytes past length are unchanged |
| BbCrypt.Decrypt | src/encryption/psobb-crypt.c:155-189 | The whole buffer is mapped through the network with reversed subkeys; bytes past length are unchanged |
| BbCrypt.BlocksInverse | src/encryption/psobb-crypt.c:155-226 | Decrypting an encrypted buffer of any number of blocks restores it, for every key array and also with the roles exchanged |
| BbCrypt.BlocksSplit | src/encryption/psobb-crypt.c:192-226 | A buffer cut on a block boundary may be processed in two parts |
| BbCrypt.BlockAt | src/encryption/psobb-crypt.c:200-225 | Block j of the output depends on block j of the input alone |
| BbReference.RoundFunctionUndone | src/encryption/psobb-crypt.c:206-207 | Taking the fourth box word away, xoring the third and taking the second away from the round function leaves the first, the boxes being words 18, 274, 530 and 786 on, indexed by the bytes of the argument from the top |
| BbReference.CountingBlock | src/encryption/psobb-crypt.c:155-226 | With keys equal to their indices the zero block encrypts to the words 0xAC, 0x60 and decrypts to 0x94, 0x4C |
| BbSchedule.InitKey | src/encryption/psobb-crypt.c:228-237 | The salt is masked byte by byte with the repeating 0x19, 0x16, 0x18 |
| BbSchedule.AssembleIsBigEndian | src/encryption/psobb-crypt.c:275-288 | The shift-and-mask code builds the big-endian word of four salt bytes |
| BbSchedule.SaltWordAt | src/encryption/psobb-crypt.c:273-293 | In round i the wrapped byte index is 4i mod 48 and the word assembled is cyclic big-endian salt word i |
| BbSchedule.FoldSalt | src/encryption/psobb-crypt.c:270-294 | Subkey i is xored with cyclic salt word i and the tables are unchanged |
| BbSchedule.LoadKeys | src/encryption/psobb-crypt.c:239-294 | The key array starts as the 18 constants xored with the masked salt, followed by the table |
| BbSchedule.TwoRounds | src/encryption/psobb-crypt.c:324-344 | One pass of the inner unrolled loop is two Feistel rounds on the rotating registers |
| BbSchedule.NextBlock | src/encryption/psobb-crypt.c:305-370 | The straight-line block, copied again at lines 387-452, is the generic 16-round network under the current keys |
| BbSchedule.ChainP | src/encryption/psobb-crypt.c:303-374 | The first loop chains nine encryptions, each written over the next two subkeys and visible to the following one |
| BbSchedule.ChainBoxes | src/encryption/psobb-crypt.c:377-458 | The nested loop chains the other 512 encryptions over the four tables in order |
| BbSchedule.CreateKeys | src/encryption/psobb-crypt.c:239-458 | For every salt and table the final array is the result of 521 chained 16-round encryptions from (0, 0) over the salted start; salt and position are stored |
| BbSchedule.ChainKeeps | src/encryption/psobb-crypt.c:303-458 | After n links word i is output i of its own link if i < 2n, and otherwise untouched |
| BbSchedule.EveryWordOnce | src/encryption/psobb-crypt.c:303-458 | Stated on the final array alone: words 2k and 2k+1 encrypt words 2k-2 and 2k-1 under the final words below 2k and the starting words from 2k on; every word is overwritten once, in order |
| BbReference.StartWord | src/encryption/psobb-crypt.c:228-294 | Word by word the array the chain starts from: the literal constants xored with the big-endian masked salt bytes at 4i to 4i + 3 modulo 48, then the table |
| BbReference.EncipherTrace | src/encryption/psobb-crypt.c:305-370 | One link is the trace of sixteen rounds on keys 0 to 15, whitened with keys 17 and 16 |
| Encryption.CreateKeys | src/encryption/encryption.c:30-49 | The setup means a fresh cipher of the requested kind made from the key, every field and key word that cipher does not set is zero, and 0 is returned exactly for unknown kinds |
| Encryption.CryptData | src/encryption/encryption.c:51-69 | The buffer and the setup change as one packet of the cipher; the kind and the bytes past size stay; 0 is returned exactly for unknown kinds |
| Encryption.Recovered | src/encryption/encryption.c:51-69 | Two equal setups: processing what the other sent recovers the data and leaves the setups equal, in both directions |
| Encryption.Lockstep | src/encryption/encryption.c:30-69 | Over every sequence of packets the receiver recovers each plaintext and ends in the state of the sender |
| Encryption.ApplySplit | src/encryption/encryption.c:51-69 | One packet may be cut on a 4-byte (GameCube, PC) or 8-byte (Blue Burst) boundary with the same bytes and final state |
| Encryption.CutsAreInvisible | src/encryption/encryption.c:51-69 | Any session has the bytes and the final state of one packet holding the whole stream |
| Encryption.RecutSession | src/encryption/encryption.c:51-69 | A receiver that cuts the sent stream into other whole pieces recovers the same plaintext stream and ends in the state of the sender |
| Encryption.GamecubeByte | src/encryption/encryption.c:36-60 | From the key bytes to the output bytes: byte i of a fresh GameCube session is xored with byte i % 4 of key word 4 * 521 + i / 4 of the seed |
| Encryption.PcByte | src/encryption/encryption.c:36-57 | Likewise for PC with key word 5 * 55 + i / 4 |
| Encryption.BlueBurstBlock | src/encryption/encryption.c:41-64 | From the key bytes to the output: block j of a fresh Blue Burst session is four rounds with scheduled keys 0 to 5 when encrypting and 5 to 0 when decrypting |
| Encryption.BlueBurstValue | src/encryption/encryption.c:61-64 | One literal block through the front end in both directions |
| Mt19937.RenewAll | src/utils/mt19937ar.c:120-129 | The three segments of the batch loop leave the window 624 steps on in the recurrence |
| Mt19937.GenrandInt32 | src/utils/mt19937ar.c:112-143 | One call is one read of the abstract generator, tempered |
| Mt19937.TwistedRecurrence | src/utils/mt19937ar.c:120-129 | x[k+624] = x[k+397] xor A(upper(x[k]) | lower(x[k+1])), section 26.5.3.2 of ISO/IEC 14882:2011 |
| MtReference.TwistedBit | src/utils/mt19937ar.c:121-130 | The same bit by bit, with the literal lags 624 and 397, the spliced bits and the literal matrix row |
| Mt19937.OutputIsTempered | src/utils/mt19937ar.c:112-143 | Output i of any run is the tempered stream element next + i |
| Mt19937.TwistCanBeUndone | src/utils/mt19937ar.c:117-129 | The live part of the state before a step is a function of the live part after it |
| Mt19937.TwistInjective | src/utils/mt19937ar.c:117-129 | Any number of steps is injective on the 19937 live bits |
| Mt19937.TwistSurjective | src/utils/mt19937ar.c:117-129 | Every live state has a predecessor |
| Tempering.TemperIsBijective | src/utils/mt19937ar.c:136-140 | Tempering and an explicit untempering are inverse to each other on all words |
| Tempering.TemperIsLinear | src/utils/mt19937ar.c:136-140 | Tempering maps the xor of two words to the xor of their images |
| Tempering.TemperedBits0 | src/utils/mt19937ar.c:136-140 | The literal images of the one-bit words 2^0 to 2^7 |
| Tempering.TemperedBits8 | src/utils/mt19937ar.c:136-140 | Of 2^8 to 2^15 |
| Tempering.TemperedBits16 | src/utils/mt19937ar.c:136-140 | Of 2^16 to 2^23 |
| Tempering.TemperedBits24 | src/utils/mt19937ar.c:136-140 | Of 2^24 to 2^31 |
| Tempering.OutputsReveal | src/utils/mt19937ar.c:112-143 | The next 624 outputs, untempered, are the window the generator is about to read, wherever in a batch it stands |
| Tempering.OutputsDetermineRun | src/utils/mt19937ar.c:112-143 | Two generators that agree on 624 consecutive outputs agree on every later output |
| Tempering.OutputsDetermineSeed | src/utils/mt19937ar.c:69-143 | Two seeds that agree on the first 624 outputs are equal |
| Mt19937.NeverAllZero | src/utils/mt19937ar.c:117-132 | A state whose live bits are not all zero never reaches the zero state |
| Mt19937.Init | src/utils/mt19937ar.c:69-82 | The array is the seeding sequence of s and the next read renews the batch |
| MtReference.FoldBit | src/utils/mt19937ar.c:73-74 | Folding xors each bit with the one thirty places above it |
| MtReference.ScaleIsAdditive | src/utils/mt19937ar.c:73-73 | The multiplication is the additive map modulo 2^32 that takes 1 to 1812433253 |
| Mt19937.SeededOutput | src/utils/mt19937ar.c:69-143 | Output i after seeding is the tempered element 624 + i of the sequence the seed starts |
| Mt19937.SeededIsLive | src/utils/mt19937ar.c:69-82 | Every seed, also 0, leaves a state with a live bit set |
| Mt19937.SeedNeverDies | src/utils/mt19937ar.c:69-143 | So no run from any seed reaches the zero state |
| Mt19937.InitArray | src/utils/mt19937ar.c:84-110 | Word 0 is 0x80000000 and the other words are the last 623 elements of one scrambling sequence, in the slots the wrapping index left them in |
| Mt19937.MixInKey | src/utils/mt19937ar.c:90-99 | The first loop takes max(624, len) elements of the scrambling sequence from the key, both indices wrapping |
| Mt19937.MixInIndex | src/utils/mt19937ar.c:100-107 | The second loop takes 623 more from the slot index |
| Mt19937.HeldStep | src/utils/mt19937ar.c:92-106 | The wrapping index walks the 623 slots like a ring: the slot about to be written holds the element 623 back |
| MtReference.ScaleKeyIsAdditive | src/utils/mt19937ar.c:93-93 | The key pass multiplies by 1664525 |
| MtReference.ScaleIndexIsAdditive | src/utils/mt19937ar.c:102-102 | The index pass multiplies by 1566083941 |
| Mt19937.ArraySeedNeverDies | src/utils/mt19937ar.c:109-109 | No run from a state with word 0 equal to 0x80000000 reaches the zero state |
| Crc32.Checksum | src/utils/checksum.c:23-40 | The byte loop computes the bit-serial checksum of the whole message: all-ones preset, final complement |
| Crc32.MaskedStepIsStep | src/utils/checksum.c:29-36 | The branch-free masked form is the conditional shift and xor |
| Crc32.ShiftByte | src/utils/checksum.c:28-36 | Xoring a byte in and stepping eight times equals shifting its bits in one by one, lowest first |
| Crc32.RegisterNext | src/utils/checksum.c:27-37 | The register after i + 1 bytes from the register after i |
| Crc32.CrcAffine | src/utils/checksum.c:23-40 | crc(a) ^ crc(b) ^ crc(c) = crc(a ^ b ^ c) for messages of equal length |
| Crc32.StepCanBeUndone | src/utils/checksum.c:29-36 | One register step has an explicit inverse |
| Crc32.StepNInjective | src/utils/checksum.c:29-36 | Any number of steps is injective on the register |
| Crc32.BurstChangesRegister | src/utils/checksum.c:23-40 | Two bit strings that differ only inside 32 consecutive bits leave different registers |
| Crc32.BurstDetected | src/utils/checksum.c:23-40 | Two messages of equal length that differ only inside a window of 32 consecutive bits, at any bit offset, have different checksums |
| Crc32.Residue | src/utils/checksum.c:23-40 | A message followed by its little-endian checksum has the checksum 0x2144DF1C, section 8 of RFC 1952 |
| Crc32.CheckValue | src/utils/checksum.c:23-40 | The checksum of "123456789" is 0xCBF43926 |
| Crc32Remainder.GeneratorTerms | src/utils/checksum.c:29-29 | The reflected constant stands for x^32 + x^26 + x^23 + x^22 + x^16 + x^12 + x^11 + x^10 + x^8 + x^7 + x^5 + x^4 + x^2 + x + 1 |
| Crc32Remainder.StepPoly | src/utils/checksum.c:29-36 | A register step is multiplication by x with reduction, coefficient by coefficient |
| Crc32Remainder.ShiftPoly | src/utils/checksum.c:28-36 | One message bit adds b * x^32 to the raised register and takes away the generator if the quotient bit is one |
| Crc32Remainder.RegisterIsRemainder | src/utils/checksum.c:23-38 | For every bit string, message * x^32 + preset * x^n = quotient * generator + register, and the register has degree below 32 |
| Crc32Remainder.RemainderIsUnique | src/utils/checksum.c:23-38 | Any quotient and any remainder of degree below 32 with that equation give this register |
| Crc32Remainder.PolyDetermines | src/utils/checksum.c:26-29 | Distinct register words stand for distinct polynomials |
| Crc32Remainder.CrcIsRemainder | src/utils/checksum.c:23-40 | For every byte string the checksum is the one word whose complement is that unique remainder, section 8.1.1.6.2 of ITU-T V.42 |
| Md5Compression.FastForms | src/utils/md5.c:115-116 | The optimised F and G are the standard selections |
| Md5Bits.FBit | src/utils/md5.c:115-115 | F selects the bit of y where x is set and that of z elsewhere |
| Md5Bits.GBit | src/utils/md5.c:116-116 | G selects the bit of x where z is set and that of y elsewhere |
| Md5Bits.HBit | src/utils/md5.c:117-117 | H is the parity of the three bits |
| Md5Bits.IBit | src/utils/md5.c:118-118 | I flips the bit of y where x is set or z is clear |
| Md5Bits.RotBit | src/utils/md5.c:112-112 | Rotation moves bit i to bit i + s modulo 32 |
| Md5Compression.FourSteps | src/utils/md5.c:120-143 | Four macro lines with rotated registers are four steps of the 64-step fold |
| Md5Compression.QuadF | src/utils/md5.c:121-125 | Four lines of round one, with indices and shifts as written |
| Md5Compression.QuadG | src/utils/md5.c:127-131 | Four lines of round two |
| Md5Compression.QuadH | src/utils/md5.c:133-137 | Four lines of round three |
| Md5Compression.QuadI | src/utils/md5.c:139-143 | Four lines of round four |
| Md5Compression.FirstRound | src/utils/md5.c:176-192 | Lines 1 to 16 are steps 0 to 15, message index i |
| Md5Compression.SecondRound | src/utils/md5.c:194-210 | Lines 17 to 32 are steps 16 to 31, message index 5i + 1 mod 16 |
| Md5Compression.ThirdRound | src/utils/md5.c:212-228 | Lines 33 to 48 are steps 32 to 47, message index 3i + 5 mod 16 |
| Md5Compression.LastRound | src/utils/md5.c:230-246 | Lines 49 to 64 are steps 48 to 63, message index 7i mod 16 |
| Md5Compression.Compress | src/utils/md5.c:160-253 | The unrolled compression is the 64-step fold of section 3.4 of RFC 1321 plus the chaining addition, for every state and block |
| Md5.Start | src/utils/md5.c:151-157 | The context means nothing counted, the initial registers, nothing buffered |
| Md5.Process | src/utils/md5.c:160-253 | The registers become the compression of the little-endian words of the block |
| Md5.TopUp | src/utils/md5.c:266-273 | A filled-up buffer is hashed as the next block |
| Md5.HashWhole | src/utils/md5.c:275-280 | The loop folds every whole block left in the input |
| Md5.Consume | src/utils/md5.c:259-280 | Before buffering, the registers are the fold over everything but fewer than 64 bytes |
| Md5.CountedTail | src/utils/md5.c:260-264 | Even when the 32-bit shift drops count bits, the counted size still gives the right buffer position |
| Md5.Leftover | src/utils/md5.c:282-285 | What stays buffered is the tail of the stream |
| Md5.HashBlock | src/utils/md5.c:255-286 | The context absorbs the input: registers fold the whole blocks, the buffer holds the rest, the count wraps as the C arithmetic does |
| Md5.Finish | src/utils/md5.c:288-312 | Padding and the eight length bytes are absorbed and the digest is written little-endian |
| Md5.Digest | src/utils/md5.c:316-322 | One call writes the digest of start, absorb, finish |
| Md5Message.AbsorbHolds | src/utils/md5.c:255-286 | If the registers are the fold over the whole blocks of m and the buffer is the rest of m, so they are for m + input after absorbing input, for any input |
| Md5Message.AnySplit | src/utils/md5.c:255-286 | From any context a message led to, every way of cutting further input into calls reaches the registers and live buffer of one call, and the count of one call if and only if the low 29 bits of the call lengths sum below 2^29, modulo 2^61 |
| Md5Message.SplitCount | src/utils/md5.c:264-264 | The same condition for the count alone, for any number of calls of any lengths on any context |
| Md5Message.FirstSplitFailure | src/utils/md5.c:264-264 | Two calls of 2^28 zero bytes count differently from one call of 2^29 |
| Md5Message.CountAll | src/utils/md5.c:264-264 | After any calls the count is eight times the bytes that the 32-bit shifts kept, modulo 2^61 |
| Md5Message.FinishedDigest | src/utils/md5.c:288-312 | Finishing ends on a block boundary with an empty buffer, the registers being the fold over the padded message |
| Md5Message.StreamedHash | src/utils/md5.c:255-313 | Whatever the calls, finishing hashes the whole message with the padding for the count kept |
| Md5Message.StreamedPadding | src/utils/md5.c:255-307 | That padding is the RFC 1321 padding of the concatenation if and only if the 2^29s of bytes that the calls failed to count are a multiple of 2^32 |
| Md5Message.StreamedDigest | src/utils/md5.c:255-313 | Under that condition, which holds when every call is below 2^29 bytes, the digest is the RFC 1321 digest of the concatenation |
| Md5Message.DigestHashes | src/utils/md5.c:316-322 | For every length a C caller can pass, the one-call registers are the fold over message, padding and the count as truncated |
| Md5Message.OneCallPadding | src/utils/md5.c:264-307 | That padding is the padding of sections 3.1 and 3.2 of RFC 1321 if and only if the message is shorter than 2^29 bytes |
| Md5Message.FirstFailure | src/utils/md5.c:264-264 | 2^29 zero bytes in one call are padded differently from RFC 1321 |
| Md5Message.OneCallDigest | src/utils/md5.c:316-322 | For every message shorter than 2^29 bytes the one-call digest is the RFC 1321 digest |
| Md5Vectors.EmptyDigest | src/utils/md5.c:44-81 | The digest of the empty message, literally, by 64 literal register steps (section A.5 of RFC 1321) |
| Md5Vectors.AbcDigest | src/utils/md5.c:44-81 | The digest of "abc", likewise |
| Md5Vectors.OneCallVectors | src/utils/md5.c:316-322 | The one-call digest of these two messages is that digest |
| Md5Message.ZerosIsLeast | src/utils/md5.c:110-110 | The zero padding is the least number that makes the length 56 mod 64 |
| Items.HandleItem | src/utils/items.c:690-916 | One item tag extends at most one list and returns the code of its branch: a weapon, mag or tool with failing children stays listed, a failing guard is not |
| Items.HandledKeepsSorted | src/utils/items.c:700-913 | One item tag keeps every record in the list of its kind and of the kind its code encodes |
| Items.ReadIsSorted | src/utils/items.c:690-916 | So after any sequence of item tags, whatever each returned |
| ItemLists.ReadInOrder | src/utils/items.c:722-913 | After any item tags each list holds, in tag order, the parsed records of exactly the tags of its type, a guard whose parser failed left out |
| ItemLists.EarliestTagDecides | src/utils/items.c:722-913 | Of all tags of the type of an item, the earliest whose record has its code and covers its version decides the verdict |
| ItemLists.SwappedReverses | src/utils/items.c:712-715 | Swapping a code reverses its four bytes and undoes itself |
| ItemLists.KindByBytes | src/utils/items.c:722-911 | The low byte of a code selects weapons, guards, mags or tools, and the next byte frames, barriers or units |
| ItemLists.FreshLimitsNothing | src/utils/items.c:722-910 | A record whose tag sets nothing rejects no value of its own |
| ItemPercents.CheckKills | src/utils/items.c:1306-1354 | A checked Sealed J-Sword needs the kill marker, an unsealed one at least 0xD600, and only GameCube and Xbox J-Swords are exempted |
| ItemPercents.CheckListed | src/utils/items.c:1356-1409 | The record tests accept exactly when every slot meets the limits the record sets, and report which were set |
| ItemPercents.CheckDefaults | src/utils/items.c:1411-1504 | The default tests accept exactly when every slot meets the defaults for what the record left unset |
| ItemPercents.CheckPercents | src/utils/items.c:1304-1515 | Accepts exactly when the kill rule holds and each slot lies within all the limits that bind it and is a multiple of five, the third slot of a J-Sword exempt |
| ItemBytes.PercentsByBytes | src/utils/items.c:1304-1515 | The same from the bytes: types in bytes 6, 8 and 10, signed values in bytes 7, 9 and 11, type 5 for hit, and the literal codes and kill thresholds of J-Swords |
| ItemPercents.UpperResolves | src/utils/items.c:1356-1504 | The layered upper tests of a slot together mean: at most every binding limit |
| ItemPercents.LowerResolves | src/utils/items.c:1356-1504 | The layered lower tests together mean: at least every binding limit |
| PercentTightening.UpperStricter | src/utils/items.c:1356-1504 | New upper limits of a slot reject all that the old ones reject if and only if the old ones leave it unbounded, or the new ones bind it by a least limit that is no higher |
| PercentTightening.LowerStricter | src/utils/items.c:1356-1504 | The same for lower limits and the greatest binding one |
| PercentTightening.SettingUpper | src/utils/items.c:1356-1504 | When setting one unset upper limit gives a slot no new value, counted in the multiples of five a signed byte can hold: a hit limit exactly when the greatest value it admits is no greater than before, or is below the least value allowed; a default hit or percent limit likewise against the default percent limit it displaces; a default percent limit always |
| PercentTightening.SettingLower | src/utils/items.c:1356-1504 | The same for lower limits and least values |
| PercentTightening.SlotFits | src/utils/items.c:1356-1511 | A filled slot is accepted exactly when its value lies in one range of signed bytes, and is a multiple of five unless exempt |
| PercentTightening.StricterIsExact | src/utils/items.c:1304-1515 | Of two sets of rules, differing in any limits and settings, the first accepts no item that the second rejects if and only if its ranges for hit and other slots lie within those of the second and, for a J-Sword, its kill check and third slot are at least as strict |
| PercentTightening.SettingMaxHit | src/utils/items.c:1304-1515 | Setting the unset maximum hit of a weapon record accepts no new item if and only if hit slots gain no value, nor the third slot of a J-Sword whose kills are not checked |
| PercentTightening.SettingMinHit | src/utils/items.c:1304-1515 | The same for the minimum hit |
| PercentTightening.TighteningIsMonotone | src/utils/items.c:1304-1515 | In particular, with the same limits set, tightening any of them never accepts a rejected item |
| PercentTightening.SettingALimitCanAccept | src/utils/items.c:1360-1409 | An item where the condition fails: adding a hit limit of 50 accepts a hit slot of 40 that a percent limit of 30 rejected |
| MagBlasts.AdjustLeft | src/utils/items.c:1923-1940 | The in-place adjustment, copied at lines 2070-2087, decodes the rank |
| MagBlasts.DecodesTheRank | src/utils/items.c:1923-1940 | The result is the n-th natural not in {c, r} if and only if c and r differ or n < c |
| MagBlasts.EqualBlastsSkipOne | src/utils/items.c:1923-1940 | With equal centre and right blasts rank 0 decodes to 2 although 1 is free |
| MagBlasts.NeverCollides | src/utils/items.c:1855-1856 | The decoded blast is never the centre or the right one |
| MagBlasts.StrictlyIncreasing | src/utils/items.c:1923-1940 | Different ranks decode to different blasts, in order |
| MagBlasts.ReachesEveryFree | src/utils/items.c:1923-1940 | For distinct centre and right blasts every remaining blast is reached, by its own rank |
| ItemChecks.Scan | src/utils/items.c:2142-2144 | The list loop, the same in all checkers, finds the first record with this code that covers this version |
| ItemChecks.FindSkips | src/utils/items.c:2142-2144 | Records that do not match have no effect in front of the others |
| ItemChecks.CheckTool | src/utils/items.c:2131-2164 | The verdict of the first matching record for the normalised code, or the default |
| ItemChecks.CheckGuard | src/utils/items.c:1677-1808 | Likewise for frames, barriers and units, each tested as its own record kind |
| ItemChecks.GuardDowncast | src/utils/items.c:1705-1800 | The type bits of the item select exactly the kind of any matching record, so every downcast is right |
| ItemChecks.TestStats | src/utils/items.c:1870-1921 | Accepts exactly when all statistics, their sum, IQ and synchro lie within the record limits |
| ItemChecks.TestBlasts | src/utils/items.c:1923-1956 | Accepts exactly when each present blast, the left one decoded, and the colour are allowed |
| ItemChecks.CheckMag | src/utils/items.c:1810-2129 | Both mag layouts: the item bytes decide blasts, statistics and code; the verdict is that of the first matching record, or the default |
| ItemChecks.CheckName | src/utils/items.c:1555-1608 | All eight five-bit letters packed in the bytes are at most 26 |
| ItemChecks.CheckSrank | src/utils/items.c:1544-1615 | An S-rank under checked names must be named and named legally |
| ItemChecks.CheckDistinct | src/utils/items.c:1617-1629 | No two slots carry the same nonzero attribute |
| ItemChecks.TestWeapon | src/utils/items.c:1633-1664 | Accepts exactly when not auto-rejected, grind, percents and special attribute being as the record allows; the attribute needs a defined bit test only when the earlier tests pass |
| ItemChecks.CheckWeapon | src/utils/items.c:1517-1675 | Wrapping, name and slot rules come first; then the first matching record, or percents against the defaults and the default verdict |
| ItemChecks.CheckItem | src/utils/items.c:2166-2191 | The verdict depends on the one list that the item type selects; meseta passes and unknown types fail |
| ItemBytes.CodeByBytes | src/utils/items.c:1517-2140 | The code looked up for each type of item, byte by byte, with the renumberings of versions before the GameCube |
| ItemBytes.MagV3ByBytes | src/utils/items.c:1821-1921 | Blasts, statistics, IQ, synchro and colour of a GameCube or Xbox mag as numbers, the Xbox second word being reversed |
| ItemBytes.MagV2ByBytes | src/utils/items.c:1979-2101 | The same for version 1 and 2 mags |
| ItemBytes.MagByBits | src/utils/items.c:1862-1960 | A mag record accepts exactly these bounds and these bits |
| ItemBytes.WeaponByBytes | src/utils/items.c:1633-1664 | A weapon record accepts exactly this grind byte, these percents and this attribute bit |
| ItemBytes.BeforeListByBytes | src/utils/items.c:1524-1629 | What bytes 4 to 11 of a weapon must satisfy before the list is searched |
| ItemBytes.SrankByBytes | src/utils/items.c:1544-1548 | S-rank codes, by their two low bytes |
| ItemBytes.NameByBytes | src/utils/items.c:1555-1608 | The eight letters as numbers made of the bytes |
| ItemBytes.MatchesByBits | src/utils/items.c:2142-2143 | A record matches exactly when the codes are equal and it covers every version bit asked for |
| ItemChecks.VerdictByFirstMatch | src/utils/items.c:2166-2191 | For every item and version, two lists with the same first match for the normalised code give the same verdict, and one is defined in C where the other is |
| ItemChecks.InsertingIsInvisible | src/utils/items.c:2166-2191 | Inserting a record that does not match, anywhere, changes no verdict, nor whether there is one |
| ItemChecks.FirstMatchDecides | src/utils/items.c:2166-2191 | What stands before a first match without matching, and anything after it, changes no verdict, nor whether there is one |
| ItemChecks.V2MagsAreDefined | src/utils/items.c:1967-2113 | A version 1 or 2 mag never reaches an undefined colour test |
| RecordTightening.GuardKept | src/utils/items.c:1705-1800 | A stricter frame, barrier or unit record rejects what the looser one rejects, also with the rule against maximal items |
| RecordTightening.MagKept | src/utils/items.c:1862-1960 | A stricter mag record, in statistics, blasts and colours, rejects what the looser one rejects |
| RecordTightening.WeaponKept | src/utils/items.c:1633-1664 | A stricter weapon record, in grind, percents and attributes, rejects what the looser one rejects |
| RecordTightening.TighteningARecord | src/utils/items.c:2166-2191 | Replacing any record of any bucket by a stricter one with the same code and versions never accepts an item that was rejected |

## Left out

- Parsing of the limits file and its attributes (src/utils/items.c:109-688, 918-1243): a parser of child tags is a parameter of `Items.HandleItem` that may set any limit and may fail, but keeps the code and the kind of its record.
- Allocation failure, reference counting and freeing (src/utils/memory.c, src/utils/items.c:1245-1302).
- Configuration, ship, quest and database files, logging, directory and address helpers, and all printing of keys and data.
- GcRecurrence.SeedDiesExactly: no lemma shows that some top bit among the 521 is set for each of the 2^32 seeds, so that no seed dies is left as this exact condition.
- Big-endian hosts: `LE32` is the identity here.
- The floating-point generators, `mt19937_genrand_int31` and the global-state wrappers of src/utils/mt19937ar.c:145-240.
- The 1024 literal table words of src/encryption/psobb-crypt.c:24-153: the table is an arbitrary parameter, so the schedule and the round trip hold for every table.
- The name a weapon record may carry, which no checker reads.
- Item records are values and the lists sequences; the links of the queues are not modelled.
- GcCrypt.CryptData: sizes are multiples of 4, because the C code would read and write past the buffer; the xor is the meant one, the C expression at src/encryption/psogc-crypt.c:110 having an unsequenced increment.
- PcCrypt.CryptData: sizes are multiples of 4, for the same reason, and below 2^32, because the loop counts in 32 bits and never ends for a larger `unsigned long` size (src/encryption/psopc-crypt.c:83-84).
- BbCrypt.Encrypt: lengths are multiples of 8, for the same reason, and below 2^32, the range of the parameter.
- BbCrypt.Decrypt: lengths are multiples of 8 and below 2^32, likewise.
- Encryption.CryptData: sizes are multiples of 4 or 8 as for the cipher in use, and below 2^32 for PC (which would not end) and Blue Burst (whose functions take 32 bits of the `unsigned long`, so that only the size modulo 2^32 would be processed); an unknown cipher takes any size.
- Crc32.Checksum: the size is the length of the byte string; the C int also admits a negative size, which hashes nothing.
- Mt19937.InitArray: the key has at least one word, since the C code reads the first word of an empty key too.
- Md5.HashBlock: a call takes fewer than 2^32 bytes, the range of its 32-bit size.
- Md5.Digest: a call takes fewer than 2^32 bytes, likewise.
- ItemChecks.CheckWeapon: where the C code reaches `1 << tmp` with a special attribute from 31 to 40, which is undefined there (src/utils/items.c:1659), there is no verdict; items rejected or unlisted before that test are covered.
- ItemChecks.CheckMag: likewise where the C code reaches `1 << tmp` with a GameCube or Xbox colour from 31 on (src/utils/items.c:1955).
- ItemChecks.TestWeapon: the same, for a single record.
- ItemChecks.TestBlasts: the same, for a single record.
- ItemChecks.CheckItem: takes both exclusions over from the checkers it calls.
