# A verified model of the SoNIC / DTP hardware and its host code

This project models the parts of the repository in which most can go wrong and
proves what they promise, for all inputs and all interleavings.

**The 10GBASE-R receive path** (clause 49 of IEEE 802.3). `Scrambling`,
`Descrambler`, `LockControl`, `BlockSync`, `Pcs`, `Decoder`, `LineCode`,
`OrderedSets`, `BypassedIdle`, `DtpRx` and `DtpMessages` model the reference encoder, scrambler and decoder in Python and the
four Bluespec modules. `LineStream` says what a far-end transmitter may put on
the wire, `ReceptionExample` gives a line of any length that meets the
assumptions, and `HeaderPatterns` shows that every header pattern can be
received. `ReceivePath` joins everything as `mkEthPcsRx` and `EthPhy` do:
`PathDelivers` says that the right XGMII blocks come out in every run,
`PathRecovers` that they do so again after any disturbance, `MessagesArrive`
the same of DTP messages, and `EverythingComesOut` that nothing gets stuck.

**CRC32.** `Crc32Rows` holds the tap tables of the two XOR networks, `Crc32`
proves them equal to the one-bit shift register, and `CrcMessages` lifts that
to messages of any length: refinement, burst error detection, residue.

**Protocols and pipelines around the PHY.** `TxCredit` (transmit credits
between host and hardware), `DtpLog` (two-word log messages), `DtpSwitch`
(maximum of counters), `RegionTable` (MMU regions), `DmaFraming` (packet
framing on the DMA channel) and `BeatPacking` (`mem_copy`). `Settling` is the
common argument that a system whose every step takes work away comes to rest;
it turns "nothing gets stuck" into bounded progress for the receive path, the
credits, the log link and the DMA channel.

## How to read it

- A Bluespec rule is an atomic step. Each module has a `State`, one function
  per rule with its guard (`CanFire`, `Enabled`), an invariant `Inv` with one
  `...Keeps` lemma per rule, and a class with the source's registers and FIFOs
  whose methods are proved to be those steps and to keep the invariant. A run is any interleaving of
  enabled steps from reset; later modules write it as `After(acts)`, where an
  action that is not enabled does nothing.
- `mkFIFOF` is a queue of capacity 2, `mkBypassFIFOF` of capacity 1. Histories
  (`put`, `got`, `emitted`, `sent`, ...) are only for stating properties.
- `Bit#(n)` is a sequence of n booleans, least significant first, which is
  also the order on the wire. Counters are naturals with their wrap-around
  written out. Python integers are unbounded.
- `rx_ready` and timeouts decide when a step may happen, so they appear as the
  freedom to choose the step.

## Where code and expectation differ

The code is followed in each case.

- Lock needs 65 valid headers and is lost on the 17th invalid one, because the
  counters are compared before they are incremented (hw/bsv/BlockSync.bsv:115-147);
  clause 49 counts 64 and 16. After reset the search starts at offset 60.
- Credits are conserved if and only if no `startRead` arrives while a
  descriptor is pending (`CreditConserved`); `BackToBackLoses` is the instance.
- The switch adds two to the maximum if and only if the sum fits into 53 bits
  (`SwitchComputesMax`, `WrapForgets`).
- `findNearestMultiple` rounds up if and only if the length is at most
  2^32 - 16 (`RoundsUp`), and a DMA command is framed right in every run if
  and only if its length is 1 to 2^32 - 16 (`ExactRange`): any other one leaves
  its length behind and mislabels the next command (`BadLengthMislabels`).
- `pcs_decode` drops idle blocks that carry a DTP message (`IdleWithMessage`);
  the hardware path does not, because `DtpRx` clears them first.
- The decoder looks for the ordered-set code two bits below its place in
  Figure 49-7, at bits 35:32 and 39:36 of the 66-bit block instead of 37:34 and
  41:38 (hw/bsv/Decoder.bsv:241-244): a sequence is shown only if the two bits
  before its code are zero (`SequenceShown`, `SecondSequenceShown`).
- The debug register named `errorframes` counts idle blocks (`CountersCount`).
- The error counter of `DtpRx` can never move (`NoUnknownContent`).
- Log words are 52 bits: the local counter loses its top bit and the 64-bit
  host word its top 12 bits.
- While `rx_ready` is low `DtpRx` lets messages through, and the decoder turns
  them into control characters: the idle block survives if and only if the
  message is zero (`IdleSurvives`).

## Model

| member | source | states |
|---|---|---|
| `Scrambling.ScrambleWordIsSerial` | hw/tests/data/xgmii.py:194-208 | the closed-form 64-bit scrambler step is 64 steps of s[n] = d[n] ^ s[n-39] ^ s[n-58], with the top 58 state bits as history |
| `Scrambling.Scramble` | hw/tests/data/xgmii.py:194-208 | the loop over a word stream of any length obeys the bit-serial law from the all-ones state, over the whole bit string |
| `Scrambling.RecurrenceAppend` | hw/tests/data/xgmii.py:194-208 | the bit-serial law holds of a stream if and only if it holds of its two parts, the second with the last 58 line bits as history |
| `Scrambling.LineUnique` | hw/tests/data/xgmii.py:194-208 | data and history determine the line |
| `Scrambling.DataUnique` | hw/bsv/Descrambler.bsv:60-77 | line and history determine the data |
| `Scrambling.SelfSynchronises` | hw/bsv/Descrambler.bsv:60-77 | descramblers with different start registers agree on every data bit from bit 58 on |
| `Scrambling.ErrorSpread` | hw/bsv/Descrambler.bsv:60-77 | one flipped line bit n changes exactly data bits n, n+39 and n+58 |
| `Descrambler.DescrambleWordIsSerial` | hw/bsv/Descrambler.bsv:60-77 | one firing of the rule is 64 steps of the inverse bit-serial law |
| `Descrambler.DescrambleAllIsSerial` | hw/bsv/Descrambler.bsv:51-77 | any number of firings obey the bit-serial law, and the register is the last 58 line bits |
| `Descrambler.DescramblingUndoesScrambling` | hw/bsv/Descrambler.bsv:51-77 | descrambling returns the scrambled data: all of it from the shared start register, all but the first block from any register |
| `Descrambler.FireKeeps` | hw/bsv/Descrambler.bsv:60-77 | firing the rule keeps the invariant: the blocks out are the descrambled blocks in, in order |
| `Descrambler.FillDout` | hw/bsv/Descrambler.bsv:69-71 | the loop over the 122-bit history computes the descrambled word |
| `Descrambler.DescramblerModule.Descramble` | hw/bsv/Descrambler.bsv:60-77 | the rule on the registers and FIFOs is the step, and keeps the invariant |
| `Descrambler.DescramblerErrorSpread` | hw/bsv/Descrambler.bsv:60-77 | one payload bit of one received block flipped flips exactly three bits of the descrambled stream, 0, 39 and 58 places on, and no header |
| `LockControl.CountersMean` | hw/bsv/BlockSync.bsv:99-176 | in every reachable state sh_cnt and sh_invalid_cnt are the exact counts over the headers examined at the offset held; the fall-through branches are unreachable and no counter wraps |
| `LockControl.LockRises` | hw/bsv/BlockSync.bsv:110-176 | block_lock rises only after 65 consecutive valid headers examined at one offset |
| `LockControl.LockFalls` | hw/bsv/BlockSync.bsv:110-165 | block_lock falls only on the 17th invalid header of a window of at most 65 |
| `LockControl.WindowVerdict` | hw/bsv/BlockSync.bsv:110-176 | a window that opens with lock keeps it if and only if at most 16 of its 65 headers are invalid |
| `LockControl.LockedWindow` | hw/bsv/BlockSync.bsv:110-176 | where the next window opens: a window of 65 valid headers ends in GOOD_64 and the next one opens 67 blocks after it, with 1 to 16 invalid ones 66 blocks after it, at the same offset |
| `LockControl.LockedFall` | hw/bsv/BlockSync.bsv:128-165 | the 17th invalid header of a window leads through SLIP to the next offset, without lock, two blocks on |
| `LockControl.UnlockedWindow` | hw/bsv/BlockSync.bsv:110-176 | without lock, 65 valid headers lead to GOOD_64, and lock is there with the next window |
| `LockControl.UnlockedFall` | hw/bsv/BlockSync.bsv:128-165 | without lock, the first invalid header leads through SLIP to the next offset |
| `LockControl.LockedExactly` | hw/bsv/BlockSync.bsv:90-176 | with the windows laid out from the headers alone, lock lasts without a break up to a block if and only if no window so far has collected its 17th invalid header |
| `LockControl.LockKept` | hw/bsv/BlockSync.bsv:110-176 | from any moment with lock, lock and offset stay for as long as no window collects a 17th invalid header |
| `LockControl.StaysOnTheWay` | hw/bsv/BlockSync.bsv:90-176 | with one right offset the machine always holds lock there or has a decreasing number of blocks to go |
| `LockControl.LockWithinBound` | hw/bsv/BlockSync.bsv:90-176 | lock is held at the right offset after 2 + 65*67 + 66 blocks, and from then on |
| `LockControl.ResetComes` | hw/bsv/BlockSync.bsv:99-176 | whatever the headers, RESET_CNT comes within 66 blocks of any reachable state |
| `LockControl.LockRecovers` | hw/bsv/BlockSync.bsv:90-176 | recovery from any reachable state: if from block n0 on one offset is always valid and every other one meets 17 invalid headers in any 65 blocks, lock is held at that offset from n0 plus a fixed bound on |
| `HeaderPatterns.HeadersAreAsAsked` | hw/bsv/BlockSync.bsv:73-88 | every pattern of valid and invalid headers, over all offsets and blocks at once, is that of some received stream |
| `HeaderPatterns.BoundIsTightOnLine` | hw/bsv/BlockSync.bsv:90-176 | there is a received stream with one right offset on which lock is still missing one block before the bound |
| `BlockSync.WindowIsStream` | hw/bsv/BlockSync.bsv:73-88 | the shifted block is 66 consecutive received bits |
| `BlockSync.OutputsTile` | hw/bsv/BlockSync.bsv:73-176 | in every run, the blocks consumed while the offset is constant are, end to end, a piece of the received bits: no gap and no overlap |
| `BlockSync.SlipDataKeeps` | hw/bsv/BlockSync.bsv:73-88 | rule slip_data keeps the invariant: it adds the window at the offset held |
| `BlockSync.ConsumeKeeps` | hw/bsv/BlockSync.bsv:90-176 | the five state rules keep the invariant: only RESET_CNT can meet a block cut at an old offset |
| `BlockSync.RunsKeepInv` | hw/bsv/BlockSync.bsv:73-176 | every interleaving of the rules keeps the invariant |
| `BlockSync.NoStaleHeader` | hw/bsv/BlockSync.bsv:65-151 | in every run the block examined in TEST_SH is the window of the received bits at the offset now held |
| `BlockSync.ControlIsDeterministic` | hw/bsv/BlockSync.bsv:73-176 | the lock registers and the cut of every block are functions of the received bits and the number consumed, not of the interleaving |
| `BlockSync.BlockSyncModule.SlipDataRule` | hw/bsv/BlockSync.bsv:73-88 | the shifters and register moves are the step |
| `BlockSync.BlockSyncModule.StateLockInit` | hw/bsv/BlockSync.bsv:90-97 | the rule is the step in LOCK_INIT |
| `BlockSync.BlockSyncModule.StateResetCnt` | hw/bsv/BlockSync.bsv:99-107 | the rule is the step in RESET_CNT |
| `BlockSync.BlockSyncModule.StateTestSh` | hw/bsv/BlockSync.bsv:110-151 | the rule is the step in TEST_SH |
| `BlockSync.BlockSyncModule.CountHeader` | hw/bsv/BlockSync.bsv:115-147 | the branches that test the counters before incrementing them |
| `BlockSync.BlockSyncModule.Slip` | hw/bsv/BlockSync.bsv:153-165 | the rule is the step in SLIP |
| `BlockSync.BlockSyncModule.StateGood64` | hw/bsv/BlockSync.bsv:167-176 | the rule is the step in GOOD_64 |
| `Pcs.PcsEncode` | hw/tests/data/xgmii.py:105-182 | although data is overwritten in place, every payload and header is that of the lanes as they were on entry; exactly the recognised control characters are zeroed |
| `Pcs.ConvertBlock` | hw/tests/data/xgmii.py:115-135 | the inner loop counts and blanks the eight lanes of a block |
| `Pcs.EncodeWellFormed` | hw/tests/data/xgmii.py:105-182 | every well-formed block is encoded with the type field and layout of Figure 49-7 of IEEE 802.3 |
| `Pcs.EncodeAnyLanes` | hw/tests/data/xgmii.py:105-182 | any eight lanes, well-formed or not: the header is 2 if and only if all are data, and the last lane with /S/ or /T/ decides the type field |
| `Pcs.DecodesAllOrNothing` | hw/tests/data/xgmii_rx.py:35-86 | whatever is read, eight lanes are appended or none: none if and only if it is a control block of unknown type |
| `Pcs.PcsDecode` | hw/tests/data/xgmii_rx.py:35-86 | the loop appends the lanes of every block in order |
| `Pcs.PcsDecodeBlock` | hw/tests/data/xgmii_rx.py:35-86 | the branches on header and type field append the lanes of the block |
| `Pcs.AppendTerm` | hw/tests/data/xgmii_rx.py:21-33 | append_idle appends n data bytes, /T/ and idles |
| `Pcs.DecodeEncodeBlock` | hw/tests/data/xgmii_rx.py:35-86 | pcs_decode undoes pcs_encode on every well-formed block |
| `Pcs.DecodeUndoesEncode` | hw/tests/data/xgmii_rx.py:21-86 | pcs_decode undoes pcs_encode on every stream of well-formed blocks, lane for lane |
| `Pcs.IdleWithMessage` | hw/tests/data/xgmii_rx.py:35-86 | an idle block with a non-zero DTP message vanishes in pcs_decode; it survives if and only if the message is zero |
| `Decoder.RunsKeepInv` | hw/bsv/Decoder.bsv:89-643 | every interleaving of stage1_decode, the eight lane rules and for_output keeps the invariant |
| `Decoder.Stage1Keeps` | hw/bsv/Decoder.bsv:89-256 | stage1_decode feeds all lanes in step and adds the block to the counters |
| `Decoder.LaneKeeps` | hw/bsv/Decoder.bsv:261-620 | a lane rule moves its lane on without disturbing the others |
| `Decoder.OutputKeeps` | hw/bsv/Decoder.bsv:622-643 | for_output joins eight lanes of the same block |
| `Decoder.DecoderIsDeterministic` | hw/bsv/Decoder.bsv:89-643 | in every run the k-th word out is the decode of the k-th block in, and the debug registers are the counts over the accepted blocks modulo 2^64 |
| `Decoder.DecoderModule.Stage1DecodeRule` | hw/bsv/Decoder.bsv:89-256 | the rule on the FIFOs and debug registers is the step |
| `Decoder.DecoderModule.ForLaneRule` | hw/bsv/Decoder.bsv:261-620 | the lane rules on the FIFOs are the step |
| `Decoder.DecoderModule.ForOutput` | hw/bsv/Decoder.bsv:622-643 | the rule on the lane FIFOs is the step |
| `LineCode.TypesOneHot` | hw/bsv/Decoder.bsv:89-180 | exactly one comparator recognises the type field of an encoded control block |
| `LineCode.LaneCorrect` | hw/bsv/Decoder.bsv:261-620 | each lane rule returns its lane of the block that was encoded |
| `LineCode.DecoderUndoesEncoder` | hw/bsv/Decoder.bsv:119-643 | the hardware decoder undoes pcs_encode on every well-formed block |
| `LineCode.DecodersAgree` | hw/tests/data/xgmii_rx.py:35-86 | the hardware decoder and pcs_decode agree on every block pcs_encode emits |
| `LineCode.CountersCount` | hw/bsv/Decoder.bsv:181-228 | over a stream debug_bytes, debug_starts and debug_ends are the numbers of data lanes, /S/ and /T/; debug_errorframes counts idle blocks |
| `LineCode.CountersOfRun` | hw/bsv/Decoder.bsv:181-228 | the same for the registers in any run, modulo 2^64 |
| `OrderedSets.CodesBecomeCharacters` | hw/bsv/Decoder.bsv:119-160 | each of the eight 7-bit control codes becomes its XGMII character, every other one the error character |
| `OrderedSets.FirstLane` | hw/bsv/Decoder.bsv:261-330 | lane 0 of the four ordered-set blocks |
| `OrderedSets.MiddleLane` | hw/bsv/Decoder.bsv:447-520 | lane 4 of the four ordered-set blocks |
| `OrderedSets.OtherLanes` | hw/bsv/Decoder.bsv:331-620 | the other lanes of the four ordered-set blocks: control characters or the data bytes in place |
| `OrderedSets.SequenceShown` | hw/bsv/Decoder.bsv:241-244 | a sequence code in its standard place is shown in lane 0 if and only if the two top bits of the data byte before it are zero |
| `OrderedSets.SecondSequenceShown` | hw/bsv/Decoder.bsv:241-244 | the same in lane 4, with the two bits before that code |
| `DtpRx.FireKeeps` | hw/bsv/DtpRx.bsv:77-150 | both rules keep the invariant: blocks leave in order, stripped exactly when parsed under lock; each idle block parsed under lock adds the event read from it, unless the FIFO is full; events are taken in that order; and no error is ever counted |
| `DtpMessages.ReadsMessage` | hw/bsv/DtpTx.bsv:196-260 | an idle block into which the transmitter puts an init, ack, beacon or log message is read as type number 1, 2, 3 or 4 with the same 53 bits; parity is the oddness of the number of set bits |
| `DtpMessages.ReadsNothing` | hw/bsv/DtpRx.bsv:139-146 | three clear type bits are no message, whatever follows |
| `DtpMessages.ReadsBadParity` | hw/bsv/DtpRx.bsv:99-131 | an init, ack or beacon message with the other parity bit is refused |
| `DtpMessages.OnlyMessages` | hw/bsv/DtpRx.bsv:98-145 | conversely, whatever is reported is the message the block was built from |
| `DtpRx.NoUnknownContent` | hw/bsv/DtpRx.bsv:139-142 | the branch that counts receive errors is unreachable |
| `DtpRx.SingleBitErrorIsCaught` | hw/bsv/DtpRx.bsv:99-131 | an init, ack or beacon message with one bit of counter or parity flipped is never delivered |
| `DtpRx.DtpRxModule.RxBypass` | hw/bsv/DtpRx.bsv:77-80 | the rule on the FIFOs is the step without parsing |
| `DtpRx.DtpRxModule.ParseDtpMessage` | hw/bsv/DtpRx.bsv:84-150 | the rule on the FIFOs is the step, with the lock signal of the moment |
| `LineStream.ReferenceSends` | hw/tests/data/xgmii.py:105-208 | what pcs_encode and scramble produce, idle blocks overwritten with any messages, is a transmission |
| `LineStream.StripRestores` | hw/bsv/DtpRx.bsv:98-100 | stripping a block with any message restores the encoder's block |
| `LineStream.JoinsLate` | hw/bsv/Descrambler.bsv:60-77 | whatever came before, a line block that follows the line block before it is descrambled to its payload |
| `LineStream.RightWindow` | hw/bsv/BlockSync.bsv:73-88 | behind junk of any length, the window at one offset is the transmitted block |
| `ReceivePath.RunsKeepInv` | hw/bsv/EthPcsRx.bsv:60-101 | every interleaving of all rules and connections of the path keeps the joint invariant |
| `ReceivePath.LinksStep` | hw/bsv/EthPcsRx.bsv:73-77 | no connection loses, adds or reorders a block |
| `ReceivePath.LocksKeep` | hw/bsv/EthPhy.bsv:324-327 | every block is parsed if and only if DTP is ready and lock is held, at some moment after that block was consumed |
| `ReceivePath.BlockRestored` | hw/bsv/DtpRx.bsv:84-150 | stripping and decoding a block with any message gives the original lanes |
| `ReceivePath.AlignedChain` | hw/bsv/EthPcsRx.bsv:73-77 | from a shared scrambler state, descrambling, stripping and decoding return every block |
| `ReceivePath.RoundTrip` | hw/tests/data/xgmii.py:105-208 | encode, overwrite idle payloads, scramble, descramble, strip, decode: the original stream, block for block |
| `ReceivePath.OffsetSettled` | hw/bsv/BlockSync.bsv:90-176 | from one block before the bound the offset is the right one, from the bound on lock is held |
| `ReceivePath.PathDelivers` | hw/bsv/EthPcsRx.bsv:60-101 | in every run of the whole path, from any bit of a block and any scrambler state and with any messages, every word after the lock bound is the next transmitted XGMII block if and only if DTP was ready for it, or it is not idle, or its message is zero |
| `ReceivePath.PathRecovers` | hw/bsv/EthPcsRx.bsv:60-101 | the same behind junk of any length, which may have locked the receiver anywhere: from a fixed number of blocks after the transmission starts |
| `BypassedIdle.IdleSurvives` | hw/bsv/Decoder.bsv:89-643 | an idle block that was not stripped decodes to eight idles if and only if its message is zero |
| `ReceivePath.MessagesArrive` | hw/bsv/DtpRx.bsv:84-150 | in every run, from the lock bound on, while DTP is ready, a block into which the transmitter put a message gives the clock logic the type and 53 bits of that message, a block without one gives nothing, and a full FIFO loses that event and no other; events come in block order |
| `ReceivePath.EverythingComesOut` | hw/bsv/EthPcsRx.bsv:60-101 | from every reachable state the path goes on, without input and within a bound, to a state in which one word has come out for every block received |
| `ReceivePath.NothingGoesOnForEver` | hw/bsv/EthPcsRx.bsv:60-101 | however the rules are chosen, no more steps than that bound are possible without input |
| `ReceivePath.PathDrains` | hw/bsv/EthPcsRx.bsv:60-101 | no deadlock, loss or duplication: when no rule can fire, exactly one word has come out for every block received |
| `ReceptionExample.LateReceptionIsPossible` | hw/bsv/BlockSync.bsv:73-176 | the assumptions of PathRecovers can be met: a line of any length behind any blocks whatever |
| `ReceptionExample.ReceptionIsPossible` | hw/bsv/BlockSync.bsv:73-176 | the assumptions of PathDelivers can be met: a line of any length whose right offset is told from every other one |
| `Crc32Rows.Recurrence` | hw/bsv/CRC32.bsv:29-255 | the 32 data rows of nextCRC32_D64 satisfy the recurrence of the one-bit shift register with the taps of line 26 |
| `Crc32Rows.WideRegister` | hw/bsv/CRC32.bsv:29-255 | the register enters every row of nextCRC32_D64 as the upper data half does |
| `Crc32Rows.NarrowData` | hw/bsv/CRC32.bsv:260-319 | the data rows of nextCRC32_D8 are the starts of those of nextCRC32_D64 |
| `Crc32Rows.NarrowRegister` | hw/bsv/CRC32.bsv:260-319 | the register rows of nextCRC32_D8 are the data rows on the top byte and a shift by eight |
| `Crc32.SerialIsClosed` | hw/bsv/CRC32.bsv:26-28 | up to 64 steps of the shift register in closed form |
| `Crc32.D64IsSerial` | hw/bsv/CRC32.bsv:29-255 | nextCRC32_D64 is 64 steps of the shift register, bit 63 first |
| `Crc32.D8IsSerial` | hw/bsv/CRC32.bsv:260-319 | nextCRC32_D8 is 8 steps of the shift register, bit 7 first |
| `CrcMessages.WordsBytesBits` | hw/bsv/CRC32.bsv:29-319 | for every message and start value, folding over words equals folding over bytes equals the bit-serial register |
| `CrcMessages.StepIsBijective` | hw/bsv/CRC32.bsv:260-319 | each bit step is a bijection on the register |
| `CrcMessages.SerialIsInjective` | hw/bsv/CRC32.bsv:260-319 | the register after any bit string determines the register before it |
| `CrcMessages.BurstIsDetected` | hw/bsv/CRC32.bsv:260-319 | messages of any length that differ only inside a 32-bit window have different CRCs |
| `CrcMessages.ByteBurstIsDetected` | hw/bsv/CRC32.bsv:260-319 | the same for nextCRC32_D8 folded over bytes |
| `CrcMessages.Residue` | hw/bsv/CRC32.bsv:260-319 | four bytes after a message drive the register to zero if and only if they are its own register, most significant byte first |
| `TxCredit.Accounted` | sonic/SonicTop.bsv:147-225 | in every run the credits in all places plus the overwritten descriptors are 128 |
| `TxCredit.CreditConserved` | sonic/SonicTop.bsv:147-225 | the credits add up to 128 if and only if no startRead of the run found a descriptor pending |
| `TxCredit.BackToBackLoses` | sonic/SonicTop.bsv:322-326 | two startRead calls back to back lose a credit |
| `TxCredit.NeverFull` | sonic/SonicTop.bsv:147-151 | with a host that sends only with credit, the 512-deep queue holds at most 128, the writeback queue at most 4 of 8, and no counter can wrap |
| `TxCredit.WritebacksAreExact` | sonic/SonicTop.bsv:154-225 | with such a host every threshold batch is exactly 32 credits, a timeout writes back 1 to 32, and the counter never passes 32 |
| `TxCredit.EngineGetsSends` | sonic/SonicTop.bsv:147-172 | the engine is handed the descriptors of the sends, in order, less exactly the overwritten ones, as many as the credits lost |
| `TxCredit.EverySendKept` | sonic/SonicTop.bsv:147-172 | if no descriptor is overwritten every send is handed over or on its way, in order |
| `TxCredit.FlightIsRecent` | sonic/SonicTop.bsv:167-225 | the packets in flight are the latest ones handed over |
| `TxCredit.CreditsComeBack` | sonic/SonicTop.bsv:147-225 | from every reachable state the path goes on, within a bound and without a new send, until the host holds every credit not lost |
| `TxCredit.NothingGoesOnForEver` | sonic/SonicTop.bsv:147-225 | however the rules are chosen, no more steps than that bound are possible without a new send |
| `TxCredit.CreditsReturn` | sonic/SonicTop.bsv:154-165 | no credit gets stuck: when nothing more can happen the host has every credit that was not lost |
| `TxCredit.TransmitPath.StartReadCall` | sonic/SonicTop.bsv:322-326 | the call is the step: it overwrites a pending descriptor |
| `TxCredit.TransmitPath.EnqTxDescRule` | sonic/SonicTop.bsv:147-151 | the rule is the step |
| `TxCredit.TransmitPath.DmaReadRule` | sonic/SonicTop.bsv:167-172 | the rule is the step |
| `TxCredit.TransmitPath.TxMacInProgressEop` | sonic/SonicTop.bsv:209-225 | the rule on a last beat is the step: increment and decrement of the counter together |
| `TxCredit.TransmitPath.TxCreditWritebackTimeout` | sonic/SonicTop.bsv:154-159 | the rule is the step |
| `TxCredit.TransmitPath.TxCreditWritebackThreshold` | sonic/SonicTop.bsv:161-165 | the rule is the step |
| `DtpLog.LogKeeps` | hw/bsv/DtpController.bsv:255-274 | log_from_host_cycle keeps the invariant: every port has been sent pairs of halves of its writes, the last perhaps half out |
| `DtpLog.SaveKeeps` | hw/bsv/DtpController.bsv:283-304 | save_host_data keeps the invariant on the three FIFOs of a port |
| `DtpLog.ReadKeeps` | hw/bsv/DtpController.bsv:397-415 | dtp_logger_read_cnt keeps it: the k-th response is the k-th tag-0 word, the k-th tag-1 word and the timestamp of that tag-0 word |
| `DtpLog.RunsSendPairs` | hw/bsv/DtpController.bsv:255-274 | in every run the words sent on each port are a prefix of the tag-0/tag-1 pairs of its writes, in write order |
| `DtpLog.WritesAreThoseOfTheRun` | hw/bsv/DtpController.bsv:389-396 | the writes to a port are those the run asks for while the FIFOs have room |
| `DtpLog.SamplesAreThoseOfTheRun` | hw/bsv/DtpController.bsv:283-304 | mode and counters of the saved words are those of the actions that saved them |
| `DtpLog.ReadsReturnWrites` | hw/bsv/DtpController.bsv:255-415 | in every reset-free run over an in-order lossless link, the j-th read of a port returns the words of the j-th accepted write modulo 2^52, with a timestamp from the moment its first half was saved: on a NIC the local counter plus 3, on a switch the global counter plus 4, on 53 bits |
| `DtpLog.EveryWriteIsRead` | hw/bsv/DtpController.bsv:255-415 | when the link is quiet every write has been answered |
| `DtpLog.WritesGetRead` | hw/bsv/DtpController.bsv:255-415 | from every reachable state the link goes on, within a bound and without a new write, until every write has been answered |
| `DtpLog.NothingGoesOnForEver` | hw/bsv/DtpController.bsv:255-415 | however the rules are chosen, no more steps than that bound are possible without a new write |
| `DtpLog.LogController.LoggerWriteCnt` | hw/bsv/DtpController.bsv:389-396 | the method is the step, a bad port is ignored, and lwrite_cnt_enq is the number of writes on the port modulo 2^32 |
| `DtpLog.LogController.LogFromHostCycleRule` | hw/bsv/DtpController.bsv:255-274 | the rule is the step, and the two dequeue counters are the numbers of halves sent on the port modulo 2^32 |
| `DtpLog.LogReadPort.SaveHostDataRule` | hw/bsv/DtpController.bsv:283-304 | the rule is the step, with the NIC or switch timestamp, and the enqueue counters are the numbers of halves saved modulo 2^32 |
| `DtpLog.LogReadPort.LoggerReadCnt` | hw/bsv/DtpController.bsv:397-415 | the method answers exactly when both halves and the timestamp are there, and lread_cnt_deq is the number of responses modulo 2^32 |
| `DtpSwitch.RunsKeepInv` | hw/bsv/DtpSwitch.bsv:66-108 | every interleaving of the rules keeps the invariant |
| `DtpSwitch.PutsAreThoseOfTheRun` | hw/bsv/DtpSwitch.bsv:118 | the counters of a port are those the run puts in there |
| `DtpSwitch.ModesAreThoseOfTheRun` | hw/bsv/DtpSwitch.bsv:66-108 | the mode of a result is the one set last before its stage2 |
| `DtpSwitch.SwitchComputesMax` | hw/bsv/DtpSwitch.bsv:71-108 | in every run all four ports are handed the same k-th value: zero in NIC mode; in switch mode the maximum of the four k-th counters of the run plus two, if and only if that fits into 53 bits |
| `DtpSwitch.WrapForgets` | hw/bsv/DtpSwitch.bsv:71-81 | for every port a run of the switch in which the largest counter, 2^53 - 1, is forgotten and the port is handed 7 |
| `DtpSwitch.GlobalNeverGoesBack` | hw/bsv/DtpSwitch.bsv:71-108 | counters that never go back give each port a global counter that never goes back |
| `DtpSwitch.SwitchModule.Stage1Rule` | hw/bsv/DtpSwitch.bsv:71-81 | the rule is the step |
| `DtpSwitch.SwitchModule.Stage2Rule` | hw/bsv/DtpSwitch.bsv:84-108 | the rule, with its loop over the ports, is the step |
| `DtpSwitch.SwitchModule.TakeGlobal` | hw/bsv/DtpSwitch.bsv:84-108 | a port takes the head of its FIFO, the next value of its history |
| `RegionTable.BorderTable` | sonic/cpp/dpdk.cpp:184-191 | borderVal[i] pages are the total length of regions 0 to i, indexVal[i] is the entry count less the page count modulo 256, and no 64-bit step wraps |
| `RegionTable.TableFindsEntry` | sonic/cpp/dpdk.cpp:184-191 | for every byte of region i, its page number plus indexVal[i] is modulo 256 the number of the entry that holds it in the list of all entries |
| `DmaFraming.RoundsUp` | hw/bsv/DmaEth.bsv:153-156 | findNearestMultiple rounds up to 16 if and only if the length is at most 2^32 - 16 |
| `DmaFraming.MaskIsLowOnes` | hw/bsv/DmaEth.bsv:147-151 | generateBitMask(n) is n low ones for n up to 16 and empty above |
| `DmaFraming.FrameIsRight` | hw/bsv/DmaEth.bsv:173-201 | a command of any positive length gives one sop first, one eop last, non-empty masks of low ones, and mask bits that total the length |
| `DmaFraming.RunsKeepInv` | hw/bsv/DmaEth.bsv:163-220 | every interleaving of the rules and the engine keeps the invariant, as long as the lengths given are 1 to 2^32 - 16, which ExactRange shows to be the exact range |
| `DmaFraming.NetworkGetsFrames` | hw/bsv/DmaEth.bsv:163-220 | in every run the beats taken from dmaToRing are those of the frames of the commands of the run, in order, none dropped, with the data the engine delivered |
| `DmaFraming.HistoriesAreThoseOfTheRun` | hw/bsv/DmaEth.bsv:163-201 | commands and data are those of the actions of the run |
| `DmaFraming.CommandIsFramed` | hw/bsv/DmaEth.bsv:163-220 | in every run, once the beats of a command have been taken from dmaToRing they carry one sop first, one eop last, non-empty masks of low ones, and mask bits that total its length |
| `DmaFraming.AllFramed` | hw/bsv/DmaEth.bsv:163-220 | no deadlock: when nothing can happen every command given has been framed completely |
| `DmaFraming.EverythingIsFramed` | hw/bsv/DmaEth.bsv:163-220 | from every reachable state the channel goes on, within a bound and without a new command, until every command given has been framed |
| `DmaFraming.NothingGoesOnForEver` | hw/bsv/DmaEth.bsv:163-220 | however the rules are chosen, no more steps than that bound are possible without a new command |
| `DmaFraming.ExactRange` | hw/bsv/DmaEth.bsv:153-220 | after any commands of 1 to 2^32 - 16 bytes, a 32-bit length is framed right in every run if and only if it is 1 to 2^32 - 16 |
| `DmaFraming.BadLengthMislabels` | hw/bsv/DmaEth.bsv:153-220 | for every other length a run in which the next command is framed wrong |
| `DmaFraming.DmaChannel.TransferToFpgaReqRule` | hw/bsv/DmaEth.bsv:163-172 | the rule is the step |
| `DmaFraming.DmaChannel.TransferToFpgaDataRule` | hw/bsv/DmaEth.bsv:173-201 | the rule is the step |
| `DmaFraming.DmaChannel.TransferToNetwork` | hw/bsv/DmaEth.bsv:215-220 | the rule is the step |
| `DmaFraming.DmaChannel.TakeFromRing` | hw/bsv/DmaEth.bsv:215-220 | the packet buffer takes the head of dmaToRing, the next beat of the history |
| `BeatPacking.MemCopy` | sw/lpcap.c:51-87 | a packet of n bytes gives ceil(n/16) writes, sop on the first only and eop on the last only; write j holds words 2j and 2j+1 of the memory, or a zero word behind an odd last one; and the bytes the masks select are exactly the packet, in order |

## Left out

- Decoder.LaneKeeps: the parallel FIFOs of one lane (type, control, data field, sequence flags) are one queue of records, since they are always enqueued and dequeued together.
- ReceivePath.PathDelivers: assumes that every wrong offset shows an invalid header in any 65 consecutive blocks, and PathRecovers that it shows 17; scrambled data do so only with overwhelming probability.
- BlockSync.BlockSyncModule.Slip: the register `cycle`, which is only printed, is not kept, here or in the other receive modules.
- TxCredit.TransmitPath.TxMacInProgressEop: beats other than the last one, `txMacStart` and the packet buffer are one step per packet; the counter library that adds and subtracts in one cycle is an assumption.
- TxCredit.TransmitPath.DmaReadRule: the fields of the engine command other than the descriptor's are not kept.
- TxCredit.HostCredit.Decrement: no 32-bit wrap; with a host that sends only with credit `NeverFull` shows there is none.
- DtpLog.ReadsReturnWrites: the way from one controller to the other (DtpTx, line, DtpRx event path) is an in-order lossless link, and DTP resets are excluded because they empty the FIFOs without restoring `lwstate`.
- DtpLog.LogReadPort.LoggerReadCnt: is one port of the controller; the check that the port number is below 4 is outside it.
- DtpSwitch.SwitchModule.Stage2Rule: the wire `c_global` and the export FIFO, which drop values by design, are not modelled.
- RegionTable.BorderTable: only the border loop; the loop that sends the list has 16 MB entries only.
- DmaFraming.RunsKeepInv: the read engine is an assumption: in order, with `last` on the final beat, and silent for a length that rounds to zero.
- DmaFraming.DmaChannel.TransferToFpgaReqRule: `readReqs`, the tag and the probes are not kept, nor is the done indication they serve.
- DmaFraming.DmaChannel.TransferToFpgaDataRule: `readTags` and the probes are not kept.
- BeatPacking.MemCopy: words are byte sequences in memory order, as on a little-endian host.
- DtpTx (but for the layout of its messages), Encoder.bsv, Scrambler.bsv, PacketBuffer and the memory engines are not part of this model.
- The receive direction of DmaEth does not keep lengths paired when packets overlap and is not modelled; `split` and `combine` of SonicTop only regroup fields; packet generation, file conversion, portals and board files are I/O or configuration.
- `descramble` in hw/tests/data/xgmii_rx.py returns its input unchanged and `xgmii_encode` writes control bytes that `pcs_encode` does not recognise; neither is used.
