# Bitcrab, modelled and proved in Dafny

Bitcrab is a Bitcoin full node in Rust. This project models the parts of it where a mistake would be hard to see, and
proves what they are meant to guarantee, over all inputs, all runs and all interleavings:

- **The UTXO state machine** (`Coins`, `Validation`, `Supply`, `Undo`, `Ledger`, `Attempts`, `Spending`). A write-back cache
  with dirty and fresh flags refines one plain map over whole runs; `connect_block` commits what its overlay validated; value is conserved;
  undo data is sufficient; and over every run of the node no outpoint is created twice.
- **256-bit proof-of-work arithmetic** (`ProofOfWork`, in `Pow.dfy`, and `Compact`). Bit-serial division, limb
  multiplication with saturation, and the exact rounding of compact targets.
- **The script engine** (`Interpreter`, `ScriptMeaning`, `Multisig`, `ScriptOps`, `ScriptNum`, `Opcodes`). Resource limits
  at every instruction boundary of every script, what each opcode answers, the meaning of the greedy
  CHECKMULTISIG matcher, FindAndDelete, and sign-magnitude numbers.
- **Wire format and commitments** (`Wire`, `Transaction`, `Layouts`, `Merkle`, `Signet`). Parser and printer inverses
  with the segwit marker, block weight, and the signet message that ignores its own solution.
- **Sync and storage** (`Headers`, `HeaderBatches`, `Downloads`, `DownloadRounds`, `DownloadTurns`, `BlockFiles`, `UndoLog`).
  The header tree and its heaviest tip, the block-download scheduler among concurrent tasks, and the append-only
  record files with recovery by scanning.

`Bytes` holds the positional arithmetic under all of them. Code that updates fields or arrays in place is modelled by
classes, methods and loops, each proved against a function of the old state; the theorems are about those functions.
`dafny verify dfyconfig.toml` checks everything.

## Where the code does not do what one would expect

Each of these is kept as the code has it, shown by a lemma, and bounded by an exact condition:

- `add_coin` marks any uncached outpoint fresh. That is right exactly when the outpoint is cached or not in the store
  (`Coins.AddKeepsConsistent`); otherwise a spent coin comes back (`Coins.OverwriteResurrects`). `Ledger.ConnectIsSound`
  shows that on a chain with BIP 34 the bad case cannot arise.
- The coinbase-amount rule runs after the commit, so `connect_block` can refuse a block and leave the view changed.
  `Validation.LateRejectionIff` says exactly when, `Validation.LateRejectionExample` shows a block, and
  `Attempts.RefusedCoinsAreStored` follows the coins into the store. When the node tries a refused lone coinbase again
  after a flush has dropped it from the cache, its coins are marked fresh although the store has them
  (`Attempts.RetriedCoinbase`).
- `check_block` asks only that the first transaction be a coinbase. A later one is stopped by the native script engine,
  which wants one coin per input (`Validation.ScriptsSeeCoinbases`); where scripts are not checked, at or below the
  assume-valid height, or are checked by the reference library, it can mint (`Supply.SecondCoinbaseMints`), and
  `Supply.ConnectTotal` states exactly how much.
- Exponents below 3 are placed without shifting, so small targets do not round down: `Compact.RoundTripIff` gives 2^15 as
  the exact threshold. For the same reason rounding is not monotone below 0x7fff00 (`Compact.MonotoneFails`,
  `ProofOfWork.RetargetOvertakes`); `Compact.RoundTripOrdered`, `Compact.MonotoneIff` and `ProofOfWork.RetargetMonotone`
  give the exact conditions.
- A decoded transaction may re-encode differently: `Transaction.TxReencode` says exactly when, and
  `Transaction.MarkerWithoutWitness` that every transaction without a witness has such bytes.
- Loading genesis takes the headers tip whatever is stored (`Headers.GenesisIsSound`, `Headers.GenesisTakesTip`), and
  `process_header` stores a header with a zero parent without any check.
- The check for a stalled block asks for 60 seconds, but runs right after a prune that drops every request of 30 seconds or
  more. `DownloadTurns.StallIff` says exactly when it finds a block, and `DownloadTurns.NoStallInTime` that it cannot unless
  more than 30 seconds pass in between.
- The undo scan stops at an empty payload (`BlockFiles.UsedSizeIsExact`), which matters only to direct callers of
  `write_undo` (`BlockFiles.EmptyPayloadIsLost`): the store handler writes encoded lists, which are never empty
  (`BlockFiles.UndoIsNotEmpty`). A nonzero magic is not needed, because a zero header already stops the scan by its size.

## Model

| member | source | states |
|---|---|---|
| `Coins.RunRefines` | crates/consensus/coins.rs:64-254 | Over every run of adds (of outpoints the view lacks), spends, known spends and flushes, the cached view equals one plain UTXO map; a final flush leaves the store equal to that map and at most `max` entries in the cache |
| `Coins.StepRefines` | crates/consensus/coins.rs:64-254 | One step keeps the flags consistent and changes the view exactly as the plain map changes; a flush leaves only clean entries |
| `Coins.AddView` | crates/consensus/coins.rs:64-78 | `add_coin` changes the view at its outpoint and nowhere else |
| `Coins.AddKeepsConsistent` | crates/consensus/coins.rs:64-78 | Marking an uncached outpoint fresh is right if and only if it is cached already or absent from the store |
| `Coins.OverwriteResurrects` | crates/consensus/coins.rs:64-124 | Adding over an uncached stored coin and spending the addition brings the stored coin back |
| `Coins.SpendView` | crates/consensus/coins.rs:84-140 | Both spends remove exactly their outpoint from the view and keep the flags consistent |
| `Coins.FlushWritesView` | crates/consensus/coins.rs:143-166 | Writing the dirty entries makes the store equal to what the cache showed |
| `Coins.FlushKeepsView` | crates/consensus/coins.rs:169-212 | Settling and trimming after the write changes no lookup |
| `Coins.CoinsViewCache.AddCoin` | crates/consensus/coins.rs:64-78 | The new cache is the old one with a dirty entry, fresh unless the outpoint was cached and not fresh |
| `Coins.CoinsViewCache.SpendCoin` | crates/consensus/coins.rs:84-124 | Returns what the view showed, drops a fresh entry and leaves a dirty tombstone otherwise |
| `Coins.CoinsViewCache.SpendCoinKnown` | crates/consensus/coins.rs:126-140 | Same new cache as a spend, without the answer |
| `Coins.CoinsViewCache.GetCoin` | crates/consensus/coins.rs:215-223 | Answers exactly like the view map |
| `Coins.CoinsViewCache.ToUpdates` | crates/consensus/coins.rs:143-166 | A put or a delete for every dirty entry and for no other, except fresh ones that were spent |
| `Coins.CoinsViewCache.TrimToBudget` | crates/consensus/coins.rs:202-212 | Drops clean entries only, no more than needed to reach `max_entries` |
| `Coins.CoinsViewCache.ClearHistory` | crates/consensus/coins.rs:169-184 | Spent entries leave, the rest become clean, then the cache is trimmed |
| `Coins.CoinsViewCache.FlushToStore` | crates/consensus/coins.rs:235-254 | A flush of the object is a flush step of the state machine, and the best block reaches the store |
| `Coins.Store.UpdateUtxos` | crates/storage/block_manager.rs:443-503 | The write batch applies every update, the best block, the waiting undo index entries (then cleared), the height index and the tracked tip height |
| `Coins.ToppedIsHighest` | crates/storage/block_manager.rs:489-499 | The tracked tip height is the highest of what it was and what was connected |
| `Coins.IndexedLast` | crates/storage/block_manager.rs:489-494 | The last block connected at a height is the one the index finds |
| `Coins.IndexedOthers` | crates/storage/block_manager.rs:489-494 | Other heights stay as they were |
| `Validation.CommitIsOverlay` | crates/consensus/validation.rs:350-441 | For fresh txids, replaying the block into the dirty/fresh cache shows, at every outpoint, the sequential overlay plus the coinbase outputs, coins created and spent inside the block included |
| `Validation.CommitOverOld` | crates/consensus/validation.rs:410-441 | For a coinbase whose coins may exist already the view is still right, and the flags stay honest if and only if each of them is cached at that point or absent from the store |
| `Validation.ConnectBlock` | crates/consensus/validation.rs:326-470 | A rejection before the commit leaves cache, best block and connected list unchanged; a rejection of the coinbase amount comes after the commit and leaves the committed cache; success commits and returns fees and undo list |
| `Validation.LateRejectionIff` | crates/consensus/validation.rs:410-464 | For any sane block on a consistent cache, whose transactions create new coins should they all pass: `connect_block` refuses it and yet leaves the view changed if and only if its transactions and scripts pass and its coinbase claims more than subsidy plus fees (or those exceed MAX_MONEY) |
| `Validation.LateRejectionExample` | crates/consensus/validation.rs:443-464 | A block over one coinbase that claims a satoshi too many passes every check before the commit, is refused, and the view of an empty cache is no longer empty |
| `Validation.CheckTransaction` | crates/consensus/validation.rs:50-108 | Accepts exactly the transactions that are sane, whatever the order of the checks; names the fault it found |
| `Validation.CheckBlockInContext` | crates/consensus/validation.rs:273-345 | Accepts exactly the blocks that are sane in context: merkle root, first coinbase, transactions, weight, BIP 34, witness commitment |
| `Validation.SumOutputs` | crates/consensus/validation.rs:81-86 | The checked sum is the mathematical sum or none, exactly when it exceeds MAX_MONEY |
| `Validation.ContextualCheck` | crates/consensus/validation.rs:186-243 | Run against the overlay, it judges against the map the overlay stands for |
| `Spending.JudgeIff` | crates/consensus/validation.rs:186-243 | An ordinary transaction is accepted if and only if every input exists, every coinbase coin among them is at least 100 blocks old, and the inputs are worth at most MAX_MONEY and at least the outputs; the fee is the difference and the coins are those of the inputs in order |
| `Spending.FirstFault` | crates/consensus/validation.rs:197-215 | The first input that is missing or immature is the one the error names, with the heights in order |
| `Spending.ConnectedSpendsRipe` | crates/consensus/validation.rs:197-215 | No connected block spends a coinbase coin less than 100 blocks old, and none of its own |
| `Spending.ConnectedCoins` | crates/consensus/validation.rs:384-441 | The coins after a connected block, exactly: outputs of its coinbase, marked as such, and what survives its ordinary transactions, whose outputs are not |
| `Spending.ScriptsIff` | crates/consensus/validation.rs:366-378 | The script verdict is the conjunction over the transactions, each with the very coins it spends |
| `Validation.OverlayGet` | crates/consensus/validation.rs:28-44 | The overlay lookup is a lookup in the overlaid map |
| `Validation.OverlayApply` | crates/consensus/validation.rs:384-401 | One transaction changes the overlaid map by removing its inputs and adding its outputs |
| `Validation.ValidateTxs` | crates/consensus/validation.rs:350-408 | The validation loop computes the sequential fold: first error, or fees, undo list and script verdict |
| `Validation.Commit` | crates/consensus/validation.rs:410-441 | The commit loops replay spends and outputs of each transaction, then the coinbase |
| `Validation.CheckCoinbaseAmount` | crates/consensus/validation.rs:448-464 | The coinbase may claim at most subsidy plus fees |
| `Supply.ConnectTotal` | crates/consensus/validation.rs:350-464 | Exact conservation: new total + unclaimed = old total + subsidy + outputs of later coinbases; so growth is at most the subsidy if and only if that excess is within the unclaimed part |
| `Supply.AdvanceTotal` | crates/consensus/validation.rs:350-408 | Total value plus fees is preserved across the ordinary transactions of a block, but for later coinbases |
| `Supply.SecondCoinbaseMints` | crates/consensus/validation.rs:273-325 | A block with a second coinbase passes `check_block` and every check before scripts; it connects, minting that coinbase on top of the full subsidy, if and only if scripts are not checked or the engine accepts a transaction without coins |
| `Validation.ScriptsSeeCoinbases` | crates/consensus/engine.rs:71-78 | With scripts checked by an engine that demands one coin per input, as the native one does, every block that connects has a single coinbase |
| `Attempts.EveryAttemptShows` | crates/consensus/chainstate.rs:545-643 | Over every run of connect attempts, accepted or refused early or late, and flushes, with nothing asked of blocks refused before the commit: if the ordinary transactions of committing blocks create new coins and their coinbase coins are cached or absent from the store, the cache shows the effect of every committed block, late refusals included, and a flush writes exactly that |
| `Attempts.RefusedCoinsAreStored` | crates/consensus/chainstate.rs:545-643 | On such a run, after a late refusal and a flush the store holds every coin of the refused coinbase |
| `Attempts.RetriedCoinbase` | crates/consensus/chainstate.rs:545-643 | A refused block that is a coinbase alone commits again when tried again: no lookup changes, and the flags stay honest if and only if each of its coins is still cached or absent from the store |
| `Attempts.SpentInputRefuses` | crates/consensus/chainstate.rs:545-643 | A block whose first ordinary transaction has lost an input, as any retry of a late-refused one has, is refused early and leaves the cache untouched |
| `Attempts.AttemptsTotal` | crates/consensus/validation.rs:350-464 | Over every run of attempts from nothing whose committing blocks have fresh txids, the supply is exactly the sum of what they minted: coinbase outputs less fees |
| `Attempts.FreshRunTotal` | crates/consensus/chainstate.rs:545-643 | The same for the cache and store of the node itself over such a run |
| `Attempts.MintedBounds` | crates/consensus/validation.rs:443-464 | With one coinbase per block an accepted attempt mints at most its subsidy and one refused for its amount mints more |
| `Supply.SubsidySumBound` | crates/consensus/validation.rs:110-117 | The whole schedule sums to less than MAX_MONEY for every halving interval up to 210000 |
| `Spending.SubsidyHalves` | crates/consensus/validation.rs:110-117 | Fifty coins at first, half of it, rounded down, one interval later, and nothing after 64 halvings |
| `Ledger.NodeRunIsSound` | crates/consensus/validation.rs:326-470 | Over every run of connects and flushes from nothing, with rising BIP 34 heights and blocks that have one coinbase or whose scripts are checked by such an engine: the cache shows the ledger of the history, no txid repeats, and the supply stays within the schedule and below MAX_MONEY |
| `Ledger.FreshRunSupply` | crates/consensus/validation.rs:326-470 | The same supply bound over every run of connects when fresh txids are given instead of BIP 34 |
| `Ledger.ConnectIsSound` | crates/consensus/validation.rs:326-470 | One connect keeps all of that, needs no freshness assumption, and can be undone exactly |
| `Ledger.NoDuplicateTxids` | crates/consensus/validation.rs:124-134 | No outpoint is ever created twice: a repeated coinbase would need one script with two height pushes, a repeated ordinary transaction an input spent and created again |
| `Ledger.HeightPushPrefixFree` | crates/consensus/validation.rs:124-134 | No script starts with the pushes of two different heights |
| `Spending.HeightIsRead` | crates/consensus/validation.rs:124-134 | The height rule holds if and only if the coinbase script starts with a direct push of at most five bytes that is the height, minimally encoded |
| `Spending.SaneMeans` | crates/consensus/validation.rs:50-108 | What makes a transaction sane, spelled out: both lists nonempty, outputs within the money limit, no outpoint twice, null outpoints only in a coinbase, whose script has 2 to 100 bytes |
| `Spending.SaneBlockMeans` | crates/consensus/validation.rs:273-345 | What an accepted block has: a coinbase first, sane transactions, the root of its txids, at most four million units of weight, and its height from the BIP 34 height on |
| `Ledger.Recreated` | crates/consensus/validation.rs:384-401 | A spent outpoint that exists again was created again by a transaction with the same txid |
| `Ledger.FreshFromHistory` | crates/consensus/validation.rs:343-408 | A block accepted on top of a valid history has fresh txids |
| `Undo.DisconnectConnect` | crates/common/types/undo.rs:12-43 | Removing the outputs of a connected block in reverse and restoring the recorded coins gives back exactly the map before it |
| `Undo.UndoAdvance` | crates/consensus/validation.rs:359-402 | The undo list of the transaction loop is sufficient to reverse it |
| `ProofOfWork.CalculateBlockWork` | crates/consensus/pow.rs:122-202 | The bit-serial division computes floor(2^256 / (target + 1)) for every `bits`, and 0 for a zero target |
| `ProofOfWork.DivideBit` | crates/consensus/pow.rs:152-190 | One bit of the long division keeps quotient, remainder and numerator prefix in relation; the shifted remainder does not overflow even for divisors above 2^255 |
| `ProofOfWork.Increment` | crates/consensus/pow.rs:138-146 | Carry propagation adds one modulo 2^(8n) |
| `ProofOfWork.ShiftIn` | crates/consensus/pow.rs:153-163 | Shifts the remainder left by one bit and takes the next bit in |
| `ProofOfWork.Subtract` | crates/consensus/pow.rs:176-187 | Borrow propagation subtracts exactly |
| `ProofOfWork.AtLeast` | crates/consensus/pow.rs:165-174 | The byte comparison from the top orders the numbers |
| `ProofOfWork.AddChainWork` | crates/consensus/pow.rs:205-219 | Byte-wise addition modulo 2^256 |
| `ProofOfWork.MultiplyAndDivide` | crates/consensus/pow.rs:223-266 | floor(target * mul / div), saturated at 2^256 - 1 when limbs overflow |
| `ProofOfWork.MultiplyLimbs` | crates/consensus/pow.rs:232-238 | Limbs plus carry hold the exact product |
| `ProofOfWork.DivideLimbs` | crates/consensus/pow.rs:240-246 | Limbs hold the exact quotient, with its remainder |
| `ProofOfWork.CalculateNextWorkRequired` | crates/consensus/pow.rs:77-119 | With elapsed = prevTime - firstTime and T planned: the compact form of min(pow_limit, floor(old * x / T)) with x = elapsed between T/4 and 4T, T/4 below and 4T above; the old bits without retargeting |
| `ProofOfWork.ExactIsRetargeted` | crates/consensus/pow.rs:85-112 | Measuring, clamping and scaling come to exactly that |
| `ProofOfWork.RetargetedMonotone` | crates/consensus/pow.rs:85-112 | A period that ends later never gives a smaller exact target |
| `ProofOfWork.OnTimeKeepsTarget` | crates/consensus/pow.rs:85-112 | A period of the planned length keeps the target |
| `ProofOfWork.RetargetBounds` | crates/consensus/pow.rs:77-119 | For exact targets of at least 2^15 the decoded new target is at most the exact one, less than one part in 2^15 below it, and at most 4 * old |
| `ProofOfWork.RetargetIff` | crates/consensus/pow.rs:77-119 | The new target does not exceed the exact one if and only if that is zero or at least 2^15 |
| `ProofOfWork.RetargetMonotone` | crates/consensus/pow.rs:77-119 | A longer timespan gives a target that is no harder if and only if the two exact targets, those below 2^15 scaled up as decoding scales them, are in order; in particular whenever the smaller is at least 2^15 |
| `ProofOfWork.RetargetOvertakes` | crates/consensus/pow.rs:77-119 | The failing case: at a target of 128 a period 9450 seconds short of two weeks makes the next target 254 times as easy as a full one |
| `ProofOfWork.ExactMonotone` | crates/consensus/pow.rs:77-119 | Before compact rounding a longer timespan never gives a smaller target |
| `ProofOfWork.RetargetCanonical` | crates/consensus/pow.rs:77-119 | The bits a retarget returns are canonical if and only if the exact target is at least 2^15, and then survive a round trip |
| `Compact.TargetValue` | crates/common/types/block.rs:147-176 | The decoded target is mantissa * 256^(exponent - 3) modulo 2^256, unshifted below exponent 3 |
| `Compact.TargetNotMax` | crates/common/types/block.rs:147-176 | No `bits` decodes to 2^256 - 1, so target + 1 never wraps |
| `Compact.EncodeCompact` | crates/common/types/block.rs:179-212 | The scanning loop finds the compact form that the byte length of the target defines |
| `Compact.EncodeRounds` | crates/common/types/block.rs:179-212 | Encoding keeps the leading bytes: the target is m * 256^e rounded down, with m of at least 2^15 |
| `Compact.RoundTripBelow` | crates/common/types/block.rs:147-212 | Decoding an encoded target of at least 2^15 loses less than one part in 2^15 and never gains |
| `Compact.RoundTripIff` | crates/common/types/block.rs:147-212 | Encoding never raises a target if and only if it is zero or at least 2^15 |
| `Compact.RoundTripMonotone` | crates/common/types/block.rs:147-212 | Rounding is monotone on targets of at least 2^15 |
| `Compact.RoundTripOrdered` | crates/common/types/block.rs:147-212 | For any two ordered targets, their round trips are in order if and only if they are once those below 2^15 are scaled up |
| `Compact.MonotoneIff` | crates/common/types/block.rs:147-212 | No smaller target overtakes a given one if and only if that is below 0x80, in 0x7f00..0x7fff, or at least 0x7fff00 |
| `Compact.MonotoneFails` | crates/common/types/block.rs:147-212 | 0x7f decodes to 0x7f0000 and 0x80 to 0x8000 |
| `Compact.BitsRoundTrip` | crates/common/types/block.rs:147-212 | Canonical bits survive decoding and encoding |
| `Compact.EncodeCanonical` | crates/common/types/block.rs:179-212 | Encoding yields canonical bits if and only if the target is at least 2^15 |
| `Compact.Compare` | crates/common/types/hash.rs:77-95 | The byte order of `Hash256` is the order of the little-endian numbers |
| `Interpreter.RunKeepsLimits` | crates/script/interpreter.rs:65-562 | From a machine within limits, every machine at every instruction boundary of every run is within limits: 1000 elements over both stacks, 520 bytes each, 201 operations, separator inside the script, budget = start - 50 per signature check and not overdrawn |
| `Interpreter.StepKeepsLimits` | crates/script/interpreter.rs:88-555 | One instruction that does not fail keeps every limit, whatever its opcode |
| `Interpreter.ArithmeticFits` | crates/script/interpreter.rs:354-415 | Operands are below 2^31, so every result is below 2^32 and encodes in five bytes: no i64 overflow |
| `Interpreter.NumberRange` | crates/script/num.rs:26-39 | A number read with a 4- or 5-byte limit is below 2^31 or 2^39 in magnitude |
| `Interpreter.TapscriptBudget` | crates/script/interpreter.rs:940-1039 | A tapscript run passes at most (witness size + 50) / 50 signature checks, within every other limit, whatever script and witness |
| `Interpreter.EvalScript` | crates/script/interpreter.rs:65-562 | The loop over the instruction cursor computes the run from the start of the script; success means balanced conditionals, within limits |
| `ScriptMeaning.KeyHashDecides` | crates/script/interpreter.rs:866-893 | A key-hash witness program, run whole: it succeeds exactly when the key hashes to the program and its signature, not empty, satisfies the checker for the implied script; each failure is named |
| `ScriptMeaning.StepMeans` | crates/script/interpreter.rs:88-121 | One turn: oversized pushes, the 202nd operation and disabled opcodes are refused even in branches not taken; such a branch skips all but conditionals; then the instruction executes and 1000 elements are the limit |
| `ScriptMeaning.InactiveMeans` | crates/script/interpreter.rs:137-168 | Only the time locks can be inactive, each by its own flag |
| `ScriptMeaning.CheckSigAnswers` | crates/script/interpreter.rs:460-505 | On a signature with its key on top, before tapscript: true exactly when the signature is not empty and the checker accepts it for that key and script code; NULLFAIL refuses other failures; the VERIFY form leaves nothing or fails |
| `ScriptMeaning.CheckSigRefuses` | crates/script/interpreter.rs:471-485 | Script code, signature encoding and key encoding are refused in that order |
| `ScriptMeaning.ScriptCodeMeans` | crates/script/interpreter.rs:569-600 | From the last separator on; before segwit without any push of the signature and nothing else missing, both of which CONST_SCRIPTCODE turns into errors |
| `ScriptMeaning.TapscriptAnswers` | crates/script/interpreter.rs:607-641 | In tapscript: the budget first, then the key; a signature that is not empty must satisfy the checker for a 32-byte key, and an empty one is false |
| `ScriptMeaning.CheckSigAddAnswers` | crates/script/interpreter.rs:509-525 | OP_CHECKSIGADD adds one for a signature that is not empty, reading signature, number and key in that order |
| `ScriptMeaning.UnaryAnswers` | crates/script/interpreter.rs:354-373 | The unary number opcodes in plain arithmetic |
| `ScriptMeaning.BinaryAnswers` | crates/script/interpreter.rs:375-415 | Sum, difference, minimum, maximum and the boolean opcodes in plain arithmetic, lower operand first |
| `ScriptMeaning.ComparisonAnswers` | crates/script/interpreter.rs:375-415 | The comparisons in plain arithmetic |
| `ScriptMeaning.SmallPushAnswers` | crates/script/interpreter.rs:127-131 | OP_1NEGATE and OP_1 to OP_16 push the number they are named after |
| `ScriptMeaning.EqualAnswers` | crates/script/interpreter.rs:340-352 | OP_EQUAL and its VERIFY form |
| `ScriptMeaning.TopAnswers` | crates/script/interpreter.rs:217-223 | OP_VERIFY by the truth of the top, OP_RETURN always fails, the hash opcodes replace the top by its digest |
| `ScriptMeaning.AltStackAnswers` | crates/script/interpreter.rs:225-234 | The alt stack is last in, first out, and there and back changes nothing |
| `ScriptMeaning.LockTimeAnswers` | crates/script/interpreter.rs:137-154 | OP_CHECKLOCKTIMEVERIFY reads up to five bytes, refuses negative or unsatisfied locks, and leaves the stack alone |
| `ScriptMeaning.SequenceAnswers` | crates/script/interpreter.rs:156-176 | OP_CHECKSEQUENCEVERIFY likewise, and bit 31 disables it |
| `ScriptMeaning.NopAnswers` | crates/script/interpreter.rs:171-175 | The NOPs do nothing, unless the upgradable ones are discouraged |
| `ScriptMeaning.SeparatorAnswers` | crates/script/interpreter.rs:450-456 | After a separator signatures commit to the script behind it |
| `ScriptMeaning.IfAnswers` | crates/script/interpreter.rs:177-201 | When OP_IF and OP_NOTIF demand an empty or one-valued element, and which branch they take |
| `ScriptMeaning.MeasureAnswers` | crates/script/interpreter.rs:278-338 | OP_IFDUP, OP_DEPTH and OP_SIZE |
| `ScriptMeaning.ShuffleNeeds` | crates/script/interpreter.rs:1045-1062 | Each shuffle fails exactly when the stack has fewer elements than it needs |
| `ScriptMeaning.PushAnswers` | crates/script/interpreter.rs:117-121 | A data push leaves its data, or is refused as not minimal |
| `ScriptMeaning.UnopenedConditional` | crates/script/interpreter.rs:202-213 | OP_ELSE and OP_ENDIF need an open conditional |
| `ScriptMeaning.UnknownFails` | crates/script/interpreter.rs:548 | Bytes that name no opcode fail |
| `ScriptMeaning.SuccessTable` | crates/script/taproot.rs:200-209 | The success opcodes of tapscript are exactly the disabled and the unknown bytes, apart from 0x65, 0x66 and 0xff |
| `ScriptMeaning.NumberRefused` | crates/script/num.rs:26-39 | Numbers too long or not minimal, with their errors; any other reads as its value |
| `ScriptMeaning.PickRefused` | crates/script/interpreter.rs:302-317 | OP_PICK and OP_ROLL refuse a depth the stack does not have |
| `ScriptMeaning.WitnessRules` | crates/script/interpreter.rs:979-1023 | OP_SUCCESSx before everything, then a malformed tail, the stack size and the element size; success needs one true element at the end |
| `Interpreter.ExecuteWitnessScript` | crates/script/interpreter.rs:979-1023 | OP_SUCCESS before everything, then stack and element limits, then the run, then clean stack and truth |
| `Interpreter.ScanForSuccess` | crates/script/interpreter.rs:987-1000 | True exactly when some instruction is OP_SUCCESSx; an error exactly when none is and the tail is malformed |
| `Interpreter.SerializedWitnessSize` | crates/script/interpreter.rs:1029-1039 | The length of the witness as encoded on the wire |
| `Interpreter.MultisigDecides` | crates/script/interpreter.rs:645-734 | On any stack its arguments can be read from, OP_CHECKMULTISIG consumes them, charges one operation per key, and leaves true exactly when the signatures can be assigned to keys in order; under NULLFAIL a failure is an error exactly when a signature left over is not empty |
| `Interpreter.LayoutReadsBack` | crates/script/interpreter.rs:655-688 | The stack layout from which keys, signatures and the extra element are read |
| `ScriptMeaning.MultisigAsks` | crates/script/interpreter.rs:700-712 | What the matching loop asks the checker, signature first |
| `ScriptMeaning.CountsRefused` | crates/script/interpreter.rs:655-672 | More than 20 keys, too many operations or too short a stack are refused |
| `ScriptMeaning.SignatureCountRefused` | crates/script/interpreter.rs:676-688 | More signatures than keys, or too short a stack, are refused |
| `ScriptMeaning.MultisigVerifyAnswers` | crates/script/interpreter.rs:528-552 | The VERIFY form leaves nothing where the plain form leaves true and fails where that leaves false |
| `Interpreter.SkippedBranch` | crates/script/interpreter.rs:93-115 | An instruction in a branch not taken changes only conditions and the operation count |
| `Interpreter.DupIsPick` | crates/script/interpreter.rs:285-316 | OP_DUP is OP_PICK at depth 0 |
| `Interpreter.SwapIsRoll` | crates/script/interpreter.rs:297-327 | OP_OVER is OP_PICK and OP_SWAP is OP_ROLL at depth 1 |
| `Interpreter.RotIsRoll` | crates/script/interpreter.rs:302-322 | OP_ROT is OP_ROLL at depth 2 |
| `Interpreter.CompoundShuffles` | crates/script/interpreter.rs:240-333 | OP_NIP, OP_TUCK and OP_2DUP in terms of OP_SWAP, OP_OVER and OP_DROP |
| `Interpreter.PairsAreRolls` | crates/script/interpreter.rs:256-276 | OP_2OVER is OP_PICK at depth 3 twice; OP_2SWAP and OP_2ROT are OP_ROLL at depth 3 and 5 twice |
| `Interpreter.PickRollEffects` | crates/script/interpreter.rs:302-317 | OP_PICK copies and OP_ROLL moves the element at the depth the number names |
| `Interpreter.ArithmeticEffects` | crates/script/interpreter.rs:375-415 | Every binary number opcode takes the lower element as its first operand, consumes both and writes the encoded result; OP_NUMEQUALVERIFY leaves nothing or fails |
| `Interpreter.WithinEffect` | crates/script/interpreter.rs:418-437 | OP_WITHIN takes value, minimum and maximum in that order and excludes the maximum |
| `Interpreter.ConditionalBrackets` | crates/script/interpreter.rs:178-217 | OP_IF takes its branch by the truth of the top, OP_ELSE gives what OP_NOTIF would have, two of them cancel, and OP_ENDIF restores the conditions |
| `Interpreter.NumberReadsBack` | crates/script/interpreter.rs:354-415 | A number the machine writes reads back, minimal encoding demanded or not |
| `Multisig.MatchSignatures` | crates/script/interpreter.rs:693-721 | The matching loop computes the scan; the key index stays in range |
| `Multisig.ScanDecides` | crates/script/interpreter.rs:645-734 | With no encoding rule firing, the scan succeeds if and only if a strictly order-preserving assignment of all signatures to keys exists |
| `Multisig.UsedDecides` | crates/script/interpreter.rs:693-731 | A scan succeeds exactly when every signature found its key; failing, it leaves at least one for NULLFAIL to look at |
| `Multisig.FirstError` | crates/script/interpreter.rs:700-710 | A pair is asked for signature encoding, key encoding and script code in that order |
| `Multisig.GreedyMissesNothing` | crates/script/interpreter.rs:693-721 | The exchange argument: taking the first key that fits loses no assignment |
| `Multisig.DirectionIrrelevant` | crates/script/interpreter.rs:693-721 | Scanning both lists backwards gives the same verdict |
| `ScriptOps.Instructions.Next` | crates/script/script_ops.rs:36-88 | One step of the iterator: the instruction at the cursor, a truncated push, or the end |
| `ScriptOps.FindAndDelete` | crates/script/script_ops.rs:158-188 | Equals parsing into instructions, dropping those equal to the pattern and re-concatenating with the malformed tail; the count accounts for the removed length |
| `ScriptOps.StrippedFacts` | crates/script/script_ops.rs:158-188 | Deletion is idempotent, leaves no occurrence, and removes exactly count * length bytes |
| `ScriptOps.StripSignature` | crates/script/interpreter.rs:569-600 | Removing the push of a signature from a scriptCode is instruction-level deletion of that push |
| `ScriptOps.ParseChunks` | crates/script/script_ops.rs:36-88 | Parsing loses nothing: chunks and tail concatenate to the script |
| `ScriptOps.ParseFlatten` | crates/script/script_ops.rs:36-88 | Parsing inverts concatenation of instructions before an unparsable tail |
| `ScriptOps.PushReadsBack` | crates/script/script_ops.rs:202-219 | A data push reads back as one instruction with that data |
| `ScriptOps.DirectForm` | crates/script/script_ops.rs:39-88 | A push of up to 75 bytes has its length as its opcode |
| `ScriptOps.LengthForms` | crates/script/script_ops.rs:39-88 | Longer forms have it in one, two or four little-endian bytes |
| `ScriptOps.OtherForms` | crates/script/script_ops.rs:39-88 | Other opcodes are one byte; a push past the end is malformed |
| `ScriptOps.AppendPush` | crates/script/script_ops.rs:202-219 | Appends the shortest length prefix and the data |
| `ScriptOps.MinimalPushIsPushData` | crates/script/script_ops.rs:224-250 | Among pushes the minimality rule accepts exactly what `push_data` writes, save values with their own opcode |
| `ScriptNum.DecodeEncode` | crates/script/num.rs:26-91 | Decoding undoes encoding for every integer, and the encoding is minimal |
| `ScriptNum.EncodeDecode` | crates/script/num.rs:26-110 | Encoding undoes decoding if and only if the string is minimally encoded |
| `ScriptNum.MinimalIsImage` | crates/script/num.rs:96-110 | `is_minimally_encoded` accepts exactly the image of `encode` |
| `ScriptNum.Int64RoundTrip` | crates/script/num.rs:26-91 | The checked 8-byte round trip holds if and only if the magnitude is below 2^63 |
| `ScriptNum.EncodeLength` | crates/script/num.rs:41-66 | An encoding fits n bytes if and only if the magnitude is below 2^(8n-1) |
| `ScriptNum.KnownEncodings` | crates/script/num.rs:41-66 | Little-endian magnitude with the sign in the top bit of the last byte |
| `ScriptNum.DecodeRange` | crates/script/num.rs:26-91 | A decoded string of n bytes is below 2^(8n-1) in magnitude |
| `ScriptNum.EncodeNum` | crates/script/num.rs:41-66 | The byte loop computes the encoding |
| `ScriptNum.DecodeNum` | crates/script/num.rs:74-91 | The byte loop computes the decoded value |
| `ScriptNum.CastToBool` | crates/script/num.rs:114-122 | True exactly when the decoded value is nonzero, negative zero included |
| `Transaction.TxRoundTripIff` | crates/common/types/transaction.rs:240-316 | Decoding an encoding returns the transaction and the unread rest if and only if it has an input |
| `Transaction.TxRoundTrip` | crates/common/types/transaction.rs:240-316 | Any transaction with an input, within the allocation limit, decodes to itself and consumes exactly its bytes |
| `Transaction.TxExact` | crates/common/types/transaction.rs:266-316 | Whatever decodes is the encoding it claims to be: segwit form if the marker is there, legacy form otherwise |
| `Transaction.TxReencode` | crates/common/types/transaction.rs:240-316 | Re-encoding gives back the bytes if and only if they were legacy or carried a witness |
| `Transaction.MarkerWithoutWitness` | crates/common/types/transaction.rs:266-316 | The failing bytes: the marker form of any transaction without a witness decodes to it and is not its encoding |
| `Transaction.LegacyInjective` | crates/common/types/transaction.rs:176-188 | Equal txid preimages mean equal transactions up to witnesses |
| `Transaction.WitnessSize` | crates/common/types/transaction.rs:150-163 | The accumulating loops compute the witness size |
| `Transaction.SegwitLength` | crates/common/types/transaction.rs:150-163 | Total length is stripped length plus witness size |
| `Transaction.FillWitnesses` | crates/common/types/transaction.rs:280-287 | The loop fills each input with its own stack, in order |
| `Transaction.BlockRoundTrip` | crates/common/types/block.rs:306-330 | A block of such transactions decodes to itself |
| `Transaction.HeaderRoundTrip` | crates/common/types/block.rs:105-133 | The 80-byte header round trip |
| `Layouts.HeaderLayout` | crates/common/types/block.rs:109-119 | Where each field of a header lies |
| `Layouts.InputLayout` | crates/common/types/transaction.rs:75-81 | Where each field of an input lies |
| `Layouts.OutputLayout` | crates/common/types/transaction.rs:107-112 | Value, then script |
| `Layouts.TxLayout` | crates/common/types/transaction.rs:240-264 | Version first, lock time last, marker and flag after the version, inputs, outputs and witnesses between |
| `Transaction.WeightFormula` | crates/common/types/block.rs:262-271 | Weight is 3 * stripped size + total size |
| `Wire.VarIntRoundTrip` | crates/common/wire/decode.rs:340-389 | Every u64 round-trips, with the size `serialized_size` announces |
| `Wire.VarIntExact` | crates/common/wire/decode.rs:340-389 | Only the shortest form is accepted |
| `Layouts.CountLayout` | crates/common/wire/encode.rs:169-196 | A count below 0xfd is itself; otherwise a tag for the width and that many little-endian bytes |
| `Wire.VarBytesRoundTrip` | crates/common/wire/decode.rs:205-217 | Byte strings within the allocation limit round-trip |
| `Wire.VarBytesExact` | crates/common/wire/decode.rs:205-217 | A decoded byte string accounts for exactly the bytes read |
| `Wire.ListRoundTrip` | crates/common/wire/decode.rs:219-239 | Lists round-trip when their items do |
| `Wire.ListExact` | crates/common/wire/decode.rs:219-239 | A decoded list accounts for exactly the bytes read |
| `Wire.ReadVarListLoop` | crates/common/wire/decode.rs:219-239 | The vector-filling loop computes the list reader, first error included |
| `Merkle.ComputeRoot` | crates/common/types/block.rs:273-303 | The level loop computes the recursive root, odd levels padded with their last hash |
| `Merkle.RootIsTree` | crates/common/types/block.rs:273-303 | The root is the tree of least depth over the leaves, built from the top, left half first, a missing right half being the left half again |
| `Merkle.RootSplits` | crates/common/types/block.rs:286-300 | At a power of two the root is the hash of the left root followed by the right one |
| `Merkle.SmallRoots` | crates/common/types/block.rs:273-303 | One leaf is its own root; two are hashed in order |
| `Merkle.PairsPadded` | crates/common/types/block.rs:273-303 | Padding an odd level by its last hash gives the same next level as hashing it with itself |
| `Headers.RunIsSound` | crates/node/blockchain.rs:299-444 | Over every run of single headers and batches: every header is filed under its hash; if its parent is not zero, that is stored, the header passed its check against it, height is parent + 1 and work is parent + own; and the tip has maximal work |
| `Headers.AcceptBatchIsSound` | crates/node/blockchain.rs:358-444 | A batch keeps that, duplicates, gaps and failed checks included |
| `Headers.AcceptOneIsSound` | crates/consensus/chainstate.rs:328-413 | A single header keeps that |
| `HeaderBatches.LineIsStored` | crates/node/blockchain.rs:378-434 | A connected line of new headers that pass their checks is stored whole: one height per header, consecutive from the parent, every header under its hash |
| `HeaderBatches.LineLeavesOthers` | crates/node/blockchain.rs:378-434 | And every other entry is as it was |
| `HeaderBatches.LineByHeight` | crates/node/blockchain.rs:406-411 | Later checks of a batch see its earlier headers by height |
| `HeaderBatches.KnownBatch` | crates/node/blockchain.rs:374-386 | A batch of stored headers changes nothing and is answered with their stored heights |
| `HeaderBatches.GapKeepsPrefix` | crates/node/blockchain.rs:390-404 | At a header whose parent is neither stored nor earlier in the batch exactly what came before is kept, whatever follows |
| `HeaderBatches.LineThenGap` | crates/node/blockchain.rs:390-404 | A line followed by a gap stores exactly the line |
| `HeaderBatches.FailureDropsBatch` | crates/node/blockchain.rs:405-411 | A header that fails its check drops the whole batch |
| `HeaderBatches.SingleHeaderStored` | crates/node/blockchain.rs:299-353 | A single header is stored if and only if it is known, a root, or passes its check against a stored parent; nothing else changes |
| `HeaderBatches.SingleHeaderTip` | crates/consensus/chainstate.rs:379-410 | The tip moves to a new header exactly when that has strictly more work |
| `HeaderBatches.BatchTip` | crates/node/blockchain.rs:425-428 | A batch changes the tip only for strictly more work |
| `HeaderBatches.LastAtHeight` | crates/storage/block_manager.rs:315-343 | In the height index the last header of a batch at a height is the one found |
| `HeaderBatches.OtherHeights` | crates/storage/block_manager.rs:315-343 | And heights the batch does not reach stay as they were |
| `Headers.GenesisIsSound` | crates/consensus/chainstate.rs:659-719 | Loading genesis, which takes the tip unasked, keeps that if and only if genesis is stored already or nothing stored is heavier |
| `Headers.GenesisTakesTip` | crates/consensus/chainstate.rs:659-719 | The failing tree: one heavier root accepted before genesis is loaded |
| `Headers.HeavierBits` | crates/consensus/pow.rs:122-202 | Main-network bits outweigh regression-test bits, so such roots exist |
| `Headers.TipIsHeaviestChain` | crates/node/blockchain.rs:358-444 | The tip ends a chain of stored headers from a root, and no stored chain has more total work while totals stay below 2^256 |
| `Headers.ChainWorkIsTotal` | crates/consensus/chainstate.rs:328-413 | Stored work is the sum of the work along the chain and stored height its length |
| `Headers.ChainExists` | crates/node/blockchain.rs:358-444 | Every stored header ends a chain from a root |
| `Headers.HeaderStore.ProcessHeaders` | crates/node/blockchain.rs:358-444 | The batch loop over local maps, then one write, computes the batch: a gap keeps the prefix, a failed check drops everything; the height index gets exactly the new entries |
| `Headers.HeaderStore.ProcessHeader` | crates/node/blockchain.rs:299-353 | Known, root, orphan, failed or stored, with the height in the answer |
| `Headers.HeaderStore.CommitHeader` | crates/consensus/chainstate.rs:328-413 | Stores a new header with its cumulative work and indexes its height; the tip moves only to strictly more work |
| `Headers.HeaderStore.StoreBlockIndexes` | crates/storage/block_manager.rs:315-343 | One batch: all entries, their heights, then the tip if given |
| `Headers.HeaderStore.LoadGenesisBlock` | crates/consensus/chainstate.rs:659-719 | Stores genesis with its own work, indexes height 0, and makes it headers tip and active tip, unless stored already |
| `DownloadRounds.EveryRunIsSafe` | crates/net/p2p/sync/block_downloader.rs:165-365 | Over every interleaving of the downloader's locked sections with receives and disconnects, each counter equals the blocks in flight with that peer, none exceeds 64, and a barred request can only be the one just being taken away |
| `DownloadRounds.BetweenRounds` | crates/net/p2p/sync/block_downloader.rs:165-365 | Between rounds no block is in flight with a peer barred from it |
| `DownloadRounds.NextIsSafe` | crates/net/p2p/sync/block_downloader.rs:165-365 | Every single step keeps the invariant |
| `DownloadRounds.ShrinkingIsHarmless` | crates/net/p2p/sync/sync_manager.rs:178-208 | What the downloader learned stays true when other tasks remove requests |
| `DownloadRounds.AssignBlocks` | crates/net/p2p/sync/block_downloader.rs:298-365 | The assignment loop keeps every invariant and is maximal: afterwards each missing block is in flight or was given back, unless every reachable peer is full or barred from it |
| `DownloadRounds.PickBlocks` | crates/net/p2p/sync/block_downloader.rs:308-325 | The scan picks distinct eligible blocks, all of them or as many as fit |
| `DownloadRounds.MarkAll` | crates/net/p2p/sync/block_downloader.rs:335-350 | Marking adds exactly the list, with heights counted from the window position |
| `DownloadRounds.FirstIndexMeans` | crates/net/p2p/sync/block_downloader.rs:338-340 | The height of a request counts from the first place its block has in the window |
| `DownloadRounds.Unmark` | crates/net/p2p/sync/block_downloader.rs:352-363 | A failed send releases exactly this peer's requests |
| `DownloadTurns.RoundAlone` | crates/net/p2p/sync/block_downloader.rs:298-365 | A round of the interleaved machine that no other task disturbs ends, keeps every invariant and is maximal, as the plain loop is: each missing block is asked for or was given back, unless every reachable peer is full or barred |
| `DownloadTurns.TurnAlone` | crates/net/p2p/sync/block_downloader.rs:300-365 | One turn of it, exactly: the first eligible blocks that fit are requested from this peer as of now; a failed send leaves exactly the requests of the others |
| `DownloadRounds.PickedMeans` | crates/net/p2p/sync/block_downloader.rs:308-325 | The first eligible blocks of the window, in order, are distinct, allowed and as many as fit |
| `DownloadTurns.StallIff` | crates/net/p2p/sync/block_downloader.rs:165-172 | The stalling check finds a block if and only if it survived the prune, is the lowest left, and is out for a minute by then |
| `DownloadTurns.NoStallInTime` | crates/net/p2p/sync/block_downloader.rs:165-185 | Whatever the other tasks do in between, it finds nothing unless more than 30 seconds pass between the prune and the check |
| `DownloadTurns.StallAfterDelay` | crates/net/p2p/sync/block_downloader.rs:165-185 | With such a delay there are states in which it does |
| `DownloadTurns.HousekeepingAlone` | crates/net/p2p/sync/block_downloader.rs:165-185 | A stuck block leaves its peer, who is barred from it; every other request in time stays, and the counters are exact whatever they were |
| `Downloads.MarkedBalance` | crates/net/p2p/sync/sync_manager.rs:165-175 | Marking a block not in flight keeps the counters exact |
| `Downloads.ReceivedBalance` | crates/net/p2p/sync/sync_manager.rs:178-208 | Receiving relieves the peer the block was assigned to, whoever delivered it |
| `Downloads.PrunedBalance` | crates/net/p2p/sync/sync_manager.rs:404-447 | Pruning keeps the counters exact and raises none |
| `Downloads.PruneMeans` | crates/net/p2p/sync/sync_manager.rs:404-447 | A prune removes exactly the requests at least as old as the timeout and bars exactly their peers |
| `Downloads.StumbleMeans` | crates/net/p2p/sync/sync_manager.rs:329-340 | A stumble bars that peer from that block and changes no other ban |
| `Downloads.MarkMeans` | crates/net/p2p/sync/sync_manager.rs:165-175 | A mark records peer, time and height, and leaves other requests |
| `Downloads.SyncManager.GetBottleneckInfo` | crates/net/p2p/sync/sync_manager.rs:366-383 | A request of least height, with its peer and age, or none |
| `Downloads.RecalculatedBalance` | crates/net/p2p/sync/sync_manager.rs:451-463 | Recalculation makes the counters exact from any state, and changes nothing when they were |
| `Downloads.DisconnectedBalance` | crates/net/p2p/sync/sync_manager.rs:466-486 | A disconnect keeps the counters exact |
| `Downloads.SyncManager.MarkBlockInFlight` | crates/net/p2p/sync/sync_manager.rs:165-175 | New request and counter |
| `Downloads.SyncManager.MarkBlockReceived` | crates/net/p2p/sync/sync_manager.rs:178-208 | Request gone, counter of the assigned peer down, nothing at all for an unknown block |
| `Downloads.SyncManager.RecordBlockStumble` | crates/net/p2p/sync/sync_manager.rs:329-340 | The peer joins the list of the block |
| `Downloads.SyncManager.PruneTimeouts` | crates/net/p2p/sync/sync_manager.rs:404-447 | Expired requests leave, their peers are relieved of exactly those and barred from those blocks; each peer is returned once per expired request |
| `Downloads.SyncManager.RecalculateWorkloads` | crates/net/p2p/sync/sync_manager.rs:451-463 | The counting loop computes the tally of requests per peer |
| `Downloads.SyncManager.OnPeerDisconnect` | crates/net/p2p/sync/sync_manager.rs:466-486 | Exactly this peer's requests and counter leave, and its header request and cooldown with them |
| `BlockFiles.EveryReceiptReadsBack` | crates/storage/block_file.rs:302-395 | Over every run of block writes, undo stores, rotations and reopenings, every position handed out reads back its own bytes at the end |
| `BlockFiles.UndoFilesAreRecords` | crates/storage/block_manager.rs:506-544 | Each undo file is the run's records in order, then zeros, and its end is known or found by the scan |
| `BlockFiles.UsedSizeIsExact` | crates/storage/block_file.rs:193-219 | The scan stops at the first empty payload, so it recovers the tracked length if and only if no payload is empty; the magic does not matter |
| `BlockFiles.EmptyPayloadIsLost` | crates/storage/block_file.rs:193-219 | Called directly with an empty payload, `write_undo` hands out a position that the next write, at the scanned end, reuses |
| `BlockFiles.UndoIsNotEmpty` | crates/common/types/undo.rs:22-26 | The store path never writes an empty payload |
| `BlockFiles.UndoRoundTrip` | crates/common/types/undo.rs:22-33 | Undo lists within the allocation limit decode to themselves |
| `BlockFiles.UndoReadsBack` | crates/storage/block_manager.rs:506-544 | Undo coins stored at any time in a run decode to themselves at its end |
| `UndoLog.StoredUndoDisconnects` | crates/storage/block_manager.rs:506-544 | Connect a block, store its undo list in any run of writes and reopenings, read and decode it: disconnecting with those coins restores exactly the map before the block |
| `UndoLog.ConnectedUndoFits` | crates/consensus/validation.rs:359-402 | The weight limit keeps the undo list of a connected block within what the decoder admits |
| `BlockFiles.EveryRunIsOk` | crates/storage/block_file.rs:302-395 | The invariant behind it: finished files, write positions, undo files and receipts |
| `BlockFiles.LyingReadsBack` | crates/storage/block_file.rs:457-490 | A record in its place reads back |
| `BlockFiles.WriteKeeps` | crates/storage/block_file.rs:175-252 | Preallocation and a write beyond a record leave it alone |
| `BlockFiles.RotatedOk` | crates/storage/block_file.rs:341-350 | After rotation the record fits the limit or starts a new file |
| `BlockFiles.RotatesExactly` | crates/storage/block_file.rs:341-350 | It rotates exactly when the record would overflow a file that is not empty, and cuts that file to its used part |
| `BlockFiles.CoinLayout` | crates/common/types/coin.rs:38-43 | Height, coinbase flag, output |
| `BlockFiles.BlockFileManager.WriteBlock` | crates/storage/block_file.rs:341-366 | Rotate, preallocate, write at the tracked size, return the payload position |
| `BlockFiles.BlockFileManager.StoreUndo` | crates/storage/block_manager.rs:506-544 | Fails without an index entry or block position; otherwise appends the encoded coins to the undo file of the block file and notes the position in the waiting index entry |
| `BlockFiles.BlockFileManager.AppendUndo` | crates/storage/block_manager.rs:532-540 | Append at the tracked size or, unknown, at the scanned one |
| `BlockFiles.ReadFrom` | crates/storage/block_file.rs:457-490 | The steps of `read_record` compute the record before the position, or say why there is none |
| `BlockFiles.BlockFileManager.WriteUndo` | crates/storage/block_file.rs:373-395 | Writes at the given size and returns the new one |
| `BlockFiles.BlockFileManager.UsedSize` | crates/storage/block_file.rs:193-219 | The loop computes the end of the records |
| `Signet.MessageIgnoresSolution` | crates/consensus/signet.rs:75-157 | Two blocks that differ only in the payload of the first tagged push (any push width, or the bare tag of an unsigned block), witnesses, merkle root, bits and nonce derive the same `to_spend`, and `to_sign` differs only in the solution carried |
| `Signet.MessageBinds` | crates/consensus/signet.rs:104-131 | Equal `to_spend` means equal version, parent, modified merkle root, time and challenge |
| `Signet.MessageLayout` | crates/consensus/signet.rs:104-150 | The bytes signed over, in order, and that `to_sign` spends the first output of `to_spend` |
| `Signet.SpendBytes` | crates/consensus/signet.rs:104-128 | `to_spend`, byte for byte |
| `Signet.SignBytes` | crates/consensus/signet.rs:130-150 | `to_sign`, byte for byte, and its witness |
| `Signet.UnsignedDerives` | crates/consensus/signet.rs:75-102 | A block without a tagged push is signed by the empty solution |
| `Signet.UnsignedRoot` | crates/consensus/signet.rs:244-252 | For an unsigned block the modified merkle root is its ordinary one |
| `Signet.BlankingForgets` | crates/consensus/signet.rs:302-361 | The section is the payload, or none for the bare tag, and what is left does not depend on the payload or on how it was pushed |
| `Signet.CommitmentStays` | crates/consensus/signet.rs:282-294 | Another payload leaves the output a commitment: the tag always lies behind the first 38 bytes |
| `Signet.FetchAndClear` | crates/consensus/signet.rs:302-361 | The loop blanks the first tagged push of the parsed script and drops a malformed tail |
| `Signet.PushIsTagged` | crates/consensus/signet.rs:302-361 | A push of the tag and any nonempty payload is a tagged push of that payload |
| `Signet.DeriveTxs` | crates/consensus/signet.rs:75-157 | Coinbase, commitment, solution, modified root, then both virtual transactions |
| `Signet.ComputeModifiedRoot` | crates/consensus/signet.rs:244-252 | The leaf loop and the level loop compute the root over the modified coinbase and the other txids |
| `Signet.SameRoot` | crates/consensus/signet.rs:244-274 | The modified merkle root is the same for both blocks |
| `Signet.SolutionRoundTrip` | crates/consensus/signet.rs:367-383 | An encoded solution parses to itself |
| `Signet.SolutionExact` | crates/consensus/signet.rs:367-383 | Only the encoding of a solution parses, with nothing after it |
| `Signet.SolutionIsCarried` | crates/consensus/signet.rs:75-157 | A solution pushed behind the tag is the scriptSig and witness of `to_sign` |
| `Signet.CommitmentIndex` | crates/consensus/signet.rs:282-294 | The last matching output, if any |

## Left out

- Hashes, signatures and public keys: SHA-256, RIPEMD-160 and secp256k1 are parameters. Where distinct transactions or
  headers must have distinct hashes, that is a hypothesis about the ones at hand, not about the hash function.
- Header, signet and witness-commitment checks inside `connect_block`, and script verification of each input, are
  predicates in `Validation.Rules`; `headerOk` stands for proof of work, difficulty and time.
- `get_next_work_required` chooses between branches by height and testnet rules; only the retarget calculation is modelled.
- `activate_best_chain`, `verify_and_repair_tips` and block selection by height: no claim is made about which block the node
  connects next, or about reorganisations. `Undo` proves that the recorded data would suffice for one.
- Ledger.NodeRunIsSound: covers runs whose connects succeed; runs with refused blocks are in `Attempts`, with fresh txids
  given, because a late refusal lets the same height be connected again.
- Validation.CheckBlockInContext: the header, signet and witness-commitment checks are arbitrary predicates, as said above.
- Headers.HeaderStore.ProcessHeaders: leaves out the in-memory header-chain cache, which only answers lookups by height.
- Headers.HeaderStore.ProcessHeader: leaves out the same cache.
- Headers.HeaderStore.LoadGenesisBlock: one active tip stands for the stored one, the cached one and the view's best block.
- Downloads.SyncManager.OnPeerDisconnect: keeps cooling-down peers as a set, without the time each one is released.
- Ledger.NoDuplicateTxids: assumes that only first transactions are coinbases, which `Ledger.NodeRunIsSound` derives when
  scripts are checked natively, and that BIP 34 holds from the first block.
- `verify_script` and `verify_witness_program`: the order of scriptSig, scriptPubKey, P2SH and witness evaluation, and the
  exact signature-hash bytes, are not modelled; the checker is an arbitrary function of signature, key, script code and
  version.
- Interpreter.RunKeepsLimits: starts from a stack within limits; a version-0 witness stack longer than 1000 is refused only
  when the first executed instruction has run.
- `ScriptNum` is exact for any length; the i64 shifts of the source agree with it up to 8 bytes, which is all it is given.
- The `Encoder` and `Decoder` objects are modelled by the bytes written and the unread suffix, not as buffers with cursors.
- `Headers` models acceptance one message at a time; two batches planned on the same tip are
  not modelled, nor is the in-memory header-chain cache that answers lookups by height: the header check may consult
  the batch and the store as it likes.
- `DownloadRounds` models peer heights, the clock of the 120-second stall breaker and the choice of header-sync peer not at
  all, and time only as a number compared with the time of the request.
- `BlockFiles` assumes payloads below 4 GiB and undo files below 4 GiB, where offsets are cast to u32, and reopening at the
  file last written; fsync, crash recovery and file-system errors are left out.
- RocksDB batches are atomic map updates; hit and miss counters, memory budgets in bytes, logging, channels and async
  scheduling are left out.
- `build_block_locator`, address manager, mempool, RPC, peer handshake and network constants: they would only add easy members.
