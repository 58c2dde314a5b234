# A verified model of the router firmware's algorithms

The repository is router firmware: a user-space daemon (`tserver`), a kernel packet module (`spp`), an updater (`ltm`)
and the packer that feeds the updater (`tqos-pack`). This project models the algorithms it implements by hand, and
proves what they promise. The code works in place, and so does the model: nodes, buffers, tables and rings are objects
and arrays whose fields the methods rewrite in the source's order, and every such method is proved against a pure
description whose own laws are proved as lemmas.

* **Red-black tree and timers** (`rb_shape`, `rb_colour`, `rb_order`, `rb_tree`, `timers`, `timer_runs`). The tree lives in
  nodes with parent links, a shared sentinel and iterative fix-ups. A snapshot of the links `Draws` an inductive tree, and a node
  pointer stands at a position (a path and a subtree) of it, so every rotation and repainting is a step between
  positions. Neither the root's nor the sentinel's parent link is constrained, because the source leaves both stale.
  On top of it, timers are ordered by wrapped 32-bit deadlines. What the tree does with a deadline is stated first
  for any deadlines at all (the new one lands between two neighbours that compare so); runs of the expiry loop are
  traces of such steps, and order, completeness and conservation are proved about the traces. Whole runs of starts, of a
  clock that goes on and of expiries are compared with timers on an unbounded clock, which do not wrap.
* **AES** (`aes_tables`, `aes_cipher`, `aes_block`, `aes`, `aes_key`, `aes_modes`, `aes_ctr`, `aes_ccm`, `aes_ccm_text`,
  `aes_vector`, `tq_crypto`).
  FIPS 197 as algebra over GF(2^8), the tables against that algebra, the in-place steps on the 4x4 state, the key
  schedule, CBC and CTR of NIST SP 800-38A, the CCM variant of the code with what its formatted text says, the padded packet
  layer, and the example values of FIPS 197.
* **MD5** (`md5_spec`, `md5`, `md5_vector`, `md5_context`). RFC 1321 in its indexed form, the unrolled transformation, and the
  streaming context with its 64-byte buffer and split counter; and a value of the digest that RFC 1321 gives.
* **Packet module** (`heap`, `spp_timer`, `packet_table`, `packet_filter`, `dump_queue`). The binary heap and the timer
  queue on it, the bucketed table, de-duplication over whole runs, and the delayed duplicates as a state machine of any
  number of senders and one worker, one statement at a time.
* **Intrusive ring** (`list_ring`).
* **Printers and parsers** (`text`, `package_format`, `package_round_trip`, `http_headers`, `http_text`).

Some of what the proofs show is that a promise holds only under a condition. These conditions are proved exact, in
both directions: the 32-bit guard of the block loop of MD5 (`GuardIsExact`, `GuardReaches`, `GuardWraps`), the two
round-count tests of AES (`RoundsAgree`), the size of the scratch buffer of CCM (`ScratchFits`), the first counter of
its payload (`PayloadCounterIs`: one more than that of the tag for tags of less than 15 bytes, where the comment in
the source says always), the names and the manifest length of a package (`PackRoundTripIff`), the names for which the
unpacked directory holds all files (`SavedIff`), the lists of headers that can be carried (`CarriedIff`), a blank
header value at the end of a response (`ValueInText`, `BlankValue`), and a header that is cut without notice
(`PrintHeaders`).

An expiry of timers is complete and in order under two conditions (`ExpireTimers`). The pending list stands in the
order of its signed distances from the clock (`Ready`); and every handler is patient: what it starts lies less than
2^31 after the next timer, should that be due as well. Neither is enough alone: on the wheel of `LateDeadlineStarves`
an impatient handler puts a list out of order, with a due timer behind one that is not due, and there patience no
longer helps. With two due timers the bound is exact (`PairExpires`); with more of them, what an impatient handler
spoils depends on the shape that the tree happens to have. `TimerRuns` shows how the list stays `Ready`
(`AlwaysReady`): a timer is started for less than 2^31 after the first pending one, and the clock goes no more than
2^31 past that one before the next expiry (`Allowed`, which also asks for patient handlers). Over every run that keeps
to this, each timer fires once, exactly at the first expiry at or after its deadline, and all in the order of
deadlines (`FiresIff`, `FiresOnce`, `FiresInOrder`), and the wheel itself, driven through the run, fires just these
(`Drive`).

`machine_word` holds the word size that several parts count modulo. Bytes and words are bit vectors; lengths, clocks
and counters are integers with the wrap-around written out. Memory that may run out, clocks, file contents and the
packets that arrive are parameters.

Checking everything: `dafny verify dfyconfig.toml`.

## Model

| member | source | states |
|---|---|---|
| RbTree.Rbt.constructor | tserver/rb_tree.h:32-36 | an initialised tree is a valid, empty red-black tree with a black sentinel |
| RbTree.Rbt.Insert | tserver/rb_tree.c:6-71 | any new node enters at one place of the in-order sequence, not less than its neighbour before and less than the one after, whatever the keys; the rest keeps its order, and the tree stays red-black with consistent links; if the comparison is explained by ranks, the place is after every node that does not rank above it |
| RbTree.Rbt.DescendValue | tserver/rb_tree.c:72-83 | the descent by plain keys ends at an empty child slot, between a node that is not greater and one that is; if ranks explain the comparison, all smaller and equal ones lie before it and all greater ones after |
| RbTree.Rbt.DescendTimer | tserver/rb_tree.c:90-101 | the same for the descent by the sign of the wrapped difference |
| RbTree.Rbt.Hang | tserver/rb_tree.c:84-88 | the four writes of an insertion attach a red leaf in that slot and change nothing else of the tree |
| RbTree.Rbt.FixInsertTurn | tserver/rb_tree.c:23-69 | one turn of the insertion repair keeps the sequence and the tree red-black but for one red edge, and moves that edge strictly upward or removes it |
| RbTree.Rbt.FixInsert | tserver/rb_tree.c:23-70 | the insertion repair ends, in a red-black tree with the same sequence |
| RbColour.InsertRedUncle | tserver/rb_tree.c:28-34 | painting parent and uncle black and the grandparent red moves the only possible red edge up by two |
| RbColour.InsertOuter | tserver/rb_tree.c:42-44 | with a black uncle, two repaintings and a rotation at the grandparent remove the red edge and keep the black heights |
| RbTree.Rbt.LeftRotate | tserver/rb_tree.c:275-299 | a left rotation rewrites exactly the links between the node, its right child, that child's left subtree and the parent slot or the root pointer |
| RbTree.Rbt.RightRotate | tserver/rb_tree.c:301-325 | the mirror image |
| RbShape.RotateFits | tserver/rb_tree.c:275-325 | those writes turn the drawn tree into its rotation, wherever it hangs and whatever the root's parent link holds |
| RbShape.RotateSame | tserver/rb_tree.c:275-325 | a rotation leaves the in-order sequence and the set of nodes as they are |
| RbTree.Rbt.Delete | tserver/rb_tree.c:108-273 | from any valid tree and any node of it: the result is a valid red-black tree, its sequence is the old one without exactly that node, and the node is wiped |
| RbTree.Rbt.Choose | tserver/rb_tree.c:115-136 | the node to unlink is the one itself or its in-order successor, which has no left child; temp is its only child or the sentinel |
| RbTree.Rbt.TakePlace | tserver/rb_tree.c:171-197 | the successor takes over the links and the colour of the deleted node, and all its new neighbours are told |
| RbTree.Rbt.Substitute | tserver/rb_tree.c:149-198 | unlinking the successor and putting it in the place of the node draws the tree with that node replaced and the successor's child moved up |
| RbTree.Rbt.DeleteRoot | tserver/rb_tree.c:137-146 | when the root has at most one child, that child becomes the root, painted black |
| RbTree.Rbt.FixDeleteTurnLeft | tserver/rb_tree.c:209-239 | one turn of the deletion repair for a left child keeps the sequence and the single missing black node, and moves the shortage strictly up or ends it |
| RbTree.Rbt.FixDeleteTurnRight | tserver/rb_tree.c:240-270 | the same for a right child |
| RbTree.Rbt.FixDelete | tserver/rb_tree.c:207-272 | the deletion repair ends, in a red-black tree with the same sequence |
| RbColour.DeleteRedSibling | tserver/rb_tree.c:212-218 | a red sibling is rotated up and leaves the short subtree a black sibling below a red parent |
| RbColour.DeleteBlackNephews | tserver/rb_tree.c:219-223 | painting the sibling red moves the shortage to the parent |
| RbColour.DeleteNearNephew | tserver/rb_tree.c:226-232 | a rotation at the sibling makes the far nephew red |
| RbColour.DeleteFarNephew | tserver/rb_tree.c:233-237 | with a red far nephew, three repaintings and one rotation restore every black height |
| RbTree.Rbt.Min | tserver/rb_tree.h:54-61 | the leftmost node of a subtree is the first of its sequence |
| RbTree.Rbt.Next | tserver/rb_tree.c:326-348 | the next node is the one after it in the sequence, and null after the last |
| RbTree.Rbt.Walk | tserver/rb_tree.c:326-348 | starting at the least node, repeated steps visit every node exactly once, in order, and then end |
| RbColour.HeightBound | tserver/rb_tree.c:6-71 | a red-black tree of n nodes is at most 2*log2(n+1) high |
| RbColour.DepthBound | tserver/rb_tree.c:72-107 | every position of a descent lies within that height |
| RbOrder.PlainRanks | tserver/rb_tree.c:77 | the plain comparison is always explained by ranks, the keys |
| RbOrder.WindowRanks | tserver/rb_tree.c:95 | the wrapped comparison is explained by ranks while no two keys are 2^31 or more apart |
| RbOrder.NeighboursBound | tserver/rb_tree.c:72-107 | in a sorted sequence the two neighbours of the slot decide: everything before it ranks no higher than the new node, everything after it higher |
| RbOrder.NoWindowCycle | tserver/rb_tree.c:95 | beyond such a window it is no order: three keys form a cycle |
| RbOrder.StableKeepsSorted | tserver/rb_tree.c:72-107 | the place found keeps the sequence sorted |
| Timers.Wheel.AddTimer | tserver/timers.c:71-84 | a timer joins the pending list between two neighbours that compare so, for any deadlines, exactly if its new deadline is two or more away from the old one; otherwise nothing changes |
| Timers.Wheel.TimerNew | tserver/timers.c:86-105 | a fresh timer is stamped with the updated clock and joins the list in the same way, unless its delay is less than two in magnitude |
| Timers.JoinedIsArm | tserver/timers.c:82-83 | less than 2^31 away from every pending one, a timer joins after every deadline not later than its own, so equal deadlines keep their order of arrival |
| Timers.ListedJoin | tserver/timers.c:82-83 | an insertion into the tree between two nodes is that joining of the list |
| Timers.JoinsConserves | tserver/timers.c:86-105 | whatever the deadlines, the timers that join are added to the list and none is lost |
| Timers.ArmOrder | tserver/timers.c:71-84 | arming keeps the list in the order of deadlines |
| Timers.Wheel.ExpireTimers | tserver/timers.c:43-66 | with the clock standing still and delays from 2 to 2^31 - 1 it ends, for any deadlines; it fires only timers that were due at entry, none twice, and stops with nothing due at the head; if at entry the list stands in the order of signed distances from the clock (Ready) and the handlers are patient, it has fired all that were due, in list order, and what is left is the rest of the list with what was started, all strictly in the future |
| Timers.Wheel.ExpireTurn | tserver/timers.c:48-65 | one turn of its loop fires the first timer of the list and lets what its handler starts join, or finds it not due and changes nothing |
| Timers.TraceExpires | tserver/timers.c:43-66 | from a Ready list, every run with patient handlers that ends with nothing due at the head has fired exactly the due timers of the entry list, in order |
| Timers.TurnDue | tserver/timers.c:55-63 | in such a run, from a Ready list, a due timer at the head is the next of those due at entry, and what its patient handler starts joins in order |
| Timers.TurnDone | tserver/timers.c:51-59 | in such a run, from a Ready list: if the head is not due, nothing pending is, and all that was due at entry has fired |
| Timers.TraceConserves | tserver/timers.c:43-66 | in any run, patient or not, what is left and what was fired are what was pending and what was started |
| Timers.FiredFromEntry | tserver/timers.c:43-66 | in any run only timers due at entry fire, and any that is still due was there at entry |
| Timers.PairExpires | tserver/timers.c:43-66 | of two due timers the second fires exactly if what the handler of the first one starts lies less than 2^31 after it; otherwise it is left behind that, due and unfired |
| Timers.LoneTimerExpires | tserver/timers.c:43-66 | from a single due timer, overdue by up to 2^31, every run with any delays from 2 to 2^31 - 1 that ends with nothing due at the head has fired just that timer and leaves nothing due |
| Timers.LateDeadlineStarves | tserver/timers.c:43-66 | a wheel on which a due timer stays unfired behind a timer 2^31 - 3 ahead |
| Timers.Wheel.FindTimer | tserver/timers.c:29-42 | the wait is infinite if nothing is pending, zero if something is due, and otherwise the time to the deadline of the first timer; in a Ready list that is the least one |
| Timers.Wheel.FreeAllTimers | tserver/timers.c:106-124 | everything pending is removed, and the tree stays valid throughout |
| Timers.OvertakesIff | tserver/rb_tree.c:95 | a new timer compares less than an overdue one exactly if lag and delay together reach 2^31 |
| TimerRuns.AtInv | tserver/timers.c:43-105 | before every event of an allowed run the pending timers are in order of deadlines, less than 2^31 ahead and at most 2^31 behind, and numbered apart |
| TimerRuns.AfterInv | tserver/timers.c:43-105 | every start, advance of the clock and expiry that is allowed keeps that |
| TimerRuns.AlwaysReady | tserver/timers.c:43-105 | so at every moment of an allowed run the wrapped list is Ready for an expiry |
| TimerRuns.PendingIff | tserver/timers.c:43-105 | a timer is pending before an event exactly if it was started earlier and no expiry since came at or after its deadline |
| TimerRuns.FiresIff | tserver/timers.c:43-66 | a timer fires at an event exactly if that is the first expiry since its start that comes at or after its deadline |
| TimerRuns.FiresOnce | tserver/timers.c:60-64 | no timer fires twice in a run |
| TimerRuns.FiresInTime | tserver/timers.c:43-66 | once an expiry has come at or after its deadline, a timer has fired |
| TimerRuns.FiresInOrder | tserver/timers.c:48-59 | over a whole run timers fire in the order of deadlines, and within an expiry equal ones in the order of their starts |
| TimerRuns.StartWraps | tserver/timers.c:71-105 | starting a timer does to the wrapped list what it does to the list on the unbounded clock, wherever the tree lets it join |
| TimerRuns.ExpireWraps | tserver/timers.c:43-66 | a complete expiry of the wrapped list fires and leaves what the expiry on the unbounded clock does |
| TimerRuns.Drive | tserver/timers.c:43-105 | the wheel itself, from its first moment through every allowed run of starts, clock readings and expiries, fires at each event just what the unbounded clock gives |
| AesTables.SboxInverts | tserver/tq_aes.c:48-66 | every entry of the S-box is the affine image of the inverse of its index in GF(2^8), 0 standing for its own inverse (FIPS 197, section 5.1.1) |
| AesTables.InvSboxUndoes | tserver/tq_aes.c:67-85 | the second table inverts the first |
| AesTables.GfMultiplies | tserver/tq_aes.c:92-221 | the six columns of gf_mul are the products by 2, 3, 9, 11, 13 and 14 in GF(2^8) |
| AesCipher.MixUndone | tserver/tq_aes.c:747-925 | the inverse column mixing undoes the column mixing on every state |
| AesCipher.MixColAdds | tserver/tq_aes.c:747-835 | the column mixing is linear |
| AesCipher.InvMixColAdds | tserver/tq_aes.c:837-925 | so is its inverse |
| AesCipher.AppliedAdds | tserver/tq_aes.c:837-925 | products of a byte are polynomials in x over GF(2) applied to it, and add up coefficient by coefficient |
| AesCipher.ShiftMoves | tserver/tq_aes.c:688-737 | the byte in row r and column c comes from column c + r, modulo 4, and the inverse takes it back (FIPS 197, sections 5.1.2 and 5.3.1) |
| AesCipher.ShiftUndone | tserver/tq_aes.c:688-737 | the two row shifts undo each other |
| AesCipher.SubUndone | tserver/tq_aes.c:643-681 | the two substitutions undo each other |
| AesCipher.AddKeyUndoes | tserver/tq_aes.c:594-635 | adding a round key twice changes nothing |
| AesCipher.RoundUndone | tserver/tq_aes.c:1028-1052 | one inverse round takes back one round, between two substitutions |
| AesCipher.CipherUndone | tserver/tq_aes.c:931-1071 | the inverse cipher undoes the cipher for every schedule and any number of rounds (FIPS 197, section 5.3) |
| AesBlock.SubBytes | tserver/tq_aes.c:643-661 | every byte of the state is substituted in place |
| AesBlock.InvSubBytes | tserver/tq_aes.c:663-681 | every byte of the state is substituted back in place |
| AesBlock.ShiftRows | tserver/tq_aes.c:688-711 | row r of the state moves left by r places, cell by cell |
| AesBlock.InvShiftRows | tserver/tq_aes.c:714-737 | row r of the state moves right by r places, cell by cell |
| AesBlock.MixColumns | tserver/tq_aes.c:747-835 | the table sums written column by column are the matrix product of FIPS 197, (5.6) |
| AesBlock.InvMixColumns | tserver/tq_aes.c:837-925 | the table sums written column by column are the matrix product of FIPS 197, (5.10) |
| AesBlock.AddRoundKey | tserver/tq_aes.c:594-635 | the four bytes of each of four key words are added to the columns of the state |
| AesBlock.LoadStores | tserver/tq_aes.c:940-955 | loading a block into the state and storing it gives the block back |
| AesBlock.StoreLoads | tserver/tq_aes.c:985-1001 | storing the state and loading it gives the state back |
| AesBlock.LoadState | tserver/tq_aes.c:940-955 | the bytes of a block fill the state column by column |
| AesBlock.StoreState | tserver/tq_aes.c:985-1001 | and are read off in the same way |
| Aes.Encrypt | tserver/tq_aes.c:931-1002 | the unrolled rounds compute the cipher, whose value `ExampleOfC1` fixes, with 10, 12 or 14 rounds by key size; input and output may be the same buffer |
| Aes.Decrypt | tserver/tq_aes.c:1004-1071 | the unrolled inverse rounds compute the inverse cipher |
| Aes.RoundsAgree | tserver/tq_aes.c:969-1042 | the two directions take the same number of rounds exactly for the key sizes 128 and 192 and those above 192 |
| Aes.RoundsByKey | tserver/tq_aes.c:969-1042 | for a legal key size there are six rounds more than key words (FIPS 197, figure 4) |
| Aes.DecryptUndoesEncrypt | tserver/tq_aes.c:931-1071 | decryption inverts encryption for every block, every schedule and every such key size |
| AesKey.KeySetup | tserver/tq_aes.c:557-584 | for a legal key size the words are the schedule of which `ScheduleStarts` and `ScheduleGoesOn` tell every byte, as in FIPS 197, section 5.2, and nothing behind them changes; for any other nothing at all does |
| AesKey.ScheduleStarts | tserver/tq_aes.c:571-574 | the bytes of the first Nk words are those of the key, in order |
| AesKey.ScheduleGoesOn | tserver/tq_aes.c:576-583 | every byte of a later word: that of the word Nk places back, plus, at multiples of Nk, the substituted byte one place on in the word before and, in the first byte, a power of x; for Nk = 8 in the middle, the substituted byte; otherwise the byte of the word before |
| AesVector.WordOfA1 | tserver/tq_aes.c:557-584 | under the key of FIPS 197, appendix A.1, word 4 is a0fafe17 |
| AesVector.ExampleOfC1 | tserver/tq_aes.c:931-1002 | under the key of FIPS 197, appendix C.1, its block is encrypted to 69c4e0d86a7b0430d8cdb78070b4c55a |
| AesKey.Expand | tserver/tq_aes.c:571-583 | the two loops compute the recurrence of that section for Nk = 4, 6 and 8 |
| AesKey.NextWord | tserver/tq_aes.c:577-581 | the word added in one step: rotated, substituted and with a round constant at multiples of Nk, substituted only in the middle of long keys |
| AesKey.RconHoldsPowers | tserver/tq_aes.c:560-562 | the round constants are the powers of x in GF(2^8) |
| AesKey.HoldsSchedule | tserver/tq_aes.c:557-584 | words with the right bytes are the schedule |
| AesKey.BytesOfSubWord | tserver/tq_aes.c:543-552 | the word substitution acts on the four bytes alone |
| AesModes.EncryptCbc | tserver/tq_aes.c:236-257 | a whole number of blocks is chained into the output, which may be the input buffer; any other length is refused and changes nothing |
| AesModes.DecryptCbc | tserver/tq_aes.c:284-305 | the same for decryption |
| AesModes.EncryptCbcMac | tserver/tq_aes.c:259-282 | only the last block of the chain is kept; after an empty input the output is not determined, as the source copies out a block it has never written |
| AesModes.CbcChains | tserver/tq_aes.c:248-254 | C_1 = E(P_1 + IV) and C_j = E(P_j + C_(j-1)) (NIST SP 800-38A, section 6.2) |
| AesModes.CbcRoundTrip | tserver/tq_aes.c:236-305 | decryption inverts encryption for every whole number of blocks and any initial vector |
| AesModes.CbcMacIsLast | tserver/tq_aes.c:259-282 | the MAC is the last block that CBC encryption produces |
| AesModes.DecryptionInverts | tserver/tq_aes.c:931-1071 | under one keyed schedule the two block functions are inverse, as the modes need |
| AesCtr.IncrementIv | tserver/tq_aes.c:310-320 | the last c bytes are counted up as one number and the rest stays; nothing happens for c <= 0 |
| AesCtr.NextAddsOne | tserver/tq_aes.c:316-319 | counting up adds one modulo 256^c to the big-endian number |
| AesCtr.ValueJoins | tserver/tq_aes.c:316-319 | the first bytes of a counter count most |
| AesCtr.CounterValue | tserver/tq_aes.c:335-341 | the i-th counter block holds the initial number plus i, modulo 2^128 |
| AesCtr.CounterIs | tserver/tq_aes.c:335-341 | and is the only block that does |
| AesCtr.CtrByte | tserver/tq_aes.c:324-345 | output byte i is input byte i added to byte i mod 16 of the encryption of the one block whose number is the initial one plus i / 16 (NIST SP 800-38A, section 6.5) |
| AesCtr.EncryptCtr | tserver/tq_aes.c:324-345 | output byte i is input byte i added to byte i mod 16 of the encrypted counter i / 16, for every length, with a partial last block, in place or not, and nothing else of the output changes |
| AesCtr.CtrUndoes | tserver/tq_aes.c:347-351 | the mode is its own inverse on every length |
| AesCcm.EncryptCcm | tserver/tq_aes.c:357-416 | illegal lengths are refused; otherwise the output is the sealed payload and its tag |
| AesCcm.DecryptCcm | tserver/tq_aes.c:420-485 | a text no longer than a tag is refused; with a check, the output is what opening the text gives, and without one the plain counter decryption |
| AesCcm.CheckTag | tserver/tq_aes.c:452-480 | the tag is recomputed from the decrypted payload and compared on mac_len bytes; if it differs the whole plaintext becomes zero |
| AesCcm.OpenUndoesSeal | tserver/tq_aes.c:357-485 | for every tag length, nonce and associated data, opening a sealed non-empty payload authenticates and returns it |
| AesCcm.OpenIsExact | tserver/tq_aes.c:420-485 | a text authenticates exactly if it is the sealing of some payload, which is then the result; otherwise the result is all zeros |
| AesCcm.ScratchFits | tserver/tq_aes.c:375 | the formatted text fits the scratch buffer of 48 bytes more than payload and associated data exactly if not both the associated data is 14 modulo 16 and the payload 1 modulo 16 long; one byte more is always enough |
| AesCcm.FlagFields | tserver/tq_aes.c:497-500 | the three fields of the flag byte do not overlap and can be read back |
| AesCcm.PrepareFirstBlock | tserver/tq_aes.c:495-506 | flags, nonce and payload length fill the first block; a length longer than its field is cut |
| AesCcm.FormatAssoc | tserver/tq_aes.c:508-520 | a two-byte length, the data and zeros up to the next block boundary, with a whole block of zeros on one |
| AesCcm.FormatPayload | tserver/tq_aes.c:522-533 | the payload and zeros, none on a block boundary |
| AesCcmText.FlagsTell | tserver/tq_aes.c:497-500 | the flag byte tells the width of the nonce, whether there is associated data, and the width of the tag |
| AesCcmText.FormattedSays | tserver/tq_aes.c:495-533 | flags, nonce, payload length, length of the associated data, the data, payload and zeros stand at their places in the formatted text |
| AesCcmText.FormattedInjective | tserver/tq_aes.c:495-533 | nonces of 7 to 13 bytes, associated data below 2^16 bytes and payloads of any length that give one formatted text are the same |
| AesCcmText.FirstCounterSays | tserver/tq_aes.c:488-493 | the counter of the tag holds the width of the length field less one, the nonce, and zeros |
| AesCcmText.PayloadCounterIs | tserver/tq_aes.c:404-406 | the counter of the payload is the next number, except for a tag of 15 or 16 bytes, where the count of bytes to increment is not positive and the number stays |
| AesCcmText.SealedPayload | tserver/tq_aes.c:404-408 | byte i of the sealed payload is byte i of the payload added to byte i mod 16 of the encryption of the block with that number plus i / 16 |
| AesCcmText.SealedTag | tserver/tq_aes.c:384-411 | the tag is the beginning of the last block of the CBC chain over the formatted text, with zeros as initial value, added to the encryption of the first counter |
| AesCcm.PrepareFirstCounter | tserver/tq_aes.c:488-493 | the counter block for the tag: flags, the nonce in the bytes behind them, and zeros |
| TqCrypto.Content.Crypto | tserver/tq_aes.c:1073-1127 | a packet is padded and encrypted, or decrypted and unpadded, under the built-in key and vector; length and content are replaced and the rest of the buffer is zero |
| TqCrypto.Content.CryptoAes | tserver/tq_aes.c:1141-1162 | the same for data copied in first |
| TqCrypto.PadBytes | tserver/tq_aes.c:1080-1096 | the packet is kept, and every byte added holds the number of bytes added (RFC 5652, section 6.3) |
| TqCrypto.UnpadUndoesPad | tserver/tq_aes.c:1080-1120 | removing the padding gives back content and length |
| TqCrypto.DecryptedUndoesEncrypted | tserver/tq_aes.c:1073-1127 | for any invertible block function, decrypting an encrypted packet gives back content and length |
| TqCrypto.PaddedFits | tserver/tq_aes.c:1080-1083 | the padded packet fits the buffer exactly if the packet leaves a byte of it free |
| TqCrypto.PacketRoundTrip | tserver/tq_aes.c:1073-1127 | under the built-in key, every packet of up to 2047 bytes survives encryption and decryption, and fits the buffer in between |
| Md5.ShortF | ltm/md5.c:118 | the three-operation F is the F of RFC 1321, section 3.4 |
| Md5.ShortG | ltm/md5.c:119 | and so for G |
| Md5.FF | ltm/md5.c:130-134 | the macro of round 1 is one operation of section 3.4, with its auxiliary function |
| Md5.GG | ltm/md5.c:136-140 | the same for round 2 |
| Md5.HH | ltm/md5.c:142-146 | the same for round 3 |
| Md5.II | ltm/md5.c:148-152 | the same for round 4 |
| Md5.Round1 | ltm/md5.c:273-293 | the sixteen unrolled steps are steps 0 to 15 of the indexed definition |
| Md5.Round2 | ltm/md5.c:295-315 | steps 16 to 31 |
| Md5.Round3 | ltm/md5.c:317-337 | steps 32 to 47 |
| Md5.Round4 | ltm/md5.c:339-359 | steps 48 to 63 |
| Md5.AllRounds | ltm/md5.c:273-359 | all 64 steps, for every state and block; `DigestOfA` fixes a value of theirs |
| Md5Spec.RotatesInRound1 | ltm/md5.c:124 | by the amounts of round 1 a word is rotated to the left: its high bits become the low ones and its low bits the high ones |
| Md5Spec.RotatesInRound2 | ltm/md5.c:124 | by those of round 2 |
| Md5Spec.RotatesInRound3 | ltm/md5.c:124 | by those of round 3 |
| Md5Spec.RotatesInRound4 | ltm/md5.c:124 | by those of round 4 |
| Md5Spec.FromBytesOfWord | ltm/md5.c:98-113 | four bytes written by the encoding read back as the word |
| Md5Spec.LengthWords | ltm/md5.c:229-230 | the eight length bytes are the number of bits modulo 2^64 in two words, low one first |
| Md5Vector.DigestOfA | ltm/md5.c:160-243 | the digest of the one-byte message a is 0cc175b9c0f1b6a831c399e269772661 (RFC 1321, appendix A.5) |
| Md5.Fetch | ltm/md5.c:256-271 | the words of a block, low byte first |
| Md5.Encode | ltm/md5.c:98-113 | every word is written as four bytes, low byte first |
| Md5.FoldAppends | ltm/md5.c:204-207 | a further block is compressed after those before it |
| Md5Context.Context.Init | ltm/md5.c:160-170 | a new context has seen the empty message |
| Md5Context.Context.Transform | ltm/md5.c:248-369 | the 64 steps on the words of a block are added to the state |
| Md5Context.Context.Block | ltm/md5.c:198-207 | called with the state itself, that is the compression of RFC 1321 |
| Md5Context.Context.Count | ltm/md5.c:186-189 | the two words go on counting bits modulo 2^64 |
| Md5Context.CountAdds | ltm/md5.c:186-189 | the carry found by comparing and the shifted length make that addition exact |
| Md5Context.CountIndex | ltm/md5.c:184 | the low word gives the length modulo 64 |
| Md5Context.GuardIsExact | ltm/md5.c:204 | the loop guard i + 63 < inputLen, computed in 32 bits, means what it says at every position the loop visits exactly if the buffered bytes and the input together stay below 2^32 |
| Md5Context.GuardReaches | ltm/md5.c:204 | otherwise it still means what it says, and lets the loop go on, at every earlier position, so that the loop arrives where it wraps |
| Md5Context.GuardWraps | ltm/md5.c:204 | there it wraps, and lets the loop on where fewer than 64 bytes are left |
| Md5Context.Context.Blocks | ltm/md5.c:204-207 | the block loop folds every full block of the input into the state |
| Md5Context.Context.Update | ltm/md5.c:177-217 | after a message m and a chunk the state is the fold over the full blocks of both, the buffer holds the rest, and the counter eight times the length modulo 2^64 |
| Md5Context.FillsBlock | ltm/md5.c:195-202 | a buffered rest filled up from the input is the next block |
| Md5Context.Context.SaveCount | ltm/md5.c:229-230 | the counter is written low word first |
| Md5Context.PaddingIs | ltm/md5.c:115 | the slice of the padding array is one bit and zeros up to 56 bytes modulo 64 |
| Md5Context.Context.Final | ltm/md5.c:223-243 | the digest is that of RFC 1321, sections 3.1 to 3.5, of the whole message, and the context is cleared |
| Md5Context.SumChunks | ltm/md5.c:160-243 | however a message is cut into chunks, set-up, updates and end give the digest of their concatenation |
| Md5Context.SumMem | ltm/md5.c:391-399 | the digest of a buffer; an empty one leaves the result as it was |
| Md5Context.SumFile | ltm/md5.c:371-390 | the digest of a file read 1024 bytes at a time, or -1 if there is none |
| SppHeap.Heap.Add | spp/spp_struct.c:87-119 | the element joins the others in heap order, across growth; refused exactly if the heap is full and at its limit or cannot grow, and then nothing changes |
| SppHeap.Heap.Grow | spp/spp_struct.c:90-102 | the array doubles up to the limit, stays below twice that limit, and keeps its contents |
| SppHeap.Heap.Rise | spp/spp_struct.c:106-116 | the rising loop restores the order for the new element |
| SppHeap.Heap.Del | spp/spp_struct.c:53-78 | a least element is returned and exactly that one removed, in heap order |
| SppHeap.Heap.Sink | spp/spp_struct.c:60-76 | the sinking loop restores the order, even where it reads the slot past the live ones |
| SppHeap.SinkChoice | spp/spp_struct.c:64-68 | the slot chosen is the smaller child, or the slot past the live ones, which still holds the last element |
| SppHeap.SinkStep | spp/spp_struct.c:70-74 | moving the smaller child up keeps every branch in order except those below the gap |
| SppHeap.RootIsLeast | spp/spp_struct.c:48-51 | in heap order nothing is below the root |
| SppHeap.Heap.Visit | spp/spp_struct.c:80-85 | every element is visited once |
| SppTimer.WindowAgrees | spp/spp_timer.c:51-57 | the difference cast to int orders expiry times that lie less than 2^31 apart |
| SppTimer.TimerQueue.New | spp/spp_timer.c:68-89 | a timer is queued with its expiry time, unless there is no memory for it or for the heap |
| SppTimer.TimerQueue.Next | spp/spp_timer.c:32-36 | the timer taken is one of least expiry, and only if it has expired |
| SppTimer.TimerQueue.Callback | spp/spp_timer.c:27-42 | it fires in non-decreasing order of expiry, none early, every timer at most once, and stops when the earliest left is in the future |
| PacketTable.Table.Add | spp/spp_struct.c:195-220 | a signature already there is told apart from one that finds no memory; a new one enters its bucket and is counted |
| PacketTable.Table.Get | spp/spp_struct.c:222-239 | a lookup returns the entry; with del it removes the entry and returns nothing; the count stays |
| PacketTable.Table.Sweep | spp/spp_network.c:203-218 | exactly the entries whose expiry is later than now remain; the count of entries stays |
| PacketTable.Table.SweepBucket | spp/spp_struct.c:243-249 | visiting a bucket while the visitor unlinks entries leaves those kept, in order |
| PacketTable.Table.Destroy | spp/spp_struct.c:180-194 | the table is empty afterwards |
| PacketTable.AddShows | spp/spp_struct.c:209-213 | the entry at the front of bucket hash mod size keeps every signature in its bucket, once |
| PacketTable.RemoveShows | spp/spp_struct.c:228-236 | unlinking one entry removes exactly its signature |
| PacketFilter.Filter.Up | spp/spp_network.c:274-310 | a packet is dropped exactly if the trim time is not zero, it is a non-empty UDP packet from a client to a server that is not to be fragmented, and its signature is in the table; one that passes these tests and is new is entered, and any other leaves the table alone |
| PacketFilter.Filter.Trim | spp/spp_network.c:212-218 | the trim work sweeps the table |
| PacketFilter.TableHolds | spp/spp_network.c:212-310 | over any run, a signature stands in the table with an expiry exactly if some packet entered it and no later sweep came at or after that expiry |
| PacketFilter.DroppedIff | spp/spp_network.c:274-303 | a considered packet is dropped exactly if an equal one was entered before and no sweep in between came at or after its expiry |
| PacketFilter.BothAccepted | spp/spp_network.c:289-303 | two equal packets both pass only if the first found no memory or such a sweep ran between them |
| DumpQueue.InvStep | spp/spp_network.c:165-249 | every single statement of every sender and of the worker keeps the lock, counter, order and uniqueness invariants |
| DumpQueue.InvAlways | spp/spp_network.c:165-249 | so they hold in every state of every interleaving |
| DumpQueue.CounterIsExact | spp/spp_network.c:165-201 | whenever the lock is free the counter is the queue length plus the reservations in flight, and at most 1023 |
| DumpQueue.TurnedAwayWhenFull | spp/spp_network.c:171-174 | a sender is turned away exactly if all 1023 places are taken |
| DumpQueue.SentInOrder | spp/spp_network.c:229-249 | appended duplicates are all distinct and leave first in first out, none before its expiry; at shutdown the rest is freed, so each is sent once or freed once |
| DumpQueue.SentAfterDelay | spp/spp_network.c:185-249 | every duplicate that is sent was allocated earlier in the run, with some delay, and is sent no sooner than that delay after it |
| DumpQueue.AllAllocated | spp/spp_network.c:185-196 | whatever a sender carries or has appended was allocated earlier in the run, and expires by its delay after that |
| DumpQueue.StopsWhenNoneDue | spp/spp_network.c:233-237 | the worker stops only when the queue is empty or its front is not due |
| ListRing.InitListHead | ltm/list.h:38-42 | a head linked to itself is an empty list |
| ListRing.AddBetween | ltm/list.h:50-58 | a node put between two neighbours joins the ring there |
| ListRing.ListAdd | ltm/list.h:69-72 | a new entry becomes the first |
| ListRing.ListAddTail | ltm/list.h:83-86 | a new entry becomes the last |
| ListRing.DelBetween | ltm/list.h:95-99 | linking the neighbours of a node takes it out of the ring |
| ListRing.ListDelEntry | ltm/list.h:107-110 | the entry leaves the list, its own links stay |
| ListRing.ListDel | ltm/list.h:112-117 | the entry leaves the list and points nowhere |
| ListRing.ListDelInit | ltm/list.h:147-151 | the entry leaves the list and is an empty list |
| ListRing.Replace | ltm/list.h:127-134 | the new node takes the place of the old one in the ring, also when the old one is alone |
| ListRing.ReplaceInit | ltm/list.h:136-141 | and the old one is left as an empty list |
| ListRing.ReplacedEntry | ltm/list.h:127-134 | seen from the head, exactly that entry is replaced |
| ListRing.ListMove | ltm/list.h:158-162 | an entry moves to the front of a list, its own or another one |
| ListRing.ListMoveTail | ltm/list.h:169-174 | an entry moves to the end of a list, its own or another one |
| ListRing.ListRotateLeft | ltm/list.h:219-227 | the first entry becomes the last; an empty list stays |
| ListRing.EmptyAndSingular | ltm/list.h:191-236 | the two pointer tests mean no entry and exactly one entry |
| ListRing.CutBetween | ltm/list.h:238-248 | the six writes part one ring into two, the entries up to the given one and the others |
| ListRing.ListCutPosition | ltm/list.h:264-276 | the entries up to the given one move to the other list; cut at the head nothing moves and the other list becomes empty; an empty list, or a single entry that is not the given one, stays as it is |
| ListRing.SpliceBetween | ltm/list.h:278-290 | the entries of one ring go in after the last node of another, in order |
| ListRing.ListSplice | ltm/list.h:297-302 | the entries of one list go in front of those of the other |
| ListRing.ListSpliceTail | ltm/list.h:309-314 | the entries of one list go behind those of the other |
| ListRing.ListSpliceInit | ltm/list.h:323-330 | and the emptied list is an empty list |
| ListRing.ListSpliceTailInit | ltm/list.h:340-347 | the same at the end |
| ListRing.CutThenSplice | ltm/list.h:264-302 | cutting a list at any entry and splicing the piece back restores it |
| ListRing.Turn | ltm/list.h:7-10 | a ring read from any of its nodes is a ring: next and prev are inverse all the way round |
| PackageFormat.SplitLine | ltm/various.c:35-62 | the tokenizer returns the fields of the line up to the end character, as pieces of the buffer, and the place behind it |
| PackageFormat.PackGenerate | tqos-pack/pack-generate.sh:20-48 | for names that the shell keeps in one piece, the script writes magic, zero-padded manifest length, manifest and contents of all files in order |
| PackageFormat.InstallUnpackFile | ltm/update.c:24-96 | the loop over the manifest writes the files that the recursive definition of the format gives, and fails exactly when that does; if it succeeds, the directory holds what it held before, overwritten by these files one after the other |
| PackageFormat.InstallEntry | ltm/update.c:55-86 | one manifest entry: two fields, and as many bytes as the second announces |
| PackageFormat.CopyOut | ltm/update.c:71-86 | the 512-byte copying loop takes exactly the announced bytes, and fails if there are fewer or the number is negative |
| PackageRoundTrip.EntryRoundTrip | ltm/update.c:55-86 | unpacking undoes one packed entry in front of any others |
| PackageRoundTrip.PackRoundTrip | tqos-pack/pack-generate.sh:20-48 | read by the definition of the format, a package gives back its names and contents in order, for names without blank, semicolon and NUL and a manifest of up to 4096 bytes |
| PackageRoundTrip.LongManifestFails | ltm/update.c:41-45 | with a longer manifest it never does, even where the header has five digits and is misread |
| PackageRoundTrip.ReadNames | ltm/update.c:58-67 | every name that is unpacked is free of blank, semicolon and NUL, and not empty if the manifest holds no NUL |
| PackageRoundTrip.PackRoundTripIff | ltm/update.c:24-96 | read by the definition of the format, a package gives back its files exactly if every name is non-empty and free of blank, semicolon and NUL, and the manifest has at most 4096 bytes |
| PackageRoundTrip.PackageInDomain | ltm/various.c:35-62 | without a blank in a name, no line of what the unpacker takes for the manifest of a package has more than two fields, also where the header is misread or a name is cut at a semicolon |
| PackageRoundTrip.PackAndInstall | ltm/update.c:24-96 | the script and then the unpacking loop, for all names that the shell keeps in one piece: exactly the packed files are written if every name is non-empty and free of semicolon and NUL and the manifest has at most 4096 bytes, and otherwise they are not; and if they are, a fresh directory then holds each of them with its content, and nothing else, exactly if no two have one name |
| PackageRoundTrip.SavedIff | ltm/update.c:69-86 | files written one after the other into a fresh directory are all there with their contents exactly if their names are distinct |
| PackageRoundTrip.SavedLast | ltm/update.c:69-86 | of files with one name, the last one written stays |
| Text.AtoiOfDecimal | ltm/update.c:41 | reading a printed number gives the number |
| Text.AtoiReads | ltm/update.c:41-69 | a number is read behind white space and one sign, and what follows its digits is ignored |
| Text.AtoiOfPadded | tqos-pack/pack-generate.sh:40-43 | zeros in front do not change it |
| Text.CString | ltm/update.c:65-67 | a field ends at its first NUL, or is whole |
| HttpHeaders.Request.Find | ltm/hytext.c:62-70 | the first line with the key, if there is one |
| HttpHeaders.Request.Want | ltm/hytext.c:121-140 | a known key gets the new value in its place, an unknown one goes to the end; every other key keeps its value, and without memory nothing changes |
| HttpHeaders.Request.Unwant | ltm/hytext.c:154-163 | the line of the key goes and no other; keys stay distinct and the count of lines exact |
| HttpText.PrintHeaders | ltm/hytext.c:178-188 | the buffer holds the request line and all header lines, cut at its end; failure is reported exactly if the text before the last line already fills it |
| HttpText.GiveKv | ltm/hytext.c:289-317 | the parsing loop returns what the recursive reading of the text gives, at most n lines |
| HttpText.GiveLine | ltm/hytext.c:296-312 | one line: the first word before the colon, and the text after it up to the line break |
| HttpText.StripSpace | ltm/types.h:14 | the first place that is no white space |
| HttpText.TakeText | ltm/types.h:16 | the first place that is white space |
| HttpText.SkipTo | ltm/types.h:17 | the first place of a character |
| HttpText.ValueInText | ltm/hytext.c:305-312 | a value lies within the text exactly if it is not the case that only white space follows the colon and the text ends in a carriage return |
| HttpText.BlankValue | ltm/hytext.c:305-312 | a concrete response for which the length of the value wraps to 2^32 - 1 |
| HttpText.ParsePrintedLine | ltm/hytext.c:181-312 | a printed line is read back as its key and value, and reading goes on at its line break |
| HttpText.CarriedIff | ltm/hytext.c:181-312 | with room for as many lines, a list of headers is read back, whole and in order, in front of every colon-free text exactly if every key has no white space and no colon and every value is not empty, starts with no white space, holds no line break and is shorter than 2^32 |
| HttpText.HeaderRoundTrip | ltm/hytext.c:178-317 | printed headers are read back as the same pairs in the same order, up to the number of lines there is room for |
| HttpText.NeedKv | ltm/hytext.c:319-327 | the first line whose key is the same but for case |
| HttpText.SameKeyIff | ltm/various.c:129-134 | keys without NUL are the same exactly if they are of one length and every two characters are equal or one letter in its two cases |

## Left out

- Timers.Wheel.ExpireTimers: a handler is a function from the data of the timer and the number of the call to the timers it starts through `tq_timer_new`, with delays from 2 to 2^31 - 1; other effects of handlers and the release of the event are not modelled. For more than two due timers, patience is sufficient but not necessary, since the place of an impatient timer depends on the shape of the tree.
- TimerRuns.Drive: the clock stands still while an expiry goes on, and is read at every start and every advance; delays below two, which start nothing, are no events; what `Allowed` asks is sufficient, and is not shown to be necessary.
- Timers.Wheel.AddTimer: a difference of exactly -2^31, of which `abs` is undefined, and an event that is already in the tree are excluded.
- Timers.Wheel.TimerNew: a delay of exactly -2^31 is excluded for the same reason; `malloc` succeeds; the data of the event is one value, and the debugging text is ignored.
- RbTree.Rbt.Insert: the `data` byte of a node plays no part; the function pointer is one of the two descents.
- Aes.Encrypt: the schedule is a sequence long enough for the rounds; the source cannot check its length.
- AesModes.EncryptCbc: the key sizes of the modes are 128, 192 and 256, and lengths stay below 2^31.
- AesCcm.EncryptCcm: the case in which the formatted text outgrows the scratch buffer by one byte is excluded, as nothing is promised after a write past an allocation; `ScratchFits` says exactly which case that is. The buffer is always had. Conformance to NIST SP 800-38C is not claimed, because the counter width and the padding of empty associated data differ from it.
- AesCcm.DecryptCcm: the scratch buffer is longer by the tag here, so that only an empty tag meets that case, which is excluded; the nonce is at most 15 and the tag at most 16 bytes long, which the source does not check in this direction.
- TqCrypto.Content.Crypto: what is decrypted is not empty, and allocations succeed.
- Md5.AllRounds: the 64 constants are those of the source; that they come from the sine is not proved.
- Md5Context.Context.Update: buffered bytes and input together stay below 2^32, the exact condition of `GuardIsExact`.
- Md5Context.SumFile: reading does not fail midway.
- SppHeap.Heap.Add: the comparison is explained by ranks, as `WindowAgrees` shows for timers.
- SppTimer.TimerQueue.Callback: handlers do not come back to the queue, whose lock they would already hold; the clock does not wrap.
- PacketTable.Table.Get: the source hands the list node itself to the comparison, which is the entry because the link is its first field.
- PacketTable.Table.Sweep: the clock is read once for a sweep.
- PacketFilter.Filter.Up: the payload hash is a part of the signature and is not computed; the trim time is read once; resetting the service field of an accepted packet is not modelled; the clock does not wrap.
- DumpQueue.SentInOrder: shutdown happens when no sender and no worker is under way, since the source takes no lock there; the clock does not wrap.
- PackageFormat.SplitLine: a line has at most n fields; with one more the source writes past its array.
- PackageFormat.InstallUnpackFile: the header length is not negative and no line has more than two fields; cutting fields by writing NUL over the separators is modelled by cutting the text; opening and writing files succeed; lengths stay below 2^31; after a failure nothing is promised of the directory, in which the entry that failed may be left in part.
- PackageFormat.PackGenerate: names hold no blank, tab or line break, at which the shell would split them, and no pattern characters for it to expand.
- PackageRoundTrip.PackRoundTripIff: names with a blank are judged by the definition of the format only; the script does not pack them, and the tokenizer would write past its array.
- HttpText.HeaderRoundTrip: the headers are those that `CarriedIff` shows to be carried, and what follows them holds no colon.
- Sockets, epoll, netlink, shell commands, nvram and `/proc`: input and output without an algorithm.
- JSON requests, diagnostics and service-quality requests: library calls and string building.
- The byte-wise scrambling of `ltm/lt_endecry.c`: a one-line proof.
- `tqos-pack/unpack.c`: a second copy of the unpacker.
- The range download of `ltm/wgetfile.c`: its correctness depends on the server.
- The failure path of `spp_heap_new`, which returns freed memory.
- The variant of the delayed duplicates on `spp_timer`, which is compiled out.
