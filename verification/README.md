# Aequitas: the sharded ledger, its transfer circuit and two keeper components

A Dafny model of five parts of Aequitas, with proofs of what they promise.

* **Sparse Merkle tree** (`Smt`, `SmtKlassen`). Only non-empty nodes are stored; an update
  rewrites one path in place; proofs leave out empty siblings; a partial tree is rebuilt from
  proofs. The stored nodes always equal the recursive hash of the leaves, so the root depends on
  contents alone, and a partial tree follows the full one through every update of proven keys.
* **State transition and fraud proofs** (`Uebergang`, `ZustandKlassen`, `Wirkung`, `Gleichlauf`,
  `Fehlerbeweis`, `Widerlegung`, `Erreichbar`, `Sofort`, `Einmal`). Receipts between shards,
  registrations, transfers with nonce and fee, exits, the wealth cap, and basic income paid when an
  account acts. The same rules run on a full state and on a state that knows proven accounts only.
  What each input does is also told address by address. The verdict on a fraud proof is stated
  exactly, for right and wrong blocks and for every proof.
* **The network** (`Geld`, `Bereich`, `Sammel`, `Netz`, `Netzlauf`, `Menschengrenze`,
  `Quittungslauf`, `Eigentum`, `BlockKlassen`, `Kopfkette`, `Quorum`, `Losung`, `Auslosung`,
  `Sortierung`). Shards, receipts under way and epochs as one state machine: money is conserved,
  basic income stays covered, no machine addition wraps, every receipt is redeemed exactly once,
  nobody pays without signing. Confirmation by two thirds, the committee lottery, and what an honest
  enough committee can agree on.
* **The transfer circuit** (`ZkBaum`, `ZkKreis`, `ZkZustand`, `ZkBuchung`). The constraints as a
  predicate on witnesses over the scalar field of BN254; sound and complete against plain transfers.
* **Two keeper components.** The bounded map per sender (`BegrenzteKarte`, and
  `KarteNebenlaeufig` for its interleavings), and signed orders: the worker pool (`Auftraege`),
  which blocks it accepts (`AuftragsPruefung`) and the order nonces (`AuftragsNoncen`).

## How the model is built

Each operation exists twice: as a function on values, about which the lemmas speak, and, where the
program changes things step by step, as a method on classes, arrays or loops that is proved to
compute that function. The lemmas are about the functions; the methods carry them over to the
steps the program takes.

SHA-256, MiMC, signature checks, the shard of an address and address parsing are parameters
(`Welt`, `Krypto`, `Regeln`, `Einstellung`). Where a theorem needs collision freedom it names the
set U of hash inputs it needs it for: on U different inputs have different hashes, and none hashes
to null. U need only hold the inputs that the trees, proofs and inputs at hand lead to. Theorems
without U assume nothing of the hash.

Balances, totals and nonces are 64-bit with wrap-around written out; circuit values are field
elements with their modulus written out.

## Where code and documentation part

* `docs/SKALIERUNG_DEZENTRAL.md` (line 264) says a fraud proof against a correct block is worth
  nothing. The code builds a partial tree from no claims at all without looking at the root
  (`smt.go:221`), so a proof without claims refutes a correct block that looks nothing up.
  `KorrekterBlockWiderlegtGenau` shows that this is the only exception.
* A run that ends in an error leaves the list of looked-up accounts empty (`zustand.go:309-313`),
  so the proof built from it is worth nothing if an account had been looked up by then.
  `ErstellterBeweisGenau` says exactly which proofs are affected; `JederBlockEntscheidbar` that a
  proof which decides such a block exists all the same.
* The promise per human only grows, and is 64 bits wide. An epoch keeps the books exactly if the
  promise still fits when it closes (`SchlussGenau`), which the first 9223372036 epochs always do;
  `Randumlauf` is a network where it does not.
* The cover check of a transfer multiplies the amount before it divides. From a balance of
  921414866481792104 on some amount passes that the balance does not cover (`DeckungGenau`). That
  is the money of 921414867 humans; up to one fewer every run keeps its books, and with that many
  or more a single block can lose them (`Ueberschritten`).
* Strings are hashed as JSON, which turns every byte that is not valid UTF-8 into one replacement
  character. Blocks that differ only in such bytes, say in registrations of "\xff" and "\xfe", have
  one `EingabenID` and one head, and signatures under one confirm the other. The assumption on U
  leaves this class of inputs out wherever inputs or outgoing receipts are hashed.
* `Buendel` takes orders whose credit or nonce passes 64 bits; the circuit then has no solution
  for the witness it built. `BuendelGenau` makes this an equivalence.
* The order nonce 2^63 - 1 is accepted; its successor is negative. Admission stores it, the block
  ignores it; `BlockSetztGemerktes` gives the exact condition under which the two agree. As the
  block forgets it, an order with that nonce is accepted in any number of blocks, and behind it
  used nonces are accepted again in the same block (`WiederholungBeispiel`, `BeliebigOft`). An
  order of a sender without an account, whose nonce is stored nowhere, is likewise accepted in any
  number of blocks. `KetteSteigt` says for which known senders the nonces of a chain do rise.
* An empty committee confirms every block, since two thirds of nobody are nobody.

## Model

| member | source | states |
|---|---|---|
| Smt.LeerIstNull | x/humanity/bereiche/smt.go:36-48 | the root of an empty subtree is the null hash at every height |
| Smt.SetzeWirkung | x/humanity/bereiche/smt.go:92-121 | an update changes exactly the nodes above the key, to the hashes of the walk from the new leaf |
| Smt.SetzeKanonisch | x/humanity/bereiche/smt.go:92-121 | an update, deletion by null included, keeps every stored node equal to the recursive Merkle hash of the leaves below it and stores no null |
| Smt.SetzeAlleKanonisch | x/humanity/bereiche/smt.go:82-121 | the same after every sequence of updates from the empty tree |
| Smt.GeschichteEgal | x/humanity/bereiche/smt.go:59-68 | two histories that leave the same leaves leave the same tree, root included |
| Smt.PackenRundreise | x/humanity/bereiche/smt.go:126-170 | unpacking a packed proof yields all its siblings again |
| Smt.EntpackenGenau | x/humanity/bereiche/smt.go:151-170 | a proof unpacks exactly if the number of siblings is the number of marked heights, and then packs back to itself unless it spells out a null |
| Smt.BeweisFuehrtZurWurzel | x/humanity/bereiche/smt.go:133-187 | the proof of any key leads from its leaf to the root |
| Smt.BeweisBindet | x/humanity/bereiche/smt.go:172-187 | a proof that reaches the root carries the value and the siblings of the tree, given collision freedom on the hash inputs involved |
| Smt.TeilbaumGenau | x/humanity/bereiche/smt.go:197-225 | a partial tree is built exactly if every claim is true of the full tree, whatever their order and repetitions, and then agrees with it on every proven path and sibling |
| Smt.EhrlicherTeilbaum | x/humanity/bereiche/smt.go:197-225 | true claims always build a partial tree that agrees with the full one; no hash assumption |
| Smt.TeilbaumSimuliert | x/humanity/bereiche/smt.go:227-231 | every sequence of updates of proven keys leaves partial and full tree with the same root, if anything was proven |
| SmtKlassen.Hashbaum.Setze | x/humanity/bereiche/smt.go:92-121 | the loop over heights, updating both tables in place, computes the specified tree |
| SmtKlassen.Hashbaum.Beweise | x/humanity/bereiche/smt.go:133-147 | the loop over heights packs the siblings as specified |
| SmtKlassen.Auspacken | x/humanity/bereiche/smt.go:151-170 | unpacking with both of its error exits |
| SmtKlassen.WurzelAus | x/humanity/bereiche/smt.go:172-187 | walking up computes the specified root |
| SmtKlassen.Teilbaum.TrageNach | x/humanity/bereiche/smt.go:210-218 | enters only siblings that are neither null nor already there |
| SmtKlassen.TeilbaumAus | x/humanity/bereiche/smt.go:197-225 | claim by claim, the partial tree in place or the error |
| ZustandKlassen.VollZustand.SetzeKonto | x/humanity/bereiche/zustand.go:88-95 | an empty account leaves map and tree, any other enters both |
| ZustandKlassen.VollZustand.Kopie | x/humanity/bereiche/zustand.go:102-115 | a fresh state with the same contents |
| ZustandKlassen.VollZustand.Geldmenge | x/humanity/bereiche/zustand.go:117-126 | visiting the accounts in any order yields the sum of balances and the number of humans |
| ZustandKlassen.VollZustand.Beweisfuer | x/humanity/bereiche/zustand.go:128-140 | the claims of the given accounts and receipts, in order |
| ZustandKlassen.BeweisZustand.SetzeKonto | x/humanity/bereiche/beweis.go:81-84 | known accounts and partial tree updated in place |
| ZustandKlassen.GeNachtrag | x/humanity/bereiche/zustand.go:244-252 | catching up one account, with the totals |
| ZustandKlassen.Kappe | x/humanity/bereiche/zustand.go:254-260 | capping one account, with the totals |
| ZustandKlassen.LoeseEin | x/humanity/bereiche/zustand.go:262-283 | redeeming one receipt on either state, with every abort and what it has done by then |
| ZustandKlassen.MeldeAn | x/humanity/bereiche/zustand.go:284-301 | one registration on either state |
| ZustandKlassen.Ueberweisen | x/humanity/bereiche/zustand.go:317-362 | one transfer on either state: abort, skip or apply |
| ZustandKlassen.Ausfuehren | x/humanity/bereiche/zustand.go:236-315 | a whole block, in place, on either state: the specified outcome, the totals so far on error, the looked-up accounts sorted on success and empty on error |
| Wirkung.EinloesungWirkt | x/humanity/bereiche/zustand.go:262-283 | on a full state a receipt is redeemed exactly if it is meant for this shard, worth something and new; its recipient gains the amount and what he is owed, up to the limit, and nobody else changes |
| Wirkung.AnmeldungWirkt | x/humanity/bereiche/zustand.go:284-301 | a registration gives a new human the basic amount and a promise that starts now, and leaves everyone else and a registered human alone |
| Wirkung.ZahlungWirkt | x/humanity/bereiche/zustand.go:317-362 | on a full state a transfer is applied exactly if it has an amount and two parties or is an exit, is signed, carries the stored nonce, and is covered by balance and owed basic income; then the sender pays amount and fee and moves his nonce on, the named recipient gains the amount here or by a receipt in his name, and nobody else changes |
| Wirkung.ObergrenzeHaelt | x/humanity/bereiche/zustand.go:254-260 | after a credit a human holds at most a positive limit, and exactly what he may not keep is booked as fees |
| Eigentum.PlanStelle | x/humanity/bereiche/zustand.go:262-308 | receipts come first, then registrations, then transfers, each in order |
| Eigentum.BlockEntscheidet | x/humanity/bereiche/zustand.go:302-308 | a block that runs to its end records one decision per transfer: that of the rule above on the state left by its receipts, its registrations and the transfers before |
| Eigentum.KetteBuchtSigniertes | x/humanity/bereiche/zustand.go:322-324 | over any chain of blocks every applied transfer is signed, has an amount and two parties |
| Eigentum.AnwendbarExakt | x/humanity/bereiche/zustand.go:329-338 | for an account that is not overdrawn, paid no further than the promise, and with what it is owed below 921414866481792104, covered means: the amount and a thousandth of it are at most balance and owed basic income, in whole numbers; and just that is paid |
| Eigentum.NurMitUnterschrift | x/humanity/bereiche/zustand.go:317-362 | with the books in order, an account whose balance a block lowers, other than to the wealth limit, has signed a transfer that the block applied |
| Eigentum.LaufNurMitUnterschrift | x/humanity/bereiche/zustand.go:317-362 | so it is in every run that keeps its books |
| ZustandKlassen.NeuerBeweisZustand | x/humanity/bereiche/beweis.go:45-72 | a proof-only state from claims, or the error; later entries for one address win |
| ZustandKlassen.PruefeFehlerbeweis | x/humanity/bereiche/beweis.go:106-130 | the verdict on a fraud proof: worthless, block wrong, block right |
| ZustandKlassen.ErstelleFehlerbeweis | x/humanity/bereiche/beweis.go:139-146 | builds the specified proof from a trial run and leaves the state as it was |
| Gleichlauf.TueGenauso | x/humanity/bereiche/zustand.go:262-362 | one input on a proof-only state does what it does on the full state, or aborts for a missing account or receipt exactly when one it needs is missing |
| Gleichlauf.FolgeGenauso | x/humanity/bereiche/zustand.go:236-315 | the same for any list of inputs |
| Fehlerbeweis.FolgeStimmig | x/humanity/bereiche/zustand.go:236-315 | execution keeps the tree of a full state canonical and in step with its accounts |
| Fehlerbeweis.UrteilGenau | x/humanity/bereiche/beweis.go:106-130 | the exact verdict on every proof with at least one claim: decided exactly if all claims are true and cover what the run reads, and then wrong exactly if root, totals or outgoing receipts differ |
| Fehlerbeweis.FremderRahmenEgal | x/humanity/bereiche/beweis.go:106-120 | the verdict does not depend on the frame a block carries, nor on the money and people it reports |
| Widerlegung.LeererBeweisGenau | x/humanity/bereiche/beweis.go:106-130 | the exact verdict on a proof without claims |
| Widerlegung.KorrekterBlockWiderlegtGenau | x/humanity/bereiche/beweis.go:106-130 | a correct block is refuted exactly by a claimless proof against a block that looks nothing up in a shard that is not empty; by no other |
| Widerlegung.ErstellterBeweisGenau | x/humanity/bereiche/beweis.go:139-146 | the exact verdict on the proof its maker builds, error exits included |
| Widerlegung.AbbruchVorKontoGenau | x/humanity/bereiche/zustand.go:262-313 | when a run aborts before it looked up any account, told from inputs and pre-state |
| Erreichbar.KetteStimmig | x/humanity/bereiche/zustand.go:236-315 | every chain of blocks from the empty state leaves tree and accounts in step |
| Erreichbar.NetzStimmig | x/humanity/bereiche/zustand.go:236-315 | so does every run of the network, in every shard |
| Erreichbar.UrteilUeberall | x/humanity/bereiche/beweis.go:106-130 | the exact verdict on proofs with a claim holds in every state the network reaches |
| Erreichbar.EhrlichTrifft | x/humanity/bereiche/beweis.go:117-128 | the block a step of the network publishes has the outcome it claims when recomputed under promise and limit of the last epoch block |
| Erreichbar.BlockImLaufEntschieden | x/humanity/bereiche/beweis.go:106-130 | in every run, a proof of all that a step read, against any block in that place with those inputs and whatever frame, finds it wrong exactly if its root, totals or outgoing receipts are not what the step did; a proof of less is worthless |
| Erreichbar.WiderlegtUeberall | x/humanity/bereiche/beweis.go:106-130 | and so does the exact answer to which proofs refute a correct block |
| Widerlegung.JederBlockEntscheidbar | x/humanity/bereiche/beweis.go:8-15 | every block, right or wrong, aborting or reading nothing, has a proof its verifier accepts and whose verdict is the truth about the block |
| Erreichbar.EntscheidbarUeberall | x/humanity/bereiche/beweis.go:8-15 | so it is in every state the network reaches |
| Erreichbar.AbweichungWiderlegbar | x/humanity/bereiche/beweis.go:8-15 | in every run every block that differs from what the step did has a proof that refutes it, and every one that does not, a proof that upholds it |
| Widerlegung.LeererBeweisBeispiel | x/humanity/bereiche/smt.go:221-224 | an idle block in a shard that is not empty is correct and yet refuted |
| Widerlegung.AbgebrochenerBeweisBeispiel | x/humanity/bereiche/zustand.go:309-313 | a block redeeming a good and then a foreign receipt is wrong, but its maker's proof is worthless |
| Geld.DeckungExakt | x/humanity/bereiche/zustand.go:330-338 | on balances below 921414866481792104 the wrapping cover check decides like whole numbers and a transfer that passes does not wrap |
| Geld.DeckungGenau | x/humanity/bereiche/zustand.go:330-331 | and on these balances only: from there on some amount passes that the balance does not cover |
| Geld.FolgeBilanz | x/humanity/bereiche/zustand.go:236-362 | a block that runs to its end keeps the books of its shard: money, partial sums and promises to humans balance, balances stay non-negative, nothing wraps |
| Geld.FolgeZaehltKoepfe | x/humanity/bereiche/zustand.go:284-301 | the number of humans grows by exactly the new registrations |
| Netz.BlockErhaelt | x/humanity/bereiche/zustand.go:236-362 | executing a block anywhere keeps the network invariant with up to 921414866 humans: accounts, open receipts and pool hold what was created less what left, and the pool is what is unpromised plus what is owed |
| Menschengrenze.Ueberschritten | x/humanity/bereiche/zustand.go:330-341 | for every greater number of humans there is a network with its books in order and a possible block that puts them out of order |
| Netzlauf.SchlussErhaelt | x/humanity/bereiche/sammel.go:55-82 | closing an epoch whose promise per human fits 64 bits keeps the invariant; its block tells the true totals, the share per human is the unpromised pool divided by the humans, the limit 25 times the average balance, the pool covers every promise, the remainder is below the number of humans |
| Netzlauf.SchlussSchreibt | x/humanity/bereiche/sammel.go:55-82 | the closing epoch names its number, the hash of the one before and the heads of its blocks in order; without people it shares nothing out and sets no limit |
| Netzlauf.SchlussGenau | x/humanity/bereiche/sammel.go:72-77 | closing keeps the books exactly if the promise so far plus the share of this epoch is below 2^63, or there are no humans |
| Netzlauf.AblaufErhaelt | x/humanity/bereiche/sammel.go:84-87 | so does every run with up to 921414866 humans, of any number of epochs, whose closes all meet that guard; every epoch block in it passes its conservation check |
| Netzlauf.AblaufGenau | x/humanity/bereiche/sammel.go:84-87 | the books are right after every step of a run exactly if every close met the guard |
| Netzlauf.EpochenReichen | x/humanity/bereiche/sammel.go:72-77 | the first 9223372036 closes of any run meet it |
| Netzlauf.EhrlicherBlockBesteht | x/humanity/bereiche/block.go:113-157 | every block an honest, confirming committee publishes in such a run passes the cheap checks |
| Netzlauf.Randumlauf | x/humanity/bereiche/sammel.go:72-77 | a network with its books in order, and out of order after the next close: the promise is negative, the pool is charged and nobody is owed |
| Sofort.SofortGleichwertig | x/humanity/bereiche/zustand.go:243-252 | paying basic income account by account as they act: same decisions, receipts and final balances as paying everyone first |
| Sofort.BlockSofortGleichwertig | x/humanity/bereiche/zustand.go:236-362 | the same for a whole block, with the totals |
| Sofort.VorabZahltAlle | x/humanity/bereiche/zustand.go:243-252 | paying everyone first leaves no account with a claim and changes no receipt |
| Einmal.KetteLoestEinmalEin | x/humanity/bereiche/zustand.go:262-283 | over any chain of blocks no receipt is redeemed twice, none that was redeemed before, and all stay marked |
| Einmal.KetteNoncenFortlaufend | x/humanity/bereiche/zustand.go:330-340 | over any chain the transfers applied for a sender carry consecutive nonces, up to the one stored |
| Einmal.KetteBuchtEinmal | x/humanity/bereiche/zustand.go:330-340 | so no transfer of a sender is applied twice |
| Einmal.BlockStelltEinmalAus | x/humanity/bereiche/zustand.go:353-359 | receipts issued by a block have distinct ids derived from block and position |
| Einmal.AlleIdsVerschieden | x/humanity/bereiche/block.go:37-49 | blocks of pairwise different shard or number never issue an id twice, on whatever states they are executed |
| Quittungslauf.LaufNummeriert | x/humanity/bereiche/block.go:126-133 | in every run the blocks of each shard are numbered from 0 upward, modulo 2^64 |
| Quittungslauf.NetzStelltEinmalAus | x/humanity/bereiche/zustand.go:353-359 | no two receipts ever issued in a run share an id, up to 2^64 blocks per shard |
| Quittungslauf.LaufVerbucht | x/humanity/bereiche/zustand.go:262-283 | after every run each shard has redeemed exactly the receipts issued to it that are no longer under way |
| Quittungslauf.GenauEinmal | x/humanity/bereiche/zustand.go:184-192 | every receipt ever issued is either under way or redeemed at its target, never both and nowhere else, and while under way its target can redeem it in its next block |
| BlockKlassen.NaechsterSammelblock | x/humanity/bereiche/sammel.go:55-82 | the loops over money, people and blocks compute the specified epoch block with wrapping sums |
| BlockKlassen.ZaehleGueltige | x/humanity/bereiche/block.go:86-99 | counts the members whose entry carries the prefix and a valid signature |
| BlockKlassen.BilligPruefenSchritte | x/humanity/bereiche/block.go:113-157 | the cheap checks in their order, each with its own rejection |
| Kopfkette.KopfketteErhaelt | x/humanity/bereiche/block.go:113-157 | along an accepted chain every block continues the one before it, and the last head reports the balance of all partial sums since the first, in money and in people |
| Kopfkette.BilligGenau | x/humanity/bereiche/block.go:113-157 | a block passes exactly if it is confirmed, carries the frame, continues the block before, issues only own receipts, and its sums, money and people agree; otherwise the first of these that fails is the reason |
| BlockKlassen.Blockentwurf.Unterschreibe | x/humanity/bereiche/block.go:65-72 | signing counts for the signer, leaves the head and everyone else's signature alone |
| BlockKlassen.Blockentwurf.PruefUnterschrift | x/humanity/bereiche/block.go:74-81 | the marked signature is found again behind its mark |
| Quorum.ZaehleGenau | x/humanity/bereiche/block.go:86-99 | in a committee without repetitions the count is the number of signers |
| Quorum.MehrheitKleinste | x/humanity/bereiche/block.go:83-84 | the quorum is the least number that is two thirds or more |
| Quorum.BestaetigtGenau | x/humanity/bereiche/block.go:86-105 | a committee without repetitions has confirmed a block exactly if at least two thirds of it have a valid signature over its head in the block |
| Quorum.GeprueftGenau | x/humanity/bereiche/block.go:86-111 | checkers have passed a block exactly if at least two thirds of them have a signature behind the mark, valid for the marked head |
| Quorum.EinDrittelGemeinsam | x/humanity/bereiche/block.go:83-105 | two confirmed messages share at least 2 Mehrheit(m) - m signers, hence a third or more |
| Quorum.DrittelIstScharf | x/humanity/bereiche/block.go:83-84 | that number is reached for every committee |
| Quorum.EinigUeberKopf | x/humanity/bereiche/block.go:101-105 | if fewer than a third of a committee sign twice, it confirms at most one head per shard, epoch and number |
| Quorum.KopfBindet | x/humanity/bereiche/block.go:51-63 | equal heads mean equal blocks, signatures aside |
| Quorum.EinigUeberBlock | x/humanity/bereiche/block.go:101-105 | such a committee confirms at most one block |
| Quorum.LeererAusschussBestaetigt | x/humanity/bereiche/block.go:101-111 | an empty committee confirms every block |
| Sortierung.SortiereRichtig | x/humanity/bereiche/losung.go:46-48 | sorting addresses byte-wise sorts and keeps every element |
| Sortierung.SortiereVergisstReihenfolge | x/humanity/bereiche/losung.go:46-48 | the sorted list does not depend on the order of the input |
| Losung.GezogenPermutiert | x/humanity/bereiche/losung.go:46-55 | a shuffle loses and invents nobody |
| Losung.ZuegeEindeutig | x/humanity/bereiche/losung.go:46-55 | different draws make different orders |
| Losung.JedeReihenfolge | x/humanity/bereiche/losung.go:46-55 | every order is made by some draws |
| Losung.MischeRichtig | x/humanity/bereiche/losung.go:46-55 | the shuffle of a list permutes it and does not depend on its order |
| Losung.AusschuesseRichtig | x/humanity/bereiche/losung.go:57-69 | drawing fails exactly if there are too few; otherwise s pairwise disjoint committees of exactly m distinct validators |
| Losung.PruefausschussRichtig | x/humanity/bereiche/losung.go:71-94 | checkers never sit in the committee they check, and are m unless fewer others exist |
| Losung.GelosterAusschussEinig | x/humanity/bereiche/losung.go:24-30 | a committee of an active lottery, drawn from any epoch block, agrees on one head per place unless a third of it signs twice |
| Losung.ZuegeGetrennt | x/humanity/bereiche/losung.go:36-44 | no two draws of an epoch's lotteries, the committees' and each shard's checkers', hash the same input: equal inputs mean the same lottery and the same draw number |
| Auslosung.EpochenGetrennt | x/humanity/bereiche/sammel.go:40-48 | different epoch blocks give different random values, and no draw of the one hashes what a draw of the other does |
| Auslosung.ZahlVerkettet | x/humanity/bereiche/losung.go:36-44 | the bytes of a draw are read most significant first |
| Auslosung.GezogenAn | x/humanity/bereiche/losung.go:46-55 | the shuffle puts at each place whom the draws lead to in the sorted list, told by following the swaps backwards |
| Auslosung.MischeLetzter | x/humanity/bereiche/losung.go:36-55 | at the last place stands the validator whose number in the sorted list is the first eight bytes of the hash of seed and 0, modulo their count |
| Auslosung.MischeGenau | x/humanity/bereiche/losung.go:46-55 | two seeds order distinct validators alike exactly if all their draws agree |
| Auslosung.AusschussBesteht | x/humanity/bereiche/losung.go:57-69 | each committee is sorted and consists of those whom the draws of the committee seed put at its m places |
| Auslosung.AusschussGleichGenau | x/humanity/bereiche/losung.go:57-69 | two epochs draw the same committee exactly if their draws lead its places to the same validators |
| Auslosung.PruefausschussBesteht | x/humanity/bereiche/losung.go:71-94 | checkers are sorted and are those whom the draws of the shard's own seed put at the first m places of everyone outside the committee |
| Auslosung.AktivGenau | x/humanity/bereiche/losung.go:24-30 | lotteries are held exactly with 32 validators or more who suffice for committees with somebody in them |
| Losung.Durchmische | x/humanity/bereiche/losung.go:49-55 | the in-place shuffle from the last place down |
| Losung.MischeSchritte | x/humanity/bereiche/losung.go:46-55 | sorts a copy and shuffles it |
| Losung.AusschuesseSchritte | x/humanity/bereiche/losung.go:57-69 | cuts and sorts the committees, or reports too few |
| Losung.PruefausschussSchritte | x/humanity/bereiche/losung.go:71-94 | filters, shuffles, cuts and sorts the checkers |
| ZkBaum.ZerlegungGenau | forschung/zk-gueltigkeit/kreis.go:77-78 | a decomposition into n bits is satisfiable exactly below 2^n, and its bits are those of the number |
| ZkBaum.PfadBindet | forschung/zk-gueltigkeit/kreis.go:77-91 | a path that reaches the root starts at the true node and takes the true siblings |
| ZkKreis.FuehrtZuGenau | forschung/zk-gueltigkeit/kreis.go:76-91 | one root computation is satisfiable exactly by the walk along an index in range |
| ZkKreis.Hat64BitGenau | forschung/zk-gueltigkeit/kreis.go:127-131 | the range constraint is exactly being below 2^64 |
| ZkKreis.KeinUmlauf | forschung/zk-gueltigkeit/kreis.go:127-131 | under the range constraints the field neither borrows nor carries unnoticed |
| ZkKreis.TxKorrekt | forschung/zk-gueltigkeit/kreis.go:100-165 | one satisfied transfer is one plain transfer |
| ZkKreis.UeberweiseErhaelt | forschung/zk-gueltigkeit/kreis.go:134-160 | a plain transfer keeps the total balance and every key |
| ZkKreis.KreisKorrekt | forschung/zk-gueltigkeit/kreis.go:93-168 | any witness that satisfies the circuit from the root of a state: its new root is that after exactly these signed, covered transfers in order, with no money made or lost |
| ZkBuchung.KreisBucht | forschung/zk-gueltigkeit/kreis.go:93-168 | any witness that satisfies the circuit from the root of a state, on fields: order by order different accounts, amount covered, no overflow, and a signature of the sender's key over both indices, the amount and his nonce of that moment; every account ends with its key, its balance less what it paid plus what it received, and its nonce one up per order |
| ZkBuchung.NachrichtBindet | forschung/zk-gueltigkeit/kreis.go:112-117 | equal messages fix sender, recipient, amount and nonce, given collision freedom on the two inputs |
| ZkBuchung.JedeNachrichtEinmal | forschung/zk-gueltigkeit/kreis.go:112-125 | no two orders of a bundle are signed over the same message |
| ZkKreis.WurzelAus | forschung/zk-gueltigkeit/kreis.go:76-91 | the loop along the bits finds the one root that satisfies the constraints |
| ZkKreis.Define | forschung/zk-gueltigkeit/kreis.go:93-168 | threading the root through the bundle accepts exactly the satisfying witnesses |
| ZkZustand.EbeneNach | forschung/zk-gueltigkeit/zustand.go:77-84 | replacing a leaf changes one node per level |
| ZkZustand.Zustand.NeuBerechnen | forschung/zk-gueltigkeit/zustand.go:64-75 | level by level, the full recomputation |
| ZkZustand.Zustand.Setze | forschung/zk-gueltigkeit/zustand.go:77-84 | the incremental update leaves what a full recomputation would |
| ZkZustand.Zustand.PfadVon | forschung/zk-gueltigkeit/zustand.go:89-95 | the siblings above an account |
| ZkZustand.Zustand.Buendel | forschung/zk-gueltigkeit/zustand.go:108-142 | applies orders up to the first refused one and yields the witness, unless one was refused |
| ZkBuchung.BuendelAngenommenGenau | forschung/zk-gueltigkeit/zustand.go:108-118 | a bundle is made exactly if each order is between different accounts and its sender holds the amount by then; else it stops at the first that is not, with the state the orders before left |
| ZkBuchung.BuendelGebucht | forschung/zk-gueltigkeit/zustand.go:119-140 | what a made bundle leaves and says, account by account and order by order: balances and nonces modulo 2^64, and signatures over indices, amount and the nonce of that moment |
| ZkZustand.BuendelVollstaendig | forschung/zk-gueltigkeit/zustand.go:108-142 | without overflow every bundle satisfies the circuit and ends where plain transfers end; no hash assumption |
| ZkZustand.BuendelGenau | forschung/zk-gueltigkeit/zustand.go:130-138 | a bundle satisfies the circuit exactly if no balance and no nonce in it passes 64 bits, and only with the root it ends in |
| ZkZustand.UeberlaufBeispiel | forschung/zk-gueltigkeit/zustand.go:134-138 | an accepted order whose witness satisfies the circuit with no roots at all |
| BegrenzteKarte.WirkungInGrenzen | x/humanity/keeper/begrenzte_karte.go:247-298 | every operation keeps both maps within their bounds and every /32 within 64 of its /48 |
| BegrenzteKarte.AblaufInGrenzen | x/humanity/keeper/begrenzte_karte.go:247-298 | so does every run |
| BegrenzteKarte.GrobBraucht770 | x/humanity/keeper/begrenzte_karte.go:63-67 | IPv6 alone fills the overflow map only from 770 different /32 or more |
| BegrenzteKarte.SpeichernDannLesen | x/humanity/keeper/begrenzte_karte.go:223-265 | what was stored is read back by its sender; a refused store changes nothing |
| BegrenzteKarte.JederSchluesselEinOrt | x/humanity/keeper/begrenzte_karte.go:197-286 | each key of each sender has exactly one place: the map, or under its network's key in the overflow map, or none; a store writes there and nowhere else, a read tells what stands there, read-or-store does either, and without a place a store is refused |
| BegrenzteKarte.LoeschenGenau | x/humanity/keeper/begrenzte_karte.go:288-298 | a deleted key is gone from the map, or else from the overflow map, and every other key stays |
| BegrenzteKarte.FremdesNetzUnberuehrt | x/humanity/keeper/begrenzte_karte.go:27-37 | while the overflow map has room, a store changes nothing for a sender from elsewhere, save the store that fills the map: from then on new senders read what stands in the overflow map |
| BegrenzteKarte.Karte.Zaehlen | x/humanity/keeper/begrenzte_karte.go:158-176 | the counters of the map and of the /32 |
| BegrenzteKarte.Karte.JePraefixHier | x/humanity/keeper/begrenzte_karte.go:208-221 | the key a network counts under |
| BegrenzteKarte.Karte.LoadUeber | x/humanity/keeper/begrenzte_karte.go:228-245 | reading, with the overflow map and the value when full |
| BegrenzteKarte.Karte.StoreUeber | x/humanity/keeper/begrenzte_karte.go:252-265 | storing, with the overflow map, keeping counters equal to the keys |
| BegrenzteKarte.Karte.LoadOrStore | x/humanity/keeper/begrenzte_karte.go:267-286 | reading or storing |
| BegrenzteKarte.Karte.Delete | x/humanity/keeper/begrenzte_karte.go:288-298 | deleting from the map or else from the overflow map |
| KarteNebenlaeufig.SchrittStimmig | x/humanity/keeper/begrenzte_karte.go:163-176 | every atomic step of every goroutine keeps the counting invariant |
| KarteNebenlaeufig.HoechstensNMinusEinsDarueber | x/humanity/keeper/begrenzte_karte.go:252-265 | in every interleaving of n writers and any deleters the map is at most n - 1 keys over its bound, and at rest the counter is the number of keys |
| KarteNebenlaeufig.SchrankeErreicht | x/humanity/keeper/begrenzte_karte.go:252-265 | that overshoot happens for every n |
| Auftraege.SchrittStimmig | x/humanity/keeper/auftrag_nachweis.go:259-272 | every step of every worker: each place below the index is being checked by exactly one worker or has been checked once |
| Auftraege.AlleFertig | x/humanity/keeper/auftrag_nachweis.go:258-273 | when all workers are done every place was checked exactly once |
| Auftraege.SchrittKommtVoran | x/humanity/keeper/auftrag_nachweis.go:259-272 | no schedule runs forever |
| Auftraege.AuswertungIstDerReihe | x/humanity/keeper/auftrag_nachweis.go:274-284 | reading the verdicts in order is checking in order |
| Auftraege.Werkhalle | x/humanity/keeper/auftrag_nachweis.go:254-273 | whichever unfinished worker steps next, each place is checked once |
| Auftraege.PruefeAuftraegeImBlock | x/humanity/keeper/auftrag_nachweis.go:240-285 | under every schedule the error of the smallest index or the nonces in block order |
| AuftragsPruefung.ArtenGenau | x/humanity/keeper/auftrag_nachweis.go:71-99 | the kinds of order that carry a proof, and those that carry a nonce |
| AuftragsPruefung.BlockGenau | x/humanity/keeper/auftrag_nachweis.go:178-202 | a block is accepted exactly if every order that needs a proof carries one, signed from an hour before to five minutes after the block unless its kind has no time, with a nonce that is not negative if it carries one, and validly signed; otherwise the first order that is not so is reported with the first thing wrong with it |
| AuftragsPruefung.ListeGenau | x/humanity/keeper/auftrag_nachweis.go:274-284 | the nonces of an accepted block are listed in block order, one for each order of a kind that carries one, with its normalised sender |
| AuftragsPruefung.NoncenGenau | x/humanity/keeper/auftrag_nachweis.go:287-305 | they are accepted exactly if each is at least one more than the sender's last before it in the block, or what the state allows him |
| AuftragsNoncen.MerkenIstBlock | x/humanity/keeper/auftrag_nachweis.go:287-349 | orders are admitted one by one exactly if the block is accepted and every sender is known |
| AuftragsNoncen.BlockSetztGemerktes | x/humanity/keeper/auftrag_nachweis.go:307-326 | the block leaves the nonces admission left exactly if no account ends below where it began |
| AuftragsNoncen.AngenommeneImBlock | x/humanity/keeper/auftrag_nachweis.go:328-349 | a block of admitted orders with valid proofs is accepted, and leaves the same nonces exactly if no account ends below where it began |
| AuftragsNoncen.LetzteNonceBeispiel | x/humanity/keeper/auftrag_nachweis.go:309-314 | the exception: the largest of all nonces |
| AuftragsNoncen.BlockSteigt | x/humanity/keeper/auftrag_nachweis.go:288-305 | within an accepted block the nonces of a sender rise exactly if the largest of all nonces is, if anywhere, his last one |
| AuftragsNoncen.KetteSteigt | x/humanity/keeper/auftrag_nachweis.go:288-326 | through any chain of accepted blocks the nonces of a known sender rise exactly if the largest of all nonces is, if anywhere, his last one |
| AuftragsNoncen.KeineNonceZweimal | x/humanity/keeper/auftrag_nachweis.go:288-326 | then none of them is accepted twice, whatever other senders do |
| AuftragsNoncen.OhneSpurGenau | x/humanity/keeper/auftrag_nachweis.go:309-314 | a block of one order leaves the nonces as they were exactly for the largest nonce or an unknown sender |
| AuftragsNoncen.BeliebigOft | x/humanity/keeper/auftrag_nachweis.go:309-314 | such an order is accepted in any number of blocks |
| AuftragsNoncen.WiederholungBeispiel | x/humanity/keeper/auftrag_nachweis.go:298-302 | the largest nonce three blocks in a row, and a used nonce again behind it in one block |
| AuftragsNoncen.LetzteNonceBestehtPruefung | x/humanity/keeper/auftrag_nachweis.go:189-191 | the check of signed orders lets the largest nonce through |
| AuftragsNoncen.Kettenzustand.NaechsteNoncenFuerBlock | x/humanity/keeper/auftrag_nachweis.go:288-305 | the loop computes the specified nonces or the refusal |
| AuftragsNoncen.Kettenzustand.SetzeNoncen | x/humanity/keeper/auftrag_nachweis.go:309-326 | taking over new nonces in any order |
| AuftragsNoncen.Kettenzustand.MerkeNonce | x/humanity/keeper/auftrag_nachweis.go:331-349 | admission of one order; a refusal changes nothing |

## Left out

- AblaufErhaelt: bounded to 921414866 humans, whose money stays below the balance from which the cover check can go wrong; `Ueberschritten` shows that the bound is the true one for a single block.
- KopfBindet: equal heads bind equal blocks where JSON is injective, that is on strings of valid UTF-8; likewise `EinigUeberBlock`.
- GenauEinmal: speaks of up to 2^64 blocks per shard, after which their 64-bit numbers start over, and of receipts addressed to a shard that exists.
- KetteBuchtEinmal: speaks of up to 2^64 applied transfers of one sender, after which the 64-bit nonce starts over.
- KreisKorrekt: balances of the starting state must be below 2^64, as in every state the program makes; nonces are field elements, which the circuit does not range-check.
- SpeichernInGrenzen: networks are integers with their /32 beside them; masking and printing of IP addresses is a parameter.
- PruefeAuftraegeImBlock: the verdict of one order does not depend on the others; the cache of checked signatures, which could only turn a valid signature into the same verdict faster, is not part of this model.
- SHA-256, MiMC, ed25519, secp256k1, EdDSA and JSON are abstract; proving and verifying with Groth16 is outside, only satisfaction of the constraints counts.
- Tree keys are bit sequences of one fixed but open length, and a node is addressed by the bits above it; the byte layout of keys, masks and zeroed suffixes is not modelled.
- Hash inputs are tagged values, one constructor per tagged byte layout; that the layouts are injective is part of the assumption on U. The JSON layouts are so only on strings of valid UTF-8.
- The two kinds of state are variants of one datatype over two classes, not implementations of an interface.
- Copies of maps are value copies; the order in which maps are visited is arbitrary in the methods that visit them and never changes the outcome.
- Counts of humans, heights and indices are unbounded integers.
- The network between shards is a multiset of receipts under way; routing, delay and the rollback after a fraud proof are not modelled. Receipts are redeemed from that multiset only, as an honest network delivers them.
- The lottery's draws come from an abstract hash; that they are hard to predict, or evenly spread, is not stated. That the map from draws to orders is one-to-one and onto is.
- In the bounded map: rate-limit values, log messages, their throttle and the statistics counters; the counter per /32 under concurrent inserts and deletes, which its own documentation allows to be too small.
- Which messages signers put under each kind of order (`auftragsNachricht`) is one abstract check.
- Loading accounts from the database and saving them: the accounts of the order nonces are all in memory.
- HTTP handlers, proxies, health reports, Postgres, advisory locks, outbox and write-ahead log, block production, synchronisation, leadership, start-up, tools and lint scripts.
