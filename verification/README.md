# Verified models of the game server's algorithms

This project models, in Dafny, the parts of the private game server whose behaviour is decided by
an algorithm rather than by a table or by I/O, and proves what those algorithms are for. Nothing
here runs the server. `dafny verify dfyconfig.toml` checks everything.

| files | what they model |
|---|---|
| `BlockerMatching.dfy` (with `Cardinality.dfy`) | the augmenting-path search that decides whether the AI needs more blockers, and what one more blocker is worth |
| `BlockPlanner.dfy` | the AI's block declaration: survivors, multiblocks, dogpiles, chump blocks |
| `BoardStack.dfy` | the search for the best order in which to play cards |
| `ObjFmtTree.dfy`, `ObjFmtReader.dfy`, `ObjFmtRoundTrip.dfy`, `ObjFmtSpans.dfy`, `ObjFmtBuilder.dfy`, `ObjFmtLayers.dfy` | the streaming ObjFmt serializer, a decoder for its format, the round trip, and the size table |
| `EncodedDecks.dfy`, `DeckEncoder.dfy` | the binary deck payload: varints (unsigned LEB128, section 7.6 of DWARF 5), .NET strings, GUIDs (section 4.1.2 of RFC 4122, first three fields little-endian), sorted deltas, nested frames |
| `TurnPhases.dfy`, `BattleTurns.dfy` | phase lists with extra combats; the phase cursor, turn hand-over and bonus turns |
| `AiTurn.dfy`, `AiCombat.dfy` | the phase loop of the AI's turn outside the native kernel: skip rules, combat tricks, pauses and resumption by a stored cursor; when the AI fights and which phase follows which |
| `SharedConnection.dfy` | the lease protocol on the shared SQLite connection, as interleaved thread steps |
| `DeckInsertion.dfy` | putting cards back at random places of a deck |
| `IssueLink.dfy` | the prefilled issue link and its longest report prefix |
| `CombatDamage.dfy` | how much damage one attacker gets past its blockers |
| `WeightedChoice.dfy`, `CampaignPack.dfy` | weighted random choice and the contents of a campaign pack |
| `Lists.dfy`, `Bytes.dfy`, `Wrappers.dfy` | stable sorting and filtering, number formats, optional values |

Random draws and shuffles are parameters, so every statement holds for all of their outcomes.
What the rules kernel, the card evaluator and the database answer (`_can_block`,
`worth_blocking`, a combat trick, an owned card instance) are functions passed in. Real numbers
stand for floating point.

## What the proofs found

- No report ends the diagnostics block of the issue (commands.py:484-487), however many backticks it
  has: `IssueLink.ReportStaysInside`. A row of three backticks may be left by the replacement,
  exactly when the report has five in a row (`IssueLink.FenceSurvivesIff`), but it never comes
  first on its line.
- If the AI declares attackers while the ready flag is down, the list is rebuilt under the cursor
  (ai.py:751-758): the held phase is then not the phase that was played, and the attack window is
  passed over. `AiTurn.HeldPhase` gives the exact condition. It takes a pending extra combat
  (`AiTurn.RaiseNeedsExtraCombat`), and one of the human side's, since the list is built from those
  alone (battle_engine.py:149-150) while the AI's own effects are recorded under its own key
  (rules_port/context.py:4068-4070). `AiTurn.FlagCanBeRaised` shows such a game
  and the seven rounds that lead there from the start of a turn.
- Declaring attackers also sets the phase index of the battle back to the first attack of the list
  (ai.py:756-758), so in a later combat it falls behind: `AiTurn.ShownFallsBehind`. The turn is
  resumed from its own cursor, which never does.
- The root property count of an ObjFmt document overwrites only its two placeholder bytes exactly
  when it is at most 99: `ObjFmtRoundTrip.RootCountFits`. A GUID is counted in characters but
  written in UTF-8 (objfmt_builder.py:145-146), so its count is right exactly for ASCII:
  `ObjFmtBuilder.GuidCounted`. A document is decoded to its own tree exactly when its names and
  types hold no separator, its values fit their types and all its counts are true:
  `ObjFmtRoundTrip.DecodeEncodeIff`.
- The AI may keep a summon that would complete its defense: it looks only at the attackers its
  search left open, and which these are depends on the order in which they were declared
  (`BlockerMatching.OrderDecidesSpending`). A summon buys one more block exactly when take-overs
  lead from an open attacker to one that it can block (`BlockerMatching.SummonGains`); so one that
  is spent always buys a block (`BlockerMatching.OpenAttackerGains`).
- An attacking AI ends its turn with a phase list that does not fit its flag (ai.py:1566):
  `BattleTurns.AiLeavesStaleList`. The start of the human turn, or deciding the flag, repairs it.
  Until then exactly a rebuild in a second main phase would show another phase
  (`BattleTurns.StaleListMoves`), which is what the server's remark on renumbering the cursor is
  about (hconnect_server.py:8325-8329).
- The size table of an ObjFmt document is exact whatever is written, wrong counts, separators in
  names and non-ASCII GUIDs included: `ObjFmtLayers.EverySlotSound`.
- The fallback behind the loop of `_weighted_choice` is never reached, even for negative weights,
  as long as the total is positive: `WeightedChoice.Subtract`.

## Model

| member | source | states |
|---|---|---|
| BlockerMatching.Matcher.MatchAttacker | ai.py:4214-4226 | a successful search keeps the assignment legal, covers one more attacker and uncovers none; a failed one changes nothing and has visited everything reachable; no path enters a dead set; the recursion ends because visited blockers grow |
| BlockerMatching.Matcher.MatchAll | ai.py:4228-4232 | one search per attacker ends with a maximum-cardinality assignment; an attacker is uncovered exactly when it adds nothing to the best assignment for those before it; none is exactly when a complete assignment exists |
| BlockerMatching.Matcher.MatchEach | ai.py:4228-4229 | the assignment is a maximum one for each beginning of the attackers, and covers exactly those whose search enlarged it |
| BlockerMatching.FoundGains | ai.py:4228-4229 | a search that succeeds shows that no assignment without its attacker is as large |
| BlockerMatching.CertifiedMaximum | ai.py:4228-4229 | the blockers the failed searches visited prove that no other plan is larger |
| BlockerMatching.AugmentFree | ai.py:4222-4225 | giving an attacker a free blocker is an augmentation |
| BlockerMatching.AugmentThrough | ai.py:4223-4225 | re-matching the previous attacker and taking its blocker is an augmentation, although that attacker is matched twice in between |
| BlockerMatching.StillCovered | ai.py:4222-4225 | taking a blocker from an attacker that has just been re-matched uncovers nobody |
| BlockerMatching.DeadSetIsCertificate | ai.py:4228-4232 | a dead set that encloses every failed attacker proves that no other plan is larger |
| BlockerMatching.CompleteIffAllCovered | ai.py:4230-4234 | a maximum plan covers all attackers exactly when some plan does |
| BlockerMatching.MissingOne | ai.py:4230-4234 | a plan that misses an attacker is smaller than one that covers all |
| BlockerMatching.NeedsMoreBlockingTroops | ai.py:4189-4254 | the AI spends a summon only if a maximum assignment leaves an attacker open that the summoned troop could block, never once blocks are declared and never when a complete assignment exists; exactly when, going through the attackers as they were declared, it could block one in play that adds nothing to the best assignment for those in play declared before it |
| BlockerMatching.SpendsInDeclaredOrder | ai.py:4194-4201 | looking only at the attackers in play keeps the order in which they were declared |
| BlockerMatching.AttributesDecide | ai.py:4205-4253 | tapped troops and those that cannot block are no blockers, an attacker that cannot be blocked is left alone by troops and summons, a flyer is for flyers and sky guards, any other for all |
| BlockerMatching.LastOfUid | ai.py:4191-4193 | of several records with one uid the last one counts |
| BlockerMatching.SummonGains | ai.py:4236-4254 | with one more blocker the best assignment grows by one, exactly when take-overs lead from an attacker left open to one that it can block, whichever maximum assignment is looked at |
| BlockerMatching.AugmentAlong | ai.py:4222-4225 | along such a path a free blocker lets one more attacker be blocked |
| BlockerMatching.NoPathNoGain | ai.py:4226-4226 | without such a path the assignment stays a maximum one |
| BlockerMatching.OpenAttackerGains | ai.py:4244-4253 | a summon that can block an attacker left open enlarges the best assignment by one |
| BlockerMatching.OrderDecidesSpending | ai.py:4228-4253 | two attackers, one blocker and one summon for which the decision depends on the order of the attackers, although the summon completes the defense in both |
| BlockPlanner.ChooseSurvivor | ai.py:361-372 | an unused survivor is chosen exactly when there is one: worthwhile before others, then least defense, then the first among the available troops |
| BlockPlanner.ChooseReuse | ai.py:375-380 | a troop already blocking is reused exactly when one survives this attacker too: the one with most defense, the first of these among the available troops |
| BlockPlanner.Dogpile | ai.py:386-394 | the pile is the shortest prefix of the worthwhile troops, strongest first, that reaches the attacker's defense, or all of them |
| BlockPlanner.ChoosePile | ai.py:384-404 | a pile is committed only when it kills, with the fewest troops of any group that kills, and of the candidates the strongest, those of equal attack in their order; none is committed only when no group kills |
| BlockPlanner.ChooseChump | ai.py:409-416 | under lethal danger the legal troop with least attack, then defense, then uid |
| BlockPlanner.ChooseBlockers | ai.py:349-416 | the four modes are tried in order, each only when the ones before it have no candidate |
| BlockPlanner.PlanBlocks | ai.py:346-416 | attackers are handled by descending attack, those of equal attack in their order, each by that rule in the state left by the earlier ones; `used` is the set of assigned blockers and `blocker_dmg` the total attack each one faces |
| BlockPlanner.PrefixIsStrongest | ai.py:386-394 | of all sets of a given size, the prefix of the attack-descending list has the greatest combined attack |
| BlockPlanner.BlocksAreLegal | ai.py:349-416 | every assigned block is legal and made by an available troop |
| BlockPlanner.MultiblockSafety | ai.py:352-381 | a troop assigned to two or more attackers survives all of them together |
| BlockPlanner.DoomedBlockOnce | ai.py:384-416 | a troop that one of its attackers kills is assigned to no other, attacks being nonnegative |
| BlockPlanner.LethalAttackersAreBlocked | ai.py:326-328 | under a lethal attack an attacker goes unblocked only if every troop legal for it is assigned |
| BlockPlanner.DogpileIsMinimal | ai.py:384-404 | in a whole plan, two or more troops on one attacker kill it, and no smaller group of the troops then free does; the strongest are taken, and without lethal danger only in trades worth making |
| BlockPlanner.NoSacrifice | ai.py:352-404 | without lethal danger a block is by one troop that survives it on top of all it faces already, or by troops that together kill an attacker of attack three or more |
| BlockPlanner.LethalKillIsTaken | ai.py:326-404 | under a lethal attack, when unused troops can together kill an attacker, whatever the trade is worth, it is killed or faces a troop that survives it |
| BlockPlanner.IncomingJoined | ai.py:268-270 | the incoming damage is that of all attackers together, none counting below zero |
| BlockPlanner.DamageJoined | ai.py:345-414 | the damage a blocker faces is that of the attackers it is assigned to, all together |
| BlockPlanner.UnblockedMeansNoGain | ai.py:349-416 | an attacker left unblocked is survived by no troop legal for it, and is too small for a dogpile or no group kills it |
| BoardStack.Evaluator.CardValue | ai_eval.py:500-504 | a card's noisy value is drawn once and the same ever after |
| BoardStack.Evaluator.BestStack | ai_eval.py:1217-1242 | the returned order uses distinct cards, is affordable at every prefix and at most five long, its value is the sum of its card values, no other such order is worth more, and it is the first of these in the order of the cards |
| BoardStack.AffordableIff | ai_eval.py:1225-1241 | an order can be played exactly when it has at most one resource, none once one was played, and each other card costs at most the resources at the start and those granted before it less what was spent before it |
| BoardStack.FirstReplaced | ai_eval.py:1239-1241 | a better order replaces the best one only when it is worth more, so the first of equals stays |
| BoardStack.Evaluator.GetBestBoardBuilder | ai_eval.py:1186-1215 | the chosen card is the first of an optimal order, or none when the optimum is to play nothing |
| BoardStack.OneResource | ai_eval.py:1225-1230 | every affordable order plays at most one resource, none when it is already used |
| BoardStack.PlayFirst | ai_eval.py:1223-1241 | the orders that begin with a playable card are exactly that card before an order of the rest |
| BoardStack.BoundNext | ai_eval.py:1239-1241 | trying one more card extends the bound to all orders that begin with it, while values drawn meanwhile stay fixed |
| BoardStack.WorthStable | ai_eval.py:826-832 | later draws never change the worth of an order |
| BoardStack.FirstPerTemplate | ai_eval.py:1201-1210 | one card of every template is kept, and no template is lost |
| BoardStack.KeepsFirsts | ai_eval.py:1201-1210 | the cards kept are exactly the first of each template, in the order of the hand |
| BoardStack.ConsideredAre | ai_eval.py:1189-1210 | the candidates are all cards that fit, in the order of the hand, thinned exactly when there are more than ten |
| ObjFmtBuilder.Builder.constructor | objfmt_builder.py:27-44 | a new builder holds the root header with its placeholder count and nothing else |
| ObjFmtBuilder.Builder.AddType | objfmt_builder.py:56-59 | a type is interned, and its index is that of its first entry |
| ObjFmtBuilder.Builder.Header | objfmt_builder.py:82-88 | a field takes the next slot and writes name, slot, type index and property count |
| ObjFmtBuilder.Builder.FieldInt | objfmt_builder.py:82-90 | adds a 32-bit signed field to the tree written so far, whose four bytes stand for the number given |
| ObjFmtBuilder.NumbersHeld | objfmt_builder.py:82-90 | the four bytes of every signed number, as a field, an enumeration value or a list item, stand for the number the call was given |
| Bytes.SignedRoundTrip | objfmt_builder.py:88-88 | a signed 32-bit number is read back from its four bytes |
| ObjFmtBuilder.RecordedNumbers | tests/goldens/encode_objfmt_response_basic.golden:1-1 | 42, 100 and -1 have the bytes that the recorded documents show |
| ObjFmtBuilder.RecordedField | tests/goldens/encode_get_unread_mail_count_response_5.golden:1-1 | a recorded number field and its entry in the size table, byte for byte |
| ObjFmtBuilder.RecordedHeaders | tests/goldens/encode_campaign_session_state.golden:1-1 | recorded headers: name, slot, type and property count in this order |
| ObjFmtBuilder.RecordedLeaves | tests/goldens/encode_objfmt_response_basic.golden:1-1 | recorded contents of texts and booleans |
| ObjFmtBuilder.Builder.FieldUlong | objfmt_builder.py:91-99 | adds a 64-bit unsigned field |
| ObjFmtBuilder.Builder.FieldUint | objfmt_builder.py:100-108 | adds a 32-bit unsigned field |
| ObjFmtBuilder.Builder.FieldBool | objfmt_builder.py:109-117 | adds a boolean field, which has no trailing separator |
| ObjFmtBuilder.Builder.FieldStr | objfmt_builder.py:118-127 | adds a length-prefixed string field, which has no trailing separator |
| ObjFmtBuilder.Builder.FieldDatetime | objfmt_builder.py:128-138 | adds a date as text |
| ObjFmtBuilder.Builder.FieldGuid | objfmt_builder.py:139-147 | adds a GUID in UTF-8 behind its number of characters, whatever these are |
| ObjFmtBuilder.Builder.FieldBytes | objfmt_builder.py:173-182 | adds raw bytes behind their big-endian length |
| ObjFmtBuilder.Builder.FieldUlongList | objfmt_builder.py:149-160 | adds a list of 64-bit numbers, named by position |
| ObjFmtBuilder.Builder.FieldResourceIdList | objfmt_builder.py:161-172 | adds a list of resource ids, each with its nested GUID and its count of characters |
| ObjFmtBuilder.Builder.FieldResourceId | objfmt_builder.py:183-199 | adds a structure with one nested GUID field and its count of characters |
| ObjFmtBuilder.Builder.FieldEnum | objfmt_builder.py:200-215 | adds a structure with one nested number |
| ObjFmtBuilder.Builder.FieldUid | objfmt_builder.py:216-231 | adds a structure with one nested 64-bit number |
| ObjFmtBuilder.Builder.BeginList | objfmt_builder.py:233-241 | opens a list with its declared item count and returns the slot and start that close it |
| ObjFmtBuilder.Builder.BeginElement | objfmt_builder.py:345-359 | opens an element with its property count and returns the slot and start that close it |
| ObjFmtBuilder.Builder.CloseTop | objfmt_builder.py:241-268 | closing the innermost open list or element makes it a field of the one below, with the count it was opened with, right or wrong |
| ObjFmtBuilder.Builder.AddDictEntryGem | objfmt_builder.py:270-303 | adds an entry of a 64-bit key and a gem, three levels deep |
| ObjFmtBuilder.Builder.AddDictEntryUint64Str | objfmt_builder.py:316-343 | adds an entry of a 64-bit key and a string |
| ObjFmtBuilder.Builder.IntList | objfmt_builder.py:391-401 | adds a list of 32-bit numbers |
| ObjFmtBuilder.Builder.WriteTables | objfmt_builder.py:424-431 | the data length goes into slot 0, then type table, newline and size table are written |
| ObjFmtBuilder.Builder.Finish | objfmt_builder.py:420-431 | after any calls that closed what they opened, with the right root count of at most 99, the bytes decode to exactly the tree the calls built if and only if names and types hold no separator, values fit their types and every count is true; with other calls or another root count they never decode to a tree that fails this; every signed number that is decoded is the one given to the call |
| ObjFmtBuilder.AddLayered | objfmt_builder.py:82-147 | adding a field to the innermost open list or element writes exactly that field behind everything already written |
| ObjFmtBuilder.PushLayered | objfmt_builder.py:233-241 | opening writes exactly the header, and for a list its count |
| ObjFmtBuilder.PopLayered | objfmt_builder.py:183-230 | back-patching the slot of an open structure turns everything written since into one complete field |
| ObjFmtBuilder.GuidCounted | objfmt_builder.py:145-146 | a GUID field is well formed, its count of characters being its number of bytes, if and only if the GUID is ASCII |
| ObjFmtRoundTrip.DecodeEncode | objfmt_builder.py:27-435 | decoding an encoded document from its last newline gives back exactly the tree, for any fields, structures and lists with separator-free names |
| ObjFmtRoundTrip.DecodeEncodeIff | objfmt_builder.py:27-435 | the round trip holds if and only if names and types hold no separator, values fit their types and every text, structure and list states its true count |
| ObjFmtRoundTrip.DecodesWellFormed | objfmt_builder.py:82-268 | no bytes decode to a tree in which a name or type holds a separator, a value is out of range or a count is wrong |
| ObjFmtRoundTrip.CutFinished | objfmt_builder.py:420-431 | whatever the data, the last newline and the first size cut the stream back into data, types and sizes |
| ObjFmtRoundTrip.RootCountFits | objfmt_builder.py:70-79 | the overwrite changes only the two placeholder bytes if and only if the count is at most 99 |
| ObjFmtRoundTrip.TypesStayDistinct | objfmt_builder.py:56-59 | the type table never holds a type twice |
| ObjFmtRoundTrip.TypesStaySepFree | objfmt_builder.py:56-59 | the type table stays splittable at its separators |
| ObjFmtReader.ReadEmitted | objfmt_builder.py:82-230 | a written field is read back with its slot, whatever bytes follow |
| ObjFmtReader.ReadEmittedAll | objfmt_builder.py:149-171 | written fields are read back one after another, without any separator between them |
| ObjFmtReader.ReadsWellFormed | objfmt_builder.py:82-230 | whatever the bytes, a field that is read has a separator-free name and type, values that fit and only true counts |
| ObjFmtSpans.ForestSpans | objfmt_builder.py:61-68 | for any fields at all, each slot holds the length of exactly the bytes written for the field of its number, and these stretches are nested or disjoint in slot order |
| ObjFmtSpans.ForestReads | objfmt_builder.py:61-68 | among well-formed fields each of these stretches is read as one field with the number of its slot |
| ObjFmtSpans.SpansCompose | objfmt_builder.py:61-68 | the stretches of consecutive fields are those of the whole |
| ObjFmtSpans.Enclose | objfmt_builder.py:183-230 | patching an enclosing slot makes its stretch contain all the inner ones and disturbs none |
| ObjFmtLayers.EverySlotSound | objfmt_builder.py:61-68 | after any sequence of calls, with right or wrong counts and anything still open, closed slots hold the length of exactly the bytes written for them, nested or disjoint in slot order, and open ones are 0 |
| ObjFmtLayers.EverySlotReads | objfmt_builder.py:61-68 | at any such moment, when what is closed is well formed, each closed slot's stretch is read as one field with its number |
| EncodedDecks.VarintRoundTrip | encoded_decks.py:11-15 | a varint is decodable in front of anything |
| EncodedDecks.CStringRoundTrip | encoded_decks.py:17-20 | a length-prefixed string is decodable in front of anything |
| EncodedDecks.GuidInvolution | encoded_decks.py:22-32 | the byte shuffle of a GUID undoes itself |
| EncodedDecks.GuidReads | encoded_decks.py:22-32 | a written GUID is read back |
| EncodedDecks.CardReads | encoded_decks.py:43-51 | a card entry with its gems is read back |
| EncodedDecks.TemplateReads | encoded_decks.py:34-57 | a deck template is read back, whatever follows |
| EncodedDecks.DeckReads | encoded_decks.py:119-133 | a deck record with its length-framed template is read back |
| EncodedDecks.DeltasRead | encoded_decks.py:68-73 | delta-coded ascending ids are read back |
| EncodedDecks.SortedIds | encoded_decks.py:68-68 | the sorted ids are ascending and the same multiset |
| EncodedDecks.GroupReads | encoded_decks.py:59-73 | a card group is read back with its ids sorted |
| EncodedDecks.DecodeEncode | encoded_decks.py:116-141 | a whole payload decodes to the same decks and groups |
| DeckEncoder.WriteVarint | encoded_decks.py:11-15 | the shifting loop appends exactly the varint |
| DeckEncoder.WriteCString | encoded_decks.py:17-20 | appends length and bytes |
| DeckEncoder.WriteCard | encoded_decks.py:43-51 | appends exactly the card entry |
| DeckEncoder.WriteTemplate | encoded_decks.py:34-57 | appends exactly the template |
| DeckEncoder.WriteDeltas | encoded_decks.py:69-73 | the loop over `prev` appends exactly the deltas |
| DeckEncoder.WriteGroup | encoded_decks.py:59-73 | appends exactly the group |
| DeckEncoder.WriteDeck | encoded_decks.py:119-133 | appends the template framed by its length, and the fixed fields |
| DeckEncoder.CollectDecks | encoded_decks.py:79-114 | collects every deck's owned cards and enters each in its group |
| DeckEncoder.GroupsHoldAllCopies | encoded_decks.py:95-103 | every owned card of every deck is in exactly the group of its kind, in order, and no kind has two groups |
| DeckEncoder.StoredGroupsHoldAllCopies | encoded_decks.py:135-139 | sorting the groups by key and each by id moves no copy to another kind and splits none |
| DeckEncoder.EncodeEncodedDecks | encoded_decks.py:75-141 | the payload decodes to the collected decks and to at most one group per kind, which holds exactly the owned copies of that kind in all decks, sorted; every deck has its own name, champion, sleeve, board, coin and id back, and a card for each owned one |
| DeckEncoder.DeckCarried | encoded_decks.py:81-114 | a deck carries each field where it belongs, one copy of each owned card in order with its kind and flag, and the gems that are set |
| TurnPhases.BuiltList | battle_engine.py:141-165 | the built list has, at every position, the phase that flag and number of extra combats prescribe |
| TurnPhases.CombatStepInSequence | battle_engine.py:141-165 | every combat step lies in a complete run of eight steps closed by its own second main phase |
| TurnPhases.SkipLosesNoCombat | battle_engine.py:403-414 | skipping from a combat step to the second main phase ends at the one that closes its own run, so no later combat is lost |
| TurnPhases.ExtraEntriesKeepCursor | battle_engine.py:155-165 | with the flag unchanged, more entries move no phase up to the last second main phase, and the rest by nine each |
| TurnPhases.ReadyFlagMovesCursor | battle_engine.py:147-148 | raising the flag keeps the phase under a cursor if and only if the cursor is within the first five phases; otherwise it moves by eight |
| BattleTurns.BattleState.TurnPhases | battle_engine.py:348-354 | the list is built and stored when missing |
| BattleTurns.BattleState.CurrentPhase | battle_engine.py:357-360 | the phase under the cursor, modulo the list's length |
| BattleTurns.BattleState.NextTurnPlayer | battle_engine.py:363-375 | a marker of the current side keeps the turn and is used up; any other marker stays |
| BattleTurns.BattleState.AdvancePhase | battle_engine.py:378-400 | moves the cursor on, or hands the turn over with a rebuilt list and no extra combats; both passes are cleared |
| BattleTurns.BattleState.SkipToPhase | battle_engine.py:403-414 | moves to the first such phase at or ahead of the cursor, and leaves the cursor alone when there is none |
| BattleTurns.RunClosedForm | battle_engine.py:378-400 | any number of passes: the current turn takes exactly the rest of its list and later turns their whole list, the number rises by one per turn, and the player alternates except at the one hand-over that a marker keeps |
| BattleTurns.EveryRun | battle_engine.py:363-400 | from a list built for the flag, or for a lowered one as an attacking AI leaves it, over every run with passes, AI ends of turn, list rebuilds, granted bonus turns and added combats: the cursor stays in bounds, the player flips once per turn that no marker keeps, and every kept turn uses up one granted marker |
| BattleTurns.OnlyPassesMove | hconnect_server.py:15161-15169 | deciding the flag at Prep or the first main phase, rebuilding the list in a main phase with the combats added meanwhile, and every other event but a pass and the AI's end of turn leave the phase under the cursor as it was, when the list was built for the flag |
| BattleTurns.StaleListMoves | hconnect_server.py:8325-8329 | under a list built for a lowered flag while the flag is up, exactly a rebuild in a second main phase shows another phase |
| BattleTurns.AiLeavesStaleList | ai.py:1560-1566 | an AI turn that ends with its flag up leaves a list not built for the flag; the start of the human turn makes it one |
| BattleTurns.MissingListIsBuilt | battle_engine.py:348-354 | a missing list is built for the flag and the extra combats, and one that is there stays |
| BattleTurns.BonusIsTaken | battle_engine.py:363-375 | a granted bonus turn is taken at the next hand-over of its side, and only then is the marker gone |
| BattleTurns.AddedCombatIsFought | battle_engine.py:149-165 | an extra combat added in a main phase is in the rebuilt list, as one more combat sequence ahead |
| BattleTurns.DecidingRestores | hconnect_server.py:10063-10064 | deciding the flag at Prep or the first main phase sets it and leaves a list built for it |
| AiTurn.RoundProgress | ai.py:1179-1215 | every round keeps the list invariant and comes closer to the end: phases left, then whether a trick can still be played |
| AiTurn.PausesAreInvisible | ai.py:1639-1750 | for any human stops, the phases entered across all resumed calls and the final world equal those of one uninterrupted run |
| AiTurn.CallThenRest | ai.py:1639-1750 | a call followed by the uninterrupted rest is the uninterrupted turn |
| AiTurn.NoDamageWithoutAttackers | ai.py:1184-1215 | corollary of the two skip rules for whole turns: damage and the other late combat steps are entered only with attackers declared, the first-strike steps only with swiftstrike |
| AiTurn.TurnReachesItsEnd | ai.py:1513-1611 | every turn enters EndTurn last and once, or never enters it and ends with a dead champion or an empty deck |
| AiTurn.SkipsOnlyCombat | ai.py:1190-1215 | a skip rule moves the cursor on, past steps of the running combat only |
| AiTurn.EveryPhaseOutsideCombat | ai.py:1113-1782 | behind the first main phase, every phase outside combat still ahead is entered, each once and in order, and one more second main phase if an attack raises the flag; with a champion dead at the end, a beginning of these |
| AiTurn.WholeTurn | ai.py:1113-1782 | every turn enters, outside combat, exactly the phases from StartTurn to EndTurn in order, with one second main phase and one per extra combat, or one more, only when there are extra combats; when cut short, a beginning of these |
| AiTurn.WholeTurnFromStart | ai.py:1113-1782 | a turn from its start enters, outside combat, StartTurn to the first main phase, the second main phases and the end phases as one sequence written out, or a beginning of it when cut short |
| AiTurn.HeldPhase | battle_engine.py:182-205 | the cursor stored at a pause stands for the phase just played if and only if no attack has raised the ready flag in it; one can only with an extra combat pending, and then the cursor stands for the attack window, which the turn passes over |
| AiTurn.RaiseNeedsExtraCombat | ai.py:751-758 | without a pending extra combat no attack raises the flag |
| AiTurn.FlagCanBeRaised | ai.py:751-758 | a concrete game whose turn comes from its start, in seven rounds, to an attack that raises the flag |
| AiTurn.ShownFallsBehind | ai.py:751-758 | the phase index after a round differs from the round's cursor if and only if attackers were declared anywhere but in the first combat; then it is that of the first attack |
| AiCombat.TurnWithCombat | ai.py:1430-1433 | over the whole turn: the phase behind the first main phase is the combat window if and only if a troop can attack when that phase is over, attackers are then declared right behind it, and without one and without extra combats no combat step is entered; how often attackers are declared |
| AiCombat.FirstMainDecides | ai.py:1430-1433 | the same from the first main phase on |
| AiCombat.AttacksEntered | ai.py:1179-1215 | behind the first main phase attackers are declared exactly as often as the list says, and once more when an attack raises the flag |
| AiCombat.ReachesFirstMain | ai.py:1179-1486 | a turn that is not cut short comes to its first main phase through exactly the phases in front of it |
| AiCombat.FirstEntered | ai.py:1179-1215 | from any point on: nothing is entered if and only if a champion is dead, otherwise the phase under the cursor or the one its skip rule asks for |
| AiCombat.EveryStepFollows | ai.py:1190-1215 | over the whole turn, behind a combat step comes the same window, the next step, or exactly what the skip rules ask for |
| AiCombat.TricksArePlayed | ai.py:1434-1452 | a window is entered again exactly when the chain is empty and there is a trick |
| AiCombat.OneTrickAWindow | ai.py:1434-1452 | only windows are entered twice in a row, and none a third time |
| AiCombat.DeckOutEndsTurn | ai.py:1281-1287 | a draw from an empty deck ends the turn there, and any other draw does not |
| AiCombat.CombatKinds | ai.py:1184-1215 | which of the eight combat steps are windows, which need attackers and which swiftstrike |
| AiCombat.PausesWhen | ai.py:1639-1750 | the human gets priority for a prompt, an item on the chain, a defense that can be made, or a chosen stop, the three default stops standing for no choice |
| AiCombat.CallKeepsStops | ai.py:1639-1750 | a call never runs past a chosen stop, except a window that a trick repeats or robs of its attackers |
| AiCombat.CallPausesThere | ai.py:1639-1750 | a call pauses only right behind a phase that gives priority |
| AiCombat.DefenseIsOffered | ai.py:1639-1750 | whatever the stops, the declaration of blockers is offered when some troop can block |
| AiTurn.Driver.PlayRound | ai.py:1179-1486 | one round: death, the two skip rules, entry, a trick that repeats the phase, or the phase's action; the next cursor, and the phase index, which declared attackers set back to the first attack |
| AiTurn.Driver.RunAiTurn | ai.py:1113-1782 | the loop enters what one call prescribes and, when it pauses, stores the cursor from which the next call goes on; the phase index is set to the phase played when it pauses at a stop |
| AiTurn.Driver.PlayTurn | hconnect_server.py:15052-15059 | passing at every pause and resuming from the stored cursor plays exactly the uninterrupted turn and leaves no cursor behind |
| SharedConnection.StepKeepsLock | db.py:385-561 | every step keeps lock depth equal to outstanding leases plus the owner's open blocks |
| SharedConnection.StepKeepsLog | db.py:385-561 | every step keeps the history free of foreign events inside a lease |
| SharedConnection.RunIsSafe | db.py:373-561 | both hold after every interleaving of thread steps |
| SharedConnection.ExecuteAndFetchAreAtomic | db.py:411-461 | between a result-bearing execute and the end of its lease no other thread does anything on the connection |
| SharedConnection.LeaseEndsAfterUse | db.py:394-473 | a lease ends right after a use of its cursor, unless the cursor is discarded |
| SharedConnection.LeaseEndsOnce | db.py:394-409 | a lease is given up never twice, and once as soon as it is not held |
| SharedConnection.DropEndsLease | db.py:394-409 | discarding a cursor ends its lease there and then: the lock is one less deep, and free if this was all that held it |
| SharedConnection.DoneIsFree | db.py:385-473 | a thread in no operation that has used or discarded each of its result-bearing cursors holds no lease and not the lock |
| SharedConnection.StepsAreTold | db.py:385-561 | each successful execute, use and discard is in the history, and no other is |
| SharedConnection.LogIsComplete | db.py:385-561 | the history shows every operation of every thread in order |
| SharedConnection.BlockedBySomeone | db.py:515-561 | a thread that cannot enter is kept out by another thread's lease or open block |
| SharedConnection.LockIsFreed | db.py:385-561 | no deadlock: from every reachable state the lock's owner alone, by finishing what it has begun, frees the lock, in a bounded number of steps |
| SharedConnection.FinishingEnds | db.py:385-561 | whichever finishing steps are taken, there are no more of them than remain |
| SharedConnection.OwnerGoesOn | db.py:385-561 | whoever has the lock has a step enabled that finishes a block or a lease |
| DeckInsertion.DeckTable.Place | db.py:2783-2791 | the cards get the positions 0 to n-1 in their new order |
| DeckInsertion.DeckTable.InsertOne | db.py:2726-2756 | the single card goes to the slot drawn among the others; nothing changes without deck or card |
| DeckInsertion.DeckTable.InsertMany | db.py:2757-2793 | the new order is a permutation, the chosen cards stand at exactly the drawn slots in shuffled order, the others keep their order, and the chosen ones are returned in deck order |
| DeckInsertion.Merge | db.py:2766-2778 | walking the places fills each one, and the remaining cards never run out |
| DeckInsertion.RoomLeft | db.py:2774-2778 | slots that all lie behind a place leave a remaining card for it |
| DeckInsertion.OneCardMoves | db.py:2740-2744 | the single-card order is the deck with the card taken out and put in at one place |
| DeckInsertion.EveryOrderReachable | db.py:2762-2778 | every permutation that keeps the order of the other cards is the only outcome of some shuffles |
| IssueLink.IssueUrl | commands.py:477-506 | the link has at most 7500 characters and holds the whole report, or the longest prefix that fits, inside its block |
| IssueLink.IssueCommand | commands.py:509-522 | whatever title and report, the reply is a link within the limit whose report stays inside its block, or the usage exactly for a blank title |
| IssueLink.BuiltFields | commands.py:484-490 | read as a form, the link has the title in its title field and the text of the issue in its body field |
| IssueLink.NeutralizedKeepsText | commands.py:486-486 | the replacement of fences changes nothing but zero-width spaces |
| IssueLink.StripCuts | commands.py:511-511 | exactly the spaces around the title are cut |
| IssueLink.IssueTitle | commands.py:514-516 | the title has at most 256 characters, and a cut one is its first 253 characters without the spaces at their end, and an ellipsis |
| IssueLink.CutGrows | commands.py:494-506 | a longer prefix never gives a shorter link, despite stripping and fence replacement |
| IssueLink.EncodedGrows | commands.py:484-489 | the encoded size is monotone although an added backtick can complete a fence |
| IssueLink.NeutralizedJoined | commands.py:484-489 | no fence reaches across text that begins with another character |
| IssueLink.EncodedIsInert | commands.py:488-489 | an encoded title or body holds no character that could end its field |
| IssueLink.EncodedDecodes | commands.py:488-489 | an encoded title or body decodes to exactly its UTF-8 bytes |
| Bytes.Utf8RoundTrip | commands.py:488-489 | the UTF-8 bytes of a text stand for its characters |
| IssueLink.ReportStaysInside | commands.py:480-489 | for every report, whole or cut, the only fence on a line behind the opening one is the suffix, so the report stays inside its block |
| IssueLink.FenceIsMidLine | commands.py:486-486 | a fence left in a neutralized report follows a backtick or the inserted zero-width space |
| IssueLink.FenceSurvivesIff | commands.py:484-487 | a row of three backticks is left somewhere in the report if and only if it has five in a row; none is left in front |
| CombatDamage.DamageThrough | ai_eval.py:1261-1290 | the damage through is 0 past an immortal blocker, else what the blockers' total defense leaves; the attacker dies exactly if a blocker it meets is strong enough; the value gained is that of the blockers it clears |
| CombatDamage.LossJoined | ai_eval.py:1261-1290 | worth and defense add up over the blockers |
| CombatDamage.StoppedAt | ai_eval.py:1283-1289 | once a blocker stops the attacker nothing gets through, whoever stands behind |
| CombatDamage.ThroughOrderFree | ai_eval.py:1261-1290 | the damage through does not depend on the order of the blockers |
| CombatDamage.MoreBlockersLessDamage | ai_eval.py:1261-1290 | an added blocker never lets more damage through |
| CombatDamage.OrderDecidesLosses | ai_eval.py:1274-1289 | which blockers are destroyed does depend on their order |
| WeightedChoice.Subtract | az1_pack.py:121-126 | the loop returns the first entry whose running total exceeds the roll, and never gets past its end |
| WeightedChoice.Choose | az1_pack.py:116-126 | an error exactly without positive total, otherwise the selected entry |
| WeightedChoice.InverseCdf | az1_pack.py:116-126 | an entry is chosen if and only if the roll lies in its cumulative interval; only one is, and never one without weight |
| WeightedChoice.EveryWeightCounts | az1_pack.py:116-126 | every entry with weight is chosen by some roll |
| CampaignPack.FillSlot | az1_pack.py:270-281 | a slot holds exactly one thing, the equipment or stardust its draws select, or reports the pool that is missing |
| CampaignPack.FillSlots | az1_pack.py:269-281 | the two slots in order: the contents of both, or the error of the first one whose drawn pool is missing |
| CampaignPack.SlotsInOrder | az1_pack.py:269-281 | what a slot holds comes behind what the slots before it hold |
| CampaignPack.PackShape | az1_pack.py:230-286 | the commons are those of the two places drawn, which differ, and the third card is that of the place drawn in the pool of its rarity |
| CampaignPack.Generate | az1_pack.py:230-286 | a pack has two commons from different places and one card of the drawn rarity, and two slot contents; it fails exactly when there are fewer than two commons, else when the drawn rarity has no card, else when a slot draws an empty equipment pool or stardust without weight, each with its own error and in this order; never when all pools are stocked |

## Left out

- The native RulesPort branches of `run_ai_turn` and everything in `rules_port`, which the modelled code only calls.
- SQL, JSON persistence, packets, logging, sleeping and real thread scheduling; rows are sequences and maps, the lock is explicit state.
- The scoring of cards and attacks: card values, `worth_blocking` and `alpha_strike_wins` are heuristics without a guarantee to state.
- ObjFmtBuilder.Builder.FieldStr: names, types and texts are byte strings; their UTF-8 encoding is the caller's.
- `field_struct_raw`, and the card, chest and inventory groups, which are fixed sequences of modelled fields.
- ObjFmtBuilder.Builder.FieldUlong: the range errors that packing raises for numbers too large appear as preconditions.
- ObjFmtBuilder.Builder.Finish: decoding is stated for root counts up to 99 that match the fields, since a larger count damages the first field (`ObjFmtRoundTrip.RootCountFits`).
- EncodedDecks.GuidReads: a GUID is its 16 bytes; parsing its text, and the empty GUID for a missing one, are not modelled.
- DeckEncoder.EncodeEncodedDecks: the order of group keys is a parameter, and the JSON in the stored decks is already parsed.
- BlockPlanner.PlanBlocks: troop records stand for the uids that key the source's dictionaries, so records in play are distinct.
- BlockerMatching.NeedsMoreBlockingTroops: uids are numbers already; entries that are not are skipped by the source.
- BoardStack.Evaluator.BestStack: values are reals; the depth cap is the source's five, not the client's.
- AiTurn.PausesAreInvisible: the number of extra combats is fixed during the AI's turn, and a bonus turn starts a new one; settling prompts and chain items is one step of the world.
- AiTurn.HeldPhase: cursors that are no numbers, which the source ignores, do not occur.
- SharedConnection.RunIsSafe: threads use only cursors they created, and a discarded cursor is finalized by its own thread.
- DeckInsertion.DeckTable.InsertMany: that shuffles are uniform is not stated, only which orders can come out.
- CampaignPack.Generate: the metadata filters that build the pools are not modelled.
- CombatDamage.DamageThrough: attack and defense are the clamped values the cards report.
- Debug cheats, other chat commands, plugins, account, mail and tournament code: easy members or untyped I/O.
