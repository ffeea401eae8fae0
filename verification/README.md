# Vowpal Wabbit: the automl ChaCha scheduler and the text and CSV line parsers

This project is a Dafny model of two cores of Vowpal Wabbit, with proofs about them.

**The ChaCha scheduler** is the champion/challenger scheduler of the `automl` reduction. Its state has three parts:
- a catalogue of exclusion configs, each with a lease and a state (New, Live, Inactive, Removed);
- one pair of estimators per live slot, where slot 0 is the champion;
- a priority queue of candidate configs.

The model covers these source routines:
- `interaction_config_manager`'s constructor, `swap_eligible_to_inactivate`, `schedule`, `better` and `update_champ`;
- the `automl` driver `one_step` and the estimator updates of `offset_learn`.

The weight arena is tracked only as a map from slot to weight-block identity.

**The line parsers** turn one input line into an example:
- The text-format parser covers `read_features`, the recursive-descent `TC_parser`, the label and tag split of `substring_to_example`, `read_line` and `read_lines`. Derived spelling and affix features are included.
- The CSV reader covers `parse_csv`, `read_line`, `split`, label-index resolution, the header/row arity check and feature emission.

Modules:

| file | module | contents |
|---|---|---|
| `base.dfy` | `Base` | `Option`, `Result` (with `:-`), spans into a line, floats as real-or-NaN |
| `line_reader.dfy` | `LineReader` | `io_buf::readto` and the BOM / `\n` / `\r` trimming both readers share |
| `text_utils.dfy` | `TextUtils` | `VW::tokenize` with empty pieces dropped |
| `features.dfy` | `Features` | the example: feature lists per namespace, `indices`, tag, label input |
| `derived_features.dfy` | `DerivedFeatures` | spelling strings and affix decoding |
| `text_parser.dfy` | `TextParser` | `TC_parser` |
| `text_example.dfy` | `TextExample` | `substring_to_example`, `read_features_string`, `read_line`, `read_lines` |
| `csv_split.dfy` | `CsvSplit` | `parser::split` |
| `csv_parser.dfy` | `CsvParser` | the rest of the CSV reader |
| `chacha_types.dfy` | `ChachaTypes` | configs, estimators, queue, weights, the manager and its invariant `Valid` |
| `chacha_schedule.dfy` | `ChachaSchedule` | `swap_eligible_to_inactivate`, `schedule` |
| `chacha_champ.dfy` | `ChachaChamp` | `better` scan and promotion of `update_champ` |
| `chacha_driver.dfy` | `ChachaDriver` | `offset_learn`, `one_step` |

Services whose code is not part of this model are parameters: function-typed fields of `ChachaEnv`, `TextEnv` and `CsvEnv`. Their contracts are stated as subset types of the arrow types. They are:
- the hash functions, `parseFloat` and `std::stof`;
- the config oracle's `choose`, `repopulate_index_queue` and `do_work`;
- `gen_interactions`, `count_namespaces`, `worse`;
- the confidence bounds;
- the learner.

Three modelling choices hold throughout:
- The `uint64_t` arithmetic whose wrap-around matters is modelled with it: leases are `Base.U64` values (below 2^64), a lease doubling is taken mod 2^64, and hashes are `bv64`.
- A `parserWarning` in strict mode is a `Failure`.
- A `THROW` is a `Failure`.

## Model

| member | source | states |
|---|---|---|
| ChachaTypes.MakeConfig | vowpalwabbit/core/src/reductions/details/automl_impl.h:58-65 | a new exclusion config has no exclusions, the given lease, and state New |
| ChachaTypes.DoubleLease | vowpalwabbit/core/src/reductions/details/automl/automl_impl.cc:126 | `lease *= 2` on a uint64: twice the lease below 2^63, wrapped past 2^64 above it, always below 2^64 |
| ChachaTypes.FreshEstimator | vowpalwabbit/core/src/reductions/details/automl/automl_impl.cc:148-149 | a reset estimator keeps alpha and tau and has update count 0 |
| ChachaTypes.Update | vowpalwabbit/core/src/reductions/details/automl_impl.h:272 | an update adds exactly one observation `(w, r)` after the old ones and keeps alpha and tau |
| ChachaTypes.FreshAml | vowpalwabbit/core/src/reductions/details/automl_impl.h:33-44 | a new aml estimator has fresh statistics, config index 0, is not eligible to inactivate and has no interactions |
| ChachaTypes.AmlFrom | vowpalwabbit/core/src/reductions/details/automl_impl.h:34-41 | the four-argument constructor copies the statistics of `sc` and sets exactly config index, eligibility and interactions to the given values |
| ChachaTypes.MoveBlock | vowpalwabbit/core/src/reductions/details/automl/automl_impl.cc:153 | a weight move gives the target slot the source's block and leaves every other slot's block alone |
| ChachaTypes.SwapBlocks | vowpalwabbit/core/src/reductions/details/automl/automl_impl.cc:199 | a swapping move exchanges the two slots' blocks and leaves every other slot's block alone |
| ChachaTypes.FreshSlot | vowpalwabbit/core/src/reductions/details/automl/automl_impl.cc:139-140 | a new slot holds a fresh aml estimator and a fresh champion estimator with the configured alpha and tau |
| ChachaTypes.NewManager | vowpalwabbit/core/src/reductions/details/automl/automl_impl.cc:79-83 | the constructed manager satisfies the invariant, has exactly one config (Live, global lease) and one fresh estimator pair bound to it, an empty queue, and valid config size 1 |
| ChachaSchedule.FirstCandidate | vowpalwabbit/core/src/reductions/details/automl/automl_impl.cc:90-96 | the first slot at or after `from` that is not eligible, is not the champion and is beaten by slot `s`; `None` exactly when there is none |
| ChachaSchedule.SwapEligibleToInactivate | vowpalwabbit/core/src/reductions/details/automl/automl_impl.cc:86-103 | returns true iff some candidate slot exists; then it is never slot 0, it becomes eligible, slot `s` becomes not eligible, and no other slot changes; on false nothing changes |
| ChachaSchedule.DropRemoved | vowpalwabbit/core/src/reductions/details/automl/automl_impl.cc:132-134 | pops exactly the Removed entries at the top of the queue: what is left is a suffix of the queue whose head is not Removed |
| ChachaSchedule.RemoveAt | vowpalwabbit/core/src/reductions/details/automl/automl_impl.cc:150 | `choose` takes out exactly the chosen entry: the queue shrinks by one and loses that entry as a multiset |
| ChachaSchedule.Assign | vowpalwabbit/core/src/reductions/details/automl/automl_impl.cc:137-155 | the assignment appends a slot only when `s` is one past the end, keeps every index in range, and leaves counters and namespace counts alone |
| ChachaSchedule.AssignSlot | vowpalwabbit/core/src/reductions/details/automl/automl_impl.cc:139-155 | the slot gets the chosen config with both estimators reset and regenerated interactions; the queue loses exactly the chosen entry; a new slot above `priority_challengers` starts eligible |
| ChachaSchedule.AssignConfig | vowpalwabbit/core/src/reductions/details/automl/automl_impl.cc:144-152 | the chosen config becomes Live, the displaced one goes Live to Inactive and never to Removed, every other config and every lease stay as they were |
| ChachaSchedule.AssignOthers | vowpalwabbit/core/src/reductions/details/automl/automl_impl.cc:148-153 | no other slot changes, and the slot gets a copy of the champion's weight block |
| ChachaSchedule.Candidates | vowpalwabbit/core/src/reductions/details/automl/automl_impl.cc:131-135 | there is no candidate iff the queue without removed heads is empty and the oracle cannot refill it; a refill only appends configs and gives a non-empty in-range queue |
| ChachaSchedule.Reassign | vowpalwabbit/core/src/reductions/details/automl/automl_impl.cc:131-155 | without a candidate the slot, its estimators and every config are untouched; with one the slot is assigned |
| ChachaSchedule.ReassignValid | vowpalwabbit/core/src/reductions/details/automl/automl_impl.cc:109-151 | reassignment keeps the invariant; it appends a slot only when the slot is one past the end, so, given a refill oracle whose failed call keeps failing within one `schedule`, `estimators[live_slot]` after `emplace_back` is in range |
| ChachaSchedule.ReassignKeeps | vowpalwabbit/core/src/reductions/details/automl/automl_impl.cc:144-152 | reassignment changes no lease and never moves a config to Removed |
| ChachaSchedule.DoubleSlotLease | vowpalwabbit/core/src/reductions/details/automl/automl_impl.cc:126 | only the slot's config lease changes, and it is doubled |
| ChachaSchedule.LiveStep | vowpalwabbit/core/src/reductions/details/automl/automl_impl.cc:123-155 | the step for a due Live slot keeps the invariant, the slot count and the counters |
| ChachaSchedule.LiveStepOutcome | vowpalwabbit/core/src/reductions/details/automl/automl_impl.cc:123-129 | a slot that is not eligible, or whose swap succeeds, keeps its config and both estimators with only the lease doubled; otherwise it is reassigned after the doubling |
| ChachaSchedule.LiveLeaseDoubled | vowpalwabbit/core/src/reductions/details/automl/automl_impl.cc:123-126 | the lease of a due Live config is doubled exactly once, whether or not the slot keeps it |
| ChachaSchedule.ScheduleSlot | vowpalwabbit/core/src/reductions/details/automl/automl_impl.cc:109-157 | one loop iteration keeps the invariant, grows the estimators only by appending slot `s`, and never shrinks the catalogue |
| ChachaSchedule.NotDueUntouched | vowpalwabbit/core/src/reductions/details/automl/automl_impl.cc:118-120 | a slot whose config is not Removed and whose lease is not used up is left entirely alone |
| ChachaSchedule.ScheduleSlotKeeps | vowpalwabbit/core/src/reductions/details/automl/automl_impl.cc:109-157 | one iteration never moves a config to Removed |
| ChachaSchedule.ScheduleFrom | vowpalwabbit/core/src/reductions/details/automl/automl_impl.cc:109-158 | the rest of the loop keeps the invariant, estimators never shrink and never exceed `max_live_configs` |
| ChachaSchedule.Schedule | vowpalwabbit/core/src/reductions/details/automl/automl_impl.cc:107-159 | `schedule` keeps the invariant, never removes a slot and leaves the counters alone |
| ChachaSchedule.ScheduleFromNeverRemoves | vowpalwabbit/core/src/reductions/details/automl/automl_impl.cc:109-158 | `schedule` never moves a config to Removed: only `update_champ` does |
| ChachaSchedule.BetterAsymmetric | vowpalwabbit/core/src/reductions/details/automl/automl_impl.cc:161-165 | without `lb_trick`, with ordered bounds, two estimators never each beat the other |
| ChachaSchedule.BetterLbTrickSymmetric | vowpalwabbit/core/src/reductions/details/automl/automl_impl.cc:161-165 | under `lb_trick` the challenger wins iff the two lower bounds add up to more than 1, so the test is symmetric |
| ChachaSchedule.DueStaysDue | vowpalwabbit/core/src/reductions/details/automl/automl_impl.cc:118-120 | a slot due for a new config stays due after one more update of its challenger |
| ChachaChamp.LastBetter | vowpalwabbit/core/src/reductions/details/automl/automl_impl.cc:161-182 | reference winner: the highest challenger slot that beats the champion, `None` iff none does |
| ChachaChamp.ScanFrom | vowpalwabbit/core/src/reductions/details/automl/automl_impl.cc:174-187 | the scan keeps the catalogue's size |
| ChachaChamp.ScanFindsLast | vowpalwabbit/core/src/reductions/details/automl/automl_impl.cc:174-182 | the scan's winner is the last qualifying slot in scan order |
| ChachaChamp.ScanMarks | vowpalwabbit/core/src/reductions/details/automl/automl_impl.cc:183-186 | config `j` is marked Removed iff `worse()` holds and a scanned slot holding it loses; no other config changes |
| ChachaChamp.ScanIgnoresChamp | vowpalwabbit/core/src/reductions/details/automl/automl_impl.cc:176 | slot 0 is never compared: changing it changes neither winner nor removals |
| ChachaChamp.DoWork | vowpalwabbit/core/src/reductions/details/automl/automl_impl.cc:239 | the oracle's work only grows the catalogue and leaves an in-range queue, estimators, weights and counters untouched |
| ChachaChamp.DoWorkValid | vowpalwabbit/core/src/reductions/details/automl/automl_impl.cc:239 | the oracle's work keeps the invariant |
| ChachaChamp.Promote | vowpalwabbit/core/src/reductions/details/automl/automl_impl.cc:199-238 | one more champion switch, an empty queue, two slots, valid size 2; configs 0 and 1 are the winner's and the old champion's; slot 1 keeps its index, flag and interactions and takes the two horizons' statistics crosswise, reset under `lb_trick`; the weight blocks move as the comment at lines 190-197 describes |
| ChachaChamp.UpdateChamp | vowpalwabbit/core/src/reductions/details/automl/automl_impl.cc:167-241 | `update_champ` keeps the invariant and the learn count |
| ChachaChamp.UpdateChampOutcome | vowpalwabbit/core/src/reductions/details/automl/automl_impl.cc:167-241 | the champion changes iff some challenger beats it, the winner is the last one, and without a winner only the removals happen |
| ChachaChamp.PromoteKeepsWinnerState | vowpalwabbit/core/src/reductions/details/automl/automl_impl.cc:206-210 | the new champion slot points to config 0, which is the winner's config with its state and lease, Removed included |
| ChachaDriver.ImportanceWeight | vowpalwabbit/core/src/reductions/details/automl_impl.h:251 | the weight is the inverse of a positive probability and 0 otherwise |
| ChachaDriver.MatchWeight | vowpalwabbit/core/src/reductions/details/automl_impl.h:272-284 | an update is weighted by the importance weight exactly when the prediction matches the labelled action, else by 0 |
| ChachaDriver.PassSlot | vowpalwabbit/core/src/reductions/details/automl_impl.h:263-270 | each iteration of the challenger loop learns on a challenger slot, never the champion |
| ChachaDriver.UpdateChallenger | vowpalwabbit/core/src/reductions/details/automl_impl.h:272 | only the slot's challenger statistics change, by one update |
| ChachaDriver.Challenged | vowpalwabbit/core/src/reductions/details/automl_impl.h:263-273 | reference definition of the challenger loop: slots in the interval are trained once, the others are untouched |
| ChachaDriver.Visit | vowpalwabbit/core/src/reductions/details/automl_impl.h:271-272 | one iteration succeeds iff the learner does not throw on its slot |
| ChachaDriver.PassKeepsBindings | vowpalwabbit/core/src/reductions/details/automl_impl.h:263-273 | the challenger loop changes no slot's config, eligibility or interactions |
| ChachaDriver.PassMatches | vowpalwabbit/core/src/reductions/details/automl_impl.h:263-273 | the loop from any iteration on computes the reference result of the slots still to visit |
| ChachaDriver.ChallengerPassCorrect | vowpalwabbit/core/src/reductions/details/automl_impl.h:263-273 | the challenger loop throws iff some challenger's learning throws, and otherwise updates each challenger slot exactly once, in either order |
| ChachaDriver.ChampPass | vowpalwabbit/core/src/reductions/details/automl_impl.h:278-285 | every non-champion slot's champion estimator gets one update with the champion's match and `r` (or `1 - r` under `lb_trick`); slot 0 and every challenger estimator are unchanged |
| ChachaDriver.Restored | vowpalwabbit/core/src/reductions/details/automl_impl.h:244-260 | on exit every example points to the incoming interactions, so unchanged views stay unchanged |
| ChachaDriver.OffsetLearn | vowpalwabbit/core/src/reductions/details/automl_impl.h:242-287 | the interactions are restored on success and on a throw; learning changes only estimators and no slot binding |
| ChachaDriver.Learned | vowpalwabbit/core/src/reductions/details/automl_impl.h:251-286 | reference definition: slot 0 untouched; every other slot's challenger updated once with its own match and `-cost`, and its champion estimator once with the champion's match |
| ChachaDriver.PassesCompose | vowpalwabbit/core/src/reductions/details/automl_impl.h:263-286 | the champion loop run after the full challenger loop gives the reference definition |
| ChachaDriver.OffsetLearnUpdates | vowpalwabbit/core/src/reductions/details/automl_impl.h:242-287 | `offset_learn` succeeds iff no learner call throws, and then leaves exactly the reference estimators |
| ChachaDriver.LearningOrderIrrelevant | vowpalwabbit/core/src/reductions/details/automl_impl.h:266-270 | under this model's learner, which is pure and whose throw discards every update, `debug_reverse_learning_order` does not change what `offset_learn` computes |
| ChachaDriver.ChallengerPass | vowpalwabbit/core/src/reductions/details/automl_impl.h:263-273 | the challenger loop keeps the slot count and never touches slot 0 |
| ChachaDriver.ChampRewardInvolutive | vowpalwabbit/core/src/reductions/details/automl_impl.h:281 | `1 - r` under `lb_trick` is its own inverse and reverses the order of rewards; without it the reward is unchanged |
| ChachaDriver.Observe | vowpalwabbit/core/src/reductions/details/automl_impl.h:203-231 | the learn count goes up by one; interactions of every slot are regenerated iff a new namespace was seen, and nothing else changes |
| ChachaDriver.NewAutoml | vowpalwabbit/core/src/reductions/details/automl_impl.h:187 | a new automl is Collecting with a freshly constructed, valid manager |
| ChachaDriver.OffsetLearnValid | vowpalwabbit/core/src/reductions/details/automl_impl.h:242-287 | learning keeps the manager invariant |
| ChachaDriver.Collect | vowpalwabbit/core/src/reductions/details/automl_impl.h:217-219 | the Collecting branch runs the oracle and learning, keeps the invariant, switches no champion, and moves to Experimenting |
| ChachaDriver.Experiment | vowpalwabbit/core/src/reductions/details/automl_impl.h:232-234 | the Experimenting branch runs schedule, learning and update_champ, keeps the invariant, and stays in Experimenting |
| ChachaDriver.OneStep | vowpalwabbit/core/src/reductions/details/automl_impl.h:201-240 | every successful step counts once, ends in Experimenting and keeps the invariant; from Collecting no champion switch happens |
| ChachaDriver.LearnCountAfter | vowpalwabbit/core/src/reductions/details/automl_impl.h:203-235 | after n successful steps the learn count has grown by exactly n and the state is Experimenting |
| ChachaDriver.Steps | vowpalwabbit/core/src/reductions/details/automl_impl.h:201-240 | any run of steps keeps the manager invariant |
| LineReader.ReadTo | vowpalwabbit/core/src/parse_example.cc:25 | the chunk and the rest make up the buffer; the chunk ends at the first newline or at end of input |
| LineReader.ReadToLine | vowpalwabbit/core/src/parse_example.cc:25 | `readto` stops at the first newline, whatever follows it |
| LineReader.BomLen | vowpalwabbit/core/src/parse_example.cc:28-32 | the byte-order-mark step removes 0 or 3 bytes |
| LineReader.TrimLine | vowpalwabbit/core/src/parse_example.cc:26-34 | the trimmed view is the slice after the BOM, and what it drops at the end is a line ending: nothing iff the chunk ends in neither `\n` nor `\r`, a lone `\n` only when no `\r` precedes it |
| LineReader.TrimCrLf | vowpalwabbit/core/src/parse_example.cc:33-34 | a CRLF-terminated line loses exactly its terminator |
| LineReader.TrimBomCrLf | vowpalwabbit/core/src/parse_example.cc:28-34 | a leading byte-order mark and a CRLF terminator are both dropped |
| LineReader.TrimOnlyOneNewline | vowpalwabbit/core/src/parse_example.cc:33 | at most one trailing `\n` is dropped |
| LineReader.TrimPlain | vowpalwabbit/core/src/parse_example.cc:26-34 | a line without BOM, `\n` and `\r` is left as it is |
| LineReader.AfterLine | vowpalwabbit/csv_parser/src/parse_example_csv.cc:40-51 | the bytes after the trimmed line are the dropped line ending followed by the unread input; BOM, line and these make up the buffer |
| TextUtils.RunEnd | vowpalwabbit/core/src/parse_example.cc:537 | the end of the maximal delimiter-free run from `i` |
| TextUtils.Tokenize | vowpalwabbit/core/src/parse_example.cc:537 | every token is a non-empty maximal delimiter-free run, in left-to-right order |
| TextUtils.Texts | vowpalwabbit/core/src/parse_example.cc:580-585 | the texts of the tokens, one per token |
| TextUtils.TokensCover | vowpalwabbit/core/src/parse_example.cc:537 | every non-delimiter byte lies inside some token: tokenizing loses nothing |
| Features.PushAll | vowpalwabbit/core/src/parse_example.cc:221-222 | a push appends to the namespace's list only |
| Features.AddIndex | vowpalwabbit/core/src/parse_example.cc:471 | recording a namespace appends it to `indices` and changes no feature list |
| Features.SpaceChannelHash | vowpalwabbit/core/src/parse_example.cc:451 | seed 0 gives channel hash 0, any other seed the seeded hash of the empty name |
| DerivedFeatures.SpellingClass | vowpalwabbit/core/src/parse_example.cc:283-300 | digits map to '0', lower case to 'a', upper case to 'A', '.' to itself, anything else to '#', each iff its class |
| DerivedFeatures.Spelling | vowpalwabbit/core/src/parse_example.cc:280-303 | the spelling has the name's length and maps each byte to its class |
| DerivedFeatures.SpellingIdempotent | vowpalwabbit/core/src/parse_example.cc:281-303 | the spelling of a spelling is itself |
| DerivedFeatures.SpellingCharacterizesShape | vowpalwabbit/core/src/parse_example.cc:281-303 | two names of the same length have the same spelling iff their bytes are class by class the same |
| DerivedFeatures.AffixText | vowpalwabbit/core/src/parse_example.cc:248-256 | the affix is the prefix or suffix of length `min(len, name length)` |
| DerivedFeatures.Affixes | vowpalwabbit/core/src/parse_example.cc:244-273 | the word is decoded 4 bits at a time: bit 0 is the prefix flag, bits 1-3 the length; no affix iff the word is 0 |
| DerivedFeatures.AffixesRoundTrip | vowpalwabbit/core/src/parse_example.cc:244-273 | re-encoding the decoded nibbles gives back the word: none is skipped or invented |
| DerivedFeatures.AffixesCount | vowpalwabbit/core/src/parse_example.cc:244-272 | one affix feature per nibble up to the highest non-zero one |
| DerivedFeatures.AffixCodeIsNibble | vowpalwabbit/core/src/parse_example.cc:244-272 | the k-th decoded code is the low nibble of the word shifted right by 4k bits |
| DerivedFeatures.AffixAt | vowpalwabbit/core/src/parse_example.cc:244-256 | the k-th affix takes its prefix flag from bit 0 and its length from bits 1-3 of the k-th nibble |
| TextParser.Warn | vowpalwabbit/core/src/parse_example.cc:86-108 | a warning fails in strict mode and otherwise continues with the value |
| TextParser.NameEnd | vowpalwabbit/core/src/parse_example.cc:161-169 | `read_name` takes the maximal run without space, ':', tab, bar or `\r`, and the index advances by its length |
| TextParser.NameEndIsValueStart | vowpalwabbit/core/src/parse_example.cc:161-169 | after a name the parser stands at a field end or at ':' |
| TextParser.StringFeatureValue | vowpalwabbit/core/src/parse_example.cc:110-123 | skips leading whitespace and returns the token up to the next whitespace; the index advances by both lengths |
| TextParser.IsFeatureValueFloat | vowpalwabbit/core/src/parse_example.cc:125-159 | at a field end (no ':') the value is 1; after ':' an unparsable float is a string value, a parsed float its own value, and NaN becomes 0 with a warning |
| TextParser.ReadFeatureText | vowpalwabbit/core/src/parse_example.cc:181-195 | the name is what `read_name` reads; without ':' the value is the namespace value; a string value gives value 1 |
| TextParser.FeatureHash | vowpalwabbit/core/src/parse_example.cc:197-215 | string values use the chain hash, named floats the name's hash, anonymous floats `channel_hash + anon` with the counter advanced |
| TextParser.ReadFeatureToken | vowpalwabbit/core/src/parse_example.cc:181-215 | a feature token carries the hash and counter the hash rules give |
| TextParser.AffixFeatures | vowpalwabbit/core/src/parse_example.cc:244-273 | one affix feature per decoded affix |
| TextParser.AffixFeatureHashes | vowpalwabbit/core/src/parse_example.cc:244-272 | the k-th affix feature has the feature's value and hashes the k-th nibble's prefix or suffix with the channel hash, times `affix_constant + nibble * quadratic_constant` |
| TextParser.PushDerived | vowpalwabbit/core/src/parse_example.cc:240-241 | a derived push appends to its namespace and records it in `indices` iff the namespace was empty |
| TextParser.PushDerivedInNamespace | vowpalwabbit/core/src/parse_example.cc:240-241 | a derived push keeps `indices` consistent and keeps the current namespace's features |
| TextParser.PushCurrentInNamespace | vowpalwabbit/core/src/parse_example.cc:221-222 | a push into the current namespace keeps `indices` consistent |
| TextParser.EmitAffixes | vowpalwabbit/core/src/parse_example.cc:238-274 | affix features only append and keep `indices` consistent |
| TextParser.EmitSpelling | vowpalwabbit/core/src/parse_example.cc:275-320 | with spelling on, the last spelling feature hashes the name's spelling with the feature's value |
| TextParser.PushDerivedPrefix | vowpalwabbit/core/src/parse_example.cc:240-241 | a derived push keeps every namespace's old list as a prefix and ends the target with the last pushed feature |
| TextParser.EmitFeature | vowpalwabbit/core/src/parse_example.cc:217-320 | a zero value pushes nothing; otherwise the feature is appended to the current namespace, followed by its derived features |
| TextParser.MaybeFeature | vowpalwabbit/core/src/parse_example.cc:171-354 | at a field end nothing happens; otherwise exactly one feature token is read and emitted, the call fails iff reading it fails, and only the example, index and counter change |
| TextParser.ListFeatures | vowpalwabbit/core/src/parse_example.cc:416-430 | agrees with the reference token loop `FeatureTokens`: succeeds iff every token reads, leaves the counter past the anonymous ones and the example their emissions give; in strict mode the list ends at end of line, a bar or `\r` |
| TextParser.TokensAnonymous | vowpalwabbit/core/src/parse_example.cc:212-215 | in a successful token run the anonymous tokens hash to `channel_hash + c`, c counting the anonymous tokens before them from the starting counter |
| TextParser.NameSpaceInfoValue | vowpalwabbit/core/src/parse_example.cc:356-389 | an optional ':' float sets the namespace value, NaN giving 1 |
| TextParser.NameSpaceInfo | vowpalwabbit/core/src/parse_example.cc:391-414 | the namespace index is its first byte, redefined when configured; the channel hash is the seeded hash of its name |
| TextParser.NameSpaceBody | vowpalwabbit/core/src/parse_example.cc:439-469 | a namespace without a name is the space namespace, with the seed's channel hash |
| TextParser.NameSpace | vowpalwabbit/core/src/parse_example.cc:432-475 | the namespace is recorded in `indices` iff it went from empty to non-empty, so `indices` stays consistent |
| TextParser.NameSpaceStart | vowpalwabbit/core/src/parse_example.cc:432-451 | the header keeps the example and counter; a namespace without name is the space namespace with the seed's channel hash |
| TextParser.NameSpaceAnonymous | vowpalwabbit/core/src/parse_example.cc:432-475 | the counter restarts at 0 per namespace: the namespace succeeds iff its tokens read, the k-th anonymous float hashes to `channel_hash + k`, and the features are those the tokens emit |
| TextParser.ListNameSpace | vowpalwabbit/core/src/parse_example.cc:477-490 | in strict mode the whole line up to `\r` is consumed; `indices` stays consistent |
| TextParser.TcParse | vowpalwabbit/core/src/parse_example.cc:492-513 | an empty line marks a newline example; parsing never touches label, tag or newline flag |
| TextExample.Find | vowpalwabbit/core/src/parse_example.cc:522-534 | the first position of the byte, `None` iff absent |
| TextExample.LabelRegion | vowpalwabbit/core/src/parse_example.cc:522-535 | the label region is the text before the first bar, after its first tab |
| TextExample.SplitLabel | vowpalwabbit/core/src/parse_example.cc:537-545 | the last token is the tag iff it ends the region or starts with a quote; the other tokens are the label words |
| TextExample.SplitLabelCovers | vowpalwabbit/core/src/parse_example.cc:537-545 | every non-space byte of the region ends up in a label word or the tag |
| TextExample.TrailingSpaceMeansQuotedTag | vowpalwabbit/core/src/parse_example.cc:538-541 | a region ending in a space has a tag only when it is quoted |
| TextExample.TagText | vowpalwabbit/core/src/parse_example.cc:545 | the tag's leading quote is stripped |
| TextExample.LabelPart | vowpalwabbit/core/src/parse_example.cc:518-554 | the newline flag, the appended tag, and the words given to the label parser, or the default label without words |
| TextExample.SubstringToExample | vowpalwabbit/core/src/parse_example.cc:516-564 | an empty line is a newline example; without a bar only label and tag are set; the namespaces never touch label, tag or newline flag |
| TextExample.StripNewlines | vowpalwabbit/core/src/parse_example.cc:570 | every trailing '\n' and nothing else is dropped |
| TextExample.ReadLine | vowpalwabbit/core/src/parse_example.cc:568-572 | a line of only newlines is a newline example with the default label |
| TextExample.ReadFeatures | vowpalwabbit/core/src/parse_example.cc:22-36 | returns the raw byte count, zero only at end of input, and the trimmed view of that chunk |
| TextExample.ReadFeaturesString | vowpalwabbit/core/src/parse_example.cc:38-55 | at end of input 0 is returned and nothing is parsed; otherwise the raw count is returned and an empty line marks a newline example |
| TextExample.ReadLines | vowpalwabbit/core/src/parse_example.cc:576-587 | one example per non-empty line, added when missing, each read as `read_line` reads it; later examples untouched |
| TextExample.ReadEach | vowpalwabbit/core/src/parse_example.cc:581-586 | the loop reads line `i` into example `i` and fails iff some line fails |
| CsvSplit.SkipTrim | vowpalwabbit/csv_parser/src/parse_example_csv.cc:183-189 | `find_first_not_of(trim_list)`: the first byte outside the trim list, or the end |
| CsvSplit.TrimElement | vowpalwabbit/csv_parser/src/parse_example_csv.cc:189-204 | an element loses its leading trim-list bytes and keeps its end: the suffix step removes nothing |
| CsvSplit.SplitElement | vowpalwabbit/csv_parser/src/parse_example_csv.cc:195-204 | the element of a field, empty and placed on the separator after a trailing separator |
| CsvSplit.ElementClean | vowpalwabbit/csv_parser/src/parse_example_csv.cc:188-190 | an element built from a separator-free field holds no separator and starts outside the trim list |
| CsvSplit.SplitFrom | vowpalwabbit/csv_parser/src/parse_example_csv.cc:184-205 | at least one element; every element is a span of the line without separator that starts outside the trim list |
| CsvSplit.Split | vowpalwabbit/csv_parser/src/parse_example_csv.cc:179-207 | the same for the whole line |
| CsvSplit.SplitFromCount | vowpalwabbit/csv_parser/src/parse_example_csv.cc:184-205 | one element per separator from `from` on, plus one |
| CsvSplit.SplitCount | vowpalwabbit/csv_parser/src/parse_example_csv.cc:179-207 | `split` returns the number of separators plus one elements |
| CsvSplit.TrailingSeparator | vowpalwabbit/csv_parser/src/parse_example_csv.cc:196-199 | a trailing separator gives an empty last element |
| CsvSplit.NoSeparatorOneElement | vowpalwabbit/csv_parser/src/parse_example_csv.cc:195-205 | a line without separator is one trimmed element |
| CsvParser.ResolveLabelIndex | vowpalwabbit/csv_parser/src/parse_example_csv.cc:82-85 | a negative index counts from the end; the index resolves iff it lands in `[0, size)` |
| CsvParser.ParseLabel | vowpalwabbit/csv_parser/src/parse_example_csv.cc:78-94 | throws iff the label index is out of range; otherwise the label column's words go to the label parser, or the default label without words |
| CsvParser.LabelIndexEnds | vowpalwabbit/csv_parser/src/parse_example_csv.cc:82-83 | -1 is the last column and 0 the first |
| CsvParser.ColumnFeature | vowpalwabbit/csv_parser/src/parse_example_csv.cc:122-162 | a non-float gives value 1 and the chain hash; a float gives its own value and the name's hash, or `channel_hash + anon` for an empty name; the float is what `std::stof` reads from the element's first byte on, which runs past the line; a zero value gives nothing |
| CsvParser.StofTextExtends | vowpalwabbit/csv_parser/src/parse_example_csv.cc:129-131 | the text given to `std::stof` is the element's bytes, then the rest of the line, then every byte after the line |
| CsvParser.BlankLastField | vowpalwabbit/csv_parser/src/parse_example_csv.cc:196-204 | a last field of only trim-list bytes gives an empty element at the line's end, so `std::stof` reads only the bytes after the line |
| CsvParser.TwoRowsFirstLine | vowpalwabbit/csv_parser/src/parse_example_csv.cc:40-51 | in a buffer of two rows the first line is read off and the bytes after it are its newline and the second row |
| CsvParser.StofReadsNextRow | vowpalwabbit/csv_parser/src/parse_example_csv.cc:129-131 | a last field `""` is a float column whose value `std::stof` reads from the next row |
| CsvParser.ParseFeaturesFrom | vowpalwabbit/csv_parser/src/parse_example_csv.cc:114-177 | fails iff some non-label column has no header name; never emits a zero value and at most one feature per column |
| CsvParser.LabelColumnIgnored | vowpalwabbit/csv_parser/src/parse_example_csv.cc:120 | the label column's content never affects the features |
| CsvParser.ParseStep | vowpalwabbit/csv_parser/src/parse_example_csv.cc:117-162 | a column puts its feature, if it gives one, in front of the later columns' features, read on with the counter it leaves |
| CsvParser.ColumnPlaced | vowpalwabbit/csv_parser/src/parse_example_csv.cc:116-162 | each column that gives a feature has it at the position counting the earlier such columns, built with the counter advanced once per earlier anonymous float column, zero floats included |
| CsvParser.AnonymousPlaced | vowpalwabbit/csv_parser/src/parse_example_csv.cc:149-157 | a non-zero anonymous float column hashes to `channel_hash + c`, c the number of earlier anonymous float columns |
| CsvParser.FeatureCount | vowpalwabbit/csv_parser/src/parse_example_csv.cc:116-162 | a row gives exactly one feature per column that yields one |
| CsvParser.AnonymousColumnStep | vowpalwabbit/csv_parser/src/parse_example_csv.cc:149-162 | an anonymous non-zero float column gives one feature hashed `channel_hash + anon` and advances the counter |
| CsvParser.AnonymousAllKept | vowpalwabbit/csv_parser/src/parse_example_csv.cc:117-162 | when every non-label column is an anonymous non-zero float, each gives exactly one feature |
| CsvParser.CountersCons | vowpalwabbit/csv_parser/src/parse_example_csv.cc:157 | one more anonymous feature in front continues the consecutive counter hashes |
| CsvParser.AnonymousConsecutive | vowpalwabbit/csv_parser/src/parse_example_csv.cc:116-157 | anonymous float columns get hashes `channel_hash + 0, + 1, ...` in order |
| CsvParser.ParseNamespaces | vowpalwabbit/csv_parser/src/parse_example_csv.cc:96-112 | the features are appended to the space namespace, which is recorded in `indices` iff it went from empty to non-empty; no other namespace, the label or the tag changes (extents are not modelled) |
| CsvParser.ParseExample | vowpalwabbit/csv_parser/src/parse_example_csv.cc:71-76 | the label first, then the namespaces; a bad label index fails before any feature |
| CsvParser.ReadLine | vowpalwabbit/csv_parser/src/parse_example_csv.cc:37-69 | the raw byte count; an empty trimmed line is a newline example; a row whose size differs from the header throws; the first row read without a header becomes the header |
| CsvParser.HeaderRowSetsHeader | vowpalwabbit/csv_parser/src/parse_example_csv.cc:57-62 | a header row gives one name per separator plus one, so the header is never empty afterwards |
| CsvParser.ParseCsv | vowpalwabbit/csv_parser/src/parse_example_csv.cc:26-35 | on the first call with a header two lines are read and their byte counts added; otherwise one line |

## Left out

- I/O: `io_buf::readto` is a pure split of the input buffer; logging, audit strings and persistence are not modelled.
- Dictionary-namespace lookup in `maybeFeature` (`parse_example.cc` lines 321-352) is not modelled. The dictionaries live in the workspace.
- Floats are real numbers plus a NaN marker. `parseFloat` and `std::stof` are oracles, and `_v == 0` is a comparison with the real 0.
- `std::stof` is called on `string_feature_value.data()`, which is not NUL-terminated, so it reads from the element's first byte past the line's end. The oracle gets the element, the rest of the line, the line ending and the unread input (`CsvParser.StofText`). What lies past the end of the input buffer in memory is not modelled: the model ends at the end of the input.
- Label parsing (`lbl_parser`) is an oracle. The example records only the words given to it, or the default label.
- The CSV reader run without a header reads `_header[i]` out of range, which is undefined behaviour. The model fails with `HeaderMissing` instead.
- Hashes, `choose`, `repopulate_index_queue`, `do_work`, `gen_interactions`, `count_namespaces`, `worse`, the confidence bounds and the learner are function parameters. Their code is not part of this model.
- `estimator_config` keeps its observations as a sequence. The bounds computed from them are oracles, and the default reset parameters are parameters too, since `estimator_config.h` is not part of this model.
- The learner is a pure function of slot, interactions and batch, so learning changes no learner state. The learner sees each slot's interactions rather than the rewritten example views.
- ChachaDriver.OffsetLearn: a throw discards the estimator updates made before it, while the source keeps them. The interactions are still restored, as the scope guard does.
- ChachaDriver.OffsetLearn: an empty batch and a manager without slots are excluded (`ec[0]` and `estimators[current_champ]` would be undefined), and the debug assertion that every example shares the incoming interactions is not checked.
- `move_offsets` is tracked as block identity only. A move is modelled as a copy of the block.
- `weights` and the `_gd_*` / `_cb_adf_*` per-model state are not modelled.
- Counters such as `total_learn_count`, `total_champ_switches` and the text parser's anonymous counter are unbounded; the text parser adds its counter to the channel hash modulo 2^64 (`Features.AnonHash`). The CSV anonymous counter is a `bv64` and wraps.
- `config_oracle` and its `calc_priority` are not part of this model. The queue is a sequence in pop order.
- ChachaTypes.Valid: does not include "slot 0's config is Live". The source does not keep that. A challenger whose config `worse()` marked Removed keeps its slot when `schedule` finds no candidate (`automl_impl.cc` lines 131-135). If it later beats the champion, `update_champ` copies that Removed config into `configs[0]` (lines 206-209); `ChachaChamp.PromoteKeepsWinnerState` states this copy. `do_work` may also rewrite existing catalogue entries, since its code is not part of this model.
- ChachaDriver.LearningOrderIrrelevant: the order does not matter here only because of two modelling choices. The learner is a pure function, and a throw discards every earlier update. In the source, a throw at some slot keeps the updates of the slots visited before it, and which slots those are depends on the order.
- TextParser.NameSpace: the namespace extents (`start_ns_extent` and `end_ns_extent`, `parse_example.cc` lines 452-474) are not modelled. The example keeps no extent list.
- ChachaTypes.QueueIn: `repopulate_index_queue` and `do_work` are assumed to queue only configs that exist and are not config 0, the champion's. Their code is not part of this model. `Valid`'s clause "two configs once there are two slots" is kept by `Assign` only because of this, and `ChachaChamp.Promote`'s write of `configs[1]` is in range only by that clause. With an oracle that queued config 0, the second slot could be bound to config 0 of a one-config catalogue, and `automl_impl.cc` line 209 would write `configs[1]` out of range.
- ChachaSchedule.ReassignValid: `repopulate_index_queue` is a pure function of the catalogue, the namespace counts and the valid config size, so a refill that fails at one slot fails again at every later slot of the same `schedule`, whose inputs it leaves unchanged. The in-range claim for `estimators[live_slot]` rests on that. The source's `config_oracle` is stateful and its code is not part of this model. An oracle that failed at slot k (`automl_impl.cc` line 135) and then succeeded at slot k+1 would make `emplace_back` append at index k and `estimators[k+1]` (lines 145-151) be read out of range.
- ChachaDriver.OneStep: when the learner throws, the step returns the error and no manager. In the source the exception leaves behind effects that a catching caller sees: the `total_learn_count` increment, `count_namespaces` and `gen_interactions`, then `do_work` (Collecting, `automl_impl.h` line 218) or `schedule` (Experimenting, line 232), and a state still at Collecting when the throw came from there. `ChachaDriver.Steps` therefore stops at the first throw without those effects.
- CsvParser.ReadLine: the header is kept as a copy of its text. At `parse_example_csv.cc` line 62 `_header` holds `string_view`s into the input buffer, so a later `readto` that reuses those bytes would change the header names every following row hashes. That aliasing is not modelled.
- CsvParser.ParseNamespaces: the namespace extent opened and closed around the features (`parse_example_csv.cc` lines 107-111) is not modelled either.
