# A verified model of the bet_arbitrage correlation and arbitrage engine

bet_arbitrage collects two-way and three-way betting quotes ("odds") from several
bookmakers and prediction markets. It stores each quote and looks for quotes on other
platforms that name the same match, matching the sides in the same or the swapped order.
For each such group it takes the best price on every outcome. When the inverse prices sum
below 1, it reports a sure-win ("arbitrage") opportunity, with the profit percentage and a
stake split for 100 units.

The repository holds three generations of this engine:

- `app/manager.py` is the newest. It groups matched quotes in a union-of-sets structure
  (`SetStructure` and `Graph`), fills missing event dates from the platform's event feed,
  and rejects candidates whose dates are more than a day apart.
- `manager.py` and `worker.py` are the two earlier versions. They keep a registry of
  opportunities keyed by the digest of the match key, storing the best profit per match and
  letting entries expire.

This model covers the following:

- the quote record and its garbage filter (`obj.py`);
- team-name normalisation against an alias table, and the similarity test built on it;
- the ingestion pipeline of all three managers: filter, upsert, cross-platform scan with
  the reversed-order flag, best prices, the inverse-sum test, profit, stakes and
  registration;
- both registry policies, with the bounded history;
- the grouping structure;
- the offline pairwise matcher `find_matches_in_data` (`test_find.py`);
- the message logic of the Dexsport client, in both versions: tracked events, the outgoing
  queue, the sender's batching step, market parsing, and event, discipline and tournament
  messages;
- the drop-oldest log queue (`logs.py`).

Modelling choices:

- Quotes are values (`BetOption.Record`). Odds and profits are exact `real`s. Dates are
  integer day numbers. Clock readings are integers passed in as `now` and `today`.
- A Python `dict` is an insertion-ordered `OrderedDict.ODict`: a key sequence plus a map.
  Every scan in the code relies on that order.
- Objects the code updates in place are classes:
  - the three managers;
  - `SetStructure` and `Graph`;
  - the Dexsport client;
  - the earlier `ArbitrageManager` and `StatsManager`;
  - `NeverfullQueue`.
  Each method is proved against a function on values, and the properties are lemmas about
  those functions.
- The fuzzy-matching library is two oracles in `Names.Matcher`:
  - `extractOne` returns one of its choices or nothing;
  - `ratio` returns a score in [0, 100].
  The MD5 digest of a match key is an abstract function `Digest`.
- Python's set iteration order is unspecified. Where the result depends on it (the first
  grouped id `add_set` meets), the model takes any valid choice. The choice is returned as a
  ghost value.
- The similarity a scan uses is a relation `sim`. Its tie to `Names.Similar` is stated by
  `Correlation.Decides` or `FindMatches.DecidesAt`, so the scans can be reasoned about for
  any similarity.

Behaviours of the code that the model reproduces as written:

- A reversed match tags the stored candidate object. The new quote is not tagged. In
  `app/manager.py` the graph shares these objects with the database.
- `add_set` merges only the first existing group it meets. Other groups the new set
  touches keep their stale member sets (`Grouping.MergesFirstGroupOnly`).
- `add_node` on an already grouped id resets that group's value to 0.0
  (`Grouping.AddNodeOnGroupedId`).
- `count_groups`, and so the app's `arbitrage_count`, counts ids rather than groups
  (`Grouping.CountIsIds`).
- `delete_set` and `delete_key` remove the ids from `data` and then index `set_values` with
  a plain `set`. Python cannot hash a `set`, so they raise `TypeError`
  (`Grouping.DeleteOutcome.RaisedTypeError`).
- `add_events` tracks every event, but sends only the last event's ids. On an empty list it
  raises before changing anything.
- The earlier Dexsport client tests for `"Draw"` case-sensitively. Lacking an `elif`, it also
  takes the draw outcome as a side. It ignores event messages.
- The app registry always returns True and keeps no per-key table. Its expiry method
  returns immediately (app/manager.py:344), so nothing expires there.

## Model

| member | source | states |
|---|---|---|
| BetOption.NewBetOption | obj.py:24-49 | the constructor keeps every given field, leaves the reversed tag unset and always stamps the record with the current clock reading |
| BetOption.AcceptedIff | obj.py:51-66 | a record is kept exactly when both odds lie in [0.01, 100], neither side is "yes"/"no" in any case, the two sides differ ignoring ASCII case, and the event date is absent or not before today |
| BetOption.OddsOutOfRangeIsGarbage | obj.py:52-54 | odds below 0.01 or above 100 on either side reject the record |
| BetOption.BoundaryOddsAccepted | obj.py:52-54 | odds of exactly 0.01 and exactly 100 are accepted |
| BetOption.YesNoIsGarbage | obj.py:56-59 | a side named yes or no rejects the record |
| BetOption.YesNoIgnoresCase | obj.py:56-59 | the yes/no test ignores case and matches whole names only |
| BetOption.SameNamesIsGarbage | obj.py:60-61 | two sides equal ignoring case reject the record |
| BetOption.PastDateIsGarbage | obj.py:63-64 | a date before today rejects the record; a record rejected with an absent, current or future date is rejected on other grounds |
| BetOption.GarbageIgnoresOtherFields | obj.py:51-66 | the draw price, timestamp, id, platform, title, sport, league and tag never affect the verdict |
| Text.LowerIsLower | manager.py:497-498 | lowercasing leaves no upper-case letter |
| Text.LowerOfLower | manager.py:497-498 | lowercasing a lower-case string changes nothing |
| Text.LowerIdempotent | manager.py:497-498 | lowercasing twice is lowercasing once |
| Text.StripLeft | manager.py:497-498 | removes exactly the leading whitespace: the result is a suffix starting with a non-space |
| Text.StripRight | manager.py:497-498 | removes exactly the trailing whitespace: the result is a prefix ending with a non-space |
| Text.Strip | manager.py:497-498 | the result is no longer than the input and is empty or starts and ends with a character that is not whitespace in the sense of `str.isspace` |
| Text.StripIsTrimmedSlice | manager.py:497-498 | the result of `strip` is a slice of the input with only whitespace before and after it, so together with `Strip`'s contract exactly the surrounding whitespace is removed |
| Text.ReplaceWithoutMatch | manager.py:510-512 | whole-word replacement leaves a string without an occurrence of the word unchanged |
| Names.FindDirect | worker.py:280-283 | a main name of the sport whose lowered form or alias list matches, or none exactly when no main name matches |
| Names.FindDirectFirst | worker.py:280-283 | the main name found is the first hit in dictionary order: every main name before it misses |
| Names.FindDirectAll | worker.py:295-298 | the search over every sport in table order finds a main name of some sport, or nothing exactly when no sport has a hit |
| Names.FindDirectAllFirst | worker.py:295-298 | the result is the first hit of the first sport in table order that has one; every earlier sport misses |
| Names.SportChoiceIsHit | worker.py:285-292 | every name in the sport's fuzzy choice set is itself a direct hit in that sport |
| Names.AllNamesAreHits | worker.py:267-271 | on a lowered table every member of ALL_NAMES is a direct hit |
| Names.SportNameIsHit | worker.py:269-271 | on a lowered sport every lowered main name or alias is a direct hit |
| Names.Normalize | worker.py:274-304 | an unfixed result returns the input name; a fixed result is a main name of the requested sport when it is known, else of some sport |
| Names.NormalizeDirect | worker.py:279-283 | a direct hit returns the first matching main name with True, in the sport's scope when the sport is known and over all sports otherwise |
| Names.NormalizeFuzzyDepthTwo | worker.py:284-303 | a fuzzy pick is a direct hit in the same scope, so normalising recurses at most once and ends with True |
| Names.NormalizeMiss | worker.py:304 | with no direct hit and no fuzzy pick the input comes back unchanged with False |
| Names.TransformsUnfold | worker.py:310-313 | the transform list is st to state, then st to saint |
| Names.SideNormUnfold | worker.py:319-327 | a side's normal form is the state pass followed by the saint pass, starting from the untransformed normalisation |
| Names.AreSimilar | worker.py:306-343 | the loop over the transforms decides exactly the similarity predicate |
| Names.SimilarWhenNormsEqual | worker.py:331-334 | equal normal forms make two names similar whatever their score |
| Names.SimilarOtherwiseByRatio | worker.py:336-338 | with different normal forms the verdict is the score of the lowered, trimmed originals against 100 times the threshold, never of transformed text |
| Names.SimilarReflexive | worker.py:306-343 | every name is similar to itself |
| Names.FixedSideUntransformed | worker.py:315-327 | a side that is already an alias hit is never transformed |
| Names.SaintOverridesUnfixedState | worker.py:319-327 | when the state pass leaves a side unfixed, the saint pass's result replaces it |
| Names.FixedStateKept | worker.py:319-327 | when the state pass fixes a side, the saint pass leaves it alone |
| Names.NoStUntransformed | worker.py:320-327 | a side without the whole word st keeps its plain normalisation |
| Names.LowerAll | worker.py:263 | every alias lowered, in order |
| Names.LastWith | worker.py:261-265 | the last main name in table order that lowers to a key, or none exactly when no main name does |
| Names.LowercaseSport | worker.py:261-265 | after the pass a sport's keys are the lowered main names, each holding the lowered aliases of the last main name that lowers to it, in the key order left by assigning each lowered key and then deleting the renamed one, main name by main name |
| Names.LowerPassOrderExample | worker.py:261-265 | for main names "A" then "b" the lowered table lists "b" before "a": a lower-case key keeps its place, a renamed key moves to the end |
| Names.LowerStepKeeps | worker.py:262-265 | one step of the pass keeps the invariant: processed keys are lowered, the others untouched |
| Names.LowerStepEntry | worker.py:262-265 | one step of the pass stores the right alias list under every key it touches |
| Names.LowerInvEnd | worker.py:261-265 | the invariant at the end of the snapshot is the lowercasing result |
| Names.LoweredKeySet | worker.py:261-265 | the lowered snapshot keys are the lowered main names |
| Names.LoweredKeysStep | worker.py:262-265 | the key set after step i is the lowered first i+1 snapshot keys plus the rest |
| Names.LowerAllIsLower | worker.py:263 | lowered aliases are lower-case |
| Names.LowercaseAliases | worker.py:261-265 | every sport of the table is lowercased, with its key order fixed by the pass, and the sports and their order are kept |
| Names.CollectAllNames | worker.py:267-271 | the loop collects exactly ALL_NAMES from the table |
| Names.CollectSportNames | worker.py:269-271 | the loop collects exactly one sport's names |
| Names.PrefixNamesStep | worker.py:269-271 | each main name adds its lowered name and lowered aliases |
| Names.PrefixNamesAll | worker.py:269-271 | the names of all main names of a sport are the sport's names |
| Names.SportsPrefixStep | worker.py:268-271 | each sport adds its names to ALL_NAMES |
| Names.SportsPrefixAll | worker.py:268-271 | collecting over all sports gives ALL_NAMES |
| Names.AllNamesOfLowerTable | worker.py:261-271 | after lowercasing, ALL_NAMES is exactly the main names together with the aliases |
| Names.LoadMatcher | app/manager.py:25-44 | loading lowercases the table, fixing each sport's key order by the pass, keeps its sports, and yields a matcher whose ALL_NAMES and oracles meet what normalisation needs |
| Arbitrage.CombineDraw | app/manager.py:600-604 | the draw kept is the larger of two truthy prices, the truthy one when only one is, and otherwise the newcomer |
| Arbitrage.BestPrices | app/manager.py:583-604 | side A and side B are the maxima over the group, with A and B swapped for reversed candidates and never for the new quote; the draw is the largest truthy draw price, truthy exactly when some quote has one |
| Arbitrage.ComputeBest | app/manager.py:585-604 | the loop over the matched quotes computes the best prices |
| Arbitrage.Evaluate | app/manager.py:607-633 | an inverse sum of 1 or more is no arbitrage; a zero sum is the division error; below 1 the profit is (1 - sum) * 100 and positive |
| Arbitrage.StakesSumTo100 | app/manager.py:628-633 | the stakes on all legs add up to the 100 units invested |
| Arbitrage.EqualPayout | app/manager.py:628-633 | every leg pays stake times price = 100 / sum, the same whichever outcome wins |
| Arbitrage.ReturnCoversProfit | app/manager.py:647-649 | with positive prices and a sum below 1 the return 100 / sum is at least 100 plus the stated profit |
| Arbitrage.TwoWayExample | app/manager.py:607-633 | prices 2.5 and 2.0 give a sum of 0.9, a profit of 10 and stakes 400/9 and 500/9 |
| Arbitrage.NoArbitrageExample | app/manager.py:620 | two prices of 1.8 are no arbitrage |
| Arbitrage.ZeroSumExample | app/manager.py:607-629 | a negative truthy draw can make the sum zero, where the stake division fails |
| Arbitrage.MatchKey | manager.py:97-101 | the key holds exactly the platform:id labels of the group |
| Arbitrage.MatchKeyOrderFree | manager.py:97-101 | groups with the same quotes in any order have the same key |
| Correlation.VerdictMeaning | app/manager.py:526-573 | a stored quote matches exactly when it has another id and another platform, is not more than a day off when both dates are known, and matches in standard or reversed order; its tag is reversed and not standard |
| Correlation.TagStore | app/manager.py:572 | the store keeps its keys, and every stored quote changes at most in its reversed tag |
| Correlation.Scan | app/manager.py:525-573 | the scan loop returns the matched quotes in store order and writes their tags into the store |
| Correlation.Inspect | app/manager.py:527-557 | one scan step computes the verdict on one stored quote |
| Correlation.SidesMatch | app/manager.py:549-555 | one side pair is tested on the lowered names |
| Correlation.MatchedAreValid | app/manager.py:526-573 | every matched quote is a stored quote of another id and platform, within the date window, carrying the tag reversed and not standard |
| Correlation.MatchedAreAll | app/manager.py:526-573 | every stored quote that passes the tests is among the matched quotes |
| Correlation.MatchCount | app/manager.py:570 | the number of matches is the number of stored positions that match |
| Correlation.SelfNeverMatched | app/manager.py:527-530 | no matched quote has the new quote's id or platform |
| Correlation.SwappedSidesTagged | app/manager.py:553-572 | a quote listing the sides the other way round, with no similar standard pairing, is matched and tagged reversed |
| Correlation.DateWindowExample | app/manager.py:534-543 | dates two days apart block a match; dates one day apart leave the verdict to the names |
| Ledger.ScanKeepsStore | app/manager.py:519-573 | after the scan the store still keys every quote by its id, the new quote is untouched, and every matched quote is the tagged object stored under its id |
| Registry.Unexpired | manager.py:184-193 | cleaning keeps exactly the entries not older than the timer, unchanged |
| Registry.CleanExpired | manager.py:184-193 | the collect-then-delete loop leaves exactly the unexpired table |
| Registry.ExpiredHashes | manager.py:187-191 | the collected hashes are exactly the expired entries |
| Registry.FirstWithKey | manager.py:127-128 | the first entry in table order with the match key, or none exactly when no entry has it |
| Registry.FindByKey | manager.py:126-128 | the loop finds that first entry |
| Registry.OneEntryPerKey | manager.py:141-145 | in a table keyed by digests two entries with the same match key are the same entry |
| Registry.HashedLookup | manager.py:126-141 | in a table keyed by digests the scan for a key finds the entry under its digest, if that entry has the key |
| Registry.OfferOutcome | manager.py:126-147 | an offer goes in exactly when its key is unseen or it beats the stored profit; it then sits under the key's digest, a replaced entry keeps its place and a refused offer changes nothing |
| RootManager.AddArbitrageSpec | manager.py:107-147 | the table stays a well-formed ordered dictionary |
| RootManager.ThresholdRefused | manager.py:111-115 | a profit below the threshold is refused with no change to the table or the history |
| RootManager.BlacklistRefused | manager.py:117-122 | a blacklisted platform in the group is refused with no change |
| RootManager.UnexpiredKeepsHashed | manager.py:184-193 | cleaning keeps the table keyed by digests |
| RootManager.AddArbitrageOutcome | manager.py:124-147 | after cleaning, an offer is accepted exactly when its key is unseen or it beats the stored profit; accepted offers replace the entry under the digest and add one bounded history entry, refused ones change nothing, and the table keeps one entry per key |
| RootManager.Manager.UpdateHistory | manager.py:171-182 | appends one entry and keeps the newest 1000 in order |
| RootManager.Manager.CleanExpired | manager.py:184-193 | the table becomes its unexpired part; nothing else changes |
| RootManager.Manager.AddArbitrage | manager.py:107-147 | the table, the history and the answer are what the registration function gives |
| RootManager.Manager.Decide | manager.py:126-147 | the keep-best decision on the cleaned table, with one history entry exactly when accepted |
| RootManager.Manager.AddMatch | manager.py:209-212 | the matches counter goes up by one and nothing else changes |
| RootManager.Manager.GetActiveArbitrages | manager.py:195-201 | cleans the table, then returns its entries sorted by profit, largest first, as a permutation |
| RootManager.Manager.GetArbitrageCount | manager.py:203-207 | cleans the table, then returns the number of entries |
| RootManager.Manager.ArbitrageCount | manager.py:325-328 | the number of entries, without cleaning |
| RootManager.Manager.Size | manager.py:330-333 | the number of stored quotes |
| RootManager.Manager.GetRecentOdds | manager.py:271-278 | the stored quotes, newest first, cut by Python's slice rule |
| RootManager.Manager.Store | manager.py:341-346 | upserts the quote under its id and counts its platform only when the id is new |
| RootManager.Manager.Correlate | manager.py:348-382 | the scan, without the date window, tags the store, returns the matches, and counts one match for a call with any |
| RootManager.Manager.Price | manager.py:387-447 | evaluates the group's best prices and, for an opportunity, registers it with its label and bet lines; otherwise nothing changes |
| RootManager.Manager.AddOdd | manager.py:335-447 | garbage changes nothing; otherwise the quote is upserted, the store tagged, the matches returned, an evaluation made exactly when there was a match, and an opportunity registered by the keep-best rule |
| Worker.BriefFor | worker.py:97-104 | the entry carries the group's match key, the clock reading and the profit |
| Worker.ArbitrageManager.CleanExpired | worker.py:108-113 | the table becomes its unexpired part |
| Worker.ArbitrageManager.MatchExists | worker.py:46-52 | true exactly when some entry has the match key, which on a digest-keyed table is the entry under its digest |
| Worker.ArbitrageManager.AddArbitrage | worker.py:64-106 | cleans and then applies the keep-best rule, without threshold, blacklist or history |
| Worker.ArbitrageManager.GetActiveArbitrages | worker.py:115-123 | cleans, then returns the entries sorted by profit, largest first, as a permutation |
| Worker.ArbitrageManager.GetCount | worker.py:125-129 | cleans, then returns the number of entries |
| Worker.UnseenKeyAccepted | worker.py:95-106 | an unseen match key is always added under its digest |
| Worker.StatsManager.AddOdd | worker.py:141-146 | every call counts the quote and its platform, repeated ids included, and appends it to the newest 1000 |
| Worker.StatsManager.AddMatch | worker.py:148-151 | the matches counter goes up by one |
| Worker.StatsManager.GetRecentOdds | worker.py:173-176 | the kept quotes, newest first, cut by Python's slice rule |
| Worker.NewestFirst | worker.py:141-176 | right after a quote arrives, the recent list starts with it, never holds more than the limit and keeps arrival order reversed |
| Worker.Engine.Correlate | worker.py:361-396 | the scan, without the date window, tags the store and counts one match for a call with any |
| Worker.Engine.Price | worker.py:401-461 | evaluates the group's best prices and offers an opportunity to the registry |
| Worker.Engine.AddOdd | worker.py:346-465 | garbage changes nothing; otherwise the quote is stored, counted, correlated, evaluated exactly when there was a match, and an opportunity offered by the keep-best rule |
| Grouping.AssignAll | app/manager.py:90-91 | every id of the set maps to the given member set and every other id keeps its set |
| Grouping.AddSetKeepsWellFormed | app/manager.py:73-104 | adding a set keeps every id inside the set it maps to |
| Grouping.AddSetFresh | app/manager.py:100-104 | a set none of whose ids is grouped becomes a group: each id maps to it, it and each id are valued at the given value, other ids and values stay |
| Grouping.AddSetMerge | app/manager.py:84-99 | a set touching a group merges into it: every id of the union maps to the union, the union carries the new value and a smaller old group's value entry is gone |
| Grouping.AddSetValuesMembers | app/manager.py:73-104 | whichever way the scan went, each id of the new set ends in a group holding the set and valued at the new value |
| Grouping.MergesFirstGroupOnly | app/manager.py:79-82 | adding {a, c} through a leaves d pointing at the stale set {c, d} |
| Grouping.AddNodeOnGroupedId | app/manager.py:165-168 | adding a grouped id resets its group's value to 0.0 and, for a coherent group, keeps the membership exactly |
| Grouping.CountIsIds | app/manager.py:178-180 | one group of two ids counts as 2 |
| Grouping.DeleteSetRemovesMembers | app/manager.py:138-145 | deleting a grouped id's set removes all its members, keeps every other id, and then raises at the value step |
| Grouping.DeleteKeyOutcomes | app/manager.py:149-157 | deleting an unknown id reports not found; otherwise just that id is removed, and it raises exactly when the id was its group's last member |
| Grouping.DeletesKeepWellFormed | app/manager.py:138-157 | both deletions keep every remaining id inside its own set |
| Grouping.SetStructure.AddSet | app/manager.py:73-104 | the new state is the add_set function for some grouped element of the set, or for none when no element is grouped |
| Grouping.SetStructure.FindSet | app/manager.py:106-107 | the id's set exactly when the id is grouped |
| Grouping.SetStructure.GetSetValueOfId | app/manager.py:123-136 | the value of the id's set, or nothing |
| Grouping.SetStructure.GetSetValueOfSet | app/manager.py:111-121 | the value stored under the set, or nothing; the scan by member equality finds no other key |
| Grouping.SetStructure.ScanValues | app/manager.py:118-120 | the scan over the value map finds the value of the equal set, if any |
| Grouping.SetStructure.DeleteSet | app/manager.py:138-147 | the new state and outcome are the delete_set function |
| Grouping.SetStructure.DeleteKey | app/manager.py:149-157 | the new state and outcome are the delete_key function |
| Grouping.AssignEach | app/manager.py:90-91 | the loop assigns the set to each of its ids |
| Grouping.Graph.AddNode | app/manager.py:165-168 | stores the record and adds its id as a singleton set valued 0.0 |
| Grouping.Graph.AddGroup | app/manager.py:170-176 | stores every record and adds their ids as one set with the given value |
| Grouping.Graph.CountGroups | app/manager.py:178-180 | the number of grouped ids |
| Grouping.Graph.Items | app/manager.py:182-209 | yields each distinct group once, exactly the groups with at least two ids and a positive value, each with its stored records and its value |
| Grouping.Graph.GroupFor | app/manager.py:193-209 | a group is yielded exactly when it has at least two ids and a positive value |
| Grouping.Graph.CollectBets | app/manager.py:194 | lists the stored records of the group's ids |
| Grouping.StoreAllMeaning | app/manager.py:173-175 | storing a list makes every id of the list present with the last record of that id, and leaves other ids alone |
| Grouping.StoreAllStored | app/manager.py:173-175 | storing records already stored changes nothing |
| AppManager.WithKnownDate | app/manager.py:512 | the quote keeps its own date, else takes the known event date for its id, else stays dateless; nothing else changes |
| AppManager.FirstDate | app/manager.py:362-366 | the first known date among the group's records, or none exactly when no record has one |
| AppManager.Manager.UpdateDate | app/manager.py:250-255 | records the event date and, when the quote is stored, sets its date in both the database and the graph |
| AppManager.Manager.UpdateHistory | app/manager.py:329-340 | appends one entry and keeps the newest 1000 in order |
| AppManager.Manager.AddArbitrage | app/manager.py:279-305 | always answers True, adds the group to the graph with the profit as its value and appends one bounded history entry |
| AppManager.Manager.AddMatch | app/manager.py:380-383 | the matches counter goes up by one |
| AppManager.Manager.Store | app/manager.py:512-520 | fills the date, counts the platform only for a new id, adds the node to the graph and upserts the quote |
| AppManager.Manager.Correlate | app/manager.py:522-576 | the scan with the date window tags the store, returns the stored matches and counts one match for a call with any |
| AppManager.Manager.Process | app/manager.py:522-670 | scans, then evaluates exactly when there was a match; an opportunity adds the new quote and its matches to the graph as one group valued at the profit, and otherwise the groups stay as they were |
| AppManager.Manager.Price | app/manager.py:583-670 | evaluates the group's best prices; an opportunity adds the group's ids to the graph under its profit and appends one history entry, and no opportunity leaves the groups and history unchanged |
| AppManager.Manager.AddOdd | app/manager.py:505-670 | garbage changes nothing; otherwise the date is filled, the quote stored, added to the graph as a node valued 0.0, the store tagged, an evaluation made exactly when there was a match, and an opportunity added to the graph under its profit and to the history |
| AppManager.AddOddGroups | app/manager.py:519-670 | after an accepted quote its id is grouped; with an opportunity every id of the priced group sits in a group holding all of them and valued at the profit; otherwise the quote's group is valued 0.0 |
| AppManager.Manager.GetActiveArbitrages | app/manager.py:352-378 | one summary per yielded group, each group once and every reportable group present, each built from the group's stored quotes, sorted by profit, largest first |
| AppManager.SummaryOfGroup | app/manager.py:356-375 | a group's summary lists one bet line and platform per stored member, each from the quote stored under that member's id, every stored member once, under the group's positive value |
| AppManager.Manager.GetRecentOdds | app/manager.py:442-449 | the stored quotes, newest first, cut by Python's slice rule |
| AppManager.Manager.ArbitrageCount | app/manager.py:496-498 | the number of grouped ids |
| AppManager.Manager.Size | app/manager.py:500-503 | the number of stored quotes |
| AppManager.Summarize | app/manager.py:356-375 | the loop builds one summary per yielded group, in order |
| FindMatches.PairDrawAgrees | test_find.py:91-97 | the pair's draw is truthy exactly when one input draw is, and then agrees with the engine's draw rule |
| FindMatches.CompareMeaning | test_find.py:53-110 | a pair is skipped exactly when it shares a platform or matches in neither order; a priced pair keeps both input items, is tagged reversed and not standard, and reports (1 - sum) * 100 below 1 and 0 otherwise |
| FindMatches.AgreesWithEngine | test_find.py:72-97 | pricing on the swapped copy gives the engine's best prices for the two quotes |
| FindMatches.MatchesOf | test_find.py:104-110 | one result per hit, in scan order |
| FindMatches.RowFacts | test_find.py:48-110 | one row of the inner loop is sound, complete and ordered |
| FindMatches.PairsFacts | test_find.py:47-110 | the nested loops are sound, complete and ordered |
| FindMatches.FindSpecSound | test_find.py:47-110 | every hit comes from positions i < j whose comparison priced it, and no pair appears twice |
| FindMatches.FindSpecComplete | test_find.py:47-110 | every pair i < j that can be priced is a hit |
| FindMatches.FindSpecMeaning | test_find.py:41-114 | each pair of positions at most once, only cross-platform pairs that match in some order, every priceable pair, sorted by profit, largest first, as a permutation |
| FindMatches.RowStaysNone | test_find.py:48-102 | once a row raises, the whole row has raised |
| FindMatches.PairsStayNone | test_find.py:47-102 | once a comparison raises, the whole call has raised |
| FindMatches.BothSimilar | test_find.py:58-66 | one side pairing is tested at the given threshold |
| FindMatches.ComparePair | test_find.py:53-110 | the loop body computes the comparison of two items |
| FindMatches.ScanRow | test_find.py:48-110 | the inner loop computes the row, or reports that it raised |
| FindMatches.FindMatchesInData | test_find.py:41-114 | computes the sorted results, or nothing when a division raised |
| Dexsport.ChunksFlatten | app/platforms/dexsport.py:18-21 | concatenating the chunks gives the input back |
| Dexsport.ChunksSizes | app/platforms/dexsport.py:18-21 | every chunk but the last has n elements, the last 1 to n, and an empty list gives no chunks |
| Dexsport.TrackedStayDistinct | app/platforms/dexsport.py:299-324 | add_event, add_event_id and remove_event keep the tracked list free of duplicates; afterwards the id is tracked or gone, and no other id changes status (add_events extends without a test, see TrackManySendsLastOnly) |
| Dexsport.UntrackUndoesTrack | app/platforms/dexsport.py:306-324 | removing a just-added id restores the tracked list, having sent one join and one leave |
| Dexsport.TrackIdempotent | app/platforms/dexsport.py:306-309 | adding an id twice is adding it once |
| Dexsport.TrackManySendsLastOnly | app/platforms/dexsport.py:311-318 | add_events appends all events to the tracked list as given, duplicates included, but queues one message that names none of an earlier, different event's ids |
| Dexsport.TrackEachMeaning | app/platforms/dexsport.py:284-286 | the tournament fan-out tracks every lid, keeps the list distinct, extends it only at the end and queues one join per newly tracked id |
| Dexsport.AbsorbMeaning | app/platforms/dexsport.py:53-71 | batching absorbs the leading join-event messages in order while fewer than 5 ids are held; it stops with at least 5 ids, at the end of the queue, or at another message, which moves to the tail |
| Dexsport.Candidates | app/platforms/dexsport.py:239-250 | the side candidates are named outcomes |
| Dexsport.PickMeaning | app/platforms/dexsport.py:237-250 | side A is the first candidate, side B the last of at least two, and the draw the last draw price |
| Dexsport.DateUpdates | app/platforms/dexsport.py:275-277 | one date update per market id, in order |
| Dexsport.MarketEmitsOne | app/platforms/dexsport.py:236-268 | a market emits at most one record, exactly for a winner market whose first and last of at least two candidates have names, carrying those sides and the last draw price |
| Dexsport.EventUpdatesDates | app/platforms/dexsport.py:269-281 | an event with a start time emits a date update per market id and one for its lid; the earlier version emits nothing; neither touches the tracked list or queue |
| Dexsport.DrawOutcomeLast | platforms/dexsport.py:203-210 | a draw outcome sets the draw price; in the earlier version it also becomes side B once side A is set |
| Dexsport.ParseOutcomes | app/platforms/dexsport.py:237-250 | the outcome loop computes the picks |
| Dexsport.EventDates | app/platforms/dexsport.py:274-280 | the loop emits the market ids' updates and then the lid's |
| Dexsport.Client.Send | app/platforms/dexsport.py:40-41 | puts the message at the tail of the queue |
| Dexsport.Client.AddEvent | app/platforms/dexsport.py:306-309 | an untracked id is tracked and one join sent; a tracked one changes nothing |
| Dexsport.Client.AddEventId | app/platforms/dexsport.py:299-304 | an untracked id is tracked and one join with its two ids sent |
| Dexsport.Client.AddEvents | app/platforms/dexsport.py:311-318 | an empty list raises with no change; otherwise all events are tracked and one join for the last event is sent |
| Dexsport.Client.RemoveEvent | app/platforms/dexsport.py:320-324 | a tracked id is removed and one leave with its two ids sent; an untracked one changes nothing |
| Dexsport.Client.AddEach | app/platforms/dexsport.py:285-286 | add_event for each lid in turn |
| Dexsport.Client.SenderStep | app/platforms/dexsport.py:44-77 | a join-event head is sent merged with the absorbed messages, the queue being what batching leaves; any other head is sent as it is |
| Dexsport.Client.Analysis | app/platforms/dexsport.py:231-292 | emits the records and date updates of the message, and changes the tracked list and queue as the discipline and tournament branches do |
| LogQueue.PutKeepsNewest | logs.py:16-24 | on a bounded queue put_nowait keeps the newest maxsize of the old records followed by the new one, appending when there is room and dropping only the oldest when full |
| LogQueue.UnboundedAppends | logs.py:16-18 | an unbounded queue only appends |
| LogQueue.PutAllKeepsNewest | logs.py:16-26 | any number of puts leave the newest maxsize records of everything given, in arrival order |
| LogQueue.NeverfullQueue.TryPut | logs.py:18 | the plain put appends exactly when the queue is not full |
| LogQueue.NeverfullQueue.PutNowait | logs.py:16-24 | never raises, keeps the bound, and leaves the queue as the put function gives |
| LogQueue.NeverfullQueue.GetNowait | logs.py:21 | takes the oldest record off, or nothing from an empty queue |
| OrderedDict.Put | app/manager.py:520 | assignment updates the value and appends the key only when it is new |
| OrderedDict.Remove | manager.py:193 | deletion drops the key and its value and keeps the other keys in order |
| OrderedDict.Values | manager.py:199-201 | the values in key order |
| SeqUtil.BoundedAppend | manager.py:179-182 | appending and keeping the newest n ends with the new entry, preceded by the newest of the old ones |
| SeqUtil.KeepNewest | worker.py:146 | the last n elements, or all when fewer |
| SeqUtil.PyTake | manager.py:278 | a prefix; the limit's length when it fits, everything when larger, and a negative limit drops that many from the end |
| SeqUtil.Reverse | worker.py:176 | the elements in reverse order |
| SeqUtil.RemoveFirst | app/platforms/dexsport.py:323 | list.remove cuts out the first occurrence and keeps the rest in order |
| Sorting.SortDesc | manager.py:199-201 | the result is sorted by the key, largest first, and is a permutation of the input |
| Sorting.SortDescStable | manager.py:199-201 | the sort is stable: for every key value, the elements with that key come out in input order |

## Left out

- The MD5 digest (RFC 1321) of a match key is an abstract function. A collision between two keys would overwrite an entry; the model does not rule that out.
- Locks, threads and interleavings are not modelled, including the class-level shared `messageQueue` of the Dexsport client and the root `add_arbitrage` insert that falls outside its lock.
- The sender blocks on an empty queue; `Dexsport.Client.SenderStep` requires a non-empty queue instead.
- WebSockets, token refresh, connect and reconnect, `ask_all`, `stop`, and JSON decoding and dispatch in `on_message` are not modelled. `analysis` takes an already decoded message.
- Logging, console output, the Rich dashboard, file I/O, JSON save and load, and reading the alias file are not modelled. The alias table is a parameter of `Names.LoadMatcher`.
- The wall clock, `date.today()` and the conversion of `startTime` to a date are parameters: `now`, `today` and `dayOf`.
- Floating point is not modelled. Odds and profits are exact reals, and the `:.2f` bet strings are structured `Arbitrage.BetLine` values.
- rapidfuzz's `ratio`, `extractOne` and `default_process` are oracles. Only their stated promises are used: a pick is one of the choices, and a score lies in [0, 100].
- Text.Lower: maps only the ASCII letters A-Z, where Python's `str.lower` applies Unicode case mapping. Every lower-casing in the model is therefore ASCII-only: `is_garbage`'s yes/no and equal-sides tests (obj.py:55-61), so `BetOption.IsGarbage` keeps a record with sides "ÉQUIPE" and "équipe" that Python rejects; the lowering of the alias table and of `ALL_NAMES` (worker.py:261-271); the lowering at the start of `are_similar` (worker.py:307-308, manager.py:497-498) and in `normalize_team_name`; and the scans' lowering of both sides (worker.py:373-377, manager.py:359-363, app/manager.py:549-555).
- Text.IsWordChar: the `\b` word boundary of the `st` transforms is taken over ASCII letters, digits and `_`; Python's `re` also counts Unicode letters and digits as word characters.
- `lru_cache` on `normalize_team_name` is not modelled, because it does not change results.
- The hourly statistics, error counts, performance metrics, `get_collection_rate`, `get_runtime`, `get_detailed_stats`, `get_hourly_summary` and `clear` are not modelled. They only report or reset counters.
- worker.py's `_generate_hash` is not modelled, because nothing calls it.
- The app's `_clean_expired` returns at once (app/manager.py:344); it is modelled as doing nothing.
- Dexsport's `event_emitter` is always present. The branch that only logs a bet when no emitter exists is not modelled.
- `Dexsport.Chunks` requires n >= 1. Python's `range` raises for a step of 0, and `chunks` is never called that way.
- Event ids (`lid`) are strings. The code formats them with f-strings, which the model writes as string concatenation.
- `Grouping.SetStructure.ScanValues`: Python compares keys with `set(k) == set(element)`. Frozen sets are values here, so the scan finds the same entry as the direct lookup.
- `get_active_arbitrages` in app/manager.py formats the date with `strftime`; `AppManager.FirstDate` returns the day number.
- polymarket.py, webapp.py, app/worker.py and the tests are outside the model.
