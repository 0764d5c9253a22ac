# OCR service post-recognition core in Dafny

This project models the logic of the OCR document service that runs after text recognition:

- the correction dictionary and its two-phase auto-correction of recognised Russian text;
- the field validator for critical requisites (ОГРН, ИНН, КПП, СНИЛС, dates, EAEU certificate numbers, phones, e-mails);
- quality scoring, with and without the image model's score;
- the feedback store and the active-learning loop that promotes repeated operator corrections into the dictionary;
- the pipeline's own decisions: selected-area rescaling and labelling, page combination, the document review flag, implicit feedback and batch suggestion mining;
- the small helpers around them: operator feedback, the rule-based and transformer spell-correction guards, dataset pairing and area detection.

Recognition, image loading, OpenCV measurements, neural models and file persistence are not modelled. They become inputs: page texts and confidences, image metrics, bounding rectangles, the model's score or output, and the outcome of reading a JSON file.

There is one Dafny module per source file, plus two helper modules:

| module | source file | form |
|---|---|---|
| `Text` | (shared helpers) | character classes, strip, split, join, replace-first, substring, truncation |
| `Ranking` | (shared helpers) | stable descending insertion sort by an `(int, real)` rank; string sort |
| `Correctors` | core/correctors.py | pure functions; class `AutoCorrectionSystem` over an insertion-ordered dictionary (`keys` + `db`) |
| `Validators` | core/validators.py | field registry and predicates; `FindField`, `ValidateCriticalFields` as loops |
| `QualityCheck` | services/quality_check.py | issue detection and area detection as loops; the report as a function |
| `FeedbackCollector` | services/feedback_collector.py | class `FeedbackStore` with the three record lists and the counters |
| `ActiveLearning` | services/active_learning.py | class `ActiveLearningSystem` owning a store and a dictionary |
| `Processor` | core/processor.py | the pipeline's decisions; loops as methods proved against functions |
| `FeedbackGen` | services/feedback_gen.py | `GenerateFeedback` as conditional appends |
| `SpellCorrector` | models/spell_corrector.py | transformer guards as a function; batch and the rule-based corrector as loops |
| `MlQualityCheck` | services/ml_quality_check.py | region loop and the combined report |
| `DatasetLoader` | utils/dataset_loader.py | base names, grouping and pairing loops, document types |
| `AreaDetector` | services/area_detector.py | contour filtering loop and the full-page fallback |

Regular expressions are abstracted as the matches they produce:

- Phase 1 of `correct_text` and `SimpleSpellCorrector.correct_text` receive the text cut into matched and unmatched pieces.
- Phase 2 receives a `tokenize` function standing for `re.findall`.
- The validator receives `findall(kind, text)`. `pattern.search(v)` holds exactly when `findall(kind, v)` is non-empty, because no field pattern matches the empty string.

`difflib.SequenceMatcher(...).ratio()` is a function parameter `ratio`.

## Model

| member | source | states |
|---|---|---|
| `Ranking.SortDescSpec` | services/feedback_collector.py:232 | the descending sort by (occurrences, mean confidence) yields a non-increasing permutation of its input, and it is stable: elements with equal keys keep their input order |
| `Ranking.SortDescStable` | services/feedback_collector.py:232 | for every key, the sorted elements with that key are exactly the input's elements with that key, in input order (Python's sort is stable) |
| `Ranking.SortDescTop` | services/active_learning.py:154 | the first `n` sorted elements are a top `n` of the input: no element left out ranks above one kept |
| `Ranking.SortStringsSpec` | utils/dataset_loader.py:167 | `sorted` on strings yields an ascending permutation of its input in code-point order |
| `Correctors.Put` | core/correctors.py:305 | assigning a key keeps the insertion-ordered key list consistent with the map, and the map gets exactly that entry updated |
| `Correctors.FromEntries` | core/correctors.py:53-55 | a parsed JSON object yields a dictionary whose keys are exactly the keys listed in the file |
| `Correctors.LoadCorrections` | core/correctors.py:40-58 | a missing file gives exactly the seed dictionary, six entries in seed order; an unreadable file gives an empty dictionary; a parsed file gives exactly its keys, each with the value of its last entry |
| `Correctors.FromEntriesLastWins` | core/correctors.py:53-55 | a key listed more than once in the file takes the value of its last entry |
| `Correctors.DefaultsHaveNoIdentity` | core/correctors.py:42-49 | no seed entry maps a key to itself |
| `Correctors.Learned` | core/correctors.py:304-305 | learning keeps the dictionary well formed |
| `Correctors.LearnedSpec` | core/correctors.py:304-305 | an identical pair leaves the dictionary unchanged; otherwise the key maps to the correction, every other key keeps its value, no key is dropped, and repeating the call changes nothing |
| `Correctors.LearnedKeepsNoIdentity` | core/correctors.py:304-305 | a dictionary without identity pairs never gains one through learning |
| `Correctors.BestSimilarIsFirstMaximal` | core/correctors.py:131-141 | the similarity scan returns nothing iff no key reaches the threshold; otherwise it returns the first key, in insertion order, whose ratio is maximal, with that key's correction and ratio |
| `Correctors.SuggestCorrection` | core/correctors.py:155-175 | an exact key yields its value with confidence 1.0 and `exact_match`; otherwise a suggestion is a `similarity_match` of a key at or above the threshold with maximal ratio; no suggestion iff the text is not a key and no key reaches the threshold |
| `Correctors.Min3` | core/correctors.py:116 | the minimum is one of the three arguments and no larger than any of them |
| `Correctors.DistSymmetric` | core/correctors.py:103-104 | edit distance does not depend on argument order |
| `Correctors.DistUpperBound` | core/correctors.py:109-119 | edit distance is at most the longer length |
| `Correctors.DistLowerBound` | core/correctors.py:109-119 | edit distance is at least the difference of the lengths |
| `Correctors.DistSelf` | core/correctors.py:109-119 | a string is at distance 0 from itself |
| `Correctors.LevenshteinDistance` | core/correctors.py:92-119 | the two-row loop computes the edit distance of the two strings, in either order; the distance to the empty string is the length, and equal strings are at distance 0 |
| `Correctors.NextRow` | core/correctors.py:111-117 | one pass of the outer loop turns the row of distances for the first `i` characters into the row for the first `i + 1` |
| `Correctors.RestoreWordSpec` | core/correctors.py:222-264 | a word is rewritten iff it has a Cyrillic letter, is not all digits and has a `0` or `8`; the rewrite keeps the length and turns each `0`/`8` into `О`/`В` when the word has no lower-case and some upper-case letter, else `о`/`в`; its record has confidence 0.95, method `contextual_russian_word` and the original counts of `0` and `8` |
| `Correctors.PureNumbersUntouched` | core/correctors.py:229-231 | an all-digit word is never rewritten and makes no record |
| `Correctors.Phase1Preserves` | core/correctors.py:222-267 | phase 1 keeps the text's length, changes only characters that were `0` or `8`, each into a Cyrillic look-alike, and every record it makes has confidence 0.95 |
| `Correctors.Phase2Records` | core/correctors.py:270-291 | phase 2 keeps earlier records, adds at most one per token and only for alphanumeric tokens; each record is an exact match with the dictionary's value and confidence 1.0, or a similarity match at or above the threshold |
| `Correctors.Phase2Replays` | core/correctors.py:270-291 | phase 2 changes the text only through the corrections it records: the result is the phase-1 text with exactly the new records' first-occurrence replacements replayed in order, so with no new record the text is unchanged |
| `Correctors.Phase2EmptyDictionary` | core/correctors.py:270-291 | with an empty dictionary phase 2 changes neither the text nor the records |
| `Correctors.AutoCorrectionSystem.constructor` | core/correctors.py:24-26 | the dictionary is what loading gives |
| `Correctors.AutoCorrectionSystem.LearnFromMistake` | core/correctors.py:295-307 | the only writer of the dictionary: identical pairs change nothing, otherwise exactly `db[original] = corrected` |
| `Correctors.AutoCorrectionSystem.AddCorrection` | core/correctors.py:309-322 | the confirmation flag has no effect; the call learns the pair |
| `Correctors.AutoCorrectionSystem.FindSimilarCorrection` | core/correctors.py:121-141 | the loop returns the first maximal key (see `BestSimilarIsFirstMaximal`): nothing iff no key reaches the threshold, else a key of the dictionary with its own correction |
| `Correctors.AutoCorrectionSystem.CorrectText` | core/correctors.py:201-293 | the text and records are phase 1 over the matched words followed by phase 2 over the tokens of the phase-1 text |
| `Validators.Lookup` | core/validators.py:25-66 | a name resolves to the registered field with that name, and to none iff no field has that name |
| `Validators.CountDigits` | core/validators.py:28 | the digit count never exceeds the length |
| `Validators.TakeUntil` | core/validators.py:63 | the text before the first separator does not contain it |
| `Validators.CountDigitsAppend` | core/validators.py:28 | digit counts add up over concatenation |
| `Validators.NoDigitsCountZero` | core/validators.py:28 | a text without digits has digit count 0 |
| `Validators.SeparatorsIgnored` | core/validators.py:26-59 | for ОГРН, ИНН, КПП, СНИЛС and phone, inserting non-digit separators never changes the verdict |
| `Validators.Candidates` | core/validators.py:93-105 | one result per match, in order, whitespace collapsed and stripped; confidence 0.9 iff the field predicate holds of the cleaned value, 0.5 otherwise |
| `Validators.FindField` | core/validators.py:75-107 | an unregistered name gives no results; otherwise each match is cleaned and scored 0.9 iff the predicate holds, else 0.5 |
| `Validators.BestIndex` | core/validators.py:145 | `max` by confidence picks the first occurrence of the maximal confidence |
| `Validators.BestPrefersValid` | core/validators.py:176-178 | the best occurrence satisfies the predicate iff some occurrence does, no earlier one does, and without any valid one it is the first |
| `Validators.ValidateField` | core/validators.py:109-156 | an unknown field is invalid with confidence 0.0; a known one is valid iff its predicate holds and the pattern matches the value; confidence is 0.9 or 0.5 accordingly; a suggestion exists iff the value is invalid, the context is non-empty and the field occurs in it, and is one of its cleaned matches: the first one satisfying the field's predicate, or the first match when none does (`max` by confidence keeps the first maximum) |
| `Validators.CheckFieldSpec` | core/validators.py:173-189 | an absent field is reported as `""`, invalid, confidence 0.0; a present field carries one of its occurrences with the highest confidence, which is 0.9 iff some occurrence satisfies the predicate |
| `Validators.FieldsToCheck` | core/validators.py:171 | the requested list when one is given, otherwise a non-empty list |
| `Validators.Distinct` | core/validators.py:169-181 | dict keys filled in order: no duplicates and exactly the names listed |
| `Validators.AllRegisteredChecked` | core/validators.py:171 | without a request the fields checked are exactly the registered ones |
| `Validators.ValidateCriticalFields` | core/validators.py:158-191 | one entry per distinct requested field, in first-request order, each the result for that field |
| `Validators.CheckOne` | core/validators.py:174-189 | the body of the field loop yields the result `CheckFieldSpec` describes |
| `Validators.CheckAll` | core/validators.py:169-191 | the field loop records the distinct requested names in first-request order and the map `ResultsOf` of the requests |
| `Validators.ResultsOfSpec` | core/validators.py:169-191 | the result map has exactly the requested names as keys, each mapped to that field's own result, so a repeated request changes nothing |
| `QualityCheck.DetectIssues` | services/quality_check.py:56-91 | the appends produce exactly `IssuesFor` of the three scores, in the order blur, contrast, brightness |
| `QualityCheck.IssuesForSpec` | services/quality_check.py:56-91 | blur iff sharpness < 0.5, with severity high iff sharpness < 0.3; contrast and brightness issues iff their scores are < 0.5; every other issue is medium; no kind repeats |
| `QualityCheck.CheckImageQuality` | services/quality_check.py:33-54 | the three scores are at most 1, the image overall is their mean, and the issues are those of the three scores |
| `QualityCheck.ImageScoresInRange` | services/quality_check.py:33-46 | for an 8-bit image every score and the image overall lie in [0, 1], and brightness is 1 exactly at mean 127.5 |
| `QualityCheck.RegionAreasExact` | services/quality_check.py:116-138 | region mode reports exactly the regions with non-blank text and confidence < 0.5, each with its own box, text and confidence |
| `QualityCheck.LegacyAreasExact` | services/quality_check.py:140-168 | legacy mode reports exactly the entries with 0 < int(conf) < 50 and non-blank text; x2 = x1 + width, y2 = y1 + height, and confidence lies strictly between 0 and 0.5 |
| `QualityCheck.DetectHandwrittenText` | services/quality_check.py:93-170 | the loops compute the areas of region or legacy mode; nothing without a detail record |
| `QualityCheck.Composite` | services/quality_check.py:194-199 | the clamped composite always lies in [0, 1] |
| `QualityCheck.CompositeMonotone` | services/quality_check.py:194-199 | a higher OCR confidence and fewer handwritten areas never lower the composite |
| `QualityCheck.CheckQuality` | services/quality_check.py:172-223 | overall in [0, 1]; the issue list is the image issues plus the handwritten areas; review iff overall < 0.7 or any issue, so any handwritten area forces review; the low-quality warning iff the image overall < 0.7; the handwriting warning iff any area; never the overlay warning |
| `FeedbackCollector.LoadFeedback` | services/feedback_collector.py:33-61 | a missing or unreadable file gives empty lists, zero counters and no last update |
| `FeedbackCollector.FindGroup` | services/feedback_collector.py:204-205 | the group found carries the pair, and none is found iff no group carries it |
| `FeedbackCollector.IdsOfPairEmpty` | services/feedback_collector.py:200-214 | a pair has no ids iff no unapplied record carries it |
| `FeedbackCollector.IdsOfPairRecords` | services/feedback_collector.py:213-228 | each id listed for a pair names an unapplied record with that pair |
| `FeedbackCollector.IdsOfPairComplete` | services/feedback_collector.py:200-214 | the id of every unapplied record carrying a pair is listed for that pair |
| `FeedbackCollector.AddToGroupsPairs` | services/feedback_collector.py:204-211 | a grouping step adds the record's pair at the end when it is new, and otherwise keeps the pairs |
| `FeedbackCollector.GroupsCover` | services/feedback_collector.py:200-214 | groups have distinct pairs, and a pair has a group iff an unapplied record carries it |
| `FeedbackCollector.GroupsExact` | services/feedback_collector.py:200-214 | each group holds exactly its pair's unapplied ids in list order, and their summed confidence |
| `FeedbackCollector.Qualified` | services/feedback_collector.py:217-229 | exactly the groups meeting both thresholds become candidates |
| `FeedbackCollector.UnappliedCandidatesSpec` | services/feedback_collector.py:197-234 | the result is sorted non-increasing by (occurrences, mean confidence) and is a permutation of the qualified groups; each candidate passes both thresholds, has a positive count, lists exactly its pair's unapplied ids, and has their mean confidence |
| `FeedbackCollector.CandidateOfGroup` | services/feedback_collector.py:218-228 | a group's candidate describes an unapplied pair with exactly that pair's ids and mean confidence |
| `FeedbackCollector.Marked` | services/feedback_collector.py:243-246 | marking keeps the number of records |
| `FeedbackCollector.MarkedIdempotent` | services/feedback_collector.py:243-246 | marking twice with the same ids changes nothing more, and the flags set do not depend on the time |
| `FeedbackCollector.CountApplied` | services/feedback_collector.py:257-258 | the applied count never exceeds the number of records |
| `FeedbackCollector.MarkedCount` | services/feedback_collector.py:243-246 | marking never lowers the applied count, and marking every id applies every record |
| `FeedbackCollector.IdsDistinct` | services/feedback_collector.py:90-105 | correction ids in a store are pairwise distinct |
| `FeedbackCollector.FeedbackStore.constructor` | services/feedback_collector.py:17-31 | the store starts from what loading gives, with positional ids |
| `FeedbackCollector.FeedbackStore.AddCorrectionFeedback` | services/feedback_collector.py:72-112 | appends exactly one unapplied record whose id is new and ends with the old list length; both counters grow by one; the other lists are unchanged |
| `FeedbackCollector.FeedbackStore.AddQualityRating` | services/feedback_collector.py:114-147 | appends one rating, a missing issue list stored empty; only `total_feedback` grows |
| `FeedbackCollector.FeedbackStore.AddDocumentTypeFeedback` | services/feedback_collector.py:149-183 | appends exactly one record with the next positional id, the submitted fields, the time and a `correct` flag that holds iff `predicted == actual`; only `total_feedback` grows |
| `FeedbackCollector.FeedbackStore.GetUnappliedCorrections` | services/feedback_collector.py:185-234 | the grouping, filter and sort loops compute the candidates whose properties `UnappliedCandidatesSpec` states |
| `FeedbackCollector.CollectGroups` | services/feedback_collector.py:198-214 | the grouping loop skips applied records and computes the groups of the rest, in order of first appearance |
| `FeedbackCollector.FilterGroups` | services/feedback_collector.py:216-229 | the filter loop keeps exactly the groups passing both thresholds, in group order |
| `FeedbackCollector.FeedbackStore.MarkCorrectionsApplied` | services/feedback_collector.py:236-249 | a record becomes applied iff it was applied or its id is listed; nothing else in the store changes |
| `FeedbackCollector.FeedbackStore.GetStatistics` | services/feedback_collector.py:251-267 | total corrections is the list length, applied ≤ total and pending = total − applied ≥ 0 |
| `ActiveLearning.Promote` | services/active_learning.py:105-117 | promotion keeps the dictionary well formed |
| `ActiveLearning.PromoteKeepsAndSources` | services/active_learning.py:108-115 | promotion never overwrites or removes a key, and every new key comes from a candidate with that candidate's correction |
| `ActiveLearning.PromoteFirstWins` | services/active_learning.py:108-115 | of candidates sharing an absent original, the first decides the value, unless it is an identity pair |
| `ActiveLearning.PromoteIds` | services/active_learning.py:108-117 | an id is collected iff it belongs to a candidate whose original was not a key when the loop reached it (neither before the update nor added by an earlier candidate of the same run); at most one addition per candidate |
| `ActiveLearning.PromotedWasAbsent` | services/active_learning.py:108-110 | a promoted candidate's original was not a key before the update |
| `ActiveLearning.IdentityCandidateMarked` | services/active_learning.py:108-117 | a promoted identity candidate (original equal to corrected) adds no key, because `learn_from_mistake` ignores identity pairs, yet its ids are collected and so will be marked applied |
| `ActiveLearning.AutoUpdated` | services/active_learning.py:91-124 | one automatic update leaves a consistent dictionary and the same number of correction records |
| `ActiveLearning.PromotionSafety` | services/active_learning.py:94-117 | every key added comes from an unapplied pair seen at least `min_occurrences` times with mean confidence at least `min_confidence`; every id marked names an unapplied record whose original was not a key |
| `ActiveLearning.PromotionMarksWholePairs` | services/active_learning.py:108-122 | every unapplied record whose pair is a promoted candidate has its id marked |
| `ActiveLearning.NoCandidatesNoChange` | services/active_learning.py:99-100 | with no candidates nothing is promoted and no id is collected |
| `ActiveLearning.CommonErrorsSpec` | services/active_learning.py:141-155 | ten entries, or all pairs when there are fewer; by count descending; no pair left out has a larger count than one listed; each entry counts exactly the unapplied records of its pair |
| `ActiveLearning.FindType` | services/active_learning.py:163 | the entry found has the type, and none is found iff no entry has it |
| `ActiveLearning.CountTypeCounts` | services/active_learning.py:161-168 | one counting step keeps every entry's totals exact |
| `ActiveLearning.CountTypeComplete` | services/active_learning.py:161-168 | after one counting step every predicted type has an entry |
| `ActiveLearning.TypeAccuracySpec` | services/active_learning.py:158-176 | one entry per predicted type counting exactly its records and the correct ones, so correct ≤ total |
| `ActiveLearning.TypeCorrectBounded` | services/active_learning.py:166-168 | correct ≤ total for every type, and a type without records has no correct ones |
| `ActiveLearning.LowAccuracyTypes` | services/active_learning.py:185-188 | exactly the types with accuracy < 0.7 and total ≥ 5 |
| `ActiveLearning.Recommendations` | services/active_learning.py:179-193 | the frequent-errors recommendation iff there are common errors; the retraining recommendation iff some type has low accuracy |
| `ActiveLearning.ExportCorrections` | services/active_learning.py:223-232 | as many exported corrections as unapplied records |
| `ActiveLearning.ExportExact` | services/active_learning.py:223-232 | exported corrections are exactly the unapplied records |
| `ActiveLearning.ActiveLearningSystem.constructor` | services/active_learning.py:26-32 | a store and a dictionary of its own, automatic update on, thresholds 2 and 0.7 |
| `ActiveLearning.ActiveLearningSystem.AutoUpdateCorrections` | services/active_learning.py:91-124 | the dictionary becomes the promotion of the current candidates; exactly the collected ids are marked; with nothing collected the store is untouched; counters and other lists never change |
| `ActiveLearning.ActiveLearningSystem.PromoteCandidates` | services/active_learning.py:104-119 | the loop adds each candidate whose source text is not yet in the dictionary and collects its ids, as `Promote` describes |
| `ActiveLearning.ActiveLearningSystem.ProcessFeedback` | services/active_learning.py:34-89 | a correction is stored and, with auto-update on, the corrections and dictionary become one auto-update over the store including it and its id is reported; with auto-update off it is only appended; without a correction neither changes; a quality part appends exactly its rating record and a type part exactly its type record, otherwise those lists are unchanged; each present part bumps `total_feedback` once; the learned type is the actual type |
| `ActiveLearning.ActiveLearningSystem.ProcessCorrection` | services/active_learning.py:52-66 | the new record is appended with its positional id and submitted fields; with auto-update on, the corrections and dictionary become one auto-update (promotion, then marking of the collected ids) over the store including it, and its id is reported; with auto-update off the dictionary is unchanged and nothing is marked; existing dictionary entries keep their values; the other lists are unchanged; both counters grow by one |
| `ActiveLearning.SingleCorrectionNotPromoted` | services/active_learning.py:94-100 | from an empty store with the default thresholds, one submitted correction promotes nothing and marks nothing |
| `ActiveLearning.RepeatedCorrectionPromoted` | services/active_learning.py:94-122 | a second submission of the same correction, with mean confidence at least 0.7 and a new source text, adds it to the dictionary and marks both submissions applied |
| `ActiveLearning.ActiveLearningSystem.AnalyzeFeedbackPatterns` | services/active_learning.py:126-195 | the loops compute the common errors, type accuracy and recommendations that the lemmas above describe |
| `ActiveLearning.CountErrors` | services/active_learning.py:141-155 | the counter loop and `most_common(10)` compute `CommonErrors` of the records |
| `ActiveLearning.CountTypes` | services/active_learning.py:158-168 | the tally loop computes `TypeAccuracy` of the records |
| `ActiveLearning.ActiveLearningSystem.ExportTrainingData` | services/active_learning.py:209-236 | exports one correction per unapplied record and the other two lists unchanged |
| `Processor.ScaleFactor` | core/processor.py:144-145 | the factor is non-negative, is the measured ratio when the base size is positive, and 3.0 otherwise |
| `Processor.TruncMonotone` | core/processor.py:160-163 | `int()` of non-negative reals is monotone |
| `Processor.MulMonotone` | core/processor.py:160-163 | multiplying by a non-negative factor keeps order |
| `Processor.TruncNonNegative` | core/processor.py:160-163 | a non-negative coordinate scales to a non-negative one within one unit below the exact product |
| `Processor.ScaleAxis` | core/processor.py:159-164 | scaling one axis keeps the order of the two coordinates and their non-negativity |
| `Processor.ScaleAreaSpec` | core/processor.py:144-164 | rescaling by the measured factors keeps x1 ≤ x2 and y1 ≤ y2 and non-negative coordinates non-negative |
| `Processor.TruncTriple` | core/processor.py:144-164 | with the fallback factor every coordinate is tripled exactly |
| `Processor.ReadAreas` | core/processor.py:150-187 | one label per kept area record |
| `Processor.ReadAreasSound` | core/processor.py:150-187 | kept areas returned text, are numbered from 1 in increasing order, keep their original coordinates and are labelled with their numbers |
| `Processor.ReadAreasComplete` | core/processor.py:170-187 | every area that returned text is kept |
| `Processor.WithSelectedAreasSpec` | core/processor.py:249-250 | the main text always ends the raw text; an area block, when present, begins it and is followed by the main-text marker |
| `Processor.SelectedAreasIgnoredAsWritten` | core/processor.py:122-129 | as written, the selected-area step never contributes text or area records |
| `Processor.ProcessSelectedAreas` | core/processor.py:150-197 | the area loop labels every area that returned text, in order; the block is non-empty iff some area returned text |
| `Processor.SumBounds` | core/processor.py:223 | a sum of values within [lo, hi] is between n·lo and n·hi |
| `Processor.MeanBounds` | core/processor.py:223 | the mean of values within [lo, hi] is within [lo, hi] |
| `Processor.CombinePages` | core/processor.py:207-232 | page texts joined by the page separator, the mean page confidence or 0 without pages, one page record per page and the total word count |
| `Processor.DocumentReviewSpec` | core/processor.py:373-374 | a document needs review iff its quality report does or some field is invalid; any handwritten area forces it; without review the composite is ≥ 0.7, there is no issue and every field is valid |
| `Processor.Forwarded` | core/processor.py:382-383 | exactly the applied corrections not made by the transformer are forwarded |
| `Processor.RecordsForStep` | core/processor.py:384-390 | one more forwarded correction with its matching record keeps the record list in step |
| `Processor.ForwardImplicitFeedback` | core/processor.py:379-392 | step 6.5 as intended (as written it is never reached, see Findings): earlier records are untouched; one new record per forwarded correction, in order, with the same texts and confidence, the document id and the first 200 characters of the corrected text as context; both counters grow by the number forwarded |
| `Processor.ImplicitFeedbackLostAsWritten` | core/processor.py:343-392 | as written, `process` never succeeds and never forwards implicit feedback, because the call at line 343 raises before step 6.5; as intended, a recognized document succeeds and, with active learning on, forwards nothing only when every applied correction came from the transformer |
| `Processor.ProcessDocument` | core/processor.py:343-394 | as intended: returns the document result and appends exactly the records of step 6.5 when active learning is on; earlier records, document types and ratings are untouched |
| `Processor.ProcessDocumentAsWritten` | core/processor.py:343-398 | as written: a recognized document fails with the missing-attribute error and the feedback store is left exactly as it was |
| `Processor.LowConfidenceSpec` | core/processor.py:422-427 | exactly the corrections below 0.8, tagged with their file |
| `Processor.MinedFromSpec` | core/processor.py:420-427 | one file contributes exactly the corrections below 0.8 of a processed document needing review |
| `Processor.MinedAllSpec` | core/processor.py:415-427 | the batch collects exactly the corrections below 0.8 of processed documents needing review |
| `Processor.FindKey` | core/processor.py:448 | the group found has the source text, and none is found iff no group has it |
| `Processor.ReplacementsSnoc` | core/processor.py:445-450 | one more collected correction extends only its own source text's replacements |
| `Processor.GroupsStepNew` | core/processor.py:447-450 | a new source text opens a group at the end holding its one replacement |
| `Processor.GroupsStepOld` | core/processor.py:447-450 | a known source text's replacement joins its own group |
| `Processor.ErrorGroupsStep` | core/processor.py:445-450 | one grouping step keeps the groups exact |
| `Processor.ErrorGroupsExact` | core/processor.py:441-450 | one group per source text, with distinct keys, holding exactly its replacements in order |
| `Processor.SuggestionsFromSpec` | core/processor.py:453-460 | exactly the groups whose replacements all agree yield a suggestion |
| `Processor.SuggestionsDistinct` | core/processor.py:453-460 | distinct group keys give suggestions for distinct source texts |
| `Processor.SuggestionsSpec` | core/processor.py:441-460 | a source text is suggested iff all its collected replacements agree; the suggestion carries that replacement, confidence 0.7 and the number collected; no source text is suggested twice |
| `Processor.CountSuccess` | core/processor.py:467 | the successful count never exceeds the number of results |
| `Processor.BatchAsWrittenNeverSucceeds` | core/processor.py:415-438 | as written every file fails, so nothing is successful, nothing is suggested and no human review is requested |
| `Processor.NoSuccessNoCount` | core/processor.py:467 | with only failures the successful count is 0 |
| `Processor.NoSuccessNothingMined` | core/processor.py:420-427 | with only failures nothing is mined |
| `Processor.BatchSucceedsOnRecognized` | core/processor.py:415-467 | as intended, a file counts as successful iff it was recognized |
| `Processor.PickLowConfidence` | core/processor.py:422-427 | the inner mining loop collects the corrections below 0.8 |
| `Processor.GroupErrors` | core/processor.py:444-450 | the grouping loop computes the exact groups |
| `Processor.Suggest` | core/processor.py:453-460 | the suggestion loop computes the suggestions of the unanimous groups |
| `Processor.BatchProcess` | core/processor.py:412-468 | one entry per file in input order, a failure recorded without stopping; `successful` counts the processed files; suggestions and `needs_human_review` as mined |
| `Processor.CollectOne` | core/processor.py:416-438 | one pass over a file gives its entry, the corrections it contributes to mining, and 1 exactly when it was processed |
| `Processor.CollectOutcomes` | core/processor.py:412-438 | the file loop gives an entry per file in order, all mined corrections (`MinedAll`) and the count of processed files |
| `FeedbackGen.InvalidFields` | services/feedback_gen.py:42-43 | exactly the critical fields whose `valid` is false or missing |
| `FeedbackGen.GenerateFeedback` | services/feedback_gen.py:15-71 | the confidence score is the overall quality or 0.0; the quality warning iff review is needed; at most one validation error, present iff some field is invalid, listing the invalid fields; the corrections suggestion iff any were applied, carrying their count, and first; the new-corrections suggestion iff any were suggested, carrying them |
| `SpellCorrector.DropPrompt` | models/spell_corrector.py:133-135 | removing the prompt prefix never lengthens the output, changes it only when it has a `:`, and leaves no leading space |
| `SpellCorrector.CorrectText` | models/spell_corrector.py:75-146 | the input is kept without a model, above 200 characters, with fewer than 5 spaces, when generation fails, on a service token or blank output; any other answer has passed every guard: prompt removed, length within [0.5×, 2×] of the input and not blank |
| `SpellCorrector.SpacesNeedLength` | models/spell_corrector.py:96 | a text with at least 5 spaces has at least 5 characters |
| `SpellCorrector.AcceptedOutputTaken` | models/spell_corrector.py:129-142 | a model answer that passes every guard is taken, with the prompt prefix removed |
| `SpellCorrector.CorrectBatch` | models/spell_corrector.py:148-169 | count and order are kept and each text is corrected on its own; without a model the input is returned |
| `SpellCorrector.ApplyErrorsPointwise` | models/spell_corrector.py:224-225 | the replacement chain keeps the length and acts on each character alone |
| `SpellCorrector.FixCharUntouched` | models/spell_corrector.py:224-225 | a character no replacement starts from is unchanged |
| `SpellCorrector.FixCharDigit` | models/spell_corrector.py:224-225 | when every replacement turns a non-digit into a digit, a digit or a replaced letter comes out as a digit |
| `SpellCorrector.NumberCharBecomesDigit` | models/spell_corrector.py:198-219 | every character of the number pattern comes out as an ASCII digit |
| `SpellCorrector.ReplaceInNumbers` | models/spell_corrector.py:221-226 | the loop applies the replacements in dictionary order, keeps the length, and turns a matched token into digits only |
| `SpellCorrector.NumericMask` | models/spell_corrector.py:219-228 | one mask entry per character of the text |
| `SpellCorrector.SimpleCorrectSpec` | models/spell_corrector.py:203-230 | the corrected text has the same length; inside matched tokens every character is an ASCII digit, outside them every character is unchanged |
| `MlQualityCheck.RegionAtShape` | services/ml_quality_check.py:113-125 | a reported region has confidence strictly between 0 and 0.6, short non-blank text and a box whose far corner adds the width and height, or 50 and 20 when missing |
| `MlQualityCheck.MlRegionsExact` | services/ml_quality_check.py:110-126 | exactly the entries with 0 < int(conf) < 60, non-blank text shorter than 10 once stripped, and a left and top coordinate are reported |
| `MlQualityCheck.RegionsShaped` | services/ml_quality_check.py:110-126 | every reported region has the shape of the entry it came from |
| `MlQualityCheck.DetectHandwrittenRegions` | services/ml_quality_check.py:83-128 | the loop reports the flagged entries; nothing without a detail record |
| `MlQualityCheck.CheckQualityMl` | services/ml_quality_check.py:130-182 | the conservative score when the two scores differ by more than 0.3, else the clamped blend; review iff overall < 0.7 or more than 3 regions; exactly one medium `low_ml_quality` issue iff the model's score < 0.6 |
| `MlQualityCheck.ConservativeBetween` | services/ml_quality_check.py:164-167 | the conservative score lies between the two scores |
| `MlQualityCheck.OverallInUnit` | services/ml_quality_check.py:155-167 | with both scores in [0, 1] the overall score is in [0, 1] on either branch |
| `MlQualityCheck.BlendedAntitone` | services/ml_quality_check.py:155-160 | each extra region lowers the blended score or leaves it clamped |
| `DatasetLoader.FirstWordOfJoin` | utils/dataset_loader.py:99-101 | the first word of a word followed by a space-led rest is that word |
| `DatasetLoader.WordsOfJoin` | utils/dataset_loader.py:99-101 | words joined by single spaces split back into the same words |
| `DatasetLoader.BaseNameSpec` | utils/dataset_loader.py:88-102 | a name whose first word is not a number is kept; otherwise its words are the name's words after the first; a bare number gives "" |
| `DatasetLoader.KeysStep` | utils/dataset_loader.py:62-65 | one grouping step keeps the keys distinct and exactly the base names seen |
| `DatasetLoader.LastOfKindStep` | utils/dataset_loader.py:67-71 | one grouping step keeps the last file of each kind |
| `DatasetLoader.GroupFilesExact` | utils/dataset_loader.py:60-71 | one group per base name; each keeps the last scan and the last reference with that base name, classified by lower-cased extension |
| `DatasetLoader.PairsOfExact` | utils/dataset_loader.py:74-83 | exactly the groups with both a scan and a reference yield a pair |
| `DatasetLoader.DirectoryPairsSpec` | utils/dataset_loader.py:57-83 | a pair names a base name with both kinds of file and carries the last scan and reference with their lower-cased extensions; every such base name yields a pair |
| `DatasetLoader.DirectoryPairsSound` | utils/dataset_loader.py:60-83 | every pair names a base name with a scan and a reference in the listing and carries the paths and lower-cased extensions of the last scan and the last reference with that base name |
| `DatasetLoader.DirectoryPairsComplete` | utils/dataset_loader.py:60-83 | every base name with both a scan and a reference in the listing yields a pair |
| `DatasetLoader.DatasetPairsFiltered` | utils/dataset_loader.py:46-54 | every pair comes from a scanned directory, so with a type given its directory name contains it |
| `DatasetLoader.GroupDirectory` | utils/dataset_loader.py:57-71 | the grouping loop computes the groups |
| `DatasetLoader.CollectPairs` | utils/dataset_loader.py:73-83 | the pairing loop collects the pairs in key order |
| `DatasetLoader.FindDocumentPairs` | utils/dataset_loader.py:26-86 | nothing when the documents directory is missing; otherwise the pairs of every scanned directory in listing order |
| `DatasetLoader.DocumentTypesSpec` | utils/dataset_loader.py:154-167 | the types are sorted and are the directory names, each as often as listed |
| `DatasetLoader.DirNamesExact` | utils/dataset_loader.py:166 | exactly the names of the entries that are directories |
| `AreaDetector.ContourAreasSpec` | services/area_detector.py:70-84 | exactly the rectangles wider and taller than 50 become text blocks spanning x..x+w, y..y+h; none iff no rectangle is large enough |
| `AreaDetector.DetectByContours` | services/area_detector.py:48-84 | the filtering loop computes the contour blocks |
| `AreaDetector.DetectAreas` | services/area_detector.py:17-46 | the result depends only on the page size and the rectangles, not on the template |
| `AreaDetector.AreasOfSpec` | services/area_detector.py:34-46 | never empty; exactly one full-page area iff no rectangle is large enough; otherwise only text blocks |

## Left out

- core/ocr_engine.py is not part of this model. Recognition results, page texts, image sizes and the OCR detail records are inputs.
- OpenCV metrics (Laplacian variance, grey-level mean and deviation, Otsu binarisation, contours) are inputs. Reals stand for Python floats, without rounding.
- `difflib.SequenceMatcher` is the parameter `ratio`; its bound to [0, 1] is not assumed.
- Regular expressions are given as their matches. The word-boundary and Unicode-class semantics of `\b`, `\w`, `\s`, `isalnum`, `isdigit`, `isupper` and `islower` are approximated by ASCII digits and Latin and Cyrillic letters.
- JSON persistence (`save_corrections`, `_save_feedback`, the export file, `format_output`) does nothing. Reading a file is an outcome datatype: missing, unreadable or parsed.
- Clocks and `uuid` are parameters. Feedback ids are kept as (kind, timestamp, index). The random `document_id` of a failed batch entry is not modelled.
- A parsed feedback file is taken to have positional ids, as the store itself writes them. `IdsDistinct` relies on that.
- torch and transformers code is not modelled: `predict_quality`, `_create_model`, model loading and `generate`, the document classifier and `_load_classifier`. The transformer's decoded answer and the image model's score are inputs.
- `SpellCorrector.correct_with_context` (models/spell_corrector.py:171-189) is not modelled. Nothing in the pipeline calls it.
- `DatasetLoader.load_reference_text` and `create_training_pairs` read .docx, .xlsx and text files. They are file I/O and not modelled.
- `ActiveLearningSystem.get_learning_statistics` only bundles `get_statistics`, the analysis and the dictionary size. It is not modelled separately.
- The HTTP layer, configuration, scripts and example clients are not modelled. The similarity threshold 0.8 is used as a constant.
- `pathlib` stems and suffixes are given with each file entry. Only the lower-casing of the suffix is modelled.
- `Processor.DocumentReviewSpec`: the quality report's `needs_review` is a boolean, not an arbitrary truthy value. The steps that only attach data (`text_regions`, `pages_info`, classification, the important-data dictionary) are not modelled.
- `FeedbackGen.GenerateFeedback`: messages and severities are functions of the notice (`Message`, `Severity`) rather than stored strings. `corrections_applied` is reduced to its length.
- `QualityCheck.CheckQuality`: warning and issue texts are constructors, not the Russian messages; `text_regions` is not copied into the report.
- `Processor.ScaleAreaSpec`: only order and sign are stated for measured factors; the exact value is stated only for the fallback factor (`TruncTriple`).
- `SpellCorrector.CorrectText`: the tokenizer's truncation to 512 tokens and the generation length limit are inside the given model answer.

## Findings

| source | as written | input that shows it | evidently intended | confidence | as-written member | corrected member |
|---|---|---|---|---|---|---|
| core/processor.py:343 | `process` calls `self.validator.extract_important_data(...)`. `FieldValidator` defines no such method, so every call raises AttributeError, which is re-raised at core/processor.py:396-398. The call comes before the result is built (core/processor.py:346-376) and before step 6.5 (core/processor.py:378-392), so no implicit feedback is ever collected (`Processor.ImplicitFeedbackLostAsWritten`, `Processor.ProcessDocumentAsWritten`) | any file that recognition reads, e.g. a one-page image; `process` adds no correction record, and `batch_process` then reports every file as an error, `successful` is 0 and no suggestion is mined | the document result is returned and the applied corrections are forwarded as implicit feedback (`Processor.ProcessDocument`), so a recognized file counts as successful and its review flag feeds suggestion mining | not executed | `Processor.BatchAsWrittenNeverSucceeds` | `Processor.BatchSucceedsOnRecognized` |
| core/processor.py:126-129 | the selected-area step calls `load_image(file_path, dpi=900)`, but the engine's `load_image` takes no `dpi` argument; the TypeError is caught at core/processor.py:198-200 | any request with at least one selected area whose text recognition would read | each area is rescaled, read at 900 DPI and prepended to the main text with its label; this needs both calls changed, since `extract_text_by_area` (core/ocr_engine.py:325), called with `dpi=900` at core/processor.py:169, takes no `dpi` either | not executed | `Processor.SelectedAreasIgnoredAsWritten` | `Processor.ProcessSelectedAreas` |
