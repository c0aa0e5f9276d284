# EduLens core, modelled in Dafny

EduLens photographs an educational diagram and answers with a 3D model to look at. This
project models the discrete logic around that answer. The image embedding is not modelled:
it appears only as a sequence of per-label scores.

The model covers two groups of code.

- **The ML pipeline.**
  - `classify.py` ranks the label scores, keeps the top k and maps labels to subjects. Batch
    classification isolates each item's failure, and the label taxonomy can be extended in
    place.
  - `pipeline.py` makes the confidence-threshold decision and processes batches.
  - `content_mapper.py` holds the subject→asset table, with its lookups, filters and
    recommendation record.
  - `evaluation.py` keeps the prediction log and computes counts, top-k accuracy and
    calibration bins.
  - `dataset_builder.py` covers sample naming, the manifest grouping and the report counters.
- **The gamification backend.**
  - XP and levels.
  - The daily streak.
  - The MCQ bank and answer checking.
  - The activity log.
  - The rule-based topic recommender.
  - The label→model-path table.
  - The upload checks.

Modelling choices that apply throughout:

- **Storage.**
  - Each JSON file of the store is a field of a class: a `map` for the per-user files and a
    `seq` for the question bank and the activity log.
  - Operations that change a file are methods with `modifies`.
  - Where the source reports whether a write succeeded, that outcome is a `written` parameter.
- **Time.** The clock is a parameter.
  - Instants that the source formats with `isoformat` are carried either as strings or as
    naturals in ISO-8601 order, for the activity timestamps.
  - Streak dates are day numbers.
- **Classification.**
  - An `encode` function parameter stands for loading an image and scoring it against the
    labels.
  - Rounding scores to four places is treated as the identity.
- **Data.**
  - Python dictionaries read from JSON become datatypes. A key the object may lack becomes
    an `Option` field.
  - Python's slicing `s[:k]` (negative `k` included), `rsplit`, `str.replace` and
    `dict.get(k, default)` are modelled exactly, in `Seqs` and `Text`.
  - `str.lower` covers ASCII letters only.

Modules:

- Helpers: `Wrappers`, `Seqs`, `Text`, `MapSums` (sum of a `map<K, nat>`) and `Groups`
  (group-by with sizes).
- One module per source file: `Classify`, `Pipeline`, `ContentMapper`, `Evaluation`,
  `DatasetBuilder`, `XpService`, `StreakService`, `McqService`, `ActivityService`,
  `RecommendationService`, `ModelMapping` and `FileValidation`.

## Model

| member | source | states |
|---|---|---|
| Classify.RankDescending | ml_models/classify.py:140 | the ranking holds every label index exactly once, in non-increasing score order |
| Classify.RankFirstIsMax | ml_models/classify.py:140-158 | the first ranked index carries the maximum score |
| Classify.ClassifyScores | ml_models/classify.py:140-171 | fails exactly when `ranking[:top_k]` is empty (top_k 0, for one); otherwise keeps `min(top_k, n)` predictions (Python slice rule for negative top_k), with `all_scores` keyed by every label's subject |
| Classify.TopKCount | ml_models/classify.py:140-156 | `top_k >= 1` with a non-empty taxonomy gives exactly `min(top_k, n)` predictions; `top_k = 0` is the IndexError |
| Classify.TopPredictionsOrdered | ml_models/classify.py:140-153 | top predictions are in non-increasing confidence order |
| Classify.TopPredictionsAreLabels | ml_models/classify.py:144-153 | each prediction is (`LABEL_TO_SUBJECT[label]`, label, score) of one label index; labels are distinct when the taxonomy's are |
| Classify.TopPredictionsAreHighest | ml_models/classify.py:140-153 | the kept predictions are the highest-scoring labels: every label scoring above the last kept confidence is among them |
| Classify.PredictedIsBest | ml_models/classify.py:155-158 | `predicted_subject` and `confidence` are those of the first prediction, and no score exceeds that confidence |
| Classify.AllScoresPerLabel | ml_models/classify.py:161-164 | with distinct subjects, `all_scores` maps every label's subject to that label's score |
| Classify.AllScores | ml_models/classify.py:161-164 | keys are the mapped subjects; a subject's value is the score of the last label mapped to it |
| Classify.BuiltInTaxonomy | ml_models/classify.py:21-66 | every built-in label has a subject in `LABEL_TO_SUBJECT` |
| Classify.Entry | ml_models/classify.py:186-196 | a batch entry carries the path; it is the error record exactly when classifying failed, with that error |
| Classify.SubjectClassifier.ClassifyImage | ml_models/classify.py:110-171 | an encoding failure is passed on; with embeddings for every shared label it fails exactly when the top-k cut is empty and else keeps `min(top_k, n)` predictions; with embeddings older than the shared taxonomy it fails with the empty-cut IndexError or with the IndexError of `scores[embedded]` |
| Classify.SubjectClassifier.ClassifyBatch | ml_models/classify.py:173-197 | one entry per path, in order, each the entry of that path's own classification, so a failure does not affect later paths |
| Classify.SubjectClassifier.AddCustomLabels | ml_models/classify.py:199-212 | the class-level taxonomy shared by every classifier gains the new keys after the old labels, in order, and the new mappings; every label stays mapped, and only this classifier's embeddings cover the new labels |
| Classify.ExtendThroughOne | ml_models/classify.py:199-212 | a label added through one classifier is seen by another over the same taxonomy, whose next classification then raises IndexError at the new label's score |
| Classify.DictOf | ml_models/classify.py:208-209 | the dictionary built from pairs has exactly their keys, each mapped to its value |
| Pipeline.Respond | ml_models/pipeline.py:52-72 | `high_confidence`/"Automatic recommendation" exactly when confidence >= threshold, `low_confidence`/"Manual review recommended" exactly when below; subject, confidence, top predictions, recommendation and user query are passed through |
| Pipeline.EduLensIntelligence.ProcessImage | ml_models/pipeline.py:31-74 | fails exactly when classification (top_k 3) or the recommendation lookup fails; otherwise copies the classification fields and user query, attaches `get_recommendation(subject)` and decides by the threshold |
| Pipeline.EduLensIntelligence.BatchProcess | ml_models/pipeline.py:144-173 | one item per path, in order; a failing path yields its error item and later paths are still processed |
| Pipeline.ItemOf | ml_models/pipeline.py:161-171 | the item is the error record with path and error exactly when processing failed |
| Pipeline.EduLensIntelligence.WithDefaultThreshold | ml_models/pipeline.py:18-28 | the default confidence threshold is 0.7, and the new classifier embeds every label of the shared taxonomy as extended so far |
| Pipeline.HighConfidenceWithoutModel | ml_models/pipeline.py:52-55 | a `not_found` recommendation can accompany `high_confidence` |
| Pipeline.PipelineClassificationSucceeds | ml_models/pipeline.py:44 | with top_k 3 and a non-empty taxonomy, classification yields min(3, n) predictions |
| ContentMapper.GetModelInfo | ml_models/content_mapper.py:40-50 | `None` when the subjects table is missing or has no such subject; otherwise that subject's entry |
| ContentMapper.GetModelFile | ml_models/content_mapper.py:52-63 | `None` for an unknown subject; otherwise the entry's "file" |
| ContentMapper.GetAnimations | ml_models/content_mapper.py:65-76 | `[]` for an unknown subject; a non-empty result is the entry's "animations" |
| ContentMapper.GetByCategory | ml_models/content_mapper.py:78-93 | exactly the entries whose `subject_category` equals the argument, data and order unchanged |
| ContentMapper.GetByDifficulty | ml_models/content_mapper.py:95-110 | exactly the entries whose `difficulty_level` equals the argument, in order |
| ContentMapper.SearchByTag | ml_models/content_mapper.py:112-127 | exactly the entries with a tag equal to the argument ignoring case, in order |
| ContentMapper.TagSearchIsNotSubstring | ml_models/content_mapper.py:126 | "cell" does not find a "Cell Biology" tag; "CELL biology" does |
| ContentMapper.GetAllSubjects | ml_models/content_mapper.py:175-177 | the table's subject keys, in order |
| ContentMapper.GetRecommendation | ml_models/content_mapper.py:129-173 | `not_found` with the subject echoed for an unknown subject or an empty entry; KeyError exactly when a required field of a non-empty entry is missing; `success` when all four are present, with the entry's fields, the difficulty match true without a preference and equality otherwise, and the optional fields defaulting to `[]`, `[]`, `""`, `[]` and "N/A" |
| ContentMapper.MinConfidenceIgnored | ml_models/content_mapper.py:132 | `min_confidence` never changes the result |
| ContentMapper.LookupFindsEntry | ml_models/content_mapper.py:50 | in a table with unique subjects, the lookup returns the entry stored under the subject |
| ContentMapper.ModelInfoIsEntry | ml_models/content_mapper.py:50-76 | the info, file and animations of a present subject are its entry's |
| ContentMapper.CategoriesPartitionTable | ml_models/content_mapper.py:88-93 | an entry with a category is in that category's result and in no other |
| ContentMapper.CategoriesCoverTable | ml_models/content_mapper.py:88-93 | the results over all categories together are exactly the entries with a category |
| Evaluation.ModelEvaluator.AddPrediction | ml_models/evaluation.py:27-31 | appends one element to each of the three lists, keeping their lengths equal |
| Evaluation.MetricsOf | ml_models/evaluation.py:40-91 | the "No predictions to evaluate" record exactly when empty; correct/incorrect counts are the sizes of the matching/mismatching position sets and add up to the sample count; accuracy is the correct count over n; the averages default to 0 |
| Evaluation.MetricsInUnitRange | ml_models/evaluation.py:71-78 | accuracy and the three confidence averages lie in [0, 1] for confidences in [0, 1] |
| Evaluation.ModelEvaluator.ComputeMetrics | ml_models/evaluation.py:33-91 | the error record exactly when no prediction was added; the counts add up |
| Evaluation.CountWhereIsSet | ml_models/evaluation.py:72-87 | the count of a mask is the number of positions holding the value |
| Evaluation.CountWhereSplit | ml_models/evaluation.py:86-87 | true and false counts add up to the length |
| Evaluation.TopKAccuracyOf | ml_models/evaluation.py:102-117 | ZeroDivisionError exactly when there are no ground truths; otherwise the hit count over `zip` divided by the number of ground truths, in [0, 1] |
| Evaluation.TopKHitsIsSet | ml_models/evaluation.py:113-116 | the hit count is the number of pairs whose ground truth is in `preds[:k]` |
| Evaluation.TopKAccuracyMonotone | ml_models/evaluation.py:113-117 | top-k accuracy is non-decreasing in k for k >= 0 |
| Evaluation.TopKAccuracyNegativeK | ml_models/evaluation.py:114 | a negative k slices from the end: k = -1 can score higher than k = 0 |
| Evaluation.ModelEvaluator.TopKAccuracy | ml_models/evaluation.py:102-117 | fails exactly with no ground truths; otherwise in [0, 1] |
| Evaluation.BinAccuracy | ml_models/evaluation.py:141-147 | a bin's accuracy lies in [0, 1] and is 0 for an empty bin |
| Evaluation.CalibrationCurve | ml_models/evaluation.py:120-149 | fails exactly for n_bins < -1 or mismatched lists with some bin used; otherwise one center, count and accuracy per bin, bin i holding [i/n, (i+1)/n), an empty bin reporting 0 and 0 |
| Evaluation.OneIsInNoBin | ml_models/evaluation.py:141 | a confidence of exactly 1.0 falls into no bin |
| Evaluation.BinCountsTotal | ml_models/evaluation.py:140-147 | the bin counts add up to the number of confidences in [0, 1), at most the sample count |
| Evaluation.EdgeFacts | ml_models/evaluation.py:135 | edges run from 0 to 1 and increase |
| DatasetBuilder.SampleFilename | ml_models/dataset_builder.py:81-82 | the sample name is exactly `subject_timestamp` followed by the source image's `Path.suffix` (nothing when it has none), so it keeps the image's extension |
| DatasetBuilder.Suffix | ml_models/dataset_builder.py:82 | `Path.suffix`: empty, or a dot followed by dot-free text at the end of the name |
| DatasetBuilder.AnnotationStem | ml_models/dataset_builder.py:104 | `rsplit('.', 1)[0]`: the name up to its last dot, or the whole name without one |
| DatasetBuilder.AnnotationNameDropsSuffix | ml_models/dataset_builder.py:81-104 | the annotation file is `subject_timestamp.json`: the sample name with its extension replaced |
| DatasetBuilder.DatasetBuilder.AddSample | ml_models/dataset_builder.py:55-108 | for plain path components (see Left out): a missing source fails with "Image not found" and changes nothing; a copy into a category with no "raw" directory (only biology, chemistry, physics and astronomy are created) fails with `shutil.copy2`'s FileNotFoundError and changes nothing; otherwise the record copies subject and category, defaults annotations to {}, is copied when asked and is written under the annotation name |
| DatasetBuilder.DatasetBuilder.CreateManifest | ml_models/dataset_builder.py:110-162 | `total_samples` is the number of records; the categories are the records grouped by category and then by subject, in order |
| DatasetBuilder.CategoryCountsTotal | ml_models/dataset_builder.py:152-153 | the category counts add up to the number of records |
| DatasetBuilder.CategoryCountIsListTotal | ml_models/dataset_builder.py:146-152 | a category's count is the total length of its subject lists |
| DatasetBuilder.RecordInItsList | ml_models/dataset_builder.py:135-150 | each record's item is in its own (category, subject) list |
| DatasetBuilder.ExpectedCategoriesSnoc | ml_models/dataset_builder.py:135-152 | one more record creates its category entry if new, adds one to the count and appends its item to its subject's list |
| DatasetBuilder.DatasetBuilder.GenerateDatasetReport | ml_models/dataset_builder.py:164-206 | corrected reading (see Findings: each png counted once, not twice): `by_category` holds each raw directory's image count and `raw_count` is their sum; `total_images = raw_count + processed_count`; `by_subject` counts records per subject and sums to their number |
| DatasetBuilder.CountRaw | ml_models/dataset_builder.py:180-187 | corrected reading (see Findings: each png counted once, not twice): one entry per raw category directory holding its image count, and `raw_count` is their sum |
| DatasetBuilder.RawCountsFacts | ml_models/dataset_builder.py:180-187 | with distinct directory names, the raw loop stores every category once, with its own image count |
| DatasetBuilder.RawCountsSum | ml_models/dataset_builder.py:180-187 | with distinct directory names, the running `raw_count` is the sum of the stored category counts |
| DatasetBuilder.CountProcessed | ml_models/dataset_builder.py:190-193 | corrected reading (see Findings: each png counted once, not twice): the processed images over all directories |
| DatasetBuilder.CountSubjects | ml_models/dataset_builder.py:198-204 | per-subject record counts, starting each at 0 |
| DatasetBuilder.ImageCount | ml_models/dataset_builder.py:183 | each image file is counted once, at most the number of files |
| DatasetBuilder.AsWrittenCountsPngTwice | ml_models/dataset_builder.py:183-192 | the two globs as written count every png file twice |
| DatasetBuilder.PngCountedTwice | ml_models/dataset_builder.py:183 | one "heart.png" counts 2 as written and 1 as intended |
| Groups.GroupSizesSum | ml_models/dataset_builder.py:203-204 | the group sizes add up to the number of elements |
| XpService.CalculateLevel | backend/app/services/xp_service.py:124-140 | the loop's level equals the threshold-count specification |
| XpService.LevelAtLeastOne | backend/app/services/xp_service.py:125-131 | every integer XP has level at least 1 |
| XpService.LevelOneBelowFifty | backend/app/services/xp_service.py:125-131 | XP below 50 is level 1 |
| XpService.LevelIsBracket | backend/app/services/xp_service.py:124-140 | for 0 <= xp < 2250 the level L satisfies thresholds[L-1] <= xp < thresholds[L] |
| XpService.LevelBeyondLastThreshold | backend/app/services/xp_service.py:134-138 | for xp >= 2250 the level is 10 + (xp - 2250) div 500 |
| XpService.LevelMonotone | backend/app/services/xp_service.py:124-140 | the level never decreases as XP grows |
| XpService.XpToNextPositive | backend/app/services/xp_service.py:142-149 | at its own level, some XP is always left to the next level |
| XpService.GainNeverLowersLevel | backend/app/services/xp_service.py:103-104 | a non-negative gain never lowers the level |
| XpService.XpServiceState.AddXp | backend/app/services/xp_service.py:79-122 | stores current (0 if absent) + amount with its level; `xp_added = amount`; level_up exactly when the new level exceeds the old (1 for a new user); only this user's entry changes |
| XpService.XpServiceState.GetXpData | backend/app/services/xp_service.py:46-77 | xp 0, level 1, 50 to go for an unknown user; KeyError for an entry without "xp"; otherwise the stored XP with its level, the stored `updated_at`, and the distance after which (and not one XP before) the next level begins |
| XpService.XpToNextReachesNextLevel | backend/app/services/xp_service.py:142-149 | for every XP, negative totals included, one XP less than the distance stays at the level and the distance itself reaches the next level |
| XpService.GetXpReward | backend/app/services/xp_service.py:151-161 | the table's reward, 0 for an unknown action and 10 for `mcq_correct` |
| StreakService.StreakAfter | backend/app/services/streak_service.py:55-77 | 1 for a new user; unchanged if last active today; +1 if yesterday; 1 if missing, older or in the future |
| StreakService.SameDayIdempotent | backend/app/services/streak_service.py:69-79 | a second update on the same day keeps the streak |
| StreakService.StreakState.UpdateStreak | backend/app/services/streak_service.py:41-86 | the streak follows the rules, `last_active` becomes today, and only this user's entry changes |
| StreakService.StreakState.ResetStreak | backend/app/services/streak_service.py:88-110 | this user's entry becomes streak 0 with no last activity; other entries are kept |
| StreakService.StreakState.GetStreak | backend/app/services/streak_service.py:19-39 | the stored entry, or streak 0 with no activity for an unknown user |
| McqService.DailyMcqs | backend/app/services/mcq_service.py:16-35 | `[:limit]`: exactly min(`limit`, n) questions (Python's slice rule for negative `limit`), n being the subject's questions for a non-empty subject and the whole bank otherwise; a prefix of that pool |
| McqService.DailyMcqsArePrefixOfSubject | backend/app/services/mcq_service.py:31-35 | a non-empty subject gives `min(limit, n)` of its questions, in bank order |
| McqService.QuestionsBySubject | backend/app/services/mcq_service.py:87-100 | exactly the questions with that subject |
| McqService.QuestionsBySubjectKeepsOrder | backend/app/services/mcq_service.py:100 | the subject filter keeps bank order |
| McqService.QuestionBank.GetQuestionById | backend/app/services/mcq_service.py:37-54 | the first question with that id, or `None` exactly when none has it |
| McqService.QuestionBank.ValidateAnswer | backend/app/services/mcq_service.py:56-85 | "Question not found" exactly for an unknown id; otherwise the first such question's verdict |
| McqService.AnswerOf | backend/app/services/mcq_service.py:75-85 | correct exactly when the selection equals the stored answer; explanation and subject default to "" |
| McqService.QuestionBank.AddQuestion | backend/app/services/mcq_service.py:102-121 | on a successful write the question, stamped with `created_at`, goes at the end and earlier questions are unchanged |
| ActivityService.ActivityLog.LogActivity | backend/app/services/activity_service.py:23-47 | appends exactly one entry with the given user, type, details and time |
| ActivityService.SortNewestFirst | backend/app/services/activity_service.py:70 | the sort leaves a permutation in non-increasing timestamp order |
| ActivityService.NewestFirst | backend/app/services/activity_service.py:70-72 | `sorted[:limit]`: at most `limit` entries, newest first, drawn from the pool, none left out newer than one kept |
| ActivityService.KeepNewest | backend/app/services/activity_service.py:70-72 | a prefix of a newest-first permutation is newest first, drawn from the pool, and no entry left out is newer than one kept |
| ActivityService.ActivityLog.GetRecentActivities | backend/app/services/activity_service.py:49-72 | `user_logs[:limit]`: exactly min(`limit`, n) of the user's n entries (Python's slice rule for negative `limit`), from the log, newest first, none omitted newer than one returned |
| ActivityService.ActivityLog.GetActivitiesByType | backend/app/services/activity_service.py:74-102 | `filtered_logs[:limit]`: exactly min(`limit`, n) of the n entries matching user and type (Python's slice rule for negative `limit`), newest first, none omitted newer than one returned |
| ActivityService.ActivityLog.GetActivityStats | backend/app/services/activity_service.py:104-125 | `total_activities` is the user's entry count and the per-type counts add up to it |
| ActivityService.UntypedCountedAsUnknown | backend/app/services/activity_service.py:119 | an entry without a type is counted under "unknown" |
| RecommendationService.Choose | backend/app/services/recommendation_service.py:42-55 | a known `based_on` (lower-cased) gives its list; else the most recent viewed topic's list; else the default four; never empty |
| RecommendationService.ChooseAsWritten | backend/app/services/recommendation_service.py:42-55 | as the code reads: a known `based_on` first, then the first (oldest) topic of the window, otherwise the default four; always four topics |
| RecommendationService.AsWrittenFollowsOldestView | backend/app/services/recommendation_service.py:48-52 | after views of the heart and then DNA, the code recommends heart topics where the most recent view is DNA |
| RecommendationService.ChoicesAgreeOnOneTopic | backend/app/services/recommendation_service.py:48-52 | the two readings agree when at most one topic was viewed |
| RecommendationService.GetRecommendations | backend/app/services/recommendation_service.py:27-55 | corrected reading (see Findings: the most recent topic, where the code takes `recent_topics[0]`): the choice over the topics of the user's last five model views; never empty |
| RecommendationService.RecentTopics | backend/app/services/recommendation_service.py:57-76 | the topics of the user's last five `viewed_model` entries with a model, in log order, at most five |
| RecommendationService.TopicsComeFromViews | backend/app/services/recommendation_service.py:68-74 | every recent topic is the topic of a window view whose model is non-empty |
| RecommendationService.TopicOf | backend/app/services/recommendation_service.py:73 | a topic never contains '_' |
| RecommendationService.TopicOfAcCircuit | backend/app/services/recommendation_service.py:73 | "ac_circuit.glb" becomes "ac circuit" |
| RecommendationService.TopicOfHeart | backend/app/services/recommendation_service.py:73 | "heart.glb" becomes "heart" |
| RecommendationService.EveryRecommendationListHasFour | backend/app/services/recommendation_service.py:14-22 | every topic's list has four entries |
| RecommendationService.RelatedSubjects | backend/app/services/recommendation_service.py:78-97 | the subject's group without the subject, and `[]` for an unknown subject |
| RecommendationService.RelatedShareAGroup | backend/app/services/recommendation_service.py:89-95 | a related subject is in the subject's own group |
| ModelMapping.GetModelPath | backend/app/utils/model_mapping.py:16-27 | always "/static/models/" followed by a non-empty file name |
| ModelMapping.CaseInsensitive | backend/app/utils/model_mapping.py:26 | a label and its lower-case form give the same path |
| ModelMapping.UnknownLabelGetsHeart | backend/app/utils/model_mapping.py:26 | an unknown label gives "/static/models/heart.glb" |
| ModelMapping.TableLabelsMapToTheirFile | backend/app/utils/model_mapping.py:5-27 | every table label gives the prefix followed by its own file |
| ModelMapping.GetAvailableLabels | backend/app/utils/model_mapping.py:30-37 | the seven labels in declaration order |
| FileValidation.ValidateFileType | backend/app/utils/file_validation.py:9-27 | a name without '.' is refused; otherwise accepted exactly when the text after the last '.', lower-cased, is png, jpg or jpeg |
| FileValidation.ExtensionOf | backend/app/utils/file_validation.py:22 | the extension exists exactly when the name has a '.', and is then the lower-cased text after the last '.' |
| FileValidation.UpperCaseExtensionAccepted | backend/app/utils/file_validation.py:22-25 | "a.PNG" passes: the extension is lower-cased before the check |
| FileValidation.LastDotDecides | backend/app/utils/file_validation.py:22-27 | "a.png.exe" is refused with extension "exe": only the text after the last dot counts |
| FileValidation.TrailingDotRefused | backend/app/utils/file_validation.py:19-27 | "a." has the empty extension and is refused; "photo" is refused for having no extension |
| FileValidation.ValidateFileSize | backend/app/utils/file_validation.py:30-44 | refused exactly when the size exceeds 10 MiB |
| FileValidation.SizeBoundary | backend/app/utils/file_validation.py:30-44 | exactly 10 MiB passes, one byte more does not |

## Left out

- CLIP inference: model loading, image and text encoding, normalisation, the scaled softmax
  and device choice are foreign numeric code. An `encode` parameter returns the per-label
  scores or an error in their place.
- Classify.ClassifyScores: `round(score, 4)` is treated as the identity. The order of equal
  scores is fixed (lower index first), but no contract states it. numpy's `argsort` leaves it
  unspecified.
- Classify.SubjectClassifier.AddCustomLabels: recomputing the text embeddings is modelled
  only as the number of labels embedded; the embeddings themselves are left out with CLIP.
  The class attributes are a `Taxonomy` object handed to each classifier, since Dafny has
  no class-level state. A key that is already a label is appended again, as `extend` does, and the model
  requires the new keys to be distinct among themselves, as a dictionary's are.
- sklearn precision, recall, F1, the confusion matrix and the classification report are
  foreign library calls. `np.mean` is exact real division here.
- Evaluation.CalibrationCurve: the bin edges are the exact reals i/n. `np.linspace` floats
  may put a confidence on the other side of a boundary. The centers are exact midpoints.
  Both error texts are abbreviated: numpy's `linspace` message also names the count, and the
  boolean-index IndexError goes on with the array sizes, in wording that varies between
  numpy versions.
- Display text: `explain_recommendation`, all printing, `create_collection_guide` and the
  command-line entry points are not modelled.
- ContentMapper: `_load_metadata` (a file read) is replaced by a `Metadata` value.
  `get_categories` and `export_subject_list` are not modelled: the first is a plain read of
  one key and the second is a file write.
- ContentMapper.GetRecommendation: a missing required field gives an error carrying the
  KeyError's text only.
- DatasetBuilder: copying, globbing and `json.dump` are filesystem effects. Of directory
  creation only the set of directories under the base path is kept; it decides whether a
  copy into `raw/<category>` succeeds for the plain components described on the next line.
- DatasetBuilder.DatasetBuilder.AddSample: the base path, category, subject and image path
  are taken as plain, non-empty components without '/', joined as text. pathlib's
  normalisation is not modelled: a category such as "biology/" or "" is refused here though
  pathlib would copy into an existing directory; a base path with a trailing '/' or an
  image path such as "./img.png" is recorded unnormalised; and a '/' in the subject, which
  makes the copy or the annotation write fail, is accepted. Directory listings and annotation records are passed in as sequences, and the
  annotation directory is a map from file name to record. The manifest is returned rather
  than written, and `is_dir` filtering and glob case sensitivity are not modelled.
- DatasetBuilder.BaseName: `Path.name` is the text after the last '/'. Trailing slashes and
  other path normalisation are not modelled.
- Storage: JSON parsing and file errors are not modelled. A file that cannot be read counts as
  the caller's default.
  - The XP and streak services ignore the write's outcome, so their methods always update the
    map.
  - For the MCQ bank and the activity log, the outcome is the `written` parameter.
- StreakService.StreakState.UpdateStreak: an entry without a "streak" key is not represented.
  The source raises KeyError on the increment. Malformed date strings are not represented
  either: dates are day numbers.
- XpService.XpServiceState.GetXpData: the error for an entry without "xp" carries only the
  KeyError's text.
- McqService.QuestionBank.AddQuestion: the caller's dictionary gaining `created_at` (an
  aliasing effect) is not modelled. A store without a "questions" key reads as an empty bank.
- ActivityService.SortNewestFirst: the contract does not state that entries with equal
  timestamps keep log order, although Python's sort is stable. A missing timestamp sorts
  before every timestamp, as the empty string does.
- ActivityService.ActivityLog.LogActivity: `append_log`'s replacement of a stored value that
  is not a list is not modelled. Its stamping of entries without a timestamp is not needed:
  every logged entry has one.
- FileValidation.ValidateFileType: the HTTP 400 exception is a `Rejection` value. The text of
  the "Allowed types" message joins a set whose order varies, so only the kind of rejection is
  modelled.
- Text.Lower: only ASCII letters are lowered; Python's `str.lower` is full Unicode.
- HTTP routes, schemas, the application object and the lazy service singletons are plumbing
  and are not modelled.

## Findings

| source | as written | input that shows it | evidently intended | confidence | as-written member | corrected member |
|---|---|---|---|---|---|---|
| ml_models/dataset_builder.py:183 | the images of a directory are `glob("*.[jp]*g") + glob("*.png")`, and the first pattern also matches ".png" | a directory holding only "heart.png" reports a count of 2 (also at line 192) | each image file counted once | high; not executed | DatasetBuilder.AsWrittenCountsPngTwice | DatasetBuilder.ImageCount |
| backend/app/services/recommendation_service.py:50 | `recent_topics[0]` is the oldest of the last five viewed topics, though the comment says "most recent topic" | views of "heart.glb" and then "dna.glb" with no `based_on` recommend heart topics | recommend after the most recent view, `recent_topics[-1]` | medium; not executed | RecommendationService.ChooseAsWritten | RecommendationService.Choose |
