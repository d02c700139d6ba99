# Item-based recommender: a Dafny model

This project models the engine of a small recommender that suggests items
from a fixed catalog of 60. It learns only from 1–5 star ratings.

The main model is the item-based collaborative-filtering engine
(`recommenderBaseModelItemBased.RecommenderBaseModel`):

- **Mean-centering** (`process_ratings_data`). It computes each item's mean
  over all of its rating rows. Each raw row gets an adjusted rating:
  `rating - mean`, where an exact zero becomes `1e-8`.
- **Similarity table** (`build_similarity_matrix`). It has one row
  `(item_1, item_2, weight)` per ordered pair of different items that some
  user rated both. The weight is the cosine of the two items' adjusted
  ratings over the users who rated both, with a zero denominator replaced
  by `1e-8`.
- **Prediction** (`predict`). The result is the item's mean plus the
  similarity-weighted average of the user's deviations from their rated
  items' means, taken over the rated items that have a table entry. When no
  weight is met, the result is the bare mean.
- **Ranking** (`get_recommendations`). This works in four steps:
  - every item of the table is scored with the user's own first rating if
    there is one, otherwise with its prediction;
  - the scores are sorted in descending order;
  - `head(n)` keeps the first rows;
  - the `"i<digits>"` keys are decoded with `int(key[1:])`.
- **Sessions** (`login_user`, `update_ratings`, `get_item_for_rating`). A
  user's first login gives them the whole catalog to rate. Ratings are
  appended to the log and the means are recomputed; the similarity table is
  not rebuilt. Items to rate are popped at a random index from the user's
  pool, which starts over once it is empty.

The second model covers the matrix-factorisation variant
(`recommenderBaseModelMatrixFactorization.RecommenderBaseModel`). It has the
same session and pool logic. It keeps its own log of the ratings collected
through it. It adds a one-slot recommendation cache, which is dropped on
login and on every update. The trained engine itself is a parameter.

Modules:

- `Wrappers`: `Option`.
- `Seqs`: duplicate-free sequences, first-occurrence deduplication and
  filtering.
- `ItemIds`: the front end's `get_item_id` encoding and its inverse,
  `int(key[1:])`.
- `Ratings`: the log, the means, the adjusted table, and its first-row
  lookups.
- `Similarity`: what the table means, plus the nested-loop builder through
  the intermediate `record_item_1_2` rows.
- `Predictions`: the prediction formula and its properties.
- `Ranking`: scoring, sorting, `head` and decoding.
- `Sampler`: the catalog and the pools.
- `ItemBased`: the item-based class.
- `MatrixFactorization`: the factorisation variant's class.
- `SeedExample`: a worked example, three items rated twice each plus a new
  user's rating.

In the worked example, `update_ratings` recomputes the means before any
prediction, so item 1's mean becomes 14/3 and the new user's deviation on
item 1 is 1/3. Because the formula divides by the sum of |w|, a single rated
item's weight cancels: the prediction for item 2 is 11/6 when
weight(2,1) > 0, 7/6 when it is < 0, and 1.5 when there is no entry
(`SeedExample.NewUserPredictionForItem2`).

## Model

| member | source | states |
|---|---|---|
| ItemIds.EncodeItemId | recommenderInterface.py:18-22 | a key is "i" followed by at least one character |
| ItemIds.DecodeItemId | recommenderBaseModelItemBased.py:132 | `int(key[1:])` succeeds exactly when the key has a first character followed by one or more decimal digits, and on a key `get_item_id(n)` it succeeds with n |
| ItemIds.EncodedKeys | recommenderInterface.py:18-22 | the part of `get_item_id(n)` after the "i" is all digits and reads back as n |
| ItemIds.DecodeItemIds | recommenderBaseModelItemBased.py:132 | the list comprehension succeeds iff every key decodes, and then yields one number per key, each that key's decoded value |
| ItemIds.ParseNatToString | recommenderInterface.py:22 | `str(n)` is all decimal digits and parses back to n |
| ItemIds.DecodeEncode | recommenderInterface.py:18-22 | decoding `get_item_id(n)` gives back n |
| ItemIds.EncodeInjective | recommenderInterface.py:18-22 | different catalog numbers get different keys |
| ItemIds.DecodeIgnoresPrefix | recommenderBaseModelItemBased.py:132 | decoding ignores the key's first character, whatever it is |
| Ratings.CountPositive | recommenderBaseModelItemBased.py:27 | an item of the log has at least one row |
| Ratings.Mean | recommenderBaseModelItemBased.py:27 | an item of the log has at least one row, and its mean times its row count is its rating total |
| Ratings.RatingMeans | recommenderBaseModelItemBased.py:27 | `rating_mean` has an entry for exactly the items some row rates, and each entry is the total of all that item's rows over their number, repeated ratings by one user included |
| Ratings.CountTotalAppend | recommenderBaseModelItemBased.py:167-169 | the row count and total of an item over a concatenated log are the sums over the parts |
| Ratings.MeanWithinRatings | recommenderBaseModelItemBased.py:27 | an item's mean lies between the lowest and the highest of its ratings |
| Ratings.Adjust | recommenderBaseModelItemBased.py:29-31 | an adjusted value is never 0: it is rating - mean, or 1e-8 where that difference is exactly 0 |
| Ratings.AdjustRatings | recommenderBaseModelItemBased.py:28-31 | one adjusted row per raw row, with the same user, item and rating, the item's mean, and a nonzero adjusted rating |
| Ratings.AdjustedRowsMatchLog | recommenderBaseModelItemBased.py:28-31 | there is one adjusted row per raw row, with the same user, item and rating, the item's mean, and rating - mean (1e-8 for an exact zero) |
| Ratings.MeanAfterAppend | recommenderBaseModelItemBased.py:167-170 | after appending rows, an item's recomputed mean is the old and new totals over the old and new counts |
| Ratings.NewRows | recommenderBaseModelItemBased.py:166-168 | the rows `update_ratings` appends: one per rated item, all of the current user, the k-th holding the k-th item and rating |
| Ratings.Find | recommenderBaseModelItemBased.py:122-124 | the lookup `.iloc[0]` uses the first row of the user for the item, and no earlier row matches |
| Ratings.DistinctUsers | recommenderBaseModelItemBased.py:58-59 | the users of the table, each once, membership iff some row has them; the source only ever takes the distinct users of item_1's rows, which `Similarity.UsersWho` filters out of this list |
| Ratings.DistinctItems | recommenderBaseModelItemBased.py:53 | the items of the table, each once |
| Ratings.RatedByRow | recommenderBaseModelItemBased.py:117 | a row of user u for item x means u rated x |
| Ratings.RatedBy | recommenderBaseModelItemBased.py:122-123 | `user_rating.shape[0] > 0`: the user has a row for the item; RatedByRow and RatedByListed state its properties |
| Ratings.FirstAdjusted | recommenderBaseModelItemBased.py:67-75 | `['rating_adjusted'].iloc[0]`: the adjusted value of the user's first row for the item, the row `Find` locates |
| Ratings.FirstRating | recommenderBaseModelItemBased.py:122-124 | `user_rating["rating"].iloc[0]`: the raw rating of the user's first row for the item, the row `Find` locates; SingleRow states it for a single row |
| Ratings.RatedByListed | recommenderBaseModelItemBased.py:53 | whoever rated an item is a user of the table, and the item is an item of the table |
| Ratings.SingleRow | recommenderBaseModelItemBased.py:117 | a user with a single row rated exactly that row's item, with that row's rating |
| Similarity.RecordUser | recommenderBaseModelItemBased.py:66-77 | the loop over `c_distinct_items` appends one record row per other item the customer rated, holding both first adjusted ratings |
| Similarity.UsersWho | recommenderBaseModelItemBased.py:58-59 | `np.unique(user_data['userId'])`: the table's users who rated item_1; CoSumsOfRaters and RecordCoRatings state its properties |
| Similarity.OtherItems | recommenderBaseModelItemBased.py:69-70 | `np.unique(c_user_data['itemId'])`: the items other than item_1 the customer rated; RecordUser and RecordColumn state its properties |
| Similarity.UserCoRatings | recommenderBaseModelItemBased.py:73-77 | the record rows of one customer, one per item_2, holding both first adjusted ratings; RecordUser states its properties |
| Similarity.CoRatingRecord | recommenderBaseModelItemBased.py:63-77 | `record_item_1_2` after the given customers; RecordCoRatings, RecordColumn and RecordSums state its properties |
| Similarity.Item2Column | recommenderBaseModelItemBased.py:80 | the `item_2` column of the record rows, in order; RecordColumn and RecordColumnExcludes state its properties |
| Similarity.Item2s | recommenderBaseModelItemBased.py:80 | `np.unique(record_item_1_2['item_2'])`; RowsFromRecord states that it lists exactly item_1's co-rated partners |
| Similarity.PairSums | recommenderBaseModelItemBased.py:82-86 | the three `.sum()`s over the record rows whose item_2 is j; RecordSums states they are the co-raters' sums |
| Similarity.RecordCoRatings | recommenderBaseModelItemBased.py:57-77 | the loop over the users who rated item_1 builds `record_item_1_2` as their rows in turn |
| Similarity.WeighPartners | recommenderBaseModelItemBased.py:80-91 | the loop over `distinct_item_2` yields one entry per distinct item_2, weighted from the record rows paired with it |
| Similarity.RecordColumn | recommenderBaseModelItemBased.py:69-80 | an item j != item_1 is in the record's item_2 column iff some user who rated item_1 also rated j |
| Similarity.RecordColumnExcludes | recommenderBaseModelItemBased.py:69 | item_1 never appears as its own item_2 |
| Similarity.RecordSums | recommenderBaseModelItemBased.py:83-86 | the three sums over the record rows paired with j are the sums over the co-rating users, each counted once through their first rows |
| Similarity.CoSums | recommenderBaseModelItemBased.py:83-86 | the three sums of the pair over a list of users: the cross sum and the two squared sums of the users' first adjusted ratings, users who rated only one of the two adding nothing; RecordSums, CoSumsSwap and NoCoRaterNoSums state its properties |
| Similarity.NoCoRaterNoSums | recommenderBaseModelItemBased.py:83-86 | over users none of whom rated both items, all three sums are 0 |
| Similarity.CoSumsOfRaters | recommenderBaseModelItemBased.py:58-59 | restricting the users to those who rated item_1 leaves the pair's sums unchanged |
| Similarity.WeightOf | recommenderBaseModelItemBased.py:85-88 | the cosine weight is 0 exactly when the cross sum is 0; a zero denominator becomes 1e-8 |
| Similarity.Weight | recommenderBaseModelItemBased.py:83-88 | the weight of a pair that no user rated both is 0 |
| Similarity.RowsFromRecord | recommenderBaseModelItemBased.py:80-88 | the distinct item_2 values are exactly the co-rated partners of item_1, and each weight is the cosine weight of the pair |
| Similarity.RowsMatch | recommenderBaseModelItemBased.py:80-91 | the entries weighed from item_1's record are the table rows for item_1 |
| Similarity.TableStep | recommenderBaseModelItemBased.py:56-91 | each pass of the outer loop appends the rows of one more item_1 |
| Similarity.BuildSimilarityMatrix | recommenderBaseModelItemBased.py:49-91 | the nested loops produce exactly the table of every co-rated pair with its cosine weight |
| Similarity.SimilarityTable | recommenderBaseModelItemBased.py:49-91 | every entry of the table pairs two different co-rated items with their cosine weight, and no ordered pair has two entries |
| Similarity.TableSound | recommenderBaseModelItemBased.py:56-91 | the rows of all items, in table order, are entries between different co-rated items with their cosine weights |
| Similarity.FindEntry | recommenderBaseModelItemBased.py:150-151 | the first row of the table with item_1 = i and item_2 = j, if any |
| Similarity.WeightLookup | recommenderBaseModelItemBased.py:150-155 | the weight of the first table row for (item, j), None without one; LookupInTable states its value on the built table |
| Similarity.TableEntriesSound | recommenderBaseModelItemBased.py:56-91 | every entry pairs two different co-rated items and carries their cosine weight |
| Similarity.TableComplete | recommenderBaseModelItemBased.py:56-91 | every co-rated pair of different items has an entry |
| Similarity.RowsComplete | recommenderBaseModelItemBased.py:80-91 | the rows of item i hold an entry (i, j) for every co-rated j != i |
| Similarity.RowsUniquePartners | recommenderBaseModelItemBased.py:80 | the rows for one item_1 have different item_2 values |
| Similarity.RowsUniqueKeys | recommenderBaseModelItemBased.py:80-91 | the rows for one item_1 all carry that item_1 and have unique keys |
| Similarity.UniqueKeysAppend | recommenderBaseModelItemBased.py:56-91 | adding the rows of a new item_1 keeps the (item_1, item_2) keys unique |
| Similarity.TableUniquePairs | recommenderBaseModelItemBased.py:56-91 | no ordered pair has two entries |
| Similarity.LookupInTable | recommenderBaseModelItemBased.py:49-91 | a lookup in the built table finds (i, j) iff i != j and some user rated both, and then returns their cosine weight |
| Similarity.CoSumsSwap | recommenderBaseModelItemBased.py:84-86 | swapping the pair swaps the two squared sums and keeps the cross sum |
| Similarity.WeightOfSwap | recommenderBaseModelItemBased.py:85-88 | the weight is unchanged when the two squared sums trade places, whatever stands for the square root |
| Similarity.WeightSymmetric | recommenderBaseModelItemBased.py:84-88 | weight(i, j) == weight(j, i) |
| Similarity.TableSymmetric | recommenderBaseModelItemBased.py:49-91 | (i, j) has an entry iff (j, i) has one, with the same weight |
| Predictions.UserItems | recommenderBaseModelItemBased.py:142-143 | the loop runs over exactly the items the user rated |
| Predictions.CoversFromLog | recommenderBaseModelItemBased.py:27-28 | every item of the adjusted table has a mean |
| Predictions.UserItemsHaveMeans | recommenderBaseModelItemBased.py:148 | every item the user rated has a mean, so `rating_mean_j` always exists |
| Predictions.Contribution | recommenderBaseModelItemBased.py:148-155 | one item j adds a non-negative absolute weight; it adds nothing without an entry (item, j), and no weighted deviation without weight |
| Predictions.EvidenceOver | recommenderBaseModelItemBased.py:144-155 | the accumulated absolute weight is non-negative, and with no absolute weight there is no weighted deviation |
| Predictions.NoEvidenceUnlessWeighted | recommenderBaseModelItemBased.py:146-155 | with no entry (item, j) for any j, both sums stay 0 |
| Predictions.Estimate | recommenderBaseModelItemBased.py:158 | with zero absolute weight the result is the mean; otherwise its distance from the mean times the absolute weight is the weighted deviation |
| Predictions.Prediction | recommenderBaseModelItemBased.py:140-158 | when none of the user's rated items has an entry (item, j), the prediction is the item's mean |
| Predictions.EvidenceStep | recommenderBaseModelItemBased.py:146-155 | each item j adds its own weighted deviation and absolute weight to the sums |
| Predictions.PredictionForNewUser | recommenderBaseModelItemBased.py:157-158 | a user with no ratings is predicted the item's mean |
| Predictions.EvidenceBounded | recommenderBaseModelItemBased.py:144-155 | the accumulated weighted deviation is at most the largest deviation times the accumulated absolute weight |
| Predictions.EstimateWithin | recommenderBaseModelItemBased.py:158 | the returned estimate is within d of the mean once the sums are so bounded |
| Predictions.PredictionWithinDeviation | recommenderBaseModelItemBased.py:140-158 | the prediction never moves further from the item's mean than the user's largest deviation from a mean |
| Predictions.OneTermQuotient | recommenderBaseModelItemBased.py:154-158 | over a single term, the formula moves the mean by the deviation, towards it for a positive weight and away for a negative one |
| Predictions.OneItemEvidence | recommenderBaseModelItemBased.py:146-155 | for a user who rated one item j, the sums are j's contribution alone |
| Predictions.PredictionFromOneItem | recommenderBaseModelItemBased.py:140-158 | for a user who rated one item j, the prediction is the mean without an entry (item, j), and otherwise the mean plus or minus the raw deviation on j, following the weight's sign |
| Ranking.ListedItemsHaveMeans | recommenderBaseModelItemBased.py:115 | every item of the table has a mean |
| Ranking.Scores | recommenderBaseModelItemBased.py:115-128 | one score row per distinct item, in table order; a rated item scores the user's first raw rating, any other item its prediction |
| Ranking.Insert | recommenderBaseModelItemBased.py:131 | inserting adds exactly that row |
| Ranking.InsertSorted | recommenderBaseModelItemBased.py:131 | inserting into a non-increasing sequence keeps it non-increasing |
| Ranking.SortDescending | recommenderBaseModelItemBased.py:131 | `sort_values(ascending=False)` gives a non-increasing permutation of the scores |
| Ranking.Head | recommenderBaseModelItemBased.py:131 | `head(n)` keeps a prefix: min(n, len) rows, or for a negative n max(len + n, 0) rows |
| Ranking.PrefixDominates | recommenderBaseModelItemBased.py:131 | the kept prefix of a sorted sequence is sorted, and outranks the dropped rest |
| Ranking.TopRows | recommenderBaseModelItemBased.py:115-131 | the kept rows are as many as `head(n)` keeps of one row per item, in non-increasing order, each one a score row |
| Ranking.TopRowsDominate | recommenderBaseModelItemBased.py:131 | the kept and dropped rows are a permutation of the scores, the kept ones sorted and at least as high as every dropped one |
| Ranking.RowsOfItems | recommenderBaseModelItemBased.py:131 | sorting the score rows keeps only rows of the table's items |
| Ranking.TopRowsListed | recommenderBaseModelItemBased.py:115-131 | every kept row is the row of an item of the table |
| Ranking.Recommendations | recommenderBaseModelItemBased.py:109-132 | the result exists iff every kept key decodes, and then the k-th number is the decoded key of the k-th kept row |
| Ranking.RecommendationsShape | recommenderBaseModelItemBased.py:109-132 | the result has as many numbers as `head` keeps, the k-th decoding the key of the k-th kept row, an item of the table |
| Ranking.RecommendationsDefined | recommenderBaseModelItemBased.py:132 | when every key of the table has the form "i<digits>", the decoding never fails |
| Ranking.UniqueBestFirst | recommenderBaseModelItemBased.py:131 | a row outscoring every other row comes first |
| Ranking.TopRecommendation | recommenderBaseModelItemBased.py:109-132 | an item that scores strictly highest is the single recommendation for n = 1 |
| Sampler.Catalog | recommenderBaseModelItemBased.py:19 | `self.items` holds 1..60 in order, each once, and nothing else |
| Sampler.Pop | recommenderBaseModelItemBased.py:183 | `pop(idx)` returns the entry at idx and leaves the pool one shorter, with every other entry kept |
| Sampler.Refilled | recommenderBaseModelItemBased.py:180-181 | the pool drawn from is never empty: an empty pool starts over with the catalog; a non-empty pool is used as is |
| Sampler.Draw | recommenderBaseModelItemBased.py:180-183 | a signed-in draw returns an entry of the refilled pool and leaves that pool without exactly that one entry |
| Sampler.DrawInCatalog | recommenderBaseModelItemBased.py:180-183 | a draw from a pool of catalog items returns a catalog item and leaves a pool of catalog items |
| Sampler.DrawAll | recommenderBaseModelItemBased.py:172-183 | consecutive draws hand out one item per draw: together with what is left they are the old pool |
| Sampler.OnceEach | recommenderBaseModelItemBased.py:19 | a duplicate-free pool holds each of its entries once |
| Sampler.CatalogOnceEach | recommenderBaseModelItemBased.py:19 | the catalog holds each of 1..60 once |
| Sampler.SameAsCatalog | recommenderBaseModelItemBased.py:19 | any rearrangement of the catalog holds each of 1..60 once |
| Sampler.CatalogRound | recommenderBaseModelItemBased.py:172-183 | 60 draws from a full or emptied pool return every item of 1..60 exactly once and leave the pool empty |
| ItemBased.RecommenderBaseModel.constructor | recommenderBaseModelItemBased.py:14-21 | the log is the file's rows, the means and the adjusted table are derived from it, the table is loaded or built, and nobody is signed in |
| ItemBased.RecommenderBaseModel.ProcessRatingsData | recommenderBaseModelItemBased.py:23-31 | the means and the adjusted table are recomputed from the log, and nothing else changes |
| ItemBased.RecommenderBaseModel.InitSimilarityMatrix | recommenderBaseModelItemBased.py:33-47 | the table is the stored one when loading, otherwise the table built from the adjusted ratings |
| ItemBased.RecommenderBaseModel.LoginUser | recommenderBaseModelItemBased.py:100-107 | a new user gets the catalog as their pool, a known user keeps theirs, and the user becomes current |
| ItemBased.RecommenderBaseModel.AccumulateEvidence | recommenderBaseModelItemBased.py:144-155 | the loop's two sums are the weighted deviations and the absolute weights over the items with an entry |
| ItemBased.RecommenderBaseModel.Predict | recommenderBaseModelItemBased.py:134-158 | returns the prediction of the current user's rating of the item |
| ItemBased.RecommenderBaseModel.ScoreItems | recommenderBaseModelItemBased.py:115-128 | the loop builds exactly the score rows: one per distinct item, the user's own first rating or the prediction |
| ItemBased.RecommenderBaseModel.GetRecommendations | recommenderBaseModelItemBased.py:109-132 | returns the recommendations of the current user: the decoded keys of the `head(n)` best score rows, None where a key does not decode |
| ItemBased.RecommenderBaseModel.UpdateRatings | recommenderBaseModelItemBased.py:160-170 | appends one row per rated item for the current user, recomputes the means, and leaves the similarity table, the catalog, the pools and the current user as they were |
| ItemBased.RecommenderBaseModel.DrawBound | recommenderBaseModelItemBased.py:178-182 | the exclusive bound handed to `randint`: the catalog's length without a user, otherwise the length of the refilled pool, never 0 for a signed-in user |
| ItemBased.RecommenderBaseModel.GetItemForRating | recommenderBaseModelItemBased.py:172-183 | always returns a catalog item: without a user, the catalog entry at idx with no state change; otherwise a pop from the user's refilled pool |
| MatrixFactorization.KnownItems | recommenderBaseModelMatrixFactorization.py:44 | the items of the update log rated by the user, and nothing else |
| MatrixFactorization.KnownItemsAppend | recommenderBaseModelMatrixFactorization.py:44-57 | a user's known items over a longer log extend those over the shorter one |
| MatrixFactorization.KnownItemsNone | recommenderBaseModelMatrixFactorization.py:44 | a user without rows has no known items |
| MatrixFactorization.KnownItemsOfNewRows | recommenderBaseModelMatrixFactorization.py:56-57 | the rows of one update are known to their user as exactly the rated items |
| MatrixFactorization.KnownItemsOwnRows | recommenderBaseModelMatrixFactorization.py:56-57 | an update extends the current user's known items by the rated keys, in order |
| MatrixFactorization.KnownItemsOtherUser | recommenderBaseModelMatrixFactorization.py:56-57 | an update by another user leaves a user's known items as they were |
| MatrixFactorization.RecommenderBaseModel.constructor | recommenderBaseModelMatrixFactorization.py:8-14 | nobody is signed in, nothing is cached, the update log is empty, and the engine was fitted with the file's rows |
| MatrixFactorization.RecommenderBaseModel.EngineKeys | recommenderBaseModelMatrixFactorization.py:44-45 | the keys `recommend(user=cur_user, items_known=..., amount=n)` returns, with the current user's known items of the update log; Fresh states how they are decoded |
| MatrixFactorization.RecommenderBaseModel.Fresh | recommenderBaseModelMatrixFactorization.py:44-47 | the engine's answer decodes iff every key it returns does, and then to one number per key, in order |
| MatrixFactorization.RecommenderBaseModel.LoginUser | recommenderBaseModelMatrixFactorization.py:26-36 | a new user gets the catalog, a known user keeps their pool, the user becomes current, and the cache is always dropped |
| MatrixFactorization.RecommenderBaseModel.GetRecommendations | recommenderBaseModelMatrixFactorization.py:38-48 | a cached list is returned as is, whatever n; otherwise the engine's answer is decoded, cached and returned |
| MatrixFactorization.RecommenderBaseModel.UpdateRatings | recommenderBaseModelMatrixFactorization.py:50-60 | appends one row per rated item for the current user, updates the engine with the whole log, and drops the cache |
| MatrixFactorization.RecommenderBaseModel.DrawBound | recommenderBaseModelMatrixFactorization.py:67-71 | the exclusive bound handed to `randint`, as in the item-based model, never 0 for a signed-in user |
| MatrixFactorization.RecommenderBaseModel.GetItemForRating | recommenderBaseModelMatrixFactorization.py:62-72 | always returns a catalog item: without a user, the catalog entry at idx with no state change; otherwise a pop from the user's refilled pool |
| SeedExample.SeedTally | recommenderBaseModelItemBased.py:27 | in the seed log, items 1, 2 and 3 have two rows each, totalling 9, 3 and 9 |
| SeedExample.SeedMeans | recommenderBaseModelItemBased.py:27 | the seed means are 4.5, 1.5 and 4.5 |
| SeedExample.UpdatedMeans | recommenderBaseModelItemBased.py:160-170 | after the new user rates item 1 with 5, the recomputed means are 14/3, 1.5 and 4.5 |
| SeedExample.NewUserRatedOnlyItem1 | recommenderBaseModelItemBased.py:166-170 | in the updated table the new user rated only item 1, with 5 |
| SeedExample.NewUserPredictionForItem2 | recommenderBaseModelItemBased.py:134-158 | the new user's prediction for item 2 is 1.5 without an entry (i2, i1), 11/6 with a positive weight and 7/6 with a negative one |

## Left out

- Reading the CSV file and loading or dumping the pickled table are I/O. The rows and the stored table are constructor arguments, and the dump after building is dropped.
- `print(recommendations_df)` in the factorisation variant is output only.
- The Tk front end is not part of this model. Only its `get_item_id` encoding is modelled.
- `KernelMF` fitting, updating and `recommend` come from a library that is not part of this model. The engine is a function of the datasets it was fitted and updated with, in order.
- Floating point is modelled as exact `real`: 1e-8 is the exact rational, and a float comparison with 0 is an exact comparison.
- `np.sqrt` is a caller-supplied `real -> real` function. Symmetry and the fallbacks hold for every choice of it, and nothing is proved about its accuracy.
- `np.random.randint` is a caller-supplied index, required to lie below the bound the source passes (`DrawBound`).
- `np.unique` returns its values sorted. The model lists them in order of first occurrence instead. Order only changes the order of the table's rows (each pair has at most one row) and of the sums (exact reals), and the ranking is specified only as a sorted permutation.
- Ranking.SortDescending: the order of equal scores is not specified, since pandas' default sort is not stable.
- ItemIds.DecodeItemId: Python's `int` also accepts a sign, surrounding whitespace, underscores and non-ASCII digits. Only plain ASCII digits are modelled.
- ItemBased.RecommenderBaseModel.UpdateRatings: requires as many ratings as items, since building the data frame raises otherwise. It takes the ratings already converted to integers. The front end passes them as strings, and the string-to-int64 conversion done by `astype({"rating": np.int64})` is not modelled. So the raise on a non-numeric rating string is not modelled either.
- MatrixFactorization.RecommenderBaseModel.UpdateRatings: the same requirement and the same omission apply.
- ItemBased.RecommenderBaseModel.Predict: requires that the item have a mean and that every item of the adjusted table have one. Every item `get_recommendations` passes meets this. For a key outside the table, the source's `.iloc[0]` raises.
- ItemBased.RecommenderBaseModel.AccumulateEvidence: the loop of `predict` is a method of its own, so `Predict` holds only the lookup of the mean and the final formula.
- The unused counter `i` in `build_similarity_matrix` is not modelled.
- The similarity table is not kept up to date after `update_ratings`, as in the source. The class invariant therefore says nothing about it, and `SeedExample.NewUserPredictionForItem2` holds for any table.
