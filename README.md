# Dobong place recommender — a verified model

This project models the recommendation core of the Dobong chatbot
(`AiChatbot/recommender/`) in Dafny. The core does four things:

- **Loader** (`data_loader.py`, `loader.dfy`): pulls the place lists and hidden-gem
  id lists out of parsed JSON documents and normalises them into place records or
  id strings. It also tags every place with its source category, 느좋 ("quiet
  spot") or 핫플 ("hot place").
- **Scoring** (`scoring.py`, `scoring.dfy`, `ranking.dfy`): works out each place's
  identity and adds up its score from four terms:
  - a hidden-gem band bonus;
  - a bonus when the place carries the requested bias tag;
  - a keyword-distribution bonus;
  - optional seeded jitter.

  It then stamps `band_label` and `final_score` on the place and stable-sorts the
  places by score, descending.
- **Service** (`recommend_service.py`, `service.dfy`): detects the requested bias
  and merges the two place lists by identity. The merge behaves like a Python dict:
  the last writer wins, but a key keeps the position where it was first inserted.
  The service then unions the hidden-gem sets, scores the merged places, and
  returns an `offset`/`k` page. It also reports a health summary.
- **Re-ask helpers** (`reask.py`, `reask.dfy`): read a category and a keyword out
  of free text using fixed word lists, and offer three alternative keywords.

Values are modelled after parsed JSON: the `Json` datatype, with a record as
`map<string, Json>`. These Python behaviours are written out explicitly:
- truthiness;
- `dict.get`;
- the `a or b or …` chain;
- `str()`;
- substring `in`;
- slicing, including a negative end.

Scores are reals.

The random generator is given as `Seed`: an absent seed, or the function from
draw index to draw. The `n`-th identified place receives draw `n`.

Behaviour the model reproduces literally:
- **Page size.** A negative `k` is not clamped to zero. `end = start + k` is passed
  to Python's slice, so a negative end counts from the back (`WindowNegativeSize`).
- **Health.** `data_loaded` is `bool` of the four-key snapshot dict, so it is always
  true.
- **Keyword matching.** A map key matches when it occurs inside `str(keyword)`, and
  the first key in declaration order wins (`KeywordDistribution`).
- **Hidden-gem ids.** The hidden-gem lists hold `str` of each identity, while places
  are looked up by their raw identity. A place whose identity is not a string
  therefore never reaches the 20% band (`RecommendationContents`).

## Model

| member | source | states |
|---|---|---|
| Json.FirstTruthy | dobong_verify_package/AiChatbot/recommender/scoring.py:29-34 | the `or` chain is truthy exactly when some key's value is truthy, and then it is the value of the first such key |
| Json.Truthy | dobong_verify_package/AiChatbot/recommender/scoring.py:69-71 | the falsy values are exactly `None`, `False`, `0`, `0.0`, `""`, `[]` and `{}`; every other value is truthy |
| Json.Get | dobong_verify_package/AiChatbot/recommender/scoring.py:28-34 | a present key reads its value; a missing key reads as `None`, which is falsy |
| Json.PyStr | dobong_verify_package/AiChatbot/recommender/data_loader.py:27-38 | `str` of a string is the string itself; `str` of an integer is a non-empty rendering that starts with `-` exactly when the integer is negative |
| Json.NatToDecimal | dobong_verify_package/AiChatbot/recommender/data_loader.py:36-38 | the decimal rendering of a natural number is a non-empty string of the digits 0-9 (read back by `DecimalRoundTrip`) |
| Json.DecimalRoundTrip | dobong_verify_package/AiChatbot/recommender/data_loader.py:36-38 | reading the decimal digits of `str(n)` back gives `n` |
| Json.PyStrIntInjective | dobong_verify_package/AiChatbot/recommender/data_loader.py:36-38 | distinct integer ids have distinct `str` renderings, so they never collide in an id list |
| Json.NatToDecimalInjective | dobong_verify_package/AiChatbot/recommender/data_loader.py:36-38 | two natural numbers with the same decimal rendering are equal |
| Scoring.ToId | dobong_verify_package/AiChatbot/recommender/scoring.py:28-34 | the identity is the first truthy of `id`, `placeId`, `place_id`, `name`, and is falsy exactly when all four are missing or falsy |
| Scoring.EntryId | dobong_verify_package/AiChatbot/recommender/scoring.py:38-44 | an entry contributes an id iff it is a string or a dict with an identity; a string contributes itself, a dict its (truthy) identity |
| Scoring.IdSet | dobong_verify_package/AiChatbot/recommender/scoring.py:36-45 | every string entry and every dict identity is in the set, and every member is a string or a truthy identity |
| Scoring.ToIdSet | dobong_verify_package/AiChatbot/recommender/scoring.py:36-45 | every string entry is in the set and every dict with an identity contributes it; every member comes from such an entry, and nothing else is added |
| Scoring.BandOf | dobong_verify_package/AiChatbot/recommender/scoring.py:76-83 | exactly one band: 20% iff the id is in low20, 50% iff it is only in low50, normal iff in neither, so 20% takes precedence |
| Scoring.BandBonus | dobong_verify_package/AiChatbot/recommender/scoring.py:76-83 | the band term lies in [0, `W_band`]: the full 0.55 exactly for 20%, nothing exactly for the normal band, so the 50% term (0.275) lies strictly between |
| Scoring.BandLabel | dobong_verify_package/AiChatbot/recommender/scoring.py:76-83 | the label starts with 숨은 exactly for the two hidden-gem bands |
| Scoring.BandLabelsDistinct | dobong_verify_package/AiChatbot/recommender/scoring.py:78-83 | the labels 숨은(20%), 숨은(50%) and 일반 are pairwise different, so a label names its band |
| Scoring.Stamp | dobong_verify_package/AiChatbot/recommender/scoring.py:78-102 | only `band_label` and `final_score` are written; every other field is kept |
| Scoring.HasTag | dobong_verify_package/AiChatbot/recommender/scoring.py:86-93 | Python `t in tags`: only a list, a string or a dict can hold a tag, and the `[]` default holds none |
| Scoring.TagsOf | dobong_verify_package/AiChatbot/recommender/scoring.py:86 | `place.get("tags", [])`: the field when present; when it is missing, a value that holds no tag |
| Scoring.BiasBonus | dobong_verify_package/AiChatbot/recommender/scoring.py:88-89 | the bonus is `W_kw * 0.9` or 0, and it is non-zero exactly when the requested bias is 느좋 or 핫플 and the place is tagged with it |
| Scoring.KeywordBonus | dobong_verify_package/AiChatbot/recommender/scoring.py:91-94 | a place carrying none of the distribution's tags earns 0; one carrying all of them earns `W_kw` times the total fraction |
| Scoring.PlaceScore | dobong_verify_package/AiChatbot/recommender/scoring.py:73-100 | when the fractions and the draw are non-negative, the score is at least the band bonus: no other term can lower it |
| Scoring.Jitter | dobong_verify_package/AiChatbot/recommender/scoring.py:98-100 | the random term is 0 without a seed, and lies in [0, `W_rand`) = [0, 0.05) for a draw in [0, 1) |
| Scoring.KeywordDistribution | dobong_verify_package/AiChatbot/recommender/scoring.py:58-63 | the distribution of the first map key, in declaration order, that occurs in the keyword; none for an absent or empty keyword or when no key occurs |
| Scoring.MatchKeyword | dobong_verify_package/AiChatbot/recommender/scoring.py:58-63 | the `for … break` search returns exactly that first-match distribution |
| Scoring.ScoreOne | dobong_verify_package/AiChatbot/recommender/scoring.py:69-103 | the step-by-step score is the band bonus plus the bias bonus plus the keyword bonus over every distribution tag present plus the jitter, and the place is stamped with its band and score |
| Scoring.ScoreEach | dobong_verify_package/AiChatbot/recommender/scoring.py:68-103 | the scoring loop builds exactly the scored entries (`ScoreAll`), in input order |
| Scoring.ScoreAll | dobong_verify_package/AiChatbot/recommender/scoring.py:68-103 | at most one scored entry per input place |
| Scoring.IsRanking | dobong_verify_package/AiChatbot/recommender/scoring.py:103-105 | a ranking has exactly one entry per scored place |
| Scoring.ScorePlaces | dobong_verify_package/AiChatbot/recommender/scoring.py:47-106 | the result is the records of a ranking: a permutation of the scored identified places, sorted non-increasing by score with ties in input order; the returned records are in non-increasing `final_score` order and no more numerous than the input; with draws in [0, 1) each `final_score` lies in [0, 1.075), and in [0, 1.025] without a seed |
| Scoring.RankingRecordsDescending | dobong_verify_package/AiChatbot/recommender/scoring.py:102-105 | the records of a ranking are in non-increasing order of their written `final_score`, one per scored place |
| Scoring.ScoreAllEntries | dobong_verify_package/AiChatbot/recommender/scoring.py:68-103 | before sorting, the k-th entry is an identified place scored with the k-th draw |
| Scoring.ScoreAllIncreasing | dobong_verify_package/AiChatbot/recommender/scoring.py:68-103 | before sorting, entries are in input order |
| Scoring.ScoreAllComplete | dobong_verify_package/AiChatbot/recommender/scoring.py:68-71 | every identified place is scored |
| Scoring.RankingMembers | dobong_verify_package/AiChatbot/recommender/scoring.py:103-105 | a ranking holds exactly the scored entries |
| Scoring.RankingContents | dobong_verify_package/AiChatbot/recommender/scoring.py:68-105 | each input position appears at most once; a place appears iff it has an identity, stamped with its own band and score |
| Scoring.RankingBands | dobong_verify_package/AiChatbot/recommender/scoring.py:76-102 | each ranked record's `band_label` is its identity's band label and its `final_score` is its score |
| Scoring.RankingLength | dobong_verify_package/AiChatbot/recommender/scoring.py:68-71 | when every place has an identity, none is dropped |
| Scoring.RankingUnique | dobong_verify_package/AiChatbot/recommender/scoring.py:105 | two rankings of the same input are equal: a fixed seed reproduces the same order and scores |
| Scoring.KeywordBonusBounds | dobong_verify_package/AiChatbot/recommender/scoring.py:91-94 | the keyword bonus lies between 0 and `W_kw` times the distribution's total fraction |
| Scoring.KeywordMapValid | dobong_verify_package/AiChatbot/recommender/scoring.py:5-18 | every distribution of the map has non-negative fractions summing to at most 1 |
| Scoring.KeywordDistributionValid | dobong_verify_package/AiChatbot/recommender/scoring.py:58-63 | any chosen distribution is a valid one |
| Scoring.ScoreBounds | dobong_verify_package/AiChatbot/recommender/scoring.py:20-100 | the score is at least 0; without a seed the jitter is exactly 0 and the score is at most 1.025; with draws in [0, 1) it is below 1.075 |
| Scoring.RankingScoreBounds | dobong_verify_package/AiChatbot/recommender/scoring.py:73-105 | every `final_score` of a ranking is at least 0 and below 1.075, and at most 1.025 without a seed |
| Ranking.SortByScore | dobong_verify_package/AiChatbot/recommender/scoring.py:105 | the in-place sort leaves the array sorted by score descending, ties in input order, and is a permutation |
| Ranking.SortedUnique | dobong_verify_package/AiChatbot/recommender/scoring.py:105 | two stably sorted permutations of entries with distinct positions are equal |
| Ranking.PermutationKeepsDistinct | dobong_verify_package/AiChatbot/recommender/scoring.py:103-105 | a permutation of entries in input order never repeats an input position |
| Ranking.SliceSorted | dobong_verify_package/AiChatbot/recommender/recommend_service.py:53 | every slice of a sorted ranking is sorted |
| Loader.ExtractList | dobong_verify_package/AiChatbot/recommender/data_loader.py:4-15 | a list is itself; a dict yields the list under the first of `data`, `results`, `items`, `places`, `list` that holds one, else a `features` list, else []; anything else yields [] |
| Loader.FirstListKey | dobong_verify_package/AiChatbot/recommender/data_loader.py:8-11 | the index of the first wrapper key holding a list, none exactly when no key does |
| Loader.NormalisePlace | dobong_verify_package/AiChatbot/recommender/data_loader.py:20-28 | a dict keeps every other field; `name` becomes the first truthy of `name`, `title`, `place_name`, `id` or stays as it was; `tags` defaults to [] when missing or null; a non-dict x becomes `{id: str(x), name: str(x), tags: []}` |
| Loader.ToPlaceDictList | dobong_verify_package/AiChatbot/recommender/data_loader.py:17-29 | one normalised record per entry: length and order preserved |
| Loader.NormaliseEntry | dobong_verify_package/AiChatbot/recommender/data_loader.py:20-28 | the loop body's copy-and-update of one entry yields exactly its normalised record |
| Loader.NormaliseIdentity | dobong_verify_package/AiChatbot/recommender/data_loader.py:21-23 | a normalised dict has an identity iff it had one or carries a truthy `title` or `place_name` |
| Loader.IdEntry | dobong_verify_package/AiChatbot/recommender/data_loader.py:34-38 | a dict contributes `str` of its identity and nothing without one; any other entry contributes `str(x)` |
| Loader.AsIdList | dobong_verify_package/AiChatbot/recommender/data_loader.py:31-39 | the loop builds exactly the id list of its input |
| Loader.IdsOf | dobong_verify_package/AiChatbot/recommender/data_loader.py:31-39 | the id list is never longer than its input |
| Loader.IdsOfAppend | dobong_verify_package/AiChatbot/recommender/data_loader.py:31-39 | order is preserved: the ids of a concatenation are the concatenated ids |
| Loader.IdsOfMembers | dobong_verify_package/AiChatbot/recommender/data_loader.py:31-39 | a string is listed iff some entry contributes it |
| Loader.IdsOfStrings | dobong_verify_package/AiChatbot/recommender/data_loader.py:37-38 | a list of strings is its own id list |
| Loader.PriorTags | dobong_verify_package/AiChatbot/recommender/data_loader.py:58-60 | falsy tags give [], a truthy list is kept, and any other truthy value becomes `[str(value)]` |
| Loader.TagRecord | dobong_verify_package/AiChatbot/recommender/data_loader.py:57-64 | a tagged record has the old keys plus `tags` and `main_category` |
| Loader.EnsureTag | dobong_verify_package/AiChatbot/recommender/data_loader.py:55-64 | every record of the array is replaced by its tagged form, in place |
| Loader.TagRecordTags | dobong_verify_package/AiChatbot/recommender/data_loader.py:58-63 | `tags` becomes a list that holds the tag; the prior tags are its prefix, and the tag is appended only when absent |
| Loader.TagRecordCategory | dobong_verify_package/AiChatbot/recommender/data_loader.py:63-64 | `main_category` is set only when absent, and no field other than `tags` and `main_category` changes |
| Loader.TagRecordIdempotent | dobong_verify_package/AiChatbot/recommender/data_loader.py:57-64 | tagging twice with the same tag is tagging once |
| Loader.TagRecordFirstWins | dobong_verify_package/AiChatbot/recommender/data_loader.py:64 | after tagging with two sources, `main_category` is the first source unless it was already set |
| Loader.PlacesFrom | dobong_verify_package/AiChatbot/recommender/data_loader.py:81-86 | a source's places are its extracted entries, normalised and tagged, one per entry |
| Loader.LoadPlaces | dobong_verify_package/AiChatbot/recommender/data_loader.py:81-86 | extraction, normalisation and in-place tagging of one source give exactly those places |
| Loader.LoadSnapshot | dobong_verify_package/AiChatbot/recommender/data_loader.py:81-96 | the snapshot holds both tagged place lists and both id lists of the extracted sources |
| Loader.LoadedPlacesTagged | dobong_verify_package/AiChatbot/recommender/data_loader.py:84-86 | every loaded place carries its source tag, so a bias equal to its source earns the 0.225 bonus |
| Service.DetectBias | dobong_verify_package/AiChatbot/recommender/recommend_service.py:5-14 | the result is none, 느좋 or 핫플; a category naming a source wins; otherwise 느좋 iff the keyword contains 느좋, and 핫플 iff it contains 핫플 but not 느좋 |
| Service.MergeById | dobong_verify_package/AiChatbot/recommender/recommend_service.py:28-34 | the two filling loops build exactly the merged dict |
| Service.Put | dobong_verify_package/AiChatbot/recommender/recommend_service.py:31 | `d[k] = v`: `k` maps to `v`, every other key keeps its value, the keys gain at most `k`, and existing keys keep their positions |
| Service.InsertAll | dobong_verify_package/AiChatbot/recommender/recommend_service.py:29-34 | inserting never removes a key and never moves an existing key |
| Service.Merged | dobong_verify_package/AiChatbot/recommender/recommend_service.py:28-34 | the merged dict is a valid dict whose keys are exactly the identities of both lists, with the `hot_all` keys first |
| Service.InsertAllOrder | dobong_verify_package/AiChatbot/recommender/recommend_service.py:28-34 | inserting keeps keys and order in step, without repeats, and orders keys by first insertion |
| Service.InsertAllKeys | dobong_verify_package/AiChatbot/recommender/recommend_service.py:28-34 | the keys after inserting are the old keys plus the identities of the inserted places |
| Service.InsertAllValues | dobong_verify_package/AiChatbot/recommender/recommend_service.py:28-34 | each key holds the last place inserted under it, or else its old value |
| Service.MergedShape | dobong_verify_package/AiChatbot/recommender/recommend_service.py:28-34 | one key per identity of either list, in first-insertion order; the value is the last `neu_all` place with that id, else the last `hot_all` one |
| Service.MergedHotFirst | dobong_verify_package/AiChatbot/recommender/recommend_service.py:28-42 | every `hot_all` identity precedes every identity seen only in `neu_all`, even when `neu_all` overwrote the value |
| Service.MergedValuesIdentified | dobong_verify_package/AiChatbot/recommender/recommend_service.py:28-42 | every merged value has an identity, equal to the key it is stored under |
| Service.Values | dobong_verify_package/AiChatbot/recommender/recommend_service.py:42 | for a valid dict, the i-th value is the value stored under the i-th key |
| Service.MergedPlaces | dobong_verify_package/AiChatbot/recommender/recommend_service.py:28-42 | `list(merged.values())`: every place passed on has an identity, and no two share one |
| Service.ServiceRequest | dobong_verify_package/AiChatbot/recommender/recommend_service.py:36-49 | `score_places` receives as `low20_ids` exactly the strings of either hidden-gem list, an empty `low50_ids`, a bias that is none, 느좋 or 핫플, a distribution only for a non-empty keyword, and the caller's seed |
| Service.IdSetStrings | dobong_verify_package/AiChatbot/recommender/recommend_service.py:36 | the id set of a list of strings is the set of those strings |
| Service.LowIds | dobong_verify_package/AiChatbot/recommender/recommend_service.py:36 | `low20_ids` holds exactly the strings listed in either hidden-gem list |
| Service.HiddenIds | dobong_verify_package/AiChatbot/recommender/recommend_service.py:36-37 | the union of the two `_to_id_set` results is that set |
| Service.PageStart | dobong_verify_package/AiChatbot/recommender/recommend_service.py:51 | `max(0, offset or 0)`: a positive offset is kept, and the start is 0 exactly when the offset is absent or not positive |
| Service.PageSize | dobong_verify_package/AiChatbot/recommender/recommend_service.py:52 | `k or 5`: never zero; a non-zero k is kept, and an absent or zero k means 5 |
| Service.Window | dobong_verify_package/AiChatbot/recommender/recommend_service.py:51-53 | the page is never longer than the list |
| Service.WindowBounds | dobong_verify_package/AiChatbot/recommender/recommend_service.py:51-53 | both slice bounds lie in [0, n]; a start inside the list is kept, and a non-negative end is clipped to n |
| Service.WindowSlice | dobong_verify_package/AiChatbot/recommender/recommend_service.py:51-53 | for k ≥ 1 the page is `s[start:min(start+k, n)]`, of length min(k, max(0, n − start)), and empty when the offset is at or past the end |
| Service.WindowDefaultSize | dobong_verify_package/AiChatbot/recommender/recommend_service.py:52 | an absent or zero k means 5 |
| Service.WindowAdjacent | dobong_verify_package/AiChatbot/recommender/recommend_service.py:51-53 | the pages at `offset` and `offset+k` concatenate to the slice covering both, so they are adjacent and disjoint |
| Service.WindowSorted | dobong_verify_package/AiChatbot/recommender/recommend_service.py:53 | a page of a ranking is still sorted by score |
| Service.WindowNegativeSize | dobong_verify_package/AiChatbot/recommender/recommend_service.py:52-53 | a negative k is not clamped: from offset 0 the page is the list without its last -k items |
| Service.RecommendPlaces | dobong_verify_package/AiChatbot/recommender/recommend_service.py:16-53 | the page is the requested window of a ranking of the merged places, scored with the union of both hidden-gem sets, an empty 50% set, the detected bias, the keyword and the seed; the returned page is in non-increasing `final_score` order, no longer than the merged list, and never labelled 숨은(50%); with draws in [0, 1) each `final_score` on the page lies in [0, 1.075), and in [0, 1.025] without a seed |
| Service.WindowDescending | dobong_verify_package/AiChatbot/recommender/recommend_service.py:53 | a page of records in score order stays in score order |
| Service.WindowMembers | dobong_verify_package/AiChatbot/recommender/recommend_service.py:53 | every item of a page is an item of the list |
| Service.RecommendationContents | dobong_verify_package/AiChatbot/recommender/recommend_service.py:36-42 | every merged place is ranked; no record is ever labelled 숨은(50%); a record is labelled 숨은(20%) iff its identity is a string listed in either hidden-gem list |
| Service.HealthStatus | dobong_verify_package/AiChatbot/recommender/recommend_service.py:55-63 | `data_loaded` is always true, and the counts are the four list lengths |
| Service.HealthOfLoaded | dobong_verify_package/AiChatbot/recommender/data_loader.py:81-89 | for a loaded snapshot, the place counts equal the extracted list lengths, and the hidden-gem counts never exceed theirs |
| Text.FirstContained | dobong_verify_package/AiChatbot/recommender/reask.py:11-14 | the index of the first word, in list order, that occurs in the text; none exactly when no word occurs |
| Text.AnyContained | dobong_verify_package/AiChatbot/recommender/reask.py:6-8 | `any(kw in s for kw in words)` holds iff some word of the list occurs in the text |
| Text.Contains | dobong_verify_package/AiChatbot/recommender/reask.py:6 | substring `in`: the empty string is in every string, and no string is in a shorter one |
| Text.Lower | dobong_verify_package/AiChatbot/recommender/reask.py:4 | `lower()` keeps the length and lowers each character in its own position |
| Text.ContainsAt | dobong_verify_package/AiChatbot/recommender/reask.py:6 | substring `in` holds iff the needle occurs at some offset |
| Text.SameLengthContains | dobong_verify_package/AiChatbot/recommender/recommend_service.py:9-10 | a string contains another of the same length only when they are equal, so the exact-match branch agrees with the substring search |
| Text.LowerKeepsUncasedWords | dobong_verify_package/AiChatbot/recommender/reask.py:4 | lower-casing the text never changes whether a word without ASCII letters occurs in it |
| Reask.CategoryOf | dobong_verify_package/AiChatbot/recommender/reask.py:6-9 | 느좋 iff a quiet word occurs; 숨은핫플 iff no quiet word but a hot word occurs; none otherwise |
| Reask.ParseUserText | dobong_verify_package/AiChatbot/recommender/reask.py:2-17 | the category is read from the lowered text; the keyword is the first listed word occurring in it, none iff no word occurs; the location is always none |
| Reask.AnyContainedLower | dobong_verify_package/AiChatbot/recommender/reask.py:4-9 | `any` over uncased words does not see the lower-casing |
| Reask.CategoryIgnoresCase | dobong_verify_package/AiChatbot/recommender/reask.py:4-9 | the category of the lowered text is the category of the text |
| Reask.RemoveFirst | dobong_verify_package/AiChatbot/recommender/reask.py:21-22 | `remove` of an absent value leaves the list; of a present one shortens it by one |
| Reask.RemoveFirstOccurrence | dobong_verify_package/AiChatbot/recommender/reask.py:22 | on every list, `remove` drops exactly the first occurrence: the entry at some index holding the value, with no earlier entry holding it |
| Reask.Without | dobong_verify_package/AiChatbot/recommender/reask.py:20-22 | the reference filter: a value is kept iff it is in the list and differs from the removed one |
| Reask.RemoveFirstDistinct | dobong_verify_package/AiChatbot/recommender/reask.py:20-22 | in a list without repeats, removing the first occurrence equals filtering the value out |
| Reask.SuggestAlternatives | dobong_verify_package/AiChatbot/recommender/reask.py:19-25 | always 3 alternatives from the base list, none equal to the keyword, in base order; the first three base entries when the keyword is not among them; fixed message |

## Left out

- `random.Random`: the generator is not modelled. A seed is represented by its sequence of draws, assumed to lie in [0, 1) where a bound is stated.
- Floating point: scores, weights and fractions are exact reals, so rounding in the sums and in the sort comparisons is not modelled.
- `user_loc` and the distance and diversity weights: the source never uses them (distance is a TODO), so they are declared but never added.
- Aliasing and in-place writes: `score_places` writes into the caller's (cached, shared) dicts. Here each scored place is a stamped copy, which is what a single request observes. The cross-request race under a threaded server is not modelled.
- `_ensure_tag` aliasing: `EnsureTag` works on an array of records. List objects shared between records are not modelled.
- Json.PyStr: `str()` is exact for None, booleans, integers and strings only. Floats, lists and dicts render as fixed placeholders, not Python's text.
- Python's equal hashing of `True`, `1` and `1.0`, and unhashable identities: ids compare as `Json` values and the model never raises. In Python a place whose identity is a list or dict raises `TypeError` at `merged[pid] = p` (recommend_service.py:31), before `pid in low20_ids` (scoring.py:76) or `set.add` is reached. So one such place makes every request fail (a 500 from the route), where the model returns a page.
- Scoring.ScorePlaces: places are records, so a non-dict entry, on which `place.get` raises `AttributeError`, is not modelled. `recommend_places` only passes dicts.
- Scoring.HasTag: a `tags` value that is not a list, string or dict makes Python's `in` raise; the model treats it as holding no tag.
- Non-string keywords: the keyword is `Option<string>`, so `str(keyword)` of other types is not modelled. Nor is the `int()` coercion of `k` and `offset`, either in the routes or in `recommend_places` itself (recommend_service.py:51-52). On the model's `int` inputs `int()` is the identity.
- Text.Lower: lower-cases ASCII letters only. Every word the parser searches for is Hangul, so the result does not depend on it (`CategoryIgnoresCase`).
- `_load_json` and `_bootstrap_data` file reading and path lookup, and the module-level `_ALL_DATA` cache: the parsed documents are parameters of `LoadSnapshot`, and the snapshot is a parameter of `RecommendPlaces` and `HealthStatus`.
- `app.py`: the Flask routes, response wrapping, NaN sanitising and the chat UI.
