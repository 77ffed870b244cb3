# YouTube channel analytics: verified model of the core helpers

This project models the small, exactly-specifiable helpers of a YouTube channel
analytics application. The application has a Next.js dashboard, Lambda handlers over
MySQL, a DynamoDB fetch-rate cache, a YouTube Data API client and a Streamlit
analytics app. The model covers:

- the dashboard's display formatters (`formatNumber`, `formatDuration`, list-item
  mappers) and its two chart aggregators (month bucketing of views, top-10 videos by
  views, whose sort reorders the caller's array in place);
- channel id and handle extraction from user input and YouTube URLs;
- the `PT#H#M#S` duration parser and the 50-id chunking of the YouTube client;
- the DynamoDB "should we fetch this channel again" cache, a class over a map;
- the Streamlit analytics helpers: tag extraction, tag and tag-pair means, the
  engagement funnel, the channel comparison and the publish-slot suggestions;
- the video-list Lambda handler up to query assembly: validation, defaults, sort
  table, and conditions and params built step by step;
- the Streamlit app's `format_number`, handle `@` strip, video labels and default
  selection.

Modules (one per source file, plus shared helpers):

| file | module | models |
|---|---|---|
| format.dfy | Format | utils/format.ts |
| monthly_views_chart.dfy | MonthlyViewsChart | components/features/charts/MonthlyViewsChart.tsx |
| top_videos_chart.dfy | TopVideosChart | components/features/charts/TopVideosChart.tsx |
| extract_channel_id.dfy | ExtractChannelId | backend/utils/extract_channel_id.py |
| youtube_client.dfy | YouTubeClient | backend/services/youtube_client.py (`_parse_duration`, chunking) |
| dynamodb_cache.dfy | DynamoDbCache | backend/db/dynamodb_cache.py |
| data_processor.dfy | DataProcessor | backend/streamlit/utils/data_processor.py |
| get_channel_videos.dfy | GetChannelVideos | backend/handlers/get_channel_videos.py |
| streamlit_app.dfy | StreamlitApp | backend/streamlit/app.py (selected helpers) |
| text.dfy, decimal.dfy, sorting.dfy, video_types.dfy, wrappers.dfy | Text, Decimal, Sorting, VideoTypes, Wrappers | Python/JS string primitives (strip, prefix, truncation, code-point order), decimal text and Python `int()`, a stable descending sort, shared video records, `Option` |

Modelling conventions:

- JavaScript `null`/`undefined` are the two non-value constructors of `Nullable`.
- Clocks, `json.loads`, the database's "does this channel exist" lookup and a failing
  DynamoDB call are parameters (`now`, `decode`, `knownChannels`, `lookupFails`).
- Dates reach the model already decoded into (year, month).
- `toFixed(1)` is exact integer tenths, rounded half up.
- SQL text is a sequence of fragments, where `Placeholder` stands for `%s`.

## Model

| member | source | states |
|---|---|---|
| Format.FormatNumber | utils/format.ts:10-15 | null and undefined give "0"; 0 ≤ n < 1000 gives exactly `String(n)`, the decimal of n without leading zeros (at most three digits, no suffix); n ≥ 1000 gives digits, a point, exactly one digit and the suffix "M" for n ≥ 1,000,000, otherwise "K" |
| Format.Tenths | utils/format.ts:12-13 | an abbreviation is integer digits, '.', one digit and the unit letter |
| Format.TenthsDigits | utils/format.ts:12-13 | a tenths count t is written as t/10, '.', t mod 10 and the unit |
| Format.FormatNumberThousands | utils/format.ts:13 | for 1000 ≤ n < 1,000,000 the text is n/1000 rounded half up to tenths, followed by "K" |
| Format.FormatNumberMillions | utils/format.ts:12 | for n ≥ 1,000,000 the text is n/1,000,000 rounded half up to tenths, followed by "M" |
| Format.FormatNumberBelowMillion | utils/format.ts:12-13 | because the branch is chosen before rounding, every n in [999950, 999999] gives "1000.0K" |
| Format.JsRem | utils/format.ts:30-31 | JavaScript `%`: a = b·trunc(a/b) + r, with r in [0, b) for a non-negative dividend and in (-b, 0] for a negative one |
| Format.ParseFormatClock | utils/format.ts:29-35 | h:mm:ss / m:ss with minutes and seconds below 60 reads back as h·3600 + m·60 + sec, and has an hours field exactly when h > 0 |
| Format.ClockDecomposition | utils/format.ts:29-31 | the floor/mod split gives minutes and seconds below 60 that recombine to s, and hours > 0 exactly when s ≥ 3600 |
| Format.FormatDuration | utils/format.ts:27-36 | null and undefined give "-"; for s ≥ 0 the text reads back as s, with an hours field exactly when s ≥ 3600 (see FormatDurationRoundTrip) |
| Format.FormatDurationRoundTrip | utils/format.ts:27-36 | for every s ≥ 0 the formatted duration parses back to s under a reader that takes the first field only without a leading zero and the others as two digits below 60, and it carries an hours field exactly when s ≥ 3600 |
| Format.FormatChannelListItem | utils/format.ts:38-49 | the id is `IntToString(id)` (the decimal without leading zeros, as `toString()` writes it) and reads back as the id; the name is the title; subscribers and total views go through FormatNumber; videos is the count or 0 when null/undefined; lastFetched is always "-" |
| Format.FormatVideoListItem | utils/format.ts:51-63 | the id is `IntToString(id)` (the decimal without leading zeros, as `toString()` writes it) and reads back as the id; views, likes and comments go through FormatNumber, so a null count becomes "0"; the duration is "-" when absent and otherwise parses back to the seconds |
| MonthlyViewsChart.AddVideo | components/features/charts/MonthlyViewsChart.tsx:16-19 | one reduce step: the key is appended on its first encounter only, the bucket is created with views 0 and this video's label, and its views are incremented; the accumulator's keys stay in step with the key list |
| MonthlyViewsChart.BucketByMonth | components/features/charts/MonthlyViewsChart.tsx:11-21 | the loop's keys and buckets equal the first-encounter key list and the fold specification |
| MonthlyViewsChart.Rows | components/features/charts/MonthlyViewsChart.tsx:23-25 | one output row per key, the bucket stored under it |
| MonthlyViewsChart.MonthlyViews | components/features/charts/MonthlyViewsChart.tsx:11-33 | the component renders exactly the specified chart data, or the no-data branch |
| MonthlyViewsChart.FirstKeysDistinct | components/features/charts/MonthlyViewsChart.tsx:16-17 | a bucket is created once per key |
| MonthlyViewsChart.FirstKeysCover | components/features/charts/MonthlyViewsChart.tsx:13-19 | every video's key has a bucket |
| MonthlyViewsChart.BucketsDomain | components/features/charts/MonthlyViewsChart.tsx:16-17 | the buckets are keyed exactly by the keys encountered |
| MonthlyViewsChart.BucketsViews | components/features/charts/MonthlyViewsChart.tsx:19 | each bucket's views are the sum of viewCount over the videos with that key |
| MonthlyViewsChart.BucketsLabel | components/features/charts/MonthlyViewsChart.tsx:14-17 | when the key determines the label, every video's bucket carries that video's label |
| MonthlyViewsChart.MonthKeyInjective | components/features/charts/MonthlyViewsChart.tsx:13 | distinct (year, month) pairs get distinct "YYYY-MM" keys |
| MonthlyViewsChart.KeyDeterminesLabel | components/features/charts/MonthlyViewsChart.tsx:13-14 | videos with the same key get the same "<year>年<month>月" label |
| MonthlyViewsChart.ViewsConserved | components/features/charts/MonthlyViewsChart.tsx:11-25 | the views in the chart add up to the total viewCount of the input |
| MonthlyViewsChart.MonthlyKeysSpec | components/features/charts/MonthlyViewsChart.tsx:23-24 | the chart's keys are strictly increasing, and each one is some video's key and every video's key is among them |
| MonthlyViewsChart.MonthlyDataViews | components/features/charts/MonthlyViewsChart.tsx:19-25 | there is one chart entry per distinct key, holding the views of exactly that month's videos |
| MonthlyViewsChart.MonthlyDataLabels | components/features/charts/MonthlyViewsChart.tsx:14-25 | each entry's label is the label of the videos in its month |
| MonthlyViewsChart.NoDataIffEmpty | components/features/charts/MonthlyViewsChart.tsx:27-33 | the no-data branch is taken exactly when there are no videos |
| MonthlyViewsChart.MonthKeyOrder | components/features/charts/MonthlyViewsChart.tsx:13-24 | for four-digit years, key order is chronological order |
| MonthlyViewsChart.MonthlyDataChronological | components/features/charts/MonthlyViewsChart.tsx:23-25 | an earlier entry belongs to an earlier month than a later one |
| TopVideosChart.SortByViews | components/features/charts/TopVideosChart.tsx:12 | sorts the caller's array in place: afterwards it holds the stable descending-by-views sort of its old contents |
| TopVideosChart.InsertAt | components/features/charts/TopVideosChart.tsx:12 | one insertion step: the prefix becomes the old element inserted into the old prefix, and the suffix is untouched |
| TopVideosChart.TopBars | components/features/charts/TopVideosChart.tsx:13-17 | at most ten bars, fewer only when there are fewer videos |
| TopVideosChart.TopVideos | components/features/charts/TopVideosChart.tsx:11-17 | the caller's array ends up sorted in place, and the bars come from its first ten entries |
| TopVideosChart.ChartLength | components/features/charts/TopVideosChart.tsx:13-25 | min(10, n) bars; the no-data branch exactly when there are no videos |
| TopVideosChart.ChartOrder | components/features/charts/TopVideosChart.tsx:12-16 | bar views are non-increasing; each bar's views and title come from the matching sorted video; every kept video has at least the views of every dropped one |
| TopVideosChart.SortKeepsVideos | components/features/charts/TopVideosChart.tsx:12 | the sort is a permutation and keeps equal-view videos in their original order |
| TopVideosChart.BarTitle | components/features/charts/TopVideosChart.tsx:15 | a title over 30 characters becomes its first 30 plus "...", otherwise it is unchanged |
| ExtractChannelId.IdRun | backend/utils/extract_channel_id.py:16-19 | the longest run of `[A-Za-z0-9_-]` at the start |
| ExtractChannelId.MatchAt | backend/utils/extract_channel_id.py:16-19 | an anchored pattern match yields a non-empty id-character capture right after the literal, of exactly the fixed count, or maximal for `+` |
| ExtractChannelId.SearchLeftmost | backend/utils/extract_channel_id.py:22-23 | `re.search` finds the leftmost position where the pattern matches, and none when no position does |
| ExtractChannelId.FirstUcCapture | backend/utils/extract_channel_id.py:21-27 | patterns are tried in order: the result is None exactly when no pattern yields a UC-shaped capture, and otherwise it is the capture of a pattern all of whose predecessors yield none; any result looks like a UC id |
| ExtractChannelId.ExtractChannelId | backend/utils/extract_channel_id.py:5-29 | None and "" give None; every result starts with "UC" and has length 24; a stripped input that is itself a UC id is returned as is; any other input gives the first UC-shaped capture of the four URL patterns, tried in order (FirstUcCapture) |
| ExtractChannelId.ExtractHandle | backend/utils/extract_channel_id.py:32-49 | None and "" give None; every result starts with "@"; a stripped input starting with "@" is returned as is; any other input gives "@" plus the `youtube.com/@` capture, or None when there is none, so no other result is possible |
| ExtractChannelId.ChannelIdIgnoresSurroundingSpace | backend/utils/extract_channel_id.py:10 | surrounding whitespace does not change the channel id result |
| ExtractChannelId.HandleIgnoresSurroundingSpace | backend/utils/extract_channel_id.py:37 | surrounding whitespace does not change the handle result |
| ExtractChannelId.StripIdempotent | backend/utils/extract_channel_id.py:10 | stripping twice is stripping once |
| ExtractChannelId.NoCaptureInEmpty | backend/utils/extract_channel_id.py:21-29 | no pattern matches the empty string |
| ExtractChannelId.SearchAtStart | backend/utils/extract_channel_id.py:16-22 | text that starts with a pattern's literal and a valid capture yields that capture |
| ExtractChannelId.SearchSkipsPrefix | backend/utils/extract_channel_id.py:22 | the unanchored search skips text that cannot start a URL |
| ExtractChannelId.ChannelUrl | backend/utils/extract_channel_id.py:16-27 | a `youtube.com/channel/<24 id chars>` URL, with any text after the id, yields that id |
| ExtractChannelId.HandleUrl | backend/utils/extract_channel_id.py:40-47 | a `youtube.com/@name` URL yields "@" + name |
| ExtractChannelId.HandleUrlCaptures | backend/utils/extract_channel_id.py:16-27 | in a handle URL whose name is not a UC id, no pattern produces a UC capture |
| ExtractChannelId.HandleUrlNoChannelId | backend/utils/extract_channel_id.py:12-29 | a handle URL whose name is not a UC id gives no channel id |
| YouTubeClient.DigitRun | backend/services/youtube_client.py:173 | the greedy `\d+` run at the start |
| YouTubeClient.ParseDuration | backend/services/youtube_client.py:167-183 | "" and anything not starting with "PT" give None; anything starting with "PT" gives a non-negative number of seconds |
| YouTubeClient.ComponentPresent | backend/services/youtube_client.py:173-181 | a written number and its designator are read back as that number |
| YouTubeClient.ComponentAbsent | backend/services/youtube_client.py:173-181 | an absent group counts as 0 and consumes nothing |
| YouTubeClient.ParseIsoDuration | backend/services/youtube_client.py:173-183 | PT<h>H<m>M<s>S, with zero fields omitted, parses to h·3600 + m·60 + s |
| YouTubeClient.ParseIsoDurationTail | backend/services/youtube_client.py:173-174 | the match is anchored only at the start, so text after a complete duration is ignored |
| YouTubeClient.ParseWrittenGroups | backend/services/youtube_client.py:173-183 | PT<h>H<m>M<s>S with every group written out, zeros included ("PT0H5M0S"), parses to h·3600 + m·60 + s whatever text follows |
| YouTubeClient.ParseDurationBare | backend/services/youtube_client.py:179-183 | "PT" alone gives 0 |
| YouTubeClient.ParseDurationDanglingDigits | backend/services/youtube_client.py:173-174 | "PT1H30" gives 3600: digits without a designator are ignored |
| YouTubeClient.Chunks | backend/services/youtube_client.py:135-140 | the number of chunks is ⌈n/50⌉ |
| YouTubeClient.ChunksStep | backend/services/youtube_client.py:136-139 | the chunks are the first min(50, n) ids followed by the chunks of the rest |
| YouTubeClient.ChunksSpec | backend/services/youtube_client.py:135-140 | the chunks concatenate back to the ids; each holds 1 to 50 ids; all but the last hold exactly 50 |
| YouTubeClient.PlanFetch | backend/services/youtube_client.py:130-143 | no ids: return before chunking; otherwise exactly the chunks of the ids, and exactly min(10, ⌈n/50⌉) workers, which lies between 1 and 10 and is at most the chunk count |
| DynamoDbCache.FetchCache.GetLastFetchedAt | backend/db/dynamodb_cache.py:13-25 | the stored timestamp, or None for a missing item, a missing field or a failed lookup |
| DynamoDbCache.FetchCache.ShouldFetch | backend/db/dynamodb_cache.py:28-39 | fetch when no timestamp is known or it is 0, otherwise exactly when at least the interval has passed |
| DynamoDbCache.FetchCache.UpdateCache | backend/db/dynamodb_cache.py:42-53 | the table afterwards is the old table with this id's item replaced by a fresh one |
| DynamoDbCache.DueAfterUpdate | backend/db/dynamodb_cache.py:34-46 | after an update at t ≠ 0, a fetch at t' is due exactly when t' − t ≥ interval·1000 ms |
| DynamoDbCache.DueAfterUpdateAtEpoch | backend/db/dynamodb_cache.py:30-32 | a stored timestamp of 0 is falsy, so a fetch is always due |
| DynamoDbCache.UpdateKeepsOthers | backend/db/dynamodb_cache.py:44-52 | updating one id leaves every other id's entry and fetch decision unchanged |
| DynamoDbCache.DueWhenUnknown | backend/db/dynamodb_cache.py:17-32 | a failed lookup or a missing item means a fetch is due |
| DynamoDbCache.UpdateReplacesEtag | backend/db/dynamodb_cache.py:46-52 | the new item has the current time; an absent or empty etag drops any old one, and a non-empty one is stored |
| DataProcessor.KeepTags | backend/streamlit/utils/data_processor.py:194 | every kept tag is non-blank |
| DataProcessor.KeepTagsMembers | backend/streamlit/utils/data_processor.py:194 | a string is kept exactly when it is a string element of the list with a non-blank stripped form |
| DataProcessor.KeepTagsConcat | backend/streamlit/utils/data_processor.py:194 | the filter keeps order: filtering a concatenation concatenates the filtered parts |
| DataProcessor.ExtractTags | backend/streamlit/utils/data_processor.py:182-194 | falsy input, a decode failure and a non-list value give []; for a list (given, or decoded from non-empty text) exactly its non-blank string items, in order |
| DataProcessor.AppendRowMetrics | backend/streamlit/utils/data_processor.py:167-171 | the inner loop appends exactly the row's records |
| DataProcessor.CollectTagMetrics | backend/streamlit/utils/data_processor.py:159-171 | the nested loops build exactly the specified record list, with untagged rows contributing nothing |
| DataProcessor.RowCountSum | backend/streamlit/utils/data_processor.py:167-171 | a tag repeated k times in a row counts k times and adds k times the metric |
| DataProcessor.RowContribution | backend/streamlit/utils/data_processor.py:161-171 | each row adds its tag occurrences to the count and occurrences × metric to the sum |
| DataProcessor.CountOfPositive | backend/streamlit/utils/data_processor.py:177 | a tag has records exactly when it occurs among the records |
| DataProcessor.CountSumConcat | backend/streamlit/utils/data_processor.py:177 | counts and sums are additive over concatenation |
| DataProcessor.Means | backend/streamlit/utils/data_processor.py:177 | each row is the mean sum/count of its tag |
| DataProcessor.GroupMeans | backend/streamlit/utils/data_processor.py:177 | one mean per distinct tag, each tag having records |
| DataProcessor.ProcessTagPerformance | backend/streamlit/utils/data_processor.py:154-179 | the method's result is the specified tag performance, with empty input or no records giving [] |
| DataProcessor.RankedMeansSpec | backend/streamlit/utils/data_processor.py:177 | sorted by mean descending; exactly the tags with records, each once, each with its mean |
| DataProcessor.TagPerformance | backend/streamlit/utils/data_processor.py:154-179 | an empty frame gives an empty table; otherwise descending by mean with one row per tag that has records, carrying sum/count (see TagPerformanceSpec) |
| DataProcessor.TagPerformanceSpec | backend/streamlit/utils/data_processor.py:154-179 | the result is sorted by mean descending and lists each tag that has records exactly once, with mean = sum/count over its occurrences |
| DataProcessor.RankedGroupMeans | backend/streamlit/utils/data_processor.py:176-177 | groupby-mean then descending sort: ordered by mean, one row per tag with records and no other, each with its mean |
| DataProcessor.PairsSound | backend/streamlit/utils/data_processor.py:267 | every generated pair is (tags[p], tags[q]) with p < q |
| DataProcessor.PairsComplete | backend/streamlit/utils/data_processor.py:267 | every pair p < q is generated |
| DataProcessor.PairsCount | backend/streamlit/utils/data_processor.py:267 | the pair count is n(n−1)/2 |
| DataProcessor.PairsDistinct | backend/streamlit/utils/data_processor.py:267 | distinct tags give distinct pairs |
| DataProcessor.CombinationsSpec | backend/streamlit/utils/data_processor.py:263-267 | over sorted distinct tags: exactly the unordered pairs, each as (a, b) with a < b, each once, n(n−1)/2 of them |
| DataProcessor.CombinationsSound | backend/streamlit/utils/data_processor.py:263-267 | every combination of sorted distinct tags is two of the tags, the first below the second |
| DataProcessor.CombinationsComplete | backend/streamlit/utils/data_processor.py:263-267 | every two tags, the first below the second, appear as a combination |
| DataProcessor.RowTagsIncreasing | backend/streamlit/utils/data_processor.py:263 | `sorted(set(...))` is strictly increasing |
| DataProcessor.PairRecordsSpec | backend/streamlit/utils/data_processor.py:266-269 | a row contributes its metric once to every pair key "a + b" with a < b, n(n−1)/2 records |
| DataProcessor.RowComboSpec | backend/streamlit/utils/data_processor.py:262-269 | the same for a row's extracted tags; rows with under two tags contribute nothing |
| DataProcessor.PairKeyInjective | backend/streamlit/utils/data_processor.py:268 | the "a + b" key identifies the pair when the first tag contains no '+' |
| DataProcessor.PairKeyCollision | backend/streamlit/utils/data_processor.py:268-269 | tags that themselves contain " + " can merge two different pairs under one key, so the key is not injective in general |
| DataProcessor.AppendAll | backend/streamlit/utils/data_processor.py:269 | `setdefault(...).append` keeps the dictionary's order list and key set in step |
| DataProcessor.AppendAllSpec | backend/streamlit/utils/data_processor.py:260-269 | the dictionary holds exactly the keys with records; each list has as many entries as the key's records and sums to their sum; keys in first-insertion order, each once |
| DataProcessor.SetDefaultAppend | backend/streamlit/utils/data_processor.py:269 | one `setdefault(key, []).append(value)` step |
| DataProcessor.AppendCombinations | backend/streamlit/utils/data_processor.py:267-269 | the inner loop appends every pair record of the row |
| DataProcessor.ComboRecordsStep | backend/streamlit/utils/data_processor.py:262-269 | one outer-loop iteration: skip a row with under two tags, else append its pair records |
| DataProcessor.ComputeTagCombinations | backend/streamlit/utils/data_processor.py:255-279 | the method's result is the specified tag-combination table |
| DataProcessor.ComboMeansAreMeans | backend/streamlit/utils/data_processor.py:274-277 | the dictionary means are the record means |
| DataProcessor.TagCombinations | backend/streamlit/utils/data_processor.py:255-279 | an empty frame gives an empty table; otherwise min(top_n, keys) rows descending by mean, each key once with its mean (see TagCombinationsSpec, TagCombinationsRows, TagCombinationsLength, TagCombinationsTop) |
| DataProcessor.TagCombinationsSpec | backend/streamlit/utils/data_processor.py:255-279 | at most top_n rows, sorted by mean descending; empty exactly when top_n is 0 or there are no pair records |
| DataProcessor.TagCombinationsRows | backend/streamlit/utils/data_processor.py:268-276 | no key twice, and each row's mean is the sum over the count of its key's records |
| DataProcessor.TagCombinationsLength | backend/streamlit/utils/data_processor.py:274-279 | exactly min(top_n, number of distinct pair keys) rows |
| DataProcessor.KeysCount | backend/streamlit/utils/data_processor.py:268-276 | the dict's key list, holding each key with records once, is as long as the number of distinct keys |
| DataProcessor.TagCombinationsTop | backend/streamlit/utils/data_processor.py:278-279 | a pair left out of the table has a mean no larger than any kept one |
| DataProcessor.RankedTop | backend/streamlit/utils/data_processor.py:278-279 | sort-then-head of the means: exactly min(top_n, number of keys) rows, empty only for top_n 0 or no keys, ordered, distinct, correct means |
| DataProcessor.RankedTopLeftOut | backend/streamlit/utils/data_processor.py:278-279 | every key left out has a mean no larger than any kept row's |
| DataProcessor.SafeRatio | backend/streamlit/utils/data_processor.py:291-292 | 0.0 for a zero denominator, otherwise the exact quotient |
| DataProcessor.FunnelMetrics | backend/streamlit/utils/data_processor.py:282-298 | [] exactly for empty input; otherwise three stages in the order 視聴, いいね, コメント |
| DataProcessor.FunnelChain | backend/streamlit/utils/data_processor.py:287-298 | the stage values are the view, like and comment column sums, and each conversion is the value over the previous stage's value, or 0.0 when that is 0 |
| DataProcessor.FunnelConversionBounds | backend/streamlit/utils/data_processor.py:291-298 | when each video has comments ≤ likes ≤ views, every conversion lies in [0, 1] |
| DataProcessor.ColumnSumConcat | backend/streamlit/utils/data_processor.py:287-289 | column sums are additive |
| DataProcessor.ColumnSumMonotone | backend/streamlit/utils/data_processor.py:287-289 | a pointwise smaller column has a smaller sum |
| DataProcessor.RatioBounds | backend/streamlit/utils/data_processor.py:291-292 | a ratio of 0 ≤ a ≤ b lies in [0, 1] |
| DataProcessor.SelectChannels | backend/streamlit/utils/data_processor.py:325 | keeps exactly the channels whose id is selected |
| DataProcessor.SelectChannelsCounts | backend/streamlit/utils/data_processor.py:325 | each channel is kept as often as it occurs if its id is selected, otherwise never |
| DataProcessor.ChannelComparison | backend/streamlit/utils/data_processor.py:320-330 | an empty selection gives []; otherwise exactly the selected channels by subscribers descending (see ChannelComparisonSpec) |
| DataProcessor.ChannelComparisonSpec | backend/streamlit/utils/data_processor.py:320-330 | sorted by subscribers descending; exactly the selected channels, each as often as in the input; an empty selection gives [] |
| DataProcessor.SuggestPublishSlots | backend/streamlit/utils/data_processor.py:373-388 | a missing or empty heatmap gives []; otherwise the top_n highest cells in descending order (see SuggestPublishSlotsSpec) |
| DataProcessor.SuggestPublishSlotsSpec | backend/streamlit/utils/data_processor.py:373-388 | at most top_n slots, exactly top_n when available, in descending value order, drawn from the heatmap; every slot left out has a value no larger than any kept one |
| GetChannelVideos.OrderBy | backend/handlers/get_channel_videos.py:46-54 | the six sort keys map to their ORDER BY text; any other key falls back to `v.published_at DESC` |
| GetChannelVideos.Conditions | backend/handlers/get_channel_videos.py:56-65 | the conditions always start with the channel filter |
| GetChannelVideos.ConditionsMatchParams | backend/handlers/get_channel_videos.py:56-65 | one param per condition, at the condition's own index: the channel id, then the from date, then the to date |
| GetChannelVideos.FilterFromMinViews | backend/handlers/get_channel_videos.py:67-89 | with from and minViews given, the filter is `WHERE v.channel_id = %s AND DATE(v.published_at) >= %s AND COALESCE(latest_stats.view_count, 0) >= %s` |
| GetChannelVideos.PlaceholdersConcat | backend/handlers/get_channel_videos.py:67-101 | placeholder counts add over concatenation |
| GetChannelVideos.JoinPlaceholders | backend/handlers/get_channel_videos.py:67 | joining n one-placeholder conditions with " AND " gives n placeholders |
| GetChannelVideos.BuildConditions | backend/handlers/get_channel_videos.py:56-67 | the step-by-step appends give the specified conditions and params, with one param per placeholder of the WHERE clause |
| GetChannelVideos.PlaceholdersInvariant | backend/handlers/get_channel_videos.py:56-67 | channel, from and to each add one condition and one param, so placeholders and params stay equal |
| GetChannelVideos.FilterPlaceholders | backend/handlers/get_channel_videos.py:82-89 | the WHERE prefix adds no placeholder, and the minViews rewrite adds exactly one |
| GetChannelVideos.StatementPlaceholders | backend/handlers/get_channel_videos.py:92-116 | the count query has the filter's placeholders; the page query has two more, for LIMIT and OFFSET |
| GetChannelVideos.BuildPlan | backend/handlers/get_channel_videos.py:46-116 | a non-integer minViews gives 500; otherwise the count statement is built on the shared WHERE filter (conditions joined by AND, then the minViews condition when given) and the page statement on the same filter with ORDER BY the chosen ordering, LIMIT and OFFSET; the params follow in placeholder order (filters, then minViews, then limit and offset), one per placeholder |
| GetChannelVideos.LambdaHandler | backend/handlers/get_channel_videos.py:13-144 | missing or non-integer id gives 400; unknown channel 404; non-integer limit, offset or minViews 500; otherwise the plan with the defaults (limit 20, offset 0, sort date_desc) and both statements built on the one filter, the page statement ordered by the sort's ORDER BY text, with params aligned with placeholders |
| StreamlitApp.DropCommas | backend/streamlit/app.py:451 | the result has no commas |
| StreamlitApp.GroupDigitsDropCommas | backend/streamlit/app.py:451 | deleting the inserted commas gives back the digits |
| StreamlitApp.GroupDigitsCommas | backend/streamlit/app.py:451 | a comma sits before every group of three digits from the right and nowhere else |
| StreamlitApp.WithCommasDigits | backend/streamlit/app.py:451 | deleting the commas of `f"{n:,}"` gives `str(n)` |
| StreamlitApp.FormatNumberDigits | backend/streamlit/app.py:448-451 | an integer always formats, and deleting the commas gives its decimal |
| StreamlitApp.FormatNumberGroups | backend/streamlit/app.py:451 | an integer formats as its sign followed by the grouped digits of its magnitude |
| StreamlitApp.FormatNumber | backend/streamlit/app.py:448-451 | None gives "N/A"; other values format as `int(value)` with comma groups (see FormatNumberText, FormatNumberDigits, FormatNumberGroups) |
| StreamlitApp.FormatNumberText | backend/streamlit/app.py:448-451 | "" and "N/A" give "N/A"; other text that `int()` rejects raises (None); text that `int()` accepts formats like that integer |
| StreamlitApp.ChannelLookupKey | backend/streamlit/app.py:606-608 | empty input means no lookup; otherwise exactly one leading "@" is removed, and other input is used as is |
| StreamlitApp.VideoLabel | backend/streamlit/app.py:745 | every option label ends in " (ID: <id>)"; the title before it is cut at 50 characters (see VideoLabelShape, VideoLabelInjective) |
| StreamlitApp.VideoLabelShape | backend/streamlit/app.py:745 | a label is the title (first 50 characters plus "..." when longer) followed by " (ID: <id>)" |
| StreamlitApp.TraceName | backend/streamlit/app.py:769 | at most 53 characters, and a title of at most 50 characters is kept unchanged (see TraceNameOfLabel) |
| StreamlitApp.TraceNameOfLabel | backend/streamlit/app.py:769 | the growth-chart line name is the title up to 50 characters, else its first 50 characters and "..."; it is the video's option label without its " (ID: <id>)" end |
| StreamlitApp.VideoLabelInjective | backend/streamlit/app.py:744-747 | videos with equal labels have equal ids |
| StreamlitApp.SuffixAfterSpace | backend/streamlit/app.py:745 | the id text after the last space of a label is determined by the label |
| StreamlitApp.VideoOptions | backend/streamlit/app.py:744-747 | the option keys and the label-to-id map have the same labels |
| StreamlitApp.VideoOptionsSpec | backend/streamlit/app.py:744-747 | with distinct ids, one option per video, in row order, each labelled and mapping back to its video's id |
| StreamlitApp.DefaultSelection | backend/streamlit/app.py:751 | the first min(5, n) keys |
| StreamlitApp.DefaultSelectedIds | backend/streamlit/app.py:744-751 | the default selection is the first min(5, n) videos' options, each a valid key mapping to that video's id |
| Text.Strip | backend/utils/extract_channel_id.py:10 | `str.strip()`: the input without its leading and trailing whitespace, with no whitespace at either end |
| Text.StripEmptyIffBlank | backend/streamlit/utils/data_processor.py:194 | a string strips to "" exactly when it is all whitespace |
| Text.Truncate | components/features/charts/TopVideosChart.tsx:15 | a title within the limit is unchanged; a longer one becomes its first n characters plus "..." |
| Text.TruncateIdempotent | components/features/charts/TopVideosChart.tsx:15 | truncating twice is truncating once |
| Text.LexLessTotal | backend/streamlit/utils/data_processor.py:263 | code-point order is total on distinct strings |
| Text.LexLessTransitive | backend/streamlit/utils/data_processor.py:263 | code-point order is transitive |
| Text.SortedDistinctSpec | backend/streamlit/utils/data_processor.py:263 | `sorted(set(xs))` is strictly increasing with the same members, and a permutation when xs is distinct |
| Decimal.NatToString | components/features/charts/MonthlyViewsChart.tsx:13 | a decimal without leading zeros, reading back as n |
| Decimal.ParseIntRoundTrip | backend/handlers/get_channel_videos.py:26 | `int(str(n)) == n` |
| Decimal.IntToStringInjective | utils/format.ts:42 | distinct numbers have distinct decimals |
| Decimal.DigitsOrder | components/features/charts/MonthlyViewsChart.tsx:24 | on equal-length digit strings, code-point order is numeric order |
| Decimal.PadStart2 | utils/format.ts:33-35 | `padStart(2, "0")` |
| Decimal.PadStart2TwoDigits | utils/format.ts:33-35 | a number below 100 pads to two digits reading back as itself |
| Sorting.SortDescSpec | components/features/charts/TopVideosChart.tsx:12 | the sort is descending by key and a permutation |
| Sorting.SortDescStable | components/features/charts/TopVideosChart.tsx:12 | equal-key elements keep their relative order |
| Sorting.Take | components/features/charts/TopVideosChart.tsx:13 | `slice(0, n)`: the first min(n, length) elements |
| Sorting.TakeKeepsLargest | components/features/charts/TopVideosChart.tsx:12-13 | after a descending sort, every kept element's key is at least every dropped element's |
| Sorting.TakeLeftOut | backend/streamlit/utils/data_processor.py:383 | the head is a sub-multiset, and every element left out has a key no larger than any kept one |

## Left out

- formatDate in utils/format.ts, `toLocaleDateString` and all JavaScript `Date` parsing and timezones. Publish dates enter the model as decoded (year, month), and `publishedAt` of a video list item is a parameter.
- Format.FormatNumber: `toFixed(1)` on binary floating point is modelled as exact integer tenths, rounded half up. Ties such as x.x5 that are not exact in binary can round the other way. A negative count is written as its decimal, as in the source, but the contract states the digit shape only for non-negative counts.
- Format.FormatVideoListItem: the duration round trip is stated for non-negative seconds only.
- MonthlyViewsChart.MonthKeyOrder: `localeCompare` is modelled as code-point order, which agrees with it on "YYYY-MM" keys. Chronological order is stated for four-digit years.
- MonthlyViewsChart.ViewsConserved: JavaScript numbers are IEEE doubles. The monthly sums (`acc[monthKey].views += …`, MonthlyViewsChart.tsx) and the `b - a` comparator of TopVideosChart.tsx are modelled on unbounded integers, which agree with the doubles only while the counts and partial sums stay below 2^53.
- JavaScript strings are UTF-16 and Python strings are code points. The model counts characters as Dafny `char`s, so truncation lengths of astral characters are not modelled.
- DataProcessor.TagPerformanceSpec, DataProcessor.TagCombinationsSpec, DataProcessor.ChannelComparisonSpec and DataProcessor.SuggestPublishSlotsSpec: pandas `sort_values` is not stable (quicksort). The model sorts stably and claims only the descending order, the permutation and the values, not the order among ties.
- DataProcessor.SafeRatio, DataProcessor.FunnelChain: the funnel conversions are exact rationals (`real`), whereas `float(numerator / denominator)` in the source is an IEEE double, so `conversion * previous == value` holds exactly only in the model; the program meets it up to rounding.
- Means are exact rationals (`real` sum/count) rather than numpy floats, metrics are integers, and NaN handling and `row.get(metric, 0)` defaulting of missing columns are left out.
- The heatmap pivot, cohort performance, growth anomalies, revenue simulation, auto insights and the rest of app.py (Streamlit layout, CSS, plotly figures) are plotting or floating-point work.
- All network and database I/O: the YouTube API calls, pagination, the `ThreadPoolExecutor` fan-out and its completion order, the boto3 table and MySQL execution. The channel lookup is the parameter `knownChannels`, the clock is `now`, and a raising DynamoDB call is `lookupFails`.
- DynamoDbCache.FetchCache.ShouldFetch: the source subtracts and divides a `decimal.Decimal` read back from DynamoDB. With integer-millisecond timestamps this is exact under Decimal's default 28-digit precision. So (now − last)/1000 ≥ interval is the same as (now − last) ≥ interval·1000, the integer rule the model uses.
- GetChannelVideos: the SQL text outside the filter, ordering and paging (columns, joins, the ROW_NUMBER subquery) is not modelled. Fixed SQL is a `Sql` fragment, and only `Placeholder` fragments stand for `%s`, so the absence of a literal "%s" inside fixed text is by construction. The `str.replace` of the WHERE clause is modelled as appending the minViews condition to the filter, which is its effect. Logging, the response body text, the count and page results and the catch-all for database errors are left out.
- Python `int()` accepts Unicode digits, and `\d` in the duration pattern matches them. The model accepts only ASCII digits.
- StreamlitApp.FormatNumberText: `int(value)` on a float truncates toward zero. The model takes integers or text, and a `ValueError` from text that `int()` rejects is `None`.
- backend/handlers/channel_import.py, list_channels.py, get_channel_detail.py, channel_service.py, rds.py and create_database.py orchestrate I/O and SQL and are not part of this model.
