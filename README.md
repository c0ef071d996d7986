# AI diary: a verified model of its core

This project models, in Dafny, the logic of a small journaling web application:
a user writes a diary entry, sends it to a text-rewriting endpoint backed by a
language model, and stores the original and the rewritten text in a hosted
table. The model covers:

- **The diary store** (`DiaryStore`, `Stamps`). It includes the configuration
  test, the fallback wrapper `safeSupabaseOperation` and the seven
  `safeDiaryOperations`. The database is an in-memory table: a class holding
  the rows and the next id of the id sequence. Each backend call takes a
  `fails` flag standing for the backend answering with an error.
- **The enhancement service** (`Enhance`) and its HTTP endpoint
  (`EnhanceRoute`). The model call is an oracle with four outcomes: a text
  block, another block, no content, or a throw.
- **The profile page's statistics** (`Profile`). These are the totals, the
  "this month" count, the rounded average word counts, the month-by-month
  chart (a counting loop, a string sort, the last six buckets) and the list of
  recent entries.
- **The language provider** (`LanguageProvider`). It covers the dotted-key
  translation function `t`, the saved-language restore step and
  `handleSetLanguage`.
- **The editor dialog** (`DiaryEditor`) and **the writing page**
  (`DiaryPage`), both as classes whose handlers update their state fields.

Shared helpers live in `Text` and `Seqs`:

- JavaScript `split`, `trim` and UTF-16 `length`;
- the default string order of `Array.prototype.sort`, for strings inside the
  Basic Multilingual Plane;
- filter, first-seen deduplication, a stable insertion sort and `slice(-n)`.

Timestamps are decoded values: a UTC calendar date plus whole milliseconds
since midnight.

Behaviours of the code worth noting:

- The endpoint rejects only a falsy `text`. A non-empty text of spaces
  reaches the service (`EnhanceRoute.BlankTextAccepted`).
- The 5000 limit counts UTF-16 code units, not characters
  (`EnhanceRoute.AstralTextRejected`).
- No path of the endpoint answers with a 5xx status (`EnhanceRoute.Post`).
- When the endpoint's body cannot be decoded, the catch block reads the body a
  second time. The first read has consumed it, so that read rejects and the
  maintenance answer has nothing between its heading and its closing lines.
  That answer says the original entry is safe, but it does not carry the
  entry's text (`EnhanceRoute.Post`).
- The writing page inserts entries without timestamps, so both take the
  database clock. It does not look for an existing entry of the same day
  first, and `saveDiary` does not either. Nothing in the code keeps one entry
  per day.
- `updateDiary` applies only the supplied fields. The setup guide's trigger
  that refreshes `updated_at` is not part of this model. Without it, the
  update time changes only when the editor supplies it.

## Model

| member | source | states |
|---|---|---|
| `DiaryStore.ConfiguredIffEnvSet` | lib/supabase.ts:13-19 | the store is configured iff both variables are set, non-empty, and differ from the dummy URL and key |
| `DiaryStore.SafeOperation` | lib/supabase.ts:24-60 | unconfigured: fallback and the operation is never invoked; throwing operation: fallback; otherwise the operation's value unchanged |
| `DiaryStore.CreatedOrderIsTotalPreorder` | lib/supabase.ts:109 | ordering rows by `created_at`, ascending or descending, is total and transitive |
| `DiaryStore.SortByCreated` | lib/supabase.ts:106-109 | the ordered result is sorted by `created_at` in the requested direction and is a permutation of the rows |
| `DiaryStore.AtMostOneWithId` | lib/supabase.ts:214-219 | with unique ids at most one row matches an id |
| `DiaryStore.Patched` | lib/supabase.ts:171-175 | an update keeps the number of rows |
| `DiaryStore.PatchedTouchesOnlyId` | lib/supabase.ts:171-175 | an update leaves every row with another id as it was, and leaves the table unchanged when no row has the id |
| `DiaryStore.DiaryTable.constructor` | lib/supabase.ts:81-88 | an empty table whose id sequence starts at 1 |
| `DiaryStore.DiaryTable.Insert` | lib/supabase.ts:149-152 | on success the new row, with the next id and NOW() for omitted timestamps, is appended and the ids stay unique; on error nothing changes |
| `DiaryStore.DiaryTable.UpdateWhere` | lib/supabase.ts:171-175 | on success the rows become the patched rows; on error nothing changes; the id sequence is untouched |
| `DiaryStore.DiaryTable.DeleteWhere` | lib/supabase.ts:193-197 | on success exactly the rows with other ids remain; on error nothing changes |
| `DiaryStore.FilterKeepsUniqueIds` | lib/supabase.ts:193-197 | removing rows keeps the ids unique |
| `DiaryStore.GetDiaries` | lib/supabase.ts:103-114 | every row, newest first, as a permutation of the table; `[]` when unconfigured or on error |
| `DiaryStore.LatestOnDayIsLatest` | lib/supabase.ts:124-134 | the day query finds nothing iff no row lies in the day window; otherwise it returns a row of the window with no later row in it |
| `DiaryStore.GetDiaryByDate` | lib/supabase.ts:118-136 | the latest row in [D 00:00:00.000Z, D 23:59:59.999Z), null iff there is none; null when unconfigured or on error |
| `DiaryStore.SaveDiary` | lib/supabase.ts:139-162 | true iff configured and no backend error; on true the entry is appended with a fresh id whatever rows exist for its day; otherwise nothing changes |
| `DiaryStore.UpdateDiary` | lib/supabase.ts:165-185 | true iff configured and no backend error, also when no row has the id; on true the rows are patched, otherwise unchanged |
| `DiaryStore.DeleteDiary` | lib/supabase.ts:188-207 | true iff configured and no backend error; on true the rows with that id are removed |
| `DiaryStore.SingleWithIdFinds` | lib/supabase.ts:215-227 | the single-row read returns only a row with the id, and with unique ids finds one iff one exists |
| `DiaryStore.GetDiaryById` | lib/supabase.ts:210-229 | the row with that id or null; null when unconfigured or on error |
| `DiaryStore.MonthDayListMembers` | lib/supabase.ts:242-260 | a day number is listed iff some row of that month window falls on that day |
| `DiaryStore.GetDiaryDatesInMonth` | lib/supabase.ts:232-268 | no duplicate days; exactly the days having rows in the month window (at millisecond resolution); in order of first appearance in the ascending list; `[]` when unconfigured or on error |
| `DiaryStore.SaveFindUpdateFind` | lib/supabase.ts:118-185 | in an empty configured store a saved entry is found by its day, and after updating its enhanced text the day lookup returns the new text and update time |
| `Stamps.DayWindowExact` | lib/supabase.ts:127-128 | the day window holds exactly the instants of that UTC day except 23:59:59.999 |
| `Stamps.NormalisedMonth` | lib/supabase.ts:237 | a zero-based month, after JavaScript's carrying into the year, is a calendar month 1..12 |
| `Stamps.DaysInMonth` | lib/supabase.ts:238 | the last day of a month, which closes the month window, is between 28 and 31 |
| `Stamps.MonthWindowExact` | lib/supabase.ts:237-246 | the month window, with both bounds inclusive, holds exactly the millisecond instants of that calendar month |
| `Seqs.Dedup` | lib/supabase.ts:263 | `[...new Set(xs)]` has no duplicates and the same members as `xs` |
| `Seqs.DedupFirstSeenOrder` | lib/supabase.ts:263 | `[...new Set(xs)]` lists values in the order of their first occurrence |
| `Enhance.LoadedServiceReady` | lib/anthropic.ts:4-15 | the client is built, and the model will be called, iff the key is non-empty and not the placeholder |
| `Enhance.EnhanceDiary` | lib/anthropic.ts:17-63 | one model call iff ready, with a prompt embedding the original; demo text or error text embedding the original; a text block passes unchanged; another block gives the fixed failure message |
| `Enhance.OriginalNeverLost` | lib/anthropic.ts:17-63 | unless the model itself answered, the result contains the original text verbatim |
| `EnhanceRoute.Post` | app/api/enhance/route.ts:4-47 | only 400 or 200; falsy text: 400 and no call; over 5000 units: 400 and no call; otherwise the service's text without a warning; an undecodable body: 200 with a warning and the maintenance text, whose middle is empty, so the diary text is lost on that path |
| `EnhanceRoute.BlankTextAccepted` | app/api/enhance/route.ts:10 | a text of 1 to 5000 spaces passes validation and reaches the service |
| `EnhanceRoute.AstralTextRejected` | app/api/enhance/route.ts:15-18 | 2501 characters outside the Basic Multilingual Plane count as 5002 units and are rejected |
| `Text.Utf16LengthBounds` | app/api/enhance/route.ts:15 | JavaScript `length` lies between the character count and twice it, and equals it inside the Basic Multilingual Plane |
| `Profile.WordCount` | app/profile/page.tsx:40 | every text counts at least one word, the empty one included |
| `Profile.WordCountIsSpacesPlusOne` | app/profile/page.tsx:39-44 | a text's word count is its number of spaces plus one |
| `Profile.WordTotal` | app/profile/page.tsx:39-44 | the summed word counts are at least the number of texts |
| `Profile.RoundHalfUp` | app/profile/page.tsx:49-50 | `Math.round(n/d)`: the result is within one half of n/d, ties going up |
| `Profile.RoundHalfUpUnique` | app/profile/page.tsx:49-50 | that bound picks out a single integer |
| `Profile.Average` | app/profile/page.tsx:49-50 | 0 with no entries, otherwise the total over the count rounded half up |
| `Profile.AverageAtLeastOne` | app/profile/page.tsx:49-50 | with at least one word per entry, a non-empty list averages at least 1 |
| `Profile.ThisMonthEntries` | app/profile/page.tsx:33-37 | exactly the entries at or after the first instant of the current month, each as many times as it occurs in the list, so the card's count is the number of such entries |
| `Seqs.FilterCounts` | app/profile/page.tsx:35-37 | `filter` keeps every passing value as often as it occurs and drops every other one |
| `Profile.ThisMonthIncludesFuture` | app/profile/page.tsx:33-37 | an entry dated after today still counts for this month |
| `Profile.ThisMonthCountsAll` | app/profile/page.tsx:35-37 | when every entry is on or after the month start, the card counts them all |
| `Profile.ThisMonthCountsNone` | app/profile/page.tsx:35-37 | when every entry is before the month start, the card shows 0 |
| `Profile.ComputeStats` | app/profile/page.tsx:30-51 | total = list length; this month = filtered count, at most the total; both averages as above; averages at least 1 for a non-empty list |
| `Profile.Recent` | app/profile/page.tsx:176 | the first five entries, or all when fewer |
| `Profile.RecentAreNewest` | app/profile/page.tsx:176 | on the newest-first list, no entry left out of the recent list is newer than one shown |
| `Profile.NatString` | app/profile/page.tsx:64 | `String(n)` is never empty |
| `Profile.PadStart2` | app/profile/page.tsx:64 | `padStart(2, '0')` gives at least two characters, ends with the input and is zeros before it |
| `Profile.NatStringFixed` | app/profile/page.tsx:64 | a number with exactly w digits prints as its w-digit form |
| `Profile.FixedOrder` | app/profile/page.tsx:69 | w-digit forms compare as strings exactly as the numbers compare |
| `Profile.YearDigits` | app/profile/page.tsx:64 | a four-digit year prints as four digits |
| `Profile.MonthDigits` | app/profile/page.tsx:64 | a padded month 1..12 is its two-digit form |
| `Profile.LabelFixed` | app/profile/page.tsx:64 | a month key of a four-digit year is `YYYY-MM` |
| `Profile.FixedLabelOrder` | app/profile/page.tsx:64-69 | two `YYYY-MM` keys are equal iff year and month are, and compare as strings like (year, month) |
| `Profile.LabelOrder` | app/profile/page.tsx:64-69 | for four-digit years the key has 7 characters, keys are equal iff same month, and string order is calendar order |
| `Profile.TallyCounts` | app/profile/page.tsx:65 | the counting dictionary has exactly the keys seen, each mapped to its number of occurrences |
| `Profile.CountByKey` | app/profile/page.tsx:60-66 | the `forEach` loop leaves the tally of the entries' keys and the keys in insertion order |
| `Profile.DistinctCountsCoverAll` | app/profile/page.tsx:60-66 | the counts of the distinct keys add up to the number of keys |
| `Profile.MonthCountsSumToTotal` | app/profile/page.tsx:60-66 | the month buckets' counts add up to the number of entries |
| `Profile.EntryOrderIsTotalPreorder` | app/profile/page.tsx:69 | the default sort's comparison of `[month, count]` pairs is total and transitive |
| `Profile.MonthEntriesSound` | app/profile/page.tsx:60-68 | the buckets are distinct and pair each month with its number of entries |
| `Profile.MonthlyDataContents` | app/profile/page.tsx:68-71 | six buckets, or one per month when fewer; each is a month of some entry with its count; no month twice |
| `Profile.MonthlyDataOrder` | app/profile/page.tsx:68-71 | the buckets are in sort order and every bucket left off sorts before the first shown |
| `Profile.EntryOfDiary` | app/profile/page.tsx:62-66 | every entry's month has its bucket |
| `Profile.OmittedSortsFirst` | app/profile/page.tsx:69-70 | a bucket dropped by `slice(-6)` sorts before every bucket kept |
| `Profile.ShownInOrder` | app/profile/page.tsx:69 | two buckets of different four-digit months sort like their months |
| `Profile.ChartInCalendarOrder` | app/profile/page.tsx:64-71 | for four-digit years the chart lists its months oldest first |
| `Profile.ChartOmitsEarlierMonths` | app/profile/page.tsx:64-71 | for four-digit years a month left off the chart is earlier than every month shown |
| `Profile.GetMonthlyData` | app/profile/page.tsx:59-72 | the loop-and-sort computation equals the chart function whose properties are proved above |
| `Profile.ProfileView.constructor` | app/profile/page.tsx:8-15 | no entries, zeroed cards, loading |
| `Profile.ProfileView.LoadDiaries` | app/profile/page.tsx:21-57 | loading ends; on success the entries newest first and the cards computed from them; on error both unchanged |
| `Profile.LoadedViewDescribesTable` | app/profile/page.tsx:21-51 | after a load the total is the table's size and the recent list holds table rows no older than any row left out |
| `Seqs.SortBy` | app/profile/page.tsx:69 | a sorted permutation of the input under a total preorder |
| `Seqs.TakeLastOfSorted` | app/profile/page.tsx:70 | `slice(-n)` of a sorted list keeps order, members and distinctness, and what it drops sorts before what it keeps |
| `Text.SplitLength` | app/profile/page.tsx:40 | `split(' ')` yields one more piece than there are separators |
| `Text.StrLeTotal` | app/profile/page.tsx:69 | the string order is total |
| `Text.StrLeTransitive` | app/profile/page.tsx:69 | the string order is transitive |
| `Text.StrLePrefixDecides` | app/profile/page.tsx:69 | strings starting with different same-length prefixes compare as the prefixes do |
| `LanguageProvider.ParseSaved` | app/providers/LanguageProvider.tsx:27-28 | a stored value is taken iff it is exactly `en` or `ko`, and is taken as that language |
| `LanguageProvider.ParseCode` | app/providers/LanguageProvider.tsx:27-36 | what `handleSetLanguage` stores, the restore step reads back as the same language |
| `LanguageProvider.Step` | app/providers/LanguageProvider.tsx:45 | `value?.[k]` is defined iff value is an object holding k, and is then its member |
| `LanguageProvider.ResolveAppend` | app/providers/LanguageProvider.tsx:44-46 | walking a path in two parts equals walking it whole |
| `LanguageProvider.ResolveUndefined` | app/providers/LanguageProvider.tsx:45 | after a missing segment the walk stays undefined |
| `LanguageProvider.ResolvePastLeaf` | app/providers/LanguageProvider.tsx:45 | a walk continuing past a string is undefined |
| `LanguageProvider.ResolvedPathExists` | app/providers/LanguageProvider.tsx:44-46 | a defined walk starts at an object holding its first segment |
| `LanguageProvider.TranslateCases` | app/providers/LanguageProvider.tsx:40-49 | `t` returns the key or the non-empty value at the key's path, and never the empty string for a non-empty key |
| `LanguageProvider.TranslateJoinedPath` | app/providers/LanguageProvider.tsx:40-49 | a non-empty string stored at a path of dot-free segments is what `t` returns for the dotted key |
| `LanguageProvider.TranslateJoinedMissing` | app/providers/LanguageProvider.tsx:45-48 | a missing path, or one ending at an empty string, makes `t` return the key |
| `LanguageProvider.TranslateUnknownSection` | app/providers/LanguageProvider.tsx:45-48 | a key whose first segment is not in the table translates to itself |
| `LanguageProvider.TranslatePastLeaf` | app/providers/LanguageProvider.tsx:44-48 | a key running past a string translates to itself |
| `LanguageProvider.SampleFindsLabels` | app/translations/index.ts:39-41 | on a fragment of the shipped tables, `navigation.home` gives the English label and the Korean one of line 155 |
| `LanguageProvider.SampleEmptyLabel` | app/providers/LanguageProvider.tsx:48 | on the fragment, an empty label falls back to the key |
| `LanguageProvider.SampleUnknownKey` | app/providers/LanguageProvider.tsx:45-48 | on the fragment, an unknown segment falls back to the key |
| `LanguageProvider.SamplePastLabel` | app/providers/LanguageProvider.tsx:44-48 | on the fragment, `title.home` falls back to the key |
| `LanguageProvider.LanguageState.constructor` | app/providers/LanguageProvider.tsx:23 | the first render is in English, whatever is stored |
| `LanguageProvider.LanguageState.RestoreSaved` | app/providers/LanguageProvider.tsx:26-31 | the stored language is adopted iff it is a known code; otherwise the language is unchanged |
| `LanguageProvider.LanguageState.SetLanguage` | app/providers/LanguageProvider.tsx:34-37 | the state and the stored value both become the chosen language |
| `LanguageProvider.LanguageState.T` | app/providers/LanguageProvider.tsx:40-49 | the segment-by-segment loop returns what the recursive definition of `t` gives |
| `LanguageProvider.ChooseThenReload` | app/providers/LanguageProvider.tsx:23-37 | a language chosen in one session is restored in the next |
| `LanguageProvider.ReloadWithoutChoice` | app/providers/LanguageProvider.tsx:23-31 | with nothing usable stored, a new session stays in English |
| `Text.JoinSplit` | app/providers/LanguageProvider.tsx:41 | joining the pieces of `split('.')` with dots gives the key back |
| `Text.SplitJoin` | app/providers/LanguageProvider.tsx:41 | splitting dot-joined dot-free segments gives the segments back |
| `DiaryEditor.EditPatchApplied` | components/DiaryEditor.tsx:26-33 | the update keeps id and creation time, takes the three edited fields and the save time |
| `DiaryEditor.EditReachesRow` | components/DiaryEditor.tsx:26-33 | once applied to the table, the row with the entry's id holds the edits and the save time; other rows are unchanged |
| `DiaryEditor.EditedShowsModified` | components/DiaryEditor.tsx:180 | after an edit the "modified" note shows iff the save time differs from the creation time |
| `DiaryEditor.FreshRowNotModified` | components/DiaryEditor.tsx:180 | a row inserted without timestamps shows no "modified" note |
| `DiaryEditor.Editor.constructor` | components/DiaryEditor.tsx:15-20 | view mode, the fields hold the entry's values, nothing running, not closed |
| `DiaryEditor.Editor.BeginEdit` | components/DiaryEditor.tsx:89 | edit mode on, fields unchanged |
| `DiaryEditor.Editor.EditFields` | components/DiaryEditor.tsx:120-150 | typing sets the three fields and nothing else |
| `DiaryEditor.Editor.StartSave` | components/DiaryEditor.tsx:22-33 | marks the save running, which disables the save button, and builds the update for the entry's id |
| `DiaryEditor.Editor.FinishSave` | components/DiaryEditor.tsx:34-41 | the save stops running; success leaves edit mode, failure stays in it |
| `DiaryEditor.Editor.HandleSave` | components/DiaryEditor.tsx:22-42 | sends exactly title, original, enhanced text and the save time for the entry's id; then not saving, and out of edit mode iff it succeeded |
| `DiaryEditor.Editor.ClickSave` | components/DiaryEditor.tsx:156-158 | in edit mode, the save button sends an update iff not saving and no field is blank after trimming |
| `DiaryEditor.Editor.HandleDelete` | components/DiaryEditor.tsx:44-59 | nothing unless confirmed; otherwise deletes the entry's id, ends deleting, and closes iff the deletion succeeded |
| `DiaryEditor.Editor.HandleCancel` | components/DiaryEditor.tsx:61-66 | the three fields go back to the entry's values and edit mode ends |
| `DiaryEditor.EditThenCancel` | components/DiaryEditor.tsx:61-66 | whatever was typed, cancelling leaves the dialog as opened |
| `DiaryEditor.EditThenSave` | components/DiaryEditor.tsx:22-42 | saving non-blank edits sends exactly them, and the stored row then holds them with the save time |
| `DiaryPage.Adopted` | app/diary/page.tsx:28-31 | a JSON answer is adopted iff it carries a non-empty `enhancedText`, which is what is adopted |
| `DiaryPage.EndpointAnswerCases` | app/diary/page.tsx:20-31 | a text within the cap gets the service's answer (unless empty); a longer one gets nothing, silently |
| `DiaryPage.DemoAnswerKeepsText` | app/diary/page.tsx:20-31 | without an API key the page receives the demo text, which contains what was typed |
| `DiaryPage.DemoTextNotBlank` | app/diary/page.tsx:41 | the demo text is never blank, so it does not block saving |
| `DiaryPage.Page.constructor` | app/diary/page.tsx:8-13 | empty fields, no list, nothing loading, list closed |
| `DiaryPage.Page.EditFields` | app/diary/page.tsx:103-113 | typing sets the title and the original text; the enhanced text cannot be typed into |
| `DiaryPage.Page.EnhanceEntry` | app/diary/page.tsx:15-38 | a blank text sends nothing and changes nothing; otherwise the text is sent, the enhanced text changes only to a non-empty answer that arrived, and loading ends |
| `DiaryPage.Page.LoadDiaries` | app/diary/page.tsx:69-81 | on success every row newest first; on error the list stays |
| `DiaryPage.Page.SaveEntry` | app/diary/page.tsx:40-67 | no insert unless all three fields are non-blank; the row carries the three fields and no timestamps; success clears the fields and reloads; failure keeps everything |
| `DiaryPage.Page.ToggleSavedDiaries` | app/diary/page.tsx:83-88 | flips the list open or closed and reloads only when opening |
| `DiaryPage.PageListMatchesStore` | app/diary/page.tsx:69-77 | the page's list equals the store's `getDiaries` when configured |
| `DiaryPage.WriteEnhanceSave` | app/diary/page.tsx:15-67 | without an API key: write, enhance, save stores the text and a demo text containing it, with equal timestamps, and clears the page |
| `Text.BlankIffAllWhitespace` | app/diary/page.tsx:16 | `!s.trim()` holds iff every character is JavaScript whitespace |

## Left out

- Network, database client and model SDK are not modelled. Each call is an
  argument: a `fails` flag for the backend, a `ModelReply` for the model, a
  `delivered` flag for the page's `fetch`. The same goes for `confirm` and the
  answers of the editor's `onUpdate`/`onDelete` callbacks. Logging and
  `alert` are not modelled.
- Time zones and date parsing are not modelled. Timestamps are decoded UTC
  values, and `getFullYear`, `getMonth` and `getDate` read the UTC fields,
  whereas the browser uses local time. `toISOString` is not modelled.
- `Math.round` on floating point is modelled as exact half-up rounding of
  the rational quotient. The chart's bar width (app/profile/page.tsx:159) is
  floating point and is not modelled.
- Profile.ChartInCalendarOrder and Profile.ChartOmitsEarlierMonths are
  proved only for years of four digits. For other years the chart is still
  sorted by the JavaScript string order (`Profile.MonthlyDataOrder`), which
  then need not be calendar order.
- Stamps.MonthWindowExact: stamps are kept to the millisecond, while the
  database keeps `created_at` to the microsecond. The month query's upper
  bound `lte ...T23:59:59.999Z` (lib/supabase.ts:246) therefore misses rows
  created in the last 999 microseconds of the month's last day. The model
  cannot represent those instants, so `DiaryStore.GetDiaryDatesInMonth` and
  `DiaryStore.MonthDayListMembers` do not capture that loss. The day query's
  `lt` bound excludes that whole last millisecond in the code and in the
  model alike.
- Ties in `created_at` are not modelled. The database leaves their order
  unspecified, so `DiaryStore.SortByCreated` promises only a sorted
  permutation.
- The SQL trigger that refreshes `updated_at`, `testSupabaseConnection` and
  the setup guide are database plumbing and are not modelled.
- The `t` function does not model JavaScript property lookups on strings or
  on prototypes, such as `"abc".length` or `obj.constructor`. A lookup inside
  a string is undefined in this model.
- Text.StrLe compares characters as Unicode scalar values. JavaScript
  compares UTF-16 code units, and the two orders differ when a character
  above U+FFFF meets one in U+E000..U+FFFF. The month keys the chart sorts
  are ASCII, so the chart results do not depend on this.
- The translation table is not modelled as a whole: it is data. A small
  fragment stands in for it.
- The endpoint's `text` is absent, null or a string. Other JSON types are
  not modelled.
- Async interleaving is not modelled. Each handler runs to completion, and
  a page's `loadDiaries` after a save runs after the insert. Concurrent saves
  racing against each other are not modelled.
- `useLanguage`'s error outside a provider and all rendering are UI and are
  not modelled.
