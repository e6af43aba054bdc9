# podcastarr core, modelled in Dafny

podcastarr is a Next.js web application for a personal podcast channel.
This project models its core:

- the in-memory episode and profile store (`web/src/lib/db.tsx`);
- the SQLite schema and the channel read/upsert (`web/src/lib/db/schema.ts`, `web/src/lib/db/db.ts`);
- the server actions of the channel, profile, user and statistics pages;
- the state logic of those pages.

Each page is modelled as a class whose fields are its React state.

Layout:

| file | module | models |
|---|---|---|
| `common.dfy` | `Common` | `Option`, `Fetch` (an awaited call returns or throws) and `ActionResult` (`{ success, data }` / `{ success: false, error }`) |
| `types.dfy` | `Types`, `Forms` | `PodcastEpisode`, `ChannelInfo` / `UserInfo` (one `Profile<Flag>`, a number flag and a boolean flag), and `FormData` entries as a `map<string,string>` |
| `lists.dfy` | `Lists` | `Array.prototype.filter` and `Array.from(new Set(…))` (first-seen order) |
| `js_strings.dfy` | `JsStrings` | `String.prototype.trim`, `split` on a one-character separator, and `Array.prototype.join` |
| `memory_store.dfy` | `MemoryStore` | `lib/db.tsx`: the class `Store` holds the `storage` record |
| `schema.dfy` | `Schema` | `lib/db/schema.ts`: rows, insert defaults, auto-increment, the unique user name and the episode foreign key |
| `channel_db.dfy` | `ChannelDb` | `lib/db/db.ts`: row-to-`ChannelInfo` conversion, lookup by user name, the upsert, and the class `ChannelInfoTable` |
| `channel_actions.dfy` | `ChannelActions` | `app/channel/actions.ts` |
| `profile_actions.dfy` | `ProfileActions` | `app/profile/actions.ts` |
| `user_actions.dfy` | `UserActions` | `app/actions/user.ts` |
| `stats_actions.dfy` | `StatsActions` | `app/stats/actions.ts` |
| `channel_page.dfy` | `ChannelPage` | `app/channel/page.tsx` |
| `stats_page.dfy` | `StatsPage` | `app/stats/page.tsx` |
| `profile_page.dfy` | `ProfilePage` | `app/profile/page.tsx` |

Some calls are outside the model: the clock, `Date.now()` ids, and the store functions that the actions import from `@/lib/db/db`, which the shown `lib/db/db.ts` does not define. Each becomes a parameter. The store functions become functions from their arguments to a `Fetch`, so "returns" and "throws" are both covered.

Places where the code does not do what its types or names suggest:

- `updateUser` builds the explicit-content flag as the number 1/0, although `UserInfo` declares it boolean. `UserActions.UserFromForm` returns the number.
- The profile page prefills the language selector with "en" when the stored language is empty. Saving the untouched form therefore changes an empty language to "en" (`ProfilePage.UntouchedFormSavesSameProfile`).
- The statistics page shows the filter section only when the selected tag is truthy. A selected empty tag is never shown (`StatsPage.ShowsFilterOnlyAfterSelecting`).
- The channel page never changes `selectedTags`. The filter is therefore always the identity in practice, but `FilteredEpisodes` models it for any selection.

## Model

| member | source | states |
|---|---|---|
| Common.Wrap | web/src/app/channel/actions.ts:32-38 | an awaited call that returns gives `success` with its value; one that throws gives failure with its error, and nothing else |
| Forms.TextOr | web/src/app/profile/actions.ts:23-31 | `(values.k as string) \|\| fallback`: the entry when present and non-empty, the fallback otherwise |
| Lists.Filter | web/src/lib/db.tsx:71 | every element of the result passes and comes from the input, and every passing element of the input is kept |
| Lists.Passing | web/src/lib/db.tsx:71 | the passing positions of a list, from a start on: increasing, each passing, and none missing |
| Lists.FilterIsSubsequence | web/src/lib/db.tsx:71 | the filter's j-th element is the element at the j-th passing position, so order and multiplicity are kept |
| Lists.FilterAppend | web/src/lib/db.tsx:71 | filtering a concatenation filters each part |
| Lists.FilterKeepsAll | web/src/lib/db.tsx:71 | when every element passes, the filter returns the list unchanged |
| Lists.FilterDropsAll | web/src/lib/db.tsx:71 | when no element passes, the filter returns the empty list |
| Lists.FilterPartition | web/src/lib/db.tsx:71 | kept and dropped elements together are a permutation of the input |
| Lists.Distinct | web/src/app/channel/page.tsx:60-62 | `Array.from(new Set(s))` holds every element of `s`, nothing else, and no duplicates |
| Lists.FirstIndexInPrefix | web/src/app/channel/page.tsx:60-62 | an element's first index in a prefix is its first index in the whole list |
| Lists.DistinctFirstSeenOrder | web/src/app/channel/page.tsx:60-62 | a Set lists elements in the order of their first occurrence |
| Lists.DistinctOfDistinct | web/src/app/channel/page.tsx:60-62 | a list without duplicates goes through a Set unchanged |
| JsStrings.TrimStart | web/src/app/channel/actions.ts:28 | drops exactly the leading white space: the result is a suffix that does not start with white space |
| JsStrings.TrimEnd | web/src/app/channel/actions.ts:28 | drops exactly the trailing white space: the result is a prefix that does not end with white space |
| JsStrings.Trim | web/src/app/channel/actions.ts:28 | the result is a slice of the input, neither starts nor ends with white space, and only white space was cut off |
| JsStrings.TrimTrimmed | web/src/app/channel/actions.ts:28 | trimming is idempotent |
| JsStrings.TrimDropsLeadingSpace | web/src/app/channel/actions.ts:28 | white space put before a string disappears under trim |
| JsStrings.Split | web/src/app/channel/actions.ts:28 | `split(",")` gives one more segment than there are separators, and no segment contains the separator |
| JsStrings.Join | web/src/app/channel/page.tsx:229 | `join(sep)` starts with the first part and is as long as the parts plus one separator between each two |
| JsStrings.CountIsOccurrences | web/src/app/channel/actions.ts:28 | the separator count used by `Split` is the number of occurrences of the character |
| JsStrings.JoinSplit | web/src/app/channel/actions.ts:28 | joining the segments of a split with the separator gives the string back |
| JsStrings.SplitJoin | web/src/app/channel/actions.ts:28 | splitting a join of separator-free parts gives the parts back |
| JsStrings.SplitPlain | web/src/app/channel/actions.ts:28 | a string without the separator splits into itself alone |
| JsStrings.SplitAt | web/src/app/channel/actions.ts:28 | a separator-free string, then the separator, then the rest: splitting yields that first segment followed by the rest's segments |
| ChannelActions.ParseTags | web/src/app/channel/actions.ts:28 | one tag per comma-separated segment, each trimmed, none containing a comma |
| ChannelActions.ParseTagsSegments | web/src/app/channel/actions.ts:28 | the i-th tag is the trimmed i-th segment |
| ChannelActions.ParseTagsEmpty | web/src/app/channel/actions.ts:28 | an empty tags field yields one empty tag, not none |
| ChannelActions.ParseTagsKeepsDuplicates | web/src/app/channel/actions.ts:28 | repeated tags are kept: "a, a" yields two tags |
| ChannelActions.DraftFromForm | web/src/app/channel/actions.ts:23-28 | title, description, url and thumbnail verbatim from the form; tags parsed from its text |
| ChannelActions.CreatePayload | web/src/app/channel/actions.ts:23-30 | the create payload is the form draft with `channelId` 1 |
| ChannelActions.EditPayload | web/src/app/channel/actions.ts:44-50 | the edit payload is the form draft with no `channelId` |
| ChannelActions.CreateEditSameContent | web/src/app/channel/actions.ts:23-50 | create and edit read the same episode content from the same form; only `channelId` differs |
| ChannelActions.TagsText | web/src/app/channel/page.tsx:229 | the edit dialog's tag field starts out as the tags joined by `", "`: empty for no tags, the tag itself for one, otherwise starting with the first tag and as long as all the tags together plus two characters for each tag after the first |
| ChannelActions.ParseTagsText | web/src/app/channel/page.tsx:229 | the prefilled tags text `tags.join(", ")` parses back to the same tags when the list is non-empty and each tag is trimmed and comma-free |
| ChannelActions.ReparseIsStable | web/src/app/channel/actions.ts:28 | tags that came from parsing a form, when saved, prefilled and submitted again unchanged, parse to the same tags |
| ChannelActions.GetAllEpisodes | web/src/app/channel/actions.ts:11-18 | the store's episodes, or the empty list when the store throws |
| ChannelActions.CreateEpisode | web/src/app/channel/actions.ts:20-39 | success with the episode the store's `addEpisode` returns for the create payload, or failure with its error |
| ChannelActions.EditEpisode | web/src/app/channel/actions.ts:41-59 | success with the episode the store's `updateEpisode(id, …)` returns for the edit payload, or failure with its error |
| ChannelActions.RemoveEpisode | web/src/app/channel/actions.ts:61-69 | success exactly when the store's `deleteEpisode` returns, failure with its error otherwise |
| MemoryStore.NewEpisode | web/src/lib/db.tsx:40-46 | the new episode has the given id and content, and both timestamps equal the same clock reading |
| MemoryStore.IndexOf | web/src/lib/db.tsx:56 | `findIndex`: -1 exactly when no episode has the id, otherwise the first index holding it |
| MemoryStore.Revise | web/src/lib/db.tsx:60-64 | the update keeps id and `createdAt`, takes the new content, and stamps `updatedAt` |
| MemoryStore.RemoveById | web/src/lib/db.tsx:71 | no remaining episode has the id, each comes from the list, and every episode with another id remains |
| MemoryStore.MergeUserInfo | web/src/lib/db.tsx:84-88 | an existing profile keeps its id and takes every other field from the input; with none, the input gets the fresh id |
| MemoryStore.Store.constructor | web/src/lib/db.tsx:5-11 | the store starts with no episodes and no profile |
| MemoryStore.Store.GetEpisodes | web/src/lib/db.tsx:33-35 | returns the stored list |
| MemoryStore.Store.AddEpisode | web/src/lib/db.tsx:37-50 | appends exactly one episode, the new one, after the unchanged earlier ones, and returns it |
| MemoryStore.Store.UpdateEpisode | web/src/lib/db.tsx:52-68 | throws "Episode not found" and changes nothing when the id is absent; otherwise replaces only the first episode with that id by its revision and returns it |
| MemoryStore.Store.DeleteEpisode | web/src/lib/db.tsx:70-73 | the list becomes its filter by another id; the profile is unchanged |
| MemoryStore.Store.GetUserInfo | web/src/lib/db.tsx:75-77 | returns nothing exactly when no profile is stored |
| MemoryStore.Store.SetUserInfo | web/src/lib/db.tsx:79-91 | stores and returns the merge of the existing profile (or the fresh id) with the input; episodes unchanged |
| MemoryStore.AddThenFind | web/src/lib/db.tsx:37-56 | after adding an episode under an unused id, `findIndex` finds it at the end |
| MemoryStore.AddKeepsIdsUnique | web/src/lib/db.tsx:37-50 | adding under an unused id keeps ids unique |
| MemoryStore.UpdateKeepsIdsUnique | web/src/lib/db.tsx:52-68 | updating keeps ids unique |
| MemoryStore.UpdateTouchesOnlyThatId | web/src/lib/db.tsx:60-65 | with unique ids, an update revises the episode with that id, leaves every episode with another id in place, and keeps the length |
| MemoryStore.DeleteThenFind | web/src/lib/db.tsx:56-71 | after a delete, `findIndex` for that id is -1 |
| MemoryStore.DeleteAbsentIsNoOp | web/src/lib/db.tsx:70-73 | deleting an id no episode has leaves the list unchanged |
| MemoryStore.DeleteKeepsOrder | web/src/lib/db.tsx:71 | deleting from a concatenation deletes from each part, so the survivors keep their order |
| MemoryStore.DeleteRemovesOne | web/src/lib/db.tsx:70-73 | with unique ids, deleting a present id shortens the list by exactly one |
| MemoryStore.DeleteKeepsIdsUnique | web/src/lib/db.tsx:70-73 | deleting keeps ids unique |
| MemoryStore.SetUserInfoTwice | web/src/lib/db.tsx:79-91 | saving a profile twice keeps the first id and holds the second input |
| Schema.ValueOr | web/src/lib/db/schema.ts:15-16 | an omitted insert column takes its declared default, a given one its value |
| Schema.InsertedChannelRow | web/src/lib/db/schema.ts:3-16 | the inserted row has the assigned id, the given text columns, `is_explicit_content` defaulting to 0 and `language` to "en" |
| Schema.ChannelIds | web/src/lib/db/schema.ts:4 | the set of channel ids holds exactly the ids of the stored rows |
| Schema.InsertChannel | web/src/lib/db/schema.ts:3-16 | a duplicate user name is rejected with the table unchanged; otherwise the row is stored under the next auto-increment id, which then advances |
| Schema.InsertChannelKeepsValid | web/src/lib/db/schema.ts:4-5 | inserting keeps user names unique, ids unique and below the counter |
| Schema.InsertedEpisodeRow | web/src/lib/db/schema.ts:19-33 | the inserted episode row has the assigned id, the given columns, and each timestamp from its own clock reading when omitted |
| Schema.InsertEpisode | web/src/lib/db/schema.ts:32 | an episode naming a channel id that does not exist is rejected with the table unchanged; otherwise it is stored under the next id |
| Schema.InsertEpisodeKeepsValid | web/src/lib/db/schema.ts:20-32 | inserting keeps episode ids unique and every channel reference resolving |
| Schema.EpisodesValidUnderChannelGrowth | web/src/lib/db/schema.ts:32 | adding channels keeps every episode's reference resolving |
| ChannelDb.OrEmpty | web/src/lib/db/db.ts:18-26 | `?? ""`: the stored text, or "" for a null column |
| ChannelDb.ToChannelInfo | web/src/lib/db/db.ts:15-29 | every nullable text column becomes "" when null, `language` becomes "en" when null, and id, user name and flag are copied |
| ChannelDb.ToChannelInfoOfNullRow | web/src/lib/db/db.ts:15-29 | a channel inserted with nothing but its user name reads back with empty texts, flag 0 and language "en" |
| ChannelDb.Lookup | web/src/lib/db/db.ts:31-43 | null exactly when no row has the user name, otherwise that row converted |
| ChannelDb.NewRowFromInput | web/src/lib/db/db.ts:48-61 | the insert gives every column, each from the matching input field, and the user name |
| ChannelDb.Overwrite | web/src/lib/db/db.ts:66-69 | on conflict, the row keeps its id, takes the new user name, and each given column replaces the stored one while an omitted one stays |
| ChannelDb.Upsert | web/src/lib/db/db.ts:63-70 | the table holds exactly one row for the user name afterwards: a fresh row under the next id when absent, the overwritten row otherwise |
| ChannelDb.UpsertKeepsValid | web/src/lib/db/db.ts:63-70 | the upsert keeps the table's uniqueness and id invariants |
| ChannelDb.SetChannelInfoReturnsInput | web/src/lib/db/db.ts:45-73 | `setChannelInfo` returns exactly its input, with the row's id |
| ChannelDb.UpsertTwice | web/src/lib/db/db.ts:63-70 | upserting the same user twice keeps one row and its id, and holds the second values |
| ChannelDb.UpsertLeavesOthers | web/src/lib/db/db.ts:63-70 | every other user's row is unchanged |
| ChannelDb.ChannelInfoTable.constructor | web/src/lib/db/schema.ts:3-16 | the table starts empty |
| ChannelDb.ChannelInfoTable.GetChannelInfo | web/src/lib/db/db.ts:31-43 | returns the lookup of the user name; the table is unchanged |
| ChannelDb.ChannelInfoTable.SetChannelInfo | web/src/lib/db/db.ts:45-73 | the table becomes the upsert's table, and the result is the input with the row's id |
| ProfileActions.GetCurrentChannel | web/src/app/profile/actions.ts:7-16 | the channel stored for the name (default "defaultuser"), or null when the query throws |
| ProfileActions.ChannelFromForm | web/src/app/profile/actions.ts:21-34 | user name "defaultuser", each text field from the form or "", flag 1 exactly when the entry is truthy, language from the form or "en" |
| ProfileActions.ChannelFormIgnoresUserName | web/src/app/profile/actions.ts:22 | a `userName` entry in the form has no effect |
| ProfileActions.UpdateChannel | web/src/app/profile/actions.ts:18-43 | on success, the saved channel is the record built from the form, "defaultuser" has one row, and the new table and counter are exactly what `ChannelDb.Upsert` of that record leaves, so every other user's row is unchanged (`ChannelDb.UpsertLeavesOthers`); on failure, the error and the table unchanged |
| ProfileActions.SaveThenRead | web/src/app/profile/actions.ts:7-43 | reading the channel after saving it returns exactly what was saved |
| ProfileActions.SaveTwiceKeepsOneRow | web/src/app/profile/actions.ts:18-43 | saving twice keeps one row for "defaultuser" with the same id, holding the second form |
| UserActions.GetCurrentUser | web/src/app/actions/user.ts:6-15 | the store's answer for the name (default "defaultuser"), or null when it throws |
| UserActions.UserFromForm | web/src/app/actions/user.ts:20-33 | user name from the form or "defaultuser", each text field from the form or "", the flag 1 or 0, language from the form or "en" |
| UserActions.UserFormMatchesChannelForm | web/src/app/actions/user.ts:20-33 | the user record equals the channel record except for the user name, and equals it outright when the form names no user |
| UserActions.UpdateUser | web/src/app/actions/user.ts:17-41 | the store's saved profile, or a throw with "Failed to update user information" whatever the store threw |
| StatsActions.WithDefaultFill | web/src/app/stats/actions.ts:18-21 | each statistic keeps its name and count and gets the default colour |
| StatsActions.GetStatsData | web/src/app/stats/actions.ts:6-30 | episodes and coloured statistics when both fetches return; both empty when either throws |
| StatsActions.GetFilteredEpisodes | web/src/app/stats/actions.ts:32-41 | the store's episodes for the tag, or the empty list when it throws |
| ChannelPage.FlatTags | web/src/app/channel/page.tsx:61 | `flatMap(e => e.tags)`: holds every tag of every episode and nothing else |
| ChannelPage.FlatTagsOfOne | web/src/app/channel/page.tsx:61 | one episode contributes exactly its own tags, in their order |
| ChannelPage.FlatTagsAppend | web/src/app/channel/page.tsx:61 | the tags of two lists of episodes, one after the other, are the first list's tags followed by the second's, so `flatMap` keeps the episodes' order |
| ChannelPage.DistinctTags | web/src/app/channel/page.tsx:68-73 | every tag of every episode is in `allTags`, every entry is such a tag, and none repeats |
| ChannelPage.DistinctTagsSpec | web/src/app/channel/page.tsx:68-73 | `allTags` holds every tag of some episode, nothing else, no duplicates, in first-seen order |
| ChannelPage.HasSelectedTag | web/src/app/channel/page.tsx:99-100 | an episode matches when its tags and the selection share a tag; nothing matches an empty selection |
| ChannelPage.FilteredEpisodes | web/src/app/channel/page.tsx:96-101 | no selection shows the whole list; otherwise every shown episode is from the list and carries a selected tag, and every such episode is shown |
| ChannelPage.FilteredEpisodesSpec | web/src/app/channel/page.tsx:96-101 | an episode is shown exactly when the selection is empty or it carries a selected tag |
| ChannelPage.FilteredEpisodesKeepOrder | web/src/app/channel/page.tsx:96-101 | the shown episodes keep the list's order |
| ChannelPage.ReplaceById | web/src/app/channel/page.tsx:146-150 | `map(ep => ep.id === r.id ? r : ep)`: same length, every episode with the id replaced, the others unchanged |
| ChannelPage.ReplaceMirrorsStoreUpdate | web/src/app/channel/page.tsx:146-150 | with unique ids, the page's replacement equals the store's replacement of the first match |
| ChannelPage.SubmitTagsAsWritten | web/src/app/channel/page.tsx:154 | the handler's tags are exactly the tags of the pre-submit episodes and of the returned one, without repeats |
| ChannelPage.SubmitTagsAsWrittenOnCreate | web/src/app/channel/page.tsx:152-154 | after a create, the handler's tags are the distinct tags of the list the page shows |
| ChannelPage.SubmitTagsAsWrittenStaleOnEdit | web/src/app/channel/page.tsx:145-154 | the handler's tags, `DistinctTags([...episodes, result.data])`, keep a tag no shown episode carries after an edit |
| ChannelPage.AfterSubmit | web/src/app/channel/page.tsx:145-153 | an edit replaces the episode with the returned id; a create appends the returned episode |
| ChannelPage.SubmitTags | web/src/app/channel/page.tsx:145-154 | the corrected tags, computed from the list the page shows after the submit; equal to the handler's on create |
| ChannelPage.SubmitTagsExact | web/src/app/channel/page.tsx:145-154 | the corrected tags hold exactly the tags of the episodes shown after the submit |
| ChannelPage.SubmitTagsAsWrittenCoversShown | web/src/app/channel/page.tsx:145-154 | the handler's tags miss no shown tag; its only error is extra stale tags |
| ChannelPage.Page.constructor | web/src/app/channel/page.tsx:47-54 | no episodes, no tags, no selection, nothing being edited, dialog closed, not submitting |
| ChannelPage.Page.Filtered | web/src/app/channel/page.tsx:96-101 | with no tag selected the page shows all its episodes; otherwise each shown one is the page's and carries a selected tag, and every episode of the page that carries a selected tag is shown |
| ChannelPage.Page.Load | web/src/app/channel/page.tsx:56-66 | episodes become the fetched ones, `allTags` their distinct tags |
| ChannelPage.Page.HandleDelete | web/src/app/channel/page.tsx:75-94 | on success, the episodes with the id are removed and `allTags` recomputed from the rest; on failure, nothing changes |
| ChannelPage.Page.StartEdit | web/src/app/channel/page.tsx:256-259 | sets the episode being edited and opens the dialog |
| ChannelPage.Page.BeginSubmit | web/src/app/channel/page.tsx:137-138 | a submit while one is running does nothing; otherwise the page enters the submitting state |
| ChannelPage.Page.FinishSubmit | web/src/app/channel/page.tsx:139-174 | on success, replaces or appends the returned episode, recomputes `allTags` (corrected), closes the dialog and clears the edit; on failure, keeps the list; always leaves the submitting state |
| StatsPage.ResetFills | web/src/app/stats/page.tsx:50 | every bar gets the default colour, names and counts unchanged |
| StatsPage.Highlight | web/src/app/stats/page.tsx:58-63 | the clicked tag's bars get the selected colour, all others the default |
| StatsPage.Counts | web/src/app/stats/page.tsx:21 | the chart's names and counts, bar by bar, without colours |
| StatsPage.RecolourKeepsCounts | web/src/app/stats/page.tsx:45-79 | recolouring never changes the chart's names and counts |
| StatsPage.Click | web/src/app/stats/page.tsx:45-73 | clicking the selected tag deselects it; another tag is selected with the server action's answer; a failure of the call to the action itself changes nothing |
| StatsPage.Clear | web/src/app/stats/page.tsx:75-79 | no selection, no filtered episodes, default colours |
| StatsPage.ClickAfterStoreFailure | web/src/app/stats/page.tsx:45-73 | when the store fails, the click still selects and highlights the tag with no episodes, the filter section stays hidden, and a second click clears it |
| StatsPage.ClearIsDeselect | web/src/app/stats/page.tsx:48-79 | clearing equals clicking the selected tag again |
| StatsPage.ClickTwiceDeselects | web/src/app/stats/page.tsx:45-73 | clicking the same tag twice ends with no selection and default colours |
| StatsPage.ClickKeepsFillsShow | web/src/app/stats/page.tsx:45-73 | after a click, the colours show exactly the selection |
| StatsPage.SelectionColoursOneBar | web/src/app/stats/page.tsx:58-63 | after selecting a tag, a bar is highlighted exactly when it is that tag's |
| StatsPage.ShowsFilter | web/src/app/stats/page.tsx:98 | the filter section is hidden with no selection, with the empty tag selected, and with no episodes |
| StatsPage.ShowsFilterOnlyAfterSelecting | web/src/app/stats/page.tsx:98-151 | after a click, the filter section shows only when a non-empty tag was newly selected and its episodes are non-empty, or the fetch threw and it showed before; after clearing it never shows |
| StatsPage.Page.constructor | web/src/app/stats/page.tsx:20-24 | loading, nothing selected, no data |
| StatsPage.Page.Load | web/src/app/stats/page.tsx:26-43 | episodes and statistics from `getStatsData`, loading ends |
| StatsPage.Page.HandleClick | web/src/app/stats/page.tsx:45-73 | the page's selection becomes the click's result; episodes unchanged |
| StatsPage.Page.ClearFilter | web/src/app/stats/page.tsx:75-79 | the page's selection becomes the cleared one |
| ProfilePage.RecordFromForm | web/src/app/profile/page.tsx:41-54 | the loaded user name, every text field verbatim, the flag true exactly when the checkbox entry is "on", the language verbatim |
| ProfilePage.InitialLanguage | web/src/app/profile/page.tsx:245 | the selector starts at the stored language, or "en" when it is empty |
| ProfilePage.PrefilledForm | web/src/app/profile/page.tsx:114-245 | the untouched form submits each text input as the stored field, the language as `InitialLanguage`, and the checkbox entry "on" exactly when the stored flag is set |
| ProfilePage.UntouchedFormSavesSameProfile | web/src/app/profile/page.tsx:35-70 | submitting the untouched form saves the loaded profile again, except that an empty language becomes "en" |
| ProfilePage.Page.constructor | web/src/app/profile/page.tsx:32 | the page starts with the store and the loaded profile |
| ProfilePage.Page.HandleSubmit | web/src/app/profile/page.tsx:35-71 | with no profile loaded nothing happens; otherwise the store holds the merge of the form record, and the page shows it unless writing the store out threw |

## Left out

- Persistence to `localStorage` (`saveStorage`, `loadStorage` in `lib/db.tsx`) is left out: it is browser I/O. `ProfilePage.Page.HandleSubmit` models only its throwing, as a parameter.
- `Date.now()` ids and `new Date()` timestamps are parameters. The model does not claim `updatedAt >= createdAt`, because no clock is monotone here.
- `MemoryStore.Store.AddEpisode` assumes nothing about the id's uniqueness. `MemoryStore.AddKeepsIdsUnique` needs an unused id, which `Date.now()` does not guarantee.
- The drizzle client, the SQL text and the migrations (`lib/db/drizzle.ts`, `lib/db/migrate.ts`) are left out. The channel table is modelled as a map from user name to row, and the episode table as a list of rows.
- The store functions that the actions import from `@/lib/db/db` are not part of this model, because the shown `lib/db/db.ts` does not define them. Their outcomes are parameters: `getEpisodes`, `addEpisode`, `updateEpisode`, `deleteEpisode`, `getTagStatistics`, `getEpisodesByTag`, `getUserInfo` and `setUserInfo`.
- `app/actions.ts`, `UserContext`, the public and per-episode pages, and all rendering (JSX, dialogs, toasts, `console.error`) are not part of this model.
- `ChannelActions.DraftFromForm` requires every episode-form entry to be present. A missing entry would be `undefined` in the source, and `split` on it would throw; the form always submits all five.
- `ProfilePage.RecordFromForm` requires the form's text entries and the language to be present. A missing one would be `null` in the source; the page's form always submits them.
- `JsStrings.IsWhitespace` is the ECMAScript WhiteSpace and LineTerminator set as code points. Surrogate pairs and UTF-16 code units are not modelled.
- `ChannelPage.Page.Load` and `StatsPage.Page.Load` model the mount-time effect only. The stats effect's re-run when `toast` changes is not modelled.
- React's batching and asynchronous state updates are not modelled. Each handler's state change is one atomic step, and the functional `setEpisodes(prev => …)` sees the same list the handler sees.
- Concurrency between a submit and a delete on the channel page is not modelled.
- `StatsPage.Page.Load` does not model a failure of the call to the server action `getStatsData`. The action catches every store error itself and answers with empty lists.

- ChannelPage.Page.FinishSubmit: recomputes `allTags` with the corrected `SubmitTags` of the Findings row, not as line 154 of `app/channel/page.tsx` does. After an edit the page as written can also show tags that no episode carries; `SubmitTagsAsWrittenStaleOnEdit` shows this and `SubmitTagsAsWrittenCoversShown` shows it misses none.
- Schema.InsertEpisode: rejects a `channel_id` that names no channel, as the schema declares. SQLite enforces `references` only with `PRAGMA foreign_keys = ON`, and neither `lib/db/drizzle.ts` nor `lib/db/migrate.ts` turns it on. With the pragma off, such a row would be stored.
- ChannelDb.Upsert: leaves the auto-increment counter where it was when the user name already has a row. SQLite does not promise that an `AUTOINCREMENT` id is never skipped, so later ids may be larger than the model's. Only "ids below the counter" is used by `ChannelsValid`.
- MemoryStore.Store.GetEpisodes: returns the list as a value. `lib/db.tsx` returns the live `storage.episodes` array, which a caller could mutate; no caller in this model does.

## Findings

| source | as written | input that shows it | evidently intended | confidence | as-written member | corrected member |
|---|---|---|---|---|---|---|
| web/src/app/channel/page.tsx:154 | after a successful submit, `allTags` is recomputed from the pre-submit `episodes` plus the returned episode | edit episode 1, whose tags are `["a"]`, into tags `["b"]`: `allTags` becomes `["a","b"]`, although no shown episode has "a" | recompute `allTags` from the list the page shows after the submit, as `handleDelete` does | not executed; likely, because the edit branch replaces the episode but the recomputation still includes the old version | ChannelPage.SubmitTagsAsWrittenStaleOnEdit | ChannelPage.SubmitTagsExact |
