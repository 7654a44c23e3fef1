# WZDx feed dashboard: a verified model of its core rules

The dashboard mirrors the DataHub's list of WZDx (Work Zone Data Exchange)
feeds into a feed table. It checks each feed periodically and records a status
for it: offline, schema error, outdated, stale or ok. It then shows feeds,
statuses and archives in paginated pages. This project models the
deterministic rules behind these steps and proves what they guarantee:

- `checkfeeds.dfy` (module `CheckFeeds`): the `checkfeeds` command.
  - The offline test; the outdated and stale date tests with their strict
    fourteen-day cutoff.
  - The summary of the most common schema error.
  - The first-match-wins classification (offline, schema error, outdated,
    stale, ok).
  - The command loop, which creates one `FeedStatus` record per feed and
    carries `status_since` over from a previous status of the same type.
- `schema_check.dfy` (module `SchemaCheck`): the JSON helpers.
  - `format_as_index`, and the recursive key finder `find_all_instances_key`.
  - The flattening of errors with sub-errors, `get_formatted_errors`.
  - The version → schema URI table, and the ordering of validator errors by
    their text.
- `models.dfy` (module `Models`): the feed and status models.
  - The status codes and labels, and `is_error`.
  - The `FeedStatus` record as a class, with one constructor per subclass.
  - `Feed.work_zone_events`.
  - The `details` texts of the ok, stale and schema-error statuses.
- `feedstatus_tag.dfy` (module `FeedStatusTag`): the `get_status_label` template filter.
- `dashboard_views.dfy` and `archive_views.dfy`: the two identical copies of
  `get_page_button_array`, the USWDS page list.
- `archive_tables.dfy` (module `ArchiveTables`): the unit choice of `format_bytes`.
  It is a loop of divisions by 1024.
- `dashboard_forms.dfy` (module `DashboardForms`): the choices of the feed search form.
- `syncdatahub.dfy` (module `SyncDatahub`): the `syncdatahub` command.
  - The API-key URL rewrite, and the rules that skip a listed feed.
  - The `feeds_prior` reconciliation that deletes feeds the run did not cross off.
- Support modules:
  - `wrappers.dfy`: `Option` and `Result`.
  - `json.dfy`: JSON values, Python truthiness and dict lookup.
  - `text.dfy`: decimal rendering of integers, `split`/`join` on one character,
    and Python's string ordering.

Several things are parameters of the model:
- The clock (`now`, in integer seconds).
- ISO 8601 date parsing (`parseDate`, where `None` is a parse error).
- The Draft 7 validator (`validate`), `best_match` (`best`) and `str(error)` (`text`).
- The API key table.
- The network: the DataHub listing and each feed's fetch result.

A Python exception that ends a command becomes an explicit failure value:
`CheckFailure` for `checkfeeds` and `SyncError` for `syncdatahub`.

## Model

| member | source | states |
|---|---|---|
| CheckFeeds.IsOfflineMeaning | project/dashboard/management/commands/checkfeeds.py:24-47 | Specifies `CheckFeeds.IsOffline`: a feed is online exactly when it has a non-empty URL, is active, its response code is 200 and its data is present and truthy; the separate test for code 0 never decides the outcome. |
| CheckFeeds.ParseDates | project/dashboard/management/commands/checkfeeds.py:62-67 | The parsed dates correspond one to one, in order, to the found strings; the parse fails only if some string does not parse. |
| CheckFeeds.Max | project/dashboard/management/commands/checkfeeds.py:77 | `max` of a non-empty list is one of its elements and no element is larger. |
| CheckFeeds.Outdated | project/dashboard/management/commands/checkfeeds.py:57-78 | A failure to find or parse the update dates is passed on unchanged; with no update date the result is the `max([])` failure; with at least one date it succeeds. Otherwise it is (every date before now − 14 days, latest date), and "outdated" holds iff the latest date is strictly before the cutoff. |
| CheckFeeds.OutdatedBoundary | project/dashboard/management/commands/checkfeeds.py:69-73 | An update date exactly at the cutoff is not outdated. |
| CheckFeeds.Before | project/dashboard/management/commands/checkfeeds.py:91-93 | The kept dates are exactly those strictly before the cutoff, and there are no more of them than dates. |
| CheckFeeds.BeforeIsFilter | project/dashboard/management/commands/checkfeeds.py:91-93 | The comprehension keeps each date before the cutoff as many times as it occurs, drops every other date, and keeps the input order. |
| CheckFeeds.Stale | project/dashboard/management/commands/checkfeeds.py:81-95 | Succeeds iff the end dates are found and parse, and otherwise passes that failure on. The stale dates are the end dates strictly before now − 14 days, each as often as it occurs and in document order. |
| CheckFeeds.MostCommonIndex | project/dashboard/management/commands/checkfeeds.py:126-128 | Picks a message whose count is maximal over all messages, and every earlier message has a strictly smaller count (first-seen tie-breaking of `Counter.most_common`). |
| CheckFeeds.Messages | project/dashboard/management/commands/checkfeeds.py:124 | The first components of the formatted pairs, in order. |
| CheckFeeds.MostCommon | project/dashboard/management/commands/checkfeeds.py:123-131 | Returns the most frequent message with its count and the field of the message's first occurrence, ties going to the message seen first. |
| CheckFeeds.MostCommonExample | project/dashboard/management/commands/checkfeeds.py:126-131 | For messages B, A, A, A the summary is A, field of the first A, count 3. |
| CheckFeeds.OfflineFirst | project/dashboard/management/commands/checkfeeds.py:107-112 | Specifies `CheckFeeds.Classify`, with the next three rows and `CheckFeeds.ClassifyFailures`: the verdict is offline iff the feed is offline, whatever its payload, version or dates. |
| CheckFeeds.SchemaErrorSecond | project/dashboard/management/commands/checkfeeds.py:114-139 | For an online feed of a known version: schema error iff the validator found errors and some survive flattening. The total counts the raw errors; the type is the most common flattened message, first seen among equals; the field is where it first occurs. |
| CheckFeeds.OutdatedThird | project/dashboard/management/commands/checkfeeds.py:141-150 | For an online valid feed whose update dates are found: with none the command ends with the `max([])` failure; otherwise outdated iff all are before the cutoff; the verdict holds the latest update date. |
| CheckFeeds.ClassifyFailures | project/dashboard/management/commands/checkfeeds.py:114-168 | For an online feed: an unknown version ends the command with its `KeyError`, validator errors none of which survives flattening end it with the `IndexError`, and a feed with validator errors is never given a date verdict. For a valid feed, a failure to find or parse the update dates (or none at all) ends the command with that failure, and so does such a failure on the end dates of a feed that is not outdated. |
| CheckFeeds.StaleFourthOkLast | project/dashboard/management/commands/checkfeeds.py:151-168 | For an online, valid, not outdated feed: stale with the latest stale end date and their number when there are stale end dates, ok otherwise. |
| CheckFeeds.StatusSince | project/dashboard/management/commands/checkfeeds.py:170-175 | The start of the status is the previous status's when one exists with the same type, else the new record's own creation time. |
| CheckFeeds.StatusSinceExample | project/dashboard/management/commands/checkfeeds.py:170-175 | Ok then ok keeps the first time; ok then offline starts anew. |
| CheckFeeds.StatusSinceRun | project/dashboard/management/commands/checkfeeds.py:170-175 | Repeated checks with the same status keep the start of the unbroken run. |
| CheckFeeds.NewStatus | project/dashboard/management/commands/checkfeeds.py:112-175 | Creates a fresh record of the subclass matching the verdict, with its fields, checked now, and its start carried over from the prior status of the same type. |
| CheckFeeds.Handle | project/dashboard/management/commands/checkfeeds.py:101-177 | One fresh record per feed, in order, each with the feed's name, the type and details of its classification and the carried-over start; an exception while checking a feed stops the run at that feed, keeping the earlier records. |
| SchemaCheck.FormatAsIndex | project/shared/schema_check.py:35-39 | The path is the container followed by one `[repr(i)]` group per index, each rendered by `SchemaCheck.Repr` (an integer as its digits, a key in quotes); with no indices it is the container unchanged. |
| SchemaCheck.BracketsAppend | project/shared/schema_check.py:39 | The bracket groups of a concatenated index list are the groups of each part, one after the other. |
| SchemaCheck.JoinedIsBrackets | project/shared/schema_check.py:39 | `"[" + "][".join(reprs) + "]"` is the same text as one bracket group per index. |
| SchemaCheck.FormatAsIndexNested | project/shared/schema_check.py:66-69 | Formatting the parent's path and then the sub-error's path equals formatting the concatenated path once. |
| SchemaCheck.FindAll | project/shared/schema_check.py:42-51 | When the dictionary holds the key, its own value is the first one yielded. |
| SchemaCheck.FindAllIsPreorder | project/shared/schema_check.py:42-51 | The yields are, in order, the value under the key of each dictionary the generator visits (the node, then the dictionaries under each descended field, depth first). So each stored value is yielded once per dictionary that holds it, none is dropped or repeated, and the order is fixed. |
| SchemaCheck.Visited | project/shared/schema_check.py:45-51 | The walk starts at the dictionary itself and visits nothing from a value that is not a dictionary. |
| SchemaCheck.ValuesUnderAppend | project/shared/schema_check.py:45-51 | Collecting the values of two runs of visited nodes is collecting each run in turn. |
| SchemaCheck.FindAllInstancesKey | project/shared/schema_check.py:42-51 | The finder succeeds exactly on a dictionary; anything else raises. |
| SchemaCheck.FindInFieldsContains | project/shared/schema_check.py:47-51 | Whatever a descended field yields is yielded by the scan over the fields. |
| SchemaCheck.FindAllComplete | project/shared/schema_check.py:42-51 | Every value stored under the key in a dictionary reached through dictionary-valued, non-skipped fields is yielded. |
| SchemaCheck.FindInFieldsSound | project/shared/schema_check.py:47-51 | Whatever the scan over the fields yields comes from some descended field. |
| SchemaCheck.FindAllSound | project/shared/schema_check.py:42-51 | Every yielded value is stored under the key in a dictionary reached through dictionary-valued, non-skipped fields. |
| SchemaCheck.FindAllExample | project/shared/schema_check.py:45-51 | The node's own value comes before nested values, and a skipped key is not descended into. |
| SchemaCheck.FindAllListAndNestedExample | project/shared/schema_check.py:45-48 | Values inside lists are not found; a matched value that is a dictionary is yielded and then searched. |
| SchemaCheck.GetFormattedErrors | project/shared/schema_check.py:54-70 | Yields at most one pair per error. |
| SchemaCheck.Yielded | project/shared/schema_check.py:56-70 | One error yields zero or one pair. |
| SchemaCheck.GetFormattedErrorsAppend | project/shared/schema_check.py:56 | The output follows the input order: the flattening of a concatenation is the concatenation of the flattenings. |
| SchemaCheck.GetFormattedErrorsPlain | project/shared/schema_check.py:57-59 | Errors without sub-errors are kept one for one, as their own message at `feedname[...path]`. |
| SchemaCheck.GetFormattedErrorsNested | project/shared/schema_check.py:60-70 | An error with sub-errors becomes its best sub-error's message at the parent's path followed by the sub-error's path, or is dropped when `best_match` gives no validation error. |
| SchemaCheck.VersionToSchema | project/shared/schema_check.py:13-21 | A URI exists exactly for the six versions 2.0 to 4.2, and it names that version's directory; any other version, CWZ included, is the `KeyError`. |
| SchemaCheck.VersionToSchemaInjective | project/shared/schema_check.py:13-21 | Distinct known versions have distinct schema URIs. |
| SchemaCheck.InsertSorted | project/shared/schema_check.py:121 | Inserting into an ordered list keeps it ordered and adds exactly the element. |
| SchemaCheck.SortBySorted | project/shared/schema_check.py:121 | Specifies `SchemaCheck.SortBy`, with the next two rows: the sort returns a permutation of its input, in non-decreasing order of the key text. |
| SchemaCheck.SortByOfSorted | project/shared/schema_check.py:121 | Sorting an ordered list leaves it unchanged. |
| SchemaCheck.SortByIdempotent | project/shared/schema_check.py:119-121 | Ordering the errors twice gives the order of ordering them once. |
| SchemaCheck.GetSchemaErrors | project/shared/schema_check.py:114-121 | The result is a permutation of the validator's errors, ordered by their text. |
| SchemaCheck.GetVersionSchemaErrors | project/shared/schema_check.py:108-111 | Fails exactly for an unknown version, with that version as the `KeyError`; otherwise the validator's errors against that version's schema, permuted into text order. |
| Models.StatusType.IsError | project/dashboard/models.py:174-181 | `is_error` holds for every status except ok and null. |
| Models.StatusTypeOf | project/dashboard/models.py:144-150 | A status found for a code has that code. |
| Models.StatusTypeOfCode | project/dashboard/models.py:144-150 | Every status is found again from its code. |
| Models.LabelsDistinct | project/dashboard/models.py:144-150 | Distinct statuses have distinct labels. |
| Models.FeedStatus.constructor | project/dashboard/models.py:157-169 | A new status record has the null type by default, is checked and started now, and has no notification sent. |
| Models.FeedStatus.OKStatus | project/dashboard/models.py:192-195 | The record's type is forced to OK. |
| Models.FeedStatus.SchemaErrorStatus | project/dashboard/models.py:202-205 | The record's type is forced to ER, and it keeps the error summary. |
| Models.FeedStatus.OutdatedErrorStatus | project/dashboard/models.py:250-255 | The record's type is forced to OU, and it keeps the update date. |
| Models.FeedStatus.StaleErrorStatus | project/dashboard/models.py:266-274 | The record's type is forced to ST, and it keeps the latest end date and the count. |
| Models.FeedStatus.OfflineErrorStatus | project/dashboard/models.py:287-290 | The record's type is forced to OF. |
| Models.Iterate | project/dashboard/models.py:85-87 | Iterating a list gives its items, a dictionary its keys in order, a string its characters, and `null`, a boolean or a number raises. |
| Models.FilterWorkZoneSpec | project/dashboard/models.py:85-98 | The comprehension keeps each work-zone feature exactly as many times as it occurs, drops every other feature, and keeps the input order. |
| Models.WorkZoneEventsSpec | project/dashboard/models.py:81-102 | Specifies `Models.WorkZoneEvents`: version 3 filters on `properties.event_type`, version 4 on `properties.core_details.event_type`, giving an order-preserving subsequence that holds each work-zone feature as often as the input does and nothing else; a `features` dictionary or string gives nothing (it succeeds only when empty); other versions give nothing; `features` must exist in every case. |
| Models.OkDetailsReportsCount | project/dashboard/models.py:197-199 | Specifies `Models.OkDetails`: the OK text fails exactly where the work-zone event list does. Otherwise it reads "All good! N work zone events.", and N reads back as the number of work-zone events. |
| Models.StaleDetailsReportsCount | project/dashboard/models.py:280-284 | Specifies `Models.StaleDetails`: the stale text is a number followed by " events have ended over 14 days ago.", and the number reads back as the stored count of events. |
| Models.SchemaErrorDetails | project/dashboard/models.py:216-232 | No errors gives "No errors were found.". Otherwise the text is the most-common phrase with that error's count, at least 1, then the other-errors phrase with the rest of the total, never negative. |
| Models.CountOfBound | project/dashboard/models.py:223-230 | The most common error's count is at least one and at most the total, so the number of other errors is never negative. |
| Models.MostCommonPhraseOne | project/dashboard/models.py:232 | One event reads "1 event has the following error: …". |
| Models.MostCommonPhraseMany | project/dashboard/models.py:232 | Any other count reads "N events have the following error: …". |
| Models.OtherPhraseWording | project/dashboard/models.py:230-232 | No other errors reads "There are no other errors.", one reads "There is 1 other error.", more read "There are N other errors.". |
| FeedStatusTag.GetStatusLabel | project/dashboard/templatetags/feedstatus.py:9-17 | A known code gives its status's label; any other string gives "" and never raises. |
| FeedStatusTag.GetStatusLabelKnown | project/dashboard/templatetags/feedstatus.py:11-17 | The label is empty exactly for unknown codes, and two codes with the same non-empty label are the same code. |
| DashboardViews.GetPageButtonArray | project/dashboard/views.py:12-52 | No paginator gives no buttons; fewer than 7 pages give pages 1..total; 7 or more give seven buttons from page 1 to the last page. |
| DashboardViews.PageButtonsWellFormed | project/dashboard/views.py:23-52 | For an existing current page, page numbers strictly increase, stay within 1..total, and include the current page, the first and the last. Neighbouring pages are consecutive, and an ellipsis stands exactly where pages are skipped. |
| DashboardViews.WindowWellFormed | project/dashboard/views.py:27-52 | Each seven-button window holding the current page is well formed. |
| DashboardViews.WindowGapsMarked | project/dashboard/views.py:27-52 | In a seven-button window, the ellipses mark exactly the gaps between page runs. |
| DashboardViews.PageButtonsCases | project/dashboard/views.py:27-52 | With 7 or more pages, the list is one of the three windows: first pages, last pages, or around the current page. |
| ArchiveViews.Run | project/archive/views.py:28 | `range(first, first + count)` as page buttons. |
| ArchiveViews.GetPageButtonArray | project/archive/views.py:16-56 | The archive copy equals the dashboard function for every input. |
| ArchiveTables.ScaleUpMonotone | project/archive/tables.py:12-14 | Multiplying back by 1024 n times preserves order. |
| ArchiveTables.PowersIncrease | project/archive/tables.py:12-14 | Powers of 1024 do not decrease with the exponent. |
| ArchiveTables.OnePowerMore | project/archive/tables.py:12-14 | Each power of 1024 is 1024 times the previous one and larger. |
| ArchiveTables.PowerLabel | project/archive/tables.py:11 | A prefix exists exactly for n from 0 to 4. |
| ArchiveTables.DivideStep | project/archive/tables.py:12-14 | One division keeps the original size as the scaled value times 1024^n, and makes progress. |
| ArchiveTables.ExitBounds | project/archive/tables.py:12-14 | When the loop ends, n is 0 iff the size is at most 1024; otherwise 1024^n < size ≤ 1024^(n+1). |
| ArchiveTables.FormatBytes | project/archive/tables.py:7-16 | Divides only while the value exceeds 1024: the remainder is at most 1024 and equals the size over 1024^n. A size of at most 1024 is unchanged with n = 0. The unit is the n-th prefix + "bytes", or the `KeyError` when n ≥ 5. |
| ArchiveTables.UnitDefinedUpTo | project/archive/tables.py:10-16 | A unit exists exactly for sizes up to 1024^5, and exactly 1024 stays in bytes. |
| DashboardForms.ChoiceLabel | project/dashboard/forms.py:9 | The label ends with the organization: it is just the organization when the state is empty, otherwise state + " - " + organization. |
| DashboardForms.FeedChoices | project/dashboard/forms.py:7-13 | The placeholder ("", "Find a feed!") comes first, then one choice per feed in row order, valued by its name and labelled as above. |
| DashboardForms.FeedChoicesCoverFeeds | project/dashboard/forms.py:8-13 | A non-empty choice value names a feed, and every feed can be chosen. |
| SyncDatahub.GetFeedFullUrl | project/dashboard/management/commands/syncdatahub.py:10-22 | No key for the feed gives None, even with a URL; otherwise a URL exists exactly when one was given. |
| SyncDatahub.FullUrlReplacesLastValue | project/dashboard/management/commands/syncdatahub.py:20 | Everything before the last "=" is kept and the key follows the "=". |
| SyncDatahub.FullUrlWithoutEquals | project/dashboard/management/commands/syncdatahub.py:20 | A URL without "=" becomes "=" followed by the key. |
| Text.SplitAround | project/dashboard/management/commands/syncdatahub.py:20 | `split` at a separator splits the two sides independently. |
| Text.JoinSplit | project/dashboard/management/commands/syncdatahub.py:20 | Joining the pieces of a split with the same separator gives back the string. |
| SyncDatahub.TextOf | project/dashboard/management/commands/syncdatahub.py:61 | A value is read as text exactly when it is a string, and the text is that string. |
| SyncDatahub.UrlOf | project/dashboard/management/commands/syncdatahub.py:61-72 | `entry.get(key).get("url")` succeeds exactly when the entry holds a dictionary under the key, giving that dictionary's `url` value or nothing; otherwise it is the attribute error. |
| SyncDatahub.DataUrl | project/dashboard/management/commands/syncdatahub.py:58-96 | The data URL is the rewritten URL when `apikeyurl` is truthy, else the plain URL. The attribute copies before it fail on a `url`, or a truthy `apikeyurl`, that is not a dictionary. |
| SyncDatahub.ProcessEntry | project/dashboard/management/commands/syncdatahub.py:44-118 | A saved feed carries the entry's feed name; an entry without a feed name ends the command. Its other outcomes are stated by `SyncDatahub.AbortOrSaveWithFeedname` and `SyncDatahub.SkipWithoutFetchedData`. |
| SyncDatahub.AbortOrSaveWithFeedname | project/dashboard/management/commands/syncdatahub.py:82-118 | For an entry with a feed name: an error reading its data URL ends the command with that error, and a 200 answer saves the feed built from the entry and the fetched body. |
| SyncDatahub.SkipWithoutFetchedData | project/dashboard/management/commands/syncdatahub.py:90-114 | No data URL, a failed request or a status other than 200 skips the feed: nothing is saved or crossed off. |
| SyncDatahub.RemoveFirst | project/dashboard/management/commands/syncdatahub.py:120-123 | `list.remove` ignores a missing name and otherwise removes one entry, keeping all other names. |
| SyncDatahub.RemoveFirstCounts | project/dashboard/management/commands/syncdatahub.py:121 | Exactly one occurrence of the name is removed. |
| SyncDatahub.RemoveFirstDistinct | project/dashboard/management/commands/syncdatahub.py:121 | On names without duplicates, removal keeps them distinct and removes exactly that name. |
| SyncDatahub.Handle | project/dashboard/management/commands/syncdatahub.py:28-138 | The command's final feed table and error are those of the run specification `SyncDatahub.Sync`, whose properties the `Sync…` rows below and `SyncDatahub.IntendedKeepsSyncedFeeds` state. |
| SyncDatahub.HandleEntries | project/dashboard/management/commands/syncdatahub.py:44-123 | The entry loop ends in the state `SyncEntries` gives for the entries in order, stopping at the first entry that ends the command. |
| SyncDatahub.DeleteListed | project/dashboard/management/commands/syncdatahub.py:125-134 | The deletion loop deletes the names left in order and stops with an error at the first one no longer stored, as `DeleteRemaining` says. |
| SyncDatahub.SyncEntriesExtend | project/dashboard/management/commands/syncdatahub.py:44 | Handling one more entry is one more step of the loop. |
| SyncDatahub.SyncAfterAbort | project/dashboard/management/commands/syncdatahub.py:44-49 | After an entry ends the command, later entries change nothing. |
| SyncDatahub.ApplyInvariant | project/dashboard/management/commands/syncdatahub.py:116-123 | Applying an entry's outcome keeps the names still to cross off distinct and stored. A save stores exactly the saved feed and crosses off exactly the given name; a skip changes no name. |
| SyncDatahub.StepInvariant | project/dashboard/management/commands/syncdatahub.py:44-123 | One entry keeps that invariant and stores exactly the feed it saves. When crossing off by feed name, it crosses off exactly that name. |
| SyncDatahub.EntryLoopInvariant | project/dashboard/management/commands/syncdatahub.py:44-123 | The entry loop stores exactly the previously stored feeds plus the saved ones. When crossing off by feed name, the names left are exactly the listed names that were not saved. |
| SyncDatahub.DeleteRemainingSpec | project/dashboard/management/commands/syncdatahub.py:125-134 | Deleting names that are distinct and stored never fails and removes exactly those names. |
| SyncDatahub.DeleteRemainingEmpties | project/dashboard/management/commands/syncdatahub.py:126-134 | A deletion loop that does not fail works through every name. |
| SyncDatahub.DeleteNeverFails | project/dashboard/management/commands/syncdatahub.py:125-134 | After an entry loop that completes, deletion cannot fail and removes exactly the names not crossed off. |
| SyncDatahub.SavedFeedDeletedWhenOrganizationDiffers | project/dashboard/management/commands/syncdatahub.py:120-134 | As written, a listed, stored feed that is saved but whose issuing organization differs from its name is deleted at the end of the run. |
| SyncDatahub.SavedFeedKeptByName | project/dashboard/management/commands/syncdatahub.py:120-134 | Crossing off by feed name, a saved feed is kept. |
| SyncDatahub.SyncedFeedIsDeleted | project/dashboard/management/commands/syncdatahub.py:120-134 | Feed "ia" of "Iowa DOT", still listed and answering 200, is deleted by the command as written and kept when crossing off by feed name. |
| SyncDatahub.IntendedKeepsSyncedFeeds | project/dashboard/management/commands/syncdatahub.py:42-134 | Crossing off by feed name, a completed run leaves stored exactly the feeds it saved: every listed feed whose data could be fetched is kept, every other feed is deleted. |

## Left out

- JSON Schema validation (`Draft7Validator`, `iter_errors`), `best_match`, `str(error)` and the schema registry with web retrieval are parameters. The 3.0 schema file registered under the 2.0 URI is not modelled.
- ISO 8601 parsing and `datetime.now`: dates are integer seconds, and a parse error is a `None` from the `parseDate` parameter. The two `now` readings in `outdated` and `stale` are one value, and so are the `auto_now_add` readings behind every new record's `datetime_checked` and `status_since`: `CheckFeeds.Handle` stamps every record of a run with the one `now` it is given, where Django reads the clock once per record.
- `feed.feed_status()` (project/dashboard/management/commands/checkfeeds.py:105) calls what project/dashboard/models.py:104-105 declares as a property, so the call as written would apply the returned status (or `None`) as a function; the model takes the previous status of each feed as a value instead.
- The Django ORM: queries, `create`/`save`/`delete`, and `Feed.feed_status`'s subclass probing. The previous status of each feed is an input of `CheckFeeds.Handle`, and the feed table of `SyncDatahub.Handle` is a map from feed name to feed.
- The ORM mismatches of the command as written are not modelled: `create(end_date=...)` for the field `latest_end_date`, the `most_common_*` keywords of `SchemaErrorStatus`, and `feed.feed_data()` / `feed.response_code()` called as methods. The model records the values the command means to store.
- `SchemaErrorStatus.most_common_validation_error` is a database query; `Models.SchemaErrorDetails` takes the error types and the chosen one as inputs.
- `OutdatedErrorStatus.details` (`strftime('%x')`, locale-dependent) and the base and offline `details` texts beyond their constants.
- JSON objects are sequences of key-value pairs and may repeat a key, which a Python `dict` cannot: `Get` returns the first pair with the key where `json.loads` keeps the last. Payloads with repeated keys are not modelled faithfully.
- HTTP: the DataHub request, the feed data requests and JSON decoding of their bodies are inputs (`HubFetch`, the `fetch` function of `SyncEnv`). A body that is not JSON is not modelled.
- SyncDatahub.ProcessEntry: a `feedname` that is present but not a string is treated as missing, and `state`, `issuingorganization` and `version` values that are not strings become "". The fields the core never reads (`format`, dates, sandbox and Socrata flags, coordinates) are not copied.
- SyncDatahub.TextOf: a `url` value that is not a string is treated as no URL.
- SchemaCheck.Repr: Python's `repr` of a string with backslashes or non-printable characters (escaping) is not modelled, nor the escaped single quote of a key holding both quote characters (`'a\'b"c'` in Python, `'a'b"c'` here); keys are quoted as written.
- ArchiveTables.FormatBytes: `round(size, 2)` and the text formatting are floating point. The size is a `real`, and only the division loop and the unit choice are modelled.
- SchemaCheck.SortBy: stability of the sort is not proved. The result is proved to be an ordered permutation.
- Progress and warning messages written to standard output, and the status-summary percentages of the detail view and the e-mail command.
- The front-end JavaScript, migrations, admin, URL configuration, REST serializers and the archive zip handling.

## Findings

| source | as written | input that shows it | evidently intended | confidence | as-written member | corrected member |
|---|---|---|---|---|---|---|
| project/dashboard/management/commands/syncdatahub.py:120-123 | After saving a feed, the command removes the feed's `issuingorganization` from `feeds_prior`, a list of feed names. | A stored feed "ia" whose DataHub entry has `issuingorganization` "Iowa DOT" and a URL answering 200. It is saved, "ia" stays in `feeds_prior`, and the deletion loop deletes it. | Remove the feed's `feedname`, so that every feed still listed and fetched is kept. | not executed | SyncDatahub.SavedFeedDeletedWhenOrganizationDiffers | SyncDatahub.IntendedKeepsSyncedFeeds |
