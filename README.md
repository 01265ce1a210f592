# PenTrack core, modelled in Dafny

PenTrack is a fountain-pen collection tracker: pens with their nibs, inks and prices, an ink-bottle catalogue, a wishlist, per-pen ink history, maintenance log and writing samples, tags, a statistics page and a CSV export. This project models the parts of it that have behaviour of their own:

- the CSV export serialiser and its field escaping;
- tag normalisation and the tag editor;
- the tag and daily-carry filters of the collection grid;
- registration checks and the login gate;
- the pen form: record-to-form mapping, photo-identification merge, star and daily-carry toggles, save guard, payload and tag sync;
- the ink-history, maintenance-log and writing-samples panels;
- the aggregate queries of the stats page and the stats route;
- the pens, wishlist and tags routes;
- the home page listing and total;
- the pen and ink-bottle cards.

Each source file is one module:

- Pure code becomes functions and lemmas.
- Component state becomes a class whose fields are that state. Handlers become methods that update those fields.
- The two create routes insert into a `SqlTable.Table`, which holds its rows and the `AUTOINCREMENT` counter.

Shared vocabulary:

- `Common`: record datatypes; the `Value` cell of SQL rows and JSON bodies; JavaScript's `trim` and `toLowerCase`; `filter`.
- `Sorting`: `ORDER BY` as a sort, stated as sorted plus permutation.
- `StringOrder`: text ordered character by character, and a distinct sorted list.

SQL queries are restated over sequences of rows. Every `fetch`, the user's confirmation, the upload result and today's date are parameters of the methods that use them.

Things the model makes precise:

- **CSV export.** A field is quoted exactly when its text holds `,`, `"` or a line feed, with quotes doubled inside (section 2, items 6 and 7 of RFC 4180). Unlike that section, a carriage return alone triggers no quoting, and lines are joined by LF with no trailing line break. Splitting the document on line feeds outside quotes gives back the header and one row per pen, in brand-then-model order. Splitting a row on commas outside quotes gives 19 fields, each unescaping to its column's value.
- **Registration.** The presence check runs before the length check. The password is not trimmed, so eight spaces pass. The email is lower-cased and trimmed for both lookup and storage, so signing up again with the same address in another case, or with surrounding spaces, answers 409.
- **Login gate.** The gate is a plain prefix test, so `/pensive` and `/statsx` are gated too.
- **Maintenance log and writing samples.** A confirmed delete removes the entry from the list whatever the server answers. Only a rejected `fetch` (a network failure) stops the list update, because the awaited call then throws before the filter runs. The ink history, by contrast, removes an entry only on an ok response.
- **Aggregates.** The aggregates read whole tables, as the code does; only the tags route restricts to the caller's pens. The stats route's totals are shown not to depend on who owns a pen.
- **Home page.** Its total is a left fold over the newest-first list, and it equals the stats page's total over the same pens in any order.
- **Pen card.** The star row repeats `★` `5 - rating` times for the empty stars, so a rating above 5, which the create route does not reject, makes the render throw. Every rating the form can set (0 to 5) renders.

## Model

| member | source | states |
|---|---|---|
| `CsvExport.Escape` | src/app/api/export/route.ts:16-23 | null gives the empty field; a text holding `,`, `"` or LF starts and ends with a quote; any other text is emitted unchanged |
| `CsvExport.EscapeRoundTrip` | src/app/api/export/route.ts:16-23 | stripping the outer quotes of an escaped field and collapsing `""` gives back the value's text |
| `CsvExport.QuotesAreDoubled` | src/app/api/export/route.ts:20 | quoting doubles every `"`: the result holds exactly twice as many quotes |
| `CsvExport.DoubleQuotesOfPlain` | src/app/api/export/route.ts:20 | a text without `"` is left as it is by the doubling |
| `CsvExport.SeparatorIsQuoted` | src/app/api/export/route.ts:19-20 | a quote-free text with a comma or line feed is emitted wrapped in one pair of quotes |
| `CsvExport.BareCarriageReturnIsNotQuoted` | src/app/api/export/route.ts:19 | a CR alone does not trigger quoting |
| `CsvExport.LoneQuoteIsDoubled` | src/app/api/export/route.ts:20 | the one-quote text becomes four quotes |
| `CsvExport.NumbersAreNeverQuoted` | src/app/api/export/route.ts:18-22 | integers and prices are emitted as their decimal text, never quoted |
| `CsvExport.Ordered` | src/app/api/export/route.ts:7 | the export rows are the pens rearranged, sorted by brand and then model |
| `CsvExport.SplitJoin` | src/app/api/export/route.ts:29 | joining fields that hold no separator outside quotes and splitting on that separator outside quotes gives the fields back |
| `CsvExport.EscapedIsPiece` | src/app/api/export/route.ts:16-23 | an escaped field never holds a comma or line feed outside quotes |
| `CsvExport.HeaderFields` | src/app/api/export/route.ts:9-14 | the header line splits on commas into the 19 column names, in order |
| `CsvExport.RowFields` | src/app/api/export/route.ts:25-27 | every row splits on commas outside quotes into exactly 19 fields, field j unescaping to the pen's value for header j |
| `CsvExport.ExportLines` | src/app/api/export/route.ts:29 | splitting the document on line feeds outside quotes gives the header line followed by the rows of the ordered pens |
| `CsvExport.ExportReadsBack` | src/app/api/export/route.ts:25-29 | the document has one line more than there are pens: the header first, then pen i's row as line i + 1; there is no trailing newline |
| `CsvExport.Get` | src/app/api/export/route.ts:5-39 | a failing query gives 500 "Failed to export"; otherwise the CSV document of the pens |
| `TagInput.Normalize` | src/components/TagInput.tsx:14 | a normalised tag holds no white space and no upper-case letter, and is empty exactly when the input is all white space; its exact value is given by the lemmas below |
| `TagInput.WordsAreHyphenated` | src/components/TagInput.tsx:14 | two words separated by a run of white space become the lower-cased words joined by one `-` |
| `TagInput.NormalizeIdempotent` | src/components/TagInput.tsx:14 | normalising a normalised tag changes nothing |
| `TagInput.NormalizeSkipsSurroundingSpace` | src/components/TagInput.tsx:14 | white space around a text does not change its tag |
| `TagInput.NormalizeWord` | src/components/TagInput.tsx:14 | a text without white space is only lower-cased |
| `TagInput.NormalizeFirstWord` | src/components/TagInput.tsx:14 | a leading word and the run of white space after it become the lower-cased word and one `-`, followed by the tag of the rest |
| `TagInput.NormalizeWords` | src/components/TagInput.tsx:14 | any number of words, with runs of white space between and around them, become the lower-cased words joined by single `-` |
| `TagInput.WithTag` | src/components/TagInput.tsx:15-17 | a non-empty new tag is appended at the end; otherwise the list is unchanged; a duplicate-free list stays duplicate-free |
| `TagInput.WithoutTag` | src/components/TagInput.tsx:22 | every occurrence of the tag is dropped, the other tags are kept in order and as often as they occur |
| `TagInput.WithoutTagNoDuplicates` | src/components/TagInput.tsx:22 | removal keeps a duplicate-free list duplicate-free |
| `TagInput.DropLast` | src/components/TagInput.tsx:30 | exactly the last tag is removed |
| `TagInput.Editor.constructor` | src/components/TagInput.tsx:10-11 | the editor starts with an empty text box over the given tags |
| `TagInput.Editor.Type` | src/components/TagInput.tsx:51 | typing changes the text box only |
| `TagInput.Editor.AddTag` | src/components/TagInput.tsx:13-19 | the tags become `WithTag` of the normalised text, and the text box is cleared whether or not the tag was added |
| `TagInput.Editor.RemoveTag` | src/components/TagInput.tsx:21-23 | the tags become `WithoutTag`, the text box is kept |
| `TagInput.Editor.KeyDown` | src/components/TagInput.tsx:25-32 | Enter and comma add; Backspace on an empty text box with tags drops the last tag; every other case changes nothing |
| `TagInput.Editor.Blur` | src/components/TagInput.tsx:53 | leaving the text box adds the typed tag |
| `CollectionGrid.AllTags` | src/components/CollectionGrid.tsx:22 | every tag on some pen, once each, strictly ascending, and nothing else |
| `CollectionGrid.Filtered` | src/components/CollectionGrid.tsx:24-28 | an order-keeping subsequence of the pens holding exactly the pens that are daily carry (when that filter is on) and carry the active tag (when one is set), each as often as it occurs |
| `CollectionGrid.NoFilterShowsAll` | src/components/CollectionGrid.tsx:24-28 | with no active tag and the daily-carry filter off every pen is shown, in order |
| `CollectionGrid.EveryTagSelectsAPen` | src/components/CollectionGrid.tsx:22-26 | each listed tag, clicked with the daily-carry filter off, shows at least one pen |
| `CollectionGrid.Grid.constructor` | src/components/CollectionGrid.tsx:19-20 | the grid starts with no active tag and the daily-carry filter off |
| `CollectionGrid.Grid.TagClick` | src/components/CollectionGrid.tsx:30-32 | clicking the active tag clears it, clicking another tag makes it active; the daily-carry filter is kept |
| `CollectionGrid.Grid.ToggleDailyCarry` | src/components/CollectionGrid.tsx:99 | the daily-carry filter flips, the active tag is kept |
| `CollectionGrid.Grid.Clear` | src/components/CollectionGrid.tsx:124 | both filters are reset and every pen is visible again |
| `Register.NormalizeEmail` | src/app/api/auth/register/route.ts:17 | the stored email has no upper-case letter and no surrounding white space; its exact value is given by the three lemmas below |
| `Register.NormalizeEmailIsLowerTrim` | src/app/api/auth/register/route.ts:17 | lower-casing then trimming equals trimming then lower-casing |
| `Register.NormalizeEmailSlice` | src/app/api/auth/register/route.ts:17 | the stored email is the lower-cased slice of the address that follows its leading white space, and only white space follows that slice |
| `Register.NormalFormIffSpelled` | src/app/api/auth/register/route.ts:17-24 | an address normalises to a given stored email exactly when it is that email in any letter case with only white space around it |
| `Register.NormalizeEmailIdempotent` | src/app/api/auth/register/route.ts:17 | normalising a normalised email changes nothing |
| `Register.SameEmailUpToCaseAndSpace` | src/app/api/auth/register/route.ts:17 | an address differing only in letter case and surrounding white space normalises to the same email |
| `Register.Validate` | src/app/api/auth/register/route.ts:9-15 | 400 exactly when the name or email is missing or blank after trim, or the password is missing, empty or shorter than 8 |
| `Register.PresenceCheckedFirst` | src/app/api/auth/register/route.ts:9-11 | a missing field gives the required-fields message even when the password is also short |
| `Register.PasswordLengthBoundary` | src/app/api/auth/register/route.ts:9-15 | with a name and an email present, an empty password is a missing field, 1 to 7 characters are too short and 8 or more pass, whatever the characters |
| `Register.SpacesArePassword` | src/app/api/auth/register/route.ts:13-15 | eight spaces pass, because the password is not trimmed |
| `Register.Handle` | src/app/api/auth/register/route.ts:5-30 | the status is 200, 400, 409 or 500, and every reply except 200 leaves the users table as it was |
| `Register.TakenEmailConflicts` | src/app/api/auth/register/route.ts:17-20 | a valid body whose normalised email is taken gives 409 and no change |
| `Register.SuccessInsertsOneUser` | src/app/api/auth/register/route.ts:22-26 | success comes exactly when the body passes, the email is free and the hash is computed; it adds one user under the normalised email with the trimmed name and keeps every other user |
| `Register.SecondSignUpConflicts` | src/app/api/auth/register/route.ts:17-24 | after a success, a second valid sign-up with the same normalised email answers 409 |
| `Register.Database.Post` | src/app/api/auth/register/route.ts:5-30 | the reply and the new users table are those of `Handle`, and every stored user sits under its own email |
| `AuthConfig.StartsWithAny` | src/auth.config.ts:17-18 | true exactly when the path starts with one of the prefixes |
| `AuthConfig.Authorized` | src/auth.config.ts:15-21 | an app path is allowed iff the caller is logged in; every other path is allowed; a logged-in caller is allowed everywhere |
| `AuthConfig.PrefixGates` | src/auth.config.ts:17-19 | any path beginning with a gated prefix is gated |
| `AuthConfig.LookalikePathsAreGated` | src/auth.config.ts:17-18 | `/pensive` and `/statsx` are gated too |
| `AuthConfig.HomeAndSignInAreOpen` | src/auth.config.ts:7-20 | `/` and the sign-in page `/login` are allowed without login |
| `PenForm.PenToForm` | src/components/PenForm.tsx:32-41 | no pen gives the empty form; a null price becomes `""`; missing daily-carry, provenance and storage become 0, `""`, `""` |
| `PenForm.PenToFormKeepsValues` | src/components/PenForm.tsx:34-40 | every other field is the pen's own value, and a price becomes its decimal text |
| `PenForm.OrElse` | src/components/PenForm.tsx:95-102 | `a \|\| b` on text: `a` unless it is empty |
| `PenForm.MergeChangesOnlyIdentifiedFields` | src/components/PenForm.tsx:93-103 | each of the eight fields (image URL, brand, model, color, nib size, nib material, nib type, fill system) takes the returned value when it is non-empty and keeps its value otherwise; all other fields are untouched |
| `PenForm.MergeIdempotent` | src/components/PenForm.tsx:93-103 | merging the same result twice changes nothing more |
| `PenForm.EmptyResultKeepsForm` | src/components/PenForm.tsx:93-103 | a result with no values leaves the form as it was |
| `PenForm.IdentifyMessage` | src/components/PenForm.tsx:105-106 | the identified message when identified, otherwise the returned message or "Image saved."; never empty |
| `PenForm.ClickStar` | src/components/PenForm.tsx:335 | clicking the current star gives 0, any other star gives that star; the rating stays within 0..5 |
| `PenForm.ClickStarTwice` | src/components/PenForm.tsx:335 | clicking a star twice returns to that star if it was the rating, else to 0 |
| `PenForm.ToggleDailyCarry` | src/components/PenForm.tsx:324 | the flag becomes 1 exactly when it was 0, and is always 0 or 1 |
| `PenForm.ToggleTwice` | src/components/PenForm.tsx:324 | toggling a 0/1 flag twice restores it |
| `PenForm.ChosenImage` | src/components/PenForm.tsx:119-126 | without a pending file the form's image; with one, the uploaded URL if non-empty, else the form's image |
| `PenForm.MakePayload` | src/components/PenForm.tsx:127-131 | the form with the chosen image, and a null price exactly when the price text is empty |
| `PenForm.TagStore.Delete` | src/components/PenForm.tsx:146-150 | the stored tags lose every copy of the deleted tag and keep the others in order |
| `PenForm.TagStore.DeleteEach` | src/components/PenForm.tsx:141-151 | after deleting each listed tag in turn, exactly the stored tags not in the list remain |
| `PenForm.TagStore.Add` | src/components/PenForm.tsx:153-158 | a new tag is appended, an existing one changes nothing |
| `PenForm.TagStore.Sync` | src/components/PenForm.tsx:141-159 | on edit the stored tags become exactly the form's tags, without duplicates; on create the form's tags are added to the stored ones |
| `PenForm.Editor.constructor` | src/components/PenForm.tsx:58-70 | the form starts as `PenToForm` of the pen, with the given tags, no pending file and no message |
| `PenForm.Editor.StarClicked` | src/components/PenForm.tsx:335 | only the rating changes, to `ClickStar` of the old rating; tags, photo, message and busy flags are untouched |
| `PenForm.Editor.DailyCarryClicked` | src/components/PenForm.tsx:324 | only the daily-carry flag changes, toggled; tags, photo, message and busy flags are untouched |
| `PenForm.Editor.FileChosen` | src/components/PenForm.tsx:75-81 | a file becomes pending, its preview is shown and the message cleared; form, tags, message kind and busy flags are kept |
| `PenForm.Editor.Identify` | src/components/PenForm.tsx:83-113 | no pending file: nothing happens; a failure keeps the form and sets the fallback message; a result merges into the form and clears the pending file; tags, preview and the saving flag are never touched, and the identifying flag ends false |
| `PenForm.Editor.Save` | src/components/PenForm.tsx:115-168 | a blank brand is refused with nothing sent and no flag set; a failed upload or save leaves the stored tags alone; a saved pen sends the payload and gets its tags synced; form, tags, photo and message are untouched and the saving flag ends false |
| `InkHistory.CurrentOf` | src/components/InkHistory.tsx:33 | the first entry, or none for an empty history |
| `InkHistory.PastOf` | src/components/InkHistory.tsx:34 | one entry fewer than the history, none for an empty history |
| `InkHistory.CurrentThenPast` | src/components/InkHistory.tsx:33-34 | the current entry followed by the past ones is the whole history |
| `InkHistory.AddedEntryIsCurrent` | src/components/InkHistory.tsx:51 | a prepended entry is current whatever its date, and the old history becomes the past |
| `InkHistory.WithoutEntry` | src/components/InkHistory.tsx:67 | exactly the entries with other ids, in their order, each kept as often as it occurs |
| `InkHistory.FormatDate` | src/components/InkHistory.tsx:6-14 | the empty date and only it formats as the empty text |
| `InkHistory.Panel.constructor` | src/components/InkHistory.tsx:23-31 | the panel starts with the given history, a closed empty form dated today |
| `InkHistory.Panel.Add` | src/components/InkHistory.tsx:36-61 | a blank name sends nothing and changes nothing; the trimmed name is sent; success prepends the returned entry, clears the form and closes it; failure keeps the history and form |
| `InkHistory.Panel.Delete` | src/components/InkHistory.tsx:63-71 | the entry is removed only on an ok response; otherwise the history is kept; the form and saving flag are untouched |
| `MaintenanceLog.FreshForm` | src/components/MaintenanceLog.tsx:36 | empty type and notes, dated today |
| `MaintenanceLog.WithoutEntry` | src/components/MaintenanceLog.tsx:48 | exactly the entries with other ids, in their order, each kept as often as it occurs |
| `MaintenanceLog.Panel.constructor` | src/components/MaintenanceLog.tsx:16-19 | the log starts with the given entries and a fresh closed form |
| `MaintenanceLog.Panel.Add` | src/components/MaintenanceLog.tsx:24-43 | an empty date sends nothing; success prepends the returned entry, resets the form to today and closes it; failure keeps the entries |
| `MaintenanceLog.Panel.Delete` | src/components/MaintenanceLog.tsx:45-49 | a declined confirmation changes nothing; a confirmed delete removes the entry whatever the response, unless the request itself fails |
| `WritingSamples.SampleImage` | src/components/WritingSamples.tsx:33-40 | `""` with no pending file, otherwise the uploaded URL (itself `""` when none came back) |
| `WritingSamples.WithoutSample` | src/components/WritingSamples.tsx:64 | exactly the samples with other ids, in their order, each kept as often as it occurs |
| `WritingSamples.Panel.constructor` | src/components/WritingSamples.tsx:12-17 | the panel starts with the given samples, a blank closed form and no pending file |
| `WritingSamples.Panel.FileChosen` | src/components/WritingSamples.tsx:23-28 | a file becomes pending and its preview is shown; nothing else changes |
| `WritingSamples.Panel.Add` | src/components/WritingSamples.tsx:30-59 | nothing is required; success prepends the returned sample and resets form, file and preview; a failed upload or save keeps the samples, form, photo and the open add form |
| `WritingSamples.Panel.Delete` | src/components/WritingSamples.tsx:61-65 | a declined confirmation changes nothing; a confirmed delete removes the sample whatever the response, unless the request itself fails; form, photo and busy flags are untouched |
| `Stats.TotalValue` | src/app/stats/page.tsx:7 | the sum of the non-null prices: 0 when every price is null, never negative when no price is |
| `Stats.RatedCount` | src/app/stats/page.tsx:8 | 0 exactly when no pen is rated above 0 |
| `Stats.RatedSum` | src/app/stats/page.tsx:8 | at least the number of rated pens |
| `Stats.Mean` | src/app/stats/page.tsx:8 | 0 for no values; otherwise at least 1 and, times the count, the sum |
| `Stats.AvgRating` | src/app/stats/page.tsx:8 | 0 exactly when no pen is rated above 0 |
| `Stats.WishlistCount` | src/app/stats/page.tsx:10 | at most the number of items; 0 exactly when every item is acquired |
| `Stats.WishlistCountIsWanted` | src/app/stats/page.tsx:10 | the count is the number of items not yet acquired |
| `Stats.WishlistCountAppend` | src/app/stats/page.tsx:10 | adding an unacquired item adds one to the count, an acquired one adds nothing |
| `Stats.GroupsOf` | src/app/stats/page.tsx:13-14 | one group per distinct key with its exact row count |
| `Stats.AllGroups` | src/app/stats/page.tsx:17-20 | every non-empty key once with its row count, counts non-increasing, nothing else |
| `Stats.RankedGroups` | src/app/stats/page.tsx:12-25 | ranked keys are non-empty, distinct, with exact counts, counts non-increasing, and the limit is kept |
| `Stats.RankedIsTop` | src/app/stats/page.tsx:12-15 | a key left out was cut by a full limit and counts no more than any listed group |
| `Stats.EveryNibSizeListed` | src/app/stats/page.tsx:17-20 | without a limit every non-empty nib size is listed |
| `Stats.Activity` | src/app/stats/page.tsx:27-31 | a pen's row carries its id, brand and model; its change count is the number of ink-history entries of that pen, 0 exactly when it has none |
| `Stats.MostActivePens` | src/app/stats/page.tsx:27-32 | at most 5 rows, most changes first, each the row of some pen |
| `Stats.FewPensAllListed` | src/app/stats/page.tsx:30-31 | with at most 5 pens every pen is listed, those without history too |
| `Stats.MostActiveCount` | src/app/stats/page.tsx:27-32 | five rows, or one per pen when there are fewer than five pens |
| `Stats.MostActiveIsTop` | src/app/stats/page.tsx:27-32 | a pen left out was cut by a full list of five, and every listed pen has at least as many ink changes |
| `Stats.MostActiveDistinct` | src/app/stats/page.tsx:27-31 | when pen ids are distinct, no pen is listed twice |
| `Stats.ShownActivePens` | src/app/stats/page.tsx:136 | exactly the listed rows with an ink change, in order |
| `Stats.ActiveSectionShownIff` | src/app/stats/page.tsx:132 | the section shows exactly when some pen has ink history |
| `Stats.LowStockInks` | src/app/stats/page.tsx:34-36 | exactly the bottles at 25% or less, each as often as stored, least remaining first |
| `Stats.RedComeFirst` | src/app/stats/page.tsx:156 | the bottles shown red (10% or less) come first |
| `Stats.BarMax` | src/app/stats/page.tsx:38-40 | the first count, or 1 when there is none or it is 0; never 0 |
| `Stats.BarsFit` | src/app/stats/page.tsx:73 | every bar is wider than 0 and at most 100%, the first bar is full |
| `StatsRoute.Aggregate` | src/app/api/stats/route.ts:6-36 | the ten aggregates: counts of pens and bottles, and each other field equal to its stats-page query (total value, average rating, wishlist count, brand, nib-size and ink rankings, most active pens, low stock); average 0 iff nothing rated, lists within their limits, low stock exactly the bottles at 25% or less in ascending order |
| `StatsRoute.Get` | src/app/api/stats/route.ts:4-53 | a failing query gives 500 "Failed to fetch stats"; otherwise the ten fields |
| `StatsRoute.OwnerDoesNotMatter` | src/app/api/stats/route.ts:7-15 | reassigning pens to other owners changes neither total value, average nor brand ranking |
| `SqlTable.Merge` | src/app/api/pens/route.ts:33 | every key of defaults or body, the body's value winning |
| `SqlTable.Stored` | src/lib/db.ts:15-33 | the stored row holds the inserted columns' parameters as bound (no column-affinity conversion), the time stamps and the new id |
| `SqlTable.FindById` | src/app/api/pens/route.ts:34-36 | a stored row with that id, found exactly when one exists |
| `SqlTable.FindAppended` | src/app/api/pens/route.ts:33-36 | a row appended under a fresh id is the one the lookup returns |
| `SqlTable.Table.Run` | src/app/api/pens/route.ts:22-33 | an accepted insert appends the stored row under the next id; a missing parameter or a null in a NOT NULL column stores nothing |
| `SqlTable.Table.Get` | src/app/api/pens/route.ts:34-36 | a row is found exactly when a stored row has the asked-for id, and the row read back is a stored row with that id |
| `SqlTable.InsertAndFetch` | src/app/api/pens/route.ts:33-37 | the row read back under the new id is exactly the row just stored |
| `SqlTable.NewestFirst` | src/app/api/pens/route.ts:8 | the rows rearranged with `created_at` non-increasing |
| `PensRoute.List` | src/app/api/pens/route.ts:5-17 | every pen, newest first; a failing query gives 500 "Failed to fetch pens" |
| `PensRoute.Params` | src/app/api/pens/route.ts:33 | body keys win; `is_daily_carry` 0, `provenance` `""` and `storage_location` `""` fill in when absent; no other key is added |
| `PensRoute.AcceptedBodies` | src/app/api/pens/route.ts:22-33 | the insert runs exactly when the body names every column without a default and its brand is not null |
| `PensRoute.StoredRowKeepsBody` | src/app/api/pens/route.ts:22-37 | the stored row holds every posted column unchanged when each value already has its column's type, and the default of each omitted defaulted column |
| `PensRoute.Post` | src/app/api/pens/route.ts:19-44 | an accepted body is stored and returned with 201; anything else answers 500 "Failed to create pen" and stores nothing |
| `WishlistRoute.List` | src/app/api/wishlist/route.ts:5-14 | every item, newest first; a failing query gives 500 "Failed to fetch wishlist" |
| `WishlistRoute.Params` | src/app/api/wishlist/route.ts:22 | body keys win; `acquired` is 0 when absent; no other key is added |
| `WishlistRoute.AcceptedBodies` | src/app/api/wishlist/route.ts:19-22 | the insert runs exactly when the body names the six columns other than `acquired` |
| `WishlistRoute.StoredRowKeepsBody` | src/app/api/wishlist/route.ts:19-24 | the stored row holds every posted column unchanged when each value already has its column's type, and `acquired` 0 when omitted |
| `WishlistRoute.Post` | src/app/api/wishlist/route.ts:16-28 | an accepted body is stored and returned with 201; anything else answers 500 "Failed to create wishlist item" |
| `TagsRoute.UserId` | src/app/api/tags/route.ts:7 | no session, no user, no id and the empty id all count as no user |
| `TagsRoute.JoinedTags` | src/app/api/tags/route.ts:9-11 | exactly the tags attached to pens owned by the user |
| `TagsRoute.Get` | src/app/api/tags/route.ts:5-14 | 401 "Unauthorized" exactly when there is no user id; otherwise the owner's tags, strictly ascending and without duplicates |
| `TagsRoute.UnauthorizedReadsNothing` | src/app/api/tags/route.ts:6-7 | without a user id the reply does not depend on the tables |
| `TagsRoute.OtherOwnersInvisible` | src/app/api/tags/route.ts:9-11 | adding another owner's pen with tags leaves the caller's list unchanged |
| `HomePage.PriceSumIsTotal` | src/app/page.tsx:14-16 | the left fold from any start adds the stats total of the prices |
| `HomePage.PricedKeepTotal` | src/app/page.tsx:14-15 | filtering out the unpriced pens keeps the total |
| `HomePage.TotalOfPermutation` | src/app/page.tsx:10-16 | the total does not depend on the order of the pens |
| `HomePage.TotalValue` | src/app/page.tsx:14-16 | the page's fold equals the sum of the non-null prices |
| `HomePage.CountLabel` | src/app/page.tsx:28 | "pen" exactly for one pen, "pens" otherwise |
| `HomePage.Home` | src/app/page.tsx:9-70 | cards are the pens newest first; the total is the stats total, 0 with no price, shown iff above 0; the empty view shows iff there are no pens |
| `InkBottleCard.RemainingColor` | src/components/InkBottleCard.tsx:4-8 | emerald iff above 50, amber iff above 25 and at most 50, red iff at most 25 |
| `InkBottleCard.BandsAreMonotone` | src/components/InkBottleCard.tsx:4-8 | more ink never gets a lower band |
| `InkBottleCard.Card` | src/components/InkBottleCard.tsx:10-63 | links to `/inks/{id}`; swatch image iff a swatch URL, else placeholder; type badge iff a type; name and brand are the bottle's; bar width is the percentage; the bar's colour is `RemainingColor` of it, red iff at most 25; the description is shown iff non-empty and is the bottle's text |
| `PenCard.Repeat` | src/components/PenCard.tsx:50-51 | `n` stars, and a thrown error exactly for a negative count |
| `PenCard.StarRowOf` | src/components/PenCard.tsx:48-53 | no row iff the rating is at most 0; a throw iff it is above 5; otherwise rating filled and 5 − rating empty stars, 5 in all |
| `PenCard.FormRatingsRender` | src/components/PenCard.tsx:48-51 | every rating from 0 to 5 renders, with stars above 0 |
| `PenCard.BrandText` | src/components/PenCard.tsx:42 | never empty; the brand itself when it is non-empty |
| `PenCard.ModelText` | src/components/PenCard.tsx:45 | never empty; the model itself when it is non-empty |
| `PenCard.Card` | src/components/PenCard.tsx:5-57 | links to `/pens/{id}`; photo iff an image URL; nib badge iff a nib size; ink dot iff a current ink; brand and model text are `BrandText` and `ModelText`; the star row is `StarRowOf` the rating |

## Left out

- Dates, time and locale: `toLocaleDateString`, today's date and the current time are parameters. `formatDate` is modelled only for the empty date. The export file name is not modelled.
- Floating point: prices are integer cents. `parseFloat` of the price text is modelled as keeping the text. `toFixed` is not modelled. `AVG` is exact over the reals. CSS percentage strings become numbers.
- Unicode: `toLowerCase` folds only ASCII letters. The white space of `trim` and `\s` is the ASCII blanks, U+00A0 and U+FEFF; the other Unicode space characters are left out. JavaScript's UTF-16 code-unit order is taken as code-point order.
- Network, navigation and dialogs: `fetch`, `alert`, `confirm`, `router.push` and object URLs are outcomes passed in as parameters. A busy flag's value while a request is pending is not modelled.
- Partial failures inside the pen form's tag sync, where some tag requests fail and others succeed, are not modelled. The per-pen tags route is not part of this model.
- Extra keys of a spread: `penToForm` copies every column of the pen, and the save payload passes on extra form keys. Only the named fields are modelled.
- Registration: the body fields are taken as strings, or missing. Non-string JSON values are not modelled. The bcrypt hash and the UUID are parameters. A failing hash or insert is the 500 path.
- Register.Validate: the source's `password.length` counts UTF-16 code units, while the model counts characters as code points. A password of four characters outside the Basic Multilingual Plane (four emoji) is 8 units long and passes in the source, but is too short in the model.
- SQL NULL in the pen text columns (model, nib size, color, current ink and the others without NOT NULL): the `Pen` record types them as strings, so a NULL read back from the table is not modelled. The pens route does accept a null there, and the source would then render it as text ("Pilot null" in a card's alt text); this is not modelled. A NULL nib size would be dropped from the nib-size ranking by its `nib_size != ''` filter, as the empty size is in the model.
- The create routes: a JSON body that is not an object, and value types SQLite refuses to bind (booleans, objects), are not modelled. Columns the insert does not name, other than the id and the time stamps, are left out. The wishlist table's constraints are not part of this model, so none is assumed.
- SqlTable.Stored: SQLite's column affinity is not modelled; a stored cell is the bound value itself. In SQLite a number posted to a TEXT column (`"brand": 123`) is stored and read back as the text `"123"`, and numeric text posted to an INTEGER or REAL column (`"rating": "4"`) as the number. `PensRoute.StoredRowKeepsBody` and `WishlistRoute.StoredRowKeepsBody` therefore hold only for bodies whose values already have their column's type, as the app's own forms send them.
- PensRoute.StoredRowKeepsBody: stated only for values of their column's type; affinity conversion is not modelled (see `SqlTable.Stored` above).
- WishlistRoute.StoredRowKeepsBody: stated only for values of their column's type; affinity conversion is not modelled (see `SqlTable.Stored` above).
- The ink-history, maintenance and writing-samples server routes, pen update and delete, cascades and `current_ink` recomputation are not part of this model.
- The photo identification route, `auth.ts` and `db.ts` are not part of this model. `db.ts` serves only as a reference for the column defaults and the NOT NULL brand.
- Ties in `ORDER BY` and `sort` are unspecified in the source. The contracts therefore state sorted-and-permuted, with no tie order.
- `SqlTable.Table.Run`: the `AUTOINCREMENT` counter is modelled as the last handed-out id plus one. Ids reused after deletes and counter overflow are not modelled.
