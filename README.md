# RSA builder core, modelled in Dafny

This project models the core of the Responsive Search Ad (RSA) builder of
the sem-automations-center web application. The parts it models are:

- **The settings store.** It holds the campaign settings, six headline banks
  (benefit, offer, feature, trust, cta, utility) and the list of ad groups.
  Its reducers replace these pieces, and a helper dumps the ad groups as CSV.
- **The RSA table builder.** It turns the store into one row per ad. Each row
  has 15 headline slots filled from the banks and the group's custom
  headlines. A headline template may hold several phrasings separated by
  `;`, and ad number `n` uses phrasing `n mod k`.
- **The CSV export** built from that table.
- **The two preview tables.** The RSA preview resolves templates with a
  different rule and shows the custom headlines raw. The older preview
  ignores custom headlines.
- **The headline-bank editor and the ad-group editor.** These are the form
  handlers that edit the store: the length budget, the clean-up on save,
  adding, removing and editing headlines, and creating groups.

Module by module:

- `Seqs` and `Text` hold the JavaScript array and string operations the code
  relies on: `map`, `filter`, `flat`, `trim`, `split`, `join`, `slice`, the
  decimal `toString` and counting a character.
- `RsaStore` (store.dfy) holds the types and the `Store` class. Each reducer
  is a method that reassigns one field.
- `RsaTable` (rsa_table.dfy) is the pure table builder.
- `CsvExport` is the export button.
- `RsaPreview` and `LegacyPreview` are the two previews.
- `HeadlineBanks` and `AdGroupsForm` are the editors. Each editor is a class
  whose fields are the component's local state, and it holds a reference to
  the shared `Store`.

Generated ids (`uuidv4`) are parameters: an `id` string, or a function
`newId` from position to id.

## Model

| member | source | states |
|---|---|---|
| `Seqs.Map` | src/utils/build-rsa-table.ts:36-43 | `xs.map(f)` has the input's length and holds `f` of the element at every index |
| `Seqs.Filter` | src/utils/build-rsa-table.ts:40 | `filter` never lengthens its input |
| `Seqs.FilterMembers` | src/utils/build-rsa-table.ts:40 | an element survives the filter if and only if it was in the input and passes the predicate |
| `Seqs.FilterAppend` | src/utils/build-rsa-table.ts:40 | filtering a concatenation is concatenating the filtered halves, so surviving elements keep their relative order |
| `Seqs.FilterKeepsAll` | src/utils/build-rsa-table.ts:40 | a filter every element passes returns the input unchanged |
| `Seqs.FilterIdempotent` | src/components/rsa/HeadlineBanks.tsx:17 | filtering twice by the same predicate equals filtering once |
| `Seqs.FlattenSix` | src/utils/build-rsa-table.ts:35 | `flat` over the six banks is the six banks concatenated in order |
| `Text.TrimStart` | src/utils/build-rsa-table.ts:39 | removes exactly the leading run of ECMAScript whitespace: the result is a suffix of the input, starts with a non-space character, and only whitespace was removed |
| `Text.TrimEnd` | src/utils/build-rsa-table.ts:39 | removes exactly the trailing run of whitespace: the result is a prefix of the input, ends with a non-space character, and only whitespace was removed |
| `Text.Trim` | src/utils/build-rsa-table.ts:39 | `trim` yields a string with no whitespace at either end, and it is empty exactly when the input is all whitespace |
| `Text.TrimExcludes` | src/utils/build-rsa-table.ts:39 | trimming introduces no character absent from the input |
| `Text.TrimOfTrimmed` | src/components/rsa/AdGroups.tsx:63-65 | a string already trimmed is its own trim |
| `Text.TrimIdempotent` | src/components/rsa/AdGroups.tsx:63-65 | trimming twice is trimming once |
| `Text.Count` | src/components/rsa/HeadlineBanks.tsx:23 | `(text.match(/;/g) \|\| []).length` is at most the length and is 0 exactly when the character is absent |
| `Text.CountAppend` | src/components/rsa/HeadlineBanks.tsx:23 | occurrence counts add over concatenation |
| `Text.Split` | src/utils/build-rsa-table.ts:38 | `split(";")` yields one more piece than there are separators, and no piece contains the separator |
| `Text.Join` | src/components/rsa/ExportControls.tsx:29 | `parts.join(sep)`: the parts with one separator between neighbours, "" for no parts; pinned down by `JoinSplit`, `SplitJoin`, `JoinLength` and `JoinExcludes` |
| `Text.JoinSplit` | src/utils/build-rsa-table.ts:38 | joining the pieces of a split with the same separator rebuilds the original string (split loses nothing) |
| `Text.SplitNoSep` | src/utils/build-rsa-table.ts:38 | a string without the separator splits into itself alone |
| `Text.SplitAtSep` | src/utils/build-rsa-table.ts:38 | splitting at the first separator peels off the first piece |
| `Text.SplitJoin` | src/components/rsa/ExportControls.tsx:29 | splitting a join of separator-free parts gives back exactly those parts (the other direction of the round trip) |
| `Text.JoinExcludes` | src/components/rsa/ExportControls.tsx:29 | joining adds no character other than the separator |
| `Text.SplitJoinLength` | src/components/rsa/ExportControls.tsx:29 | splitting a join yields one piece per part plus one per separator hidden inside the parts |
| `Text.JoinLength` | src/components/rsa/HeadlineBanks.tsx:22-25 | a join is as long as its parts plus one separator between each pair |
| `Text.TotalLengthBound` | src/components/rsa/HeadlineBanks.tsx:22-25 | parts of at most `m` characters total at most `m` times their number |
| `Text.DigitChar` | src/store/store.ts:97 | a decimal digit renders as a character between '0' and '9' |
| `Text.DigitValue` | src/store/store.ts:97 | reading a digit character back gives the digit that renders as it |
| `Text.NatToString` | src/store/store.ts:97 | `adsCount.toString()` is a non-empty string of decimal digits, with a leading '0' only for zero |
| `Text.DecimalRoundTrip` | src/store/store.ts:97 | parsing the rendering of `n` gives back `n` |
| `Text.NatToStringInjective` | src/components/rsa/PreviewTable.tsx:34 | distinct numbers have distinct renderings |
| `Text.Truncate` | src/components/rsa/AdGroups.tsx:52 | `slice(0, n)` leaves a string of at most `n` characters unchanged and cuts a longer one to exactly its first `n` characters |
| `RsaStore.OrEmpty` | src/utils/build-rsa-table.ts:96-97 | `x \|\| ""` on an optional string is the string when present and "" when absent |
| `RsaStore.Banks.With` | src/store/store.ts:81 | `{ ...banks, [c]: items }` replaces bank `c` and keeps the other five |
| `RsaStore.Banks.Values` | src/utils/build-rsa-table.ts:35 | `Object.values(banks)` lists the six banks in the record's key order |
| `RsaStore.AdGroupConfig.Patched` | src/store/store.ts:85 | `{ ...g, ...patch }`: each field the patch sets replaces the group's, the others are kept; see `UpdateById` and `UpdateEmptyPatch` |
| `RsaStore.UpdateById` | src/store/store.ts:83-86 | groups with another id are untouched; every group with the id becomes `{ ...g, ...patch }`; the length is unchanged |
| `RsaStore.UpdateAbsentId` | src/store/store.ts:83-86 | an update for an id no group has changes nothing |
| `RsaStore.UpdateEmptyPatch` | src/store/store.ts:83-86 | an empty patch changes nothing |
| `RsaStore.RemoveById` | src/store/store.ts:87 | a group survives if and only if it was present and its id differs from the removed id |
| `RsaStore.RemoveKeepsOrder` | src/store/store.ts:87 | removal distributes over concatenation, so the surviving groups keep their order |
| `RsaStore.RemoveAbsentId` | src/store/store.ts:87 | removing an id no group has changes nothing |
| `RsaStore.RemoveIdempotent` | src/store/store.ts:87 | removing twice is removing once |
| `RsaStore.RemoveSingle` | src/store/store.ts:87 | a single group is dropped exactly when its id matches |
| `RsaStore.GroupsCsv` | src/store/store.ts:88-101 | the header row and one row per group, cells joined by `,` and rows by newlines; see `GroupsCsvLines`, `GroupCsvLineFree` and `GroupCsvLineFields` |
| `RsaStore.GroupsCsvLines` | src/store/store.ts:88-101 | when no cell holds a newline, the dump splits back into the header line followed by one line per group, one line more than there are groups |
| `RsaStore.GroupCsvLineFree` | src/store/store.ts:92-98 | a group line has no newline when its cells have none (the count renders as digits) |
| `RsaStore.GroupCsvLineFields` | src/store/store.ts:92-100 | when no cell holds a comma, a group line splits back into its five cells: name, URL, paths with "" for absent, and the count |
| `RsaStore.DecimalHasNoPunctuation` | src/store/store.ts:97 | the rendered ads count holds neither a comma nor a newline |
| `RsaStore.Store.constructor` | src/store/store.ts:61-79 | the initial state: an all-empty campaign, six empty banks and no groups |
| `RsaStore.Store.SetCampaign` | src/store/store.ts:80 | replaces the campaign and leaves the banks and groups alone |
| `RsaStore.Store.SetBank` | src/store/store.ts:81 | replaces bank `c` with the items, keeps the other five banks, and leaves the campaign and groups alone |
| `RsaStore.Store.AddAdGroup` | src/store/store.ts:82 | appends the group after the old list, which stays as a prefix |
| `RsaStore.Store.UpdateAdGroup` | src/store/store.ts:83-86 | the new groups are `UpdateById` of the old ones; nothing else changes |
| `RsaStore.Store.RemoveAdGroup` | src/store/store.ts:87 | the new groups are `RemoveById` of the old ones; nothing else changes |
| `RsaStore.Store.ExportData` | src/store/store.ts:88-101 | when no cell holds a newline, `exportData` splits into the fixed header line and one line per current group, in order |
| `RsaTable.Mod` | src/utils/build-rsa-table.ts:42 | the repeated-subtraction remainder equals `i % k` for a positive `k`, and so is below `k` |
| `RsaTable.Phrasings` | src/utils/build-rsa-table.ts:39-40 | trim-then-filter keeps at most one phrasing per piece |
| `RsaTable.PhrasingsTrimmed` | src/utils/build-rsa-table.ts:39-40 | every surviving phrasing is non-empty and trimmed |
| `RsaTable.PhrasingsExclude` | src/utils/build-rsa-table.ts:39-40 | a character no piece contains is in no phrasing |
| `RsaTable.Variants` | src/utils/build-rsa-table.ts:37-40 | `split(";").map(trim).filter(Boolean)`: the phrasings of a template; see `VariantsShape`, `PhrasingsTrimThenFilter` and `PhrasingsEmpty` |
| `RsaTable.VariantsShape` | src/utils/build-rsa-table.ts:37-40 | a template has at most one phrasing more than separators, and each phrasing is non-empty, trimmed and free of `;` |
| `RsaTable.PhrasingsTrimThenFilter` | src/utils/build-rsa-table.ts:39-40 | the fused definition equals the source's two passes, `map(trim)` then `filter(Boolean)` |
| `RsaTable.PhrasingsKeepAll` | src/utils/build-rsa-table.ts:39-40 | with no blank piece, every piece survives as its trim |
| `RsaTable.PhrasingsEmpty` | src/utils/build-rsa-table.ts:39-40 | no phrasing survives if and only if every piece is blank |
| `RsaTable.Resolve` | src/utils/build-rsa-table.ts:37-42 | phrasing `adIndex % k` of the `k` phrasings, "" when `k = 0`; see `ResolveShape`, `ResolvePeriodic`, `Mod` and `ResolveEmptyIffBlank` |
| `RsaTable.ResolveShape` | src/utils/build-rsa-table.ts:42 | the resolved headline is "" exactly when the template has no phrasing; otherwise it is one of the phrasings; it is always trimmed and free of `;` |
| `RsaTable.ResolvePeriodic` | src/utils/build-rsa-table.ts:42 | ads rotate through the phrasings with period equal to their number |
| `RsaTable.ResolveWithoutSeparator` | src/utils/build-rsa-table.ts:20 | a template with no `;` is shared, trimmed, by every ad |
| `RsaTable.ResolveEmptyIffBlank` | src/utils/build-rsa-table.ts:42 | a template resolves to "" if and only if all its segments are blank |
| `RsaTable.ResolveBlankSegments` | src/utils/build-rsa-table.ts:37-42 | two blank segments resolve to "" |
| `RsaTable.HeadlineSlot` | src/utils/build-rsa-table.ts:66-72 | slot `i`: the bank cycled ("" for an empty bank) before the last `C` slots, the customs cycled from there; see `FillHeadlinesFewCustom`, `FillHeadlinesManyCustom` and `FillHeadlinesSources` |
| `RsaTable.FillHeadlines` | src/utils/build-rsa-table.ts:65-73 | there are always exactly `MAX_HEADLINES` (15) slots, each filled by the slot rule |
| `RsaTable.FillHeadlinesFewCustom` | src/utils/build-rsa-table.ts:65-73 | with at most 15 custom headlines, the customs fill the last slots in order; the leading slots cycle through the bank, starting with the bank's own order; every custom headline appears |
| `RsaTable.FillHeadlinesManyCustom` | src/utils/build-rsa-table.ts:65-73 | with more than 15 custom headlines no bank headline appears, and the slots are the last 15 custom headlines |
| `RsaTable.FillHeadlinesNothing` | src/utils/build-rsa-table.ts:65-73 | with neither bank nor custom headlines every slot is "" |
| `RsaTable.FillHeadlinesSources` | src/utils/build-rsa-table.ts:65-73 | every slot holds a bank headline, a custom headline or "" |
| `RsaTable.FlatBankItems` | src/utils/build-rsa-table.ts:35 | the bank items in category order: benefit, offer, feature, trust, cta, utility |
| `RsaTable.BankHeadlines` | src/utils/build-rsa-table.ts:35-44 | one resolved headline per bank item, in category and item order |
| `RsaTable.CustomHeadlines` | src/utils/build-rsa-table.ts:51-57 | one resolved headline per custom template, in list order |
| `RsaTable.Descriptions` | src/utils/build-rsa-table.ts:79-84 | at most four descriptions, none of them empty |
| `RsaTable.DescriptionsInOrder` | src/utils/build-rsa-table.ts:79-84 | the descriptions are exactly the non-empty fields in field order, without padding |
| `RsaTable.DescriptionsLeadingTwo` | src/utils/build-rsa-table.ts:79-84 | two set descriptions followed by two empty ones give exactly those two |
| `RsaTable.FinalUrl` | src/utils/build-rsa-table.ts:90 | the URL is the base domain, one `/`, then the group's URL, with no normalisation |
| `RsaTable.BuildRow` | src/utils/build-rsa-table.ts:29-100 | the export row of ad `adIndex` of a group; see `BuildRowFields`, `BuildRowHeadlinesFewCustom`, `BuildRowHeadlinesManyCustom` and `BuildRowNoHeadlines` |
| `RsaTable.BuildRowFields` | src/utils/build-rsa-table.ts:92-100 | a row carries the campaign name, the group name, the joined URL, each path as stored or "" when absent, 15 headlines and the campaign descriptions |
| `RsaTable.BuildRowHeadlinesFewCustom` | src/utils/build-rsa-table.ts:46-73 | with at most 15 custom templates, the resolved customs take the last slots and the leading slots cycle the resolved bank |
| `RsaTable.SlotsFewCustom` | src/utils/build-rsa-table.ts:65-73 | the few-customs placement stated for a given slot array |
| `RsaTable.BuildRowHeadlinesManyCustom` | src/utils/build-rsa-table.ts:46-73 | with more than 15 custom templates, the row shows only the last 15 resolved customs |
| `RsaTable.SlotsManyCustom` | src/utils/build-rsa-table.ts:65-73 | the many-customs placement stated for a given slot array |
| `RsaTable.BuildRowNoHeadlines` | src/utils/build-rsa-table.ts:65-73 | empty banks and no custom headlines give 15 empty headlines |
| `RsaTable.Rows` | src/utils/build-rsa-table.ts:27-29 | `groups.flatMap(g => Array.from({ length: g.adsCount }, ...))`: one row per (group, ad), groups in order; see `RowsLength`, `RowsAt`, `RowsOrigin` and `RowsAppend` |
| `RsaTable.AdRows` | src/utils/build-rsa-table.ts:29 | a group yields `adsCount` rows, and row `a` is the row of ad `a` |
| `RsaTable.RowsLength` | src/utils/build-rsa-table.ts:27-29 | `flatMap` over the groups yields one row per ad in total |
| `RsaTable.RowsAt` | src/utils/build-rsa-table.ts:27-29 | ad `a` of group `g` sits after all the ads of the earlier groups |
| `RsaTable.RowsOrigin` | src/utils/build-rsa-table.ts:27-29 | every row is some ad of some group, at that position (converse of `RowsAt`) |
| `RsaTable.RowsAppend` | src/utils/build-rsa-table.ts:27-29 | appending a group appends exactly its rows |
| `RsaTable.BuildRsaTable` | src/utils/build-rsa-table.ts:24-102 | `buildRSATable`: `BuildRow` for every (group, ad); see `TableLength`, `TableRowAt`, `TableRowsUniform` and `TableAppendGroup` |
| `RsaTable.TableLength` | src/utils/build-rsa-table.ts:24-29 | `buildRSATable` has one row per ad, and none without groups |
| `RsaTable.TableRowAt` | src/utils/build-rsa-table.ts:24-102 | the row of ad `a` of group `g` is that ad's row, at its position |
| `RsaTable.TableRowsUniform` | src/utils/build-rsa-table.ts:65-93 | every row has 15 headlines, the campaign's name and the same campaign-wide descriptions |
| `RsaTable.TableAppendGroup` | src/utils/build-rsa-table.ts:27-29 | adding a group adds its rows at the end, and a group with `adsCount` 0 adds none |
| `RsaTable.ResolveTwoSegments` | src/utils/build-rsa-table.ts:17-19 | two visible segments alternate, trimmed, between even and odd ads |
| `RsaTable.VariantsTwoSegments` | src/utils/build-rsa-table.ts:37-40 | two visible segments give exactly their two trims as phrasings |
| `RsaTable.ResolveTwoPhrasings` | src/utils/build-rsa-table.ts:17-19 | two trimmed phrasings joined by `;` alternate as written |
| `RsaTable.ResolveAlternates` | src/utils/build-rsa-table.ts:17-19 | "A;B" gives "A", "B", "A" to ads 0, 1 and 2 |
| `RsaTable.TrimLeadingSpace` | src/utils/build-rsa-table.ts:39 | a single leading space is trimmed away |
| `RsaTable.ResolveTwoPhrasingsSpaced` | src/utils/build-rsa-table.ts:17-19 | "first; second" alternates between the two phrasings without the space |
| `RsaTable.ResolveLowBest` | src/utils/build-rsa-table.ts:17-19 | the documented example: "Low Price; Best Price" gives "Low Price" to ad 1 and "Best Price" to ad 2 |
| `RsaTable.TwoAdsAlternate` | src/utils/build-rsa-table.ts:16-22 | a group with two ads and one custom template "first; second" exports two rows whose last headlines alternate, with the same two descriptions |
| `RsaTable.SingleGroupTable` | src/utils/build-rsa-table.ts:27-29 | the table of one group is that group's ads in order |
| `RsaTable.ExampleAd` | src/utils/build-rsa-table.ts:51-100 | one ad of that example: its last headline, descriptions and URL |
| `RsaTable.LastSlotAlternates` | src/utils/build-rsa-table.ts:65-73 | with empty banks, the single custom template fills slot 15 with the phrasing for the ad's parity |
| `RsaTable.WorkedExample` | src/utils/build-rsa-table.ts:16-22 | the concrete case: two ads, "Low Price; Best Price", descriptions D1 and D2 |
| `RsaPreview.PreviewResolve` | src/components/rsa/PreviewTable.tsx:17-18 | piece `adIndex % k` of the trimmed split pieces, blank ones kept; see `PreviewResolvePicksPiece`, `PreviewResolveAgrees` and `TrailingSeparatorDiverges` |
| `RsaPreview.PreviewVariants` | src/components/rsa/PreviewTable.tsx:17 | the preview keeps every split piece, trimmed, blank ones included |
| `RsaPreview.PreviewResolvePicksPiece` | src/components/rsa/PreviewTable.tsx:17-18 | the preview shows the trim of the piece at position `adIndex mod (pieces)` |
| `RsaPreview.PreviewResolveAgrees` | src/components/rsa/PreviewTable.tsx:17-18 | when no piece is blank, the preview and the export pick the same phrasing |
| `RsaPreview.TrailingSeparatorDiverges` | src/components/rsa/PreviewTable.tsx:17-18 | with a trailing `;`, the preview shows "" at odd ads while the export always shows the phrasing |
| `RsaPreview.BlankSecondSegment` | src/components/rsa/PreviewTable.tsx:17-18 | a blank second segment is "" in the preview at odd ads but skipped by the export |
| `RsaPreview.PreviewKeepsBlankSecond` | src/components/rsa/PreviewTable.tsx:17 | the preview keeps a blank second piece as "" |
| `RsaPreview.ExportSkipsBlankSecond` | src/utils/build-rsa-table.ts:37-40 | the export drops a blank second piece |
| `RsaPreview.ResolveSinglePhrasing` | src/utils/build-rsa-table.ts:42 | a single phrasing is shown at every ad |
| `RsaPreview.PreviewBankHeadlines` | src/components/rsa/PreviewTable.tsx:15-20 | one preview-resolved headline per bank item, in order |
| `RsaPreview.PreviewHeadlines` | src/components/rsa/PreviewTable.tsx:25 | `[...custom, ...bank].slice(0, 15)`; see `PreviewHeadlinesShape` and `PreviewCustomHeadlinesRaw` |
| `RsaPreview.PreviewHeadlinesShape` | src/components/rsa/PreviewTable.tsx:22-25 | at most 15 headlines, the customs first and as typed, the bank after them |
| `RsaPreview.PreviewDescriptions` | src/components/rsa/PreviewTable.tsx:27 | an absent list gives none; a list gives at most its first four |
| `RsaPreview.AdLabel` | src/components/rsa/PreviewTable.tsx:34 | `` `${group.name} - Ad ${adIndex + 1}` ``; see `AdLabelInjective` |
| `RsaPreview.AdLabelInjective` | src/components/rsa/PreviewTable.tsx:34 | distinct ads of a group get distinct "name - Ad n" labels |
| `RsaPreview.PreviewRow` | src/components/rsa/PreviewTable.tsx:14-40 | the preview row of one ad; see `PreviewRowFields`, `PreviewCustomHeadlinesRaw` and `PreviewDropsDescriptions` |
| `RsaPreview.PreviewRowFields` | src/components/rsa/PreviewTable.tsx:32-40 | the preview row's campaign is `campaign.name`, its group is the ad label, its URL joins the domain, and its descriptions are empty |
| `RsaPreview.PreviewCustomHeadlinesRaw` | src/components/rsa/PreviewTable.tsx:22-25 | custom headlines lead the preview unresolved, semicolons included |
| `RsaPreview.PreviewDropsDescriptions` | src/components/rsa/PreviewTable.tsx:27 | a campaign description appears in the export but never in the preview |
| `RsaPreview.GeneratePreview` | src/components/rsa/PreviewTable.tsx:12-45 | `generatePreview`: `PreviewRow` for every (group, ad); see `PreviewLength` and `PreviewRowAt` |
| `RsaPreview.PreviewLength` | src/components/rsa/PreviewTable.tsx:12-45 | the preview lists as many ads as the export |
| `RsaPreview.PreviewRowAt` | src/components/rsa/PreviewTable.tsx:12-45 | each ad sits at the same position in the preview as in the export |
| `LegacyPreview.LegacyHeadlines` | src/components/PreviewTable.tsx:13-21 | the preview-resolved bank headlines cut to 15; see `LegacyHeadlinesShape` and `LegacyMatchesPreviewWithoutCustom` |
| `LegacyPreview.LegacyHeadlinesShape` | src/components/PreviewTable.tsx:13-21 | the older preview shows the first at most 15 resolved bank headlines, in order |
| `LegacyPreview.LegacyIgnoresCustomHeadlines` | src/components/PreviewTable.tsx:12-33 | a group's custom headlines do not change its rows |
| `LegacyPreview.LegacyRow` | src/components/PreviewTable.tsx:12-33 | the older preview's row of one ad; see `LegacyRowFields` and `LegacyIgnoresCustomHeadlines` |
| `LegacyPreview.LegacyRowFields` | src/components/PreviewTable.tsx:25-33 | the URL is the group's own, without the domain; the other fixed fields match the RSA preview |
| `LegacyPreview.LegacyMatchesPreviewWithoutCustom` | src/components/PreviewTable.tsx:13-21 | without custom headlines, both previews show the same headlines |
| `LegacyPreview.GenerateLegacyPreview` | src/components/PreviewTable.tsx:10-38 | the older `generatePreview`: `LegacyRow` for every (group, ad); see `LegacyLength` and `LegacyRowAt` |
| `LegacyPreview.LegacyLength` | src/components/PreviewTable.tsx:10-38 | the older preview lists one row per ad |
| `LegacyPreview.LegacyRowAt` | src/components/PreviewTable.tsx:10-38 | each ad sits at the same position as in the export |
| `CsvExport.Record` | src/components/rsa/ExportControls.tsx:19-27 | the record of one row: five fixed cells, then `Headline i` and `Description i` cells; see `RecordKeys`, `RecordValues` and `HeaderKeysDistinct` |
| `CsvExport.RecordKeys` | src/components/rsa/ExportControls.tsx:19-27 | a record's keys are the five fixed columns, `Headline 1..n` and `Description 1..m` |
| `CsvExport.RecordValues` | src/components/rsa/ExportControls.tsx:19-27 | a record's values are the row's cells in column order |
| `CsvExport.DistinctAppend` | src/components/rsa/ExportControls.tsx:25-26 | two disjoint key lists without repeats concatenate without repeats |
| `CsvExport.NumberedKeysDistinct` | src/components/rsa/ExportControls.tsx:25-26 | the numbered keys never repeat, so no spread overwrites a column |
| `CsvExport.NumberedKeysStart` | src/components/rsa/ExportControls.tsx:25-26 | every numbered key starts with its prefix's first letter |
| `CsvExport.HeaderKeysDistinct` | src/components/rsa/ExportControls.tsx:19-27 | all the column names of a record are distinct, and there are 5 + headlines + descriptions of them |
| `CsvExport.HandleExport` | src/components/rsa/ExportControls.tsx:13-29 | `handleExport`: the alert, the `rows[0]` crash or the CSV text; see `ExportOutcomes`, `ExportLines` and `ExportLineCells` |
| `CsvExport.ExportOutcomes` | src/components/rsa/ExportControls.tsx:13-29 | the export alerts exactly when there is no group, finds no first row exactly when the groups have no ads, and produces CSV exactly when some ad exists |
| `CsvExport.LineFree` | src/components/rsa/ExportControls.tsx:29 | a record line holds no character its cells lack, other than the comma |
| `CsvExport.HeaderKeysFree` | src/components/rsa/ExportControls.tsx:20-26 | no column name contains a comma or a newline |
| `CsvExport.FixedKeysFree` | src/components/rsa/ExportControls.tsx:20-24 | the five fixed column names contain no comma or newline |
| `CsvExport.NumberedKeysFree` | src/components/rsa/ExportControls.tsx:25-26 | numbered column names add no comma or newline to their prefix |
| `CsvExport.Records` | src/components/rsa/ExportControls.tsx:19-27 | one record per table row |
| `CsvExport.CsvLines` | src/components/rsa/ExportControls.tsx:29 | the first record's keys joined by `,`, then each record's values joined by `,`; see `CsvLinesSplit`, `ExportLines` and `ExportLineWidth` |
| `CsvExport.CsvLinesSplit` | src/components/rsa/ExportControls.tsx:29 | when no cell holds a newline, the file splits back into its header and record lines |
| `CsvExport.ExportLines` | src/components/rsa/ExportControls.tsx:13-29 | with at least one ad and newline-free cells, the export is CSV with one line per ad plus the header, and the header names the first row's columns |
| `CsvExport.ExportLineWidth` | src/components/rsa/ExportControls.tsx:29 | a data line splits into as many fields as the header has columns, plus one per comma inside a cell |
| `CsvExport.ExportLineCells` | src/components/rsa/ExportControls.tsx:29 | with no comma in its cells, a data line splits back into exactly its cells |
| `HeadlineBanks.MaxLength` | src/components/rsa/HeadlineBanks.tsx:22-25 | the budget is never below 30 characters |
| `HeadlineBanks.MaxLengthFitsPhrasings` | src/components/rsa/HeadlineBanks.tsx:22-25 | `30 + 31 * (semicolons)` is enough for any text whose every `;`-separated piece, untrimmed, has at most 30 characters |
| `HeadlineBanks.Limit` | src/components/rsa/HeadlineBanks.tsx:48 | `headline.maxLength \|\| calculateMaxLength(text)`; see `OverLimitWithoutStoredLimit` and `OverLimitWithStoredLimit` |
| `HeadlineBanks.IsOverLimit` | src/components/rsa/HeadlineBanks.tsx:47-49 | the text is longer than its limit; see `OverLimitWithoutStoredLimit`, `OverLimitWithStoredLimit` and `EditedWithinLimit` |
| `HeadlineBanks.OverLimitWithoutStoredLimit` | src/components/rsa/HeadlineBanks.tsx:47-49 | without a stored limit, or with a stored 0, a headline is over if and only if it exceeds its computed budget |
| `HeadlineBanks.OverLimitWithStoredLimit` | src/components/rsa/HeadlineBanks.tsx:47-49 | with a stored non-zero limit, a headline is over if and only if it exceeds that limit |
| `HeadlineBanks.Edited` | src/components/rsa/HeadlineBanks.tsx:33-41 | the stored limit is the budget computed from the untruncated value; a value within it is kept whole and a longer one is cut to exactly its first budget characters; every other field (id, category, variants, pinned, notes) is kept |
| `HeadlineBanks.EditHeadlineText` | src/components/rsa/HeadlineBanks.tsx:32-43 | only the items with the edited id change, each into its edited form |
| `HeadlineBanks.EditedWithinLimit` | src/components/rsa/HeadlineBanks.tsx:33-49 | an edited headline is never flagged over its limit |
| `HeadlineBanks.EditIdempotent` | src/components/rsa/HeadlineBanks.tsx:32-43 | typing the same value twice equals typing it once |
| `HeadlineBanks.EditKeepsFittingValue` | src/components/rsa/HeadlineBanks.tsx:33-41 | a value whose every `;`-separated piece, untrimmed, fits in 30 characters is stored verbatim |
| `HeadlineBanks.KeepNonBlank` | src/components/rsa/HeadlineBanks.tsx:17 | saving never adds headlines |
| `HeadlineBanks.KeepNonBlankMembers` | src/components/rsa/HeadlineBanks.tsx:17 | saving keeps a headline if and only if its text is not blank |
| `HeadlineBanks.KeepNonBlankIdempotent` | src/components/rsa/HeadlineBanks.tsx:16-19 | saving twice equals saving once |
| `HeadlineBanks.NewHeadlineItems` | src/components/rsa/HeadlineBanks.tsx:56-60 | one new item per non-blank piece, with id `newId(k)` for the k-th, the category and no variants |
| `HeadlineBanks.NewHeadlineTexts` | src/components/rsa/HeadlineBanks.tsx:56-60 | the new texts are the input's trimmed non-blank pieces, in order, each free of `;` |
| `HeadlineBanks.NewHeadlineTextsAreVariants` | src/components/rsa/HeadlineBanks.tsx:56-60 | the new texts are the input's phrasings under the table builder's rule |
| `HeadlineBanks.NewHeadlineTextsShape` | src/components/rsa/HeadlineBanks.tsx:56-60 | each new text is non-empty, trimmed and free of `;` |
| `HeadlineBanks.AddHeadlines` | src/components/rsa/HeadlineBanks.tsx:51-62 | a blank input leaves the bank; otherwise the new items follow the old ones; see `AddHeadlinesShape`, `NewHeadlineTexts` and `SaveKeepsAdded` |
| `HeadlineBanks.AddHeadlinesShape` | src/components/rsa/HeadlineBanks.tsx:51-62 | a blank input changes nothing; otherwise the old items stay as a prefix, followed by at most one new headline per `;` piece |
| `HeadlineBanks.SaveKeepsAdded` | src/components/rsa/HeadlineBanks.tsx:16-62 | saving after adding keeps every added headline after the surviving old ones |
| `HeadlineBanks.HeadlineBanksPanel.constructor` | src/components/rsa/HeadlineBanks.tsx:12-14 | nothing is being edited and the add box is empty |
| `HeadlineBanks.HeadlineBanksPanel.StartEditing` | src/components/rsa/HeadlineBanks.tsx:140 | the Edit button opens the category |
| `HeadlineBanks.HeadlineBanksPanel.SetNewHeadline` | src/components/rsa/HeadlineBanks.tsx:111 | the add box holds the typed value |
| `HeadlineBanks.HeadlineBanksPanel.SaveCategory` | src/components/rsa/HeadlineBanks.tsx:16-20 | the category's bank keeps only non-blank headlines, other banks and the store's other fields are unchanged, and editing closes |
| `HeadlineBanks.HeadlineBanksPanel.InputChange` | src/components/rsa/HeadlineBanks.tsx:27-45 | the category's bank becomes its edited form, and the edited headline is within its limit |
| `HeadlineBanks.HeadlineBanksPanel.AddHeadline` | src/components/rsa/HeadlineBanks.tsx:51-64 | a blank add box changes nothing; otherwise the new headlines are appended to the bank and the box is cleared |
| `AdGroupsForm.FindById` | src/components/rsa/AdGroups.tsx:45 | `find` returns the first group with the id, and returns nothing if and only if no group has it |
| `AdGroupsForm.ParseCustomHeadlines` | src/components/rsa/AdGroups.tsx:48-52 | one headline per phrasing of the typed text |
| `AdGroupsForm.EditPatch` | src/components/rsa/AdGroups.tsx:47-56 | the parsed custom headlines for the custom-headlines field, `{ [field]: value }` for the others; see `ParsedHeadlinesFit` and `AdGroupsEditor.EditInputChange` |
| `AdGroupsForm.ParsedHeadlinesFit` | src/components/rsa/AdGroups.tsx:48-52 | each parsed headline is non-empty and at most 30 characters: the whole phrasing when it has at most 30 characters, exactly its first 30 characters otherwise |
| `AdGroupsForm.ParsedShortPhrasings` | src/components/rsa/AdGroups.tsx:48-52 | when every phrasing has at most 30 characters, the parsed list is the phrasings unchanged |
| `AdGroupsForm.SaveCustomHeadlines` | src/components/rsa/AdGroups.tsx:63-65 | saving never adds custom headlines |
| `AdGroupsForm.SavedCustomHeadlines` | src/components/rsa/AdGroups.tsx:63-65 | saved headlines are non-empty and trimmed, and they equal `map(trim)` then the non-empty filter |
| `AdGroupsForm.SaveCustomHeadlinesIdempotent` | src/components/rsa/AdGroups.tsx:60-69 | saving a group twice equals saving it once |
| `AdGroupsForm.PhrasingsOfPhrasings` | src/components/rsa/AdGroups.tsx:63-65 | non-empty trimmed headlines pass the clean-up unchanged |
| `AdGroupsForm.AddCustom` | src/components/rsa/AdGroups.tsx:168-169 | a blank input changes nothing; otherwise the trimmed input is appended after the old entries |
| `AdGroupsForm.RemoveAt` | src/components/rsa/AdGroups.tsx:150 | removing an existing index shortens the list by one; an index past the end changes nothing |
| `AdGroupsForm.RemoveAtShifts` | src/components/rsa/AdGroups.tsx:150 | entries before the index stay, and the later ones shift down by one |
| `AdGroupsForm.RemoveAddedCustom` | src/components/rsa/AdGroups.tsx:149-172 | adding a headline and then removing it at its index restores the list |
| `AdGroupsForm.ReplaceAt` | src/components/rsa/AdGroups.tsx:131-132 | the index holds the new value and every other entry is unchanged |
| `AdGroupsForm.IsComplete` | src/components/rsa/AdGroups.tsx:72 | the negation of `!newGroup.name \|\| !newGroup.finalUrl`; see the error branch of `AdGroupsEditor.AddGroup` |
| `AdGroupsForm.NewGroup` | src/components/rsa/AdGroups.tsx:77-86 | the new group carries the id, the name and URL, the custom headlines, both paths as typed (present, "" when left empty), `adsCount \|\| 2` (always positive) and no utility headlines |
| `AdGroupsForm.NewGroupAddsRows` | src/components/rsa/AdGroups.tsx:77-86 | a created group adds exactly `adsCount` rows to the exported table |
| `AdGroupsForm.AdGroupsEditor.constructor` | src/components/rsa/AdGroups.tsx:15-26 | the draft starts with two ads and empty fields; nothing is being edited and there is no error |
| `AdGroupsForm.AdGroupsEditor.StartEditing` | src/components/rsa/AdGroups.tsx:208 | the Edit button opens the group |
| `AdGroupsForm.AdGroupsEditor.RemoveGroup` | src/components/rsa/AdGroups.tsx:209 | removes the group, after which no group has the id |
| `AdGroupsForm.AdGroupsEditor.EditInputChange` | src/components/rsa/AdGroups.tsx:40-58 | an unknown id changes nothing; otherwise the group gets the parsed custom headlines or the typed field |
| `AdGroupsForm.AdGroupsEditor.SaveGroup` | src/components/rsa/AdGroups.tsx:60-69 | the found group's custom headlines are cleaned up, and the edit view closes in every case |
| `AdGroupsForm.AdGroupsEditor.AddGroup` | src/components/rsa/AdGroups.tsx:71-98 | an incomplete draft sets the error and changes no group; a complete one appends `NewGroup` and resets the draft and the error |
| `AdGroupsForm.AdGroupsEditor.SetNewHeadline` | src/components/rsa/AdGroups.tsx:163 | the shared add box holds the typed value |
| `AdGroupsForm.AdGroupsEditor.AddCustomHeadlineToGroup` | src/components/rsa/AdGroups.tsx:166-172 | a blank box changes nothing; otherwise the trimmed text is appended to the group's custom headlines and the box is cleared |
| `AdGroupsForm.AdGroupsEditor.RemoveCustomHeadlineFromGroup` | src/components/rsa/AdGroups.tsx:149-152 | the group's custom headline at the index is removed |
| `AdGroupsForm.AdGroupsEditor.EditGroupCustomHeadline` | src/components/rsa/AdGroups.tsx:130-134 | the group's custom headline at the index is replaced by the typed value |
| `AdGroupsForm.AdGroupsEditor.AddDraftCustomHeadline` | src/components/rsa/AdGroups.tsx:332-336 | a blank box changes nothing; otherwise the trimmed text is appended to the draft's headlines and the box is cleared |
| `AdGroupsForm.AdGroupsEditor.RemoveDraftCustomHeadline` | src/components/rsa/AdGroups.tsx:314-316 | the draft's custom headline at the index is removed |
| `AdGroupsForm.AdGroupsEditor.EditDraftCustomHeadline` | src/components/rsa/AdGroups.tsx:305-308 | the draft's custom headline at the index is replaced by the typed value |

## Left out

- Rendering (JSX, tooltips, tabs, CSS classes, the red over-limit styling) is not modelled. The exception is the over-limit test itself (`IsOverLimit`).
- Side effects of the export are not modelled. The `alert` is the `NoAdGroups` outcome, and the `Blob`, object URL and link click that download the file are dropped. The model ends at the CSV text.
- zustand's `persist` middleware (local-storage persistence) and React's re-rendering are not modelled. The store is a plain object whose reducers run one at a time.
- `uuidv4` is not modelled. Ids are parameters, and nothing proves them fresh or distinct.
- The draft form's `handleInputChange` (src/components/rsa/AdGroups.tsx:28-33) writes a raw string into any draft field, `adsCount` included. No control of the core binds `adsCount`, so the draft's `adsCount` is a `nat` that stays 2. This generic setter is not modelled.
- The older `AdGroups` and `ExportControls` components, `CampaignSettings`, the guide and the pages are context and are not part of this model.
- Text.Trim: uses the ECMAScript whitespace set over single characters. It does not model UTF-16 surrogate pairs or `String.length` counting code units.
- Text.NatToString: renders non-negative integers only. A negative, fractional or `NaN` `adsCount` cannot arise in the model, because `adsCount` is a `nat`.
- RsaTable.Mod: is defined for non-negative `i` and positive `k` only, where it equals `i % k`. JavaScript's `x % 0` is `NaN`, and indexing with it gives `undefined`, so `|| ""` yields "". That case is written out explicitly in `Resolve` and `HeadlineSlot` instead of going through `Mod`.
- RsaPreview.PreviewDescriptions: `CampaignConfig` has no `descriptions` field, so the preview always reads it as absent (`ListedDescriptions`) and shows no descriptions. The behaviour is modelled as written.
- RsaTable.CustomHeadlines: `group.customHeadlines || []` guards against a missing list. The type makes the list always present, so the fallback is not modelled.
- AdGroupsForm.AdGroupsEditor.AddGroup: after `handleAddGroup` the draft's `newHeadline` is left `undefined`. The model resets it to "", which every reader treats the same way (`newHeadline || ""` and `?.trim()`).
- AdGroupsForm.AdGroupsEditor.EditInputChange: the edit view binds this handler only to the name and URL boxes, so `field` ranges over `EditableField` (name, final URL, custom headlines) and not every key of `AdGroupConfig`. The custom-headlines branch (src/components/rsa/AdGroups.tsx:47-53) is reached by no control of the edit view, whose custom headline boxes go through the inline handler at src/components/rsa/AdGroups.tsx:130-134; that branch is modelled as written all the same.
- AdGroupsForm.AdGroupsEditor.AddCustomHeadlineToGroup: the handler exists only for a rendered group, so it requires a valid group position `k`. The same holds for `RemoveCustomHeadlineFromGroup` and `EditGroupCustomHeadline`, which also require a valid headline index where the source writes into the list.
- AdGroupsForm.AdGroupsEditor.EditDraftCustomHeadline: requires a valid index, because the input box exists only for a rendered headline.
- The editing-view gating (`editingCategory`, `editingGroupId` deciding which controls are shown) is stored in the model but does not restrict which methods may be called.
- `pinned`, `notes` and `variants` of a headline item, and a group's `utilityHeadlines`, are carried as data. The core never reads them.
