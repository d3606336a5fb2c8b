# CC Legal Tools: translation synchronisation and legal-code loading rules

This project is a Dafny model of two parts of the Creative Commons legal
tools application.

**The Transifex helper** (`i18n/transifex.py`, class `TransifexHelper`) keeps
the project's gettext PO files consistent with the Transifex translation
service. The model covers:

- the resource and translation stats tables and their per-run cache;
- the guards that check whether a resource or a language exists on the service;
- the decisions behind resource and translation uploads;
- the five header normalizers and the date normalizer;
- the metadata comparisons;
- the entry-by-entry comparison;
- the "safe sync" of one translation. It copies a translation only to the side where it is missing and never overwrites one on either side.

**The HTML loader** (`legal_tools/management/commands/20231010_load_html_files.py`)
imports the legal-code HTML files. The model covers its decision rules:

- the command-line filters and the include test;
- the sort key that orders the files by version;
- the permission, requirement and prohibition flags derived from a tool's unit;
- the expected Section 1 definitions;
- the expected Section 2a5 downstream items.

Modules:

| file | module | contents |
|---|---|---|
| wrappers.dfy | `Wrappers` | `Option` and `Result` |
| text.dfy | `Text` | `str.split`, `join`, `rstrip`, `replace` (removal) and `int()` on strings |
| catalog.dfy | `Catalog` | PO entries, headers, the translated percentage, class `PoFile` (its entries, header and a save counter) |
| stats.dfy | `Stats` | the two stats tables built from the service's listings, and the slug-to-project map |
| normalize.dfy | `Normalize` | the header normalizers as functions, and the date plan |
| compare.dfy | `Compare` | entry comparison and metadata comparison |
| sync.dfy | `Sync` | the per-entry classification of safe sync and what it pushes and adopts |
| helper.dfy | `Transifex` | class `TransifexHelper`, with its cache, guards, uploads, normalizers, safe sync and entry comparison as methods |
| loader.dfy | `LoadHtml` | the loader's filters, sort key, flags, definitions and downstreams |

The service is modelled by two things:

- the listings it returns, which stay fixed for one helper;
- a journal `writes` of every change the helper asks of it. The journal is not fed back into the listings.

Other modelling choices:

- Replies of upload calls are parameters.
- A local file writing itself shows up as the ghost counter `PoFile.saves`.
- The `dryrun` switch is a constant of the helper. Every operation's contract states what it does with the switch on and with it off.

Where the code and its documentation disagree, the model follows the code:

- A message-id mismatch during safe sync skips that one entry; it does not abort the sync.
- Entries are paired by position. A service file shorter than the local one raises an `IndexError` after the part before it has been processed.
- `normalize_pofile_metadata` writes the file once for each normalizer that changed something, so up to five writes happen, not one.
- `normalize_pofile_language` always sets `Language` to the Transifex code; the source language gets no special case.

## Model

| member | source | states |
|---|---|---|
| Stats.ResourceStatsOf | i18n/transifex.py:99-123 | the resource table holds exactly the slugs some project lists and also configures, and for each the stats of the last record listing it: the last such record of the last project that has one (`LastResource`, read backwards) |
| Stats.TranslationStatsOf | i18n/transifex.py:125-156 | the translation table holds exactly the configured (slug, language) pairs that some project lists, never an empty inner table, and for each pair the stats of the last record naming it: the last such record of the last project that has one (`LastListed`, read backwards) |
| Stats.ListedPairsMeaning | i18n/transifex.py:138-154 | a pair is collected exactly when a listed stats record names that slug and language and the project configures the slug |
| Stats.TablesOnlyHoldConfiguredSlugs | i18n/transifex.py:112-121 | neither table ever contains a slug that no project configures |
| Stats.TranslationTableMembership | i18n/transifex.py:138-154 | a language appears under a slug iff some project lists that pair for a slug it configures |
| Text.LastSegmentIsSuffix | i18n/transifex.py:148-151 | the slug and language code taken from a record id are the part after its last colon, or the whole id when it has none |
| Stats.ResourceToProject | i18n/transifex.py:88-97 | every configured slug maps to a project that configures it, and no other slug is mapped |
| Stats.LaterProjectWins | i18n/transifex.py:91-97 | a slug configured by several projects maps to the last of them |
| Transifex.TransifexHelper.constructor | i18n/transifex.py:39-97 | the helper starts with the configuration, both caches empty and no writes |
| Transifex.TransifexHelper.ResourceStatsTable | i18n/transifex.py:158-165 | returns the service's resource table; it is fetched only on the first use after construction or a clear, then cached |
| Transifex.TransifexHelper.TranslationStatsTable | i18n/transifex.py:167-174 | the same for the translation table |
| Transifex.TransifexHelper.ClearStats | i18n/transifex.py:176-180 | both caches are empty afterwards, so the next use fetches again |
| Transifex.TransifexHelper.ResourcePresent | i18n/transifex.py:1380-1388 | true exactly when the slug is in the resource stats; the resource table is cached afterwards, fetched only if it was not cached before |
| Transifex.TransifexHelper.TranslationSupported | i18n/transifex.py:1390-1404 | `KeyError` when the slug has no translation stats; otherwise true exactly when the language is listed under it; the translation table is cached afterwards, fetched only if it was not cached before |
| Transifex.ResourceUploadDecision | i18n/transifex.py:246-297 | a present resource is skipped unless overwriting is asked for; nothing is sent in a dry run; a reply that created no strings is a failure, and one with skipped strings is reported as such |
| Transifex.TransifexHelper.UploadResource | i18n/transifex.py:223-297 | `KeyError` for an unconfigured slug; otherwise the writes are exactly those of the decision (creating the resource if absent, then its strings with translations blanked), and the stats are cleared after an upload that created strings; each table is fetched at most once and only if it was not cached, and a clear leaves both caches empty (`StatsReused`) |
| Transifex.TranslationUploadDecision | i18n/transifex.py:318-391 | `ValueError` for the source language and for a resource not yet on the service; a file with 0% translated is not sent; nothing is sent in a dry run; a language already on the service is only replaced when overwriting is asked for |
| Transifex.TransifexHelper.UploadTranslation | i18n/transifex.py:299-391 | the writes and the stats clear follow the decision exactly, and the local file is untouched; the caches are used as `StatsReused` states |
| Catalog.PercentTranslated | i18n/transifex.py:620-646 | the translated percentage is at most 100, is 100 iff every entry is translated, and is 0 iff fewer than one in a hundred are |
| Catalog.CountTranslated | i18n/transifex.py:620-646 | counts at most every entry; all of them iff each is translated, none iff none is |
| Catalog.PoFile.BlankTranslations | i18n/transifex.py:279-281 | every msgstr becomes empty and every msgid is kept, in order |
| Text.ParseInt | i18n/transifex.py:620-646 | `int()` of a header value succeeds exactly on an optional sign followed by at least one ASCII digit |
| Text.ParseDecimal | i18n/transifex.py:620-646 | an integer written out and read back with `int()` is itself |
| Normalize.FixLanguage | i18n/transifex.py:518-553 | writes iff not a dry run and a language field is wrong; afterwards `Language` and `Language-Transifex` hold the service's code and `Language-Django` the Django code; no other field changes |
| Normalize.TeamUrl | i18n/transifex.py:555-591 | the team URL lies under the organisation's site, points to the project's team page for the source language and to the language's team page otherwise |
| Normalize.TeamUrlSeparatesLanguages | i18n/transifex.py:555-591 | two different translation languages get different team URLs |
| Normalize.FixLanguageTeam | i18n/transifex.py:555-591 | writes iff not a dry run and `Language-Team` is not the team URL; afterwards it is; no other field changes |
| Normalize.FixLastTranslator | i18n/transifex.py:593-618 | writes iff not a dry run and `Last-Translator` is the gettext placeholder; that field is then removed and nothing else changes |
| Normalize.FixPercent | i18n/transifex.py:620-646 | a stored percentage that `int()` rejects raises `ValueError` (the source language is never read); otherwise writes iff not a dry run and the value differs from the computed percentage, after which it holds the computed percentage |
| Normalize.FixProjectId | i18n/transifex.py:648-669 | writes iff not a dry run and `Project-Id-Version` is not the resource slug; afterwards it is; no other field changes |
| Normalize.NormalizeAll | i18n/transifex.py:671-716 | the five normalizers in order write at most five times; a dry run writes nothing and changes nothing; an unconfigured slug raises `KeyError` after the language step, leaving that step's header and write; `ValueError` is raised exactly when the slug is configured, the language is not the source language and the header's stored percentage is not a number |
| Normalize.NormalizeAllNormalizes | i18n/transifex.py:671-716 | a run with no error and no dry run leaves every normalized field canonical |
| Normalize.NormalHeaderIsFixedPoint | i18n/transifex.py:671-716 | a header that is already canonical is left unchanged, with no write |
| Normalize.NormalizeIdempotent | i18n/transifex.py:671-716 | normalizing a second time changes nothing and writes nothing |
| Normalize.NormalSurvivesReload | i18n/transifex.py:620-646 | a canonical header is still canonical after the file is saved and read back, when the stored integer percentage comes back as text |
| Transifex.TransifexHelper.NormalizeLanguage | i18n/transifex.py:518-553 | the file's header and write count become those of `FixLanguage` |
| Transifex.TransifexHelper.NormalizeLanguageTeam | i18n/transifex.py:555-591 | `KeyError` for an unconfigured slug; otherwise the header and writes of `FixLanguageTeam` with the project's team URL |
| Transifex.TransifexHelper.NormalizeLastTranslator | i18n/transifex.py:593-618 | the header and writes of `FixLastTranslator` |
| Transifex.TransifexHelper.NormalizePercent | i18n/transifex.py:620-646 | `ValueError` for an unreadable percentage; otherwise the header and writes of `FixPercent` |
| Transifex.TransifexHelper.NormalizeProjectId | i18n/transifex.py:648-669 | the header and writes of `FixProjectId` |
| Transifex.TransifexHelper.NormalizeMetadata | i18n/transifex.py:671-716 | the header, the write count and the error are those of `NormalizeAll` |
| Normalize.PlanDates | i18n/transifex.py:766-868 | the creation date is adopted iff the two differ; a missing local revision date is adopted; differing revision dates are settled by comparing entries; equal dates mean nothing to do |
| Transifex.TransifexHelper.AdoptCreationDate | i18n/transifex.py:718-740 | the service's creation date replaces the local one and the file is written, except in a dry run |
| Transifex.TransifexHelper.AdoptRevisionDate | i18n/transifex.py:742-764 | the same for the revision date |
| Transifex.RevisionVerdict | i18n/transifex.py:802-866 | a differing revision date is adopted only when the service's file is a PO file whose entries agree with the local ones; a shorter service file raises `IndexError` |
| Transifex.RevisionAdoptedOnlyWhenSafe | i18n/transifex.py:766-868 | whenever the service's revision date is adopted, the local one was missing or the entries agree |
| Transifex.TransifexHelper.NormalizeDates | i18n/transifex.py:766-868 | the header ends up with the dates of the plan and the verdict, with one write per adopted date outside a dry run; nothing is sent to the service; the caches are used as `StatsReused` states |
| Transifex.TransifexHelper.SettleRevision | i18n/transifex.py:802-866 | the revision step: the outcome is that of `RevisionVerdict`, and the revision date is written (once) exactly when it is adopted outside a dry run; the translation table is fetched at most once and only if it was not cached |
| Compare.ResourcesMetadataIdentical | i18n/transifex.py:870-913 | true iff creation date, revision date and string count all agree |
| Compare.TranslationsMetadataIdentical | i18n/transifex.py:915-959 | true iff creation date, revision date and translated-entry count all agree; it is the resource test applied to the translated count |
| Compare.Differences | i18n/transifex.py:870-959 | lists each differing field exactly once |
| Compare.DifferencesSymmetric | i18n/transifex.py:870-959 | swapping local and service values reports the same fields |
| Compare.EntriesSame | i18n/transifex.py:822-826 | the local entries agree iff they are a prefix of the service's; the comparison fails with `IndexError` iff the service's file is shorter and agrees as far as it goes |
| Compare.EntriesMatch | i18n/transifex.py:822-826 | the comparison loop returns exactly `EntriesSame` |
| Compare.Divergent | i18n/transifex.py:1177-1193 | the positions reported are exactly those whose entries differ, in increasing order |
| Compare.DivergentResourceMode | i18n/transifex.py:1177-1193 | for a source resource only the message ids are compared |
| Compare.NoDivergenceIffSame | i18n/transifex.py:1177-1193 | no position is reported iff the revision-date comparison finds the files the same |
| Transifex.DiffEntries | i18n/transifex.py:1177-1193 | the comparison loop reports exactly the divergent positions, blanking the local entries in place for a source resource; `IndexError` when the service file is shorter, with the processed prefix blanked |
| Transifex.TransifexHelper.CompareEntries | i18n/transifex.py:1152-1193 | `KeyError` for an unconfigured slug, `ValueError` for a service file that is not PO, `IndexError` when it is shorter; otherwise the differing positions. Nothing is written to disk or sent to the service; for a source resource the local entries are blanked in memory (the processed prefix when the service file is shorter) |
| Sync.Classify | i18n/transifex.py:1036-1078 | each position is exactly one of: mismatched ids, in sync, in conflict (translated differently on both sides), ahead locally, or ahead on the service |
| Sync.PushIndices | i18n/transifex.py:1056-1062 | the pushed positions are exactly those translated only locally, in increasing order |
| Sync.LocalTranslationsKept | i18n/transifex.py:1064-1078 | a translation the local file holds is never replaced |
| Sync.OnlyBlanksFilled | i18n/transifex.py:1064-1078 | a local entry changes iff it is empty and the service has a translation, which it then takes |
| Sync.PushedEntriesUnchanged | i18n/transifex.py:1056-1078 | a pushed position keeps its local translation |
| Sync.SyncConverges | i18n/transifex.py:1015-1095 | after one sync no position is translated on one side only |
| Sync.SyncIdempotent | i18n/transifex.py:1015-1095 | a second sync pushes nothing, adopts nothing and leaves the local entries as they are |
| Transifex.PushWrites | i18n/transifex.py:1080-1095 | one unit save per pushed position, in order, carrying that position's local translation |
| Transifex.PushWritesAfterMerge | i18n/transifex.py:1056-1095 | the pushed translations are the same whether read before or after the adoptions |
| Transifex.TransifexHelper.SafesyncTranslation | i18n/transifex.py:961-1106 | `KeyError` for an unconfigured slug and `IndexError` for an empty service list, with nothing changed; an API error while listing the service's units returns the file unchanged, with nothing saved, sent or cleared; otherwise the local entries become the merge, the pushes are journalled and followed by a stats clear, and the file is written iff any translation was adopted outside a dry run; a shorter service list raises `IndexError` after the prefix is merged; the caches are used as `StatsReused` states |
| Transifex.SyncEntries | i18n/transifex.py:1014-1078 | the loop over the local entries ends with exactly the merged entries (unchanged in a dry run), the pushed positions and whether anything was adopted; it reports running out of service units when there are fewer units than entries, with the processed prefix merged |
| Transifex.SyncStep | i18n/transifex.py:1022-1078 | one position of that loop extends the merged prefix, the pushed positions and the adoption flag by that position's outcome |
| Transifex.TransifexHelper.SavePushes | i18n/transifex.py:1080-1095 | the unit saves journalled are exactly `PushWrites` of the pushed positions, in order |
| LoadHtml.ParseFilters | legal_tools/management/commands/20231010_load_html_files.py:108-127 | an unknown category is an error; the language filter is the listed languages plus English; the version filter is the listed versions; an empty option means no filter |
| LoadHtml.IncludeMeaning | legal_tools/management/commands/20231010_load_html_files.py:174-187 | a file is loaded iff each given option admits its category, language (English always) and version |
| LoadHtml.SortKey | legal_tools/management/commands/20231010_load_html_files.py:146-152 | a file name with fewer than two parts has no key (`IndexError`); otherwise the key is `version__unit__rest` with its trailing underscores stripped: a prefix of that string, ending in no underscore, with only underscores after it |
| LoadHtml.SortKeyOfToolFile | legal_tools/management/commands/20231010_load_html_files.py:146-152 | for a file named from underscore-free parts the key is the version, then the unit, then the rest, joined by double underscores |
| LoadHtml.TwoPartSortKey | legal_tools/management/commands/20231010_load_html_files.py:146-152 | `unit_version.html` sorts by `version__unit` |
| LoadHtml.DeedOnlySortKeys | legal_tools/management/commands/20231010_load_html_files.py:141-152 | the two appended deed-only files sort as `1.0__certification` and `1.0__mark` |
| LoadHtml.ToolFlags | legal_tools/management/commands/20231010_load_html_files.py:194-229 | flags exist exactly for the two categories, licenses and public domain |
| LoadHtml.SharingImpliesAttribution | legal_tools/management/commands/20231010_load_html_files.py:194-229 | a tool that permits sharing requires attribution and permits distribution; only licenses require notice; distribution and reproduction are always permitted together |
| LoadHtml.ByFlags | legal_tools/management/commands/20231010_load_html_files.py:194-215 | BY: everything permitted but sharing; attribution and notice required; nothing prohibited |
| LoadHtml.BySaFlags | legal_tools/management/commands/20231010_load_html_files.py:194-215 | BY-SA: as BY, with share-alike required |
| LoadHtml.ByNdFlags | legal_tools/management/commands/20231010_load_html_files.py:194-215 | BY-ND: as BY, without derivative works |
| LoadHtml.ByNcFlags | legal_tools/management/commands/20231010_load_html_files.py:194-215 | BY-NC: as BY, with commercial use prohibited |
| LoadHtml.ByNcSaFlags | legal_tools/management/commands/20231010_load_html_files.py:194-215 | BY-NC-SA: share-alike required and commercial use prohibited |
| LoadHtml.ByNcNdFlags | legal_tools/management/commands/20231010_load_html_files.py:194-215 | BY-NC-ND: no derivative works and commercial use prohibited |
| LoadHtml.SamplingFlags | legal_tools/management/commands/20231010_load_html_files.py:194-215 | Sampling: neither distribution nor reproduction permitted; attribution and notice required |
| LoadHtml.SamplingPlusFlags | legal_tools/management/commands/20231010_load_html_files.py:194-215 | Sampling Plus: the one unit that permits sharing; attribution and notice required |
| LoadHtml.NcSamplingPlusFlags | legal_tools/management/commands/20231010_load_html_files.py:194-215 | NonCommercial Sampling Plus: commercial use prohibited, and sharing not permitted since its unit is not `sampling+` |
| LoadHtml.DevNationsFlags | legal_tools/management/commands/20231010_load_html_files.py:194-215 | Developing Nations: use in high-income nations prohibited; attribution and notice required |
| LoadHtml.PublicDomainFlags | legal_tools/management/commands/20231010_load_html_files.py:216-229 | every public-domain tool permits derivatives, distribution and reproduction, not sharing, and requires and prohibits nothing |
| LoadHtml.IndexOf | legal_tools/management/commands/20231010_load_html_files.py:728-730 | the position of the first occurrence |
| LoadHtml.InsertAfter | legal_tools/management/commands/20231010_load_html_files.py:728-730 | `ValueError` iff the anchor is absent; otherwise the new item directly follows the anchor's first occurrence, with everything else kept in order |
| LoadHtml.InsertAfterKeepsOrder | legal_tools/management/commands/20231010_load_html_files.py:728-730 | removing the inserted item gives back the original list, and the multiset grows by exactly that item |
| LoadHtml.ExpectedDefinitions | legal_tools/management/commands/20231010_load_html_files.py:715-750 | the definitions list built step by step equals the one for the unit |
| LoadHtml.DefinitionsFollowElements | legal_tools/management/commands/20231010_load_html_files.py:715-750 | for the six BY 4.0 units, "noncommercial" is expected iff the unit has NC, "adapters_license" iff it lacks ND, and a ShareAlike element definition iff it has SA |
| LoadHtml.ExpectedDownstreams | legal_tools/management/commands/20231010_load_html_files.py:825-830 | the downstream items start with the offer and end with no-restrictions; the adapted-material item sits between them exactly for BY-SA and BY-NC-SA |

## Left out

- Calls to the Transifex API, HTTP requests, polib parsing and writing, git, the Django ORM and the file system: the service is a fixed listing plus a journal of writes, and the replies are parameters.
- Log messages, colours and the rendering of diffs: only the positions that would be diffed are modelled.
- `transifex_get_pofile_content`: the download is a parameter (`RemoteFile`); only its slug lookup (`KeyError`) and its format check (`ValueError` for a file that is not PO) are modelled.
- Stats refresh after writes: the listings stay as they were when the helper was built, so what the service holds after an upload is only visible in `writes`.
- PO entries are reduced to msgid and msgstr: fuzzy flags, plurals, contexts and obsolete entries are not modelled.
- Catalog.PercentTranslated: computes polib's `percent_translated`, `int(translated * 100 / total)`, as the integer floor (the same for non-negative counts), with 100 for an empty file; fuzzy and obsolete entries lie outside the model, as the entries line says.
- Text.ParseInt: Python's `int()` also accepts surrounding whitespace, underscores between digits and non-ASCII digits; the model accepts only an optional sign and ASCII digits.
- A translation unit's `strings` dictionary is reduced to its "other" form; a dictionary without that key (a `KeyError` in the source) is not modelled.
- Resource creation in `upload_resource_to_transifex` has no error handling in the source; the model takes creation to succeed. The only API error handled, in `safesync_translation`, is modelled.
- The batch drivers that loop over every resource and language are not modelled: `normalize_translations`, `compare_translations`, `pull_translation`, `push_translation`, `push_resource`, `check_for_translation_updates_with_repo_and_legal_codes` and `check_for_translation_updates`. Their per-file steps are modelled.
- `Language.get` and the other lookups of the service's objects are not modelled; their results are represented by the slug and language code.
- LoadHtml: listing the input directory, the Python list sort itself, and `parse_legal_code_filename` are not part of this model; the model gives the key the sort uses and the filter the loop applies.
- LoadHtml.ToolFlags: for a category other than the two known ones the source sets no flags, so the first such file fails on an unbound name and a later one reuses the previous file's flags; the model returns `None` there.
- LoadHtml.ToolFlags: the flags are written out for BY 4.0's six units, the three sampling units, Developing Nations and the public-domain tools; the flags of older units such as `nd-nc` or `nc-sa` are not written out.
- LoadHtml.DefinitionsFor and LoadHtml.ExpectedDownstreams: only the expected keys are modelled, not the extraction of the HTML text that is checked against them.
- LoadHtml.DefinitionsFollowElements: stated only for the six BY 4.0 units the source handles; other units keep the common list.
