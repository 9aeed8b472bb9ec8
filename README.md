# pie: a verified Dafny model of its rule-bearing core

pie is a Django application in which researchers browse dbGaP phenotype
variables, tag them with phenotype concepts, and run a quality review of
those tags: the DCC reviews a tagged variable, the study responds, and the
DCC decides. This project models, in Dafny, the parts of the application
that carry rules, and proves what the code promises about them.

- **Tagging and review records** (`TagModels`, `TagQuerysets`, `TagViews`). A
  `TagStore` class holds the tags, tagged traits, reviews, study responses and
  decisions as maps from key to row. A review, response or decision is keyed
  by the tagged trait it belongs to, which makes the one-to-one chain
  structural. The methods keep the store valid: unique lower-cased tag
  titles, one tagged trait per (trait, tag) pair, and children only under
  existing parents. They are tag saving, archive and unarchive, the
  three-way delete (remove, archive, or refuse), review deletion, bulk
  deletion and bulk tagging. The review-status filters are functions, and
  lemmas show how they partition and nest.
- **Trait metadata** (`TraitModels`, `TraitQuerysets`). The phs, pht and phv
  accessions with their zero padding, and the `.vN.pM` suffix. The dbGaP
  links and the harmonized flavor name, recomputed by each model's `Save`.
  The choice of the latest and the previous study version. The `current()`
  filters. Each accession parses back to the numbers it was built from.
- **Search** (`TraitForms`, `TraitViews`). The description field that drops
  words shorter than three characters. The form rule that a name or a
  description must be given. The substring search with its study and
  deprecation filters, and the autocompletes. The tagging permission. The
  log of past searches with its counter.
- **Recipes** (`RecipeModels`, `RecipeForms`). The two regex validators, the
  encoded-values parser with its round trip, and per-creator name
  uniqueness. The unit-recipe form checks: overlap between variable roles, a
  single global study, and harmonized variables excluding source ones.
- **Management commands** (`ImportDb`, `ExportTagging`, `PopulateTraitModels`,
  `IncrementVersion`, `Versioning`, `VersionFile`).
  - From the import: the row fixers, the SELECT builder and its round trip,
    the argument mapping, the many-to-many reconciliation, the in-place
    update of an object and the order of the phases.
  - From the export: its filters, the tab-separated files and data
    dictionaries it writes, and its date stamp.
  - The parser of the MySQL option file and the decision whether to connect.
  - The major/minor version counter of both version scripts, and the
    version.json file it is saved to and loaded from.
- **Python semantics** (`PyStr`, `Seqs`, `Wrappers`). The parts of `str`
  (whitespace, `strip`, `split`, `join`, zero-padded formatting) and of
  QuerySet filtering that the model relies on. `Option` and `Result` stand
  for `None` and for raised exceptions.

Query results, file contents and command-line flags are inputs to the model.
A file the code writes is modelled as the text written to its path. A
tagged trait is unique per (trait, tag) whatever its archived flag
(tags/models.py:75). Where a test disagrees with the code, the model
follows the code.

## Model

| member | source | states |
|---|---|---|
| Seqs.Filter | trait_browser/querysets.py:8-10 | QuerySet.filter keeps exactly the rows that satisfy the condition, in order, and no more rows than it had |
| Seqs.FilterIdempotent | trait_browser/querysets.py:8-10 | filtering twice by the same condition is filtering once |
| Seqs.FilterCommute | trait_browser/views.py:308-309 | two filters in a row give the same rows in either order |
| Seqs.FilterThen | trait_browser/views.py:409-410 | a second filter after a first is one filter by both conditions |
| Seqs.FilterFirst | trait_browser/views.py:411 | the first row kept is the first row of the queryset that satisfies the condition |
| PyStr.Strip | trait_browser/forms.py:23 | strip() leaves the string between its leading and its trailing whitespace, neither starting nor ending with whitespace |
| PyStr.StrippedUnique | trait_browser/forms.py:23 | only one string is the stripped form of a string |
| PyStr.StripIdempotent | trait_browser/forms.py:23 | stripping twice is stripping once |
| PyStr.StripSurroundingSpace | trait_browser/forms.py:23 | whitespace added around a string does not change what strip() leaves of it |
| PyStr.StripUnchanged | trait_browser/forms.py:23 | a string that neither starts nor ends with whitespace is its own strip |
| PyStr.StripBlank | trait_browser/forms.py:23 | a blank string strips to the empty string |
| PyStr.SplitWs | trait_browser/forms.py:24 | split() gives non-empty words without whitespace |
| PyStr.SplitWsJoin | trait_browser/forms.py:24-29 | splitting words joined by single spaces gives the words back |
| PyStr.SplitWsLength | trait_browser/forms.py:24 | the words of a string and one separator between each two of them fit in the string |
| PyStr.JoinWithSpaceLength | trait_browser/forms.py:29 | joining n words with single spaces adds n - 1 characters |
| PyStr.Lower | tags/models.py:36 | lower() keeps the length and folds each ASCII letter |
| PyStr.SplitOn | trait_browser/management/commands/populate_trait_models.py:22 | split(sep) gives at least one piece, the pieces joined by the separator give the string back, and no piece holds the separator |
| PyStr.SplitOnJoin | tags/management/commands/export_tagging.py:152-156 | splitting a join on a one- or two-character separator gives the parts back when no part holds it |
| PyStr.NatToStr | trait_browser/management/commands/import_db.py:155 | str() of a non-negative integer is a non-empty digit string without leading zeros whose value is the integer |
| PyStr.ZeroPadNat | phenotype_inventory/versioning.py:25 | '{:02d}' pads with zeros to the width and keeps the value |
| PyStr.ZeroPadInt | phenotype_inventory/versioning.py:25 | '{:02d}' puts the minus sign of a negative number before the padded digits of its magnitude |
| PopulateTraitModels.StripNewlines | trait_browser/management/commands/populate_trait_models.py:19 | strip('\n') removes the leading and trailing newlines of a line and no others: the result is the line between two newline runs and neither starts nor ends with a newline |
| PopulateTraitModels.StripNewlinesKeepsOthers | trait_browser/management/commands/populate_trait_models.py:19 | stripping newlines keeps every occurrence of every other character |
| PopulateTraitModels.StripNewlinesNone | trait_browser/management/commands/populate_trait_models.py:19 | a line that holds no newline is left unchanged |
| PopulateTraitModels.SplitOnCharCount | trait_browser/management/commands/populate_trait_models.py:22 | split('=') gives one more piece than the line has '=' characters |
| PopulateTraitModels.EntryWhenOneEquals | trait_browser/management/commands/populate_trait_models.py:22 | a line contributes a key/value pair exactly when it holds one '=' (its split has length 2) |
| PopulateTraitModels.EntryStripped | trait_browser/management/commands/populate_trait_models.py:22 | the key and the value of a line's pair are whitespace-stripped and hold no '=' |
| PopulateTraitModels.CollectOrigin | trait_browser/management/commands/populate_trait_models.py:22 | every pair the list comprehension keeps comes from some line |
| PopulateTraitModels.CollectKept | trait_browser/management/commands/populate_trait_models.py:22 | the pair of every line the comprehension's filter accepts is kept |
| PopulateTraitModels.DictOfKey | trait_browser/management/commands/populate_trait_models.py:22 | a key is in dict(pairs) exactly when some pair has it, and its value is that of such a pair |
| PopulateTraitModels.LastPairWins | trait_browser/management/commands/populate_trait_models.py:22 | when a key repeats, dict() keeps the pair of the last line that gives it |
| PopulateTraitModels.CnfDict | trait_browser/management/commands/populate_trait_models.py:14-23 | the option dictionary has no more keys than the file has lines |
| PopulateTraitModels.CnfDictKeys | trait_browser/management/commands/populate_trait_models.py:14-23 | a key is in the option dictionary exactly when some line of the file gives an entry for it |
| PopulateTraitModels.CnfDictStripped | trait_browser/management/commands/populate_trait_models.py:14-23 | every key and value of the option dictionary is whitespace-stripped and holds no '=' |
| PopulateTraitModels.LastLineWins | trait_browser/management/commands/populate_trait_models.py:14-23 | when a key repeats in the option file, the value on its last line is kept |
| PopulateTraitModels.GetDb | trait_browser/management/commands/populate_trait_models.py:26-48 | no connection is made exactly when the host is a workstation and the database is not a test one; otherwise the call raises TypeError exactly when the host's option file sets database, charset or use_unicode, and else asks for that database, charset latin1 and no unicode, with the file's options |
| PopulateTraitModels.WorkstationsReachOnlyTests | trait_browser/management/commands/populate_trait_models.py:30-46 | a workstation reads the workstation option file and can only reach the test databases; any other host reaches every database with the server option file, unless that file sets one of the keywords the call passes itself |
| PopulateTraitModels.OptionLineEntry | trait_browser/management/commands/populate_trait_models.py:19-22 | an option line "key=value" whose key and value are stripped and hold no "=" or newline gives exactly that key and value |
| PopulateTraitModels.DatabaseLineRaises | trait_browser/management/commands/populate_trait_models.py:45-46 | a server option file holding a line "database=..." makes getDb raise TypeError, whatever database is asked for |
| VersionFile.VersionStringRoundTrip | core/management/commands/increment_version.py:22-24 | the version string of two non-negative numbers reads back to the same numbers, and its minor part has at least two digits |
| VersionFile.VersionStringInjective | phenotype_inventory/versioning.py:23-25 | two versions of non-negative numbers with the same version string are the same version |
| VersionFile.ParseIntOf | core/management/commands/increment_version.py:19-20 | int() of an integer written by the JSON encoder gives that integer back, for any sign |
| VersionFile.VersionJsonRoundTrip | core/management/commands/increment_version.py:40-45 | loading the version.json that save writes gives back the same major and minor numbers |
| VersionFile.BumpAdvances | core/management/commands/increment_version.py:34-38 | a major or a minor increment gives a later version, and a major increment a later one than a minor increment |
| IncrementVersion.Command.constructor | core/management/commands/increment_version.py:13 | the command starts with version.json as given |
| IncrementVersion.Command.GetVersionFromJson | core/management/commands/increment_version.py:15-20 | the command's numbers become those stored in version.json; a malformed file is reported and changes nothing |
| IncrementVersion.Command.GetVersionString | core/management/commands/increment_version.py:22-24 | the string is the version string of the command's numbers |
| IncrementVersion.Command.IncrementVersion | core/management/commands/increment_version.py:26-38 | "major" adds one to the major number and resets the minor to zero, "minor" adds one to the minor number, anything else changes nothing; version.json is untouched |
| IncrementVersion.Command.SaveVersionNumbers | core/management/commands/increment_version.py:40-45 | version.json now holds exactly the command's numbers and loads back to them; the numbers do not change |
| IncrementVersion.Command.Handle | core/management/commands/increment_version.py:47-68 | both flags are refused; a malformed version.json and a missing flag are errors that leave the file as it was; with one flag the file ends up holding the incremented numbers and the new version string is reported |
| Versioning.Globals.constructor | phenotype_inventory/versioning.py:15-20 | the module globals hold the numbers read at import and the text of version.json |
| Versioning.Globals.GetVersionString | phenotype_inventory/versioning.py:23-25 | the string is the version string of the global numbers |
| Versioning.Globals.IncrementVersion | phenotype_inventory/versioning.py:27-41 | "major" adds one to MAJOR_VERSION and resets MINOR_VERSION, "minor" adds one to MINOR_VERSION, anything else changes nothing |
| Versioning.Globals.SaveVersionNumbers | phenotype_inventory/versioning.py:43-48 | version.json now holds exactly the global numbers and loads back to them |
| Versioning.Globals.RunMain | phenotype_inventory/versioning.py:50-67 | both flags are refused by the parser, no flag leaves version_type unbound, and in both cases nothing changes; with one flag the numbers are incremented and saved |
| Versioning.Import | phenotype_inventory/versioning.py:15-20 | importing the module succeeds exactly when version.json is well formed, and the globals then hold its numbers |
| Versioning.MainThenImport | phenotype_inventory/versioning.py:50-67 | after main with one flag, importing the module again reads back the incremented version; otherwise it reads back the same version |
| ExportTagging.ProjectionsAligned | tags/management/commands/export_tagging.py:62-63 | the column names and the lookup paths are projections of the same columns: equally long, and zipping them gives the columns back |
| ExportTagging.Exported | tags/management/commands/export_tagging.py:123-134 | a tagged trait is exported exactly when it passes the archived, deprecated-version and study filters |
| ExportTagging.ValuesRows | tags/management/commands/export_tagging.py:136-141 | values_list gives one row per kept tagged trait, in order, each the trait's values at the lookup paths |
| ExportTagging.GetTaggedTraitData | tags/management/commands/export_tagging.py:115-141 | the query fails exactly when a study pk is given that names no study; otherwise a row is returned exactly for each tagged trait that passes the filters |
| ExportTagging.DefaultExport | tags/management/commands/export_tagging.py:262 | without a study pk and with the default flags, no row comes from an archived tagged trait or a deprecated study version, and every other tagged trait gives a row |
| ExportTagging.TabLineRoundTrip | tags/management/commands/export_tagging.py:152 | a row of cells without tabs or newlines, tab-joined, is one line that splits back into the row |
| ExportTagging.LinesRoundTrip | tags/management/commands/export_tagging.py:156 | lines without newlines, newline-joined, split back into the same lines |
| ExportTagging.ColumnNamesPlain | tags/management/commands/export_tagging.py:63 | no column name holds a tab or a newline |
| ExportTagging.TaggedTraitFileLines | tags/management/commands/export_tagging.py:143-159 | when no value holds a tab or a newline, the tagged-variable file has one line more than there are rows; the first line splits into the column names and each other line into its row |
| ExportTagging.DictionaryLines | tags/management/commands/export_tagging.py:109-110 | a data dictionary of plain entries reads back as its header and one name/description pair per line |
| ExportTagging.TagsDumpDictionaryShape | tags/management/commands/export_tagging.py:101-113 | the tags-dump data dictionary is its header and one line per JSON field, each line the field name, a tab and the field's description |
| ExportTagging.TagsJsonNamesListed | tags/management/commands/export_tagging.py:24-35 | the JSON fields described are, in order, model, pk, fields, created, modified, title, lower_title, description, instructions and creator |
| ExportTagging.DictionaryAsWrittenGivesPaths | tags/management/commands/export_tagging.py:170 | as written, the first entry of the tagged-variable data dictionary splits into "tag_pk" and its lookup path "tag__pk", not a description |
| ExportTagging.TaggedTraitDictionaryTextAsWritten | tags/management/commands/export_tagging.py:161-173 | as written, the data dictionary is its header and, for each column, the column's name and its lookup path, newline-joined |
| ExportTagging.FirstDescriptionIsNotPath | tags/management/commands/export_tagging.py:39-40 | the description of the tag_pk column differs from its lookup path |
| ExportTagging.TaggedTraitDictionaryJoin | tags/management/commands/export_tagging.py:161-173 | the corrected data dictionary is its header and one entry line per column, newline-joined |
| ExportTagging.TaggedTraitDictionaryEntries | tags/management/commands/export_tagging.py:161-173 | in the corrected data dictionary each entry line, in column order, is the column's name, a tab and the column's description |
| ExportTagging.ReplaceAll | tags/management/commands/export_tagging.py:107 | str.replace leaves a string without the pattern unchanged |
| ExportTagging.ReplaceAllSkip | tags/management/commands/export_tagging.py:107 | where the pattern does not start the string, str.replace keeps the first character and goes on with the rest |
| ExportTagging.ReplaceAllAfter | tags/management/commands/export_tagging.py:107 | a prefix holding no start of the pattern is kept as it is, and only what follows is replaced |
| ExportTagging.ReplaceWhole | tags/management/commands/export_tagging.py:107 | the pattern alone is replaced by the substitute |
| ExportTagging.ReplaceLastOccurrence | tags/management/commands/export_tagging.py:167 | a string whose only occurrence of the pattern is at its end has that occurrence, and only it, replaced |
| ExportTagging.ExtensionReplaced | tags/management/commands/export_tagging.py:167 | in a path whose directory holds no extension and whose stem holds no dot, replacing the extension changes exactly the extension |
| ExportTagging.DatedNameReplaced | tags/management/commands/export_tagging.py:154-167 | replacing the extension of a date-stamped export name gives the same date-stamped name with the substitute in place of the extension |
| ExportTagging.TaggedTraitDictionaryFileName | tags/management/commands/export_tagging.py:154-167 | the data dictionary of the tagged-variable file is named like that file with "_data_dictionary" before ".txt", in the same directory, whenever the directory's path holds no ".txt" |
| ExportTagging.TagsDumpDictionaryFileName | tags/management/commands/export_tagging.py:94-107 | the data dictionary of the tags dump is named like the dump with "_data_dictionary.txt" in place of ".json", in the same directory, whenever the directory's path holds no ".json" |
| ExportTagging.ParseDateStamp | tags/management/commands/export_tagging.py:71-73 | a stamp that parses gives a valid date and time, to the minute |
| ExportTagging.StampParses | tags/management/commands/export_tagging.py:71-73 | parsing the date stamp of a moment gives that moment back, with the seconds dropped |
| ExportTagging.ParsedStampFormats | tags/management/commands/export_tagging.py:71-73 | formatting a parsed stamp gives back the same stamp |
| ExportTagging.DateStamp | tags/management/commands/export_tagging.py:71-73 | the stamp is fifteen characters: four digits of year, "-", two of month, "-", two of day, "_", two of hour and two of minute, each field reading back as the moment's value, and no "." |
| ExportTagging.ExportCommand.constructor | tags/management/commands/export_tagging.py:69 | the command starts with no files written |
| ExportTagging.ExportCommand.MakeTagsDumpDataDictionaryFile | tags/management/commands/export_tagging.py:101-113 | the dictionary's name is the dump's name with .json replaced, and only that file is written, with the tags-dump data dictionary |
| ExportTagging.ExportCommand.MakeTaggedTraitFile | tags/management/commands/export_tagging.py:143-159 | the file is named from the date and the prefix, and only that file is written, with the header line and one tab-delimited line per row |
| ExportTagging.ExportCommand.MakeTaggedTraitDataDictionaryFile | tags/management/commands/export_tagging.py:161-173 | the dictionary's name is the data file's name with .txt replaced, and only that file is written, with the corrected data dictionary |
| ImportDb.FixNull | trait_browser/management/commands/import_db.py:95-115 | every NULL in a row becomes the empty string, every other value and every column is kept |
| ImportDb.FixBytearray | trait_browser/management/commands/import_db.py:67-93 | every byte array in a row becomes the string it decodes to, every other value and every column is kept |
| ImportDb.FixRowClean | trait_browser/management/commands/import_db.py:140-142 | a fixed row has the same columns, holds only text and numbers, and fixing it again changes nothing |
| ImportDb.FixersCommute | trait_browser/management/commands/import_db.py:140-142 | the NULL and byte-array fixers touch disjoint kinds of value, so either order gives the same row |
| ImportDb.MakeTableQuery | trait_browser/management/commands/import_db.py:172-205 | a ValueError is raised exactly when some but not all filter arguments are set; otherwise the query is the table query with the requested IN or NOT IN filter, or none |
| ImportDb.ValueListRoundTrip | trait_browser/management/commands/import_db.py:199-202 | the value list inside IN ( ) reads back as the values, with "''" standing for no values |
| ImportDb.FilterRoundTrip | trait_browser/management/commands/import_db.py:195-203 | the WHERE clause the query builder writes reads back as the same field, values and negation |
| ImportDb.QueryRoundTrip | trait_browser/management/commands/import_db.py:189-205 | a rendered table query reads back as the same table and filter |
| ImportDb.NewRowsQuerySelects | trait_browser/management/commands/import_db.py:233-250 | the new-rows query is on the same table and selects a key exactly when it is not among the keys already imported |
| ImportDb.NewPksWereSelected | trait_browser/management/commands/import_db.py:157-168 | a key the website gained is one the new-rows query fetches, and a key it already had is one the query skips |
| ImportDb.Prefixed | trait_browser/management/commands/import_db.py:269-270 | each source column is copied to the model field of the same name with "i_" in front |
| ImportDb.Underscored | trait_browser/management/commands/import_db.py:277 | replace(' ', '_') keeps the length, leaves no blank and changes no other character |
| ImportDb.AssignFieldsOk | trait_browser/management/commands/import_db.py:268-273 | copying columns succeeds exactly when every source column is in the row (a KeyError otherwise) |
| ImportDb.AssignFieldsKeys | trait_browser/management/commands/import_db.py:268-273 | after copying, the argument names are the earlier ones plus every destination field |
| ImportDb.AssignFieldsValues | trait_browser/management/commands/import_db.py:268-273 | each destination field holds the column of the last pair that wrote it, and fields nothing wrote keep their value |
| ImportDb.AssignLinksFacts | trait_browser/management/commands/import_db.py:274-277 | the foreign keys succeed exactly when every key column is present and names an existing object; the related objects are added under their model names |
| ImportDb.ArgsMappingOk | trait_browser/management/commands/import_db.py:252-278 | the argument mapping succeeds exactly when every named column is in the row and every foreign key finds its object |
| ImportDb.ArgsMappingKeys | trait_browser/management/commands/import_db.py:252-278 | on success the argument names are exactly the "i_" names, the mapped names and the related models' names |
| ImportDb.MakeArgsMapping | trait_browser/management/commands/import_db.py:252-278 | the three loops build exactly the argument mapping, or raise its error |
| ImportDb.LinkObjects | trait_browser/management/commands/import_db.py:274-277 | the foreign-key loop adds exactly the related objects, or raises the first lookup's error |
| ImportDb.AssignFieldsErrStays | trait_browser/management/commands/import_db.py:268-273 | once copying raises on a prefix of the columns, the whole copy raises the same error |
| ImportDb.M2MField.constructor | trait_browser/management/commands/import_db.py:715-731 | the field starts with the website's links and the set of child objects the website holds |
| ImportDb.M2MField.LinkAll | trait_browser/management/commands/import_db.py:659-683 | linking stops, reporting failure, exactly when some child is not an object of the website (objects.get raises DoesNotExist); the children linked so far are added to the parent's links and reported one pair each; on success every child is linked |
| ImportDb.M2MField.UnlinkAll | trait_browser/management/commands/import_db.py:634-657 | unlinking each child removes exactly those children from the parent's links and reports one pair per child |
| ImportDb.M2MField.UpdateM2MField | trait_browser/management/commands/import_db.py:715-750 | succeeds exactly when the website holds every child the source links (which fails whenever the source links an existing parent to a child not yet imported, since handle runs the updates before the imports); on success every parent's children are exactly those the source links, the added pairs are those only the source had, the removed pairs those only the website had, and none is both; on DoesNotExist each parent is reconciled, untouched, or has gained only some of the source's existing children |
| ImportDb.ReconciledStep | trait_browser/management/commands/import_db.py:732-749 | reconciling one more parent extends the set of parents whose links match the source |
| ImportDb.Lookup | trait_browser/management/commands/import_db.py:350 | model_args[name] finds a value exactly when the arguments name that field, and the value is the one given for it |
| ImportDb.ApplyUntouched | trait_browser/management/commands/import_db.py:355-361 | setting the arguments, with a save() after each change, keeps the object's field names and leaves alone every field that no argument names and save() does not recompute |
| ImportDb.ChangesCounted | trait_browser/management/commands/import_db.py:346-347 | counting each differing field, as the docstring promises, is positive exactly when the object changed, whatever save() recomputes besides the fields the arguments name |
| ImportDb.UpdateGoesUnreported | trait_browser/management/commands/import_db.py:358-359 | for any model whose save() leaves i_name alone, an object whose name field differs from the new value is changed by the update |
| ImportDb.ModelObjects.constructor | trait_browser/management/commands/import_db.py:349-350 | the model's objects and its save() (the overrides that recompute phs, full_accession, dbgap_link or trait_flavor_name) start as given |
| ImportDb.ModelObjects.UpdateFromArgsAsWritten | trait_browser/management/commands/import_db.py:334-370 | as written: a missing pk argument or object is an error; otherwise every differing argument is set on the object and followed by the model's save(), and the result is always False unless a field name is unknown |
| ImportDb.ModelObjects.UpdateFromArgs | trait_browser/management/commands/import_db.py:334-370 | corrected: the object is updated and saved as written, the result says whether some field differed, and that is exactly whether the object changed when save() recomputes no field the arguments name |
| ImportDb.HandleFlags | trait_browser/management/commands/import_db.py:1046-1082 | the backup is taken unless --no_backup, and first; --import_only drops exactly the updates and --update_only exactly the imports |
| ImportDb.HandleOrder | trait_browser/management/commands/import_db.py:1076-1082 | every update runs before every import, source tables before harmonized ones, and no phase twice |
| TraitViews.Search | trait_browser/views.py:285-313 | a source search returns exactly the traits of the given studies (of all studies when none is given) from non-deprecated study versions whose name or description contains the text; a harmonized search returns exactly the harmonized traits whose name or description contains it; any other type leaves the result unbound |
| TraitViews.SearchStudiesNarrow | trait_browser/views.py:302-309 | restricting a source search to some studies only removes results of the search over all studies |
| TraitViews.SearchMissesOtherCase | trait_browser/views.py:288-290 | as written, a search for "BMI" misses a current trait named "bmi", which the case-insensitive search finds |
| TraitViews.SearchIgnoringCase | trait_browser/views.py:285-313 | corrected: the same filters as search(), with the name or description matched regardless of ASCII case |
| TraitViews.SearchIgnoresQueryCase | trait_browser/views.py:288-290 | the case of the query does not change what the case-insensitive search finds |
| TraitViews.SearchIgnoringCaseWidens | trait_browser/views.py:288-290 | everything search() finds as written, the case-insensitive search finds too |
| TraitViews.PhvAutocomplete | trait_browser/views.py:236-240 | a trait is offered exactly when its study version is current and, when a query is typed, its phv starts with the query |
| TraitViews.TaggablePhvAutocomplete | trait_browser/views.py:254-267 | staff are offered every current trait, anyone else only current traits of their taggable studies, narrowed by phv prefix; every trait offered is one the user may tag |
| TraitViews.TaggableOffersWhatCanBeTagged | trait_browser/views.py:114-119 | a user may tag a trait exactly when staff or the trait's study is one of theirs, and with no query typed the taggable autocomplete offers a current trait exactly then |
| TraitViews.PhvAutocompleteNarrows | trait_browser/views.py:238-239 | typing more of an accession never offers a trait the shorter query did not |
| TraitViews.PhvAutocompleteFindsExact | trait_browser/views.py:236-240 | typing a trait's whole phv offers that trait while its study version is current |
| TraitViews.FlavorNameAutocomplete | trait_browser/views.py:277-282 | a harmonized trait is offered exactly when no query is typed or its flavor name starts with the query; there is no deprecation filter |
| TraitViews.NarrowSearches | trait_browser/views.py:407-410 | filtering on text and type and then once per study leaves exactly the records matching the text, the type and every study |
| TraitViews.NarrowStep | trait_browser/views.py:409-410 | one more study filter narrows the matches for the first studies to the matches for one study more |
| TraitViews.CheckSearchExistence | trait_browser/views.py:405-412 | as written: no record is returned exactly when no record has the text and type and is linked to every study; a returned record is one of the stored ones |
| TraitViews.UnrestrictedMatchesRestricted | trait_browser/views.py:409-411 | a record made for a search restricted to a study is returned for the same text over no studies |
| TraitViews.FindSameSearch | trait_browser/views.py:405-412 | corrected: no record is returned exactly when no record is for the same text, type and set of studies, and a returned record is for exactly that search |
| TraitViews.CountedOnce | trait_browser/views.py:358-360 | raising one record's search count keeps every other record and changes only that count |
| TraitViews.CountedOnceWellFormed | trait_browser/views.py:358-360 | raising a count keeps the search log well formed: distinct keys, positive counts, one record per search |
| TraitViews.CountedOnceHolds | trait_browser/views.py:358-360 | the raised record is in the log afterwards, and the log stays well formed |
| TraitViews.AppendWellFormed | trait_browser/views.py:362-367 | adding a record for a new search under the next key keeps the log well formed |
| TraitViews.SearchLog.constructor | trait_browser/views.py:356-367 | the search log starts empty |
| TraitViews.SearchLog.RecordSearch | trait_browser/views.py:355-367 | an existing record for the same search has its count raised by one and nothing else changes; otherwise one record with count 1 and those studies is added under the next key; the log stays well formed |
| TagModels.UniqueAfterSave | tags/models.py:19 | writing a tag whose lower_title no other row has keeps lower titles unique |
| TagModels.TagStore.constructor | tags/models.py:14-183 | the store starts empty and satisfies the database constraints |
| TagModels.TagStore.SaveTag | tags/models.py:28-38 | the title is stripped and lower_title set to its lower case; the write succeeds exactly when no other tag has that lower_title (an IntegrityError otherwise, leaving the tags unchanged); an insert takes a fresh key |
| TagModels.TagStore.Archive | tags/models.py:84-92 | the tagged trait's archived flag is set and nothing else changes |
| TagModels.TagStore.Unarchive | tags/models.py:94-102 | the tagged trait's archived flag is cleared and nothing else changes |
| TagModels.TagStore.HardDelete | tags/models.py:114-116 | the tagged trait is removed, and its review, response and decision with it |
| TagModels.TagStore.Delete | tags/models.py:104-112 | an unreviewed tagged trait is removed, one whose review needs followup is archived and keeps its review, and one whose review is confirmed raises DeleteNotAllowedError and stays as it was |
| TagModels.TagStore.DeleteReview | tags/models.py:145-149 | a review with a study response raises DeleteNotAllowedError and stays; otherwise the review and its decision are removed |
| TagModels.TagStore.HardDeleteReview | tags/models.py:151-153 | the review is removed whatever hangs from it, with its response and decision |
| TagModels.TagStore.CreateTaggedTrait | tags/models.py:75 | full_clean refuses a (trait, tag) pair that is already tagged and nothing changes; otherwise one non-archived tagged trait is added under the next key |
| TagModels.TagStore.RollBackTaggedTraits | tags/views.py:75-82 | a failed bulk tagging leaves the tagged traits as they were before it, while the keys it used stay used |
| TagModels.TagStore.DeleteSelection | tags/test_models.py:1377-1482 | bulk delete raises and changes nothing when any selected tagged trait is confirmed; otherwise the unreviewed ones are removed and the others archived |
| TagModels.SavedTagIdempotent | tags/models.py:34-36 | saving a tag twice writes the same row as saving it once |
| TagModels.SurroundingSpaceIgnored | tags/models.py:35 | whitespace around a title changes neither the saved title nor lower_title |
| TagModels.CaseVariantsCollide | tags/models.py:19 | two titles equal up to ASCII case and surrounding whitespace get the same lower_title, so once one is saved the other is refused |
| TagModels.ArchiveIdempotent | tags/models.py:84-102 | archiving or unarchiving twice is doing it once, and touches only the one flag of the one row |
| TagQuerysets.ReviewStatusPartition | tags/test_models.py:1037-1105 | every tagged trait is exactly one of unreviewed, reviewed for followup and reviewed as confirmed |
| TagQuerysets.FollowupStagesNest | tags/test_models.py:1157-1251 | need_decision is within need_study_response, which is within need_followup |
| TagQuerysets.UnreviewedInNoStage | tags/querysets.py:9-11 | no status filter other than unreviewed() holds an unreviewed tagged trait |
| TagQuerysets.DecisionWithoutResponse | tags/test_models.py:1157-1197 | a followup review decided without a study response needs no response and no decision, and counts as confirmed exactly when the decision is to confirm |
| TagQuerysets.ArchivedPartition | tags/models.py:47-59 | archived() and non_archived() split the tagged traits in two |
| TagQuerysets.ArchiveMovesOne | tags/models.py:84-92 | archiving one tagged trait moves it from non_archived() to archived() and moves nothing else |
| TagViews.TaggableStudiesTest | tags/views.py:35-36 | in the schema where a user has UserData rows, the test fails with an AttributeError exactly when the user has none, and otherwise passes exactly when the first row names a taggable study |
| TagViews.TaggedTraitCreateFormValid | tags/views.py:50-53 | the requesting user's tagged trait is saved under a new key unless the (trait, tag) pair is already tagged, in which case nothing changes |
| TagViews.NewRowsStep | tags/views.py:77-82 | saving the next trait of the batch adds its row under the next key |
| TagViews.BatchAllowedStep | tags/views.py:77-82 | while the batch so far is admissible, the next trait's pair is free exactly when the longer batch is admissible |
| TagViews.TakenBlocksBatch | tags/views.py:81 | a pair already saved, or added earlier in the batch, makes the batch inadmissible |
| TagViews.FreeExtendsBatch | tags/views.py:81 | a free pair whose trait is new to the batch keeps the batch admissible |
| TagViews.NotAllowedExtends | tags/views.py:77-82 | a batch whose first traits cannot be saved cannot be saved |
| TagViews.SaveNext | tags/views.py:78-82 | one pass saves the next trait's row exactly when the batch stays admissible; otherwise the rows are rolled back, the keys already used stay used, and the whole batch is inadmissible |
| TagViews.SaveBatch | tags/views.py:77-82 | the batch succeeds exactly when no trait is already tagged with the tag and no trait is listed twice, and then adds one row per trait under consecutive keys; otherwise a ValidationError leaves the rows unchanged, refused at a trait all of whose predecessors could be saved, with one key used per predecessor |
| TagViews.ManyTaggedTraitsCreate.constructor | tags/views.py:64-73 | the view starts with no tag and no traits |
| TagViews.ManyTaggedTraitsCreate.FormValid | tags/views.py:75-87 | corrected: the batch is saved all-or-nothing as above, and on success the view keeps the tag and the traits |
| TagViews.FormValidAsWritten | tags/views.py:75-82 | as written: any non-empty batch fails with TypeError before a row is saved; an empty batch leaves the tagged traits as they were |
| TagViews.BulkTaggingFailsAsWritten | tags/views.py:78-80 | a batch of one untagged trait, which the corrected view saves, makes the view as written fail |
| TraitModels.AccessionRoundTrip | trait_browser/models.py:311 | a zero-padded accession followed by ".v{version}.p{participant_set}" parses back to exactly the accession, version and participant set it was built from, for any prefix and pad width |
| TraitModels.FullAccessionsRoundTrip | trait_browser/models.py:273-275 | the study-version (phs), dataset (pht, 6 digits) and variable (phv, 8 digits) full accessions each read back as the three numbers they were built from, so distinct inputs give distinct accessions |
| TraitModels.PhsShape | trait_browser/models.py:144-150 | phs is "phs" followed by at least six digits that read back as the study accession, and exactly nine characters when the accession is below one million |
| TraitModels.FlavorNameInjective | trait_browser/models.py:654-660 | within one trait set flavor, two harmonized traits with the same "{trait_name}_{flavor}" flavor name have the same trait name |
| TraitModels.FirstMaximal | trait_browser/models.py:232-237 | order_by('-i_version', '-i_date_added').first() is None exactly when the queryset is empty, and otherwise a member of it that no other member sorts after |
| TraitModels.LatestVersion | trait_browser/models.py:228-239 | Study.get_latest_version is None exactly when the study has no non-deprecated version; otherwise it is a non-deprecated version of this study |
| TraitModels.PreviousVersion | trait_browser/models.py:281-290 | get_previous_version is None exactly when no version of the same study has version <= this one and was added strictly earlier; otherwise it is such a version |
| TraitModels.PreviousIsEarlier | trait_browser/models.py:281-290 | the previous version is never the current version and sorts strictly before it by (version, date added) |
| TraitModels.TraitLatestVersion | trait_browser/models.py:591-604 | SourceTrait.get_latest_version is None when the study has no current version or that version holds no trait with this phv, the single matching trait when it holds one, and MultipleObjectsReturned when it holds several |
| TraitModels.Study.Save | trait_browser/models.py:139-142 | saving a study recomputes phs from the current accession |
| TraitModels.SourceStudyVersion.Save | trait_browser/models.py:267-279 | saving a study version recomputes full_accession from the study's phs, version and participant set, then dbgap_link from that full accession |
| TraitModels.SourceDataset.Save | trait_browser/models.py:336-353 | saving a dataset recomputes the pht full accession from its accession, version and the study version's participant set, then the link naming the study version and dataset |
| TraitModels.SourceTrait.Save | trait_browser/models.py:547-562 | saving a source trait recomputes the phv full accession and the variable link from the dataset's study version |
| TraitModels.HarmonizedTrait.Save | trait_browser/models.py:645-660 | saving a harmonized trait sets trait_flavor_name to "{trait_name}_{flavor}" of its trait set; with no trait set version it raises AttributeError and changes nothing |
| TraitQuerysets.CurrentDatasets | trait_browser/querysets.py:8-10 | current() keeps exactly the datasets whose study version is not deprecated |
| TraitQuerysets.CurrentSourceTraits | trait_browser/querysets.py:15-17 | current() keeps exactly the source traits whose dataset's study version is not deprecated |
| TraitQuerysets.CurrentHarmonizedTraits | trait_browser/querysets.py:22-24 | current() keeps exactly the harmonized traits whose trait set version is not deprecated |
| TraitQuerysets.CurrentIdempotent | trait_browser/querysets.py:6-24 | applying current() twice is the same as applying it once, and it never grows a queryset |
| TraitForms.CleanCharField | trait_browser/forms.py:39-44 | a CharField(max_length=100, required=False) cleans to the stripped value exactly when that is at most 100 characters, and to the max-length error otherwise |
| TraitForms.LongWordsAreLong | trait_browser/forms.py:25-26 | keeping the words that are not among the short words is the same as keeping the words of three or more characters |
| TraitForms.CleanDescription | trait_browser/forms.py:17-29 | WatsonSearchField.clean fails with the max-length error exactly when the stripped value is over 100 characters, with "Only short words entered." exactly when there were words and all were shorter than three characters, and otherwise gives text whose words are the long input words in order |
| TraitForms.LongWordsFacts | trait_browser/forms.py:24-29 | there are words but no long words exactly when every word is short, and the space-joined long words split back into the long words |
| TraitForms.CleanDescriptionBlank | trait_browser/forms.py:50-56 | a blank or whitespace-only description cleans to the empty string without an error |
| TraitForms.JoinedWordsStripped | trait_browser/forms.py:29 | non-empty, space-free words joined by single spaces are unchanged by strip |
| TraitForms.CleanedNoLonger | trait_browser/forms.py:24-29 | dropping the short words never makes the rejoined text longer than the stripped input |
| TraitForms.CleanDescriptionIdempotent | trait_browser/forms.py:17-29 | cleaning an already cleaned description gives it back unchanged |
| TraitForms.CleanedWords | trait_browser/forms.py:17-29 | the cleaned description is stripped, within the 100-character limit, and the single-space join of its own words, which are the long words of the input |
| TraitForms.CleanedIsJoin | trait_browser/forms.py:26-29 | the cleaned description is the long words of the stripped input joined by single spaces |
| TraitForms.SearchFormClean | trait_browser/forms.py:90-98 | each field has an error exactly when its own cleaning fails, and the form-wide "Either variable name or description must be filled in." is raised exactly when both fields cleaned to the empty string |
| TraitForms.SearchFormValidity | trait_browser/forms.py:173-181 | a search form is valid exactly when both fields clean and the name or the cleaned description is non-empty; a blank name with only short description words gets the field error and not the form-wide one |
| RecipeModels.BeforeFinalNewline | recipes/models.py:11 | the text a pattern ending in '$' must cover is the input itself or, when the input ends with "\n", the input without that one final "\n" |
| RecipeModels.AlphanumericUnderscoreAccepts | recipes/models.py:11-12 | validate_alphanumeric_underscore accepts exactly the strings of letters, digits and underscores, and such strings followed by one "\n" |
| RecipeModels.JoinedLinesEnd | recipes/models.py:14 | lines joined by "\n" whose last line is a "value: description" line do not end with "\n" |
| RecipeModels.EncodedValuesAcceptsLines | recipes/models.py:14-15 | one or more "\n"-joined lines, each holding ": " and no "\n", pass validate_encoded_values |
| RecipeModels.EncodedValuesRejectsNoSpace | recipes/models.py:14-15 | "1:blue", without the space after the colon, is refused |
| RecipeModels.EncodedValuesRejectsDash | recipes/models.py:14-15 | "1- blue", without a colon, is refused |
| RecipeModels.EncodedValuesAcceptsSpacedCategory | recipes/models.py:14-15 | a category holding spaces, as in "dark blue: 1", is accepted |
| RecipeModels.LinePairs | recipes/models.py:97 | the lines give one (category, value) pair each, in order, exactly when every line splits on ": " into two parts, and each pair rejoined with ": " is its line; otherwise ValueError |
| RecipeModels.PairsToDict | recipes/models.py:97 | dict() of the pairs holds exactly the categories that occur, each with the value of its last occurrence |
| RecipeModels.EncodedValuesDict | recipes/models.py:88-97 | get_encoded_values_dict succeeds exactly when every "\r\n"-separated line splits on ": " into exactly two parts |
| RecipeModels.EncodedValuesDictOfEmpty | recipes/models.py:72-74 | a blank encoded_values, which the field allows, makes get_encoded_values_dict raise ValueError |
| RecipeModels.EncodedLineHasNoBreak | recipes/models.py:97 | a "category: value" line built from parts without separators holds no "\r\n" |
| RecipeModels.EncodedLineSplits | recipes/models.py:97 | such a line splits on ": " back into its category and value |
| RecipeModels.LinePairsOfLines | recipes/models.py:97 | lines that each split into a given pair parse to exactly those pairs |
| RecipeModels.EncodedValuesRoundTrip | recipes/models.py:88-97 | category/value pairs written one per "\r\n"-separated line parse back to the dict of those pairs, the last occurrence of a category winning |
| RecipeModels.RecipeStore.constructor | recipes/models.py:46 | an empty store satisfies the uniqueness invariant |
| RecipeModels.RecipeStore.SaveUnit | recipes/models.py:44-46 | saving a unit recipe succeeds exactly when no other row has the same (creator, name), writes only that row, keeps the pair unique, and changes nothing when refused |
| RecipeModels.RecipeStore.SaveHarmonizationRecipe | recipes/models.py:77-78 | saving a harmonization recipe succeeds exactly when no other row has the same (creator, name), writes only that row, keeps the pair unique, and changes nothing when refused |
| RecipeForms.UnitRecipeErrorsFlagged | recipes/forms.py:22-87 | an error is in the list UnitRecipeCleanMixin.clean builds exactly when one of its checks flags it |
| RecipeForms.TraitsRequiredFlags | recipes/forms.py:30-36 | the missing-variables error is on the age, phenotype and harmonized fields, and only those, exactly when no harmonized variable and not both age and phenotype variables are given |
| RecipeForms.AgeBatchOverlapFlags | recipes/forms.py:40-46 | without harmonized variables, the age/batch repeat error names the shared trait ids and sits on the age and batch fields only |
| RecipeForms.PhenotypeBatchOverlapFlags | recipes/forms.py:48-54 | without harmonized variables, the phenotype/batch repeat error names the shared trait ids and sits on the phenotype and batch fields only |
| RecipeForms.AgePhenotypeOverlapFlags | recipes/forms.py:56-62 | without harmonized variables, the age/phenotype repeat error names the shared trait ids and sits on the age and phenotype fields only |
| RecipeForms.StudyErrorFlags | recipes/forms.py:63-74 | source variables from several global studies put blank errors on age and phenotype, and on batch only when batch variables were given |
| RecipeForms.HarmonizedExcludesSource | recipes/forms.py:75-86 | with harmonized variables, the only error is the mixing one, on each source field that is non-empty and on the harmonized field exactly when some source field is non-empty |
| RecipeForms.WellFormedSourceUnit | recipes/forms.py:22-87 | age and phenotype variables with no repeats between roles, all from one global study, pass clean without an error |
| RecipeForms.RecipeForm.UnitRecipeClean | recipes/forms.py:22-87 | the mixin's clean adds exactly the errors of its checks in its order, and raises the several-studies error exactly when the source variables span more than one global study |
| RecipeForms.RecipeForm.UnitRecipeFormClean | recipes/forms.py:155-165 | a raised study error becomes the form-wide error and skips the name check; otherwise, on creation only, a name the user already used flags the name field |
| RecipeForms.RecipeForm.HarmonizationRecipeFormClean | recipes/forms.py:250-266 | on creation, a name the user already used flags the name field, and units made by more than one creator flag the units field |
| RecipeForms.OneCreatorAccepted | recipes/forms.py:261-265 | units all made by one user never trip the creator check |

## Left out

- Database connections, cursors, locks, backups, logging and console output are not modelled. Rows the queries return are inputs, and so are the files the commands read. The text a file would hold is a result.
- `_get_source_db`, `_lock_source_db` and the per-table loops of import_db.py (`_import_new_*`, `_update_*_per_query_row`, `_import_new_m2m_field`) are not modelled. They feed cursor rows through the modelled helpers, so they add I/O and nothing more.
- `_fix_timezone` in import_db.py is left out. It calls pytz and Django timezone code, and datetimes are not modelled.
- The full-text search through django-watson is left out. Only the plain substring search in trait_browser/views.py is modelled.
- Rendering, tables, templates, admin classes, URL configuration, success messages and redirects are left out as presentation.
- In export_tagging.py, `_dump_tags_json` (a `dumpdata` call), the README copy, the tar and compress steps and `_make_output_directory` run external processes or touch the file system. They are left out, and so is the `handle` that strings them together.
- ExportTagging.ParseDateStamp: it reads only stamps of the fixed width the command writes, with years 1000 to 9999. It does not model the leniency of `strptime` towards shorter fields.
- VersionFile.ParseVersionJson: it reads version.json in the layout the save methods write. Other JSON spellings of the same two numbers (other spacing or key order) are not parsed.
- PyStr.Lower: `str.lower()` is modelled for ASCII letters only. Unicode case mapping is not.
- TagViews.SaveBatch: it models the evidently intended bulk tagging, without the `recommended=` keyword (see Findings). As written, `TaggedTrait(..., recommended=...)` in tags/views.py:78-80 raises TypeError at the first trait, because TaggedTrait in tags/models.py:62-75 has no such field. Also, importing tags/views.py fails before any of its views exists: `from . import forms` (tags/views.py:11) runs `from profiles.models import UserData` (tags/forms.py:11), which raises ImportError because profiles/models.py:47-52 defines only Profile. Were that import fixed, `forms.ManyTaggedTraitsForm` (tags/views.py:68) would still raise AttributeError, since tags/forms.py:80-103 comments it out.
- TagViews.TaggableStudiesTest: it models the schema where users have UserData rows, with `userdata_set.first()` None for a user who has none. As the repository stands, a user has a one-to-one Profile (profiles/models.py:47-52) and no `userdata_set`, so tags/views.py:36 raises AttributeError for every user, and the module cannot even be imported (see TagViews.SaveBatch).
- TagViews.ManyTaggedTraitsCreate.FormValid: the same as TagViews.SaveBatch; the as-written behaviour is TagViews.FormValidAsWritten.
- TraitViews.PhvAutocomplete: the query goes into `__regex=r'^{}'` (trait_browser/views.py:239) unescaped, so regex metacharacters in it are interpreted by MySQL. The model reads the query as a literal prefix, which it is for queries of digits.
- TraitViews.TaggablePhvAutocomplete: the same regex reading as TraitViews.PhvAutocomplete (trait_browser/views.py:266).
- TraitViews.FlavorNameAutocomplete: the same regex reading, on the flavor name (trait_browser/views.py:281).
- TraitViews.Search: `__contains` is a case-sensitive match on MySQL, and the model matches case-sensitively as the code does. The docstring's promise of a case-insensitive search is TraitViews.SearchIgnoringCase (see Findings).
- TraitViews.CheckSearchExistence: `param_text=query` compares the text exactly in the model. Under a case-insensitive MySQL collation it would also match text that differs in case or in trailing spaces.
- TraitViews.FindSameSearch: the same exact comparison of the text as TraitViews.CheckSearchExistence.
- PopulateTraitModels.GetDb: the model stops at the arguments of mysql.connector.connect. A failure inside connect itself, such as an option name it does not know or a server it cannot reach, is not modelled.
- ImportDb.FixBytearray: a byte array is modelled as the text it decodes to. The connection is made with charset latin1 (import_db.py:60), and `decode('utf-8')` (import_db.py:88) raises UnicodeDecodeError on bytes that are not UTF-8; that failure is not modelled.
- ExportTagging.ReplaceAll: its own contract says only that a string without the pattern is unchanged. The replacement of occurrences is stated by ExportTagging.ReplaceAllSkip, ExportTagging.ReplaceAllAfter, ExportTagging.ReplaceWhole and ExportTagging.ReplaceLastOccurrence, and the data dictionary names by ExportTagging.TaggedTraitDictionaryFileName and ExportTagging.TagsDumpDictionaryFileName.
- ImportDb.ModelObjects.UpdateFromArgs: the model's save() is a function of the object's fields, standing for the overrides that recompute phs, full_accession, dbgap_link and trait_flavor_name from the object and the related objects it reads, which an update leaves alone. A save() that raises is not modelled. The same holds for ImportDb.ModelObjects.UpdateFromArgsAsWritten.
- IncrementVersion.Command.constructor: the command's major and minor numbers are unset until version.json is loaded. The model starts them at 0, and every path of `handle` loads them before reading them.
- The `add_arguments` methods and the verbosity options of the commands are left out. The flags that reach the modelled code are parameters.
- TagModels.TagStore.DeleteReview: it follows the code, which refuses a review delete only when a study response exists. A test also expects the delete to be refused when a decision exists, but no code does that.
- ImportDb.FixNull: it follows the code's signature. Some tests pass a `types` argument that the code does not take.
- TaggedTrait.get_latest_version and apply_previous_tags appear in the test files but do not exist in tags/models.py, so they are not modelled. The same holds for review, response and decision create and update views, a per-user one-at-a-time review session, and a decision workflow.
- tags/admin.py is presentation and is not part of this model, including its delete permission, which disagrees with its own test.
- ExportTagging.TaggedTraitFileLines: the file has one line per row only when no exported value holds a tab or a newline. The model states the line count under that condition and does not prove it for data from the database.
- SourceDataset.get_latest_version (trait_browser/models.py:364-378) is not modelled. Only the source-trait version of it is.
- populate_source_traits.py imports a module that does not exist. export_tagging_data_for_collaborators.py is a shell script that repeats export_tagging.py. Neither is part of this model.

## Findings

| source | as written | input that shows it | evidently intended | confidence | as-written member | corrected member |
|---|---|---|---|---|---|---|
| trait_browser/management/commands/import_db.py:359 | `updates += 0` when a field differs, so `_update_model_object_from_args` always returns False | an object with fields {i_id: 1, i_name: "old"} and args with i_name "new": the field is assigned, yet the result is False | `updates += 1`, so the result is True exactly when some field changed | high; not executed | ImportDb.ModelObjects.UpdateFromArgsAsWritten, ImportDb.UpdateGoesUnreported | ImportDb.ModelObjects.UpdateFromArgs, ImportDb.ChangesCounted |
| tags/management/commands/export_tagging.py:170 | `el[:2]` writes each column's name and its ORM lookup path to the data dictionary | the tag_pk column gives the line "tag_pk\ttag__pk" where its description belongs | `(el[0], el[2])`, the column name and its description, to match the header "column_name\tcolumn_description" | high; not executed | ExportTagging.TaggedTraitDictionaryTextAsWritten, ExportTagging.DictionaryAsWrittenGivesPaths | ExportTagging.TaggedTraitDictionaryEntries, ExportTagging.TaggedTraitDictionaryJoin, ExportTagging.ExportCommand.MakeTaggedTraitDataDictionaryFile |
| trait_browser/views.py:405-412 | check_search_existence keeps every record linked to each given study, so it also matches a record linked to more studies, or a search with none | a record "bmi", type "source", linked to study 7; a search for "bmi" with no studies counts as that record | the record with the same text, type and exactly the same set of studies | medium; not executed | TraitViews.CheckSearchExistence, TraitViews.UnrestrictedMatchesRestricted | TraitViews.FindSameSearch, used by TraitViews.SearchLog.RecordSearch |
| trait_browser/views.py:288-313 | the docstring says the search is case-insensitive, but it filters with `__contains`, a case-sensitive match on MySQL | a current source trait named "bmi" with an empty description; a search for "BMI" does not find it | `__icontains`, matching the name or description regardless of case | medium; not executed | TraitViews.Search, TraitViews.SearchMissesOtherCase | TraitViews.SearchIgnoringCase, TraitViews.SearchIgnoresQueryCase, TraitViews.SearchIgnoringCaseWidens |
| tags/views.py:78-80 | each TaggedTrait is built with `recommended=`, a keyword the model has no field for, so Model.__init__ raises TypeError | bulk tagging one trait that no row tags yet with the tag: the view fails and saves nothing | build each TaggedTrait from the tag, the trait and the creator only, as the single-trait view TaggedTraitCreate does (tags/views.py:50-53) | high; not executed | TagViews.FormValidAsWritten, TagViews.BulkTaggingFailsAsWritten | TagViews.SaveBatch, TagViews.ManyTaggedTraitsCreate.FormValid |
