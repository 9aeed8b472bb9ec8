/**
 * The export_tagging management command: the tagged-variable export, its
 * filters, the tab-delimited files and data dictionaries it writes, and
 * the date stamp that names them.  Files are modelled as the text written
 * to each path.
 */
module ExportTagging {
  import opened Wrappers
  import opened PyStr

  // ---------------------------------------------------------------------
  // Column constants
  // ---------------------------------------------------------------------

  /** The fields of the tags JSON dump, each with its description. */
  const TagsJsonFields: seq<(string, string)> := [
    ("model", "indicates this is part of the \"tags.tag\" model, an artifact of the data export process"),
    ("pk", "the primary key, or unique id number of the tag"),
    ("fields", "the field properties for each tag object"),
    ("created", "timestamp for creation time of the tag"),
    ("modified", "timestamp for last modified time of the tag"),
    ("title", "formatted title of the tag; the general phenotype concept"),
    ("lower_title", "a conversion of the \"title\" field to all lowercase, in order to enforce a unique constraint on case-insensitive tag title"),
    ("description", "a brief description of the phenotype concept represented by the tag"),
    ("instructions", "detailed instructions describing which kinds of variables should have the tag applied or not"),
    ("creator", "id number for the user who created the tag")
  ]

  /**
   * TAGGED_TRAIT_COLUMNS without its third element: each column's output
   * name and the lookup path of its value.
   */
  const TaggedTraitColumns: seq<(string, string)> := [
    ("tag_pk", "tag__pk"),
    ("tag_title", "tag__title"),
    ("variable_phv", "trait__i_dbgap_variable_accession"),
    ("variable_full_accession", "trait__full_accession"),
    ("dataset_full_accession", "trait__source_dataset__full_accession"),
    ("study_full_accession", "trait__source_dataset__source_study_version__full_accession"),
    ("study_name", "trait__source_dataset__source_study_version__study__i_study_name"),
    ("study_phs", "trait__source_dataset__source_study_version__study__pk"),
    ("study_version", "trait__source_dataset__source_study_version__i_version"),
    ("created", "created"),
    ("modified", "modified")
  ]

  /** The third element of each column of TAGGED_TRAIT_COLUMNS, in order: its description. */
  const TaggedTraitColumnDescriptions: seq<string> := [
    "primary key, or unique id for the tag; corresponds to \"pk\" from the _TOPMed_DCC_tags.json file",
    "formatted title of tag; corresponds to \"title\" from the _TOPMed_DCC_tags.json file",
    "dbGaP variable identifier for the variable, called phv",
    "full dbGaP accession for the variable, including phv, variable version number, and participant set number",
    "full dbGaP accession for the dataset (table) the variable is from, including pht, dataset version number, and participant set number",
    "full dbGaP accession for the study, including phs, study version number, and participant set number",
    "dbGaP study name",
    "dbGaP identifier for the study, called phs",
    "dbGaP study version number",
    "date the tagged variable (link between tag and variable) was created at the DCC",
    "date the tagged variable (link between tag and variable) was last modified at the DCC"
  ]

  const Prefix: string := "TOPMed_DCC"

  function Firsts(pairs: seq<(string, string)>): seq<string> {
    seq(|pairs|, i requires 0 <= i < |pairs| => pairs[i].0)
  }

  function Seconds(pairs: seq<(string, string)>): seq<string> {
    seq(|pairs|, i requires 0 <= i < |pairs| => pairs[i].1)
  }

  /** Pairs up two sequences position by position, as far as the shorter goes. */
  function Zip(xs: seq<string>, ys: seq<string>): (pairs: seq<(string, string)>)
    ensures |pairs| == if |xs| < |ys| then |xs| else |ys|
  {
    if |xs| == 0 || |ys| == 0 then [] else [(xs[0], ys[0])] + Zip(xs[1..], ys[1..])
  }

  /** TAGGED_TRAIT_COLUMN_NAMES. */
  function ColumnNames(): seq<string> { Firsts(TaggedTraitColumns) }

  /** TAGGED_TRAIT_VALUES_TO_RETRIEVE. */
  function ValuesToRetrieve(): seq<string> { Seconds(TaggedTraitColumns) }

  /**
   * The column names and the lookup paths are projections of the same
   * columns, position by position: zipped back together they give the
   * columns again.
   */
  lemma {:induction false} ProjectionsAligned(pairs: seq<(string, string)>)
    ensures |Firsts(pairs)| == |Seconds(pairs)| == |pairs|
    ensures Zip(Firsts(pairs), Seconds(pairs)) == pairs
  {
    if |pairs| > 0 {
      ProjectionsAligned(pairs[1..]);
      assert Firsts(pairs)[1..] == Firsts(pairs[1..]);
      assert Seconds(pairs)[1..] == Seconds(pairs[1..]);
    }
  }

  // ---------------------------------------------------------------------
  // The exported rows
  // ---------------------------------------------------------------------

  /**
   * A tagged trait joined with its trait, dataset, study version and study:
   * whether it is archived, whether its study version is deprecated, the
   * pk of its study, and the text of every value it can be exported with,
   * by lookup path.
   */
  datatype TaggedTraitRecord = TaggedTraitRecord(archived: bool, versionDeprecated: bool, study: nat,
                                                 values: map<string, string>)

  datatype ExportError = DoesNotExist

  predicate Retrievable(t: TaggedTraitRecord) {
    forall p :: p in ValuesToRetrieve() ==> p in t.values
  }

  /** values_list(*TAGGED_TRAIT_VALUES_TO_RETRIEVE) for one tagged trait. */
  function ValuesList(t: TaggedTraitRecord): (row: seq<string>)
    requires Retrievable(t)
    ensures |row| == |ValuesToRetrieve()|
  {
    seq(|ValuesToRetrieve()|, i requires 0 <= i < |ValuesToRetrieve()| => t.values[ValuesToRetrieve()[i]])
  }

  /** The filter chain of _get_tagged_trait_data, for one tagged trait. */
  predicate Kept(t: TaggedTraitRecord, studyPk: Option<nat>, includeArchived: bool, includeDeprecated: bool) {
    (includeArchived || !t.archived) &&
    (includeDeprecated || !t.versionDeprecated) &&
    (studyPk.None? || t.study == studyPk.value)
  }

  /** The tagged traits the filters keep, in their original order. */
  function Exported(traits: seq<TaggedTraitRecord>, studyPk: Option<nat>, includeArchived: bool, includeDeprecated: bool)
    : (r: seq<TaggedTraitRecord>)
    ensures |r| <= |traits|
    ensures forall t :: t in r <==> t in traits && Kept(t, studyPk, includeArchived, includeDeprecated)
  {
    if |traits| == 0 then []
    else
      var rest := Exported(traits[1..], studyPk, includeArchived, includeDeprecated);
      assert forall t :: t in traits <==> t == traits[0] || t in traits[1..];
      if Kept(traits[0], studyPk, includeArchived, includeDeprecated) then [traits[0]] + rest else rest
  }

  /** The value lists of the tagged traits, one row each. */
  function ValuesRows(ts: seq<TaggedTraitRecord>): (rows: seq<seq<string>>)
    requires forall t :: t in ts ==> Retrievable(t)
    ensures |rows| == |ts|
    ensures forall i :: 0 <= i < |ts| ==> rows[i] == ValuesList(ts[i])
  {
    seq(|ts|, i requires 0 <= i < |ts| => ValuesList(ts[i]))
  }

  /**
   * _get_tagged_trait_data: archived tagged traits are left out unless
   * includeArchived, those of deprecated study versions unless
   * includeDeprecated, and a study pk restricts the rows to that study,
   * which must exist.
   */
  function GetTaggedTraitData(traits: seq<TaggedTraitRecord>, studies: set<nat>, studyPk: Option<nat>,
                              includeArchived: bool, includeDeprecated: bool): (r: Result<seq<seq<string>>, ExportError>)
    requires forall t :: t in traits ==> Retrievable(t)
    ensures r.Err? <==> studyPk.Some? && studyPk.value !in studies
    ensures r.Ok? ==> forall row :: row in r.value <==>
              exists t :: t in traits && Kept(t, studyPk, includeArchived, includeDeprecated) && row == ValuesList(t)
  {
    if studyPk.Some? && studyPk.value !in studies then Err(DoesNotExist)
    else
      var kept := Exported(traits, studyPk, includeArchived, includeDeprecated);
      var rows := ValuesRows(kept);
      assert forall row :: row in rows <==> exists t :: t in kept && row == ValuesList(t) by {
        forall row | row in rows ensures exists t :: t in kept && row == ValuesList(t) {
          var i :| 0 <= i < |rows| && rows[i] == row;
          assert kept[i] in kept;
        }
        forall t | t in kept ensures ValuesList(t) in rows {
          var i :| 0 <= i < |kept| && kept[i] == t;
          assert rows[i] == ValuesList(t);
        }
      }
      Ok(rows)
  }

  /**
   * The call the command makes: without a study pk no rows come from an
   * archived tagged trait or a deprecated study version, and every other
   * tagged trait gives a row.
   */
  lemma DefaultExport(traits: seq<TaggedTraitRecord>, studies: set<nat>, t: TaggedTraitRecord)
    requires forall t :: t in traits ==> Retrievable(t)
    requires t in traits
    ensures GetTaggedTraitData(traits, studies, None, false, false).Ok?
    ensures !t.archived && !t.versionDeprecated ==> ValuesList(t) in GetTaggedTraitData(traits, studies, None, false, false).value
    ensures forall row :: row in GetTaggedTraitData(traits, studies, None, false, false).value ==>
              exists u :: u in traits && !u.archived && !u.versionDeprecated && row == ValuesList(u)
  {
  }

  // ---------------------------------------------------------------------
  // Tab-delimited text
  // ---------------------------------------------------------------------

  /** A cell that can be written between tabs on one line. */
  predicate Plain(s: string) {
    '\n' !in s && '\t' !in s
  }

  predicate PlainRow(row: seq<string>) {
    |row| >= 1 && forall j :: 0 <= j < |row| ==> Plain(row[j])
  }

  /** '\t'.join(row). */
  function TabLine(row: seq<string>): string {
    JoinWith("\t", row)
  }

  function TabLines(rows: seq<seq<string>>): (lines: seq<string>)
    ensures |lines| == |rows|
  {
    seq(|rows|, i requires 0 <= i < |rows| => TabLine(rows[i]))
  }

  /** A line joined from plain cells reads back, split on tabs, as the cells, and holds no newline. */
  lemma TabLineRoundTrip(row: seq<string>)
    requires PlainRow(row)
    ensures SplitOn(TabLine(row), "\t") == row
    ensures !Contains(TabLine(row), "\n")
  {
    forall j | 0 <= j < |row| ensures !Contains(row[j], "\t") {
      MissingCharNotContains(row[j], "\t", '\t');
    }
    SplitOnJoin(row, "\t");
    JoinWithAvoids("\t", row, '\n');
    MissingCharNotContains(TabLine(row), "\n", '\n');
  }

  /** Text split into lines gives back the lines joined, when none holds a newline. */
  lemma LinesRoundTrip(lines: seq<string>)
    requires |lines| >= 1
    requires forall i :: 0 <= i < |lines| ==> !Contains(lines[i], "\n")
    ensures SplitOn(JoinWith("\n", lines), "\n") == lines
  {
    SplitOnJoin(lines, "\n");
  }


  // ---------------------------------------------------------------------
  // The tagged-variable file
  // ---------------------------------------------------------------------

  /** The header line of the tagged-variable file. */
  function HeaderLine(): string {
    TabLine(ColumnNames())
  }

  /** The lines of the tagged-variable file: the header line, then one line per row. */
  function TaggedTraitFileLineList(rows: seq<seq<string>>): seq<string> {
    [HeaderLine()] + TabLines(rows)
  }

  /** The text _make_tagged_trait_file writes. */
  function TaggedTraitFileText(rows: seq<seq<string>>): string {
    JoinWith("\n", TaggedTraitFileLineList(rows))
  }

  /** TAGGED_TRAIT_COLUMN_NAMES, evaluated. */
  const ColumnNameList: seq<string> := ["tag_pk", "tag_title", "variable_phv", "variable_full_accession",
    "dataset_full_accession", "study_full_accession", "study_name", "study_phs", "study_version", "created", "modified"]

  lemma ColumnNamesListed()
    ensures ColumnNames() == ColumnNameList
  {
  }

  lemma ColumnNameListWithoutNewlines()
    ensures forall j :: 0 <= j < |ColumnNameList| ==> '\n' !in ColumnNameList[j]
  {
  }

  lemma ColumnNameListWithoutTabs()
    ensures forall j :: 0 <= j < |ColumnNameList| ==> '\t' !in ColumnNameList[j]
  {
  }

  lemma ColumnNamesPlain()
    ensures PlainRow(ColumnNames())
  {
    ColumnNamesListed();
    ColumnNameListWithoutNewlines();
    ColumnNameListWithoutTabs();
  }

  /** A header and rows of plain cells, as tab-delimited lines, read back as the header and the rows. */
  lemma TabFileLines(header: seq<string>, rows: seq<seq<string>>)
    requires PlainRow(header)
    requires forall i :: 0 <= i < |rows| ==> PlainRow(rows[i])
    ensures var lines := SplitOn(JoinWith("\n", [TabLine(header)] + TabLines(rows)), "\n");
            |lines| == |rows| + 1 &&
            SplitOn(lines[0], "\t") == header &&
            forall i :: 0 <= i < |rows| ==> SplitOn(lines[i + 1], "\t") == rows[i]
  {
    var all := [TabLine(header)] + TabLines(rows);
    TabLineRoundTrip(header);
    forall i | 0 <= i < |rows| ensures SplitOn(all[i + 1], "\t") == rows[i] && !Contains(all[i + 1], "\n") {
      TabLineRoundTrip(rows[i]);
    }
    LinesRoundTrip(all);
  }

  /**
   * When no value holds a tab or a newline, the file has one line more than
   * there are rows; the first line splits into the column names and each
   * other line into its row.
   */
  lemma TaggedTraitFileLines(rows: seq<seq<string>>)
    requires forall i :: 0 <= i < |rows| ==> PlainRow(rows[i])
    ensures var lines := SplitOn(TaggedTraitFileText(rows), "\n");
            |lines| == |rows| + 1 &&
            SplitOn(lines[0], "\t") == ColumnNames() &&
            forall i :: 0 <= i < |rows| ==> SplitOn(lines[i + 1], "\t") == rows[i]
  {
    ColumnNamesPlain();
    TabFileLines(ColumnNames(), rows);
    assert TaggedTraitFileLineList(rows) == [TabLine(ColumnNames())] + TabLines(rows);
  }

  // ---------------------------------------------------------------------
  // Data dictionaries
  // ---------------------------------------------------------------------

  /** One "name<TAB>description" line per entry: '\t'.join(el) of each pair. */
  function EntryLines(entries: seq<(string, string)>): (lines: seq<string>)
    ensures |lines| == |entries|
  {
    seq(|entries|, i requires 0 <= i < |entries| => entries[i].0 + "\t" + entries[i].1)
  }

  /** A data dictionary: its header line and a newline, then the entry lines joined by newlines. */
  function DictionaryText(header: string, entries: seq<(string, string)>): string {
    header + "\n" + JoinWith("\n", EntryLines(entries))
  }

  predicate PlainEntries(entries: seq<(string, string)>) {
    forall i :: 0 <= i < |entries| ==> Plain(entries[i].0) && Plain(entries[i].1)
  }

  /** A dictionary with at least one entry is its header and entry lines, joined by newlines. */
  lemma DictionaryIsJoin(header: string, entries: seq<(string, string)>)
    requires |entries| >= 1
    ensures DictionaryText(header, entries) == JoinWith("\n", [header] + EntryLines(entries))
  {
    JoinWithCons("\n", header, EntryLines(entries));
  }

  /** A dictionary of plain entries reads back line by line as its header and entries. */
  lemma DictionaryLines(header: string, entries: seq<(string, string)>)
    requires '\n' !in header && |entries| >= 1 && PlainEntries(entries)
    ensures var lines := SplitOn(DictionaryText(header, entries), "\n");
            |lines| == |entries| + 1 && lines[0] == header &&
            forall i :: 0 <= i < |entries| ==> SplitOn(lines[i + 1], "\t") == [entries[i].0, entries[i].1]
  {
    var all := [header] + EntryLines(entries);
    DictionaryIsJoin(header, entries);
    MissingCharNotContains(header, "\n", '\n');
    forall i | 0 <= i < |entries|
      ensures SplitOn(all[i + 1], "\t") == [entries[i].0, entries[i].1] && !Contains(all[i + 1], "\n")
    {
      var pair := [entries[i].0, entries[i].1];
      assert JoinWith("\t", pair) == all[i + 1];
      TabLineRoundTrip(pair);
    }
    LinesRoundTrip(all);
  }

  /** The line of an entry whose name holds no tab splits into the name, then the pieces of the description. */
  lemma EntryLineFields(name: string, description: string)
    requires '\t' !in name
    ensures SplitOn(name + "\t" + description, "\t") == [name] + SplitOn(description, "\t")
  {
    MissingCharNotContains(name, "\t", '\t');
    SplitOnPiece(name, "\t", description);
  }

  const TagsDumpDictionaryHeader: string := "element_name\telement_description"

  /** The text _make_tags_dump_data_dictionary_file writes. */
  function TagsDumpDictionaryText(): string {
    DictionaryText(TagsDumpDictionaryHeader, TagsJsonFields)
  }

  lemma TagsJsonNamesListed()
    ensures Firsts(TagsJsonFields) == ["model", "pk", "fields", "created", "modified", "title", "lower_title",
                                       "description", "instructions", "creator"]
  {
  }

  lemma TagsJsonNamesTabFree()
    ensures forall i :: 0 <= i < |TagsJsonFields| ==> '\t' !in TagsJsonFields[i].0
  {
    TagsJsonNamesListed();
    assert forall i :: 0 <= i < |TagsJsonFields| ==> TagsJsonFields[i].0 == Firsts(TagsJsonFields)[i];
  }

  /**
   * The tags dictionary is its header line and one line per field of the
   * tags dump, joined by newlines; each entry line starts with the field's
   * name, then a tab, then the field's description.
   */
  lemma TagsDumpDictionaryShape()
    ensures TagsDumpDictionaryText() == JoinWith("\n", [TagsDumpDictionaryHeader] + EntryLines(TagsJsonFields))
    ensures |[TagsDumpDictionaryHeader] + EntryLines(TagsJsonFields)| == 1 + |TagsJsonFields| == 11
    ensures forall i :: 0 <= i < |TagsJsonFields| ==>
              SplitOn(EntryLines(TagsJsonFields)[i], "\t") == [TagsJsonFields[i].0] + SplitOn(TagsJsonFields[i].1, "\t")
  {
    DictionaryIsJoin(TagsDumpDictionaryHeader, TagsJsonFields);
    TagsJsonNamesTabFree();
    forall i | 0 <= i < |TagsJsonFields|
      ensures SplitOn(EntryLines(TagsJsonFields)[i], "\t") == [TagsJsonFields[i].0] + SplitOn(TagsJsonFields[i].1, "\t")
    {
      EntryLineFields(TagsJsonFields[i].0, TagsJsonFields[i].1);
    }
  }

  const TaggedTraitDictionaryHeader: string := "column_name\tcolumn_description"

  /**
   * _make_tagged_trait_data_dictionary_file as written: '\t'.join(el[:2])
   * puts each column's lookup path, not its description, after its name,
   * under the header "column_description".
   */
  function TaggedTraitDictionaryTextAsWritten(): (r: string)
    ensures r == JoinWith("\n", [TaggedTraitDictionaryHeader] + EntryLines(TaggedTraitColumns))
  {
    DictionaryIsJoin(TaggedTraitDictionaryHeader, TaggedTraitColumns);
    DictionaryText(TaggedTraitDictionaryHeader, TaggedTraitColumns)
  }

  /** Each column's name with its description. */
  function ColumnsDescribed(): seq<(string, string)> {
    Zip(ColumnNames(), TaggedTraitColumnDescriptions)
  }

  /** The data dictionary as evidently intended: each column's name and its description. */
  function TaggedTraitDictionaryText(): string {
    DictionaryText(TaggedTraitDictionaryHeader, ColumnsDescribed())
  }

  /** A line of two tab-free fields splits back into them. */
  lemma TwoFields(a: string, b: string)
    requires '\t' !in a && '\t' !in b
    ensures SplitOn(a + "\t" + b, "\t") == [a, b]
  {
    EntryLineFields(a, b);
    MissingCharNotContains(b, "\t", '\t');
    SplitOnWhole(b, "\t");
  }

  /**
   * As written, the first entry line of the dictionary splits into "tag_pk"
   * and "tag__pk": the column is described by its lookup path, not by its
   * description.
   */
  lemma DictionaryAsWrittenGivesPaths()
    ensures TaggedTraitDictionaryTextAsWritten() ==
              JoinWith("\n", [TaggedTraitDictionaryHeader] + EntryLines(TaggedTraitColumns))
    ensures SplitOn(EntryLines(TaggedTraitColumns)[0], "\t") == ["tag_pk", "tag__pk"]
  {
    DictionaryIsJoin(TaggedTraitDictionaryHeader, TaggedTraitColumns);
    FirstEntryLine();
  }

  lemma FirstEntryLine()
    ensures |TaggedTraitColumns| > 0 && SplitOn(EntryLines(TaggedTraitColumns)[0], "\t") == ["tag_pk", "tag__pk"]
  {
    assert TaggedTraitColumns[0] == ("tag_pk", "tag__pk");
    assert EntryLines(TaggedTraitColumns)[0] == "tag_pk" + "\t" + "tag__pk";
    TwoFields("tag_pk", "tag__pk");
  }

  /** The description of tag_pk is not its lookup path. */
  lemma FirstDescriptionIsNotPath()
    ensures TaggedTraitColumnDescriptions[0] != "tag__pk"
  {
    assert |TaggedTraitColumnDescriptions[0]| > 7;
  }

  /** The corrected dictionary is its header and one entry line per column, joined by newlines. */
  lemma TaggedTraitDictionaryJoin()
    ensures |ColumnsDescribed()| == |TaggedTraitColumns|
    ensures TaggedTraitDictionaryText() ==
              JoinWith("\n", [TaggedTraitDictionaryHeader] + EntryLines(ColumnsDescribed()))
  {
    assert |TaggedTraitColumnDescriptions| == |TaggedTraitColumns| == 11;
    DictionaryIsJoin(TaggedTraitDictionaryHeader, ColumnsDescribed());
  }

  /** Names zipped with descriptions give entry lines that split into each name, then its description's pieces. */
  lemma ZippedEntryFields(names: seq<string>, descriptions: seq<string>)
    requires |names| == |descriptions|
    requires forall i :: 0 <= i < |names| ==> '\t' !in names[i]
    ensures |EntryLines(Zip(names, descriptions))| == |names|
    ensures forall i :: 0 <= i < |names| ==>
              SplitOn(EntryLines(Zip(names, descriptions))[i], "\t") == [names[i]] + SplitOn(descriptions[i], "\t")
  {
    var lines := EntryLines(Zip(names, descriptions));
    ZipAt(names, descriptions);
    forall i | 0 <= i < |names|
      ensures SplitOn(lines[i], "\t") == [names[i]] + SplitOn(descriptions[i], "\t")
    {
      EntryLineFields(names[i], descriptions[i]);
    }
  }

  /**
   * In the corrected dictionary the entry line of each column of the
   * tagged-variable file, in order, starts with the column's name and a
   * tab, and the rest is the column's description.
   */
  lemma TaggedTraitDictionaryEntries()
    ensures |ColumnsDescribed()| == |ColumnNames()| == |TaggedTraitColumnDescriptions|
    ensures forall i :: 0 <= i < |ColumnNames()| ==>
              SplitOn(EntryLines(ColumnsDescribed())[i], "\t") ==
                [ColumnNames()[i]] + SplitOn(TaggedTraitColumnDescriptions[i], "\t")
  {
    assert |TaggedTraitColumnDescriptions| == |TaggedTraitColumns| == 11;
    ColumnNamesPlain();
    ZippedEntryFields(ColumnNames(), TaggedTraitColumnDescriptions);
  }

  lemma {:induction false} ZipAt(xs: seq<string>, ys: seq<string>)
    ensures forall i :: 0 <= i < |xs| && i < |ys| ==> Zip(xs, ys)[i] == (xs[i], ys[i])
  {
    if |xs| > 0 && |ys| > 0 {
      ZipAt(xs[1..], ys[1..]);
    }
  }

  // ---------------------------------------------------------------------
  // File names
  // ---------------------------------------------------------------------

  /** os.path.join(dir, name) for a relative name. */
  function PathJoin(dir: string, name: string): string {
    if |dir| == 0 || dir[|dir| - 1] == '/' then dir + name else dir + "/" + name
  }

  /** str.replace(pat, sub): every leftmost non-overlapping occurrence of pat replaced sub sub. */
  function ReplaceAll(s: string, pat: string, sub: string): (r: string)
    requires |pat| > 0
    ensures !Contains(s, pat) ==> r == s
    decreases |s|
  {
    if |s| < |pat| then s
    else if s[..|pat|] == pat then
      assert OccursAt(s, pat, 0);
      sub + ReplaceAll(s[|pat|..], pat, sub)
    else
      var rest := ReplaceAll(s[1..], pat, sub);
      assert !Contains(s, pat) ==> !Contains(s[1..], pat) by {
        if Contains(s[1..], pat) {
          var i :| 0 <= i <= |s[1..]| && OccursAt(s[1..], pat, i);
          assert s[i + 1..i + 1 + |pat|] == s[1..][i..i + |pat|];
          assert OccursAt(s, pat, i + 1);
        }
      }
      assert [s[0]] + s[1..] == s;
      [s[0]] + rest
  }

  /** An occurrence of pat in s[1..] is one in s, a character later. */
  lemma OccursAtTail(s: string, pat: string, i: nat)
    requires |s| > 0
    ensures OccursAt(s[1..], pat, i) <==> OccursAt(s, pat, i + 1)
  {
    if i + 1 + |pat| <= |s| {
      assert s[1..][i..i + |pat|] == s[i + 1..i + 1 + |pat|];
    }
  }

  /** Where no occurrence of pat starts, replacing keeps the first character and goes on with the rest. */
  lemma ReplaceAllSkip(s: string, pat: string, sub: string)
    requires |pat| > 0 && |s| > 0 && !OccursAt(s, pat, 0)
    ensures ReplaceAll(s, pat, sub) == [s[0]] + ReplaceAll(s[1..], pat, sub)
  {
    if |s| < |pat| {
      assert ReplaceAll(s[1..], pat, sub) == s[1..];
      assert [s[0]] + s[1..] == s;
    }
  }

  /** When no occurrence of pat starts inside a, replacing in a + b leaves a alone. */
  lemma {:induction false} ReplaceAllAfter(a: string, b: string, pat: string, sub: string)
    requires |pat| > 0
    requires forall i :: 0 <= i < |a| ==> !OccursAt(a + b, pat, i)
    ensures ReplaceAll(a + b, pat, sub) == a + ReplaceAll(b, pat, sub)
    decreases |a|
  {
    if |a| > 0 {
      var s := a + b;
      assert s[1..] == a[1..] + b;
      ReplaceAllSkip(s, pat, sub);
      forall i | 0 <= i < |a| - 1 ensures !OccursAt(a[1..] + b, pat, i) {
        OccursAtTail(s, pat, i);
      }
      ReplaceAllAfter(a[1..], b, pat, sub);
      assert s[0] == a[0];
      assert [a[0]] + (a[1..] + ReplaceAll(b, pat, sub)) == ([a[0]] + a[1..]) + ReplaceAll(b, pat, sub);
      assert [a[0]] + a[1..] == a;
    } else {
      assert a + b == b;
    }
  }

  /** The directory part of PathJoin(outputDir, name): the directory, ending in '/' unless it is empty. */
  function DirPart(outputDir: string): (dp: string)
    ensures |dp| > 0 ==> dp[|dp| - 1] == '/' && |dp| - 1 <= |outputDir| && dp[..|dp| - 1] == outputDir[..|dp| - 1]
    ensures forall name :: PathJoin(outputDir, name) == dp + name
  {
    if |outputDir| == 0 || outputDir[|outputDir| - 1] == '/' then outputDir else outputDir + "/"
  }

  /** No occurrence of an extension that starts with '.' and holds no '/' starts in the directory part or a '.'-free stem. */
  lemma NoExtensionBefore(outputDir: string, stem: string, ext: string, i: nat)
    requires |ext| > 0 && ext[0] == '.' && '/' !in ext
    requires '.' !in stem && !Contains(outputDir, ext)
    requires i < |DirPart(outputDir)| + |stem|
    ensures !OccursAt(DirPart(outputDir) + stem + ext, ext, i)
  {
    var dp := DirPart(outputDir);
    var s := dp + stem + ext;
    if i >= |dp| {
      assert s[i] == stem[i - |dp|];
    } else if i + |ext| >= |dp| {
      if i + |ext| <= |s| {
        assert s[i..i + |ext|][|dp| - 1 - i] == s[|dp| - 1] == '/';
      }
    } else {
      assert s[i..i + |ext|] == dp[..|dp| - 1][i..i + |ext|] == outputDir[i..i + |ext|];
      assert !OccursAt(outputDir, ext, i);
    }
  }

  /**
   * A file name made of a directory, a stem free of '.' and an extension
   * starting with '.': replacing the extension by sub gives the same
   * directory and stem with sub, as long as the directory does not hold
   * the extension.
   */
  lemma ExtensionReplaced(outputDir: string, stem: string, ext: string, sub: string)
    requires |ext| > 0 && ext[0] == '.' && '/' !in ext
    requires '.' !in stem && !Contains(outputDir, ext)
    ensures ReplaceAll(DirPart(outputDir) + stem + ext, ext, sub) == DirPart(outputDir) + stem + sub
  {
    var a := DirPart(outputDir) + stem;
    forall i | 0 <= i < |a| ensures !OccursAt(a + ext, ext, i) {
      NoExtensionBefore(outputDir, stem, ext, i);
    }
    ReplaceLastOccurrence(a, ext, sub);
  }

  /** When the only occurrence of pat in a + pat is the final one, replacing gives a + sub. */
  lemma ReplaceLastOccurrence(a: string, pat: string, sub: string)
    requires |pat| > 0
    requires forall i :: 0 <= i < |a| ==> !OccursAt(a + pat, pat, i)
    ensures ReplaceAll(a + pat, pat, sub) == a + sub
  {
    ReplaceAllAfter(a, pat, pat, sub);
    ReplaceWhole(pat, sub);
  }

  /** Replacing in the pattern itself gives the replacement. */
  lemma ReplaceWhole(pat: string, sub: string)
    requires |pat| > 0
    ensures ReplaceAll(pat, pat, sub) == sub
  {
    assert pat[..|pat|] == pat && pat[|pat|..] == "";
    assert ReplaceAll("", pat, sub) == "";
  }

  /** '_'.join of three parts. */
  lemma JoinThree(x: string, y: string, z: string)
    ensures JoinWith("_", [x, y, z]) == x + "_" + y + "_" + z
  {
    assert [x, y, z][1..] == [y, z];
    assert [y, z][1..] == [z];
    assert JoinWith("_", [y, z]) == y + "_" + z;
    assert x + "_" + (y + "_" + z) == x + "_" + y + "_" + z;
  }

  function TagsDumpFileName(outputDir: string, date: string): string {
    PathJoin(outputDir, JoinWith("_", [date, Prefix, "tags.json"]))
  }

  function TaggedTraitFileName(outputDir: string, date: string): string {
    PathJoin(outputDir, JoinWith("_", [date, Prefix, "tagged_variables.txt"]))
  }

  /** A name joined under a directory is the directory part, then the name. */
  lemma JoinedName(outputDir: string, date: string, stem: string, last: string, ext: string)
    requires stem == date + "_" + Prefix + "_" + last
    ensures PathJoin(outputDir, JoinWith("_", [date, Prefix, last + ext])) == DirPart(outputDir) + stem + ext
  {
    JoinThree(date, Prefix, last + ext);
  }

  /** Replacing the extension of a dated output file name. */
  lemma DatedNameReplaced(outputDir: string, date: string, last: string, ext: string, sub: string)
    requires |ext| > 0 && ext[0] == '.' && '/' !in ext && !Contains(outputDir, ext)
    requires '.' !in date && '.' !in last
    ensures ReplaceAll(PathJoin(outputDir, JoinWith("_", [date, Prefix, last + ext])), ext, sub)
            == PathJoin(outputDir, JoinWith("_", [date, Prefix, last + sub]))
  {
    var stem := date + "_" + Prefix + "_" + last;
    JoinedName(outputDir, date, stem, last, ext);
    JoinedName(outputDir, date, stem, last, sub);
    ExtensionReplaced(outputDir, stem, ext, sub);
  }

  /**
   * The tagged-variable data dictionary is written next to the data file,
   * under the data file's name with "_data_dictionary" before ".txt",
   * whenever the output directory's path does not hold ".txt" and the
   * stamp holds no '.'.
   */
  lemma TaggedTraitDictionaryFileName(outputDir: string, date: string)
    requires !Contains(outputDir, ".txt") && '.' !in date
    ensures ReplaceAll(TaggedTraitFileName(outputDir, date), ".txt", "_data_dictionary.txt")
            == PathJoin(outputDir, JoinWith("_", [date, Prefix, "tagged_variables" + "_data_dictionary.txt"]))
  {
    DatedNameReplaced(outputDir, date, "tagged_variables", ".txt", "_data_dictionary.txt");
    assert "tagged_variables" + ".txt" == "tagged_variables.txt";
  }

  /**
   * Likewise the tags dump's data dictionary: the dump's name with
   * "_data_dictionary.txt" in place of ".json".
   */
  lemma TagsDumpDictionaryFileName(outputDir: string, date: string)
    requires !Contains(outputDir, ".json") && '.' !in date
    ensures ReplaceAll(TagsDumpFileName(outputDir, date), ".json", "_data_dictionary.txt")
            == PathJoin(outputDir, JoinWith("_", [date, Prefix, "tags" + "_data_dictionary.txt"]))
  {
    DatedNameReplaced(outputDir, date, "tags", ".json", "_data_dictionary.txt");
    assert "tags" + ".json" == "tags.json";
  }

  // ---------------------------------------------------------------------
  // The date stamp
  // ---------------------------------------------------------------------

  /** A datetime down to the second. */
  datatype Moment = Moment(year: nat, month: nat, day: nat, hour: nat, minute: nat, second: nat)

  predicate LeapYear(y: nat) {
    y % 4 == 0 && (y % 100 != 0 || y % 400 == 0)
  }

  function DaysInMonth(y: nat, m: nat): nat {
    if m == 2 then (if LeapYear(y) then 29 else 28)
    else if m == 4 || m == 6 || m == 9 || m == 11 then 30
    else 31
  }

  /** A datetime Python can hold, from year 1000 on. */
  predicate ValidMoment(d: Moment) {
    1000 <= d.year <= 9999 && 1 <= d.month <= 12 && 1 <= d.day <= DaysInMonth(d.year, d.month) &&
    d.hour < 24 && d.minute < 60 && d.second < 60
  }

  /**
   * _get_date_stamp: strftime('%Y-%m-%d_%H%M') of the current time, given
   * as now: fifteen characters, four digits of year, two each of month,
   * day, hour and minute, with '-', '-' and '_' between the date fields
   * and the time.
   */
  function DateStamp(now: Moment): (r: string)
    requires ValidMoment(now)
    ensures |r| == 15 && r[4] == '-' && r[7] == '-' && r[10] == '_'
    ensures AllDigits(r[..4]) && DigitsValue(r[..4]) == now.year
    ensures AllDigits(r[5..7]) && DigitsValue(r[5..7]) == now.month
    ensures AllDigits(r[8..10]) && DigitsValue(r[8..10]) == now.day
    ensures AllDigits(r[11..13]) && DigitsValue(r[11..13]) == now.hour
    ensures AllDigits(r[13..]) && DigitsValue(r[13..]) == now.minute
    ensures '.' !in r
  {
    var y, mo, d := ZeroPadNat(now.year, 4), ZeroPadNat(now.month, 2), ZeroPadNat(now.day, 2);
    var h, mi := ZeroPadNat(now.hour, 2), ZeroPadNat(now.minute, 2);
    PadWidth(now.year, 4);
    PadWidth(now.month, 2);
    PadWidth(now.day, 2);
    PadWidth(now.hour, 2);
    PadWidth(now.minute, 2);
    StampSlices(y, mo, d, h, mi);
    StampDotFree(y, mo, d, h, mi);
    y + "-" + mo + "-" + d + "_" + h + mi
  }

  lemma StampDotFree(y: string, mo: string, d: string, h: string, mi: string)
    requires AllDigits(y) && AllDigits(mo) && AllDigits(d) && AllDigits(h) && AllDigits(mi)
    ensures '.' !in y + "-" + mo + "-" + d + "_" + h + mi
  {
    assert '.' !in y && '.' !in mo && '.' !in d && '.' !in h && '.' !in mi;
  }

  /** strptime(s, '%Y-%m-%d_%H%M') on stamps of the fixed width DateStamp writes; seconds become 0. */
  function ParseDateStamp(s: string): (r: Option<Moment>)
    ensures r.Some? ==> ValidMoment(r.value) && r.value.second == 0
  {
    if |s| == 15 && s[4] == '-' && s[7] == '-' && s[10] == '_' &&
       AllDigits(s[..4]) && AllDigits(s[5..7]) && AllDigits(s[8..10]) && AllDigits(s[11..13]) && AllDigits(s[13..])
    then
      var d := Moment(DigitsValue(s[..4]), DigitsValue(s[5..7]), DigitsValue(s[8..10]),
                      DigitsValue(s[11..13]), DigitsValue(s[13..]), 0);
      if ValidMoment(d) then Some(d) else None
    else None
  }

  function Pow10(w: nat): nat {
    if w == 0 then 1 else 10 * Pow10(w - 1)
  }

  lemma {:induction false} NatToStrWithin(n: nat, w: nat)
    requires w >= 1 && n < Pow10(w)
    ensures |NatToStr(n)| <= w
    decreases w
  {
    if n >= 10 {
      NatToStrWithin(n / 10, w - 1);
    }
  }

  /** The digits of a stamp field are no longer once written back without padding. */
  lemma {:induction false} NatToStrOfDigits(f: string)
    requires AllDigits(f) && |f| >= 1
    ensures |NatToStr(DigitsValue(f))| <= |f|
    decreases |f|
  {
    var v := DigitsValue(f);
    var f' := f[..|f| - 1];
    assert AllDigits(f');
    if v >= 10 {
      assert v / 10 == DigitsValue(f');
      if |f'| >= 1 {
        NatToStrOfDigits(f');
      }
    }
  }

  /** Two digit strings of one length with one value are the same string. */
  lemma {:induction false} DigitsUnique(a: string, b: string)
    requires AllDigits(a) && AllDigits(b) && |a| == |b| && DigitsValue(a) == DigitsValue(b)
    ensures a == b
    decreases |a|
  {
    if |a| > 0 {
      var a', b' := a[..|a| - 1], b[..|b| - 1];
      assert AllDigits(a') && AllDigits(b');
      var x, y := a[|a| - 1] as int - '0' as int, b[|b| - 1] as int - '0' as int;
      assert DigitsValue(a) == DigitsValue(a') * 10 + x;
      assert DigitsValue(b) == DigitsValue(b') * 10 + y;
      assert x == y;
      DigitsUnique(a', b');
      assert a == a' + [a[|a| - 1]] && b == b' + [b[|b| - 1]];
    }
  }

  /** A field of digits is its own value zero-padded to its width. */
  lemma PadOfDigits(f: string)
    requires AllDigits(f) && |f| >= 1
    ensures ZeroPadNat(DigitsValue(f), |f|) == f
  {
    NatToStrOfDigits(f);
    DigitsUnique(ZeroPadNat(DigitsValue(f), |f|), f);
  }

  lemma PadWidth(n: nat, w: nat)
    requires w >= 1 && n < Pow10(w)
    ensures |ZeroPadNat(n, w)| == w
  {
    NatToStrWithin(n, w);
  }

  lemma StampSlices(y: string, mo: string, d: string, h: string, mi: string)
    requires |y| == 4 && |mo| == 2 && |d| == 2 && |h| == 2 && |mi| == 2
    ensures var s := y + "-" + mo + "-" + d + "_" + h + mi;
            |s| == 15 && s[..4] == y && s[4] == '-' && s[5..7] == mo && s[7] == '-' &&
            s[8..10] == d && s[10] == '_' && s[11..13] == h && s[13..] == mi
  {
  }

  lemma StampPieces(s: string)
    requires |s| == 15 && s[4] == '-' && s[7] == '-' && s[10] == '_'
    ensures s == s[..4] + "-" + s[5..7] + "-" + s[8..10] + "_" + s[11..13] + s[13..]
  {
  }

  /** Parsing a stamp gives back the moment, to the minute. */
  lemma StampParses(now: Moment)
    requires ValidMoment(now)
    ensures ParseDateStamp(DateStamp(now)) == Some(now.(second := 0))
  {
  }

  /** Formatting a parsed stamp gives back the stamp. */
  lemma ParsedStampFormats(s: string)
    requires ParseDateStamp(s).Some?
    ensures DateStamp(ParseDateStamp(s).value) == s
  {
    PadOfDigits(s[..4]);
    PadOfDigits(s[5..7]);
    PadOfDigits(s[8..10]);
    PadOfDigits(s[11..13]);
    PadOfDigits(s[13..]);
    StampPieces(s);
  }

  // ---------------------------------------------------------------------
  // The command, writing into an output directory
  // ---------------------------------------------------------------------

  /** The export command; files maps each path written to the text written there. */
  class ExportCommand {
    var files: map<string, string>

    constructor ()
      ensures files == map[]
    {
      files := map[];
    }

    /** _make_tags_dump_data_dictionary_file, next to the tags dump. */
    method MakeTagsDumpDataDictionaryFile(dumpFn: string) returns (ddFn: string)
      modifies this
      ensures ddFn == ReplaceAll(dumpFn, ".json", "_data_dictionary.txt")
      ensures files == old(files)[ddFn := TagsDumpDictionaryText()]
    {
      ddFn := ReplaceAll(dumpFn, ".json", "_data_dictionary.txt");
      files := files[ddFn := TagsDumpDictionaryText()];
    }

    /** _make_tagged_trait_file: the header line, the rows' lines appended, joined and written. */
    method MakeTaggedTraitFile(outputDir: string, date: string, rows: seq<seq<string>>) returns (fn: string)
      modifies this
      ensures fn == TaggedTraitFileName(outputDir, date)
      ensures files == old(files)[fn := TaggedTraitFileText(rows)]
    {
      var output := [HeaderLine()];
      output := output + TabLines(rows);
      assert output == TaggedTraitFileLineList(rows);
      fn := TaggedTraitFileName(outputDir, date);
      files := files[fn := JoinWith("\n", output)];
    }

    /** _make_tagged_trait_data_dictionary_file, with each column's description. */
    method MakeTaggedTraitDataDictionaryFile(taggedTraitFn: string) returns (ddFn: string)
      modifies this
      ensures ddFn == ReplaceAll(taggedTraitFn, ".txt", "_data_dictionary.txt")
      ensures files == old(files)[ddFn := TaggedTraitDictionaryText()]
    {
      ddFn := ReplaceAll(taggedTraitFn, ".txt", "_data_dictionary.txt");
      files := files[ddFn := TaggedTraitDictionaryText()];
    }
  }
}
