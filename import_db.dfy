/**
 * The helpers of the import_db management command
 * (trait_browser/management/commands/import_db.py): the row fixers applied
 * to every source-db row, the SELECT query builder and its new-rows variant,
 * the argument mapping that turns a row into model-constructor arguments,
 * the reconciliation of many-to-many links with the source db, the in-place
 * update of an already-imported object, and the order of the phases in
 * handle.  Query results are inputs: the connection and cursors are not
 * modelled.
 */
module ImportDb {
  import opened Wrappers
  import opened PyStr

  /** A value in a source-db row as mysql.connector returns it. */
  datatype Value = Null | Text(text: string) | ByteArray(bytes: string) | Number(n: int)

  type Row = map<string, Value>

  datatype ImportError =
    | ValueError
    | KeyError(key: string)
    | DoesNotExist
    | AttributeError(name: string)

  // ---------------------------------------------------------------------
  // Row fixers
  // ---------------------------------------------------------------------

  /** _fix_null: NULLs become empty strings, everything else is kept. */
  function FixNull(row: Row): (r: Row)
    ensures r.Keys == row.Keys
    ensures forall k :: k in r ==> !r[k].Null?
    ensures forall k :: k in row && !row[k].Null? ==> r[k] == row[k]
    ensures forall k :: k in row && row[k].Null? ==> r[k] == Text("")
  {
    map k | k in row :: if row[k].Null? then Text("") else row[k]
  }

  /** _fix_bytearray: byte arrays become the strings they decode to, everything else is kept. */
  function FixBytearray(row: Row): (r: Row)
    ensures r.Keys == row.Keys
    ensures forall k :: k in r ==> !r[k].ByteArray?
    ensures forall k :: k in row && !row[k].ByteArray? ==> r[k] == row[k]
    ensures forall k :: k in row && row[k].ByteArray? ==> r[k] == Text(row[k].bytes)
  {
    map k | k in row :: if row[k].ByteArray? then Text(row[k].bytes) else row[k]
  }

  /** _fix_row without the time-zone step: null first, then byte arrays. */
  function FixRow(row: Row): Row {
    FixBytearray(FixNull(row))
  }

  /** A fixed row has the same columns, no NULL and no byte array, and fixing it again changes nothing. */
  lemma FixRowClean(row: Row)
    ensures FixRow(row).Keys == row.Keys
    ensures forall k :: k in row ==> FixRow(row)[k].Text? || FixRow(row)[k].Number?
    ensures FixRow(FixRow(row)) == FixRow(row)
  {
    var r := FixRow(row);
    assert FixNull(r) == r;
    assert FixBytearray(r) == r;
  }

  /** The two fixers touch disjoint kinds of value, so their order does not matter. */
  lemma FixersCommute(row: Row)
    ensures FixNull(FixBytearray(row)) == FixBytearray(FixNull(row))
  {
    var a, b := FixNull(FixBytearray(row)), FixBytearray(FixNull(row));
    forall k | k in row ensures a[k] == b[k] {
    }
  }

  // ---------------------------------------------------------------------
  // Query strings
  // ---------------------------------------------------------------------

  /** The WHERE part of a table query: none, or "IN"/"NOT IN" over a list of values. */
  datatype Filter = NoFilter | InList(field: string, values: seq<string>, negated: bool)

  /** The value list inside IN ( ): comma-joined, or the empty string literal for no values. */
  function ValueList(values: seq<string>): string {
    if |values| == 0 then "''" else JoinWith(",", values)
  }

  /** The query string for a table and a filter. */
  function RenderQuery(table: string, filter: Filter): string {
    "SELECT * FROM " + table
    + match filter
      case NoFilter => ""
      case InList(field, values, negated) =>
        " WHERE " + field + " " + (if negated then "NOT" else "") + " IN (" + ValueList(values) + ")"
  }

  /**
   * _make_table_query: the three filter arguments go together; with none
   * of them the whole table is selected, with all of them the IN or NOT IN
   * filter is added, and with only some a ValueError is raised.
   */
  function MakeTableQuery(table: string, field: Option<string>, values: Option<seq<string>>, filterNot: Option<bool>)
    : (r: Result<string, ImportError>)
    ensures r.Err? <==> (field.Some? || values.Some? || filterNot.Some?) && !(field.Some? && values.Some? && filterNot.Some?)
    ensures r.Err? ==> r.error == ValueError
    ensures r.Ok? && field.None? ==> r.value == RenderQuery(table, NoFilter)
    ensures r.Ok? && field.Some? ==> r.value == RenderQuery(table, InList(field.value, values.value, filterNot.value))
  {
    if field.None? && values.None? && filterNot.None? then Ok(RenderQuery(table, NoFilter))
    else if field.Some? && values.Some? && filterNot.Some? then
      Ok(RenderQuery(table, InList(field.value, values.value, filterNot.value)))
    else Err(ValueError)
  }

  /** Whether a row whose filtered column holds v is returned by a query with this filter. */
  predicate Selects(filter: Filter, v: string) {
    match filter
    case NoFilter => true
    case InList(_, values, negated) => (v in values) != negated
  }

  /** A table or column name: no blank inside. */
  predicate Name(s: string) {
    ' ' !in s
  }

  /** A filter value that survives the value list: no blank, comma or quote (primary keys are digit strings). */
  predicate PlainValue(v: string) {
    ' ' !in v && ',' !in v && '\'' !in v
  }

  predicate WellFormedFilter(filter: Filter) {
    filter.InList? ==> Name(filter.field) && forall k :: 0 <= k < |filter.values| ==> PlainValue(filter.values[k])
  }

  predicate StartsWith(s: string, prefix: string) {
    |prefix| <= |s| && s[..|prefix|] == prefix
  }

  /** The length of the longest prefix of s without c. */
  function CharSpan(s: string, c: char): (n: nat)
    ensures n <= |s| && c !in s[..n]
    ensures n == |s| || s[n] == c
  {
    if |s| == 0 || s[0] == c then 0
    else
      var n := 1 + CharSpan(s[1..], c);
      assert s[..n] == [s[0]] + s[1..][..n - 1];
      n
  }

  lemma {:induction false} CharSpanOf(w: string, rest: string, c: char)
    requires c !in w
    requires |rest| == 0 || rest[0] == c
    ensures CharSpan(w + rest, c) == |w|
    decreases |w|
  {
    if |w| > 0 {
      assert (w + rest)[1..] == w[1..] + rest;
      assert w[0] in w;
      CharSpanOf(w[1..], rest, c);
    }
  }

  /** The filter part after the table name: " WHERE f NOT IN (..)" or " WHERE f  IN (..)". */
  function ParseFilter(s: string): Option<Filter> {
    var where, notIn, plainIn := " WHERE ", " NOT IN (", "  IN (";
    if !StartsWith(s, where) then None
    else
      var r := s[|where|..];
      var field := r[..CharSpan(r, ' ')];
      var r2 := r[|field|..];
      var negated := StartsWith(r2, notIn);
      if !negated && !StartsWith(r2, plainIn) then None
      else
        var r3 := if negated then r2[|notIn|..] else r2[|plainIn|..];
        if |r3| == 0 || r3[|r3| - 1] != ')' then None
        else
          var inner := r3[..|r3| - 1];
          Some(InList(field, if inner == "''" then [] else SplitOn(inner, ","), negated))
  }

  /** Reads a query string back into its table and filter: the reference the rendered text is checked against. */
  function ParseQuery(q: string): Option<(string, Filter)> {
    var head := "SELECT * FROM ";
    if !StartsWith(q, head) then None
    else
      var rest := q[|head|..];
      var table := rest[..CharSpan(rest, ' ')];
      if table == rest then Some((table, NoFilter))
      else
        match ParseFilter(rest[|table|..])
        case None => None
        case Some(f) => Some((table, f))
  }

  /** The value list reads back as the values. */
  lemma ValueListRoundTrip(values: seq<string>)
    requires forall k :: 0 <= k < |values| ==> PlainValue(values[k])
    ensures (if ValueList(values) == "''" then [] else SplitOn(ValueList(values), ",")) == values
  {
    if |values| > 0 {
      JoinWithAvoids(",", values, '\'');
      assert '\'' in "''";
      forall k | 0 <= k < |values| ensures !Contains(values[k], ",") {
        MissingCharNotContains(values[k], ",", ',');
      }
      SplitOnJoin(values, ",");
    }
  }

  lemma FilterRoundTrip(field: string, values: seq<string>, negated: bool)
    requires Name(field) && forall k :: 0 <= k < |values| ==> PlainValue(values[k])
    ensures ParseFilter(" WHERE " + field + " " + (if negated then "NOT" else "") + " IN (" + ValueList(values) + ")")
            == Some(InList(field, values, negated))
  {
    var op := if negated then " NOT IN (" else "  IN (";
    var vl := ValueList(values);
    var s := " WHERE " + field + " " + (if negated then "NOT" else "") + " IN (" + vl + ")";
    assert s == " WHERE " + (field + (op + (vl + ")")));
    var r := s[|" WHERE "|..];
    assert r == field + (op + (vl + ")"));
    CharSpanOf(field, op + (vl + ")"), ' ');
    OpenerRoundTrip(negated, vl + ")");
    var r3 := vl + ")";
    assert r3[..|r3| - 1] == vl;
    ValueListRoundTrip(values);
  }

  lemma OpenerRoundTrip(negated: bool, rest: string)
    ensures var op := if negated then " NOT IN (" else "  IN (";
            (StartsWith(op + rest, " NOT IN (") <==> negated) && StartsWith(op + rest, op) && (op + rest)[|op|..] == rest
  {
    var op := if negated then " NOT IN (" else "  IN (";
    if !negated {
      assert (op + rest)[1] == ' ';
    }
  }

  /** Rendering then parsing gives back the table and the filter. */
  lemma QueryRoundTrip(table: string, filter: Filter)
    requires Name(table) && WellFormedFilter(filter)
    ensures ParseQuery(RenderQuery(table, filter)) == Some((table, filter))
  {
    var tail := match filter
      case NoFilter => ""
      case InList(field, values, negated) =>
        " WHERE " + field + " " + (if negated then "NOT" else "") + " IN (" + ValueList(values) + ")";
    var q := RenderQuery(table, filter);
    assert q == "SELECT * FROM " + (table + tail);
    var rest := q[|"SELECT * FROM "|..];
    assert rest == table + tail;
    CharSpanOf(table, tail, ' ');
    assert rest[..|table|] == table;
    if filter.InList? {
      assert rest[|table|..] == tail;
      FilterRoundTrip(filter.field, filter.values, filter.negated);
    }
  }

  /**
   * _make_query_for_new_rows: the whole table when nothing was imported
   * yet, otherwise the rows whose key is not among the imported ones.
   */
  function MakeQueryForNewRows(table: string, sourcePk: string, oldPks: seq<string>): string {
    if |oldPks| > 0 then MakeTableQuery(table, Some(sourcePk), Some(oldPks), Some(true)).value
    else MakeTableQuery(table, None, None, None).value
  }

  /** The new-rows query, read back, is on the same table and selects exactly the keys not yet imported. */
  lemma NewRowsQuerySelects(table: string, sourcePk: string, oldPks: seq<string>, v: string)
    requires Name(table) && Name(sourcePk)
    requires forall k :: 0 <= k < |oldPks| ==> PlainValue(oldPks[k])
    ensures var parsed := ParseQuery(MakeQueryForNewRows(table, sourcePk, oldPks));
            parsed.Some? && parsed.value.0 == table && (Selects(parsed.value.1, v) <==> v !in oldPks)
  {
    if |oldPks| > 0 {
      QueryRoundTrip(table, InList(sourcePk, oldPks, true));
    } else {
      QueryRoundTrip(table, NoFilter);
    }
  }

  /** _get_new_pks: the website keys that were not there before. */
  function NewPks(currentPks: seq<string>, oldPks: seq<string>): set<string> {
    set p | p in currentPks && p !in oldPks
  }

  /**
   * A key the website gained is one the new-rows query would have
   * fetched, and a key it already had is one the query skips.
   */
  lemma NewPksWereSelected(table: string, sourcePk: string, oldPks: seq<string>, currentPks: seq<string>, p: string)
    requires Name(table) && Name(sourcePk)
    requires forall k :: 0 <= k < |oldPks| ==> PlainValue(oldPks[k])
    requires p in currentPks
    ensures var parsed := ParseQuery(MakeQueryForNewRows(table, sourcePk, oldPks));
            parsed.Some? && (p in NewPks(currentPks, oldPks) <==> Selects(parsed.value.1, p))
  {
    NewRowsQuerySelects(table, sourcePk, oldPks, p);
  }

  // ---------------------------------------------------------------------
  // Model-constructor arguments
  // ---------------------------------------------------------------------

  /** A model-constructor argument: a plain field value, or the related object found by its key. */
  datatype Arg = FieldValue(value: Value) | Related(model: string, pk: Value)

  type Args = map<string, Arg>

  /** The (source column, model field) pairs for columns copied under an "i_" prefix. */
  function Prefixed(names: seq<string>): (pairs: seq<(string, string)>)
    ensures |pairs| == |names|
    ensures forall k :: 0 <= k < |names| ==> pairs[k] == (names[k], "i_" + names[k])
  {
    seq(|names|, k requires 0 <= k < |names| => (names[k], "i_" + names[k]))
  }

  /** str.replace(' ', '_'). */
  function Underscored(s: string): (r: string)
    ensures |r| == |s| && ' ' !in r
    ensures forall k :: 0 <= k < |s| && s[k] != ' ' ==> r[k] == s[k]
  {
    seq(|s|, k requires 0 <= k < |s| => if s[k] == ' ' then '_' else s[k])
  }

  /** Copies row[src] into field dst for each pair in turn; a missing column is a KeyError. */
  function AssignFields(acc: Args, row: Row, pairs: seq<(string, string)>): Result<Args, ImportError>
    decreases |pairs|
  {
    if |pairs| == 0 then Ok(acc)
    else
      var prev := AssignFields(acc, row, pairs[..|pairs| - 1]);
      var (src, dst) := pairs[|pairs| - 1];
      if prev.Err? then prev
      else if src !in row then Err(KeyError(src))
      else Ok(prev.value[dst := FieldValue(row[src])])
  }

  /**
   * Links the object of each (source key column, model name) pair under
   * the model name with blanks made underscores; a missing column is a
   * KeyError and a key with no object is DoesNotExist.
   */
  function AssignLinks(acc: Args, row: Row, links: seq<(string, string)>, existing: set<(string, Value)>)
    : Result<Args, ImportError>
    decreases |links|
  {
    if |links| == 0 then Ok(acc)
    else
      var prev := AssignLinks(acc, row, links[..|links| - 1], existing);
      var (src, model) := links[|links| - 1];
      if prev.Err? then prev
      else if src !in row then Err(KeyError(src))
      else if (model, row[src]) !in existing then Err(DoesNotExist)
      else Ok(prev.value[Underscored(model) := Related(model, row[src])])
  }

  /** The argument dict _make_args_mapping builds, or the error it raises. */
  function ArgsMapping(row: Row, names: seq<string>, toMap: seq<(string, string)>, links: seq<(string, string)>,
                       existing: set<(string, Value)>): Result<Args, ImportError>
  {
    match AssignFields(map[], row, Prefixed(names) + toMap)
    case Err(e) => Err(e)
    case Ok(fields) => AssignLinks(fields, row, links, existing)
  }

  /** The last pair that writes to the same field as pairs[k]. */
  predicate LastWrite<T>(pairs: seq<(T, string)>, k: int) {
    0 <= k < |pairs| && forall j :: k < j < |pairs| ==> pairs[j].1 != pairs[k].1
  }

  /** Some pair writes field f. */
  predicate Writes<T>(pairs: seq<(T, string)>, f: string) {
    exists k :: 0 <= k < |pairs| && pairs[k].1 == f
  }

  predicate SourcesPresent(row: Row, pairs: seq<(string, string)>) {
    forall k :: 0 <= k < |pairs| ==> pairs[k].0 in row
  }

  /** Copying succeeds iff every source column is in the row. */
  lemma {:induction false} AssignFieldsOk(acc: Args, row: Row, pairs: seq<(string, string)>)
    ensures AssignFields(acc, row, pairs).Ok? <==> SourcesPresent(row, pairs)
    decreases |pairs|
  {
    if |pairs| > 0 {
      var init := pairs[..|pairs| - 1];
      AssignFieldsOk(acc, row, init);
      assert forall k :: 0 <= k < |init| ==> init[k] == pairs[k];
    }
  }

  /** After copying, the fields are the old ones plus every destination. */
  lemma {:induction false} AssignFieldsKeys(acc: Args, row: Row, pairs: seq<(string, string)>)
    requires AssignFields(acc, row, pairs).Ok?
    ensures forall f :: f in AssignFields(acc, row, pairs).value <==> f in acc || Writes(pairs, f)
    decreases |pairs|
  {
    if |pairs| > 0 {
      var init := pairs[..|pairs| - 1];
      AssignFieldsKeys(acc, row, init);
      var m := AssignFields(acc, row, pairs).value;
      forall f ensures f in m <==> f in acc || Writes(pairs, f) {
        if Writes(init, f) {
          var k :| 0 <= k < |init| && init[k].1 == f;
          assert pairs[k].1 == f;
        }
        if Writes(pairs, f) && f != pairs[|pairs| - 1].1 {
          var k :| 0 <= k < |pairs| && pairs[k].1 == f;
          assert init[k].1 == f;
        }
      }
    }
  }

  /** Each destination holds the column of the last pair that wrote it; the others keep their value. */
  lemma {:induction false} AssignFieldsValues(acc: Args, row: Row, pairs: seq<(string, string)>)
    requires AssignFields(acc, row, pairs).Ok?
    ensures forall k :: LastWrite(pairs, k) ==>
              pairs[k].0 in row && pairs[k].1 in AssignFields(acc, row, pairs).value
              && AssignFields(acc, row, pairs).value[pairs[k].1] == FieldValue(row[pairs[k].0])
    ensures forall f :: f in acc && !Writes(pairs, f) ==>
              f in AssignFields(acc, row, pairs).value && AssignFields(acc, row, pairs).value[f] == acc[f]
    decreases |pairs|
  {
    if |pairs| > 0 {
      var init := pairs[..|pairs| - 1];
      var last := |pairs| - 1;
      AssignFieldsValues(acc, row, init);
      AssignFieldsOk(acc, row, pairs);
      var m := AssignFields(acc, row, pairs).value;
      forall k | LastWrite(pairs, k)
        ensures pairs[k].0 in row && pairs[k].1 in m && m[pairs[k].1] == FieldValue(row[pairs[k].0])
      {
        if k < last {
          assert init[k] == pairs[k];
          assert LastWrite(init, k);
        }
      }
      assert forall k :: 0 <= k < |init| ==> init[k] == pairs[k];
    }
  }

  /** One more copied column, or the KeyError that ends the copying. */
  lemma AssignFieldsStep(acc: Args, row: Row, pairs: seq<(string, string)>, i: nat, m: Args)
    requires i < |pairs| && AssignFields(acc, row, pairs[..i]) == Ok(m)
    ensures pairs[i].0 in row ==> AssignFields(acc, row, pairs[..i + 1]) == Ok(m[pairs[i].1 := FieldValue(row[pairs[i].0])])
    ensures pairs[i].0 !in row ==> AssignFields(acc, row, pairs) == Err(KeyError(pairs[i].0))
  {
    assert pairs[..i + 1][..i] == pairs[..i];
    if pairs[i].0 !in row {
      AssignFieldsErrStays(acc, row, pairs, i + 1);
    }
  }

  /** The links succeed iff every key column is present and names an existing object; the links are added under their names. */
  lemma {:induction false} AssignLinksFacts(acc: Args, row: Row, links: seq<(string, string)>, existing: set<(string, Value)>)
    ensures AssignLinks(acc, row, links, existing).Ok? <==>
              forall k :: 0 <= k < |links| ==> links[k].0 in row && (links[k].1, row[links[k].0]) in existing
    ensures AssignLinks(acc, row, links, existing).Ok? ==>
              var m := AssignLinks(acc, row, links, existing).value;
              (forall f :: f in m <==> f in acc || exists k :: 0 <= k < |links| && Underscored(links[k].1) == f)
    decreases |links|
  {
    if |links| > 0 {
      var init := links[..|links| - 1];
      AssignLinksFacts(acc, row, init, existing);
      var last := |links| - 1;
      assert forall k :: 0 <= k < last ==> init[k] == links[k];
      if AssignLinks(acc, row, links, existing).Ok? {
        var m := AssignLinks(acc, row, links, existing).value;
        forall f ensures f in m <==> f in acc || exists k :: 0 <= k < |links| && Underscored(links[k].1) == f {
          if f in m && f !in acc && f != Underscored(links[last].1) {
            var k :| 0 <= k < |init| && Underscored(init[k].1) == f;
            assert Underscored(links[k].1) == f;
          }
        }
      }
    }
  }

  /**
   * _make_args_mapping succeeds iff every named column is in the row and
   * every foreign key finds its object.
   */
  lemma ArgsMappingOk(row: Row, names: seq<string>, toMap: seq<(string, string)>, links: seq<(string, string)>,
                      existing: set<(string, Value)>)
    ensures ArgsMapping(row, names, toMap, links, existing).Ok? <==>
              (forall k :: 0 <= k < |names| ==> names[k] in row)
              && SourcesPresent(row, toMap)
              && (forall k :: 0 <= k < |links| ==> links[k].0 in row && (links[k].1, row[links[k].0]) in existing)
  {
    var pairs := Prefixed(names) + toMap;
    AssignFieldsOk(map[], row, pairs);
    assert forall k :: 0 <= k < |names| ==> pairs[k].0 == names[k];
    assert forall k :: 0 <= k < |toMap| ==> pairs[|names| + k] == toMap[k];
    assert SourcesPresent(row, pairs) <==> (forall k :: 0 <= k < |names| ==> names[k] in row) && SourcesPresent(row, toMap) by {
      if (forall k :: 0 <= k < |names| ==> names[k] in row) && SourcesPresent(row, toMap) {
        forall k | 0 <= k < |pairs| ensures pairs[k].0 in row {
          if k >= |names| {
            assert pairs[k] == toMap[k - |names|];
          }
        }
      }
    }
    if AssignFields(map[], row, pairs).Ok? {
      AssignLinksFacts(AssignFields(map[], row, pairs).value, row, links, existing);
    }
  }

  /** On success, the argument names are the "i_" names, the mapped names and the related model names. */
  lemma ArgsMappingKeys(row: Row, names: seq<string>, toMap: seq<(string, string)>, links: seq<(string, string)>,
                        existing: set<(string, Value)>)
    requires ArgsMapping(row, names, toMap, links, existing).Ok?
    ensures forall f :: f in ArgsMapping(row, names, toMap, links, existing).value <==>
              (exists k :: 0 <= k < |names| && f == "i_" + names[k])
              || Writes(toMap, f)
              || (exists k :: 0 <= k < |links| && f == Underscored(links[k].1))
  {
    var pairs := Prefixed(names) + toMap;
    AssignFieldsKeys(map[], row, pairs);
    var fields := AssignFields(map[], row, pairs).value;
    AssignLinksFacts(fields, row, links, existing);
    forall f ensures Writes(pairs, f) <==> (exists k :: 0 <= k < |names| && f == "i_" + names[k]) || Writes(toMap, f) {
      if Writes(pairs, f) {
        var k :| 0 <= k < |pairs| && pairs[k].1 == f;
        if k >= |names| {
          assert toMap[k - |names|].1 == f;
        }
      }
      if k :| 0 <= k < |names| && f == "i_" + names[k] {
        assert pairs[k].1 == f;
      }
      if Writes(toMap, f) {
        var k :| 0 <= k < |toMap| && toMap[k].1 == f;
        assert pairs[|names| + k].1 == f;
      }
    }
  }

  /**
   * _make_args_mapping: three loops fill the dict, first the "i_" copies,
   * then the renamed columns, then the related objects; a missing column
   * or object aborts it.
   */
  method MakeArgsMapping(row: Row, names: seq<string>, toMap: seq<(string, string)>, links: seq<(string, string)>,
                         existing: set<(string, Value)>)
    returns (r: Result<Args, ImportError>)
    ensures r == ArgsMapping(row, names, toMap, links, existing)
  {
    var pairs := Prefixed(names) + toMap;
    var args: Args := map[];
    var i := 0;
    while i < |names|
      invariant 0 <= i <= |names|
      invariant AssignFields(map[], row, pairs[..i]) == Ok(args)
    {
      AssignFieldsStep(map[], row, pairs, i, args);
      if names[i] !in row {
        return Err(KeyError(names[i]));
      }
      args := args["i_" + names[i] := FieldValue(row[names[i]])];
      i := i + 1;
    }
    var j := 0;
    while j < |toMap|
      invariant 0 <= j <= |toMap|
      invariant AssignFields(map[], row, pairs[..|names| + j]) == Ok(args)
    {
      AssignFieldsStep(map[], row, pairs, |names| + j, args);
      if toMap[j].0 !in row {
        return Err(KeyError(toMap[j].0));
      }
      args := args[toMap[j].1 := FieldValue(row[toMap[j].0])];
      j := j + 1;
    }
    assert pairs[..|pairs|] == pairs;
    r := LinkObjects(args, row, links, existing);
  }

  /** The third loop of _make_args_mapping: each related object is looked up and added under its model's name. */
  method LinkObjects(fields: Args, row: Row, links: seq<(string, string)>, existing: set<(string, Value)>)
    returns (r: Result<Args, ImportError>)
    ensures r == AssignLinks(fields, row, links, existing)
  {
    var args := fields;
    var k := 0;
    while k < |links|
      invariant 0 <= k <= |links|
      invariant AssignLinks(fields, row, links[..k], existing) == Ok(args)
    {
      assert links[..k + 1][..k] == links[..k];
      var (src, model) := links[k];
      if src !in row {
        AssignLinksErrStays(fields, row, links, existing, k + 1);
        return Err(KeyError(src));
      }
      if (model, row[src]) !in existing {
        AssignLinksErrStays(fields, row, links, existing, k + 1);
        return Err(DoesNotExist);
      }
      args := args[Underscored(model) := Related(model, row[src])];
      k := k + 1;
    }
    assert links[..|links|] == links;
    return Ok(args);
  }

  /** Once copying fails on a prefix, it fails with the same error on the whole list. */
  lemma {:induction false} AssignFieldsErrStays(acc: Args, row: Row, pairs: seq<(string, string)>, n: nat)
    requires n <= |pairs| && AssignFields(acc, row, pairs[..n]).Err?
    ensures AssignFields(acc, row, pairs) == AssignFields(acc, row, pairs[..n])
    decreases |pairs| - n
  {
    if n < |pairs| {
      assert pairs[..n + 1][..n] == pairs[..n];
      AssignFieldsErrStays(acc, row, pairs, n + 1);
    } else {
      assert pairs[..n] == pairs;
    }
  }

  lemma {:induction false} AssignLinksErrStays(acc: Args, row: Row, links: seq<(string, string)>,
                                               existing: set<(string, Value)>, n: nat)
    requires n <= |links| && AssignLinks(acc, row, links[..n], existing).Err?
    ensures AssignLinks(acc, row, links, existing) == AssignLinks(acc, row, links[..n], existing)
    decreases |links| - n
  {
    if n < |links| {
      assert links[..n + 1][..n] == links[..n];
      AssignLinksErrStays(acc, row, links, existing, n + 1);
    } else {
      assert links[..n] == links;
    }
  }

  // ---------------------------------------------------------------------
  // Many-to-many links
  // ---------------------------------------------------------------------

  /** The children the source link table gives a parent: the child column of the rows for that parent. */
  function SourceChildren(sourceRows: seq<(string, string)>, parent: string): set<string> {
    set k | 0 <= k < |sourceRows| && sourceRows[k].0 == parent :: sourceRows[k].1
  }

  /** The (parent, child) pairs the source links but the website did not, for the parents outside todo. */
  ghost predicate AddedOutside(links0: map<string, set<string>>, sourceRows: seq<(string, string)>, todo: set<string>,
                         added: seq<(string, string)>)
  {
    forall x :: x in added <==>
      x.0 in links0 && x.0 !in todo && x.1 in SourceChildren(sourceRows, x.0) && x.1 !in links0[x.0]
  }

  /** The (parent, child) pairs the website linked but the source does not, for the parents outside todo. */
  ghost predicate RemovedOutside(links0: map<string, set<string>>, sourceRows: seq<(string, string)>, todo: set<string>,
                           removed: seq<(string, string)>)
  {
    forall x :: x in removed <==>
      x.0 in links0 && x.0 !in todo && x.1 in links0[x.0] && x.1 !in SourceChildren(sourceRows, x.0)
  }

  /** The website's links: the source's for the parents outside todo, unchanged for the rest. */
  ghost predicate ReconciledOutside(links0: map<string, set<string>>, links: map<string, set<string>>,
                                    sourceRows: seq<(string, string)>, todo: set<string>)
  {
    links.Keys == links0.Keys &&
    forall p :: p in links ==> links[p] == if p in todo then links0[p] else SourceChildren(sourceRows, p)
  }

  /** Reconciling one more parent. */
  lemma ReconciledStep(links0: map<string, set<string>>, before: map<string, set<string>>,
                       sourceRows: seq<(string, string)>, todo: set<string>, parent: string)
    requires parent in todo && parent in links0 && ReconciledOutside(links0, before, sourceRows, todo)
    ensures ReconciledOutside(links0, before[parent := SourceChildren(sourceRows, parent)], sourceRows, todo - {parent})
  {
    var after := before[parent := SourceChildren(sourceRows, parent)];
    assert after.Keys == before.Keys + {parent} == links0.Keys;
  }

  /** Adding one parent's links to the record of the parents already handled. */
  lemma AddedStep(links0: map<string, set<string>>, sourceRows: seq<(string, string)>, todo: set<string>, parent: string,
                  added: seq<(string, string)>, newlyAdded: seq<(string, string)>)
    requires parent in todo && parent in links0
    requires AddedOutside(links0, sourceRows, todo, added)
    requires forall x :: x in newlyAdded <==> x.0 == parent && x.1 in SourceChildren(sourceRows, parent) - links0[parent]
    ensures AddedOutside(links0, sourceRows, todo - {parent}, added + newlyAdded)
  {
  }

  /** Adding one parent's removed links to the record of the parents already handled. */
  lemma RemovedStep(links0: map<string, set<string>>, sourceRows: seq<(string, string)>, todo: set<string>, parent: string,
                    removed: seq<(string, string)>, newlyRemoved: seq<(string, string)>)
    requires parent in todo && parent in links0
    requires RemovedOutside(links0, sourceRows, todo, removed)
    requires forall x :: x in newlyRemoved <==> x.0 == parent && x.1 in links0[parent] - SourceChildren(sourceRows, parent)
    ensures RemovedOutside(links0, sourceRows, todo - {parent}, removed + newlyRemoved)
  {
  }

  /** The children named by a list of (parent, child) pairs. */
  function PairChildren(pairs: seq<(string, string)>): set<string> {
    set x | x in pairs :: x.1
  }

  lemma PairChildrenAppend(pairs: seq<(string, string)>, x: (string, string))
    ensures PairChildren(pairs + [x]) == PairChildren(pairs) + {x.1}
  {
    assert x in pairs + [x];
    forall y | y in pairs ensures y in pairs + [x] {
    }
  }

  /**
   * A parent model's many-to-many field in the website db: the child keys
   * linked to each parent, and the keys of the child objects the website
   * holds (objects.get on a key outside them raises DoesNotExist).
   */
  class M2MField {
    var links: map<string, set<string>>
    var children: set<string>

    /** Foreign keys: every linked child is an object of the website. */
    ghost predicate Valid()
      reads this
    {
      forall p :: p in links ==> links[p] <= children
    }

    constructor (links0: map<string, set<string>>, children0: set<string>)
      ensures links == links0 && children == children0
    {
      links := links0;
      children := children0;
    }

    /**
     * _make_m2m_link for each child in turn, stopping with ok false at the
     * first child the website does not hold; returns the pairs linked.
     */
    method LinkAll(parent: string, toLink: set<string>) returns (linked: seq<(string, string)>, ok: bool)
      requires parent in links
      modifies this
      ensures children == old(children)
      ensures ok <==> toLink <= children
      ensures links == old(links)[parent := old(links)[parent] + PairChildren(linked)]
      ensures forall x :: x in linked ==> x.0 == parent && x.1 in toLink && x.1 in children
      ensures ok ==> forall x :: x in linked <==> x.0 == parent && x.1 in toLink
    {
      linked := [];
      var todo := toLink;
      assert old(links)[parent] + PairChildren(linked) == old(links)[parent];
      assert old(links)[parent := old(links)[parent]] == old(links);
      while todo != {}
        invariant todo <= toLink && parent in links && children == old(children)
        invariant links == old(links)[parent := old(links)[parent] + PairChildren(linked)]
        invariant toLink - todo <= children
        invariant forall x :: x in linked <==> x.0 == parent && x.1 in toLink - todo
        decreases todo
      {
        var child :| child in todo;
        if child !in children {
          return linked, false;
        }
        PairChildrenAppend(linked, (parent, child));
        assert links[parent] + {child} == old(links)[parent] + PairChildren(linked + [(parent, child)]);
        links := links[parent := links[parent] + {child}];
        linked := linked + [(parent, child)];
        todo := todo - {child};
      }
      ok := true;
    }

    /**
     * _break_m2m_link for each child in turn; returns the pairs unlinked.
     * The children unlinked are linked ones, which the website holds.
     */
    method UnlinkAll(parent: string, toUnlink: set<string>) returns (unlinked: seq<(string, string)>)
      requires parent in links
      modifies this
      ensures children == old(children)
      ensures links == old(links)[parent := old(links)[parent] - toUnlink]
      ensures forall x :: x in unlinked <==> x.0 == parent && x.1 in toUnlink
    {
      unlinked := [];
      var todo := toUnlink;
      assert old(links)[parent] - (toUnlink - todo) == old(links)[parent];
      assert old(links)[parent := old(links)[parent]] == old(links);
      while todo != {}
        invariant todo <= toUnlink && parent in links && children == old(children)
        invariant links == old(links)[parent := old(links)[parent] - (toUnlink - todo)]
        invariant forall x :: x in unlinked <==> x.0 == parent && x.1 in toUnlink - todo
        decreases todo
      {
        var child :| child in todo;
        assert old(links)[parent] - (toUnlink - (todo - {child})) == links[parent] - {child};
        links := links[parent := links[parent] - {child}];
        unlinked := unlinked + [(parent, child)];
        todo := todo - {child};
      }
      assert toUnlink - todo == toUnlink;
    }

    /**
     * _update_m2m_field: for every parent, the children the source links
     * but the website does not are linked, and the ones the website links
     * but the source does not are unlinked.  It succeeds exactly when the
     * website holds every child the source links; then every parent's
     * links are exactly the source's.  Otherwise DoesNotExist is raised
     * part-way: each parent is reconciled, untouched, or has gained only
     * some of the source's children.
     */
    method UpdateM2MField(sourceRows: seq<(string, string)>)
      returns (r: Result<(seq<(string, string)>, seq<(string, string)>), ImportError>)
      requires Valid()
      modifies this
      ensures Valid() && children == old(children)
      ensures links.Keys == old(links).Keys
      ensures r.Ok? <==> forall p :: p in old(links) ==> SourceChildren(sourceRows, p) <= children
      ensures r.Ok? ==> forall p :: p in links ==> links[p] == SourceChildren(sourceRows, p)
      ensures r.Ok? ==> forall x :: x in r.value.0 <==>
                x.0 in old(links) && x.1 in SourceChildren(sourceRows, x.0) && x.1 !in old(links)[x.0]
      ensures r.Ok? ==> forall x :: x in r.value.1 <==>
                x.0 in old(links) && x.1 in old(links)[x.0] && x.1 !in SourceChildren(sourceRows, x.0)
      ensures r.Ok? ==> forall x :: x in r.value.0 ==> x !in r.value.1
      ensures r.Err? ==> r.error == DoesNotExist
      ensures r.Err? ==> forall p :: p in links ==>
                links[p] == SourceChildren(sourceRows, p)
                || old(links)[p] <= links[p] <= old(links)[p] + SourceChildren(sourceRows, p) * children
    {
      var added, removed := [], [];
      var todo := links.Keys;
      while todo != {}
        invariant todo <= links.Keys && children == old(children)
        invariant ReconciledOutside(old(links), links, sourceRows, todo)
        invariant forall p :: p in links && p !in todo ==> SourceChildren(sourceRows, p) <= children
        invariant AddedOutside(old(links), sourceRows, todo, added)
        invariant RemovedOutside(old(links), sourceRows, todo, removed)
        decreases todo
      {
        var parent :| parent in todo;
        ghost var before := links;
        var linked := links[parent];
        var source := SourceChildren(sourceRows, parent);
        var toAdd, toRemove := source - linked, linked - source;
        var newlyAdded, ok := LinkAll(parent, toAdd);
        if !ok {
          assert !(source <= children);
          assert PairChildren(newlyAdded) <= source * children;
          return Err(DoesNotExist);
        }
        assert PairChildren(newlyAdded) == toAdd by {
          forall c | c in toAdd ensures c in PairChildren(newlyAdded) {
            assert (parent, c) in newlyAdded;
          }
        }
        var newlyRemoved := UnlinkAll(parent, toRemove);
        assert linked + toAdd - toRemove == source;
        assert links == before[parent := source];
        ReconciledStep(old(links), before, sourceRows, todo, parent);
        AddedStep(old(links), sourceRows, todo, parent, added, newlyAdded);
        RemovedStep(old(links), sourceRows, todo, parent, removed, newlyRemoved);
        added := added + newlyAdded;
        removed := removed + newlyRemoved;
        todo := todo - {parent};
      }
      return Ok((added, removed));
    }
  }

  // ---------------------------------------------------------------------
  // Updating an imported object
  // ---------------------------------------------------------------------

  /** Model arguments are a dict: each field name occurs once. */
  predicate DistinctNames(args: seq<(string, Value)>) {
    forall i, j :: 0 <= i < j < |args| ==> args[i].0 != args[j].0
  }

  predicate Names(args: seq<(string, Value)>, name: string) {
    exists k :: 0 <= k < |args| && args[k].0 == name
  }

  /** model_args[name]. */
  function Lookup(args: seq<(string, Value)>, name: string): (r: Option<Value>)
    ensures r.Some? <==> Names(args, name)
    ensures r.Some? ==> exists k :: 0 <= k < |args| && args[k] == (name, r.value)
  {
    if |args| == 0 then None
    else if args[0].0 == name then Some(args[0].1)
    else
      var r := Lookup(args[1..], name);
      assert forall k :: 0 <= k < |args| - 1 ==> args[1..][k] == args[k + 1];
      assert Names(args, name) ==> Names(args[1..], name) by {
        if Names(args, name) {
          var k :| 0 <= k < |args| && args[k].0 == name;
          assert args[1..][k - 1].0 == name;
        }
      }
      r
  }

  /**
   * A model's save() leaves the field alone: it keeps the field names and
   * the field's value.  The save overrides recompute only derived fields
   * (phs, full_accession, dbgap_link, trait_flavor_name), which no
   * source column names.
   */
  ghost predicate SaveKeeps(save: Row -> Row, name: string) {
    forall f: Row {:trigger save(f)} :: save(f).Keys == f.Keys && (name in f ==> save(f)[name] == f[name])
  }

  ghost predicate SaveKeepsArgs(save: Row -> Row, args: seq<(string, Value)>) {
    forall k :: 0 <= k < |args| ==> SaveKeeps(save, args[k].0)
  }

  /**
   * The object's fields after setting each argument in turn, stopping at
   * the first name it does not have; every assignment that changes a
   * field is followed by the model's save(), which may recompute derived
   * fields (the identity for a model without a save override).
   */
  function ApplyArgs(fields: Row, args: seq<(string, Value)>, save: Row -> Row): Row
    decreases |args|
  {
    if |args| == 0 || args[0].0 !in fields then fields
    else if fields[args[0].0] == args[0].1 then ApplyArgs(fields, args[1..], save)
    else ApplyArgs(save(fields[args[0].0 := args[0].1]), args[1..], save)
  }

  /** The first argument name the object does not have, if any: getattr raises there. */
  function UnknownField(fields: Row, args: seq<(string, Value)>, save: Row -> Row): Option<string>
    decreases |args|
  {
    if |args| == 0 then None
    else if args[0].0 !in fields then Some(args[0].0)
    else if fields[args[0].0] == args[0].1 then UnknownField(fields, args[1..], save)
    else UnknownField(save(fields[args[0].0 := args[0].1]), args[1..], save)
  }

  /** How many assignments find a different value in the field. */
  function CountChanges(fields: Row, args: seq<(string, Value)>, save: Row -> Row): nat
    decreases |args|
  {
    if |args| == 0 || args[0].0 !in fields then 0
    else if fields[args[0].0] == args[0].1 then CountChanges(fields, args[1..], save)
    else 1 + CountChanges(save(fields[args[0].0 := args[0].1]), args[1..], save)
  }

  /**
   * Applying the arguments keeps the field names and leaves alone a field
   * that no argument names and save() does not recompute.
   */
  lemma {:induction false} ApplyUntouched(fields: Row, args: seq<(string, Value)>, name: string, save: Row -> Row)
    requires name in fields && !Names(args, name) && SaveKeeps(save, name)
    ensures ApplyArgs(fields, args, save).Keys == fields.Keys
    ensures ApplyArgs(fields, args, save)[name] == fields[name]
    decreases |args|
  {
    if |args| > 0 && args[0].0 in fields {
      assert forall k :: 0 <= k < |args| - 1 ==> args[1..][k] == args[k + 1];
      if fields[args[0].0] == args[0].1 {
        ApplyUntouched(fields, args[1..], name, save);
      } else {
        var next := fields[args[0].0 := args[0].1];
        assert save(next).Keys == fields.Keys && save(next)[name] == fields[name];
        ApplyUntouched(save(next), args[1..], name, save);
      }
    }
  }

  /**
   * Counting the differing fields, as the docstring promises, reports
   * exactly whether the object changed, whatever save() recomputes besides
   * the fields the arguments name.
   */
  lemma {:induction false} ChangesCounted(fields: Row, args: seq<(string, Value)>, save: Row -> Row)
    requires DistinctNames(args) && SaveKeepsArgs(save, args)
    ensures CountChanges(fields, args, save) > 0 <==> ApplyArgs(fields, args, save) != fields
    decreases |args|
  {
    if |args| > 0 && args[0].0 in fields {
      var (name, value) := args[0];
      assert forall k :: 0 <= k < |args| - 1 ==> args[1..][k] == args[k + 1];
      assert DistinctNames(args[1..]);
      assert SaveKeepsArgs(save, args[1..]);
      if fields[name] == value {
        ChangesCounted(fields, args[1..], save);
      } else {
        assert SaveKeeps(save, args[0].0);
        var next := save(fields[name := value]);
        assert name in next && next[name] == value;
        assert !Names(args[1..], name);
        ApplyUntouched(next, args[1..], name, save);
      }
    }
  }

  /**
   * An object whose name field changes: for any model whose save() leaves
   * i_name alone, the update happens, yet _update_model_object_from_args
   * reports none.
   */
  lemma UpdateGoesUnreported(save: Row -> Row)
    requires SaveKeeps(save, "i_name")
    ensures var fields := map["i_id" := Number(1), "i_name" := Text("old")];
            var args := [("i_id", Number(1)), ("i_name", Text("new"))];
            DistinctNames(args) && Lookup(args, "i_id") == Some(Number(1))
            && UnknownField(fields, args, save).None? && ApplyArgs(fields, args, save) != fields
  {
    var fields := map["i_id" := Number(1), "i_name" := Text("old")];
    var args := [("i_id", Number(1)), ("i_name", Text("new"))];
    var next := fields["i_name" := Text("new")];
    assert save(next)["i_name"] == Text("new");
    assert args[1..][1..] == [];
    assert ApplyArgs(fields, args, save) == save(next);
  }

  /**
   * The website's objects of one model, by primary key, and the model's
   * save(), a function of the object's fields (and of the related objects
   * it reads, which an update leaves alone).
   */
  class ModelObjects {
    var objects: map<Value, Row>
    const save: Row -> Row

    constructor (objects0: map<Value, Row>, save0: Row -> Row)
      ensures objects == objects0 && save == save0
    {
      objects := objects0;
      save := save0;
    }

    /**
     * _update_model_object_from_args as written: every differing field is
     * set and saved, but the counter is incremented by 0, so success is
     * always reported as "no update".
     */
    method UpdateFromArgsAsWritten(pkName: string, args: seq<(string, Value)>) returns (r: Result<bool, ImportError>)
      modifies this
      ensures Lookup(args, pkName).None? ==> r == Err(KeyError(pkName)) && objects == old(objects)
      ensures Lookup(args, pkName).Some? && Lookup(args, pkName).value !in old(objects) ==>
                r == Err(DoesNotExist) && objects == old(objects)
      ensures Lookup(args, pkName).Some? && Lookup(args, pkName).value in old(objects) ==>
                var key := Lookup(args, pkName).value;
                objects == old(objects)[key := ApplyArgs(old(objects)[key], args, save)]
                && r == match UnknownField(old(objects)[key], args, save)
                        case Some(name) => Err(AttributeError(name))
                        case None => Ok(false)
    {
      var pk := Lookup(args, pkName);
      if pk.None? {
        return Err(KeyError(pkName));
      }
      if pk.value !in objects {
        return Err(DoesNotExist);
      }
      var key := pk.value;
      var updates := 0;
      var i := 0;
      while i < |args|
        invariant 0 <= i <= |args| && key in objects
        invariant objects == old(objects)[key := objects[key]]
        invariant ApplyArgs(objects[key], args[i..], save) == ApplyArgs(old(objects)[key], args, save)
        invariant UnknownField(objects[key], args[i..], save) == UnknownField(old(objects)[key], args, save)
        invariant updates == 0
      {
        var (name, value) := args[i];
        assert args[i..][1..] == args[i + 1..];
        if name !in objects[key] {
          return Err(AttributeError(name));
        }
        if objects[key][name] != value {
          updates := updates + 0;
          objects := objects[key := save(objects[key][name := value])];
        }
        i := i + 1;
      }
      return Ok(updates > 0);
    }

    /**
     * _update_model_object_from_args with the counter incremented per
     * changed field: it reports whether some field differed, which is
     * exactly whether the object changed when save() recomputes no field
     * the arguments name.
     */
    method UpdateFromArgs(pkName: string, args: seq<(string, Value)>) returns (r: Result<bool, ImportError>)
      requires DistinctNames(args)
      modifies this
      ensures Lookup(args, pkName).None? ==> r == Err(KeyError(pkName)) && objects == old(objects)
      ensures Lookup(args, pkName).Some? && Lookup(args, pkName).value !in old(objects) ==>
                r == Err(DoesNotExist) && objects == old(objects)
      ensures Lookup(args, pkName).Some? && Lookup(args, pkName).value in old(objects) ==>
                var key := Lookup(args, pkName).value;
                objects == old(objects)[key := ApplyArgs(old(objects)[key], args, save)]
                && r == match UnknownField(old(objects)[key], args, save)
                        case Some(name) => Err(AttributeError(name))
                        case None => Ok(CountChanges(old(objects)[key], args, save) > 0)
      ensures r.Ok? && SaveKeepsArgs(save, args) ==>
                var key := Lookup(args, pkName).value;
                r.value == (objects[key] != old(objects)[key])
    {
      var pk := Lookup(args, pkName);
      if pk.None? {
        return Err(KeyError(pkName));
      }
      if pk.value !in objects {
        return Err(DoesNotExist);
      }
      var key := pk.value;
      var updates := 0;
      var i := 0;
      while i < |args|
        invariant 0 <= i <= |args| && key in objects
        invariant objects == old(objects)[key := objects[key]]
        invariant ApplyArgs(objects[key], args[i..], save) == ApplyArgs(old(objects)[key], args, save)
        invariant UnknownField(objects[key], args[i..], save) == UnknownField(old(objects)[key], args, save)
        invariant updates + CountChanges(objects[key], args[i..], save) == CountChanges(old(objects)[key], args, save)
      {
        var (name, value) := args[i];
        assert args[i..][1..] == args[i + 1..];
        if name !in objects[key] {
          return Err(AttributeError(name));
        }
        if objects[key][name] != value {
          updates := updates + 1;
          objects := objects[key := save(objects[key][name := value])];
        }
        i := i + 1;
      }
      assert args[i..] == [];
      if SaveKeepsArgs(save, args) {
        ChangesCounted(old(objects)[key], args, save);
      }
      return Ok(updates > 0);
    }
  }

  // ---------------------------------------------------------------------
  // The command's phases
  // ---------------------------------------------------------------------

  datatype Phase = Backup | UpdateSourceTables | UpdateHarmonizedTables | ImportSourceTables | ImportHarmonizedTables

  predicate IsUpdate(p: Phase) { p == UpdateSourceTables || p == UpdateHarmonizedTables }

  predicate IsImport(p: Phase) { p == ImportSourceTables || p == ImportHarmonizedTables }

  /** handle: an optional backup, then the updates unless --import_only, then the imports unless --update_only. */
  function HandlePhases(noBackup: bool, importOnly: bool, updateOnly: bool): seq<Phase> {
    (if noBackup then [] else [Backup])
    + (if importOnly then [] else [UpdateSourceTables, UpdateHarmonizedTables])
    + (if updateOnly then [] else [ImportSourceTables, ImportHarmonizedTables])
  }

  /** The backup is taken unless --no_backup, and comes first; each "only" flag removes exactly the other kind of phase. */
  lemma HandleFlags(noBackup: bool, importOnly: bool, updateOnly: bool)
    ensures var ph := HandlePhases(noBackup, importOnly, updateOnly);
            (Backup in ph <==> !noBackup) && (Backup in ph ==> ph[0] == Backup)
            && (UpdateSourceTables in ph <==> !importOnly) && (UpdateHarmonizedTables in ph <==> !importOnly)
            && (ImportSourceTables in ph <==> !updateOnly) && (ImportHarmonizedTables in ph <==> !updateOnly)
  {
  }

  /**
   * Every update comes before every import, source tables come before
   * harmonized ones, and no phase runs twice.
   */
  lemma HandleOrder(noBackup: bool, importOnly: bool, updateOnly: bool)
    ensures var ph := HandlePhases(noBackup, importOnly, updateOnly);
            (forall i, j :: 0 <= i < j < |ph| && IsUpdate(ph[j]) ==> !IsImport(ph[i]))
            && (forall i, j :: 0 <= i < j < |ph| && ph[j] == UpdateSourceTables ==> ph[i] != UpdateHarmonizedTables)
            && (forall i, j :: 0 <= i < j < |ph| && ph[j] == ImportSourceTables ==> ph[i] != ImportHarmonizedTables)
            && (forall i, j :: 0 <= i < j < |ph| ==> ph[i] != ph[j])
  {
  }
}
