/**
 * The pure helpers of the populate_trait_models command: the parser of the
 * `key = value` MySQL option file (getCnfDict) and the decision in getDb
 * whether to connect at all, and with which option file.
 */
module PopulateTraitModels {
  import opened Wrappers
  import opened PyStr

  // ---------------------------------------------------------------------
  // str.strip('\n')
  // ---------------------------------------------------------------------

  predicate AllNewlines(s: string) { forall k :: 0 <= k < |s| ==> s[k] == '\n' }

  function LeadingNewlines(s: string): (n: nat)
    ensures n <= |s| && forall k :: 0 <= k < n ==> s[k] == '\n'
    ensures n == |s| || s[n] != '\n'
  {
    if |s| == 0 || s[0] != '\n' then 0
    else 1 + LeadingNewlines(s[1..])
  }

  function TrailingNewlines(s: string): (n: nat)
    ensures n <= |s| && forall k :: |s| - n <= k < |s| ==> s[k] == '\n'
    ensures n == |s| || s[|s| - 1 - n] != '\n'
  {
    if |s| == 0 || s[|s| - 1] != '\n' then 0
    else 1 + TrailingNewlines(s[..|s| - 1])
  }

  /** r is s with the newlines s[..i] before it and the newlines after it removed. */
  predicate NewlinesStrippedAt(s: string, r: string, i: int) {
    0 <= i <= |s| - |r| && r == s[i..i + |r|]
    && (forall k :: 0 <= k < i ==> s[k] == '\n')
    && (forall k :: i + |r| <= k < |s| ==> s[k] == '\n')
  }

  /**
   * str.strip('\n'): s without the newlines at either end; only newline
   * characters go, and what is left neither starts nor ends with one.
   */
  function StripNewlines(s: string): (r: string)
    ensures exists i :: NewlinesStrippedAt(s, r, i)
    ensures |r| == 0 || (r[0] != '\n' && r[|r| - 1] != '\n')
  {
    var i := LeadingNewlines(s);
    var j := TrailingNewlines(s[i..]);
    assert NewlinesStrippedAt(s, s[i..|s| - j], i);
    s[i..|s| - j]
  }

  /** Number of occurrences of c in s. */
  function Count(c: char, s: string): nat {
    if |s| == 0 then 0 else (if s[0] == c then 1 else 0) + Count(c, s[1..])
  }

  lemma {:induction false} CountConcat(c: char, a: string, b: string)
    ensures Count(c, a + b) == Count(c, a) + Count(c, b)
    decreases |a|
  {
    if |a| > 0 {
      CountConcat(c, a[1..], b);
      assert (a + b)[1..] == a[1..] + b;
    } else {
      assert a + b == b;
    }
  }

  lemma {:induction false} CountNewlines(c: char, s: string)
    requires c != '\n' && AllNewlines(s)
    ensures Count(c, s) == 0
    decreases |s|
  {
    if |s| > 0 {
      CountNewlines(c, s[1..]);
    }
  }

  lemma {:induction false} CountAbsent(c: char, s: string)
    ensures Count(c, s) == 0 <==> c !in s
    decreases |s|
  {
    if |s| > 0 {
      CountAbsent(c, s[1..]);
      assert s == [s[0]] + s[1..];
    }
  }

  /** Stripping newlines removes no other character. */
  lemma StripNewlinesKeepsOthers(c: char, s: string)
    requires c != '\n'
    ensures Count(c, StripNewlines(s)) == Count(c, s)
  {
    var r := StripNewlines(s);
    var i :| NewlinesStrippedAt(s, r, i);
    assert AllNewlines(s[..i]) && AllNewlines(s[i + |r|..]);
    assert s == s[..i] + r + s[i + |r|..];
    CountConcat(c, s[..i] + r, s[i + |r|..]);
    CountConcat(c, s[..i], r);
    CountNewlines(c, s[..i]);
    CountNewlines(c, s[i + |r|..]);
  }

  /** A non-empty run of newlines in s means s holds a newline. */
  lemma NewlineRun(s: string, a: int, b: int)
    requires 0 <= a <= b <= |s| && forall k :: a <= k < b ==> s[k] == '\n'
    ensures a == b || '\n' in s
  {
    if a < b {
      assert s[a] == '\n';
    }
  }

  /** A line without newlines is left as it is. */
  lemma StripNewlinesNone(s: string)
    requires '\n' !in s
    ensures StripNewlines(s) == s
  {
    var r := StripNewlines(s);
    var i :| NewlinesStrippedAt(s, r, i);
    NewlineRun(s, 0, i);
    NewlineRun(s, i + |r|, |s|);
  }

  // ---------------------------------------------------------------------
  // Splitting on one character
  // ---------------------------------------------------------------------

  /** Splitting on a one-character separator gives one more piece than it has occurrences. */
  lemma {:induction false} SplitOnCharCount(s: string, c: char)
    ensures |SplitOn(s, [c])| == Count(c, s) + 1
    decreases |s|
  {
    if |s| > 0 {
      SplitOnCharCount(s[1..], c);
    }
  }

  /** A piece that does not contain the one-character separator lacks that character. */
  lemma NotContainsChar(p: string, c: char)
    requires !Contains(p, [c])
    ensures c !in p
  {
    if c in p {
      var k :| 0 <= k < |p| && p[k] == c;
      assert OccursAt(p, [c], k);
    }
  }

  /** A stripped slice of a string lacking c lacks c. */
  lemma StripLacks(p: string, c: char)
    requires c !in p
    ensures c !in Strip(p)
  {
    var i :| StrippedAt(p, Strip(p), i);
  }

  // ---------------------------------------------------------------------
  // getCnfDict
  // ---------------------------------------------------------------------

  /**
   * One line of the option file: newlines stripped, split on "=", and kept
   * as a (key, value) pair of the stripped halves only when there are
   * exactly two halves.
   */
  function Entry(line: string): Option<(string, string)> {
    var parts := SplitOn(StripNewlines(line), "=");
    if |parts| == 2 then Some((Strip(parts[0]), Strip(parts[1]))) else None
  }

  /** A line contributes an entry exactly when it holds one "=". */
  lemma EntryWhenOneEquals(line: string)
    ensures Entry(line).Some? <==> Count('=', line) == 1
  {
    SplitOnCharCount(StripNewlines(line), '=');
    StripNewlinesKeepsOthers('=', line);
  }

  /** The key and the value of an entry are whitespace-stripped and hold no "=". */
  lemma EntryStripped(line: string)
    ensures Entry(line).Some? ==>
              var (k, v) := Entry(line).value;
              Strip(k) == k && Strip(v) == v && '=' !in k && '=' !in v
  {
    var parts := SplitOn(StripNewlines(line), "=");
    if |parts| == 2 {
      StripIdempotent(parts[0]);
      StripIdempotent(parts[1]);
      NotContainsChar(parts[0], '=');
      NotContainsChar(parts[1], '=');
      StripLacks(parts[0], '=');
      StripLacks(parts[1], '=');
    }
  }

  /**
   * The list comprehension of getCnfDict with the line parser f: the pairs
   * f gives for the lines, in file order, skipping the lines it rejects.
   */
  function Collect(lines: seq<string>, f: string -> Option<(string, string)>): (pairs: seq<(string, string)>)
    ensures |pairs| <= |lines|
  {
    if |lines| == 0 then []
    else
      match f(lines[|lines| - 1])
      case Some(e) => Collect(lines[..|lines| - 1], f) + [e]
      case None => Collect(lines[..|lines| - 1], f)
  }

  lemma CollectStep(lines: seq<string>, f: string -> Option<(string, string)>)
    requires |lines| > 0
    ensures Collect(lines, f) == Collect(lines[..|lines| - 1], f) +
              (if f(lines[|lines| - 1]).Some? then [f(lines[|lines| - 1]).value] else [])
  {
  }

  /** Every collected pair comes from a line. */
  lemma {:induction false} CollectOrigin(lines: seq<string>, f: string -> Option<(string, string)>, e: (string, string))
    requires e in Collect(lines, f)
    ensures exists i :: 0 <= i < |lines| && f(lines[i]) == Some(e)
    decreases |lines|
  {
    var init := lines[..|lines| - 1];
    var last := f(lines[|lines| - 1]);
    CollectStep(lines, f);
    if last != Some(e) {
      if last.Some? {
        assert Collect(lines, f) == Collect(init, f) + [last.value] && e != last.value;
      }
      assert e in Collect(init, f);
      CollectOrigin(init, f, e);
      var i :| 0 <= i < |init| && f(init[i]) == Some(e);
      assert lines[i] == init[i];
    }
  }

  /** The pair of every line f accepts is collected. */
  lemma {:induction false} CollectKept(lines: seq<string>, f: string -> Option<(string, string)>, i: int)
    requires 0 <= i < |lines| && f(lines[i]).Some?
    ensures f(lines[i]).value in Collect(lines, f)
    decreases |lines|
  {
    var init := lines[..|lines| - 1];
    CollectStep(lines, f);
    if i < |lines| - 1 {
      CollectKept(init, f, i);
      assert init[i] == lines[i];
    }
  }

  /** dict(pairs): a later pair with the same key replaces an earlier one. */
  function DictOf(pairs: seq<(string, string)>): (m: map<string, string>)
    ensures |m.Keys| <= |pairs|
  {
    if |pairs| == 0 then map[]
    else
      var last := pairs[|pairs| - 1];
      var m := DictOf(pairs[..|pairs| - 1]);
      assert m[last.0 := last.1].Keys == m.Keys + {last.0};
      m[last.0 := last.1]
  }

  lemma DictOfStep(pairs: seq<(string, string)>, e: (string, string))
    ensures DictOf(pairs + [e]) == DictOf(pairs)[e.0 := e.1]
  {
    assert (pairs + [e])[..|pairs|] == pairs;
  }

  /** A key is in dict(pairs) exactly when some pair has it, and its value is that of such a pair. */
  lemma {:induction false} DictOfKey(pairs: seq<(string, string)>, k: string)
    ensures k in DictOf(pairs) <==> exists j :: 0 <= j < |pairs| && pairs[j].0 == k
    ensures k in DictOf(pairs) ==> (k, DictOf(pairs)[k]) in pairs
    decreases |pairs|
  {
    if |pairs| > 0 {
      var init := pairs[..|pairs| - 1];
      DictOfKey(init, k);
      if k in DictOf(init) {
        var j :| 0 <= j < |init| && init[j].0 == k;
        assert pairs[j] == init[j];
      }
      if exists j :: 0 <= j < |pairs| && pairs[j].0 == k {
        var j :| 0 <= j < |pairs| && pairs[j].0 == k;
        if j < |init| {
          assert init[j] == pairs[j];
        }
      }
    }
  }

  /** Line i gives, under f, a pair with key k. */
  predicate GivesKey(lines: seq<string>, f: string -> Option<(string, string)>, i: int, k: string) {
    0 <= i < |lines| && f(lines[i]).Some? && f(lines[i]).value.0 == k
  }

  /** When a key repeats, the pair of its last line is the one dict() keeps. */
  lemma {:induction false} LastPairWins(lines: seq<string>, f: string -> Option<(string, string)>,
                                        i: int, k: string, v: string)
    requires 0 <= i < |lines| && f(lines[i]) == Some((k, v))
    requires forall j :: i < j < |lines| ==> !GivesKey(lines, f, j, k)
    ensures k in DictOf(Collect(lines, f)) && DictOf(Collect(lines, f))[k] == v
    decreases |lines|
  {
    var init := lines[..|lines| - 1];
    var last := f(lines[|lines| - 1]);
    CollectStep(lines, f);
    if i < |lines| - 1 {
      forall j | i < j < |init| ensures !GivesKey(init, f, j, k) {
        assert init[j] == lines[j] && !GivesKey(lines, f, j, k);
      }
      LastPairWins(init, f, i, k, v);
      assert !GivesKey(lines, f, |lines| - 1, k);
      if last.Some? {
        DictOfStep(Collect(init, f), last.value);
      }
    } else {
      DictOfStep(Collect(init, f), (k, v));
    }
  }

  /** getCnfDict over the lines of the option file. */
  function CnfDict(lines: seq<string>): (cnf: map<string, string>)
    ensures |cnf.Keys| <= |lines|
  {
    DictOf(Collect(lines, Entry))
  }

  /** A key of the dictionary comes from some line that gives an entry for it. */
  lemma CnfDictKeyOrigin(lines: seq<string>, k: string)
    requires k in CnfDict(lines)
    ensures exists i :: GivesKey(lines, Entry, i, k)
  {
    var pairs := Collect(lines, Entry);
    DictOfKey(pairs, k);
    var j :| 0 <= j < |pairs| && pairs[j].0 == k;
    CollectOrigin(lines, Entry, pairs[j]);
    var i :| 0 <= i < |lines| && Entry(lines[i]) == Some(pairs[j]);
    assert GivesKey(lines, Entry, i, k);
  }

  /** A line that gives an entry for a key puts the key in the dictionary. */
  lemma CnfDictKeyKept(lines: seq<string>, i: int, k: string)
    requires GivesKey(lines, Entry, i, k)
    ensures k in CnfDict(lines)
  {
    var pairs := Collect(lines, Entry);
    CollectKept(lines, Entry, i);
    var j :| 0 <= j < |pairs| && pairs[j] == Entry(lines[i]).value;
    DictOfKey(pairs, k);
  }

  /** A key is in the dictionary exactly when some line gives an entry for it. */
  lemma CnfDictKeys(lines: seq<string>, k: string)
    ensures k in CnfDict(lines) <==> exists i :: GivesKey(lines, Entry, i, k)
  {
    if k in CnfDict(lines) {
      CnfDictKeyOrigin(lines, k);
    }
    if exists i :: GivesKey(lines, Entry, i, k) {
      var i :| GivesKey(lines, Entry, i, k);
      CnfDictKeyKept(lines, i, k);
    }
  }

  /** Every key and value of the dictionary is stripped and holds no "=". */
  lemma CnfDictStripped(lines: seq<string>, k: string)
    requires k in CnfDict(lines)
    ensures Strip(k) == k && '=' !in k
    ensures Strip(CnfDict(lines)[k]) == CnfDict(lines)[k] && '=' !in CnfDict(lines)[k]
  {
    var e := (k, CnfDict(lines)[k]);
    DictOfKey(Collect(lines, Entry), k);
    CollectOrigin(lines, Entry, e);
    var i :| 0 <= i < |lines| && Entry(lines[i]) == Some(e);
    EntryStripped(lines[i]);
  }

  /** When a key repeats, the value on its last line is the one kept. */
  lemma LastLineWins(lines: seq<string>, i: int, k: string, v: string)
    requires 0 <= i < |lines| && Entry(lines[i]) == Some((k, v))
    requires forall j :: i < j < |lines| ==> !GivesKey(lines, Entry, j, k)
    ensures k in CnfDict(lines) && CnfDict(lines)[k] == v
  {
    LastPairWins(lines, Entry, i, k, v);
  }

  // ---------------------------------------------------------------------
  // getDb
  // ---------------------------------------------------------------------

  const Workstations: seq<string> := ["gcc-mac-001.in.biostat.washington.edu",
                                      "gcc-mac-003.in.gcc.biostat.washington.edu",
                                      "gcc-mac-004.in.gcc.biostat.washington.edu"]

  const TestDatabases: seq<string> := ["olga_analysis_test", "test"]

  const WorkstationCnf: string := "/projects/geneva/gcc-fs2/OLGA/pipeline/.pipeline_olga-mysql-workstation-ro.cnf"

  const ServerCnf: string := "/projects/geneva/gcc-fs2/OLGA/pipeline/.pipeline_olga-mysql-server-ro.cnf"

  /** The option file getDb reads on the given host. */
  function CnfFile(host: string): string {
    if host in Workstations then WorkstationCnf else ServerCnf
  }

  /** The arguments getDb passes to mysql.connector.connect. */
  datatype ConnectRequest = ConnectRequest(database: string, charset: string, useUnicode: bool,
                                           options: map<string, string>)

  /**
   * The keyword arguments getDb spells out in its call to connect; an
   * option file that sets one of them again through **cnf makes the call
   * raise TypeError ("got multiple values for keyword argument").
   */
  const ConnectKeywords: set<string> := {"database", "charset", "use_unicode"}

  datatype DbError = TypeError

  /** The option dictionary sets one of the keywords getDb passes itself. */
  predicate ClashesWithCall(cnf: map<string, string>) {
    exists k :: k in ConnectKeywords && k in cnf
  }

  /**
   * getDb: None, without reading any option file, on a workstation for a
   * database that is not a test database; TypeError when the host's option
   * file sets a keyword the call already passes; otherwise the connection
   * request for the database, with the options parsed from that file.
   * The host name and the reading of the file are parameters.
   */
  function GetDb(dbname: string, host: string, readLines: string -> seq<string>): (r: Result<Option<ConnectRequest>, DbError>)
    ensures r == Ok(None) <==> host in Workstations && dbname !in TestDatabases
    ensures r.Err? <==> !(host in Workstations && dbname !in TestDatabases) &&
                        ClashesWithCall(CnfDict(readLines(CnfFile(host))))
    ensures r.Ok? && r.value.Some? ==>
              r.value.value.database == dbname && r.value.value.charset == "latin1" && !r.value.value.useUnicode &&
              r.value.value.options == CnfDict(readLines(CnfFile(host))) &&
              forall k :: k in ConnectKeywords ==> k !in r.value.value.options
  {
    if host in Workstations && dbname !in TestDatabases then Ok(None)
    else
      var cnf := CnfDict(readLines(CnfFile(host)));
      if ClashesWithCall(cnf) then Err(TypeError)
      else Ok(Some(ConnectRequest(dbname, "latin1", false, cnf)))
  }

  /**
   * From a workstation only the test databases are reached, and with the
   * workstation's option file; from any other host every database is
   * reached with the server's option file, unless that file sets one of
   * the call's own keywords.
   */
  lemma WorkstationsReachOnlyTests(dbname: string, host: string, readLines: string -> seq<string>)
    ensures host in Workstations ==>
              (GetDb(dbname, host, readLines).Ok? && GetDb(dbname, host, readLines).value.Some? <==>
                 dbname in TestDatabases && !ClashesWithCall(CnfDict(readLines(WorkstationCnf))))
    ensures host in Workstations && GetDb(dbname, host, readLines).Ok? && GetDb(dbname, host, readLines).value.Some? ==>
              GetDb(dbname, host, readLines).value.value.options == CnfDict(readLines(WorkstationCnf))
    ensures host !in Workstations ==>
              GetDb(dbname, host, readLines) ==
                if ClashesWithCall(CnfDict(readLines(ServerCnf))) then Err(TypeError)
                else Ok(Some(ConnectRequest(dbname, "latin1", false, CnfDict(readLines(ServerCnf)))))
  {
  }

  /** A line "key=value" without newlines is left alone by strip('\n'). */
  lemma OptionLineUnstripped(k: string, v: string)
    requires '\n' !in k && '\n' !in v
    ensures StripNewlines(k + "=" + v) == k + "=" + v
  {
    assert '\n' !in k + "=" + v;
    StripNewlinesNone(k + "=" + v);
  }

  /** A line "key=value" splits on "=" into the key and the value when neither holds "=". */
  lemma OptionLineSplits(k: string, v: string)
    requires '=' !in k && '=' !in v
    ensures SplitOn(k + "=" + v, "=") == [k, v]
  {
    assert JoinWith("=", [k, v]) == k + "=" + v;
    MissingCharNotContains(k, "=", '=');
    MissingCharNotContains(v, "=", '=');
    SplitOnJoin([k, v], "=");
  }

  /** A line "key=value" of a plain key and value gives exactly that entry. */
  lemma OptionLineEntry(k: string, v: string)
    requires '\n' !in k && '\n' !in v && '=' !in k && '=' !in v
    requires Strip(k) == k && Strip(v) == v
    ensures Entry(k + "=" + v) == Some((k, v))
  {
    OptionLineUnstripped(k, v);
    OptionLineSplits(k, v);
  }

  /**
   * An option file line "database=..." on a server host makes getDb raise
   * TypeError, whatever database is asked for.
   */
  lemma DatabaseLineRaises(dbname: string, host: string, readLines: string -> seq<string>, value: string)
    requires host !in Workstations
    requires '\n' !in value && '=' !in value && Strip(value) == value
    requires "database=" + value in readLines(ServerCnf)
    ensures GetDb(dbname, host, readLines) == Err(TypeError)
  {
    var lines := readLines(ServerCnf);
    assert "database" in CnfDict(lines) by {
      var i :| 0 <= i < |lines| && lines[i] == "database=" + value;
      StripUnchanged("database");
      assert "database=" + value == "database" + "=" + value;
      OptionLineEntry("database", value);
      CnfDictKeyKept(lines, i, "database");
    }
    assert "database" in ConnectKeywords;
    assert ClashesWithCall(CnfDict(lines));
  }
}
