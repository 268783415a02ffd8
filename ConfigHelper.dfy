/**
  The line-oriented configuration readers: the business-unit CSV, the
  exclusion list and the cluster properties file. Each works on the lines of
  its file (and on whether the file exists) instead of reading the disk.
*/
module ConfigHelper {
  import opened Wrappers
  import opened Text

  // ---------------------------------------------------------------------------
  // SplitCsvLine: a comma splits fields unless it is inside double quotes;
  // the quotes themselves are dropped.

  /** The splitter's loop state: finished fields, the field being built, and the quote flag. */
  datatype CsvState = CsvState(fields: seq<string>, current: string, inQuotes: bool)

  /** One iteration of the splitter's character loop. */
  function CsvStep(st: CsvState, c: char): CsvState {
    if c == '"' then st.(inQuotes := !st.inQuotes)
    else if c == ',' && !st.inQuotes then st.(fields := st.fields + [st.current], current := "")
    else st.(current := st.current + [c])
  }

  /** The loop state after the whole of `line`. */
  function CsvScan(line: string): CsvState {
    if line == [] then CsvState([], "", false)
    else CsvStep(CsvScan(line[..|line| - 1]), line[|line| - 1])
  }

  /** The fields the splitter returns: the finished ones and the last one being built. */
  function CsvFields(line: string): seq<string> {
    var st := CsvScan(line);
    st.fields + [st.current]
  }

  /** Number of `"` in `s`. */
  function QuoteCount(s: string): nat {
    multiset(s)['"']
  }

  /** Commas preceded by an even number of quotes, i.e. outside any quoted section. */
  function UnquotedCommas(s: string): nat {
    if s == [] then 0
    else
      var front := s[..|s| - 1];
      UnquotedCommas(front) + (if s[|s| - 1] == ',' && QuoteCount(front) % 2 == 0 then 1 else 0)
  }

  lemma JoinExtendLast(done: seq<string>, current: string, c: char)
    ensures Join(done + [current + [c]], ',') == Join(done + [current], ',') + [c]
  {
    var a := done + [current + [c]];
    var b := done + [current];
    if done != [] {
      assert a[..|a| - 1] == done && b[..|b| - 1] == done;
    }
  }

  lemma JoinNewField(done: seq<string>, current: string)
    ensures Join(done + [current] + [""], ',') == Join(done + [current], ',') + [',']
  {
    var a := done + [current] + [""];
    assert a[..|a| - 1] == done + [current];
  }

  /** What the splitter's loop keeps true after any prefix of the line: the quote flag, the field count, no quotes. */
  lemma {:induction false} CsvScanShape(line: string)
    ensures CsvScan(line).inQuotes <==> QuoteCount(line) % 2 == 1
    ensures |CsvScan(line).fields| == UnquotedCommas(line)
    ensures '"' !in CsvScan(line).current
    ensures forall k :: 0 <= k < |CsvScan(line).fields| ==> '"' !in CsvScan(line).fields[k]
  {
    if line != [] {
      var front := line[..|line| - 1];
      var c := line[|line| - 1];
      CsvScanShape(front);
      assert line == front + [c];
      assert multiset(line) == multiset(front) + multiset([c]);
    }
  }

  /** Joining the fields back with commas gives the line without its quotes. */
  lemma {:induction false} CsvScanJoin(line: string)
    ensures Join(CsvFields(line), ',') == RemoveChar(line, '"')
  {
    if line != [] {
      var front := line[..|line| - 1];
      var c := line[|line| - 1];
      CsvScanJoin(front);
      var st := CsvScan(front);
      if c == '"' {
      } else if c == ',' && !st.inQuotes {
        JoinNewField(st.fields, st.current);
        assert st.fields + [st.current] + [""] == CsvFields(line);
      } else {
        JoinExtendLast(st.fields, st.current, c);
      }
    }
  }

  /** Everything the splitter promises about its fields. */
  lemma CsvScanInvariant(line: string)
    ensures CsvScan(line).inQuotes <==> QuoteCount(line) % 2 == 1
    ensures |CsvScan(line).fields| == UnquotedCommas(line)
    ensures '"' !in CsvScan(line).current
    ensures forall k :: 0 <= k < |CsvScan(line).fields| ==> '"' !in CsvScan(line).fields[k]
    ensures Join(CsvFields(line), ',') == RemoveChar(line, '"')
  {
    CsvScanShape(line);
    CsvScanJoin(line);
  }

  /**
    `SplitCsvLine`: walks the line once, toggling the quote flag on `"`, closing
    the current field on an unquoted `,` and copying every other character.
  */
  method SplitCsvLine(line: string) returns (result: seq<string>)
    ensures result == CsvFields(line)
    ensures |result| == 1 + UnquotedCommas(line)
    ensures forall k :: 0 <= k < |result| ==> '"' !in result[k]
    ensures Join(result, ',') == RemoveChar(line, '"')
  {
    var fields: seq<string> := [];
    var currentField: string := "";
    var inQuotes := false;
    for i := 0 to |line|
      invariant CsvState(fields, currentField, inQuotes) == CsvScan(line[..i])
    {
      var c := line[i];
      assert line[..i + 1][..i] == line[..i];
      if c == '"' {
        inQuotes := !inQuotes;
      } else if c == ',' && !inQuotes {
        fields := fields + [currentField];
        currentField := "";
      } else {
        currentField := currentField + [c];
      }
    }
    assert line[..|line|] == line;
    result := fields + [currentField];
    CsvScanInvariant(line);
  }

  // ---------------------------------------------------------------------------
  // ReadBusinessUnits: lines of `BU,cluster` or `BU,"cluster1,cluster2"`.

  /** `value.Split(',').Select(Trim).Where(not blank)`: the cluster names of one field. */
  function ClusterNames(pieces: seq<string>): seq<string> {
    if pieces == [] then []
    else
      var front := ClusterNames(pieces[..|pieces| - 1]);
      var name := Trim(pieces[|pieces| - 1]);
      if name == [] then front else front + [name]
  }

  /** `name` is the trimmed text of one of `pieces`. */
  predicate IsTrimmedPiece(name: string, pieces: seq<string>) {
    exists j :: 0 <= j < |pieces| && name == Trim(pieces[j])
  }

  /** Every cluster name is non-empty and already trimmed. */
  lemma {:induction false} ClusterNamesTrimmed(pieces: seq<string>)
    ensures forall k :: 0 <= k < |ClusterNames(pieces)| ==>
      ClusterNames(pieces)[k] != [] && Trim(ClusterNames(pieces)[k]) == ClusterNames(pieces)[k]
  {
    if pieces != [] {
      var last := pieces[|pieces| - 1];
      ClusterNamesTrimmed(pieces[..|pieces| - 1]);
      TrimIdempotent(last);
    }
  }

  /** Every cluster name is the trimmed text of some piece. */
  lemma {:induction false} ClusterNamesFromPieces(pieces: seq<string>)
    ensures forall k :: 0 <= k < |ClusterNames(pieces)| ==> IsTrimmedPiece(ClusterNames(pieces)[k], pieces)
  {
    if pieces != [] {
      var front := pieces[..|pieces| - 1];
      var last := pieces[|pieces| - 1];
      ClusterNamesFromPieces(front);
      forall k | 0 <= k < |ClusterNames(front)| ensures IsTrimmedPiece(ClusterNames(front)[k], pieces) {
        var j :| 0 <= j < |front| && ClusterNames(front)[k] == Trim(front[j]);
        assert pieces[j] == front[j];
      }
      assert IsTrimmedPiece(Trim(last), pieces) by {
        assert pieces[|pieces| - 1] == last;
      }
    }
  }

  /** No piece with visible text is dropped. */
  lemma {:induction false} ClusterNamesComplete(pieces: seq<string>)
    ensures forall j :: 0 <= j < |pieces| && !IsBlank(pieces[j]) ==> Trim(pieces[j]) in ClusterNames(pieces)
  {
    if pieces != [] {
      var front := pieces[..|pieces| - 1];
      var last := pieces[|pieces| - 1];
      ClusterNamesComplete(front);
      TrimEmptyIffBlank(last);
      assert forall j :: 0 <= j < |front| ==> front[j] == pieces[j];
    }
  }

  /**
    The cluster names are exactly the trimmed pieces that are not blank: each
    is non-empty and already trimmed.
  */
  lemma ClusterNamesMeaning(pieces: seq<string>)
    ensures forall k :: 0 <= k < |ClusterNames(pieces)| ==>
      ClusterNames(pieces)[k] != [] && Trim(ClusterNames(pieces)[k]) == ClusterNames(pieces)[k]
    ensures forall k :: 0 <= k < |ClusterNames(pieces)| ==> IsTrimmedPiece(ClusterNames(pieces)[k], pieces)
    ensures forall j :: 0 <= j < |pieces| && !IsBlank(pieces[j]) ==> Trim(pieces[j]) in ClusterNames(pieces)
  {
    ClusterNamesTrimmed(pieces);
    ClusterNamesFromPieces(pieces);
    ClusterNamesComplete(pieces);
  }

  /** The cluster field of an accepted line: trimmed, stripped of quotes, split on commas. */
  function ClusterField(field: string): seq<string> {
    var clusterValue := TrimChar(Trim(field), '"');
    ClusterNames(SplitOn(clusterValue, ','))
  }

  /**
    A CSV line, if `ReadBusinessUnits` takes it: the BU number and the cluster
    names it is listed under. Blank lines, `#` comments, lines with fewer than
    two fields and lines whose first field is not an `int` are skipped.
  */
  function ParseBuLine(line: string): Option<(int, seq<string>)> {
    var trimmedLine := Trim(line);
    if IsBlank(trimmedLine) || "#" <= trimmedLine then None
    else
      var parts := CsvFields(trimmedLine);
      if |parts| < 2 then None
      else match ParseInt32(Trim(parts[0]))
        case None => None
        case Some(busNo) => Some((busNo, ClusterField(parts[1])))
  }

  /** The source's `Trim('"')` on the cluster field never removes anything: no field holds a quote. */
  lemma QuoteTrimIsNoOp(line: string, k: nat)
    requires k < |CsvFields(line)|
    ensures var f := Trim(CsvFields(line)[k]); TrimChar(f, '"') == f
  {
    CsvScanInvariant(line);
    var f := Trim(CsvFields(line)[k]);
    var i, j := TrimIsSlice(CsvFields(line)[k]);
    assert forall x :: x in f ==> x in CsvFields(line)[k];
    TrimCharAbsent(f, '"');
  }

  /** The names of a quote-free cluster field are trimmed, non-empty and free of commas and quotes. */
  lemma ClusterFieldNames(field: string)
    requires '"' !in field
    ensures forall k :: 0 <= k < |ClusterField(field)| ==>
      var name := ClusterField(field)[k];
      name != [] && Trim(name) == name && ',' !in name && '"' !in name
  {
    var t := Trim(field);
    var i, j := TrimIsSlice(field);
    assert forall x :: x in t ==> x in field;
    TrimCharAbsent(t, '"');
    var pieces := SplitOn(t, ',');
    ClusterNamesMeaning(pieces);
    forall k | 0 <= k < |ClusterField(field)|
      ensures ',' !in ClusterField(field)[k] && '"' !in ClusterField(field)[k]
    {
      var name := ClusterField(field)[k];
      var j :| 0 <= j < |pieces| && name == Trim(pieces[j]);
      var a, b := TrimIsSlice(pieces[j]);
      PieceHasNoQuote(pieces, j, t);
      assert forall x :: x in name ==> x in pieces[j];
    }
  }

  /** Everything an accepted line contributes is a trimmed, non-empty name without commas or quotes. */
  lemma ParseBuLineNames(line: string)
    requires ParseBuLine(line).Some?
    ensures forall k :: 0 <= k < |ParseBuLine(line).value.1| ==>
      var name := ParseBuLine(line).value.1[k];
      name != [] && Trim(name) == name && ',' !in name && '"' !in name
    ensures Int32Min <= ParseBuLine(line).value.0 <= Int32Max
  {
    var trimmedLine := Trim(line);
    var parts := CsvFields(trimmedLine);
    CsvScanShape(trimmedLine);
    assert '"' !in parts[1];
    ClusterFieldNames(parts[1]);
  }

  lemma {:induction false} PieceHasNoQuote(pieces: seq<string>, j: nat, joined: string)
    requires j < |pieces| && Join(pieces, ',') == joined && '"' !in joined
    ensures '"' !in pieces[j]
    decreases |pieces|
  {
    if |pieces| > 1 {
      var front := pieces[..|pieces| - 1];
      assert joined == Join(front, ',') + [','] + pieces[|pieces| - 1];
      if j < |pieces| - 1 {
        assert forall x :: x in Join(front, ',') ==> x in joined;
        PieceHasNoQuote(front, j, Join(front, ','));
      } else {
        assert forall x :: x in pieces[j] ==> x in joined;
      }
    }
  }

  /** What one CSV line contributes: nothing, or a BU number and its cluster names. */
  type LineEntry = Option<(int, seq<string>)>

  /** Adds `busNo` to the set of every listed cluster, creating sets as needed. */
  function AddBusinessUnit(m: map<string, set<int>>, busNo: int, clusters: seq<string>): map<string, set<int>> {
    if clusters == [] then m
    else
      var before := AddBusinessUnit(m, busNo, clusters[..|clusters| - 1]);
      var cluster := clusters[|clusters| - 1];
      before[cluster := (if cluster in before then before[cluster] else {}) + {busNo}]
  }

  /** The map the entries describe, built entry by entry. */
  function FoldEntries(entries: seq<LineEntry>): map<string, set<int>> {
    if entries == [] then map[]
    else
      var before := FoldEntries(entries[..|entries| - 1]);
      match entries[|entries| - 1]
      case None => before
      case Some((busNo, clusters)) => AddBusinessUnit(before, busNo, clusters)
  }

  /** The entry of every line, in order. */
  function ParseBuLines(lines: seq<string>): (entries: seq<LineEntry>)
    ensures |entries| == |lines|
    ensures forall i :: 0 <= i < |lines| ==> entries[i] == ParseBuLine(lines[i])
  {
    seq(|lines|, i requires 0 <= i < |lines| => ParseBuLine(lines[i]))
  }

  /** The cluster-to-BU map the CSV lines describe. */
  function BusinessUnits(lines: seq<string>): map<string, set<int>> {
    FoldEntries(ParseBuLines(lines))
  }

  /** The entry lists BU `busNo` under `cluster`. */
  predicate EntryLists(entry: LineEntry, busNo: int, cluster: string) {
    entry.Some? && entry.value.0 == busNo && cluster in entry.value.1
  }

  /** Line `line` lists BU `busNo` under `cluster`. */
  predicate Lists(line: string, busNo: int, cluster: string) {
    EntryLists(ParseBuLine(line), busNo, cluster)
  }

  /** Some entry lists BU `busNo` under `cluster`. */
  predicate ListedIn(entries: seq<LineEntry>, busNo: int, cluster: string) {
    exists i :: 0 <= i < |entries| && EntryLists(entries[i], busNo, cluster)
  }

  /** The map records BU `busNo` under `cluster`. */
  predicate Holds(m: map<string, set<int>>, cluster: string, busNo: int) {
    cluster in m && busNo in m[cluster]
  }

  /** Adding a BU puts exactly the listed clusters into the map and adds the BU to their sets. */
  lemma {:induction false} AddBusinessUnitMeaning(m: map<string, set<int>>, busNo: int, clusters: seq<string>)
    ensures forall c :: c in AddBusinessUnit(m, busNo, clusters) <==> c in m || c in clusters
    ensures forall c :: c in AddBusinessUnit(m, busNo, clusters) ==>
      AddBusinessUnit(m, busNo, clusters)[c] == (if c in m then m[c] else {}) + (if c in clusters then {busNo} else {})
    decreases |clusters|
  {
    if clusters != [] {
      var front := clusters[..|clusters| - 1];
      AddBusinessUnitMeaning(m, busNo, front);
      assert clusters == front + [clusters[|clusters| - 1]];
      assert forall c :: c in clusters <==> c in front || c == clusters[|clusters| - 1];
    }
  }

  lemma ListedInSnoc(front: seq<LineEntry>, last: LineEntry, busNo: int, cluster: string)
    ensures ListedIn(front + [last], busNo, cluster) <==> ListedIn(front, busNo, cluster) || EntryLists(last, busNo, cluster)
  {
    var entries := front + [last];
    if ListedIn(entries, busNo, cluster) {
      var i :| 0 <= i < |entries| && EntryLists(entries[i], busNo, cluster);
      if i < |front| { assert front[i] == entries[i]; }
    }
    if ListedIn(front, busNo, cluster) {
      var i :| 0 <= i < |front| && EntryLists(front[i], busNo, cluster);
      assert entries[i] == front[i];
    }
    if EntryLists(last, busNo, cluster) {
      assert entries[|front|] == last;
    }
  }

  /**
    The folded map holds exactly the (cluster, BU) pairs some entry lists, a
    cluster is a key only if some entry lists it, and no set is empty; repeated
    pairs collapse into one.
  */
  lemma {:induction false} FoldEntriesMeaning(entries: seq<LineEntry>)
    ensures forall c, b :: Holds(FoldEntries(entries), c, b) <==> ListedIn(entries, b, c)
    ensures forall c :: c in FoldEntries(entries) <==> exists b :: ListedIn(entries, b, c)
  {
    if entries != [] {
      var front := entries[..|entries| - 1];
      var last := entries[|entries| - 1];
      assert entries == front + [last];
      FoldEntriesMeaning(front);
      var before := FoldEntries(front);
      var r := FoldEntries(entries);
      forall c, b ensures ListedIn(entries, b, c) <==> ListedIn(front, b, c) || EntryLists(last, b, c) {
        ListedInSnoc(front, last, b, c);
      }
      match last
      case None =>
      case Some((busNo, clusters)) =>
        AddBusinessUnitMeaning(before, busNo, clusters);
        forall c | c in r ensures exists b :: ListedIn(entries, b, c) {
          if c in before {
            var b :| ListedIn(front, b, c);
            assert ListedIn(entries, b, c);
          } else {
            assert EntryLists(last, busNo, c);
          }
        }
    }
  }

  /** Two maps with the same keys that record the same pairs are equal. */
  lemma SamePairsSameMap(m1: map<string, set<int>>, m2: map<string, set<int>>)
    requires forall c :: c in m1 <==> c in m2
    requires forall c, b :: Holds(m1, c, b) <==> Holds(m2, c, b)
    ensures m1 == m2
  {
    forall c | c in m1 ensures m1[c] == m2[c] {
      forall b ensures b in m1[c] <==> b in m2[c] {
        assert Holds(m1, c, b) <==> Holds(m2, c, b);
      }
    }
  }

  /** Entry sequences that list the same pairs fold to the same map: order and repetition do not matter. */
  lemma SameListingsSameMap(entries1: seq<LineEntry>, entries2: seq<LineEntry>)
    requires forall c, b :: ListedIn(entries1, b, c) <==> ListedIn(entries2, b, c)
    ensures FoldEntries(entries1) == FoldEntries(entries2)
  {
    var m1, m2 := FoldEntries(entries1), FoldEntries(entries2);
    FoldEntriesMeaning(entries1);
    FoldEntriesMeaning(entries2);
    forall c ensures c in m1 <==> c in m2 {
      if c in m1 {
        var b :| ListedIn(entries1, b, c);
        assert ListedIn(entries2, b, c);
      }
      if c in m2 {
        var b :| ListedIn(entries2, b, c);
        assert ListedIn(entries1, b, c);
      }
    }
    SamePairsSameMap(m1, m2);
  }

  /**
    `ReadBusinessUnits`'s result holds exactly the (cluster, BU) pairs some
    accepted line lists, and every key is a trimmed, non-empty cluster name
    with a non-empty set of BU numbers, each within the `int` range.
  */
  lemma BusinessUnitsMeaning(lines: seq<string>)
    ensures forall c, b :: Holds(BusinessUnits(lines), c, b) <==>
      exists i :: 0 <= i < |lines| && Lists(lines[i], b, c)
    ensures forall c :: c in BusinessUnits(lines) ==>
      BusinessUnits(lines)[c] != {} && c != [] && Trim(c) == c
    ensures forall c, b :: Holds(BusinessUnits(lines), c, b) ==> Int32Min <= b <= Int32Max
  {
    var entries := ParseBuLines(lines);
    FoldEntriesMeaning(entries);
    forall c, b ensures ListedIn(entries, b, c) <==> exists i :: 0 <= i < |lines| && Lists(lines[i], b, c) {
      if ListedIn(entries, b, c) {
        var i :| 0 <= i < |entries| && EntryLists(entries[i], b, c);
        assert Lists(lines[i], b, c);
      }
      if exists i :: 0 <= i < |lines| && Lists(lines[i], b, c) {
        var i :| 0 <= i < |lines| && Lists(lines[i], b, c);
        assert EntryLists(entries[i], b, c);
      }
    }
    forall c | c in BusinessUnits(lines) ensures BusinessUnits(lines)[c] != {} && c != [] && Trim(c) == c {
      var b :| ListedIn(entries, b, c);
      assert Holds(BusinessUnits(lines), c, b);
      var i :| 0 <= i < |entries| && EntryLists(entries[i], b, c);
      ParseBuLineNames(lines[i]);
      var k :| 0 <= k < |ParseBuLine(lines[i]).value.1| && ParseBuLine(lines[i]).value.1[k] == c;
    }
    forall c, b | Holds(BusinessUnits(lines), c, b) ensures Int32Min <= b <= Int32Max {
      var i :| 0 <= i < |entries| && EntryLists(entries[i], b, c);
      ParseBuLineNames(lines[i]);
    }
  }

  /** Parsing works line by line, so it respects concatenation. */
  lemma ParseBuLinesAppend(a: seq<string>, b: seq<string>)
    ensures ParseBuLines(a + b) == ParseBuLines(a) + ParseBuLines(b)
  {
  }

  /** One more cluster: its set gains the BU. */
  lemma AddBusinessUnitSnoc(m: map<string, set<int>>, busNo: int, clusters: seq<string>, j: nat)
    requires j < |clusters|
    ensures var before := AddBusinessUnit(m, busNo, clusters[..j]);
      AddBusinessUnit(m, busNo, clusters[..j + 1]) ==
        before[clusters[j] := (if clusters[j] in before then before[clusters[j]] else {}) + {busNo}]
  {
    assert clusters[..j + 1][..j] == clusters[..j];
  }

  /** Creating an empty set first and then adding to it is adding to the possibly missing set. */
  lemma AddToClusterSet(m: map<string, set<int>>, cluster: string, busNo: int)
    ensures var m1 := if cluster !in m then m[cluster := {}] else m;
      m1[cluster := m1[cluster] + {busNo}] == m[cluster := (if cluster in m then m[cluster] else {}) + {busNo}]
  {
  }

  /** One more entry: the map grows by what that entry lists. */
  lemma FoldSnoc(entries: seq<LineEntry>, entry: LineEntry)
    ensures FoldEntries(entries + [entry]) ==
      match entry
      case None => FoldEntries(entries)
      case Some((busNo, clusters)) => AddBusinessUnit(FoldEntries(entries), busNo, clusters)
  {
    var e := entries + [entry];
    assert e[..|e| - 1] == entries;
  }

  /** An empty entry anywhere in the sequence changes nothing. */
  lemma {:induction false} FoldSkipsNone(front: seq<LineEntry>, back: seq<LineEntry>)
    ensures FoldEntries(front + [None] + back) == FoldEntries(front + back)
    decreases |back|
  {
    if back == [] {
      var e := front + [None];
      assert e[..|e| - 1] == front;
      assert front + [None] + back == e && front + back == front;
    } else {
      var shorter := back[..|back| - 1];
      FoldSkipsNone(front, shorter);
      var e1 := front + [None] + back;
      var e2 := front + back;
      assert e1[..|e1| - 1] == front + [None] + shorter;
      assert e2[..|e2| - 1] == front + shorter;
      assert e1[|e1| - 1] == e2[|e2| - 1];
    }
  }

  /** A line the reader skips leaves the map as if it were not there. */
  lemma SkippedLineIgnored(before: seq<string>, line: string, after: seq<string>)
    requires ParseBuLine(line).None?
    ensures BusinessUnits(before + [line] + after) == BusinessUnits(before + after)
  {
    ParseBuLinesAppend(before + [line], after);
    ParseBuLinesAppend(before, [line]);
    ParseBuLinesAppend(before, after);
    assert ParseBuLines([line]) == [None];
    FoldSkipsNone(ParseBuLines(before), ParseBuLines(after));
  }

  /** What one line does to the map. */
  function AddLine(m: map<string, set<int>>, line: string): map<string, set<int>> {
    match ParseBuLine(line)
    case None => m
    case Some((busNo, clusters)) => AddBusinessUnit(m, busNo, clusters)
  }

  /** One more line: the map grows by what that line lists. */
  lemma BusinessUnitsSnoc(lines: seq<string>, i: nat)
    requires i < |lines|
    ensures BusinessUnits(lines[..i + 1]) == AddLine(BusinessUnits(lines[..i]), lines[i])
  {
    assert lines[..i + 1] == lines[..i] + [lines[i]];
    ParseBuLinesAppend(lines[..i], [lines[i]]);
    FoldSnoc(ParseBuLines(lines[..i]), ParseBuLine(lines[i]));
  }

  /**
    `ReadBusinessUnits`: the CSV lines folded into a cluster-to-BU map, one line
    at a time, adding the BU to each cluster's set.
  */
  method ReadBusinessUnits(lines: seq<string>) returns (clusterToBUs: map<string, set<int>>)
    ensures clusterToBUs == BusinessUnits(lines)
  {
    clusterToBUs := map[];
    for i := 0 to |lines|
      invariant clusterToBUs == BusinessUnits(lines[..i])
    {
      BusinessUnitsSnoc(lines, i);
      var trimmedLine := Trim(lines[i]);
      if IsBlank(trimmedLine) || "#" <= trimmedLine {
        continue;
      }
      var parts := SplitCsvLine(trimmedLine);
      if |parts| >= 2 {
        match ParseInt32(Trim(parts[0])) {
          case None =>
          case Some(busNo) =>
            var clusters := ClusterField(parts[1]);
            clusterToBUs := AddToClusters(clusterToBUs, busNo, clusters);
        }
      }
    }
    assert lines[..|lines|] == lines;
  }

  /** The inner loop of `ReadBusinessUnits`: adds `busNo` to the set of each cluster in turn. */
  method AddToClusters(m: map<string, set<int>>, busNo: int, clusters: seq<string>)
    returns (clusterToBUs: map<string, set<int>>)
    ensures clusterToBUs == AddBusinessUnit(m, busNo, clusters)
  {
    clusterToBUs := m;
    for j := 0 to |clusters|
      invariant clusterToBUs == AddBusinessUnit(m, busNo, clusters[..j])
    {
      AddBusinessUnitSnoc(m, busNo, clusters, j);
      ghost var partial := clusterToBUs;
      AddToClusterSet(partial, clusters[j], busNo);
      var cluster := clusters[j];
      if cluster !in clusterToBUs {
        clusterToBUs := clusterToBUs[cluster := {}];
      }
      assert clusterToBUs == if cluster !in partial then partial[cluster := {}] else partial;
      clusterToBUs := clusterToBUs[cluster := clusterToBUs[cluster] + {busNo}];
    }
    assert clusters[..|clusters|] == clusters;
  }

  // ---------------------------------------------------------------------------
  // ReadExclusionPatterns

  /** A trimmed exclusion-file line is kept unless it is blank or a `#` comment. */
  predicate IsPatternLine(trimmedLine: string) {
    !IsBlank(trimmedLine) && !("#" <= trimmedLine)
  }

  /** `lines.Select(Trim).Where(IsPatternLine)`. */
  function PatternLines(lines: seq<string>): (patterns: seq<string>)
    ensures |patterns| <= |lines|
    ensures forall k :: 0 <= k < |patterns| ==>
      patterns[k] != [] && patterns[k][0] != '#' && Trim(patterns[k]) == patterns[k]
  {
    if lines == [] then []
    else
      var front := PatternLines(lines[..|lines| - 1]);
      var t := Trim(lines[|lines| - 1]);
      TrimIdempotent(lines[|lines| - 1]);
      if IsPatternLine(t) then front + [t] else front
  }

  /** The exclusion patterns: none without a readable file, otherwise its pattern lines. */
  function ReadExclusionPatterns(exclusionsPath: Option<string>, fileExists: bool, lines: seq<string>): (patterns: seq<string>)
    ensures exclusionsPath.None? || exclusionsPath == Some("") || !fileExists ==> patterns == []
  {
    if exclusionsPath.Some? && exclusionsPath.value != "" && fileExists then PatternLines(lines) else []
  }

  /** Filtering respects concatenation: kept lines stay in their original order. */
  lemma {:induction false} PatternLinesAppend(a: seq<string>, b: seq<string>)
    ensures PatternLines(a + b) == PatternLines(a) + PatternLines(b)
    decreases |b|
  {
    if b == [] {
      assert a + b == a;
    } else {
      var ab := a + b;
      assert ab[..|ab| - 1] == a + b[..|b| - 1];
      assert ab[|ab| - 1] == b[|b| - 1];
      PatternLinesAppend(a, b[..|b| - 1]);
    }
  }

  /** A single line yields its trimmed text when it is a pattern line, and nothing otherwise. */
  lemma PatternLineSingle(line: string)
    ensures PatternLines([line]) == if IsPatternLine(Trim(line)) then [Trim(line)] else []
  {
    assert [line][..0] == [];
  }

  // ---------------------------------------------------------------------------
  // ReadClusterEndpoint

  const EndpointKey: string := "file_server_configuration.FsIpAddress"

  datatype ConfigError = FileNotFound(path: string) | InvalidData(path: string)

  /** A properties line that names the endpoint: it starts with the key and holds an `=`. */
  predicate NamesEndpoint(line: string) {
    EndpointKey <= Trim(line) && '=' in Trim(line)
  }

  /** Line `i` is the first that names the endpoint. */
  predicate FirstEndpointLine(lines: seq<string>, i: int) {
    0 <= i < |lines| && NamesEndpoint(lines[i]) && forall j :: 0 <= j < i ==> !NamesEndpoint(lines[j])
  }

  /** The trimmed text after the first `=` of a trimmed line that has one. */
  function ValueAfterEquals(line: string): string
    requires '=' in Trim(line)
  {
    var t := Trim(line);
    var i := IndexOf(t, '=').value;
    Trim(t[i + 1..])
  }

  /** The key holds no `=`, so a line starting with it has its first `=` past position 0. */
  lemma KeyHasNoEquals(trimmedLine: string)
    ensures EndpointKey <= trimmedLine && '=' in trimmedLine ==> IndexOf(trimmedLine, '=').value > 0
  {
    if EndpointKey <= trimmedLine && '=' in trimmedLine {
      assert trimmedLine[0] == 'f';
    }
  }

  /**
    `ReadClusterEndpoint`: the properties file `<cluster>.cluster.properties` in
    the configuration directory gives the value of the first line that starts
    with the key and has an `=` after it; a missing file and a file without such
    a line are errors.
  */
  method ReadClusterEndpoint(clusterConfigPath: string, clusterName: string, sep: char,
                             fileExists: bool, lines: seq<string>) returns (r: Result<string, ConfigError>)
    ensures !fileExists ==> r == Err(FileNotFound(Combine(clusterConfigPath, clusterName + ".cluster.properties", sep)))
    ensures fileExists && r.Err? ==>
      r == Err(InvalidData(Combine(clusterConfigPath, clusterName + ".cluster.properties", sep))) &&
      forall i :: 0 <= i < |lines| ==> !NamesEndpoint(lines[i])
    ensures r.Ok? ==> fileExists && exists i :: FirstEndpointLine(lines, i) && r.value == ValueAfterEquals(lines[i])
    ensures fileExists && (exists i :: 0 <= i < |lines| && NamesEndpoint(lines[i])) ==> r.Ok?
  {
    var propertiesFile := Combine(clusterConfigPath, clusterName + ".cluster.properties", sep);
    if !fileExists {
      return Err(FileNotFound(propertiesFile));
    }
    for i := 0 to |lines|
      invariant forall j :: 0 <= j < i ==> !NamesEndpoint(lines[j])
    {
      var trimmedLine := Trim(lines[i]);
      KeyHasNoEquals(trimmedLine);
      if EndpointKey <= trimmedLine {
        var equalsIndex := match IndexOf(trimmedLine, '=') case None => -1 case Some(k) => k;
        if equalsIndex > 0 {
          assert FirstEndpointLine(lines, i);
          return Ok(Trim(trimmedLine[equalsIndex + 1..]));
        }
      }
    }
    return Err(InvalidData(propertiesFile));
  }
}
