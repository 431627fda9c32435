/** Grouping validation errors: per job by (type, symbol, day), then merged over jobs by
    (type, symbol, file, day), with keys joined by NUL characters. */
module Summaries {
  import opened Store

  const NUL := '\0'

  /** The days of a calendar: no NUL, and empty exactly for the zero time. */
  ghost predicate Calendar(day: nat -> string) {
    forall t: nat {:trigger day(t)} :: NUL !in day(t) && (day(t) == "" <==> t == 0)
  }

  datatype Group = Group(kind: string, symbol: string, fileID: string, day: string)

  /** An error together with the file its job read. */
  datatype Tagged = Tagged(line: nat, seen: nat, group: Group)

  datatype Summary = Summary(
    group: Group, datasetID: string, datasetName: string, filePath: string,
    count: nat, firstLine: nat, lastLine: nat, firstSeen: nat, lastSeen: nat)

  // ----- Keys -----

  function Join3(g: Group): string {
    g.kind + [NUL] + g.symbol + [NUL] + g.day
  }

  function Join4(g: Group): string {
    g.kind + [NUL] + g.symbol + [NUL] + g.fileID + [NUL] + g.day
  }

  /** Everything but the symbol is free of NULs. */
  predicate NulFree(g: Group) {
    NUL !in g.kind && NUL !in g.fileID && NUL !in g.day
  }

  function FirstNul(s: string): nat {
    if s == "" || s[0] == NUL then 0 else 1 + FirstNul(s[1..])
  }

  function LastNul(s: string): nat {
    if s == "" then 0 else if s[|s| - 1] == NUL then |s| - 1 else LastNul(s[..|s| - 1])
  }

  lemma {:induction false} FirstNulAt(a: string, x: string)
    requires NUL !in a
    ensures FirstNul(a + [NUL] + x) == |a|
  {
    var s := a + [NUL] + x;
    if a != "" {
      FirstNulAt(a[1..], x);
      assert s[0] == a[0] && a[0] in a;
      assert s[1..] == a[1..] + [NUL] + x;
    }
  }

  lemma {:induction false} LastNulAt(x: string, a: string)
    requires NUL !in a
    ensures LastNul(x + [NUL] + a) == |x|
    decreases |a|
  {
    var s := x + [NUL] + a;
    if a != "" {
      var n := |a| - 1;
      LastNulAt(x, a[..n]);
      assert s[|s| - 1] == a[n] && a[n] in a;
      assert s[..|s| - 1] == x + [NUL] + a[..n];
    }
  }

  /** A NUL-free head before a NUL can be split off in one way only. */
  lemma SplitHead(a: string, x: string, b: string, y: string)
    requires NUL !in a && NUL !in b && a + [NUL] + x == b + [NUL] + y
    ensures a == b && x == y
  {
    FirstNulAt(a, x);
    FirstNulAt(b, y);
    Pieces(a, x);
    Pieces(b, y);
  }

  /** Likewise for a NUL-free tail after a NUL. */
  lemma SplitTail(x: string, a: string, y: string, b: string)
    requires NUL !in a && NUL !in b && x + [NUL] + a == y + [NUL] + b
    ensures a == b && x == y
  {
    LastNulAt(x, a);
    LastNulAt(y, b);
    Pieces(x, a);
    Pieces(y, b);
  }

  lemma Pieces(a: string, b: string)
    ensures var s := a + [NUL] + b; s[..|a|] == a && s[|a| + 1..] == b
  {
  }

  /** KEYS NEVER COLLIDE. Equal joined keys mean equal groups, whatever the symbols contain. */
  lemma Join4Injective(g: Group, h: Group)
    requires NulFree(g) && NulFree(h) && Join4(g) == Join4(h)
    ensures g == h
  {
    var gs, hs := g.symbol + [NUL] + g.fileID, h.symbol + [NUL] + h.fileID;
    assert Join4(g) == g.kind + [NUL] + (gs + [NUL] + g.day);
    assert Join4(h) == h.kind + [NUL] + (hs + [NUL] + h.day);
    SplitHead(g.kind, gs + [NUL] + g.day, h.kind, hs + [NUL] + h.day);
    SplitTail(gs, g.day, hs, h.day);
    SplitTail(g.symbol, g.fileID, h.symbol, h.fileID);
  }

  lemma Join3Injective(g: Group, h: Group)
    requires NulFree(g) && NulFree(h) && g.fileID == h.fileID && Join3(g) == Join3(h)
    ensures g == h
  {
    assert Join3(g) == g.kind + [NUL] + (g.symbol + [NUL] + g.day);
    assert Join3(h) == h.kind + [NUL] + (h.symbol + [NUL] + h.day);
    SplitHead(g.kind, g.symbol + [NUL] + g.day, h.kind, h.symbol + [NUL] + h.day);
    SplitTail(g.symbol, g.day, h.symbol, h.day);
  }

  // ----- The flat grouping -----

  function Members(es: seq<Tagged>, g: Group): seq<Tagged> {
    if es == [] then []
    else Members(es[..|es| - 1], g) + (if es[|es| - 1].group == g then [es[|es| - 1]] else [])
  }

  ghost predicate Least(x: nat, ms: seq<Tagged>) {
    (exists i :: 0 <= i < |ms| && ms[i].line == x) && forall i :: 0 <= i < |ms| ==> x <= ms[i].line
  }

  predicate NoZeroLine(ms: seq<Tagged>) {
    forall i :: 0 <= i < |ms| ==> ms[i].line != 0
  }

  /** The code reads a first line of 0 as "not set": without zero lines it is the smallest line, and it is
      0 exactly when the last member has line 0. With a zero line before a non-zero one it depends on how the
      members were split over jobs, and nothing more is said. */
  ghost predicate FirstLineOf(first: nat, ms: seq<Tagged>)
    requires ms != []
  {
    (NoZeroLine(ms) ==> Least(first, ms)) && (first == 0 <==> ms[|ms| - 1].line == 0)
  }

  ghost predicate Greatest(x: nat, ms: seq<Tagged>) {
    (exists i :: 0 <= i < |ms| && ms[i].line == x) && forall i :: 0 <= i < |ms| ==> ms[i].line <= x
  }

  ghost predicate Earliest(x: nat, ms: seq<Tagged>) {
    (exists i :: 0 <= i < |ms| && ms[i].seen == x) && forall i :: 0 <= i < |ms| ==> x <= ms[i].seen
  }

  ghost predicate Latest(x: nat, ms: seq<Tagged>) {
    (exists i :: 0 <= i < |ms| && ms[i].seen == x) && forall i :: 0 <= i < |ms| ==> ms[i].seen <= x
  }

  /** All members or none carry the zero time: the day is part of the group. */
  ghost predicate Dated(ms: seq<Tagged>, g: Group) {
    forall i :: 0 <= i < |ms| ==> ms[i].group == g && (ms[i].seen == 0 <==> g.day == "")
  }

  /** `row` states the number, first and last line, and first and last time of `ms`. */
  ghost predicate Describes(row: Summary, ms: seq<Tagged>) {
    && ms != [] && row.count == |ms|
    && FirstLineOf(row.firstLine, ms) && Greatest(row.lastLine, ms)
    && Earliest(row.firstSeen, ms) && Latest(row.lastSeen, ms)
    && Dated(ms, row.group) && NulFree(row.group)
  }

  predicate Distinct(rows: seq<Summary>) {
    forall i, j :: 0 <= i < j < |rows| ==> rows[i].group != rows[j].group
  }

  predicate HasGroup(rows: seq<Summary>, g: Group) {
    exists j :: 0 <= j < |rows| && rows[j].group == g
  }

  ghost predicate ListsAll(rows: seq<Summary>, es: seq<Tagged>) {
    forall i :: 0 <= i < |es| ==> HasGroup(rows, es[i].group)
  }

  ghost predicate Correct(rows: seq<Summary>, es: seq<Tagged>) {
    forall i :: 0 <= i < |rows| ==> Describes(rows[i], Members(es, rows[i].group))
  }

  /** The rows are exactly the groups of `es`, each described correctly and listed once. */
  ghost predicate Summarizes(rows: seq<Summary>, es: seq<Tagged>) {
    Distinct(rows) && Correct(rows, es) && ListsAll(rows, es)
  }

  lemma {:induction false} MembersAppend(a: seq<Tagged>, b: seq<Tagged>, g: Group)
    ensures Members(a + b, g) == Members(a, g) + Members(b, g)
  {
    if b == [] {
      assert a + b == a;
    } else {
      var n := |b| - 1;
      MembersAppend(a, b[..n], g);
      assert (a + b)[..|a + b| - 1] == a + b[..n];
    }
  }

  lemma {:induction false} MembersAre(es: seq<Tagged>, g: Group)
    ensures forall i :: 0 <= i < |Members(es, g)| ==> Members(es, g)[i] in es && Members(es, g)[i].group == g
    ensures Members(es, g) != [] <==> exists i :: 0 <= i < |es| && es[i].group == g
  {
    if es != [] {
      var n := |es| - 1;
      MembersAre(es[..n], g);
      assert es == es[..n] + [es[n]];
    }
  }

  lemma MembersOne(e: Tagged, g: Group)
    ensures Members([e], g) == if e.group == g then [e] else []
  {
    assert [e][..0] == [];
  }

  // ----- One error, one summary -----

  /** The code's update of a summary by one more error. */
  function Absorb(s: Summary, e: Tagged): Summary {
    s.(count := s.count + 1,
       firstLine := if e.line < s.firstLine || s.firstLine == 0 then e.line else s.firstLine,
       lastLine := if e.line > s.lastLine then e.line else s.lastLine,
       firstSeen := if s.firstSeen == 0 || e.seen < s.firstSeen then e.seen else s.firstSeen,
       lastSeen := if e.seen > s.lastSeen then e.seen else s.lastSeen)
  }

  /** The summary of a group's first error. */
  function Opened(e: Tagged, datasetID: string, datasetName: string, filePath: string): Summary {
    Summary(e.group, datasetID, datasetName, filePath, 0, e.line, e.line, e.seen, e.seen)
  }

  /** The code's merge of two summaries of one group. */
  function Merge(a: Summary, b: Summary): Summary {
    a.(count := a.count + b.count,
       firstLine := if b.firstLine < a.firstLine || a.firstLine == 0 then b.firstLine else a.firstLine,
       lastLine := if b.lastLine > a.lastLine then b.lastLine else a.lastLine,
       firstSeen := if a.firstSeen == 0 || b.firstSeen < a.firstSeen then b.firstSeen else a.firstSeen,
       lastSeen := if b.lastSeen > a.lastSeen then b.lastSeen else a.lastSeen)
  }

  lemma OpenedDescribes(e: Tagged, datasetID: string, datasetName: string, filePath: string)
    requires NulFree(e.group) && (e.seen == 0 <==> e.group.day == "")
    ensures Describes(Absorb(Opened(e, datasetID, datasetName, filePath), e), [e])
  {
    assert [e][0] == e;
  }

  lemma MergeFirst(x: nat, ms: seq<Tagged>, y: nat, ns: seq<Tagged>)
    requires ms != [] && ns != [] && FirstLineOf(x, ms) && FirstLineOf(y, ns)
    ensures FirstLineOf(if y < x || x == 0 then y else x, ms + ns)
  {
    var first, all := if y < x || x == 0 then y else x, ms + ns;
    assert all[|all| - 1] == ns[|ns| - 1];
    if NoZeroLine(all) {
      assert forall i :: 0 <= i < |ms| ==> ms[i] == all[i];
      assert forall i :: 0 <= i < |ns| ==> ns[i] == all[|ms| + i];
      assert NoZeroLine(ms) && NoZeroLine(ns);
      MergeLeast(x, ms, y, ns);
    }
  }

  lemma MergeLeast(x: nat, ms: seq<Tagged>, y: nat, ns: seq<Tagged>)
    requires Least(x, ms) && Least(y, ns)
    ensures Least(if y < x then y else x, ms + ns)
  {
    var i :| 0 <= i < |ms| && ms[i].line == x;
    var j :| 0 <= j < |ns| && ns[j].line == y;
    assert (ms + ns)[i] == ms[i] && (ms + ns)[|ms| + j] == ns[j];
  }

  lemma MergeGreatest(x: nat, ms: seq<Tagged>, y: nat, ns: seq<Tagged>)
    requires Greatest(x, ms) && Greatest(y, ns)
    ensures Greatest(if y > x then y else x, ms + ns)
  {
    var i :| 0 <= i < |ms| && ms[i].line == x;
    var j :| 0 <= j < |ns| && ns[j].line == y;
    assert (ms + ns)[i] == ms[i] && (ms + ns)[|ms| + j] == ns[j];
  }

  lemma MergeEarliest(x: nat, ms: seq<Tagged>, y: nat, ns: seq<Tagged>)
    requires Earliest(x, ms) && Earliest(y, ns) && (x == 0 <==> y == 0)
    ensures Earliest(if x == 0 || y < x then y else x, ms + ns)
  {
    var i :| 0 <= i < |ms| && ms[i].seen == x;
    var j :| 0 <= j < |ns| && ns[j].seen == y;
    assert (ms + ns)[i] == ms[i] && (ms + ns)[|ms| + j] == ns[j];
  }

  lemma MergeLatest(x: nat, ms: seq<Tagged>, y: nat, ns: seq<Tagged>)
    requires Latest(x, ms) && Latest(y, ns)
    ensures Latest(if y > x then y else x, ms + ns)
  {
    var i :| 0 <= i < |ms| && ms[i].seen == x;
    var j :| 0 <= j < |ns| && ns[j].seen == y;
    assert (ms + ns)[i] == ms[i] && (ms + ns)[|ms| + j] == ns[j];
  }

  /** A first time is zero exactly on the empty day. */
  lemma DatedFirst(x: nat, ms: seq<Tagged>, g: Group)
    requires Earliest(x, ms) && Dated(ms, g)
    ensures x == 0 <==> g.day == ""
  {
    var i :| 0 <= i < |ms| && ms[i].seen == x;
  }

  lemma MergeDated(ms: seq<Tagged>, ns: seq<Tagged>, g: Group)
    requires Dated(ms, g) && Dated(ns, g)
    ensures Dated(ms + ns, g)
  {
  }

  lemma MergeDescribes(a: Summary, ms: seq<Tagged>, b: Summary, ns: seq<Tagged>)
    requires Describes(a, ms) && Describes(b, ns) && a.group == b.group
    ensures Describes(Merge(a, b), ms + ns)
  {
    MergeFirst(a.firstLine, ms, b.firstLine, ns);
    MergeGreatest(a.lastLine, ms, b.lastLine, ns);
    DatedFirst(a.firstSeen, ms, a.group);
    DatedFirst(b.firstSeen, ns, b.group);
    MergeEarliest(a.firstSeen, ms, b.firstSeen, ns);
    MergeLatest(a.lastSeen, ms, b.lastSeen, ns);
    MergeDated(ms, ns, a.group);
  }

  // ----- Summary maps -----

  function Join(withFile: bool, g: Group): string {
    if withFile then Join4(g) else Join3(g)
  }

  /** Groups between which the joined key distinguishes. */
  predicate Family(withFile: bool, fileID: string, g: Group) {
    NulFree(g) && (withFile || g.fileID == fileID)
  }

  lemma JoinInjective(withFile: bool, fileID: string, g: Group, h: Group)
    requires Family(withFile, fileID, g) && Family(withFile, fileID, h) && Join(withFile, g) == Join(withFile, h)
    ensures g == h
  {
    if withFile {
      Join4Injective(g, h);
    } else {
      Join3Injective(g, h);
    }
  }

  /** The summary under key `k` belongs there and describes its group. */
  ghost predicate Filed(withFile: bool, fileID: string, m: map<string, Summary>, es: seq<Tagged>, k: string)
    requires k in m
  {
    Join(withFile, m[k].group) == k && Family(withFile, fileID, m[k].group) && Describes(m[k], Members(es, m[k].group))
  }

  /** A group that occurs has its summary. */
  ghost predicate Found(withFile: bool, m: map<string, Summary>, es: seq<Tagged>, g: Group) {
    Members(es, g) != [] ==> Join(withFile, g) in m && m[Join(withFile, g)].group == g
  }

  /** The map holds, under its joined key, the correct summary of every group of `es` and nothing else. */
  ghost predicate MapOk(withFile: bool, fileID: string, m: map<string, Summary>, es: seq<Tagged>) {
    && (forall k :: k in m ==> Filed(withFile, fileID, m, es, k))
    && (forall g :: Found(withFile, m, es, g))
  }

  /** Put one more summary into the map. */
  function Added(m: map<string, Summary>, k: string, item: Summary): map<string, Summary> {
    m[k := if k in m then Merge(m[k], item) else item]
  }

  lemma {:induction false} MembersOfGroup(ms: seq<Tagged>, g: Group, h: Group)
    requires forall i :: 0 <= i < |ms| ==> ms[i].group == h
    ensures Members(ms, g) == if g == h then ms else []
  {
    if ms != [] {
      var n := |ms| - 1;
      MembersOfGroup(ms[..n], g, h);
      assert ms == ms[..n] + [ms[n]];
    }
  }

  /** The members of a group after one more chunk of one group. */
  lemma ChunkMembers(es: seq<Tagged>, item: Summary, chunk: seq<Tagged>, g: Group)
    requires Describes(item, chunk)
    ensures Members(es + chunk, g) == if g == item.group then Members(es, g) + chunk else Members(es, g)
  {
    MembersAppend(es, chunk, g);
    MembersOfGroup(chunk, g, item.group);
  }

  lemma MergedDescribes(a: Summary, es: seq<Tagged>, item: Summary, chunk: seq<Tagged>)
    requires Describes(a, Members(es, a.group)) && Describes(item, chunk) && a.group == item.group
    ensures Describes(Merge(a, item), Members(es + chunk, a.group))
  {
    ChunkMembers(es, item, chunk, a.group);
    MergeDescribes(a, Members(es, a.group), item, chunk);
  }

  lemma NewDescribes(es: seq<Tagged>, item: Summary, chunk: seq<Tagged>)
    requires Members(es, item.group) == [] && Describes(item, chunk)
    ensures Describes(item, Members(es + chunk, item.group))
  {
    ChunkMembers(es, item, chunk, item.group);
    assert [] + chunk == chunk;
  }

  lemma AddedDescribes(withFile: bool, fileID: string, m: map<string, Summary>, es: seq<Tagged>, item: Summary,
                       chunk: seq<Tagged>, k: string)
    requires MapOk(withFile, fileID, m, es) && Family(withFile, fileID, item.group) && Describes(item, chunk)
    requires k in Added(m, Join(withFile, item.group), item)
    ensures Filed(withFile, fileID, Added(m, Join(withFile, item.group), item), es + chunk, k)
  {
    if k in m {
      assert Filed(withFile, fileID, m, es, k);
      if k == Join(withFile, item.group) {
        JoinInjective(withFile, fileID, m[k].group, item.group);
        MergedDescribes(m[k], es, item, chunk);
      } else {
        ChunkMembers(es, item, chunk, m[k].group);
      }
    } else {
      assert Found(withFile, m, es, item.group);
      NewDescribes(es, item, chunk);
    }
  }

  lemma AddedCovers(withFile: bool, fileID: string, m: map<string, Summary>, es: seq<Tagged>, item: Summary,
                    chunk: seq<Tagged>, g: Group)
    requires MapOk(withFile, fileID, m, es) && Family(withFile, fileID, item.group) && Describes(item, chunk)
    ensures Found(withFile, Added(m, Join(withFile, item.group), item), es + chunk, g)
  {
    var key := Join(withFile, item.group);
    if key in m {
      assert Filed(withFile, fileID, m, es, key);
      JoinInjective(withFile, fileID, m[key].group, item.group);
    }
    if g != item.group {
      MembersAppend(es, chunk, g);
      MembersOfGroup(chunk, g, item.group);
      assert Found(withFile, m, es, g);
    }
  }

  /** Adding the summary of a chunk of one group accounts for exactly that chunk. */
  lemma AddedOk(withFile: bool, fileID: string, m: map<string, Summary>, es: seq<Tagged>, item: Summary,
                chunk: seq<Tagged>)
    requires MapOk(withFile, fileID, m, es) && Family(withFile, fileID, item.group) && Describes(item, chunk)
    ensures MapOk(withFile, fileID, Added(m, Join(withFile, item.group), item), es + chunk)
  {
    var t := Added(m, Join(withFile, item.group), item);
    forall k | k in t ensures Filed(withFile, fileID, t, es + chunk, k) {
      AddedDescribes(withFile, fileID, m, es, item, chunk, k);
    }
    forall g ensures Found(withFile, t, es + chunk, g) {
      AddedCovers(withFile, fileID, m, es, item, chunk, g);
    }
  }

  ghost predicate SameGroups(es: seq<Tagged>, fs: seq<Tagged>) {
    forall g :: Members(es, g) == Members(fs, g)
  }

  lemma SameGroupsOk(withFile: bool, fileID: string, m: map<string, Summary>, es: seq<Tagged>, fs: seq<Tagged>)
    requires MapOk(withFile, fileID, m, es) && SameGroups(es, fs)
    ensures MapOk(withFile, fileID, m, fs)
  {
    forall k | k in m ensures Filed(withFile, fileID, m, fs, k) {
      assert Filed(withFile, fileID, m, es, k);
      assert Members(es, m[k].group) == Members(fs, m[k].group);
    }
    forall g ensures Found(withFile, m, fs, g) {
      assert Found(withFile, m, es, g);
      assert Members(es, g) == Members(fs, g);
    }
  }

  /** The values of a map filed under their own keys, in no particular order. */
  method Values(withFile: bool, m: map<string, Summary>) returns (rows: seq<Summary>)
    requires forall k :: k in m ==> Join(withFile, m[k].group) == k
    ensures Distinct(rows)
    ensures forall i :: 0 <= i < |rows| ==> ListedRow(withFile, m, {}, rows[i])
    ensures forall k :: k in m ==> m[k] in rows
  {
    rows := [];
    var keys := m.Keys;
    while keys != {}
      invariant keys <= m.Keys && Distinct(rows)
      invariant forall i :: 0 <= i < |rows| ==> ListedRow(withFile, m, keys, rows[i])
      invariant forall k :: k in m && k !in keys ==> m[k] in rows
      decreases |keys|
    {
      var k :| k in keys;
      rows, keys := rows + [m[k]], keys - {k};
    }
  }

  lemma ValuesSummarize(withFile: bool, fileID: string, m: map<string, Summary>, es: seq<Tagged>, rows: seq<Summary>)
    requires MapOk(withFile, fileID, m, es) && Distinct(rows)
    requires forall i :: 0 <= i < |rows| ==> ListedRow(withFile, m, {}, rows[i])
    requires forall k :: k in m ==> m[k] in rows
    ensures Summarizes(rows, es)
  {
    forall i | 0 <= i < |rows| ensures Describes(rows[i], Members(es, rows[i].group)) {
      assert ListedRow(withFile, m, {}, rows[i]);
      assert Filed(withFile, fileID, m, es, Join(withFile, rows[i].group));
    }
    forall i | 0 <= i < |es| ensures HasGroup(rows, es[i].group) {
      MembersAre(es, es[i].group);
      assert Found(withFile, m, es, es[i].group);
      assert m[Join(withFile, es[i].group)] in rows;
    }
  }

  predicate ListedRow(withFile: bool, m: map<string, Summary>, keys: set<string>, row: Summary) {
    var k := Join(withFile, row.group);
    k in m && k !in keys && m[k] == row
  }

  // ----- What summaries determine -----

  function SumCounts(rows: seq<Summary>): nat {
    if rows == [] then 0 else SumCounts(rows[..|rows| - 1]) + rows[|rows| - 1].count
  }

  function SumMembers(es: seq<Tagged>, rows: seq<Summary>): nat {
    if rows == [] then 0 else SumMembers(es, rows[..|rows| - 1]) + |Members(es, rows[|rows| - 1].group)|
  }

  lemma {:induction false} SumMembersSnoc(es: seq<Tagged>, e: Tagged, rows: seq<Summary>)
    requires Distinct(rows)
    ensures SumMembers(es + [e], rows) == SumMembers(es, rows) + (if HasGroup(rows, e.group) then 1 else 0)
    decreases |rows|
  {
    if rows != [] {
      var n := |rows| - 1;
      var init := rows[..n];
      SumMembersSnoc(es, e, init);
      MembersAppend(es, [e], rows[n].group);
      MembersOne(e, rows[n].group);
      HasGroupSnoc(rows, e.group);
    }
  }

  lemma HasGroupSnoc(rows: seq<Summary>, g: Group)
    requires rows != [] && Distinct(rows)
    ensures HasGroup(rows, g) <==> HasGroup(rows[..|rows| - 1], g) || rows[|rows| - 1].group == g
    ensures !(HasGroup(rows[..|rows| - 1], g) && rows[|rows| - 1].group == g)
  {
    var init := rows[..|rows| - 1];
    if HasGroup(init, g) {
      var j :| 0 <= j < |init| && init[j].group == g;
      assert rows[j].group == g;
    }
    if HasGroup(rows, g) && rows[|rows| - 1].group != g {
      var j :| 0 <= j < |rows| && rows[j].group == g;
      assert init[j].group == g;
    }
  }

  lemma {:induction false} SumMembersAll(es: seq<Tagged>, rows: seq<Summary>)
    requires Distinct(rows) && ListsAll(rows, es)
    ensures SumMembers(es, rows) == |es|
    decreases |es|
  {
    if es == [] {
      SumMembersNone(rows);
    } else {
      var n := |es| - 1;
      assert ListsAll(rows, es[..n]);
      SumMembersAll(es[..n], rows);
      SumMembersSnoc(es[..n], es[n], rows);
      assert es[..n] + [es[n]] == es;
    }
  }

  lemma {:induction false} SumMembersNone(rows: seq<Summary>)
    ensures SumMembers([], rows) == 0
    decreases |rows|
  {
    if rows != [] {
      SumMembersNone(rows[..|rows| - 1]);
    }
  }

  lemma {:induction false} SumCountsMembers(es: seq<Tagged>, rows: seq<Summary>)
    requires Correct(rows, es)
    ensures SumCounts(rows) == SumMembers(es, rows)
    decreases |rows|
  {
    if rows != [] {
      SumCountsMembers(es, rows[..|rows| - 1]);
    }
  }

  /** No error is lost or counted twice: the counts add up to the number of errors. */
  lemma CountsAddUp(rows: seq<Summary>, es: seq<Tagged>)
    requires Summarizes(rows, es)
    ensures SumCounts(rows) == |es|
  {
    SumMembersAll(es, rows);
    SumCountsMembers(es, rows);
  }

  predicate SameFacts(a: Summary, b: Summary) {
    && a.group == b.group && a.count == b.count && a.firstLine == b.firstLine && a.lastLine == b.lastLine
    && a.firstSeen == b.firstSeen && a.lastSeen == b.lastSeen
  }

  lemma DescriptionsAgree(a: Summary, b: Summary, ms: seq<Tagged>)
    requires Describes(a, ms) && Describes(b, ms) && a.group == b.group && NoZeroLine(ms)
    ensures SameFacts(a, b)
  {
  }

  /** Correct rows are unique up to order in everything they state about their groups. */
  lemma SummaryIsUnique(rows: seq<Summary>, others: seq<Summary>, es: seq<Tagged>, i: nat)
    requires Summarizes(rows, es) && Summarizes(others, es) && i < |rows| && NoZeroLine(Members(es, rows[i].group))
    ensures exists j :: 0 <= j < |others| && SameFacts(rows[i], others[j])
  {
    var g := rows[i].group;
    MembersAre(es, g);
    var k :| 0 <= k < |es| && es[k].group == g;
    assert HasGroup(others, es[k].group);
    var j :| 0 <= j < |others| && others[j].group == g;
    DescriptionsAgree(rows[i], others[j], Members(es, g));
  }

  // ----- First lines and zero lines -----

  /** COUNTEREXAMPLE. An error on line 0 and then one on line 5: the summary says that the first line is 5. */
  lemma ZeroLineIsForgotten(group: Group, seen: nat)
    ensures var a, b := Tagged(0, seen, group), Tagged(5, seen, group);
            Absorb(Absorb(Opened(a, "", "", ""), a), b).firstLine == 5
  {
  }

  /** COUNTEREXAMPLE. Nor do the two levels then forget alike: lines 3 | 0, 5 of two jobs merge to first line 3,
      while one pass over all three gives 5. */
  lemma LevelsForgetDifferently(group: Group, seen: nat)
    ensures var a, b, c := Tagged(3, seen, group), Tagged(0, seen, group), Tagged(5, seen, group);
            var one := Absorb(Opened(a, "", "", ""), a);
            && Merge(one, Absorb(Absorb(Opened(b, "", "", ""), b), c)).firstLine == 3
            && Absorb(Absorb(one, b), c).firstLine == 5
  {
  }

  lemma LeastIff(first: nat, ms: seq<Tagged>)
    requires ms != [] && FirstLineOf(first, ms)
    ensures Least(first, ms) <==> NoZeroLine(ms) || ms[|ms| - 1].line == 0
  {
    if !NoZeroLine(ms) {
      var k :| 0 <= k < |ms| && ms[k].line == 0;
      assert Least(first, ms) ==> first <= ms[k].line;
      if first == 0 {
        assert ms[|ms| - 1].line == first;
      }
    }
  }

  lemma RowFirstLine(rows: seq<Summary>, es: seq<Tagged>, i: nat)
    requires Correct(rows, es) && i < |rows|
    ensures var ms := Members(es, rows[i].group); ms != [] && FirstLineOf(rows[i].firstLine, ms)
  {
  }

  /** EXACT CONDITION. In a correct summary, as the code builds it per job or merges it over jobs, a row's first
      line is the smallest line of its group if and only if no error of the group has line 0 or its last one has. */
  lemma FirstLineIsLeastIff(rows: seq<Summary>, es: seq<Tagged>, i: nat)
    requires Summarizes(rows, es) && i < |rows|
    ensures var ms := Members(es, rows[i].group);
            ms != [] && (Least(rows[i].firstLine, ms) <==> NoZeroLine(ms) || ms[|ms| - 1].line == 0)
  {
    RowFirstLine(rows, es, i);
    LeastIff(rows[i].firstLine, Members(es, rows[i].group));
  }
}
