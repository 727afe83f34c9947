/**
 * The KPI calculations of the inbound snapshot: the labor KPIs of the
 * inbound department, the transaction statistics of the first spreadsheet
 * sheet, the combined per-hour rates, the efficiency insights, and the
 * assembly of the three result slots.
 */
module SnapshotCalculations {
  import opened Options
  import opened Text
  import opened Cells
  import opened LaborParser

  // ---------------------------------------------------------------- configuration

  /** The inbound transaction type codes, compared with `===` as strings. */
  const RECEIPT := "151"
  const PUT := "152"
  const DAMAGED := "183"
  const MISC_RETURN_RCPT := "547"
  const MISC_RETURN_PUT := "548"

  /** Lower-case keywords that mark an inbound labor area. */
  const INBOUND_AREA_KEYWORDS: seq<string> := ["inbound", "receiving", "putaway", "vas"]

  function Abs(x: int): nat { if x < 0 then -x else x }

  function Max(a: nat, b: nat): nat { if a < b then b else a }

  // ---------------------------------------------------------------- calculateLaborKPIs

  predicate IsInbound(dept: LaborRow) {
    Contains(ToLower(dept.name), "inbound")
  }

  /** `departments.find(...)`, as the index of the first inbound department. */
  function FirstInbound(depts: seq<LaborRow>): (r: Option<nat>)
    ensures r.Some? ==> r.value < |depts|
  {
    if depts == [] then None
    else if IsInbound(depts[0]) then Some(0)
    else match FirstInbound(depts[1..])
      case None => None
      case Some(i) => Some(i + 1)
  }

  /** The index found is an inbound department and no earlier one is. */
  lemma {:induction false} FirstInboundSpec(depts: seq<LaborRow>)
    ensures FirstInbound(depts).Some? ==> IsInbound(depts[FirstInbound(depts).value])
    ensures forall j :: 0 <= j < |depts| && (FirstInbound(depts).None? || j < FirstInbound(depts).value)
                        ==> !IsInbound(depts[j])
  {
    if depts != [] && !IsInbound(depts[0]) {
      FirstInboundSpec(depts[1..]);
      forall j | 1 <= j < |depts| ensures depts[j] == depts[1..][j - 1] { }
    }
  }

  /** `keywords.some(keyword => name.includes(keyword))`. */
  predicate MatchesAny(name: string, keywords: seq<string>) {
    keywords != [] && (Contains(name, keywords[0]) || MatchesAny(name, keywords[1..]))
  }

  predicate IsInboundArea(area: LaborRow) {
    MatchesAny(ToLower(area.name), INBOUND_AREA_KEYWORDS)
  }

  /** An inbound area with the share of the inbound department's hours it accounts for. */
  datatype InboundArea = InboundArea(area: LaborRow, hoursPercent: real)

  /** `inboundHours > 0 ? areaHours / inboundHours * 100 : 0`. */
  function HoursPercent(areaHours: real, inboundHours: real): (p: real)
    ensures inboundHours <= 0.0 ==> p == 0.0
    ensures inboundHours > 0.0 ==> p * inboundHours == areaHours * 100.0
  {
    if inboundHours > 0.0 then areaHours / inboundHours * 100.0 else 0.0
  }

  /** What the filter and the map make of one area: itself with its percentage, or nothing. */
  function KeepArea(area: LaborRow, inboundHours: real): (r: seq<InboundArea>)
    ensures |r| <= 1
    ensures r != [] <==> IsInboundArea(area)
    ensures r != [] ==> r[0] == InboundArea(area, HoursPercent(area.totalHours, inboundHours))
  {
    if IsInboundArea(area) then [InboundArea(area, HoursPercent(area.totalHours, inboundHours))] else []
  }

  /** `areas.filter(isInboundArea).map(area => ({...area, hoursPercent}))`. */
  function InboundAreas(areas: seq<LaborRow>, inboundHours: real): seq<InboundArea> {
    if areas == [] then [] else KeepArea(areas[0], inboundHours) + InboundAreas(areas[1..], inboundHours)
  }

  /**
   * The filter keeps the input order: it distributes over concatenation, and
   * on a single area it is that area's own step.
   */
  lemma {:induction false} InboundAreasAppend(a: seq<LaborRow>, b: seq<LaborRow>, h: real)
    ensures InboundAreas(a + b, h) == InboundAreas(a, h) + InboundAreas(b, h)
  {
    if a != [] {
      assert (a + b)[1..] == a[1..] + b;
      assert (a + b)[0] == a[0];
      InboundAreasAppend(a[1..], b, h);
    } else {
      assert a + b == b;
    }
  }

  lemma InboundAreasSingle(x: LaborRow, h: real)
    ensures InboundAreas([x], h) == KeepArea(x, h)
  {
    assert [x][1..] == [];
  }

  /** Every kept area comes from the input and matches a keyword, and every matching area is kept. */
  lemma {:induction false} InboundAreasMembers(areas: seq<LaborRow>, h: real, x: LaborRow)
    ensures InboundArea(x, HoursPercent(x.totalHours, h)) in InboundAreas(areas, h) <==> x in areas && IsInboundArea(x)
    ensures forall e :: e in InboundAreas(areas, h) ==> e.area in areas && IsInboundArea(e.area)
  {
    if areas != [] {
      InboundAreasMembers(areas[1..], h, x);
      assert areas == [areas[0]] + areas[1..];
    }
  }

  /** The labor KPI object: `{}`, the error object, or the inbound department's figures. */
  datatype LaborKpis =
    | NoDepartments
    | LaborError(error: string)
    | LaborKpis(inboundDepartment: LaborRow, totalHours: real, totalUnits: int, totalTransactions: int,
                overallUPH: real, overallTPH: real, inboundAreas: Option<seq<InboundArea>>)

  /** `calculateLaborKPIs(data)`. */
  function CalculateLaborKPIs(data: LaborReport): (r: LaborKpis)
    ensures r.NoDepartments? <==> data.departments == []
    ensures r.LaborError? <==> data.departments != [] && FirstInbound(data.departments).None?
    ensures r.LaborKpis? ==> IsInbound(r.inboundDepartment) && r.inboundDepartment in data.departments
    ensures r.LaborKpis? && r.inboundAreas.Some? ==> r.inboundAreas.value != []
  {
    if data.departments == [] then NoDepartments
    else
      FirstInboundSpec(data.departments);
      match FirstInbound(data.departments)
      case None => LaborError("No Inbound department found")
      case Some(i) =>
        var dept := data.departments[i];
        var areas := InboundAreas(data.areas, dept.totalHours);
        LaborKpis(dept, dept.totalHours, dept.totalUnits, dept.totalTransactions, dept.uph, dept.tph,
                  if |areas| > 0 then Some(areas) else None)
  }

  /** With an inbound department, the KPIs copy the first one's figures. */
  lemma FirstInboundDepartmentCopied(data: LaborReport, i: nat)
    requires i < |data.departments| && IsInbound(data.departments[i])
    requires forall j :: 0 <= j < i ==> !IsInbound(data.departments[j])
    ensures var d := data.departments[i];
      CalculateLaborKPIs(data).LaborKpis?
      && CalculateLaborKPIs(data).inboundDepartment == d
      && CalculateLaborKPIs(data).totalHours == d.totalHours
      && CalculateLaborKPIs(data).totalUnits == d.totalUnits
      && CalculateLaborKPIs(data).totalTransactions == d.totalTransactions
      && CalculateLaborKPIs(data).overallUPH == d.uph
      && CalculateLaborKPIs(data).overallTPH == d.tph
      && CalculateLaborKPIs(data).inboundAreas
         == if InboundAreas(data.areas, d.totalHours) == [] then None else Some(InboundAreas(data.areas, d.totalHours))
  {
    FirstInboundSpec(data.departments);
  }

  /** Without any inbound department among non-empty departments, the result is the error object. */
  lemma NoInboundDepartmentIsError(data: LaborReport)
    requires data.departments != []
    requires forall j :: 0 <= j < |data.departments| ==> !IsInbound(data.departments[j])
    ensures CalculateLaborKPIs(data) == LaborError("No Inbound department found")
  {
    FirstInboundSpec(data.departments);
  }

  // ---------------------------------------------------------------- calculateExcelKPIs

  /** A spreadsheet row, with the three columns the statistics read. */
  datatype TxRow = TxRow(transactionType: Cell, description: Cell, quantity: Cell)

  /** One property of the workbook object: a sheet name and its rows, or `undefined`. */
  datatype Sheet = Sheet(name: string, rows: Option<seq<TxRow>>)

  /** A `Map` key: strings are equal by content, numbers by value. */
  datatype TxKey = StrKey(s: string) | NumKey(v: real)

  function KeyOf(c: Cell): TxKey
    requires c.Str? || c.Num?
  {
    match c
    case Str(s) => StrKey(s)
    case Num(v, _) => NumKey(v)
  }

  /** `row["Transaction Type"] === code`: only a string cell matches. */
  predicate IsType(row: TxRow, code: string) {
    row.transactionType == Str(code)
  }

  /** `transactions.filter(row => row["Transaction Type"] === code)`. */
  function OfType(rows: seq<TxRow>, code: string): (r: seq<TxRow>)
    ensures |r| <= |rows|
  {
    if rows == [] then []
    else OfType(rows[..|rows| - 1], code) + (if IsType(rows[|rows| - 1], code) then [rows[|rows| - 1]] else [])
  }

  /** The rows of one type are exactly the rows with that type, counted once each. */
  lemma {:induction false} OfTypeSpec(rows: seq<TxRow>, code: string, x: TxRow)
    ensures x in OfType(rows, code) <==> x in rows && IsType(x, code)
    ensures multiset(OfType(rows, code))[x] == if IsType(x, code) then multiset(rows)[x] else 0
  {
    if rows != [] {
      var front := rows[..|rows| - 1];
      OfTypeSpec(front, code, x);
      assert rows == front + [rows[|rows| - 1]];
    }
  }

  /** Rows of three different types are disjoint, so their counts add up to at most the row count. */
  lemma {:induction false} TypeCountsBounded(rows: seq<TxRow>)
    ensures |OfType(rows, RECEIPT)| + |OfType(rows, PUT)| + |OfType(rows, DAMAGED)| <= |rows|
  {
    if rows != [] {
      TypeCountsBounded(rows[..|rows| - 1]);
    }
  }

  /** `reduce((sum, row) => sum + (parseFloat(row["Quantity"]) || 0), 0)`. */
  function SumQuantities(rows: seq<TxRow>): real {
    if rows == [] then 0.0 else SumQuantities(rows[..|rows| - 1]) + ParseFloatCellOr0(rows[|rows| - 1].quantity)
  }

  /** Rows whose quantity holds no digit add nothing to the sum. */
  lemma {:induction false} UnparsableQuantitiesAddNothing(rows: seq<TxRow>, more: seq<TxRow>)
    requires forall k :: 0 <= k < |more| ==> more[k].quantity.Str? && NoDigit(more[k].quantity.s)
    ensures SumQuantities(rows + more) == SumQuantities(rows)
    decreases |more|
  {
    if more == [] {
      assert rows + more == rows;
    } else {
      var front := more[..|more| - 1];
      UnparsableQuantitiesAddNothing(rows, front);
      assert (rows + more)[..|rows + more| - 1] == rows + front;
      NoDigitParsesToZero(more[|more| - 1].quantity.s);
    }
  }

  /** Rows with a truthy type and description reach the two maps. */
  predicate Keyed(row: TxRow) {
    Truthy(row.transactionType) && Truthy(row.description)
  }

  /**
   * The `transactionCounts` and `transactionTypes` maps; `order` is their
   * common insertion order, which `Map.prototype.entries` follows.
   */
  datatype Tally = Tally(order: seq<TxKey>, counts: map<TxKey, nat>, descs: map<TxKey, Cell>)

  /** What the `transactions.forEach` callback does to the maps for one row. */
  function TallyStep(t: Tally, row: TxRow): Tally {
    if Keyed(row) then
      var k := KeyOf(row.transactionType);
      var c := if k in t.counts then t.counts[k] else 0;
      Tally(if k in t.counts then t.order else t.order + [k], t.counts[k := c + 1], t.descs[k := row.description])
    else t
  }

  function TallyOf(rows: seq<TxRow>): Tally {
    if rows == [] then Tally([], map[], map[]) else TallyStep(TallyOf(rows[..|rows| - 1]), rows[|rows| - 1])
  }

  /** The number of rows that reach the maps with key `k`. */
  function KeyCount(rows: seq<TxRow>, k: TxKey): nat {
    if rows == [] then 0
    else
      var row := rows[|rows| - 1];
      KeyCount(rows[..|rows| - 1], k) + (if Keyed(row) && KeyOf(row.transactionType) == k then 1 else 0)
  }

  /** The description of the last row that reaches the maps with key `k`. */
  function LastDescription(rows: seq<TxRow>, k: TxKey): Option<Cell> {
    if rows == [] then None
    else
      var row := rows[|rows| - 1];
      if Keyed(row) && KeyOf(row.transactionType) == k then Some(row.description)
      else LastDescription(rows[..|rows| - 1], k)
  }

  /** The number of rows that reach the maps. */
  function KeyedCount(rows: seq<TxRow>): (n: nat)
    ensures n <= |rows|
  {
    if rows == [] then 0 else KeyedCount(rows[..|rows| - 1]) + (if Keyed(rows[|rows| - 1]) then 1 else 0)
  }

  predicate Distinct<T(==)>(s: seq<T>) {
    forall i, j :: 0 <= i < j < |s| ==> s[i] != s[j]
  }

  /** Both maps have the keys of the insertion order, each once. */
  ghost predicate TallyOk(t: Tally) {
    Distinct(t.order)
    && (forall i :: 0 <= i < |t.order| ==> t.order[i] in t.counts && t.order[i] in t.descs)
    && (forall k :: k in t.counts ==> k in t.order)
    && (forall k :: k in t.descs ==> k in t.counts)
  }

  lemma {:induction false} TallyAlwaysOk(rows: seq<TxRow>)
    ensures TallyOk(TallyOf(rows))
  {
    if rows != [] {
      var front, row := rows[..|rows| - 1], rows[|rows| - 1];
      TallyAlwaysOk(front);
      var t := TallyOf(front);
      if Keyed(row) && KeyOf(row.transactionType) !in t.counts {
        var k := KeyOf(row.transactionType);
        var order := t.order + [k];
        assert forall i :: 0 <= i < |t.order| ==> order[i] == t.order[i];
        assert order[|t.order|] == k;
      }
    }
  }

  /** Each key's count is the number of its rows, and its description is the last one seen. */
  lemma {:induction false} TallyCounts(rows: seq<TxRow>, k: TxKey)
    ensures k in TallyOf(rows).counts <==> KeyCount(rows, k) > 0
    ensures k in TallyOf(rows).counts ==> TallyOf(rows).counts[k] == KeyCount(rows, k)
    ensures k in TallyOf(rows).descs <==> LastDescription(rows, k).Some?
    ensures k in TallyOf(rows).descs ==> Some(TallyOf(rows).descs[k]) == LastDescription(rows, k)
  {
    if rows != [] {
      TallyCounts(rows[..|rows| - 1], k);
    }
  }

  /** The sum of the counts, in insertion order. */
  function SumCounts(order: seq<TxKey>, counts: map<TxKey, nat>): nat
    requires forall i :: 0 <= i < |order| ==> order[i] in counts
  {
    if order == [] then 0 else SumCounts(order[..|order| - 1], counts) + counts[order[|order| - 1]]
  }

  lemma {:induction false} SumCountsOutside(order: seq<TxKey>, counts: map<TxKey, nat>, k: TxKey, v: nat)
    requires forall i :: 0 <= i < |order| ==> order[i] in counts
    requires k !in order
    ensures SumCounts(order, counts[k := v]) == SumCounts(order, counts)
  {
    if order != [] {
      SumCountsOutside(order[..|order| - 1], counts, k, v);
    }
  }

  lemma {:induction false} SumCountsBump(order: seq<TxKey>, counts: map<TxKey, nat>, k: TxKey)
    requires forall i :: 0 <= i < |order| ==> order[i] in counts
    requires Distinct(order) && k in order
    ensures SumCounts(order, counts[k := counts[k] + 1]) == SumCounts(order, counts) + 1
  {
    var front, last := order[..|order| - 1], order[|order| - 1];
    if last == k {
      assert forall i :: 0 <= i < |front| ==> front[i] == order[i] != k;
      SumCountsOutside(front, counts, k, counts[k] + 1);
    } else {
      assert order == front + [last];
      SumCountsBump(front, counts, k);
    }
  }

  /** Every row that reaches the maps is counted once. */
  lemma {:induction false} TallyTotal(rows: seq<TxRow>)
    ensures TallyOk(TallyOf(rows))
    ensures SumCounts(TallyOf(rows).order, TallyOf(rows).counts) == KeyedCount(rows)
  {
    TallyAlwaysOk(rows);
    if rows != [] {
      var front, row := rows[..|rows| - 1], rows[|rows| - 1];
      TallyTotal(front);
      var t := TallyOf(front);
      if Keyed(row) {
        var k := KeyOf(row.transactionType);
        if k in t.counts {
          SumCountsBump(t.order, t.counts, k);
        } else {
          SumCountsOutside(t.order, t.counts, k, 1);
          assert (t.order + [k])[..|t.order|] == t.order;
          assert (t.order + [k])[|t.order|] == k;
        }
      }
    }
  }

  /** One element of `transactionBreakdown`. */
  datatype BreakdownEntry = BreakdownEntry(key: TxKey, description: Cell, count: nat, percentage: real)

  /** The entry for one key; `n` is the number of rows of the sheet. */
  function EntryOf(k: TxKey, t: Tally, n: nat): BreakdownEntry
    requires k in t.counts && k in t.descs && n > 0
  {
    BreakdownEntry(k, Or(t.descs[k], Str("Unknown")), t.counts[k], t.counts[k] as real / n as real * 100.0)
  }

  /** `Array.from(transactionCounts.entries()).map(...)`. */
  function Entries(order: seq<TxKey>, t: Tally, n: nat): (r: seq<BreakdownEntry>)
    requires forall i :: 0 <= i < |order| ==> order[i] in t.counts && order[i] in t.descs
    requires order == [] || n > 0
    ensures |r| == |order|
  {
    if order == [] then [] else Entries(order[..|order| - 1], t, n) + [EntryOf(order[|order| - 1], t, n)]
  }

  function SumEntryCounts(s: seq<BreakdownEntry>): nat {
    if s == [] then 0 else s[0].count + SumEntryCounts(s[1..])
  }

  lemma {:induction false} SumEntryCountsAppend(a: seq<BreakdownEntry>, b: seq<BreakdownEntry>)
    ensures SumEntryCounts(a + b) == SumEntryCounts(a) + SumEntryCounts(b)
  {
    if a != [] {
      assert (a + b)[1..] == a[1..] + b;
      SumEntryCountsAppend(a[1..], b);
    } else {
      assert a + b == b;
    }
  }

  lemma {:induction false} EntriesSum(order: seq<TxKey>, t: Tally, n: nat)
    requires forall i :: 0 <= i < |order| ==> order[i] in t.counts && order[i] in t.descs
    requires order == [] || n > 0
    ensures SumEntryCounts(Entries(order, t, n)) == SumCounts(order, t.counts)
  {
    if order != [] {
      var front := order[..|order| - 1];
      EntriesSum(front, t, n);
      SumEntryCountsAppend(Entries(front, t, n), [EntryOf(order[|order| - 1], t, n)]);
    }
  }

  lemma {:induction false} EntriesAt(order: seq<TxKey>, t: Tally, n: nat, i: nat)
    requires forall i :: 0 <= i < |order| ==> order[i] in t.counts && order[i] in t.descs
    requires order == [] || n > 0
    requires i < |order|
    ensures Entries(order, t, n)[i] == EntryOf(order[i], t, n)
  {
    if i < |order| - 1 {
      EntriesAt(order[..|order| - 1], t, n, i);
    }
  }

  // ---------------------------------------------------------------- the breakdown sort

  /** `b.count - a.count` as a comparator: entries with larger counts first. */
  predicate SortedByCount(s: seq<BreakdownEntry>) {
    forall i, j :: 0 <= i < j < |s| ==> s[i].count >= s[j].count
  }

  /** Insert `e` ahead of the first entry whose count is not larger. */
  function Insert(e: BreakdownEntry, s: seq<BreakdownEntry>): seq<BreakdownEntry> {
    if s == [] || e.count >= s[0].count then [e] + s else [s[0]] + Insert(e, s[1..])
  }

  /** The stable sort by descending count that `Array.prototype.sort` performs. */
  function SortByCount(xs: seq<BreakdownEntry>): seq<BreakdownEntry> {
    if xs == [] then [] else Insert(xs[0], SortByCount(xs[1..]))
  }

  /** The entries with a given count, in order. */
  function WithCount(s: seq<BreakdownEntry>, c: nat): seq<BreakdownEntry> {
    if s == [] then [] else (if s[0].count == c then [s[0]] else []) + WithCount(s[1..], c)
  }

  /** Every entry's count is at most `b`. */
  predicate CountsAtMost(s: seq<BreakdownEntry>, b: nat) {
    forall i :: 0 <= i < |s| ==> s[i].count <= b
  }

  lemma {:induction false} InsertPermutes(e: BreakdownEntry, s: seq<BreakdownEntry>)
    ensures multiset(Insert(e, s)) == multiset([e] + s)
    ensures |Insert(e, s)| == |s| + 1
  {
    if s != [] && e.count < s[0].count {
      InsertPermutes(e, s[1..]);
      assert s == [s[0]] + s[1..];
    }
  }

  lemma {:induction false} InsertAtMost(e: BreakdownEntry, s: seq<BreakdownEntry>, b: nat)
    requires CountsAtMost(s, b) && e.count <= b
    ensures CountsAtMost(Insert(e, s), b)
  {
    if s != [] && e.count < s[0].count {
      InsertAtMost(e, s[1..], b);
      var r := Insert(e, s[1..]);
      assert forall i :: 1 <= i < |r| + 1 ==> ([s[0]] + r)[i] == r[i - 1];
    }
  }

  /** A sequence is sorted when its head bounds its sorted tail. */
  lemma SortedCons(x: BreakdownEntry, r: seq<BreakdownEntry>)
    ensures SortedByCount([x] + r) <==> CountsAtMost(r, x.count) && SortedByCount(r)
  {
    var s := [x] + r;
    assert forall i :: 0 <= i < |r| ==> s[i + 1] == r[i];
    if SortedByCount(s) {
      forall i | 0 <= i < |r| ensures r[i].count <= x.count {
        assert s[0] == x && s[i + 1] == r[i];
      }
      forall i, j | 0 <= i < j < |r| ensures r[i].count >= r[j].count {
        assert s[i + 1] == r[i] && s[j + 1] == r[j];
      }
    }
    if CountsAtMost(r, x.count) && SortedByCount(r) {
      forall i, j | 0 <= i < j < |s| ensures s[i].count >= s[j].count {
        if i > 0 {
          assert s[i] == r[i - 1];
        }
      }
    }
  }

  lemma {:induction false} InsertSorted(e: BreakdownEntry, s: seq<BreakdownEntry>)
    requires SortedByCount(s)
    ensures SortedByCount(Insert(e, s))
  {
    if s == [] || e.count >= s[0].count {
      assert forall i :: 0 < i < |s| ==> s[i].count <= s[0].count;
      SortedCons(e, s);
    } else {
      SortedCons(s[0], s[1..]);
      assert s == [s[0]] + s[1..];
      InsertSorted(e, s[1..]);
      InsertAtMost(e, s[1..], s[0].count);
      SortedCons(s[0], Insert(e, s[1..]));
    }
  }

  /** Inserting keeps the relative order of the entries of any one count: `e` lands ahead of its equals. */
  lemma {:induction false} InsertWithCount(e: BreakdownEntry, s: seq<BreakdownEntry>, c: nat)
    ensures WithCount(Insert(e, s), c) == (if e.count == c then [e] else []) + WithCount(s, c)
  {
    if s != [] && e.count < s[0].count {
      var r := Insert(e, s[1..]);
      InsertWithCount(e, s[1..], c);
      WithCountCons(s[0], r, c);
      WithCountCons(s[0], s[1..], c);
      assert s == [s[0]] + s[1..];
    } else {
      WithCountCons(e, s, c);
    }
  }

  lemma WithCountCons(x: BreakdownEntry, r: seq<BreakdownEntry>, c: nat)
    ensures WithCount([x] + r, c) == (if x.count == c then [x] else []) + WithCount(r, c)
  {
    assert ([x] + r)[1..] == r;
  }

  lemma {:induction false} InsertSum(e: BreakdownEntry, s: seq<BreakdownEntry>)
    ensures SumEntryCounts(Insert(e, s)) == e.count + SumEntryCounts(s)
  {
    if s != [] && e.count < s[0].count {
      InsertSum(e, s[1..]);
      assert ([s[0]] + Insert(e, s[1..]))[1..] == Insert(e, s[1..]);
    } else {
      assert ([e] + s)[1..] == s;
    }
  }

  /**
   * The sort result is ordered by descending count, is a permutation of its
   * input, keeps the input order among entries of equal count, and keeps the
   * total of the counts.
   */
  lemma {:induction false} SortByCountSpec(xs: seq<BreakdownEntry>, c: nat)
    ensures SortedByCount(SortByCount(xs))
    ensures multiset(SortByCount(xs)) == multiset(xs)
    ensures |SortByCount(xs)| == |xs|
    ensures WithCount(SortByCount(xs), c) == WithCount(xs, c)
    ensures SumEntryCounts(SortByCount(xs)) == SumEntryCounts(xs)
  {
    if xs != [] {
      var rest := SortByCount(xs[1..]);
      SortByCountSpec(xs[1..], c);
      InsertSorted(xs[0], rest);
      InsertPermutes(xs[0], rest);
      InsertWithCount(xs[0], rest, c);
      InsertSum(xs[0], rest);
      assert xs == [xs[0]] + xs[1..];
    }
  }

  // ---------------------------------------------------------------- the Excel KPI object

  /** `kpis.inboundTransactionSummary`. */
  datatype InboundSummary = InboundSummary(type151Count: nat, type152Count: nat, type152Units: real, damagedCount: nat)

  /** The Excel KPI object: `{}` when there is no first sheet, else the statistics. */
  datatype ExcelKpis =
    | NoSheet
    | ExcelKpis(totalRecords: nat, sheetsCount: nat, transactionBreakdown: seq<BreakdownEntry>,
                type152Units: real, type152Count: nat, totalUnits: real,
                inboundTransactionSummary: InboundSummary)

  /** The breakdown of the rows of a sheet, sorted by descending count. */
  function Breakdown(rows: seq<TxRow>): seq<BreakdownEntry> {
    var t := TallyOf(rows);
    TallyAlwaysOk(rows);
    SortByCount(Entries(t.order, t, |rows|))
  }

  /** `calculateExcelKPIs(data)`, on the properties of `data` in key order. */
  function ExcelKpisOf(sheets: seq<Sheet>): ExcelKpis {
    if sheets == [] || sheets[0].name == [] || sheets[0].rows.None? then NoSheet
    else
      var rows := sheets[0].rows.value;
      var puts := OfType(rows, PUT);
      var units := SumQuantities(puts);
      ExcelKpis(|puts|, |sheets|, Breakdown(rows), units, |puts|, units,
                InboundSummary(|OfType(rows, RECEIPT)|, |puts|, units, |OfType(rows, DAMAGED)|))
  }

  /** The callback of `transactions.forEach`, on the two maps and their insertion order. */
  method TallyRow(order: seq<TxKey>, counts: map<TxKey, nat>, descs: map<TxKey, Cell>, row: TxRow)
    returns (order': seq<TxKey>, counts': map<TxKey, nat>, descs': map<TxKey, Cell>)
    ensures Tally(order', counts', descs') == TallyStep(Tally(order, counts, descs), row)
  {
    order', counts', descs' := order, counts, descs;
    var transactionType, description := row.transactionType, row.description;
    if Truthy(transactionType) && Truthy(description) {
      var k := KeyOf(transactionType);
      var previous := if k in counts then counts[k] else 0;
      if k !in counts {
        order' := order + [k];
      }
      counts' := counts[k := previous + 1];
      descs' := descs[k := description];
    }
  }

  /** `calculateExcelKPIs(data)`. */
  method CalculateExcelKPIs(sheets: seq<Sheet>) returns (kpis: ExcelKpis)
    ensures kpis == ExcelKpisOf(sheets)
  {
    if sheets == [] || sheets[0].name == [] || sheets[0].rows.None? {
      return NoSheet;
    }
    var transactions := sheets[0].rows.value;
    var type152Transactions := OfType(transactions, PUT);
    var order: seq<TxKey>, counts: map<TxKey, nat>, descs: map<TxKey, Cell> := [], map[], map[];
    var i := 0;
    while i < |transactions|
      invariant 0 <= i <= |transactions|
      invariant Tally(order, counts, descs) == TallyOf(transactions[..i])
    {
      assert transactions[..i + 1][..i] == transactions[..i];
      order, counts, descs := TallyRow(order, counts, descs, transactions[i]);
      i := i + 1;
    }
    assert transactions[..|transactions|] == transactions;
    TallyAlwaysOk(transactions);
    var breakdown := SortByCount(Entries(order, Tally(order, counts, descs), |transactions|));
    var units := SumQuantities(type152Transactions);
    var count := |type152Transactions|;
    kpis := ExcelKpis(count, |sheets|, breakdown, units, count, units,
                      InboundSummary(|OfType(transactions, RECEIPT)|, count, units, |OfType(transactions, DAMAGED)|));
  }

  /** `totalRecords`, `type152Count` and the summary's count agree, as do `totalUnits` and `type152Units`. */
  lemma ExcelCountsAgree(sheets: seq<Sheet>)
    requires ExcelKpisOf(sheets).ExcelKpis?
    ensures var r := ExcelKpisOf(sheets); var rows := sheets[0].rows.value;
      r.totalRecords == r.type152Count == r.inboundTransactionSummary.type152Count == |OfType(rows, PUT)|
      && r.totalUnits == r.type152Units == r.inboundTransactionSummary.type152Units == SumQuantities(OfType(rows, PUT))
      && r.inboundTransactionSummary.type151Count + r.type152Count + r.inboundTransactionSummary.damagedCount <= |rows|
  {
    TypeCountsBounded(sheets[0].rows.value);
  }

  /**
   * The breakdown is sorted by descending count, holds one entry per key of
   * the maps, and its counts add up to the number of rows with a type and a
   * description, at most the row count.
   */
  lemma BreakdownSpec(rows: seq<TxRow>)
    ensures SortedByCount(Breakdown(rows))
    ensures |Breakdown(rows)| == |TallyOf(rows).order| && Distinct(TallyOf(rows).order)
    ensures SumEntryCounts(Breakdown(rows)) == KeyedCount(rows) <= |rows|
  {
    var t := TallyOf(rows);
    TallyTotal(rows);
    SortByCountSpec(Entries(t.order, t, |rows|), 0);
    EntriesSum(t.order, t, |rows|);
  }

  /** Each breakdown entry is the count, last description and share of one key that occurs. */
  lemma BreakdownEntries(rows: seq<TxRow>, e: BreakdownEntry)
    requires e in Breakdown(rows)
    ensures KeyCount(rows, e.key) > 0 && e.count == KeyCount(rows, e.key)
    ensures LastDescription(rows, e.key) == Some(e.description)
    ensures e.percentage == e.count as real / |rows| as real * 100.0
  {
    var t := TallyOf(rows);
    TallyAlwaysOk(rows);
    var entries := Entries(t.order, t, |rows|);
    SortByCountSpec(entries, 0);
    assert e in multiset(entries);
    var i :| 0 <= i < |entries| && entries[i] == e;
    EntriesAt(t.order, t, |rows|, i);
    TallyCounts(rows, e.key);
    assert Truthy(t.descs[e.key]) by {
      TallyDescriptionTruthy(rows, e.key);
    }
  }

  /** A key that occurs has its entry in the breakdown. */
  lemma BreakdownCovers(rows: seq<TxRow>, k: TxKey)
    requires KeyCount(rows, k) > 0
    ensures exists e :: e in Breakdown(rows) && e.key == k
  {
    var t := TallyOf(rows);
    TallyAlwaysOk(rows);
    TallyCounts(rows, k);
    var entries := Entries(t.order, t, |rows|);
    var i :| 0 <= i < |t.order| && t.order[i] == k;
    EntriesAt(t.order, t, |rows|, i);
    SortByCountSpec(entries, 0);
    assert entries[i] in multiset(Breakdown(rows));
  }

  /** Only truthy descriptions are stored, so the "Unknown" fallback never applies. */
  lemma {:induction false} TallyDescriptionTruthy(rows: seq<TxRow>, k: TxKey)
    requires k in TallyOf(rows).descs
    ensures Truthy(TallyOf(rows).descs[k])
  {
    var front := rows[..|rows| - 1];
    if k in TallyOf(front).descs {
      TallyDescriptionTruthy(front, k);
    }
  }

  // ---------------------------------------------------------------- calculateEfficiencyInsights

  /** A JavaScript quotient that may overflow to `Infinity`. */
  datatype Quotient = Finite(v: real) | PlusInfinity

  /** `type152Count / totalHours` for a positive count: `Infinity` when the hours are 0. */
  function ActualTplh(count: nat, hours: real): (q: Quotient)
    requires count > 0
    ensures q.PlusInfinity? <==> hours == 0.0
    ensures q.Finite? ==> q.v * hours == count as real
  {
    if hours == 0.0 then PlusInfinity else Finite(count as real / hours)
  }

  /** The variance text before formatting: "N/A", or a percentage (possibly `Infinity`). */
  datatype Variance = NotAvailable | VariancePercent(q: Quotient)

  function VarianceOf(actual: Quotient, tph: real): (r: Variance)
    ensures r.NotAvailable? <==> tph <= 0.0
    ensures actual.PlusInfinity? && tph > 0.0 ==> r == VariancePercent(PlusInfinity)
    ensures actual.Finite? && tph > 0.0 ==> r.q.Finite? && r.q.v * tph == (actual.v - tph) * 100.0
  {
    if tph > 0.0 then
      VariancePercent(match actual
        case Finite(a) => Finite((a - tph) / tph * 100.0)
        case PlusInfinity => PlusInfinity)
    else NotAvailable
  }

  datatype Insight =
    | PutInsight(laborHours: real, transactions: nat, actualTPLH: Quotient, laborTPH: real, variance: Variance)
    | RatioInsight(type151Count: nat, type152Count: nat, ratio: real, balanced: bool)

  /** `Math.abs(c152 - c151) / Math.max(c151, c152) < 0.05`, for positive counts. */
  predicate IsBalanced(c151: nat, c152: nat)
    requires c151 > 0 && c152 > 0
  {
    Abs(c152 - c151) as real / Max(c151, c152) as real < 0.05
  }

  /** The balance test in exact integer form. */
  lemma BalancedIff(c151: nat, c152: nat)
    requires c151 > 0 && c152 > 0
    ensures IsBalanced(c151, c152) <==> 20 * Abs(c152 - c151) < Max(c151, c152)
  {
    var d, m := Abs(c152 - c151) as real, Max(c151, c152) as real;
    DivLess(d, m, 0.05);
    assert (20 * Abs(c152 - c151)) as real == 20.0 * d;
  }

  lemma DivLess(d: real, m: real, c: real)
    requires m > 0.0
    ensures d / m < c <==> d < c * m
  {
    var q := d / m;
    assert q * m == d;
    if q < c {
      MulLess(q, c, m);
    } else {
      MulAtMost(c, q, m);
    }
  }

  lemma MulLess(a: real, b: real, m: real)
    requires m > 0.0 && a < b
    ensures a * m < b * m
  {
    assert (b - a) * m > 0.0;
  }

  lemma MulAtMost(a: real, b: real, m: real)
    requires m > 0.0 && a <= b
    ensures a * m <= b * m
  {
    assert (b - a) * m >= 0.0;
  }

  /** The summary's 151 and 152 counts are both positive. */
  predicate RatioApplies(excel: ExcelKpis) {
    excel.ExcelKpis? && excel.inboundTransactionSummary.type151Count > 0
    && excel.inboundTransactionSummary.type152Count > 0
  }

  /** `calculateEfficiencyInsights(inboundDept, excelData, type152Count)`. */
  function EfficiencyInsights(dept: LaborRow, excel: ExcelKpis, type152Count: nat): (r: seq<Insight>)
    ensures |r| <= 2
    ensures type152Count > 0 <==> (r != [] && r[0].PutInsight?)
    ensures RatioApplies(excel) <==> (r != [] && r[|r| - 1].RatioInsight?)
    ensures r != [] && r[0].PutInsight? ==>
      r[0].transactions == type152Count && r[0].laborHours == dept.totalHours && r[0].laborTPH == dept.tph
      && (r[0].actualTPLH.PlusInfinity? <==> dept.totalHours == 0.0)
      && (r[0].variance.NotAvailable? <==> dept.tph <= 0.0)
    ensures type152Count > 0 && r != [] && r[0].PutInsight? ==>
      r[0].actualTPLH == ActualTplh(type152Count, dept.totalHours)
      && r[0].variance == VarianceOf(r[0].actualTPLH, dept.tph)
    ensures r != [] && r[|r| - 1].RatioInsight? ==>
      var s := excel.inboundTransactionSummary;
      r[|r| - 1].type151Count == s.type151Count && r[|r| - 1].type152Count == s.type152Count
      && r[|r| - 1].ratio * s.type151Count as real == s.type152Count as real
      && (r[|r| - 1].balanced <==> 20 * Abs(s.type152Count - s.type151Count) < Max(s.type151Count, s.type152Count))
  {
    var put :=
      if type152Count > 0 then
        var actual := ActualTplh(type152Count, dept.totalHours);
        [PutInsight(dept.totalHours, type152Count, actual, dept.tph, VarianceOf(actual, dept.tph))]
      else [];
    var ratio :=
      if RatioApplies(excel) then
        var s := excel.inboundTransactionSummary;
        BalancedIff(s.type151Count, s.type152Count);
        [RatioInsight(s.type151Count, s.type152Count, s.type152Count as real / s.type151Count as real,
                      IsBalanced(s.type151Count, s.type152Count))]
      else [];
    put + ratio
  }

  /** `calculateEfficiencyInsights`, pushing each insight onto the list as its guard holds. */
  method CalculateEfficiencyInsights(dept: LaborRow, excel: ExcelKpis, type152Count: nat)
    returns (insights: seq<Insight>)
    ensures insights == EfficiencyInsights(dept, excel, type152Count)
  {
    insights := [];
    if type152Count > 0 {
      var actualTPLH152 := ActualTplh(type152Count, dept.totalHours);
      insights := insights + [PutInsight(dept.totalHours, type152Count, actualTPLH152, dept.tph,
                                         VarianceOf(actualTPLH152, dept.tph))];
    }
    if excel.ExcelKpis? {
      var type151, type152 := excel.inboundTransactionSummary.type151Count, excel.inboundTransactionSummary.type152Count;
      if type151 > 0 && type152 > 0 {
        var ratio := type152 as real / type151 as real;
        var isBalanced := IsBalanced(type151, type152);
        insights := insights + [RatioInsight(type151, type152, ratio, isBalanced)];
      }
    }
  }

  // ---------------------------------------------------------------- calculateCombinedKPIs

  /**
   * The value passed as `laborData`: in the snapshot it is always the parsed
   * report; the labor KPI object is the one that carries `inboundDepartment`.
   */
  datatype LaborObject = ParsedReport(report: LaborReport) | LaborKpiObject(kpis: LaborKpis)

  /** `laborData.inboundDepartment`, absent on a parsed report. */
  function InboundDepartmentOf(o: LaborObject): Option<LaborRow> {
    match o
    case ParsedReport(_) => None
    case LaborKpiObject(k) => if k.LaborKpis? then Some(k.inboundDepartment) else None
  }

  datatype DatasetComparison = DatasetComparison(inboundLaborHours: real, type152Records: nat)

  datatype DepartmentSummary = DepartmentSummary(name: string, totalHours: real, laborUPH: real, laborTPH: real,
                                                 type152Transactions: nat, type152Units: real)

  datatype CombinedKpis =
    | CombinedError(error: string)
    | Combined(datasetComparison: DatasetComparison, tplh: real, tph: real,
               inboundDepartment: DepartmentSummary, inboundEfficiencyInsights: seq<Insight>)

  /** `excelData.totalRecords || 0`, `excelData.type152Count || 0` and `excelData.type152Units || 0`. */
  function TotalRecordsOr0(e: ExcelKpis): nat { if e.ExcelKpis? then e.totalRecords else 0 }
  function Type152CountOr0(e: ExcelKpis): nat { if e.ExcelKpis? then e.type152Count else 0 }
  function Type152UnitsOr0(e: ExcelKpis): real { if e.ExcelKpis? then e.type152Units else 0.0 }

  /** `hours > 0 ? x / hours : 0`. */
  function PerHour(x: real, hours: real): (r: real)
    ensures hours > 0.0 ==> r * hours == x
    ensures hours <= 0.0 ==> r == 0.0
  {
    if hours > 0.0 then x / hours else 0.0
  }

  /** `calculateCombinedKPIs(laborData, excelData)`. */
  function CalculateCombinedKPIs(labor: LaborObject, excel: ExcelKpis): (r: CombinedKpis)
    ensures r.CombinedError? <==> InboundDepartmentOf(labor).None?
    ensures r.Combined? ==>
      var h := r.inboundDepartment.totalHours;
      h == r.datasetComparison.inboundLaborHours
      && (h > 0.0 ==> r.tplh * h == Type152CountOr0(excel) as real && r.tph * h == Type152UnitsOr0(excel))
      && (h <= 0.0 ==> r.tplh == 0.0 && r.tph == 0.0)
  {
    match InboundDepartmentOf(labor)
    case None => CombinedError("No Inbound department found in labor data")
    case Some(dept) =>
      var count := Type152CountOr0(excel);
      var units := Type152UnitsOr0(excel);
      Combined(DatasetComparison(dept.totalHours, TotalRecordsOr0(excel)),
               PerHour(count as real, dept.totalHours), PerHour(units, dept.totalHours),
               DepartmentSummary(dept.name, dept.totalHours, dept.uph, dept.tph, count, units),
               EfficiencyInsights(dept, excel, count))
  }

  // ---------------------------------------------------------------- calculateKPIs

  datatype KpiResults = KpiResults(labor: Option<LaborKpis>, excel: Option<ExcelKpis>, combined: Option<CombinedKpis>)

  /** The `kpiResults` object `calculateKPIs` builds, or none when both inputs are missing. */
  function KpisFor(excel: Option<ExcelKpis>, labor: Option<LaborReport>): (r: Option<KpiResults>)
    ensures r.None? <==> excel.None? && labor.None?
    ensures r.Some? ==> (r.value.labor.Some? <==> labor.Some?) && r.value.excel == excel
                        && (r.value.combined.Some? <==> excel.Some? && labor.Some?)
    ensures r.Some? && labor.Some? ==> r.value.labor == Some(CalculateLaborKPIs(labor.value))
    ensures r.Some? && r.value.combined.Some? ==> r.value.combined.value.CombinedError?
  {
    if excel.None? && labor.None? then None
    else
      Some(KpiResults(
        if labor.Some? then Some(CalculateLaborKPIs(labor.value)) else None,
        excel,
        if labor.Some? && excel.Some? then Some(CalculateCombinedKPIs(ParsedReport(labor.value), excel.value)) else None))
  }

  /** The snapshot page's globals `excelData`, `laborData` and `kpiResults`. */
  class Snapshot {
    var excelData: Option<ExcelKpis>
    var laborData: Option<LaborReport>
    var kpiResults: Option<KpiResults>

    constructor()
      ensures excelData == None && laborData == None && kpiResults == None
    {
      excelData, laborData, kpiResults := None, None, None;
    }

    /** `calculateKPIs()`: storage and display calls are left out. */
    method CalculateKPIs()
      modifies this`kpiResults
      ensures excelData.None? && laborData.None? ==> kpiResults == old(kpiResults)
      ensures excelData.Some? || laborData.Some? ==> kpiResults == KpisFor(excelData, laborData)
    {
      if excelData.None? && laborData.None? {
        return;
      }
      var labor := if laborData.Some? then Some(CalculateLaborKPIs(laborData.value)) else None;
      var combined :=
        if laborData.Some? && excelData.Some? then Some(CalculateCombinedKPIs(ParsedReport(laborData.value), excelData.value))
        else None;
      kpiResults := Some(KpiResults(labor, excelData, combined));
    }
  }
}
