/**
 * The PPA page: spreadsheet rows of licence plates (LPs) and locations are
 * classified into VAS, reach-truck and cart PPA by three fixed location
 * tables, counting distinct LPs per class; reach-truck rows also become pick
 * records that are joined against the item master to find small-volume picks.
 * The item master arrives asynchronously; when it arrives after the rows, the
 * volume analysis is run again on the stored rows.
 */
module Ppa {
  import opened Options
  import opened Text
  import opened Cells

  // ---------------------------------------------------------------- location tables

  const VAS_LOCATIONS: seq<string> := [
    "SM.SHRNKWRP", "LG.SHRNKWRP", "IBCASEPACK", "IBREMOUCA", "IBTAPEBAG",
    "IBCOVERCSUPC", "IBLARGETAPE", "IBTAPETOP", "IBINSPECT", "IB-QA-INSPECT",
    "IBITEMLABEL", "IBBUBBLEWRAP", "IBASSEMBLE", "IBPLASTIC"
  ]

  const REACH_LOCATIONS: seq<string> := [
    "REC6701", "REC7401", "REC7201", "REC7701", "RECVASOUT",
    "REC5401", "IBCONT01", "IBCONT02", "RECVASOUT2",
    "IBPS1", "IBPS2", "BPFLIP"
  ]

  const CART_LOCATIONS: seq<string> := [
    "IBCARTNORTH01", "IBCARTNORTH02", "IBCARTNORTH03", "IBCARTNORTH04",
    "IBCARTSOUTH05", "IBCARTSOUTH06", "IBCARTSOUTH07", "IBCARTSOUTH08",
    "IBCARTSOUTH10", "IBCARTNORTH09"
  ]

  /** A pick whose total cubic volume is below this is small-volume. */
  const SMALL_VOLUME_LIMIT: real := 5000.0

  // ---------------------------------------------------------------- rows

  /** The columns of a sheet row that the page reads ("Item Number" falls back to column C, "Quantity" to column D). */
  datatype Row = Row(locationId: Cell, lp: Cell, itemNumber: Cell, columnC: Cell, quantity: Cell, columnD: Cell)

  /**
   * A row after the per-row normalisation. `itemKey` is `Math.floor(Number(itemNumber))`,
   * the key a pick from this row carries; it is computed here once rather than at the push.
   */
  datatype NormalRow = NormalRow(loc: string, lp: string, itemNumber: Cell, itemKey: ItemKey, quantity: Number)

  function Normalize(row: Row): NormalRow {
    var itemNumber := Or(row.itemNumber, Or(row.columnC, Str("")));
    NormalRow(
      ToUpper(Trim(StringOrEmpty(row.locationId))),
      Trim(StringOrEmpty(row.lp)),
      itemNumber,
      FloorKey(ToNumber(itemNumber)),
      ToNumber(Or(row.quantity, Or(row.columnD, Num(0.0, "0")))))
  }

  /**
   * What normalisation makes of a row: the item number and the quantity fall
   * back to columns C and D and then to `""` and `0`; the LP is trimmed; the
   * location is trimmed and holds no lower-case ASCII letter, and differs from
   * the trimmed cell only in letter case.
   */
  lemma NormalizeSpec(row: Row)
    ensures Normalize(row).itemNumber ==
            if Truthy(row.itemNumber) then row.itemNumber else if Truthy(row.columnC) then row.columnC else Str("")
    ensures Normalize(row).itemKey == FloorKey(ToNumber(Normalize(row).itemNumber))
    ensures Normalize(row).quantity ==
            ToNumber(if Truthy(row.quantity) then row.quantity else if Truthy(row.columnD) then row.columnD else Num(0.0, "0"))
    ensures IsTrimmed(Normalize(row).lp) && Trim(Normalize(row).lp) == Normalize(row).lp
    ensures Normalize(row).lp == Trim(StringOrEmpty(row.lp))
    ensures IsTrimmed(Normalize(row).loc)
    ensures forall i :: 0 <= i < |Normalize(row).loc| ==> !('a' <= Normalize(row).loc[i] <= 'z')
    ensures ToLower(Normalize(row).loc) == ToLower(Trim(StringOrEmpty(row.locationId)))
  {
    TrimIdempotent(StringOrEmpty(row.lp));
    TrimIsTrimmed(StringOrEmpty(row.lp));
    var t := Trim(StringOrEmpty(row.locationId));
    TrimIsTrimmed(StringOrEmpty(row.locationId));
    var loc := Normalize(row).loc;
    assert loc == ToUpper(t);
    if t != [] {
      assert loc[0] == UpperChar(t[0]) && loc[|loc| - 1] == UpperChar(t[|t| - 1]);
    }
  }

  /** Every row normalised, in order; the classification below is stated over these. */
  function NormalizeAll(rows: seq<Row>): (ns: seq<NormalRow>)
    ensures |ns| == |rows| && forall i :: 0 <= i < |rows| ==> ns[i] == Normalize(rows[i])
  {
    seq(|rows|, i requires 0 <= i < |rows| => Normalize(rows[i]))
  }

  /** Rows with an empty LP or location are skipped. */
  predicate Usable(n: NormalRow) {
    n.lp != [] && n.loc != []
  }

  /** The row puts `lp` into the class whose locations are `table`. */
  predicate Contributes(n: NormalRow, table: seq<string>, lp: string) {
    Usable(n) && n.loc in table && n.lp == lp
  }

  /** The LP a single row adds to the class of `table`, if any. */
  function ClassContribution(n: NormalRow, table: seq<string>): set<string> {
    if Usable(n) && n.loc in table then {n.lp} else {}
  }

  /** The distinct LPs seen at a location of `table`. */
  function ClassLps(rows: seq<NormalRow>, table: seq<string>): set<string>
    decreases |rows|
  {
    if rows == [] then {}
    else
      var n := rows[|rows| - 1];
      ClassLps(rows[..|rows| - 1], table) + ClassContribution(n, table)
  }

  /** An LP is in a class exactly when some row puts it there. */
  lemma {:induction false} ClassLpsIff(rows: seq<NormalRow>, table: seq<string>, lp: string)
    ensures lp in ClassLps(rows, table) <==> exists i :: 0 <= i < |rows| && Contributes(rows[i], table, lp)
    decreases |rows|
  {
    if rows != [] {
      var front := rows[..|rows| - 1];
      ClassLpsIff(front, table, lp);
      assert forall i :: 0 <= i < |front| ==> front[i] == rows[i];
      if lp in ClassLps(rows, table) && lp !in ClassLps(front, table) {
        assert Contributes(rows[|rows| - 1], table, lp);
      }
    }
  }

  /** Adding a row whose LP and location already occur never changes a class. */
  lemma DuplicateRowKeepsClass(rows: seq<NormalRow>, k: nat, i: nat, table: seq<string>)
    requires k <= |rows| && i < |rows|
    ensures ClassLps(rows[..k] + [rows[i]] + rows[k..], table) == ClassLps(rows, table)
  {
    var more := rows[..k] + [rows[i]] + rows[k..];
    forall lp ensures lp in ClassLps(more, table) <==> lp in ClassLps(rows, table) {
      ClassLpsIff(more, table, lp);
      ClassLpsIff(rows, table, lp);
      if lp in ClassLps(more, table) {
        var j :| 0 <= j < |more| && Contributes(more[j], table, lp);
        var src := if j < k then j else if j == k then i else j - 1;
        assert more[j] == rows[src];
      }
      if lp in ClassLps(rows, table) {
        var j :| 0 <= j < |rows| && Contributes(rows[j], table, lp);
        assert more[if j < k then j else j + 1] == rows[j];
      }
    }
  }

  // ---------------------------------------------------------------- pick records

  /** A reach-truck pick; `totalVolume` is set by the volume join. */
  datatype PickItem = PickItem(lp: string, itemNumber: ItemKey, quantity: real, location: string,
                               totalVolume: Option<Number>)

  /** A usable reach-table row with a truthy item number and a positive quantity becomes a pick. */
  predicate IsPick(n: NormalRow) {
    Usable(n) && n.loc in REACH_LOCATIONS && Truthy(n.itemNumber) && n.quantity.IsPositive()
  }

  function PickOf(n: NormalRow): PickItem
    requires IsPick(n)
  {
    PickItem(n.lp, n.itemKey, n.quantity.v, n.loc, None)
  }

  /** The pick a single row adds, if any. */
  function PickContribution(n: NormalRow): seq<PickItem> {
    if IsPick(n) then [PickOf(n)] else []
  }

  /** The pick records of `rows`, in row order. */
  function Picks(rows: seq<NormalRow>): seq<PickItem>
    decreases |rows|
  {
    if rows == [] then []
    else
      var n := rows[|rows| - 1];
      Picks(rows[..|rows| - 1]) + PickContribution(n)
  }

  lemma {:induction false} PicksAppend(a: seq<NormalRow>, b: seq<NormalRow>)
    ensures Picks(a + b) == Picks(a) + Picks(b)
    decreases |b|
  {
    if b == [] {
      assert a + b == a;
    } else {
      var b' := b[..|b| - 1];
      assert (a + b)[..|a + b| - 1] == a + b';
      PicksAppend(a, b');
    }
  }

  /** Exactly the qualifying rows give picks, each keyed by the floor of its item number. */
  lemma {:induction false} PicksIff(rows: seq<NormalRow>, p: PickItem)
    ensures p in Picks(rows) <==> exists i :: 0 <= i < |rows| && IsPick(rows[i]) && p == PickOf(rows[i])
    decreases |rows|
  {
    if rows != [] {
      var front, last := rows[..|rows| - 1], rows[|rows| - 1];
      PicksIff(front, p);
      assert Picks(rows) == Picks(front) + PickContribution(last);
      if p in Picks(front) {
        var i :| 0 <= i < |front| && IsPick(front[i]) && p == PickOf(front[i]);
        assert rows[i] == front[i];
      }
      if i :| 0 <= i < |rows| && IsPick(rows[i]) && p == PickOf(rows[i]) {
        if i < |front| {
          assert rows[i] == front[i];
        }
      }
    }
  }

  /** The classes of `rows` after inserting `r` at `k`, when `r` contributes nothing. */
  lemma UnusableRowKeepsClass(rows: seq<NormalRow>, k: nat, r: NormalRow, table: seq<string>)
    requires k <= |rows| && !Usable(r)
    ensures ClassLps(rows[..k] + [r] + rows[k..], table) == ClassLps(rows, table)
  {
    var more := rows[..k] + [r] + rows[k..];
    forall lp | lp in ClassLps(more, table) ensures lp in ClassLps(rows, table) {
      ClassLpsIff(more, table, lp);
      ClassLpsIff(rows, table, lp);
      var j :| 0 <= j < |more| && Contributes(more[j], table, lp);
      assert more[j] == rows[if j < k then j else j - 1];
    }
    forall lp | lp in ClassLps(rows, table) ensures lp in ClassLps(more, table) {
      ClassLpsIff(more, table, lp);
      ClassLpsIff(rows, table, lp);
      var j :| 0 <= j < |rows| && Contributes(rows[j], table, lp);
      assert more[if j < k then j else j + 1] == rows[j];
    }
  }

  /** A row with an empty LP or location adds no LP to any class and no pick. */
  lemma UnusableRowIgnored(rows: seq<NormalRow>, k: nat, r: NormalRow)
    requires k <= |rows| && !Usable(r)
    ensures var more := rows[..k] + [r] + rows[k..];
            && ClassLps(more, VAS_LOCATIONS) == ClassLps(rows, VAS_LOCATIONS)
            && ClassLps(more, REACH_LOCATIONS) == ClassLps(rows, REACH_LOCATIONS)
            && ClassLps(more, CART_LOCATIONS) == ClassLps(rows, CART_LOCATIONS)
            && Picks(more) == Picks(rows)
  {
    UnusableRowKeepsClass(rows, k, r, VAS_LOCATIONS);
    UnusableRowKeepsClass(rows, k, r, REACH_LOCATIONS);
    UnusableRowKeepsClass(rows, k, r, CART_LOCATIONS);
    UnusableRowKeepsPicks(rows, k, r);
  }

  lemma UnusableRowKeepsPicks(rows: seq<NormalRow>, k: nat, r: NormalRow)
    requires k <= |rows| && !Usable(r)
    ensures Picks(rows[..k] + [r] + rows[k..]) == Picks(rows)
  {
    var a, b := rows[..k], rows[k..];
    assert Picks([r]) == [] by {
      assert [r][..0] == [];
    }
    calc {
      Picks(rows[..k] + [r] + rows[k..]);
      { PicksAppend(a + [r], b); }
      Picks(a + [r]) + Picks(b);
      { PicksAppend(a, [r]); assert Picks(a) + [] == Picks(a); }
      Picks(a) + Picks(b);
      { PicksAppend(a, b); }
      Picks(a + b);
      { assert a + b == rows; }
      Picks(rows);
    }
  }

  // ---------------------------------------------------------------- item master

  /** An entry of the item master's `Sheet1`. */
  datatype MasterEntry = MasterEntry(itemNumber: Cell, cubicVol: Cell)

  function MasterKey(e: MasterEntry): ItemKey {
    FloorKey(ToNumber(e.itemNumber))
  }

  /** The `reduce` that keys the item master by `Math.floor(Number(ITEM_NUMBER))`. */
  function BuildItemMaster(entries: seq<MasterEntry>): map<ItemKey, MasterEntry>
    decreases |entries|
  {
    if entries == [] then map[]
    else
      var e := entries[|entries| - 1];
      BuildItemMaster(entries[..|entries| - 1])[MasterKey(e) := e]
  }

  /** The last entry with a given key is the one kept. */
  predicate LastWithKey(entries: seq<MasterEntry>, i: int) {
    0 <= i < |entries| && forall j :: i < j < |entries| ==> MasterKey(entries[j]) != MasterKey(entries[i])
  }

  /** The master holds exactly the keys of the entries. */
  lemma {:induction false} ItemMasterKeys(entries: seq<MasterEntry>, k: ItemKey)
    ensures k in BuildItemMaster(entries) <==> exists i :: 0 <= i < |entries| && MasterKey(entries[i]) == k
    decreases |entries|
  {
    if entries != [] {
      var front := entries[..|entries| - 1];
      ItemMasterKeys(front, k);
      assert forall i :: 0 <= i < |front| ==> front[i] == entries[i];
    }
  }

  /** Each key maps to the last entry that has it: a later entry overwrites an earlier one. */
  lemma {:induction false} ItemMasterLastWins(entries: seq<MasterEntry>, i: nat)
    requires LastWithKey(entries, i)
    ensures MasterKey(entries[i]) in BuildItemMaster(entries)
    ensures BuildItemMaster(entries)[MasterKey(entries[i])] == entries[i]
    decreases |entries|
  {
    var front := entries[..|entries| - 1];
    if i < |front| {
      assert LastWithKey(front, i) by {
        assert forall j :: i < j < |front| ==> front[j] == entries[j];
      }
      ItemMasterLastWins(front, i);
      assert front[i] == entries[i];
    }
  }

  // ---------------------------------------------------------------- volume join

  function Times(n: Number, q: real): Number {
    match n
    case Real(v) => Real(v * q)
    case NaN => NaN
  }

  /** `CUBIC_VOL * quantity` when the master has the item with a truthy `CUBIC_VOL`. */
  function VolumeOf(p: PickItem, master: map<ItemKey, MasterEntry>): Option<Number> {
    if p.itemNumber in master && Truthy(master[p.itemNumber].cubicVol)
    then Some(Times(ToNumber(master[p.itemNumber].cubicVol), p.quantity))
    else None
  }

  /** The item's volume is known and below the limit. */
  predicate SmallVolume(p: PickItem, master: map<ItemKey, MasterEntry>) {
    var vol := VolumeOf(p, master);
    vol.Some? && vol.value.Real? && vol.value.v < SMALL_VOLUME_LIMIT
  }

  /**
   * The pick with `totalVolume` set, as the join does in place: only that
   * field changes, to `CUBIC_VOL * quantity` when the master has the item with
   * a truthy `CUBIC_VOL`; otherwise the pick is left as it was.
   */
  function Annotate(p: PickItem, master: map<ItemKey, MasterEntry>): (r: PickItem)
    ensures r.(totalVolume := p.totalVolume) == p
    ensures r.totalVolume ==
            if p.itemNumber in master && Truthy(master[p.itemNumber].cubicVol)
            then Some(Times(ToNumber(master[p.itemNumber].cubicVol), p.quantity))
            else p.totalVolume
  {
    match VolumeOf(p, master)
    case Some(vol) => p.(totalVolume := Some(vol))
    case None => p
  }

  function AnnotateAll(picks: seq<PickItem>, master: map<ItemKey, MasterEntry>): (r: seq<PickItem>)
    ensures |r| == |picks| && forall i :: 0 <= i < |picks| ==> r[i] == Annotate(picks[i], master)
  {
    seq(|picks|, i requires 0 <= i < |picks| => Annotate(picks[i], master))
  }

  /** The annotated pick when it is small. */
  function SmallContribution(p: PickItem, master: map<ItemKey, MasterEntry>): seq<PickItem> {
    if SmallVolume(p, master) then [Annotate(p, master)] else []
  }

  /** The small-volume picks, annotated, in pick order; the join runs only when the master is non-empty. */
  function SmallItems(picks: seq<PickItem>, master: map<ItemKey, MasterEntry>): (r: seq<PickItem>)
    ensures |r| <= |picks|
    ensures |master| == 0 ==> r == []
    decreases |picks|
  {
    if |master| == 0 || picks == [] then []
    else
      var p := picks[|picks| - 1];
      SmallItems(picks[..|picks| - 1], master) + SmallContribution(p, master)
  }

  /** A pick is listed as small exactly when its master entry gives a volume below the limit. */
  lemma {:induction false} SmallItemsIff(picks: seq<PickItem>, master: map<ItemKey, MasterEntry>, x: PickItem)
    ensures x in SmallItems(picks, master) <==>
            |master| > 0 && exists i :: 0 <= i < |picks| && SmallVolume(picks[i], master) && x == Annotate(picks[i], master)
    decreases |picks|
  {
    if |master| > 0 && picks != [] {
      var front := picks[..|picks| - 1];
      SmallItemsIff(front, master, x);
      assert forall i :: 0 <= i < |front| ==> front[i] == picks[i];
    }
  }

  /** The small list of one pick: that pick, annotated, when the master is non-empty and it is small. */
  lemma SmallItemsSingle(p: PickItem, master: map<ItemKey, MasterEntry>)
    ensures SmallItems([p], master) == if |master| > 0 && SmallVolume(p, master) then [Annotate(p, master)] else []
  {
    assert [p][..0] == [];
  }

  /** Every small pick is pushed, in pick order and with repeats kept, so the count is that of the small picks. */
  lemma {:induction false} SmallItemsAppend(a: seq<PickItem>, b: seq<PickItem>, master: map<ItemKey, MasterEntry>)
    ensures SmallItems(a + b, master) == SmallItems(a, master) + SmallItems(b, master)
    decreases |b|
  {
    if b == [] {
      assert a + b == a;
    } else if |master| > 0 {
      var b' := b[..|b| - 1];
      assert (a + b)[..|a + b| - 1] == a + b';
      assert (a + b)[|a + b| - 1] == b[|b| - 1];
      SmallItemsAppend(a, b', master);
    }
  }

  // ---------------------------------------------------------------- results

  /** `total > 0 ? count / total * 100 : 0`. */
  function Percentage(count: nat, total: nat): (p: real)
    ensures total == 0 ==> p == 0.0
    ensures count <= total ==> 0.0 <= p <= 100.0
    ensures total > 0 ==> p * total as real == count as real * 100.0
  {
    if total > 0 then count as real / total as real * 100.0 else 0.0
  }

  /** The unique-LP counts shown in the results grid and the details table. */
  datatype Summary = Summary(vasCount: nat, reachCount: nat, cartCount: nat) {
    function Total(): nat { vasCount + reachCount + cartCount }
  }

  function SummaryOf(rows: seq<Row>): Summary {
    var ns := NormalizeAll(rows);
    Summary(|ClassLps(ns, VAS_LOCATIONS)|, |ClassLps(ns, REACH_LOCATIONS)|, |ClassLps(ns, CART_LOCATIONS)|)
  }

  /** The three percentages of the details table add up to 100 whenever something was counted. */
  lemma PercentagesSumTo100(s: Summary)
    requires s.Total() > 0
    ensures Percentage(s.vasCount, s.Total()) + Percentage(s.reachCount, s.Total())
            + Percentage(s.cartCount, s.Total()) == 100.0
  {
    SharesSumToOne(s.vasCount as real, s.reachCount as real, s.cartCount as real, s.Total() as real);
  }

  lemma SharesSumToOne(a: real, b: real, c: real, t: real)
    requires t > 0.0 && a + b + c == t
    ensures a / t + b / t + c / t == 1.0
  {
  }

  /** What `displayVolumeAnalysis` writes into the page. */
  datatype VolumeDisplay = VolumeDisplay(smallVolumeCount: nat, totalReachItems: nat, smallVolumePercent: real)

  function VolumeDisplayOf(picks: seq<PickItem>, small: seq<PickItem>): VolumeDisplay {
    VolumeDisplay(|small|, |picks|, Percentage(|small|, |picks|))
  }

  /** The display depends on the picks only through their number. */
  lemma SameVolumeDisplay(annotated: seq<PickItem>, picks: seq<PickItem>, small: seq<PickItem>)
    requires |annotated| == |picks|
    ensures VolumeDisplayOf(annotated, small) == VolumeDisplayOf(picks, small)
  {
  }

  /** The volume analysis the rows and the master give. */
  function ExpectedVolume(rows: seq<Row>, master: map<ItemKey, MasterEntry>): VolumeDisplay {
    var picks := Picks(NormalizeAll(rows));
    VolumeDisplayOf(picks, SmallItems(picks, master))
  }

  /**
   * The small-volume count never exceeds the number of picks, so the percent
   * lies in [0, 100]; it is 0 without picks, and nothing is small without a master.
   */
  lemma ExpectedVolumeBounds(rows: seq<Row>, master: map<ItemKey, MasterEntry>)
    ensures var d := ExpectedVolume(rows, master);
            && d.smallVolumeCount <= d.totalReachItems == |Picks(NormalizeAll(rows))|
            && 0.0 <= d.smallVolumePercent <= 100.0
            && (d.totalReachItems == 0 ==> d.smallVolumePercent == 0.0)
            && (|master| == 0 ==> d.smallVolumeCount == 0)
  {
    var picks := Picks(NormalizeAll(rows));
    var small := SmallItems(picks, master);
    assert |small| <= |picks|;
  }

  // ---------------------------------------------------------------- the loops

  lemma ClassLpsStep(ns: seq<NormalRow>, i: nat, table: seq<string>)
    requires i < |ns|
    ensures ClassLps(ns[..i + 1], table) == ClassLps(ns[..i], table) + ClassContribution(ns[i], table)
  {
    assert ns[..i + 1][..i] == ns[..i];
  }

  lemma PicksStep(ns: seq<NormalRow>, i: nat)
    requires i < |ns|
    ensures Picks(ns[..i + 1]) == Picks(ns[..i]) + PickContribution(ns[i])
  {
    assert ns[..i + 1][..i] == ns[..i];
  }

  /** The `rows.forEach` callback of `displayPPAResults` for one normalised row. */
  method ClassifyRow(n: NormalRow, vas: set<string>, reach: set<string>, cart: set<string>, picks: seq<PickItem>)
    returns (vas': set<string>, reach': set<string>, cart': set<string>, picks': seq<PickItem>)
    ensures vas' == vas + ClassContribution(n, VAS_LOCATIONS)
    ensures reach' == reach + ClassContribution(n, REACH_LOCATIONS)
    ensures cart' == cart + ClassContribution(n, CART_LOCATIONS)
    ensures picks' == picks + PickContribution(n)
  {
    vas', reach', cart', picks' := vas, reach, cart, picks;
    if n.lp != [] && n.loc != [] {
      if n.loc in VAS_LOCATIONS {
        vas' := vas' + {n.lp};
      }
      if n.loc in REACH_LOCATIONS {
        reach' := reach' + {n.lp};
        if Truthy(n.itemNumber) && n.quantity.IsPositive() {
          picks' := picks' + [PickItem(n.lp, n.itemKey, n.quantity.v, n.loc, None)];
        }
      }
      if n.loc in CART_LOCATIONS {
        cart' := cart' + {n.lp};
      }
    }
  }

  /** The `rows.forEach` of `displayPPAResults`: distinct LPs per class and the reach-truck picks. */
  method ClassifyRows(rows: seq<Row>) returns (vas: set<string>, reach: set<string>, cart: set<string>,
                                               picks: seq<PickItem>)
    ensures vas == ClassLps(NormalizeAll(rows), VAS_LOCATIONS)
    ensures reach == ClassLps(NormalizeAll(rows), REACH_LOCATIONS)
    ensures cart == ClassLps(NormalizeAll(rows), CART_LOCATIONS)
    ensures picks == Picks(NormalizeAll(rows))
  {
    ghost var ns := NormalizeAll(rows);
    vas, reach, cart, picks := {}, {}, {}, [];
    var i := 0;
    while i < |rows|
      invariant 0 <= i <= |rows|
      invariant vas == ClassLps(ns[..i], VAS_LOCATIONS)
      invariant reach == ClassLps(ns[..i], REACH_LOCATIONS)
      invariant cart == ClassLps(ns[..i], CART_LOCATIONS)
      invariant picks == Picks(ns[..i])
    {
      var n := Normalize(rows[i]);
      assert ns[i] == n;
      ClassLpsStep(ns, i, VAS_LOCATIONS);
      ClassLpsStep(ns, i, REACH_LOCATIONS);
      ClassLpsStep(ns, i, CART_LOCATIONS);
      PicksStep(ns, i);
      vas, reach, cart, picks := ClassifyRow(n, vas, reach, cart, picks);
      i := i + 1;
    }
    assert ns[..|ns|] == ns;
  }

  /** The `rows.forEach` callback of `displayVolumeAnalysisOnly` for one normalised row. */
  method PickRow(n: NormalRow, picks: seq<PickItem>) returns (picks': seq<PickItem>)
    ensures picks' == picks + PickContribution(n)
  {
    picks' := picks;
    if n.lp != [] && n.loc != [] {
      if n.loc in REACH_LOCATIONS {
        if Truthy(n.itemNumber) && n.quantity.IsPositive() {
          picks' := picks' + [PickItem(n.lp, n.itemKey, n.quantity.v, n.loc, None)];
        }
      }
    }
  }

  /** The `rows.forEach` of `displayVolumeAnalysisOnly`: only the reach-truck picks. */
  method CollectReachPicks(rows: seq<Row>) returns (picks: seq<PickItem>)
    ensures picks == Picks(NormalizeAll(rows))
  {
    ghost var ns := NormalizeAll(rows);
    picks := [];
    var i := 0;
    while i < |rows|
      invariant 0 <= i <= |rows|
      invariant picks == Picks(ns[..i])
    {
      var n := Normalize(rows[i]);
      assert ns[i] == n;
      PicksStep(ns, i);
      picks := PickRow(n, picks);
      i := i + 1;
    }
    assert ns[..|ns|] == ns;
  }

  lemma SmallItemsStep(picks: seq<PickItem>, j: nat, master: map<ItemKey, MasterEntry>)
    requires j < |picks| && |master| > 0
    ensures SmallItems(picks[..j + 1], master) == SmallItems(picks[..j], master) + SmallContribution(picks[j], master)
  {
    assert picks[..j + 1][..j] == picks[..j];
  }

  /** The `reachTruckItems.forEach` callback of the join for one pick. */
  method JoinItem(item: PickItem, master: map<ItemKey, MasterEntry>) returns (joined: PickItem, isSmall: bool)
    ensures joined == Annotate(item, master)
    ensures isSmall == SmallVolume(item, master)
  {
    joined, isSmall := item, false;
    if item.itemNumber in master && Truthy(master[item.itemNumber].cubicVol) {
      var totalVolume := Times(ToNumber(master[item.itemNumber].cubicVol), item.quantity);
      joined := item.(totalVolume := Some(totalVolume));
      isSmall := totalVolume.Real? && totalVolume.v < SMALL_VOLUME_LIMIT;
    }
  }

  /**
   * The volume join: when the master is non-empty, every pick with a master
   * entry gets its `totalVolume`, and those below the limit are collected.
   */
  method AnalyzeVolume(picks: seq<PickItem>, master: map<ItemKey, MasterEntry>)
    returns (annotated: seq<PickItem>, small: seq<PickItem>)
    ensures annotated == if |master| > 0 then AnnotateAll(picks, master) else picks
    ensures small == SmallItems(picks, master)
  {
    annotated, small := picks, [];
    if |master| > 0 {
      var j := 0;
      while j < |annotated|
        invariant 0 <= j <= |annotated| == |picks|
        invariant forall k :: 0 <= k < j ==> annotated[k] == Annotate(picks[k], master)
        invariant forall k :: j <= k < |picks| ==> annotated[k] == picks[k]
        invariant small == SmallItems(picks[..j], master)
      {
        SmallItemsStep(picks, j, master);
        var joined, isSmall := JoinItem(annotated[j], master);
        annotated := annotated[j := joined];
        if isSmall {
          small := small + [joined];
        }
        j := j + 1;
      }
      assert picks[..|picks|] == picks;
    }
  }

  /**
   * The volume join followed by `displayVolumeAnalysis`, which both display
   * functions run: with a non-empty master and at least one pick the display
   * shows the counts, otherwise it keeps what it showed before.
   */
  method JoinAndDisplay(picks: seq<PickItem>, master: map<ItemKey, MasterEntry>, previous: Option<VolumeDisplay>)
    returns (shown: Option<VolumeDisplay>)
    ensures shown == if |master| > 0 && |picks| > 0 then Some(VolumeDisplayOf(picks, SmallItems(picks, master)))
                     else previous
  {
    shown := previous;
    if |master| > 0 {
      var annotated, small := AnalyzeVolume(picks, master);
      if |annotated| > 0 {
        SameVolumeDisplay(annotated, picks, small);
        shown := Some(VolumeDisplayOf(annotated, small));
      }
    }
  }

  /** What `displayPPAResults` computes from the rows, the master and what the volume display showed before. */
  method PPAResults(rows: seq<Row>, master: map<ItemKey, MasterEntry>, previous: Option<VolumeDisplay>)
    returns (s: Summary, shown: Option<VolumeDisplay>)
    ensures s == SummaryOf(rows)
    ensures shown == if |master| > 0 && |Picks(NormalizeAll(rows))| > 0 then Some(ExpectedVolume(rows, master))
                     else previous
  {
    var vas, reach, cart, picks := ClassifyRows(rows);
    s := Summary(|vas|, |reach|, |cart|);
    shown := JoinAndDisplay(picks, master, previous);
  }

  // ---------------------------------------------------------------- the page

  /**
   * The page's module-level state (`itemMasterData`, `currentPPARows`) and
   * what it last displayed: the class summary and the volume analysis.
   */
  class PpaPage {
    var itemMasterData: map<ItemKey, MasterEntry>
    var currentRows: Option<seq<Row>>
    var summary: Option<Summary>
    var volume: Option<VolumeDisplay>

    constructor ()
      ensures itemMasterData == map[] && currentRows == None && summary == None && volume == None
    {
      itemMasterData := map[];
      currentRows := None;
      summary := None;
      volume := None;
    }

    /** `displayPPAResults`: classify the rows and, if the master is loaded, show the volume analysis. */
    method DisplayPPAResults(rows: seq<Row>)
      modifies this`currentRows, this`summary, this`volume
      ensures currentRows == Some(rows)
      ensures summary == Some(SummaryOf(rows))
      ensures volume == if |itemMasterData| > 0 && |Picks(NormalizeAll(rows))| > 0
                        then Some(ExpectedVolume(rows, itemMasterData)) else old(volume)
    {
      var s, shown := PPAResults(rows, itemMasterData, volume);
      currentRows, summary, volume := Some(rows), Some(s), shown;
    }

    /** `displayVolumeAnalysisOnly`: the retry run once the master has arrived. */
    method DisplayVolumeAnalysisOnly(rows: seq<Row>)
      modifies this`volume
      ensures volume == if |itemMasterData| > 0 && |Picks(NormalizeAll(rows))| > 0
                        then Some(ExpectedVolume(rows, itemMasterData)) else old(volume)
    {
      var master := itemMasterData;
      var picks := CollectReachPicks(rows);
      volume := JoinAndDisplay(picks, master, volume);
    }

    /**
     * The fetch callback for the item master (the fallback path behaves the
     * same): when the data has a `Sheet1`, rebuild the master and rerun the
     * volume analysis if rows are waiting; otherwise change nothing.
     */
    method ItemMasterLoaded(sheet1: Option<seq<MasterEntry>>)
      modifies this`itemMasterData, this`volume
      ensures itemMasterData == if sheet1.Some? then BuildItemMaster(sheet1.value) else old(itemMasterData)
      ensures volume == if sheet1.Some? && currentRows.Some? && |itemMasterData| > 0 && |Picks(NormalizeAll(currentRows.value))| > 0
                        then Some(ExpectedVolume(currentRows.value, itemMasterData)) else old(volume)
    {
      if sheet1.Some? {
        itemMasterData := BuildItemMaster(sheet1.value);
        if currentRows.Some? {
          DisplayVolumeAnalysisOnly(currentRows.value);
        }
      }
    }
  }

  /**
   * The master arriving before or after the rows leads to the same volume
   * analysis on a fresh page, namely the one the rows and the master give.
   */
  method LateMasterMatchesEarly(rows: seq<Row>, sheet1: Option<seq<MasterEntry>>)
    returns (early: Option<VolumeDisplay>, late: Option<VolumeDisplay>)
    ensures early == late
    ensures var master := if sheet1.Some? then BuildItemMaster(sheet1.value) else map[];
            early == if |master| > 0 && |Picks(NormalizeAll(rows))| > 0 then Some(ExpectedVolume(rows, master)) else None
  {
    var first := new PpaPage();
    first.ItemMasterLoaded(sheet1);
    first.DisplayPPAResults(rows);
    early := first.volume;

    var second := new PpaPage();
    second.DisplayPPAResults(rows);
    second.ItemMasterLoaded(sheet1);
    late := second.volume;
  }
}
