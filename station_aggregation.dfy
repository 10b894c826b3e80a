/**
 * Stage A of the report: the per-state aggregation of
 * extract_chargers_by_state.py.  The station table `db` is a class whose
 * fields are its columns; each step of the script is a method that
 * reassigns the columns it writes.  Beside it stand the pure functions that
 * say what each step computes and the lemmas about them.
 *
 * Two behaviours of the script are kept as written:
 *  - `extract_numbers` scans the constant string "text" instead of its
 *    argument, so the notes field never contributes (ExtractNumbers);
 *  - `fillna(0)` runs after the state names are mapped, so a row whose code is
 *    missing or unknown is grouped under the key 0 instead of being dropped
 *    (GroupKeyOfUnmappedIsZero).
 */
module StationAggregation {
  import opened Wrappers
  import DigitRuns

  /**
   * A cell of one of the table's object columns ('State', 'EV Other Info',
   * 'State Full'): a string, a missing value (NaN), or a number, which is
   * what `fillna(0)` leaves where a value was missing.
   */
  datatype Cell = Missing | Number(n: int) | Text(s: string)

  /**
   * One station row with the columns the script keeps: the state code, the
   * Level 1, Level 2 and DC fast counts (numeric columns, possibly NaN), and
   * the free-text 'EV Other Info'.
   */
  datatype Station = Station(
    state: Cell,
    level1: Option<int>,
    level2: Option<int>,
    dcFast: Option<int>,
    otherInfo: Cell)

  /** The two columns of the written summary, after the rename. */
  const SummaryColumns: seq<string> := ["State", "Total EVSEs"]

  /** The summary: its column names and one total per group key. */
  datatype SummaryTable = SummaryTable(columns: seq<string>, totals: map<Cell, int>)

  /** Lookup in `us_state_to_full`: 50 states and the District of Columbia. */
  function StateFullName(code: string): (name: Option<string>)
    ensures name.Some? ==> |code| == 2
  {
    match code
    case "AL" => Some("Alabama")
    case "AK" => Some("Alaska")
    case "AZ" => Some("Arizona")
    case "AR" => Some("Arkansas")
    case "CA" => Some("California")
    case "CO" => Some("Colorado")
    case "CT" => Some("Connecticut")
    case "DE" => Some("Delaware")
    case "FL" => Some("Florida")
    case "GA" => Some("Georgia")
    case "HI" => Some("Hawaii")
    case "ID" => Some("Idaho")
    case "IL" => Some("Illinois")
    case "IN" => Some("Indiana")
    case "IA" => Some("Iowa")
    case "KS" => Some("Kansas")
    case "KY" => Some("Kentucky")
    case "LA" => Some("Louisiana")
    case "ME" => Some("Maine")
    case "MD" => Some("Maryland")
    case "MA" => Some("Massachusetts")
    case "MI" => Some("Michigan")
    case "MN" => Some("Minnesota")
    case "MS" => Some("Mississippi")
    case "MO" => Some("Missouri")
    case "MT" => Some("Montana")
    case "NE" => Some("Nebraska")
    case "NV" => Some("Nevada")
    case "NH" => Some("New Hampshire")
    case "NJ" => Some("New Jersey")
    case "NM" => Some("New Mexico")
    case "NY" => Some("New York")
    case "NC" => Some("North Carolina")
    case "ND" => Some("North Dakota")
    case "OH" => Some("Ohio")
    case "OK" => Some("Oklahoma")
    case "OR" => Some("Oregon")
    case "PA" => Some("Pennsylvania")
    case "RI" => Some("Rhode Island")
    case "SC" => Some("South Carolina")
    case "SD" => Some("South Dakota")
    case "TN" => Some("Tennessee")
    case "TX" => Some("Texas")
    case "UT" => Some("Utah")
    case "VT" => Some("Vermont")
    case "VA" => Some("Virginia")
    case "WA" => Some("Washington")
    case "WV" => Some("West Virginia")
    case "WI" => Some("Wisconsin")
    case "WY" => Some("Wyoming")
    case "DC" => Some("District of Columbia")
    case _ => None
  }

  /** `db['State'].map(us_state_to_full)` on one cell: a code outside the table, or a missing cell, gives NaN. */
  function MapState(state: Cell): (full: Cell)
    ensures !full.Number?
    ensures full.Text? ==> state.Text? && StateFullName(state.s) == Some(full.s)
    ensures full.Missing? ==> !state.Text? || StateFullName(state.s).None?
  {
    if state.Text? && StateFullName(state.s).Some? then Text(StateFullName(state.s).value)
    else Missing
  }

  /**
   * `extract_numbers` as written: 0 for a missing cell, and otherwise the
   * digit-run sum of the constant "text", whatever the cell holds.
   */
  function ExtractNumbers(text: Cell): (count: nat)
    ensures count == 0
  {
    assert DigitRuns.NoDigits("text");
    DigitRuns.NoDigitsNoRuns("text");
    if text.Missing? then 0
    else DigitRuns.DigitRunSum("text")
  }

  /** `fillna(0)` on a cell of an object column. */
  function FillCell(c: Cell): (r: Cell)
    ensures !r.Missing?
    ensures c.Missing? ==> r == Number(0)
    ensures !c.Missing? ==> r == c
  {
    if c.Missing? then Number(0) else c
  }

  /** `fillna(0)` on a cell of a numeric column. */
  function FillCount(o: Option<int>): (r: Option<int>)
    ensures r.Some?
    ensures o.None? ==> r == Some(0)
    ensures o.Some? ==> r == o
  {
    Some(o.GetOr(0))
  }

  /** The key a station is grouped under: its mapped state name, with NaN filled by 0. */
  function GroupKey(st: Station): (key: Cell)
    ensures key.Text? || key == Number(0)
  {
    FillCell(MapState(st.state))
  }

  /**
   * A station's 'Total EVSEs': the three counts, missing ones as 0, plus the
   * notes count, which as written adds nothing; a station with every count
   * missing contributes 0.
   */
  function StationTotal(st: Station): (total: int)
    ensures total == st.level1.GetOr(0) + st.level2.GetOr(0) + st.dcFast.GetOr(0)
    ensures st.level1.None? && st.level2.None? && st.dcFast.None? ==> total == 0
  {
    st.level1.GetOr(0) + st.level2.GetOr(0) + st.dcFast.GetOr(0) + ExtractNumbers(st.otherInfo)
  }

  function GroupKeys(stations: seq<Station>): (keys: seq<Cell>)
    ensures |keys| == |stations|
  {
    seq(|stations|, i requires 0 <= i < |stations| => GroupKey(stations[i]))
  }

  function StationTotals(stations: seq<Station>): (totals: seq<int>)
    ensures |totals| == |stations|
  {
    seq(|stations|, i requires 0 <= i < |stations| => StationTotal(stations[i]))
  }

  function Sum(totals: seq<int>): (total: int) {
    if totals == [] then 0 else Sum(totals[..|totals| - 1]) + totals[|totals| - 1]
  }

  /** The sum of the totals whose key is `k`: what the group of `k` must add up to. */
  function SumWhere(keys: seq<Cell>, totals: seq<int>, k: Cell): (total: int)
    requires |keys| == |totals|
    ensures k !in keys ==> total == 0
  {
    if keys == [] then 0
    else
      SumWhere(keys[..|keys| - 1], totals[..|totals| - 1], k)
      + (if keys[|keys| - 1] == k then totals[|totals| - 1] else 0)
  }

  /**
   * `groupby(key)[total].sum()`: one entry per distinct key, holding the sum
   * of the totals of the rows with that key.  No output order is modelled.
   */
  function GroupSum(keys: seq<Cell>, totals: seq<int>): (sums: map<Cell, int>)
    requires |keys| == |totals|
    ensures forall k :: k in sums <==> k in keys
    ensures forall k :: k in sums ==> sums[k] == SumWhere(keys, totals, k)
  {
    if keys == [] then map[]
    else
      var rest := GroupSum(keys[..|keys| - 1], totals[..|totals| - 1]);
      var k := keys[|keys| - 1];
      assert forall j :: j in keys <==> j in keys[..|keys| - 1] || j == k;
      rest[k := (if k in rest then rest[k] else 0) + totals[|totals| - 1]]
  }

  /** The whole script as a function of its input rows. */
  function Summarize(stations: seq<Station>): (table: SummaryTable)
    ensures table.columns == ["State", "Total EVSEs"]
  {
    SummaryTable(SummaryColumns, GroupSum(GroupKeys(stations), StationTotals(stations)))
  }

  /** The sum of all the values of a map. */
  ghost function MapSum(m: map<Cell, int>): int
    decreases |m|
  {
    if m == map[] then 0
    else
      var k :| k in m;
      m[k] + MapSum(m - {k})
  }

  // ---------------------------------------------------------------------
  // Filling and row totals
  // ---------------------------------------------------------------------

  predicate CountsNonNegative(st: Station) {
    st.level1.GetOr(0) >= 0 && st.level2.GetOr(0) >= 0 && st.dcFast.GetOr(0) >= 0
  }

  lemma StationTotalNonNegative(st: Station)
    requires CountsNonNegative(st)
    ensures StationTotal(st) >= 0
  {
  }

  /**
   * `fillna(0)` runs after the mapping: a station with a recognised code is
   * keyed by its full name, and every other station by the number 0.
   */
  lemma GroupKeyOfUnmappedIsZero(st: Station)
    ensures GroupKey(st) == Number(0) <==> !st.state.Text? || StateFullName(st.state.s).None?
    ensures GroupKey(st).Text? <==> st.state.Text? && StateFullName(st.state.s).Some?
    ensures GroupKey(st).Text? ==> StateFullName(st.state.s) == Some(GroupKey(st).s)
  {
  }

  // ---------------------------------------------------------------------
  // The group-by sum
  // ---------------------------------------------------------------------

  lemma {:induction false} SumWhereNonNegative(keys: seq<Cell>, totals: seq<int>, k: Cell)
    requires |keys| == |totals|
    requires forall i :: 0 <= i < |totals| ==> totals[i] >= 0
    ensures SumWhere(keys, totals, k) >= 0
  {
    if keys != [] {
      SumWhereNonNegative(keys[..|keys| - 1], totals[..|totals| - 1], k);
    }
  }

  /** Every group total is non-negative when every row total is. */
  lemma GroupSumNonNegative(keys: seq<Cell>, totals: seq<int>)
    requires |keys| == |totals|
    requires forall i :: 0 <= i < |totals| ==> totals[i] >= 0
    ensures forall k :: k in GroupSum(keys, totals) ==> GroupSum(keys, totals)[k] >= 0
  {
    forall k | k in GroupSum(keys, totals) ensures GroupSum(keys, totals)[k] >= 0 {
      SumWhereNonNegative(keys, totals, k);
    }
  }

  /** Taking any one key out of a map takes out exactly its value from the sum. */
  lemma {:induction false} MapSumRemove(m: map<Cell, int>, k: Cell)
    requires k in m
    ensures MapSum(m) == m[k] + MapSum(m - {k})
    decreases |m|
  {
    var j :| j in m && MapSum(m) == m[j] + MapSum(m - {j});
    if j != k {
      MapSumRemove(m - {j}, k);
      MapSumRemove(m - {k}, j);
      assert m - {j} - {k} == m - {k} - {j};
    }
  }

  lemma MapSumUpdate(m: map<Cell, int>, k: Cell, v: int)
    ensures MapSum(m[k := v]) == MapSum(m) - (if k in m then m[k] else 0) + v
  {
    MapSumRemove(m[k := v], k);
    if k in m {
      MapSumRemove(m, k);
      assert m[k := v] - {k} == m - {k};
    } else {
      assert m[k := v] - {k} == m;
    }
  }

  /** Grouping loses and invents nothing: the group totals add up to the sum of all row totals. */
  lemma {:induction false} GroupSumPreservesTotal(keys: seq<Cell>, totals: seq<int>)
    requires |keys| == |totals|
    ensures MapSum(GroupSum(keys, totals)) == Sum(totals)
  {
    if keys != [] {
      var rest := GroupSum(keys[..|keys| - 1], totals[..|totals| - 1]);
      var k := keys[|keys| - 1];
      var v := (if k in rest then rest[k] else 0) + totals[|totals| - 1];
      assert GroupSum(keys, totals) == rest[k := v];
      assert Sum(totals) == Sum(totals[..|totals| - 1]) + totals[|totals| - 1];
      GroupSumPreservesTotal(keys[..|keys| - 1], totals[..|totals| - 1]);
      MapSumUpdate(rest, k, v);
    }
  }

  // ---------------------------------------------------------------------
  // The summary as a whole
  // ---------------------------------------------------------------------

  /**
   * The summary has one row per distinct group key among the stations, and the
   * row of key `k` holds the sum of the totals of the stations keyed by `k`.
   */
  lemma SummaryRowsPerKey(stations: seq<Station>, k: Cell)
    ensures k in Summarize(stations).totals <==> exists i :: 0 <= i < |stations| && GroupKey(stations[i]) == k
    ensures k in Summarize(stations).totals ==>
      Summarize(stations).totals[k] == SumWhere(GroupKeys(stations), StationTotals(stations), k)
  {
    var keys := GroupKeys(stations);
    assert forall i :: 0 <= i < |stations| ==> keys[i] == GroupKey(stations[i]);
    assert k in keys <==> exists i :: 0 <= i < |stations| && keys[i] == k;
  }

  /** Every key of the summary is the full name of a known code, or the number 0. */
  lemma SummaryKeysAreNamesOrZero(stations: seq<Station>, k: Cell)
    requires k in Summarize(stations).totals
    ensures k == Number(0) || (k.Text? && exists code :: StateFullName(code) == Some(k.s))
  {
    SummaryRowsPerKey(stations, k);
    var i :| 0 <= i < |stations| && GroupKey(stations[i]) == k;
    GroupKeyOfUnmappedIsZero(stations[i]);
  }

  /** A station with a missing or unknown code is counted under the key 0, not dropped. */
  lemma UnmappedStationCountedUnderZero(stations: seq<Station>, i: nat)
    requires i < |stations|
    requires !stations[i].state.Text? || StateFullName(stations[i].state.s).None?
    ensures Number(0) in Summarize(stations).totals
  {
    GroupKeyOfUnmappedIsZero(stations[i]);
    SummaryRowsPerKey(stations, Number(0));
  }

  /** The summary's totals add up to the sum of all station totals, and none is negative when no count is. */
  lemma SummaryTotals(stations: seq<Station>)
    requires forall i :: 0 <= i < |stations| ==> CountsNonNegative(stations[i])
    ensures MapSum(Summarize(stations).totals) == Sum(StationTotals(stations))
    ensures forall k :: k in Summarize(stations).totals ==> Summarize(stations).totals[k] >= 0
  {
    GroupSumPreservesTotal(GroupKeys(stations), StationTotals(stations));
    forall i | 0 <= i < |stations| ensures StationTotals(stations)[i] >= 0 {
      StationTotalNonNegative(stations[i]);
    }
    GroupSumNonNegative(GroupKeys(stations), StationTotals(stations));
  }

  /**
   * Two Californian stations, one with counts 2, 3 and 1 and no notes, one
   * with no counts and the notes "5 units": as written the notes add nothing,
   * so California's total is 6.
   */
  lemma CaliforniaExample()
    ensures Summarize([
      Station(Text("CA"), Some(2), Some(3), Some(1), Missing),
      Station(Text("CA"), Some(0), Some(0), Some(0), Text("5 units"))
    ]).totals == map[Text("California") := 6]
  {
    var st0 := Station(Text("CA"), Some(2), Some(3), Some(1), Missing);
    var st1 := Station(Text("CA"), Some(0), Some(0), Some(0), Text("5 units"));
    var keys := GroupKeys([st0, st1]);
    var totals := StationTotals([st0, st1]);
    assert keys == [Text("California"), Text("California")];
    assert totals == [6, 0];
    assert keys[..1] == [Text("California")] && totals[..1] == [6];
    assert GroupSum(keys[..1], totals[..1]) == map[Text("California") := 6];
  }

  // ---------------------------------------------------------------------
  // The table that the script updates in place
  // ---------------------------------------------------------------------

  /**
   * The DataFrame `db`, column by column.  The first five columns come from
   * the file; 'State Full', 'EV Other Info Count' and 'Total EVSEs' are empty
   * until the step that adds them.
   */
  class StationFrame {
    var state: seq<Cell>
    var level1: seq<Option<int>>
    var level2: seq<Option<int>>
    var dcFast: seq<Option<int>>
    var otherInfo: seq<Cell>
    var stateFull: seq<Cell>
    var otherInfoCount: seq<int>
    var total: seq<int>

    /** All the columns read from the file have one cell per station. */
    ghost predicate Valid()
      reads this
    {
      |level1| == |state| && |level2| == |state| && |dcFast| == |state| && |otherInfo| == |state|
    }

    /** The five columns kept from the file (the selection at the start of the script). */
    constructor (stations: seq<Station>)
      ensures Valid() && |state| == |stations|
      ensures forall i :: 0 <= i < |stations| ==>
        state[i] == stations[i].state && level1[i] == stations[i].level1 && level2[i] == stations[i].level2
        && dcFast[i] == stations[i].dcFast && otherInfo[i] == stations[i].otherInfo
      ensures stateFull == [] && otherInfoCount == [] && total == []
    {
      state := seq(|stations|, i requires 0 <= i < |stations| => stations[i].state);
      level1 := seq(|stations|, i requires 0 <= i < |stations| => stations[i].level1);
      level2 := seq(|stations|, i requires 0 <= i < |stations| => stations[i].level2);
      dcFast := seq(|stations|, i requires 0 <= i < |stations| => stations[i].dcFast);
      otherInfo := seq(|stations|, i requires 0 <= i < |stations| => stations[i].otherInfo);
      stateFull, otherInfoCount, total := [], [], [];
    }

    /** `db['State Full'] = db['State'].map(us_state_to_full)`. */
    method MapStateNames()
      requires Valid()
      modifies this
      ensures Valid() && |stateFull| == |state|
      ensures forall i :: 0 <= i < |state| ==> stateFull[i] == MapState(state[i])
      ensures state == old(state) && level1 == old(level1) && level2 == old(level2)
      ensures dcFast == old(dcFast) && otherInfo == old(otherInfo)
      ensures otherInfoCount == old(otherInfoCount) && total == old(total)
    {
      var codes := state;
      stateFull := seq(|codes|, i requires 0 <= i < |codes| => MapState(codes[i]));
    }

    /** `db['EV Other Info Count'] = db['EV Other Info'].apply(extract_numbers)`. */
    method CountOtherInfo()
      requires Valid()
      modifies this
      ensures Valid() && |otherInfoCount| == |state|
      ensures forall i :: 0 <= i < |state| ==> otherInfoCount[i] == ExtractNumbers(otherInfo[i])
      ensures state == old(state) && level1 == old(level1) && level2 == old(level2)
      ensures dcFast == old(dcFast) && otherInfo == old(otherInfo)
      ensures stateFull == old(stateFull) && total == old(total)
    {
      var notes := otherInfo;
      otherInfoCount := seq(|notes|, i requires 0 <= i < |notes| => ExtractNumbers(notes[i]));
    }

    /** `db.fillna(0, inplace=True)`: every missing cell of every column becomes 0. */
    method FillMissingWithZero()
      requires Valid()
      modifies this
      ensures Valid() && |state| == old(|state|) && |stateFull| == old(|stateFull|)
      ensures forall i :: 0 <= i < |state| ==>
        state[i] == FillCell(old(state[i])) && otherInfo[i] == FillCell(old(otherInfo[i]))
        && level1[i] == FillCount(old(level1[i])) && level2[i] == FillCount(old(level2[i]))
        && dcFast[i] == FillCount(old(dcFast[i]))
      ensures forall i :: 0 <= i < |stateFull| ==> stateFull[i] == FillCell(old(stateFull[i]))
      ensures otherInfoCount == old(otherInfoCount) && total == old(total)
    {
      var n, st, l1, l2, dc, notes, full := |state|, state, level1, level2, dcFast, otherInfo, stateFull;
      state := seq(n, i requires 0 <= i < n => FillCell(st[i]));
      level1 := seq(n, i requires 0 <= i < n => FillCount(l1[i]));
      level2 := seq(n, i requires 0 <= i < n => FillCount(l2[i]));
      dcFast := seq(n, i requires 0 <= i < n => FillCount(dc[i]));
      otherInfo := seq(n, i requires 0 <= i < n => FillCell(notes[i]));
      stateFull := seq(|full|, i requires 0 <= i < |full| => FillCell(full[i]));
    }

    /**
     * `db['Total EVSEs'] = L1.astype(int) + L2.astype(int) + DC.astype(int) + notes.astype(int)`.
     * The cast fails on a missing count; then `ok` is false and nothing changes.
     */
    method ComputeTotals() returns (ok: bool)
      requires Valid() && |otherInfoCount| == |state|
      modifies this
      ensures Valid()
      ensures state == old(state) && level1 == old(level1) && level2 == old(level2)
      ensures dcFast == old(dcFast) && otherInfo == old(otherInfo)
      ensures stateFull == old(stateFull) && otherInfoCount == old(otherInfoCount)
      ensures ok <==> forall i :: 0 <= i < |state| ==> level1[i].Some? && level2[i].Some? && dcFast[i].Some?
      ensures ok ==> |total| == |state| && forall i :: 0 <= i < |state| ==>
        total[i] == level1[i].value + level2[i].value + dcFast[i].value + otherInfoCount[i]
      ensures !ok ==> total == old(total)
    {
      var n, l1, l2, dc, notes := |state|, level1, level2, dcFast, otherInfoCount;
      ok := forall i | 0 <= i < n :: l1[i].Some? && l2[i].Some? && dc[i].Some?;
      if ok {
        total := seq(n, i requires 0 <= i < n => l1[i].value + l2[i].value + dc[i].value + notes[i]);
      }
    }

    /**
     * `db.groupby('State Full')['Total EVSEs'].sum().reset_index()` with the
     * columns renamed.  groupby drops NaN keys; the script calls it after
     * `fillna`, when no key is missing, and so does every caller here.
     */
    method GroupByState() returns (summary: SummaryTable)
      requires |stateFull| == |total|
      requires forall k :: k in stateFull ==> !k.Missing?
      ensures summary.columns == ["State", "Total EVSEs"]
      ensures forall k :: k in summary.totals <==> k in stateFull
      ensures forall k :: k in summary.totals ==> summary.totals[k] == SumWhere(stateFull, total, k)
    {
      summary := SummaryTable(SummaryColumns, GroupSum(stateFull, total));
    }
  }

  /**
   * The script body from the column selection to the summary: the steps run
   * in the script's order, the cast never fails because `fillna` ran first,
   * and the result is the summary of the input stations.
   */
  method ExtractChargersByState(stations: seq<Station>) returns (summary: SummaryTable)
    ensures summary == Summarize(stations)
  {
    var db := new StationFrame(stations);
    db.MapStateNames();
    db.CountOtherInfo();
    db.FillMissingWithZero();
    var ok := db.ComputeTotals();
    assert ok;
    summary := db.GroupByState();
    assert db.stateFull == GroupKeys(stations);
    assert db.total == StationTotals(stations);
  }
}
