/**
 * The pandas data frames the calibration functions of
 * notebooks/pollutant_cal_utils.py work on: a time index of whole hours, a
 * set of named channels and, per timestamp, the cells that hold a number.
 * A cell that is absent from a row is NaN.
 */
module Frames {
  import opened Wrappers
  import opened TimeIndex

  /** The board a temperature or humidity channel is read from. */
  datatype Board = AuxBoard | UrbanBoard

  /**
   * Channel names. The raw channels come from the device; the others are
   * the names the calibration functions build by string concatenation.
   */
  datatype Channel =
    | Working(slot: nat)                          // alphasense working electrode of a slot
    | Auxiliary(slot: nat)                        // alphasense auxiliary electrode of a slot
    | Temperature(board: Board)
    | Humidity(board: Board)
    | Resistance(sensor: string)                  // MICS `SENSOR_<pollutant>` resistance
    | BaselineOf(source: Channel)                 // `<channel>_baseline`
    | Concentration(gas: string, suffix: string)  // `<pollutant>_<append>`
    | Filtered(source: Channel)                   // `<channel>_filter`

  type Row = map<Channel, real>

  datatype Frame = Frame(columns: set<Channel>, rows: map<int, Row>)

  /** One cell; `None` is NaN (or a row the frame does not have). */
  function Cell(f: Frame, t: int, c: Channel): Option<real> {
    if t in f.rows && c in f.rows[t] then Some(f.rows[t][c]) else None
  }

  /** The rows strictly after `lo` and up to `hi`: `f[f.index > lo][f.index <= hi]`. */
  function Between(f: Frame, lo: int, hi: int): (g: Frame)
    ensures g.columns == f.columns
    ensures forall t :: t in g.rows <==> t in f.rows && lo < t <= hi
    ensures forall t :: t in g.rows ==> g.rows[t] == f.rows[t]
  {
    Frame(f.columns, map t | t in f.rows && lo < t <= hi :: f.rows[t])
  }

  /** A cell of a row the window keeps is the frame's cell. */
  lemma BetweenCell(f: Frame, lo: int, hi: int, t: int, c: Channel)
    requires lo < t <= hi
    ensures Cell(Between(f, lo, hi), t, c) == Cell(f, t, c)
  {
  }

  /** `fillna(v)` on one row: every column of the frame gets a number. */
  function FillRow(columns: set<Channel>, row: Row, v: real): (r: Row)
    ensures r.Keys == columns + row.Keys
    ensures forall c :: c in row ==> r[c] == row[c]
    ensures forall c :: c in columns && c !in row ==> r[c] == v
  {
    map c | c in columns + row.Keys :: if c in row then row[c] else v
  }

  /** `fillna(v)`: every missing cell of every column becomes `v`; present cells are kept. */
  function FillNa(f: Frame, v: real): (g: Frame)
    ensures g.columns == f.columns && g.rows.Keys == f.rows.Keys
    ensures forall t, c {:trigger Cell(g, t, c)} :: t in f.rows && c in f.columns ==> Cell(g, t, c) == Some(Cell(f, t, c).GetOr(v))
  {
    Frame(f.columns, map t | t in f.rows :: FillRow(f.columns, f.rows[t], v))
  }

  /** The row `combine_first` builds for one timestamp: the caller's cells win. */
  function MergeRow(a: map<int, Row>, b: map<int, Row>, t: int): Row {
    (if t in b then b[t] else map[]) + (if t in a then a[t] else map[])
  }

  /**
   * `a.combine_first(b)`: the union of the two indexes and of the two column
   * sets; a cell keeps `a`'s number when `a` has one and takes `b`'s
   * otherwise.
   */
  function CombineFirst(a: Frame, b: Frame): (m: Frame)
    ensures m.columns == a.columns + b.columns
    ensures m.rows.Keys == a.rows.Keys + b.rows.Keys
    ensures forall t, c {:trigger Cell(m, t, c)} :: Cell(a, t, c).Some? ==> Cell(m, t, c) == Cell(a, t, c)
    ensures forall t, c {:trigger Cell(m, t, c)} :: Cell(a, t, c).None? ==> Cell(m, t, c) == Cell(b, t, c)
  {
    Frame(a.columns + b.columns, map t | t in a.rows.Keys + b.rows.Keys :: MergeRow(a.rows, b.rows, t))
  }

  /** `combine_first` leaves the cells of a timestamp the second frame does not have. */
  lemma CombineFirstOutside(a: Frame, b: Frame, t: int, c: Channel)
    requires t !in b.rows
    ensures Cell(CombineFirst(a, b), t, c) == Cell(a, t, c)
  {
  }

  /** The timestamps of the frame in ascending order: pandas' positional order. */
  function Timestamps(f: Frame): (ts: seq<int>)
    ensures |ts| == |f.rows|
    ensures forall t :: t in f.rows <==> t in ts
  {
    Sorted(f.rows.Keys)
  }

  /** A column in index order, missing cells read as 0 (`fillna(0)`, or the sample a reading stands for). */
  function Values(f: Frame, c: Channel): (v: seq<real>)
    ensures |v| == |f.rows|
    ensures forall i :: 0 <= i < |v| ==> v[i] == Cell(f, Timestamps(f)[i], c).GetOr(0.0)
  {
    var ts := Timestamps(f);
    seq(|ts|, i requires 0 <= i < |ts| => Cell(f, ts[i], c).GetOr(0.0))
  }

  /** `f[c] = values` with a series aligned to the frame's index: cell `c` of the i-th row is `values[i]`. */
  function SetColumn(f: Frame, c: Channel, values: seq<real>): (g: Frame)
    requires |values| == |f.rows|
    ensures g.columns == f.columns + {c} && g.rows.Keys == f.rows.Keys
    ensures forall i :: 0 <= i < |values| ==> Cell(g, Timestamps(f)[i], c) == Some(values[i])
    ensures forall t, d {:trigger Cell(g, t, d)} :: d != c ==> Cell(g, t, d) == Cell(f, t, d)
  {
    var ts := Timestamps(f);
    var g := Frame(f.columns + {c}, map t | t in f.rows :: Put(f.rows[t], c, ValueAt(ts, values, t)));
    forall i | 0 <= i < |ts|
      ensures Cell(g, ts[i], c) == Some(values[i])
    {
      SortedPosition(f.rows.Keys, i);
    }
    g
  }

  /** One row with cell `c` set to `v`. */
  function Put(row: Row, c: Channel, v: real): (r: Row)
    ensures c in r && r[c] == v
    ensures forall d :: d != c ==> (d in r <==> d in row) && (d in row ==> r[d] == row[d])
  {
    row[c := v]
  }

  /** The entry of a series aligned to `ts` that belongs to timestamp `t`. */
  function ValueAt(ts: seq<int>, values: seq<real>, t: int): real
    requires |values| == |ts|
  {
    if t in ts then values[Position(ts, t)] else 0.0
  }

  /**
   * `f[c] = expression` for an element-wise expression over the row: the cell
   * is NaN where the expression is.
   */
  function MapColumn(f: Frame, c: Channel, g: Row -> Option<real>): (h: Frame)
    ensures h.columns == f.columns + {c} && h.rows.Keys == f.rows.Keys
    ensures forall t :: t in f.rows ==> Cell(h, t, c) == g(f.rows[t])
    ensures forall t, d {:trigger Cell(h, t, d)} :: d != c ==> Cell(h, t, d) == Cell(f, t, d)
  {
    Frame(f.columns + {c}, map t | t in f.rows ::
      var row := f.rows[t];
      match g(row)
      case Some(v) => row[c := v]
      case None => row - {c})
  }
}
