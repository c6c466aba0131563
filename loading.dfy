/** Reading the table: the records the worksheet yields and the cleansing applied to
    them (app.py `cargar_datos`). */
module Loading {
  import opened Tables

  /** The cell in column `k` of a worksheet row; a row shorter than the header is padded
      with empty text, as the worksheet client does. */
  function CellAt(row: seq<Cell>, k: nat): Cell {
    if k < |row| then row[k] else Text("")
  }

  /** A worksheet row read against the header: its first four cells. */
  function RecordOf(row: seq<Cell>): Record {
    Record(CellAt(row, 0), CellAt(row, 1), CellAt(row, 2), CellAt(row, 3))
  }

  /** The records of a worksheet whose first row is the header, one per later row;
      `None` for an empty worksheet or one headed otherwise. */
  function Records(cells: seq<seq<Cell>>): (r: Option<seq<Record>>)
    ensures r.Some? <==> |cells| > 0 && cells[0] == Header
    ensures r.Some? ==> |r.value| == |cells| - 1
    ensures r.Some? ==> forall i :: 0 <= i < |r.value| ==> r.value[i] == RecordOf(cells[i + 1])
  {
    if |cells| == 0 || cells[0] != Header then None
    else Some(seq(|cells| - 1, i requires 0 <= i < |cells| - 1 => RecordOf(cells[i + 1])))
  }

  /** A record none of whose fields holds a value (`dropna(how="all")`). */
  predicate AllMissing(r: Record) {
    r.artista == Missing && r.album == Missing && r.url_portada == Missing && r.votos == Missing
  }

  /** `to_numeric(errors='coerce').fillna(0)`: a number keeps its value, anything else is 0. */
  function Votes(c: Cell): int {
    match c
    case Num(n) => n
    case _ => 0
  }

  /** The entry a kept record becomes: text fields as they are, `votos` coerced. */
  function Coerce(r: Record): Entry {
    Entry(r.artista, r.album, r.url_portada, Votes(r.votos))
  }

  /** The cleansed table: the records that are not entirely missing, coerced, in their
      original order and under their original positions as index labels. */
  function Cleanse(records: seq<Record>): (t: Table)
    ensures Increasing(t)
    ensures |t| <= |records|
    ensures forall k :: 0 <= k < |t| ==>
      t[k].index < |records| && !AllMissing(records[t[k].index]) && t[k].entry == Coerce(records[t[k].index])
  {
    if records == [] then []
    else
      var n := |records| - 1;
      var init := Cleanse(records[..n]);
      if AllMissing(records[n]) then init else init + [Row(n, Coerce(records[n]))]
  }

  /** Exactly the records that are not entirely missing survive, each under its own position. */
  lemma {:induction false} CleanseLookup(records: seq<Record>, key: nat)
    ensures Lookup(Cleanse(records), key) ==
      if key < |records| && !AllMissing(records[key]) then Some(Coerce(records[key])) else None
  {
    if records != [] {
      var n := |records| - 1;
      var init := Cleanse(records[..n]);
      CleanseLookup(records[..n], key);
      if !AllMissing(records[n]) {
        LookupAppend(init, [Row(n, Coerce(records[n]))], key);
      }
      if key == n {
        assert !HasLabel(init, n);
      }
    }
  }

  /** What `cargar_datos` returns: the table and whether it was read without error. */
  datatype Loaded = Loaded(table: Table, ok: bool)

  /** `cargar_datos` on what the worksheet read produced (`None` when the read failed).
      An empty result has no `votos` column, so it takes the error path as well. */
  function LoadFrom(fetched: Option<seq<seq<Cell>>>): (r: Loaded)
    ensures r.ok <==> fetched.Some? && |fetched.value| > 1 && fetched.value[0] == Header
    ensures !r.ok ==> r.table == []
    ensures Increasing(r.table)
  {
    match fetched
    case None => Loaded([], false)
    case Some(cells) =>
      match Records(cells)
      case None => Loaded([], false)
      case Some(records) => if records == [] then Loaded([], false) else Loaded(Cleanse(records), true)
  }

  /** A successful load holds exactly the worksheet's rows that are not entirely
      missing, coerced and keyed by their position below the header. */
  lemma LoadedRow(cells: seq<seq<Cell>>, key: nat)
    requires LoadFrom(Some(cells)).ok
    ensures Lookup(LoadFrom(Some(cells)).table, key) ==
      if key < |cells| - 1 && !AllMissing(RecordOf(cells[key + 1]))
      then Some(Coerce(RecordOf(cells[key + 1]))) else None
  {
    CleanseLookup(Records(cells).value, key);
  }
}
