/** Writing the table back (app.py `guardar_datos`): the grid handed to the worksheet,
    and what a later read of that worksheet gives. */
module Saving {
  import opened Tables
  import opened Loading

  /** One row's values in column order. */
  function Values(e: Entry): seq<Cell> {
    [e.artista, e.album, e.url_portada, Num(e.votos)]
  }

  /** The grid written from cell A1: the header, then one row of values per table row,
      in table order. Index labels are not written. */
  function Serialise(t: Table): (g: seq<seq<Cell>>)
    ensures |g| == |t| + 1 && g[0] == Header
    ensures forall i :: 0 <= i < |t| ==> g[i + 1] == Values(t[i].entry)
  {
    [Header] + seq(|t|, i requires 0 <= i < |t| => Values(t[i].entry))
  }

  /** The table renumbered 0, 1, 2, ... as a fresh read labels it. */
  function Renumbered(t: Table): (r: Table)
    ensures |r| == |t|
    ensures forall i :: 0 <= i < |t| ==> r[i] == Row(i, t[i].entry)
  {
    seq(|t|, i requires 0 <= i < |t| => Row(i, t[i].entry))
  }

  /** A written row reads back as the entry it was written from. */
  lemma ValuesRoundTrip(e: Entry)
    ensures !AllMissing(RecordOf(Values(e))) && Coerce(RecordOf(Values(e))) == e
  {
  }

  /** Records none of which is entirely missing are all kept, under their positions. */
  lemma {:induction false} CleanseKeepsAll(records: seq<Record>)
    requires forall i :: 0 <= i < |records| ==> !AllMissing(records[i])
    ensures Cleanse(records) == seq(|records|, i requires 0 <= i < |records| => Row(i, Coerce(records[i])))
  {
    if records != [] {
      CleanseKeepsAll(records[..|records| - 1]);
    }
  }

  /** Reading a worksheet whose first rows are a saved non-empty table gives that table's
      entries back under the labels 0 .. n-1, whatever the worksheet holds below them. */
  lemma {:induction false} SaveThenLoad(t: Table, below: seq<seq<Cell>>, key: nat)
    requires t != []
    ensures LoadFrom(Some(Serialise(t) + below)).ok
    ensures key < |t| ==> Lookup(LoadFrom(Some(Serialise(t) + below)).table, key) == Some(t[key].entry)
  {
    var cells := Serialise(t) + below;
    assert cells[0] == Header;
    assert Records(cells).Some?;
    if key < |t| {
      assert cells[key + 1] == Values(t[key].entry);
      ValuesRoundTrip(t[key].entry);
      LoadedRow(cells, key);
    }
  }

  /** When nothing is left below the written rows, a save followed by a load gives the
      saved table back exactly, up to its index labels being renumbered. */
  lemma {:induction false} SaveLoadRoundTrip(t: Table)
    requires t != []
    ensures LoadFrom(Some(Serialise(t))) == Loaded(Renumbered(t), true)
  {
    var cells := Serialise(t);
    var records := Records(cells).value;
    forall i | 0 <= i < |records|
      ensures !AllMissing(records[i]) && Coerce(records[i]) == t[i].entry
    {
      ValuesRoundTrip(t[i].entry);
    }
    CleanseKeepsAll(records);
  }
}
