/** The vote table: cells as the worksheet client hands them over, the four-column
    entries of the table, and rows carrying the index label pandas gives them. */
module Tables {

  datatype Option<T> = None | Some(value: T)

  /** One worksheet cell. The worksheet client turns numeric text into numbers before
      the table sees it, so `Text` is text that is not a number; `Missing` is an absent
      value (NaN in the data frame). */
  datatype Cell = Num(n: int) | Text(s: string) | Missing

  /** The fixed header row: artista, album, url_portada, votos. */
  const Header: seq<Cell> := [Text("artista"), Text("album"), Text("url_portada"), Text("votos")]

  /** One record as read from the worksheet, before cleansing. */
  datatype Record = Record(artista: Cell, album: Cell, url_portada: Cell, votos: Cell)

  /** One album entry after cleansing: `votos` is always an integer. */
  datatype Entry = Entry(artista: Cell, album: Cell, url_portada: Cell, votos: int)

  /** A row of the data frame: its index label and its entry. */
  datatype Row = Row(index: nat, entry: Entry)

  /** A data frame with the four columns, in row order. */
  type Table = seq<Row>

  /** Index labels strictly increase down the table, so each label names at most one row. */
  predicate Increasing(t: Table) {
    forall i, j :: 0 <= i < j < |t| ==> t[i].index < t[j].index
  }

  /** `key in df.index` */
  predicate HasLabel(t: Table, key: nat) {
    exists i :: 0 <= i < |t| && t[i].index == key
  }

  /** The entry of the first row labelled `key`, if any. */
  function Lookup(t: Table, key: nat): (r: Option<Entry>)
    ensures r.Some? <==> HasLabel(t, key)
    ensures r.Some? ==> exists i :: 0 <= i < |t| && t[i] == Row(key, r.value)
  {
    if t == [] then None
    else if t[0].index == key then Some(t[0].entry)
    else
      var r := Lookup(t[1..], key);
      assert forall i :: 0 <= i < |t| - 1 ==> t[1..][i] == t[i + 1];
      r
  }

  /** In a table with unique labels, the row that carries a label is the one `Lookup` finds. */
  lemma {:induction false} LookupUnique(t: Table, i: nat)
    requires Increasing(t) && i < |t|
    ensures Lookup(t, t[i].index) == Some(t[i].entry)
  {
    if i > 0 {
      assert t[0].index < t[i].index;
      assert t[1..][i - 1] == t[i];
      LookupUnique(t[1..], i - 1);
    }
  }

  /** Looking up in a concatenation finds the left part first. */
  lemma {:induction false} LookupAppend(a: Table, b: Table, key: nat)
    ensures Lookup(a + b, key) == if HasLabel(a, key) then Lookup(a, key) else Lookup(b, key)
  {
    if a == [] {
      assert a + b == b;
    } else {
      assert (a + b)[0] == a[0];
      assert (a + b)[1..] == a[1..] + b;
      if a[0].index == key {
        assert HasLabel(a, key) by { assert a[0].index == key; }
      } else {
        LookupAppend(a[1..], b, key);
        assert HasLabel(a, key) ==> HasLabel(a[1..], key) by {
          if HasLabel(a, key) {
            var i :| 0 <= i < |a| && a[i].index == key;
            assert a[1..][i - 1] == a[i];
          }
        }
      }
    }
  }
}
