/** The vote transaction (app.py `votar_album`): re-read the table, add one vote to the
    row with the clicked label, write the table back, and only when the write succeeds
    replace the session's copy. */
module Voting {
  import opened Tables
  import opened Loading
  import opened Saving

  /** An entry with one more vote; every other field as it was. */
  function AddVote(e: Entry): Entry {
    e.(votos := e.votos + 1)
  }

  /** A row with one more vote, under the same label. */
  function Bump(row: Row): Row {
    row.(entry := AddVote(row.entry))
  }

  /** `df.loc[key, 'votos'] += 1`: every row labelled `key` gets one more vote. */
  function Increment(t: Table, key: nat): (r: Table)
    ensures |r| == |t|
    ensures forall i :: 0 <= i < |t| ==> r[i].index == t[i].index
  {
    if t == [] then []
    else [if t[0].index == key then Bump(t[0]) else t[0]] + Increment(t[1..], key)
  }

  /** Adding a vote under a label no row carries changes nothing. */
  lemma {:induction false} IncrementAbsent(t: Table, key: nat)
    requires !HasLabel(t, key)
    ensures Increment(t, key) == t
  {
    if t != [] {
      assert t[0].index != key;
      forall i | 0 <= i < |t| - 1
        ensures t[1..][i].index != key
      {
        assert t[1..][i] == t[i + 1];
      }
      IncrementAbsent(t[1..], key);
      assert t == [t[0]] + t[1..];
    }
  }

  /** An entry with one more vote, when there is one. */
  function Bumped(o: Option<Entry>): Option<Entry> {
    match o
    case None => None
    case Some(e) => Some(AddVote(e))
  }

  /** After a vote for `key`, that label's entry has `votos` raised by exactly one and
      its other fields unchanged; a label that was absent stays absent. */
  lemma {:induction false} IncrementVoted(t: Table, key: nat)
    ensures Lookup(Increment(t, key), key) == Bumped(Lookup(t, key))
  {
    if t != [] {
      var r := Increment(t, key);
      assert r[0] == if t[0].index == key then Bump(t[0]) else t[0];
      if t[0].index != key {
        assert r[1..] == Increment(t[1..], key);
        IncrementVoted(t[1..], key);
      }
    }
  }

  /** After a vote for `key`, every other label reads exactly as before. */
  lemma {:induction false} IncrementOthers(t: Table, key: nat, other: nat)
    requires other != key
    ensures Lookup(Increment(t, key), other) == Lookup(t, other)
  {
    if t != [] {
      var r := Increment(t, key);
      assert r[0] == if t[0].index == key then Bump(t[0]) else t[0];
      if t[0].index != other {
        assert r[1..] == Increment(t[1..], key);
        IncrementOthers(t[1..], key, other);
      }
    }
  }

  /** Position by position, a vote for `key` raises `votos` by one in the rows labelled
      `key` and leaves every other row, and every other field, as it was. */
  lemma {:induction false} IncrementAt(t: Table, key: nat, i: nat)
    requires i < |t|
    ensures Increment(t, key)[i] ==
      if t[i].index == key then Bump(t[i]) else t[i]
  {
    if i > 0 {
      assert Increment(t, key)[i] == Increment(t[1..], key)[i - 1];
      IncrementAt(t[1..], key, i - 1);
    }
  }

  /** When the table's labels are its positions (no row was dropped on reading), the
      table a successful vote writes reads back, with nothing below it, as exactly the
      table the session then holds. */
  lemma SavedVoteReadsBack(t: Table, key: nat)
    requires t != [] && forall i :: 0 <= i < |t| ==> t[i].index == i
    ensures LoadFrom(Some(Serialise(Increment(t, key)))) == Loaded(Increment(t, key), true)
  {
    var r := Increment(t, key);
    SaveLoadRoundTrip(r);
    assert Renumbered(r) == r;
  }

  /** Sum of the `votos` column. */
  function TotalVotes(t: Table): int {
    if t == [] then 0 else t[0].entry.votos + TotalVotes(t[1..])
  }

  /** In a table with unique labels a vote adds exactly one to the total when its label
      is present and nothing otherwise. */
  lemma {:induction false} IncrementTotal(t: Table, key: nat)
    requires Increasing(t)
    ensures TotalVotes(Increment(t, key)) == TotalVotes(t) + (if HasLabel(t, key) then 1 else 0)
  {
    if t != [] {
      var r := Increment(t, key);
      assert r[1..] == Increment(t[1..], key);
      if t[0].index == key {
        forall i | 0 <= i < |t| - 1
          ensures t[1..][i].index != key
        {
          assert t[1..][i] == t[i + 1];
          assert t[0].index < t[i + 1].index;
        }
        IncrementAbsent(t[1..], key);
      } else {
        IncrementTotal(t[1..], key);
        assert forall i :: 0 <= i < |t| - 1 ==> t[1..][i] == t[i + 1];
      }
    }
  }

  /** What the user is told after a click. */
  datatype Outcome =
    | ReadFailed               // the re-read failed: its error is shown, nothing else happens
    | Ignored                  // no row with that label: nothing happens, nothing is shown
    | Registered(album: Cell)  // the vote was saved for this album
    | NotSaved                 // the write failed; the vote was not registered

  /** The worksheet behind the table, reached through a client whose reads and writes
      can fail. */
  class Store {
    /** The worksheet's rows, header row first. */
    var cells: seq<seq<Cell>>
    /** Whether the next read reaches the worksheet. */
    var readable: bool
    /** Whether the next write is accepted. */
    var writable: bool
    /** What the worksheet holds below a range written from A1, once written: the
        client's behaviour there is not part of this model. */
    var below: seq<seq<Cell>>

    /** The outcome of a read: the rows, or `None` when it fails. */
    function Fetched(): Option<seq<seq<Cell>>>
      reads this
    {
      if readable then Some(cells) else None
    }

    constructor (cells: seq<seq<Cell>>, readable: bool, writable: bool, below: seq<seq<Cell>>)
      ensures this.cells == cells && this.readable == readable
      ensures this.writable == writable && this.below == below
    {
      this.cells := cells;
      this.readable := readable;
      this.writable := writable;
      this.below := below;
    }

    /** `cargar_datos()` with the cache cleared: a fresh read, cleansed. */
    method Load() returns (r: Loaded)
      ensures r == LoadFrom(Fetched())
      ensures !r.ok ==> r.table == []
    {
      r := LoadFrom(Fetched());
    }

    /** `guardar_datos(df)`: writes the header and the rows from A1; reports whether the
        write was accepted, and leaves the worksheet as it was when it was not. */
    method Save(t: Table) returns (ok: bool)
      modifies this`cells
      ensures ok == writable
      ensures ok ==> cells == Serialise(t) + below
      ensures !ok ==> cells == old(cells)
    {
      ok := writable;
      if ok {
        cells := Serialise(t) + below;
      }
    }
  }

  /** One user's session and the table it shows (`st.session_state.df`). */
  class Session {
    var df: Table

    /** First visit: the session's table is read once from the worksheet. */
    constructor (store: Store)
      ensures df == LoadFrom(store.Fetched()).table
    {
      var r := store.Load();
      df := r.table;
    }

    /** `votar_album(key)`. */
    method Vote(store: Store, key: nat) returns (outcome: Outcome)
      modifies this, store`cells
      ensures !LoadFrom(old(store.Fetched())).ok ==>
        outcome == ReadFailed && df == old(df) && store.cells == old(store.cells)
      ensures var loaded := LoadFrom(old(store.Fetched()));
        loaded.ok && !HasLabel(loaded.table, key) ==>
          outcome == Ignored && df == old(df) && store.cells == old(store.cells)
      ensures var latest := LoadFrom(old(store.Fetched())).table;
        HasLabel(latest, key) && old(store.writable) ==>
          outcome == Registered(Lookup(latest, key).value.album) && df == Increment(latest, key)
          && store.cells == Serialise(Increment(latest, key)) + old(store.below)
      ensures var latest := LoadFrom(old(store.Fetched())).table;
        HasLabel(latest, key) && !old(store.writable) ==>
          outcome == NotSaved && df == old(df) && store.cells == old(store.cells)
    {
      var loaded := store.Load();
      assert loaded.table == LoadFrom(old(store.Fetched())).table;
      if !loaded.ok {
        outcome := ReadFailed;
      } else if HasLabel(loaded.table, key) {
        var voted := Increment(loaded.table, key);
        IncrementVoted(loaded.table, key);
        var album := Lookup(voted, key).value.album;
        assert album == Lookup(loaded.table, key).value.album;
        ghost var written := Serialise(voted) + store.below;
        var saved := store.Save(voted);
        if saved {
          assert store.cells == written;
          df := voted;
          outcome := Registered(album);
        } else {
          outcome := NotSaved;
        }
      } else {
        outcome := Ignored;
      }
    }
  }
}
