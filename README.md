# Album vote widget: table handling and the vote transaction

A Dafny model of the logic inside the voting page `app.py` ("Votación: Disco Favorito
2025 Nación Rock"). The page shows one card per album, read from a Google Sheets worksheet
with the columns `artista, album, url_portada, votos`, and a "Votar" button per card. The
model covers the four pieces of logic the page has:

- **Reading** (`cargar_datos`): the worksheet's records become a data frame. Rows whose
  fields are all missing are dropped. Rows that survive keep their original index labels,
  so the labels may have gaps. `votos` is coerced to an integer, with 0 for anything
  non-numeric or missing. Any failure gives an empty table with the four columns.
- **Writing** (`guardar_datos`): a header row, then one list of values per row in table
  order, written from cell A1. The write reports success or failure.
- **Voting** (`votar_album`): re-read the worksheet and look the clicked label up. If it is
  present, add one to that row's `votos` and write the table back. Only when the write
  succeeds, replace the session's table (`st.session_state.df`) and name the album.
- **Standings** (sidebar): the table sorted by `votos`, largest first, cut to five rows.

Modules:

- `Tables` (`tables.dfy`) holds cells, records, entries and rows, and label lookup.
- `Loading` (`loading.dfy`) models reading and cleansing.
- `Saving` (`saving.dfy`) models the written grid and what reading it back gives.
- `Leaderboard` (`leaderboard.dfy`) models the top-five standings.
- `Voting` (`voting.dfy`) holds the `Store` class (the worksheet, whose reads and writes
  can fail) and the `Session` class (the session's table, updated by `Vote`).

A table is a sequence of `Row(index, entry)`, where `index` is the pandas index label.
A fresh read labels records 0, 1, 2, … by position, and `dropna` keeps those labels. A vote
names a row by its label, as `index in df.index` and `df.loc[index, …]` do.

Facts about the code that the model keeps:

- `votos` is not clamped: negative numbers stay negative (app.py:35).
- A vote names a row by its index label, not its position (app.py:82-83). The two differ
  once a row has been dropped.
- A worksheet with a header and no data rows takes the error path, because the data frame
  built from no records has no `votos` column and `df['votos']` raises (app.py:31-35).
  `Loading.LoadFrom` returns `ok == false` there too.
- A save followed by a load gives the table back with its labels renumbered 0..n-1,
  because labels are not written (app.py:50). When the worksheet holds nothing below the
  written rows, the round trip is exact up to that renumbering
  (`Saving.SaveLoadRoundTrip`).

## Model

| member | source | states |
|---|---|---|
| `Tables.Lookup` | app.py:82-84 | the result is present exactly when some row carries the label (`index in df.index`); when present it is the entry of a row with that label |
| `Tables.LookupUnique` | app.py:84 | when labels strictly increase, the row at any position is the one its label finds, so `df.loc[index, 'album']` names a single album |
| `Loading.Records` | app.py:30-31 | the records are the worksheet's rows below the header, one for each, in order; there are no records for an empty worksheet or one headed otherwise |
| `Loading.Cleanse` | app.py:34-35 | the result's labels strictly increase, so each row keeps its relative order; every row comes from a record that is not entirely missing and sits under that record's position; its `votos` is the record's number, or 0 for text or a missing value, with no clamping of negatives |
| `Loading.CleanseLookup` | app.py:34-35 | a label finds a row after cleansing exactly when it is a record's position and that record is not entirely missing, and the row is that record coerced; so cleansing drops exactly the all-missing records |
| `Loading.LoadFrom` | app.py:19-40 | the read succeeds exactly when the worksheet was reached, its first row is the header and at least one data row follows; every failure gives the empty four-column table; every result has strictly increasing labels |
| `Loading.LoadedRow` | app.py:30-37 | a successful read holds, under label k, exactly the worksheet row k+1 below the header, coerced, unless all its fields are missing |
| `Saving.Serialise` | app.py:50 | the grid has n+1 rows: the column names first, then row i's values in column order at position i+1 |
| `Saving.CleanseKeepsAll` | app.py:34 | records none of which is entirely missing are all kept, labelled by position |
| `Saving.SaveThenLoad` | app.py:50-54 | reading a worksheet whose first rows are a saved non-empty table succeeds, and label k gives back row k's entry, whatever lies below the written rows |
| `Saving.SaveLoadRoundTrip` | app.py:50-54 | with nothing below the written rows, reading back a saved non-empty table gives that table with its labels renumbered 0..n-1 |
| `Leaderboard.Insert` | app.py:129 | inserting into a sequence sorted by `votos`, largest first, keeps it sorted and adds exactly that row |
| `Leaderboard.SortByVotes` | app.py:129 | the result is a permutation of the table with `votos` non-increasing; nothing is said about the order of ties |
| `Leaderboard.Top` | app.py:127-130 | at most five rows (exactly min(5, n)), all taken from the table, `votos` non-increasing, and each listed row has at least the `votos` of every row left out |
| `Voting.Increment` | app.py:83 | the table keeps its length and every row keeps its label |
| `Voting.IncrementAbsent` | app.py:82-83 | a vote under a label no row carries leaves the table unchanged |
| `Voting.IncrementVoted` | app.py:83-84 | after a vote the voted label's entry has `votos` exactly one higher and every other field as before; an absent label stays absent |
| `Voting.IncrementOthers` | app.py:83 | after a vote every other label reads exactly as before |
| `Voting.IncrementAt` | app.py:83 | position by position, the rows carrying the voted label get `votos` one higher and nothing else changed; every other row is unchanged |
| `Voting.IncrementTotal` | app.py:83 | with unique labels, a vote adds exactly 1 to the total `votos` when the label is present and 0 otherwise |
| `Voting.SavedVoteReadsBack` | app.py:83-89 | when labels are positions and nothing lies below the written rows, the table a successful vote writes reads back as exactly the table the session then holds |
| `Voting.Store.Load` | app.py:78-79 | a read after clearing the cache is a fresh read of the worksheet, cleansed; a failed read gives the empty table |
| `Voting.Store.Save` | app.py:42-58 | reports whether the write was accepted; on success the worksheet starts with the header and the rows' values; on failure it is unchanged |
| `Voting.Session.constructor` | app.py:62-63 | a new session's table is a fresh read of the worksheet |
| `Voting.Session.Vote` | app.py:70-92 | with the fresh read failing: outcome `ReadFailed`, no write, session table unchanged. With the label absent from a successful fresh read: outcome `Ignored`, no write, session table unchanged. With it present and the write accepted: the worksheet holds the fresh read plus one vote (not the old session copy plus one), the session table becomes that table, and the album reported is that row's `album`. With the write rejected: outcome `NotSaved`, worksheet and session table unchanged |

## Left out

- Rendering is left out: page setup, the three-column card grid, the cover image or its
  placeholder, toasts, warnings, `st.rerun`, and the projection of the standings to
  `album` and `votos` (app.py:65-67, app.py:95-123, app.py:130).
- The "Actualizar Votos de GSheets" button (app.py:133-137) is a UI action. It replaces the
  session table with a fresh read, like `Session.constructor`, and is not modelled separately.
- The network client (`conn.client()`, `open_by_key`, `worksheet`) is not modelled. The
  outcome of a read or a write is a field of `Store` (`readable`, `writable`).
- What `update('A1', …)` leaves below the written range is the `Store.below` field. The
  model claims neither that the worksheet is cleared there nor that it is kept.
- Columns beyond the four are not modelled. A worksheet whose header row is not exactly
  the four columns is read as a failure. The code fails only when `votos` is missing, and
  otherwise carries other columns through.
- Floating-point `votos` and the truncation of `astype(int)` are not modelled. A cell is
  an integer, non-numeric text, or missing. Numeric text is already a number when the
  client returns it.
- The 5-second cache (`st.cache_data(ttl=5)`) and `st.cache_data.clear()` are not modelled.
  A read before a vote is a fresh read.
- The lost update between concurrent sessions (app.py:76) is not modelled. Each vote is a
  single sequential step.
- The text of the messages shown by `st.error` is not modelled. A failed read shows up as
  `Loaded.ok == false`, and in a vote as the outcome `ReadFailed`.
- `Leaderboard.SortByVotes`: pandas' default sort is not stable. The model uses one fixed
  order among rows with equal `votos`, and no contract depends on it.
- `Voting.Session.Vote`: the code increments the freshly read frame in place. That frame
  is local to the call and aliased by nothing else, so the model updates it as a value.
- 64-bit integers are not modelled. After `astype(int)` the `votos` column is int64, and
  `+= 1` on it is bounded (app.py:35, app.py:83). The model's `votos` is an unbounded
  `int`, so it does not capture overflow at the int64 maximum.
