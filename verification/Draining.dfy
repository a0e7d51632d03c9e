/** Shedding result sets nobody asked for (`_discard_pending_results`), over a cursor in the sense
    of PEP 249, "Cursor Objects", whose driver calls may raise. */
module Draining {
  import opened Text
  import opened RowCounting
  import opened Transactions

  /** One value of a fetched row. */
  datatype Cell = Null | Flag(on: bool) | Text(text: string)

  type Record = seq<Cell>

  /** One column of a cursor description: its name and the driver's type code. */
  datatype Described = Described(name: string, code: string)

  /** One result set: its description, if any, and the rows still to be fetched. */
  datatype ResultSet = ResultSet(description: Option<seq<Described>>, rows: seq<Record>)

  /** Rows are as wide as their description, and there are none without one. */
  predicate ValidSet(set0: ResultSet) {
    && (set0.description.None? ==> set0.rows == [])
    && (set0.description.Some? ==>
          forall i :: 0 <= i < |set0.rows| ==> |set0.rows[i]| == |set0.description.value|)
  }

  predicate ValidSets(sets: seq<ResultSet>) {
    sets != [] && forall i :: 0 <= i < |sets| ==> ValidSet(sets[i])
  }

  /** Something the server is still producing: rows of the current set, or further sets. */
  predicate Unread(sets: seq<ResultSet>) {
    |sets| > 1 || (sets != [] && sets[0].rows != [])
  }

  datatype Call<T> = Returned(value: T) | Raised

  /** A driver cursor: the current result set first, then those behind it. `faultAfter` says how
      many more driver calls succeed before one raises, if any does. */
  class Cursor {
    const connection: Connection
    const xactAbort: bool
    const supportsNextSet: bool
    const closeRaises: bool
    var sets: seq<ResultSet>
    var faultAfter: int
    var hasFault: bool
    var closes: nat

    constructor (connection: Connection, xactAbort: bool, supportsNextSet: bool, closeRaises: bool,
                 sets: seq<ResultSet>, hasFault: bool, faultAfter: nat)
      requires ValidSets(sets)
      ensures this.connection == connection && this.xactAbort == xactAbort
      ensures this.supportsNextSet == supportsNextSet && this.closeRaises == closeRaises
      ensures this.sets == sets && closes == 0 && this.hasFault == hasFault && this.faultAfter == faultAfter
    {
      this.connection, this.xactAbort := connection, xactAbort;
      this.supportsNextSet, this.closeRaises := supportsNextSet, closeRaises;
      this.sets, closes, this.hasFault, this.faultAfter := sets, 0, hasFault, faultAfter;
    }

    /** Count one driver call; true when it raises. */
    method Faults() returns (raises: bool)
      modifies this`faultAfter
      ensures raises <==> hasFault && old(faultAfter) <= 0
      ensures faultAfter == old(faultAfter) - 1
    {
      raises := hasFault && faultAfter <= 0;
      faultAfter := faultAfter - 1;
    }

    /** `fetchmany(size)`: the next rows of the current set, at most `size` of them. */
    method FetchMany(size: nat) returns (r: Call<seq<Record>>)
      requires ValidSets(sets) && size > 0
      modifies this`faultAfter, this`sets
      ensures faultAfter == old(faultAfter) - 1 && ValidSets(sets)
      ensures r.Raised? <==> hasFault && old(faultAfter) <= 0
      ensures r.Raised? ==> sets == old(sets)
      ensures r.Returned? ==>
                && |r.value| == (if |old(sets)[0].rows| < size then |old(sets)[0].rows| else size)
                && old(sets)[0].rows == r.value + sets[0].rows
                && sets == old(sets)[0 := old(sets)[0].(rows := sets[0].rows)]
    {
      var raises := Faults();
      if raises {
        return Raised;
      }
      var rows := sets[0].rows;
      var n := if |rows| < size then |rows| else size;
      sets := sets[0 := sets[0].(rows := rows[n..])];
      assert rows == rows[..n] + rows[n..];
      return Returned(rows[..n]);
    }

    /** `fetchall()`: all rows left in the current set. */
    method FetchAll() returns (r: Call<seq<Record>>)
      requires ValidSets(sets)
      modifies this`faultAfter, this`sets
      ensures faultAfter == old(faultAfter) - 1 && ValidSets(sets)
      ensures r.Raised? <==> hasFault && old(faultAfter) <= 0
      ensures r.Returned? ==> r.value == old(sets)[0].rows
      ensures sets == if r.Raised? then old(sets) else old(sets)[0 := old(sets)[0].(rows := [])]
    {
      var raises := Faults();
      if raises {
        return Raised;
      }
      r := Returned(sets[0].rows);
      sets := sets[0 := sets[0].(rows := [])];
    }

    /** `_try_drain_nextset`: advance to the next set; the driver's "not supported" reads as no. */
    method TryDrainNextSet() returns (r: Call<bool>)
      requires ValidSets(sets)
      modifies this`faultAfter, this`sets
      ensures faultAfter == old(faultAfter) - 1 && ValidSets(sets)
      ensures r.Raised? <==> hasFault && old(faultAfter) <= 0
      ensures r.Returned? ==> (r.value <==> supportsNextSet && |old(sets)| > 1)
      ensures sets == if r == Returned(true) then old(sets)[1..] else old(sets)
    {
      var raises := Faults();
      if raises {
        return Raised;
      }
      if !supportsNextSet || |sets| <= 1 {
        return Returned(false);
      }
      sets := sets[1..];
      return Returned(true);
    }

    /** `close()`: with results unread the driver cancels the request, and under `XACT_ABORT ON`
        the server answers the attention by rolling back. It may raise once that is done. */
    method Close() returns (r: Call<()>)
      modifies this`closes, connection
      ensures closes == old(closes) + 1
      ensures connection.state == if Unread(sets) && xactAbort then Attention(old(connection.state))
                                  else old(connection.state)
      ensures r.Raised? <==> closeRaises
    {
      closes := closes + 1;
      if Unread(sets) && xactAbort {
        connection.state := Attention(connection.state);
      }
      return if closeRaises then Raised else Returned(());
    }
  }

  const DISCARD_CHUNK_SIZE: nat := 10000

  /** Driver calls that reading everything takes: per described set one fetch per chunk and one
      that comes back empty, and one advance per set. */
  function CallsNeeded(sets: seq<ResultSet>): nat {
    if sets == [] then 0 else FetchesNeeded(sets[0]) + 1 + CallsNeeded(sets[1..])
  }

  function FetchesNeeded(set0: ResultSet): nat {
    if set0.description.None? then 0 else Chunks(|set0.rows|) + 1
  }

  function Chunks(rows: nat): nat {
    if rows == 0 then 0 else 1 + Chunks(if rows < DISCARD_CHUNK_SIZE then 0 else rows - DISCARD_CHUNK_SIZE)
  }

  /** Every call succeeds that draining needs. */
  ghost predicate NoFaultIn(cursor: Cursor, calls: int)
    reads cursor
  {
    cursor.hasFault ==> cursor.faultAfter >= calls
  }

  /** The first phase: fetch and advance until nothing is left or a call raises. */
  method Drain(cursor: Cursor) returns (raised: bool)
    requires ValidSets(cursor.sets)
    modifies cursor`sets, cursor`faultAfter
    ensures ValidSets(cursor.sets)
    ensures NoFaultIn(cursor, 0) ==> !raised
    ensures old(NoFaultIn(cursor, CallsNeeded(cursor.sets))) ==> !raised
    ensures !raised ==> (Unread(cursor.sets) <==> !cursor.supportsNextSet && |old(cursor.sets)| > 1)
  {
    ghost var budget := old(CallsNeeded(cursor.sets));
    while true
      invariant ValidSets(cursor.sets) && |cursor.sets| <= |old(cursor.sets)|
      invariant cursor.supportsNextSet || |cursor.sets| == |old(cursor.sets)|
      invariant cursor.hasFault ==> cursor.faultAfter >= CallsNeeded(cursor.sets) || !old(NoFaultIn(cursor, budget))
      decreases |cursor.sets|, 1
    {
      if cursor.sets[0].description.Some? {
        ghost var behind := cursor.sets[1..];
        while true
          invariant ValidSets(cursor.sets) && cursor.sets[1..] == behind && cursor.sets[0].description.Some?
          invariant cursor.hasFault ==> cursor.faultAfter >= CallsNeeded(cursor.sets) || !old(NoFaultIn(cursor, budget))
          decreases |cursor.sets[0].rows|
        {
          var fetched := cursor.FetchMany(DISCARD_CHUNK_SIZE);
          if fetched.Raised? {
            return true;
          }
          if fetched.value == [] {
            break;
          }
        }
      }
      var advanced := cursor.TryDrainNextSet();
      if advanced.Raised? {
        return true;
      }
      if !advanced.value {
        break;
      }
    }
    return false;
  }

  /** `_discard_pending_results`: it always closes the cursor exactly once and never raises. When
      the driver calls it needs succeed, the open transaction's work survives exactly when the driver
      can advance or had nothing to advance to (or nothing was at stake). */
  method DiscardPendingResults(cursor: Cursor)
    requires ValidSets(cursor.sets)
    modifies cursor`sets, cursor`faultAfter, cursor`closes, cursor.connection
    ensures ValidSets(cursor.sets) && cursor.closes == old(cursor.closes) + 1
    ensures cursor.connection.state == old(cursor.connection.state)
         || cursor.connection.state == Attention(old(cursor.connection.state))
    ensures old(NoFaultIn(cursor, CallsNeeded(cursor.sets))) ==>
              (Unread(cursor.sets) <==> !cursor.supportsNextSet && |old(cursor.sets)| > 1)
    ensures cursor.connection.state == if Unread(cursor.sets) && cursor.xactAbort
                                       then Attention(old(cursor.connection.state))
                                       else old(cursor.connection.state)
  {
    var raised := Drain(cursor);
    var _ := cursor.Close();
  }
}
