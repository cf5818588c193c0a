/**
 * A stand-in for the rosedb engine the adapter is built on: an ordered map
 * from byte keys to byte values behind the narrow set of calls the adapter
 * makes. What the engine does internally (segment files, compaction, crash
 * recovery) is not modelled; only the map it presents and the errors it can
 * return are.
 */
module RoseDB {
  import opened Wrappers
  import opened ByteStrings
  import opened Errors
  import opened ByteOrder

  /** The engine calls the adapter makes, used to name which of them fail. */
  datatype Op = OpGet | OpExist | OpPut | OpDelete | OpScan | OpMerge | OpClose

  /** The engine's statistics; only the key count is read. */
  datatype Stat = Stat(keysNum: nat)

  class DB {
    /** The keys and values the engine holds. */
    var data: map<Bytes, Bytes>
    /** Set once Close has succeeded. */
    var closed: bool
    /**
     * The environment's failures: a call of kind `op` fails with
     * `failing[op]` and changes nothing. This stands for disk and
     * corruption errors the engine reports, which the adapter cannot
     * foresee.
     */
    var failing: map<Op, Error>

    /** An open engine over an empty directory, with no failures. */
    constructor ()
      ensures data == map[] && !closed && failing == map[]
    {
      data := map[];
      closed := false;
      failing := map[];
    }

    /** The error a call of kind `op` reports instead of doing its work, if any. */
    function Fault(op: Op): (r: Option<Error>)
      reads this
      ensures closed ==> r == Some(DBErrClosed)
      ensures !closed ==> (r.Some? <==> op in failing) && (r.Some? ==> r.value == failing[op])
    {
      if closed then Some(DBErrClosed)
      else if op in failing then Some(failing[op])
      else None
    }

    /** Point read; `rosedb.ErrKeyNotFound` for a key that is not stored. */
    function Get(key: Bytes): (r: Result<Bytes, Error>)
      reads this
      ensures r.Success? <==> Fault(OpGet).None? && key in data
      ensures r.Success? ==> r.value == data[key]
      ensures r.Failure? ==> r.error == if Fault(OpGet).Some? then Fault(OpGet).value else DBErrKeyNotFound
    {
      match Fault(OpGet)
      case Some(e) => Failure(e)
      case None => if key in data then Success(data[key]) else Failure(DBErrKeyNotFound)
    }

    /** Existence probe; an absent key is not an error. */
    function Exist(key: Bytes): (r: Result<bool, Error>)
      reads this
      ensures r.Success? <==> Fault(OpExist).None?
      ensures r.Success? ==> (r.value <==> key in data)
      ensures r.Failure? ==> r.error == Fault(OpExist).value
    {
      match Fault(OpExist)
      case Some(e) => Failure(e)
      case None => Success(key in data)
    }

    /** The engine's statistics; the key count it reports is the number of stored keys. It never fails. */
    function GetStat(): (r: Stat)
      reads this
      ensures r.keysNum == |data|
    {
      Stat(|data|)
    }

    /** The stored keys at or after `start`. */
    function KeysAtOrAfter(start: Bytes): set<Bytes>
      reads this
    {
      set k | k in data && LessEq(start, k)
    }

    /** The keys at or after `start`, in the order an ascending scan visits them. */
    ghost function KeysFrom(start: Bytes): seq<Bytes>
      reads this
    {
      Ascending(KeysAtOrAfter(start))
    }

    method Put(key: Bytes, value: Bytes) returns (err: Option<Error>)
      modifies this
      ensures err == old(Fault(OpPut))
      ensures data == if err.None? then old(data)[key := value] else old(data)
      ensures closed == old(closed) && failing == old(failing)
    {
      err := Fault(OpPut);
      if err.None? {
        data := data[key := value];
      }
    }

    /** Removes `key`; removing a key that is not stored changes nothing. */
    method Delete(key: Bytes) returns (err: Option<Error>)
      modifies this
      ensures err == old(Fault(OpDelete))
      ensures data == if err.None? then old(data) - {key} else old(data)
      ensures closed == old(closed) && failing == old(failing)
    {
      err := Fault(OpDelete);
      if err.None? {
        data := data - {key};
      }
    }

    /**
     * The ascending scan from `start`: the stored keys that are at or after
     * `start`, smallest first, each once. A failing scan visits nothing.
     */
    method AscendGreaterOrEqual(start: Bytes) returns (keys: seq<Bytes>, err: Option<Error>)
      ensures err == Fault(OpScan)
      ensures keys == if err.None? then KeysFrom(start) else []
    {
      err := Fault(OpScan);
      if err.Some? {
        return [], err;
      }
      keys := ListAscending(KeysAtOrAfter(start));
    }

    /** Compaction; it does not change which keys and values are stored. */
    method Merge() returns (err: Option<Error>)
      modifies this
      ensures err == old(Fault(OpMerge))
      ensures data == old(data) && closed == old(closed) && failing == old(failing)
    {
      err := Fault(OpMerge);
    }

    /** Releases the engine; every later call fails with `rosedb.ErrDBClosed`. */
    method Close() returns (err: Option<Error>)
      modifies this
      ensures err == old(Fault(OpClose))
      ensures closed == (old(closed) || err.None?)
      ensures data == old(data) && failing == old(failing)
    {
      err := Fault(OpClose);
      if err.None? {
        closed := true;
      }
    }
  }
}
