/**
 * The adapter that puts the blob key-value contract (Get, Put, Delete, List,
 * Len, Close) on top of a rosedb engine. Keys and values are byte strings;
 * the empty key is never stored and every operation given it reports a
 * missing key without calling the engine.
 */
module RoseDBStore {
  import opened Wrappers
  import opened ByteStrings
  import opened Errors
  import opened ByteOrder
  import opened RoseDB

  /** The arguments of a write: the key, the bytes to store, and whether an existing value may be overwritten. */
  datatype PutOptions = PutOptions(key: Bytes, data: Bytes, replace: bool)

  /** A List callback: it sees one key and returns nil to go on, or an error. */
  type Visitor = Bytes -> Option<Error>

  /**
   * What a List does with the keys of a scan, in order: the keys handed to
   * `f`, and the error List returns. `f` is called on each key until it
   * returns an error; a stop signal ends the listing without an error, any
   * other error ends it and is returned.
   */
  function Visit(keys: seq<Bytes>, f: Visitor): (r: (seq<Bytes>, Option<Error>))
    ensures |r.0| <= |keys| && r.0 == keys[..|r.0|]
    ensures r.1.Some? ==> r.0 != [] && r.1 == f(r.0[|r.0| - 1]) && !Is(r.1.value, ErrStopListing)
  {
    if keys == [] then ([], None)
    else
      var e := f(keys[0]);
      if IsSome(e, ErrStopListing) then ([keys[0]], None)
      else if e.Some? then ([keys[0]], e)
      else
        var rest := Visit(keys[1..], f);
        ([keys[0]] + rest.0, rest.1)
  }

  /** When `f` never errs, every key is visited and the listing succeeds. */
  lemma {:induction false} VisitAll(keys: seq<Bytes>, f: Visitor)
    requires forall i :: 0 <= i < |keys| ==> f(keys[i]).None?
    ensures Visit(keys, f) == (keys, None)
  {
    if keys != [] {
      VisitAll(keys[1..], f);
      assert [keys[0]] + keys[1..] == keys;
    }
  }

  /**
   * When `f` first errs at key `i`, the keys up to and including `i` are
   * visited and no later one; the result is nil for a stop signal and the
   * callback's own error otherwise.
   */
  lemma {:induction false} VisitStopsAt(keys: seq<Bytes>, f: Visitor, i: nat)
    requires i < |keys|
    requires forall j :: 0 <= j < i ==> f(keys[j]).None?
    requires f(keys[i]).Some?
    ensures Visit(keys, f).0 == keys[..i + 1]
    ensures Visit(keys, f).1 == if Is(f(keys[i]).value, ErrStopListing) then None else f(keys[i])
    decreases i
  {
    if i > 0 {
      VisitStopsAt(keys[1..], f, i - 1);
      assert [keys[0]] + keys[1..][..i] == keys[..i + 1];
    }
  }

  /**
   * The scan handler of List, run over the keys of a scan in order: it calls
   * `f` on each key and ends the scan at the first error, keeping that error
   * unless it is the stop signal.
   */
  method VisitKeys(keys: seq<Bytes>, f: Visitor) returns (err: Option<Error>, ghost visited: seq<Bytes>)
    ensures err == Visit(keys, f).1
    ensures visited == Visit(keys, f).0
  {
    err := None;
    visited := [];
    var i, more := 0, true;
    while more && i < |keys|
      invariant i <= |keys|
      invariant more ==> visited == keys[..i] && err.None?
      invariant more ==> forall j :: 0 <= j < i ==> f(keys[j]).None?
      invariant !more ==> (visited, err) == Visit(keys, f)
      decreases |keys| - i, more
    {
      var e := f(keys[i]);
      visited := visited + [keys[i]];
      if IsSome(e, ErrStopListing) {
        more := false;
      } else if e.Some? {
        err := e;
        more := false;
      }
      if more {
        i := i + 1;
      } else {
        VisitStopsAt(keys, f, i);
        assert visited == keys[..i + 1];
      }
    }
    if more {
      VisitAll(keys, f);
    }
  }

  class KV {
    /** The engine handle; shared with nobody else in this model. */
    const db: DB

    /** Wraps an open engine handle. */
    constructor (db: DB)
      ensures this.db == db
    {
      this.db := db;
    }

    /**
     * The stored value of `key`. The empty key is reported missing with the
     * bare sentinel; an absent key with a not-found error carrying the key;
     * any other engine failure is returned as it is.
     */
    function Get(key: Bytes): (r: Result<Bytes, Error>)
      reads db
      ensures key == [] ==> r == Failure(ErrKeyNotFound)
      ensures key != [] && db.Fault(OpGet).None? && key in db.data ==> r == Success(db.data[key])
      ensures key != [] && db.Fault(OpGet).None? && key !in db.data ==> r == Failure(KeyNotFound(key))
      ensures key != [] && db.Fault(OpGet).Some? ==>
        r == Failure(if Is(db.Fault(OpGet).value, DBErrKeyNotFound) then KeyNotFound(key) else db.Fault(OpGet).value)
    {
      if key == [] then Failure(ErrKeyNotFound)
      else
        match db.Get(key)
        case Failure(e) => if Is(e, DBErrKeyNotFound) then Failure(KeyNotFound(key)) else Failure(e)
        case Success(data) => Success(data)
    }

    /**
     * Stores `opts.data` under `opts.key`. Without `replace`, a key that is
     * already stored is reported as existing and nothing is written. A
     * failing existence probe or write is returned as it is, and changes
     * nothing.
     */
    method Put(opts: PutOptions) returns (err: Option<Error>)
      modifies db
      ensures db.closed == old(db.closed) && db.failing == old(db.failing)
      ensures opts.key == [] ==> err == Some(ErrKeyNotFound)
      ensures opts.key != [] && !opts.replace && old(db.Fault(OpExist)).Some? ==>
        err == old(db.Fault(OpExist))
      ensures opts.key != [] && !opts.replace && old(db.Fault(OpExist)).None? && opts.key in old(db.data) ==>
        err == Some(KeyExists(opts.key))
      ensures opts.key != [] && (opts.replace || (old(db.Fault(OpExist)).None? && opts.key !in old(db.data))) ==>
        err == old(db.Fault(OpPut))
      ensures err.None? ==> db.data == old(db.data)[opts.key := opts.data]
      ensures err.Some? ==> db.data == old(db.data)
    {
      if opts.key == [] {
        return Some(ErrKeyNotFound);
      }
      if !opts.replace {
        match db.Exist(opts.key)
        case Failure(e) =>
          return Some(e);
        case Success(ok) =>
          if ok {
            return Some(KeyExists(opts.key));
          }
      }
      err := db.Put(opts.key, opts.data);
    }

    /**
     * Removes `key`. A key that is not stored is reported missing, with the
     * key, and nothing changes; a failing probe or delete is returned as it
     * is and changes nothing.
     */
    method Delete(key: Bytes) returns (err: Option<Error>)
      modifies db
      ensures db.closed == old(db.closed) && db.failing == old(db.failing)
      ensures key == [] ==> err == Some(ErrKeyNotFound)
      ensures key != [] && old(db.Fault(OpExist)).Some? ==> err == old(db.Fault(OpExist))
      ensures key != [] && old(db.Fault(OpExist)).None? && key !in old(db.data) ==> err == Some(KeyNotFound(key))
      ensures key != [] && old(db.Fault(OpExist)).None? && key in old(db.data) ==> err == old(db.Fault(OpDelete))
      ensures err.None? ==> key in old(db.data) && db.data == old(db.data) - {key}
      ensures err.Some? ==> db.data == old(db.data)
    {
      if key == [] {
        return Some(ErrKeyNotFound);
      }
      match db.Exist(key)
      case Failure(e) =>
        return Some(e);
      case Success(ok) =>
        if !ok {
          return Some(KeyNotFound(key));
        }
      err := db.Delete(key);
    }

    /**
     * Calls `f` on the stored keys at or after `start`, in ascending order,
     * until `f` returns an error. `visited` is the keys `f` was called on.
     * A failing scan is not reported: the listing then visits nothing and
     * succeeds.
     */
    method List(start: Bytes, f: Visitor) returns (err: Option<Error>, ghost visited: seq<Bytes>)
      ensures err == Visit(if db.Fault(OpScan).None? then db.KeysFrom(start) else [], f).1
      ensures visited == Visit(if db.Fault(OpScan).None? then db.KeysFrom(start) else [], f).0
      ensures StrictlyAscending(visited)
      ensures forall k :: k in visited ==> k in db.data && LessEq(start, k)
    {
      var keys, _ := db.AscendGreaterOrEqual(start);
      err, visited := VisitKeys(keys, f);
      AscendingLists(db.KeysAtOrAfter(start));
      assert forall k :: k in visited ==> k in keys;
    }

    /** The number of keys stored; it never fails. */
    function Len(): (r: Result<int, Error>)
      reads db
      ensures r == Success(|db.data|)
    {
      Success(db.GetStat().keysNum)
    }

    /**
     * Compacts and then releases the engine. A compaction that reports the
     * engine already closed is not an error; any other compaction error and
     * the release error are both reported, and the result is nil exactly
     * when neither happened.
     */
    method Close() returns (err: Option<Error>)
      modifies db
      ensures db.data == old(db.data) && db.failing == old(db.failing)
      ensures db.closed == (old(db.closed) || old(db.Fault(OpClose)).None?)
      ensures err == Join(if IsSome(old(db.Fault(OpMerge)), DBErrClosed) then None else old(db.Fault(OpMerge)),
                          old(db.Fault(OpClose)))
      ensures err.None? <==> (old(db.Fault(OpMerge)).None? || IsSome(old(db.Fault(OpMerge)), DBErrClosed))
                             && old(db.Fault(OpClose)).None?
    {
      var merr := db.Merge();
      if IsSome(merr, DBErrClosed) {
        merr := None;
      }
      var cerr := db.Close();
      err := Join(merr, cerr);
    }
  }
}
