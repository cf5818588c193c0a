/**
 * Client scenarios: sequences of adapter calls whose outcomes follow from
 * the adapter's contracts alone, for the behaviours a blob store is expected
 * to show (conflicting and replacing writes, deletes, counting, ordered and
 * early-stopped listing, closing).
 */
module Scenarios {
  import opened Wrappers
  import opened ByteStrings
  import opened Errors
  import opened ByteOrder
  import opened RoseDB
  import opened RoseDBStore

  /** A non-replacing write conflicts with a stored key and leaves its value; a replacing one overwrites it. */
  method ConflictAndReplace(k: Bytes, v1: Bytes, v2: Bytes)
    requires k != []
  {
    var db := new DB();
    var kv := new KV(db);

    var err := kv.Put(PutOptions(k, v1, false));
    assert err == None && kv.Get(k) == Success(v1);
    assert kv.Len() == Success(1);

    err := kv.Put(PutOptions(k, v2, false));
    assert err == Some(KeyExists(k)) && kv.Get(k) == Success(v1);

    err := kv.Put(PutOptions(k, v2, true));
    assert err == None && kv.Get(k) == Success(v2);

    err := kv.Put(PutOptions([], v1, true));
    assert err == Some(ErrKeyNotFound) && kv.Len() == Success(1);
  }

  /** A deleted key is gone and cannot be deleted again; a closed store reports every read as closed. */
  method DeleteAndClose(k: Bytes, v: Bytes)
    requires k != []
  {
    var db := new DB();
    var kv := new KV(db);

    var err := kv.Put(PutOptions(k, v, true));
    err := kv.Delete(k);
    assert err == None && kv.Get(k) == Failure(KeyNotFound(k));
    assert kv.Len() == Success(0);

    err := kv.Delete(k);
    assert err == Some(KeyNotFound(k));

    err := kv.Close();
    assert err == None;
    assert kv.Get(k) == Failure(DBErrClosed);

    err := kv.Close();
    assert err == Some(Joined([DBErrClosed]));
  }

  /** A store holding the keys "b", "a" and "c", written in that order. */
  method ThreeKeys() returns (kv: KV)
    ensures fresh(kv.db) && !kv.db.closed && kv.db.failing == map[]
    ensures kv.db.data.Keys == {[97], [98], [99]}
  {
    var db := new DB();
    kv := new KV(db);
    var err := kv.Put(PutOptions([98], [1], false));
    err := kv.Put(PutOptions([97], [2], false));
    err := kv.Put(PutOptions([99], [3], false));
  }

  lemma ThreeKeysAscending(data: map<Bytes, Bytes>)
    requires data.Keys == {[97], [98], [99]}
    ensures Ascending(set k | k in data && LessEq([], k)) == [[97], [98], [99]]
  {
    assert Less([97], [98]) && Less([98], [99]) && Less([97], [99]);
    assert StrictlyAscending([[97], [98], [99]]);
    assert (set k | k in data && LessEq([], k)) == {[97], [98], [99]};
    AscendingUnique([[97], [98], [99]], {[97], [98], [99]});
  }

  lemma TwoKeysAscending(data: map<Bytes, Bytes>)
    requires data.Keys == {[97], [98], [99]}
    ensures Ascending(set k | k in data && LessEq([98], k)) == [[98], [99]]
  {
    assert Less([98], [99]) && !LessEq([98], [97]) && LessEq([98], [98]);
    assert StrictlyAscending([[98], [99]]);
    assert (set k | k in data && LessEq([98], k)) == {[98], [99]};
    AscendingUnique([[98], [99]], {[98], [99]});
  }

  /** Keys written out of order are listed in order, from the first key or from a later start. */
  method OrderedListing()
  {
    var kv := ThreeKeys();
    ThreeKeysAscending(kv.db.data);
    TwoKeysAscending(kv.db.data);

    var err, visited := kv.List([], k => None);
    VisitAll([[97], [98], [99]], k => None);
    assert visited == [[97], [98], [99]] && err == None;

    err, visited := kv.List([98], k => None);
    VisitAll([[98], [99]], k => None);
    assert visited == [[98], [99]] && err == None;
  }

  /** A stop signal after the first key ends the listing there, without an error. */
  method StoppedListing()
  {
    var kv := ThreeKeys();
    ThreeKeysAscending(kv.db.data);
    var f: Visitor := k => Some(ErrStopListing);
    var err, visited := kv.List([], f);
    VisitStopsAt([[97], [98], [99]], f, 0);
    assert visited == [[97]] && err == None;
  }

  /** A callback that fails on the key "b" with an error of its own. */
  function FailAtB(k: Bytes): Option<Error>
  {
    if k == [98] then Some(Opaque(7)) else None
  }

  lemma FailAtBVisit()
    ensures Visit([[97], [98], [99]], FailAtB) == ([[97], [98]], Some(Opaque(7)))
  {
    VisitStopsAt([[97], [98], [99]], FailAtB, 1);
    assert [[97], [98], [99]][..2] == [[97], [98]];
  }

  /** Any other callback error ends the listing at that key and is returned. */
  method FailedListing()
  {
    var kv := ThreeKeys();
    ThreeKeysAscending(kv.db.data);
    FailAtBVisit();
    var err, visited := kv.List([], FailAtB);
    assert visited == [[97], [98]] && err == Some(Opaque(7));
  }
}
