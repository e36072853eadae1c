/**
 * The in-memory session store (store.go): a keyed map of byte strings, each
 * with an optional expiry instant, and the sweep its garbage collector runs.
 * Time is an integer count of nanoseconds passed in by the caller; the lock,
 * the ticker goroutine and Close are not modelled.
 */
module MemStore {
  import opened Wrappers
  import opened Types

  /** memStoreEntry: the stored bytes and, when set by SetEx, the expiry instant. */
  datatype Entry = Entry(data: seq<bv8>, exp: Option<int>)

  /** An entry the sweep removes at `now`: it has an expiry strictly before now. */
  predicate Expired(e: Entry, now: int) {
    e.exp.Some? && e.exp.value < now
  }

  /** The map a sweep at `now` leaves: every entry that has not expired. */
  function Swept(data: map<string, Entry>, now: int): (r: map<string, Entry>)
    ensures forall k :: k in r <==> k in data && !Expired(data[k], now)
    ensures forall k :: k in r ==> r[k] == data[k]
  {
    map k | k in data && !Expired(data[k], now) :: data[k]
  }

  /** Entries without an expiry survive every sweep, and a second sweep at the same instant changes nothing. */
  lemma SweepProperties(data: map<string, Entry>, now: int, later: int)
    requires now <= later
    ensures forall k :: k in data && data[k].exp.None? ==> k in Swept(data, now)
    ensures Swept(Swept(data, now), now) == Swept(data, now)
    ensures Swept(Swept(data, now), later) == Swept(data, later)
  {
    assert Swept(Swept(data, now), later).Keys == Swept(data, later).Keys;
  }

  class MemoryStore {
    var data: map<string, Entry>

    /** NewMemStorage: an empty store. */
    constructor ()
      ensures data == map[]
    {
      data := map[];
    }

    /** Get: the stored bytes, whatever their expiry; "key not found" when absent. */
    function Get(key: string): (r: Result<seq<bv8>, Error>)
      reads this
      ensures r.Ok? <==> key in data
      ensures r.Ok? ==> r.value == data[key].data
      ensures r.Fail? ==> r.error == Plain("key not found")
    {
      if key in data then Ok(data[key].data) else Fail(Plain("key not found"))
    }

    /** Exists: the key is stored. */
    function Exists(key: string): (b: bool)
      reads this
      ensures b <==> Get(key).Ok?
    {
      key in data
    }

    /** Set: stores the bytes with no expiry, replacing any earlier entry and its expiry. */
    method Set(key: string, value: seq<bv8>) returns (err: Option<Error>)
      modifies this
      ensures data == old(data)[key := Entry(value, None)]
      ensures Get(key) == Ok(value) && Exists(key)
      ensures forall k :: k != key ==> Get(k) == old(Get(k))
      ensures err.None?
    {
      data := data[key := Entry(value, None)];
      err := None;
    }

    /** SetEx: stores the bytes expiring at now + expiry. */
    method SetEx(key: string, value: seq<bv8>, expiry: int, now: int) returns (err: Option<Error>)
      modifies this
      ensures data == old(data)[key := Entry(value, Some(now + expiry))]
      ensures Get(key) == Ok(value)
      ensures err.None?
    {
      data := data[key := Entry(value, Some(now + expiry))];
      err := None;
    }

    /** Del: removes the key; no error, present or not. */
    method Del(key: string) returns (err: Option<Error>)
      modifies this
      ensures data == old(data) - {key}
      ensures Get(key) == Fail(Plain("key not found"))
      ensures forall k :: k != key ==> Get(k) == old(Get(k))
      ensures err.None?
    {
      data := data - {key};
      err := None;
    }

    /** One tick of gc: visits every entry and deletes those whose expiry is before now. */
    method Sweep(now: int)
      modifies this
      ensures data == Swept(old(data), now)
    {
      var pending := data.Keys;
      ghost var start := data;
      while pending != {}
        invariant pending <= start.Keys
        invariant forall k :: k in data <==> k in start && (k in pending || !Expired(start[k], now))
        invariant forall k :: k in data ==> data[k] == start[k]
        decreases pending
      {
        var k :| k in pending;
        if Expired(data[k], now) {
          data := data - {k};
        }
        pending := pending - {k};
      }
    }
  }

  /** An expired entry that has not been swept still reads back: Get ignores expiry. */
  lemma ExpiredStillReadable(s: MemoryStore, key: string, now: int)
    requires key in s.data && Expired(s.data[key], now)
    ensures s.Get(key).Ok?
    ensures key !in Swept(s.data, now)
  {
  }
}
