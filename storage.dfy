/**
  The counter store behind `storage.StorageInterface`: a per-identifier
  request count, modelled on the in-memory store the rate limiter's tests
  use. It can be told to fail its reads and its increments. It also keeps
  the rule of the Redis-backed store that the expiry is set only by the
  increment that creates the count.
 */
module Storage {
  import opened Wrappers

  datatype StorageError = StorageError

  /** The count a read reports: the stored value, or 0 when there is none. */
  function CountOf(counts: map<string, int>, identifier: string): int
  {
    if identifier in counts then counts[identifier] else 0
  }

  class MemoryStore {
    /** The request count of each identifier seen in the current window. */
    var counts: map<string, int>
    /** The window length, in nanoseconds, set when the identifier's count was created. */
    var expiries: map<string, int>
    /** Whether reads, and increments, fail with a storage error. */
    var failGet: bool
    var failIncrement: bool

    constructor ()
      ensures counts == map[] && expiries == map[] && !failGet && !failIncrement
    {
      counts, expiries := map[], map[];
      failGet, failIncrement := false, false;
    }

    /** `GetRequestCount`: 0 for an identifier without a count; on failure 0 and an error. */
    method GetRequestCount(identifier: string) returns (count: int, err: Option<StorageError>)
      ensures failGet ==> count == 0 && err == Some(StorageError)
      ensures !failGet ==> err == None && count == (if identifier in counts then counts[identifier] else 0)
    {
      if failGet {
        return 0, Some(StorageError);
      }
      if identifier in counts {
        count := counts[identifier];
      } else {
        count := 0;
      }
      err := None;
    }

    /**
      `IncrementRequestCount`: adds one to the identifier's count (an absent
      count counts as 0) and returns the new count; the increment that
      creates the count also records `expiry`. On failure nothing changes.
     */
    method IncrementRequestCount(identifier: string, expiry: int) returns (count: int, err: Option<StorageError>)
      modifies this`counts, this`expiries
      ensures failIncrement ==>
        && count == 0 && err == Some(StorageError)
        && counts == old(counts) && expiries == old(expiries)
      ensures !failIncrement ==>
        && err == None
        && count == CountOf(old(counts), identifier) + 1
        && counts == old(counts)[identifier := count]
        && expiries == if count == 1 then old(expiries)[identifier := expiry] else old(expiries)
    {
      if failIncrement {
        return 0, Some(StorageError);
      }
      count := CountOf(counts, identifier) + 1;
      counts := counts[identifier := count];
      if count == 1 {
        expiries := expiries[identifier := expiry];
      }
      err := None;
    }

    /** The identifier's window elapses: its count and expiry are dropped. */
    method Expire(identifier: string)
      modifies this`counts, this`expiries
      ensures counts == old(counts) - {identifier} && expiries == old(expiries) - {identifier}
    {
      counts := counts - {identifier};
      expiries := expiries - {identifier};
    }
  }
}
