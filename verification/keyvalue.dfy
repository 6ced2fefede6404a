/**
 * The Redis server the session code talks to, reduced to what the code uses: GET, SET
 * with a time-to-live, and single-key DEL. Expiry is a stored deadline compared with an
 * explicit clock. Whether a command reaches the server is decided by a fault script: each
 * command consumes the script's first slot, and a `true` slot makes that command fail with
 * a connection error without touching the data; an empty script means every command
 * succeeds.
 */
module KeyValue {
  import opened Wrappers
  import opened Errors

  datatype Expiry = Persistent | ExpiresAt(at: int)

  datatype Entry = Entry(value: string, expiry: Expiry)

  /** The server's keys (expired ones linger until touched, as in Redis) and the fault script. */
  datatype Store = Store(entries: map<string, Entry>, faults: seq<bool>)

  /** A key set with a deadline is gone from second `at` on. */
  predicate LiveAt(e: Entry, now: int) {
    e.expiry.Persistent? || now < e.expiry.at
  }

  /** What a read of `key` at `now` sees. */
  function Lookup(entries: map<string, Entry>, key: string, now: int): Option<string> {
    if key in entries && LiveAt(entries[key], now) then Some(entries[key].value) else None
  }

  /** go-redis `Set(ctx, key, value, ttl)`: a positive ttl becomes `EX ttl`; zero or a
      negative ttl sends a plain SET, which keeps the key forever. */
  function ExpiryAfter(ttl: int, now: int): Expiry {
    if ttl > 0 then ExpiresAt(now + ttl) else Persistent
  }

  predicate NextFails(s: Store) {
    s.faults != [] && s.faults[0]
  }

  /** The script after one command has used its slot. */
  function Advance(faults: seq<bool>): seq<bool> {
    if faults == [] then [] else faults[1..]
  }

  /** No command will fail from here on. */
  predicate Reliable(s: Store) {
    true !in s.faults
  }

  /** GET: the live value, `redis.Nil` when there is none. */
  function GetCmd(s: Store, key: string, now: int): (Result<string, Error>, Store) {
    var after := s.(faults := Advance(s.faults));
    if NextFails(s) then (Err(StoreUnavailable), after)
    else match Lookup(s.entries, key, now)
      case None => (Err(StoreNil), after)
      case Some(v) => (Ok(v), after)
  }

  /** SET with a time-to-live of `ttl` seconds from `now`; it replaces any earlier value and deadline. */
  function SetCmd(s: Store, key: string, value: string, ttl: int, now: int): (Option<Error>, Store) {
    if NextFails(s) then (Some(StoreUnavailable), s.(faults := Advance(s.faults)))
    else (None, Store(s.entries[key := Entry(value, ExpiryAfter(ttl, now))], Advance(s.faults)))
  }

  /** DEL of one key: the number of live keys removed (an expired key counts as absent). */
  function DelCmd(s: Store, key: string, now: int): (Result<nat, Error>, Store) {
    if NextFails(s) then (Err(StoreUnavailable), s.(faults := Advance(s.faults)))
    else (Ok(if Lookup(s.entries, key, now).Some? then 1 else 0), Store(s.entries - {key}, Advance(s.faults)))
  }

  lemma AdvanceReliable(s: Store)
    requires Reliable(s)
    ensures !NextFails(s) && true !in Advance(s.faults)
  {
    if s.faults != [] {
      assert s.faults == [s.faults[0]] + s.faults[1..];
    }
  }

  /** The connection to the server, holding the server's state. */
  class SessionStore {
    var entries: map<string, Entry>
    var faults: seq<bool>

    function Snapshot(): Store
      reads this
    {
      Store(entries, faults)
    }

    constructor (initial: Store)
      ensures Snapshot() == initial
    {
      entries := initial.entries;
      faults := initial.faults;
    }

    /** Uses up the next slot of the fault script and says whether it fails the command. */
    method NextSlot() returns (fail: bool)
      modifies this
      ensures fail == NextFails(old(Snapshot()))
      ensures entries == old(entries) && faults == Advance(old(faults))
    {
      fail := faults != [] && faults[0];
      if faults != [] {
        faults := faults[1..];
      }
    }

    method Get(key: string, now: int) returns (r: Result<string, Error>)
      modifies this
      ensures (r, Snapshot()) == GetCmd(old(Snapshot()), key, now)
    {
      var fail := NextSlot();
      if fail {
        r := Err(StoreUnavailable);
      } else if key in entries && LiveAt(entries[key], now) {
        r := Ok(entries[key].value);
      } else {
        r := Err(StoreNil);
      }
    }

    method Set(key: string, value: string, ttl: int, now: int) returns (err: Option<Error>)
      modifies this
      ensures (err, Snapshot()) == SetCmd(old(Snapshot()), key, value, ttl, now)
    {
      var fail := NextSlot();
      if fail {
        err := Some(StoreUnavailable);
      } else {
        entries := entries[key := Entry(value, ExpiryAfter(ttl, now))];
        err := None;
      }
    }

    method Del(key: string, now: int) returns (r: Result<nat, Error>)
      modifies this
      ensures (r, Snapshot()) == DelCmd(old(Snapshot()), key, now)
    {
      var fail := NextSlot();
      if fail {
        r := Err(StoreUnavailable);
      } else {
        var removed := if key in entries && LiveAt(entries[key], now) then 1 else 0;
        entries := entries - {key};
        r := Ok(removed);
      }
    }
  }
}
