/** Signing keys for storage URLs: rotation, pruning, restarts, and how long a key outlives what it signed. */
module Keyring {
  import opened ByteStrings

  type Id = nat

  /** Times are nanoseconds. */
  const MILLISECOND: nat := 1000000
  const SECOND: nat := 1000000000
  const MINUTE: nat := 60000000000

  datatype Config = Config(ttl: nat, maxTtl: nat, rotation: nat, grace: nat)

  /** The bounds that configuration guarantees. */
  predicate Sound(c: Config) {
    SECOND <= c.ttl <= c.maxTtl && c.rotation >= MINUTE && c.grace >= c.maxTtl + MINUTE
  }

  predicate AtLeast(a: Config, b: Config) {
    a.ttl >= b.ttl && a.maxTtl >= b.maxTtl && a.rotation >= b.rotation && a.grace >= b.grace
  }

  /** Clamp field by field, each against the fields before it: the least sound configuration from the given one up. */
  method NormalizeConfig(given: Config) returns (out: Config)
    ensures Sound(out) && AtLeast(out, given)
    ensures forall c | Sound(c) && AtLeast(c, given) :: AtLeast(c, out)
  {
    out := given;
    if out.ttl < SECOND { out := out.(ttl := SECOND); }
    if out.maxTtl < out.ttl { out := out.(maxTtl := out.ttl); }
    if out.rotation < MINUTE { out := out.(rotation := MINUTE); }
    if out.grace < out.maxTtl + MINUTE { out := out.(grace := out.maxTtl + MINUTE); }
  }

  datatype Key = Key(created: nat, expires: nat)

  /** Persisted times keep milliseconds. */
  function Truncated(t: nat): (r: nat)
    ensures r <= t < r + MILLISECOND
  {
    t - t % MILLISECOND
  }

  /** The URL's expiry claim, in whole seconds. */
  function ExpiryClaim(t: nat): nat { t / SECOND }

  /** A URL is honoured while the clock's seconds are below its claim. */
  predicate Honoured(claim: nat, now: nat) { now / SECOND < claim }

  /** How far the creation time lies past the moment that the expiry was counted from. */
  function Lag(c: Config, k: Key): int { k.created + c.rotation + c.grace - k.expires }

  /** A URL's key reaches as far as the URL does. */
  predicate Covers(k: Key, claim: nat) { claim * SECOND <= k.expires }

  /** The URL is honoured at a moment when its key has expired. */
  predicate OutlivesAt(k: Key, claim: nat, t: nat) { Honoured(claim, t) && k.expires <= t }

  class Clock {
    var time: nat

    method Now() returns (t: nat)
      modifies this
      ensures time >= old(time) && t == time
    {
      var elapsed: int := *;
      if elapsed > 0 { time := time + elapsed; }
      t := time;
    }
  }

  /** Records that have not expired by a moment are all still there. */
  predicate KeepsUnexpired(was: map<Id, Key>, now: map<Id, Key>, time: nat) {
    forall id | id in was && was[id].expires >= time :: id in now && now[id] == was[id]
  }

  /** A key in memory is its record, or is the key that the record was truncated from. */
  predicate Agrees(k: Key, record: Key) { record.expires <= k.expires < record.expires + MILLISECOND }

  predicate Whole(records: map<Id, Key>) {
    forall id | id in records :: records[id].expires % MILLISECOND == 0
  }

  datatype Signed = Signed(id: Id, key: Key, claim: nat)

  class Keyring {
    const clock: Clock
    const config: Config
    var records: map<Id, Key>
    var keys: map<Id, Key>
    var current: Option<Id>
    var currentKey: Key
    var loaded: bool

    ghost predicate Valid()
      reads this, clock
    {
      && Sound(config) && Whole(records)
      && (loaded ==> forall id | id in records && records[id].expires >= clock.time :: id in keys)
      && (forall id | id in keys && id in records :: Agrees(keys[id], records[id]))
      && (current.Some? && currentKey.expires >= clock.time ==> current.value in keys && keys[current.value] == currentKey)
      && (current.Some? && Truncated(currentKey.expires) >= clock.time ==> current.value in records)
    }

    constructor (clock: Clock, config: Config)
      requires Sound(config)
      ensures Valid() && !loaded && records == map[] && this.clock == clock && this.config == config
    {
      this.clock, this.config := clock, config;
      records, keys, current, currentKey, loaded := map[], map[], None, Key(0, 0), false;
    }

    /** The process starts again on the same records. */
    method Restart()
      requires Valid()
      modifies this
      ensures Valid() && !loaded && records == old(records)
    {
      keys, current, loaded := map[], None, false;
    }

    /** Time passes. */
    method Wait()
      requires Valid()
      modifies clock
      ensures Valid() && clock.time >= old(clock.time)
    {
      var _ := clock.Now();
    }

    /** Create and record a key. Its recorded creation is read later than the moment its expiry counts from. */
    method Generate(id: Id) returns (k: Key)
      requires id !in records && Sound(config) && Whole(records)
      modifies this`records, clock
      ensures clock.time >= old(clock.time) && Whole(records)
      ensures id in records && records == old(records)[id := records[id]] && Agrees(k, records[id])
      ensures old(clock.time) <= k.created && k == Generated(config, k.created) && Lag(config, k) == 0
      ensures Lag(config, records[id]) <= clock.time - old(clock.time) + MILLISECOND
    {
      var now := clock.Now();
      k := Key(now, now + config.rotation + config.grace);
      var recorded := clock.Now();
      records := records[id := Key(Truncated(recorded), Truncated(k.expires))];
    }

    /** Read the records that have not expired; the newest one inside its rotation becomes current. */
    method LoadRecords() returns (latest: Option<Id>)
      modifies this`keys, clock
      ensures clock.time >= old(clock.time)
      ensures forall id | id in keys :: id in records && keys[id] == records[id]
      ensures forall id | id in records && records[id].expires >= clock.time :: id in keys
      ensures latest.Some? ==> latest.value in keys && keys[latest.value].created + config.rotation > old(clock.time)
      ensures forall id | id in keys && keys[id].created + config.rotation > clock.time ::
                latest.Some? && keys[id].created <= keys[latest.value].created
    {
      keys := map[];
      latest := None;
      var todo := records.Keys;
      while todo != {}
        invariant todo <= records.Keys && clock.time >= old(clock.time)
        invariant forall id | id in keys :: id in records && id !in todo && keys[id] == records[id]
        invariant forall id | id in records && id !in todo && records[id].expires >= clock.time :: id in keys
        invariant latest.Some? ==> latest.value in keys && keys[latest.value].created + config.rotation > old(clock.time)
        invariant forall id | id in keys && keys[id].created + config.rotation > clock.time ::
                    latest.Some? && keys[id].created <= keys[latest.value].created
        decreases |todo|
      {
        var id :| id in todo;
        var kv := records[id];
        todo := todo - {id};
        var now := clock.Now();
        if kv.expires < now { continue; }
        keys := keys[id := kv];
        now := clock.Now();
        if (latest.None? || kv.created > keys[latest.value].created) && kv.created + config.rotation > now {
          latest := Some(id);
        }
      }
    }

    method LoadOrCreate()
      requires Valid()
      modifies this, clock
      ensures Valid() && loaded && clock.time >= old(clock.time)
      ensures KeepsUnexpired(old(records), records, clock.time)
      ensures current.Some? && current.value in keys && keys[current.value] == currentKey
      ensures old(loaded) && old(current).Some? && old(currentKey).expires > clock.time ==> SameKeyring(old(records), old(keys), old(current), old(currentKey))
      ensures SameKeyring(old(records), old(keys), old(current), old(currentKey)) || currentKey.created + config.rotation > old(clock.time)
      ensures SameKeyring(old(records), old(keys), old(current), old(currentKey)) ||
              forall id | id in old(records) && InUse(old(records)[id], clock.time) :: old(records)[id].created <= currentKey.created
    {
      if loaded && current.Some? {
        var now := clock.Now();
        if currentKey.expires > now { return; }
      }
      Reload();
    }

    /** Load the records; the newest one inside its rotation becomes current, or else a new key. */
    method Reload()
      requires Valid()
      modifies this, clock
      ensures Valid() && loaded && clock.time >= old(clock.time)
      ensures KeepsUnexpired(old(records), records, clock.time)
      ensures current.Some? && current.value in keys && keys[current.value] == currentKey
      ensures currentKey.created + config.rotation > old(clock.time)
      ensures forall id | id in old(records) && InUse(old(records)[id], clock.time) :: old(records)[id].created <= currentKey.created
    {
      var latest := LoadRecords();
      if latest.None? {
        var newId := PickFree();
        var k := Generate(newId);
        keys := keys[newId := k];
        latest := Some(newId);
      }
      current, currentKey, loaded := latest, keys[latest.value], true;
    }

    predicate SameKeyring(records: map<Id, Key>, keys: map<Id, Key>, current: Option<Id>, currentKey: Key)
      reads this
    {
      this.records == records && this.keys == keys && this.current == current && this.currentKey == currentKey
    }

    /** Not expired, and inside its rotation. */
    predicate InUse(k: Key, t: nat) { k.expires >= t && k.created + config.rotation > t }

    /** A new random id. */
    method PickFree() returns (id: Id)
      ensures id !in records && id !in keys
    {
      var taken := records.Keys + keys.Keys;
      id := 0;
      var todo := taken;
      while todo != {}
        invariant todo <= taken
        invariant forall t | t in taken && t !in todo :: t < id
        decreases |todo|
      {
        var t :| t in todo;
        if t >= id { id := t + 1; }
        todo := todo - {t};
      }
    }

    /** The key for a new URL, inside its rotation when it was checked. */
    method Current() returns (id: Id, k: Key, checked: nat)
      requires Valid()
      modifies this, clock
      ensures Valid() && old(clock.time) <= checked <= clock.time
      ensures KeepsUnexpired(old(records), records, clock.time)
      ensures checked < k.created + config.rotation
      ensures id in records ==> Agrees(k, records[id])
      ensures Truncated(k.expires) >= clock.time ==> id in records
      ensures old(loaded) && old(current).Some? && old(currentKey).expires > clock.time && InUse(old(currentKey), clock.time) ==>
                records == old(records) && id == old(current).value && k == old(currentKey)
    {
      LoadOrCreate();
      checked := clock.Now();
      if currentKey.expires > checked && currentKey.created + config.rotation > checked {
        return current.value, currentKey, checked;
      }
      id := PickFree();
      k := Generate(id);
      keys := keys[id := k];
      current, currentKey := Some(id), k;
    }

    /** The key for a URL signed inside a transaction: nothing is written, and only the expiry is checked. */
    method CurrentCommitted(ttl: nat) returns (r: Option<(Id, Key)>, checked: nat)
      requires Valid()
      modifies clock
      ensures Valid() && old(clock.time) <= checked <= clock.time
      ensures r.Some? <==> Committed(checked + ttl)
      ensures r.Some? ==> r.value == (current.value, currentKey)
      ensures r.Some? && r.value.0 in records ==> Agrees(r.value.1, records[r.value.0])
      ensures r.Some? && Truncated(r.value.1.expires) >= clock.time ==> r.value.0 in records
    {
      checked := clock.Now();
      if !loaded || current.None? || !(currentKey.expires > checked) { return None, checked; }
      checked := clock.Now();
      if !(currentKey.expires > checked + ttl) { return None, checked; }
      r := Some((current.value, currentKey));
    }

    /** A loaded current key reaches past a moment. */
    predicate Committed(t: nat)
      reads this
    {
      loaded && current.Some? && currentKey.expires > t
    }

    method SigningKey(ttl: nat, transactional: bool) returns (r: Option<(Id, Key)>, checked: nat)
      requires Valid()
      modifies this, clock
      ensures Valid() && old(clock.time) <= checked <= clock.time
      ensures KeepsUnexpired(old(records), records, clock.time)
      ensures transactional ==> records == old(records) && (r.Some? ==> r.value.1.expires > checked + ttl)
      ensures transactional ==> (r.Some? <==> Committed(checked + ttl)) && (r.Some? ==> r.value == (current.value, currentKey))
      ensures !transactional ==> r.Some? && checked < r.value.1.created + config.rotation
      ensures r.Some? && r.value.0 in records ==> Agrees(r.value.1, records[r.value.0])
      ensures r.Some? && Truncated(r.value.1.expires) >= clock.time ==> r.value.0 in records
    {
      if transactional {
        r, checked := CurrentCommitted(ttl);
      } else {
        var id, k;
        id, k, checked := Current();
        r := Some((id, k));
      }
    }

    /** How long a URL is to last: as asked, or the configured time. */
    function Lifetime(asked: int): nat { if asked <= 0 then config.ttl else asked }

    /** A signed URL's key is recorded and covers it, when signing followed the check within a minute. Inside
        a transaction the key covers whatever is signed within a delay that it covered already at the check. */
    method SignURL(asked: int, transactional: bool) returns (r: Option<Signed>, checked: nat, signed: nat)
      requires Valid()
      modifies this, clock
      ensures Valid() && old(clock.time) <= checked <= signed == clock.time
      ensures KeepsUnexpired(old(records), records, clock.time)
      ensures r.Some? ==> r.value.claim == ExpiryClaim(signed + Lifetime(asked))
      ensures r.Some? && !transactional && signed - checked + Lag(config, r.value.key) <= MINUTE ==>
                Covers(r.value.key, r.value.claim)
      ensures r.Some? && transactional ==> r.value.key.expires > checked + Lifetime(asked)
      ensures r.Some? && transactional ==> CoveredOncePromised(r.value.key, r.value.claim, checked, signed, Lifetime(asked))
      ensures r.Some? && Honoured(r.value.claim, signed) && Covers(r.value.key, r.value.claim) ==>
                r.value.id in records && Covers(records[r.value.id], r.value.claim)
      ensures r.Some? && r.value.id in records && Covers(records[r.value.id], r.value.claim) ==>
                Covers(r.value.key, r.value.claim)
      ensures transactional ==> records == old(records)
      ensures Lifetime(asked) > config.maxTtl ==> r.None?
      ensures !transactional && Lifetime(asked) <= config.maxTtl ==> r.Some?
      ensures transactional && Lifetime(asked) <= config.maxTtl ==> (r.Some? <==> Committed(checked + Lifetime(asked)))
    {
      var ttl := Lifetime(asked);
      if ttl > config.maxTtl {
        checked := clock.Now();
        return None, checked, checked;
      }
      var found;
      found, checked := SigningKey(ttl, transactional);
      signed := clock.Now();
      if found.None? { return None, checked, signed; }
      var id, k := found.value.0, found.value.1;
      var claim := ExpiryClaim(signed + ttl);
      r := Some(Signed(id, k, claim));
      SigningCovers(config, k, checked, signed, ttl, transactional);
      if id in records { RecordCovers(k, records[id], claim); }
      if Honoured(claim, signed) && Covers(k, claim) { CoveringKeyIsWhole(k, claim, signed); }
    }

    /** A key is found while its record has not expired. */
    method Get(id: Id) returns (r: Option<Key>)
      requires Valid()
      modifies this, clock
      ensures Valid() && clock.time >= old(clock.time)
      ensures KeepsUnexpired(old(records), records, clock.time)
      ensures id in old(records) && old(records)[id].expires > clock.time ==> r.Some? && Agrees(r.value, old(records)[id])
      ensures r.Some? ==> r.value.expires > clock.time && id in keys && keys[id] == r.value
    {
      LoadOrCreate();
      var now := clock.Now();
      if id !in keys || !(keys[id].expires > now) { return None; }
      r := Some(keys[id]);
    }

    /** The key and time checks on a URL: one whose recorded key covers it is accepted for as long as it is honoured. */
    method VerifyURL(id: Id, claim: nat) returns (ok: bool)
      requires Valid()
      modifies this, clock
      ensures Valid() && clock.time >= old(clock.time)
      ensures KeepsUnexpired(old(records), records, clock.time)
      ensures ok ==> Honoured(claim, clock.time) && id in keys && keys[id].expires > old(clock.time)
      ensures id in old(records) && Covers(old(records)[id], claim) && Honoured(claim, clock.time) ==> ok
    {
      var k := Get(id);
      ghost var found := clock.time;
      var now := clock.Now();
      ok := k.Some? && now / SECOND < claim;
      if id in old(records) && Covers(old(records)[id], claim) && Honoured(claim, now) {
        CoversIsEnough(old(records)[id], claim, found, now);
      }
    }

    /** Delete the expired records, comparing at their precision. */
    method PruneRecords()
      requires Valid()
      modifies this`records, clock
      ensures Valid() && clock.time >= old(clock.time)
      ensures KeepsUnexpired(old(records), records, clock.time)
      ensures forall id | id in records :: id in old(records) && records[id] == old(records)[id]
      ensures forall id | id in records :: records[id].expires >= Truncated(old(clock.time))
    {
      var now := clock.Now();
      TruncatedMonotone(old(clock.time), now);
      var cut := Truncated(now);
      if current.Some? && currentKey.expires >= now && current.value in records {
        RecordIsTruncated(currentKey, records[current.value]);
      }
      records := map id | id in records && records[id].expires >= cut :: records[id];
    }

    /** Delete the expired keys from memory. */
    method PruneKeys()
      requires Valid()
      modifies this`keys, this`current, clock
      ensures Valid() && clock.time >= old(clock.time)
      ensures forall id | id in keys :: id in old(keys) && keys[id] == old(keys)[id] && keys[id].expires >= old(clock.time)
      ensures forall id | id in old(keys) && old(keys)[id].expires >= clock.time :: id in keys
      ensures current.Some? ==> current == old(current) && currentKey.expires >= old(clock.time)
      ensures currentKey.expires >= clock.time ==> current == old(current)
    {
      var now := clock.Now();
      keys := map id | id in keys && keys[id].expires >= now :: keys[id];
      if current.Some? && currentKey.expires < now { current := None; }
    }

    /** Delete the expired, first on disk and then in memory. */
    method Prune()
      requires Valid()
      modifies this, clock
      ensures Valid() && clock.time >= old(clock.time) && loaded == old(loaded)
      ensures KeepsUnexpired(old(records), records, clock.time)
      ensures forall id | id in records :: id in old(records) && records[id] == old(records)[id]
      ensures forall id | id in records :: records[id].expires >= Truncated(old(clock.time))
    {
      PruneRecords();
      PruneKeys();
    }

    /** One operation of a run. */
    method Perform(op: Op)
      requires Valid()
      modifies this, clock
      ensures Valid() && clock.time >= old(clock.time)
      ensures KeepsUnexpired(old(records), records, clock.time)
    {
      match op {
        case DoRestart => Restart();
        case DoWait => Wait();
        case DoLoad => LoadOrCreate();
        case DoCurrent => var _, _, _ := Current();
        case DoSign(asked, transactional) => var _, _, _ := SignURL(asked, transactional);
        case DoVerify(id, claim) => var _ := VerifyURL(id, claim);
        case DoPrune => Prune();
      }
    }

    /** A run of any operations, restarts included: a key whose record covers a URL is still recorded, and
        unexpired, while the URL is honoured. */
    method Run(ops: seq<Op>)
      requires Valid()
      modifies this, clock
      ensures Valid() && clock.time >= old(clock.time)
      ensures forall id, claim | id in old(records) && Covers(old(records)[id], claim) && Honoured(claim, clock.time) ::
                id in records && records[id] == old(records)[id] && records[id].expires > clock.time
    {
      for i := 0 to |ops|
        invariant Valid() && clock.time >= old(clock.time) && KeepsUnexpired(old(records), records, clock.time)
      {
        Perform(ops[i]);
      }
      forall id, claim | id in old(records) && Covers(old(records)[id], claim) && Honoured(claim, clock.time)
        ensures id in records && records[id] == old(records)[id] && records[id].expires > clock.time
      {
        CoversIsEnough(old(records)[id], claim, clock.time, clock.time);
      }
    }

    /** Sign a URL, run any operations, and verify it: one whose key covers it is accepted for as long as it is
        honoured. Outside transactions that is every URL signed within a minute of the check. */
    method SignRunVerify(asked: int, transactional: bool, ops: seq<Op>)
      returns (r: Option<Signed>, ok: bool, checked: nat, signed: nat)
      requires Valid()
      modifies this, clock
      ensures Valid() && old(clock.time) <= checked <= signed <= clock.time
      ensures ok ==> r.Some? && Honoured(r.value.claim, clock.time)
      ensures r.Some? && Covers(r.value.key, r.value.claim) && Honoured(r.value.claim, clock.time) ==> ok
      ensures r.Some? && !transactional && signed - checked + Lag(config, r.value.key) <= MINUTE ==>
        Honoured(r.value.claim, clock.time) ==> ok
    {
      r, checked, signed := SignURL(asked, transactional);
      ok := false;
      if r.None? { return; }
      Run(ops);
      ghost var ran := clock.time;
      ok := VerifyURL(r.value.id, r.value.claim);
      if Honoured(r.value.claim, clock.time) {
        HonouredBefore(r.value.claim, signed, clock.time);
        HonouredBefore(r.value.claim, ran, clock.time);
      }
    }
  }

  /** What happens to a keyring; restarts forget everything but the records. */
  datatype Op =
    | DoRestart | DoWait | DoLoad | DoCurrent
    | DoSign(asked: int, transactional: bool)
    | DoVerify(id: Id, claim: nat)
    | DoPrune

  lemma HonouredBefore(claim: nat, s: nat, t: nat)
    requires Honoured(claim, t) && s <= t
    ensures Honoured(claim, s)
  {
    SecondsBelow(s, claim);
    SecondsBelow(t, claim);
  }

  // ----- whole milliseconds and whole seconds

  lemma SecondsBelow(t: nat, claim: nat)
    ensures Honoured(claim, t) <==> t < claim * SECOND
  {
    assert t == SECOND * (t / SECOND) + t % SECOND;
  }

  lemma TruncatedMonotone(s: nat, t: nat)
    requires s <= t
    ensures Truncated(s) <= Truncated(t)
  {
    var m, n := s / MILLISECOND, t / MILLISECOND;
    assert s == m * MILLISECOND + s % MILLISECOND && t == n * MILLISECOND + t % MILLISECOND;
  }

  lemma RecordIsTruncated(k: Key, record: Key)
    requires Agrees(k, record) && record.expires % MILLISECOND == 0
    ensures record.expires == Truncated(k.expires)
  {
    var m, n := record.expires / MILLISECOND, k.expires / MILLISECOND;
    assert record.expires == m * MILLISECOND && k.expires == n * MILLISECOND + k.expires % MILLISECOND;
  }

  lemma WholeMilliseconds(a: nat, n: nat)
    requires a % MILLISECOND == 0 && a < n * MILLISECOND
    ensures a + MILLISECOND <= n * MILLISECOND
  {
    var m := a / MILLISECOND;
    assert a == m * MILLISECOND;
  }

  // ----- how long a signed URL's key lasts

  /** A key covers a claim exactly when no honoured moment comes after its expiry. */
  lemma CoversExactly(k: Key, claim: nat)
    ensures Covers(k, claim) <==> forall t: nat :: !OutlivesAt(k, claim, t)
  {
    if Covers(k, claim) {
      forall t: nat ensures !OutlivesAt(k, claim, t) { SecondsBelow(t, claim); }
    } else {
      var t := claim * SECOND - 1;
      SecondsBelow(t, claim);
      assert OutlivesAt(k, claim, t);
    }
  }

  lemma CoversIsEnough(k: Key, claim: nat, t: nat, later: nat)
    requires Covers(k, claim) && t <= later && Honoured(claim, later)
    ensures k.expires > t
  {
    SecondsBelow(later, claim);
  }

  /** A claim is whole milliseconds, so a record that dropped a fraction of one covers as much as its key. */
  lemma RecordCovers(k: Key, record: Key, claim: nat)
    requires Agrees(k, record) && record.expires % MILLISECOND == 0
    ensures Covers(k, claim) <==> Covers(record, claim)
  {
    assert claim * SECOND == (claim * 1000) * MILLISECOND;
    if Covers(k, claim) && record.expires < claim * SECOND { WholeMilliseconds(record.expires, claim * 1000); }
  }

  lemma CoveringKeyIsWhole(k: Key, claim: nat, signed: nat)
    requires Covers(k, claim) && Honoured(claim, signed)
    ensures Truncated(k.expires) >= signed
  {
    RecordCovers(k, Key(0, Truncated(k.expires)), claim);
    SecondsBelow(signed, claim);
  }

  /** A URL signed within a minute of checking the rotating key: the grace period covers it. */
  lemma RotatingKeyCovers(c: Config, k: Key, checked: nat, signed: nat, ttl: nat)
    requires Sound(c) && ttl <= c.maxTtl && checked < k.created + c.rotation
    requires signed - checked + Lag(c, k) <= MINUTE
    ensures Covers(k, ExpiryClaim(signed + ttl))
  {
  }

  /** Known at the check: the key reaches the expiry of a URL signed as late as the delay allows. */
  predicate CoversUpTo(k: Key, checked: nat, delay: nat, ttl: nat) {
    ExpiryClaim(checked + delay + ttl) * SECOND <= k.expires
  }

  lemma ClaimsGrow(s: nat, t: nat)
    requires s <= t
    ensures ExpiryClaim(s) * SECOND <= ExpiryClaim(t) * SECOND
  {
    assert s == SECOND * (s / SECOND) + s % SECOND && t == SECOND * (t / SECOND) + t % SECOND;
  }

  /** The key covers the URL whenever signing follows the check within a delay. */
  predicate CoveredWithin(k: Key, checked: nat, delay: nat, ttl: nat) {
    forall signed: nat | checked <= signed <= checked + delay :: CoversSignedAt(k, signed, ttl)
  }

  predicate CoversSignedAt(k: Key, signed: nat, ttl: nat) { Covers(k, ExpiryClaim(signed + ttl)) }

  /** A URL signed inside a transaction has no slack of its own. For every bound on the delay between the check
      and the signing, all URLs signed within it are covered exactly when the last of them is, which is known
      at the check. */
  lemma CommittedKeyCovers(k: Key, checked: nat, delay: nat, ttl: nat)
    ensures CoveredWithin(k, checked, delay, ttl) <==> CoversUpTo(k, checked, delay, ttl)
    ensures forall longer: nat | delay <= longer && CoversUpTo(k, checked, longer, ttl) :: CoversUpTo(k, checked, delay, ttl)
  {
    if CoversUpTo(k, checked, delay, ttl) {
      forall signed: nat | checked <= signed <= checked + delay ensures CoversSignedAt(k, signed, ttl) {
        ClaimsGrow(signed + ttl, checked + delay + ttl);
      }
    } else {
      var signed := checked + delay;
      assert !CoversSignedAt(k, signed, ttl);
    }
    forall longer: nat | delay <= longer && CoversUpTo(k, checked, longer, ttl) ensures CoversUpTo(k, checked, delay, ttl) {
      ClaimsGrow(checked + delay + ttl, checked + longer + ttl);
    }
  }

  /** A claim is covered whenever signing kept to a delay that the key covered at the check. */
  ghost predicate CoveredOncePromised(k: Key, claim: nat, checked: nat, signed: nat, ttl: nat) {
    var ok := forall delay: nat | signed - checked <= delay && CoversUpTo(k, checked, delay, ttl) :: Covers(k, claim);
    ok
  }

  lemma PromiseIsKept(k: Key, checked: nat, signed: nat, ttl: nat)
    requires checked <= signed
    ensures CoveredOncePromised(k, ExpiryClaim(signed + ttl), checked, signed, ttl)
  {
    CommittedKeyCovers(k, checked, signed - checked, ttl);
  }

  /** What the check on the key gives, in and outside a transaction. */
  lemma SigningCovers(c: Config, k: Key, checked: nat, signed: nat, ttl: nat, transactional: bool)
    requires Sound(c) && ttl <= c.maxTtl && checked <= signed
    requires !transactional ==> checked < k.created + c.rotation
    ensures !transactional && signed - checked + Lag(c, k) <= MINUTE ==> Covers(k, ExpiryClaim(signed + ttl))
    ensures CoveredOncePromised(k, ExpiryClaim(signed + ttl), checked, signed, ttl)
  {
    if !transactional && signed - checked + Lag(c, k) <= MINUTE { RotatingKeyCovers(c, k, checked, signed, ttl); }
    PromiseIsKept(k, checked, signed, ttl);
  }

  /** The key that generation makes at a moment. */
  function Generated(c: Config, t: nat): Key { Key(t, t + c.rotation + c.grace) }

  /** Every generated key, under every sound configuration and for every lifetime, passes the check at a moment
      after which one second and a nanosecond are enough for the URL to outlive the key. */
  lemma CommittedKeyMayExpireFirst(c: Config, t: nat, ttl: nat)
    requires Sound(c) && ttl <= c.maxTtl
    ensures var k := Generated(c, t);
      var checked, delay := k.expires - 1 - ttl, SECOND + 1;
      && checked >= t && k.expires > checked + ttl
      && !CoversUpTo(k, checked, delay, ttl)
      && OutlivesAt(k, ExpiryClaim(checked + delay + ttl), k.expires)
  {
    var k := Generated(c, t);
    var signed := k.expires - 1 - ttl + SECOND + 1;
    SecondsBelow(k.expires, ExpiryClaim(signed + ttl));
  }

  /** One step of a run: time does not go back, and only expired records go. */
  predicate StepAt(records: seq<map<Id, Key>>, times: seq<nat>, i: nat)
    requires |records| == |times|
  {
    var ok := i + 1 < |times| ==> times[i] <= times[i + 1] && KeepsUnexpired(records[i], records[i + 1], times[i + 1]);
    ok
  }

  /** Over any sequence of rotations, prunes, restarts and signings, a key whose record covers a URL is
      still recorded, and unexpired, whenever the URL is honoured. */
  lemma {:induction false} KeyLastsAsLongAsItsUrl(records: seq<map<Id, Key>>, times: seq<nat>, n: nat, id: Id, claim: nat)
    requires |records| == |times| && n < |records|
    requires forall i: nat :: StepAt(records, times, i)
    requires id in records[0] && Covers(records[0][id], claim) && Honoured(claim, times[n])
    ensures id in records[n] && records[n][id] == records[0][id] && records[n][id].expires > times[n]
  {
    CoversIsEnough(records[0][id], claim, times[n], times[n]);
    if n > 0 {
      assert StepAt(records, times, n - 1);
      SecondsBelow(times[n], claim);
      SecondsBelow(times[n - 1], claim);
      KeyLastsAsLongAsItsUrl(records, times, n - 1, id, claim);
    }
  }
}
