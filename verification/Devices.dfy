/** The device registry and its in-memory cache (src/store/devices.rs): an index that must equal a fresh load. */
module Devices {
  import opened Basics
  import opened Text

  type Blob = seq<bv8>

  const HASH_LEN: nat := 32

  /** A row of the `devices` table; `revokedAt` is NULL while the device is active. */
  datatype Row = Row(id: int, name: string, hash: Blob, revokedAt: Option<int>)

  datatype DeviceIdentity = DeviceIdentity(id: int, name: string)

  datatype DeviceError = BadRequest | Database

  datatype DeviceCreated = DeviceCreated(id: int, name: string, prefix: string, token: string)

  // ---------- the table ----------

  ghost predicate UniqueHashes(rows: seq<Row>) {
    forall i, j | 0 <= i < j < |rows| :: rows[i].hash != rows[j].hash
  }

  ghost predicate UniqueIds(rows: seq<Row>) {
    forall i, j | 0 <= i < j < |rows| :: rows[i].id != rows[j].id
  }

  predicate IsActive(rows: seq<Row>, id: int) {
    exists r | r in rows :: r.id == id && r.revokedAt.None?
  }

  predicate HasHash(rows: seq<Row>, hash: Blob) {
    exists r | r in rows :: r.hash == hash
  }

  /** The digest stored under an id, revoked or not. */
  function HashOf(rows: seq<Row>, id: int): Option<Blob> {
    if rows == [] then None
    else if rows[|rows| - 1].id == id then Some(rows[|rows| - 1].hash)
    else HashOf(rows[..|rows| - 1], id)
  }

  /** Stamps the row of this id as revoked, unless it already is. */
  function MarkRevoked(rows: seq<Row>, id: int, now: int): seq<Row> {
    if rows == [] then []
    else
      var last := rows[|rows| - 1];
      MarkRevoked(rows[..|rows| - 1], id, now)
      + [if last.id == id && last.revokedAt.None? then last.(revokedAt := Some(now)) else last]
  }

  /** The map a boot would build: the active rows whose digest has the right length. */
  function Loaded(rows: seq<Row>): map<Blob, DeviceIdentity> {
    if rows == [] then map[]
    else
      var last := rows[|rows| - 1];
      if last.revokedAt.None? && |last.hash| == HASH_LEN then
        Loaded(rows[..|rows| - 1])[last.hash := DeviceIdentity(last.id, last.name)]
      else
        Loaded(rows[..|rows| - 1])
  }

  class DeviceTable {
    var rows: seq<Row>
    var sequence: int  // the AUTOINCREMENT high mark

    constructor (rows: seq<Row>, sequence: int)
      ensures this.rows == rows && this.sequence == sequence
    {
      this.rows, this.sequence := rows, sequence;
    }

    /** Adds a row; the unique index refuses a digest already stored. */
    method Insert(name: string, hash: Blob, ok: bool) returns (id: Option<int>)
      modifies this
      ensures id.Some? <==> ok && forall row | row in old(rows) :: row.hash != hash
      ensures id.None? ==> rows == old(rows) && sequence == old(sequence)
      ensures id.Some? ==> id.value == sequence == old(sequence) + 1
      ensures id.Some? ==> rows == old(rows) + [Row(id.value, name, hash, None)]
    {
      if !ok || HasHash(rows, hash) { return None; }
      sequence := sequence + 1;
      rows := rows + [Row(sequence, name, hash, None)];
      return Some(sequence);
    }
  }

  class DeviceCache {
    var byHash: map<Blob, DeviceIdentity>

    /** Fills the map from the unrevoked rows, one at a time. */
    constructor Load(table: DeviceTable)
      ensures byHash == Loaded(table.rows)
    {
      var cached: map<Blob, DeviceIdentity> := map[];
      var i := 0;
      while i < |table.rows|
        invariant 0 <= i <= |table.rows|
        invariant cached == Loaded(table.rows[..i])
      {
        var row := table.rows[i];
        assert table.rows[..i + 1][..i] == table.rows[..i];
        if row.revokedAt.None? {
          if |row.hash| == HASH_LEN {
            cached := cached[row.hash := DeviceIdentity(row.id, row.name)];
          }
        }
        i := i + 1;
      }
      assert table.rows[..i] == table.rows;
      byHash := cached;
    }

    /** Who presents this token, if anyone; `digest` stands for SHA-256. */
    function Lookup(digest: string -> Blob, presented: string): Option<DeviceIdentity>
      reads this
    {
      var hash := digest(presented);
      if hash in byHash then Some(byHash[hash]) else None
    }

    method Insert(hash: Blob, identity: DeviceIdentity)
      modifies this
      ensures byHash == old(byHash)[hash := identity]
    {
      byHash := byHash[hash := identity];
    }

    method Remove(hash: Blob)
      modifies this
      ensures byHash == old(byHash) - {hash}
    {
      byHash := byHash - {hash};
    }
  }

  // ---------- the operations as steps ----------

  datatype Registry = Registry(rows: seq<Row>, sequence: int, cache: map<Blob, DeviceIdentity>)

  /** `dbOk`, `readOk`, `writeOk` say whether the database statement itself succeeds. */
  datatype Event =
    | Create(name: string, hash: Blob, dbOk: bool)
    | Revoke(id: int, now: int, readOk: bool, writeOk: bool)
    | Restart

  function NameError(name: string): bool {
    Trim(name) == "" || |Trim(name)| > 120
  }

  function AfterCreate(s: Registry, name: string, hash: Blob, dbOk: bool): Registry {
    if NameError(name) || !dbOk || HasHash(s.rows, hash) then s
    else
      var id := s.sequence + 1;
      Registry(s.rows + [Row(id, Trim(name), hash, None)], id, s.cache[hash := DeviceIdentity(id, Trim(name))])
  }

  /** The entry the revoke knows to drop: none if the digest could not be read or has the wrong length. */
  function Dropped(rows: seq<Row>, id: int, readOk: bool): set<Blob> {
    var hash := if readOk then HashOf(rows, id) else None;
    if hash.Some? && |hash.value| == HASH_LEN then {hash.value} else {}
  }

  function AfterRevoke(s: Registry, id: int, now: int, readOk: bool, writeOk: bool): Registry {
    if !writeOk || !IsActive(s.rows, id) then s
    else s.(rows := MarkRevoked(s.rows, id, now), cache := s.cache - Dropped(s.rows, id, readOk))
  }

  function After(s: Registry, e: Event): Registry {
    match e
    case Create(name, hash, dbOk) => AfterCreate(s, name, hash, dbOk)
    case Revoke(id, now, readOk, writeOk) => AfterRevoke(s, id, now, readOk, writeOk)
    case Restart => s.(cache := Loaded(s.rows))
  }

  /** `plaintext` stands for the generated token. */
  method CreateDevice(table: DeviceTable, cache: DeviceCache, name0: string, plaintext: string,
                      digest: string -> Blob, dbOk: bool)
    returns (r: Result<DeviceCreated, DeviceError>)
    modifies table, cache
    ensures Registry(table.rows, table.sequence, cache.byHash)
         == AfterCreate(old(Registry(table.rows, table.sequence, cache.byHash)), name0, digest(plaintext), dbOk)
    ensures r.Ok? <==> 1 <= |Trim(name0)| <= 120 && dbOk && forall row | row in old(table.rows) :: row.hash != digest(plaintext)
    ensures r.Err? ==> r.error == if 1 <= |Trim(name0)| <= 120 then Database else BadRequest
    ensures r.Ok? ==> r.value == DeviceCreated(table.sequence, Trim(name0),
                                               if |plaintext| <= 12 then plaintext else plaintext[..12], plaintext)
    ensures r.Ok? ==>
              && table.sequence == old(table.sequence) + 1
              && table.rows == old(table.rows) + [Row(table.sequence, Trim(name0), digest(plaintext), None)]
              && cache.byHash == old(cache.byHash)[digest(plaintext) := DeviceIdentity(table.sequence, Trim(name0))]
    ensures r.Err? ==> table.rows == old(table.rows) && table.sequence == old(table.sequence) && cache.byHash == old(cache.byHash)
  {
    var name := Trim(name0);
    if name == "" { return Err(BadRequest); }
    if |name| > 120 { return Err(BadRequest); }
    var hash := digest(plaintext);
    var id := table.Insert(name, hash, dbOk);
    if id.None? { return Err(Database); }
    cache.Insert(hash, DeviceIdentity(id.value, name));
    return Ok(DeviceCreated(id.value, name, Truncated(plaintext, 12), plaintext));
  }

  method RevokeDevice(table: DeviceTable, cache: DeviceCache, id: int, now: int, readOk: bool, writeOk: bool)
    returns (r: Result<(), DeviceError>)
    modifies table, cache
    ensures Registry(table.rows, table.sequence, cache.byHash)
         == AfterRevoke(old(Registry(table.rows, table.sequence, cache.byHash)), id, now, readOk, writeOk)
    ensures r.Ok? <==> writeOk && exists row | row in old(table.rows) :: row.id == id && row.revokedAt.None?
    ensures r.Err? ==> r.error == if writeOk then BadRequest else Database
    ensures r.Err? ==> table.rows == old(table.rows) && cache.byHash == old(cache.byHash)
    ensures table.sequence == old(table.sequence)
    ensures r.Ok? ==>
              && |table.rows| == |old(table.rows)|
              && forall i | 0 <= i < |table.rows| ::
                   var row := old(table.rows)[i];
                   table.rows[i] == if row.id == id && row.revokedAt.None? then row.(revokedAt := Some(now)) else row
    ensures r.Ok? && UniqueIds(old(table.rows)) ==>
              forall i | 0 <= i < |old(table.rows)| && old(table.rows)[i].id == id ::
                var hash := old(table.rows)[i].hash;
                cache.byHash == if readOk && |hash| == 32 then old(cache.byHash) - {hash} else old(cache.byHash)
  {
    Marked(table.rows, id, now);
    var hash := if readOk then HashOf(table.rows, id) else None;
    if !writeOk { return Err(Database); }
    if !IsActive(table.rows, id) { return Err(BadRequest); }
    table.rows := MarkRevoked(table.rows, id, now);
    if hash.Some? {
      if |hash.value| == HASH_LEN {
        cache.Remove(hash.value);
      }
    }
    return Ok(());
  }

  /** What an update of one id does to the rows, and which digest is read for it. */
  lemma Marked(rows: seq<Row>, id: int, now: int)
    ensures |MarkRevoked(rows, id, now)| == |rows|
    ensures forall i | 0 <= i < |rows| :: MarkRevoked(rows, id, now)[i]
              == if rows[i].id == id && rows[i].revokedAt.None? then rows[i].(revokedAt := Some(now)) else rows[i]
    ensures UniqueIds(rows) ==> forall i | 0 <= i < |rows| && rows[i].id == id :: HashOf(rows, id) == Some(rows[i].hash)
  {
    MarkedShape(rows, id, now);
    if UniqueIds(rows) {
      forall i | 0 <= i < |rows| && rows[i].id == id ensures HashOf(rows, id) == Some(rows[i].hash) {
        HashFound(rows, id, i);
      }
    }
  }

  // ---------- coherence ----------

  /** What the schema guarantees of the rows: unique digests, and ids from the sequence. */
  ghost predicate Sound(s: Registry) {
    UniqueHashes(s.rows) && UniqueIds(s.rows) && forall r | r in s.rows :: r.id <= s.sequence
  }

  /** The cache is what a boot would build. */
  ghost predicate Coherent(s: Registry) {
    s.cache == Loaded(s.rows)
  }

  lemma {:induction false} LoadedHas(rows: seq<Row>, h: Blob)
    requires UniqueHashes(rows)
    ensures h in Loaded(rows) <==> exists r | r in rows :: r.hash == h && r.revokedAt.None? && |h| == HASH_LEN
    ensures h in Loaded(rows) ==> exists r | r in rows ::
              r.hash == h && Loaded(rows)[h] == DeviceIdentity(r.id, r.name)
  {
    if rows != [] {
      var front, last := rows[..|rows| - 1], rows[|rows| - 1];
      assert rows == front + [last];
      LoadedHas(front, h);
      if last.hash == h {
        assert forall r | r in front :: r.hash != h;
      }
    }
  }

  lemma {:induction false} MarkedShape(rows: seq<Row>, id: int, now: int)
    ensures |MarkRevoked(rows, id, now)| == |rows|
    ensures forall i | 0 <= i < |rows| :: MarkRevoked(rows, id, now)[i]
              == if rows[i].id == id && rows[i].revokedAt.None? then rows[i].(revokedAt := Some(now)) else rows[i]
  {
    if rows != [] { MarkedShape(rows[..|rows| - 1], id, now); }
  }

  lemma {:induction false} HashFound(rows: seq<Row>, id: int, i: nat)
    requires UniqueIds(rows) && i < |rows| && rows[i].id == id
    ensures HashOf(rows, id) == Some(rows[i].hash)
  {
    if i < |rows| - 1 {
      HashFound(rows[..|rows| - 1], id, i);
    }
  }

  /** Marking a row revoked takes exactly its digest out of what a boot would load. */
  lemma {:induction false} LoadedMarked(rows: seq<Row>, id: int, now: int, i: nat)
    requires UniqueHashes(rows) && UniqueIds(rows) && i < |rows| && rows[i].id == id && rows[i].revokedAt.None?
    ensures Loaded(MarkRevoked(rows, id, now)) == Loaded(rows) - {rows[i].hash}
  {
    var front, last := rows[..|rows| - 1], rows[|rows| - 1];
    if i == |rows| - 1 {
      LastMarked(rows, id, now);
    } else {
      assert front[i] == rows[i] && last.id != id && last.hash != rows[i].hash;
      LoadedMarked(front, id, now, i);
      LoadedSnoc(MarkRevoked(front, id, now), last);
      LoadedSnoc(front, last);
      assert MarkRevoked(rows, id, now) == MarkRevoked(front, id, now) + [last];
      assert rows == front + [last];
    }
  }

  function Entry(row: Row): map<Blob, DeviceIdentity> {
    if row.revokedAt.None? && |row.hash| == HASH_LEN then map[row.hash := DeviceIdentity(row.id, row.name)] else map[]
  }

  lemma LoadedSnoc(rows: seq<Row>, row: Row)
    ensures Loaded(rows + [row]) == Loaded(rows) + Entry(row)
  {
    assert (rows + [row])[..|rows + [row]| - 1] == rows;
  }

  lemma EntryDropped(m: map<Blob, DeviceIdentity>, row: Row, now: int)
    requires row.hash !in m
    ensures m + Entry(row.(revokedAt := Some(now))) == (m + Entry(row)) - {row.hash}
  {
  }

  lemma LastMarked(rows: seq<Row>, id: int, now: int)
    requires UniqueHashes(rows) && UniqueIds(rows) && rows != []
    requires rows[|rows| - 1].id == id && rows[|rows| - 1].revokedAt.None?
    ensures Loaded(MarkRevoked(rows, id, now)) == Loaded(rows) - {rows[|rows| - 1].hash}
  {
    var front, last := rows[..|rows| - 1], rows[|rows| - 1];
    Untouched(front, id, now);
    NotLoaded(rows);
    LoadedSnoc(front, last);
    LoadedSnoc(front, last.(revokedAt := Some(now)));
    EntryDropped(Loaded(front), last, now);
    assert rows == front + [last];
  }

  lemma NotLoaded(rows: seq<Row>)
    requires UniqueHashes(rows) && rows != []
    ensures rows[|rows| - 1].hash !in Loaded(rows[..|rows| - 1])
  {
    LoadedHas(rows[..|rows| - 1], rows[|rows| - 1].hash);
  }

  lemma {:induction false} Untouched(rows: seq<Row>, id: int, now: int)
    requires forall r | r in rows :: r.id != id
    ensures MarkRevoked(rows, id, now) == rows
  {
    MarkedShape(rows, id, now);
  }

  lemma SoundKept(s: Registry, e: Event)
    requires Sound(s)
    ensures Sound(After(s, e))
  {
    if e.Revoke? {
      MarkedShape(s.rows, e.id, e.now);
      forall r | r in MarkRevoked(s.rows, e.id, e.now) ensures r.id <= s.sequence {
        var i :| 0 <= i < |s.rows| && MarkRevoked(s.rows, e.id, e.now)[i] == r;
        assert s.rows[i] in s.rows;
      }
    }
  }

  /** The one way a step leaves the cache stale: the digest is not read, yet the row is revoked. */
  ghost predicate Slips(s: Registry, e: Event) {
    e.Revoke? && e.writeOk && !e.readOk && exists r | r in s.rows :: r.id == e.id && r.revokedAt.None? && |r.hash| == HASH_LEN
  }

  lemma CreateCoherent(s: Registry, name: string, hash: Blob, dbOk: bool)
    requires Coherent(s) && |hash| == HASH_LEN
    ensures Coherent(AfterCreate(s, name, hash, dbOk))
  {
    var after := AfterCreate(s, name, hash, dbOk);
    if after != s {
      assert after.rows[..|after.rows| - 1] == s.rows;
    }
  }

  lemma RevokeCoherentIff(s: Registry, id: int, now: int, readOk: bool, writeOk: bool)
    requires Sound(s) && Coherent(s)
    ensures Coherent(AfterRevoke(s, id, now, readOk, writeOk)) <==> !Slips(s, Revoke(id, now, readOk, writeOk))
  {
    if writeOk && IsActive(s.rows, id) {
      var i :| 0 <= i < |s.rows| && s.rows[i].id == id && s.rows[i].revokedAt.None?;
      SlipsAt(s, id, now, readOk, i);
      LoadedMarked(s.rows, id, now, i);
      ActiveLoaded(s.rows, i);
    }
  }

  /** Whether the revoke of an active row slips, and what it drops, seen at the row. */
  lemma SlipsAt(s: Registry, id: int, now: int, readOk: bool, i: nat)
    requires UniqueIds(s.rows) && i < |s.rows| && s.rows[i].id == id && s.rows[i].revokedAt.None?
    ensures Slips(s, Revoke(id, now, readOk, true)) <==> !readOk && |s.rows[i].hash| == HASH_LEN
    ensures Dropped(s.rows, id, readOk) == if readOk && |s.rows[i].hash| == HASH_LEN then {s.rows[i].hash} else {}
  {
    HashFound(s.rows, id, i);
    forall r | r in s.rows && r.id == id ensures r == s.rows[i] {
      var j :| 0 <= j < |s.rows| && s.rows[j] == r;
    }
    assert s.rows[i] in s.rows;
  }

  lemma ActiveLoaded(rows: seq<Row>, i: nat)
    requires UniqueHashes(rows) && i < |rows| && rows[i].revokedAt.None?
    ensures rows[i].hash in Loaded(rows) <==> |rows[i].hash| == HASH_LEN
  {
    LoadedHas(rows, rows[i].hash);
    assert rows[i] in rows;
  }

  /** Every operation, failures included, keeps the cache equal to a fresh load, but for that one slip. */
  lemma CoherentIff(s: Registry, e: Event)
    requires Sound(s) && Coherent(s) && (e.Create? ==> |e.hash| == HASH_LEN)
    ensures Coherent(After(s, e)) <==> !Slips(s, e)
  {
    match e
    case Create(name, hash, dbOk) => CreateCoherent(s, name, hash, dbOk);
    case Revoke(id, now, readOk, writeOk) => RevokeCoherentIff(s, id, now, readOk, writeOk);
    case Restart =>
  }

  function RunOf(s: Registry, events: seq<Event>): Registry
    decreases |events|
  {
    if events == [] then s else RunOf(After(s, events[0]), events[1..])
  }

  ghost predicate Genuine(events: seq<Event>) {
    forall e | e in events :: e.Create? ==> |e.hash| == HASH_LEN
  }

  ghost predicate NeverSlips(s: Registry, events: seq<Event>)
    decreases |events|
  {
    events == [] || (!Slips(s, events[0]) && NeverSlips(After(s, events[0]), events[1..]))
  }

  /** Over any run of creates, revokes, failures and restarts without a slip, the cache is a fresh load. */
  lemma {:induction false} RunCoherent(s: Registry, events: seq<Event>)
    requires Sound(s) && Coherent(s) && Genuine(events) && NeverSlips(s, events)
    ensures Sound(RunOf(s, events)) && Coherent(RunOf(s, events))
    decreases |events|
  {
    if events != [] {
      assert events[0] in events && forall e | e in events[1..] :: e in events;
      SoundKept(s, events[0]);
      CoherentIff(s, events[0]);
      RunCoherent(After(s, events[0]), events[1..]);
    }
  }

  /** The slip is possible: a failed read and a successful update leave a revoked token accepted. */
  lemma RevokeCanSlip(hash: Blob)
    requires |hash| == HASH_LEN
    ensures var s := Registry([Row(1, "phone", hash, None)], 1, map[hash := DeviceIdentity(1, "phone")]);
      var after := After(s, Revoke(1, 7, false, true));
      Sound(s) && Coherent(s) && after.rows == [Row(1, "phone", hash, Some(7))] && hash in after.cache
  {
    var s := Registry([Row(1, "phone", hash, None)], 1, map[hash := DeviceIdentity(1, "phone")]);
    var row := Row(1, "phone", hash, None);
    assert s.rows[..0] == [] && row in s.rows && IsActive(s.rows, 1);
    assert Loaded(s.rows) == Loaded([])[hash := DeviceIdentity(1, "phone")];
    assert MarkRevoked(s.rows, 1, 7) == MarkRevoked([], 1, 7) + [row.(revokedAt := Some(7))];
  }

  /** With a coherent cache a token is accepted exactly when its digest belongs to an active device, and as that device. */
  lemma AcceptsExactlyActive(table: DeviceTable, cache: DeviceCache, digest: string -> Blob, presented: string)
    requires Sound(Registry(table.rows, table.sequence, cache.byHash))
    requires Coherent(Registry(table.rows, table.sequence, cache.byHash))
    ensures cache.Lookup(digest, presented).Some?
       <==> |digest(presented)| == 32 && exists r | r in table.rows :: r.hash == digest(presented) && r.revokedAt.None?
    ensures forall r | r in table.rows && r.hash == digest(presented) && cache.Lookup(digest, presented).Some? ::
              cache.Lookup(digest, presented) == Some(DeviceIdentity(r.id, r.name))
  {
    var h := digest(presented);
    LoadedHas(table.rows, h);
    if h in cache.byHash {
      var b :| b in table.rows && b.hash == h && cache.byHash[h] == DeviceIdentity(b.id, b.name);
      assert forall r | r in table.rows && r.hash == h :: r == b;
    }
  }

  // ---------- revoked stays revoked ----------

  ghost predicate RevokedHash(s: Registry, h: Blob) {
    exists r | r in s.rows :: r.hash == h && r.revokedAt.Some?
  }

  lemma RevokedKept(s: Registry, e: Event, h: Blob)
    requires Sound(s) && RevokedHash(s, h) && h !in s.cache
    ensures RevokedHash(After(s, e), h) && h !in After(s, e).cache
  {
    var r :| r in s.rows && r.hash == h && r.revokedAt.Some?;
    if e.Revoke? {
      MarkedShape(s.rows, e.id, e.now);
      var i :| 0 <= i < |s.rows| && s.rows[i] == r;
      assert MarkRevoked(s.rows, e.id, e.now)[i] == r;
    }
    if e.Create? {
      assert HasHash(s.rows, h);
    }
    LoadedHas(s.rows, h);
    assert forall x | x in s.rows :: x.hash == h ==> x == r;
  }

  /** Once revoked and dropped, a digest is absent from the cache in every later state of any run. */
  lemma {:induction false} RevokedForever(s: Registry, events: seq<Event>, h: Blob)
    requires Sound(s) && RevokedHash(s, h) && h !in s.cache
    ensures h !in RunOf(s, events).cache
    decreases |events|
  {
    if events != [] {
      SoundKept(s, events[0]);
      RevokedKept(s, events[0], h);
      RevokedForever(After(s, events[0]), events[1..], h);
    }
  }

  /** A restart drops every revoked digest, a slipped one too, for good. */
  lemma RestartDropsRevoked(s: Registry, h: Blob, later: seq<Event>)
    requires Sound(s) && RevokedHash(s, h)
    ensures h !in RunOf(After(s, Restart), later).cache
  {
    LoadedHas(s.rows, h);
    var r :| r in s.rows && r.hash == h && r.revokedAt.Some?;
    assert forall x | x in s.rows :: x.hash == h ==> x == r;
    RevokedForever(After(s, Restart), later, h);
  }

  /** A revoke that reports success and could read the digest drops it at once, and for good. */
  lemma RevokeTakesEffect(s: Registry, id: int, now: int, h: Blob, later: seq<Event>)
    requires Sound(s) && |h| == HASH_LEN && exists r | r in s.rows :: r.id == id && r.hash == h && r.revokedAt.None?
    ensures h !in RunOf(After(s, Revoke(id, now, true, true)), later).cache
  {
    var e := Revoke(id, now, true, true);
    var i :| 0 <= i < |s.rows| && s.rows[i].id == id && s.rows[i].hash == h && s.rows[i].revokedAt.None?;
    assert IsActive(s.rows, id);
    HashFound(s.rows, id, i);
    MarkedShape(s.rows, id, now);
    assert MarkRevoked(s.rows, id, now)[i] in After(s, e).rows;
    SoundKept(s, e);
    RevokedForever(After(s, e), later, h);
  }
}
