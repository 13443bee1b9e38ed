/** The mutable base64-backed contract store under its caches, and its meaning: plain zero-padded
    memory. */
module StorageView {
  import opened Wrappers
  import opened Base64

  type Address = nat
  type Bucket = map<string, string>   // base64 slot key -> base64 value

  datatype ContractSnapshot = ContractSnapshot(contractAddress: Address, states: map<string, Bucket>)

  // ---- What a bucket of base64 strings stands for -------------------------------------------

  function BucketOf(snapshot: ContractSnapshot, status: string): Bucket {
    if status in snapshot.states then snapshot.states[status] else map[]
  }

  function WithEntry(snapshot: ContractSnapshot, status: string, key: string, raw: string): (r: ContractSnapshot)
    ensures BucketOf(r, status) == BucketOf(snapshot, status)[key := raw]
  {
    snapshot.(states := snapshot.states[status := BucketOf(snapshot, status)[key := raw]])
  }

  function RawValue(bucket: Bucket, key: string): Bytes {
    if key !in bucket then []
    else match Decode(bucket[key]) case Some(v) => v case None => []
  }

  function SlotValue(bucket: Bucket, slot: Bytes): Bytes {
    RawValue(bucket, Encode(slot))
  }

  function ByteAt(data: Bytes, i: nat): Byte {
    if i < |data| then data[i] else 0
  }

  predicate CanonicalKey(key: string) {
    Decode(key).Some? && Encode(Decode(key).value) == key
  }

  /** Keys were produced by the encoder and values decode: what every writer of the state ensures. */
  ghost predicate Readable(bucket: Bucket) {
    forall k :: k in bucket ==> CanonicalKey(k) && Decode(bucket[k]).Some?
  }

  /** Reading a range of a value that may be shorter than the range. */
  function ZeroPadded(data: Bytes, index: nat, le: nat): (r: Bytes)
    ensures |r| == le
    ensures forall i :: 0 <= i < le ==> r[i] == ByteAt(data, index + i)
  {
    var end := index + le;
    if end <= |data| then data[index..end]
    else
      var from := if index < |data| then index else |data|;
      data[from..] + seq(le - (|data| - from), _ => 0)
  }

  /** Overwriting a range of a value that is first extended with zeros. */
  function Overwritten(existing: Bytes, index: nat, data: Bytes): (r: Bytes)
    ensures |r| == if index + |data| > |existing| then index + |data| else |existing|
    ensures forall i: nat :: ByteAt(r, i) == if index <= i < index + |data| then data[i - index]
            else ByteAt(existing, i)
  {
    var gap := index + |data| - |existing|;
    var extended := existing + (if gap > 0 then seq(gap, _ => 0) else []);
    extended[..index] + data + extended[index + |data|..]
  }

  /** The decoded form of a bucket, apart from the keys still to be decoded. */
  ghost predicate DecodedForm(decoded: map<Bytes, Bytes>, bucket: Bucket, todo: set<string>) {
    && (forall slot :: slot in decoded <==> Encode(slot) in bucket && Encode(slot) !in todo)
    && (forall slot :: slot in decoded ==> decoded[slot] == SlotValue(bucket, slot))
  }

  lemma EncodeIsInjective()
    ensures forall a, b :: Encode(a) == Encode(b) ==> a == b
  {
    hide Encode, Decode;
    forall a, b | Encode(a) == Encode(b) ensures a == b {
      DecodeOfEncode(a);
      DecodeOfEncode(b);
    }
  }

  /** Storing an encoded value under an encoded key changes one slot. */
  lemma BucketWrite(bucket: Bucket, slot: Bytes, value: Bytes, other: Bytes)
    ensures SlotValue(bucket[Encode(slot) := Encode(value)], other) == if other == slot then value
            else SlotValue(bucket, other)
  {
    hide Encode, Decode;
    EncodeIsInjective();
    DecodeOfEncode(value);
  }

  lemma ReadableWrite(bucket: Bucket, slot: Bytes, value: Bytes)
    requires Readable(bucket)
    ensures Readable(bucket[Encode(slot) := Encode(value)])
  {
    hide Encode, Decode;
    DecodeOfEncode(slot);
    DecodeOfEncode(value);
  }

  lemma DecodedFormStep(decoded: map<Bytes, Bytes>, bucket: Bucket, todo: set<string>, key: string, slot: Bytes,
                        value: Bytes)
    requires DecodedForm(decoded, bucket, todo) && key in todo && key in bucket
    requires Encode(slot) == key && Decode(bucket[key]) == Some(value)
    ensures DecodedForm(decoded[slot := value], bucket, todo - {key})
  {
    hide Encode, Decode;
    EncodeIsInjective();
  }

  lemma DecodedFormWrite(decoded: map<Bytes, Bytes>, bucket: Bucket, slot: Bytes, value: Bytes)
    requires DecodedForm(decoded, bucket, {})
    ensures DecodedForm(decoded[slot := value], bucket[Encode(slot) := Encode(value)], {})
  {
    hide Encode, Decode;
    EncodeIsInjective();
    var decoded', bucket' := decoded[slot := value], bucket[Encode(slot) := Encode(value)];
    forall other: Bytes | other in decoded' ensures decoded'[other] == SlotValue(bucket', other) {
      BucketWrite(bucket, slot, value, other);
    }
  }

  // ---- The reference: zero-padded memory ----------------------------------------------------

  datatype Op =
    | Read(view: nat, account: Address, slot: Bytes, index: nat, le: nat)
    | Write(view: nat, slot: Bytes, index: nat, data: Bytes)

  predicate Covers(op: Op, view: nat, slot: Bytes, i: nat) {
    op.Write? && op.view == view && op.slot == slot && op.index <= i < op.index + |op.data|
  }

  /** One byte of the memory of a view: what the view's own latest write covering that byte put there,
      else what was stored at the start, else zero. */
  function MemoryByte(start: Bucket, ops: seq<Op>, view: nat, slot: Bytes, i: nat): Byte {
    if ops == [] then ByteAt(SlotValue(start, slot), i)
    else
      var last := ops[|ops| - 1];
      if Covers(last, view, slot, i) then last.data[i - last.index]
      else MemoryByte(start, ops[..|ops| - 1], view, slot, i)
  }

  /** A bucket that stands for the memory of a view after some operations; a read-only view never
      writes. */
  ghost predicate Shows(bucket: Bucket, start: Bucket, ops: seq<Op>, view: nat, readonly: bool) {
    forall slot: Bytes, i: nat ::
      ByteAt(SlotValue(bucket, slot), i) == MemoryByte(start, if readonly then [] else ops, view, slot, i)
  }

  lemma ShowsAfterOther(bucket: Bucket, start: Bucket, ops: seq<Op>, op: Op, view: nat, readonly: bool)
    requires Shows(bucket, start, ops, view, readonly)
    requires readonly || op.Read? || op.view != view
    ensures Shows(bucket, start, ops + [op], view, readonly)
  {
    hide Encode, Decode, SlotValue;
    assert (ops + [op])[..|ops|] == ops;
  }

  lemma ShowsAfterWrite(bucket: Bucket, start: Bucket, ops: seq<Op>, op: Op, view: nat)
    requires Shows(bucket, start, ops, view, false)
    requires op.Write? && op.view == view
    ensures Shows(bucket[Encode(op.slot) := Encode(Overwritten(SlotValue(bucket, op.slot), op.index, op.data))],
                  start, ops + [op], view, false)
  {
    hide Encode, Decode, Overwritten;
    var value := Overwritten(SlotValue(bucket, op.slot), op.index, op.data);
    assert (ops + [op])[..|ops|] == ops;
    forall slot: Bytes, i: nat
      ensures ByteAt(SlotValue(bucket[Encode(op.slot) := Encode(value)], slot), i) ==
              MemoryByte(start, ops + [op], view, slot, i)
    {
      BucketWrite(bucket, op.slot, value, slot);
      assert ByteAt(SlotValue(bucket, slot), i) == MemoryByte(start, ops, view, slot, i);
    }
  }

  // ---- Shared caches ------------------------------------------------------------------------

  /** Decoded values by base64 text, shared by the leader and all validators of a transaction. */
  class DecodedCache {
    var entries: map<string, Bytes>

    ghost predicate Sound()
      reads this
    {
      forall raw :: raw in entries ==> Decode(raw) == Some(entries[raw])
    }

    constructor ()
      ensures entries == map[]
    {
      entries := map[];
    }
  }

  /** Snapshots of other contracts, immutable for the life of the transaction. */
  class SnapshotCache {
    var entries: map<Address, ContractSnapshot>

    ghost predicate Sound(database: Database)
      reads this
    {
      forall a :: a in entries ==> a in database && entries[a] == database[a]
    }

    constructor ()
      ensures entries == map[]
    {
      entries := map[];
    }
  }

  /** What the snapshot factory answers for each deployed contract; it raises a not-found error for
      any other address. The answers do not change while the transaction runs. */
  type Database = map<Address, ContractSnapshot>

  ghost predicate DatabaseValid(database: Database, status: string) {
    forall a :: a in database ==> database[a].contractAddress == a && Readable(BucketOf(database[a], status))
  }

  ghost predicate SnapshotsFrom(cached: map<Address, ContractSnapshot>, database: Database) {
    forall a :: a in cached ==> a in database && cached[a] == database[a]
  }

  ghost predicate KeysEncoded(slotKeys: map<Bytes, string>) {
    forall slot :: slot in slotKeys ==> slotKeys[slot] == Encode(slot)
  }

  ghost predicate SlotsFrom(decodedSlots: map<Address, map<string, Bytes>>, database: Database, status: string) {
    forall a :: a in decodedSlots ==> a in database && ValuesFrom(decodedSlots[a], BucketOf(database[a], status))
  }

  ghost predicate ValuesFrom(values: map<string, Bytes>, bucket: Bucket) {
    forall k :: k in values ==> values[k] == RawValue(bucket, k)
  }

  // ---- The view -----------------------------------------------------------------------------

  class SnapshotView {
    const contractAddress: Address
    const database: Database
    const readonly: bool
    const stateStatus: string
    const decodedCache: DecodedCache?
    const snapshotCache: SnapshotCache?
    var snapshot: ContractSnapshot
    var cached: map<Address, ContractSnapshot>
    var primaryDecoded: Option<map<Bytes, Bytes>>
    var decodedSlots: map<Address, map<string, Bytes>>
    var slotKeys: map<Bytes, string>

    ghost predicate CacheSound()
      reads decodedCache
    {
      decodedCache != null ==> decodedCache.Sound()
    }

    ghost predicate SharedSnapshotsSound()
      reads snapshotCache
    {
      snapshotCache != null ==> snapshotCache.Sound(database)
    }

    ghost predicate PrimaryInSync()
      reads this
    {
      && Readable(BucketOf(snapshot, stateStatus))
      && (primaryDecoded.Some? ==> DecodedForm(primaryDecoded.value, BucketOf(snapshot, stateStatus), {}))
    }

    ghost predicate Valid()
      reads this, decodedCache, snapshotCache
    {
      && DatabaseValid(database, stateStatus)
      && CacheSound()
      && SharedSnapshotsSound()
      && SnapshotsFrom(cached, database)
      && KeysEncoded(slotKeys)
      && PrimaryInSync()
      && SlotsFrom(decodedSlots, database, stateStatus)
    }

    ghost predicate Exists(account: Address) {
      account == contractAddress || account in database
    }

    /** The persisted state behind any account as this view must see it. */
    ghost function StateOf(account: Address): Bucket
      requires Exists(account)
      reads this
    {
      BucketOf(if account == contractAddress then snapshot else database[account], stateStatus)
    }

    constructor (snapshot: ContractSnapshot, database: Database, readonly: bool, stateStatus: string,
                 decodedCache: DecodedCache?, snapshotCache: SnapshotCache?)
      requires DatabaseValid(database, stateStatus)
      requires Readable(BucketOf(snapshot, stateStatus))
      requires decodedCache != null ==> decodedCache.Sound()
      requires snapshotCache != null ==> snapshotCache.Sound(database)
      ensures Valid() && this.snapshot == snapshot && this.database == database && this.readonly == readonly
      ensures contractAddress == snapshot.contractAddress && this.stateStatus == stateStatus
      ensures this.decodedCache == decodedCache && this.snapshotCache == snapshotCache
    {
      contractAddress := snapshot.contractAddress;
      this.snapshot, this.database, this.readonly, this.stateStatus := snapshot, database, readonly, stateStatus;
      this.decodedCache, this.snapshotCache := decodedCache, snapshotCache;
      cached, primaryDecoded, decodedSlots, slotKeys := map[], None, map[], map[];
    }

    /** None stands for the not-found error. */
    method GetSnapshot(account: Address) returns (res: Option<ContractSnapshot>)
      requires SharedSnapshotsSound() && SnapshotsFrom(cached, database)
      modifies this`cached, snapshotCache
      ensures SharedSnapshotsSound() && SnapshotsFrom(cached, database)
      ensures account == contractAddress ==> res == Some(snapshot)
      ensures account != contractAddress ==> res == if account in database then Some(database[account]) else None
    {
      if account == contractAddress {
        return Some(snapshot);
      }
      if account in cached {
        return Some(cached[account]);
      }
      if snapshotCache != null && account in snapshotCache.entries {
        var shared := snapshotCache.entries[account];
        cached := cached[account := shared];
        return Some(shared);
      }
      if account !in database {
        return None;
      }
      var loaded := database[account];
      cached := cached[account := loaded];
      if snapshotCache != null {
        snapshotCache.entries := snapshotCache.entries[account := loaded];
      }
      return Some(loaded);
    }

    method SlotKey(slot: Bytes) returns (key: string)
      requires KeysEncoded(slotKeys)
      modifies this`slotKeys
      ensures KeysEncoded(slotKeys) && key == Encode(slot)
    {
      hide Encode;
      if slot !in slotKeys {
        slotKeys := slotKeys[slot := Encode(slot)];
      }
      key := slotKeys[slot];
    }

    /** Decoding one persisted value through the shared cache. */
    method DecodeShared(raw: string) returns (value: Bytes)
      requires CacheSound() && Decode(raw).Some?
      modifies decodedCache
      ensures CacheSound() && Decode(raw) == Some(value)
    {
      hide Decode;
      if decodedCache != null && raw in decodedCache.entries {
        return decodedCache.entries[raw];
      }
      value := Decode(raw).value;
      Remember(raw, value);
    }

    method Remember(raw: string, value: Bytes)
      requires CacheSound() && Decode(raw) == Some(value)
      modifies decodedCache
      ensures CacheSound()
    {
      if decodedCache != null {
        decodedCache.entries := decodedCache.entries[raw := value];
      }
    }

    /** Decodes the whole primary state on first use. */
    method GetPrimaryDecoded() returns (decoded: map<Bytes, Bytes>)
      requires CacheSound() && PrimaryInSync()
      modifies this`primaryDecoded, decodedCache
      ensures CacheSound() && PrimaryInSync() && primaryDecoded == Some(decoded)
    {
      hide Encode, Decode;
      if primaryDecoded.Some? {
        return primaryDecoded.value;
      }
      decoded := map[];
      var state := BucketOf(snapshot, stateStatus);
      var todo := state.Keys;
      while todo != {}
        invariant todo <= state.Keys
        invariant CacheSound()
        invariant DecodedForm(decoded, state, todo)
      {
        var key :| key in todo;
        var slot := Decode(key).value;
        var value := DecodeShared(state[key]);
        DecodedFormStep(decoded, state, todo, key, slot, value);
        decoded := decoded[slot := value];
        todo := todo - {key};
      }
      primaryDecoded := Some(decoded);
    }

    method ReadCrossSlot(snap: ContractSnapshot, slot: Bytes) returns (data: Bytes)
      requires DatabaseValid(database, stateStatus) && CacheSound() && KeysEncoded(slotKeys)
      requires SlotsFrom(decodedSlots, database, stateStatus)
      requires snap.contractAddress in database && snap == database[snap.contractAddress]
      modifies this`slotKeys, this`decodedSlots, decodedCache
      ensures CacheSound() && KeysEncoded(slotKeys) && SlotsFrom(decodedSlots, database, stateStatus)
      ensures data == SlotValue(BucketOf(snap, stateStatus), slot)
    {
      hide Encode, Decode, KeysEncoded;
      var account := snap.contractAddress;
      var slotCache := if account in decodedSlots then decodedSlots[account] else map[];
      var key := SlotKey(slot);
      if key in slotCache {
        return slotCache[key];
      }
      var bucket := BucketOf(snap, stateStatus);
      if key in bucket {
        data := DecodeShared(bucket[key]);
      } else {
        data := [];
      }
      decodedSlots := decodedSlots[account := slotCache[key := data]];
    }

    /** None stands for the not-found error. */
    method StorageRead(account: Address, slot: Bytes, index: nat, le: nat) returns (r: Option<Bytes>)
      requires Valid()
      modifies this, decodedCache, snapshotCache
      ensures Valid() && snapshot == old(snapshot)
      ensures r.Some? <==> Exists(account)
      ensures r.Some? ==> |r.value| == le
      ensures r.Some? ==> forall i :: 0 <= i < le ==> r.value[i] == ByteAt(SlotValue(StateOf(account), slot), index + i)
    {
      hide Encode, Decode, KeysEncoded, SlotsFrom, Readable, ZeroPadded;
      var data: Bytes;
      if account == contractAddress {
        var decoded := GetPrimaryDecoded();
        data := if slot in decoded then decoded[slot] else [];
      } else {
        var snap := GetSnapshot(account);
        if snap.None? {
          return None;
        }
        data := ReadCrossSlot(snap.value, slot);
      }
      r := Some(ZeroPadded(data, index, le));
    }

    /** Returns false, changing nothing, where the source's assertion fails: on a read-only view. */
    method StorageWrite(slot: Bytes, index: nat, data: Bytes) returns (ok: bool)
      requires Valid()
      modifies this, decodedCache
      ensures Valid() && ok == !readonly
      ensures !ok ==> snapshot == old(snapshot)
      ensures ok ==> var before := old(BucketOf(snapshot, stateStatus));
                     var value := Overwritten(SlotValue(before, slot), index, data);
                     BucketOf(snapshot, stateStatus) == before[Encode(slot) := Encode(value)]
    {
      hide Encode, Decode, WithEntry, Overwritten, DatabaseValid, SnapshotsFrom, KeysEncoded, SlotsFrom, Readable;
      if readonly {
        return false;
      }
      ok := true;
      var key := SlotKey(slot);
      var decoded := GetPrimaryDecoded();
      var existing := if slot in decoded then decoded[slot] else [];
      var value := Overwritten(existing, index, data);
      var raw := Encode(value);
      var bucket := BucketOf(snapshot, stateStatus);
      DecodedFormWrite(decoded, bucket, slot, value);
      ReadableWrite(bucket, slot, value);
      DecodeOfEncode(value);
      primaryDecoded, snapshot := Some(decoded[slot := value]), WithEntry(snapshot, stateStatus, key, raw);
      Remember(raw, value);
    }
  }

  // ---- Several views over shared caches ------------------------------------------------------

  ghost predicate AllValid(views: seq<SnapshotView>)
    reads set v | v in views, set v: SnapshotView | v in views :: v.decodedCache,
          set v: SnapshotView | v in views :: v.snapshotCache
  {
    && (forall i :: 0 <= i < |views| ==> views[i].Valid())
    && (forall i, j :: 0 <= i < j < |views| ==> views[i] != views[j] && views[i].database == views[j].database)
  }

  /** The persisted primary state of every view. */
  ghost function States(views: seq<SnapshotView>): (r: seq<Bucket>)
    reads set v | v in views
    ensures |r| == |views| && forall i :: 0 <= i < |views| ==> r[i] == BucketOf(views[i].snapshot, views[i].stateStatus)
  {
    seq(|views|, i requires 0 <= i < |views| reads set v | v in views =>
      BucketOf(views[i].snapshot, views[i].stateStatus))
  }

  /** What the source returns for one read, given the memories at that moment. */
  ghost predicate ReadIsRight(view: SnapshotView, start: Bucket, ops: seq<Op>, op: Op, r: Option<Bytes>)
    requires op.Read?
  {
    && (r.Some? <==> view.Exists(op.account))
    && (r.Some? ==> |r.value| == op.le)
    && (r.Some? ==> forall i :: 0 <= i < op.le ==>
         r.value[i] ==
         if op.account == view.contractAddress then
           MemoryByte(start, if view.readonly then [] else ops, op.view, op.slot, op.index + i)
         else ByteAt(SlotValue(BucketOf(view.database[op.account], view.stateStatus), op.slot), op.index + i))
  }

  /** One operation of the schedule keeps every view in step with its own memory. */
  method PerformOne(views: seq<SnapshotView>, ghost ops: seq<Op>, op: Op, ghost starts: seq<Bucket>)
    returns (r: Option<Bytes>)
    requires AllValid(views) && op.view < |views| == |starts|
    requires forall i :: 0 <= i < |views| ==>
      Shows(States(views)[i], starts[i], ops, i, views[i].readonly)
    modifies set v | v in views
    modifies set v: SnapshotView | v in views :: v.decodedCache
    modifies set v: SnapshotView | v in views :: v.snapshotCache
    ensures AllValid(views)
    ensures forall i :: 0 <= i < |views| ==>
      Shows(States(views)[i], starts[i], ops + [op], i, views[i].readonly)
    ensures op.Read? ==> ReadIsRight(views[op.view], starts[op.view], ops, op, r)
  {
    hide Encode, Decode, SlotValue, BucketOf;
    r := None;
    var view := views[op.view];
    ghost var before := BucketOf(view.snapshot, view.stateStatus);
    match op {
      case Read(_, account, slot, index, le) =>
        r := view.StorageRead(account, slot, index, le);
      case Write(_, slot, index, data) =>
        var ok := view.StorageWrite(slot, index, data);
        if ok {
          ShowsAfterWrite(before, starts[op.view], ops, op, op.view);
        }
    }
    forall i | 0 <= i < |views| && i != op.view ensures views[i].Valid() {
      assert views[i] != view && views[i].database == view.database;
    }
    forall i | 0 <= i < |views|
      ensures Shows(States(views)[i], starts[i], ops + [op], i, views[i].readonly)
    {
      if views[i].readonly || op.Read? || op.view != i {
        ShowsAfterOther(States(views)[i], starts[i], ops, op, i, views[i].readonly);
      }
    }
  }

  /** Any interleaving of reads and writes by any number of views that share caches in any way: every
      read of a view returns what a private zero-padded memory, changed by that view's own writes
      alone, holds at that moment, and the persisted strings always decode to that memory. */
  method RunSchedule(views: seq<SnapshotView>, ops: seq<Op>) returns (results: seq<Option<Bytes>>)
    requires AllValid(views)
    requires forall k :: 0 <= k < |ops| ==> ops[k].view < |views|
    modifies set v | v in views
    modifies set v: SnapshotView | v in views :: v.decodedCache
    modifies set v: SnapshotView | v in views :: v.snapshotCache
    ensures AllValid(views) && |results| == |ops|
    ensures forall i :: 0 <= i < |views| ==>
      Shows(States(views)[i], old(States(views))[i], ops, i, views[i].readonly)
    ensures forall k :: 0 <= k < |ops| && ops[k].Read? ==>
      ReadIsRight(views[ops[k].view], old(States(views))[ops[k].view], ops[..k], ops[k], results[k])
  {
    hide Encode, Decode, SlotValue, BucketOf;
    ghost var starts := States(views);
    results := [];
    for k := 0 to |ops|
      invariant AllValid(views) && |results| == k
      invariant forall i :: 0 <= i < |views| ==>
        Shows(States(views)[i], starts[i], ops[..k], i, views[i].readonly)
      invariant forall j :: 0 <= j < k && ops[j].Read? ==>
        ReadIsRight(views[ops[j].view], starts[ops[j].view], ops[..j], ops[j], results[j])
    {
      var r := PerformOne(views, ops[..k], ops[k], starts);
      assert ops[..k + 1] == ops[..k] + [ops[k]];
      results := results + [r];
    }
    assert ops[..|ops|] == ops;
  }

  // ---- The storage used while only a schema is wanted ----------------------------------------

  /** A single contract's storage kept as growing byte arrays, without base64 or caches. */
  class StateProxyNone {
    var data: map<Bytes, Bytes>

    ghost function StoredByte(slot: Bytes, i: nat): Byte
      reads this
    {
      if slot in data then ByteAt(data[slot], i) else 0
    }

    constructor ()
      ensures data == map[]
    {
      data := map[];
    }

    method StorageRead(slot: Bytes, index: nat, le: nat) returns (r: Bytes)
      modifies this
      ensures |r| == le && forall i :: 0 <= i < le ==> r[i] == old(StoredByte(slot, index + i))
      ensures forall s: Bytes, i: nat :: StoredByte(s, i) == old(StoredByte(s, i))
    {
      if slot !in data {
        data := data[slot := []];
      }
      var res := data[slot];
      var from := if index < |res| then index else |res|;
      var to := if index + le < |res| then index + le else |res|;
      var missing := le - (if index < |res| then |res| - index else 0);
      r := res[from..to] + (if missing > 0 then seq(missing, _ => 0) else []);
    }

    method StorageWrite(slot: Bytes, index: nat, got: Bytes)
      modifies this
      ensures forall s: Bytes, i: nat ::
        StoredByte(s, i) == if s == slot && index <= i < index + |got| then got[i - index] else old(StoredByte(s, i))
    {
      var res := if slot in data then data[slot] else [];
      data := data[slot := Overwritten(res, index, got)];
    }
  }
}
