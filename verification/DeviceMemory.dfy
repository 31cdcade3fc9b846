/** The life cycle of device allocations: csrc/cumem_allocator.cpp (ROCm path)
    with the record keeping of sonar/device_allocator/cumem.py.

    The driver is a state of reserved address ranges, live physical handles and
    mapped chunks; each of its calls may fail. An allocation reserves an address
    range and maps one handle per chunk; it can be put to sleep, which gives the
    memory back but keeps the address, woken up again, and freed. */
module DeviceMemory {
  import opened Chunks

  /** Address to length; handle to length; address to (length, handle). */
  datatype Device = Device(reserved: map<nat, nat>, handles: map<nat, nat>, mapped: map<nat, (nat, nat)>)

  // ---------- chunk addresses ----------

  ghost function Address(base: nat, sizes: seq<nat>, i: nat): nat
    requires i <= |sizes|
  {
    base + Sum(sizes[..i])
  }

  ghost predicate Positive(sizes: seq<nat>) {
    forall i :: 0 <= i < |sizes| ==> sizes[i] > 0
  }

  lemma AddressStep(base: nat, sizes: seq<nat>, i: nat)
    requires i < |sizes|
    ensures Address(base, sizes, i + 1) == Address(base, sizes, i) + sizes[i]
  {
    assert sizes[..i + 1][..i] == sizes[..i];
  }

  /** Chunks are laid out in order without overlap, inside the range. */
  lemma {:induction false} AddressesAscend(base: nat, sizes: seq<nat>, i: nat, j: nat)
    requires i < j <= |sizes|
    ensures Address(base, sizes, i) + sizes[i] <= Address(base, sizes, j)
    decreases j
  {
    if j == i + 1 {
      AddressStep(base, sizes, i);
    } else {
      AddressesAscend(base, sizes, i, j - 1);
      AddressStep(base, sizes, j - 1);
    }
  }

  lemma AddressBounds(base: nat, sizes: seq<nat>, i: nat)
    requires i < |sizes| && Positive(sizes)
    ensures base <= Address(base, sizes, i) < base + Sum(sizes)
  {
    AddressesAscend(base, sizes, i, |sizes|);
    assert sizes[..|sizes|] == sizes;
  }

  lemma AddressesDiffer(base: nat, sizes: seq<nat>, i: nat, j: nat)
    requires i < |sizes| && j < |sizes| && Positive(sizes) && i != j
    ensures Address(base, sizes, i) != Address(base, sizes, j)
  {
    if i < j {
      AddressesAscend(base, sizes, i, j);
    } else {
      AddressesAscend(base, sizes, j, i);
    }
  }

  // ---------- what mapping n chunks adds to the device ----------

  ghost function HandlesOf(sizes: seq<nat>, hs: seq<nat>, n: nat): map<nat, nat>
    requires n <= |sizes| && n <= |hs|
  {
    if n == 0 then map[] else HandlesOf(sizes, hs, n - 1)[hs[n - 1] := sizes[n - 1]]
  }

  ghost function MapsOf(base: nat, sizes: seq<nat>, hs: seq<nat>, n: nat): map<nat, (nat, nat)>
    requires n <= |sizes| && n <= |hs|
  {
    if n == 0 then map[] else MapsOf(base, sizes, hs, n - 1)[Address(base, sizes, n - 1) := (sizes[n - 1], hs[n - 1])]
  }

  ghost predicate Distinct(hs: seq<nat>) {
    forall i, j :: 0 <= i < j < |hs| ==> hs[i] != hs[j]
  }

  lemma {:induction false} HandlesOfKeys(sizes: seq<nat>, hs: seq<nat>, n: nat, h: nat)
    requires n <= |sizes| && n <= |hs|
    ensures h in HandlesOf(sizes, hs, n) <==> exists i :: 0 <= i < n && hs[i] == h
  {
    if n > 0 {
      HandlesOfKeys(sizes, hs, n - 1, h);
    }
  }

  lemma {:induction false} HandlesOfAt(sizes: seq<nat>, hs: seq<nat>, n: nat, i: nat)
    requires i < n <= |sizes| && n <= |hs| && Distinct(hs)
    ensures hs[i] in HandlesOf(sizes, hs, n) && HandlesOf(sizes, hs, n)[hs[i]] == sizes[i]
  {
    if i < n - 1 {
      HandlesOfAt(sizes, hs, n - 1, i);
    }
  }

  lemma {:induction false} MapsOfKeys(base: nat, sizes: seq<nat>, hs: seq<nat>, n: nat, x: nat)
    requires n <= |sizes| && n <= |hs|
    ensures x in MapsOf(base, sizes, hs, n) <==> exists i :: 0 <= i < n && Address(base, sizes, i) == x
  {
    if n > 0 {
      MapsOfKeys(base, sizes, hs, n - 1, x);
    }
  }

  lemma {:induction false} MapsOfAt(base: nat, sizes: seq<nat>, hs: seq<nat>, n: nat, i: nat)
    requires i < n <= |sizes| && n <= |hs| && Positive(sizes)
    ensures Address(base, sizes, i) in MapsOf(base, sizes, hs, n)
    ensures MapsOf(base, sizes, hs, n)[Address(base, sizes, i)] == (sizes[i], hs[i])
  {
    if i < n - 1 {
      MapsOfAt(base, sizes, hs, n - 1, i);
      AddressesDiffer(base, sizes, i, n - 1);
    }
  }

  ghost function HandleSet(hs: seq<nat>, n: nat): set<nat>
    requires n <= |hs|
  {
    set i | 0 <= i < n :: hs[i]
  }

  ghost function AddressSet(base: nat, sizes: seq<nat>, n: nat): set<nat>
    requires n <= |sizes|
  {
    set i | 0 <= i < n :: Address(base, sizes, i)
  }

  /** The device with all chunks of a range created and mapped. */
  ghost function WithChunks(dev: Device, base: nat, sizes: seq<nat>, hs: seq<nat>): Device
    requires |hs| == |sizes|
  {
    Device(dev.reserved, dev.handles + HandlesOf(sizes, hs, |hs|), dev.mapped + MapsOf(base, sizes, hs, |hs|))
  }

  ghost predicate NewHandles(dev: Device, hs: seq<nat>) {
    Distinct(hs) && forall i :: 0 <= i < |hs| ==> hs[i] !in dev.handles
  }

  ghost predicate NewAddresses(dev: Device, base: nat, sizes: seq<nat>, n: nat)
    requires n <= |sizes|
  {
    forall i :: 0 <= i < n ==> Address(base, sizes, i) !in dev.mapped
  }

  /** Taking back what was added restores the maps. */
  lemma HandlesTakenBack(handles: map<nat, nat>, sizes: seq<nat>, hs: seq<nat>, n: nat)
    requires n <= |sizes| && n <= |hs| && forall i :: 0 <= i < n ==> hs[i] !in handles
    ensures handles + HandlesOf(sizes, hs, n) - HandleSet(hs, n) == handles
  {
    forall h ensures h in HandlesOf(sizes, hs, n) <==> h in HandleSet(hs, n) {
      HandlesOfKeys(sizes, hs, n, h);
    }
  }

  lemma MapsTakenBack(mapped: map<nat, (nat, nat)>, base: nat, sizes: seq<nat>, hs: seq<nat>, n: nat)
    requires n <= |sizes| && n <= |hs| && forall i :: 0 <= i < n ==> Address(base, sizes, i) !in mapped
    ensures mapped + MapsOf(base, sizes, hs, n) - AddressSet(base, sizes, n) == mapped
  {
    forall x ensures x in MapsOf(base, sizes, hs, n) <==> x in AddressSet(base, sizes, n) {
      MapsOfKeys(base, sizes, hs, n, x);
    }
  }

  // ---------- records and what they say about the device ----------

  datatype Record = Record(size: nat, sizes: seq<nat>, hs: seq<nat>, asleep: bool)

  ghost predicate RecordOk(r: Record) {
    |r.sizes| == |r.hs| && Positive(r.sizes) && Sum(r.sizes) == r.size && r.size > 0
  }

  ghost predicate ApartFrom(a: nat, size: nat, b: nat, size': nat) {
    a + size <= b || b + size' <= a
  }

  /** Reserved ranges are those of the records, and do not overlap. */
  ghost predicate RangesOk(dev: Device, records: map<nat, Record>) {
    && dev.reserved.Keys == records.Keys
    && (forall a :: a in records ==> dev.reserved[a] == records[a].size && RecordOk(records[a]))
    && (forall a, b :: a in records && b in records && a != b ==> ApartFrom(a, records[a].size, b, records[b].size))
  }

  /** Chunk i of the awake allocation at a has handle h. */
  ghost predicate Has(records: map<nat, Record>, a: nat, i: int, h: nat) {
    && a in records && !records[a].asleep && 0 <= i < |records[a].hs| == |records[a].sizes|
    && records[a].hs[i] == h
  }

  /** Chunk i of the awake allocation at a belongs at address x. */
  ghost predicate Places(records: map<nat, Record>, a: nat, i: int, x: nat) {
    && a in records && !records[a].asleep && 0 <= i < |records[a].hs| == |records[a].sizes|
    && Address(a, records[a].sizes, i) == x
  }

  ghost predicate HandleOk(dev: Device, records: map<nat, Record>, a: nat, i: int, h: nat)
    requires Has(records, a, i, h)
  {
    h in dev.handles && dev.handles[h] == records[a].sizes[i]
  }

  ghost predicate PlaceOk(dev: Device, records: map<nat, Record>, a: nat, i: int, x: nat)
    requires Places(records, a, i, x)
  {
    x in dev.mapped && dev.mapped[x] == (records[a].sizes[i], records[a].hs[i])
  }

  ghost predicate Owned(records: map<nat, Record>, h: nat) {
    exists a, i :: Has(records, a, i, h)
  }

  ghost predicate Placed(records: map<nat, Record>, x: nat) {
    exists a, i :: Places(records, a, i, x)
  }

  /** The live handles are exactly those of the chunks of awake allocations. */
  ghost predicate HandlesOk(dev: Device, records: map<nat, Record>) {
    && (forall a, i, h {:trigger Has(records, a, i, h)} :: Has(records, a, i, h) ==> HandleOk(dev, records, a, i, h))
    && (forall h :: h in dev.handles ==> Owned(records, h))
    && (forall a, i, b, j, h {:trigger Has(records, a, i, h), Has(records, b, j, h)} ::
          Has(records, a, i, h) && Has(records, b, j, h) ==> a == b && i == j)
  }

  /** ... and so are the mapped chunks, each at its place in its range. */
  ghost predicate MappedOk(dev: Device, records: map<nat, Record>) {
    && (forall a, i, x {:trigger Places(records, a, i, x)} :: Places(records, a, i, x) ==> PlaceOk(dev, records, a, i, x))
    && (forall x :: x in dev.mapped ==> Placed(records, x))
  }

  ghost predicate Coherent(dev: Device, records: map<nat, Record>) {
    match dev
    case Device(_, _, _) => RangesOk(dev, records) && HandlesOk(dev, records) && MappedOk(dev, records)
  }

  /** The other allocations are as they were. */
  ghost predicate SameElsewhere(records: map<nat, Record>, a: nat, records': map<nat, Record>) {
    forall b :: b != a ==> (b in records <==> b in records') && (b in records ==> records'[b] == records[b])
  }

  lemma SameChunks(records: map<nat, Record>, a: nat, records': map<nat, Record>, b: nat, i: int, y: nat)
    requires SameElsewhere(records, a, records') && b != a
    ensures Has(records', b, i, y) == Has(records, b, i, y)
    ensures Places(records', b, i, y) == Places(records, b, i, y)
  {
  }

  /** Changes to a record that is asleep before and after do not matter. */
  lemma AsleepChanges(dev: Device, records: map<nat, Record>, a: nat, records': map<nat, Record>)
    requires HandlesOk(dev, records) && MappedOk(dev, records) && SameElsewhere(records, a, records')
    requires a in records ==> records[a].asleep
    requires a in records' ==> records'[a].asleep
    ensures HandlesOk(dev, records') && MappedOk(dev, records')
  {
    forall b, i, y ensures Has(records', b, i, y) == Has(records, b, i, y) && Places(records', b, i, y) == Places(records, b, i, y) {
      if b != a {
        SameChunks(records, a, records', b, i, y);
      }
    }
    forall h | h in dev.handles ensures Owned(records', h) {
      assert Owned(records, h);
      var b, i :| Has(records, b, i, h);
      assert Has(records', b, i, h);
    }
    forall x | x in dev.mapped ensures Placed(records', x) {
      assert Placed(records, x);
      var b, i :| Places(records, b, i, x);
      assert Places(records', b, i, x);
    }
  }

  /** A reserved range with nothing mapped is an allocation asleep. */
  lemma AddAsleep(dev: Device, records: map<nat, Record>, a: nat, r: Record)
    requires Coherent(dev, records) && RecordOk(r) && r.asleep
    requires a !in dev.reserved && forall b :: b in dev.reserved ==> ApartFrom(a, r.size, b, dev.reserved[b])
    ensures Coherent(dev.(reserved := dev.reserved[a := r.size]), records[a := r])
  {
    hide HandlesOk, MappedOk, RecordOk;
    var dev' := dev.(reserved := dev.reserved[a := r.size]);
    AsleepChanges(dev, records, a, records[a := r]);
    SameContents(dev, dev', records[a := r]);
  }

  lemma RemoveAsleep(dev: Device, records: map<nat, Record>, a: nat)
    requires Coherent(dev, records) && a in records && records[a].asleep
    ensures Coherent(dev.(reserved := dev.reserved - {a}), records - {a})
  {
    hide HandlesOk, MappedOk, RecordOk;
    var dev' := dev.(reserved := dev.reserved - {a});
    AsleepChanges(dev, records, a, records - {a});
    SameContents(dev, dev', records - {a});
  }

  lemma SameContents(dev: Device, dev': Device, records: map<nat, Record>)
    requires dev'.handles == dev.handles && dev'.mapped == dev.mapped
    ensures HandlesOk(dev', records) == HandlesOk(dev, records)
    ensures MappedOk(dev', records) == MappedOk(dev, records)
  {
  }

  lemma WakeHandles(dev: Device, records: map<nat, Record>, a: nat, hs: seq<nat>)
    requires HandlesOk(dev, records) && a in records && records[a].asleep
    requires |hs| == |records[a].sizes| && NewHandles(dev, hs)
    ensures HandlesOk(WithChunks(dev, a, records[a].sizes, hs), records[a := records[a].(hs := hs, asleep := false)])
  {
    var sizes := records[a].sizes;
    var added := HandlesOf(sizes, hs, |hs|);
    var dev' := WithChunks(dev, a, sizes, hs);
    var records' := records[a := records[a].(hs := hs, asleep := false)];
    forall b, i, h | Has(records', b, i, h)
      ensures HandleOk(dev', records', b, i, h) && (b == a <==> h !in dev.handles)
    {
      if b == a {
        HandlesOfAt(sizes, hs, |hs|, i);
      } else {
        SameChunks(records, a, records', b, i, h);
        assert HandleOk(dev, records, b, i, h);
        HandlesOfKeys(sizes, hs, |hs|, h);
      }
    }
    forall h | h in dev'.handles ensures Owned(records', h) {
      HandlesOfKeys(sizes, hs, |hs|, h);
      if h in added {
        var i :| 0 <= i < |hs| && hs[i] == h;
        assert Has(records', a, i, h);
      } else {
        assert Owned(records, h);
        var b, i :| Has(records, b, i, h);
        SameChunks(records, a, records', b, i, h);
      }
    }
    forall b, i, c, j, h | Has(records', b, i, h) && Has(records', c, j, h) ensures b == c && i == j {
      if b != a && c != a {
        SameChunks(records, a, records', b, i, h);
        SameChunks(records, a, records', c, j, h);
      }
    }
  }

  lemma WakeMaps(dev: Device, records: map<nat, Record>, a: nat, hs: seq<nat>)
    requires MappedOk(dev, records) && a in records && records[a].asleep && Positive(records[a].sizes)
    requires |hs| == |records[a].sizes| && NewAddresses(dev, a, records[a].sizes, |hs|)
    ensures MappedOk(WithChunks(dev, a, records[a].sizes, hs), records[a := records[a].(hs := hs, asleep := false)])
  {
    var sizes := records[a].sizes;
    var dev' := WithChunks(dev, a, sizes, hs);
    var records' := records[a := records[a].(hs := hs, asleep := false)];
    forall b, i, x | Places(records', b, i, x) ensures PlaceOk(dev', records', b, i, x) {
      if b == a {
        MapsOfAt(a, sizes, hs, |hs|, i);
      } else {
        SameChunks(records, a, records', b, i, x);
        assert PlaceOk(dev, records, b, i, x);
        MapsOfKeys(a, sizes, hs, |hs|, x);
      }
    }
    forall x | x in dev'.mapped ensures Placed(records', x) {
      MapsOfKeys(a, sizes, hs, |hs|, x);
      if x in MapsOf(a, sizes, hs, |hs|) {
        var i :| 0 <= i < |hs| && Address(a, sizes, i) == x;
        assert Places(records', a, i, x);
      } else {
        assert Placed(records, x);
        var b, i :| Places(records, b, i, x);
        SameChunks(records, a, records', b, i, x);
      }
    }
  }

  /** Mapping fresh chunks into a range that is asleep wakes it. */
  lemma WakeUp(dev: Device, records: map<nat, Record>, a: nat, hs: seq<nat>)
    requires Coherent(dev, records) && a in records && records[a].asleep
    requires |hs| == |records[a].sizes| && NewHandles(dev, hs) && NewAddresses(dev, a, records[a].sizes, |hs|)
    ensures Coherent(WithChunks(dev, a, records[a].sizes, hs), records[a := records[a].(hs := hs, asleep := false)])
  {
    hide HandlesOk, MappedOk, Sum;
    assert RecordOk(records[a]);
    WakeHandles(dev, records, a, hs);
    WakeMaps(dev, records, a, hs);
  }

  lemma SleepHandles(dev: Device, records: map<nat, Record>, a: nat, dev': Device)
    requires RangesOk(dev, records) && HandlesOk(dev, records) && a in records && !records[a].asleep
    requires dev'.handles == dev.handles - HandleSet(records[a].hs, |records[a].hs|)
    ensures HandlesOk(dev', records[a := records[a].(asleep := true)])
  {
    var r := records[a];
    var records' := records[a := r.(asleep := true)];
    var gone := HandleSet(r.hs, |r.hs|);
    assert RecordOk(r);
    forall b, i, h | Has(records', b, i, h)
      ensures HandleOk(dev', records', b, i, h) && Has(records, b, i, h)
    {
      SameChunks(records, a, records', b, i, h);
      assert HandleOk(dev, records, b, i, h);
      forall k | 0 <= k < |r.hs| ensures r.hs[k] != h {
        assert Has(records, a, k, r.hs[k]);
      }
    }
    forall h | h in dev'.handles ensures Owned(records', h) {
      assert Owned(records, h);
      var b, i :| Has(records, b, i, h);
      assert b == a ==> h in gone;
      SameChunks(records, a, records', b, i, h);
    }
  }

  lemma SleepMaps(dev: Device, records: map<nat, Record>, a: nat, dev': Device)
    requires RangesOk(dev, records) && MappedOk(dev, records) && a in records && !records[a].asleep
    requires dev'.mapped == dev.mapped - AddressSet(a, records[a].sizes, |records[a].sizes|)
    ensures MappedOk(dev', records[a := records[a].(asleep := true)])
  {
    var r := records[a];
    var records' := records[a := r.(asleep := true)];
    assert RecordOk(r);
    var gone := AddressSet(a, r.sizes, |r.sizes|);
    forall b, i, x | Places(records', b, i, x) ensures PlaceOk(dev', records', b, i, x) {
      SameChunks(records, a, records', b, i, x);
      assert PlaceOk(dev, records, b, i, x);
      forall k | 0 <= k < |r.sizes| ensures Address(a, r.sizes, k) != x {
        RangesApart(dev, records, a, k, b, i);
      }
    }
    forall x | x in dev'.mapped ensures Placed(records', x) {
      assert Placed(records, x);
      var b, i :| Places(records, b, i, x);
      assert b == a ==> x in gone;
      SameChunks(records, a, records', b, i, x);
    }
  }

  /** Chunks of different allocations lie at different addresses. */
  lemma RangesApart(dev: Device, records: map<nat, Record>, a: nat, k: nat, b: nat, i: nat)
    requires RangesOk(dev, records) && a in records && b in records && a != b
    requires k < |records[a].sizes| && i < |records[b].sizes|
    ensures Address(a, records[a].sizes, k) != Address(b, records[b].sizes, i)
  {
    assert RecordOk(records[a]) && RecordOk(records[b]);
    assert ApartFrom(a, records[a].size, b, records[b].size);
    AddressBounds(a, records[a].sizes, k);
    AddressBounds(b, records[b].sizes, i);
  }

  /** Unmapping and releasing the chunks of an awake range puts it to sleep. */
  lemma FallAsleep(dev: Device, records: map<nat, Record>, a: nat)
    requires Coherent(dev, records) && a in records && !records[a].asleep
    ensures var r := records[a];
            Coherent(Device(dev.reserved, dev.handles - HandleSet(r.hs, |r.hs|), dev.mapped - AddressSet(a, r.sizes, |r.sizes|)),
                     records[a := r.(asleep := true)])
  {
    hide HandlesOk, MappedOk, Sum;
    var r := records[a];
    var dev' := Device(dev.reserved, dev.handles - HandleSet(r.hs, |r.hs|), dev.mapped - AddressSet(a, r.sizes, |r.sizes|));
    SleepHandles(dev, records, a, dev');
    SleepMaps(dev, records, a, dev');
  }

  lemma RecordedRange(dev: Device, records: map<nat, Record>, a: nat)
    requires Coherent(dev, records) && a in records
    ensures RecordOk(records[a]) && a in dev.reserved && dev.reserved[a] == records[a].size
  {
  }

  /** The handles and chunks of an awake allocation are all live and distinct. */
  lemma AwakeRecord(dev: Device, records: map<nat, Record>, a: nat)
    requires Coherent(dev, records) && a in records && !records[a].asleep
    ensures RecordOk(records[a]) && a in dev.reserved && dev.reserved[a] == records[a].size
    ensures Distinct(records[a].hs) && HandleSet(records[a].hs, |records[a].hs|) <= dev.handles.Keys
    ensures AddressSet(a, records[a].sizes, |records[a].sizes|) <= dev.mapped.Keys
  {
    var r := records[a];
    assert RecordOk(r);
    forall i | 0 <= i < |r.hs|
      ensures Has(records, a, i, r.hs[i]) && r.hs[i] in dev.handles && Address(a, r.sizes, i) in dev.mapped
    {
      assert Has(records, a, i, r.hs[i]) && HandleOk(dev, records, a, i, r.hs[i]);
      assert Places(records, a, i, Address(a, r.sizes, i)) && PlaceOk(dev, records, a, i, Address(a, r.sizes, i));
    }
  }

  lemma LostRange(dev: Device, records: map<nat, Record>, a: nat)
    requires a in records && a !in dev.reserved
    ensures !Coherent(dev, records)
  {
    assert a in records.Keys;
  }

  /** The records say all there is to say about the device. */
  lemma OneDevice(dev: Device, dev': Device, records: map<nat, Record>)
    requires Coherent(dev, records) && Coherent(dev', records)
    ensures dev == dev'
  {
    SameHandles(dev, dev', records);
    SameMaps(dev, dev', records);
    assert dev.reserved == dev'.reserved;
  }

  lemma SameHandles(dev: Device, dev': Device, records: map<nat, Record>)
    requires HandlesOk(dev, records) && HandlesOk(dev', records)
    ensures dev.handles == dev'.handles
  {
    forall h ensures h in dev.handles <==> h in dev'.handles {
      if Owned(records, h) {
        var a, i :| Has(records, a, i, h);
        assert HandleOk(dev, records, a, i, h) && HandleOk(dev', records, a, i, h);
      }
    }
    forall h | h in dev.handles ensures dev.handles[h] == dev'.handles[h] {
      assert Owned(records, h);
      var a, i :| Has(records, a, i, h);
      assert HandleOk(dev, records, a, i, h) && HandleOk(dev', records, a, i, h);
    }
  }

  lemma SameMaps(dev: Device, dev': Device, records: map<nat, Record>)
    requires MappedOk(dev, records) && MappedOk(dev', records)
    ensures dev.mapped == dev'.mapped
  {
    forall x ensures x in dev.mapped <==> x in dev'.mapped {
      if Placed(records, x) {
        var a, i :| Places(records, a, i, x);
        assert PlaceOk(dev, records, a, i, x) && PlaceOk(dev', records, a, i, x);
      }
    }
    forall x | x in dev.mapped ensures dev.mapped[x] == dev'.mapped[x] {
      assert Placed(records, x);
      var a, i :| Places(records, a, i, x);
      assert PlaceOk(dev, records, a, i, x) && PlaceOk(dev', records, a, i, x);
    }
  }

  lemma TakenIff<V>(m: map<nat, V>, some: set<nat>, all: set<nat>)
    requires some <= all <= m.Keys
    ensures m - some == m - all <==> some == all
  {
    if m - some == m - all {
      forall x | x in all ensures x in some {
        assert x !in m - all;
      }
    }
  }

  /** After taking away some of its chunks and handles, marking an allocation
      asleep is right exactly when they were all taken and its range is there. */
  lemma AsleepIff(dev: Device, records: map<nat, Record>, a: nat, gone: set<nat>, gone': set<nat>, dev': Device)
    requires Coherent(dev, records) && a in records && !records[a].asleep
    requires gone <= AddressSet(a, records[a].sizes, |records[a].sizes|) && gone' <= HandleSet(records[a].hs, |records[a].hs|)
    requires dev'.handles == dev.handles - gone' && dev'.mapped == dev.mapped - gone
    requires dev'.reserved == dev.reserved || a !in dev'.reserved
    ensures Coherent(dev', records[a := records[a].(asleep := true)]) <==>
              && gone == AddressSet(a, records[a].sizes, |records[a].sizes|) && gone' == HandleSet(records[a].hs, |records[a].hs|)
              && dev'.reserved == dev.reserved
  {
    hide Coherent, AddressSet, HandleSet;
    var r := records[a];
    var records' := records[a := r.(asleep := true)];
    var target := Device(dev.reserved, dev.handles - HandleSet(r.hs, |r.hs|), dev.mapped - AddressSet(a, r.sizes, |r.sizes|));
    FallAsleep(dev, records, a);
    AwakeRecord(dev, records, a);
    TakenIff(dev.handles, gone', HandleSet(r.hs, |r.hs|));
    TakenIff(dev.mapped, gone, AddressSet(a, r.sizes, |r.sizes|));
    if Coherent(dev', records') {
      OneDevice(dev', target, records');
    }
  }

  /** The same for dropping the record altogether, awake or asleep. */
  lemma DroppedIff(dev: Device, records: map<nat, Record>, a: nat, gone: set<nat>, gone': set<nat>, dev': Device)
    requires Coherent(dev, records) && a in records
    requires gone <= ChunkSet(records[a], a) && gone' <= LiveHandles(records[a])
    requires dev'.handles == dev.handles - gone' && dev'.mapped == dev.mapped - gone
    requires dev'.reserved == dev.reserved || dev'.reserved == dev.reserved - {a}
    ensures Coherent(dev', records - {a}) <==>
              gone == ChunkSet(records[a], a) && gone' == LiveHandles(records[a]) && dev'.reserved == dev.reserved - {a}
  {
    hide Coherent, AddressSet, HandleSet;
    var r := records[a];
    var asleep := records[a := r.(asleep := true)];
    var target := Device(dev.reserved, dev.handles - LiveHandles(r), dev.mapped - ChunkSet(r, a));
    assert asleep - {a} == records - {a};
    if r.asleep {
      assert asleep == records && target == dev;
    } else {
      FallAsleep(dev, records, a);
      AwakeRecord(dev, records, a);
    }
    RemoveAsleep(target, asleep, a);
    TakenIff(dev.handles, gone', LiveHandles(r));
    TakenIff(dev.mapped, gone, ChunkSet(r, a));
    if Coherent(dev', records - {a}) {
      OneDevice(dev', target.(reserved := target.reserved - {a}), records - {a});
    }
  }

  /** The addresses and handles an allocation has mapped: none when asleep. */
  ghost function ChunkSet(r: Record, a: nat): set<nat> {
    if r.asleep then {} else AddressSet(a, r.sizes, |r.sizes|)
  }

  ghost function LiveHandles(r: Record): set<nat> {
    if r.asleep then {} else HandleSet(r.hs, |r.hs|)
  }

  // ---------- the calls made to the driver ----------

  datatype DriverCall =
    | Context(err: int)
    | Granularity(err: int)
    | Reserve(address: nat, size: nat, alignment: nat, hint: nat, err: int)
    | FreeRange(address: nat, size: nat, err: int)
    | Create(handle: nat, size: nat, err: int)
    | Release(handle: nat, err: int)
    | MapAt(address: nat, size: nat, handle: nat, err: int)
    | Unmap(address: nat, size: nat, err: int)
    | SetAccess(err: int)

  ghost predicate AllSucceed(calls: seq<DriverCall>) {
    forall i :: 0 <= i < |calls| ==> calls[i].err == 0
  }

  /** The error code after checked calls: the last failure, or what it was. */
  ghost function Latest(code: int, calls: seq<DriverCall>): int {
    if calls == [] then code
    else if calls[|calls| - 1].err != 0 then calls[|calls| - 1].err
    else Latest(code, calls[..|calls| - 1])
  }

  lemma {:induction false} LatestIsZero(code: int, calls: seq<DriverCall>)
    ensures Latest(code, calls) == 0 <==> code == 0 && AllSucceed(calls)
  {
    if calls != [] {
      var n := |calls| - 1;
      LatestIsZero(code, calls[..n]);
      assert calls[..n] + [calls[n]] == calls;
      CallAdded(calls[..n], calls[n]);
    }
  }

  lemma NoneLatest(code: int)
    ensures Latest(code, []) == code
  {
  }

  lemma LatestOf(code: int, calls: seq<DriverCall>, call: DriverCall)
    ensures Latest(code, calls + [call]) == if call.err != 0 then call.err else Latest(code, calls)
  {
    assert (calls + [call])[..|calls|] == calls;
  }

  /** The first failure of some calls, or 0. */
  ghost function FirstFailure(calls: seq<DriverCall>): int {
    if calls == [] then 0
    else
      var before := FirstFailure(calls[..|calls| - 1]);
      if before != 0 then before else calls[|calls| - 1].err
  }

  lemma FirstFailureOf(calls: seq<DriverCall>, call: DriverCall)
    ensures FirstFailure(calls + [call]) == if FirstFailure(calls) != 0 then FirstFailure(calls) else call.err
  {
    assert (calls + [call])[..|calls|] == calls;
  }

  lemma NoFailure()
    ensures FirstFailure([]) == 0
  {
  }

  /** The calls of ensure_context: one, or three when there is no context yet. */
  ghost predicate ContextCalls(calls: seq<DriverCall>) {
    (|calls| == 1 || |calls| == 3) && forall i :: 0 <= i < |calls| ==> calls[i].Context?
  }

  /** Every call that gives something back succeeded. */
  ghost predicate Cleaned(calls: seq<DriverCall>) {
    forall i :: 0 <= i < |calls| && (calls[i].Unmap? || calls[i].Release? || calls[i].FreeRange?) ==> calls[i].err == 0
  }

  /** Some call refused the access rights. */
  ghost predicate AccessRefused(calls: seq<DriverCall>) {
    exists i :: 0 <= i < |calls| && calls[i].SetAccess? && calls[i].err != 0
  }

  ghost predicate CreatesOf(calls: seq<DriverCall>, sizes: seq<nat>, hs: seq<nat>) {
    |calls| == |hs| <= |sizes| && forall i :: 0 <= i < |calls| ==> calls[i] == Create(hs[i], sizes[i], 0)
  }

  ghost predicate ReleasesOf(calls: seq<DriverCall>, hs: seq<nat>) {
    |calls| == |hs| && forall i :: 0 <= i < |calls| ==> calls[i] == Release(hs[i], calls[i].err)
  }

  ghost predicate MapsOnto(calls: seq<DriverCall>, base: nat, sizes: seq<nat>, hs: seq<nat>, n: nat)
    requires n <= |sizes| == |hs|
  {
    |calls| == n && forall i :: 0 <= i < n ==> calls[i] == MapAt(Address(base, sizes, i), sizes[i], hs[i], 0)
  }

  ghost predicate UnmapsOf(calls: seq<DriverCall>, base: nat, sizes: seq<nat>, n: nat)
    requires n <= |sizes|
  {
    |calls| == n && forall i :: 0 <= i < n ==> calls[i] == Unmap(Address(base, sizes, i), sizes[i], calls[i].err)
  }

  /** The calls of the first loop of create_and_map: one handle per chunk or, at
      the first refusal, a release of every handle made so far. */
  ghost predicate HandleCalls(calls: seq<DriverCall>, sizes: seq<nat>, hs: seq<nat>, err: int) {
    && |hs| <= |sizes| && |hs| <= |calls| && CreatesOf(calls[..|hs|], sizes, hs)
    && if err == 0 then |hs| == |sizes| == |calls|
       else |hs| < |sizes| && |hs| < |calls| && calls[|hs|].Create? && calls[|hs|] == Create(calls[|hs|].handle, sizes[|hs|], err)
            && ReleasesOf(calls[|hs| + 1..], hs)
  }

  /** The calls of the second loop: one mapping per chunk or, at the first
      refusal, at chunk n, an unmapping of every chunk before it and a release of
      every handle. */
  ghost predicate MapCalls(calls: seq<DriverCall>, base: nat, sizes: seq<nat>, hs: seq<nat>, n: nat, err: int)
    requires n <= |sizes| == |hs|
  {
    && n <= |calls| && MapsOnto(calls[..n], base, sizes, hs, n)
    && if err == 0 then n == |sizes| == |calls|
       else n < |sizes| && 2 * n + 1 <= |calls| && calls[n] == MapAt(Address(base, sizes, n), sizes[n], hs[n], err)
            && UnmapsOf(calls[n + 1..2 * n + 1], base, sizes, n) && ReleasesOf(calls[2 * n + 1..], hs)
  }

  /** All the calls of create_and_map, in order, up to the failure it reports. */
  ghost predicate CreateAndMapCalls(calls: seq<DriverCall>, base: nat, sizes: seq<nat>, hs: seq<nat>, err: int) {
    || (err != 0 && HandleCalls(calls, sizes, hs, err))
    || (&& |hs| == |sizes| <= |calls| && CreatesOf(calls[..|hs|], sizes, hs)
        && var rest := calls[|hs|..];
        || (err != 0 && exists n: nat :: n < |sizes| && MapCalls(rest, base, sizes, hs, n, err))
        || (&& |rest| == |sizes| + 1 && MapsOnto(rest[..|sizes|], base, sizes, hs, |sizes|)
            && rest[|sizes|] == SetAccess(err)))
  }

  /** The calls of create_and_map entered with an error pending: the first chunk
      is created, and the error found then; without chunks there is no check, and
      only the access rights are set. */
  ghost predicate PendingCalls(calls: seq<DriverCall>, sizes: seq<nat>) {
    |calls| == 1 && if sizes == [] then calls[0].SetAccess? else calls[0].Create? && calls[0].size == sizes[0]
  }

  /** Some handles and error make these the calls of create_and_map after a
      context that leaves the given error. */
  ghost predicate MakeCalls(calls: seq<DriverCall>, base: nat, sizes: seq<nat>, pending: int) {
    if pending != 0 then PendingCalls(calls, sizes)
    else exists hs: seq<nat>, err: int :: CreateAndMapCalls(calls, base, sizes, hs, err)
  }

  /** When a failed create_and_map leaves nothing behind. */
  ghost predicate Restores(calls: seq<DriverCall>, sizes: seq<nat>, pending: int) {
    if pending != 0 then sizes != [] ==> |calls| == 1 && calls[0].err != 0
    else Cleaned(calls) && (AccessRefused(calls) ==> sizes == [])
  }

  /** The device after the creation loop is entered with an error pending: a first
      handle that is made stays. */
  ghost predicate PendingCreate(dev: Device, sizes: seq<nat>, calls: seq<DriverCall>, dev': Device) {
    if sizes == [] then calls == [] && dev' == dev
    else && |calls| == 1 && calls[0].Create? && calls[0].size == sizes[0]
         && (calls[0].err != 0 ==> dev' == dev)
         && (calls[0].err == 0 ==>
               calls[0].handle !in dev.handles && dev' == dev.(handles := dev.handles[calls[0].handle := sizes[0]]))
  }

  /** The calls of reserve_rocm_address. */
  ghost predicate ReserveCalls(calls: seq<DriverCall>, address: nat, size: nat, alignment: nat, hint: nat, err: int) {
    && 1 <= |calls| <= 3 && calls[0].Reserve? && calls[0] == Reserve(calls[0].address, size, alignment, hint, calls[0].err)
    && (|calls| == 1 ==> calls[0].address == address && calls[0].err == err && (err == 0 || alignment == 0))
    && (|calls| > 1 ==> calls[0].err != 0 && alignment > 0)
    && (|calls| == 2 ==> calls[1] == Reserve(address, size, 0, hint, err) && (err == 0 ==> address % alignment == 0))
    && (|calls| == 3 ==> && calls[1] == Reserve(address, size, 0, hint, 0) && address % alignment != 0
                         && calls[2] == FreeRange(address, size, calls[2].err) && err == NOT_SUPPORTED)
  }

  /** These calls end with the range reserved. */
  ghost predicate Reserves(calls: seq<DriverCall>) {
    1 <= |calls| <= 2 && calls[|calls| - 1].err == 0
  }

  const NOT_SUPPORTED: int := 801

  /** Freeing a range and reserving the same addresses again. */
  ghost predicate RenewCalls(calls: seq<DriverCall>, address: nat, size: nat) {
    && |calls| >= 1 && calls[0] == FreeRange(address, size, calls[0].err)
    && (calls[0].err != 0 ==> |calls| == 1)
    && (calls[0].err == 0 ==>
          && |calls| >= 2 && calls[1].Reserve? && calls[1] == Reserve(calls[1].address, size, 0, address, calls[1].err)
          && if calls[1].err == 0 && calls[1].address != address
             then |calls| == 3 && calls[2] == FreeRange(calls[1].address, size, calls[2].err)
             else |calls| == 2)
  }

  /** ... and both succeeded, at the same address. */
  ghost predicate Renewed(calls: seq<DriverCall>, address: nat) {
    |calls| == 2 && calls[0].err == 0 && calls[1].err == 0 && calls[1].Reserve? && calls[1].address == address
  }

  lemma NoUnmaps(base: nat, sizes: seq<nat>)
    ensures UnmapsOf([], base, sizes, 0) && AllSucceed([]) && Address(base, sizes, 0) == base
  {
  }

  lemma UnmapAdded(calls: seq<DriverCall>, base: nat, sizes: seq<nat>, n: nat, err: int)
    requires n < |sizes| && UnmapsOf(calls, base, sizes, n)
    ensures var calls' := calls + [Unmap(Address(base, sizes, n), sizes[n], err)];
            UnmapsOf(calls', base, sizes, n + 1) && (AllSucceed(calls') <==> AllSucceed(calls) && err == 0)
  {
    hide Address;
    CallAdded(calls, Unmap(Address(base, sizes, n), sizes[n], err));
  }

  lemma CallAdded(calls: seq<DriverCall>, call: DriverCall)
    ensures AllSucceed(calls + [call]) <==> AllSucceed(calls) && call.err == 0
  {
    assert forall i :: 0 <= i < |calls| ==> (calls + [call])[i] == calls[i];
    assert (calls + [call])[|calls|] == call;
  }

  /** What counts as clean-up in two runs of calls is what counts in each. */
  lemma CleanedConcat(calls: seq<DriverCall>, more: seq<DriverCall>)
    ensures Cleaned(calls + more) <==> Cleaned(calls) && Cleaned(more)
  {
    assert forall i :: 0 <= i < |calls| ==> (calls + more)[i] == calls[i];
    assert forall i :: 0 <= i < |more| ==> (calls + more)[|calls| + i] == more[i];
    if Cleaned(calls + more) {
      forall i | 0 <= i < |more| && (more[i].Unmap? || more[i].Release? || more[i].FreeRange?) ensures more[i].err == 0 {
        assert (calls + more)[|calls| + i] == more[i];
      }
    }
  }

  lemma CreatesAreNoCleanUp(made: seq<DriverCall>, sizes: seq<nat>, hs: seq<nat>, call: DriverCall, undone: seq<DriverCall>)
    requires CreatesOf(made, sizes, hs) && |hs| < |sizes| && call.Create? && call.size == sizes[|hs|] && call.err != 0 && ReleasesOf(undone, hs)
    ensures var calls := made + [call] + undone;
            HandleCalls(calls, sizes, hs, call.err) && (Cleaned(calls) <==> AllSucceed(undone))
  {
    var calls := made + [call] + undone;
    assert calls[..|hs|] == made && calls[|hs|] == call && calls[|hs| + 1..] == undone;
    CleanedConcat(made + [call], undone);
  }

  lemma MapsAreNoCleanUp(made: seq<DriverCall>, base: nat, sizes: seq<nat>, hs: seq<nat>, n: nat, call: DriverCall,
                         unmaps: seq<DriverCall>, releases: seq<DriverCall>)
    requires n < |sizes| == |hs| && MapsOnto(made, base, sizes, hs, n)
    requires call == MapAt(Address(base, sizes, n), sizes[n], hs[n], call.err) && call.err != 0
    requires UnmapsOf(unmaps, base, sizes, n) && ReleasesOf(releases, hs)
    ensures var calls := made + [call] + unmaps + releases;
            && MapCalls(calls, base, sizes, hs, n, call.err)
            && (Cleaned(calls) <==> AllSucceed(unmaps) && AllSucceed(releases))
  {
    hide Address;
    var calls := made + [call] + unmaps + releases;
    assert calls[..n] == made && calls[n] == call && calls[n + 1..2 * n + 1] == unmaps && calls[2 * n + 1..] == releases;
    CleanedConcat(made + [call] + unmaps, releases);
    CleanedConcat(made + [call], unmaps);
  }

  lemma HandlesMade(calls: seq<DriverCall>, sizes: seq<nat>, hs: seq<nat>)
    requires HandleCalls(calls, sizes, hs, 0)
    ensures |hs| == |sizes| == |calls| && CreatesOf(calls, sizes, hs) && AllSucceed(calls) && Cleaned(calls)
  {
    assert calls[..|hs|] == calls;
  }

  lemma EndsInHandles(calls: seq<DriverCall>, base: nat, sizes: seq<nat>, hs: seq<nat>, err: int)
    requires err != 0 && HandleCalls(calls, sizes, hs, err)
    ensures CreateAndMapCalls(calls, base, sizes, hs, err) && !AllSucceed(calls) && !AccessRefused(calls)
  {
    assert calls[|hs|].err != 0;
    forall i | 0 <= i < |calls| ensures !calls[i].SetAccess? {
      if i < |hs| {
        assert calls[i] == calls[..|hs|][i];
      } else if i > |hs| {
        assert calls[i] == calls[|hs| + 1..][i - |hs| - 1];
      }
    }
  }

  lemma EndsInMaps(made: seq<DriverCall>, more: seq<DriverCall>, base: nat, sizes: seq<nat>, hs: seq<nat>, n: nat, err: int)
    requires HandleCalls(made, sizes, hs, 0) && |hs| == |sizes|
    requires n <= |sizes| && err != 0 && MapCalls(more, base, sizes, hs, n, err)
    ensures var calls := made + more;
            && CreateAndMapCalls(calls, base, sizes, hs, err) && !AllSucceed(calls) && !AccessRefused(calls)
            && (Cleaned(calls) <==> Cleaned(more))
  {
    hide Address;
    var calls := made + more;
    HandlesMade(made, sizes, hs);
    assert calls[..|hs|] == made && calls[|hs|..] == more;
    assert calls[|hs| + n] == more[n];
    NoAccessInMaps(more, base, sizes, hs, n, err);
    RefusalConcat(made, more);
    CleanedConcat(made, more);
  }

  lemma EndsInAccess(made: seq<DriverCall>, more: seq<DriverCall>, base: nat, sizes: seq<nat>, hs: seq<nat>, n: nat, err: int)
    requires HandleCalls(made, sizes, hs, 0) && |hs| == |sizes|
    requires n <= |sizes| && MapCalls(more, base, sizes, hs, n, 0)
    ensures var calls := made + more + [SetAccess(err)];
            && CreateAndMapCalls(calls, base, sizes, hs, err) && Cleaned(calls)
            && (AllSucceed(calls) <==> err == 0) && (AccessRefused(calls) <==> err != 0)
  {
    hide Address;
    var calls := made + more + [SetAccess(err)];
    HandlesMade(made, sizes, hs);
    assert more[..n] == more;
    assert calls[..|hs|] == made && calls[|hs|..] == more + [SetAccess(err)];
    assert (more + [SetAccess(err)])[..|sizes|] == more;
    CleanedConcat(made, more);
    CleanedConcat(made + more, [SetAccess(err)]);
    assert AllSucceed(made + more);
    CallAdded(made + more, SetAccess(err));
    assert calls[|calls| - 1] == SetAccess(err);
    assert forall i :: 0 <= i < |calls| - 1 ==> calls[i] == (made + more)[i];
  }

  lemma NothingCreated(sizes: seq<nat>)
    ensures CreatesOf([], sizes, [])
  {
  }

  lemma OneMoreCreated(calls: seq<DriverCall>, sizes: seq<nat>, hs: seq<nat>, h: nat)
    requires CreatesOf(calls, sizes, hs) && |hs| < |sizes|
    ensures CreatesOf(calls + [Create(h, sizes[|hs|], 0)], sizes, hs + [h])
  {
  }

  lemma AllCreated(calls: seq<DriverCall>, sizes: seq<nat>, hs: seq<nat>)
    requires |hs| == |sizes| && CreatesOf(calls, sizes, hs)
    ensures HandleCalls(calls, sizes, hs, 0)
  {
    assert calls[..|sizes|] == calls;
  }

  lemma NothingMapped(dev: Device, base: nat, sizes: seq<nat>, hs: seq<nat>)
    requires |hs| == |sizes|
    ensures MapsOnto([], base, sizes, hs, 0) && NewAddresses(dev, base, sizes, 0)
  {
  }

  lemma OneMoreMapped(dev: Device, calls: seq<DriverCall>, base: nat, sizes: seq<nat>, hs: seq<nat>, n: nat)
    requires n < |sizes| == |hs| && MapsOnto(calls, base, sizes, hs, n) && NewAddresses(dev, base, sizes, n)
    requires Address(base, sizes, n) !in dev.mapped + MapsOf(base, sizes, hs, n)
    ensures MapsOnto(calls + [MapAt(Address(base, sizes, n), sizes[n], hs[n], 0)], base, sizes, hs, n + 1)
    ensures NewAddresses(dev, base, sizes, n + 1)
  {
    hide Address, MapsOf;
  }

  lemma AllMapped(calls: seq<DriverCall>, base: nat, sizes: seq<nat>, hs: seq<nat>)
    requires |hs| == |sizes| && MapsOnto(calls, base, sizes, hs, |sizes|)
    ensures MapCalls(calls, base, sizes, hs, |sizes|, 0)
  {
    assert calls[..|sizes|] == calls;
  }

  lemma NoAccessInMaps(calls: seq<DriverCall>, base: nat, sizes: seq<nat>, hs: seq<nat>, n: nat, err: int)
    requires n < |sizes| == |hs| && err != 0 && MapCalls(calls, base, sizes, hs, n, err)
    ensures !AccessRefused(calls)
  {
    hide Address;
    forall i | 0 <= i < |calls| ensures !calls[i].SetAccess? {
      if i < n {
        assert calls[i] == calls[..n][i];
      } else if n < i < 2 * n + 1 {
        assert calls[i] == calls[n + 1..2 * n + 1][i - n - 1];
      } else if i > n {
        assert calls[i] == calls[2 * n + 1..][i - 2 * n - 1];
      }
    }
  }

  /** Freeing a range just reserved gives the device before, if nothing else changed. */
  lemma FreedAgain(start: Device, address: nat, total: nat, mapped: Device, err: int, dev: Device)
    requires address !in start.reserved && mapped.reserved == start.reserved[address := total]
    requires dev == if err == 0 then mapped.(reserved := mapped.reserved - {address}) else mapped
    ensures dev == start <==> err == 0 && mapped == start.(reserved := start.reserved[address := total])
  {
    assert start.reserved[address := total] - {address} == start.reserved;
  }

  lemma ChunksRemain(dev: Device, base: nat, sizes: seq<nat>, hs: seq<nat>)
    requires |hs| == |sizes| && NewHandles(dev, hs)
    ensures WithChunks(dev, base, sizes, hs) == dev <==> sizes == []
  {
    if sizes != [] {
      HandlesOfKeys(sizes, hs, |hs|, hs[0]);
    }
  }

  lemma SumOfNone(r: Record)
    requires RecordOk(r)
    ensures r.sizes != []
  {
  }

  /** The calls of unmap_and_release. */
  datatype Unmapping = Unmapping(context: seq<DriverCall>, unmaps: seq<DriverCall>, releases: seq<DriverCall>) {
    ghost function Calls(): seq<DriverCall> {
      context + unmaps + releases
    }

    ghost predicate AllWell() {
      AllSucceed(context) && AllSucceed(unmaps) && AllSucceed(releases)
    }
  }

  ghost predicate UnmappingCalls(t: Unmapping, base: nat, sizes: seq<nat>, hs: seq<nat>) {
    ContextCalls(t.context) && UnmapsOf(t.unmaps, base, sizes, |sizes|) && ReleasesOf(t.releases, hs)
  }

  lemma NothingUndone(calls: seq<DriverCall>)
    requires ReleasesOf(calls, [])
    ensures calls == [] && AllSucceed(calls)
  {
  }

  class Allocator {
    var dev: Device
    /** The process-wide error code; 0 is no error. */
    var errorCode: int
    /** The records kept per address. */
    var records: map<nat, Record>
    /** Every call made to the driver, with its outcome; only the driver calls
        below append to it. */
    ghost var log: seq<DriverCall>

    // ---------- driver calls, each of which may fail ----------

    method MemCreate(size: nat) returns (err: int, h: nat)
      modifies this`dev, this`log
      ensures err == 0 ==> h !in old(dev).handles && dev == old(dev).(handles := old(dev).handles[h := size])
      ensures err != 0 ==> dev == old(dev)
      ensures log == old(log) + [Create(h, size, err)]
    {
      err, h := *, *;
      if err == 0 {
        if h in dev.handles {
          err := 1;
        } else {
          dev := dev.(handles := dev.handles[h := size]);
        }
      }
      log := log + [Create(h, size, err)];
    }

    method MemRelease(h: nat) returns (err: int)
      modifies this`dev, this`log
      ensures err == 0 ==> h in old(dev).handles && dev == old(dev).(handles := old(dev).handles - {h})
      ensures err != 0 ==> dev == old(dev)
      ensures log == old(log) + [Release(h, err)]
    {
      err := *;
      if err == 0 {
        if h !in dev.handles {
          err := 1;
        } else {
          dev := dev.(handles := dev.handles - {h});
        }
      }
      log := log + [Release(h, err)];
    }

    method MemMap(address: nat, size: nat, h: nat) returns (err: int)
      modifies this`dev, this`log
      ensures err == 0 ==> h in old(dev).handles && address !in old(dev).mapped
      ensures err == 0 ==> dev == old(dev).(mapped := old(dev).mapped[address := (size, h)])
      ensures err != 0 ==> dev == old(dev)
      ensures log == old(log) + [MapAt(address, size, h, err)]
    {
      err := *;
      if err == 0 {
        if h !in dev.handles || address in dev.mapped {
          err := 1;
        } else {
          dev := dev.(mapped := dev.mapped[address := (size, h)]);
        }
      }
      log := log + [MapAt(address, size, h, err)];
    }

    method MemUnmap(address: nat, size: nat) returns (err: int)
      modifies this`dev, this`log
      ensures err == 0 ==> address in old(dev).mapped && old(dev).mapped[address].0 == size
      ensures err == 0 ==> dev == old(dev).(mapped := old(dev).mapped - {address})
      ensures err != 0 ==> dev == old(dev)
      ensures log == old(log) + [Unmap(address, size, err)]
    {
      err := *;
      if err == 0 {
        if address !in dev.mapped || dev.mapped[address].0 != size {
          err := 1;
        } else {
          dev := dev.(mapped := dev.mapped - {address});
        }
      }
      log := log + [Unmap(address, size, err)];
    }

    method ContextCall() returns (err: int)
      modifies this`log
      ensures log == old(log) + [Context(err)]
    {
      err := *;
      log := log + [Context(err)];
    }

    method MemSetAccess() returns (err: int)
      modifies this`log
      ensures log == old(log) + [SetAccess(err)]
    {
      err := *;
      log := log + [SetAccess(err)];
    }

    // ---------- the loops of create_and_map and unmap_and_release ----------

    /** ensure_context: a failure is noted, and the caller goes on. */
    method EnsureContext() returns (ghost calls: seq<DriverCall>)
      modifies this`errorCode, this`log
      ensures log == old(log) + calls && ContextCalls(calls) && errorCode == Latest(old(errorCode), calls)
    {
      hide Latest;
      NoneLatest(errorCode);
      var err := ContextCall();
      if err != 0 {
        errorCode := err;
      }
      calls := [] + [Context(err)];
      LatestOf(old(errorCode), [], Context(err));
      var present: bool := *;
      if !present {
        err := ContextCall();
        if err != 0 {
          errorCode := err;
        }
        LatestOf(old(errorCode), calls, Context(err));
        calls := calls + [Context(err)];
        err := ContextCall();
        if err != 0 {
          errorCode := err;
        }
        LatestOf(old(errorCode), calls, Context(err));
        calls := calls + [Context(err)];
      }
    }

    /** Release handles one by one, going on past failures; report the first. */
    method ReleaseHandles(hs: seq<nat>) returns (firstError: int, ghost gone: set<nat>, ghost calls: seq<DriverCall>)
      modifies this`dev, this`log
      ensures log == old(log) + calls && ReleasesOf(calls, hs) && (firstError == 0 <==> AllSucceed(calls))
      ensures firstError == FirstFailure(calls)
      ensures dev == old(dev).(handles := old(dev).handles - gone) && gone <= HandleSet(hs, |hs|)
      ensures firstError == 0 ==> gone == HandleSet(hs, |hs|)
      ensures firstError != 0 && Distinct(hs) ==> exists i :: 0 <= i < |hs| && hs[i] !in gone
    {
      hide FirstFailure;
      firstError, gone, calls := 0, {}, [];
      NoFailure();
      assert dev.handles - {} == dev.handles;
      var i := 0;
      while i < |hs|
        invariant 0 <= i <= |hs|
        invariant log == old(log) + calls && ReleasesOf(calls, hs[..i]) && (firstError == 0 <==> AllSucceed(calls))
        invariant firstError == FirstFailure(calls)
        invariant dev == old(dev).(handles := old(dev).handles - gone) && gone <= HandleSet(hs, i)
        invariant firstError == 0 ==> gone == HandleSet(hs, i)
        invariant firstError != 0 && Distinct(hs) ==> exists k :: 0 <= k < i && hs[k] !in gone
      {
        var err := MemRelease(hs[i]);
        CallAdded(calls, Release(hs[i], err));
        FirstFailureOf(calls, Release(hs[i], err));
        calls := calls + [Release(hs[i], err)];
        if err != 0 && firstError == 0 {
          firstError := err;
        }
        if err == 0 {
          assert old(dev).handles - gone - {hs[i]} == old(dev).handles - (gone + {hs[i]});
          gone := gone + {hs[i]};
        }
        i := i + 1;
      }
      assert hs[..i] == hs;
    }

    /** Unmap the first n chunks of a range, going on past failures. */
    method UnmapChunks(base: nat, sizes: seq<nat>, n: nat)
      returns (firstError: int, ghost gone: set<nat>, ghost calls: seq<DriverCall>)
      requires n <= |sizes|
      modifies this`dev, this`log
      ensures log == old(log) + calls && UnmapsOf(calls, base, sizes, n) && (firstError == 0 <==> AllSucceed(calls))
      ensures firstError == FirstFailure(calls)
      ensures dev == old(dev).(mapped := old(dev).mapped - gone) && gone <= AddressSet(base, sizes, n)
      ensures firstError == 0 ==> gone == AddressSet(base, sizes, n)
      ensures firstError != 0 && Positive(sizes) ==> exists i :: 0 <= i < n && Address(base, sizes, i) !in gone
    {
      hide AllSucceed, UnmapsOf, Address, FirstFailure;
      firstError, gone, calls := 0, {}, [];
      NoFailure();
      NoUnmaps(base, sizes);
      assert dev.mapped - {} == dev.mapped;
      var done := 0;
      var i := 0;
      while i < n
        invariant 0 <= i <= n && base + done == Address(base, sizes, i)
        invariant log == old(log) + calls && UnmapsOf(calls, base, sizes, i) && (firstError == 0 <==> AllSucceed(calls))
        invariant firstError == FirstFailure(calls)
        invariant dev == old(dev).(mapped := old(dev).mapped - gone) && gone <= AddressSet(base, sizes, i)
        invariant firstError == 0 ==> gone == AddressSet(base, sizes, i)
        invariant firstError != 0 && Positive(sizes) ==> exists k :: 0 <= k < i && Address(base, sizes, k) !in gone
      {
        ghost var address := Address(base, sizes, i);
        if firstError != 0 && Positive(sizes) {
          ghost var k :| 0 <= k < i && Address(base, sizes, k) !in gone;
          AddressesDiffer(base, sizes, k, i);
        }
        var err := MemUnmap(base + done, sizes[i]);
        UnmapAdded(calls, base, sizes, i, err);
        FirstFailureOf(calls, Unmap(address, sizes[i], err));
        calls := calls + [Unmap(address, sizes[i], err)];
        if err != 0 && firstError == 0 {
          firstError := err;
          NotYetGone(base, sizes, i, gone);
        }
        if err == 0 {
          assert old(dev).mapped - gone - {address} == old(dev).mapped - (gone + {address});
          gone := gone + {address};
        }
        AddressStep(base, sizes, i);
        done := done + sizes[i];
        i := i + 1;
      }
    }

    /** One handle per chunk; on an error the handles made so far are released,
        and the device is as before exactly when all the releases succeed. An
        error that was pending is found after the first handle, which then stays. */
    method CreateHandles(sizes: seq<nat>) returns (hs: seq<nat>, finished: bool, ghost calls: seq<DriverCall>)
      modifies this`dev, this`errorCode, this`log
      ensures log == old(log) + calls && NewHandles(old(dev), hs)
      ensures (finished <==> errorCode == 0 || sizes == []) && (finished ==> errorCode == old(errorCode))
      ensures old(errorCode) == 0 ==> HandleCalls(calls, sizes, hs, errorCode)
      ensures errorCode == 0 ==>
                old(errorCode) == 0 && dev == old(dev).(handles := old(dev).handles + HandlesOf(sizes, hs, |hs|))
      ensures old(errorCode) == 0 && errorCode != 0 ==>
                dev.reserved == old(dev).reserved && (dev == old(dev) <==> Cleaned(calls))
      ensures old(errorCode) != 0 ==> hs == [] && errorCode != 0 && PendingCreate(old(dev), sizes, calls, dev)
    {
      hide HandlesOf, NewHandles, Cleaned, HandleCalls, ReleasesOf, AllSucceed, CreatesOf;
      hs, calls := [], [];
      NoHandles(dev, sizes);
      assert CreatesOf([], sizes, []) by { NothingCreated(sizes); }
      var i := 0;
      while i < |sizes|
        invariant 0 <= i <= |sizes| && |hs| == |calls| == i && errorCode == old(errorCode) && (i > 0 ==> errorCode == 0)
        invariant log == old(log) + calls && CreatesOf(calls, sizes, hs)
        invariant NewHandles(old(dev), hs)
        invariant dev == old(dev).(handles := old(dev).handles + HandlesOf(sizes, hs, i))
      {
        ghost var made := calls;
        var err, h := MemCreate(sizes[i]);
        if err != 0 {
          errorCode := err;
        }
        calls := made + [Create(h, sizes[i], err)];
        if errorCode != 0 {
          NoHandles(dev, sizes);
          ghost var undone := UndoHandles(sizes, hs, if err == 0 then dev else old(dev));
          if old(errorCode) == 0 {
            CreatesAreNoCleanUp(made, sizes, hs, Create(h, sizes[i], err), undone);
          } else {
            NothingUndone(undone);
          }
          calls := calls + undone;
          return hs, false, calls;
        }
        HandleAdded(old(dev), sizes, hs, h);
        OneMoreCreated(made, sizes, hs, h);
        hs := hs + [h];
        i := i + 1;
      }
      AllCreated(calls, sizes, hs);
      finished := true;
    }

    method UndoHandles(sizes: seq<nat>, hs: seq<nat>, ghost start: Device) returns (ghost calls: seq<DriverCall>)
      requires |hs| <= |sizes| && NewHandles(start, hs)
      requires dev == start.(handles := start.handles + HandlesOf(sizes, hs, |hs|))
      modifies this`dev, this`log
      ensures log == old(log) + calls && ReleasesOf(calls, hs)
      ensures dev.reserved == start.reserved && (dev == start <==> AllSucceed(calls))
    {
      HandlesTakenBack(start.handles, sizes, hs, |hs|);
      var status, gone, releases := ReleaseHandles(hs);
      HandlesStuck(start.handles, sizes, hs, gone);
      calls := releases;
    }

    /** Map the chunks in order; on an error unmap those mapped and release all
        handles: the device is as before exactly when all of that succeeds. */
    method MapChunks(base: nat, sizes: seq<nat>, hs: seq<nat>, ghost start: Device)
      returns (ghost n: nat, ghost calls: seq<DriverCall>)
      requires errorCode == 0 || sizes == []
      requires |hs| == |sizes| && Positive(sizes) && NewHandles(start, hs)
      requires dev == start.(handles := start.handles + HandlesOf(sizes, hs, |hs|))
      modifies this`dev, this`errorCode, this`log
      ensures log == old(log) + calls && n <= |sizes|
      ensures sizes == [] ==> calls == [] && dev == old(dev) && errorCode == old(errorCode)
      ensures old(errorCode) == 0 ==> MapCalls(calls, base, sizes, hs, n, errorCode)
      ensures errorCode == 0 ==>
                old(errorCode) == 0 && dev == WithChunks(start, base, sizes, hs) && NewAddresses(start, base, sizes, |sizes|)
      ensures old(errorCode) == 0 && errorCode != 0 ==>
                dev.reserved == start.reserved && (dev == start <==> Cleaned(calls))
    {
      hide HandlesOf, MapsOf, Address, NewHandles, NewAddresses, Cleaned, MapsOnto, MapCalls, UnmapsOf, ReleasesOf;
      n, calls := 0, [];
      NothingMapped(start, base, sizes, hs);
      ghost var handles := dev.handles;
      NoMaps(start, base, sizes, hs);
      var done := 0;
      var i := 0;
      while i < |sizes|
        invariant 0 <= i == n <= |sizes| && errorCode == old(errorCode) && base + done == Address(base, sizes, i)
        invariant log == old(log) + calls && MapsOnto(calls, base, sizes, hs, i)
        invariant dev == Device(start.reserved, handles, start.mapped + MapsOf(base, sizes, hs, i))
        invariant NewAddresses(start, base, sizes, i)
      {
        ghost var made := calls;
        var err := MemMap(base + done, sizes[i], hs[i]);
        if err != 0 {
          errorCode := err;
        }
        ghost var call := MapAt(base + done, sizes[i], hs[i], err);
        calls := made + [call];
        if errorCode != 0 {
          ghost var unmaps, releases := UndoMapping(base, sizes, hs, i, start);
          MapsAreNoCleanUp(made, base, sizes, hs, i, call, unmaps, releases);
          calls := calls + unmaps + releases;
          return;
        }
        MapAdded(start.mapped, base, sizes, hs, i);
        OneMoreMapped(start, made, base, sizes, hs, i);
        AddressStep(base, sizes, i);
        done := done + sizes[i];
        i, n := i + 1, n + 1;
      }
      AllMapped(calls, base, sizes, hs);
    }

    method UndoMapping(base: nat, sizes: seq<nat>, hs: seq<nat>, n: nat, ghost start: Device)
      returns (ghost unmaps: seq<DriverCall>, ghost releases: seq<DriverCall>)
      requires n <= |sizes| == |hs| && Positive(sizes) && NewHandles(start, hs) && NewAddresses(start, base, sizes, n)
      requires dev == Device(start.reserved, start.handles + HandlesOf(sizes, hs, |hs|), start.mapped + MapsOf(base, sizes, hs, n))
      modifies this`dev, this`log
      ensures log == old(log) + unmaps + releases && UnmapsOf(unmaps, base, sizes, n) && ReleasesOf(releases, hs)
      ensures dev.reserved == start.reserved && (dev == start <==> AllSucceed(unmaps) && AllSucceed(releases))
    {
      hide AllSucceed;
      HandlesTakenBack(start.handles, sizes, hs, |hs|);
      MapsTakenBack(start.mapped, base, sizes, hs, n);
      var status, gone, calls := UnmapChunks(base, sizes, n);
      MapsStuck(start.mapped, base, sizes, hs, n, gone);
      var status', gone', calls' := ReleaseHandles(hs);
      HandlesStuck(start.handles, sizes, hs, gone');
      unmaps, releases := calls, calls';
    }

    /** create_and_map after its context. If creating a handle or mapping a chunk
        fails, at any index, the device is left exactly as it was if and only if
        every unmapping and release made to clean up succeeds; a refusal to set
        access leaves everything mapped. With an error pending the first handle,
        if it is made, is left behind. */
    method MakeChunks(base: nat, sizes: seq<nat>) returns (hs: seq<nat>, ghost calls: seq<DriverCall>)
      requires Positive(sizes)
      modifies this`dev, this`errorCode, this`log
      ensures log == old(log) + calls && dev.reserved == old(dev).reserved
      ensures errorCode == 0 <==> old(errorCode) == 0 && AllSucceed(calls)
      ensures old(errorCode) == 0 ==> CreateAndMapCalls(calls, base, sizes, hs, errorCode)
      ensures old(errorCode) != 0 ==> PendingCalls(calls, sizes)
      ensures errorCode != 0 ==> (dev == old(dev) <==> Restores(calls, sizes, old(errorCode)))
      ensures errorCode == 0 || (old(errorCode) == 0 && AccessRefused(calls)) ==>
                && Cleaned(calls)
                && |hs| == |sizes| && NewHandles(old(dev), hs) && NewAddresses(old(dev), base, sizes, |sizes|)
                && dev == WithChunks(old(dev), base, sizes, hs)
    {
      hide HandleCalls, MapCalls, CreateAndMapCalls, AllSucceed, Cleaned, AccessRefused, NewHandles, NewAddresses;
      hide HandlesOf, MapsOf, Positive;
      var finished;
      hs, finished, calls := CreateHandles(sizes);
      if !finished {
        if old(errorCode) == 0 {
          EndsInHandles(calls, base, sizes, hs, errorCode);
        }
        return;
      }
      assert |hs| == |sizes| by {
        if old(errorCode) == 0 {
          HandlesMade(calls, sizes, hs);
        }
      }
      assert dev == old(dev).(handles := old(dev).handles + HandlesOf(sizes, hs, |hs|)) by {
        NoHandles(old(dev), sizes);
      }
      ghost var n, more := MapChunks(base, sizes, hs, old(dev));
      if errorCode != 0 && sizes != [] {
        EndsInMaps(calls, more, base, sizes, hs, n, errorCode);
        calls := calls + more;
        return;
      }
      var err := MemSetAccess();
      if err != 0 {
        errorCode := err;
      }
      if old(errorCode) == 0 {
        EndsInAccess(calls, more, base, sizes, hs, n, err);
        ChunksRemain(old(dev), base, sizes, hs);
      }
      calls := calls + more + [SetAccess(err)];
    }

    /** create_and_map: the same, where the context may have failed as well. */
    method CreateAndMap(base: nat, sizes: seq<nat>)
      returns (hs: seq<nat>, ghost context: seq<DriverCall>, ghost calls: seq<DriverCall>)
      requires Positive(sizes)
      modifies this`dev, this`errorCode, this`log
      ensures log == old(log) + context + calls && dev.reserved == old(dev).reserved
      ensures ContextCalls(context) && MakeCalls(calls, base, sizes, Latest(old(errorCode), context))
      ensures errorCode == 0 <==> old(errorCode) == 0 && AllSucceed(context) && AllSucceed(calls)
      ensures errorCode != 0 ==> (dev == old(dev) <==> Restores(calls, sizes, Latest(old(errorCode), context)))
      ensures errorCode == 0 ==>
                && |hs| == |sizes| && NewHandles(old(dev), hs) && NewAddresses(old(dev), base, sizes, |sizes|)
                && dev == WithChunks(old(dev), base, sizes, hs) && CreateAndMapCalls(calls, base, sizes, hs, 0)
    {
      hide CreateAndMapCalls, AllSucceed, NewHandles, NewAddresses, HandlesOf, MapsOf, Positive, Restores, PendingCalls;
      hide AccessRefused, Cleaned, ContextCalls, Latest;
      context := EnsureContext();
      LatestIsZero(old(errorCode), context);
      hs, calls := MakeChunks(base, sizes);
    }

    /** unmap_and_release: the context, all chunks, at the addresses where they were
        mapped, then all handles, then the first error. Nothing stops it, and it
        takes from the device all that could be unmapped and released. */
    method UnmapAndRelease(base: nat, sizes: seq<nat>, hs: seq<nat>)
      returns (ghost t: Unmapping, ghost gone: set<nat>, ghost gone': set<nat>)
      requires |hs| == |sizes|
      modifies this`dev, this`errorCode, this`log
      ensures log == old(log) + t.Calls() && UnmappingCalls(t, base, sizes, hs)
      ensures errorCode == 0 <==>
                old(errorCode) == 0 && AllSucceed(t.context) && AllSucceed(t.unmaps) && AllSucceed(t.releases)
      // the first unmap that failed is reported, else the first release, else what was there
      ensures errorCode == if FirstFailure(t.unmaps) != 0 then FirstFailure(t.unmaps)
                           else if FirstFailure(t.releases) != 0 then FirstFailure(t.releases)
                           else Latest(old(errorCode), t.context)
      ensures dev == Device(old(dev).reserved, old(dev).handles - gone', old(dev).mapped - gone)
      ensures gone <= AddressSet(base, sizes, |sizes|) && gone' <= HandleSet(hs, |hs|)
      ensures Positive(sizes) ==> (gone == AddressSet(base, sizes, |sizes|) <==> AllSucceed(t.unmaps))
      ensures Distinct(hs) ==> (gone' == HandleSet(hs, |hs|) <==> AllSucceed(t.releases))
    {
      hide AllSucceed, Address, Latest, ContextCalls, UnmapsOf, ReleasesOf, Positive, Distinct, FirstFailure;
      ghost var context := EnsureContext();
      LatestIsZero(old(errorCode), context);
      var first, unmapped, calls := UnmapChunks(base, sizes, |sizes|);
      var second, released, calls' := ReleaseHandles(hs);
      t, gone, gone' := Unmapping(context, calls, calls'), unmapped, released;
      if first != 0 {
        errorCode := first;
      } else if second != 0 {
        errorCode := second;
      }
    }

    // ---------- address ranges ----------

    method AddressReserve(size: nat, alignment: nat, hint: nat) returns (err: int, address: nat)
      modifies this`dev, this`log
      ensures err == 0 ==> CanReserve(old(dev), address, size) && (alignment > 0 ==> address % alignment == 0)
      ensures err == 0 ==> dev == old(dev).(reserved := old(dev).reserved[address := size])
      ensures err != 0 ==> dev == old(dev)
      ensures log == old(log) + [Reserve(address, size, alignment, hint, err)]
    {
      err, address := *, *;
      if err == 0 {
        if !CanReserve(dev, address, size) || (alignment > 0 && address % alignment != 0) {
          err := 1;
        } else {
          dev := dev.(reserved := dev.reserved[address := size]);
        }
      }
      log := log + [Reserve(address, size, alignment, hint, err)];
    }

    method AddressFree(address: nat, size: nat) returns (err: int)
      modifies this`dev, this`log
      ensures err == 0 ==> address in old(dev).reserved && old(dev).reserved[address] == size
      ensures err == 0 ==> dev == old(dev).(reserved := old(dev).reserved - {address})
      ensures err != 0 ==> dev == old(dev)
      ensures log == old(log) + [FreeRange(address, size, err)]
    {
      err := *;
      if err == 0 {
        if address !in dev.reserved || dev.reserved[address] != size {
          err := 1;
        } else {
          dev := dev.(reserved := dev.reserved - {address});
        }
      }
      log := log + [FreeRange(address, size, err)];
    }

    /** reserve_rocm_address: when an aligned reservation fails, try once more
        without asking for alignment, and keep the range only if it is aligned
        all the same. A failure leaves the device as it was, unless a range that
        was not aligned could not be freed again. */
    method ReserveRocmAddress(size: nat, alignment: nat, hint: nat)
      returns (err: int, address: nat, ghost calls: seq<DriverCall>)
      modifies this`dev, this`log
      ensures log == old(log) + calls && ReserveCalls(calls, address, size, alignment, hint, err)
      ensures err == 0 ==> CanReserve(old(dev), address, size) && (alignment > 0 ==> address % alignment == 0)
      ensures err == 0 ==> dev == old(dev).(reserved := old(dev).reserved[address := size])
      ensures err != 0 ==> (dev == old(dev) <==> Cleaned(calls))
      ensures err != 0 && dev != old(dev) ==>
                CanReserve(old(dev), address, size) && dev == old(dev).(reserved := old(dev).reserved[address := size])
    {
      err, address := AddressReserve(size, alignment, hint);
      calls := [Reserve(address, size, alignment, hint, err)];
      if err == 0 || alignment == 0 {
        return;
      }
      err, address := AddressReserve(size, 0, hint);
      calls := calls + [Reserve(address, size, 0, hint, err)];
      if err != 0 {
        return;
      }
      if address % alignment == 0 {
        return;
      }
      assert old(dev).reserved[address := size] - {address} == old(dev).reserved;
      var status := AddressFree(address, size);
      calls := calls + [FreeRange(address, size, status)];
      assert calls[2] == FreeRange(address, size, status);
      err := NOT_SUPPORTED;
    }

    method QueryGranularity() returns (err: int)
      modifies this`log
      ensures log == old(log) + [Granularity(err)]
    {
      err := *;
      log := log + [Granularity(err)];
    }

    // ---------- the life of an allocation ----------

    /** my_malloc. Each outcome is decided by the calls: the context and the
        granularity, the reservation, the overflow of the base chunk, and the
        mapping. The record is made before the chunks are mapped, so a failure
        after that point leaves it behind; whatever fails, it is stated exactly
        when the device is as it was. */
    method Malloc(size: SSize, granularity: U64, baseChunk: U64) returns (r: MallocResult, ghost t: MallocCalls)
      requires granularity > 0 && baseChunk > 0 && Coherent(dev, records)
      modifies this
      ensures log == old(log) + t.Calls()
      ensures MallocShape(t, old(errorCode), Aligned(Wrap(size), granularity), granularity, baseChunk)
      ensures r == MallocOutcome(t, old(errorCode), granularity, baseChunk)
      ensures errorCode == 0 <==> r.Allocated? || r.Crashed?
      ensures r.NoMemory? || r.Crashed? ==> records == old(records)
      ensures r.NoMemory? ==> (dev == old(dev) <==> Cleaned(t.reserving))
      ensures r.Allocated? || r.StaleRecord? ==>
                && r.address !in old(records) && r.address % granularity == 0
                && r.address in records && records == old(records)[r.address := records[r.address]]
                && records[r.address].size == Aligned(Wrap(size), granularity) >= Wrap(size)
                && records[r.address].sizes == t.sizes && !records[r.address].asleep
                && (t.sizes == [] <==> Aligned(Wrap(size), granularity) + Aligned(baseChunk, granularity) - 1 >= TWO_64)
      ensures r.Allocated? ==> (Coherent(dev, records) <==> t.sizes != [])
      ensures r.StaleRecord? ==>
                (dev == old(dev) <==> Restores(t.made, t.sizes, Latest(0, t.mapContext)) && AllSucceed(t.freed))
      ensures r.StaleRecord? && AllSucceed(t.freed) ==> !Coherent(dev, records)
    {
      hide Cleaned, Coherent, Aligned, Wrap, AllSucceed, Latest, ContextCalls, ReserveCalls, Reserves, Restores, MakeCalls;
      ghost var context := EnsureContext();
      LatestIsZero(old(errorCode), context);
      var err := QueryGranularity();
      if err != 0 {
        errorCode := err;
      }
      if errorCode != 0 {
        NothingReserved();
        return NoMemory, MallocCalls(context, err, 0, 0, [], [], [], [], []);
      }
      r, t := ReserveAndMap(size, granularity, baseChunk, context);
    }

    /** my_malloc after its first check. */
    method ReserveAndMap(size: SSize, granularity: U64, baseChunk: U64, ghost context: seq<DriverCall>)
      returns (r: MallocResult, ghost t: MallocCalls)
      requires granularity > 0 && baseChunk > 0 && Coherent(dev, records)
      requires errorCode == 0 && ContextCalls(context) && AllSucceed(context)
      modifies this
      ensures t.context == context && t.granularity == 0
      ensures log == old(log) + t.reserving + t.mapContext + t.made + t.freed
      ensures MallocShape(t, 0, Aligned(Wrap(size), granularity), granularity, baseChunk)
      ensures r == MallocOutcome(t, 0, granularity, baseChunk)
      ensures errorCode == 0 <==> r.Allocated? || r.Crashed?
      ensures r.NoMemory? || r.Crashed? ==> records == old(records)
      ensures r.NoMemory? ==> (dev == old(dev) <==> Cleaned(t.reserving))
      ensures r.Allocated? || r.StaleRecord? ==>
                && r.address !in old(records) && r.address % granularity == 0
                && r.address in records && records == old(records)[r.address := records[r.address]]
                && records[r.address].size == Aligned(Wrap(size), granularity) >= Wrap(size)
                && records[r.address].sizes == t.sizes && !records[r.address].asleep
                && (t.sizes == [] <==> Aligned(Wrap(size), granularity) + Aligned(baseChunk, granularity) - 1 >= TWO_64)
      ensures r.Allocated? ==> (Coherent(dev, records) <==> t.sizes != [])
      ensures r.StaleRecord? ==>
                (dev == old(dev) <==> Restores(t.made, t.sizes, Latest(0, t.mapContext)) && AllSucceed(t.freed))
      ensures r.StaleRecord? && AllSucceed(t.freed) ==> !Coherent(dev, records)
    {
      hide Cleaned, Coherent, Aligned, Wrap, AllSucceed, Latest, ContextCalls, ReserveCalls, Reserves, Restores, MakeCalls, Sum;
      hide Tiles, Multiple;
      var total := Aligned(Wrap(size), granularity);
      var status, address;
      ghost var reserving;
      status, address, reserving := ReserveRocmAddress(total, granularity, 0);
      ReservesIff(reserving, address, total, granularity, 0, status);
      if status != 0 {
        errorCode := status;
        return NoMemory, MallocCalls(context, 0, address, status, reserving, [], [], [], []);
      }
      AlignedPositive(Wrap(size), granularity);
      var plan := PlanChunks(size, granularity, baseChunk);
      if plan.DivisionByZero? {
        return Crashed, MallocCalls(context, 0, address, status, reserving, [], [], [], []);
      }
      ghost var mapContext, made, freed;
      r, mapContext, made, freed := MapNew(address, total, plan.sizes, old(dev));
      t := MallocCalls(context, 0, address, status, reserving, plan.sizes, mapContext, made, freed);
    }

    /** The rest of my_malloc, once the range is reserved and cut into chunks. */
    method MapNew(address: nat, total: nat, sizes: seq<nat>, ghost start: Device)
      returns (r: MallocResult, ghost context: seq<DriverCall>, ghost made: seq<DriverCall>, ghost freed: seq<DriverCall>)
      requires Positive(sizes) && CanReserve(start, address, total) && Coherent(start, records)
      requires dev == start.(reserved := start.reserved[address := total])
      modifies this
      ensures log == old(log) + context + made + freed
      ensures ContextCalls(context) && MakeCalls(made, address, sizes, Latest(old(errorCode), context))
      ensures errorCode == 0 <==> old(errorCode) == 0 && AllSucceed(context) && AllSucceed(made)
      ensures FreeCalls(freed, address, total, errorCode == 0) && (freed != [] && freed[0].err != 0 ==> errorCode == freed[0].err)
      ensures r == (if errorCode == 0 then Allocated(address) else StaleRecord(address)) && address !in old(records)
      ensures address in records && records == old(records)[address := records[address]]
      ensures records[address].size == total && records[address].sizes == sizes && !records[address].asleep
      ensures errorCode == 0 ==> (Coherent(dev, records) <==> Sum(sizes) == total)
      ensures errorCode != 0 ==>
                (dev == start <==> Restores(made, sizes, Latest(old(errorCode), context)) && AllSucceed(freed))
      ensures errorCode != 0 && AllSucceed(freed) ==> !Coherent(dev, records)
    {
      hide Coherent, HandlesOf, MapsOf, Address, Sum, CreateAndMapCalls, Latest, ContextCalls, Restores, MakeCalls;
      hide Positive;
      var unfilled := Record(total, sizes, seq(|sizes|, _ => 0), false);
      NotRecorded(start, records, address, unfilled);
      records := records[address := unfilled];
      var hs;
      hs, context, made := CreateAndMap(address, sizes);
      if errorCode != 0 {
        ghost var mapped := dev;
        var err := AddressFree(address, total);
        if err != 0 {
          errorCode := err;
        }
        freed := [FreeRange(address, total, err)];
        FreedAgain(start, address, total, mapped, err, dev);
        if err == 0 {
          LostRange(dev, records, address);
        }
        return StaleRecord(address), context, made, freed;
      }
      freed := [];
      records := records[address := Record(total, sizes, hs, false)];
      MappedNew(start, old(records), address, total, sizes, hs);
      return Allocated(address), context, made, freed;
    }

    /** python_unmap_and_release, called for an awake allocation: give the memory
        back, free the range and reserve the same range again as a placeholder.
        The record is marked asleep whether or not this succeeds, which is right
        exactly when all the memory was given back and the range is still, or
        again, reserved. */
    method Sleep(address: nat) returns (ok: bool, ghost t: Unmapping, ghost ranges: seq<DriverCall>)
      requires Coherent(dev, records) && address in records && !records[address].asleep
      modifies this
      ensures log == old(log) + t.Calls() + ranges && errorCode == 0
      ensures SleepCalls(t, ranges, old(errorCode), address, old(records)[address])
      ensures ok <==> old(errorCode) == 0 && t.AllWell() && Renewed(ranges, address)
      ensures records == old(records)[address := old(records)[address].(asleep := true)]
      ensures Coherent(dev, records) <==>
                && AllSucceed(t.unmaps) && AllSucceed(t.releases)
                && (ranges == [] || ranges[0].err != 0 || Renewed(ranges, address))
      ensures ok ==> Coherent(dev, records) && dev.reserved == old(dev).reserved
    {
      hide Coherent, Sum, Address, ContextCalls, UnmapsOf, ReleasesOf, Latest, RenewCalls, AllSucceed, Positive, Distinct;
      var record := records[address];
      AwakeRecord(dev, records, address);
      ghost var gone, gone';
      t, gone, gone' := UnmapAndRelease(address, record.sizes, record.hs);
      LatestIsZero(old(errorCode), t.context);
      ghost var unmapped := dev;
      ranges := [];
      if errorCode == 0 {
        ranges := RenewRange(address, record.size);
      }
      ok := errorCode == 0;
      errorCode := 0;
      records := records[address := record.(asleep := true)];
      AsleepIff(old(dev), old(records), address, gone, gone', dev);
    }

    /** Free a range and reserve it again at the same address. */
    method RenewRange(address: nat, size: nat) returns (ghost calls: seq<DriverCall>)
      requires errorCode == 0 && address in dev.reserved && dev.reserved[address] == size
      modifies this`dev, this`errorCode, this`log
      ensures log == old(log) + calls && RenewCalls(calls, address, size) && (errorCode == 0 <==> Renewed(calls, address))
      ensures dev.handles == old(dev).handles && dev.mapped == old(dev).mapped
      ensures if calls[0].err != 0 || errorCode == 0 then dev.reserved == old(dev).reserved else address !in dev.reserved
    {
      var err := AddressFree(address, size);
      calls := [FreeRange(address, size, err)];
      if err != 0 {
        errorCode := err;
        return;
      }
      var reserved;
      ghost var more;
      err, reserved, more := ReserveRocmAddress(size, 0, address);
      calls := calls + [Reserve(reserved, size, 0, address, err)];
      if err != 0 {
        errorCode := err;
      } else if reserved != address {
        var status := AddressFree(reserved, size);
        calls := calls + [FreeRange(reserved, size, status)];
        errorCode := 1;
      } else {
        assert (old(dev).reserved - {address})[address := size] == old(dev).reserved;
      }
    }

    /** python_create_and_map for an allocation asleep: map fresh chunks into the
        placeholder. On a failure the allocation is asleep and the device as before
        if and only if nothing stays behind: the clean-up succeeds, access was not
        refused, and no handle was made with an error pending. */
    method WakeUpAt(address: nat) returns (ok: bool, ghost context: seq<DriverCall>, ghost calls: seq<DriverCall>)
      requires address in records && records[address].asleep && RecordOk(records[address])
      modifies this
      ensures log == old(log) + context + calls && errorCode == 0
      ensures WakeCalls(context, calls, old(errorCode), address, old(records)[address])
      ensures ok <==> old(errorCode) == 0 && AllSucceed(context) && AllSucceed(calls)
      ensures dev.reserved == old(dev).reserved
      ensures ok ==>
                && address in records
                && records == old(records)[address := old(records)[address].(hs := records[address].hs, asleep := false)]
      ensures ok && old(Coherent(dev, records)) ==> Coherent(dev, records)
      ensures !ok ==> records == old(records)
      ensures !ok ==> (dev == old(dev) <==> Restores(calls, records[address].sizes, Latest(old(errorCode), context)))
      ensures !ok && old(Coherent(dev, records)) ==> (Coherent(dev, records) <==> dev == old(dev))
    {
      hide Coherent, Sum, CreateAndMapCalls, Restores, AllSucceed, Latest, ContextCalls, MakeCalls, HandlesOf, MapsOf;
      var record := records[address];
      var hs;
      hs, context, calls := CreateAndMap(address, record.sizes);
      if errorCode != 0 {
        errorCode := 0;
        if old(Coherent(dev, records)) && Coherent(dev, records) {
          OneDevice(dev, old(dev), records);
        }
        return false, context, calls;
      }
      if old(Coherent(dev, records)) {
        WakeUp(old(dev), records, address, hs);
      }
      records := records[address := record.(hs := hs, asleep := false)];
      return true, context, calls;
    }

    /** my_free. The record is dropped first; an allocation asleep has no chunks
        to unmap. The range is freed with the size the caller passes. Dropping the
        record is right exactly when all its memory and its range were given back,
        whatever became of the context or of an earlier error, which stays. */
    method Free(address: nat, size: nat) returns (ghost t: Unmapping, ghost ranges: seq<DriverCall>)
      requires Coherent(dev, records)
      modifies this
      ensures log == old(log) + t.Calls() + ranges
      ensures address !in old(records) ==> dev == old(dev) && records == old(records) && t.Calls() == ranges == []
      ensures address in old(records) ==> records == old(records) - {address}
      ensures address in old(records) ==> FreeingCalls(t, ranges, address, size, old(records)[address])
      ensures errorCode == 0 <==> old(errorCode) == 0 && t.AllWell() && AllSucceed(ranges)
      ensures Coherent(dev, records) <==> AllSucceed(t.unmaps) && AllSucceed(t.releases) && AllSucceed(ranges)
      ensures address in old(records) && AllSucceed(ranges) ==> size == old(records)[address].size
    {
      hide Coherent, Sum, Address, ContextCalls, UnmapsOf, ReleasesOf, Latest, Positive, Distinct;
      t, ranges := Unmapping([], [], []), [];
      if address !in records {
        return;
      }
      var record := records[address];
      RecordedRange(dev, records, address);
      records := records - {address};
      ghost var gone, gone' := {}, {};
      if !record.asleep {
        AwakeRecord(dev, old(records), address);
        t, gone, gone' := UnmapAndRelease(address, record.sizes, record.hs);
      }
      var err := AddressFree(address, size);
      ranges := [FreeRange(address, size, err)];
      if err != 0 {
        errorCode := err;
      }
      assert AllSucceed(ranges) <==> ranges[0].err == 0;
      DroppedIff(old(dev), old(records), address, gone, gone', dev);
    }

    /** A free that fails, even one that gave everything back, leaves its error
        behind. The next wake-up then makes one handle, reports a failure, and the
        handle, when the driver made it, stays live without an owner. */
    method FreeThenWakeUp(address: nat, size: nat, sleeper: nat)
      returns (ok: bool, ghost t: Unmapping, ghost ranges: seq<DriverCall>, ghost context: seq<DriverCall>, ghost calls: seq<DriverCall>)
      requires Coherent(dev, records) && errorCode == 0
      requires address in records && !records[address].asleep && sleeper in records && records[sleeper].asleep
      modifies this
      ensures log == old(log) + t.Calls() + ranges + context + calls
      ensures !AllSucceed(t.context) && AllSucceed(t.unmaps) && AllSucceed(t.releases) && AllSucceed(ranges) ==>
                && !ok && |calls| == 1 && calls[0].Create? && calls[0].size == old(records)[sleeper].sizes[0]
                && (Coherent(dev, records) <==> calls[0].err != 0)
    {
      hide Coherent, Latest, ContextCalls, CreateAndMapCalls, UnmapsOf, ReleasesOf, Cleaned, AccessRefused, Sum;
      assert RecordOk(records[sleeper]) by { RecordedRange(dev, records, sleeper); }
      SumOfNone(records[sleeper]);
      t, ranges := Free(address, size);
      ghost var pending := errorCode;
      ok, context, calls := WakeUpAt(sleeper);
      LatestIsZero(pending, context);
    }

    // ---------- whole runs ----------

    /** One request. Putting to sleep or waking what is not awake or asleep is
        skipped, as the Python side does. It succeeds exactly when the calls it
        makes do. */
    method Serve(request: Request, granularity: U64, baseChunk: U64) returns (ok: bool, ghost t: Trace)
      requires granularity > 0 && baseChunk > 0 && Coherent(dev, records) && errorCode == 0
      requires InRange(request, granularity, baseChunk)
      modifies this
      ensures log == old(log) + t.Calls() && TraceOf(t, request, old(records), granularity, baseChunk)
      ensures ok <==> Succeeds(t, request, granularity, baseChunk)
      ensures ok ==> Coherent(dev, records) && errorCode == 0
      ensures ok ==> forall a :: a in old(records) && !Frees(request, a) ==> KeepsPlace(old(records), a, records)
    {
      hide Coherent, MallocShape, MallocOutcome, SleepCalls, WakeCalls, FreeingCalls, Renewed, AllSucceed, Aligned, Wrap, Latest;
      match request
      case NewRange(size) =>
        ghost var m;
        var r;
        r, m := Malloc(size, granularity, baseChunk);
        ok, t := r.Allocated?, Mallocs(m);
      case SleepAt(address) =>
        ok, t := true, Skipped;
        if address in records && !records[address].asleep {
          ghost var u, ranges;
          ok, u, ranges := Sleep(address);
          t := Sleeps(u, ranges);
        }
      case WakeAt(address) =>
        ok, t := true, Skipped;
        if address in records && records[address].asleep {
          ghost var context, calls;
          RecordedRange(dev, records, address);
          ok, context, calls := WakeUpAt(address);
          t := Wakes(context, calls);
        }
      case FreeAt(address, length) =>
        ghost var u, ranges := Free(address, length);
        ok, t := errorCode == 0, Freeings(u, ranges);
    }

    /** Over every run of requests that report success, the device and the
        records stay coherent, and every allocation not freed keeps its address,
        its range and its chunks. A run stops at the first request whose calls do
        not succeed, and reports success exactly when there is none. */
    method ServeAll(requests: seq<Request>, granularity: U64, baseChunk: U64) returns (ok: bool, ghost ts: seq<Trace>)
      requires granularity > 0 && baseChunk > 0 && Coherent(dev, records) && errorCode == 0
      requires forall i :: 0 <= i < |requests| ==> InRange(requests[i], granularity, baseChunk)
      modifies this
      ensures |ts| <= |requests| && log == old(log) + CallsOf(ts)
      ensures forall i :: 0 <= i < |ts| - 1 ==> Succeeds(ts[i], requests[i], granularity, baseChunk)
      ensures ok ==> |ts| == |requests| && forall i :: 0 <= i < |ts| ==> Succeeds(ts[i], requests[i], granularity, baseChunk)
      ensures !ok ==> |ts| > 0 && !Succeeds(ts[|ts| - 1], requests[|ts| - 1], granularity, baseChunk)
      ensures exists history :: History(history, old(records), ts, requests, granularity, baseChunk)
      ensures ok ==> Coherent(dev, records) && errorCode == 0
      ensures ok ==> forall a :: a in old(records) && (forall i :: 0 <= i < |requests| ==> !Frees(requests[i], a)) ==>
                       KeepsPlace(old(records), a, records)
    {
      hide Coherent, TraceOf, Succeeds, InRange, History, CallsOf;
      ok, ts := true, [];
      NoHistory(records, requests, granularity, baseChunk);
      ghost var history := [records];
      for i := 0 to |requests|
        invariant ok && Coherent(dev, records) && errorCode == 0 && |ts| == i
        invariant log == old(log) + CallsOf(ts)
        invariant forall j :: 0 <= j < i ==> Succeeds(ts[j], requests[j], granularity, baseChunk)
        invariant |history| == i + 1 && history[i] == records
        invariant History(history, old(records), ts, requests, granularity, baseChunk)
        invariant forall a :: a in old(records) && (forall j :: 0 <= j < i ==> !Frees(requests[j], a)) ==>
                    KeepsPlace(old(records), a, records)
      {
        ghost var t;
        ok, t := Serve(requests[i], granularity, baseChunk);
        LongerHistory(history, old(records), ts, requests, granularity, baseChunk, t, records);
        ts, history := ts + [t], history + [records];
        if !ok {
          return;
        }
      }
    }
  }

  // ---------- the shapes of whole calls ----------

  /** The range is freed unless everything went well. */
  ghost predicate FreeCalls(calls: seq<DriverCall>, address: nat, size: nat, ok: bool) {
    if ok then calls == [] else |calls| == 1 && calls[0] == FreeRange(address, size, calls[0].err)
  }

  /** The calls of my_malloc, with what they yielded: the address and status of the
      reservation, and the sizes of the chunks. */
  datatype MallocCalls = MallocCalls(context: seq<DriverCall>, granularity: int,
                                     address: nat, status: int, reserving: seq<DriverCall>,
                                     sizes: seq<nat>, mapContext: seq<DriverCall>, made: seq<DriverCall>, freed: seq<DriverCall>) {
    ghost function Calls(): seq<DriverCall> {
      context + [Granularity(granularity)] + reserving + mapContext + made + freed
    }

    /** The context was ensured and the granularity found, with no error before. */
    ghost predicate Prepared(code: int) {
      code == 0 && AllSucceed(context) && granularity == 0
    }
  }

  ghost predicate MallocShape(t: MallocCalls, code: int, total: nat, granularity: nat, baseChunk: nat) {
    && ContextCalls(t.context)
    && (if t.Prepared(code) then ReserveCalls(t.reserving, t.address, total, granularity, 0, t.status) else t.reserving == [])
    && (if t.Prepared(code) && Reserves(t.reserving) && baseChunk + granularity - 1 < TWO_64
        then && ContextCalls(t.mapContext) && MakeCalls(t.made, t.address, t.sizes, Latest(0, t.mapContext))
             && FreeCalls(t.freed, t.address, total, AllSucceed(t.mapContext) && AllSucceed(t.made))
        else t.mapContext == t.made == t.freed == [])
  }

  ghost function MallocOutcome(t: MallocCalls, code: int, granularity: nat, baseChunk: nat): MallocResult {
    if !t.Prepared(code) || !Reserves(t.reserving) then NoMemory
    else if baseChunk + granularity - 1 >= TWO_64 then Crashed
    else if AllSucceed(t.mapContext) && AllSucceed(t.made) then Allocated(t.address)
    else StaleRecord(t.address)
  }

  lemma NothingReserved()
    ensures !Reserves([]) && Cleaned([])
  {
  }

  ghost predicate SleepCalls(t: Unmapping, ranges: seq<DriverCall>, code: int, address: nat, record: Record) {
    && UnmappingCalls(t, address, record.sizes, record.hs)
    && if code == 0 && t.AllWell() then RenewCalls(ranges, address, record.size) else ranges == []
  }

  ghost predicate WakeCalls(context: seq<DriverCall>, calls: seq<DriverCall>, code: int, address: nat, record: Record) {
    ContextCalls(context) && MakeCalls(calls, address, record.sizes, Latest(code, context))
  }

  ghost predicate FreeingCalls(t: Unmapping, ranges: seq<DriverCall>, address: nat, size: nat, record: Record) {
    && (if record.asleep then t == Unmapping([], [], []) else UnmappingCalls(t, address, record.sizes, record.hs))
    && |ranges| == 1 && ranges[0] == FreeRange(address, size, ranges[0].err)
  }

  datatype Trace =
    | Skipped
    | Mallocs(m: MallocCalls)
    | Sleeps(u: Unmapping, ranges: seq<DriverCall>)
    | Wakes(context: seq<DriverCall>, calls: seq<DriverCall>)
    | Freeings(u: Unmapping, ranges: seq<DriverCall>)
  {
    ghost function Calls(): seq<DriverCall> {
      match this
      case Skipped => []
      case Mallocs(m) => m.Calls()
      case Sleeps(u, ranges) => u.Calls() + ranges
      case Wakes(context, calls) => context + calls
      case Freeings(u, ranges) => u.Calls() + ranges
    }
  }

  /** The calls are those the request makes, with these records and no error before. */
  ghost predicate TraceOf(t: Trace, request: Request, records: map<nat, Record>, granularity: U64, baseChunk: U64)
    requires granularity > 0
  {
    match request
    case NewRange(size) =>
      t.Mallocs? && MallocShape(t.m, 0, Aligned(Wrap(size), granularity), granularity, baseChunk)
    case SleepAt(address) =>
      if address in records && !records[address].asleep
      then t.Sleeps? && SleepCalls(t.u, t.ranges, 0, address, records[address]) else t.Skipped?
    case WakeAt(address) =>
      if address in records && records[address].asleep
      then t.Wakes? && WakeCalls(t.context, t.calls, 0, address, records[address]) else t.Skipped?
    case FreeAt(address, length) =>
      t.Freeings? && if address in records then FreeingCalls(t.u, t.ranges, address, length, records[address]) else t.Calls() == []
  }

  /** ... and the driver granted them; a range put to sleep came back at its address. */
  ghost predicate Succeeds(t: Trace, request: Request, granularity: nat, baseChunk: nat) {
    match t
    case Skipped => true
    case Mallocs(m) => MallocOutcome(m, 0, granularity, baseChunk).Allocated?
    case Sleeps(u, ranges) => request.SleepAt? && u.AllWell() && Renewed(ranges, request.address)
    case Wakes(context, calls) => AllSucceed(context) && AllSucceed(calls)
    case Freeings(u, ranges) => u.AllWell() && AllSucceed(ranges)
  }

  ghost function CallsOf(ts: seq<Trace>): seq<DriverCall> {
    if ts == [] then [] else CallsOf(ts[..|ts| - 1]) + ts[|ts| - 1].Calls()
  }

  /** The records before each request and at the end, each request making its calls. */
  ghost predicate History(history: seq<map<nat, Record>>, records: map<nat, Record>, ts: seq<Trace>, requests: seq<Request>,
                          granularity: U64, baseChunk: U64)
    requires granularity > 0
  {
    && |history| == |ts| + 1 && |ts| <= |requests| && history[0] == records
    && forall i :: 0 <= i < |ts| ==> TraceOf(ts[i], requests[i], history[i], granularity, baseChunk)
  }

  lemma NoHistory(records: map<nat, Record>, requests: seq<Request>, granularity: U64, baseChunk: U64)
    requires granularity > 0
    ensures History([records], records, [], requests, granularity, baseChunk) && CallsOf([]) == []
  {
  }

  lemma LongerHistory(history: seq<map<nat, Record>>, records: map<nat, Record>, ts: seq<Trace>, requests: seq<Request>,
                      granularity: U64, baseChunk: U64, t: Trace, after: map<nat, Record>)
    requires granularity > 0 && History(history, records, ts, requests, granularity, baseChunk) && |ts| < |requests|
    requires TraceOf(t, requests[|ts|], history[|ts|], granularity, baseChunk)
    ensures History(history + [after], records, ts + [t], requests, granularity, baseChunk)
    ensures CallsOf(ts + [t]) == CallsOf(ts) + t.Calls()
  {
    hide TraceOf, CallsOf;
    MoreCalls(ts, t);
  }

  lemma MoreCalls(ts: seq<Trace>, t: Trace)
    ensures CallsOf(ts + [t]) == CallsOf(ts) + t.Calls()
  {
    assert (ts + [t])[..|ts|] == ts;
  }

  datatype Request = NewRange(size: SSize) | SleepAt(address: nat) | WakeAt(address: nat) | FreeAt(address: nat, length: nat)

  /** The last sum that the chunk planning does not guard stays inside 64 bits. */
  predicate InRange(request: Request, granularity: U64, baseChunk: U64)
    requires granularity > 0
  {
    request.NewRange? ==> Aligned(Wrap(request.size), granularity) + Aligned(baseChunk, granularity) - 1 < TWO_64
  }

  predicate Frees(request: Request, a: nat) {
    request.FreeAt? && request.address == a
  }

  predicate KeepsPlace(records: map<nat, Record>, a: nat, records': map<nat, Record>)
    requires a in records
  {
    a in records' && records'[a].size == records[a].size && records'[a].sizes == records[a].sizes
  }

  lemma RefusalConcat(calls: seq<DriverCall>, more: seq<DriverCall>)
    requires !AccessRefused(calls)
    ensures AccessRefused(calls + more) <==> AccessRefused(more)
  {
    if AccessRefused(more) {
      var i :| 0 <= i < |more| && more[i].SetAccess? && more[i].err != 0;
      assert (calls + more)[|calls| + i] == more[i];
    }
    assert forall i :: 0 <= i < |calls| ==> (calls + more)[i] == calls[i];
  }

  lemma ReservesIff(calls: seq<DriverCall>, address: nat, size: nat, alignment: nat, hint: nat, err: int)
    requires ReserveCalls(calls, address, size, alignment, hint, err)
    ensures Reserves(calls) <==> err == 0
  {
  }

  lemma NotRecorded(dev: Device, records: map<nat, Record>, a: nat, r: Record)
    requires Coherent(dev, records) && a !in dev.reserved
    ensures a !in records && !Coherent(dev, records[a := r])
  {
    assert a in records[a := r].Keys;
  }

  lemma BadRecord(dev: Device, records: map<nat, Record>, a: nat)
    requires a in records && !RecordOk(records[a])
    ensures !Coherent(dev, records)
  {
  }

  lemma MappedNew(dev: Device, records: map<nat, Record>, a: nat, total: nat, sizes: seq<nat>, hs: seq<nat>)
    requires Coherent(dev, records) && CanReserve(dev, a, total) && Positive(sizes) && |hs| == |sizes|
    requires NewHandles(dev, hs) && NewAddresses(dev, a, sizes, |sizes|)
    ensures Coherent(WithChunks(dev.(reserved := dev.reserved[a := total]), a, sizes, hs),
                     records[a := Record(total, sizes, hs, false)])
            <==> Sum(sizes) == total
  {
    hide Coherent, HandlesOf, MapsOf, Sum, Address;
    var r := Record(total, sizes, hs, true);
    var dev1 := dev.(reserved := dev.reserved[a := total]);
    var records' := records[a := Record(total, sizes, hs, false)];
    if Sum(sizes) == total {
      AddAsleep(dev, records, a, r);
      WakeUp(dev1, records[a := r], a, hs);
      assert records[a := r][a := r.(asleep := false)] == records';
    } else {
      BadRecord(WithChunks(dev1, a, sizes, hs), records', a);
    }
  }

  datatype MallocResult = NoMemory | Crashed | StaleRecord(address: nat) | Allocated(address: nat)

  /** A fresh, nonempty range that overlaps no reserved one. */
  predicate CanReserve(dev: Device, address: nat, size: nat) {
    && size > 0 && address !in dev.reserved
    && forall b :: b in dev.reserved ==> address + size <= b || b + dev.reserved[b] <= address
  }

  lemma NoHandles(dev: Device, sizes: seq<nat>)
    ensures NewHandles(dev, []) && dev.handles + HandlesOf(sizes, [], 0) == dev.handles
  {
  }

  lemma HandleAdded(dev: Device, sizes: seq<nat>, hs: seq<nat>, h: nat)
    requires |hs| < |sizes| && NewHandles(dev, hs) && h !in dev.handles + HandlesOf(sizes, hs, |hs|)
    ensures NewHandles(dev, hs + [h])
    ensures dev.handles + HandlesOf(sizes, hs + [h], |hs| + 1) == (dev.handles + HandlesOf(sizes, hs, |hs|))[h := sizes[|hs|]]
  {
    HandlesOfPrefix(sizes, hs, hs + [h], |hs|);
    HandlesOfKeys(sizes, hs, |hs|, h);
  }

  lemma NoMaps(dev: Device, base: nat, sizes: seq<nat>, hs: seq<nat>)
    ensures dev.mapped + MapsOf(base, sizes, hs, 0) == dev.mapped && Address(base, sizes, 0) == base
  {
  }

  lemma MapAdded(mapped: map<nat, (nat, nat)>, base: nat, sizes: seq<nat>, hs: seq<nat>, i: nat)
    requires i < |sizes| == |hs|
    ensures mapped + MapsOf(base, sizes, hs, i + 1)
         == (mapped + MapsOf(base, sizes, hs, i))[Address(base, sizes, i) := (sizes[i], hs[i])]
  {
  }

  lemma {:induction false} HandlesOfPrefix(sizes: seq<nat>, hs: seq<nat>, hs': seq<nat>, n: nat)
    requires n <= |sizes| && n <= |hs| && hs <= hs'
    ensures HandlesOf(sizes, hs, n) == HandlesOf(sizes, hs', n)
  {
    if n > 0 {
      HandlesOfPrefix(sizes, hs, hs', n - 1);
    }
  }

  /** A handle that could not be released keeps the device different. */
  lemma HandlesStuck(handles: map<nat, nat>, sizes: seq<nat>, hs: seq<nat>, gone: set<nat>)
    requires |hs| <= |sizes| && forall i :: 0 <= i < |hs| ==> hs[i] !in handles
    ensures forall i :: 0 <= i < |hs| && hs[i] !in gone ==>
              hs[i] in handles + HandlesOf(sizes, hs, |hs|) - gone && handles + HandlesOf(sizes, hs, |hs|) - gone != handles
  {
    forall i | 0 <= i < |hs| && hs[i] !in gone
      ensures hs[i] in handles + HandlesOf(sizes, hs, |hs|) - gone
    {
      HandlesOfKeys(sizes, hs, |hs|, hs[i]);
    }
  }

  lemma MapsStuck(mapped: map<nat, (nat, nat)>, base: nat, sizes: seq<nat>, hs: seq<nat>, n: nat, gone: set<nat>)
    requires n <= |sizes| && n <= |hs| && forall i :: 0 <= i < n ==> Address(base, sizes, i) !in mapped
    ensures forall i :: 0 <= i < n && Address(base, sizes, i) !in gone ==>
              && Address(base, sizes, i) in mapped + MapsOf(base, sizes, hs, n) - gone
              && mapped + MapsOf(base, sizes, hs, n) - gone != mapped
  {
    forall i | 0 <= i < n && Address(base, sizes, i) !in gone
      ensures Address(base, sizes, i) in mapped + MapsOf(base, sizes, hs, n) - gone
    {
      MapsOfKeys(base, sizes, hs, n, Address(base, sizes, i));
    }
  }

  lemma NotYetGone(base: nat, sizes: seq<nat>, i: nat, gone: set<nat>)
    requires i < |sizes| && gone <= AddressSet(base, sizes, i)
    ensures Positive(sizes) ==> Address(base, sizes, i) !in gone
  {
    if Positive(sizes) {
      forall k | 0 <= k < i ensures Address(base, sizes, k) != Address(base, sizes, i) {
        AddressesDiffer(base, sizes, k, i);
      }
    }
  }
}
