/**
 * The slots of a cuckoo primary-key index as a value, and the map they stand for.
 */
module CuckooTable {
  import opened Common
  type Key = seq<bv8>

  const BUCKET_SIZE := 8
  const NUM_HASHES := 4
  const STASH_SIZE := 4
  const EMPTY_SIGNATURE := 0
  const MIN_SIGNATURE := 1
  // Probes of one key: every slot of its buckets, then the stash.
  const BUCKET_PROBES := 32
  const PROBES := 36

  // One cell of a bucket; signature 0 marks it empty.
  datatype Slot = Slot(signature: nat, eventTime: nat, key: Key, value: RecordID)

  // What the index stores under a key.
  datatype Item = Item(value: RecordID, eventTime: nat)

  type Sum32 = (Key, nat) -> nat

  function BucketOf(sum: Sum32, seeds: seq<nat>, n: nat, key: Key, h: nat): (b: nat)
    requires |seeds| == NUM_HASHES && h < NUM_HASHES && n > 0
    ensures b < n
  {
    sum(key, seeds[h]) % n
  }

  // The most significant byte of the 32-bit hash, kept away from the empty mark.
  function SignatureOf(sum: Sum32, seeds: seq<nat>, key: Key, h: nat): (s: nat)
    requires |seeds| == NUM_HASHES && h < NUM_HASHES
    ensures s >= MIN_SIGNATURE
  {
    var s := sum(key, seeds[h]) / 0x100_0000;
    if s < MIN_SIGNATURE then MIN_SIGNATURE else s
  }

  predicate Expired(hasTime: bool, cutoff: nat, eventTime: nat) {
    hasTime && cutoff > eventTime
  }

  // Buckets 0 .. n-1, then the stash, of which only the first slots are used.
  datatype Table = Table(sum: Sum32, hasTime: bool, cutoff: nat, n: nat, seeds: seq<nat>, slots: seq<Slot>) {
    ghost predicate Shaped() {
      n > 0 && |seeds| == NUM_HASHES && |slots| == BUCKET_SIZE * (n + 1)
    }

    ghost function Used(): nat {
      BUCKET_SIZE * n + STASH_SIZE
    }

    ghost predicate Live(p: nat)
      requires p < |slots|
    {
      slots[p].signature != EMPTY_SIGNATURE && !Expired(hasTime, cutoff, slots[p].eventTime)
    }

    ghost function ItemAt(p: nat): Item
      requires p < |slots|
    {
      Item(slots[p].value, if hasTime then slots[p].eventTime else 0)
    }

    // Where probe t of a key looks.
    ghost function ProbePos(key: Key, t: nat): (p: nat)
      requires Shaped() && t < PROBES
      ensures p < Used() && (t < BUCKET_PROBES <==> p < BUCKET_SIZE * n)
    {
      if t < BUCKET_PROBES then BUCKET_SIZE * BucketOf(sum, seeds, n, key, t / BUCKET_SIZE) + t % BUCKET_SIZE
      else BUCKET_SIZE * n + (t - BUCKET_PROBES)
    }

    // Probe t finds the key, expired or not. The stash ignores signatures.
    ghost predicate HoldsAt(key: Key, t: nat)
      requires Shaped() && t < PROBES
    {
      var s := slots[ProbePos(key, t)];
      && s.signature != EMPTY_SIGNATURE && s.key == key
      && (t < BUCKET_PROBES ==> s.signature == SignatureOf(sum, seeds, key, t / BUCKET_SIZE))
    }

    ghost predicate Reached(p: nat, t: nat)
      requires Shaped() && p < |slots|
    {
      t < BUCKET_PROBES && ProbePos(slots[p].key, t) == p
      && SignatureOf(sum, seeds, slots[p].key, t / BUCKET_SIZE) == slots[p].signature
    }

    // Every entry of a bucket is where one of its key's probes looks for it.
    ghost predicate AllReached()
      requires Shaped()
    {
      forall p :: 0 <= p < BUCKET_SIZE * n && slots[p].signature != EMPTY_SIGNATURE ==> exists t :: Reached(p, t)
    }

    // `pos` gives the one live slot of every key the index holds.
    ghost predicate Indexed(pos: map<Key, nat>)
      requires Shaped()
    {
      && (forall k :: k in pos ==> pos[k] < Used() && Live(pos[k]) && slots[pos[k]].key == k)
      && (forall p :: 0 <= p < Used() && Live(p) ==> slots[p].key in pos && pos[slots[p].key] == p)
    }

    // Probe t finds the key alive.
    ghost predicate FindsAt(key: Key, t: nat)
      requires Shaped() && t < PROBES
    {
      HoldsAt(key, t) && Live(ProbePos(key, t))
    }

    // Expired leftovers of a stored key are only found after its live entry.
    ghost predicate LiveFirst(pos: map<Key, nat>)
      requires Shaped()
    {
      forall k, t :: k in pos && 0 <= t < PROBES && HoldsAt(k, t) ==> exists i :: 0 <= i <= t && FindsAt(k, i)
    }

    ghost predicate Consistent(pos: map<Key, nat>) {
      Shaped() && Indexed(pos) && AllReached() && LiveFirst(pos)
    }

    ghost function View(pos: map<Key, nat>): (m: map<Key, Item>)
      requires Consistent(pos)
      ensures m.Keys == pos.Keys
    {
      map k | k in pos :: ItemAt(pos[k])
    }

    // Every bucket slot the key may go to holds an unexpired entry.
    ghost predicate Full(key: Key)
      requires Shaped()
    {
      forall t :: 0 <= t < BUCKET_PROBES ==> Live(ProbePos(key, t))
    }

    // Every stash slot holds an unexpired entry.
    ghost predicate StashFull()
      requires Shaped()
    {
      forall p :: BUCKET_SIZE * n <= p < Used() ==> Live(p)
    }

    ghost function Put(p: nat, s: Slot): Table
      requires p < |slots|
    {
      this.(slots := slots[p := s])
    }
  }

  lemma {:induction false} ViewIs(t: Table, pos: map<Key, nat>, m: map<Key, Item>)
    requires t.Consistent(pos) && m.Keys == pos.Keys
    requires forall k :: k in pos ==> m[k] == t.ItemAt(pos[k])
    ensures t.View(pos) == m
  {
    hide Table.AllReached, Table.LiveFirst;
  }

  lemma {:induction false} EmptyTable(t: Table)
    requires t.Shaped() && forall p :: 0 <= p < |t.slots| ==> t.slots[p].signature == EMPTY_SIGNATURE
    ensures t.Consistent(map[]) && t.View(map[]) == map[]
    ensures Occupied(t.slots, 0, BUCKET_SIZE * t.n) == 0
    ensures Occupied(t.slots, BUCKET_SIZE * t.n, t.Used()) == 0
  {
    OccupiedNone(t.slots, 0, BUCKET_SIZE * t.n);
    OccupiedNone(t.slots, BUCKET_SIZE * t.n, t.Used());
  }

  // ------------------------------------------------------------- searching

  // A live slot found by a probe is the key's slot.
  lemma {:induction false} ProbeFinds(t: Table, pos: map<Key, nat>, key: Key, i: nat)
    requires t.Consistent(pos) && i < PROBES && t.HoldsAt(key, i) && t.Live(t.ProbePos(key, i))
    ensures key in pos && pos[key] == t.ProbePos(key, i)
  {
  }

  // A key no probe finds alive is not in the index.
  lemma {:induction false} ProbesMiss(t: Table, pos: map<Key, nat>, key: Key)
    requires t.Consistent(pos)
    requires forall i :: 0 <= i < PROBES ==> !(t.HoldsAt(key, i) && t.Live(t.ProbePos(key, i)))
    ensures key !in pos
  {
    if key in pos {
      var p := pos[key];
      if p < BUCKET_SIZE * t.n {
        var i :| t.Reached(p, i);
        assert t.HoldsAt(key, i);
      } else {
        var i := BUCKET_PROBES + (p - BUCKET_SIZE * t.n);
        assert t.ProbePos(key, i) == p;
        assert t.HoldsAt(key, i);
      }
      assert false;
    }
  }

  // ------------------------------------------------------------ one update

  // A new entry may take probe i's slot with this signature.
  ghost predicate Fits(t: Table, s: Slot, i: nat)
    requires t.Shaped() && i < PROBES
  {
    && !Expired(t.hasTime, t.cutoff, s.eventTime)
    && s.signature == if i < BUCKET_PROBES then SignatureOf(t.sum, t.seeds, s.key, i / BUCKET_SIZE) else MIN_SIGNATURE
  }

  ghost function SlotItem(t: Table, s: Slot): Item {
    Item(s.value, if t.hasTime then s.eventTime else 0)
  }

  // Entries that keep their key and signature stay reachable.
  lemma {:induction false} StillReached(t: Table, u: Table)
    requires t.Shaped() && t.AllReached() && u == t.(slots := u.slots, cutoff := u.cutoff) && |u.slots| == |t.slots|
    requires forall q :: 0 <= q < BUCKET_SIZE * t.n && u.slots[q].signature != EMPTY_SIGNATURE
                         ==> u.slots[q].signature == t.slots[q].signature && u.slots[q].key == t.slots[q].key
    ensures u.AllReached()
  {
    forall q | 0 <= q < BUCKET_SIZE * t.n && u.slots[q].signature != EMPTY_SIGNATURE
      ensures exists j :: u.Reached(q, j)
    {
      var j :| t.Reached(q, j);
      assert u.Reached(q, j);
    }
  }

  lemma {:induction false} PutReached(t: Table, p: nat, s: Slot, i: nat)
    requires t.Shaped() && t.AllReached() && i < PROBES && Fits(t, s, i) && p == t.ProbePos(s.key, i)
    ensures t.Put(p, s).AllReached()
  {
    var u := t.Put(p, s);
    forall q | 0 <= q < BUCKET_SIZE * t.n && u.slots[q].signature != EMPTY_SIGNATURE
      ensures exists j :: u.Reached(q, j)
    {
      if q == p {
        assert u.Reached(q, i);
      } else {
        var j :| t.Reached(q, j);
        assert u.Reached(q, j);
      }
    }
  }

  // Before probe i, all slots the key may go to hold unexpired entries.
  ghost predicate TakenBefore(t: Table, key: Key, i: nat)
    requires t.Shaped() && i <= PROBES
  {
    forall j :: 0 <= j < i ==> t.Live(t.ProbePos(key, j))
  }

  lemma {:induction false} LiveProbe(t: Table, pos: map<Key, nat>, key: Key, j: nat) returns (i: nat)
    requires t.Shaped() && t.LiveFirst(pos) && key in pos && j < PROBES && t.HoldsAt(key, j)
    ensures i <= j && t.FindsAt(key, i)
  {
    hide Table.HoldsAt, Table.FindsAt, Table.Live, Table.ProbePos;
    i :| 0 <= i <= j && t.FindsAt(key, i);
  }

  // A key whose slot kept its place and is not the one written is still found alive.
  lemma {:induction false} StillFinds(t: Table, u: Table, p: nat, key: Key, i: nat)
    requires t.Shaped() && p < |t.slots| && i < PROBES && |u.slots| == |t.slots| && u == t.Put(p, u.slots[p])
             && t.ProbePos(key, i) != p
    ensures u.FindsAt(key, i) == t.FindsAt(key, i) && u.HoldsAt(key, i) == t.HoldsAt(key, i)
  {
  }

  // A key other than that of a slot's old entry, if alive, and of its new one.
  lemma {:induction false} PutOther(t: Table, pos: map<Key, nat>, p: nat, s: Slot, key: Key, j: nat)
    requires t.Consistent(pos) && p < |t.slots| && j < PROBES && key in pos && pos[key] != p
    requires s.signature != EMPTY_SIGNATURE ==> s.key != key
    requires t.Put(p, s).HoldsAt(key, j)
    ensures exists i :: 0 <= i <= j && t.Put(p, s).FindsAt(key, i)
  {
    var u := t.Put(p, s);
    assert u.ProbePos(key, j) == t.ProbePos(key, j) != p;
    StillFinds(t, u, p, key, j);
    var i :| 0 <= i <= j && t.FindsAt(key, i);
    StillFinds(t, u, p, key, i);
  }

  // An entry put into a slot alive keeps the rule, if the key's earlier probes
  // look at live slots or, for a probe of a bucket, all its buckets are full.
  lemma {:induction false} PutLiveFirst(t: Table, pos: map<Key, nat>, s: Slot, i: nat, rest: map<Key, nat>)
    requires t.Consistent(pos) && s.key !in pos && i < PROBES && Fits(t, s, i)
    requires TakenBefore(t, s.key, i) || (i < BUCKET_PROBES && t.Full(s.key))
    requires rest.Keys <= pos.Keys && forall k :: k in rest ==> rest[k] == pos[k] != t.ProbePos(s.key, i)
    ensures var p := t.ProbePos(s.key, i); t.Put(p, s).LiveFirst(rest[s.key := p])
  {
    var p := t.ProbePos(s.key, i);
    var u := t.Put(p, s);
    forall k, j | k in rest[s.key := p] && 0 <= j < PROBES && u.HoldsAt(k, j)
      ensures exists h :: 0 <= h <= j && u.FindsAt(k, h)
    {
      if k != s.key {
        PutOther(t, pos, p, s, k, j);
      } else {
        assert u.FindsAt(k, i) by {
          assert u.ProbePos(k, i) == p;
        }
        if j < i {
          assert u.ProbePos(k, j) == t.ProbePos(k, j);
          assert u.FindsAt(k, j);
        }
      }
    }
  }

  // Writing an absent key over its first empty or expired slot adds it to the map.
  lemma {:induction false} PutFree(t: Table, pos: map<Key, nat>, s: Slot, i: nat)
    requires t.Consistent(pos) && s.key !in pos && i < PROBES && Fits(t, s, i)
    requires !t.Live(t.ProbePos(s.key, i)) && TakenBefore(t, s.key, i)
    ensures var p := t.ProbePos(s.key, i); var u := t.Put(p, s);
            && u.Consistent(pos[s.key := p])
            && u.View(pos[s.key := p]) == t.View(pos)[s.key := SlotItem(t, s)]
  {
    var p := t.ProbePos(s.key, i);
    PutReached(t, p, s, i);
    PutLiveFirst(t, pos, s, i, pos);
    hide Table.AllReached, Table.LiveFirst;
    var u := t.Put(p, s);
    assert u.Indexed(pos[s.key := p]);
    hide Table.Indexed, Table.Live;
    ViewIs(u, pos[s.key := p], t.View(pos)[s.key := SlotItem(t, s)]);
  }

  // Swapping an absent key whose buckets are full with one of their entries
  // leaves that entry out.
  lemma {:induction false} PutEvict(t: Table, pos: map<Key, nat>, s: Slot, i: nat)
    requires t.Consistent(pos) && s.key !in pos && i < BUCKET_PROBES && Fits(t, s, i) && t.Full(s.key)
    ensures var p := t.ProbePos(s.key, i); var u := t.Put(p, s); var out := t.slots[p];
            && out.key in pos && out.key != s.key
            && u.Consistent((pos - {out.key})[s.key := p])
            && u.View((pos - {out.key})[s.key := p]) == (t.View(pos) - {out.key})[s.key := SlotItem(t, s)]
            && t.View(pos)[out.key] == SlotItem(t, out)
  {
    var p := t.ProbePos(s.key, i);
    PutReached(t, p, s, i);
    assert t.Live(p);
    PutLiveFirst(t, pos, s, i, pos - {t.slots[p].key});
    hide Table.AllReached, Table.LiveFirst, Table.Full;
    var u, out := t.Put(p, s), t.slots[p];
    assert u.Indexed((pos - {out.key})[s.key := p]);
    ViewIs(u, (pos - {out.key})[s.key := p], (t.View(pos) - {out.key})[s.key := SlotItem(t, s)]);
  }

  // Only record IDs differ.
  ghost predicate SameEntries(t: Table, u: Table) {
    && u == t.(slots := u.slots) && |u.slots| == |t.slots|
    && forall p :: 0 <= p < |t.slots| ==> u.slots[p] == t.slots[p].(value := u.slots[p].value)
  }

  lemma {:induction false} SameFinds(t: Table, u: Table, key: Key, i: nat)
    requires t.Shaped() && SameEntries(t, u) && i < PROBES
    ensures u.HoldsAt(key, i) == t.HoldsAt(key, i) && u.FindsAt(key, i) == t.FindsAt(key, i)
  {
  }

  // Entries that stay as they are, but for the record ID, are still found.
  lemma {:induction false} SameLiveFirst(t: Table, pos: map<Key, nat>, u: Table)
    requires t.Shaped() && t.LiveFirst(pos) && SameEntries(t, u)
    ensures u.LiveFirst(pos)
  {
    hide Table.HoldsAt, Table.FindsAt, Table.Live, Table.ProbePos;
    forall k, j | k in pos && 0 <= j < PROBES && u.HoldsAt(k, j)
      ensures exists i :: 0 <= i <= j && u.FindsAt(k, i)
    {
      SameFinds(t, u, k, j);
      var i := LiveProbe(t, pos, k, j);
      SameFinds(t, u, k, i);
    }
  }

  // Overwriting the record ID of a key's slot.
  lemma {:induction false} PutValue(t: Table, pos: map<Key, nat>, key: Key, value: RecordID)
    requires t.Consistent(pos) && key in pos
    ensures var u := t.Put(pos[key], t.slots[pos[key]].(value := value));
            && u.Consistent(pos)
            && u.View(pos) == t.View(pos)[key := Item(value, t.View(pos)[key].eventTime)]
  {
    var p := pos[key];
    var u := t.Put(p, t.slots[p].(value := value));
    StillReached(t, u);
    SameLiveFirst(t, pos, u);
    hide Table.AllReached, Table.LiveFirst;
    assert u.Indexed(pos);
    ViewIs(u, pos, t.View(pos)[key := Item(value, t.View(pos)[key].eventTime)]);
  }

  lemma {:induction false} EmptyLiveFirst(t: Table, pos: map<Key, nat>, p: nat, rest: map<Key, nat>)
    requires t.Consistent(pos) && p < t.Used()
    requires rest.Keys <= pos.Keys && forall k :: k in rest ==> rest[k] == pos[k] != p
    ensures t.Put(p, t.slots[p].(signature := EMPTY_SIGNATURE)).LiveFirst(rest)
  {
    var s := t.slots[p].(signature := EMPTY_SIGNATURE);
    forall k, j | k in rest && 0 <= j < PROBES && t.Put(p, s).HoldsAt(k, j)
      ensures exists i :: 0 <= i <= j && t.Put(p, s).FindsAt(k, i)
    {
      PutOther(t, pos, p, s, k, j);
    }
  }

  // Marking a slot empty removes the key it was the live slot of, if any.
  lemma {:induction false} PutEmpty(t: Table, pos: map<Key, nat>, p: nat)
    requires t.Consistent(pos) && p < t.Used()
    ensures var u := t.Put(p, t.slots[p].(signature := EMPTY_SIGNATURE));
            var gone := if t.Live(p) then {t.slots[p].key} else {};
            && u.Consistent(pos - gone)
            && u.View(pos - gone) == t.View(pos) - gone
  {
    var u := t.Put(p, t.slots[p].(signature := EMPTY_SIGNATURE));
    var gone := if t.Live(p) then {t.slots[p].key} else {};
    StillReached(t, u);
    EmptyLiveFirst(t, pos, p, pos - gone);
    hide Table.AllReached, Table.LiveFirst;
    assert u.Indexed(pos - gone);
    ViewIs(u, pos - gone, t.View(pos) - gone);
  }

  // ----------------------------------------------------------------- expiry

  ghost function Unexpired(hasTime: bool, cutoff: nat, m: map<Key, Item>): map<Key, Item> {
    map k | k in m && !Expired(hasTime, cutoff, m[k].eventTime) :: m[k]
  }

  ghost function KeptPos(t: Table, cutoff: nat, pos: map<Key, nat>): map<Key, nat>
    requires t.Consistent(pos)
  {
    map k | k in pos && !Expired(t.hasTime, cutoff, t.slots[pos[k]].eventTime) :: pos[k]
  }

  lemma {:induction false} RaisedFinds(t: Table, pos: map<Key, nat>, cutoff: nat, key: Key, j: nat) returns (i: nat)
    requires t.Consistent(pos) && t.cutoff <= cutoff && key in KeptPos(t, cutoff, pos)
    requires j < PROBES && t.(cutoff := cutoff).HoldsAt(key, j)
    ensures i <= j && t.(cutoff := cutoff).FindsAt(key, i)
  {
    hide Table.LiveFirst, Table.AllReached, Table.Indexed;
    assert t.HoldsAt(key, j);
    i := LiveProbe(t, pos, key, j);
    ProbeFinds(t, pos, key, i);
  }

  lemma {:induction false} RaisedLiveFirst(t: Table, pos: map<Key, nat>, cutoff: nat)
    requires t.Consistent(pos) && t.cutoff <= cutoff
    ensures t.(cutoff := cutoff).LiveFirst(KeptPos(t, cutoff, pos))
  {
    hide Table.Indexed, Table.AllReached, Table.HoldsAt, Table.FindsAt, Table.Live, Table.ProbePos, KeptPos;
    var u, kept := t.(cutoff := cutoff), KeptPos(t, cutoff, pos);
    forall k, j | k in kept && 0 <= j < PROBES && u.HoldsAt(k, j)
      ensures exists i :: 0 <= i <= j && u.FindsAt(k, i)
    {
      var i := RaisedFinds(t, pos, cutoff, k, j);
    }
  }

  // The first probe that holds a key the index stores finds it alive.
  lemma {:induction false} FirstIsLive(t: Table, pos: map<Key, nat>, key: Key, i: nat)
    requires t.Consistent(pos) && i < PROBES && t.HoldsAt(key, i) && forall j :: 0 <= j < i ==> !t.HoldsAt(key, j)
    ensures key in pos <==> t.Live(t.ProbePos(key, i))
  {
    hide Table.LiveFirst, Table.AllReached, Table.Indexed;
    if key in pos {
      var j := LiveProbe(t, pos, key, i);
    } else {
      if t.Live(t.ProbePos(key, i)) {
        ProbeFinds(t, pos, key, i);
      }
    }
  }

  // Raising the cutoff drops exactly the keys whose event time is now too old.
  lemma {:induction false} RaiseCutoff(t: Table, pos: map<Key, nat>, cutoff: nat)
    requires t.Consistent(pos) && t.cutoff <= cutoff
    ensures var u := t.(cutoff := cutoff); var kept := KeptPos(t, cutoff, pos);
            u.Consistent(kept) && u.View(kept) == Unexpired(t.hasTime, cutoff, t.View(pos))
  {
    var u, kept := t.(cutoff := cutoff), KeptPos(t, cutoff, pos);
    StillReached(t, u);
    RaisedLiveFirst(t, pos, cutoff);
    hide Table.AllReached, Table.LiveFirst;
    assert u.Indexed(kept);
    ViewIs(u, kept, Unexpired(t.hasTime, cutoff, t.View(pos)));
  }

  // --------------------------------------------------------------- counting

  ghost function Occupied(slots: seq<Slot>, lo: nat, hi: nat): (c: nat)
    requires lo <= hi <= |slots|
    decreases hi - lo
  {
    if lo == hi then 0
    else Occupied(slots, lo, hi - 1) + (if slots[hi - 1].signature != EMPTY_SIGNATURE then 1 else 0)
  }

  lemma {:induction false} OccupiedPut(slots: seq<Slot>, lo: nat, hi: nat, p: nat, s: Slot)
    requires lo <= hi <= |slots| && p < |slots|
    ensures Occupied(slots[p := s], lo, hi) ==
            Occupied(slots, lo, hi)
            + (if lo <= p < hi && slots[p].signature == EMPTY_SIGNATURE && s.signature != EMPTY_SIGNATURE then 1 else 0)
            - (if lo <= p < hi && slots[p].signature != EMPTY_SIGNATURE && s.signature == EMPTY_SIGNATURE then 1 else 0)
    decreases hi - lo
  {
    if lo < hi {
      OccupiedPut(slots, lo, hi - 1, p, s);
    }
  }

  lemma {:induction false} OccupiedNone(slots: seq<Slot>, lo: nat, hi: nat)
    requires lo <= hi <= |slots| && forall p :: lo <= p < hi ==> slots[p].signature == EMPTY_SIGNATURE
    ensures Occupied(slots, lo, hi) == 0
    decreases hi - lo
  {
    if lo < hi {
      OccupiedNone(slots, lo, hi - 1);
    }
  }

  // ---------------------------------------------------------------- rebuild

  // The entries of the first q slots.
  ghost function ViewUpTo(t: Table, pos: map<Key, nat>, q: nat): map<Key, Item>
    requires t.Consistent(pos)
  {
    map k | k in pos && pos[k] < q :: t.ItemAt(pos[k])
  }

  lemma {:induction false} ViewUpToStep(t: Table, pos: map<Key, nat>, q: nat)
    requires t.Consistent(pos) && q < t.Used()
    ensures !t.Live(q) ==> ViewUpTo(t, pos, q + 1) == ViewUpTo(t, pos, q)
    ensures t.Live(q) ==> t.slots[q].key !in ViewUpTo(t, pos, q)
                          && ViewUpTo(t, pos, q + 1) == ViewUpTo(t, pos, q)[t.slots[q].key := t.ItemAt(q)]
  {
    hide Table.AllReached, Table.LiveFirst;
    forall k | k in pos ensures pos[k] == q <==> t.Live(q) && k == t.slots[q].key {
    }
  }

  lemma {:induction false} ViewUpToAll(t: Table, pos: map<Key, nat>)
    requires t.Consistent(pos)
    ensures ViewUpTo(t, pos, 0) == map[]
    ensures ViewUpTo(t, pos, t.Used()) == t.View(pos)
  {
    hide Table.AllReached, Table.LiveFirst;
  }

  lemma {:induction false} NothingExpired(t: Table, pos: map<Key, nat>)
    requires t.Consistent(pos)
    ensures Unexpired(t.hasTime, t.cutoff, t.View(pos)) == t.View(pos)
  {
    hide Table.AllReached, Table.LiveFirst;
  }

  function Log2(n: nat): (l: nat)
    requires n > 0
  {
    if n == 1 then 0 else 1 + Log2(n / 2)
  }
}
