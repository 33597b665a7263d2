/**
 * The cuckoo hash index from primary keys to record IDs: lookups, eviction
 * chains, the stash, the staging entry, lazy expiry and rebuilding.
 */
module Cuckoo {
  import opened Common
  import opened CuckooTable

  datatype Entry = Entry(key: Key, value: RecordID, eventTime: nat)

  // The entry an eviction chain ended with when even the stash was full.
  datatype Staging = NoStaging | Staged(entry: Entry)

  datatype Outcome = Stale | Found(existing: RecordID) | Inserted(inserted: RecordID) | Unfinished

  // The two counters are the numbers of used slots in the buckets and the stash.
  ghost predicate CountsOccupied(slots: seq<Slot>, n: nat, inBuckets: nat, inStash: nat) {
    && |slots| == BUCKET_SIZE * (n + 1)
    && inBuckets == Occupied(slots, 0, BUCKET_SIZE * n)
    && inStash == Occupied(slots, BUCKET_SIZE * n, BUCKET_SIZE * n + STASH_SIZE)
  }

  class CuckooIndex {
    const sum32: Sum32
    const hasEventTime: bool
    var eventTimeCutoff: nat
    var numBuckets: nat
    var seeds: seq<nat>
    var slots: array<Slot>
    var staging: Staging
    var numBucketEntries: nat
    var numStashEntries: nat
    var maxTrials: nat
    // Where each key's live entry is.
    ghost var pos: map<Key, nat>

    ghost function T(): Table
      reads this, slots
    {
      Table(sum32, hasEventTime, eventTimeCutoff, numBuckets, seeds, slots[..])
    }

    ghost predicate Counted()
      reads this`slots, this`numBuckets, this`numBucketEntries, this`numStashEntries, slots
    {
      CountsOccupied(slots[..], numBuckets, numBucketEntries, numStashEntries)
    }

    // Holds inside an insertion too, when one entry may be in staging.
    ghost predicate Inv()
      reads this, slots
    {
      && T().Consistent(pos) && Counted()
      && (staging.Staged? ==> Insertable(staging.entry))
    }

    // Holds between operations.
    ghost predicate Valid()
      reads this, slots
    {
      Inv() && staging.NoStaging?
    }

    // The map from unexpired keys to record IDs (with their event times).
    ghost function View(): map<Key, Item>
      reads this, slots
      requires Inv()
    {
      if staging.NoStaging? then T().View(pos)
      else T().View(pos)[staging.entry.key := ItemOf(staging.entry)]
    }

    ghost function ItemOf(e: Entry): Item {
      Item(e.value, if hasEventTime then e.eventTime else 0)
    }

    // The entry's key is not stored and its event time is not too old.
    ghost predicate Insertable(e: Entry)
      reads this`pos, this`eventTimeCutoff
    {
      e.key !in pos && !Expired(hasEventTime, eventTimeCutoff, e.eventTime)
    }

    constructor (sum: Sum32, hasTime: bool, initNumBuckets: nat, hashSeeds: seq<nat>)
      requires initNumBuckets > 0 && |hashSeeds| == NUM_HASHES
      ensures sum32 == sum && hasEventTime == hasTime && eventTimeCutoff == 0
      ensures fresh(slots) && IsEmpty()
    {
      sum32, hasEventTime := sum, hasTime;
      eventTimeCutoff, numBuckets, seeds := 0, initNumBuckets, hashSeeds;
      slots := new Slot[BUCKET_SIZE * (initNumBuckets + 1)](_ => Slot(EMPTY_SIGNATURE, 0, [], RecordID(0, 0)));
      staging := NoStaging;
      numBucketEntries, numStashEntries := 0, 0;
      maxTrials := (1 + Log2(initNumBuckets)) * 2;
      pos := map[];
    }

    // As constructed: no slot is used.
    ghost predicate IsEmpty()
      reads this, slots
    {
      && T().Shaped() && pos == map[] && staging.NoStaging?
      && numBucketEntries == 0 && numStashEntries == 0
      && forall p :: 0 <= p < slots.Length ==> slots[p].signature == EMPTY_SIGNATURE
    }

    // A new index is valid and stands for the empty map.
    lemma {:induction false} EmptyIsValid()
      requires IsEmpty()
      ensures Valid() && View() == map[]
    {
      EmptyTable(T());
      hide Occupied, Table.Indexed, Table.AllReached, Table.LiveFirst, Table.View;
    }

    lemma {:induction false} CountedPut(p: nat, s: Slot)
      requires Counted() && p < slots.Length
      ensures Occupied(slots[..][p := s], 0, BUCKET_SIZE * numBuckets) == numBucketEntries
              + (if p < BUCKET_SIZE * numBuckets && slots[p].signature == EMPTY_SIGNATURE
                 && s.signature != EMPTY_SIGNATURE then 1 else 0)
              - (if p < BUCKET_SIZE * numBuckets && slots[p].signature != EMPTY_SIGNATURE
                 && s.signature == EMPTY_SIGNATURE then 1 else 0)
      ensures var e := BUCKET_SIZE * numBuckets;
              Occupied(slots[..][p := s], e, e + STASH_SIZE) == numStashEntries
              + (if e <= p < e + STASH_SIZE && slots[p].signature == EMPTY_SIGNATURE
                 && s.signature != EMPTY_SIGNATURE then 1 else 0)
              - (if e <= p < e + STASH_SIZE && slots[p].signature != EMPTY_SIGNATURE
                 && s.signature == EMPTY_SIGNATURE then 1 else 0)
    {
      OccupiedPut(slots[..], 0, BUCKET_SIZE * numBuckets, p, s);
      OccupiedPut(slots[..], BUCKET_SIZE * numBuckets, BUCKET_SIZE * numBuckets + STASH_SIZE, p, s);
    }

    // The first probe that finds the key, skipping expired entries on request.
    method Search(key: Key, skipExpired: bool) returns (found: bool, p: nat, ghost t: nat)
      requires Inv()
      ensures found ==> t < PROBES && p == T().ProbePos(key, t) && T().HoldsAt(key, t) && (skipExpired ==> T().Live(p))
      ensures !found ==> t == PROBES
      ensures forall i :: 0 <= i < t ==> !(T().HoldsAt(key, i) && (skipExpired ==> T().Live(T().ProbePos(key, i))))
    {
      hide Table.Indexed, Table.AllReached, Table.LiveFirst;
      var h := 0;
      while h < NUM_HASHES
        invariant 0 <= h <= NUM_HASHES
        invariant forall i :: 0 <= i < BUCKET_SIZE * h ==>
                    !(T().HoldsAt(key, i) && (skipExpired ==> T().Live(T().ProbePos(key, i))))
      {
        var b := BucketOf(sum32, seeds, numBuckets, key, h);
        var signature := SignatureOf(sum32, seeds, key, h);
        var i := 0;
        while i < BUCKET_SIZE
          invariant 0 <= i <= BUCKET_SIZE
          invariant forall j :: 0 <= j < BUCKET_SIZE * h + i ==>
                      !(T().HoldsAt(key, j) && (skipExpired ==> T().Live(T().ProbePos(key, j))))
        {
          p := BUCKET_SIZE * b + i;
          t := BUCKET_SIZE * h + i;
          assert t / BUCKET_SIZE == h && t % BUCKET_SIZE == i && T().ProbePos(key, t) == p;
          var s := slots[p];
          if !(skipExpired && Expired(hasEventTime, eventTimeCutoff, s.eventTime)) && s.signature == signature
             && s.key == key {
            return true, p, t;
          }
          i := i + 1;
        }
        h := h + 1;
      }
      var i := 0;
      while i < STASH_SIZE
        invariant 0 <= i <= STASH_SIZE
        invariant forall j :: 0 <= j < BUCKET_PROBES + i ==>
                    !(T().HoldsAt(key, j) && (skipExpired ==> T().Live(T().ProbePos(key, j))))
      {
        p := BUCKET_SIZE * numBuckets + i;
        t := BUCKET_PROBES + i;
        assert T().ProbePos(key, t) == p;
        var s := slots[p];
        if s.signature != EMPTY_SIGNATURE && !(skipExpired && Expired(hasEventTime, eventTimeCutoff, s.eventTime))
           && s.key == key {
          return true, p, t;
        }
        i := i + 1;
      }
      return false, 0, PROBES;
    }

    method Find(key: Key) returns (recordID: RecordID, found: bool)
      requires Valid()
      ensures found <==> key in View()
      ensures found ==> recordID == View()[key].value
    {
      var p;
      ghost var t;
      found, p, t := Search(key, true);
      if found {
        ProbeFinds(T(), pos, key, t);
        recordID := slots[p].value;
      } else {
        ProbesMiss(T(), pos, key);
        recordID := RecordID(0, 0);
      }
    }

    method Update(key: Key, value: RecordID) returns (found: bool)
      requires Valid()
      modifies slots
      ensures Valid()
      ensures found <==> key in old(View())
      ensures View() == if found then old(View())[key := Item(value, old(View())[key].eventTime)] else old(View())
    {
      hide Table.Indexed, Table.AllReached, Table.LiveFirst, Table.View, Occupied;
      var p;
      ghost var t;
      found, p, t := Search(key, true);
      if found {
        ProbeFinds(T(), pos, key, t);
        PutValue(T(), pos, key, value);
        CountedPut(p, slots[p].(value := value));
        slots[p] := slots[p].(value := value);
        assert T() == old(T()).Put(p, old(slots[p]).(value := value));
      } else {
        ProbesMiss(T(), pos, key);
      }
    }

    // Empties the first slot found to hold the key, expired or not. A stored
    // key's live entry comes first, so the key always leaves the map.
    method Delete(key: Key)
      requires Valid()
      modifies this, slots
      ensures Valid() && slots == old(slots) && eventTimeCutoff == old(eventTimeCutoff)
      ensures View() == old(View()) - {key}
    {
      hide Table.Indexed, Table.AllReached, Table.LiveFirst, Table.View, Occupied;
      var hit, p;
      ghost var t;
      hit, p, t := Search(key, false);
      ghost var before := T();
      if hit {
        FirstIsLive(before, pos, key, t);
        assert before.slots[p].key == key;
        hide Table.HoldsAt, Table.ProbePos;
        var s := slots[p].(signature := EMPTY_SIGNATURE);
        PutEmpty(T(), pos, p);
        CountedPut(p, s);
        ghost var gone := if before.Live(p) then {key} else {};
        assert before.View(pos) - gone == before.View(pos) - {key};
        pos := pos - gone;
        if p < BUCKET_SIZE * numBuckets {
          numBucketEntries := numBucketEntries - 1;
        } else {
          numStashEntries := numStashEntries - 1;
        }
        slots[p] := s;
        assert T() == before.Put(p, s);
      } else {
        ProbesMiss(before, pos, key);
        assert View() == old(View()) - {key};
      }
    }

    // Expiry is lazy: raising the cutoff removes the older keys from the map.
    method UpdateEventTimeCutoff(cutoff: nat)
      requires Valid()
      modifies this`eventTimeCutoff, this`pos
      ensures eventTimeCutoff == cutoff
      ensures old(eventTimeCutoff) <= cutoff ==> Valid() && View() == Unexpired(hasEventTime, cutoff, old(View()))
    {
      hide Table.Indexed, Table.AllReached, Table.LiveFirst, Table.View, Occupied;
      if eventTimeCutoff <= cutoff {
        RaiseCutoff(T(), pos, cutoff);
        pos := KeptPos(T(), cutoff, pos);
      }
      eventTimeCutoff := cutoff;
      assert T() == old(T()).(cutoff := cutoff);
    }

    // Writes an absent key into its first empty or expired slot, which probe t of it looks at.
    method InsertBucket(s: Slot, p: nat, ghost t: nat)
      requires Inv() && s.key !in pos && t < PROBES && p == T().ProbePos(s.key, t) && Fits(T(), s, t) && !T().Live(p)
      requires staging.NoStaging? && TakenBefore(T(), s.key, t)
      modifies this`pos, this`numBucketEntries, this`numStashEntries, slots
      ensures Valid() && View() == old(View())[s.key := SlotItem(T(), s)]
    {
      hide Table.Indexed, Table.AllReached, Table.LiveFirst, Table.View, Occupied, Table.Live, TakenBefore;
      var u := if hasEventTime then s else s.(eventTime := slots[p].eventTime);
      PutFree(T(), pos, u, t);
      CountedPut(p, u);
      pos := pos[s.key := p];
      if slots[p].signature == EMPTY_SIGNATURE {
        if p < BUCKET_SIZE * numBuckets {
          numBucketEntries := numBucketEntries + 1;
        } else {
          numStashEntries := numStashEntries + 1;
        }
      }
      slots[p] := u;
      assert T() == old(T()).Put(p, u);
    }

    // Takes the first empty or expired slot among the key's buckets.
    method AddNew(e: Entry) returns (added: bool)
      requires Valid() && Insertable(e)
      modifies this`pos, this`numBucketEntries, this`numStashEntries, slots
      ensures Valid()
      ensures added ==> View() == old(View())[e.key := ItemOf(e)]
      ensures !added ==> T() == old(T()) && pos == old(pos) && T().Full(e.key)
    {
      hide Table.Indexed, Table.AllReached, Table.LiveFirst, Table.View, Occupied;
      var h := 0;
      while h < NUM_HASHES
        invariant 0 <= h <= NUM_HASHES && unchanged(this) && unchanged(slots)
        invariant forall t :: 0 <= t < BUCKET_SIZE * h ==> T().Live(T().ProbePos(e.key, t))
      {
        var b := BucketOf(sum32, seeds, numBuckets, e.key, h);
        var signature := SignatureOf(sum32, seeds, e.key, h);
        var i := 0;
        while i < BUCKET_SIZE
          invariant 0 <= i <= BUCKET_SIZE && unchanged(this) && unchanged(slots)
          invariant forall t :: 0 <= t < BUCKET_SIZE * h + i ==> T().Live(T().ProbePos(e.key, t))
        {
          var p := BUCKET_SIZE * b + i;
          ghost var t := BUCKET_SIZE * h + i;
          assert t / BUCKET_SIZE == h && t % BUCKET_SIZE == i && T().ProbePos(e.key, t) == p;
          if slots[p].signature == EMPTY_SIGNATURE || Expired(hasEventTime, eventTimeCutoff, slots[p].eventTime) {
            InsertBucket(Slot(signature, e.eventTime, e.key, e.value), p, t);
            return true;
          }
          i := i + 1;
        }
        h := h + 1;
      }
      return false;
    }

    // Looks for the key everywhere, remembering the first free bucket slot to
    // put it in when it is nowhere.
    method Probe(key: Key) returns (existing: bool, recordID: RecordID, free: int, freeSignature: nat,
        ghost freeProbe: nat)
      requires Valid()
      ensures existing <==> key in View()
      ensures existing ==> recordID == View()[key].value
      ensures !existing ==> FreeSlot(key, BUCKET_PROBES, free, freeSignature, freeProbe)
    {
      hide Table.Indexed, Table.AllReached, Table.LiveFirst, Occupied, Missed, FreeSlot, CountsOccupied;
      recordID, free, freeSignature, freeProbe := RecordID(0, 0), -1, 0, 0;
      NothingProbed(key);
      var h := 0;
      while h < NUM_HASHES
        invariant 0 <= h <= NUM_HASHES
        invariant Missed(key, BUCKET_SIZE * h) && FreeSlot(key, BUCKET_SIZE * h, free, freeSignature, freeProbe)
      {
        var b := BucketOf(sum32, seeds, numBuckets, key, h);
        var signature := SignatureOf(sum32, seeds, key, h);
        var i := 0;
        while i < BUCKET_SIZE
          invariant 0 <= i <= BUCKET_SIZE
          invariant Missed(key, BUCKET_SIZE * h + i)
                    && FreeSlot(key, BUCKET_SIZE * h + i, free, freeSignature, freeProbe)
        {
          var p := BUCKET_SIZE * b + i;
          ghost var t := BUCKET_SIZE * h + i;
          assert t / BUCKET_SIZE == h && t % BUCKET_SIZE == i && T().ProbePos(key, t) == p;
          if slots[p].signature == EMPTY_SIGNATURE || Expired(hasEventTime, eventTimeCutoff, slots[p].eventTime) {
            if free < 0 {
              NoneFree(key, t, free, freeSignature, freeProbe);
              FreeFound(key, t);
              free, freeSignature, freeProbe := p, signature, t;
            } else {
              FreeKept(key, t, free, freeSignature, freeProbe);
            }
          } else if slots[p].signature == signature && slots[p].key == key {
            ProbeFinds(T(), pos, key, t);
            existing, recordID := true, slots[p].value;
            return;
          } else {
            FreeKept(key, t, free, freeSignature, freeProbe);
          }
          OneMoreMissed(key, t);
          i := i + 1;
        }
        h := h + 1;
      }
      var i := 0;
      while i < STASH_SIZE
        invariant 0 <= i <= STASH_SIZE
        invariant Missed(key, BUCKET_PROBES + i)
      {
        var p := BUCKET_SIZE * numBuckets + i;
        assert T().ProbePos(key, BUCKET_PROBES + i) == p;
        if !Expired(hasEventTime, eventTimeCutoff, slots[p].eventTime) && slots[p].signature != EMPTY_SIGNATURE
           && slots[p].key == key {
          ProbeFinds(T(), pos, key, BUCKET_PROBES + i);
          existing, recordID := true, slots[p].value;
          return;
        }
        OneMoreMissed(key, BUCKET_PROBES + i);
        i := i + 1;
      }
      AllMissed(key);
      existing := false;
    }

    lemma {:induction false} NothingProbed(key: Key)
      requires T().Shaped()
      ensures Missed(key, 0) && FreeSlot(key, 0, -1, 0, 0)
    {
    }

    lemma {:induction false} OneMoreMissed(key: Key, n: nat)
      requires T().Shaped() && n < PROBES && Missed(key, n) && !(T().HoldsAt(key, n) && T().Live(T().ProbePos(key, n)))
      ensures Missed(key, n + 1)
    {
    }

    lemma {:induction false} AllMissed(key: Key)
      requires T().Consistent(pos) && Missed(key, PROBES)
      ensures key !in pos
    {
      ProbesMiss(T(), pos, key);
    }

    lemma {:induction false} NoneFree(key: Key, n: nat, free: int, signature: nat, t: nat)
      requires T().Shaped() && n <= BUCKET_PROBES && FreeSlot(key, n, free, signature, t) && free < 0
      ensures FreeSlot(key, n, -1, 0, 0)
    {
    }

    lemma {:induction false} FreeFound(key: Key, n: nat)
      requires T().Shaped() && n < BUCKET_PROBES && FreeSlot(key, n, -1, 0, 0) && !T().Live(T().ProbePos(key, n))
      ensures FreeSlot(key, n + 1, T().ProbePos(key, n), SignatureOf(sum32, seeds, key, n / BUCKET_SIZE), n)
    {
    }

    lemma {:induction false} FreeKept(key: Key, n: nat, free: int, signature: nat, t: nat)
      requires T().Shaped() && n < BUCKET_PROBES && FreeSlot(key, n, free, signature, t)
      requires free >= 0 || T().Live(T().ProbePos(key, n))
      ensures FreeSlot(key, n + 1, free, signature, t)
    {
    }

    method FindOrAddNew(e: Entry) returns (existingFound: bool, added: bool, recordID: RecordID)
      requires Valid() && !Expired(hasEventTime, eventTimeCutoff, e.eventTime)
      modifies this`pos, this`numBucketEntries, this`numStashEntries, slots
      ensures Valid()
      ensures existingFound <==> e.key in old(View())
      ensures existingFound ==> recordID == old(View())[e.key].value
      ensures added ==> !existingFound && recordID == e.value && View() == old(View())[e.key := ItemOf(e)]
      ensures !added ==> T() == old(T()) && pos == old(pos)
      ensures !added && !existingFound ==> T().Full(e.key)
    {
      hide Table.Indexed, Table.AllReached, Table.LiveFirst, Occupied;
      var free, freeSignature;
      ghost var freeProbe;
      existingFound, recordID, free, freeSignature, freeProbe := Probe(e.key);
      added := false;
      if !existingFound && free >= 0 {
        InsertBucket(Slot(freeSignature, e.eventTime, e.key, e.value), free, freeProbe);
        added, recordID := true, e.value;
      }
    }

    // The first n probes find no live entry of the key.
    ghost predicate Missed(key: Key, n: nat)
      requires T().Shaped() && n <= PROBES
      reads this, slots
    {
      forall t :: 0 <= t < n ==> !(T().HoldsAt(key, t) && T().Live(T().ProbePos(key, t)))
    }

    // `free` is the first slot among n probes that holds no live entry, or -1.
    ghost predicate FreeSlot(key: Key, n: nat, free: int, signature: nat, t: nat)
      requires T().Shaped() && n <= BUCKET_PROBES
      reads this, slots
    {
      if free < 0 then TakenBefore(T(), key, n)
      else
        && t < n && TakenBefore(T(), key, t) && free == T().ProbePos(key, t) && !T().Live(free)
        && signature == SignatureOf(sum32, seeds, key, t / BUCKET_SIZE)
    }

    // Swaps the entry with a randomly chosen one of its key's bucket slots.
    method RandomSwap(e: Entry) returns (out: Entry)
      requires Valid() && Insertable(e) && T().Full(e.key)
      modifies this`pos, slots
      ensures Valid() && Insertable(out)
      ensures View()[out.key := ItemOf(out)] == old(View())[e.key := ItemOf(e)]
    {
      hide Table.Indexed, Table.AllReached, Table.LiveFirst, Occupied, Table.View;
      var h :| 0 <= h < NUM_HASHES;
      var i :| 0 <= i < BUCKET_SIZE;
      var p := BUCKET_SIZE * BucketOf(sum32, seeds, numBuckets, e.key, h) + i;
      ghost var t := BUCKET_SIZE * h + i;
      assert t / BUCKET_SIZE == h && t % BUCKET_SIZE == i && T().ProbePos(e.key, t) == p;
      var was := slots[p];
      var s := Slot(SignatureOf(sum32, seeds, e.key, h),
                    if hasEventTime then e.eventTime else was.eventTime, e.key, e.value);
      out := Entry(was.key, was.value, if hasEventTime then was.eventTime else e.eventTime);
      PutEvict(T(), pos, s, t);
      CountedPut(p, s);
      pos := (pos - {out.key})[e.key := p];
      slots[p] := s;
      assert T() == old(T()).Put(p, s);
      assert View() == (old(View()) - {out.key})[e.key := ItemOf(e)];
      assert View()[out.key := ItemOf(out)] == old(View())[e.key := ItemOf(e)];
    }

    // Evicts and re-inserts until some entry finds a free slot, then tries the
    // stash; the entry left over goes to staging.
    method CuckooAdd(e: Entry) returns (ok: bool)
      requires Valid() && Insertable(e) && T().Full(e.key)
      modifies this`pos, this`numBucketEntries, this`numStashEntries, this`staging, slots
      ensures Inv() && (ok ==> staging.NoStaging?) && (!ok ==> T().StashFull())
      ensures View() == old(View())[e.key := ItemOf(e)]
    {
      hide Table.Indexed, Table.AllReached, Table.LiveFirst, Table.View, Occupied, Table.Live, Counted, Table.StashFull;
      var carried := e;
      var trial := 0;
      while trial < maxTrials
        invariant Valid() && Insertable(carried) && T().Full(carried.key)
        invariant View()[carried.key := ItemOf(carried)] == old(View())[e.key := ItemOf(e)]
      {
        hide Table.Full;
        carried := RandomSwap(carried);
        var added := AddNew(carried);
        if added {
          return true;
        }
        trial := trial + 1;
      }
      var stashed := AddToStash(carried);
      if stashed {
        return true;
      }
      staging := Staged(carried);
      return false;
    }

    method AddToStash(e: Entry) returns (added: bool)
      requires Valid() && Insertable(e) && T().Full(e.key)
      modifies this`pos, this`numBucketEntries, this`numStashEntries, slots
      ensures Valid()
      ensures added ==> View() == old(View())[e.key := ItemOf(e)]
      ensures !added ==> T() == old(T()) && pos == old(pos) && T().StashFull()
    {
      hide Table.Indexed, Table.AllReached, Table.LiveFirst, Table.View, Occupied;
      var i := 0;
      while i < STASH_SIZE
        invariant 0 <= i <= STASH_SIZE && unchanged(this) && unchanged(slots)
        invariant forall p :: BUCKET_SIZE * numBuckets <= p < BUCKET_SIZE * numBuckets + i ==> T().Live(p)
      {
        var p := BUCKET_SIZE * numBuckets + i;
        assert T().ProbePos(e.key, BUCKET_PROBES + i) == p;
        if slots[p].signature == EMPTY_SIGNATURE || Expired(hasEventTime, eventTimeCutoff, slots[p].eventTime) {
          InsertBucket(Slot(MIN_SIGNATURE, e.eventTime, e.key, e.value), p, BUCKET_PROBES + i);
          return true;
        }
        i := i + 1;
      }
      return false;
    }

    // Inserts without looking for an existing entry.
    method Insert(e: Entry) returns (ok: bool)
      requires Valid() && Insertable(e)
      modifies this`pos, this`numBucketEntries, this`numStashEntries, this`staging, slots
      ensures Inv() && (ok ==> staging.NoStaging?)
      ensures View() == old(View())[e.key := ItemOf(e)]
    {
      ok := AddNew(e);
      if !ok {
        ok := CuckooAdd(e);
      }
    }

    // Rebuilds a larger index under new seeds from the unexpired entries and
    // the staged one. A failed attempt changes nothing.
    method Resize(factor: nat) returns (ok: bool)
      requires Inv()
      modifies this
      ensures Inv() && (ok ==> staging.NoStaging?)
      ensures View() == old(View()) && eventTimeCutoff == old(eventTimeCutoff)
      ensures slots == old(slots) || fresh(slots)
    {
      hide Table.Indexed, Table.AllReached, Table.LiveFirst, Table.View, Occupied, Table.Live, Counted;
      var s0: nat, s1: nat, s2: nat, s3: nat := *, *, *, *;
      var growth: nat := numBuckets * factor / 5;
      var newIndex := new CuckooIndex(sum32, hasEventTime, numBuckets + growth, [s0, s1, s2, s3]);
      newIndex.EmptyIsValid();
      ok := CopyEntries(newIndex);
      if ok && staging.Staged? {
        assert newIndex.pos.Keys == pos.Keys;
        ok := newIndex.Insert(staging.entry);
      }
      if !ok {
        return false;
      }
      Adopt(newIndex);
    }

    // Inserts every unexpired entry, bucket by bucket and then the stash.
    method CopyEntries(newIndex: CuckooIndex) returns (ok: bool)
      requires Inv() && newIndex.Valid() && newIndex != this && newIndex.slots != slots
      requires newIndex.hasEventTime == hasEventTime && newIndex.eventTimeCutoff == 0 && newIndex.View() == map[]
      modifies newIndex, newIndex.slots
      ensures newIndex.slots == old(newIndex.slots) && newIndex.eventTimeCutoff == 0
      ensures newIndex.Inv() && (ok ==> newIndex.Valid() && newIndex.View() == T().View(pos))
    {
      hide Table.Indexed, Table.AllReached, Table.LiveFirst, Table.View, Occupied, Table.Live, Counted, ViewUpTo;
      ghost var table, where := T(), pos;
      ViewUpToAll(table, where);
      var i := 0;
      while i < numBuckets + 1
        invariant 0 <= i <= numBuckets + 1
        invariant newIndex.Valid() && newIndex.slots == old(newIndex.slots) && newIndex.eventTimeCutoff == 0
        invariant newIndex.View() == ViewUpTo(table, where, if i <= numBuckets then BUCKET_SIZE * i else table.Used())
      {
        var numElements := if i == numBuckets then STASH_SIZE else BUCKET_SIZE;
        var j := 0;
        while j < numElements
          invariant 0 <= j <= numElements
          invariant newIndex.Valid() && newIndex.slots == old(newIndex.slots) && newIndex.eventTimeCutoff == 0
          invariant newIndex.View() == ViewUpTo(table, where, BUCKET_SIZE * i + j)
        {
          var q := BUCKET_SIZE * i + j;
          ok := CopyEntry(newIndex, q);
          if !ok {
            return false;
          }
          j := j + 1;
        }
        i := i + 1;
      }
      ok := true;
    }

    method CopyEntry(newIndex: CuckooIndex, q: nat) returns (ok: bool)
      requires Inv() && newIndex.Valid() && newIndex != this && newIndex.slots != slots && q < T().Used()
      requires newIndex.hasEventTime == hasEventTime && newIndex.eventTimeCutoff == 0
      requires newIndex.View() == ViewUpTo(T(), pos, q)
      modifies newIndex`pos, newIndex`numBucketEntries, newIndex`numStashEntries, newIndex`staging, newIndex.slots
      ensures newIndex.Inv() && (ok ==> newIndex.Valid() && newIndex.View() == ViewUpTo(T(), pos, q + 1))
    {
      hide Table.Indexed, Table.AllReached, Table.LiveFirst, Table.View, Occupied, Counted, ViewUpTo;
      ViewUpToStep(T(), pos, q);
      ok := true;
      if slots[q].signature != EMPTY_SIGNATURE && !Expired(hasEventTime, eventTimeCutoff, slots[q].eventTime) {
        ok := newIndex.Insert(Entry(slots[q].key, slots[q].value, slots[q].eventTime));
      }
    }

    // Takes over the new index's storage.
    method Adopt(newIndex: CuckooIndex)
      requires Inv() && newIndex.Valid() && newIndex != this
      requires newIndex.hasEventTime == hasEventTime && newIndex.sum32 == sum32 && newIndex.eventTimeCutoff == 0
      requires newIndex.View() == View()
      modifies this
      ensures Valid() && View() == old(View()) && eventTimeCutoff == old(eventTimeCutoff) && slots == newIndex.slots
    {
      hide Table.Indexed, Table.AllReached, Table.LiveFirst, Table.View, Occupied, Table.Live, Unexpired, KeptPos,
           Table.Shaped, CountsOccupied;
      ghost var table, goal := newIndex.T(), View();
      RaiseCutoff(table, newIndex.pos, eventTimeCutoff);
      ViewUnexpired();
      assert Unexpired(hasEventTime, eventTimeCutoff, table.View(newIndex.pos)) == goal;
      numBuckets, seeds, slots, staging := newIndex.numBuckets, newIndex.seeds, newIndex.slots, newIndex.staging;
      numBucketEntries, numStashEntries := newIndex.numBucketEntries, newIndex.numStashEntries;
      maxTrials := newIndex.maxTrials;
      pos := KeptPos(table, eventTimeCutoff, newIndex.pos);
      assert T() == table.(cutoff := eventTimeCutoff);
      assert T().View(pos) == goal;
    }

    lemma {:induction false} ViewUnexpired()
      requires Inv()
      ensures Unexpired(hasEventTime, eventTimeCutoff, View()) == View()
    {
      NothingExpired(T(), pos);
    }

    // The refinement of a map: stale times are refused, a present key gives its
    // record ID and changes nothing, an absent key is added. Rebuilding is tried
    // at most `attempts` times; running out loses no entry.
    method FindOrInsert(key: Key, value: RecordID, eventTime: nat, attempts: nat) returns (r: Outcome)
      requires Valid()
      modifies this, slots
      ensures Inv() && eventTimeCutoff == old(eventTimeCutoff)
      ensures slots == old(slots) || fresh(slots)
      ensures r.Stale? <==> eventTimeCutoff > eventTime
      ensures r.Stale? ==> Valid() && View() == old(View())
      ensures r.Found? <==> eventTimeCutoff <= eventTime && key in old(View())
      ensures r.Found? ==> Valid() && View() == old(View()) && r.existing == View()[key].value
      ensures r.Inserted? ==> Valid() && r.inserted == value
      ensures r.Inserted? || r.Unfinished? ==>
                View() == old(View())[key := Item(value, if hasEventTime then eventTime else 0)]
    {
      hide Table.Indexed, Table.AllReached, Table.LiveFirst, Table.View, Occupied, Table.Live, Counted;
      if eventTimeCutoff > eventTime {
        return Stale;
      }
      var e := Entry(key, value, eventTime);
      var existingFound, added, recordID := FindOrAddNew(e);
      if existingFound {
        return Found(recordID);
      }
      if added {
        return Inserted(recordID);
      }
      var ok := CuckooAdd(e);
      ghost var goal := old(View())[key := ItemOf(e)];
      var i := 1;
      while !ok && i <= attempts
        invariant Inv() && View() == goal && eventTimeCutoff == old(eventTimeCutoff) && (ok ==> staging.NoStaging?)
        invariant slots == old(slots) || fresh(slots)
        decreases attempts - i
      {
        ok := Resize(i);
        i := i + 1;
      }
      return if ok then Inserted(value) else Unfinished;
    }
  }
}
