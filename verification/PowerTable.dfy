/** The open-addressing table of the power-history model: linear probing, no deletions
    (esp32/main/power_history.c). */
module PowerTable {
  import opened BigEndian
  import opened PowerCell

  const CAPACITY := 4096

  /** A table entry; a free one has constellation 255. */
  datatype Slot = Slot(key: Key, cell: Cell)

  predicate Free(s: Slot) { s.key.gnss == UINT8_MAX }

  const FREE := Slot(Key(UINT8_MAX, 0, 0, 0), BLANK)

  type Table = t: seq<Slot> | |t| == CAPACITY witness seq(CAPACITY, _ => FREE)

  /** 32-bit FNV-1a. */
  function Fnv(b: seq<byte>): bv32 {
    if b == [] then 2166136261 else (Fnv(b[..|b| - 1]) ^ (b[|b| - 1] as bv32)) * 16777619
  }

  /** `hash_key`, over the five key bytes. */
  function Hash(k: Key): (h: nat)
    ensures h < CAPACITY
  {
    (Fnv([k.gnss, k.sv, k.signal, k.bin / 256 % 256, k.bin % 256]) as nat) % CAPACITY
  }

  /** The slot `step` places after `h`, around the table. */
  function At(h: nat, step: nat): (p: nat)
    requires h < CAPACITY && step < CAPACITY
    ensures p < CAPACITY
  {
    if h + step < CAPACITY then h + step else h + step - CAPACITY
  }

  function Distance(h: nat, p: nat): (d: nat)
    requires h < CAPACITY && p < CAPACITY
    ensures d < CAPACITY && At(h, d) == p
  {
    if p >= h then p - h else p + CAPACITY - h
  }

  predicate Holds(t: Table, p: nat, k: Key)
    requires p < CAPACITY
  {
    !Free(t[p]) && t[p].key == k
  }

  /** Every slot on the probe path of a stored key, up to its own, is in use. */
  predicate PathFull(t: Table, p: nat)
    requires p < CAPACITY
  {
    !Free(t[p]) ==> forall d :: 0 <= d < Distance(Hash(t[p].key), p) ==> !Free(t[At(Hash(t[p].key), d)])
  }

  /** The table invariant: probe paths have no holes and each key occupies one slot. */
  predicate TableOK(t: Table) {
    && (forall p :: 0 <= p < CAPACITY ==> PathFull(t, p))
    && (forall p, q :: 0 <= p < q < CAPACITY && !Free(t[p]) && !Free(t[q]) ==> t[p].key != t[q].key)
  }

  datatype Probe = Found(p: nat) | Vacant(p: nat) | Exhausted

  /** The probe of `find_cell` from `step` on. */
  function ProbeFrom(t: Table, k: Key, step: nat): (r: Probe)
    requires step <= CAPACITY
    ensures r.Found? || r.Vacant? ==> r.p < CAPACITY
    decreases CAPACITY - step
  {
    if step == CAPACITY then Exhausted
    else
      var p := At(Hash(k), step);
      if Free(t[p]) then Vacant(p)
      else if t[p].key == k then Found(p)
      else ProbeFrom(t, k, step + 1)
  }

  function Find(t: Table, k: Key): (r: Probe)
    ensures r.Found? || r.Vacant? ==> r.p < CAPACITY
  {
    ProbeFrom(t, k, 0)
  }

  /** Where a probe stops and what it has passed. */
  lemma {:induction false} ProbeStops(t: Table, k: Key, step: nat)
    requires step <= CAPACITY
    requires forall d :: 0 <= d < step ==> !Free(t[At(Hash(k), d)]) && t[At(Hash(k), d)].key != k
    ensures match ProbeFrom(t, k, step)
            case Found(p) => p < CAPACITY && Holds(t, p, k)
            case Vacant(p) => p < CAPACITY && Free(t[p]) &&
              (forall d :: 0 <= d < Distance(Hash(k), p) ==> !Free(t[At(Hash(k), d)]) && t[At(Hash(k), d)].key != k)
            case Exhausted => forall d :: 0 <= d < CAPACITY ==> !Free(t[At(Hash(k), d)]) && t[At(Hash(k), d)].key != k
    decreases CAPACITY - step
  {
    hide Hash;
    if step < CAPACITY {
      var p := At(Hash(k), step);
      assert Distance(Hash(k), p) == step;
      if !Free(t[p]) && t[p].key != k {
        ProbeStops(t, k, step + 1);
      }
    }
  }

  lemma {:induction false} ProbeReaches(t: Table, k: Key, p: nat, step: nat)
    requires TableOK(t) && p < CAPACITY && Holds(t, p, k) && step <= Distance(Hash(k), p)
    ensures ProbeFrom(t, k, step) == Found(p)
    decreases CAPACITY - step
  {
    hide Hash;
    if step < Distance(Hash(k), p) {
      var q := At(Hash(k), step);
      assert PathFull(t, p) && !Free(t[q]);
      assert q != p && t[q].key != k;
      ProbeReaches(t, k, p, step + 1);
    }
  }

  /** No probe misses a stored key. */
  lemma FindStored(t: Table, k: Key, p: nat)
    requires TableOK(t) && p < CAPACITY && Holds(t, p, k)
    ensures Find(t, k) == Found(p)
  {
    ProbeReaches(t, k, p, 0);
  }

  /** A probe is exhausted only when every slot holds another key. */
  lemma FindExhausted(t: Table, k: Key)
    requires Find(t, k) == Exhausted
    ensures forall p :: 0 <= p < CAPACITY ==> !Free(t[p]) && t[p].key != k
  {
    hide Hash, Free;
    ProbeStops(t, k, 0);
    forall p | 0 <= p < CAPACITY
      ensures !Free(t[p]) && t[p].key != k
    {
      var d := Distance(Hash(k), p);
      assert !Free(t[At(Hash(k), d)]) && t[At(Hash(k), d)].key != k;
    }
  }

  // ----- the map it refines

  /** The first `n` slots as a map. */
  function Entries(t: Table, n: nat): map<Key, Cell>
    requires n <= CAPACITY
  {
    if n == 0 then map[]
    else
      var m := Entries(t, n - 1);
      if Free(t[n - 1]) then m else m[t[n - 1].key := t[n - 1].cell]
  }

  function Map(t: Table): map<Key, Cell> { Entries(t, CAPACITY) }

  lemma {:induction false} EntriesAt(t: Table, n: nat, k: Key)
    requires TableOK(t) && n <= CAPACITY
    ensures k in Entries(t, n) ==> exists p :: 0 <= p < n && Holds(t, p, k)
    ensures forall p :: 0 <= p < n && Holds(t, p, k) ==> k in Entries(t, n) && Entries(t, n)[k] == t[p].cell
  {
    if n > 0 {
      EntriesAt(t, n - 1, k);
      hide PathFull;
      if k in Entries(t, n) && !Holds(t, n - 1, k) {
        assert k in Entries(t, n - 1);
      }
    }
  }

  /** Looking a key up is looking it up in the map. */
  lemma FindMap(t: Table, k: Key)
    requires TableOK(t)
    ensures match Find(t, k)
            case Found(p) => p < CAPACITY && Holds(t, p, k) && k in Map(t) && Map(t)[k] == t[p].cell
            case Vacant(p) => p < CAPACITY && Free(t[p]) && k !in Map(t)
            case Exhausted => k !in Map(t) && forall p :: 0 <= p < CAPACITY ==> !Free(t[p]) && t[p].key != k
  {
    ProbeStops(t, k, 0);
    EntriesAt(t, CAPACITY, k);
    if Find(t, k) == Exhausted { FindExhausted(t, k); }
    if k in Map(t) {
      var p :| 0 <= p < CAPACITY && Holds(t, p, k);
      FindStored(t, k, p);
    }
    hide Hash, Find, Entries, PathFull;
  }

  lemma {:induction false} EntriesSame(t: Table, u: Table, n: nat)
    requires n <= CAPACITY && forall p :: 0 <= p < n ==> t[p] == u[p]
    ensures Entries(t, n) == Entries(u, n)
  {
    if n > 0 { EntriesSame(t, u, n - 1); }
  }

  lemma {:induction false} EntriesPut(t: Table, p: nat, s: Slot, n: nat)
    requires TableOK(t) && p < n <= CAPACITY && !Free(s)
    requires Free(t[p]) || t[p].key == s.key
    requires forall q :: 0 <= q < CAPACITY && q != p && !Free(t[q]) ==> t[q].key != s.key
    ensures Entries(t[p := s], n) == Entries(t, n)[s.key := s.cell]
  {
    var u := t[p := s];
    hide PathFull;
    if p < n - 1 {
      EntriesPut(t, p, s, n - 1);
    } else {
      EntriesSame(t, u, p);
    }
  }

  /** Writing a slot that is free on the key's probe path, or already the key's own, is a map update. */
  lemma PutRefines(t: Table, k: Key, cell: Cell, p: nat)
    requires TableOK(t) && k.gnss != UINT8_MAX && (Find(t, k) == Found(p) || Find(t, k) == Vacant(p))
    ensures p < CAPACITY && TableOK(t[p := Slot(k, cell)])
    ensures Map(t[p := Slot(k, cell)]) == Map(t)[k := cell]
  {
    var s := Slot(k, cell);
    ProbeStops(t, k, 0);
    FindMap(t, k);
    OthersDiffer(t, k, p);
    EntriesPut(t, p, s, CAPACITY);
    PutTableOK(t, p, s);
  }

  lemma OthersDiffer(t: Table, k: Key, p: nat)
    requires TableOK(t) && (Find(t, k) == Found(p) || Find(t, k) == Vacant(p))
    ensures forall q :: 0 <= q < CAPACITY && q != p && !Free(t[q]) ==> t[q].key != k
  {
    hide Find, PathFull;
    forall q | 0 <= q < CAPACITY && q != p && !Free(t[q])
      ensures t[q].key != k
    {
      if t[q].key == k { FindStored(t, k, q); }
    }
  }

  lemma PutTableOK(t: Table, p: nat, s: Slot)
    requires TableOK(t) && p < CAPACITY && !Free(s)
    requires if Free(t[p]) then forall d :: 0 <= d < Distance(Hash(s.key), p) ==> !Free(t[At(Hash(s.key), d)])
             else t[p].key == s.key
    requires forall q :: 0 <= q < CAPACITY && q != p && !Free(t[q]) ==> t[q].key != s.key
    ensures TableOK(t[p := s])
  {
    var u := t[p := s];
    hide Hash;
    forall q | 0 <= q < CAPACITY
      ensures PathFull(u, q)
    {
      assert PathFull(t, q);
    }
  }
}
