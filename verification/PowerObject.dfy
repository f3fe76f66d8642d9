/** The power-history model as the firmware updates it in place (esp32/main/power_history.c). Every method is
    proved to compute the corresponding function of the value model. */
module PowerObject {
  import opened BigEndian
  import opened PowerCell
  import opened PowerTable
  import opened PowerBlob
  import opened PowerModel
  import Wire

  class History {
    const cells: array<Slot>
    var site: nat
    var policy: Policy
    var generation: nat
    var checkpoint: nat

    ghost predicate Valid()
      reads this
    {
      cells.Length == CAPACITY
    }

    ghost function View(): Model
      requires Valid()
      reads this, cells
    {
      Model(site, policy, generation, checkpoint, cells[..])
    }

    constructor ()
      ensures Valid() && Sound(View()) && fresh(cells) && site == 0
    {
      cells := new Slot[CAPACITY](_ => FREE);
      site, policy, generation, checkpoint := 0, Policy(0, 0, 0), 0, 0;
    }

    method Clear()
      requires Valid()
      modifies cells
      ensures View() == old(View()).(table := EmptyTable())
    {
      for i := 0 to CAPACITY
        invariant forall p :: 0 <= p < i ==> cells[p] == FREE
      {
        cells[i] := FREE;
      }
      assert cells[..] == EmptyTable();
    }

    /** `find_cell`: linear probing around the table. */
    method FindCell(k: Key) returns (r: Probe)
      requires Valid()
      ensures r == Find(View().table, k)
    {
      hide Hash;
      var start := Hash(k);
      for step := 0 to CAPACITY
        invariant ProbeFrom(cells[..], k, step) == Find(cells[..], k)
      {
        var p := At(start, step);
        if Free(cells[p]) { return Vacant(p); }
        if cells[p].key == k { return Found(p); }
      }
      return Exhausted;
    }

    /** `observe`. */
    method Observe(r: Reading)
      requires Valid() && ModelOK(View()) && (r.signal == NR_SATELLITE || r.signal <= 31)
      modifies this`generation, cells
      ensures Valid() && View() == Learn(old(View()), r) && ModelOK(View())
    {
      LearnOK(View(), r);
      hide Find, ModelOK, CellAfter;
      if !Usable(r) { return; }
      var k := KeyOf(r);
      ghost var was := cells[..];
      var f := FindCell(k);
      if f == Exhausted { return; }
      if f.Vacant? {
        cells[f.p] := Slot(k, BLANK);
      } else if cells[f.p].cell.count != 0 && SampleOf(r).cycle > cells[f.p].cell.cycle {
        generation := NextGeneration(generation);
      }
      var c := if f.Vacant? then BLANK else cells[f.p].cell;
      cells[f.p] := Slot(k, CellAfter(c, policy, r));
      assert cells[..] == was[f.p := Slot(k, CellAfter(c, policy, r))];
    }

    /** `power_history_bind`. */
    method BindSite(s: nat, p: Policy) returns (ok: bool)
      requires Valid()
      modifies this`site, this`policy, this`generation, this`checkpoint, cells
      ensures Valid() && View() == Bind(old(View()), s, p)
      ensures ok <==> s != 0 && 3 <= p.minDeviation <= 30 && 1 <= p.madMultiplier <= 16 && 2 <= p.minSupport <= 4
      ensures !ok || (old(site) == s && old(policy) == p) ==> View() == old(View())
      ensures ok && !(old(site) == s && old(policy) == p) ==>
        site == s && policy == p && generation == 1 && checkpoint == 0 && Map(cells[..]) == map[]
    {
      EmptyOK();
      hide Map;
      if s == 0 || !ValidPolicy(p) { return false; }
      if site != s || policy != p {
        Clear();
        site, policy, generation, checkpoint := s, p, 1, 0;
      }
      return true;
    }

    /** The row loop of `power_history_import`. */
    method LoadRows(b: seq<byte>) returns (ok: bool)
      requires Valid() && |b| % ROW == 0
      modifies cells
      ensures ok == ImportRows(b, old(View()).table).Some?
      ensures ok ==> View() == old(View()).(table := ImportRows(b, old(View()).table).value)
    {
      hide Find, ValidRow, ParseRow;
      var at := 0;
      ghost var target := ImportRows(b, cells[..]);
      assert b[0..] == b;
      while at < |b|
        invariant 0 <= at <= |b| && at % ROW == 0
        invariant ImportRows(b[at..], cells[..]) == target
        decreases |b| - at
      {
        assert b[at..][..ROW] == b[at..at + ROW] && b[at..][ROW..] == b[at + ROW..];
        var row := b[at..at + ROW];
        if !ValidRow(row) { return false; }
        var s := ParseRow(row);
        var f := FindCell(s.key);
        if !f.Vacant? { return false; }
        ghost var was := cells[..];
        cells[f.p] := s;
        assert cells[..] == was[f.p := s];
        at := at + ROW;
      }
      return true;
    }

    /** `power_history_import`. */
    method ImportBlob(b: seq<byte>, s: nat) returns (ok: bool)
      requires Valid()
      modifies this`site, this`policy, this`generation, this`checkpoint, cells
      ensures Valid() && View() == Load(old(View()), b, s) && ok == Import(b, s).Some?
      ensures ok ==> site == s
      ensures !ok ==> View() == old(View()) || site == 0
    {
      hide ImportRows, BlobValid, Get, EmptyTable;
      var accepted := CheckBlob(b, s);
      if !accepted { return false; }
      assert HEADER + 4 <= |b| && (|b| - HEADER - 4) % ROW == 0 by { BlobShape(b, s); }
      Clear();
      site, generation, checkpoint := s, Get(b[16..20]), Get(b[20..24]);
      policy := Policy(b[26], b[27], b[28]);
      ok := LoadRows(b[HEADER..|b| - 4]);
      if !ok {
        Clear();
        site := 0;
      }
    }

    /** The counting loop of `power_history_export`. */
    method CountRows() returns (count: nat)
      requires Valid()
      ensures count == |Occupied(cells[..], CAPACITY)|
    {
      count := 0;
      for i := 0 to CAPACITY
        invariant count == |Occupied(cells[..], i)|
      {
        if !Free(cells[i]) { count := count + 1; }
      }
    }

    /** One row of the blob, behind the bytes written so far. */
    method WriteRow(out: array<byte>, row: nat, s: Slot, ghost done: seq<byte>)
      requires ValidCell(s.cell) && HEADER + ROW * row + ROW <= out.Length && out[..HEADER + ROW * row] == done
      modifies out
      ensures out[..HEADER + ROW * row + ROW] == done + RowBytes(s)
      ensures forall k :: HEADER + ROW * row + ROW <= k < out.Length ==> out[k] == old(out[k])
    {
      hide RowBytes, ValidCell;
      Wire.CopyTo(out, HEADER + ROW * row, RowBytes(s));
    }

    /** The row loop of `power_history_export`: the used slots go out in table order. */
    method WriteRows(out: array<byte>, ghost head: seq<byte>)
      requires Valid() && SlotsOK(cells[..]) && |head| == HEADER
      requires HEADER + ROW * |Occupied(cells[..], CAPACITY)| <= out.Length && out[..HEADER] == head
      modifies out
      ensures var n := HEADER + ROW * |Occupied(cells[..], CAPACITY)|;
              && out[..n] == head + RowsBytes(Occupied(cells[..], CAPACITY))
              && forall k :: n <= k < out.Length ==> out[k] == old(out[k])
    {
      hide RowBytes, ValidCell, SlotsOK, Occupied, RowsBytes;
      var row := 0;
      OccupiedNone(cells[..]);
      assert out[..HEADER + ROW * row] == head + [];
      for i := 0 to CAPACITY
        invariant row == |Occupied(cells[..], i)|
        invariant HEADER + ROW * row <= out.Length && RowsValid(cells[..], i)
        invariant out[..HEADER + ROW * row] == head + RowsBytes(Occupied(cells[..], i))
        invariant forall k :: HEADER + ROW * row <= k < out.Length ==> out[k] == old(out[k])
      {
        OccupiedNext(cells[..], i);
        OccupiedFits(cells[..], i + 1, CAPACITY);
        if !Free(cells[i]) {
          RowsNext(cells[..], i);
          WriteRow(out, row, cells[i], head + RowsBytes(Occupied(cells[..], i)));
          Joined(head, RowsBytes(Occupied(cells[..], i)), RowBytes(cells[i]));
          row := row + 1;
        }
      }
    }

    /** `power_history_export`: the size of the blob, which is written when the buffer is large enough. */
    method ExportBlob(out: array<byte>, capacity: nat, generation32: U32) returns (n: nat)
      requires Valid() && (site == 0 || ModelOK(View())) && capacity <= out.Length
      modifies out
      ensures n == 0 <==> site == 0 || generation32 == 0
      ensures n != 0 ==> n == |Export(View(), generation32)|
      ensures n == 0 || capacity < n ==> out[..] == old(out[..])
      ensures 0 < n <= capacity ==>
        out[..n] == Export(View(), generation32) && forall k :: n <= k < out.Length ==> out[k] == old(out[k])
    {
      if site == 0 || generation32 == 0 { return 0; }
      assert SlotsOK(cells[..]);
      hide Occupied, ModelOK, SlotsOK, Export;
      var count := CountRows();
      n := HEADER + ROW * count + 4;
      ExportSize(View(), generation32);
      if capacity < n { return; }
      WriteBlob(out, count, generation32);
    }

    /** Header, rows and CRC, once they fit. */
    method WriteBlob(out: array<byte>, count: nat, generation32: U32)
      requires Valid() && SlotsOK(cells[..]) && count == |Occupied(cells[..], CAPACITY)|
      requires HEADER + ROW * count + 4 <= out.Length
      modifies out
      ensures var n := HEADER + ROW * count + 4;
              && out[..n] == Export(View(), generation32)
              && forall k :: n <= k < out.Length ==> out[k] == old(out[k])
    {
      hide Occupied, SlotsOK, HeaderBytes, Crc32, RowsBytes, Put;
      var n := HEADER + ROW * count + 4;
      var head := HeaderBytes(Model(site, policy, generation, checkpoint, cells[..]), generation32, count);
      Wire.CopyTo(out, 0, head);
      assert out[..HEADER] == head;
      WriteRows(out, head);
      var crc := Crc32Loop(out[..n - 4]);
      Wire.CopyTo(out, n - 4, Put(crc, 4));
    }
  }

  // ----- the blob's bytes

  lemma Joined(a: seq<byte>, b: seq<byte>, c: seq<byte>)
    ensures (a + b) + c == a + (b + c)
  {
  }

  lemma ExportSize(m: Model, generation32: nat)
    requires SlotsOK(m.table)
    ensures |Export(m, generation32)| == HEADER + ROW * |Occupied(m.table, CAPACITY)| + 4
  {
    hide Occupied, SlotsOK, HeaderBytes, Crc32, RowsBytes, Put;
  }

  lemma BlobShape(b: seq<byte>, s: nat)
    requires BlobValid(b, s)
    ensures HEADER + 4 <= |b| && (|b| - HEADER - 4) % ROW == 0
  {
    hide Crc32, Get;
  }

  /** `blob_valid`. */
  method CheckBlob(b: seq<byte>, s: nat) returns (ok: bool)
    ensures ok == BlobValid(b, s)
  {
    hide Crc32, Get, ValidPolicy;
    if HEADER + 4 > |b| || b[..4] != MAGIC || b[4] != VERSION || b[5] != HEADER || b[6] != ROW || b[7] != 0
       || Get(b[8..16]) != s || Get(b[16..20]) == 0 || Get(b[20..24]) == 0
       || !ValidPolicy(Policy(b[26], b[27], b[28])) || b[29] != 0 || b[30] != 0 || b[31] != 0
    { return false; }
    var count := Get(b[24..26]);
    if count > CAPACITY || |b| != HEADER + count * ROW + 4 { return false; }
    var crc := Crc32Loop(b[..|b| - 4]);
    return Get(b[|b| - 4..]) == crc;
  }

  ghost predicate RowsValid(t: Table, n: nat)
    requires n <= CAPACITY
  {
    forall i :: 0 <= i < |Occupied(t, n)| ==> ValidCell(Occupied(t, n)[i].cell)
  }

  lemma OccupiedNone(t: Table)
    ensures Occupied(t, 0) == [] && RowsBytes([]) == []
  {
  }

  lemma OccupiedNext(t: Table, i: nat)
    requires i < CAPACITY && SlotsOK(t) && RowsValid(t, i)
    ensures Occupied(t, i + 1) == if Free(t[i]) then Occupied(t, i) else Occupied(t, i) + [t[i]]
    ensures RowsValid(t, i + 1) && (!Free(t[i]) ==> ValidCell(t[i].cell))
  {
    hide ValidCell;
  }

  lemma {:induction false} OccupiedFits(t: Table, i: nat, n: nat)
    requires i <= n <= CAPACITY
    ensures |Occupied(t, i)| <= |Occupied(t, n)|
    decreases n
  {
    if i < n { OccupiedFits(t, i, n - 1); }
  }

  lemma RowsNext(t: Table, i: nat)
    requires i < CAPACITY && RowsValid(t, i) && RowsValid(t, i + 1) && ValidCell(t[i].cell)
    requires Occupied(t, i + 1) == Occupied(t, i) + [t[i]]
    ensures RowsBytes(Occupied(t, i + 1)) == RowsBytes(Occupied(t, i)) + RowBytes(t[i])
  {
    hide Occupied, RowBytes, ValidCell;
    var rows := Occupied(t, i + 1);
    assert rows[..|rows| - 1] == Occupied(t, i);
  }

  /** `(v >> 1) ^ (0xedb88320 & (0 - (v & 1)))`. */
  function CrcMasked(v: bv32): bv32 { (v >> 1) ^ (0xedb88320 & (0 - (v & 1))) }

  lemma CrcMaskedBit(v: bv32)
    ensures CrcMasked(v) == CrcBit(v)
  {
    assert v & 1 == 0 || v & 1 == 1;
  }

  /** The inner loop of `crc32`: one byte into the register, bit by bit. */
  method CrcByteLoop(v: bv32, b: byte) returns (r: bv32)
    ensures r == CrcByte(v, b)
  {
    hide Diff, Wide, CrcBit, CrcMasked;
    r := Diff(v, Wide(b));
    assert r == CrcShifts(Diff(v, Wide(b)), 0) && CrcByte(v, b) == CrcShifts(Diff(v, Wide(b)), 8);
    hide CrcByte;
    for i := 0 to 8
      invariant r == CrcShifts(Diff(v, Wide(b)), i)
    {
      CrcMaskedBit(r);
      r := CrcMasked(r);
    }
  }

  /** `crc32`. */
  method Crc32Loop(p: seq<byte>) returns (v: nat)
    ensures v == Crc32(p)
  {
    hide CrcByte;
    var r: bv32 := 0xFFFFFFFF;
    for i := 0 to |p|
      invariant r == CrcState(p[..i])
    {
      assert p[..i + 1][..i] == p[..i];
      r := CrcByteLoop(r, p[i]);
    }
    assert p[..|p|] == p;
    v := (!r) as nat;
  }
}
