/** The versioned blob of the power-history model, and why it survives export and import
    (esp32/main/power_history.c). */
module PowerBlob {
  import opened BigEndian
  import opened PowerCell
  import opened PowerTable

  const MAGIC: seq<byte> := [78, 80, 72, 49]  // "NPH1"
  const VERSION := 1
  const HEADER := 32
  const ROW := 16
  const NR_SATELLITE := 255

  /** `power_model_t`. */
  datatype Model = Model(site: nat, policy: Policy, generation: nat, checkpoint: nat, table: Table)

  /** The keys an expectation may name; `nr_decode` checks its entries the same way. */
  predicate ValidKey(k: Key) {
    k.gnss <= 7 && k.gnss != 4 && k.sv != 0 && (k.signal == NR_SATELLITE || k.signal <= 31) &&
    k.bin * PHASE_SECONDS < SIDEREAL
  }

  predicate SlotsOK(t: Table) {
    forall p :: 0 <= p < CAPACITY && !Free(t[p]) ==> ValidKey(t[p].key) && ValidCell(t[p].cell)
  }

  predicate Nonzero32(x: nat) { 0 < x < 0x1_0000_0000 }

  predicate ModelOK(m: Model) {
    && 0 < m.site < 0x1_0000_0000_0000_0000 && ValidPolicy(m.policy) && Nonzero32(m.generation)
    && TableOK(m.table) && SlotsOK(m.table)
  }

  // ----- rows

  function RowBytes(s: Slot): (b: seq<byte>)
    requires ValidCell(s.cell)
    ensures |b| == ROW
  {
    var c := s.cell;
    [s.key.gnss, s.key.sv, s.key.signal] + Put(s.key.bin, 2) + Put(c.cycle, 2) + Put(c.sum, 2) + Put(c.count, 2)
    + [c.len + 8 * c.next] + c.history
  }

  function ParseRow(b: seq<byte>): Slot
    requires |b| == ROW
  {
    Slot(Key(b[0], b[1], b[2], Get(b[3..5])),
         Cell(Get(b[5..7]), Get(b[7..9]), Get(b[9..11]), b[11] % 8, b[11] / 8 % 8, b[12..16]))
  }

  /** The checks of the import loop on one row. */
  predicate ValidRow(b: seq<byte>)
    requires |b| == ROW
  {
    b[11] < 64 && ValidKey(ParseRow(b).key) && ValidCell(ParseRow(b).cell)
  }

  lemma RowFields(s: Slot)
    requires ValidCell(s.cell)
    ensures var b, c := RowBytes(s), s.cell;
            && b[0] == s.key.gnss && b[1] == s.key.sv && b[2] == s.key.signal
            && b[3..5] == Put(s.key.bin, 2) && b[5..7] == Put(c.cycle, 2) && b[7..9] == Put(c.sum, 2)
            && b[9..11] == Put(c.count, 2) && b[11] == c.len + 8 * c.next && b[12..16] == c.history
  {
    hide Put, ValidCell;
    assert |s.cell.history| == DAYS by { HistoryLength(s.cell); }
  }

  lemma HistoryLength(c: Cell)
    requires ValidCell(c)
    ensures |c.history| == DAYS && c.len + 8 * c.next < 64 && c.len < 8
    ensures c.cycle < 0x1_0000 && c.sum < 0x1_0000 && c.count < 0x1_0000
  {
  }

  /** A row of the model is accepted and read back as it was. */
  lemma RowRoundTrip(s: Slot)
    requires ValidKey(s.key) && ValidCell(s.cell)
    ensures ValidRow(RowBytes(s)) && ParseRow(RowBytes(s)) == s
  {
    hide RowBytes, Get, Put, ValidCell, ValidKey;
    RowFields(s);
    HistoryLength(s.cell);
    KeyFits(s.key);
    Back2(s.key.bin);
    Back2(s.cell.cycle);
    Back2(s.cell.sum);
    Back2(s.cell.count);
  }

  lemma KeyFits(k: Key)
    requires ValidKey(k)
    ensures k.bin < 0x1_0000
  {
  }

  function RowsBytes(rows: seq<Slot>): (b: seq<byte>)
    requires forall i :: 0 <= i < |rows| ==> ValidCell(rows[i].cell)
    ensures |b| == ROW * |rows|
  {
    if rows == [] then [] else RowsBytes(rows[..|rows| - 1]) + RowBytes(rows[|rows| - 1])
  }

  lemma {:induction false} RowAt(rows: seq<Slot>, i: nat)
    requires i < |rows| && forall j :: 0 <= j < |rows| ==> ValidCell(rows[j].cell)
    ensures RowsBytes(rows)[ROW * i..ROW * i + ROW] == RowBytes(rows[i])
  {
    hide RowBytes, ValidCell;
    var n := |rows| - 1;
    if i < n {
      RowAt(rows[..n], i);
      assert RowsBytes(rows)[ROW * i..ROW * i + ROW] == RowsBytes(rows[..n])[ROW * i..ROW * i + ROW];
    }
  }

  // ----- the rows of a table

  function Occupied(t: Table, n: nat): (r: seq<Slot>)
    requires n <= CAPACITY
    ensures |r| <= n
    ensures forall i :: 0 <= i < |r| ==> !Free(r[i]) && r[i] in t
  {
    if n == 0 then []
    else if Free(t[n - 1]) then Occupied(t, n - 1)
    else Occupied(t, n - 1) + [t[n - 1]]
  }

  function RowsMap(rows: seq<Slot>): map<Key, Cell> {
    if rows == [] then map[] else RowsMap(rows[..|rows| - 1])[rows[|rows| - 1].key := rows[|rows| - 1].cell]
  }

  predicate DistinctKeys(rows: seq<Slot>) {
    forall i, j :: 0 <= i < j < |rows| ==> rows[i].key != rows[j].key
  }

  lemma {:induction false} OccupiedMap(t: Table, n: nat)
    requires n <= CAPACITY
    ensures RowsMap(Occupied(t, n)) == Entries(t, n)
  {
    if n > 0 {
      OccupiedMap(t, n - 1);
      if !Free(t[n - 1]) {
        assert Occupied(t, n)[..|Occupied(t, n)| - 1] == Occupied(t, n - 1);
      }
    }
  }

  lemma {:induction false} OccupiedDistinct(t: Table, n: nat)
    requires n <= CAPACITY && TableOK(t)
    ensures DistinctKeys(Occupied(t, n))
    ensures forall i :: 0 <= i < |Occupied(t, n)| ==> exists p :: 0 <= p < n && t[p] == Occupied(t, n)[i]
  {
    hide PathFull;
    if n > 0 {
      OccupiedDistinct(t, n - 1);
    }
  }

  lemma {:induction false} RowsMapSize(rows: seq<Slot>)
    requires DistinctKeys(rows)
    ensures |RowsMap(rows)| == |rows|
    ensures forall k :: k in RowsMap(rows) ==> exists i :: 0 <= i < |rows| && rows[i].key == k
  {
    if rows != [] {
      var n := |rows| - 1;
      RowsMapSize(rows[..n]);
      assert rows[n].key !in RowsMap(rows[..n]);
      assert RowsMap(rows).Keys == RowsMap(rows[..n]).Keys + {rows[n].key};
    }
  }

  lemma {:induction false} FullEntries(t: Table, n: nat)
    requires n <= CAPACITY && TableOK(t) && forall p :: 0 <= p < CAPACITY ==> !Free(t[p])
    ensures |Entries(t, n)| == n
  {
    hide PathFull;
    if n > 0 {
      FullEntries(t, n - 1);
      EntriesAt(t, n - 1, t[n - 1].key);
      assert t[n - 1].key !in Entries(t, n - 1);
      assert Entries(t, n).Keys == Entries(t, n - 1).Keys + {t[n - 1].key};
    }
  }
}
