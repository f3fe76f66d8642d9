/** What one reading, one bind and one import do to the power-history model, in the numbers the callers pass
    (esp32/main/power_history.c). */
module PowerEffects {
  import opened BigEndian
  import opened PowerCell
  import opened PowerTable
  import opened PowerBlob
  import opened PowerModel

  // ----- one reading

  /** The sidereal cycle of 86164 seconds and the ten-minute bin within it that a time falls in. */
  predicate Falls(utc: nat, cycle: nat, bin: nat) {
    86164 * cycle + 600 * bin <= utc < 86164 * cycle + 600 * bin + 600 && utc < 86164 * cycle + 86164
  }

  lemma FallsOnce(utc: nat, cycle: nat, bin: nat)
    ensures Falls(utc, cycle, bin) <==> cycle == utc / 86164 && bin == utc % 86164 / 600
  {
  }

  /** Which readings the model keeps: GPS only, a satellite, a level the receiver can report, a cycle that fits. */
  predicate Kept(r: Reading) { r.gnss == 0 && r.sv > 0 && 0 < r.cno < 100 && r.utc < 86164 * 65536 }

  /** One reading. What is not kept changes nothing. What is goes to the cell of its own key, which is created if it
      is missing and the table has room, and to no other; and the generation moves on, from the last to 1, exactly when
      that ends a cycle of the cell. */
  lemma LearnEffect(m: Model, r: Reading, cycle: nat, bin: nat)
    requires ModelOK(m) && (r.signal == 255 || r.signal <= 31) && Falls(r.utc, cycle, bin)
    ensures var k, n := Key(r.gnss, r.sv, r.signal, bin), Learn(m, r);
            && (!Kept(r) || (k !in Map(m.table) && Full(m.table)) ==> n == m)
            && (Kept(r) && !(k !in Map(m.table) && Full(m.table)) ==>
                  var c := if k in Map(m.table) then Map(m.table)[k] else BLANK;
                  && |c.history| == DAYS && c.next < DAYS
                  && Map(n.table) == Map(m.table)[k := Observe(c, m.policy, cycle, r.cno)]
                  && n == m.(table := n.table, generation := Moved(m.generation, c.count > 0 && c.cycle < cycle)))
  {
    FallsOnce(r.utc, cycle, bin);
    KeptUsable(r);
    LearnOK(m, r);
    FindMap(m.table, KeyOf(r));
    hide Map, Find, Observe, ModelOK, TableOK;
    if Kept(r) && KeyOf(r) in Map(m.table) { StoredCell(m, KeyOf(r)); }
  }

  /** The next generation: zero is skipped. */
  function Moved(g: nat, moves: bool): nat {
    if !moves then g else if g == 0xFFFF_FFFF then 1 else g + 1
  }

  lemma KeptUsable(r: Reading)
    ensures Kept(r) <==> Usable(r)
  {
  }

  lemma StoredCell(m: Model, k: Key)
    requires ModelOK(m) && k in Map(m.table)
    ensures var c := Map(m.table)[k]; |c.history| == DAYS && c.next < DAYS
  {
    EntriesAt(m.table, CAPACITY, k);
    hide Entries, TableOK;
    var p :| 0 <= p < CAPACITY && Holds(m.table, p, k);
    assert ValidCell(m.table[p].cell);
  }

  // ----- import

  function Row(b: seq<byte>, i: nat): (r: seq<byte>)
    requires 16 * i + 16 <= |b|
    ensures |r| == 16
  {
    b[16 * i..16 * i + 16]
  }

  /** What the bytes of an acceptable row look like. */
  predicate RowWire(r: seq<byte>)
    requires |r| == 16
  {
    var len: int, next: int := r[11] % 8, r[11] / 8;
    var sum: int, count: int := Get(r[7..9]), Get(r[9..11]);
    var ring := r[12..16];
    && r[0] <= 7 && r[0] != 4 && r[1] != 0 && (r[2] == 255 || r[2] <= 31) && 600 * Get(r[3..5]) < 86164
    && len <= 4 && next < 4 && (len < 4 ==> next == len)
    && (count == 0 <==> sum == 0) && count <= sum <= 99 * count
    && forall j :: 0 <= j < 4 ==> if j < len then 1 <= ring[j] <= 99 else ring[j] == 0
  }

  lemma RowWireIff(r: seq<byte>)
    requires |r| == 16
    ensures ValidRow(r) <==> RowWire(r)
  {
    Widths();
    assert |r[5..7]| == 2 && |r[7..9]| == 2 && |r[9..11]| == 2;
    hide Get;
  }

  /** Every row is valid and no two have the same key. */
  predicate RowsAccepted(b: seq<byte>, i: nat, n: nat)
    requires 16 * n <= |b|
  {
    forall j :: i <= j < n ==> ValidRow(Row(b, j)) && NewKey(b, j)
  }

  predicate NewKey(b: seq<byte>, j: nat)
    requires 16 * j + 16 <= |b|
  {
    forall k :: 0 <= k < j ==> ParseRow(Row(b, k)).key != ParseRow(Row(b, j)).key
  }

  /** The rows already read, as slots. */
  function Parsed(b: seq<byte>, i: nat): (s: seq<Slot>)
    requires 16 * i <= |b|
    ensures |s| == i
  {
    seq(i, k requires 0 <= k < i => ParseRow(Row(b, k)))
  }

  /** What has been read is in the table. */
  predicate ReadSoFar(b: seq<byte>, i: nat, t: Table)
    requires 16 * i <= |b|
  {
    TableOK(t) && SlotsOK(t) && DistinctKeys(Parsed(b, i)) && Map(t) == RowsMap(Parsed(b, i))
  }

  lemma KeyStored(b: seq<byte>, i: nat, t: Table)
    requires 16 * i + 16 <= |b| && ReadSoFar(b, i, t)
    ensures ParseRow(Row(b, i)).key in Map(t) <==> !NewKey(b, i)
  {
    hide TableOK, SlotsOK, Map, ParseRow;
    var rows, k := Parsed(b, i), ParseRow(Row(b, i)).key;
    RowsMapSize(rows);
    if !NewKey(b, i) {
      var j :| 0 <= j < i && ParseRow(Row(b, j)).key == k;
      RowsMapHas(rows, j);
    }
  }

  lemma {:induction false} RowsMapHas(rows: seq<Slot>, j: nat)
    requires j < |rows|
    ensures rows[j].key in RowsMap(rows)
  {
    if j < |rows| - 1 { RowsMapHas(rows[..|rows| - 1], j); }
  }

  lemma ReadOne(b: seq<byte>, i: nat, t: Table)
    requires 16 * i + 16 <= |b| && i < CAPACITY && ReadSoFar(b, i, t)
    ensures PlaceRow(Row(b, i), t).Some? <==> ValidRow(Row(b, i)) && NewKey(b, i)
    ensures PlaceRow(Row(b, i), t).Some? ==> ReadSoFar(b, i + 1, PlaceRow(Row(b, i), t).value)
  {
    hide TableOK, SlotsOK, Map, ParseRow, Find, ValidRow, RowsMap;
    var s := ParseRow(Row(b, i));
    KeyStored(b, i, t);
    FindMap(t, s.key);
    if NewKey(b, i) {
      NewRow(b, i);
      RoomLeft(t, Parsed(b, i), s.key);
      if ValidRow(Row(b, i)) {
        RowValid(Row(b, i));
        PutRow(t, s, Find(t, s.key).p);
        RowsMapSnoc(Parsed(b, i), s);
      }
    }
  }

  lemma RowsMapSnoc(rows: seq<Slot>, s: Slot)
    ensures RowsMap(rows + [s]) == RowsMap(rows)[s.key := s.cell]
  {
    assert (rows + [s])[..|rows|] == rows;
  }

  lemma RowValid(r: seq<byte>)
    requires |r| == ROW && ValidRow(r)
    ensures ValidKey(ParseRow(r).key) && ValidCell(ParseRow(r).cell)
  {
    hide ParseRow, ValidKey, ValidCell;
  }

  /** A row with a new key keeps the keys apart. */
  lemma NewRow(b: seq<byte>, i: nat)
    requires 16 * i + 16 <= |b| && DistinctKeys(Parsed(b, i)) && NewKey(b, i)
    ensures Parsed(b, i + 1) == Parsed(b, i) + [ParseRow(Row(b, i))] && DistinctKeys(Parsed(b, i + 1))
    ensures forall j :: 0 <= j < i ==> Parsed(b, i)[j].key != ParseRow(Row(b, i)).key
  {
    hide ParseRow;
  }

  lemma {:induction false} RowsIff(b: seq<byte>, i: nat, n: nat, t: Table)
    requires i <= n <= CAPACITY && |b| == 16 * n && ReadSoFar(b, i, t)
    ensures ImportRows(b[16 * i..], t).Some? <==> RowsAccepted(b, i, n)
    decreases n - i
  {
    hide ReadSoFar, PlaceRow, ValidRow, NewKey;
    if i < n {
      var rest := b[16 * i..];
      assert rest[..16] == Row(b, i) && rest[16..] == b[16 * (i + 1)..];
      ReadOne(b, i, t);
      if PlaceRow(Row(b, i), t).Some? { RowsIff(b, i + 1, n, PlaceRow(Row(b, i), t).value); }
    }
  }

  /** Import accepts a blob exactly when its header, size and checksum are right, every row is valid and no key comes
      twice; a table never runs out of room for it. */
  lemma ImportIff(b: seq<byte>, site: nat)
    ensures Import(b, site).Some? <==>
      BlobValid(b, site) && RowsAccepted(b[32..|b| - 4], 0, (|b| - 36) / 16)
  {
    hide Crc32, Get, ImportRows, EmptyTable, RowsAccepted, ValidPolicy;
    if BlobValid(b, site) {
      var rows, n := b[32..|b| - 4], (|b| - 36) / 16;
      EmptyOK();
      assert rows[16 * 0..] == rows;
      NothingRead(rows);
      RowsIff(rows, 0, n, EmptyTable());
    }
  }

  lemma NothingRead(b: seq<byte>)
    ensures ReadSoFar(b, 0, EmptyTable())
  {
    EmptyOK();
    assert Parsed(b, 0) == [];
  }
}
