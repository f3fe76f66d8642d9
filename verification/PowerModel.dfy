/** The power-history model as a whole: bind, observe, export and import (esp32/main/power_history.c). */
module PowerModel {
  import opened BigEndian
  import opened PowerCell
  import opened PowerTable
  import opened PowerBlob

  // ----- the blob

  /** `v ^ w`: the difference of two registers. */
  function Diff(v: bv32, w: bv32): bv32 { v ^ w }

  function Half(v: bv32): bv32 { v >> 1 }

  predicate Low(v: bv32) { v & 1 != 0 }

  function Wide(b: byte): bv32 { b as bv32 }

  function CrcBit(v: bv32): bv32 { Diff(Half(v), if Low(v) then 0xedb88320 else 0) }

  /** `n` shifts of the register. */
  function CrcShifts(v: bv32, n: nat): bv32 { if n == 0 then v else CrcBit(CrcShifts(v, n - 1)) }

  function CrcByte(v: bv32, b: byte): bv32 { CrcShifts(Diff(v, Wide(b)), 8) }

  function CrcState(b: seq<byte>): bv32 {
    if b == [] then 0xFFFFFFFF else CrcByte(CrcState(b[..|b| - 1]), b[|b| - 1])
  }

  /** `crc32`. */
  function Crc32(b: seq<byte>): nat { (!CrcState(b)) as nat }

  lemma Crc32Fits(b: seq<byte>)
    ensures Crc32(b) < 0x1_0000_0000
  {
  }

  function HeaderBytes(m: Model, checkpoint: nat, count: nat): (h: seq<byte>)
    ensures |h| == HEADER
  {
    MAGIC + [VERSION, HEADER, ROW, 0] + Put(m.site, 8) + Put(m.generation, 4) + Put(checkpoint, 4) + Put(count, 2)
    + [m.policy.minDeviation, m.policy.madMultiplier, m.policy.minSupport, 0, 0, 0]
  }

  /** `power_history_export` into a buffer that is large enough. */
  function Export(m: Model, checkpoint: nat): seq<byte>
    requires SlotsOK(m.table)
  {
    Body(m, checkpoint) + Put(Crc32(Body(m, checkpoint)), 4)
  }

  function Body(m: Model, checkpoint: nat): seq<byte>
    requires SlotsOK(m.table)
  {
    HeaderBytes(m, checkpoint, |Occupied(m.table, CAPACITY)|) + RowsBytes(Occupied(m.table, CAPACITY))
  }

  /** `blob_valid`. */
  predicate BlobValid(b: seq<byte>, site: nat) {
    && HEADER + 4 <= |b|
    && b[..4] == MAGIC && b[4] == VERSION && b[5] == HEADER && b[6] == ROW && b[7] == 0
    && Get(b[8..16]) == site && Get(b[16..20]) != 0 && Get(b[20..24]) != 0
    && ValidPolicy(Policy(b[26], b[27], b[28])) && b[29] == 0 && b[30] == 0 && b[31] == 0
    && Get(b[24..26]) <= CAPACITY && |b| == HEADER + Get(b[24..26]) * ROW + 4
    && Get(b[|b| - 4..]) == Crc32(b[..|b| - 4])
  }

  function EmptyTable(): Table { seq(CAPACITY, _ => FREE) }

  /** One row of the import loop: it must be valid, new, and find a place. */
  function PlaceRow(b: seq<byte>, t: Table): Option<Table>
    requires |b| == ROW
  {
    if !ValidRow(b) then None
    else match Find(t, ParseRow(b).key)
      case Vacant(p) => Some(t[p := ParseRow(b)])
      case _ => None
  }

  /** The import loop; any row that cannot be placed rejects the blob. */
  function ImportRows(rows: seq<byte>, t: Table): Option<Table>
    requires |rows| % ROW == 0
    decreases |rows|
  {
    if rows == [] then Some(t)
    else match PlaceRow(rows[..ROW], t)
      case None => None
      case Some(u) => ImportRows(rows[ROW..], u)
  }

  function Restored(b: seq<byte>, site: nat, t: Table): Model
    requires |b| >= HEADER
  {
    Model(site, Policy(b[26], b[27], b[28]), Get(b[16..20]), Get(b[20..24]), t)
  }

  /** `power_history_import`; a rejected blob leaves a model bound to no site. */
  function Import(b: seq<byte>, site: nat): Option<Model> {
    if !BlobValid(b, site) || ImportRows(b[HEADER..|b| - 4], EmptyTable()).None? then None
    else Some(Restored(b, site, ImportRows(b[HEADER..|b| - 4], EmptyTable()).value))
  }

  // ----- round trip

  lemma EmptyOK()
    ensures TableOK(EmptyTable()) && Map(EmptyTable()) == map[] && SlotsOK(EmptyTable())
  {
    EmptyEntries(CAPACITY);
  }

  lemma {:induction false} EmptyEntries(n: nat)
    requires n <= CAPACITY
    ensures Entries(EmptyTable(), n) == map[]
  {
    if n > 0 { EmptyEntries(n - 1); }
  }

  predicate RowsOK(rows: seq<Slot>) {
    && |rows| <= CAPACITY && DistinctKeys(rows)
    && (forall i :: 0 <= i < |rows| ==> ValidKey(rows[i].key) && ValidCell(rows[i].cell))
  }

  /** The table being rebuilt always has room for the next row. */
  lemma RoomLeft(t: Table, done: seq<Slot>, k: Key)
    requires TableOK(t) && DistinctKeys(done) && Map(t) == RowsMap(done) && |done| < CAPACITY
    requires forall i :: 0 <= i < |done| ==> done[i].key != k
    ensures Find(t, k).Vacant? && Find(t, k).p < CAPACITY
  {
    RowsMapSize(done);
    FindMap(t, k);
    hide Find, RowsMap, Entries, PathFull;
    if Find(t, k) == Exhausted {
      FullEntries(t, CAPACITY);
    }
  }

  lemma {:induction false} ImportRebuilds(rows: seq<Slot>, i: nat, t: Table)
    requires RowsOK(rows) && i <= |rows| && TableOK(t) && SlotsOK(t) && Map(t) == RowsMap(rows[..i])
    ensures var r := ImportRows(RowsBytes(rows)[ROW * i..], t);
            r.Some? && TableOK(r.value) && SlotsOK(r.value) && Map(r.value) == RowsMap(rows)
    decreases |rows| - i
  {
    hide Find, TableOK, ValidRow, ParseRow, RowBytes, Entries, Map, ValidCell, ValidKey;
    var b := RowsBytes(rows)[ROW * i..];
    if i == |rows| {
      assert rows[..i] == rows;
    } else {
      var s := rows[i];
      RowAt(rows, i);
      assert b[..ROW] == RowBytes(s);
      RowRoundTrip(s);
      RoomLeft(t, rows[..i], s.key);
      var p := Find(t, s.key).p;
      PutRow(t, s, p);
      assert rows[..i + 1][..i] == rows[..i];
      assert b[ROW..] == RowsBytes(rows)[ROW * (i + 1)..];
      ImportRebuilds(rows, i + 1, t[p := s]);
    }
  }

  lemma PutRow(t: Table, s: Slot, p: nat)
    requires TableOK(t) && SlotsOK(t) && ValidKey(s.key) && ValidCell(s.cell) && Find(t, s.key) == Vacant(p)
    ensures p < CAPACITY && TableOK(t[p := s]) && SlotsOK(t[p := s]) && Map(t[p := s]) == Map(t)[s.key := s.cell]
  {
    hide TableOK, Find, Map, ValidCell;
    assert Slot(s.key, s.cell) == s;
    PutRefines(t, s.key, s.cell, p);
  }

  lemma HeaderFields(m: Model, checkpoint: nat, count: nat)
    ensures var h := HeaderBytes(m, checkpoint, count);
            && h[..4] == MAGIC && h[4] == VERSION && h[5] == HEADER && h[6] == ROW && h[7] == 0
            && h[8..16] == Put(m.site, 8) && h[16..20] == Put(m.generation, 4) && h[20..24] == Put(checkpoint, 4)
            && h[24..26] == Put(count, 2)
            && Policy(h[26], h[27], h[28]) == m.policy && h[29] == 0 && h[30] == 0 && h[31] == 0
  {
    hide Put;
  }

  lemma TableRows(t: Table)
    requires TableOK(t) && SlotsOK(t)
    ensures RowsOK(Occupied(t, CAPACITY)) && RowsMap(Occupied(t, CAPACITY)) == Map(t)
  {
    OccupiedDistinct(t, CAPACITY);
    OccupiedMap(t, CAPACITY);
    hide ValidKey, ValidCell, TableOK, RowsMap;
  }

  lemma BodyFields(m: Model, checkpoint: nat)
    requires SlotsOK(m.table)
    ensures var rows, b := Occupied(m.table, CAPACITY), Export(m, checkpoint);
            && |b| == HEADER + ROW * |rows| + 4
            && b[..HEADER] == HeaderBytes(m, checkpoint, |rows|) && b[HEADER..|b| - 4] == RowsBytes(rows)
            && b[..|b| - 4] == Body(m, checkpoint) && b[|b| - 4..] == Put(Crc32(Body(m, checkpoint)), 4)
  {
    hide HeaderBytes, RowsBytes, Occupied, Crc32, Put, SlotsOK;
  }

  lemma SubSlice(b: seq<byte>, h: seq<byte>, i: nat, j: nat)
    requires i <= j <= |h| <= |b| && b[..|h|] == h
    ensures b[i..j] == h[i..j]
  {
    assert b[..|h|][i..j] == b[i..j];
  }

  /** The exported blob passes every check of `blob_valid`. */
  lemma ExportValid(m: Model, checkpoint: nat)
    requires ModelOK(m) && Nonzero32(checkpoint)
    ensures var b := Export(m, checkpoint);
            && BlobValid(b, m.site)
            && Policy(b[26], b[27], b[28]) == m.policy && Get(b[16..20]) == m.generation && Get(b[20..24]) == checkpoint
            && b[HEADER..|b| - 4] == RowsBytes(Occupied(m.table, CAPACITY))
  {
    hide Export, Body, HeaderBytes, RowsBytes, Occupied, Crc32, Get, Put, TableOK, SlotsOK, ValidPolicy;
    var n, b := |Occupied(m.table, CAPACITY)|, Export(m, checkpoint);
    BodyFields(m, checkpoint);
    HeaderIn(b, m, checkpoint, n);
    Crc32Fits(Body(m, checkpoint));
    Back8(m.site);
    Back4(m.generation);
    Back4(checkpoint);
    Back2(n);
    Back4(Crc32(Body(m, checkpoint)));
  }

  /** The header's fields, at their places in the blob. */
  lemma HeaderIn(b: seq<byte>, m: Model, checkpoint: nat, n: nat)
    requires HEADER <= |b| && b[..HEADER] == HeaderBytes(m, checkpoint, n)
    ensures b[..4] == MAGIC && b[4] == VERSION && b[5] == HEADER && b[6] == ROW && b[7] == 0
    ensures b[8..16] == Put(m.site, 8) && b[16..20] == Put(m.generation, 4) && b[20..24] == Put(checkpoint, 4)
    ensures b[24..26] == Put(n, 2) && Policy(b[26], b[27], b[28]) == m.policy && b[29] == 0 && b[30] == 0 && b[31] == 0
  {
    hide HeaderBytes, Put;
    var h := HeaderBytes(m, checkpoint, n);
    HeaderFields(m, checkpoint, n);
    SubSlice(b, h, 0, 4);
    SubSlice(b, h, 8, 16);
    SubSlice(b, h, 16, 20);
    SubSlice(b, h, 20, 24);
    SubSlice(b, h, 24, 26);
    assert forall i :: 0 <= i < HEADER ==> b[i] == b[..HEADER][i];
  }

  /** Export then import is the identity on what the model means: every reachable model's blob is accepted and
      restores the same key-to-cell map, site, policy and generation, even from a full table. */
  lemma ExportImport(m: Model, checkpoint: nat)
    requires ModelOK(m) && Nonzero32(checkpoint)
    ensures var r := Import(Export(m, checkpoint), m.site);
            && r.Some? && ModelOK(r.value)
            && Map(r.value.table) == Map(m.table)
            && r.value.(table := m.table) == m.(checkpoint := checkpoint)
  {
    hide Export, BlobValid, RowsBytes, Occupied, Map, TableOK, SlotsOK, RowsMap, RowsOK, ImportRows, EmptyTable, Get;
    var rows := Occupied(m.table, CAPACITY);
    TableRows(m.table);
    ExportValid(m, checkpoint);
    EmptyOK();
    NoRowsYet(rows);
    ImportRebuilds(rows, 0, EmptyTable());
  }

  lemma NoRowsYet(rows: seq<Slot>)
    requires RowsOK(rows)
    ensures RowsMap(rows[..0]) == map[] && RowsBytes(rows)[ROW * 0..] == RowsBytes(rows)
  {
  }

  // ----- operations and runs

  function NextGeneration(g: nat): nat { if g + 1 >= 0x1_0000_0000 then 1 else g + 1 }

  /** One satellite reading. */
  datatype Reading = Reading(gnss: byte, sv: byte, signal: byte, utc: nat, cno: byte)

  /** Readings that `observe` looks at; the first edge model is GPS only. */
  predicate Usable(r: Reading) {
    r.gnss == 0 && r.sv != 0 && 1 <= r.cno <= 99 && r.utc / SIDEREAL <= UINT16_MAX
  }

  function KeyOf(r: Reading): Key { Key(r.gnss, r.sv, r.signal, r.utc % SIDEREAL / PHASE_SECONDS) }

  function SampleOf(r: Reading): Sample { Sample(r.utc / SIDEREAL, r.cno) }

  function CellAfter(c: Cell, p: Policy, r: Reading): Cell {
    if |c.history| == DAYS && c.next < DAYS then Observe(c, p, SampleOf(r).cycle, r.cno) else c
  }

  /** `observe`: find or create the cell, then feed it; finishing a cycle bumps the model generation. */
  function Learn(m: Model, r: Reading): Model {
    if !Usable(r) then m
    else match Find(m.table, KeyOf(r))
      case Exhausted => m
      case Vacant(p) => m.(table := m.table[p := Slot(KeyOf(r), CellAfter(BLANK, m.policy, r))])
      case Found(p) =>
        m.(table := m.table[p := Slot(KeyOf(r), CellAfter(m.table[p].cell, m.policy, r))],
           generation := if m.table[p].cell.count != 0 && SampleOf(r).cycle > m.table[p].cell.cycle
                         then NextGeneration(m.generation) else m.generation)
  }

  /** `power_history_bind`: a changed identity or policy clears the model. */
  function Bind(m: Model, site: nat, policy: Policy): Model {
    if site == 0 || !ValidPolicy(policy) || (m.site == site && m.policy == policy) then m
    else Model(site, policy, 1, 0, EmptyTable())
  }

  /** `power_history_import` applied to a model: a malformed header changes nothing, a malformed row unbinds. */
  function Load(m: Model, b: seq<byte>, site: nat): Model {
    if Import(b, site).Some? then Import(b, site).value
    else if BlobValid(b, site) then Restored(b, site, EmptyTable()).(site := 0)
    else m
  }

  datatype Op = BindOp(site: nat, policy: Policy) | LearnOp(r: Reading) | LoadOp(blob: seq<byte>, site: nat)

  /** What the callers guarantee: 64-bit identities, and signals that passed `nr_decode`. */
  predicate ValidOp(op: Op) {
    match op
    case BindOp(site, _) => site < 0x1_0000_0000_0000_0000
    case LearnOp(r) => r.signal == NR_SATELLITE || r.signal <= 31
    case LoadOp(_, site) => 0 < site < 0x1_0000_0000_0000_0000
  }

  /** The model learns only while it is bound to a site. */
  function Apply(m: Model, op: Op): Model {
    match op
    case BindOp(site, policy) => Bind(m, site, policy)
    case LearnOp(r) => if m.site == 0 then m else Learn(m, r)
    case LoadOp(blob, site) => Load(m, blob, site)
  }

  function Run(m: Model, ops: seq<Op>): Model {
    if ops == [] then m else Apply(Run(m, ops[..|ops| - 1]), ops[|ops| - 1])
  }

  predicate Sound(m: Model) { m.site == 0 || ModelOK(m) }

  lemma LearnOK(m: Model, r: Reading)
    requires ModelOK(m) && (r.signal == NR_SATELLITE || r.signal <= 31)
    ensures ModelOK(Learn(m, r))
    ensures Usable(r) ==>
      Map(Learn(m, r).table) == if Find(m.table, KeyOf(r)) == Exhausted then Map(m.table)
        else
          var was := if KeyOf(r) in Map(m.table) then Map(m.table)[KeyOf(r)] else BLANK;
          Map(m.table)[KeyOf(r) := CellAfter(was, m.policy, r)]
  {
    hide Find, Map, TableOK, CellAfter, ValidCell, KeyOf, SampleOf, NextGeneration;
    if Usable(r) {
      var k, t := KeyOf(r), m.table;
      FindMap(t, k);
      UsableKey(r);
      NextGenerationFits(m.generation);
      if Find(t, k) != Exhausted {
        var p := Find(t, k).p;
        var c := if Find(t, k).Found? then t[p].cell else BLANK;
        BlankOK();
        CellAfterOK(c, m.policy, r);
        PutRefines(t, k, CellAfter(c, m.policy, r), p);
      }
    }
  }

  lemma BlankOK()
    ensures ValidCell(BLANK)
  {
  }

  lemma UsableKey(r: Reading)
    requires Usable(r) && (r.signal == NR_SATELLITE || r.signal <= 31)
    ensures ValidKey(KeyOf(r))
  {
  }

  lemma NextGenerationFits(g: nat)
    requires Nonzero32(g)
    ensures Nonzero32(NextGeneration(g))
  {
  }

  lemma CellAfterOK(c: Cell, p: Policy, r: Reading)
    requires ValidCell(c) && Usable(r)
    ensures ValidCell(CellAfter(c, p, r))
  {
    ObserveValid(c, p, SampleOf(r).cycle, r.cno);
    hide Observe;
  }

  lemma {:induction false} ImportRowsOK(rows: seq<byte>, t: Table)
    requires |rows| % ROW == 0 && TableOK(t) && SlotsOK(t)
    ensures ImportRows(rows, t).Some? ==> TableOK(ImportRows(rows, t).value) && SlotsOK(ImportRows(rows, t).value)
    decreases |rows|
  {
    hide Find, TableOK, SlotsOK, ParseRow, Map, ValidCell, ValidKey;
    if rows != [] && PlaceRow(rows[..ROW], t).Some? {
      var s := ParseRow(rows[..ROW]);
      PutRow(t, s, Find(t, s.key).p);
      ImportRowsOK(rows[ROW..], PlaceRow(rows[..ROW], t).value);
    }
  }

  lemma LoadOK(m: Model, b: seq<byte>, site: nat)
    requires Sound(m) && 0 < site < 0x1_0000_0000_0000_0000
    ensures Sound(Load(m, b, site))
  {
    hide TableOK, SlotsOK, ImportRows, Get, Crc32, ValidPolicy, EmptyTable;
    if Import(b, site).Some? {
      EmptyOK();
      Widths();
      ImportRowsOK(b[HEADER..|b| - 4], EmptyTable());
    }
  }

  lemma ApplySound(m: Model, op: Op)
    requires Sound(m) && ValidOp(op)
    ensures Sound(Apply(m, op))
  {
    match op
    case BindOp(site, policy) => EmptyOK();
    case LearnOp(r) => if m.site != 0 { LearnOK(m, r); }
    case LoadOp(blob, site) => LoadOK(m, blob, site);
    hide *;
  }

  lemma {:induction false} RunSound(m: Model, ops: seq<Op>)
    requires Sound(m) && forall i :: 0 <= i < |ops| ==> ValidOp(ops[i])
    ensures Sound(Run(m, ops))
  {
    hide Sound, Apply, ValidOp;
    if ops != [] {
      RunSound(m, ops[..|ops| - 1]);
      ApplySound(Run(m, ops[..|ops| - 1]), ops[|ops| - 1]);
    }
  }

  /** Persistence: in every run of binds, readings and loads from power-up, a bound model's export is accepted by
      import and restores the same key-to-cell map, site, policy and generation. */
  lemma CheckpointRestores(m0: Model, ops: seq<Op>, checkpoint: nat)
    requires m0.site == 0 && (forall i :: 0 <= i < |ops| ==> ValidOp(ops[i])) && Nonzero32(checkpoint)
    ensures var m := Run(m0, ops);
            m.site != 0 ==>
              && SlotsOK(m.table)
              && var r := Import(Export(m, checkpoint), m.site);
                 r.Some? && Map(r.value.table) == Map(m.table)
                   && r.value.(table := m.table) == m.(checkpoint := checkpoint)
  {
    RunSound(m0, ops);
    hide Run, Import, Export, Map, ValidOp;
    if Run(m0, ops).site != 0 {
      ExportImport(Run(m0, ops), checkpoint);
    }
  }

  // ----- every stored cell is the history of its own readings

  function LearnAll(m: Model, rs: seq<Reading>): Model {
    if rs == [] then m else Learn(LearnAll(m, rs[..|rs| - 1]), rs[|rs| - 1])
  }

  /** The readings of one key, as samples of its cell. */
  function SamplesFor(k: Key, rs: seq<Reading>): seq<Sample> {
    if rs == [] then []
    else
      SamplesFor(k, rs[..|rs| - 1]) +
      if Usable(rs[|rs| - 1]) && KeyOf(rs[|rs| - 1]) == k then [SampleOf(rs[|rs| - 1])] else []
  }

  predicate Full(t: Table) { forall p :: 0 <= p < CAPACITY ==> !Free(t[p]) }

  /** The cell of key `k`, as the map holds it. */
  predicate CellIs(t: Table, k: Key, p: Policy, v: seq<Sample>) {
    if k in Map(t) then v != [] && Map(t)[k] == ObserveAll(p, v) else v == [] || Full(t)
  }

  lemma LearnCell(m: Model, k: Key, r: Reading, v: seq<Sample>)
    requires ModelOK(m) && (r.signal == NR_SATELLITE || r.signal <= 31) && CellIs(m.table, k, m.policy, v)
    ensures CellIs(Learn(m, r).table, k, m.policy, if Usable(r) && KeyOf(r) == k then v + [SampleOf(r)] else v)
  {
    LearnOK(m, r);
    if Usable(r) {
      FindMap(m.table, KeyOf(r));
      LearnFull(m, r);
      if KeyOf(r) == k {
        var w := v + [SampleOf(r)];
        assert w[..|v|] == v && w[|v|] == SampleOf(r);
        assert ObserveAll(m.policy, w) == Observe(ObserveAll(m.policy, v), m.policy, SampleOf(r).cycle, r.cno);
        assert v == [] ==> ObserveAll(m.policy, v) == BLANK;
      }
    }
    hide Find, Map, ModelOK, Observe, ObserveAll, KeyOf, Usable;
  }

  lemma LearnPolicy(m: Model, r: Reading)
    ensures Learn(m, r).policy == m.policy
  {
    hide Find, Usable, CellAfter;
  }

  lemma LearnFull(m: Model, r: Reading)
    requires ModelOK(m) && Usable(r)
    ensures Full(m.table) ==> Full(Learn(m, r).table)
  {
    FindMap(m.table, KeyOf(r));
    hide Find, Map, Observe;
  }

  /** Every cell in the map is exactly what its own readings make of a new cell; a key with readings is missing
      only when the table is full. */
  lemma {:induction false} LearnAllCells(m: Model, rs: seq<Reading>, k: Key)
    requires ModelOK(m) && m.table == EmptyTable()
    requires forall i :: 0 <= i < |rs| ==> rs[i].signal == NR_SATELLITE || rs[i].signal <= 31
    ensures ModelOK(LearnAll(m, rs)) && LearnAll(m, rs).policy == m.policy
    ensures CellIs(LearnAll(m, rs).table, k, m.policy, SamplesFor(k, rs))
  {
    if rs == [] {
      EmptyOK();
    } else {
      hide ModelOK, CellIs, Usable, KeyOf, SampleOf;
      var u := rs[..|rs| - 1];
      assert SamplesFor(k, u) + [] == SamplesFor(k, u);
      LearnAllCells(m, u, k);
      LearnOK(LearnAll(m, u), rs[|rs| - 1]);
      LearnPolicy(LearnAll(m, u), rs[|rs| - 1]);
      LearnCell(LearnAll(m, u), k, rs[|rs| - 1], SamplesFor(k, u));
    }
  }

  lemma CycleMonotone(a: nat, b: nat)
    requires a <= b
    ensures a / SIDEREAL <= b / SIDEREAL
  {
  }

  lemma AppendInOrder(v: seq<Sample>, s: Sample)
    requires InOrder(v) && s.cycle <= UINT16_MAX && 1 <= s.cno <= 99 && (v != [] ==> v[|v| - 1].cycle <= s.cycle)
    ensures InOrder(v + [s])
  {
  }

  lemma {:induction false} SamplesInOrder(k: Key, rs: seq<Reading>)
    requires forall i, j :: 0 <= i < j < |rs| ==> rs[i].utc <= rs[j].utc
    ensures InOrder(SamplesFor(k, rs))
    ensures SamplesFor(k, rs) != [] ==>
      rs != [] && SamplesFor(k, rs)[|SamplesFor(k, rs)| - 1].cycle <= rs[|rs| - 1].utc / SIDEREAL
  {
    if rs != [] {
      hide InOrder, KeyOf, SampleOf, Usable;
      var u, r := rs[..|rs| - 1], rs[|rs| - 1];
      SamplesInOrder(k, u);
      if u != [] { CycleMonotone(u[|u| - 1].utc, r.utc); }
      if Usable(r) && KeyOf(r) == k {
        UsableSample(r);
        AppendInOrder(SamplesFor(k, u), SampleOf(r));
      } else {
        assert SamplesFor(k, u) + [] == SamplesFor(k, u);
      }
    }
  }

  lemma UsableSample(r: Reading)
    requires Usable(r)
    ensures SampleOf(r).cycle == r.utc / SIDEREAL <= UINT16_MAX && 1 <= SampleOf(r).cno <= 99
  {
  }

  /** The history of the whole model: with readings in time order, the ring of every stored cell holds the rounded
      means of that key's accepted readings over its last four finished sidereal cycles. */
  lemma ModelHistory(m: Model, rs: seq<Reading>, k: Key)
    requires ModelOK(m) && m.table == EmptyTable()
    requires forall i :: 0 <= i < |rs| ==> rs[i].signal == NR_SATELLITE || rs[i].signal <= 31
    requires forall i, j :: 0 <= i < j < |rs| ==> rs[i].utc <= rs[j].utc
    ensures var t := LearnAll(m, rs).table;
            k in Map(t) ==> RingOf(Map(t)[k], m.policy, SamplesFor(k, rs))
  {
    LearnAllCells(m, rs, k);
    SamplesInOrder(k, rs);
    HistoryMeaning(m.policy, SamplesFor(k, rs));
    hide ModelOK, LearnAll, SamplesFor, RingOf, Map;
  }
}
