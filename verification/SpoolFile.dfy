/** The NAVSPO01 spool file: its byte layout, the record reader of the drain loop,
    and startup recovery (feeder/navfeeder.c). */
module SpoolFile {
  import opened BigEndian

  const MAGIC: seq<byte> := [78, 65, 86, 83, 80, 79, 48, 49]  // "NAVSPO01"
  const SESSION_CAP := 64
  const HEADER_LEN := 73
  const RECORD_MIN := 13      // RECORD_HDR
  const RECORD_MAX := 1037    // GNF_RECORD
  const UINT64_MAX := 0xFFFF_FFFF_FFFF_FFFF

  /** One complete GNF1 DATA record with its assigned sequence. */
  datatype Frame = Frame(seqno: nat, data: seq<byte>)

  /** What the record header can express. */
  predicate Encodable(f: Frame) { 0 < f.seqno <= UINT64_MAX && |f.data| < 0x1_0000_0000 }

  /** The lengths the producers build: a record header and at most `MAX_RAW` bytes. */
  predicate LengthOK(f: Frame) { RECORD_MIN <= |f.data| <= RECORD_MAX }

  predicate ValidFrame(f: Frame) { 0 < f.seqno <= UINT64_MAX && LengthOK(f) }

  predicate Increasing(fs: seq<Frame>) {
    forall i, j :: 0 <= i < j < |fs| ==> fs[i].seqno < fs[j].seqno
  }

  predicate ValidFrames(fs: seq<Frame>) {
    (forall i :: 0 <= i < |fs| ==> ValidFrame(fs[i])) && Increasing(fs)
  }

  predicate SessionByte(c: byte) {
    97 <= c <= 122 || 65 <= c <= 90 || 48 <= c <= 57 || c == 46 || c == 95 || c == 45
  }

  /** `session_charset_ok` over the first `n` bytes of `s`. */
  predicate SessionOK(s: seq<byte>) {
    0 < |s| <= SESSION_CAP && forall i :: 0 <= i < |s| ==> SessionByte(s[i])
  }

  /** `session` never exceeds its 64-byte field. */
  type SessionName = s: seq<byte> | |s| <= SESSION_CAP

  function Zeros(n: nat): (z: seq<byte>)
    ensures |z| == n
  {
    seq(n, _ => 0)
  }

  function Header(session: SessionName): (h: seq<byte>)
    ensures |h| == HEADER_LEN
  {
    MAGIC + [|session|] + session + Zeros(SESSION_CAP - |session|)
  }

  /** One record: sequence, length, payload. */
  function RecordBytes(f: Frame): (b: seq<byte>)
    ensures |b| == 12 + |f.data|
  {
    Put(f.seqno, 8) + Put(|f.data|, 4) + f.data
  }

  function RecordsBytes(fs: seq<Frame>): seq<byte> {
    if fs == [] then [] else RecordsBytes(fs[..|fs| - 1]) + RecordBytes(fs[|fs| - 1])
  }

  /** The file the appender maintains. */
  function Layout(session: SessionName, fs: seq<Frame>): seq<byte>
  {
    Header(session) + RecordsBytes(fs)
  }

  /** What one `fread` of a header and its payload sees at `off` (the drain's reader). */
  function ReadAt(file: seq<byte>, off: nat): (r: Option<Frame>)
    ensures r.Some? ==> off + 12 + |r.value.data| <= |file| && |r.value.data| <= RECORD_MAX
  {
    if off + 12 > |file| then None
    else
      var len := Get(file[off + 8..off + 12]);
      if len > RECORD_MAX || off + 12 + len > |file| then None
      else Some(Frame(Get(file[off..off + 8]), file[off + 12..off + 12 + len]))
  }

  // ----- layout lemmas

  lemma Assoc<T>(a: seq<T>, b: seq<T>, c: seq<T>)
    ensures (a + b) + c == a + (b + c)
  {
  }

  lemma RecordsSnoc(fs: seq<Frame>, f: Frame)
    ensures RecordsBytes(fs + [f]) == RecordsBytes(fs) + RecordBytes(f)
  {
    hide RecordBytes;
    assert (fs + [f])[..|fs|] == fs;
  }

  lemma {:induction false} RecordsConcat(a: seq<Frame>, b: seq<Frame>)
    ensures RecordsBytes(a + b) == RecordsBytes(a) + RecordsBytes(b)
    decreases |b|
  {
    hide RecordBytes;
    if b == [] {
      assert a + b == a;
    } else {
      var b', f := b[..|b| - 1], b[|b| - 1];
      RecordsConcat(a, b');
      assert a + b == (a + b') + [f];
      RecordsSnoc(a + b', f);
      Assoc(RecordsBytes(a), RecordsBytes(b'), RecordBytes(f));
    }
  }

  lemma RecordsSplit(fs: seq<Frame>, k: nat)
    requires k < |fs|
    ensures RecordsBytes(fs) == RecordsBytes(fs[..k]) + RecordBytes(fs[k]) + RecordsBytes(fs[k + 1..])
    ensures RecordsBytes(fs[..k + 1]) == RecordsBytes(fs[..k]) + RecordBytes(fs[k])
  {
    hide RecordBytes, RecordsBytes;
    CutAt(fs, k);
    RecordsConcat(fs[..k + 1], fs[k + 1..]);
    RecordsSnoc(fs[..k], fs[k]);
  }

  lemma CutAt<T>(s: seq<T>, k: nat)
    requires k < |s|
    ensures s[..k + 1] + s[k + 1..] == s && s[..k + 1] == s[..k] + [s[k]]
  {
  }

  lemma PrefixLonger(fs: seq<Frame>, k: nat)
    requires k <= |fs|
    ensures |RecordsBytes(fs[..k])| <= |RecordsBytes(fs)|
    ensures k < |fs| ==> |RecordsBytes(fs[..k])| + 12 <= |RecordsBytes(fs)|
  {
    if k < |fs| {
      RecordsSplit(fs, k);
    } else {
      assert fs[..k] == fs;
    }
  }

  /** The twelve header bytes of a record read back as its sequence and length. */
  lemma HeaderFields(pre: seq<byte>, f: Frame, cut: seq<byte>)
    requires Encodable(f)
    requires pre <= cut && 12 <= |cut| - |pre| && |cut| - |pre| <= |RecordBytes(f)|
    requires cut[|pre|..] == RecordBytes(f)[..|cut| - |pre|]
    ensures Get(cut[|pre|..|pre| + 8]) == f.seqno
    ensures Get(cut[|pre| + 8..|pre| + 12]) == |f.data|
  {
    var r := RecordBytes(f);
    assert cut[|pre|..|pre| + 8] == cut[|pre|..][..8] == r[..8] == Put(f.seqno, 8);
    assert cut[|pre| + 8..|pre| + 12] == cut[|pre|..][8..12] == r[8..12] == Put(|f.data|, 4);
    Back8(f.seqno);
    Back4(|f.data|);
  }

  /** A whole record at `|pre|` is read back exactly, whatever follows it. */
  lemma ReadWhole(pre: seq<byte>, f: Frame, post: seq<byte>)
    requires ValidFrame(f)
    ensures ReadAt(pre + RecordBytes(f) + post, |pre|) == Some(f)
  {
    var file := pre + RecordBytes(f) + post;
    var head := pre + RecordBytes(f);
    assert head[|pre|..] == RecordBytes(f)[..|head| - |pre|];
    HeaderFields(pre, f, head);
    assert file[|pre|..|pre| + 8] == head[|pre|..|pre| + 8];
    assert file[|pre| + 8..|pre| + 12] == head[|pre| + 8..|pre| + 12];
    assert RecordBytes(f)[12..] == f.data;
    assert file[|pre| + 12..|pre| + 12 + |f.data|] == RecordBytes(f)[12..];
  }

  /** A record cut short anywhere is not read at all. */
  lemma ReadTorn(pre: seq<byte>, f: Frame, n: nat)
    requires ValidFrame(f) && n < |RecordBytes(f)|
    ensures ReadAt(pre + RecordBytes(f)[..n], |pre|) == None
  {
    var file := pre + RecordBytes(f)[..n];
    if n >= 12 {
      assert file[|pre|..] == RecordBytes(f)[..|file| - |pre|];
      HeaderFields(pre, f, file);
    }
  }

  // ----- recovery

  datatype Recovery =
    | Replay(session: seq<byte>, last: nat, good: nat)  // validated replay-only prefix
    | Discarded                                          // absent, or removed
    | Preserved                                          // uncertain or corrupt: nothing is touched

  datatype Scan = Corrupt | End(last: nat, good: nat, count: nat, torn: bool)

  /** The record scan of `spool_recover` from byte `good` on, with `last` the sequence before it. */
  function ScanFrom(file: seq<byte>, last: nat, good: nat, count: nat): Scan
    requires good <= |file|
    decreases |file| - good
  {
    if |file| - good < 12 then End(last, good, count, good < |file|)
    else
      var s := Get(file[good..good + 8]);
      var len := Get(file[good + 8..good + 12]);
      if s <= last || len < RECORD_MIN || len > RECORD_MAX then Corrupt
      else if good + 12 + len > |file| then End(last, good, count, true)
      else ScanFrom(file, s, good + 12 + len, count + 1)
  }

  /** The scan that recognises a whole pre-session file. */
  predicate LegacyFrom(file: seq<byte>, previous: nat, off: nat)
    requires off <= |file|
    decreases |file| - off
  {
    if off == |file| then true
    else if |file| - off < 12 then false
    else
      var s := Get(file[off..off + 8]);
      var len := Get(file[off + 8..off + 12]);
      s > previous && 0 < len <= RECORD_MAX && off + 12 + len <= |file| &&
      LegacyFrom(file, s, off + 12 + len)
  }

  /** `spool_recover`: the verdict and the file it leaves behind. */
  function Recover(file: Option<seq<byte>>, unlinks: bool, truncates: bool): (Recovery, Option<seq<byte>>) {
    if file.None? then (Discarded, None)
    else
      var b := file.value;
      var discard := if unlinks then (Discarded, None) else (Preserved, file);
      if |b| < 8 || b[..8] != MAGIC then
        if |b| < 12 || Get(b[..8]) == 0 || Get(b[8..12]) == 0 || Get(b[8..12]) > RECORD_MAX then (Preserved, file)
        else if LegacyFrom(b, 0, 0) then discard
        else (Preserved, file)
      else if |b| < HEADER_LEN || b[8] > SESSION_CAP || !SessionOK(b[9..9 + b[8]]) then (Preserved, file)
      else
        match ScanFrom(b, 0, HEADER_LEN, 0)
        case Corrupt => (Preserved, file)
        case End(last, good, count, torn) =>
          if count == 0 then discard
          else if torn && !truncates then (Preserved, file)
          else (Replay(b[9..9 + b[8]], last, good), Some(if torn && good <= |b| then b[..good] else b))
  }

  method ScanLoop(file: seq<byte>) returns (r: Scan)
    requires HEADER_LEN <= |file|
    ensures r == ScanFrom(file, 0, HEADER_LEN, 0)
  {
    var last, good, count := 0, HEADER_LEN, 0;
    while true
      invariant HEADER_LEN <= good <= |file|
      invariant ScanFrom(file, last, good, count) == ScanFrom(file, 0, HEADER_LEN, 0)
      decreases |file| - good
    {
      if |file| - good < 12 { return End(last, good, count, good < |file|); }
      var s := ReadLoop(file[good..good + 8]);
      var len := ReadLoop(file[good + 8..good + 12]);
      if s <= last || len < RECORD_MIN || len > RECORD_MAX { return Corrupt; }
      if good + 12 + len > |file| { return End(last, good, count, true); }
      last, good, count := s, good + 12 + len, count + 1;
    }
  }

  method LegacyLoop(file: seq<byte>) returns (r: bool)
    ensures r == LegacyFrom(file, 0, 0)
  {
    var previous, off := 0, 0;
    while off < |file|
      invariant 0 <= off <= |file|
      invariant LegacyFrom(file, previous, off) == LegacyFrom(file, 0, 0)
    {
      if |file| - off < 12 { return false; }
      var s := ReadLoop(file[off..off + 8]);
      var len := ReadLoop(file[off + 8..off + 12]);
      if s <= previous || len == 0 || len > RECORD_MAX || off + 12 + len > |file| { return false; }
      previous, off := s, off + 12 + len;
    }
    return true;
  }

  /** `spool_recover` as the program runs it. */
  method RecoverFile(file: Option<seq<byte>>, unlinks: bool, truncates: bool)
    returns (r: Recovery, left: Option<seq<byte>>)
    ensures (r, left) == Recover(file, unlinks, truncates)
  {
    hide ScanFrom, LegacyFrom, SessionByte;
    if file.None? { return Discarded, None; }
    var b := file.value;
    if |b| < 8 || b[..8] != MAGIC {
      if |b| < 12 { return Preserved, file; }
      var s := ReadLoop(b[..8]);
      var len := ReadLoop(b[8..12]);
      if s == 0 || len == 0 || len > RECORD_MAX { return Preserved, file; }
      var legacy := LegacyLoop(b);
      if legacy && unlinks { return Discarded, None; }
      return Preserved, file;
    }
    if |b| < HEADER_LEN || b[8] > SESSION_CAP || !SessionOK(b[9..9 + b[8]]) { return Preserved, file; }
    var scan := ScanLoop(b);
    if scan == Corrupt { return Preserved, file; }
    if scan.count == 0 {
      if unlinks { return Discarded, None; }
      return Preserved, file;
    }
    if scan.torn && !truncates { return Preserved, file; }
    r := Replay(b[9..9 + b[8]], scan.last, scan.good);
    left := Some(if scan.torn && scan.good <= |b| then b[..scan.good] else b);
  }

  /** How many whole records fit in the first `n` bytes of the record area. */
  function WholeCount(fs: seq<Frame>, n: nat): (k: nat)
    ensures k <= |fs| && |RecordsBytes(fs[..k])| <= n
    ensures forall j :: k < j <= |fs| ==> |RecordsBytes(fs[..j])| > n
    decreases |fs|
  {
    hide RecordsBytes;
    SamePrefixes(fs);
    if fs == [] || |RecordsBytes(fs)| <= n then NoBytes(); |fs| else WholeCount(fs[..|fs| - 1], n)
  }

  lemma NoBytes()
    ensures RecordsBytes([]) == []
  {
  }

  lemma SamePrefixes(fs: seq<Frame>)
    ensures fs[..|fs|] == fs
    ensures fs != [] ==> forall j :: 0 <= j < |fs| ==> fs[..|fs| - 1][..j] == fs[..j]
  {
  }

  /** The scan of a cut file stops exactly after its whole records. */
  lemma {:induction false} ScanCut(pre: seq<byte>, fs: seq<Frame>, file: seq<byte>, k: nat, last: nat, count: nat)
    requires ValidFrames(fs) && k <= |fs|
    requires |pre| + |RecordsBytes(fs[..k])| <= |file| <= |pre| + |RecordsBytes(fs)|
    requires file == (pre + RecordsBytes(fs))[..|file|]
    requires forall i :: k <= i < |fs| ==> fs[i].seqno > last
    ensures var n := WholeCount(fs, |file| - |pre|);
            var good := |pre| + |RecordsBytes(fs[..n])|;
            k <= n && ScanFrom(file, last, |pre| + |RecordsBytes(fs[..k])|, count)
              == End(if n == k then last else fs[n - 1].seqno, good, count + n - k, good < |file|)
    decreases |fs| - k
  {
    hide RecordBytes, RecordsBytes, WholeCount, ScanFrom;
    assert fs[..|fs|] == fs;
    if k == |fs| {
      ScanEnd(file, last, count);
    } else {
      var f, head := fs[k], pre + RecordsBytes(fs[..k]);
      RecordsSplit(fs, k);
      SplitFull(pre, RecordsBytes(fs[..k]), RecordBytes(f), RecordsBytes(fs[k + 1..]));
      ScanOne(head, f, RecordsBytes(fs[k + 1..]), file, last, count);
      if |file| >= |head| + 12 + |f.data| {
        ScanCut(pre, fs, file, k + 1, f.seqno, count + 1);
      } else {
        NoneLonger(fs, k, |file| - |pre|);
      }
    }
  }

  lemma ScanEnd(file: seq<byte>, last: nat, count: nat)
    ensures ScanFrom(file, last, |file|, count) == End(last, |file|, count, false)
  {
  }

  /** One turn of the recovery scan at a record boundary: a whole record is consumed, a cut one ends it. */
  lemma ScanOne(head: seq<byte>, f: Frame, post: seq<byte>, file: seq<byte>, last: nat, count: nat)
    requires ValidFrame(f) && f.seqno > last
    requires |head| <= |file| <= |head + RecordBytes(f) + post|
    requires file == (head + RecordBytes(f) + post)[..|file|]
    ensures ScanFrom(file, last, |head|, count)
         == if |file| >= |head| + 12 + |f.data| then ScanFrom(file, f.seqno, |head| + 12 + |f.data|, count + 1)
            else End(last, |head|, count, |head| < |file|)
  {
    hide RecordBytes;
    if |file| - |head| >= 12 {
      FieldsInCut(head, f, post, file);
    }
  }

  lemma SplitFull(pre: seq<byte>, a: seq<byte>, r: seq<byte>, b: seq<byte>)
    ensures pre + (a + r + b) == (pre + a) + r + b
  {
  }

  lemma FieldsInCut(head: seq<byte>, f: Frame, post: seq<byte>, file: seq<byte>)
    requires Encodable(f)
    requires |head| + 12 <= |file| <= |head + RecordBytes(f) + post|
    requires file == (head + RecordBytes(f) + post)[..|file|]
    ensures Get(file[|head|..|head| + 8]) == f.seqno
    ensures Get(file[|head| + 8..|head| + 12]) == |f.data|
  {
    hide RecordBytes;
    var full := head + RecordBytes(f) + post;
    var cut := full[..|head| + 12];
    assert cut[|head|..] == RecordBytes(f)[..12];
    HeaderFields(head, f, cut);
    assert file[|head|..|head| + 8] == cut[|head|..|head| + 8];
    assert file[|head| + 8..|head| + 12] == cut[|head| + 8..|head| + 12];
  }

  lemma NoneLonger(fs: seq<Frame>, k: nat, n: nat)
    requires k < |fs| && |RecordsBytes(fs[..k])| <= n < |RecordsBytes(fs[..k + 1])|
    ensures WholeCount(fs, n) == k
  {
    var m := WholeCount(fs, n);
    if m > k {
      assert fs[..m][..k + 1] == fs[..k + 1];
      PrefixLonger(fs[..m], k + 1);
    }
  }

  lemma LayoutHeader(session: SessionName, file: seq<byte>)
    requires SessionOK(session)
    requires HEADER_LEN <= |file| && file[..HEADER_LEN] == Header(session)
    ensures file[..8] == MAGIC && file[8] == |session| && file[9..9 + |session|] == session
  {
    var h := Header(session);
    assert file[..8] == file[..HEADER_LEN][..8] == h[..8] == MAGIC;
    assert file[8] == file[..HEADER_LEN][8] == h[8];
    assert file[9..9 + |session|] == file[..HEADER_LEN][9..9 + |session|] == h[9..9 + |session|] == session;
  }

  lemma LayoutStarts(session: SessionName, fs: seq<Frame>)
    ensures HEADER_LEN <= |Layout(session, fs)| && Layout(session, fs)[..HEADER_LEN] == Header(session)
  {
    hide Header, RecordsBytes;
  }

  lemma LayoutPrefix(session: SessionName, fs: seq<Frame>, n: nat, c: nat)
    requires n <= |fs|
    requires |Layout(session, fs[..n])| <= c <= |Layout(session, fs)|
    ensures Layout(session, fs)[..c][..|Layout(session, fs[..n])|] == Layout(session, fs[..n])
  {
    hide RecordsBytes, Header;
    assert fs == fs[..n] + fs[n..];
    RecordsConcat(fs[..n], fs[n..]);
    Assoc(Header(session), RecordsBytes(fs[..n]), RecordsBytes(fs[n..]));
  }

  /** With a valid header in place, recovery is decided by the record scan alone. */
  lemma RecoverScanned(session: SessionName, file: seq<byte>)
    requires SessionOK(session) && HEADER_LEN <= |file|
    requires file[..8] == MAGIC && file[8] == |session| && file[9..9 + |session|] == session
    ensures var r := ScanFrom(file, 0, HEADER_LEN, 0);
            r.End? && r.good <= |file| ==>
              Recover(Some(file), true, true)
                == if r.count == 0 then (Discarded, None)
                   else (Replay(session, r.last, r.good), Some(if r.torn then file[..r.good] else file))
  {
    hide ScanFrom, LegacyFrom, SessionByte;
  }

  /** Crash recovery: a file the appender wrote, cut at any byte at or past its header, recovers to
      exactly its longest whole-record prefix, or is discarded when that prefix is empty. */
  lemma RecoverCut(session: SessionName, fs: seq<Frame>, c: nat)
    requires SessionOK(session) && ValidFrames(fs)
    requires HEADER_LEN <= c <= |Layout(session, fs)|
    ensures var n := WholeCount(fs, c - HEADER_LEN);
            Recover(Some(Layout(session, fs)[..c]), true, true)
              == if n == 0 then (Discarded, None)
                 else (Replay(session, fs[n - 1].seqno, |Layout(session, fs[..n])|), Some(Layout(session, fs[..n])))
  {
    hide RecordsBytes, Header, WholeCount, ScanFrom, Recover, Layout, SessionByte;
    var n := WholeCount(fs, c - HEADER_LEN);
    ScanLayoutCut(session, fs, c);
    assert Layout(session, fs)[..c][..HEADER_LEN] == Header(session) by { LayoutStarts(session, fs); }
    LayoutHeader(session, Layout(session, fs)[..c]);
    RecoverScanned(session, Layout(session, fs)[..c]);
    LayoutPrefix(session, fs, n, c);
    assert Layout(session, fs)[..c][..c] == Layout(session, fs)[..c];
  }

  lemma ScanLayoutCut(session: SessionName, fs: seq<Frame>, c: nat)
    requires SessionOK(session) && ValidFrames(fs)
    requires HEADER_LEN <= c <= |Layout(session, fs)|
    ensures var file := Layout(session, fs)[..c];
            var n := WholeCount(fs, c - HEADER_LEN);
            var good := |Layout(session, fs[..n])|;
            && good <= c
            && ScanFrom(file, 0, HEADER_LEN, 0) == End(if n == 0 then 0 else fs[n - 1].seqno, good, n, good < c)
  {
    hide RecordBytes, RecordsBytes, Header, WholeCount, ScanFrom, SessionByte, ValidFrames;
    ScanPositive(fs);
    ScanCut(Header(session), fs, Layout(session, fs)[..c], 0, 0, 0);
  }

  lemma ScanPositive(fs: seq<Frame>)
    requires ValidFrames(fs)
    ensures forall i :: 0 <= i < |fs| ==> fs[i].seqno > 0
    ensures fs[..0] == [] && RecordsBytes(fs[..0]) == []
  {
  }

  /** A record may follow sequence `last`. */
  predicate Follows(last: nat, f: Frame) { f.seqno > last && LengthOK(f) }

  /** A record out of sequence or of another length ends the scan as corrupt. */
  lemma ScanBad(head: seq<byte>, f: Frame, post: seq<byte>, last: nat, count: nat)
    requires Encodable(f) && !Follows(last, f)
    ensures ScanFrom(head + RecordBytes(f) + post, last, |head|, count) == Corrupt
  {
    hide RecordBytes;
    var file := head + RecordBytes(f) + post;
    assert file == file[..|file|];
    FieldsInCut(head, f, post, file);
  }

  /** The sequence before record `i`. */
  function Before(fs: seq<Frame>, i: nat): nat
    requires i <= |fs|
  {
    if i == 0 then 0 else fs[i - 1].seqno
  }

  lemma {:induction false} ScanCorrupt(pre: seq<byte>, fs: seq<Frame>, k: nat, bad: nat, count: nat)
    requires k <= bad < |fs| && !Follows(Before(fs, bad), fs[bad])
    requires forall i :: 0 <= i < |fs| ==> Encodable(fs[i])
    requires forall i :: k <= i < bad ==> Follows(Before(fs, i), fs[i])
    ensures |RecordsBytes(fs[..k])| <= |RecordsBytes(fs)|
    ensures ScanFrom(pre + RecordsBytes(fs), Before(fs, k), |pre| + |RecordsBytes(fs[..k])|, count) == Corrupt
    decreases bad - k
  {
    hide RecordBytes, RecordsBytes, ScanFrom, Encodable, Follows;
    var f, head, post := fs[k], pre + RecordsBytes(fs[..k]), RecordsBytes(fs[k + 1..]);
    RecordsSplit(fs, k);
    SplitFull(pre, RecordsBytes(fs[..k]), RecordBytes(f), post);
    if k == bad {
      ScanBad(head, f, post, Before(fs, k), count);
    } else {
      ScanWhole(head, f, post, Before(fs, k), count);
      ScanCorrupt(pre, fs, k + 1, bad, count + 1);
    }
  }

  lemma ScanWhole(head: seq<byte>, f: Frame, post: seq<byte>, last: nat, count: nat)
    requires Encodable(f) && Follows(last, f)
    ensures ScanFrom(head + RecordBytes(f) + post, last, |head|, count)
         == ScanFrom(head + RecordBytes(f) + post, f.seqno, |head| + 12 + |f.data|, count + 1)
  {
    hide RecordBytes, ScanFrom;
    var file := head + RecordBytes(f) + post;
    assert file == file[..|file|];
    ScanOne(head, f, post, file, last, count);
  }

  predicate AllFollow(fs: seq<Frame>) { forall k :: 0 <= k < |fs| ==> Follows(Before(fs, k), fs[k]) }

  /** Records that follow one another are in order. */
  lemma {:induction false} FollowingOrder(fs: seq<Frame>, i: nat, j: nat)
    requires AllFollow(fs) && i < j < |fs|
    ensures fs[i].seqno < fs[j].seqno
    decreases j
  {
    hide *;
    NextFollows(fs, j);
    if i < j - 1 { FollowingOrder(fs, i, j - 1); }
  }

  lemma NextFollows(fs: seq<Frame>, j: nat)
    requires AllFollow(fs) && 0 < j < |fs|
    ensures fs[j - 1].seqno < fs[j].seqno
  {
    assert Follows(Before(fs, j), fs[j]);
  }

  /** What recovery demands of records: a whole file of them is replayed if and only if their sequences strictly
      increase and every length is one the producers build, and is otherwise set aside untouched. */
  lemma RecordsDecide(session: SessionName, fs: seq<Frame>)
    requires SessionOK(session) && fs != [] && forall i :: 0 <= i < |fs| ==> Encodable(fs[i])
    ensures var file := Layout(session, fs);
            Recover(Some(file), true, true)
              == if Increasing(fs) && forall i :: 0 <= i < |fs| ==> 13 <= |fs[i].data| <= 1037
                 then (Replay(session, fs[|fs| - 1].seqno, |file|), Some(file)) else (Preserved, Some(file))
  {
    hide Recover, ScanFrom, Layout;
    if AllFollow(fs) {
      forall i, j | 0 <= i < j < |fs|
        ensures fs[i].seqno < fs[j].seqno
      {
        FollowingOrder(fs, i, j);
      }
      RecoverWhole(session, fs);
    } else {
      var bad := FirstBad(fs);
      RecoverCorrupt(session, fs, bad);
    }
  }

  lemma RecoverWhole(session: SessionName, fs: seq<Frame>)
    requires SessionOK(session) && ValidFrames(fs) && fs != []
    ensures Recover(Some(Layout(session, fs)), true, true)
         == (Replay(session, fs[|fs| - 1].seqno, |Layout(session, fs)|), Some(Layout(session, fs)))
  {
    var c := |Layout(session, fs)|;
    LayoutStarts(session, fs);
    RecoverCut(session, fs, c);
    hide Recover, RecordBytes, Header, ValidFrame;
    assert Layout(session, fs)[..c] == Layout(session, fs);
    assert fs[..|fs|] == fs;
    assert |RecordsBytes(fs)| == c - HEADER_LEN;
    assert WholeCount(fs, c - HEADER_LEN) == |fs|;
  }

  lemma RecoverCorrupt(session: SessionName, fs: seq<Frame>, bad: nat)
    requires SessionOK(session) && bad < |fs| && forall i :: 0 <= i < |fs| ==> Encodable(fs[i])
    requires !Follows(Before(fs, bad), fs[bad]) && forall i :: 0 <= i < bad ==> Follows(Before(fs, i), fs[i])
    ensures Recover(Some(Layout(session, fs)), true, true) == (Preserved, Some(Layout(session, fs)))
  {
    hide RecordsBytes, Header, ScanFrom, LegacyFrom, SessionByte, Follows, Encodable;
    LayoutStarts(session, fs);
    LayoutHeader(session, Layout(session, fs));
    NoRecords(fs);
    ScanCorrupt(Header(session), fs, 0, bad, 0);
  }

  lemma NoRecords(fs: seq<Frame>)
    ensures RecordsBytes(fs[..0]) == []
  {
  }

  lemma FirstBad(fs: seq<Frame>) returns (bad: nat)
    requires exists i :: 0 <= i < |fs| && !Follows(Before(fs, i), fs[i])
    ensures bad < |fs| && !Follows(Before(fs, bad), fs[bad])
    ensures forall i :: 0 <= i < bad ==> Follows(Before(fs, i), fs[i])
  {
    hide Follows;
    bad := 0;
    while Follows(Before(fs, bad), fs[bad])
      invariant bad < |fs| && forall i :: 0 <= i < bad ==> Follows(Before(fs, i), fs[i])
      invariant exists i :: bad <= i < |fs| && !Follows(Before(fs, i), fs[i])
      decreases |fs| - bad
    {
      bad := bad + 1;
    }
  }

  /** A file cut inside its header is never replayed and never removed. This includes the empty file
      that an append refused by the cap leaves behind, which the header comment of `spool_recover`
      lists among the files it reports as absent. */
  lemma RecoverShort(session: SessionName, fs: seq<Frame>, c: nat, unlinks: bool, truncates: bool)
    requires SessionOK(session) && c < HEADER_LEN
    ensures var file := Layout(session, fs)[..c];
            Recover(Some(file), unlinks, truncates) == (Preserved, Some(file))
  {
    var file := Layout(session, fs)[..c];
    if c >= 8 {
      assert file[..8] == Header(session)[..8] == MAGIC;
    }
  }

  // ----- faults, and files of other kinds

  /** What recovery may do to a file: leave it as it is, remove it, or cut a torn tail off a file it replays. A failed
      removal or a failed cut leaves every byte and reports uncertainty. */
  lemma RecoverFaults(b: seq<byte>, unlinks: bool, truncates: bool)
    ensures var (r, left) := Recover(Some(b), unlinks, truncates);
            var (r1, left1) := Recover(Some(b), true, true);
            && (left == None <==> r == Discarded) && (r == Preserved ==> left == Some(b))
            && (r.Replay? ==> left.Some? && r.good == |left.value| && left.value <= b)
            && (r1 == Discarded ==> r == if unlinks then Discarded else Preserved)
            && (r1 != Discarded ==>
                  (r, left) == if truncates || left1 == Some(b) then (r1, left1) else (Preserved, Some(b)))
    ensures Recover(None, unlinks, truncates) == (Discarded, None)
  {
    if |b| >= HEADER_LEN { ScanInside(b, 0, HEADER_LEN, 0); }
    hide LegacyFrom, ScanFrom, SessionByte;
  }

  /** The scan stays inside the file, and what it leaves over is the torn tail. */
  lemma {:induction false} ScanInside(b: seq<byte>, last: nat, good: nat, count: nat)
    requires good <= |b|
    ensures var r := ScanFrom(b, last, good, count);
            r.End? ==> good <= r.good <= |b| && r.count >= count && (r.torn <==> r.good < |b|)
    decreases |b| - good
  {
    hide Get;
    if |b| - good >= 12 {
      var s, len := Get(b[good..good + 8]), Get(b[good + 8..good + 12]);
      if s > last && RECORD_MIN <= len <= RECORD_MAX && good + 12 + len <= |b| {
        ScanInside(b, s, good + 12 + len, count + 1);
      }
    }
  }

  /** A record as builds without sessions wrote it. */
  predicate Old(f: Frame) { 0 < f.seqno <= UINT64_MAX && 0 < |f.data| <= 1037 }

  predicate OldRecords(fs: seq<Frame>) { Increasing(fs) && forall i :: 0 <= i < |fs| ==> Old(fs[i]) }

  lemma OneBefore(f: Frame, fs: seq<Frame>)
    ensures RecordsBytes([f] + fs) == RecordBytes(f) + RecordsBytes(fs)
  {
    hide RecordBytes;
    RecordsConcat([f], fs);
    assert [f][..0] == [] && RecordsBytes([f]) == [] + RecordBytes(f);
  }

  /** The bytes of one old record. */
  lemma OldHeader(b: seq<byte>, off: nat, f: Frame, rest: seq<byte>)
    requires off <= |b| && Old(f)
    ensures b[off..] == RecordBytes(f) + rest ==>
      && off + 12 + |f.data| <= |b| && Get(b[off..off + 8]) == f.seqno && Get(b[off + 8..off + 12]) == |f.data|
      && b[off + 12 + |f.data|..] == rest
  {
    if b[off..] == RecordBytes(f) + rest {
      var n := 12 + |f.data|;
      assert |b[off..]| == n + |rest|;
      var cut := b[..off + n];
      assert cut[off..] == b[off..][..n] == RecordBytes(f);
      HeaderFields(b[..off], f, cut);
      assert cut[off..off + 8] == b[off..off + 8] && cut[off + 8..off + 12] == b[off + 8..off + 12];
      assert b[off + n..] == b[off..][n..];
    }
  }

  lemma {:induction false} LegacyReads(b: seq<byte>, previous: nat, off: nat, fs: seq<Frame>)
    requires off <= |b| && OldRecords(fs) && b[off..] == RecordsBytes(fs) && (fs != [] ==> fs[0].seqno > previous)
    ensures LegacyFrom(b, previous, off)
    decreases |fs|
  {
    hide RecordBytes, RecordsBytes;
    if fs == [] {
      NoBytes();
    } else {
      var f, rest := fs[0], fs[1..];
      assert fs == [f] + rest;
      OneBefore(f, rest);
      OldHeader(b, off, f, RecordsBytes(rest));
      LegacyReads(b, f.seqno, off + 12 + |f.data|, rest);
    }
  }

  lemma {:induction false} LegacyParses(b: seq<byte>, previous: nat, off: nat) returns (fs: seq<Frame>)
    requires off <= |b| && LegacyFrom(b, previous, off)
    ensures OldRecords(fs) && b[off..] == RecordsBytes(fs) && (fs != [] ==> fs[0].seqno > previous)
    decreases |b| - off
  {
    hide RecordsBytes;
    if off == |b| {
      fs := [];
      NoBytes();
    } else {
      var s, len := Get(b[off..off + 8]), Get(b[off + 8..off + 12]);
      var f := Frame(s, b[off + 12..off + 12 + len]);
      var rest := LegacyParses(b, s, off + 12 + len);
      fs := [f] + rest;
      OneBefore(f, rest);
      RecordParsed(b, off, f);
      OldFirst(f, rest);
    }
  }

  lemma OldFirst(f: Frame, fs: seq<Frame>)
    requires Old(f) && OldRecords(fs) && (fs != [] ==> fs[0].seqno > f.seqno)
    ensures OldRecords([f] + fs)
  {
  }

  lemma RecordParsed(b: seq<byte>, off: nat, f: Frame)
    requires off + 12 + |f.data| <= |b| && f.seqno == Get(b[off..off + 8]) && |f.data| == Get(b[off + 8..off + 12])
    requires f.data == b[off + 12..off + 12 + |f.data|]
    ensures b[off..] == RecordBytes(f) + b[off + 12 + |f.data|..]
    ensures f.seqno <= UINT64_MAX
  {
    Widths();
    PutGet(b[off..off + 8]);
    PutGet(b[off + 8..off + 12]);
    assert b[off..] == b[off..off + 8] + b[off + 8..off + 12] + f.data + b[off + 12 + |f.data|..];
  }

  /** A file without the session magic is discarded exactly when it is, from its first byte to its last, records of the
      old format in order; anything else is preserved as evidence. */
  lemma LegacyIff(b: seq<byte>, truncates: bool)
    requires |b| < 8 || b[..8] != MAGIC
    ensures (exists fs :: fs != [] && OldRecords(fs) && b == RecordsBytes(fs)) ==>
      Recover(Some(b), true, truncates) == (Discarded, None)
    ensures !(exists fs :: fs != [] && OldRecords(fs) && b == RecordsBytes(fs)) ==>
      Recover(Some(b), true, truncates) == (Preserved, Some(b))
  {
    hide RecordsBytes, RecordBytes, LegacyFrom, ScanFrom, SessionByte, OldRecords;
    if LegacyFrom(b, 0, 0) && b != [] {
      var fs := LegacyParses(b, 0, 0);
      assert b[0..] == b;
      NoBytes();
    }
    if fs :| fs != [] && OldRecords(fs) && b == RecordsBytes(fs) {
      LegacyStart(b, fs);
    }
  }

  lemma LegacyStart(b: seq<byte>, fs: seq<Frame>)
    requires fs != [] && OldRecords(fs) && b == RecordsBytes(fs)
    ensures |b| >= 12 && Get(b[..8]) != 0 && 0 < Get(b[8..12]) <= RECORD_MAX && LegacyFrom(b, 0, 0)
  {
    hide RecordsBytes, RecordBytes, LegacyFrom;
    var f, rest := fs[0], fs[1..];
    assert fs == [f] + rest && b[0..] == b;
    OneBefore(f, rest);
    OldHeader(b, 0, f, RecordsBytes(rest));
    LegacyReads(b, 0, 0, fs);
  }
}
