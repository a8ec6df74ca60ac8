/** Keys and records of the external uniqueness check (native/engine/src/post_operations.rs). A string is a
    byte string, one `char` per byte. */
module SpillRecords {
  import opened Wrappers
  import opened Text
  import opened KeyText
  import opened Tables

  // ----- little-endian numbers

  function ByteChar(n: nat): char
    requires n < 256
  {
    n as char
  }

  /** The lowest `k` bytes of `n`, lowest first. */
  function Le(n: nat, k: nat): (s: string)
    ensures |s| == k
  {
    if k == 0 then "" else [ByteChar(n % 256)] + Le(n / 256, k - 1)
  }

  function FromLe(s: string): nat { if s == "" then 0 else s[0] as int + 256 * FromLe(s[1..]) }

  function Pow256(k: nat): nat { if k == 0 then 1 else 256 * Pow256(k - 1) }

  lemma {:induction false} LeReadsBack(n: nat, k: nat)
    requires n < Pow256(k)
    ensures FromLe(Le(n, k)) == n
  {
    if k > 0 {
      LeReadsBack(n / 256, k - 1);
      assert Le(n, k)[1..] == Le(n / 256, k - 1);
    }
  }

  const U32_MAX: nat := 0xFFFF_FFFF

  lemma U32Bound()
    ensures Pow256(4) == U32_MAX + 1
  {
    assert Pow256(1) == 256 && Pow256(2) == 256 * 256 && Pow256(3) == 256 * 256 * 256;
  }

  // ----- keys

  function CellBytes(cell: Cell): string {
    if cell.Null? then Le(U32_MAX, 4) else Le(|cell.text|, 4) + cell.text
  }

  /** `encode_unique_key`. */
  function UniqueKey(cells: seq<Cell>): string {
    if cells == [] then "" else CellBytes(cells[0]) + UniqueKey(cells[1..])
  }

  /** A cell's bytes show where they end and what the cell is. */
  lemma CellBytesArePrefixFree(a: Cell, x: string, b: Cell, y: string)
    requires CellBytes(a) + x == CellBytes(b) + y
    requires (a.Val? ==> |a.text| < U32_MAX) && (b.Val? ==> |b.text| < U32_MAX)
    ensures a == b && x == y
  {
    hide Le, FromLe, Pow256;
    U32Bound();
    var m, n := if a.Null? then U32_MAX else |a.text|, if b.Null? then U32_MAX else |b.text|;
    var s, t := if a.Null? then x else a.text + x, if b.Null? then y else b.text + y;
    assert CellBytes(a) + x == Le(m, 4) + s && CellBytes(b) + y == Le(n, 4) + t;
    SplitAt(Le(m, 4), s, Le(n, 4), t);
    LeReadsBack(m, 4);
    LeReadsBack(n, 4);
    if a.Val? { SplitAt(a.text, x, b.text, y); }
  }

  predicate ShortKey(cells: seq<Cell>) { |UniqueKey(cells)| <= U32_MAX }

  lemma FirstIsShort(cells: seq<Cell>)
    requires ShortKey(cells) && cells != []
    ensures ShortKey(cells[1..]) && (cells[0].Val? ==> |cells[0].text| < U32_MAX)
  {
    hide Le;
  }

  /** The length prefixes and the null marker make the key determine every cell. */
  lemma {:induction false} UniqueKeyIsInjective(a: seq<Cell>, b: seq<Cell>)
    requires |a| == |b| && ShortKey(a) && ShortKey(b) && UniqueKey(a) == UniqueKey(b)
    ensures a == b
  {
    hide CellBytes, ShortKey;
    if a != [] {
      FirstIsShort(a);
      FirstIsShort(b);
      CellBytesArePrefixFree(a[0], UniqueKey(a[1..]), b[0], UniqueKey(b[1..]));
      UniqueKeyIsInjective(a[1..], b[1..]);
      assert a == [a[0]] + a[1..] && b == [b[0]] + b[1..];
    }
  }

  // ----- records

  const ROW_BYTES: nat := 8

  /** Row index, key length, key. */
  function Record(row: nat, key: string): string { Le(row, ROW_BYTES) + (Le(|key|, 4) + key) }

  datatype SpillError = ColumnNotFound | TruncatedRecord

  datatype Spilled = EndOfFile | Entry(row: nat, key: string, rest: string)

  /** `read_spilled_key`: an end of file where a row index should start, or inside one, ends the bucket. */
  function ReadSpilledKey(bytes: string): Result<Spilled, SpillError> {
    if |bytes| < ROW_BYTES then Success(EndOfFile)
    else if |bytes| < ROW_BYTES + 4 then Failure(TruncatedRecord)
    else
      var length := FromLe(bytes[ROW_BYTES..ROW_BYTES + 4]);
      var start := ROW_BYTES + 4;
      if |bytes| < start + length then Failure(TruncatedRecord)
      else Success(Entry(FromLe(bytes[..ROW_BYTES]), bytes[start..start + length], bytes[start + length..]))
  }

  /** A record reads back as written, whatever follows it. */
  lemma RecordReadsBack(row: nat, key: string, rest: string)
    requires |key| <= U32_MAX
    ensures ReadSpilledKey(Record(row, key) + rest).Success?
    ensures var entry := ReadSpilledKey(Record(row, key) + rest).value;
      entry.Entry? && entry.key == key && entry.rest == rest
      && (row < Pow256(ROW_BYTES) ==> entry.row == row)
  {
    hide Le, FromLe, Pow256;
    U32Bound();
    LeReadsBack(|key|, 4);
    if row < Pow256(ROW_BYTES) { LeReadsBack(row, ROW_BYTES); }
    var bytes := Record(row, key) + rest;
    assert bytes[..ROW_BYTES] == Le(row, ROW_BYTES);
    assert bytes[ROW_BYTES..ROW_BYTES + 4] == Le(|key|, 4);
    assert bytes[ROW_BYTES + 4..ROW_BYTES + 4 + |key|] == key;
    assert bytes[ROW_BYTES + 4 + |key|..] == rest;
  }

  // ----- paths

  function SafeChar(c: char): char {
    if '0' <= c <= '9' || 'a' <= c <= 'z' || 'A' <= c <= 'Z' || c == '-' || c == '_' then c else '_'
  }

  function SafeRule(id: string): (r: string)
    ensures |r| == |id|
  {
    seq(|id|, i requires 0 <= i < |id| => SafeChar(id[i]))
  }

  /** `{bucket:03}`. */
  function ThreeDigits(bucket: nat): string
    requires bucket < 1000
  {
    [DigitChar(bucket / 100), DigitChar(bucket / 10 % 10), DigitChar(bucket % 10)]
  }

  const BUCKETS: nat := 128

  /** `unique_bucket_path`, below the spill directory. */
  function BucketPath(id: string, bucket: nat): string
    requires bucket < BUCKETS
  {
    SafeRule(id) + ("-" + ThreeDigits(bucket) + ".bin")
  }

  lemma ThreeDigitsDiffer(a: nat, b: nat)
    requires a < BUCKETS && b < BUCKETS && ThreeDigits(a) == ThreeDigits(b)
    ensures a == b
  {
    assert DigitChar(a / 100) == DigitChar(b / 100) && DigitChar(a / 10 % 10) == DigitChar(b / 10 % 10) && DigitChar(a % 10) == DigitChar(b % 10);
  }

  /** Paths differ when the sanitised ids or the buckets do. */
  lemma PathsDiffer(a: string, i: nat, b: string, j: nat)
    requires i < BUCKETS && j < BUCKETS && BucketPath(a, i) == BucketPath(b, j)
    ensures SafeRule(a) == SafeRule(b) && i == j
  {
    var x, y := "-" + ThreeDigits(i) + ".bin", "-" + ThreeDigits(j) + ".bin";
    assert |x| == |y| && |SafeRule(a)| == |SafeRule(b)|;
    SplitAt(SafeRule(a), x, SafeRule(b), y);
    assert x[1..4] == ThreeDigits(i) && y[1..4] == ThreeDigits(j);
    ThreeDigitsDiffer(i, j);
  }
}
