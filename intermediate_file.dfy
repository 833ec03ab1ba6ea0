/** The binary intermediate file (src/shared/IntermediateFile.cpp): a
    16-byte header (the magic "HDLI", the format version and the offset of
    the string table), the block records, and a string table holding every
    block name. Streams are modelled as byte sequences: a writer's output is
    the bytes it appends, a reader is a function of the whole file and the
    offset it reads at. */
module IntermediateFile {
  import opened Wrappers
  import opened Intermediate
  import BufferHelper

  type Byte = BufferHelper.Byte

  const UINT32_MAX: nat := 0xFFFF_FFFF
  /** size_t arithmetic wraps modulo 2^64. */
  const SIZE_MODULUS: nat := 0x1_0000_0000_0000_0000

  const TableFullMessage := "String table has reached maximum size"
  const TableCountMessage := "String table has reached maximum number of strings"
  const UnterminatedMessage := "Last string in string table not null terminated"
  const EofMessage := "Reached EOF while reading from file"

  // ---------------------------------------------------------------------
  // Strings as the bytes of a std::string

  /** A string whose characters are bytes other than NUL: what a string
      table can hold and give back. */
  predicate TableString(s: string)
  {
    forall i :: 0 <= i < |s| ==> 0 < s[i] as int < 0x100
  }

  predicate AllTableStrings(ss: seq<string>)
  {
    forall k :: 0 <= k < |ss| ==> TableString(ss[k])
  }

  predicate NulFree(bs: seq<Byte>)
  {
    forall i :: 0 <= i < |bs| ==> bs[i] != 0
  }

  function ToBytes(s: string): (bs: seq<Byte>)
    requires TableString(s)
    ensures |bs| == |s| && NulFree(bs)
    ensures forall i :: 0 <= i < |s| ==> bs[i] == s[i] as int
  {
    seq(|s|, i requires 0 <= i < |s| && TableString(s) => s[i] as int as Byte)
  }

  function FromBytes(bs: seq<Byte>): (s: string)
    ensures |s| == |bs|
    ensures forall i :: 0 <= i < |bs| ==> s[i] as int == bs[i]
    ensures NulFree(bs) ==> TableString(s)
  {
    seq(|bs|, i requires 0 <= i < |bs| => bs[i] as char)
  }

  lemma {:induction false} BytesRoundTrip(s: string)
    requires TableString(s)
    ensures FromBytes(ToBytes(s)) == s
  {
  }

  // ---------------------------------------------------------------------
  // The string table

  /** The totalSize of a table: every string counts with its NUL. */
  function TotalSize(strings: seq<string>): nat
  {
    if strings == [] then 0 else TotalSize(strings[..|strings| - 1]) + |strings[|strings| - 1]| + 1
  }

  /** StringTable::add's size test, `totalSize > UINT32_MAX - strSizeWithNull`,
      computed in size_t: for a string of 2^32 - 1 bytes or more the right
      side wraps round and the test passes. */
  predicate TableFull(totalSize: nat, length: nat)
  {
    totalSize > (UINT32_MAX - (length + 1)) % SIZE_MODULUS
  }

  /** The bytes StringTable::write emits after the size field: each string
      followed by its NUL. */
  function StringsBytes(strings: seq<string>): (bs: seq<Byte>)
    requires AllTableStrings(strings)
  {
    if strings == [] then [] else ToBytes(strings[0]) + [0] + StringsBytes(strings[1..])
  }

  lemma {:induction false} StringsBytesSize(strings: seq<string>)
    requires AllTableStrings(strings)
    ensures |StringsBytes(strings)| == TotalSize(strings)
    decreases |strings|
  {
    if strings != [] {
      StringsBytesSize(strings[1..]);
      TotalSizeFront(strings);
    }
  }

  /** TotalSize also peels from the front. */
  lemma {:induction false} TotalSizeFront(strings: seq<string>)
    requires strings != []
    ensures TotalSize(strings) == |strings[0]| + 1 + TotalSize(strings[1..])
    decreases |strings|
  {
    if |strings| > 1 {
      var init := strings[..|strings| - 1];
      assert init[0] == strings[0] && init[1..] == strings[1..][..|strings| - 2];
      TotalSizeFront(init);
    } else {
      assert strings[..0] == [] && strings[1..] == [];
    }
  }

  lemma {:induction false} StringsBytesAppend(strings: seq<string>, s: string)
    requires AllTableStrings(strings) && TableString(s)
    ensures AllTableStrings(strings + [s])
    ensures StringsBytes(strings + [s]) == StringsBytes(strings) + ToBytes(s) + [0]
    decreases |strings|
  {
    if strings == [] {
      assert [] + [s] == [s];
      assert [s][1..] == [];
    } else {
      assert (strings + [s])[0] == strings[0];
      assert (strings + [s])[1..] == strings[1..] + [s];
      StringsBytesAppend(strings[1..], s);
      AppendAssociates(ToBytes(strings[0]) + [0], StringsBytes(strings[1..]), ToBytes(s) + [0]);
      AppendAssociates(ToBytes(strings[0]) + [0] + StringsBytes(strings[1..]), ToBytes(s), [0]);
    }
  }

  /** Table contents that StringTable::read accepts: empty, or ending in NUL. */
  predicate Terminated(buf: seq<Byte>)
  {
    buf == [] || buf[|buf| - 1] == 0
  }

  /** Position of the first NUL. */
  function FirstNul(buf: seq<Byte>): (k: nat)
    requires !NulFree(buf)
    ensures k < |buf| && buf[k] == 0 && NulFree(buf[..k])
  {
    if buf[0] == 0 then 0
    else
      assert !NulFree(buf[1..]) by {
        var i :| 0 <= i < |buf| && buf[i] == 0;
        assert buf[1..][i - 1] == 0;
      }
      var k := 1 + FirstNul(buf[1..]);
      assert buf[..k] == [buf[0]] + buf[1..][..k - 1];
      k
  }

  /** The strings of a terminated table, cut at each NUL. */
  function Split(buf: seq<Byte>): (strings: seq<string>)
    requires Terminated(buf)
    ensures AllTableStrings(strings)
    decreases |buf|
  {
    if buf == [] then []
    else
      assert buf[|buf| - 1] == 0;
      var k := FirstNul(buf);
      assert Terminated(buf[k + 1..]);
      [FromBytes(buf[..k])] + Split(buf[k + 1..])
  }

  /** Splitting gives table strings that the writer turns back into the
      same bytes. */
  lemma {:induction false} SplitMeaning(buf: seq<Byte>)
    requires Terminated(buf)
    ensures AllTableStrings(Split(buf))
    ensures StringsBytes(Split(buf)) == buf
    decreases |buf|
  {
    if buf != [] {
      var k := FirstNul(buf);
      var rest := buf[k + 1..];
      SplitMeaning(rest);
      var first := FromBytes(buf[..k]);
      assert Split(buf) == [first] + Split(rest);
      StringsBytesCons(first, Split(rest));
      CutAtNul(buf, k);
    }
  }

  /** A NUL at k cuts buf into the string before it and the bytes after. */
  lemma {:induction false} CutAtNul(buf: seq<Byte>, k: nat)
    requires k < |buf| && buf[k] == 0 && NulFree(buf[..k])
    ensures ToBytes(FromBytes(buf[..k])) + [0] + buf[k + 1..] == buf
  {
    assert ToBytes(FromBytes(buf[..k])) == buf[..k];
    assert buf == buf[..k] + [0] + buf[k + 1..];
  }

  /** The writer emits the first string, its NUL, then the others. */
  lemma {:induction false} StringsBytesCons(first: string, strings: seq<string>)
    requires TableString(first) && AllTableStrings(strings)
    ensures AllTableStrings([first] + strings)
    ensures StringsBytes([first] + strings) == ToBytes(first) + [0] + StringsBytes(strings)
  {
    var all := [first] + strings;
    assert all[0] == first && all[1..] == strings;
  }

  /** Only the empty list is written as no bytes. */
  lemma {:induction false} StringsBytesEmpty(strings: seq<string>)
    requires AllTableStrings(strings)
    ensures StringsBytes(strings) == [] <==> strings == []
  {
    if strings != [] {
      assert |StringsBytes(strings)| >= 1;
    }
  }

  /** The first NUL the writer emits ends the first string. */
  lemma {:induction false} FirstNulOfStringsBytes(strings: seq<string>)
    requires AllTableStrings(strings) && strings != []
    ensures !NulFree(StringsBytes(strings))
    ensures FirstNul(StringsBytes(strings)) == |strings[0]|
    ensures StringsBytes(strings)[..|strings[0]|] == ToBytes(strings[0])
    ensures StringsBytes(strings)[|strings[0]| + 1..] == StringsBytes(strings[1..])
  {
    var bytes := StringsBytes(strings);
    var k := |strings[0]|;
    assert bytes[k] == 0;
    assert bytes[..k] == ToBytes(strings[0]);
    FirstNulUnique(bytes, k);
  }

  /** A NUL with none before it is the first one. */
  lemma {:induction false} FirstNulUnique(buf: seq<Byte>, k: nat)
    requires k < |buf| && buf[k] == 0 && NulFree(buf[..k])
    ensures FirstNul(buf) == k
  {
    var first := FirstNul(buf);
    assert forall i :: 0 <= i < k ==> buf[..k][i] == buf[i];
    assert forall i :: 0 <= i < first ==> buf[..first][i] == buf[i];
  }

  /** Different lists of table strings are written as different bytes. */
  lemma {:induction false} StringsBytesInjective(a: seq<string>, b: seq<string>)
    requires AllTableStrings(a) && AllTableStrings(b)
    requires StringsBytes(a) == StringsBytes(b)
    ensures a == b
    decreases |a|
  {
    StringsBytesEmpty(a);
    StringsBytesEmpty(b);
    if a != [] {
      FirstNulOfStringsBytes(a);
      FirstNulOfStringsBytes(b);
      BytesRoundTrip(a[0]);
      BytesRoundTrip(b[0]);
      StringsBytesInjective(a[1..], b[1..]);
      assert a == [a[0]] + a[1..] && b == [b[0]] + b[1..];
    }
  }

  /** Reading back what the writer emitted gives the strings back. */
  lemma {:induction false} SplitRoundTrip(strings: seq<string>)
    requires AllTableStrings(strings)
    ensures Terminated(StringsBytes(strings))
    ensures Split(StringsBytes(strings)) == strings
  {
    var bytes := StringsBytes(strings);
    if strings != [] {
      assert bytes[|bytes| - 1] == 0 by {
        StringsBytesAppend(strings[..|strings| - 1], strings[|strings| - 1]);
        assert strings[..|strings| - 1] + [strings[|strings| - 1]] == strings;
      }
    }
    SplitMeaning(bytes);
    StringsBytesInjective(Split(bytes), strings);
  }

  /** StringTable while a file is written: the strings added so far and their
      total size with NULs. */
  class StringTable {
    var strings: seq<string>
    var totalSize: nat

    ghost predicate Valid()
      reads this
    {
      totalSize == TotalSize(strings) && totalSize <= UINT32_MAX
    }

    constructor ()
      ensures strings == [] && totalSize == 0 && Valid()
    {
      strings := [];
      totalSize := 0;
    }

    /** StringTable::add: refuses a string that would take the total past
        UINT32_MAX, or a 2^32-1st string; otherwise appends it and returns
        its index. totalSize is a uint32 and wraps. */
    method Add(str: string) returns (r: Result<nat>)
      requires |str| + 1 < SIZE_MODULUS
      modifies this
      ensures TableFull(old(totalSize), |str|) ==> r == Failure(TableFullMessage)
      ensures !TableFull(old(totalSize), |str|) && old(|strings|) >= UINT32_MAX ==> r == Failure(TableCountMessage)
      ensures r.Failure? ==> strings == old(strings) && totalSize == old(totalSize)
      ensures r.Success? <==> !TableFull(old(totalSize), |str|) && old(|strings|) < UINT32_MAX
      ensures r.Success? ==> && r.value == old(|strings|)
                             && strings == old(strings) + [str]
                             && totalSize == (old(totalSize) + |str| + 1) % 0x1_0000_0000
      ensures old(Valid()) && |str| < UINT32_MAX ==> Valid()
    {
      if TableFull(totalSize, |str|) {
        return Failure(TableFullMessage);
      }
      var index := |strings|;
      if index >= UINT32_MAX {
        return Failure(TableCountMessage);
      }
      strings := strings + [str];
      totalSize := (totalSize + |str| + 1) % 0x1_0000_0000;
      assert strings[..|strings| - 1] == old(strings);
      return Success(index);
    }

    /** StringTable::write: totalSize as 32-bit little-endian, then the
        strings with their NULs. */
    function Bytes(): (bs: seq<Byte>)
      reads this
      requires AllTableStrings(strings)
    {
      Le32(totalSize) + StringsBytes(strings)
    }
  }

  /** Under the table's invariant the count check never fires: every string
      takes at least one byte, so the size check fails first. */
  lemma {:induction false} CountNeverReached(strings: seq<string>, str: string)
    requires TotalSize(strings) <= UINT32_MAX && |str| < UINT32_MAX
    requires |strings| >= UINT32_MAX
    ensures TableFull(TotalSize(strings), |str|)
  {
    TotalSizeAtLeastCount(strings);
  }

  lemma {:induction false} TotalSizeAtLeastCount(strings: seq<string>)
    ensures TotalSize(strings) >= |strings|
    decreases |strings|
  {
    if strings != [] {
      TotalSizeAtLeastCount(strings[..|strings| - 1]);
    }
  }

  /** The scan of StringTable::read over the table contents: a string ends
      at each NUL, and bytes after the last NUL are an error. */
  method SplitStrings(buf: seq<Byte>) returns (r: Result<seq<string>>)
    ensures r.Success? <==> Terminated(buf)
    ensures r.Failure? ==> r.error == UnterminatedMessage
    ensures r.Success? ==> AllTableStrings(r.value) && StringsBytes(r.value) == buf
    ensures r.Success? ==> r.value == Split(buf)
  {
    var strings: seq<string> := [];
    var start := 0;
    var i := 0;
    while i < |buf|
      invariant start <= i <= |buf|
      invariant AllTableStrings(strings) && StringsBytes(strings) == buf[..start]
      invariant NulFree(buf[start..i])
      invariant start == 0 || buf[start - 1] == 0
    {
      if buf[i] == 0 {
        CutString(buf, strings, start, i);
        strings := strings + [FromBytes(buf[start..i])];
        start := i + 1;
      } else {
        assert buf[start..i + 1] == buf[start..i] + [buf[i]];
      }
      i := i + 1;
    }
    if start != |buf| {
      assert buf[start..i][|buf| - 1 - start] == buf[|buf| - 1];
      return Failure(UnterminatedMessage);
    }
    assert buf[..start] == buf;
    SplitUnique(buf, strings);
    return Success(strings);
  }

  /** The loop step of SplitStrings at a NUL. */
  lemma {:induction false} CutString(buf: seq<Byte>, strings: seq<string>, start: nat, i: nat)
    requires start <= i < |buf| && buf[i] == 0 && NulFree(buf[start..i])
    requires AllTableStrings(strings) && StringsBytes(strings) == buf[..start]
    ensures AllTableStrings(strings + [FromBytes(buf[start..i])])
    ensures StringsBytes(strings + [FromBytes(buf[start..i])]) == buf[..i + 1]
  {
    var s := FromBytes(buf[start..i]);
    StringsBytesAppend(strings, s);
    assert ToBytes(s) == buf[start..i];
    assert buf[..i + 1] == buf[..start] + buf[start..i] + [0];
  }

  /** The only table strings written as a terminated buffer are its split. */
  lemma {:induction false} SplitUnique(buf: seq<Byte>, strings: seq<string>)
    requires Terminated(buf)
    requires AllTableStrings(strings) && StringsBytes(strings) == buf
    ensures strings == Split(buf)
  {
    SplitMeaning(buf);
    StringsBytesInjective(strings, Split(buf));
  }

  // ---------------------------------------------------------------------
  // Fixed-width fields

  const MagicBytes: seq<Byte> := [0x48, 0x44, 0x4c, 0x49]
  const VERSION: nat := 3
  const HeaderSize: nat := 16
  /** Offsets at or above 2^63 are negative as the std::int64_t that
      seekg receives. */
  const INT64_LIMIT: nat := 0x8000_0000_0000_0000

  const ReadErrorMessage := "Error while reading from file"
  const MagicMessage := "File is not an intermediate file (magic mismatch)"
  const VersionMessage := "File has incompatible format (version mismatch)"
  const TooManyBlocksMessage := "Too many blocks"
  const TooManyReferencesMessage := "Block references too many blocks"
  const TooManyStatementsMessage := "Block has too many statements"
  const NameIndexMessage := "String index out of range"

  /** write16le/write32le/write64le: the low bytes of the value, least
      significant first; a wider value is truncated as the static_cast does. */
  function Le16(v: nat): (bs: seq<Byte>)
    ensures |bs| == 2
  {
    BufferHelper.LeBytes(v, 2)
  }

  function Le32(v: nat): (bs: seq<Byte>)
    ensures |bs| == 4
  {
    BufferHelper.LeBytes(v, 4)
  }

  function Le64(v: nat): (bs: seq<Byte>)
    ensures |bs| == 8
  {
    BufferHelper.LeBytes(v, 8)
  }

  /** The bytes at pos are w. */
  predicate At(data: seq<Byte>, pos: nat, w: seq<Byte>)
  {
    pos + |w| <= |data| && data[pos..pos + |w|] == w
  }

  lemma {:induction false} AtWhole(data: seq<Byte>)
    ensures At(data, 0, data)
  {
    assert data[0..|data|] == data;
  }

  lemma {:induction false} AtSplit(data: seq<Byte>, pos: nat, a: seq<Byte>, b: seq<Byte>)
    requires At(data, pos, a + b)
    ensures At(data, pos, a) && At(data, pos + |a|, b)
  {
    assert data[pos..pos + |a|] == (a + b)[..|a|];
    assert data[pos + |a|..pos + |a| + |b|] == (a + b)[|a|..];
  }

  /** The n bytes at pos, least significant first. */
  function LeAt(data: seq<Byte>, pos: nat, n: nat): (v: nat)
    requires pos + n <= |data|
    ensures v < BufferHelper.Pow256(n)
    decreases n
  {
    if n == 0 then 0 else data[pos] + 0x100 * LeAt(data, pos + 1, n - 1)
  }

  lemma {:induction false} LeAtValue(data: seq<Byte>, pos: nat, n: nat)
    requires pos + n <= |data|
    ensures LeAt(data, pos, n) == BufferHelper.LeValue(data[pos..pos + n])
    decreases n
  {
    if n > 0 {
      LeAtValue(data, pos + 1, n - 1);
      assert data[pos..pos + n][1..] == data[pos + 1..pos + n];
    }
  }

  /** read16le/read32le/read64le on the stream: the bytes at pos, or the
      end-of-file error when fewer bytes remain. */
  function Read16(data: seq<Byte>, pos: nat): (r: Result<BufferHelper.U16>)
    ensures r.Success? <==> pos + 2 <= |data|
    ensures r.Failure? ==> r.error == EofMessage
  {
    if pos + 2 <= |data| then
      assert BufferHelper.Pow256(2) == 0x1_0000;
      Success(LeAt(data, pos, 2))
    else Failure(EofMessage)
  }

  function Read32(data: seq<Byte>, pos: nat): (r: Result<BufferHelper.U32>)
    ensures r.Success? <==> pos + 4 <= |data|
    ensures r.Failure? ==> r.error == EofMessage
  {
    if pos + 4 <= |data| then
      assert BufferHelper.Pow256(4) == 0x1_0000_0000;
      Success(LeAt(data, pos, 4))
    else Failure(EofMessage)
  }

  function Read64(data: seq<Byte>, pos: nat): (r: Result<BufferHelper.U64>)
    ensures r.Success? <==> pos + 8 <= |data|
    ensures r.Failure? ==> r.error == EofMessage
  {
    if pos + 8 <= |data| then
      assert BufferHelper.Pow256(8) == 0x1_0000_0000_0000_0000;
      Success(LeAt(data, pos, 8))
    else Failure(EofMessage)
  }

  /** The readers agree with the buffer helpers on the same bytes. */
  lemma {:induction false} ReadersAgree(data: seq<Byte>, pos: nat)
    ensures pos + 2 <= |data| ==> Read16(data, pos) == Success(BufferHelper.Read16Le(data, pos))
    ensures pos + 4 <= |data| ==> Read32(data, pos) == Success(BufferHelper.Read32Le(data, pos))
    ensures pos + 8 <= |data| ==> Read64(data, pos) == Success(BufferHelper.Read64Le(data, pos))
  {
    if pos + 2 <= |data| { LeAtValue(data, pos, 2); }
    if pos + 4 <= |data| { LeAtValue(data, pos, 4); }
    if pos + 8 <= |data| { LeAtValue(data, pos, 8); }
  }

  lemma {:induction false} Read16Back(data: seq<Byte>, pos: nat, v: nat)
    requires v < 0x1_0000 && At(data, pos, Le16(v))
    ensures Read16(data, pos) == Success(v)
  {
    assert BufferHelper.Pow256(2) == 0x1_0000;
    BufferHelper.LeRoundTrip(v, 2);
    LeAtValue(data, pos, 2);
  }

  lemma {:induction false} Read32Back(data: seq<Byte>, pos: nat, v: nat)
    requires v <= UINT32_MAX && At(data, pos, Le32(v))
    ensures Read32(data, pos) == Success(v)
  {
    assert BufferHelper.Pow256(4) == 0x1_0000_0000;
    BufferHelper.LeRoundTrip(v, 4);
    LeAtValue(data, pos, 4);
  }

  lemma {:induction false} Read64Back(data: seq<Byte>, pos: nat, v: nat)
    requires v < 0x1_0000_0000_0000_0000 && At(data, pos, Le64(v))
    ensures Read64(data, pos) == Success(v)
  {
    assert BufferHelper.Pow256(8) == 0x1_0000_0000_0000_0000;
    BufferHelper.LeRoundTrip(v, 8);
    LeAtValue(data, pos, 8);
  }

  // ---------------------------------------------------------------------
  // Runs of records

  /** Records written one after another. */
  function Concat<T>(write: T -> seq<Byte>, items: seq<T>): (bs: seq<Byte>)
    decreases |items|
  {
    if items == [] then [] else write(items[0]) + Concat(write, items[1..])
  }

  /** Records written one after another, the k-th with index first + k. */
  function ConcatFrom<T>(write: (T, nat) -> seq<Byte>, items: seq<T>, first: nat): (bs: seq<Byte>)
    decreases |items|
  {
    if items == [] then [] else write(items[0], first) + ConcatFrom(write, items[1..], first + 1)
  }

  function Map<T, U>(f: T -> U, items: seq<T>): (r: seq<U>)
    ensures |r| == |items|
    decreases |items|
  {
    if items == [] then [] else [f(items[0])] + Map(f, items[1..])
  }

  /** count records read one after another from pos, stopping at the first
      error; the position after the last one comes with them. */
  function ReadMany<T>(read: (seq<Byte>, nat) -> Result<(T, nat)>, data: seq<Byte>, pos: nat, count: nat)
    : (r: Result<(seq<T>, nat)>)
    ensures r.Success? ==> |r.value.0| == count
    decreases count
  {
    if count == 0 then Success(([], pos))
    else
      match read(data, pos)
      case Failure(e) => Failure(e)
      case Success(first) =>
        match ReadMany(read, data, first.1, count - 1)
        case Failure(e) => Failure(e)
        case Success(rest) => Success(([first.0] + rest.0, rest.1))
  }

  /** Every record that fits, wherever it is written, is read back as
      written, and the position after it is where the next record starts. */
  ghost predicate ReadsBack<T(!new)>(read: (seq<Byte>, nat) -> Result<(T, nat)>, write: T -> seq<Byte>, fits: T -> bool)
  {
    forall d: seq<Byte>, p: nat, x: T {:trigger At(d, p, write(x))} ::
      fits(x) && At(d, p, write(x)) ==> read(d, p) == Success((x, p + |write(x)|))
  }

  /** When every record that fits is read back as written, so is a run of
      them. */
  lemma {:induction false} ReadManyBack<T(!new)>(read: (seq<Byte>, nat) -> Result<(T, nat)>, write: T -> seq<Byte>,
                                           fits: T -> bool, data: seq<Byte>, pos: nat, items: seq<T>)
    requires ReadsBack(read, write, fits)
    requires forall k :: 0 <= k < |items| ==> fits(items[k])
    requires At(data, pos, Concat(write, items))
    ensures ReadMany(read, data, pos, |items|) == Success((items, pos + |Concat(write, items)|))
    decreases |items|
  {
    if items != [] {
      var next := pos + |write(items[0])|;
      ReadManyBackStep(read, write, fits, data, pos, items);
      ReadManyBack(read, write, fits, data, next, items[1..]);
      ReadManyOf(read, data, pos, |items|, (items[0], next), (items[1..], next + |Concat(write, items[1..])|));
      assert [items[0]] + items[1..] == items;
    }
  }

  /** The first record of a run and what is left after it. */
  lemma {:induction false} ReadManyBackStep<T(!new)>(read: (seq<Byte>, nat) -> Result<(T, nat)>, write: T -> seq<Byte>,
                                               fits: T -> bool, data: seq<Byte>, pos: nat, items: seq<T>)
    requires ReadsBack(read, write, fits)
    requires items != [] && forall k :: 0 <= k < |items| ==> fits(items[k])
    requires At(data, pos, Concat(write, items))
    ensures read(data, pos) == Success((items[0], pos + |write(items[0])|))
    ensures At(data, pos + |write(items[0])|, Concat(write, items[1..]))
    ensures forall k :: 0 <= k < |items[1..]| ==> fits(items[1..][k])
    ensures |Concat(write, items)| == |write(items[0])| + |Concat(write, items[1..])|
  {
    AtSplit(data, pos, write(items[0]), Concat(write, items[1..]));
    assert fits(items[0]);
  }

  /** ReadMany from its first record and the rest. */
  lemma {:induction false} ReadManyOf<T>(read: (seq<Byte>, nat) -> Result<(T, nat)>, data: seq<Byte>, pos: nat,
                                         count: nat, first: (T, nat), rest: (seq<T>, nat))
    requires count > 0 && read(data, pos) == Success(first)
    requires ReadMany(read, data, first.1, count - 1) == Success(rest)
    ensures ReadMany(read, data, pos, count) == Success(([first.0] + rest.0, rest.1))
  {
  }

  // ---------------------------------------------------------------------
  // Statement records

  /** Signal ids that fit the uint32 fields. */
  predicate Fits32(ids: seq<nat>)
  {
    forall i :: 0 <= i < |ids| ==> ids[i] <= UINT32_MAX
  }

  function IdsBytes(ids: seq<nat>): (bs: seq<Byte>)
    ensures |bs| == 4 * |ids|
  {
    if ids == [] then [] else Le32(ids[0]) + IdsBytes(ids[1..])
  }

  /** count consecutive 32-bit ids from pos. */
  function ReadIds(data: seq<Byte>, pos: nat, count: nat): (r: Result<seq<nat>>)
    ensures r.Success? ==> |r.value| == count
    decreases count
  {
    if count == 0 then Success([])
    else
      var first :- Read32(data, pos);
      var rest :- ReadIds(data, pos + 4, count - 1);
      Success([first as nat] + rest)
  }

  lemma {:induction false} ReadIdsBack(data: seq<Byte>, pos: nat, ids: seq<nat>)
    requires Fits32(ids) && At(data, pos, IdsBytes(ids))
    ensures ReadIds(data, pos, |ids|) == Success(ids)
    decreases |ids|
  {
    if ids != [] {
      AtSplit(data, pos, Le32(ids[0]), IdsBytes(ids[1..]));
      Read32Back(data, pos, ids[0]);
      ReadIdsBack(data, pos + 4, ids[1..]);
      assert ids == [ids[0]] + ids[1..];
    }
  }

  /** File::writeBlockStatement: op and size as 16-bit fields, then every
      input and every output id as a 32-bit field. The operation is written
      as its own numeric value. */
  function StatementBytes(s: Statement): (bs: seq<Byte>)
    ensures |bs| == 4 + 4 * (|s.inputs| + |s.outputs|)
  {
    Le16(s.op) + Le16(s.size) + IdsBytes(s.inputs) + IdsBytes(s.outputs)
  }

  /** File::readBlockStatement: the slot counts come from the statement
      constructor for the (op, size) read, so an unknown operation or a bad
      size is the constructor's error; then the ids fill the slots. */
  function ReadStatement(data: seq<Byte>, pos: nat): (r: Result<(Statement, nat)>)
  {
    match ReadBlank(data, pos)
    case Failure(e) => Failure(e)
    case Success(blank) => ReadSlots(data, pos + 4, blank)
  }

  /** The op and size fields, and the statement they construct. */
  function ReadBlank(data: seq<Byte>, pos: nat): (r: Result<Statement>)
  {
    var op :- Read16(data, pos);
    var size :- Read16(data, pos + 2);
    NewStatement(op, size)
  }

  /** The ids filling a constructed statement's slots, inputs first. */
  function ReadSlots(data: seq<Byte>, pos: nat, blank: Statement): (r: Result<(Statement, nat)>)
  {
    var inputs :- ReadIds(data, pos, |blank.inputs|);
    var outputs :- ReadIds(data, pos + 4 * |inputs|, |blank.outputs|);
    Success((blank.(inputs := inputs, outputs := outputs), pos + 4 * (|inputs| + |outputs|)))
  }

  /** Every statement the constructor can build, with ids that fit, is read
      back as written. */
  lemma {:induction false} StatementRoundTrip(data: seq<Byte>, pos: nat, s: Statement)
    requires WellFormed(s) && Fits32(s.inputs) && Fits32(s.outputs)
    requires At(data, pos, StatementBytes(s))
    ensures ReadStatement(data, pos) == Success((s, pos + |StatementBytes(s)|))
  {
    StatementFields(data, pos, s);
    ReadStatementOf(data, pos, s);
  }

  /** The fields of a written statement, as the reader sees them. */
  lemma {:induction false} StatementFields(data: seq<Byte>, pos: nat, s: Statement)
    requires WellFormed(s) && Fits32(s.inputs) && Fits32(s.outputs)
    requires At(data, pos, StatementBytes(s))
    ensures Read16(data, pos) == Success(s.op) && Read16(data, pos + 2) == Success(s.size)
    ensures ReadIds(data, pos + 4, |s.inputs|) == Success(s.inputs)
    ensures ReadIds(data, pos + 4 + 4 * |s.inputs|, |s.outputs|) == Success(s.outputs)
  {
    var fields := Le16(s.op) + Le16(s.size);
    AtSplit(data, pos, fields + IdsBytes(s.inputs), IdsBytes(s.outputs));
    AtSplit(data, pos, fields, IdsBytes(s.inputs));
    AtSplit(data, pos, Le16(s.op), Le16(s.size));
    Read16Back(data, pos, s.op);
    Read16Back(data, pos + 2, s.size);
    ReadIdsBack(data, pos + 4, s.inputs);
    ReadIdsBack(data, pos + 4 + 4 * |s.inputs|, s.outputs);
  }

  /** ReadStatement from the values of its fields. */
  lemma {:induction false} ReadStatementOf(data: seq<Byte>, pos: nat, s: Statement)
    requires WellFormed(s)
    requires Read16(data, pos) == Success(s.op) && Read16(data, pos + 2) == Success(s.size)
    requires ReadIds(data, pos + 4, |s.inputs|) == Success(s.inputs)
    requires ReadIds(data, pos + 4 + 4 * |s.inputs|, |s.outputs|) == Success(s.outputs)
    ensures ReadStatement(data, pos) == Success((s, pos + 4 + 4 * (|s.inputs| + |s.outputs|)))
  {
    var blank := NewStatement(s.op, s.size).value;
    assert ReadBlank(data, pos) == Success(blank);
    assert blank.(inputs := s.inputs, outputs := s.outputs) == s;
  }

  ghost predicate StatementFits(s: Statement)
  {
    WellFormed(s) && Fits32(s.inputs) && Fits32(s.outputs)
  }

  /** A run of records, each of which is read back as written, is read back
      as written. */
  lemma {:induction false} StatementsRoundTrip(data: seq<Byte>, pos: nat, statements: seq<Statement>)
    requires forall k :: 0 <= k < |statements| ==> StatementFits(statements[k])
    requires At(data, pos, Concat(StatementBytes, statements))
    ensures ReadMany(ReadStatement, data, pos, |statements|) == Success((statements, pos + |Concat(StatementBytes, statements)|))
  {
    StatementsReadBack();
    ReadManyBack(ReadStatement, StatementBytes, StatementFits, data, pos, statements);
  }

  /** StatementRoundTrip for every position and every statement. */
  lemma {:induction false} StatementsReadBack()
    ensures ReadsBack(ReadStatement, StatementBytes, StatementFits)
  {
    StatementsAll();
    ReadsBackBy(ReadStatement, StatementBytes, StatementFits);
  }

  /** StatementRoundTrip, quantified. */
  lemma {:induction false} StatementsAll()
    ensures forall d: seq<Byte>, p: nat, s: Statement {:trigger At(d, p, StatementBytes(s))} ::
      StatementFits(s) && At(d, p, StatementBytes(s)) ==> ReadStatement(d, p) == Success((s, p + |StatementBytes(s)|))
  {
    forall d: seq<Byte>, p: nat, s: Statement {:trigger At(d, p, StatementBytes(s))}
      | StatementFits(s) && At(d, p, StatementBytes(s))
      ensures ReadStatement(d, p) == Success((s, p + |StatementBytes(s)|))
    {
      StatementRoundTrip(d, p, s);
    }
  }

  /** ReadsBack from the property it names. */
  lemma {:induction false} ReadsBackBy<T(!new)>(read: (seq<Byte>, nat) -> Result<(T, nat)>, write: T -> seq<Byte>,
                                                fits: T -> bool)
    requires forall d: seq<Byte>, p: nat, x: T {:trigger At(d, p, write(x))} ::
      fits(x) && At(d, p, write(x)) ==> read(d, p) == Success((x, p + |write(x)|))
    ensures ReadsBack(read, write, fits)
  {
  }

  // ---------------------------------------------------------------------
  // Block records

  /** The four count fields of a block record after its name index: pin
      counts, the number of nested references (whose records are never
      written) and the number of statements. */
  datatype Counts = Counts(inputSignals: nat, outputSignals: nat, blockCount: nat, statementCount: nat)

  function CountsBytes(c: Counts): (bs: seq<Byte>)
    ensures |bs| == 16
  {
    Le32(c.inputSignals) + Le32(c.outputSignals) + Le32(c.blockCount) + Le32(c.statementCount)
  }

  function ReadCounts(data: seq<Byte>, pos: nat): (r: Result<Counts>)
  {
    var inputSignals :- Read32(data, pos);
    var outputSignals :- Read32(data, pos + 4);
    var blockCount :- Read32(data, pos + 8);
    var statementCount :- Read32(data, pos + 12);
    Success(Counts(inputSignals, outputSignals, blockCount, statementCount))
  }

  lemma {:induction false} CountsBack(data: seq<Byte>, pos: nat, c: Counts)
    requires c.inputSignals <= UINT32_MAX && c.outputSignals <= UINT32_MAX
    requires c.blockCount <= UINT32_MAX && c.statementCount <= UINT32_MAX
    requires At(data, pos, CountsBytes(c))
    ensures ReadCounts(data, pos) == Success(c)
  {
    var f0 := Le32(c.inputSignals);
    var f1 := f0 + Le32(c.outputSignals);
    var f2 := f1 + Le32(c.blockCount);
    AtSplit(data, pos, f2, Le32(c.statementCount));
    AtSplit(data, pos, f1, Le32(c.blockCount));
    AtSplit(data, pos, f0, Le32(c.outputSignals));
    Read32Back(data, pos, c.inputSignals);
    Read32Back(data, pos + 4, c.outputSignals);
    Read32Back(data, pos + 8, c.blockCount);
    Read32Back(data, pos + 12, c.statementCount);
  }

  function BlockCounts(b: BlockDef): Counts
  {
    Counts(b.inputSignals, b.outputSignals, |b.blocks|, |b.statements|)
  }

  /** A block record: name index, counts, then the statements. */
  function BlockFields(b: BlockDef, nameIndex: nat): (bs: seq<Byte>)
  {
    Le32(nameIndex) + CountsBytes(BlockCounts(b)) + Concat(StatementBytes, b.statements)
  }

  /** File::writeBlock after the name is in the string table, as written:
      the second guard repeats the block-count test, so a statement count
      above UINT32_MAX is truncated into its field. */
  function BlockRecordAsWritten(b: BlockDef, nameIndex: nat): (r: Result<seq<Byte>>)
    ensures r.Success? <==> |b.blocks| <= UINT32_MAX
  {
    if |b.blocks| > UINT32_MAX then Failure(TooManyReferencesMessage)
    else if |b.blocks| > UINT32_MAX then Failure(TooManyStatementsMessage)
    else Success(BlockFields(b, nameIndex))
  }

  /** File::writeBlock with the statement guard testing the statement count. */
  function BlockRecord(b: BlockDef, nameIndex: nat): (r: Result<seq<Byte>>)
    ensures r.Success? <==> |b.blocks| <= UINT32_MAX && |b.statements| <= UINT32_MAX
    ensures r.Failure? ==> r.error == (if |b.blocks| > UINT32_MAX then TooManyReferencesMessage
                                       else TooManyStatementsMessage)
  {
    if |b.blocks| > UINT32_MAX then Failure(TooManyReferencesMessage)
    else if |b.statements| > UINT32_MAX then Failure(TooManyStatementsMessage)
    else Success(BlockFields(b, nameIndex))
  }

  /** Where the statement count fits, the guard as written and the
      intended one agree. */
  lemma BlockRecordAgrees(b: BlockDef, nameIndex: nat)
    requires |b.statements| <= UINT32_MAX
    ensures BlockRecordAsWritten(b, nameIndex) == BlockRecord(b, nameIndex)
  {
  }

  /** What File::readBlock makes of a block: no nested references, and the
      five-argument constructor puts the first free id right after the pins. */
  function Reloaded(b: BlockDef): (r: BlockDef)
  {
    BlockDef(b.name, b.inputSignals, b.outputSignals, [], b.statements, b.inputSignals + b.outputSignals)
  }

  /** File::readBlock: the name is looked up in the string table (an index
      past its end is undefined behaviour in the C++ and an error here), the
      nested block count is read and ignored, and the statements follow. */
  function ReadBlock(data: seq<Byte>, pos: nat, strings: seq<string>): (r: Result<(BlockDef, nat)>)
  {
    ReadBlockWith(ReadStatement, data, pos, strings)
  }

  /** File::readBlock with the statement reader as a parameter. */
  function ReadBlockWith(read: (seq<Byte>, nat) -> Result<(Statement, nat)>, data: seq<Byte>, pos: nat,
                         strings: seq<string>): (r: Result<(BlockDef, nat)>)
  {
    match Read32(data, pos)
    case Failure(e) => Failure(e)
    case Success(nameIndex) =>
      if nameIndex >= |strings| then Failure(NameIndexMessage)
      else
        match ReadCounts(data, pos + 4)
        case Failure(e) => Failure(e)
        case Success(c) =>
          match ReadMany(read, data, pos + 20, c.statementCount)
          case Failure(e) => Failure(e)
          case Success(statements) =>
            Success((BlockDef(strings[nameIndex], c.inputSignals, c.outputSignals, [], statements.0,
                              c.inputSignals + c.outputSignals), statements.1))
  }

  /** Everything a block record can carry. */
  ghost predicate BlockFits(b: BlockDef)
  {
    && b.inputSignals <= UINT32_MAX && b.outputSignals <= UINT32_MAX
    && forall k :: 0 <= k < |b.statements| ==> StatementFits(b.statements[k])
  }

  /** A block written with the checked guard is read back as Reloaded(b). */
  lemma {:induction false} BlockRoundTrip(data: seq<Byte>, pos: nat, strings: seq<string>, b: BlockDef, nameIndex: nat)
    requires BlockFits(b) && |b.blocks| <= UINT32_MAX && |b.statements| <= UINT32_MAX
    requires nameIndex < |strings| && nameIndex <= UINT32_MAX && strings[nameIndex] == b.name
    requires At(data, pos, BlockFields(b, nameIndex))
    ensures ReadBlock(data, pos, strings) == Success((Reloaded(b), pos + |BlockFields(b, nameIndex)|))
  {
    StatementsReadBack();
    BlockRoundTripWith(ReadStatement, data, pos, strings, b, nameIndex);
  }

  /** BlockRoundTrip for any statement reader that reads back what
      StatementBytes writes. */
  lemma {:induction false} BlockRoundTripWith(read: (seq<Byte>, nat) -> Result<(Statement, nat)>, data: seq<Byte>,
                                              pos: nat, strings: seq<string>, b: BlockDef, nameIndex: nat)
    requires ReadsBack(read, StatementBytes, StatementFits)
    requires BlockFits(b) && |b.blocks| <= UINT32_MAX && |b.statements| <= UINT32_MAX
    requires nameIndex < |strings| && nameIndex <= UINT32_MAX && strings[nameIndex] == b.name
    requires At(data, pos, BlockFields(b, nameIndex))
    ensures ReadBlockWith(read, data, pos, strings) == Success((Reloaded(b), pos + |BlockFields(b, nameIndex)|))
  {
    BlockFieldsAt(data, pos, b, nameIndex);
    Read32Back(data, pos, nameIndex);
    CountsBack(data, pos + 4, BlockCounts(b));
    ReadManyBack(read, StatementBytes, StatementFits, data, pos + 20, b.statements);
    ReadBlockOf(read, data, pos, strings, nameIndex, b, pos + |BlockFields(b, nameIndex)|);
  }

  /** Where the fields of a block record sit. */
  lemma {:induction false} BlockFieldsAt(data: seq<Byte>, pos: nat, b: BlockDef, nameIndex: nat)
    requires At(data, pos, BlockFields(b, nameIndex))
    ensures At(data, pos, Le32(nameIndex))
    ensures At(data, pos + 4, CountsBytes(BlockCounts(b)))
    ensures At(data, pos + 20, Concat(StatementBytes, b.statements))
    ensures |BlockFields(b, nameIndex)| == 20 + |Concat(StatementBytes, b.statements)|
  {
    var head := Le32(nameIndex) + CountsBytes(BlockCounts(b));
    AtSplit(data, pos, head, Concat(StatementBytes, b.statements));
    AtSplit(data, pos, Le32(nameIndex), CountsBytes(BlockCounts(b)));
  }

  /** ReadBlockWith from the values of its three steps. */
  lemma {:induction false} ReadBlockOf(read: (seq<Byte>, nat) -> Result<(Statement, nat)>, data: seq<Byte>, pos: nat,
                                       strings: seq<string>, nameIndex: nat, b: BlockDef, end: nat)
    requires Read32(data, pos) == Success(nameIndex) && nameIndex < |strings| && strings[nameIndex] == b.name
    requires ReadCounts(data, pos + 4) == Success(BlockCounts(b))
    requires ReadMany(read, data, pos + 20, |b.statements|) == Success((b.statements, end))
    ensures ReadBlockWith(read, data, pos, strings) == Success((Reloaded(b), end))
  {
  }

  /** The guard at the statement count never fires as written: a block with
      2^32 statements and no nested references is written, and its
      statement count field says 0. */
  lemma {:induction false} StatementCountTruncated(name: string)
    ensures var b := BlockDef(name, 0, 0, [], seq(0x1_0000_0000, _ => Statement(CONST0, 1, [], [0])), 0);
      && BlockRecordAsWritten(b, 0).Success?
      && BlockRecordAsWritten(b, 0).value[16..20] == Le32(0)
      && |b.statements| == 0x1_0000_0000
      && BlockRecord(b, 0) == Failure(TooManyStatementsMessage)
  {
    var b := BlockDef(name, 0, 0, [], seq(0x1_0000_0000, _ => Statement(CONST0, 1, [], [0])), 0);
    var fields := BlockFields(b, 0);
    assert fields[16..20] == Le32(|b.statements|);
    BufferHelper.LeBytesOfLeValue(Le32(0));
    assert Le32(|b.statements|) == Le32(0) by {
      assert Le32(|b.statements|) == [0, 0, 0, 0];
      assert Le32(0) == [0, 0, 0, 0];
    }
  }

  // ---------------------------------------------------------------------
  // The block list

  /** The block names, in order. */
  function Names(blocks: seq<BlockDef>): (names: seq<string>)
    ensures |names| == |blocks|
  {
    seq(|blocks|, k requires 0 <= k < |blocks| => blocks[k].name)
  }

  /** Bytes written in front of a writer's result, errors passed through. */
  function Prepend(bs: seq<Byte>, r: Result<(seq<Byte>, seq<string>, nat)>): Result<(seq<Byte>, seq<string>, nat)>
  {
    match r
    case Failure(e) => Failure(e)
    case Success(w) => Success((bs + w.0, w.1, w.2))
  }

  /** The loop of File::writeBlocks from a table holding strings with the
      given totalSize: each block's name goes into the table first (the
      StringTable::add checks), the record holds its index, and the records
      follow one another, each with the guards as written (a statement count
      above UINT32_MAX is truncated). The table left behind comes with the
      bytes. */
  function BlocksBytes(blocks: seq<BlockDef>, strings: seq<string>, totalSize: nat)
    : (r: Result<(seq<Byte>, seq<string>, nat)>)
    decreases |blocks|
  {
    if blocks == [] then Success(([], strings, totalSize))
    else
      var b := blocks[0];
      if TableFull(totalSize, |b.name|) then Failure(TableFullMessage)
      else if |strings| >= UINT32_MAX then Failure(TableCountMessage)
      else
        match BlockRecordAsWritten(b, |strings|)
        case Failure(e) => Failure(e)
        case Success(record) =>
          Prepend(record, BlocksBytes(blocks[1..], strings + [b.name], (totalSize + |b.name| + 1) % 0x1_0000_0000))
  }

  /** File::writeFile: the magic, the version, the string table offset,
      the block count and records, then the string table. */
  function FileBytes(f: File): (r: Result<seq<Byte>>)
    requires TableNames(f.blocks)
  {
    if |f.blocks| > UINT32_MAX then Failure(TooManyBlocksMessage)
    else
      match BlocksBytes(f.blocks, [], 0)
      case Failure(e) => Failure(e)
      case Success(w) =>
        var body := Le32(|f.blocks|) + w.0;
        Success(MagicBytes + Le32(VERSION) + Le64(HeaderSize + |body|) + body + Le32(w.2) + StringsBytes(Names(f.blocks)))
  }

  /** File::writeBlocks: the block count, then each block's record, with
      its name added to the table. */
  method WriteBlocks(blocks: seq<BlockDef>, table: StringTable) returns (r: Result<seq<Byte>>)
    requires forall k :: 0 <= k < |blocks| ==> |blocks[k].name| + 1 < SIZE_MODULUS
    modifies table
    ensures |blocks| > UINT32_MAX ==> r == Failure(TooManyBlocksMessage)
                                      && table.strings == old(table.strings) && table.totalSize == old(table.totalSize)
    ensures |blocks| <= UINT32_MAX ==>
      match BlocksBytes(blocks, old(table.strings), old(table.totalSize))
      case Failure(e) => r == Failure(e)
      case Success(w) => r == Success(Le32(|blocks|) + w.0) && table.strings == w.1 && table.totalSize == w.2
  {
    if |blocks| > UINT32_MAX {
      return Failure(TooManyBlocksMessage);
    }
    ghost var whole := BlocksBytes(blocks, table.strings, table.totalSize);
    var written: seq<Byte> := [];
    var i := 0;
    assert blocks[0..] == blocks;
    PrependEmpty(whole);
    while i < |blocks|
      invariant i <= |blocks|
      invariant whole == Prepend(written, BlocksBytes(blocks[i..], table.strings, table.totalSize))
    {
      var b := blocks[i];
      assert blocks[i..][0] == b && blocks[i..][1..] == blocks[i + 1..];
      ghost var strings, totalSize := table.strings, table.totalSize;
      var index := table.Add(b.name);
      if index.Failure? {
        return Failure(index.error);
      }
      var record := BlockRecordAsWritten(b, index.value);
      if record.Failure? {
        return Failure(record.error);
      }
      PrependPrepend(written, record.value, BlocksBytes(blocks[i + 1..], table.strings, table.totalSize));
      written := written + record.value;
      i := i + 1;
    }
    assert blocks[i..] == [];
    assert written + [] == written;
    return Success(Le32(|blocks|) + written);
  }

  lemma {:induction false} PrependEmpty(r: Result<(seq<Byte>, seq<string>, nat)>)
    ensures Prepend([], r) == r
  {
    if r.Success? {
      assert [] + r.value.0 == r.value.0;
    }
  }

  lemma {:induction false} PrependPrepend(a: seq<Byte>, b: seq<Byte>, r: Result<(seq<Byte>, seq<string>, nat)>)
    ensures Prepend(a, Prepend(b, r)) == Prepend(a + b, r)
  {
    if r.Success? {
      assert a + (b + r.value.0) == (a + b) + r.value.0;
    }
  }

  /** The names a successful BlocksBytes leaves in the table, and the
      records it writes: block k of the run gets index |strings| + k. */
  lemma {:induction false} BlocksBytesValue(blocks: seq<BlockDef>, strings: seq<string>, totalSize: nat)
    requires BlocksBytes(blocks, strings, totalSize).Success?
    ensures BlocksBytes(blocks, strings, totalSize).value.1 == strings + Names(blocks)
    ensures BlocksBytes(blocks, strings, totalSize).value.0 == ConcatFrom(BlockFields, blocks, |strings|)
    decreases |blocks|
  {
    if blocks != [] {
      var b := blocks[0];
      var next := (totalSize + |b.name| + 1) % 0x1_0000_0000;
      BlocksBytesValue(blocks[1..], strings + [b.name], next);
      assert strings + [b.name] + Names(blocks[1..]) == strings + Names(blocks);
    }
  }

  /** File::writeFile: the header with a zero placeholder for the table
      offset, the blocks, the string table at the offset reached, and then
      the offset written over the placeholder. */
  method WriteFile(f: File) returns (r: Result<seq<Byte>>)
    requires TableNames(f.blocks)
    requires forall k :: 0 <= k < |f.blocks| ==> |f.blocks[k].name| + 1 < SIZE_MODULUS
    ensures r == FileBytes(f)
  {
    var header := MagicBytes + Le32(VERSION);
    var out := header + Le64(0);
    var table := new StringTable();
    var blocks := WriteBlocks(f.blocks, table);
    if blocks.Failure? {
      return Failure(blocks.error);
    }
    out := out + blocks.value;
    var pointer := |out|;
    BlocksBytesValue(f.blocks, [], 0);
    assert [] + Names(f.blocks) == Names(f.blocks);
    out := out + table.Bytes();
    PatchPointer(header, blocks.value, table.Bytes(), pointer);
    out := out[..|header|] + Le64(pointer) + out[|header| + 8..];
    ghost var w := BlocksBytes(f.blocks, [], 0).value;
    assert blocks.value == Le32(|f.blocks|) + w.0;
    assert table.Bytes() == Le32(w.2) + StringsBytes(Names(f.blocks));
    AppendAssociates(header + Le64(pointer) + blocks.value, Le32(w.2), StringsBytes(Names(f.blocks)));
    return Success(out);
  }

  /** Writing the offset over the placeholder changes those 8 bytes only. */
  lemma {:induction false} PatchPointer(header: seq<Byte>, a: seq<Byte>, b: seq<Byte>, pointer: nat)
    ensures var out := header + Le64(0) + a + b;
      out[..|header|] + Le64(pointer) + out[|header| + 8..] == header + Le64(pointer) + a + b
  {
    var out := header + Le64(0) + a + b;
    assert out[..|header|] == header;
    assert out[|header| + 8..] == a + b;
  }


  // ---------------------------------------------------------------------
  // Reading a file

  /** StringTable::read at pos: the size field, that many bytes (the
      end-of-file error when they are not all there), split at each NUL;
      the position after the table comes with the strings. */
  function ReadStringTable(data: seq<Byte>, pos: nat): (r: Result<(seq<string>, nat)>)
    ensures r.Success? ==> AllTableStrings(r.value.0) && r.value.1 <= |data|
  {
    match Read32(data, pos)
    case Failure(e) => Failure(e)
    case Success(totalSize) =>
      if pos + 4 + totalSize > |data| then Failure(EofMessage)
      else
        var buf := data[pos + 4..pos + 4 + totalSize];
        if !Terminated(buf) then Failure(UnterminatedMessage)
        else Success((Split(buf), pos + 4 + totalSize))
  }

  /** File::readBlock against a fixed string table. */
  function BlockReader(strings: seq<string>): (seq<Byte>, nat) -> Result<(BlockDef, nat)>
  {
    BlockReaderWith(ReadStatement, strings)
  }

  /** BlockReader with the statement reader as a parameter. */
  function BlockReaderWith(read: (seq<Byte>, nat) -> Result<(Statement, nat)>, strings: seq<string>)
    : (seq<Byte>, nat) -> Result<(BlockDef, nat)>
  {
    (d: seq<Byte>, p: nat) => ReadBlockWith(read, d, p, strings)
  }

  /** File::readBlocks at pos: the block count, then that many records. */
  function ReadBlocks(data: seq<Byte>, pos: nat, strings: seq<string>): (r: Result<(seq<BlockDef>, nat)>)
  {
    match Read32(data, pos)
    case Failure(e) => Failure(e)
    case Success(count) => ReadMany(BlockReader(strings), data, pos + 4, count)
  }

  /** The fixed-size header read by File::readFile: the magic, then the
      version, then the string table offset as a signed 64-bit value. A
      negative offset makes seekg fail, and the next read reports the
      generic read error. */
  function ReadHeader(data: seq<Byte>): (r: Result<nat>)
    ensures r.Success? ==> |data| >= HeaderSize && data[..4] == MagicBytes && r.value < INT64_LIMIT
    ensures r.Success? ==> Read32(data, 4) == Success(VERSION) && Read64(data, 8) == Success(r.value)
    ensures |data| >= 4 && data[..4] != MagicBytes ==> r == Failure(MagicMessage)
    ensures |data| >= 4 && data[..4] == MagicBytes && Read32(data, 4).Success? && Read32(data, 4).value != VERSION
            ==> r == Failure(VersionMessage)
  {
    if |data| < 4 then Failure(EofMessage)
    else if data[..4] != MagicBytes then Failure(MagicMessage)
    else
      match Read32(data, 4)
      case Failure(e) => Failure(e)
      case Success(version) =>
        if version != VERSION then Failure(VersionMessage)
        else
          match Read64(data, 8)
          case Failure(e) => Failure(e)
          case Success(pointer) =>
            if pointer >= INT64_LIMIT then Failure(ReadErrorMessage) else Success(pointer)
  }

  /** File::readFile as written: after the seek to the string table and
      reading it, the blocks are read from where the table ends. */
  function ReadFileAsWritten(data: seq<Byte>): (r: Result<File>)
    ensures ReadHeader(data).Failure? ==> r == Failure(ReadHeader(data).error)
    ensures r.Success? ==> data[..4] == MagicBytes && Read32(data, 4) == Success(VERSION)
  {
    match ReadHeader(data)
    case Failure(e) => Failure(e)
    case Success(pointer) =>
      match ReadStringTable(data, pointer)
      case Failure(e) => Failure(e)
      case Success(table) =>
        match ReadBlocks(data, table.1, table.0)
        case Failure(e) => Failure(e)
        case Success(blocks) => Success(File(blocks.0))
  }

  /** File::readFile with a seek back to the end of the header before the
      blocks are read. */
  function ReadFile(data: seq<Byte>): (r: Result<File>)
    ensures ReadHeader(data).Failure? ==> r == Failure(ReadHeader(data).error)
    ensures r.Success? ==> data[..4] == MagicBytes && Read32(data, 4) == Success(VERSION)
  {
    match ReadHeader(data)
    case Failure(e) => Failure(e)
    case Success(pointer) =>
      match ReadStringTable(data, pointer)
      case Failure(e) => Failure(e)
      case Success(table) =>
        match ReadBlocks(data, HeaderSize, table.0)
        case Failure(e) => Failure(e)
        case Success(blocks) => Success(File(blocks.0))
  }

  // ---------------------------------------------------------------------
  // Round trips of whole files

  /** The block names as a string table holds them. */
  predicate TableNames(blocks: seq<BlockDef>)
  {
    forall k :: 0 <= k < |blocks| ==> TableString(blocks[k].name)
  }

  /** A file File::writeFile can store and File::readFile gives back:
      names the string table holds, each shorter than UINT32_MAX bytes,
      fields and ids that fit, and statement counts that fit their field
      (the writer does not check that, see BlockRecordAsWritten). */
  ghost predicate Storable(f: File)
  {
    && TableNames(f.blocks)
    && forall k :: 0 <= k < |f.blocks| ==>
         BlockFits(f.blocks[k]) && |f.blocks[k].name| < UINT32_MAX && |f.blocks[k].statements| <= UINT32_MAX
  }

  /** Every record that fits, wherever it is written with index i, is
      read back as the result of the item it was written from. */
  ghost predicate IndexedReadsBack<T(!new), U>(read: (seq<Byte>, nat) -> Result<(U, nat)>,
                                               write: (T, nat) -> seq<Byte>, result: T -> U, fits: (T, nat) -> bool)
  {
    forall d: seq<Byte>, p: nat, x: T, i: nat {:trigger At(d, p, write(x, i))} ::
      fits(x, i) && At(d, p, write(x, i)) ==> read(d, p) == Success((result(x), p + |write(x, i)|))
  }

  /** A run of such records, the k-th written with index first + k, is read
      as the list of their results. */
  lemma {:induction false} ReadManyIndexed<T(!new), U>(read: (seq<Byte>, nat) -> Result<(U, nat)>,
                                                       write: (T, nat) -> seq<Byte>, result: T -> U,
                                                       fits: (T, nat) -> bool, data: seq<Byte>, pos: nat,
                                                       items: seq<T>, first: nat)
    requires IndexedReadsBack(read, write, result, fits)
    requires forall k :: 0 <= k < |items| ==> fits(items[k], first + k)
    requires At(data, pos, ConcatFrom(write, items, first))
    ensures ReadMany(read, data, pos, |items|) == Success((Map(result, items), pos + |ConcatFrom(write, items, first)|))
    decreases |items|
  {
    if items != [] {
      var next := pos + |write(items[0], first)|;
      ReadManyIndexedStep(read, write, result, fits, data, pos, items, first);
      ReadManyIndexed(read, write, result, fits, data, next, items[1..], first + 1);
      ReadManyOf(read, data, pos, |items|, (result(items[0]), next),
                 (Map(result, items[1..]), next + |ConcatFrom(write, items[1..], first + 1)|));
    }
  }

  /** The first record of an indexed run and what is left after it. */
  lemma {:induction false} ReadManyIndexedStep<T(!new), U>(read: (seq<Byte>, nat) -> Result<(U, nat)>,
                                                           write: (T, nat) -> seq<Byte>, result: T -> U,
                                                           fits: (T, nat) -> bool, data: seq<Byte>, pos: nat,
                                                           items: seq<T>, first: nat)
    requires IndexedReadsBack(read, write, result, fits)
    requires items != [] && forall k :: 0 <= k < |items| ==> fits(items[k], first + k)
    requires At(data, pos, ConcatFrom(write, items, first))
    ensures read(data, pos) == Success((result(items[0]), pos + |write(items[0], first)|))
    ensures At(data, pos + |write(items[0], first)|, ConcatFrom(write, items[1..], first + 1))
    ensures forall k :: 0 <= k < |items[1..]| ==> fits(items[1..][k], first + 1 + k)
    ensures |ConcatFrom(write, items, first)| == |write(items[0], first)| + |ConcatFrom(write, items[1..], first + 1)|
    ensures Map(result, items) == [result(items[0])] + Map(result, items[1..])
  {
    AtSplit(data, pos, write(items[0], first), ConcatFrom(write, items[1..], first + 1));
    assert fits(items[0], first + 0);
    forall k | 0 <= k < |items| - 1
      ensures fits(items[1..][k], first + 1 + k)
    {
      assert fits(items[k + 1], first + (k + 1));
    }
  }

  /** A block record File::readBlock reads back: the block's fields fit,
      and its name index resolves to its name. */
  ghost predicate BlockFitsIn(strings: seq<string>, b: BlockDef, i: nat)
  {
    && BlockFits(b) && |b.blocks| <= UINT32_MAX && |b.statements| <= UINT32_MAX
    && i < |strings| && i <= UINT32_MAX && strings[i] == b.name
  }

  /** BlockFitsIn as the condition of IndexedReadsBack. */
  ghost function BlockFitsAt(strings: seq<string>): (BlockDef, nat) -> bool
  {
    (b: BlockDef, i: nat) => BlockFitsIn(strings, b, i)
  }

  /** File::readBlock reads back every such block record. */
  lemma {:induction false} BlockReaderReadsBack(strings: seq<string>)
    ensures IndexedReadsBack(BlockReader(strings), BlockFields, Reloaded, BlockFitsAt(strings))
  {
    StatementsReadBack();
    BlockReaderWithReadsBack(ReadStatement, strings);
  }

  /** BlockReaderReadsBack for any statement reader that reads back what
      StatementBytes writes. */
  lemma {:induction false} BlockReaderWithReadsBack(read: (seq<Byte>, nat) -> Result<(Statement, nat)>,
                                                    strings: seq<string>)
    requires ReadsBack(read, StatementBytes, StatementFits)
    ensures IndexedReadsBack(BlockReaderWith(read, strings), BlockFields, Reloaded, BlockFitsAt(strings))
  {
    BlockReaderAll(read, strings);
    IndexedReadsBackBy(BlockReaderWith(read, strings), BlockFields, Reloaded, BlockFitsAt(strings));
  }

  /** BlockRoundTripWith at every position of every byte sequence. */
  lemma {:induction false} BlockReaderAll(read: (seq<Byte>, nat) -> Result<(Statement, nat)>, strings: seq<string>)
    requires ReadsBack(read, StatementBytes, StatementFits)
    ensures forall d: seq<Byte>, p: nat, b: BlockDef, i: nat {:trigger At(d, p, BlockFields(b, i))} ::
      BlockFitsAt(strings)(b, i) && At(d, p, BlockFields(b, i))
      ==> BlockReaderWith(read, strings)(d, p) == Success((Reloaded(b), p + |BlockFields(b, i)|))
  {
    forall d: seq<Byte>, p: nat, b: BlockDef, i: nat {:trigger At(d, p, BlockFields(b, i))}
      | BlockFitsAt(strings)(b, i) && At(d, p, BlockFields(b, i))
      ensures BlockReaderWith(read, strings)(d, p) == Success((Reloaded(b), p + |BlockFields(b, i)|))
    {
      BlockRoundTripWith(read, d, p, strings, b, i);
    }
  }

  /** IndexedReadsBack from the property it names. */
  lemma {:induction false} IndexedReadsBackBy<T(!new), U>(read: (seq<Byte>, nat) -> Result<(U, nat)>,
                                                          write: (T, nat) -> seq<Byte>, result: T -> U,
                                                          fits: (T, nat) -> bool)
    requires forall d: seq<Byte>, p: nat, x: T, i: nat {:trigger At(d, p, write(x, i))} ::
      fits(x, i) && At(d, p, write(x, i)) ==> read(d, p) == Success((result(x), p + |write(x, i)|))
    ensures IndexedReadsBack(read, write, result, fits)
  {
  }

  /** The table BlocksBytes leaves behind keeps its totalSize exact when no
      name reaches UINT32_MAX bytes. */
  lemma {:induction false} BlocksBytesTotal(blocks: seq<BlockDef>, strings: seq<string>, totalSize: nat)
    requires BlocksBytes(blocks, strings, totalSize).Success?
    requires totalSize == TotalSize(strings) && totalSize <= UINT32_MAX
    requires forall k :: 0 <= k < |blocks| ==> |blocks[k].name| < UINT32_MAX
    ensures var w := BlocksBytes(blocks, strings, totalSize).value; w.2 == TotalSize(w.1) && w.2 <= UINT32_MAX
    decreases |blocks|
  {
    if blocks != [] {
      var name := blocks[0].name;
      BlocksBytesStep(blocks, strings, totalSize);
      assert |name| < UINT32_MAX;
      RoomLeft(totalSize, |name|);
      var grown := strings + [name];
      assert grown[..|grown| - 1] == strings;
      assert TotalSize(grown) == totalSize + |name| + 1;
      assert forall k :: 0 <= k < |blocks[1..]| ==> |blocks[1..][k].name| < UINT32_MAX by {
        forall k | 0 <= k < |blocks[1..]| ensures |blocks[1..][k].name| < UINT32_MAX {
          assert blocks[1..][k] == blocks[k + 1];
        }
      }
      BlocksBytesTotal(blocks[1..], grown, totalSize + |name| + 1);
    }
  }

  /** A successful BlocksBytes passed the table's size test on the first
      name and leaves the table the rest of the blocks leave. */
  lemma {:induction false} BlocksBytesStep(blocks: seq<BlockDef>, strings: seq<string>, totalSize: nat)
    requires blocks != [] && BlocksBytes(blocks, strings, totalSize).Success?
    ensures !TableFull(totalSize, |blocks[0].name|)
    ensures var rest := BlocksBytes(blocks[1..], strings + [blocks[0].name], (totalSize + |blocks[0].name| + 1) % 0x1_0000_0000);
            && rest.Success?
            && BlocksBytes(blocks, strings, totalSize).value.1 == rest.value.1
            && BlocksBytes(blocks, strings, totalSize).value.2 == rest.value.2
  {
  }

  /** A name the size test lets in keeps the 32-bit total from wrapping. */
  lemma RoomLeft(totalSize: nat, length: nat)
    requires !TableFull(totalSize, length) && length < UINT32_MAX
    ensures totalSize + length + 1 <= UINT32_MAX
    ensures (totalSize + length + 1) % 0x1_0000_0000 == totalSize + length + 1
  {
  }

  /** The checks a successful BlocksBytes has passed. */
  lemma {:induction false} BlocksBytesChecks(blocks: seq<BlockDef>, strings: seq<string>, totalSize: nat)
    requires BlocksBytes(blocks, strings, totalSize).Success?
    ensures blocks != [] ==> |strings| + |blocks| <= UINT32_MAX
    ensures forall k :: 0 <= k < |blocks| ==> |blocks[k].blocks| <= UINT32_MAX
    decreases |blocks|
  {
    if blocks != [] {
      var b := blocks[0];
      BlocksBytesChecks(blocks[1..], strings + [b.name], (totalSize + |b.name| + 1) % 0x1_0000_0000);
      assert forall k :: 1 <= k < |blocks| ==> blocks[k] == blocks[1..][k - 1];
    }
  }

  /** A string table written by StringTable::write is read back whole. */
  lemma {:induction false} TableBack(data: seq<Byte>, pos: nat, names: seq<string>, end: nat)
    requires AllTableStrings(names) && TotalSize(names) <= UINT32_MAX
    requires At(data, pos, Le32(TotalSize(names))) && At(data, pos + 4, StringsBytes(names))
    requires end == pos + 4 + TotalSize(names)
    ensures ReadStringTable(data, pos) == Success((names, end))
  {
    TableFields(data, pos, names);
    ReadStringTableOf(data, pos, StringsBytes(names), names, end);
  }

  /** The fields of a written string table, as the reader sees them. */
  lemma {:induction false} TableFields(data: seq<Byte>, pos: nat, names: seq<string>)
    requires AllTableStrings(names) && TotalSize(names) <= UINT32_MAX
    requires At(data, pos, Le32(TotalSize(names)))
    ensures |StringsBytes(names)| == TotalSize(names)
    ensures Read32(data, pos) == Success(TotalSize(names))
    ensures Terminated(StringsBytes(names)) && Split(StringsBytes(names)) == names
  {
    Read32Back(data, pos, TotalSize(names));
    StringsBytesSize(names);
    SplitRoundTrip(names);
  }

  /** ReadStringTable from the size field and the buffer after it. */
  lemma {:induction false} ReadStringTableOf(data: seq<Byte>, pos: nat, buf: seq<Byte>, names: seq<string>, end: nat)
    requires Read32(data, pos) == Success(|buf|) && At(data, pos + 4, buf) && Terminated(buf) && Split(buf) == names
    requires end == pos + 4 + |buf|
    ensures ReadStringTable(data, pos) == Success((names, end))
  {
  }

  /** The header File::writeFile emits passes File::readFile's checks. */
  lemma {:induction false} HeaderBack(data: seq<Byte>, pointer: nat)
    requires pointer < INT64_LIMIT && At(data, 0, MagicBytes + Le32(VERSION) + Le64(pointer))
    ensures ReadHeader(data) == Success(pointer)
  {
    AtSplit(data, 0, MagicBytes + Le32(VERSION), Le64(pointer));
    AtSplit(data, 0, MagicBytes, Le32(VERSION));
    Read32Back(data, 4, VERSION);
    Read64Back(data, 8, pointer);
  }

  /** Where the parts of a written file sit. */
  lemma {:induction false} FileLayout(head: seq<Byte>, count: seq<Byte>, records: seq<Byte>, size: seq<Byte>,
                                      strs: seq<Byte>)
    ensures var data := head + (count + records) + size + strs;
      && At(data, |head|, count) && At(data, |head| + |count|, records)
      && At(data, |head| + |count| + |records|, size) && At(data, |head| + |count| + |records| + |size|, strs)
      && At(data, 0, head)
  {
    var data := head + (count + records) + size + strs;
    AtWhole(data);
    AtSplit(data, 0, head + (count + records) + size, strs);
    AtSplit(data, 0, head + (count + records), size);
    AtSplit(data, 0, head, count + records);
    AtSplit(data, |head|, count, records);
  }

  /** The three steps of File::readFile on a written file: the header gives
      the table offset, the table runs to the end of the file, and the
      blocks read from the end of the header are the reloaded blocks. */
  lemma {:induction false} WrittenFileSteps(f: File)
    requires Storable(f)
    requires FileBytes(f).Success? && |FileBytes(f).value| < INT64_LIMIT
    ensures var data := FileBytes(f).value;
      exists pointer: nat, end: nat ::
      && ReadHeader(data) == Success(pointer)
      && ReadStringTable(data, pointer) == Success((Names(f.blocks), |data|))
      && ReadBlocks(data, HeaderSize, Names(f.blocks)) == Success((Map(Reloaded, f.blocks), end))
  {
    WrittenFileBytes(f);
    WrittenBytesRead(FileBytes(f).value, f.blocks);
  }

  /** WrittenFileSteps on the bytes WrittenFileBytes describes. */
  lemma {:induction false} WrittenBytesRead(data: seq<Byte>, blocks: seq<BlockDef>)
    requires var names := Names(blocks);
      var records := ConcatFrom(BlockFields, blocks, 0);
      && AllTableStrings(names) && TotalSize(names) <= UINT32_MAX
      && data == MagicBytes + Le32(VERSION) + Le64(HeaderSize + 4 + |records|)
                 + (Le32(|blocks|) + records) + Le32(TotalSize(names)) + StringsBytes(names)
    requires |data| < INT64_LIMIT && |blocks| <= UINT32_MAX
    requires forall k :: 0 <= k < |blocks| ==> BlockFits(blocks[k])
    requires forall k :: 0 <= k < |blocks| ==> |blocks[k].blocks| <= UINT32_MAX && |blocks[k].statements| <= UINT32_MAX
    ensures exists pointer: nat, end: nat ::
      && ReadHeader(data) == Success(pointer)
      && ReadStringTable(data, pointer) == Success((Names(blocks), |data|))
      && ReadBlocks(data, HeaderSize, Names(blocks)) == Success((Map(Reloaded, blocks), end))
  {
    var names := Names(blocks);
    var pointer := HeaderSize + 4 + |ConcatFrom(BlockFields, blocks, 0)|;
    BlockReaderReadsBack(names);
    WrittenLayout(data, blocks);
    WrittenPieces(BlockReader(names), data, blocks, pointer);
    WrittenReadsOf(data, blocks, pointer);
  }

  /** File::readFile's steps on such bytes, put together. */
  lemma {:induction false} WrittenReadsOf(data: seq<Byte>, blocks: seq<BlockDef>, pointer: nat)
    requires ReadHeader(data) == Success(pointer)
    requires ReadStringTable(data, pointer) == Success((Names(blocks), |data|))
    requires Read32(data, HeaderSize) == Success(|blocks|)
    requires ReadMany(BlockReader(Names(blocks)), data, HeaderSize + 4, |blocks|) == Success((Map(Reloaded, blocks), pointer))
    ensures exists pointer: nat, end: nat ::
      && ReadHeader(data) == Success(pointer)
      && ReadStringTable(data, pointer) == Success((Names(blocks), |data|))
      && ReadBlocks(data, HeaderSize, Names(blocks)) == Success((Map(Reloaded, blocks), end))
  {
    ReadBlocksOf(data, HeaderSize, Names(blocks), |blocks|, Map(Reloaded, blocks), pointer);
  }

  /** The reads of File::readFile on bytes laid out as File::writeFile lays
      them out, for any block reader that reads back every block record. */
  lemma {:induction false} WrittenPieces(read: (seq<Byte>, nat) -> Result<(BlockDef, nat)>, data: seq<Byte>,
                                         blocks: seq<BlockDef>, pointer: nat)
    requires IndexedReadsBack(read, BlockFields, Reloaded, BlockFitsAt(Names(blocks)))
    requires AllTableStrings(Names(blocks)) && TotalSize(Names(blocks)) <= UINT32_MAX
    requires pointer == HeaderSize + 4 + |ConcatFrom(BlockFields, blocks, 0)|
    requires |data| == pointer + 4 + TotalSize(Names(blocks)) && |data| < INT64_LIMIT
    requires At(data, 0, MagicBytes + Le32(VERSION) + Le64(pointer))
    requires At(data, HeaderSize, Le32(|blocks|)) && At(data, HeaderSize + 4, ConcatFrom(BlockFields, blocks, 0))
    requires At(data, pointer, Le32(TotalSize(Names(blocks)))) && At(data, pointer + 4, StringsBytes(Names(blocks)))
    requires |blocks| <= UINT32_MAX
    requires forall k :: 0 <= k < |blocks| ==> BlockFits(blocks[k])
    requires forall k :: 0 <= k < |blocks| ==> |blocks[k].blocks| <= UINT32_MAX && |blocks[k].statements| <= UINT32_MAX
    ensures ReadHeader(data) == Success(pointer)
    ensures ReadStringTable(data, pointer) == Success((Names(blocks), |data|))
    ensures Read32(data, HeaderSize) == Success(|blocks|)
    ensures ReadMany(read, data, HeaderSize + 4, |blocks|) == Success((Map(Reloaded, blocks), pointer))
  {
    WrittenHeadTable(data, pointer, Names(blocks));
    Read32Back(data, HeaderSize, |blocks|);
    WrittenRun(read, data, blocks, pointer);
  }

  /** The block records of such bytes, read one after another. */
  lemma {:induction false} WrittenRun(read: (seq<Byte>, nat) -> Result<(BlockDef, nat)>, data: seq<Byte>,
                                      blocks: seq<BlockDef>, pointer: nat)
    requires IndexedReadsBack(read, BlockFields, Reloaded, BlockFitsAt(Names(blocks)))
    requires pointer == HeaderSize + 4 + |ConcatFrom(BlockFields, blocks, 0)|
    requires At(data, HeaderSize + 4, ConcatFrom(BlockFields, blocks, 0))
    requires |blocks| <= UINT32_MAX
    requires forall k :: 0 <= k < |blocks| ==> BlockFits(blocks[k])
    requires forall k :: 0 <= k < |blocks| ==> |blocks[k].blocks| <= UINT32_MAX && |blocks[k].statements| <= UINT32_MAX
    ensures ReadMany(read, data, HeaderSize + 4, |blocks|) == Success((Map(Reloaded, blocks), pointer))
  {
    BlocksFitAt(blocks);
    ReadManyIndexed(read, BlockFields, Reloaded, BlockFitsAt(Names(blocks)), data, HeaderSize + 4, blocks, 0);
  }

  /** The bytes File::writeFile emits, part by part, and what holds of
      them. */
  lemma {:induction false} WrittenFileBytes(f: File)
    requires Storable(f)
    requires FileBytes(f).Success?
    ensures var names := Names(f.blocks);
      var records := ConcatFrom(BlockFields, f.blocks, 0);
      && AllTableStrings(names) && TotalSize(names) <= UINT32_MAX
      && FileBytes(f).value == MagicBytes + Le32(VERSION) + Le64(HeaderSize + 4 + |records|)
                               + (Le32(|f.blocks|) + records) + Le32(TotalSize(names)) + StringsBytes(names)
    ensures |f.blocks| <= UINT32_MAX
    ensures forall k :: 0 <= k < |f.blocks| ==> BlockFits(f.blocks[k])
    ensures forall k :: 0 <= k < |f.blocks| ==>
              |f.blocks[k].blocks| <= UINT32_MAX && |f.blocks[k].statements| <= UINT32_MAX
  {
    var w := BlocksBytes(f.blocks, [], 0).value;
    BlocksWritten(f.blocks);
    FileBytesOf(f, w);
  }

  /** FileBytes once the blocks are written. */
  lemma {:induction false} FileBytesOf(f: File, w: (seq<Byte>, seq<string>, nat))
    requires TableNames(f.blocks) && |f.blocks| <= UINT32_MAX && BlocksBytes(f.blocks, [], 0) == Success(w)
    ensures FileBytes(f) == Success(MagicBytes + Le32(VERSION) + Le64(HeaderSize + |Le32(|f.blocks|) + w.0|)
                                    + (Le32(|f.blocks|) + w.0) + Le32(w.2) + StringsBytes(Names(f.blocks)))
  {
  }

  /** What File::writeBlocks leaves, starting from an empty table, when it
      succeeds on blocks whose names fit. */
  lemma {:induction false} BlocksWritten(blocks: seq<BlockDef>)
    requires BlocksBytes(blocks, [], 0).Success?
    requires forall k :: 0 <= k < |blocks| ==> |blocks[k].name| < UINT32_MAX && |blocks[k].statements| <= UINT32_MAX
    ensures var w := BlocksBytes(blocks, [], 0).value;
      && w.0 == ConcatFrom(BlockFields, blocks, 0) && w.1 == Names(blocks) && w.2 == TotalSize(Names(blocks))
      && TotalSize(Names(blocks)) <= UINT32_MAX
    ensures blocks != [] ==> |blocks| <= UINT32_MAX
    ensures forall k :: 0 <= k < |blocks| ==> |blocks[k].blocks| <= UINT32_MAX && |blocks[k].statements| <= UINT32_MAX
  {
    var names := Names(blocks);
    BlocksBytesValue(blocks, [], 0);
    assert [] + names == names;
    BlocksBytesTotal(blocks, [], 0);
    BlocksBytesChecks(blocks, [], 0);
  }

  /** Where the parts of such bytes sit. */
  lemma {:induction false} WrittenLayout(data: seq<Byte>, blocks: seq<BlockDef>)
    requires var names := Names(blocks);
      var records := ConcatFrom(BlockFields, blocks, 0);
      && AllTableStrings(names)
      && data == MagicBytes + Le32(VERSION) + Le64(HeaderSize + 4 + |records|)
                 + (Le32(|blocks|) + records) + Le32(TotalSize(names)) + StringsBytes(names)
    ensures var names := Names(blocks);
      var records := ConcatFrom(BlockFields, blocks, 0);
      var pointer := HeaderSize + 4 + |records|;
      && |data| == pointer + 4 + TotalSize(names)
      && At(data, 0, MagicBytes + Le32(VERSION) + Le64(pointer))
      && At(data, HeaderSize, Le32(|blocks|)) && At(data, HeaderSize + 4, records)
      && At(data, pointer, Le32(TotalSize(names))) && At(data, pointer + 4, StringsBytes(names))
  {
    var names := Names(blocks);
    var records := ConcatFrom(BlockFields, blocks, 0);
    FileLayout(MagicBytes + Le32(VERSION) + Le64(HeaderSize + 4 + |records|), Le32(|blocks|), records,
               Le32(TotalSize(names)), StringsBytes(names));
    StringsBytesSize(names);
  }

  /** The header and the string table of a written file are read back. */
  lemma {:induction false} WrittenHeadTable(data: seq<Byte>, pointer: nat, names: seq<string>)
    requires AllTableStrings(names) && TotalSize(names) <= UINT32_MAX
    requires |data| == pointer + 4 + TotalSize(names) && pointer < INT64_LIMIT
    requires At(data, 0, MagicBytes + Le32(VERSION) + Le64(pointer))
    requires At(data, pointer, Le32(TotalSize(names))) && At(data, pointer + 4, StringsBytes(names))
    ensures ReadHeader(data) == Success(pointer)
    ensures ReadStringTable(data, pointer) == Success((names, |data|))
  {
    HeaderBack(data, pointer);
    TableBack(data, pointer, names, |data|);
  }

  lemma {:induction false} BlocksFitAt(blocks: seq<BlockDef>)
    requires |blocks| <= UINT32_MAX
    requires forall k :: 0 <= k < |blocks| ==> BlockFits(blocks[k])
    requires forall k :: 0 <= k < |blocks| ==> |blocks[k].blocks| <= UINT32_MAX && |blocks[k].statements| <= UINT32_MAX
    ensures forall k :: 0 <= k < |blocks| ==> BlockFitsAt(Names(blocks))(blocks[k], 0 + k)
  {
  }

  /** ReadBlocks from its two steps. */
  lemma {:induction false} ReadBlocksOf(data: seq<Byte>, pos: nat, strings: seq<string>, count: nat,
                                        blocks: seq<BlockDef>, end: nat)
    requires Read32(data, pos) == Success(count)
    requires ReadMany(BlockReader(strings), data, pos + 4, count) == Success((blocks, end))
    ensures ReadBlocks(data, pos, strings) == Success((blocks, end))
  {
  }

  /** A file written by File::writeFile and read with the seek back to the
      blocks gives back every block as File::readBlock builds it. */
  lemma {:induction false} FileRoundTrip(f: File)
    requires Storable(f)
    requires FileBytes(f).Success? && |FileBytes(f).value| < INT64_LIMIT
    ensures ReadFile(FileBytes(f).value) == Success(File(Map(Reloaded, f.blocks)))
  {
    WrittenFileSteps(f);
  }

  /** File::readFile as written cannot read any file File::writeFile
      writes: the string table is the last thing in the file, so the block
      count is read at its end. */
  lemma {:induction false} FileAsWrittenUnreadable(f: File)
    requires Storable(f)
    requires FileBytes(f).Success? && |FileBytes(f).value| < INT64_LIMIT
    ensures ReadFileAsWritten(FileBytes(f).value) == Failure(EofMessage)
  {
    WrittenFileSteps(f);
  }
}
