/** Which texts are addresses, said of the text itself. */
module IpRefusals {
  import opened ByteStrings
  import opened Strings
  import opened IpAddress

  /** A part that is read as a number from `lo` to `hi`. */
  predicate Reads(x: Option<int>, lo: int, hi: int) {
    x.Some? && lo <= x.value <= hi
  }

  /** Four parts between dots, each a decimal number of a byte. */
  predicate IsDotted(nums: Numbers, str: string) {
    var p := Split(str, '.');
    |p| == 4 && forall k :: 0 <= k < 4 ==> Reads(nums.readDec(p[k]), 0, 255)
  }

  function ByteOf(x: int): bv8
    requires 0 <= x <= 255
  {
    x as bv8
  }

  lemma {:induction false} OctetIff(nums: Numbers, part: string)
    ensures ReadOctet(nums, part).Some? <==> Reads(nums.readDec(part), 0, 255)
    ensures Reads(nums.readDec(part), 0, 255) ==> ReadOctet(nums, part) == Some(ByteOf(nums.readDec(part).value))
  {}

  function Dotted(nums: Numbers, str: string): Bytes
    requires IsDotted(nums, str)
  {
    var p := Split(str, '.');
    [ByteOf(nums.readDec(p[0]).value), ByteOf(nums.readDec(p[1]).value),
     ByteOf(nums.readDec(p[2]).value), ByteOf(nums.readDec(p[3]).value)]
  }

  lemma {:induction false} DottedIff(nums: Numbers, str: string)
    ensures ParseV4(nums, str) == if IsDotted(nums, str) then Dotted(nums, str) else []
  {
    hide Split, ReadOctet, ByteOf;
    var p := Split(str, '.');
    if |p| == 4 {
      OctetIff(nums, p[0]);
      OctetIff(nums, p[1]);
      OctetIff(nums, p[2]);
      OctetIff(nums, p[3]);
    }
  }

  /** A text without a colon is an address if and only if it has four parts between dots that are read
      as the numbers of four bytes, and those are what it stands for. */
  lemma {:induction false} V4AddressIff(nums: Numbers, str: string)
    requires ':' !in str
    ensures var p := Split(str, '.');
            Parse(nums, str)
            == if |p| == 4 && Reads(nums.readDec(p[0]), 0, 255) && Reads(nums.readDec(p[1]), 0, 255)
                  && Reads(nums.readDec(p[2]), 0, 255) && Reads(nums.readDec(p[3]), 0, 255) then
                 [ByteOf(nums.readDec(p[0]).value), ByteOf(nums.readDec(p[1]).value),
                  ByteOf(nums.readDec(p[2]).value), ByteOf(nums.readDec(p[3]).value)]
               else []
  {
    hide ParseV4, ByteOf;
    DottedIff(nums, str);
    if '.' !in str { SplitWhole(str, '.'); }
    hide Split;
  }

  /** What a part of an IPv6 address may be: a group in hexadecimal, an IPv4 address at the end, or
      nothing, for `::`, which at either end takes two empty parts. */
  predicate MayBePart(nums: Numbers, parts: seq<string>, k: nat)
    requires k < |parts| && 3 <= |parts|
  {
    && (parts[k] == "" && k == |parts| - 1 ==> parts[k - 1] == "")
    && (parts[k] == "" && k == 0 ==> parts[1] == "")
    && (parts[k] != "" && '.' !in parts[k] ==> Reads(nums.readHex(parts[k]), 0, 0xffff))
    && ('.' in parts[k] ==> k == |parts| - 1 && IsDotted(nums, parts[k]))
  }

  predicate MayBeParts(nums: Numbers, parts: seq<string>, lo: nat, hi: nat)
    requires hi <= |parts| && 3 <= |parts|
  {
    forall k :: lo <= k < hi ==> MayBePart(nums, parts, k)
  }

  /** How many groups `::` stands for in the middle: a dotted part counts for two. */
  function Missing(parts: seq<string>): int
    requires parts != []
  {
    9 - |parts| - if '.' in parts[|parts| - 1] then 1 else 0
  }

  /** The bytes of a part. */
  function PartBytes(nums: Numbers, parts: seq<string>, k: nat): Bytes
    requires k < |parts| && 3 <= |parts| && MayBePart(nums, parts, k)
  {
    if parts[k] == "" then
      if k == 0 || k == |parts| - 1 then [0, 0]
      else if Missing(parts) <= 0 then []
      else Zeros(2 * Missing(parts))
    else if '.' in parts[k] then Dotted(nums, parts[k])
    else
      var x := nums.readHex(parts[k]).value;
      [ByteOf(x / 256), ByteOf(x % 256)]
  }

  /** The bytes of the parts from `k` on, one after the other. */
  function BytesFrom(nums: Numbers, parts: seq<string>, k: nat): Bytes
    requires k <= |parts| && 3 <= |parts| && MayBeParts(nums, parts, k, |parts|)
    decreases |parts| - k
  {
    if k == |parts| then [] else PartBytes(nums, parts, k) + BytesFrom(nums, parts, k + 1)
  }

  /** The parts may be ones of an address, and there is room for each of them. */
  predicate IsV6(nums: Numbers, parts: seq<string>) {
    && 3 <= |parts| <= 8 && MayBeParts(nums, parts, 0, |parts|)
    && |BytesFrom(nums, parts, 1)| < 16 && |BytesFrom(nums, parts, 0)| <= 16
  }

  /** The fill that the part at `n` - 1 finds. */
  function FillAt(parts: seq<string>, n: nat): int
    requires parts != []
  {
    if n >= |parts| then 9 - |parts| else Missing(parts)
  }

  lemma {:induction false} EmptyPartRead(nums: Numbers, parts: seq<string>, n: nat, acc: Bytes)
    requires n < |parts| && 3 <= |parts| && |acc| % 2 == 0 && |acc| < 16 && (n == |parts| - 1 ==> acc == [])
    requires parts[n] == ""
    ensures ReadPart(nums, parts, n, acc, FillAt(parts, n + 1))
            == if MayBePart(nums, parts, n) && |PartBytes(nums, parts, n)| + |acc| <= 16
               then Some((PartBytes(nums, parts, n) + acc, FillAt(parts, n))) else None
  {
    hide ParseV4, IsDotted, GroupBytes, ByteOf;
    assert Zeros(2) == [0, 0] && [] + acc == acc;
  }

  lemma {:induction false} PartRead(nums: Numbers, parts: seq<string>, n: nat, acc: Bytes)
    requires n < |parts| && 3 <= |parts| && |acc| % 2 == 0 && |acc| < 16 && (n == |parts| - 1 ==> acc == [])
    ensures ReadPart(nums, parts, n, acc, FillAt(parts, n + 1))
            == if MayBePart(nums, parts, n) && |PartBytes(nums, parts, n)| + |acc| <= 16
               then Some((PartBytes(nums, parts, n) + acc, FillAt(parts, n))) else None
  {
    if parts[n] == "" {
      EmptyPartRead(nums, parts, n, acc);
    } else {
      DottedIff(nums, parts[n]);
      if Reads(nums.readHex(parts[n]), 0, 0xffff) { GroupIs(nums, parts[n]); }
      hide ParseV4, IsDotted, GroupBytes, ByteOf, Zeros;
    }
  }

  lemma {:induction false} GroupIs(nums: Numbers, part: string)
    requires Reads(nums.readHex(part), 0, 0xffff)
    ensures var x := nums.readHex(part).value; GroupBytes(x) == [ByteOf(x / 256), ByteOf(x % 256)]
  {}

  lemma {:induction false} LaterIsShorter(nums: Numbers, parts: seq<string>, k: nat, n: nat)
    requires k <= n <= |parts| && 3 <= |parts| && MayBeParts(nums, parts, k, |parts|)
    ensures |BytesFrom(nums, parts, n)| <= |BytesFrom(nums, parts, k)|
    decreases n - k
  {
    hide MayBePart, PartBytes;
    if k == n {
    } else {
      LaterIsShorter(nums, parts, k + 1, n);
    }
  }

  /** What is left to read from the parts below `n`. */
  lemma {:induction false} ScanIs(nums: Numbers, parts: seq<string>, n: nat, acc: Bytes)
    requires 3 <= |parts| <= 8 && n <= |parts| && MayBeParts(nums, parts, n, |parts|)
    requires acc == BytesFrom(nums, parts, n) && |acc| % 2 == 0 && |acc| <= 16
    requires n == 0 ==> |BytesFrom(nums, parts, 1)| < 16
    ensures Scan(nums, parts, n, acc, FillAt(parts, n))
            == if IsV6(nums, parts) then Zeros(16 - |BytesFrom(nums, parts, 0)|) + BytesFrom(nums, parts, 0) else []
    decreases n
  {
    hide MayBePart, PartBytes, ReadPart, FillAt;
    if n == 0 {
    } else if |acc| >= 16 {
      if MayBeParts(nums, parts, 0, |parts|) { LaterIsShorter(nums, parts, 1, n); }
    } else {
      PartRead(nums, parts, n - 1, acc);
      if MayBePart(nums, parts, n - 1) && |PartBytes(nums, parts, n - 1)| + |acc| <= 16 {
        ScanIs(nums, parts, n - 1, PartBytes(nums, parts, n - 1) + acc);
      } else if MayBeParts(nums, parts, 0, |parts|) {
        LaterIsShorter(nums, parts, 0, n - 1);
      }
    }
  }

  /** A text with a colon is an address if and only if it has three to eight parts between the colons,
      each of them may be one, and there is room for it; the address is then what the parts stand for,
      at the end of sixteen bytes. */
  lemma {:induction false} V6AddressIff(nums: Numbers, str: string)
    requires ':' in str
    ensures var parts := Split(str, ':');
            Parse(nums, str)
            == if IsV6(nums, parts) then Zeros(16 - |BytesFrom(nums, parts, 0)|) + BytesFrom(nums, parts, 0) else []
  {
    hide Split, Scan, MayBePart, BytesFrom;
    var parts := Split(str, ':');
    if 3 <= |parts| <= 8 {
      Nothing(nums, parts);
      ScanIs(nums, parts, |parts|, []);
    }
  }

  lemma {:induction false} Nothing(nums: Numbers, parts: seq<string>)
    requires 3 <= |parts|
    ensures MayBeParts(nums, parts, |parts|, |parts|) && BytesFrom(nums, parts, |parts|) == []
  {}
}
