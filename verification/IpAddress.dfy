/** Reading an IPv4 or IPv6 address from its text (section 2.2 of RFC 4291). */
module IpAddress {
  import opened ByteStrings
  import opened Sequences
  import opened Strings

  /** How numbers are read (QString::toInt with base 16 and base 10) and written. */
  datatype Numbers = Numbers(
    readHex: string -> Option<int>, readDec: string -> Option<int>,
    writeHex: nat -> string, writeDec: nat -> string)

  predicate Field(s: string) {
    s != "" && ':' !in s && '.' !in s
  }

  /** Reading undoes writing. */
  ghost predicate Inverse(nums: Numbers) {
    && (forall x: nat :: x <= 0xffff ==> Field(nums.writeHex(x)) && nums.readHex(nums.writeHex(x)) == Some(x as int))
    && (forall x: nat :: x <= 0xff ==> Field(nums.writeDec(x)) && nums.readDec(nums.writeDec(x)) == Some(x as int))
  }

  // ------------------------------------------------------------------ the parser

  function Octet(x: int): Option<bv8> {
    if 0 <= x <= 0xff then Some(x as bv8) else None
  }

  function ReadOctet(nums: Numbers, s: string): Option<bv8> {
    match nums.readDec(s)
    case None => None
    case Some(x) => Octet(x)
  }

  function ParseV4(nums: Numbers, str: string): (r: Bytes)
    ensures |r| == 0 || |r| == 4
  {
    var p := Split(str, '.');
    if |p| != 4 then []
    else
      match (ReadOctet(nums, p[0]), ReadOctet(nums, p[1]), ReadOctet(nums, p[2]), ReadOctet(nums, p[3]))
      case (Some(a), Some(b), Some(c), Some(d)) => [a, b, c, d]
      case _ => []
  }

  function GroupBytes(x: nat): (r: Bytes)
    requires x <= 0xffff
    ensures |r| == 2
  {
    [(x / 256) as bv8, (x % 256) as bv8]
  }

  /** One part, read from the right: the bytes it puts in front of `acc`, and what becomes of `fill`. */
  function ReadPart(nums: Numbers, parts: seq<string>, n: nat, acc: Bytes, fill: int): (r: Option<(Bytes, int)>)
    requires n < |parts| && 3 <= |parts| && |acc| % 2 == 0 && |acc| < 16 && (n == |parts| - 1 ==> acc == [])
    ensures r.Some? ==> |r.value.0| % 2 == 0 && |acc| <= |r.value.0| <= 16
  {
    var part := parts[n];
    if part == "" then
      if n == |parts| - 1 then
        if parts[n - 1] != "" then None else Some((Zeros(2) + acc, fill))
      else if n == 0 then
        if parts[1] != "" then None else Some((Zeros(2) + acc, fill))
      else if fill <= 0 then Some((acc, fill))
      else if |acc| + 2 * fill > 16 then None
      else Some((Zeros(2 * fill) + acc, fill))
    else if '.' !in part then
      match nums.readHex(part)
      case None => None
      case Some(x) => if 0 <= x <= 0xffff then Some((GroupBytes(x) + acc, fill)) else None
    else if n != |parts| - 1 then None
    else
      var buf := ParseV4(nums, part);
      if buf == [] then None else Some((buf + acc, fill - 1))
  }

  /** The parts below `n`, right to left. */
  function Scan(nums: Numbers, parts: seq<string>, n: nat, acc: Bytes, fill: int): (r: Bytes)
    requires n <= |parts| && 3 <= |parts| && |acc| % 2 == 0 && |acc| <= 16 && (n == |parts| ==> acc == [])
    ensures |r| == 0 || |r| == 16
  {
    if n == 0 then Zeros(16 - |acc|) + acc
    else if |acc| >= 16 then []
    else
      match ReadPart(nums, parts, n - 1, acc, fill)
      case None => []
      case Some((acc', fill')) => Scan(nums, parts, n - 1, acc', fill')
  }

  /** A text is IPv6 if it contains a colon; 16 bytes, or none for an error. */
  function Parse(nums: Numbers, str: string): (r: Bytes)
    ensures ':' in str ==> |r| == 0 || |r| == 16
    ensures ':' !in str ==> |r| == 0 || |r| == 4
  {
    if ':' in str then
      var parts := Split(str, ':');
      if |parts| < 3 || |parts| > 8 then [] else Scan(nums, parts, |parts|, [], 9 - |parts|)
    else if '.' in str then ParseV4(nums, str)
    else []
  }

  /** The IPv4 branch: four parts into four bytes. */
  method StrToBinV4(nums: Numbers, str: string) returns (result: Bytes)
    ensures result == ParseV4(nums, str)
  {
    hide Octet, Split;
    var parts := Split(str, '.');
    if |parts| != 4 { return []; }
    var out := new bv8[4](_ => 0);
    for n := 0 to 4
      invariant forall k :: 0 <= k < n ==> ReadOctet(nums, parts[k]) == Some(out[k])
    {
      var x := nums.readDec(parts[n]);
      if x.None? { return []; }
      OctetRange(x.value);
      if x.value < 0 || x.value > 0xff { return []; }
      out[n] := x.value as bv8;
    }
    result := out[..];
  }

  lemma {:induction false} OctetRange(x: int)
    ensures Octet(x) == if x < 0 || x > 0xff then None else Some(x as bv8)
  {}

  method StrToBin(nums: Numbers, str: string) returns (result: Bytes)
    ensures result == Parse(nums, str)
  {
    if ':' in str {
      var parts := Split(str, ':');
      if |parts| < 3 || |parts| > 8 { return []; }
      result := StrToBinV6(nums, parts);
    } else if '.' in str {
      result := StrToBinV4(nums, str);
    } else {
      result := [];
    }
  }

  /** Bytes in front of position `at`. */
  method Put(ipv6: array<bv8>, at: nat, bytes: Bytes) returns (at': nat)
    requires ipv6.Length == 16 && |bytes| <= at <= 16
    modifies ipv6
    ensures at' == at - |bytes| && ipv6[at'..] == bytes + old(ipv6[at..]) && ipv6[..at'] == old(ipv6[..at'])
  {
    at' := at - |bytes|;
    forall k | 0 <= k < |bytes| { ipv6[at' + k] := bytes[k]; }
  }

  /** One more group of zeros in front of the `i` there are. */
  method PutZeroGroup(ipv6: array<bv8>, from: nat, ghost was: Bytes, ghost i: nat, ghost at: nat) returns (at': nat)
    requires ipv6.Length == 16 == |was| && 2 <= from == at - 2 * i && at <= 16
    requires ipv6[from..] == Zeros(2 * i) + was[at..] && ipv6[..from] == was[..from]
    modifies ipv6
    ensures at' == from - 2
    ensures ipv6[at'..] == Zeros(2 * (i + 1)) + was[at..] && ipv6[..at'] == was[..at']
  {
    hide Zeros;
    ghost var below := ipv6[..from - 2];
    assert below == ipv6[..from][..from - 2] == was[..from - 2];
    at' := Put(ipv6, from, Zeros(2));
    MoreZeros(i, was[at..]);
  }

  /** `fill` groups of zeros in front of position `at`, unless they do not fit. */
  method PutFill(ipv6: array<bv8>, at: nat, fill: int) returns (ok: bool, at': nat)
    requires ipv6.Length == 16 && at <= 16 && at % 2 == 0
    modifies ipv6
    ensures ok == (fill <= 0 || 2 * fill <= at)
    ensures ok ==> at' == (if fill <= 0 then at else at - 2 * fill)
    ensures ok ==> at' % 2 == 0 && ipv6[..at'] == old(ipv6[..at'])
    ensures ok ==> ipv6[at'..] == if fill <= 0 then old(ipv6[at..]) else Zeros(2 * fill) + old(ipv6[at..])
  {
    hide Zeros;
    ghost var was := ipv6[..];
    at' := at;
    var i := 0;
    while i < fill
      invariant 0 <= i && (fill > 0 ==> i <= fill) && (fill <= 0 ==> i == 0)
      invariant at' == at - 2 * i
      invariant ipv6[at'..] == Zeros(2 * i) + was[at..] && ipv6[..at'] == was[..at']
    {
      if at' <= 0 { return false, 0; }
      at' := PutZeroGroup(ipv6, at', was, i, at);
      i := i + 1;
    }
    assert Zeros(0) + was[at..] == was[at..];
    ok := true;
  }

  lemma {:induction false} FewerZeros(n: nat, k: nat)
    requires k <= n
    ensures Zeros(n)[..k] == Zeros(k)
  {}

  lemma {:induction false} MoreZeros(i: nat, rest: Bytes)
    ensures Zeros(2) + (Zeros(2 * i) + rest) == Zeros(2 * (i + 1)) + rest
  {
    hide Zeros;
    assert Zeros(2) + Zeros(2 * i) == Zeros(2 * (i + 1));
    Associate(Zeros(2), Zeros(2 * i), rest);
  }

  /** The part is empty: one group at either end, and the fill in between. */
  method PutEmpty(nums: Numbers, parts: seq<string>, n: nat, ipv6: array<bv8>, at: nat, fill: int)
    returns (ok: bool, at': nat)
    requires n < |parts| && 3 <= |parts| && ipv6.Length == 16 && 0 < at <= 16 && at % 2 == 0
    requires parts[n] == "" && (n == |parts| - 1 ==> at == 16)
    modifies ipv6
    ensures ok ==> at' <= at && at' % 2 == 0 && ipv6[..at'] == old(ipv6[..at'])
    ensures ReadPart(nums, parts, n, old(ipv6[at..]), fill) == if ok then Some((ipv6[at'..], fill)) else None
  {
    if n == |parts| - 1 {
      if parts[n - 1] != "" { return false, at; }
      ok := true;
      at' := Put(ipv6, at, Zeros(2));
    } else if n == 0 {
      if parts[n + 1] != "" { return false, at; }
      ok := true;
      at' := Put(ipv6, at, Zeros(2));
    } else {
      ok, at' := PutFill(ipv6, at, fill);
    }
  }

  /** One turn of the loop. */
  method PutPart(nums: Numbers, parts: seq<string>, n: nat, ipv6: array<bv8>, at: nat, fill: int)
    returns (ok: bool, at': nat, fill': int)
    requires n < |parts| && 3 <= |parts| && ipv6.Length == 16
    requires 0 < at <= 16 && at % 2 == 0 && (n == |parts| - 1 ==> at == 16)
    modifies ipv6
    ensures ok ==> at' <= at && at' % 2 == 0 && ipv6[..at'] == old(ipv6[..at'])
    ensures ReadPart(nums, parts, n, old(ipv6[at..]), fill) == if ok then Some((ipv6[at'..], fill')) else None
  {
    hide Zeros, ParseV4, GroupBytes;
    ok, at', fill' := true, at, fill;
    if parts[n] == "" {
      ok, at' := PutEmpty(nums, parts, n, ipv6, at, fill);
    } else if '.' !in parts[n] {
      var x := nums.readHex(parts[n]);
      if x.None? || x.value < 0 || x.value > 0xffff { return false, at, fill; }
      at' := Put(ipv6, at, GroupBytes(x.value));
    } else {
      if n != |parts| - 1 { return false, at, fill; }
      var buf := StrToBinV4(nums, parts[n]);
      if buf == [] { return false, at, fill; }
      at' := Put(ipv6, at, buf);
      fill' := fill - 1;
    }
  }

  method StrToBinV6(nums: Numbers, parts: seq<string>) returns (result: Bytes)
    requires 3 <= |parts| <= 8
    ensures result == Scan(nums, parts, |parts|, [], 9 - |parts|)
  {
    hide ReadPart;
    var ipv6 := new bv8[16](_ => 0);
    var at := 16;
    var fill := 9 - |parts|;
    var n := |parts| - 1;
    assert ipv6[..at] == Zeros(at) && ipv6[at..] == [];
    while n >= 0
      invariant -1 <= n < |parts|
      invariant 0 <= at <= 16 && at % 2 == 0 && (n == |parts| - 1 ==> at == 16)
      invariant ipv6[..at] == Zeros(at)
      invariant Scan(nums, parts, |parts|, [], 9 - |parts|) == Scan(nums, parts, n + 1, ipv6[at..], fill)
    {
      if at <= 0 { return []; }
      ghost var was := ipv6[..at];
      var ok, at', fill' := PutPart(nums, parts, n, ipv6, at, fill);
      if !ok { return []; }
      assert ipv6[..at'] == was[..at'];
      FewerZeros(at, at');
      at, fill, n := at', fill', n - 1;
    }
    assert ipv6[..] == ipv6[..at] + ipv6[at..];
    result := ipv6[..];
  }

  // ------------------------------------------------------------------ printing

  /** A field of an address: a 16-bit group, or an IPv4 address standing for the last two. */
  datatype Item = Group(x: nat) | V4(a: nat, b: nat, c: nat, d: nat)

  /** `head :: tail` when `run` groups of zeros are left out, else the fields one after the other. */
  datatype Address = Address(head: seq<Item>, run: nat, tail: seq<Item>)

  predicate ItemOk(i: Item, last: bool) {
    if i.Group? then i.x <= 0xffff else last && i.a <= 0xff && i.b <= 0xff && i.c <= 0xff && i.d <= 0xff
  }

  predicate ItemsOk(items: seq<Item>, lastMayBeV4: bool) {
    forall k :: 0 <= k < |items| ==> ItemOk(items[k], lastMayBeV4 && k == |items| - 1)
  }

  function ItemBytes(i: Item): (r: Bytes)
    requires ItemOk(i, true)
    ensures |r| == if i.Group? then 2 else 4
  {
    if i.Group? then GroupBytes(i.x) else [i.a as bv8, i.b as bv8, i.c as bv8, i.d as bv8]
  }

  function ItemsBytes(items: seq<Item>): Bytes
    requires ItemsOk(items, true)
  {
    if items == [] then [] else ItemBytes(items[0]) + ItemsBytes(items[1..])
  }

  function AddressBytes(a: Address): Bytes
    requires ItemsOk(a.head, false) && ItemsOk(a.tail, true)
  {
    ItemsBytes(a.head) + Zeros(2 * a.run) + ItemsBytes(a.tail)
  }

  predicate WellFormed(a: Address) {
    ItemsOk(a.head, false) && ItemsOk(a.tail, true) && |AddressBytes(a)| == 16
  }

  function ItemText(nums: Numbers, i: Item): string {
    if i.Group? then nums.writeHex(i.x)
    else Join([nums.writeDec(i.a), nums.writeDec(i.b), nums.writeDec(i.c), nums.writeDec(i.d)], '.')
  }

  function Texts(nums: Numbers, items: seq<Item>): (t: seq<string>)
    ensures |t| == |items|
    ensures forall k :: 0 <= k < |items| ==> t[k] == ItemText(nums, items[k])
  {
    seq(|items|, k requires 0 <= k < |items| => ItemText(nums, items[k]))
  }

  /** An empty side of `::` leaves an empty part beside the empty part in the middle. */
  function Side(nums: Numbers, items: seq<Item>): (t: seq<string>)
    ensures t != []
  {
    if items == [] then [""] else Texts(nums, items)
  }

  function Parts(nums: Numbers, a: Address): seq<string> {
    if a.run == 0 then Texts(nums, a.head + a.tail) else Side(nums, a.head) + [""] + Side(nums, a.tail)
  }

  function Print(nums: Numbers, a: Address): string
    requires a.run > 0 || a.head + a.tail != []
  {
    Join(Parts(nums, a), ':')
  }

  // ------------------------------------------------------------------ reading what was printed

  lemma {:induction false} V4Text(nums: Numbers, i: Item)
    requires Inverse(nums) && ItemOk(i, true) && i.V4?
    ensures var t := ItemText(nums, i); '.' in t && ':' !in t && ParseV4(nums, t) == ItemBytes(i)
  {
    hide Split, Join;
    var p := [nums.writeDec(i.a), nums.writeDec(i.b), nums.writeDec(i.c), nums.writeDec(i.d)];
    assert forall k :: 0 <= k < 4 ==> Field(p[k]);
    SplitJoin(p, '.');
    JoinAvoids(p, '.', ':');
  }

  lemma {:induction false} JoinAvoids(parts: seq<string>, sep: char, c: char)
    requires parts != [] && c != sep && forall k :: 0 <= k < |parts| ==> c !in parts[k]
    ensures c !in Join(parts, sep)
  {
    if |parts| <= 1 {
    } else {
      JoinAvoids(parts[1..], sep, c);
    }
  }

  lemma {:induction false} ItemTextNotEmpty(nums: Numbers, i: Item)
    requires Inverse(nums) && ItemOk(i, true)
    ensures ItemText(nums, i) != "" && ':' !in ItemText(nums, i)
  {
    if i.V4? { V4Text(nums, i); }
  }

  lemma {:induction false} ItemsBytesAppend(items: seq<Item>, i: Item)
    requires ItemsOk(items, false) && ItemOk(i, true)
    ensures ItemsOk(items + [i], true) && ItemsBytes(items + [i]) == ItemsBytes(items) + ItemBytes(i)
  {
    if items == [] {
      assert items + [i] == [i] && [i][1..] == [];
    } else {
      assert (items + [i])[1..] == items[1..] + [i];
      ItemsBytesAppend(items[1..], i);
    }
  }

  lemma {:induction false} ItemsBytesEven(items: seq<Item>)
    requires ItemsOk(items, true)
    ensures |ItemsBytes(items)| == 2 * |items| + if EndsInV4(items) then 2 else 0
  {
    if items == [] {
    } else {
      ItemsBytesEven(items[1..]);
    }
  }

  predicate EndsInV4(items: seq<Item>) {
    items != [] && items[|items| - 1].V4?
  }

  /** Reading one printed field. */
  lemma {:induction false} ReadItem(nums: Numbers, parts: seq<string>, n: nat, i: Item, acc: Bytes, fill: int)
    requires Inverse(nums) && n < |parts| && 3 <= |parts| && |acc| % 2 == 0 && |acc| < 16
    requires n == |parts| - 1 ==> acc == []
    requires ItemOk(i, n == |parts| - 1) && parts[n] == ItemText(nums, i)
    ensures ReadPart(nums, parts, n, acc, fill) == Some((ItemBytes(i) + acc, if i.V4? then fill - 1 else fill))
  {
    if i.V4? { V4Text(nums, i); }
    ItemTextNotEmpty(nums, i);
  }

  /** Scanning past one printed field. */
  lemma {:induction false} ScanItem(nums: Numbers, parts: seq<string>, n: nat, i: Item, acc: Bytes, fill: int)
    requires Inverse(nums) && n < |parts| && 3 <= |parts|
    requires n == |parts| - 1 ==> acc == []
    requires ItemOk(i, n == |parts| - 1) && parts[n] == ItemText(nums, i)
    requires |acc| % 2 == 0 && |acc| + |ItemBytes(i)| <= 16
    ensures Scan(nums, parts, n + 1, acc, fill)
            == Scan(nums, parts, n, ItemBytes(i) + acc, if i.V4? then fill - 1 else fill)
  {
    ReadItem(nums, parts, n, i, acc, fill);
    hide ReadPart, ItemText, Inverse;
  }

  /** The printed fields `items` are the parts from `lo` up to `hi`, and there is room for them. */
  ghost predicate Printed(nums: Numbers, parts: seq<string>, lo: nat, hi: nat, items: seq<Item>, acc: Bytes) {
    && Inverse(nums) && 3 <= |parts| && hi <= |parts| && hi == lo + |items|
    && (hi == |parts| ==> acc == [])
    && ItemsOk(items, hi == |parts|) && parts[lo..hi] == Texts(nums, items)
    && |acc| % 2 == 0 && |ItemsBytes(items)| + |acc| <= 16
  }

  /** Scanning past the last of them. */
  lemma {:induction false} ScanLast(nums: Numbers, parts: seq<string>, lo: nat, hi: nat, items: seq<Item>, acc: Bytes,
        fill: int)
    requires Printed(nums, parts, lo, hi, items, acc) && items != []
    ensures var init, last := items[..|items| - 1], items[|items| - 1];
            var acc' := ItemBytes(last) + acc;
            && Printed(nums, parts, lo, hi - 1, init, acc')
            && Scan(nums, parts, hi, acc, fill) == Scan(nums, parts, hi - 1, acc', if last.V4? then fill - 1 else fill)
            && ItemsBytes(items) + acc == ItemsBytes(init) + acc'
            && !EndsInV4(init) && EndsInV4(items) == last.V4?
  {
    hide GroupBytes, ItemText, Inverse, Texts, Scan, ReadPart, ItemsBytes, ItemsOk, EndsInV4, ItemBytes;
    SplitLast(nums, parts, lo, hi, items);
    var init, last := items[..|items| - 1], items[|items| - 1];
    Associate(ItemsBytes(init), ItemBytes(last), acc);
    ScanItem(nums, parts, hi - 1, last, acc, fill);
  }

  /** Scanning past all of them. */
  lemma {:induction false} ScanItems(nums: Numbers, parts: seq<string>, lo: nat, hi: nat, items: seq<Item>, acc: Bytes,
        fill: int)
    requires Printed(nums, parts, lo, hi, items, acc)
    ensures |ItemsBytes(items) + acc| % 2 == 0
    ensures lo == |parts| ==> ItemsBytes(items) + acc == []
    ensures Scan(nums, parts, hi, acc, fill)
         == Scan(nums, parts, lo, ItemsBytes(items) + acc, if EndsInV4(items) then fill - 1 else fill)
    decreases |items|
  {
    hide Scan;
    if items == [] {
      assert ItemsBytes(items) + acc == acc;
    } else {
      ScanLast(nums, parts, lo, hi, items, acc, fill);
      hide Printed, ItemsBytes, EndsInV4, ItemBytes;
      var init, last := items[..|items| - 1], items[|items| - 1];
      ScanItems(nums, parts, lo, hi - 1, init, ItemBytes(last) + acc, if last.V4? then fill - 1 else fill);
    }
  }

  lemma {:induction false} NoV4Inside(items: seq<Item>)
    requires ItemsOk(items, false)
    ensures !EndsInV4(items)
  {
    if items != [] { assert ItemOk(items[|items| - 1], false); }
  }

  lemma {:induction false} SplitLast(nums: Numbers, parts: seq<string>, lo: nat, hi: nat, items: seq<Item>)
    requires items != [] && hi == lo + |items| && hi <= |parts| && parts[lo..hi] == Texts(nums, items)
    requires ItemsOk(items, hi == |parts|)
    ensures var init, last := items[..|items| - 1], items[|items| - 1];
            && parts[lo..hi - 1] == Texts(nums, init) && parts[hi - 1] == ItemText(nums, last)
            && ItemsOk(items, true) && ItemsOk(init, true) && ItemsOk(init, false) && ItemOk(last, hi == |parts|)
            && !EndsInV4(init) && EndsInV4(items) == last.V4? && |ItemsBytes(init)| == 2 * |init|
            && ItemsBytes(items) == ItemsBytes(init) + ItemBytes(last)
  {
    var init, last := items[..|items| - 1], items[|items| - 1];
    assert items == init + [last];
    NoV4Inside(init);
    ItemsBytesAppend(init, last);
    ItemsBytesEven(init);
    LastOfSlice(parts, lo, hi);
    hide ItemText, ItemsBytes;
  }

  /** How many bytes a side of `::` stands for as it is scanned: an empty one counts for one group. */
  function SideBytes(items: seq<Item>): Bytes
    requires ItemsOk(items, true)
  {
    if items == [] then Zeros(2) else ItemsBytes(items)
  }

  lemma {:induction false} PartsAvoidColon(nums: Numbers, a: Address)
    requires Inverse(nums) && WellFormed(a)
    ensures forall k :: 0 <= k < |Parts(nums, a)| ==> ':' !in Parts(nums, a)[k]
  {
    if a.run == 0 {
      TextsAvoidColon(nums, a.head + a.tail);
    } else {
      TextsAvoidColon(nums, a.head);
      TextsAvoidColon(nums, a.tail);
    }
    hide Texts, ItemText;
  }

  lemma {:induction false} TextsAvoidColon(nums: Numbers, items: seq<Item>)
    requires Inverse(nums) && forall k :: 0 <= k < |items| ==> ItemOk(items[k], true)
    ensures forall k :: 0 <= k < |items| ==> ':' !in Texts(nums, items)[k]
  {
    hide ItemText, ItemOk, Inverse;
    forall k | 0 <= k < |items|
      ensures ':' !in Texts(nums, items)[k]
    {
      ItemTextNotEmpty(nums, items[k]);
    }
  }

  /** The number of parts of a printed address. */
  lemma {:induction false} PartCount(nums: Numbers, a: Address)
    requires WellFormed(a)
    ensures 2 * (|a.head| + a.run + |a.tail|) + (if EndsInV4(a.tail) then 2 else 0) == 16
    ensures a.run == 0 ==> 3 <= |Parts(nums, a)| <= 8
    ensures a.run > 0 ==> |Parts(nums, a)| >= 3
    ensures a.run > 0 ==> (|Parts(nums, a)| <= 8 <==> a.run != 1 || (a.head != [] && a.tail != []) || EndsInV4(a.tail))
  {
    NoV4Inside(a.head);
    ItemsBytesEven(a.head);
    ItemsBytesEven(a.tail);
  }

  lemma {:induction false} ItemsBytesConcat(a: seq<Item>, b: seq<Item>)
    requires ItemsOk(a, false) && ItemsOk(b, true)
    ensures ItemsOk(a + b, true) && ItemsBytes(a + b) == ItemsBytes(a) + ItemsBytes(b)
  {
    if a == [] {
      assert a + b == b;
    } else {
      assert (a + b)[1..] == a[1..] + b;
      ItemsBytesConcat(a[1..], b);
    }
  }

  /** All fields written out. */
  lemma {:induction false} ScanFull(nums: Numbers, a: Address)
    requires Inverse(nums) && WellFormed(a) && a.run == 0
    ensures |Parts(nums, a)| >= 3
    ensures Scan(nums, Parts(nums, a), |Parts(nums, a)|, [], 9 - |Parts(nums, a)|) == AddressBytes(a)
  {
    PartCount(nums, a);
    FullParts(nums, a);
    hide Parts, AddressBytes, ItemsBytes, ItemsOk, Printed, Texts, Scan, Inverse, EndsInV4, ItemText;
    var p := Parts(nums, a);
    ScanItems(nums, p, 0, |p|, a.head + a.tail, [], 9 - |p|);
    ScanEnds(nums, p, ItemsBytes(a.head + a.tail) + [], if EndsInV4(a.head + a.tail) then 9 - |p| - 1 else 9 - |p|);
  }

  lemma {:induction false} ScanEnds(nums: Numbers, parts: seq<string>, acc: Bytes, fill: int)
    requires 3 <= |parts| && |acc| == 16
    ensures Scan(nums, parts, 0, acc, fill) == acc
  {
    assert Zeros(0) + acc == acc;
  }

  lemma {:induction false} FullParts(nums: Numbers, a: Address)
    requires Inverse(nums) && WellFormed(a) && a.run == 0 && |Parts(nums, a)| >= 3
    ensures Printed(nums, Parts(nums, a), 0, |Parts(nums, a)|, a.head + a.tail, [])
    ensures ItemsOk(a.head + a.tail, true) && AddressBytes(a) == ItemsBytes(a.head + a.tail) + []
  {
    hide ItemText, Inverse;
    ItemsBytesConcat(a.head, a.tail);
    var p := Parts(nums, a);
    assert p[0..|p|] == p;
    assert ItemsBytes(a.head) + Zeros(0) == ItemsBytes(a.head);
  }

  /** An address that ends in `::`. */
  lemma {:induction false} ScanTrailing(nums: Numbers, p: seq<string>, fill: int)
    requires |p| >= 3 && p[|p| - 1] == "" && p[|p| - 2] == ""
    ensures Scan(nums, p, |p|, [], fill) == Scan(nums, p, |p| - 1, Zeros(2), fill)
  {
    assert Zeros(2) + [] == Zeros(2);
    assert ReadPart(nums, p, |p| - 1, [], fill) == Some((Zeros(2), fill));
  }

  /** The two sides of `::` and the empty part between them. */
  lemma {:induction false} CompressedParts(nums: Numbers, a: Address)
    requires a.run > 0
    ensures var p, mid := Parts(nums, a), |Side(nums, a.head)|;
            && 0 < mid < |p| - 1 && p[mid] == "" && p[..mid] == Side(nums, a.head) && p[mid + 1..] == Side(nums, a.tail)
            && (a.tail == [] ==> |p| == mid + 2 && p[mid + 1] == "")
            && (a.tail != [] ==> p[mid + 1..|p|] == Texts(nums, a.tail) && |p| == mid + 1 + |a.tail|)
            && (a.head == [] ==> mid == 1 && p[0] == "")
            && (a.head != [] ==> p[0..mid] == Texts(nums, a.head) && mid == |a.head|)
  {
    hide ItemText;
    var p, mid := Parts(nums, a), |Side(nums, a.head)|;
    if a.tail == [] { assert p[mid + 1] == p[mid + 1..][0]; }
    if a.head == [] { assert p[0] == p[..mid][0]; }
  }

  /** The length of what a tail stands for. */
  lemma {:induction false} TailSize(a: Address)
    requires WellFormed(a) && a.run > 0
    ensures |SideBytes(a.tail)| % 2 == 0 && |SideBytes(a.tail)| < 16
    ensures a.tail != [] ==> |ItemsBytes(a.tail)| + 0 <= 16
  {
    hide ItemsBytes, ItemsOk, Zeros;
    ItemsBytesEven(a.tail);
  }

  /** The part after `::`. */
  lemma {:induction false} ScanTail(nums: Numbers, a: Address, p: seq<string>, mid: nat)
    requires Inverse(nums) && WellFormed(a) && a.run > 0 && p == Parts(nums, a) && mid == |Side(nums, a.head)|
    ensures |p| >= 3 && |SideBytes(a.tail)| % 2 == 0 && |SideBytes(a.tail)| < 16
    ensures mid + 1 <= |p| && (mid + 1 == |p| ==> SideBytes(a.tail) == [])
    ensures Scan(nums, p, |p|, [], 9 - |p|)
         == Scan(nums, p, mid + 1, SideBytes(a.tail), 9 - |p| - if EndsInV4(a.tail) then 1 else 0)
  {
    hide GroupBytes, ItemText, Inverse, ItemsBytes, Scan, Parts, Zeros, Texts, Side;
    CompressedParts(nums, a);
    TailSize(a);
    if a.tail == [] {
      ScanTrailing(nums, p, 9 - |p|);
    } else {
      assert ItemsOk(a.tail, true);
      hide ItemsOk;
      ScanItems(nums, p, mid + 1, |p|, a.tail, [], 9 - |p|);
      assert ItemsBytes(a.tail) + [] == ItemsBytes(a.tail);
    }
  }

  /** The part before `::`. */
  lemma {:induction false} ScanHead(nums: Numbers, a: Address, p: seq<string>, mid: nat, acc: Bytes, fill: int)
    requires Inverse(nums) && WellFormed(a) && a.run > 0 && p == Parts(nums, a) && mid == |Side(nums, a.head)|
    requires |acc| % 2 == 0 && |SideBytes(a.head)| + |acc| == 16 && |p| >= 3
    ensures Scan(nums, p, mid, acc, fill) == SideBytes(a.head) + acc
  {
    hide GroupBytes, ItemText, Inverse, ItemsBytes, Parts, Texts, Side;
    CompressedParts(nums, a);
    NoV4Inside(a.head);
    if a.head == [] {
      assert Scan(nums, p, 0, Zeros(2) + acc, fill) == Zeros(0) + (Zeros(2) + acc);
    } else {
      hide ReadPart;
      ScanItems(nums, p, 0, mid, a.head, acc, fill);
      assert Zeros(0) + (ItemsBytes(a.head) + acc) == ItemsBytes(a.head) + acc;
    }
  }

  /** The number of groups filled in at `::` is what makes the address complete. */
  lemma {:induction false} ScanCompressed(nums: Numbers, a: Address)
    requires Inverse(nums) && WellFormed(a) && a.run > 0 && |Parts(nums, a)| <= 8
    ensures |Parts(nums, a)| >= 3
    ensures Scan(nums, Parts(nums, a), |Parts(nums, a)|, [], 9 - |Parts(nums, a)|) == AddressBytes(a)
  {
    hide GroupBytes, ItemText, Inverse, ItemsBytes, ParseV4, Parts, EndsInV4, Scan, Side, Zeros, AddressBytes;
    var p, mid := Parts(nums, a), |Side(nums, a.head)|;
    var fill := 9 - |p| - if EndsInV4(a.tail) then 1 else 0;
    CompressedParts(nums, a);
    FillCompletes(nums, a);
    ScanTail(nums, a, p, mid);
    var acc := Zeros(2 * fill) + SideBytes(a.tail);
    ReadMiddle(nums, p, mid, SideBytes(a.tail), fill);
    ScanHead(nums, a, p, mid, acc, fill);
  }

  /** The part between the two colons of `::`. */
  lemma {:induction false} ReadMiddle(nums: Numbers, p: seq<string>, mid: nat, acc: Bytes, fill: int)
    requires 0 < mid < |p| - 1 && 3 <= |p| && p[mid] == "" && |acc| % 2 == 0 && |acc| < 16
    requires fill >= 0 && |acc| + 2 * fill <= 16
    ensures Scan(nums, p, mid + 1, acc, fill) == Scan(nums, p, mid, Zeros(2 * fill) + acc, fill)
  {
    assert Zeros(0) + acc == acc;
    assert ReadPart(nums, p, mid, acc, fill) == Some((Zeros(2 * fill) + acc, fill));
  }

  lemma {:induction false} ZerosAdd(n: nat, k: nat)
    ensures Zeros(n) + Zeros(k) == Zeros(n + k)
  {}

  lemma {:induction false} FillCompletes(nums: Numbers, a: Address)
    requires WellFormed(a) && a.run > 0 && |Parts(nums, a)| <= 8
    ensures var fill := 9 - |Parts(nums, a)| - if EndsInV4(a.tail) then 1 else 0;
            && fill >= 0 && |SideBytes(a.head)| + 2 * fill + |SideBytes(a.tail)| == 16
            && |SideBytes(a.head)| % 2 == 0 && |SideBytes(a.tail)| % 2 == 0
            && SideBytes(a.head) + (Zeros(2 * fill) + SideBytes(a.tail)) == AddressBytes(a)
  {
    hide GroupBytes, ItemText, ItemsBytes, Zeros, Texts, Parts, Side;
    SideSizes(a);
    PartCount(nums, a);
    CompressedParts(nums, a);
    SideFill(a.head, a.tail, 2 * (9 - |Parts(nums, a)| - if EndsInV4(a.tail) then 1 else 0), 2 * a.run);
  }

  lemma {:induction false} SideSizes(a: Address)
    requires WellFormed(a)
    ensures |SideBytes(a.head)| == if a.head == [] then 2 else 2 * |a.head|
    ensures |SideBytes(a.tail)| == if a.tail == [] then 2 else 2 * |a.tail| + if EndsInV4(a.tail) then 2 else 0
  {
    ItemsBytesEven(a.head);
    ItemsBytesEven(a.tail);
    NoV4Inside(a.head);
  }

  lemma {:induction false} SideFill(head: seq<Item>, tail: seq<Item>, fill: nat, run: nat)
    requires ItemsOk(head, false) && ItemsOk(tail, true)
    requires run == fill + (if head == [] then 2 else 0) + (if tail == [] then 2 else 0)
    ensures SideBytes(head) + (Zeros(fill) + SideBytes(tail)) == ItemsBytes(head) + Zeros(run) + ItemsBytes(tail)
  {
    ZerosAdd(fill, 2);
    ZerosAdd(2, fill);
    ZerosAdd(2, fill + 2);
    hide Zeros;
    if tail == [] {
      assert ItemsBytes(tail) == [] && SideBytes(tail) == Zeros(2);
    }
    if head == [] {
      assert ItemsBytes(head) == [] && SideBytes(head) == Zeros(2);
    }
  }

  lemma {:induction false} ColonWithin(parts: seq<string>)
    requires |parts| >= 2
    ensures ':' in Join(parts, ':')
  {
    assert Join(parts, ':')[|parts[0]|] == ':';
  }

  lemma {:induction false} AddressItems(a: Address)
    requires WellFormed(a)
    ensures ItemsOk(a.head, false) && ItemsOk(a.tail, true)
  {
    hide ItemsOk;
  }

  lemma {:induction false} ParseJoined(nums: Numbers, p: seq<string>)
    requires |p| >= 3 && forall k :: 0 <= k < |p| ==> ':' !in p[k]
    ensures Parse(nums, Join(p, ':')) == if |p| > 8 then [] else Scan(nums, p, |p|, [], 9 - |p|)
  {
    SplitJoin(p, ':');
    ColonWithin(p);
    hide Scan, Split, Join;
  }

  /** Parsing inverts printing, for every address written out in full or with any run of zero
      groups as `::`, and with or without a dotted IPv4 tail: the text is read as the 16 bytes
      in network order, except exactly when `::` stands for a single group at the beginning or
      the end (RFC 4291 allows it), which makes too many parts and is rejected. */
  lemma {:induction false} ParseInvertsPrint(nums: Numbers, a: Address)
    requires Inverse(nums) && WellFormed(a)
    ensures a.run > 0 || a.head + a.tail != []
    ensures var accepted := a.run != 1 || (a.head != [] && a.tail != []) || EndsInV4(a.tail);
            Parse(nums, Print(nums, a)) == if accepted then AddressBytes(a) else []
  {
    hide Parts, Scan, AddressBytes, EndsInV4, Inverse, Parse, ItemsOk, WellFormed, Join;
    PartCount(nums, a);
    AddressItems(a);
    var p := Parts(nums, a);
    PartsAvoidColon(nums, a);
    ParseJoined(nums, p);
    if |p| <= 8 {
      if a.run == 0 { ScanFull(nums, a); } else { ScanCompressed(nums, a); }
    }
  }

  /** A dotted IPv4 address on its own. */
  lemma {:induction false} ParseInvertsDotted(nums: Numbers, i: Item)
    requires Inverse(nums) && ItemOk(i, true) && i.V4?
    ensures Parse(nums, ItemText(nums, i)) == ItemBytes(i)
  {
    V4Text(nums, i);
  }
}
