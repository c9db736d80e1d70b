/** Variable-length integers: seven bits a byte, least significant group first, at most 32 bits. */
module Varints {
  import opened Basics

  const LAST: nat := 4

  /** The shortest spelling of a number. */
  function Printed(v: nat): (r: seq<byte>)
    ensures |r| >= 1
  {
    if v < 128 then [v] else [128 + v % 128] + Printed(v / 128)
  }

  datatype Reading = Read(value: nat, size: nat) | Short | Malformed

  /** How far a number may reach when `depth` groups are already taken. */
  function Room(depth: nat): (r: nat)
    requires depth <= LAST
    ensures depth < LAST ==> r == 128 * Room(depth + 1)
    decreases LAST - depth
  {
    if depth == 0 then 0x1_0000_0000
    else if depth == 1 then 0x200_0000 else if depth == 2 then 0x4_0000 else if depth == 3 then 0x800 else 16
  }

  function Scan(s: seq<byte>, depth: nat): (r: Reading)
    requires depth <= LAST
    ensures r.Read? ==> 1 <= r.size <= |s| && r.size <= LAST + 1 - depth && r.value < Room(depth)
    ensures r.Short? ==> |s| <= LAST - depth
    decreases LAST - depth
  {
    if s == [] then Short
    else if depth == LAST && s[0] >= 16 then Malformed
    else if s[0] < 128 then Read(s[0], 1)
    else
      var rest := Scan(s[1..], depth + 1);
      if rest.Read? then Read(s[0] - 128 + 128 * rest.value, rest.size + 1) else rest
  }

  /** What the front of a byte string says. */
  function Varint(s: seq<byte>): (r: Reading)
    ensures r.Read? ==> 1 <= r.size <= |s| && r.size <= LAST + 1 && r.value < 0x1_0000_0000
    ensures r.Short? ==> |s| <= LAST
  {
    Scan(s, 0)
  }

  /** A spelling of a number, not necessarily the shortest. */
  ghost predicate Spells(s: seq<byte>, v: nat) {
    Varint(s) == Read(v, |s|)
  }

  lemma {:induction false} ScanOfPrinted(v: nat, depth: nat, t: seq<byte>)
    requires depth <= LAST && v < Room(depth)
    ensures Scan(Printed(v) + t, depth) == Read(v, |Printed(v)|)
    decreases LAST - depth
  {
    if v >= 128 {
      ScanOfPrinted(v / 128, depth + 1, t);
      assert (Printed(v) + t)[1..] == Printed(v / 128) + t;
    }
  }

  /** Reading inverts printing, whatever follows. */
  lemma VarintOfPrinted(v: u32, t: seq<byte>)
    ensures Varint(Printed(v) + t) == Read(v, |Printed(v)|)
  {
    ScanOfPrinted(v, 0, t);
  }

  lemma PrintedSpells(v: u32)
    ensures Spells(Printed(v), v) && |Printed(v)| <= 5
  {
    VarintOfPrinted(v, []);
    assert Printed(v) + [] == Printed(v);
  }

  lemma PrintedTwo(v: nat)
    requires v < 0x4000
    ensures Printed(v) == if v < 128 then [v] else [128 + v % 128, v / 128]
  {
    if v >= 128 {
      assert v / 128 < 128;
      assert Printed(v / 128) == [v / 128];
    }
  }

  lemma PrintedSmall(v: nat)
    ensures v < 0x4000 ==> |Printed(v)| <= 2
    ensures v < 0x1_0000_0000 ==> |Printed(v)| <= 5
  {
    if v < 0x1_0000_0000 {
      PrintedSpells(v);
    }
    assert v < 0x4000 ==> v / 128 < 128;
  }

  lemma {:induction false} ScanExtended(s: seq<byte>, t: seq<byte>, depth: nat)
    requires depth <= LAST && !Scan(s, depth).Short?
    ensures Scan(s + t, depth) == Scan(s, depth)
    decreases LAST - depth
  {
    if s[0] >= 128 && depth < LAST {
      ScanExtended(s[1..], t, depth + 1);
      assert (s + t)[1..] == s[1..] + t;
    }
  }

  /** Bytes beyond a number or a malformed one do not change the verdict. */
  lemma VarintExtended(s: seq<byte>, t: seq<byte>)
    requires !Varint(s).Short?
    ensures Varint(s + t) == Varint(s)
  {
    ScanExtended(s, t, 0);
  }

  lemma {:induction false} ScanTrimmed(s: seq<byte>, depth: nat)
    requires depth <= LAST && Scan(s, depth).Read?
    ensures var n := Scan(s, depth).size; Scan(s[..n], depth) == Scan(s, depth)
    decreases LAST - depth
  {
    hide Room;
    if s[0] >= 128 {
      ScanTrimmed(s[1..], depth + 1);
      var n := Scan(s, depth).size;
      assert s[..n][1..] == s[1..][..n - 1];
    }
  }

  /** A number is read exactly when some leading bytes spell it. */
  lemma ReadSpells(s: seq<byte>, v: nat, n: nat)
    ensures Varint(s) == Read(v, n) <==> n <= |s| && Spells(s[..n], v)
  {
    if Varint(s) == Read(v, n) {
      ScanTrimmed(s, 0);
    }
    if n <= |s| && Spells(s[..n], v) {
      VarintExtended(s[..n], s[n..]);
      assert s[..n] + s[n..] == s;
    }
  }

  lemma SpellsHead(b: seq<byte>, v: nat, t: seq<byte>)
    requires Spells(b, v)
    ensures Varint(b + t) == Read(v, |b|)
  {
    VarintExtended(b, t);
  }

  lemma {:induction false} ScanShortest(s: seq<byte>, depth: nat)
    requires depth <= LAST && Scan(s, depth).Read?
    ensures var r := Scan(s, depth);
            |Printed(r.value)| <= r.size && (|Printed(r.value)| == r.size ==> s[..r.size] == Printed(r.value))
    decreases LAST - depth
  {
    if s[0] >= 128 {
      var rest := Scan(s[1..], depth + 1);
      ScanShortest(s[1..], depth + 1);
      var r := Scan(s, depth);
      assert s[..r.size] == [s[0]] + s[1..][..rest.size];
      if r.value >= 128 {
        assert r.value / 128 == rest.value && r.value % 128 == s[0] - 128;
      }
    }
  }

  /** No spelling is shorter than the printed one, and no other is as short. */
  lemma PrintedShortest(s: seq<byte>, v: nat)
    requires Spells(s, v)
    ensures |Printed(v)| <= |s| && (|Printed(v)| == |s| ==> s == Printed(v))
  {
    ScanShortest(s, 0);
    assert s[..|s|] == s;
  }

  // ---------------------------------------------------------------- the loops

  function Power(i: nat): (r: nat)
    ensures r >= 1
  {
    if i == 0 then 1 else 128 * Power(i - 1)
  }

  /** A reading that continues after `i` groups worth `low`. */
  ghost function Carried(low: nat, i: nat, r: Reading): (c: Reading) {
    if r.Read? then Read(low + r.value * Power(i), r.size + i) else r
  }

  lemma CarriedStep(low: nat, i: nat, s: seq<byte>)
    requires i < LAST && s != [] && s[0] >= 128
    ensures Carried(low, i, Scan(s, i)) == Carried(low + (s[0] - 128) * Power(i), i + 1, Scan(s[1..], i + 1))
  {
    var rest := Scan(s[1..], i + 1);
    if rest.Read? {
      var p, g := Power(i), s[0] - 128;
      assert Power(i + 1) == 128 * p;
      assert (g + 128 * rest.value) * p == g * p + rest.value * (128 * p);
    }
  }

  lemma CarriedStart(r: Reading)
    ensures Carried(0, 0, r) == r
  {
  }

  lemma ScanStops(s: seq<byte>, i: nat)
    requires i <= LAST
    ensures s == [] ==> Scan(s, i) == Short
    ensures s != [] && i == LAST && s[0] >= 16 ==> Scan(s, i) == Malformed
    ensures s != [] && s[0] < (if i == LAST then 16 else 128) ==> Scan(s, i) == Read(s[0], 1)
  {
  }

  /** Reads a number between two positions of a buffer. */
  method Varint2Int(buffer: array<byte>, from: nat, end: nat) returns (r: Reading)
    requires from <= end <= buffer.Length
    ensures r == Varint(buffer[from..end])
  {
    hide Scan, Power;
    var window: seq<byte> := buffer[from..end];
    CarriedStart(Varint(window));
    var result: nat, i: nat := 0, 0;
    assert window[0..] == window;
    while i <= LAST
      invariant 0 <= i <= LAST && i <= |window|
      invariant Varint(window) == Carried(result, i, Scan(window[i..], i))
      decreases LAST - i
    {
      ScanStops(window[i..], i);
      if from + i >= end {
        return Short;
      }
      var b := buffer[from + i];
      assert b == window[i] == window[i..][0];
      if i == LAST && b >= 16 {
        return Malformed;
      }
      if b < 128 {
        return Read(result + b * Power(i), i + 1);
      }
      assert window[i..][1..] == window[i + 1..];
      CarriedStep(result, i, window[i..]);
      result := result + (b - 128) * Power(i);
      i := i + 1;
    }
    assert false;
  }

  lemma PrintedUnfolds(v: nat)
    ensures v < 128 ==> Printed(v) == [v] && v % 128 == v && v / 128 == 0
    ensures v >= 128 ==>
            v / 128 > 0 && Printed(v)[0] == 128 + v % 128 && Printed(v)[1..] == Printed(v / 128) && |Printed(v)| > 1
  {
  }

  /** Writes a number; every byte first gets its continuation bit and the last one loses it again. */
  method Int2Varint(value: u32, dst: array<byte>, at: nat) returns (next: nat)
    requires at + |Printed(value)| <= dst.Length
    modifies dst
    ensures next == at + |Printed(value)| && dst[..next] == old(dst[..at]) + Printed(value)
    ensures forall k :: next <= k < dst.Length ==> dst[k] == old(dst[k])
  {
    hide Printed;
    ghost var goal := Printed(value);
    var src: nat, more := value, true;
    next := at;
    while more
      invariant at <= next <= at + |goal| && (more ==> Printed(src) == goal[next - at..])
      invariant forall k :: at <= k < next - (if more then 0 else 1) ==> dst[k] == goal[k - at]
      invariant !more ==> next == at + |goal| > at && dst[next - 1] >= 128 && dst[next - 1] - 128 == goal[|goal| - 1]
      invariant forall k :: 0 <= k < at || at + |goal| <= k < dst.Length ==> dst[k] == old(dst[k])
      decreases |goal| - (next - at), more
    {
      PrintedUnfolds(src);
      assert goal[next - at] == Printed(src)[0];
      assert goal[next - at..][1..] == goal[next + 1 - at..];
      dst[next] := 128 + src % 128;
      src := src / 128;
      next := next + 1;
      more := src > 0;
    }
    dst[next - 1] := dst[next - 1] - 128;
  }

  method VarintSize(value: u32) returns (size: nat)
    ensures size == |Printed(value)|
  {
    var rest: nat := value / 128;
    size := 1;
    while rest != 0
      invariant size + (if rest == 0 then 0 else |Printed(rest)|) == |Printed(value)|
      decreases rest
    {
      rest := rest / 128;
      size := size + 1;
    }
  }
}
