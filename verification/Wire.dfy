/** Big-endian fixed-width fields, and the reader and writer that move through a packet. */
module Wire {
  import opened Basics

  // ---------------------------------------------------------------- numbers

  function Limit(width: nat): (r: nat)
    ensures r > 0
  {
    if width == 0 then 1 else 256 * Limit(width - 1)
  }

  function Be(width: nat, v: nat): (r: seq<byte>)
    ensures |r| == width
  {
    if width == 0 then [] else Be(width - 1, v / 256) + [v % 256]
  }

  function Val(s: seq<byte>): (r: nat) {
    if s == [] then 0 else Val(s[..|s| - 1]) * 256 + s[|s| - 1]
  }

  lemma {:induction false} ValOfBe(width: nat, v: nat)
    requires v < Limit(width)
    ensures Val(Be(width, v)) == v
  {
    if width > 0 {
      ValOfBe(width - 1, v / 256);
      assert Be(width, v)[..width - 1] == Be(width - 1, v / 256);
    }
  }

  lemma {:induction false} BeOfVal(s: seq<byte>)
    ensures Val(s) < Limit(|s|)
    ensures Be(|s|, Val(s)) == s
  {
    if s != [] {
      var rest := s[..|s| - 1];
      BeOfVal(rest);
      assert Val(s) / 256 == Val(rest) && Val(s) % 256 == s[|s| - 1];
      assert s == rest + [s[|s| - 1]];
    }
  }

  // ---------------------------------------------------------------- runs of fields

  predicate Fits(values: seq<nat>, widths: seq<nat>) {
    |values| == |widths| && forall i :: 0 <= i < |values| ==> values[i] < Limit(widths[i])
  }

  function Total(widths: seq<nat>): (r: nat) {
    if widths == [] then 0 else widths[0] + Total(widths[1..])
  }

  function Encoded(values: seq<nat>, widths: seq<nat>): (r: seq<byte>)
    requires |values| == |widths|
    ensures |r| == Total(widths)
  {
    if widths == [] then [] else Be(widths[0], values[0]) + Encoded(values[1..], widths[1..])
  }

  /** Reads consecutive fields off the front of a byte string. */
  function Numbers(s: seq<byte>, widths: seq<nat>): (r: Option<(seq<nat>, seq<byte>)>)
    ensures r.Some? ==> |r.value.0| == |widths|
  {
    if widths == [] then Some(([], s))
    else if |s| < widths[0] then None
    else
      var rest := Numbers(s[widths[0]..], widths[1..]);
      if rest.None? then None else Some(([Val(s[..widths[0]])] + rest.value.0, rest.value.1))
  }

  lemma HeadOf(width: nat, v: nat, rest: seq<byte>)
    requires v < Limit(width)
    ensures var s := Be(width, v) + rest; |s| >= width && Val(s[..width]) == v && s[width..] == rest
  {
    hide Be, Val;
    ValOfBe(width, v);
    assert (Be(width, v) + rest)[..width] == Be(width, v);
  }

  lemma HeadOff(s: seq<byte>, width: nat)
    requires |s| >= width
    ensures Val(s[..width]) < Limit(width) && s == Be(width, Val(s[..width])) + s[width..]
  {
    hide Be, Val;
    BeOfVal(s[..width]);
    assert s == s[..width] + s[width..];
  }

  lemma {:induction false} NumbersOfEncoded(values: seq<nat>, widths: seq<nat>, rest: seq<byte>)
    requires Fits(values, widths)
    ensures Numbers(Encoded(values, widths) + rest, widths) == Some((values, rest))
  {
    hide Be, Val, Limit;
    if widths == [] {
      assert [] + rest == rest;
    } else {
      var tail := Encoded(values[1..], widths[1..]);
      HeadOf(widths[0], values[0], tail + rest);
      assert Encoded(values, widths) + rest == Be(widths[0], values[0]) + (tail + rest);
      NumbersOfEncoded(values[1..], widths[1..], rest);
      assert [values[0]] + values[1..] == values;
    }
  }

  lemma {:induction false} EncodedOfNumbers(s: seq<byte>, widths: seq<nat>)
    ensures Numbers(s, widths).None? <==> |s| < Total(widths)
    ensures Numbers(s, widths).Some? ==>
              var (values, rest) := Numbers(s, widths).value;
              Fits(values, widths) && s == Encoded(values, widths) + rest
  {
    hide Be, Val, Limit;
    if widths == [] {
      assert s == [] + s;
    } else if |s| >= widths[0] {
      var w := widths[0];
      EncodedOfNumbers(s[w..], widths[1..]);
      HeadOff(s, w);
      if Numbers(s[w..], widths[1..]).Some? {
        var (values, rest) := Numbers(s[w..], widths[1..]).value;
        Consed(Val(s[..w]), values, w, widths, rest);
      }
    }
  }

  lemma Consed(v: nat, values: seq<nat>, w: nat, widths: seq<nat>, rest: seq<byte>)
    requires widths != [] && widths[0] == w && v < Limit(w) && Fits(values, widths[1..])
    ensures Fits([v] + values, widths)
    ensures Encoded([v] + values, widths) + rest == Be(w, v) + (Encoded(values, widths[1..]) + rest)
  {
    hide Be, Limit;
    assert ([v] + values)[1..] == values;
  }

  // ---------------------------------------------------------------- reader

  class PacketReader {
    const data: seq<byte>
    var offset: nat

    ghost predicate Valid()
      reads this
    {
      offset <= |data|
    }

    ghost function Rest(): (r: seq<byte>)
      requires Valid()
      reads this
    {
      data[offset..]
    }

    constructor (packet: seq<byte>)
      ensures Valid() && data == packet && Rest() == packet
    {
      data, offset := packet, 0;
    }

    method Take(size: nat) returns (bytes: Option<seq<byte>>)
      requires Valid()
      modifies this
      ensures Valid()
      ensures bytes == if |old(Rest())| < size then None else Some(old(Rest())[..size])
      ensures Rest() == if bytes.None? then old(Rest()) else old(Rest())[size..]
    {
      if size > |data| - offset {
        return None;
      }
      assert data[offset..][..size] == data[offset..offset + size];
      assert data[offset..][size..] == data[offset + size..];
      bytes := Some(data[offset..offset + size]);
      offset := offset + size;
    }

    /** Everything not read yet. */
    method TakeRest() returns (bytes: seq<byte>)
      requires Valid()
      modifies this
      ensures Valid() && bytes == old(Rest()) && Rest() == []
    {
      bytes := data[offset..];
      offset := |data|;
    }

    /** One big-endian number, byte by byte. */
    method Number(width: nat) returns (value: Option<nat>)
      requires Valid()
      modifies this
      ensures Valid()
      ensures value == if |old(Rest())| < width then None else Some(Val(old(Rest())[..width]))
      ensures Rest() == if value.None? then old(Rest()) else old(Rest())[width..]
    {
      var taken := Take(width);
      if taken.None? {
        return None;
      }
      var bytes := taken.value;
      var v: nat := 0;
      var i := 0;
      while i < width
        invariant 0 <= i <= width && v == Val(bytes[..i])
      {
        assert bytes[..i + 1][..i] == bytes[..i];
        v := v * 256 + bytes[i];
        i := i + 1;
      }
      assert bytes[..i] == bytes;
      value := Some(v);
    }

    method NumberRun(widths: seq<nat>) returns (values: Option<seq<nat>>)
      requires Valid()
      modifies this
      ensures Valid()
      ensures values.None? <==> Numbers(old(Rest()), widths).None?
      ensures values.Some? ==> Numbers(old(Rest()), widths) == Some((values.value, Rest()))
    {
      hide Reading;
      ghost var start := Rest();
      var read: seq<nat> := [];
      var k := 0;
      ReadingStarts(start, widths);
      while k < |widths|
        invariant 0 <= k <= |widths| && Valid() && Reading(start, widths, k, read, Rest())
      {
        ghost var rest := Rest();
        var next := Number(widths[k]);
        ReadingStep(start, widths, k, read, rest);
        if next.None? {
          return None;
        }
        read := read + [next.value];
        k := k + 1;
      }
      ReadingEnds(start, widths, read, Rest());
      values := Some(read);
    }
  }

  /** The first `k` fields have been read. */
  ghost predicate Reading(start: seq<byte>, widths: seq<nat>, k: nat, read: seq<nat>, rest: seq<byte>) {
    && k <= |widths|
    && (Numbers(rest, widths[k..]).None? ==> Numbers(start, widths).None?)
    && (Numbers(rest, widths[k..]).Some? ==>
       Numbers(start, widths) == Some((read + Numbers(rest, widths[k..]).value.0, Numbers(rest, widths[k..]).value.1)))
  }

  lemma ReadingStarts(start: seq<byte>, widths: seq<nat>)
    ensures Reading(start, widths, 0, [], start)
  {
    assert widths[0..] == widths;
    if Numbers(start, widths).Some? {
      var p := Numbers(start, widths).value;
      assert [] + p.0 == p.0;
    }
  }

  lemma ReadingStep(start: seq<byte>, widths: seq<nat>, k: nat, read: seq<nat>, rest: seq<byte>)
    requires Reading(start, widths, k, read, rest) && k < |widths|
    ensures |rest| < widths[k] ==> Numbers(start, widths).None?
    ensures |rest| >= widths[k] ==> Reading(start, widths, k + 1, read + [Val(rest[..widths[k]])], rest[widths[k]..])
  {
    assert widths[k..][1..] == widths[k + 1..];
    if |rest| >= widths[k] {
      var p := Numbers(rest[widths[k]..], widths[k + 1..]);
      if p.Some? {
        assert read + ([Val(rest[..widths[k]])] + p.value.0) == read + [Val(rest[..widths[k]])] + p.value.0;
      }
    }
  }

  lemma ReadingEnds(start: seq<byte>, widths: seq<nat>, read: seq<nat>, rest: seq<byte>)
    requires Reading(start, widths, |widths|, read, rest)
    ensures Numbers(start, widths) == Some((read, rest))
  {
    assert widths[|widths|..] == [];
    assert read + [] == read;
  }

  // ---------------------------------------------------------------- writer

  lemma BeStep(width: nat, v: nat)
    requires width > 0
    ensures Be(width, v)[..width - 1] == Be(width - 1, v / 256) && Be(width, v)[width - 1] == v % 256
  {
  }

  lemma EncodedFrom(values: seq<nat>, widths: seq<nat>, k: nat)
    requires |values| == |widths| && k < |values|
    ensures Encoded(values[k..], widths[k..]) == Be(widths[k], values[k]) + Encoded(values[k + 1..], widths[k + 1..])
    ensures Total(widths[k..]) == widths[k] + Total(widths[k + 1..])
  {
    hide Be;
    assert values[k..][1..] == values[k + 1..] && widths[k..][1..] == widths[k + 1..];
  }

  lemma EncodedEnd(values: seq<nat>, widths: seq<nat>)
    requires values == [] && widths == []
    ensures Encoded(values, widths) == [] && Total(widths) == 0
  {
  }

  lemma Regrouped(a: seq<byte>, b: seq<byte>, c: seq<byte>)
    ensures a + (b + c) == (a + b) + c
  {
  }

  class PacketWriter {
    const data: array<byte>
    const size: nat
    var offset: nat

    ghost predicate Valid()
      reads this
    {
      offset <= size <= data.Length
    }

    ghost function Written(): (r: seq<byte>)
      requires Valid()
      reads this, data
    {
      data[..offset]
    }

    constructor (packet: array<byte>, total: nat)
      requires total <= packet.Length
      ensures Valid() && data == packet && size == total && offset == 0
      ensures Written() == []
    {
      data, size, offset := packet, total, 0;
    }

    /** One big-endian number, written from its last byte to its first. */
    method Number(width: nat, value: nat) returns (ok: bool)
      requires Valid()
      modifies this, data
      ensures Valid() && ok == (width <= size - old(offset))
      ensures Written() == if ok then old(Written()) + Be(width, value) else old(Written())
      ensures offset == if ok then old(offset) + width else old(offset)
    {
      hide Be;
      if width > size - offset {
        return false;
      }
      ghost var before := Written();
      ghost var bytes := Be(width, value);
      var start := offset;
      var v := value;
      var k := 0;
      assert bytes[..width] == bytes;
      while k < width
        invariant 0 <= k <= width && Valid() && offset == start && start + width <= size
        invariant forall i :: 0 <= i < start ==> data[i] == before[i]
        invariant forall i :: width - k <= i < width ==> data[start + i] == bytes[i]
        invariant Be(width - k, v) == bytes[..width - k]
      {
        BeStep(width - k, v);
        data[start + width - k - 1] := v % 256;
        assert bytes[..width - k][..width - k - 1] == bytes[..width - (k + 1)];
        v := v / 256;
        k := k + 1;
      }
      offset := offset + width;
      assert Written() == before + bytes;
      ok := true;
    }

    method Bytes(source: seq<byte>) returns (ok: bool)
      requires Valid()
      modifies this, data
      ensures Valid() && ok == (|source| <= size - old(offset))
      ensures Written() == if ok then old(Written()) + source else old(Written())
      ensures offset == if ok then old(offset) + |source| else old(offset)
    {
      if |source| > size - offset {
        return false;
      }
      ghost var before := Written();
      var k := 0;
      while k < |source|
        invariant 0 <= k <= |source| && Valid() && offset == old(offset) && offset + |source| <= size
        invariant data[..offset] == before && data[offset..offset + k] == source[..k]
      {
        data[offset + k] := source[k];
        k := k + 1;
      }
      assert source[..k] == source;
      assert data[..offset + |source|] == before + data[offset..offset + |source|];
      offset := offset + |source|;
      ok := true;
    }

    method NumberRun(values: seq<nat>, widths: seq<nat>) returns (ok: bool)
      requires Valid() && |values| == |widths|
      modifies this, data
      ensures Valid() && ok == (Total(widths) <= size - old(offset))
      ensures ok ==> Written() == old(Written()) + Encoded(values, widths) && offset == old(offset) + Total(widths)
    {
      hide Encoded, Total, Be;
      ghost var before := Written();
      ghost var start := offset;
      var k := 0;
      assert values[0..] == values && widths[0..] == widths;
      while k < |values|
        invariant 0 <= k <= |values| && Valid() && start <= offset
        invariant Written() + Encoded(values[k..], widths[k..]) == before + Encoded(values, widths)
        invariant offset + Total(widths[k..]) == start + Total(widths)
      {
        EncodedFrom(values, widths, k);
        ghost var w := Written();
        ok := Number(widths[k], values[k]);
        if !ok {
          return;
        }
        Regrouped(w, Be(widths[k], values[k]), Encoded(values[k + 1..], widths[k + 1..]));
        k := k + 1;
      }
      EncodedEnd(values[k..], widths[k..]);
      assert Written() + [] == Written();
      ok := true;
    }
  }
}
