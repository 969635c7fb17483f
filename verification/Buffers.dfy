/** Scatter/gather chains of buffer views, and the class that builds them.
    A buffer is the byte string it holds; a view is a window into one. */
module Buffers {
  import opened Wrappers

  newtype byte = x: int | 0 <= x < 256

  datatype BufferView = BufferView(buffer: seq<byte>, offset: nat, size: nat) {
    predicate Valid() {
      0 < size && offset + size <= |buffer|
    }

    function Bytes(): seq<byte>
      requires Valid()
    {
      buffer[offset..offset + size]
    }
  }

  type Chain = seq<BufferView>

  predicate ValidChain(c: Chain) {
    forall v :: v in c ==> v.Valid()
  }

  // What a chain denotes: the bytes of its views, in order.
  function Flatten(c: Chain): seq<byte>
    requires ValidChain(c)
  {
    if c == [] then [] else c[0].Bytes() + Flatten(c[1..])
  }

  predicate ValidChains(cs: seq<Chain>) {
    forall c :: c in cs ==> ValidChain(c)
  }

  function FlattenAll(cs: seq<Chain>): seq<byte>
    requires ValidChains(cs)
  {
    if cs == [] then [] else Flatten(cs[0]) + FlattenAll(cs[1..])
  }

  lemma {:induction false} FlattenConcat(a: Chain, b: Chain)
    requires ValidChain(a) && ValidChain(b)
    ensures ValidChain(a + b)
    ensures Flatten(a + b) == Flatten(a) + Flatten(b)
  {
    if a == [] {
      assert a + b == b;
    } else {
      FlattenConcat(a[1..], b);
      assert (a + b)[1..] == a[1..] + b;
    }
  }

  lemma FlattenOne(v: BufferView)
    requires v.Valid()
    ensures ValidChain([v]) && Flatten([v]) == v.Bytes()
  {
    assert Flatten([v]) == v.Bytes() + Flatten([]);
  }

  lemma FlattenNone()
    ensures Flatten([]) == []
  {
  }

  // The part of the flattened chain that view i contributes.
  lemma {:induction false} FlattenAt(c: Chain, i: nat)
    requires ValidChain(c) && i < |c|
    ensures c[i].Valid() && ValidChain(c[..i]) && ValidChain(c[..i + 1])
    ensures Flatten(c[..i + 1]) == Flatten(c[..i]) + c[i].Bytes()
    ensures |Flatten(c[..i + 1])| <= |Flatten(c)|
    ensures Flatten(c)[|Flatten(c[..i])|..|Flatten(c[..i])| + c[i].size] == c[i].Bytes()
  {
    FlattenOne(c[i]);
    FlattenConcat(c[..i], [c[i]]);
    assert c[..i + 1] == c[..i] + [c[i]];
    FlattenConcat(c[..i + 1], c[i + 1..]);
    assert c == c[..i + 1] + c[i + 1..];
  }

  // ... from `at` bytes into the view.
  lemma RestOfView(c: Chain, i: nat, at: nat)
    requires ValidChain(c) && i < |c| && at <= c[i].size
    ensures c[i].Valid() && ValidChain(c[..i]) && |Flatten(c[..i])| + c[i].size <= |Flatten(c)|
    ensures var p := |Flatten(c[..i])|;
            Flatten(c)[p + at..p + c[i].size] == c[i].buffer[c[i].offset + at..c[i].offset + c[i].size]
  {
    FlattenAt(c, i);
    var p := |Flatten(c[..i])|;
    assert Flatten(c)[p + at..p + c[i].size] == Flatten(c)[p..p + c[i].size][at..];
  }

  lemma {:induction false} FlattenAllConcat(a: seq<Chain>, b: seq<Chain>)
    requires ValidChains(a) && ValidChains(b)
    ensures ValidChains(a + b)
    ensures FlattenAll(a + b) == FlattenAll(a) + FlattenAll(b)
  {
    if a == [] {
      assert a + b == b;
    } else {
      FlattenAllConcat(a[1..], b);
      assert (a + b)[1..] == a[1..] + b;
    }
  }

  lemma FlattenAllPush(cs: seq<Chain>, c: Chain)
    requires ValidChains(cs) && ValidChain(c)
    ensures ValidChains(cs + [c])
    ensures FlattenAll(cs + [c]) == FlattenAll(cs) + Flatten(c)
  {
    FlattenAllConcat(cs, [c]);
    assert FlattenAll([c]) == Flatten(c) + FlattenAll([]);
  }

  function Concat(buffers: seq<seq<byte>>): seq<byte> {
    if buffers == [] then [] else buffers[0] + Concat(buffers[1..])
  }

  lemma {:induction false} ConcatAppend(a: seq<seq<byte>>, b: seq<seq<byte>>)
    ensures Concat(a + b) == Concat(a) + Concat(b)
  {
    if a == [] {
      assert a + b == b;
    } else {
      ConcatAppend(a[1..], b);
      assert (a + b)[1..] == a[1..] + b;
    }
  }

  lemma ConcatOne(buffer: seq<byte>)
    ensures Concat([buffer]) == buffer
  {
    assert Concat([buffer]) == buffer + Concat([]);
  }

  // A write of the chain that started when `accepted` had `base` bytes: exactly
  // its first `offset` bytes, of `size` in all, have been accepted since.
  ghost predicate Partial(chain: Chain, size: nat, offset: nat, accepted: seq<byte>, base: nat) {
    && chain != [] && ValidChain(chain)
    && size == |Flatten(chain)|
    && offset <= size
    && base + offset == |accepted|
    && accepted[base..] == Flatten(chain)[..offset]
  }

  lemma PartialStart(chain: Chain, accepted: seq<byte>)
    requires chain != [] && ValidChain(chain)
    ensures Partial(chain, |Flatten(chain)|, 0, accepted, |accepted|)
  {
  }

  lemma PartialAdvance(chain: Chain, size: nat, offset: nat, accepted: seq<byte>, base: nat, data: seq<byte>, n: nat,
                       accepted': seq<byte>)
    requires Partial(chain, size, offset, accepted, base)
    requires offset + |data| <= size && data == Flatten(chain)[offset..offset + |data|] && n <= |data|
    requires accepted' == accepted + data[..n]
    ensures Partial(chain, size, offset + n, accepted', base)
  {
    assert Flatten(chain)[..offset + n] == Flatten(chain)[..offset] + data[..n];
    assert (accepted + data[..n])[base..] == accepted[base..] + data[..n];
  }

  // What has been accepted and what is left are the whole chain, after what was
  // there before it.
  lemma PartialWhole(chain: Chain, size: nat, offset: nat, accepted: seq<byte>, base: nat)
    requires Partial(chain, size, offset, accepted, base)
    ensures accepted + Flatten(chain)[offset..] == accepted[..base] + Flatten(chain)
  {
    assert accepted == accepted[..base] + Flatten(chain)[..offset];
    assert Flatten(chain) == Flatten(chain)[..offset] + Flatten(chain)[offset..];
  }

  class BufferChain {
    var Views: Chain
    var TotalSize: nat

    ghost predicate Valid()
      reads this
    {
      ValidChain(Views) && TotalSize == |Flatten(Views)|
    }

    constructor ()
      ensures Valid() && Views == []
    {
      Views := [];
      TotalSize := 0;
    }

    method Add(buffer: Option<seq<byte>>, offset: nat, size: nat) returns (ok: bool)
      requires Valid()
      modifies this
      ensures Valid()
      ensures ok <==> buffer.Some? && 0 < size && offset + size <= |buffer.value|
      ensures ok ==> Flatten(Views) == old(Flatten(Views)) + buffer.value[offset..offset + size]
      ensures !ok ==> Views == old(Views)
    {
      if buffer.None? || size == 0 {
        return false;
      }
      // offset is compared first, so that the subtraction cannot wrap around
      if offset > |buffer.value| || size > |buffer.value| - offset {
        return false;
      }
      var view := BufferView(buffer.value, offset, size);
      FlattenOne(view);
      FlattenConcat(Views, [view]);
      Views := Views + [view];
      TotalSize := TotalSize + size;
      return true;
    }

    method AddWhole(buffer: Option<seq<byte>>) returns (ok: bool)
      requires Valid()
      modifies this
      ensures Valid()
      ensures ok <==> buffer.Some? && buffer.value != []
      ensures ok ==> Flatten(Views) == old(Flatten(Views)) + buffer.value
      ensures !ok ==> Views == old(Views)
    {
      if buffer.None? {
        return false;
      }
      ok := Add(buffer, 0, |buffer.value|);
      assert buffer.value[0..|buffer.value|] == buffer.value;
    }

    method Clear()
      modifies this
      ensures Valid() && Views == []
    {
      Views := [];
      TotalSize := 0;
    }

    // Move assignment: the moved-from chain is left empty, size included;
    // assigning a chain to itself changes nothing.
    method MoveFrom(other: BufferChain)
      requires other.Valid()
      modifies this, other
      ensures Valid() && other.Valid()
      ensures Views == old(other.Views)
      ensures other != this ==> other.Views == [] && other.TotalSize == 0
    {
      if this != other {
        Views := other.Views;
        TotalSize := other.TotalSize;
        other.Views := [];
        other.TotalSize := 0;
      }
    }

    // The cached size agrees with the views.
    method Size() returns (n: nat)
      requires Valid()
      ensures n == |Flatten(Views)|
      ensures n == 0 <==> Views == []
    {
      n := TotalSize;
      if Views != [] {
        assert Views[0].Valid() && |Views[0].Bytes()| > 0;
      }
    }
  }
}
