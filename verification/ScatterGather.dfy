/** The vector for one scattered send: what is left of a chain, cut to the number
    of views a call may take. */
module ScatterGather {
  import opened Buffers

  // The views that are left after the first `skip` bytes, the first one cut.
  function Rest(chain: Chain, skip: nat): Chain {
    if chain == [] then []
    else if skip >= chain[0].size then Rest(chain[1..], skip - chain[0].size)
    else [BufferView(chain[0].buffer, chain[0].offset + skip, chain[0].size - skip)] + chain[1..]
  }

  lemma {:induction false} RestIs(chain: Chain, skip: nat)
    requires ValidChain(chain) && skip <= |Flatten(chain)|
    ensures ValidChain(Rest(chain, skip)) && Flatten(Rest(chain, skip)) == Flatten(chain)[skip..]
    ensures Rest(chain, skip) == [] <==> skip == |Flatten(chain)|
  {
    if chain != [] {
      assert chain[0].Valid() && |chain[0].Bytes()| == chain[0].size;
      if skip >= chain[0].size {
        RestIs(chain[1..], skip - chain[0].size);
      } else {
        var view := Rest(chain, skip)[0];
        assert view.Bytes() == chain[0].Bytes()[skip..];
        FlattenOne(view);
        FlattenConcat([view], chain[1..]);
      }
    }
  }

  // The vector for one send is what is left of the chain, cut after
  // `capacity` views.
  method BuildIov(chain: Chain, offset: nat, capacity: nat) returns (iov: Chain)
    requires ValidChain(chain) && offset <= |Flatten(chain)|
    ensures iov == if |Rest(chain, offset)| <= capacity then Rest(chain, offset) else Rest(chain, offset)[..capacity]
    ensures ValidChain(iov) && offset + |Flatten(iov)| <= |Flatten(chain)|
    ensures Flatten(iov) == Flatten(chain)[offset..offset + |Flatten(iov)|]
    ensures capacity > 0 ==> (iov == [] <==> offset == |Flatten(chain)|)
  {
    hide Rest, Flatten, Built;
    iov := [];
    BuiltStart(chain, offset);
    var skip: nat := offset;
    var i := 0;
    ghost var next := 0;   // the first view that has not been looked at
    while capacity > 0 && i < |chain|
      invariant 0 <= i == next <= |chain| && |iov| <= capacity && (|iov| == capacity ==> capacity == 0)
      invariant Built(chain, offset, iov, next, skip)
    {
      var view := chain[i];
      next := i + 1;
      if skip >= view.size {
        BuiltSkip(chain, offset, iov, i, skip);
        skip := skip - view.size;
      } else {
        BuiltTake(chain, offset, iov, i, skip);
        iov := iov + [BufferView(view.buffer, view.offset + skip, view.size - skip)];
        skip := 0;
        if |iov| == capacity {
          break;
        }
      }
      i := i + 1;
    }
    BuiltDone(chain, offset, iov, next, skip, capacity);
    VectorIs(chain, offset, |iov|);
  }

  // The vector so far, and what is left from view i on, make up the rest.
  ghost predicate Built(chain: Chain, offset: nat, iov: Chain, i: nat, skip: nat) {
    i <= |chain| && Rest(chain, offset) == iov + Rest(chain[i..], skip)
  }

  lemma BuiltStart(chain: Chain, offset: nat)
    ensures Built(chain, offset, [], 0, offset)
  {
    assert chain[0..] == chain;
  }

  lemma BuiltSkip(chain: Chain, offset: nat, iov: Chain, i: nat, skip: nat)
    requires Built(chain, offset, iov, i, skip) && i < |chain| && skip >= chain[i].size
    ensures Built(chain, offset, iov, i + 1, skip - chain[i].size)
  {
    assert chain[i..][1..] == chain[i + 1..];
  }

  lemma BuiltTake(chain: Chain, offset: nat, iov: Chain, i: nat, skip: nat)
    requires ValidChain(chain) && Built(chain, offset, iov, i, skip) && i < |chain| && skip < chain[i].size
    ensures Built(chain, offset, iov + [BufferView(chain[i].buffer, chain[i].offset + skip, chain[i].size - skip)], i + 1, 0)
  {
    assert chain[i..][1..] == chain[i + 1..];
    RestOfAll(chain[i + 1..]);
  }

  lemma BuiltDone(chain: Chain, offset: nat, iov: Chain, i: nat, skip: nat, capacity: nat)
    requires Built(chain, offset, iov, i, skip) && |iov| <= capacity && (i == |chain| || |iov| == capacity)
    ensures |iov| <= |Rest(chain, offset)| && iov == Rest(chain, offset)[..|iov|]
    ensures iov == if |Rest(chain, offset)| <= capacity then Rest(chain, offset) else Rest(chain, offset)[..capacity]
  {
  }

  // The first n views left are the next bytes of the chain, and there are none
  // only when all of it has gone.
  lemma VectorIs(chain: Chain, offset: nat, n: nat)
    requires ValidChain(chain) && offset <= |Flatten(chain)| && n <= |Rest(chain, offset)|
    ensures var iov := Rest(chain, offset)[..n];
            && ValidChain(iov) && offset + |Flatten(iov)| <= |Flatten(chain)|
            && Flatten(iov) == Flatten(chain)[offset..offset + |Flatten(iov)|]
            && (Rest(chain, offset) == [] <==> offset == |Flatten(chain)|)
  {
    RestIs(chain, offset);
    Cut(Rest(chain, offset), n);
  }

  lemma {:induction false} RestOfAll(chain: Chain)
    requires ValidChain(chain)
    ensures Rest(chain, 0) == chain
  {
    if chain != [] {
      assert chain[0].Valid();
    }
  }

  lemma Cut(chain: Chain, n: nat)
    requires ValidChain(chain) && n <= |chain|
    ensures ValidChain(chain[..n]) && |Flatten(chain[..n])| <= |Flatten(chain)|
    ensures Flatten(chain[..n]) == Flatten(chain)[..|Flatten(chain[..n])|]
  {
    assert chain == chain[..n] + chain[n..];
    FlattenConcat(chain[..n], chain[n..]);
  }
}
