/** A byte stream as it arrives: chunk after chunk. */
module Chunks {
  import opened Words

  function Joined(chunks: seq<seq<Byte>>): seq<Byte> {
    if chunks == [] then [] else chunks[0] + Joined(chunks[1..])
  }

  lemma {:induction false} JoinedNonempty(chunks: seq<seq<Byte>>)
    requires forall k :: 0 <= k < |chunks| ==> chunks[k] != []
    ensures Joined(chunks) == [] <==> chunks == []
  {
  }

  lemma {:induction false} JoinedAppend(a: seq<seq<Byte>>, b: seq<seq<Byte>>)
    ensures Joined(a + b) == Joined(a) + Joined(b)
  {
    if a == [] {
      assert a + b == b;
      assert [] + Joined(b) == Joined(b);
    } else {
      JoinedAppend(a[1..], b);
      assert (a + b)[0] == a[0] && (a + b)[1..] == a[1..] + b;
      assert a[0] + (Joined(a[1..]) + Joined(b)) == a[0] + Joined(a[1..]) + Joined(b);
    }
  }

  lemma JoinedTwo(a: seq<Byte>, b: seq<Byte>)
    ensures Joined([a, b]) == a + b
  {
    assert [a, b][1..] == [b] && [b][1..] == [];
    assert Joined([b]) == b + [];
  }

  lemma JoinedFour(a: seq<Byte>, b: seq<Byte>, c: seq<Byte>, d: seq<Byte>)
    ensures Joined([a, b, c, d]) == a + (b + c) + d
  {
    assert [a, b, c, d] == [a, b] + [c, d];
    JoinedAppend([a, b], [c, d]);
    JoinedTwo(a, b);
    JoinedTwo(c, d);
  }
}
