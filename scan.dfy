// Index-driven collection: the `for (let i = lo; i < hi; i++) { … if (…) out.push(x) }` shape
// that the import's loops share, stated once over a reader of positions.

module Scan {
  import opened Options

  /** What `read` yields at positions lo..hi-1, left to right, with the None positions skipped */
  function Gather<T>(read: nat -> Option<T>, lo: nat, hi: nat): (r: seq<T>)
    ensures |r| <= if hi <= lo then 0 else hi - lo
    decreases hi
  {
    if hi <= lo then []
    else Gather(read, lo, hi - 1) + (if read(hi - 1).Some? then [read(hi - 1).value] else [])
  }

  /** Gather keeps every value read in the range and nothing else. */
  lemma {:induction false} GatherMembers<T>(read: nat -> Option<T>, lo: nat, hi: nat)
    ensures forall k :: lo <= k < hi && read(k).Some? ==> read(k).value in Gather(read, lo, hi)
    ensures forall x :: x in Gather(read, lo, hi) ==> exists k :: lo <= k < hi && read(k) == Some(x)
    decreases hi
  {
    if hi > lo {
      GatherMembers(read, lo, hi - 1);
    }
  }

  /** The push loop */
  method GatherLoop<T>(read: nat -> Option<T>, lo: nat, hi: nat) returns (r: seq<T>)
    ensures r == Gather(read, lo, hi)
  {
    r := [];
    if hi <= lo {
      return;
    }
    var k := lo;
    while k < hi
      invariant lo <= k <= hi
      invariant r == Gather(read, lo, k)
    {
      var x := read(k);
      if x.Some? {
        r := r + [x.value];
      }
      k := k + 1;
    }
  }

  /** Positions gathered one block after another */
  lemma {:induction false} GatherSplit<T>(read: nat -> Option<T>, lo: nat, mid: nat, hi: nat)
    requires lo <= mid <= hi
    ensures Gather(read, lo, hi) == Gather(read, lo, mid) + Gather(read, mid, hi)
    decreases hi
  {
    if hi > mid {
      GatherSplit(read, lo, mid, hi - 1);
    }
  }

  /** The concatenation of what `read` yields at lo..hi-1 */
  function Flatten<T>(read: nat -> seq<T>, lo: nat, hi: nat): seq<T>
    decreases hi
  {
    if hi <= lo then [] else Flatten(read, lo, hi - 1) + read(hi - 1)
  }

  /** Flatten keeps every element of every block in the range and nothing else. */
  lemma {:induction false} FlattenMembers<T>(read: nat -> seq<T>, lo: nat, hi: nat)
    ensures forall k, x :: lo <= k < hi && x in read(k) ==> x in Flatten(read, lo, hi)
    ensures forall x :: x in Flatten(read, lo, hi) ==> exists k :: lo <= k < hi && x in read(k)
    decreases hi
  {
    if hi > lo {
      FlattenMembers(read, lo, hi - 1);
    }
  }
}
