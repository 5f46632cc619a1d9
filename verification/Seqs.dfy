/** The order in which a stack is emptied. */
module Seqs {

  /** The elements from the last to the first. */
  function LastFirst<T>(s: seq<T>): (r: seq<T>)
    ensures |r| == |s|
  {
    if |s| == 0 then []
    else
      var top := |s| - 1;
      [s[top]] + LastFirst(s[..top])
  }

  lemma {:induction false} LastFirstAt<T>(s: seq<T>, k: nat)
    requires k < |s|
    ensures LastFirst(s)[k] == s[|s| - 1 - k]
  {
    if k > 0 { LastFirstAt(s[..|s| - 1], k - 1); }
  }

  /** The bottom of the stack comes out last. */
  lemma {:induction false} LastFirstBottom<T>(x: T, s: seq<T>)
    ensures LastFirst([x] + s) == LastFirst(s) + [x]
  {
    if s == [] {
      assert [x] + s == [x] && [x][..0] == [];
    } else {
      var top := |s| - 1;
      LastFirstBottom(x, s[..top]);
      assert ([x] + s)[..|s|] == [x] + s[..top];
    }
  }

  lemma LastFirstPush<T>(s: seq<T>, x: T)
    ensures LastFirst(s + [x]) == [x] + LastFirst(s)
  {
    assert (s + [x])[..|s|] == s;
  }
}
