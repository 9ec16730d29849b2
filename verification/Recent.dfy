/** Keeping only the newest of a growing sequence. */
module Recent {

  function LastN<T>(s: seq<T>, n: nat): seq<T> {
    if |s| <= n then s else s[|s| - n..]
  }

  /** Keeping the last `n` as items arrive is keeping the last `n` of them all. */
  lemma {:induction false} LastNGrows<T>(s: seq<T>, x: T, n: nat)
    requires n > 0
    ensures LastN(s + [x], n) == (if |LastN(s, n)| >= n then LastN(s, n)[1..] else LastN(s, n)) + [x]
  {
    if |s| >= n {
      assert (s + [x])[|s| + 1 - n..] == s[|s| - n..][1..] + [x];
    }
  }

  lemma LastNFits<T>(s: seq<T>, n: nat)
    ensures |LastN(s, n)| == (if |s| <= n then |s| else n)
    ensures |s| <= n ==> LastN(s, n) == s
  {
  }

  /** Appending to a bounded queue: one in, and one out at the front if it was full. */
  function Appended<T>(queue: seq<T>, x: T, n: nat): seq<T> {
    if n == 0 then [] else (if |queue| >= n then queue[1..] else queue) + [x]
  }

  lemma AppendedIsLast<T>(s: seq<T>, x: T, n: nat)
    ensures Appended(LastN(s, n), x, n) == LastN(s + [x], n)
  {
    if n > 0 {
      LastNGrows(s, x, n);
    } else {
      assert (s + [x])[|s| + 1..] == [];
    }
  }
}
