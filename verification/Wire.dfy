/** The runner's half of the control stream. Each write either reaches the
    control plane or is reported as failed (an error, or a write that hung). */
module Wire {

  class Stream<M> {
    /** The outcome of the n-th write. */
    const works: nat -> bool
    var attempts: seq<M>

    constructor (works: nat -> bool)
      ensures attempts == [] && this.works == works
    {
      this.works := works;
      attempts := [];
    }

    /** The messages whose write succeeded, in order. */
    ghost function Delivered(): (d: seq<M>)
      reads this
    {
      Passed(works, attempts, |attempts|)
    }

    /** How many writes have failed. */
    ghost function Lost(): (n: nat)
      reads this
    {
      PassedLength(works, attempts, |attempts|);
      |attempts| - |Delivered()|
    }

    method Send(m: M) returns (ok: bool)
      modifies this
      ensures attempts == old(attempts) + [m]
      ensures ok == works(old(|attempts|))
      ensures Delivered() == if ok then old(Delivered()) + [m] else old(Delivered())
      ensures Lost() == if ok then old(Lost()) else old(Lost()) + 1
    {
      ok := works(|attempts|);
      assert (attempts + [m])[..|attempts|] == attempts;
      PassedPrefix(works, attempts, attempts + [m], |attempts|);
      attempts := attempts + [m];
    }
  }

  ghost function Passed<M>(works: nat -> bool, attempts: seq<M>, n: nat): seq<M>
    requires n <= |attempts|
  {
    if n == 0 then []
    else Passed(works, attempts, n - 1) + (if works(n - 1) then [attempts[n - 1]] else [])
  }

  lemma {:induction false} PassedLength<M>(works: nat -> bool, attempts: seq<M>, n: nat)
    requires n <= |attempts|
    ensures |Passed(works, attempts, n)| <= n
  {
    if n > 0 {
      PassedLength(works, attempts, n - 1);
    }
  }

  lemma {:induction false} PassedPrefix<M>(works: nat -> bool, a: seq<M>, b: seq<M>, n: nat)
    requires n <= |a| <= |b| && b[..|a|] == a
    ensures Passed(works, a, n) == Passed(works, b, n)
  {
    if n > 0 {
      assert b[n - 1] == b[..|a|][n - 1];
      PassedPrefix(works, a, b, n - 1);
    }
  }
}
