/** Decoding a mag's left photon blast: two bits rank it among the blasts that the centre
    and right slots leave free. */
module MagBlasts {

  /** The in-place adjustment. */
  method AdjustLeft(cpb: nat, rpb: nat, lpb0: nat) returns (lpb: nat)
    ensures lpb == LeftBlast(cpb, rpb, lpb0)
  {
    lpb := lpb0;
    if cpb <= lpb && rpb <= lpb {
      lpb := lpb + 2;
    } else if cpb <= lpb {
      lpb := lpb + 1;
      if rpb == lpb {
        lpb := lpb + 1;
      }
    } else if rpb <= lpb {
      lpb := lpb + 1;
      if cpb == lpb {
        lpb := lpb + 1;
      }
    }
  }

  /** Each taken blast at or below the rank so far moves it up by one, lower one first. */
  function LeftBlast(c: nat, r: nat, n: nat): nat {
    var lo, hi := if c <= r then c else r, if c <= r then r else c;
    var m := if lo <= n then n + 1 else n;
    if hi <= m && !(lo > n) then m + 1 else m
  }

  /** How many of 0 .. m - 1 are neither c nor r. */
  function FreeBelow(c: nat, r: nat, m: nat): nat {
    if m == 0 then 0 else FreeBelow(c, r, m - 1) + (if m - 1 == c || m - 1 == r then 0 else 1)
  }

  /** m is the n-th natural, counting from zero, that is neither c nor r. */
  predicate IsNthFree(c: nat, r: nat, n: nat, m: nat) {
    m != c && m != r && FreeBelow(c, r, m) == n
  }

  lemma {:induction false} FreeBelowIs(c: nat, r: nat, m: nat)
    ensures FreeBelow(c, r, m) == m - (if c < m then 1 else 0) - (if r < m && r != c then 1 else 0)
  {
    if m == 0 {
    } else {
      FreeBelowIs(c, r, m - 1);
    }
  }

  /** The decoded blast is free whatever the other two are. */
  lemma NeverCollides(c: nat, r: nat, n: nat)
    ensures LeftBlast(c, r, n) != c && LeftBlast(c, r, n) != r
  {
  }

  /** It is the n-th free blast exactly when the other two differ, or lie above the rank. Equal
      blasts are counted twice. */
  lemma DecodesTheRank(c: nat, r: nat, n: nat)
    ensures IsNthFree(c, r, n, LeftBlast(c, r, n)) <==> c != r || n < c
  {
    FreeBelowIs(c, r, LeftBlast(c, r, n));
  }

  lemma EqualBlastsSkipOne()
    ensures LeftBlast(0, 0, 0) == 2 && IsNthFree(0, 0, 0, 1)
  {
    FreeBelowIs(0, 0, 1);
  }

  lemma StrictlyIncreasing(c: nat, r: nat, m: nat, n: nat)
    requires m < n
    ensures LeftBlast(c, r, m) < LeftBlast(c, r, n)
  {
  }

  /** Every blast the other two leave free is reached, by its own rank. */
  lemma ReachesEveryFree(c: nat, r: nat, m: nat)
    requires c != r && m != c && m != r
    ensures LeftBlast(c, r, FreeBelow(c, r, m)) == m
  {
    FreeBelowIs(c, r, m);
  }

  lemma LeftBlastSmall(c: nat, r: nat, n: nat)
    ensures n <= LeftBlast(c, r, n) <= n + 2
  {
  }
}
