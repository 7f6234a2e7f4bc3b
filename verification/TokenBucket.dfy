/** The arithmetic of a token bucket, with time measured in tokens: request j comes when a
    supply running without pause has delivered `ss[j]` tokens.  Nothing is assumed about the
    order or sign of the supplies. */
module TokenBucket {

  function Min(a: real, b: real): real {
    if a > b then b else a
  }

  function Spent(tokens: real): real {
    if tokens >= 1.0 then 1.0 else 0.0
  }

  /** Tokens the last request finds: a full bucket at first, then what the one before left
      plus the supply since, up to a full bucket. */
  function Tokens(cap: real, ss: seq<real>): real
    requires ss != []
  {
    var n := |ss| - 1;
    if n == 0 then cap
    else Min(Tokens(cap, ss[..n]) - Spent(Tokens(cap, ss[..n])) + (ss[n] - ss[n - 1]), cap)
  }

  /** Which requests find a whole token. */
  function Decisions(cap: real, ss: seq<real>): (a: seq<bool>)
    ensures |a| == |ss|
  {
    if ss == [] then [] else Decisions(cap, ss[..|ss| - 1]) + [Tokens(cap, ss) >= 1.0]
  }

  /** How many of the requests i..j-1 are admitted. */
  function Count(a: seq<bool>, i: nat, j: nat): (n: nat)
    requires j <= |a|
    ensures i <= j ==> n <= j - i
  {
    if j <= i then 0 else Count(a, i, j - 1) + if a[j - 1] then 1 else 0
  }

  lemma {:induction false} CountPrefix(a: seq<bool>, b: seq<bool>, i: nat, j: nat)
    requires j <= |a| <= |b| && b[..|a|] == a
    ensures Count(b, i, j) == Count(a, i, j)
  {
    if j > i {
      assert b[j - 1] == b[..|a|][j - 1];
      CountPrefix(a, b, i, j - 1);
    }
  }

  lemma {:induction false} CountSplit(a: seq<bool>, i: nat, k: nat, j: nat)
    requires i <= k <= j <= |a|
    ensures Count(a, i, j) == Count(a, i, k) + Count(a, k, j)
  {
    if j > k {
      CountSplit(a, i, k, j - 1);
    }
  }

  lemma {:induction false} DecisionsPrefix(cap: real, ss: seq<real>, n: nat)
    requires n <= |ss|
    ensures Decisions(cap, ss)[..n] == Decisions(cap, ss[..n])
    decreases |ss|
  {
    if n < |ss| {
      var ss' := ss[..|ss| - 1];
      DecisionsPrefix(cap, ss', n);
      assert ss'[..n] == ss[..n];
      assert Decisions(cap, ss)[..n] == Decisions(cap, ss')[..n];
    } else {
      assert ss[..n] == ss;
    }
  }

  /** Room left in the window from request i to the last one, before that one is decided: a
      full bucket and the supply of the window, less what the window admitted. */
  function Slack(cap: real, ss: seq<real>, i: nat): real
    requires i < |ss|
  {
    var n := |ss| - 1;
    cap + (ss[n] - ss[i]) - Count(Decisions(cap, ss), i, n) as real
  }

  lemma SlackStep(cap: real, ss: seq<real>, i: nat)
    requires i + 1 < |ss|
    ensures var n := |ss| - 1;
            Slack(cap, ss, i) == Slack(cap, ss[..n], i) - Spent(Tokens(cap, ss[..n])) + (ss[n] - ss[n - 1])
  {
    var n := |ss| - 1;
    var a', a := Decisions(cap, ss[..n]), Decisions(cap, ss);
    assert a[..n] == a';
    CountPrefix(a', a, i, n);
    assert a'[n - 1] == (Tokens(cap, ss[..n]) >= 1.0);
  }

  /** Exactness: the tokens found are the least slack over all windows that end there. */
  lemma {:induction false} TokensAreMinimum(cap: real, ss: seq<real>) returns (tight: nat)
    requires ss != []
    ensures forall i :: 0 <= i < |ss| ==> Tokens(cap, ss) <= Slack(cap, ss, i)
    ensures tight < |ss| && Tokens(cap, ss) == Slack(cap, ss, tight)
    decreases |ss|
  {
    var n := |ss| - 1;
    if n == 0 {
      tight := 0;
    } else {
      var t := TokensAreMinimum(cap, ss[..n]);
      forall i | 0 <= i < n
        ensures Slack(cap, ss, i) == Slack(cap, ss[..n], i) - Spent(Tokens(cap, ss[..n])) + (ss[n] - ss[n - 1])
      {
        SlackStep(cap, ss, i);
      }
      tight := if Tokens(cap, ss) == cap then n else t;
    }
  }

  /** What may be admitted in the window from request i to request j. */
  function Allowance(cap: real, ss: seq<real>, i: nat, j: nat): real
    requires i < |ss| && j < |ss|
  {
    cap + (ss[j] - ss[i])
  }

  lemma DecisionsUpTo(cap: real, ss: seq<real>, j: nat)
    requires j < |ss|
    ensures Decisions(cap, ss)[..j + 1] == Decisions(cap, ss[..j + 1])
    ensures Decisions(cap, ss)[j] <==> Tokens(cap, ss[..j + 1]) >= 1.0
  {
    DecisionsPrefix(cap, ss, j + 1);
    assert Decisions(cap, ss)[j] == Decisions(cap, ss)[..j + 1][j];
  }

  /** The bucket admits a request exactly when every window ending at it stays within the
      allowance. */
  lemma AdmitsIffAllWindowsFit(cap: real, ss: seq<real>, j: nat)
    requires j < |ss|
    ensures var a := Decisions(cap, ss);
            a[j] <==> forall i :: 0 <= i <= j ==> Count(a, i, j) as real + 1.0 <= Allowance(cap, ss, i, j)
  {
    var us := ss[..j + 1];
    DecisionsUpTo(cap, ss, j);
    var tight := TokensAreMinimum(cap, us);
    forall i | 0 <= i <= j
      ensures Slack(cap, us, i) == Allowance(cap, ss, i, j) - Count(Decisions(cap, ss), i, j) as real
    {
      CountPrefix(Decisions(cap, us), Decisions(cap, ss), i, j);
    }
  }

  /** A policy keeps to the allowance when no window ending at a request it admits takes
      more than a full bucket and the supply. */
  ghost predicate Obeys(cap: real, ss: seq<real>, a: seq<bool>) {
    && |a| == |ss|
    && forall j, i :: 0 <= i <= j < |ss| && a[j] ==>
         Count(a, i, j) as real + 1.0 <= Allowance(cap, ss, i, j)
  }

  lemma DecisionsObey(cap: real, ss: seq<real>)
    ensures Obeys(cap, ss, Decisions(cap, ss))
  {
    forall j | 0 <= j < |ss|
      ensures Decisions(cap, ss)[j] ==> forall i :: 0 <= i <= j ==>
        Count(Decisions(cap, ss), i, j) as real + 1.0 <= Allowance(cap, ss, i, j)
    {
      AdmitsIffAllWindowsFit(cap, ss, j);
    }
  }

  /** Optimality: no policy that keeps to the allowance has admitted more, after any number
      of requests. */
  lemma {:induction false} NoPolicyAdmitsMore(cap: real, ss: seq<real>, other: seq<bool>, n: nat)
    requires Obeys(cap, ss, other) && n <= |ss|
    ensures Count(other, 0, n) <= Count(Decisions(cap, ss), 0, n)
    decreases n
  {
    var a := Decisions(cap, ss);
    if n > 0 {
      var j := n - 1;
      NoPolicyAdmitsMore(cap, ss, other, j);
      if other[j] && !a[j] && Count(other, 0, j) == Count(a, 0, j) {
        AdmitsIffAllWindowsFit(cap, ss, j);
        var i :| 0 <= i <= j && Count(a, i, j) as real + 1.0 > Allowance(cap, ss, i, j);
        NoPolicyAdmitsMore(cap, ss, other, i);
        CountSplit(a, 0, i, j);
        CountSplit(other, 0, i, j);
        assert false;
      }
    }
  }

  /** With a supply that never shrinks, any stretch of requests gets at most its allowance. */
  lemma {:induction false} BurstBound(cap: real, ss: seq<real>, i: nat, j: nat)
    requires i <= j < |ss| && cap >= 0.0
    requires forall k, l :: 0 <= k <= l < |ss| ==> ss[k] <= ss[l]
    ensures Count(Decisions(cap, ss), i, j + 1) as real <= Allowance(cap, ss, i, j)
    decreases j
  {
    if Decisions(cap, ss)[j] {
      AdmitsIffAllWindowsFit(cap, ss, j);
    } else if i < j {
      BurstBound(cap, ss, i, j - 1);
    } else {
      assert Count(Decisions(cap, ss), i, i) == 0;
    }
  }
}
