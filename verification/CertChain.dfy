/** Completing a certificate chain from a pool of possible issuers. */
module CertChain {
  import opened Sequences

  datatype Validity = ValidityGood | ErrorInvalidCA

  /** What the provider says about certificates. */
  datatype Provider<!Cert> = Provider(isSelfSigned: Cert -> bool, isIssuerOf: (Cert, Cert) -> bool)

  /** The position of the first certificate of the pool that issued `c`, or -1. */
  function FirstIssuer<Cert>(p: Provider<Cert>, pool: seq<Cert>, c: Cert): (at: int)
    ensures -1 <= at < |pool|
    ensures at >= 0 ==> p.isIssuerOf(pool[at], c) && forall n :: 0 <= n < at ==> !p.isIssuerOf(pool[n], c)
    ensures at < 0 ==> forall n :: 0 <= n < |pool| ==> !p.isIssuerOf(pool[n], c)
  {
    if pool == [] then -1
    else if p.isIssuerOf(pool[0], c) then 0
    else
      var rest := FirstIssuer(p, pool[1..], c);
      if rest < 0 then -1 else rest + 1
  }

  /** Follow the first issuers from the end of `out`. */
  function Walk<Cert(==)>(p: Provider<Cert>, out: seq<Cert>, pool: seq<Cert>): (r: (seq<Cert>, seq<Cert>, Validity))
    requires out != []
    ensures r.0 != []
    decreases |pool|
  {
    var last := out[|out| - 1];
    if p.isSelfSigned(last) then (out, pool, ValidityGood)
    else
      var at := FirstIssuer(p, pool, last);
      if at < 0 then (out, pool, ErrorInvalidCA)
      else if pool[at] in out then (out, pool, ValidityGood)
      else Walk(p, out + [pool[at]], Without(pool, at))
  }

  predicate Linked<Cert>(p: Provider<Cert>, chain: seq<Cert>) {
    forall i :: 0 <= i < |chain| - 1 ==> p.isIssuerOf(chain[i + 1], chain[i]) && !p.isSelfSigned(chain[i])
  }

  /** What the loop keeps: a linked chain without repeats, and no certificate gained or lost. */
  predicate Partial<Cert(==)>(p: Provider<Cert>, out: seq<Cert>, pool: seq<Cert>, first: Cert, all: seq<Cert>) {
    && out != [] && out[0] == first && Linked(p, out) && NoRepeats(out)
    && multiset(out[1..]) + multiset(pool) == multiset(all)
  }

  lemma {:induction false} Extend<Cert>(p: Provider<Cert>, out: seq<Cert>, pool: seq<Cert>, first: Cert,
        all: seq<Cert>, at: nat)
    requires Partial(p, out, pool, first, all) && at < |pool|
    requires p.isIssuerOf(pool[at], out[|out| - 1]) && !p.isSelfSigned(out[|out| - 1]) && pool[at] !in out
    ensures Partial(p, out + [pool[at]], Without(pool, at), first, all)
  {
    var next := pool[at];
    assert pool == pool[..at] + ([next] + pool[at + 1..]);
    assert (out + [next])[1..] == out[1..] + [next];
  }

  /** The certificates that are not used. */
  function Left<Cert(==)>(p: Provider<Cert>, chain: seq<Cert>, issuers: seq<Cert>): seq<Cert>
    requires chain != []
  {
    Walk(p, [chain[0]], issuers + chain[1..]).1
  }

  method ChainComplete<Cert(==)>(p: Provider<Cert>, chain: seq<Cert>, issuers: seq<Cert>)
    returns (out: seq<Cert>, result: Validity)
    requires chain != []
    ensures (out, Left(p, chain, issuers), result) == Walk(p, [chain[0]], issuers + chain[1..])
    // the chain: from the primary certificate, each certificate issuing the one before it, none twice;
    // its issuers come out of the pool, and what was not used is left
    ensures Partial(p, out, Left(p, chain, issuers), chain[0], issuers + chain[1..])
    ensures var last, left := out[|out| - 1], Left(p, chain, issuers);
            if result == ErrorInvalidCA then !p.isSelfSigned(last) && FirstIssuer(p, left, last) < 0
            else p.isSelfSigned(last) || (FirstIssuer(p, left, last) >= 0 && left[FirstIssuer(p, left, last)] in out)
  {
    out := [chain[0]];
    var pool := issuers + chain[1..];
    ghost var left := pool;
    assert out[1..] == [];
    result := ValidityGood;
    while !p.isSelfSigned(out[|out| - 1])
      invariant Partial(p, out, pool, chain[0], issuers + chain[1..])
      invariant left == pool && result == ValidityGood
      invariant Walk(p, out, pool) == Walk(p, [chain[0]], issuers + chain[1..])
      decreases |pool|
    {
      // who issued the last one?
      var at := FindIssuer(p, pool, out[|out| - 1]);
      if at == -1 {
        result := ErrorInvalidCA;
        break;
      }
      hide Linked, NoRepeats;
      // nobody issues twice
      var next := pool[at];
      pool := Without(pool, at);
      // an issuer that was there before ends the walk
      if next in out { break; }
      Extend(p, out, left, chain[0], issuers + chain[1..], at);
      out := out + [next];
      left := pool;
    }
  }

  method FindIssuer<Cert>(p: Provider<Cert>, pool: seq<Cert>, c: Cert) returns (at: int)
    ensures at == FirstIssuer(p, pool, c)
  {
    at := -1;
    for n := 0 to |pool|
      invariant forall k :: 0 <= k < n ==> !p.isIssuerOf(pool[k], c)
    {
      if p.isIssuerOf(pool[n], c) {
        return n;
      }
    }
  }

  // ------------------------------------------------------------------ which issuer is taken

  /** What is left of `all`: whatever stood before a remaining certificate is before it still, or in the chain. */
  ghost predicate Remains<Cert>(all: seq<Cert>, pool: seq<Cert>, out: seq<Cert>) {
    forall at :: 0 <= at < |pool| ==> HasPlace(all, pool, out, at)
  }

  ghost predicate HasPlace<Cert>(all: seq<Cert>, pool: seq<Cert>, out: seq<Cert>, at: nat)
    requires at < |pool|
  {
    exists n :: 0 <= n < |all| && all[n] == pool[at] && Accounted(all[..n], pool[..at], out)
  }

  ghost predicate Accounted<Cert>(before: seq<Cert>, left: seq<Cert>, out: seq<Cert>) {
    forall x :: x in before ==> x in left || x in out
  }

  /** The issuer at `i` + 1 was supplied, and whoever else was supplied before it and issued the certificate
      at `i` is in the chain before it. */
  ghost predicate FirstTaken<Cert>(p: Provider<Cert>, all: seq<Cert>, chain: seq<Cert>, i: nat)
    requires i + 1 < |chain|
  {
    exists n :: 0 <= n < |all| && all[n] == chain[i + 1] &&
                forall k :: 0 <= k < n && p.isIssuerOf(all[k], chain[i]) ==> all[k] in chain[..i + 1]
  }

  lemma {:induction false} RemainsNext<Cert>(all: seq<Cert>, pool: seq<Cert>, out: seq<Cert>, at: nat)
    requires at < |pool| && Remains(all, pool, out)
    ensures Remains(all, Without(pool, at), out + [pool[at]])
  {
    var rest, chain := Without(pool, at), out + [pool[at]];
    forall j | 0 <= j < |rest|
      ensures HasPlace(all, rest, chain, j)
    {
      var was := if j < at then j else j + 1;
      assert HasPlace(all, pool, out, was);
      var n :| 0 <= n < |all| && all[n] == pool[was] && Accounted(all[..n], pool[..was], out);
      forall x | x in all[..n] && x !in chain
        ensures x in rest[..j]
      {
        var q :| 0 <= q < was && pool[q] == x;
        assert chain[|out|] == pool[at];
        assert rest[..j][if q < at then q else q - 1] == x;
      }
    }
  }

  /** Every issuer in a completed chain is the first in the pool that is not used yet. */
  lemma {:induction false} FirstIssuersAreTaken<Cert>(p: Provider<Cert>, all: seq<Cert>, out: seq<Cert>,
        pool: seq<Cert>)
    requires out != [] && Remains(all, pool, out)
    ensures var chain := Walk(p, out, pool).0;
            && out <= chain
            && forall i :: |out| - 1 <= i < |chain| - 1 ==> FirstTaken(p, all, chain, i)
    decreases |pool|
  {
    hide Remains, FirstTaken;
    var last := out[|out| - 1];
    var at := FirstIssuer(p, pool, last);
    if p.isSelfSigned(last) || at < 0 || pool[at] in out {
      // the walk ends here
    } else {
      RemainsNext(all, pool, out, at);
      FirstIssuersAreTaken(p, all, out + [pool[at]], Without(pool, at));
      var chain := Walk(p, out, pool).0;
      TakenAt(p, all, out, pool, at, chain);
    }
  }

  lemma {:induction false} TakenAt<Cert>(p: Provider<Cert>, all: seq<Cert>, out: seq<Cert>, pool: seq<Cert>, at: nat,
        chain: seq<Cert>)
    requires out != [] && Remains(all, pool, out) && at < |pool| && out + [pool[at]] <= chain
    requires forall n :: 0 <= n < at ==> !p.isIssuerOf(pool[n], out[|out| - 1])
    ensures FirstTaken(p, all, chain, |out| - 1)
  {
    assert HasPlace(all, pool, out, at);
    var n :| 0 <= n < |all| && all[n] == pool[at] && Accounted(all[..n], pool[..at], out);
    assert chain[..|out|] == out && chain[|out|] == pool[at];
    forall k | 0 <= k < n && p.isIssuerOf(all[k], chain[|out| - 1])
      ensures all[k] in out
    {
      assert all[..n][k] == all[k];
    }
  }

  /** So it is for the chain that is completed from the pool. */
  lemma {:induction false} IssuersOfChain<Cert>(p: Provider<Cert>, first: Cert, all: seq<Cert>)
    ensures var chain := Walk(p, [first], all).0;
            chain[0] == first && forall i :: 0 <= i < |chain| - 1 ==> FirstTaken(p, all, chain, i)
  {
    forall at | 0 <= at < |all|
      ensures HasPlace(all, all, [first], at)
    {
      assert Accounted(all[..at], all[..at], [first]);
    }
    hide Remains, FirstTaken;
    FirstIssuersAreTaken(p, all, [first], all);
  }

  // ------------------------------------------------------------------ when "good" means complete

  /** If no certificate was supplied twice, a good result means the chain ends in a self-signed one. */
  lemma {:induction false} GoodIsComplete<Cert>(p: Provider<Cert>, out: seq<Cert>, pool: seq<Cert>)
    requires out != [] && NoRepeats(out + pool)
    ensures var (chain, left, result) := Walk(p, out, pool);
            result == ValidityGood ==> p.isSelfSigned(chain[|chain| - 1])
    decreases |pool|
  {
    hide NoRepeats, Without, FirstIssuer;
    var last := out[|out| - 1];
    var at := FirstIssuer(p, pool, last);
    if p.isSelfSigned(last) || at < 0 {
      // the walk ends here
    } else {
      NotThereYet(out, pool, at);
      MoveKeepsDistinct(out, pool, at);
      GoodIsComplete(p, out + [pool[at]], Without(pool, at));
    }
  }

  lemma {:induction false} NotThereYet<T>(out: seq<T>, pool: seq<T>, at: nat)
    requires at < |pool| && NoRepeats(out + pool)
    ensures pool[at] !in out
  {
    assert (out + pool)[|out| + at] == pool[at];
    forall i | 0 <= i < |out|
      ensures out[i] != pool[at]
    {
      assert (out + pool)[i] == out[i];
    }
  }

  lemma {:induction false} MoveKeepsDistinct<T>(out: seq<T>, pool: seq<T>, at: nat)
    requires at < |pool| && NoRepeats(out + pool)
    ensures NoRepeats(out + [pool[at]] + Without(pool, at))
  {
    var s, t := out + pool, out + [pool[at]] + Without(pool, at);
    forall i, j | 0 <= i < j < |t|
      ensures t[i] != t[j]
    {
      assert t[i] == s[Origin(|out|, at, i)] && t[j] == s[Origin(|out|, at, j)];
    }
  }

  /** Where position `i` was before element `at` of the pool moved to position `n`. */
  function Origin(n: nat, at: nat, i: nat): nat {
    if i < n then i else if i == n then n + at else if i <= n + at then i - 1 else i
  }

  /** A good result means that the chain ends in a self-signed certificate. */
  ghost predicate GoodMeansComplete<Cert>(p: Provider<Cert>, first: Cert, pool: seq<Cert>) {
    var (chain, left, result) := Walk(p, [first], pool);
    result == ValidityGood ==> p.isSelfSigned(chain[|chain| - 1])
  }

  /** Nobody signs himself, and `x` issued everyone. */
  function OneIssuer<Cert(==)>(x: Cert): Provider<Cert> {
    Provider((c: Cert) => false, (a: Cert, b: Cert) => a == x)
  }

  lemma {:induction false} OneIssuerFound<Cert>(x: Cert, pool: seq<Cert>, c: Cert)
    requires x in pool
    ensures var at := FirstIssuer(OneIssuer(x), pool, c); at >= 0 && pool[at] == x
  {
    var n :| 0 <= n < |pool| && pool[n] == x;
    assert OneIssuer(x).isIssuerOf(pool[n], c);
  }

  /** With a certificate that is supplied twice, completion can stop there and call the result good. */
  lemma {:induction false} RepeatedStops<Cert>(first: Cert, pool: seq<Cert>, x: Cert, i: nat, j: nat)
    requires i < j < |[first] + pool| && ([first] + pool)[i] == ([first] + pool)[j] == x
    ensures !GoodMeansComplete(OneIssuer(x), first, pool)
  {
    var p := OneIssuer(x);
    assert pool[j - 1] == x;
    OneIssuerFound(x, pool, first);
    var at := FirstIssuer(p, pool, first);
    if x != first {
      // the first one is taken, another one is left
      var left := Without(pool, at);
      assert pool[i - 1] == x && pool[j - 1] == x;
      assert left[if j - 1 < at then j - 1 else if j - 1 > at then j - 2 else i - 1] == x;
      OneIssuerFound(x, left, x);
      assert [first] + [pool[at]] == [first, x];
      assert Walk(p, [first, x], left).2 == ValidityGood && Walk(p, [first, x], left).0 == [first, x];
      assert Walk(p, [first], pool) == Walk(p, [first, x], left);
    } else {
      assert Walk(p, [first], pool) == ([first], pool, ValidityGood);
    }
  }

  /** A good result means a complete chain, whatever the provider says of the certificates, if and only
      if no certificate was supplied twice. */
  lemma {:induction false} GoodIsCompleteIff<Cert(!new)>(first: Cert, pool: seq<Cert>)
    ensures NoRepeats([first] + pool) <==> forall p: Provider<Cert> :: GoodMeansComplete(p, first, pool)
  {
    if NoRepeats([first] + pool) {
      forall p: Provider<Cert>
        ensures GoodMeansComplete(p, first, pool)
      {
        GoodIsComplete(p, [first], pool);
      }
    } else {
      var i, j :| 0 <= i < j < |[first] + pool| && ([first] + pool)[i] == ([first] + pool)[j];
      RepeatedStops(first, pool, ([first] + pool)[i], i, j);
    }
  }

  /** The smallest such case: with two certificates that issued each other, and the first supplied
      again as an issuer, completion stops at the second, which is not self-signed, and the
      result is still good. */
  lemma {:induction false} GoodButIncomplete()
    ensures var p := Provider((c: int) => false, (a: int, b: int) => a != b);
            Walk(p, [1], [2, 1]) == ([1, 2], [1], ValidityGood) && !p.isSelfSigned(2)
  {
    var p := Provider((c: int) => false, (a: int, b: int) => a != b);
    assert FirstIssuer(p, [2, 1], 1) == 0;
    assert Without([2, 1], 0) == [1] && [1] + [2] == [1, 2];
    assert FirstIssuer(p, [1], 2) == 0;
    assert Walk(p, [1, 2], [1]) == ([1, 2], [1], ValidityGood);
  }
}
