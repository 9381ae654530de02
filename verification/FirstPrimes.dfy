/**
 The numbers beside the constants of SHA-256 are the first 64 primes, as section 4.2.2 of
 FIPS 180-4 says: by trial division below the square of 19, part by part of the table.
 */
module FirstPrimes {
  import opened Fips180

  ghost predicate IsPrime(n: nat) { n >= 2 && forall d :: 2 <= d < n ==> n % d != 0 }

  predicate DividedBySmall(n: nat) {
    n % 2 == 0 || n % 3 == 0 || n % 5 == 0 || n % 7 == 0 || n % 11 == 0 || n % 13 == 0 || n % 17 == 0
  }

  predicate Small(n: nat) { n == 2 || n == 3 || n == 5 || n == 7 || n == 11 || n == 13 || n == 17 }

  /** Trial division, enough below the square of 19. */
  predicate Trial(n: nat) { Small(n) || (n >= 2 && !DividedBySmall(n)) }

  lemma ProductAbove(d: nat, q: nat)
    requires d >= 19 && q >= 19
    ensures d * q >= 361
  {
    assert d * q >= 19 * q;
  }

  /** Of a divisor and its quotient one is below 19. */
  lemma LowDivisor(d: nat, n: nat) returns (e: nat, r: nat)
    requires 2 <= d < n < 361 && n % d == 0
    ensures 2 <= e < 19 && n == e * r
  {
    var q := n / d;
    assert n == d * q;
    if d < 19 {
      e, r := d, q;
    } else {
      e, r := q, d;
      if q >= 19 {
        ProductAbove(d, q);
        assert false;
      }
      assert q != 0 && q != 1;
    }
  }

  lemma Multiples(m: nat)
    ensures 2 * m % 2 == 0 && 3 * m % 3 == 0
  {}

  lemma OddMultiples(m: nat)
    ensures 5 * m % 5 == 0 && 7 * m % 7 == 0
  {}

  lemma LargerMultiples(m: nat)
    ensures 11 * m % 11 == 0 && 13 * m % 13 == 0 && 17 * m % 17 == 0
  {}

  lemma SmallDivides(p: nat, r: nat, n: nat)
    requires Small(p) && n == p * r
    ensures DividedBySmall(n)
  {
    Multiples(r);
    OddMultiples(r);
    LargerMultiples(r);
  }

  lemma TimesAgain(p: nat, h: nat, r: nat)
    ensures p * h * r == p * (h * r)
  {}

  /** Every number from 2 to 18 has one of the seven primes as a divisor, and so have its multiples. */
  lemma LowDivides(e: nat, r: nat, n: nat)
    requires 2 <= e < 19 && n == e * r
    ensures DividedBySmall(n)
  {
    hide DividedBySmall;
    if e % 2 == 0 {
      var h := e / 2;
      TimesAgain(2, h, r);
      SmallDivides(2, h * r, n);
    } else if e % 3 == 0 {
      var h := e / 3;
      TimesAgain(3, h, r);
      SmallDivides(3, h * r, n);
    } else {
      SmallDivides(e, r, n);
    }
  }

  lemma TrialIsPrime(n: nat)
    requires n < 361
    ensures Trial(n) <==> IsPrime(n)
  {
    hide DividedBySmall;
    if Small(n) {
      SmallIsPrime(n);
    } else if IsPrime(n) {
      if DividedBySmall(n) { DividedIsComposite(n); }
    } else if n >= 2 {
      var d :| 2 <= d < n && n % d == 0;
      var e, r := LowDivisor(d, n);
      LowDivides(e, r, n);
    }
  }

  lemma SmallIsPrime(n: nat)
    requires Small(n)
    ensures IsPrime(n)
  {}

  lemma DividedIsComposite(n: nat)
    requires DividedBySmall(n) && !Small(n) && n >= 2
    ensures !IsPrime(n)
  {
    var p := if n % 2 == 0 then 2 else if n % 3 == 0 then 3 else if n % 5 == 0 then 5 else if n % 7 == 0 then 7
             else if n % 11 == 0 then 11 else if n % 13 == 0 then 13 else 17;
    assert n % p == 0 && 2 <= p;
    assert p < n by { if n < p { SmallMultiple(n, p); } }
  }

  lemma SmallMultiple(n: nat, p: nat)
    requires 0 < n < p
    ensures n % p != 0
  {}

  function PrimesIn(t: Table): set<nat> { if t.End? then {} else {t.prime} + PrimesIn(t.rest) }

  predicate Increases(t: Table, last: nat) { t.End? || (last < t.prime && Increases(t.rest, t.prime)) }

  function LastPrime(t: Table, last: nat): nat { if t.End? then last else LastPrime(t.rest, t.prime) }

  /** What two and three leave: one before or behind a multiple of six. */
  lemma AroundSix(n: nat, q: nat)
    requires n % 2 != 0 && n % 3 != 0 && 6 * q <= n < 6 * (q + 1)
    ensures n == 6 * q + 1 || n == 6 * q + 5
  {
    Multiples(3 * q);
    Multiples(3 * q + 1);
    Multiples(3 * q + 2);
    Multiples(2 * q);
    Multiples(2 * q + 1);
  }

  /** The candidates in ten multiples of six. */
  lemma Candidates(n: nat, q: nat)
    requires n % 2 != 0 && n % 3 != 0 && 6 * q <= n < 6 * (q + 10)
    ensures || n == 6 * q + 1 || n == 6 * q + 5 || n == 6 * q + 7 || n == 6 * q + 11 || n == 6 * q + 13 || n == 6 * q + 17
            || n == 6 * q + 19 || n == 6 * q + 23 || n == 6 * q + 25 || n == 6 * q + 29 || n == 6 * q + 31 || n == 6 * q + 35
            || n == 6 * q + 37 || n == 6 * q + 41 || n == 6 * q + 43 || n == 6 * q + 47 || n == 6 * q + 49 || n == 6 * q + 53
            || n == 6 * q + 55 || n == 6 * q + 59
  {
    AroundSix(n, n / 6);
  }

  lemma Primes0(n: nat)
    requires 1 < n <= 19
    ensures Trial(n) <==> n == 2 || n == 3 || n == 5 || n == 7 || n == 11 || n == 13 || n == 17 || n == 19
  {}

  lemma Primes8(n: nat)
    requires 19 < n <= 53
    ensures Trial(n) <==> n == 23 || n == 29 || n == 31 || n == 37 || n == 41 || n == 43 || n == 47 || n == 53
  {
    if n % 2 != 0 && n % 3 != 0 { Candidates(n, 3); }
  }

  lemma Primes16(n: nat)
    requires 53 < n <= 89
    ensures Trial(n) <==> n == 59 || n == 61 || n == 67 || n == 71 || n == 73 || n == 79 || n == 83 || n == 89
  {
    if n % 2 != 0 && n % 3 != 0 { Candidates(n, 8); }
  }

  lemma Primes24(n: nat)
    requires 89 < n <= 131
    ensures Trial(n) <==> n == 97 || n == 101 || n == 103 || n == 107 || n == 109 || n == 113 || n == 127 || n == 131
  {
    if n % 2 != 0 && n % 3 != 0 { Candidates(n, 14); }
  }

  lemma Primes32(n: nat)
    requires 131 < n <= 173
    ensures Trial(n) <==> n == 137 || n == 139 || n == 149 || n == 151 || n == 157 || n == 163 || n == 167 || n == 173
  {
    if n % 2 != 0 && n % 3 != 0 { Candidates(n, 21); }
  }

  lemma Primes40(n: nat)
    requires 173 < n <= 223
    ensures Trial(n) <==> n == 179 || n == 181 || n == 191 || n == 193 || n == 197 || n == 199 || n == 211 || n == 223
  {
    if n % 2 != 0 && n % 3 != 0 { Candidates(n, 28); }
  }

  lemma Primes48(n: nat)
    requires 223 < n <= 263
    ensures Trial(n) <==> n == 227 || n == 229 || n == 233 || n == 239 || n == 241 || n == 251 || n == 257 || n == 263
  {
    if n % 2 != 0 && n % 3 != 0 { Candidates(n, 37); }
  }

  lemma Primes56(n: nat)
    requires 263 < n <= 311
    ensures Trial(n) <==> n == 269 || n == 271 || n == 277 || n == 281 || n == 283 || n == 293 || n == 307 || n == 311
  {
    if n % 2 != 0 && n % 3 != 0 { Candidates(n, 43); }
  }

  /** The prime before part `part` of the constants. */
  function Before(part: nat): nat
    requires part <= 8
  {
    match part
    case 0 => 1 case 1 => 19 case 2 => 53 case 3 => 89 case 4 => 131 case 5 => 173 case 6 => 223 case 7 => 263 case _ => 311
  }

  lemma PartsIncrease(part: nat)
    requires part < 8
    ensures Increases(Constants(part), Before(part)) && LastPrime(Constants(part), Before(part)) == Before(part + 1)
  {
    if part == 0 {
    } else if part == 1 {
    } else if part == 2 {
    } else if part == 3 {
    } else if part == 4 {
    } else if part == 5 {
    } else if part == 6 {
    } else {
      assert part == 7;
    }
  }

  lemma LowerPartsArePrimes(part: nat, n: nat)
    requires part < 4 && Before(part) < n <= Before(part + 1)
    ensures Trial(n) <==> n in PrimesIn(Constants(part))
  {
    hide Trial;
    match part
    case 0 => Primes0(n);
    case 1 => Primes8(n);
    case 2 => Primes16(n);
    case _ => Primes24(n);
  }

  lemma UpperPartsArePrimes(part: nat, n: nat)
    requires 4 <= part < 8 && Before(part) < n <= Before(part + 1)
    ensures Trial(n) <==> n in PrimesIn(Constants(part))
  {
    hide Trial;
    match part
    case 4 => Primes32(n);
    case 5 => Primes40(n);
    case 6 => Primes48(n);
    case _ => Primes56(n);
  }

  /** Part by part the rows hold exactly the primes of their range. */
  lemma PartsArePrimes(part: nat, n: nat)
    requires part < 8 && Before(part) < n <= Before(part + 1)
    ensures Trial(n) <==> n in PrimesIn(Constants(part))
  {
    hide Trial, PrimesIn, Constants, Before;
    if part < 4 { LowerPartsArePrimes(part, n); } else { UpperPartsArePrimes(part, n); }
  }

  lemma {:induction false} RowHasPrime(t: Table, i: nat)
    requires i < Rows(t)
    ensures RowAt(t, i).prime in PrimesIn(t)
  {
    if i > 0 { RowHasPrime(t.rest, i - 1); }
  }

  lemma {:induction false} PrimeHasRow(t: Table, n: nat) returns (i: nat)
    requires n in PrimesIn(t)
    ensures i < Rows(t) && RowAt(t, i).prime == n
  {
    if t.prime == n {
      i := 0;
    } else {
      i := PrimeHasRow(t.rest, n);
      i := i + 1;
    }
  }

  lemma {:induction false} RowsIncrease(t: Table, last: nat, i: nat)
    requires Increases(t, last) && i < Rows(t)
    ensures last < RowAt(t, i).prime <= LastPrime(t, last)
    ensures i + 1 < Rows(t) ==> RowAt(t, i).prime < RowAt(t, i + 1).prime
  {
    if i == 0 {
      LastIsLater(t.rest, t.prime);
    } else {
      RowsIncrease(t.rest, t.prime, i - 1);
    }
  }

  lemma {:induction false} LastIsLater(t: Table, last: nat)
    requires Increases(t, last)
    ensures last <= LastPrime(t, last)
  {
    if !t.End? { LastIsLater(t.rest, t.prime); }
  }

  lemma PrimesIncrease(t: nat)
    requires t < 64
    ensures Before(t / 8) < Prime(t) <= Before(t / 8 + 1)
    ensures t % 8 < 7 ==> Prime(t) < Prime(t + 1)
  {
    TableSizes();
    var part := t / 8;
    PartsIncrease(part);
    assert t % 8 < 7 ==> (t + 1) / 8 == part && (t + 1) % 8 == t % 8 + 1;
    hide Increases, LastPrime, Rows, Constants, Before;
    RowsIncrease(Constants(part), Before(part), t % 8);
  }

  lemma PrimesGoUp(t: nat)
    requires t + 1 < 64
    ensures Prime(t) < Prime(t + 1)
  {
    hide Prime, Before;
    PrimesIncrease(t);
    PrimesIncrease(t + 1);
    assert t % 8 == 7 ==> (t + 1) / 8 == t / 8 + 1;
  }

  function PartOf(n: nat): nat {
    if n <= 19 then 0 else if n <= 53 then 1 else if n <= 89 then 2 else if n <= 131 then 3
    else if n <= 173 then 4 else if n <= 223 then 5 else if n <= 263 then 6 else 7
  }

  lemma PrimeOfTable(n: nat) returns (t: nat)
    requires n <= 311 && IsPrime(n)
    ensures t < 64 && Prime(t) == n
  {
    var part := PartOf(n);
    TrialIsPrime(n);
    PartsArePrimes(part, n);
    TableSizes();
    hide PrimesIn, Rows, Trial;
    var i := PrimeHasRow(Constants(part), n);
    t := 8 * part + i;
    assert t / 8 == part && t % 8 == i;
  }

  lemma BeforeIncreases(part: nat)
    requires part <= 8
    ensures 1 <= Before(part) <= 311
  {}

  lemma TableIsPrime(t: nat)
    requires t < 64
    ensures IsPrime(Prime(t)) && Prime(t) <= 311
  {
    PrimesIncrease(t);
    BeforeIncreases(t / 8 + 1);
    TableSizes();
    var part := t / 8;
    hide PrimesIn, Rows, Trial, IsPrime;
    RowHasPrime(Constants(part), t % 8);
    PartsArePrimes(part, Prime(t));
    TrialIsPrime(Prime(t));
  }

  lemma {:induction false} PrimesOrdered(s: nat, t: nat)
    requires s < t < 64
    ensures Prime(s) < Prime(t)
  {
    hide Prime;
    PrimesGoUp(t - 1);
    if s < t - 1 { PrimesOrdered(s, t - 1); }
  }

  /** The primes beside the constants are the first 64 in increasing order: all there are up to the last of them. */
  lemma PrimesAreTheFirst(n: nat)
    ensures n <= Prime(63) && IsPrime(n) <==> exists t: nat :: t < 64 && Prime(t) == n
    ensures forall s: nat, t: nat :: s < t < 64 ==> Prime(s) < Prime(t)
  {
    LastIs311();
    hide Prime, IsPrime;
    if n <= 311 && IsPrime(n) { var t := PrimeOfTable(n); }
    forall t: nat | t < 64 ensures IsPrime(Prime(t)) && Prime(t) <= 311 { TableIsPrime(t); }
    forall s: nat, t: nat | s < t < 64 ensures Prime(s) < Prime(t) { PrimesOrdered(s, t); }
  }

  lemma LastIs311()
    ensures Prime(63) == 311
  {}
}
