/**
 * The four-round Feistel permutation behind planet names (pkg/phonemes/scrambler.go). The keyed hash is an arbitrary
 * function `prf`; nothing here depends on which one. The methods compute in fixed-width newtypes, so their
 * verification also shows that no uint32 expression wraps; by the ranges of `Rounds` and `Unrounds`, the casts to
 * uint16 lose nothing on the numbers that scrambling mixes, which are below 0xffff0000.
 */
module Scrambler {
  newtype word = x: int | 0 <= x < 0x1_0000_0000
  newtype half = x: int | 0 <= x < 0x1_0000
  newtype dword = x: int | 0 <= x < 0x1_0000_0000_0000_0000

  type Prf = (int, half) -> word

  const FEIN_DOMAIN: int := 0xffff_0000

  /** The two halves of a number being mixed. */
  datatype Halves = Halves(l: nat, r: nat)

  /** Even rounds work modulo 0xffff, odd ones modulo 0x10000. */
  function Modulus(j: int): nat {
    if j % 2 == 0 then 0xffff else 0x1_0000
  }

  /** Go's `uint16(x)`. */
  function Uint16(x: nat): (h: half)
    ensures x < 0x1_0000 ==> h as int == x
  {
    (x % 0x1_0000) as half
  }

  /** After `j` rounds the left half is a residue of round `j`'s modulus, the right half of the next one's. */
  ghost predicate InRange(j: int, h: Halves) {
    h.l < Modulus(j) && h.r < Modulus(j + 1)
  }

  ghost function Round(prf: Prf, j: int, h: Halves): (g: Halves)
    ensures InRange(j, h) ==> InRange(j + 1, g)
  {
    Halves(h.r, (prf(j, Uint16(h.r)) as int + h.l) % Modulus(j))
  }

  ghost function Unround(prf: Prf, j: int, g: Halves): (h: Halves)
    ensures InRange(j + 1, g) ==> InRange(j, h)
  {
    Halves((g.r + Modulus(j) - prf(j, Uint16(g.l)) as int % Modulus(j)) % Modulus(j), g.l)
  }

  /** Halves that are out of range to begin with are in range after two rounds. */
  ghost function Rounds(prf: Prf, j: nat, h: Halves): (g: Halves)
    ensures InRange(0, h) || j >= 2 ==> InRange(j, g)
    ensures j >= 1 ==> g.r < Modulus(j + 1)
  {
    if j == 0 then h else Round(prf, j - 1, Rounds(prf, j - 1, h))
  }

  ghost function Unrounds(prf: Prf, j: nat, g: Halves): (h: Halves)
    ensures InRange(j, g) || j >= 2 || (j == 1 && g.l < Modulus(1)) ==> InRange(0, h)
  {
    if j == 0 then g else Unrounds(prf, j - 1, Unround(prf, j - 1, g))
  }

  /** How the scrambler reads a number: high part right, low part left. */
  ghost function Unpack(m: nat): (h: Halves)
    ensures m < FEIN_DOMAIN ==> InRange(0, h)
  {
    Halves(m % 0xffff, m / 0xffff)
  }

  ghost function Pack(h: Halves): (m: nat)
    ensures InRange(0, h) ==> m < FEIN_DOMAIN
  {
    h.r * 0xffff + h.l
  }

  /** The ciphertext layout swaps the halves, except that a right half of 0xffff only fits in the high part. */
  ghost function PackMixed(h: Halves): (m: nat)
    ensures InRange(4, h) ==> m < FEIN_DOMAIN
  {
    if h.r == 0xffff then h.r * 0xffff + h.l else h.l * 0xffff + h.r
  }

  ghost function UnpackMixed(m: nat): (h: Halves)
    ensures m < FEIN_DOMAIN ==> InRange(4, h)
  {
    if m / 0xffff == 0xffff then Halves(m % 0xffff, m / 0xffff) else Halves(m / 0xffff, m % 0xffff)
  }

  ghost function Mixed(prf: Prf, m: nat): (r: nat)
    ensures r < FEIN_DOMAIN
  {
    PackMixed(Rounds(prf, 4, Unpack(m)))
  }

  ghost function Unmixed(prf: Prf, m: nat): (r: nat)
    ensures r < FEIN_DOMAIN
  {
    Pack(Unrounds(prf, 4, UnpackMixed(m)))
  }

  // ---------------------------------------------------------------- the program

  method Fein(prf: Prf, m: word) returns (c: word)
    ensures c as int == Mixed(prf, m as int)
  {
    var l, r := m % 0xffff, m / 0xffff;
    ghost var start := Unpack(m as int);
    assert start == Halves(l as int, r as int);
    hide Unpack, Mixed;
    var j := 0;
    while j < 4
      invariant 0 <= j <= 4 && l <= 0x1_0001 && r <= 0x1_0001
      invariant Halves(l as int, r as int) == Rounds(prf, j, start)
    {
      hide Rounds, InRange, Round;
      NextRound(prf, j, start);
      var f: dword := prf(j, (r % 0x1_0000) as half) as dword + l as dword;
      var tmp := Reduce(prf, j, l, r, f);
      l := r;
      r := tmp;
      j := j + 1;
    }
    MixedIs(prf, m);
    hide Rounds;
    if r == 0xffff {
      return r * 0xffff + l;
    }
    return l * 0xffff + r;
  }

  /** The right half after round `j`, from the 64-bit sum. */
  method Reduce(ghost prf: Prf, j: nat, ghost l: word, ghost r: word, f: dword) returns (tmp: word)
    requires f as int == prf(j, Uint16(r as int)) as int + l as int
    ensures tmp < 0x1_0000 && Halves(r as int, tmp as int) == Round(prf, j, Halves(l as int, r as int))
  {
    if j % 2 == 0 {
      tmp := (f % 0xffff) as word;
    } else {
      tmp := (f % 0x1_0000) as word;
    }
  }

  method Fynd(prf: Prf, m: word) returns (c: word)
    ensures c as int == Unmixed(prf, m as int)
  {
    var l, r := m % 0xffff, m / 0xffff;
    if r != 0xffff {
      l, r := r, l;
    }
    ghost var start := UnpackMixed(m as int);
    assert start == Halves(l as int, r as int);
    hide UnpackMixed, Unmixed;
    var j := 4;
    while j > 0
      invariant 0 <= j <= 4 && l <= 0x1_0001 && r <= 0x1_0001
      invariant Unrounds(prf, j, Halves(l as int, r as int)) == Unrounds(prf, 4, start)
    {
      NextUnround(prf, j, Halves(l as int, r as int));
      hide Unrounds, InRange, Unround;
      var f := prf(j - 1, (l % 0x1_0000) as half);
      var tmp := Subtract(prf, j - 1, l, r, f);
      r := l;
      l := tmp;
      j := j - 1;
    }
    UnmixedIs(prf, m);
    return r * 0xffff + l;
  }

  lemma NextRound(prf: Prf, j: nat, h: Halves)
    ensures Rounds(prf, j + 1, h) == Round(prf, j, Rounds(prf, j, h))
  {
  }

  lemma NextUnround(prf: Prf, j: nat, g: Halves)
    requires j > 0
    ensures Unrounds(prf, j, g) == Unrounds(prf, j - 1, Unround(prf, j - 1, g))
  {
  }

  /** The left half before round `j`, from what the round added to it. */
  method Subtract(ghost prf: Prf, j: nat, ghost l: word, r: word, f: word) returns (tmp: word)
    requires r <= 0x1_0001 && f == prf(j, Uint16(l as int))
    ensures tmp < 0x1_0000 && Halves(tmp as int, l as int) == Unround(prf, j, Halves(l as int, r as int))
  {
    if j % 2 == 0 {
      tmp := (r + 0xffff - (f % 0xffff)) % 0xffff;
    } else {
      tmp := (r + 0x1_0000 - (f % 0x1_0000)) % 0x1_0000;
    }
  }

  lemma MixedIs(prf: Prf, m: word)
    ensures var h := Rounds(prf, 4, Unpack(m as int)); InRange(4, h) && Mixed(prf, m as int) == PackMixed(h)
  {
  }

  lemma UnmixedIs(prf: Prf, m: word)
    ensures var h := Unrounds(prf, 4, UnpackMixed(m as int)); InRange(0, h) && Unmixed(prf, m as int) == Pack(h)
  {
  }

  /** Galaxies and stars keep their number; planets are permuted among themselves. */
  ghost function Scrambled(prf: Prf, m: word): word {
    if m < 0x1_0000 then m else (Mixed(prf, m as int - 0x1_0000) + 0x1_0000) as word
  }

  ghost function Unscrambled(prf: Prf, m: word): word {
    if m < 0x1_0000 then m else (Unmixed(prf, m as int - 0x1_0000) + 0x1_0000) as word
  }

  method Scramble(prf: Prf, m: word) returns (c: word)
    ensures c == Scrambled(prf, m)
  {
    if m < 0x1_0000 {
      return m;
    }
    var f := Fein(prf, m - 0x1_0000);
    return f + 0x1_0000;
  }

  method Unscramble(prf: Prf, m: word) returns (c: word)
    ensures c == Unscrambled(prf, m)
  {
    if m < 0x1_0000 {
      return m;
    }
    var f := Fynd(prf, m - 0x1_0000);
    return f + 0x1_0000;
  }

  // ---------------------------------------------------------------- it is a permutation

  lemma RemainderF(x: int, q: int, c: int)
    requires x == q * 0xffff + c && 0 <= c < 0xffff
    ensures x % 0xffff == c
  {
  }

  lemma Remainder16(x: int, q: int, c: int)
    requires x == q * 0x1_0000 + c && 0 <= c < 0x1_0000
    ensures x % 0x1_0000 == c
  {
  }

  lemma ModInverseF(r: int, f: int, l: int)
    requires 0 <= l < 0xffff && 0 <= r < 0xffff && 0 <= f
    ensures r == (f + l) % 0xffff <==> l == (r + 0xffff - f % 0xffff) % 0xffff
  {
    var q, a := f / 0xffff, f % 0xffff;
    if a + l < 0xffff { RemainderF(f + l, q, a + l); } else { RemainderF(f + l, q + 1, a + l - 0xffff); }
    if a <= r { RemainderF(r + 0xffff - a, 1, r - a); } else { RemainderF(r + 0xffff - a, 0, r + 0xffff - a); }
  }

  lemma ModInverse16(r: int, f: int, l: int)
    requires 0 <= l < 0x1_0000 && 0 <= r < 0x1_0000 && 0 <= f
    ensures r == (f + l) % 0x1_0000 <==> l == (r + 0x1_0000 - f % 0x1_0000) % 0x1_0000
  {
    var q, a := f / 0x1_0000, f % 0x1_0000;
    if a + l < 0x1_0000 { Remainder16(f + l, q, a + l); } else { Remainder16(f + l, q + 1, a + l - 0x1_0000); }
    if a <= r { Remainder16(r + 0x1_0000 - a, 1, r - a); } else { Remainder16(r + 0x1_0000 - a, 0, r + 0x1_0000 - a); }
  }

  /** One round's addition is undone by the subtraction in the opposite round. */
  lemma ModInverse(j: int, r: int, f: int, l: int)
    requires 0 <= l < Modulus(j) && 0 <= r < Modulus(j) && 0 <= f
    ensures r == (f + l) % Modulus(j) <==> l == (r + Modulus(j) - f % Modulus(j)) % Modulus(j)
  {
    if j % 2 == 0 { ModInverseF(r, f, l); } else { ModInverse16(r, f, l); }
  }

  lemma UnroundRound(prf: Prf, j: int, h: Halves)
    requires InRange(j, h)
    ensures Unround(prf, j, Round(prf, j, h)) == h
  {
    ModInverse(j, Round(prf, j, h).r, prf(j, Uint16(h.r)) as int, h.l);
  }

  lemma RoundUnround(prf: Prf, j: int, g: Halves)
    requires InRange(j + 1, g)
    ensures Round(prf, j, Unround(prf, j, g)) == g
  {
    ModInverse(j, g.r, prf(j, Uint16(g.l)) as int, Unround(prf, j, g).l);
  }

  lemma {:induction false} UnroundsRounds(prf: Prf, j: nat, h: Halves)
    requires InRange(0, h)
    ensures Unrounds(prf, j, Rounds(prf, j, h)) == h
  {
    if j > 0 {
      UnroundRound(prf, j - 1, Rounds(prf, j - 1, h));
      UnroundsRounds(prf, j - 1, h);
    }
  }

  lemma {:induction false} RoundsUnrounds(prf: Prf, j: nat, g: Halves)
    requires InRange(j, g)
    ensures Rounds(prf, j, Unrounds(prf, j, g)) == g
  {
    if j > 0 {
      RoundsUnrounds(prf, j - 1, Unround(prf, j - 1, g));
      RoundUnround(prf, j - 1, g);
    }
  }

  /** The mixing written out: which hash enters each round, which modulus, and how the two halves are put together. */
  lemma FourRounds(prf: Prf, m: word)
    requires m as int < FEIN_DOMAIN
    ensures var low, high := m as int % 0xffff, m as int / 0xffff;
            var one := (prf(0, high as half) as int + low) % 0xffff;
            var two := (prf(1, one as half) as int + high) % 0x1_0000;
            var three := (prf(2, two as half) as int + one) % 0xffff;
            var four := (prf(3, three as half) as int + two) % 0x1_0000;
            Mixed(prf, m as int) == if four == 0xffff then four * 0xffff + three else three * 0xffff + four
  {
    var h := Unpack(m as int);
    FourSums(prf, h);
    hide Rounds, InRange, Round, Uint16;
  }

  /** What a round adds up. */
  ghost function Sum(prf: Prf, j: nat, l: nat, r: nat): (s: nat)
    requires r < 0x1_0000
    ensures s < 0x1_0000
  {
    (prf(j, r as half) as int + l) % (if j % 2 == 0 then 0xffff else 0x1_0000)
  }

  lemma FourSums(prf: Prf, h: Halves)
    requires h.r < 0x1_0000
    ensures var one := Sum(prf, 0, h.l, h.r);
            var two := Sum(prf, 1, h.r, one);
            var three := Sum(prf, 2, one, two);
            Rounds(prf, 4, h) == Halves(three, Sum(prf, 3, two, three))
  {
    hide Sum, Round, InRange;
    assert Rounds(prf, 0, h) == h;
    hide Rounds;
    var one := Sum(prf, 0, h.l, h.r);
    var two := Sum(prf, 1, h.r, one);
    RoundTo(prf, 0, h, h);
    RoundTo(prf, 1, h, Halves(h.r, one));
    RoundTo(prf, 2, h, Halves(one, two));
    RoundTo(prf, 3, h, Halves(two, Sum(prf, 2, one, two)));
  }

  lemma RoundTo(prf: Prf, j: nat, start: Halves, g: Halves)
    requires Rounds(prf, j, start) == g && g.r < 0x1_0000
    ensures Rounds(prf, j + 1, start) == Halves(g.r, Sum(prf, j, g.l, g.r))
  {
    NextRound(prf, j, start);
  }

  /** Numbers from 0xffff0000 up are mixed like the remainder, because round 1 drops what exceeds 16 bits. */
  lemma MixedWraps(prf: Prf, m: word)
    requires m as int >= FEIN_DOMAIN
    ensures Mixed(prf, m as int) == Mixed(prf, m as int - FEIN_DOMAIN)
  {
    var h, g := Unpack(m as int), Unpack(m as int - FEIN_DOMAIN);
    assert h.l == g.l && h.r == g.r + 0x1_0000;
    assert Rounds(prf, 1, h).r == Rounds(prf, 1, g).r;
    assert Rounds(prf, 2, h) == Rounds(prf, 2, g);
    assert Rounds(prf, 3, h) == Rounds(prf, 3, g);
  }

  lemma UnpackPack(h: Halves)
    requires InRange(0, h)
    ensures Unpack(Pack(h)) == h
  {
  }

  lemma UnpackPackMixed(h: Halves)
    requires InRange(4, h)
    ensures UnpackMixed(PackMixed(h)) == h
  {
  }

  lemma PackUnpack(m: nat)
    ensures Pack(Unpack(m)) == m
  {
  }

  lemma PackUnpackMixed(m: nat)
    requires m < FEIN_DOMAIN
    ensures PackMixed(UnpackMixed(m)) == m
  {
  }

  lemma Inverses(prf: Prf, m: nat)
    requires m < FEIN_DOMAIN
    ensures Unmixed(prf, Mixed(prf, m)) == m && Mixed(prf, Unmixed(prf, m)) == m
  {
    hide Pack, Unpack, PackMixed, UnpackMixed, Rounds, Unrounds, InRange;
    var h, g := Unpack(m), UnpackMixed(m);
    UnpackPackMixed(Rounds(prf, 4, h));
    UnroundsRounds(prf, 4, h);
    PackUnpack(m);
    UnpackPack(Unrounds(prf, 4, g));
    RoundsUnrounds(prf, 4, g);
    PackUnpackMixed(m);
  }

  /** `Fynd` undoes `Fein` up to multiples of 0xffff0000, so exactly on the smaller numbers, whatever the hash. */
  lemma FyndUndoesFein(prf: Prf, m: word)
    ensures Unmixed(prf, Mixed(prf, m as int)) == m as int % FEIN_DOMAIN
  {
    hide Mixed, Unmixed;
    if m as int >= FEIN_DOMAIN {
      MixedWraps(prf, m);
      Inverses(prf, m as int - FEIN_DOMAIN);
    } else {
      Inverses(prf, m as int);
    }
  }

  /** `Fein` undoes `Fynd` exactly on the numbers below 0xffff0000; so there both are onto. */
  lemma FeinUndoesFynd(prf: Prf, m: word)
    ensures Mixed(prf, Unmixed(prf, m as int)) == m as int <==> m as int < FEIN_DOMAIN
  {
    hide Mixed, Unmixed;
    if m as int < FEIN_DOMAIN {
      Inverses(prf, m as int);
    }
  }

  /**
   * Scrambling is a permutation of all 32-bit numbers whose inverse is unscrambling. It fixes every galaxy and star
   * and sends planets to planets.
   */
  lemma ScrambleIsPermutation(prf: Prf, m: word)
    ensures Unscrambled(prf, Scrambled(prf, m)) == m
    ensures Scrambled(prf, Unscrambled(prf, m)) == m
    ensures m < 0x1_0000 ==> Scrambled(prf, m) == m
    ensures m >= 0x1_0000 <==> Scrambled(prf, m) >= 0x1_0000
  {
    hide Mixed, Unmixed;
    if m >= 0x1_0000 {
      Inverses(prf, m as int - 0x1_0000);
    }
  }
}
