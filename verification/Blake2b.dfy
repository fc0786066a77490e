/** The BLAKE2b compression of precompile/precompile.go: each round can be undone, and for at
    most 12 rounds the function is F of section 3.2 of RFC 7693 with the schedule taken mod 10. */
module Blake2b {
  type Vec = v: seq<bv64> | |v| == 16 witness seq(16, _ => 0)
  type Chain = h: seq<bv64> | |h| == 8 witness seq(8, _ => 0)

  const IV: Chain := [
    0x6a09e667f3bcc908, 0xbb67ae8584caa73b, 0x3c6ef372fe94f82b, 0xa54ff53a5f1d36f1,
    0x510e527fade682d1, 0x9b05688c2b3e6c1f, 0x1f83d9abfb41bd6b, 0x5be0cd19137e2179]

  type Row = r: seq<nat> | |r| == 16 && forall i :: 0 <= i < 16 ==> r[i] < 16 witness seq(16, _ => 0)

  const ROW_0: Row := [0, 1, 2, 3, 4, 5, 6, 7, 8, 9, 10, 11, 12, 13, 14, 15]
  const ROW_1: Row := [14, 10, 4, 8, 9, 15, 13, 6, 1, 12, 0, 2, 11, 7, 5, 3]
  const ROW_2: Row := [11, 8, 12, 0, 5, 2, 15, 13, 10, 14, 3, 6, 7, 1, 9, 4]
  const ROW_3: Row := [7, 9, 3, 1, 13, 12, 11, 14, 2, 6, 5, 10, 4, 0, 15, 8]
  const ROW_4: Row := [9, 0, 5, 7, 2, 4, 10, 15, 14, 1, 11, 12, 6, 8, 3, 13]
  const ROW_5: Row := [2, 12, 6, 10, 0, 11, 8, 3, 4, 13, 7, 5, 15, 14, 1, 9]
  const ROW_6: Row := [12, 5, 1, 15, 14, 13, 4, 10, 0, 7, 6, 3, 9, 2, 8, 11]
  const ROW_7: Row := [13, 11, 7, 14, 12, 1, 3, 9, 5, 0, 15, 4, 8, 6, 2, 10]
  const ROW_8: Row := [6, 15, 14, 9, 11, 3, 0, 8, 12, 2, 13, 7, 1, 4, 10, 5]
  const ROW_9: Row := [10, 2, 8, 4, 7, 6, 1, 5, 15, 11, 9, 14, 3, 12, 13, 0]
  const ROW_10: Row := [0, 1, 2, 3, 4, 5, 6, 7, 8, 9, 10, 11, 12, 13, 14, 15]
  const ROW_11: Row := [14, 10, 4, 8, 9, 15, 13, 6, 1, 12, 0, 2, 11, 7, 5, 3]

  /** The ten message schedules of RFC 7693, section 2.7. */
  function Sigma(i: nat): Row
    requires i < 10
  {
    if i == 0 then ROW_0 else if i == 1 then ROW_1 else if i == 2 then ROW_2 else if i == 3 then ROW_3
    else if i == 4 then ROW_4 else if i == 5 then ROW_5 else if i == 6 then ROW_6 else if i == 7 then ROW_7
    else if i == 8 then ROW_8 else ROW_9
  }

  /** The code's table has twelve rows, the last two repeating the first two. */
  function Sigma12(i: nat): Row
    requires i < 12
  {
    if i < 10 then Sigma(i)
    else if i == 10 then ROW_10
    else ROW_11
  }

  // ---------- the mixing function ----------

  /** bits64RotR */
  function RotR(x: bv64, n: bv64): bv64
    requires 0 < n < 64
  {
    (x >> n) | (x << (64 - n))
  }

  function RotL(x: bv64, n: bv64): bv64
    requires 0 < n < 64
  {
    (x << n) | (x >> (64 - n))
  }

  function Plus(x: bv64, y: bv64): bv64 { x + y }

  function Minus(x: bv64, y: bv64): bv64 { x - y }

  function Xor(x: bv64, y: bv64): bv64 { x ^ y }

  datatype Quad = Quad(a: bv64, b: bv64, c: bv64, d: bv64)

  /** Half of G: add, xor-rotate by r, add, xor-rotate by s. */
  function Half(q: Quad, x: bv64, r: bv64, s: bv64): Quad
    requires 0 < r < 64 && 0 < s < 64
  {
    var a := Plus(Plus(q.a, q.b), x);
    var d := RotR(Xor(q.d, a), r);
    var c := Plus(q.c, d);
    var b := RotR(Xor(q.b, c), s);
    Quad(a, b, c, d)
  }

  function HalfBack(q: Quad, x: bv64, r: bv64, s: bv64): Quad
    requires 0 < r < 64 && 0 < s < 64
  {
    var b := Xor(RotL(q.b, s), q.c);
    var c := Minus(q.c, q.d);
    var d := Xor(RotL(q.d, r), q.a);
    Quad(Minus(Minus(q.a, x), b), b, c, d)
  }

  lemma Rotation32(x: bv64)
    ensures RotL(RotR(x, 32), 32) == x
  {
  }

  lemma Rotation24(x: bv64)
    ensures RotL(RotR(x, 24), 24) == x
  {
  }

  lemma Rotation16(x: bv64)
    ensures RotL(RotR(x, 16), 16) == x
  {
  }

  lemma Rotation63(x: bv64)
    ensures RotL(RotR(x, 63), 63) == x
  {
  }

  lemma XorTwice(x: bv64, y: bv64)
    ensures Xor(Xor(x, y), y) == x
  {
  }

  lemma PlusMinus(x: bv64, y: bv64)
    ensures Minus(Plus(x, y), y) == x
  {
    assert Minus(x + y, y) == x;
  }

  lemma HalfUndone(q: Quad, x: bv64, r: bv64, s: bv64)
    requires (r == 32 && s == 24) || (r == 16 && s == 63)
    ensures HalfBack(Half(q, x, r, s), x, r, s) == q
  {
    hide RotR, RotL, Plus, Minus, Xor;
    var p := Half(q, x, r, s);
    var xd, xb := Xor(q.d, p.a), Xor(q.b, p.c);
    Rotation32(xd);
    Rotation24(xb);
    Rotation16(xd);
    Rotation63(xb);
    XorTwice(q.d, p.a);
    XorTwice(q.b, p.c);
    PlusMinus(Plus(q.a, q.b), x);
    PlusMinus(q.a, q.b);
    PlusMinus(q.c, p.d);
  }

  function G(q: Quad, x: bv64, y: bv64): Quad {
    Half(Half(q, x, 32, 24), y, 16, 63)
  }

  function GBack(q: Quad, x: bv64, y: bv64): Quad {
    HalfBack(HalfBack(q, y, 16, 63), x, 32, 24)
  }

  lemma GUndone(q: Quad, x: bv64, y: bv64)
    ensures GBack(G(q, x, y), x, y) == q
  {
    hide Half, HalfBack;
    HalfUndone(q, x, 32, 24);
    HalfUndone(Half(q, x, 32, 24), y, 16, 63);
  }

  /** Where the eight mixings of a round act: four columns, then four diagonals. */
  datatype Place = Place(a: nat, b: nat, c: nat, d: nat)

  function PlaceOf(k: nat): (p: Place)
    requires k < 8
    ensures p.a < 4 <= p.b < 8 <= p.c < 12 <= p.d < 16
  {
    if k < 4 then Place(k, 4 + k, 8 + k, 12 + k)
    else Place(k - 4, 4 + (k - 3) % 4, 8 + (k - 2) % 4, 12 + (k - 1) % 4)
  }

  function At(v: Vec, p: Place): Quad
    requires p.a < 4 <= p.b < 8 <= p.c < 12 <= p.d < 16
  {
    Quad(v[p.a], v[p.b], v[p.c], v[p.d])
  }

  function With(v: Vec, p: Place, q: Quad): Vec
    requires p.a < 4 <= p.b < 8 <= p.c < 12 <= p.d < 16
  {
    v[p.a := q.a][p.b := q.b][p.c := q.c][p.d := q.d]
  }

  /** Mixing k of a round whose message schedule is `s`. */
  function Mix(v: Vec, k: nat, m: Vec, s: Row): Vec
    requires k < 8
  {
    With(v, PlaceOf(k), G(At(v, PlaceOf(k)), m[s[2 * k]], m[s[2 * k + 1]]))
  }

  function MixBack(v: Vec, k: nat, m: Vec, s: Row): Vec
    requires k < 8
  {
    With(v, PlaceOf(k), GBack(At(v, PlaceOf(k)), m[s[2 * k]], m[s[2 * k + 1]]))
  }

  lemma MixUndone(v: Vec, k: nat, m: Vec, s: Row)
    requires k < 8
    ensures MixBack(Mix(v, k, m, s), k, m, s) == v
  {
    hide G, GBack, PlaceOf;
    GUndone(At(v, PlaceOf(k)), m[s[2 * k]], m[s[2 * k + 1]]);
  }

  /** The first n mixings of a round. */
  function Mixes(v: Vec, n: nat, m: Vec, s: Row): Vec
    requires n <= 8
  {
    if n == 0 then v else Mix(Mixes(v, n - 1, m, s), n - 1, m, s)
  }

  function MixesBack(v: Vec, n: nat, m: Vec, s: Row): Vec
    requires n <= 8
    decreases n
  {
    if n == 0 then v else MixesBack(MixBack(v, n - 1, m, s), n - 1, m, s)
  }

  lemma {:induction false} MixesUndone(v: Vec, n: nat, m: Vec, s: Row)
    requires n <= 8
    ensures MixesBack(Mixes(v, n, m, s), n, m, s) == v
  {
    hide Mix, MixBack;
    if n > 0 {
      MixUndone(Mixes(v, n - 1, m, s), n - 1, m, s);
      MixesUndone(v, n - 1, m, s);
    }
  }

  // ---------- rounds ----------

  /** n rounds as the code schedules them: row i mod 12. */
  function Rounds(v: Vec, n: nat, m: Vec): Vec {
    if n == 0 then v else Mixes(Rounds(v, n - 1, m), 8, m, Sigma12((n - 1) % 12))
  }

  function RoundsBack(v: Vec, n: nat, m: Vec): Vec
    decreases n
  {
    if n == 0 then v else RoundsBack(MixesBack(v, 8, m, Sigma12((n - 1) % 12)), n - 1, m)
  }

  /** Any number of rounds can be undone, whatever the message: two working vectors that end
      alike began alike. */
  lemma {:induction false} RoundsUndone(v: Vec, n: nat, m: Vec)
    ensures RoundsBack(Rounds(v, n, m), n, m) == v
  {
    hide Mixes, MixesBack, Sigma12;
    if n > 0 {
      MixesUndone(Rounds(v, n - 1, m), 8, m, Sigma12((n - 1) % 12));
      RoundsUndone(v, n - 1, m);
    }
  }

  lemma RoundsAreInjective(v: Vec, w: Vec, n: nat, m: Vec)
    requires Rounds(v, n, m) == Rounds(w, n, m)
    ensures v == w
  {
    hide Rounds, RoundsBack;
    RoundsUndone(v, n, m);
    RoundsUndone(w, n, m);
  }

  // ---------- F of RFC 7693, section 3.2 ----------

  function RfcRounds(v: Vec, n: nat, m: Vec): Vec {
    if n == 0 then v else RfcRound(RfcRounds(v, n - 1, m), m, Sigma((n - 1) % 10))
  }

  /** One round, written out as in the RFC. */
  function RfcRound(v: Vec, m: Vec, s: Row): Vec {
    hide RfcG;
    var v := RfcG(v, 0, 4, 8, 12, m[s[0]], m[s[1]]);
    var v := RfcG(v, 1, 5, 9, 13, m[s[2]], m[s[3]]);
    var v := RfcG(v, 2, 6, 10, 14, m[s[4]], m[s[5]]);
    var v := RfcG(v, 3, 7, 11, 15, m[s[6]], m[s[7]]);
    var v := RfcG(v, 0, 5, 10, 15, m[s[8]], m[s[9]]);
    var v := RfcG(v, 1, 6, 11, 12, m[s[10]], m[s[11]]);
    var v := RfcG(v, 2, 7, 8, 13, m[s[12]], m[s[13]]);
    RfcG(v, 3, 4, 9, 14, m[s[14]], m[s[15]])
  }

  /** Section 3.1: both halves of G, one assignment at a time, with R1..R4 = 32, 24, 16, 63. */
  function RfcG(v: Vec, a: nat, b: nat, c: nat, d: nat, x: bv64, y: bv64): Vec
    requires a < 4 <= b < 8 <= c < 12 <= d < 16
  {
    RfcHalf(RfcHalf(v, a, b, c, d, x, 32, 24), a, b, c, d, y, 16, 63)
  }

  function RfcHalf(v: Vec, a: nat, b: nat, c: nat, d: nat, x: bv64, r: bv64, s: bv64): Vec
    requires a < 4 <= b < 8 <= c < 12 <= d < 16 && 0 < r < 64 && 0 < s < 64
  {
    var v := v[a := Plus(Plus(v[a], v[b]), x)];
    var v := v[d := RotR(Xor(v[d], v[a]), r)];
    var v := v[c := Plus(v[c], v[d])];
    v[b := RotR(Xor(v[b], v[c]), s)]
  }

  function InitialVec(h: Chain, t0: bv64, t1: bv64, last: bool): Vec {
    var v: seq<bv64> := h + IV;
    v[12 := v[12] ^ t0][13 := v[13] ^ t1][14 := if last then v[14] ^ 0xffff_ffff_ffff_ffff else v[14]]
  }

  function Folded(h: Chain, v: Vec): Chain {
    seq(8, i requires 0 <= i < 8 => Xor(h[i], Xor(v[i], v[i + 8])))
  }

  function RfcF(h: Chain, m: Vec, t0: bv64, t1: bv64, last: bool, rounds: nat): Chain {
    Folded(h, RfcRounds(InitialVec(h, t0, t1, last), rounds, m))
  }

  /** What the code computes. */
  function CodeF(h: Chain, m: Vec, t0: bv64, t1: bv64, last: bool, rounds: nat): Chain {
    Folded(h, Rounds(InitialVec(h, t0, t1, last), rounds, m))
  }

  lemma HalfIsRfcHalf(v: Vec, p: Place, x: bv64, r: bv64, s: bv64)
    requires p.a < 4 <= p.b < 8 <= p.c < 12 <= p.d < 16 && 0 < r < 64 && 0 < s < 64
    ensures RfcHalf(v, p.a, p.b, p.c, p.d, x, r, s) == With(v, p, Half(At(v, p), x, r, s))
  {
    hide RotR, Plus, Xor;
  }

  lemma WithTwice(v: Vec, p: Place, q: Quad, q': Quad)
    requires p.a < 4 <= p.b < 8 <= p.c < 12 <= p.d < 16
    ensures At(With(v, p, q), p) == q && With(With(v, p, q), p, q') == With(v, p, q')
  {
  }

  lemma MixIsRfcG(v: Vec, k: nat, m: Vec, s: Row)
    requires k < 8
    ensures var p := PlaceOf(k); Mix(v, k, m, s) == RfcG(v, p.a, p.b, p.c, p.d, m[s[2 * k]], m[s[2 * k + 1]])
  {
    hide PlaceOf, Half, RfcHalf, With, At;
    var p := PlaceOf(k);
    var x, y := m[s[2 * k]], m[s[2 * k + 1]];
    var q := Half(At(v, p), x, 32, 24);
    HalfIsRfcHalf(v, p, x, 32, 24);
    HalfIsRfcHalf(With(v, p, q), p, y, 16, 63);
    WithTwice(v, p, q, Half(q, y, 16, 63));
  }

  lemma RoundIsRfcRound(v: Vec, m: Vec, s: Row)
    ensures Mixes(v, 8, m, s) == RfcRound(v, m, s)
  {
    hide Mix, RfcG;
    var v0 := Mixes(v, 0, m, s);
    MixIsRfcG(v0, 0, m, s);
    var v1 := Mixes(v, 1, m, s);
    MixIsRfcG(v1, 1, m, s);
    var v2 := Mixes(v, 2, m, s);
    MixIsRfcG(v2, 2, m, s);
    var v3 := Mixes(v, 3, m, s);
    MixIsRfcG(v3, 3, m, s);
    var v4 := Mixes(v, 4, m, s);
    MixIsRfcG(v4, 4, m, s);
    var v5 := Mixes(v, 5, m, s);
    MixIsRfcG(v5, 5, m, s);
    var v6 := Mixes(v, 6, m, s);
    MixIsRfcG(v6, 6, m, s);
    var v7 := Mixes(v, 7, m, s);
    MixIsRfcG(v7, 7, m, s);
  }

  lemma RowsRepeat()
    ensures ROW_10 == ROW_0 && ROW_11 == ROW_1
  {
  }

  lemma RowAgrees(i: nat)
    requires i < 12
    ensures Sigma12(i) == Sigma(i % 10)
  {
    hide ROW_0, ROW_1, ROW_10, ROW_11;
    if i < 10 {
      hide Sigma;
      assert i % 10 == i;
    } else {
      RowsRepeat();
      assert i % 10 == i - 10;
    }
  }

  lemma ThirteenthRowDiffers()
    ensures Sigma12(0) != Sigma(2)
  {
    assert Sigma12(0)[0] == 0 && Sigma(2)[0] == 11;
  }

  /** The rows used agree for exactly the first twelve rounds. */
  lemma SchedulesAgreeIff(rounds: nat)
    ensures (forall i :: 0 <= i < rounds ==> Sigma12(i % 12) == Sigma(i % 10)) <==> rounds <= 12
  {
    hide Sigma, Sigma12;
    if rounds > 12 {
      ThirteenthRowDiffers();
      assert Sigma12(12 % 12) == Sigma12(0) && Sigma(12 % 10) == Sigma(2);
    } else {
      forall i | 0 <= i < rounds ensures Sigma12(i % 12) == Sigma(i % 10) {
        RowAgrees(i);
      }
    }
  }

  lemma {:induction false} RoundsAreRfcRounds(v: Vec, n: nat, m: Vec)
    requires n <= 12
    ensures Rounds(v, n, m) == RfcRounds(v, n, m)
  {
    hide Mixes, RfcRound, Sigma, Sigma12;
    if n > 0 {
      RoundsAreRfcRounds(v, n - 1, m);
      RoundIsRfcRound(Rounds(v, n - 1, m), m, Sigma12((n - 1) % 12));
      SchedulesAgreeIff(n);
      assert Sigma12((n - 1) % 12) == Sigma((n - 1) % 10);
    }
  }

  lemma CompressionIsRfcF(h: Chain, m: Vec, t0: bv64, t1: bv64, last: bool, rounds: nat)
    requires rounds <= 12
    ensures CodeF(h, m, t0, t1, last, rounds) == RfcF(h, m, t0, t1, last, rounds)
  {
    hide Rounds, RfcRounds, InitialVec;
    RoundsAreRfcRounds(InitialVec(h, t0, t1, last), rounds, m);
  }

  // ---------- thirteen rounds ----------

  /** A message with a single bit set, in word 10. Row 0 mixes that word in at the sixth place
      of a round, row 2 at the fifth; up to there the rounds are the same. */
  const PROBE: Vec := seq(16, i => if i == 10 then 1 else 0)

  lemma WithApart(v: Vec, p: Place, q: Quad, p': Place)
    requires p.a < 4 <= p.b < 8 <= p.c < 12 <= p.d < 16 && p'.a < 4 <= p'.b < 8 <= p'.c < 12 <= p'.d < 16
    requires p.a != p'.a && p.b != p'.b && p.c != p'.c && p.d != p'.d
    ensures At(With(v, p, q), p') == At(v, p')
  {
  }

  lemma PlacesApart(n: nat, k: nat)
    requires 4 <= n < 8 && 4 <= k < 8 && n != k
    ensures var p, p' := PlaceOf(n), PlaceOf(k); p.a != p'.a && p.b != p'.b && p.c != p'.c && p.d != p'.d
  {
  }

  /** A diagonal mixing mixes its own quad and leaves the other three. */
  lemma DiagonalMix(v: Vec, n: nat, k: nat, m: Vec, s: Row)
    requires 4 <= n < 8 && 4 <= k < 8
    ensures At(Mix(v, n, m, s), PlaceOf(k))
         == if n == k then G(At(v, PlaceOf(k)), m[s[2 * k]], m[s[2 * k + 1]]) else At(v, PlaceOf(k))
  {
    hide G, At, With, PlaceOf;
    var q := G(At(v, PlaceOf(n)), m[s[2 * n]], m[s[2 * n + 1]]);
    if n == k {
      WithTwice(v, PlaceOf(n), q, q);
    } else {
      PlacesApart(n, k);
      WithApart(v, PlaceOf(n), q, PlaceOf(k));
    }
  }

  /** So after a round a diagonal's quad is the mixed quad of the four column mixings. */
  lemma {:induction false} DiagonalQuad(v: Vec, n: nat, k: nat, m: Vec, s: Row)
    requires 4 <= n <= 8 && 4 <= k < 8
    ensures var q := At(Mixes(v, 4, m, s), PlaceOf(k));
            At(Mixes(v, n, m, s), PlaceOf(k)) == if n <= k then q else G(q, m[s[2 * k]], m[s[2 * k + 1]])
  {
    hide G, At, Mix, PlaceOf;
    if n > 4 {
      DiagonalQuad(v, n - 1, k, m, s);
      DiagonalMix(Mixes(v, n - 1, m, s), n - 1, k, m, s);
    }
  }

  /** Until word 10 comes in, the two rows mix in the same words. */
  lemma SameUntilDiagonals(v: Vec, n: nat)
    requires n <= 4
    ensures Mixes(v, n, PROBE, ROW_0) == Mixes(v, n, PROBE, ROW_2)
  {
    hide Mix;
    if n > 0 {
      SameUntilDiagonals(v, n - 1);
      SameMix(Mixes(v, n - 1, PROBE, ROW_0), n - 1);
    }
  }

  lemma SameMix(v: Vec, k: nat)
    requires k < 4
    ensures Mix(v, k, PROBE, ROW_0) == Mix(v, k, PROBE, ROW_2)
  {
    hide G, PlaceOf;
    assert PROBE[ROW_0[2 * k]] == 0 == PROBE[ROW_2[2 * k]];
    assert PROBE[ROW_0[2 * k + 1]] == 0 == PROBE[ROW_2[2 * k + 1]];
  }

  lemma OneMore(x: bv64)
    ensures Plus(x, 0) != Plus(x, 1)
  {
  }

  lemma DifferentWordDifferentQuad(q: Quad)
    ensures G(q, 0, 0) != G(q, 1, 0)
  {
    hide RotR, Plus, Xor, HalfBack;
    HalfUndone(Half(q, 0, 32, 24), 0, 16, 63);
    HalfUndone(Half(q, 1, 32, 24), 0, 16, 63);
    OneMore(Plus(q.a, q.b));
  }

  lemma XorSwap(x: bv64, y: bv64)
    ensures Xor(x, y) == Xor(y, x)
  {
  }

  lemma XorCancels(h: bv64, x: bv64, y: bv64, z: bv64)
    requires Xor(h, Xor(x, z)) == Xor(h, Xor(y, z))
    ensures x == y
  {
    hide Xor;
    XorSwap(h, Xor(x, z));
    XorSwap(h, Xor(y, z));
    XorTwice(Xor(x, z), h);
    XorTwice(Xor(y, z), h);
    XorTwice(x, z);
    XorTwice(y, z);
  }

  /** The quad at k of both rounds: they differ at 4 and agree at 6. */
  lemma ProbedRounds(v: Vec)
    ensures var w, w' := Mixes(v, 8, PROBE, ROW_0), Mixes(v, 8, PROBE, ROW_2);
            At(w, PlaceOf(4)) != At(w', PlaceOf(4)) && At(w, PlaceOf(6)) == At(w', PlaceOf(6))
  {
    hide Mixes, G, At, PlaceOf;
    SameUntilDiagonals(v, 4);
    DiagonalQuad(v, 8, 4, PROBE, ROW_0);
    DiagonalQuad(v, 8, 4, PROBE, ROW_2);
    DiagonalQuad(v, 8, 6, PROBE, ROW_0);
    DiagonalQuad(v, 8, 6, PROBE, ROW_2);
    DifferentWordDifferentQuad(At(Mixes(v, 4, PROBE, ROW_0), PlaceOf(4)));
    assert PROBE[ROW_0[8]] == 0 && PROBE[ROW_0[9]] == 0 && PROBE[ROW_2[8]] == 1 && PROBE[ROW_2[9]] == 0;
    assert PROBE[ROW_0[12]] == 0 && PROBE[ROW_0[13]] == 0 && PROBE[ROW_2[12]] == 0 && PROBE[ROW_2[13]] == 0;
  }

  /** Quad 4 is folded with quad 6, so the results differ too. */
  lemma FoldedDiffers(h: Chain, w: Vec, w': Vec)
    requires At(w, PlaceOf(4)) != At(w', PlaceOf(4)) && At(w, PlaceOf(6)) == At(w', PlaceOf(6))
    ensures Folded(h, w) != Folded(h, w')
  {
    hide Xor;
    if Folded(h, w) == Folded(h, w') {
      assert Folded(h, w)[0] == Folded(h, w')[0] && Folded(h, w)[2] == Folded(h, w')[2];
      assert Folded(h, w)[5] == Folded(h, w')[5] && Folded(h, w)[7] == Folded(h, w')[7];
      XorCancels(h[0], w[0], w'[0], w[8]);
      XorSwap(w[2], w[10]);
      XorSwap(w[2], w'[10]);
      XorCancels(h[2], w[10], w'[10], w[2]);
      XorCancels(h[5], w[5], w'[5], w[13]);
      XorSwap(w[7], w[15]);
      XorSwap(w[7], w'[15]);
      XorCancels(h[7], w[15], w'[15], w[7]);
    }
  }

  /** With thirteen rounds the code leaves the RFC, whatever the chain value, offset and flag. */
  lemma ThirteenRoundsDiffer(h: Chain, t0: bv64, t1: bv64, last: bool)
    ensures CodeF(h, PROBE, t0, t1, last, 13) != RfcF(h, PROBE, t0, t1, last, 13)
  {
    hide InitialVec, Mixes, RfcRound, Folded, At, PlaceOf;
    var v := InitialVec(h, t0, t1, last);
    var v12 := Rounds(v, 12, PROBE);
    RoundsAreRfcRounds(v, 12, PROBE);
    RoundIsRfcRound(v12, PROBE, ROW_2);
    assert Sigma12(12 % 12) == ROW_0 && Sigma(12 % 10) == ROW_2;
    hide Sigma, Sigma12;
    assert Rounds(v, 13, PROBE) == Mixes(v12, 8, PROBE, ROW_0);
    assert RfcRounds(v, 13, PROBE) == Mixes(v12, 8, PROBE, ROW_2);
    ProbedRounds(v12);
    FoldedDiffers(h, Mixes(v12, 8, PROBE, ROW_0), Mixes(v12, 8, PROBE, ROW_2));
  }

  // ---------- the code ----------

  /** The closure g of blake2bF, on the working array. */
  method MixInPlace(v: array<bv64>, a: nat, b: nat, c: nat, d: nat, x: bv64, y: bv64)
    requires v.Length == 16 && a < 4 <= b < 8 <= c < 12 <= d < 16
    modifies v
    ensures v[..] == RfcG(old(v[..]), a, b, c, d, x, y)
  {
    hide RfcHalf;
    HalfInPlace(v, a, b, c, d, x, 32, 24);
    HalfInPlace(v, a, b, c, d, y, 16, 63);
  }

  method HalfInPlace(v: array<bv64>, a: nat, b: nat, c: nat, d: nat, x: bv64, r: bv64, s: bv64)
    requires v.Length == 16 && a < 4 <= b < 8 <= c < 12 <= d < 16 && 0 < r < 64 && 0 < s < 64
    modifies v
    ensures v[..] == RfcHalf(old(v[..]), a, b, c, d, x, r, s)
  {
    hide RotR, Plus, Xor;
    v[a] := Plus(Plus(v[a], v[b]), x);
    v[d] := RotR(Xor(v[d], v[a]), r);
    v[c] := Plus(v[c], v[d]);
    v[b] := RotR(Xor(v[b], v[c]), s);
  }

  method RoundInPlace(v: array<bv64>, m: Vec, s: Row)
    requires v.Length == 16
    modifies v
    ensures v[..] == RfcRound(old(v[..]), m, s)
  {
    hide RfcG;
    MixInPlace(v, 0, 4, 8, 12, m[s[0]], m[s[1]]);
    MixInPlace(v, 1, 5, 9, 13, m[s[2]], m[s[3]]);
    MixInPlace(v, 2, 6, 10, 14, m[s[4]], m[s[5]]);
    MixInPlace(v, 3, 7, 11, 15, m[s[6]], m[s[7]]);
    MixInPlace(v, 0, 5, 10, 15, m[s[8]], m[s[9]]);
    MixInPlace(v, 1, 6, 11, 12, m[s[10]], m[s[11]]);
    MixInPlace(v, 2, 7, 8, 13, m[s[12]], m[s[13]]);
    MixInPlace(v, 3, 4, 9, 14, m[s[14]], m[s[15]]);
  }

  method Blake2bF(h: array<bv64>, m: Vec, t0: bv64, t1: bv64, last: bool, rounds: nat)
    requires h.Length == 8
    modifies h
    ensures h[..] == CodeF(old(h[..]), m, t0, t1, last, rounds)
  {
    hide RfcRound, Mixes, Sigma12, Xor, InitialVec;
    ghost var h0: Chain := h[..];
    var start := InitialVec(h[..], t0, t1, last);
    var v := new bv64[16](i requires 0 <= i < 16 => start[i]);
    assert v[..] == start;
    for i := 0 to rounds
      invariant h[..] == h0 && v[..] == Rounds(start, i, m)
    {
      RoundIsRfcRound(v[..], m, Sigma12(i % 12));
      RoundInPlace(v, m, Sigma12(i % 12));
    }
    hide Rounds;
    for i := 0 to 8
      invariant v[..] == Rounds(start, rounds, m)
      invariant forall j :: 0 <= j < 8 ==> h[j] == if j < i then Xor(h0[j], Xor(v[j], v[j + 8])) else h0[j]
    {
      h[i] := Xor(h[i], Xor(v[i], v[i + 8]));
    }
  }
}
