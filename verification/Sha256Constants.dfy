// The numbers SHA-256 is made of, against their definitions in FIPS 180-4: section 4.2.2 takes
// the round constants from the cube roots of the first sixty-four primes, section 5.3.3 the
// initial value from the square roots of the first eight.
module Sha256Constants {
  import opened Sha256

  const PRIME_ROWS: seq<seq<nat>> := [
    [2, 3, 5, 7, 11, 13, 17, 19],
    [23, 29, 31, 37, 41, 43, 47, 53],
    [59, 61, 67, 71, 73, 79, 83, 89],
    [97, 101, 103, 107, 109, 113, 127, 131],
    [137, 139, 149, 151, 157, 163, 167, 173],
    [179, 181, 191, 193, 197, 199, 211, 223],
    [227, 229, 233, 239, 241, 251, 257, 263],
    [269, 271, 277, 281, 283, 293, 307, 311]]

  function Prime(t: nat): nat
    requires t < 64
  {
    assert forall i :: 0 <= i < 8 ==> |PRIME_ROWS[i]| == 8;
    PRIME_ROWS[t / 8][t % 8]
  }

  ghost predicate IsPrime(n: nat) {
    n >= 2 && forall a: nat, b: nat :: a >= 2 && b >= 2 ==> a * b != n
  }

  // ---- the table holds the first primes --------------------------------------------------

  // No prime up to 17 divides n, unless it is n.
  predicate Rough(n: nat) {
    && (n % 2 != 0 || n == 2) && (n % 3 != 0 || n == 3) && (n % 5 != 0 || n == 5) && (n % 7 != 0 || n == 7)
    && (n % 11 != 0 || n == 11) && (n % 13 != 0 || n == 13) && (n % 17 != 0 || n == 17)
  }

  // Below 18 squared that is being prime.
  lemma RoughIsPrime(n: nat)
    requires 2 <= n < 324
    ensures Rough(n) <==> IsPrime(n)
  {
    if IsPrime(n) {
      Unfactored(n, 2);
      Unfactored(n, 3);
      Unfactored(n, 5);
      Unfactored(n, 7);
      Unfactored(n, 11);
      Unfactored(n, 13);
      Unfactored(n, 17);
    }
    if Rough(n) {
      forall a: nat, b: nat | a >= 2 && b >= 2
        ensures a * b != n
      {
        if a * b == n {
          Factored(n, if a <= b then a else b, if a <= b then b else a);
        }
      }
    }
  }

  lemma Unfactored(n: nat, p: nat)
    requires IsPrime(n) && p >= 2
    ensures n % p != 0 || n == p
  {
    if n % p == 0 {
      var q := n / p;
      assert n == p * q;
    }
  }

  lemma Factored(n: nat, a: nat, b: nat)
    requires 2 <= a <= b && n == a * b < 324
    ensures !Rough(n)
  {
    AtLeast(a, b, 18);
    var p := if a % 2 == 0 then 2 else if a % 3 == 0 then 3 else if a % 5 == 0 then 5 else a;
    var q := a / p;
    assert a == p * q && p in {2, 3, 5, 7, 11, 13, 17};
    assert n == p * (q * b);
    Unique(n, p, q * b, 0);
    AtLeast(q, b, 1);
    AtLeast(q * b, p, 2);
  }

  lemma AtLeast(a: nat, b: nat, m: nat)
    ensures a >= m ==> a * b >= m * b
  {
    if a >= m {
      assert a * b == m * b + (a - m) * b;
    }
  }

  // q is the first number after p without a small factor.
  ghost predicate Follows(p: nat, q: nat) {
    p < q && Rough(q) && forall n: nat :: p < n < q ==> !Rough(n)
  }

  lemma Sieve0()
    ensures Rough(3) && !Rough(4) && Rough(5) && !Rough(6) && Rough(7) && !Rough(8) && !Rough(9)
    ensures !Rough(10) && Rough(11) && !Rough(12) && Rough(13) && !Rough(14) && !Rough(15) && !Rough(16)
    ensures Rough(17) && !Rough(18) && Rough(19) && !Rough(20) && !Rough(21) && !Rough(22) && Rough(23)
  {
  }

  lemma Row0()
    ensures forall t :: 0 <= t < 8 ==> Follows(Prime(t), Prime(t + 1))
  {
    hide Rough;
    Sieve0();
  }

  lemma Sieve1()
    ensures !Rough(24) && !Rough(25) && !Rough(26) && !Rough(27) && !Rough(28) && Rough(29) && !Rough(30)
    ensures Rough(31) && !Rough(32) && !Rough(33) && !Rough(34) && !Rough(35) && !Rough(36) && Rough(37)
    ensures !Rough(38) && !Rough(39) && !Rough(40) && Rough(41) && !Rough(42) && Rough(43) && !Rough(44)
    ensures !Rough(45) && !Rough(46) && Rough(47) && !Rough(48) && !Rough(49) && !Rough(50) && !Rough(51)
    ensures !Rough(52) && Rough(53) && !Rough(54) && !Rough(55) && !Rough(56) && !Rough(57) && !Rough(58)
    ensures Rough(59)
  {
  }

  lemma Row1()
    ensures forall t :: 8 <= t < 16 ==> Follows(Prime(t), Prime(t + 1))
  {
    hide Rough;
    Sieve1();
  }

  lemma Sieve2()
    ensures !Rough(60) && Rough(61) && !Rough(62) && !Rough(63) && !Rough(64) && !Rough(65) && !Rough(66)
    ensures Rough(67) && !Rough(68) && !Rough(69) && !Rough(70) && Rough(71) && !Rough(72) && Rough(73)
    ensures !Rough(74) && !Rough(75) && !Rough(76) && !Rough(77) && !Rough(78) && Rough(79) && !Rough(80)
    ensures !Rough(81) && !Rough(82) && Rough(83) && !Rough(84) && !Rough(85) && !Rough(86) && !Rough(87)
    ensures !Rough(88) && Rough(89) && !Rough(90) && !Rough(91) && !Rough(92) && !Rough(93) && !Rough(94)
    ensures !Rough(95) && !Rough(96) && Rough(97)
  {
  }

  lemma Row2()
    ensures forall t :: 16 <= t < 24 ==> Follows(Prime(t), Prime(t + 1))
  {
    hide Rough;
    Sieve2();
  }

  lemma Sieve3()
    ensures !Rough(98) && !Rough(99) && !Rough(100) && Rough(101) && !Rough(102) && Rough(103) && !Rough(104)
    ensures !Rough(105) && !Rough(106) && Rough(107) && !Rough(108) && Rough(109) && !Rough(110) && !Rough(111)
    ensures !Rough(112) && Rough(113) && !Rough(114) && !Rough(115) && !Rough(116) && !Rough(117) && !Rough(118)
    ensures !Rough(119) && !Rough(120) && !Rough(121) && !Rough(122) && !Rough(123) && !Rough(124) && !Rough(125)
    ensures !Rough(126) && Rough(127) && !Rough(128) && !Rough(129) && !Rough(130) && Rough(131) && !Rough(132)
    ensures !Rough(133) && !Rough(134) && !Rough(135) && !Rough(136) && Rough(137)
  {
  }

  lemma Row3()
    ensures forall t :: 24 <= t < 32 ==> Follows(Prime(t), Prime(t + 1))
  {
    hide Rough;
    Sieve3();
  }

  lemma Sieve4()
    ensures !Rough(138) && Rough(139) && !Rough(140) && !Rough(141) && !Rough(142) && !Rough(143) && !Rough(144)
    ensures !Rough(145) && !Rough(146) && !Rough(147) && !Rough(148) && Rough(149) && !Rough(150) && Rough(151)
    ensures !Rough(152) && !Rough(153) && !Rough(154) && !Rough(155) && !Rough(156) && Rough(157) && !Rough(158)
    ensures !Rough(159) && !Rough(160) && !Rough(161) && !Rough(162) && Rough(163) && !Rough(164) && !Rough(165)
    ensures !Rough(166) && Rough(167) && !Rough(168) && !Rough(169) && !Rough(170) && !Rough(171) && !Rough(172)
    ensures Rough(173) && !Rough(174) && !Rough(175) && !Rough(176) && !Rough(177) && !Rough(178) && Rough(179)
  {
  }

  lemma Row4()
    ensures forall t :: 32 <= t < 40 ==> Follows(Prime(t), Prime(t + 1))
  {
    hide Rough;
    Sieve4();
  }

  lemma Sieve5()
    ensures !Rough(180) && Rough(181) && !Rough(182) && !Rough(183) && !Rough(184) && !Rough(185) && !Rough(186)
    ensures !Rough(187) && !Rough(188) && !Rough(189) && !Rough(190) && Rough(191) && !Rough(192) && Rough(193)
    ensures !Rough(194) && !Rough(195) && !Rough(196) && Rough(197) && !Rough(198) && Rough(199) && !Rough(200)
    ensures !Rough(201) && !Rough(202) && !Rough(203) && !Rough(204) && !Rough(205) && !Rough(206) && !Rough(207)
    ensures !Rough(208) && !Rough(209) && !Rough(210) && Rough(211) && !Rough(212) && !Rough(213) && !Rough(214)
    ensures !Rough(215) && !Rough(216) && !Rough(217) && !Rough(218) && !Rough(219) && !Rough(220) && !Rough(221)
    ensures !Rough(222) && Rough(223) && !Rough(224) && !Rough(225) && !Rough(226) && Rough(227)
  {
  }

  lemma Row5()
    ensures forall t :: 40 <= t < 48 ==> Follows(Prime(t), Prime(t + 1))
  {
    hide Rough;
    Sieve5();
  }

  lemma Sieve6()
    ensures !Rough(228) && Rough(229) && !Rough(230) && !Rough(231) && !Rough(232) && Rough(233) && !Rough(234)
    ensures !Rough(235) && !Rough(236) && !Rough(237) && !Rough(238) && Rough(239) && !Rough(240) && Rough(241)
    ensures !Rough(242) && !Rough(243) && !Rough(244) && !Rough(245) && !Rough(246) && !Rough(247) && !Rough(248)
    ensures !Rough(249) && !Rough(250) && Rough(251) && !Rough(252) && !Rough(253) && !Rough(254) && !Rough(255)
    ensures !Rough(256) && Rough(257) && !Rough(258) && !Rough(259) && !Rough(260) && !Rough(261) && !Rough(262)
    ensures Rough(263) && !Rough(264) && !Rough(265) && !Rough(266) && !Rough(267) && !Rough(268) && Rough(269)
  {
  }

  lemma Row6()
    ensures forall t :: 48 <= t < 56 ==> Follows(Prime(t), Prime(t + 1))
  {
    hide Rough;
    Sieve6();
  }

  lemma Sieve7()
    ensures !Rough(270) && Rough(271) && !Rough(272) && !Rough(273) && !Rough(274) && !Rough(275) && !Rough(276)
    ensures Rough(277) && !Rough(278) && !Rough(279) && !Rough(280) && Rough(281) && !Rough(282) && Rough(283)
    ensures !Rough(284) && !Rough(285) && !Rough(286) && !Rough(287) && !Rough(288) && !Rough(289) && !Rough(290)
    ensures !Rough(291) && !Rough(292) && Rough(293) && !Rough(294) && !Rough(295) && !Rough(296) && !Rough(297)
    ensures !Rough(298) && !Rough(299) && !Rough(300) && !Rough(301) && !Rough(302) && !Rough(303) && !Rough(304)
    ensures !Rough(305) && !Rough(306) && Rough(307) && !Rough(308) && !Rough(309) && !Rough(310) && Rough(311)
  {
  }

  lemma Row7()
    ensures forall t :: 56 <= t < 63 ==> Follows(Prime(t), Prime(t + 1))
  {
    hide Rough;
    Sieve7();
  }

  // The table starts with 2 and leaves no prime out.
  lemma FirstPrimes(t: nat)
    requires t < 64
    ensures Prime(0) == 2 && IsPrime(Prime(t)) && Prime(t) <= 311
    ensures t < 63 ==> Prime(t) < Prime(t + 1) && forall n: nat :: Prime(t) < n < Prime(t + 1) ==> !IsPrime(n)
  {
    hide Rough, IsPrime;
    SmallPrimes(t);
    if t > 0 {
      RowsFollow(t - 1);
    } else {
      TwoIsRough();
    }
    RoughIsPrime(Prime(t));
    if t < 63 {
      RowsFollow(t);
      SmallPrimes(t + 1);
      forall n: nat | Prime(t) < n < Prime(t + 1)
        ensures !IsPrime(n)
      {
        RoughIsPrime(n);
      }
    }
  }

  lemma TwoIsRough()
    ensures Rough(2)
  {
  }

  lemma SmallPrimes(t: nat)
    requires t < 64
    ensures 2 <= Prime(t) <= 311 && Prime(0) == 2
  {
  }

  lemma RowsFollow(t: nat)
    requires t < 63
    ensures Follows(Prime(t), Prime(t + 1))
  {
    hide Follows, Prime;
    Row0();
    Row1();
    Row2();
    Row3();
    Row4();
    Row5();
    Row6();
    Row7();
  }

  // ---- roots -----------------------------------------------------------------------------

  function CubeFloor(p: nat): nat {
    if p < 8 then 1 else if p < 27 then 2 else if p < 64 then 3 else if p < 125 then 4 else if p < 216 then 5 else 6
  }

  // k is the first 32 bits of the fraction of the cube root of p.
  predicate IsCubeFraction(k: int, p: nat) {
    var r := CubeFloor(p) * 0x1_0000_0000 + k;
    0 <= k < 0x1_0000_0000 && r * r * r <= p * 0x1_0000_0000_0000_0000_0000_0000 < (r + 1) * (r + 1) * (r + 1)
  }

  function SquareFloor(p: nat): nat {
    if p < 4 then 1 else if p < 9 then 2 else if p < 16 then 3 else 4
  }

  predicate IsSquareFraction(k: int, p: nat) {
    var r := SquareFloor(p) * 0x1_0000_0000 + k;
    0 <= k < 0x1_0000_0000 && r * r <= p * 0x1_0000_0000_0000_0000 < (r + 1) * (r + 1)
  }

  lemma Cubes0()
    ensures IsCubeFraction(0x428a2f98, 2) && IsCubeFraction(0x71374491, 3)
    ensures IsCubeFraction(0xb5c0fbcf, 5) && IsCubeFraction(0xe9b5dba5, 7)
    ensures IsCubeFraction(0x3956c25b, 11) && IsCubeFraction(0x59f111f1, 13)
    ensures IsCubeFraction(0x923f82a4, 17) && IsCubeFraction(0xab1c5ed5, 19)
  {
  }

  lemma KRow0()
    ensures forall t :: 0 <= t < 8 ==> IsCubeFraction(K(t) as int, Prime(t))
  {
    hide IsCubeFraction;
    Cubes0();
    assert K(0) as int == 0x428a2f98 && K(1) as int == 0x71374491;
    assert K(2) as int == 0xb5c0fbcf && K(3) as int == 0xe9b5dba5;
    assert K(4) as int == 0x3956c25b && K(5) as int == 0x59f111f1;
    assert K(6) as int == 0x923f82a4 && K(7) as int == 0xab1c5ed5;
  }

  lemma Cubes1()
    ensures IsCubeFraction(0xd807aa98, 23) && IsCubeFraction(0x12835b01, 29)
    ensures IsCubeFraction(0x243185be, 31) && IsCubeFraction(0x550c7dc3, 37)
    ensures IsCubeFraction(0x72be5d74, 41) && IsCubeFraction(0x80deb1fe, 43)
    ensures IsCubeFraction(0x9bdc06a7, 47) && IsCubeFraction(0xc19bf174, 53)
  {
  }

  lemma KRow1()
    ensures forall t :: 8 <= t < 16 ==> IsCubeFraction(K(t) as int, Prime(t))
  {
    hide IsCubeFraction;
    Cubes1();
    assert K(8) as int == 0xd807aa98 && K(9) as int == 0x12835b01;
    assert K(10) as int == 0x243185be && K(11) as int == 0x550c7dc3;
    assert K(12) as int == 0x72be5d74 && K(13) as int == 0x80deb1fe;
    assert K(14) as int == 0x9bdc06a7 && K(15) as int == 0xc19bf174;
  }

  lemma Cubes2()
    ensures IsCubeFraction(0xe49b69c1, 59) && IsCubeFraction(0xefbe4786, 61)
    ensures IsCubeFraction(0x0fc19dc6, 67) && IsCubeFraction(0x240ca1cc, 71)
    ensures IsCubeFraction(0x2de92c6f, 73) && IsCubeFraction(0x4a7484aa, 79)
    ensures IsCubeFraction(0x5cb0a9dc, 83) && IsCubeFraction(0x76f988da, 89)
  {
  }

  lemma KRow2()
    ensures forall t :: 16 <= t < 24 ==> IsCubeFraction(K(t) as int, Prime(t))
  {
    hide IsCubeFraction;
    Cubes2();
    assert K(16) as int == 0xe49b69c1 && K(17) as int == 0xefbe4786;
    assert K(18) as int == 0x0fc19dc6 && K(19) as int == 0x240ca1cc;
    assert K(20) as int == 0x2de92c6f && K(21) as int == 0x4a7484aa;
    assert K(22) as int == 0x5cb0a9dc && K(23) as int == 0x76f988da;
  }

  lemma Cubes3()
    ensures IsCubeFraction(0x983e5152, 97) && IsCubeFraction(0xa831c66d, 101)
    ensures IsCubeFraction(0xb00327c8, 103) && IsCubeFraction(0xbf597fc7, 107)
    ensures IsCubeFraction(0xc6e00bf3, 109) && IsCubeFraction(0xd5a79147, 113)
    ensures IsCubeFraction(0x06ca6351, 127) && IsCubeFraction(0x14292967, 131)
  {
  }

  lemma KRow3()
    ensures forall t :: 24 <= t < 32 ==> IsCubeFraction(K(t) as int, Prime(t))
  {
    hide IsCubeFraction;
    Cubes3();
    assert K(24) as int == 0x983e5152 && K(25) as int == 0xa831c66d;
    assert K(26) as int == 0xb00327c8 && K(27) as int == 0xbf597fc7;
    assert K(28) as int == 0xc6e00bf3 && K(29) as int == 0xd5a79147;
    assert K(30) as int == 0x06ca6351 && K(31) as int == 0x14292967;
  }

  lemma Cubes4()
    ensures IsCubeFraction(0x27b70a85, 137) && IsCubeFraction(0x2e1b2138, 139)
    ensures IsCubeFraction(0x4d2c6dfc, 149) && IsCubeFraction(0x53380d13, 151)
    ensures IsCubeFraction(0x650a7354, 157) && IsCubeFraction(0x766a0abb, 163)
    ensures IsCubeFraction(0x81c2c92e, 167) && IsCubeFraction(0x92722c85, 173)
  {
  }

  lemma KRow4()
    ensures forall t :: 32 <= t < 40 ==> IsCubeFraction(K(t) as int, Prime(t))
  {
    hide IsCubeFraction;
    Cubes4();
    assert K(32) as int == 0x27b70a85 && K(33) as int == 0x2e1b2138;
    assert K(34) as int == 0x4d2c6dfc && K(35) as int == 0x53380d13;
    assert K(36) as int == 0x650a7354 && K(37) as int == 0x766a0abb;
    assert K(38) as int == 0x81c2c92e && K(39) as int == 0x92722c85;
  }

  lemma Cubes5()
    ensures IsCubeFraction(0xa2bfe8a1, 179) && IsCubeFraction(0xa81a664b, 181)
    ensures IsCubeFraction(0xc24b8b70, 191) && IsCubeFraction(0xc76c51a3, 193)
    ensures IsCubeFraction(0xd192e819, 197) && IsCubeFraction(0xd6990624, 199)
    ensures IsCubeFraction(0xf40e3585, 211) && IsCubeFraction(0x106aa070, 223)
  {
  }

  lemma KRow5()
    ensures forall t :: 40 <= t < 48 ==> IsCubeFraction(K(t) as int, Prime(t))
  {
    hide IsCubeFraction;
    Cubes5();
    assert K(40) as int == 0xa2bfe8a1 && K(41) as int == 0xa81a664b;
    assert K(42) as int == 0xc24b8b70 && K(43) as int == 0xc76c51a3;
    assert K(44) as int == 0xd192e819 && K(45) as int == 0xd6990624;
    assert K(46) as int == 0xf40e3585 && K(47) as int == 0x106aa070;
  }

  lemma Cubes6()
    ensures IsCubeFraction(0x19a4c116, 227) && IsCubeFraction(0x1e376c08, 229)
    ensures IsCubeFraction(0x2748774c, 233) && IsCubeFraction(0x34b0bcb5, 239)
    ensures IsCubeFraction(0x391c0cb3, 241) && IsCubeFraction(0x4ed8aa4a, 251)
    ensures IsCubeFraction(0x5b9cca4f, 257) && IsCubeFraction(0x682e6ff3, 263)
  {
  }

  lemma KRow6()
    ensures forall t :: 48 <= t < 56 ==> IsCubeFraction(K(t) as int, Prime(t))
  {
    hide IsCubeFraction;
    Cubes6();
    assert K(48) as int == 0x19a4c116 && K(49) as int == 0x1e376c08;
    assert K(50) as int == 0x2748774c && K(51) as int == 0x34b0bcb5;
    assert K(52) as int == 0x391c0cb3 && K(53) as int == 0x4ed8aa4a;
    assert K(54) as int == 0x5b9cca4f && K(55) as int == 0x682e6ff3;
  }

  lemma Cubes7()
    ensures IsCubeFraction(0x748f82ee, 269) && IsCubeFraction(0x78a5636f, 271)
    ensures IsCubeFraction(0x84c87814, 277) && IsCubeFraction(0x8cc70208, 281)
    ensures IsCubeFraction(0x90befffa, 283) && IsCubeFraction(0xa4506ceb, 293)
    ensures IsCubeFraction(0xbef9a3f7, 307) && IsCubeFraction(0xc67178f2, 311)
  {
  }

  lemma KRow7()
    ensures forall t :: 56 <= t < 64 ==> IsCubeFraction(K(t) as int, Prime(t))
  {
    hide IsCubeFraction;
    Cubes7();
    assert K(56) as int == 0x748f82ee && K(57) as int == 0x78a5636f;
    assert K(58) as int == 0x84c87814 && K(59) as int == 0x8cc70208;
    assert K(60) as int == 0x90befffa && K(61) as int == 0xa4506ceb;
    assert K(62) as int == 0xbef9a3f7 && K(63) as int == 0xc67178f2;
  }

  // Every round constant is the cube-root fraction of its prime.
  lemma KIsCubeFraction(t: nat)
    requires t < 64
    ensures IsCubeFraction(K(t) as int, Prime(t))
  {
    hide IsCubeFraction, K, Prime;
    KRow0();
    KRow1();
    KRow2();
    KRow3();
    KRow4();
    KRow5();
    KRow6();
    KRow7();
  }

  // The eight words of the initial value are the square-root fractions of the first primes.
  lemma InitialIsSquareFraction()
    ensures IsSquareFraction(IV.a as int, Prime(0)) && IsSquareFraction(IV.b as int, Prime(1))
    ensures IsSquareFraction(IV.c as int, Prime(2)) && IsSquareFraction(IV.d as int, Prime(3))
    ensures IsSquareFraction(IV.e as int, Prime(4)) && IsSquareFraction(IV.f as int, Prime(5))
    ensures IsSquareFraction(IV.g as int, Prime(6)) && IsSquareFraction(IV.h as int, Prime(7))
  {
    assert Prime(0) == 2 && Prime(1) == 3 && Prime(2) == 5 && Prime(3) == 7;
    assert Prime(4) == 11 && Prime(5) == 13 && Prime(6) == 17 && Prime(7) == 19;
  }
}
