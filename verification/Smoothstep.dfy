/** The weights of include/nvalloc/internal/smoothstep.h, as the table lists them and as the polynomial
    they were generated from. */
module Smoothsteps {
  const NSTEPS := 200
  const FIXED := 0x100_0000

  /** h_steps, ten entries a row. */
  const ROW0: seq<nat> := [0x14, 0xa5, 0x229, 0x516, 0x9dc, 0x10e8, 0x1aa4, 0x2777, 0x37c2, 0x4be6]
  const ROW1: seq<nat> := [0x643c, 0x811f, 0xa2e2, 0xc9d8, 0xf64f, 0x12891, 0x160e7, 0x19f95, 0x1e4dc, 0x230fc]
  const ROW2: seq<nat> := [0x28430, 0x2deb0, 0x340b1, 0x3aa67, 0x41c00, 0x495a8, 0x5178b, 0x5a1cf, 0x63498, 0x6d009]
  const ROW3: seq<nat> := [0x7743f, 0x82157, 0x8d76b, 0x99691, 0xa5edf, 0xb3067, 0xc0b38, 0xcef5e, 0xddce6, 0xed3d8]
  const ROW4: seq<nat> := [0xfd439, 0x10de0e, 0x11f158, 0x130e17, 0x143448, 0x1563e7, 0x169cec, 0x17df4f, 0x192b04, 0x1a8000]
  const ROW5: seq<nat> := [0x1bde32, 0x1d458b, 0x1eb5f8, 0x202f65, 0x21b1bb, 0x233ce3, 0x24d0c3, 0x266d40, 0x28123d, 0x29bf9c]
  const ROW6: seq<nat> := [0x2b753d, 0x2d32fe, 0x2ef8bc, 0x30c654, 0x329b9f, 0x347875, 0x365cb0, 0x384825, 0x3a3aa8, 0x3c340f]
  const ROW7: seq<nat> := [0x3e342b, 0x403ace, 0x4247c8, 0x445ae9, 0x467400, 0x4892d8, 0x4ab740, 0x4ce102, 0x4f0fe9, 0x5143bf]
  const ROW8: seq<nat> := [0x537c4d, 0x55b95b, 0x57fab1, 0x5a4015, 0x5c894e, 0x5ed622, 0x612655, 0x6379ac, 0x65cfeb, 0x6828d6]
  const ROW9: seq<nat> := [0x6a842f, 0x6ce1bb, 0x6f413a, 0x71a270, 0x74051d, 0x766905, 0x78cde7, 0x7b3387, 0x7d99a4, 0x800000]
  const ROW10: seq<nat> := [0x82665b, 0x84cc78, 0x873218, 0x8996fa, 0x8bfae2, 0x8e5d8f, 0x90bec5, 0x931e44, 0x957bd0, 0x97d729]
  const ROW11: seq<nat> := [0x9a3014, 0x9c8653, 0x9ed9aa, 0xa129dd, 0xa376b1, 0xa5bfea, 0xa8054e, 0xaa46a4, 0xac83b2, 0xaebc40]
  const ROW12: seq<nat> := [0xb0f016, 0xb31efd, 0xb548bf, 0xb76d27, 0xb98c00, 0xbba516, 0xbdb837, 0xbfc531, 0xc1cbd4, 0xc3cbf0]
  const ROW13: seq<nat> := [0xc5c557, 0xc7b7da, 0xc9a34f, 0xcb878a, 0xcd6460, 0xcf39ab, 0xd10743, 0xd2cd01, 0xd48ac2, 0xd64063]
  const ROW14: seq<nat> := [0xd7edc2, 0xd992bf, 0xdb2f3c, 0xdcc31c, 0xde4e44, 0xdfd09a, 0xe14a07, 0xe2ba74, 0xe421cd, 0xe58000]
  const ROW15: seq<nat> := [0xe6d4fb, 0xe820b0, 0xe96313, 0xea9c18, 0xebcbb7, 0xecf1e8, 0xee0ea7, 0xef21f1, 0xf02bc6, 0xf12c27]
  const ROW16: seq<nat> := [0xf22319, 0xf310a1, 0xf3f4c7, 0xf4cf98, 0xf5a120, 0xf6696e, 0xf72894, 0xf7dea8, 0xf88bc0, 0xf92ff6]
  const ROW17: seq<nat> := [0xf9cb67, 0xfa5e30, 0xfae874, 0xfb6a57, 0xfbe400, 0xfc5598, 0xfcbf4e, 0xfd214f, 0xfd7bcf, 0xfdcf03]
  const ROW18: seq<nat> := [0xfe1b23, 0xfe606a, 0xfe9f18, 0xfed76e, 0xff09b0, 0xff3627, 0xff5d1d, 0xff7ee0, 0xff9bc3, 0xffb419]
  const ROW19: seq<nat> := [0xffc83d, 0xffd888, 0xffe55b, 0xffef17, 0xfff623, 0xfffae9, 0xfffdd6, 0xffff5a, 0xffffeb, 0x1000000]

  function HStep(i: nat): nat
    requires i < NSTEPS
  {
    if i < 10 then ROW0[i]
    else if i < 20 then ROW1[i - 10]
    else if i < 30 then ROW2[i - 20]
    else if i < 40 then ROW3[i - 30]
    else if i < 50 then ROW4[i - 40]
    else if i < 60 then ROW5[i - 50]
    else if i < 70 then ROW6[i - 60]
    else if i < 80 then ROW7[i - 70]
    else if i < 90 then ROW8[i - 80]
    else if i < 100 then ROW9[i - 90]
    else if i < 110 then ROW10[i - 100]
    else if i < 120 then ROW11[i - 110]
    else if i < 130 then ROW12[i - 120]
    else if i < 140 then ROW13[i - 130]
    else if i < 150 then ROW14[i - 140]
    else if i < 160 then ROW15[i - 150]
    else if i < 170 then ROW16[i - 160]
    else if i < 180 then ROW17[i - 170]
    else if i < 190 then ROW18[i - 180]
    else ROW19[i - 190]
  }

  function Poly(i: int): int {
    i * i * i * (6 * i * i - 3000 * i + 400000)
  }

  function Rise(i: int): int {
    30 * (i * (i - 199)) * (i * (i - 199)) + 5970 * (i * (199 - i)) + 397006
  }

  lemma PolyRises(i: int)
    ensures Poly(i + 1) == Poly(i) + Rise(i)
  {
  }

  lemma RisePositive(i: int)
    requires 0 <= i <= 199
    ensures Rise(i) > 0
  {
    var a, b := i * (i - 199), i * (199 - i);
    NotNegative(i, 199 - i);
    PartsPositive(a, b);
    assert Rise(i) == 30 * a * a + 5970 * b + 397006;
  }

  lemma NotNegative(i: int, j: int)
    requires 0 <= i && 0 <= j
    ensures i * j >= 0
  {
  }

  lemma PartsPositive(a: int, b: int)
    requires b >= 0
    ensures 30 * a * a + 5970 * b + 397006 > 0
  {
    var square := a * a;
    assert square >= 0;
    assert 30 * a * a == 30 * square;
  }

  lemma {:induction false} PolyPositive(i: nat)
    requires i <= NSTEPS
    ensures Poly(i) >= 0
  {
    if i > 0 {
      PolyPositive(i - 1);
      PolyRises(i - 1);
      RisePositive(i - 1);
    }
  }

  /** The polynomial 6x^5 - 15x^4 + 10x^3 at x = i / 200, in 24 fractional bits. */
  function H(i: int): int {
    FIXED * Poly(i) / 320_000_000_000
  }

  lemma HRises(i: int)
    requires 0 <= i <= 199
    ensures H(i) <= H(i + 1)
  {
    PolyRises(i);
    RisePositive(i);
  }

  lemma HEnds()
    ensures H(0) == 0 && H(1) == 20 && H(NSTEPS) == FIXED
  {
  }

  lemma {:induction false} HBounds(i: int)
    requires 0 <= i <= NSTEPS
    ensures 0 <= H(i) <= FIXED
    decreases NSTEPS - i
  {
    PolyPositive(i);
    if i == NSTEPS {
      HEnds();
    } else {
      HBounds(i + 1);
      HRises(i);
    }
  }

  // ---------------------------------------------------------------------------------------
  // The table
  // ---------------------------------------------------------------------------------------

  lemma Row0Is()
    ensures HStep(0) == H(1) && HStep(1) == H(2) && HStep(2) == H(3) && HStep(3) == H(4) && HStep(4) == H(5)
    ensures HStep(5) == H(6) && HStep(6) == H(7) && HStep(7) == H(8) && HStep(8) == H(9) && HStep(9) == H(10)
  {
  }

  lemma Row1Is()
    ensures HStep(10) == H(11) && HStep(11) == H(12) && HStep(12) == H(13) && HStep(13) == H(14) && HStep(14) == H(15)
    ensures HStep(15) == H(16) && HStep(16) == H(17) && HStep(17) == H(18) && HStep(18) == H(19) && HStep(19) == H(20)
  {
  }

  lemma Row2Is()
    ensures HStep(20) == H(21) && HStep(21) == H(22) && HStep(22) == H(23) && HStep(23) == H(24) && HStep(24) == H(25)
    ensures HStep(25) == H(26) && HStep(26) == H(27) && HStep(27) == H(28) && HStep(28) == H(29) && HStep(29) == H(30)
  {
  }

  lemma Row3Is()
    ensures HStep(30) == H(31) && HStep(31) == H(32) && HStep(32) == H(33) && HStep(33) == H(34) && HStep(34) == H(35)
    ensures HStep(35) == H(36) && HStep(36) == H(37) && HStep(37) == H(38) && HStep(38) == H(39) && HStep(39) == H(40)
  {
  }

  lemma Row4Is()
    ensures HStep(40) == H(41) && HStep(41) == H(42) && HStep(42) == H(43) && HStep(43) == H(44) && HStep(44) == H(45)
    ensures HStep(45) == H(46) && HStep(46) == H(47) && HStep(47) == H(48) && HStep(48) == H(49) && HStep(49) == H(50)
  {
  }

  lemma Row5Is()
    ensures HStep(50) == H(51) && HStep(51) == H(52) && HStep(52) == H(53) && HStep(53) == H(54) && HStep(54) == H(55)
    ensures HStep(55) == H(56) && HStep(56) == H(57) && HStep(57) == H(58) && HStep(58) == H(59) && HStep(59) == H(60)
  {
  }

  lemma Row6Is()
    ensures HStep(60) == H(61) && HStep(61) == H(62) && HStep(62) == H(63) && HStep(63) == H(64) && HStep(64) == H(65)
    ensures HStep(65) == H(66) && HStep(66) == H(67) && HStep(67) == H(68) && HStep(68) == H(69) && HStep(69) == H(70)
  {
  }

  lemma Row7Is()
    ensures HStep(70) == H(71) && HStep(71) == H(72) && HStep(72) == H(73) && HStep(73) == H(74) && HStep(74) == H(75)
    ensures HStep(75) == H(76) && HStep(76) == H(77) && HStep(77) == H(78) && HStep(78) == H(79) && HStep(79) == H(80)
  {
  }

  lemma Row8Is()
    ensures HStep(80) == H(81) && HStep(81) == H(82) && HStep(82) == H(83) && HStep(83) == H(84) && HStep(84) == H(85)
    ensures HStep(85) == H(86) && HStep(86) == H(87) && HStep(87) == H(88) && HStep(88) == H(89) && HStep(89) == H(90)
  {
  }

  lemma Row9Is()
    ensures HStep(90) == H(91) && HStep(91) == H(92) && HStep(92) == H(93) && HStep(93) == H(94) && HStep(94) == H(95)
    ensures HStep(95) == H(96) && HStep(96) == H(97) && HStep(97) == H(98) && HStep(98) == H(99) && HStep(99) == H(100)
  {
  }

  lemma Row10Is()
    ensures HStep(100) == H(101) && HStep(101) == H(102) && HStep(102) == H(103) && HStep(103) == H(104) && HStep(104) == H(105)
    ensures HStep(105) == H(106) && HStep(106) == H(107) && HStep(107) == H(108) && HStep(108) == H(109) && HStep(109) == H(110)
  {
  }

  lemma Row11Is()
    ensures HStep(110) == H(111) && HStep(111) == H(112) && HStep(112) == H(113) && HStep(113) == H(114) && HStep(114) == H(115)
    ensures HStep(115) == H(116) && HStep(116) == H(117) && HStep(117) == H(118) && HStep(118) == H(119) && HStep(119) == H(120)
  {
  }

  lemma Row12Is()
    ensures HStep(120) == H(121) && HStep(121) == H(122) && HStep(122) == H(123) && HStep(123) == H(124) && HStep(124) == H(125)
    ensures HStep(125) == H(126) && HStep(126) == H(127) && HStep(127) == H(128) && HStep(128) == H(129) && HStep(129) == H(130)
  {
  }

  lemma Row13Is()
    ensures HStep(130) == H(131) && HStep(131) == H(132) && HStep(132) == H(133) && HStep(133) == H(134) && HStep(134) == H(135)
    ensures HStep(135) == H(136) && HStep(136) == H(137) && HStep(137) == H(138) && HStep(138) == H(139) && HStep(139) == H(140)
  {
  }

  lemma Row14Is()
    ensures HStep(140) == H(141) && HStep(141) == H(142) && HStep(142) == H(143) && HStep(143) == H(144) && HStep(144) == H(145)
    ensures HStep(145) == H(146) && HStep(146) == H(147) && HStep(147) == H(148) && HStep(148) == H(149) && HStep(149) == H(150)
  {
  }

  lemma Row15Is()
    ensures HStep(150) == H(151) && HStep(151) == H(152) && HStep(152) == H(153) && HStep(153) == H(154) && HStep(154) == H(155)
    ensures HStep(155) == H(156) && HStep(156) == H(157) && HStep(157) == H(158) && HStep(158) == H(159) && HStep(159) == H(160)
  {
  }

  lemma Row16Is()
    ensures HStep(160) == H(161) && HStep(161) == H(162) && HStep(162) == H(163) && HStep(163) == H(164) && HStep(164) == H(165)
    ensures HStep(165) == H(166) && HStep(166) == H(167) && HStep(167) == H(168) && HStep(168) == H(169) && HStep(169) == H(170)
  {
  }

  lemma Row17Is()
    ensures HStep(170) == H(171) && HStep(171) == H(172) && HStep(172) == H(173) && HStep(173) == H(174) && HStep(174) == H(175)
    ensures HStep(175) == H(176) && HStep(176) == H(177) && HStep(177) == H(178) && HStep(178) == H(179) && HStep(179) == H(180)
  {
  }

  lemma Row18Is()
    ensures HStep(180) == H(181) && HStep(181) == H(182) && HStep(182) == H(183) && HStep(183) == H(184) && HStep(184) == H(185)
    ensures HStep(185) == H(186) && HStep(186) == H(187) && HStep(187) == H(188) && HStep(188) == H(189) && HStep(189) == H(190)
  {
  }

  lemma Row19Is()
    ensures HStep(190) == H(191) && HStep(191) == H(192) && HStep(192) == H(193) && HStep(193) == H(194) && HStep(194) == H(195)
    ensures HStep(195) == H(196) && HStep(196) == H(197) && HStep(197) == H(198) && HStep(198) == H(199) && HStep(199) == H(200)
  {
  }

  /** Each of the 200 entries is the value of the polynomial, rounded down. */
  lemma TableIsPolynomial(i: nat)
    requires i < NSTEPS
    ensures HStep(i) == H(i + 1)
  {
    hide HStep, H;
    if i < 10 {
      Row0Is();
    } else if i < 20 {
      Row1Is();
    } else if i < 30 {
      Row2Is();
    } else if i < 40 {
      Row3Is();
    } else if i < 50 {
      Row4Is();
    } else if i < 60 {
      Row5Is();
    } else if i < 70 {
      Row6Is();
    } else if i < 80 {
      Row7Is();
    } else if i < 90 {
      Row8Is();
    } else if i < 100 {
      Row9Is();
    } else if i < 110 {
      Row10Is();
    } else if i < 120 {
      Row11Is();
    } else if i < 130 {
      Row12Is();
    } else if i < 140 {
      Row13Is();
    } else if i < 150 {
      Row14Is();
    } else if i < 160 {
      Row15Is();
    } else if i < 170 {
      Row16Is();
    } else if i < 180 {
      Row17Is();
    } else if i < 190 {
      Row18Is();
    } else {
      Row19Is();
    }
  }

  lemma PolySymmetric(i: int)
    ensures Poly(i) + Poly(200 - i) == 320_000_000_000
  {
  }

  /** The weights of two places mirrored at the middle add up to 1, but for the rounding. */
  lemma HSymmetric(i: int)
    requires 0 <= i <= NSTEPS
    ensures FIXED - 1 <= H(i) + H(NSTEPS - i) <= FIXED
  {
    PolySymmetric(i);
    RoundedSum(Poly(i), Poly(200 - i));
  }

  lemma RoundedSum(p: int, q: int)
    requires p + q == 320_000_000_000
    ensures FIXED - 1 <= FIXED * p / 320_000_000_000 + FIXED * q / 320_000_000_000 <= FIXED
  {
  }
}
