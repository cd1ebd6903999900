/*
 * The bytes 3, 3^2, 3^3, ... run through every nonzero byte before returning to 1 at
 * 3^255: 3 (the polynomial x + 1) generates the multiplicative group of GF(2^8). This is
 * the one place where the model computes with constants. Each power is obtained from
 * the previous one by one multiplication by 3, evaluated with the non-recursive Xor8.
 * From this every nonzero byte has a multiplicative inverse (InverseExists).
 *
 * The generator is passed as a parameter `g` (required to be 3) rather than written as
 * a constant, so that the verifier unfolds Power one step at a time instead of
 * evaluating it from scratch at every mention.
 */
module Generator {
  import opened Bits
  import opened GaloisField

  /** x is one of g^0 .. g^254. */
  ghost predicate IsPower(g: Byte, x: Byte)
  {
    exists k :: 0 <= k < 255 && Power(g, k) == x
  }

  /** One multiplication by 3: from g^m == e to g^(m+1) == e + xtime(e). */
  lemma PowerStep(g: Byte, m: nat, e: Byte, x: nat, f: Byte)
    requires g == 3 && Power(g, m) == e && XTimeEval(e) == x && Xor8(e, x) == f
    ensures Power(g, m + 1) == f
  {
    ProductThree(e);
  }

  lemma Orbit00(g: Byte)
    requires g == 3 && Power(g, 0) == 0x01
    ensures Power(g, 1) == 0x03
    ensures Power(g, 2) == 0x05
  {
    PowerStep(g, 0, 0x01, 0x02, 0x03);
    PowerStep(g, 1, 0x03, 0x06, 0x05);
  }

  lemma Orbit01(g: Byte)
    requires g == 3 && Power(g, 2) == 0x05
    ensures Power(g, 3) == 0x0f
    ensures Power(g, 4) == 0x11
  {
    PowerStep(g, 2, 0x05, 0x0a, 0x0f);
    PowerStep(g, 3, 0x0f, 0x1e, 0x11);
  }

  lemma Orbit02(g: Byte)
    requires g == 3 && Power(g, 4) == 0x11
    ensures Power(g, 5) == 0x33
    ensures Power(g, 6) == 0x55
  {
    PowerStep(g, 4, 0x11, 0x22, 0x33);
    PowerStep(g, 5, 0x33, 0x66, 0x55);
  }

  lemma Orbit03(g: Byte)
    requires g == 3 && Power(g, 6) == 0x55
    ensures Power(g, 7) == 0xff
    ensures Power(g, 8) == 0x1a
  {
    PowerStep(g, 6, 0x55, 0xaa, 0xff);
    PowerStep(g, 7, 0xff, 0xe5, 0x1a);
  }

  lemma Orbit04(g: Byte)
    requires g == 3 && Power(g, 8) == 0x1a
    ensures Power(g, 9) == 0x2e
    ensures Power(g, 10) == 0x72
  {
    PowerStep(g, 8, 0x1a, 0x34, 0x2e);
    PowerStep(g, 9, 0x2e, 0x5c, 0x72);
  }

  lemma Orbit05(g: Byte)
    requires g == 3 && Power(g, 10) == 0x72
    ensures Power(g, 11) == 0x96
    ensures Power(g, 12) == 0xa1
  {
    PowerStep(g, 10, 0x72, 0xe4, 0x96);
    PowerStep(g, 11, 0x96, 0x37, 0xa1);
  }

  lemma Orbit06(g: Byte)
    requires g == 3 && Power(g, 12) == 0xa1
    ensures Power(g, 13) == 0xf8
    ensures Power(g, 14) == 0x13
  {
    PowerStep(g, 12, 0xa1, 0x59, 0xf8);
    PowerStep(g, 13, 0xf8, 0xeb, 0x13);
  }

  lemma Orbit07(g: Byte)
    requires g == 3 && Power(g, 14) == 0x13
    ensures Power(g, 15) == 0x35
    ensures Power(g, 16) == 0x5f
  {
    PowerStep(g, 14, 0x13, 0x26, 0x35);
    PowerStep(g, 15, 0x35, 0x6a, 0x5f);
  }

  lemma Orbit08(g: Byte)
    requires g == 3 && Power(g, 16) == 0x5f
    ensures Power(g, 17) == 0xe1
    ensures Power(g, 18) == 0x38
  {
    PowerStep(g, 16, 0x5f, 0xbe, 0xe1);
    PowerStep(g, 17, 0xe1, 0xd9, 0x38);
  }

  lemma Orbit09(g: Byte)
    requires g == 3 && Power(g, 18) == 0x38
    ensures Power(g, 19) == 0x48
    ensures Power(g, 20) == 0xd8
  {
    PowerStep(g, 18, 0x38, 0x70, 0x48);
    PowerStep(g, 19, 0x48, 0x90, 0xd8);
  }

  lemma Orbit10(g: Byte)
    requires g == 3 && Power(g, 20) == 0xd8
    ensures Power(g, 21) == 0x73
    ensures Power(g, 22) == 0x95
  {
    PowerStep(g, 20, 0xd8, 0xab, 0x73);
    PowerStep(g, 21, 0x73, 0xe6, 0x95);
  }

  lemma Orbit11(g: Byte)
    requires g == 3 && Power(g, 22) == 0x95
    ensures Power(g, 23) == 0xa4
    ensures Power(g, 24) == 0xf7
  {
    PowerStep(g, 22, 0x95, 0x31, 0xa4);
    PowerStep(g, 23, 0xa4, 0x53, 0xf7);
  }

  lemma Orbit12(g: Byte)
    requires g == 3 && Power(g, 24) == 0xf7
    ensures Power(g, 25) == 0x02
    ensures Power(g, 26) == 0x06
  {
    PowerStep(g, 24, 0xf7, 0xf5, 0x02);
    PowerStep(g, 25, 0x02, 0x04, 0x06);
  }

  lemma Orbit13(g: Byte)
    requires g == 3 && Power(g, 26) == 0x06
    ensures Power(g, 27) == 0x0a
    ensures Power(g, 28) == 0x1e
  {
    PowerStep(g, 26, 0x06, 0x0c, 0x0a);
    PowerStep(g, 27, 0x0a, 0x14, 0x1e);
  }

  lemma Orbit14(g: Byte)
    requires g == 3 && Power(g, 28) == 0x1e
    ensures Power(g, 29) == 0x22
    ensures Power(g, 30) == 0x66
  {
    PowerStep(g, 28, 0x1e, 0x3c, 0x22);
    PowerStep(g, 29, 0x22, 0x44, 0x66);
  }

  lemma Orbit15(g: Byte)
    requires g == 3 && Power(g, 30) == 0x66
    ensures Power(g, 31) == 0xaa
    ensures Power(g, 32) == 0xe5
  {
    PowerStep(g, 30, 0x66, 0xcc, 0xaa);
    PowerStep(g, 31, 0xaa, 0x4f, 0xe5);
  }

  lemma Orbit16(g: Byte)
    requires g == 3 && Power(g, 32) == 0xe5
    ensures Power(g, 33) == 0x34
    ensures Power(g, 34) == 0x5c
  {
    PowerStep(g, 32, 0xe5, 0xd1, 0x34);
    PowerStep(g, 33, 0x34, 0x68, 0x5c);
  }

  lemma Orbit17(g: Byte)
    requires g == 3 && Power(g, 34) == 0x5c
    ensures Power(g, 35) == 0xe4
    ensures Power(g, 36) == 0x37
  {
    PowerStep(g, 34, 0x5c, 0xb8, 0xe4);
    PowerStep(g, 35, 0xe4, 0xd3, 0x37);
  }

  lemma Orbit18(g: Byte)
    requires g == 3 && Power(g, 36) == 0x37
    ensures Power(g, 37) == 0x59
    ensures Power(g, 38) == 0xeb
  {
    PowerStep(g, 36, 0x37, 0x6e, 0x59);
    PowerStep(g, 37, 0x59, 0xb2, 0xeb);
  }

  lemma Orbit19(g: Byte)
    requires g == 3 && Power(g, 38) == 0xeb
    ensures Power(g, 39) == 0x26
    ensures Power(g, 40) == 0x6a
  {
    PowerStep(g, 38, 0xeb, 0xcd, 0x26);
    PowerStep(g, 39, 0x26, 0x4c, 0x6a);
  }

  lemma Orbit20(g: Byte)
    requires g == 3 && Power(g, 40) == 0x6a
    ensures Power(g, 41) == 0xbe
    ensures Power(g, 42) == 0xd9
  {
    PowerStep(g, 40, 0x6a, 0xd4, 0xbe);
    PowerStep(g, 41, 0xbe, 0x67, 0xd9);
  }

  lemma Orbit21(g: Byte)
    requires g == 3 && Power(g, 42) == 0xd9
    ensures Power(g, 43) == 0x70
    ensures Power(g, 44) == 0x90
  {
    PowerStep(g, 42, 0xd9, 0xa9, 0x70);
    PowerStep(g, 43, 0x70, 0xe0, 0x90);
  }

  lemma Orbit22(g: Byte)
    requires g == 3 && Power(g, 44) == 0x90
    ensures Power(g, 45) == 0xab
    ensures Power(g, 46) == 0xe6
  {
    PowerStep(g, 44, 0x90, 0x3b, 0xab);
    PowerStep(g, 45, 0xab, 0x4d, 0xe6);
  }

  lemma Orbit23(g: Byte)
    requires g == 3 && Power(g, 46) == 0xe6
    ensures Power(g, 47) == 0x31
    ensures Power(g, 48) == 0x53
  {
    PowerStep(g, 46, 0xe6, 0xd7, 0x31);
    PowerStep(g, 47, 0x31, 0x62, 0x53);
  }

  lemma Orbit24(g: Byte)
    requires g == 3 && Power(g, 48) == 0x53
    ensures Power(g, 49) == 0xf5
    ensures Power(g, 50) == 0x04
  {
    PowerStep(g, 48, 0x53, 0xa6, 0xf5);
    PowerStep(g, 49, 0xf5, 0xf1, 0x04);
  }

  lemma Orbit25(g: Byte)
    requires g == 3 && Power(g, 50) == 0x04
    ensures Power(g, 51) == 0x0c
    ensures Power(g, 52) == 0x14
  {
    PowerStep(g, 50, 0x04, 0x08, 0x0c);
    PowerStep(g, 51, 0x0c, 0x18, 0x14);
  }

  lemma Orbit26(g: Byte)
    requires g == 3 && Power(g, 52) == 0x14
    ensures Power(g, 53) == 0x3c
    ensures Power(g, 54) == 0x44
  {
    PowerStep(g, 52, 0x14, 0x28, 0x3c);
    PowerStep(g, 53, 0x3c, 0x78, 0x44);
  }

  lemma Orbit27(g: Byte)
    requires g == 3 && Power(g, 54) == 0x44
    ensures Power(g, 55) == 0xcc
    ensures Power(g, 56) == 0x4f
  {
    PowerStep(g, 54, 0x44, 0x88, 0xcc);
    PowerStep(g, 55, 0xcc, 0x83, 0x4f);
  }

  lemma Orbit28(g: Byte)
    requires g == 3 && Power(g, 56) == 0x4f
    ensures Power(g, 57) == 0xd1
    ensures Power(g, 58) == 0x68
  {
    PowerStep(g, 56, 0x4f, 0x9e, 0xd1);
    PowerStep(g, 57, 0xd1, 0xb9, 0x68);
  }

  lemma Orbit29(g: Byte)
    requires g == 3 && Power(g, 58) == 0x68
    ensures Power(g, 59) == 0xb8
    ensures Power(g, 60) == 0xd3
  {
    PowerStep(g, 58, 0x68, 0xd0, 0xb8);
    PowerStep(g, 59, 0xb8, 0x6b, 0xd3);
  }

  lemma Orbit30(g: Byte)
    requires g == 3 && Power(g, 60) == 0xd3
    ensures Power(g, 61) == 0x6e
    ensures Power(g, 62) == 0xb2
  {
    PowerStep(g, 60, 0xd3, 0xbd, 0x6e);
    PowerStep(g, 61, 0x6e, 0xdc, 0xb2);
  }

  lemma Orbit31(g: Byte)
    requires g == 3 && Power(g, 62) == 0xb2
    ensures Power(g, 63) == 0xcd
    ensures Power(g, 64) == 0x4c
  {
    PowerStep(g, 62, 0xb2, 0x7f, 0xcd);
    PowerStep(g, 63, 0xcd, 0x81, 0x4c);
  }

  lemma Orbit32(g: Byte)
    requires g == 3 && Power(g, 64) == 0x4c
    ensures Power(g, 65) == 0xd4
    ensures Power(g, 66) == 0x67
  {
    PowerStep(g, 64, 0x4c, 0x98, 0xd4);
    PowerStep(g, 65, 0xd4, 0xb3, 0x67);
  }

  lemma Orbit33(g: Byte)
    requires g == 3 && Power(g, 66) == 0x67
    ensures Power(g, 67) == 0xa9
    ensures Power(g, 68) == 0xe0
  {
    PowerStep(g, 66, 0x67, 0xce, 0xa9);
    PowerStep(g, 67, 0xa9, 0x49, 0xe0);
  }

  lemma Orbit34(g: Byte)
    requires g == 3 && Power(g, 68) == 0xe0
    ensures Power(g, 69) == 0x3b
    ensures Power(g, 70) == 0x4d
  {
    PowerStep(g, 68, 0xe0, 0xdb, 0x3b);
    PowerStep(g, 69, 0x3b, 0x76, 0x4d);
  }

  lemma Orbit35(g: Byte)
    requires g == 3 && Power(g, 70) == 0x4d
    ensures Power(g, 71) == 0xd7
    ensures Power(g, 72) == 0x62
  {
    PowerStep(g, 70, 0x4d, 0x9a, 0xd7);
    PowerStep(g, 71, 0xd7, 0xb5, 0x62);
  }

  lemma Orbit36(g: Byte)
    requires g == 3 && Power(g, 72) == 0x62
    ensures Power(g, 73) == 0xa6
    ensures Power(g, 74) == 0xf1
  {
    PowerStep(g, 72, 0x62, 0xc4, 0xa6);
    PowerStep(g, 73, 0xa6, 0x57, 0xf1);
  }

  lemma Orbit37(g: Byte)
    requires g == 3 && Power(g, 74) == 0xf1
    ensures Power(g, 75) == 0x08
    ensures Power(g, 76) == 0x18
  {
    PowerStep(g, 74, 0xf1, 0xf9, 0x08);
    PowerStep(g, 75, 0x08, 0x10, 0x18);
  }

  lemma Orbit38(g: Byte)
    requires g == 3 && Power(g, 76) == 0x18
    ensures Power(g, 77) == 0x28
    ensures Power(g, 78) == 0x78
  {
    PowerStep(g, 76, 0x18, 0x30, 0x28);
    PowerStep(g, 77, 0x28, 0x50, 0x78);
  }

  lemma Orbit39(g: Byte)
    requires g == 3 && Power(g, 78) == 0x78
    ensures Power(g, 79) == 0x88
    ensures Power(g, 80) == 0x83
  {
    PowerStep(g, 78, 0x78, 0xf0, 0x88);
    PowerStep(g, 79, 0x88, 0x0b, 0x83);
  }

  lemma Orbit40(g: Byte)
    requires g == 3 && Power(g, 80) == 0x83
    ensures Power(g, 81) == 0x9e
    ensures Power(g, 82) == 0xb9
  {
    PowerStep(g, 80, 0x83, 0x1d, 0x9e);
    PowerStep(g, 81, 0x9e, 0x27, 0xb9);
  }

  lemma Orbit41(g: Byte)
    requires g == 3 && Power(g, 82) == 0xb9
    ensures Power(g, 83) == 0xd0
    ensures Power(g, 84) == 0x6b
  {
    PowerStep(g, 82, 0xb9, 0x69, 0xd0);
    PowerStep(g, 83, 0xd0, 0xbb, 0x6b);
  }

  lemma Orbit42(g: Byte)
    requires g == 3 && Power(g, 84) == 0x6b
    ensures Power(g, 85) == 0xbd
    ensures Power(g, 86) == 0xdc
  {
    PowerStep(g, 84, 0x6b, 0xd6, 0xbd);
    PowerStep(g, 85, 0xbd, 0x61, 0xdc);
  }

  lemma Orbit43(g: Byte)
    requires g == 3 && Power(g, 86) == 0xdc
    ensures Power(g, 87) == 0x7f
    ensures Power(g, 88) == 0x81
  {
    PowerStep(g, 86, 0xdc, 0xa3, 0x7f);
    PowerStep(g, 87, 0x7f, 0xfe, 0x81);
  }

  lemma Orbit44(g: Byte)
    requires g == 3 && Power(g, 88) == 0x81
    ensures Power(g, 89) == 0x98
    ensures Power(g, 90) == 0xb3
  {
    PowerStep(g, 88, 0x81, 0x19, 0x98);
    PowerStep(g, 89, 0x98, 0x2b, 0xb3);
  }

  lemma Orbit45(g: Byte)
    requires g == 3 && Power(g, 90) == 0xb3
    ensures Power(g, 91) == 0xce
    ensures Power(g, 92) == 0x49
  {
    PowerStep(g, 90, 0xb3, 0x7d, 0xce);
    PowerStep(g, 91, 0xce, 0x87, 0x49);
  }

  lemma Orbit46(g: Byte)
    requires g == 3 && Power(g, 92) == 0x49
    ensures Power(g, 93) == 0xdb
    ensures Power(g, 94) == 0x76
  {
    PowerStep(g, 92, 0x49, 0x92, 0xdb);
    PowerStep(g, 93, 0xdb, 0xad, 0x76);
  }

  lemma Orbit47(g: Byte)
    requires g == 3 && Power(g, 94) == 0x76
    ensures Power(g, 95) == 0x9a
    ensures Power(g, 96) == 0xb5
  {
    PowerStep(g, 94, 0x76, 0xec, 0x9a);
    PowerStep(g, 95, 0x9a, 0x2f, 0xb5);
  }

  lemma Orbit48(g: Byte)
    requires g == 3 && Power(g, 96) == 0xb5
    ensures Power(g, 97) == 0xc4
    ensures Power(g, 98) == 0x57
  {
    PowerStep(g, 96, 0xb5, 0x71, 0xc4);
    PowerStep(g, 97, 0xc4, 0x93, 0x57);
  }

  lemma Orbit49(g: Byte)
    requires g == 3 && Power(g, 98) == 0x57
    ensures Power(g, 99) == 0xf9
    ensures Power(g, 100) == 0x10
  {
    PowerStep(g, 98, 0x57, 0xae, 0xf9);
    PowerStep(g, 99, 0xf9, 0xe9, 0x10);
  }

  lemma Orbit50(g: Byte)
    requires g == 3 && Power(g, 100) == 0x10
    ensures Power(g, 101) == 0x30
    ensures Power(g, 102) == 0x50
  {
    PowerStep(g, 100, 0x10, 0x20, 0x30);
    PowerStep(g, 101, 0x30, 0x60, 0x50);
  }

  lemma Orbit51(g: Byte)
    requires g == 3 && Power(g, 102) == 0x50
    ensures Power(g, 103) == 0xf0
    ensures Power(g, 104) == 0x0b
  {
    PowerStep(g, 102, 0x50, 0xa0, 0xf0);
    PowerStep(g, 103, 0xf0, 0xfb, 0x0b);
  }

  lemma Orbit52(g: Byte)
    requires g == 3 && Power(g, 104) == 0x0b
    ensures Power(g, 105) == 0x1d
    ensures Power(g, 106) == 0x27
  {
    PowerStep(g, 104, 0x0b, 0x16, 0x1d);
    PowerStep(g, 105, 0x1d, 0x3a, 0x27);
  }

  lemma Orbit53(g: Byte)
    requires g == 3 && Power(g, 106) == 0x27
    ensures Power(g, 107) == 0x69
    ensures Power(g, 108) == 0xbb
  {
    PowerStep(g, 106, 0x27, 0x4e, 0x69);
    PowerStep(g, 107, 0x69, 0xd2, 0xbb);
  }

  lemma Orbit54(g: Byte)
    requires g == 3 && Power(g, 108) == 0xbb
    ensures Power(g, 109) == 0xd6
    ensures Power(g, 110) == 0x61
  {
    PowerStep(g, 108, 0xbb, 0x6d, 0xd6);
    PowerStep(g, 109, 0xd6, 0xb7, 0x61);
  }

  lemma Orbit55(g: Byte)
    requires g == 3 && Power(g, 110) == 0x61
    ensures Power(g, 111) == 0xa3
    ensures Power(g, 112) == 0xfe
  {
    PowerStep(g, 110, 0x61, 0xc2, 0xa3);
    PowerStep(g, 111, 0xa3, 0x5d, 0xfe);
  }

  lemma Orbit56(g: Byte)
    requires g == 3 && Power(g, 112) == 0xfe
    ensures Power(g, 113) == 0x19
    ensures Power(g, 114) == 0x2b
  {
    PowerStep(g, 112, 0xfe, 0xe7, 0x19);
    PowerStep(g, 113, 0x19, 0x32, 0x2b);
  }

  lemma Orbit57(g: Byte)
    requires g == 3 && Power(g, 114) == 0x2b
    ensures Power(g, 115) == 0x7d
    ensures Power(g, 116) == 0x87
  {
    PowerStep(g, 114, 0x2b, 0x56, 0x7d);
    PowerStep(g, 115, 0x7d, 0xfa, 0x87);
  }

  lemma Orbit58(g: Byte)
    requires g == 3 && Power(g, 116) == 0x87
    ensures Power(g, 117) == 0x92
    ensures Power(g, 118) == 0xad
  {
    PowerStep(g, 116, 0x87, 0x15, 0x92);
    PowerStep(g, 117, 0x92, 0x3f, 0xad);
  }

  lemma Orbit59(g: Byte)
    requires g == 3 && Power(g, 118) == 0xad
    ensures Power(g, 119) == 0xec
    ensures Power(g, 120) == 0x2f
  {
    PowerStep(g, 118, 0xad, 0x41, 0xec);
    PowerStep(g, 119, 0xec, 0xc3, 0x2f);
  }

  lemma Orbit60(g: Byte)
    requires g == 3 && Power(g, 120) == 0x2f
    ensures Power(g, 121) == 0x71
    ensures Power(g, 122) == 0x93
  {
    PowerStep(g, 120, 0x2f, 0x5e, 0x71);
    PowerStep(g, 121, 0x71, 0xe2, 0x93);
  }

  lemma Orbit61(g: Byte)
    requires g == 3 && Power(g, 122) == 0x93
    ensures Power(g, 123) == 0xae
    ensures Power(g, 124) == 0xe9
  {
    PowerStep(g, 122, 0x93, 0x3d, 0xae);
    PowerStep(g, 123, 0xae, 0x47, 0xe9);
  }

  lemma Orbit62(g: Byte)
    requires g == 3 && Power(g, 124) == 0xe9
    ensures Power(g, 125) == 0x20
    ensures Power(g, 126) == 0x60
  {
    PowerStep(g, 124, 0xe9, 0xc9, 0x20);
    PowerStep(g, 125, 0x20, 0x40, 0x60);
  }

  lemma Orbit63(g: Byte)
    requires g == 3 && Power(g, 126) == 0x60
    ensures Power(g, 127) == 0xa0
    ensures Power(g, 128) == 0xfb
  {
    PowerStep(g, 126, 0x60, 0xc0, 0xa0);
    PowerStep(g, 127, 0xa0, 0x5b, 0xfb);
  }

  lemma Orbit64(g: Byte)
    requires g == 3 && Power(g, 128) == 0xfb
    ensures Power(g, 129) == 0x16
    ensures Power(g, 130) == 0x3a
  {
    PowerStep(g, 128, 0xfb, 0xed, 0x16);
    PowerStep(g, 129, 0x16, 0x2c, 0x3a);
  }

  lemma Orbit65(g: Byte)
    requires g == 3 && Power(g, 130) == 0x3a
    ensures Power(g, 131) == 0x4e
    ensures Power(g, 132) == 0xd2
  {
    PowerStep(g, 130, 0x3a, 0x74, 0x4e);
    PowerStep(g, 131, 0x4e, 0x9c, 0xd2);
  }

  lemma Orbit66(g: Byte)
    requires g == 3 && Power(g, 132) == 0xd2
    ensures Power(g, 133) == 0x6d
    ensures Power(g, 134) == 0xb7
  {
    PowerStep(g, 132, 0xd2, 0xbf, 0x6d);
    PowerStep(g, 133, 0x6d, 0xda, 0xb7);
  }

  lemma Orbit67(g: Byte)
    requires g == 3 && Power(g, 134) == 0xb7
    ensures Power(g, 135) == 0xc2
    ensures Power(g, 136) == 0x5d
  {
    PowerStep(g, 134, 0xb7, 0x75, 0xc2);
    PowerStep(g, 135, 0xc2, 0x9f, 0x5d);
  }

  lemma Orbit68(g: Byte)
    requires g == 3 && Power(g, 136) == 0x5d
    ensures Power(g, 137) == 0xe7
    ensures Power(g, 138) == 0x32
  {
    PowerStep(g, 136, 0x5d, 0xba, 0xe7);
    PowerStep(g, 137, 0xe7, 0xd5, 0x32);
  }

  lemma Orbit69(g: Byte)
    requires g == 3 && Power(g, 138) == 0x32
    ensures Power(g, 139) == 0x56
    ensures Power(g, 140) == 0xfa
  {
    PowerStep(g, 138, 0x32, 0x64, 0x56);
    PowerStep(g, 139, 0x56, 0xac, 0xfa);
  }

  lemma Orbit70(g: Byte)
    requires g == 3 && Power(g, 140) == 0xfa
    ensures Power(g, 141) == 0x15
    ensures Power(g, 142) == 0x3f
  {
    PowerStep(g, 140, 0xfa, 0xef, 0x15);
    PowerStep(g, 141, 0x15, 0x2a, 0x3f);
  }

  lemma Orbit71(g: Byte)
    requires g == 3 && Power(g, 142) == 0x3f
    ensures Power(g, 143) == 0x41
    ensures Power(g, 144) == 0xc3
  {
    PowerStep(g, 142, 0x3f, 0x7e, 0x41);
    PowerStep(g, 143, 0x41, 0x82, 0xc3);
  }

  lemma Orbit72(g: Byte)
    requires g == 3 && Power(g, 144) == 0xc3
    ensures Power(g, 145) == 0x5e
    ensures Power(g, 146) == 0xe2
  {
    PowerStep(g, 144, 0xc3, 0x9d, 0x5e);
    PowerStep(g, 145, 0x5e, 0xbc, 0xe2);
  }

  lemma Orbit73(g: Byte)
    requires g == 3 && Power(g, 146) == 0xe2
    ensures Power(g, 147) == 0x3d
    ensures Power(g, 148) == 0x47
  {
    PowerStep(g, 146, 0xe2, 0xdf, 0x3d);
    PowerStep(g, 147, 0x3d, 0x7a, 0x47);
  }

  lemma Orbit74(g: Byte)
    requires g == 3 && Power(g, 148) == 0x47
    ensures Power(g, 149) == 0xc9
    ensures Power(g, 150) == 0x40
  {
    PowerStep(g, 148, 0x47, 0x8e, 0xc9);
    PowerStep(g, 149, 0xc9, 0x89, 0x40);
  }

  lemma Orbit75(g: Byte)
    requires g == 3 && Power(g, 150) == 0x40
    ensures Power(g, 151) == 0xc0
    ensures Power(g, 152) == 0x5b
  {
    PowerStep(g, 150, 0x40, 0x80, 0xc0);
    PowerStep(g, 151, 0xc0, 0x9b, 0x5b);
  }

  lemma Orbit76(g: Byte)
    requires g == 3 && Power(g, 152) == 0x5b
    ensures Power(g, 153) == 0xed
    ensures Power(g, 154) == 0x2c
  {
    PowerStep(g, 152, 0x5b, 0xb6, 0xed);
    PowerStep(g, 153, 0xed, 0xc1, 0x2c);
  }

  lemma Orbit77(g: Byte)
    requires g == 3 && Power(g, 154) == 0x2c
    ensures Power(g, 155) == 0x74
    ensures Power(g, 156) == 0x9c
  {
    PowerStep(g, 154, 0x2c, 0x58, 0x74);
    PowerStep(g, 155, 0x74, 0xe8, 0x9c);
  }

  lemma Orbit78(g: Byte)
    requires g == 3 && Power(g, 156) == 0x9c
    ensures Power(g, 157) == 0xbf
    ensures Power(g, 158) == 0xda
  {
    PowerStep(g, 156, 0x9c, 0x23, 0xbf);
    PowerStep(g, 157, 0xbf, 0x65, 0xda);
  }

  lemma Orbit79(g: Byte)
    requires g == 3 && Power(g, 158) == 0xda
    ensures Power(g, 159) == 0x75
    ensures Power(g, 160) == 0x9f
  {
    PowerStep(g, 158, 0xda, 0xaf, 0x75);
    PowerStep(g, 159, 0x75, 0xea, 0x9f);
  }

  lemma Orbit80(g: Byte)
    requires g == 3 && Power(g, 160) == 0x9f
    ensures Power(g, 161) == 0xba
    ensures Power(g, 162) == 0xd5
  {
    PowerStep(g, 160, 0x9f, 0x25, 0xba);
    PowerStep(g, 161, 0xba, 0x6f, 0xd5);
  }

  lemma Orbit81(g: Byte)
    requires g == 3 && Power(g, 162) == 0xd5
    ensures Power(g, 163) == 0x64
    ensures Power(g, 164) == 0xac
  {
    PowerStep(g, 162, 0xd5, 0xb1, 0x64);
    PowerStep(g, 163, 0x64, 0xc8, 0xac);
  }

  lemma Orbit82(g: Byte)
    requires g == 3 && Power(g, 164) == 0xac
    ensures Power(g, 165) == 0xef
    ensures Power(g, 166) == 0x2a
  {
    PowerStep(g, 164, 0xac, 0x43, 0xef);
    PowerStep(g, 165, 0xef, 0xc5, 0x2a);
  }

  lemma Orbit83(g: Byte)
    requires g == 3 && Power(g, 166) == 0x2a
    ensures Power(g, 167) == 0x7e
    ensures Power(g, 168) == 0x82
  {
    PowerStep(g, 166, 0x2a, 0x54, 0x7e);
    PowerStep(g, 167, 0x7e, 0xfc, 0x82);
  }

  lemma Orbit84(g: Byte)
    requires g == 3 && Power(g, 168) == 0x82
    ensures Power(g, 169) == 0x9d
    ensures Power(g, 170) == 0xbc
  {
    PowerStep(g, 168, 0x82, 0x1f, 0x9d);
    PowerStep(g, 169, 0x9d, 0x21, 0xbc);
  }

  lemma Orbit85(g: Byte)
    requires g == 3 && Power(g, 170) == 0xbc
    ensures Power(g, 171) == 0xdf
    ensures Power(g, 172) == 0x7a
  {
    PowerStep(g, 170, 0xbc, 0x63, 0xdf);
    PowerStep(g, 171, 0xdf, 0xa5, 0x7a);
  }

  lemma Orbit86(g: Byte)
    requires g == 3 && Power(g, 172) == 0x7a
    ensures Power(g, 173) == 0x8e
    ensures Power(g, 174) == 0x89
  {
    PowerStep(g, 172, 0x7a, 0xf4, 0x8e);
    PowerStep(g, 173, 0x8e, 0x07, 0x89);
  }

  lemma Orbit87(g: Byte)
    requires g == 3 && Power(g, 174) == 0x89
    ensures Power(g, 175) == 0x80
    ensures Power(g, 176) == 0x9b
  {
    PowerStep(g, 174, 0x89, 0x09, 0x80);
    PowerStep(g, 175, 0x80, 0x1b, 0x9b);
  }

  lemma Orbit88(g: Byte)
    requires g == 3 && Power(g, 176) == 0x9b
    ensures Power(g, 177) == 0xb6
    ensures Power(g, 178) == 0xc1
  {
    PowerStep(g, 176, 0x9b, 0x2d, 0xb6);
    PowerStep(g, 177, 0xb6, 0x77, 0xc1);
  }

  lemma Orbit89(g: Byte)
    requires g == 3 && Power(g, 178) == 0xc1
    ensures Power(g, 179) == 0x58
    ensures Power(g, 180) == 0xe8
  {
    PowerStep(g, 178, 0xc1, 0x99, 0x58);
    PowerStep(g, 179, 0x58, 0xb0, 0xe8);
  }

  lemma Orbit90(g: Byte)
    requires g == 3 && Power(g, 180) == 0xe8
    ensures Power(g, 181) == 0x23
    ensures Power(g, 182) == 0x65
  {
    PowerStep(g, 180, 0xe8, 0xcb, 0x23);
    PowerStep(g, 181, 0x23, 0x46, 0x65);
  }

  lemma Orbit91(g: Byte)
    requires g == 3 && Power(g, 182) == 0x65
    ensures Power(g, 183) == 0xaf
    ensures Power(g, 184) == 0xea
  {
    PowerStep(g, 182, 0x65, 0xca, 0xaf);
    PowerStep(g, 183, 0xaf, 0x45, 0xea);
  }

  lemma Orbit92(g: Byte)
    requires g == 3 && Power(g, 184) == 0xea
    ensures Power(g, 185) == 0x25
    ensures Power(g, 186) == 0x6f
  {
    PowerStep(g, 184, 0xea, 0xcf, 0x25);
    PowerStep(g, 185, 0x25, 0x4a, 0x6f);
  }

  lemma Orbit93(g: Byte)
    requires g == 3 && Power(g, 186) == 0x6f
    ensures Power(g, 187) == 0xb1
    ensures Power(g, 188) == 0xc8
  {
    PowerStep(g, 186, 0x6f, 0xde, 0xb1);
    PowerStep(g, 187, 0xb1, 0x79, 0xc8);
  }

  lemma Orbit94(g: Byte)
    requires g == 3 && Power(g, 188) == 0xc8
    ensures Power(g, 189) == 0x43
    ensures Power(g, 190) == 0xc5
  {
    PowerStep(g, 188, 0xc8, 0x8b, 0x43);
    PowerStep(g, 189, 0x43, 0x86, 0xc5);
  }

  lemma Orbit95(g: Byte)
    requires g == 3 && Power(g, 190) == 0xc5
    ensures Power(g, 191) == 0x54
    ensures Power(g, 192) == 0xfc
  {
    PowerStep(g, 190, 0xc5, 0x91, 0x54);
    PowerStep(g, 191, 0x54, 0xa8, 0xfc);
  }

  lemma Orbit96(g: Byte)
    requires g == 3 && Power(g, 192) == 0xfc
    ensures Power(g, 193) == 0x1f
    ensures Power(g, 194) == 0x21
  {
    PowerStep(g, 192, 0xfc, 0xe3, 0x1f);
    PowerStep(g, 193, 0x1f, 0x3e, 0x21);
  }

  lemma Orbit97(g: Byte)
    requires g == 3 && Power(g, 194) == 0x21
    ensures Power(g, 195) == 0x63
    ensures Power(g, 196) == 0xa5
  {
    PowerStep(g, 194, 0x21, 0x42, 0x63);
    PowerStep(g, 195, 0x63, 0xc6, 0xa5);
  }

  lemma Orbit98(g: Byte)
    requires g == 3 && Power(g, 196) == 0xa5
    ensures Power(g, 197) == 0xf4
    ensures Power(g, 198) == 0x07
  {
    PowerStep(g, 196, 0xa5, 0x51, 0xf4);
    PowerStep(g, 197, 0xf4, 0xf3, 0x07);
  }

  lemma Orbit99(g: Byte)
    requires g == 3 && Power(g, 198) == 0x07
    ensures Power(g, 199) == 0x09
    ensures Power(g, 200) == 0x1b
  {
    PowerStep(g, 198, 0x07, 0x0e, 0x09);
    PowerStep(g, 199, 0x09, 0x12, 0x1b);
  }

  lemma Orbit100(g: Byte)
    requires g == 3 && Power(g, 200) == 0x1b
    ensures Power(g, 201) == 0x2d
    ensures Power(g, 202) == 0x77
  {
    PowerStep(g, 200, 0x1b, 0x36, 0x2d);
    PowerStep(g, 201, 0x2d, 0x5a, 0x77);
  }

  lemma Orbit101(g: Byte)
    requires g == 3 && Power(g, 202) == 0x77
    ensures Power(g, 203) == 0x99
    ensures Power(g, 204) == 0xb0
  {
    PowerStep(g, 202, 0x77, 0xee, 0x99);
    PowerStep(g, 203, 0x99, 0x29, 0xb0);
  }

  lemma Orbit102(g: Byte)
    requires g == 3 && Power(g, 204) == 0xb0
    ensures Power(g, 205) == 0xcb
    ensures Power(g, 206) == 0x46
  {
    PowerStep(g, 204, 0xb0, 0x7b, 0xcb);
    PowerStep(g, 205, 0xcb, 0x8d, 0x46);
  }

  lemma Orbit103(g: Byte)
    requires g == 3 && Power(g, 206) == 0x46
    ensures Power(g, 207) == 0xca
    ensures Power(g, 208) == 0x45
  {
    PowerStep(g, 206, 0x46, 0x8c, 0xca);
    PowerStep(g, 207, 0xca, 0x8f, 0x45);
  }

  lemma Orbit104(g: Byte)
    requires g == 3 && Power(g, 208) == 0x45
    ensures Power(g, 209) == 0xcf
    ensures Power(g, 210) == 0x4a
  {
    PowerStep(g, 208, 0x45, 0x8a, 0xcf);
    PowerStep(g, 209, 0xcf, 0x85, 0x4a);
  }

  lemma Orbit105(g: Byte)
    requires g == 3 && Power(g, 210) == 0x4a
    ensures Power(g, 211) == 0xde
    ensures Power(g, 212) == 0x79
  {
    PowerStep(g, 210, 0x4a, 0x94, 0xde);
    PowerStep(g, 211, 0xde, 0xa7, 0x79);
  }

  lemma Orbit106(g: Byte)
    requires g == 3 && Power(g, 212) == 0x79
    ensures Power(g, 213) == 0x8b
    ensures Power(g, 214) == 0x86
  {
    PowerStep(g, 212, 0x79, 0xf2, 0x8b);
    PowerStep(g, 213, 0x8b, 0x0d, 0x86);
  }

  lemma Orbit107(g: Byte)
    requires g == 3 && Power(g, 214) == 0x86
    ensures Power(g, 215) == 0x91
    ensures Power(g, 216) == 0xa8
  {
    PowerStep(g, 214, 0x86, 0x17, 0x91);
    PowerStep(g, 215, 0x91, 0x39, 0xa8);
  }

  lemma Orbit108(g: Byte)
    requires g == 3 && Power(g, 216) == 0xa8
    ensures Power(g, 217) == 0xe3
    ensures Power(g, 218) == 0x3e
  {
    PowerStep(g, 216, 0xa8, 0x4b, 0xe3);
    PowerStep(g, 217, 0xe3, 0xdd, 0x3e);
  }

  lemma Orbit109(g: Byte)
    requires g == 3 && Power(g, 218) == 0x3e
    ensures Power(g, 219) == 0x42
    ensures Power(g, 220) == 0xc6
  {
    PowerStep(g, 218, 0x3e, 0x7c, 0x42);
    PowerStep(g, 219, 0x42, 0x84, 0xc6);
  }

  lemma Orbit110(g: Byte)
    requires g == 3 && Power(g, 220) == 0xc6
    ensures Power(g, 221) == 0x51
    ensures Power(g, 222) == 0xf3
  {
    PowerStep(g, 220, 0xc6, 0x97, 0x51);
    PowerStep(g, 221, 0x51, 0xa2, 0xf3);
  }

  lemma Orbit111(g: Byte)
    requires g == 3 && Power(g, 222) == 0xf3
    ensures Power(g, 223) == 0x0e
    ensures Power(g, 224) == 0x12
  {
    PowerStep(g, 222, 0xf3, 0xfd, 0x0e);
    PowerStep(g, 223, 0x0e, 0x1c, 0x12);
  }

  lemma Orbit112(g: Byte)
    requires g == 3 && Power(g, 224) == 0x12
    ensures Power(g, 225) == 0x36
    ensures Power(g, 226) == 0x5a
  {
    PowerStep(g, 224, 0x12, 0x24, 0x36);
    PowerStep(g, 225, 0x36, 0x6c, 0x5a);
  }

  lemma Orbit113(g: Byte)
    requires g == 3 && Power(g, 226) == 0x5a
    ensures Power(g, 227) == 0xee
    ensures Power(g, 228) == 0x29
  {
    PowerStep(g, 226, 0x5a, 0xb4, 0xee);
    PowerStep(g, 227, 0xee, 0xc7, 0x29);
  }

  lemma Orbit114(g: Byte)
    requires g == 3 && Power(g, 228) == 0x29
    ensures Power(g, 229) == 0x7b
    ensures Power(g, 230) == 0x8d
  {
    PowerStep(g, 228, 0x29, 0x52, 0x7b);
    PowerStep(g, 229, 0x7b, 0xf6, 0x8d);
  }

  lemma Orbit115(g: Byte)
    requires g == 3 && Power(g, 230) == 0x8d
    ensures Power(g, 231) == 0x8c
    ensures Power(g, 232) == 0x8f
  {
    PowerStep(g, 230, 0x8d, 0x01, 0x8c);
    PowerStep(g, 231, 0x8c, 0x03, 0x8f);
  }

  lemma Orbit116(g: Byte)
    requires g == 3 && Power(g, 232) == 0x8f
    ensures Power(g, 233) == 0x8a
    ensures Power(g, 234) == 0x85
  {
    PowerStep(g, 232, 0x8f, 0x05, 0x8a);
    PowerStep(g, 233, 0x8a, 0x0f, 0x85);
  }

  lemma Orbit117(g: Byte)
    requires g == 3 && Power(g, 234) == 0x85
    ensures Power(g, 235) == 0x94
    ensures Power(g, 236) == 0xa7
  {
    PowerStep(g, 234, 0x85, 0x11, 0x94);
    PowerStep(g, 235, 0x94, 0x33, 0xa7);
  }

  lemma Orbit118(g: Byte)
    requires g == 3 && Power(g, 236) == 0xa7
    ensures Power(g, 237) == 0xf2
    ensures Power(g, 238) == 0x0d
  {
    PowerStep(g, 236, 0xa7, 0x55, 0xf2);
    PowerStep(g, 237, 0xf2, 0xff, 0x0d);
  }

  lemma Orbit119(g: Byte)
    requires g == 3 && Power(g, 238) == 0x0d
    ensures Power(g, 239) == 0x17
    ensures Power(g, 240) == 0x39
  {
    PowerStep(g, 238, 0x0d, 0x1a, 0x17);
    PowerStep(g, 239, 0x17, 0x2e, 0x39);
  }

  lemma Orbit120(g: Byte)
    requires g == 3 && Power(g, 240) == 0x39
    ensures Power(g, 241) == 0x4b
    ensures Power(g, 242) == 0xdd
  {
    PowerStep(g, 240, 0x39, 0x72, 0x4b);
    PowerStep(g, 241, 0x4b, 0x96, 0xdd);
  }

  lemma Orbit121(g: Byte)
    requires g == 3 && Power(g, 242) == 0xdd
    ensures Power(g, 243) == 0x7c
    ensures Power(g, 244) == 0x84
  {
    PowerStep(g, 242, 0xdd, 0xa1, 0x7c);
    PowerStep(g, 243, 0x7c, 0xf8, 0x84);
  }

  lemma Orbit122(g: Byte)
    requires g == 3 && Power(g, 244) == 0x84
    ensures Power(g, 245) == 0x97
    ensures Power(g, 246) == 0xa2
  {
    PowerStep(g, 244, 0x84, 0x13, 0x97);
    PowerStep(g, 245, 0x97, 0x35, 0xa2);
  }

  lemma Orbit123(g: Byte)
    requires g == 3 && Power(g, 246) == 0xa2
    ensures Power(g, 247) == 0xfd
    ensures Power(g, 248) == 0x1c
  {
    PowerStep(g, 246, 0xa2, 0x5f, 0xfd);
    PowerStep(g, 247, 0xfd, 0xe1, 0x1c);
  }

  lemma Orbit124(g: Byte)
    requires g == 3 && Power(g, 248) == 0x1c
    ensures Power(g, 249) == 0x24
    ensures Power(g, 250) == 0x6c
  {
    PowerStep(g, 248, 0x1c, 0x38, 0x24);
    PowerStep(g, 249, 0x24, 0x48, 0x6c);
  }

  lemma Orbit125(g: Byte)
    requires g == 3 && Power(g, 250) == 0x6c
    ensures Power(g, 251) == 0xb4
    ensures Power(g, 252) == 0xc7
  {
    PowerStep(g, 250, 0x6c, 0xd8, 0xb4);
    PowerStep(g, 251, 0xb4, 0x73, 0xc7);
  }

  lemma Orbit126(g: Byte)
    requires g == 3 && Power(g, 252) == 0xc7
    ensures Power(g, 253) == 0x52
    ensures Power(g, 254) == 0xf6
  {
    PowerStep(g, 252, 0xc7, 0x95, 0x52);
    PowerStep(g, 253, 0x52, 0xa4, 0xf6);
  }

  lemma Orbit127(g: Byte)
    requires g == 3 && Power(g, 254) == 0xf6
    ensures Power(g, 255) == 0x01
  {
    PowerStep(g, 254, 0xf6, 0xf7, 0x01);
  }

  /** g^0 .. g^16. */
  lemma Segment00(g: Byte)
    requires g == 3 && Power(g, 0) == 0x01
    ensures Power(g, 16) == 0x5f
    ensures forall x: Byte ::
      (x == 0x01 || x == 0x03 || x == 0x05 || x == 0x0f
       || x == 0x11 || x == 0x33 || x == 0x55 || x == 0xff
       || x == 0x1a || x == 0x2e || x == 0x72 || x == 0x96
       || x == 0xa1 || x == 0xf8 || x == 0x13 || x == 0x35)
      ==> IsPower(g, x)
  {
    Orbit00(g);
    Orbit01(g);
    Orbit02(g);
    Orbit03(g);
    Orbit04(g);
    Orbit05(g);
    Orbit06(g);
    Orbit07(g);
  }

  /** g^16 .. g^32. */
  lemma Segment01(g: Byte)
    requires g == 3 && Power(g, 16) == 0x5f
    ensures Power(g, 32) == 0xe5
    ensures forall x: Byte ::
      (x == 0x5f || x == 0xe1 || x == 0x38 || x == 0x48
       || x == 0xd8 || x == 0x73 || x == 0x95 || x == 0xa4
       || x == 0xf7 || x == 0x02 || x == 0x06 || x == 0x0a
       || x == 0x1e || x == 0x22 || x == 0x66 || x == 0xaa)
      ==> IsPower(g, x)
  {
    Orbit08(g);
    Orbit09(g);
    Orbit10(g);
    Orbit11(g);
    Orbit12(g);
    Orbit13(g);
    Orbit14(g);
    Orbit15(g);
  }

  /** g^32 .. g^48. */
  lemma Segment02(g: Byte)
    requires g == 3 && Power(g, 32) == 0xe5
    ensures Power(g, 48) == 0x53
    ensures forall x: Byte ::
      (x == 0xe5 || x == 0x34 || x == 0x5c || x == 0xe4
       || x == 0x37 || x == 0x59 || x == 0xeb || x == 0x26
       || x == 0x6a || x == 0xbe || x == 0xd9 || x == 0x70
       || x == 0x90 || x == 0xab || x == 0xe6 || x == 0x31)
      ==> IsPower(g, x)
  {
    Orbit16(g);
    Orbit17(g);
    Orbit18(g);
    Orbit19(g);
    Orbit20(g);
    Orbit21(g);
    Orbit22(g);
    Orbit23(g);
  }

  /** g^48 .. g^64. */
  lemma Segment03(g: Byte)
    requires g == 3 && Power(g, 48) == 0x53
    ensures Power(g, 64) == 0x4c
    ensures forall x: Byte ::
      (x == 0x53 || x == 0xf5 || x == 0x04 || x == 0x0c
       || x == 0x14 || x == 0x3c || x == 0x44 || x == 0xcc
       || x == 0x4f || x == 0xd1 || x == 0x68 || x == 0xb8
       || x == 0xd3 || x == 0x6e || x == 0xb2 || x == 0xcd)
      ==> IsPower(g, x)
  {
    Orbit24(g);
    Orbit25(g);
    Orbit26(g);
    Orbit27(g);
    Orbit28(g);
    Orbit29(g);
    Orbit30(g);
    Orbit31(g);
  }

  /** g^64 .. g^80. */
  lemma Segment04(g: Byte)
    requires g == 3 && Power(g, 64) == 0x4c
    ensures Power(g, 80) == 0x83
    ensures forall x: Byte ::
      (x == 0x4c || x == 0xd4 || x == 0x67 || x == 0xa9
       || x == 0xe0 || x == 0x3b || x == 0x4d || x == 0xd7
       || x == 0x62 || x == 0xa6 || x == 0xf1 || x == 0x08
       || x == 0x18 || x == 0x28 || x == 0x78 || x == 0x88)
      ==> IsPower(g, x)
  {
    Orbit32(g);
    Orbit33(g);
    Orbit34(g);
    Orbit35(g);
    Orbit36(g);
    Orbit37(g);
    Orbit38(g);
    Orbit39(g);
  }

  /** g^80 .. g^96. */
  lemma Segment05(g: Byte)
    requires g == 3 && Power(g, 80) == 0x83
    ensures Power(g, 96) == 0xb5
    ensures forall x: Byte ::
      (x == 0x83 || x == 0x9e || x == 0xb9 || x == 0xd0
       || x == 0x6b || x == 0xbd || x == 0xdc || x == 0x7f
       || x == 0x81 || x == 0x98 || x == 0xb3 || x == 0xce
       || x == 0x49 || x == 0xdb || x == 0x76 || x == 0x9a)
      ==> IsPower(g, x)
  {
    Orbit40(g);
    Orbit41(g);
    Orbit42(g);
    Orbit43(g);
    Orbit44(g);
    Orbit45(g);
    Orbit46(g);
    Orbit47(g);
  }

  /** g^96 .. g^112. */
  lemma Segment06(g: Byte)
    requires g == 3 && Power(g, 96) == 0xb5
    ensures Power(g, 112) == 0xfe
    ensures forall x: Byte ::
      (x == 0xb5 || x == 0xc4 || x == 0x57 || x == 0xf9
       || x == 0x10 || x == 0x30 || x == 0x50 || x == 0xf0
       || x == 0x0b || x == 0x1d || x == 0x27 || x == 0x69
       || x == 0xbb || x == 0xd6 || x == 0x61 || x == 0xa3)
      ==> IsPower(g, x)
  {
    Orbit48(g);
    Orbit49(g);
    Orbit50(g);
    Orbit51(g);
    Orbit52(g);
    Orbit53(g);
    Orbit54(g);
    Orbit55(g);
  }

  /** g^112 .. g^128. */
  lemma Segment07(g: Byte)
    requires g == 3 && Power(g, 112) == 0xfe
    ensures Power(g, 128) == 0xfb
    ensures forall x: Byte ::
      (x == 0xfe || x == 0x19 || x == 0x2b || x == 0x7d
       || x == 0x87 || x == 0x92 || x == 0xad || x == 0xec
       || x == 0x2f || x == 0x71 || x == 0x93 || x == 0xae
       || x == 0xe9 || x == 0x20 || x == 0x60 || x == 0xa0)
      ==> IsPower(g, x)
  {
    Orbit56(g);
    Orbit57(g);
    Orbit58(g);
    Orbit59(g);
    Orbit60(g);
    Orbit61(g);
    Orbit62(g);
    Orbit63(g);
  }

  /** g^128 .. g^144. */
  lemma Segment08(g: Byte)
    requires g == 3 && Power(g, 128) == 0xfb
    ensures Power(g, 144) == 0xc3
    ensures forall x: Byte ::
      (x == 0xfb || x == 0x16 || x == 0x3a || x == 0x4e
       || x == 0xd2 || x == 0x6d || x == 0xb7 || x == 0xc2
       || x == 0x5d || x == 0xe7 || x == 0x32 || x == 0x56
       || x == 0xfa || x == 0x15 || x == 0x3f || x == 0x41)
      ==> IsPower(g, x)
  {
    Orbit64(g);
    Orbit65(g);
    Orbit66(g);
    Orbit67(g);
    Orbit68(g);
    Orbit69(g);
    Orbit70(g);
    Orbit71(g);
  }

  /** g^144 .. g^160. */
  lemma Segment09(g: Byte)
    requires g == 3 && Power(g, 144) == 0xc3
    ensures Power(g, 160) == 0x9f
    ensures forall x: Byte ::
      (x == 0xc3 || x == 0x5e || x == 0xe2 || x == 0x3d
       || x == 0x47 || x == 0xc9 || x == 0x40 || x == 0xc0
       || x == 0x5b || x == 0xed || x == 0x2c || x == 0x74
       || x == 0x9c || x == 0xbf || x == 0xda || x == 0x75)
      ==> IsPower(g, x)
  {
    Orbit72(g);
    Orbit73(g);
    Orbit74(g);
    Orbit75(g);
    Orbit76(g);
    Orbit77(g);
    Orbit78(g);
    Orbit79(g);
  }

  /** g^160 .. g^176. */
  lemma Segment10(g: Byte)
    requires g == 3 && Power(g, 160) == 0x9f
    ensures Power(g, 176) == 0x9b
    ensures forall x: Byte ::
      (x == 0x9f || x == 0xba || x == 0xd5 || x == 0x64
       || x == 0xac || x == 0xef || x == 0x2a || x == 0x7e
       || x == 0x82 || x == 0x9d || x == 0xbc || x == 0xdf
       || x == 0x7a || x == 0x8e || x == 0x89 || x == 0x80)
      ==> IsPower(g, x)
  {
    Orbit80(g);
    Orbit81(g);
    Orbit82(g);
    Orbit83(g);
    Orbit84(g);
    Orbit85(g);
    Orbit86(g);
    Orbit87(g);
  }

  /** g^176 .. g^192. */
  lemma Segment11(g: Byte)
    requires g == 3 && Power(g, 176) == 0x9b
    ensures Power(g, 192) == 0xfc
    ensures forall x: Byte ::
      (x == 0x9b || x == 0xb6 || x == 0xc1 || x == 0x58
       || x == 0xe8 || x == 0x23 || x == 0x65 || x == 0xaf
       || x == 0xea || x == 0x25 || x == 0x6f || x == 0xb1
       || x == 0xc8 || x == 0x43 || x == 0xc5 || x == 0x54)
      ==> IsPower(g, x)
  {
    Orbit88(g);
    Orbit89(g);
    Orbit90(g);
    Orbit91(g);
    Orbit92(g);
    Orbit93(g);
    Orbit94(g);
    Orbit95(g);
  }

  /** g^192 .. g^208. */
  lemma Segment12(g: Byte)
    requires g == 3 && Power(g, 192) == 0xfc
    ensures Power(g, 208) == 0x45
    ensures forall x: Byte ::
      (x == 0xfc || x == 0x1f || x == 0x21 || x == 0x63
       || x == 0xa5 || x == 0xf4 || x == 0x07 || x == 0x09
       || x == 0x1b || x == 0x2d || x == 0x77 || x == 0x99
       || x == 0xb0 || x == 0xcb || x == 0x46 || x == 0xca)
      ==> IsPower(g, x)
  {
    Orbit96(g);
    Orbit97(g);
    Orbit98(g);
    Orbit99(g);
    Orbit100(g);
    Orbit101(g);
    Orbit102(g);
    Orbit103(g);
  }

  /** g^208 .. g^224. */
  lemma Segment13(g: Byte)
    requires g == 3 && Power(g, 208) == 0x45
    ensures Power(g, 224) == 0x12
    ensures forall x: Byte ::
      (x == 0x45 || x == 0xcf || x == 0x4a || x == 0xde
       || x == 0x79 || x == 0x8b || x == 0x86 || x == 0x91
       || x == 0xa8 || x == 0xe3 || x == 0x3e || x == 0x42
       || x == 0xc6 || x == 0x51 || x == 0xf3 || x == 0x0e)
      ==> IsPower(g, x)
  {
    Orbit104(g);
    Orbit105(g);
    Orbit106(g);
    Orbit107(g);
    Orbit108(g);
    Orbit109(g);
    Orbit110(g);
    Orbit111(g);
  }

  /** g^224 .. g^240. */
  lemma Segment14(g: Byte)
    requires g == 3 && Power(g, 224) == 0x12
    ensures Power(g, 240) == 0x39
    ensures forall x: Byte ::
      (x == 0x12 || x == 0x36 || x == 0x5a || x == 0xee
       || x == 0x29 || x == 0x7b || x == 0x8d || x == 0x8c
       || x == 0x8f || x == 0x8a || x == 0x85 || x == 0x94
       || x == 0xa7 || x == 0xf2 || x == 0x0d || x == 0x17)
      ==> IsPower(g, x)
  {
    Orbit112(g);
    Orbit113(g);
    Orbit114(g);
    Orbit115(g);
    Orbit116(g);
    Orbit117(g);
    Orbit118(g);
    Orbit119(g);
  }

  /** g^240 .. g^255. */
  lemma Segment15(g: Byte)
    requires g == 3 && Power(g, 240) == 0x39
    ensures Power(g, 255) == 0x01
    ensures forall x: Byte ::
      (x == 0x39 || x == 0x4b || x == 0xdd || x == 0x7c
       || x == 0x84 || x == 0x97 || x == 0xa2 || x == 0xfd
       || x == 0x1c || x == 0x24 || x == 0x6c || x == 0xb4
       || x == 0xc7 || x == 0x52 || x == 0xf6)
      ==> IsPower(g, x)
  {
    Orbit120(g);
    Orbit121(g);
    Orbit122(g);
    Orbit123(g);
    Orbit124(g);
    Orbit125(g);
    Orbit126(g);
    Orbit127(g);
  }

  /*
   * Cover00 .. Cover15 share one body: all segments together. They differ only in the
   * range of x they admit. With the whole range at once, the proof would have to match x
   * against all 255 powers in one go; sixteen values at a time keeps each proof small.
   */
  lemma Cover00(g: Byte, x: Byte)
    requires g == 3 && 1 <= x < 16
    ensures Power(g, 255) == 1 && IsPower(g, x)
  {
    assert Power(g, 0) == 1;
    Segment00(g);
    Segment01(g);
    Segment02(g);
    Segment03(g);
    Segment04(g);
    Segment05(g);
    Segment06(g);
    Segment07(g);
    Segment08(g);
    Segment09(g);
    Segment10(g);
    Segment11(g);
    Segment12(g);
    Segment13(g);
    Segment14(g);
    Segment15(g);
  }

  lemma Cover01(g: Byte, x: Byte)
    requires g == 3 && 16 <= x < 32
    ensures Power(g, 255) == 1 && IsPower(g, x)
  {
    assert Power(g, 0) == 1;
    Segment00(g);
    Segment01(g);
    Segment02(g);
    Segment03(g);
    Segment04(g);
    Segment05(g);
    Segment06(g);
    Segment07(g);
    Segment08(g);
    Segment09(g);
    Segment10(g);
    Segment11(g);
    Segment12(g);
    Segment13(g);
    Segment14(g);
    Segment15(g);
  }

  lemma Cover02(g: Byte, x: Byte)
    requires g == 3 && 32 <= x < 48
    ensures Power(g, 255) == 1 && IsPower(g, x)
  {
    assert Power(g, 0) == 1;
    Segment00(g);
    Segment01(g);
    Segment02(g);
    Segment03(g);
    Segment04(g);
    Segment05(g);
    Segment06(g);
    Segment07(g);
    Segment08(g);
    Segment09(g);
    Segment10(g);
    Segment11(g);
    Segment12(g);
    Segment13(g);
    Segment14(g);
    Segment15(g);
  }

  lemma Cover03(g: Byte, x: Byte)
    requires g == 3 && 48 <= x < 64
    ensures Power(g, 255) == 1 && IsPower(g, x)
  {
    assert Power(g, 0) == 1;
    Segment00(g);
    Segment01(g);
    Segment02(g);
    Segment03(g);
    Segment04(g);
    Segment05(g);
    Segment06(g);
    Segment07(g);
    Segment08(g);
    Segment09(g);
    Segment10(g);
    Segment11(g);
    Segment12(g);
    Segment13(g);
    Segment14(g);
    Segment15(g);
  }

  lemma Cover04(g: Byte, x: Byte)
    requires g == 3 && 64 <= x < 80
    ensures Power(g, 255) == 1 && IsPower(g, x)
  {
    assert Power(g, 0) == 1;
    Segment00(g);
    Segment01(g);
    Segment02(g);
    Segment03(g);
    Segment04(g);
    Segment05(g);
    Segment06(g);
    Segment07(g);
    Segment08(g);
    Segment09(g);
    Segment10(g);
    Segment11(g);
    Segment12(g);
    Segment13(g);
    Segment14(g);
    Segment15(g);
  }

  lemma Cover05(g: Byte, x: Byte)
    requires g == 3 && 80 <= x < 96
    ensures Power(g, 255) == 1 && IsPower(g, x)
  {
    assert Power(g, 0) == 1;
    Segment00(g);
    Segment01(g);
    Segment02(g);
    Segment03(g);
    Segment04(g);
    Segment05(g);
    Segment06(g);
    Segment07(g);
    Segment08(g);
    Segment09(g);
    Segment10(g);
    Segment11(g);
    Segment12(g);
    Segment13(g);
    Segment14(g);
    Segment15(g);
  }

  lemma Cover06(g: Byte, x: Byte)
    requires g == 3 && 96 <= x < 112
    ensures Power(g, 255) == 1 && IsPower(g, x)
  {
    assert Power(g, 0) == 1;
    Segment00(g);
    Segment01(g);
    Segment02(g);
    Segment03(g);
    Segment04(g);
    Segment05(g);
    Segment06(g);
    Segment07(g);
    Segment08(g);
    Segment09(g);
    Segment10(g);
    Segment11(g);
    Segment12(g);
    Segment13(g);
    Segment14(g);
    Segment15(g);
  }

  lemma Cover07(g: Byte, x: Byte)
    requires g == 3 && 112 <= x < 128
    ensures Power(g, 255) == 1 && IsPower(g, x)
  {
    assert Power(g, 0) == 1;
    Segment00(g);
    Segment01(g);
    Segment02(g);
    Segment03(g);
    Segment04(g);
    Segment05(g);
    Segment06(g);
    Segment07(g);
    Segment08(g);
    Segment09(g);
    Segment10(g);
    Segment11(g);
    Segment12(g);
    Segment13(g);
    Segment14(g);
    Segment15(g);
  }

  lemma Cover08(g: Byte, x: Byte)
    requires g == 3 && 128 <= x < 144
    ensures Power(g, 255) == 1 && IsPower(g, x)
  {
    assert Power(g, 0) == 1;
    Segment00(g);
    Segment01(g);
    Segment02(g);
    Segment03(g);
    Segment04(g);
    Segment05(g);
    Segment06(g);
    Segment07(g);
    Segment08(g);
    Segment09(g);
    Segment10(g);
    Segment11(g);
    Segment12(g);
    Segment13(g);
    Segment14(g);
    Segment15(g);
  }

  lemma Cover09(g: Byte, x: Byte)
    requires g == 3 && 144 <= x < 160
    ensures Power(g, 255) == 1 && IsPower(g, x)
  {
    assert Power(g, 0) == 1;
    Segment00(g);
    Segment01(g);
    Segment02(g);
    Segment03(g);
    Segment04(g);
    Segment05(g);
    Segment06(g);
    Segment07(g);
    Segment08(g);
    Segment09(g);
    Segment10(g);
    Segment11(g);
    Segment12(g);
    Segment13(g);
    Segment14(g);
    Segment15(g);
  }

  lemma Cover10(g: Byte, x: Byte)
    requires g == 3 && 160 <= x < 176
    ensures Power(g, 255) == 1 && IsPower(g, x)
  {
    assert Power(g, 0) == 1;
    Segment00(g);
    Segment01(g);
    Segment02(g);
    Segment03(g);
    Segment04(g);
    Segment05(g);
    Segment06(g);
    Segment07(g);
    Segment08(g);
    Segment09(g);
    Segment10(g);
    Segment11(g);
    Segment12(g);
    Segment13(g);
    Segment14(g);
    Segment15(g);
  }

  lemma Cover11(g: Byte, x: Byte)
    requires g == 3 && 176 <= x < 192
    ensures Power(g, 255) == 1 && IsPower(g, x)
  {
    assert Power(g, 0) == 1;
    Segment00(g);
    Segment01(g);
    Segment02(g);
    Segment03(g);
    Segment04(g);
    Segment05(g);
    Segment06(g);
    Segment07(g);
    Segment08(g);
    Segment09(g);
    Segment10(g);
    Segment11(g);
    Segment12(g);
    Segment13(g);
    Segment14(g);
    Segment15(g);
  }

  lemma Cover12(g: Byte, x: Byte)
    requires g == 3 && 192 <= x < 208
    ensures Power(g, 255) == 1 && IsPower(g, x)
  {
    assert Power(g, 0) == 1;
    Segment00(g);
    Segment01(g);
    Segment02(g);
    Segment03(g);
    Segment04(g);
    Segment05(g);
    Segment06(g);
    Segment07(g);
    Segment08(g);
    Segment09(g);
    Segment10(g);
    Segment11(g);
    Segment12(g);
    Segment13(g);
    Segment14(g);
    Segment15(g);
  }

  lemma Cover13(g: Byte, x: Byte)
    requires g == 3 && 208 <= x < 224
    ensures Power(g, 255) == 1 && IsPower(g, x)
  {
    assert Power(g, 0) == 1;
    Segment00(g);
    Segment01(g);
    Segment02(g);
    Segment03(g);
    Segment04(g);
    Segment05(g);
    Segment06(g);
    Segment07(g);
    Segment08(g);
    Segment09(g);
    Segment10(g);
    Segment11(g);
    Segment12(g);
    Segment13(g);
    Segment14(g);
    Segment15(g);
  }

  lemma Cover14(g: Byte, x: Byte)
    requires g == 3 && 224 <= x < 240
    ensures Power(g, 255) == 1 && IsPower(g, x)
  {
    assert Power(g, 0) == 1;
    Segment00(g);
    Segment01(g);
    Segment02(g);
    Segment03(g);
    Segment04(g);
    Segment05(g);
    Segment06(g);
    Segment07(g);
    Segment08(g);
    Segment09(g);
    Segment10(g);
    Segment11(g);
    Segment12(g);
    Segment13(g);
    Segment14(g);
    Segment15(g);
  }

  lemma Cover15(g: Byte, x: Byte)
    requires g == 3 && 240 <= x < 256
    ensures Power(g, 255) == 1 && IsPower(g, x)
  {
    assert Power(g, 0) == 1;
    Segment00(g);
    Segment01(g);
    Segment02(g);
    Segment03(g);
    Segment04(g);
    Segment05(g);
    Segment06(g);
    Segment07(g);
    Segment08(g);
    Segment09(g);
    Segment10(g);
    Segment11(g);
    Segment12(g);
    Segment13(g);
    Segment14(g);
    Segment15(g);
  }

  /** 3 has order 255 and its powers cover every nonzero byte. */
  lemma Generates(g: Byte, x: Byte)
    requires g == 3 && x != 0
    ensures Power(g, 255) == 1 && IsPower(g, x)
  {
    if x < 16 {
      Cover00(g, x);
    } else if x < 32 {
      Cover01(g, x);
    } else if x < 48 {
      Cover02(g, x);
    } else if x < 64 {
      Cover03(g, x);
    } else if x < 80 {
      Cover04(g, x);
    } else if x < 96 {
      Cover05(g, x);
    } else if x < 112 {
      Cover06(g, x);
    } else if x < 128 {
      Cover07(g, x);
    } else if x < 144 {
      Cover08(g, x);
    } else if x < 160 {
      Cover09(g, x);
    } else if x < 176 {
      Cover10(g, x);
    } else if x < 192 {
      Cover11(g, x);
    } else if x < 208 {
      Cover12(g, x);
    } else if x < 224 {
      Cover13(g, x);
    } else if x < 240 {
      Cover14(g, x);
    } else {
      Cover15(g, x);
    }
  }

  /** Every nonzero byte has a multiplicative inverse: x = 3^k has 3^(255 - k). */
  lemma InverseExists(x: Byte)
    requires x != 0
    ensures exists y: Byte :: Product(x, y) == 1
  {
    var g: Byte := 3;
    Generates(g, x);
    var k :| 0 <= k < 255 && Power(g, k) == x;
    PowerAdd(g, k, 255 - k);
  }
}
