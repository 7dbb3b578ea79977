/** The table random() starts with is the one that srandom(1) makes: the comment at line 109 of
    src/libc/stdlib/random.c, by the ten laps round the table that srandom discards. */
module RandomTable {
  import opened LaggedStreams
  import opened RandomState

  // The state words lap after lap, with the rear pointer at 0: first the fill of srandom(1).
  const LAP0: seq<Word> := [
    0x1, 0x41c6_7ea6, 0x967e_b0e7, 0x2781_e494, 0xc46b_9b3d, 0xf94b_df32, 0x95fb_7483, 0xd9e2_b600,
    0x9cfb_ae39, 0xbf54_bc7e, 0x0ff6_d5df, 0x0abd_322c, 0x31df_f4f5, 0x237c_228a, 0xaf1c_f0fb, 0x7de1_4518,
    0xc487_eb71, 0xe201_dd56, 0xd2bf_a1d7, 0xe231_9ac4, 0xe3de_cdad, 0xe956_78e2, 0x9372_8473, 0x500f_9f30,
    0x2847_97a9, 0x2c67_412e, 0x7566_f4cf, 0x4287_7e5c, 0xb359_0565, 0x4daa_423a, 0xe488_0eeb]
  const LAP1: seq<Word> := [
    0x2d74_1988, 0x0168_615b, 0xce7f_4033, 0x2781_e495, 0x0632_19e3, 0x8fca_9019, 0xbd7d_5918, 0xe014_cfe3,
    0x2cc6_3e52, 0x7cd2_1596, 0xf00b_a5c2, 0x3783_707e, 0xaeb2_0a8b, 0x1387_c84c, 0xe6a0_6179, 0x2c93_4fa3,
    0xd80f_b3bd, 0xc8a2_3ecf, 0xff52_f17a, 0xba41_4e81, 0xac81_0c7c, 0xe8a9_6a5c, 0x4db3_d2f4, 0xfc90_abac,
    0x10f1_0205, 0x7a1b_1422, 0x71f7_a07b, 0x5378_8061, 0x2d74_1987, 0xbfa1_e2b5, 0x3800_8f4c]
  const LAP2: seq<Word> := [
    0xa04a_d592, 0x4de9_bc17, 0xbd70_74b4, 0x54f5_fe1d, 0x079a_7b3e, 0x5e49_d04c, 0x1273_5735, 0xe7af_4b21,
    0x8b10_0e9e, 0x8f45_6ccb, 0xd7ba_f0e3, 0xc293_7f1c, 0x3df7_7756, 0xeb42_b92f, 0xa933_e095, 0x6a8a_c6f9,
    0xc352_6cec, 0x71d6_1f64, 0x69dd_b873, 0x7d93_bb6d, 0x1e57_2be0, 0x5287_22cf, 0xcb47_8e61, 0x1ae7_d78c,
    0x6378_24d4, 0x4562_a283, 0x8cdf_7807, 0xb6f0_a535, 0x72d6_bc0a, 0x4c81_5abc, 0xeef1_3481]
  const LAP3: seq<Word> := [
    0x64e3_1761, 0xe4f1_64f9, 0xc2ab_247e, 0xf540_d3af, 0x5584_3755, 0x1bba_4500, 0x07b4_2ae4, 0x3d33_8276,
    0xa6ca_539e, 0x96f9_97af, 0x14ee_7359, 0x695d_d2ba, 0xd4f1_0f05, 0x0031_2c88, 0x1291_b34f, 0x3f7b_d5fe,
    0xc383_9974, 0x8467_d2b3, 0xa959_8e71, 0x4117_54e1, 0xa2be_fe93, 0xfbe0_b140, 0x0c5e_e342, 0xbda6_d61f,
    0x5f58_d614, 0x51c1_85c5, 0x4a86_4e26, 0x1649_7b49, 0xc498_41cf, 0x9707_a8e2, 0x053a_afca]
  const LAP4: seq<Word> := [
    0x18ff_6f31, 0xac6c_468b, 0xf000_f7fc, 0x5a23_eb10, 0x3a75_9c4e, 0xde65_697e, 0x61d8_15f4, 0x77a9_1ec4,
    0x852f_bd1c, 0xf8d1_ada3, 0x8c97_921d, 0xee8d_8fd6, 0xcdc2_bca8, 0x8cc8_bea5, 0x011f_4325, 0x0d3e_92a6,
    0x504c_5819, 0x8587_15d8, 0xb698_2117, 0x9163_acfa, 0x2846_146b, 0xb278_d257, 0x9dc2_903c, 0xe5ec_ea8a,
    0x11d1_a86b, 0xef84_1601, 0x3073_38b0, 0x281b_23b4, 0xb41c_57d0, 0xc77a_e192, 0x2d55_d37e]
  const LAP5: seq<Word> := [
    0xb3fd_c4b0, 0x7b57_672b, 0x6922_f82d, 0x7323_5a41, 0xe6e1_e2d9, 0xce66_617a, 0xd4fb_7035, 0x5e8b_019d,
    0x5396_1e96, 0xcdcd_1dd8, 0xeb22_93ba, 0x4223_ae6c, 0x9b8f_da80, 0x77eb_525f, 0x4342_f191, 0xa8ce_6d26,
    0xc837_aa78, 0xc8ca_0769, 0x5f66_8e3d, 0x599b_5772, 0xf110_1bd4, 0x11df_6094, 0xf75d_e7ae, 0xd6fd_065e,
    0x23b1_08ff, 0xe6e1_fdaf, 0x0770_3f0e, 0x4bcc_2cb3, 0x9afe_557f, 0xceeb_20a0, 0x7922_0031]
  const LAP6: seq<Word> := [
    0x72e1_3330, 0xf310_08ae, 0xd150_1185, 0x2721_1ef1, 0x6239_4a04, 0x3789_59a7, 0xfc1c_8f26, 0xc0c4_4ba1,
    0x8b1f_783d, 0xc9e9_acfe, 0xabe6_df5b, 0xcd43_26a9, 0x6579_877e, 0x23d2_31ba, 0x1086_183a, 0x0e47_f4a4,
    0xec09_dc32, 0xd950_1fa3, 0x6dae_82e1, 0x45a5_33a4, 0xca60_3b77, 0x7f8d_e375, 0x3d03_1b52, 0xa15d_41d5,
    0xa33e_ec74, 0x23e5_1901, 0xa8cd_80e3, 0xef0b_1927, 0xbee3_6e80, 0x77b8_a183, 0x682d_1958]
  const LAP7: seq<Word> := [
    0xaa22_9541, 0xca65_ea4f, 0x8ccd_a135, 0x9a02_5221, 0x5549_52b2, 0x08d9_6b2c, 0x961e_e147, 0x160d_9e53,
    0x93f8_e369, 0x6008_8e45, 0xc1f4_7dae, 0x613c_0a12, 0xc582_15c3, 0xe5c6_af68, 0x71c2_224c, 0xd3ca_0a67,
    0xd1d0_8b9a, 0x4b12_41ef, 0x4178_8d48, 0x1775_bf3e, 0x1572_7d66, 0xc106_70bd, 0x5478_da90, 0xb6cf_bf3b,
    0x6445_5d31, 0x785d_f391, 0x5f9d_401e, 0x5350_7658, 0x3741_6211, 0xd755_e1a1, 0xbb7d_8fb0]
  const LAP8: seq<Word> := [
    0x74f9_18b5, 0x154b_a6c6, 0xd5f8_798b, 0x4424_e762, 0x1faf_3d01, 0x95a7_0c61, 0xda43_c8a9, 0x35bc_db54,
    0x299f_efca, 0x3a4c_56ee, 0xf7b1_5902, 0x8adb_f9dc, 0xffce_6cb1, 0xdd78_086a, 0xfc9e_1c28, 0xd398_7718,
    0xaf48_9404, 0x47b0_5e17, 0x1511_0460, 0xc6be_5342, 0x5d22_db7d, 0xd617_751d, 0x1b37_2dd2, 0x13f2_9ab8,
    0x3a5c_d24e, 0x9395_2163, 0x738f_dad6, 0x8dad_48a6, 0xcad6_8374, 0x4ae5_bc77, 0x492a_d856]
  const LAP9: seq<Word> := [
    0xa483_f32b, 0xa940_9e19, 0x736a_e9c9, 0xb91e_0017, 0x34fa_e3c7, 0x6b9f_85ec, 0x9361_c8c0, 0x6ab7_bf1b,
    0x953f_75b6, 0xcdae_1fae, 0x6269_181d, 0x201b_6f92, 0xcd7c_8c5f, 0x3fe1_2087, 0x1cb9_8bba, 0xa115_0377,
    0xef29_b48b, 0x6469_e9d1, 0xb626_07d7, 0xb5e8_07cd, 0xc18c_c54e, 0x8c3d_7cf4, 0xd11f_359f, 0xd57f_6006,
    0xc69a_4f42, 0x64b4_5702, 0x490f_3adc, 0x5447_97e8, 0x2f8a_da76, 0x93f4_f753, 0x9d72_703e]

  /** The words of randtbl, and randtbl itself, marked as kind 3 with its rear pointer at 0. */
  const LAP10: seq<Word> := [
    0x9a31_9039, 0x32d9_c024, 0x9b66_3182, 0x5da1_f342, 0xde3b_81e0, 0xdf0a_6fb5, 0xf103_bc02, 0x48f3_40fb,
    0x7449_e56b, 0xbeb1_dbb0, 0xab5c_5918, 0x9465_54fd, 0x8c2e_680f, 0xeb3d_799f, 0xb11e_e0b7, 0x2d43_6b86,
    0xda67_2e2a, 0x1588_ca88, 0xe369_735d, 0x904f_35f7, 0xd715_8fd6, 0x6fa6_f051, 0x616e_6b96, 0xac94_efdc,
    0x3641_3f93, 0xc622_c298, 0xf5a4_2ab8, 0x8a88_d77b, 0xf5ad_9d0e, 0x8999_220b, 0x27fb_47b9]

  const RANDTBL: seq<Word> := [3] + LAP10

  /** Word j of the table one lap later. */
  predicate LapAt(t: seq<Word>, t': seq<Word>, j: nat) {
    && |t| == |t'| == 31 && j < 31
    && t'[j] == Add32(t[j], if j < 3 then t'[j + 28] else if j < 6 then t[j - 3] else t'[j - 3])
  }

  predicate Lap(t: seq<Word>, t': seq<Word>) {
    && LapAt(t, t', 0) && LapAt(t, t', 1) && LapAt(t, t', 2) && LapAt(t, t', 3) && LapAt(t, t', 4)
    && LapAt(t, t', 5) && LapAt(t, t', 6) && LapAt(t, t', 7) && LapAt(t, t', 8) && LapAt(t, t', 9)
    && LapAt(t, t', 10) && LapAt(t, t', 11) && LapAt(t, t', 12) && LapAt(t, t', 13) && LapAt(t, t', 14)
    && LapAt(t, t', 15) && LapAt(t, t', 16) && LapAt(t, t', 17) && LapAt(t, t', 18) && LapAt(t, t', 19)
    && LapAt(t, t', 20) && LapAt(t, t', 21) && LapAt(t, t', 22) && LapAt(t, t', 23) && LapAt(t, t', 24)
    && LapAt(t, t', 25) && LapAt(t, t', 26) && LapAt(t, t', 27) && LapAt(t, t', 28) && LapAt(t, t', 29)
    && LapAt(t, t', 30)
  }

  lemma LapEach(t: seq<Word>, t': seq<Word>, j: nat)
    requires Lap(t, t') && j < 31
    ensures LapAt(t, t', j)
  {
    hide LapAt;
  }

  /** The window of a table whose front pointer is at 3. */
  function Window(t: seq<Word>): (w: seq<Word>)
    requires |t| == 31
    ensures |w| == 31 && forall i :: 0 <= i < 31 ==> w[i] == t[if i < 28 then i + 3 else i - 28]
  {
    t[3..] + t[..3]
  }

  lemma NoSteps(g: Gen)
    requires Proper(g)
    ensures Advance(g, 0) == g
  {
  }

  lemma {:induction false} LapSteps(t: seq<Word>, t': seq<Word>, i: nat)
    requires Lap(t, t') && |t| == |t'| == 31 && i <= 31
    ensures Advance(Lag(3, Window(t)), i) == Lag(3, Window(t)[i..] + Window(t')[..i])
  {
    hide Lap, Advance, Add32, Window;
    var w, w' := Window(t), Window(t');
    if i > 0 {
      LapSteps(t, t', i - 1);
      AdvanceMore(Lag(3, w), i - 1);
      LapEach(t, t', if i - 1 < 28 then i + 2 else i - 29);
      var v := w[i - 1..] + w'[..i - 1];
      assert v[0] == w[i - 1] && v[28] == if i - 1 < 3 then w[i + 27] else w'[i - 4];
      assert w'[i - 1] == Add32(v[0], v[28]);
      assert v[1..] + [w'[i - 1]] == w[i..] + w'[..i];
    } else {
      assert w[0..] + w'[..0] == w;
      NoSteps(Lag(3, w));
    }
  }

  lemma LapAdvances(g: Gen, t: seq<Word>, t': seq<Word>)
    requires |t| == |t'| == 31 && g == Lag(3, Window(t)) && Lap(t, t')
    ensures Advance(g, 31) == Lag(3, Window(t'))
  {
    hide Lap, Advance;
    LapSteps(t, t', 31);
    assert Window(t)[31..] + Window(t')[..31] == Window(t');
  }

  lemma LapStep0()
    ensures |LAP0| == |LAP1| == 31 && Advance(Lag(3, Window(LAP0)), 31) == Lag(3, Window(LAP1))
  {
    hide Advance, Window;
    assert Lap(LAP0, LAP1);
    LapAdvances(Lag(3, Window(LAP0)), LAP0, LAP1);
  }

  lemma LapStep1()
    ensures |LAP1| == |LAP2| == 31 && Advance(Lag(3, Window(LAP1)), 31) == Lag(3, Window(LAP2))
  {
    hide Advance, Window;
    assert Lap(LAP1, LAP2);
    LapAdvances(Lag(3, Window(LAP1)), LAP1, LAP2);
  }

  lemma LapStep2()
    ensures |LAP2| == |LAP3| == 31 && Advance(Lag(3, Window(LAP2)), 31) == Lag(3, Window(LAP3))
  {
    hide Advance, Window;
    assert Lap(LAP2, LAP3);
    LapAdvances(Lag(3, Window(LAP2)), LAP2, LAP3);
  }

  lemma LapStep3()
    ensures |LAP3| == |LAP4| == 31 && Advance(Lag(3, Window(LAP3)), 31) == Lag(3, Window(LAP4))
  {
    hide Advance, Window;
    assert Lap(LAP3, LAP4);
    LapAdvances(Lag(3, Window(LAP3)), LAP3, LAP4);
  }

  lemma LapStep4()
    ensures |LAP4| == |LAP5| == 31 && Advance(Lag(3, Window(LAP4)), 31) == Lag(3, Window(LAP5))
  {
    hide Advance, Window;
    assert Lap(LAP4, LAP5);
    LapAdvances(Lag(3, Window(LAP4)), LAP4, LAP5);
  }

  lemma LapStep5()
    ensures |LAP5| == |LAP6| == 31 && Advance(Lag(3, Window(LAP5)), 31) == Lag(3, Window(LAP6))
  {
    hide Advance, Window;
    assert Lap(LAP5, LAP6);
    LapAdvances(Lag(3, Window(LAP5)), LAP5, LAP6);
  }

  lemma LapStep6()
    ensures |LAP6| == |LAP7| == 31 && Advance(Lag(3, Window(LAP6)), 31) == Lag(3, Window(LAP7))
  {
    hide Advance, Window;
    assert Lap(LAP6, LAP7);
    LapAdvances(Lag(3, Window(LAP6)), LAP6, LAP7);
  }

  lemma LapStep7()
    ensures |LAP7| == |LAP8| == 31 && Advance(Lag(3, Window(LAP7)), 31) == Lag(3, Window(LAP8))
  {
    hide Advance, Window;
    assert Lap(LAP7, LAP8);
    LapAdvances(Lag(3, Window(LAP7)), LAP7, LAP8);
  }

  lemma LapStep8()
    ensures |LAP8| == |LAP9| == 31 && Advance(Lag(3, Window(LAP8)), 31) == Lag(3, Window(LAP9))
  {
    hide Advance, Window;
    assert Lap(LAP8, LAP9);
    LapAdvances(Lag(3, Window(LAP8)), LAP8, LAP9);
  }

  lemma LapStep9()
    ensures |LAP9| == |LAP10| == 31 && Advance(Lag(3, Window(LAP9)), 31) == Lag(3, Window(LAP10))
  {
    hide Advance, Window;
    assert Lap(LAP9, LAP10);
    LapAdvances(Lag(3, Window(LAP9)), LAP9, LAP10);
  }

  lemma Twice(g: Gen, h: Gen, i: Gen, a: nat, b: nat)
    requires Proper(g) && Advance(g, a) == h && Proper(h) && Advance(h, b) == i
    ensures Advance(g, a + b) == i
  {
    AdvanceSum(g, a, b);
  }

  lemma FiveLaps()
    ensures |LAP0| == |LAP5| == 31
    ensures Advance(Lag(3, Window(LAP0)), 155) == Lag(3, Window(LAP5))
  {
    hide Advance, Window;
    LapStep0();
    LapStep1();
    LapStep2();
    LapStep3();
    LapStep4();
    var w0 := Lag(3, Window(LAP0));
    var w1 := Lag(3, Window(LAP1));
    var w2 := Lag(3, Window(LAP2));
    var w3 := Lag(3, Window(LAP3));
    var w4 := Lag(3, Window(LAP4));
    var w5 := Lag(3, Window(LAP5));
    Twice(w0, w1, w2, 31, 31);
    Twice(w0, w2, w3, 62, 31);
    Twice(w0, w3, w4, 93, 31);
    Twice(w0, w4, w5, 124, 31);
  }

  lemma TenLaps()
    ensures |LAP5| == |LAP10| == 31
    ensures Advance(Lag(3, Window(LAP5)), 155) == Lag(3, Window(LAP10))
  {
    hide Advance, Window;
    LapStep5();
    LapStep6();
    LapStep7();
    LapStep8();
    LapStep9();
    var w5 := Lag(3, Window(LAP5));
    var w6 := Lag(3, Window(LAP6));
    var w7 := Lag(3, Window(LAP7));
    var w8 := Lag(3, Window(LAP8));
    var w9 := Lag(3, Window(LAP9));
    var w10 := Lag(3, Window(LAP10));
    Twice(w5, w6, w7, 31, 31);
    Twice(w5, w7, w8, 62, 31);
    Twice(w5, w8, w9, 93, 31);
    Twice(w5, w9, w10, 124, 31);
  }

  predicate FillAt(s: seq<Word>, i: nat) { |s| == 31 && i < 30 && s[i + 1] == Mix(s[i]) }

  /** Six words of the fill. */
  predicate FillSix(s: seq<Word>, i: nat) {
    && FillAt(s, i) && FillAt(s, i + 1) && FillAt(s, i + 2)
    && FillAt(s, i + 3) && FillAt(s, i + 4) && FillAt(s, i + 5)
  }

  predicate FillFrom(s: seq<Word>) {
    FillSix(s, 0) && FillSix(s, 6) && FillSix(s, 12) && FillSix(s, 18) && FillSix(s, 24)
  }

  lemma FillEach(s: seq<Word>, i: nat)
    requires FillFrom(s) && i < 30
    ensures FillAt(s, i)
  {
    hide FillAt;
  }

  lemma {:induction false} FillIsPrefix(s: seq<Word>, n: nat)
    requires FillFrom(s) && |s| == 31 && 1 <= n <= 31
    ensures Filled(s[0], n) == s[..n]
  {
    hide FillFrom, Mix;
    if n > 1 {
      FillIsPrefix(s, n - 1);
      FillEach(s, n - 2);
      assert s[..n] == s[..n - 1] + [s[n - 1]];
    }
  }

  lemma FillWords0()
    ensures FillSix(LAP0, 0)
  {
  }

  lemma FillWords6()
    ensures FillSix(LAP0, 6)
  {
  }

  lemma FillWords12()
    ensures FillSix(LAP0, 12)
  {
  }

  lemma FillWords18()
    ensures FillSix(LAP0, 18)
  {
  }

  lemma FillWords24()
    ensures FillSix(LAP0, 24)
  {
  }

  lemma SeededOne()
    ensures |LAP0| == 31 && Seeded(3, 1) == Advance(Lag(3, Window(LAP0)), 310)
  {
    hide Advance, FillSix, Mix;
    FillWords0();
    FillWords6();
    FillWords12();
    FillWords18();
    FillWords24();
    FillIsPrefix(LAP0, 31);
    assert LAP0[..31] == LAP0;
  }

  /** random() starts as if from srandom(1), or from initstate(1, randtbl, 128). */
  lemma StartsSeeded()
    ensures Fits(RANDTBL, 3, 0) && KindFor(128) == 3 && Live(RANDTBL, 3, 0) == Saved(RANDTBL) == Seeded(3, 1)
  {
    hide Advance, Seeded;
    SeededOne();
    FiveLaps();
    TenLaps();
    Twice(Lag(3, Window(LAP0)), Lag(3, Window(LAP5)), Lag(3, Window(LAP10)), 155, 155);
    assert RANDTBL[1..32] == LAP10;
  }

  /** The generator as a program finds it. */
  method AtStart() returns (r: Random)
    ensures fresh(r) && r.Valid() && r.GenOf(r.table) == Seeded(3, 1)
  {
    hide Seeded;
    StartsSeeded();
    var table := new Word[32](i requires 0 <= i < 32 => RANDTBL[i]);
    assert table[..] == RANDTBL;
    r := new Random(table);
  }
}
