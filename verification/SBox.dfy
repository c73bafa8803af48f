/** The two S-boxes of SNOW 3G and the 32-bit substitutions built from them (3GPP TS 35.216, section 3.3).

    SR is pinned by algebra as the Rijndael S-box. Both tables are permutations, the mixing step that follows them
    has order four, hence S1 and S2 are permutations of the 32-bit words. */
module SBox {
  import opened Gf8
  import opened Alpha

  // One row of sixteen table entries.
  function Row(i: bv8,
               t0: bv8, t1: bv8, t2: bv8, t3: bv8, t4: bv8, t5: bv8, t6: bv8, t7: bv8,
               t8: bv8, t9: bv8, t10: bv8, t11: bv8, t12: bv8, t13: bv8, t14: bv8, t15: bv8): bv8
  {
    if i == 0 then t0 else if i == 1 then t1 else if i == 2 then t2 else if i == 3 then t3 else
    if i == 4 then t4 else if i == 5 then t5 else if i == 6 then t6 else if i == 7 then t7 else
    if i == 8 then t8 else if i == 9 then t9 else if i == 10 then t10 else if i == 11 then t11 else
    if i == 12 then t12 else if i == 13 then t13 else if i == 14 then t14 else t15
  }

  /** S-box SR, entry by entry as in the source. */
  function SR(x: bv8): bv8 {
    if x < 0x10 then
      Row(x & 0x0f, 0x63, 0x7C, 0x77, 0x7B, 0xF2, 0x6B, 0x6F, 0xC5,
          0x30, 0x01, 0x67, 0x2B, 0xFE, 0xD7, 0xAB, 0x76)
    else if x < 0x20 then
      Row(x & 0x0f, 0xCA, 0x82, 0xC9, 0x7D, 0xFA, 0x59, 0x47, 0xF0,
          0xAD, 0xD4, 0xA2, 0xAF, 0x9C, 0xA4, 0x72, 0xC0)
    else if x < 0x30 then
      Row(x & 0x0f, 0xB7, 0xFD, 0x93, 0x26, 0x36, 0x3F, 0xF7, 0xCC,
          0x34, 0xA5, 0xE5, 0xF1, 0x71, 0xD8, 0x31, 0x15)
    else if x < 0x40 then
      Row(x & 0x0f, 0x04, 0xC7, 0x23, 0xC3, 0x18, 0x96, 0x05, 0x9A,
          0x07, 0x12, 0x80, 0xE2, 0xEB, 0x27, 0xB2, 0x75)
    else if x < 0x50 then
      Row(x & 0x0f, 0x09, 0x83, 0x2C, 0x1A, 0x1B, 0x6E, 0x5A, 0xA0,
          0x52, 0x3B, 0xD6, 0xB3, 0x29, 0xE3, 0x2F, 0x84)
    else if x < 0x60 then
      Row(x & 0x0f, 0x53, 0xD1, 0x00, 0xED, 0x20, 0xFC, 0xB1, 0x5B,
          0x6A, 0xCB, 0xBE, 0x39, 0x4A, 0x4C, 0x58, 0xCF)
    else if x < 0x70 then
      Row(x & 0x0f, 0xD0, 0xEF, 0xAA, 0xFB, 0x43, 0x4D, 0x33, 0x85,
          0x45, 0xF9, 0x02, 0x7F, 0x50, 0x3C, 0x9F, 0xA8)
    else if x < 0x80 then
      Row(x & 0x0f, 0x51, 0xA3, 0x40, 0x8F, 0x92, 0x9D, 0x38, 0xF5,
          0xBC, 0xB6, 0xDA, 0x21, 0x10, 0xFF, 0xF3, 0xD2)
    else if x < 0x90 then
      Row(x & 0x0f, 0xCD, 0x0C, 0x13, 0xEC, 0x5F, 0x97, 0x44, 0x17,
          0xC4, 0xA7, 0x7E, 0x3D, 0x64, 0x5D, 0x19, 0x73)
    else if x < 0xa0 then
      Row(x & 0x0f, 0x60, 0x81, 0x4F, 0xDC, 0x22, 0x2A, 0x90, 0x88,
          0x46, 0xEE, 0xB8, 0x14, 0xDE, 0x5E, 0x0B, 0xDB)
    else if x < 0xb0 then
      Row(x & 0x0f, 0xE0, 0x32, 0x3A, 0x0A, 0x49, 0x06, 0x24, 0x5C,
          0xC2, 0xD3, 0xAC, 0x62, 0x91, 0x95, 0xE4, 0x79)
    else if x < 0xc0 then
      Row(x & 0x0f, 0xE7, 0xC8, 0x37, 0x6D, 0x8D, 0xD5, 0x4E, 0xA9,
          0x6C, 0x56, 0xF4, 0xEA, 0x65, 0x7A, 0xAE, 0x08)
    else if x < 0xd0 then
      Row(x & 0x0f, 0xBA, 0x78, 0x25, 0x2E, 0x1C, 0xA6, 0xB4, 0xC6,
          0xE8, 0xDD, 0x74, 0x1F, 0x4B, 0xBD, 0x8B, 0x8A)
    else if x < 0xe0 then
      Row(x & 0x0f, 0x70, 0x3E, 0xB5, 0x66, 0x48, 0x03, 0xF6, 0x0E,
          0x61, 0x35, 0x57, 0xB9, 0x86, 0xC1, 0x1D, 0x9E)
    else if x < 0xf0 then
      Row(x & 0x0f, 0xE1, 0xF8, 0x98, 0x11, 0x69, 0xD9, 0x8E, 0x94,
          0x9B, 0x1E, 0x87, 0xE9, 0xCE, 0x55, 0x28, 0xDF)
    else
      Row(x & 0x0f, 0x8C, 0xA1, 0x89, 0x0D, 0xBF, 0xE6, 0x42, 0x68,
          0x41, 0x99, 0x2D, 0x0F, 0xB0, 0x54, 0xBB, 0x16)
  }

  /** S-box SQ, entry by entry as in the source. */
  function SQ(x: bv8): bv8 {
    if x < 0x10 then
      Row(x & 0x0f, 0x25, 0x24, 0x73, 0x67, 0xD7, 0xAE, 0x5C, 0x30,
          0xA4, 0xEE, 0x6E, 0xCB, 0x7D, 0xB5, 0x82, 0xDB)
    else if x < 0x20 then
      Row(x & 0x0f, 0xE4, 0x8E, 0x48, 0x49, 0x4F, 0x5D, 0x6A, 0x78,
          0x70, 0x88, 0xE8, 0x5F, 0x5E, 0x84, 0x65, 0xE2)
    else if x < 0x30 then
      Row(x & 0x0f, 0xD8, 0xE9, 0xCC, 0xED, 0x40, 0x2F, 0x11, 0x28,
          0x57, 0xD2, 0xAC, 0xE3, 0x4A, 0x15, 0x1B, 0xB9)
    else if x < 0x40 then
      Row(x & 0x0f, 0xB2, 0x80, 0x85, 0xA6, 0x2E, 0x02, 0x47, 0x29,
          0x07, 0x4B, 0x0E, 0xC1, 0x51, 0xAA, 0x89, 0xD4)
    else if x < 0x50 then
      Row(x & 0x0f, 0xCA, 0x01, 0x46, 0xB3, 0xEF, 0xDD, 0x44, 0x7B,
          0xC2, 0x7F, 0xBE, 0xC3, 0x9F, 0x20, 0x4C, 0x64)
    else if x < 0x60 then
      Row(x & 0x0f, 0x83, 0xA2, 0x68, 0x42, 0x13, 0xB4, 0x41, 0xCD,
          0xBA, 0xC6, 0xBB, 0x6D, 0x4D, 0x71, 0x21, 0xF4)
    else if x < 0x70 then
      Row(x & 0x0f, 0x8D, 0xB0, 0xE5, 0x93, 0xFE, 0x8F, 0xE6, 0xCF,
          0x43, 0x45, 0x31, 0x22, 0x37, 0x36, 0x96, 0xFA)
    else if x < 0x80 then
      Row(x & 0x0f, 0xBC, 0x0F, 0x08, 0x52, 0x1D, 0x55, 0x1A, 0xC5,
          0x4E, 0x23, 0x69, 0x7A, 0x92, 0xFF, 0x5B, 0x5A)
    else if x < 0x90 then
      Row(x & 0x0f, 0xEB, 0x9A, 0x1C, 0xA9, 0xD1, 0x7E, 0x0D, 0xFC,
          0x50, 0x8A, 0xB6, 0x62, 0xF5, 0x0A, 0xF8, 0xDC)
    else if x < 0xa0 then
      Row(x & 0x0f, 0x03, 0x3C, 0x0C, 0x39, 0xF1, 0xB8, 0xF3, 0x3D,
          0xF2, 0xD5, 0x97, 0x66, 0x81, 0x32, 0xA0, 0x00)
    else if x < 0xb0 then
      Row(x & 0x0f, 0x06, 0xCE, 0xF6, 0xEA, 0xB7, 0x17, 0xF7, 0x8C,
          0x79, 0xD6, 0xA7, 0xBF, 0x8B, 0x3F, 0x1F, 0x53)
    else if x < 0xc0 then
      Row(x & 0x0f, 0x63, 0x75, 0x35, 0x2C, 0x60, 0xFD, 0x27, 0xD3,
          0x94, 0xA5, 0x7C, 0xA1, 0x05, 0x58, 0x2D, 0xBD)
    else if x < 0xd0 then
      Row(x & 0x0f, 0xD9, 0xC7, 0xAF, 0x6B, 0x54, 0x0B, 0xE0, 0x38,
          0x04, 0xC8, 0x9D, 0xE7, 0x14, 0xB1, 0x87, 0x9C)
    else if x < 0xe0 then
      Row(x & 0x0f, 0xDF, 0x6F, 0xF9, 0xDA, 0x2A, 0xC4, 0x59, 0x16,
          0x74, 0x91, 0xAB, 0x26, 0x61, 0x76, 0x34, 0x2B)
    else if x < 0xf0 then
      Row(x & 0x0f, 0xAD, 0x99, 0xFB, 0x72, 0xEC, 0x33, 0x12, 0xDE,
          0x98, 0x3B, 0xC0, 0x9B, 0x3E, 0x18, 0x10, 0x3A)
    else
      Row(x & 0x0f, 0x56, 0xE1, 0x77, 0xC9, 0x1E, 0x9E, 0x95, 0xA3,
          0x90, 0x19, 0xA8, 0x6C, 0x09, 0xD0, 0xF0, 0x86)
  }

  // ----- the inverse tables are not in the source; they witness that SR and SQ are permutations

  /** The inverse of SR. */
  function InvSR(x: bv8): bv8 {
    if x < 0x10 then
      Row(x & 0x0f, 0x52, 0x09, 0x6A, 0xD5, 0x30, 0x36, 0xA5, 0x38,
          0xBF, 0x40, 0xA3, 0x9E, 0x81, 0xF3, 0xD7, 0xFB)
    else if x < 0x20 then
      Row(x & 0x0f, 0x7C, 0xE3, 0x39, 0x82, 0x9B, 0x2F, 0xFF, 0x87,
          0x34, 0x8E, 0x43, 0x44, 0xC4, 0xDE, 0xE9, 0xCB)
    else if x < 0x30 then
      Row(x & 0x0f, 0x54, 0x7B, 0x94, 0x32, 0xA6, 0xC2, 0x23, 0x3D,
          0xEE, 0x4C, 0x95, 0x0B, 0x42, 0xFA, 0xC3, 0x4E)
    else if x < 0x40 then
      Row(x & 0x0f, 0x08, 0x2E, 0xA1, 0x66, 0x28, 0xD9, 0x24, 0xB2,
          0x76, 0x5B, 0xA2, 0x49, 0x6D, 0x8B, 0xD1, 0x25)
    else if x < 0x50 then
      Row(x & 0x0f, 0x72, 0xF8, 0xF6, 0x64, 0x86, 0x68, 0x98, 0x16,
          0xD4, 0xA4, 0x5C, 0xCC, 0x5D, 0x65, 0xB6, 0x92)
    else if x < 0x60 then
      Row(x & 0x0f, 0x6C, 0x70, 0x48, 0x50, 0xFD, 0xED, 0xB9, 0xDA,
          0x5E, 0x15, 0x46, 0x57, 0xA7, 0x8D, 0x9D, 0x84)
    else if x < 0x70 then
      Row(x & 0x0f, 0x90, 0xD8, 0xAB, 0x00, 0x8C, 0xBC, 0xD3, 0x0A,
          0xF7, 0xE4, 0x58, 0x05, 0xB8, 0xB3, 0x45, 0x06)
    else if x < 0x80 then
      Row(x & 0x0f, 0xD0, 0x2C, 0x1E, 0x8F, 0xCA, 0x3F, 0x0F, 0x02,
          0xC1, 0xAF, 0xBD, 0x03, 0x01, 0x13, 0x8A, 0x6B)
    else if x < 0x90 then
      Row(x & 0x0f, 0x3A, 0x91, 0x11, 0x41, 0x4F, 0x67, 0xDC, 0xEA,
          0x97, 0xF2, 0xCF, 0xCE, 0xF0, 0xB4, 0xE6, 0x73)
    else if x < 0xa0 then
      Row(x & 0x0f, 0x96, 0xAC, 0x74, 0x22, 0xE7, 0xAD, 0x35, 0x85,
          0xE2, 0xF9, 0x37, 0xE8, 0x1C, 0x75, 0xDF, 0x6E)
    else if x < 0xb0 then
      Row(x & 0x0f, 0x47, 0xF1, 0x1A, 0x71, 0x1D, 0x29, 0xC5, 0x89,
          0x6F, 0xB7, 0x62, 0x0E, 0xAA, 0x18, 0xBE, 0x1B)
    else if x < 0xc0 then
      Row(x & 0x0f, 0xFC, 0x56, 0x3E, 0x4B, 0xC6, 0xD2, 0x79, 0x20,
          0x9A, 0xDB, 0xC0, 0xFE, 0x78, 0xCD, 0x5A, 0xF4)
    else if x < 0xd0 then
      Row(x & 0x0f, 0x1F, 0xDD, 0xA8, 0x33, 0x88, 0x07, 0xC7, 0x31,
          0xB1, 0x12, 0x10, 0x59, 0x27, 0x80, 0xEC, 0x5F)
    else if x < 0xe0 then
      Row(x & 0x0f, 0x60, 0x51, 0x7F, 0xA9, 0x19, 0xB5, 0x4A, 0x0D,
          0x2D, 0xE5, 0x7A, 0x9F, 0x93, 0xC9, 0x9C, 0xEF)
    else if x < 0xf0 then
      Row(x & 0x0f, 0xA0, 0xE0, 0x3B, 0x4D, 0xAE, 0x2A, 0xF5, 0xB0,
          0xC8, 0xEB, 0xBB, 0x3C, 0x83, 0x53, 0x99, 0x61)
    else
      Row(x & 0x0f, 0x17, 0x2B, 0x04, 0x7E, 0xBA, 0x77, 0xD6, 0x26,
          0xE1, 0x69, 0x14, 0x63, 0x55, 0x21, 0x0C, 0x7D)
  }

  /** The inverse of SQ. */
  function InvSQ(x: bv8): bv8 {
    if x < 0x10 then
      Row(x & 0x0f, 0x9F, 0x41, 0x35, 0x90, 0xC8, 0xBC, 0xA0, 0x38,
          0x72, 0xFC, 0x8D, 0xC5, 0x92, 0x86, 0x3A, 0x71)
    else if x < 0x20 then
      Row(x & 0x0f, 0xEE, 0x26, 0xE6, 0x54, 0xCC, 0x2D, 0xD7, 0xA5,
          0xED, 0xF9, 0x76, 0x2E, 0x82, 0x74, 0xF4, 0xAE)
    else if x < 0x30 then
      Row(x & 0x0f, 0x4D, 0x5E, 0x6B, 0x79, 0x01, 0x00, 0xDB, 0xB6,
          0x27, 0x37, 0xD4, 0xDF, 0xB3, 0xBE, 0x34, 0x25)
    else if x < 0x40 then
      Row(x & 0x0f, 0x07, 0x6A, 0x9D, 0xE5, 0xDE, 0xB2, 0x6D, 0x6C,
          0xC7, 0x93, 0xEF, 0xE9, 0x91, 0x97, 0xEC, 0xAD)
    else if x < 0x50 then
      Row(x & 0x0f, 0x24, 0x56, 0x53, 0x68, 0x46, 0x69, 0x42, 0x36,
          0x12, 0x13, 0x2C, 0x39, 0x4E, 0x5C, 0x78, 0x14)
    else if x < 0x60 then
      Row(x & 0x0f, 0x88, 0x3C, 0x73, 0xAF, 0xC4, 0x75, 0xF0, 0x28,
          0xBD, 0xD6, 0x7F, 0x7E, 0x06, 0x15, 0x1C, 0x1B)
    else if x < 0x70 then
      Row(x & 0x0f, 0xB4, 0xDC, 0x8B, 0xB0, 0x4F, 0x1E, 0x9B, 0x03,
          0x52, 0x7A, 0x16, 0xC3, 0xFB, 0x5B, 0x0A, 0xD1)
    else if x < 0x80 then
      Row(x & 0x0f, 0x18, 0x5D, 0xE3, 0x02, 0xD8, 0xB1, 0xDD, 0xF2,
          0x17, 0xA8, 0x7B, 0x47, 0xBA, 0x0C, 0x85, 0x49)
    else if x < 0x90 then
      Row(x & 0x0f, 0x31, 0x9C, 0x0E, 0x50, 0x1D, 0x32, 0xFF, 0xCE,
          0x19, 0x3E, 0x89, 0xAC, 0xA7, 0x60, 0x11, 0x65)
    else if x < 0xa0 then
      Row(x & 0x0f, 0xF8, 0xD9, 0x7C, 0x63, 0xB8, 0xF6, 0x6E, 0x9A,
          0xE8, 0xE1, 0x81, 0xEB, 0xCF, 0xCA, 0xF5, 0x4C)
    else if x < 0xb0 then
      Row(x & 0x0f, 0x9E, 0xBB, 0x51, 0xF7, 0x08, 0xB9, 0x33, 0xAA,
          0xFA, 0x83, 0x3D, 0xDA, 0x2A, 0xE0, 0x05, 0xC2)
    else if x < 0xc0 then
      Row(x & 0x0f, 0x61, 0xCD, 0x30, 0x43, 0x55, 0x0D, 0x8A, 0xA4,
          0x95, 0x2F, 0x58, 0x5A, 0x70, 0xBF, 0x4A, 0xAB)
    else if x < 0xd0 then
      Row(x & 0x0f, 0xEA, 0x3B, 0x48, 0x4B, 0xD5, 0x77, 0x59, 0xC1,
          0xC9, 0xF3, 0x40, 0x0B, 0x22, 0x57, 0xA1, 0x67)
    else if x < 0xe0 then
      Row(x & 0x0f, 0xFD, 0x84, 0x29, 0xB7, 0x3F, 0x99, 0xA9, 0x04,
          0x20, 0xC0, 0xD3, 0x0F, 0x8F, 0x45, 0xE7, 0xD0)
    else if x < 0xf0 then
      Row(x & 0x0f, 0xC6, 0xF1, 0x1F, 0x2B, 0x10, 0x62, 0x66, 0xCB,
          0x1A, 0x21, 0xA3, 0x80, 0xE4, 0x23, 0x09, 0x44)
    else
      Row(x & 0x0f, 0xFE, 0x94, 0x98, 0x96, 0x5F, 0x8C, 0xA2, 0xA6,
          0x8E, 0xD2, 0x6F, 0xE2, 0x87, 0xB5, 0x64, 0x7D)
  }

  lemma InvSREighth0(x: bv8)
    requires 0x00 <= x <= 0x1f
    ensures InvSR(SR(x)) == x
  {
  }

  lemma InvSREighth1(x: bv8)
    requires 0x20 <= x <= 0x3f
    ensures InvSR(SR(x)) == x
  {
  }

  lemma InvSREighth2(x: bv8)
    requires 0x40 <= x <= 0x5f
    ensures InvSR(SR(x)) == x
  {
  }

  lemma InvSREighth3(x: bv8)
    requires 0x60 <= x <= 0x7f
    ensures InvSR(SR(x)) == x
  {
  }

  lemma InvSREighth4(x: bv8)
    requires 0x80 <= x <= 0x9f
    ensures InvSR(SR(x)) == x
  {
  }

  lemma InvSREighth5(x: bv8)
    requires 0xa0 <= x <= 0xbf
    ensures InvSR(SR(x)) == x
  {
  }

  lemma InvSREighth6(x: bv8)
    requires 0xc0 <= x <= 0xdf
    ensures InvSR(SR(x)) == x
  {
  }

  lemma InvSREighth7(x: bv8)
    requires 0xe0 <= x <= 0xff
    ensures InvSR(SR(x)) == x
  {
  }

  lemma SRPermutation(x: bv8)
    ensures InvSR(SR(x)) == x
  {
    hide *;
    if x <= 0x1f {
      InvSREighth0(x);
    } else if x <= 0x3f {
      InvSREighth1(x);
    } else if x <= 0x5f {
      InvSREighth2(x);
    } else if x <= 0x7f {
      InvSREighth3(x);
    } else if x <= 0x9f {
      InvSREighth4(x);
    } else if x <= 0xbf {
      InvSREighth5(x);
    } else if x <= 0xdf {
      InvSREighth6(x);
    } else {
      InvSREighth7(x);
    }
  }

  lemma InvSQEighth0(x: bv8)
    requires 0x00 <= x <= 0x1f
    ensures InvSQ(SQ(x)) == x
  {
  }

  lemma InvSQEighth1(x: bv8)
    requires 0x20 <= x <= 0x3f
    ensures InvSQ(SQ(x)) == x
  {
  }

  lemma InvSQEighth2(x: bv8)
    requires 0x40 <= x <= 0x5f
    ensures InvSQ(SQ(x)) == x
  {
  }

  lemma InvSQEighth3(x: bv8)
    requires 0x60 <= x <= 0x7f
    ensures InvSQ(SQ(x)) == x
  {
  }

  lemma InvSQEighth4(x: bv8)
    requires 0x80 <= x <= 0x9f
    ensures InvSQ(SQ(x)) == x
  {
  }

  lemma InvSQEighth5(x: bv8)
    requires 0xa0 <= x <= 0xbf
    ensures InvSQ(SQ(x)) == x
  {
  }

  lemma InvSQEighth6(x: bv8)
    requires 0xc0 <= x <= 0xdf
    ensures InvSQ(SQ(x)) == x
  {
  }

  lemma InvSQEighth7(x: bv8)
    requires 0xe0 <= x <= 0xff
    ensures InvSQ(SQ(x)) == x
  {
  }

  lemma SQPermutation(x: bv8)
    ensures InvSQ(SQ(x)) == x
  {
    hide *;
    if x <= 0x1f {
      InvSQEighth0(x);
    } else if x <= 0x3f {
      InvSQEighth1(x);
    } else if x <= 0x5f {
      InvSQEighth2(x);
    } else if x <= 0x7f {
      InvSQEighth3(x);
    } else if x <= 0x9f {
      InvSQEighth4(x);
    } else if x <= 0xbf {
      InvSQEighth5(x);
    } else if x <= 0xdf {
      InvSQEighth6(x);
    } else {
      InvSQEighth7(x);
    }
  }

  // ----- what the tables are

  function Pick(p: bv8, m: bv8, v: bv8): bv8 { if p & m != 0 then v else 0 }

  /** The product v * p in GF(2)[x] / (x^8 + c). */
  function Times(v: bv8, p: bv8, c: bv8): bv8 {
    var v1 := MULx(v, c);
    var v2 := MULx(v1, c);
    var v3 := MULx(v2, c);
    var v4 := MULx(v3, c);
    var v5 := MULx(v4, c);
    var v6 := MULx(v5, c);
    var v7 := MULx(v6, c);
    Pick(p, 0x01, v) ^ Pick(p, 0x02, v1) ^ Pick(p, 0x04, v2) ^ Pick(p, 0x08, v3) ^
    Pick(p, 0x10, v4) ^ Pick(p, 0x20, v5) ^ Pick(p, 0x40, v6) ^ Pick(p, 0x80, v7)
  }

  /** The inverse of the affine step of the Rijndael S-box. */
  function UndoAffine(s: bv8): bv8 {
    ((s << 1) | (s >> 7)) ^ ((s << 3) | (s >> 5)) ^ ((s << 6) | (s >> 2)) ^ 0x05
  }

  lemma RijndaelQuarter0(x: bv8)
    requires 0x00 <= x <= 0x3f
    ensures Times(x, UndoAffine(SR(x)), 0x1b) == if x == 0 then 0 else 1
  {
  }

  lemma RijndaelQuarter1(x: bv8)
    requires 0x40 <= x <= 0x7f
    ensures Times(x, UndoAffine(SR(x)), 0x1b) == if x == 0 then 0 else 1
  {
  }

  lemma RijndaelQuarter2(x: bv8)
    requires 0x80 <= x <= 0xbf
    ensures Times(x, UndoAffine(SR(x)), 0x1b) == if x == 0 then 0 else 1
  {
  }

  lemma RijndaelQuarter3(x: bv8)
    requires 0xc0 <= x <= 0xff
    ensures Times(x, UndoAffine(SR(x)), 0x1b) == if x == 0 then 0 else 1
  {
  }

  /** SR sends x to the affine image of its inverse in GF(2^8), and 0 to the image of 0: undoing the affine step and
      multiplying with x gives 1, for every x but 0. */
  lemma SRIsRijndael(x: bv8)
    ensures Times(x, UndoAffine(SR(x)), 0x1b) == if x == 0 then 0 else 1
  {
    hide *;
    if x <= 0x3f {
      RijndaelQuarter0(x);
    } else if x <= 0x7f {
      RijndaelQuarter1(x);
    } else if x <= 0xbf {
      RijndaelQuarter2(x);
    } else {
      RijndaelQuarter3(x);
    }
  }

  // ----- the mixing step

  datatype Column = Column(a0: bv8, a1: bv8, a2: bv8, a3: bv8)

  /** One output octet of the mixing step: x * a + b + d + (x + 1) * e. */
  function MixRow(a: bv8, b: bv8, d: bv8, e: bv8, c: bv8): bv8 {
    MULx(a, c) ^ b ^ d ^ (MULx(e, c) ^ e)
  }

  function Mix(a: Column, c: bv8): Column {
    Column(MixRow(a.a0, a.a1, a.a2, a.a3, c), MixRow(a.a1, a.a2, a.a3, a.a0, c),
           MixRow(a.a2, a.a3, a.a0, a.a1, c), MixRow(a.a3, a.a0, a.a1, a.a2, c))
  }

  function Sum(a: Column): bv8 { Xor8(Xor8(a.a0, a.a1), Xor8(a.a2, a.a3)) }

  lemma RowAlgebra(a: bv8, b: bv8, d: bv8, e: bv8, xa: bv8, xe: bv8)
    ensures xa ^ b ^ d ^ (xe ^ e) == Xor8(Xor8(Xor8(Xor8(a, b), Xor8(d, e)), a), Xor8(xa, xe))
  {
  }

  lemma SumRotates(a: bv8, b: bv8, d: bv8, e: bv8)
    ensures Xor8(Xor8(b, d), Xor8(e, a)) == Xor8(Xor8(a, b), Xor8(d, e))
  {
  }

  /** A row of the mixing step is the sum of the column, plus the octet, plus x times the difference to the next. */
  lemma RowForm(s: bv8, a: bv8, b: bv8, d: bv8, e: bv8, c: bv8)
    requires s == Xor8(Xor8(a, b), Xor8(d, e))
    ensures MixRow(a, b, d, e, c) == Xor8(Xor8(s, a), MULx(Xor8(a, e), c))
  {
    hide MULx, Xor8;
    RowAlgebra(a, b, d, e, MULx(a, c), MULx(e, c));
    MULxLinear(a, e, c);
  }

  lemma Difference(s: bv8, a: bv8, e: bv8, u: bv8, v: bv8)
    ensures Xor8(Xor8(Xor8(s, a), u), Xor8(Xor8(s, e), v)) == Xor8(Xor8(a, e), Xor8(u, v))
  {
    hide *;
    Swap(Xor8(s, a), u, Xor8(s, e), v);
    Swap(s, a, s, e);
    Cancel(s, 0);
    Cancel(Xor8(a, e), 0);
  }

  lemma Chain(a: bv8, e: bv8, d: bv8)
    ensures Xor8(Xor8(a, e), Xor8(e, d)) == Xor8(a, d)
  {
    hide *;
    Assoc(Xor8(a, e), e, d);
    Cancel(a, e);
  }

  /** Two neighbouring outputs: their difference and its multiple by x, in terms of the inputs a, e, d. */
  lemma NeighbourDifference(s: bv8, a: bv8, e: bv8, d: bv8, c: bv8)
    ensures Xor8(Xor8(Xor8(s, a), MULx(Xor8(a, e), c)), Xor8(Xor8(s, e), MULx(Xor8(e, d), c)))
         == Xor8(Xor8(a, e), MULx(Xor8(a, d), c))
  {
    hide *;
    Difference(s, a, e, MULx(Xor8(a, e), c), MULx(Xor8(e, d), c));
    MULxLinear(Xor8(a, e), Xor8(e, d), c);
    Chain(a, e, d);
  }

  lemma MixForm(a: Column, c: bv8)
    ensures var s := Sum(a);
            Mix(a, c) == Column(Xor8(Xor8(s, a.a0), MULx(Xor8(a.a0, a.a3), c)),
                                Xor8(Xor8(s, a.a1), MULx(Xor8(a.a1, a.a0), c)),
                                Xor8(Xor8(s, a.a2), MULx(Xor8(a.a2, a.a1), c)),
                                Xor8(Xor8(s, a.a3), MULx(Xor8(a.a3, a.a2), c)))
  {
    hide MULx, Xor8, MixRow;
    var Column(a0, a1, a2, a3) := a;
    SumRotates(a0, a1, a2, a3);
    SumRotates(a1, a2, a3, a0);
    SumRotates(a2, a3, a0, a1);
    RowForm(Sum(a), a0, a1, a2, a3, c);
    RowForm(Sum(a), a1, a2, a3, a0, c);
    RowForm(Sum(a), a2, a3, a0, a1, c);
    RowForm(Sum(a), a3, a0, a1, a2, c);
  }

  lemma MixKeepsSum(a: Column, c: bv8)
    ensures Sum(Mix(a, c)) == Sum(a)
  {
    hide MULx, Xor8, MixRow, Mix;
    var Column(a0, a1, a2, a3) := a;
    MixForm(a, c);
    Comm(Xor8(Xor8(Sum(a), a0), MULx(Xor8(a0, a3), c)), Xor8(Xor8(Sum(a), a1), MULx(Xor8(a1, a0), c)));
    NeighbourDifference(Sum(a), a1, a0, a3, c);
    Comm(Xor8(Xor8(Sum(a), a2), MULx(Xor8(a2, a1), c)), Xor8(Xor8(Sum(a), a3), MULx(Xor8(a3, a2), c)));
    NeighbourDifference(Sum(a), a3, a2, a1, c);
    Swap(Xor8(a1, a0), MULx(Xor8(a1, a3), c), Xor8(a3, a2), MULx(Xor8(a3, a1), c));
    Comm(a1, a0);
    Comm(a3, a2);
    Comm(a1, a3);
    Cancel(MULx(Xor8(a1, a3), c), 0);
    Cancel(Sum(a), 0);
  }

  /** Mixing twice adds to an octet x^2 times its difference to the octet opposite. */
  function Opposite(a: bv8, d: bv8, c: bv8): bv8 { Xor8(a, MULx(MULx(Xor8(a, d), c), c)) }

  lemma OppositeForm(a: bv8, d: bv8, c: bv8)
    ensures Opposite(a, d, c) == Xor8(a, MULx(MULx(Xor8(a, d), c), c))
  {
  }

  lemma MixTwiceRow(s: bv8, a: bv8, e: bv8, d: bv8, c: bv8)
    ensures Xor8(Xor8(s, Xor8(Xor8(s, a), MULx(Xor8(a, e), c))), MULx(Xor8(Xor8(a, e), MULx(Xor8(a, d), c)), c))
         == Opposite(a, d, c)
  {
    hide *;
    var u := MULx(Xor8(a, e), c);
    MULxLinear(Xor8(a, e), MULx(Xor8(a, d), c), c);
    Comm(s, Xor8(Xor8(s, a), u));
    Comm(s, a);
    Assoc(a, s, u);
    Comm(s, u);
    Assoc(a, Xor8(u, s), s);
    Cancel(u, s);
    Assoc(a, u, Xor8(u, MULx(MULx(Xor8(a, d), c), c)));
    Chain(0, u, MULx(MULx(Xor8(a, d), c), c));
    Cancel(u, 0);
    Cancel(MULx(MULx(Xor8(a, d), c), c), 0);
    OppositeForm(a, d, c);
  }

  lemma MixTwice(a: Column, c: bv8)
    ensures Mix(Mix(a, c), c) == Column(Opposite(a.a0, a.a2, c), Opposite(a.a1, a.a3, c),
                                        Opposite(a.a2, a.a0, c), Opposite(a.a3, a.a1, c))
  {
    hide *;
    var Column(a0, a1, a2, a3) := a;
    var s := Sum(a);
    MixForm(a, c);
    MixForm(Mix(a, c), c);
    MixKeepsSum(a, c);
    NeighbourDifference(s, a0, a3, a2, c);
    NeighbourDifference(s, a1, a0, a3, c);
    NeighbourDifference(s, a2, a1, a0, c);
    NeighbourDifference(s, a3, a2, a1, c);
    MixTwiceRow(s, a0, a3, a2, c);
    MixTwiceRow(s, a1, a0, a3, c);
    MixTwiceRow(s, a2, a1, a0, c);
    MixTwiceRow(s, a3, a2, a1, c);
  }

  lemma OppositeTwice(a: bv8, d: bv8, c: bv8)
    ensures Opposite(Opposite(a, d, c), Opposite(d, a, c), c) == a
  {
    hide *;
    var t := MULx(MULx(Xor8(a, d), c), c);
    Comm(a, d);
    OppositeForm(a, d, c);
    OppositeForm(d, a, c);
    Swap(a, t, d, t);
    Cancel(t, 0);
    Cancel(Xor8(a, d), 0);
    OppositeForm(Xor8(a, t), Xor8(d, t), c);
    Cancel(a, t);
  }

  /** Mixing has order four, whatever the reduction constant. */
  lemma MixFourTimes(a: Column, c: bv8)
    ensures Mix(Mix(Mix(Mix(a, c), c), c), c) == a
  {
    hide *;
    MixTwice(a, c);
    MixTwice(Mix(Mix(a, c), c), c);
    OppositeTwice(a.a0, a.a2, c);
    OppositeTwice(a.a1, a.a3, c);
    OppositeTwice(a.a2, a.a0, c);
    OppositeTwice(a.a3, a.a1, c);
  }

  // ----- the 32-bit substitutions

  function Pack(a: Column): bv32 { Word(a.a0, a.a1, a.a2, a.a3) }

  function Unpack(w: bv32): Column { Column(Octet0(w), Octet1(w), Octet2(w), Octet3(w)) }

  function S1(w: bv32): bv32 {
    Pack(Mix(Column(SR(Octet0(w)), SR(Octet1(w)), SR(Octet2(w)), SR(Octet3(w))), 0x1b))
  }

  function S2(w: bv32): bv32 {
    Pack(Mix(Column(SQ(Octet0(w)), SQ(Octet1(w)), SQ(Octet2(w)), SQ(Octet3(w))), 0x69))
  }

  function InvS1(w: bv32): bv32 {
    var a := Mix(Mix(Mix(Unpack(w), 0x1b), 0x1b), 0x1b);
    Word(InvSR(a.a0), InvSR(a.a1), InvSR(a.a2), InvSR(a.a3))
  }

  function InvS2(w: bv32): bv32 {
    var a := Mix(Mix(Mix(Unpack(w), 0x69), 0x69), 0x69);
    Word(InvSQ(a.a0), InvSQ(a.a1), InvSQ(a.a2), InvSQ(a.a3))
  }

  lemma UnpackPack(a: Column)
    ensures Unpack(Pack(a)) == a
  {
    hide Word, Octet0, Octet1, Octet2, Octet3;
    OctetsOfWord(a.a0, a.a1, a.a2, a.a3);
  }

  lemma S1Permutation(w: bv32)
    ensures InvS1(S1(w)) == w
  {
    hide Word, Octet0, Octet1, Octet2, Octet3, Mix, SR, InvSR, Pack, Unpack;
    var a := Column(SR(Octet0(w)), SR(Octet1(w)), SR(Octet2(w)), SR(Octet3(w)));
    UnpackPack(Mix(a, 0x1b));
    MixFourTimes(a, 0x1b);
    SRPermutation(Octet0(w));
    SRPermutation(Octet1(w));
    SRPermutation(Octet2(w));
    SRPermutation(Octet3(w));
    WordOctets(w);
  }

  lemma S2Permutation(w: bv32)
    ensures InvS2(S2(w)) == w
  {
    hide Word, Octet0, Octet1, Octet2, Octet3, Mix, SQ, InvSQ, Pack, Unpack;
    var a := Column(SQ(Octet0(w)), SQ(Octet1(w)), SQ(Octet2(w)), SQ(Octet3(w)));
    UnpackPack(Mix(a, 0x69));
    MixFourTimes(a, 0x69);
    SQPermutation(Octet0(w));
    SQPermutation(Octet1(w));
    SQPermutation(Octet2(w));
    SQPermutation(Octet3(w));
    WordOctets(w);
  }
}
