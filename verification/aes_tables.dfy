/** The lookup tables of tserver/tq_aes.c, and what each of them computes in GF(2^8) (FIPS 197, section 4.2). */
module AesTables {
  // One entry of a table line, by the low nibble of the byte looked up.
  function Nth(lo: bv8, v0: bv8, v1: bv8, v2: bv8, v3: bv8, v4: bv8, v5: bv8, v6: bv8, v7: bv8,
    v8: bv8, v9: bv8, va: bv8, vb: bv8, vc: bv8, vd: bv8, ve: bv8, vf: bv8): bv8
  {
    if lo & 8 == 0
    then (if lo & 4 == 0 then (if lo & 2 == 0 then (if lo & 1 == 0 then v0 else v1) else (if lo & 1 == 0 then v2 else v3))
                         else (if lo & 2 == 0 then (if lo & 1 == 0 then v4 else v5) else (if lo & 1 == 0 then v6 else v7)))
    else (if lo & 4 == 0 then (if lo & 2 == 0 then (if lo & 1 == 0 then v8 else v9) else (if lo & 1 == 0 then va else vb))
                         else (if lo & 2 == 0 then (if lo & 1 == 0 then vc else vd) else (if lo & 1 == 0 then ve else vf)))
  }

  function Sbox(b: bv8): bv8 {
    var lo := b & 0x0f;
    match b >> 4
    case 0x0 => Nth(lo, 0x63, 0x7c, 0x77, 0x7b, 0xf2, 0x6b, 0x6f, 0xc5, 0x30, 0x01, 0x67, 0x2b, 0xfe, 0xd7, 0xab, 0x76)
    case 0x1 => Nth(lo, 0xca, 0x82, 0xc9, 0x7d, 0xfa, 0x59, 0x47, 0xf0, 0xad, 0xd4, 0xa2, 0xaf, 0x9c, 0xa4, 0x72, 0xc0)
    case 0x2 => Nth(lo, 0xb7, 0xfd, 0x93, 0x26, 0x36, 0x3f, 0xf7, 0xcc, 0x34, 0xa5, 0xe5, 0xf1, 0x71, 0xd8, 0x31, 0x15)
    case 0x3 => Nth(lo, 0x04, 0xc7, 0x23, 0xc3, 0x18, 0x96, 0x05, 0x9a, 0x07, 0x12, 0x80, 0xe2, 0xeb, 0x27, 0xb2, 0x75)
    case 0x4 => Nth(lo, 0x09, 0x83, 0x2c, 0x1a, 0x1b, 0x6e, 0x5a, 0xa0, 0x52, 0x3b, 0xd6, 0xb3, 0x29, 0xe3, 0x2f, 0x84)
    case 0x5 => Nth(lo, 0x53, 0xd1, 0x00, 0xed, 0x20, 0xfc, 0xb1, 0x5b, 0x6a, 0xcb, 0xbe, 0x39, 0x4a, 0x4c, 0x58, 0xcf)
    case 0x6 => Nth(lo, 0xd0, 0xef, 0xaa, 0xfb, 0x43, 0x4d, 0x33, 0x85, 0x45, 0xf9, 0x02, 0x7f, 0x50, 0x3c, 0x9f, 0xa8)
    case 0x7 => Nth(lo, 0x51, 0xa3, 0x40, 0x8f, 0x92, 0x9d, 0x38, 0xf5, 0xbc, 0xb6, 0xda, 0x21, 0x10, 0xff, 0xf3, 0xd2)
    case 0x8 => Nth(lo, 0xcd, 0x0c, 0x13, 0xec, 0x5f, 0x97, 0x44, 0x17, 0xc4, 0xa7, 0x7e, 0x3d, 0x64, 0x5d, 0x19, 0x73)
    case 0x9 => Nth(lo, 0x60, 0x81, 0x4f, 0xdc, 0x22, 0x2a, 0x90, 0x88, 0x46, 0xee, 0xb8, 0x14, 0xde, 0x5e, 0x0b, 0xdb)
    case 0xa => Nth(lo, 0xe0, 0x32, 0x3a, 0x0a, 0x49, 0x06, 0x24, 0x5c, 0xc2, 0xd3, 0xac, 0x62, 0x91, 0x95, 0xe4, 0x79)
    case 0xb => Nth(lo, 0xe7, 0xc8, 0x37, 0x6d, 0x8d, 0xd5, 0x4e, 0xa9, 0x6c, 0x56, 0xf4, 0xea, 0x65, 0x7a, 0xae, 0x08)
    case 0xc => Nth(lo, 0xba, 0x78, 0x25, 0x2e, 0x1c, 0xa6, 0xb4, 0xc6, 0xe8, 0xdd, 0x74, 0x1f, 0x4b, 0xbd, 0x8b, 0x8a)
    case 0xd => Nth(lo, 0x70, 0x3e, 0xb5, 0x66, 0x48, 0x03, 0xf6, 0x0e, 0x61, 0x35, 0x57, 0xb9, 0x86, 0xc1, 0x1d, 0x9e)
    case 0xe => Nth(lo, 0xe1, 0xf8, 0x98, 0x11, 0x69, 0xd9, 0x8e, 0x94, 0x9b, 0x1e, 0x87, 0xe9, 0xce, 0x55, 0x28, 0xdf)
    case _ => Nth(lo, 0x8c, 0xa1, 0x89, 0x0d, 0xbf, 0xe6, 0x42, 0x68, 0x41, 0x99, 0x2d, 0x0f, 0xb0, 0x54, 0xbb, 0x16)
  }

  function InvSbox(b: bv8): bv8 {
    var lo := b & 0x0f;
    match b >> 4
    case 0x0 => Nth(lo, 0x52, 0x09, 0x6a, 0xd5, 0x30, 0x36, 0xa5, 0x38, 0xbf, 0x40, 0xa3, 0x9e, 0x81, 0xf3, 0xd7, 0xfb)
    case 0x1 => Nth(lo, 0x7c, 0xe3, 0x39, 0x82, 0x9b, 0x2f, 0xff, 0x87, 0x34, 0x8e, 0x43, 0x44, 0xc4, 0xde, 0xe9, 0xcb)
    case 0x2 => Nth(lo, 0x54, 0x7b, 0x94, 0x32, 0xa6, 0xc2, 0x23, 0x3d, 0xee, 0x4c, 0x95, 0x0b, 0x42, 0xfa, 0xc3, 0x4e)
    case 0x3 => Nth(lo, 0x08, 0x2e, 0xa1, 0x66, 0x28, 0xd9, 0x24, 0xb2, 0x76, 0x5b, 0xa2, 0x49, 0x6d, 0x8b, 0xd1, 0x25)
    case 0x4 => Nth(lo, 0x72, 0xf8, 0xf6, 0x64, 0x86, 0x68, 0x98, 0x16, 0xd4, 0xa4, 0x5c, 0xcc, 0x5d, 0x65, 0xb6, 0x92)
    case 0x5 => Nth(lo, 0x6c, 0x70, 0x48, 0x50, 0xfd, 0xed, 0xb9, 0xda, 0x5e, 0x15, 0x46, 0x57, 0xa7, 0x8d, 0x9d, 0x84)
    case 0x6 => Nth(lo, 0x90, 0xd8, 0xab, 0x00, 0x8c, 0xbc, 0xd3, 0x0a, 0xf7, 0xe4, 0x58, 0x05, 0xb8, 0xb3, 0x45, 0x06)
    case 0x7 => Nth(lo, 0xd0, 0x2c, 0x1e, 0x8f, 0xca, 0x3f, 0x0f, 0x02, 0xc1, 0xaf, 0xbd, 0x03, 0x01, 0x13, 0x8a, 0x6b)
    case 0x8 => Nth(lo, 0x3a, 0x91, 0x11, 0x41, 0x4f, 0x67, 0xdc, 0xea, 0x97, 0xf2, 0xcf, 0xce, 0xf0, 0xb4, 0xe6, 0x73)
    case 0x9 => Nth(lo, 0x96, 0xac, 0x74, 0x22, 0xe7, 0xad, 0x35, 0x85, 0xe2, 0xf9, 0x37, 0xe8, 0x1c, 0x75, 0xdf, 0x6e)
    case 0xa => Nth(lo, 0x47, 0xf1, 0x1a, 0x71, 0x1d, 0x29, 0xc5, 0x89, 0x6f, 0xb7, 0x62, 0x0e, 0xaa, 0x18, 0xbe, 0x1b)
    case 0xb => Nth(lo, 0xfc, 0x56, 0x3e, 0x4b, 0xc6, 0xd2, 0x79, 0x20, 0x9a, 0xdb, 0xc0, 0xfe, 0x78, 0xcd, 0x5a, 0xf4)
    case 0xc => Nth(lo, 0x1f, 0xdd, 0xa8, 0x33, 0x88, 0x07, 0xc7, 0x31, 0xb1, 0x12, 0x10, 0x59, 0x27, 0x80, 0xec, 0x5f)
    case 0xd => Nth(lo, 0x60, 0x51, 0x7f, 0xa9, 0x19, 0xb5, 0x4a, 0x0d, 0x2d, 0xe5, 0x7a, 0x9f, 0x93, 0xc9, 0x9c, 0xef)
    case 0xe => Nth(lo, 0xa0, 0xe0, 0x3b, 0x4d, 0xae, 0x2a, 0xf5, 0xb0, 0xc8, 0xeb, 0xbb, 0x3c, 0x83, 0x53, 0x99, 0x61)
    case _ => Nth(lo, 0x17, 0x2b, 0x04, 0x7e, 0xba, 0x77, 0xd6, 0x26, 0xe1, 0x69, 0x14, 0x63, 0x55, 0x21, 0x0c, 0x7d)
  }

  // A row of gf_mul: the multiples of a byte by the coefficients of the two column mixings.
  datatype Products = P(x2: bv8, x3: bv8, x9: bv8, xb: bv8, xd: bv8, xe: bv8)

  function NthRow(lo: bv8, v0: Products, v1: Products, v2: Products, v3: Products, v4: Products, v5: Products, v6: Products, v7: Products,
    v8: Products, v9: Products, va: Products, vb: Products, vc: Products, vd: Products, ve: Products, vf: Products): Products
  {
    if lo & 8 == 0
    then (if lo & 4 == 0 then (if lo & 2 == 0 then (if lo & 1 == 0 then v0 else v1) else (if lo & 1 == 0 then v2 else v3))
                         else (if lo & 2 == 0 then (if lo & 1 == 0 then v4 else v5) else (if lo & 1 == 0 then v6 else v7)))
    else (if lo & 4 == 0 then (if lo & 2 == 0 then (if lo & 1 == 0 then v8 else v9) else (if lo & 1 == 0 then va else vb))
                         else (if lo & 2 == 0 then (if lo & 1 == 0 then vc else vd) else (if lo & 1 == 0 then ve else vf)))
  }

  function Gf(b: bv8): Products {
    var lo := b & 0x0f;
    match b >> 4
    case 0x0 => NthRow(lo,
      P(0x00, 0x00, 0x00, 0x00, 0x00, 0x00), P(0x02, 0x03, 0x09, 0x0b, 0x0d, 0x0e), P(0x04, 0x06, 0x12, 0x16, 0x1a, 0x1c),
      P(0x06, 0x05, 0x1b, 0x1d, 0x17, 0x12), P(0x08, 0x0c, 0x24, 0x2c, 0x34, 0x38), P(0x0a, 0x0f, 0x2d, 0x27, 0x39, 0x36),
      P(0x0c, 0x0a, 0x36, 0x3a, 0x2e, 0x24), P(0x0e, 0x09, 0x3f, 0x31, 0x23, 0x2a), P(0x10, 0x18, 0x48, 0x58, 0x68, 0x70),
      P(0x12, 0x1b, 0x41, 0x53, 0x65, 0x7e), P(0x14, 0x1e, 0x5a, 0x4e, 0x72, 0x6c), P(0x16, 0x1d, 0x53, 0x45, 0x7f, 0x62),
      P(0x18, 0x14, 0x6c, 0x74, 0x5c, 0x48), P(0x1a, 0x17, 0x65, 0x7f, 0x51, 0x46), P(0x1c, 0x12, 0x7e, 0x62, 0x46, 0x54),
      P(0x1e, 0x11, 0x77, 0x69, 0x4b, 0x5a))
    case 0x1 => NthRow(lo,
      P(0x20, 0x30, 0x90, 0xb0, 0xd0, 0xe0), P(0x22, 0x33, 0x99, 0xbb, 0xdd, 0xee), P(0x24, 0x36, 0x82, 0xa6, 0xca, 0xfc),
      P(0x26, 0x35, 0x8b, 0xad, 0xc7, 0xf2), P(0x28, 0x3c, 0xb4, 0x9c, 0xe4, 0xd8), P(0x2a, 0x3f, 0xbd, 0x97, 0xe9, 0xd6),
      P(0x2c, 0x3a, 0xa6, 0x8a, 0xfe, 0xc4), P(0x2e, 0x39, 0xaf, 0x81, 0xf3, 0xca), P(0x30, 0x28, 0xd8, 0xe8, 0xb8, 0x90),
      P(0x32, 0x2b, 0xd1, 0xe3, 0xb5, 0x9e), P(0x34, 0x2e, 0xca, 0xfe, 0xa2, 0x8c), P(0x36, 0x2d, 0xc3, 0xf5, 0xaf, 0x82),
      P(0x38, 0x24, 0xfc, 0xc4, 0x8c, 0xa8), P(0x3a, 0x27, 0xf5, 0xcf, 0x81, 0xa6), P(0x3c, 0x22, 0xee, 0xd2, 0x96, 0xb4),
      P(0x3e, 0x21, 0xe7, 0xd9, 0x9b, 0xba))
    case 0x2 => NthRow(lo,
      P(0x40, 0x60, 0x3b, 0x7b, 0xbb, 0xdb), P(0x42, 0x63, 0x32, 0x70, 0xb6, 0xd5), P(0x44, 0x66, 0x29, 0x6d, 0xa1, 0xc7),
      P(0x46, 0x65, 0x20, 0x66, 0xac, 0xc9), P(0x48, 0x6c, 0x1f, 0x57, 0x8f, 0xe3), P(0x4a, 0x6f, 0x16, 0x5c, 0x82, 0xed),
      P(0x4c, 0x6a, 0x0d, 0x41, 0x95, 0xff), P(0x4e, 0x69, 0x04, 0x4a, 0x98, 0xf1), P(0x50, 0x78, 0x73, 0x23, 0xd3, 0xab),
      P(0x52, 0x7b, 0x7a, 0x28, 0xde, 0xa5), P(0x54, 0x7e, 0x61, 0x35, 0xc9, 0xb7), P(0x56, 0x7d, 0x68, 0x3e, 0xc4, 0xb9),
      P(0x58, 0x74, 0x57, 0x0f, 0xe7, 0x93), P(0x5a, 0x77, 0x5e, 0x04, 0xea, 0x9d), P(0x5c, 0x72, 0x45, 0x19, 0xfd, 0x8f),
      P(0x5e, 0x71, 0x4c, 0x12, 0xf0, 0x81))
    case 0x3 => NthRow(lo,
      P(0x60, 0x50, 0xab, 0xcb, 0x6b, 0x3b), P(0x62, 0x53, 0xa2, 0xc0, 0x66, 0x35), P(0x64, 0x56, 0xb9, 0xdd, 0x71, 0x27),
      P(0x66, 0x55, 0xb0, 0xd6, 0x7c, 0x29), P(0x68, 0x5c, 0x8f, 0xe7, 0x5f, 0x03), P(0x6a, 0x5f, 0x86, 0xec, 0x52, 0x0d),
      P(0x6c, 0x5a, 0x9d, 0xf1, 0x45, 0x1f), P(0x6e, 0x59, 0x94, 0xfa, 0x48, 0x11), P(0x70, 0x48, 0xe3, 0x93, 0x03, 0x4b),
      P(0x72, 0x4b, 0xea, 0x98, 0x0e, 0x45), P(0x74, 0x4e, 0xf1, 0x85, 0x19, 0x57), P(0x76, 0x4d, 0xf8, 0x8e, 0x14, 0x59),
      P(0x78, 0x44, 0xc7, 0xbf, 0x37, 0x73), P(0x7a, 0x47, 0xce, 0xb4, 0x3a, 0x7d), P(0x7c, 0x42, 0xd5, 0xa9, 0x2d, 0x6f),
      P(0x7e, 0x41, 0xdc, 0xa2, 0x20, 0x61))
    case 0x4 => NthRow(lo,
      P(0x80, 0xc0, 0x76, 0xf6, 0x6d, 0xad), P(0x82, 0xc3, 0x7f, 0xfd, 0x60, 0xa3), P(0x84, 0xc6, 0x64, 0xe0, 0x77, 0xb1),
      P(0x86, 0xc5, 0x6d, 0xeb, 0x7a, 0xbf), P(0x88, 0xcc, 0x52, 0xda, 0x59, 0x95), P(0x8a, 0xcf, 0x5b, 0xd1, 0x54, 0x9b),
      P(0x8c, 0xca, 0x40, 0xcc, 0x43, 0x89), P(0x8e, 0xc9, 0x49, 0xc7, 0x4e, 0x87), P(0x90, 0xd8, 0x3e, 0xae, 0x05, 0xdd),
      P(0x92, 0xdb, 0x37, 0xa5, 0x08, 0xd3), P(0x94, 0xde, 0x2c, 0xb8, 0x1f, 0xc1), P(0x96, 0xdd, 0x25, 0xb3, 0x12, 0xcf),
      P(0x98, 0xd4, 0x1a, 0x82, 0x31, 0xe5), P(0x9a, 0xd7, 0x13, 0x89, 0x3c, 0xeb), P(0x9c, 0xd2, 0x08, 0x94, 0x2b, 0xf9),
      P(0x9e, 0xd1, 0x01, 0x9f, 0x26, 0xf7))
    case 0x5 => NthRow(lo,
      P(0xa0, 0xf0, 0xe6, 0x46, 0xbd, 0x4d), P(0xa2, 0xf3, 0xef, 0x4d, 0xb0, 0x43), P(0xa4, 0xf6, 0xf4, 0x50, 0xa7, 0x51),
      P(0xa6, 0xf5, 0xfd, 0x5b, 0xaa, 0x5f), P(0xa8, 0xfc, 0xc2, 0x6a, 0x89, 0x75), P(0xaa, 0xff, 0xcb, 0x61, 0x84, 0x7b),
      P(0xac, 0xfa, 0xd0, 0x7c, 0x93, 0x69), P(0xae, 0xf9, 0xd9, 0x77, 0x9e, 0x67), P(0xb0, 0xe8, 0xae, 0x1e, 0xd5, 0x3d),
      P(0xb2, 0xeb, 0xa7, 0x15, 0xd8, 0x33), P(0xb4, 0xee, 0xbc, 0x08, 0xcf, 0x21), P(0xb6, 0xed, 0xb5, 0x03, 0xc2, 0x2f),
      P(0xb8, 0xe4, 0x8a, 0x32, 0xe1, 0x05), P(0xba, 0xe7, 0x83, 0x39, 0xec, 0x0b), P(0xbc, 0xe2, 0x98, 0x24, 0xfb, 0x19),
      P(0xbe, 0xe1, 0x91, 0x2f, 0xf6, 0x17))
    case 0x6 => NthRow(lo,
      P(0xc0, 0xa0, 0x4d, 0x8d, 0xd6, 0x76), P(0xc2, 0xa3, 0x44, 0x86, 0xdb, 0x78), P(0xc4, 0xa6, 0x5f, 0x9b, 0xcc, 0x6a),
      P(0xc6, 0xa5, 0x56, 0x90, 0xc1, 0x64), P(0xc8, 0xac, 0x69, 0xa1, 0xe2, 0x4e), P(0xca, 0xaf, 0x60, 0xaa, 0xef, 0x40),
      P(0xcc, 0xaa, 0x7b, 0xb7, 0xf8, 0x52), P(0xce, 0xa9, 0x72, 0xbc, 0xf5, 0x5c), P(0xd0, 0xb8, 0x05, 0xd5, 0xbe, 0x06),
      P(0xd2, 0xbb, 0x0c, 0xde, 0xb3, 0x08), P(0xd4, 0xbe, 0x17, 0xc3, 0xa4, 0x1a), P(0xd6, 0xbd, 0x1e, 0xc8, 0xa9, 0x14),
      P(0xd8, 0xb4, 0x21, 0xf9, 0x8a, 0x3e), P(0xda, 0xb7, 0x28, 0xf2, 0x87, 0x30), P(0xdc, 0xb2, 0x33, 0xef, 0x90, 0x22),
      P(0xde, 0xb1, 0x3a, 0xe4, 0x9d, 0x2c))
    case 0x7 => NthRow(lo,
      P(0xe0, 0x90, 0xdd, 0x3d, 0x06, 0x96), P(0xe2, 0x93, 0xd4, 0x36, 0x0b, 0x98), P(0xe4, 0x96, 0xcf, 0x2b, 0x1c, 0x8a),
      P(0xe6, 0x95, 0xc6, 0x20, 0x11, 0x84), P(0xe8, 0x9c, 0xf9, 0x11, 0x32, 0xae), P(0xea, 0x9f, 0xf0, 0x1a, 0x3f, 0xa0),
      P(0xec, 0x9a, 0xeb, 0x07, 0x28, 0xb2), P(0xee, 0x99, 0xe2, 0x0c, 0x25, 0xbc), P(0xf0, 0x88, 0x95, 0x65, 0x6e, 0xe6),
      P(0xf2, 0x8b, 0x9c, 0x6e, 0x63, 0xe8), P(0xf4, 0x8e, 0x87, 0x73, 0x74, 0xfa), P(0xf6, 0x8d, 0x8e, 0x78, 0x79, 0xf4),
      P(0xf8, 0x84, 0xb1, 0x49, 0x5a, 0xde), P(0xfa, 0x87, 0xb8, 0x42, 0x57, 0xd0), P(0xfc, 0x82, 0xa3, 0x5f, 0x40, 0xc2),
      P(0xfe, 0x81, 0xaa, 0x54, 0x4d, 0xcc))
    case 0x8 => NthRow(lo,
      P(0x1b, 0x9b, 0xec, 0xf7, 0xda, 0x41), P(0x19, 0x98, 0xe5, 0xfc, 0xd7, 0x4f), P(0x1f, 0x9d, 0xfe, 0xe1, 0xc0, 0x5d),
      P(0x1d, 0x9e, 0xf7, 0xea, 0xcd, 0x53), P(0x13, 0x97, 0xc8, 0xdb, 0xee, 0x79), P(0x11, 0x94, 0xc1, 0xd0, 0xe3, 0x77),
      P(0x17, 0x91, 0xda, 0xcd, 0xf4, 0x65), P(0x15, 0x92, 0xd3, 0xc6, 0xf9, 0x6b), P(0x0b, 0x83, 0xa4, 0xaf, 0xb2, 0x31),
      P(0x09, 0x80, 0xad, 0xa4, 0xbf, 0x3f), P(0x0f, 0x85, 0xb6, 0xb9, 0xa8, 0x2d), P(0x0d, 0x86, 0xbf, 0xb2, 0xa5, 0x23),
      P(0x03, 0x8f, 0x80, 0x83, 0x86, 0x09), P(0x01, 0x8c, 0x89, 0x88, 0x8b, 0x07), P(0x07, 0x89, 0x92, 0x95, 0x9c, 0x15),
      P(0x05, 0x8a, 0x9b, 0x9e, 0x91, 0x1b))
    case 0x9 => NthRow(lo,
      P(0x3b, 0xab, 0x7c, 0x47, 0x0a, 0xa1), P(0x39, 0xa8, 0x75, 0x4c, 0x07, 0xaf), P(0x3f, 0xad, 0x6e, 0x51, 0x10, 0xbd),
      P(0x3d, 0xae, 0x67, 0x5a, 0x1d, 0xb3), P(0x33, 0xa7, 0x58, 0x6b, 0x3e, 0x99), P(0x31, 0xa4, 0x51, 0x60, 0x33, 0x97),
      P(0x37, 0xa1, 0x4a, 0x7d, 0x24, 0x85), P(0x35, 0xa2, 0x43, 0x76, 0x29, 0x8b), P(0x2b, 0xb3, 0x34, 0x1f, 0x62, 0xd1),
      P(0x29, 0xb0, 0x3d, 0x14, 0x6f, 0xdf), P(0x2f, 0xb5, 0x26, 0x09, 0x78, 0xcd), P(0x2d, 0xb6, 0x2f, 0x02, 0x75, 0xc3),
      P(0x23, 0xbf, 0x10, 0x33, 0x56, 0xe9), P(0x21, 0xbc, 0x19, 0x38, 0x5b, 0xe7), P(0x27, 0xb9, 0x02, 0x25, 0x4c, 0xf5),
      P(0x25, 0xba, 0x0b, 0x2e, 0x41, 0xfb))
    case 0xa => NthRow(lo,
      P(0x5b, 0xfb, 0xd7, 0x8c, 0x61, 0x9a), P(0x59, 0xf8, 0xde, 0x87, 0x6c, 0x94), P(0x5f, 0xfd, 0xc5, 0x9a, 0x7b, 0x86),
      P(0x5d, 0xfe, 0xcc, 0x91, 0x76, 0x88), P(0x53, 0xf7, 0xf3, 0xa0, 0x55, 0xa2), P(0x51, 0xf4, 0xfa, 0xab, 0x58, 0xac),
      P(0x57, 0xf1, 0xe1, 0xb6, 0x4f, 0xbe), P(0x55, 0xf2, 0xe8, 0xbd, 0x42, 0xb0), P(0x4b, 0xe3, 0x9f, 0xd4, 0x09, 0xea),
      P(0x49, 0xe0, 0x96, 0xdf, 0x04, 0xe4), P(0x4f, 0xe5, 0x8d, 0xc2, 0x13, 0xf6), P(0x4d, 0xe6, 0x84, 0xc9, 0x1e, 0xf8),
      P(0x43, 0xef, 0xbb, 0xf8, 0x3d, 0xd2), P(0x41, 0xec, 0xb2, 0xf3, 0x30, 0xdc), P(0x47, 0xe9, 0xa9, 0xee, 0x27, 0xce),
      P(0x45, 0xea, 0xa0, 0xe5, 0x2a, 0xc0))
    case 0xb => NthRow(lo,
      P(0x7b, 0xcb, 0x47, 0x3c, 0xb1, 0x7a), P(0x79, 0xc8, 0x4e, 0x37, 0xbc, 0x74), P(0x7f, 0xcd, 0x55, 0x2a, 0xab, 0x66),
      P(0x7d, 0xce, 0x5c, 0x21, 0xa6, 0x68), P(0x73, 0xc7, 0x63, 0x10, 0x85, 0x42), P(0x71, 0xc4, 0x6a, 0x1b, 0x88, 0x4c),
      P(0x77, 0xc1, 0x71, 0x06, 0x9f, 0x5e), P(0x75, 0xc2, 0x78, 0x0d, 0x92, 0x50), P(0x6b, 0xd3, 0x0f, 0x64, 0xd9, 0x0a),
      P(0x69, 0xd0, 0x06, 0x6f, 0xd4, 0x04), P(0x6f, 0xd5, 0x1d, 0x72, 0xc3, 0x16), P(0x6d, 0xd6, 0x14, 0x79, 0xce, 0x18),
      P(0x63, 0xdf, 0x2b, 0x48, 0xed, 0x32), P(0x61, 0xdc, 0x22, 0x43, 0xe0, 0x3c), P(0x67, 0xd9, 0x39, 0x5e, 0xf7, 0x2e),
      P(0x65, 0xda, 0x30, 0x55, 0xfa, 0x20))
    case 0xc => NthRow(lo,
      P(0x9b, 0x5b, 0x9a, 0x01, 0xb7, 0xec), P(0x99, 0x58, 0x93, 0x0a, 0xba, 0xe2), P(0x9f, 0x5d, 0x88, 0x17, 0xad, 0xf0),
      P(0x9d, 0x5e, 0x81, 0x1c, 0xa0, 0xfe), P(0x93, 0x57, 0xbe, 0x2d, 0x83, 0xd4), P(0x91, 0x54, 0xb7, 0x26, 0x8e, 0xda),
      P(0x97, 0x51, 0xac, 0x3b, 0x99, 0xc8), P(0x95, 0x52, 0xa5, 0x30, 0x94, 0xc6), P(0x8b, 0x43, 0xd2, 0x59, 0xdf, 0x9c),
      P(0x89, 0x40, 0xdb, 0x52, 0xd2, 0x92), P(0x8f, 0x45, 0xc0, 0x4f, 0xc5, 0x80), P(0x8d, 0x46, 0xc9, 0x44, 0xc8, 0x8e),
      P(0x83, 0x4f, 0xf6, 0x75, 0xeb, 0xa4), P(0x81, 0x4c, 0xff, 0x7e, 0xe6, 0xaa), P(0x87, 0x49, 0xe4, 0x63, 0xf1, 0xb8),
      P(0x85, 0x4a, 0xed, 0x68, 0xfc, 0xb6))
    case 0xd => NthRow(lo,
      P(0xbb, 0x6b, 0x0a, 0xb1, 0x67, 0x0c), P(0xb9, 0x68, 0x03, 0xba, 0x6a, 0x02), P(0xbf, 0x6d, 0x18, 0xa7, 0x7d, 0x10),
      P(0xbd, 0x6e, 0x11, 0xac, 0x70, 0x1e), P(0xb3, 0x67, 0x2e, 0x9d, 0x53, 0x34), P(0xb1, 0x64, 0x27, 0x96, 0x5e, 0x3a),
      P(0xb7, 0x61, 0x3c, 0x8b, 0x49, 0x28), P(0xb5, 0x62, 0x35, 0x80, 0x44, 0x26), P(0xab, 0x73, 0x42, 0xe9, 0x0f, 0x7c),
      P(0xa9, 0x70, 0x4b, 0xe2, 0x02, 0x72), P(0xaf, 0x75, 0x50, 0xff, 0x15, 0x60), P(0xad, 0x76, 0x59, 0xf4, 0x18, 0x6e),
      P(0xa3, 0x7f, 0x66, 0xc5, 0x3b, 0x44), P(0xa1, 0x7c, 0x6f, 0xce, 0x36, 0x4a), P(0xa7, 0x79, 0x74, 0xd3, 0x21, 0x58),
      P(0xa5, 0x7a, 0x7d, 0xd8, 0x2c, 0x56))
    case 0xe => NthRow(lo,
      P(0xdb, 0x3b, 0xa1, 0x7a, 0x0c, 0x37), P(0xd9, 0x38, 0xa8, 0x71, 0x01, 0x39), P(0xdf, 0x3d, 0xb3, 0x6c, 0x16, 0x2b),
      P(0xdd, 0x3e, 0xba, 0x67, 0x1b, 0x25), P(0xd3, 0x37, 0x85, 0x56, 0x38, 0x0f), P(0xd1, 0x34, 0x8c, 0x5d, 0x35, 0x01),
      P(0xd7, 0x31, 0x97, 0x40, 0x22, 0x13), P(0xd5, 0x32, 0x9e, 0x4b, 0x2f, 0x1d), P(0xcb, 0x23, 0xe9, 0x22, 0x64, 0x47),
      P(0xc9, 0x20, 0xe0, 0x29, 0x69, 0x49), P(0xcf, 0x25, 0xfb, 0x34, 0x7e, 0x5b), P(0xcd, 0x26, 0xf2, 0x3f, 0x73, 0x55),
      P(0xc3, 0x2f, 0xcd, 0x0e, 0x50, 0x7f), P(0xc1, 0x2c, 0xc4, 0x05, 0x5d, 0x71), P(0xc7, 0x29, 0xdf, 0x18, 0x4a, 0x63),
      P(0xc5, 0x2a, 0xd6, 0x13, 0x47, 0x6d))
    case _ => NthRow(lo,
      P(0xfb, 0x0b, 0x31, 0xca, 0xdc, 0xd7), P(0xf9, 0x08, 0x38, 0xc1, 0xd1, 0xd9), P(0xff, 0x0d, 0x23, 0xdc, 0xc6, 0xcb),
      P(0xfd, 0x0e, 0x2a, 0xd7, 0xcb, 0xc5), P(0xf3, 0x07, 0x15, 0xe6, 0xe8, 0xef), P(0xf1, 0x04, 0x1c, 0xed, 0xe5, 0xe1),
      P(0xf7, 0x01, 0x07, 0xf0, 0xf2, 0xf3), P(0xf5, 0x02, 0x0e, 0xfb, 0xff, 0xfd), P(0xeb, 0x13, 0x79, 0x92, 0xb4, 0xa7),
      P(0xe9, 0x10, 0x70, 0x99, 0xb9, 0xa9), P(0xef, 0x15, 0x6b, 0x84, 0xae, 0xbb), P(0xed, 0x16, 0x62, 0x8f, 0xa3, 0xb5),
      P(0xe3, 0x1f, 0x5d, 0xbe, 0x80, 0x9f), P(0xe1, 0x1c, 0x54, 0xb5, 0x8d, 0x91), P(0xe7, 0x19, 0x4f, 0xa8, 0x9a, 0x83),
      P(0xe5, 0x1a, 0x46, 0xa3, 0x97, 0x8d))
  }

  // Addition in GF(2^8).
  function Add(x: bv8, y: bv8): bv8 { x ^ y }

  // Multiplication by x: a shift, reduced by x^8 + x^4 + x^3 + x + 1.
  function Xtime(b: bv8): bv8 { (b << 1) ^ ((b >> 7) * 0x1b) }

  function If(c: bv8, v: bv8): bv8 { if c != 0 then v else 0 }

  // Multiplication in GF(2^8): the sum of x^i * a over the bits of b.
  function Mul(a: bv8, b: bv8): bv8 {
    var a1 := Xtime(a);
    var a2 := Xtime(a1);
    var a3 := Xtime(a2);
    var a4 := Xtime(a3);
    var a5 := Xtime(a4);
    var a6 := Xtime(a5);
    var a7 := Xtime(a6);
    If(b & 0x01, a) ^ If(b & 0x02, a1) ^ If(b & 0x04, a2) ^ If(b & 0x08, a3)
    ^ If(b & 0x10, a4) ^ If(b & 0x20, a5) ^ If(b & 0x40, a6) ^ If(b & 0x80, a7)
  }

  function Rotl(b: bv8, n: bv8): bv8
    requires 0 < n < 8
  {
    (b << n) | (b >> (8 - n))
  }

  // The affine map of the S-box, and its inverse (FIPS 197, sections 5.1.1 and 5.3.2).
  function Affine(b: bv8): bv8 { b ^ Rotl(b, 1) ^ Rotl(b, 2) ^ Rotl(b, 3) ^ Rotl(b, 4) ^ 0x63 }

  function InvAffine(b: bv8): bv8 { Rotl(b, 1) ^ Rotl(b, 3) ^ Rotl(b, 6) ^ 0x05 }

  lemma AffineBack(b: bv8)
    ensures Affine(InvAffine(b)) == b
  {}

  lemma SboxZero()
    ensures InvAffine(Sbox(0)) == 0
  {}

  lemma SboxInverts0(b: bv8) requires b >> 6 == 0 && b != 0 ensures Mul(b, InvAffine(Sbox(b))) == 1 {}
  lemma SboxInverts1(b: bv8) requires b >> 6 == 1 && b != 0 ensures Mul(b, InvAffine(Sbox(b))) == 1 {}
  lemma SboxInverts2(b: bv8) requires b >> 6 == 2 && b != 0 ensures Mul(b, InvAffine(Sbox(b))) == 1 {}
  lemma SboxInverts3(b: bv8) requires b >> 6 == 3 && b != 0 ensures Mul(b, InvAffine(Sbox(b))) == 1 {}

  // The S-box is inversion in the field, 0 standing for itself, followed by the affine map.
  lemma SboxInverts(b: bv8) returns (inv: bv8)
    ensures Sbox(b) == Affine(inv)
    ensures if b == 0 then inv == 0 else Mul(b, inv) == 1
  {
    hide Mul, Affine, InvAffine, Sbox;
    inv := InvAffine(Sbox(b));
    AffineBack(Sbox(b));
    SboxZero();
    if b != 0 {
      match b >> 6
      case 0 => SboxInverts0(b);
      case 1 => SboxInverts1(b);
      case 2 => SboxInverts2(b);
      case _ => SboxInverts3(b);
    }
  }

  // The other table undoes it.
  lemma InvSboxUndoes0(b: bv8) requires b & 0x0f == 0 ensures InvSbox(Sbox(b)) == b {}
  lemma InvSboxUndoes1(b: bv8) requires b & 0x0f == 1 ensures InvSbox(Sbox(b)) == b {}
  lemma InvSboxUndoes2(b: bv8) requires b & 0x0f == 2 ensures InvSbox(Sbox(b)) == b {}
  lemma InvSboxUndoes3(b: bv8) requires b & 0x0f == 3 ensures InvSbox(Sbox(b)) == b {}
  lemma InvSboxUndoes4(b: bv8) requires b & 0x0f == 4 ensures InvSbox(Sbox(b)) == b {}
  lemma InvSboxUndoes5(b: bv8) requires b & 0x0f == 5 ensures InvSbox(Sbox(b)) == b {}
  lemma InvSboxUndoes6(b: bv8) requires b & 0x0f == 6 ensures InvSbox(Sbox(b)) == b {}
  lemma InvSboxUndoes7(b: bv8) requires b & 0x0f == 7 ensures InvSbox(Sbox(b)) == b {}
  lemma InvSboxUndoes8(b: bv8) requires b & 0x0f == 8 ensures InvSbox(Sbox(b)) == b {}
  lemma InvSboxUndoes9(b: bv8) requires b & 0x0f == 9 ensures InvSbox(Sbox(b)) == b {}
  lemma InvSboxUndoes10(b: bv8) requires b & 0x0f == 10 ensures InvSbox(Sbox(b)) == b {}
  lemma InvSboxUndoes11(b: bv8) requires b & 0x0f == 11 ensures InvSbox(Sbox(b)) == b {}
  lemma InvSboxUndoes12(b: bv8) requires b & 0x0f == 12 ensures InvSbox(Sbox(b)) == b {}
  lemma InvSboxUndoes13(b: bv8) requires b & 0x0f == 13 ensures InvSbox(Sbox(b)) == b {}
  lemma InvSboxUndoes14(b: bv8) requires b & 0x0f == 14 ensures InvSbox(Sbox(b)) == b {}
  lemma InvSboxUndoes15(b: bv8) requires b & 0x0f == 15 ensures InvSbox(Sbox(b)) == b {}

  lemma InvSboxUndoes(b: bv8)
    ensures InvSbox(Sbox(b)) == b
  {
    hide Sbox, InvSbox;
    match b & 0x0f
    case 0 => InvSboxUndoes0(b);
    case 1 => InvSboxUndoes1(b);
    case 2 => InvSboxUndoes2(b);
    case 3 => InvSboxUndoes3(b);
    case 4 => InvSboxUndoes4(b);
    case 5 => InvSboxUndoes5(b);
    case 6 => InvSboxUndoes6(b);
    case 7 => InvSboxUndoes7(b);
    case 8 => InvSboxUndoes8(b);
    case 9 => InvSboxUndoes9(b);
    case 10 => InvSboxUndoes10(b);
    case 11 => InvSboxUndoes11(b);
    case 12 => InvSboxUndoes12(b);
    case 13 => InvSboxUndoes13(b);
    case 14 => InvSboxUndoes14(b);
    case _ => InvSboxUndoes15(b);
  }

  // The columns of gf_mul are the products by 2, 3, 9, 11, 13 and 14.
  function Multiples(b: bv8): Products { P(Mul(b, 2), Mul(b, 3), Mul(b, 9), Mul(b, 11), Mul(b, 13), Mul(b, 14)) }

  lemma GfMultiplies0(b: bv8) requires b >> 5 == 0 ensures Gf(b) == Multiples(b) {}
  lemma GfMultiplies1(b: bv8) requires b >> 5 == 1 ensures Gf(b) == Multiples(b) {}
  lemma GfMultiplies2(b: bv8) requires b >> 5 == 2 ensures Gf(b) == Multiples(b) {}
  lemma GfMultiplies3(b: bv8) requires b >> 5 == 3 ensures Gf(b) == Multiples(b) {}
  lemma GfMultiplies4(b: bv8) requires b >> 5 == 4 ensures Gf(b) == Multiples(b) {}
  lemma GfMultiplies5(b: bv8) requires b >> 5 == 5 ensures Gf(b) == Multiples(b) {}
  lemma GfMultiplies6(b: bv8) requires b >> 5 == 6 ensures Gf(b) == Multiples(b) {}
  lemma GfMultiplies7(b: bv8) requires b >> 5 == 7 ensures Gf(b) == Multiples(b) {}

  lemma GfMultiplies(b: bv8)
    ensures Gf(b) == Multiples(b)
  {
    hide Gf, Multiples;
    match b >> 5
    case 0 => GfMultiplies0(b);
    case 1 => GfMultiplies1(b);
    case 2 => GfMultiplies2(b);
    case 3 => GfMultiplies3(b);
    case 4 => GfMultiplies4(b);
    case 5 => GfMultiplies5(b);
    case 6 => GfMultiplies6(b);
    case _ => GfMultiplies7(b);
  }
}
