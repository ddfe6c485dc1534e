/** The two checksums that frame every message of the robot's wire protocol.

    The program computes them with 256-entry lookup tables.  The reference forms are the
    bit-by-bit reflected shift registers: polynomial 0x8C (8 bits) and 0x8408 (16 bits, the
    register of Appendix C of RFC 1662).  The register starts at 0x77, respectively 0x3692. */
module CrcTables {

  /** One bit of the reflected shift registers. */
  function Bit8(c: bv8): bv8 {
    if c & 1 == 1 then (c >> 1) ^ 0x8c else c >> 1
  }

  function Bit16(c: bv16): bv16 {
    if c & 1 == 1 then (c >> 1) ^ 0x8408 else c >> 1
  }

  /** Eight bits: one byte has been shifted through. */
  function Shift8(c: bv8): bv8 {
    Bit8(Bit8(Bit8(Bit8(Bit8(Bit8(Bit8(Bit8(c))))))))
  }

  function Shift16(c: bv16): bv16 {
    Bit16(Bit16(Bit16(Bit16(Bit16(Bit16(Bit16(Bit16(c))))))))
  }

  /** Column `i` of a table row of sixteen entries. */
  function Pick8(i: bv8,
    v0: bv8, v1: bv8, v2: bv8, v3: bv8, v4: bv8, v5: bv8, v6: bv8, v7: bv8,
    v8: bv8, v9: bv8, va: bv8, vb: bv8, vc: bv8, vd: bv8, ve: bv8, vf: bv8)
    : bv8
  {
    if i == 0 then v0
    else if i == 1 then v1
    else if i == 2 then v2
    else if i == 3 then v3
    else if i == 4 then v4
    else if i == 5 then v5
    else if i == 6 then v6
    else if i == 7 then v7
    else if i == 8 then v8
    else if i == 9 then v9
    else if i == 10 then va
    else if i == 11 then vb
    else if i == 12 then vc
    else if i == 13 then vd
    else if i == 14 then ve
    else vf
  }

  function Pick16(i: bv8,
    v0: bv16, v1: bv16, v2: bv16, v3: bv16, v4: bv16, v5: bv16, v6: bv16, v7: bv16,
    v8: bv16, v9: bv16, va: bv16, vb: bv16, vc: bv16, vd: bv16, ve: bv16, vf: bv16)
    : bv16
  {
    if i == 0 then v0
    else if i == 1 then v1
    else if i == 2 then v2
    else if i == 3 then v3
    else if i == 4 then v4
    else if i == 5 then v5
    else if i == 6 then v6
    else if i == 7 then v7
    else if i == 8 then v8
    else if i == 9 then v9
    else if i == 10 then va
    else if i == 11 then vb
    else if i == 12 then vc
    else if i == 13 then vd
    else if i == 14 then ve
    else vf
  }

  /** The constants of `crc8_table`, row by row. */
  function Crc8Table(x: bv8): bv8 {
    var i := x & 0x0f;
    var row := x >> 4;
    if row == 0 then
      Pick8(i, 0x00, 0x5e, 0xbc, 0xe2, 0x61, 0x3f, 0xdd, 0x83, 0xc2, 0x9c, 0x7e, 0x20, 0xa3, 0xfd, 0x1f, 0x41)
    else if row == 1 then
      Pick8(i, 0x9d, 0xc3, 0x21, 0x7f, 0xfc, 0xa2, 0x40, 0x1e, 0x5f, 0x01, 0xe3, 0xbd, 0x3e, 0x60, 0x82, 0xdc)
    else if row == 2 then
      Pick8(i, 0x23, 0x7d, 0x9f, 0xc1, 0x42, 0x1c, 0xfe, 0xa0, 0xe1, 0xbf, 0x5d, 0x03, 0x80, 0xde, 0x3c, 0x62)
    else if row == 3 then
      Pick8(i, 0xbe, 0xe0, 0x02, 0x5c, 0xdf, 0x81, 0x63, 0x3d, 0x7c, 0x22, 0xc0, 0x9e, 0x1d, 0x43, 0xa1, 0xff)
    else if row == 4 then
      Pick8(i, 0x46, 0x18, 0xfa, 0xa4, 0x27, 0x79, 0x9b, 0xc5, 0x84, 0xda, 0x38, 0x66, 0xe5, 0xbb, 0x59, 0x07)
    else if row == 5 then
      Pick8(i, 0xdb, 0x85, 0x67, 0x39, 0xba, 0xe4, 0x06, 0x58, 0x19, 0x47, 0xa5, 0xfb, 0x78, 0x26, 0xc4, 0x9a)
    else if row == 6 then
      Pick8(i, 0x65, 0x3b, 0xd9, 0x87, 0x04, 0x5a, 0xb8, 0xe6, 0xa7, 0xf9, 0x1b, 0x45, 0xc6, 0x98, 0x7a, 0x24)
    else if row == 7 then
      Pick8(i, 0xf8, 0xa6, 0x44, 0x1a, 0x99, 0xc7, 0x25, 0x7b, 0x3a, 0x64, 0x86, 0xd8, 0x5b, 0x05, 0xe7, 0xb9)
    else if row == 8 then
      Pick8(i, 0x8c, 0xd2, 0x30, 0x6e, 0xed, 0xb3, 0x51, 0x0f, 0x4e, 0x10, 0xf2, 0xac, 0x2f, 0x71, 0x93, 0xcd)
    else if row == 9 then
      Pick8(i, 0x11, 0x4f, 0xad, 0xf3, 0x70, 0x2e, 0xcc, 0x92, 0xd3, 0x8d, 0x6f, 0x31, 0xb2, 0xec, 0x0e, 0x50)
    else if row == 10 then
      Pick8(i, 0xaf, 0xf1, 0x13, 0x4d, 0xce, 0x90, 0x72, 0x2c, 0x6d, 0x33, 0xd1, 0x8f, 0x0c, 0x52, 0xb0, 0xee)
    else if row == 11 then
      Pick8(i, 0x32, 0x6c, 0x8e, 0xd0, 0x53, 0x0d, 0xef, 0xb1, 0xf0, 0xae, 0x4c, 0x12, 0x91, 0xcf, 0x2d, 0x73)
    else if row == 12 then
      Pick8(i, 0xca, 0x94, 0x76, 0x28, 0xab, 0xf5, 0x17, 0x49, 0x08, 0x56, 0xb4, 0xea, 0x69, 0x37, 0xd5, 0x8b)
    else if row == 13 then
      Pick8(i, 0x57, 0x09, 0xeb, 0xb5, 0x36, 0x68, 0x8a, 0xd4, 0x95, 0xcb, 0x29, 0x77, 0xf4, 0xaa, 0x48, 0x16)
    else if row == 14 then
      Pick8(i, 0xe9, 0xb7, 0x55, 0x0b, 0x88, 0xd6, 0x34, 0x6a, 0x2b, 0x75, 0x97, 0xc9, 0x4a, 0x14, 0xf6, 0xa8)
    else
      Pick8(i, 0x74, 0x2a, 0xc8, 0x96, 0x15, 0x4b, 0xa9, 0xf7, 0xb6, 0xe8, 0x0a, 0x54, 0xd7, 0x89, 0x6b, 0x35)
  }

  /** The constants of `crc16_table`, sixteen to a row. */
  function Crc16Table(x: bv8): bv16 {
    var i := x & 0x0f;
    var row := x >> 4;
    if row == 0 then
      Pick16(i, 0x0000, 0x1189, 0x2312, 0x329b, 0x4624, 0x57ad, 0x6536, 0x74bf,
        0x8c48, 0x9dc1, 0xaf5a, 0xbed3, 0xca6c, 0xdbe5, 0xe97e, 0xf8f7)
    else if row == 1 then
      Pick16(i, 0x1081, 0x0108, 0x3393, 0x221a, 0x56a5, 0x472c, 0x75b7, 0x643e,
        0x9cc9, 0x8d40, 0xbfdb, 0xae52, 0xdaed, 0xcb64, 0xf9ff, 0xe876)
    else if row == 2 then
      Pick16(i, 0x2102, 0x308b, 0x0210, 0x1399, 0x6726, 0x76af, 0x4434, 0x55bd,
        0xad4a, 0xbcc3, 0x8e58, 0x9fd1, 0xeb6e, 0xfae7, 0xc87c, 0xd9f5)
    else if row == 3 then
      Pick16(i, 0x3183, 0x200a, 0x1291, 0x0318, 0x77a7, 0x662e, 0x54b5, 0x453c,
        0xbdcb, 0xac42, 0x9ed9, 0x8f50, 0xfbef, 0xea66, 0xd8fd, 0xc974)
    else if row == 4 then
      Pick16(i, 0x4204, 0x538d, 0x6116, 0x709f, 0x0420, 0x15a9, 0x2732, 0x36bb,
        0xce4c, 0xdfc5, 0xed5e, 0xfcd7, 0x8868, 0x99e1, 0xab7a, 0xbaf3)
    else if row == 5 then
      Pick16(i, 0x5285, 0x430c, 0x7197, 0x601e, 0x14a1, 0x0528, 0x37b3, 0x263a,
        0xdecd, 0xcf44, 0xfddf, 0xec56, 0x98e9, 0x8960, 0xbbfb, 0xaa72)
    else if row == 6 then
      Pick16(i, 0x6306, 0x728f, 0x4014, 0x519d, 0x2522, 0x34ab, 0x0630, 0x17b9,
        0xef4e, 0xfec7, 0xcc5c, 0xddd5, 0xa96a, 0xb8e3, 0x8a78, 0x9bf1)
    else if row == 7 then
      Pick16(i, 0x7387, 0x620e, 0x5095, 0x411c, 0x35a3, 0x242a, 0x16b1, 0x0738,
        0xffcf, 0xee46, 0xdcdd, 0xcd54, 0xb9eb, 0xa862, 0x9af9, 0x8b70)
    else if row == 8 then
      Pick16(i, 0x8408, 0x9581, 0xa71a, 0xb693, 0xc22c, 0xd3a5, 0xe13e, 0xf0b7,
        0x0840, 0x19c9, 0x2b52, 0x3adb, 0x4e64, 0x5fed, 0x6d76, 0x7cff)
    else if row == 9 then
      Pick16(i, 0x9489, 0x8500, 0xb79b, 0xa612, 0xd2ad, 0xc324, 0xf1bf, 0xe036,
        0x18c1, 0x0948, 0x3bd3, 0x2a5a, 0x5ee5, 0x4f6c, 0x7df7, 0x6c7e)
    else if row == 10 then
      Pick16(i, 0xa50a, 0xb483, 0x8618, 0x9791, 0xe32e, 0xf2a7, 0xc03c, 0xd1b5,
        0x2942, 0x38cb, 0x0a50, 0x1bd9, 0x6f66, 0x7eef, 0x4c74, 0x5dfd)
    else if row == 11 then
      Pick16(i, 0xb58b, 0xa402, 0x9699, 0x8710, 0xf3af, 0xe226, 0xd0bd, 0xc134,
        0x39c3, 0x284a, 0x1ad1, 0x0b58, 0x7fe7, 0x6e6e, 0x5cf5, 0x4d7c)
    else if row == 12 then
      Pick16(i, 0xc60c, 0xd785, 0xe51e, 0xf497, 0x8028, 0x91a1, 0xa33a, 0xb2b3,
        0x4a44, 0x5bcd, 0x6956, 0x78df, 0x0c60, 0x1de9, 0x2f72, 0x3efb)
    else if row == 13 then
      Pick16(i, 0xd68d, 0xc704, 0xf59f, 0xe416, 0x90a9, 0x8120, 0xb3bb, 0xa232,
        0x5ac5, 0x4b4c, 0x79d7, 0x685e, 0x1ce1, 0x0d68, 0x3ff3, 0x2e7a)
    else if row == 14 then
      Pick16(i, 0xe70e, 0xf687, 0xc41c, 0xd595, 0xa12a, 0xb0a3, 0x8238, 0x93b1,
        0x6b46, 0x7acf, 0x4854, 0x59dd, 0x2d62, 0x3ceb, 0x0e70, 0x1ff9)
    else
      Pick16(i, 0xf78f, 0xe606, 0xd49d, 0xc514, 0xb1ab, 0xa022, 0x92b9, 0x8330,
        0x7bc7, 0x6a4e, 0x58d5, 0x495c, 0x3de3, 0x2c6a, 0x1ef1, 0x0f78)
  }

  // All 256 constants of each table are the shift register run on the index.

  lemma Crc8Row0(x: bv8)
    requires x < 0x10
    ensures Crc8Table(x) == Shift8(x)
  {
  }

  lemma Crc8Rows1To3(x: bv8)
    requires 0x10 <= x < 0x40
    ensures Crc8Table(x) == Shift8(x)
  {
  }

  lemma Crc8Rows4To7(x: bv8)
    requires 0x40 <= x < 0x80
    ensures Crc8Table(x) == Shift8(x)
  {
  }

  lemma Crc8Rows8To11(x: bv8)
    requires 0x80 <= x < 0xc0
    ensures Crc8Table(x) == Shift8(x)
  {
  }

  lemma Crc8Rows12To15(x: bv8)
    requires 0xc0 <= x
    ensures Crc8Table(x) == Shift8(x)
  {
  }

  lemma Crc8TableIsShift(x: bv8)
    ensures Crc8Table(x) == Shift8(x)
  {
    if x < 0x10 { Crc8Row0(x); }
    else if x < 0x40 { Crc8Rows1To3(x); }
    else if x < 0x80 { Crc8Rows4To7(x); }
    else if x < 0xc0 { Crc8Rows8To11(x); }
    else { Crc8Rows12To15(x); }
  }

  lemma Crc16Row0(x: bv8)
    requires x < 0x10
    ensures Crc16Table(x) == Shift16(x as bv16)
  {
  }

  lemma Crc16Rows1To3(x: bv8)
    requires 0x10 <= x < 0x40
    ensures Crc16Table(x) == Shift16(x as bv16)
  {
  }

  lemma Crc16Rows4To7(x: bv8)
    requires 0x40 <= x < 0x80
    ensures Crc16Table(x) == Shift16(x as bv16)
  {
  }

  lemma Crc16Rows8To11(x: bv8)
    requires 0x80 <= x < 0xc0
    ensures Crc16Table(x) == Shift16(x as bv16)
  {
  }

  lemma Crc16Rows12To15(x: bv8)
    requires 0xc0 <= x
    ensures Crc16Table(x) == Shift16(x as bv16)
  {
  }

  lemma Crc16TableIsShift(x: bv8)
    ensures Crc16Table(x) == Shift16(x as bv16)
  {
    if x < 0x10 { Crc16Row0(x); }
    else if x < 0x40 { Crc16Rows1To3(x); }
    else if x < 0x80 { Crc16Rows4To7(x); }
    else if x < 0xc0 { Crc16Rows8To11(x); }
    else { Crc16Rows12To15(x); }
  }
}
