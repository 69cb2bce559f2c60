/** The combined boxes of impl/block/des/des.cc against the boxes and the permutation P of FIPS 46-3. */
module DesBoxes {
  import opened Bits
  import opened Rotates

  /** Spbox[0]. */
  function Sp0(v: bv8): Word {
    if v < 0x20 then
      if v < 0x10 then
        if v < 0x08 then
          if v < 0x04 then
            if v < 0x02 then
              if v < 0x01 then 0x01010400 else 0x00000000
            else
              if v < 0x03 then 0x00010000 else 0x01010404
          else
            if v < 0x06 then
              if v < 0x05 then 0x01010004 else 0x00010404
            else
              if v < 0x07 then 0x00000004 else 0x00010000
        else
          if v < 0x0c then
            if v < 0x0a then
              if v < 0x09 then 0x00000400 else 0x01010400
            else
              if v < 0x0b then 0x01010404 else 0x00000400
          else
            if v < 0x0e then
              if v < 0x0d then 0x01000404 else 0x01010004
            else
              if v < 0x0f then 0x01000000 else 0x00000004
      else
        if v < 0x18 then
          if v < 0x14 then
            if v < 0x12 then
              if v < 0x11 then 0x00000404 else 0x01000400
            else
              if v < 0x13 then 0x01000400 else 0x00010400
          else
            if v < 0x16 then
              if v < 0x15 then 0x00010400 else 0x01010000
            else
              if v < 0x17 then 0x01010000 else 0x01000404
        else
          if v < 0x1c then
            if v < 0x1a then
              if v < 0x19 then 0x00010004 else 0x01000004
            else
              if v < 0x1b then 0x01000004 else 0x00010004
          else
            if v < 0x1e then
              if v < 0x1d then 0x00000000 else 0x00000404
            else
              if v < 0x1f then 0x00010404 else 0x01000000
    else
      if v < 0x30 then
        if v < 0x28 then
          if v < 0x24 then
            if v < 0x22 then
              if v < 0x21 then 0x00010000 else 0x01010404
            else
              if v < 0x23 then 0x00000004 else 0x01010000
          else
            if v < 0x26 then
              if v < 0x25 then 0x01010400 else 0x01000000
            else
              if v < 0x27 then 0x01000000 else 0x00000400
        else
          if v < 0x2c then
            if v < 0x2a then
              if v < 0x29 then 0x01010004 else 0x00010000
            else
              if v < 0x2b then 0x00010400 else 0x01000004
          else
            if v < 0x2e then
              if v < 0x2d then 0x00000400 else 0x00000004
            else
              if v < 0x2f then 0x01000404 else 0x00010404
      else
        if v < 0x38 then
          if v < 0x34 then
            if v < 0x32 then
              if v < 0x31 then 0x01010404 else 0x00010004
            else
              if v < 0x33 then 0x01010000 else 0x01000404
          else
            if v < 0x36 then
              if v < 0x35 then 0x01000004 else 0x00000404
            else
              if v < 0x37 then 0x00010404 else 0x01010400
        else
          if v < 0x3c then
            if v < 0x3a then
              if v < 0x39 then 0x00000404 else 0x01000400
            else
              if v < 0x3b then 0x01000400 else 0x00000000
          else
            if v < 0x3e then
              if v < 0x3d then 0x00010004 else 0x00010400
            else
              if v < 0x3f then 0x00000000 else 0x01010004
  }

  /** Spbox[1]. */
  function Sp1(v: bv8): Word {
    if v < 0x20 then
      if v < 0x10 then
        if v < 0x08 then
          if v < 0x04 then
            if v < 0x02 then
              if v < 0x01 then 0x80108020 else 0x80008000
            else
              if v < 0x03 then 0x00008000 else 0x00108020
          else
            if v < 0x06 then
              if v < 0x05 then 0x00100000 else 0x00000020
            else
              if v < 0x07 then 0x80100020 else 0x80008020
        else
          if v < 0x0c then
            if v < 0x0a then
              if v < 0x09 then 0x80000020 else 0x80108020
            else
              if v < 0x0b then 0x80108000 else 0x80000000
          else
            if v < 0x0e then
              if v < 0x0d then 0x80008000 else 0x00100000
            else
              if v < 0x0f then 0x00000020 else 0x80100020
      else
        if v < 0x18 then
          if v < 0x14 then
            if v < 0x12 then
              if v < 0x11 then 0x00108000 else 0x00100020
            else
              if v < 0x13 then 0x80008020 else 0x00000000
          else
            if v < 0x16 then
              if v < 0x15 then 0x80000000 else 0x00008000
            else
              if v < 0x17 then 0x00108020 else 0x80100000
        else
          if v < 0x1c then
            if v < 0x1a then
              if v < 0x19 then 0x00100020 else 0x80000020
            else
              if v < 0x1b then 0x00000000 else 0x00108000
          else
            if v < 0x1e then
              if v < 0x1d then 0x00008020 else 0x80108000
            else
              if v < 0x1f then 0x80100000 else 0x00008020
    else
      if v < 0x30 then
        if v < 0x28 then
          if v < 0x24 then
            if v < 0x22 then
              if v < 0x21 then 0x00000000 else 0x00108020
            else
              if v < 0x23 then 0x80100020 else 0x00100000
          else
            if v < 0x26 then
              if v < 0x25 then 0x80008020 else 0x80100000
            else
              if v < 0x27 then 0x80108000 else 0x00008000
        else
          if v < 0x2c then
            if v < 0x2a then
              if v < 0x29 then 0x80100000 else 0x80008000
            else
              if v < 0x2b then 0x00000020 else 0x80108020
          else
            if v < 0x2e then
              if v < 0x2d then 0x00108020 else 0x00000020
            else
              if v < 0x2f then 0x00008000 else 0x80000000
      else
        if v < 0x38 then
          if v < 0x34 then
            if v < 0x32 then
              if v < 0x31 then 0x00008020 else 0x80108000
            else
              if v < 0x33 then 0x00100000 else 0x80000020
          else
            if v < 0x36 then
              if v < 0x35 then 0x00100020 else 0x80008020
            else
              if v < 0x37 then 0x80000020 else 0x00100020
        else
          if v < 0x3c then
            if v < 0x3a then
              if v < 0x39 then 0x00108000 else 0x00000000
            else
              if v < 0x3b then 0x80008000 else 0x00008020
          else
            if v < 0x3e then
              if v < 0x3d then 0x80000000 else 0x80100020
            else
              if v < 0x3f then 0x80108020 else 0x00108000
  }

  /** Spbox[2]. */
  function Sp2(v: bv8): Word {
    if v < 0x20 then
      if v < 0x10 then
        if v < 0x08 then
          if v < 0x04 then
            if v < 0x02 then
              if v < 0x01 then 0x00000208 else 0x08020200
            else
              if v < 0x03 then 0x00000000 else 0x08020008
          else
            if v < 0x06 then
              if v < 0x05 then 0x08000200 else 0x00000000
            else
              if v < 0x07 then 0x00020208 else 0x08000200
        else
          if v < 0x0c then
            if v < 0x0a then
              if v < 0x09 then 0x00020008 else 0x08000008
            else
              if v < 0x0b then 0x08000008 else 0x00020000
          else
            if v < 0x0e then
              if v < 0x0d then 0x08020208 else 0x00020008
            else
              if v < 0x0f then 0x08020000 else 0x00000208
      else
        if v < 0x18 then
          if v < 0x14 then
            if v < 0x12 then
              if v < 0x11 then 0x08000000 else 0x00000008
            else
              if v < 0x13 then 0x08020200 else 0x00000200
          else
            if v < 0x16 then
              if v < 0x15 then 0x00020200 else 0x08020000
            else
              if v < 0x17 then 0x08020008 else 0x00020208
        else
          if v < 0x1c then
            if v < 0x1a then
              if v < 0x19 then 0x08000208 else 0x00020200
            else
              if v < 0x1b then 0x00020000 else 0x08000208
          else
            if v < 0x1e then
              if v < 0x1d then 0x00000008 else 0x08020208
            else
              if v < 0x1f then 0x00000200 else 0x08000000
    else
      if v < 0x30 then
        if v < 0x28 then
          if v < 0x24 then
            if v < 0x22 then
              if v < 0x21 then 0x08020200 else 0x08000000
            else
              if v < 0x23 then 0x00020008 else 0x00000208
          else
            if v < 0x26 then
              if v < 0x25 then 0x00020000 else 0x08020200
            else
              if v < 0x27 then 0x08000200 else 0x00000000
        else
          if v < 0x2c then
            if v < 0x2a then
              if v < 0x29 then 0x00000200 else 0x00020008
            else
              if v < 0x2b then 0x08020208 else 0x08000200
          else
            if v < 0x2e then
              if v < 0x2d then 0x08000008 else 0x00000200
            else
              if v < 0x2f then 0x00000000 else 0x08020008
      else
        if v < 0x38 then
          if v < 0x34 then
            if v < 0x32 then
              if v < 0x31 then 0x08000208 else 0x00020000
            else
              if v < 0x33 then 0x08000000 else 0x08020208
          else
            if v < 0x36 then
              if v < 0x35 then 0x00000008 else 0x00020208
            else
              if v < 0x37 then 0x00020200 else 0x08000008
        else
          if v < 0x3c then
            if v < 0x3a then
              if v < 0x39 then 0x08020000 else 0x08000208
            else
              if v < 0x3b then 0x00000208 else 0x08020000
          else
            if v < 0x3e then
              if v < 0x3d then 0x00020208 else 0x00000008
            else
              if v < 0x3f then 0x08020008 else 0x00020200
  }

  /** Spbox[3]. */
  function Sp3(v: bv8): Word {
    if v < 0x20 then
      if v < 0x10 then
        if v < 0x08 then
          if v < 0x04 then
            if v < 0x02 then
              if v < 0x01 then 0x00802001 else 0x00002081
            else
              if v < 0x03 then 0x00002081 else 0x00000080
          else
            if v < 0x06 then
              if v < 0x05 then 0x00802080 else 0x00800081
            else
              if v < 0x07 then 0x00800001 else 0x00002001
        else
          if v < 0x0c then
            if v < 0x0a then
              if v < 0x09 then 0x00000000 else 0x00802000
            else
              if v < 0x0b then 0x00802000 else 0x00802081
          else
            if v < 0x0e then
              if v < 0x0d then 0x00000081 else 0x00000000
            else
              if v < 0x0f then 0x00800080 else 0x00800001
      else
        if v < 0x18 then
          if v < 0x14 then
            if v < 0x12 then
              if v < 0x11 then 0x00000001 else 0x00002000
            else
              if v < 0x13 then 0x00800000 else 0x00802001
          else
            if v < 0x16 then
              if v < 0x15 then 0x00000080 else 0x00800000
            else
              if v < 0x17 then 0x00002001 else 0x00002080
        else
          if v < 0x1c then
            if v < 0x1a then
              if v < 0x19 then 0x00800081 else 0x00000001
            else
              if v < 0x1b then 0x00002080 else 0x00800080
          else
            if v < 0x1e then
              if v < 0x1d then 0x00002000 else 0x00802080
            else
              if v < 0x1f then 0x00802081 else 0x00000081
    else
      if v < 0x30 then
        if v < 0x28 then
          if v < 0x24 then
            if v < 0x22 then
              if v < 0x21 then 0x00800080 else 0x00800001
            else
              if v < 0x23 then 0x00802000 else 0x00802081
          else
            if v < 0x26 then
              if v < 0x25 then 0x00000081 else 0x00000000
            else
              if v < 0x27 then 0x00000000 else 0x00802000
        else
          if v < 0x2c then
            if v < 0x2a then
              if v < 0x29 then 0x00002080 else 0x00800080
            else
              if v < 0x2b then 0x00800081 else 0x00000001
          else
            if v < 0x2e then
              if v < 0x2d then 0x00802001 else 0x00002081
            else
              if v < 0x2f then 0x00002081 else 0x00000080
      else
        if v < 0x38 then
          if v < 0x34 then
            if v < 0x32 then
              if v < 0x31 then 0x00802081 else 0x00000081
            else
              if v < 0x33 then 0x00000001 else 0x00002000
          else
            if v < 0x36 then
              if v < 0x35 then 0x00800001 else 0x00002001
            else
              if v < 0x37 then 0x00802080 else 0x00800081
        else
          if v < 0x3c then
            if v < 0x3a then
              if v < 0x39 then 0x00002001 else 0x00002080
            else
              if v < 0x3b then 0x00800000 else 0x00802001
          else
            if v < 0x3e then
              if v < 0x3d then 0x00000080 else 0x00800000
            else
              if v < 0x3f then 0x00002000 else 0x00802080
  }

  /** Spbox[4]. */
  function Sp4(v: bv8): Word {
    if v < 0x20 then
      if v < 0x10 then
        if v < 0x08 then
          if v < 0x04 then
            if v < 0x02 then
              if v < 0x01 then 0x00000100 else 0x02080100
            else
              if v < 0x03 then 0x02080000 else 0x42000100
          else
            if v < 0x06 then
              if v < 0x05 then 0x00080000 else 0x00000100
            else
              if v < 0x07 then 0x40000000 else 0x02080000
        else
          if v < 0x0c then
            if v < 0x0a then
              if v < 0x09 then 0x40080100 else 0x00080000
            else
              if v < 0x0b then 0x02000100 else 0x40080100
          else
            if v < 0x0e then
              if v < 0x0d then 0x42000100 else 0x42080000
            else
              if v < 0x0f then 0x00080100 else 0x40000000
      else
        if v < 0x18 then
          if v < 0x14 then
            if v < 0x12 then
              if v < 0x11 then 0x02000000 else 0x40080000
            else
              if v < 0x13 then 0x40080000 else 0x00000000
          else
            if v < 0x16 then
              if v < 0x15 then 0x40000100 else 0x42080100
            else
              if v < 0x17 then 0x42080100 else 0x02000100
        else
          if v < 0x1c then
            if v < 0x1a then
              if v < 0x19 then 0x42080000 else 0x40000100
            else
              if v < 0x1b then 0x00000000 else 0x42000000
          else
            if v < 0x1e then
              if v < 0x1d then 0x02080100 else 0x02000000
            else
              if v < 0x1f then 0x42000000 else 0x00080100
    else
      if v < 0x30 then
        if v < 0x28 then
          if v < 0x24 then
            if v < 0x22 then
              if v < 0x21 then 0x00080000 else 0x42000100
            else
              if v < 0x23 then 0x00000100 else 0x02000000
          else
            if v < 0x26 then
              if v < 0x25 then 0x40000000 else 0x02080000
            else
              if v < 0x27 then 0x42000100 else 0x40080100
        else
          if v < 0x2c then
            if v < 0x2a then
              if v < 0x29 then 0x02000100 else 0x40000000
            else
              if v < 0x2b then 0x42080000 else 0x02080100
          else
            if v < 0x2e then
              if v < 0x2d then 0x40080100 else 0x00000100
            else
              if v < 0x2f then 0x02000000 else 0x42080000
      else
        if v < 0x38 then
          if v < 0x34 then
            if v < 0x32 then
              if v < 0x31 then 0x42080100 else 0x00080100
            else
              if v < 0x33 then 0x42000000 else 0x42080100
          else
            if v < 0x36 then
              if v < 0x35 then 0x02080000 else 0x00000000
            else
              if v < 0x37 then 0x40080000 else 0x42000000
        else
          if v < 0x3c then
            if v < 0x3a then
              if v < 0x39 then 0x00080100 else 0x02000100
            else
              if v < 0x3b then 0x40000100 else 0x00080000
          else
            if v < 0x3e then
              if v < 0x3d then 0x00000000 else 0x40080000
            else
              if v < 0x3f then 0x02080100 else 0x40000100
  }

  /** Spbox[5]. */
  function Sp5(v: bv8): Word {
    if v < 0x20 then
      if v < 0x10 then
        if v < 0x08 then
          if v < 0x04 then
            if v < 0x02 then
              if v < 0x01 then 0x20000010 else 0x20400000
            else
              if v < 0x03 then 0x00004000 else 0x20404010
          else
            if v < 0x06 then
              if v < 0x05 then 0x20400000 else 0x00000010
            else
              if v < 0x07 then 0x20404010 else 0x00400000
        else
          if v < 0x0c then
            if v < 0x0a then
              if v < 0x09 then 0x20004000 else 0x00404010
            else
              if v < 0x0b then 0x00400000 else 0x20000010
          else
            if v < 0x0e then
              if v < 0x0d then 0x00400010 else 0x20004000
            else
              if v < 0x0f then 0x20000000 else 0x00004010
      else
        if v < 0x18 then
          if v < 0x14 then
            if v < 0x12 then
              if v < 0x11 then 0x00000000 else 0x00400010
            else
              if v < 0x13 then 0x20004010 else 0x00004000
          else
            if v < 0x16 then
              if v < 0x15 then 0x00404000 else 0x20004010
            else
              if v < 0x17 then 0x00000010 else 0x20400010
        else
          if v < 0x1c then
            if v < 0x1a then
              if v < 0x19 then 0x20400010 else 0x00000000
            else
              if v < 0x1b then 0x00404010 else 0x20404000
          else
            if v < 0x1e then
              if v < 0x1d then 0x00004010 else 0x00404000
            else
              if v < 0x1f then 0x20404000 else 0x20000000
    else
      if v < 0x30 then
        if v < 0x28 then
          if v < 0x24 then
            if v < 0x22 then
              if v < 0x21 then 0x20004000 else 0x00000010
            else
              if v < 0x23 then 0x20400010 else 0x00404000
          else
            if v < 0x26 then
              if v < 0x25 then 0x20404010 else 0x00400000
            else
              if v < 0x27 then 0x00004010 else 0x20000010
        else
          if v < 0x2c then
            if v < 0x2a then
              if v < 0x29 then 0x00400000 else 0x20004000
            else
              if v < 0x2b then 0x20000000 else 0x00004010
          else
            if v < 0x2e then
              if v < 0x2d then 0x20000010 else 0x20404010
            else
              if v < 0x2f then 0x00404000 else 0x20400000
      else
        if v < 0x38 then
          if v < 0x34 then
            if v < 0x32 then
              if v < 0x31 then 0x00404010 else 0x20404000
            else
              if v < 0x33 then 0x00000000 else 0x20400010
          else
            if v < 0x36 then
              if v < 0x35 then 0x00000010 else 0x00004000
            else
              if v < 0x37 then 0x20400000 else 0x00404010
        else
          if v < 0x3c then
            if v < 0x3a then
              if v < 0x39 then 0x00004000 else 0x00400010
            else
              if v < 0x3b then 0x20004010 else 0x00000000
          else
            if v < 0x3e then
              if v < 0x3d then 0x20404000 else 0x20000000
            else
              if v < 0x3f then 0x00400010 else 0x20004010
  }

  /** Spbox[6]. */
  function Sp6(v: bv8): Word {
    if v < 0x20 then
      if v < 0x10 then
        if v < 0x08 then
          if v < 0x04 then
            if v < 0x02 then
              if v < 0x01 then 0x00200000 else 0x04200002
            else
              if v < 0x03 then 0x04000802 else 0x00000000
          else
            if v < 0x06 then
              if v < 0x05 then 0x00000800 else 0x04000802
            else
              if v < 0x07 then 0x00200802 else 0x04200800
        else
          if v < 0x0c then
            if v < 0x0a then
              if v < 0x09 then 0x04200802 else 0x00200000
            else
              if v < 0x0b then 0x00000000 else 0x04000002
          else
            if v < 0x0e then
              if v < 0x0d then 0x00000002 else 0x04000000
            else
              if v < 0x0f then 0x04200002 else 0x00000802
      else
        if v < 0x18 then
          if v < 0x14 then
            if v < 0x12 then
              if v < 0x11 then 0x04000800 else 0x00200802
            else
              if v < 0x13 then 0x00200002 else 0x04000800
          else
            if v < 0x16 then
              if v < 0x15 then 0x04000002 else 0x04200000
            else
              if v < 0x17 then 0x04200800 else 0x00200002
        else
          if v < 0x1c then
            if v < 0x1a then
              if v < 0x19 then 0x04200000 else 0x00000800
            else
              if v < 0x1b then 0x00000802 else 0x04200802
          else
            if v < 0x1e then
              if v < 0x1d then 0x00200800 else 0x00000002
            else
              if v < 0x1f then 0x04000000 else 0x00200800
    else
      if v < 0x30 then
        if v < 0x28 then
          if v < 0x24 then
            if v < 0x22 then
              if v < 0x21 then 0x04000000 else 0x00200800
            else
              if v < 0x23 then 0x00200000 else 0x04000802
          else
            if v < 0x26 then
              if v < 0x25 then 0x04000802 else 0x04200002
            else
              if v < 0x27 then 0x04200002 else 0x00000002
        else
          if v < 0x2c then
            if v < 0x2a then
              if v < 0x29 then 0x00200002 else 0x04000000
            else
              if v < 0x2b then 0x04000800 else 0x00200000
          else
            if v < 0x2e then
              if v < 0x2d then 0x04200800 else 0x00000802
            else
              if v < 0x2f then 0x00200802 else 0x04200800
      else
        if v < 0x38 then
          if v < 0x34 then
            if v < 0x32 then
              if v < 0x31 then 0x00000802 else 0x04000002
            else
              if v < 0x33 then 0x04200802 else 0x04200000
          else
            if v < 0x36 then
              if v < 0x35 then 0x00200800 else 0x00000000
            else
              if v < 0x37 then 0x00000002 else 0x04200802
        else
          if v < 0x3c then
            if v < 0x3a then
              if v < 0x39 then 0x00000000 else 0x00200802
            else
              if v < 0x3b then 0x04200000 else 0x00000800
          else
            if v < 0x3e then
              if v < 0x3d then 0x04000002 else 0x04000800
            else
              if v < 0x3f then 0x00000800 else 0x00200002
  }

  /** Spbox[7]. */
  function Sp7(v: bv8): Word {
    if v < 0x20 then
      if v < 0x10 then
        if v < 0x08 then
          if v < 0x04 then
            if v < 0x02 then
              if v < 0x01 then 0x10001040 else 0x00001000
            else
              if v < 0x03 then 0x00040000 else 0x10041040
          else
            if v < 0x06 then
              if v < 0x05 then 0x10000000 else 0x10001040
            else
              if v < 0x07 then 0x00000040 else 0x10000000
        else
          if v < 0x0c then
            if v < 0x0a then
              if v < 0x09 then 0x00040040 else 0x10040000
            else
              if v < 0x0b then 0x10041040 else 0x00041000
          else
            if v < 0x0e then
              if v < 0x0d then 0x10041000 else 0x00041040
            else
              if v < 0x0f then 0x00001000 else 0x00000040
      else
        if v < 0x18 then
          if v < 0x14 then
            if v < 0x12 then
              if v < 0x11 then 0x10040000 else 0x10000040
            else
              if v < 0x13 then 0x10001000 else 0x00001040
          else
            if v < 0x16 then
              if v < 0x15 then 0x00041000 else 0x00040040
            else
              if v < 0x17 then 0x10040040 else 0x10041000
        else
          if v < 0x1c then
            if v < 0x1a then
              if v < 0x19 then 0x00001040 else 0x00000000
            else
              if v < 0x1b then 0x00000000 else 0x10040040
          else
            if v < 0x1e then
              if v < 0x1d then 0x10000040 else 0x10001000
            else
              if v < 0x1f then 0x00041040 else 0x00040000
    else
      if v < 0x30 then
        if v < 0x28 then
          if v < 0x24 then
            if v < 0x22 then
              if v < 0x21 then 0x00041040 else 0x00040000
            else
              if v < 0x23 then 0x10041000 else 0x00001000
          else
            if v < 0x26 then
              if v < 0x25 then 0x00000040 else 0x10040040
            else
              if v < 0x27 then 0x00001000 else 0x00041040
        else
          if v < 0x2c then
            if v < 0x2a then
              if v < 0x29 then 0x10001000 else 0x00000040
            else
              if v < 0x2b then 0x10000040 else 0x10040000
          else
            if v < 0x2e then
              if v < 0x2d then 0x10040040 else 0x10000000
            else
              if v < 0x2f then 0x00040000 else 0x10001040
      else
        if v < 0x38 then
          if v < 0x34 then
            if v < 0x32 then
              if v < 0x31 then 0x00000000 else 0x10041040
            else
              if v < 0x33 then 0x00040040 else 0x10000040
          else
            if v < 0x36 then
              if v < 0x35 then 0x10040000 else 0x10001000
            else
              if v < 0x37 then 0x10001040 else 0x00000000
        else
          if v < 0x3c then
            if v < 0x3a then
              if v < 0x39 then 0x10041040 else 0x00041000
            else
              if v < 0x3b then 0x00041000 else 0x00001040
          else
            if v < 0x3e then
              if v < 0x3d then 0x00001040 else 0x00040040
            else
              if v < 0x3f then 0x10000000 else 0x10041000
  }

  function Short(v: nat): (b: bv8)
    ensures b < 64
  {
    (v % 64) as bv8
  }

  function SpByte(n: nat, b: bv8): Word {
    match n
    case 0 => Sp0(b) case 1 => Sp1(b) case 2 => Sp2(b) case 3 => Sp3(b)
    case 4 => Sp4(b) case 5 => Sp5(b) case 6 => Sp6(b) case _ => Sp7(b)
  }

  /** Spbox, for any arguments. */
  function SpBox(n: nat, v: nat): Word { SpByte(n, Short(v)) }

  /** S1 of the standard, by rows. */
  function Rows0(c: bv8): bv8 {
    if c < 0x20 then
      if c < 0x10 then
        if c < 0x08 then
          if c < 0x04 then
            if c < 0x02 then if c < 0x01 then 14 else 4 else if c < 0x03 then 13 else 1
          else
            if c < 0x06 then if c < 0x05 then 2 else 15 else if c < 0x07 then 11 else 8
        else
          if c < 0x0c then
            if c < 0x0a then if c < 0x09 then 3 else 10 else if c < 0x0b then 6 else 12
          else
            if c < 0x0e then if c < 0x0d then 5 else 9 else if c < 0x0f then 0 else 7
      else
        if c < 0x18 then
          if c < 0x14 then
            if c < 0x12 then if c < 0x11 then 0 else 15 else if c < 0x13 then 7 else 4
          else
            if c < 0x16 then if c < 0x15 then 14 else 2 else if c < 0x17 then 13 else 1
        else
          if c < 0x1c then
            if c < 0x1a then if c < 0x19 then 10 else 6 else if c < 0x1b then 12 else 11
          else
            if c < 0x1e then if c < 0x1d then 9 else 5 else if c < 0x1f then 3 else 8
    else
      if c < 0x30 then
        if c < 0x28 then
          if c < 0x24 then
            if c < 0x22 then if c < 0x21 then 4 else 1 else if c < 0x23 then 14 else 8
          else
            if c < 0x26 then if c < 0x25 then 13 else 6 else if c < 0x27 then 2 else 11
        else
          if c < 0x2c then
            if c < 0x2a then if c < 0x29 then 15 else 12 else if c < 0x2b then 9 else 7
          else
            if c < 0x2e then if c < 0x2d then 3 else 10 else if c < 0x2f then 5 else 0
      else
        if c < 0x38 then
          if c < 0x34 then
            if c < 0x32 then if c < 0x31 then 15 else 12 else if c < 0x33 then 8 else 2
          else
            if c < 0x36 then if c < 0x35 then 4 else 9 else if c < 0x37 then 1 else 7
        else
          if c < 0x3c then
            if c < 0x3a then if c < 0x39 then 5 else 11 else if c < 0x3b then 3 else 14
          else
            if c < 0x3e then if c < 0x3d then 10 else 0 else if c < 0x3f then 6 else 13
  }

  /** S2 of the standard, by rows. */
  function Rows1(c: bv8): bv8 {
    if c < 0x20 then
      if c < 0x10 then
        if c < 0x08 then
          if c < 0x04 then
            if c < 0x02 then if c < 0x01 then 15 else 1 else if c < 0x03 then 8 else 14
          else
            if c < 0x06 then if c < 0x05 then 6 else 11 else if c < 0x07 then 3 else 4
        else
          if c < 0x0c then
            if c < 0x0a then if c < 0x09 then 9 else 7 else if c < 0x0b then 2 else 13
          else
            if c < 0x0e then if c < 0x0d then 12 else 0 else if c < 0x0f then 5 else 10
      else
        if c < 0x18 then
          if c < 0x14 then
            if c < 0x12 then if c < 0x11 then 3 else 13 else if c < 0x13 then 4 else 7
          else
            if c < 0x16 then if c < 0x15 then 15 else 2 else if c < 0x17 then 8 else 14
        else
          if c < 0x1c then
            if c < 0x1a then if c < 0x19 then 12 else 0 else if c < 0x1b then 1 else 10
          else
            if c < 0x1e then if c < 0x1d then 6 else 9 else if c < 0x1f then 11 else 5
    else
      if c < 0x30 then
        if c < 0x28 then
          if c < 0x24 then
            if c < 0x22 then if c < 0x21 then 0 else 14 else if c < 0x23 then 7 else 11
          else
            if c < 0x26 then if c < 0x25 then 10 else 4 else if c < 0x27 then 13 else 1
        else
          if c < 0x2c then
            if c < 0x2a then if c < 0x29 then 5 else 8 else if c < 0x2b then 12 else 6
          else
            if c < 0x2e then if c < 0x2d then 9 else 3 else if c < 0x2f then 2 else 15
      else
        if c < 0x38 then
          if c < 0x34 then
            if c < 0x32 then if c < 0x31 then 13 else 8 else if c < 0x33 then 10 else 1
          else
            if c < 0x36 then if c < 0x35 then 3 else 15 else if c < 0x37 then 4 else 2
        else
          if c < 0x3c then
            if c < 0x3a then if c < 0x39 then 11 else 6 else if c < 0x3b then 7 else 12
          else
            if c < 0x3e then if c < 0x3d then 0 else 5 else if c < 0x3f then 14 else 9
  }

  /** S3 of the standard, by rows. */
  function Rows2(c: bv8): bv8 {
    if c < 0x20 then
      if c < 0x10 then
        if c < 0x08 then
          if c < 0x04 then
            if c < 0x02 then if c < 0x01 then 10 else 0 else if c < 0x03 then 9 else 14
          else
            if c < 0x06 then if c < 0x05 then 6 else 3 else if c < 0x07 then 15 else 5
        else
          if c < 0x0c then
            if c < 0x0a then if c < 0x09 then 1 else 13 else if c < 0x0b then 12 else 7
          else
            if c < 0x0e then if c < 0x0d then 11 else 4 else if c < 0x0f then 2 else 8
      else
        if c < 0x18 then
          if c < 0x14 then
            if c < 0x12 then if c < 0x11 then 13 else 7 else if c < 0x13 then 0 else 9
          else
            if c < 0x16 then if c < 0x15 then 3 else 4 else if c < 0x17 then 6 else 10
        else
          if c < 0x1c then
            if c < 0x1a then if c < 0x19 then 2 else 8 else if c < 0x1b then 5 else 14
          else
            if c < 0x1e then if c < 0x1d then 12 else 11 else if c < 0x1f then 15 else 1
    else
      if c < 0x30 then
        if c < 0x28 then
          if c < 0x24 then
            if c < 0x22 then if c < 0x21 then 13 else 6 else if c < 0x23 then 4 else 9
          else
            if c < 0x26 then if c < 0x25 then 8 else 15 else if c < 0x27 then 3 else 0
        else
          if c < 0x2c then
            if c < 0x2a then if c < 0x29 then 11 else 1 else if c < 0x2b then 2 else 12
          else
            if c < 0x2e then if c < 0x2d then 5 else 10 else if c < 0x2f then 14 else 7
      else
        if c < 0x38 then
          if c < 0x34 then
            if c < 0x32 then if c < 0x31 then 1 else 10 else if c < 0x33 then 13 else 0
          else
            if c < 0x36 then if c < 0x35 then 6 else 9 else if c < 0x37 then 8 else 7
        else
          if c < 0x3c then
            if c < 0x3a then if c < 0x39 then 4 else 15 else if c < 0x3b then 14 else 3
          else
            if c < 0x3e then if c < 0x3d then 11 else 5 else if c < 0x3f then 2 else 12
  }

  /** S4 of the standard, by rows. */
  function Rows3(c: bv8): bv8 {
    if c < 0x20 then
      if c < 0x10 then
        if c < 0x08 then
          if c < 0x04 then
            if c < 0x02 then if c < 0x01 then 7 else 13 else if c < 0x03 then 14 else 3
          else
            if c < 0x06 then if c < 0x05 then 0 else 6 else if c < 0x07 then 9 else 10
        else
          if c < 0x0c then
            if c < 0x0a then if c < 0x09 then 1 else 2 else if c < 0x0b then 8 else 5
          else
            if c < 0x0e then if c < 0x0d then 11 else 12 else if c < 0x0f then 4 else 15
      else
        if c < 0x18 then
          if c < 0x14 then
            if c < 0x12 then if c < 0x11 then 13 else 8 else if c < 0x13 then 11 else 5
          else
            if c < 0x16 then if c < 0x15 then 6 else 15 else if c < 0x17 then 0 else 3
        else
          if c < 0x1c then
            if c < 0x1a then if c < 0x19 then 4 else 7 else if c < 0x1b then 2 else 12
          else
            if c < 0x1e then if c < 0x1d then 1 else 10 else if c < 0x1f then 14 else 9
    else
      if c < 0x30 then
        if c < 0x28 then
          if c < 0x24 then
            if c < 0x22 then if c < 0x21 then 10 else 6 else if c < 0x23 then 9 else 0
          else
            if c < 0x26 then if c < 0x25 then 12 else 11 else if c < 0x27 then 7 else 13
        else
          if c < 0x2c then
            if c < 0x2a then if c < 0x29 then 15 else 1 else if c < 0x2b then 3 else 14
          else
            if c < 0x2e then if c < 0x2d then 5 else 2 else if c < 0x2f then 8 else 4
      else
        if c < 0x38 then
          if c < 0x34 then
            if c < 0x32 then if c < 0x31 then 3 else 15 else if c < 0x33 then 0 else 6
          else
            if c < 0x36 then if c < 0x35 then 10 else 1 else if c < 0x37 then 13 else 8
        else
          if c < 0x3c then
            if c < 0x3a then if c < 0x39 then 9 else 4 else if c < 0x3b then 5 else 11
          else
            if c < 0x3e then if c < 0x3d then 12 else 7 else if c < 0x3f then 2 else 14
  }

  /** S5 of the standard, by rows. */
  function Rows4(c: bv8): bv8 {
    if c < 0x20 then
      if c < 0x10 then
        if c < 0x08 then
          if c < 0x04 then
            if c < 0x02 then if c < 0x01 then 2 else 12 else if c < 0x03 then 4 else 1
          else
            if c < 0x06 then if c < 0x05 then 7 else 10 else if c < 0x07 then 11 else 6
        else
          if c < 0x0c then
            if c < 0x0a then if c < 0x09 then 8 else 5 else if c < 0x0b then 3 else 15
          else
            if c < 0x0e then if c < 0x0d then 13 else 0 else if c < 0x0f then 14 else 9
      else
        if c < 0x18 then
          if c < 0x14 then
            if c < 0x12 then if c < 0x11 then 14 else 11 else if c < 0x13 then 2 else 12
          else
            if c < 0x16 then if c < 0x15 then 4 else 7 else if c < 0x17 then 13 else 1
        else
          if c < 0x1c then
            if c < 0x1a then if c < 0x19 then 5 else 0 else if c < 0x1b then 15 else 10
          else
            if c < 0x1e then if c < 0x1d then 3 else 9 else if c < 0x1f then 8 else 6
    else
      if c < 0x30 then
        if c < 0x28 then
          if c < 0x24 then
            if c < 0x22 then if c < 0x21 then 4 else 2 else if c < 0x23 then 1 else 11
          else
            if c < 0x26 then if c < 0x25 then 10 else 13 else if c < 0x27 then 7 else 8
        else
          if c < 0x2c then
            if c < 0x2a then if c < 0x29 then 15 else 9 else if c < 0x2b then 12 else 5
          else
            if c < 0x2e then if c < 0x2d then 6 else 3 else if c < 0x2f then 0 else 14
      else
        if c < 0x38 then
          if c < 0x34 then
            if c < 0x32 then if c < 0x31 then 11 else 8 else if c < 0x33 then 12 else 7
          else
            if c < 0x36 then if c < 0x35 then 1 else 14 else if c < 0x37 then 2 else 13
        else
          if c < 0x3c then
            if c < 0x3a then if c < 0x39 then 6 else 15 else if c < 0x3b then 0 else 9
          else
            if c < 0x3e then if c < 0x3d then 10 else 4 else if c < 0x3f then 5 else 3
  }

  /** S6 of the standard, by rows. */
  function Rows5(c: bv8): bv8 {
    if c < 0x20 then
      if c < 0x10 then
        if c < 0x08 then
          if c < 0x04 then
            if c < 0x02 then if c < 0x01 then 12 else 1 else if c < 0x03 then 10 else 15
          else
            if c < 0x06 then if c < 0x05 then 9 else 2 else if c < 0x07 then 6 else 8
        else
          if c < 0x0c then
            if c < 0x0a then if c < 0x09 then 0 else 13 else if c < 0x0b then 3 else 4
          else
            if c < 0x0e then if c < 0x0d then 14 else 7 else if c < 0x0f then 5 else 11
      else
        if c < 0x18 then
          if c < 0x14 then
            if c < 0x12 then if c < 0x11 then 10 else 15 else if c < 0x13 then 4 else 2
          else
            if c < 0x16 then if c < 0x15 then 7 else 12 else if c < 0x17 then 9 else 5
        else
          if c < 0x1c then
            if c < 0x1a then if c < 0x19 then 6 else 1 else if c < 0x1b then 13 else 14
          else
            if c < 0x1e then if c < 0x1d then 0 else 11 else if c < 0x1f then 3 else 8
    else
      if c < 0x30 then
        if c < 0x28 then
          if c < 0x24 then
            if c < 0x22 then if c < 0x21 then 9 else 14 else if c < 0x23 then 15 else 5
          else
            if c < 0x26 then if c < 0x25 then 2 else 8 else if c < 0x27 then 12 else 3
        else
          if c < 0x2c then
            if c < 0x2a then if c < 0x29 then 7 else 0 else if c < 0x2b then 4 else 10
          else
            if c < 0x2e then if c < 0x2d then 1 else 13 else if c < 0x2f then 11 else 6
      else
        if c < 0x38 then
          if c < 0x34 then
            if c < 0x32 then if c < 0x31 then 4 else 3 else if c < 0x33 then 2 else 12
          else
            if c < 0x36 then if c < 0x35 then 9 else 5 else if c < 0x37 then 15 else 10
        else
          if c < 0x3c then
            if c < 0x3a then if c < 0x39 then 11 else 14 else if c < 0x3b then 1 else 7
          else
            if c < 0x3e then if c < 0x3d then 6 else 0 else if c < 0x3f then 8 else 13
  }

  /** S7 of the standard, by rows. */
  function Rows6(c: bv8): bv8 {
    if c < 0x20 then
      if c < 0x10 then
        if c < 0x08 then
          if c < 0x04 then
            if c < 0x02 then if c < 0x01 then 4 else 11 else if c < 0x03 then 2 else 14
          else
            if c < 0x06 then if c < 0x05 then 15 else 0 else if c < 0x07 then 8 else 13
        else
          if c < 0x0c then
            if c < 0x0a then if c < 0x09 then 3 else 12 else if c < 0x0b then 9 else 7
          else
            if c < 0x0e then if c < 0x0d then 5 else 10 else if c < 0x0f then 6 else 1
      else
        if c < 0x18 then
          if c < 0x14 then
            if c < 0x12 then if c < 0x11 then 13 else 0 else if c < 0x13 then 11 else 7
          else
            if c < 0x16 then if c < 0x15 then 4 else 9 else if c < 0x17 then 1 else 10
        else
          if c < 0x1c then
            if c < 0x1a then if c < 0x19 then 14 else 3 else if c < 0x1b then 5 else 12
          else
            if c < 0x1e then if c < 0x1d then 2 else 15 else if c < 0x1f then 8 else 6
    else
      if c < 0x30 then
        if c < 0x28 then
          if c < 0x24 then
            if c < 0x22 then if c < 0x21 then 1 else 4 else if c < 0x23 then 11 else 13
          else
            if c < 0x26 then if c < 0x25 then 12 else 3 else if c < 0x27 then 7 else 14
        else
          if c < 0x2c then
            if c < 0x2a then if c < 0x29 then 10 else 15 else if c < 0x2b then 6 else 8
          else
            if c < 0x2e then if c < 0x2d then 0 else 5 else if c < 0x2f then 9 else 2
      else
        if c < 0x38 then
          if c < 0x34 then
            if c < 0x32 then if c < 0x31 then 6 else 11 else if c < 0x33 then 13 else 8
          else
            if c < 0x36 then if c < 0x35 then 1 else 4 else if c < 0x37 then 10 else 7
        else
          if c < 0x3c then
            if c < 0x3a then if c < 0x39 then 9 else 5 else if c < 0x3b then 0 else 15
          else
            if c < 0x3e then if c < 0x3d then 14 else 2 else if c < 0x3f then 3 else 12
  }

  /** S8 of the standard, by rows. */
  function Rows7(c: bv8): bv8 {
    if c < 0x20 then
      if c < 0x10 then
        if c < 0x08 then
          if c < 0x04 then
            if c < 0x02 then if c < 0x01 then 13 else 2 else if c < 0x03 then 8 else 4
          else
            if c < 0x06 then if c < 0x05 then 6 else 15 else if c < 0x07 then 11 else 1
        else
          if c < 0x0c then
            if c < 0x0a then if c < 0x09 then 10 else 9 else if c < 0x0b then 3 else 14
          else
            if c < 0x0e then if c < 0x0d then 5 else 0 else if c < 0x0f then 12 else 7
      else
        if c < 0x18 then
          if c < 0x14 then
            if c < 0x12 then if c < 0x11 then 1 else 15 else if c < 0x13 then 13 else 8
          else
            if c < 0x16 then if c < 0x15 then 10 else 3 else if c < 0x17 then 7 else 4
        else
          if c < 0x1c then
            if c < 0x1a then if c < 0x19 then 12 else 5 else if c < 0x1b then 6 else 11
          else
            if c < 0x1e then if c < 0x1d then 0 else 14 else if c < 0x1f then 9 else 2
    else
      if c < 0x30 then
        if c < 0x28 then
          if c < 0x24 then
            if c < 0x22 then if c < 0x21 then 7 else 11 else if c < 0x23 then 4 else 1
          else
            if c < 0x26 then if c < 0x25 then 9 else 12 else if c < 0x27 then 14 else 2
        else
          if c < 0x2c then
            if c < 0x2a then if c < 0x29 then 0 else 6 else if c < 0x2b then 10 else 13
          else
            if c < 0x2e then if c < 0x2d then 15 else 3 else if c < 0x2f then 5 else 8
      else
        if c < 0x38 then
          if c < 0x34 then
            if c < 0x32 then if c < 0x31 then 2 else 1 else if c < 0x33 then 14 else 7
          else
            if c < 0x36 then if c < 0x35 then 4 else 10 else if c < 0x37 then 8 else 13
        else
          if c < 0x3c then
            if c < 0x3a then if c < 0x39 then 15 else 12 else if c < 0x3b then 9 else 0
          else
            if c < 0x3e then if c < 0x3d then 3 else 5 else if c < 0x3f then 6 else 11
  }

  /** The place in the four rows: the outer bits choose the row, the inner ones the column. */
  function Cell(v: bv8): bv8 { (v & 0x20) | ((v & 0x01) << 4) | ((v >> 1) & 0x0f) }

  /** What box n gives for six bits. */
  function S(n: nat, v: bv8): bv8
    requires n < 8
  {
    match n
    case 0 => Rows0(Cell(v)) case 1 => Rows1(Cell(v))
    case 2 => Rows2(Cell(v)) case 3 => Rows3(Cell(v))
    case 4 => Rows4(Cell(v)) case 5 => Rows5(Cell(v))
    case 6 => Rows6(Cell(v)) case _ => Rows7(Cell(v))
  }

  /** The permutation P. */
  function P(p: nat): (t: nat)
    requires 1 <= p <= 32
    ensures 1 <= t <= 32
  {
    match p
    case 1 => 16 case 2 => 7 case 3 => 20 case 4 => 21 case 5 => 29 case 6 => 12 case 7 => 28 case 8 => 17
    case 9 => 1 case 10 => 15 case 11 => 23 case 12 => 26 case 13 => 5 case 14 => 18 case 15 => 31 case 16 => 10
    case 17 => 2 case 18 => 8 case 19 => 24 case 20 => 14 case 21 => 32 case 22 => 27 case 23 => 3 case 24 => 9
    case 25 => 19 case 26 => 13 case 27 => 30 case 28 => 6 case 29 => 22 case 30 => 11 case 31 => 4 case _ => 25
  }

  /** Where bit t of the eight boxes goes. */
  function PInverse(t: nat): (p: nat)
    requires 1 <= t <= 32
    ensures 1 <= p <= 32
  {
    match t
    case 1 => 9 case 2 => 17 case 3 => 23 case 4 => 31 case 5 => 13 case 6 => 28 case 7 => 2 case 8 => 18
    case 9 => 24 case 10 => 16 case 11 => 30 case 12 => 6 case 13 => 26 case 14 => 20 case 15 => 10 case 16 => 1
    case 17 => 8 case 18 => 14 case 19 => 25 case 20 => 3 case 21 => 4 case 22 => 29 case 23 => 11 case 24 => 19
    case 25 => 32 case 26 => 12 case 27 => 22 case 28 => 7 case 29 => 5 case 30 => 27 case 31 => 15 case _ => 21
  }

  lemma PInverseIs(t: nat)
    requires 1 <= t <= 32
    ensures P(PInverse(t)) == t && PInverse(P(t)) == t
  {}

  /** The word with bit k alone. */
  function Unit(k: nat): Word {
    if k == 0 then 1 else Double(Unit(k - 1))
  }

  /** Bit j of a number of four bits, the first one the most significant. */
  function FourBit(v: bv8, j: nat): bool
    requires j < 4
  {
    match j case 0 => v & 8 != 0 case 1 => v & 4 != 0 case 2 => v & 2 != 0 case _ => v & 1 != 0
  }

  /** Where bit j of box n goes, as a word. */
  function Output(n: nat, j: nat): Word
    requires n < 8 && j < 4
  {
    Unit(32 - PInverse(4 * n + j + 1))
  }

  /** The output v of box n, permuted. */
  function Spread(n: nat, v: bv8): Word
    requires n < 8
  {
    Xor(Xor(if FourBit(v, 0) then Output(n, 0) else 0, if FourBit(v, 1) then Output(n, 1) else 0),
        Xor(if FourBit(v, 2) then Output(n, 2) else 0, if FourBit(v, 3) then Output(n, 3) else 0))
  }

  /** The entries of Spbox[0] by what S1 gives. */
  function Entry0(v: bv8): Word {
    if v < 0x08 then
      if v < 0x04 then
        if v < 0x02 then
          if v < 0x01 then 0x00000000 else 0x00000004
        else
          if v < 0x03 then 0x00000400 else 0x00000404
      else
        if v < 0x06 then
          if v < 0x05 then 0x00010000 else 0x00010004
        else
          if v < 0x07 then 0x00010400 else 0x00010404
    else
      if v < 0x0c then
        if v < 0x0a then
          if v < 0x09 then 0x01000000 else 0x01000004
        else
          if v < 0x0b then 0x01000400 else 0x01000404
      else
        if v < 0x0e then
          if v < 0x0d then 0x01010000 else 0x01010004
        else
          if v < 0x0f then 0x01010400 else 0x01010404
  }

  lemma SpEntry0(v: bv8)
    requires v < 64
    ensures S(0, v) < 16 && Sp0(v) == Entry0(S(0, v))
  {}

  /** The entries of Spbox[1] by what S2 gives. */
  function Entry1(v: bv8): Word {
    if v < 0x08 then
      if v < 0x04 then
        if v < 0x02 then
          if v < 0x01 then 0x00000000 else 0x00008000
        else
          if v < 0x03 then 0x80000000 else 0x80008000
      else
        if v < 0x06 then
          if v < 0x05 then 0x00000020 else 0x00008020
        else
          if v < 0x07 then 0x80000020 else 0x80008020
    else
      if v < 0x0c then
        if v < 0x0a then
          if v < 0x09 then 0x00100000 else 0x00108000
        else
          if v < 0x0b then 0x80100000 else 0x80108000
      else
        if v < 0x0e then
          if v < 0x0d then 0x00100020 else 0x00108020
        else
          if v < 0x0f then 0x80100020 else 0x80108020
  }

  lemma SpEntry1(v: bv8)
    requires v < 64
    ensures S(1, v) < 16 && Sp1(v) == Entry1(S(1, v))
  {}

  /** The entries of Spbox[2] by what S3 gives. */
  function Entry2(v: bv8): Word {
    if v < 0x08 then
      if v < 0x04 then
        if v < 0x02 then
          if v < 0x01 then 0x00000000 else 0x08000000
        else
          if v < 0x03 then 0x00000008 else 0x08000008
      else
        if v < 0x06 then
          if v < 0x05 then 0x00020000 else 0x08020000
        else
          if v < 0x07 then 0x00020008 else 0x08020008
    else
      if v < 0x0c then
        if v < 0x0a then
          if v < 0x09 then 0x00000200 else 0x08000200
        else
          if v < 0x0b then 0x00000208 else 0x08000208
      else
        if v < 0x0e then
          if v < 0x0d then 0x00020200 else 0x08020200
        else
          if v < 0x0f then 0x00020208 else 0x08020208
  }

  lemma SpEntry2(v: bv8)
    requires v < 64
    ensures S(2, v) < 16 && Sp2(v) == Entry2(S(2, v))
  {}

  /** The entries of Spbox[3] by what S4 gives. */
  function Entry3(v: bv8): Word {
    if v < 0x08 then
      if v < 0x04 then
        if v < 0x02 then
          if v < 0x01 then 0x00000000 else 0x00000001
        else
          if v < 0x03 then 0x00800000 else 0x00800001
      else
        if v < 0x06 then
          if v < 0x05 then 0x00002000 else 0x00002001
        else
          if v < 0x07 then 0x00802000 else 0x00802001
    else
      if v < 0x0c then
        if v < 0x0a then
          if v < 0x09 then 0x00000080 else 0x00000081
        else
          if v < 0x0b then 0x00800080 else 0x00800081
      else
        if v < 0x0e then
          if v < 0x0d then 0x00002080 else 0x00002081
        else
          if v < 0x0f then 0x00802080 else 0x00802081
  }

  lemma SpEntry3(v: bv8)
    requires v < 64
    ensures S(3, v) < 16 && Sp3(v) == Entry3(S(3, v))
  {}

  /** The entries of Spbox[4] by what S5 gives. */
  function Entry4(v: bv8): Word {
    if v < 0x08 then
      if v < 0x04 then
        if v < 0x02 then
          if v < 0x01 then 0x00000000 else 0x40000000
        else
          if v < 0x03 then 0x00000100 else 0x40000100
      else
        if v < 0x06 then
          if v < 0x05 then 0x00080000 else 0x40080000
        else
          if v < 0x07 then 0x00080100 else 0x40080100
    else
      if v < 0x0c then
        if v < 0x0a then
          if v < 0x09 then 0x02000000 else 0x42000000
        else
          if v < 0x0b then 0x02000100 else 0x42000100
      else
        if v < 0x0e then
          if v < 0x0d then 0x02080000 else 0x42080000
        else
          if v < 0x0f then 0x02080100 else 0x42080100
  }

  lemma SpEntry4(v: bv8)
    requires v < 64
    ensures S(4, v) < 16 && Sp4(v) == Entry4(S(4, v))
  {}

  /** The entries of Spbox[5] by what S6 gives. */
  function Entry5(v: bv8): Word {
    if v < 0x08 then
      if v < 0x04 then
        if v < 0x02 then
          if v < 0x01 then 0x00000000 else 0x00004000
        else
          if v < 0x03 then 0x00400000 else 0x00404000
      else
        if v < 0x06 then
          if v < 0x05 then 0x00000010 else 0x00004010
        else
          if v < 0x07 then 0x00400010 else 0x00404010
    else
      if v < 0x0c then
        if v < 0x0a then
          if v < 0x09 then 0x20000000 else 0x20004000
        else
          if v < 0x0b then 0x20400000 else 0x20404000
      else
        if v < 0x0e then
          if v < 0x0d then 0x20000010 else 0x20004010
        else
          if v < 0x0f then 0x20400010 else 0x20404010
  }

  lemma SpEntry5(v: bv8)
    requires v < 64
    ensures S(5, v) < 16 && Sp5(v) == Entry5(S(5, v))
  {}

  /** The entries of Spbox[6] by what S7 gives. */
  function Entry6(v: bv8): Word {
    if v < 0x08 then
      if v < 0x04 then
        if v < 0x02 then
          if v < 0x01 then 0x00000000 else 0x04000000
        else
          if v < 0x03 then 0x00000800 else 0x04000800
      else
        if v < 0x06 then
          if v < 0x05 then 0x00200000 else 0x04200000
        else
          if v < 0x07 then 0x00200800 else 0x04200800
    else
      if v < 0x0c then
        if v < 0x0a then
          if v < 0x09 then 0x00000002 else 0x04000002
        else
          if v < 0x0b then 0x00000802 else 0x04000802
      else
        if v < 0x0e then
          if v < 0x0d then 0x00200002 else 0x04200002
        else
          if v < 0x0f then 0x00200802 else 0x04200802
  }

  lemma SpEntry6(v: bv8)
    requires v < 64
    ensures S(6, v) < 16 && Sp6(v) == Entry6(S(6, v))
  {}

  /** The entries of Spbox[7] by what S8 gives. */
  function Entry7(v: bv8): Word {
    if v < 0x08 then
      if v < 0x04 then
        if v < 0x02 then
          if v < 0x01 then 0x00000000 else 0x00001000
        else
          if v < 0x03 then 0x00040000 else 0x00041000
      else
        if v < 0x06 then
          if v < 0x05 then 0x00000040 else 0x00001040
        else
          if v < 0x07 then 0x00040040 else 0x00041040
    else
      if v < 0x0c then
        if v < 0x0a then
          if v < 0x09 then 0x10000000 else 0x10001000
        else
          if v < 0x0b then 0x10040000 else 0x10041000
      else
        if v < 0x0e then
          if v < 0x0d then 0x10000040 else 0x10001040
        else
          if v < 0x0f then 0x10040040 else 0x10041040
  }

  lemma SpEntry7(v: bv8)
    requires v < 64
    ensures S(7, v) < 16 && Sp7(v) == Entry7(S(7, v))
  {}

  lemma UnitNext(k: nat, m: Word, n: Word)
    requires Unit(k) == m && n == m << 1
    ensures Unit(k + 1) == n
  {
    assert Double(m) == m << 1;
  }

  lemma UnitsAre()
    ensures Unit(0) == 0x1 && Unit(1) == 0x2 && Unit(2) == 0x4 && Unit(3) == 0x8
    ensures Unit(4) == 0x10 && Unit(5) == 0x20 && Unit(6) == 0x40 && Unit(7) == 0x80
    ensures Unit(8) == 0x100 && Unit(9) == 0x200 && Unit(10) == 0x400 && Unit(11) == 0x800
    ensures Unit(12) == 0x1000 && Unit(13) == 0x2000 && Unit(14) == 0x4000 && Unit(15) == 0x8000
    ensures Unit(16) == 0x10000 && Unit(17) == 0x20000 && Unit(18) == 0x40000 && Unit(19) == 0x80000
    ensures Unit(20) == 0x100000 && Unit(21) == 0x200000 && Unit(22) == 0x400000 && Unit(23) == 0x800000
    ensures Unit(24) == 0x1000000 && Unit(25) == 0x2000000 && Unit(26) == 0x4000000 && Unit(27) == 0x8000000
    ensures Unit(28) == 0x10000000 && Unit(29) == 0x20000000 && Unit(30) == 0x40000000 && Unit(31) == 0x80000000
  {
    hide Double;
    assert Unit(0) == 0x1;
    UnitNext(0, 0x1, 0x2);
    UnitNext(1, 0x2, 0x4);
    UnitNext(2, 0x4, 0x8);
    UnitNext(3, 0x8, 0x10);
    UnitNext(4, 0x10, 0x20);
    UnitNext(5, 0x20, 0x40);
    UnitNext(6, 0x40, 0x80);
    UnitNext(7, 0x80, 0x100);
    UnitNext(8, 0x100, 0x200);
    UnitNext(9, 0x200, 0x400);
    UnitNext(10, 0x400, 0x800);
    UnitNext(11, 0x800, 0x1000);
    UnitNext(12, 0x1000, 0x2000);
    UnitNext(13, 0x2000, 0x4000);
    UnitNext(14, 0x4000, 0x8000);
    UnitNext(15, 0x8000, 0x10000);
    UnitNext(16, 0x10000, 0x20000);
    UnitNext(17, 0x20000, 0x40000);
    UnitNext(18, 0x40000, 0x80000);
    UnitNext(19, 0x80000, 0x100000);
    UnitNext(20, 0x100000, 0x200000);
    UnitNext(21, 0x200000, 0x400000);
    UnitNext(22, 0x400000, 0x800000);
    UnitNext(23, 0x800000, 0x1000000);
    UnitNext(24, 0x1000000, 0x2000000);
    UnitNext(25, 0x2000000, 0x4000000);
    UnitNext(26, 0x4000000, 0x8000000);
    UnitNext(27, 0x8000000, 0x10000000);
    UnitNext(28, 0x10000000, 0x20000000);
    UnitNext(29, 0x20000000, 0x40000000);
    UnitNext(30, 0x40000000, 0x80000000);
  }

  lemma Outputs0()
    ensures Output(0, 0) == 0x00800000 && Output(0, 1) == 0x00008000
    ensures Output(0, 2) == 0x00000200 && Output(0, 3) == 0x00000002
  {
    hide Unit;
    UnitsAre();
  }

  lemma EntryIs0(v: bv8)
    requires v < 16
    ensures Entry0(v) == RotateLeft(Spread(0, v), 1)
  {
    hide Output;
    Outputs0();
  }

  lemma Outputs1()
    ensures Output(1, 0) == 0x00080000 && Output(1, 1) == 0x00000010
    ensures Output(1, 2) == 0x40000000 && Output(1, 3) == 0x00004000
  {
    hide Unit;
    UnitsAre();
  }

  lemma EntryIs1(v: bv8)
    requires v < 16
    ensures Entry1(v) == RotateLeft(Spread(1, v), 1)
  {
    hide Output;
    Outputs1();
  }

  lemma Outputs2()
    ensures Output(2, 0) == 0x00000100 && Output(2, 1) == 0x00010000
    ensures Output(2, 2) == 0x00000004 && Output(2, 3) == 0x04000000
  {
    hide Unit;
    UnitsAre();
  }

  lemma EntryIs2(v: bv8)
    requires v < 16
    ensures Entry2(v) == RotateLeft(Spread(2, v), 1)
  {
    hide Output;
    Outputs2();
  }

  lemma Outputs3()
    ensures Output(3, 0) == 0x00000040 && Output(3, 1) == 0x00001000
    ensures Output(3, 2) == 0x00400000 && Output(3, 3) == 0x80000000
  {
    hide Unit;
    UnitsAre();
  }

  lemma EntryIs3(v: bv8)
    requires v < 16
    ensures Entry3(v) == RotateLeft(Spread(3, v), 1)
  {
    hide Output;
    Outputs3();
  }

  lemma Outputs4()
    ensures Output(4, 0) == 0x01000000 && Output(4, 1) == 0x00040000
    ensures Output(4, 2) == 0x00000080 && Output(4, 3) == 0x20000000
  {
    hide Unit;
    UnitsAre();
  }

  lemma EntryIs4(v: bv8)
    requires v < 16
    ensures Entry4(v) == RotateLeft(Spread(4, v), 1)
  {
    hide Output;
    Outputs4();
  }

  lemma Outputs5()
    ensures Output(5, 0) == 0x10000000 && Output(5, 1) == 0x00000008
    ensures Output(5, 2) == 0x00200000 && Output(5, 3) == 0x00002000
  {
    hide Unit;
    UnitsAre();
  }

  lemma EntryIs5(v: bv8)
    requires v < 16
    ensures Entry5(v) == RotateLeft(Spread(5, v), 1)
  {
    hide Output;
    Outputs5();
  }

  lemma Outputs6()
    ensures Output(6, 0) == 0x00000001 && Output(6, 1) == 0x00100000
    ensures Output(6, 2) == 0x00000400 && Output(6, 3) == 0x02000000
  {
    hide Unit;
    UnitsAre();
  }

  lemma EntryIs6(v: bv8)
    requires v < 16
    ensures Entry6(v) == RotateLeft(Spread(6, v), 1)
  {
    hide Output;
    Outputs6();
  }

  lemma Outputs7()
    ensures Output(7, 0) == 0x08000000 && Output(7, 1) == 0x00000020
    ensures Output(7, 2) == 0x00020000 && Output(7, 3) == 0x00000800
  {
    hide Unit;
    UnitsAre();
  }

  lemma EntryIs7(v: bv8)
    requires v < 16
    ensures Entry7(v) == RotateLeft(Spread(7, v), 1)
  {
    hide Output;
    Outputs7();
  }

  lemma ByteConforms(n: nat, v: bv8)
    requires n < 8 && v < 64
    ensures S(n, v) < 16 && SpByte(n, v) == RotateLeft(Spread(n, S(n, v)), 1)
  {
    hide Spread, RotateLeft, Cell, Sp0, Sp1, Sp2, Sp3, Sp4, Sp5, Sp6, Sp7;
    hide Entry0, Entry1, Entry2, Entry3, Entry4, Entry5, Entry6, Entry7;
    hide Rows0, Rows1, Rows2, Rows3, Rows4, Rows5, Rows6, Rows7;
    match n {
      case 0 =>
        SpEntry0(v);
        EntryIs0(S(0, v));
      case 1 =>
        SpEntry1(v);
        EntryIs1(S(1, v));
      case 2 =>
        SpEntry2(v);
        EntryIs2(S(2, v));
      case 3 =>
        SpEntry3(v);
        EntryIs3(S(3, v));
      case 4 =>
        SpEntry4(v);
        EntryIs4(S(4, v));
      case 5 =>
        SpEntry5(v);
        EntryIs5(S(5, v));
      case 6 =>
        SpEntry6(v);
        EntryIs6(S(6, v));
      case _ =>
        SpEntry7(v);
        EntryIs7(S(7, v));
    }
  }
}
