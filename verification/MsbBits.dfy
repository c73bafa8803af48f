/** The bits of an octet, the most significant first. */
module MsbBits {

  function And8(a: bv8, m: bv8): bv8 { a & m }

  function BitMask(k: nat): bv8
    requires k < 8
  {
    if k == 0 then 0x80 else if k == 1 then 0x40 else if k == 2 then 0x20 else if k == 3 then 0x10 else
    if k == 4 then 0x08 else if k == 5 then 0x04 else if k == 6 then 0x02 else 0x01
  }

  predicate OctetBit(o: bv8, k: nat)
    requires k < 8
  {
    And8(o, BitMask(k)) != 0
  }
}
