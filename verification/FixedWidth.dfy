/** The counters' unsigned arithmetic: 32 and 64 bits, wrapping. */
module FixedWidth {

  function Inc32(n: nat): nat { (n + 1) % 0x1_0000_0000 }

  function Inc64(n: nat): nat { (n + 1) % 0x1_0000_0000_0000_0000 }

  function Add64(a: nat, b: nat): nat { (a + b) % 0x1_0000_0000_0000_0000 }
}
