/** The `user_data` sentinels that route completions to the recv registry. */
module Token {
  import opened Bits
  import opened Words
  import opened RecvRegistry

  const HIGH_MASK := 0xFFFF_FFFF_0000_0000
  const CANCEL_BASE := 0xFFFF_FFFF_0000_0000
  const MULTISHOT_BASE := 0xFFFF_FFFE_0000_0000
  const RECV_MULTISHOT_BASE := 0xFFFF_FFFD_0000_0000
  const WAKE_FD := 0xFFFF_FFFF_FFFF_FFFF

  function Encode(key: Key): nat {
    Or(Or(RECV_MULTISHOT_BASE, And(key.generation, 0xFFFF) * 0x1_0000), key.slot)
  }

  function SentinelSlot(userData: nat): nat {
    And(userData, 0xFFFF)
  }

  function SentinelGeneration(userData: nat): nat {
    And(userData / 0x1_0000, 0xFFFF)
  }

  predicate IsRecvMultishot(userData: nat) {
    And(userData, HIGH_MASK) == RECV_MULTISHOT_BASE
  }

  predicate IsMultishot(userData: nat) {
    And(userData, HIGH_MASK) == MULTISHOT_BASE
  }

  predicate IsCancel(userData: nat) {
    And(userData, HIGH_MASK) == CANCEL_BASE && userData != WAKE_FD
  }

  lemma Low16(x: nat)
    ensures And(x, 0xFFFF) == x % 0x1_0000
  {
    Pow2Sizes();
    AndMask(x, 0x1_0000);
  }

  /** The three fields of a sentinel sit side by side. */
  lemma EncodeSum(key: Key)
    ensures Encode(key) == RECV_MULTISHOT_BASE + (key.generation % 0x1_0000) * 0x1_0000 + key.slot
  {
    Low16(key.generation);
    var g := key.generation % 0x1_0000;
    Shift32(0xFFFF_FFFD);
    Shift32(1);
    OrDisjoint(0xFFFF_FFFD, 32, g * 0x1_0000);
    var high := 0xFFFF_FFFD * 0x1_0000 + g;
    Shift16(high);
    Shift16(1);
    OrDisjoint(high, 16, key.slot);
  }

  lemma HighHalf(userData: nat, high: nat, low: nat)
    requires high < 0x1_0000_0000 && low < 0x1_0000_0000
    requires userData == high * 0x1_0000_0000 + low
    ensures And(userData, HIGH_MASK) == high * 0x1_0000_0000
  {
    AndHigh32(userData, 0xFFFF_FFFF);
    ModUnique(userData, 0x1_0000_0000, high, low);
    Pow2Sizes();
    AndBelow(high, 0x1_0000_0000);
  }

  /**
   A sentinel decodes back to its slot and low-16 generation, is recognised as a
   recv completion, and is never taken for another completion family.
   */
  lemma SentinelRoundTrip(key: Key)
    ensures SentinelSlot(Encode(key)) == key.slot
    ensures SentinelGeneration(Encode(key)) == key.generation % 0x1_0000
    ensures IsRecvMultishot(Encode(key)) && !IsMultishot(Encode(key)) && !IsCancel(Encode(key))
    ensures Encode(key) < WAKE_FD
  {
    EncodeSum(key);
    var u, g := Encode(key), key.generation % 0x1_0000;
    var high := 0xFFFF_FFFD * 0x1_0000 + g;
    Low16(u);
    ModUnique(u, 0x1_0000, high, key.slot);
    Low16(high);
    ModUnique(high, 0x1_0000, 0xFFFF_FFFD, g);
    HighHalf(u, 0xFFFF_FFFD, g * 0x1_0000 + key.slot);
  }
}
