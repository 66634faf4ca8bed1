/** Sizes of UTF-8 text; a character is a Unicode scalar value. */
module Utf8 {

  /** RFC 3629, section 3: one to four octets by code point. */
  function CharSize(c: char): (n: nat)
    ensures 1 <= n <= 4
  {
    var code := c as int;
    if code < 0x80 then 1 else if code < 0x800 then 2 else if code < 0x1_0000 then 3 else 4
  }

  /** The code points that `n` octets can hold: the lead octet has 7 bits for them when alone and 7 - n otherwise, and
      every other octet has 6. */
  function Room(n: nat): nat
    requires 1 <= n <= 4
  {
    match n
    case 1 => 0x80
    case 2 => 0x20 * 0x40
    case 3 => 0x10 * 0x40 * 0x40
    case _ => 0x08 * 0x40 * 0x40 * 0x40
  }

  /** A character takes the fewest octets that can hold it. */
  lemma FewestOctets(c: char, n: nat)
    requires 1 <= n <= 4
    ensures c as int < Room(n) <==> CharSize(c) <= n
  {
  }

  function Size(s: string): nat {
    if s == "" then 0 else CharSize(s[0]) + Size(s[1..])
  }

  lemma {:induction false} SizeConcat(s: string, t: string)
    ensures Size(s + t) == Size(s) + Size(t)
  {
    if s == "" {
      assert s + t == t;
    } else {
      assert (s + t)[1..] == s[1..] + t;
      SizeConcat(s[1..], t);
    }
  }
}
