/** The operations on the flags of an event, flag by flag. */
module EventBits {
  import opened EventFlags

  /** Exactly one flag. */
  predicate Single(m: Bits) {
    m != 0 && m & (m - 1) == 0
  }

  predicate Has(b: Bits, m: Bits) {
    b & m != 0
  }

  // ---- Words ------------------------------------------------------------------------------

  lemma OrMask(a: Bits, b: Bits, m: Bits)
    ensures (a | b) & m != 0 <==> a & m != 0 || b & m != 0
  {
  }

  lemma OneBit(b: Bits, m: Bits)
    requires m & (m - 1) == 0
    ensures b & m == 0 || b & m == m
  {
  }

  lemma AndMask(a: Bits, b: Bits, m: Bits)
    requires m & (m - 1) == 0
    ensures (a & b) & m != 0 <==> a & m != 0 && b & m != 0
  {
    OneBit(a, m);
    OneBit(b, m);
    BothMask(a, b, m);
  }

  lemma BothMask(a: Bits, b: Bits, m: Bits)
    ensures (a & b) & m == (a & m) & (b & m)
  {
  }

  lemma ClearMask(a: Bits, b: Bits, m: Bits)
    requires m & (m - 1) == 0
    ensures (a & !b) & m != 0 <==> a & m != 0 && b & m == 0
  {
    OneBit(b, m);
    RestMask(a, b, m);
    AllMask(a, b, m);
  }

  lemma RestMask(a: Bits, b: Bits, m: Bits)
    ensures b & m == 0 ==> (a & !b) & m == a & m
  {
  }

  lemma AllMask(a: Bits, b: Bits, m: Bits)
    ensures b & m == m ==> (a & !b) & m == 0
  {
  }

  lemma LowestBit(x: Bits)
    requires x != 0
    ensures var m := x & (0 - x); m != 0 && m & (m - 1) == 0 && x & m != 0
  {
  }

  lemma SubsetIs(a: Bits, b: Bits)
    ensures b == (a & b) | (b & !a)
  {
  }

  // ---- Flags ------------------------------------------------------------------------------

  lemma OrHas(a: Bits, b: Bits, m: Bits)
    ensures Has(a | b, m) <==> Has(a, m) || Has(b, m)
  {
    OrMask(a, b, m);
  }

  /** Sending sets the flags sent and keeps the others. */
  lemma RaisedHas(now: Bits, bits: Bits, m: Bits)
    ensures Has(Raised(now, bits), m) <==> Has(now, m) || Has(bits, m)
  {
    hide Has;
    OrHas(now, bits, m);
  }

  /** A receiver sees those of its flags that are set, and with CLEAR takes them away, and no others. */
  lemma SeenHas(now: Bits, bits: Bits, option: bv8, m: Bits)
    requires Single(m)
    ensures Has(Seen(now, bits), m) <==> Has(now, m) && Has(bits, m)
    ensures Has(Remaining(now, bits, option), m) <==> Has(now, m) && !(Asks(option, CLEAR) && Has(bits, m))
  {
    hide Asks;
    AndMask(now, bits, m);
  }

  lemma LowestFlag(x: Bits)
    requires x != 0
    ensures Single(x & (0 - x)) && Has(x, x & (0 - x))
  {
    LowestBit(x);
  }

  /** AND asks for all of the flags, OR for at least one; neither for nothing. */
  lemma MetIff(now: Bits, bits: Bits, option: bv8)
    ensures Met(now, bits, option) <==>
      if Asks(option, AND) then forall m :: Single(m) && Has(bits, m) ==> Has(now, m)
      else Asks(option, OR) && exists m :: Single(m) && Has(bits, m) && Has(now, m)
  {
    hide Has, Single, HasAll, HasSome, Asks;
    AllIff(now, bits);
    SomeIff(now, bits);
  }

  lemma AllIff(now: Bits, bits: Bits)
    ensures HasAll(now, bits) <==> forall m :: Single(m) && Has(bits, m) ==> Has(now, m)
  {
    hide Has, Single, HasAll;
    if HasAll(now, bits) {
      forall m | Single(m) && Has(bits, m)
        ensures Has(now, m)
      {
        Covered(now, bits, m);
      }
    } else {
      Uncovered(now, bits);
    }
  }

  lemma Covered(now: Bits, bits: Bits, m: Bits)
    requires HasAll(now, bits) && Single(m) && Has(bits, m)
    ensures Has(now, m)
  {
    AndMask(now, bits, m);
  }

  lemma Uncovered(now: Bits, bits: Bits)
    requires !HasAll(now, bits)
    ensures exists m :: Single(m) && Has(bits, m) && !Has(now, m)
  {
    hide Has, Single;
    var x := bits & !now;
    SubsetIs(now, bits);
    NoneMore(now & bits);
    LowestFlag(x);
    OneHas(bits, now, x & (0 - x));
  }

  lemma SomeIff(now: Bits, bits: Bits)
    ensures HasSome(now, bits) <==> exists m :: Single(m) && Has(bits, m) && Has(now, m)
  {
    hide Has, Single, HasSome;
    if HasSome(now, bits) {
      Common(now, bits);
    } else {
      forall m | Single(m)
        ensures !(Has(bits, m) && Has(now, m))
      {
        NoCommon(now, bits, m);
      }
    }
  }

  lemma Common(now: Bits, bits: Bits)
    requires HasSome(now, bits)
    ensures exists m :: Single(m) && Has(bits, m) && Has(now, m)
  {
    hide Has, Single;
    var x := now & bits;
    LowestFlag(x);
    BothHave(now, bits, x & (0 - x));
  }

  lemma BothHave(now: Bits, bits: Bits, m: Bits)
    requires Single(m) && Has(now & bits, m)
    ensures Has(now, m) && Has(bits, m)
  {
    AndMask(now, bits, m);
  }

  lemma OneHas(a: Bits, b: Bits, m: Bits)
    requires Single(m) && Has(a & !b, m)
    ensures Has(a, m) && !Has(b, m)
  {
    ClearMask(a, b, m);
  }

  lemma NoneMore(a: Bits)
    ensures a | 0 == a
  {
  }

  lemma NoCommon(now: Bits, bits: Bits, m: Bits)
    requires !HasSome(now, bits) && Single(m)
    ensures !(Has(bits, m) && Has(now, m))
  {
    AndMask(now, bits, m);
  }
}
