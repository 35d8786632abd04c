/** What the printed text of numbers and strings means. */
module PrintLemmas {
  import opened PrintText

  // ---- Digits -----------------------------------------------------------------------------

  function Power(d: nat, m: nat): nat {
    if m == 0 then 1 else d * Power(d, m - 1)
  }

  lemma {:induction false} DigitsShort(n: nat, base: nat, large: bool, m: nat)
    requires 0 < m && n < Power(Divisor(base), m)
    ensures |Digits(n, base, large)| <= m
    decreases m
  {
    var d := Divisor(base);
    if n >= d {
      assert m > 1;
      assert n < d * Power(d, m - 1);
      Below(n, d, Power(d, m - 1));
      DigitsShort(n / d, base, large, m - 1);
    }
  }

  lemma Below(n: nat, d: nat, p: nat)
    requires 0 < d && n < d * p
    ensures n / d < p
  {
    var q := n / d;
    assert n == d * q + n % d;
    Distribute(d, p, if q >= p then q - p else 0);
  }

  lemma Distribute(d: nat, p: nat, e: nat)
    ensures d * (p + e) == d * p + d * e && 0 <= d * e
  {
  }

  /** A 32-bit number has at most 10 digits, so that tmp, with room for 16, never overflows. */
  lemma TmpFits(n: nat, base: nat, large: bool)
    requires n < WORD
    ensures 0 < |Digits(n, base, large)| <= 10
  {
    assert Power(10, 10) == 10_000_000_000 by {
      assert Power(10, 5) == 100_000;
      assert Power(10, 10) == 100_000 * Power(10, 5);
    }
    assert Power(16, 10) == 0x100_0000_0000 by {
      assert Power(16, 5) == 0x10_0000;
      assert Power(16, 10) == 0x10_0000 * Power(16, 5);
    }
    DigitsShort(n, base, large, 10);
  }

  // ---- Reading a number back --------------------------------------------------------------

  /** The value of a digit, or -1. */
  function DigitOf(c: char): int {
    if '0' <= c <= '9' then c as int - '0' as int
    else if 'a' <= c <= 'f' then c as int - 'a' as int + 10
    else if 'A' <= c <= 'F' then c as int - 'A' as int + 10
    else -1
  }

  predicate IsDigitOf(c: char, d: nat) {
    0 <= DigitOf(c) < d
  }

  function ReadDigits(s: string, d: nat, acc: nat): nat {
    if s == "" || !IsDigitOf(s[0], d) then acc else ReadDigits(s[1..], d, acc * d + DigitOf(s[0]))
  }

  function SkipBlanks(s: string): string {
    if s == "" || s[0] != ' ' then s else SkipBlanks(s[1..])
  }

  /** A number as a reader would take it: blanks, perhaps a sign, and digits. */
  function ReadNumber(s: string, d: nat): int {
    var t := SkipBlanks(s);
    if t != "" && t[0] == '-' then -(ReadDigits(t[1..], d, 0) as int)
    else if t != "" && t[0] == '+' then ReadDigits(t[1..], d, 0)
    else ReadDigits(t, d, 0)
  }

  lemma DigitRead(n: nat, d: nat, large: bool)
    requires n < d <= 16
    ensures IsDigitOf(DigitChar(n, large), d) && DigitOf(DigitChar(n, large)) == n
    ensures DigitChar(n, large) !in " +-"
  {
  }

  predicate AllDigits(s: string, d: nat) {
    forall i :: 0 <= i < |s| ==> IsDigitOf(s[i], d)
  }

  lemma {:induction false} ReadMore(s: string, t: string, d: nat, acc: nat)
    requires AllDigits(s, d)
    ensures ReadDigits(s + t, d, acc) == ReadDigits(t, d, ReadDigits(s, d, acc))
  {
    if s == "" {
      assert s + t == t;
    } else {
      assert (s + t)[1..] == s[1..] + t && (s + t)[0] == s[0];
      assert AllDigits(s[1..], d);
      ReadMore(s[1..], t, d, acc * d + DigitOf(s[0]));
    }
  }

  lemma {:induction false} DigitsRead(n: nat, base: nat, large: bool)
    ensures var s := Reversed(Digits(n, base, large));
      AllDigits(s, Divisor(base)) && ReadDigits(s, Divisor(base), 0) == n && s != "" && s[0] !in " +-"
  {
    var d := Divisor(base);
    var s := Reversed(Digits(n, base, large));
    if n < d {
      DigitRead(n, d, large);
      assert s[1..] == "";
    } else {
      var last := DigitChar(n % d, large);
      var t := Reversed(Digits(n / d, base, large));
      DigitsRead(n / d, base, large);
      DigitRead(n % d, d, large);
      assert s == t + [last];
      ReadMore(t, [last], d, 0);
      assert [last][1..] == "";
      assert n == n / d * d + n % d;
    }
  }

  lemma {:induction false} SkipRepeat(n: int, s: string)
    ensures SkipBlanks(Repeat(' ', n) + s) == SkipBlanks(s)
    decreases n
  {
    if n > 0 {
      assert (Repeat(' ', n) + s)[1..] == Repeat(' ', n - 1) + s;
      SkipRepeat(n - 1, s);
    } else {
      assert Repeat(' ', n) + s == s;
    }
  }

  lemma {:induction false} ZerosRead(n: int, s: string, d: nat)
    requires d >= 1
    ensures ReadDigits(Repeat('0', n) + s, d, 0) == ReadDigits(s, d, 0)
    decreases n
  {
    if n > 0 {
      assert (Repeat('0', n) + s)[1..] == Repeat('0', n - 1) + s;
      ZerosRead(n - 1, s, d);
    } else {
      assert Repeat('0', n) + s == s;
    }
  }

  lemma BlanksEnd(n: int, d: nat, acc: nat)
    ensures ReadDigits(Repeat(' ', n), d, acc) == acc
  {
  }

  /** The width and the precision are so far apart that the counters of print_number wrap. */
  predicate Wraps(width: int, precision: int) {
    width - Most(10, precision) < -WORD / 2 + 3 || width >= WORD / 2
  }

  lemma JustifiedIs(sign: string, body: string, size: int, zero: bool, left: bool)
    requires |sign| <= 1 && -WORD / 2 + 3 <= size < WORD / 2 && (zero ==> !left)
    ensures Justified(sign, body, size, zero, left) ==
      if left then sign + body + Repeat(' ', size - |sign|)
      else if zero then sign + Repeat('0', size - |sign|) + body
      else Repeat(' ', size - |sign|) + sign + body
  {
    if size - |sign| <= 0 {
      assert Repeat(' ', size - |sign|) == "" && Repeat('0', size - |sign|) == "";
    }
    if left {
      assert "" + sign + "" + body == sign + body;
    } else if zero {
      assert Repeat(' ', After(size - |sign|)) == "";
      assert "" + sign + Repeat('0', size - |sign|) + body + "" == sign + Repeat('0', size - |sign|) + body;
    } else {
      assert Repeat(' ', size - |sign|) + sign + "" + body + "" == Repeat(' ', size - |sign|) + sign + body;
    }
  }

  lemma SignShort(num: Word, f: Flags)
    ensures |SignText(num, f)| <= 1
  {
  }

  /** Blanks on one side, a sign, zeros and the digits: what print_number prints. */
  lemma NumberShape(num: Word, base: nat, width: int, precision: int, f: Flags)
    requires !Wraps(width, precision)
    ensures var digits, sign := Digits(Magnitude(num, f), base, f.large), SignText(num, f);
      var room := width - Most(|digits|, precision) - |sign|;
      var body := Repeat('0', precision - |digits|) + if precision != 0 then Reversed(digits) else "";
      NumberText(num, base, width, precision, f) ==
        if f.left then sign + body + Repeat(' ', room)
        else if f.zero then sign + Repeat('0', room) + body
        else Repeat(' ', room) + sign + body
  {
    hide Digits, SignText, Magnitude, Justified;
    TmpFits(Magnitude(num, f), base, f.large);
    SignShort(num, f);
    var digits := Digits(Magnitude(num, f), base, f.large);
    var size := width - Most(|digits|, precision);
    assert Int32(size) == size;
    JustifiedIs(SignText(num, f), Repeat('0', precision - |digits|) + if precision != 0 then Reversed(digits) else "",
      size, f.zero && !f.left, f.left);
  }

  /** The printed number fills the width, and no more than it has to. */
  lemma NumberLength(num: Word, base: nat, width: int, precision: int, f: Flags)
    requires !Wraps(width, precision) && precision != 0
    ensures |NumberText(num, base, width, precision, f)| ==
      Most(width, Most(|Digits(Magnitude(num, f), base, f.large)|, precision) + |SignText(num, f)|)
  {
    hide Digits, SignText, Magnitude, NumberText;
    TmpFits(Magnitude(num, f), base, f.large);
    NumberShape(num, base, width, precision, f);
  }

  /** The value of a printed number, from that of its digits. */
  function WithSign(num: Word, f: Flags, v: nat): int {
    if IsMinus(num, f) then 0 - v as int else v
  }

  /** A printed number, read to any base, has the sign of the number and the value of its digits,
      whatever the width, the flags and the precision, unless that is zero. */
  lemma TextRead(num: Word, base: nat, width: int, precision: int, f: Flags, d: nat)
    requires !Wraps(width, precision) && precision != 0 && 0 < d
    ensures var v := ReadDigits(Reversed(Digits(Magnitude(num, f), base, f.large)), d, 0);
      ReadNumber(NumberText(num, base, width, precision, f), d) == WithSign(num, f, v)
  {
    hide Digits, SignText, Magnitude, NumberText, Int32, Reversed, ReadNumber, WithSign;
    NumberShape(num, base, width, precision, f);
    var n := Magnitude(num, f);
    var digits, sign := Digits(n, base, f.large), SignText(num, f);
    var room, more := width - Most(|digits|, precision) - |sign|, precision - |digits|;
    DigitsRead(n, base, f.large);
    if f.left {
      LeftRead(num, f, Reversed(digits), more, room, d);
    } else if f.zero {
      ZeroRead(num, f, Reversed(digits), more, room, d);
    } else {
      RightRead(num, f, Reversed(digits), more, room, d);
    }
  }

  ghost predicate Begins(digits: string) {
    digits != "" && digits[0] !in " +-"
  }

  lemma LeftRead(num: Word, f: Flags, digits: string, more: int, room: int, d: nat)
    requires Begins(digits) && 0 < d
    ensures var body := Repeat('0', more) + digits;
      ReadNumber(SignText(num, f) + body + Repeat(' ', room), d) == WithSign(num, f, ReadDigits(digits, d, 0))
  {
    hide SignText, ReadNumber, ReadDigits, Begins, WithSign, Repeat;
    var sign, body := SignText(num, f), Repeat('0', more) + digits;
    BodyRead(digits, 0, more, room, d);
    SignedRead(num, f, d, body + Repeat(' ', room));
    assert sign + body + Repeat(' ', room) == sign + (body + Repeat(' ', room));
  }

  lemma ZeroRead(num: Word, f: Flags, digits: string, more: int, room: int, d: nat)
    requires Begins(digits) && 0 < d
    ensures var body := Repeat('0', more) + digits;
      ReadNumber(SignText(num, f) + Repeat('0', room) + body, d) == WithSign(num, f, ReadDigits(digits, d, 0))
  {
    hide SignText, ReadNumber, ReadDigits, Begins, WithSign, Repeat;
    var sign, body := SignText(num, f), Repeat('0', more) + digits;
    BodyRead(digits, room, more, 0, d);
    SignedRead(num, f, d, Repeat('0', room) + body);
    assert sign + Repeat('0', room) + body == sign + (Repeat('0', room) + body);
  }

  lemma RightRead(num: Word, f: Flags, digits: string, more: int, room: int, d: nat)
    requires Begins(digits) && 0 < d
    ensures var body := Repeat('0', more) + digits;
      ReadNumber(Repeat(' ', room) + SignText(num, f) + body, d) == WithSign(num, f, ReadDigits(digits, d, 0))
  {
    hide SignText, ReadNumber, ReadDigits, Begins, WithSign, Repeat;
    var sign, body := SignText(num, f), Repeat('0', more) + digits;
    BodyRead(digits, 0, more, 0, d);
    SignedRead(num, f, d, body);
    BlanksRead(room, sign + body, d);
    assert Repeat(' ', room) + sign + body == Repeat(' ', room) + (sign + body);
  }

  lemma BlanksRead(n: int, s: string, d: nat)
    ensures ReadNumber(Repeat(' ', n) + s, d) == ReadNumber(s, d)
  {
    SkipRepeat(n, s);
  }

  /** Blanks end a number. */
  lemma {:induction false} ReadToBlanks(s: string, n: int, d: nat, acc: nat)
    ensures ReadDigits(s + Repeat(' ', n), d, acc) == ReadDigits(s, d, acc)
  {
    if s == "" {
      assert s + Repeat(' ', n) == Repeat(' ', n);
      BlanksEnd(n, d, acc);
    } else {
      assert (s + Repeat(' ', n))[1..] == s[1..] + Repeat(' ', n) && (s + Repeat(' ', n))[0] == s[0];
      if IsDigitOf(s[0], d) {
        ReadToBlanks(s[1..], n, d, acc * d + DigitOf(s[0]));
      }
    }
  }

  /** Zeros, more zeros, digits and blanks. */
  lemma BodyRead(digits: string, a: int, b: int, c: int, d: nat)
    requires Begins(digits) && 0 < d
    ensures var s := Repeat('0', a) + (Repeat('0', b) + digits) + Repeat(' ', c);
      ReadDigits(s, d, 0) == ReadDigits(digits, d, 0) && Begins(s)
    ensures a <= 0 ==> Repeat('0', a) + (Repeat('0', b) + digits) == Repeat('0', b) + digits
    ensures c <= 0 ==>
      var s := Repeat('0', a) + (Repeat('0', b) + digits);
      s + Repeat(' ', c) == s
  {
    var rest := digits + Repeat(' ', c);
    ReadToBlanks(digits, c, d, 0);
    ZerosRead(b, rest, d);
    ZerosRead(a, Repeat('0', b) + rest, d);
    assert Repeat('0', a) + (Repeat('0', b) + digits) + Repeat(' ', c) == Repeat('0', a) + (Repeat('0', b) + rest);
  }

  lemma SignedRead(num: Word, f: Flags, d: nat, s: string)
    requires Begins(s)
    ensures ReadNumber(SignText(num, f) + s, d) == WithSign(num, f, ReadDigits(s, d, 0))
  {
    var sign := SignText(num, f);
    assert |sign| == 1 ==> (sign + s)[1..] == s;
    assert sign == "" ==> sign + s == s;
    assert SkipBlanks(s) == s;
    if sign != "" {
      assert (sign + s)[0] == sign[0];
    }
  }

  /** In the bases that divide knows, what is printed reads back as the number, unless the precision
      is zero. */
  lemma ReadBack(num: Word, base: nat, width: int, precision: int, f: Flags)
    requires !Wraps(width, precision) && precision != 0
    ensures ReadNumber(NumberText(num, base, width, precision, f), Divisor(base)) == if f.sign then Int32(num) else num
  {
    hide Digits, NumberText, Reversed, ReadNumber;
    TextRead(num, base, width, precision, f, Divisor(base));
    DigitsRead(Magnitude(num, f), base, f.large);
  }

  /** With precision 0 the digits are left out, of every number. */
  lemma NoDigitsRead(num: Word, base: nat, width: int, f: Flags, d: nat)
    requires !Wraps(width, 0) && 0 < d
    ensures ReadNumber(NumberText(num, base, width, 0, f), d) == 0
  {
    hide Digits, SignText, Magnitude, NumberText, Int32, Reversed, ReadNumber;
    NumberShape(num, base, width, 0, f);
    SignIs(num, f);
    var n := Magnitude(num, f);
    TmpFits(n, base, f.large);
    var digits, sign := Digits(n, base, f.large), SignText(num, f);
    var room := width - |digits| - |sign|;
    var body := Repeat('0', 0 - |digits|) + "";
    assert body == "";
    EmptyRead(if f.left || f.zero then 0 else room, sign, if f.zero && !f.left then room else 0, if f.left then room else 0, d);
    assert sign + body + Repeat(' ', room) == Repeat(' ', 0) + sign + Repeat('0', 0) + Repeat(' ', room);
    assert sign + Repeat('0', room) + body == Repeat(' ', 0) + sign + Repeat('0', room) + Repeat(' ', 0);
    assert Repeat(' ', room) + sign + body == Repeat(' ', room) + sign + Repeat('0', 0) + Repeat(' ', 0);
  }

  lemma SignIs(num: Word, f: Flags)
    ensures SignText(num, f) in {"", " ", "+", "-"}
  {
  }

  lemma EmptyRead(a: int, sign: string, b: int, c: int, d: nat)
    requires sign in {"", " ", "+", "-"} && 0 < d
    ensures ReadNumber(Repeat(' ', a) + sign + Repeat('0', b) + Repeat(' ', c), d) == 0
  {
    hide Repeat, ReadNumber;
    var rest := Repeat('0', b) + Repeat(' ', c);
    ZerosRead(b, Repeat(' ', c), d);
    BlanksEnd(c, d, 0);
    assert Repeat(' ', a) + sign + Repeat('0', b) + Repeat(' ', c) == Repeat(' ', a) + (sign + rest);
    BlanksRead(a, sign + rest, d);
    SignRead(sign, rest, d);
    ZerosOnly(b, c, d);
  }

  lemma SignRead(sign: string, rest: string, d: nat)
    requires sign in {"", " ", "+", "-"} && ReadDigits(rest, d, 0) == 0
    ensures ReadNumber(rest, d) == 0 ==> ReadNumber(sign + rest, d) == 0
  {
    assert sign != "" ==> (sign + rest)[1..] == rest && (sign + rest)[0] == sign[0];
    assert sign == "" ==> sign + rest == rest;
  }

  lemma ZerosOnly(b: int, c: int, d: nat)
    requires ReadDigits(Repeat('0', b) + Repeat(' ', c), d, 0) == 0
    ensures ReadNumber(Repeat('0', b) + Repeat(' ', c), d) == 0
  {
    var rest := Repeat('0', b) + Repeat(' ', c);
    if b > 0 {
      assert rest[0] == '0';
    } else {
      assert rest == Repeat(' ', c) + "";
      SkipRepeat(c, "");
    }
  }

  /** Main result on print_number: to the base that divide uses, which is 10 or 16, what is printed
      reads back as the number, whatever the width and the flags, except for numbers other than 0 with
      precision 0. */
  lemma ReadBackIff(num: Word, base: nat, width: int, precision: int, f: Flags)
    requires !Wraps(width, precision)
    ensures ReadNumber(NumberText(num, base, width, precision, f), Divisor(base)) == (if f.sign then Int32(num) else num)
      <==> precision != 0 || num == 0
  {
    hide NumberText, ReadNumber;
    if precision != 0 {
      ReadBack(num, base, width, precision, f);
    } else {
      NoDigitsRead(num, base, width, f, Divisor(base));
    }
  }

  // ---- Octal numbers ----------------------------------------------------------------------

  /** The digits of base 16, read to the base 8 up to the first one that is no octal digit: never more
      than the number, and less from 8 on. */
  lemma {:induction false} OctalDigits(n: nat, large: bool)
    ensures var v := ReadDigits(Reversed(Digits(n, 8, large)), 8, 0);
      v <= n && (v == n <==> n < 8)
  {
    hide Reversed, Digits, DigitChar, DigitOf;
    LastDigit(n, large);
    DigitRead(n % 16, 16, large);
    ReadOneMore(if n < 16 then "" else Reversed(Digits(n / 16, 8, large)), DigitChar(n % 16, large), 8, 0);
    if n >= 16 {
      OctalDigits(n / 16, large);
    }
    OneOctal(DigitChar(n % 16, large));
  }

  lemma LastDigit(n: nat, large: bool)
    ensures Reversed(Digits(n, 8, large)) ==
      (if n < 16 then "" else Reversed(Digits(n / 16, 8, large))) + [DigitChar(n % 16, large)]
  {
    hide DigitChar, Reversed;
    ReversedCons(DigitChar(n % 16, large), if n < 16 then "" else Digits(n / 16, 8, large));
  }

  lemma ReversedCons(c: char, s: string)
    ensures Reversed([c] + s) == Reversed(s) + [c] && Reversed([c]) == "" + [c] && [c] + "" == [c]
  {
  }

  lemma OneOctal(c: char)
    ensures ReadDigits("" + [c], 8, 0) == if IsDigitOf(c, 8) then DigitOf(c) else 0
  {
    assert "" + [c] == [c] && [c][1..] == "";
  }

  /** One digit more counts, unless the reading stopped before it or stops there. */
  lemma {:induction false} ReadOneMore(s: string, c: char, d: nat, acc: nat)
    ensures var v, w := ReadDigits(s, d, acc), ReadDigits(s + [c], d, acc);
      w == v || (IsDigitOf(c, d) && w == v * d + DigitOf(c))
  {
    if s == "" {
      assert s + [c] == [c] && [c][1..] == "";
    } else {
      assert (s + [c])[1..] == s[1..] + [c] && (s + [c])[0] == s[0];
      if IsDigitOf(s[0], d) {
        ReadOneMore(s[1..], c, d, acc * d + DigitOf(s[0]));
      }
    }
  }

  /** Main result on %o: an octal reader gets the number back exactly if it has one octal digit, or, with
      precision 0, exactly if it is 0.  The flags of %o never ask for a sign. */
  lemma OctalIff(num: Word, width: int, precision: int, f: Flags)
    requires !Wraps(width, precision) && !f.sign
    ensures ReadNumber(NumberText(num, 8, width, precision, f), 8) == num
      <==> if precision == 0 then num == 0 else num < 8
  {
    hide NumberText, ReadNumber, Digits, Reversed;
    if precision == 0 {
      NoDigitsRead(num, 8, width, f, 8);
    } else {
      TextRead(num, 8, width, precision, f, 8);
      OctalDigits(num, f.large);
    }
  }

  lemma EightDigit()
    ensures Digits(8, 8, false) == "8" && Reversed("8") == "8" && ReadNumber("8", 8) == 0
  {
  }

  /** The first number that is printed wrongly: 8 should be 10. */
  lemma OctalExample()
    ensures NumberText(8, 8, -1, -1, NONE) == "8"
    ensures ReadNumber(NumberText(8, 8, -1, -1, NONE), 8) == 0
  {
    hide Digits, NumberText, ReadNumber, Int32, Reversed;
    NumberShape(8, 8, -1, -1, NONE);
    EightDigit();
    assert SignText(8, NONE) == "" && Magnitude(8, NONE) == 8;
    assert Repeat(' ', -2) == "" && Repeat('0', -2) == "";
    assert "" + "" + ("" + "8") == "8";
  }

  // ---- Strings ----------------------------------------------------------------------------

  /** %s prints the first characters of a string, at most as many as the precision, and fills them
      up to the width. */
  lemma StringShape(text: string, width: int, precision: int, left: bool)
    requires |text| < WORD / 2 && -WORD / 2 < width < WORD / 2
    ensures var n := if 0 < precision < |text| then precision else |text|;
      StringText(text, width, precision, left) ==
        if left then text[..n] + Repeat(' ', width - n) else Repeat(' ', width - n) + text[..n]
  {
    var n := if 0 < precision < |text| then precision else |text|;
    assert CutLength(text, precision) == n;
    if !left {
      assert Repeat(' ', width - n) + text[..n] + "" == Repeat(' ', width - n) + text[..n];
    }
  }
}
