/** rt_vsnprintf (kservice.c) as it fills a buffer, against the whole text of PrintText. */
module PrintBuffer {
  import opened PrintLemmas
  import opened PrintText

  function Least(a: nat, b: nat): nat {
    if a < b then a else b
  }

  /** The end of the buffer, which is moved to the last address if it wraps. */
  function End(base: Word, size: Word): (e: nat)
    ensures base <= e < WORD
  {
    if (base + size) % WORD < base then WORD - 1 else (base + size) % WORD
  }

  lemma MoreOf(c: char, n: nat)
    ensures Repeat(c, n) + [c] == Repeat(c, n + 1)
  {
  }

  /** What printing a text from address `base` on makes of the memory: a character is stored only
      below `end`, but addresses have 32 bits. */
  function Printed(m: string, base: Word, end: nat, text: string): (r: string)
    requires end <= |m|
    ensures |r| == |m|
  {
    if text == "" then m
    else
      var n := |text| - 1;
      var r := Printed(m, base, end, text[..n]);
      if (base + n) % WORD < end then r[(base + n) % WORD := text[n]] else r
  }

  lemma PrintMore(m: string, base: Word, end: nat, text: string, c: char)
    requires end <= |m|
    ensures var r, a := Printed(m, base, end, text), (base + |text|) % WORD;
      Printed(m, base, end, text + [c]) == if a < end then r[a := c] else r
  {
    assert (text + [c])[..|text|] == text;
  }

  /** What the last lines of rt_vsnprintf make of the memory. */
  function Ended(m: string, base: Word, end: nat, len: nat): (r: string)
    requires base <= end <= |m|
    ensures |r| == |m|
  {
    if end == base then m else if (base + len) % WORD < end then m[(base + len) % WORD := '\0'] else m[end - 1 := '\0']
  }

  lemma NextAddress(base: Word, n: nat)
    ensures ((base + n) % WORD + 1) % WORD == (base + n + 1) % WORD
    ensures Int32((base + n) % WORD - base) == Int32(n)
  {
  }

  /** The memory, and the three pointers of rt_vsnprintf into it: buf, str and end. */
  class Cursor {
    const mem: array<char>
    const base: Word             // buf
    const end: nat
    var str: nat

    ghost const before: string   // what was in the memory
    ghost var text: string       // the text so far, stored or not

    ghost predicate Valid()
      reads this, mem
    {
      && |before| == mem.Length && base <= end < mem.Length == WORD && str == (base + |text|) % WORD
      && mem[..] == Printed(before, base, end, text)
    }

    constructor (mem: array<char>, base: Word, size: Word)
      requires mem.Length == WORD
      ensures Valid() && text == "" && this.mem == mem && this.base == base && end == End(base, size) && before == mem[..]
    {
      this.mem, this.base := mem, base;
      end := if (base + size) % WORD < base then WORD - 1 else (base + size) % WORD;
      str, text, before := base, "", mem[..];
    }

    /** if (str < end) *str = c; ++str; */
    method Put(c: char)
      requires Valid()
      modifies this`str, this`text, mem
      ensures Valid() && text == old(text) + [c]
    {
      hide Printed;
      PrintMore(before, base, end, text, c);
      if str < end {
        mem[str] := c;
        assert mem[..] == old(mem[..])[old(str) := c];
      }
      NextAddress(base, |text|);
      str := (str + 1) % WORD;
      text := text + [c];
    }

    /** while (n-- > 0), printing `c` */
    method Pad(c: char, n: int) returns (rest: int)
      requires Valid() && -WORD / 2 <= n < WORD / 2
      modifies this`str, this`text, mem
      ensures Valid() && text == old(text) + Repeat(c, n) && rest == After(n)
    {
      rest := n;
      ghost var k := 0;
      assert old(text) + Repeat(c, 0) == old(text);
      while rest > 0
        invariant Valid() && 0 <= k && text == old(text) + Repeat(c, k)
        invariant n > 0 ==> k <= n && rest == n - k
        invariant n <= 0 ==> k == 0 && rest == n
        decreases rest
      {
        rest := rest - 1;
        Put(c);
        MoreOf(c, k);
        k := k + 1;
      }
      assert Repeat(c, k) == Repeat(c, n);
      rest := Int32(rest - 1);
    }

    /** while (--n > 0), printing blanks */
    method PadBefore(n: int) returns (rest: int)
      requires Valid()
      modifies this`str, this`text, mem
      ensures Valid() && text == old(text) + Repeat(' ', Int32(n - 1))
      ensures rest == if Int32(n - 1) > 0 then 0 else Int32(n - 1)
    {
      rest := Int32(n - 1);
      ghost var first, k := rest, 0;
      assert old(text) + Repeat(' ', 0) == old(text);
      while rest > 0
        invariant Valid() && 0 <= k && text == old(text) + Repeat(' ', k)
        invariant first > 0 ==> k <= first && rest == first - k
        invariant first <= 0 ==> k == 0 && rest == first
        decreases rest
      {
        Put(' ');
        MoreOf(' ', k);
        k := k + 1;
        rest := rest - 1;
      }
      assert Repeat(' ', k) == Repeat(' ', first);
    }

    /** while (len < n--), printing `c` */
    method PadTo(c: char, len: int, n: int) returns (rest: int)
      requires Valid() && -WORD / 2 <= n < WORD / 2 && -WORD / 2 <= len < WORD / 2
      modifies this`str, this`text, mem
      ensures Valid() && text == old(text) + Repeat(c, n - len)
      ensures rest == if n > len then Int32(len - 1) else Int32(n - 1)
    {
      rest := n;
      ghost var k := 0;
      assert old(text) + Repeat(c, 0) == old(text);
      while len < rest
        invariant Valid() && 0 <= k && text == old(text) + Repeat(c, k)
        invariant n > len ==> k <= n - len && rest == n - k
        invariant n <= len ==> k == 0 && rest == n
        decreases rest - len
      {
        rest := rest - 1;
        Put(c);
        MoreOf(c, k);
        k := k + 1;
      }
      assert Repeat(c, k) == Repeat(c, n - len);
      rest := Int32(rest - 1);
    }

    /** Prints a string, a prefix of which of length `len` is meant. */
    method PutAll(s: string, len: int)
      requires Valid() && len <= |s|
      modifies this`str, this`text, mem
      ensures Valid() && text == old(text) + s[..NotNegative(len)]
    {
      var i := 0;
      while i < len
        invariant Valid() && 0 <= i <= NotNegative(len) && text == old(text) + s[..i]
      {
        Put(s[i]);
        assert s[..i] + [s[i]] == s[..i + 1];
        i := i + 1;
      }
    }

    /** while (i-- > 0 && precision_bak != 0), printing tmp[i] */
    method PutDigits(tmp: array<char>, count: nat, precision: int)
      requires Valid() && count <= tmp.Length && tmp != mem
      modifies this`str, this`text, mem
      ensures Valid() && text == old(text) + if precision != 0 then Reversed(tmp[..count]) else ""
    {
      var i := count;
      ghost var digits := Reversed(tmp[..count]);
      while i > 0 && precision != 0
        invariant Valid() && 0 <= i <= count && tmp[..count] == old(tmp[..count])
        invariant text == old(text) + digits[..count - i] && (precision == 0 ==> i == count)
      {
        i := i - 1;
        Put(tmp[i]);
        assert digits[..count - i - 1] + [digits[count - i - 1]] == digits[..count - i];
      }
      assert precision != 0 ==> digits[..count] == digits;
    }

    /** The part of print_number in front of the digits; no sign is the zero character. */
    method PutFront(sign: char, size: int, zero: bool, left: bool) returns (rest: int)
      requires Valid() && -WORD / 2 <= size < WORD / 2
      modifies this`str, this`text, mem
      ensures Valid() && text == old(text) + Front(SignString(sign), size, zero, left).0
      ensures rest == Front(SignString(sign), size, zero, left).1 && -WORD / 2 <= rest < WORD / 2
    {
      hide Repeat, Int32, Valid, After, Front;
      FrontParts(text, SignString(sign), size, zero, left);
      rest := size;
      if !zero && !left {
        if sign != '\0' && rest > 0 {
          rest := rest - 1;
        }
        rest := Pad(' ', rest);
      }
      if sign != '\0' {
        Put(sign);
        rest := Int32(rest - 1);
      }
      if !left {
        rest := Pad(if zero then '0' else ' ', rest);
      }
    }

    /** The part of print_number behind the sign. */
    method PutBody(tmp: array<char>, i: nat, most: int, precision: int, size: int)
      requires Valid() && i <= tmp.Length && tmp != mem
      requires -WORD / 2 <= most < WORD / 2 && -WORD / 2 <= size < WORD / 2 && i < WORD / 2
      modifies this`str, this`text, mem
      ensures Valid() && text == old(text) + Body(tmp[..i], most, precision, size)
    {
      hide Reversed, Repeat, Valid, Body;
      ghost var d := tmp[..i];
      BodyIs(text, d, most, precision, size);
      var rest := PadTo('0', i, most);
      assert tmp[..i] == d;
      PutDigits(tmp, i, precision);
      rest := Pad(' ', size);
    }

    /** print_number */
    method PutNumber(num: Word, base: nat, width: int, precision: int, f: Flags)
      requires Valid()
      requires -WORD / 2 <= width < WORD / 2 && -WORD / 2 <= precision < WORD / 2
      modifies this`str, this`text, mem
      ensures Valid() && text == old(text) + NumberText(num, base, width, precision, f)
    {
      hide Digits, Body, Front, NumberText, Valid, SignText, Magnitude, SignString, Int32;
      var sign, n := TakeSign(num, f);
      TmpFits(n, base, f.large);
      var tmp, i := Convert(n, base, f.large);
      var most := precision;
      if i > most {
        most := i;
      }
      NumberParts(num, base, width, precision, f, n, SignString(sign), most);
      var size := PutFront(sign, Int32(width - most), f.zero && !f.left, f.left);
      PutBody(tmp, i, most, precision, size);
    }

    /** The directive %c. */
    method PutChar(c: char, width: int, left: bool)
      requires Valid()
      modifies this`str, this`text, mem
      ensures Valid() && text == old(text) + CharText(c, width, left)
    {
      hide Valid, Repeat;
      var w := width;
      if !left {
        w := PadBefore(w);
      }
      Put(c);
      w := PadBefore(w);
    }

    /** The directive %s. */
    method PutString(s: string, width: int, precision: int, left: bool)
      requires Valid() && -WORD / 2 <= width < WORD / 2
      modifies this`str, this`text, mem
      ensures Valid() && text == old(text) + StringText(s, width, precision, left)
    {
      hide Valid, Repeat, StringText;
      var len, w := Int32(|s|), width;
      if precision > 0 && len > precision {
        len := precision;
      }
      StringParts(text, s, width, precision, left, len);
      if !left {
        w := PadTo(' ', len, w);
      }
      PutAll(s, len);
      w := PadTo(' ', len, w);
    }

    /** The terminator: behind the text, or in the last place. */
    method Terminate()
      requires Valid()
      modifies mem
      ensures mem[..] == Ended(Printed(before, base, end, text), base, end, |text|)
    {
      hide Printed;
      if end > base {
        if str < end {
          mem[str] := '\0';
        } else {
          mem[end - 1] := '\0';
        }
        assert mem[..] == old(mem[..])[(if str < end then str else end - 1) := '\0'];
      }
    }

    /** The conversion of a directive that was read. */
    method PutConversion(conversion: char, p: Place, args: seq<Arg>) returns (k: nat)
      requires Valid() && PlaceOk(p)
      modifies this`str, this`text, mem
      ensures Valid() && text == old(text) + Conversion(conversion, p, args).0 && k == Conversion(conversion, p, args).1
    {
      hide Valid, NumberText, CharText, StringText, NumberOf;
      var f, base, arg := p.flags, 10, ArgAt(args, p.k);
      k := p.k;
      match conversion {
        case 'c' =>
          PutChar((arg.word % 256) as char, p.width, f.left);
          k := k + 1;
          return;
        case 's' =>
          PutString(if arg.word == 0 then "(NULL)" else arg.text, p.width, p.precision, f.left);
          k := k + 1;
          return;
        case 'p' =>
          var width := p.width;
          if width == -1 {
            width, f := 8, f.(zero := true);
          }
          PutNumber(arg.word, 16, width, p.precision, f);
          k := k + 1;
          return;
        case '%' =>
          Put('%');
          return;
        case 'o' => base := 8;
        case 'X' => f, base := f.(large := true), 16;
        case 'x' => base := 16;
        case 'd' => f := f.(sign := true);
        case 'i' => f := f.(sign := true);
        case 'u' =>
        case _ =>
          Put('%');
          if conversion != '\0' {
            Put(conversion);
          }
          return;
      }
      PutNumber(NumberOf(arg.word, p.qualifier, f), base, p.width, p.precision, f);
      k := k + 1;
    }
  }

  /** divide */
  method Divide(n: nat, base: nat) returns (res: nat, rest: nat)
    ensures res == n % Divisor(base) && rest == n / Divisor(base) && res < 16
  {
    if base == 10 {
      res, rest := n % 10, n / 10;
    } else {
      res, rest := n % 16, n / 16;
    }
  }

  /** The conversion loop of print_number: it stays inside tmp. */
  method Convert(num: Word, base: nat, large: bool) returns (tmp: array<char>, i: nat)
    ensures fresh(tmp) && i <= tmp.Length == 16 && tmp[..i] == Digits(num, base, large)
  {
    hide Digits;
    TmpFits(num, base, large);
    tmp := new char[16];
    i := 0;
    DigitsStep(num, base, large);
    if num == 0 {
      tmp[i] := '0';
      i := i + 1;
    } else {
      var n: Word := num;
      while n != 0
        invariant i <= 10 && Digits(num, base, large) == tmp[..i] + (if n == 0 then "" else Digits(n, base, large))
        decreases n
      {
        DigitsStep(n, base, large);
        TmpFits(n, base, large);
        var d, rest := Divide(n, base);
        ghost var done := tmp[..i];
        tmp[i] := DigitChar(d, large);
        assert tmp[..i + 1] == done + [DigitChar(d, large)];
        i := i + 1;
        n := rest;
      }
    }
  }

  lemma DigitsStep(n: nat, base: nat, large: bool)
    ensures n == 0 ==> Digits(n, base, large) == "0"
    ensures Digits(n, base, large) ==
      [DigitChar(n % Divisor(base), large)] + if n / Divisor(base) == 0 then "" else Digits(n / Divisor(base), base, large)
  {
  }

  /** The sign of a number, which then becomes positive. */
  method TakeSign(num: Word, f: Flags) returns (sign: char, n: Word)
    ensures SignString(sign) == SignText(num, f) && n == Magnitude(num, f)
  {
    sign, n := '\0', num;
    if f.sign {
      if Int32(num) < 0 {
        sign, n := '-', WORD - num;
      } else if f.plus {
        sign := '+';
      } else if f.space {
        sign := ' ';
      }
    }
  }

  function SignString(sign: char): string {
    if sign == '\0' then "" else [sign]
  }

  function Body(digits: string, most: int, precision: int, size: int): string {
    Repeat('0', most - |digits|) + (if precision != 0 then Reversed(digits) else "") + Repeat(' ', size)
  }

  lemma FrontParts(text: string, sign: string, size: int, zero: bool, left: bool)
    ensures var n := BlanksBefore(size, sign != "");
      var before := if zero || left then text else text + Repeat(' ', n);
      var size1 := if zero || left then size else After(n);
      var size2 := if sign != "" then Int32(size1 - 1) else size1;
      var front := if sign != "" then before + sign else before;
      && text + Front(sign, size, zero, left).0 == (if left then front else front + Repeat(if zero then '0' else ' ', size2))
      && Front(sign, size, zero, left).1 == if left then size2 else After(size2)
  {
    hide Repeat, Int32, After;
  }

  lemma BodyIs(text: string, digits: string, most: int, precision: int, size: int)
    ensures var b := Body(digits, most, precision, size);
      var zeros, shown, blanks := Repeat('0', most - |digits|), if precision != 0 then Reversed(digits) else "", Repeat(' ', size);
      text + zeros + shown + blanks == text + b && |b| == |zeros| + |shown| + |blanks|
  {
  }

  lemma NumberParts(num: Word, base: nat, width: int, precision: int, f: Flags, n: nat, sign: string, most: int)
    requires n == Magnitude(num, f) && sign == SignText(num, f)
    requires most == Most(|Digits(n, base, f.large)|, precision)
    ensures var digits, (front, rest) := Digits(n, base, f.large), Front(sign, Int32(width - most), f.zero && !f.left, f.left);
      NumberText(num, base, width, precision, f) == front + Body(digits, most, precision, rest)
  {
    hide Digits, Reversed, Front;
    var digits := Digits(n, base, f.large);
    assert Repeat('0', most - |digits|) == Repeat('0', precision - |digits|);
    var (front, rest) := Front(sign, Int32(width - most), f.zero && !f.left, f.left);
    var body := Repeat('0', most - |digits|) + if precision != 0 then Reversed(digits) else "";
    assert front + (body + Repeat(' ', rest)) == front + body + Repeat(' ', rest);
  }

  lemma StringParts(text: string, s: string, width: int, precision: int, left: bool, len: int)
    requires len == CutLength(s, precision)
    ensures var w := if left then width else if width > len then Int32(len - 1) else Int32(width - 1);
      var before, shown, after := if left then "" else Repeat(' ', width - len), s[..NotNegative(len)], Repeat(' ', w - len);
      var all := StringText(s, width, precision, left);
      |all| == |before| + |shown| + |after| && text + before + shown + after == text + all && text + "" == text
  {
    hide Repeat;
    var w := if left then width else if width > len then Int32(len - 1) else Int32(width - 1);
    var before, shown, after := if left then "" else Repeat(' ', width - len), s[..NotNegative(len)], Repeat(' ', w - len);
    assert len < 0 ==> shown == "";
    assert "" + shown + after == shown + after;
    Joined(text, before, shown, after);
  }

  lemma Joined(text: string, a: string, b: string, c: string)
    ensures text + a + b + c == text + (a + b + c)
  {
  }

  // ---- The format -------------------------------------------------------------------------

  /** A C string: the characters, and a terminator behind them. */
  ghost predicate Holds(fmt: seq<char>, s: string) {
    |s| < |fmt| && fmt[..|s|] == s && fmt[|s|] == '\0'
  }

  lemma HoldsAt(fmt: seq<char>, s: string, i: nat)
    requires Holds(fmt, s) && i <= |s|
    ensures i < |fmt| && fmt[i] == At(s, i)
  {
    if i < |s| {
      assert fmt[..|s|][i] == s[i];
    }
  }

  predicate PlaceOk(p: Place) {
    -WORD / 2 <= p.width < WORD / 2 && -WORD / 2 <= p.precision < WORD / 2
  }

  /** The loop over the flags; it starts at the % sign. */
  method ReadFlags(fmt: seq<char>, ghost s: string, i: nat) returns (f: Flags, j: nat)
    requires Holds(fmt, s) && i < |s|
    ensures (f, j) == ParseFlags(s, i + 1, NONE)
  {
    f, j := NONE, i + 1;
    HoldsAt(fmt, s, j);
    while fmt[j] in "-+ #0"
      invariant i < j <= |s| && fmt[j] == At(s, j) && ParseFlags(s, j, f) == ParseFlags(s, i + 1, NONE)
      decreases |s| - j
    {
      match fmt[j] {
        case '-' => f := f.(left := true);
        case '+' => f := f.(plus := true);
        case ' ' => f := f.(space := true);
        case '#' => f := f.(special := true);
        case _ => f := f.(zero := true);
      }
      j := j + 1;
      HoldsAt(fmt, s, j);
    }
  }

  /** skip_atoi */
  method SkipAtoi(fmt: seq<char>, ghost s: string, i: nat) returns (n: int, j: nat)
    requires Holds(fmt, s) && i <= |s|
    ensures (n, j) == Atoi(s, i, 0) && -WORD / 2 <= n < WORD / 2
  {
    n, j := 0, i;
    HoldsAt(fmt, s, j);
    while IsDigit(fmt[j])
      invariant i <= j <= |s| && fmt[j] == At(s, j) && Atoi(s, j, n) == Atoi(s, i, 0) && -WORD / 2 <= n < WORD / 2
      decreases |s| - j
    {
      n := Int32(n * 10 + (fmt[j] as int - '0' as int));
      j := j + 1;
      HoldsAt(fmt, s, j);
    }
  }

  method ReadWidth(fmt: seq<char>, ghost s: string, p: Place, args: seq<Arg>) returns (q: Place)
    requires Holds(fmt, s) && p.i <= |s| && PlaceOk(p)
    ensures q == ParseWidth(s, p, args) && PlaceOk(q)
  {
    HoldsAt(fmt, s, p.i);
    q := p.(width := -1);
    if IsDigit(fmt[q.i]) {
      var n, j := SkipAtoi(fmt, s, q.i);
      q := q.(width := n, i := j);
    } else if fmt[q.i] == '*' {
      q := q.(width := Int32(ArgAt(args, q.k).word), i := q.i + 1, k := q.k + 1);
      if q.width < 0 {
        q := q.(width := Int32(-q.width), flags := q.flags.(left := true));
      }
    }
  }

  method ReadPrecision(fmt: seq<char>, ghost s: string, p: Place, args: seq<Arg>) returns (q: Place)
    requires Holds(fmt, s) && p.i <= |s| && PlaceOk(p)
    ensures q == ParsePrecision(s, p, args) && PlaceOk(q)
  {
    HoldsAt(fmt, s, p.i);
    q := p.(precision := -1);
    if fmt[q.i] == '.' {
      q := q.(i := q.i + 1);
      HoldsAt(fmt, s, q.i);
      if IsDigit(fmt[q.i]) {
        var n, j := SkipAtoi(fmt, s, q.i);
        q := q.(precision := n, i := j);
      } else if fmt[q.i] == '*' {
        q := q.(precision := Int32(ArgAt(args, q.k).word), i := q.i + 1, k := q.k + 1);
      }
      if q.precision < 0 {
        q := q.(precision := 0);
      }
    }
  }

  /** Everything between a % sign and the conversion. */
  method ReadDirective(fmt: seq<char>, ghost s: string, i: nat, k: nat, args: seq<Arg>) returns (p: Place)
    requires Holds(fmt, s) && i < |s|
    ensures p == ParseDirective(s, i, k, args) && PlaceOk(p) && i < p.i <= |s|
  {
    hide ParseFlags, ParseWidth, ParsePrecision;
    var f, j := ReadFlags(fmt, s, i);
    p := ReadWidth(fmt, s, Place(j, k, f, -1, -1, '\0'), args);
    p := ReadPrecision(fmt, s, p, args);
    HoldsAt(fmt, s, p.i);
    p := p.(qualifier := '\0');
    if fmt[p.i] == 'h' || fmt[p.i] == 'l' {
      p := p.(qualifier := fmt[p.i], i := p.i + 1);
    }
  }

  // ---- The whole --------------------------------------------------------------------------

  /** The size of the buffer, as far as it does not reach beyond the last address. */
  function SizeOf(base: Word, size: Word): nat {
    End(base, size) - base
  }

  /** The memory after the call. */
  ghost function Memory(m: string, base: Word, size: Word, out: string): (r: string)
    requires |m| == WORD
    ensures |r| == WORD
  {
    Ended(Printed(m, base, End(base, size), out), base, End(base, size), |out|)
  }

  /** What is at an address when the buffer holds as much of a text as fits, and a terminator. */
  function Truncation(m: string, base: Word, size: Word, out: string, a: nat): char
    requires a < |m|
  {
    if base <= a < base + |out| && a + 1 < End(base, size) then out[a - base]
    else if base < End(base, size) && a == Least(base + |out|, End(base, size) - 1) then '\0'
    else m[a]
  }

  /** The buffer holds as much of the text as fits, and the rest of the memory what it did. */
  ghost predicate HasBeginning(m: string, r: string, base: Word, size: Word, out: string) {
    |m| == |r| == WORD && forall a :: 0 <= a < WORD ==> r[a] == Truncation(m, base, size, out, a)
  }

  /** Main result: for every format, arguments, size and place of the buffer the length of the whole
      text is returned whatever the size; and if the text ends below 2^32, the buffer gets as much of
      it as fits and a terminator, and no other address of the memory is written. */
  method Vsnprintf(mem: array<char>, base: Word, size: Word, fmt: seq<char>, ghost s: string, args: seq<Arg>) returns (r: int)
    requires mem.Length == WORD && Holds(fmt, s)
    modifies mem
    ensures r == Int32(|Output(s, args)|)
    ensures mem[..] == Memory(old(mem[..]), base, size, Output(s, args))
    ensures base + |Output(s, args)| < WORD ==> HasBeginning(old(mem[..]), mem[..], base, size, Output(s, args))
  {
    hide Text, Directive, ParseDirective, Conversion, HasBeginning, Printed, Ended, Output;
    ghost var out := Output(s, args);
    var cursor := new Cursor(mem, base, size);
    Whole(s, args);
    var i, k := 0, 0;
    HoldsAt(fmt, s, i);
    while fmt[i] != '\0'
      invariant cursor.Valid() && cursor.mem == mem && cursor.base == base && cursor.end == End(base, size)
      invariant cursor.before == old(mem[..])
      invariant i <= |s| && fmt[i] == At(s, i) && cursor.text + Text(s, i, k, args) == out
      decreases |s| - i
    {
      TextStep(cursor.text, s, i, k, args);
      if fmt[i] != '%' {
        cursor.Put(fmt[i]);
        i := i + 1;
      } else {
        var p := ReadDirective(fmt, s, i, k, args);
        HoldsAt(fmt, s, p.i);
        k := cursor.PutConversion(fmt[p.i], p, args);
        i := if fmt[p.i] == '\0' then p.i else p.i + 1;
      }
      HoldsAt(fmt, s, i);
    }
    Finished(cursor.text, s, i, k, args);
    cursor.Terminate();
    NextAddress(base, |out|);
    Truncated(old(mem[..]), base, size, out);
    r := Int32(cursor.str - base);
  }

  lemma {:induction false} PrintedAt(m: string, base: Word, end: nat, text: string, a: nat)
    requires end <= |m| && a < |m| && base + |text| <= WORD
    ensures Printed(m, base, end, text)[a] == if base <= a < base + |text| && a < end then text[a - base] else m[a]
  {
    if text != "" {
      PrintedAt(m, base, end, text[..|text| - 1], a);
    }
  }

  /** The truncation law, for texts that end below 2^32. */
  lemma Truncated(m: string, base: Word, size: Word, out: string)
    requires |m| == WORD
    ensures base + |out| < WORD ==> HasBeginning(m, Memory(m, base, size, out), base, size, out)
  {
    hide Printed;
    if base + |out| < WORD {
      forall a | 0 <= a < WORD
        ensures Memory(m, base, size, out)[a] == Truncation(m, base, size, out, a)
      {
        PrintedAt(m, base, End(base, size), out, a);
      }
    }
  }

  lemma Whole(s: string, args: seq<Arg>)
    ensures "" + Text(s, 0, 0, args) == Output(s, args)
  {
    hide Text;
  }

  lemma Finished(text: string, s: string, i: nat, k: nat, args: seq<Arg>)
    requires i <= |s| && At(s, i) == '\0'
    ensures text + Text(s, i, k, args) == text
  {
  }

  /** One turn of the loop over the format. */
  lemma TextStep(text: string, s: string, i: nat, k: nat, args: seq<Arg>)
    requires i < |s| && At(s, i) != '\0'
    ensures At(s, i) != '%' ==>
      text + [At(s, i)] + Text(s, i + 1, k, args) == text + Text(s, i, k, args)
    ensures At(s, i) == '%' ==>
      var p := ParseDirective(s, i, k, args);
      var (t, m) := Conversion(At(s, p.i), p, args);
      var j := if At(s, p.i) == '\0' then p.i else p.i + 1;
      j <= |s| && text + t + Text(s, j, m, args) == text + Text(s, i, k, args)
  {
    hide ParseDirective, Conversion;
  }

  // ---- Addresses --------------------------------------------------------------------------

  /** A character of the text is stored at an address. */
  predicate Stores(base: Word, end: nat, len: nat, a: nat, k: nat) {
    k < len && (base + k) % WORD == a < end
  }

  /** What is stored at an address does not depend on what was there; and nothing else changes. */
  lemma {:induction false} StoredAt(m: string, q: string, base: Word, end: nat, text: string, a: nat)
    requires end <= |m| == |q| && a < |m|
    ensures (exists k :: Stores(base, end, |text|, a, k)) ==> Printed(m, base, end, text)[a] == Printed(q, base, end, text)[a]
    ensures (forall k :: !Stores(base, end, |text|, a, k)) ==> Printed(m, base, end, text)[a] == m[a]
  {
    if text != "" {
      var n := |text| - 1;
      StoredAt(m, q, base, end, text[..n], a);
      if (base + n) % WORD == a < end {
        assert Stores(base, end, |text|, a, n);
      } else {
        assert forall k :: Stores(base, end, |text|, a, k) <==> Stores(base, end, n, a, k);
      }
    }
  }

  /** The call leaves everything outside of the buffer as it is, whatever is there. */
  ghost predicate StaysInside(base: Word, size: Word, out: string) {
    forall m: string, a: nat {:trigger Memory(m, base, size, out)[a]} ::
      |m| == WORD && a < WORD && !(base <= a < base + SizeOf(base, size)) ==> Memory(m, base, size, out)[a] == m[a]
  }

  /** Main result on the place: no call changes anything outside of its buffer exactly when the whole
      text ends below 2^32.  A longer one wraps around, and comes to lie in front of the buffer unless
      there is no memory in front of it; one that ends right there only loses its terminator. */
  lemma InsideIff(base: Word, size: Word, s: string, args: seq<Arg>)
    ensures var len := |Output(s, args)|;
      StaysInside(base, size, Output(s, args)) <==>
        base == 0 || base + len < WORD || (base + len == WORD && SizeOf(base, size) == 0)
  {
    hide Output;
    PlaceIff(base, size, Output(s, args));
  }

  lemma PlaceIff(base: Word, size: Word, out: string)
    ensures StaysInside(base, size, out) <==>
      base == 0 || base + |out| < WORD || (base + |out| == WORD && SizeOf(base, size) == 0)
  {
    if base == 0 || base + |out| < WORD || (base + |out| == WORD && SizeOf(base, size) == 0) {
      Inside(base, size, out);
    } else {
      Outside(base, size, out);
    }
  }

  lemma Inside(base: Word, size: Word, out: string)
    requires base == 0 || base + |out| < WORD || (base + |out| == WORD && SizeOf(base, size) == 0)
    ensures StaysInside(base, size, out)
  {
    hide Printed;
    forall m: string, a: nat | |m| == WORD && a < WORD && !(base <= a < base + SizeOf(base, size))
      ensures Memory(m, base, size, out)[a] == m[a]
    {
      NotStored(base, size, |out|, a);
      StoredAt(m, m, base, End(base, size), out, a);
    }
  }

  lemma NotStored(base: Word, size: Word, len: nat, a: nat)
    requires base == 0 || base + len <= WORD
    requires a < WORD && !(base <= a < base + SizeOf(base, size))
    ensures forall k :: !Stores(base, End(base, size), len, a, k)
  {
  }

  /** The address 0 is written to. */
  lemma Outside(base: Word, size: Word, out: string)
    requires 0 < base && WORD <= base + |out| && (base + |out| == WORD ==> SizeOf(base, size) > 0)
    ensures !StaysInside(base, size, out)
  {
    var m, q := seq(WORD, _ => 'm'), seq(WORD, _ => 'q');
    var e := End(base, size);
    var r, t := Memory(m, base, size, out), Memory(q, base, size, out);
    assert r[0] == t[0] by {
      hide Printed;
      StoredAt(m, q, base, e, out, 0);
      if base + |out| > WORD {
        assert Stores(base, e, |out|, 0, WORD - base);
      }
    }
    assert m[0] != q[0];
    assert r[0] != m[0] || t[0] != q[0];
  }
}
