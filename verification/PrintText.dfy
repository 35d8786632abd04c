/** What rt_vsnprintf (kservice.c) prints: the whole text of a format and its arguments, before
    any truncation.

    Widths and precisions are 32-bit integers that wrap.  RT_PRINTF_PRECISION is defined,
    RT_PRINTF_SPECIAL and RT_PRINTF_LONGLONG are not.
 */
module PrintText {

  const WORD := 0x1_0000_0000

  /** The 32-bit integer that is left of `x`. */
  function Int32(x: int): (r: int)
    ensures -WORD / 2 <= r < WORD / 2 && (-WORD / 2 <= x < WORD / 2 ==> r == x)
  {
    (x + WORD / 2) % WORD - WORD / 2
  }

  type Word = x: nat | x < WORD

  /** A word passed as an argument, and the string at that address if it is used as one. */
  datatype Arg = Arg(word: Word, text: string)

  function ArgAt(args: seq<Arg>, k: nat): Arg {
    if k < |args| then args[k] else Arg(0, "")
  }

  datatype Flags = Flags(zero: bool, sign: bool, plus: bool, space: bool, left: bool, special: bool, large: bool)

  const NONE := Flags(false, false, false, false, false, false, false)

  /** A C string is followed by its terminator. */
  function At(fmt: string, i: nat): char {
    if i < |fmt| then fmt[i] else '\0'
  }

  predicate IsDigit(c: char) {
    '0' <= c <= '9'
  }

  function Repeat(c: char, n: int): (s: string)
    ensures |s| == if n > 0 then n else 0
    ensures forall i :: 0 <= i < |s| ==> s[i] == c
  {
    seq(if n > 0 then n else 0, _ => c)
  }

  // ---- Numbers ----------------------------------------------------------------------------

  /** divide knows the bases 10 and 16 only. */
  function Divisor(base: nat): (d: nat)
    ensures d == 10 || d == 16
  {
    if base == 10 then 10 else 16
  }

  function DigitChar(d: nat, large: bool): char
    requires d < 16
  {
    if large then "0123456789ABCDEF"[d] else "0123456789abcdef"[d]
  }

  /** The digits in tmp: the last one first. */
  function Digits(n: nat, base: nat, large: bool): string {
    var d := Divisor(base);
    if n < d then [DigitChar(n, large)] else [DigitChar(n % d, large)] + Digits(n / d, base, large)
  }

  function Reversed(s: string): (r: string)
    ensures |r| == |s|
    ensures forall i :: 0 <= i < |r| ==> r[i] == s[|s| - 1 - i]
  {
    seq(|s|, i requires 0 <= i < |s| => s[|s| - 1 - i])
  }

  function IsMinus(num: Word, f: Flags): bool {
    f.sign && Int32(num) < 0
  }

  /** The number without its sign, as an unsigned word. */
  function Magnitude(num: Word, f: Flags): Word {
    if IsMinus(num, f) then WORD - num else num
  }

  function SignText(num: Word, f: Flags): string {
    if IsMinus(num, f) then "-" else if f.sign && f.plus then "+" else if f.sign && f.space then " " else ""
  }

  /** What a counter is after `while (n-- > 0)`. */
  function After(n: int): (r: int)
    ensures -WORD / 2 <= r < WORD / 2
  {
    Int32((if n > 0 then 0 else n) - 1)
  }

  function Most(a: int, b: int): int {
    if a > b then a else b
  }

  /** The counter of blanks in front of the sign. */
  function BlanksBefore(size: int, signed: bool): int {
    if signed && size > 0 then size - 1 else size
  }

  /** What stands in front of the digits, and what the counter of print_number is then. */
  function Front(sign: string, size: int, zero: bool, left: bool): (string, int) {
    var blanks := if zero || left then "" else Repeat(' ', BlanksBefore(size, sign != ""));
    var size1 := if zero || left then size else After(BlanksBefore(size, sign != ""));
    var size2 := if sign != "" then Int32(size1 - 1) else size1;
    if left then (blanks + sign, size2)
    else (blanks + sign + Repeat(if zero then '0' else ' ', size2), After(size2))
  }

  /** A sign and digits, filled up to a width: `size` is the counter of print_number. */
  function Justified(sign: string, body: string, size: int, zero: bool, left: bool): string {
    var (front, rest) := Front(sign, size, zero, left);
    front + body + Repeat(' ', rest)
  }

  /** print_number */
  function NumberText(num: Word, base: nat, width: int, precision: int, f: Flags): string {
    var digits := Digits(Magnitude(num, f), base, f.large);
    var shown := if precision != 0 then Reversed(digits) else "";
    Justified(SignText(num, f), Repeat('0', precision - |digits|) + shown,
              Int32(width - Most(|digits|, precision)), f.zero && !f.left, f.left)
  }

  // ---- Directives -------------------------------------------------------------------------

  function ParseFlags(fmt: string, i: nat, f: Flags): (r: (Flags, nat))
    requires i <= |fmt|
    ensures i <= r.1 <= |fmt|
    decreases |fmt| - i
  {
    match At(fmt, i)
    case '-' => ParseFlags(fmt, i + 1, f.(left := true))
    case '+' => ParseFlags(fmt, i + 1, f.(plus := true))
    case ' ' => ParseFlags(fmt, i + 1, f.(space := true))
    case '#' => ParseFlags(fmt, i + 1, f.(special := true))
    case '0' => ParseFlags(fmt, i + 1, f.(zero := true))
    case _ => (f, i)
  }

  /** skip_atoi */
  function Atoi(fmt: string, i: nat, acc: int): (r: (int, nat))
    requires i <= |fmt|
    ensures i <= r.1 <= |fmt|
    decreases |fmt| - i
  {
    if IsDigit(At(fmt, i)) then Atoi(fmt, i + 1, Int32(acc * 10 + (At(fmt, i) as int - '0' as int))) else (acc, i)
  }

  /** What has been read of a directive, and where the reading is. */
  datatype Place = Place(i: nat, k: nat, flags: Flags, width: int, precision: int, qualifier: char)

  function ParseWidth(fmt: string, p: Place, args: seq<Arg>): (r: Place)
    requires p.i <= |fmt|
    ensures p.i <= r.i <= |fmt|
  {
    if IsDigit(At(fmt, p.i)) then p.(width := Atoi(fmt, p.i, 0).0, i := Atoi(fmt, p.i, 0).1)
    else if At(fmt, p.i) == '*' then
      var w := Int32(ArgAt(args, p.k).word);
      if w < 0 then p.(i := p.i + 1, k := p.k + 1, width := Int32(-w), flags := p.flags.(left := true))
      else p.(i := p.i + 1, k := p.k + 1, width := w)
    else p.(width := -1)
  }

  function NotNegative(x: int): int {
    if x < 0 then 0 else x
  }

  function ParsePrecision(fmt: string, p: Place, args: seq<Arg>): (r: Place)
    requires p.i <= |fmt|
    ensures p.i <= r.i <= |fmt|
  {
    if At(fmt, p.i) != '.' then p.(precision := -1)
    else if IsDigit(At(fmt, p.i + 1)) then
      p.(precision := NotNegative(Atoi(fmt, p.i + 1, 0).0), i := Atoi(fmt, p.i + 1, 0).1)
    else if At(fmt, p.i + 1) == '*' then
      p.(precision := NotNegative(Int32(ArgAt(args, p.k).word)), i := p.i + 2, k := p.k + 1)
    else p.(precision := 0, i := p.i + 1)
  }

  function ParseQualifier(fmt: string, p: Place): (r: Place)
    requires p.i <= |fmt|
    ensures p.i <= r.i <= |fmt|
  {
    if At(fmt, p.i) == 'h' || At(fmt, p.i) == 'l' then p.(qualifier := At(fmt, p.i), i := p.i + 1)
    else p.(qualifier := '\0')
  }

  /** Everything between the % sign at `i` and the conversion. */
  function ParseDirective(fmt: string, i: nat, k: nat, args: seq<Arg>): (r: Place)
    requires i < |fmt|
    ensures i < r.i <= |fmt|
  {
    var (f, j) := ParseFlags(fmt, i + 1, NONE);
    ParseQualifier(fmt, ParsePrecision(fmt, ParseWidth(fmt, Place(j, k, f, -1, -1, '\0'), args), args))
  }

  /** %c */
  function CharText(c: char, width: int, left: bool): string {
    var w := Int32(width - 1);
    if left then [c] + Repeat(' ', w)
    else Repeat(' ', w) + [c] + Repeat(' ', Int32((if w > 0 then 0 else w) - 1))
  }

  function CutLength(text: string, precision: int): (n: int)
    ensures n <= |text|
  {
    var len := Int32(|text|);
    if 0 < precision < len then precision else len
  }

  /** %s */
  function StringText(text: string, width: int, precision: int, left: bool): string {
    var len := CutLength(text, precision);
    var shown := if len < 0 then "" else text[..len];
    if left then shown + Repeat(' ', width - len)
    else Repeat(' ', width - len) + shown + Repeat(' ', (if width > len then Int32(len - 1) else Int32(width - 1)) - len)
  }

  /** The argument of a number, as its qualifier reads it. */
  function NumberOf(word: Word, qualifier: char, f: Flags): Word {
    if qualifier != 'h' then word
    else
      var half := word % 0x1_0000;
      if f.sign && half >= 0x8000 then half + (WORD - 0x1_0000) else half
  }

  /** What a conversion prints, and which argument is the next. */
  function Conversion(conversion: char, p: Place, args: seq<Arg>): (string, nat) {
    var f, arg := p.flags, ArgAt(args, p.k);
    match conversion
    case 'c' => (CharText((arg.word % 256) as char, p.width, f.left), p.k + 1)
    case 's' => (StringText(if arg.word == 0 then "(NULL)" else arg.text, p.width, p.precision, f.left), p.k + 1)
    case 'p' =>
      if p.width == -1 then (NumberText(arg.word, 16, 8, p.precision, f.(zero := true)), p.k + 1)
      else (NumberText(arg.word, 16, p.width, p.precision, f), p.k + 1)
    case '%' => ("%", p.k)
    case 'o' => Converted(p, f, 8, arg)
    case 'X' => Converted(p, f.(large := true), 16, arg)
    case 'x' => Converted(p, f, 16, arg)
    case 'd' => Converted(p, f.(sign := true), 10, arg)
    case 'i' => Converted(p, f.(sign := true), 10, arg)
    case 'u' => Converted(p, f, 10, arg)
    case '\0' => ("%", p.k)
    case c => (['%', c], p.k)
  }

  function Converted(p: Place, f: Flags, base: nat, arg: Arg): (string, nat) {
    (NumberText(NumberOf(arg.word, p.qualifier, f), base, p.width, p.precision, f), p.k + 1)
  }

  /** What one directive prints, where the format goes on and with which argument.  The reading
      never goes beyond the terminator. */
  function Directive(fmt: string, i: nat, k: nat, args: seq<Arg>): (r: (string, nat, nat))
    requires i < |fmt|
    ensures i < r.1 <= |fmt|
  {
    var p := ParseDirective(fmt, i, k, args);
    var (t, m) := Conversion(At(fmt, p.i), p, args);
    (t, if At(fmt, p.i) == '\0' then p.i else p.i + 1, m)
  }

  /** The text of a format from position `i` on, with the arguments from the k-th on. */
  function Text(fmt: string, i: nat, k: nat, args: seq<Arg>): string
    requires i <= |fmt|
    decreases |fmt| - i
  {
    if At(fmt, i) == '\0' then ""
    else if At(fmt, i) != '%' then [At(fmt, i)] + Text(fmt, i + 1, k, args)
    else
      var (t, j, m) := Directive(fmt, i, k, args);
      t + Text(fmt, j, m, args)
  }

  /** The whole text. */
  function Output(fmt: string, args: seq<Arg>): string {
    Text(fmt, 0, 0, args)
  }
}
