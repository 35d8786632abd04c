/** What a format means: every directive, spelled out from its parts, and the text it should give for
    its arguments, said without regard to how rt_vsnprintf goes about it.
 */
module PrintMeaning {
  import opened PrintLemmas
  import opened PrintText

  // ---- Spelling ---------------------------------------------------------------------------

  datatype Count = None | Number(n: nat) | Star

  /** A directive: flags in any order, a width, a dot and perhaps a precision, a qualifier, and the
      conversion. */
  datatype Spec = Spec(flags: string, width: Count, dot: bool, precision: Count, qualifier: string, conversion: char)

  datatype Piece = Plain(c: char) | Directed(spec: Spec)

  /** A numeral, most significant digit first. */
  function Numeral(n: nat, d: nat, large: bool): string
    requires d == 10 || d == 16
  {
    (if n < d then "" else Numeral(n / d, d, large)) + [DigitChar(n % d, large)]
  }

  function CountText(c: Count): string {
    match c
    case None => ""
    case Number(n) => Numeral(n, 10, false)
    case Star => "*"
  }

  function Spell(x: Spec): string {
    "%" + (x.flags + (CountText(x.width) + ((if x.dot then "." + CountText(x.precision) else "") + (x.qualifier + [x.conversion]))))
  }

  function SpellPiece(p: Piece): string {
    match p
    case Plain(c) => [c]
    case Directed(x) => Spell(x)
  }

  function SpellAll(ps: seq<Piece>): string {
    if ps == [] then "" else SpellPiece(ps[0]) + SpellAll(ps[1..])
  }

  const FLAGS := "-+ #0"

  predicate IsLetter(c: char) {
    c !in FLAGS && !IsDigit(c) && c !in ".*hl" && c != '\0'
  }

  /** A width begins with a digit other than 0, which would be a flag; numbers fit 32 bits. */
  predicate WellSpelled(x: Spec) {
    && (forall i :: 0 <= i < |x.flags| ==> x.flags[i] in FLAGS)
    && (x.width.Number? ==> 0 < x.width.n < WORD / 2) && (x.precision.Number? ==> x.precision.n < WORD / 2)
    && x.qualifier in {"", "h", "l"} && IsLetter(x.conversion)
  }

  predicate WellFormed(p: Piece) {
    match p
    case Plain(c) => c != '%' && c != '\0'
    case Directed(x) => WellSpelled(x)
  }

  // ---- Meaning ----------------------------------------------------------------------------

  /** The arguments that a directive takes: for its stars first, and then one for its conversion. */
  function Taken(x: Spec): nat {
    (if x.width.Star? then 1 else 0) + (if x.dot && x.precision.Star? then 1 else 0)
      + if x.conversion in "cspoXxdiu" then 1 else 0
  }

  /** A negative width as an argument is a flag '-' and a width. */
  function WidthAsked(x: Spec, k: nat, args: seq<Arg>): int {
    match x.width
    case None => -1
    case Number(n) => n
    case Star => var w := Int32(ArgAt(args, k).word); if w < 0 then 0 - w else w
  }

  predicate LeftAsked(x: Spec, k: nat, args: seq<Arg>) {
    '-' in x.flags || (x.width.Star? && Int32(ArgAt(args, k).word) < 0)
  }

  /** No precision is -1, a negative one counts as 0. */
  function PrecisionAsked(x: Spec, k: nat, args: seq<Arg>): int {
    if !x.dot then -1
    else
      match x.precision
      case None => 0
      case Number(n) => n
      case Star =>
        var v := Int32(ArgAt(args, if x.width.Star? then k + 1 else k).word);
        if v < 0 then 0 else v
  }

  function ValueArg(x: Spec, k: nat, args: seq<Arg>): Arg {
    ArgAt(args, k + (if x.width.Star? then 1 else 0) + (if x.dot && x.precision.Star? then 1 else 0))
  }

  /** A word as a signed or unsigned number of 32 bits, or of 16 for the qualifier h. */
  function Value(word: Word, short: bool, signed: bool): int {
    var bits := if short then 0x1_0000 else WORD;
    var v := word % bits;
    if signed && v >= bits / 2 then v - bits else v
  }

  /** Filled up to the width: with blanks on the right, with zeros behind the sign, or with blanks on
      the left. */
  function Filled(sign: string, body: string, width: int, left: bool, zero: bool): string {
    var room := width - |sign| - |body|;
    if left then sign + body + Repeat(' ', room)
    else if zero then sign + Repeat('0', room) + body
    else Repeat(' ', room) + sign + body
  }

  function Magnitude10(v: int): nat {
    if v < 0 then 0 - v else v
  }

  /** A number: its sign, if it is negative or a flag asks for one, and its digits, at least as many as
      the precision. */
  function NumberMeant(v: int, d: nat, large: bool, plus: bool, space: bool, width: int, precision: int, left: bool, zero: bool): string
    requires d == 10 || d == 16
  {
    var numeral := Numeral(Magnitude10(v), d, large);
    var sign := if v < 0 then "-" else if plus then "+" else if space then " " else "";
    Filled(sign, Repeat('0', precision - |numeral|) + numeral, width, left, zero)
  }

  /** With precision 0 the digits are left out, and yet the room for them is. */
  function NoNumberMeant(v: int, d: nat, large: bool, plus: bool, space: bool, width: int, left: bool, zero: bool): string
    requires d == 10 || d == 16
  {
    var sign := if v < 0 then "-" else if plus then "+" else if space then " " else "";
    Filled(sign, "", width - |Numeral(Magnitude10(v), d, large)|, left, zero)
  }

  function Meant(x: Spec, k: nat, args: seq<Arg>): string {
    var arg, width, precision := ValueArg(x, k, args), WidthAsked(x, k, args), PrecisionAsked(x, k, args);
    var left, zero := LeftAsked(x, k, args), '0' in x.flags;
    var signed, d := x.conversion in "di", if x.conversion in "diu" then 10 else 16;
    var plus, space := signed && '+' in x.flags, signed && ' ' in x.flags;
    match x.conversion
    case '%' => "%"
    case 'c' => Filled("", [(arg.word % 256) as char], width, left, false)
    case 's' =>
      var text := if arg.word == 0 then "(NULL)" else arg.text;
      Filled("", if 0 < precision < |text| then text[..precision] else text, width, left, false)
    case c =>
      if c !in "poXxdiu" then ['%', c]
      else
        var v := if c == 'p' then arg.word else Value(arg.word, x.qualifier == "h", signed);
        var w, z := if c == 'p' && x.width.None? then 8 else width, zero || (c == 'p' && x.width.None?);
        if precision == 0 then NoNumberMeant(v, d, c == 'X', plus, space, w, left, z)
        else NumberMeant(v, d, c == 'X', plus, space, w, precision, left, z)
  }

  /** The counters of 32 bits do not wrap: the width and the precision are less than about 2^31 apart,
      and strings are shorter. */
  predicate Sane(x: Spec, k: nat, args: seq<Arg>) {
    && -1 <= WidthAsked(x, k, args) < WORD / 2 && !Wraps(WidthAsked(x, k, args), PrecisionAsked(x, k, args))
    && (x.conversion == 's' ==> |ValueArg(x, k, args).text| < WORD / 2)
  }

  function MeantPiece(p: Piece, k: nat, args: seq<Arg>): string {
    match p
    case Plain(c) => [c]
    case Directed(x) => Meant(x, k, args)
  }

  function TakenBy(p: Piece): nat {
    match p
    case Plain(_) => 0
    case Directed(x) => Taken(x)
  }

  /** One piece after the other, each with the arguments that the ones before have left. */
  function MeantAll(ps: seq<Piece>, k: nat, args: seq<Arg>): string {
    if ps == [] then "" else MeantPiece(ps[0], k, args) + MeantAll(ps[1..], k + TakenBy(ps[0]), args)
  }

  predicate AllSane(ps: seq<Piece>, k: nat, args: seq<Arg>) {
    ps != [] ==>
      && WellFormed(ps[0]) && (ps[0].Directed? ==> Sane(ps[0].spec, k, args))
      && AllSane(ps[1..], k + TakenBy(ps[0]), args)
  }
}
