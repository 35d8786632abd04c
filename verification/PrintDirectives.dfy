/** rt_vsnprintf prints what a format means: reading a directive finds its parts, and each conversion
    prints what they ask for.
 */
module PrintDirectives {
  import opened PrintLemmas
  import opened PrintMeaning
  import opened PrintText

  // ---- Numerals ---------------------------------------------------------------------------

  lemma {:induction false} NumeralIs(n: nat, base: nat, large: bool)
    ensures Numeral(n, Divisor(base), large) == Reversed(Digits(n, base, large))
  {
    hide DigitChar, Reversed;
    var d := Divisor(base);
    var last := DigitChar(n % d, large);
    if n < d {
      ReversedCons(last, "");
      assert Digits(n, base, large) == [last];
    } else {
      NumeralIs(n / d, base, large);
      ReversedCons(last, Digits(n / d, base, large));
    }
  }

  predicate AllDecimal(s: string) {
    forall i :: 0 <= i < |s| ==> IsDigit(s[i])
  }

  lemma {:induction false} DecimalIs(n: nat)
    ensures var s := Numeral(n, 10, false);
      AllDecimal(s) && s != "" && (0 < n ==> s[0] != '0') && ReadDigits(s, 10, 0) == n
  {
    NumeralIs(n, 10, false);
    DigitsRead(n, 10, false);
    DecimalDigits(n);
  }

  lemma {:induction false} DecimalDigits(n: nat)
    ensures var s := Numeral(n, 10, false); AllDecimal(s) && s != "" && (0 < n ==> s[0] != '0')
  {
    if n >= 10 {
      DecimalDigits(n / 10);
    }
  }

  // ---- Where things stand in a format -----------------------------------------------------

  ghost predicate Sits(fmt: string, i: nat, s: string) {
    i + |s| <= |fmt| && fmt[i..i + |s|] == s
  }

  lemma SitsSplit(fmt: string, i: nat, a: string, b: string)
    requires Sits(fmt, i, a + b)
    ensures Sits(fmt, i, a) && Sits(fmt, i + |a|, b) && i + |a| + |b| == i + |a + b|
  {
    assert fmt[i..i + |a|] == (a + b)[..|a|] == a;
    assert fmt[i + |a|..i + |a| + |b|] == (a + b)[|a|..] == b;
  }

  lemma SitsFirst(fmt: string, i: nat, s: string)
    requires Sits(fmt, i, s) && s != ""
    ensures i < |fmt| && At(fmt, i) == s[0] && Sits(fmt, i + 1, s[1..])
  {
    assert fmt[i] == fmt[i..i + |s|][0];
    assert fmt[i + 1..i + |s|] == fmt[i..i + |s|][1..];
  }

  // ---- Reading the parts ------------------------------------------------------------------

  function WithFlags(f: Flags, s: string): Flags {
    f.(left := f.left || '-' in s, plus := f.plus || '+' in s, space := f.space || ' ' in s,
       special := f.special || '#' in s, zero := f.zero || '0' in s)
  }

  lemma {:induction false} FlagsRead(fmt: string, i: nat, s: string, f: Flags)
    requires Sits(fmt, i, s) && (forall j :: 0 <= j < |s| ==> s[j] in FLAGS) && At(fmt, i + |s|) !in FLAGS
    ensures ParseFlags(fmt, i, f) == (WithFlags(f, s), i + |s|)
    decreases |s|
  {
    if s != "" {
      SitsFirst(fmt, i, s);
      assert s == [s[0]] + s[1..];
      var g := WithFlags(f, [s[0]]);
      FlagsRead(fmt, i + 1, s[1..], g);
      assert WithFlags(g, s[1..]) == WithFlags(f, s);
      OneFlag(fmt, i, f);
    }
  }

  lemma OneFlag(fmt: string, i: nat, f: Flags)
    requires i < |fmt| && At(fmt, i) in FLAGS
    ensures ParseFlags(fmt, i, f) == ParseFlags(fmt, i + 1, WithFlags(f, [At(fmt, i)]))
  {
  }

  lemma {:induction false} ReadGrows(s: string, acc: nat)
    ensures acc <= ReadDigits(s, 10, acc)
  {
    if s != "" && IsDigitOf(s[0], 10) {
      ReadGrows(s[1..], acc * 10 + DigitOf(s[0]));
    }
  }

  lemma {:induction false} AtoiIs(fmt: string, i: nat, s: string, acc: nat)
    requires Sits(fmt, i, s) && AllDecimal(s) && !IsDigit(At(fmt, i + |s|)) && ReadDigits(s, 10, acc) < WORD / 2
    ensures Atoi(fmt, i, acc) == (ReadDigits(s, 10, acc), i + |s|)
    decreases |s|
  {
    if s != "" {
      SitsFirst(fmt, i, s);
      var next := acc * 10 + DigitOf(s[0]);
      ReadGrows(s[1..], next);
      AtoiIs(fmt, i + 1, s[1..], next);
    }
  }

  lemma NumberRead(fmt: string, i: nat, n: nat)
    requires Sits(fmt, i, Numeral(n, 10, false)) && !IsDigit(At(fmt, i + |Numeral(n, 10, false)|)) && n < WORD / 2
    ensures IsDigit(At(fmt, i)) && Atoi(fmt, i, 0) == (n, i + |Numeral(n, 10, false)|)
    ensures 0 < n ==> At(fmt, i) != '0'
  {
    DecimalIs(n);
    SitsFirst(fmt, i, Numeral(n, 10, false));
    AtoiIs(fmt, i, Numeral(n, 10, false), 0);
  }

  lemma WidthRead(fmt: string, i: nat, x: Spec, k: nat, f: Flags, args: seq<Arg>)
    requires Sits(fmt, i, CountText(x.width)) && At(fmt, i + |CountText(x.width)|) != '*'
    requires !IsDigit(At(fmt, i + |CountText(x.width)|)) && (x.width.Number? ==> 0 < x.width.n < WORD / 2)
    requires WidthAsked(x, k, args) < WORD / 2
    ensures ParseWidth(fmt, Place(i, k, f, -1, -1, '\0'), args) ==
      Place(i + |CountText(x.width)|, if x.width.Star? then k + 1 else k,
            f.(left := f.left || (x.width.Star? && Int32(ArgAt(args, k).word) < 0)), WidthAsked(x, k, args), -1, '\0')
  {
    hide Numeral, Atoi;
    match x.width
    case None =>
    case Number(n) => NumberRead(fmt, i, n);
    case Star => SitsFirst(fmt, i, "*");
  }

  function DotText(x: Spec): string {
    if x.dot then "." + CountText(x.precision) else ""
  }

  lemma PrecisionRead(fmt: string, p: Place, x: Spec, k: nat, args: seq<Arg>)
    requires Sits(fmt, p.i, DotText(x)) && At(fmt, p.i + |DotText(x)|) !in ".*" && !IsDigit(At(fmt, p.i + |DotText(x)|))
    requires x.precision.Number? ==> x.precision.n < WORD / 2
    requires p.k == if x.width.Star? then k + 1 else k
    ensures ParsePrecision(fmt, p, args) ==
      p.(i := p.i + |DotText(x)|, precision := PrecisionAsked(x, k, args),
         k := p.k + if x.dot && x.precision.Star? then 1 else 0)
  {
    hide Numeral, Atoi;
    if x.dot {
      SitsSplit(fmt, p.i, ".", CountText(x.precision));
      SitsFirst(fmt, p.i, ".");
      match x.precision
      case None =>
      case Number(n) => NumberRead(fmt, p.i + 1, n);
      case Star => SitsFirst(fmt, p.i + 1, "*");
    }
  }

  lemma QualifierRead(fmt: string, p: Place, x: Spec)
    requires Sits(fmt, p.i, x.qualifier + [x.conversion]) && x.qualifier in {"", "h", "l"} && IsLetter(x.conversion)
    ensures ParseQualifier(fmt, p) ==
      p.(i := p.i + |x.qualifier|, qualifier := if x.qualifier == "" then '\0' else x.qualifier[0])
    ensures At(fmt, p.i + |x.qualifier|) == x.conversion && p.i + |x.qualifier| < |fmt|
  {
    SitsSplit(fmt, p.i, x.qualifier, [x.conversion]);
    SitsFirst(fmt, p.i + |x.qualifier|, [x.conversion]);
    if x.qualifier != "" {
      SitsFirst(fmt, p.i, x.qualifier);
    }
  }

  lemma SpellIs(x: Spec)
    ensures Spell(x) == "%" + (x.flags + (CountText(x.width) + (DotText(x) + (x.qualifier + [x.conversion]))))
  {
    hide CountText;
  }

  /** The parts of a directive, each behind the one before. */
  lemma PartsSit(fmt: string, i: nat, x: Spec)
    requires Sits(fmt, i, Spell(x)) && WellSpelled(x)
    ensures var a := i + 1; var b := a + |x.flags|; var c := b + |CountText(x.width)|; var d := c + |DotText(x)|;
      && At(fmt, i) == '%' && i < |fmt| && Sits(fmt, a, x.flags) && Sits(fmt, b, CountText(x.width))
      && Sits(fmt, c, DotText(x)) && Sits(fmt, d, x.qualifier + [x.conversion])
      && d + |x.qualifier| + 1 == i + |Spell(x)|
  {
    hide Numeral, Sits, Spell, CountText, DotText;
    var tail := x.qualifier + [x.conversion];
    var fromDot := DotText(x) + tail;
    var fromWidth := CountText(x.width) + fromDot;
    SpellIs(x);
    SitsSplit(fmt, i, "%", x.flags + fromWidth);
    SitsSplit(fmt, i + 1, x.flags, fromWidth);
    SitsSplit(fmt, i + 1 + |x.flags|, CountText(x.width), fromDot);
    SitsSplit(fmt, i + 1 + |x.flags| + |CountText(x.width)|, DotText(x), tail);
    SitsFirst(fmt, i, "%");
  }

  /** What comes next begins with a character that is not taken for what was before. */
  lemma NextChars(fmt: string, i: nat, x: Spec)
    requires Sits(fmt, i, Spell(x)) && WellSpelled(x)
    ensures var a := i + 1; var b := a + |x.flags|; var c := b + |CountText(x.width)|; var d := c + |DotText(x)|;
      && At(fmt, b) !in FLAGS && At(fmt, c) != '*' && !IsDigit(At(fmt, c)) && At(fmt, d) !in ".*" && !IsDigit(At(fmt, d))
  {
    hide Numeral, Spell, Sits;
    PartsSit(fmt, i, x);
    var b := i + 1 + |x.flags|;
    var c := b + |CountText(x.width)|;
    var d := c + |DotText(x)|;
    SitsFirst(fmt, d, x.qualifier + [x.conversion]);
    assert x.qualifier == "" ==> (x.qualifier + [x.conversion])[0] == x.conversion;
    if x.dot {
      SitsFirst(fmt, c, DotText(x));
    }
    if x.width.Number? {
      DecimalIs(x.width.n);
      SitsFirst(fmt, b, CountText(x.width));
    } else if x.width.Star? {
      SitsFirst(fmt, b, "*");
    }
  }

  /** Reading a directive finds all its parts, and takes the arguments for its stars. */
  lemma DirectiveRead(fmt: string, i: nat, x: Spec, k: nat, args: seq<Arg>)
    requires Sits(fmt, i, Spell(x)) && WellSpelled(x) && WidthAsked(x, k, args) < WORD / 2
    ensures i < |fmt|
    ensures var p := ParseDirective(fmt, i, k, args);
      && p.i == i + |Spell(x)| - 1 && At(fmt, p.i) == x.conversion
      && p.k == k + (if x.width.Star? then 1 else 0) + (if x.dot && x.precision.Star? then 1 else 0)
      && p.flags == WithFlags(NONE, x.flags).(left := LeftAsked(x, k, args))
      && p.width == WidthAsked(x, k, args) && p.precision == PrecisionAsked(x, k, args)
      && p.qualifier == if x.qualifier == "" then '\0' else x.qualifier[0]
  {
    hide Numeral, Spell, Sits, ParseFlags, ParseWidth, ParsePrecision, ParseQualifier, WidthAsked, PrecisionAsked, CountText;
    PartsSit(fmt, i, x);
    NextChars(fmt, i, x);
    var b := i + 1 + |x.flags|;
    FlagsRead(fmt, i + 1, x.flags, NONE);
    WidthRead(fmt, b, x, k, WithFlags(NONE, x.flags), args);
    var p := ParseWidth(fmt, Place(b, k, WithFlags(NONE, x.flags), -1, -1, '\0'), args);
    PrecisionRead(fmt, p, x, k, args);
    QualifierRead(fmt, ParsePrecision(fmt, p, args), x);
  }

  // ---- Conversions ------------------------------------------------------------------------

  lemma ValueIs(word: Word, qualifier: char, signed: bool, f: Flags)
    requires f.sign == signed
    ensures var num, v := NumberOf(word, qualifier, f), Value(word, qualifier == 'h', signed);
      && v == (if signed then Int32(num) else num)
      && (IsMinus(num, f) <==> v < 0) && Magnitude(num, f) == Magnitude10(v)
  {
  }

  lemma SignMeant(num: Word, f: Flags, v: int)
    requires IsMinus(num, f) <==> v < 0
    ensures SignText(num, f) == if v < 0 then "-" else if f.sign && f.plus then "+" else if f.sign && f.space then " " else ""
  {
    hide IsMinus;
  }

  lemma FilledIs(sign: string, body: string, width: int, left: bool, zero: bool, room: int)
    requires room == width - |sign| - |body|
    ensures Filled(sign, body, width, left, zero) ==
      if left then sign + body + Repeat(' ', room)
      else if zero then sign + Repeat('0', room) + body
      else Repeat(' ', room) + sign + body
  {
  }

  lemma BodyLength(digits: string, precision: int)
    requires 0 < |digits| && 0 != precision
    ensures |Repeat('0', precision - |digits|) + Reversed(digits)| == Most(|digits|, precision)
  {
  }

  lemma NoBody(n: int)
    requires n <= 0
    ensures Repeat('0', n) + "" == ""
  {
  }

  /** print_number prints what is meant by the number it is given. */
  lemma NumberPrinted(num: Word, base: nat, width: int, precision: int, f: Flags, v: int)
    requires !Wraps(width, precision) && (IsMinus(num, f) <==> v < 0) && Magnitude(num, f) == Magnitude10(v)
    requires 0 <= precision || precision == -1
    ensures var plus, space := f.sign && f.plus, f.sign && f.space;
      NumberText(num, base, width, precision, f) ==
        if precision == 0 then NoNumberMeant(v, Divisor(base), f.large, plus, space, width, f.left, f.zero)
        else NumberMeant(v, Divisor(base), f.large, plus, space, width, precision, f.left, f.zero)
  {
    hide NumberText, Digits, Numeral, Reversed, Magnitude, IsMinus, Divisor, Magnitude10, SignText, Filled, Repeat;
    var digits, sign := Digits(Magnitude(num, f), base, f.large), SignText(num, f);
    var room := width - Most(|digits|, precision) - |sign|;
    NumberShape(num, base, width, precision, f);
    NumeralIs(Magnitude10(v), base, f.large);
    TmpFits(Magnitude(num, f), base, f.large);
    SignMeant(num, f, v);
    if precision == 0 {
      NoBody(precision - |digits|);
      FilledIs(sign, "", width - |digits|, f.left, f.zero, room);
    } else {
      BodyLength(digits, precision);
      FilledIs(sign, Repeat('0', precision - |digits|) + Reversed(digits), width, f.left, f.zero, room);
    }
  }

  /** What reading has to find for a directive. */
  ghost predicate ReadAs(p: Place, x: Spec, k: nat, args: seq<Arg>) {
    && p.k == k + (if x.width.Star? then 1 else 0) + (if x.dot && x.precision.Star? then 1 else 0)
    && p.flags == WithFlags(NONE, x.flags).(left := LeftAsked(x, k, args))
    && p.width == WidthAsked(x, k, args) && p.precision == PrecisionAsked(x, k, args)
    && p.qualifier == if x.qualifier == "" then '\0' else x.qualifier[0]
  }

  lemma PrecisionSign(x: Spec, k: nat, args: seq<Arg>)
    ensures PrecisionAsked(x, k, args) == -1 || 0 <= PrecisionAsked(x, k, args)
  {
  }

  /** What an integer conversion means, unfolded. */
  lemma IntegerMeant(x: Spec, k: nat, args: seq<Arg>)
    requires x.conversion in "oXxdiu"
    ensures var c, arg, width, precision := x.conversion, ValueArg(x, k, args), WidthAsked(x, k, args), PrecisionAsked(x, k, args);
      var signed, left, zero := c in "di", LeftAsked(x, k, args), '0' in x.flags;
      var plus, space, v := signed && '+' in x.flags, signed && ' ' in x.flags, Value(arg.word, x.qualifier == "h", signed);
      && Meant(x, k, args) == (if precision == 0 then NoNumberMeant(v, Divisor(BaseOf(c)), c == 'X', plus, space, width, left, zero)
                               else NumberMeant(v, Divisor(BaseOf(c)), c == 'X', plus, space, width, precision, left, zero))
      && Taken(x) == 1 + (if x.width.Star? then 1 else 0) + (if x.dot && x.precision.Star? then 1 else 0)
  {
    hide NumberMeant, NoNumberMeant, Value, WidthAsked, PrecisionAsked, LeftAsked, ValueArg;
  }

  /** The flags an integer conversion adds. */
  lemma IntegerConverted(p: Place, c: char, args: seq<Arg>)
    requires c in "oXxdiu" && !p.flags.sign && !p.flags.large
    ensures Conversion(c, p, args) == Converted(p, p.flags.(sign := c in "di", large := c == 'X'), BaseOf(c), ArgAt(args, p.k))
  {
    hide Converted;
  }

  lemma IntegerPrinted(x: Spec, k: nat, args: seq<Arg>, p: Place)
    requires WellSpelled(x) && Sane(x, k, args) && ReadAs(p, x, k, args) && x.conversion in "oXxdiu"
    ensures Conversion(x.conversion, p, args) == (Meant(x, k, args), k + Taken(x))
  {
    hide NumberText, NumberMeant, NoNumberMeant, Value, NumberOf, IsMinus, Magnitude, Magnitude10, Wraps;
    hide WidthAsked, PrecisionAsked, LeftAsked, Meant, Taken, Conversion, Divisor, BaseOf;
    var signed := x.conversion in "di";
    var f := p.flags.(sign := signed, large := x.conversion == 'X');
    var arg := ArgAt(args, p.k);
    PrecisionSign(x, k, args);
    IntegerConverted(p, x.conversion, args);
    IntegerMeant(x, k, args);
    ValueIs(arg.word, p.qualifier, signed, f);
    NumberPrinted(NumberOf(arg.word, p.qualifier, f), BaseOf(x.conversion), p.width, p.precision, f,
                  Value(arg.word, p.qualifier == 'h', signed));
    assert p.qualifier == 'h' <==> x.qualifier == "h";
  }

  function BaseOf(c: char): nat {
    if c == 'o' then 8 else if c in "xX" then 16 else 10
  }

  lemma PointerPrinted(x: Spec, k: nat, args: seq<Arg>, p: Place)
    requires WellSpelled(x) && Sane(x, k, args) && ReadAs(p, x, k, args) && x.conversion == 'p'
    ensures Conversion('p', p, args) == (Meant(x, k, args), k + Taken(x))
  {
    hide NumberText, NumberMeant, NoNumberMeant, LeftAsked;
    var arg := ArgAt(args, p.k);
    PrecisionSign(x, k, args);
    assert p.width == -1 <==> x.width.None?;
    var f := if x.width.None? then p.flags.(zero := true) else p.flags;
    NumberPrinted(arg.word, 16, if x.width.None? then 8 else p.width, p.precision, f, arg.word);
  }

  /** What the other conversions mean, and print. */
  lemma CharCase(x: Spec, k: nat, args: seq<Arg>, p: Place)
    requires Sane(x, k, args) && ReadAs(p, x, k, args) && x.conversion == 'c'
    ensures Conversion('c', p, args) == (Meant(x, k, args), k + Taken(x))
  {
    hide Repeat, LeftAsked, PrecisionAsked, WidthAsked, Wraps, CharText, Filled;
    CharPrinted((ArgAt(args, p.k).word % 256) as char, p.width, p.flags.left);
  }

  lemma StringCase(x: Spec, k: nat, args: seq<Arg>, p: Place)
    requires Sane(x, k, args) && ReadAs(p, x, k, args) && x.conversion == 's'
    ensures Conversion('s', p, args) == (Meant(x, k, args), k + Taken(x))
  {
    hide Repeat, LeftAsked, PrecisionAsked, WidthAsked, Wraps, StringText, Filled;
    var arg := ArgAt(args, p.k);
    StringPrinted(if arg.word == 0 then "(NULL)" else arg.text, p.width, p.precision, p.flags.left);
  }

  lemma StringPrinted(text: string, width: int, precision: int, left: bool)
    requires |text| < WORD / 2 && -1 <= width < WORD / 2
    ensures StringText(text, width, precision, left)
         == Filled("", if 0 < precision < |text| then text[..precision] else text, width, left, false)
  {
    hide StringText, Filled;
    var shown := if 0 < precision < |text| then text[..precision] else text;
    StringShape(text, width, precision, left);
    StringFilled(shown, width, left);
    assert text[..|text|] == text;
  }

  lemma OtherCase(x: Spec, k: nat, args: seq<Arg>, p: Place)
    requires WellSpelled(x) && ReadAs(p, x, k, args) && x.conversion !in "cspoXxdiu"
    ensures Conversion(x.conversion, p, args) == (Meant(x, k, args), k + Taken(x))
  {
    hide LeftAsked, PrecisionAsked, WidthAsked, NumberText, NumberMeant, NoNumberMeant;
  }

  lemma CharPrinted(c: char, width: int, left: bool)
    requires -1 <= width < WORD / 2
    ensures CharText(c, width, left) == Filled("", [c], width, left, false)
  {
    assert "" + [c] == [c];
    assert Repeat(' ', width - 1) + "" == Repeat(' ', width - 1);
    assert Repeat(' ', width - 1) + [c] + "" == Repeat(' ', width - 1) + [c];
  }

  lemma StringFilled(text: string, width: int, left: bool)
    ensures Filled("", text, width, left, false) ==
      if left then text + Repeat(' ', width - |text|) else Repeat(' ', width - |text|) + text
  {
    assert "" + text == text;
    assert Repeat(' ', width - |text|) + "" == Repeat(' ', width - |text|);
  }

  /** A directive prints what it means, takes its arguments, and ends behind its conversion. */
  lemma DirectivePrinted(fmt: string, i: nat, x: Spec, k: nat, args: seq<Arg>)
    requires Sits(fmt, i, Spell(x)) && WellSpelled(x) && Sane(x, k, args)
    ensures i < |fmt| && At(fmt, i) == '%'
    ensures Directive(fmt, i, k, args) == (Meant(x, k, args), i + |Spell(x)|, k + Taken(x))
  {
    hide Numeral, Spell, Sits, ParseDirective, Meant, Conversion, WidthAsked, PrecisionAsked, LeftAsked, Wraps, Taken;
    PartsSit(fmt, i, x);
    DirectiveRead(fmt, i, x, k, args);
    var p := ParseDirective(fmt, i, k, args);
    if x.conversion in "oXxdiu" {
      IntegerPrinted(x, k, args, p);
    } else if x.conversion == 'p' {
      PointerPrinted(x, k, args, p);
    } else if x.conversion == 'c' {
      CharCase(x, k, args, p);
    } else if x.conversion == 's' {
      StringCase(x, k, args, p);
    } else {
      OtherCase(x, k, args, p);
    }
  }

  // ---- Whole formats ----------------------------------------------------------------------

  lemma {:induction false} TextMeant(fmt: string, i: nat, k: nat, ps: seq<Piece>, args: seq<Arg>)
    requires Sits(fmt, i, SpellAll(ps)) && i + |SpellAll(ps)| == |fmt| && AllSane(ps, k, args)
    ensures Text(fmt, i, k, args) == MeantAll(ps, k, args)
    decreases |ps|
  {
    hide Spell, Sits, Directive, Meant, Sane, WellSpelled, Taken, SpellPiece, MeantPiece, TakenBy;
    if ps != [] {
      var p, rest := ps[0], SpellAll(ps[1..]);
      SitsSplit(fmt, i, SpellPiece(p), rest);
      TextMeant(fmt, i + |SpellPiece(p)|, k + TakenBy(p), ps[1..], args);
      PiecePrinted(fmt, i, k, p, args);
    }
  }

  lemma PiecePrinted(fmt: string, i: nat, k: nat, p: Piece, args: seq<Arg>)
    requires Sits(fmt, i, SpellPiece(p)) && WellFormed(p) && (p.Directed? ==> Sane(p.spec, k, args))
    ensures i + |SpellPiece(p)| <= |fmt|
    ensures Text(fmt, i, k, args) == MeantPiece(p, k, args) + Text(fmt, i + |SpellPiece(p)|, k + TakenBy(p), args)
  {
    hide Spell, Directive, Meant, Sane, WellSpelled, Taken;
    match p
    case Plain(c) => SitsFirst(fmt, i, [c]);
    case Directed(x) => DirectivePrinted(fmt, i, x, k, args);
  }

  /** Main result on rt_vsnprintf: for every format, spelled out from plain characters and directives, and
      all arguments, it prints what each piece means, one after the other. */
  lemma OutputMeant(ps: seq<Piece>, args: seq<Arg>)
    requires AllSane(ps, 0, args)
    ensures Output(SpellAll(ps), args) == MeantAll(ps, 0, args)
  {
    hide SpellAll, MeantAll, AllSane, Text;
    SitsWhole(SpellAll(ps));
    TextMeant(SpellAll(ps), 0, 0, ps, args);
  }

  lemma SitsWhole(fmt: string)
    ensures Sits(fmt, 0, fmt)
  {
  }

  // ---- What follows for the printed text --------------------------------------------------

  function TakenAll(ps: seq<Piece>): nat {
    if ps == [] then 0 else TakenBy(ps[0]) + TakenAll(ps[1..])
  }

  lemma {:induction false} SpellJoin(a: seq<Piece>, b: seq<Piece>)
    ensures SpellAll(a + b) == SpellAll(a) + SpellAll(b)
  {
    hide SpellPiece;
    if a == [] {
      assert a + b == b;
    } else {
      assert (a + b)[1..] == a[1..] + b;
      SpellJoin(a[1..], b);
    }
  }

  lemma {:induction false} MeantJoin(a: seq<Piece>, b: seq<Piece>, k: nat, args: seq<Arg>)
    requires AllSane(a, k, args) && AllSane(b, k + TakenAll(a), args)
    ensures AllSane(a + b, k, args)
    ensures MeantAll(a + b, k, args) == MeantAll(a, k, args) + MeantAll(b, k + TakenAll(a), args)
    decreases |a|
  {
    hide MeantPiece, Sane, WellFormed, TakenBy;
    if a == [] {
      assert a + b == b;
    } else {
      assert (a + b)[1..] == a[1..] + b;
      MeantJoin(a[1..], b, k + TakenBy(a[0]), args);
    }
  }

  /** A text, a directive and a rest print one after the other, the directive with the first argument
      that the text has left, and the rest with those behind. */
  lemma OutputJoined(a: seq<Piece>, x: Spec, b: seq<Piece>, args: seq<Arg>)
    requires AllSane(a, 0, args) && WellSpelled(x) && Sane(x, TakenAll(a), args)
    requires AllSane(b, TakenAll(a) + Taken(x), args)
    ensures Output(SpellAll(a) + (Spell(x) + SpellAll(b)), args)
         == MeantAll(a, 0, args) + (Meant(x, TakenAll(a), args) + MeantAll(b, TakenAll(a) + Taken(x), args))
    ensures Output(SpellAll(a), args) == MeantAll(a, 0, args)
  {
    hide Spell, Meant, Sane, WellSpelled, Taken, Output;
    var c := [Directed(x)] + b;
    assert c[1..] == b;
    assert SpellAll(c) == Spell(x) + SpellAll(b);
    SpellJoin(a, c);
    MeantJoin(a, c, 0, args);
    OutputMeant(a + c, args);
    OutputMeant(a, args);
  }

  lemma OneDirective(x: Spec, args: seq<Arg>)
    requires WellSpelled(x) && Sane(x, 0, args)
    ensures Output(Spell(x), args) == Meant(x, 0, args)
  {
    hide Spell, Meant, Sane, WellSpelled, Taken, Output;
    var ps := [Directed(x)];
    assert ps[1..] == [];
    assert SpellAll(ps) == Spell(x) + "" == Spell(x);
    assert MeantAll(ps, 0, args) == Meant(x, 0, args) + "" == Meant(x, 0, args);
    OutputMeant(ps, args);
  }

  /** Main result on the integer conversions: unless the precision is 0, what one prints reads back as the
      argument, signed for d and i and unsigned for u, x and X, of 16 bits with h; and it fills the width. */
  lemma IntegerReads(x: Spec, args: seq<Arg>)
    requires WellSpelled(x) && Sane(x, 0, args) && x.conversion in "diuxX" && PrecisionAsked(x, 0, args) != 0
    ensures var t := Output(Spell(x), args);
      && ReadNumber(t, if x.conversion in "xX" then 16 else 10)
         == Value(ValueArg(x, 0, args).word, x.qualifier == "h", x.conversion in "di")
      && WidthAsked(x, 0, args) <= |t|
  {
    hide Numeral, Spell, Output, WidthAsked, PrecisionAsked, LeftAsked, Wraps, Meant, Value, ReadNumber, NumberMeant;
    hide NumberText, NumberOf, ValueArg, Taken;
    var signed := x.conversion in "di";
    var arg, v := ValueArg(x, 0, args), Value(ValueArg(x, 0, args).word, x.qualifier == "h", signed);
    var f := WithFlags(NONE, x.flags).(left := LeftAsked(x, 0, args), sign := signed, large := x.conversion == 'X');
    var q := if x.qualifier == "" then '\0' else x.qualifier[0];
    var num, width, precision := NumberOf(arg.word, q, f), WidthAsked(x, 0, args), PrecisionAsked(x, 0, args);
    assert q == 'h' <==> x.qualifier == "h";
    PrecisionSign(x, 0, args);
    OneDirective(x, args);
    IntegerMeant(x, 0, args);
    ValueIs(arg.word, q, signed, f);
    NumberPrinted(num, BaseOf(x.conversion), width, precision, f, v);
    ReadBack(num, BaseOf(x.conversion), width, precision, f);
    NumberLength(num, BaseOf(x.conversion), width, precision, f);
  }
}
