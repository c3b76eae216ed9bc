/** The parts of the C front end's AST conversion (ASTConverter) that do not walk the
    Eclipse CDT tree: integer and character literal parsing after ISO/IEC 9899:1999
    sections 6.4.4.1 and 6.4.4.4, the operator and storage-class tables, the splitting
    of a declaration with several declarators, and the dropping of a `void` parameter. */
module AstConverter {
  import opened Wrappers

  /** A CFAGenerationRuntimeException with its message, a Java runtime index error
      (charAt or substring outside the string), or a failed Java assertion. */
  datatype ConversionError = Check(message: string) | StringIndexOutOfBounds | AssertionFailed

  // ---------------------------------------------------------------------------
  // Java number parsing (Integer.parseInt and new BigInteger with a radix)

  /** Character.digit for ASCII letters and digits. */
  function DigitValue(c: char): Option<nat>
  {
    if '0' <= c <= '9' then Some(c as nat - '0' as nat)
    else if 'a' <= c <= 'z' then Some(c as nat - 'a' as nat + 10)
    else if 'A' <= c <= 'Z' then Some(c as nat - 'A' as nat + 10)
    else None
  }

  predicate IsDigitIn(c: char, radix: nat)
  {
    DigitValue(c).Some? && DigitValue(c).value < radix
  }

  /** The value of the first `n` digits of `s`, most significant first. */
  function DigitsValue(s: string, radix: nat, n: nat): int
    requires n <= |s| && forall i | 0 <= i < n :: IsDigitIn(s[i], radix)
  {
    if n == 0 then 0
    else
      assert IsDigitIn(s[n - 1], radix);
      DigitsValue(s, radix, n - 1) * radix + DigitValue(s[n - 1]).value
  }

  /** new BigInteger(s, radix): an optional sign followed by at least one digit. */
  function ParseBig(s: string, radix: nat): Option<int>
  {
    if |s| == 0 then None
    else
      var start := if s[0] == '-' || s[0] == '+' then 1 else 0;
      if start == |s| || !(forall i | start <= i < |s| :: IsDigitIn(s[i], radix)) then None
      else
        var magnitude: int := DigitsValue(s[start..], radix, |s| - start);
        var v: int := if s[0] == '-' then -magnitude else magnitude;
        Some(v)
  }

  const IntMin: int := -0x8000_0000
  const IntMax: int := 0x7FFF_FFFF

  /** Integer.parseInt(s, radix): as BigInteger, but the value must fit a Java int. */
  function ParseInt(s: string, radix: nat): Option<int>
  {
    var v := ParseBig(s, radix);
    if v.Some? && IntMin <= v.value <= IntMax then v else None
  }

  /** The (char) cast of a Java int: its low 16 bits. */
  function ToChar(v: int): (r: int)
    ensures 0 <= r < 0x1_0000 && (r - v) % 0x1_0000 == 0
  {
    v % 0x1_0000
  }

  // ---------------------------------------------------------------------------
  // Character literals (parseCharacterLiteral)

  /** The simple escape sequences and the character codes they stand for. */
  function SimpleEscape(c: char): Option<int>
  {
    match c
    case 'b' => Some(0x08)
    case 't' => Some(0x09)
    case 'n' => Some(0x0A)
    case 'f' => Some(0x0C)
    case 'r' => Some(0x0D)
    case '"' => Some(0x22)
    case '\'' => Some(0x27)
    case '\\' => Some(0x5C)
    case _ => None
  }

  /** The escape letter of a character code that has a simple escape. */
  function EscapeLetter(code: int): Option<char>
  {
    if code == 0x08 then Some('b')
    else if code == 0x09 then Some('t')
    else if code == 0x0A then Some('n')
    else if code == 0x0C then Some('f')
    else if code == 0x0D then Some('r')
    else if code == 0x22 then Some('"')
    else if code == 0x27 then Some('\'')
    else if code == 0x5C then Some('\\')
    else None
  }

  /** The escape table is a bijection between the eight escape letters and the eight
      codes: each letter's code has that letter, and each code's letter has that code. */
  lemma SimpleEscapeInverse(c: char, code: int)
    ensures SimpleEscape(c) == Some(code) <==> EscapeLetter(code) == Some(c)
  {
  }

  /** What follows the backslash of an escape sequence. */
  function EscapeSequence(e: string): Result<int, ConversionError>
    requires |e| >= 1
  {
    if e[0] == 'x' then
      var digits := e[1..];
      if !(0 < |digits| <= 3) then Failure(Check("character literal with illegal hex number"))
      else match ParseInt(digits, 16)
        case None => Failure(Check("character literal with illegal hex number"))
        case Some(v) =>
          if ToChar(v) <= 0xFF then Success(ToChar(v)) else Failure(Check("hex escape sequence out of range"))
    else if '0' <= e[0] <= '9' then
      if |e| > 3 then Failure(Check("character literal with illegal octal number"))
      else match ParseInt(e, 8)
        case None => Failure(Check("character literal with illegal octal number"))
        case Some(v) =>
          if ToChar(v) <= 0xFF then Success(ToChar(v)) else Failure(Check("octal escape sequence out of range"))
    else if |e| != 1 then Failure(Check("character literal too long"))
    else match SimpleEscape(e[0])
      case None => Failure(Check("unknown character literal"))
      case Some(code) => Success(code)
  }

  /** parseCharacterLiteral: the literal must be quoted; a body of one character is
      that character, a longer body must be an escape sequence. The empty string and a
      lone quote fail Java's string indexing. */
  function CharacterLiteral(s: string): Result<int, ConversionError>
  {
    if |s| == 0 then Failure(StringIndexOutOfBounds)
    else if s[0] != '\'' || s[|s| - 1] != '\'' then Failure(Check("character literal without quotation marks"))
    else if |s| == 1 then Failure(StringIndexOutOfBounds)
    else
      var body := s[1..|s| - 1];
      if |body| == 0 then Failure(Check("empty character literal"))
      else if |body| == 1 then Success(body[0] as int)
      else if body[0] != '\\' then Failure(Check("character literal too long"))
      else EscapeSequence(body[1..])
  }

  /** A parsed character literal is either the single quoted character or the value
      of an escape sequence, which lies in 0..0xFF. */
  lemma CharacterLiteralBound(s: string)
    requires CharacterLiteral(s).Success?
    ensures var v := CharacterLiteral(s).value;
      (|s| == 3 && v == s[1] as int) || (|s| > 3 && 0 <= v <= 0xFF)
  {
  }

  /** The octal digit character of 0..7. */
  function OctalDigit(d: nat): char
    requires d < 8
  {
    ('0' as int + d) as char
  }

  /** The hex digit character of 0..15, upper case. */
  function HexDigit(d: nat): char
    requires d < 16
  {
    if d < 10 then ('0' as int + d) as char else ('A' as int + d - 10) as char
  }

  lemma DigitCharacters(d: nat)
    ensures d < 8 ==> DigitValue(OctalDigit(d)) == Some(d)
    ensures d < 16 ==> DigitValue(HexDigit(d)) == Some(d)
  {
  }

  /** Three octal digits and two hex digits parse back to their value. */
  lemma ThreeOctalDigits(c: nat)
    requires c <= 0xFF
    ensures ParseInt([OctalDigit(c / 64), OctalDigit(c / 8 % 8), OctalDigit(c % 8)], 8) == Some(c)
  {
    var high, middle, low := c / 64, c / 8 % 8, c % 8;
    assert c == high * 64 + middle * 8 + low;
    var s := [OctalDigit(high), OctalDigit(middle), OctalDigit(low)];
    DigitCharacters(high);
    DigitCharacters(middle);
    DigitCharacters(low);
    assert s[0] != '-' && s[0] != '+';
    assert IsDigitIn(s[0], 8) && IsDigitIn(s[1], 8) && IsDigitIn(s[2], 8);
    assert s[0..] == s;
    assert DigitsValue(s, 8, 1) == high;
    assert DigitsValue(s, 8, 2) == high * 8 + middle;
    assert DigitsValue(s, 8, 3) == high * 64 + middle * 8 + low;
    assert ParseBig(s, 8) == Some(c);
  }

  lemma TwoHexDigits(c: nat)
    requires c <= 0xFF
    ensures ParseInt([HexDigit(c / 16), HexDigit(c % 16)], 16) == Some(c)
  {
    var high, low := c / 16, c % 16;
    assert c == high * 16 + low;
    var s := [HexDigit(high), HexDigit(low)];
    DigitCharacters(high);
    DigitCharacters(low);
    assert s[0..] == s;
    assert DigitsValue(s, 16, 1) == high;
    assert DigitsValue(s, 16, 2) == high * 16 + low;
  }

  /** Every character code up to 0xFF written as a three-digit octal escape reads back
      as itself. */
  lemma OctalEscapeRoundTrip(c: nat)
    requires c <= 0xFF
    ensures CharacterLiteral(['\'', '\\', OctalDigit(c / 64), OctalDigit(c / 8 % 8), OctalDigit(c % 8), '\'']) == Success(c)
  {
    var octal := ['\'', '\\', OctalDigit(c / 64), OctalDigit(c / 8 % 8), OctalDigit(c % 8), '\''];
    assert octal[1..|octal| - 1][1..] == [OctalDigit(c / 64), OctalDigit(c / 8 % 8), OctalDigit(c % 8)];
    ThreeOctalDigits(c);
  }

  /** Every character code up to 0xFF written as a two-digit hex escape reads back as
      itself. */
  lemma HexEscapeRoundTrip(c: nat)
    requires c <= 0xFF
    ensures CharacterLiteral(['\'', '\\', 'x', HexDigit(c / 16), HexDigit(c % 16), '\'']) == Success(c)
  {
    var hex := ['\'', '\\', 'x', HexDigit(c / 16), HexDigit(c % 16), '\''];
    assert hex[1..|hex| - 1][1..][1..] == [HexDigit(c / 16), HexDigit(c % 16)];
    TwoHexDigits(c);
  }

  /** Every character code that has a simple escape, written with it, reads back as
      itself. */
  lemma SimpleEscapeRoundTrip(c: int)
    requires EscapeLetter(c).Some?
    ensures CharacterLiteral(['\'', '\\', EscapeLetter(c).value, '\'']) == Success(c)
  {
    var simple := ['\'', '\\', EscapeLetter(c).value, '\''];
    assert simple[1..|simple| - 1][1..] == [EscapeLetter(c).value];
    SimpleEscapeInverse(EscapeLetter(c).value, c);
  }

  // ---------------------------------------------------------------------------
  // Integer literals (parseIntegerLiteral)

  predicate IsLongSuffix(c: char) { c == 'L' || c == 'l' }
  predicate IsUnsignedSuffix(c: char) { c == 'U' || c == 'u' }

  /** The digits of a literal with its suffixes removed, and the width and signedness
      they select. */
  datatype Suffixes = Suffixes(digits: string, bits: nat, signed: bool)

  /** The suffix analysis: one L is dropped, a second L selects 64 bits, then a U selects
      an unsigned value, in this order only. Running off the front of the string fails
      Java's charAt. */
  function StripSuffixes(s: string): Result<Suffixes, ConversionError>
  {
    if |s| == 0 then Failure(StringIndexOutOfBounds)
    else
      var last1 := if IsLongSuffix(s[|s| - 1]) then |s| - 2 else |s| - 1;
      if last1 < 0 then Failure(StringIndexOutOfBounds)
      else
        var longLong := IsLongSuffix(s[last1]);
        var last2 := if longLong then last1 - 1 else last1;
        if last2 < 0 then Failure(StringIndexOutOfBounds)
        else
          var unsigned := IsUnsignedSuffix(s[last2]);
          var last3 := if unsigned then last2 - 1 else last2;
          Success(Suffixes(s[..last3 + 1], if longLong then 64 else 32, !unsigned))
  }

  /** The digits read in radix 16 after `0x` or `0X`, in radix 8 after a leading `0`,
      and in radix 10 otherwise. */
  function Magnitude(digits: string): Option<int>
  {
    if |digits| >= 2 && digits[0] == '0' && (digits[1] == 'x' || digits[1] == 'X') then ParseBig(digits[2..], 16)
    else if |digits| >= 1 && digits[0] == '0' then ParseBig(digits, 8)
    else ParseBig(digits, 10)
  }

  function Modulus(bits: nat): int
  {
    if bits == 64 then 0x1_0000_0000_0000_0000 else 0x1_0000_0000
  }

  function HalfModulus(bits: nat): int
  {
    if bits == 64 then 0x8000_0000_0000_0000 else 0x8000_0000
  }

  /** Subtracting the modulus keeps the residue. */
  lemma ResidueAfterWrap(x: int, bits: nat)
    ensures (x - Modulus(bits)) % Modulus(bits) == x % Modulus(bits)
  {
    if bits == 64 {
      assert (x - 0x1_0000_0000_0000_0000) % 0x1_0000_0000_0000_0000 == x % 0x1_0000_0000_0000_0000;
    } else {
      assert (x - 0x1_0000_0000) % 0x1_0000_0000 == x % 0x1_0000_0000;
    }
  }

  /** The value masked to `bits` bits and, for a signed type, read in two's complement. */
  function ToWidth(v: nat, bits: nat, signed: bool): (r: int)
    ensures signed ==> -HalfModulus(bits) <= r < HalfModulus(bits)
    ensures !signed ==> 0 <= r < Modulus(bits)
    ensures r % Modulus(bits) == v % Modulus(bits)
    ensures (if signed then v < HalfModulus(bits) else v < Modulus(bits)) ==> r == v
  {
    var masked := v % Modulus(bits);
    assert masked % Modulus(bits) == masked;
    if signed && masked >= HalfModulus(bits) then
      ResidueAfterWrap(masked, bits);
      masked - Modulus(bits)
    else masked
  }

  /** parseIntegerLiteral: suffixes, radix, the non-negativity check, then the width. */
  function IntegerLiteral(s: string): Result<int, ConversionError>
  {
    match StripSuffixes(s)
    case Failure(e) => Failure(e)
    case Success(sf) =>
      match Magnitude(sf.digits)
      case None => Failure(Check("invalid number"))
      case Some(v) =>
        if v < 0 then Failure(Check("invalid number")) else Success(ToWidth(v, sf.bits, sf.signed))
  }

  /** A parsed integer literal lies in the range of its type, and is congruent to the
      written magnitude modulo 2^bits. */
  lemma IntegerLiteralRange(s: string)
    requires IntegerLiteral(s).Success?
    ensures var sf := StripSuffixes(s).value;
      var r := IntegerLiteral(s).value;
      && sf.bits in {32, 64}
      && (sf.signed ==> -HalfModulus(sf.bits) <= r < HalfModulus(sf.bits))
      && (!sf.signed ==> 0 <= r < Modulus(sf.bits))
      && Magnitude(sf.digits).Some?
      && r % Modulus(sf.bits) == Magnitude(sf.digits).value % Modulus(sf.bits)
  {
  }

  /** A string ending in a character that is no digit of the radix is no number. */
  lemma NoNumberAfterNonDigit(x: string, radix: nat)
    requires |x| >= 1 && !IsDigitIn(x[|x| - 1], radix)
    ensures ParseBig(x, radix) == None
  {
  }

  /** The suffix `LU` is not stripped in that order, so its `L` stays among the digits
      and parsing fails. */
  lemma LongThenUnsignedRejected(d: string)
    ensures IntegerLiteral(d + "LU") == Failure(Check("invalid number"))
  {
    var s := d + "LU";
    assert StripSuffixes(s) == Success(Suffixes(d + "L", 32, false)) by {
      assert s[|s| - 1] == 'U';
      assert s[..|s| - 1] == d + "L";
    }
    var digits := d + "L";
    if |digits| >= 2 && digits[0] == '0' && (digits[1] == 'x' || digits[1] == 'X') {
      assert digits[2..][|digits[2..]| - 1] == 'L';
      NoNumberAfterNonDigit(digits[2..], 16);
    } else if |digits| >= 1 && digits[0] == '0' {
      NoNumberAfterNonDigit(digits, 8);
    } else {
      NoNumberAfterNonDigit(digits, 10);
    }
  }

  /** The decimal digits of `v`, most significant first, without leading zeros. */
  function DecimalString(v: nat): string
  {
    if v < 10 then [HexDigit(v)] else DecimalString(v / 10) + [HexDigit(v % 10)]
  }

  /** The value of a digit prefix does not depend on what follows it. */
  lemma {:induction false} DigitsValuePrefix(a: string, b: string, radix: nat, n: nat)
    requires n <= |a| && forall i | 0 <= i < n :: IsDigitIn(a[i], radix)
    ensures forall i | 0 <= i < n :: IsDigitIn((a + b)[i], radix)
    ensures DigitsValue(a + b, radix, n) == DigitsValue(a, radix, n)
  {
    assert forall i | 0 <= i < n :: (a + b)[i] == a[i];
    if n != 0 {
      DigitsValuePrefix(a, b, radix, n - 1);
    }
  }

  /** The decimal string of `v` is made of decimal digits, starts with `0` only for
      zero, and reads back as `v`. */
  lemma {:induction false} DecimalStringValue(v: nat)
    ensures var d := DecimalString(v);
      && |d| >= 1
      && (forall i | 0 <= i < |d| :: IsDigitIn(d[i], 10))
      && (d[0] == '0' <==> v == 0)
      && DigitsValue(d, 10, |d|) == v
  {
    DigitCharacters(v % 10);
    if v >= 10 {
      var p := DecimalString(v / 10);
      var d := DecimalString(v);
      DecimalStringValue(v / 10);
      assert d == p + [HexDigit(v % 10)];
      DigitsValuePrefix(p, [HexDigit(v % 10)], 10, |p|);
      assert DigitsValue(d, 10, |d|) == DigitsValue(d, 10, |p|) * 10 + v % 10;
    } else {
      assert DigitsValue(DecimalString(v), 10, 0) == 0;
    }
  }

  /** The magnitude of a decimal string is its value. */
  lemma DecimalMagnitude(v: nat)
    ensures Magnitude(DecimalString(v)) == Some(v)
  {
    var d := DecimalString(v);
    DecimalStringValue(v);
    assert d[0..] == d;
    if v == 0 {
      assert d == ['0'];
      assert IsDigitIn(d[0], 8);
      assert DigitsValue(d, 8, 0) == 0;
    }
  }

  /** The suffixes accepted in the order the analysis strips them, with the width and
      signedness each selects. */
  function SuffixBits(suffix: string): nat
  {
    if suffix in {"LL", "ULL"} then 64 else 32
  }

  predicate SuffixSigned(suffix: string)
  {
    suffix in {"", "L", "LL"}
  }

  /** The suffix analysis of digits followed by an accepted suffix gives the digits
      back, with the width and signedness of the suffix. */
  lemma StripSuffixesAfterDigit(d: string, suffix: string)
    requires |d| >= 1 && IsDigitIn(d[|d| - 1], 10)
    requires suffix in {"", "U", "L", "UL", "LL", "ULL"}
    ensures StripSuffixes(d + suffix) == Success(Suffixes(d, SuffixBits(suffix), SuffixSigned(suffix)))
  {
    var s := d + suffix;
    var n := |d|;
    assert s[n - 1] == d[n - 1];
    assert s[..n] == d;
    if suffix == "U" {
      assert s[n] == 'U';
    } else if suffix == "L" {
      assert s[n] == 'L';
    } else if suffix == "UL" {
      assert s[n] == 'U' && s[n + 1] == 'L';
    } else if suffix == "LL" {
      assert s[n] == 'L' && s[n + 1] == 'L';
    } else if suffix == "ULL" {
      assert s[n] == 'U' && s[n + 1] == 'L' && s[n + 2] == 'L';
    }
  }

  /** Every value in the range of the type its suffix selects, written in decimal with
      that suffix, parses back as itself. */
  lemma DecimalLiteralRoundTrip(v: nat, suffix: string)
    requires suffix in {"", "U", "L", "UL", "LL", "ULL"}
    requires v < (if SuffixSigned(suffix) then HalfModulus(SuffixBits(suffix)) else Modulus(SuffixBits(suffix)))
    ensures IntegerLiteral(DecimalString(v) + suffix) == Success(v)
  {
    DecimalStringValue(v);
    StripSuffixesAfterDigit(DecimalString(v), suffix);
    DecimalMagnitude(v);
  }

  // ---------------------------------------------------------------------------
  // Operators

  /** The binary operators of the CDT syntax tree; any other operator code is kept as
      is. */
  datatype CdtBinaryOperator =
    | OpMultiply
    | OpDivide
    | OpModulo
    | OpPlus
    | OpMinus
    | OpShiftLeft
    | OpShiftRight
    | OpLessThan
    | OpGreaterThan
    | OpLessEqual
    | OpGreaterEqual
    | OpBinaryAnd
    | OpBinaryXor
    | OpBinaryOr
    | OpLogicalAnd
    | OpLogicalOr
    | OpAssign
    | OpMultiplyAssign
    | OpDivideAssign
    | OpModuloAssign
    | OpPlusAssign
    | OpMinusAssign
    | OpShiftLeftAssign
    | OpShiftRightAssign
    | OpBinaryAndAssign
    | OpBinaryXorAssign
    | OpBinaryOrAssign
    | OpEquals
    | OpNotequals
    | OpOtherBinary(code: int)

  /** The binary operators of the converted syntax tree. */
  datatype BinaryOperator =
    | Multiply
    | Divide
    | Modulo
    | Plus
    | Minus
    | ShiftLeft
    | ShiftRight
    | LessThan
    | GreaterThan
    | LessEqual
    | GreaterEqual
    | BinaryAnd
    | BinaryXor
    | BinaryOr
    | LogicalAnd
    | LogicalOr
    | Assign
    | MultiplyAssign
    | DivideAssign
    | ModuloAssign
    | PlusAssign
    | MinusAssign
    | ShiftLeftAssign
    | ShiftRightAssign
    | BinaryAndAssign
    | BinaryXorAssign
    | BinaryOrAssign
    | Equals
    | NotEquals

  /** convertBinaryOperator: each CDT operator to its namesake; any other operator is
      rejected. */
  function ConvertBinaryOperator(op: CdtBinaryOperator): Result<BinaryOperator, ConversionError>
  {
    match op
    case OpMultiply => Success(Multiply)
    case OpDivide => Success(Divide)
    case OpModulo => Success(Modulo)
    case OpPlus => Success(Plus)
    case OpMinus => Success(Minus)
    case OpShiftLeft => Success(ShiftLeft)
    case OpShiftRight => Success(ShiftRight)
    case OpLessThan => Success(LessThan)
    case OpGreaterThan => Success(GreaterThan)
    case OpLessEqual => Success(LessEqual)
    case OpGreaterEqual => Success(GreaterEqual)
    case OpBinaryAnd => Success(BinaryAnd)
    case OpBinaryXor => Success(BinaryXor)
    case OpBinaryOr => Success(BinaryOr)
    case OpLogicalAnd => Success(LogicalAnd)
    case OpLogicalOr => Success(LogicalOr)
    case OpAssign => Success(Assign)
    case OpMultiplyAssign => Success(MultiplyAssign)
    case OpDivideAssign => Success(DivideAssign)
    case OpModuloAssign => Success(ModuloAssign)
    case OpPlusAssign => Success(PlusAssign)
    case OpMinusAssign => Success(MinusAssign)
    case OpShiftLeftAssign => Success(ShiftLeftAssign)
    case OpShiftRightAssign => Success(ShiftRightAssign)
    case OpBinaryAndAssign => Success(BinaryAndAssign)
    case OpBinaryXorAssign => Success(BinaryXorAssign)
    case OpBinaryOrAssign => Success(BinaryOrAssign)
    case OpEquals => Success(Equals)
    case OpNotequals => Success(NotEquals)
    case OpOtherBinary(_) => Failure(Check("Unknown binary operator"))
  }

  /** The CDT operator each binary operator of the converted tree is written as. */
  function BinaryOperatorSource(b: BinaryOperator): CdtBinaryOperator
  {
    match b
    case Multiply => OpMultiply
    case Divide => OpDivide
    case Modulo => OpModulo
    case Plus => CdtBinaryOperator.OpPlus
    case Minus => CdtBinaryOperator.OpMinus
    case ShiftLeft => OpShiftLeft
    case ShiftRight => OpShiftRight
    case LessThan => OpLessThan
    case GreaterThan => OpGreaterThan
    case LessEqual => OpLessEqual
    case GreaterEqual => OpGreaterEqual
    case BinaryAnd => OpBinaryAnd
    case BinaryXor => OpBinaryXor
    case BinaryOr => OpBinaryOr
    case LogicalAnd => OpLogicalAnd
    case LogicalOr => OpLogicalOr
    case Assign => OpAssign
    case MultiplyAssign => OpMultiplyAssign
    case DivideAssign => OpDivideAssign
    case ModuloAssign => OpModuloAssign
    case PlusAssign => OpPlusAssign
    case MinusAssign => OpMinusAssign
    case ShiftLeftAssign => OpShiftLeftAssign
    case ShiftRightAssign => OpShiftRightAssign
    case BinaryAndAssign => OpBinaryAndAssign
    case BinaryXorAssign => OpBinaryXorAssign
    case BinaryOrAssign => OpBinaryOrAssign
    case Equals => OpEquals
    case NotEquals => OpNotequals
  }

  /** Each binary operator of the converted tree is the conversion of its source. */
  lemma BinarySourceConverts(b: BinaryOperator)
    ensures ConvertBinaryOperator(BinaryOperatorSource(b)) == Success(b)
  {
  }

  /** The arithmetic, bitwise, shift, comparison and logical operators. */
  predicate IsValueOperator(op: CdtBinaryOperator)
  {
    || op.OpMultiply?
      || op.OpDivide?
      || op.OpModulo?
      || op.OpPlus?
      || op.OpMinus?
      || op.OpShiftLeft?
      || op.OpShiftRight?
      || op.OpLessThan?
      || op.OpGreaterThan?
      || op.OpLessEqual?
      || op.OpGreaterEqual?
      || op.OpBinaryAnd?
      || op.OpBinaryXor?
      || op.OpBinaryOr?
      || op.OpLogicalAnd?
      || op.OpLogicalOr?
  }

  lemma ValueOperatorHasSource(op: CdtBinaryOperator)
    requires IsValueOperator(op)
    ensures ConvertBinaryOperator(op).Success? && BinaryOperatorSource(ConvertBinaryOperator(op).value) == op
  {
  }

  /** Plain assignment and the arithmetic compound assignments. */
  predicate IsSimpleAssignOperator(op: CdtBinaryOperator)
  {
    || op.OpAssign?
      || op.OpMultiplyAssign?
      || op.OpDivideAssign?
      || op.OpModuloAssign?
      || op.OpPlusAssign?
      || op.OpMinusAssign?
  }

  lemma SimpleAssignOperatorHasSource(op: CdtBinaryOperator)
    requires IsSimpleAssignOperator(op)
    ensures ConvertBinaryOperator(op).Success? && BinaryOperatorSource(ConvertBinaryOperator(op).value) == op
  {
  }

  /** The shift and bitwise compound assignments and the equality operators. */
  predicate IsBitAssignOrEqualityOperator(op: CdtBinaryOperator)
  {
    || op.OpShiftLeftAssign?
      || op.OpShiftRightAssign?
      || op.OpBinaryAndAssign?
      || op.OpBinaryXorAssign?
      || op.OpBinaryOrAssign?
      || op.OpEquals?
      || op.OpNotequals?
  }

  lemma BitAssignOrEqualityOperatorHasSource(op: CdtBinaryOperator)
    requires IsBitAssignOrEqualityOperator(op)
    ensures ConvertBinaryOperator(op).Success? && BinaryOperatorSource(ConvertBinaryOperator(op).value) == op
  {
  }

  /** Each converted binary operator has the CDT operator it came from as its source. */
  lemma BinaryConvertedHasSource(op: CdtBinaryOperator)
    ensures ConvertBinaryOperator(op).Success? ==> BinaryOperatorSource(ConvertBinaryOperator(op).value) == op
  {
    if IsValueOperator(op) {
      ValueOperatorHasSource(op);
    } else if IsSimpleAssignOperator(op) {
      SimpleAssignOperatorHasSource(op);
    } else if IsBitAssignOrEqualityOperator(op) {
      BitAssignOrEqualityOperatorHasSource(op);
    }
  }

  /** The binary table is a bijection between the known CDT operators and the binary
      operators of the converted tree: an operator converts to `b` exactly when it is
      the one `b` is written as, and only unknown operators are rejected. */
  lemma BinaryOperatorTable(op: CdtBinaryOperator, b: BinaryOperator)
    ensures ConvertBinaryOperator(op) == Success(b) <==> op == BinaryOperatorSource(b)
    ensures ConvertBinaryOperator(op).Failure? <==> op.OpOtherBinary?
  {
    BinarySourceConverts(b);
    BinaryConvertedHasSource(op);
  }

  /** The unary operators of the CDT syntax tree, with the parentheses marker that the
      expression conversion unwraps before the table is consulted. */
  datatype CdtUnaryOperator =
    | OpAmper
    | OpMinus
    | OpNot
    | OpPlus
    | OpPrefixIncr
    | OpPrefixDecr
    | OpPostFixIncr
    | OpPostFixDecr
    | OpSizeof
    | OpStar
    | OpTilde
    | OpBracketedPrimary
    | OpOtherUnary(code: int)

  /** The unary operators of the converted syntax tree. */
  datatype UnaryOperator =
    | UnaryAmper
    | UnaryMinus
    | UnaryNot
    | UnaryPlus
    | UnaryPrefixIncrement
    | UnaryPrefixDecrement
    | UnaryPostfixIncrement
    | UnaryPostfixDecrement
    | UnarySizeof
    | UnaryStar
    | UnaryTilde

  /** convertUnaryOperator: each CDT operator to its namesake; parentheses and any other
      operator are rejected. */
  function ConvertUnaryOperator(op: CdtUnaryOperator): Result<UnaryOperator, ConversionError>
  {
    match op
    case OpAmper => Success(UnaryAmper)
    case OpMinus => Success(UnaryMinus)
    case OpNot => Success(UnaryNot)
    case OpPlus => Success(UnaryPlus)
    case OpPrefixIncr => Success(UnaryPrefixIncrement)
    case OpPrefixDecr => Success(UnaryPrefixDecrement)
    case OpPostFixIncr => Success(UnaryPostfixIncrement)
    case OpPostFixDecr => Success(UnaryPostfixDecrement)
    case OpSizeof => Success(UnarySizeof)
    case OpStar => Success(UnaryStar)
    case OpTilde => Success(UnaryTilde)
    case _ => Failure(Check("Unknown unary operator"))
  }

  /** The CDT operator each unary operator of the converted tree is written as. */
  function UnaryOperatorSource(u: UnaryOperator): CdtUnaryOperator
  {
    match u
    case UnaryAmper => OpAmper
    case UnaryMinus => CdtUnaryOperator.OpMinus
    case UnaryNot => OpNot
    case UnaryPlus => CdtUnaryOperator.OpPlus
    case UnaryPrefixIncrement => OpPrefixIncr
    case UnaryPrefixDecrement => OpPrefixDecr
    case UnaryPostfixIncrement => OpPostFixIncr
    case UnaryPostfixDecrement => OpPostFixDecr
    case UnarySizeof => OpSizeof
    case UnaryStar => OpStar
    case UnaryTilde => OpTilde
  }

  /** The unary table is a bijection between the known CDT operators and the unary
      operators of the converted tree. */
  lemma UnaryOperatorTable(op: CdtUnaryOperator, u: UnaryOperator)
    ensures ConvertUnaryOperator(op) == Success(u) <==> op == UnaryOperatorSource(u)
    ensures ConvertUnaryOperator(op).Failure? <==> op.OpBracketedPrimary? || op.OpOtherUnary?
  {
  }

  /** What the conversion of a unary expression does with its operator: parentheses
      yield the converted operand itself (None), any other operator goes through the
      table. */
  function UnaryExpressionOperator(op: CdtUnaryOperator): Result<Option<UnaryOperator>, ConversionError>
  {
    if op == OpBracketedPrimary then Success(None)
    else
      match ConvertUnaryOperator(op)
      case Failure(e) => Failure(e)
      case Success(u) => Success(Some(u))
  }

  /** Parentheses disappear from the converted tree, and every converted unary
      expression carries a table operator. */
  lemma UnaryExpressionOperatorCases(op: CdtUnaryOperator)
    ensures UnaryExpressionOperator(op) == Success(None) <==> op == OpBracketedPrimary
    ensures UnaryExpressionOperator(op).Failure? <==> op.OpOtherUnary?
    ensures forall u :: UnaryExpressionOperator(op) == Success(Some(u)) <==> op == UnaryOperatorSource(u)
  {
    forall u ensures UnaryExpressionOperator(op) == Success(Some(u)) <==> op == UnaryOperatorSource(u) {
      UnaryOperatorTable(op, u);
    }
  }

  // ---------------------------------------------------------------------------
  // Storage classes, declarations and parameters

  /** The storage classes a CDT declaration specifier can carry (`mutable` is C++ only). */
  datatype CdtStorageClass = ScUnspecified | ScTypedef | ScExtern | ScStatic | ScAuto | ScRegister | ScMutable

  datatype StorageClass = Auto | Static | Extern | Typedef

  /** convertStorageClass: no storage class, `auto` and `register` all become AUTO;
      `static`, `extern` and `typedef` are kept; anything else is unsupported. */
  function ConvertStorageClass(c: CdtStorageClass): Result<StorageClass, ConversionError>
  {
    match c
    case ScUnspecified | ScAuto | ScRegister => Success(Auto)
    case ScStatic => Success(Static)
    case ScExtern => Success(Extern)
    case ScTypedef => Success(Typedef)
    case ScMutable => Failure(Check("Unsupported storage class"))
  }

  /** The keyword each storage class of the converted tree is written with. */
  function StorageClassKeyword(sc: StorageClass): CdtStorageClass
  {
    match sc
    case Auto => ScAuto
    case Static => ScStatic
    case Extern => ScExtern
    case Typedef => ScTypedef
  }

  /** Every storage class is reached from its keyword; AUTO is also reached from no
      storage class and from `register`, and each other class from its keyword only. */
  lemma StorageClassTable(c: CdtStorageClass, sc: StorageClass)
    ensures ConvertStorageClass(StorageClassKeyword(sc)) == Success(sc)
    ensures ConvertStorageClass(c) == Success(sc) <==>
      c == StorageClassKeyword(sc) || (sc == Auto && (c == ScUnspecified || c == ScRegister))
    ensures ConvertStorageClass(c).Failure? <==> c == ScMutable
  {
  }

  /** A declaration specifier; its type part is not part of this model. */
  datatype DeclSpecifier = DeclSpecifier(rawSignature: string, storageClass: CdtStorageClass)

  /** A declarator, carried over unconverted: the type, initializer and name it yields
      are not part of this model. */
  datatype Declarator = Declarator(rawSignature: string)

  /** A CDT simple declaration: one specifier shared by a list of declarators. */
  datatype SimpleDeclaration = SimpleDeclaration(rawSignature: string, specifier: DeclSpecifier, declarators: seq<Declarator>)

  /** A converted declaration: its text, its storage class and its single declarator
      (none for a struct prototype). */
  datatype Declaration = Declaration(rawSignature: string, storageClass: StorageClass, declarator: Option<Declarator>)

  /** The text given to the declaration split off for one of several declarators: the
      specifier, a space, the declarator and a semicolon. */
  function SplitSignature(specifier: DeclSpecifier, declarator: Declarator): string
  {
    specifier.rawSignature + " " + declarator.rawSignature + ";"
  }

  /** convert(IASTSimpleDeclaration): a declaration without declarator or with one
      declarator stays one declaration with the original text; a declaration with
      several declarators is split into one declaration per declarator, in order, each
      with the text of the specifier and that declarator alone. */
  method ConvertSimpleDeclaration(d: SimpleDeclaration) returns (r: Result<seq<Declaration>, ConversionError>)
    ensures ConvertStorageClass(d.specifier.storageClass).Failure? ==>
      r == Failure(ConvertStorageClass(d.specifier.storageClass).error)
    ensures ConvertStorageClass(d.specifier.storageClass).Success? ==> r.Success?
    ensures r.Success? ==>
      var sc := ConvertStorageClass(d.specifier.storageClass).value;
      && (|d.declarators| == 0 ==> r.value == [Declaration(d.rawSignature, sc, None)])
      && (|d.declarators| == 1 ==> r.value == [Declaration(d.rawSignature, sc, Some(d.declarators[0]))])
      && (|d.declarators| >= 2 ==>
            && |r.value| == |d.declarators|
            && forall i | 0 <= i < |d.declarators| ::
                 r.value[i] == Declaration(SplitSignature(d.specifier, d.declarators[i]), sc, Some(d.declarators[i])))
  {
    var storageClass := ConvertStorageClass(d.specifier.storageClass);
    if storageClass.Failure? {
      return Failure(storageClass.error);
    }
    var sc := storageClass.value;
    if |d.declarators| == 0 {
      return Success([Declaration(d.rawSignature, sc, None)]);
    } else if |d.declarators| == 1 {
      return Success([Declaration(d.rawSignature, sc, Some(d.declarators[0]))]);
    }
    var result: seq<Declaration> := [];
    for i := 0 to |d.declarators|
      invariant |result| == i
      invariant forall j | 0 <= j < i ::
        result[j] == Declaration(SplitSignature(d.specifier, d.declarators[j]), sc, Some(d.declarators[j]))
    {
      var c := d.declarators[i];
      result := result + [Declaration(SplitSignature(d.specifier, c), sc, Some(c))];
    }
    return Success(result);
  }

  /** A CDT parameter declaration; `hasInitializer` says whether its declarator carries
      an initializer. */
  datatype ParameterDeclaration = ParameterDeclaration(rawSignature: string, specifier: DeclSpecifier,
                                                       declarator: Declarator, hasInitializer: bool)

  /** A converted parameter: a simple declaration with the parameter's text. */
  datatype Parameter = Parameter(rawSignature: string, declarator: Declarator)

  /** convert(IASTParameterDeclaration): the storage class must convert to AUTO and the
      declarator must have no initializer. */
  function ConvertParameter(p: ParameterDeclaration): Result<Parameter, ConversionError>
  {
    match ConvertStorageClass(p.specifier.storageClass)
    case Failure(e) => Failure(e)
    case Success(sc) =>
      if sc != Auto then Failure(Check("Unsupported storage class for parameters"))
      else if p.hasInitializer then Failure(Check("Unsupported initializer for parameters"))
      else Success(Parameter(p.rawSignature, p.declarator))
  }

  /** A parameter written `void`: the placeholder of an empty parameter list. */
  predicate IsVoid(p: ParameterDeclaration)
  {
    p.rawSignature == "void"
  }

  /** The conversion of the first `n` parameters of `ps`: `void` placeholders are
      dropped, and one in a list of more than one parameter fails the assertion that it
      stands alone. */
  function ConvertedParameters(ps: seq<ParameterDeclaration>, n: nat): Result<seq<Parameter>, ConversionError>
    requires n <= |ps|
  {
    if n == 0 then Success([])
    else
      match ConvertedParameters(ps, n - 1)
      case Failure(e) => Failure(e)
      case Success(done) =>
        if !IsVoid(ps[n - 1]) then
          match ConvertParameter(ps[n - 1])
          case Failure(e) => Failure(e)
          case Success(q) => Success(done + [q])
        else if |ps| != 1 then Failure(AssertionFailed)
        else Success(done)
  }

  /** Once a parameter fails, the conversion of every longer prefix fails the same way. */
  lemma {:induction false} ParameterFailureSticks(ps: seq<ParameterDeclaration>, n: nat, m: nat)
    requires n <= m <= |ps| && ConvertedParameters(ps, n).Failure?
    ensures ConvertedParameters(ps, m) == ConvertedParameters(ps, n)
  {
    if m > n {
      ParameterFailureSticks(ps, n, m - 1);
    }
  }

  /** convert(IASTParameterDeclaration[]): the parameters in order, with the `void`
      placeholder dropped. */
  method ConvertParameters(ps: seq<ParameterDeclaration>) returns (r: Result<seq<Parameter>, ConversionError>)
    ensures r == ConvertedParameters(ps, |ps|)
  {
    var paramsList: seq<Parameter> := [];
    for i := 0 to |ps|
      invariant ConvertedParameters(ps, i) == Success(paramsList)
    {
      var c := ps[i];
      if !IsVoid(c) {
        var converted := ConvertParameter(c);
        if converted.Failure? {
          ParameterFailureSticks(ps, i + 1, |ps|);
          return Failure(converted.error);
        }
        paramsList := paramsList + [converted.value];
      } else if |ps| != 1 {
        ParameterFailureSticks(ps, i + 1, |ps|);
        return Failure(AssertionFailed);
      }
    }
    return Success(paramsList);
  }

  /** A parameter the conversion accepts. */
  predicate AcceptedParameter(p: ParameterDeclaration)
  {
    ConvertStorageClass(p.specifier.storageClass) == Success(Auto) && !p.hasInitializer
  }

  /** Every one of the first `n` parameters is accepted: a real parameter when it is one,
      a `void` placeholder only when it stands alone. */
  predicate ParametersAccepted(ps: seq<ParameterDeclaration>, n: nat)
    requires n <= |ps|
  {
    forall i | 0 <= i < n :: if IsVoid(ps[i]) then |ps| == 1 else AcceptedParameter(ps[i])
  }

  /** The parameters that are not `void` among the first `n`, as converted parameters:
      the reference list the conversion must produce. */
  function RealParameters(ps: seq<ParameterDeclaration>, n: nat): seq<Parameter>
    requires n <= |ps|
  {
    if n == 0 then []
    else if IsVoid(ps[n - 1]) then RealParameters(ps, n - 1)
    else RealParameters(ps, n - 1) + [Parameter(ps[n - 1].rawSignature, ps[n - 1].declarator)]
  }

  /** The conversion succeeds exactly when every parameter is accepted, and then yields
      the parameters that are not `void`, in order. */
  lemma {:induction false} ConvertedParametersAccepted(ps: seq<ParameterDeclaration>, n: nat)
    requires n <= |ps|
    ensures ConvertedParameters(ps, n).Success? <==> ParametersAccepted(ps, n)
    ensures ConvertedParameters(ps, n).Success? ==> ConvertedParameters(ps, n).value == RealParameters(ps, n)
  {
    if n != 0 {
      ConvertedParametersAccepted(ps, n - 1);
      assert ParametersAccepted(ps, n) <==>
        (ParametersAccepted(ps, n - 1) && if IsVoid(ps[n - 1]) then |ps| == 1 else AcceptedParameter(ps[n - 1]));
    }
  }

  /** `f(void)` declares no parameter, like `f()`. */
  lemma SoleVoidDropped(p: ParameterDeclaration)
    requires IsVoid(p)
    ensures ConvertedParameters([p], 1) == Success([])
  {
  }

  /** A `void` among several parameters is rejected. */
  lemma VoidAmongSeveralRejected(ps: seq<ParameterDeclaration>, i: nat)
    requires |ps| >= 2 && i < |ps| && IsVoid(ps[i])
    ensures ConvertedParameters(ps, |ps|).Failure?
  {
    ConvertedParametersAccepted(ps, |ps|);
  }
}
