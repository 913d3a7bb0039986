/** The monitor's expression evaluator, a recursive descent over the command line that computes as it reads. */
module ExprParser {
  import opened Options
  import opened MonitorText

  newtype int64 = x: int | -0x8000_0000_0000_0000 <= x < 0x8000_0000_0000_0000

  datatype Error =
    | MissingParen | MissingChar | MissingQuote | UnknownRegister | UnexpectedEnd
    | TooLarge | InvalidChar | DivisionByZero | DivisionTraps

  // What an expression evaluates to.
  datatype Outcome = Val(value: int64) | Bad(error: Error)

  // A parse ends with a value or an error; rest is where pch is left.
  datatype Result = Ok(value: int64, rest: string) | Err(error: Error, rest: string)

  const TWO64: int := 0x1_0000_0000_0000_0000

  // Two's complement.
  function Wrap(x: int): int64 {
    var m := x % TWO64;
    if m < 0x8000_0000_0000_0000 then m as int64 else (m - TWO64) as int64
  }

  lemma WrapInRange(x: int)
    requires -0x8000_0000_0000_0000 <= x < 0x8000_0000_0000_0000
    ensures Wrap(x) as int == x
  {
  }

  lemma WrapIs(x: int)
    ensures Wrap(x) as int % TWO64 == x % TWO64
  {
  }

  function Pow2(n: nat): (p: nat)
    ensures p > 0
  {
    if n == 0 then 1 else 2 * Pow2(n - 1)
  }

  // Bit i of the two's complement of x.
  function BitAt(x: int, i: nat): nat {
    x % TWO64 / Pow2(i) % 2
  }

  // The division of C truncates.
  function Quotient(a: int, b: int): int
    requires b != 0
  {
    var q := (if a < 0 then -a else a) / (if b < 0 then -b else b);
    if (a < 0) != (b < 0) then -q else q
  }

  function Remainder(a: int, b: int): int
    requires b != 0
  {
    a - Quotient(a, b) * b
  }

  datatype Op = Mul | Div | Mod | And | Or | Xor | Add | Sub {
    // 1 binds tightest.
    function Level(): (l: nat)
      ensures 1 <= l <= 3
    {
      if Mul? || Div? || Mod? then 1 else if And? || Or? || Xor? then 2 else 3
    }

    function Symbol(): char {
      match this
      case Mul => '*' case Div => '/' case Mod => '%'
      case And => '&' case Or => '|' case Xor => '^'
      case Add => '+' case Sub => '-'
    }
  }

  function OpAt(s: string): Option<Op> {
    if s == "" then None else
      match s[0]
      case '*' => Some(Mul) case '/' => Some(Div) case '%' => Some(Mod)
      case '&' => Some(And) case '|' => Some(Or) case '^' => Some(Xor)
      case '+' => Some(Add) case '-' => Some(Sub)
      case _ => None
  }

  function OpBit(op: Op, a: nat, b: nat): (r: nat)
    ensures r < 2
  {
    match op
    case And => if a == 1 && b == 1 then 1 else 0
    case Or => if a == 1 || b == 1 then 1 else 0
    case _ => if a == b then 0 else 1
  }

  // &, | and ^ on the low n bits.
  function Bitwise(op: Op, a: nat, b: nat, n: nat): nat {
    if n == 0 then 0 else OpBit(op, a % 2, b % 2) + 2 * Bitwise(op, a / 2, b / 2, n - 1)
  }

  function Apply(op: Op, a: int64, b: int64): Outcome {
    match op
    case Mul => Val(Wrap(a as int * b as int))
    case Div =>
      if b == 0 then Bad(DivisionByZero)
      else if Traps(a, b) then Bad(DivisionTraps)
      else Val(Wrap(Quotient(a as int, b as int)))
    case Mod =>
      if b == 0 then Bad(DivisionByZero)
      else if Traps(a, b) then Bad(DivisionTraps)
      else Val(Wrap(Remainder(a as int, b as int)))
    case And => Val(Wrap(Bitwise(And, a as int % TWO64, b as int % TWO64, 64)))
    case Or => Val(Wrap(Bitwise(Or, a as int % TWO64, b as int % TWO64, 64)))
    case Xor => Val(Wrap(Bitwise(Xor, a as int % TWO64, b as int % TWO64, 64)))
    case Add => Val(Wrap(a as int + b as int))
    case Sub => Val(Wrap(a as int - b as int))
  }

  // The processor faults when the quotient does not fit.
  predicate Traps(a: int64, b: int64) {
    a == -0x8000_0000_0000_0000 && b == -1
  }

  datatype Sign = Plus | Minus | Complement {
    function Symbol(): char {
      match this case Plus => '+' case Minus => '-' case Complement => '~'
    }

    function Of(a: int64): int64 {
      match this
      case Plus => a
      case Minus => Wrap(-(a as int))
      case Complement => Wrap(-(a as int) - 1)
    }
  }

  predicate WordChar(c: char) {
    'a' <= c <= 'z' || 'A' <= c <= 'Z' || '0' <= c <= '9' || c == '_' || c == '.'
  }

  predicate Word(s: string) {
    forall i | 0 <= i < |s| :: WordChar(s[i])
  }

  function Next(s: string): (r: string)
    ensures |r| <= |s| && (s != "" ==> |r| < |s|)
  {
    if s == "" then s else SkipSpaces(s[1..])
  }

  function WordPrefix(s: string): (r: string)
    ensures |r| <= |s|
  {
    if s != "" && WordChar(s[0]) then [s[0]] + WordPrefix(s[1..]) else ""
  }

  // The buffer for a register's name holds 127 characters.
  const NAME_MAX := 127

  function Cut(name: string): string {
    if |name| <= NAME_MAX then name else name[..NAME_MAX]
  }

  /** The first 127 characters. */
  lemma CutIs(name: string)
    ensures Cut(name) <= name && |Cut(name)| == if |name| < 127 then |name| else 127
  {
  }

  lemma CutShort(name: string)
    requires |name| <= NAME_MAX
    ensures Cut(name) == name
  {
  }

  lemma CutSnoc(name: string, c: char)
    ensures Cut(name + [c]) == if |Cut(name)| < NAME_MAX then Cut(name) + [c] else Cut(name)
  {
  }

  function SignedChar(c: char): int64 {
    var b := c as int % 256;
    if b < 128 then b as int64 else (b - 256) as int64
  }

  /** A character constant is the signed byte with these bits. */
  lemma SignedCharIs(c: char)
    ensures -128 <= SignedChar(c) as int < 128 && (SignedChar(c) as int - c as int) % 256 == 0
  {
  }

  // strtoull with base 0

  function Digit(c: char): nat {
    if '0' <= c <= '9' then (c - '0') as nat
    else if 'a' <= c <= 'z' then (c - 'a') as nat + 10
    else if 'A' <= c <= 'Z' then (c - 'A') as nat + 10
    else 36
  }

  predicate Digits(s: string, base: nat) {
    forall i | 0 <= i < |s| :: Digit(s[i]) < base
  }

  function DigitPrefix(s: string, base: nat): (r: string)
    ensures |r| <= |s| && (s != "" && Digit(s[0]) < base ==> |r| > 0)
  {
    if s != "" && Digit(s[0]) < base then [s[0]] + DigitPrefix(s[1..], base) else ""
  }

  function Number(digits: string, base: nat): nat {
    if digits == "" then 0 else
      var n := |digits| - 1;
      Number(digits[..n], base) * base + Digit(digits[n])
  }

  function DigitChar(d: nat): char
    requires d < 16
  {
    "0123456789abcdef"[d]
  }

  // How a number is written in a base.
  function Spelled(n: nat, base: nat): string
    requires 1 < base <= 16
    decreases n
  {
    if n == 0 then "" else Spelled(n / base, base) + [DigitChar(n % base)]
  }

  /** Numbers are read as they are written. */
  lemma {:induction false} NumberSpelled(n: nat, base: nat)
    requires 1 < base <= 16
    ensures Digits(Spelled(n, base), base) && Number(Spelled(n, base), base) == n
    decreases n
  {
    hide Digit, DigitChar;
    if n > 0 {
      NumberSpelled(n / base, base);
      DigitSpelled(n % base);
      NumberSnoc(Spelled(n / base, base), DigitChar(n % base), base);
      DivMod(n, base);
      hide Number;
    }
  }

  lemma DivMod(n: nat, base: nat)
    requires base > 0
    ensures n / base * base + n % base == n
  {
  }

  lemma DigitSpelled(d: nat)
    requires d < 16
    ensures Digit(DigitChar(d)) == d
  {
  }

  lemma NumberSnoc(digits: string, c: char, base: nat)
    ensures Number(digits + [c], base) == Number(digits, base) * base + Digit(c)
  {
    hide Digit;
    assert (digits + [c])[..|digits|] == digits;
  }

  predicate HexPrefix(s: string) {
    |s| > 2 && s[0] == '0' && (s[1] == 'x' || s[1] == 'X') && Digit(s[2]) < 16
  }

  // The base, and the length of its prefix.
  function Base(s: string): (r: (nat, nat))
    ensures r.1 <= |s|
  {
    if HexPrefix(s) then (16, 2) else if s != "" && s[0] == '0' then (8, 0) else (10, 0)
  }

  function ParseNumber(s: string): Result {
    var (base, skip) := Base(s);
    var digits := DigitPrefix(s[skip..], base);
    if Number(digits, base) >= TWO64 then Err(TooLarge, s)
    else if digits == "" then Err(InvalidChar, s)
    else Ok(Wrap(Number(digits, base)), SkipSpaces(s[skip + |digits|..]))
  }

  type Registers = string -> Option<int64>

  /** What expr_unary (level 0), expr_prod, expr_logic and expr_sum (level 3) do at s. */
  function Parse(regs: Registers, level: nat, s: string): (r: Result)
    ensures |r.rest| <= |s|
    decreases |s|, level, 1
  {
    if level == 0 then ParseUnary(regs, s) else
      match Parse(regs, level - 1, s)
      case Ok(v, rest) => Loop(regs, level, v, rest)
      case err => err
  }

  // The loop of expr_prod, expr_logic and expr_sum.
  function Loop(regs: Registers, level: nat, v: int64, s: string): (r: Result)
    requires level > 0
    ensures |r.rest| <= |s|
    decreases |s|, level, 0
  {
    var op := OpAt(s);
    if op.None? || op.value.Level() != level then Ok(v, s) else
      match Parse(regs, level - 1, Next(s))
      case Ok(v2, rest) =>
        (match Apply(op.value, v, v2)
         case Val(w) => Loop(regs, level, w, rest)
         case Bad(e) => Err(e, rest))
      case err => err
  }

  function Signed(sign: Sign, r: Result): Result {
    match r
    case Ok(v, rest) => Ok(sign.Of(v), rest)
    case err => err
  }

  function ParseUnary(regs: Registers, s: string): (r: Result)
    ensures |r.rest| <= |s|
    decreases |s|, 0, 0
  {
    if s == "" then Err(UnexpectedEnd, s)
    else if s[0] == '+' then Parse(regs, 0, Next(s))
    else if s[0] == '-' then Signed(Minus, Parse(regs, 0, Next(s)))
    else if s[0] == '~' then Signed(Complement, Parse(regs, 0, Next(s)))
    else if s[0] == '(' then
      match Parse(regs, 3, Next(s))
      case Ok(v, rest) => if rest == "" || rest[0] != ')' then Err(MissingParen, rest) else Ok(v, Next(rest))
      case err => err
    else if s[0] == '\'' then ParseChar(s)
    else if s[0] == '$' then ParseRegister(regs, s)
    else ParseNumber(s)
  }

  function ParseChar(s: string): (r: Result)
    requires s != ""
    ensures |r.rest| <= |s|
  {
    if |s| < 2 then Err(MissingChar, s[1..])
    else if |s| < 3 || s[2] != '\'' then Err(MissingQuote, s[2..])
    else Ok(SignedChar(s[1]), Next(s[2..]))
  }

  function ParseRegister(regs: Registers, s: string): (r: Result)
    requires s != ""
    ensures |r.rest| <= |s|
  {
    var name := WordPrefix(s[1..]);
    var rest := SkipSpaces(s[1 + |name|..]);
    match regs(Cut(name))
    case Some(v) => Ok(v, rest)
    case None => Err(UnknownRegister, rest)
  }

  function GetExpr(regs: Registers, s: string): Result {
    Parse(regs, 3, SkipSpaces(s))
  }

  // Expressions as they are written: every token is followed by a gap, and brackets are part of the tree.

  datatype Literal = Dec(digits: string) | Oct(digits: string) | Hex(upper: bool, digits: string) {
    function Text(): string {
      match this
      case Dec(ds) => ds
      case Oct(ds) => "0" + ds
      case Hex(upper, ds) => (if upper then "0X" else "0x") + ds
    }

    predicate Valid() {
      match this
      case Dec(ds) => ds != "" && ds[0] != '0' && Digits(ds, 10)
      case Oct(ds) => Digits(ds, 8)
      case Hex(_, ds) => ds != "" && Digits(ds, 16)
    }

    function Value(): nat {
      match this
      case Dec(ds) => Number(ds, 10)
      case Oct(ds) => Number(ds, 8)
      case Hex(_, ds) => Number(ds, 16)
    }
  }

  datatype Expr =
    | Num(literal: Literal, gap: string)
    | Char(c: char, gap: string)
    | Reg(name: string, gap: string)
    | Unary(sign: Sign, before: string, operand: Expr)
    | Paren(before: string, inner: Expr, gap: string)
    | Binary(op: Op, left: Expr, before: string, right: Expr)

  predicate WellFormed(e: Expr) {
    match e
    case Num(l, gap) => l.Valid() && Blank(gap)
    case Char(_, gap) => Blank(gap)
    case Reg(name, gap) => Word(name) && Blank(gap)
    case Unary(_, before, operand) => Blank(before) && WellFormed(operand)
    case Paren(before, inner, gap) => Blank(before) && WellFormed(inner) && Blank(gap)
    case Binary(_, left, before, right) => Blank(before) && WellFormed(left) && WellFormed(right)
  }

  /** Where brackets may be left out: operators of one level group to the left. */
  predicate Fits(e: Expr, level: nat) {
    match e
    case Unary(_, _, operand) => Fits(operand, 0)
    case Paren(_, inner, _) => Fits(inner, 3)
    case Binary(op, left, _, right) => op.Level() <= level && Fits(left, op.Level()) && Fits(right, op.Level() - 1)
    case _ => true
  }

  function Render(e: Expr): string {
    match e
    case Num(l, gap) => l.Text() + gap
    case Char(c, gap) => ['\'', c, '\''] + gap
    case Reg(name, gap) => "$" + name + gap
    case Unary(sign, before, operand) => [sign.Symbol()] + before + Render(operand)
    case Paren(before, inner, gap) => "(" + before + Render(inner) + ")" + gap
    case Binary(op, left, before, right) => Render(left) + ([op.Symbol()] + before + Render(right))
  }

  /** The value of the tree; operands are evaluated from left to right. */
  function Value(regs: Registers, e: Expr): Outcome {
    match e
    case Num(l, _) => if l.Value() >= TWO64 then Bad(TooLarge) else Val(Wrap(l.Value()))
    case Char(c, _) => Val(SignedChar(c))
    case Reg(name, _) => (match regs(Cut(name)) case Some(v) => Val(v) case None => Bad(UnknownRegister))
    case Unary(sign, _, operand) =>
      (match Value(regs, operand) case Val(v) => Val(sign.Of(v)) case bad => bad)
    case Paren(_, inner, _) => Value(regs, inner)
    case Binary(op, left, _, right) =>
      match Value(regs, left)
      case Val(a) => (match Value(regs, right) case Val(b) => Apply(op, a, b) case bad => bad)
      case bad => bad
  }

  // The gap behind the last token.
  function LastGap(e: Expr): string {
    match e
    case Num(_, gap) => gap
    case Char(_, gap) => gap
    case Reg(_, gap) => gap
    case Unary(_, _, operand) => LastGap(operand)
    case Paren(_, _, gap) => gap
    case Binary(_, _, _, right) => LastGap(right)
  }

  // What may follow an expression without becoming part of its last token or of the gap behind it.
  predicate Separate(e: Expr, s: string) {
    s == "" || (!IsSpace(s[0]) && (WordChar(s[0]) ==> LastGap(e) != ""))
  }

  // No operator at s binds tighter than those of the level.
  predicate NoTighter(s: string, level: nat) {
    OpAt(s).None? || OpAt(s).value.Level() >= level
  }

  // r is what the loop of this level makes of the value, or the value's error.
  predicate Continues(regs: Registers, level: nat, v: Outcome, s: string, r: Result) {
    match v
    case Val(x) => r == if level == 0 then Ok(x, s) else Loop(regs, level, x, s)
    case Bad(e) => r.Err? && r.error == e
  }

  lemma NextToken(c: char, gap: string, s: string)
    requires Blank(gap) && (s == "" || !IsSpace(s[0]))
    ensures Next([c] + gap + s) == s
  {
    assert ([c] + gap + s)[1..] == gap + s;
    SkipBlank(gap, s);
  }

  lemma WordPrefixStep(s: string)
    ensures WordPrefix(s) == if s != "" && WordChar(s[0]) then [s[0]] + WordPrefix(s[1..]) else ""
  {
  }

  lemma {:induction false} WordTaken(word: string, s: string)
    requires Word(word) && (s == "" || !WordChar(s[0]))
    ensures WordPrefix(word + s) == word
  {
    hide WordChar;
    if word != "" {
      assert word + s == [word[0]] + (word[1..] + s);
      WordTaken(word[1..], s);
    } else {
      assert word + s == s;
    }
  }

  lemma {:induction false} DigitsTaken(digits: string, base: nat, s: string)
    requires Digits(digits, base) && (s == "" || Digit(s[0]) >= base)
    ensures DigitPrefix(digits + s, base) == digits
  {
    hide Digit;
    if digits != "" {
      assert digits + s == [digits[0]] + (digits[1..] + s);
      DigitsTaken(digits[1..], base, s);
    } else {
      assert digits + s == s;
    }
  }

  // What follows a token in t, the gap and s, does not belong to it.
  lemma EndsWord(gap: string, s: string)
    requires Blank(gap) && (s == "" || (!IsSpace(s[0]) && (WordChar(s[0]) ==> gap != "")))
    ensures var t := gap + s; SkipSpaces(t) == s && (t == "" || (!WordChar(t[0]) && Digit(t[0]) == 36))
  {
    SkipBlank(gap, s);
  }

  lemma NumberParsed(l: Literal, gap: string, s: string)
    requires l.Valid() && Blank(gap) && (s == "" || (!IsSpace(s[0]) && (WordChar(s[0]) ==> gap != "")))
    ensures var r := ParseNumber(l.Text() + gap + s);
            if l.Value() >= TWO64 then r.Err? && r.error == TooLarge else r == Ok(Wrap(l.Value()), s)
  {
    hide Number, WordChar, IsSpace, Wrap, ParseNumber, Digits, Base, Digit, SkipSpaces, Blank;
    var t := gap + s;
    EndsWord(gap, s);
    assert l.Text() + gap + s == l.Text() + t;
    BaseFound(l, t);
    match l
    case Dec(ds) =>
      assert "" + ds + t == ds + t;
      DigitsParsed("", ds, 10, t);
    case Oct(ds) =>
      ZeroDigits(ds);
      assert "" + ("0" + ds) + t == "0" + ds + t;
      DigitsParsed("", "0" + ds, 8, t);
      LeadingZero(ds);
    case Hex(upper, ds) =>
      DigitsParsed(if upper then "0X" else "0x", ds, 16, t);
  }

  lemma ZeroDigits(ds: string)
    requires Digits(ds, 8)
    ensures Digits("0" + ds, 8)
  {
  }

  lemma BaseFound(l: Literal, t: string)
    requires l.Valid() && (t == "" || !WordChar(t[0]))
    ensures Base(l.Text() + t) == match l case Dec(_) => (10, 0) case Oct(_) => (8, 0) case Hex(_, _) => (16, 2)
  {
    var text := l.Text() + t;
    match l
    case Dec(ds) =>
      assert text[0] == ds[0];
    case Oct(ds) =>
      assert text[0] == '0';
      assert |text| > 1 ==> text[1] == if ds != "" then ds[0] else t[0];
    case Hex(_, ds) =>
      assert text[2] == ds[0];
  }

  lemma DigitsParsed(prefix: string, digits: string, base: nat, t: string)
    requires Base(prefix + digits + t) == (base, |prefix|) && digits != "" && Digits(digits, base)
    requires t == "" || Digit(t[0]) >= base
    ensures var r := ParseNumber(prefix + digits + t);
            if Number(digits, base) >= TWO64 then r.Err? && r.error == TooLarge
            else r == Ok(Wrap(Number(digits, base)), SkipSpaces(t))
  {
    hide Number, Wrap, Base, Digits, SkipSpaces;
    var text := prefix + digits + t;
    assert text[|prefix|..] == digits + t && text[|prefix| + |digits|..] == t;
    DigitsTaken(digits, base, t);
  }

  lemma {:induction false} LeadingZero(digits: string)
    ensures Number("0" + digits, 8) == Number(digits, 8)
  {
    var n := |digits|;
    if n > 0 {
      LeadingZero(digits[..n - 1]);
      assert ("0" + digits)[..n] == "0" + digits[..n - 1];
    } else {
      assert "0" + digits == "0" && ("0")[..0] == "";
    }
  }

  /** Text that is read back never starts with a space. */
  lemma {:induction false} RenderStarts(e: Expr)
    requires WellFormed(e)
    ensures Render(e) != "" && !IsSpace(Render(e)[0])
  {
    match e
    case Num(l, gap) =>
      if l.Dec? {
        assert Render(e)[0] == l.digits[0];
        assert Digit(l.digits[0]) < 10;
      }
    case Binary(_, left, _, _) => RenderStarts(left);
    case _ =>
  }

  lemma CharParsed(c: char, gap: string, s: string)
    requires Blank(gap) && (s == "" || !IsSpace(s[0]))
    ensures ParseChar(['\'', c, '\''] + gap + s) == Ok(SignedChar(c), s)
  {
    var text := ['\'', c, '\''] + gap + s;
    assert text[2..] == ['\''] + gap + s;
    NextToken('\'', gap, s);
  }

  lemma RegisterParsed(regs: Registers, name: string, gap: string, s: string)
    requires Word(name) && Blank(gap) && (s == "" || (!IsSpace(s[0]) && (WordChar(s[0]) ==> gap != "")))
    ensures ParseRegister(regs, "$" + name + gap + s)
         == match regs(Cut(name)) case Some(v) => Ok(v, s) case None => Err(UnknownRegister, s)
  {
    hide WordPrefix, SkipSpaces, Cut, Word, Blank;
    var text := "$" + name + gap + s;
    EndsWord(gap, s);
    WordTaken(name, gap + s);
    assert text[1..] == name + (gap + s) && text[1 + |name|..] == gap + s;
  }

  lemma FitsTighter(e: Expr, level: nat)
    requires level > 0 && Fits(e, level) && !(e.Binary? && e.op.Level() == level)
    ensures Fits(e, level - 1)
  {
  }

  lemma OpIsFound(op: Op, s: string)
    ensures OpAt([op.Symbol()] + s) == Some(op)
    ensures !IsSpace(op.Symbol()) && !WordChar(op.Symbol())
  {
  }

  /** A rendered expression is read as its tree, up to what follows it. */
  lemma {:induction false} RoundTrip(regs: Registers, e: Expr, level: nat, s: string)
    requires level <= 3 && WellFormed(e) && Fits(e, level) && Separate(e, s) && NoTighter(s, level)
    ensures Continues(regs, level, Value(regs, e), s, Parse(regs, level, Render(e) + s))
    decreases e, level, 1
  {
    hide IsSpace, WordChar, Apply, ParseNumber, ParseChar, ParseRegister, Next, Blank, Separate, OpAt;
    if level == 0 {
      UnaryRoundTrip(regs, e, s);
    } else if e.Binary? && e.op.Level() == level {
      BinaryRoundTrip(regs, e, s);
    } else {
      FitsTighter(e, level);
      RoundTrip(regs, e, level - 1, s);
      hide Value, Render, WellFormed, Fits;
    }
  }

  lemma {:induction false} BinaryRoundTrip(regs: Registers, e: Expr, s: string)
    requires e.Binary? && WellFormed(e) && Fits(e, e.op.Level()) && Separate(e, s) && NoTighter(s, e.op.Level())
    ensures Continues(regs, e.op.Level(), Value(regs, e), s, Parse(regs, e.op.Level(), Render(e) + s))
    decreases e, 0, 0
  {
    hide IsSpace, WordChar, Apply, ParseUnary, Next, Blank;
    var level := e.op.Level();
    var right := Render(e.right) + s;
    var tail := [e.op.Symbol()] + e.before + right;
    OpIsFound(e.op, e.before + right);
    assert tail == [e.op.Symbol()] + (e.before + right);
    assert Render(e) + s == Render(e.left) + tail;
    RenderStarts(e.right);
    NextToken(e.op.Symbol(), e.before, right);
    hide OpAt;
    RoundTrip(regs, e.left, level, tail);
    RoundTrip(regs, e.right, level - 1, s);
  }

  lemma {:induction false} UnaryRoundTrip(regs: Registers, e: Expr, s: string)
    requires WellFormed(e) && Fits(e, 0) && Separate(e, s)
    ensures Continues(regs, 0, Value(regs, e), s, ParseUnary(regs, Render(e) + s))
    decreases e, 0, 0
  {
    hide ParseUnary, IsSpace, WordChar, Wrap, Blank, Next, Loop, OpAt, SkipSpaces;
    hide WellFormed, Fits, Value, Render, Separate;
    match e
    case Num(l, gap) => NumRoundTrip(regs, l, gap, s);
    case Char(c, gap) => CharRoundTrip(regs, c, gap, s);
    case Reg(name, gap) => RegRoundTrip(regs, name, gap, s);
    case Unary(sign, before, operand) =>
      UnaryParts(regs, sign, before, operand, s);
      SignFollowed(regs, sign, before, operand, s);
      RoundTrip(regs, operand, 0, s);
    case Paren(before, inner, gap) =>
      var close := ")" + gap + s;
      ParenParts(regs, before, inner, gap, s);
      ParenTail(before, inner, gap, s);
      ParenFollowed(regs, before, inner, close);
      RoundTrip(regs, inner, 3, close);
      LoopEnds(regs, Value(regs, inner), close, Parse(regs, 3, Render(inner) + close));
    case Binary(_, _, _, _) => NotUnary(e);
  }

  lemma NotUnary(e: Expr)
    requires Fits(e, 0)
    ensures !e.Binary?
  {
  }

  lemma UnaryParts(regs: Registers, sign: Sign, before: string, operand: Expr, s: string)
    requires var e := Unary(sign, before, operand); WellFormed(e) && Fits(e, 0) && Separate(e, s)
    ensures WellFormed(operand) && Fits(operand, 0) && Separate(operand, s) && Blank(before)
    ensures Value(regs, Unary(sign, before, operand))
         == match Value(regs, operand) case Val(v) => Val(sign.Of(v)) case bad => bad
  {
    hide Wrap;
  }

  lemma ParenParts(regs: Registers, before: string, inner: Expr, gap: string, s: string)
    requires var e := Paren(before, inner, gap); WellFormed(e) && Fits(e, 0) && Separate(e, s)
    ensures WellFormed(inner) && Fits(inner, 3) && Blank(before) && Blank(gap) && (s == "" || !IsSpace(s[0]))
    ensures Value(regs, Paren(before, inner, gap)) == Value(regs, inner)
  {
    hide IsSpace, WordChar, Blank;
  }

  lemma ParenTail(before: string, inner: Expr, gap: string, s: string)
    requires Blank(gap) && (s == "" || !IsSpace(s[0]))
    ensures var close := ")" + gap + s;
            && Separate(inner, close) && NoTighter(close, 3) && OpAt(close).None? && Next(close) == s
            && Render(Paren(before, inner, gap)) + s == "(" + before + (Render(inner) + close)
  {
    var close := ")" + gap + s;
    CloseIsPlain(close);
    NextToken(')', gap, s);
    Regrouped("(" + before, Render(inner), ")" + gap, s);
    Regrouped("(" + before + Render(inner), ")", gap, s);
    hide IsSpace, WordChar, OpAt, Next, Blank;
  }

  lemma Regrouped(a: string, b: string, c: string, d: string)
    ensures a + b + c + d == a + (b + (c + d)) && a + (b + c) + d == a + b + c + d
  {
  }

  lemma LoopEnds(regs: Registers, v: Outcome, s: string, r: Result)
    requires Continues(regs, 3, v, s, r) && OpAt(s).None?
    ensures match v case Val(x) => r == Ok(x, s) case Bad(e) => r.Err? && r.error == e
  {
  }

  lemma CloseIsPlain(s: string)
    requires s != "" && s[0] == ')'
    ensures !IsSpace(')') && !WordChar(')') && OpAt(s).None?
  {
  }

  lemma SignFollowed(regs: Registers, sign: Sign, before: string, operand: Expr, s: string)
    requires WellFormed(operand) && Blank(before)
    ensures ParseUnary(regs, Render(Unary(sign, before, operand)) + s)
         == Signed(sign, Parse(regs, 0, Render(operand) + s))
  {
    hide Parse, Next, Blank, Wrap;
    assert Render(Unary(sign, before, operand)) + s == [sign.Symbol()] + before + (Render(operand) + s);
    RenderStarts(operand);
    NextToken(sign.Symbol(), before, Render(operand) + s);
  }

  lemma ParenFollowed(regs: Registers, before: string, inner: Expr, close: string)
    requires WellFormed(inner) && Blank(before)
    ensures ParseUnary(regs, "(" + before + (Render(inner) + close))
         == match Parse(regs, 3, Render(inner) + close)
            case Ok(v, rest) => if rest == "" || rest[0] != ')' then Err(MissingParen, rest) else Ok(v, Next(rest))
            case err => err
  {
    hide Parse, Next, Blank;
    RenderStarts(inner);
    NextToken('(', before, Render(inner) + close);
  }

  lemma NumRoundTrip(regs: Registers, l: Literal, gap: string, s: string)
    requires WellFormed(Num(l, gap)) && Separate(Num(l, gap), s)
    ensures Continues(regs, 0, Value(regs, Num(l, gap)), s, ParseUnary(regs, Render(Num(l, gap)) + s))
  {
    hide ParseNumber, Wrap, Number, WordChar, IsSpace, Digit, Blank, ParseUnary, Literal.Valid;
    NumberParsed(l, gap, s);
    LiteralStarts(l);
    assert (l.Text() + gap + s)[0] == l.Text()[0];
    hide Literal.Text;
    DigitFirst(regs, l.Text() + gap + s);
  }

  lemma DigitFirst(regs: Registers, s: string)
    requires s != "" && '0' <= s[0] <= '9'
    ensures ParseUnary(regs, s) == ParseNumber(s)
  {
    hide ParseNumber;
  }

  lemma LiteralStarts(l: Literal)
    requires l.Valid()
    ensures l.Text() != "" && '0' <= l.Text()[0] <= '9'
  {
    if l.Dec? {
      assert Digit(l.digits[0]) < 10;
    }
  }

  lemma CharRoundTrip(regs: Registers, c: char, gap: string, s: string)
    requires WellFormed(Char(c, gap)) && Separate(Char(c, gap), s)
    ensures Continues(regs, 0, Value(regs, Char(c, gap)), s, ParseUnary(regs, Render(Char(c, gap)) + s))
  {
    hide ParseChar, ParseNumber, WordChar;
    CharParsed(c, gap, s);
  }

  lemma RegRoundTrip(regs: Registers, name: string, gap: string, s: string)
    requires WellFormed(Reg(name, gap)) && Separate(Reg(name, gap), s)
    ensures Continues(regs, 0, Value(regs, Reg(name, gap)), s, ParseUnary(regs, Render(Reg(name, gap)) + s))
  {
    hide ParseRegister, ParseNumber, WordChar, Cut, Word, Blank;
    RegisterParsed(regs, name, gap, s);
  }

  // Errors ---------------------------------------------------------------------------

  /** Nothing that starts no operand is read, and pch stays there. */
  lemma NoOperand(regs: Registers, level: nat, s: string)
    requires s == "" || (s[0] !in "+-~('$0123456789" && !IsSpace(s[0]))
    ensures Parse(regs, level, s) == Err(if s == "" then UnexpectedEnd else InvalidChar, s)
    decreases level
  {
    if level > 0 {
      NoOperand(regs, level - 1, s);
    } else if s != "" {
      NoDigit(s);
      hide ParseNumber;
    }
  }

  lemma NoDigit(s: string)
    requires s != "" && s[0] !in "0123456789"
    ensures ParseNumber(s) == Err(InvalidChar, s)
  {
    assert Base(s) == (10, 0) && s[0..] == s;
    assert DigitPrefix(s, 10) == "";
  }

  /** An operator without its right operand. */
  lemma Dangling(regs: Registers, left: Expr, op: Op, gap: string)
    requires WellFormed(left) && Fits(left, op.Level()) && Blank(gap) && Value(regs, left).Val?
    ensures Parse(regs, op.Level(), Render(left) + ([op.Symbol()] + gap)) == Err(UnexpectedEnd, "")
  {
    var tail := [op.Symbol()] + gap;
    OpIsFound(op, gap);
    NextToken(op.Symbol(), gap, "");
    assert [op.Symbol()] + gap + "" == tail;
    hide OpAt, IsSpace, WordChar, Next, Value, Render, Fits, WellFormed, Blank;
    RoundTrip(regs, left, op.Level(), tail);
    NoOperand(regs, op.Level() - 1, "");
  }

  /** A bracket that is not closed. */
  lemma Unclosed(regs: Registers, before: string, inner: Expr, s: string)
    requires WellFormed(inner) && Fits(inner, 3) && Blank(before) && Separate(inner, s) && OpAt(s).None?
    requires Value(regs, inner).Val? && (s == "" || s[0] != ')')
    ensures ParseUnary(regs, "(" + before + (Render(inner) + s)) == Err(MissingParen, s)
  {
    hide ParseUnary, Value, Render, Fits, WellFormed, Blank, OpAt, Separate;
    ParenFollowed(regs, before, inner, s);
    NoOpNoTighter(s);
    RoundTrip(regs, inner, 3, s);
    LoopEnds(regs, Value(regs, inner), s, Parse(regs, 3, Render(inner) + s));
  }

  lemma NoOpNoTighter(s: string)
    requires OpAt(s).None?
    ensures NoTighter(s, 3)
  {
  }

  /** Character constants that end too early, or are too long. */
  lemma BadCharacter(regs: Registers, c: char, s: string)
    requires s == "" || s[0] != '\''
    ensures ParseUnary(regs, "'") == Err(MissingChar, "")
    ensures ParseUnary(regs, ['\'', c] + s) == Err(MissingQuote, s)
  {
    assert (['\'', c] + s)[2..] == s;
  }

  // The other direction: whatever is read without an error is a rendered expression.

  lemma {:induction false} WordPrefixIs(s: string)
    ensures Word(WordPrefix(s)) && s == WordPrefix(s) + s[|WordPrefix(s)|..]
  {
    hide WordChar;
    if s != "" && WordChar(s[0]) {
      WordPrefixIs(s[1..]);
      assert s == [s[0]] + s[1..];
    }
  }

  lemma {:induction false} DigitPrefixIs(s: string, base: nat)
    ensures Digits(DigitPrefix(s, base), base) && s == DigitPrefix(s, base) + s[|DigitPrefix(s, base)|..]
  {
    hide Digit;
    if s != "" && Digit(s[0]) < base {
      DigitPrefixIs(s[1..], base);
      assert s == [s[0]] + s[1..];
    }
  }

  lemma AcceptedNumber(regs: Registers, s: string) returns (e: Expr)
    requires ParseNumber(s).Ok?
    ensures e.Num? && Reads(regs, 0, s, ParseNumber(s), e)
  {
    hide Number, Wrap, Digits, DigitPrefix, SkipSpaces, LeadingBlank, Blank, Base;
    hide Literal.Valid, Literal.Text, Literal.Value;
    var (base, skip) := Base(s);
    var digits := DigitPrefix(s[skip..], base);
    var tail := s[skip + |digits|..];
    DigitPrefixIs(s[skip..], base);
    BlankSkipped(tail);
    var literal := AcceptedLiteral(s, base, skip, digits);
    e := Num(literal, LeadingBlank(tail));
    assert s[skip..][|digits|..] == tail;
    Reassembled(s, skip, digits, tail, LeadingBlank(tail), SkipSpaces(tail));
  }

  lemma Reassembled(s: string, skip: nat, word: string, tail: string, gap: string, rest: string)
    requires skip <= |s| && s[skip..] == word + tail && tail == gap + rest
    ensures s == s[..skip] + word + gap + rest
  {
    assert s == s[..skip] + s[skip..];
  }

  lemma AcceptedLiteral(s: string, base: nat, skip: nat, digits: string) returns (l: Literal)
    requires (base, skip) == Base(s) && digits == DigitPrefix(s[skip..], base) && digits != "" && Digits(digits, base)
    ensures l.Valid() && l.Text() == s[..skip] + digits && l.Value() == Number(digits, base)
  {
    hide Number;
    if base == 16 {
      l := Hex(s[1] == 'X', digits);
    } else if base == 8 {
      assert s[0..] == s;
      assert digits == "0" + digits[1..];
      LeadingZero(digits[1..]);
      l := Oct(digits[1..]);
    } else {
      assert s[0..] == s;
      l := Dec(digits);
    }
  }

  // e is what was read at s, up to where r stops.
  ghost predicate Reads(regs: Registers, level: nat, s: string, r: Result, e: Expr) {
    r.Ok? && WellFormed(e) && Fits(e, level) && Value(regs, e) == Val(r.value) && s == Render(e) + r.rest
  }

  /** What the evaluator accepts at a level is an expression of that level, with the value it returns. */
  lemma {:induction false} Accepted(regs: Registers, level: nat, s: string) returns (e: Expr)
    requires level <= 3 && Parse(regs, level, s).Ok?
    ensures Reads(regs, level, s, Parse(regs, level, s), e)
    decreases |s|, level, 1
  {
    hide WellFormed, Fits, Value, Render, Loop;
    if level == 0 {
      e := AcceptedUnary(regs, s);
    } else {
      var first := Accepted(regs, level - 1, s);
      FitsLooser(first, level - 1);
      e := AcceptedLoop(regs, level, first, Parse(regs, level - 1, s).value, Parse(regs, level - 1, s).rest);
    }
  }

  lemma FitsLooser(e: Expr, level: nat)
    requires Fits(e, level)
    ensures Fits(e, level + 1)
  {
  }

  // The operands read so far are e0, with value v.
  lemma {:induction false} AcceptedLoop(regs: Registers, level: nat, e0: Expr, v: int64, s: string) returns (e: Expr)
    requires 0 < level <= 3 && Loop(regs, level, v, s).Ok?
    requires WellFormed(e0) && Fits(e0, level) && Value(regs, e0) == Val(v)
    ensures Reads(regs, level, Render(e0) + s, Loop(regs, level, v, s), e)
    decreases |s|, level, 0
  {
    hide Apply, OpAt, Next, Parse, WellFormed, Fits, Value, Render, LeadingBlank, Blank, Op.Symbol;
    var found := OpAt(s);
    if found.None? || found.value.Level() != level {
      e := e0;
    } else {
      var op := found.value;
      OpRead(s);
      NextIs(s);
      var gap := LeadingBlank(s[1..]);
      var right := Accepted(regs, level - 1, Next(s));
      var r := Parse(regs, level - 1, Next(s));
      var grown := Binary(op, e0, gap, right);
      BinaryGrown(regs, op, e0, v, gap, right, r.value);
      BinaryRendered(op, e0, gap, right, r.rest, s);
      e := AcceptedLoop(regs, level, grown, Apply(op, v, r.value).value, r.rest);
    }
  }

  lemma BinaryGrown(regs: Registers, op: Op, left: Expr, a: int64, gap: string, right: Expr, b: int64)
    requires WellFormed(left) && Fits(left, op.Level()) && Value(regs, left) == Val(a) && Blank(gap)
    requires WellFormed(right) && Fits(right, op.Level() - 1) && Value(regs, right) == Val(b)
    ensures var e := Binary(op, left, gap, right);
            WellFormed(e) && Fits(e, op.Level()) && Value(regs, e) == Apply(op, a, b)
  {
    hide Apply, Blank;
  }

  lemma BinaryRendered(op: Op, left: Expr, gap: string, right: Expr, rest: string, s: string)
    requires s == [op.Symbol()] + gap + (Render(right) + rest)
    ensures Render(left) + s == Render(Binary(op, left, gap, right)) + rest
  {
    hide Op.Symbol;
    assert Render(Binary(op, left, gap, right)) == Render(left) + ([op.Symbol()] + gap + Render(right));
    hide Render;
    BinaryJoined(Render(left), [op.Symbol()], gap, Render(right), rest);
  }

  lemma BinaryJoined(l: string, o: string, g: string, r: string, rest: string)
    ensures l + (o + g + (r + rest)) == l + (o + g + r) + rest
  {
    assert o + g + (r + rest) == o + g + r + rest;
  }

  lemma OpRead(s: string)
    ensures OpAt(s).Some? ==> s != "" && s[0] == OpAt(s).value.Symbol()
  {
  }

  lemma NextIs(s: string)
    requires s != ""
    ensures Next(s) == SkipSpaces(s[1..]) && Blank(LeadingBlank(s[1..]))
    ensures s == [s[0]] + LeadingBlank(s[1..]) + Next(s)
  {
    BlankSkipped(s[1..]);
    assert s == [s[0]] + s[1..];
  }

  lemma {:induction false} AcceptedUnary(regs: Registers, s: string) returns (e: Expr)
    requires ParseUnary(regs, s).Ok?
    ensures Reads(regs, 0, s, ParseUnary(regs, s), e)
    decreases |s|, 0, 0
  {
    hide Next, Blank, LeadingBlank, ParseNumber, ParseChar, ParseRegister, Parse, WellFormed, Fits, Value, Render, Wrap;
    NextIs(s);
    var gap := LeadingBlank(s[1..]);
    if s[0] == '+' || s[0] == '-' || s[0] == '~' {
      var operand := Accepted(regs, 0, Next(s));
      var sign := if s[0] == '+' then Plus else if s[0] == '-' then Minus else Complement;
      e := Unary(sign, gap, operand);
      UnaryGrown(regs, sign, gap, operand, s, Parse(regs, 0, Next(s)));
    } else if s[0] == '(' {
      var inner := Accepted(regs, 3, Next(s));
      var rest := Parse(regs, 3, Next(s)).rest;
      NextIs(rest);
      e := Paren(gap, inner, LeadingBlank(rest[1..]));
      ParenGrown(regs, gap, inner, LeadingBlank(rest[1..]), s, Parse(regs, 3, Next(s)), Next(rest));
    } else if s[0] == '\'' {
      e := AcceptedChar(regs, s);
    } else if s[0] == '$' {
      e := AcceptedRegister(regs, s);
    } else {
      e := AcceptedNumber(regs, s);
    }
  }

  lemma UnaryGrown(regs: Registers, sign: Sign, gap: string, operand: Expr, s: string, r: Result)
    requires r.Ok? && WellFormed(operand) && Fits(operand, 0) && Value(regs, operand) == Val(r.value) && Blank(gap)
    requires s == [sign.Symbol()] + gap + (Render(operand) + r.rest)
    ensures Reads(regs, 0, s, Ok(sign.Of(r.value), r.rest), Unary(sign, gap, operand))
  {
    hide Blank, Wrap, Sign.Symbol;
    assert s == [sign.Symbol()] + gap + Render(operand) + r.rest;
  }

  lemma ParenGrown(regs: Registers, gap: string, inner: Expr, after: string, s: string, r: Result, rest: string)
    requires r.Ok? && WellFormed(inner) && Fits(inner, 3)
    requires Value(regs, inner) == Val(r.value) && Blank(gap) && Blank(after)
    requires s == "(" + gap + (Render(inner) + r.rest) && r.rest == ")" + after + rest
    ensures Reads(regs, 0, s, Ok(r.value, rest), Paren(gap, inner, after))
  {
    hide Blank;
    var e := Paren(gap, inner, after);
    assert WellFormed(e) && Fits(e, 0) && Value(regs, e) == Val(r.value);
    assert Render(e) == "(" + gap + Render(inner) + ")" + after;
    hide Render, WellFormed, Fits, Value;
    ParenJoined("(" + gap, Render(inner), ")", after, rest);
  }

  lemma ParenJoined(g: string, r: string, c: string, a: string, rest: string)
    ensures g + (r + (c + a + rest)) == g + r + c + a + rest
  {
    assert r + (c + a + rest) == r + c + a + rest;
  }

  lemma AcceptedChar(regs: Registers, s: string) returns (e: Expr)
    requires s != "" && s[0] == '\'' && ParseChar(s).Ok?
    ensures Reads(regs, 0, s, ParseChar(s), e)
  {
    var t := s[2..];
    NextIs(t);
    e := Char(s[1], LeadingBlank(t[1..]));
    assert s == [s[0], s[1]] + t;
  }

  lemma AcceptedRegister(regs: Registers, s: string) returns (e: Expr)
    requires s != "" && s[0] == '$' && ParseRegister(regs, s).Ok?
    ensures Reads(regs, 0, s, ParseRegister(regs, s), e)
  {
    hide WordPrefix, SkipSpaces, LeadingBlank, Cut, Word, Blank;
    WordPrefixIs(s[1..]);
    var name := WordPrefix(s[1..]);
    var tail := s[1 + |name|..];
    BlankSkipped(tail);
    assert s[1..][|name|..] == tail;
    e := Reg(name, LeadingBlank(tail));
    Reassembled(s, 1, name, tail, LeadingBlank(tail), SkipSpaces(tail));
    assert s[..1] == "$";
  }

  /** Whatever get_expr evaluates without an error was an expression with that value. */
  lemma ArgumentAccepted(regs: Registers, s: string) returns (e: Expr)
    requires GetExpr(regs, s).Ok?
    ensures WellFormed(e) && Fits(e, 3) && Value(regs, e) == Val(GetExpr(regs, s).value)
    ensures Blank(LeadingBlank(s)) && s == LeadingBlank(s) + Render(e) + GetExpr(regs, s).rest
  {
    hide Render, Value, WellFormed, Fits, Blank, LeadingBlank, SkipSpaces, Parse;
    BlankSkipped(s);
    e := Accepted(regs, 3, SkipSpaces(s));
  }

  /** What a command's argument evaluates to, and where the next argument is looked for. */
  lemma ArgumentEvaluated(regs: Registers, before: string, e: Expr, s: string)
    requires WellFormed(e) && Fits(e, 3) && Blank(before) && Separate(e, s) && OpAt(s).None?
    ensures var r := GetExpr(regs, before + Render(e) + s);
            match Value(regs, e) case Val(v) => r == Ok(v, s) case Bad(x) => r.Err? && r.error == x
  {
    hide Value, Render, IsSpace, WordChar;
    RenderStarts(e);
    assert before + Render(e) + s == before + (Render(e) + s);
    SkipBlank(before, Render(e) + s);
    RoundTrip(regs, e, 3, s);
  }

  // The tree is written so, needs no brackets at this level, and has this value.
  ghost predicate Means(regs: Registers, e: Expr, level: nat, s: string, v: int64) {
    WellFormed(e) && Fits(e, level) && Render(e) == s && Value(regs, e) == Val(v)
  }

  lemma ArgumentMeans(regs: Registers, e: Expr, s: string, v: int64)
    requires Means(regs, e, 3, s, v)
    ensures GetExpr(regs, s) == Ok(v, "")
  {
    assert "" + Render(e) + "" == s;
    hide Value, WellFormed, Fits, Render;
    ArgumentEvaluated(regs, "", e, "");
  }

  lemma NumMeans(regs: Registers, x: Literal)
    requires x.Valid() && x.Value() < TWO64
    ensures Means(regs, Num(x, ""), 0, x.Text(), Read(x))
  {
  }

  lemma BinaryMeans(regs: Registers, op: Op, level: nat, x: Expr, left: string, a: int64, y: Expr, right: string,
                    b: int64)
    requires op.Level() <= level && Apply(op, a, b).Val?
    requires Means(regs, x, op.Level(), left, a) && Means(regs, y, op.Level() - 1, right, b)
    ensures Means(regs, Binary(op, x, "", y), level, left + [op.Symbol()] + right, Apply(op, a, b).value)
  {
    hide Apply, Op.Symbol, Op.Level, Literal.Valid, Literal.Text, Literal.Value, Sign.Of, Sign.Symbol;
    hide Word, Cut, SignedChar, Wrap;
    Operands(op, left, right);
  }

  lemma Operands(op: Op, left: string, right: string)
    ensures left + ([op.Symbol()] + "" + right) == left + [op.Symbol()] + right
  {
  }

  lemma MeansLooser(regs: Registers, e: Expr, level: nat, looser: nat, s: string, v: int64)
    requires Means(regs, e, level, s, v) && level <= looser
    ensures Means(regs, e, looser, s, v)
  {
  }

  function Read(x: Literal): int64 {
    Wrap(x.Value())
  }

  // The result of one of the three operations on bits.
  function Bits(op: Op, a: int64, b: int64): int64
    requires op.And? || op.Or? || op.Xor?
  {
    Apply(op, a, b).value
  }

  /** The symbols of the operators. */
  lemma OneOperator(regs: Registers, x: Literal, y: Literal)
    requires x.Valid() && y.Valid() && x.Value() < TWO64 && y.Value() < TWO64
    ensures GetExpr(regs, x.Text() + "*" + y.Text()) == Ok(Wrap(Read(x) as int * Read(y) as int), "")
    ensures GetExpr(regs, x.Text() + "+" + y.Text()) == Ok(Wrap(Read(x) as int + Read(y) as int), "")
    ensures GetExpr(regs, x.Text() + "-" + y.Text()) == Ok(Wrap(Read(x) as int - Read(y) as int), "")
  {
    hide Wrap, GetExpr, Bitwise, Literal.Valid, Literal.Value, Literal.Text;
    Between(regs, Mul, x, y);
    Between(regs, Add, x, y);
    Between(regs, Sub, x, y);
  }

  lemma OneDivision(regs: Registers, x: Literal, y: Literal)
    requires x.Valid() && y.Valid() && x.Value() < TWO64 && 0 < y.Value() < 0x8000_0000_0000_0000
    ensures GetExpr(regs, x.Text() + "/" + y.Text()) == Ok(Wrap(Quotient(Read(x) as int, y.Value())), "")
    ensures GetExpr(regs, x.Text() + "%" + y.Text()) == Ok(Wrap(Remainder(Read(x) as int, y.Value())), "")
  {
    WrapInRange(y.Value());
    hide Wrap, Quotient, Remainder, GetExpr, Bitwise, Literal.Valid, Literal.Value, Literal.Text;
    Between(regs, Div, x, y);
    Between(regs, Mod, x, y);
  }

  lemma OneBitOperator(regs: Registers, x: Literal, y: Literal)
    requires x.Valid() && y.Valid() && x.Value() < TWO64 && y.Value() < TWO64
    ensures GetExpr(regs, x.Text() + "&" + y.Text()) == Ok(Bits(And, Read(x), Read(y)), "")
    ensures GetExpr(regs, x.Text() + "|" + y.Text()) == Ok(Bits(Or, Read(x), Read(y)), "")
    ensures GetExpr(regs, x.Text() + "^" + y.Text()) == Ok(Bits(Xor, Read(x), Read(y)), "")
  {
    hide Wrap, GetExpr, Bitwise, Literal.Valid, Literal.Value, Literal.Text;
    Between(regs, And, x, y);
    Between(regs, Or, x, y);
    Between(regs, Xor, x, y);
  }

  lemma Between(regs: Registers, op: Op, x: Literal, y: Literal)
    requires x.Valid() && y.Valid() && x.Value() < TWO64 && y.Value() < TWO64
    requires Apply(op, Read(x), Read(y)).Val?
    ensures GetExpr(regs, x.Text() + [op.Symbol()] + y.Text()) == Ok(Apply(op, Read(x), Read(y)).value, "")
  {
    hide Means, Apply, GetExpr, Literal.Valid, Literal.Value, Literal.Text, Op.Symbol;
    var left, right := Num(x, ""), Num(y, "");
    NumMeans(regs, x);
    NumMeans(regs, y);
    MeansLooser(regs, left, 0, op.Level(), x.Text(), Read(x));
    MeansLooser(regs, right, 0, op.Level() - 1, y.Text(), Read(y));
    BinaryMeans(regs, op, 3, left, x.Text(), Read(x), right, y.Text(), Read(y));
    ArgumentMeans(regs, Binary(op, left, "", right), x.Text() + [op.Symbol()] + y.Text(),
                  Apply(op, Read(x), Read(y)).value);
  }

  /** The symbols of the signs; they bind tighter than any operator. */
  lemma OneSign(regs: Registers, x: Literal, y: Literal)
    requires x.Valid() && y.Valid() && x.Value() < TWO64 && y.Value() < TWO64
    ensures GetExpr(regs, "+" + x.Text()) == Ok(Read(x), "")
    ensures GetExpr(regs, "-" + x.Text()) == Ok(Wrap(-(Read(x) as int)), "")
    ensures GetExpr(regs, "~" + x.Text()) == Ok(Wrap(-(Read(x) as int) - 1), "")
    ensures GetExpr(regs, "-" + x.Text() + "*" + y.Text())
         == Ok(Wrap(Wrap(-(Read(x) as int)) as int * Read(y) as int), "")
  {
    hide Means, Wrap, GetExpr, Literal.Valid, Literal.Value, Literal.Text;
    SignMeans(regs, Plus, x);
    SignMeans(regs, Minus, x);
    SignMeans(regs, Complement, x);
    var minus, v := Unary(Minus, "", Num(x, "")), Minus.Of(Read(x));
    NumMeans(regs, y);
    BinaryMeans(regs, Mul, 3, minus, "-" + x.Text(), v, Num(y, ""), y.Text(), Read(y));
    ArgumentMeans(regs, Binary(Mul, minus, "", Num(y, "")), "-" + x.Text() + "*" + y.Text(),
                  Wrap(v as int * Read(y) as int));
  }

  lemma SignMeans(regs: Registers, sign: Sign, x: Literal)
    requires x.Valid() && x.Value() < TWO64
    ensures Means(regs, Unary(sign, "", Num(x, "")), 1, [sign.Symbol()] + x.Text(), sign.Of(Read(x)))
    ensures GetExpr(regs, [sign.Symbol()] + x.Text()) == Ok(sign.Of(Read(x)), "")
  {
    hide Wrap, GetExpr, Literal.Valid, Literal.Value, Literal.Text, Sign.Symbol, Sign.Of;
    NumMeans(regs, x);
    var e := Unary(sign, "", Num(x, ""));
    assert [sign.Symbol()] + "" + x.Text() == [sign.Symbol()] + x.Text();
    assert Means(regs, e, 1, [sign.Symbol()] + x.Text(), sign.Of(Read(x)));
    hide Means;
    MeansLooser(regs, e, 1, 3, [sign.Symbol()] + x.Text(), sign.Of(Read(x)));
    ArgumentMeans(regs, e, [sign.Symbol()] + x.Text(), sign.Of(Read(x)));
  }

  /** Products bind tightest, then the operations on bits, then sums; what binds alike is grouped to the left. */
  lemma TwoOperators(regs: Registers, x: Literal, y: Literal, z: Literal)
    requires x.Valid() && y.Valid() && z.Valid()
    requires x.Value() < TWO64 && y.Value() < TWO64 && z.Value() < TWO64
    ensures GetExpr(regs, x.Text() + "-" + y.Text() + "*" + z.Text())
         == Ok(Wrap(Read(x) as int - Wrap(Read(y) as int * Read(z) as int) as int), "")
    ensures GetExpr(regs, x.Text() + "-" + y.Text() + "&" + z.Text())
         == Ok(Wrap(Read(x) as int - Bits(And, Read(y), Read(z)) as int), "")
    ensures GetExpr(regs, x.Text() + "&" + y.Text() + "*" + z.Text())
         == Ok(Bits(And, Read(x), Wrap(Read(y) as int * Read(z) as int)), "")
    ensures GetExpr(regs, x.Text() + "-" + y.Text() + "-" + z.Text())
         == Ok(Wrap(Wrap(Read(x) as int - Read(y) as int) as int - Read(z) as int), "")
  {
    hide Wrap, GetExpr, Bitwise, Literal.Valid, Literal.Value, Literal.Text;
    RightFirst(regs, Sub, x, Mul, y, z);
    RightFirst(regs, Sub, x, And, y, z);
    RightFirst(regs, And, x, Mul, y, z);
    LeftFirst(regs, Sub, x, y, z);
  }

  lemma RightFirst(regs: Registers, op: Op, x: Literal, tighter: Op, y: Literal, z: Literal)
    requires x.Valid() && y.Valid() && z.Valid() && tighter.Level() < op.Level()
    requires x.Value() < TWO64 && y.Value() < TWO64 && z.Value() < TWO64
    requires Apply(tighter, Read(y), Read(z)).Val? && Apply(op, Read(x), Apply(tighter, Read(y), Read(z)).value).Val?
    ensures GetExpr(regs, x.Text() + [op.Symbol()] + y.Text() + [tighter.Symbol()] + z.Text())
         == Ok(Apply(op, Read(x), Apply(tighter, Read(y), Read(z)).value).value, "")
  {
    hide Means, Apply, GetExpr, Literal.Valid, Literal.Value, Literal.Text, Op.Symbol;
    var first, second, third := Num(x, ""), Num(y, ""), Num(z, "");
    NumMeans(regs, x);
    NumMeans(regs, y);
    NumMeans(regs, z);
    MeansLooser(regs, first, 0, op.Level(), x.Text(), Read(x));
    MeansLooser(regs, second, 0, tighter.Level(), y.Text(), Read(y));
    MeansLooser(regs, third, 0, tighter.Level() - 1, z.Text(), Read(z));
    var text, v := y.Text() + [tighter.Symbol()] + z.Text(), Apply(tighter, Read(y), Read(z)).value;
    var right := Binary(tighter, second, "", third);
    BinaryMeans(regs, tighter, op.Level() - 1, second, y.Text(), Read(y), third, z.Text(), Read(z));
    BinaryMeans(regs, op, 3, first, x.Text(), Read(x), right, text, v);
    ArgumentMeans(regs, Binary(op, first, "", right), x.Text() + [op.Symbol()] + text, Apply(op, Read(x), v).value);
    Flat(x.Text() + [op.Symbol()], y.Text(), [tighter.Symbol()], z.Text());
  }

  lemma LeftFirst(regs: Registers, op: Op, x: Literal, y: Literal, z: Literal)
    requires x.Valid() && y.Valid() && z.Valid()
    requires x.Value() < TWO64 && y.Value() < TWO64 && z.Value() < TWO64
    requires Apply(op, Read(x), Read(y)).Val? && Apply(op, Apply(op, Read(x), Read(y)).value, Read(z)).Val?
    ensures GetExpr(regs, x.Text() + [op.Symbol()] + y.Text() + [op.Symbol()] + z.Text())
         == Ok(Apply(op, Apply(op, Read(x), Read(y)).value, Read(z)).value, "")
  {
    hide Means, Apply, GetExpr, Literal.Valid, Literal.Value, Literal.Text, Op.Symbol;
    var first, second, third := Num(x, ""), Num(y, ""), Num(z, "");
    NumMeans(regs, x);
    NumMeans(regs, y);
    NumMeans(regs, z);
    MeansLooser(regs, first, 0, op.Level(), x.Text(), Read(x));
    MeansLooser(regs, second, 0, op.Level() - 1, y.Text(), Read(y));
    MeansLooser(regs, third, 0, op.Level() - 1, z.Text(), Read(z));
    var text, v := x.Text() + [op.Symbol()] + y.Text(), Apply(op, Read(x), Read(y)).value;
    BinaryMeans(regs, op, op.Level(), first, x.Text(), Read(x), second, y.Text(), Read(y));
    var left := Binary(op, first, "", second);
    BinaryMeans(regs, op, 3, left, text, v, third, z.Text(), Read(z));
    ArgumentMeans(regs, Binary(op, left, "", third), text + [op.Symbol()] + z.Text(), Apply(op, v, Read(z)).value);
  }

  lemma Flat(a: string, b: string, c: string, d: string)
    ensures a + (b + c + d) == a + b + c + d
  {
  }

  /** Brackets put around operands that bind too loosely. */
  function Bracket(e: Expr, level: nat): Expr {
    match e
    case Unary(sign, before, operand) => Unary(sign, before, Bracket(operand, 0))
    case Paren(before, inner, gap) => Paren(before, Bracket(inner, 3), gap)
    case Binary(op, left, before, right) =>
      var b := Binary(op, Bracket(left, op.Level()), before, Bracket(right, op.Level() - 1));
      if op.Level() <= level then b else Paren("", b, "")
    case _ => e
  }

  /** So every tree whatever can be written down, and is then read as itself. */
  lemma {:induction false} BracketFits(regs: Registers, e: Expr, level: nat)
    requires WellFormed(e)
    ensures var b := Bracket(e, level); WellFormed(b) && Fits(b, level) && Value(regs, b) == Value(regs, e)
  {
    hide Literal.Valid, Apply, SignedChar, Wrap;
    match e
    case Unary(_, _, operand) => BracketFits(regs, operand, 0);
    case Paren(_, inner, _) => BracketFits(regs, inner, 3);
    case Binary(op, left, _, right) =>
      BracketFits(regs, left, op.Level());
      BracketFits(regs, right, op.Level() - 1);
    case _ =>
  }

  predicate Small(x: int) {
    -0x8000_0000_0000_0000 <= x < 0x8000_0000_0000_0000
  }

  /** The value over all integers, as long as no intermediate one leaves 64 bits. */
  function Exact(regs: Registers, e: Expr): (r: Option<int>)
    ensures r.Some? ==> Small(r.value)
  {
    match e
    case Num(l, _) => Checked(l.Value())
    case Char(c, _) => Some(SignedChar(c) as int)
    case Reg(name, _) => (match regs(Cut(name)) case Some(v) => Some(v as int) case None => None)
    case Paren(_, inner, _) => Exact(regs, inner)
    case Unary(sign, _, operand) =>
      var x := Exact(regs, operand);
      if x.None? then None
      else (match sign case Plus => x case Minus => Checked(-x.value) case Complement => Some(-x.value - 1))
    case Binary(op, left, _, right) =>
      var a, b := Exact(regs, left), Exact(regs, right);
      if a.None? || b.None? then None
      else ExactOp(op, a.value, b.value)
  }

  function ExactOp(op: Op, a: int, b: int): (r: Option<int>)
    requires Small(a) && Small(b)
    ensures r.Some? ==> Small(r.value)
  {
    hide Quotient, Remainder;
    match op
    case Add => Checked(a + b)
    case Sub => Checked(a - b)
    case Mul => Checked(a * b)
    case Div => if b == 0 then None else Checked(Quotient(a, b))
    case Mod => if b == 0 || Quotient(a, b) == 0x8000_0000_0000_0000 then None else Checked(Remainder(a, b))
    case And => Some(Wrap(Assembled(And, a, b, 64)) as int)
    case Or => Some(Wrap(Assembled(Or, a, b, 64)) as int)
    case Xor => Some(Wrap(Assembled(Xor, a, b, 64)) as int)
  }

  // The number whose bits below n are those of the operation on the bits of a and b.
  function Assembled(op: Op, a: int, b: int, n: nat): nat {
    if n == 0 then 0 else Assembled(op, a, b, n - 1) + Pow2(n - 1) * OpBit(op, BitAt(a, n - 1), BitAt(b, n - 1))
  }

  function Checked(x: int): (r: Option<int>)
    ensures r.Some? ==> Small(r.value)
  {
    if Small(x) then Some(x) else None
  }

  /** The division of C: it rounds towards zero and the remainder has the sign of the dividend. */
  lemma TruncatedDivision(a: int, b: int)
    requires b != 0
    ensures a == Quotient(a, b) * b + Remainder(a, b)
    ensures -Magnitude(b) < Remainder(a, b) < Magnitude(b)
    ensures a >= 0 ==> Remainder(a, b) >= 0
    ensures a <= 0 ==> Remainder(a, b) <= 0
  {
  }

  function Magnitude(x: int): int {
    if x < 0 then -x else x
  }

  // The one quotient of small numbers that is not small.
  lemma QuotientTraps(a: int, b: int)
    requires Small(a) && Small(b) && b != 0
    ensures Quotient(a, b) == 0x8000_0000_0000_0000 <==> a == -0x8000_0000_0000_0000 && b == -1
  {
  }

  lemma ExactApply(op: Op, a: int, b: int)
    requires Small(a) && Small(b) && ExactOp(op, a, b).Some?
    ensures Apply(op, a as int64, b as int64) == Val(ExactOp(op, a, b).value as int64)
  {
    if op.Div? || op.Mod? {
      QuotientTraps(a, b);
    }
    hide Quotient, Remainder, Bitwise, Assembled;
    if op.And? || op.Or? || op.Xor? {
      AssembledIs(op, a, b, 64);
    } else {
      WrapInRange(ExactOp(op, a, b).value);
    }
    hide Wrap;
  }

  // Bit operations ----------------------------------------------------------------

  lemma MultipleBound(x: int, p: int)
    requires p > 0
    ensures x > 0 ==> x * p >= p
    ensures x < 0 ==> x * p <= -p
  {
  }

  lemma QuotientOf(x: nat, q: nat, h: nat, p: nat)
    requires h < p && x == q * p + h
    ensures x / p == q
  {
    var k, m := x / p, x % p;
    assert x == p * k + m;
    MultipleBound(k - q, p);
    assert (k - q) * p == h - m;
  }

  lemma HalfTwice(x: nat, p: nat)
    requires p > 0
    ensures x / (2 * p) == x / 2 / p
  {
    var q, h := x / 2 / p, x / 2 % p;
    assert x / 2 == p * q + h;
    var r := 2 * h + x % 2;
    assert x == q * (2 * p) + r;
    QuotientOf(x, q, r, 2 * p);
  }

  lemma {:induction false} BitwiseBit(op: Op, a: nat, b: nat, n: nat, i: nat)
    requires i < n
    ensures Bitwise(op, a, b, n) / Pow2(i) % 2 == OpBit(op, a / Pow2(i) % 2, b / Pow2(i) % 2)
    decreases n
  {
    hide OpBit;
    var rest := Bitwise(op, a / 2, b / 2, n - 1);
    var whole := OpBit(op, a % 2, b % 2) + 2 * rest;
    assert whole / 2 == rest && whole % 2 == OpBit(op, a % 2, b % 2);
    hide Bitwise;
    if i == 0 {
      assert Pow2(0) == 1;
    } else {
      BitwiseBit(op, a / 2, b / 2, n - 1, i - 1);
      HalfTwice(whole, Pow2(i - 1));
      HalfTwice(a, Pow2(i - 1));
      HalfTwice(b, Pow2(i - 1));
    }
  }

  lemma {:induction false} BitwiseBelow(op: Op, a: nat, b: nat, n: nat)
    ensures Bitwise(op, a, b, n) < Pow2(n)
  {
    hide OpBit;
    if n > 0 {
      BitwiseBelow(op, a / 2, b / 2, n - 1);
    }
  }

  lemma BitIs(op: Op, a: nat, b: nat)
    requires a < 2 && b < 2
    ensures op.And? ==> (OpBit(op, a, b) == 1 <==> a == 1 && b == 1)
    ensures op.Or? ==> (OpBit(op, a, b) == 1 <==> a == 1 || b == 1)
    ensures op.Xor? ==> (OpBit(op, a, b) == 1 <==> (a == 1) != (b == 1))
  {
  }

  /** Every bit of the result is the operation on the two bits there. */
  lemma ApplyBits(op: Op, a: int64, b: int64, i: nat)
    requires (op.And? || op.Or? || op.Xor?) && i < 64
    ensures Apply(op, a, b).Val?
    ensures BitAt(Apply(op, a, b).value as int, i) == OpBit(op, BitAt(a as int, i), BitAt(b as int, i))
    ensures var bit := BitAt(Apply(op, a, b).value as int, i) == 1;
            var x, y := BitAt(a as int, i) == 1, BitAt(b as int, i) == 1;
            (op.And? ==> (bit <==> x && y)) && (op.Or? ==> (bit <==> x || y)) && (op.Xor? ==> (bit <==> x != y))
  {
    BitIs(op, BitAt(a as int, i), BitAt(b as int, i));
    hide OpBit, Wrap, Bitwise, Pow2;
    var x, y := a as int % TWO64, b as int % TWO64;
    BitwiseBit(op, x, y, 64, i);
    BitwiseBelow(op, x, y, 64);
    TwoTo64();
    BitOfWrapped(Bitwise(op, x, y, 64), i);
    hide BitAt;
    assert BitAt(a as int, i) == x / Pow2(i) % 2 by { BitOfReduced(a as int, i); }
    assert BitAt(b as int, i) == y / Pow2(i) % 2 by { BitOfReduced(b as int, i); }
  }

  lemma BitOfReduced(a: int, i: nat)
    ensures BitAt(a, i) == a % TWO64 / Pow2(i) % 2
  {
    hide Pow2;
  }

  lemma BitOfWrapped(w: nat, i: nat)
    requires w < TWO64
    ensures BitAt(Wrap(w) as int, i) == w / Pow2(i) % 2
  {
    hide Wrap, Pow2;
    WrapIs(w);
  }

  lemma TwoTo64()
    ensures Pow2(64) == TWO64
  {
    assert Pow2(8) == 0x100;
    assert Pow2(16) == 0x1_0000;
    assert Pow2(24) == 0x100_0000;
    assert Pow2(32) == 0x1_0000_0000;
    assert Pow2(40) == 0x100_0000_0000;
    assert Pow2(48) == 0x1_0000_0000_0000;
    assert Pow2(56) == 0x100_0000_0000_0000;
  }

  lemma {:induction false} AssembledIs(op: Op, a: int, b: int, n: nat)
    ensures Assembled(op, a, b, n) == Bitwise(op, a % TWO64, b % TWO64, n)
  {
    hide OpBit, Bitwise, Pow2;
    if n > 0 {
      AssembledIs(op, a, b, n - 1);
      BitwiseSnoc(op, a % TWO64, b % TWO64, n);
    } else {
      NoBits(op, a % TWO64, b % TWO64);
    }
  }

  lemma NoBits(op: Op, a: nat, b: nat)
    ensures Bitwise(op, a, b, 0) == 0
  {
  }

  lemma {:induction false} BitwiseSnoc(op: Op, a: nat, b: nat, n: nat)
    requires n > 0
    ensures Bitwise(op, a, b, n)
         == Bitwise(op, a, b, n - 1) + Pow2(n - 1) * OpBit(op, a / Pow2(n - 1) % 2, b / Pow2(n - 1) % 2)
    decreases n
  {
    hide OpBit;
    if n == 1 {
      assert Pow2(0) == 1;
      NoBits(op, a / 2, b / 2);
    } else {
      BitwiseSnoc(op, a / 2, b / 2, n - 1);
      HalfTwice(a, Pow2(n - 2));
      HalfTwice(b, Pow2(n - 2));
      var top := OpBit(op, a / Pow2(n - 1) % 2, b / Pow2(n - 1) % 2);
      assert Pow2(n - 1) * top == 2 * (Pow2(n - 2) * top);
    }
  }

  /** Where nothing leaves 64 bits, the evaluator computes with integers. */
  lemma {:induction false} ExactValue(regs: Registers, e: Expr)
    requires Exact(regs, e).Some?
    ensures Value(regs, e) == Val(Exact(regs, e).value as int64)
  {
    match e
    case Num(l, _) => WrapInRange(l.Value());
    case Paren(_, inner, _) => ExactValue(regs, inner);
    case Unary(sign, _, operand) =>
      ExactValue(regs, operand);
      WrapInRange(Exact(regs, e).value);
    case Binary(op, left, _, right) =>
      hide ExactOp, Apply;
      ExactValue(regs, left);
      ExactValue(regs, right);
      ExactApply(op, Exact(regs, left).value, Exact(regs, right).value);
    case _ =>
  }

  class Evaluator {
    const regs: Registers
    var pch: string

    constructor (regs: Registers, line: string)
      ensures this.regs == regs && pch == line
    {
      this.regs, pch := regs, line;
    }

    ghost function Ended(o: Outcome): Result
      reads this
    {
      match o case Val(v) => Ok(v, pch) case Bad(e) => Err(e, pch)
    }

    method Skip()
      modifies this`pch
      ensures pch == SkipSpaces(old(pch))
    {
      while pch != "" && IsSpace(pch[0])
        invariant SkipSpaces(pch) == SkipSpaces(old(pch))
        decreases |pch|
      {
        pch := pch[1..];
      }
    }

    method Advance()
      modifies this`pch
      ensures pch == Next(old(pch))
    {
      if pch != "" {
        pch := pch[1..];
        Skip();
      }
    }

    method ExprSum() returns (o: Outcome)
      modifies this`pch
      ensures Ended(o) == Parse(regs, 3, old(pch))
      decreases |pch|, 3
    {
      hide Apply, ParseUnary, Next;
      o := ExprLogic();
      while o.Val? && OpAt(pch).Some? && OpAt(pch).value.Level() == 3
        invariant |pch| <= |old(pch)|
        invariant Parse(regs, 3, old(pch)) == if o.Val? then Loop(regs, 3, o.value, pch) else Ended(o)
        decreases |pch|
      {
        var op := OpAt(pch).value;
        Advance();
        var o2 := ExprLogic();
        o := if o2.Val? then Apply(op, o.value, o2.value) else o2;
      }
    }

    method ExprLogic() returns (o: Outcome)
      modifies this`pch
      ensures Ended(o) == Parse(regs, 2, old(pch))
      decreases |pch|, 2
    {
      hide Apply, ParseUnary, Next;
      o := ExprProd();
      while o.Val? && OpAt(pch).Some? && OpAt(pch).value.Level() == 2
        invariant |pch| <= |old(pch)|
        invariant Parse(regs, 2, old(pch)) == if o.Val? then Loop(regs, 2, o.value, pch) else Ended(o)
        decreases |pch|
      {
        var op := OpAt(pch).value;
        Advance();
        var o2 := ExprProd();
        o := if o2.Val? then Apply(op, o.value, o2.value) else o2;
      }
    }

    method ExprProd() returns (o: Outcome)
      modifies this`pch
      ensures Ended(o) == Parse(regs, 1, old(pch))
      decreases |pch|, 1
    {
      hide Apply, ParseUnary, Next;
      o := ExprUnary();
      while o.Val? && OpAt(pch).Some? && OpAt(pch).value.Level() == 1
        invariant |pch| <= |old(pch)|
        invariant Parse(regs, 1, old(pch)) == if o.Val? then Loop(regs, 1, o.value, pch) else Ended(o)
        decreases |pch|
      {
        var op := OpAt(pch).value;
        Advance();
        var o2 := ExprUnary();
        o := if o2.Val? then Apply(op, o.value, o2.value) else o2;
      }
    }

    method ExprUnary() returns (o: Outcome)
      modifies this`pch
      ensures Ended(o) == Parse(regs, 0, old(pch))
      decreases |pch|, 0
    {
      hide ParseNumber, Wrap, Next;
      if pch == "" {
        return Bad(UnexpectedEnd);
      }
      match pch[0]
      case '+' =>
        Advance();
        o := ExprUnary();
      case '-' =>
        Advance();
        o := ExprUnary();
        o := if o.Val? then Val(Minus.Of(o.value)) else o;
      case '~' =>
        Advance();
        o := ExprUnary();
        o := if o.Val? then Val(Complement.Of(o.value)) else o;
      case '(' =>
        Advance();
        o := ExprSum();
        if o.Val? {
          if pch == "" || pch[0] != ')' {
            return Bad(MissingParen);
          }
          Advance();
        }
      case '\'' => o := CharConstant();
      case '$' => o := Register();
      case _ =>
        var r := ParseNumber(pch);
        pch := r.rest;
        o := if r.Ok? then Val(r.value) else Bad(r.error);
    }

    method CharConstant() returns (o: Outcome)
      requires pch != ""
      modifies this`pch
      ensures Ended(o) == ParseChar(old(pch))
    {
      pch := pch[1..];
      if pch == "" {
        return Bad(MissingChar);
      }
      var n := SignedChar(pch[0]);
      pch := pch[1..];
      if pch == "" || pch[0] != '\'' {
        return Bad(MissingQuote);
      }
      Advance();
      return Val(n);
    }

    method Register() returns (o: Outcome)
      requires pch != ""
      modifies this`pch
      ensures Ended(o) == ParseRegister(regs, old(pch))
    {
      hide SkipSpaces;
      pch := pch[1..];
      var buf := CopyName();
      Skip();
      var reg := regs(buf);
      o := if reg.Some? then Val(reg.value) else Bad(UnknownRegister);
    }

    method CopyName() returns (buf: string)
      modifies this`pch
      ensures buf == Cut(WordPrefix(old(pch))) && pch == old(pch)[|WordPrefix(old(pch))|..]
    {
      hide WordChar, Cut, WordPrefix;
      ghost var start, taken := pch, "";
      CutShort("");
      buf := "";
      while pch != "" && WordChar(pch[0])
        invariant start == taken + pch && WordPrefix(start) == taken + WordPrefix(pch) && buf == Cut(taken)
        decreases |pch|
      {
        CutSnoc(taken, pch[0]);
        WordPrefixStep(pch);
        taken := taken + [pch[0]];
        if |buf| < NAME_MAX {
          buf := buf + [pch[0]];
        }
        pch := pch[1..];
      }
      WordPrefixStep(pch);
      assert taken + "" == taken;
    }

    // get_expr
    method Evaluate() returns (o: Outcome)
      modifies this`pch
      ensures Ended(o) == GetExpr(regs, old(pch))
    {
      Skip();
      o := ExprSum();
    }
  }
}
