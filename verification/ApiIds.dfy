/**
 The printed form of the counters in the API: `run_7`, `tool_batch_12` and so on.
 A printed id reads back as the number it was printed from.
 */
module ApiIds {
  import opened Wrappers

  const U64_LIMIT := 0x1_0000_0000_0000_0000

  type U64 = n: nat | n < U64_LIMIT

  type RunId = U64

  type ToolBatchId = U64

  predicate IsDigit(c: char) {
    '0' <= c <= '9'
  }

  function Digit(d: nat): (c: char)
    requires d < 10
    ensures IsDigit(c) && c as int == '0' as int + d
  {
    ('0' as int + d) as char
  }

  function Decimal(n: nat): (s: string)
    ensures |s| > 0 && forall i :: 0 <= i < |s| ==> IsDigit(s[i])
    ensures n > 0 ==> s[0] != '0'
  {
    if n < 10 then [Digit(n)] else Decimal(n / 10) + [Digit(n % 10)]
  }

  function DigitsValue(s: string): nat
    requires forall i :: 0 <= i < |s| ==> IsDigit(s[i])
  {
    if s == [] then 0
    else assert IsDigit(s[|s| - 1]); DigitsValue(s[..|s| - 1]) * 10 + (s[|s| - 1] as int - '0' as int)
  }

  lemma {:induction false} DecimalValue(n: nat)
    ensures DigitsValue(Decimal(n)) == n
  {
    if n >= 10 {
      DecimalValue(n / 10);
      assert Decimal(n)[..|Decimal(n)| - 1] == Decimal(n / 10);
    }
  }

  datatype IdError = WrongPrefix | NotANumber | Overflow

  function AfterSign(s: string): string {
    if |s| > 0 && s[0] == '+' then s[1..] else s
  }

  /** Rust's `str::parse::<u64>`: an optional plus sign, then digits, leading zeros allowed. */
  function ParseU64(s: string): Result<U64, IdError> {
    var digits := AfterSign(s);
    if digits == [] || exists i :: 0 <= i < |digits| && !IsDigit(digits[i]) then Err(NotANumber)
    else if DigitsValue(digits) >= U64_LIMIT then Err(Overflow)
    else Ok(DigitsValue(digits))
  }

  function Printed(prefix: string, id: U64): string {
    prefix + Decimal(id)
  }

  function ParsePrinted(prefix: string, value: string): Result<U64, IdError> {
    if prefix <= value then ParseU64(value[|prefix|..]) else Err(WrongPrefix)
  }

  function ApiRunId(id: RunId): string {
    Printed("run_", id)
  }

  function ParseApiRunId(value: string): Result<RunId, IdError> {
    ParsePrinted("run_", value)
  }

  function ApiToolBatchId(id: ToolBatchId): string {
    Printed("tool_batch_", id)
  }

  lemma PrintedReadsBack(prefix: string, id: U64)
    ensures ParsePrinted(prefix, Printed(prefix, id)) == Ok(id)
  {
    DecimalValue(id);
    assert Printed(prefix, id)[|prefix|..] == Decimal(id);
  }

  /** Looking up a batch by its printed id is looking it up by its number. */
  lemma ToolBatchIdInjective(a: ToolBatchId, b: ToolBatchId)
    ensures ApiToolBatchId(a) == ApiToolBatchId(b) <==> a == b
  {
    PrintedReadsBack("tool_batch_", a);
    PrintedReadsBack("tool_batch_", b);
  }

  lemma SignedDigitsRead(digits: string, plus: bool)
    requires digits != [] && (forall i :: 0 <= i < |digits| ==> IsDigit(digits[i])) && DigitsValue(digits) < U64_LIMIT
    ensures ParseU64((if plus then ['+'] else []) + digits) == Ok(DigitsValue(digits))
  {
    var s := (if plus then ['+'] else []) + digits;
    if plus {
      assert s[1..] == digits;
    } else {
      assert s == digits && IsDigit(s[0]);
    }
  }

  /** Every id the API prints is one it reads, and a decimal with a sign or leading zeros is read too. */
  lemma LeadingZerosReadTheSame(prefix: string, zeros: nat, id: U64, plus: bool)
    ensures ParsePrinted(prefix, prefix + ((if plus then ['+'] else []) + (seq(zeros, _ => '0') + Decimal(id)))) == Ok(id)
  {
    var digits := seq(zeros, _ => '0') + Decimal(id);
    ZerosAddNothing(zeros, Decimal(id));
    DecimalValue(id);
    SignedDigitsRead(digits, plus);
    var value := (if plus then ['+'] else []) + digits;
    assert (prefix + value)[|prefix|..] == value;
  }

  lemma DecimalGrows(n: nat, last: char)
    requires IsDigit(last)
    ensures Decimal(n * 10 + (last as int - '0' as int)) == if n == 0 then [last] else Decimal(n) + [last]
  {
    assert Digit(last as int - '0' as int) == last;
  }

  lemma ZerosGrow(zeros: nat)
    ensures seq(zeros, _ => '0') + ['0'] == seq(zeros + 1, _ => '0')
    ensures Decimal(0) == ['0']
  {
  }

  /** Digits are zeros and then the decimal of their value. */
  lemma {:induction false} DigitsAreZerosAndDecimal(digits: string) returns (zeros: nat)
    requires digits != [] && forall i :: 0 <= i < |digits| ==> IsDigit(digits[i])
    ensures digits == seq(zeros, _ => '0') + Decimal(DigitsValue(digits))
  {
    var n := |digits| - 1;
    var init, last := digits[..n], digits[n];
    assert digits == init + [last] && IsDigit(last);
    DecimalGrows(DigitsValue(init), last);
    hide Decimal, IsDigit;
    zeros := 0;
    if n > 0 {
      zeros := DigitsAreZerosAndDecimal(init);
      if DigitsValue(init) == 0 {
        ZerosGrow(zeros);
        zeros := zeros + 1;
      } else {
        assert digits == seq(zeros, _ => '0') + (Decimal(DigitsValue(init)) + [last]);
      }
    } else {
      assert init == [];
    }
  }

  lemma TakenDigits(s: string)
    requires ParseU64(s).Ok?
    ensures AfterSign(s) != [] && (forall i :: 0 <= i < |AfterSign(s)| ==> IsDigit(AfterSign(s)[i]))
    ensures ParseU64(s).value == DigitsValue(AfterSign(s))
  {
    hide AfterSign;
  }

  /** And it reads nothing else: what it takes is the prefix, a plus sign or none, zeros, and the id in decimal. */
  lemma ReadsNothingElse(prefix: string, value: string) returns (plus: bool, zeros: nat)
    requires ParsePrinted(prefix, value).Ok?
    ensures value == prefix + ((if plus then ['+'] else []) + (seq(zeros, _ => '0') + Decimal(ParsePrinted(prefix, value).value)))
  {
    var rest := value[|prefix|..];
    plus := |rest| > 0 && rest[0] == '+';
    TakenDigits(rest);
    zeros := DigitsAreZerosAndDecimal(AfterSign(rest));
    assert rest == (if plus then ['+'] else []) + AfterSign(rest);
    assert value == prefix + rest;
  }

  /** The printed forms. */
  lemma PrintedForms(id: U64)
    ensures ApiRunId(id) == "run_" + Decimal(id) && ApiToolBatchId(id) == "tool_batch_" + Decimal(id)
    ensures ParseApiRunId("run_" + Decimal(id)) == Ok(id)
  {
    PrintedReadsBack("run_", id);
  }

  lemma {:induction false} ZerosAddNothing(zeros: nat, digits: string)
    requires forall i :: 0 <= i < |digits| ==> IsDigit(digits[i])
    ensures DigitsValue(seq(zeros, _ => '0') + digits) == DigitsValue(digits)
    decreases zeros + |digits|
  {
    var whole := seq(zeros, _ => '0') + digits;
    if digits != [] {
      ZerosAddNothing(zeros, digits[..|digits| - 1]);
      assert whole[..|whole| - 1] == seq(zeros, _ => '0') + digits[..|digits| - 1];
    } else if zeros > 0 {
      ZerosAddNothing(zeros - 1, []);
      assert whole[..|whole| - 1] == seq(zeros - 1, _ => '0') + [];
    }
  }
}
