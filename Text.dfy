/** The string operations the process viewer relies on: substring search,
    whitespace trimming of the search text, and the decimal conversions
    between process identifiers and `/proc` directory names. */
module Text {
  import opened CTypes

  /** `isspace` in the C locale, also what `wxString::Trim` strips. */
  predicate IsSpace(c: char) {
    c == ' ' || c == '\t' || c == '\n' || c == '\U{000B}' || c == '\U{000C}' || c == '\r'
  }

  predicate IsDigit(c: char) {
    '0' <= c <= '9'
  }

  predicate AllDigits(s: string) {
    forall k :: 0 <= k < |s| ==> IsDigit(s[k])
  }

  predicate AllSpaces(s: string) {
    forall k :: 0 <= k < |s| ==> IsSpace(s[k])
  }

  /** `hay.find(needle) != npos`: `needle` occurs somewhere in `hay`.
      Case-sensitive; the empty needle occurs in every string. */
  predicate Contains(hay: string, needle: string) {
    exists i :: 0 <= i <= |hay| && needle <= hay[i..]
  }

  lemma ContainsItself(s: string)
    ensures Contains(s, s)
  {
    assert s <= s[0..];
  }

  /** A string shorter than the needle cannot contain it. */
  lemma ShorterDoesNotContain(hay: string, needle: string)
    requires |hay| < |needle|
    ensures !Contains(hay, needle)
  {
  }

  /** Number of whitespace characters at the front of `s`. */
  function LeadingSpaces(s: string): (n: nat)
    ensures n <= |s|
    ensures forall k :: 0 <= k < n ==> IsSpace(s[k])
    ensures n < |s| ==> !IsSpace(s[n])
  {
    if s != [] && IsSpace(s[0]) then 1 + LeadingSpaces(s[1..]) else 0
  }

  /** Number of whitespace characters at the back of `s`. */
  function TrailingSpaces(s: string): (n: nat)
    ensures n <= |s|
    ensures forall k :: |s| - n <= k < |s| ==> IsSpace(s[k])
    ensures n < |s| ==> !IsSpace(s[|s| - 1 - n])
  {
    if s != [] && IsSpace(s[|s| - 1]) then 1 + TrailingSpaces(s[..|s| - 1]) else 0
  }

  /** `Trim(true).Trim(false)` of wxString: whitespace removed from the
      right end, then from the left end. The result is empty exactly when
      the text was all whitespace, it neither starts nor ends with
      whitespace, and it is the original text with only whitespace removed
      before and after it. */
  function Trim(s: string): (r: string)
    ensures r == [] <==> AllSpaces(s)
    ensures r != [] ==> !IsSpace(r[0]) && !IsSpace(r[|r| - 1])
    ensures exists a, b :: 0 <= a <= b <= |s| && r == s[a..b] && AllSpaces(s[..a]) && AllSpaces(s[b..])
  {
    var b := |s| - TrailingSpaces(s);
    var right := s[..b];
    var a := LeadingSpaces(right);
    var r := right[a..];
    assert r == s[a..b];
    assert s[..a] == right[..a];
    r
  }

  function DigitValue(c: char): int {
    c as int - '0' as int
  }

  /** The value of a string of decimal digits, most significant first. */
  function DecimalValue(digits: string): (v: nat)
    requires AllDigits(digits)
  {
    if digits == [] then 0
    else DecimalValue(digits[..|digits| - 1]) * 10 + DigitValue(digits[|digits| - 1])
  }

  /** `std::to_string(n)` / `%ld` for a non-negative number: its decimal
      rendering without sign, leading zeros or padding. */
  function DecimalText(n: nat): (s: string)
    ensures s != [] && AllDigits(s)
    ensures s[0] != '0' || n == 0
  {
    var last := ['0' + (n % 10) as char];
    if n < 10 then last else DecimalText(n / 10) + last
  }

  /** `strtol(name, &end, 10)` followed by the test `*end == '\0'`:
      the value when the test passes, None when it fails. strtol skips
      leading whitespace, takes an optional sign and then as many digits as
      follow, clamping to the range of `long`; when no digit follows, no
      conversion happens and `end` is the start of `name`, so the test then
      passes only for the empty name (with value 0). */
  function Strtol10Whole(name: string): (r: Option<int>)
    ensures r.Some? ==> LongMin <= r.value <= LongMax
    ensures name == [] ==> r == Some(0)
  {
    var digits := DigitsAfterSign(name);
    if digits == [] then
      if name == [] then Some(0) else None
    else if AllDigits(digits) then
      Some(NumeralValue(SignOf(name[LeadingSpaces(name)..]), digits))
    else None
  }

  /** `name` splits into whitespace, an optional sign and a non-empty run
      of digits: the shape of a number strtol reads to the very end. */
  ghost predicate NumeralParts(name: string, spaces: string, sign: string, digits: string) {
    name == spaces + sign + digits && AllSpaces(spaces) &&
    (sign == [] || sign == ['+'] || sign == ['-']) &&
    digits != [] && AllDigits(digits)
  }

  /** The value strtol gives such a numeral: the signed digits, clamped to
      the range of `long`. */
  function NumeralValue(sign: string, digits: string): int
    requires AllDigits(digits)
  {
    var v: int := DecimalValue(digits);
    if sign == ['-'] then (if -v < LongMin then LongMin else -v)
    else (if v > LongMax then LongMax else v)
  }

  /** A name passes `*endptr == '\0'` exactly when it is empty or a whole
      numeral: "12 ", "1x", "+", " " and "." all fail. */
  lemma StrtolAcceptsExactlyNumerals(name: string)
    ensures Strtol10Whole(name).Some? <==>
            name == [] || exists spaces, sign, digits :: NumeralParts(name, spaces, sign, digits)
  {
    if Strtol10Whole(name).Some? && name != [] {
      AcceptedHasDigits(name);
      var spaces, sign, digits := NameParts(name);
    }
    if exists spaces, sign, digits :: NumeralParts(name, spaces, sign, digits) {
      var spaces, sign, digits :| NumeralParts(name, spaces, sign, digits);
      StrtolReadsNumeral(spaces, sign, digits);
    }
  }

  /** What follows the whitespace and the optional sign of `name`. */
  function DigitsAfterSign(name: string): string {
    var rest := name[LeadingSpaces(name)..];
    rest[|SignOf(rest)|..]
  }

  /** A non-empty name is accepted only when digits, and nothing else,
      follow the whitespace and the optional sign. */
  lemma AcceptedHasDigits(name: string)
    requires name != [] && Strtol10Whole(name).Some?
    ensures DigitsAfterSign(name) != [] && AllDigits(DigitsAfterSign(name))
  {
  }

  /** The name cut where strtol cuts it: whitespace, sign, digits. */
  lemma NameParts(name: string) returns (spaces: string, sign: string, digits: string)
    requires DigitsAfterSign(name) != [] && AllDigits(DigitsAfterSign(name))
    ensures NumeralParts(name, spaces, sign, digits)
  {
    var lead := LeadingSpaces(name);
    spaces := name[..lead];
    assert AllSpaces(spaces) by {
      forall k | 0 <= k < |spaces| ensures IsSpace(spaces[k]) {
        assert spaces[k] == name[k];
      }
    }
    sign := SignOf(name[lead..]);
    digits := DigitsAfterSign(name);
    assert name == spaces + name[lead..];
  }

  /** The sign strtol takes from the text after the whitespace, if any;
      what follows it is `DigitsAfterSign`. */
  function SignOf(rest: string): (sign: string)
    ensures sign == [] || sign == ['+'] || sign == ['-']
    ensures |sign| <= |rest| && rest == sign + rest[|sign|..]
  {
    if rest != [] && (rest[0] == '-' || rest[0] == '+') then rest[..1] else []
  }

  /** A whole numeral is read as its signed, clamped value. */
  lemma StrtolReadsNumeral(spaces: string, sign: string, digits: string)
    requires NumeralParts(spaces + sign + digits, spaces, sign, digits)
    ensures Strtol10Whole(spaces + sign + digits) == Some(NumeralValue(sign, digits))
  {
    var name := spaces + sign + digits;
    SkipsExactlySpaces(spaces, sign + digits);
    assert name == spaces + (sign + digits);
    assert name[|spaces|..] == sign + digits;
    StrtolAfterSpaces(name, sign, digits);
  }

  /** strtol's whitespace skip stops at the first character that is not
      whitespace. */
  lemma SkipsExactlySpaces(spaces: string, tail: string)
    requires AllSpaces(spaces) && tail != [] && !IsSpace(tail[0])
    ensures LeadingSpaces(spaces + tail) == |spaces|
  {
    var name := spaces + tail;
    var n := LeadingSpaces(name);
    assert name[|spaces|] == tail[0];
  }

  /** Once the whitespace is skipped, a sign and digits running to the end
      of the name are read as their clamped value. */
  lemma StrtolAfterSpaces(name: string, sign: string, digits: string)
    requires name != [] && name[LeadingSpaces(name)..] == sign + digits
    requires sign == [] || sign == ['+'] || sign == ['-']
    requires digits != [] && AllDigits(digits)
    ensures Strtol10Whole(name) == Some(NumeralValue(sign, digits))
  {
    var rest := sign + digits;
    if sign == [] {
      assert rest == digits;
      assert IsDigit(rest[0]);
    } else {
      assert rest[0] == sign[0];
      assert rest[1..] == digits;
    }
  }

  lemma {:induction false} DecimalValueOfText(n: nat)
    ensures DecimalValue(DecimalText(n)) == n
  {
    var s := DecimalText(n);
    var last := ['0' + (n % 10) as char];
    if n < 10 {
      assert s == last;
      assert s[..0] == [];
    } else {
      DecimalValueOfText(n / 10);
      assert s == DecimalText(n / 10) + last;
      assert s[..|s| - 1] == DecimalText(n / 10);
    }
  }

  /** Every directory name the kernel creates for a process (its pid in
      decimal) is accepted, and read back as that pid. */
  lemma StrtolReadsDecimalText(n: nat)
    requires n <= LongMax
    ensures Strtol10Whole(DecimalText(n)) == Some(n)
  {
    var s := DecimalText(n);
    assert IsDigit(s[0]);
    assert LeadingSpaces(s) == 0;
    assert s[0..] == s;
    DecimalValueOfText(n);
  }

  /** A name holding any character that is neither whitespace, a sign nor a
      digit (".", "self", "sys", ...) is rejected. */
  lemma StrtolRejectsForeignCharacter(name: string, i: nat)
    requires i < |name|
    requires !IsSpace(name[i]) && !IsDigit(name[i]) && name[i] != '+' && name[i] != '-'
    ensures Strtol10Whole(name) == None
  {
  }
}
