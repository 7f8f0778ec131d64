/** Decimal text: std::to_string and std::stoll, on bytes. */
module Numbers {
  import opened Exceptions
  import opened Bytes

  const MINUS: byte := 45
  const PLUS: byte := 43
  const ZERO: byte := 48

  predicate IsDigit(b: byte) { 48 <= b <= 57 }

  /** space, \t, \n, \v, \f, \r */
  predicate IsSpace(b: byte) { b == 32 || 9 <= b <= 13 }

  predicate Fits64(v: int) { -I64 <= v < I64 }

  // ---- Writing ----

  function Digits(n: nat): (s: Buffer)
    ensures s != [] && IsDigit(s[0])
  {
    if n < 10 then [ZERO + n] else Digits(n / 10) + [ZERO + n % 10]
  }

  /** std::to_string of a signed number. */
  function ToText(v: int): (s: Buffer)
    ensures s != []
  {
    if v < 0 then [MINUS] + Digits(-v) else Digits(v)
  }

  // ---- Reading ----

  /** The first place at or after `i` that is not white space. */
  function SkipSpace(s: Buffer, i: nat): (k: nat)
    requires i <= |s|
    ensures i <= k <= |s|
    decreases |s| - i
  {
    if i < |s| && IsSpace(s[i]) then SkipSpace(s, i + 1) else i
  }

  /** The first place at or after `i` that is not a digit. */
  function DigitsEnd(s: Buffer, i: nat): (k: nat)
    requires i <= |s|
    ensures i <= k <= |s|
    decreases |s| - i
  {
    if i < |s| && IsDigit(s[i]) then DigitsEnd(s, i + 1) else i
  }

  function DigitValue(b: byte): nat {
    if IsDigit(b) then b - ZERO else 0
  }

  /** The number written from `lo` to `hi`. */
  function Value(s: Buffer, lo: nat, hi: nat): nat
    requires hi <= |s|
  {
    if hi <= lo then 0 else 10 * Value(s, lo, hi - 1) + DigitValue(s[hi - 1])
  }

  /** Skips white space, takes an optional sign and the longest run of digits, and ignores the rest. */
  function Stoll(s: Buffer): (r: Result<int>)
    ensures r.Ok? ==> Fits64(r.value)
    ensures r.Ok? && s != [] && IsDigit(s[0]) ==> r.value >= 0
  {
    var start := SkipSpace(s, 0);
    var negative := start < |s| && s[start] == MINUS;
    var signed := negative || (start < |s| && s[start] == PLUS);
    var lo := if signed then start + 1 else start;
    var hi := DigitsEnd(s, lo);
    if hi == lo then Throw(InvalidArgument)
    else
      var v := if negative then 0 - (Value(s, lo, hi) as int) else Value(s, lo, hi) as int;
      if Fits64(v) then Ok(v) else Throw(OutOfRange)
  }

  // ---- Round trips ----

  ghost predicate AllDigits(s: Buffer, lo: nat)
    requires lo <= |s|
  {
    forall k :: lo <= k < |s| ==> IsDigit(s[k])
  }

  lemma {:induction false} DigitsEndIs(s: Buffer, i: nat)
    requires i <= |s|
    ensures DigitsEnd(s, i) == |s| <==> AllDigits(s, i)
    decreases |s| - i
  {
    if i == |s| {
    } else {
      DigitsEndIs(s, i + 1);
    }
  }

  /** From `lo` on: digits without a leading zero, unless the number is zero. */
  predicate PlainDigits(s: Buffer, lo: nat) {
    lo < |s| && DigitsEnd(s, lo) == |s| && (s[lo] == ZERO ==> |s| == lo + 1)
  }

  lemma {:induction false} DigitsAreDigits(n: nat)
    ensures AllDigits(Digits(n), 0) && (Digits(n)[0] == ZERO ==> n == 0)
  {
    if n < 10 {
    } else {
      DigitsAreDigits(n / 10);
    }
  }

  lemma DigitsArePlain(n: nat)
    ensures PlainDigits(Digits(n), 0)
  {
    DigitsAreDigits(n);
    DigitsEndIs(Digits(n), 0);
  }

  lemma {:induction false} ValueOfDigits(s: Buffer, lo: nat, hi: nat, n: nat)
    requires lo <= hi <= |s| && s[lo..hi] == Digits(n)
    ensures Value(s, lo, hi) == n
    decreases n
  {
    if n < 10 {
      assert s[lo] == s[lo..hi][0];
      assert Value(s, lo, lo) == 0;
    } else {
      var init := Digits(n / 10);
      assert s[lo..hi] == init + [ZERO + n % 10];
      assert s[lo..hi - 1] == s[lo..hi][..|init|] == init;
      assert s[hi - 1] == s[lo..hi][|init|];
      ValueOfDigits(s, lo, hi - 1, n / 10);
    }
  }

  /** Reading the text of a 64-bit number gives the number. */
  lemma StollUndoesToText(v: int)
    requires Fits64(v)
    ensures Stoll(ToText(v)) == Ok(v)
  {
    hide Digits, Value;
    var n := if v < 0 then -v else v;
    var lo := if v < 0 then 1 else 0;
    var s := ToText(v);
    DigitsAreDigits(n);
    assert s[lo..|s|] == Digits(n);
    ValueOfDigits(s, lo, |s|, n);
    assert AllDigits(s, lo) by {
      forall k | lo <= k < |s| ensures IsDigit(s[k]) { assert s[k] == Digits(n)[k - lo]; }
    }
    DigitsEndIs(s, lo);
  }

  /** No leading zeros, no plus sign, no minus zero, no white space, nothing after the digits. */
  predicate PlainText(s: Buffer) {
    PlainDigits(s, 0) || (|s| >= 2 && s[0] == MINUS && s[1] != ZERO && PlainDigits(s, 1))
  }

  lemma {:induction false} DigitsOfValue(s: Buffer, lo: nat, hi: nat)
    requires lo < hi <= |s| && (forall k :: lo <= k < hi ==> IsDigit(s[k])) && (s[lo] == ZERO ==> hi == lo + 1)
    ensures Digits(Value(s, lo, hi)) == s[lo..hi] && (Value(s, lo, hi) == 0 <==> s[lo] == ZERO)
  {
    var last := s[hi - 1];
    if hi == lo + 1 {
      assert s[lo..hi] == [last];
      assert Value(s, lo, lo) == 0;
    } else {
      DigitsOfValue(s, lo, hi - 1);
      var v, init := Value(s, lo, hi), Value(s, lo, hi - 1);
      assert v / 10 == init && v % 10 == last - ZERO;
      assert s[lo..hi] == s[lo..hi - 1] + [last];
    }
  }

  /** Plain text is what to_string writes of the number that stoll reads. */
  lemma ToTextUndoesStoll(s: Buffer)
    requires PlainText(s) && Stoll(s).Ok?
    ensures ToText(Stoll(s).value) == s
  {
    hide Digits, Value;
    var lo := if s[0] == MINUS then 1 else 0;
    DigitsEndIs(s, lo);
    DigitsOfValue(s, lo, |s|);
    assert s == s[..lo] + s[lo..|s|];
  }

  lemma ToTextIsPlain(v: int)
    ensures PlainText(ToText(v))
  {
    var n := if v < 0 then -v else v;
    var lo := if v < 0 then 1 else 0;
    DigitsAreDigits(n);
    assert forall k :: lo <= k < |ToText(v)| ==> ToText(v)[k] == Digits(n)[k - lo];
    DigitsEndIs(ToText(v), lo);
  }

  // ---- A zero in front is read and forgotten ----

  lemma {:induction false} ZeroInFront(digits: Buffer, n: nat)
    requires n <= |digits|
    ensures Value([ZERO] + digits, 0, n + 1) == Value(digits, 0, n)
  {
    var s := [ZERO] + digits;
    if n == 0 {
      assert Value(s, 0, 0) == 0;
    } else {
      ZeroInFront(digits, n - 1);
      assert s[n] == digits[n - 1];
    }
  }

  lemma StollDropsZero(v: nat)
    requires Fits64(v)
    ensures Stoll([ZERO] + Digits(v)) == Ok(v)
  {
    hide Digits, Value;
    var digits := Digits(v);
    var s := [ZERO] + digits;
    DigitsAreDigits(v);
    assert AllDigits(s, 0) by {
      forall k | 0 <= k < |s| ensures IsDigit(s[k]) { assert k > 0 ==> s[k] == digits[k - 1]; }
    }
    DigitsEndIs(s, 0);
    assert digits[0..|digits|] == digits;
    ValueOfDigits(digits, 0, |digits|, v);
    ZeroInFront(digits, |digits|);
  }

  // ---- What std::stoll makes of any text ----

  lemma {:induction false} SkipSpaceIs(s: Buffer, i: nat, k: nat)
    requires i <= k <= |s| && (forall j :: i <= j < k ==> IsSpace(s[j])) && (k < |s| ==> !IsSpace(s[k]))
    ensures SkipSpace(s, i) == k
    decreases k - i
  {
    if i == k {
    } else {
      SkipSpaceIs(s, i + 1, k);
    }
  }

  lemma {:induction false} DigitsEndAt(s: Buffer, i: nat, k: nat)
    requires i <= k <= |s| && (forall j :: i <= j < k ==> IsDigit(s[j])) && (k < |s| ==> !IsDigit(s[k]))
    ensures DigitsEnd(s, i) == k
    decreases k - i
  {
    if i == k {
    } else {
      DigitsEndAt(s, i + 1, k);
    }
  }

  lemma {:induction false} ValueElsewhere(s: Buffer, lo: nat, digits: Buffer, n: nat)
    requires n <= |digits| && lo + |digits| <= |s| && s[lo..lo + |digits|] == digits
    ensures Value(s, lo, lo + n) == Value(digits, 0, n)
  {
    if n == 0 {
    } else {
      ValueElsewhere(s, lo, digits, n - 1);
      assert s[lo + n - 1] == s[lo..lo + |digits|][n - 1];
    }
  }

  /** Reading one more digit; 48 is the digit 0. */
  lemma ValueGrows(s: Buffer, d: nat)
    requires d < 10
    ensures Value(s + [48 + d], 0, |s| + 1) == 10 * Value(s, 0, |s|) + d && Value([], 0, 0) == 0
  {
    var more := s + [48 + d];
    assert more[0..0 + |s|] == s;
    ValueElsewhere(more, 0, s, |s|);
  }

  /** Space, \t, \n, \v, \f and \r. */
  ghost predicate AllSpace(s: Buffer) {
    forall k :: 0 <= k < |s| ==> s[k] == 32 || 9 <= s[k] <= 13
  }

  ghost predicate OnlyDigits(s: Buffer) {
    forall k :: 0 <= k < |s| ==> 48 <= s[k] <= 57
  }

  ghost predicate StartsWithDigit(s: Buffer) {
    s != [] && 48 <= s[0] <= 57
  }

  ghost predicate StartsWithSpace(s: Buffer) {
    s != [] && (s[0] == 32 || 9 <= s[0] <= 13)
  }

  ghost predicate StartsWithSign(s: Buffer) {
    s != [] && (s[0] == 43 || s[0] == 45)
  }

  predicate IsSign(sign: Buffer) {
    sign == [43] || sign == [45]
  }

  lemma StollAt(s: Buffer, start: nat, sign: Buffer, hi: nat)
    requires start + |sign| <= |s| && SkipSpace(s, 0) == start && (IsSign(sign) || sign == [])
    requires if sign != [] then s[start] == sign[0] else start < |s| ==> s[start] != 43 && s[start] != 45
    requires DigitsEnd(s, start + |sign|) == hi
    ensures var n := Value(s, start + |sign|, hi) as int;
            var v := if sign == [45] then 0 - n else n;
            Stoll(s) ==
            if hi == start + |sign| then Throw(InvalidArgument)
            else if -9223372036854775808 <= v <= 9223372036854775807 then Ok(v) else Throw(OutOfRange)
  {
    hide Value, SkipSpace, DigitsEnd;
  }

  /** Where the three parts of a text begin and end. */
  lemma Parts(space: Buffer, sign: Buffer, digits: Buffer, rest: Buffer)
    requires AllSpace(space) && (IsSign(sign) || sign == [])
    requires OnlyDigits(digits) && !StartsWithDigit(rest)
    requires sign == [] && digits == [] ==> !StartsWithSpace(rest) && !StartsWithSign(rest)
    ensures var s := space + sign + digits + rest;
            var lo := |space| + |sign|;
            && SkipSpace(s, 0) == |space| && DigitsEnd(s, lo) == lo + |digits|
            && Value(s, lo, lo + |digits|) == Value(digits, 0, |digits|)
            && if sign != [] then s[|space|] == sign[0] else |space| < |s| ==> s[|space|] != 43 && s[|space|] != 45
  {
    hide Value, SkipSpace, DigitsEnd;
    var s := space + sign + digits + rest;
    var lo := |space| + |sign|;
    var hi := lo + |digits|;
    assert s[lo..hi] == digits;
    assert forall j :: 0 <= j < |space| ==> s[j] == space[j];
    if |space| < |s| {
      assert s[|space|] == if sign != [] then sign[0] else if digits != [] then digits[0] else rest[0];
    }
    SkipSpaceIs(s, 0, |space|);
    assert forall j :: lo <= j < hi ==> s[j] == digits[j - lo];
    assert hi < |s| ==> s[hi] == rest[0];
    DigitsEndAt(s, lo, hi);
    ValueElsewhere(s, lo, digits, |digits|);
  }

  /**
    White space, then a plus sign (43), a minus sign (45) or none, then at least one digit, then anything that does not
    go on with a digit: the digits are read with the sign, the rest is ignored, and a number beyond 64 bits is an
    exception.
   */
  lemma StollReads(space: Buffer, sign: Buffer, digits: Buffer, rest: Buffer)
    requires AllSpace(space) && (sign == [] || sign == [43] || sign == [45])
    requires digits != [] && OnlyDigits(digits) && !StartsWithDigit(rest)
    ensures var n := Value(digits, 0, |digits|) as int;
            var v := if sign == [45] then 0 - n else n;
            Stoll(space + sign + digits + rest) ==
            if -9223372036854775808 <= v <= 9223372036854775807 then Ok(v) else Throw(OutOfRange)
  {
    hide Value, SkipSpace, DigitsEnd, AllSpace, OnlyDigits, StartsWithDigit, Stoll;
    Parts(space, sign, digits, rest);
    StollAt(space + sign + digits + rest, |space|, sign, |space| + |sign| + |digits|);
  }

  /** Without a digit in that place there is no number. */
  lemma StollNeedsDigits(space: Buffer, sign: Buffer, rest: Buffer)
    requires AllSpace(space) && !StartsWithDigit(rest)
    requires sign == [43] || sign == [45] || (sign == [] && !StartsWithSpace(rest) && !StartsWithSign(rest))
    ensures Stoll(space + sign + rest) == Throw(InvalidArgument)
  {
    hide Value, SkipSpace, DigitsEnd, AllSpace, Stoll;
    var s := space + sign + rest;
    assert space + sign + [] + rest == s;
    Parts(space, sign, [], rest);
    StollAt(s, |space|, sign, |space| + |sign|);
  }
}
