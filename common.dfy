/** Shared value types of the SkillHub model: optional values, results with
    field-scoped errors, identifiers and decimal rendering of integers. */
module Common {

  /** A value that may be absent (a nullable link, a missing request field). */
  datatype Option<+T> = None | Some(value: T)

  /** The outcome of an operation that either produces a value or is rejected. */
  datatype Result<+T, +E> = Ok(value: T) | Err(error: E)

  /** Primary keys are positive in the database, but the model only needs naturals. */
  type UserId = nat

  /** The decimal digit for 0 <= d < 10. */
  function DigitChar(d: nat): (c: char)
    requires d < 10
    ensures '0' <= c <= '9'
    ensures c as int - '0' as int == d
  {
    (d + '0' as int) as char
  }

  /** Decimal rendering of a natural number, as Python's `str` prints it. */
  function NatString(n: nat): (s: string)
    ensures |s| >= 1
    ensures forall i :: 0 <= i < |s| ==> '0' <= s[i] <= '9'
    decreases n
  {
    if n < 10 then [DigitChar(n)] else NatString(n / 10) + [DigitChar(n % 10)]
  }

  /** Decimal rendering of an integer, with a leading '-' for negatives. */
  function IntString(n: int): (s: string)
    ensures |s| >= 1
  {
    if n < 0 then "-" + NatString(-n) else NatString(n)
  }

  /** Reads back a string of decimal digits. */
  function ParseNat(s: string): nat
    decreases |s|
  {
    if s == [] then 0
    else
      var d := s[|s| - 1] as int - '0' as int;
      ParseNat(s[..|s| - 1]) * 10 + (if 0 <= d < 10 then d else 0)
  }

  /** Reads back what IntString writes. */
  function ParseInt(s: string): int
  {
    if |s| > 0 && s[0] == '-' then 0 - ParseNat(s[1..]) as int else ParseNat(s)
  }

  lemma {:induction false} NatStringRoundTrip(n: nat)
    ensures ParseNat(NatString(n)) == n
    decreases n
  {
    if n >= 10 {
      var s := NatString(n);
      assert s[..|s| - 1] == NatString(n / 10);
      NatStringRoundTrip(n / 10);
    }
  }

  /** Decimal rendering is inverted by ParseInt, so distinct ratings print differently. */
  lemma IntStringRoundTrip(n: int)
    ensures ParseInt(IntString(n)) == n
  {
    if n < 0 {
      NatStringRoundTrip(-n);
      assert ("-" + NatString(-n))[1..] == NatString(-n);
    } else {
      NatStringRoundTrip(n);
    }
  }

  /** The characters Python's `str.isspace` accepts, which `str.strip` removes. */
  predicate IsSpace(c: char)
  {
    || c in {' ', '\t', '\n', '\r', '\U{000B}', '\U{000C}', '\U{001C}', '\U{001D}', '\U{001E}', '\U{001F}'}
    || c in {'\U{0085}', '\U{00A0}', '\U{1680}', '\U{2028}', '\U{2029}', '\U{202F}', '\U{205F}', '\U{3000}'}
    || '\U{2000}' <= c <= '\U{200A}'
  }

  /** How many whitespace characters open `s`. */
  function LeadingSpaces(s: string): (i: nat)
    ensures i <= |s|
    ensures forall k :: 0 <= k < i ==> IsSpace(s[k])
    ensures i < |s| ==> !IsSpace(s[i])
    decreases |s|
  {
    if s == [] || !IsSpace(s[0]) then 0
    else
      var rest := LeadingSpaces(s[1..]);
      assert forall k :: 1 <= k < 1 + rest ==> s[k] == s[1..][k - 1];
      1 + rest
  }

  /** How many whitespace characters close `s`. */
  function TrailingSpaces(s: string): (n: nat)
    ensures n <= |s|
    ensures forall k :: |s| - n <= k < |s| ==> IsSpace(s[k])
    ensures n < |s| ==> !IsSpace(s[|s| - n - 1])
    decreases |s|
  {
    if s == [] || !IsSpace(s[|s| - 1]) then 0
    else
      var init := s[..|s| - 1];
      var rest := TrailingSpaces(init);
      assert forall k :: |init| - rest <= k < |init| ==> s[k] == init[k];
      1 + rest
  }

  /** `str.strip()`: `s` without its leading and trailing whitespace. */
  function Trim(s: string): (r: string)
    ensures |r| <= |s|
    ensures r != [] ==> !IsSpace(r[0]) && !IsSpace(r[|r| - 1])
  {
    var i := LeadingSpaces(s);
    if i == |s| then [] else s[i..|s| - TrailingSpaces(s)]
  }

  /** What stripping removes: the result is empty exactly when `s` is blank, and
      otherwise it sits inside `s` unchanged with only whitespace around it. */
  lemma TrimStrips(s: string)
    ensures Trim(s) == [] <==> forall k :: 0 <= k < |s| ==> IsSpace(s[k])
    ensures exists i :: StrippedAt(s, Trim(s), i)
  {
    var i := LeadingSpaces(s);
    if i == |s| {
      assert StrippedAt(s, [], 0);
    } else {
      assert StrippedAt(s, Trim(s), i);
    }
  }

  /** `r` is the part of `s` that starts at `i`, with only whitespace around it. */
  predicate StrippedAt(s: string, r: string, i: nat)
  {
    && i + |r| <= |s|
    && r == s[i..i + |r|]
    && (forall k :: 0 <= k < i ==> IsSpace(s[k]))
    && (forall k :: i + |r| <= k < |s| ==> IsSpace(s[k]))
  }

  /** Stripping twice strips nothing more. */
  lemma TrimIdempotent(s: string)
    ensures Trim(Trim(s)) == Trim(s)
  {
    var r := Trim(s);
    if r != [] {
      assert LeadingSpaces(r) == 0;
      assert TrailingSpaces(r) == 0;
      assert r[0..|r|] == r;
    }
  }

  /** The first position at which `id` occurs. */
  method IndexOf(ids: seq<nat>, id: nat) returns (i: nat)
    requires id in ids
    ensures i < |ids| && ids[i] == id
    ensures forall j :: 0 <= j < i ==> ids[j] != id
  {
    i := 0;
    while ids[i] != id
      invariant i < |ids|
      invariant id in ids[i..]
      invariant forall j :: 0 <= j < i ==> ids[j] != id
      decreases |ids| - i
    {
      assert ids[i..] == [ids[i]] + ids[i + 1..];
      i := i + 1;
    }
  }
}
