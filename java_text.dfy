/**
 * The java.lang.String and java.lang.Integer operations the controllers
 * rely on, with Java's semantics: indexOf / lastIndexOf / contains,
 * split by a literal separator (trailing empty strings dropped),
 * Integer.parseInt (optional sign, 32-bit range) and Integer.toString
 * (which is also what string concatenation produces for an int, and what
 * "%d" produces when the default format locale uses ASCII digits).
 */
module JavaText {
  import opened Wrappers

  const MinInt32: int := -0x8000_0000
  const MaxInt32: int := 0x7fff_ffff

  predicate IsInt32(n: int) { MinInt32 <= n <= MaxInt32 }

  /** Java's int and Integer. */
  type Int32 = n: int | IsInt32(n)

  /** `t` occurs in `s` starting at index `i`. */
  predicate OccursAt(s: string, t: string, i: int) {
    0 <= i && i + |t| <= |s| && s[i..i + |t|] == t
  }

  /** The first occurrence of `t` in `s` at index `from` or later, or -1. */
  function IndexOfFrom(s: string, t: string, from: nat): (r: int)
    ensures r == -1 || (from <= r && OccursAt(s, t, r))
    ensures forall i :: from <= i && (r == -1 || i < r) ==> !OccursAt(s, t, i)
    decreases |s| - from
  {
    if from + |t| > |s| then -1
    else if s[from..from + |t|] == t then from
    else IndexOfFrom(s, t, from + 1)
  }

  /** String.indexOf(String): the first occurrence, or -1. */
  function IndexOf(s: string, t: string): (r: int)
    ensures r == -1 || OccursAt(s, t, r)
    ensures forall i :: 0 <= i && (r == -1 || i < r) ==> !OccursAt(s, t, i)
  {
    IndexOfFrom(s, t, 0)
  }

  /** The last occurrence of `t` in `s` starting below index `k`, or -1. */
  function LastIndexOfBelow(s: string, t: string, k: int): (r: int)
    ensures r == -1 || (r < k && OccursAt(s, t, r))
    ensures forall i :: r < i < k ==> !OccursAt(s, t, i)
    decreases k
  {
    if k <= 0 then -1
    else if OccursAt(s, t, k - 1) then k - 1
    else LastIndexOfBelow(s, t, k - 1)
  }

  /** String.lastIndexOf(String): the last occurrence, or -1. */
  function LastIndexOf(s: string, t: string): (r: int)
    ensures r == -1 || OccursAt(s, t, r)
    ensures forall i :: r < i ==> !OccursAt(s, t, i)
  {
    LastIndexOfBelow(s, t, |s| - |t| + 1)
  }

  /** String.contains(CharSequence). */
  predicate Contains(s: string, t: string) {
    IndexOf(s, t) >= 0
  }

  lemma ContainsIffOccurs(s: string, t: string)
    ensures Contains(s, t) <==> exists i :: OccursAt(s, t, i)
  {
  }

  // ---------------------------------------------------------------------
  // String.split(sep) for a separator that is a literal (no regex
  // metacharacters), with limit 0.

  /** The pieces between leftmost non-overlapping occurrences of `t`, trailing empty pieces included. */
  function SplitPieces(s: string, t: string): (r: seq<string>)
    requires |t| > 0
    ensures |r| > 0
    ensures forall k :: 0 <= k < |r| ==> IndexOf(r[k], t) == -1
    decreases |s|
  {
    var i := IndexOf(s, t);
    if i < 0 then [s]
    else
      NoOccurrenceInPrefix(s, t, i);
      [s[..i]] + SplitPieces(s[i + |t|..], t)
  }

  /** The inverse of SplitPieces: the pieces joined with the separator. */
  function JoinWith(ps: seq<string>, t: string): string
  {
    if |ps| == 0 then ""
    else if |ps| == 1 then ps[0]
    else ps[0] + t + JoinWith(ps[1..], t)
  }

  lemma NoOccurrenceInPrefix(s: string, t: string, i: nat)
    requires i <= |s|
    requires forall j :: 0 <= j < i ==> !OccursAt(s, t, j)
    ensures IndexOf(s[..i], t) == -1 || (|t| == 0 && IndexOf(s[..i], t) == 0)
  {
    var p := s[..i];
    var r := IndexOf(p, t);
    if r >= 0 && |t| > 0 {
      assert p[r..r + |t|] == s[r..r + |t|];
      assert OccursAt(s, t, r);
    }
  }

  /** Splitting with SplitPieces and joining again gives back the input. */
  lemma {:induction false} JoinSplitPieces(s: string, t: string)
    requires |t| > 0
    ensures JoinWith(SplitPieces(s, t), t) == s
    decreases |s|
  {
    var i := IndexOf(s, t);
    if i >= 0 {
      var rest := s[i + |t|..];
      var tail := SplitPieces(rest, t);
      JoinSplitPieces(rest, t);
      var ps := [s[..i]] + tail;
      assert SplitPieces(s, t) == ps;
      assert ps[1..] == tail;
      assert JoinWith(ps, t) == s[..i] + t + rest;
      assert s[i..i + |t|] == t;
      assert s == s[..i] + s[i..i + |t|] + rest;
    }
  }

  /** Drops the empty strings at the end, as split with limit 0 does. */
  function DropTrailingEmpty(ps: seq<string>): (r: seq<string>)
    ensures |r| <= |ps| && r == ps[..|r|]
    ensures |r| == 0 || r[|r| - 1] != ""
    ensures forall k :: |r| <= k < |ps| ==> ps[k] == ""
  {
    if |ps| > 0 && ps[|ps| - 1] == "" then DropTrailingEmpty(ps[..|ps| - 1]) else ps
  }

  /**
   * String.split(t) for a literal `t`: the whole string when `t` does not
   * occur (so "".split(t) is [""]), otherwise the pieces with trailing
   * empty strings removed (so "::".split("::") is empty).
   */
  function Split(s: string, t: string): (r: seq<string>)
    requires |t| > 0
    ensures IndexOf(s, t) == -1 ==> r == [s]
    ensures forall k :: 0 <= k < |r| ==> IndexOf(r[k], t) == -1
    ensures IndexOf(s, t) >= 0 ==> |r| == 0 || r[|r| - 1] != ""
  {
    if IndexOf(s, t) < 0 then [s] else DropTrailingEmpty(SplitPieces(s, t))
  }

  /** The first occurrence inside `u` is still the first one once `u` is extended. */
  lemma IndexOfExtend(u: string, v: string, t: string)
    requires IndexOf(u, t) >= 0
    ensures IndexOf(u + v, t) == IndexOf(u, t)
  {
    var k := IndexOf(u, t);
    var w := u + v;
    assert w[k..k + |t|] == u[k..k + |t|];
    assert OccursAt(w, t, k);
    forall i | 0 <= i < k
      ensures !OccursAt(w, t, i)
    {
      if OccursAt(w, t, i) {
        assert w[i..i + |t|] == u[i..i + |t|];
        assert OccursAt(u, t, i);
      }
    }
  }

  /**
   * When the separator appended to `p` is the first occurrence in `p + t`
   * (p holds no `t` and does not end in a proper prefix of it), splitting
   * `p + t + rest` yields `p` followed by the pieces of `rest`.
   */
  lemma SplitPiecesCons(p: string, t: string, rest: string)
    requires |t| > 0
    requires IndexOf(p + t, t) == |p|
    ensures SplitPieces(p + t + rest, t) == [p] + SplitPieces(rest, t)
  {
    var s := p + t + rest;
    IndexOfExtend(p + t, rest, t);
    assert IndexOf(s, t) == |p|;
    assert s[..|p|] == p;
    assert s[|p| + |t|..] == rest;
  }

  // ---------------------------------------------------------------------
  // Decimal text of integers.

  predicate IsDigit(c: char) { '0' <= c <= '9' }

  predicate AllDigits(s: string) { forall i :: 0 <= i < |s| ==> IsDigit(s[i]) }

  function DigitChar(d: int): (c: char)
    requires 0 <= d < 10
    ensures IsDigit(c) && c as int - '0' as int == d
  {
    ('0' as int + d) as char
  }

  /** The decimal digits of `n` without leading zeros. */
  function NatToDecimal(n: nat): (r: string)
    ensures |r| > 0 && AllDigits(r)
    ensures r[0] != '0' || n == 0
  {
    if n < 10 then [DigitChar(n)] else NatToDecimal(n / 10) + [DigitChar(n % 10)]
  }

  /** The value of a string of decimal digits (leading zeros allowed). */
  function DecimalValue(ds: string): nat
    requires AllDigits(ds)
  {
    if |ds| == 0 then 0
    else DecimalValue(ds[..|ds| - 1]) * 10 + (ds[|ds| - 1] as int - '0' as int)
  }

  /** Integer.toString(n), as used by `"" + n`; also `%d` under a locale with ASCII digits. */
  function IntToString(n: int): (r: string)
    ensures |r| > 0
    ensures forall i :: 0 <= i < |r| ==> r[i] == '-' || IsDigit(r[i])
  {
    if n < 0 then "-" + NatToDecimal(-n) else NatToDecimal(n)
  }

  /**
   * Integer.parseInt(s) (also Integer.valueOf(s)): an optional '+' or '-'
   * followed by at least one decimal digit, with a value in the 32-bit
   * range; None stands for a NumberFormatException.
   */
  function ParseInt(s: string): (r: Option<int>)
    ensures r.Some? ==> IsInt32(r.value)
    ensures r.Some? ==> |s| > 0
  {
    if |s| == 0 then None
    else
      var digits := if s[0] == '-' || s[0] == '+' then s[1..] else s;
      if |digits| == 0 || !AllDigits(digits) then None
      else
        var v: int := if s[0] == '-' then -(DecimalValue(digits) as int) else DecimalValue(digits);
        if IsInt32(v) then Some(v) else None
  }

  lemma {:induction false} DecimalValueOfNatToDecimal(n: nat)
    ensures DecimalValue(NatToDecimal(n)) == n
  {
    if n >= 10 {
      DecimalValueOfNatToDecimal(n / 10);
      var ds := NatToDecimal(n / 10) + [DigitChar(n % 10)];
      assert ds[..|ds| - 1] == NatToDecimal(n / 10);
    }
  }

  /** Integer.parseInt undoes Integer.toString on every 32-bit value. */
  lemma ParseIntOfIntToString(n: int)
    requires IsInt32(n)
    ensures ParseInt(IntToString(n)) == Some(n)
  {
    DecimalValueOfNatToDecimal(if n < 0 then -n else n);
    if n < 0 {
      assert IntToString(n)[1..] == NatToDecimal(-n);
    }
  }

  /** Distinct integers have distinct decimal text. */
  lemma IntToStringInjective(a: int, b: int)
    requires IntToString(a) == IntToString(b)
    ensures a == b
  {
    DecimalValueOfNatToDecimal(if a < 0 then -a else a);
    DecimalValueOfNatToDecimal(if b < 0 then -b else b);
    if a < 0 {
      assert IntToString(a)[1..] == NatToDecimal(-a);
    }
    if b < 0 {
      assert IntToString(b)[1..] == NatToDecimal(-b);
    }
  }

  /** Parsing accepts a sign and leading zeros, and refuses a bare sign. */
  lemma ParseIntSigns()
    ensures ParseInt("+7") == Some(7)
    ensures ParseInt("-7") == Some(-7)
    ensures ParseInt("07") == Some(7)
    ensures ParseInt("") == None && ParseInt("-") == None && ParseInt("+") == None
    ensures ParseInt("7a") == None
  {
    assert "+7"[1..] == "7" && "-7"[1..] == "7";
    assert "7"[..0] == "";
    assert "07"[..1] == "0" && "0"[..0] == "";
    assert !IsDigit("7a"[1]);
  }
}
