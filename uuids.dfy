/**
 * java.util.UUID as text. A UUID value is represented by its toString()
 * form: 36 characters, lower-case hexadecimal digits in groups of
 * 8-4-4-4-12 separated by '-'. UUID.fromString is modelled on that
 * canonical shape, accepting either case of hexadecimal digit.
 */
module Uuids {
  import opened Wrappers

  predicate IsDashIndex(i: int) { i == 8 || i == 13 || i == 18 || i == 23 }

  predicate IsLowerHex(c: char) { '0' <= c <= '9' || 'a' <= c <= 'f' }

  predicate IsHex(c: char) { IsLowerHex(c) || 'A' <= c <= 'F' }

  /** The shape UUID.toString() produces. */
  predicate IsCanonicalUuid(s: string) {
    |s| == 36 && forall i :: 0 <= i < 36 ==> if IsDashIndex(i) then s[i] == '-' else IsLowerHex(s[i])
  }

  /** The shape UUID.fromString accepts, in either case. */
  predicate IsUuidText(s: string) {
    |s| == 36 && forall i :: 0 <= i < 36 ==> if IsDashIndex(i) then s[i] == '-' else IsHex(s[i])
  }

  type Uuid = s: string | IsCanonicalUuid(s) witness "00000000-0000-0000-0000-000000000000"

  function LowerHex(c: char): (d: char)
    requires IsHex(c)
    ensures IsLowerHex(d)
    ensures IsLowerHex(c) ==> d == c
  {
    if 'A' <= c <= 'F' then (c as int - 'A' as int + 'a' as int) as char else c
  }

  /** UUID.fromString(s); None stands for its IllegalArgumentException. */
  function UuidFromString(s: string): (r: Option<Uuid>)
    ensures r.Some? <==> IsUuidText(s)
    ensures IsCanonicalUuid(s) ==> r == Some(s)
  {
    if IsUuidText(s) then
      var u := seq(36, i requires 0 <= i < 36 => if IsDashIndex(i) then '-' else LowerHex(s[i]));
      assert IsCanonicalUuid(s) ==> u == s;
      Some(u)
    else None
  }

  /** No UUID text contains a ':' (so none contains the "::" separator). */
  lemma UuidHasNoColon(u: Uuid)
    ensures forall i :: 0 <= i < |u| ==> u[i] != ':'
  {
  }
}
