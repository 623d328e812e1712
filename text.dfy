/** String operations the source relies on: `String.prototype.includes`,
    template-literal formatting of integers, and `Array.prototype.join`. */
module Text {

  /** `s.includes(sub)`. */
  function Contains(s: string, sub: string): bool {
    if sub <= s then true
    else if s == [] then false
    else Contains(s[1..], sub)
  }

  /** `sub` occurs in `s` starting at index `i`. */
  predicate OccursAt(s: string, sub: string, i: int) {
    0 <= i <= |s| - |sub| && s[i..i + |sub|] == sub
  }

  /** `Contains` agrees with the textbook definition: `sub` occurs at some
      position of `s`. */
  lemma ContainsIff(s: string, sub: string)
    ensures Contains(s, sub) <==> exists i :: OccursAt(s, sub, i)
  {
    if Contains(s, sub) {
      var i := ContainsFinds(s, sub);
      assert OccursAt(s, sub, i);
    } else {
      forall i | OccursAt(s, sub, i) ensures false {
        OccursContains(s, sub, i);
      }
    }
  }

  /** A witness position for `Contains`. */
  lemma {:induction false} ContainsFinds(s: string, sub: string) returns (i: int)
    requires Contains(s, sub)
    ensures OccursAt(s, sub, i)
  {
    if sub <= s {
      assert s[0..0 + |sub|] == sub;
      i := 0;
    } else {
      var j := ContainsFinds(s[1..], sub);
      assert s[j + 1..j + 1 + |sub|] == s[1..][j..j + |sub|];
      i := j + 1;
    }
  }

  /** An occurrence at position `i` makes `Contains` hold. */
  lemma {:induction false} OccursContains(s: string, sub: string, i: int)
    requires OccursAt(s, sub, i)
    ensures Contains(s, sub)
  {
    if i == 0 {
      assert sub <= s;
    } else if !(sub <= s) {
      assert s[1..][i - 1..i - 1 + |sub|] == s[i..i + |sub|];
      OccursContains(s[1..], sub, i - 1);
    }
  }

  function DigitChar(d: nat): char
    requires d < 10
  {
    "0123456789"[d]
  }

  /** Decimal digits of `n` without leading zeros. */
  function NatToString(n: nat): string {
    if n < 10 then [DigitChar(n)] else NatToString(n / 10) + [DigitChar(n % 10)]
  }

  /** `${n}` for an integer `n`. */
  function IntToString(n: int): string {
    if n < 0 then "-" + NatToString(-n) else NatToString(n)
  }

  /** `parts.join(sep)`. */
  function Join(parts: seq<string>, sep: string): string {
    if parts == [] then ""
    else if |parts| == 1 then parts[0]
    else Join(parts[..|parts| - 1], sep) + sep + parts[|parts| - 1]
  }
}
