/** Claims as System.Security.Claims.Claim holds them. */
module Claims {

  /** A claim: a type and a value. The claim constructor rejects a null type
      or value, so both are plain strings here; a null claim reference is
      modelled where it occurs, as an Option<Claim>. */
  datatype Claim = Claim(claimType: string, value: string)

  /** The number of claims in `claims` whose type is exactly `t`. */
  function CountOfType(claims: seq<Claim>, t: string): (n: nat)
    ensures n <= |claims|
    ensures n == 0 <==> forall k :: 0 <= k < |claims| ==> claims[k].claimType != t
  {
    if claims == [] then 0
    else (if claims[0].claimType == t then 1 else 0) + CountOfType(claims[1..], t)
  }

  /** Counting distributes over concatenation. */
  lemma {:induction false} CountOfTypeAppend(a: seq<Claim>, b: seq<Claim>, t: string)
    ensures CountOfType(a + b, t) == CountOfType(a, t) + CountOfType(b, t)
  {
    if a == [] {
      assert a + b == b;
    } else {
      assert (a + b)[1..] == a[1..] + b;
      CountOfTypeAppend(a[1..], b, t);
    }
  }
}
