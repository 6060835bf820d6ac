/** The claims-principal factory (Auth.IdentityServer/MyUserClaimsPrincipalFactory.cs):
    after the membership library has built a user's claims identity, it adds
    the user's first and last name as claims. */
module PrincipalFactory {
  import opened Wrappers
  import opened Claims
  import opened Datamodel

  /** A claims identity: its list of claims, to which AddClaim appends. */
  class ClaimsIdentity {
    var claims: seq<Claim>

    constructor (claims: seq<Claim>)
      ensures this.claims == claims
    {
      this.claims := claims;
    }

    method AddClaim(c: Claim)
      modifies this
      ensures claims == old(claims) + [c]
    {
      claims := claims + [c];
    }
  }

  /** `name ?? ""`: a null name becomes the empty string. */
  function OrEmpty(name: Option<string>): string
  {
    match name
    case Some(s) => s
    case None => ""
  }

  /** The claims of the identity built for `user`, given the claims the
      library built for it: the base claims, then a firstName claim, then a
      lastName claim. */
  function EnrichedClaims(baseClaims: seq<Claim>, user: ApplicationUser): seq<Claim>
  {
    baseClaims + [Claim("firstName", OrEmpty(user.firstName)), Claim("lastName", OrEmpty(user.lastName))]
  }

  /** GenerateClaimsAsync. `baseClaims` stands for the claims of the identity
      the library's own GenerateClaimsAsync returns. */
  method GenerateClaims(user: ApplicationUser, baseClaims: seq<Claim>) returns (identity: ClaimsIdentity)
    ensures fresh(identity)
    ensures identity.claims == EnrichedClaims(baseClaims, user)
  {
    identity := new ClaimsIdentity(baseClaims);
    identity.AddClaim(Claim("firstName", OrEmpty(user.firstName)));
    identity.AddClaim(Claim("lastName", OrEmpty(user.lastName)));
  }

  /** The base claims are kept unchanged, in front, and exactly two claims
      follow them: firstName, then lastName. */
  lemma EnrichedKeepsBase(baseClaims: seq<Claim>, user: ApplicationUser)
    ensures var r := EnrichedClaims(baseClaims, user);
      |r| == |baseClaims| + 2 && r[..|baseClaims|] == baseClaims &&
      r[|baseClaims|].claimType == "firstName" && r[|baseClaims| + 1].claimType == "lastName"
  {
    assert EnrichedClaims(baseClaims, user)[..|baseClaims|] == baseClaims;
  }

  /** The appended name claims carry the user's names, or "" for a null
      name. */
  lemma EnrichedNameValues(baseClaims: seq<Claim>, user: ApplicationUser)
    ensures var r := EnrichedClaims(baseClaims, user);
      (user.firstName.Some? ==> r[|baseClaims|].value == user.firstName.value) &&
      (user.firstName.None? ==> r[|baseClaims|].value == "") &&
      (user.lastName.Some? ==> r[|baseClaims| + 1].value == user.lastName.value) &&
      (user.lastName.None? ==> r[|baseClaims| + 1].value == "")
  {
  }

  /** No deduplication and no email claim: the firstName and lastName types
      occur once more than in the base claims (so twice when the base claims
      already hold one), and every other type, "email" included, as often as
      in the base claims. */
  lemma EnrichedTypeCounts(baseClaims: seq<Claim>, user: ApplicationUser, t: string)
    ensures CountOfType(EnrichedClaims(baseClaims, user), t) ==
      CountOfType(baseClaims, t) + if t == "firstName" || t == "lastName" then 1 else 0
  {
    var added := [Claim("firstName", OrEmpty(user.firstName)), Claim("lastName", OrEmpty(user.lastName))];
    CountOfTypeAppend(baseClaims, added, t);
    assert added[1..] == [added[1]];
    assert added[1..][1..] == [];
  }

  /** The enriched claims always hold a firstName and a lastName claim, so
      a profile lookup over them never finds these slots missing. */
  lemma EnrichedHasNames(baseClaims: seq<Claim>, user: ApplicationUser)
    ensures CountOfType(EnrichedClaims(baseClaims, user), "firstName") >= 1
    ensures CountOfType(EnrichedClaims(baseClaims, user), "lastName") >= 1
  {
    EnrichedTypeCounts(baseClaims, user, "firstName");
    EnrichedTypeCounts(baseClaims, user, "lastName");
  }

  /** A user with no first name and last name "Doe", over no base claims,
      gets exactly an empty firstName claim and a lastName claim "Doe". */
  lemma EnrichedExample(id: string)
    ensures EnrichedClaims([], ApplicationUser(id, None, Some("Doe"))) ==
      [Claim("firstName", ""), Claim("lastName", "Doe")]
  {
  }
}
