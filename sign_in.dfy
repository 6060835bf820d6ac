/** Sign-in followed by a profile request: the claims the principal factory
    builds are the subject claims the profile service later reads. */
module SignIn {
  import opened Claims
  import opened Datamodel
  import opened PrincipalFactory
  import opened ProfileService

  /** Present in a claim list means found by FirstOrDefault. */
  lemma CountedTypeIsFound(claims: seq<Claim>, t: string)
    requires CountOfType(claims, t) >= 1
    ensures FirstOfType(claims, t).Some?
  {
  }

  /** For a subject whose claims start with the factory's output (the
      identity server may add claims after them), the profile call throws
      only through a missing email claim. */
  lemma EnrichedSubjectFailsOnlyOnEmail(sub: string, baseClaims: seq<Claim>, user: ApplicationUser,
                                        extra: seq<Claim>, requested: set<string>)
    ensures var subject := EnrichedClaims(baseClaims, user) + extra;
      var kept := Requested(subject, requested);
      IssuedClaims(sub, subject, requested).Failure? <==>
        FirstOfType(subject, "email").None? && !HasMatch(kept, EmailTest) &&
        !(HasMatch(kept, FirstNameTest) && HasMatch(kept, LastNameTest))
  {
    var enriched := EnrichedClaims(baseClaims, user);
    var subject := enriched + extra;
    EnrichedHasNames(baseClaims, user);
    CountOfTypeAppend(enriched, extra, "firstName");
    CountOfTypeAppend(enriched, extra, "lastName");
    CountedTypeIsFound(subject, "firstName");
    CountedTypeIsFound(subject, "lastName");
    NamedSubjectFailsOnlyOnEmail(sub, subject, requested);
  }
}
